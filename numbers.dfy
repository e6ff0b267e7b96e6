/** The numeric backend as seen by the core. The code wraps a decimal
    floating-point type; here a number is an integer, and division and
    remainder are supplied by the host (see Values.Host). */
module Numbers {

  type Number = int

  /** `as i32 as u8 as char`: only the low eight bits of the code survive. */
  function ToChar(n: Number): (c: char)
    ensures 0 <= c as int < 256
    ensures 0 <= n < 256 ==> c as int == n
    ensures c as int == n % 256
  {
    (n % 256) as char
  }

  /** `as i32 as usize` on a 64-bit target: negative values wrap around. */
  function ToUsize(n: Number): (u: nat)
    ensures u < 0x1_0000_0000_0000_0000
    ensures 0 <= n < 0x1_0000_0000_0000_0000 ==> u == n
    ensures -0x1_0000_0000_0000_0000 <= n < 0 ==> u == n + 0x1_0000_0000_0000_0000
  {
    n % 0x1_0000_0000_0000_0000
  }

  function DigitChar(d: nat): (c: char)
    requires d < 10
    ensures c as int - '0' as int == d
  {
    "0123456789"[d]
  }

  predicate AllDigits(s: string) {
    forall i :: 0 <= i < |s| ==> '0' <= s[i] <= '9'
  }

  /** Reference reading of a digit string: the number it spells in base 10. */
  function DecimalValue(s: string): nat
    requires AllDigits(s)
  {
    if |s| == 0 then 0
    else 10 * DecimalValue(s[..|s| - 1]) + (s[|s| - 1] as int - '0' as int)
  }

  function Digits(n: nat): (s: string)
    ensures |s| > 0
    ensures AllDigits(s)
  {
    if n < 10 then [DigitChar(n)] else Digits(n / 10) + [DigitChar(n % 10)]
  }

  /** The digits spell n, without a leading zero. */
  lemma {:induction false} DigitsDenote(n: nat)
    ensures DecimalValue(Digits(n)) == n
    ensures |Digits(n)| > 1 ==> Digits(n)[0] != '0'
    ensures Digits(n)[0] == '0' <==> n == 0
  {
    if n >= 10 {
      DigitsDenote(n / 10);
      var s := Digits(n);
      assert s[..|s| - 1] == Digits(n / 10);
      assert s[0] == Digits(n / 10)[0];
    }
  }

  /** Decimal text of a number, as the backend's Display writes integers. */
  function Text(n: Number): (s: string)
    ensures |s| > 0
    ensures n >= 0 ==> AllDigits(s)
    ensures n < 0 ==> s[0] == '-' && AllDigits(s[1..]) && |s| > 1
  {
    if n < 0 then "-" + Digits(-n) else Digits(n)
  }

  /** Reference reading of a number's text: an optional minus, then digits. */
  function ReadText(s: string): int
    requires |s| > 0
    requires s[0] == '-' ==> AllDigits(s[1..])
    requires s[0] != '-' ==> AllDigits(s)
  {
    if s[0] == '-' then -(DecimalValue(s[1..]) as int) else DecimalValue(s)
  }

  /** The text of a number reads back as that number; it has a minus sign
      exactly for a negative number, and no leading zero except for 0. */
  lemma TextRoundTrip(n: Number)
    ensures ReadText(Text(n)) == n
    ensures Text(n)[0] == '-' <==> n < 0
    ensures var d := if n < 0 then Text(n)[1..] else Text(n);
      |d| > 0 && (|d| > 1 ==> d[0] != '0')
  {
    var s := Text(n);
    if n < 0 {
      var d := Digits(-n);
      DigitsDenote(-n);
      assert s == "-" + d;
      assert s[1..] == d;
    } else {
      DigitsDenote(n);
      assert s == Digits(n);
      assert '0' <= s[0] <= '9';
    }
  }
}
