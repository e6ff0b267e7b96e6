/** Arithmetic, logical negation and ordering on values. Arithmetic is
    defined only between values of the same type tag. */
module Operators {
  import opened Numbers
  import opened Values
  import opened Objects

  /** Shared shape of -, *, / and %: only two numbers combine. */
  function NumericOnly(a: Value, b: Value, result: Number): (r: Value)
    ensures a.vtype != b.vtype ==> r == ProblemValue(IncompatibleTypes)
    ensures a.vtype == b.vtype && a.vtype != Num ==> r == ProblemValue(ValueError)
    ensures a.vtype == b.vtype == Num ==> r == NumValue(result) && AsNumber(r) == result
  {
    if a.vtype != b.vtype then ProblemValue(IncompatibleTypes)
    else if a.vtype != Num then ProblemValue(ValueError)
    else NumValue(result)
  }

  /** Numbers add, strings concatenate (as text cut to eight bits per
      character), anything else of one type is a ValueError. */
  function Add(a: Value, b: Value): (r: Value)
    ensures a.vtype != b.vtype ==> r == ProblemValue(IncompatibleTypes)
    ensures a.vtype == b.vtype == Num ==> r == NumValue(AsNumber(a) + AsNumber(b))
    ensures a.vtype == b.vtype == Str ==> r == StrValue(StringOf(a) + StringOf(b))
    ensures a.vtype == b.vtype == Str ==> StringOf(r) == StringOf(a) + StringOf(b)
    ensures a.vtype == b.vtype && a.vtype != Num && a.vtype != Str ==> r == ProblemValue(ValueError)
  {
    if a.vtype != b.vtype then ProblemValue(IncompatibleTypes)
    else match a.vtype
      case Num => NumValue(AsNumber(a) + AsNumber(b))
      case Str =>
        var s := StringOf(a) + StringOf(b);
        StringRoundTrip(s);
        StrValue(s)
      case _ => ProblemValue(ValueError)
  }

  function Sub(a: Value, b: Value): Value {
    NumericOnly(a, b, AsNumber(a) - AsNumber(b))
  }

  function Mul(a: Value, b: Value): Value {
    NumericOnly(a, b, AsNumber(a) * AsNumber(b))
  }

  function Div(h: Host, a: Value, b: Value): Value {
    NumericOnly(a, b, h.div(AsNumber(a), AsNumber(b)))
  }

  function Rem(h: Host, a: Value, b: Value): Value {
    NumericOnly(a, b, h.rem(AsNumber(a), AsNumber(b)))
  }

  /** `!`: one for exactly the number zero, zero for everything else. */
  function Not(a: Value): (r: Value)
    ensures r == NumValue(0) || r == NumValue(1)
    ensures r == NumValue(1) <==> a == NumValue(0)
  {
    if a.vtype == Num then
      if a == NumValue(0) then NumValue(1) else NumValue(0)
    else NumValue(0)
  }

  predicate IsArithmetic(op: Instruction) {
    op.Add? || op.Mul? || op.Sub? || op.Div? || op.Mod?
  }

  /** The arithmetic instruction's operator; `a` is the operand taken first. */
  function Binary(h: Host, op: Instruction, a: Value, b: Value): Value
    requires IsArithmetic(op)
  {
    match op
    case Add => Add(a, b)
    case Mul => Mul(a, b)
    case Sub => Sub(a, b)
    case Div => Div(h, a, b)
    case Mod => Rem(h, a, b)
  }

  /** Mismatched tags are IncompatibleTypes under every operator, and every
      operator but + is a ValueError on two non-numbers of one tag (strings
      included). */
  lemma ArithmeticTypeDiscipline(h: Host, op: Instruction, a: Value, b: Value)
    requires IsArithmetic(op)
    ensures a.vtype != b.vtype ==> Binary(h, op, a, b) == ProblemValue(IncompatibleTypes)
    ensures a.vtype == b.vtype && a.vtype != Num && !op.Add? ==>
      Binary(h, op, a, b) == ProblemValue(ValueError)
    ensures a.vtype == b.vtype == Num ==> Binary(h, op, a, b).vtype == Num
  {
  }

  /** On numbers, subtraction undoes addition in either order, and swapping
      its operands negates the result. */
  lemma SubUndoesAdd(a: Value, b: Value)
    requires a.vtype == b.vtype == Num
    ensures Sub(Add(a, b), b) == NumValue(AsNumber(a))
    ensures Add(Sub(a, b), b) == NumValue(AsNumber(a))
    ensures AsNumber(Sub(b, a)) == -AsNumber(Sub(a, b))
  {
  }

  datatype Order = Below | Same | Above

  /** The total order of values: by their first number only. */
  function Compare(a: Value, b: Value): (o: Order)
    ensures o == Below <==> AsNumber(a) < AsNumber(b)
    ensures o == Above <==> AsNumber(a) > AsNumber(b)
  {
    if AsNumber(a) < AsNumber(b) then Below
    else if AsNumber(a) == AsNumber(b) then Same
    else Above
  }

  /** A value without contents (a list, an instance, Nothing, ...) compares
      exactly as the number zero does. */
  lemma EmptyComparesAsZero(a: Value, b: Value)
    requires a.contents == []
    ensures Compare(a, b) == Compare(NumValue(0), b)
    ensures Compare(b, a) == Compare(b, NumValue(0))
  {
  }

  /** Swapping the operands reverses the order. */
  lemma CompareAntisymmetric(a: Value, b: Value)
    ensures Compare(a, b) == Below <==> Compare(b, a) == Above
    ensures Compare(a, b) == Same <==> Compare(b, a) == Same
  {
  }
}
