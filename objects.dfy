/** The behaviour every value has: literal constructors, conversions, the
    attribute table, nested attribute paths, indexing, list operations and
    the deterministic text format. */
module Objects {
  import opened Results
  import opened Numbers
  import opened Tables
  import opened Values

  // ---------------------------------------------------------------- literals

  function EmptyInstance(): Value {
    New(Instance, [])
  }

  /** The code of each character (the module-level `from_string`). */
  function Codes(s: string): (c: seq<Number>)
    ensures |c| == |s|
    ensures forall i :: 0 <= i < |s| ==> c[i] == s[i] as int
  {
    seq(|s|, i requires 0 <= i < |s| => s[i] as int)
  }

  /** The module-level `from_string`, which builds the codes one by one. */
  method FromString(s: string) returns (c: seq<Number>)
    ensures c == Codes(s)
  {
    c := [];
    for i := 0 to |s|
      invariant |c| == i
      invariant forall j :: 0 <= j < i ==> c[j] == s[j] as int
    {
      c := c + [s[i] as int];
    }
  }

  function StrValue(s: string): Value {
    New(Str, Codes(s))
  }

  function NumValue(n: Number): Value {
    New(Num, [n])
  }

  function InstructionValue(i: Instruction): Value {
    New(Command(i), [])
  }

  function ProblemValue(p: Problem): Value {
    New(Problem(p), [])
  }

  function NothingValue(): Value {
    New(Nothing, [])
  }

  function ListValue(items: seq<Value>): Value {
    New(List, []).(list := items)
  }

  function FunctionValue(body: seq<Value>): Value {
    New(Function, []).(list := body)
  }

  function ForeignValue(routine: NativeId): Value {
    New(Function, []).(native := routine)
  }

  // ------------------------------------------------------------ conversions

  /** An attribute, or Nothing when it is absent. */
  function GetAttr(v: Value, name: string): (r: Value)
    ensures v.attributes.Get(name).Some? ==> r == v.attributes.Get(name).value
    ensures name !in v.attributes.Keys() ==> r == NothingValue()
  {
    match v.attributes.Get(name)
    case Some(o) => o
    case None => NothingValue()
  }

  /** The first number of the contents; zero when there is none. */
  function AsNumber(v: Value): (n: Number)
    ensures |v.contents| > 0 ==> n == v.contents[0]
    ensures v.contents == [] ==> n == 0
  {
    if |v.contents| > 0 then v.contents[0] else 0
  }

  function AsUsize(v: Value): nat {
    if |v.contents| > 0 then ToUsize(v.contents[0]) else 0
  }

  /** One character per number of the contents, each cut to eight bits. */
  function StringOf(v: Value): (s: string)
    ensures |s| == |v.contents|
    ensures forall i :: 0 <= i < |s| ==> s[i] == ToChar(v.contents[i])
  {
    seq(|v.contents|, i requires 0 <= i < |v.contents| => ToChar(v.contents[i]))
  }

  /** `as_string`, which appends the characters one by one. */
  method AsString(v: Value) returns (s: string)
    ensures s == StringOf(v)
  {
    s := "";
    for i := 0 to |v.contents|
      invariant |s| == i
      invariant forall j :: 0 <= j < i ==> s[j] == ToChar(v.contents[j])
    {
      s := s + [ToChar(v.contents[i])];
    }
  }

  function AsInstruction(v: Value): (i: Instruction)
    ensures v.vtype.Command? ==> i == v.vtype.instruction
    ensures !v.vtype.Command? ==> i == Pass
  {
    match v.vtype
    case Command(i) => i
    case _ => Pass
  }

  /** Text survives the trip through codes when every character is below 256. */
  lemma StringRoundTrip(s: string)
    requires forall i :: 0 <= i < |s| ==> s[i] as int < 256
    ensures StringOf(StrValue(s)) == s
  {
  }

  /** Codes survive the trip through text exactly when they are all in
      0..255. */
  lemma CodesRoundTrip(v: Value)
    ensures Codes(StringOf(v)) == v.contents <==>
      forall i :: 0 <= i < |v.contents| ==> 0 <= v.contents[i] < 256
  {
    if Codes(StringOf(v)) == v.contents {
      forall i | 0 <= i < |v.contents|
        ensures 0 <= v.contents[i] < 256
      {
        assert v.contents[i] == Codes(StringOf(v))[i] == ToChar(v.contents[i]) as int;
      }
    }
  }

  // ------------------------------------------------------------- attributes

  function SetAttr(v: Value, name: string, o: Value): (r: Value)
    ensures r.attributes == v.attributes.Set(name, o)
    ensures r.(attributes := v.attributes) == v
  {
    v.(attributes := v.attributes.Set(name, o))
  }

  /** The attribute at the end of a path of names, reading a missing level
      on the way as an empty instance; fatal for an empty path. */
  function GetAttrRecursive(v: Value, names: seq<string>): (r: Outcome<Value>)
    ensures r.Fail? <==> names == []
    ensures r.Fail? ==> r.fatal == NoAttributeName
    ensures !r.Exhausted?
    decreases |names|
  {
    if |names| < 1 then Fail(NoAttributeName)
    else if |names| == 1 then
      match v.attributes.Get(names[0])
      case Some(o) => Ok(o)
      case None => Ok(NothingValue())
    else
      var next := match v.attributes.Get(names[0])
        case Some(o) => o
        case None => EmptyInstance();
      GetAttrRecursive(next, names[1..])
  }

  /** Assigns at the end of a path of names, creating missing levels as
      empty instances, and gives back the updated receiver; fatal for an
      empty path. Only the receiver's attribute table changes. */
  function SetAttrRecursive(v: Value, names: seq<string>, o: Value): (r: Outcome<Value>)
    ensures r.Fail? <==> names == []
    ensures r.Fail? ==> r.fatal == NoAttributeName
    ensures !r.Exhausted?
    ensures r.Ok? ==> r.value.(attributes := v.attributes) == v
    ensures r.Ok? && names[0] in v.attributes.Keys() ==> r.value.attributes.Keys() == v.attributes.Keys()
    ensures r.Ok? && names[0] !in v.attributes.Keys() ==> r.value.attributes.Keys() == v.attributes.Keys() + [names[0]]
    decreases |names|
  {
    if |names| < 1 then Fail(NoAttributeName)
    else if |names| == 1 then Ok(SetAttr(v, names[0], o))
    else
      var next := match v.attributes.Get(names[0])
        case Some(x) => x
        case None => EmptyInstance();
      var child := SetAttrRecursive(next, names[1..], o);
      Ok(SetAttr(v, names[0], child.value))
  }

  /** A path of one name reads the stored attribute, or Nothing. */
  lemma GetAttrSingle(v: Value, name: string)
    ensures GetAttrRecursive(v, [name]) == Ok(GetAttr(v, name))
    ensures name in v.attributes.Keys() ==> GetAttrRecursive(v, [name]) == Ok(v.attributes.Get(name).value)
    ensures name !in v.attributes.Keys() ==> GetAttrRecursive(v, [name]) == Ok(NothingValue())
  {
  }

  /** Every non-empty path through an empty instance reads Nothing. */
  lemma {:induction false} EmptyInstanceReadsNothing(names: seq<string>)
    requires names != []
    ensures GetAttrRecursive(EmptyInstance(), names) == Ok(NothingValue())
    decreases |names|
  {
    if |names| > 1 {
      EmptyInstanceReadsNothing(names[1..]);
    }
  }

  /** A missing intermediate level reads as an empty instance, so the whole
      path reads Nothing. */
  lemma GetAttrMissingLevel(v: Value, names: seq<string>)
    requires |names| >= 2 && names[0] !in v.attributes.Keys()
    ensures GetAttrRecursive(v, names) == Ok(NothingValue())
  {
    EmptyInstanceReadsNothing(names[1..]);
  }

  /** Reading a path just assigned gives the value assigned. */
  lemma {:induction false} GetAfterSetAttrRecursive(v: Value, names: seq<string>, o: Value)
    requires names != []
    ensures SetAttrRecursive(v, names, o).Ok?
    ensures GetAttrRecursive(SetAttrRecursive(v, names, o).value, names) == Ok(o)
    decreases |names|
  {
    if |names| > 1 {
      var next := match v.attributes.Get(names[0])
        case Some(x) => x
        case None => EmptyInstance();
      GetAfterSetAttrRecursive(next, names[1..], o);
    }
  }

  /** Assigning a single name leaves every other attribute as it was. */
  lemma SetAttrSingleOthers(v: Value, name: string, o: Value, other: string)
    requires other != name
    ensures SetAttrRecursive(v, [name], o).Ok?
    ensures GetAttr(SetAttrRecursive(v, [name], o).value, other) == GetAttr(v, other)
  {
  }

  /** Assigning the same single name twice is the same as assigning the
      second value once: the key keeps its first position and holds the
      second value, and no second entry appears. */
  lemma SetAttrTwice(v: Value, name: string, o1: Value, o2: Value)
    ensures SetAttrRecursive(v, [name], o1).Ok?
    ensures SetAttrRecursive(SetAttrRecursive(v, [name], o1).value, [name], o2)
         == SetAttrRecursive(v, [name], o2)
  {
    Tables.SetTwice(v.attributes, name, o1, o2);
  }

  // ---------------------------------------------------------- index, lists

  /** Indexing: a one-character Str, or OutOfRange, for a Str receiver; an
      element for a List or Function (the caller keeps the position in
      bounds, the code panics otherwise); ValueError for any other type. */
  function Index(v: Value, index: Value): (r: Value)
    requires (v.vtype == List || v.vtype == Function) ==> AsUsize(index) < |v.list|
    ensures v.vtype == Str && AsUsize(index) < |v.contents| ==>
      r == StrValue([StringOf(v)[AsUsize(index)]]) && StringOf(r) == [StringOf(v)[AsUsize(index)]]
    ensures v.vtype == Str && AsUsize(index) >= |v.contents| ==> r == ProblemValue(OutOfRange)
    ensures v.vtype == List || v.vtype == Function ==> r == v.list[AsUsize(index)]
    ensures v.vtype != Str && v.vtype != List && v.vtype != Function ==> r == ProblemValue(ValueError)
  {
    match v.vtype
    case Str =>
      var s := StringOf(v);
      var k := AsUsize(index);
      if k < |s| then StrValue([s[k]]) else ProblemValue(OutOfRange)
    case List => v.list[AsUsize(index)]
    case Function => v.list[AsUsize(index)]
    case _ => ProblemValue(ValueError)
  }

  /** Makes the receiver a List and appends at the end. */
  function ListPush(v: Value, o: Value): (r: Value)
    ensures r.vtype == List && r.list == v.list + [o]
    ensures r.(vtype := v.vtype, list := v.list) == v
  {
    v.(vtype := List, list := v.list + [o])
  }

  /** The last element of the list, or Nothing; the receiver keeps it. */
  function ListPop(v: Value): (r: Value)
    ensures |v.list| > 0 ==> r == v.list[|v.list| - 1]
    ensures v.list == [] ==> r == NothingValue()
  {
    if |v.list| > 0 then v.list[|v.list| - 1] else NothingValue()
  }

  lemma ListPopAfterPush(v: Value, o: Value)
    ensures ListPop(ListPush(v, o)) == o
  {
  }

  /** The native routine behind a value, applied to an argument. */
  function CallForeign(h: Host, v: Value, argument: Value): (r: Value)
    ensures v.native == IdentityNative ==> r == argument
  {
    if v.native == IdentityNative then argument else h.foreign(v.native, argument)
  }

  // ---------------------------------------------------------------- format

  /** The items joined by ", ". */
  function Join(items: seq<string>): string
    decreases |items|
  {
    if |items| == 0 then ""
    else if |items| == 1 then items[0]
    else Join(items[..|items| - 1]) + ", " + items[|items| - 1]
  }

  function ProblemName(p: Problem): string {
    match p
    case IncompatibleTypes => "IncompatibleTypes"
    case ValueError => "ValueError"
    case OutOfRange => "OutOfRange"
  }

  function InstructionName(i: Instruction): string {
    match i
    case Print => "Print"       case Println => "Println"   case While => "While"
    case If => "If"             case Append => "Append"     case Pop => "Pop"
    case Index => "Index"       case Equal => "Equal"       case Greater => "Greater"
    case Less => "Less"         case Not => "Not"           case Add => "Add"
    case Mul => "Mul"           case Sub => "Sub"           case Div => "Div"
    case Mod => "Mod"           case Call => "Call"         case Load => "Load"
    case Store => "Store"       case GetAttr => "GetAttr"   case SetAttr => "SetAttr"
    case Execute => "Execute"   case Pass => "Pass"
  }

  /** The text of each element of a list. */
  function FormattedItems(v: Value): (r: seq<string>)
    decreases v, 0
  {
    seq(|v.list|, i requires 0 <= i < |v.list| => Formatted(v.list[i]))
  }

  /** `key:value` for each key, in table order, the value being what
      get_attr finds for the key. */
  function FormattedAttributes(v: Value): (r: seq<string>)
    decreases v, 1
  {
    var es := v.attributes.entries;
    seq(|es|, i requires 0 <= i < |es| => es[i].0 + ":" + FormattedAttribute(v, es[i].0))
  }

  /** The text of get_attr(key): the first entry with that key, or the text
      of Nothing. */
  function FormattedAttribute(v: Value, key: string): string
    decreases v, 0
  {
    var es := v.attributes.entries;
    var j := v.attributes.Find(key);
    if j < |es| then Formatted(es[j].1) else "None"
  }

  /** The deterministic text of a value. */
  function Formatted(v: Value): string
    decreases v, 2
  {
    match v.vtype
    case Str => StringOf(v)
    case Num => Text(AsNumber(v))
    case List => if |v.list| == 0 then "[]" else "[" + Join(FormattedItems(v)) + "]"
    case Instance =>
      if |v.attributes.Keys()| < 1 then "<>" else "<" + Join(FormattedAttributes(v)) + ">"
    case Function => "Function"
    case Nothing => "None"
    case Problem(p) => ProblemName(p)
    case Command(c) => InstructionName(c)
  }

  /** `format`, which appends each part followed by ", " and then takes the
      last separator off again. */
  method Format(v: Value) returns (s: string)
    ensures s == Formatted(v)
    decreases v, 2
  {
    match v.vtype {
      case Str =>
        s := AsString(v);
      case Num =>
        s := Text(AsNumber(v));
      case List =>
        s := FormatList(v);
      case Instance =>
        s := FormatInstance(v);
      case Function =>
        s := "Function";
      case Nothing =>
        s := "None";
      case Problem(p) =>
        s := ProblemName(p);
      case Command(c) =>
        s := InstructionName(c);
    }
  }

  method FormatList(v: Value) returns (s: string)
    requires v.vtype == List
    ensures s == Formatted(v)
    decreases v, 0
  {
    if |v.list| == 0 {
      return "[]";
    }
    ghost var items := FormattedItems(v);
    var result := "[";
    for i := 0 to |v.list|
      invariant i == 0 ==> result == "["
      invariant i > 0 ==> result == "[" + Join(items[..i]) + ", "
    {
      var t := Format(v.list[i]);
      JoinGrows("[", result, items, i, t);
      result := result + t + ", ";
    }
    assert items[..|v.list|] == items;
    SeparatorDropped("[", Join(items), result);
    result := result[..|result| - 1];
    result := result[..|result| - 1];
    s := result + "]";
  }

  method FormatInstance(v: Value) returns (s: string)
    requires v.vtype == Instance
    ensures s == Formatted(v)
    decreases v, 1
  {
    var es := v.attributes.entries;
    if |es| < 1 {
      return "<>";
    }
    ghost var parts := FormattedAttributes(v);
    var result := "<";
    for i := 0 to |es|
      invariant i == 0 ==> result == "<"
      invariant i > 0 ==> result == "<" + Join(parts[..i]) + ", "
    {
      var t := FormatAttribute(v, es[i].0);
      PartGrows(v, result, i, t);
      result := result + es[i].0 + ":" + t + ", ";
    }
    assert parts[..|es|] == parts;
    InstanceText(v);
    SeparatorDropped("<", Join(parts), result);
    result := result[..|result| - 1];
    result := result[..|result| - 1];
    s := result + ">";
  }

  /** The text of an instance with keys, unfolded once. */
  lemma InstanceText(v: Value)
    requires v.vtype == Instance && |v.attributes.entries| > 0
    ensures Formatted(v) == "<" + Join(FormattedAttributes(v)) + ">"
  {
  }

  /** Appending part i of an instance's text, with its separator, extends
      the joined prefix. */
  lemma PartGrows(v: Value, acc: string, i: nat, t: string)
    requires i < |v.attributes.entries|
    requires t == FormattedAttribute(v, v.attributes.entries[i].0)
    requires i == 0 ==> acc == "<"
    requires i > 0 ==> acc == "<" + Join(FormattedAttributes(v)[..i]) + ", "
    ensures acc + v.attributes.entries[i].0 + ":" + t + ", " ==
      "<" + Join(FormattedAttributes(v)[..i + 1]) + ", "
  {
    var key := v.attributes.entries[i].0;
    assert FormattedAttributes(v)[i] == key + ":" + t;
    JoinGrows("<", acc, FormattedAttributes(v), i, key + ":" + t);
  }

  /** `get_attr(key).format()`: the text of the first entry with that key,
      or the text of Nothing. */
  method FormatAttribute(v: Value, key: string) returns (t: string)
    ensures t == FormattedAttribute(v, key)
    decreases v, 0
  {
    var j := v.attributes.Find(key);
    t := "None";
    if j < |v.attributes.entries| {
      t := Format(v.attributes.entries[j].1);
    }
  }

  /** One more part appended with its separator extends the joined prefix. */
  lemma JoinGrows(open: string, acc: string, items: seq<string>, i: nat, t: string)
    requires i < |items| && t == items[i]
    requires i == 0 ==> acc == open
    requires i > 0 ==> acc == open + Join(items[..i]) + ", "
    ensures acc + t + ", " == open + Join(items[..i + 1]) + ", "
  {
    assert items[..i + 1][..i] == items[..i];
  }

  /** Taking the last two characters off drops the trailing ", ". */
  lemma SeparatorDropped(open: string, body: string, acc: string)
    requires acc == open + body + ", "
    ensures |acc| >= 2 && acc[..|acc| - 1][..|acc| - 2] == open + body
  {
    assert acc[..|acc| - 1][..|acc| - 2] == acc[..|acc| - 2];
  }

  lemma FormatEmpty()
    ensures Formatted(ListValue([])) == "[]"
    ensures Formatted(EmptyInstance()) == "<>"
    ensures Formatted(FunctionValue([])) == "Function"
    ensures Formatted(NothingValue()) == "None"
  {
  }

  /** The list [Str "a", Num 1] formats as "[a, 1]". */
  lemma FormatListExample()
    ensures Formatted(ListValue([StrValue("a"), NumValue(1)])) == "[a, 1]"
  {
    var v := ListValue([StrValue("a"), NumValue(1)]);
    assert Formatted(v.list[0]) == "a";
    assert Formatted(v.list[1]) == "1";
    var items := FormattedItems(v);
    assert items == ["a", "1"];
    assert items[..1] == ["a"];
  }

  /** The text of attribute i is its key and the text of what `get_attr`
      gives for that key; with unique keys that is the value stored at i. */
  lemma FormattedAttributeAt(v: Value, i: nat)
    requires i < |v.attributes.entries|
    ensures FormattedAttributes(v)[i] ==
      v.attributes.Keys()[i] + ":" + Formatted(GetAttr(v, v.attributes.Keys()[i]))
    ensures v.attributes.Valid() ==>
      FormattedAttributes(v)[i] == v.attributes.Keys()[i] + ":" + Formatted(v.attributes.entries[i].1)
  {
    var key := v.attributes.entries[i].0;
    assert FormattedAttribute(v, key) == Formatted(GetAttr(v, key));
    if v.attributes.Valid() {
      GetAt(v.attributes, i);
    }
  }
}
