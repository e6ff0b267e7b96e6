/** The single dynamically typed value of the machine and its type tags. */
module Values {
  import opened Numbers
  import opened Tables

  datatype Instruction =
    | Print | Println | While | If | Append | Pop | Index
    | Equal | Greater | Less | Not
    | Add | Mul | Sub | Div | Mod
    | Call | Load | Store | GetAttr | SetAttr | Execute | Pass

  datatype Problem = IncompatibleTypes | ValueError | OutOfRange

  datatype Type =
    | Str | Num | List | Function | Instance
    | Problem(problem: Problem)
    | Nothing
    | Command(instruction: Instruction)

  /** A native routine is identified by a handle; the host gives it meaning. */
  type NativeId = nat

  /** The handle of the identity routine every new value starts with. */
  const IdentityNative: NativeId := 0

  /** All five fields exist on every value; which of them matters depends on
      the tag: `contents` for Str (one code per character) and Num (one
      number), `list` for List and Function, `attributes` for Instance,
      `native` for a Function wrapping a native routine. */
  datatype Value = Value(
    vtype: Type,
    native: NativeId,
    contents: seq<Number>,
    list: seq<Value>,
    attributes: Table<Value>)

  /** `Object::new`: the given tag and contents, with an empty list, an empty
      attribute table and the identity native routine. */
  function New(t: Type, contents: seq<Number>): (v: Value)
    ensures v.vtype == t && v.contents == contents
    ensures v.list == [] && v.attributes.Keys() == [] && v.native == IdentityNative
  {
    Value(t, IdentityNative, contents, [], EmptyTable())
  }

  /** What the engine cannot see: the backend's division and remainder, and
      the native routines behind the handles other than IdentityNative. */
  datatype Host = Host(
    div: (Number, Number) -> Number,
    rem: (Number, Number) -> Number,
    foreign: (NativeId, Value) -> Value)
}
