/** The execution engine as functions over frame values. A frame's parent
    is a snapshot copy of the caller taken when the call starts: the child
    owns it, borrows arguments from it and updates it, and nothing else sees
    those updates. The class Stack.StackFrame is proved to follow these
    functions step by step. */
module Frames {
  import opened Results
  import opened Numbers
  import opened Tables
  import opened Values
  import opened Objects
  import Ops = Operators
  import opened Scopes

  /** One activation record: operand stack (top last), own scope, the value
      whose list holds the instructions, the number of arguments borrowed
      from the parent, and the parent snapshot. */
  datatype Frame = Frame(
    scope: Scope,
    contents: seq<Pair>,
    instructions: Value,
    argsTaken: int,
    outer: Option<Frame>)

  /** A frame with the console transcript printed so far. */
  datatype Machine = Machine(frame: Frame, output: string)

  function NewFrame(outer: Option<Frame>, scope: Scope, instructions: Value): Frame {
    Frame(scope, [], instructions, 0, outer)
  }

  /** The root frame of a program: terminal scope, no parent. */
  function FromInstructions(instructions: Value): Frame {
    NewFrame(None, Terminal(), instructions)
  }

  function On(m: Machine, f: Frame): Machine {
    Machine(f, m.output)
  }

  function Reversed<T>(s: seq<T>): (r: seq<T>)
    ensures |r| == |s|
    ensures forall i :: 0 <= i < |s| ==> r[i] == s[|s| - 1 - i]
  {
    seq(|s|, i requires 0 <= i < |s| => s[|s| - 1 - i])
  }

  // ------------------------------------------------------ stack primitives

  /** Takes the top entry; an empty frame borrows from its parent and counts
      the borrowed argument; an empty frame without parent is fatal. */
  function Pop(f: Frame): Outcome<(Pair, Frame)>
    decreases f.outer
  {
    if |f.contents| == 0 && f.outer.Some? then
      var (e, p) :- Pop(f.outer.value);
      Ok((e, f.(argsTaken := f.argsTaken + 1, outer := Some(p))))
    else if |f.contents| == 0 then Fail(StackUnderflow)
    else Ok((f.contents[|f.contents| - 1], f.(contents := f.contents[..|f.contents| - 1])))
  }

  /** As Pop, keeping only the value. */
  function PopValue(f: Frame): Outcome<(Value, Frame)> {
    var (e, g) :- Pop(f);
    Ok((e.first, g))
  }

  function Push(f: Frame, e: Pair): Frame {
    f.(contents := f.contents + [e])
  }

  /** Pushes a value paired with the frame's current scope. */
  function PushValue(f: Frame, v: Value): Frame {
    Push(f, Pair(v, f.scope))
  }

  /** Binds in the frame's scope; a value paired with exactly the frame's
      current scope is stored with the terminal scope instead. */
  function Store(f: Frame, name: string, e: Pair): Frame {
    f.(scope := Define(f.scope, name, if e.second != f.scope then e else Pair(e.first, Terminal())))
  }

  /** Resolves a name. An unbound result (Nothing with the terminal scope) is
      retried in the parent snapshot, which it may update; a frame without
      parent instead pops a value, binds it to the name, and retries. */
  function Load(f: Frame, name: string): Outcome<(Pair, Frame)>
    decreases f.outer, |f.contents|
  {
    var result := Get(f.scope, name);
    if result == Unbound() then
      match f.outer
      case Some(parent) =>
        var (e, p) :- Load(parent, name);
        Ok((e, f.(outer := Some(p))))
      case None =>
        var (v, g) :- Pop(f);
        Load(Store(g, name, v), name)
    else Ok((result, f))
  }

  /** Pops n entries, one after the other, and forgets them. */
  function Discard(f: Frame, n: int): Outcome<Frame>
    decreases n
  {
    if n <= 0 then Ok(f)
    else
      var (_, g) :- Pop(f);
      Discard(g, n - 1)
  }

  predicate HasInstance(contents: seq<Pair>) {
    exists i :: 0 <= i < |contents| && contents[i].first.vtype == Instance
  }

  /** The GetAttr/SetAttr name loop: while there is an Instance somewhere on
      the frame's own stack and the top is not one, pop the top as a name,
      failing if fewer than `least` entries remain. Names are collected top
      first. */
  function CollectNames(f: Frame, least: nat, names: seq<string>): Outcome<(seq<string>, Frame)>
    decreases |f.contents|
  {
    if !HasInstance(f.contents) then Fail(NoInstance)
    else if f.contents[|f.contents| - 1].first.vtype == Instance then Ok((names, f))
    else
      // pop_value on a non-empty stack
      var top := f.contents[|f.contents| - 1].first;
      var g := f.(contents := f.contents[..|f.contents| - 1]);
      if |g.contents| < least then Fail(TooFewItems)
      else CollectNames(g, least, names + [StringOf(top)])
  }

  // ------------------------------------------------------------ instructions

  /** 0 or 1, as the comparisons push. */
  function Flag(b: bool): Value {
    if b then NumValue(1) else NumValue(0)
  }

  function ExecPrint(m: Machine, newline: bool): Outcome<Machine> {
    var (v, f) :- PopValue(m.frame);
    Ok(Machine(f, m.output + Formatted(v) + (if newline then "\n" else "")))
  }

  function ExecWhile(h: Host, fuel: nat, m: Machine): Outcome<Machine>
    decreases fuel, 1, 1
  {
    var (condition, f1) :- PopValue(m.frame);
    var (body, f2) :- PopValue(f1);
    While(h, fuel, On(m, f2), condition, body)
  }

  function ExecIf(m: Machine): Outcome<Machine> {
    var (c, f1) :- PopValue(m.frame);
    var (a, f2) :- Pop(f1);
    var (b, f3) :- Pop(f2);
    Ok(On(m, Push(f3, if c != NumValue(0) && c != NothingValue() then a else b)))
  }

  function ExecAppend(m: Machine): Outcome<Machine> {
    var (list, f1) :- PopValue(m.frame);
    var (v, f2) :- PopValue(f1);
    Ok(On(m, PushValue(f2, ListPush(list, v))))
  }

  function ExecListPop(m: Machine): Outcome<Machine> {
    var (list, f1) :- PopValue(m.frame);
    Ok(On(m, PushValue(f1, ListPop(list))))
  }

  function ExecIndex(m: Machine): Outcome<Machine> {
    var (list, f1) :- PopValue(m.frame);
    var (index, f2) :- PopValue(f1);
    if (list.vtype == List || list.vtype == Function) && AsUsize(index) >= |list.list| then
      Fail(IndexPanic)
    else
      Ok(On(m, PushValue(f2, Objects.Index(list, index))))
  }

  function ExecEqual(m: Machine): Outcome<Machine> {
    var (a, f1) :- PopValue(m.frame);
    var (b, f2) :- PopValue(f1);
    Ok(On(m, PushValue(f2, Flag(a == b))))
  }

  function ExecGreater(m: Machine): Outcome<Machine> {
    var (a, f1) :- PopValue(m.frame);
    var (b, f2) :- PopValue(f1);
    Ok(On(m, PushValue(f2, Flag(AsNumber(a) > AsNumber(b)))))
  }

  function ExecLess(m: Machine): Outcome<Machine> {
    var (a, f1) :- PopValue(m.frame);
    var (b, f2) :- PopValue(f1);
    Ok(On(m, PushValue(f2, Flag(AsNumber(a) < AsNumber(b)))))
  }

  function ExecNot(m: Machine): Outcome<Machine> {
    var (a, f1) :- PopValue(m.frame);
    Ok(On(m, PushValue(f1, Ops.Not(a))))
  }

  /** Add, Mul, Sub, Div, Mod: the top value is the left operand. */
  function ExecArith(h: Host, m: Machine, op: Instruction): Outcome<Machine>
    requires Ops.IsArithmetic(op)
  {
    var (a, f1) :- PopValue(m.frame);
    var (b, f2) :- PopValue(f1);
    Ok(On(m, PushValue(f2, Ops.Binary(h, op, a, b))))
  }

  function ExecCall(h: Host, fuel: nat, m: Machine): Outcome<Machine>
    decreases fuel, 1, 1
  {
    var (callee, f1) :- Pop(m.frame);
    Call(h, fuel, On(m, f1), callee)
  }

  function ExecLoad(m: Machine): Outcome<Machine> {
    var (name, f1) :- PopValue(m.frame);
    var (e, f2) :- Load(f1, StringOf(name));
    Ok(On(m, Push(f2, e)))
  }

  function ExecStore(m: Machine): Outcome<Machine> {
    var (name, f1) :- PopValue(m.frame);
    var (e, f2) :- Pop(f1);
    Ok(On(m, Store(f2, StringOf(name), e)))
  }

  function ExecGetAttr(m: Machine): Outcome<Machine> {
    var (names, f1) :- CollectNames(m.frame, 1, []);
    if |names| < 1 then Fail(NoAttributeName)
    else
      var (obj, f2) :- PopValue(f1);
      var r := GetAttrRecursive(obj, Reversed(names));
      Ok(On(m, PushValue(f2, r.value)))
  }

  function ExecSetAttr(m: Machine): Outcome<Machine> {
    var (names, f1) :- CollectNames(m.frame, 2, []);
    if |names| < 1 then Fail(NoAttributeName)
    else WriteAlong(On(m, f1), Reversed(names))
  }

  /** The second half of SetAttr: the instance, then the data, come off the
      stack and the updated instance goes on. */
  function WriteAlong(m: Machine, path: seq<string>): Outcome<Machine>
    requires |path| >= 1
  {
    var (obj, f1) :- PopValue(m.frame);
    var (data, f2) :- PopValue(f1);
    var r := SetAttrRecursive(obj, path, data);
    Ok(On(m, PushValue(f2, r.value)))
  }

  function ExecExecute(h: Host, m: Machine): Outcome<Machine> {
    var (routine, f1) :- PopValue(m.frame);
    var (argument, f2) :- PopValue(f1);
    Ok(On(m, PushValue(f2, CallForeign(h, routine, argument))))
  }

  /** Every value that is not an instruction token (and the Pass token)
      pushes itself. */
  function ExecPass(m: Machine, instruction: Value): Outcome<Machine> {
    Ok(On(m, PushValue(m.frame, instruction)))
  }

  function Step(h: Host, fuel: nat, m: Machine, instruction: Value): Outcome<Machine>
    decreases fuel, 2, 0
  {
    match AsInstruction(instruction)
    case Print => ExecPrint(m, false)
    case Println => ExecPrint(m, true)
    case While => ExecWhile(h, fuel, m)
    case If => ExecIf(m)
    case Append => ExecAppend(m)
    case Pop => ExecListPop(m)
    case Index => ExecIndex(m)
    case Equal => ExecEqual(m)
    case Greater => ExecGreater(m)
    case Less => ExecLess(m)
    case Not => ExecNot(m)
    case Add => ExecArith(h, m, Instruction.Add)
    case Mul => ExecArith(h, m, Instruction.Mul)
    case Sub => ExecArith(h, m, Instruction.Sub)
    case Div => ExecArith(h, m, Instruction.Div)
    case Mod => ExecArith(h, m, Instruction.Mod)
    case Call => ExecCall(h, fuel, m)
    case Load => ExecLoad(m)
    case Store => ExecStore(m)
    case GetAttr => ExecGetAttr(m)
    case SetAttr => ExecSetAttr(m)
    case Execute => ExecExecute(h, m)
    case Pass => ExecPass(m, instruction)
  }

  // ------------------------------------------------------ running in bulk

  /** Steps through instructions[i..] in order, stopping at the first fault. */
  function RunFrom(h: Host, fuel: nat, m: Machine, instructions: seq<Value>, i: nat): Outcome<Machine>
    requires i <= |instructions|
    decreases fuel, 3, |instructions| - i
  {
    if i == |instructions| then Ok(m)
    else
      var m' :- Step(h, fuel, m, instructions[i]);
      RunFrom(h, fuel, m', instructions, i + 1)
  }

  /** Runs the frame's own instruction list. */
  function Run(h: Host, fuel: nat, m: Machine): Outcome<Machine>
    decreases fuel, 4, 0
  {
    RunFrom(h, fuel, m, m.frame.instructions.list, 0)
  }

  /** Runs the condition inline, pops its result, stops on the number zero
      or Nothing, otherwise runs the body inline and repeats. Each round
      costs one unit of fuel. */
  function While(h: Host, fuel: nat, m: Machine, condition: Value, body: Value): Outcome<Machine>
    decreases fuel, 1, 0
  {
    if fuel == 0 then Exhausted
    else
      var m1 :- RunFrom(h, fuel - 1, m, condition.list, 0);
      var (result, f2) :- PopValue(m1.frame);
      if result == NumValue(0) || result == NothingValue() then Ok(On(m1, f2))
      else
        var m3 :- RunFrom(h, fuel - 1, On(m1, f2), body.list, 0);
        While(h, fuel - 1, m3, condition, body)
  }

  /** The frame a call runs: the callee's own scope, its instructions, and a
      snapshot of the caller as parent. */
  function Callee(m: Machine, callee: Pair): Machine {
    Machine(NewFrame(Some(m.frame), callee.second, callee.first), m.output)
  }

  /** Runs the callee to completion, then removes from the caller as many
      entries as the callee borrowed and appends what the callee left, in
      its order. Each call costs one unit of fuel. */
  function Call(h: Host, fuel: nat, m: Machine, callee: Pair): Outcome<Machine>
    decreases fuel, 1, 0
  {
    if fuel == 0 then Exhausted
    else
      var done :- Run(h, fuel - 1, Callee(m, callee));
      var f1 :- Discard(m.frame, done.frame.argsTaken);
      Ok(Machine(f1.(contents := f1.contents + done.frame.contents), done.output))
  }
}
