/** The stack frame as an object whose methods update it in place. Every
    method is proved to leave the frame in the state the corresponding
    function of module Frames computes, and to report the same fault. The
    parent frame is held as a value: it is the frame's own copy of the
    caller, taken when the call starts. */
module Stack {
  import opened Results
  import Values
  import opened Objects
  import Ops = Operators
  import opened Scopes
  import F = Frames

  class StackFrame {
    const host: Values.Host
    var scope: Scope
    var contents: seq<Pair>
    const instructions: Values.Value
    var argsTaken: int
    var outer: Option<F.Frame>
    /** What print and println have written so far. */
    var output: string

    function Snapshot(): F.Frame
      reads this
    {
      F.Frame(scope, contents, instructions, argsTaken, outer)
    }

    function State(): F.Machine
      reads this
    {
      F.Machine(Snapshot(), output)
    }

    /** The method produced r and the frame is now in the state the
        specification gave with the same result. */
    predicate Took<T(==)>(r: Outcome<T>, spec: Outcome<(T, F.Frame)>)
      reads this
    {
      match spec
      case Ok((x, g)) => r == Ok(x) && Snapshot() == g
      case Fail(e) => r == Fail(e)
      case Exhausted => r == Exhausted
    }

    predicate Became(r: Outcome<()>, spec: Outcome<F.Machine>)
      reads this
    {
      match spec
      case Ok(m) => r == Ok(()) && State() == m
      case Fail(e) => r == Fail(e)
      case Exhausted => r == Exhausted
    }

    constructor (host: Values.Host, outer: Option<F.Frame>, scope: Scope, instructions: Values.Value, output: string)
      ensures this.host == host
      ensures State() == F.Machine(F.NewFrame(outer, scope, instructions), output)
    {
      this.host := host;
      this.scope := scope;
      this.contents := [];
      this.instructions := instructions;
      this.argsTaken := 0;
      this.outer := outer;
      this.output := output;
    }

    constructor FromInstructions(host: Values.Host, instructions: Values.Value)
      ensures this.host == host
      ensures State() == F.Machine(F.FromInstructions(instructions), "")
    {
      this.host := host;
      this.scope := Terminal();
      this.contents := [];
      this.instructions := instructions;
      this.argsTaken := 0;
      this.outer := None;
      this.output := "";
    }

    // ---------------------------------------------------- stack primitives

    method Pop() returns (r: Outcome<Pair>)
      modifies this`contents, this`argsTaken, this`outer
      ensures Took(r, F.Pop(old(Snapshot())))
    {
      if |contents| == 0 && outer.Some? {
        argsTaken := argsTaken + 1;
        var borrowed := F.Pop(outer.value);
        if borrowed.Ok? {
          outer := Some(borrowed.value.1);
          r := Ok(borrowed.value.0);
        } else {
          r := borrowed.PropagateFailure();
        }
      } else if |contents| == 0 {
        r := Fail(StackUnderflow);
      } else {
        r := Ok(contents[|contents| - 1]);
        contents := contents[..|contents| - 1];
      }
    }

    method PopValue() returns (r: Outcome<Values.Value>)
      modifies this`contents, this`argsTaken, this`outer
      ensures Took(r, F.PopValue(old(Snapshot())))
    {
      var e := Pop();
      if e.Ok? {
        r := Ok(e.value.first);
      } else {
        r := e.PropagateFailure();
      }
    }

    method Push(e: Pair)
      modifies this`contents
      ensures Snapshot() == F.Push(old(Snapshot()), e)
    {
      contents := contents + [e];
    }

    method PushValue(v: Values.Value)
      modifies this`contents
      ensures Snapshot() == F.PushValue(old(Snapshot()), v)
    {
      contents := contents + [Pair(v, scope)];
    }

    method Store(name: string, e: Pair)
      modifies this`scope
      ensures Snapshot() == F.Store(old(Snapshot()), name, e)
    {
      if e.second != scope {
        scope := Define(scope, name, e);
      } else {
        scope := Define(scope, name, Pair(e.first, Terminal()));
      }
    }

    method Load(name: string) returns (r: Outcome<Pair>)
      modifies this`contents, this`argsTaken, this`outer, this`scope
      ensures Took(r, F.Load(old(Snapshot()), name))
      decreases |contents|
    {
      var result := Get(scope, name);
      if result == Unbound() {
        if outer.Some? {
          var found := F.Load(outer.value, name);
          if found.Ok? {
            outer := Some(found.value.1);
            r := Ok(found.value.0);
          } else {
            r := found.PropagateFailure();
          }
        } else {
          var v := Pop();
          if !v.Ok? {
            return v.PropagateFailure();
          }
          Store(name, v.value);
          r := Load(name);
        }
      } else {
        r := Ok(result);
      }
    }

    /** The name loop of GetAttr and SetAttr. */
    method CollectNames(least: nat) returns (r: Outcome<seq<string>>)
      modifies this`contents, this`argsTaken, this`outer
      ensures Took(r, F.CollectNames(old(Snapshot()), least, []))
    {
      var names: seq<string> := [];
      while F.HasInstance(contents) && contents[|contents| - 1].first.vtype != Values.Instance
        invariant outer == old(outer) && argsTaken == old(argsTaken)
        invariant F.CollectNames(Snapshot(), least, names) == F.CollectNames(old(Snapshot()), least, [])
        decreases |contents|
      {
        var v := PopValue();
        var name := AsString(v.value);
        names := names + [name];
        if |contents| < least {
          return Fail(TooFewItems);
        }
      }
      if !F.HasInstance(contents) {
        return Fail(NoInstance);
      }
      r := Ok(names);
    }
  
    // -------------------------------------------------------- instructions

    method ExecPrint(newline: bool) returns (r: Outcome<()>)
      modifies this
      ensures Became(r, F.ExecPrint(old(State()), newline))
    {
      var v := PopValue();
      if !v.Ok? {
        return v.PropagateFailure();
      }
      var text := Format(v.value);
      output := output + text + (if newline then "\n" else "");
      r := Ok(());
    }

    method ExecWhile(fuel: nat) returns (r: Outcome<()>)
      modifies this
      ensures Became(r, F.ExecWhile(host, fuel, old(State())))
      decreases fuel, 1, 1
    {
      var condition := PopValue();
      if !condition.Ok? {
        return condition.PropagateFailure();
      }
      var body := PopValue();
      if !body.Ok? {
        return body.PropagateFailure();
      }
      r := While(fuel, condition.value, body.value);
    }

    method ExecIf() returns (r: Outcome<()>)
      modifies this
      ensures Became(r, F.ExecIf(old(State())))
    {
      var c := PopValue();
      if !c.Ok? {
        return c.PropagateFailure();
      }
      var a := Pop();
      if !a.Ok? {
        return a.PropagateFailure();
      }
      var b := Pop();
      if !b.Ok? {
        return b.PropagateFailure();
      }
      if c.value != NumValue(0) && c.value != NothingValue() {
        Push(a.value);
      } else {
        Push(b.value);
      }
      r := Ok(());
    }

    method ExecAppend() returns (r: Outcome<()>)
      modifies this
      ensures Became(r, F.ExecAppend(old(State())))
    {
      var list := PopValue();
      if !list.Ok? {
        return list.PropagateFailure();
      }
      var v := PopValue();
      if !v.Ok? {
        return v.PropagateFailure();
      }
      PushValue(ListPush(list.value, v.value));
      r := Ok(());
    }

    method ExecListPop() returns (r: Outcome<()>)
      modifies this
      ensures Became(r, F.ExecListPop(old(State())))
    {
      var list := PopValue();
      if !list.Ok? {
        return list.PropagateFailure();
      }
      PushValue(ListPop(list.value));
      r := Ok(());
    }

    method ExecIndex() returns (r: Outcome<()>)
      modifies this
      ensures Became(r, F.ExecIndex(old(State())))
    {
      var list := PopValue();
      if !list.Ok? {
        return list.PropagateFailure();
      }
      var index := PopValue();
      if !index.Ok? {
        return index.PropagateFailure();
      }
      var l := list.value;
      if (l.vtype == Values.List || l.vtype == Values.Function) && AsUsize(index.value) >= |l.list| {
        return Fail(IndexPanic);
      }
      PushValue(Index(l, index.value));
      r := Ok(());
    }

    method ExecEqual() returns (r: Outcome<()>)
      modifies this
      ensures Became(r, F.ExecEqual(old(State())))
    {
      var a := PopValue();
      if !a.Ok? {
        return a.PropagateFailure();
      }
      var b := PopValue();
      if !b.Ok? {
        return b.PropagateFailure();
      }
      if a.value == b.value {
        PushValue(NumValue(1));
      } else {
        PushValue(NumValue(0));
      }
      r := Ok(());
    }

    method ExecGreater() returns (r: Outcome<()>)
      modifies this
      ensures Became(r, F.ExecGreater(old(State())))
    {
      var a := PopValue();
      if !a.Ok? {
        return a.PropagateFailure();
      }
      var b := PopValue();
      if !b.Ok? {
        return b.PropagateFailure();
      }
      if AsNumber(a.value) > AsNumber(b.value) {
        PushValue(NumValue(1));
      } else {
        PushValue(NumValue(0));
      }
      r := Ok(());
    }

    method ExecLess() returns (r: Outcome<()>)
      modifies this
      ensures Became(r, F.ExecLess(old(State())))
    {
      var a := PopValue();
      if !a.Ok? {
        return a.PropagateFailure();
      }
      var b := PopValue();
      if !b.Ok? {
        return b.PropagateFailure();
      }
      if AsNumber(a.value) < AsNumber(b.value) {
        PushValue(NumValue(1));
      } else {
        PushValue(NumValue(0));
      }
      r := Ok(());
    }

    method ExecNot() returns (r: Outcome<()>)
      modifies this
      ensures Became(r, F.ExecNot(old(State())))
    {
      var a := PopValue();
      if !a.Ok? {
        return a.PropagateFailure();
      }
      PushValue(Ops.Not(a.value));
      r := Ok(());
    }

    method ExecArith(op: Values.Instruction) returns (r: Outcome<()>)
      requires Ops.IsArithmetic(op)
      modifies this
      ensures Became(r, F.ExecArith(host, old(State()), op))
    {
      var a := PopValue();
      if !a.Ok? {
        return a.PropagateFailure();
      }
      var b := PopValue();
      if !b.Ok? {
        return b.PropagateFailure();
      }
      PushValue(Ops.Binary(host, op, a.value, b.value));
      r := Ok(());
    }

    method ExecCall(fuel: nat) returns (r: Outcome<()>)
      modifies this
      ensures Became(r, F.ExecCall(host, fuel, old(State())))
      decreases fuel, 1, 1
    {
      var callee := Pop();
      if !callee.Ok? {
        return callee.PropagateFailure();
      }
      r := Call(fuel, callee.value);
    }

    method ExecLoad() returns (r: Outcome<()>)
      modifies this
      ensures Became(r, F.ExecLoad(old(State())))
    {
      var name := PopValue();
      if !name.Ok? {
        return name.PropagateFailure();
      }
      var text := AsString(name.value);
      var v := Load(text);
      if !v.Ok? {
        return v.PropagateFailure();
      }
      Push(v.value);
      r := Ok(());
    }

    method ExecStore() returns (r: Outcome<()>)
      modifies this
      ensures Became(r, F.ExecStore(old(State())))
    {
      ghost var m := State();
      var name := PopValue();
      if !name.Ok? {
        return name.PropagateFailure();
      }
      ghost var f1 := Snapshot();
      var text := AsString(name.value);
      var v := Pop();
      if !v.Ok? {
        return v.PropagateFailure();
      }
      ghost var f2 := Snapshot();
      Store(text, v.value);
      assert F.ExecStore(m) == Ok(F.On(m, F.Store(f2, text, v.value)));
      r := Ok(());
    }

    method ExecGetAttr() returns (r: Outcome<()>)
      modifies this
      ensures Became(r, F.ExecGetAttr(old(State())))
    {
      var names := CollectNames(1);
      if !names.Ok? {
        return names.PropagateFailure();
      }
      if |names.value| < 1 {
        return Fail(NoAttributeName);
      }
      var path := F.Reversed(names.value);
      var obj := PopValue();
      if !obj.Ok? {
        return obj.PropagateFailure();
      }
      var found := GetAttrRecursive(obj.value, path);
      PushValue(found.value);
      r := Ok(());
    }

    method ExecSetAttr() returns (r: Outcome<()>)
      modifies this
      ensures Became(r, F.ExecSetAttr(old(State())))
    {
      var names := CollectNames(2);
      if !names.Ok? {
        return names.PropagateFailure();
      }
      if |names.value| < 1 {
        return Fail(NoAttributeName);
      }
      var path := F.Reversed(names.value);
      r := WriteAlong(path);
    }

    method WriteAlong(path: seq<string>) returns (r: Outcome<()>)
      requires |path| >= 1
      modifies this
      ensures Became(r, F.WriteAlong(old(State()), path))
    {
      var obj := PopValue();
      if !obj.Ok? {
        return obj.PropagateFailure();
      }
      var data := PopValue();
      if !data.Ok? {
        return data.PropagateFailure();
      }
      var updated := SetAttrRecursive(obj.value, path, data.value);
      PushValue(updated.value);
      r := Ok(());
    }

    method ExecExecute() returns (r: Outcome<()>)
      modifies this
      ensures Became(r, F.ExecExecute(host, old(State())))
    {
      var routine := PopValue();
      if !routine.Ok? {
        return routine.PropagateFailure();
      }
      var argument := PopValue();
      if !argument.Ok? {
        return argument.PropagateFailure();
      }
      PushValue(CallForeign(host, routine.value, argument.value));
      r := Ok(());
    }

    method Step(fuel: nat, instruction: Values.Value) returns (r: Outcome<()>)
      modifies this
      ensures Became(r, F.Step(host, fuel, old(State()), instruction))
      decreases fuel, 2, 0
    {
      match AsInstruction(instruction)
      case Print => r := ExecPrint(false);
      case Println => r := ExecPrint(true);
      case While => r := ExecWhile(fuel);
      case If => r := ExecIf();
      case Append => r := ExecAppend();
      case Pop => r := ExecListPop();
      case Index => r := ExecIndex();
      case Equal => r := ExecEqual();
      case Greater => r := ExecGreater();
      case Less => r := ExecLess();
      case Not => r := ExecNot();
      case Add => r := ExecArith(Values.Add);
      case Mul => r := ExecArith(Values.Mul);
      case Sub => r := ExecArith(Values.Sub);
      case Div => r := ExecArith(Values.Div);
      case Mod => r := ExecArith(Values.Mod);
      case Call => r := ExecCall(fuel);
      case Load => r := ExecLoad();
      case Store => r := ExecStore();
      case GetAttr => r := ExecGetAttr();
      case SetAttr => r := ExecSetAttr();
      case Execute => r := ExecExecute();
      case Pass =>
        PushValue(instruction);
        r := Ok(());
    }

    // ---------------------------------------------------- running in bulk

    /** Steps through a list of instructions in order. */
    method Steps(fuel: nat, list: seq<Values.Value>) returns (r: Outcome<()>)
      modifies this
      ensures Became(r, F.RunFrom(host, fuel, old(State()), list, 0))
      decreases fuel, 3, 0
    {
      for i := 0 to |list|
        invariant F.RunFrom(host, fuel, State(), list, i) == F.RunFrom(host, fuel, old(State()), list, 0)
      {
        var s := Step(fuel, list[i]);
        if !s.Ok? {
          return s;
        }
      }
      r := Ok(());
    }

    method Run(fuel: nat) returns (r: Outcome<()>)
      modifies this
      ensures Became(r, F.Run(host, fuel, old(State())))
      decreases fuel, 4, 0
    {
      r := Steps(fuel, instructions.list);
    }

    method While(fuel: nat, condition: Values.Value, body: Values.Value) returns (r: Outcome<()>)
      modifies this
      ensures Became(r, F.While(host, fuel, old(State()), condition, body))
      decreases fuel, 1, 0
    {
      var budget: nat := fuel;
      while budget > 0
        invariant budget <= fuel
        invariant F.While(host, budget, State(), condition, body) == F.While(host, fuel, old(State()), condition, body)
        decreases budget
      {
        var c := Steps(budget - 1, condition.list);
        if !c.Ok? {
          return c;
        }
        var result := PopValue();
        if !result.Ok? {
          return result.PropagateFailure();
        }
        if result.value == NumValue(0) || result.value == NothingValue() {
          return Ok(());
        }
        var b := Steps(budget - 1, body.list);
        if !b.Ok? {
          return b;
        }
        budget := budget - 1;
      }
      r := Exhausted;
    }

    /** Pops and forgets n entries, as the caller does for the arguments
        its callee borrowed. */
    method Discard(n: int) returns (r: Outcome<()>)
      modifies this`contents, this`argsTaken, this`outer
      ensures match F.Discard(old(Snapshot()), n)
        case Ok(g) => r == Ok(()) && Snapshot() == g
        case Fail(e) => r == Fail(e)
        case Exhausted => r == Exhausted
    {
      var i := 0;
      while i < n
        invariant i <= n || i == 0
        invariant F.Discard(Snapshot(), n - i) == F.Discard(old(Snapshot()), n)
        decreases n - i
      {
        var popped := Pop();
        if !popped.Ok? {
          return popped.PropagateFailure();
        }
        i := i + 1;
      }
      assert F.Discard(Snapshot(), n - i) == Ok(Snapshot());
      r := Ok(());
    }

    /** Moves what a finished callee left onto this frame, keeping its order:
        the callee's stack is reversed and then popped empty. */
    method Receive(s: StackFrame)
      requires s != this
      modifies this`contents, s`contents, s`argsTaken, s`outer
      ensures contents == old(contents) + old(s.contents)
      ensures s.contents == []
      ensures s.argsTaken == old(s.argsTaken) && s.outer == old(s.outer)
    {
      ghost var left := s.contents;
      s.contents := F.Reversed(s.contents);
      ghost var j := 0;
      while |s.contents| > 0
        invariant 0 <= j <= |left| && |s.contents| == |left| - j
        invariant forall k :: 0 <= k < |s.contents| ==> s.contents[k] == left[|left| - 1 - k]
        invariant contents == old(contents) + left[..j]
        invariant s.argsTaken == old(s.argsTaken) && s.outer == old(s.outer)
        decreases |s.contents|
      {
        assert s.contents[|s.contents| - 1] == left[j];
        var e := s.Pop();
        assert left[..j] + [left[j]] == left[..j + 1];
        Push(e.value);
        j := j + 1;
      }
      assert left[..j] == left;
    }

    method Call(fuel: nat, callee: Pair) returns (r: Outcome<()>)
      modifies this
      ensures Became(r, F.Call(host, fuel, old(State()), callee))
      decreases fuel, 1, 0
    {
      if fuel == 0 {
        return Exhausted;
      }
      var s := new StackFrame(host, Some(Snapshot()), callee.second, callee.first, output);
      var ran := s.Run(fuel - 1);
      if !ran.Ok? {
        return ran;
      }
      var discarded := Discard(s.argsTaken);
      if !discarded.Ok? {
        return discarded;
      }
      output := s.output;
      Receive(s);
      r := Ok(());
    }
  }
}
