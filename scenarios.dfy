/** Worked programs: each lemma runs a small program through the engine
    functions and states what it leaves. */
module Scenarios {
  import opened Results
  import opened Tables
  import Values
  import opened Objects
  import Ops = Operators
  import opened Scopes
  import opened Frames
  import opened FrameFacts

  /** An instance whose attribute a is an instance whose attribute b is the leaf. */
  function Nested(leaf: Values.Value): Values.Value {
    SetAttr(EmptyInstance(), "a", SetAttr(EmptyInstance(), "b", leaf))
  }

  function Root(contents: seq<Pair>): Machine {
    Machine(Frame(Terminal(), contents, ListValue([]), 0, None), "")
  }

  /** The path a.b reads the leaf and writes a new leaf in place. */
  lemma NestedPath(x: Values.Value, y: Values.Value)
    ensures GetAttrRecursive(Nested(x), ["a", "b"]) == Ok(x)
    ensures SetAttrRecursive(Nested(x), ["a", "b"], y) == Ok(Nested(y))
  {
    var inner := SetAttr(EmptyInstance(), "b", x);
    assert Nested(x).attributes.Get("a") == Some(inner);
    assert ["a", "b"][1..] == ["b"];
    assert SetAttrRecursive(inner, ["b"], y) == Ok(SetAttr(EmptyInstance(), "b", y)) by {
      Tables.SetTwice(EmptyInstance().attributes, "b", x, y);
    }
    Tables.SetTwice(EmptyInstance().attributes, "a", inner, SetAttr(EmptyInstance(), "b", y));
  }

  /** Entries holding the names a and b, bottom first, spell the path a.b. */
  lemma NamesAB(c: seq<Pair>, j: nat)
    requires |c| == j + 3 && c[j + 1].first == StrValue("a") && c[j + 2].first == StrValue("b")
    ensures NamesOf(c[j + 1..]) == ["a", "b"]
  {
    StringRoundTrip("a");
    StringRoundTrip("b");
    assert c[j + 1..] == [c[j + 1], c[j + 2]];
  }

  /** The stack rest + [inst, "a", "b"], as the attribute examples use. */
  predicate PathOnTop(c: seq<Pair>, rest: seq<Pair>, inst: Values.Value) {
    |c| == |rest| + 3 && c[..|rest|] == rest && inst.vtype == Values.Instance &&
    c[|rest|].first == inst && c[|rest| + 1].first == StrValue("a") && c[|rest| + 2].first == StrValue("b")
  }

  lemma PathOnTopFacts(c: seq<Pair>, rest: seq<Pair>, inst: Values.Value)
    requires PathOnTop(c, rest, inst)
    ensures TopInstanceAt(c, |rest|)
    ensures NamesOf(c[|rest| + 1..]) == ["a", "b"]
  {
    NamesAB(c, |rest|);
  }

  /** With an instance and then the names a and b pushed, GetAttr replaces
      the three by the attribute at the path a.b: the name pushed first is
      the outermost level. */
  lemma GetAttrExample(m: Machine, rest: seq<Pair>, inst: Values.Value)
    requires PathOnTop(m.frame.contents, rest, inst)
    ensures ExecGetAttr(m) ==
      Ok(On(m, m.frame.(contents := rest + [Pair(GetAttrRecursive(inst, ["a", "b"]).value, m.frame.scope)])))
  {
    PathOnTopFacts(m.frame.contents, rest, inst);
    GetAttrReadsPath(m, |rest|);
  }

  /** With some data, an instance and the names a and b pushed, SetAttr
      replaces the four by the instance with the data written at the path
      a.b. */
  lemma SetAttrExample(m: Machine, rest: seq<Pair>, data: Pair, inst: Values.Value)
    requires PathOnTop(m.frame.contents, rest + [data], inst)
    ensures ExecSetAttr(m) ==
      Ok(On(m, m.frame.(contents := rest + [Pair(SetAttrRecursive(inst, ["a", "b"], data.first).value, m.frame.scope)])))
  {
    var c := m.frame.contents;
    var below := rest + [data];
    PathOnTopFacts(c, below, inst);
    SetAttrWritesData(m, |below|);
    assert c[|rest|] == below[|rest|] == data;
    assert c[..|rest|] == below[..|rest|] == rest;
  }

  /** Popping from an empty root frame is fatal, never a default value. */
  lemma UnderflowIsFatal(h: Values.Host, fuel: nat)
    ensures Step(h, fuel, Root([]), InstructionValue(Values.Print)) == Fail(StackUnderflow)
    ensures Step(h, fuel, Root([]), InstructionValue(Values.Add)) == Fail(StackUnderflow)
  {
  }

  function Two(x: Values.Value, y: Values.Value): seq<Pair> {
    [Pair(x, Terminal()), Pair(y, Terminal())]
  }

  /** A function whose body is a single Add, called with 2 and 3 on the
      caller's stack: the callee borrows both (its count is 2), the caller
      loses both and receives 5. */
  lemma CallBorrowsArguments(h: Values.Host)
    ensures var m := Root(Two(NumValue(2), NumValue(3)));
      var callee := Pair(FunctionValue([InstructionValue(Values.Add)]), Terminal());
      Run(h, 0, Callee(m, callee)).Ok? &&
      Run(h, 0, Callee(m, callee)).value.frame.argsTaken == 2 &&
      Call(h, 1, m, callee) == Ok(Machine(m.frame.(contents := [Pair(NumValue(5), Terminal())]), ""))
  {
    var m := Root(Two(NumValue(2), NumValue(3)));
    var callee := Pair(FunctionValue([InstructionValue(Values.Add)]), Terminal());
    var child := Callee(m, callee);
    var p1 := m.frame.(contents := [Pair(NumValue(2), Terminal())]);
    var p2 := m.frame.(contents := []);
    assert m.frame.contents[..1] == [Pair(NumValue(2), Terminal())];
    assert Pop(m.frame) == Ok((Pair(NumValue(3), Terminal()), p1));
    assert Pop(p1) == Ok((Pair(NumValue(2), Terminal()), p2));
    var c1 := child.frame.(argsTaken := 1, outer := Some(p1));
    var c2 := child.frame.(argsTaken := 2, outer := Some(p2));
    assert PopValue(child.frame) == Ok((NumValue(3), c1));
    assert PopValue(c1) == Ok((NumValue(2), c2));
    assert Ops.Binary(h, Values.Add, NumValue(3), NumValue(2)) == NumValue(5);
    var done := On(child, PushValue(c2, NumValue(5)));
    assert Step(h, 0, child, InstructionValue(Values.Add)) == Ok(done);
    assert Run(h, 0, child) == Ok(done);
    assert Discard(p2, 0) == Ok(p2);
    assert Discard(p1, 1) == Ok(p2);
    assert Discard(m.frame, 2) == Ok(p2);
    assert done.frame.contents == [Pair(NumValue(5), Terminal())];
  }

  function LoadBody(n1: string, n2: string): seq<Values.Value> {
    [StrValue(n1), InstructionValue(Values.Load), StrValue(n2), InstructionValue(Values.Load)]
  }

  predicate Ascii(name: string) {
    forall i :: 0 <= i < |name| ==> name[i] as int < 256
  }

  lemma StepLoad(h: Values.Host, m: Machine)
    ensures Step(h, 0, m, InstructionValue(Values.Load)) == ExecLoad(m)
  {
    assert AsInstruction(InstructionValue(Values.Load)) == Values.Load;
  }

  /** Pushing a name and then executing Load puts what Load resolves on top. */
  lemma LoadNameStep(h: Values.Host, m: Machine, name: string)
    requires Ascii(name)
    requires Load(m.frame, name).Ok?
    ensures Step(h, 0, m, StrValue(name)).Ok?
    ensures Step(h, 0, Step(h, 0, m, StrValue(name)).value, InstructionValue(Values.Load)) ==
      Ok(On(m, Push(Load(m.frame, name).value.1, Load(m.frame, name).value.0)))
  {
    StringRoundTrip(name);
    LiteralsPushThemselves(h, 0, m, StrValue(name));
    var m1 := On(m, Push(m.frame, Pair(StrValue(name), m.frame.scope)));
    assert m1.frame.contents[..|m.frame.contents|] == m.frame.contents;
    assert PopValue(m1.frame) == Ok((StrValue(name), m.frame));
    StepLoad(h, m1);
  }

  /** The caller of the load scenario: a root frame in the terminal scope
      whose two top entries a (below) and b (on top) carry the terminal
      scope, as literals pushed there do. */
  predicate LoadCaller(p: Frame, rest: seq<Pair>, a: Pair, b: Pair) {
    p.outer.None? && p.scope == Terminal() && p.contents == rest + [a, b] &&
    a.second == Terminal() && b.second == Terminal() &&
    a.first != NothingValue() && b.first != NothingValue()
  }

  /** The caller snapshot after each of the two loads. */
  function Snapshot1(p: Frame, n1: string): Frame
    requires |p.contents| >= 2
  {
    var n := |p.contents|;
    Store(p.(contents := p.contents[..n - 1]), n1, p.contents[n - 1])
  }

  function Snapshot2(p: Frame, n1: string, n2: string): Frame
    requires |p.contents| >= 2
  {
    var n := |p.contents|;
    Store(Snapshot1(p, n1).(contents := p.contents[..n - 2]), n2, p.contents[n - 2])
  }

  lemma FirstLoadResolves(p: Frame, rest: seq<Pair>, a: Pair, b: Pair, child: Frame, n1: string)
    requires LoadCaller(p, rest, a, b)
    requires child.outer == Some(p) && Get(child.scope, n1) == Unbound()
    ensures Load(child, n1) == Ok((b, child.(outer := Some(Snapshot1(p, n1)))))
  {
    assert Get(p.scope, n1) == Unbound();
    LoadInCalleeKeepsOwnStack(child, n1);
  }

  lemma SecondLoadResolves(p: Frame, rest: seq<Pair>, a: Pair, b: Pair, child: Frame, n1: string, n2: string)
    requires LoadCaller(p, rest, a, b) && n1 != n2
    requires child.outer == Some(Snapshot1(p, n1)) && Get(child.scope, n2) == Unbound()
    ensures Load(child, n2) == Ok((a, child.(outer := Some(Snapshot2(p, n1, n2)))))
  {
    var s1 := Snapshot1(p, n1);
    assert Get(Terminal(), n2) == Unbound();
    StoreStripRule(p.(contents := p.contents[..|p.contents| - 1]), n1, b);
    assert Get(s1.scope, n2) == Unbound();
    assert s1.contents == rest + [a];
    assert s1.contents[..|s1.contents| - 1] == p.contents[..|p.contents| - 2];
    LoadInCalleeKeepsOwnStack(child, n2);
  }

  function LoadCallee(closure: Scope, n1: string, n2: string): Pair {
    Pair(FunctionValue(LoadBody(n1, n2)), closure)
  }

  /** The callee after a load that left its parent snapshot as snap and
      pushed e. */
  function Loaded(child: Machine, snap: Frame, e: Pair): Machine {
    On(child, Push(child.frame.(outer := Some(snap)), e))
  }

  /** The callee after its first load, and after both. */
  function AfterFirst(child: Machine, p: Frame, n1: string): Machine
    requires |p.contents| >= 2
  {
    Loaded(child, Snapshot1(p, n1), p.contents[|p.contents| - 1])
  }

  function AfterSecond(child: Machine, p: Frame, n1: string, n2: string): Machine
    requires |p.contents| >= 2
  {
    Loaded(AfterFirst(child, p, n1), Snapshot2(p, n1, n2), p.contents[|p.contents| - 2])
  }

  /** A name followed by Load, at position i of an instruction list, when
      the load resolves through the parent to e and leaves the parent
      snapshot as snap. */
  lemma LoadPairRuns(h: Values.Host, m: Machine, body: seq<Values.Value>, i: nat,
                     name: string, snap: Frame, e: Pair)
    requires i + 1 < |body| && body[i] == StrValue(name) && body[i + 1] == InstructionValue(Values.Load)
    requires Ascii(name) && Load(m.frame, name) == Ok((e, m.frame.(outer := Some(snap))))
    ensures RunFrom(h, 0, m, body, i) == RunFrom(h, 0, Loaded(m, snap, e), body, i + 2)
  {
    LoadNameStep(h, m, name);
    var m1 := Step(h, 0, m, body[i]).value;
    assert Step(h, 0, m1, body[i + 1]) == Ok(Loaded(m, snap, e));
  }

  lemma ChildFirstHalf(h: Values.Host, p: Frame, rest: seq<Pair>, a: Pair, b: Pair,
                       output: string, closure: Scope, n1: string, n2: string)
    requires LoadCaller(p, rest, a, b)
    requires Ascii(n1) && Get(closure, n1) == Unbound()
    ensures var child := Callee(Machine(p, output), LoadCallee(closure, n1, n2));
      RunFrom(h, 0, child, LoadBody(n1, n2), 0) == RunFrom(h, 0, AfterFirst(child, p, n1), LoadBody(n1, n2), 2)
  {
    var child := Callee(Machine(p, output), LoadCallee(closure, n1, n2));
    FirstLoadResolves(p, rest, a, b, child.frame, n1);
    LoadPairRuns(h, child, LoadBody(n1, n2), 0, n1, Snapshot1(p, n1), b);
  }

  lemma ChildSecondHalf(h: Values.Host, p: Frame, rest: seq<Pair>, a: Pair, b: Pair,
                        output: string, closure: Scope, n1: string, n2: string)
    requires LoadCaller(p, rest, a, b)
    requires Ascii(n2) && n1 != n2 && Get(closure, n2) == Unbound()
    ensures var child := Callee(Machine(p, output), LoadCallee(closure, n1, n2));
      RunFrom(h, 0, AfterFirst(child, p, n1), LoadBody(n1, n2), 2) == Ok(AfterSecond(child, p, n1, n2))
  {
    var body := LoadBody(n1, n2);
    var child := Callee(Machine(p, output), LoadCallee(closure, n1, n2));
    var m2 := AfterFirst(child, p, n1);
    SecondLoadResolves(p, rest, a, b, m2.frame, n1, n2);
    LoadPairRuns(h, m2, body, 2, n2, Snapshot2(p, n1, n2), a);
    assert RunFrom(h, 0, AfterSecond(child, p, n1, n2), body, 4) == Ok(AfterSecond(child, p, n1, n2));
  }

  /** Two loads push their entries in order and change nothing else that a
      call reads back. */
  lemma LoadedTwice(child: Machine, s1: Frame, s2: Frame, e1: Pair, e2: Pair)
    ensures var done := Loaded(Loaded(child, s1, e1), s2, e2);
      done.frame.contents == child.frame.contents + [e1, e2] &&
      done.frame.argsTaken == child.frame.argsTaken && done.output == child.output
  {
  }

  /** The callee of the load scenario runs to completion, leaving b and then
      a on its own stack without having borrowed anything. */
  lemma CalleeRunLeaves(h: Values.Host, p: Frame, rest: seq<Pair>, a: Pair, b: Pair,
                        output: string, closure: Scope, n1: string, n2: string)
    requires LoadCaller(p, rest, a, b)
    requires Ascii(n1) && Ascii(n2) && n1 != n2
    requires Get(closure, n1) == Unbound() && Get(closure, n2) == Unbound()
    ensures var r := Run(h, 0, Callee(Machine(p, output), LoadCallee(closure, n1, n2)));
      r.Ok? && r.value.frame.contents == [b, a] && r.value.frame.argsTaken == 0 && r.value.output == output
  {
    var child := Callee(Machine(p, output), LoadCallee(closure, n1, n2));
    ChildFirstHalf(h, p, rest, a, b, output, closure, n1, n2);
    ChildSecondHalf(h, p, rest, a, b, output, closure, n1, n2);
    assert Run(h, 0, child) == Ok(AfterSecond(child, p, n1, n2));
    var n := |p.contents|;
    LoadedTwice(child, Snapshot1(p, n1), Snapshot2(p, n1, n2), p.contents[n - 1], p.contents[n - 2]);
    assert p.contents[n - 1] == b && p.contents[n - 2] == a;
  }

  /** A function that loads two names bound nowhere, called with a and b on
      top of the caller's stack. Each load falls back to the caller's
      snapshot, which gives up its top entry; the callee's own count stays
      0, so the caller keeps both entries and receives b and then a on top
      of them. */
  lemma CalleeLoadsCopyArguments(h: Values.Host, p: Frame, rest: seq<Pair>, a: Pair, b: Pair,
                                 output: string, closure: Scope, n1: string, n2: string)
    requires LoadCaller(p, rest, a, b)
    requires Ascii(n1) && Ascii(n2) && n1 != n2
    requires Get(closure, n1) == Unbound() && Get(closure, n2) == Unbound()
    ensures var callee := LoadCallee(closure, n1, n2);
      Run(h, 0, Callee(Machine(p, output), callee)).Ok? &&
      Run(h, 0, Callee(Machine(p, output), callee)).value.frame.argsTaken == 0 &&
      Call(h, 1, Machine(p, output), callee) == Ok(Machine(p.(contents := rest + [a, b, b, a]), output))
  {
    CalleeRunLeaves(h, p, rest, a, b, output, closure, n1, n2);
    assert (rest + [a, b]) + [b, a] == rest + [a, b, b, a];
    assert Discard(p, 0) == Ok(p);
  }

  /** A Function pushed as a literal carries the frame's own scope. Stored
      while the frame's scope is still that one, it is bound with the empty
      scope, and loading it back gives that empty scope. A call of it then runs in the empty scope, so a free
      name x falls back to the caller copy and sees the caller's binding of
      x at call time (after), not the one current when the Function was
      stored (before). */
  lemma StoredFunctionSeesCallerBinding(f: Frame, fn: Values.Value, name: string, x: string,
                                        before: Pair, after: Pair, output: string)
    requires fn.vtype == Values.Function && name != x
    requires Get(f.scope, x) == before && after.first != NothingValue()
    ensures var f1 := Store(f, name, Pair(fn, f.scope));
      var f2 := Store(f1, x, after);
      Load(f2, name) == Ok((Pair(fn, Terminal()), f2)) &&
      var child := Callee(Machine(f2, output), Pair(fn, Terminal())).frame;
      child.scope == Terminal() &&
      Load(child, x).Ok? && Load(child, x).value.0.first == after.first &&
      (before.first != after.first ==> Load(child, x).value.0.first != before.first)
  {
    var f1 := Store(f, name, Pair(fn, f.scope));
    var f2 := Store(f1, x, after);
    StoreStripRule(f, name, Pair(fn, f.scope));
    StoreStripRule(f1, x, after);
    assert Get(f2.scope, name) == Pair(fn, Terminal());
    var seen := Get(f2.scope, x);
    assert seen.first == after.first;
    var child := Callee(Machine(f2, output), Pair(fn, Terminal())).frame;
    assert Get(child.scope, x) == Unbound();
    assert Load(f2, x) == Ok((seen, f2));
    assert Load(child, x) == Ok((seen, child.(outer := Some(f2))));
  }

  /** The other order: a store of another name y first gives the frame a new
      scope, so a Function pushed before it keeps the scope it was pushed
      with when it is stored. Loaded back and called, it runs in that
      defining scope, so a free name x resolves there even after the caller
      redefines x. */
  lemma FunctionKeepsDefiningScope(f: Frame, fn: Values.Value, name: string, y: string, v: Values.Value,
                                   x: string, after: Pair, output: string)
    requires fn.vtype == Values.Function && name != y && name != x
    requires f.scope.table.Get(y).None?
    requires Get(f.scope, x) != Unbound()
    ensures var f1 := Store(f, y, Pair(v, f.scope));
      var f2 := Store(f1, name, Pair(fn, f.scope));
      var f3 := Store(f2, x, after);
      f1.scope != f.scope &&
      Load(f3, name) == Ok((Pair(fn, f.scope), f3)) &&
      var child := Callee(Machine(f3, output), Pair(fn, f.scope)).frame;
      child.scope == f.scope &&
      Load(child, x) == Ok((Get(f.scope, x), child))
  {
    var f1 := Store(f, y, Pair(v, f.scope));
    var f2 := Store(f1, name, Pair(fn, f.scope));
    var f3 := Store(f2, x, after);
    StoreStripRule(f, y, Pair(v, f.scope));
    assert f1.scope.table.Get(y).Some?;
    StoreStripRule(f1, name, Pair(fn, f.scope));
    StoreStripRule(f2, x, after);
    assert Get(f3.scope, name) == Pair(fn, f.scope);
  }
}
