/** Properties of the engine functions of module Frames. */
module FrameFacts {
  import opened Results
  import opened Numbers
  import opened Tables
  import Values
  import opened Objects
  import Ops = Operators
  import opened Scopes
  import opened Frames

  /** Reference definition of the stack a frame can pop from: everything its
      parent snapshot can pop, with the frame's own entries on top. */
  function Visible(f: Frame): seq<Pair>
    decreases f.outer
  {
    (if f.outer.Some? then Visible(f.outer.value) else []) + f.contents
  }

  /** The frame fields a pop or discard never changes. */
  predicate SameFrame(f: Frame, g: Frame) {
    g.scope == f.scope && g.instructions == f.instructions
  }

  /** Pop takes the top of the visible stack, fails exactly when that is
      empty and then with StackUnderflow, and counts one argument exactly when
      the entry came from the parent. */
  lemma {:induction false} PopIsVisibleTop(f: Frame)
    ensures Pop(f).Ok? <==> |Visible(f)| > 0
    ensures Pop(f).Fail? ==> Pop(f).fatal == StackUnderflow
    ensures !Pop(f).Exhausted?
    ensures Pop(f).Ok? ==>
      var (e, g) := Pop(f).value;
      e == Visible(f)[|Visible(f)| - 1] &&
      Visible(g) == Visible(f)[..|Visible(f)| - 1] &&
      SameFrame(f, g) &&
      g.argsTaken == f.argsTaken + (if |f.contents| == 0 then 1 else 0) &&
      (|f.contents| > 0 ==> g.contents == f.contents[..|f.contents| - 1] && g.outer == f.outer) &&
      (|f.contents| == 0 ==> g.contents == [])
    decreases f.outer
  {
    if |f.contents| == 0 && f.outer.Some? {
      PopIsVisibleTop(f.outer.value);
      assert Visible(f) == Visible(f.outer.value);
      if Pop(f).Ok? {
        var (e, p) := Pop(f.outer.value).value;
        assert Visible(Pop(f).value.1) == Visible(p);
      }
    } else if |f.contents| > 0 {
      var n := |f.contents|;
      var base := if f.outer.Some? then Visible(f.outer.value) else [];
      assert Visible(f) == base + f.contents;
      assert Visible(Pop(f).value.1) == base + f.contents[..n - 1];
      assert (base + f.contents)[..|base| + n - 1] == base + f.contents[..n - 1];
    }
  }

  /** Discarding n entries removes the top n of the visible stack, and fails
      with StackUnderflow exactly when fewer are visible. */
  lemma {:induction false} DiscardIsVisiblePrefix(f: Frame, n: nat)
    ensures Discard(f, n).Ok? <==> n <= |Visible(f)|
    ensures Discard(f, n).Fail? ==> Discard(f, n).fatal == StackUnderflow
    ensures !Discard(f, n).Exhausted?
    ensures Discard(f, n).Ok? ==>
      Visible(Discard(f, n).value) == Visible(f)[..|Visible(f)| - n] &&
      SameFrame(f, Discard(f, n).value)
    decreases n
  {
    if n > 0 {
      PopIsVisibleTop(f);
      if Pop(f).Ok? {
        var (_, g) := Pop(f).value;
        DiscardIsVisiblePrefix(g, n - 1);
        if n <= |Visible(f)| {
          assert Visible(f)[..|Visible(f)| - 1][..|Visible(f)| - n] == Visible(f)[..|Visible(f)| - n];
        }
      }
    }
  }

  /** Appending to a frame's own entries appends to its visible stack. */
  lemma AppendOnVisible(f: Frame, s: seq<Pair>)
    ensures Visible(f.(contents := f.contents + s)) == Visible(f) + s
  {
    var base := if f.outer.Some? then Visible(f.outer.value) else [];
    assert Visible(f.(contents := f.contents + s)) == base + (f.contents + s);
  }

  /** A push puts exactly one entry on top of the visible stack. */
  lemma PushOnVisible(f: Frame, e: Pair)
    ensures Visible(Push(f, e)) == Visible(f) + [e]
    ensures PushValue(f, e.first) == Push(f, Pair(e.first, f.scope))
  {
    var base := if f.outer.Some? then Visible(f.outer.value) else [];
    assert Visible(Push(f, e)) == base + (f.contents + [e]);
  }

  /** The part of PopIsVisibleTop the instructions rely on. */
  lemma PopVisible(f: Frame)
    requires |Visible(f)| > 0
    ensures Pop(f).Ok?
    ensures Pop(f).value.0 == Visible(f)[|Visible(f)| - 1]
    ensures Visible(Pop(f).value.1) == Visible(f)[..|Visible(f)| - 1]
    ensures SameFrame(f, Pop(f).value.1)
  {
    PopIsVisibleTop(f);
  }

  lemma PopValueVisible(f: Frame)
    requires |Visible(f)| > 0
    ensures PopValue(f).Ok?
    ensures PopValue(f).value.0 == Visible(f)[|Visible(f)| - 1].first
    ensures Visible(PopValue(f).value.1) == Visible(f)[..|Visible(f)| - 1]
    ensures SameFrame(f, PopValue(f).value.1)
  {
    PopVisible(f);
    assert PopValue(f) == Ok((Pop(f).value.0.first, Pop(f).value.1));
  }

  lemma PopEmptyFails(f: Frame)
    requires |Visible(f)| == 0
    ensures Pop(f) == Fail(StackUnderflow)
    ensures PopValue(f) == Fail(StackUnderflow)
  {
    PopIsVisibleTop(f);
  }

  /** Two value pops in a row, as every binary instruction does: the first
      gives the top, the second the entry below, and both disappear. */
  lemma TwoPops(f: Frame)
    requires |Visible(f)| >= 2
    ensures PopValue(f).Ok? && PopValue(PopValue(f).value.1).Ok?
    ensures var V := Visible(f); var n := |V|;
      var (a, f1) := PopValue(f).value;
      var (b, f2) := PopValue(f1).value;
      a == V[n - 1].first && b == V[n - 2].first &&
      Visible(f2) == V[..n - 2] && SameFrame(f, f2)
  {
    var V := Visible(f);
    var n := |V|;
    PopValueVisible(f);
    var f1 := PopValue(f).value.1;
    PopValueVisible(f1);
    assert V[..n - 1][..n - 2] == V[..n - 2];
  }

  /** Fewer than two visible entries: the second pop at the latest fails. */
  lemma SecondPopFails(f: Frame)
    requires |Visible(f)| < 2
    ensures PopValue(f).Ok? ==> PopValue(PopValue(f).value.1) == Fail(StackUnderflow)
    ensures !PopValue(f).Ok? ==> PopValue(f) == Fail(StackUnderflow)
  {
    if |Visible(f)| == 0 {
      PopEmptyFails(f);
    } else {
      PopValueVisible(f);
      PopEmptyFails(PopValue(f).value.1);
    }
  }

  /** The entry If keeps: a when the condition is neither the number zero
      nor Nothing, b otherwise. */
  function Chosen(c: Values.Value, a: Pair, b: Pair): Pair {
    if c != NumValue(0) && c != NothingValue() then a else b
  }

  lemma IfUnderflows(m: Machine)
    requires |Visible(m.frame)| < 3
    ensures ExecIf(m) == Fail(StackUnderflow)
  {
    var n := |Visible(m.frame)|;
    if n == 0 {
      PopEmptyFails(m.frame);
    } else {
      PopValueVisible(m.frame);
      var f1 := PopValue(m.frame).value.1;
      if n == 1 {
        PopEmptyFails(f1);
      } else {
        PopVisible(f1);
        PopEmptyFails(Pop(f1).value.1);
      }
    }
  }

  lemma IfKeepsChosen(m: Machine)
    requires |Visible(m.frame)| >= 3
    ensures ExecIf(m).Ok?
    ensures var V := Visible(m.frame); var n := |V|;
      Visible(ExecIf(m).value.frame) == V[..n - 3] + [Chosen(V[n - 1].first, V[n - 2], V[n - 3])] &&
      SameFrame(m.frame, ExecIf(m).value.frame) && ExecIf(m).value.output == m.output
  {
    var V := Visible(m.frame);
    var n := |V|;
    PopValueVisible(m.frame);
    var (c, f1) := PopValue(m.frame).value;
    PopVisible(f1);
    var (a, f2) := Pop(f1).value;
    assert V[..n - 1][..n - 2] == V[..n - 2];
    PopVisible(f2);
    var (b, f3) := Pop(f2).value;
    assert V[..n - 2][..n - 3] == V[..n - 3];
    assert ExecIf(m) == Ok(On(m, Push(f3, Chosen(c, a, b))));
    PushOnVisible(f3, Chosen(c, a, b));
  }

  /** If pops the condition, then a, then b, and keeps a exactly when the
      condition is neither the number zero nor Nothing; the kept entry keeps
      its own scope. */
  lemma IfSelects(m: Machine)
    ensures ExecIf(m).Ok? <==> |Visible(m.frame)| >= 3
    ensures |Visible(m.frame)| < 3 ==> ExecIf(m) == Fail(StackUnderflow)
    ensures |Visible(m.frame)| >= 3 ==>
      var V := Visible(m.frame); var n := |V|; var c := V[n - 1].first;
      var r := ExecIf(m).value;
      Visible(r.frame) == V[..n - 3] + [if c != NumValue(0) && c != NothingValue() then V[n - 2] else V[n - 3]] &&
      SameFrame(m.frame, r.frame) && r.output == m.output
  {
    if |Visible(m.frame)| < 3 {
      IfUnderflows(m);
    } else {
      IfKeepsChosen(m);
    }
  }

  /** Equal, Greater and Less pop a (the top) and b (below it) and push 1 or
      0 with the frame's scope: a == b structurally for Equal, the numeric
      readings compared for Greater and Less. */
  lemma ComparisonsPushFlag(m: Machine)
    ensures |Visible(m.frame)| < 2 ==>
      ExecEqual(m) == Fail(StackUnderflow) && ExecGreater(m) == Fail(StackUnderflow) &&
      ExecLess(m) == Fail(StackUnderflow)
    ensures |Visible(m.frame)| >= 2 ==>
      var V := Visible(m.frame); var n := |V|;
      var a := V[n - 1].first; var b := V[n - 2].first;
      ExecEqual(m).Ok? && ExecGreater(m).Ok? && ExecLess(m).Ok? &&
      Visible(ExecEqual(m).value.frame) == V[..n - 2] + [Pair(Flag(a == b), m.frame.scope)] &&
      Visible(ExecGreater(m).value.frame) == V[..n - 2] + [Pair(Flag(AsNumber(a) > AsNumber(b)), m.frame.scope)] &&
      Visible(ExecLess(m).value.frame) == V[..n - 2] + [Pair(Flag(AsNumber(a) < AsNumber(b)), m.frame.scope)]
  {
    if |Visible(m.frame)| < 2 {
      SecondPopFails(m.frame);
    } else {
      TwoPops(m.frame);
      var (a, f1) := PopValue(m.frame).value;
      var (b, f2) := PopValue(f1).value;
      var eq, gt, lt := Flag(a == b), Flag(AsNumber(a) > AsNumber(b)), Flag(AsNumber(a) < AsNumber(b));
      assert ExecEqual(m) == Ok(On(m, PushValue(f2, eq)));
      assert ExecGreater(m) == Ok(On(m, PushValue(f2, gt)));
      assert ExecLess(m) == Ok(On(m, PushValue(f2, lt)));
      PushOnVisible(f2, Pair(eq, f2.scope));
      PushOnVisible(f2, Pair(gt, f2.scope));
      PushOnVisible(f2, Pair(lt, f2.scope));
    }
  }

  /** The comparison instructions agree with each other: Greater and Less
      never both push 1, Equal pushes the same flag when the two top entries
      are swapped, and Greater on the swapped stack ends as Less on the
      original. */
  lemma ComparisonsConsistent(m: Machine, g: Frame)
    requires |Visible(m.frame)| >= 2 && g.scope == m.frame.scope
    requires var V := Visible(m.frame); var n := |V|;
      Visible(g) == V[..n - 2] + [V[n - 1], V[n - 2]]
    ensures ExecGreater(m).Ok? && ExecLess(m).Ok?
    ensures var G := Visible(ExecGreater(m).value.frame); var L := Visible(ExecLess(m).value.frame);
      |G| > 0 && |L| > 0 && !(G[|G| - 1].first == NumValue(1) && L[|L| - 1].first == NumValue(1))
    ensures ExecEqual(m).Ok? && ExecEqual(On(m, g)).Ok? && ExecGreater(On(m, g)).Ok?
    ensures Visible(ExecEqual(On(m, g)).value.frame) == Visible(ExecEqual(m).value.frame)
    ensures Visible(ExecGreater(On(m, g)).value.frame) == Visible(ExecLess(m).value.frame)
  {
    var V := Visible(m.frame);
    var n := |V|;
    ComparisonsPushFlag(m);
    ComparisonsPushFlag(On(m, g));
    var W := Visible(g);
    assert W[..n - 2] == V[..n - 2] && W[n - 1] == V[n - 2] && W[n - 2] == V[n - 1];
  }

  /** Add, Mul, Sub, Div and Mod pop a (the top) and b and push the operator
      applied as a op b, with the frame's scope. */
  lemma ArithmeticPushesResult(h: Values.Host, m: Machine, op: Values.Instruction)
    requires Ops.IsArithmetic(op)
    ensures |Visible(m.frame)| < 2 ==> ExecArith(h, m, op) == Fail(StackUnderflow)
    ensures |Visible(m.frame)| >= 2 ==>
      var V := Visible(m.frame); var n := |V|;
      ExecArith(h, m, op).Ok? &&
      Visible(ExecArith(h, m, op).value.frame) ==
        V[..n - 2] + [Pair(Ops.Binary(h, op, V[n - 1].first, V[n - 2].first), m.frame.scope)]
  {
    if |Visible(m.frame)| < 2 {
      SecondPopFails(m.frame);
    } else {
      TwoPops(m.frame);
      var (a, f1) := PopValue(m.frame).value;
      var (b, f2) := PopValue(f1).value;
      var x := Ops.Binary(h, op, a, b);
      assert ExecArith(h, m, op) == Ok(On(m, PushValue(f2, x)));
      PushOnVisible(f2, Pair(x, f2.scope));
    }
  }

  /** A value that is not an instruction token is a literal: stepping over
      it pushes it with the frame's scope, and so does the Pass token. */
  lemma LiteralsPushThemselves(h: Values.Host, fuel: nat, m: Machine, v: Values.Value)
    requires !v.vtype.Command? || v.vtype.instruction == Values.Pass
    ensures Step(h, fuel, m, v) == Ok(On(m, PushValue(m.frame, v)))
    ensures Visible(Step(h, fuel, m, v).value.frame) == Visible(m.frame) + [Pair(v, m.frame.scope)]
    ensures Step(h, fuel, m, v).value.output == m.output
  {
    assert AsInstruction(v) == Values.Pass;
    PushOnVisible(m.frame, Pair(v, m.frame.scope));
  }

  /** The attribute names spelled by a run of stack entries, bottom first. */
  function NamesOf(s: seq<Pair>): (r: seq<string>)
    ensures |r| == |s|
  {
    seq(|s|, i requires 0 <= i < |s| => StringOf(s[i].first))
  }

  /** j is the position of the topmost Instance on the frame's own stack. */
  predicate TopInstanceAt(contents: seq<Pair>, j: int) {
    0 <= j < |contents| && contents[j].first.vtype == Values.Instance &&
    forall i :: j < i < |contents| ==> contents[i].first.vtype != Values.Instance
  }

  lemma ReversedSnoc<T>(s: seq<T>, x: T)
    ensures Reversed(s + [x]) == [x] + Reversed(s)
  {
  }

  lemma ReversedTwice<T>(s: seq<T>)
    ensures Reversed(Reversed(s)) == s
  {
  }

  /** The name loop pops every entry above the topmost Instance, top first;
      it fails when fewer than `least` entries would remain under a popped
      name, and leaves the Instance on top. */
  lemma {:induction false} CollectNamesSpec(f: Frame, least: nat, names: seq<string>, j: int)
    requires TopInstanceAt(f.contents, j)
    ensures var r := CollectNames(f, least, names);
      if j == |f.contents| - 1 then r == Ok((names, f))
      else if j + 1 < least then r == Fail(TooFewItems)
      else r == Ok((names + Reversed(NamesOf(f.contents[j + 1..])), f.(contents := f.contents[..j + 1])))
    decreases |f.contents|
  {
    var n := |f.contents|;
    assert HasInstance(f.contents) by { assert f.contents[j].first.vtype == Values.Instance; }
    if j < n - 1 {
      var top := f.contents[n - 1].first;
      var g := f.(contents := f.contents[..n - 1]);
      assert TopInstanceAt(g.contents, j);
      if n - 1 >= least {
        CollectNamesSpec(g, least, names + [StringOf(top)], j);
        if j < n - 2 {
          assert f.contents[j + 1..] == g.contents[j + 1..] + [f.contents[n - 1]];
          assert NamesOf(f.contents[j + 1..]) == NamesOf(g.contents[j + 1..]) + [StringOf(top)];
          ReversedSnoc(NamesOf(g.contents[j + 1..]), StringOf(top));
          assert (names + [StringOf(top)]) + Reversed(NamesOf(g.contents[j + 1..])) ==
            names + Reversed(NamesOf(f.contents[j + 1..]));
          assert g.contents[..j + 1] == f.contents[..j + 1];
        } else {
          assert NamesOf(f.contents[j + 1..]) == [StringOf(top)];
          assert Reversed([StringOf(top)]) == [StringOf(top)];
          assert g == f.(contents := f.contents[..j + 1]);
        }
      }
    }
  }

  /** The names the loop collects from the entries above position j, and
      the frame it leaves. */
  lemma CollectedAbove(f: Frame, least: nat, j: int)
    requires TopInstanceAt(f.contents, j) && j < |f.contents| - 1 && j + 1 >= least
    ensures CollectNames(f, least, []) ==
      Ok((Reversed(NamesOf(f.contents[j + 1..])), f.(contents := f.contents[..j + 1])))
    ensures Reversed(Reversed(NamesOf(f.contents[j + 1..]))) == NamesOf(f.contents[j + 1..])
    ensures |NamesOf(f.contents[j + 1..])| >= 1
  {
    CollectNamesSpec(f, least, [], j);
    ReversedTwice(NamesOf(f.contents[j + 1..]));
    assert [] + Reversed(NamesOf(f.contents[j + 1..])) == Reversed(NamesOf(f.contents[j + 1..]));
  }

  /** Popping the own top entry of a frame with a non-empty stack. */
  lemma PopOwn(f: Frame, k: nat)
    requires 0 < k == |f.contents|
    ensures PopValue(f) == Ok((f.contents[k - 1].first, f.(contents := f.contents[..k - 1])))
  {
  }

  /** GetAttr reads the path spelled by the entries above the topmost
      Instance, in the order they were pushed, and replaces them and the
      Instance by the attribute found. */
  lemma GetAttrReadsPath(m: Machine, j: int)
    requires TopInstanceAt(m.frame.contents, j)
    ensures var c := m.frame.contents;
      if j == |c| - 1 then ExecGetAttr(m) == Fail(NoAttributeName)
      else ExecGetAttr(m) == Ok(On(m, m.frame.(contents :=
        c[..j] + [Pair(GetAttrRecursive(c[j].first, NamesOf(c[j + 1..])).value, m.frame.scope)])))
  {
    var c := m.frame.contents;
    if j == |c| - 1 {
      CollectNamesSpec(m.frame, 1, [], j);
    } else {
      CollectedAbove(m.frame, 1, j);
      var f1 := m.frame.(contents := c[..j + 1]);
      PopOwn(f1, j + 1);
      assert c[..j + 1][..j] == c[..j];
      var f2 := m.frame.(contents := c[..j]);
      var found := GetAttrRecursive(c[j].first, NamesOf(c[j + 1..]));
      assert ExecGetAttr(m) == Ok(On(m, PushValue(f2, found.value)));
    }
  }

  lemma SetAttrWritesData(m: Machine, j: int)
    requires TopInstanceAt(m.frame.contents, j) && 0 < j < |m.frame.contents| - 1
    ensures var c := m.frame.contents;
      ExecSetAttr(m) == Ok(On(m, m.frame.(contents :=
        c[..j - 1] + [Pair(SetAttrRecursive(c[j].first, NamesOf(c[j + 1..]), c[j - 1].first).value, m.frame.scope)])))
  {
    var c := m.frame.contents;
    CollectedAbove(m.frame, 2, j);
    var f1 := m.frame.(contents := c[..j + 1]);
    PopOwn(f1, j + 1);
    assert c[..j + 1][..j] == c[..j];
    var f2 := m.frame.(contents := c[..j]);
    PopOwn(f2, j);
    assert c[..j][..j - 1] == c[..j - 1];
    var f3 := m.frame.(contents := c[..j - 1]);
    var updated := SetAttrRecursive(c[j].first, NamesOf(c[j + 1..]), c[j - 1].first);
    assert WriteAlong(On(m, f1), NamesOf(c[j + 1..])) == Ok(On(m, PushValue(f3, updated.value)));
    assert ExecSetAttr(m) == Ok(On(m, PushValue(f3, updated.value)));
  }

  /** SetAttr writes the entry under the Instance along the path spelled by
      the entries above it, and replaces all of them by the updated Instance;
      an Instance at the very bottom leaves no data to write. */
  lemma SetAttrWritesPath(m: Machine, j: int)
    requires TopInstanceAt(m.frame.contents, j)
    ensures var c := m.frame.contents;
      if j == |c| - 1 then ExecSetAttr(m) == Fail(NoAttributeName)
      else if j == 0 then ExecSetAttr(m) == Fail(TooFewItems)
      else ExecSetAttr(m) == Ok(On(m, m.frame.(contents :=
        c[..j - 1] + [Pair(SetAttrRecursive(c[j].first, NamesOf(c[j + 1..]), c[j - 1].first).value, m.frame.scope)])))
  {
    if j == |m.frame.contents| - 1 || j == 0 {
      CollectNamesSpec(m.frame, 2, [], j);
    } else {
      SetAttrWritesData(m, j);
    }
  }

  /** Without an Instance on the frame's own stack both attribute
      instructions are fatal, whatever the parent holds. */
  lemma NoInstanceFatal(m: Machine)
    requires !HasInstance(m.frame.contents)
    ensures ExecGetAttr(m) == Fail(NoInstance)
    ensures ExecSetAttr(m) == Fail(NoInstance)
  {
  }

  /** The attribute a SetAttr path wrote is what a GetAttr of the same path
      on the result reads. */
  lemma SetAttrThenGetAttr(h: Values.Host, m: Machine, j: int)
    requires TopInstanceAt(m.frame.contents, j)
    requires 0 < j < |m.frame.contents| - 1
    ensures ExecSetAttr(m).Ok? && |ExecSetAttr(m).value.frame.contents| == j
    ensures var c := m.frame.contents;
      var updated := ExecSetAttr(m).value.frame.contents[j - 1].first;
      GetAttrRecursive(updated, NamesOf(c[j + 1..])) == Ok(c[j - 1].first)
  {
    var c := m.frame.contents;
    SetAttrWritesPath(m, j);
    GetAfterSetAttrRecursive(c[j].first, NamesOf(c[j + 1..]), c[j - 1].first);
  }

  // ------------------------------------------------------- variables

  /** Store binds the name in the frame's own scope, replacing the entry's
      scope by the terminal one exactly when it is the frame's current scope;
      nothing else about the frame changes. */
  lemma StoreStripRule(f: Frame, name: string, e: Pair)
    ensures Get(Store(f, name, e).scope, name) ==
      (if e.second == f.scope then Pair(e.first, Terminal()) else e)
    ensures forall other :: other != name ==> Get(Store(f, name, e).scope, other) == Get(f.scope, other)
    ensures Store(f, name, e).(scope := f.scope) == f
  {
    GetAfterDefine(f.scope, name, if e.second != f.scope then e else Pair(e.first, Terminal()));
    forall other | other != name
      ensures Get(Store(f, name, e).scope, other) == Get(f.scope, other)
    {
      GetAfterDefineOther(f.scope, name, if e.second != f.scope then e else Pair(e.first, Terminal()), other);
    }
  }

  /** In a frame without parent an unbound name takes its value from the top
      of the stack: the entry is popped, stored under the name and read back;
      on an empty stack the load is fatal. When what was stored reads as
      unbound again (Nothing with the empty scope), the load starts over on
      the shorter stack. */
  lemma LoadTakesArgument(f: Frame, name: string)
    requires f.outer.None? && Get(f.scope, name) == Unbound()
    ensures |f.contents| == 0 ==> Load(f, name) == Fail(StackUnderflow)
    ensures |f.contents| > 0 ==>
      var n := |f.contents|; var e := f.contents[n - 1];
      var g := Store(f.(contents := f.contents[..n - 1]), name, e);
      var stored := if e.second == f.scope then Pair(e.first, Terminal()) else e;
      Get(g.scope, name) == stored &&
      (stored != Unbound() ==> Load(f, name) == Ok((stored, g))) &&
      (stored == Unbound() ==> Load(f, name) == Load(g, name) && |g.contents| == n - 1)
  {
    if |f.contents| > 0 {
      var n := |f.contents|;
      var e := f.contents[n - 1];
      StoreStripRule(f.(contents := f.contents[..n - 1]), name, e);
    }
  }

  /** A frame with a parent resolves an unbound name in the parent snapshot;
      when the parent is a root frame that has to take the value from its
      stack, the entry leaves the snapshot but the frame's own stack, scope
      and argument count stay as they were. */
  lemma LoadInCalleeKeepsOwnStack(f: Frame, name: string)
    requires f.outer.Some? && f.outer.value.outer.None?
    requires Get(f.scope, name) == Unbound() && Get(f.outer.value.scope, name) == Unbound()
    requires |f.outer.value.contents| > 0
    requires var p := f.outer.value; var e := p.contents[|p.contents| - 1];
      (if e.second == p.scope then Pair(e.first, Terminal()) else e) != Unbound()
    ensures var p := f.outer.value; var n := |p.contents|; var e := p.contents[n - 1];
      var g := Store(p.(contents := p.contents[..n - 1]), name, e);
      Load(f, name) == Ok((if e.second == p.scope then Pair(e.first, Terminal()) else e, f.(outer := Some(g)))) &&
      |Visible(f.(outer := Some(g)))| == |Visible(f)| - 1
  {
    var p := f.outer.value;
    var n := |p.contents|;
    LoadTakesArgument(p, name);
    var g := Store(p.(contents := p.contents[..n - 1]), name, p.contents[n - 1]);
    assert Visible(p) == p.contents;
    assert Visible(g) == p.contents[..n - 1];
  }

  // ------------------------------------------------------- whole runs

  /** What no stack primitive undoes: the instruction list and the argument
      count (it only grows). */
  predicate Keeps(f: Frame, g: Frame) {
    g.instructions == f.instructions && g.argsTaken >= f.argsTaken
  }

  /** Keeps, and the console transcript only grows at the end. */
  predicate Extends(m: Machine, m': Machine) {
    Keeps(m.frame, m'.frame) && m.output <= m'.output
  }

  lemma {:induction false} LoadKeeps(f: Frame, name: string)
    ensures Load(f, name).Ok? ==> Keeps(f, Load(f, name).value.1) && Load(f, name).value.1.outer.Some? == f.outer.Some?
    decreases f.outer, |f.contents|
  {
    if Get(f.scope, name) == Unbound() && f.outer.None? && Pop(f).Ok? {
      PopIsVisibleTop(f);
      var (v, g) := Pop(f).value;
      LoadKeeps(Store(g, name, v), name);
    }
  }

  lemma {:induction false} CollectNamesKeeps(f: Frame, least: nat, names: seq<string>)
    ensures CollectNames(f, least, names).Ok? ==>
      CollectNames(f, least, names).value.1 == f.(contents := CollectNames(f, least, names).value.1.contents)
    decreases |f.contents|
  {
    if HasInstance(f.contents) && f.contents[|f.contents| - 1].first.vtype != Values.Instance {
      var top := f.contents[|f.contents| - 1].first;
      var g := f.(contents := f.contents[..|f.contents| - 1]);
      CollectNamesKeeps(g, least, names + [StringOf(top)]);
    }
  }

  lemma {:induction false} DiscardKeeps(f: Frame, n: int)
    ensures Discard(f, n).Ok? ==> Keeps(f, Discard(f, n).value)
    decreases n
  {
    if n > 0 {
      PopIsVisibleTop(f);
      if Pop(f).Ok? {
        DiscardKeeps(Pop(f).value.1, n - 1);
      }
    }
  }

  /** The stack primitives keep instructions and never lower the count. */
  lemma PrimitivesKeep()
    ensures forall f :: Pop(f).Ok? ==> Keeps(f, Pop(f).value.1)
    ensures forall f, name :: Load(f, name).Ok? ==> Keeps(f, Load(f, name).value.1)
    ensures forall f, least, names :: CollectNames(f, least, names).Ok? ==>
      Keeps(f, CollectNames(f, least, names).value.1)
    ensures forall f, n :: Discard(f, n).Ok? ==> Keeps(f, Discard(f, n).value)
  {
    forall f ensures Pop(f).Ok? ==> Keeps(f, Pop(f).value.1) {
      PopIsVisibleTop(f);
    }
    forall f, name ensures Load(f, name).Ok? ==> Keeps(f, Load(f, name).value.1) {
      LoadKeeps(f, name);
    }
    forall f, least, names ensures CollectNames(f, least, names).Ok? ==>
      Keeps(f, CollectNames(f, least, names).value.1) {
      CollectNamesKeeps(f, least, names);
    }
    forall f, n ensures Discard(f, n).Ok? ==> Keeps(f, Discard(f, n).value) {
      DiscardKeeps(f, n);
    }
  }

  lemma ExecsExtendPops(h: Values.Host, m: Machine, newline: bool)
    ensures ExecPrint(m, newline).Ok? ==> Extends(m, ExecPrint(m, newline).value)
    ensures ExecListPop(m).Ok? ==> Extends(m, ExecListPop(m).value)
    ensures ExecNot(m).Ok? ==> Extends(m, ExecNot(m).value)
    ensures ExecIf(m).Ok? ==> Extends(m, ExecIf(m).value)
  {
    PrimitivesKeep();
  }

  lemma ExecsExtendBinary(h: Values.Host, m: Machine, op: Values.Instruction)
    requires Ops.IsArithmetic(op)
    ensures ExecAppend(m).Ok? ==> Extends(m, ExecAppend(m).value)
    ensures ExecIndex(m).Ok? ==> Extends(m, ExecIndex(m).value)
    ensures ExecArith(h, m, op).Ok? ==> Extends(m, ExecArith(h, m, op).value)
    ensures ExecExecute(h, m).Ok? ==> Extends(m, ExecExecute(h, m).value)
  {
    PrimitivesKeep();
  }

  lemma ExecsExtendComparisons(m: Machine)
    ensures ExecEqual(m).Ok? ==> Extends(m, ExecEqual(m).value)
    ensures ExecGreater(m).Ok? ==> Extends(m, ExecGreater(m).value)
    ensures ExecLess(m).Ok? ==> Extends(m, ExecLess(m).value)
  {
    PrimitivesKeep();
  }

  lemma ExecsExtendVariables(m: Machine)
    ensures ExecLoad(m).Ok? ==> Extends(m, ExecLoad(m).value)
    ensures ExecStore(m).Ok? ==> Extends(m, ExecStore(m).value)
  {
    PrimitivesKeep();
  }

  lemma ExecsExtendAttributes(m: Machine)
    ensures ExecGetAttr(m).Ok? ==> Extends(m, ExecGetAttr(m).value)
    ensures ExecSetAttr(m).Ok? ==> Extends(m, ExecSetAttr(m).value)
  {
    PrimitivesKeep();
  }

  /** The instructions that do not run code keep the frame invariant. */
  lemma LocalStepExtends(h: Values.Host, fuel: nat, m: Machine, v: Values.Value)
    requires !AsInstruction(v).While? && !AsInstruction(v).Call?
    ensures Step(h, fuel, m, v).Ok? ==> Extends(m, Step(h, fuel, m, v).value)
  {
    match AsInstruction(v)
    case Print => ExecsExtendPops(h, m, false);
    case Println => ExecsExtendPops(h, m, true);
    case If => ExecsExtendPops(h, m, false);
    case Pop => ExecsExtendPops(h, m, false);
    case Not => ExecsExtendPops(h, m, false);
    case Append => ExecsExtendBinary(h, m, Values.Add);
    case Index => ExecsExtendBinary(h, m, Values.Add);
    case Equal => ExecsExtendComparisons(m);
    case Greater => ExecsExtendComparisons(m);
    case Less => ExecsExtendComparisons(m);
    case Execute => ExecsExtendBinary(h, m, Values.Add);
    case Add => ExecsExtendBinary(h, m, Values.Add);
    case Mul => ExecsExtendBinary(h, m, Values.Mul);
    case Sub => ExecsExtendBinary(h, m, Values.Sub);
    case Div => ExecsExtendBinary(h, m, Values.Div);
    case Mod => ExecsExtendBinary(h, m, Values.Mod);
    case Load => ExecsExtendVariables(m);
    case Store => ExecsExtendVariables(m);
    case GetAttr => ExecsExtendAttributes(m);
    case SetAttr => ExecsExtendAttributes(m);
    case Pass =>
  }

  lemma {:induction false} StepExtends(h: Values.Host, fuel: nat, m: Machine, v: Values.Value)
    ensures Step(h, fuel, m, v).Ok? ==> Extends(m, Step(h, fuel, m, v).value)
    decreases fuel, 2, 0
  {
    match AsInstruction(v)
    case While =>
      PrimitivesKeep();
      if PopValue(m.frame).Ok? && PopValue(PopValue(m.frame).value.1).Ok? {
        var (condition, f1) := PopValue(m.frame).value;
        var (body, f2) := PopValue(f1).value;
        WhileExtends(h, fuel, On(m, f2), condition, body);
      }
    case Call =>
      PrimitivesKeep();
      if Pop(m.frame).Ok? {
        var (callee, f1) := Pop(m.frame).value;
        CallExtends(h, fuel, On(m, f1), callee);
      }
    case _ =>
      LocalStepExtends(h, fuel, m, v);
  }

  lemma {:induction false} RunFromExtends(h: Values.Host, fuel: nat, m: Machine, instructions: seq<Values.Value>, i: nat)
    requires i <= |instructions|
    ensures RunFrom(h, fuel, m, instructions, i).Ok? ==> Extends(m, RunFrom(h, fuel, m, instructions, i).value)
    decreases fuel, 3, |instructions| - i
  {
    if i < |instructions| {
      StepExtends(h, fuel, m, instructions[i]);
      if Step(h, fuel, m, instructions[i]).Ok? {
        RunFromExtends(h, fuel, Step(h, fuel, m, instructions[i]).value, instructions, i + 1);
      }
    }
  }

  lemma {:induction false} WhileExtends(h: Values.Host, fuel: nat, m: Machine, condition: Values.Value, body: Values.Value)
    ensures While(h, fuel, m, condition, body).Ok? ==> Extends(m, While(h, fuel, m, condition, body).value)
    decreases fuel, 1, 0
  {
    if fuel > 0 {
      RunFromExtends(h, fuel - 1, m, condition.list, 0);
      var m1 := RunFrom(h, fuel - 1, m, condition.list, 0);
      if m1.Ok? && PopValue(m1.value.frame).Ok? {
        PrimitivesKeep();
        var (result, f2) := PopValue(m1.value.frame).value;
        if !(result == NumValue(0) || result == NothingValue()) {
          RunFromExtends(h, fuel - 1, On(m1.value, f2), body.list, 0);
          var m3 := RunFrom(h, fuel - 1, On(m1.value, f2), body.list, 0);
          if m3.Ok? {
            WhileExtends(h, fuel - 1, m3.value, condition, body);
          }
        }
      }
    }
  }

  lemma {:induction false} CallExtends(h: Values.Host, fuel: nat, m: Machine, callee: Pair)
    ensures Call(h, fuel, m, callee).Ok? ==> Extends(m, Call(h, fuel, m, callee).value)
    decreases fuel, 1, 0
  {
    if fuel > 0 {
      var child := Callee(m, callee);
      RunFromExtends(h, fuel - 1, child, child.frame.instructions.list, 0);
      PrimitivesKeep();
    }
  }

  /** A run started on a fresh frame borrows a non-negative number of
      arguments and only appends to the transcript. */
  lemma RunExtends(h: Values.Host, fuel: nat, m: Machine)
    ensures Run(h, fuel, m).Ok? ==> Extends(m, Run(h, fuel, m).value)
  {
    RunFromExtends(h, fuel, m, m.frame.instructions.list, 0);
  }

  /** The stack effect of a call: the callee runs on a snapshot of the caller;
      then as many entries as it borrowed leave the caller's visible stack
      and everything the callee left is pushed, bottom first. A callee that
      borrowed more than the caller holds makes the call fatal. */
  lemma CallStackEffect(h: Values.Host, fuel: nat, m: Machine, callee: Pair)
    ensures fuel == 0 ==> Call(h, fuel, m, callee) == Exhausted
    ensures fuel > 0 && !Run(h, fuel - 1, Callee(m, callee)).Ok? ==>
      Call(h, fuel, m, callee) == Run(h, fuel - 1, Callee(m, callee)).PropagateFailure()
    ensures fuel > 0 && Run(h, fuel - 1, Callee(m, callee)).Ok? ==>
      var done := Run(h, fuel - 1, Callee(m, callee)).value;
      var V := Visible(m.frame); var k := done.frame.argsTaken;
      0 <= k &&
      (Call(h, fuel, m, callee).Ok? <==> k <= |V|) &&
      (k > |V| ==> Call(h, fuel, m, callee) == Fail(StackUnderflow)) &&
      (k <= |V| ==>
        Visible(Call(h, fuel, m, callee).value.frame) == V[..|V| - k] + done.frame.contents &&
        SameFrame(m.frame, Call(h, fuel, m, callee).value.frame) &&
        Call(h, fuel, m, callee).value.output == done.output)
  {
    if fuel > 0 && Run(h, fuel - 1, Callee(m, callee)).Ok? {
      var done := Run(h, fuel - 1, Callee(m, callee)).value;
      RunExtends(h, fuel - 1, Callee(m, callee));
      var k := done.frame.argsTaken;
      DiscardIsVisiblePrefix(m.frame, k);
      if k <= |Visible(m.frame)| {
        AppendOnVisible(Discard(m.frame, k).value, done.frame.contents);
      }
    }
  }

  // ------------------------------------------------------- composition

  /** Running a concatenation runs the first part, then the second on the
      machine the first left, stopping at the first fault. */
  lemma {:induction false} RunFromConcat(h: Values.Host, fuel: nat, m: Machine, a: seq<Values.Value>, b: seq<Values.Value>, i: nat)
    requires i <= |a|
    ensures RunFrom(h, fuel, m, a + b, i) ==
      match RunFrom(h, fuel, m, a, i)
      case Ok(m') => RunFrom(h, fuel, m', b, 0)
      case Fail(e) => Fail(e)
      case Exhausted => Exhausted
    decreases |a| - i
  {
    if i == |a| {
      RunFromSuffix(h, fuel, m, a, b, 0);
    } else {
      assert (a + b)[i] == a[i];
      if Step(h, fuel, m, a[i]).Ok? {
        RunFromConcat(h, fuel, Step(h, fuel, m, a[i]).value, a, b, i + 1);
      }
    }
  }

  lemma {:induction false} RunFromSuffix(h: Values.Host, fuel: nat, m: Machine, a: seq<Values.Value>, b: seq<Values.Value>, k: nat)
    requires k <= |b|
    ensures RunFrom(h, fuel, m, a + b, |a| + k) == RunFrom(h, fuel, m, b, k)
    decreases |b| - k
  {
    if k < |b| {
      assert (a + b)[|a| + k] == b[k];
      if Step(h, fuel, m, b[k]).Ok? {
        RunFromSuffix(h, fuel, Step(h, fuel, m, b[k]).value, a, b, k + 1);
      }
    }
  }

  // ------------------------------------------------------- fuel

  /** Fuel only bounds the model: a step that finished with some fuel
      finishes the same way with any larger amount. */
  lemma {:induction false} StepFuel(h: Values.Host, fuel: nat, more: nat, m: Machine, v: Values.Value)
    requires fuel <= more && !Step(h, fuel, m, v).Exhausted?
    ensures Step(h, more, m, v) == Step(h, fuel, m, v)
    decreases fuel, 2, 0
  {
    match AsInstruction(v)
    case While =>
      if PopValue(m.frame).Ok? && PopValue(PopValue(m.frame).value.1).Ok? {
        var (condition, f1) := PopValue(m.frame).value;
        var (body, f2) := PopValue(f1).value;
        WhileFuel(h, fuel, more, On(m, f2), condition, body);
      }
    case Call =>
      if Pop(m.frame).Ok? {
        var (callee, f1) := Pop(m.frame).value;
        CallFuel(h, fuel, more, On(m, f1), callee);
      }
    case _ =>
  }

  lemma {:induction false} RunFromFuel(h: Values.Host, fuel: nat, more: nat, m: Machine, instructions: seq<Values.Value>, i: nat)
    requires i <= |instructions|
    requires fuel <= more && !RunFrom(h, fuel, m, instructions, i).Exhausted?
    ensures RunFrom(h, more, m, instructions, i) == RunFrom(h, fuel, m, instructions, i)
    decreases fuel, 3, |instructions| - i
  {
    if i < |instructions| {
      StepFuel(h, fuel, more, m, instructions[i]);
      if Step(h, fuel, m, instructions[i]).Ok? {
        RunFromFuel(h, fuel, more, Step(h, fuel, m, instructions[i]).value, instructions, i + 1);
      }
    }
  }

  lemma {:induction false} WhileFuel(h: Values.Host, fuel: nat, more: nat, m: Machine, condition: Values.Value, body: Values.Value)
    requires fuel <= more && !While(h, fuel, m, condition, body).Exhausted?
    ensures While(h, more, m, condition, body) == While(h, fuel, m, condition, body)
    decreases fuel, 1, 0
  {
    RunFromFuel(h, fuel - 1, more - 1, m, condition.list, 0);
    var m1 := RunFrom(h, fuel - 1, m, condition.list, 0);
    if m1.Ok? && PopValue(m1.value.frame).Ok? {
      var (result, f2) := PopValue(m1.value.frame).value;
      if !(result == NumValue(0) || result == NothingValue()) {
        WhileRoundFuel(h, fuel, more, m, condition, body, m1.value, f2);
      }
    }
  }

  /** One round of While whose condition did not stop it: the body runs,
      then the loop goes on with one unit of fuel less. */
  lemma WhileRound(h: Values.Host, fuel: nat, m: Machine, condition: Values.Value, body: Values.Value,
                   m1: Machine, f2: Frame)
    requires 0 < fuel && RunFrom(h, fuel - 1, m, condition.list, 0) == Ok(m1)
    requires PopValue(m1.frame).Ok? && PopValue(m1.frame).value.1 == f2
    requires var result := PopValue(m1.frame).value.0; !(result == NumValue(0) || result == NothingValue())
    ensures var m3 := RunFrom(h, fuel - 1, On(m1, f2), body.list, 0);
      While(h, fuel, m, condition, body) ==
        if m3.Ok? then While(h, fuel - 1, m3.value, condition, body) else m3
  {
  }

  /** The round of WhileFuel that runs the body and loops. */
  lemma {:induction false} WhileRoundFuel(h: Values.Host, fuel: nat, more: nat, m: Machine,
                                          condition: Values.Value, body: Values.Value, m1: Machine, f2: Frame)
    requires 0 < fuel <= more
    requires RunFrom(h, more - 1, m, condition.list, 0) == RunFrom(h, fuel - 1, m, condition.list, 0) == Ok(m1)
    requires PopValue(m1.frame).Ok? && PopValue(m1.frame).value.1 == f2
    requires var result := PopValue(m1.frame).value.0; !(result == NumValue(0) || result == NothingValue())
    requires !While(h, fuel, m, condition, body).Exhausted?
    ensures While(h, more, m, condition, body) == While(h, fuel, m, condition, body)
    decreases fuel, 0, 0
  {
    var m2 := On(m1, f2);
    WhileRound(h, fuel, m, condition, body, m1, f2);
    WhileRound(h, more, m, condition, body, m1, f2);
    RunFromFuel(h, fuel - 1, more - 1, m2, body.list, 0);
    var m3 := RunFrom(h, fuel - 1, m2, body.list, 0);
    if m3.Ok? {
      WhileFuel(h, fuel - 1, more - 1, m3.value, condition, body);
    }
  }

  lemma {:induction false} CallFuel(h: Values.Host, fuel: nat, more: nat, m: Machine, callee: Pair)
    requires fuel <= more && !Call(h, fuel, m, callee).Exhausted?
    ensures Call(h, more, m, callee) == Call(h, fuel, m, callee)
    decreases fuel, 1, 0
  {
    var child := Callee(m, callee);
    RunFromFuel(h, fuel - 1, more - 1, child, child.frame.instructions.list, 0);
  }

  /** The fuel bound is conservative for whole runs too. */
  lemma RunFuel(h: Values.Host, fuel: nat, more: nat, m: Machine)
    requires fuel <= more && !Run(h, fuel, m).Exhausted?
    ensures Run(h, more, m) == Run(h, fuel, m)
  {
    RunFromFuel(h, fuel, more, m, m.frame.instructions.list, 0);
  }
}
