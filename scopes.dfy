/** Chained variable environments: each scope binds names to a value paired
    with the scope it was defined in. */
module Scopes {
  import opened Results
  import opened Tables
  import opened Values
  import opened Objects

  datatype Pair = Pair(first: Value, second: Scope)

  datatype Scope = Scope(table: Table<Pair>, outer: Option<Scope>)

  function New(outer: Option<Scope>): (s: Scope)
    ensures s.outer == outer && s.table.Keys() == []
  {
    Scope(EmptyTable(), outer)
  }

  /** The empty scope without parent that stands for "no closure". */
  function Terminal(): Scope {
    New(None)
  }

  /** What a lookup of an unbound name gives. */
  function Unbound(): Pair {
    Pair(NothingValue(), Terminal())
  }

  /** Binds in this scope only, replacing an earlier binding of the name. */
  function Define(s: Scope, name: string, p: Pair): (r: Scope)
    ensures r.outer == s.outer
    ensures r.table.Get(name) == Some(p)
    ensures forall other :: other != name ==> r.table.Get(other) == s.table.Get(other)
  {
    s.(table := s.table.Set(name, p))
  }

  /** Lookup: a binding of this scope is returned as stored; otherwise the
      parent's answer, whose scope is kept only for a Function value and is
      otherwise replaced by the terminal scope. */
  function Get(s: Scope, name: string): (r: Pair)
    ensures s.table.Get(name).Some? ==> r == s.table.Get(name).value
    ensures s.table.Get(name).None? ==> r.first.vtype == Function || r.second == Terminal()
    decreases s
  {
    match s.table.Get(name)
    case Some(p) => p
    case None =>
      var found := match s.outer
        case Some(o) => Get(o, name)
        case None => Unbound();
      if found.first.vtype == Function then found else Pair(found.first, Terminal())
  }

  /** Reference definition: the innermost binding of a name, if any. */
  function Lookup(s: Scope, name: string): Option<Pair>
    decreases s
  {
    match s.table.Get(name)
    case Some(p) => Some(p)
    case None =>
      match s.outer
      case Some(o) => Lookup(o, name)
      case None => None
  }

  /** Get finds the innermost binding, or (Nothing, terminal) when there is
      none; a binding found in an enclosing scope keeps its own scope exactly
      when its value is a Function. */
  lemma {:induction false} GetIsInnermost(s: Scope, name: string)
    ensures Lookup(s, name).None? ==> Get(s, name) == Unbound()
    ensures Lookup(s, name).Some? ==> Get(s, name).first == Lookup(s, name).value.first
    ensures Lookup(s, name).Some? && s.table.Get(name).None? ==>
      Get(s, name).second ==
        (if Lookup(s, name).value.first.vtype == Function then Lookup(s, name).value.second else Terminal())
    decreases s
  {
    if s.table.Get(name).None? && s.outer.Some? {
      GetIsInnermost(s.outer.value, name);
    }
  }

  /** A binding just defined is what a lookup of that name gives. */
  lemma GetAfterDefine(s: Scope, name: string, p: Pair)
    ensures Get(Define(s, name, p), name) == p
  {
  }

  /** Defining one name does not change the lookup of any other. */
  lemma GetAfterDefineOther(s: Scope, name: string, p: Pair, other: string)
    requires other != name
    ensures Get(Define(s, name, p), other) == Get(s, other)
  {
  }
}
