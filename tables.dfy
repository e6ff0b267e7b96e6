/** The insertion-ordered string-keyed table used for attributes and for
    scope bindings. Only its interface behaviour is modelled: `get`
    distinguishes absence, `set` overwrites an existing key in place and
    appends a new one, `keys` lists keys in insertion order. */
module Tables {
  import opened Results

  datatype Table<V> = Table(entries: seq<(string, V)>) {

    function Keys(): (ks: seq<string>)
      ensures |ks| == |entries|
      ensures forall i :: 0 <= i < |entries| ==> ks[i] == entries[i].0
    {
      seq(|entries|, i requires 0 <= i < |entries| => entries[i].0)
    }

    /** Every key occurs once. */
    predicate Valid() {
      forall i, j :: 0 <= i < j < |entries| ==> entries[i].0 != entries[j].0
    }

    /** Position of the first entry with key k, or |entries| if none. */
    function Find(k: string): (i: nat)
      ensures i <= |entries|
      ensures i < |entries| ==> entries[i].0 == k
      ensures forall j :: 0 <= j < i ==> entries[j].0 != k
      decreases |entries|
    {
      if |entries| == 0 then 0
      else if entries[0].0 == k then 0
      else 1 + Table(entries[1..]).Find(k)
    }

    function Get(k: string): (r: Option<V>)
      ensures r.Some? <==> k in Keys()
      ensures r.Some? ==> exists i :: 0 <= i < |entries| && entries[i] == (k, r.value)
    {
      var i := Find(k);
      if i < |entries| then Some(entries[i].1) else None
    }

    function Set(k: string, v: V): (t: Table<V>)
      ensures t.Get(k) == Some(v)
      ensures forall k' :: k' != k ==> t.Get(k') == Get(k')
      ensures k in Keys() ==> t.Keys() == Keys()
      ensures k !in Keys() ==> t.Keys() == Keys() + [k]
      ensures Valid() ==> t.Valid()
    {
      var i := Find(k);
      if i < |entries| then
        var t := Table(entries[i := (k, v)]);
        SetAt(this, t, k, v, i);
        t
      else
        var t := Table(entries + [(k, v)]);
        SetAt(this, t, k, v, i);
        t
    }
  }

  /** The facts behind Set: u is t with entry i, the first with key k (or a
      new last one), replaced by (k, v). */
  lemma SetAt<V>(t: Table<V>, u: Table<V>, k: string, v: V, i: nat)
    requires i == t.Find(k)
    requires i < |t.entries| ==> u.entries == t.entries[i := (k, v)]
    requires i == |t.entries| ==> u.entries == t.entries + [(k, v)]
    ensures u.Get(k) == Some(v)
    ensures forall k' :: k' != k ==> u.Get(k') == t.Get(k')
    ensures k in t.Keys() ==> u.Keys() == t.Keys()
    ensures k !in t.Keys() ==> u.Keys() == t.Keys() + [k]
    ensures t.Valid() ==> u.Valid()
  {
    assert u.Find(k) == i by { FindIsFirst(u, k, i); }
    forall k' | k' != k ensures u.Get(k') == t.Get(k') {
      FindIgnoresOtherEntry(t, u, i, k');
    }
    if i < |t.entries| {
      assert u.Keys() == t.Keys();
    } else {
      assert u.Keys() == t.Keys() + [k];
    }
  }

  function EmptyTable<V>(): (t: Table<V>)
    ensures t.Valid() && t.Keys() == []
    ensures forall k :: t.Get(k) == None
  {
    Table([])
  }

  lemma {:induction false} FindIsFirst<V>(t: Table<V>, k: string, i: nat)
    requires i < |t.entries| && t.entries[i].0 == k
    requires forall j :: 0 <= j < i ==> t.entries[j].0 != k
    ensures t.Find(k) == i
    decreases i
  {
    if i > 0 {
      FindIsFirst(Table(t.entries[1..]), k, i - 1);
    }
  }

  /** Two tables that differ at most at position i, whose entry there has a
      key other than k' in both, agree on k'. */
  lemma {:induction false} FindIgnoresOtherEntry<V>(t: Table<V>, u: Table<V>, i: nat, k': string)
    requires |t.entries| <= |u.entries| <= |t.entries| + 1
    requires |u.entries| == |t.entries| + 1 ==> i == |t.entries|
    requires i < |u.entries| && u.entries[i].0 != k'
    requires i < |t.entries| ==> t.entries[i].0 != k'
    requires forall j :: 0 <= j < |t.entries| && j != i ==> u.entries[j] == t.entries[j]
    ensures u.Get(k') == t.Get(k')
  {
    var a, b := t.Find(k'), u.Find(k');
    if a < |t.entries| {
      assert a != i;
      FindIsFirst(u, k', a);
    }
  }

  /** With unique keys, the value stored at position i is what its key gets. */
  lemma GetAt<V>(t: Table<V>, i: nat)
    requires t.Valid() && i < |t.entries|
    ensures t.Get(t.entries[i].0) == Some(t.entries[i].1)
  {
    FindIsFirst(t, t.entries[i].0, i);
  }

  /** Setting a key twice is setting it once to the second value. */
  lemma SetTwice<V>(t: Table<V>, k: string, v1: V, v2: V)
    ensures t.Set(k, v1).Set(k, v2) == t.Set(k, v2)
  {
    var i := t.Find(k);
    var u := t.Set(k, v1);
    if i < |t.entries| {
      FindIsFirst(u, k, i);
      assert u.entries[i := (k, v2)] == t.entries[i := (k, v2)];
    } else {
      FindIsFirst(u, k, i);
      assert u.entries[i := (k, v2)] == t.entries + [(k, v2)];
    }
  }
}
