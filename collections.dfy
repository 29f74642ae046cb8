/**
 The two pieces of Python behaviour the move engine leans on: a dictionary
 that remembers insertion order (`tiles`, keyed by cell), and `sorted` with
 a key function and a `reverse` flag, which is stable.
 */
module Dicts {
  import opened Geometry

  /** An insertion-ordered dictionary from cells to values. */
  datatype Dict<V> = Dict(keys: seq<Cell>, entries: map<Cell, V>)

  predicate Distinct<T(==)>(s: seq<T>)
  {
    forall i, j :: 0 <= i < j < |s| ==> s[i] != s[j]
  }

  predicate WellFormed<V>(m: Dict<V>)
  {
    && Distinct(m.keys)
    && (forall k :: k in m.entries ==> k in m.keys)
    && (forall k :: k in m.keys ==> k in m.entries)
  }

  function Empty<V>(): (r: Dict<V>)
    ensures WellFormed(r) && r.keys == [] && r.entries == map[]
  {
    Dict([], map[])
  }

  /** `d[k] = v`: a new key goes last, an existing key keeps its place. */
  function Put<V>(m: Dict<V>, k: Cell, v: V): (r: Dict<V>)
    requires WellFormed(m)
    ensures WellFormed(r) && r.entries == m.entries[k := v]
    ensures k in m.entries ==> r.keys == m.keys
    ensures k !in m.entries ==> r.keys == m.keys + [k]
  {
    if k in m.entries then Dict(m.keys, m.entries[k := v])
    else Dict(m.keys + [k], m.entries[k := v])
  }

  /** `d.values()`, in insertion order. */
  function Values<V>(m: Dict<V>): (vs: seq<V>)
    requires WellFormed(m)
    ensures |vs| == |m.keys|
    ensures forall j :: 0 <= j < |vs| ==> vs[j] == m.entries[m.keys[j]]
  {
    seq(|m.keys|, j requires 0 <= j < |m.keys| => m.entries[m.keys[j]])
  }

  /**
   `d.values()` follows insertion order: storing under a new key appends the
   value, and storing under an existing key replaces that key's value where
   it stands.
   */
  lemma PutValues<V>(m: Dict<V>, k: Cell, v: V)
    requires WellFormed(m)
    ensures k !in m.entries ==> Values(Put(m, k, v)) == Values(m) + [v]
    ensures forall i :: 0 <= i < |m.keys| && m.keys[i] == k ==> Values(Put(m, k, v)) == Values(m)[i := v]
  {
  }

  /** `len(d)`. */
  function Size<V>(m: Dict<V>): nat
  {
    |m.keys|
  }

  predicate DistinctKeys<V>(s: seq<(Cell, V)>)
  {
    forall i, j :: 0 <= i < j < |s| ==> s[i].0 != s[j].0
  }

  /** `d.clear()` followed by `d[k] = v` for every pair in order. */
  function Build<V>(s: seq<(Cell, V)>): (r: Dict<V>)
    ensures WellFormed(r) && |r.keys| <= |s|
    decreases |s|
  {
    if s == [] then Empty()
    else Put(Build(s[..|s| - 1]), s[|s| - 1].0, s[|s| - 1].1)
  }

  /** Writing the next pair into the dictionary built so far is building one pair further. */
  lemma BuildNext<V>(s: seq<(Cell, V)>, j: nat, keys: seq<Cell>, entries: map<Cell, V>)
    requires j < |s| && Dict(keys, entries) == Build(s[..j])
    ensures Dict(if s[j].0 in entries then keys else keys + [s[j].0], entries[s[j].0 := s[j].1]) == Build(s[..j + 1])
  {
    assert s[..j + 1][..j] == s[..j];
  }

  /** Every key written is present and holds a value written for it. */
  lemma {:induction false} BuildEntries<V>(s: seq<(Cell, V)>)
    ensures forall j :: 0 <= j < |s| ==> s[j].0 in Build(s).entries
    ensures forall k :: k in Build(s).entries ==> (k, Build(s).entries[k]) in s
    decreases |s|
  {
    if s != [] {
      var init := s[..|s| - 1];
      BuildEntries(init);
      assert s == init + [s[|s| - 1]];
    }
  }

  /** A key holds the last value written under it. */
  lemma {:induction false} LastWins<V>(s: seq<(Cell, V)>, j: nat)
    requires j < |s| && forall i :: j < i < |s| ==> s[i].0 != s[j].0
    ensures s[j].0 in Build(s).entries && Build(s).entries[s[j].0] == s[j].1
    decreases |s|
  {
    if j < |s| - 1 {
      LastWins(s[..|s| - 1], j);
    }
  }

  /** When no key is written twice, the dictionary holds exactly the pairs, in order. */
  lemma {:induction false} BuildDistinct<V>(s: seq<(Cell, V)>)
    requires DistinctKeys(s)
    ensures |Build(s).keys| == |s|
    ensures forall j :: 0 <= j < |s| ==> Build(s).keys[j] == s[j].0 && Build(s).entries[s[j].0] == s[j].1
    decreases |s|
  {
    if s != [] {
      var init, last := s[..|s| - 1], s[|s| - 1];
      assert DistinctKeys(init);
      BuildDistinct(init);
      assert forall j :: 0 <= j < |init| ==> Build(init).keys[j] != last.0;
    }
  }

  /**
   Writing the objects `objs[id]` instead of the identities `id` gives a
   dictionary with the same keys, in the same order, each holding the
   object of the identity the other holds.
   */
  lemma {:induction false} BuildRelabel<V>(s: seq<(Cell, nat)>, objs: seq<V>, t: seq<(Cell, V)>)
    requires |t| == |s|
    requires forall j :: 0 <= j < |s| ==> s[j].1 < |objs| && t[j] == (s[j].0, objs[s[j].1])
    ensures Build(t).keys == Build<nat>(s).keys
    ensures forall k :: k in Build(t).entries <==> k in Build<nat>(s).entries
    ensures forall k :: k in Build(t).entries ==> Build<nat>(s).entries[k] < |objs| && Build(t).entries[k] == objs[Build<nat>(s).entries[k]]
    decreases |s|
  {
    if s != [] {
      BuildRelabel(s[..|s| - 1], objs, t[..|t| - 1]);
    }
  }

  lemma {:induction false} DistinctCard<T>(s: seq<T>)
    requires Distinct(s)
    ensures |set x | x in s| == |s|
  {
    if s != [] {
      var init := s[..|s| - 1];
      assert forall j :: 0 <= j < |init| ==> init[j] == s[j];
      DistinctCard(init);
      assert (set x | x in s) == (set x | x in init) + {s[|s| - 1]};
    }
  }

  /** The number of keys is the number of entries. */
  lemma SizeIsEntries<V>(m: Dict<V>)
    requires WellFormed(m)
    ensures |m.entries| == Size(m)
  {
    DistinctCard(m.keys);
    assert m.entries.Keys == set x | x in m.keys;
  }
}

module Sorting {

  /** Strictly ahead in the order `sorted` produces. */
  predicate Precedes(desc: bool, a: int, b: int)
  {
    if desc then a > b else a < b
  }

  /** Insert `e` after every element that it does not strictly precede. */
  function Place<T>(desc: bool, s: seq<(int, T)>, e: (int, T)): (r: seq<(int, T)>)
    ensures |r| == |s| + 1
    ensures multiset(r) == multiset(s) + multiset{e}
    decreases |s|
  {
    if s == [] || !Precedes(desc, e.0, s[|s| - 1].0) then s + [e]
    else
      var init := s[..|s| - 1];
      assert s == init + [s[|s| - 1]];
      Place(desc, init, e) + [s[|s| - 1]]
  }

  /** `sorted(s, key=fst, reverse=desc)`: a stable insertion sort on the key. */
  function SortBy<T>(desc: bool, s: seq<(int, T)>): (r: seq<(int, T)>)
    ensures |r| == |s| && multiset(r) == multiset(s)
    decreases |s|
  {
    if s == [] then []
    else
      var init := s[..|s| - 1];
      assert s == init + [s[|s| - 1]];
      Place(desc, SortBy(desc, init), s[|s| - 1])
  }

  predicate Ordered<T>(desc: bool, s: seq<(int, T)>)
  {
    forall i, j :: 0 <= i < j < |s| ==> !Precedes(desc, s[j].0, s[i].0)
  }

  function WithKey<T>(s: seq<(int, T)>, k: int): seq<(int, T)>
    decreases |s|
  {
    if s == [] then []
    else WithKey(s[..|s| - 1], k) + (if s[|s| - 1].0 == k then [s[|s| - 1]] else [])
  }

  lemma {:induction false} WithKeyAppend<T>(a: seq<(int, T)>, b: seq<(int, T)>, k: int)
    ensures WithKey(a + b, k) == WithKey(a, k) + WithKey(b, k)
    decreases |b|
  {
    if b == [] {
      assert a + b == a;
    } else {
      var binit := b[..|b| - 1];
      assert (a + b)[..|a + b| - 1] == a + binit;
      WithKeyAppend(a, binit, k);
    }
  }

  lemma {:induction false} PlaceOrdered<T>(desc: bool, s: seq<(int, T)>, e: (int, T))
    requires Ordered(desc, s)
    ensures Ordered(desc, Place(desc, s, e))
    decreases |s|
  {
    if s != [] && Precedes(desc, e.0, s[|s| - 1].0) {
      var init, last := s[..|s| - 1], s[|s| - 1];
      assert Ordered(desc, init);
      PlaceOrdered(desc, init, e);
      var p := Place(desc, init, e);
      forall i | 0 <= i < |p| ensures !Precedes(desc, last.0, p[i].0) {
        assert p[i] in multiset(p);
        if p[i] != e {
          assert p[i] in multiset(init);
          var j :| 0 <= j < |init| && init[j] == p[i];
          assert s[j] == init[j];
        }
      }
      assert Place(desc, s, e) == p + [last];
    }
  }

  lemma WithKeySingle<T>(e: (int, T), k: int)
    ensures WithKey([e], k) == if e.0 == k then [e] else []
  {
    assert [e][..0] == [];
  }

  /** Appending an element whose key differs from `e`'s commutes with collecting `e`. */
  lemma WithKeyAfter<T>(p: seq<(int, T)>, init: seq<(int, T)>, last: (int, T), e: (int, T), k: int)
    requires e.0 != last.0
    requires WithKey(p, k) == WithKey(init, k) + (if e.0 == k then [e] else [])
    ensures WithKey(p + [last], k) == WithKey(init + [last], k) + (if e.0 == k then [e] else [])
  {
    WithKeySingle(last, k);
    WithKeyAppend(p, [last], k);
    WithKeyAppend(init, [last], k);
  }

  lemma {:induction false} PlaceWithKey<T>(desc: bool, s: seq<(int, T)>, e: (int, T), k: int)
    ensures WithKey(Place(desc, s, e), k) == WithKey(s, k) + (if e.0 == k then [e] else [])
    decreases |s|
  {
    if s == [] || !Precedes(desc, e.0, s[|s| - 1].0) {
      WithKeySingle(e, k);
      WithKeyAppend(s, [e], k);
    } else {
      var init, last := s[..|s| - 1], s[|s| - 1];
      PlaceWithKey(desc, init, e, k);
      WithKeyAfter(Place(desc, init, e), init, last, e, k);
      assert s == init + [last];
    }
  }

  /**
   `SortBy` puts the keys in order and, among equal keys, keeps the input
   order (stability): the elements with any one key appear in the output
   exactly as they appear in the input.
   */
  lemma {:induction false} SortByOrderedStable<T>(desc: bool, s: seq<(int, T)>)
    ensures Ordered(desc, SortBy(desc, s))
    ensures forall k :: WithKey(SortBy(desc, s), k) == WithKey(s, k)
    decreases |s|
  {
    if s != [] {
      var init := s[..|s| - 1];
      SortByOrderedStable(desc, init);
      PlaceOrdered(desc, SortBy(desc, init), s[|s| - 1]);
      forall k ensures WithKey(SortBy(desc, s), k) == WithKey(s, k) {
        PlaceWithKey(desc, SortBy(desc, init), s[|s| - 1], k);
      }
    }
  }

  /** Sorting input that is already in order changes nothing. */
  lemma {:induction false} SortByOrdered<T>(desc: bool, s: seq<(int, T)>)
    requires Ordered(desc, s)
    ensures SortBy(desc, s) == s
    decreases |s|
  {
    if s != [] {
      var init, last := s[..|s| - 1], s[|s| - 1];
      assert s == init + [last];
      assert Ordered(desc, init);
      SortByOrdered(desc, init);
      assert init == [] || !Precedes(desc, last.0, init[|init| - 1].0);
    }
  }

  function Payloads<T>(s: seq<(int, T)>): (r: seq<T>)
    ensures |r| == |s| && forall j :: 0 <= j < |s| ==> r[j] == s[j].1
  {
    seq(|s|, j requires 0 <= j < |s| => s[j].1)
  }

  function MapPayloads<A, B>(s: seq<(int, A)>, f: A -> B): (r: seq<(int, B)>)
    ensures |r| == |s| && forall j :: 0 <= j < |s| ==> r[j] == (s[j].0, f(s[j].1))
  {
    seq(|s|, j requires 0 <= j < |s| => (s[j].0, f(s[j].1)))
  }

  lemma MapPayloadsAppend<A, B>(s: seq<(int, A)>, x: (int, A), f: A -> B)
    ensures MapPayloads(s + [x], f) == MapPayloads(s, f) + [(x.0, f(x.1))]
  {
  }

  lemma {:induction false} PlaceMap<A, B>(desc: bool, s: seq<(int, A)>, e: (int, A), f: A -> B)
    ensures Place(desc, MapPayloads(s, f), (e.0, f(e.1))) == MapPayloads(Place(desc, s, e), f)
    decreases |s|
  {
    var ms := MapPayloads(s, f);
    if s == [] || !Precedes(desc, e.0, s[|s| - 1].0) {
      MapPayloadsAppend(s, e, f);
    } else {
      var init, last := s[..|s| - 1], s[|s| - 1];
      assert ms[..|s| - 1] == MapPayloads(init, f);
      assert Place(desc, ms, (e.0, f(e.1))) == Place(desc, MapPayloads(init, f), (e.0, f(e.1))) + [(last.0, f(last.1))];
      PlaceMap(desc, init, e, f);
      MapPayloadsAppend(Place(desc, init, e), last, f);
    }
  }

  /** Sorting only looks at keys, so it commutes with relabelling the payloads. */
  lemma {:induction false} SortByMap<A, B>(desc: bool, s: seq<(int, A)>, f: A -> B)
    ensures SortBy(desc, MapPayloads(s, f)) == MapPayloads(SortBy(desc, s), f)
    decreases |s|
  {
    if s != [] {
      var init := s[..|s| - 1];
      assert MapPayloads(s, f)[..|s| - 1] == MapPayloads(init, f);
      SortByMap(desc, init, f);
      PlaceMap(desc, SortBy(desc, init), s[|s| - 1], f);
    }
  }

  lemma {:induction false} PlacePayloads<T>(desc: bool, s: seq<(int, T)>, e: (int, T))
    ensures multiset(Payloads(Place(desc, s, e))) == multiset(Payloads(s)) + multiset{e.1}
    decreases |s|
  {
    if s == [] || !Precedes(desc, e.0, s[|s| - 1].0) {
      assert Payloads(s + [e]) == Payloads(s) + [e.1];
    } else {
      var init, last := s[..|s| - 1], s[|s| - 1];
      PlacePayloads(desc, init, e);
      assert Payloads(Place(desc, init, e) + [last]) == Payloads(Place(desc, init, e)) + [last.1];
      assert Payloads(s) == Payloads(init) + [last.1];
    }
  }

  /** Sorting rearranges the payloads and loses or adds none. */
  lemma {:induction false} SortByPayloads<T>(desc: bool, s: seq<(int, T)>)
    ensures multiset(Payloads(SortBy(desc, s))) == multiset(Payloads(s))
    decreases |s|
  {
    if s != [] {
      var init := s[..|s| - 1];
      SortByPayloads(desc, init);
      PlacePayloads(desc, SortBy(desc, init), s[|s| - 1]);
      assert Payloads(s) == Payloads(init) + [s[|s| - 1].1];
    }
  }
}
