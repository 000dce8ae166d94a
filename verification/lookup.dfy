/** Generic operations over the static format tables both scanner front-ends use:
    a table is written as an ordered list of (key, value) entries, used forwards
    as a map, backwards by searching for the first entry with a given value, and
    as the translation in a filter-map over a list of keys. */
module Lookup {
  import opened Wrappers

  /** No key is paired with two different values: the entries denote a map. */
  ghost predicate Functional<K, V>(es: seq<(K, V)>) {
    forall i, j :: 0 <= i < |es| && 0 <= j < |es| && es[i].0 == es[j].0 ==> es[i].1 == es[j].1
  }

  /** No value is paired with two different keys. */
  ghost predicate Injective<K, V>(es: seq<(K, V)>) {
    forall i, j :: 0 <= i < |es| && 0 <= j < |es| && es[i].1 == es[j].1 ==> es[i].0 == es[j].0
  }

  /** No key occurs in two entries. */
  ghost predicate KeysDistinct<K, V>(es: seq<(K, V)>) {
    forall i, j :: 0 <= i < j < |es| ==> es[i].0 != es[j].0
  }

  /** No value occurs in two entries. */
  ghost predicate ValuesDistinct<K, V>(es: seq<(K, V)>) {
    forall i, j :: 0 <= i < j < |es| ==> es[i].1 != es[j].1
  }

  /** Distinct keys make a table functional, distinct values make it injective. */
  lemma DistinctEntries<K, V>(es: seq<(K, V)>)
    ensures KeysDistinct(es) ==> Functional(es)
    ensures ValuesDistinct(es) ==> Injective(es)
  {
    if KeysDistinct(es) {
      forall i, j | 0 <= i < |es| && 0 <= j < |es| && es[i].0 == es[j].0
        ensures es[i].1 == es[j].1
      {
        assert !(i < j) && !(j < i);
      }
    }
    if ValuesDistinct(es) {
      forall i, j | 0 <= i < |es| && 0 <= j < |es| && es[i].1 == es[j].1
        ensures es[i].0 == es[j].0
      {
        assert !(i < j) && !(j < i);
      }
    }
  }

  /** No two distinct keys of the map share a value. */
  ghost predicate MapInjective<K, V>(m: map<K, V>) {
    forall k, k' :: k in m && k' in m && k != k' ==> m[k] != m[k']
  }

  /** The map a table literal denotes. */
  function ToMap<K, V(==)>(es: seq<(K, V)>): (m: map<K, V>)
    requires Functional(es)
    ensures m.Keys == set i | 0 <= i < |es| :: es[i].0
    ensures forall i :: 0 <= i < |es| ==> m[es[i].0] == es[i].1
    ensures m.Values == set i | 0 <= i < |es| :: es[i].1
  {
    map i | 0 <= i < |es| :: es[i].0 := es[i].1
  }

  /** The key of the first entry, in table order, whose value is `v` (a reverse lookup). */
  function FirstKey<K, V(==)>(es: seq<(K, V)>, v: V): (r: Option<K>)
    ensures r.None? <==> forall i :: 0 <= i < |es| ==> es[i].1 != v
    ensures r.Some? ==>
      exists i :: (0 <= i < |es| && es[i] == (r.value, v) && forall j :: 0 <= j < i ==> es[j].1 != v)
  {
    if es == [] then None
    else if es[0].1 == v then Some(es[0].0)
    else
      var r := FirstKey(es[1..], v);
      assert forall i :: 1 <= i < |es| ==> es[i] == es[1..][i - 1];
      assert r.Some? ==>
        exists i :: (1 <= i < |es| && es[i] == (r.value, v) && forall j :: 0 <= j < i ==> es[j].1 != v) by {
        if r.Some? {
          var k :| (0 <= k < |es[1..]| && es[1..][k] == (r.value, v)
            && forall j :: 0 <= j < k ==> es[1..][j].1 != v);
          assert es[k + 1] == (r.value, v);
          assert forall j :: 1 <= j < k + 1 ==> es[j].1 == es[1..][j - 1].1;
        }
      }
      r
  }

  /** The reverse lookup with a fallback key for a value no entry holds. For a
      table whose keys and values are unambiguous and which does not use the
      fallback as a key, the result is the fallback exactly when the value is
      not in the map, and otherwise the key the map takes to the value. */
  function ReverseOr<K(==), V(==)>(es: seq<(K, V)>, v: V, fallback: K): (k: K)
    requires Functional(es) && Injective(es)
    requires forall i :: 0 <= i < |es| ==> es[i].0 != fallback
    ensures k != fallback <==> v in ToMap(es).Values
    ensures k != fallback ==> k in ToMap(es) && ToMap(es)[k] == v
  {
    RoundTrip(es);
    var r := FirstKey(es, v);
    assert r.Some? ==> r.value != fallback && ToMap(es)[r.value] == v;
    r.GetOr(fallback)
  }

  /** Maps every key of `xs` that the map knows through it, dropping the others
      and keeping the order of the survivors. */
  function FilterMap<K, V>(m: map<K, V>, xs: seq<K>): (r: seq<V>)
    ensures |r| <= |xs|
  {
    if xs == [] then []
    else if xs[0] in m then [m[xs[0]]] + FilterMap(m, xs[1..])
    else FilterMap(m, xs[1..])
  }

  /** Every output of the filter-map is the image of some mapped input, every
      mapped input has its image in the output, and the output is empty exactly
      when no input is mapped. */
  lemma {:induction false} FilterMapContents<K, V>(m: map<K, V>, xs: seq<K>)
    ensures forall v :: v in FilterMap(m, xs) ==> exists k :: k in xs && k in m && m[k] == v
    ensures forall k :: k in xs && k in m ==> m[k] in FilterMap(m, xs)
    ensures FilterMap(m, xs) == [] <==> forall k :: k in xs ==> k !in m
  {
    if xs != [] {
      FilterMapContents(m, xs[1..]);
      assert xs == [xs[0]] + xs[1..];
    }
  }

  /** With values distinct, the reverse lookup of an entry's value finds that entry's key. */
  lemma ReverseLookupUnique<K, V>(es: seq<(K, V)>, i: int)
    requires Injective(es)
    requires 0 <= i < |es|
    ensures FirstKey(es, es[i].1) == Some(es[i].0)
  {
  }

  /** With values distinct, the reverse lookup does not depend on the order in
      which the entries are searched. */
  lemma ReverseLookupOrderIndependent<K, V>(es: seq<(K, V)>, es': seq<(K, V)>, v: V)
    requires Injective(es)
    requires multiset(es) == multiset(es')
    ensures FirstKey(es, v) == FirstKey(es', v)
  {
    var r, r' := FirstKey(es, v), FirstKey(es', v);
    if r.Some? {
      var i :| 0 <= i < |es| && es[i] == (r.value, v);
      assert es[i] in multiset(es');
      assert r'.Some?;
    }
    if r'.Some? {
      var j :| 0 <= j < |es'| && es'[j] == (r'.value, v);
      assert es'[j] in multiset(es);
      var i :| 0 <= i < |es| && es[i] == es'[j];
      assert r.Some?;
      var i0 :| 0 <= i0 < |es| && es[i0] == (r.value, v);
      assert es[i0].1 == es[i].1;
    }
  }

  /** Looking up a key forwards and its value backwards gives the key back; a
      value the map does not hold is found by no reverse lookup. */
  lemma RoundTrip<K, V>(es: seq<(K, V)>)
    requires Functional(es) && Injective(es)
    ensures forall k :: k in ToMap(es) ==> FirstKey(es, ToMap(es)[k]) == Some(k)
    ensures forall v :: FirstKey(es, v).None? <==> v !in ToMap(es).Values
  {
    var m := ToMap(es);
    forall k | k in m
      ensures FirstKey(es, m[k]) == Some(k)
    {
      var i :| 0 <= i < |es| && es[i].0 == k;
      ReverseLookupUnique(es, i);
    }
    forall v
      ensures FirstKey(es, v).None? <==> v !in m.Values
    {
      if FirstKey(es, v).Some? {
        var i :| 0 <= i < |es| && es[i] == (FirstKey(es, v).value, v);
        assert m[es[i].0] == v;
      }
      if v in m.Values {
        var k :| k in m && m[k] == v;
        var i :| 0 <= i < |es| && es[i].0 == k;
        assert es[i].1 == v;
      }
    }
  }

  /** A table whose keys and values are both unambiguous denotes an injective map. */
  lemma ToMapInjective<K, V>(es: seq<(K, V)>)
    requires Functional(es) && Injective(es)
    ensures MapInjective(ToMap(es))
  {
    var m := ToMap(es);
    forall k, k' | k in m && k' in m && k != k'
      ensures m[k] != m[k']
    {
      var i :| 0 <= i < |es| && es[i].0 == k;
      var j :| 0 <= j < |es| && es[j].0 == k';
    }
  }

  /** The keys a table mentions. */
  ghost function KeySet<K, V>(es: seq<(K, V)>): set<K> {
    set i | 0 <= i < |es| :: es[i].0
  }

  /** A table without repeated keys mentions as many keys as it has entries. */
  lemma {:induction false} KeySetSize<K, V>(es: seq<(K, V)>)
    requires KeysDistinct(es)
    ensures |KeySet(es)| == |es|
  {
    if es != [] {
      var init, last := es[..|es| - 1], es[|es| - 1];
      assert forall i :: 0 <= i < |init| ==> init[i] == es[i];
      assert KeysDistinct(init);
      KeySetSize(init);
      assert KeySet(es) == KeySet(init) + {last.0} by {
        forall k | k in KeySet(es) ensures k in KeySet(init) + {last.0} {
          var i :| 0 <= i < |es| && es[i].0 == k;
          if i < |init| { assert init[i].0 == k; }
        }
      }
      assert last.0 !in KeySet(init);
    }
  }

  /** A table without repeated keys has as many map entries as it has entries. */
  lemma ToMapSize<K, V>(es: seq<(K, V)>)
    requires KeysDistinct(es)
    ensures Functional(es)
    ensures |ToMap(es)| == |es|
  {
    DistinctEntries(es);
    KeySetSize(es);
    assert ToMap(es).Keys == KeySet(es);
  }

  /** The filter-map of a concatenation is the concatenation of the filter-maps:
      entries are translated one after the other, in order. */
  lemma {:induction false} FilterMapAppend<K, V>(m: map<K, V>, xs: seq<K>, ys: seq<K>)
    ensures FilterMap(m, xs + ys) == FilterMap(m, xs) + FilterMap(m, ys)
  {
    if xs == [] {
      assert xs + ys == ys;
    } else {
      var zs := xs + ys;
      assert zs[0] == xs[0];
      assert zs[1..] == xs[1..] + ys;
      FilterMapAppend(m, xs[1..], ys);
      if xs[0] in m {
        assert FilterMap(m, zs) == [m[xs[0]]] + FilterMap(m, zs[1..]);
        assert FilterMap(m, xs) == [m[xs[0]]] + FilterMap(m, xs[1..]);
      } else {
        assert FilterMap(m, zs) == FilterMap(m, zs[1..]);
        assert FilterMap(m, xs) == FilterMap(m, xs[1..]);
      }
    }
  }

  /** Two maps with the same keys keep the same entries of any list. */
  lemma {:induction false} FilterMapSameKeys<K, V, W>(m: map<K, V>, m': map<K, W>, xs: seq<K>)
    requires m.Keys == m'.Keys
    ensures |FilterMap(m, xs)| == |FilterMap(m', xs)|
  {
    if xs != [] {
      FilterMapSameKeys(m, m', xs[1..]);
    }
  }

  /** Every index in `s` moved one position to the right. */
  function Shift(s: seq<nat>): (r: seq<nat>)
    ensures |r| == |s|
    ensures forall j :: 0 <= j < |s| ==> r[j] == s[j] + 1
  {
    seq(|s|, j requires 0 <= j < |s| => s[j] + 1)
  }

  /** The positions of `xs` whose keys the map knows, in increasing order. */
  ghost function KeptIndices<K, V>(m: map<K, V>, xs: seq<K>): seq<nat>
  {
    if xs == [] then []
    else if xs[0] in m then [0] + Shift(KeptIndices(m, xs[1..]))
    else Shift(KeptIndices(m, xs[1..]))
  }

  /** `idx` is strictly increasing. */
  ghost predicate Increasing(idx: seq<nat>) {
    forall j, j' :: 0 <= j < j' < |idx| ==> idx[j] < idx[j']
  }

  /** `out[j]` is the image of the key at position `idx[j]` of `xs`, for every j. */
  ghost predicate ImagesAt<K, V>(m: map<K, V>, xs: seq<K>, idx: seq<nat>, out: seq<V>) {
    && |idx| == |out|
    && forall j :: 0 <= j < |idx| ==> idx[j] < |xs| && xs[idx[j]] in m && out[j] == m[xs[idx[j]]]
  }

  /** Every position of `xs` whose key is mapped occurs in `idx`. */
  ghost predicate CoversMapped<K, V>(m: map<K, V>, xs: seq<K>, idx: seq<nat>) {
    forall i :: 0 <= i < |xs| && xs[i] in m ==> i in idx
  }

  /** Prefixing the input by one key moves every kept position right by one. */
  lemma ShiftStep<K, V>(m: map<K, V>, xs: seq<K>, tail: seq<nat>, out: seq<V>)
    requires xs != []
    requires Increasing(tail) && ImagesAt(m, xs[1..], tail, out) && CoversMapped(m, xs[1..], tail)
    ensures Increasing(Shift(tail)) && ImagesAt(m, xs, Shift(tail), out)
    ensures forall i :: 1 <= i < |xs| && xs[i] in m ==> i in Shift(tail)
  {
    var rest := Shift(tail);
    forall j | 0 <= j < |rest|
      ensures rest[j] < |xs| && xs[rest[j]] in m && out[j] == m[xs[rest[j]]]
    {
      assert xs[rest[j]] == xs[1..][tail[j]];
    }
    forall i | 1 <= i < |xs| && xs[i] in m
      ensures i in rest
    {
      assert xs[1..][i - 1] == xs[i];
      var j :| 0 <= j < |tail| && tail[j] == i - 1;
      assert rest[j] == i;
    }
  }

  /** Keeping a mapped first key puts position 0 in front of the shifted positions. */
  lemma KeepFirst<K, V>(m: map<K, V>, xs: seq<K>, rest: seq<nat>, out: seq<V>)
    requires xs != [] && xs[0] in m
    requires forall j :: 0 <= j < |rest| ==> rest[j] >= 1
    requires Increasing(rest) && ImagesAt(m, xs, rest, out)
    requires forall i :: 1 <= i < |xs| && xs[i] in m ==> i in rest
    ensures Increasing([0] + rest)
    ensures ImagesAt(m, xs, [0] + rest, [m[xs[0]]] + out)
    ensures CoversMapped(m, xs, [0] + rest)
  {
    var idx := [0] + rest;
    assert forall j :: 1 <= j < |idx| ==> idx[j] == rest[j - 1];
    forall i | 0 <= i < |xs| && xs[i] in m
      ensures i in idx
    {
      if i == 0 {
        assert idx[0] == 0;
      } else {
        var j :| 0 <= j < |rest| && rest[j] == i;
        assert idx[j + 1] == i;
      }
    }
  }

  /** The filter-map keeps exactly the mapped positions, strictly in their
      original order, and its j-th output is the image of the j-th kept key. */
  lemma {:induction false} FilterMapKeepsOrder<K, V>(m: map<K, V>, xs: seq<K>)
    ensures Increasing(KeptIndices(m, xs))
    ensures ImagesAt(m, xs, KeptIndices(m, xs), FilterMap(m, xs))
    ensures CoversMapped(m, xs, KeptIndices(m, xs))
  {
    if xs != [] {
      FilterMapKeepsOrder(m, xs[1..]);
      var tail := KeptIndices(m, xs[1..]);
      var out := FilterMap(m, xs[1..]);
      ShiftStep(m, xs, tail, out);
      if xs[0] in m {
        KeepFirst(m, xs, Shift(tail), out);
      }
    }
  }
}
