/**
 * The java.util.stream pipeline the core runs over a map's entry set:
 * iteration in some order, `filter`, and `Collectors.toMap`, which throws
 * IllegalStateException when two entries produce the same key.
 */
module Streams {
  import opened Wrappers

  /** No two entries share a key. */
  ghost predicate DistinctKeys<K, V>(es: seq<(K, V)>) {
    forall i, j | 0 <= i < j < |es| :: es[i].0 != es[j].0
  }

  /** `order` lists every key of `m` exactly once: an iteration order of `m`. */
  ghost predicate IsOrderOf<K, V>(order: seq<K>, m: map<K, V>) {
    && (forall i, j | 0 <= i < j < |order| :: order[i] != order[j])
    && (forall k | k in m :: k in order)
    && (forall i | 0 <= i < |order| :: order[i] in m)
  }

  /**
   * Some iteration order of `m`. A hash map promises no particular order, so
   * the key taken next is any key not yet listed.
   */
  method KeyOrder<K, V>(m: map<K, V>) returns (order: seq<K>)
    ensures IsOrderOf(order, m)
  {
    var rest := m.Keys;
    order := [];
    while rest != {}
      invariant rest <= m.Keys
      invariant forall k | k in m :: k in order || k in rest
      invariant forall i | 0 <= i < |order| :: order[i] in m
      invariant forall k | k in order :: k !in rest
      invariant forall i, j | 0 <= i < j < |order| :: order[i] != order[j]
      decreases rest
    {
      var k :| k in rest;
      order := order + [k];
      rest := rest - {k};
    }
  }

  /** The entry set of `m`, streamed in `order`. */
  function Entries<K, V>(m: map<K, V>, order: seq<K>): (es: seq<(K, V)>)
    requires IsOrderOf(order, m)
    ensures DistinctKeys(es)
    ensures forall x | x in es :: x.0 in m && x.1 == m[x.0]
    ensures forall k | k in m :: (k, m[k]) in es
  {
    var es := seq(|order|, i requires 0 <= i < |order| => (order[i], m[order[i]]));
    assert forall k | k in m :: (k, m[k]) in es by {
      forall k | k in m ensures (k, m[k]) in es {
        var i :| 0 <= i < |order| && order[i] == k;
        assert es[i] == (k, m[k]);
      }
    }
    es
  }

  /** The keys the entries carry. */
  ghost function KeysOf<K, V>(es: seq<(K, V)>): set<K> {
    set x | x in es :: x.0
  }

  lemma KeysOfCons<K, V>(x: (K, V), es: seq<(K, V)>)
    ensures KeysOf([x] + es) == {x.0} + KeysOf(es)
  {
    assert forall y | y in [x] + es :: y == x || y in es;
  }

  lemma DistinctKeysCons<K, V>(x: (K, V), es: seq<(K, V)>)
    ensures DistinctKeys([x] + es) <==> DistinctKeys(es) && x.0 !in KeysOf(es)
  {
    var xs := [x] + es;
    assert xs[0] == x;
    assert forall i | 0 <= i < |es| :: xs[i + 1] == es[i];
    if DistinctKeys(xs) {
      forall y | y in es ensures y.0 != x.0 {
        var i :| 0 <= i < |es| && es[i] == y;
        assert xs[i + 1] == y;
      }
    }
    if DistinctKeys(es) && x.0 !in KeysOf(es) {
      forall i, j | 0 <= i < j < |xs| ensures xs[i].0 != xs[j].0 {
        if i == 0 { assert xs[j] in es; }
      }
    }
  }

  /** `stream.filter(e -> keep(e.getKey(), e.getValue()))`. */
  function Filter<K, V>(es: seq<(K, V)>, keep: (K, V) -> bool): (r: seq<(K, V)>)
    ensures forall x | x in r :: x in es && keep(x.0, x.1)
    ensures forall x | x in es && keep(x.0, x.1) :: x in r
    ensures DistinctKeys(es) ==> DistinctKeys(r)
  {
    if es == [] then []
    else
      var rest := Filter(es[1..], keep);
      DistinctKeysCons(es[0], es[1..]);
      DistinctKeysCons(es[0], rest);
      assert es == [es[0]] + es[1..];
      assert KeysOf(rest) <= KeysOf(es[1..]);
      if keep(es[0].0, es[0].1) then [es[0]] + rest else rest
  }

  /** Folds the entries into `acc` from the left, failing on the first key already present. */
  function Accumulate<K, V>(acc: map<K, V>, es: seq<(K, V)>): Result<map<K, V>, K>
    decreases |es|
  {
    if es == [] then Success(acc)
    else if es[0].0 in acc then Failure(es[0].0)
    else Accumulate(acc[es[0].0 := es[0].1], es[1..])
  }

  /** `collect(Collectors.toMap(...))` on a sequential stream; failure carries the duplicate key. */
  function ToMap<K, V>(es: seq<(K, V)>): Result<map<K, V>, K> {
    Accumulate(map[], es)
  }

  lemma {:induction false} AccumulateSucceeds<K, V>(acc: map<K, V>, es: seq<(K, V)>)
    ensures Accumulate(acc, es).Success? <==> DistinctKeys(es) && KeysOf(es) !! acc.Keys
    decreases |es|
  {
    if es != [] {
      var x, tail := es[0], es[1..];
      assert es == [x] + tail;
      DistinctKeysCons(x, tail);
      KeysOfCons(x, tail);
      AccumulateSucceeds(acc[x.0 := x.1], tail);
    }
  }

  lemma {:induction false} AccumulateValue<K, V>(acc: map<K, V>, es: seq<(K, V)>)
    requires Accumulate(acc, es).Success?
    ensures var r := Accumulate(acc, es).value;
      && r.Keys == acc.Keys + KeysOf(es)
      && (forall k | k in acc :: r[k] == acc[k])
      && (forall x | x in es :: r[x.0] == x.1)
    decreases |es|
  {
    if es != [] {
      var x, tail := es[0], es[1..];
      assert es == [x] + tail;
      KeysOfCons(x, tail);
      AccumulateValue(acc[x.0 := x.1], tail);
      AccumulateSucceeds(acc[x.0 := x.1], tail);
      assert forall y | y in es :: y == x || y in tail;
    }
  }

  /**
   * `Collectors.toMap` succeeds exactly when the keys are distinct, and then
   * maps each entry's key to that entry's value and nothing else.
   */
  lemma ToMapSpec<K, V>(es: seq<(K, V)>)
    ensures ToMap(es).Success? <==> DistinctKeys(es)
    ensures ToMap(es).Success? ==>
      && ToMap(es).value.Keys == KeysOf(es)
      && forall x | x in es :: ToMap(es).value[x.0] == x.1
  {
    AccumulateSucceeds(map[], es);
    if ToMap(es).Success? {
      AccumulateValue(map[], es);
    }
  }
}
