/**
 The five grouping operations. Each takes a sequence of key/value pairs,
 walks it once from front to back and builds a map `out` from every key seen
 to an aggregate of that key's values. Each also has a `...ByKey` entry point
 that takes arbitrary elements and a key function, and groups the pairs
 (key(x), x) instead.
 */
module Groupby {
  import opened GroupSpec

  /** Each key's number of occurrences. */
  method CountGroupBy<K(==), V>(pairs: seq<(K, V)>) returns (out: map<K, int>)
    ensures out.Keys == Keys(pairs)
    ensures forall k :: k in out ==> out[k] == |ValuesOf(pairs, k)|
    ensures SumValues(out) == |pairs|
    ensures |pairs| == 0 ==> out == map[]
  {
    out := map[];
    var i := 0;
    while i < |pairs|
      invariant i <= |pairs|
      invariant out.Keys == Keys(pairs[..i])
      invariant forall k :: k in out ==> out[k] == |ValuesOf(pairs[..i], k)|
    {
      var k := pairs[i].0;
      var accumulator := Get(out, k);
      KeyOccursIffValues(pairs[..i], k);
      if accumulator.None? {
        out := out[k := 1];
      } else {
        out := out[k := accumulator.value + 1];
      }
      PrefixStep(pairs, i);
      i := i + 1;
    }
    assert pairs[..i] == pairs;
    GroupSizesSum(pairs, out);
  }

  /** Each key's values added up, starting from the first value seen. */
  method SumGroupBy<K(==)>(pairs: seq<(K, int)>) returns (out: map<K, int>)
    ensures out.Keys == Keys(pairs)
    ensures forall k {:trigger out[k]} :: k in out ==> out[k] == Sum(ValuesOf(pairs, k))
    ensures |pairs| == 0 ==> out == map[]
  {
    out := map[];
    var i := 0;
    while i < |pairs|
      invariant i <= |pairs|
      invariant out.Keys == Keys(pairs[..i])
      invariant forall k {:trigger out[k]} :: k in out ==> out[k] == Sum(ValuesOf(pairs[..i], k))
    {
      var (k, v) := pairs[i];
      var accumulator := Get(out, k);
      ghost var prev := out;
      if accumulator.None? {
        out := out[k := v];
      } else {
        out := out[k := accumulator.value + v];
      }
      SumStep(pairs, i, prev, out);
      i := i + 1;
    }
    assert pairs[..i] == pairs;
  }

  /** One iteration of the summing loop keeps its invariant. */
  lemma SumStep<K>(pairs: seq<(K, int)>, i: nat, prev: map<K, int>, out: map<K, int>)
    requires i < |pairs|
    requires prev.Keys == Keys(pairs[..i])
    requires forall k {:trigger prev[k]} :: k in prev ==> prev[k] == Sum(ValuesOf(pairs[..i], k))
    requires out == prev[pairs[i].0 := (if pairs[i].0 in prev then prev[pairs[i].0] else 0) + pairs[i].1]
    ensures out.Keys == Keys(pairs[..i + 1])
    ensures forall k {:trigger out[k]} :: k in out ==> out[k] == Sum(ValuesOf(pairs[..i + 1], k))
  {
    var (k, v) := pairs[i];
    KeyOccursIffValues(pairs[..i], k);
    PrefixStep(pairs, i);
    SumSnoc(ValuesOf(pairs[..i], k), v);
    forall j | j in out ensures out[j] == Sum(ValuesOf(pairs[..i + 1], j)) {
      if j != k {
        assert out[j] == prev[j];
      }
    }
  }

  /** Each key's values, in arrival order, duplicates kept. */
  method ListGroupBy<K(==), V>(pairs: seq<(K, V)>) returns (out: map<K, seq<V>>)
    ensures out.Keys == Keys(pairs)
    ensures forall k :: k in out ==> out[k] == ValuesOf(pairs, k)
    ensures |pairs| == 0 ==> out == map[]
  {
    out := map[];
    var i := 0;
    while i < |pairs|
      invariant i <= |pairs|
      invariant out.Keys == Keys(pairs[..i])
      invariant forall k :: k in out ==> out[k] == ValuesOf(pairs[..i], k)
    {
      var (k, v) := pairs[i];
      var accumulator := Get(out, k);
      KeyOccursIffValues(pairs[..i], k);
      if accumulator.None? {
        out := out[k := [v]];
      } else {
        out := out[k := accumulator.value + [v]];
      }
      PrefixStep(pairs, i);
      i := i + 1;
    }
    assert pairs[..i] == pairs;
  }

  /** Each key's distinct values. */
  method SetGroupBy<K(==), V(==)>(pairs: seq<(K, V)>) returns (out: map<K, set<V>>)
    ensures out.Keys == Keys(pairs)
    ensures forall k {:trigger out[k]} :: k in out ==> out[k] == Elements(ValuesOf(pairs, k))
    ensures forall k, v :: k in out ==> (v in out[k] <==> (k, v) in pairs)
    ensures |pairs| == 0 ==> out == map[]
  {
    out := map[];
    var i := 0;
    while i < |pairs|
      invariant i <= |pairs|
      invariant out.Keys == Keys(pairs[..i])
      invariant forall k {:trigger out[k]} :: k in out ==> out[k] == Elements(ValuesOf(pairs[..i], k))
    {
      var (k, v) := pairs[i];
      var accumulator := Get(out, k);
      ghost var prev := out;
      if accumulator.None? {
        out := out[k := {v}];
      } else {
        out := out[k := accumulator.value + {v}];
      }
      SetStep(pairs, i, prev, out);
      i := i + 1;
    }
    assert pairs[..i] == pairs;
    forall k, v | k in out ensures v in out[k] <==> (k, v) in pairs {
      ValuesOfMembership(pairs, k, v);
    }
  }

  /** One iteration of the set-building loop keeps its invariant. */
  lemma SetStep<K, V>(pairs: seq<(K, V)>, i: nat, prev: map<K, set<V>>, out: map<K, set<V>>)
    requires i < |pairs|
    requires prev.Keys == Keys(pairs[..i])
    requires forall k {:trigger prev[k]} :: k in prev ==> prev[k] == Elements(ValuesOf(pairs[..i], k))
    requires out == prev[pairs[i].0 := if pairs[i].0 in prev then prev[pairs[i].0] + {pairs[i].1} else {pairs[i].1}]
    ensures out.Keys == Keys(pairs[..i + 1])
    ensures forall k {:trigger out[k]} :: k in out ==> out[k] == Elements(ValuesOf(pairs[..i + 1], k))
  {
    var (k, v) := pairs[i];
    KeyOccursIffValues(pairs[..i], k);
    PrefixStep(pairs, i);
    assert Elements(ValuesOf(pairs[..i], k) + [v]) == Elements(ValuesOf(pairs[..i], k)) + {v};
    forall j | j in out ensures out[j] == Elements(ValuesOf(pairs[..i + 1], j)) {
      if j != k {
        assert out[j] == prev[j];
      }
    }
  }

  /**
   Each key's values folded with `accumulate`, which is handed None for the
   key's first value and its own previous result after that.
   */
  method GenericGroupBy<K(==), V, A>(pairs: seq<(K, V)>, accumulate: (Option<A>, V) -> A)
    returns (out: map<K, A>)
    ensures out.Keys == Keys(pairs)
    ensures forall k {:trigger out[k]} :: k in out ==> Fold(accumulate, ValuesOf(pairs, k)) == Some(out[k])
    ensures |pairs| == 0 ==> out == map[]
  {
    out := map[];
    var i := 0;
    while i < |pairs|
      invariant i <= |pairs|
      invariant out.Keys == Keys(pairs[..i])
      invariant forall k {:trigger out[k]} :: k in out ==> Fold(accumulate, ValuesOf(pairs[..i], k)) == Some(out[k])
    {
      var (k, v) := pairs[i];
      ghost var prev := out;
      out := out[k := accumulate(Get(out, k), v)];
      GenericStep(pairs, accumulate, i, prev, out);
      i := i + 1;
    }
    assert pairs[..i] == pairs;
  }

  /** One iteration of the generic loop keeps its invariant. */
  lemma GenericStep<K, V, A>(pairs: seq<(K, V)>, accumulate: (Option<A>, V) -> A, i: nat, prev: map<K, A>, out: map<K, A>)
    requires i < |pairs|
    requires prev.Keys == Keys(pairs[..i])
    requires forall k {:trigger prev[k]} :: k in prev ==> Fold(accumulate, ValuesOf(pairs[..i], k)) == Some(prev[k])
    requires out == prev[pairs[i].0 := accumulate(Get(prev, pairs[i].0), pairs[i].1)]
    ensures out.Keys == Keys(pairs[..i + 1])
    ensures forall k {:trigger out[k]} :: k in out ==> Fold(accumulate, ValuesOf(pairs[..i + 1], k)) == Some(out[k])
  {
    var (k, v) := pairs[i];
    var seen := ValuesOf(pairs[..i], k);
    KeyOccursIffValues(pairs[..i], k);
    FoldSnoc(accumulate, seen, v);
    assert Get(prev, k) == Fold(accumulate, seen);
    PrefixStep(pairs, i);
    forall j | j in out ensures Fold(accumulate, ValuesOf(pairs[..i + 1], j)) == Some(out[j]) {
      if j != k {
        assert out[j] == prev[j];
      }
    }
  }

  // ---------------------------------------------------------------------------
  // Entry points with a key function
  // ---------------------------------------------------------------------------

  method CountGroupByKey<X, K(==)>(xs: seq<X>, key: X -> K) returns (out: map<K, int>)
    ensures out.Keys == Keys(Keyed(xs, key)) == KeyImage(xs, key)
    ensures forall k :: k in out ==> out[k] == |ValuesOf(Keyed(xs, key), k)| == |Select(xs, key, k)|
    ensures SumValues(out) == |xs|
  {
    out := CountGroupBy(Keyed(xs, key));
    KeyedKeys(xs, key);
    forall k | k in out ensures out[k] == |Select(xs, key, k)| {
      KeyedValues(xs, key, k);
    }
  }

  method SumGroupByKey<K(==)>(xs: seq<int>, key: int -> K) returns (out: map<K, int>)
    ensures out.Keys == Keys(Keyed(xs, key)) == KeyImage(xs, key)
    ensures forall k {:trigger out[k]} :: k in out ==> out[k] == Sum(ValuesOf(Keyed(xs, key), k)) == Sum(Select(xs, key, k))
  {
    out := SumGroupBy(Keyed(xs, key));
    KeyedKeys(xs, key);
    forall k | k in out ensures out[k] == Sum(Select(xs, key, k)) {
      KeyedValues(xs, key, k);
    }
  }

  method ListGroupByKey<X, K(==)>(xs: seq<X>, key: X -> K) returns (out: map<K, seq<X>>)
    ensures out.Keys == Keys(Keyed(xs, key)) == KeyImage(xs, key)
    ensures forall k :: k in out ==> out[k] == ValuesOf(Keyed(xs, key), k) == Select(xs, key, k)
  {
    out := ListGroupBy(Keyed(xs, key));
    KeyedKeys(xs, key);
    forall k | k in out ensures out[k] == Select(xs, key, k) {
      KeyedValues(xs, key, k);
    }
  }

  method SetGroupByKey<X(==), K(==)>(xs: seq<X>, key: X -> K) returns (out: map<K, set<X>>)
    ensures out.Keys == Keys(Keyed(xs, key)) == KeyImage(xs, key)
    ensures forall k :: k in out ==> out[k] == Elements(ValuesOf(Keyed(xs, key), k)) == Elements(Select(xs, key, k))
  {
    out := SetGroupBy(Keyed(xs, key));
    KeyedKeys(xs, key);
    forall k | k in out ensures out[k] == Elements(Select(xs, key, k)) {
      KeyedValues(xs, key, k);
    }
  }

  method GenericGroupByKey<X, K(==), A>(xs: seq<X>, accumulate: (Option<A>, X) -> A, key: X -> K)
    returns (out: map<K, A>)
    ensures out.Keys == Keys(Keyed(xs, key)) == KeyImage(xs, key)
    ensures forall k {:trigger out[k]} :: k in out ==> Fold(accumulate, ValuesOf(Keyed(xs, key), k)) == Some(out[k])
    ensures forall k :: k in out ==> Fold(accumulate, Select(xs, key, k)) == Some(out[k])
  {
    out := GenericGroupBy(Keyed(xs, key), accumulate);
    KeyedKeys(xs, key);
    forall k | k in out ensures Fold(accumulate, Select(xs, key, k)) == Some(out[k]) {
      KeyedValues(xs, key, k);
    }
  }

  // ---------------------------------------------------------------------------
  // Every named operation is the generic one with a fixed accumulate
  // ---------------------------------------------------------------------------

  function CountAccumulate<V>(accumulator: Option<int>, value: V): int
  {
    if accumulator.None? then 1 else accumulator.value + 1
  }

  function SumAccumulate(accumulator: Option<int>, value: int): int
  {
    if accumulator.None? then value else accumulator.value + value
  }

  function ListAccumulate<V>(accumulator: Option<seq<V>>, value: V): seq<V>
  {
    if accumulator.None? then [value] else accumulator.value + [value]
  }

  /** The set-building accumulate of the generic operation's test. */
  function SetAccumulate<V(==)>(accumulator: Option<set<V>>, value: V): set<V>
  {
    if accumulator.None? then {value} else accumulator.value + {value}
  }

  lemma {:induction false} FoldCount<V>(vs: seq<V>)
    ensures Fold(CountAccumulate, vs) == if |vs| == 0 then None else Some(|vs|)
  {
    if |vs| > 0 {
      FoldCount(vs[..|vs| - 1]);
    }
  }

  lemma {:induction false} FoldSum(vs: seq<int>)
    ensures Fold(SumAccumulate, vs) == if |vs| == 0 then None else Some(Sum(vs))
  {
    if |vs| > 0 {
      var front := vs[..|vs| - 1];
      FoldSum(front);
      if |front| == 0 {
        assert Sum(vs) == vs[0];
      }
    }
  }

  lemma {:induction false} FoldList<V>(vs: seq<V>)
    ensures Fold(ListAccumulate, vs) == if |vs| == 0 then None else Some(vs)
  {
    if |vs| > 0 {
      var front := vs[..|vs| - 1];
      FoldList(front);
      assert vs == front + [vs[|vs| - 1]];
    }
  }

  lemma {:induction false} FoldSet<V>(vs: seq<V>)
    ensures Fold(SetAccumulate, vs) == if |vs| == 0 then None else Some(Elements(vs))
  {
    if |vs| > 0 {
      var front := vs[..|vs| - 1];
      var last := vs[|vs| - 1];
      FoldSet(front);
      assert vs == front + [last];
      assert Elements(vs) == Elements(front) + {last};
      assert Fold(SetAccumulate, vs) == Some(SetAccumulate(Fold(SetAccumulate, front), last));
      if |front| == 0 {
        assert Elements(front) == {};
        assert Fold(SetAccumulate, front) == None;
        assert SetAccumulate(None, last) == {last};
        assert Elements(vs) == {last};
      }
    }
  }

  method CountIsGeneric<K(==), V>(pairs: seq<(K, V)>) returns (counts: map<K, int>, generic: map<K, int>)
    ensures counts == generic
  {
    counts := CountGroupBy(pairs);
    generic := GenericGroupBy(pairs, CountAccumulate);
    forall k | k in counts ensures counts[k] == generic[k] {
      KeyOccursIffValues(pairs, k);
      FoldCount(ValuesOf(pairs, k));
    }
  }

  method SumIsGeneric<K(==)>(pairs: seq<(K, int)>) returns (sums: map<K, int>, generic: map<K, int>)
    ensures sums == generic
  {
    sums := SumGroupBy(pairs);
    generic := GenericGroupBy(pairs, SumAccumulate);
    forall k | k in sums ensures sums[k] == generic[k] {
      KeyOccursIffValues(pairs, k);
      FoldSum(ValuesOf(pairs, k));
    }
  }

  method ListIsGeneric<K(==), V>(pairs: seq<(K, V)>) returns (lists: map<K, seq<V>>, generic: map<K, seq<V>>)
    ensures lists == generic
  {
    lists := ListGroupBy(pairs);
    generic := GenericGroupBy(pairs, ListAccumulate);
    forall k | k in lists ensures lists[k] == generic[k] {
      KeyOccursIffValues(pairs, k);
      FoldList(ValuesOf(pairs, k));
    }
  }
}
