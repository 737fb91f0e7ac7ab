/** Sums over finite maps and sequences. */
module Sums {

  /** The sum of `f` over the values of `m`. */
  ghost function MapSum<K, V>(m: map<K, V>, f: V -> nat): nat
    decreases |m|
  {
    if m == map[] then 0
    else
      var k :| k in m;
      f(m[k]) + MapSum(m - {k}, f)
  }

  lemma {:induction false} MapSumRemove<K, V>(m: map<K, V>, f: V -> nat, k: K)
    requires k in m
    ensures MapSum(m, f) == f(m[k]) + MapSum(m - {k}, f)
    decreases |m|
  {
    var p :| p in m && MapSum(m, f) == f(m[p]) + MapSum(m - {p}, f);
    if p != k {
      MapSumRemove(m - {p}, f, k);
      MapSumRemove(m - {k}, f, p);
      assert m - {p} - {k} == m - {k} - {p};
    }
  }

  lemma MapSumUpdate<K, V>(m: map<K, V>, f: V -> nat, k: K, v: V)
    ensures MapSum(m[k := v], f) == MapSum(m, f) + f(v) - (if k in m then f(m[k]) else 0)
  {
    MapSumRemove(m[k := v], f, k);
    if k in m {
      MapSumRemove(m, f, k);
      assert m[k := v] - {k} == m - {k};
    } else {
      assert m[k := v] - {k} == m;
    }
  }

  /** The sum of `f` over a sequence. */
  function SeqSum<T>(xs: seq<T>, f: T -> nat): nat {
    if xs == [] then 0 else f(xs[0]) + SeqSum(xs[1..], f)
  }

  lemma {:induction false} SeqSumUpdate<T>(xs: seq<T>, f: T -> nat, i: nat, x: T)
    requires i < |xs|
    ensures SeqSum(xs[i := x], f) + f(xs[i]) == SeqSum(xs, f) + f(x)
  {
    if i == 0 {
      assert xs[0 := x][1..] == xs[1..];
    } else {
      SeqSumUpdate(xs[1..], f, i - 1, x);
      assert xs[i := x][1..] == xs[1..][i - 1 := x];
    }
  }

  lemma {:induction false} SeqSumAppend<T>(xs: seq<T>, ys: seq<T>, f: T -> nat)
    ensures SeqSum(xs + ys, f) == SeqSum(xs, f) + SeqSum(ys, f)
  {
    if xs == [] {
      assert xs + ys == ys;
    } else {
      SeqSumAppend(xs[1..], ys, f);
      assert (xs + ys)[1..] == xs[1..] + ys;
    }
  }

  lemma {:induction false} SeqSumAtLeast<T>(xs: seq<T>, f: T -> nat, i: nat)
    requires i < |xs|
    ensures SeqSum(xs, f) >= f(xs[i])
  {
    if i > 0 { SeqSumAtLeast(xs[1..], f, i - 1); }
  }

  /** The size of a map, as a sum: unlike `|m|` it costs the verifier nothing to mention. */
  ghost function Count<K, V>(m: map<K, V>): nat {
    MapSum(m, (v: V) => 1)
  }

  lemma {:induction false} CountIsSize<K, V>(m: map<K, V>)
    ensures Count(m) == |m|
    decreases |m|
  {
    if m != map[] {
      var k :| k in m;
      MapSumRemove(m, (v: V) => 1, k);
      CountIsSize(m - {k});
      assert m.Keys == (m - {k}).Keys + {k};
    }
  }

  lemma CountRemove<K, V>(m: map<K, V>, k: K)
    requires k in m
    ensures Count(m - {k}) == Count(m) - 1
  {
    MapSumRemove(m, (v: V) => 1, k);
  }

  lemma CountUpdate<K, V>(m: map<K, V>, k: K, v: V)
    ensures Count(m[k := v]) == Count(m) + (if k in m then 0 else 1)
  {
    MapSumUpdate(m, (v: V) => 1, k, v);
  }
}
