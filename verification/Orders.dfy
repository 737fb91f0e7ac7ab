/** Total orders and sorting. The string order is the one Rust uses for `str`; `Sort` stands
    for the standard library's sort, which every caller here uses under a total order. */
module Orders {

  /** Lexicographic "at most" on strings. */
  predicate StrLe(a: string, b: string)
    decreases |a|
  {
    |a| == 0 ||
    (|b| > 0 && (a[0] < b[0] || (a[0] == b[0] && StrLe(a[1..], b[1..]))))
  }

  lemma {:induction false} StrLeTotal(a: string, b: string)
    ensures StrLe(a, b) || StrLe(b, a)
    decreases |a|
  {
    if |a| > 0 && |b| > 0 { StrLeTotal(a[1..], b[1..]); }
  }

  lemma {:induction false} StrLeAntisymmetric(a: string, b: string)
    requires StrLe(a, b) && StrLe(b, a)
    ensures a == b
    decreases |a|
  {
    if |a| > 0 {
      StrLeAntisymmetric(a[1..], b[1..]);
      assert a == [a[0]] + a[1..] && b == [b[0]] + b[1..];
    }
  }

  lemma {:induction false} StrLeTransitive(a: string, b: string, c: string)
    requires StrLe(a, b) && StrLe(b, c)
    ensures StrLe(a, c)
    decreases |a|
  {
    if |a| > 0 && a[0] == b[0] && b[0] == c[0] { StrLeTransitive(a[1..], b[1..], c[1..]); }
  }

  /** `a` comes first at the first character that differs, or ends before any does. */
  lemma {:induction false} StrLeIsLexicographic(a: string, b: string)
    ensures StrLe(a, b) <==>
              exists k :: 0 <= k <= |a| && k <= |b| && a[..k] == b[..k] && (k == |a| || (k < |b| && a[k] < b[k]))
    decreases |a|
  {
    if |a| == 0 {
      assert a[..0] == b[..0];
    } else if |b| > 0 && a[0] == b[0] {
      StrLeIsLexicographic(a[1..], b[1..]);
      if StrLe(a, b) {
        var k :| 0 <= k <= |a[1..]| && k <= |b[1..]| && a[1..][..k] == b[1..][..k]
                 && (k == |a[1..]| || (k < |b[1..]| && a[1..][k] < b[1..][k]));
        assert a[..k + 1] == [a[0]] + a[1..][..k] && b[..k + 1] == [b[0]] + b[1..][..k];
        assert k + 1 < |a| ==> a[k + 1] == a[1..][k];
        assert k + 1 < |b| ==> b[k + 1] == b[1..][k];
      }
      forall k | 0 < k <= |a| && k <= |b| && a[..k] == b[..k] && (k == |a| || (k < |b| && a[k] < b[k]))
        ensures StrLe(a[1..], b[1..])
      {
        assert a[1..][..k - 1] == a[..k][1..] && b[1..][..k - 1] == b[..k][1..];
      }
    } else if |b| > 0 {
      assert a[..0] == b[..0];
      forall k | 0 < k <= |a| && k <= |b| ensures a[..k] != b[..k] { assert a[..k][0] != b[..k][0]; }
    }
  }

  /** The key order of a `(last_seq, key)` index row. */
  predicate RowLe(a: (nat, string), b: (nat, string)) {
    a.0 < b.0 || (a.0 == b.0 && StrLe(a.1, b.1))
  }

  /** The preload order: newest first, ties by ascending key. */
  predicate RecentLe(a: (nat, string), b: (nat, string)) {
    a.0 > b.0 || (a.0 == b.0 && StrLe(a.1, b.1))
  }

  ghost predicate TotalOrder<T(!new)>(le: (T, T) -> bool) {
    && (forall a, b :: le(a, b) || le(b, a))
    && (forall a, b :: le(a, b) && le(b, a) ==> a == b)
    && (forall a, b, c :: le(a, b) && le(b, c) ==> le(a, c))
  }

  lemma RowLeIsTotal()
    ensures TotalOrder(RowLe)
  {
    forall a: (nat, string), b: (nat, string) ensures RowLe(a, b) || RowLe(b, a) { StrLeTotal(a.1, b.1); }
    forall a: (nat, string), b: (nat, string) | RowLe(a, b) && RowLe(b, a) ensures a == b { StrLeAntisymmetric(a.1, b.1); }
    forall a: (nat, string), b: (nat, string), c: (nat, string) | RowLe(a, b) && RowLe(b, c) ensures RowLe(a, c) {
      if a.0 == b.0 == c.0 { StrLeTransitive(a.1, b.1, c.1); }
    }
  }

  lemma RecentLeIsTotal()
    ensures TotalOrder(RecentLe)
  {
    forall a: (nat, string), b: (nat, string) ensures RecentLe(a, b) || RecentLe(b, a) { StrLeTotal(a.1, b.1); }
    forall a: (nat, string), b: (nat, string) | RecentLe(a, b) && RecentLe(b, a) ensures a == b { StrLeAntisymmetric(a.1, b.1); }
    forall a: (nat, string), b: (nat, string), c: (nat, string) | RecentLe(a, b) && RecentLe(b, c) ensures RecentLe(a, c) {
      if a.0 == b.0 == c.0 { StrLeTransitive(a.1, b.1, c.1); }
    }
  }

  ghost predicate SortedBy<T>(le: (T, T) -> bool, xs: seq<T>) {
    forall i, j :: 0 <= i < j < |xs| ==> le(xs[i], xs[j])
  }

  function Insert<T>(le: (T, T) -> bool, x: T, xs: seq<T>): (r: seq<T>)
    ensures multiset(r) == multiset([x]) + multiset(xs)
  {
    if xs == [] then [x]
    else if le(x, xs[0]) then assert [x] + xs == [x] + xs; [x] + xs
    else assert xs == [xs[0]] + xs[1..]; [xs[0]] + Insert(le, x, xs[1..])
  }

  function Sort<T>(le: (T, T) -> bool, xs: seq<T>): (r: seq<T>)
    ensures multiset(r) == multiset(xs)
  {
    if xs == [] then [] else assert xs == [xs[0]] + xs[1..]; Insert(le, xs[0], Sort(le, xs[1..]))
  }

  lemma SameMultisetSameMembers<T>(xs: seq<T>, ys: seq<T>)
    requires multiset(xs) == multiset(ys)
    ensures |xs| == |ys|
    ensures forall x :: x in xs <==> x in ys
  {
    assert |multiset(xs)| == |xs| && |multiset(ys)| == |ys|;
    forall x ensures x in xs <==> x in ys {
      assert x in xs <==> x in multiset(xs);
      assert x in ys <==> x in multiset(ys);
    }
  }

  lemma {:induction false} InsertSorted<T(!new)>(le: (T, T) -> bool, x: T, xs: seq<T>)
    requires TotalOrder(le) && SortedBy(le, xs)
    ensures SortedBy(le, Insert(le, x, xs))
  {
    if xs != [] && !le(x, xs[0]) {
      var rest := Insert(le, x, xs[1..]);
      InsertSorted(le, x, xs[1..]);
      SameMultisetSameMembers(rest, [x] + xs[1..]);
      forall y | y in rest ensures le(xs[0], y) { assert y in [x] + xs[1..]; }
    }
  }

  /** Sorting under a total order yields a sorted rearrangement. */
  lemma {:induction false} SortIsSorted<T(!new)>(le: (T, T) -> bool, xs: seq<T>)
    requires TotalOrder(le)
    ensures SortedBy(le, Sort(le, xs))
    ensures multiset(Sort(le, xs)) == multiset(xs)
  {
    if xs != [] {
      SortIsSorted(le, xs[1..]);
      InsertSorted(le, xs[0], Sort(le, xs[1..]));
    }
  }

  /** Where an insertion lands. */
  lemma {:induction false} InsertLands<T>(le: (T, T) -> bool, x: T, xs: seq<T>) returns (k: nat)
    ensures k <= |xs| && Insert(le, x, xs) == xs[..k] + [x] + xs[k..]
  {
    if xs == [] || le(x, xs[0]) {
      k := 0;
    } else {
      k := InsertLands(le, x, xs[1..]);
      assert xs == [xs[0]] + xs[1..];
      k := k + 1;
    }
  }

  /** Every place moves up by one, and place 0 goes in at `k`. */
  function Shifted(rest: seq<nat>, k: nat): (at: seq<nat>)
    requires k <= |rest|
    ensures |at| == |rest| + 1
  {
    seq(|rest| + 1, a requires 0 <= a < |rest| + 1 => if a < k then rest[a] + 1 else if a == k then 0 else rest[a - 1] + 1)
  }

  /** `at` lists the places 0, 1, ... |at| - 1, each once. */
  ghost predicate Permutes(at: seq<nat>) {
    && (forall a :: 0 <= a < |at| ==> at[a] < |at|)
    && (forall a, b :: 0 <= a < b < |at| ==> at[a] != at[b])
    && (forall i :: 0 <= i < |at| ==> i in at)
  }

  lemma ShiftedPermutes(rest: seq<nat>, k: nat)
    requires k <= |rest| && Permutes(rest)
    ensures Permutes(Shifted(rest, k))
  {
    var at := Shifted(rest, k);
    forall i | 0 <= i < |at| ensures i in at {
      if i == 0 {
        assert at[k] == 0;
      } else {
        assert i - 1 in rest;
        var a :| 0 <= a < |rest| && rest[a] == i - 1;
        assert at[if a < k then a else a + 1] == i;
      }
    }
  }

  lemma NoPlaces()
    ensures Permutes([])
  {
  }

  lemma ShiftedFinds<T>(xs: seq<T>, sorted: seq<T>, rest: seq<nat>, k: nat)
    requires xs != [] && k <= |sorted| == |rest| == |xs| - 1
    requires forall b :: 0 <= b < |rest| ==> rest[b] < |rest| && sorted[b] == xs[1..][rest[b]]
    ensures var at := Shifted(rest, k);
            forall a :: 0 <= a < |at| ==> at[a] < |xs| && (sorted[..k] + [xs[0]] + sorted[k..])[a] == xs[at[a]]
  {
  }

  /** Each element of the sorted sequence has its own place in the given one, and none is left over. */
  lemma {:induction false} SortPositions<T>(le: (T, T) -> bool, xs: seq<T>) returns (at: seq<nat>)
    ensures Permutes(at) && |at| == |xs| == |Sort(le, xs)|
    ensures forall a :: 0 <= a < |at| ==> at[a] < |xs| && Sort(le, xs)[a] == xs[at[a]]
  {
    hide Shifted, Permutes;
    if xs == [] {
      at := [];
      NoPlaces();
    } else {
      var rest := SortPositions(le, xs[1..]);
      var sorted := Sort(le, xs[1..]);
      var k := InsertLands(le, xs[0], sorted);
      assert Sort(le, xs) == sorted[..k] + [xs[0]] + sorted[k..];
      at := Shifted(rest, k);
      ShiftedPermutes(rest, k);
      ShiftedFinds(xs, sorted, rest, k);
    }
  }

  lemma FirstIsLeast<T(!new)>(le: (T, T) -> bool, xs: seq<T>, x: T)
    requires TotalOrder(le) && SortedBy(le, xs) && x in xs
    ensures le(xs[0], x)
  {
  }

  lemma TailMultiset<T>(xs: seq<T>)
    requires xs != []
    ensures multiset(xs[1..]) == multiset(xs) - multiset([xs[0]])
    ensures xs == [xs[0]] + xs[1..]
  {
    assert xs == [xs[0]] + xs[1..];
  }

  /** A sorted sequence is determined by its elements. */
  lemma {:induction false} SortedIsUnique<T(!new)>(le: (T, T) -> bool, xs: seq<T>, ys: seq<T>)
    requires TotalOrder(le) && SortedBy(le, xs) && SortedBy(le, ys)
    requires multiset(xs) == multiset(ys)
    ensures xs == ys
  {
    SameMultisetSameMembers(xs, ys);
    if xs != [] {
      FirstIsLeast(le, xs, ys[0]);
      FirstIsLeast(le, ys, xs[0]);
      TailMultiset(xs);
      TailMultiset(ys);
      SortedIsUnique(le, xs[1..], ys[1..]);
    }
  }

  /** Drops each element equal to the one before it, as `Vec::dedup` does. */
  function Dedup<T(==,!new)>(xs: seq<T>): (r: seq<T>)
    ensures forall x :: x in r <==> x in xs
    ensures xs != [] ==> r != [] && r[0] == xs[0]
  {
    if |xs| < 2 then xs
    else if xs[0] == xs[1] then assert xs == [xs[0]] + xs[1..]; Dedup(xs[1..])
    else assert xs == [xs[0]] + xs[1..]; [xs[0]] + Dedup(xs[1..])
  }

  ghost predicate StrictlyAscending<T>(le: (T, T) -> bool, xs: seq<T>) {
    forall i, j :: 0 <= i < j < |xs| ==> le(xs[i], xs[j]) && xs[i] != xs[j]
  }

  lemma {:induction false} DedupIsStrict<T(!new)>(le: (T, T) -> bool, xs: seq<T>)
    requires TotalOrder(le) && SortedBy(le, xs)
    ensures StrictlyAscending(le, Dedup(xs))
  {
    if |xs| >= 2 {
      var rest := Dedup(xs[1..]);
      DedupIsStrict(le, xs[1..]);
      if xs[0] != xs[1] {
        forall y | y in rest ensures le(xs[0], y) && y != xs[0] {
          assert y in xs[1..];
          assert le(xs[1], y);
        }
      }
    }
  }

  lemma TailMembers<T(!new)>(le: (T, T) -> bool, xs: seq<T>)
    requires xs != [] && StrictlyAscending(le, xs)
    ensures forall x :: x in xs[1..] <==> x in xs && x != xs[0]
  {
    assert xs == [xs[0]] + xs[1..];
  }

  /** A strictly ascending sequence is determined by its members. */
  lemma {:induction false} StrictIsUnique<T(!new)>(le: (T, T) -> bool, xs: seq<T>, ys: seq<T>)
    requires TotalOrder(le) && StrictlyAscending(le, xs) && StrictlyAscending(le, ys)
    requires forall x :: x in xs <==> x in ys
    ensures xs == ys
  {
    assert ys != [] ==> ys[0] in xs;
    assert xs != [] ==> xs[0] in ys;
    if xs != [] {
      assert xs[0] == ys[0];
      assert xs == [xs[0]] + xs[1..] && ys == [ys[0]] + ys[1..];
      TailMembers(le, xs);
      TailMembers(le, ys);
      StrictIsUnique(le, xs[1..], ys[1..]);
    }
  }
}
