/** The bounded miss drain: workers share one cursor over the items and push results as they finish.
    Models daemon/src/engine/scheduling.rs; the scheduler picks any worker that can move, so every
    interleaving is a run of the loop. */
module Drain {
  import opened Common
  import opened Orders
  import opened Sums

  const MISS_DRAIN_WORKERS: nat := 4

  datatype Worker = Claiming | Running(index: nat) | Stopped

  function Holds(i: nat): Worker -> nat {
    (w: Worker) => if w == Running(i) then 1 else 0
  }

  function ToGo(w: Worker): nat {
    match w
    case Claiming => 1
    case Running(_) => 2
    case Stopped => 0
  }

  predicate Within(order: seq<nat>, n: nat) {
    forall i :: i in order ==> i < n
  }

  /** What running the listed items yields, in that order. */
  function Results<T, R>(items: seq<T>, run: (nat, T) -> R, order: seq<nat>): seq<R>
    requires Within(order, |items|)
  {
    seq(|order|, k requires 0 <= k < |order| => assert order[k] in order; run(order[k], items[order[k]]))
  }

  /** Each index lies with one finished result, one worker, or beyond the cursor. */
  ghost predicate Claimed(n: nat, cursor: nat, workers: seq<Worker>, order: seq<nat>, i: nat) {
    multiset(order)[i] + SeqSum(workers, Holds(i)) == if i < Min(cursor, n) then 1 else 0
  }

  /** The finished items are exactly the emptied slots. */
  ghost predicate SlotsOk<T>(items: seq<T>, slots: seq<Option<T>>, order: seq<nat>) {
    && |slots| == |items|
    && Within(order, |items|)
    && (forall i :: 0 <= i < |items| ==> slots[i] == if i in order then None else Some(items[i]))
  }

  ghost predicate DrainOk<T>(items: seq<T>, slots: seq<Option<T>>, cursor: nat, workers: seq<Worker>, order: seq<nat>) {
    && SlotsOk(items, slots, order)
    && (forall i: nat :: Claimed(|items|, cursor, workers, order, i))
    && (forall w :: 0 <= w < |workers| && workers[w].Stopped? ==> cursor >= |items|)
    && (workers == [] ==> items == [])
  }

  function Remaining(n: nat, cursor: nat): nat { if cursor < n then n - cursor else 0 }

  lemma ClaimStep<T>(items: seq<T>, slots: seq<Option<T>>, cursor: nat, workers: seq<Worker>, order: seq<nat>, w: nat)
    requires DrainOk(items, slots, cursor, workers, order) && w < |workers| && workers[w].Claiming?
    ensures var next := if cursor < |items| then Running(cursor) else Stopped;
            && DrainOk(items, slots, cursor + 1, workers[w := next], order)
            && 2 * Remaining(|items|, cursor + 1) + SeqSum(workers[w := next], ToGo)
               < 2 * Remaining(|items|, cursor) + SeqSum(workers, ToGo)
  {
    var next := if cursor < |items| then Running(cursor) else Stopped;
    var cursor', workers' := cursor + 1, workers[w := next];
    SeqSumUpdate(workers, ToGo, w, next);
    forall i: nat ensures Claimed(|items|, cursor', workers', order, i) {
      assert Claimed(|items|, cursor, workers, order, i);
      SeqSumUpdate(workers, Holds(i), w, next);
    }
  }

  lemma FinishStep<T>(items: seq<T>, slots: seq<Option<T>>, cursor: nat, workers: seq<Worker>, order: seq<nat>, w: nat)
    requires DrainOk(items, slots, cursor, workers, order) && w < |workers| && workers[w].Running?
    ensures var i := workers[w].index;
            && i < |items| && slots[i] == Some(items[i])
            && DrainOk(items, slots[i := None], cursor, workers[w := Claiming], order + [i])
            && SeqSum(workers[w := Claiming], ToGo) < SeqSum(workers, ToGo)
  {
    var i := workers[w].index;
    SeqSumUpdate(workers, ToGo, w, Claiming);
    SeqSumAtLeast(workers, Holds(i), w);
    assert Claimed(|items|, cursor, workers, order, i);
    assert i !in multiset(order) && i !in order;
    var workers', order' := workers[w := Claiming], order + [i];
    forall j: nat ensures Claimed(|items|, cursor, workers', order', j) {
      assert Claimed(|items|, cursor, workers, order, j);
      SeqSumUpdate(workers, Holds(j), w, Claiming);
    }
  }

  lemma {:induction false} NobodyHolds(workers: seq<Worker>, i: nat)
    requires forall w :: 0 <= w < |workers| ==> !workers[w].Running?
    ensures SeqSum(workers, Holds(i)) == 0
  {
    if workers != [] { NobodyHolds(workers[1..], i); }
  }

  /** `order` lists each of the first `n` indices once. */
  ghost predicate IsOrder(order: seq<nat>, n: nat) {
    multiset(order) == multiset(UpTo(n)) && Within(order, n)
  }

  lemma {:induction false} CountUpTo(n: nat, i: nat)
    ensures multiset(UpTo(n))[i] == if i < n then 1 else 0
  {
    if n > 0 {
      CountUpTo(n - 1, i);
      assert UpTo(n) == UpTo(n - 1) + [n - 1];
    } else {
      assert UpTo(0) == [];
    }
  }

  /** Every worker stopped, at least one of them because the cursor had passed the end. */
  lemma AllDrained<T>(items: seq<T>, slots: seq<Option<T>>, cursor: nat, workers: seq<Worker>, order: seq<nat>)
    requires DrainOk(items, slots, cursor, workers, order)
    requires forall w :: 0 <= w < |workers| ==> workers[w].Stopped?
    ensures IsOrder(order, |items|)
    ensures forall i :: 0 <= i < |slots| ==> slots[i].None?
  {
    forall i: nat ensures multiset(order)[i] == multiset(UpTo(|items|))[i] {
      assert Claimed(|items|, cursor, workers, order, i);
      NobodyHolds(workers, i);
      CountUpTo(|items|, i);
    }
    forall i | 0 <= i < |slots| ensures slots[i].None? {
      CountUpTo(|items|, i);
      assert i in multiset(order);
    }
  }

  lemma NothingDrained<T>(items: seq<T>, n: nat)
    requires n == 0 ==> items == []
    ensures DrainOk(items, seq(|items|, i requires 0 <= i < |items| => Some(items[i])), 0, seq(n, _ => Claiming), [])
  {
    var workers := seq(n, _ => Claiming);
    forall i: nat ensures Claimed(|items|, 0, workers, [], i) { NobodyHolds(workers, i); }
  }

  /** Runs every item once, whatever the schedule; `order` is the order in which they finished. Each
      slot is found full exactly once. `crew` is how many workers it started: as many as there are items, up to the limit,
      and none for a lone item off the pool, which runs where it is. */
  method DrainBounded<T, R>(items: seq<T>, limit: nat, onPool: bool, run: (nat, T) -> R)
    returns (completed: seq<R>, ghost order: seq<nat>, ghost crew: nat)
    requires limit > 0
    ensures crew == if |items| <= 1 && !onPool then 0 else Min(limit, |items|)
    ensures IsOrder(order, |items|) && completed == Results(items, run, order)
    ensures exists o :: IsOrder(o, |items|) && completed == Results(items, run, o)
  {
    hide Claimed;
    completed, order, crew := [], [], 0;
    if |items| <= 1 && !onPool {
      for i := 0 to |items|
        invariant order == UpTo(i) && completed == Results(items, run, order)
      {
        completed := completed + [run(i, items[i])];
        order := order + [i];
      }
      return;
    }
    var workers := seq(Min(limit, |items|), _ => Claiming);
    crew := |workers|;
    var slots: seq<Option<T>> := seq(|items|, i requires 0 <= i < |items| => Some(items[i]));
    var cursor := 0;
    NothingDrained(items, |workers|);
    while exists w :: 0 <= w < |workers| && !workers[w].Stopped?
      invariant DrainOk(items, slots, cursor, workers, order) && |workers| == crew
      invariant completed == Results(items, run, order)
      decreases 2 * Remaining(|items|, cursor) + SeqSum(workers, ToGo)
    {
      var w :| 0 <= w < |workers| && !workers[w].Stopped?;
      if workers[w].Claiming? {
        ClaimStep(items, slots, cursor, workers, order, w);
        workers := workers[w := if cursor < |items| then Running(cursor) else Stopped];
        cursor := cursor + 1;
      } else {
        var index := workers[w].index;
        FinishStep(items, slots, cursor, workers, order, w);
        var item := slots[index].value;
        slots := slots[index := None];
        completed := completed + [run(index, item)];
        order := order + [index];
        workers := workers[w := Claiming];
      }
    }
    AllDrained(items, slots, cursor, workers, order);
  }

  // ---- Reassembly ----

  /** The plain map: every item's result at its own index. */
  function InOrder<T, R>(items: seq<T>, run: (nat, T) -> R): (r: seq<R>)
    ensures |r| == |items| && forall i :: 0 <= i < |items| ==> r[i] == run(i, items[i])
  {
    seq(|items|, i requires 0 <= i < |items| => run(i, items[i]))
  }

  predicate KeyLe<R>(a: (nat, R), b: (nat, R)) { a.0 <= b.0 }

  predicate NatLe(a: nat, b: nat) { a <= b }

  function Tagged<T, R>(run: (nat, T) -> R): (nat, T) -> (nat, R) {
    (i, item) => (i, run(i, item))
  }

  lemma ResultsSplit<T, R>(items: seq<T>, run: (nat, T) -> R, order: seq<nat>)
    requires order != [] && Within(order, |items|)
    ensures order[0] < |items| && Within(order[1..], |items|)
    ensures Results(items, run, order) == [run(order[0], items[order[0]])] + Results(items, run, order[1..])
  {
    assert order[0] in order;
    assert forall i | i in order[1..] :: i in order;
  }

  /** Sorting results by index is listing them in the sorted order of the indices. */
  lemma {:induction false} InsertCommutes<T, R>(items: seq<T>, run: (nat, T) -> R, i: nat, order: seq<nat>)
    requires i < |items| && Within(order, |items|)
    ensures Within(Insert<nat>(NatLe, i, order), |items|)
    ensures Insert(KeyLe, (i, run(i, items[i])), Results(items, Tagged(run), order))
         == Results(items, Tagged(run), Insert<nat>(NatLe, i, order))
  {
    SameMultisetSameMembers(Insert<nat>(NatLe, i, order), [i] + order);
    if order != [] {
      ResultsSplit(items, Tagged(run), order);
      var rest := Results(items, Tagged(run), order[1..]);
      assert Results(items, Tagged(run), order)[1..] == rest;
      if i <= order[0] {
        assert Results(items, Tagged(run), [i] + order) == [(i, run(i, items[i]))] + Results(items, Tagged(run), order);
      } else {
        InsertCommutes(items, run, i, order[1..]);
        var tail := Insert<nat>(NatLe, i, order[1..]);
        assert Insert<nat>(NatLe, i, order) == [order[0]] + tail;
        assert ([order[0]] + tail)[1..] == tail;
        ResultsSplit(items, Tagged(run), [order[0]] + tail);
      }
    }
  }

  lemma {:induction false} SortCommutes<T, R>(items: seq<T>, run: (nat, T) -> R, order: seq<nat>)
    requires Within(order, |items|)
    ensures Within(Sort<nat>(NatLe, order), |items|)
    ensures Sort(KeyLe, Results(items, Tagged(run), order)) == Results(items, Tagged(run), Sort<nat>(NatLe, order))
  {
    SortWithin(order, |items|);
    if order != [] {
      ResultsSplit(items, Tagged(run), order);
      var rest := order[1..];
      SortWithin(rest, |items|);
      SortCommutes(items, run, rest);
      InsertCommutes(items, run, order[0], Sort<nat>(NatLe, rest));
      SortCons(KeyLe, Tagged(run)(order[0], items[order[0]]), Results(items, Tagged(run), rest));
      hide Results, Insert, Within;
    }
  }

  lemma SortCons<T>(le: (T, T) -> bool, x: T, xs: seq<T>)
    ensures Sort(le, [x] + xs) == Insert(le, x, Sort(le, xs))
  {
    assert ([x] + xs)[1..] == xs;
  }

  lemma SortWithin(order: seq<nat>, n: nat)
    requires Within(order, n)
    ensures Within(Sort<nat>(NatLe, order), n)
  {
    SameMultisetSameMembers(Sort<nat>(NatLe, order), order);
  }

  lemma SortedOrder(order: seq<nat>, n: nat)
    requires IsOrder(order, n)
    ensures Sort<nat>(NatLe, order) == UpTo(n)
  {
    SortIsSorted<nat>(NatLe, order);
    SortedIsUnique<nat>(NatLe, Sort<nat>(NatLe, order), UpTo(n));
  }

  lemma SortedResults<T, R>(items: seq<T>, run: (nat, T) -> R, order: seq<nat>)
    requires IsOrder(order, |items|)
    ensures var sorted := Sort(KeyLe, Results(items, Tagged(run), order));
            |sorted| == |items| && forall i :: 0 <= i < |items| ==> sorted[i] == (i, run(i, items[i]))
  {
    SortCommutes(items, run, order);
    SortedOrder(order, |items|);
    hide IsOrder, Sort;
  }

  /** The drain re-sorted by index is the plain map, for any schedule. */
  method DrainOrdered<T, R>(items: seq<T>, onPool: bool, run: (nat, T) -> R) returns (results: seq<R>)
    ensures results == InOrder(items, run)
  {
    var pairs, order, _ := DrainBounded(items, MISS_DRAIN_WORKERS, onPool, Tagged(run));
    hide IsOrder, Sort, Results;
    SortedResults(items, run, order);
    var sorted := Sort(KeyLe, pairs);
    results := seq(|sorted|, i requires 0 <= i < |sorted| => sorted[i].1);
  }

  // ---- Classify, then drain the rest ----

  datatype Outcome<R, P> = Answered(result: R) | Pending(work: P)

  /** What each index must end with: the classifier's answer, or the drained one for its pending work. */
  function Settle<T, R, P>(items: seq<T>, classify: (nat, T) -> Outcome<R, P>, run: (nat, T, P) -> R, i: nat): R
    requires i < |items|
  {
    match classify(i, items[i])
    case Answered(result) => result
    case Pending(work) => run(i, items[i], work)
  }

  /** The work list names each pending index once, with its own work. */
  ghost predicate PendingOk<T, R, P>(items: seq<T>, classify: (nat, T) -> Outcome<R, P>, n: nat, pending: seq<(nat, P)>)
  {
    && n <= |items|
    && (forall k :: 0 <= k < |pending| ==> pending[k].0 < n && classify(pending[k].0, items[pending[k].0]) == Pending(pending[k].1))
    && (forall j, k :: 0 <= j < k < |pending| ==> pending[j].0 < pending[k].0)
    && (forall i :: 0 <= i < n && classify(i, items[i]).Pending? ==> exists k :: 0 <= k < |pending| && pending[k].0 == i)
  }

  /** Which indices are settled after the drained results `order[..m]` are in. */
  ghost predicate SettledOk<T, R, P>(items: seq<T>, classify: (nat, T) -> Outcome<R, P>, run: (nat, T, P) -> R,
                                     pending: seq<(nat, P)>, order: seq<nat>, m: nat, settled: seq<Option<R>>)
    requires m <= |order|
  {
    && |settled| == |items|
    && (forall i :: 0 <= i < |items| && settled[i].Some? ==> settled[i].value == Settle(items, classify, run, i))
    && (forall i :: 0 <= i < |items| && classify(i, items[i]).Answered? ==> settled[i].Some?)
    && (forall j :: 0 <= j < m ==>
          order[j] < |pending| && pending[order[j]].0 < |items| && settled[pending[order[j]].0].Some?)
  }

  function RunSlot<T, R, P>(items: seq<T>, run: (nat, T, P) -> R): (nat, (nat, P)) -> (nat, Option<R>) {
    (_: nat, slot: (nat, P)) => (slot.0, if slot.0 < |items| then Some(run(slot.0, items[slot.0], slot.1)) else None)
  }

  /** Classifies every item and drains only the pending ones: each index gets exactly its own answer,
      classified or drained, whatever the schedule. */
  method DrainClassified<T, R, P>(items: seq<T>, classify: (nat, T) -> Outcome<R, P>, onPool: bool, run: (nat, T, P) -> R)
    returns (results: seq<R>)
    ensures |results| == |items|
    ensures forall i :: 0 <= i < |items| ==>
              results[i] == match classify(i, items[i]) case Answered(result) => result case Pending(work) => run(i, items[i], work)
  {
    var settled, pending := Classify(items, classify);
    ghost var order: seq<nat> := [];
    if pending != [] {
      hide PendingOk;
      var completed;
      ghost var crew;
      completed, order, crew := DrainBounded(pending, MISS_DRAIN_WORKERS, onPool, RunSlot(items, run));
      settled := FillIn(items, classify, run, pending, settled, completed, order);
    }
    AllSettled(items, classify, run, pending, order, settled);
    results := seq(|settled|, i requires 0 <= i < |settled| => settled[i].value);
  }

  /** The classifier's answers in place, and the work list of the rest. */
  method Classify<T, R, P>(items: seq<T>, classify: (nat, T) -> Outcome<R, P>)
    returns (settled: seq<Option<R>>, pending: seq<(nat, P)>)
    ensures |settled| == |items| && PendingOk(items, classify, |items|, pending)
    ensures forall i :: 0 <= i < |items| ==>
              settled[i] == match classify(i, items[i]) case Answered(result) => Some(result) case Pending(_) => None
  {
    settled, pending := [], [];
    for n := 0 to |items|
      invariant |settled| == n && PendingOk(items, classify, n, pending)
      invariant forall i :: 0 <= i < n ==>
                  settled[i] == match classify(i, items[i]) case Answered(result) => Some(result) case Pending(_) => None
    {
      ghost var pending0 := pending;
      match classify(n, items[n]) {
        case Answered(result) => settled := settled + [Some(result)];
        case Pending(work) =>
          settled := settled + [None];
          pending := pending + [(n, work)];
      }
      PendingStep(items, classify, n, pending0, pending);
    }
  }

  /** Puts each drained result at its own index. */
  method FillIn<T, R, P>(items: seq<T>, ghost classify: (nat, T) -> Outcome<R, P>, ghost run: (nat, T, P) -> R,
                         ghost pending: seq<(nat, P)>, classified: seq<Option<R>>, completed: seq<(nat, Option<R>)>,
                         ghost order: seq<nat>)
    returns (settled: seq<Option<R>>)
    requires PendingOk(items, classify, |items|, pending) && Within(order, |pending|)
    requires completed == Results(pending, RunSlot(items, run), order)
    requires SettledOk(items, classify, run, pending, order, 0, classified)
    ensures SettledOk(items, classify, run, pending, order, |order|, settled)
  {
    settled := classified;
    for m := 0 to |completed|
      invariant SettledOk(items, classify, run, pending, order, m, settled)
    {
      assert order[m] in order;
      settled := settled[completed[m].0 := completed[m].1];
    }
  }

  lemma PendingStep<T, R, P>(items: seq<T>, classify: (nat, T) -> Outcome<R, P>, n: nat, pending: seq<(nat, P)>, next: seq<(nat, P)>)
    requires n < |items| && PendingOk(items, classify, n, pending)
    requires next == match classify(n, items[n]) case Answered(_) => pending case Pending(work) => pending + [(n, work)]
    ensures PendingOk(items, classify, n + 1, next)
  {
    forall i | 0 <= i < n + 1 && classify(i, items[i]).Pending? ensures exists k :: 0 <= k < |next| && next[k].0 == i {
      if i < n {
        var k :| 0 <= k < |pending| && pending[k].0 == i;
        assert next[k].0 == i;
      } else {
        assert next[|pending|].0 == i;
      }
    }
  }

  lemma AllSettled<T, R, P>(items: seq<T>, classify: (nat, T) -> Outcome<R, P>, run: (nat, T, P) -> R,
                            pending: seq<(nat, P)>, order: seq<nat>, settled: seq<Option<R>>)
    requires PendingOk(items, classify, |items|, pending) && IsOrder(order, |pending|)
    requires SettledOk(items, classify, run, pending, order, |order|, settled)
    ensures forall i :: 0 <= i < |items| ==> settled[i] == Some(Settle(items, classify, run, i))
  {
    forall i | 0 <= i < |items| ensures settled[i].Some? {
      if classify(i, items[i]).Pending? {
        var k :| 0 <= k < |pending| && pending[k].0 == i;
        CountUpTo(|pending|, k);
        assert k in multiset(order);
        var j :| 0 <= j < |order| && order[j] == k;
      }
    }
  }
}
