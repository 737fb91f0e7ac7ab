/** The process-wide recency sequence. Models daemon/src/cache/recency.rs. */
module Recency {
  import opened Common

  /** The counter after one draw: it wraps past its top. */
  function AfterDraw(next: nat): nat { if next >= U64_MAX then 0 else next + 1 }

  /** The counter once it has seen a stored sequence. */
  function AfterObserve(next: nat, seqNo: nat): nat {
    var above := Min(seqNo + 1, U64_MAX);
    if above > next then above else next
  }

  class RecencyClock {
    /** The next value handed out; it starts at 1 so that 0 means "never promoted". */
    var next: nat

    ghost predicate Valid() reads this { next <= U64_MAX }

    constructor ()
      ensures Valid() && next == 1
    {
      next := 1;
    }

    /** Atomic `fetch_add`. */
    method NextSeq() returns (drawn: nat)
      requires Valid()
      modifies this
      ensures Valid() && drawn == old(next) <= U64_MAX && next == AfterDraw(drawn)
      ensures drawn < next <==> drawn < U64_MAX
    {
      drawn := next;
      next := if next == U64_MAX then 0 else next + 1;
    }

    /** Atomic `fetch_max` of `seq + 1`, saturating: the next draw exceeds `seq` exactly when `seq` is not the top of
        the counter. */
    method Observe(seqNo: nat)
      requires Valid() && seqNo <= U64_MAX
      modifies this
      ensures Valid() && next == AfterObserve(old(next), seqNo) >= old(next)
      ensures next > seqNo <==> seqNo < U64_MAX
    {
      var above := if seqNo == U64_MAX then U64_MAX else seqNo + 1;
      if above > next { next := above; }
    }
  }

  // ---- Runs of the clock ----

  datatype ClockStep = Draw | See(seqNo: nat)

  function StepTo(next: nat, step: ClockStep): nat {
    if step.Draw? then AfterDraw(next) else AfterObserve(next, step.seqNo)
  }

  /** What the draws of a run return, in order. */
  function Drawn(next: nat, steps: seq<ClockStep>): seq<nat>
    decreases |steps|
  {
    if steps == [] then []
    else (if steps[0].Draw? then [next] else []) + Drawn(StepTo(next, steps[0]), steps[1..])
  }

  predicate Increasing(draws: seq<nat>) { forall i, j :: 0 <= i < j < |draws| ==> draws[i] < draws[j] }

  /** No draw but the last found the counter at its top. */
  predicate TopOnlyLast(draws: seq<nat>) { forall i :: 0 <= i < |draws| - 1 ==> draws[i] < U64_MAX }

  lemma TailTopOnlyLast(next: nat, steps: seq<ClockStep>)
    requires steps != [] && TopOnlyLast(Drawn(next, steps))
    ensures TopOnlyLast(Drawn(StepTo(next, steps[0]), steps[1..]))
    ensures steps[0].Draw? && Drawn(StepTo(next, steps[0]), steps[1..]) != [] ==> next < U64_MAX
  {
    var draws, rest := Drawn(next, steps), Drawn(StepTo(next, steps[0]), steps[1..]);
    var shift := if steps[0].Draw? then 1 else 0;
    assert draws == (if steps[0].Draw? then [next] else []) + rest;
    forall i | 0 <= i < |rest| - 1 ensures rest[i] < U64_MAX { assert draws[i + shift] == rest[i]; }
    if steps[0].Draw? && rest != [] { assert draws[0] == next; }
  }

  /** The draws of a run stay at or above the counter as long as none but the last finds it at its top. */
  lemma {:induction false} DrawsStartAt(next: nat, steps: seq<ClockStep>)
    requires next <= U64_MAX && TopOnlyLast(Drawn(next, steps))
    ensures forall d :: d in Drawn(next, steps) ==> next <= d
    decreases |steps|
  {
    if steps != [] {
      TailTopOnlyLast(next, steps);
      DrawsStartAt(StepTo(next, steps[0]), steps[1..]);
    }
  }

  lemma {:induction false} TopOnlyLastIncreases(next: nat, steps: seq<ClockStep>)
    requires next <= U64_MAX && TopOnlyLast(Drawn(next, steps))
    ensures Increasing(Drawn(next, steps))
    decreases |steps|
  {
    if steps != [] {
      TailTopOnlyLast(next, steps);
      DrawsStartAt(StepTo(next, steps[0]), steps[1..]);
      TopOnlyLastIncreases(StepTo(next, steps[0]), steps[1..]);
      var rest := Drawn(StepTo(next, steps[0]), steps[1..]);
      forall j | 0 <= j < |rest| && steps[0].Draw? ensures next < rest[j] { assert rest[j] in rest; }
      assert Drawn(next, steps) == (if steps[0].Draw? then [next] else []) + rest;
    }
  }

  lemma {:induction false} DrawsAreBounded(next: nat, steps: seq<ClockStep>)
    requires next <= U64_MAX
    ensures forall d :: d in Drawn(next, steps) ==> d <= U64_MAX
    decreases |steps|
  {
    if steps != [] { DrawsAreBounded(StepTo(next, steps[0]), steps[1..]); }
  }

  /** Draws strictly increase over a run, whatever is observed in between, exactly when none but the last finds the
      counter at its top. */
  lemma DrawsIncreaseExactly(next: nat, steps: seq<ClockStep>)
    requires next <= U64_MAX
    ensures Increasing(Drawn(next, steps)) <==> TopOnlyLast(Drawn(next, steps))
  {
    var draws := Drawn(next, steps);
    if Increasing(draws) {
      DrawsAreBounded(next, steps);
      forall i | 0 <= i < |draws| - 1 ensures draws[i] < U64_MAX {
        assert draws[i + 1] in draws && draws[i] < draws[i + 1];
      }
    }
    if TopOnlyLast(draws) { TopOnlyLastIncreases(next, steps); }
  }

  function Draws(steps: seq<ClockStep>): nat {
    if steps == [] then 0 else (if steps[0].Draw? then 1 else 0) + Draws(steps[1..])
  }

  /** What a caller can check beforehand: from a counter at most `bound`, observing only sequences below `bound`, draws
      strictly increase as long as `bound` and their number leave the counter room. */
  lemma RoomyDrawsIncrease(next: nat, steps: seq<ClockStep>, bound: nat)
    requires next <= bound && bound + Draws(steps) <= U64_MAX + 1
    requires forall step :: step in steps && step.See? ==> step.seqNo < bound
    ensures Increasing(Drawn(next, steps))
    ensures forall d :: d in Drawn(next, steps) ==> d < bound + Draws(steps)
  {
    if next <= U64_MAX {
      RoomyDraws(next, steps, bound);
      DrawsIncreaseExactly(next, steps);
    } else {
      NoDraws(next, steps);
    }
  }

  lemma {:induction false} RoomyDraws(next: nat, steps: seq<ClockStep>, bound: nat)
    requires next <= bound && next <= U64_MAX && bound + Draws(steps) <= U64_MAX + 1
    requires forall step :: step in steps && step.See? ==> step.seqNo < bound
    ensures forall d :: d in Drawn(next, steps) ==> d < bound + Draws(steps)
    ensures TopOnlyLast(Drawn(next, steps))
    decreases |steps|
  {
    if steps != [] {
      assert steps[0] in steps && forall step :: step in steps[1..] ==> step in steps;
      if next == U64_MAX && steps[0].Draw? {
        NoDraws(0, steps[1..]);
      } else {
        RoomyDraws(StepTo(next, steps[0]), steps[1..], if steps[0].Draw? then bound + 1 else bound);
      }
    }
  }

  lemma {:induction false} NoDraws(next: nat, steps: seq<ClockStep>)
    requires Draws(steps) == 0
    ensures Drawn(next, steps) == []
    decreases |steps|
  {
    if steps != [] { NoDraws(StepTo(next, steps[0]), steps[1..]); }
  }

  /** Observing the top of the counter once makes the draw after next start over. */
  method WrapAround(clock: RecencyClock) returns (first: nat, second: nat)
    requires clock.Valid()
    modifies clock
    ensures first == U64_MAX && second == 0
  {
    clock.Observe(U64_MAX);
    first := clock.NextSeq();
    second := clock.NextSeq();
  }
}
