/** Single-flight analysis: callers of one key and generation share one compute, and a leader that
    dies hands over. Models daemon/src/analysis_flight.rs as interleaved steps of any number of
    callers; each lock-protected section is one step. */
module Flights {
  import opened Common
  import opened Sums

  /** A cache key and the generation captured with it. */
  type FlightKey = (string, nat)

  /** A result, tagged with the key it was computed for and the caller that computed it. */
  datatype Value = Value(key: FlightKey, author: nat)

  datatype Pc =
    | Start
    | Leading(flight: nat)     // computing
    | Published(flight: nat)   // result out, flight still in the map
    | Panicking(flight: nat)   // unwinding, flight still in the map
    | Closing(flight: nat)     // unwinding, flight removed but still open
    | Waiting(flight: nat)
    | Returned(value: Value)
    | Panicked

  /** `computes` counts the caller's own runs of its compute. */
  datatype Caller = Caller(key: FlightKey, pc: Pc, computes: nat)

  datatype Flight = Flight(key: FlightKey, leader: nat, result: Option<Value>, closed: bool)

  /** Flights are numbered by creation; `current` is the registry's map. */
  datatype State = State(callers: seq<Caller>, flights: seq<Flight>, current: map<FlightKey, nat>)

  datatype Action = Claim(c: nat) | Publish(c: nat) | Panic(c: nat) | Remove(c: nat) | Close(c: nat) | Wake(c: nat)

  predicate Enabled(s: State, a: Action) {
    a.c < |s.callers| &&
    var pc := s.callers[a.c].pc;
    match a
    case Claim(_) => pc.Start?
    case Publish(_) => pc.Leading? && pc.flight < |s.flights|
    case Panic(_) => pc.Leading?
    case Remove(_) => (pc.Published? || pc.Panicking?) && pc.flight < |s.flights| && (pc.Published? ==> s.flights[pc.flight].result.Some?)
    case Close(_) => pc.Closing? && pc.flight < |s.flights|
    case Wake(_) => pc.Waiting? && pc.flight < |s.flights| && s.flights[pc.flight].closed
  }

  function At(s: State, c: nat, pc: Pc): State
    requires c < |s.callers|
  {
    s.(callers := s.callers[c := s.callers[c].(pc := pc)])
  }

  function Apply(s: State, a: Action): State
    requires Enabled(s, a)
  {
    var c := a.c;
    var caller := s.callers[c];
    match a
    case Claim(_) =>
      if caller.key in s.current then At(s, c, Waiting(s.current[caller.key]))
      else
        var f := |s.flights|;
        State(s.callers[c := caller.(pc := Leading(f), computes := caller.computes + 1)],
              s.flights + [Flight(caller.key, c, None, false)], s.current[caller.key := f])
    case Publish(_) =>
      var f := caller.pc.flight;
      At(s, c, Published(f)).(
        flights := s.flights[f := s.flights[f].(result := Some(Value(caller.key, c)), closed := true)])
    case Panic(_) => At(s, c, Panicking(caller.pc.flight))
    case Remove(_) =>
      var f := caller.pc.flight;
      At(s, c, if caller.pc.Published? then Returned(s.flights[f].result.value) else Closing(f)).(
        current := if caller.key in s.current && s.current[caller.key] == f then s.current - {caller.key} else s.current)
    case Close(_) =>
      var f := caller.pc.flight;
      At(s, c, Panicked).(flights := s.flights[f := s.flights[f].(closed := true)])
    case Wake(_) =>
      var result := s.flights[caller.pc.flight].result;
      At(s, c, if result.Some? then Returned(result.value) else Start)
  }

  predicate Init(s: State) {
    s.flights == [] && s.current == map[] && forall c :: 0 <= c < |s.callers| ==> s.callers[c].pc == Start && s.callers[c].computes == 0
  }

  // ---- The invariant ----

  /** Whose flight this caller leads, if any. */
  predicate Leads(pc: Pc, f: nat) {
    (pc.Leading? || pc.Published? || pc.Panicking? || pc.Closing?) && pc.flight == f
  }

  /** A value computed, for this very key and generation, by a caller that ran its compute. */
  predicate ComputedBy(s: State, v: Value, key: FlightKey) {
    v.key == key && v.author < |s.callers| && s.callers[v.author].key == key && s.callers[v.author].computes == 1
  }

  predicate CallerOk(s: State, c: nat)
    requires c < |s.callers|
  {
    var caller := s.callers[c];
    match caller.pc
    case Start => caller.computes == 0
    case Leading(f) => caller.computes == 1 && LeaderOk(s, c, f) && InMap(s, f) && !s.flights[f].closed
    case Published(f) => caller.computes == 1 && LeaderOk(s, c, f) && InMap(s, f) && s.flights[f].result.Some?
    case Panicking(f) => caller.computes == 1 && LeaderOk(s, c, f) && InMap(s, f) && !s.flights[f].closed
    case Closing(f) => caller.computes == 1 && LeaderOk(s, c, f) && !s.flights[f].closed
    case Waiting(f) => caller.computes == 0 && f < |s.flights| && s.flights[f].key == caller.key
    case Returned(v) => caller.computes <= 1 && ComputedBy(s, v, caller.key)
    case Panicked => caller.computes == 1
  }

  predicate LeaderOk(s: State, c: nat, f: nat)
    requires c < |s.callers|
  {
    f < |s.flights| && s.flights[f].leader == c && s.flights[f].key == s.callers[c].key
  }

  predicate InMap(s: State, f: nat)
    requires f < |s.flights|
  {
    s.flights[f].key in s.current && s.current[s.flights[f].key] == f
  }

  predicate FlightOk(s: State, f: nat)
    requires f < |s.flights|
  {
    var flight := s.flights[f];
    && flight.leader < |s.callers|
    && (!flight.closed ==> flight.result.None? && Leads(s.callers[flight.leader].pc, f) && !s.callers[flight.leader].pc.Published?)
    && (flight.result.Some? ==>
          var v := flight.result.value;
          flight.closed && v.author == flight.leader && ComputedBy(s, v, flight.key))
  }

  /** A flight in the map is open, or holds a result; its leader has yet to remove it. */
  predicate MappedOk(s: State, key: FlightKey)
    requires key in s.current
  {
    var f := s.current[key];
    && f < |s.flights| && s.flights[f].key == key
    && (!s.flights[f].closed || s.flights[f].result.Some?)
    && s.flights[f].leader < |s.callers| && Leads(s.callers[s.flights[f].leader].pc, f)
    && !s.callers[s.flights[f].leader].pc.Closing?
  }

  ghost predicate Inv(s: State) {
    && (forall c :: 0 <= c < |s.callers| ==> CallerOk(s, c))
    && (forall f :: 0 <= f < |s.flights| ==> FlightOk(s, f))
    && (forall key :: key in s.current ==> MappedOk(s, key))
  }

  lemma InvInit(s: State)
    requires Init(s)
    ensures Inv(s)
  {
  }

  /** The flight a caller refers to is in order. */
  lemma FlightKnown(s: State, c: nat)
    requires Inv(s) && c < |s.callers|
    ensures CallerOk(s, c)
    ensures var pc := s.callers[c].pc;
            (pc.Leading? || pc.Published? || pc.Panicking? || pc.Closing? || pc.Waiting?) ==>
              pc.flight < |s.flights| && FlightOk(s, pc.flight)
  {
  }

  lemma CallersStep(s: State, a: Action, c: nat)
    requires Inv(s) && Enabled(s, a) && c < |s.callers|
    ensures CallerOk(Apply(s, a), c)
  {
    FlightKnown(s, a.c);
    FlightKnown(s, c);
    if a.Claim? && s.callers[a.c].key in s.current { assert MappedOk(s, s.callers[a.c].key); }
    hide Inv;
  }

  lemma FlightsStep(s: State, a: Action, f: nat)
    requires Inv(s) && Enabled(s, a) && f < |Apply(s, a).flights|
    ensures FlightOk(Apply(s, a), f)
  {
    FlightKnown(s, a.c);
    assert f < |s.flights| ==> FlightOk(s, f);
    hide Inv;
  }

  lemma MapStep(s: State, a: Action, key: FlightKey)
    requires Inv(s) && Enabled(s, a) && key in Apply(s, a).current
    ensures MappedOk(Apply(s, a), key)
  {
    FlightKnown(s, a.c);
    assert key in s.current ==> MappedOk(s, key);
    hide Inv;
  }

  lemma InvStep(s: State, a: Action)
    requires Inv(s) && Enabled(s, a)
    ensures Inv(Apply(s, a))
  {
    var s' := Apply(s, a);
    forall c | 0 <= c < |s'.callers| ensures CallerOk(s', c) { CallersStep(s, a, c); }
    forall f | 0 <= f < |s'.flights| ensures FlightOk(s', f) { FlightsStep(s, a, f); }
    forall key | key in s'.current ensures MappedOk(s', key) { MapStep(s, a, key); }
    hide CallerOk, FlightOk, MappedOk;
  }

  // ---- Runs ----

  predicate IsRun(s: State, actions: seq<Action>)
    decreases |actions|
  {
    actions == [] || (Enabled(s, actions[0]) && IsRun(Apply(s, actions[0]), actions[1..]))
  }

  function Run(s: State, actions: seq<Action>): State
    requires IsRun(s, actions)
    decreases |actions|
  {
    if actions == [] then s else Run(Apply(s, actions[0]), actions[1..])
  }

  lemma {:induction false} RunKeepsInv(s: State, actions: seq<Action>)
    requires Inv(s) && IsRun(s, actions)
    ensures Inv(Run(s, actions)) && |Run(s, actions).callers| == |s.callers|
    decreases |actions|
  {
    if actions != [] {
      InvStep(s, actions[0]);
      RunKeepsInv(Apply(s, actions[0]), actions[1..]);
    }
  }

  predicate Computing(s: State, c: nat, key: FlightKey) {
    c < |s.callers| && s.callers[c].pc.Leading? && s.callers[c].key == key
  }

  lemma OneComputePerKey(s: State, c: nat, d: nat, key: FlightKey)
    requires Inv(s) && Computing(s, c, key) && Computing(s, d, key)
    ensures c == d
  {
    FlightKnown(s, c);
    FlightKnown(s, d);
    hide Inv;
  }

  /** In every run, with any leaders panicking: one compute at a time per key and generation, each
      caller computes at most once, and returns what some caller computed for its own key and
      generation. */
  lemma SingleFlight(s0: State, actions: seq<Action>)
    requires Init(s0) && IsRun(s0, actions)
    ensures var s := Run(s0, actions);
            && (forall c, d, key :: Computing(s, c, key) && Computing(s, d, key) ==> c == d)
            && (forall c :: 0 <= c < |s.callers| ==> s.callers[c].computes <= 1)
            && (forall c :: 0 <= c < |s.callers| && s.callers[c].pc.Returned? ==>
                  ComputedBy(s, s.callers[c].pc.value, s.callers[c].key))
  {
    InvInit(s0);
    RunKeepsInv(s0, actions);
    var s := Run(s0, actions);
    hide Inv, Run;
    forall c, d, key | Computing(s, c, key) && Computing(s, d, key) ensures c == d { OneComputePerKey(s, c, d, key); }
    forall c | 0 <= c < |s.callers|
      ensures s.callers[c].computes <= 1
      ensures s.callers[c].pc.Returned? ==> ComputedBy(s, s.callers[c].pc.value, s.callers[c].key)
    {
      FlightKnown(s, c);
    }
  }

  /** Closed without a result. */
  predicate Dead(s: State, f: nat) { f < |s.flights| && s.flights[f].closed && s.flights[f].result.None? }

  lemma DeadStep(s: State, a: Action, f: nat)
    requires Inv(s) && Enabled(s, a) && Dead(s, f)
    ensures Dead(Apply(s, a), f)
  {
    FlightKnown(s, a.c);
    hide Inv;
  }

  lemma {:induction false} DeadStaysDead(s: State, actions: seq<Action>, f: nat)
    requires Inv(s) && IsRun(s, actions) && Dead(s, f)
    ensures Dead(Run(s, actions), f)
    decreases |actions|
  {
    if actions != [] {
      InvStep(s, actions[0]);
      DeadStep(s, actions[0], f);
      DeadStaysDead(Apply(s, actions[0]), actions[1..], f);
      hide Inv, Dead, Apply, Enabled;
    }
  }

  /** What a claim leads or joins is never dead. */
  lemma ClaimIsLive(s: State, c: nat)
    requires Inv(s) && Enabled(s, Claim(c))
    ensures var s' := Apply(s, Claim(c));
            && (s'.callers[c].pc.Leading? || s'.callers[c].pc.Waiting?)
            && s'.callers[c].pc.flight < |s'.flights| && !Dead(s', s'.callers[c].pc.flight)
  {
    if s.callers[c].key in s.current { assert MappedOk(s, s.callers[c].key); }
  }

  /** In every run a claim leads a new flight or joins one that is open or holds a result; and a follower that was woken
      empty gets, whenever it claims again and whatever happened in between, another flight than the one that died. */
  lemma JoinersGetLiveFlights(s0: State, actions: seq<Action>, c: nat, later: seq<Action>)
    requires Init(s0) && IsRun(s0, actions)
    ensures var s := Run(s0, actions);
            && (Enabled(s, Claim(c)) ==>
                  var s' := Apply(s, Claim(c));
                  (s'.callers[c].pc.Leading? || s'.callers[c].pc.Waiting?) && !Dead(s', s'.callers[c].pc.flight))
            && (Enabled(s, Wake(c)) && Dead(s, s.callers[c].pc.flight) && IsRun(Apply(s, Wake(c)), later)
                && Enabled(Run(Apply(s, Wake(c)), later), Claim(c)) ==>
                  var again := Apply(Run(Apply(s, Wake(c)), later), Claim(c)).callers[c].pc;
                  (again.Leading? || again.Waiting?) && again.flight != s.callers[c].pc.flight)
  {
    InvInit(s0);
    RunKeepsInv(s0, actions);
    var s := Run(s0, actions);
    if Enabled(s, Claim(c)) { ClaimIsLive(s, c); }
    if Enabled(s, Wake(c)) && Dead(s, s.callers[c].pc.flight) { WokenMovesOn(s, c, later); }
    hide Inv, Apply, IsRun, Run, Dead;
  }

  lemma WokenMovesOn(s: State, c: nat, later: seq<Action>)
    requires Inv(s) && Enabled(s, Wake(c)) && Dead(s, s.callers[c].pc.flight)
    ensures IsRun(Apply(s, Wake(c)), later) && Enabled(Run(Apply(s, Wake(c)), later), Claim(c)) ==>
              var again := Apply(Run(Apply(s, Wake(c)), later), Claim(c)).callers[c].pc;
              (again.Leading? || again.Waiting?) && again.flight != s.callers[c].pc.flight
  {
    var f := s.callers[c].pc.flight;
    var s1 := Apply(s, Wake(c));
    InvStep(s, Wake(c));
    DeadStep(s, Wake(c), f);
    if IsRun(s1, later) && Enabled(Run(s1, later), Claim(c)) {
      var s2 := Run(s1, later);
      RunKeepsInv(s1, later);
      DeadStaysDead(s1, later, f);
      ClaimIsLive(s2, c);
      InvStep(s2, Claim(c));
      DeadStep(s2, Claim(c), f);
      hide Inv, Apply, Run, IsRun, Dead;
    }
  }

  /** Waits on this flight, which holds its leader's result, or has returned that. */
  predicate Shares(s: State, c: nat, f: nat) {
    && c < |s.callers| && f < |s.flights| && s.flights[f].result == Some(Value(s.flights[f].key, s.flights[f].leader))
    && s.callers[c].computes == 0
    && (s.callers[c].pc == Waiting(f) || s.callers[c].pc == Returned(s.flights[f].result.value))
  }

  lemma SharesStep(s: State, a: Action, c: nat, f: nat)
    requires Inv(s) && Enabled(s, a) && Shares(s, c, f)
    ensures Shares(Apply(s, a), c, f)
    ensures Apply(s, a).flights[f] == s.flights[f]
  {
    FlightKnown(s, a.c);
    assert FlightOk(s, f);
    hide Inv;
  }

  lemma {:induction false} SharesThroughout(s: State, actions: seq<Action>, c: nat, f: nat)
    requires Inv(s) && IsRun(s, actions) && Shares(s, c, f)
    ensures Shares(Run(s, actions), c, f) && Run(s, actions).flights[f] == s.flights[f]
    decreases |actions|
  {
    if actions != [] {
      InvStep(s, actions[0]);
      SharesStep(s, actions[0], c, f);
      SharesThroughout(Apply(s, actions[0]), actions[1..], c, f);
      hide Inv, Apply, Enabled, Shares;
    }
  }

  /** One compute serves them all. In every run, a follower of a flight that holds a result never computes: from then on it
      waits, or it has returned what that flight's leader computed. */
  lemma FollowersShare(s0: State, actions: seq<Action>, c: nat, later: seq<Action>)
    requires Init(s0) && IsRun(s0, actions)
    requires var s := Run(s0, actions);
             && c < |s.callers| && s.callers[c].pc.Waiting? && s.callers[c].pc.flight < |s.flights|
             && s.flights[s.callers[c].pc.flight].result.Some? && IsRun(s, later)
    ensures var s := Run(s0, actions);
            var flight := s.flights[s.callers[c].pc.flight];
            var caller := Run(s, later).callers;
            && c < |caller| && caller[c].computes == 0 && flight.key == s.callers[c].key
            && (caller[c].pc == s.callers[c].pc || caller[c].pc == Returned(Value(flight.key, flight.leader)))
  {
    InvInit(s0);
    RunKeepsInv(s0, actions);
    var s := Run(s0, actions);
    FlightKnown(s, c);
    assert Shares(s, c, s.callers[c].pc.flight);
    SharesThroughout(s, later, c, s.callers[c].pc.flight);
    hide Run, IsRun, Inv;
  }

  // ---- Nobody is stranded ----

  predicate Finished(c: Caller) { c.pc.Returned? || c.pc.Panicked? }

  /** Some caller can always move until all have returned or panicked; then the map is empty. */
  lemma NoDeadlock(s: State)
    requires Inv(s)
    ensures AllFinished(s) ==> s.current == map[]
    ensures (exists a :: Enabled(s, a)) || AllFinished(s)
  {
    forall key | key in s.current
      ensures exists c :: 0 <= c < |s.callers| && !Finished(s.callers[c])
    {
      assert MappedOk(s, key);
      assert !Finished(s.callers[s.flights[s.current[key]].leader]);
    }
    forall c | 0 <= c < |s.callers| && !Finished(s.callers[c])
      ensures exists a :: Enabled(s, a)
    {
      var a := NextOf(s, c);
      assert Enabled(s, a);
    }
  }

  /** The move of an unfinished caller, or of the live leader it waits for. */
  lemma NextOf(s: State, c: nat) returns (a: Action)
    requires Inv(s) && c < |s.callers| && !Finished(s.callers[c])
    ensures Enabled(s, a)
  {
    FlightKnown(s, c);
    var pc := s.callers[c].pc;
    if pc.Waiting? && !s.flights[pc.flight].closed {
      var d := s.flights[pc.flight].leader;
      FlightKnown(s, d);
      a := OwnMove(s.callers[d].pc, d);
    } else {
      a := OwnMove(pc, c);
    }
  }

  function OwnMove(pc: Pc, c: nat): Action {
    match pc
    case Start => Claim(c)
    case Leading(_) => Publish(c)
    case Published(_) => Remove(c)
    case Panicking(_) => Remove(c)
    case Closing(_) => Close(c)
    case _ => Wake(c)
  }

  /** How far a caller is from its end, not counting waits. */
  function Distance(c: Caller): nat {
    match c.pc
    case Start => 4
    case Waiting(_) => 4
    case Leading(_) => 3
    case Published(_) => 2
    case Panicking(_) => 2
    case Closing(_) => 1
    case Returned(_) => 0
    case Panicked => 0
  }

  /** Waiting on a flight that died means another round. */
  function Rounds(flights: seq<Flight>): Caller -> nat {
    (c: Caller) =>
      if c.pc.Start? then 1
      else if c.pc.Waiting? && c.pc.flight < |flights| && flights[c.pc.flight].closed && flights[c.pc.flight].result.None? then 2
      else 0
  }

  function Work(s: State): nat {
    SeqSum(s.callers, Distance) * (2 * |s.callers| + 1) + SeqSum(s.callers, Rounds(s.flights))
  }

  lemma {:induction false} RoundsBound(callers: seq<Caller>, flights: seq<Flight>)
    ensures SeqSum(callers, Rounds(flights)) <= 2 * |callers|
  {
    if callers != [] { RoundsBound(callers[1..], flights); }
  }

  lemma {:induction false} DistanceBound(callers: seq<Caller>)
    ensures SeqSum(callers, Distance) <= 4 * |callers|
  {
    if callers != [] { DistanceBound(callers[1..]); }
  }

  lemma Carry(p: nat, p': nat, r: nat, r': nat, n: nat)
    requires r' <= 2 * n && (p' < p || (p' == p && r' < r))
    ensures p' * (2 * n + 1) + r' < p * (2 * n + 1) + r
  {
    if p' < p {
      var d := p - p' - 1;
      assert p * (2 * n + 1) == p' * (2 * n + 1) + (2 * n + 1) + d * (2 * n + 1);
      assert d * (2 * n + 1) >= 0;
    }
  }

  /** A step takes its caller a stage further, or costs it one round of waiting. */
  lemma CloserOrSameRound(s: State, a: Action)
    requires Inv(s) && Enabled(s, a)
    ensures var before, after := s.callers[a.c], Apply(s, a).callers[a.c];
            || Distance(after) < Distance(before)
            || (Distance(after) == Distance(before) && Apply(s, a).flights == s.flights
                && Rounds(s.flights)(after) < Rounds(s.flights)(before))
  {
    FlightKnown(s, a.c);
    if a.Claim? && s.callers[a.c].key in s.current { assert MappedOk(s, s.callers[a.c].key); }
    hide Inv;
  }

  /** Every step of every schedule brings the end nearer. */
  lemma StepsMakeProgress(s: State, a: Action)
    requires Inv(s) && Enabled(s, a)
    ensures Work(Apply(s, a)) < Work(s)
  {
    var s' := Apply(s, a);
    var c := a.c;
    assert s'.callers == s.callers[c := s'.callers[c]];
    SeqSumUpdate(s.callers, Distance, c, s'.callers[c]);
    SeqSumUpdate(s.callers, Rounds(s.flights), c, s'.callers[c]);
    RoundsBound(s'.callers, s'.flights);
    CloserOrSameRound(s, a);
    hide Inv, SeqSum, Apply, Enabled, Distance, Rounds;
    Carry(SeqSum(s.callers, Distance), SeqSum(s'.callers, Distance),
          SeqSum(s.callers, Rounds(s.flights)), SeqSum(s'.callers, Rounds(s'.flights)), |s.callers|);
  }

  /** So every run ends, within a bound that depends on the number of callers alone. */
  lemma {:induction false} RunsAreBounded(s: State, actions: seq<Action>)
    requires Inv(s) && IsRun(s, actions)
    ensures |actions| + Work(Run(s, actions)) <= Work(s)
    decreases |actions|
  {
    if actions != [] {
      StepsMakeProgress(s, actions[0]);
      InvStep(s, actions[0]);
      RunsAreBounded(Apply(s, actions[0]), actions[1..]);
    }
  }

  predicate AllFinished(s: State) {
    forall c :: 0 <= c < |s.callers| ==> Finished(s.callers[c])
  }

  /** A run that can go no further has brought every caller home and emptied the registry. */
  lemma EveryCallEnds(s0: State, actions: seq<Action>)
    requires Init(s0) && IsRun(s0, actions)
    ensures var n := |s0.callers|; |actions| <= 4 * n * (2 * n + 1) + 2 * n
    ensures var s := Run(s0, actions);
            |s.callers| == |s0.callers| && ((forall a :: !Enabled(s, a)) ==> AllFinished(s) && s.current == map[])
  {
    InvInit(s0);
    RunKeepsInv(s0, actions);
    RunsAreBounded(s0, actions);
    NoDeadlock(Run(s0, actions));
    hide Inv, Run, IsRun, Enabled;
    WorkBound(s0);
  }

  lemma WorkBound(s: State)
    ensures var n := |s.callers|; Work(s) <= 4 * n * (2 * n + 1) + 2 * n
  {
    var n := |s.callers|;
    DistanceBound(s.callers);
    RoundsBound(s.callers, s.flights);
    var d := SeqSum(s.callers, Distance);
    assert d * (2 * n + 1) <= 4 * n * (2 * n + 1) by { MulLe(d, 4 * n, 2 * n + 1); }
  }

  lemma MulLe(a: nat, b: nat, k: nat)
    requires a <= b
    ensures a * k <= b * k
  {
  }

  // ---- The registry object ----

  /** The lock-protected sections of one registry, each a step of the model; `Callers` records where
      every caller stands. */
  class AnalysisFlightRegistry {
    var flights: seq<Flight>
    var current: map<FlightKey, nat>
    ghost var Callers: seq<Caller>

    ghost function Now(): State reads this { State(Callers, flights, current) }

    ghost predicate Valid() reads this { Inv(Now()) }

    constructor (ghost keys: seq<FlightKey>)
      ensures Init(Now()) && Valid() && |Callers| == |keys| && forall c :: 0 <= c < |keys| ==> Callers[c].key == keys[c]
    {
      flights, current, Callers := [], map[], seq(|keys|, i requires 0 <= i < |keys| => Caller(keys[i], Start, 0));
    }

    /** Joins the key's flight, or opens one and leads it. */
    method ClaimFlight(c: nat, key: FlightKey) returns (flight: nat, leader: bool)
      requires Valid() && Enabled(Now(), Claim(c)) && Callers[c].key == key
      modifies this
      ensures Valid() && Now() == Apply(old(Now()), Claim(c))
      ensures Callers[c].pc == if leader then Leading(flight) else Waiting(flight)
      ensures leader ==> forall d :: d != c ==> !Computing(Now(), d, key)
    {
      InvStep(Now(), Claim(c));
      ghost var next := Apply(Now(), Claim(c));
      if key in current {
        flight, leader := current[key], false;
      } else {
        flight, leader := |flights|, true;
        flights := flights + [Flight(key, c, None, false)];
        current := current[key := flight];
      }
      Callers := next.callers;
      if leader {
        forall d | Computing(Now(), d, key) ensures d == c { OneComputePerKey(Now(), c, d, key); }
      }
    }

    /** Publishes the leader's result and wakes its followers. */
    method PublishResult(c: nat, flight: nat)
      requires Valid() && Enabled(Now(), Publish(c)) && Callers[c].pc.flight == flight
      modifies this
      ensures Valid() && Now() == Apply(old(Now()), Publish(c))
      ensures forall d :: 0 <= d < |Callers| && Callers[d].pc == Waiting(flight) ==> Enabled(Now(), Wake(d))
    {
      InvStep(Now(), Publish(c));
      FlightKnown(Now(), c);
      ghost var next := Apply(Now(), Publish(c));
      flights := flights[flight := flights[flight].(result := Some(Value(flights[flight].key, c)), closed := true)];
      Callers := next.callers;
    }

    /** Takes the leader's flight out of the map, unless another has replaced it. */
    method RemoveCurrentFlight(c: nat, flight: nat)
      requires Valid() && Enabled(Now(), Remove(c)) && Callers[c].pc.flight == flight
      modifies this
      ensures Valid() && Now() == Apply(old(Now()), Remove(c))
      ensures old(flights[flight].key) !in current
    {
      InvStep(Now(), Remove(c));
      FlightKnown(Now(), c);
      ghost var next := Apply(Now(), Remove(c));
      var key := flights[flight].key;
      if key in current && current[key] == flight { current := current - {key}; }
      Callers := next.callers;
    }

    /** Closes a dead leader's flight; every follower wakes with nothing and claims again. */
    method CloseWithoutResult(c: nat, flight: nat)
      requires Valid() && Enabled(Now(), Close(c)) && Callers[c].pc.flight == flight
      modifies this
      ensures Valid() && Now() == Apply(old(Now()), Close(c))
      ensures forall d :: 0 <= d < |Callers| && Callers[d].pc == Waiting(flight) ==>
                Enabled(Now(), Wake(d)) && Apply(Now(), Wake(d)).callers[d].pc == Start
    {
      InvStep(Now(), Close(c));
      FlightKnown(Now(), c);
      ghost var next := Apply(Now(), Close(c));
      flights := flights[flight := flights[flight].(closed := true)];
      Callers := next.callers;
    }
  }
}
