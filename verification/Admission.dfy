/** Build admission: engine permits shared by everyone, and one fewer background permits that a
    background build takes first. Models daemon/src/engine/boundary.rs as interleaved steps of any
    number of builds over first-in-first-out semaphores. */
module Admission {
  import opened Sums

  type BuildId = nat

  /** How a build ended: with its own result, by unwinding, or cut off by the timeout. */
  datatype Outcome = Value | Panicked | TimedOut

  datatype Pc =
    | Submitted
    | QueuedBackground
    | HasBackground                        // owns a background permit, not yet queued for the engine
    | QueuedEngine
    | Admitted                             // owns its permits, still counted as waiting
    | Building
    | Leaving(outcome: Outcome)            // no longer in flight, permits not yet returned
    | LeavingBackground(outcome: Outcome)  // only the background permit left to return
    | Done(outcome: Outcome)

  datatype Build = Build(background: bool, pc: Pc)

  datatype Semaphore = Semaphore(free: nat, queue: seq<BuildId>)

  datatype State = State(
    permits: nat, engine: Semaphore, background: Semaphore, builds: seq<Build>, waiting: nat, inFlight: nat)

  datatype Action =
    | Submit(background: bool)
    | Enter(b: BuildId)
    | GrantBackground
    | QueueForEngine(b: BuildId)
    | GrantEngine
    | BeginBuild(b: BuildId)
    | EndBuild(b: BuildId, outcome: Outcome)
    | ReleaseEngine(b: BuildId)
    | ReleaseBackground(b: BuildId)

  function Init(permits: nat): State
    requires permits >= 2
  {
    State(permits, Semaphore(permits, []), Semaphore(permits - 1, []), [], 0, 0)
  }

  predicate Is(s: State, b: BuildId, pc: Pc) { b < |s.builds| && s.builds[b].pc == pc }

  predicate Enabled(s: State, a: Action) {
    match a
    case Submit(_) => true
    case Enter(b) => Is(s, b, Submitted)
    case GrantBackground => s.background.free > 0 && s.background.queue != [] && s.background.queue[0] < |s.builds|
    case QueueForEngine(b) => Is(s, b, HasBackground)
    case GrantEngine => s.engine.free > 0 && s.engine.queue != [] && s.engine.queue[0] < |s.builds|
    case BeginBuild(b) => Is(s, b, Admitted) && s.waiting > 0
    case EndBuild(b, _) => Is(s, b, Building) && s.inFlight > 0
    case ReleaseEngine(b) => b < |s.builds| && s.builds[b].pc.Leaving?
    case ReleaseBackground(b) => b < |s.builds| && s.builds[b].pc.LeavingBackground?
  }

  function At(s: State, b: BuildId, pc: Pc): State
    requires b < |s.builds|
  {
    s.(builds := s.builds[b := s.builds[b].(pc := pc)])
  }

  function Join(q: Semaphore, b: BuildId): Semaphore { q.(queue := q.queue + [b]) }

  function Grant(q: Semaphore): Semaphore
    requires q.free > 0 && q.queue != []
  {
    Semaphore(q.free - 1, q.queue[1..])
  }

  function Release(q: Semaphore): Semaphore { q.(free := q.free + 1) }

  function Apply(s: State, a: Action): State
    requires Enabled(s, a)
  {
    match a
    case Submit(background) => s.(builds := s.builds + [Build(background, Submitted)])
    case Enter(b) =>
      var s' := s.(waiting := s.waiting + 1);
      if s.builds[b].background then At(s', b, QueuedBackground).(background := Join(s.background, b))
      else At(s', b, QueuedEngine).(engine := Join(s.engine, b))
    case GrantBackground => At(s, s.background.queue[0], HasBackground).(background := Grant(s.background))
    case QueueForEngine(b) => At(s, b, QueuedEngine).(engine := Join(s.engine, b))
    case GrantEngine => At(s, s.engine.queue[0], Admitted).(engine := Grant(s.engine))
    case BeginBuild(b) => At(s, b, Building).(waiting := s.waiting - 1, inFlight := s.inFlight + 1)
    case EndBuild(b, outcome) => At(s, b, Leaving(outcome)).(inFlight := s.inFlight - 1)
    case ReleaseEngine(b) =>
      var outcome := s.builds[b].pc.outcome;
      At(s, b, if s.builds[b].background then LeavingBackground(outcome) else Done(outcome)).(engine := Release(s.engine))
    case ReleaseBackground(b) => At(s, b, Done(s.builds[b].pc.outcome)).(background := Release(s.background))
  }

  // ---- The invariant ----

  predicate OwnsEngine(b: Build) { b.pc.Admitted? || b.pc.Building? || b.pc.Leaving? }

  predicate OwnsBackground(b: Build) {
    b.background && !b.pc.Submitted? && !b.pc.QueuedBackground? && !b.pc.Done?
  }

  function EngineOwner(b: Build): nat { if OwnsEngine(b) then 1 else 0 }
  function BackgroundOwner(b: Build): nat { if OwnsBackground(b) then 1 else 0 }
  function InFlight(b: Build): nat { if b.pc.Building? then 1 else 0 }
  function IsWaiting(b: Build): nat {
    if b.pc.QueuedBackground? || b.pc.HasBackground? || b.pc.QueuedEngine? || b.pc.Admitted? then 1 else 0
  }
  /** Background builds that hold an engine permit or queue for one. */
  function BackgroundAtEngine(b: Build): nat { if b.background && (OwnsEngine(b) || b.pc.QueuedEngine?) then 1 else 0 }

  predicate Distinct(q: seq<BuildId>) {
    forall i, j :: 0 <= i < j < |q| ==> q[i] != q[j]
  }

  /** The engine queue lists the builds at that stage, once each. */
  ghost predicate EngineQueueOk(s: State) {
    && Distinct(s.engine.queue)
    && (forall b :: b in s.engine.queue <==> 0 <= b < |s.builds| && s.builds[b].pc.QueuedEngine?)
  }

  ghost predicate BackgroundQueueOk(s: State) {
    && Distinct(s.background.queue)
    && (forall b :: b in s.background.queue <==> 0 <= b < |s.builds| && s.builds[b].pc.QueuedBackground?)
  }

  /** Interactive builds never touch background permits. */
  ghost predicate InteractiveOk(s: State) {
    forall b :: 0 <= b < |s.builds| && !s.builds[b].background ==>
      !s.builds[b].pc.QueuedBackground? && !s.builds[b].pc.HasBackground? && !s.builds[b].pc.LeavingBackground?
  }

  ghost predicate QueuesOk(s: State) { EngineQueueOk(s) && BackgroundQueueOk(s) && InteractiveOk(s) }

  /** Every permit is free or owned, and the counters are exact. */
  ghost predicate CountsOk(s: State) {
    && s.permits >= 2
    && s.engine.free + SeqSum(s.builds, EngineOwner) == s.permits
    && s.background.free + SeqSum(s.builds, BackgroundOwner) == s.permits - 1
    && s.inFlight == SeqSum(s.builds, InFlight)
    && s.waiting == SeqSum(s.builds, IsWaiting)
  }

  ghost predicate Inv(s: State) { QueuesOk(s) && CountsOk(s) }

  lemma InvInit(permits: nat)
    requires permits >= 2
    ensures Inv(Init(permits))
  {
  }

  /** The build a step moves. */
  function Mover(s: State, a: Action): BuildId
    requires Enabled(s, a) && !a.Submit?
  {
    match a
    case GrantBackground => s.background.queue[0]
    case GrantEngine => s.engine.queue[0]
    case Enter(b) => b
    case QueueForEngine(b) => b
    case BeginBuild(b) => b
    case EndBuild(b, _) => b
    case ReleaseEngine(b) => b
    case ReleaseBackground(b) => b
  }

  lemma MoverMoves(s: State, a: Action)
    requires Enabled(s, a) && !a.Submit?
    ensures var b := Mover(s, a);
            b < |s.builds| && |Apply(s, a).builds| == |s.builds| && Apply(s, a).builds == s.builds[b := Apply(s, a).builds[b]]
  {
  }

  /** One step's effect on a count over the builds. */
  lemma SumStep(s: State, a: Action, f: Build -> nat)
    requires Inv(s) && Enabled(s, a)
    ensures a.Submit? ==> SeqSum(Apply(s, a).builds, f) == SeqSum(s.builds, f) + f(Build(a.background, Submitted))
    ensures !a.Submit? ==>
              var b := Mover(s, a);
              b < |s.builds| && SeqSum(Apply(s, a).builds, f) + f(s.builds[b]) == SeqSum(s.builds, f) + f(Apply(s, a).builds[b])
  {
    if a.Submit? {
      var added := [Build(a.background, Submitted)];
      SeqSumAppend(s.builds, added, f);
      assert added[1..] == [];
    } else {
      MoverMoves(s, a);
      SeqSumUpdate(s.builds, f, Mover(s, a), Apply(s, a).builds[Mover(s, a)]);
    }
  }

  lemma MoverStage(s: State, a: Action)
    requires Inv(s) && Enabled(s, a)
    ensures a.GrantBackground? ==> s.builds[Mover(s, a)].pc.QueuedBackground? && s.builds[Mover(s, a)].background
    ensures a.GrantEngine? ==> s.builds[Mover(s, a)].pc.QueuedEngine?
    ensures a.ReleaseBackground? || a.QueueForEngine? ==> s.builds[a.b].background
  {
    assert a.GrantBackground? ==> s.background.queue[0] in s.background.queue;
    assert a.GrantEngine? ==> s.engine.queue[0] in s.engine.queue;
  }

  lemma CountsStep(s: State, a: Action)
    requires Inv(s) && Enabled(s, a)
    ensures CountsOk(Apply(s, a))
  {
    SumStep(s, a, EngineOwner);
    SumStep(s, a, BackgroundOwner);
    SumStep(s, a, InFlight);
    SumStep(s, a, IsWaiting);
    MoverStage(s, a);
    hide SeqSum, QueuesOk;
  }

  lemma TailOfDistinct(q: seq<BuildId>)
    requires Distinct(q) && q != []
    ensures Distinct(q[1..]) && forall b :: b in q[1..] <==> b in q && b != q[0]
  {
    assert q == [q[0]] + q[1..];
  }

  lemma JoinDistinct(q: seq<BuildId>, b: BuildId)
    requires Distinct(q) && b !in q
    ensures Distinct(q + [b]) && forall x :: x in q + [b] <==> x in q || x == b
  {
  }

  lemma EngineQueueStep(s: State, a: Action)
    requires EngineQueueOk(s) && BackgroundQueueOk(s) && Enabled(s, a)
    ensures EngineQueueOk(Apply(s, a))
  {
    if a.GrantEngine? { TailOfDistinct(s.engine.queue); }
    assert a.GrantBackground? ==> s.background.queue[0] in s.background.queue;
    if (a.Enter? || a.QueueForEngine?) && a.b !in s.engine.queue { JoinDistinct(s.engine.queue, a.b); }
    hide Distinct;
  }

  lemma BackgroundQueueStep(s: State, a: Action)
    requires BackgroundQueueOk(s) && EngineQueueOk(s) && Enabled(s, a)
    ensures BackgroundQueueOk(Apply(s, a))
  {
    if a.GrantBackground? { TailOfDistinct(s.background.queue); }
    if a.Enter? && a.b !in s.background.queue { JoinDistinct(s.background.queue, a.b); }
    assert a.GrantEngine? ==> s.engine.queue[0] in s.engine.queue;
    hide Distinct;
  }

  lemma InteractiveStep(s: State, a: Action)
    requires QueuesOk(s) && Enabled(s, a)
    ensures InteractiveOk(Apply(s, a))
  {
    assert a.GrantEngine? ==> s.engine.queue[0] in s.engine.queue;
    assert a.GrantBackground? ==> s.background.queue[0] in s.background.queue;
    hide Distinct;
  }

  lemma InvStep(s: State, a: Action)
    requires Inv(s) && Enabled(s, a)
    ensures Inv(Apply(s, a))
  {
    CountsStep(s, a);
    EngineQueueStep(s, a);
    BackgroundQueueStep(s, a);
    InteractiveStep(s, a);
  }

  predicate IsRun(s: State, actions: seq<Action>)
    decreases |actions|
  {
    actions == [] || (Enabled(s, actions[0]) && IsRun(Apply(s, actions[0]), actions[1..]))
  }

  function Run(s: State, actions: seq<Action>): State
    requires IsRun(s, actions)
    decreases |actions|
  {
    if actions == [] then s else Run(Apply(s, actions[0]), actions[1..])
  }

  lemma {:induction false} RunKeepsInv(s: State, actions: seq<Action>)
    requires Inv(s) && IsRun(s, actions)
    ensures Inv(Run(s, actions)) && Run(s, actions).permits == s.permits
    decreases |actions|
  {
    if actions != [] {
      InvStep(s, actions[0]);
      RunKeepsInv(Apply(s, actions[0]), actions[1..]);
    }
  }

  lemma {:induction false} SumLe(builds: seq<Build>, f: Build -> nat, g: Build -> nat)
    requires forall b :: f(b) <= g(b)
    ensures SeqSum(builds, f) <= SeqSum(builds, g)
  {
    if builds != [] { SumLe(builds[1..], f, g); }
  }

  /** In every run: at most `permits` builds in flight, and at most one fewer background builds holding
      or queued for an engine permit, so some permit is always out of their reach. */
  lemma AdmissionIsBounded(permits: nat, actions: seq<Action>)
    requires permits >= 2 && IsRun(Init(permits), actions)
    ensures var s := Run(Init(permits), actions);
            && s.inFlight == SeqSum(s.builds, InFlight) <= permits
            && SeqSum(s.builds, BackgroundAtEngine) <= permits - 1
  {
    InvInit(permits);
    RunKeepsInv(Init(permits), actions);
    var s := Run(Init(permits), actions);
    SumLe(s.builds, InFlight, EngineOwner);
    SumLe(s.builds, BackgroundAtEngine, BackgroundOwner);
  }

  // ---- Nobody waits forever ----

  /** The queue a build stands in, and its place. */
  ghost predicate Ahead(q: seq<BuildId>, b: BuildId, n: nat) { n < |q| && q[n] == b }

  /** Nobody overtakes: a step leaves a queued build's place alone, or moves it up by one, or admits it. */
  lemma NobodyOvertakes(s: State, a: Action, b: BuildId, n: nat)
    requires Inv(s) && Enabled(s, a) && Ahead(s.engine.queue, b, n)
    ensures var q := Apply(s, a).engine.queue;
            if a.GrantEngine? then (if n == 0 then Is(Apply(s, a), b, Admitted) else Ahead(q, b, n - 1))
            else Ahead(q, b, n)
  {
    assert s.engine.queue[0] < |s.builds| by { assert s.engine.queue[0] in s.engine.queue; }
    hide CountsOk;
  }

  /** The builds a run's engine grants admit, in order. */
  function GrantedIn(s: State, actions: seq<Action>): seq<BuildId>
    requires IsRun(s, actions)
    decreases |actions|
  {
    if actions == [] then []
    else (if actions[0].GrantEngine? then [s.engine.queue[0]] else []) + GrantedIn(Apply(s, actions[0]), actions[1..])
  }

  lemma EngineQueueMoves(s: State, a: Action)
    requires Enabled(s, a)
    ensures if a.GrantEngine? then s.engine.queue == [s.engine.queue[0]] + Apply(s, a).engine.queue
            else s.engine.queue <= Apply(s, a).engine.queue
  {
  }

  /** In every run the grants follow the queue: what was granted, then what still waits, begins with the queue as it
      stood. */
  lemma {:induction false} GrantsFollowTheQueue(s: State, actions: seq<Action>)
    requires IsRun(s, actions)
    ensures s.engine.queue <= GrantedIn(s, actions) + Run(s, actions).engine.queue
    decreases |actions|
  {
    if actions != [] {
      var s1 := Apply(s, actions[0]);
      EngineQueueMoves(s, actions[0]);
      GrantsFollowTheQueue(s1, actions[1..]);
      hide Enabled, Apply;
      assert actions[0].GrantEngine? ==>
          GrantedIn(s, actions) + Run(s, actions).engine.queue
          == [s.engine.queue[0]] + (GrantedIn(s1, actions[1..]) + Run(s1, actions[1..]).engine.queue);
    }
  }

  /** How many of these builds are background ones. */
  function BackgroundIn(builds: seq<Build>, q: seq<BuildId>): nat {
    if q == [] then 0
    else (if q[0] < |builds| && builds[q[0]].background then 1 else 0) + BackgroundIn(builds, q[1..])
  }

  lemma {:induction false} BackgroundInAtMost(builds: seq<Build>, q: seq<BuildId>)
    requires Distinct(q) && forall b :: b in q ==> b < |builds| && builds[b].pc.QueuedEngine?
    ensures BackgroundIn(builds, q) <= SeqSum(builds, BackgroundAtEngine)
    decreases |q|
  {
    if q != [] {
      assert q[0] in q;
      var cleared := builds[q[0] := Build(false, Submitted)];
      TailOfDistinct(q);
      BackgroundInAtMost(cleared, q[1..]);
      SameBackground(builds, cleared, q[1..]);
      SeqSumUpdate(builds, BackgroundAtEngine, q[0], Build(false, Submitted));
    }
  }

  lemma {:induction false} SameBackground(builds: seq<Build>, other: seq<Build>, q: seq<BuildId>)
    requires |builds| == |other| && forall b :: b in q && b < |builds| ==> builds[b] == other[b]
    ensures BackgroundIn(builds, q) == BackgroundIn(other, q)
  {
    if q != [] { SameBackground(builds, other, q[1..]); }
  }

  lemma FewBackgroundAhead(s: State, n: nat)
    requires Inv(s) && n <= |s.engine.queue|
    ensures BackgroundIn(s.builds, s.engine.queue[..n]) <= s.permits - 1
  {
    var before := s.engine.queue[..n];
    assert forall x :: x in before ==> x in s.engine.queue;
    BackgroundInAtMost(s.builds, before);
    SumLe(s.builds, BackgroundAtEngine, BackgroundOwner);
    hide SeqSum, BackgroundIn;
  }

  /** A build at place `n` of the engine queue is the one the run's grant number `n + 1` admits, after exactly those
      that stood before it; until then each grant moves it up one place. At most one fewer than the permits of those
      before it are background builds, whatever else is submitted meanwhile. */
  lemma AdmittedInTurn(s: State, actions: seq<Action>, b: BuildId, n: nat)
    requires Inv(s) && IsRun(s, actions) && Ahead(s.engine.queue, b, n)
    ensures var granted, q := GrantedIn(s, actions), Run(s, actions).engine.queue;
            if |granted| <= n then granted == s.engine.queue[..|granted|] && Ahead(q, b, n - |granted|)
            else granted[..n] == s.engine.queue[..n] && granted[n] == b
    ensures BackgroundIn(s.builds, s.engine.queue[..n]) <= s.permits - 1
  {
    var granted, q := GrantedIn(s, actions), Run(s, actions).engine.queue;
    GrantsFollowTheQueue(s, actions);
    FewBackgroundAhead(s, n);
    hide IsRun, Run, GrantedIn, Inv, BackgroundIn;
    forall i | 0 <= i <= n ensures s.engine.queue[i] == (granted + q)[i] { }
  }

  function ToGo(b: Build): nat {
    match b.pc
    case Submitted => 8
    case QueuedBackground => 7
    case HasBackground => 6
    case QueuedEngine => 5
    case Admitted => 4
    case Building => 3
    case Leaving(_) => 2
    case LeavingBackground(_) => 1
    case Done(_) => 0
  }

  /** Without new submissions every step brings some build nearer to its end. */
  lemma StepsMakeProgress(s: State, a: Action)
    requires Inv(s) && Enabled(s, a) && !a.Submit?
    ensures SeqSum(Apply(s, a).builds, ToGo) < SeqSum(s.builds, ToGo)
  {
    MoverMoves(s, a);
    var b := Mover(s, a);
    assert a.GrantBackground? ==> b in s.background.queue;
    assert a.GrantEngine? ==> b in s.engine.queue;
    SeqSumUpdate(s.builds, ToGo, b, Apply(s, a).builds[b]);
    hide SeqSum, CountsOk, Distinct;
  }

  lemma {:induction false} SumZero(builds: seq<Build>, f: Build -> nat)
    requires forall b :: b in builds ==> f(b) == 0
    ensures SeqSum(builds, f) == 0
  {
    if builds != [] { SumZero(builds[1..], f); }
  }

  /** A step some build can take on its own. */
  function OwnMove(b: BuildId, pc: Pc): Action {
    match pc
    case Submitted => Enter(b)
    case HasBackground => QueueForEngine(b)
    case Admitted => BeginBuild(b)
    case Building => EndBuild(b, TimedOut)
    case Leaving(_) => ReleaseEngine(b)
    case LeavingBackground(_) => ReleaseBackground(b)
    case _ => Submit(false)
  }

  predicate Queued(pc: Pc) { pc.QueuedBackground? || pc.QueuedEngine? }

  lemma OwnMoveEnabled(s: State, b: BuildId)
    requires Inv(s) && b < |s.builds| && !Queued(s.builds[b].pc) && !s.builds[b].pc.Done?
    ensures Enabled(s, OwnMove(b, s.builds[b].pc)) && !OwnMove(b, s.builds[b].pc).Submit?
  {
    SeqSumAtLeast(s.builds, InFlight, b);
    SeqSumAtLeast(s.builds, IsWaiting, b);
  }

  /** No reachable state is stuck before every build has ended. */
  lemma NoDeadlock(s: State, b: BuildId)
    requires Inv(s) && b < |s.builds| && !s.builds[b].pc.Done?
    ensures exists a :: Enabled(s, a) && !a.Submit?
  {
    if m :| 0 <= m < |s.builds| && !Queued(s.builds[m].pc) && !s.builds[m].pc.Done? {
      OwnMoveEnabled(s, m);
      assert Enabled(s, OwnMove(m, s.builds[m].pc));
    } else if s.builds[b].pc.QueuedEngine? || s.engine.queue != [] {
      SumZero(s.builds, EngineOwner);
      assert s.engine.queue != [] by { assert s.builds[b].pc.QueuedEngine? ==> b in s.engine.queue; }
      assert s.engine.queue[0] in s.engine.queue;
      assert Enabled(s, GrantEngine);
    } else {
      forall m | 0 <= m < |s.builds| ensures !s.builds[m].pc.QueuedEngine? {
        assert s.builds[m].pc.QueuedEngine? ==> m in s.engine.queue;
      }
      SumZero(s.builds, BackgroundOwner);
      assert b in s.background.queue;
      assert s.background.queue[0] in s.background.queue;
      assert Enabled(s, GrantBackground);
    }
  }

  lemma NoMembers(q: seq<BuildId>)
    ensures (forall b :: b !in q) ==> q == []
  {
    if q != [] { assert q[0] in q; }
  }

  /** Once all builds have ended, however each did, every permit is back and nothing is counted. */
  lemma EverythingReturned(s: State)
    requires Inv(s) && forall b :: b in s.builds ==> b.pc.Done?
    ensures s.engine == Semaphore(s.permits, []) && s.background == Semaphore(s.permits - 1, [])
    ensures s.inFlight == 0 && s.waiting == 0
  {
    SumZero(s.builds, EngineOwner);
    SumZero(s.builds, BackgroundOwner);
    SumZero(s.builds, InFlight);
    SumZero(s.builds, IsWaiting);
    assert forall b | 0 <= b < |s.builds| :: s.builds[b] in s.builds;
    NoMembers(s.engine.queue);
    NoMembers(s.background.queue);
  }

  lemma StuckMeansDone(s: State)
    requires Inv(s) && forall a :: Enabled(s, a) ==> a.Submit?
    ensures forall b :: b in s.builds ==> b.pc.Done?
  {
    hide Enabled, Inv;
    forall build | build in s.builds ensures build.pc.Done? {
      var b :| 0 <= b < |s.builds| && s.builds[b] == build;
      if !build.pc.Done? { NoDeadlock(s, b); }
    }
  }

  /** Without new submissions a run takes no more steps than its builds have left, and one that cannot go on has
      ended them all and has every permit back. */
  lemma {:induction false} EveryBuildEnds(s: State, actions: seq<Action>)
    requires Inv(s) && IsRun(s, actions) && forall a :: a in actions ==> !a.Submit?
    ensures var s' := Run(s, actions);
            && |actions| + SeqSum(s'.builds, ToGo) <= SeqSum(s.builds, ToGo)
            && ((forall a :: Enabled(s', a) ==> a.Submit?) ==>
                  && (forall b :: b in s'.builds ==> b.pc.Done?)
                  && s'.engine == Semaphore(s.permits, []) && s'.background == Semaphore(s.permits - 1, [])
                  && s'.inFlight == 0 && s'.waiting == 0)
    decreases |actions|
  {
    hide Enabled, Inv, SeqSum;
    if actions == [] {
      if forall a :: Enabled(s, a) ==> a.Submit? {
        StuckMeansDone(s);
        EverythingReturned(s);
      }
    } else {
      assert actions[0] in actions && forall a :: a in actions[1..] ==> a in actions;
      StepsMakeProgress(s, actions[0]);
      InvStep(s, actions[0]);
      assert Apply(s, actions[0]).permits == s.permits;
      hide Apply;
      EveryBuildEnds(Apply(s, actions[0]), actions[1..]);
    }
  }

  // ---- The boundary object ----

  lemma HeadAdmissible(s: State)
    requires Inv(s) && s.engine.free > 0 && s.engine.queue != []
    ensures Enabled(s, GrantEngine)
  {
    assert s.engine.queue[0] in s.engine.queue;
  }

  lemma CountersPositive(s: State, b: BuildId)
    requires Inv(s) && b < |s.builds|
    ensures s.builds[b].pc.Admitted? ==> s.waiting > 0
    ensures s.builds[b].pc.Building? ==> s.inFlight > 0
  {
    SeqSumAtLeast(s.builds, InFlight, b);
    SeqSumAtLeast(s.builds, IsWaiting, b);
  }

  lemma InFlightBounded(s: State)
    requires Inv(s)
    ensures s.inFlight <= s.permits
  {
    SumLe(s.builds, InFlight, EngineOwner);
  }

  /** The permits and counters of the process, moved by one build's path through `with_permit`. */
  class EngineBoundary {
    var engineFree: nat
    var backgroundFree: nat
    var waiting: nat
    var inFlight: nat
    const permits: nat
    ghost var EngineQueue: seq<BuildId>
    ghost var BackgroundQueue: seq<BuildId>
    ghost var Builds: seq<Build>

    ghost function Now(): State reads this {
      State(permits, Semaphore(engineFree, EngineQueue), Semaphore(backgroundFree, BackgroundQueue), Builds, waiting, inFlight)
    }

    ghost predicate Valid() reads this { Inv(Now()) }

    constructor (permits: nat)
      requires permits >= 2
      ensures Valid() && Now() == Init(permits)
    {
      this.permits, engineFree, backgroundFree, waiting, inFlight := permits, permits, permits - 1, 0, 0;
      EngineQueue, BackgroundQueue, Builds := [], [], [];
    }

    /** The head of the engine queue is admitted and starts; it stops counting as waiting. */
    method AdmitNext() returns (ghost b: BuildId)
      requires Valid() && EngineQueue != [] && engineFree > 0
      modifies this
      ensures Valid() && b == old(EngineQueue[0]) && Is(Now(), b, Building)
      ensures engineFree == old(engineFree) - 1 && waiting == old(waiting) - 1 && inFlight == old(inFlight) + 1
      ensures inFlight <= permits
    {
      hide CountsOk, QueuesOk;
      b := EngineQueue[0];
      HeadAdmissible(Now());
      InvStep(Now(), GrantEngine);
      ghost var s1 := Apply(Now(), GrantEngine);
      CountersPositive(s1, b);
      InvStep(s1, BeginBuild(b));
      ghost var s2 := Apply(s1, BeginBuild(b));
      engineFree := engineFree - 1;
      waiting := waiting - 1;
      inFlight := inFlight + 1;
      EngineQueue, Builds := s2.engine.queue, s2.builds;
      InFlightBounded(s2);
    }

    /** However a build ends, it leaves the count and returns exactly the permits it took. */
    method Leave(ghost b: BuildId, background: bool, outcome: Outcome)
      requires Valid() && Is(Now(), b, Building) && Builds[b].background == background
      modifies this
      ensures Valid() && Is(Now(), b, Done(outcome))
      ensures inFlight == old(inFlight) - 1 && waiting == old(waiting)
      ensures engineFree == old(engineFree) + 1
      ensures backgroundFree == old(backgroundFree) + (if background then 1 else 0)
      ensures EngineQueue == old(EngineQueue) && BackgroundQueue == old(BackgroundQueue)
    {
      hide CountsOk, QueuesOk;
      CountersPositive(Now(), b);
      InvStep(Now(), EndBuild(b, outcome));
      ghost var s1 := Apply(Now(), EndBuild(b, outcome));
      InvStep(s1, ReleaseEngine(b));
      ghost var s2 := Apply(s1, ReleaseEngine(b));
      inFlight := inFlight - 1;
      engineFree := engineFree + 1;
      Builds := s2.builds;
      if background {
        InvStep(s2, ReleaseBackground(b));
        backgroundFree := backgroundFree + 1;
        Builds := Apply(s2, ReleaseBackground(b)).builds;
      }
    }
  }
}
