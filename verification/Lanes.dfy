/** Bounded lanes: a queue of jobs and at most `limit` runners that exist only while there is work.
    Models daemon/src/lanes.rs as interleaved steps; each section under the lane's lock is one step. */
module Lanes {
  import opened Common
  import opened Sums

  /** Jobs are numbered in spawn order. */
  type Job = nat

  datatype Runner =
    | Starting             // counted under the lock, its thread not yet asked for
    | ThreadUp             // its thread exists and has not run yet
    | NoThread             // no thread could be spawned; the spawning caller is to drain in its place
    | Fetching             // about to take the lock for the next job
    | Working(job: Job)
    | Unwinding(job: Job)  // the job panicked and its unwinding has not been caught yet
    | Exited

  datatype State = State(
    limit: nat, queue: seq<Job>, running: nat, runners: seq<Runner>,
    spawned: nat, started: seq<Job>, returned: multiset<Job>, panicked: multiset<Job>)

  datatype Action =
    | Spawn
    | ThreadSpawns(r: nat)
    | ThreadRefused(r: nat)
    | ThreadRuns(r: nat)
    | DrainHere(r: nat)
    | Fetch(r: nat)
    | Finish(r: nat)
    | Panic(r: nat)
    | Catch(r: nat)

  function Init(limit: nat): State {
    State(if limit == 0 then 1 else limit, [], 0, [], 0, [], multiset{}, multiset{})
  }

  predicate Enabled(s: State, a: Action) {
    a.Spawn? ||
    (a.r < |s.runners| &&
     var runner := s.runners[a.r];
     match a
     case ThreadSpawns(_) => runner.Starting?
     case ThreadRefused(_) => runner.Starting?
     case ThreadRuns(_) => runner.ThreadUp?
     case DrainHere(_) => runner.NoThread?
     case Fetch(_) => runner.Fetching? && (s.queue == [] ==> s.running > 0)
     case Finish(_) => runner.Working?
     case Panic(_) => runner.Working?
     case Catch(_) => runner.Unwinding?
     case Spawn => true)
  }

  function At(s: State, r: nat, runner: Runner): State
    requires r < |s.runners|
  {
    s.(runners := s.runners[r := runner])
  }

  function Apply(s: State, a: Action): State
    requires Enabled(s, a)
  {
    match a
    case Spawn =>
      var s' := s.(queue := s.queue + [s.spawned], spawned := s.spawned + 1);
      if s.running < s.limit then s'.(running := s.running + 1, runners := s.runners + [Starting]) else s'
    case ThreadSpawns(r) => At(s, r, ThreadUp)
    case ThreadRefused(r) => At(s, r, NoThread)
    case ThreadRuns(r) => At(s, r, Fetching)
    case DrainHere(r) => At(s, r, Fetching)
    case Fetch(r) =>
      if s.queue == [] then At(s, r, Exited).(running := s.running - 1)
      else At(s, r, Working(s.queue[0])).(queue := s.queue[1..], started := s.started + [s.queue[0]])
    case Finish(r) => At(s, r, Fetching).(returned := s.returned + multiset{s.runners[r].job})
    case Panic(r) => At(s, r, Unwinding(s.runners[r].job))
    case Catch(r) => At(s, r, Fetching).(panicked := s.panicked + multiset{s.runners[r].job})
  }

  // ---- The invariant ----

  function Alive(r: Runner): nat { if r.Exited? then 0 else 1 }

  function Busy(r: Runner): nat { if r.Working? || r.Unwinding? then 1 else 0 }

  function Holds(job: Job): Runner -> nat {
    (r: Runner) => if r == Working(job) || r == Unwinding(job) then 1 else 0
  }

  /** Jobs leave the queue in spawn order and each is in exactly one place. */
  ghost predicate JobsOk(s: State) {
    && s.started + s.queue == UpTo(s.spawned)
    && (forall job :: Accounted(s, job))
  }

  /** A started job has returned or been caught panicking, once, or is in one runner's hands; any other,
      neither. */
  ghost predicate Accounted(s: State, job: Job) {
    s.returned[job] + s.panicked[job] + SeqSum(s.runners, Holds(job)) == if job < |s.started| then 1 else 0
  }

  /** The counter counts the live runners, within the limit, and a queued job has one. There are as many of them as there
      are jobs queued or in progress, up to the limit. */
  ghost predicate RunnersOk(s: State) {
    && s.limit >= 1
    && s.running == SeqSum(s.runners, Alive) <= s.limit
    && s.running >= Min(s.limit, |s.queue| + SeqSum(s.runners, Busy))
    && (s.queue != [] ==> s.running > 0)
  }

  ghost predicate Inv(s: State) { JobsOk(s) && RunnersOk(s) }

  lemma InvInit(limit: nat)
    ensures Inv(Init(limit))
  {
  }

  lemma RunnersStep(s: State, a: Action)
    requires Inv(s) && Enabled(s, a)
    ensures RunnersOk(Apply(s, a))
  {
    var s' := Apply(s, a);
    if a.Spawn? {
      SeqSumAppend(s.runners, [Starting], Alive);
      SeqSumAppend(s.runners, [Starting], Busy);
      assert SeqSum([Starting], Alive) == 1 + SeqSum([Starting][1..], Alive);
      assert SeqSum([Starting], Busy) == 0 + SeqSum([Starting][1..], Busy);
    } else {
      assert s'.runners == s.runners[a.r := s'.runners[a.r]];
      SeqSumUpdate(s.runners, Alive, a.r, s'.runners[a.r]);
      SeqSumUpdate(s.runners, Busy, a.r, s'.runners[a.r]);
      SeqSumAtLeast(s'.runners, Alive, a.r);
      BusyAreAlive(s'.runners);
    }
  }

  lemma QueueHead(s: State)
    requires JobsOk(s) && s.queue != []
    ensures s.queue[0] == |s.started| && s.queue == [s.queue[0]] + s.queue[1..]
  {
    assert (s.started + s.queue)[|s.started|] == s.queue[0];
  }

  lemma AccountedStep(s: State, a: Action, job: Job)
    requires Inv(s) && Enabled(s, a)
    ensures Accounted(Apply(s, a), job)
  {
    var s' := Apply(s, a);
    assert Accounted(s, job);
    if a.Spawn? {
      SeqSumAppend(s.runners, [Starting], Holds(job));
      assert SeqSum([Starting], Holds(job)) == 0 + SeqSum([Starting][1..], Holds(job));
    } else {
      if a.Fetch? && s.queue != [] { QueueHead(s); }
      assert s'.runners == s.runners[a.r := s'.runners[a.r]];
      SeqSumUpdate(s.runners, Holds(job), a.r, s'.runners[a.r]);
    }
  }

  lemma JobsStep(s: State, a: Action)
    requires Inv(s) && Enabled(s, a)
    ensures JobsOk(Apply(s, a))
  {
    var s' := Apply(s, a);
    forall job: Job ensures Accounted(s', job) { AccountedStep(s, a, job); }
    hide Accounted;
    if a.Spawn? {
      assert s'.started + s'.queue == UpTo(s.spawned) + [s.spawned];
    } else if a.Fetch? && s.queue != [] {
      QueueHead(s);
      assert s'.started + s'.queue == s.started + s.queue;
    }
  }

  lemma InvStep(s: State, a: Action)
    requires Inv(s) && Enabled(s, a)
    ensures Inv(Apply(s, a))
  {
    RunnersStep(s, a);
    JobsStep(s, a);
  }

  predicate IsRun(s: State, actions: seq<Action>)
    decreases |actions|
  {
    actions == [] || (Enabled(s, actions[0]) && IsRun(Apply(s, actions[0]), actions[1..]))
  }

  function Run(s: State, actions: seq<Action>): State
    requires IsRun(s, actions)
    decreases |actions|
  {
    if actions == [] then s else Run(Apply(s, actions[0]), actions[1..])
  }

  lemma {:induction false} RunKeepsInv(s: State, actions: seq<Action>)
    requires Inv(s) && IsRun(s, actions)
    ensures Inv(Run(s, actions)) && Run(s, actions).limit == s.limit
    decreases |actions|
  {
    if actions != [] {
      assert Apply(s, actions[0]).limit == s.limit;
      InvStep(s, actions[0]);
      RunKeepsInv(Apply(s, actions[0]), actions[1..]);
    }
  }

  lemma {:induction false} BusyAreAlive(runners: seq<Runner>)
    ensures SeqSum(runners, Busy) <= SeqSum(runners, Alive)
  {
    if runners != [] { BusyAreAlive(runners[1..]); }
  }

  /** In every run, panicking jobs and failed thread spawns included: no more jobs are in progress than
      the limit (at least 1), jobs start in spawn order, a waiting job has a live runner, and the lane uses its limit:
      there are as many live runners as jobs waiting or in progress, up to it. */
  lemma LaneIsSafe(limit: nat, actions: seq<Action>)
    requires IsRun(Init(limit), actions)
    ensures var s := Run(Init(limit), actions);
            && s.limit == Max(limit, 1)
            && SeqSum(s.runners, Busy) <= s.running == SeqSum(s.runners, Alive) <= s.limit
            && s.running >= Min(s.limit, |s.queue| + SeqSum(s.runners, Busy))
            && s.started == UpTo(|s.started|)
            && (s.queue != [] ==> exists r :: 0 <= r < |s.runners| && !s.runners[r].Exited?)
  {
    InvInit(limit);
    RunKeepsInv(Init(limit), actions);
    var s := Run(Init(limit), actions);
    BusyAreAlive(s.runners);
    assert s.started == (s.started + s.queue)[..|s.started|];
    if s.queue != [] { var _ := SomeoneAlive(s.runners); }
  }

  lemma {:induction false} SomeoneAlive(runners: seq<Runner>) returns (r: nat)
    requires SeqSum(runners, Alive) > 0
    ensures r < |runners| && !runners[r].Exited?
  {
    if !runners[0].Exited? {
      r := 0;
    } else {
      r := SomeoneAlive(runners[1..]);
      r := r + 1;
    }
  }

  // ---- No stranded work ----

  function Steps(r: Runner): nat {
    match r
    case Starting => 3
    case ThreadUp => 2
    case NoThread => 2
    case Fetching => 1
    case Working(_) => 3
    case Unwinding(_) => 2
    case Exited => 0
  }

  function Work(s: State): nat { 3 * |s.queue| + SeqSum(s.runners, Steps) }

  /** Without new jobs every step brings the lane nearer to idle. */
  lemma StepsMakeProgress(s: State, a: Action)
    requires Inv(s) && Enabled(s, a) && !a.Spawn?
    ensures Work(Apply(s, a)) < Work(s)
  {
    var s' := Apply(s, a);
    assert s'.runners == s.runners[a.r := s'.runners[a.r]];
    SeqSumUpdate(s.runners, Steps, a.r, s'.runners[a.r]);
  }

  function NextStep(r: nat, runner: Runner): Action {
    match runner
    case Starting => ThreadSpawns(r)
    case ThreadUp => ThreadRuns(r)
    case NoThread => DrainHere(r)
    case Fetching => Fetch(r)
    case Working(_) => Finish(r)
    case Unwinding(_) => Catch(r)
    case Exited => Spawn
  }

  lemma SomeStep(s: State) returns (a: Action)
    requires RunnersOk(s) && s.running > 0
    ensures Enabled(s, a) && !a.Spawn?
  {
    var r := SomeoneAlive(s.runners);
    a := NextStep(r, s.runners[r]);
  }

  /** A lane that can only wait for new jobs has ended every job it was ever given, once: by its return or by
      a panic that was caught. */
  lemma IdleMeansDone(s: State)
    requires Inv(s) && forall a :: Enabled(s, a) ==> a.Spawn?
    ensures s.queue == [] && s.running == 0
    ensures forall job: Job :: s.returned[job] + s.panicked[job] == if job < s.spawned then 1 else 0
  {
    if s.running > 0 { var _ := SomeStep(s); }
    assert s.queue == [];
    assert s.started + [] == s.started;
    forall job: Job ensures s.returned[job] + s.panicked[job] == if job < s.spawned then 1 else 0 {
      NobodyHolds(s.runners, job);
      assert Accounted(s, job);
    }
  }

  lemma {:induction false} NobodyHolds(runners: seq<Runner>, job: Job)
    requires SeqSum(runners, Alive) == 0
    ensures SeqSum(runners, Holds(job)) == 0
  {
    if runners != [] { NobodyHolds(runners[1..], job); }
  }

  // ---- The lane object ----

  /** The lane's lock-protected sections, each a step of the model. */
  class Lane {
    const limit: nat
    var queue: seq<Job>
    var running: nat
    ghost var Runners: seq<Runner>
    ghost var Spawned: nat
    ghost var Started: seq<Job>
    ghost var Returned: multiset<Job>
    ghost var Panicked: multiset<Job>

    ghost function Now(): State reads this { State(limit, queue, running, Runners, Spawned, Started, Returned, Panicked) }

    ghost predicate Valid() reads this { Inv(Now()) }

    constructor (limit: nat)
      ensures Now() == Init(limit) && Valid() && this.limit == Max(limit, 1)
    {
      this.limit := if limit == 0 then 1 else limit;
      queue, running, Runners, Spawned, Started, Returned, Panicked := [], 0, [], 0, [], multiset{}, multiset{};
    }

    ghost method Record(s: State)
      modifies this`Runners, this`Spawned, this`Started, this`Returned, this`Panicked
      ensures Runners == s.runners && Spawned == s.spawned && Started == s.started
      ensures Returned == s.returned && Panicked == s.panicked
    {
      Runners, Spawned, Started, Returned, Panicked := s.runners, s.spawned, s.started, s.returned, s.panicked;
    }

    /** Queues a job; `start` asks the caller to start a runner, which is already counted. */
    method SpawnJob(job: Job) returns (start: bool)
      requires Valid() && job == Spawned
      modifies this
      ensures Valid() && Now() == Apply(old(Now()), Spawn)
      ensures start <==> |Runners| == |old(Runners)| + 1
      ensures queue == old(queue) + [job] && running == old(running) + (if start then 1 else 0)
      ensures Min(limit, |queue| + SeqSum(Runners, Busy)) <= running <= limit
    {
      InvStep(Now(), Spawn);
      ghost var next := Apply(Now(), Spawn);
      queue := queue + [job];
      start := running < limit;
      if start { running := running + 1; }
      Record(next);
    }

    /** One turn of a runner's loop under the lock: the next job, or none and the runner is gone. */
    method NextJob(ghost r: nat) returns (job: Option<Job>)
      requires Valid() && r < |Runners| && Runners[r].Fetching?
      modifies this
      ensures Enabled(old(Now()), Fetch(r)) && Valid() && Now() == Apply(old(Now()), Fetch(r))
      ensures Runners[r] == if job.Some? then Working(job.value) else Exited
    {
      SeqSumAtLeast(Runners, Alive, r);
      InvStep(Now(), Fetch(r));
      ghost var next := Apply(Now(), Fetch(r));
      if queue == [] {
        running := running - 1;
        job := None;
      } else {
        job := Some(queue[0]);
        queue := queue[1..];
      }
      Record(next);
    }

    /** A runner with nobody else at work: it runs what is queued, panics or not, then leaves. */
    method Drain(ghost r: nat)
      requires Valid() && r < |Runners| && Runners[r].Fetching?
      modifies this
      ensures Valid() && queue == [] && running == old(running) - 1
      ensures Started == old(Started + queue)
      ensures Returned + Panicked == old(Returned + Panicked) + multiset(old(queue))
    {
      ghost var queue0 := queue;
      while true
        invariant Valid() && r < |Runners| && Runners[r].Fetching? && running == old(running)
        invariant Started + queue == old(Started) + queue0
        invariant Returned + Panicked + multiset(queue) == old(Returned + Panicked) + multiset(queue0)
        decreases |queue|
      {
        ghost var before := queue;
        var job := NextJob(r);
        if job.None? {
          return;
        }
        assert before == [before[0]] + before[1..];
        hide Inv;
        var panics: bool := *;
        if panics {
          InvStep(Now(), Panic(r));
          Record(Apply(Now(), Panic(r)));
          InvStep(Now(), Catch(r));
          Record(Apply(Now(), Catch(r)));
        } else {
          InvStep(Now(), Finish(r));
          Record(Apply(Now(), Finish(r)));
        }
      }
    }
  }
}
