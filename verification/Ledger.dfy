/** The aggregate source-byte ledger of one build: reservations made before a read, settled to the
    bytes read, and kept for what is recorded. Models daemon/src/engine/plugin.rs, the three atomic
    counter updates and the asset paths of `load` and `module_parsed`, over any number of concurrent
    loads. */
module Ledger {
  import opened Common
  import opened Sums

  type Path = string

  // ---- The counter ----

  function Reserve(total: nat, bytes: nat, limit: nat): Option<nat> {
    if total + bytes <= limit then Some(total + bytes) else None
  }

  /** The counter of one build. */
  class SourceBytes {
    var total: nat
    const limit: nat

    constructor (limit: nat)
      ensures total == 0 && this.limit == limit
    {
      total, this.limit := 0, limit;
    }

    /** All or nothing: a reservation that does not fit changes nothing. */
    method TryReserve(bytes: nat) returns (ok: bool)
      requires total <= limit
      modifies this
      ensures total <= limit
      ensures ok <==> old(total) + bytes <= limit
      ensures total == old(total) + (if ok then bytes else 0)
    {
      var next := Reserve(total, bytes, limit);
      ok := next.Some?;
      if ok { total := next.value; }
    }

    /** The caller owns a reservation of at least `bytes`. */
    method Release(bytes: nat)
      requires bytes <= total <= limit
      modifies this
      ensures total == old(total) - bytes <= limit
    {
      total := total - bytes;
    }

    /** Turns a reservation into one of the exact length. When growth does not fit, the original
        reservation is intact. */
    method Reconcile(reserved: nat, actual: nat) returns (ok: bool)
      requires reserved <= total <= limit
      modifies this
      ensures total <= limit
      ensures ok <==> old(total) - reserved + actual <= limit
      ensures total == if ok then old(total) - reserved + actual else old(total)
    {
      if actual < reserved {
        Release(reserved - actual);
        ok := true;
      } else if actual == reserved {
        ok := true;
      } else {
        ok := TryReserve(actual - reserved);
      }
    }
  }

  // ---- Concurrent loads ----

  /** A counted asset ships and is measured; an unmeasured one ships and is only disclosed. */
  datatype AssetClass = Counted | Unmeasured

  datatype Pc =
    | Reading(reserved: nat)
    | Settling(reserved: nat, actual: nat)   // read, not yet reconciled
    | Refused(reserved: nat)                 // too large or no room to grow; about to give back
    | Settled(actual: nat)
    | Duplicate(actual: nat)                 // another load owns the path; about to give back
    | Ended

  datatype Load = Load(path: Path, class_: AssetClass, pc: Pc)

  /** `counted` and `unmeasured` are the maps the build reports. `charged` keeps, for each unmeasured
      path, the length its first load was charged. */
  datatype State = State(
    limit: nat, moduleLimit: nat, total: nat, loads: seq<Load>,
    counted: map<Path, nat>, unmeasured: map<Path, nat>, charged: map<Path, nat>, parsed: seq<nat>)

  datatype Action =
    | Begin(path: Path, class_: AssetClass, length: nat)
    | ReadFails(l: nat)
    | ReadDone(l: nat, actual: nat)
    | Reconcile(l: nat)
    | GiveBack(l: nat)
    | Record(l: nat)
    | Parse(bytes: nat)

  function Init(limit: nat, moduleLimit: nat): State {
    State(limit, moduleLimit, 0, [], map[], map[], map[], [])
  }

  predicate Enabled(s: State, a: Action) {
    match a
    case Begin(_, _, _) => true
    case Parse(_) => true
    case ReadFails(l) => l < |s.loads| && s.loads[l].pc.Reading?
    case ReadDone(l, _) => l < |s.loads| && s.loads[l].pc.Reading?
    case Reconcile(l) => l < |s.loads| && s.loads[l].pc.Settling?
    case GiveBack(l) => l < |s.loads| && (s.loads[l].pc.Refused? || s.loads[l].pc.Duplicate?)
    case Record(l) => l < |s.loads| && s.loads[l].pc.Settled?
  }

  function At(s: State, l: nat, pc: Pc): State
    requires l < |s.loads|
  {
    s.(loads := s.loads[l := s.loads[l].(pc := pc)])
  }

  /** What a load holds in the counter. */
  function Held(load: Load): nat {
    match load.pc
    case Reading(reserved) => reserved
    case Settling(reserved, _) => reserved
    case Refused(reserved) => reserved
    case Settled(actual) => actual
    case Duplicate(actual) => actual
    case Ended => 0
  }

  function GivenBack(s: State, bytes: nat): State { s.(total := if bytes <= s.total then s.total - bytes else 0) }

  function Apply(s: State, a: Action): State
    requires Enabled(s, a)
  {
    match a
    case Begin(path, class_, length) =>
      if length > s.moduleLimit then s
      else
        var reserved := Reserve(s.total, length, s.limit);
        if reserved.None? then s
        else s.(total := reserved.value, loads := s.loads + [Load(path, class_, Reading(length))])
    case ReadFails(l) => GivenBack(At(s, l, Ended), Held(s.loads[l]))
    case ReadDone(l, actual) => At(s, l, Settling(s.loads[l].pc.reserved, actual))
    case Reconcile(l) =>
      var reserved, actual := s.loads[l].pc.reserved, s.loads[l].pc.actual;
      if actual > s.moduleLimit then At(s, l, Refused(reserved))
      else if actual <= reserved then GivenBack(At(s, l, Settled(actual)), reserved - actual)
      else
        var grown := Reserve(s.total, actual - reserved, s.limit);
        if grown.None? then At(s, l, Refused(reserved)) else At(s, l, Settled(actual)).(total := grown.value)
    case GiveBack(l) => GivenBack(At(s, l, Ended), Held(s.loads[l]))
    case Record(l) =>
      var path, actual := s.loads[l].path, s.loads[l].pc.actual;
      if s.loads[l].class_.Counted? then
        if path in s.counted then At(s, l, Duplicate(actual))
        else At(s, l, Ended).(counted := s.counted[path := actual])
      else
        // The disclosure map is overwritten even when the path was already there.
        var s' := s.(unmeasured := s.unmeasured[path := actual]);
        if path in s.unmeasured then At(s', l, Duplicate(actual))
        else At(s', l, Ended).(charged := s.charged[path := actual])
    case Parse(bytes) =>
      if bytes > s.moduleLimit then s
      else
        var reserved := Reserve(s.total, bytes, s.limit);
        if reserved.None? then s else s.(total := reserved.value, parsed := s.parsed + [bytes])
  }

  // ---- Conservation ----

  function Length(n: nat): nat { n }

  ghost function Recorded(m: map<Path, nat>): nat { MapSum(m, Length) }

  /** What really is in use: the live reservations, each recorded path's first length and the parsed sources. */
  ghost function Used(s: State): nat {
    SeqSum(s.loads, Held) + Recorded(s.counted) + Recorded(s.charged) + SeqSum(s.parsed, Length)
  }

  /** The counter is what is in use, and stays within the limit. */
  ghost predicate Conserved(s: State) {
    && s.total == Used(s)
    && s.total <= s.limit
    && s.charged.Keys == s.unmeasured.Keys
  }

  lemma ConservedInit(limit: nat, moduleLimit: nat)
    ensures Conserved(Init(limit, moduleLimit))
  {
  }

  lemma HeldStep(s: State, l: nat, pc: Pc)
    requires l < |s.loads|
    ensures SeqSum(At(s, l, pc).loads, Held) + Held(s.loads[l]) == SeqSum(s.loads, Held) + Held(s.loads[l].(pc := pc))
    ensures SeqSum(s.loads, Held) >= Held(s.loads[l])
  {
    SeqSumUpdate(s.loads, Held, l, s.loads[l].(pc := pc));
    SeqSumAtLeast(s.loads, Held, l);
  }

  lemma AppendOne<T>(xs: seq<T>, x: T, f: T -> nat)
    ensures SeqSum(xs + [x], f) == SeqSum(xs, f) + f(x)
  {
    SeqSumAppend(xs, [x], f);
    assert [x][1..] == [];
  }

  lemma GivingBackConserves(s: State, a: Action)
    requires Conserved(s) && Enabled(s, a) && (a.ReadFails? || a.GiveBack?)
    ensures Conserved(Apply(s, a))
  {
    HeldStep(s, a.l, Ended);
    hide SeqSum, Recorded;
  }

  /** A step that touches only one load and the counter, by the same amount. */
  lemma HeldMoves(s: State, l: nat, pc: Pc, total: nat)
    requires Conserved(s) && l < |s.loads| && total <= s.limit
    requires total - s.total == Held(s.loads[l].(pc := pc)) - Held(s.loads[l])
    ensures Conserved(At(s, l, pc).(total := total))
  {
    HeldStep(s, l, pc);
    hide SeqSum, Recorded, Held;
  }

  lemma SettlingMoves(s: State, a: Action)
    requires Enabled(s, a) && (a.ReadDone? || a.Reconcile?) && Held(s.loads[a.l]) <= s.total <= s.limit
    ensures var s' := Apply(s, a);
            && a.l < |s'.loads| && s' == At(s, a.l, s'.loads[a.l].pc).(total := s'.total) && s'.total <= s.limit
            && s'.total - s.total == Held(s.loads[a.l].(pc := s'.loads[a.l].pc)) - Held(s.loads[a.l])
  {
  }

  lemma SettlingConserves(s: State, a: Action)
    requires Conserved(s) && Enabled(s, a) && (a.ReadDone? || a.Reconcile?)
    ensures Conserved(Apply(s, a))
  {
    SeqSumAtLeast(s.loads, Held, a.l);
    SettlingMoves(s, a);
    HeldMoves(s, a.l, Apply(s, a).loads[a.l].pc, Apply(s, a).total);
    hide SeqSum, Recorded, Conserved, Apply, Enabled, Held;
  }

  lemma RecordedPut(m: map<Path, nat>, path: Path, length: nat)
    requires path !in m
    ensures Recorded(m[path := length]) == Recorded(m) + length
  {
    MapSumUpdate(m, Length, path, length);
  }

  lemma RecordingConserves(s: State, l: nat)
    requires Conserved(s) && Enabled(s, Record(l))
    ensures Conserved(Apply(s, Record(l)))
  {
    var path, actual := s.loads[l].path, s.loads[l].pc.actual;
    assert Held(s.loads[l]) == Held(s.loads[l].(pc := Duplicate(actual))) == actual && Held(s.loads[l].(pc := Ended)) == 0;
    HeldStep(s, l, Apply(s, Record(l)).loads[l].pc);
    if path !in s.counted { RecordedPut(s.counted, path, actual); }
    if path !in s.charged { RecordedPut(s.charged, path, actual); }
    hide SeqSum, Recorded, Held;
  }

  lemma ConservedStep(s: State, a: Action)
    requires Conserved(s) && Enabled(s, a)
    ensures Conserved(Apply(s, a))
  {
    match a
    case Begin(path, class_, length) => AppendOne(s.loads, Load(path, class_, Reading(length)), Held);
    case Parse(bytes) => AppendOne(s.parsed, bytes, Length);
    case Record(l) => RecordingConserves(s, l);
    case _ => if a.ReadFails? || a.GiveBack? { GivingBackConserves(s, a); } else { SettlingConserves(s, a); }
  }

  /** What a step gives back is always there to give. */
  lemma ReleaseNeverUnderflows(s: State, l: nat)
    requires Conserved(s) && l < |s.loads|
    ensures Held(s.loads[l]) <= s.total
  {
    SeqSumAtLeast(s.loads, Held, l);
  }

  predicate IsRun(s: State, actions: seq<Action>)
    decreases |actions|
  {
    actions == [] || (Enabled(s, actions[0]) && IsRun(Apply(s, actions[0]), actions[1..]))
  }

  function Run(s: State, actions: seq<Action>): State
    requires IsRun(s, actions)
    decreases |actions|
  {
    if actions == [] then s else Run(Apply(s, actions[0]), actions[1..])
  }

  lemma {:induction false} RunConserves(s: State, actions: seq<Action>)
    requires Conserved(s) && IsRun(s, actions)
    ensures Conserved(Run(s, actions))
    ensures Run(s, actions).limit == s.limit && Run(s, actions).moduleLimit == s.moduleLimit
    decreases |actions|
  {
    if actions != [] {
      hide Conserved, Enabled;
      assert Apply(s, actions[0]).limit == s.limit && Apply(s, actions[0]).moduleLimit == s.moduleLimit;
      ConservedStep(s, actions[0]);
      RunConserves(Apply(s, actions[0]), actions[1..]);
    }
  }

  lemma {:induction false} EndedHoldNothing(loads: seq<Load>)
    requires forall load :: load in loads ==> load.pc.Ended?
    ensures SeqSum(loads, Held) == 0
  {
    if loads != [] { EndedHoldNothing(loads[1..]); }
  }

  /** In every interleaving the counter stays within the limit, and once all loads have ended it is
      exactly the recorded lengths and the parsed sources: no failed, refused or duplicate load is
      left in it. */
  lemma NothingLeaks(limit: nat, moduleLimit: nat, actions: seq<Action>)
    requires IsRun(Init(limit, moduleLimit), actions)
    ensures var s := Run(Init(limit, moduleLimit), actions);
            && s.total <= limit
            && ((forall load :: load in s.loads ==> load.pc.Ended?) ==>
                  s.total == Recorded(s.counted) + Recorded(s.charged) + SeqSum(s.parsed, Length))
  {
    ConservedInit(limit, moduleLimit);
    RunConserves(Init(limit, moduleLimit), actions);
    var s := Run(Init(limit, moduleLimit), actions);
    if forall load :: load in s.loads ==> load.pc.Ended? { EndedHoldNothing(s.loads); }
  }

  // ---- Refusals ----

  /** A refused load or module, in the counter's terms. */
  predicate Refuses(s: State, a: Action) {
    match a
    case Begin(_, _, length) => length > s.moduleLimit || s.total + length > s.limit
    case Parse(bytes) => bytes > s.moduleLimit || s.total + bytes > s.limit
    case _ => false
  }

  /** Who is refused in a state, in terms of what is in use. */
  ghost predicate RefusesOnlyWhenFull(s: State) {
    && (forall path, class_, n: nat ::
          Apply(s, Begin(path, class_, n)).loads == s.loads <==> n > s.moduleLimit || Used(s) + n > s.limit)
    && (forall n: nat :: Apply(s, Parse(n)).parsed == s.parsed <==> n > s.moduleLimit || Used(s) + n > s.limit)
    && (forall l: nat :: Enabled(s, Reconcile(l)) ==> ReconcileRefuses(s, l))
  }

  /** A read that grew is refused exactly when it does not fit beside what the others use. */
  ghost predicate ReconcileRefuses(s: State, l: nat)
    requires Enabled(s, Reconcile(l))
  {
    var actual := s.loads[l].pc.actual;
    Apply(s, Reconcile(l)).loads[l].pc.Refused? <==>
      actual > s.moduleLimit || Used(s) - Held(s.loads[l]) + actual > s.limit
  }

  lemma ReconcileIs(s: State, l: nat)
    requires Conserved(s) && Enabled(s, Reconcile(l))
    ensures ReconcileRefuses(s, l)
  {
    assert Used(s) == s.total;
    hide Used, Conserved;
  }

  lemma ConservedRefuses(s: State)
    requires Conserved(s)
    ensures RefusesOnlyWhenFull(s)
  {
    assert Used(s) == s.total;
    forall l: nat | Enabled(s, Reconcile(l)) ensures ReconcileRefuses(s, l) { ReconcileIs(s, l); }
    hide Used, Conserved, Held;
    forall path, class_, n: nat
      ensures Apply(s, Begin(path, class_, n)).loads == s.loads <==> n > s.moduleLimit || Used(s) + n > s.limit
    {
      assert |s.loads + [Load(path, class_, Reading(n))]| != |s.loads|;
    }
    forall n: nat ensures Apply(s, Parse(n)).parsed == s.parsed <==> n > s.moduleLimit || Used(s) + n > s.limit {
      assert |s.parsed + [n]| != |s.parsed|;
    }
  }

  /** No follow-on refusals: after any run, whatever was refused, failed or repeated in it, a load or a module
      is refused exactly when it is too large itself or does not fit beside what really is in use, and a read
      that grew exactly when it does not fit beside what the others use. */
  lemma RefusedOnlyWhenFull(limit: nat, moduleLimit: nat, actions: seq<Action>)
    requires IsRun(Init(limit, moduleLimit), actions)
    ensures var s := Run(Init(limit, moduleLimit), actions);
            RefusesOnlyWhenFull(s) && s.limit == limit && s.moduleLimit == moduleLimit
  {
    ConservedInit(limit, moduleLimit);
    RunConserves(Init(limit, moduleLimit), actions);
    ConservedRefuses(Run(Init(limit, moduleLimit), actions));
  }

  /** The run without its refused loads and modules. */
  function Admitted(s: State, actions: seq<Action>): seq<Action>
    requires IsRun(s, actions)
    decreases |actions|
  {
    if actions == [] then []
    else (if Refuses(s, actions[0]) then [] else [actions[0]]) + Admitted(Apply(s, actions[0]), actions[1..])
  }

  /** So refusals leave no trace in the ledger: as to the counter, the loads and what is recorded, any run ends as it would
      have without them, all later decisions included. (A refusal also marks the build as failed, which lies outside
      this state.) */
  lemma {:induction false} RefusalsLeaveNoTrace(s: State, actions: seq<Action>)
    requires IsRun(s, actions)
    ensures var admitted := Admitted(s, actions);
            IsRun(s, admitted) && Run(s, admitted) == Run(s, actions) && Admitted(s, admitted) == admitted
    decreases |actions|
  {
    if actions != [] {
      var a, rest := actions[0], actions[1..];
      RefusalsLeaveNoTrace(Apply(s, a), rest);
      assert Refuses(s, a) ==> Apply(s, a) == s;
      assert Refuses(s, a) ==> [] + Admitted(Apply(s, a), rest) == Admitted(s, rest);
      hide Apply, Enabled;
      assert ([a] + Admitted(Apply(s, a), rest))[1..] == Admitted(Apply(s, a), rest);
    }
  }

  // ---- Every load ends ----

  function StepsLeft(load: Load): nat {
    match load.pc
    case Reading(_) => 4
    case Settling(_, _) => 3
    case Settled(_) => 2
    case Refused(_) => 1
    case Duplicate(_) => 1
    case Ended => 0
  }

  /** The step a load can take now. */
  function NextStep(l: nat, pc: Pc): Action {
    match pc
    case Reading(reserved) => ReadDone(l, reserved)
    case Settling(_, _) => Reconcile(l)
    case Settled(_) => Record(l)
    case Refused(_) => GiveBack(l)
    case Duplicate(_) => GiveBack(l)
    case Ended => Parse(0)
  }

  predicate NoArrivals(actions: seq<Action>) { forall a :: a in actions ==> !a.Begin? && !a.Parse? }

  /** No load can move exactly when all have ended. */
  lemma IdleMeansEnded(s: State)
    ensures (forall a :: Enabled(s, a) ==> a.Begin? || a.Parse?) <==> (forall load :: load in s.loads ==> load.pc.Ended?)
  {
    forall l: nat | l < |s.loads|
      ensures s.loads[l].pc.Ended? || (Enabled(s, NextStep(l, s.loads[l].pc)) && !NextStep(l, s.loads[l].pc).Parse?)
    {
    }
  }

  lemma LoadAdvances(s: State, a: Action)
    requires Enabled(s, a) && !a.Begin? && !a.Parse?
    ensures a.l < |s.loads| == |Apply(s, a).loads|
    ensures var load := Apply(s, a).loads[a.l];
            StepsLeft(load) < StepsLeft(s.loads[a.l]) && Apply(s, a).loads == s.loads[a.l := load]
  {
  }

  lemma LoadStep(s: State, a: Action)
    requires Enabled(s, a) && !a.Begin? && !a.Parse?
    ensures SeqSum(Apply(s, a).loads, StepsLeft) < SeqSum(s.loads, StepsLeft)
  {
    LoadAdvances(s, a);
    hide Apply, Enabled, SeqSum;
    SeqSumUpdate(s.loads, StepsLeft, a.l, Apply(s, a).loads[a.l]);
  }

  /** Until its end a load has a next step, and loads alone take no more steps than are left to them: a run of
      them that cannot go on has ended them all. */
  lemma {:induction false} EveryLoadEnds(s: State, actions: seq<Action>)
    requires IsRun(s, actions) && NoArrivals(actions)
    ensures |actions| + SeqSum(Run(s, actions).loads, StepsLeft) <= SeqSum(s.loads, StepsLeft)
    ensures (forall a :: Enabled(Run(s, actions), a) ==> a.Begin? || a.Parse?) <==>
            (forall load :: load in Run(s, actions).loads ==> load.pc.Ended?)
    decreases |actions|
  {
    hide Enabled, Apply, SeqSum;
    if actions == [] {
      IdleMeansEnded(s);
    } else {
      assert actions[0] in actions && forall x :: x in actions[1..] ==> x in actions;
      LoadStep(s, actions[0]);
      EveryLoadEnds(Apply(s, actions[0]), actions[1..]);
    }
  }

  // ---- What is recorded ----

  /** The length a step records for a path, read as an asset of this class, if it does. */
  function ReadNow(s: State, a: Action, class_: AssetClass, path: Path): (lengths: seq<nat>)
    requires Enabled(s, a)
    ensures |lengths| <= 1
  {
    if a.Record? && s.loads[a.l].class_ == class_ && s.loads[a.l].path == path then [s.loads[a.l].pc.actual] else []
  }

  /** The lengths a run's reads of a path recorded, in order. */
  function Reads(s: State, actions: seq<Action>, class_: AssetClass, path: Path): seq<nat>
    requires IsRun(s, actions)
    decreases |actions|
  {
    if actions == [] then []
    else ReadNow(s, actions[0], class_, path) + Reads(Apply(s, actions[0]), actions[1..], class_, path)
  }

  lemma CountedStep(s: State, a: Action, path: Path)
    requires Enabled(s, a)
    ensures var s', now := Apply(s, a), ReadNow(s, a, Counted, path);
            && (path in s'.counted <==> path in s.counted || now != [])
            && (path in s'.counted ==> s'.counted[path] == if path in s.counted then s.counted[path] else now[0])
  {
  }

  /** The build reports a counted path exactly when some load recorded it, at the first recorded length, whatever later
      reads of it found. */
  lemma {:induction false} FirstCounts(s: State, actions: seq<Action>, path: Path)
    requires IsRun(s, actions)
    ensures var s', lengths := Run(s, actions), Reads(s, actions, Counted, path);
            && (path in s'.counted <==> path in s.counted || lengths != [])
            && (path in s'.counted ==> s'.counted[path] == if path in s.counted then s.counted[path] else lengths[0])
    decreases |actions|
  {
    if actions != [] {
      hide Apply, Enabled, ReadNow;
      CountedStep(s, actions[0], path);
      FirstCounts(Apply(s, actions[0]), actions[1..], path);
    }
  }

  /** The loads a run admits, as they begin. */
  function Begun(s: State, actions: seq<Action>): (begun: seq<Load>)
    requires IsRun(s, actions)
    ensures forall load :: load in begun ==> load.pc.Reading?
    decreases |actions|
  {
    if actions == [] then []
    else
      var a := actions[0];
      (if a.Begin? && !Refuses(s, a) then [Load(a.path, a.class_, Reading(a.length))] else []) + Begun(Apply(s, a), actions[1..])
  }

  /** The length a load reserved before its read, while it holds that. */
  function Asked(pc: Pc): Option<nat> {
    match pc
    case Reading(reserved) => Some(reserved)
    case Settling(reserved, _) => Some(reserved)
    case Refused(reserved) => Some(reserved)
    case _ => None
  }

  /** `now` is the load `then_`, further on. */
  predicate SameLoad(then_: Load, now: Load) {
    && now.path == then_.path && now.class_ == then_.class_
    && (Asked(now.pc).Some? ==> Asked(now.pc) == Asked(then_.pc))
  }

  lemma SameLoadReflexive(load: Load)
    ensures SameLoad(load, load)
  {
  }

  lemma SameLoadTransitive(a: Load, b: Load, c: Load)
    requires SameLoad(a, b) && SameLoad(b, c)
    ensures SameLoad(a, c)
  {
  }

  lemma LoadsKept(s: State, a: Action)
    requires Enabled(s, a)
    ensures var s' := Apply(s, a);
            && |s'.loads| == |s.loads| + (if a.Begin? && !Refuses(s, a) then 1 else 0)
            && (forall l :: 0 <= l < |s.loads| ==> SameLoad(s.loads[l], s'.loads[l]))
            && (a.Begin? && !Refuses(s, a) ==> s'.loads[|s.loads|] == Load(a.path, a.class_, Reading(a.length)))
            && s'.parsed == s.parsed + (if a.Parse? && !Refuses(s, a) then [a.bytes] else [])
  {
    forall l: nat | l < |s.loads| ensures l < |Apply(s, a).loads| && SameLoad(s.loads[l], Apply(s, a).loads[l]) { LoadKept(s, a, l); }
    hide SameLoad;
  }

  lemma LoadKept(s: State, a: Action, l: nat)
    requires Enabled(s, a) && l < |s.loads|
    ensures l < |Apply(s, a).loads| && SameLoad(s.loads[l], Apply(s, a).loads[l])
  {
    if a.Begin? || a.Parse? || a.l != l {
      OthersStay(s, a, l);
      SameLoadReflexive(s.loads[l]);
    } else {
      OwnKept(s, a);
    }
    hide Apply, Enabled, SameLoad;
  }

  lemma OwnKept(s: State, a: Action)
    requires Enabled(s, a) && !a.Begin? && !a.Parse?
    ensures a.l < |Apply(s, a).loads| && SameLoad(s.loads[a.l], Apply(s, a).loads[a.l])
  {
  }

  /** The sources a run admits. */
  function Sources(s: State, actions: seq<Action>): seq<nat>
    requires IsRun(s, actions)
    decreases |actions|
  {
    if actions == [] then []
    else
      var a := actions[0];
      (if a.Parse? && !Refuses(s, a) then [a.bytes] else []) + Sources(Apply(s, a), actions[1..])
  }

  /** After a run there are the loads it began with and those it admitted, and likewise the sources; */
  lemma {:induction false} CountsAreBegun(s: State, actions: seq<Action>)
    requires IsRun(s, actions)
    ensures |Run(s, actions).loads| == |s.loads| + |Begun(s, actions)|
    ensures Run(s, actions).parsed == s.parsed + Sources(s, actions)
    decreases |actions|
  {
    if actions == [] {
      assert s.parsed + [] == s.parsed;
    } else {
      hide Apply, Enabled, Refuses, SameLoad;
      LoadsKept(s, actions[0]);
      CountsAreBegun(Apply(s, actions[0]), actions[1..]);
    }
  }

  /** they come in that order, each of its own path and class and holding the length it asked for until its read settles. */
  lemma {:induction false} LoadIsBegun(s: State, actions: seq<Action>, l: nat)
    requires IsRun(s, actions) && l < |s.loads + Begun(s, actions)|
    ensures l < |Run(s, actions).loads| && SameLoad((s.loads + Begun(s, actions))[l], Run(s, actions).loads[l])
    decreases |actions|
  {
    if actions == [] {
      SameLoadReflexive(s.loads[l]);
    } else {
      hide Apply, Enabled, Refuses, SameLoad;
      var s1 := Apply(s, actions[0]);
      LoadsKept(s, actions[0]);
      var all, all1 := s.loads + Begun(s, actions), s1.loads + Begun(s1, actions[1..]);
      assert |all1| == |all|;
      LoadIsBegun(s1, actions[1..], l);
      if l < |s.loads| {
        SameLoadTransitive(all[l], all1[l], Run(s, actions).loads[l]);
      } else {
        assert all1[l] == all[l];
      }
    }
  }

  /** The length a load's read found, once it has. */
  function Found(pc: Pc): Option<nat> {
    match pc
    case Settling(_, actual) => Some(actual)
    case Settled(actual) => Some(actual)
    case Duplicate(actual) => Some(actual)
    case _ => None
  }

  /** A length that a load carries is the one its read reported. */
  lemma {:induction false} LengthsAreRead(s: State, actions: seq<Action>, l: nat)
    requires IsRun(s, actions) && l < |Run(s, actions).loads|
    ensures var found := Found(Run(s, actions).loads[l].pc);
            found.Some? ==> ReadDone(l, found.value) in actions || (l < |s.loads| && Found(s.loads[l].pc) == found)
    decreases |actions|
  {
    if actions != [] {
      if l < |Apply(s, actions[0]).loads| { FoundStep(s, actions[0], l); }
      LengthsAreRead(Apply(s, actions[0]), actions[1..], l);
      hide Apply, Enabled, Found;
      assert actions == [actions[0]] + actions[1..];
    }
  }

  lemma FoundStep(s: State, a: Action, l: nat)
    requires Enabled(s, a) && l < |Apply(s, a).loads|
    ensures var found := Found(Apply(s, a).loads[l].pc);
            found.Some? ==> a == ReadDone(l, found.value) || (l < |s.loads| && Found(s.loads[l].pc) == found)
  {
  }

  /** The build reports the load's path, in the map of its class. */
  predicate Reports(s: State, load: Load) {
    load.path in (if load.class_.Counted? then s.counted else s.unmeasured)
  }

  /** The read of this load did not settle: too large for a module, or it grew and did not fit beside what is in use. */
  ghost predicate WasRefused(s: State, actions: seq<Action>, l: nat)
    requires IsRun(s, actions)
    decreases |actions|
  {
    actions != [] && (RefusedNow(s, actions[0], l) || WasRefused(Apply(s, actions[0]), actions[1..], l))
  }

  predicate RefusedNow(s: State, a: Action, l: nat)
    requires Enabled(s, a)
  {
    a == Reconcile(l)
    && (s.loads[l].pc.actual > s.moduleLimit || s.total - s.loads[l].pc.reserved + s.loads[l].pc.actual > s.limit)
  }

  /** On its way to be recorded, or reported already. */
  predicate OnItsWay(s: State, load: Load) {
    load.pc.Reading? || load.pc.Settling? || load.pc.Settled? || Reports(s, load)
  }

  /** A step leaves every other load as it is, and no path leaves the report. */
  lemma OthersStay(s: State, a: Action, l: nat)
    requires Enabled(s, a) && l < |s.loads| && (a.Begin? || a.Parse? || a.l != l)
    ensures l < |Apply(s, a).loads| && Apply(s, a).loads[l] == s.loads[l]
    ensures Reports(s, s.loads[l]) ==> Reports(Apply(s, a), s.loads[l])
  {
  }

  /** Where a load goes in its own step. */
  lemma OwnStep(s: State, a: Action)
    requires Enabled(s, a) && !a.Begin? && !a.Parse? && s.total <= s.limit && OnItsWay(s, s.loads[a.l])
    ensures a.l < |Apply(s, a).loads|
    ensures OnItsWay(Apply(s, a), Apply(s, a).loads[a.l]) || a == ReadFails(a.l) || RefusedNow(s, a, a.l)
  {
  }

  lemma OnItsWayStep(s: State, a: Action, l: nat)
    requires Enabled(s, a) && l < |Apply(s, a).loads| && s.total <= s.limit
    requires l < |s.loads| ==> OnItsWay(s, s.loads[l])
    ensures OnItsWay(Apply(s, a), Apply(s, a).loads[l]) || a == ReadFails(l) || RefusedNow(s, a, l)
  {
    if l >= |s.loads| {
      LoadsKept(s, a);
    } else if a.Begin? || a.Parse? || a.l != l {
      OthersStay(s, a, l);
    } else {
      OwnStep(s, a);
    }
    hide Apply, Enabled, Reports, RefusedNow, SameLoad;
  }

  /** A load that has ended failed to read, was refused, or has its path reported in the map of its class. */
  lemma {:induction false} NothingIsDropped(s: State, actions: seq<Action>, l: nat)
    requires IsRun(s, actions) && Conserved(s) && l < |Run(s, actions).loads|
    requires l < |s.loads| ==> OnItsWay(s, s.loads[l])
    ensures var s' := Run(s, actions);
            s'.loads[l].pc.Ended? ==> ReadFails(l) in actions || WasRefused(s, actions, l) || Reports(s', s'.loads[l])
    decreases |actions|
  {
    if actions != [] {
      var a, rest := actions[0], actions[1..];
      var s1 := Apply(s, a);
      if l < |s1.loads| { OnItsWayStep(s, a, l); }
      ConservedStep(s, a);
      hide Apply, Enabled, Conserved, OnItsWay, Reports, RefusedNow;
      if l < |s1.loads| ==> OnItsWay(s1, s1.loads[l]) {
        NothingIsDropped(s1, rest, l);
        assert ReadFails(l) in rest ==> ReadFails(l) in actions;
      } else {
        assert a in actions;
      }
    }
  }

  /** Every asset reaches the report, and every load holds what it should. In any interleaving of a build, the loads are
      those it admitted, each of its own path and class; a load holds the length it asked for until its read settles,
      then the length that read found, and nothing once it has ended; and a load that has ended failed to read, was
      refused, or has its path in the map the build reports for its class. */
  lemma EveryReadIsReported(limit: nat, moduleLimit: nat, actions: seq<Action>, l: nat)
    requires IsRun(Init(limit, moduleLimit), actions) && l < |Run(Init(limit, moduleLimit), actions).loads|
    ensures var s0 := Init(limit, moduleLimit);
            var load := Run(s0, actions).loads[l];
            && |Begun(s0, actions)| > l && load.path == Begun(s0, actions)[l].path && load.class_ == Begun(s0, actions)[l].class_
            && (Found(load.pc).Some? ==> ReadDone(l, Found(load.pc).value) in actions)
            && Held(load) == (if load.pc.Ended? then 0
                              else if load.pc.Settled? || load.pc.Duplicate? then load.pc.actual
                              else Begun(s0, actions)[l].pc.reserved)
            && (load.pc.Ended? ==> ReadFails(l) in actions || WasRefused(s0, actions, l) || Reports(Run(s0, actions), load))
  {
    var s0 := Init(limit, moduleLimit);
    ConservedInit(limit, moduleLimit);
    CountsAreBegun(s0, actions);
    assert s0.loads + Begun(s0, actions) == Begun(s0, actions);
    LoadIsBegun(s0, actions, l);
    LengthsAreRead(s0, actions, l);
    NothingIsDropped(s0, actions, l);
  }

  // ---- The disclosed lengths ----

  /** The lengths the build reports, with what is in use besides. */
  ghost function Reported(s: State): nat {
    SeqSum(s.loads, Held) + Recorded(s.counted) + Recorded(s.unmeasured) + SeqSum(s.parsed, Length)
  }

  /** The counter agrees with the lengths the build reports. */
  ghost predicate Disclosed(s: State) {
    s.total == Reported(s)
  }

  /** How a step moves the two totals: together, but for an overwritten disclosure. */
  lemma ReportedStep(s: State, a: Action)
    requires Enabled(s, a) && s.charged.Keys == s.unmeasured.Keys
    ensures Recorded(Apply(s, a).unmeasured) - Recorded(s.unmeasured)
         == Recorded(Apply(s, a).charged) - Recorded(s.charged)
            + (if a.Record? && s.loads[a.l].class_.Unmeasured? && s.loads[a.l].path in s.unmeasured
               then s.loads[a.l].pc.actual - s.unmeasured[s.loads[a.l].path] else 0)
  {
    if a.Record? {
      MapSumUpdate(s.unmeasured, Length, s.loads[a.l].path, s.loads[a.l].pc.actual);
      MapSumUpdate(s.charged, Length, s.loads[a.l].path, s.loads[a.l].pc.actual);
    }
    hide MapSum;
  }

  /** A duplicate unmeasured read overwrites the disclosed length but gives its own bytes back, so a
      step keeps the counter in agreement with the reported lengths exactly when no such read found
      another length than the one on record. */
  lemma DisclosureStep(s: State, a: Action)
    requires Conserved(s) && Disclosed(s) && Enabled(s, a)
    ensures Disclosed(Apply(s, a)) <==>
              !(a.Record? && s.loads[a.l].class_.Unmeasured? && s.loads[a.l].path in s.unmeasured
                && s.unmeasured[s.loads[a.l].path] != s.loads[a.l].pc.actual)
  {
    ConservedStep(s, a);
    ReportedStep(s, a);
    hide SeqSum, Recorded, Apply, Enabled;
  }

  /** How one step moves a path's two lengths. */
  lemma UnmeasuredStep(s: State, a: Action, path: Path)
    requires Enabled(s, a) && s.charged.Keys == s.unmeasured.Keys
    ensures var s', now := Apply(s, a), ReadNow(s, a, Unmeasured, path);
            && s'.charged.Keys == s'.unmeasured.Keys
            && (path in s'.unmeasured <==> path in s.unmeasured || now != [])
            && (path in s'.unmeasured ==>
                  && s'.unmeasured[path] == (if now == [] then s.unmeasured[path] else now[0])
                  && s'.charged[path] == (if path in s.charged then s.charged[path] else now[0]))
  {
  }

  /** The build reports each unmeasured path's last recorded length and is charged its first. */
  lemma {:induction false} FirstAndLast(s: State, actions: seq<Action>, path: Path)
    requires IsRun(s, actions) && s.charged.Keys == s.unmeasured.Keys
    ensures var s', lengths := Run(s, actions), Reads(s, actions, Unmeasured, path);
            && s'.charged.Keys == s'.unmeasured.Keys
            && (path in s'.unmeasured <==> path in s.unmeasured || lengths != [])
            && (path in s'.unmeasured ==>
                  && s'.unmeasured[path] == (if lengths == [] then s.unmeasured[path] else lengths[|lengths| - 1])
                  && s'.charged[path] == (if path in s.charged then s.charged[path] else lengths[0]))
    decreases |actions|
  {
    if actions != [] {
      hide Apply, Enabled, ReadNow;
      UnmeasuredStep(s, actions[0], path);
      FirstAndLast(Apply(s, actions[0]), actions[1..], path);
    }
  }

  /** Every read of a path recorded the same length. */
  ghost predicate Steady(s: State, actions: seq<Action>)
    requires IsRun(s, actions)
  {
    forall path, j :: 0 <= j < |Reads(s, actions, Unmeasured, path)| ==> Reads(s, actions, Unmeasured, path)[j] == Reads(s, actions, Unmeasured, path)[0]
  }

  lemma SteadyReportsWhatItCharged(limit: nat, moduleLimit: nat, actions: seq<Action>)
    requires IsRun(Init(limit, moduleLimit), actions) && Steady(Init(limit, moduleLimit), actions)
    ensures var s := Run(Init(limit, moduleLimit), actions); s.unmeasured == s.charged
  {
    var s0 := Init(limit, moduleLimit);
    var s := Run(s0, actions);
    forall path: Path
      ensures path in s.unmeasured <==> path in s.charged
      ensures path in s.unmeasured ==> s.unmeasured[path] == s.charged[path]
    {
      FirstAndLast(s0, actions, path);
      var lengths := Reads(s0, actions, Unmeasured, path);
      assert lengths != [] ==> lengths[|lengths| - 1] == lengths[0];
      hide Run, Reads, IsRun, Steady;
    }
    hide Run, Reads, IsRun, Steady;
  }

  /** After any run the counter misses the reported lengths by exactly what the unmeasured paths' last reads and first
      reads differ in sum. So it agrees with them if and only if those sums are equal, and it does when no path was
      recorded with two lengths. */
  lemma DisclosedExactly(limit: nat, moduleLimit: nat, actions: seq<Action>)
    requires IsRun(Init(limit, moduleLimit), actions)
    ensures var s := Run(Init(limit, moduleLimit), actions);
            && Reported(s) - s.total == Recorded(s.unmeasured) - Recorded(s.charged)
            && (Disclosed(s) <==> Recorded(s.unmeasured) == Recorded(s.charged))
            && (Steady(Init(limit, moduleLimit), actions) ==> Disclosed(s))
  {
    ConservedInit(limit, moduleLimit);
    RunConserves(Init(limit, moduleLimit), actions);
    if Steady(Init(limit, moduleLimit), actions) { SteadyReportsWhatItCharged(limit, moduleLimit, actions); }
    hide Run, IsRun, Steady, SeqSum, Recorded;
  }

  ghost predicate Reaches(actions: seq<Action>, s: State) {
    IsRun(Init(10, 10), actions) && Run(Init(10, 10), actions) == s
  }

  lemma {:induction false} RunThen(s0: State, actions: seq<Action>, a: Action)
    requires IsRun(s0, actions) && Enabled(Run(s0, actions), a)
    ensures IsRun(s0, actions + [a]) && Run(s0, actions + [a]) == Apply(Run(s0, actions), a)
    decreases |actions|
  {
    hide Enabled, Apply;
    if actions == [] {
      assert [] + [a] == [a] && [a][1..] == [];
      assert IsRun(Apply(s0, a), []) && Run(Apply(s0, a), []) == Apply(s0, a);
    } else {
      RunThen(Apply(s0, actions[0]), actions[1..], a);
      assert (actions + [a])[1..] == actions[1..] + [a];
    }
  }

  lemma Then(actions: seq<Action>, s: State, a: Action) returns (actions': seq<Action>, s': State)
    requires Reaches(actions, s) && Enabled(s, a)
    ensures Reaches(actions', s') && s' == Apply(s, a)
  {
    RunThen(Init(10, 10), actions, a);
    actions', s' := actions + [a], Apply(s, a);
  }

  /** An icon that grew from 1 to 3 bytes between two reads of it: the build reports 3 and charged 1. */
  lemma GrownDuplicateDrifts()
    ensures exists actions ::
              && IsRun(Init(10, 10), actions)
              && var s := Run(Init(10, 10), actions);
                 s.loads == [Load("icon.svg", Unmeasured, Ended), Load("icon.svg", Unmeasured, Ended)]
                 && s.total == 1 && s.unmeasured == map["icon.svg" := 3] && s.counted == map[] && s.parsed == []
  {
    var icon := "icon.svg";
    assert Reaches([], Init(10, 10));
    hide IsRun, Run;
    var r, s := Then([], Init(10, 10), Begin(icon, Unmeasured, 1));
    r, s := Then(r, s, Begin(icon, Unmeasured, 1));
    r, s := Then(r, s, ReadDone(0, 1));
    r, s := Then(r, s, Reconcile(0));
    r, s := Then(r, s, Record(0));
    assert s.total == 2 && s.loads == [Load(icon, Unmeasured, Ended), Load(icon, Unmeasured, Reading(1))];
    r, s := Then(r, s, ReadDone(1, 3));
    r, s := Then(r, s, Reconcile(1));
    r, s := Then(r, s, Record(1));
    r, s := Then(r, s, GiveBack(1));
  }
}
