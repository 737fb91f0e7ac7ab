/** How long the fast path may trust an entry, over runs with time, edits, invalidation bumps and any
    number of overlapping analyses, re-verifications and reads. Models daemon/src/cache/memory.rs
    (`Verification`, `lookup`, the generation-stamped insert) and `analyze_and_cache` in
    daemon/src/service.rs. A stamp on a shared entry is two stores and a look at one is two loads, each
    pair in either order. */
module FreshnessWindow {
  import opened Common
  import opened Fingerprints
  import opened MemoryCache

  type Key = string
  type Path = string
  type Id = nat

  /** The world at one moment; a path not listed does not exist. */
  datatype Instant = Instant(now: nat, gen: nat, files: map<Path, Snapshot>)

  /** What probes answer at a moment. */
  function WorldOf(at: Instant): Path -> FileProbe {
    (p: Path) =>
      if p in at.files then PresentFile(at.files[p].len, at.files[p].modifiedMillis, at.files[p].hash)
      else FileProbe(StatMissing, ReadMissing)
  }

  /** An input that probes Fresh at a moment: the cache's own check, which trusts an installed file's length
      and modification time. */
  predicate Confirms(at: Instant, f: FileFingerprint) { CheckOne(f, WorldOf(at)) == Fresh }

  /** What that says of the file: its absence, or its bytes where they were hashed and the file is not an
      installed one with the recorded length and time, or else that length and time. */
  lemma ConfirmationMeans(at: Instant, f: FileFingerprint)
    ensures Confirms(at, f) <==>
              if IsAbsent(f) then f.path !in at.files
              else
                && f.path in at.files
                && (var file := at.files[f.path];
                    var asRecorded := file.len == f.len && file.modifiedMillis == f.modifiedMillis;
                    || f.contentHash == Some(file.hash)
                    || (asRecorded && (IsInstalled(f) || f.contentHash.None?)))
  {
  }

  /** A check or analysis that ended: what it checked, the moments it began and ended, and when it last saw each input in
      between. */
  datatype Check = Check(content: set<FileFingerprint>, startedAt: nat, endedAt: nat, seen: map<FileFingerprint, nat>)

  /** One of the two numbers of a stamp, and the number of the check it came from; 0 is the number of no stamp. */
  datatype Half = Half(value: nat, check: nat)

  const NEVER_HALF := Half(0, 0)

  /** An entry as allocated; it outlives its place in the map. */
  datatype Object = Object(key: Key, firstParty: bool, content: set<FileFingerprint>, generation: Half, atMillis: Half)

  datatype Purpose = Analyze | Verify(target: Id) | Hydrate

  /** An analysis, a re-verification or a disk read in progress, under the generation it captured before
      reading anything. `content` is the fingerprints of what the value was measured from. */
  datatype Op = Op(key: Key, purpose: Purpose, captured: nat, startedAt: nat, content: set<FileFingerprint>,
                   seen: map<FileFingerprint, nat>)

  /** A stamp with its clock read, whose two stores are on their way. */
  datatype Pending = Pending(target: Id, generation: Half, atMillis: Half, genStored: bool, timeStored: bool)

  /** A look at an entry that loaded the current generation at `readAt` and then loads the two halves. */
  datatype Look = Look(target: Id, readAt: nat, generation: Option<Half>, atMillis: Option<Half>)

  /** `past` holds every moment so far, the present last; `ended` every check that ended, in order. */
  datatype State = State(
    past: seq<Instant>, ended: seq<Check>, objects: map<Id, Object>, entries: map<Key, Id>, ops: map<Id, Op>,
    stamps: map<Id, Pending>, looks: map<Id, Look>, nextId: Id)

  const INIT := State([Instant(0, 1, map[])], [], map[], map[], map[], map[], map[], 0)

  datatype Action =
    | Tick(millis: nat)
    | Bump
    | Edit(path: Path, file: Snapshot)
    | Delete(path: Path)
    | BeginAnalysis(key: Key)
    | BeginVerify(key: Key)
    | BeginHydrate(key: Key, content: set<FileFingerprint>)
    | ReadInput(op: Id, input: FileFingerprint)
    | ProbeInput(op: Id, input: FileFingerprint)
    | Share(op: Id)
    | Fail(op: Id)
    | End(op: Id)
    | StoreGeneration(p: Id)
    | StoreTime(p: Id)
    | HydrateUnknown(key: Key, content: set<FileFingerprint>)
    | Remove(key: Key)
    | BeginLook(key: Key)
    | LoadGeneration(r: Id)
    | LoadTime(r: Id)
    | FastHit(r: Id)

  function Present(s: State): nat
    requires s.past != []
  {
    |s.past| - 1
  }

  function Now(s: State): Instant
    requires s.past != []
  {
    s.past[|s.past| - 1]
  }

  predicate Enabled(s: State, a: Action) {
    s.past != [] &&
    match a
    case Tick(_) => true
    case Bump => true
    case Edit(_, _) => true
    case Delete(_) => true
    case BeginAnalysis(_) => true
    case BeginVerify(k) => k in s.entries && s.entries[k] in s.objects
    case BeginHydrate(k, _) => k !in s.entries
    case ReadInput(i, f) => i in s.ops && s.ops[i].purpose.Analyze? && f !in s.ops[i].content && Confirms(Now(s), f)
    case ProbeInput(i, f) => i in s.ops && !s.ops[i].purpose.Analyze? && f in s.ops[i].content && Confirms(Now(s), f)
    case Share(i) => i in s.ops && s.ops[i].purpose.Analyze?
    case Fail(i) => i in s.ops
    case End(i) =>
      i in s.ops && s.ops[i].seen.Keys == s.ops[i].content && (s.ops[i].purpose.Verify? ==> s.ops[i].purpose.target in s.objects)
    case StoreGeneration(p) => p in s.stamps && !s.stamps[p].genStored && s.stamps[p].target in s.objects
    case StoreTime(p) => p in s.stamps && !s.stamps[p].timeStored && s.stamps[p].target in s.objects
    // Without inputs there is nothing a probe could fail on, so such an entry is never unknown.
    case HydrateUnknown(_, content) => content != {}
    case Remove(_) => true
    case BeginLook(k) => k in s.entries && s.entries[k] in s.objects && !s.objects[s.entries[k]].firstParty
    case LoadGeneration(r) => r in s.looks && s.looks[r].generation.None? && s.looks[r].target in s.objects
    case LoadTime(r) => r in s.looks && s.looks[r].atMillis.None? && s.looks[r].target in s.objects
    case FastHit(r) => r in s.looks && Answers(s, s.looks[r])
  }

  /** Both halves are loaded, and together they are current. */
  predicate Answers(s: State, look: Look)
    requires s.past != []
  {
    look.generation.Some? && look.atMillis.Some? && look.readAt < |s.past| &&
    IsCurrent(Verification(look.generation.value.value, look.atMillis.value.value), s.past[look.readAt].gen, Now(s).now)
  }

  function Begin(s: State, key: Key, purpose: Purpose, content: set<FileFingerprint>): State
    requires s.past != []
  {
    s.(ops := s.ops[s.nextId := Op(key, purpose, Now(s).gen, Present(s), content, map[])], nextId := s.nextId + 1)
  }

  function CheckOf(s: State, op: Op): Check
    requires s.past != []
  {
    Check(op.content, op.startedAt, Present(s), op.seen)
  }

  function Publish(s: State, key: Key, firstParty: bool, content: set<FileFingerprint>, generation: Half, atMillis: Half): State {
    s.(objects := s.objects[s.nextId := Object(key, firstParty, content, generation, atMillis)],
       entries := s.entries[key := s.nextId], nextId := s.nextId + 1)
  }

  /** Every input confirmed: an analysis or a disk read publishes a stamped entry; a re-verification starts to stamp the
      entry it looked at, except a first-party one. */
  function Ended(s: State, i: Id, firstPartyKey: Key -> bool): State
    requires Enabled(s, End(i))
  {
    var op := s.ops[i];
    var generation, atMillis := Half(op.captured, |s.ended|), Half(Now(s).now + 1, |s.ended|);
    var s' := s.(ops := s.ops - {i}, ended := s.ended + [CheckOf(s, op)]);
    if !op.purpose.Verify? then Publish(s', op.key, firstPartyKey(op.key), op.content, generation, atMillis)
    else if s.objects[op.purpose.target].firstParty then s'
    else s'.(stamps := s.stamps[s.nextId := Pending(op.purpose.target, generation, atMillis, false, false)], nextId := s.nextId + 1)
  }

  function Apply(s: State, a: Action, firstPartyKey: Key -> bool): State
    requires Enabled(s, a)
  {
    match a
    case Tick(d) => s.(past := s.past + [Now(s).(now := Now(s).now + d)])
    case Bump => s.(past := s.past + [Now(s).(gen := Now(s).gen + 1)])
    case Edit(p, file) => s.(past := s.past + [Now(s).(files := Now(s).files[p := file])])
    case Delete(p) => s.(past := s.past + [Now(s).(files := Now(s).files - {p})])
    case BeginAnalysis(k) => Begin(s, k, Analyze, {})
    case BeginVerify(k) => Begin(s, k, Verify(s.entries[k]), s.objects[s.entries[k]].content)
    case BeginHydrate(k, content) => Begin(s, k, Hydrate, content)
    case ReadInput(i, f) =>
      s.(ops := s.ops[i := s.ops[i].(content := s.ops[i].content + {f}, seen := s.ops[i].seen[f := Present(s)])])
    case ProbeInput(i, f) => s.(ops := s.ops[i := s.ops[i].(seen := s.ops[i].seen[f := Present(s)])])
    // A caller that joined the flight of an analysis with its own key and captured generation gets what the leader
    // read, possibly before the caller itself began, and stores it in a step of its own.
    case Share(i) => s.(ops := s.ops[s.nextId := s.ops[i]], nextId := s.nextId + 1)
    case Fail(i) =>
      var op := s.ops[i];
      var gone := op.purpose.Verify? && op.key in s.entries && s.entries[op.key] == op.purpose.target;
      s.(ops := s.ops - {i}, entries := if gone then s.entries - {op.key} else s.entries)
    case End(i) => Ended(s, i, firstPartyKey)
    case StoreGeneration(p) =>
      var o := s.stamps[p].target;
      s.(objects := s.objects[o := s.objects[o].(generation := s.stamps[p].generation)],
         stamps := s.stamps[p := s.stamps[p].(genStored := true)])
    case StoreTime(p) =>
      var o := s.stamps[p].target;
      s.(objects := s.objects[o := s.objects[o].(atMillis := s.stamps[p].atMillis)],
         stamps := s.stamps[p := s.stamps[p].(timeStored := true)])
    case HydrateUnknown(k, content) => Publish(s, k, firstPartyKey(k), content, NEVER_HALF, NEVER_HALF)
    case Remove(k) => s.(entries := s.entries - {k})
    case BeginLook(k) => s.(looks := s.looks[s.nextId := Look(s.entries[k], Present(s), None, None)], nextId := s.nextId + 1)
    case LoadGeneration(r) => s.(looks := s.looks[r := s.looks[r].(generation := Some(s.objects[s.looks[r].target].generation))])
    case LoadTime(r) => s.(looks := s.looks[r := s.looks[r].(atMillis := Some(s.objects[s.looks[r].target].atMillis))])
    case FastHit(r) => s.(looks := s.looks - {r})
  }

  // ---- The invariant ----

  /** Time and the generation never go back; the first generation is 1. */
  ghost predicate PastOk(past: seq<Instant>) {
    && past != [] && past[0].gen >= 1
    && (forall i, j :: 0 <= i <= j < |past| ==> past[i].now <= past[j].now && past[i].gen <= past[j].gen)
  }

  /** Each fingerprint in `seen` probed Fresh at that moment, since `from`. */
  ghost predicate SeenOk(past: seq<Instant>, content: set<FileFingerprint>, seen: map<FileFingerprint, nat>, from: nat) {
    forall f :: f in seen ==> f in content && from <= seen[f] < |past| && Confirms(past[seen[f]], f)
  }

  ghost predicate OpOk(past: seq<Instant>, op: Op) {
    && op.startedAt < |past| && past[op.startedAt].gen == op.captured
    && SeenOk(past, op.content, op.seen, op.startedAt)
  }

  /** It saw every input Fresh between its beginning and its end. */
  ghost predicate Checked(past: seq<Instant>, c: Check) {
    && c.startedAt <= c.endedAt < |past| && c.seen.Keys == c.content
    && (forall f :: f in c.seen ==> c.seen[f] <= c.endedAt)
    && SeenOk(past, c.content, c.seen, c.startedAt)
  }

  ghost predicate LogOk(past: seq<Instant>, ended: seq<Check>) { forall c :: c in ended ==> Checked(past, c) }

  /** A generation half names the generation its check, one of this content, began under. */
  ghost predicate GenOk(past: seq<Instant>, ended: seq<Check>, content: set<FileFingerprint>, half: Half) {
    half.value == 0 ||
    (half.check < |ended| &&
     var c := ended[half.check];
     c.content == content && c.startedAt < |past| && past[c.startedAt].gen == half.value)
  }

  /** A time half names the time its check, one of this content, ended, plus one. */
  ghost predicate TimeOk(past: seq<Instant>, ended: seq<Check>, content: set<FileFingerprint>, half: Half) {
    half.value == 0 ||
    (half.check < |ended| &&
     var c := ended[half.check];
     c.content == content && c.endedAt < |past| && past[c.endedAt].now + 1 == half.value)
  }

  ghost predicate ObjectOk(past: seq<Instant>, ended: seq<Check>, o: Object) {
    GenOk(past, ended, o.content, o.generation) && TimeOk(past, ended, o.content, o.atMillis)
  }

  ghost predicate PendingOk(past: seq<Instant>, ended: seq<Check>, objects: map<Id, Object>, p: Pending) {
    && p.target in objects
    && GenOk(past, ended, objects[p.target].content, p.generation) && TimeOk(past, ended, objects[p.target].content, p.atMillis)
  }

  ghost predicate LookOk(past: seq<Instant>, ended: seq<Check>, objects: map<Id, Object>, look: Look) {
    && look.target in objects && look.readAt < |past|
    && (look.generation.Some? ==> GenOk(past, ended, objects[look.target].content, look.generation.value))
    && (look.atMillis.Some? ==> TimeOk(past, ended, objects[look.target].content, look.atMillis.value))
  }

  ghost predicate IdsOk(s: State) {
    && (forall o :: o in s.objects ==> o < s.nextId)
    && (forall k :: k in s.entries ==> s.entries[k] in s.objects && s.objects[s.entries[k]].key == k)
    && (forall i :: i in s.ops && s.ops[i].purpose.Verify? ==>
          s.ops[i].purpose.target in s.objects && s.ops[i].content == s.objects[s.ops[i].purpose.target].content)
  }

  ghost predicate OpsOk(s: State) { forall i :: i in s.ops ==> OpOk(s.past, s.ops[i]) }
  ghost predicate ObjectsOk(s: State) { forall o :: o in s.objects ==> ObjectOk(s.past, s.ended, s.objects[o]) }
  ghost predicate StampsOk(s: State) { forall p :: p in s.stamps ==> PendingOk(s.past, s.ended, s.objects, s.stamps[p]) }
  ghost predicate LooksOk(s: State) { forall r :: r in s.looks ==> LookOk(s.past, s.ended, s.objects, s.looks[r]) }

  ghost predicate Inv(s: State) {
    PastOk(s.past) && LogOk(s.past, s.ended) && IdsOk(s) && OpsOk(s) && ObjectsOk(s) && StampsOk(s) && LooksOk(s)
  }

  lemma InvInit()
    ensures Inv(INIT)
  {
  }

  // ---- Time ----

  predicate MovesTime(a: Action) { a.Tick? || a.Bump? || a.Edit? || a.Delete? }

  lemma NextInstant(s: State, a: Action, firstPartyKey: Key -> bool) returns (next: Instant)
    requires Enabled(s, a) && MovesTime(a)
    ensures Apply(s, a, firstPartyKey) == s.(past := s.past + [next])
    ensures Now(s).now <= next.now && Now(s).gen <= next.gen
  {
    next := Now(Apply(s, a, firstPartyKey));
  }

  /** What was established stays so as time goes on, checks end and objects are added. */
  ghost predicate Later(s: State, s': State) { s.past <= s'.past && s.ended <= s'.ended && Keeps(s.objects, s'.objects) }

  lemma HalvesLater(s: State, s': State, content: set<FileFingerprint>, half: Half)
    requires s.past <= s'.past && s.ended <= s'.ended
    ensures GenOk(s.past, s.ended, content, half) ==> GenOk(s'.past, s'.ended, content, half)
    ensures TimeOk(s.past, s.ended, content, half) ==> TimeOk(s'.past, s'.ended, content, half)
  {
  }

  lemma ObjectLater(s: State, s': State, o: Object)
    requires Later(s, s') && ObjectOk(s.past, s.ended, o)
    ensures ObjectOk(s'.past, s'.ended, o)
  {
    HalvesLater(s, s', o.content, o.generation);
    HalvesLater(s, s', o.content, o.atMillis);
    hide GenOk, TimeOk;
  }

  lemma StampLater(s: State, s': State, stamp: Pending)
    requires Later(s, s') && PendingOk(s.past, s.ended, s.objects, stamp)
    ensures PendingOk(s'.past, s'.ended, s'.objects, stamp)
  {
    HalvesLater(s, s', s.objects[stamp.target].content, stamp.generation);
    HalvesLater(s, s', s.objects[stamp.target].content, stamp.atMillis);
    hide GenOk, TimeOk;
  }

  lemma LookLater(s: State, s': State, look: Look)
    requires Later(s, s') && LookOk(s.past, s.ended, s.objects, look)
    ensures LookOk(s'.past, s'.ended, s'.objects, look)
  {
    var content := s.objects[look.target].content;
    if look.generation.Some? { HalvesLater(s, s', content, look.generation.value); }
    if look.atMillis.Some? { HalvesLater(s, s', content, look.atMillis.value); }
    hide GenOk, TimeOk;
  }

  lemma CheckLater(past: seq<Instant>, past': seq<Instant>, c: Check)
    requires past <= past' && Checked(past, c)
    ensures Checked(past', c)
  {
  }

  lemma TimeKeepsInv(s: State, next: Instant)
    requires Inv(s) && Now(s).now <= next.now && Now(s).gen <= next.gen
    ensures Inv(s.(past := s.past + [next]))
  {
    var s' := s.(past := s.past + [next]);
    assert PastOk(s'.past) && IdsOk(s') && Later(s, s');
    hide PastOk, IdsOk, Later;
    forall i | i in s.ops ensures OpOk(s'.past, s.ops[i]) { assert OpOk(s.past, s.ops[i]); }
    hide OpOk, ObjectOk, PendingOk, LookOk, Checked;
    forall c | c in s.ended ensures Checked(s'.past, c) { CheckLater(s.past, s'.past, c); }
    forall o | o in s.objects ensures ObjectOk(s'.past, s'.ended, s.objects[o]) { ObjectLater(s, s', s.objects[o]); }
    forall p | p in s.stamps ensures PendingOk(s'.past, s'.ended, s'.objects, s.stamps[p]) { StampLater(s, s', s.stamps[p]); }
    forall r | r in s.looks ensures LookOk(s'.past, s'.ended, s'.objects, s.looks[r]) { LookLater(s, s', s.looks[r]); }
  }

  // ---- Other steps ----

  /** Objects are only added, and keep their content. */
  ghost predicate Keeps(before: map<Id, Object>, after: map<Id, Object>) {
    forall o :: o in before ==> o in after && after[o].content == before[o].content && after[o].key == before[o].key
                                && after[o].firstParty == before[o].firstParty
  }

  lemma StepShape(s: State, a: Action, firstPartyKey: Key -> bool)
    requires IdsOk(s) && Enabled(s, a) && !MovesTime(a)
    ensures var s' := Apply(s, a, firstPartyKey);
            s'.past == s.past && Later(s, s') && s'.nextId >= s.nextId
  {
  }

  lemma StepKeepsIds(s: State, a: Action, firstPartyKey: Key -> bool)
    requires IdsOk(s) && Enabled(s, a) && !MovesTime(a)
    ensures IdsOk(Apply(s, a, firstPartyKey))
  {
  }

  lemma StepKeepsOps(s: State, a: Action, firstPartyKey: Key -> bool)
    requires PastOk(s.past) && OpsOk(s) && Enabled(s, a) && !MovesTime(a)
    ensures OpsOk(Apply(s, a, firstPartyKey))
  {
    var s' := Apply(s, a, firstPartyKey);
    OpsAfter(s, a, firstPartyKey);
    forall i | i in s'.ops ensures OpOk(s'.past, s'.ops[i]) {
      if i in s.ops { assert OpOk(s.past, s.ops[i]); }
    }
    hide Apply, Enabled, OpOk, PastOk;
  }

  /** What a step makes of the operation at `i`, if it is not the one that was there. */
  predicate NewOp(s: State, a: Action, i: Id, op: Op)
    requires Enabled(s, a)
  {
    || (op.captured == Now(s).gen && op.startedAt == Present(s) && op.seen == map[])
    || (a.ReadInput? && i == a.op
        && op == s.ops[i].(content := s.ops[i].content + {a.input}, seen := s.ops[i].seen[a.input := Present(s)]))
    || (a.ProbeInput? && i == a.op && op == s.ops[i].(seen := s.ops[i].seen[a.input := Present(s)]))
    || (a.Share? && op == s.ops[a.op])
  }

  lemma OpsShape(s: State, a: Action, firstPartyKey: Key -> bool)
    requires Enabled(s, a) && !MovesTime(a)
    ensures var s' := Apply(s, a, firstPartyKey);
            && s'.past == s.past
            && forall i :: i in s'.ops ==> (i in s.ops && s'.ops[i] == s.ops[i]) || NewOp(s, a, i, s'.ops[i])
  {
    hide Confirms, IsCurrent;
  }

  lemma NewOpOk(s: State, a: Action, i: Id, op: Op)
    requires PastOk(s.past) && OpsOk(s) && Enabled(s, a) && NewOp(s, a, i, op)
    ensures OpOk(s.past, op)
  {
    if a.ReadInput? || a.ProbeInput? { InputAdvances(s, a.op, a.input); }
    if a.Share? { assert OpOk(s.past, s.ops[a.op]); }
    hide Confirms, PastOk, OpsOk, IsCurrent;
  }

  /** A step leaves an operation as it was, begins a sound one or advances one soundly. */
  lemma OpsAfter(s: State, a: Action, firstPartyKey: Key -> bool)
    requires PastOk(s.past) && OpsOk(s) && Enabled(s, a) && !MovesTime(a)
    ensures var s' := Apply(s, a, firstPartyKey);
            && s'.past == s.past
            && forall i :: i in s'.ops ==> (i in s.ops && s'.ops[i] == s.ops[i]) || OpOk(s.past, s'.ops[i])
  {
    hide Apply, Enabled, PastOk, OpsOk, OpOk, NewOp;
    var s' := Apply(s, a, firstPartyKey);
    OpsShape(s, a, firstPartyKey);
    forall i | i in s'.ops && NewOp(s, a, i, s'.ops[i]) ensures OpOk(s.past, s'.ops[i]) { NewOpOk(s, a, i, s'.ops[i]); }
  }

  lemma InputAdvances(s: State, i: Id, f: FileFingerprint)
    requires PastOk(s.past) && OpsOk(s) && i in s.ops && Confirms(Now(s), f)
    ensures var op := s.ops[i];
            && OpOk(s.past, op.(content := op.content + {f}, seen := op.seen[f := Present(s)]))
            && (f in op.content ==> OpOk(s.past, op.(seen := op.seen[f := Present(s)])))
  {
    assert OpOk(s.past, s.ops[i]);
  }

  /** What an end stores rests on its own check, under the generation captured before it read anything. */
  lemma EndIsChecked(s: State, i: Id)
    requires PastOk(s.past) && OpsOk(s) && Enabled(s, End(i))
    ensures var op := s.ops[i];
            var ended, n := s.ended + [CheckOf(s, op)], |s.ended|;
            && Checked(s.past, CheckOf(s, op))
            && GenOk(s.past, ended, op.content, Half(op.captured, n)) && TimeOk(s.past, ended, op.content, Half(Now(s).now + 1, n))
  {
    assert OpOk(s.past, s.ops[i]);
  }

  lemma StepKeepsLog(s: State, a: Action, firstPartyKey: Key -> bool)
    requires Inv(s) && Enabled(s, a) && !MovesTime(a)
    ensures LogOk(Apply(s, a, firstPartyKey).past, Apply(s, a, firstPartyKey).ended)
  {
    if a.End? { EndIsChecked(s, a.op); }
    LogShape(s, a, firstPartyKey);
    hide Apply, Enabled, Checked, PastOk, IdsOk, OpsOk, ObjectsOk, StampsOk, LooksOk;
  }

  lemma LogShape(s: State, a: Action, firstPartyKey: Key -> bool)
    requires Enabled(s, a) && !MovesTime(a)
    ensures var s' := Apply(s, a, firstPartyKey);
            s'.past == s.past && s'.ended == s.ended + (if a.End? then [CheckOf(s, s.ops[a.op])] else [])
  {
    hide Confirms, IsCurrent;
  }

  /** An analysis, and any caller that joined its flight, publishes its result as checked under the generation that was
      current when the analysis began, whatever happened since. */
  lemma EndPublishes(actions: seq<Action>, i: Id, firstPartyKey: Key -> bool)
    requires IsRun(INIT, actions, firstPartyKey)
    ensures var s := Run(INIT, actions, firstPartyKey);
            Enabled(s, End(i)) && !s.ops[i].purpose.Verify? ==>
              var op, s' := s.ops[i], Ended(s, i, firstPartyKey);
              && s'.ended == s.ended + [CheckOf(s, op)] && Checked(s.past, CheckOf(s, op))
              && op.key in s'.entries && s'.entries[op.key] in s'.objects
              && var o := s'.objects[s'.entries[op.key]];
                 && o.content == op.content && o.generation.check == o.atMillis.check == |s.ended|
                 && o.generation.value == s.past[op.startedAt].gen
                 && o.atMillis.value == Now(s).now + 1
  {
    InvInit();
    RunKeepsInv(INIT, actions, firstPartyKey);
    var s := Run(INIT, actions, firstPartyKey);
    if Enabled(s, End(i)) {
      EndIsChecked(s, i);
      assert OpOk(s.past, s.ops[i]);
    }
    hide IsRun, Run, IdsOk, ObjectsOk, StampsOk, LooksOk, LogOk, SeenOk, GenOk, TimeOk;
  }

  /** What a step makes of the object at `o`, if it is not the one that was there. */
  predicate NewObject(s: State, a: Action, o: Id, made: Object)
    requires Enabled(s, a)
  {
    || (a.End? && var op := s.ops[a.op];
        && made.content == op.content && made.generation == Half(op.captured, |s.ended|)
        && made.atMillis == Half(Now(s).now + 1, |s.ended|))
    || (a.StoreGeneration? && o == s.stamps[a.p].target && made == s.objects[o].(generation := s.stamps[a.p].generation))
    || (a.StoreTime? && o == s.stamps[a.p].target && made == s.objects[o].(atMillis := s.stamps[a.p].atMillis))
    || (made.generation.value == 0 && made.atMillis.value == 0)
  }

  lemma ObjectsShape(s: State, a: Action, firstPartyKey: Key -> bool)
    requires Enabled(s, a) && !MovesTime(a)
    ensures var s' := Apply(s, a, firstPartyKey);
            && s'.past == s.past
            && forall o :: o in s'.objects ==> (o in s.objects && s'.objects[o] == s.objects[o]) || NewObject(s, a, o, s'.objects[o])
  {
    hide Confirms, IsCurrent;
  }

  /** The log once a step has been taken. */
  function LogAfter(s: State, a: Action): seq<Check>
    requires Enabled(s, a)
  {
    s.ended + (if a.End? then [CheckOf(s, s.ops[a.op])] else [])
  }

  lemma NewObjectOk(s: State, a: Action, o: Id, made: Object)
    requires Inv(s) && Enabled(s, a) && NewObject(s, a, o, made)
    ensures ObjectOk(s.past, LogAfter(s, a), made)
  {
    if a.End? { EndIsChecked(s, a.op); }
    if a.StoreGeneration? || a.StoreTime? {
      assert PendingOk(s.past, s.ended, s.objects, s.stamps[a.p]);
      assert ObjectOk(s.past, s.ended, s.objects[s.stamps[a.p].target]);
      assert LogAfter(s, a) == s.ended;
    }
    hide LooksOk, Checked, Confirms, PastOk, IdsOk, OpsOk;
  }

  lemma StepKeepsObjects(s: State, a: Action, firstPartyKey: Key -> bool)
    requires Inv(s) && Enabled(s, a) && !MovesTime(a)
    ensures ObjectsOk(Apply(s, a, firstPartyKey))
  {
    hide OpsOk, LooksOk, PastOk, StampsOk, IdsOk, ObjectOk, Apply, Enabled, NewObject, Later, LogOk;
    var s' := Apply(s, a, firstPartyKey);
    StepShape(s, a, firstPartyKey);
    LogShape(s, a, firstPartyKey);
    ObjectsShape(s, a, firstPartyKey);
    forall o | o in s'.objects ensures ObjectOk(s'.past, s'.ended, s'.objects[o]) {
      if NewObject(s, a, o, s'.objects[o]) { NewObjectOk(s, a, o, s'.objects[o]); }
      else { ObjectLater(s, s', s.objects[o]); }
    }
  }

  /** What a step makes of the stamp at `p`, if it is not the one that was there. */
  predicate NewStamp(s: State, a: Action, p: Id, stamp: Pending)
    requires Enabled(s, a)
  {
    || ((a.StoreGeneration? || a.StoreTime?) && p == a.p
        && stamp == s.stamps[p].(genStored := stamp.genStored, timeStored := stamp.timeStored))
    || (a.End? && var op := s.ops[a.op];
        && op.purpose.Verify? && stamp.target == op.purpose.target && stamp.generation == Half(op.captured, |s.ended|)
        && stamp.atMillis == Half(Now(s).now + 1, |s.ended|))
  }

  lemma StampsShape(s: State, a: Action, firstPartyKey: Key -> bool)
    requires Enabled(s, a) && !MovesTime(a)
    ensures var s' := Apply(s, a, firstPartyKey);
            && s'.past == s.past
            && forall p :: p in s'.stamps ==> (p in s.stamps && s'.stamps[p] == s.stamps[p]) || NewStamp(s, a, p, s'.stamps[p])
  {
    hide Confirms, IsCurrent;
  }

  lemma NewStampOk(s: State, a: Action, p: Id, stamp: Pending)
    requires Inv(s) && Enabled(s, a) && NewStamp(s, a, p, stamp)
    ensures PendingOk(s.past, LogAfter(s, a), s.objects, stamp)
  {
    if a.End? {
      EndIsChecked(s, a.op);
    } else {
      assert PendingOk(s.past, s.ended, s.objects, s.stamps[p]);
      assert LogAfter(s, a) == s.ended;
    }
    hide LooksOk, ObjectsOk, GenOk, TimeOk, Confirms, PastOk;
  }

  lemma StepKeepsStamps(s: State, a: Action, firstPartyKey: Key -> bool)
    requires Inv(s) && Enabled(s, a) && !MovesTime(a)
    ensures StampsOk(Apply(s, a, firstPartyKey))
  {
    var s' := Apply(s, a, firstPartyKey);
    StepShape(s, a, firstPartyKey);
    assert Later(s.(ended := s'.ended), s');
    hide OpsOk, LooksOk, PastOk, ObjectsOk, IdsOk, PendingOk, Apply, Enabled, Later, NewStamp, LogOk;
    LogShape(s, a, firstPartyKey);
    StampsShape(s, a, firstPartyKey);
    forall p | p in s'.stamps ensures PendingOk(s'.past, s'.ended, s'.objects, s'.stamps[p]) {
      if NewStamp(s, a, p, s'.stamps[p]) {
        NewStampOk(s, a, p, s'.stamps[p]);
        StampLater(s.(ended := s'.ended), s', s'.stamps[p]);
      } else {
        StampLater(s, s', s.stamps[p]);
      }
    }
  }

  lemma StepKeepsLooks(s: State, a: Action, firstPartyKey: Key -> bool)
    requires Inv(s) && Enabled(s, a) && !MovesTime(a)
    ensures LooksOk(Apply(s, a, firstPartyKey))
  {
    StepShape(s, a, firstPartyKey);
    LooksAfter(s, a, firstPartyKey);
    hide Inv, Later, LookOk, Apply, Enabled;
    var s' := Apply(s, a, firstPartyKey);
    forall r | r in s'.looks ensures LookOk(s'.past, s'.ended, s'.objects, s'.looks[r]) {
      LookLater(s, s', s'.looks[r]);
    }
  }

  /** What a step makes of the look at `r`, if it is not the one that was there. */
  predicate NewLook(s: State, a: Action, r: Id, look: Look)
    requires Enabled(s, a)
  {
    || (a.BeginLook? && look == Look(s.entries[a.key], Present(s), None, None))
    || (a.LoadGeneration? && r == a.r && look == s.looks[r].(generation := Some(s.objects[s.looks[r].target].generation)))
    || (a.LoadTime? && r == a.r && look == s.looks[r].(atMillis := Some(s.objects[s.looks[r].target].atMillis)))
  }

  lemma LooksShape(s: State, a: Action, firstPartyKey: Key -> bool)
    requires Enabled(s, a) && !MovesTime(a)
    ensures var s' := Apply(s, a, firstPartyKey);
            && s'.past == s.past
            && forall r :: r in s'.looks ==> (r in s.looks && s'.looks[r] == s.looks[r]) || NewLook(s, a, r, s'.looks[r])
  {
    hide Confirms, IsCurrent;
  }

  lemma LooksAfter(s: State, a: Action, firstPartyKey: Key -> bool)
    requires Inv(s) && Enabled(s, a) && !MovesTime(a)
    ensures var s' := Apply(s, a, firstPartyKey);
            forall r :: r in s'.looks ==> LookOk(s.past, s.ended, s.objects, s'.looks[r])
  {
    LooksShape(s, a, firstPartyKey);
    var s' := Apply(s, a, firstPartyKey);
    forall r | r in s'.looks ensures LookOk(s.past, s.ended, s.objects, s'.looks[r]) {
      if NewLook(s, a, r, s'.looks[r]) { NewLookOk(s, a, r, s'.looks[r]); }
    }
    hide OpsOk, StampsOk, ObjectsOk, PastOk, LookOk, IdsOk, Confirms, Apply, Enabled, NewLook;
  }

  lemma NewLookOk(s: State, a: Action, r: Id, look: Look)
    requires Inv(s) && Enabled(s, a) && NewLook(s, a, r, look)
    ensures LookOk(s.past, s.ended, s.objects, look)
  {
    if !a.BeginLook? {
      assert LookOk(s.past, s.ended, s.objects, s.looks[r]);
      assert ObjectOk(s.past, s.ended, s.objects[s.looks[r].target]);
    }
    hide OpsOk, StampsOk, ObjectsOk, LooksOk, PastOk, GenOk, TimeOk, IdsOk, Confirms, LogOk;
  }

  lemma InvStep(s: State, a: Action, firstPartyKey: Key -> bool)
    requires Inv(s) && Enabled(s, a)
    ensures Inv(Apply(s, a, firstPartyKey))
  {
    hide PastOk, LogOk, IdsOk, OpsOk, ObjectsOk, StampsOk, LooksOk, Enabled;
    if MovesTime(a) {
      var next := NextInstant(s, a, firstPartyKey);
      TimeKeepsInv(s, next);
    } else {
      StepShape(s, a, firstPartyKey);
      StepKeepsLog(s, a, firstPartyKey);
      StepKeepsIds(s, a, firstPartyKey);
      StepKeepsOps(s, a, firstPartyKey);
      StepKeepsObjects(s, a, firstPartyKey);
      StepKeepsStamps(s, a, firstPartyKey);
      StepKeepsLooks(s, a, firstPartyKey);
    }
  }

  // ---- Runs ----

  predicate IsRun(s: State, actions: seq<Action>, firstPartyKey: Key -> bool)
    decreases |actions|
  {
    actions == [] || (Enabled(s, actions[0]) && IsRun(Apply(s, actions[0], firstPartyKey), actions[1..], firstPartyKey))
  }

  function Run(s: State, actions: seq<Action>, firstPartyKey: Key -> bool): State
    requires IsRun(s, actions, firstPartyKey)
    decreases |actions|
  {
    if actions == [] then s else Run(Apply(s, actions[0], firstPartyKey), actions[1..], firstPartyKey)
  }

  lemma {:induction false} RunKeepsInv(s: State, actions: seq<Action>, firstPartyKey: Key -> bool)
    requires Inv(s) && IsRun(s, actions, firstPartyKey)
    ensures Inv(Run(s, actions, firstPartyKey))
    decreases |actions|
  {
    if actions != [] {
      hide Inv, Apply, Enabled;
      InvStep(s, actions[0], firstPartyKey);
      RunKeepsInv(Apply(s, actions[0], firstPartyKey), actions[1..], firstPartyKey);
    }
  }

  /** The checks a run's ends complete, in order. */
  function Ends(s: State, actions: seq<Action>, firstPartyKey: Key -> bool): seq<Check>
    requires IsRun(s, actions, firstPartyKey)
    decreases |actions|
  {
    if actions == [] then []
    else
      (if actions[0].End? then [CheckOf(s, s.ops[actions[0].op])] else [])
      + Ends(Apply(s, actions[0], firstPartyKey), actions[1..], firstPartyKey)
  }

  /** The log is exactly the checks and analyses that ended in the run. */
  lemma {:induction false} LogIsTheEnds(s: State, actions: seq<Action>, firstPartyKey: Key -> bool)
    requires IsRun(s, actions, firstPartyKey)
    ensures Run(s, actions, firstPartyKey).ended == s.ended + Ends(s, actions, firstPartyKey)
    decreases |actions|
  {
    if actions != [] {
      var a := actions[0];
      if MovesTime(a) { var _ := NextInstant(s, a, firstPartyKey); } else { LogShape(s, a, firstPartyKey); }
      LogIsTheEnds(Apply(s, a, firstPartyKey), actions[1..], firstPartyKey);
      hide Apply, Enabled;
    }
  }

  /** Began under the generation a look loaded at `readAt`; as generations never go back, no bump lies between. */
  ghost predicate NoBump(past: seq<Instant>, c: Check, readAt: nat) {
    c.startedAt < |past| && readAt < |past| && past[c.startedAt].gen == past[readAt].gen
  }

  /** Ended under 30 seconds before now. */
  ghost predicate InWindow(past: seq<Instant>, c: Check) {
    past != [] && c.endedAt < |past| && past[|past| - 1].now < past[c.endedAt].now + REVERIFY_TTL_MILLIS
  }

  /** The answer rests on two checks that ended in the run, of the entry's own inputs: its generation half is of one begun
      since the last bump the look could know of, its time half of one that ended in the window. */
  ghost predicate Backed(s: State, look: Look) {
    && look.target in s.objects && look.generation.Some? && look.atMillis.Some?
    && look.generation.value.check < |s.ended| && look.atMillis.value.check < |s.ended|
    && var since, recent := s.ended[look.generation.value.check], s.ended[look.atMillis.value.check];
       && since.content == recent.content == s.objects[look.target].content
       && Checked(s.past, since) && Checked(s.past, recent)
       && NoBump(s.past, since, look.readAt) && InWindow(s.past, recent)
  }

  lemma FastHitIsBacked(s: State, r: Id)
    requires Inv(s) && Enabled(s, FastHit(r))
    ensures Backed(s, s.looks[r])
  {
    var look := s.looks[r];
    assert LookOk(s.past, s.ended, s.objects, look);
    assert s.past[0].gen <= s.past[look.readAt].gen;
    assert s.ended[look.generation.value.check] in s.ended && s.ended[look.atMillis.value.check] in s.ended;
    hide IdsOk, OpsOk, ObjectsOk, StampsOk, LooksOk, Checked;
  }

  /** In every run, what the fast path answers saw every input probe Fresh in a check begun since the last bump, the one
      its generation half is of, and in one that ended within the window, the one its time half is of. Both are among
      the checks that ended in the run. */
  lemma FastPathIsSafe(actions: seq<Action>, r: Id, firstPartyKey: Key -> bool)
    requires IsRun(INIT, actions, firstPartyKey)
    ensures var s := Run(INIT, actions, firstPartyKey);
            && s.ended == Ends(INIT, actions, firstPartyKey)
            && (Enabled(s, FastHit(r)) ==> Backed(s, s.looks[r]))
  {
    InvInit();
    RunKeepsInv(INIT, actions, firstPartyKey);
    LogIsTheEnds(INIT, actions, firstPartyKey);
    var s := Run(INIT, actions, firstPartyKey);
    if Enabled(s, FastHit(r)) { FastHitIsBacked(s, r); }
    hide Inv, Backed;
  }

  /** A check of the entry's inputs that ended in the run, begun since the last bump and ended in the window. */
  ghost predicate OneCheck(s: State, look: Look) {
    look.target in s.objects &&
    exists c :: c in s.ended && c.content == s.objects[look.target].content && NoBump(s.past, c, look.readAt) && InWindow(s.past, c)
  }

  /** One of an answer's own two checks is both exactly when the generation half's check also ended in the window or the
      time half's also began under the loaded generation: what the two other numbers of their stamps say. */
  lemma OwnCheckIsBoth(s: State, look: Look)
    requires Backed(s, look)
    ensures var since, recent := s.ended[look.generation.value.check], s.ended[look.atMillis.value.check];
            && ((exists c :: c in [since, recent] && NoBump(s.past, c, look.readAt) && InWindow(s.past, c)) <==>
                  || Now(s).now < s.past[since.endedAt].now + REVERIFY_TTL_MILLIS
                  || s.past[recent.startedAt].gen == s.past[look.readAt].gen)
  {
    var since, recent := s.ended[look.generation.value.check], s.ended[look.atMillis.value.check];
    assert [since, recent][0] == since && [since, recent][1] == recent;
    hide Checked;
  }

  // ---- How the window opens and closes ----

  /** A look that began and ended now would be answered. */
  predicate Fast(s: State, key: Key) {
    && s.past != [] && key in s.entries && s.entries[key] in s.objects
    && var o := s.objects[s.entries[key]];
       !o.firstParty && IsCurrent(Verification(o.generation.value, o.atMillis.value), Now(s).gen, Now(s).now)
  }

  /** A step that ends an analysis or a disk read of this key, or stores half of a re-check's stamp on an entry of it. */
  predicate Restamps(s: State, a: Action, key: Key)
    requires Enabled(s, a)
  {
    || (a.End? && !s.ops[a.op].purpose.Verify? && s.ops[a.op].key == key)
    || ((a.StoreGeneration? || a.StoreTime?) && s.objects[s.stamps[a.p].target].key == key)
  }

  lemma HalvesAreNotAhead(s: State, key: Key)
    requires Inv(s) && key in s.entries
    ensures s.entries[key] in s.objects
    ensures var o := s.objects[s.entries[key]];
            o.generation.value <= Now(s).gen && o.atMillis.value <= Now(s).now + 1
  {
    assert ObjectOk(s.past, s.ended, s.objects[s.entries[key]]);
    assert s.past[0].gen <= Now(s).gen;
    hide OpsOk, StampsOk, LooksOk, SeenOk;
  }

  /** The entry a step leaves behind is the old one, or unverified, unless the step restamps. */
  lemma EntryAfter(s: State, a: Action, key: Key, firstPartyKey: Key -> bool)
    requires IdsOk(s) && Enabled(s, a) && !Restamps(s, a, key)
    requires key in Apply(s, a, firstPartyKey).entries
    ensures var s' := Apply(s, a, firstPartyKey);
            && s'.entries[key] in s'.objects
            && ((key in s.entries && s'.entries[key] == s.entries[key] && s'.objects[s'.entries[key]] == s.objects[s.entries[key]])
                || s'.objects[s'.entries[key]].atMillis.value == 0)
            && Now(s').now >= Now(s).now && Now(s').gen >= Now(s).gen
  {
  }

  /** Only the end of an analysis or a disk read, or a store of a re-check's stamp, opens the window: a hit, an edit, the
      passage of time and a bump never do. What is stored as the generation is then the current one. */
  lemma OnlyConfirmationOpensTheWindow(s: State, a: Action, key: Key, firstPartyKey: Key -> bool)
    requires Inv(s) && Enabled(s, a) && !Fast(s, key) && Fast(Apply(s, a, firstPartyKey), key)
    ensures Restamps(s, a, key)
    ensures a.End? ==> s.ops[a.op].captured == Now(s).gen
    ensures a.StoreGeneration? ==> s.stamps[a.p].generation.value == Now(s).gen
  {
    if !Restamps(s, a, key) {
      EntryAfter(s, a, key, firstPartyKey);
      if key in s.entries { HalvesAreNotAhead(s, key); }
    } else if a.End? {
      EndOpens(s, a.op, key, firstPartyKey);
    } else {
      StoreOpens(s, a, key, firstPartyKey);
    }
    hide Inv, Apply, Restamps, Fast;
  }

  lemma EndOpens(s: State, i: Id, key: Key, firstPartyKey: Key -> bool)
    requires IdsOk(s) && Enabled(s, End(i)) && Restamps(s, End(i), key) && Fast(Apply(s, End(i), firstPartyKey), key)
    ensures s.ops[i].captured == Now(s).gen
  {
  }

  lemma StoreOpens(s: State, a: Action, key: Key, firstPartyKey: Key -> bool)
    requires Enabled(s, a) && (a.StoreGeneration? || a.StoreTime?) && !Fast(s, key) && Fast(Apply(s, a, firstPartyKey), key)
    ensures a.StoreGeneration? ==> s.stamps[a.p].generation.value == Now(s).gen
  {
  }

  /** Between two moments nothing restamped this key. */
  predicate Unconfirmed(s: State, actions: seq<Action>, key: Key, firstPartyKey: Key -> bool)
    requires IsRun(s, actions, firstPartyKey)
    decreases |actions|
  {
    actions == [] ||
    (!Restamps(s, actions[0], key) && Unconfirmed(Apply(s, actions[0], firstPartyKey), actions[1..], key, firstPartyKey))
  }

  lemma WindowStep(s: State, a: Action, key: Key, firstPartyKey: Key -> bool)
    requires Inv(s) && Enabled(s, a) && !Restamps(s, a, key) && Fast(Apply(s, a, firstPartyKey), key)
    ensures var s' := Apply(s, a, firstPartyKey);
            && Fast(s, key) && s'.entries[key] == s.entries[key] && s'.objects[s'.entries[key]] == s.objects[s.entries[key]]
            && Now(s').gen == Now(s).gen
  {
    EntryAfter(s, a, key, firstPartyKey);
    if key in s.entries { HalvesAreNotAhead(s, key); }
    hide Inv, Apply, Restamps;
  }

  /** However often it is hit, a window open no later than now is closed once a full 30 seconds have passed without another
      confirmation, and at once by a bump. */
  lemma {:induction false} WindowCloses(s: State, actions: seq<Action>, key: Key, firstPartyKey: Key -> bool)
    requires Inv(s) && IsRun(s, actions, firstPartyKey) && Unconfirmed(s, actions, key, firstPartyKey)
    ensures var s' := Run(s, actions, firstPartyKey);
            && Inv(s')
            && (Fast(s', key) ==>
                  && Fast(s, key) && s'.entries[key] == s.entries[key] && s'.objects[s'.entries[key]] == s.objects[s.entries[key]]
                  && Now(s').gen == Now(s).gen && Now(s').now < Now(s).now + REVERIFY_TTL_MILLIS)
    decreases |actions|
  {
    if actions != [] {
      hide Inv, Apply, Enabled, Restamps;
      var s1 := Apply(s, actions[0], firstPartyKey);
      InvStep(s, actions[0], firstPartyKey);
      WindowCloses(s1, actions[1..], key, firstPartyKey);
      if Fast(Run(s, actions, firstPartyKey), key) {
        WindowStep(s, actions[0], key, firstPartyKey);
        HalvesAreNotAhead(s, key);
      }
    } else if Fast(s, key) {
      assert REVERIFY_TTL_MILLIS > 0;
    }
  }

  /** A step other than a bump that leaves this key its entry as it was. */
  predicate Untouched(s: State, a: Action, key: Key, firstPartyKey: Key -> bool)
    requires Enabled(s, a)
  {
    var s' := Apply(s, a, firstPartyKey);
    !a.Bump? && key in s.entries && s.entries[key] in s.objects
    && key in s'.entries && s'.entries[key] == s.entries[key]
    && s.entries[key] in s'.objects && s'.objects[s.entries[key]] == s.objects[s.entries[key]]
  }

  predicate UntouchedRun(s: State, actions: seq<Action>, key: Key, firstPartyKey: Key -> bool)
    requires IsRun(s, actions, firstPartyKey)
    decreases |actions|
  {
    actions == [] ||
    (Untouched(s, actions[0], key, firstPartyKey) && UntouchedRun(Apply(s, actions[0], firstPartyKey), actions[1..], key, firstPartyKey))
  }

  lemma {:induction false} EntryStays(s: State, actions: seq<Action>, key: Key, firstPartyKey: Key -> bool)
    requires s.past != [] && key in s.entries && s.entries[key] in s.objects
    requires IsRun(s, actions, firstPartyKey) && UntouchedRun(s, actions, key, firstPartyKey)
    ensures var s' := Run(s, actions, firstPartyKey);
            && s'.past != [] && Now(s').gen == Now(s).gen
            && key in s'.entries && s'.entries[key] == s.entries[key]
            && s.entries[key] in s'.objects && s'.objects[s.entries[key]] == s.objects[s.entries[key]]
    decreases |actions|
  {
    if actions != [] {
      GenStays(s, actions[0], firstPartyKey);
      hide Apply, Enabled;
      EntryStays(Apply(s, actions[0], firstPartyKey), actions[1..], key, firstPartyKey);
    }
  }

  lemma GenStays(s: State, a: Action, firstPartyKey: Key -> bool)
    requires Enabled(s, a)
    ensures var s' := Apply(s, a, firstPartyKey);
            s'.past != [] && (!a.Bump? ==> Now(s').gen == Now(s).gen)
  {
  }

  /** The window stays open as long as it should. An installed entry published by an analysis or a disk read that ended
      under the generation it began in is fast from then on, whatever else happens that leaves it in its place, until
      30 seconds have passed and no longer. */
  lemma WindowLasts(s: State, i: Id, actions: seq<Action>, firstPartyKey: Key -> bool)
    requires Enabled(s, End(i)) && !s.ops[i].purpose.Verify? && s.ops[i].captured == Now(s).gen && !firstPartyKey(s.ops[i].key)
    requires var open := Apply(s, End(i), firstPartyKey);
             IsRun(open, actions, firstPartyKey) && UntouchedRun(open, actions, s.ops[i].key, firstPartyKey)
    ensures var later := Run(Apply(s, End(i), firstPartyKey), actions, firstPartyKey);
            later.past != [] && (Fast(later, s.ops[i].key) <==> Now(later).now < Now(s).now + 30_000)
  {
    var open := Apply(s, End(i), firstPartyKey);
    EntryStays(open, actions, s.ops[i].key, firstPartyKey);
    var later := Run(open, actions, firstPartyKey);
    StampLasts(Now(s).gen, Now(s).now, Now(later).gen, Now(later).now);
    hide Run, IsRun, UntouchedRun;
  }

  // ---- One check behind an answer ----

  predicate HalfStored(p: Pending) { p.genStored != p.timeStored }

  predicate HalfLoaded(look: Look) { look.generation.Some? != look.atMillis.Some? }

  predicate NoneHalfStored(s: State, o: Id, except: Option<Id>) {
    forall p :: p in s.stamps && Some(p) != except && s.stamps[p].target == o ==> !HalfStored(s.stamps[p])
  }

  /** What mutual exclusion on an entry's stamp would give: no store while another stamp of the entry is half stored or a
      look at it half loaded, and no load while a stamp is half stored. */
  predicate Exclusive(s: State, a: Action)
    requires Enabled(s, a)
  {
    if a.StoreGeneration? || a.StoreTime? then
      var o := s.stamps[a.p].target;
      NoneHalfStored(s, o, Some(a.p)) && forall r :: r in s.looks && s.looks[r].target == o ==> !HalfLoaded(s.looks[r])
    else if a.LoadGeneration? || a.LoadTime? then NoneHalfStored(s, s.looks[a.r].target, None)
    else true
  }

  /** Halves of one check. */
  predicate Whole(generation: Half, atMillis: Half) { generation.check == atMillis.check }

  /** A half-stored stamp holds its half of the entry, is the only one, and nobody is in the middle of a look. */
  ghost predicate StoringOk(s: State, p: Id)
    requires p in s.stamps
  {
    var stamp := s.stamps[p];
    && Whole(stamp.generation, stamp.atMillis)
    && (HalfStored(stamp) ==>
          && NoneHalfStored(s, stamp.target, Some(p)) && stamp.target in s.objects
          && (stamp.genStored ==> s.objects[stamp.target].generation == stamp.generation)
          && (stamp.timeStored ==> s.objects[stamp.target].atMillis == stamp.atMillis))
  }

  /** A look has loaded halves of one check, or one half of what the entry holds now. */
  ghost predicate LookingOk(s: State, look: Look) {
    && (look.generation.Some? && look.atMillis.Some? ==> Whole(look.generation.value, look.atMillis.value))
    && (HalfLoaded(look) ==>
          && look.target in s.objects && NoneHalfStored(s, look.target, None)
          && (look.generation.Some? ==> s.objects[look.target].generation == look.generation.value)
          && (look.atMillis.Some? ==> s.objects[look.target].atMillis == look.atMillis.value))
  }

  ghost predicate WholeOk(s: State) {
    && (forall p :: p in s.stamps ==> StoringOk(s, p))
    && (forall r :: r in s.looks ==> LookingOk(s, s.looks[r]))
    && (forall o :: o in s.objects && NoneHalfStored(s, o, None) ==> Whole(s.objects[o].generation, s.objects[o].atMillis))
    && (forall p :: p in s.stamps ==> p < s.nextId)
  }

  lemma StoreKeepsWhole(s: State, a: Action, firstPartyKey: Key -> bool)
    requires WholeOk(s) && Enabled(s, a) && (a.StoreGeneration? || a.StoreTime?) && Exclusive(s, a)
    ensures WholeOk(Apply(s, a, firstPartyKey))
  {
    var s' := Apply(s, a, firstPartyKey);
    var target := s.stamps[a.p].target;
    assert StoringOk(s, a.p);
    forall p | p in s'.stamps ensures StoringOk(s', p) {
      assert StoringOk(s, p);
    }
    forall r | r in s'.looks ensures LookingOk(s', s'.looks[r]) {
      assert LookingOk(s, s.looks[r]);
    }
    forall o | o in s'.objects && NoneHalfStored(s', o, None) ensures Whole(s'.objects[o].generation, s'.objects[o].atMillis) {
      if o == target { assert !HalfStored(s'.stamps[a.p]); }
      else { assert NoneHalfStored(s, o, None); }
    }
  }

  lemma LookKeepsWhole(s: State, a: Action, firstPartyKey: Key -> bool)
    requires WholeOk(s) && Enabled(s, a) && Exclusive(s, a) && (a.BeginLook? || a.LoadGeneration? || a.LoadTime? || a.FastHit?)
    ensures WholeOk(Apply(s, a, firstPartyKey))
  {
    var s' := Apply(s, a, firstPartyKey);
    forall o, except ensures NoneHalfStored(s', o, except) <==> NoneHalfStored(s, o, except) { }
    forall p | p in s'.stamps ensures StoringOk(s', p) { assert StoringOk(s, p); }
    forall r | r in s'.looks ensures LookingOk(s', s'.looks[r]) {
      if r in s.looks { assert LookingOk(s, s.looks[r]); }
    }
    hide IsCurrent, NoneHalfStored;
  }

  lemma RestKeepsWhole(s: State, s': State)
    requires WholeOk(s) && s'.objects == s.objects && s'.stamps == s.stamps && s'.looks == s.looks && s'.nextId >= s.nextId
    ensures WholeOk(s')
  {
    forall o, except ensures NoneHalfStored(s', o, except) <==> NoneHalfStored(s, o, except) { }
    forall p | p in s'.stamps ensures StoringOk(s', p) { assert StoringOk(s, p); }
    forall r | r in s'.looks ensures LookingOk(s', s'.looks[r]) { assert LookingOk(s, s.looks[r]); }
    hide NoneHalfStored;
  }

  lemma PublishKeepsWhole(s: State, key: Key, firstParty: bool, content: set<FileFingerprint>, generation: Half, atMillis: Half)
    requires WholeOk(s) && s.nextId !in s.objects && Whole(generation, atMillis)
    ensures WholeOk(Publish(s, key, firstParty, content, generation, atMillis))
  {
    var s' := Publish(s, key, firstParty, content, generation, atMillis);
    forall o, except ensures NoneHalfStored(s', o, except) <==> NoneHalfStored(s, o, except) { }
    forall p | p in s'.stamps ensures StoringOk(s', p) { assert StoringOk(s, p); }
    forall r | r in s'.looks ensures LookingOk(s', s'.looks[r]) { assert LookingOk(s, s.looks[r]); }
    hide NoneHalfStored;
  }

  lemma PendKeepsWhole(s: State, stamp: Pending)
    requires WholeOk(s) && !stamp.genStored && !stamp.timeStored && Whole(stamp.generation, stamp.atMillis)
    ensures WholeOk(s.(stamps := s.stamps[s.nextId := stamp], nextId := s.nextId + 1))
  {
    var s' := s.(stamps := s.stamps[s.nextId := stamp], nextId := s.nextId + 1);
    forall o, except ensures NoneHalfStored(s', o, except) <==> NoneHalfStored(s, o, except) {
      assert s.nextId !in s.stamps && !HalfStored(stamp);
    }
    forall p | p in s'.stamps ensures StoringOk(s', p) {
      if p in s.stamps { assert StoringOk(s, p); }
    }
    forall r | r in s'.looks ensures LookingOk(s', s'.looks[r]) { assert LookingOk(s, s.looks[r]); }
    hide NoneHalfStored;
  }

  lemma EndKeepsWhole(s: State, i: Id, firstPartyKey: Key -> bool)
    requires WholeOk(s) && s.nextId !in s.objects && Enabled(s, End(i))
    ensures WholeOk(Ended(s, i, firstPartyKey))
  {
    hide WholeOk, Publish;
    var op := s.ops[i];
    var s1 := s.(ops := s.ops - {i}, ended := s.ended + [CheckOf(s, op)]);
    RestKeepsWhole(s, s1);
    if !op.purpose.Verify? {
      PublishKeepsWhole(s1, op.key, firstPartyKey(op.key), op.content, Half(op.captured, |s.ended|), Half(Now(s).now + 1, |s.ended|));
    } else {
      PendKeepsWhole(s1, Pending(op.purpose.target, Half(op.captured, |s.ended|), Half(Now(s).now + 1, |s.ended|), false, false));
    }
  }

  lemma StepKeepsWhole(s: State, a: Action, firstPartyKey: Key -> bool)
    requires WholeOk(s) && IdsOk(s) && Enabled(s, a) && Exclusive(s, a)
    ensures WholeOk(Apply(s, a, firstPartyKey))
  {
    hide WholeOk;
    if a.StoreGeneration? || a.StoreTime? { StoreKeepsWhole(s, a, firstPartyKey); }
    else if a.BeginLook? || a.LoadGeneration? || a.LoadTime? || a.FastHit? { LookKeepsWhole(s, a, firstPartyKey); }
    else if a.End? { EndKeepsWhole(s, a.op, firstPartyKey); }
    else if a.HydrateUnknown? {
      PublishKeepsWhole(s, a.key, firstPartyKey(a.key), a.content, NEVER_HALF, NEVER_HALF);
    }
    else { RestKeepsWhole(s, Apply(s, a, firstPartyKey)); }
  }

  predicate ExclusiveRun(s: State, actions: seq<Action>, firstPartyKey: Key -> bool)
    decreases |actions|
  {
    actions == [] ||
    (Enabled(s, actions[0]) && Exclusive(s, actions[0]) && ExclusiveRun(Apply(s, actions[0], firstPartyKey), actions[1..], firstPartyKey))
  }

  lemma {:induction false} ExclusiveRunKeepsWhole(s: State, actions: seq<Action>, firstPartyKey: Key -> bool)
    requires Inv(s) && WholeOk(s) && ExclusiveRun(s, actions, firstPartyKey)
    ensures IsRun(s, actions, firstPartyKey)
    ensures Inv(Run(s, actions, firstPartyKey)) && WholeOk(Run(s, actions, firstPartyKey))
    decreases |actions|
  {
    if actions != [] {
      var a := actions[0];
      StepKeepsWhole(s, a, firstPartyKey);
      InvStep(s, a, firstPartyKey);
      hide Apply, WholeOk, Enabled, Exclusive, Inv;
      ExclusiveRunKeepsWhole(Apply(s, a, firstPartyKey), actions[1..], firstPartyKey);
    }
  }

  /** Were stamps and looks mutually exclusive, both halves of every answer would be of one check, and it would be both
      begun since the last bump and ended in the window. */
  lemma ExclusiveAnswersNeedOneCheck(actions: seq<Action>, r: Id, firstPartyKey: Key -> bool)
    requires ExclusiveRun(INIT, actions, firstPartyKey)
    ensures IsRun(INIT, actions, firstPartyKey)
    ensures var s := Run(INIT, actions, firstPartyKey);
            Enabled(s, FastHit(r)) ==>
              var look := s.looks[r];
              Backed(s, look) && look.generation.value.check == look.atMillis.value.check && OneCheck(s, look)
  {
    InvInit();
    ExclusiveRunKeepsWhole(INIT, actions, firstPartyKey);
    var s := Run(INIT, actions, firstPartyKey);
    hide IsRun, Run, ExclusiveRun, Inv;
    if Enabled(s, FastHit(r)) {
      FastHitIsBacked(s, r);
      LookIsWhole(s, r);
      assert s.ended[s.looks[r].generation.value.check] in s.ended;
    }
    hide Backed, OneCheck, WholeOk;
  }

  lemma LookIsWhole(s: State, r: Id)
    requires WholeOk(s) && Enabled(s, FastHit(r))
    ensures s.looks[r].generation.value.check == s.looks[r].atMillis.value.check
  {
    assert LookingOk(s, s.looks[r]);
  }

  // ---- Two re-checks that race ----

  const NOBODY: Key -> bool := (k: Key) => false

  ghost predicate Reaches(actions: seq<Action>, s: State) { IsRun(INIT, actions, NOBODY) && Run(INIT, actions, NOBODY) == s }

  lemma {:induction false} RunThen(s0: State, actions: seq<Action>, a: Action)
    requires IsRun(s0, actions, NOBODY) && Enabled(Run(s0, actions, NOBODY), a)
    ensures IsRun(s0, actions + [a], NOBODY)
    ensures Run(s0, actions + [a], NOBODY) == Apply(Run(s0, actions, NOBODY), a, NOBODY)
    decreases |actions|
  {
    hide Enabled, Apply;
    if actions == [] {
      assert [] + [a] == [a] && [a][1..] == [];
      assert IsRun(Apply(s0, a, NOBODY), [], NOBODY) && Run(Apply(s0, a, NOBODY), [], NOBODY) == Apply(s0, a, NOBODY);
    } else {
      RunThen(Apply(s0, actions[0], NOBODY), actions[1..], a);
      assert (actions + [a])[1..] == actions[1..] + [a];
    }
  }

  lemma Then(actions: seq<Action>, s: State, a: Action) returns (actions': seq<Action>, s': State)
    requires Reaches(actions, s) && Enabled(s, a)
    ensures Reaches(actions', s') && s' == Apply(s, a, NOBODY)
  {
    RunThen(INIT, actions, a);
    actions', s' := actions + [a], Apply(s, a, NOBODY);
  }

  const SCRIPT := "/w/node_modules/p/index.js"
  const MEASURED := FileFingerprint(SCRIPT, 1, 1, Some(7))

  const PAST := [
    Instant(0, 1, map[]),
    Instant(0, 1, map[SCRIPT := Snapshot(1, 1, 7)]),
    Instant(0, 2, map[SCRIPT := Snapshot(1, 1, 7)]),
    Instant(0, 2, map[SCRIPT := Snapshot(2, 2, 8)]),
    Instant(40_000, 2, map[SCRIPT := Snapshot(2, 2, 8)])]

  /** Begun and ended just after the bump. */
  const PROMPT := Check({MEASURED}, 2, 2, map[MEASURED := 2])
  /** Begun before the bump, ended 40 seconds later. */
  const SLOW := Check({MEASURED}, 1, 4, map[MEASURED := 1])

  /** One check cannot replace the two: when the stores of two re-checks interleave, the fast path can answer although no
      check that ended is both begun since the bump and recent. Here the file changed 40 seconds ago. */
  lemma RacedStamps()
    ensures exists actions, r ::
              && IsRun(INIT, actions, NOBODY) && Enabled(Run(INIT, actions, NOBODY), FastHit(r))
              && var s := Run(INIT, actions, NOBODY);
                 && s.ended == [PROMPT, SLOW] && !OneCheck(s, s.looks[r])
                 && !Confirms(Now(s), MEASURED)
                 && s.looks[r].target in s.objects && s.objects[s.looks[r].target].content == {MEASURED}
  {
    hide IsRun, Run;
    var r, s := TwoChecks();
    r, s := RacedStores(r, s);
    r, s := Then(r, s, BeginLook("k"));
    r, s := Then(r, s, LoadGeneration(5));
    r, s := Then(r, s, LoadTime(5));
    assert s.looks[5] == Look(0, 4, Some(Half(2, 0)), Some(Half(40_001, 1)));
    RacedAnswer(s);
  }

  lemma RacedAnswer(s: State)
    requires s.past == PAST && s.ended == [PROMPT, SLOW] && 0 in s.objects && s.objects[0].content == {MEASURED}
    requires 5 in s.looks && s.looks[5] == Look(0, 4, Some(Half(2, 0)), Some(Half(40_001, 1)))
    ensures Enabled(s, FastHit(5)) && !OneCheck(s, s.looks[5]) && !Confirms(Now(s), MEASURED)
  {
    ConfirmationMeans(Now(s), MEASURED);
    assert !InWindow(s.past, PROMPT);
    assert s.past[1].gen != s.past[4].gen;
    assert !NoBump(s.past, SLOW, 4);
  }

  /** Where the two re-checks stand before they store. */
  ghost predicate TwoStamps(s: State) {
    && s.past == PAST && s.ended == [PROMPT, SLOW] && s.nextId == 5 && s.looks == map[]
    && "k" in s.entries && s.entries["k"] == 0 && 0 in s.objects && !s.objects[0].firstParty && s.objects[0].content == {MEASURED}
    && 3 in s.stamps && s.stamps[3] == Pending(0, Half(2, 0), Half(1, 0), false, false)
    && 4 in s.stamps && s.stamps[4] == Pending(0, Half(1, 1), Half(40_001, 1), false, false)
  }

  lemma TwoChecks() returns (r: seq<Action>, s: State)
    ensures Reaches(r, s) && TwoStamps(s)
  {
    assert Reaches([], INIT);
    hide IsRun, Run, Confirms;
    r, s := Then([], INIT, Edit(SCRIPT, Snapshot(1, 1, 7)));
    r, s := Then(r, s, HydrateUnknown("k", {MEASURED}));
    assert s.past == PAST[..2];
    r, s := CheckBeforeTheBump(r, s);
  }

  lemma CheckBeforeTheBump(r0: seq<Action>, s0: State) returns (r: seq<Action>, s: State)
    requires Reaches(r0, s0) && s0.past == PAST[..2] && s0.ended == [] && s0.nextId == 1 && s0.looks == map[] && s0.ops == map[]
    requires "k" in s0.entries && s0.entries["k"] == 0 && 0 in s0.objects && !s0.objects[0].firstParty
    requires s0.objects[0].content == {MEASURED}
    ensures Reaches(r, s) && TwoStamps(s)
  {
    hide IsRun, Run, Confirms;
    r, s := Then(r0, s0, BeginVerify("k"));
    ConfirmationMeans(Now(s), MEASURED);
    r, s := Then(r, s, ProbeInput(1, MEASURED));
    assert s.ops == map[1 := Op("k", Verify(0), 1, 1, {MEASURED}, map[MEASURED := 1])];
    r, s := CheckAfterTheBump(r, s);
  }

  lemma CheckAfterTheBump(r0: seq<Action>, s0: State) returns (r: seq<Action>, s: State)
    requires Reaches(r0, s0) && s0.past == PAST[..2] && s0.ended == [] && s0.nextId == 2 && s0.looks == map[]
    requires "k" in s0.entries && s0.entries["k"] == 0 && 0 in s0.objects && !s0.objects[0].firstParty
    requires s0.objects[0].content == {MEASURED}
    requires s0.ops == map[1 := Op("k", Verify(0), 1, 1, {MEASURED}, map[MEASURED := 1])]
    ensures Reaches(r, s) && TwoStamps(s)
  {
    hide IsRun, Run, Confirms;
    r, s := Then(r0, s0, Bump);
    r, s := Then(r, s, BeginVerify("k"));
    ConfirmationMeans(Now(s), MEASURED);
    r, s := Then(r, s, ProbeInput(2, MEASURED));
    assert s.ops[2] == Op("k", Verify(0), 2, 2, {MEASURED}, map[MEASURED := 2]);
    assert s.past == PAST[..3];
    r, s := BothEnd(r, s);
  }

  lemma BothEnd(r0: seq<Action>, s0: State) returns (r: seq<Action>, s: State)
    requires Reaches(r0, s0) && s0.past == PAST[..3] && s0.ended == [] && s0.nextId == 3 && s0.looks == map[]
    requires "k" in s0.entries && s0.entries["k"] == 0 && 0 in s0.objects && !s0.objects[0].firstParty
    requires s0.objects[0].content == {MEASURED} && 1 in s0.ops && 2 in s0.ops
    requires s0.ops[1] == Op("k", Verify(0), 1, 1, {MEASURED}, map[MEASURED := 1])
    requires s0.ops[2] == Op("k", Verify(0), 2, 2, {MEASURED}, map[MEASURED := 2])
    ensures Reaches(r, s) && TwoStamps(s)
  {
    hide IsRun, Run, Confirms;
    r, s := Then(r0, s0, End(2));
    assert s.ended == [PROMPT];
    r, s := Then(r, s, Edit(SCRIPT, Snapshot(2, 2, 8)));
    assert map[SCRIPT := Snapshot(1, 1, 7)][SCRIPT := Snapshot(2, 2, 8)] == map[SCRIPT := Snapshot(2, 2, 8)];
    assert s.past == PAST[..4];
    r, s := Then(r, s, Tick(40_000));
    assert s.past == PAST;
    r, s := Then(r, s, End(1));
    assert s.ended == [PROMPT, SLOW];
  }

  lemma RacedStores(r0: seq<Action>, s0: State) returns (r: seq<Action>, s: State)
    requires Reaches(r0, s0) && TwoStamps(s0)
    ensures Reaches(r, s) && s.past == PAST && s.ended == [PROMPT, SLOW] && s.nextId == 5 && s.looks == map[]
    ensures "k" in s.entries && s.entries["k"] == 0 && 0 in s.objects && !s.objects[0].firstParty
    ensures s.objects[0].content == {MEASURED} && s.objects[0].generation == Half(2, 0) && s.objects[0].atMillis == Half(40_001, 1)
  {
    hide IsRun, Run, Confirms;
    r, s := Then(r0, s0, StoreGeneration(4));
    r, s := Then(r, s, StoreGeneration(3));
    r, s := Then(r, s, StoreTime(3));
    r, s := Then(r, s, StoreTime(4));
  }
}
