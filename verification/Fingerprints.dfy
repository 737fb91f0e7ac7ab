/** Snapshot consistency and freshness of dependency fingerprints.
    Models daemon/src/cache/key.rs. The file system is a parameter: one probe per path, with the
    content hash taken as injective. */
module Fingerprints {
  import opened Common
  import opened Orders

  datatype FileFingerprint = FileFingerprint(
    path: string, len: nat, modifiedMillis: nat, contentHash: Option<nat>)

  datatype StatProbe = StatOk(len: nat, modifiedMillis: nat) | StatMissing | StatError
  datatype ReadProbe = ReadOk(hash: nat) | ReadMissing | ReadError
  datatype FileProbe = FileProbe(stat: StatProbe, read: ReadProbe)

  /** What stat and read of one undisturbed file, or of one absent path, answer. */
  function PresentFile(len: nat, modifiedMillis: nat, hash: nat): FileProbe {
    FileProbe(StatOk(len, modifiedMillis), ReadOk(hash))
  }

  datatype Freshness = Fresh | Stale | Gone | Unknown

  // ---- One fingerprint against one probe ----

  predicate IsAbsent(f: FileFingerprint) {
    f.len == U64_MAX && f.modifiedMillis == 0 && f.contentHash.None?
  }

  predicate IsUnverifiable(f: FileFingerprint) {
    f.len == U64_MAX && f.modifiedMillis == U64_MAX && f.contentHash.None?
  }

  function AbsentFingerprint(path: string): FileFingerprint { FileFingerprint(path, U64_MAX, 0, None) }

  function UnverifiableFingerprint(path: string): FileFingerprint { FileFingerprint(path, U64_MAX, U64_MAX, None) }

  function VerifyContentHash(read: ReadProbe, expected: nat): Freshness {
    match read
    case ReadOk(hash) => if hash == expected then Fresh else Stale
    case ReadMissing => Gone
    case ReadError => Unknown
  }

  function CheckFingerprint(stored: FileFingerprint, probe: FileProbe): Freshness {
    if IsAbsent(stored) then
      match probe.stat
      case StatOk(_, _) => Stale
      case StatMissing => Fresh
      case StatError => Unknown
    else
      match probe.stat
      case StatMissing => Gone
      case StatError => Unknown
      case StatOk(len, modifiedMillis) =>
        if len == stored.len && modifiedMillis == stored.modifiedMillis then Fresh
        else if stored.contentHash.Some? then VerifyContentHash(probe.read, stored.contentHash.value)
        else Stale
  }

  function CheckFingerprintStrict(stored: FileFingerprint, probe: FileProbe): Freshness {
    if stored.contentHash.Some? then VerifyContentHash(probe.read, stored.contentHash.value)
    else CheckFingerprint(stored, probe)
  }

  const INSTALLED_SEGMENT := "/node_modules/"

  predicate Contains(text: string, part: string) {
    exists i :: 0 <= i <= |text| && part <= text[i..]
  }

  lemma ContainsMeans(text: string, part: string)
    ensures Contains(text, part) <==> exists before, after :: text == before + part + after
  {
    if Contains(text, part) {
      var i :| 0 <= i <= |text| && part <= text[i..];
      assert text == text[..i] + part + text[i + |part|..];
    }
    forall before, after | text == before + part + after ensures part <= text[|before|..] {
      assert text[|before|..] == part + after;
    }
  }

  predicate IsInstalled(f: FileFingerprint) { Contains(f.path, INSTALLED_SEGMENT) }

  /** How the set check classifies one member: installed files trust an unchanged length and mtime,
      first-party files are always hashed. */
  function CheckOne(f: FileFingerprint, world: string -> FileProbe): Freshness {
    if IsInstalled(f) then CheckFingerprint(f, world(f.path)) else CheckFingerprintStrict(f, world(f.path))
  }

  // ---- What the verdicts say, in terms of what stat and read answered ----

  /** The bytes had to be read: a first-party file that was hashed always, an installed one when it is there with another
      length or time. */
  predicate ReadsBytes(f: FileFingerprint, p: FileProbe) {
    f.contentHash.Some? &&
    (Contains(f.path, "/node_modules/") ==> p.stat.StatOk? && (p.stat.len != f.len || p.stat.modifiedMillis != f.modifiedMillis))
  }

  /** Expected not to exist. */
  predicate ExpectsNothing(f: FileFingerprint) {
    f.contentHash.None? && f.len == U64_MAX && f.modifiedMillis == 0
  }

  /** The stat or read it took has failed. */
  predicate Unreadable(f: FileFingerprint, p: FileProbe) {
    if ReadsBytes(f, p) then p.read == ReadError else p.stat == StatError
  }

  /** Missing, and expected to be there. */
  predicate Missing(f: FileFingerprint, p: FileProbe) {
    if ReadsBytes(f, p) then p.read == ReadMissing else p.stat == StatMissing && !ExpectsNothing(f)
  }

  /** Other bytes; or there though expected not to be; or, never hashed, of another length or time. */
  predicate Changed(f: FileFingerprint, p: FileProbe) {
    if ReadsBytes(f, p) then p.read.ReadOk? && Some(p.read.hash) != f.contentHash
    else p.stat.StatOk? && (p.stat.len != f.len || p.stat.modifiedMillis != f.modifiedMillis || ExpectsNothing(f))
  }

  /** The same bytes; or still missing as expected; or the same length and time where bytes are not read. */
  predicate Unchanged(f: FileFingerprint, p: FileProbe) {
    if ReadsBytes(f, p) then p.read.ReadOk? && Some(p.read.hash) == f.contentHash
    else if ExpectsNothing(f) then p.stat == StatMissing
    else p.stat == StatOk(f.len, f.modifiedMillis)
  }

  /** Exactly which answers give each verdict. */
  lemma VerdictsMean(f: FileFingerprint, world: string -> FileProbe)
    ensures CheckOne(f, world) == Unknown <==> Unreadable(f, world(f.path))
    ensures CheckOne(f, world) == Gone <==> Missing(f, world(f.path))
    ensures CheckOne(f, world) == Stale <==> Changed(f, world(f.path))
    ensures CheckOne(f, world) == Fresh <==> Unchanged(f, world(f.path))
  {
  }

  // ---- The freshness of a set ----

  function Rank(f: Freshness): nat {
    match f
    case Fresh => 0
    case Stale => 1
    case Gone => 2
    case Unknown => 3
  }

  /** `worst` is the maximum of the members' classes under Fresh < Stale < Gone < Unknown, and
      Fresh for no members. */
  ghost predicate IsWorst(worst: Freshness, fs: seq<FileFingerprint>, world: string -> FileProbe) {
    && (forall f :: f in fs ==> Rank(CheckOne(f, world)) <= Rank(worst))
    && (worst == Fresh || exists f :: f in fs && CheckOne(f, world) == worst)
  }

  /** The early-exit fold over a fingerprint set computes that maximum. */
  method CheckFingerprintsStrict(fs: seq<FileFingerprint>, world: string -> FileProbe) returns (worst: Freshness)
    ensures IsWorst(worst, fs, world)
    ensures worst == Fresh <==> forall f :: f in fs ==> CheckOne(f, world) == Fresh
  {
    worst := Fresh;
    for i := 0 to |fs|
      invariant worst != Unknown
      invariant IsWorst(worst, fs[..i], world)
    {
      var freshness := CheckOne(fs[i], world);
      assert forall f :: f in fs[..i + 1] <==> f in fs[..i] || f == fs[i];
      ghost var before := worst;
      match freshness {
        case Unknown =>
          worst := Unknown;
          assert forall f :: f in fs ==> Rank(CheckOne(f, world)) <= 3;
          return;
        case Gone => worst := Gone;
        case Stale => if worst == Fresh { worst := Stale; }
        case Fresh =>
      }
      if worst == before && worst != Fresh {
        var f :| f in fs[..i] && CheckOne(f, world) == worst;
        assert f in fs[..i + 1];
      }
    }
    assert fs[..|fs|] == fs;
  }

  ghost predicate SomeUnreadable(fs: seq<FileFingerprint>, world: string -> FileProbe) {
    exists f :: f in fs && Unreadable(f, world(f.path))
  }

  ghost predicate SomeMissing(fs: seq<FileFingerprint>, world: string -> FileProbe) {
    exists f :: f in fs && Missing(f, world(f.path))
  }

  ghost predicate SomeChanged(fs: seq<FileFingerprint>, world: string -> FileProbe) {
    exists f :: f in fs && Changed(f, world(f.path))
  }

  /** A failed probe of any input outweighs everything, a missing input a changed one. */
  lemma WorstMeans(worst: Freshness, fs: seq<FileFingerprint>, world: string -> FileProbe)
    requires IsWorst(worst, fs, world)
    ensures worst == Fresh <==> forall f :: f in fs ==> Unchanged(f, world(f.path))
    ensures worst == Unknown <==> SomeUnreadable(fs, world)
    ensures worst == Gone <==> !SomeUnreadable(fs, world) && SomeMissing(fs, world)
    ensures worst == Stale <==> !SomeUnreadable(fs, world) && !SomeMissing(fs, world) && SomeChanged(fs, world)
  {
    forall f: FileFingerprint
      ensures CheckOne(f, world) == Unknown <==> Unreadable(f, world(f.path))
      ensures CheckOne(f, world) == Gone <==> Missing(f, world(f.path))
      ensures CheckOne(f, world) == Stale <==> Changed(f, world(f.path))
      ensures CheckOne(f, world) == Fresh <==> Unchanged(f, world(f.path))
    {
      VerdictsMean(f, world);
    }
    hide CheckOne, Unreadable, Missing, Changed, Unchanged;
  }

  /** Some input is missing or, unless changes are tolerated, changed; and every one could be probed. */
  ghost predicate Outdated(fs: seq<FileFingerprint>, world: string -> FileProbe, tolerant: bool) {
    !SomeUnreadable(fs, world) && (SomeMissing(fs, world) || (!tolerant && SomeChanged(fs, world)))
  }

  /** An unobserved input never probes Fresh on a file the disk can hold, and an absent one is
      Fresh exactly while the path stays missing. */
  lemma SentinelsProbeAsDocumented(path: string, world: string -> FileProbe)
    ensures CheckOne(AbsentFingerprint(path), world) == Fresh <==> world(path).stat == StatMissing
    ensures CheckOne(UnverifiableFingerprint(path), world) == Fresh <==> world(path).stat == StatOk(U64_MAX, U64_MAX)
    ensures IsAbsent(AbsentFingerprint(path)) && !IsUnverifiable(AbsentFingerprint(path))
    ensures IsUnverifiable(UnverifiableFingerprint(path)) && !IsAbsent(UnverifiableFingerprint(path))
  {
  }

  // ---- Snapshot conflicts ----

  datatype Snapshot = Snapshot(len: nat, modifiedMillis: nat, hash: nat)

  predicate Fits(s: Snapshot, f: FileFingerprint) {
    && s.len == f.len && s.modifiedMillis == f.modifiedMillis
    && (f.contentHash.Some? ==> f.contentHash.value == s.hash)
  }

  /** One (len, mtime, hash) per path fits every observation. */
  ghost predicate ExplainedBy(fs: seq<FileFingerprint>, snapshots: map<string, Snapshot>) {
    forall f :: f in fs ==> f.path in snapshots && Fits(snapshots[f.path], f)
  }

  ghost predicate Compatible(fs: seq<FileFingerprint>) {
    exists snapshots :: ExplainedBy(fs, snapshots)
  }

  datatype Known = Known(len: nat, modifiedMillis: nat, hash: Option<nat>)

  /** What the one-pass check remembers after the observations `fs`. */
  ghost predicate Remembers(observed: map<string, Known>, fs: seq<FileFingerprint>) {
    && (forall f :: f in fs ==> (
          && f.path in observed
          && observed[f.path].len == f.len && observed[f.path].modifiedMillis == f.modifiedMillis
          && (f.contentHash.Some? ==> observed[f.path].hash == f.contentHash)))
    && (forall p :: p in observed ==> exists f :: f in fs && f.path == p)
    && (forall p :: p in observed && observed[p].hash.Some? ==>
          exists f :: f in fs && f.path == p && f.contentHash == observed[p].hash)
  }

  lemma RemembersIsCompatible(observed: map<string, Known>, fs: seq<FileFingerprint>)
    requires Remembers(observed, fs)
    ensures Compatible(fs)
  {
    var snapshots := map p | p in observed ::
      Snapshot(observed[p].len, observed[p].modifiedMillis, if observed[p].hash.Some? then observed[p].hash.value else 0);
    assert ExplainedBy(fs, snapshots);
  }

  lemma ClashIsIncompatible(fs: seq<FileFingerprint>, f: FileFingerprint, g: FileFingerprint)
    requires f in fs && g in fs && f.path == g.path
    requires f.len != g.len || f.modifiedMillis != g.modifiedMillis
             || (f.contentHash.Some? && g.contentHash.Some? && f.contentHash != g.contentHash)
    ensures !Compatible(fs)
  {
    forall snapshots ensures !ExplainedBy(fs, snapshots) {
      assert f.path in snapshots ==> !(Fits(snapshots[f.path], f) && Fits(snapshots[f.path], g));
    }
  }

  /** What one observation does to the memory, or None on a clash. */
  function Observe(observed: map<string, Known>, f: FileFingerprint): Option<map<string, Known>> {
    if f.path !in observed then Some(observed[f.path := Known(f.len, f.modifiedMillis, f.contentHash)])
    else
      var known := observed[f.path];
      if known.len != f.len || known.modifiedMillis != f.modifiedMillis then None
      else match (known.hash, f.contentHash)
        case (Some(left), Some(right)) => if left != right then None else Some(observed)
        case (None, Some(hash)) => Some(observed[f.path := known.(hash := Some(hash))])
        case _ => Some(observed)
  }

  lemma ObserveRemembers(observed: map<string, Known>, fs: seq<FileFingerprint>, f: FileFingerprint)
    requires Remembers(observed, fs) && Observe(observed, f).Some?
    ensures Remembers(Observe(observed, f).value, fs + [f])
  {
    var next := Observe(observed, f).value;
    forall p | p in next ensures exists g :: g in fs + [f] && g.path == p {
      if p == f.path { assert f in fs + [f]; }
      else { var g :| g in fs && g.path == p; assert g in fs + [f]; }
    }
    forall p | p in next && next[p].hash.Some?
      ensures exists g :: g in fs + [f] && g.path == p && g.contentHash == next[p].hash
    {
      if p == f.path && f.contentHash.Some? { assert f in fs + [f]; }
      else { var g :| g in fs && g.path == p && g.contentHash == next[p].hash; assert g in fs + [f]; }
    }
  }

  lemma ObserveClashes(observed: map<string, Known>, fs: seq<FileFingerprint>, all: seq<FileFingerprint>, f: FileFingerprint)
    requires Remembers(observed, fs) && Observe(observed, f).None?
    requires f in all && forall g :: g in fs ==> g in all
    ensures !Compatible(all)
  {
    var known := observed[f.path];
    if known.len != f.len || known.modifiedMillis != f.modifiedMillis {
      var g :| g in fs && g.path == f.path;
      ClashIsIncompatible(all, g, f);
    } else {
      var g :| g in fs && g.path == f.path && g.contentHash == known.hash;
      ClashIsIncompatible(all, g, f);
    }
  }

  lemma RemembersNothing()
    ensures Remembers(map[], [])
  {
  }

  /** The one-pass check reports a conflict exactly when no assignment of snapshots explains the
      observations. */
  method FingerprintsHaveConflictingSnapshots(fs: seq<FileFingerprint>) returns (conflict: bool)
    ensures conflict <==> !Compatible(fs)
  {
    hide Remembers, Compatible, Observe;
    var observed: map<string, Known> := map[];
    RemembersNothing();
    for i := 0 to |fs|
      invariant Remembers(observed, fs[..i])
    {
      var next := Observe(observed, fs[i]);
      if next.None? {
        ObserveClashes(observed, fs[..i], fs, fs[i]);
        return true;
      }
      ObserveRemembers(observed, fs[..i], fs[i]);
      assert fs[..i + 1] == fs[..i] + [fs[i]];
      observed := next.value;
    }
    assert fs[..|fs|] == fs;
    RemembersIsCompatible(observed, fs);
    return false;
  }

  /** A reusable set is consistent and holds no input the analysis failed to read. */
  method FingerprintsAreReusable(fs: seq<FileFingerprint>) returns (reusable: bool)
    ensures reusable <==> Compatible(fs) && forall f :: f in fs ==> !IsUnverifiable(f)
  {
    for i := 0 to |fs|
      invariant forall f :: f in fs[..i] ==> !IsUnverifiable(f)
    {
      if IsUnverifiable(fs[i]) { return false; }
    }
    assert fs[..|fs|] == fs;
    var conflict := FingerprintsHaveConflictingSnapshots(fs);
    return !conflict;
  }

  // ---- Canonical order ----

  predicate HashLe(a: Option<nat>, b: Option<nat>) {
    a.None? || (b.Some? && a.value <= b.value)
  }

  /** Path, then length, then mtime, then hash. */
  predicate FingerprintLe(a: FileFingerprint, b: FileFingerprint) {
    if a.path != b.path then StrLe(a.path, b.path)
    else if a.len != b.len then a.len < b.len
    else if a.modifiedMillis != b.modifiedMillis then a.modifiedMillis < b.modifiedMillis
    else HashLe(a.contentHash, b.contentHash)
  }

  lemma FingerprintLeIsTotal()
    ensures TotalOrder(FingerprintLe)
  {
    forall a, b ensures FingerprintLe(a, b) || FingerprintLe(b, a) { StrLeTotal(a.path, b.path); }
    forall a, b | FingerprintLe(a, b) && FingerprintLe(b, a) ensures a == b {
      if a.path != b.path { StrLeAntisymmetric(a.path, b.path); }
    }
    forall a, b, c | FingerprintLe(a, b) && FingerprintLe(b, c) ensures FingerprintLe(a, c) {
      if a.path != b.path && b.path != c.path {
        StrLeTransitive(a.path, b.path, c.path);
        if a.path == c.path { StrLeAntisymmetric(a.path, b.path); }
      }
    }
  }

  /** By path, then shorter, then older, then unhashed before hashed and by hash. */
  predicate ComesBefore(a: FileFingerprint, b: FileFingerprint) {
    && StrLe(a.path, b.path)
    && (a.path == b.path ==> a.len <= b.len)
    && (a.path == b.path && a.len == b.len ==> a.modifiedMillis <= b.modifiedMillis)
    && (a.path == b.path && a.len == b.len && a.modifiedMillis == b.modifiedMillis ==>
          b.contentHash.Some? && (a.contentHash.Some? ==> a.contentHash.value < b.contentHash.value))
  }

  function SortAndDedup(fs: seq<FileFingerprint>): seq<FileFingerprint> {
    Dedup(Sort(FingerprintLe, fs))
  }

  lemma SortAndDedupMembers(fs: seq<FileFingerprint>)
    ensures forall f :: f in SortAndDedup(fs) <==> f in fs
    ensures StrictlyAscending(FingerprintLe, SortAndDedup(fs))
    ensures var r := SortAndDedup(fs); forall i, j :: 0 <= i < j < |r| ==> ComesBefore(r[i], r[j])
  {
    FingerprintLeIsTotal();
    SortIsSorted(FingerprintLe, fs);
    SameMultisetSameMembers(Sort(FingerprintLe, fs), fs);
    DedupIsStrict(FingerprintLe, Sort(FingerprintLe, fs));
    var r := SortAndDedup(fs);
    forall i, j | 0 <= i < j < |r| ensures ComesBefore(r[i], r[j]) {
      assert FingerprintLe(r[i], r[j]) && r[i] != r[j];
      StrLeTotal(r[i].path, r[i].path);
    }
  }

  /** The canonical form depends only on the set of observations, however ordered or repeated. */
  lemma SortAndDedupIsCanonical(fs: seq<FileFingerprint>, gs: seq<FileFingerprint>)
    requires forall f :: f in fs <==> f in gs
    ensures SortAndDedup(fs) == SortAndDedup(gs)
    ensures SortAndDedup(SortAndDedup(fs)) == SortAndDedup(fs)
  {
    FingerprintLeIsTotal();
    SortAndDedupMembers(fs);
    SortAndDedupMembers(gs);
    SortAndDedupMembers(SortAndDedup(fs));
    StrictIsUnique(FingerprintLe, SortAndDedup(fs), SortAndDedup(gs));
    StrictIsUnique(FingerprintLe, SortAndDedup(SortAndDedup(fs)), SortAndDedup(fs));
  }

  /** Neither order nor repetition changes the conflict verdict, so neither does canonicalizing. */
  lemma ConflictIgnoresOrder(fs: seq<FileFingerprint>, gs: seq<FileFingerprint>)
    requires forall f :: f in fs <==> f in gs
    ensures Compatible(fs) <==> Compatible(gs)
    ensures Compatible(SortAndDedup(fs)) <==> Compatible(fs)
  {
    SortAndDedupMembers(fs);
    if Compatible(fs) { CompatibleMonotone(fs, gs); CompatibleMonotone(fs, SortAndDedup(fs)); }
    if Compatible(gs) { CompatibleMonotone(gs, fs); }
    if Compatible(SortAndDedup(fs)) { CompatibleMonotone(SortAndDedup(fs), fs); }
  }

  lemma CompatibleMonotone(fs: seq<FileFingerprint>, gs: seq<FileFingerprint>)
    requires Compatible(fs) && forall g :: g in gs ==> g in fs
    ensures Compatible(gs)
  {
    var snapshots :| ExplainedBy(fs, snapshots);
    assert ExplainedBy(gs, snapshots);
  }

  // ---- What a conflict does and does not rule out ----

  /** The longest file a disk can hold falls short of the length the sentinels carry. */
  predicate RealFile(s: Snapshot) { s.len < U64_MAX }

  /** An undisturbed disk: the files it holds, any other path missing. */
  type DiskState = map<string, Snapshot>

  function ProbeOf(state: Option<Snapshot>): FileProbe {
    match state
    case Some(s) => PresentFile(s.len, s.modifiedMillis, s.hash)
    case None => FileProbe(StatMissing, ReadMissing)
  }

  function StateOf(disk: DiskState, path: string): Option<Snapshot> {
    if path in disk then Some(disk[path]) else None
  }

  /** The path in this state, real or missing, probes `f` Fresh. */
  predicate Validates(state: Option<Snapshot>, f: FileFingerprint) {
    CheckOne(f, (path: string) => ProbeOf(state)) == Fresh
  }

  /** One state of one path probes every observation of it Fresh. */
  ghost predicate PathValidatable(fs: seq<FileFingerprint>, path: string) {
    exists state: Option<Snapshot> ::
      (state.Some? ==> RealFile(state.value)) && ValidatesPath(fs, path, state)
  }

  ghost predicate ValidatesPath(fs: seq<FileFingerprint>, path: string, state: Option<Snapshot>) {
    forall f :: f in fs && f.path == path ==> Validates(state, f)
  }

  /** One on-disk state probes the whole set Fresh. */
  ghost predicate SetValidatable(fs: seq<FileFingerprint>) {
    exists disk: DiskState ::
      (forall p :: p in disk ==> RealFile(disk[p])) && ValidatesAll(fs, disk)
  }

  ghost predicate ValidatesAll(fs: seq<FileFingerprint>, disk: DiskState) {
    forall f :: f in fs ==> Validates(StateOf(disk, f.path), f)
  }

  predicate SameMetadata(f: FileFingerprint, len: nat, modifiedMillis: nat) {
    f.len == len && f.modifiedMillis == modifiedMillis
  }

  lemma ValidatesMeans(state: Option<Snapshot>, f: FileFingerprint)
    ensures state.None? ==> (Validates(state, f) <==> IsAbsent(f))
    ensures state.Some? && RealFile(state.value) ==>
              (Validates(state, f) <==>
                 !IsAbsent(f)
                 && ((IsInstalled(f) && SameMetadata(f, state.value.len, state.value.modifiedMillis))
                     || (f.contentHash.Some? && f.contentHash.value == state.value.hash)
                     || (f.contentHash.None? && SameMetadata(f, state.value.len, state.value.modifiedMillis))))
  {
  }

  /** No state of different paths interferes: a set is validatable exactly when each of its paths is. */
  lemma SetByPaths(fs: seq<FileFingerprint>)
    ensures SetValidatable(fs) <==> forall p :: p in PathsOf(fs) ==> PathValidatable(fs, p)
  {
    if SetValidatable(fs) {
      var disk :| (forall p :: p in disk ==> RealFile(disk[p])) && ValidatesAll(fs, disk);
      forall p | p in PathsOf(fs) ensures PathValidatable(fs, p) {
        assert ValidatesPath(fs, p, StateOf(disk, p));
      }
    }
    if forall p :: p in PathsOf(fs) ==> PathValidatable(fs, p) {
      var disk := DiskFor(fs, PathsOf(fs));
      assert ValidatesAll(fs, disk);
    }
  }

  function PathsOf(fs: seq<FileFingerprint>): set<string> { set f | f in fs :: f.path }

  /** A disk that validates each of these paths. */
  lemma DiskFor(fs: seq<FileFingerprint>, paths: set<string>) returns (disk: DiskState)
    requires forall p :: p in paths ==> PathValidatable(fs, p)
    ensures forall p :: p in disk ==> RealFile(disk[p])
    ensures forall p :: p in paths ==> ValidatesPath(fs, p, StateOf(disk, p))
    ensures disk.Keys <= paths
    decreases |paths|
  {
    if paths == {} {
      disk := map[];
    } else {
      var p :| p in paths;
      var state: Option<Snapshot> :| (state.Some? ==> RealFile(state.value)) && ValidatesPath(fs, p, state);
      var rest := DiskFor(fs, paths - {p});
      disk := if state.Some? then rest[p := state.value] else rest;
      assert StateOf(disk, p) == state;
      forall q | q in paths && q != p ensures ValidatesPath(fs, q, StateOf(disk, q)) {
        assert StateOf(disk, q) == StateOf(rest, q);
      }
    }
  }

  // ---- The condition on the observations alone ----

  /** All observations of the path say it is missing. */
  predicate AllAbsent(fs: seq<FileFingerprint>, path: string) {
    forall f :: f in fs && f.path == path ==> IsAbsent(f)
  }

  predicate NoneAbsent(fs: seq<FileFingerprint>, path: string) {
    forall f :: f in fs && f.path == path ==> !IsAbsent(f)
  }

  predicate Trusted(f: FileFingerprint, metadata: Option<(nat, nat)>) {
    metadata.Some? && SameMetadata(f, metadata.value.0, metadata.value.1)
  }

  predicate Untrusted(fs: seq<FileFingerprint>, path: string, metadata: Option<(nat, nat)>, f: FileFingerprint) {
    f in fs && f.path == path && !Trusted(f, metadata)
  }

  /** The path's observations with other metadata than this all carry one hash. */
  ghost predicate OthersShareAHash(fs: seq<FileFingerprint>, path: string, metadata: Option<(nat, nat)>) {
    && (forall f :: Untrusted(fs, path, metadata, f) ==> f.contentHash.Some?)
    && (forall f, g :: Untrusted(fs, path, metadata, f) && Untrusted(fs, path, metadata, g) ==> f.contentHash == g.contentHash)
  }

  /** A first-party path: the hashes that are known agree, and so does the metadata of the observations
      without one, which must be that of a real file. */
  predicate FirstPartyAgrees(fs: seq<FileFingerprint>, path: string) {
    && (forall f, g :: f in fs && g in fs && f.path == path && g.path == path && f.contentHash.Some? && g.contentHash.Some? ==>
          f.contentHash == g.contentHash)
    && (forall f, g :: f in fs && g in fs && f.path == path && g.path == path && f.contentHash.None? && g.contentHash.None? ==>
          SameMetadata(f, g.len, g.modifiedMillis))
    && (forall f :: f in fs && f.path == path && f.contentHash.None? ==> f.len < U64_MAX)
  }

  /** An installed path: unchanged metadata is trusted, so observations that share one real file's
      metadata agree whatever their hashes, and the rest must share one hash. */
  ghost predicate InstalledAgrees(fs: seq<FileFingerprint>, path: string) {
    || OthersShareAHash(fs, path, None)
    || (exists g :: g in fs && g.path == path && g.len < U64_MAX && OthersShareAHash(fs, path, Some((g.len, g.modifiedMillis))))
  }

  ghost predicate PathAgrees(fs: seq<FileFingerprint>, path: string) {
    || AllAbsent(fs, path)
    || (NoneAbsent(fs, path)
        && if Contains(path, INSTALLED_SEGMENT) then InstalledAgrees(fs, path) else FirstPartyAgrees(fs, path))
  }

  lemma FirstPartyValidatable(fs: seq<FileFingerprint>, path: string)
    requires NoneAbsent(fs, path) && !Contains(path, INSTALLED_SEGMENT) && path in PathsOf(fs)
    ensures PathValidatable(fs, path) <==> FirstPartyAgrees(fs, path)
  {
    if PathValidatable(fs, path) {
      var state: Option<Snapshot> :| (state.Some? ==> RealFile(state.value)) && ValidatesPath(fs, path, state);
      forall f | f in fs && f.path == path ensures Validates(state, f) { ValidatesMeans(state, f); }
      var f :| f in fs && f.path == path;
      assert state.Some?;
    }
    if FirstPartyAgrees(fs, path) {
      var hash := if h :| h in fs && h.path == path && h.contentHash.Some? then h.contentHash.value else 0;
      var state := if m :| m in fs && m.path == path && m.contentHash.None?
                   then Snapshot(m.len, m.modifiedMillis, hash) else Snapshot(0, 0, hash);
      forall f | f in fs && f.path == path ensures Validates(Some(state), f) { ValidatesMeans(Some(state), f); }
      assert ValidatesPath(fs, path, Some(state));
    }
  }

  /** Some metadata of a real file on which the path's observations agree. */
  lemma SharedMetadata(fs: seq<FileFingerprint>, path: string) returns (len: nat, modifiedMillis: nat)
    requires InstalledAgrees(fs, path)
    ensures len < U64_MAX && OthersShareAHash(fs, path, Some((len, modifiedMillis)))
  {
    if g :| g in fs && g.path == path && g.len < U64_MAX && OthersShareAHash(fs, path, Some((g.len, g.modifiedMillis))) {
      len, modifiedMillis := g.len, g.modifiedMillis;
    } else {
      assert OthersShareAHash(fs, path, None);
      len, modifiedMillis := 0, 0;
      forall f | Untrusted(fs, path, Some((0, 0)), f) ensures Untrusted(fs, path, None, f) { }
    }
  }

  lemma InstalledValidatable(fs: seq<FileFingerprint>, path: string)
    requires NoneAbsent(fs, path) && Contains(path, INSTALLED_SEGMENT) && path in PathsOf(fs)
    ensures PathValidatable(fs, path) <==> InstalledAgrees(fs, path)
  {
    if PathValidatable(fs, path) {
      var state: Option<Snapshot> :| (state.Some? ==> RealFile(state.value)) && ValidatesPath(fs, path, state);
      forall f | f in fs && f.path == path ensures Validates(state, f) { ValidatesMeans(state, f); }
      var f :| f in fs && f.path == path;
      assert state.Some?;
      StateAgrees(fs, path, state.value);
    }
    if InstalledAgrees(fs, path) {
      var len, modifiedMillis := SharedMetadata(fs, path);
      var metadata := Some((len, modifiedMillis));
      var hash := if h :| Untrusted(fs, path, metadata, h) then h.contentHash.value else 0;
      var state := Snapshot(len, modifiedMillis, hash);
      forall f | f in fs && f.path == path ensures Validates(Some(state), f) {
        ValidatesMeans(Some(state), f);
        assert Trusted(f, metadata) || Untrusted(fs, path, metadata, f);
      }
      assert ValidatesPath(fs, path, Some(state));
    }
  }

  /** What one state of an installed file validates agrees on that state's metadata. */
  lemma StateAgrees(fs: seq<FileFingerprint>, path: string, state: Snapshot)
    requires RealFile(state) && ValidatesPath(fs, path, Some(state))
    requires Contains(path, INSTALLED_SEGMENT) && NoneAbsent(fs, path)
    ensures InstalledAgrees(fs, path)
  {
    forall f | f in fs && f.path == path
      ensures SameMetadata(f, state.len, state.modifiedMillis) || (f.contentHash.Some? && f.contentHash.value == state.hash)
    {
      ValidatesMeans(Some(state), f);
      assert Validates(Some(state), f);
    }
    if g :| g in fs && g.path == path && SameMetadata(g, state.len, state.modifiedMillis) {
      assert OthersShareAHash(fs, path, Some((g.len, g.modifiedMillis)));
    } else {
      assert OthersShareAHash(fs, path, None);
    }
  }

  /** One path: some state, real or missing, validates its observations exactly when they all say it is
      missing, or none does and they agree as its kind requires. */
  lemma PathValidatableExactly(fs: seq<FileFingerprint>, path: string)
    requires path in PathsOf(fs)
    ensures PathValidatable(fs, path) <==> PathAgrees(fs, path)
  {
    if AllAbsent(fs, path) {
      forall f | f in fs && f.path == path ensures Validates(None, f) { ValidatesMeans(None, f); }
      assert ValidatesPath(fs, path, None);
    } else if NoneAbsent(fs, path) {
      if Contains(path, INSTALLED_SEGMENT) { InstalledValidatable(fs, path); } else { FirstPartyValidatable(fs, path); }
    } else {
      var missing :| missing in fs && missing.path == path && IsAbsent(missing);
      var present :| present in fs && present.path == path && !IsAbsent(present);
      forall state: Option<Snapshot> | state.Some? ==> RealFile(state.value) ensures !ValidatesPath(fs, path, state) {
        ValidatesMeans(state, missing);
        ValidatesMeans(state, present);
      }
    }
  }

  /** The source's comment says no on-disk state validates a conflicting set. It is so exactly for the
      sets with a path on which the observations do not agree; a conflict alone does not decide it. */
  lemma SetValidatableExactly(fs: seq<FileFingerprint>)
    ensures SetValidatable(fs) <==> forall p :: p in PathsOf(fs) ==> PathAgrees(fs, p)
  {
    SetByPaths(fs);
    forall p | p in PathsOf(fs) ensures PathValidatable(fs, p) <==> PathAgrees(fs, p) { PathValidatableExactly(fs, p); }
  }

  /** A concrete conflict that one state of the file validates: a touched file, same content. */
  lemma ConflictThatValidates()
    ensures var f, g := FileFingerprint("/w/a.css", 1, 1, Some(7)), FileFingerprint("/w/a.css", 1, 2, Some(7));
            !Compatible([f, g]) && SetValidatable([f, g])
  {
    var f, g := FileFingerprint("/w/a.css", 1, 1, Some(7)), FileFingerprint("/w/a.css", 1, 2, Some(7));
    ClashIsIncompatible([f, g], f, g);
    var disk := map["/w/a.css" := Snapshot(1, 2, 7)];
    assert ValidatesAll([f, g], disk);
  }

  /** Pairs do not decide a set: three observations of an installed file, any two of which one state
      validates, though none validates all three. */
  lemma PairsDoNotDecide(path: string)
    requires Contains(path, INSTALLED_SEGMENT)
    ensures var a, b, c := FileFingerprint(path, 1, 1, Some(1)), FileFingerprint(path, 2, 2, Some(2)), FileFingerprint(path, 3, 3, Some(3));
            && SetValidatable([a, b]) && SetValidatable([a, c]) && SetValidatable([b, c])
            && !SetValidatable([a, b, c])
  {
    var a, b, c := FileFingerprint(path, 1, 1, Some(1)), FileFingerprint(path, 2, 2, Some(2)), FileFingerprint(path, 3, 3, Some(3));
    assert ValidatesAll([a, b], map[path := Snapshot(1, 1, 2)]);
    assert ValidatesAll([a, c], map[path := Snapshot(1, 1, 3)]);
    assert ValidatesAll([b, c], map[path := Snapshot(2, 2, 3)]);
    var fs := [a, b, c];
    assert a in fs && b in fs && c in fs;
    forall disk: DiskState | forall p :: p in disk ==> RealFile(disk[p]) ensures !ValidatesAll(fs, disk) {
      ValidatesMeans(StateOf(disk, path), a);
      ValidatesMeans(StateOf(disk, path), b);
      ValidatesMeans(StateOf(disk, path), c);
    }
  }
}
