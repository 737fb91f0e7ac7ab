/** The byte budget across shards: evict the globally oldest batch until the total is low enough.
    Models daemon/src/cache/budget.rs. A shard that honours its contract answers as ImportCaches and
    DiskCaches prove; any other shard may answer anything. */
module Budget {
  import opened Common
  import opened Orders
  import opened Disk
  import opened DiskCaches
  import opened MemoryCache

  const EVICTION_FLOOR: nat := 128

  datatype Rollup = Rollup(totalBytes: nat, oldestSeq: nat, entryCount: nat)

  /** One shard's committed tables and the working set in front of them. */
  datatype Shard = Shard(tables: Tables, memory: map<string, CachedImport>)

  function RollupOf(s: Shard): Rollup {
    Rollup(s.tables.totalBytes, if s.tables.index == [] then U64_MAX else s.tables.index[0].0, s.tables.entryCount)
  }

  ghost function Bytes(s: Shard): nat { ByteSum(s.tables.rows) }

  function Victims(s: Shard, n: nat, floor: nat): seq<string> {
    Take(ColdKeys(s.memory, Oldest(s.tables.index, MAX_EVICTION_SCAN, floor)), n)
  }

  // ---- What one batch leaves alone ----

  /** The newest rows, which the floor protects. */
  function Newest(index: seq<IndexRow>): seq<IndexRow> {
    if |index| <= EVICTION_FLOOR then index else index[|index| - EVICTION_FLOOR..]
  }

  /** Rows only went away, and none of the newest. */
  ghost predicate FloorKept(before: Tables, after: Tables) {
    && Newest(after.index) == Newest(before.index)
    && (forall k :: k in after.rows ==> k in before.rows && after.rows[k] == before.rows[k])
  }

  function Without(index: seq<IndexRow>, keys: set<string>): seq<IndexRow> {
    if index == [] then []
    else if index[0].1 in keys then Without(index[1..], keys)
    else [index[0]] + Without(index[1..], keys)
  }

  lemma {:induction false} WithoutMembers(index: seq<IndexRow>, keys: set<string>)
    ensures forall e :: e in Without(index, keys) <==> e in index && e.1 !in keys
  {
    if index != [] {
      WithoutMembers(index[1..], keys);
      assert index == [index[0]] + index[1..];
    }
  }

  lemma {:induction false} WithoutAscending(index: seq<IndexRow>, keys: set<string>)
    requires Ascending(index)
    ensures Ascending(Without(index, keys))
    decreases |index|
  {
    if index != [] {
      WithoutAscending(index[1..], keys);
      var rest := Without(index[1..], keys);
      if index[0].1 !in keys {
        assert ([index[0]] + rest)[1..] == rest;
        WithoutMembers(index[1..], keys);
        if rest != [] { AscendingHead(index, rest[0]); }
      }
    }
  }

  lemma AscendingIsStrict(index: seq<IndexRow>)
    requires Ascending(index)
    ensures StrictlyAscending(RowLe, index)
  {
    forall i, j | 0 <= i < j < |index| ensures RowLe(index[i], index[j]) && index[i] != index[j] { AscendingAt(index, i, j); }
  }

  lemma {:induction false} WithoutAppend(a: seq<IndexRow>, b: seq<IndexRow>, keys: set<string>)
    requires forall e :: e in b ==> e.1 !in keys
    ensures Without(a + b, keys) == Without(a, keys) + b
  {
    if a == [] {
      assert a + b == b;
      if b != [] {
        WithoutAppend([], b[1..], keys);
        assert [] + b[1..] == b[1..];
      }
    } else {
      WithoutAppend(a[1..], b, keys);
      assert (a + b)[1..] == a[1..] + b;
      assert (a + b)[0] == a[0];
    }
  }

  /** The index after a removal is the old one with those keys filtered out. */
  lemma RemovalFilters(t: Tables, keys: set<string>, t': Tables)
    requires IndexMirrors(t.index, t.rows) && IndexMirrors(t'.index, t'.rows) && t'.rows == t.rows - keys
    ensures t'.index == Without(t.index, keys)
  {
    WithoutMembers(t.index, keys);
    WithoutAscending(t.index, keys);
    forall e ensures e in t'.index <==> e in Without(t.index, keys) { }
    AscendingIsStrict(Without(t.index, keys));
    AscendingIsStrict(t'.index);
    RowLeIsTotal();
    StrictIsUnique(RowLe, t'.index, Without(t.index, keys));
  }

  /** Each key has one index row. */
  lemma KeyOnce(t: Tables, i: nat, j: nat)
    requires IndexMirrors(t.index, t.rows) && i < j < |t.index|
    ensures t.index[i].1 != t.index[j].1
  {
    AscendingAt(t.index, i, j);
    assert t.index[i] in t.index && t.index[j] in t.index;
  }

  /** Every key sits below the floor. */
  ghost predicate BelowFloor(index: seq<IndexRow>, keys: set<string>) {
    forall k :: k in keys ==> exists i :: 0 <= i < EvictableCount(|index|, EVICTION_FLOOR) && index[i].1 == k
  }

  /** Removing keys that all sit below the floor leaves the newest rows in place. */
  lemma BatchKeepsFloor(t: Tables, keys: set<string>, t': Tables)
    requires Disk.Consistent(t) && Disk.Consistent(t') && t'.rows == t.rows - keys && BelowFloor(t.index, keys)
    ensures FloorKept(t, t')
  {
    var cut := EvictableCount(|t.index|, EVICTION_FLOOR);
    var low, high := t.index[..cut], t.index[cut..];
    assert t.index == low + high;
    forall j | cut <= j < |t.index| ensures t.index[j].1 !in keys {
      forall i | 0 <= i < cut ensures t.index[i].1 != t.index[j].1 { KeyOnce(t, i, j); }
    }
    RemovalFilters(t, keys, t');
    WithoutAppend(low, high, keys);
    if cut == 0 { assert low == []; }
  }

  /** Victims lie below the floor. */
  lemma VictimsBelowFloor(s: Shard, n: nat, floor: nat)
    ensures |Victims(s, n, floor)| <= n
    ensures floor == EVICTION_FLOOR ==> BelowFloor(s.tables.index, KeySet(Victims(s, n, floor)))
  {
    var rows := Oldest(s.tables.index, MAX_EVICTION_SCAN, floor);
    forall k | k in Victims(s, n, floor)
      ensures exists i :: 0 <= i < EvictableCount(|s.tables.index|, floor) && s.tables.index[i].1 == k
    {
      ColdKeysAreCold(s.memory, rows, k);
      var i :| 0 <= i < |rows| && rows[i].1 == k;
      assert s.tables.index[i] == rows[i];
    }
  }

  // ---- The shards of one pass ----

  /** The positions whose id has not occurred before. */
  function FirstPositions(ids: seq<string>): (work: seq<nat>)
    ensures forall w :: w in work ==> w < |ids|
  {
    if ids == [] then []
    else
      var n := |ids| - 1;
      FirstPositions(ids[..n]) + (if ids[n] in ids[..n] then [] else [n])
  }

  predicate DistinctIds(ids: seq<string>, work: seq<nat>) {
    && (forall a :: 0 <= a < |work| ==> work[a] < |ids|)
    && (forall a, b :: 0 <= a < b < |work| ==> ids[work[a]] != ids[work[b]])
  }

  /** One position per id, its first. */
  lemma {:induction false} FirstPositionsAreFirst(ids: seq<string>, w: nat)
    requires w < |ids|
    ensures w in FirstPositions(ids) <==> ids[w] !in ids[..w]
  {
    var n := |ids| - 1;
    if w < n {
      FirstPositionsAreFirst(ids[..n], w);
      assert ids[..n][..w] == ids[..w];
    }
  }

  lemma {:induction false} FirstPositionsDistinct(ids: seq<string>)
    ensures DistinctIds(ids, FirstPositions(ids))
  {
    if ids != [] {
      var n := |ids| - 1;
      FirstPositionsDistinct(ids[..n]);
      var work := FirstPositions(ids[..n]);
      forall a | 0 <= a < |work| ensures ids[work[a]] in ids[..n] && work[a] < n {
        assert ids[work[a]] == ids[..n][work[a]];
      }
    }
  }

  ghost function FleetBytes(shards: seq<Shard>, work: seq<nat>): nat {
    if work == [] then 0
    else (if work[0] < |shards| then Bytes(shards[work[0]]) else 0) + FleetBytes(shards, work[1..])
  }

  lemma {:induction false} FleetBytesUpdate(shards: seq<Shard>, work: seq<nat>, i: nat, s: Shard)
    requires i < |shards| && forall a, b :: 0 <= a < b < |work| ==> work[a] != work[b]
    ensures FleetBytes(shards[i := s], work)
         == FleetBytes(shards, work) + (if i in work then Bytes(s) - Bytes(shards[i]) else 0)
  {
    if work != [] {
      FleetBytesUpdate(shards, work[1..], i, s);
      assert work == [work[0]] + work[1..];
    }
  }

  lemma {:induction false} FleetBytesAppend(shards: seq<Shard>, work: seq<nat>, w: nat)
    requires w < |shards|
    ensures FleetBytes(shards, work + [w]) == FleetBytes(shards, work) + Bytes(shards[w])
  {
    if work == [] {
      assert [w][1..] == [];
    } else {
      FleetBytesAppend(shards, work[1..], w);
      assert (work + [w])[1..] == work[1..] + [w];
    }
  }

  /** The shards handed to one pass; several may carry one id. */
  class Fleet {
    const ids: seq<string>
    /** Which shards honour the contract. */
    const honest: nat -> bool
    var shards: seq<Shard>
    /** How many of the honest shards' removals have not committed. */
    ghost var Aborts: nat

    ghost predicate Valid() reads this {
      |shards| == |ids| && forall i :: 0 <= i < |shards| && honest(i) ==> Disk.Consistent(shards[i].tables)
    }

    constructor (ids: seq<string>, shards: seq<Shard>, honest: nat -> bool)
      requires |shards| == |ids| && forall i :: 0 <= i < |shards| && honest(i) ==> Disk.Consistent(shards[i].tables)
      ensures Valid() && this.ids == ids && this.shards == shards && this.honest == honest
    {
      this.ids, this.shards, this.honest, Aborts := ids, shards, honest, 0;
    }

    method RollupAt(i: nat) returns (r: Rollup)
      requires i < |shards|
      ensures honest(i) ==> r == RollupOf(shards[i])
    {
      r := RollupOf(shards[i]);
      if !honest(i) { r := *; }
    }

    method LowestSeqKeys(i: nat, n: nat, floor: nat) returns (keys: seq<string>)
      requires i < |shards|
      ensures honest(i) ==> keys == Victims(shards[i], n, floor)
    {
      keys := Victims(shards[i], n, floor);
      if !honest(i) { keys := *; }
    }

    /** One shard's eviction. An honest one reports what its transaction freed, nothing when it does
        not commit; any other may end up anyhow and claim anything. */
    method EvictKeys(i: nat, keys: seq<string>) returns (freed: nat)
      requires Valid() && i < |shards|
      modifies this
      ensures Valid() && shards == old(shards)[i := shards[i]]
      ensures honest(i) ==> Removed(old(shards[i]), keys, shards[i], freed)
      ensures Aborts >= old(Aborts)
      ensures honest(i) && Aborts == old(Aborts) ==> freed == WouldFree(old(shards[i]), keys)
    {
      var s := shards[i];
      if honest(i) {
        var commits, bytes, tables := TryRemovals(s.tables, keys);
        if !commits { Aborts := Aborts + 1; }
        freed := bytes;
        s := Shard(tables, s.memory - KeySet(keys));
      } else {
        freed := *;
        s := *;
      }
      shards := shards[i := s];
    }
  }

  /** The bytes of the rows a committed removal of `keys` deletes. */
  ghost function WouldFree(s: Shard, keys: seq<string>): int {
    ByteSum(s.tables.rows) - ByteSum(s.tables.rows - KeySet(keys))
  }

  ghost predicate Removed(before: Shard, keys: seq<string>, after: Shard, freed: nat) {
    && Disk.Consistent(after.tables)
    && (after.tables == before.tables || after.tables.rows == before.tables.rows - KeySet(keys))
    && freed == Bytes(before) - Bytes(after)
  }

  // ---- The eviction loop ----

  datatype Outcome = Outcome(evictedBytes: nat, evictedKeys: nat, stillOverBudget: bool)

  predicate Eligible(ids: seq<string>, w: nat, rollups: map<string, Rollup>, exhausted: set<string>) {
    w < |ids| && ids[w] !in exhausted && ids[w] in rollups && rollups[ids[w]].entryCount > EVICTION_FLOOR
  }

  /** A shard, among those with entries above their floor and not retired, whose
      oldest entry is globally oldest. */
  method PickVictim(ids: seq<string>, work: seq<nat>, rollups: map<string, Rollup>, exhausted: set<string>)
    returns (victim: Option<nat>)
    ensures victim.None? <==> forall w :: w in work ==> !Eligible(ids, w, rollups, exhausted)
    ensures victim.Some? ==>
              && victim.value in work && Eligible(ids, victim.value, rollups, exhausted)
              && forall w :: w in work && Eligible(ids, w, rollups, exhausted) ==>
                   rollups[ids[victim.value]].oldestSeq <= rollups[ids[w]].oldestSeq
  {
    victim := None;
    for a := 0 to |work|
      invariant victim.None? <==> forall w :: w in work[..a] ==> !Eligible(ids, w, rollups, exhausted)
      invariant victim.Some? ==>
                  && victim.value in work[..a] && Eligible(ids, victim.value, rollups, exhausted)
                  && forall w :: w in work[..a] && Eligible(ids, w, rollups, exhausted) ==>
                       rollups[ids[victim.value]].oldestSeq <= rollups[ids[w]].oldestSeq
    {
      assert work[..a + 1] == work[..a] + [work[a]];
      if Eligible(ids, work[a], rollups, exhausted)
         && (victim.None? || rollups[ids[work[a]]].oldestSeq < rollups[ids[victim.value]].oldestSeq) {
        victim := Some(work[a]);
      }
    }
    assert work[..|work|] == work;
  }

  /** One batch, with the state it was chosen in. */
  datatype Round = Round(victim: nat, shards: seq<Shard>, exhausted: set<string>, total: nat, keys: seq<string>, freed: nat)

  ghost predicate AllHonest(work: seq<nat>, honest: nat -> bool) {
    forall w :: w in work ==> honest(w)
  }

  /** Above its floor and not retired. */
  predicate Open(ids: seq<string>, r: Round, w: nat) {
    w < |r.shards| && w < |ids| && ids[w] !in r.exhausted && r.shards[w].tables.entryCount > EVICTION_FLOOR
  }

  /** The victim stores a sequence no greater than any other open shard does. */
  ghost predicate HoldsOldest(ids: seq<string>, work: seq<nat>, r: Round) {
    r.victim < |r.shards|
    && exists oldest ::
         && oldest in r.shards[r.victim].tables.rows
         && forall w, k :: w in work && Open(ids, r, w) && k in r.shards[w].tables.rows ==>
              DecodeLastSeq(r.shards[r.victim].tables.rows[oldest]) <= DecodeLastSeq(r.shards[w].tables.rows[k])
  }

  /** The rows the victim search of a pass covers: the oldest beyond the floor, as far as it scans. */
  predicate Searched(index: seq<IndexRow>, i: nat) { i < MAX_EVICTION_SCAN && i < |index| - EVICTION_FLOOR }

  /** `keys` are what a batch takes from the shard: up to 128 keys of the searched rows, oldest first, passing over
      exactly those used since their row was written. */
  ghost predicate BatchOf(s: Shard, keys: seq<string>) {
    var index := s.tables.index;
    Picks(s.memory, index[..if |index| <= EVICTION_FLOOR then 0 else Min(MAX_EVICTION_SCAN, |index| - EVICTION_FLOOR)],
          EVICTION_BATCH, keys)
  }

  /** Every key the victim search covers was used since its row was written. */
  ghost predicate AllInUse(s: Shard) {
    forall i :: 0 <= i < |s.tables.index| && Searched(s.tables.index, i) ==>
      s.tables.index[i].1 in s.memory && s.memory[s.tables.index[i].1].lastSeq > s.tables.index[i].0
  }

  lemma VictimsAreABatch(s: Shard)
    ensures BatchOf(s, Victims(s, EVICTION_BATCH, EVICTION_FLOOR))
  {
    WindowPicks(s.memory, s.tables.index, EVICTION_BATCH, EVICTION_FLOOR);
  }

  /** A shard has no victims exactly when it is at its floor or all it could give up is in use. */
  lemma NoVictims(s: Shard)
    ensures Victims(s, EVICTION_BATCH, EVICTION_FLOOR) == [] <==> |s.tables.index| <= EVICTION_FLOOR || AllInUse(s)
  {
    VictimsAreABatch(s);
    hide Victims, Picks, AllInUse;
    var index := s.tables.index;
    var n := if |index| <= EVICTION_FLOOR then 0 else Min(MAX_EVICTION_SCAN, |index| - EVICTION_FLOOR);
    PicksNothing(s.memory, index[..n], EVICTION_BATCH, Victims(s, EVICTION_BATCH, EVICTION_FLOOR));
    if n > 0 { WindowInUse(s, n); }
  }

  lemma WindowInUse(s: Shard, n: nat)
    requires |s.tables.index| > EVICTION_FLOOR && n == Min(MAX_EVICTION_SCAN, |s.tables.index| - EVICTION_FLOOR)
    ensures AllInUse(s) <==> forall i :: 0 <= i < n ==>
              s.tables.index[..n][i].1 in s.memory && s.memory[s.tables.index[..n][i].1].lastSeq > s.tables.index[..n][i].0
  {
    forall i | 0 <= i < n ensures s.tables.index[..n][i] == s.tables.index[i] && Searched(s.tables.index, i) { }
    forall i | 0 <= i < |s.tables.index| && Searched(s.tables.index, i) ensures i < n { }
  }

  /** A batch comes while the total is above the mark, from an open shard that holds the globally oldest entry of
      them, and is what the search of that shard yields. */
  ghost predicate RoundOk(ids: seq<string>, work: seq<nat>, lowWater: nat, r: Round) {
    && r.total > lowWater
    && r.victim in work && Open(ids, r, r.victim) && HoldsOldest(ids, work, r)
    && r.keys == Victims(r.shards[r.victim], EVICTION_BATCH, EVICTION_FLOOR) && r.keys != []
    && BatchOf(r.shards[r.victim], r.keys)
  }

  /** What the pass knows of every shard while it runs. */
  ghost predicate Tracked(ids: seq<string>, honest: nat -> bool, work: seq<nat>, shards: seq<Shard>,
                          rollups: map<string, Rollup>, exhausted: set<string>, failed: set<string>)
  {
    && |shards| == |ids| && failed <= exhausted
    && (forall w :: w in work ==> w < |ids| && ids[w] in rollups)
    && (forall w :: w in work && honest(w) ==> rollups[ids[w]] == RollupOf(shards[w]))
    && (forall w :: w in work && honest(w) && ids[w] in exhausted && ids[w] !in failed ==>
          Victims(shards[w], EVICTION_BATCH, EVICTION_FLOOR) == [])
  }

  /** How the shards compare with the start of the pass. */
  ghost predicate Trimmed(honest: nat -> bool, work: seq<nat>, before: seq<Shard>, after: seq<Shard>) {
    && |before| == |after|
    && (forall i :: 0 <= i < |before| && i !in work ==> after[i] == before[i])
    && (forall i :: 0 <= i < |before| && honest(i) ==> FloorKept(before[i].tables, after[i].tables))
  }

  lemma TrackedStep(ids: seq<string>, honest: nat -> bool, work: seq<nat>, shards: seq<Shard>,
                    rollups: map<string, Rollup>, exhausted: set<string>, failed: set<string>,
                    victim: nat, s: Shard, view: Rollup, freed: nat)
    requires Tracked(ids, honest, work, shards, rollups, exhausted, failed) && DistinctIds(ids, work)
    requires victim in work && ids[victim] !in exhausted && (honest(victim) ==> view == RollupOf(s))
    ensures Tracked(ids, honest, work, shards[victim := s], rollups[ids[victim] := view],
                    if freed == 0 then exhausted + {ids[victim]} else exhausted,
                    if freed == 0 then failed + {ids[victim]} else failed)
  {
    forall w | w in work && w != victim ensures ids[w] != ids[victim] {
      var a :| 0 <= a < |work| && work[a] == w;
      var b :| 0 <= b < |work| && work[b] == victim;
      assert a < b || b < a;
    }
  }

  lemma RetiredStep(ids: seq<string>, honest: nat -> bool, work: seq<nat>, shards: seq<Shard>,
                    rollups: map<string, Rollup>, exhausted: set<string>, failed: set<string>, victim: nat)
    requires Tracked(ids, honest, work, shards, rollups, exhausted, failed) && DistinctIds(ids, work) && victim in work
    requires honest(victim) ==> Victims(shards[victim], EVICTION_BATCH, EVICTION_FLOOR) == []
    ensures Tracked(ids, honest, work, shards, rollups, exhausted + {ids[victim]}, failed)
  {
    forall w | w in work && ids[w] == ids[victim] ensures w == victim {
      var a :| 0 <= a < |work| && work[a] == w;
      var b :| 0 <= b < |work| && work[b] == victim;
      assert a == b || a < b || b < a;
    }
  }

  lemma TrimmedStep(honest: nat -> bool, work: seq<nat>, before: seq<Shard>, shards: seq<Shard>, victim: nat,
                    s: Shard, freed: nat, keys: seq<string>)
    requires Trimmed(honest, work, before, shards) && victim in work && victim < |shards|
    requires honest(victim) ==>
               && Disk.Consistent(shards[victim].tables) && Removed(shards[victim], keys, s, freed)
               && keys == Victims(shards[victim], EVICTION_BATCH, EVICTION_FLOOR)
    ensures Trimmed(honest, work, before, shards[victim := s])
  {
    if honest(victim) {
      var t, t' := shards[victim].tables, s.tables;
      VictimsBelowFloor(shards[victim], EVICTION_BATCH, EVICTION_FLOOR);
      if t' != t { BatchKeepsFloor(t, KeySet(keys), t'); }
      FloorKeptThen(before[victim].tables, t, t');
    }
    hide FloorKept, Disk.Consistent, Removed, Victims;
  }

  lemma FloorKeptThen(a: Tables, b: Tables, c: Tables)
    requires FloorKept(a, b) && (c == b || FloorKept(b, c))
    ensures FloorKept(a, c)
  {
  }

  /** Bytes freed so far, when every shard reports honestly. */
  ghost predicate Booked(honest: nat -> bool, work: seq<nat>, before: seq<Shard>, shards: seq<Shard>, total: nat, freed: nat) {
    AllHonest(work, honest) ==> total == FleetBytes(shards, work) && freed + total == FleetBytes(before, work)
  }

  lemma DistinctPositions(ids: seq<string>, work: seq<nat>)
    requires DistinctIds(ids, work)
    ensures forall a, b :: 0 <= a < b < |work| ==> work[a] != work[b]
  {
    forall a, b | 0 <= a < b < |work| ensures work[a] != work[b] { assert ids[work[a]] != ids[work[b]]; }
  }

  function MinusFloored(total: nat, freed: nat): nat { if freed <= total then total - freed else 0 }

  lemma BookedStep(ids: seq<string>, honest: nat -> bool, work: seq<nat>, before: seq<Shard>, shards: seq<Shard>,
                   total: nat, bytes: nat, victim: nat, s: Shard, keys: seq<string>, freed: nat)
    requires Booked(honest, work, before, shards, total, bytes) && DistinctIds(ids, work)
    requires victim in work && victim < |shards|
    requires honest(victim) ==> Removed(shards[victim], keys, s, freed)
    ensures Booked(honest, work, before, shards[victim := s], MinusFloored(total, freed), bytes + freed)
    ensures AllHonest(work, honest) ==> freed <= total
  {
    DistinctPositions(ids, work);
    FleetBytesUpdate(shards, work, victim, s);
  }

  function FreedIn(rounds: seq<Round>): nat {
    if rounds == [] then 0 else FreedIn(rounds[..|rounds| - 1]) + rounds[|rounds| - 1].freed
  }

  function KeysIn(rounds: seq<Round>): nat {
    if rounds == [] then 0 else KeysIn(rounds[..|rounds| - 1]) + |rounds[|rounds| - 1].keys|
  }

  function IdAt(ids: seq<string>, w: nat): string { if w < |ids| then ids[w] else "" }

  /** The batches so far, when every shard reports honestly: each well chosen, the last leaving `total`. */
  ghost predicate RoundsOk(ids: seq<string>, honest: nat -> bool, work: seq<nat>, lowWater: nat, rounds: seq<Round>, total: nat) {
    AllHonest(work, honest) ==>
      && (forall r :: r in rounds ==> RoundOk(ids, work, lowWater, r))
      && (rounds != [] ==> rounds[|rounds| - 1].total == total + rounds[|rounds| - 1].freed)
  }

  ghost predicate FailedRounds(ids: seq<string>, rounds: seq<Round>, failed: set<string>) {
    && (forall id :: id in failed ==> exists r :: r in rounds && r.freed == 0 && r.victim < |ids| && ids[r.victim] == id)
    && (forall r :: r in rounds && r.freed == 0 ==> IdAt(ids, r.victim) in failed)
  }

  /** Nothing more to take from this shard in this pass: it is at its floor, everything the search
      window covers is in use, or a batch of it freed nothing. */
  ghost predicate Stuck(ids: seq<string>, w: nat, s: Shard, rounds: seq<Round>) {
    || s.tables.entryCount <= EVICTION_FLOOR
    || |s.tables.index| <= EVICTION_FLOOR || AllInUse(s)
    || (exists r :: r in rounds && r.freed == 0 && r.victim < |ids| && ids[r.victim] == IdAt(ids, w))
  }

  ghost predicate AllStuck(ids: seq<string>, work: seq<nat>, shards: seq<Shard>, rounds: seq<Round>) {
    forall w :: w in work ==> w < |shards| && Stuck(ids, w, shards[w], rounds)
  }

  /** Whoever is retired was retired for cause. */
  ghost predicate RetiredForCause(ids: seq<string>, honest: nat -> bool, work: seq<nat>, shards: seq<Shard>,
                                  exhausted: set<string>, rounds: seq<Round>)
  {
    forall w :: w in work && honest(w) && IdAt(ids, w) in exhausted ==> w < |shards| && Stuck(ids, w, shards[w], rounds)
  }

  /** A batch in its place: what `earlier` left it, and how it left `after`. Only its victim changed, and an honest one
      lost exactly what `Removed` allows; nobody was passed over without cause; a shard that freed nothing is not asked
      again; and the total it acted on was the real one. */
  ghost predicate Linked(ids: seq<string>, honest: nat -> bool, work: seq<nat>, earlier: seq<Round>, r: Round, after: seq<Shard>) {
    && r.victim in work && r.victim < |r.shards| == |after|
    && after == r.shards[r.victim := after[r.victim]]
    && (honest(r.victim) ==> Removed(r.shards[r.victim], r.keys, after[r.victim], r.freed))
    && RetiredForCause(ids, honest, work, r.shards, r.exhausted, earlier)
    && (forall q :: q in earlier && q.freed == 0 ==> IdAt(ids, q.victim) != IdAt(ids, r.victim))
    && (AllHonest(work, honest) ==> r.total == FleetBytes(r.shards, work))
  }

  /** The batches lead from one state of the shards to another, each from where the one before it ended. */
  ghost predicate Chained(ids: seq<string>, honest: nat -> bool, work: seq<nat>, before: seq<Shard>, rounds: seq<Round>,
                          after: seq<Shard>)
    decreases |rounds|
  {
    if rounds == [] then after == before
    else
      var n := |rounds| - 1;
      && Linked(ids, honest, work, rounds[..n], rounds[n], after)
      && Chained(ids, honest, work, before, rounds[..n], rounds[n].shards)
  }

  lemma ChainGrows(ids: seq<string>, honest: nat -> bool, work: seq<nat>, before: seq<Shard>, rounds: seq<Round>, r: Round,
                   after: seq<Shard>)
    requires Chained(ids, honest, work, before, rounds, r.shards) && Linked(ids, honest, work, rounds, r, after)
    ensures Chained(ids, honest, work, before, rounds + [r], after)
  {
    hide Linked;
    assert (rounds + [r])[..|rounds|] == rounds;
  }

  lemma LinkMade(ids: seq<string>, honest: nat -> bool, work: seq<nat>, before: seq<Shard>, rollups: map<string, Rollup>,
                 failed: set<string>, rounds: seq<Round>, r: Round, freed: nat, after: seq<Shard>)
    requires Tracked(ids, honest, work, r.shards, rollups, r.exhausted, failed) && FailedRounds(ids, rounds, failed)
    requires Booked(honest, work, before, r.shards, r.total, FreedIn(rounds))
    requires r.victim in work && IdAt(ids, r.victim) !in r.exhausted && r.victim < |r.shards|
    requires |after| == |r.shards| && after == r.shards[r.victim := after[r.victim]]
    requires honest(r.victim) ==> Removed(r.shards[r.victim], r.keys, after[r.victim], freed)
    ensures Linked(ids, honest, work, rounds, r.(freed := freed), after)
  {
    forall w | w in work && w < |r.shards|
      ensures Victims(r.shards[w], EVICTION_BATCH, EVICTION_FLOOR) == [] ==>
                |r.shards[w].tables.index| <= EVICTION_FLOOR || AllInUse(r.shards[w])
    {
      NoVictims(r.shards[w]);
    }
    hide Removed, FleetBytes, Victims, AllInUse;
  }

  /** Nothing leaves an honest shard but by a batch that named it. */
  lemma {:induction false} OnlyBatchesEvict(ids: seq<string>, honest: nat -> bool, work: seq<nat>, before: seq<Shard>,
                                            rounds: seq<Round>, after: seq<Shard>, w: nat, key: string)
    requires Chained(ids, honest, work, before, rounds, after) && w < |before| && honest(w)
    requires key in before[w].tables.rows
    ensures |after| == |before|
    ensures key !in after[w].tables.rows ==> exists r :: r in rounds && r.victim == w && key in r.keys
    ensures key in after[w].tables.rows ==> after[w].tables.rows[key] == before[w].tables.rows[key]
    decreases |rounds|
  {
    if rounds != [] {
      var n := |rounds| - 1;
      OnlyBatchesEvict(ids, honest, work, before, rounds[..n], rounds[n].shards, w, key);
      assert rounds[n] in rounds;
      hide Disk.Consistent, Bytes, RetiredForCause, FleetBytes;
    }
  }

  /** What a pass over honest shards achieves. */
  ghost predicate PassOutcome(ids: seq<string>, honest: nat -> bool, work: seq<nat>, before: seq<Shard>, after: seq<Shard>,
                              budget: nat, target: Option<nat>, mark: nat, outcome: Outcome, rounds: seq<Round>)
  {
    if budget == 0 then after == before && outcome == Outcome(0, 0, false) && rounds == []
    else AllHonest(work, honest) ==>
      var lowWater := if target.Some? then target.value else mark;
      && outcome.evictedBytes + FleetBytes(after, work) == FleetBytes(before, work)
      && (outcome.stillOverBudget <==> FleetBytes(after, work) > budget && !(target.None? && FleetBytes(before, work) <= budget))
      && (forall r :: r in rounds ==> RoundOk(ids, work, lowWater, r))
      && (rounds != [] ==> FleetBytes(after, work) + rounds[|rounds| - 1].freed > lowWater)
      && (if target.None? && FleetBytes(before, work) <= budget then after == before && rounds == []
          else FleetBytes(after, work) <= lowWater || AllStuck(ids, work, after, rounds))
  }

  /** No transaction aborted: each batch freed exactly its rows, so none is retired for failing. */
  ghost predicate ExactRounds(honest: nat -> bool, work: seq<nat>, rounds: seq<Round>) {
    AllHonest(work, honest) ==>
      forall r :: r in rounds ==> r.victim < |r.shards| && r.freed == WouldFree(r.shards[r.victim], r.keys)
  }

  lemma NoRounds(honest: nat -> bool, work: seq<nat>)
    ensures ExactRounds(honest, work, [])
  {
  }

  lemma ExactRound(honest: nat -> bool, work: seq<nat>, rounds: seq<Round>, r: Round, freed: nat)
    requires r.victim in work && r.victim < |r.shards|
    ensures ExactRounds(honest, work, rounds) && (honest(r.victim) ==> freed == WouldFree(r.shards[r.victim], r.keys)) ==>
              ExactRounds(honest, work, rounds + [r.(freed := freed)])
  {
  }

  lemma TrimmedStart(honest: nat -> bool, work: seq<nat>, before: seq<Shard>)
    ensures Trimmed(honest, work, before, before)
  {
  }

  lemma PassSkipped(ids: seq<string>, honest: nat -> bool, work: seq<nat>, before: seq<Shard>, budget: nat,
                    target: Option<nat>, mark: nat, total: nat)
    requires budget == 0 || (target.None? && total <= budget && Booked(honest, work, before, before, total, 0))
    ensures PassOutcome(ids, honest, work, before, before, budget, target, mark, Outcome(0, 0, false), [])
  {
  }

  lemma RoundsStart(ids: seq<string>, honest: nat -> bool, work: seq<nat>, lowWater: nat, total: nat)
    ensures RoundsOk(ids, honest, work, lowWater, [], total) && FailedRounds(ids, [], {})
  {
  }

  lemma VictimKnown(ids: seq<string>, honest: nat -> bool, work: seq<nat>, shards: seq<Shard>, rollups: map<string, Rollup>,
                    exhausted: set<string>, failed: set<string>, victim: nat)
    requires Tracked(ids, honest, work, shards, rollups, exhausted, failed)
    requires victim in work && Eligible(ids, victim, rollups, exhausted)
    ensures victim < |ids| == |shards| && ids[victim] !in exhausted && IdAt(ids, victim) == ids[victim]
  {
  }

  lemma RoundChosen(ids: seq<string>, honest: nat -> bool, work: seq<nat>, lowWater: nat, rollups: map<string, Rollup>,
                    failed: set<string>, r: Round)
    requires Tracked(ids, honest, work, r.shards, rollups, r.exhausted, failed)
    requires r.victim in work && Eligible(ids, r.victim, rollups, r.exhausted)
    requires forall w :: w in work && Eligible(ids, w, rollups, r.exhausted) ==>
               rollups[ids[r.victim]].oldestSeq <= rollups[ids[w]].oldestSeq
    requires r.total > lowWater && r.keys != []
    requires honest(r.victim) ==> r.keys == Victims(r.shards[r.victim], EVICTION_BATCH, EVICTION_FLOOR)
    requires forall i :: 0 <= i < |r.shards| && honest(i) ==> Disk.Consistent(r.shards[i].tables)
    ensures AllHonest(work, honest) ==> RoundOk(ids, work, lowWater, r)
  {
    if AllHonest(work, honest) {
      VictimsAreABatch(r.shards[r.victim]);
      hide Victims, BatchOf, Disk.Consistent, HoldsOldest;
      forall w | w in work && Open(ids, r, w)
        ensures RollupOf(r.shards[r.victim]).oldestSeq <= RollupOf(r.shards[w]).oldestSeq
      {
      }
      OldestHeld(ids, honest, work, r);
    }
  }

  lemma OldestHeld(ids: seq<string>, honest: nat -> bool, work: seq<nat>, r: Round)
    requires AllHonest(work, honest) && r.victim in work && Open(ids, r, r.victim)
    requires forall i :: 0 <= i < |r.shards| && honest(i) ==> Disk.Consistent(r.shards[i].tables)
    requires forall w :: w in work && Open(ids, r, w) ==>
               RollupOf(r.shards[r.victim]).oldestSeq <= RollupOf(r.shards[w]).oldestSeq
    ensures HoldsOldest(ids, work, r)
  {
    var oldest := OldestRow(r.shards[r.victim].tables);
    forall w, k | w in work && Open(ids, r, w) && k in r.shards[w].tables.rows
      ensures DecodeLastSeq(r.shards[r.victim].tables.rows[oldest]) <= DecodeLastSeq(r.shards[w].tables.rows[k])
    {
      var _ := OldestRow(r.shards[w].tables);
    }
  }

  /** The rollup of consistent, non-empty tables names the smallest stored sequence. */
  lemma OldestRow(t: Tables) returns (oldest: string)
    requires Disk.Consistent(t) && t.entryCount > 0
    ensures t.index != [] && oldest in t.rows && DecodeLastSeq(t.rows[oldest]) == t.index[0].0
    ensures forall k :: k in t.rows ==> t.index[0].0 <= DecodeLastSeq(t.rows[k])
  {
    MirrorCount(t.index, t.rows);
    FirstIsOldest(t.index, t.rows);
    oldest :| oldest in t.rows && t.index[0].0 == DecodeLastSeq(t.rows[oldest]);
  }

  lemma RoundTaken(ids: seq<string>, honest: nat -> bool, work: seq<nat>, lowWater: nat, rounds: seq<Round>, r: Round,
                   freed: nat, total: nat, failed: set<string>)
    requires RoundsOk(ids, honest, work, lowWater, rounds, r.total) && FailedRounds(ids, rounds, failed)
    requires AllHonest(work, honest) ==> RoundOk(ids, work, lowWater, r)
    requires r.victim < |ids| && total == MinusFloored(r.total, freed) && (AllHonest(work, honest) ==> freed <= r.total)
    ensures var next := rounds + [r.(freed := freed)];
            && RoundsOk(ids, honest, work, lowWater, next, total)
            && FailedRounds(ids, next, if freed == 0 then failed + {ids[r.victim]} else failed)
            && FreedIn(next) == FreedIn(rounds) + freed && KeysIn(next) == KeysIn(rounds) + |r.keys|
  {
    var next := rounds + [r.(freed := freed)];
    assert next[..|next| - 1] == rounds;
    assert next[|next| - 1] == r.(freed := freed) && r.(freed := freed) in next;
    forall id | id in failed ensures exists q :: q in next && q.freed == 0 && q.victim < |ids| && ids[q.victim] == id {
      var q :| q in rounds && q.freed == 0 && q.victim < |ids| && ids[q.victim] == id;
      assert q in next;
    }
  }

  lemma PassStopped(ids: seq<string>, honest: nat -> bool, work: seq<nat>, shards: seq<Shard>, rollups: map<string, Rollup>,
                    exhausted: set<string>, failed: set<string>, rounds: seq<Round>)
    requires Tracked(ids, honest, work, shards, rollups, exhausted, failed) && FailedRounds(ids, rounds, failed)
    requires forall w :: w in work ==> !Eligible(ids, w, rollups, exhausted)
    ensures AllHonest(work, honest) ==> AllStuck(ids, work, shards, rounds)
  {
    forall w | w in work && w < |shards|
      ensures Victims(shards[w], EVICTION_BATCH, EVICTION_FLOOR) == [] ==>
                |shards[w].tables.index| <= EVICTION_FLOOR || AllInUse(shards[w])
    {
      NoVictims(shards[w]);
    }
    hide Victims, AllInUse;
  }

  lemma PassEnds(ids: seq<string>, honest: nat -> bool, work: seq<nat>, before: seq<Shard>, after: seq<Shard>, budget: nat,
                 target: Option<nat>, mark: nat, outcome: Outcome, rounds: seq<Round>, total0: nat, total: nat)
    requires var lowWater := if target.Some? then target.value else mark;
             && RoundsOk(ids, honest, work, lowWater, rounds, total)
             && (total <= lowWater || (AllHonest(work, honest) ==> AllStuck(ids, work, after, rounds)))
    requires budget > 0 && (target.None? ==> total0 > budget) && (AllHonest(work, honest) ==> total0 == FleetBytes(before, work))
    requires Booked(honest, work, before, after, total, FreedIn(rounds))
    requires outcome == Outcome(FreedIn(rounds), KeysIn(rounds), total > budget)
    ensures PassOutcome(ids, honest, work, before, after, budget, target, mark, outcome, rounds)
  {
    if AllHonest(work, honest) && rounds != [] {
      assert rounds[|rounds| - 1] in rounds;
    }
  }

  class BudgetCoordinator {
    const budgetBytes: nat

    constructor (budgetBytes: nat)
      ensures this.budgetBytes == budgetBytes
    {
      this.budgetBytes := budgetBytes;
    }

    /** Reads every deduplicated shard once and sums what they report. */
    method ReadRollups(fleet: Fleet, work: seq<nat>) returns (rollups: map<string, Rollup>, total: nat)
      requires fleet.Valid() && DistinctIds(fleet.ids, work)
      ensures Tracked(fleet.ids, fleet.honest, work, fleet.shards, rollups, {}, {})
      ensures Booked(fleet.honest, work, fleet.shards, fleet.shards, total, 0)
    {
      rollups, total := map[], 0;
      for a := 0 to |work|
        invariant Tracked(fleet.ids, fleet.honest, work[..a], fleet.shards, rollups, {}, {})
        invariant AllHonest(work, fleet.honest) ==> total == FleetBytes(fleet.shards, work[..a])
      {
        assert work[..a + 1] == work[..a] + [work[a]];
        FleetBytesAppend(fleet.shards, work[..a], work[a]);
        var r := fleet.RollupAt(work[a]);
        assert AllHonest(work, fleet.honest) ==> fleet.honest(work[a]);
        rollups := rollups[fleet.ids[work[a]] := r];
        total := total + r.totalBytes;
      }
      assert work[..|work|] == work;
    }

    /** One batch from one shard, with everything it changes. */
    method EvictBatch(fleet: Fleet, ghost work: seq<nat>, victim: nat, keys: seq<string>, rollups: map<string, Rollup>,
                      total: nat, exhausted: set<string>, ghost failed: set<string>, ghost before: seq<Shard>, ghost bytes: nat)
      returns (freed: nat, rollups': map<string, Rollup>, total': nat, exhausted': set<string>, ghost failed': set<string>)
      requires fleet.Valid() && DistinctIds(fleet.ids, work) && victim in work && fleet.ids[victim] !in exhausted
      requires Tracked(fleet.ids, fleet.honest, work, fleet.shards, rollups, exhausted, failed)
      requires Trimmed(fleet.honest, work, before, fleet.shards)
      requires Booked(fleet.honest, work, before, fleet.shards, total, bytes)
      requires fleet.honest(victim) ==> keys == Victims(fleet.shards[victim], EVICTION_BATCH, EVICTION_FLOOR)
      modifies fleet
      ensures fleet.Valid()
      ensures Tracked(fleet.ids, fleet.honest, work, fleet.shards, rollups', exhausted', failed')
      ensures Trimmed(fleet.honest, work, before, fleet.shards)
      ensures Booked(fleet.honest, work, before, fleet.shards, total', bytes + freed)
      ensures total' == MinusFloored(total, freed) && (AllHonest(work, fleet.honest) ==> freed <= total)
      ensures exhausted' == if freed == 0 then exhausted + {fleet.ids[victim]} else exhausted
      ensures failed' == if freed == 0 then failed + {fleet.ids[victim]} else failed
      ensures victim < |fleet.shards| == |old(fleet.shards)| && fleet.shards == old(fleet.shards)[victim := fleet.shards[victim]]
      ensures fleet.honest(victim) ==> Removed(old(fleet.shards[victim]), keys, fleet.shards[victim], freed)
      ensures fleet.Aborts >= old(fleet.Aborts)
      ensures fleet.honest(victim) && fleet.Aborts == old(fleet.Aborts) ==> freed == WouldFree(old(fleet.shards[victim]), keys)
    {
      hide WouldFree, Disk.Consistent, FloorKept, Tracked, Trimmed, Booked, Removed, Victims, RollupOf;
      ghost var shards0 := fleet.shards;
      var f := fleet.EvictKeys(victim, keys);
      freed := f;
      BookedStep(fleet.ids, fleet.honest, work, before, shards0, total, bytes, victim, fleet.shards[victim], keys, freed);
      TrimmedStep(fleet.honest, work, before, shards0, victim, fleet.shards[victim], freed, keys);
      total' := MinusFloored(total, freed);
      var after := fleet.RollupAt(victim);
      TrackedStep(fleet.ids, fleet.honest, work, shards0, rollups, exhausted, failed, victim, fleet.shards[victim], after, freed);
      exhausted' := if freed == 0 then exhausted + {fleet.ids[victim]} else exhausted;
      failed' := if freed == 0 then failed + {fleet.ids[victim]} else failed;
      rollups' := rollups[fleet.ids[victim] := after];
    }

    /** One batch and its place in the account of the pass. */
    method TakeRound(fleet: Fleet, ghost work: seq<nat>, victim: nat, keys: seq<string>, rollups: map<string, Rollup>, total: nat,
                     exhausted: set<string>, ghost failed: set<string>, ghost before: seq<Shard>, ghost lowWater: nat,
                     ghost rounds: seq<Round>)
      returns (freed: nat, rollups': map<string, Rollup>, total': nat, exhausted': set<string>, ghost failed': set<string>,
               ghost rounds': seq<Round>)
      requires fleet.Valid() && DistinctIds(fleet.ids, work) && victim in work && keys != [] && total > lowWater
      requires Tracked(fleet.ids, fleet.honest, work, fleet.shards, rollups, exhausted, failed)
      requires Trimmed(fleet.honest, work, before, fleet.shards)
      requires Booked(fleet.honest, work, before, fleet.shards, total, FreedIn(rounds))
      requires RoundsOk(fleet.ids, fleet.honest, work, lowWater, rounds, total) && FailedRounds(fleet.ids, rounds, failed)
      requires Eligible(fleet.ids, victim, rollups, exhausted)
      requires forall w :: w in work && Eligible(fleet.ids, w, rollups, exhausted) ==>
                 rollups[fleet.ids[victim]].oldestSeq <= rollups[fleet.ids[w]].oldestSeq
      requires fleet.honest(victim) ==> keys == Victims(fleet.shards[victim], EVICTION_BATCH, EVICTION_FLOOR)
      requires Chained(fleet.ids, fleet.honest, work, before, rounds, fleet.shards)
      modifies fleet
      ensures fleet.Valid()
      ensures Chained(fleet.ids, fleet.honest, work, before, rounds', fleet.shards)
      ensures Tracked(fleet.ids, fleet.honest, work, fleet.shards, rollups', exhausted', failed')
      ensures Trimmed(fleet.honest, work, before, fleet.shards)
      ensures Booked(fleet.honest, work, before, fleet.shards, total', FreedIn(rounds'))
      ensures RoundsOk(fleet.ids, fleet.honest, work, lowWater, rounds', total') && FailedRounds(fleet.ids, rounds', failed')
      ensures FreedIn(rounds') == FreedIn(rounds) + freed && KeysIn(rounds') == KeysIn(rounds) + |keys|
      ensures total' == MinusFloored(total, freed)
      ensures exhausted' == if freed == 0 then exhausted + {fleet.ids[victim]} else exhausted
      ensures fleet.Aborts >= old(fleet.Aborts)
      ensures fleet.Aborts == old(fleet.Aborts) && ExactRounds(fleet.honest, work, rounds) ==>
                ExactRounds(fleet.honest, work, rounds')
    {
      hide Disk.Consistent, FloorKept, Tracked, Trimmed, Booked, Removed, Victims, RollupOf, RoundOk, RoundsOk,
           FailedRounds, DistinctIds, AllHonest, WouldFree, ExactRounds, Chained, Linked;
      ghost var r := Round(victim, fleet.shards, exhausted, total, keys, 0);
      VictimKnown(fleet.ids, fleet.honest, work, fleet.shards, rollups, exhausted, failed, victim);
      RoundChosen(fleet.ids, fleet.honest, work, lowWater, rollups, failed, r);
      hide Eligible;
      freed, rollups', total', exhausted', failed' :=
        EvictBatch(fleet, work, victim, keys, rollups, total, exhausted, failed, before, FreedIn(rounds));
      RoundTaken(fleet.ids, fleet.honest, work, lowWater, rounds, r, freed, total', failed);
      LinkMade(fleet.ids, fleet.honest, work, before, rollups, failed, rounds, r, freed, fleet.shards);
      ChainGrows(fleet.ids, fleet.honest, work, before, rounds, r.(freed := freed), fleet.shards);
      ExactRound(fleet.honest, work, rounds, r, freed);
      rounds' := rounds + [r.(freed := freed)];
    }

    /** Removes later shards that repeat an id. */
    method Deduplicate(ids: seq<string>) returns (work: seq<nat>)
      ensures work == FirstPositions(ids)
    {
      work := [];
      var seen: set<string> := {};
      for n := 0 to |ids|
        invariant work == FirstPositions(ids[..n])
        invariant seen == set id | id in ids[..n]
      {
        assert ids[..n + 1][..n] == ids[..n];
        if ids[n] !in seen { work := work + [n]; }
        seen := seen + {ids[n]};
      }
      assert ids[..|ids|] == ids;
    }

    /** Evicts until the total is at most `target`, or without one, only when over budget, until it is
        at most the low-water mark. Every shard may misbehave: the pass still ends, and `rounds` is the chain of
        its batches from the first state of the shards to the last. */
    method Evict(fleet: Fleet, target: Option<nat>, lowWaterMark: nat) returns (outcome: Outcome, ghost rounds: seq<Round>)
      requires fleet.Valid() && lowWaterMark <= budgetBytes
      modifies fleet
      ensures fleet.Valid()
      ensures Trimmed(fleet.honest, FirstPositions(fleet.ids), old(fleet.shards), fleet.shards)
      ensures outcome.evictedBytes == FreedIn(rounds) && outcome.evictedKeys == KeysIn(rounds)
      ensures PassOutcome(fleet.ids, fleet.honest, FirstPositions(fleet.ids), old(fleet.shards), fleet.shards,
                          budgetBytes, target, lowWaterMark, outcome, rounds)
      ensures Chained(fleet.ids, fleet.honest, FirstPositions(fleet.ids), old(fleet.shards), rounds, fleet.shards)
      ensures fleet.Aborts == old(fleet.Aborts) ==> ExactRounds(fleet.honest, FirstPositions(fleet.ids), rounds)
    {
      hide Disk.Consistent, FloorKept, Tracked, Trimmed, Booked, Removed, Victims, RollupOf, RoundOk, RoundsOk, AllStuck,
           FailedRounds, DistinctIds, FirstPositions, PassOutcome, Eligible, AllHonest, WouldFree, ExactRounds, Linked;
      outcome, rounds := Outcome(0, 0, false), [];
      ghost var before := fleet.shards;
      NoRounds(fleet.honest, FirstPositions(fleet.ids));
      TrimmedStart(fleet.honest, FirstPositions(fleet.ids), before);
      if budgetBytes == 0 {
        PassSkipped(fleet.ids, fleet.honest, FirstPositions(fleet.ids), before, budgetBytes, target, lowWaterMark, 0);
        return;
      }
      var work := Deduplicate(fleet.ids);
      FirstPositionsDistinct(fleet.ids);
      var rollups: map<string, Rollup>, total: nat := ReadRollups(fleet, work);
      if target.None? && total <= budgetBytes {
        PassSkipped(fleet.ids, fleet.honest, work, before, budgetBytes, target, lowWaterMark, total);
        return;
      }
      var lowWater := if target.Some? then target.value else lowWaterMark;
      var exhausted: set<string> := {};
      ghost var failed: set<string> := {};
      ghost var all := set w | w in work :: IdAt(fleet.ids, w);
      ghost var total0 := total;
      RoundsStart(fleet.ids, fleet.honest, work, lowWater, total);
      hide Chained;
      while total > lowWater
        invariant fleet.Valid()
        invariant Tracked(fleet.ids, fleet.honest, work, fleet.shards, rollups, exhausted, failed)
        invariant Trimmed(fleet.honest, work, before, fleet.shards)
        invariant Booked(fleet.honest, work, before, fleet.shards, total, FreedIn(rounds))
        invariant RoundsOk(fleet.ids, fleet.honest, work, lowWater, rounds, total)
        invariant FailedRounds(fleet.ids, rounds, failed)
        invariant Chained(fleet.ids, fleet.honest, work, before, rounds, fleet.shards)
        invariant fleet.Aborts >= old(fleet.Aborts)
        invariant fleet.Aborts == old(fleet.Aborts) ==> ExactRounds(fleet.honest, work, rounds)
        invariant outcome == Outcome(FreedIn(rounds), KeysIn(rounds), false)
        decreases total, all - exhausted
      {
        var picked := PickVictim(fleet.ids, work, rollups, exhausted);
        if picked.None? {
          PassStopped(fleet.ids, fleet.honest, work, fleet.shards, rollups, exhausted, failed, rounds);
          break;
        }
        var victim := picked.value;
        VictimKnown(fleet.ids, fleet.honest, work, fleet.shards, rollups, exhausted, failed, victim);
        assert IdAt(fleet.ids, victim) in all;
        var keys := fleet.LowestSeqKeys(victim, EVICTION_BATCH, EVICTION_FLOOR);
        if keys == [] {
          RetiredStep(fleet.ids, fleet.honest, work, fleet.shards, rollups, exhausted, failed, victim);
          exhausted := exhausted + {fleet.ids[victim]};
          continue;
        }
        var freed: nat;
        freed, rollups, total, exhausted, failed, rounds :=
          TakeRound(fleet, work, victim, keys, rollups, total, exhausted, failed, before, lowWater, rounds);
        outcome := Outcome(outcome.evictedBytes + freed, outcome.evictedKeys + |keys|, false);
      }
      outcome := outcome.(stillOverBudget := total > budgetBytes);
      PassEnds(fleet.ids, fleet.honest, work, before, fleet.shards, budgetBytes, target, lowWaterMark, outcome, rounds, total0, total);
    }
  }
}
