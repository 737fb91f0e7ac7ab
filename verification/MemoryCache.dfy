/** The in-memory working set over one disk shard. Each method is one cache operation run without
    interference; the races with a clear are in ClearProtocol.dfy.
    Models daemon/src/cache/memory.rs. */
module MemoryCache {
  import opened Common
  import opened Disk
  import opened DiskCaches
  import opened Fingerprints

  const MAX_MEMORY_ENTRIES: nat := 4096
  const MAX_MEMORY_WEIGHT_BYTES: nat := 128 * 1024 * 1024
  const GRAPH_ROW_WEIGHT_BYTES: nat := 256
  const REVERIFY_TTL_MILLIS: nat := 30_000
  const EVICTION_BATCH: nat := 128
  const MAX_EVICTION_SCAN: nat := 8 * EVICTION_BATCH

  /** When an entry's fingerprints were last confirmed: a generation, and a time plus one (0 means
      never). */
  datatype Verification = Verification(generation: nat, atMillis: nat)

  const NEVER := Verification(0, 0)

  function Stamp(generation: nat, now: nat): Verification { Verification(generation, now + 1) }

  predicate IsCurrent(v: Verification, generation: nat, now: nat) {
    && v.atMillis != 0
    && v.generation == generation
    && (if now < v.atMillis - 1 then 0 else now - (v.atMillis - 1)) < REVERIFY_TTL_MILLIS
  }

  /** A stamp holds for its own generation, and for the 30 seconds after it was made. */
  lemma StampLasts(stamped: nat, at: nat, generation: nat, now: nat)
    ensures IsCurrent(Stamp(stamped, at), generation, now) <==> stamped == generation && now < at + 30_000
    ensures !IsCurrent(NEVER, generation, now)
  {
  }

  /** `identity` stands for the entry's `last_seq` allocation, which no other entry shares. */
  datatype CachedImport = CachedImport(
    envelope: Envelope, verification: Verification, lastSeq: nat, persistedSeq: nat,
    firstParty: bool, identity: nat)

  // ---- Agreement of the two layers ----

  /** A disk row that re-hydrates to the same measurement. */
  predicate BackedBy(e: CachedImport, stored: Stored) { stored.envelope == Some(e.envelope) }

  function StoredFor(e: CachedImport): Stored { Stored(e.lastSeq, Some(e.envelope)) }

  /** Every entry not marked dirty is readable from disk. */
  ghost predicate Mirrors(memory: map<string, CachedImport>, dirty: set<string>, disk: map<string, Stored>) {
    forall k :: k in memory && k !in dirty ==> k in disk && BackedBy(memory[k], disk[k])
  }

  /** The least recency an entry may have: its row's on disk or, while it is dirty, the one it was born with. */
  function Floor(memory: map<string, CachedImport>, dirty: set<string>, disk: map<string, Stored>, k: string): nat
    requires k in memory
  {
    if k !in dirty && k in disk then disk[k].lastSeq else memory[k].persistedSeq
  }

  /** Recency is in order: a row is no older than what memory believes was persisted, and no entry is older than
      its row. */
  ghost predicate Ordered(memory: map<string, CachedImport>, dirty: set<string>, disk: map<string, Stored>) {
    forall k :: k in memory ==> memory[k].persistedSeq <= Floor(memory, dirty, disk, k) <= memory[k].lastSeq
  }

  ghost predicate AllFresh(fs: seq<FileFingerprint>, world: string -> FileProbe) {
    forall f :: f in fs ==> Unchanged(f, world(f.path))
  }

  lemma MirrorsDrop(memory: map<string, CachedImport>, dirty: set<string>, disk: map<string, Stored>,
                    keys: set<string>, disk': map<string, Stored>)
    requires Mirrors(memory, dirty, disk) && disk' - keys == disk - keys
    ensures Mirrors(memory - keys, dirty, disk')
  {
    forall k | k in memory - keys && k !in dirty ensures k in disk' && BackedBy(memory[k], disk'[k]) {
      SameRow(disk, keys, disk', k);
    }
  }

  lemma SameRow(disk: map<string, Stored>, keys: set<string>, disk': map<string, Stored>, k: string)
    requires disk' - keys == disk - keys && k !in keys
    ensures (k in disk' <==> k in disk) && (k in disk ==> disk'[k] == disk[k])
  {
    assert k in disk - keys <==> k in disk' - keys;
    assert k in disk ==> (disk - keys)[k] == (disk' - keys)[k];
  }

  lemma OrderedDrop(memory: map<string, CachedImport>, dirty: set<string>, disk: map<string, Stored>,
                    keys: set<string>, disk': map<string, Stored>)
    requires disk' - keys == disk - keys
    ensures Ordered(memory, dirty, disk) ==> Ordered(memory - keys, dirty, disk')
  {
    forall k | k in memory - keys ensures Floor(memory - keys, dirty, disk', k) == Floor(memory, dirty, disk, k) {
      SameRow(disk, keys, disk', k);
    }
  }

  // ---- The memory cap ----

  function WeightOf(rows: nat): nat { (rows + 1) * GRAPH_ROW_WEIGHT_BYTES }

  // ---- Cold eviction victims ----

  /** Used since it was last persisted: never a correct victim. */
  predicate IsHot(memory: map<string, CachedImport>, row: IndexRow) {
    row.1 in memory && memory[row.1].lastSeq > row.0
  }

  function ColdKeys(memory: map<string, CachedImport>, rows: seq<IndexRow>): seq<string> {
    if rows == [] then []
    else if IsHot(memory, rows[0]) then ColdKeys(memory, rows[1..])
    else [rows[0].1] + ColdKeys(memory, rows[1..])
  }

  lemma {:induction false} ColdKeysAppend(memory: map<string, CachedImport>, a: seq<IndexRow>, b: seq<IndexRow>)
    ensures ColdKeys(memory, a + b) == ColdKeys(memory, a) + ColdKeys(memory, b)
  {
    hide IsHot;
    if a == [] {
      assert a + b == b;
    } else {
      ColdKeysAppend(memory, a[1..], b);
      assert (a + b)[1..] == a[1..] + b && (a + b)[0] == a[0];
    }
  }

  lemma {:induction false} ColdKeysAreCold(memory: map<string, CachedImport>, rows: seq<IndexRow>, key: string)
    requires key in ColdKeys(memory, rows)
    ensures exists i :: 0 <= i < |rows| && rows[i].1 == key && !IsHot(memory, rows[i])
  {
    if key in ColdKeys(memory, rows[1..]) {
      ColdKeysAreCold(memory, rows[1..], key);
      var i :| 0 <= i < |rows[1..]| && rows[1..][i].1 == key && !IsHot(memory, rows[1..][i]);
      assert rows[i + 1] == rows[1..][i];
    } else {
      assert rows[0].1 == key && !IsHot(memory, rows[0]);
    }
  }

  /** `picked` are the keys of `rows` at the positions `at`, in order, none used since its row was written; every row before
      the last of them, or every row if fewer than `n` were picked, is picked or was used since. */
  ghost predicate PickedAt(memory: map<string, CachedImport>, rows: seq<IndexRow>, n: nat, picked: seq<string>, at: seq<nat>) {
    && |at| == |picked| <= n
    && (forall a, b :: 0 <= a < b < |at| ==> at[a] < at[b])
    && (forall a :: 0 <= a < |at| ==>
          && at[a] < |rows| && picked[a] == rows[at[a]].1
          && !(picked[a] in memory && memory[picked[a]].lastSeq > rows[at[a]].0))
    && (forall i :: 0 <= i < |rows| && i !in at && (|at| < n || (at != [] && i < at[|at| - 1])) ==>
          rows[i].1 in memory && memory[rows[i].1].lastSeq > rows[i].0)
  }

  ghost predicate Picks(memory: map<string, CachedImport>, rows: seq<IndexRow>, n: nat, picked: seq<string>) {
    exists at :: PickedAt(memory, rows, n, picked, at)
  }

  /** Nothing is picked exactly when every row is in use. */
  lemma PicksNothing(memory: map<string, CachedImport>, rows: seq<IndexRow>, n: nat, picked: seq<string>)
    requires n > 0 && Picks(memory, rows, n, picked)
    ensures picked == [] <==> forall i :: 0 <= i < |rows| ==> rows[i].1 in memory && memory[rows[i].1].lastSeq > rows[i].0
  {
    var at :| PickedAt(memory, rows, n, picked, at);
    if picked != [] { assert rows[at[0]].1 == picked[0]; }
  }

  /** A row is picked while there is room and it is not in use, */
  lemma PickOneMore(memory: map<string, CachedImport>, rows: seq<IndexRow>, row: IndexRow, n: nat, picked: seq<string>, at: seq<nat>)
    requires PickedAt(memory, rows, n, picked, at) && |picked| < n && !IsHot(memory, row)
    ensures PickedAt(memory, rows + [row], n, picked + [row.1], at + [|rows|])
  {
    var more := at + [|rows|];
    assert forall i :: i in at ==> i in more;
  }

  /** and passed over otherwise. */
  lemma PassOver(memory: map<string, CachedImport>, rows: seq<IndexRow>, row: IndexRow, n: nat, picked: seq<string>, at: seq<nat>)
    requires PickedAt(memory, rows, n, picked, at) && (|picked| == n || IsHot(memory, row))
    ensures PickedAt(memory, rows + [row], n, picked, at)
  {
  }

  lemma TakeOneMore<T>(xs: seq<T>, ys: seq<T>, n: nat)
    requires |ys| <= 1
    ensures Take(xs + ys, n) == if |Take(xs, n)| < n then Take(xs, n) + ys else Take(xs, n)
  {
  }

  /** How one more row moves the first `n` cold keys. */
  lemma ColdGrows(memory: map<string, CachedImport>, rows: seq<IndexRow>, row: IndexRow, n: nat)
    ensures var picked := Take(ColdKeys(memory, rows), n);
            Take(ColdKeys(memory, rows + [row]), n)
            == if |picked| < n && !IsHot(memory, row) then picked + [row.1] else picked
  {
    hide ColdKeys, IsHot, Take;
    ColdKeysAppend(memory, rows, [row]);
    OneColdKey(memory, row);
    TakeOneMore(ColdKeys(memory, rows), ColdKeys(memory, [row]), n);
    assert Take(ColdKeys(memory, rows), n) + [] == Take(ColdKeys(memory, rows), n);
  }

  lemma {:induction false} ColdArePicked(memory: map<string, CachedImport>, rows: seq<IndexRow>, n: nat) returns (at: seq<nat>)
    ensures PickedAt(memory, rows, n, Take(ColdKeys(memory, rows), n), at)
  {
    if rows == [] {
      at := [];
    } else {
      hide PickedAt, ColdKeys, IsHot, Take;
      var before, row := rows[..|rows| - 1], rows[|rows| - 1];
      assert before + [row] == rows;
      at := ColdArePicked(memory, before, n);
      var picked := Take(ColdKeys(memory, before), n);
      PickedLength(memory, before, n, picked, at);
      ColdGrows(memory, before, row, n);
      if |picked| < n && !IsHot(memory, row) {
        PickOneMore(memory, before, row, n, picked, at);
        at := at + [|before|];
      } else {
        PassOver(memory, before, row, n, picked, at);
      }
    }
  }

  lemma PickedLength(memory: map<string, CachedImport>, rows: seq<IndexRow>, n: nat, picked: seq<string>, at: seq<nat>)
    requires PickedAt(memory, rows, n, picked, at)
    ensures |picked| == |at| <= n
  {
  }

  lemma OneColdKey(memory: map<string, CachedImport>, row: IndexRow)
    ensures ColdKeys(memory, [row]) == if IsHot(memory, row) then [] else [row.1]
  {
  }

  /** The victims of the wide window. */
  lemma WindowPicks(memory: map<string, CachedImport>, index: seq<IndexRow>, n: nat, floor: nat)
    ensures Picks(memory, index[..if |index| <= floor then 0 else Min(MAX_EVICTION_SCAN, |index| - floor)], n,
                  Take(ColdKeys(memory, Oldest(index, MAX_EVICTION_SCAN, floor)), n))
  {
    var at := ColdArePicked(memory, Oldest(index, MAX_EVICTION_SCAN, floor), n);
  }

  lemma ColdBatchIs(memory: map<string, CachedImport>, rows: seq<IndexRow>, n: nat)
    ensures Picks(memory, rows, n, Take(ColdKeys(memory, rows), n)) && |Take(ColdKeys(memory, rows), n)| <= n
    ensures ColdKeys(memory, rows[..0]) == []
  {
    var at := ColdArePicked(memory, rows, n);
  }

  /** Collects up to `n` cold keys from ascending candidates, in order. */
  method FilterEvictable(memory: map<string, CachedImport>, candidates: seq<IndexRow>, n: nat) returns (cold: seq<string>)
    requires n > 0
    ensures cold == Take(ColdKeys(memory, candidates), n)
    ensures Picks(memory, candidates, n, cold) && |cold| <= n
  {
    hide ColdKeys, IsHot, Picks;
    ColdBatchIs(memory, candidates, n);
    cold := [];
    for i := 0 to |candidates|
      invariant cold == ColdKeys(memory, candidates[..i]) && |cold| < n
    {
      assert candidates[..i + 1] == candidates[..i] + [candidates[i]];
      assert candidates == candidates[..i + 1] + candidates[i + 1..];
      OneColdKey(memory, candidates[i]);
      ColdKeysAppend(memory, candidates[..i], [candidates[i]]);
      ColdKeysAppend(memory, candidates[..i + 1], candidates[i + 1..]);
      if !IsHot(memory, candidates[i]) {
        cold := cold + [candidates[i].1];
        if |cold| >= n { return; }
      }
    }
    assert candidates[..|candidates|] == candidates;
  }

  /** The two windows the victim search reads agree with one wide window. */
  lemma NarrowWindowSuffices(memory: map<string, CachedImport>, index: seq<IndexRow>, n: nat, floor: nat)
    requires 0 < n <= MAX_EVICTION_SCAN
    requires var narrow := Oldest(index, n, floor);
             |narrow| < n || |Take(ColdKeys(memory, narrow), n)| == n
    ensures Take(ColdKeys(memory, Oldest(index, n, floor)), n)
         == Take(ColdKeys(memory, Oldest(index, MAX_EVICTION_SCAN, floor)), n)
  {
    var narrow, wide := Oldest(index, n, floor), Oldest(index, MAX_EVICTION_SCAN, floor);
    if |narrow| < n {
      assert narrow == wide;
    } else {
      assert wide == narrow + wide[|narrow|..];
      ColdKeysAppend(memory, narrow, wide[|narrow|..]);
    }
  }
}
