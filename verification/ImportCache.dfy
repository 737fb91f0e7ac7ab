/** The import cache object: reads, inserts, promotion, the memory cap, flushes and eviction over
    both layers. Models daemon/src/cache/memory.rs. */
module ImportCaches {
  import opened Common
  import opened Orders
  import opened Sums
  import opened Disk
  import opened DiskCaches
  import opened Fingerprints
  import opened Recency
  import opened MemoryCache

  /** An entry the durability gate admitted, carrying a drawn sequence. */
  predicate EntryOk(key: string, e: CachedImport, decodes: Envelope -> bool, durable: Envelope -> bool,
                    firstPartyKey: string -> bool)
  {
    && e.lastSeq <= U64_MAX && decodes(e.envelope) && durable(e.envelope) && e.firstParty == firstPartyKey(key)
  }

  /** Every entry is admissible, and mirrored on disk unless marked dirty. */
  ghost predicate Coherent(memory: map<string, CachedImport>, dirty: set<string>, disk: map<string, Stored>,
                           decodes: Envelope -> bool, durable: Envelope -> bool, firstPartyKey: string -> bool)
  {
    && (forall k :: k in memory ==> EntryOk(k, memory[k], decodes, durable, firstPartyKey))
    && Mirrors(memory, dirty, disk)
  }

  /** Putting an entry the disk backs, or one that stays dirty. */
  lemma CoherentPut(memory: map<string, CachedImport>, dirty: set<string>, disk: map<string, Stored>,
                    decodes: Envelope -> bool, durable: Envelope -> bool, firstPartyKey: string -> bool,
                    key: string, e: CachedImport)
    requires Coherent(memory, dirty, disk, decodes, durable, firstPartyKey) && EntryOk(key, e, decodes, durable, firstPartyKey)
    requires key in dirty || (key in disk && BackedBy(e, disk[key]))
    ensures Coherent(memory[key := e], dirty, disk, decodes, durable, firstPartyKey)
    ensures Ordered(memory, dirty, disk) ==>
              (Ordered(memory[key := e], dirty, disk) <==>
                 e.persistedSeq <= Floor(memory[key := e], dirty, disk, key) <= e.lastSeq)
  {
  }

  /** Promoting an entry keeps recency in order exactly when the entry stays at or above its floor. */
  lemma CoherentPromote(memory: map<string, CachedImport>, dirty: set<string>, disk: map<string, Stored>,
                        decodes: Envelope -> bool, durable: Envelope -> bool, firstPartyKey: string -> bool,
                        key: string, e: CachedImport)
    requires Coherent(memory, dirty, disk, decodes, durable, firstPartyKey) && key in memory && e.lastSeq <= U64_MAX
    requires e == memory[key].(lastSeq := e.lastSeq)
    ensures Coherent(memory[key := e], dirty, disk, decodes, durable, firstPartyKey)
    ensures Ordered(memory, dirty, disk) ==>
              (Ordered(memory[key := e], dirty, disk) <==> e.lastSeq >= Floor(memory, dirty, disk, key))
  {
    var after := memory[key := e];
    assert forall k :: k in memory ==> Floor(after, dirty, disk, k) == Floor(memory, dirty, disk, k);
  }

  /** Restamping an entry changes nothing else. */
  lemma CoherentRestamp(memory: map<string, CachedImport>, dirty: set<string>, disk: map<string, Stored>,
                        decodes: Envelope -> bool, durable: Envelope -> bool, firstPartyKey: string -> bool,
                        key: string, verification: Verification)
    requires Coherent(memory, dirty, disk, decodes, durable, firstPartyKey) && key in memory
    ensures var after := memory[key := memory[key].(verification := verification)];
            && Coherent(after, dirty, disk, decodes, durable, firstPartyKey)
            && (Ordered(memory, dirty, disk) <==> Ordered(after, dirty, disk))
  {
    var after := memory[key := memory[key].(verification := verification)];
    assert forall k :: k in memory ==> Floor(after, dirty, disk, k) == Floor(memory, dirty, disk, k);
  }

  /** Entries may leave memory whatever happens to their rows. */
  lemma CoherentDrop(memory: map<string, CachedImport>, dirty: set<string>, disk: map<string, Stored>,
                     decodes: Envelope -> bool, durable: Envelope -> bool, firstPartyKey: string -> bool,
                     keys: set<string>, disk': map<string, Stored>)
    requires Coherent(memory, dirty, disk, decodes, durable, firstPartyKey) && disk' - keys == disk - keys
    ensures Coherent(memory - keys, dirty, disk', decodes, durable, firstPartyKey)
    ensures Ordered(memory, dirty, disk) ==> Ordered(memory - keys, dirty, disk')
  {
    MirrorsDrop(memory, dirty, disk, keys, disk');
    OrderedDrop(memory, dirty, disk, keys, disk');
  }

  /** A newborn insert, queued on disk or marked dirty. */
  lemma CoherentInsert(memory: map<string, CachedImport>, dirty: set<string>, disk: map<string, Stored>,
                       decodes: Envelope -> bool, durable: Envelope -> bool, firstPartyKey: string -> bool,
                       key: string, e: CachedImport, enqueued: bool)
    requires Coherent(memory, dirty, disk, decodes, durable, firstPartyKey)
    requires EntryOk(key, e, decodes, durable, firstPartyKey) && e.persistedSeq == e.lastSeq
    ensures Coherent(memory[key := e], if enqueued then dirty else dirty + {key},
                     if enqueued then disk[key := StoredFor(e)] else disk, decodes, durable, firstPartyKey)
    ensures Ordered(memory, dirty, disk) ==>
              Ordered(memory[key := e], if enqueued then dirty else dirty + {key}, if enqueued then disk[key := StoredFor(e)] else disk)
  {
  }

  /** The counter after a use that draws only when it promotes. */
  function MovedBy(promote: bool, next: nat): nat { if promote then AfterDraw(next) else next }

  class ImportCache {
    var memory: map<string, CachedImport>
    /** Keys whose enqueue failed; a flush replays them. */
    var dirty: set<string>
    var nextIdentity: nat
    const disk: DiskCache
    const clock: RecencyClock
    const graphRowsOf: Envelope -> nat
    const firstPartyKey: string -> bool

    ghost predicate Valid() reads this, disk, clock {
      && disk.Valid() && clock.Valid()
      && Coherent(memory, dirty, disk.Contents, disk.decodes, disk.durable, firstPartyKey)
    }

    /** Recency is in order throughout the cache. */
    ghost predicate InOrder() reads this, disk { Ordered(memory, dirty, disk.Contents) }

    /** A promotion of this entry now would fall short of its own row. */
    ghost predicate Late(key: string) reads this, disk, clock {
      key in memory && clock.next < Floor(memory, dirty, disk.Contents, key)
    }

    /** No entry's recency is ahead of the counter. */
    ghost predicate UsedBefore() reads this, clock { forall k :: k in memory ==> memory[k].lastSeq < clock.next }

    ghost function Now(): Moment reads this, disk, clock {
      Moment(memory, dirty, disk.Contents, clock.next, nextIdentity, disk.Refusals, disk.Aborts)
    }

    /** Above every stored sequence, and no less than the counter. */
    ghost function Reach(): nat reads disk, clock { Max(clock.next, disk.Ceiling) }

    constructor (disk: DiskCache, clock: RecencyClock, graphRowsOf: Envelope -> nat, firstPartyKey: string -> bool)
      requires disk.Valid() && clock.Valid()
      ensures Valid() && InOrder() && memory == map[] && dirty == {} && this.disk == disk && this.clock == clock
    {
      memory, dirty, nextIdentity := map[], {}, 0;
      this.disk, this.clock, this.graphRowsOf, this.firstPartyKey := disk, clock, graphRowsOf, firstPartyKey;
    }

    /** Admits the entry unless a clear has superseded it, and rolls it back if one did meanwhile:
        `recheckedGeneration` is the generation read after the insert, which a concurrent clear may have
        moved. */
    method InsertIntoMemoryGuarded(key: string, cached: CachedImport, capturedGeneration: nat, recheckedGeneration: nat)
      modifies this`memory
      ensures memory == if disk.clearGeneration != capturedGeneration then old(memory)
                        else if recheckedGeneration != capturedGeneration then old(memory) - {key}
                        else old(memory)[key := cached]
    {
      if disk.clearGeneration != capturedGeneration { return; }
      memory := memory[key := cached];
      if recheckedGeneration != capturedGeneration {
        var _ := RemoveFromMemoryIfCurrent(key, cached.identity);
        assert old(memory)[key := cached] - {key} == old(memory) - {key};
      }
    }

    method RemoveFromMemoryIfCurrent(key: string, identity: nat) returns (removed: bool)
      modifies this`memory
      ensures removed <==> key in old(memory) && old(memory)[key].identity == identity
      ensures memory == if removed then old(memory) - {key} else old(memory)
    {
      removed := key in memory && memory[key].identity == identity;
      if removed { memory := memory - {key}; }
    }

    // ---- The memory cap ----

    function EntryWeight(e: CachedImport): nat { WeightOf(graphRowsOf(e.envelope)) }

    function GraphRows(e: CachedImport): nat { graphRowsOf(e.envelope) }

    /** The weight of a working set is 256 bytes for each entry and for each of its graph rows. */
    lemma {:induction false} WeightCountsRows(m: map<string, CachedImport>)
      ensures MapSum(m, EntryWeight) == 256 * (Count(m) + MapSum(m, GraphRows))
      decreases |m|
    {
      if m != map[] {
        var k :| k in m;
        WeightCountsRows(m - {k});
        MapSumRemove(m, EntryWeight, k);
        MapSumRemove(m, GraphRows, k);
        CountRemove(m, k);
      }
    }

    /** So the caps, in entries and graph rows: over them at more than 4096 entries or 524288 of both together, down to the
        low marks at 3686 and 471859. */
    lemma CapsInRows(m: map<string, CachedImport>)
      ensures OverCap(m) <==> Count(m) > 4096 || Count(m) + MapSum(m, GraphRows) > 524_288
      ensures AtLowMark(Count(m), MapSum(m, EntryWeight)) <==> Count(m) <= 3686 && Count(m) + MapSum(m, GraphRows) <= 471_859
    {
      WeightCountsRows(m);
    }

    method MemoryLen() returns (count: nat)
      ensures count == Count(memory)
    {
      CountIsSize(memory);
      count := |memory|;
    }

    method TotalWeight() returns (weight: nat)
      ensures weight == MapSum(memory, EntryWeight)
    {
      weight := 0;
      var todo := memory.Keys;
      assert memory - todo == map[];
      while todo != {}
        invariant todo <= memory.Keys
        invariant weight == MapSum(memory - todo, EntryWeight)
      {
        var key :| key in todo;
        assert memory - (todo - {key}) == (memory - todo)[key := memory[key]];
        MapSumUpdate(memory - todo, EntryWeight, key, memory[key]);
        weight := weight + EntryWeight(memory[key]);
        todo := todo - {key};
      }
      assert memory - todo == memory;
    }

    /** The non-dirty entries, least recently used first. */
    method Candidates() returns (rows: seq<IndexRow>)
      ensures Ascending(rows)
      ensures forall e :: e in rows <==> e.1 in memory && e.1 !in dirty && e.0 == memory[e.1].lastSeq
    {
      rows := [];
      var todo := memory.Keys;
      while todo != {}
        invariant todo <= memory.Keys && Ascending(rows)
        invariant forall e :: e in rows <==> e.1 in memory && e.1 !in todo && e.1 !in dirty && e.0 == memory[e.1].lastSeq
      {
        var key :| key in todo;
        if key !in dirty {
          IndexInsertAscending(rows, (memory[key].lastSeq, key));
          rows := IndexInsert(rows, (memory[key].lastSeq, key));
        }
        todo := todo - {key};
      }
    }

    /** Drops one clean entry, first persisting a promotion the disk has not seen. */
    method PersistAndDrop(key: string, generation: nat) returns (ok: bool)
      requires Valid() && key in memory && key !in dirty && generation == disk.clearGeneration
      modifies this`memory, disk
      ensures Valid() && disk.clearGeneration == old(disk.clearGeneration)
      ensures memory == old(memory) - {key}
      ensures disk.Refusals == old(disk.Refusals) + (if ok then 0 else 1)
      ensures Persisted(key, old(memory)[key], old(disk.Contents), disk.Contents, ok)
      ensures old(InOrder()) ==> InOrder()
      ensures old(UsedBefore()) ==> UsedBefore() && Reach() <= old(Reach())
    {
      hide DiskCache.Valid;
      var cached := memory[key];
      ok := true;
      if cached.lastSeq > cached.persistedSeq {
        ok := disk.InsertAtGeneration(key, cached.lastSeq, cached.envelope, generation);
      }
      memory := memory - {key};
      CoherentDrop(old(memory), dirty, old(disk.Contents), disk.decodes, disk.durable, firstPartyKey,
                   {key}, disk.Contents);
    }

    predicate AtLowMark(count: nat, weight: nat) {
      count <= MAX_MEMORY_ENTRIES * 9 / 10 && weight <= MAX_MEMORY_WEIGHT_BYTES * 9 / 10
    }

    /** Dropping one entry fewer would have left a cap above its low mark. */
    ghost predicate LastDropNeeded(before: map<string, CachedImport>, after: map<string, CachedImport>) {
      exists d :: d in before && d !in after
        && !AtLowMark(Count(after) + 1, MapSum(after, EntryWeight) + EntryWeight(before[d]))
    }

    /** Dropping `key` from a working set above a low mark. */
    lemma DropBooked(before: map<string, CachedImport>, memory: map<string, CachedImport>, key: string)
      requires key in memory && key in before && before[key] == memory[key]
      ensures Count(memory - {key}) == Count(memory) - 1
      ensures MapSum(memory, EntryWeight) == EntryWeight(memory[key]) + MapSum(memory - {key}, EntryWeight)
      ensures !AtLowMark(Count(memory), MapSum(memory, EntryWeight)) ==> LastDropNeeded(before, memory - {key})
    {
      MapSumRemove(memory, EntryWeight, key);
      CountRemove(memory, key);
    }

    ghost predicate OverCap(m: map<string, CachedImport>) {
      Count(m) > MAX_MEMORY_ENTRIES || MapSum(m, EntryWeight) > MAX_MEMORY_WEIGHT_BYTES
    }

    /** What enforcing the caps may do to the working set. */
    ghost predicate CapOutcome(before: map<string, CachedImport>, dirty: set<string>, after: map<string, CachedImport>) {
      && KeepsAllBut(before, dirty, after)
      && DropsOldest(before, dirty, after)
      && (after == before || LastDropNeeded(before, after))
      && (if OverCap(before) then AtLowMark(Count(after), MapSum(after, EntryWeight)) || after.Keys <= dirty
          else after == before)
    }

    /** The state once the first `i` candidates are dropped, with the running totals. */
    ghost predicate CapProgress(rows: seq<IndexRow>, i: nat, before: map<string, CachedImport>, memory: map<string, CachedImport>,
                                disk0: map<string, Stored>, stored: map<string, Stored>, lost: set<string>,
                                marked: set<string>, count: int, weight: int)
    {
      && Capped(rows, i, before, marked, memory)
      && Rehydratable(before, memory, disk0, stored, lost)
      && count == Count(memory) && weight == MapSum(memory, EntryWeight)
      && (if i == 0 then memory == before else LastDropNeeded(before, memory))
    }

    lemma CapProgressStart(rows: seq<IndexRow>, before: map<string, CachedImport>, stored: map<string, Stored>, marked: set<string>)
      requires Ascending(rows)
      requires forall e :: e in rows <==> e.1 in before && e.1 !in marked && e.0 == before[e.1].lastSeq
      ensures CapProgress(rows, 0, before, before, stored, stored, {}, marked, Count(before), MapSum(before, EntryWeight))
    {
      forall j | 0 <= j < |rows| ensures rows[j].1 in before { assert rows[j] in rows; }
    }

    lemma NothingCapped(before: map<string, CachedImport>, stored: map<string, Stored>, marked: set<string>)
      requires !OverCap(before)
      ensures CapOutcome(before, marked, before) && Rehydratable(before, before, stored, stored, {})
    {
    }

    lemma CapProgressStep(rows: seq<IndexRow>, i: nat, before: map<string, CachedImport>, memory: map<string, CachedImport>,
                          disk0: map<string, Stored>, stored: map<string, Stored>, lost: set<string>,
                          marked: set<string>, count: int, weight: int, stored': map<string, Stored>, ok: bool)
      requires CapProgress(rows, i, before, memory, disk0, stored, lost, marked, count, weight)
      requires i < |rows| && count >= 0 && weight >= 0 && !AtLowMark(count, weight)
      requires rows[i].1 in memory && Persisted(rows[i].1, memory[rows[i].1], stored, stored', ok)
      ensures var key := rows[i].1;
              CapProgress(rows, i + 1, before, memory - {key}, disk0, stored', if ok then lost else lost + {key},
                             marked, count - 1, weight - EntryWeight(memory[key]))
    {
      var key := rows[i].1;
      CappedStep(rows, i, before, marked, memory);
      assert memory[key] == before[key];
      DropBooked(before, memory, key);
      RehydratableStep(before, memory, disk0, stored, lost, key, stored', ok);
    }

    lemma CandidateHeld(rows: seq<IndexRow>, i: nat, before: map<string, CachedImport>, memory: map<string, CachedImport>,
                        disk0: map<string, Stored>, stored: map<string, Stored>, lost: set<string>,
                        marked: set<string>, count: int, weight: int)
      requires CapProgress(rows, i, before, memory, disk0, stored, lost, marked, count, weight) && i < |rows|
      ensures rows[i].1 in memory && rows[i].1 !in marked && rows[i].1 !in lost
      ensures count >= 0 && weight >= 0
    {
      CappedStep(rows, i, before, marked, memory);
    }

    /** One round of the eviction batch. */
    method DropCandidate(candidates: seq<IndexRow>, i: nat, ghost memory0: map<string, CachedImport>,
                         ghost disk0: map<string, Stored>, lost: set<string>, count: nat, weight: nat, generation: nat)
      returns (lost': set<string>, count': int, weight': int)
      requires Valid() && generation == disk.clearGeneration
      requires CapProgress(candidates, i, memory0, memory, disk0, disk.Contents, lost, dirty, count, weight)
      requires i < |candidates| && !AtLowMark(count, weight)
      requires candidates[i].1 in memory && candidates[i].1 !in dirty && candidates[i].1 !in lost
      modifies this`memory, disk
      ensures Valid() && disk.clearGeneration == old(disk.clearGeneration)
      ensures CapProgress(candidates, i + 1, memory0, memory, disk0, disk.Contents, lost', dirty, count', weight')
      ensures disk.Refusals - old(disk.Refusals) == |lost'| - |lost|
      ensures old(InOrder()) ==> InOrder()
      ensures old(UsedBefore()) ==> UsedBefore() && Reach() <= old(Reach())
    {
      hide CapProgress, Coherent, DiskCache.Valid;
      var key := candidates[i].1;
      var entryWeight := EntryWeight(memory[key]);
      ghost var memory1, disk1 := memory, disk.Contents;
      var ok := PersistAndDrop(key, generation);
      CapProgressStep(candidates, i, memory0, memory1, disk0, disk1, lost, dirty, count, weight, disk.Contents, ok);
      count' := count - 1;
      weight' := weight - entryWeight;
      lost' := if ok then lost else lost + {key};
    }

    /** Drops least-recently-used entries while either cap is exceeded, down to 90% of both. Returns
        the dropped keys whose promotion could not be persisted. */
    method EnforceMemoryCap() returns (lost: set<string>)
      requires Valid()
      modifies this`memory, disk
      ensures Valid() && disk.clearGeneration == old(disk.clearGeneration)
      ensures CapOutcome(old(memory), dirty, memory)
      ensures Rehydratable(old(memory), memory, old(disk.Contents), disk.Contents, lost)
      ensures |lost| == disk.Refusals - old(disk.Refusals)
      ensures old(InOrder()) ==> InOrder()
      ensures old(UsedBefore()) ==> UsedBefore() && Reach() <= old(Reach())
    {
      hide CapProgress, CapOutcome, Rehydratable, Coherent, Valid, DiskCache.Valid, InOrder, UsedBefore, Reach, Ordered;
      lost := {};
      var weight: int := TotalWeight();
      var count: int := MemoryLen();
      if count <= MAX_MEMORY_ENTRIES && weight <= MAX_MEMORY_WEIGHT_BYTES {
        NothingCapped(memory, disk.Contents, dirty);
        return;
      }
      var clearGeneration := disk.clearGeneration;
      var candidates := Candidates();
      var i := 0;
      CapProgressStart(candidates, memory, disk.Contents, dirty);
      ghost var memory0, disk0 := memory, disk.Contents;
      while i < |candidates|
        invariant Valid() && disk.clearGeneration == clearGeneration && 0 <= i <= |candidates|
        invariant |lost| == disk.Refusals - old(disk.Refusals)
        invariant old(InOrder()) ==> InOrder()
        invariant old(UsedBefore()) ==> UsedBefore() && Reach() <= old(Reach())
        invariant CapProgress(candidates, i, memory0, memory, disk0, disk.Contents, lost, dirty, count, weight)
      {
        CandidateHeld(candidates, i, memory0, memory, disk0, disk.Contents, lost, dirty, count, weight);
        if count <= MAX_MEMORY_ENTRIES * 9 / 10 && weight <= MAX_MEMORY_WEIGHT_BYTES * 9 / 10 { break; }
        lost, count, weight := DropCandidate(candidates, i, memory0, disk0, lost, count, weight, clearGeneration);
        i := i + 1;
      }
      CapFinished(candidates, i, memory0, memory, disk0, disk.Contents, lost, dirty, count, weight);
    }

    lemma CapFinished(rows: seq<IndexRow>, i: nat, before: map<string, CachedImport>, memory: map<string, CachedImport>,
                      disk0: map<string, Stored>, stored: map<string, Stored>, lost: set<string>,
                      marked: set<string>, count: int, weight: int)
      requires CapProgress(rows, i, before, memory, disk0, stored, lost, marked, count, weight)
      requires OverCap(before) && (i == |rows| || (count >= 0 && weight >= 0 && AtLowMark(count, weight)))
      ensures CapOutcome(before, marked, memory) && Rehydratable(before, memory, disk0, stored, lost)
    {
      CappedOrder(rows, i, before, marked, memory);
    }

    lemma CapKeeps(before: map<string, CachedImport>, marked: set<string>, after: map<string, CachedImport>)
      requires CapOutcome(before, marked, after)
      ensures KeepsAllBut(before, marked, after)
    {
    }

    // ---- Operations ----

    /** Inserts a fresh measurement into both layers, stamped with the generation its analysis
        started under. A non-durable result is refused by both. */
    method InsertWithFingerprintsAtGeneration(key: string, envelope: Envelope, verifiedGeneration: nat, now: nat)
      returns (enqueued: bool)
      requires Valid() && disk.decodes(envelope)
      modifies this, disk, clock
      ensures Valid() && disk.clearGeneration == old(disk.clearGeneration)
      ensures !disk.durable(envelope) ==> unchanged(this) && unchanged(disk) && unchanged(clock)
      ensures disk.durable(envelope) ==>
                var cached := CachedImport(envelope, Stamp(verifiedGeneration, now), old(clock.next), old(clock.next),
                                           firstPartyKey(key), old(nextIdentity));
                && clock.next == AfterDraw(old(clock.next))
                && dirty == old(dirty) + (if enqueued then {} else {key})
                && (disk.Refusals == old(disk.Refusals) ==> enqueued)
                && CapOutcome(old(memory)[key := cached], dirty, memory)
                && Holds(key, cached, memory, disk.Contents)
                && (var queued := if enqueued then old(disk.Contents)[key := StoredFor(cached)] else old(disk.Contents);
                    Survives(old(memory)[key := cached], memory, queued, disk.Contents))
      ensures old(InOrder()) ==> InOrder()
      ensures old(UsedBefore()) && old(Reach()) < U64_MAX ==> UsedBefore() && Reach() <= old(Reach()) + 1
    {
      hide DiskCache.Valid, CapOutcome, Rehydratable, Coherent;
      enqueued := false;
      if !disk.durable(envelope) { return; }
      var clearGeneration := disk.clearGeneration;
      var bornSeq := clock.NextSeq();
      var cached := CachedImport(envelope, Stamp(verifiedGeneration, now), bornSeq, bornSeq, firstPartyKey(key), nextIdentity);
      nextIdentity := nextIdentity + 1;
      enqueued := disk.InsertAtGeneration(key, bornSeq, envelope, clearGeneration);
      if !enqueued { dirty := dirty + {key}; }
      InsertIntoMemoryGuarded(key, cached, clearGeneration, disk.clearGeneration);
      CoherentInsert(old(memory), old(dirty), old(disk.Contents), disk.decodes, disk.durable, firstPartyKey,
                     key, cached, enqueued);
      ghost var memory0, disk0 := memory, disk.Contents;
      var lost := EnforceMemoryCap();
      CapKeeps(memory0, dirty, memory);
      NewestSurvives(key, cached, memory0, dirty, memory, disk0, disk.Contents, lost);
    }

    /** Drops the entry a read judged stale or gone from both layers, unless it was replaced. */
    method EvictIfCurrent(key: string, identity: nat)
      requires Valid()
      modifies this`memory, disk
      ensures Valid() && disk.clearGeneration == old(disk.clearGeneration)
      ensures if key in old(memory) && old(memory)[key].identity == identity
              then memory == old(memory) - {key} && Dropped(old(disk.Contents), disk.Contents, {key}, disk.Aborts - old(disk.Aborts))
              else memory == old(memory) && disk.Contents == old(disk.Contents)
      ensures disk.Refusals == old(disk.Refusals) && disk.Aborts >= old(disk.Aborts)
      ensures old(Ordered(memory - {key}, dirty, disk.Contents)) && memory == old(memory) - {key} ==> InOrder()
      ensures old(InOrder()) ==> InOrder()
      ensures old(UsedBefore()) ==> UsedBefore() && Reach() <= old(Reach())
    {
      hide DiskCache.Valid, Coherent;
      var removed := RemoveFromMemoryIfCurrent(key, identity);
      if removed {
        var _ := disk.RemoveKeys([key]);
        KeySetOne(key);
        CoherentDrop(old(memory), dirty, old(disk.Contents), disk.decodes, disk.durable, firstPartyKey, {key}, disk.Contents);
        OrderedDrop(memory, dirty, old(disk.Contents), {key}, disk.Contents);
        assert memory - {key} == memory;
      }
    }

    /** Moves an entry to the newest recency, in memory alone. */
    method Promote(key: string)
      requires Valid() && key in memory
      modifies this`memory, clock
      ensures Valid() && clock.next == AfterDraw(old(clock.next))
      ensures memory == old(memory)[key := old(memory)[key].(lastSeq := old(clock.next))]
      ensures old(InOrder()) ==> (InOrder() <==> !old(Late(key)))
      ensures old(UsedBefore()) && old(Reach()) < U64_MAX ==> UsedBefore() && Reach() <= old(Reach()) + 1
    {
      hide DiskCache.Valid, Coherent, Ordered;
      var drawn := clock.NextSeq();
      memory := memory[key := memory[key].(lastSeq := drawn)];
      CoherentPromote(old(memory), dirty, disk.Contents, disk.decodes, disk.durable, firstPartyKey, key, memory[key]);
    }

    /** Stamps an entry as verified, in memory alone. */
    method Restamp(key: string, verification: Verification)
      requires Valid() && key in memory
      modifies this`memory
      ensures Valid() && memory == old(memory)[key := old(memory)[key].(verification := verification)]
      ensures InOrder() <==> old(InOrder())
      ensures old(UsedBefore()) ==> UsedBefore() && Reach() <= old(Reach())
    {
      hide DiskCache.Valid, Coherent, Ordered;
      memory := memory[key := memory[key].(verification := verification)];
      CoherentRestamp(old(memory), dirty, disk.Contents, disk.decodes, disk.durable, firstPartyKey, key, verification);
    }

    /** A read answered from memory. Off the fast path the verdict is the worst class of the entry's
        fingerprints in this call. */
    method ReadMemory(key: string, promote: bool, requireFresh: bool, serveStale: bool, world: string -> FileProbe,
                      generation: nat, now: nat)
      returns (served: Option<Envelope>, freshness: Freshness)
      requires Valid() && key in memory
      modifies this`memory, disk, clock
      ensures Valid() && disk.clearGeneration == old(disk.clearGeneration)
      ensures clock.next == MovedBy(promote, old(clock.next))
      ensures HitOutcome(old(memory)[key], key, promote, requireFresh, serveStale, disk.fingerprintsOf, world, generation, now,
                         old(clock.next), served, freshness, old(memory), memory)
      ensures if served.Some? then disk.Contents == old(disk.Contents)
              else Dropped(old(disk.Contents), disk.Contents, {key}, disk.Aborts - old(disk.Aborts))
      ensures disk.Aborts >= old(disk.Aborts)
      ensures served.None? <==> (!FastPath(old(memory)[key], requireFresh, generation, now)
                                 && Outdated(disk.fingerprintsOf(old(memory)[key].envelope), world, serveStale))
      ensures key in memory <==> served.Some?
      ensures old(InOrder()) ==> (InOrder() <==> !(promote && served.Some? && old(Late(key))))
      ensures old(UsedBefore()) && old(Reach()) < U64_MAX ==> UsedBefore() && Reach() <= old(Reach()) + 1
    {
      hide DiskCache.Valid, IsWorst, SomeUnreadable, SomeMissing, SomeChanged, Coherent, IsCurrent, AfterDraw, InOrder, UsedBefore, Reach, Late, Ordered;
      OrderedWithout(key);
      if promote { Promote(key); }
      assert memory - {key} == old(memory) - {key};
      var cached := memory[key];
      var fastPath := FastPath(cached, requireFresh, generation, now);
      freshness := Fresh;
      if !fastPath {
        freshness := CheckFingerprintsStrict(disk.fingerprintsOf(cached.envelope), world);
        WorstMeans(freshness, disk.fingerprintsOf(cached.envelope), world);
      }
      if freshness == Gone || (freshness == Stale && !serveStale) {
        EvictIfCurrent(key, cached.identity);
        return None, freshness;
      }
      if freshness == Fresh && !fastPath && !cached.firstParty { Restamp(key, Stamp(generation, now)); }
      served := Some(cached.envelope);
    }

    lemma OrderedWithout(key: string)
      ensures InOrder() ==> Ordered(memory - {key}, dirty, disk.Contents)
    {
      OrderedDrop(memory, dirty, disk.Contents, {key}, disk.Contents);
    }

    /** Why a disk read answers nothing: no row, one it must evict, or one it cannot verify for a caller
        that insists. */
    ghost predicate Unserved(key: string, contents: map<string, Stored>, requireFresh: bool, world: string -> FileProbe) {
      || key !in contents
      || disk.Refused(contents[key], world)
      || (requireFresh && contents[key].envelope.Some?
          && SomeUnreadable(disk.fingerprintsOf(contents[key].envelope.value), world))
    }

    /** What a disk read that answers nothing leaves: a row it must evict is gone, unless the transaction aborts, and any
        other row stays. */
    ghost predicate DiskMiss(key: string, before: map<string, Stored>, after: map<string, Stored>, world: string -> FileProbe,
                             aborts: int)
    {
      if key in before && disk.Refused(before[key], world) then Dropped(before, after, {key}, aborts) else after == before
    }

    /** Brings a row, once observed, into memory under the caps. A promotion then draws past it, or at the top of the
        counter level with it. */
    method Hydrate(key: string, stored: Stored, freshness: Freshness, promote: bool, generation: nat, now: nat)
      returns (ghost cached: CachedImport)
      requires Valid() && key !in memory && key in disk.Contents && disk.Contents[key] == stored
      requires stored.envelope.Some? && disk.Servable(stored.envelope.value) && stored.lastSeq <= U64_MAX
      requires clock.next >= stored.lastSeq
      modifies this, disk, clock
      ensures Valid() && disk.clearGeneration == old(disk.clearGeneration) && dirty == old(dirty)
      ensures Hydrated(key, cached, stored, freshness, generation, now, promote, firstPartyKey, old(clock.next), memory, disk.Contents)
      ensures CapOutcome(old(memory)[key := cached], dirty, memory)
      ensures Survives(old(memory)[key := cached], memory, old(disk.Contents), disk.Contents)
      ensures clock.next == MovedBy(promote, old(clock.next))
      ensures old(InOrder()) ==> InOrder()
      ensures old(UsedBefore()) && old(Reach()) < U64_MAX && stored.lastSeq < old(clock.next) ==> UsedBefore() && Reach() <= old(Reach()) + 1
    {
      hide DiskCache.Valid, CapOutcome, Rehydratable, Coherent;
      var clearGeneration := disk.clearGeneration;
      var entry := CachedImport(stored.envelope.value, if freshness == Fresh then Stamp(generation, now) else NEVER,
                                stored.lastSeq, stored.lastSeq, firstPartyKey(key), nextIdentity);
      nextIdentity := nextIdentity + 1;
      if promote {
        var drawn := clock.NextSeq();
        entry := entry.(lastSeq := drawn);
      }
      cached := entry;
      InsertIntoMemoryGuarded(key, entry, clearGeneration, disk.clearGeneration);
      CoherentPut(old(memory), dirty, disk.Contents, disk.decodes, disk.durable, firstPartyKey, key, entry);
      ghost var memory0, disk0 := memory, disk.Contents;
      var lost := EnforceMemoryCap();
      CapKeeps(memory0, dirty, memory);
      HydratedSurvives(key, entry, memory0, dirty, memory, disk0, disk.Contents, lost);
    }

    /** A read answered from disk: the entry hydrates into memory, verified only if every
        fingerprint probed Fresh. */
    method ReadDisk(key: string, promote: bool, requireFresh: bool, world: string -> FileProbe, generation: nat, now: nat)
      returns (served: Option<Envelope>, freshness: Freshness)
      requires Valid() && key !in memory
      modifies this, disk, clock
      ensures Valid() && disk.clearGeneration == old(disk.clearGeneration) && dirty == old(dirty)
      ensures served.None? <==> Unserved(key, old(disk.Contents), requireFresh, world)
      ensures served.None? ==> memory == old(memory) && DiskMiss(key, old(disk.Contents), disk.Contents, world, disk.Aborts - old(disk.Aborts))
      ensures served.None? ==> clock.next == old(clock.next) || (key in old(disk.Contents) && clock.next == AfterObserve(old(clock.next), old(disk.Contents)[key].lastSeq))
      ensures served.Some? ==>
                && key in old(disk.Contents) && old(disk.Contents)[key].envelope == served
                && HydrationVerdict(served.value, requireFresh, disk.fingerprintsOf, world, freshness)
                && exists cached ::
                     && Hydrated(key, cached, old(disk.Contents)[key], freshness, generation, now, promote,
                                 firstPartyKey, AfterObserve(old(clock.next), old(disk.Contents)[key].lastSeq), memory, disk.Contents)
                     && CapOutcome(old(memory)[key := cached], dirty, memory)
                     && Survives(old(memory)[key := cached], memory, old(disk.Contents), disk.Contents)
      ensures old(InOrder()) ==> InOrder()
      ensures old(UsedBefore()) && old(Reach()) < U64_MAX ==> UsedBefore() && Reach() <= old(Reach()) + 1
      ensures served.Some? ==> clock.next == MovedBy(promote, AfterObserve(old(clock.next), old(disk.Contents)[key].lastSeq))
    {
      hide DiskCache.Valid, IsWorst, DiskCache.Refused, CapOutcome, Rehydratable, Coherent, SomeUnreadable;
      served, freshness := None, Unknown;
      var entry := disk.GetEntry(key, world);
      if entry.None? {
        CoherentDrop(memory, dirty, old(disk.Contents), disk.decodes, disk.durable, firstPartyKey,
                     {key}, disk.Contents);
        assert memory - {key} == memory;
        return;
      }
      var (stored, verdict) := entry.value;
      clock.Observe(stored.lastSeq);
      CoherentDrop(memory, dirty, disk.Contents, disk.decodes, disk.durable, firstPartyKey,
                   {}, disk.Contents);
      assert memory - {} == memory;
      freshness := verdict;
      if freshness != Fresh && requireFresh { return; }
      served := Some(stored.envelope.value);
      ghost var cached := Hydrate(key, stored, freshness, promote, generation, now);
    }

    /** The one classify-and-serve path behind every read: memory first, then disk. */
    method Lookup(key: string, promote: bool, requireFresh: bool, serveStale: bool, world: string -> FileProbe,
                  generation: nat, now: nat)
      returns (served: Option<Envelope>, freshness: Freshness)
      requires Valid()
      modifies this, disk, clock
      ensures Valid() && disk.clearGeneration == old(disk.clearGeneration) && dirty == old(dirty)
      ensures key in old(memory) ==>
                HitOutcome(old(memory)[key], key, promote, requireFresh, serveStale, disk.fingerprintsOf, world, generation, now,
                           old(clock.next), served, freshness, old(memory), memory)
      ensures key !in old(memory) && served.Some? ==>
                && key in old(disk.Contents) && old(disk.Contents)[key].envelope == served
                && HydrationVerdict(served.value, requireFresh, disk.fingerprintsOf, world, freshness)
                && exists cached ::
                     && Hydrated(key, cached, old(disk.Contents)[key], freshness, generation, now, promote,
                                 firstPartyKey, AfterObserve(old(clock.next), old(disk.Contents)[key].lastSeq), memory, disk.Contents)
                     && CapOutcome(old(memory)[key := cached], dirty, memory)
                     && Survives(old(memory)[key := cached], memory, old(disk.Contents), disk.Contents)
      ensures key !in old(memory) ==> (served.None? <==> Unserved(key, old(disk.Contents), requireFresh, world))
      ensures key !in old(memory) && served.None? ==>
                DiskMiss(key, old(disk.Contents), disk.Contents, world, disk.Aborts - old(disk.Aborts))
      ensures key in old(memory) ==>
                && (key in memory <==> served.Some?)
                && (served.None? <==> (!FastPath(old(memory)[key], requireFresh, generation, now)
                                       && Outdated(disk.fingerprintsOf(old(memory)[key].envelope), world, serveStale)))
      ensures key !in old(memory) && served.None? ==>
                clock.next == old(clock.next) || (key in old(disk.Contents) && clock.next == AfterObserve(old(clock.next), old(disk.Contents)[key].lastSeq))
      ensures key in old(memory) ==>
                if served.Some? then disk.Contents == old(disk.Contents)
                else Dropped(old(disk.Contents), disk.Contents, {key}, disk.Aborts - old(disk.Aborts))
      ensures served.None? ==> memory == old(memory) - {key} && disk.Contents - {key} == old(disk.Contents) - {key}
      ensures old(InOrder()) ==> (InOrder() <==> !(promote && served.Some? && old(Late(key))))
      ensures old(UsedBefore()) && old(Reach()) < U64_MAX ==> UsedBefore() && Reach() <= old(Reach()) + 1
      ensures key in old(memory) ==> clock.next == MovedBy(promote, old(clock.next))
      ensures key !in old(memory) && served.Some? ==>
                clock.next == MovedBy(promote, AfterObserve(old(clock.next), old(disk.Contents)[key].lastSeq))
    {
      hide DiskCache.Valid, HydrationVerdict, Hydrated, Unserved, CapOutcome, DiskCache.Refused, Outdated;
      if key in memory {
        served, freshness := ReadMemory(key, promote, requireFresh, serveStale, world, generation, now);
      } else {
        served, freshness := ReadDisk(key, promote, requireFresh, world, generation, now);
        assert served.None? ==> memory == old(memory) - {key};
      }
    }

    /** A bulk or force-fresh read. What a force-fresh read returns probed Fresh, every fingerprint of
        it, in this very call, whichever layer held it and however recently it was verified. */
    method Read(key: string, requireFresh: bool, promote: bool, world: string -> FileProbe, generation: nat, now: nat)
      returns (served: Option<Envelope>)
      requires Valid()
      modifies this, disk, clock
      ensures Valid() && disk.clearGeneration == old(disk.clearGeneration)
      ensures served.Some? && requireFresh ==> AllFresh(disk.fingerprintsOf(served.value), world)
      ensures served.None? <==>
                if key in old(memory) then !FastPath(old(memory)[key], requireFresh, generation, now)
                  && (Outdated(disk.fingerprintsOf(old(memory)[key].envelope), world, false)
                      || (requireFresh && SomeUnreadable(disk.fingerprintsOf(old(memory)[key].envelope), world)))
                else Unserved(key, old(disk.Contents), requireFresh, world)
      ensures served.Some? ==>
                if key in old(memory) then served.value == old(memory)[key].envelope
                else key in old(disk.Contents) && served == old(disk.Contents)[key].envelope
      ensures old(InOrder()) ==> (InOrder() <==> !(promote && key in memory && old(Late(key))))
      ensures old(UsedBefore()) && old(Reach()) < U64_MAX ==> UsedBefore() && Reach() <= old(Reach()) + 1
    {
      hide DiskCache.Valid, Coherent, Hydrated, CapOutcome, Survives, Unserved, DiskMiss, InOrder, UsedBefore, Reach, Ordered,
           IsWorst, SomeUnreadable, SomeMissing, SomeChanged;
      var result, freshness := Lookup(key, promote, requireFresh, false, world, generation, now);
      if key in old(memory) && !FastPath(old(memory)[key], requireFresh, generation, now) {
        WorstMeans(freshness, disk.fingerprintsOf(old(memory)[key].envelope), world);
      } else if result.Some? && requireFresh {
        WorstMeans(freshness, disk.fingerprintsOf(result.value), world);
      }
      if requireFresh && freshness != Fresh { return None; }
      served := result;
    }

    /** Evicts every entry whose key `matches`, from both layers. */
    method InvalidatePackages(matches: string -> bool)
      requires Valid()
      modifies this`memory, disk
      ensures Valid() && disk.clearGeneration == old(disk.clearGeneration)
      ensures memory == old(memory) - Matching(old(memory).Keys, matches)
      ensures forall k :: k in memory ==> !matches(k)
      ensures var gone := Matching(old(disk.tables.rows.Keys + disk.pendingInserts.Keys), matches);
              && Dropped(old(disk.Contents), disk.Contents, gone, disk.Aborts - old(disk.Aborts))
              && (forall k :: k in old(disk.Contents) && matches(k) ==> k in gone)
      ensures disk.Aborts >= old(disk.Aborts)
      ensures old(InOrder()) ==> InOrder()
      ensures old(UsedBefore()) ==> UsedBefore() && Reach() <= old(Reach())
    {
      hide DiskCache.Valid, Coherent;
      disk.ContentsHaveRows();
      disk.Invalidate(matches);
      ghost var gone := Matching(old(disk.tables.rows.Keys + disk.pendingInserts.Keys), matches);
      var keys := Matching(memory.Keys, matches);
      memory := memory - keys;
      WiderDrop(disk.Contents, old(disk.Contents), gone, keys + gone);
      CoherentDrop(old(memory), dirty, old(disk.Contents), disk.decodes, disk.durable, firstPartyKey,
                   keys + gone, disk.Contents);
      assert old(memory) - (keys + gone) == memory;
    }

    /** Evicts `keys` from both layers and reports the bytes the disk durably freed. */
    method EvictKeys(keys: seq<string>) returns (freed: nat)
      requires Valid()
      modifies this`memory, disk
      ensures Valid() && disk.clearGeneration == old(disk.clearGeneration)
      ensures memory == old(memory) - KeySet(keys)
      ensures disk.Aborts >= old(disk.Aborts)
      ensures Dropped(old(disk.Contents), disk.Contents, KeySet(keys), disk.Aborts - old(disk.Aborts))
      ensures freed == ByteSum(old(disk.tables.rows)) - ByteSum(disk.tables.rows)
      ensures old(InOrder()) ==> InOrder()
      ensures old(UsedBefore()) ==> UsedBefore() && Reach() <= old(Reach())
    {
      hide DiskCache.Valid, Coherent;
      freed := disk.RemoveKeys(keys);
      memory := memory - KeySet(keys);
      CoherentDrop(old(memory), dirty, old(disk.Contents), disk.decodes, disk.durable, firstPartyKey,
                   KeySet(keys), disk.Contents);
    }

    /** Wipes both layers. If the disk transaction fails, committed rows remain readable. */
    method Clear() returns (wiped: bool)
      requires Valid()
      modifies this, disk
      ensures Valid() && disk.clearGeneration == old(disk.clearGeneration) + 1
      ensures memory == map[] && dirty == {} && disk.pendingInserts == map[]
      ensures wiped <==> disk.Aborts == old(disk.Aborts)
      ensures wiped ==> disk.Contents == map[] && disk.tables == EMPTY_TABLES
      ensures !wiped ==> disk.tables == old(disk.tables)
      ensures old(InOrder()) ==> InOrder()
      ensures old(UsedBefore()) ==> UsedBefore() && Reach() <= old(Reach())
      ensures InOrder()
    {
      hide DiskCache.Valid;
      wiped := disk.Clear();
      memory, dirty := map[], {};
    }

    /** Cold eviction victims: for any batch the search window covers, the first `n` keys not in use
        among the oldest rows beyond the floor. */
    method LowestSeqDiskKeys(n: nat, floor: nat) returns (victims: seq<string>)
      requires Valid()
      modifies disk
      ensures Valid() && disk.Contents == old(disk.Contents) && disk.clearGeneration == old(disk.clearGeneration)
      ensures n <= MAX_EVICTION_SCAN ==> victims == Take(ColdKeys(memory, Oldest(disk.tables.index, MAX_EVICTION_SCAN, floor)), n)
      ensures ColdBatch(memory, disk.tables.index, n, floor, victims)
      ensures old(InOrder()) ==> InOrder()
      ensures old(UsedBefore()) ==> UsedBefore() && Reach() <= old(Reach())
      ensures disk.Aborts >= old(disk.Aborts)
    {
      hide DiskCache.Valid, Coherent, ColdKeys, IsHot, ColdBatch, Take, Picks;
      if n == 0 {
        NoneTaken(memory, disk.tables.index, floor);
        return [];
      }
      var first := disk.LowestSeqKeys(n, floor);
      victims := FilterEvictable(memory, first, n);
      if |victims| == n || |first| < n {
        NarrowBatch(memory, disk.tables.index, n, floor, victims);
        return;
      }
      var wide := disk.LowestSeqKeys(MAX_EVICTION_SCAN, floor);
      victims := FilterEvictable(memory, wide, n);
      WideBatch(memory, disk.tables.index, n, floor, victims);
    }

    // ---- Flush ----

    ghost predicate CoherentWith(marked: set<string>) reads this, disk, clock {
      && disk.Valid() && clock.Valid()
      && Coherent(memory, marked, disk.Contents, disk.decodes, disk.durable, firstPartyKey)
    }

    /** Queues the dirty entries again; returns the keys that failed once more. */
    method ReplayDirty(marked: set<string>, generation: nat) returns (failed: set<string>)
      requires CoherentWith(marked) && generation == disk.clearGeneration
      modifies disk
      ensures CoherentWith(failed) && disk.clearGeneration == old(disk.clearGeneration)
      ensures failed <= marked && disk.Refusals >= old(disk.Refusals) && disk.Aborts >= old(disk.Aborts)
      ensures disk.Refusals == old(disk.Refusals) <==> failed == {}
      ensures old(Ordered(memory, marked, disk.Contents)) ==> Ordered(memory, failed, disk.Contents)
      ensures old(UsedBefore()) ==> UsedBefore() && Reach() <= old(Reach())
      ensures Resaved(old(memory), old(disk.Contents), disk.Contents)
    {
      hide DiskCache.Valid, Coherent;
      failed := {};
      var todo := marked * memory.Keys;
      ReplayStart(memory, marked, disk.Contents, disk.decodes, disk.durable, firstPartyKey);
      assert todo + failed == todo;
      while todo != {}
        invariant todo <= memory.Keys && todo + failed <= marked
        invariant CoherentWith(todo + failed) && disk.clearGeneration == generation
        invariant Resaved(memory, old(disk.Contents), disk.Contents)
        invariant old(Ordered(memory, marked, disk.Contents)) ==> Ordered(memory, todo + failed, disk.Contents)
        invariant old(UsedBefore()) ==> UsedBefore() && Reach() <= old(Reach())
        invariant disk.Refusals >= old(disk.Refusals) && disk.Aborts >= old(disk.Aborts)
        invariant disk.Refusals == old(disk.Refusals) <==> failed == {}
      {
        var key :| key in todo;
        EntryAdmitted(todo + failed, key);
        ghost var disk0 := disk.Contents;
        var ok := disk.InsertAtGeneration(key, memory[key].lastSeq, memory[key].envelope, generation);
        ReplayStep(memory, todo, failed, disk0, disk.decodes, disk.durable, firstPartyKey, key, ok);
        todo := todo - {key};
        if !ok { failed := failed + {key}; }
      }
      assert {} + failed == failed;
    }

    lemma EntryAdmitted(marked: set<string>, key: string)
      requires CoherentWith(marked) && key in memory
      ensures EntryOk(key, memory[key], disk.decodes, disk.durable, firstPartyKey)
    {
    }

    /** Re-persists one entry at the recency it has now. */
    method SweepOne(ghost failed: set<string>, key: string, generation: nat) returns (inserted: bool)
      requires CoherentWith(failed) && generation == disk.clearGeneration && key in memory && key !in failed
      modifies this`memory, disk
      ensures CoherentWith(failed) && disk.clearGeneration == old(disk.clearGeneration)
      ensures memory == if inserted then old(memory)[key := old(memory)[key].(persistedSeq := old(memory)[key].lastSeq)] else old(memory)
      ensures disk.Refusals == old(disk.Refusals) + (if inserted then 0 else 1) && disk.Aborts >= old(disk.Aborts)
      ensures old(Ordered(memory, failed, disk.Contents)) ==> Ordered(memory, failed, disk.Contents)
      ensures old(UsedBefore()) ==> UsedBefore() && Reach() <= old(Reach())
      ensures Resaved(old(memory), old(disk.Contents), disk.Contents)
    {
      hide DiskCache.Valid, Coherent, Ordered;
      EntryAdmitted(failed, key);
      var seqAtFlush := memory[key].lastSeq;
      inserted := disk.InsertAtGeneration(key, seqAtFlush, memory[key].envelope, generation);
      if inserted {
        SweepStep(memory, failed, old(disk.Contents), disk.decodes, disk.durable, firstPartyKey, key);
        memory := memory[key := memory[key].(persistedSeq := seqAtFlush)];
      }
    }

    /** Re-persists every promoted entry that is on disk. */
    method SweepPromoted(failed: set<string>, generation: nat) returns (ok: bool)
      requires CoherentWith(failed) && generation == disk.clearGeneration
      modifies this`memory, disk
      ensures CoherentWith(failed) && disk.clearGeneration == old(disk.clearGeneration)
      ensures SameEntries(old(memory), memory)
      ensures ok ==> NonePromoted(memory, failed)
      ensures disk.Refusals >= old(disk.Refusals) && disk.Aborts >= old(disk.Aborts)
      ensures disk.Refusals == old(disk.Refusals) <==> ok
      ensures old(Ordered(memory, failed, disk.Contents)) ==> Ordered(memory, failed, disk.Contents)
      ensures old(UsedBefore()) ==> UsedBefore() && Reach() <= old(Reach())
      ensures Resaved(old(memory), old(disk.Contents), disk.Contents)
    {
      hide DiskCache.Valid, Coherent, CoherentWith, UsedBefore, Reach, Ordered;
      ok := true;
      var todo := set k | k in memory && k !in failed && memory[k].lastSeq > memory[k].persistedSeq;
      NothingElsePromoted(failed, todo);
      while todo != {}
        invariant todo <= memory.Keys && todo !! failed
        invariant CoherentWith(failed) && disk.clearGeneration == generation
        invariant old(Ordered(memory, failed, disk.Contents)) ==> Ordered(memory, failed, disk.Contents)
        invariant old(UsedBefore()) ==> UsedBefore() && Reach() <= old(Reach())
        invariant SameEntries(old(memory), memory) && Resaved(old(memory), old(disk.Contents), disk.Contents)
        invariant ok ==> NonePromoted(memory, failed + todo)
        invariant disk.Refusals >= old(disk.Refusals) && disk.Aborts >= old(disk.Aborts)
        invariant disk.Refusals == old(disk.Refusals) <==> ok
      {
        var key :| key in todo;
        var inserted := SweepOne(failed, key, generation);
        ok := ok && inserted;
        todo := todo - {key};
      }
      assert failed + {} == failed;
    }

    lemma NothingElsePromoted(failed: set<string>, todo: set<string>)
      requires CoherentWith(failed)
      requires todo == set k | k in memory && k !in failed && memory[k].lastSeq > memory[k].persistedSeq
      ensures NonePromoted(memory, failed + todo)
    {
    }

    lemma AllPersisted()
      requires Valid() && dirty == {} && NonePromoted(memory, {})
      ensures forall k :: k in memory ==> k in disk.Contents && disk.Contents[k].envelope == Some(memory[k].envelope)
      ensures InOrder() ==> forall k :: k in memory ==> disk.Contents[k] == StoredFor(memory[k])
    {
    }

    /** Replays the dirty entries, re-persists every promoted one, then flushes the queue. Keys whose
        replay failed stay dirty; on success the disk holds exactly what memory does. */
    method FlushToDisk() returns (ok: bool)
      requires Valid()
      modifies this, disk
      ensures Valid() && disk.clearGeneration == old(disk.clearGeneration)
      ensures SameEntries(old(memory), memory) && dirty <= old(dirty)
      ensures ok <==> disk.Refusals == old(disk.Refusals)
      ensures ok ==> dirty == {} && NonePromoted(memory, {})
      ensures disk.pendingInserts == map[] || disk.Aborts > old(disk.Aborts)
      ensures ok ==> forall k :: k in memory ==> k in disk.Contents && disk.Contents[k].envelope == Some(memory[k].envelope)
      ensures ok && old(InOrder()) ==> forall k :: k in memory ==> k in disk.Contents && disk.Contents[k] == StoredFor(memory[k])
      ensures old(InOrder()) ==> InOrder()
      ensures old(UsedBefore()) ==> UsedBefore() && Reach() <= old(Reach())
      ensures Resaved(old(memory), old(disk.Contents), disk.Contents)
    {
      hide DiskCache.Valid, Coherent;
      var clearGeneration := disk.clearGeneration;
      var dirtyKeys := dirty;
      dirty := {};
      var failed := ReplayDirty(dirtyKeys, clearGeneration);
      ok := SweepPromoted(failed, clearGeneration);
      disk.FlushPendingInserts();
      dirty := dirty + failed;
      assert dirty == failed;
      ok := ok && failed == {};
      if ok { AllPersisted(); }
    }
  }

  /** `e` is in memory, or the disk re-hydrates it at its own recency. */
  ghost predicate Holds(key: string, e: CachedImport, memory: map<string, CachedImport>, disk: map<string, Stored>) {
    if key in memory then memory[key] == e else key in disk && disk[key] == StoredFor(e)
  }

  lemma NewestSurvives(key: string, e: CachedImport, memory0: map<string, CachedImport>, dirty: set<string>,
                       memory: map<string, CachedImport>, disk0: map<string, Stored>, disk: map<string, Stored>, lost: set<string>)
    requires key in memory0 && memory0[key] == e && e.persistedSeq == e.lastSeq
    requires key in dirty || (key in disk0 && disk0[key] == StoredFor(e))
    requires KeepsAllBut(memory0, dirty, memory) && Rehydratable(memory0, memory, disk0, disk, lost)
    ensures Holds(key, e, memory, disk)
  {
    assert !Rewritten(memory0, memory, lost, key);
  }

  /** The keys left the disk, unless a transaction aborted; other keys read as before. */
  ghost predicate Dropped(before: map<string, Stored>, after: map<string, Stored>, keys: set<string>, aborts: int) {
    after - keys == before - keys && (aborts == 0 ==> after == before - keys)
  }

  lemma WiderDrop<T>(a: map<string, T>, b: map<string, T>, small: set<string>, wide: set<string>)
    requires a - small == b - small && small <= wide
    ensures a - wide == b - wide
  {
    assert a - wide == (a - small) - wide && b - wide == (b - small) - wide;
  }

  /** A batch of eviction victims. No victim was used since its row was written, and none is among the `floor` newest. Of
      a batch the search window covers, the victims are moreover the oldest: every row of the window before the last of
      them, or every row of it if fewer than `n` came back, is a victim's or was used since. */
  ghost predicate ColdBatch(memory: map<string, CachedImport>, index: seq<IndexRow>, n: nat, floor: nat, victims: seq<string>) {
    && |victims| <= n
    && (forall key :: key in victims ==>
          exists i :: 0 <= i < |index| - floor && index[i].1 == key && !(key in memory && memory[key].lastSeq > index[i].0))
    && (n <= MAX_EVICTION_SCAN ==>
          Picks(memory, index[..if |index| <= floor then 0 else Min(MAX_EVICTION_SCAN, |index| - floor)], n, victims))
  }

  /** Victims are cold rows of the window. */
  lemma TakenAreCold(memory: map<string, CachedImport>, index: seq<IndexRow>, window: nat, floor: nat, n: nat, victims: seq<string>)
    requires victims == Take(ColdKeys(memory, Oldest(index, window, floor)), n)
    ensures forall key :: key in victims ==>
              exists i :: 0 <= i < |index| - floor && index[i].1 == key && !(key in memory && memory[key].lastSeq > index[i].0)
  {
    var rows := Oldest(index, window, floor);
    forall key | key in victims
      ensures exists i :: 0 <= i < |index| - floor && index[i].1 == key && !(key in memory && memory[key].lastSeq > index[i].0)
    {
      ColdKeysAreCold(memory, rows, key);
      var i :| 0 <= i < |rows| && rows[i].1 == key && !IsHot(memory, rows[i]);
      assert index[i] == rows[i];
    }
  }

  lemma WideBatch(memory: map<string, CachedImport>, index: seq<IndexRow>, n: nat, floor: nat, victims: seq<string>)
    requires victims == Take(ColdKeys(memory, Oldest(index, MAX_EVICTION_SCAN, floor)), n)
    ensures ColdBatch(memory, index, n, floor, victims)
  {
    hide ColdKeys, Picks;
    WindowPicks(memory, index, n, floor);
    TakenAreCold(memory, index, MAX_EVICTION_SCAN, floor, n, victims);
  }

  lemma NarrowBatch(memory: map<string, CachedImport>, index: seq<IndexRow>, n: nat, floor: nat, victims: seq<string>)
    requires n > 0 && victims == Take(ColdKeys(memory, Oldest(index, n, floor)), n)
    requires |victims| == n || |Oldest(index, n, floor)| < n
    ensures ColdBatch(memory, index, n, floor, victims)
    ensures n <= MAX_EVICTION_SCAN ==> victims == Take(ColdKeys(memory, Oldest(index, MAX_EVICTION_SCAN, floor)), n)
  {
    hide ColdKeys, Picks;
    if n <= MAX_EVICTION_SCAN {
      NarrowWindowSuffices(memory, index, n, floor);
      WideBatch(memory, index, n, floor, victims);
    } else {
      TakenAreCold(memory, index, n, floor, n, victims);
    }
  }

  lemma NoneTaken(memory: map<string, CachedImport>, index: seq<IndexRow>, floor: nat)
    ensures Take(ColdKeys(memory, Oldest(index, MAX_EVICTION_SCAN, floor)), 0) == [] && ColdBatch(memory, index, 0, floor, [])
  {
    WideBatch(memory, index, 0, floor, []);
  }

  lemma ReplayStart(memory: map<string, CachedImport>, marked: set<string>, disk: map<string, Stored>,
                    decodes: Envelope -> bool, durable: Envelope -> bool, firstPartyKey: string -> bool)
    requires Coherent(memory, marked, disk, decodes, durable, firstPartyKey)
    ensures Coherent(memory, marked * memory.Keys, disk, decodes, durable, firstPartyKey)
    ensures Ordered(memory, marked, disk) ==> Ordered(memory, marked * memory.Keys, disk)
  {
  }

  lemma ReplayStep(memory: map<string, CachedImport>, todo: set<string>, failed: set<string>, disk: map<string, Stored>,
                   decodes: Envelope -> bool, durable: Envelope -> bool, firstPartyKey: string -> bool, key: string, ok: bool)
    requires Coherent(memory, todo + failed, disk, decodes, durable, firstPartyKey)
    requires key in memory
    ensures Coherent(memory, todo - {key} + (if ok then failed else failed + {key}),
                     if ok then disk[key := StoredFor(memory[key])] else disk, decodes, durable, firstPartyKey)
    ensures Ordered(memory, todo + failed, disk) ==>
              Ordered(memory, todo - {key} + (if ok then failed else failed + {key}),
                      if ok then disk[key := StoredFor(memory[key])] else disk)
  {
  }

  lemma SweepStep(memory: map<string, CachedImport>, failed: set<string>, disk: map<string, Stored>,
                  decodes: Envelope -> bool, durable: Envelope -> bool, firstPartyKey: string -> bool, key: string)
    requires Coherent(memory, failed, disk, decodes, durable, firstPartyKey) && key in memory
    ensures Coherent(memory[key := memory[key].(persistedSeq := memory[key].lastSeq)], failed,
                     disk[key := StoredFor(memory[key])], decodes, durable, firstPartyKey)
    ensures Ordered(memory, failed, disk) ==>
              Ordered(memory[key := memory[key].(persistedSeq := memory[key].lastSeq)], failed, disk[key := StoredFor(memory[key])])
  {
  }

  /** Rows are as they were, or hold the entry in memory at its own recency. */
  ghost predicate Resaved(memory: map<string, CachedImport>, before: map<string, Stored>, after: map<string, Stored>) {
    && before.Keys <= after.Keys
    && (forall k :: k in after ==>
          (k in before && after[k] == before[k]) || (k in memory && after[k] == Stored(memory[k].lastSeq, Some(memory[k].envelope))))
  }

  lemma ResavedThen(memory: map<string, CachedImport>, memory': map<string, CachedImport>, a: map<string, Stored>,
                    b: map<string, Stored>, c: map<string, Stored>)
    requires SameEntries(memory, memory') && Resaved(memory, a, b) && Resaved(memory', b, c)
    ensures Resaved(memory, a, c)
  {
  }

  /** No entry beyond `except` was used since it was last persisted. */
  ghost predicate NonePromoted(memory: map<string, CachedImport>, except: set<string>) {
    forall k :: k in memory && k !in except ==> memory[k].persistedSeq >= memory[k].lastSeq
  }

  /** The same entries, but for how recent the disk's copy is believed to be. */
  ghost predicate SameEntries(before: map<string, CachedImport>, after: map<string, CachedImport>) {
    && before.Keys == after.Keys
    && (forall k :: k in before ==> after[k] == before[k].(persistedSeq := after[k].persistedSeq))
  }

  /** Served without a probe: an installed entry confirmed a short while ago, to a caller that does not insist. */
  predicate FastPath(e: CachedImport, requireFresh: bool, generation: nat, now: nat) {
    !requireFresh && !e.firstParty && IsCurrent(e.verification, generation, now)
  }

  lemma FastPathMeans(e: CachedImport, requireFresh: bool, generation: nat, now: nat)
    ensures FastPath(e, requireFresh, generation, now) <==>
              && !requireFresh && !e.firstParty && e.verification.generation == generation
              && 0 < e.verification.atMillis && now + 1 < e.verification.atMillis + 30_000
  {
  }

  /** A read of `e` in memory: the verdict, the answer and the whole new working set. */
  ghost predicate HitOutcome(e: CachedImport, key: string, promote: bool, requireFresh: bool, serveStale: bool,
                             fingerprintsOf: Envelope -> seq<FileFingerprint>, world: string -> FileProbe,
                             generation: nat, now: nat, drawn: nat, served: Option<Envelope>, freshness: Freshness,
                             before: map<string, CachedImport>, after: map<string, CachedImport>)
  {
    var fastPath := FastPath(e, requireFresh, generation, now);
    && (if fastPath then freshness == Fresh else IsWorst(freshness, fingerprintsOf(e.envelope), world))
    && served == (if freshness == Gone || (freshness == Stale && !serveStale) then None else Some(e.envelope))
    && after == (if served.None? then before - {key}
                 else before[key := e.(
                   lastSeq := if promote then drawn else e.lastSeq,
                   verification := if freshness == Fresh && !fastPath && !e.firstParty then Stamp(generation, now)
                                   else e.verification)])
  }

  /** A disk read serves only entries with no stale or missing input, and to a force-fresh caller only
      verified ones. */
  ghost predicate HydrationVerdict(envelope: Envelope, requireFresh: bool, fingerprintsOf: Envelope -> seq<FileFingerprint>,
                                   world: string -> FileProbe, freshness: Freshness)
  {
    && IsWorst(freshness, fingerprintsOf(envelope), world)
    && (freshness == Fresh || (freshness == Unknown && !requireFresh))
  }

  /** `cached` is the row `stored` brought back, never verified unless it just probed Fresh, at the
      sequence `drawn` if promoted, and held by one of the layers. */
  ghost predicate Hydrated(key: string, cached: CachedImport, stored: Stored, freshness: Freshness, generation: nat, now: nat,
                           promote: bool, firstPartyKey: string -> bool, drawn: nat,
                           after: map<string, CachedImport>, disk: map<string, Stored>)
  {
    && Some(cached.envelope) == stored.envelope
    && cached.persistedSeq == stored.lastSeq
    && cached.lastSeq == (if promote then drawn else stored.lastSeq)
    && cached.verification == (if freshness == Fresh then Stamp(generation, now) else NEVER)
    && cached.firstParty == firstPartyKey(key)
    && (if key in after then after[key] == cached else key in disk && BackedBy(cached, disk[key]))
  }

  lemma HydratedSurvives(key: string, e: CachedImport, memory0: map<string, CachedImport>, dirty: set<string>,
                         memory: map<string, CachedImport>, disk0: map<string, Stored>, disk: map<string, Stored>, lost: set<string>)
    requires key in memory0 && memory0[key] == e
    requires KeepsAllBut(memory0, dirty, memory) && Rehydratable(memory0, memory, disk0, disk, lost)
    ensures if key in memory then memory[key] == e else key in disk && BackedBy(e, disk[key])
  {
  }

  /** Clean entries only may go, and what stays is untouched. */
  ghost predicate KeepsAllBut(before: map<string, CachedImport>, dirty: set<string>, after: map<string, CachedImport>) {
    && (forall k :: k in after ==> k in before && after[k] == before[k])
    && (forall k :: k in before && k in dirty ==> k in after)
  }

  /** Every dropped entry was used no later than every clean one that stays. */
  ghost predicate DropsOldest(before: map<string, CachedImport>, dirty: set<string>, after: map<string, CachedImport>) {
    forall d, k :: d in before && d !in after && k in after && k !in dirty ==>
      before[d].lastSeq < after[k].lastSeq || (before[d].lastSeq == after[k].lastSeq && StrLe(d, k))
  }

  /** The first `i` candidates are gone and nothing else. */
  ghost predicate Capped(rows: seq<IndexRow>, i: nat, before: map<string, CachedImport>, dirty: set<string>,
                         after: map<string, CachedImport>)
  {
    && Ascending(rows) && i <= |rows|
    && (forall e :: e in rows <==> e.1 in before && e.1 !in dirty && e.0 == before[e.1].lastSeq)
    && KeepsAllBut(before, dirty, after)
    && (forall j :: 0 <= j < |rows| ==> (rows[j].1 in after <==> i <= j))
  }

  lemma CappedStep(rows: seq<IndexRow>, i: nat, before: map<string, CachedImport>, dirty: set<string>,
                   after: map<string, CachedImport>)
    requires Capped(rows, i, before, dirty, after) && i < |rows|
    ensures var key := rows[i].1;
            key in after && key in before && key !in dirty && Capped(rows, i + 1, before, dirty, after - {key})
  {
    assert rows[i] in rows;
    forall j | 0 <= j < |rows| && j != i ensures rows[j].1 != rows[i].1 {
      assert rows[j] in rows;
      if i < j { AscendingAt(rows, i, j); } else { AscendingAt(rows, j, i); }
    }
  }

  lemma CappedOrder(rows: seq<IndexRow>, i: nat, before: map<string, CachedImport>, dirty: set<string>,
                    after: map<string, CachedImport>)
    requires Capped(rows, i, before, dirty, after)
    ensures DropsOldest(before, dirty, after)
    ensures i == |rows| ==> after.Keys <= dirty
  {
    forall k | k in before && k !in dirty
      ensures exists j :: 0 <= j < |rows| && rows[j] == (before[k].lastSeq, k)
    {
      assert (before[k].lastSeq, k) in rows;
    }
    forall d, k | d in before && d !in after && k in after && k !in dirty
      ensures before[d].lastSeq < after[k].lastSeq || (before[d].lastSeq == after[k].lastSeq && StrLe(d, k))
    {
      var a :| 0 <= a < |rows| && rows[a] == (before[d].lastSeq, d);
      var b :| 0 <= b < |rows| && rows[b] == (before[k].lastSeq, k);
      assert a < i <= b;
      AscendingAt(rows, a, b);
    }
  }

  /** Dropped entries re-hydrate with the same measurement. One used since it was last persisted is
      rewritten at its own recency, except those in `lost`, whose write failed; every other row is as
      it was. */
  ghost predicate Rehydratable(before: map<string, CachedImport>, after: map<string, CachedImport>,
                               disk0: map<string, Stored>, disk: map<string, Stored>, lost: set<string>)
  {
    && (forall k :: k in before && k !in after ==> k in disk && BackedBy(before[k], disk[k]))
    && (forall k :: Rewritten(before, after, lost, k) ==> k in disk && disk[k] == StoredFor(before[k]))
    && (forall k :: !Rewritten(before, after, lost, k) ==> (k in disk <==> k in disk0) && (k in disk ==> disk[k] == disk0[k]))
    && (forall k :: k in lost ==> k in before && k !in after && before[k].persistedSeq < before[k].lastSeq)
  }

  /** Some of the dropped entries' writes may have failed. */
  ghost predicate Survives(before: map<string, CachedImport>, after: map<string, CachedImport>,
                           disk0: map<string, Stored>, disk: map<string, Stored>)
  {
    exists lost :: Rehydratable(before, after, disk0, disk, lost)
  }

  predicate Rewritten(before: map<string, CachedImport>, after: map<string, CachedImport>, lost: set<string>, k: string) {
    k in before && k !in after && before[k].persistedSeq < before[k].lastSeq && k !in lost
  }

  /** While recency is in order, a dropped entry comes back at its own recency exactly when its write did
      not fail or the disk already held it there. */
  lemma RecencySurvivesExactly(before: map<string, CachedImport>, dirty: set<string>, after: map<string, CachedImport>,
                               disk0: map<string, Stored>, disk: map<string, Stored>, lost: set<string>, key: string)
    requires Mirrors(before, dirty, disk0) && Ordered(before, dirty, disk0) && key in before && key !in dirty && key !in after
    requires Rehydratable(before, after, disk0, disk, lost)
    ensures disk[key].lastSeq == before[key].lastSeq <==> key !in lost || disk0[key].lastSeq == before[key].lastSeq
  {
    assert BackedBy(before[key], disk0[key]);
    assert Rewritten(before, after, lost, key) || disk[key] == disk0[key];
  }

  /** Dropping an entry whose write failed does lose its promotion: it comes back at the older sequence. */
  lemma PromotionCanBeLost(envelope: Envelope)
    ensures var e := CachedImport(envelope, NEVER, 9, 5, false, 0);
            var disk := map["k" := Stored(5, Some(envelope))];
            && Persisted("k", e, disk, disk, false)
            && Rehydratable(map["k" := e], map[], disk, disk, {"k"})
            && disk["k"].lastSeq < e.lastSeq
  {
  }

  /** What dropping `key` leaves on disk: the entry at its own recency if it was promoted and the write
      succeeded, and otherwise every row as it was. */
  ghost predicate Persisted(key: string, e: CachedImport, disk0: map<string, Stored>, disk: map<string, Stored>, ok: bool)
  {
    && key in disk && BackedBy(e, disk[key])
    && disk == (if ok && e.persistedSeq < e.lastSeq then disk0[key := StoredFor(e)] else disk0)
    && (!ok ==> e.persistedSeq < e.lastSeq)
  }

  lemma RehydratableStep(before: map<string, CachedImport>, mid: map<string, CachedImport>, disk0: map<string, Stored>,
                         disk: map<string, Stored>, lost: set<string>, key: string, disk': map<string, Stored>, ok: bool)
    requires Rehydratable(before, mid, disk0, disk, lost)
    requires key in mid && key in before && mid[key] == before[key]
    requires Persisted(key, before[key], disk, disk', ok)
    ensures Rehydratable(before, mid - {key}, disk0, disk', if ok then lost else lost + {key})
  {
    var after, lost' := mid - {key}, if ok then lost else lost + {key};
    forall k | k != key ensures Rewritten(before, after, lost', k) <==> Rewritten(before, mid, lost, k) { }
  }

  // ---- Whole runs ----

  datatype Operation =
    | Insert(key: string, envelope: Envelope, verifiedGeneration: nat, now: nat)
    | LookUp(key: string, promote: bool, requireFresh: bool, serveStale: bool, world: string -> FileProbe, generation: nat, now: nat)
    | InvalidateMatching(matches: string -> bool)
    | EvictVictims(n: nat, floor: nat)
    | Evict(keys: seq<string>)
    | Cap
    | Flush
    | ClearAll

  /** The cache at one moment: what memory holds and reads of the disk find, the clock and the counts. */
  datatype Moment = Moment(
    memory: map<string, CachedImport>, dirty: set<string>, disk: map<string, Stored>, next: nat, identity: nat,
    refusals: nat, aborts: nat)

  ghost predicate OrderedAt(m: Moment) { Ordered(m.memory, m.dirty, m.disk) }

  /** A read promoted an entry in memory while the counter stood below the entry's own row. */
  ghost predicate LatePromotion(op: Operation, before: Moment, after: Moment) {
    op.LookUp? && op.promote && op.key in before.memory && op.key in after.memory
    && before.next < Floor(before.memory, before.dirty, before.disk, op.key)
  }

  // ---- The whole effect of an operation ----

  /** The caps were enforced on `before`, over rows `disk0`. */
  ghost predicate CappedTo(cache: ImportCache, before: map<string, CachedImport>, disk0: map<string, Stored>, a: Moment) {
    cache.CapOutcome(before, a.dirty, a.memory) && Survives(before, a.memory, disk0, a.disk)
  }

  ghost predicate Inserted(cache: ImportCache, op: Operation, b: Moment, a: Moment)
    requires op.Insert?
  {
    if !cache.disk.durable(op.envelope) then a == b
    else
      var cached := CachedImport(op.envelope, Stamp(op.verifiedGeneration, op.now), b.next, b.next,
                                 cache.firstPartyKey(op.key), b.identity);
      a.next == AfterDraw(b.next)
      && (InsertedAs(cache, op.key, cached, true, b, a) || (InsertedAs(cache, op.key, cached, false, b, a) && a.refusals != b.refusals))
  }

  ghost predicate InsertedAs(cache: ImportCache, key: string, cached: CachedImport, enqueued: bool, b: Moment, a: Moment) {
    && a.dirty == b.dirty + (if enqueued then {} else {key})
    && CappedTo(cache, b.memory[key := cached], if enqueued then b.disk[key := StoredFor(cached)] else b.disk, a)
  }

  /** A read of an entry in memory. */
  ghost predicate ReadHere(cache: ImportCache, op: Operation, b: Moment, a: Moment)
    requires op.LookUp? && op.key in b.memory
  {
    exists served, freshness ::
      && HitOutcome(b.memory[op.key], op.key, op.promote, op.requireFresh, op.serveStale, cache.disk.fingerprintsOf, op.world,
                    op.generation, op.now, b.next, served, freshness, b.memory, a.memory)
      && a.dirty == b.dirty && a.next == MovedBy(op.promote, b.next)
      && (if served.Some? then a.disk == b.disk else Dropped(b.disk, a.disk, {op.key}, a.aborts - b.aborts))
  }

  /** A read that brings a row into memory. */
  ghost predicate ReadThere(cache: ImportCache, op: Operation, b: Moment, a: Moment)
    requires op.LookUp? && op.key in b.disk
  {
    && a.dirty == b.dirty && a.next == MovedBy(op.promote, AfterObserve(b.next, b.disk[op.key].lastSeq))
    && exists cached, freshness ::
         && Hydrated(op.key, cached, b.disk[op.key], freshness, op.generation, op.now, op.promote, cache.firstPartyKey,
                     AfterObserve(b.next, b.disk[op.key].lastSeq), a.memory, a.disk)
         && HydrationVerdict(cached.envelope, op.requireFresh, cache.disk.fingerprintsOf, op.world, freshness)
         && CappedTo(cache, b.memory[op.key := cached], b.disk, a)
  }

  /** A read that answers nothing from disk. */
  ghost predicate ReadNowhere(cache: ImportCache, op: Operation, b: Moment, a: Moment)
    requires op.LookUp?
  {
    && a.memory == b.memory && a.dirty == b.dirty && a.disk - {op.key} == b.disk - {op.key}
    && cache.Unserved(op.key, b.disk, op.requireFresh, op.world)
    && (a.next == b.next || (op.key in b.disk && a.next == AfterObserve(b.next, b.disk[op.key].lastSeq)))
  }

  ghost predicate Evicted(keys: set<string>, b: Moment, a: Moment) {
    && a.memory == b.memory - keys && a.dirty == b.dirty && a.next == b.next
    && Dropped(b.disk, a.disk, keys, a.aborts - b.aborts)
  }

  ghost predicate Invalidated(matches: string -> bool, gone: set<string>, b: Moment, a: Moment) {
    && (forall k :: k in gone ==> matches(k)) && (forall k :: k in b.disk && matches(k) ==> k in gone)
    && Dropped(b.disk, a.disk, gone, a.aborts - b.aborts)
  }

  /** All that an operation may do to the cache, whatever fails on the way. Which victims an eviction takes is for
      `LowestSeqDiskKeys` to say. */
  ghost predicate Effect(cache: ImportCache, op: Operation, b: Moment, a: Moment) {
    match op
    case Insert(_, _, _, _) => Inserted(cache, op, b, a)
    case LookUp(_, _, _, _, _, _, _) =>
      if op.key in b.memory then ReadHere(cache, op, b, a)
      else (op.key in b.disk && ReadThere(cache, op, b, a)) || ReadNowhere(cache, op, b, a)
    case InvalidateMatching(matches) =>
      && a.memory == b.memory - Matching(b.memory.Keys, matches) && a.dirty == b.dirty && a.next == b.next
      && exists gone :: Invalidated(matches, gone, b, a)
    case EvictVictims(n, _) => exists keys: seq<string> :: |keys| <= n && Evicted(KeySet(keys), b, a)
    case Evict(keys) => Evicted(KeySet(keys), b, a)
    case Cap => a.next == b.next && a.dirty == b.dirty && CappedTo(cache, b.memory, b.disk, a)
    case Flush =>
      && SameEntries(b.memory, a.memory) && a.dirty <= b.dirty && a.next == b.next && Resaved(b.memory, b.disk, a.disk)
      && (a.refusals == b.refusals ==> a.dirty == {} && NonePromoted(a.memory, {}))
    case ClearAll => a.memory == map[] && a.dirty == {} && a.next == b.next && (a.aborts == b.aborts ==> a.disk == map[])
  }

  lemma HitMoves(e: CachedImport, key: string, promote: bool, requireFresh: bool, serveStale: bool,
                 fingerprintsOf: Envelope -> seq<FileFingerprint>, world: string -> FileProbe, generation: nat, now: nat,
                 drawn: nat, served: Option<Envelope>, freshness: Freshness,
                 before: map<string, CachedImport>, after: map<string, CachedImport>)
    requires HitOutcome(e, key, promote, requireFresh, serveStale, fingerprintsOf, world, generation, now, drawn, served,
                        freshness, before, after)
    ensures served.Some? <==> key in after
    ensures promote && key in after ==> after[key].lastSeq == drawn
    ensures forall k :: k in after && k != key ==> k in before && after[k] == before[k]
  {
  }

  /** A read, as a step of a run. */
  method PerformLookUp(cache: ImportCache, op: Operation)
    requires cache.Valid() && op.LookUp?
    modifies cache, cache.disk, cache.clock
    ensures cache.Valid() && Effect(cache, op, old(cache.Now()), cache.Now())
    ensures old(cache.InOrder()) ==> (cache.InOrder() <==> !LatePromotion(op, old(cache.Now()), cache.Now()))
    ensures old(cache.UsedBefore()) && old(cache.Reach()) < U64_MAX ==>
              cache.UsedBefore() && cache.Reach() <= old(cache.Reach()) + 1
  {
    hide DiskCache.Valid, Coherent, ImportCache.CapOutcome, Hydrated, HitOutcome, HydrationVerdict, ImportCache.Unserved,
         ImportCache.InOrder, ImportCache.UsedBefore, ImportCache.Reach, Floor, MovedBy;
    ghost var b := cache.Now();
    var served, freshness := cache.Lookup(op.key, op.promote, op.requireFresh, op.serveStale, op.world, op.generation, op.now);
    ghost var a := cache.Now();
    if op.key in b.memory {
      HitMoves(b.memory[op.key], op.key, op.promote, op.requireFresh, op.serveStale, cache.disk.fingerprintsOf, op.world,
               op.generation, op.now, b.next, served, freshness, b.memory, a.memory);
      assert ReadHere(cache, op, b, a);
    } else if served.Some? {
      ghost var entry :|
        && Hydrated(op.key, entry, b.disk[op.key], freshness, op.generation, op.now, op.promote, cache.firstPartyKey,
                    AfterObserve(b.next, b.disk[op.key].lastSeq), a.memory, a.disk)
        && cache.CapOutcome(b.memory[op.key := entry], a.dirty, a.memory)
        && Survives(b.memory[op.key := entry], a.memory, b.disk, a.disk);
      assert CappedTo(cache, b.memory[op.key := entry], b.disk, a);
      HydratedIs(op.key, entry, b.disk[op.key], freshness, op.generation, op.now, op.promote, cache.firstPartyKey,
                 AfterObserve(b.next, b.disk[op.key].lastSeq), a.memory, a.disk);
      assert ReadThere(cache, op, b, a);
    } else {
      assert a.memory == b.memory;
      assert ReadNowhere(cache, op, b, a);
    }
  }

  lemma HydratedIs(key: string, cached: CachedImport, stored: Stored, freshness: Freshness, generation: nat, now: nat,
                   promote: bool, firstPartyKey: string -> bool, drawn: nat,
                   after: map<string, CachedImport>, disk: map<string, Stored>)
    requires Hydrated(key, cached, stored, freshness, generation, now, promote, firstPartyKey, drawn, after, disk)
    ensures Some(cached.envelope) == stored.envelope
  {
  }

  method PerformInsert(cache: ImportCache, op: Operation)
    requires cache.Valid() && op.Insert? && cache.disk.decodes(op.envelope)
    modifies cache, cache.disk, cache.clock
    ensures cache.Valid() && Inserted(cache, op, old(cache.Now()), cache.Now())
    ensures old(cache.InOrder()) ==> cache.InOrder()
    ensures old(cache.UsedBefore()) && old(cache.Reach()) < U64_MAX ==>
              cache.UsedBefore() && cache.Reach() <= old(cache.Reach()) + 1
  {
    hide DiskCache.Valid, Coherent, ImportCache.CapOutcome, Rehydratable, ImportCache.InOrder, ImportCache.UsedBefore,
         ImportCache.Reach, Holds;
    ghost var b := cache.Now();
    var enqueued := cache.InsertWithFingerprintsAtGeneration(op.key, op.envelope, op.verifiedGeneration, op.now);
    if cache.disk.durable(op.envelope) {
      ghost var cached := CachedImport(op.envelope, Stamp(op.verifiedGeneration, op.now), b.next, b.next,
                                       cache.firstPartyKey(op.key), b.identity);
      assert InsertedAs(cache, op.key, cached, enqueued, b, cache.Now());
    } else {
      assert cache.Now() == b;
    }
  }

  method Perform(cache: ImportCache, op: Operation)
    requires cache.Valid() && (op.Insert? ==> cache.disk.decodes(op.envelope))
    modifies cache, cache.disk, cache.clock
    ensures cache.Valid() && Effect(cache, op, old(cache.Now()), cache.Now())
    ensures old(cache.InOrder()) ==> (cache.InOrder() <==> !LatePromotion(op, old(cache.Now()), cache.Now()))
    ensures old(cache.UsedBefore()) && old(cache.Reach()) < U64_MAX ==>
              cache.UsedBefore() && cache.Reach() <= old(cache.Reach()) + 1
  {
    hide DiskCache.Valid, Coherent, ImportCache.CapOutcome, Rehydratable, ImportCache.InOrder, ImportCache.UsedBefore,
         ImportCache.Reach, Floor;
    ghost var b := cache.Now();
    match op {
      case Insert(key, envelope, generation, now) => PerformInsert(cache, op);
      case LookUp(_, _, _, _, _, _, _) => PerformLookUp(cache, op);
      case InvalidateMatching(matches) =>
        ghost var gone := Matching(cache.disk.tables.rows.Keys + cache.disk.pendingInserts.Keys, matches);
        cache.InvalidatePackages(matches);
        assert Invalidated(matches, gone, b, cache.Now());
      case EvictVictims(n, floor) =>
        var victims := cache.LowestSeqDiskKeys(n, floor);
        var _ := cache.EvictKeys(victims);
        assert Evicted(KeySet(victims), b, cache.Now());
      case Evict(keys) => var _ := cache.EvictKeys(keys);
      case Cap =>
        var lost := cache.EnforceMemoryCap();
        assert CappedTo(cache, b.memory, b.disk, cache.Now());
      case Flush => var _ := cache.FlushToDisk();
      case ClearAll => var _ := cache.Clear();
    }
  }

  /** None of the first `n` operations promoted an entry late. */
  ghost predicate NeverLate(operations: seq<Operation>, n: nat, trace: seq<Moment>)
    requires n <= |operations| && n < |trace|
  {
    forall i :: 0 <= i < n ==> !LatePromotion(operations[i], trace[i], trace[i + 1])
  }

  ghost predicate AllOrdered(trace: seq<Moment>) { forall m :: m in trace ==> OrderedAt(m) }

  ghost predicate AllEffects(cache: ImportCache, operations: seq<Operation>, n: nat, trace: seq<Moment>)
    requires n <= |operations| && n < |trace|
  {
    forall i :: 0 <= i < n ==> Effect(cache, operations[i], trace[i], trace[i + 1])
  }

  /** One more step of a run. */
  lemma TraceStep(cache: ImportCache, operations: seq<Operation>, n: nat, trace: seq<Moment>, m: Moment)
    requires n < |operations| && |trace| == n + 1
    requires AllEffects(cache, operations, n, trace) && Effect(cache, operations[n], trace[n], m)
    requires OrderedAt(trace[0]) ==> (AllOrdered(trace) <==> NeverLate(operations, n, trace))
    requires OrderedAt(trace[n]) ==> (OrderedAt(m) <==> !LatePromotion(operations[n], trace[n], m))
    ensures AllEffects(cache, operations, n + 1, trace + [m])
    ensures OrderedAt(trace[0]) ==> (AllOrdered(trace + [m]) <==> NeverLate(operations, n + 1, trace + [m]))
    ensures NeverLate(operations, n, trace) && !LatePromotion(operations[n], trace[n], m) ==>
              NeverLate(operations, n + 1, trace + [m])
  {
    hide Effect, OrderedAt, LatePromotion;
    var next := trace + [m];
    assert forall i :: 0 <= i <= n ==> next[i] == trace[i];
    assert AllOrdered(next) <==> AllOrdered(trace) && OrderedAt(m) by {
      assert m in next && forall x :: x in next <==> x in trace || x == m;
    }
    assert next[n] == trace[n] && next[n + 1] == m;
    forall i | 0 <= i < n
      ensures LatePromotion(operations[i], next[i], next[i + 1]) <==> LatePromotion(operations[i], trace[i], trace[i + 1])
    {
    }
    assert NeverLate(operations, n + 1, next) ==> !LatePromotion(operations[n], next[n], next[n + 1]);
    assert trace[n] in trace;
  }

  /** With every entry used before now, nothing is late. */
  lemma NotLate(op: Operation, before: Moment, after: Moment)
    requires OrderedAt(before) && forall k :: k in before.memory ==> before.memory[k].lastSeq < before.next
    ensures !LatePromotion(op, before, after)
  {
  }

  /** After any operations in any order, failed enqueues and failed transactions included: every entry not marked
      dirty is readable from disk as the same measurement, and the disk's index and totals are exact. `trace` is the
      cache before, between and after the operations, each step the whole effect of its operation. From a cache in
      order, recency is in order at every moment exactly when no read promoted an entry with the counter below the
      entry's own row; and none did if besides every entry was used before now and the counter had room for a draw per
      operation above everything stored. */
  method RunOperations(cache: ImportCache, operations: seq<Operation>) returns (ghost trace: seq<Moment>)
    requires cache.Valid()
    requires forall i :: 0 <= i < |operations| && operations[i].Insert? ==> cache.disk.decodes(operations[i].envelope)
    modifies cache, cache.disk, cache.clock
    ensures cache.Valid()
    ensures Mirrors(cache.memory, cache.dirty, cache.disk.Contents)
    ensures Disk.Consistent(cache.disk.tables)
    ensures |trace| == |operations| + 1 && trace[0] == old(cache.Now()) && trace[|operations|] == cache.Now()
    ensures AllEffects(cache, operations, |operations|, trace)
    ensures old(cache.InOrder()) ==> (AllOrdered(trace) <==> NeverLate(operations, |operations|, trace))
    ensures old(cache.InOrder()) && old(cache.UsedBefore()) && old(cache.Reach()) + |operations| <= U64_MAX ==>
              NeverLate(operations, |operations|, trace)
  {
    hide Effect, LatePromotion, Ordered, ImportCache.Reach;
    trace := [cache.Now()];
    for n := 0 to |operations|
      invariant cache.Valid()
      invariant |trace| == n + 1 && trace[0] == old(cache.Now()) && trace[n] == cache.Now()
      invariant AllEffects(cache, operations, n, trace)
      invariant OrderedAt(trace[0]) ==> (AllOrdered(trace) <==> NeverLate(operations, n, trace))
      invariant old(cache.InOrder()) && old(cache.UsedBefore()) && old(cache.Reach()) + |operations| <= U64_MAX ==>
                  cache.InOrder() && cache.UsedBefore() && cache.Reach() <= old(cache.Reach()) + n
                  && NeverLate(operations, n, trace)
    {
      hide ImportCache.Valid, AllOrdered, NeverLate, AllEffects;
      ghost var before := cache.Now();
      Perform(cache, operations[n]);
      if OrderedAt(before) && (forall k :: k in before.memory ==> before.memory[k].lastSeq < before.next) {
        NotLate(operations[n], before, cache.Now());
      }
      TraceStep(cache, operations, n, trace, cache.Now());
      trace := trace + [cache.Now()];
    }
  }

  /** The same from what a caller can check beforehand: recency is in order, every entry was used before now, every stored
      sequence is below `bound`, the counter has not passed it, and the operations leave it room. */
  method RunWithRoom(cache: ImportCache, operations: seq<Operation>, ghost bound: nat) returns (ghost trace: seq<Moment>)
    requires cache.Valid() && cache.InOrder() && cache.UsedBefore()
    requires cache.disk.Below(bound) && cache.clock.next <= bound && bound + |operations| <= U64_MAX
    requires forall i :: 0 <= i < |operations| && operations[i].Insert? ==> cache.disk.decodes(operations[i].envelope)
    modifies cache, cache.disk, cache.clock
    ensures cache.Valid() && cache.InOrder() && AllOrdered(trace)
    ensures |trace| == |operations| + 1 && trace[0] == old(cache.Now()) && trace[|operations|] == cache.Now()
  {
    hide Coherent, Ordered, NeverLate, AllEffects;
    cache.disk.Tighten(bound);
    trace := RunOperations(cache, operations);
    assert trace[|operations|] in trace;
  }

  lemma FreshIsServed(cache: ImportCache, key: string, contents: map<string, Stored>, requireFresh: bool, world: string -> FileProbe)
    requires key in contents && contents[key].envelope.Some? && cache.disk.Servable(contents[key].envelope.value)
    requires AllFresh(cache.disk.fingerprintsOf(contents[key].envelope.value), world)
    ensures !cache.Unserved(key, contents, requireFresh, world)
  {
  }

  /** One row at the top of the counter, its eight prefix bytes all ones, is enough to lose the order: hydrating it with a
      promotion draws the top, and the next use of the entry draws 0. The measurement still agrees. */
  method TopRowLosesTheOrder(cache: ImportCache, key: string, world: string -> FileProbe, generation: nat, now: nat)
    requires cache.Valid() && cache.InOrder() && cache.memory == map[] && key in cache.disk.Contents
    requires var row := cache.disk.Contents[key];
             && row.lastSeq == U64_MAX && row.envelope.Some? && cache.disk.Servable(row.envelope.value)
             && AllFresh(cache.disk.fingerprintsOf(row.envelope.value), world)
             && WeightOf(cache.graphRowsOf(row.envelope.value)) <= MAX_MEMORY_WEIGHT_BYTES
    modifies cache, cache.disk, cache.clock
    ensures cache.Valid() && !cache.InOrder()
    ensures key in cache.memory && cache.memory[key].lastSeq == 0
    ensures Some(cache.memory[key].envelope) == old(cache.disk.Contents)[key].envelope
  {
    HydrateTop(cache, key, world, generation, now);
    UseAgain(cache, key, world, generation, now);
  }

  method HydrateTop(cache: ImportCache, key: string, world: string -> FileProbe, generation: nat, now: nat)
    requires cache.Valid() && cache.InOrder() && cache.memory == map[] && key in cache.disk.Contents
    requires var row := cache.disk.Contents[key];
             && row.lastSeq == U64_MAX && row.envelope.Some? && cache.disk.Servable(row.envelope.value)
             && AllFresh(cache.disk.fingerprintsOf(row.envelope.value), world)
             && WeightOf(cache.graphRowsOf(row.envelope.value)) <= MAX_MEMORY_WEIGHT_BYTES
    modifies cache, cache.disk, cache.clock
    ensures cache.Valid() && cache.InOrder() && cache.clock.next == 0
    ensures key in cache.memory && cache.memory[key].persistedSeq == U64_MAX
    ensures Some(cache.memory[key].envelope) == old(cache.disk.Contents)[key].envelope
  {
    hide DiskCache.Valid, Coherent, ImportCache.Unserved, ImportCache.UsedBefore, ImportCache.Reach, ImportCache.InOrder,
         HydrationVerdict, DiskCache.Servable, AllFresh, HitOutcome, ImportCache.CapOutcome;
    FreshIsServed(cache, key, cache.disk.Contents, false, world);
    ghost var row := cache.disk.Contents[key];
    var served, freshness := cache.Lookup(key, true, false, false, world, generation, now);
    ghost var entry :| Hydrated(key, entry, row, freshness, generation, now, true, cache.firstPartyKey, U64_MAX, cache.memory,
                                cache.disk.Contents)
                       && cache.CapOutcome(map[][key := entry], cache.dirty, cache.memory);
    HydratedIs(key, entry, row, freshness, generation, now, true, cache.firstPartyKey, U64_MAX, cache.memory, cache.disk.Contents);
    OneEntryFits(cache, key, entry, cache.dirty, cache.memory);
  }

  lemma OneEntryFits(cache: ImportCache, key: string, entry: CachedImport, dirty: set<string>, after: map<string, CachedImport>)
    requires cache.CapOutcome(map[][key := entry], dirty, after)
    requires WeightOf(cache.graphRowsOf(entry.envelope)) <= MAX_MEMORY_WEIGHT_BYTES
    ensures after == map[key := entry]
  {
    CountUpdate<string, CachedImport>(map[], key, entry);
    MapSumUpdate<string, CachedImport>(map[], cache.EntryWeight, key, entry);
  }

  method UseAgain(cache: ImportCache, key: string, world: string -> FileProbe, generation: nat, now: nat)
    requires cache.Valid() && cache.InOrder() && cache.clock.next == 0
    requires key in cache.memory && cache.memory[key].persistedSeq == U64_MAX
    requires AllFresh(cache.disk.fingerprintsOf(cache.memory[key].envelope), world)
    modifies cache, cache.disk, cache.clock
    ensures cache.Valid() && !cache.InOrder()
    ensures key in cache.memory && cache.memory[key].lastSeq == 0
    ensures cache.memory[key].envelope == old(cache.memory)[key].envelope
  {
    hide DiskCache.Valid, Coherent, ImportCache.Unserved, ImportCache.UsedBefore, ImportCache.Reach, HydrationVerdict, Hydrated,
         ImportCache.CapOutcome;
    var served, freshness := cache.Lookup(key, true, false, false, world, generation, now);
  }
}
