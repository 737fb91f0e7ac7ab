/** The clear protocol as atomic steps of any number of writers, readers, flushers and clears.
    Models daemon/src/cache/disk.rs (the generation tag, `clear_lock`, flush and clear) and
    daemon/src/cache/memory.rs (the guarded memory insert and its rollback). */
module ClearProtocol {

  type Key = string
  type ThreadId = nat

  /** What a thread stores: the clear generation it captured, which also tags the queued bytes, and the
      generation that was current when whoever first computed them began. */
  datatype Item = Item(cap: nat, origin: nat)

  /** `id` stands for the unique allocation an entry is recognised by. */
  datatype Entry = Entry(id: ThreadId, item: Item)

  datatype Pc =
    | Analyzing              // computing, before it captures; `captured` is the generation it began under
    | Captured
    | Ready(item: Item)      // has bytes; may enqueue them
    | Checked(item: Item)    // the generation still matched
    | Inserted(item: Item)   // in memory, not yet rechecked
    | Doomed(item: Item)     // the recheck failed; about to roll back

  /** `quiet`: no clear was between its bump and its table wipe at the capture. */
  datatype Thread = Thread(key: Key, captured: nat, quiet: bool, pc: Pc)

  datatype Lock =
    | Free
    | Flushing(kept: map<Key, Item>)
    | Bumped
    | Wiped

  /** The memory half of one clear: `todo` holds the keys its sweep has yet to visit. */
  datatype Sweep = Waiting(gen: nat) | Sweeping(gen: nat, todo: set<Key>)

  datatype State = State(
    gen: nat,
    lock: Lock,
    table: map<Key, Item>,
    queue: map<Key, Item>,
    memory: map<Key, Entry>,
    threads: map<ThreadId, Thread>,
    nextThread: ThreadId,
    sweeps: map<nat, Sweep>,
    /** The newest generation whose table wipe committed, and whose memory sweep ended. */
    tableWiped: nat,
    memorySwept: nat)

  const INIT := State(0, Free, map[], map[], map[], map[], 0, map[], 0, 0)

  datatype Action =
    | BeginAnalysis(key: Key)
    | CaptureResult(t: ThreadId)
    | Capture(key: Key)
    | ReadTable(t: ThreadId)
    | ReadQueue(t: ThreadId)
    | Snapshot(t: ThreadId)
    | Enqueue(t: ThreadId)
    | Check(t: ThreadId)
    | Insert(t: ThreadId)
    | Recheck(t: ThreadId)
    | Rollback(t: ThreadId)
    | Quit(t: ThreadId)
    | BeginFlush
    | EndFlush(commits: bool)
    | BeginClear
    | WipeTables(commits: bool)
    | EndDiskClear
    | StartSweep(gen: nat)
    | SweepKey(gen: nat, key: Key)
    | EndSweep(gen: nat)
    | EvictRows(keys: set<Key>)
    | EvictQueued(keys: set<Key>)
    | EvictMemory(keys: set<Key>)

  predicate Enabled(s: State, a: Action) {
    match a
    case BeginAnalysis(_) => true
    case CaptureResult(t) => t in s.threads && s.threads[t].pc.Analyzing?
    case Capture(_) => true
    case ReadTable(t) => t in s.threads && s.threads[t].pc.Captured? && s.threads[t].key in s.table
    case ReadQueue(t) =>
      t in s.threads && s.threads[t].pc.Captured? && s.threads[t].key in s.queue && s.queue[s.threads[t].key].cap == s.gen
    case Snapshot(t) => t in s.threads && s.threads[t].pc.Captured? && s.threads[t].key in s.memory
    case Enqueue(t) => t in s.threads && s.threads[t].pc.Ready?
    case Check(t) => t in s.threads && s.threads[t].pc.Ready?
    case Insert(t) => t in s.threads && s.threads[t].pc.Checked?
    case Recheck(t) => t in s.threads && s.threads[t].pc.Inserted?
    case Rollback(t) => t in s.threads && s.threads[t].pc.Doomed?
    case Quit(t) => t in s.threads && (s.threads[t].pc.Analyzing? || s.threads[t].pc.Captured? || s.threads[t].pc.Ready?)
    case BeginFlush => s.lock == Free
    case EndFlush(_) => s.lock.Flushing?
    case BeginClear => s.lock == Free
    case WipeTables(_) => s.lock == Bumped
    case EndDiskClear => s.lock == Wiped
    case StartSweep(g) => g in s.sweeps && s.sweeps[g].Waiting?
    case SweepKey(g, k) => g in s.sweeps && s.sweeps[g].Sweeping? && k in s.sweeps[g].todo
    case EndSweep(g) => g in s.sweeps && s.sweeps[g].Sweeping? && s.sweeps[g].todo == {}
    case EvictRows(_) => true
    case EvictQueued(_) => true
    case EvictMemory(_) => true
  }

  function Step(s: State, t: ThreadId, pc: Pc): State
    requires t in s.threads
  {
    s.(threads := s.threads[t := s.threads[t].(pc := pc)])
  }

  function Spawn(s: State, key: Key, pc: Pc): State {
    s.(threads := s.threads[s.nextThread := Thread(key, s.gen, s.tableWiped == s.gen, pc)], nextThread := s.nextThread + 1)
  }

  function Finish(s: State, t: ThreadId): State { s.(threads := s.threads - {t}) }

  /** The queued items a flush keeps. */
  function CurrentOnly(queue: map<Key, Item>, gen: nat): map<Key, Item> {
    map k | k in queue && queue[k].cap == gen :: queue[k]
  }

  function Apply(s: State, a: Action): State
    requires Enabled(s, a)
  {
    match a
    case BeginAnalysis(k) => Spawn(s, k, Analyzing)
    case CaptureResult(t) =>
      s.(threads := s.threads[t := Thread(s.threads[t].key, s.gen, s.tableWiped == s.gen, Ready(Item(s.gen, s.threads[t].captured)))])
    case Capture(k) => Spawn(s, k, Captured)
    case ReadTable(t) => Step(s, t, Ready(Item(s.threads[t].captured, s.table[s.threads[t].key].origin)))
    case ReadQueue(t) => Step(s, t, Ready(Item(s.threads[t].captured, s.queue[s.threads[t].key].origin)))
    case Snapshot(t) => Step(s, t, Ready(Item(s.threads[t].captured, s.memory[s.threads[t].key].item.origin)))
    case Enqueue(t) => s.(queue := s.queue[s.threads[t].key := s.threads[t].pc.item])
    case Check(t) => if s.gen == s.threads[t].captured then Step(s, t, Checked(s.threads[t].pc.item)) else Finish(s, t)
    case Insert(t) =>
      Step(s, t, Inserted(s.threads[t].pc.item)).(memory := s.memory[s.threads[t].key := Entry(t, s.threads[t].pc.item)])
    case Recheck(t) => if s.gen == s.threads[t].captured then Finish(s, t) else Step(s, t, Doomed(s.threads[t].pc.item))
    case Rollback(t) =>
      var k := s.threads[t].key;
      Finish(s, t).(memory := if k in s.memory && s.memory[k].id == t then s.memory - {k} else s.memory)
    case Quit(t) => Finish(s, t)
    case BeginFlush => s.(lock := Flushing(CurrentOnly(s.queue, s.gen)), queue := map[])
    case EndFlush(commits) =>
      if commits then s.(table := s.table + s.lock.kept, lock := Free)
      else s.(queue := s.lock.kept + s.queue, lock := Free)
    case BeginClear => s.(gen := s.gen + 1, lock := Bumped)
    case WipeTables(commits) =>
      if commits then s.(table := map[], tableWiped := s.gen, lock := Wiped) else s.(lock := Wiped)
    case EndDiskClear => s.(queue := map[], lock := Free, sweeps := s.sweeps[s.gen := Waiting(s.gen)])
    case StartSweep(g) => s.(sweeps := s.sweeps[g := Sweeping(s.sweeps[g].gen, s.memory.Keys)])
    case SweepKey(g, k) =>
      s.(memory := s.memory - {k}, sweeps := s.sweeps[g := Sweeping(s.sweeps[g].gen, s.sweeps[g].todo - {k})])
    case EndSweep(g) =>
      s.(sweeps := s.sweeps - {g}, memorySwept := if s.memorySwept < s.sweeps[g].gen then s.sweeps[g].gen else s.memorySwept)
    case EvictRows(keys) => s.(table := s.table - keys)
    case EvictQueued(keys) => s.(queue := s.queue - keys)
    case EvictMemory(keys) => s.(memory := s.memory - keys)
  }

  // ---- The invariant ----

  /** Has inserted, and has yet to recheck the generation or to roll back. */
  predicate Pending(pc: Pc) { pc.Inserted? || pc.Doomed? }

  /** The entry at `k` belongs to a thread that has yet to recheck the generation, or to roll back. */
  predicate Unfinished(s: State, k: Key)
    requires k in s.memory
  {
    var t := s.memory[k].id;
    t in s.threads && s.threads[t].key == k && Pending(s.threads[t].pc)
  }

  predicate ThreadOk(s: State, t: ThreadId)
    requires t in s.threads
  {
    var th := s.threads[t];
    && t < s.nextThread && th.captured <= s.gen
    && (!th.pc.Analyzing? && !th.pc.Captured? ==> th.pc.item.cap == th.captured)
    && (th.quiet ==> th.captured <= s.tableWiped)
    && (th.pc.Doomed? ==> th.captured < s.gen)
  }

  ghost predicate ThreadsOk(s: State) {
    forall t :: t in s.threads ==> ThreadOk(s, t)
  }

  /** Committed rows are no older than the last committed wipe. */
  ghost predicate TableOk(s: State) {
    s.tableWiped <= s.gen && forall k :: k in s.table ==> s.tableWiped <= s.table[k].cap <= s.gen
  }

  ghost predicate QueueOk(s: State) {
    forall k :: k in s.queue ==> s.queue[k].cap <= s.gen
  }

  ghost predicate LockOk(s: State) {
    && (s.lock.Flushing? ==> forall k :: k in s.lock.kept ==> s.lock.kept[k].cap == s.gen)
    && ((s.lock.Bumped? || s.lock.Wiped?) ==> s.gen !in s.sweeps)
  }

  ghost predicate SweepsOk(s: State) {
    && s.memorySwept <= s.gen
    && (forall g :: g in s.sweeps ==> g == s.sweeps[g].gen <= s.gen)
    && (forall g, k :: g in s.sweeps && s.sweeps[g].Sweeping? && k in s.memory && s.memory[k].item.cap < g ==>
          k in s.sweeps[g].todo || Unfinished(s, k))
  }

  ghost predicate MemoryOk(s: State) {
    forall k :: k in s.memory ==>
      && s.memory[k].item.cap <= s.gen && s.memory[k].id < s.nextThread
      && (s.memory[k].id in s.threads ==>
            Pending(s.threads[s.memory[k].id].pc) && s.memory[k].item.cap == s.threads[s.memory[k].id].captured)
      && (s.memory[k].item.cap < s.memorySwept ==> Unfinished(s, k))
  }

  ghost predicate Inv(s: State) {
    ThreadsOk(s) && TableOk(s) && QueueOk(s) && LockOk(s) && SweepsOk(s) && MemoryOk(s)
  }

  lemma InvInit()
    ensures Inv(INIT)
  {
  }

  predicate IsRead(a: Action) {
    a.BeginAnalysis? || a.CaptureResult? || a.Capture? || a.ReadTable? || a.ReadQueue? || a.Snapshot? || a.Enqueue? || a.Check? || a.Quit?
  }

  predicate IsMemoryStep(a: Action) { a.Insert? || a.Recheck? || a.Rollback? }

  lemma UnfinishedKept(s: State, s': State)
    requires s'.memory == s.memory
    requires forall t :: t in s.threads && Pending(s.threads[t].pc) && t != s.nextThread ==>
               t in s'.threads && s'.threads[t] == s.threads[t]
    requires forall k :: k in s.memory ==> s.memory[k].id != s.nextThread
    ensures forall k :: k in s.memory && Unfinished(s, k) ==> Unfinished(s', k)
  {
  }

  ghost predicate StorageOk(s: State) { ThreadsOk(s) && TableOk(s) && QueueOk(s) && LockOk(s) }

  /** A capture, read, enqueue or check touches only its own thread and its key's queue entry. */
  lemma ReadShape(s: State, a: Action)
    requires Inv(s) && Enabled(s, a) && IsRead(a)
    ensures var s' := Apply(s, a);
            && s' == s.(threads := s'.threads, nextThread := s'.nextThread, queue := s'.queue)
            && s'.nextThread >= s.nextThread
            && (forall t :: t in s'.threads ==> t in s.threads || t == s.nextThread)
  {
    hide Inv;
  }

  lemma ReadKeepsThreads(s: State, a: Action)
    requires Inv(s) && Enabled(s, a) && IsRead(a)
    ensures ThreadsOk(Apply(s, a))
  {
    hide MemoryOk, SweepsOk, QueueOk, LockOk;
  }

  lemma ReadKeepsQueue(s: State, a: Action)
    requires Inv(s) && Enabled(s, a) && IsRead(a)
    ensures QueueOk(Apply(s, a))
  {
    assert a.Enqueue? ==> ThreadOk(s, a.t);
    hide MemoryOk, SweepsOk, TableOk, LockOk, ThreadsOk;
  }

  lemma ReadKeepsStorage(s: State, a: Action)
    requires Inv(s) && Enabled(s, a) && IsRead(a)
    ensures StorageOk(Apply(s, a))
  {
    ReadShape(s, a);
    ReadKeepsThreads(s, a);
    ReadKeepsQueue(s, a);
    hide MemoryOk, SweepsOk, ThreadsOk, QueueOk, Apply;
  }

  lemma ReadKeepsMemory(s: State, a: Action)
    requires Inv(s) && Enabled(s, a) && IsRead(a)
    ensures MemoryOk(Apply(s, a)) && SweepsOk(Apply(s, a))
  {
    ReadShape(s, a);
    ReadKeepsPending(s, a);
    UnfinishedKept(s, Apply(s, a));
    hide Unfinished, TableOk, QueueOk, LockOk, ThreadsOk, Apply;
  }

  lemma ReadKeepsPending(s: State, a: Action)
    requires Enabled(s, a) && IsRead(a)
    ensures var s' := Apply(s, a);
            forall t :: t in s.threads && Pending(s.threads[t].pc) && t != s.nextThread ==>
              t in s'.threads && s'.threads[t] == s.threads[t]
  {
  }

  lemma MemoryStepKeepsStorage(s: State, a: Action)
    requires Inv(s) && Enabled(s, a) && IsMemoryStep(a)
    ensures StorageOk(Apply(s, a))
  {
    MemoryStepKeepsThreads(s, a);
    hide MemoryOk, SweepsOk, Unfinished, ThreadsOk;
  }

  lemma MemoryStepKeepsThreads(s: State, a: Action)
    requires ThreadsOk(s) && Enabled(s, a) && IsMemoryStep(a)
    ensures ThreadsOk(Apply(s, a))
  {
    forall t | t in Apply(s, a).threads ensures ThreadOk(Apply(s, a), t) { assert ThreadOk(s, t); }
  }

  lemma MemoryStepKeepsMemory(s: State, a: Action)
    requires Inv(s) && Enabled(s, a) && IsMemoryStep(a)
    ensures MemoryOk(Apply(s, a))
  {
    match a
    case Insert(t) => InsertKeepsMemory(s, t);
    case Recheck(t) => RecheckKeepsMemory(s, t);
    case Rollback(t) => RollbackKeepsMemory(s, t);
    case _ =>
  }

  lemma InsertKeepsMemory(s: State, t: ThreadId)
    requires Inv(s) && Enabled(s, Insert(t))
    ensures MemoryOk(Apply(s, Insert(t)))
  {
    assert ThreadOk(s, t);
    hide TableOk, QueueOk, LockOk, ThreadsOk;
  }

  lemma RecheckKeepsMemory(s: State, t: ThreadId)
    requires Inv(s) && Enabled(s, Recheck(t))
    ensures MemoryOk(Apply(s, Recheck(t)))
  {
    assert ThreadOk(s, t);
    hide TableOk, QueueOk, LockOk, ThreadsOk;
  }

  lemma RollbackKeepsMemory(s: State, t: ThreadId)
    requires Inv(s) && Enabled(s, Rollback(t))
    ensures MemoryOk(Apply(s, Rollback(t)))
  {
    assert ThreadOk(s, t);
    hide TableOk, QueueOk, LockOk, ThreadsOk;
  }

  lemma MemoryStepKeepsSweeps(s: State, a: Action)
    requires Inv(s) && Enabled(s, a) && IsMemoryStep(a)
    ensures SweepsOk(Apply(s, a))
  {
    assert ThreadOk(s, a.t);
    hide TableOk, QueueOk, LockOk, ThreadsOk;
  }

  predicate IsFlushStep(a: Action) {
    a.BeginFlush? || a.EndFlush? || a.EvictRows? || a.EvictQueued? || a.EvictMemory?
  }

  predicate IsClearStep(a: Action) { a.BeginClear? || a.WipeTables? || a.EndDiskClear? }

  lemma FlushStepKeepsStorage(s: State, a: Action)
    requires Inv(s) && Enabled(s, a) && IsFlushStep(a)
    ensures StorageOk(Apply(s, a))
  {
    var s' := Apply(s, a);
    assert s' == s.(table := s'.table, queue := s'.queue, lock := s'.lock, memory := s'.memory);
    FlushKeepsQueue(s, a);
    FlushKeepsLock(s, a);
    FlushKeepsTable(s, a);
    FlushKeepsThreads(s, s');
    hide MemoryOk, SweepsOk, Unfinished, Apply, ThreadsOk, QueueOk, TableOk, LockOk;
  }

  lemma FlushKeepsQueue(s: State, a: Action)
    requires QueueOk(s) && LockOk(s) && Enabled(s, a) && IsFlushStep(a)
    ensures QueueOk(Apply(s, a))
  {
  }

  lemma FlushKeepsLock(s: State, a: Action)
    requires LockOk(s) && Enabled(s, a) && IsFlushStep(a)
    ensures LockOk(Apply(s, a))
  {
  }

  lemma FlushKeepsTable(s: State, a: Action)
    requires TableOk(s) && LockOk(s) && Enabled(s, a) && IsFlushStep(a)
    ensures TableOk(Apply(s, a))
  {
  }

  lemma FlushKeepsThreads(s: State, s': State)
    requires ThreadsOk(s) && s' == s.(table := s'.table, queue := s'.queue, lock := s'.lock, memory := s'.memory)
    ensures ThreadsOk(s')
  {
    forall t | t in s'.threads ensures ThreadOk(s', t) { assert ThreadOk(s, t); }
  }

  lemma ClearStepKeepsStorage(s: State, a: Action)
    requires Inv(s) && Enabled(s, a) && IsClearStep(a)
    ensures StorageOk(Apply(s, a))
  {
    ClearStepKeepsThreads(s, a);
    hide MemoryOk, Unfinished, ThreadsOk;
  }

  lemma ClearStepKeepsThreads(s: State, a: Action)
    requires ThreadsOk(s) && TableOk(s) && Enabled(s, a) && IsClearStep(a)
    ensures ThreadsOk(Apply(s, a))
  {
    forall t | t in Apply(s, a).threads ensures ThreadOk(Apply(s, a), t) { assert ThreadOk(s, t); }
  }

  lemma DiskStepKeepsMemory(s: State, a: Action)
    requires Inv(s) && Enabled(s, a) && (IsFlushStep(a) || IsClearStep(a))
    ensures MemoryOk(Apply(s, a)) && SweepsOk(Apply(s, a))
  {
    DiskStepKeepsThreads(s, a);
    hide Unfinished, ThreadsOk, TableOk, QueueOk, Apply;
  }

  lemma DiskStepKeepsThreads(s: State, a: Action)
    requires Enabled(s, a) && (IsFlushStep(a) || IsClearStep(a))
    ensures var s' := Apply(s, a);
            && s'.threads == s.threads && s'.nextThread == s.nextThread && s'.gen >= s.gen && s'.memorySwept == s.memorySwept
            && (forall k :: k in s'.memory ==> k in s.memory && s'.memory[k] == s.memory[k])
            && (forall k :: k in s'.memory && Unfinished(s, k) ==> Unfinished(s', k))
            && s'.sweeps == (if a.EndDiskClear? then s.sweeps[s.gen := Waiting(s.gen)] else s.sweeps)
  {
  }

  lemma SweepStepKeepsInv(s: State, a: Action)
    requires Inv(s) && Enabled(s, a) && (a.StartSweep? || a.SweepKey? || a.EndSweep?)
    ensures Inv(Apply(s, a))
  {
    var s' := Apply(s, a);
    assert ThreadsOk(s') && TableOk(s') && QueueOk(s') && LockOk(s');
    forall k | k in s'.memory && Unfinished(s, k) ensures Unfinished(s', k) { }
    hide Unfinished;
    assert MemoryOk(s') && SweepsOk(s');
  }

  lemma InvStep(s: State, a: Action)
    requires Inv(s) && Enabled(s, a)
    ensures Inv(Apply(s, a))
  {
    hide Enabled, Apply, ThreadsOk, TableOk, QueueOk, LockOk, MemoryOk, SweepsOk;
    if IsRead(a) { ReadKeepsStorage(s, a); ReadKeepsMemory(s, a); }
    else if IsMemoryStep(a) { MemoryStepKeepsStorage(s, a); MemoryStepKeepsMemory(s, a); MemoryStepKeepsSweeps(s, a); }
    else if IsFlushStep(a) { FlushStepKeepsStorage(s, a); DiskStepKeepsMemory(s, a); }
    else if IsClearStep(a) { ClearStepKeepsStorage(s, a); DiskStepKeepsMemory(s, a); }
    else { SweepStepKeepsInv(s, a); }
  }

  // ---- Runs ----

  predicate IsRun(s: State, actions: seq<Action>)
    decreases |actions|
  {
    actions == [] || (Enabled(s, actions[0]) && IsRun(Apply(s, actions[0]), actions[1..]))
  }

  function Run(s: State, actions: seq<Action>): State
    requires IsRun(s, actions)
    decreases |actions|
  {
    if actions == [] then s else Run(Apply(s, actions[0]), actions[1..])
  }

  lemma {:induction false} RunKeepsInv(s: State, actions: seq<Action>)
    requires Inv(s) && IsRun(s, actions)
    ensures Inv(Run(s, actions))
    decreases |actions|
  {
    if actions != [] {
      InvStep(s, actions[0]);
      RunKeepsInv(Apply(s, actions[0]), actions[1..]);
    }
  }

  /** What a read of `key` on disk can return. */
  predicate Readable(s: State, key: Key, item: Item) {
    (key in s.queue && s.queue[key] == item && item.cap == s.gen) || (key in s.table && s.table[key] == item)
  }

  /** Whatever the interleaving: once a clear to generation `g` has wiped the tables, no read finds
      bytes stored by a thread that captured an older generation; once its memory sweep has ended too,
      an entry of such a thread is in memory only while that thread is still about to recheck. */
  lemma ClearIsSafe(actions: seq<Action>, g: nat)
    requires IsRun(INIT, actions)
    ensures var s := Run(INIT, actions);
            && (g <= s.tableWiped ==> forall k, item :: Readable(s, k, item) ==> item.cap >= g)
            && (g <= s.memorySwept ==> forall k :: k in s.memory && s.memory[k].item.cap < g ==> Unfinished(s, k))
  {
    InvInit();
    RunKeepsInv(INIT, actions);
  }

  /** The pending recheck of such an entry fails, and its rollback takes that entry and no other. */
  lemma StaleInsertRollsBack(actions: seq<Action>, key: Key)
    requires IsRun(INIT, actions)
    requires var s := Run(INIT, actions);
             key in s.memory && s.memory[key].item.cap < s.gen && Unfinished(s, key)
    ensures var s := Run(INIT, actions);
            var t := s.memory[key].id;
            var rest := if s.threads[t].pc.Inserted? then [Recheck(t), Rollback(t)] else [Rollback(t)];
            && IsRun(s, rest)
            && Run(s, rest).memory == s.memory - {key}
            && t !in Run(s, rest).threads
  {
    InvInit();
    RunKeepsInv(INIT, actions);
    var s := Run(INIT, actions);
    var t := s.memory[key].id;
    assert ThreadOk(s, t);
    var s1 := if s.threads[t].pc.Inserted? then Apply(s, Recheck(t)) else s;
    assert s1.memory == s.memory;
    RunOne(s1, Rollback(t));
    if s.threads[t].pc.Inserted? { assert [Recheck(t), Rollback(t)][1..] == [Rollback(t)]; }
  }

  lemma RunOne(s: State, a: Action)
    requires Enabled(s, a)
    ensures IsRun(s, [a]) && Run(s, [a]) == Apply(s, a)
  {
    assert [a][1..] == [];
    assert IsRun(Apply(s, a), []);
  }

  // ---- What is stored stays ----

  /** The bytes queued for `k` under the current generation: still in the queue, in the hands of a flush, or committed. */
  predicate Kept(s: State, k: Key, item: Item) {
    item.cap == s.gen &&
    if k in s.queue then s.queue[k] == item
    else if s.lock.Flushing? && k in s.lock.kept then s.lock.kept[k] == item
    else k in s.table && s.table[k] == item
  }

  /** No step of a clear, no eviction of `k`, and nobody else queueing bytes for it. */
  predicate SparesRow(s: State, a: Action, k: Key)
    requires Enabled(s, a)
  {
    match a
    case Enqueue(t) => s.threads[t].key != k
    case EvictRows(keys) => k !in keys
    case EvictQueued(keys) => k !in keys
    case _ => !IsClearStep(a)
  }

  lemma KeptStep(s: State, a: Action, k: Key, item: Item)
    requires Enabled(s, a) && Kept(s, k, item) && SparesRow(s, a, k)
    ensures Kept(Apply(s, a), k, item)
  {
    if IsFlushStep(a) {
      FlushKeepsRow(s, a, k, item);
    } else {
      assert Apply(s, a).table == s.table && Apply(s, a).lock == s.lock && Apply(s, a).gen == s.gen;
      assert a.Enqueue? || Apply(s, a).queue == s.queue;
    }
  }

  lemma FlushKeepsRow(s: State, a: Action, k: Key, item: Item)
    requires Enabled(s, a) && Kept(s, k, item) && SparesRow(s, a, k) && IsFlushStep(a)
    ensures Kept(Apply(s, a), k, item)
  {
  }

  predicate SparesRowThroughout(s: State, actions: seq<Action>, k: Key)
    requires IsRun(s, actions)
    decreases |actions|
  {
    actions == [] || (SparesRow(s, actions[0], k) && SparesRowThroughout(Apply(s, actions[0]), actions[1..], k))
  }

  lemma {:induction false} KeptThroughout(s: State, actions: seq<Action>, k: Key, item: Item)
    requires IsRun(s, actions) && Kept(s, k, item) && SparesRowThroughout(s, actions, k)
    ensures Kept(Run(s, actions), k, item)
    decreases |actions|
  {
    if actions != [] {
      KeptStep(s, actions[0], k, item);
      hide Apply, Enabled, Kept, SparesRow;
      KeptThroughout(Apply(s, actions[0]), actions[1..], k, item);
    }
  }

  /** What is queued under the current generation is not lost: through any flushes, committed or not, and whatever else
      happens short of a clear, an eviction of the key or another write to it, it stays; and between flushes a reader that
      looks for the key, in the queue first and then in the tables, finds those very bytes. */
  lemma QueuedIsFound(s: State, t: ThreadId, later: seq<Action>, reader: ThreadId)
    requires Enabled(s, Enqueue(t)) && s.threads[t].pc.item.cap == s.gen
    requires IsRun(Apply(s, Enqueue(t)), later) && SparesRowThroughout(Apply(s, Enqueue(t)), later, s.threads[t].key)
    ensures var s', k, item := Run(Apply(s, Enqueue(t)), later), s.threads[t].key, s.threads[t].pc.item;
            && Kept(s', k, item)
            && (!s'.lock.Flushing? && reader in s'.threads && s'.threads[reader].key == k && s'.threads[reader].pc.Captured? ==>
                  var look := if k in s'.queue then ReadQueue(reader) else ReadTable(reader);
                  && Enabled(s', look)
                  && Apply(s', look).threads[reader].pc == Ready(Item(s'.threads[reader].captured, item.origin)))
  {
    KeptThroughout(Apply(s, Enqueue(t)), later, s.threads[t].key, s.threads[t].pc.item);
    hide Run, IsRun, SparesRowThroughout;
  }

  /** The entry that thread `t` put into memory under the current generation. */
  predicate HeldEntry(s: State, k: Key, t: ThreadId, item: Item) {
    && k in s.memory && s.memory[k] == Entry(t, item) && t < s.nextThread
    && (t in s.threads ==> s.threads[t].key == k && s.threads[t].captured == s.gen && s.threads[t].pc.Inserted?)
  }

  /** No bump, no eviction of `k` from memory, and nobody else inserting an entry for it. */
  predicate SparesEntry(s: State, a: Action, k: Key)
    requires Enabled(s, a)
  {
    match a
    case Insert(t) => s.threads[t].key != k
    case SweepKey(_, key) => key != k
    case EvictMemory(keys) => k !in keys
    case _ => !a.BeginClear?
  }

  lemma HeldEntryStep(s: State, a: Action, k: Key, t: ThreadId, item: Item)
    requires Enabled(s, a) && HeldEntry(s, k, t, item) && SparesEntry(s, a, k)
    ensures HeldEntry(Apply(s, a), k, t, item)
  {
    if IsRead(a) { ReadKeepsEntry(s, a, k, t, item); }
    else if IsMemoryStep(a) { MemoryStepKeepsEntry(s, a, k, t, item); }
  }

  lemma ReadKeepsEntry(s: State, a: Action, k: Key, t: ThreadId, item: Item)
    requires Enabled(s, a) && HeldEntry(s, k, t, item) && IsRead(a)
    ensures HeldEntry(Apply(s, a), k, t, item)
  {
  }

  lemma MemoryStepKeepsEntry(s: State, a: Action, k: Key, t: ThreadId, item: Item)
    requires Enabled(s, a) && HeldEntry(s, k, t, item) && SparesEntry(s, a, k) && IsMemoryStep(a)
    ensures HeldEntry(Apply(s, a), k, t, item)
  {
  }

  predicate SparesEntryThroughout(s: State, actions: seq<Action>, k: Key)
    requires IsRun(s, actions)
    decreases |actions|
  {
    actions == [] || (SparesEntry(s, actions[0], k) && SparesEntryThroughout(Apply(s, actions[0]), actions[1..], k))
  }

  lemma {:induction false} HeldEntryThroughout(s: State, actions: seq<Action>, k: Key, t: ThreadId, item: Item)
    requires IsRun(s, actions) && HeldEntry(s, k, t, item) && SparesEntryThroughout(s, actions, k)
    ensures HeldEntry(Run(s, actions), k, t, item)
    decreases |actions|
  {
    if actions != [] {
      HeldEntryStep(s, actions[0], k, t, item);
      hide Apply, Enabled, HeldEntry, SparesEntry;
      HeldEntryThroughout(Apply(s, actions[0]), actions[1..], k, t, item);
    }
  }

  /** A thread whose check passed and whose generation has not moved puts its entry into memory, and there it stays: its own
      recheck keeps it, no rollback of another thread takes it, and only a clear, an eviction of the key or another insert
      of it ends its stay. */
  lemma InsertedIsKept(actions: seq<Action>, t: ThreadId, later: seq<Action>)
    requires IsRun(INIT, actions)
    requires var s := Run(INIT, actions);
             && Enabled(s, Insert(t)) && s.threads[t].captured == s.gen
             && IsRun(Apply(s, Insert(t)), later) && SparesEntryThroughout(Apply(s, Insert(t)), later, s.threads[t].key)
    ensures var s := Run(INIT, actions);
            var s' := Run(Apply(s, Insert(t)), later);
            s.threads[t].key in s'.memory && s'.memory[s.threads[t].key] == Entry(t, s.threads[t].pc.item)
  {
    InvInit();
    RunKeepsInv(INIT, actions);
    var s := Run(INIT, actions);
    assert ThreadOk(s, t);
    hide Run, IsRun, TableOk, QueueOk, LockOk, SweepsOk, MemoryOk;
    assert HeldEntry(Apply(s, Insert(t)), s.threads[t].key, t, s.threads[t].pc.item);
    HeldEntryThroughout(Apply(s, Insert(t)), later, s.threads[t].key, t, s.threads[t].pc.item);
  }

  // ---- Bytes older than the generation they are stored under ----

  predicate Honest(item: Item) { item.cap <= item.origin }

  predicate Holding(pc: Pc) { !pc.Analyzing? && !pc.Captured? }

  /** Nothing is stored under a newer generation than its bytes were computed under. */
  ghost predicate NoLaundering(s: State) {
    && (forall k :: k in s.table ==> Honest(s.table[k]))
    && (forall k :: k in s.queue ==> Honest(s.queue[k]))
    && (s.lock.Flushing? ==> forall k :: k in s.lock.kept ==> Honest(s.lock.kept[k]))
    && (forall k :: k in s.memory ==> Honest(s.memory[k].item))
    && (forall t :: t in s.threads && Holding(s.threads[t].pc) ==> Honest(s.threads[t].pc.item))
  }

  /** What a thread comes to hold is no older than the generation it stores it under. */
  predicate Sound(s: State, a: Action)
    requires Enabled(s, a)
  {
    match a
    case CaptureResult(t) => s.threads[t].captured == s.gen
    case ReadTable(t) => s.threads[t].captured <= s.table[s.threads[t].key].origin
    case ReadQueue(t) => s.threads[t].captured <= s.queue[s.threads[t].key].origin
    case Snapshot(t) => s.threads[t].captured <= s.memory[s.threads[t].key].item.origin
    case _ => true
  }

  predicate TakesBytes(a: Action) { a.CaptureResult? || a.ReadTable? || a.ReadQueue? || a.Snapshot? }

  lemma TakingLaunders(s: State, a: Action)
    requires NoLaundering(s) && ThreadsOk(s) && Enabled(s, a) && TakesBytes(a)
    ensures NoLaundering(Apply(s, a)) <==> Sound(s, a)
  {
    var s' := Apply(s, a);
    assert ThreadOk(s, a.t);
    assert a.t in s'.threads && Holding(s'.threads[a.t].pc);
  }

  lemma ReadDoesNotLaunder(s: State, a: Action)
    requires NoLaundering(s) && Enabled(s, a) && IsRead(a) && !TakesBytes(a)
    ensures NoLaundering(Apply(s, a))
  {
  }

  lemma FlushDoesNotLaunder(s: State, a: Action)
    requires NoLaundering(s) && Enabled(s, a) && IsFlushStep(a)
    ensures NoLaundering(Apply(s, a))
  {
  }

  lemma ClearDoesNotLaunder(s: State, a: Action)
    requires NoLaundering(s) && Enabled(s, a) && IsClearStep(a)
    ensures NoLaundering(Apply(s, a))
  {
  }

  lemma MemoryDoesNotLaunder(s: State, a: Action)
    requires NoLaundering(s) && Enabled(s, a) && !IsRead(a) && !IsFlushStep(a) && !IsClearStep(a)
    ensures NoLaundering(Apply(s, a))
  {
  }

  /** A step stores nothing under a newer generation than its bytes exactly when it is sound. */
  lemma StepLaunders(s: State, a: Action)
    requires Inv(s) && NoLaundering(s) && Enabled(s, a)
    ensures NoLaundering(Apply(s, a)) <==> Sound(s, a)
  {
    hide NoLaundering, Apply;
    if TakesBytes(a) { TakingLaunders(s, a); }
    else if IsRead(a) { ReadDoesNotLaunder(s, a); }
    else if IsFlushStep(a) { FlushDoesNotLaunder(s, a); }
    else if IsClearStep(a) { ClearDoesNotLaunder(s, a); }
    else { MemoryDoesNotLaunder(s, a); }
  }

  predicate SoundRun(s: State, actions: seq<Action>)
    requires IsRun(s, actions)
    decreases |actions|
  {
    actions == [] || (Sound(s, actions[0]) && SoundRun(Apply(s, actions[0]), actions[1..]))
  }

  /** At no moment of the run is anything stored under a newer generation than its bytes. */
  ghost predicate NeverLaunders(s: State, actions: seq<Action>)
    requires IsRun(s, actions)
    decreases |actions|
  {
    NoLaundering(s) && (actions == [] || NeverLaunders(Apply(s, actions[0]), actions[1..]))
  }

  /** A run is free of it at every moment exactly when each of its steps is sound. */
  lemma {:induction false} RunLaunders(s: State, actions: seq<Action>)
    requires Inv(s) && NoLaundering(s) && IsRun(s, actions)
    ensures NeverLaunders(s, actions) <==> SoundRun(s, actions)
    ensures SoundRun(s, actions) ==> NoLaundering(Run(s, actions))
    decreases |actions|
  {
    if actions != [] {
      var s' := Apply(s, actions[0]);
      InvStep(s, actions[0]);
      StepLaunders(s, actions[0]);
      if NoLaundering(s') { RunLaunders(s', actions[1..]); }
      hide NoLaundering, Inv, Apply, Sound;
    }
  }

  // ---- What a caller can check ----

  /** Before it stores a result: no clear began since the analysis did. Before it copies a row: the wipe
      of the generation it captured has committed. Before it copies a memory entry: the sweep of that
      generation has ended, and the entry's own thread has rechecked. A queued row needs no check. */
  predicate Guarded(s: State, a: Action)
    requires Enabled(s, a)
  {
    match a
    case CaptureResult(t) => s.threads[t].captured == s.gen
    case ReadTable(t) => s.threads[t].captured <= s.tableWiped
    case Snapshot(t) => s.threads[t].captured <= s.memorySwept && !Unfinished(s, s.threads[t].key)
    case _ => true
  }

  lemma GuardedIsSound(s: State, a: Action)
    requires Inv(s) && NoLaundering(s) && Enabled(s, a) && Guarded(s, a)
    ensures Sound(s, a)
  {
    if TakesBytes(a) { assert ThreadOk(s, a.t); }
    match a
    case ReadTable(t) => assert Honest(s.table[s.threads[t].key]);
    case ReadQueue(t) => assert Honest(s.queue[s.threads[t].key]);
    case Snapshot(t) => assert Honest(s.memory[s.threads[t].key].item);
    case _ =>
  }

  // ---- The row guard is exact ----

  /** Nobody holds bytes from the future, and while a clear is between its bump and its wipe the tables hold only
      bytes from before it. */
  ghost predicate OriginsOk(s: State) {
    && (forall k :: k in s.table ==> s.table[k].origin <= s.gen && (s.lock.Bumped? ==> s.table[k].origin < s.gen))
    && (forall k :: k in s.queue ==> s.queue[k].origin <= s.gen)
    && (s.lock.Flushing? ==> forall k :: k in s.lock.kept ==> s.lock.kept[k].origin <= s.gen)
    && (forall k :: k in s.memory ==> s.memory[k].item.origin <= s.gen)
    && (forall t :: t in s.threads ==>
          s.threads[t].captured <= s.gen && (Holding(s.threads[t].pc) ==> s.threads[t].pc.item.origin <= s.gen))
  }

  lemma ReadKeepsOrigins(s: State, a: Action)
    requires OriginsOk(s) && Enabled(s, a) && IsRead(a)
    ensures OriginsOk(Apply(s, a))
  {
    if a.BeginAnalysis? || a.Capture? { SpawnKeepsOrigins(s, a); }
    else if TakesBytes(a) { TakeKeepsOrigins(s, a); }
    else { HoldKeepsOrigins(s, a); }
    hide OriginsOk, Apply;
  }

  lemma SpawnKeepsOrigins(s: State, a: Action)
    requires OriginsOk(s) && (a.BeginAnalysis? || a.Capture?)
    ensures OriginsOk(Apply(s, a))
  {
  }

  lemma TakeKeepsOrigins(s: State, a: Action)
    requires OriginsOk(s) && Enabled(s, a) && TakesBytes(a)
    ensures OriginsOk(Apply(s, a))
  {
  }

  lemma HoldKeepsOrigins(s: State, a: Action)
    requires OriginsOk(s) && Enabled(s, a) && (a.Enqueue? || a.Check? || a.Quit?)
    ensures OriginsOk(Apply(s, a))
  {
  }

  lemma FlushKeepsOrigins(s: State, a: Action)
    requires OriginsOk(s) && Enabled(s, a) && IsFlushStep(a)
    ensures OriginsOk(Apply(s, a))
  {
  }

  lemma ClearKeepsOrigins(s: State, a: Action)
    requires OriginsOk(s) && Enabled(s, a) && IsClearStep(a)
    ensures OriginsOk(Apply(s, a))
  {
  }

  lemma MemoryKeepsOrigins(s: State, a: Action)
    requires OriginsOk(s) && Enabled(s, a) && !IsRead(a) && !IsFlushStep(a) && !IsClearStep(a)
    ensures OriginsOk(Apply(s, a))
  {
  }

  /** The tables are wiped up to the current generation, or a clear is just about to wipe them. */
  ghost predicate WipedUp(s: State) {
    s.tableWiped == s.gen || (s.lock.Bumped? && s.tableWiped + 1 == s.gen)
  }

  predicate WipesCommit(actions: seq<Action>) { forall a :: a in actions && a.WipeTables? ==> a.commits }

  lemma {:induction false} RunKeepsOrigins(s: State, actions: seq<Action>)
    requires OriginsOk(s) && WipedUp(s) && IsRun(s, actions) && WipesCommit(actions)
    ensures OriginsOk(Run(s, actions)) && WipedUp(Run(s, actions))
    decreases |actions|
  {
    if actions != [] {
      var a := actions[0];
      assert a in actions && forall x :: x in actions[1..] ==> x in actions;
      WipedUpStep(s, a);
      hide OriginsOk, WipedUp, Apply, Enabled;
      if IsRead(a) { ReadKeepsOrigins(s, a); }
      else if IsFlushStep(a) { FlushKeepsOrigins(s, a); }
      else if IsClearStep(a) { ClearKeepsOrigins(s, a); }
      else { MemoryKeepsOrigins(s, a); }
      RunKeepsOrigins(Apply(s, a), actions[1..]);
    }
  }

  lemma WipedUpStep(s: State, a: Action)
    requires WipedUp(s) && Enabled(s, a) && (a.WipeTables? ==> a.commits)
    ensures WipedUp(Apply(s, a))
  {
  }

  /** As long as every wipe committed and nothing was laundered, checking for the committed wipe before copying a row
      refuses no copy that would have been sound. */
  lemma RowGuardIsExact(actions: seq<Action>, t: ThreadId)
    requires IsRun(INIT, actions) && WipesCommit(actions) && SoundRun(INIT, actions)
    requires Enabled(Run(INIT, actions), ReadTable(t))
    ensures Guarded(Run(INIT, actions), ReadTable(t)) <==> Sound(Run(INIT, actions), ReadTable(t))
  {
    InvInit();
    RunKeepsInv(INIT, actions);
    RunLaunders(INIT, actions);
    RunKeepsOrigins(INIT, actions);
    var s := Run(INIT, actions);
    if Guarded(s, ReadTable(t)) { GuardedIsSound(s, ReadTable(t)); }
    assert ThreadOk(s, t);
    hide IsRun, Run, MemoryOk, SweepsOk;
  }

  /** Capturing while no clear is between its bump and its table wipe satisfies the row guard for good. */
  lemma QuietReadsAreGuarded(actions: seq<Action>, a: Action)
    requires IsRun(INIT, actions) && Enabled(Run(INIT, actions), a) && a.ReadTable?
    requires Run(INIT, actions).threads[a.t].quiet
    ensures Guarded(Run(INIT, actions), a)
  {
    InvInit();
    RunKeepsInv(INIT, actions);
    assert ThreadOk(Run(INIT, actions), a.t);
  }

  predicate GuardedRun(s: State, actions: seq<Action>)
    decreases |actions|
  {
    actions == []
    || (Enabled(s, actions[0]) && Guarded(s, actions[0]) && GuardedRun(Apply(s, actions[0]), actions[1..]))
  }

  lemma {:induction false} GuardedRunsDoNotLaunder(s: State, actions: seq<Action>)
    requires Inv(s) && NoLaundering(s) && GuardedRun(s, actions)
    ensures IsRun(s, actions) && SoundRun(s, actions) && NoLaundering(Run(s, actions))
    decreases |actions|
  {
    if actions != [] {
      InvStep(s, actions[0]);
      GuardedIsSound(s, actions[0]);
      StepLaunders(s, actions[0]);
      GuardedRunsDoNotLaunder(Apply(s, actions[0]), actions[1..]);
    }
  }

  /** Along guarded runs a committed wipe leaves nothing readable whose computing began before it, and a
      memory sweep nothing but entries about to be rolled back. */
  lemma GuardedClearLeavesNothingOlder(actions: seq<Action>, g: nat)
    requires GuardedRun(INIT, actions)
    ensures IsRun(INIT, actions)
    ensures var s := Run(INIT, actions);
            && (g <= s.tableWiped ==> forall k, item :: Readable(s, k, item) ==> item.origin >= g)
            && (g <= s.memorySwept ==> forall k :: k in s.memory ==> s.memory[k].item.origin >= g || Unfinished(s, k))
  {
    InvInit();
    GuardedRunsDoNotLaunder(INIT, actions);
    ClearIsSafe(actions, g);
    var s := Run(INIT, actions);
    forall k, item | g <= s.tableWiped && Readable(s, k, item) ensures item.origin >= g { assert Honest(item); }
    forall k | g <= s.memorySwept && k in s.memory ensures s.memory[k].item.origin >= g || Unfinished(s, k) {
      assert Honest(s.memory[k].item);
    }
  }

  // ---- Runs that break each guard ----

  ghost predicate Reaches(actions: seq<Action>, s: State) { IsRun(INIT, actions) && Run(INIT, actions) == s }

  lemma {:induction false} RunThen(s0: State, actions: seq<Action>, a: Action)
    requires IsRun(s0, actions) && Enabled(Run(s0, actions), a)
    ensures IsRun(s0, actions + [a]) && Run(s0, actions + [a]) == Apply(Run(s0, actions), a)
    decreases |actions|
  {
    if actions == [] {
      assert [] + [a] == [a];
      RunOne(s0, a);
    } else {
      RunThen(Apply(s0, actions[0]), actions[1..], a);
      assert (actions + [a])[1..] == actions[1..] + [a];
    }
  }

  lemma Then(actions: seq<Action>, s: State, a: Action) returns (actions': seq<Action>, s': State)
    requires Reaches(actions, s) && Enabled(s, a)
    ensures Reaches(actions', s') && s' == Apply(s, a)
  {
    RunThen(INIT, actions, a);
    actions', s' := actions + [a], Apply(s, a);
  }

  /** Both halves of the first clear are over and nobody is running. */
  ghost predicate Quiescent(s: State) {
    s.tableWiped == s.memorySwept == s.gen == 1 && s.threads == map[] && s.lock == Free && s.sweeps == map[]
  }

  /** A reader that captures after the bump and reads before the wipe carries pre-clear bytes past the
      clear: they end up in memory with no thread left to remove them. */
  lemma LaunderingReader()
    ensures exists actions ::
              && IsRun(INIT, actions) && Quiescent(Run(INIT, actions))
              && "k" in Run(INIT, actions).memory && Run(INIT, actions).memory["k"].item.origin == 0
  {
    hide IsRun, Run;
    var r, s := RowBeforeTheClear();
    r, s := Then(r, s, BeginClear);
    r, s := Then(r, s, Capture("k"));
    r, s := Then(r, s, ReadTable(1));
    r, s := Then(r, s, WipeTables(true));
    r, s := Then(r, s, EndDiskClear);
    assert s.threads == map[1 := Thread("k", 1, false, Ready(Item(1, 0)))] && s.sweeps == map[1 := Waiting(1)];
    var _, _ := ReaderAfterTheWipe(r, s);
  }

  lemma RowBeforeTheClear() returns (r: seq<Action>, s: State)
    ensures Reaches(r, s) && s == INIT.(table := map["k" := Item(0, 0)], nextThread := 1)
  {
    hide IsRun, Run;
    assert Reaches([], INIT) by { RunNothing(); }
    r, s := Then([], INIT, BeginAnalysis("k"));
    r, s := Then(r, s, CaptureResult(0));
    r, s := Then(r, s, Enqueue(0));
    r, s := Then(r, s, Quit(0));
    r, s := FlushTheQueue(r, s);
  }

  lemma FlushTheQueue(r0: seq<Action>, s0: State) returns (r: seq<Action>, s: State)
    requires Reaches(r0, s0) && s0 == INIT.(queue := map["k" := Item(0, 0)], nextThread := 1)
    ensures Reaches(r, s) && s == INIT.(table := map["k" := Item(0, 0)], nextThread := 1)
  {
    hide IsRun, Run;
    r, s := Then(r0, s0, BeginFlush);
    r, s := Then(r, s, EndFlush(true));
  }

  lemma ReaderAfterTheWipe(r0: seq<Action>, s0: State) returns (r: seq<Action>, s: State)
    requires Reaches(r0, s0) && s0.lock == Free && s0.memory == map[] && s0.gen == s0.tableWiped == 1 && s0.memorySwept == 0
    requires s0.threads == map[1 := Thread("k", 1, false, Ready(Item(1, 0)))] && s0.sweeps == map[1 := Waiting(1)]
    ensures Reaches(r, s) && Quiescent(s) && "k" in s.memory && s.memory["k"].item.origin == 0
  {
    hide IsRun, Run;
    r, s := Then(r0, s0, StartSweep(1));
    r, s := Then(r, s, EndSweep(1));
    r, s := Then(r, s, Check(1));
    r, s := Then(r, s, Insert(1));
    r, s := Then(r, s, Recheck(1));
    assert s.sweeps == map[] && s.threads == map[];
  }

  /** An analysis that began before a clear and captures only once it is over stores its bytes as current,
      in both layers. */
  lemma LaunderingAnalysis()
    ensures exists actions ::
              && IsRun(INIT, actions) && Quiescent(Run(INIT, actions))
              && Readable(Run(INIT, actions), "k", Item(1, 0))
              && "k" in Run(INIT, actions).memory && Run(INIT, actions).memory["k"].item.origin == 0
  {
    hide IsRun, Run;
    assert Reaches([], INIT) by { RunNothing(); }
    var r, s := Then([], INIT, BeginAnalysis("k"));
    r, s := ClearRunsThrough(r, s);
    var _, _ := ResultStoredLate(r, s);
  }

  lemma ResultStoredLate(r0: seq<Action>, s0: State) returns (r: seq<Action>, s: State)
    requires Reaches(r0, s0)
    requires s0 == INIT.(gen := 1, tableWiped := 1, memorySwept := 1, nextThread := 1,
                         threads := map[0 := Thread("k", 0, true, Analyzing)])
    ensures Reaches(r, s) && Quiescent(s) && Readable(s, "k", Item(1, 0))
    ensures "k" in s.memory && s.memory["k"].item.origin == 0
  {
    hide IsRun, Run;
    r, s := Then(r0, s0, CaptureResult(0));
    r, s := Then(r, s, Enqueue(0));
    r, s := Then(r, s, Check(0));
    r, s := Then(r, s, Insert(0));
    r, s := Then(r, s, Recheck(0));
    assert s.threads == map[];
  }

  lemma RunNothing()
    ensures IsRun(INIT, []) && Run(INIT, []) == INIT
  {
  }

  /** A snapshot of an entry still awaiting its rollback does the same on disk, even though its thread
      captured after the clear was over. */
  lemma LaunderingSnapshot()
    ensures exists actions ::
              && IsRun(INIT, actions) && Quiescent(Run(INIT, actions))
              && Readable(Run(INIT, actions), "k", Item(1, 0)) && Run(INIT, actions).memory == map[]
  {
    hide IsRun, Run;
    var r, s := WriterPassesItsCheck();
    r, s := ClearRunsThrough(r, s);
    var _, _ := SnapshotBeforeRollback(r, s);
  }

  lemma WriterPassesItsCheck() returns (r: seq<Action>, s: State)
    ensures Reaches(r, s)
    ensures s == INIT.(threads := map[0 := Thread("k", 0, true, Checked(Item(0, 0)))], nextThread := 1)
  {
    hide IsRun, Run;
    assert Reaches([], INIT) by { RunNothing(); }
    r, s := Then([], INIT, BeginAnalysis("k"));
    r, s := Then(r, s, CaptureResult(0));
    r, s := Then(r, s, Check(0));
  }

  lemma ClearRunsThrough(r0: seq<Action>, s0: State) returns (r: seq<Action>, s: State)
    requires Reaches(r0, s0)
    requires s0 == INIT.(threads := s0.threads, nextThread := 1)
    ensures Reaches(r, s) && s == s0.(gen := 1, tableWiped := 1, memorySwept := 1)
  {
    hide IsRun, Run;
    r, s := Then(r0, s0, BeginClear);
    r, s := Then(r, s, WipeTables(true));
    r, s := Then(r, s, EndDiskClear);
    r, s := Then(r, s, StartSweep(1));
    r, s := Then(r, s, EndSweep(1));
  }

  lemma SnapshotBeforeRollback(r0: seq<Action>, s0: State) returns (r: seq<Action>, s: State)
    requires Reaches(r0, s0) && s0.lock == Free && s0.memory == map[] && s0.sweeps == map[] && s0.nextThread == 1
    requires s0.gen == s0.tableWiped == s0.memorySwept == 1 && s0.threads == map[0 := Thread("k", 0, true, Checked(Item(0, 0)))]
    ensures Reaches(r, s) && Quiescent(s) && Readable(s, "k", Item(1, 0)) && s.memory == map[]
  {
    hide IsRun, Run;
    r, s := Then(r0, s0, Insert(0));
    r, s := Then(r, s, Capture("k"));
    r, s := Then(r, s, Snapshot(1));
    r, s := Then(r, s, Enqueue(1));
    assert s.threads[1].pc == Ready(Item(1, 0)) && s.threads[0].pc.Inserted? && s.threads[0].captured == 0;
    r, s := WriterRollsBack(r, s);
  }

  lemma WriterRollsBack(r0: seq<Action>, s0: State) returns (r: seq<Action>, s: State)
    requires Reaches(r0, s0) && s0.lock == Free && s0.sweeps == map[] && s0.gen == s0.tableWiped == s0.memorySwept == 1
    requires s0.threads.Keys == {0, 1} && s0.threads[0].pc.Inserted? && s0.threads[0].captured == 0 && s0.threads[0].key == "k"
    requires s0.threads[1].pc.Ready? && s0.memory.Keys == {"k"} && s0.memory["k"].id == 0
    requires "k" in s0.queue && s0.queue["k"] == Item(1, 0)
    ensures Reaches(r, s) && Quiescent(s) && Readable(s, "k", Item(1, 0)) && s.memory == map[]
  {
    hide IsRun, Run;
    r, s := Then(r0, s0, Recheck(0));
    r, s := Then(r, s, Rollback(0));
    r, s := Then(r, s, Quit(1));
    assert s.threads == map[] && s.memory == map[] && s.queue["k"] == Item(1, 0);
  }
}
