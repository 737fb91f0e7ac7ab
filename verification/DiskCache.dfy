/** The disk layer as its callers see it: the committed tables and, in front of them, the queue of
    inserts awaiting a batched commit, each tagged with the clear generation its writer captured.
    Models daemon/src/cache/disk.rs with the database open; whether a transaction commits is
    arbitrary. */
module DiskCaches {
  import opened Common
  import opened Orders
  import opened Sums
  import opened Disk
  import opened Fingerprints
  import opened Recency

  // ---- Bounded index reads ----

  function KeysOf(rows: seq<IndexRow>): (r: seq<string>)
    ensures |r| == |rows|
    ensures forall i :: 0 <= i < |rows| ==> r[i] == rows[i].1
  {
    seq(|rows|, i requires 0 <= i < |rows| => rows[i].1)
  }

  function Take<T>(xs: seq<T>, n: nat): seq<T> {
    if n <= |xs| then xs[..n] else xs
  }

  lemma JoinSorted<T>(le: (T, T) -> bool, xs: seq<T>, ys: seq<T>)
    requires SortedBy(le, xs) && SortedBy(le, ys)
    requires forall x, y :: x in xs && y in ys ==> le(x, y)
    ensures SortedBy(le, xs + ys)
  {
    var joined := xs + ys;
    forall i, j | 0 <= i < j < |joined| ensures le(joined[i], joined[j]) {
      if i < |xs| <= j { assert joined[i] in xs && joined[j] in ys; }
    }
  }

  lemma SortKeeps<T(!new)>(le: (T, T) -> bool, xs: seq<T>)
    requires TotalOrder(le)
    ensures SortedBy(le, Sort(le, xs)) && |Sort(le, xs)| == |xs|
    ensures forall x :: x in Sort(le, xs) <==> x in xs
  {
    SortIsSorted(le, xs);
    SameMultisetSameMembers(Sort(le, xs), xs);
  }

  /** Sorting a sequence whose parts are already in order sorts the parts separately. */
  lemma SortSplits<T(!new)>(le: (T, T) -> bool, all: seq<T>, first: seq<T>, rest: seq<T>)
    requires TotalOrder(le)
    requires multiset(all) == multiset(first) + multiset(rest)
    requires forall x, y :: x in first && y in rest ==> le(x, y)
    ensures Sort(le, all) == Sort(le, first) + Sort(le, rest)
  {
    assert SortedBy(le, Sort(le, all)) by { SortKeeps(le, all); }
    assert SortedBy(le, Sort(le, first) + Sort(le, rest)) by {
      SortKeeps(le, first);
      SortKeeps(le, rest);
      JoinSorted(le, Sort(le, first), Sort(le, rest));
    }
    SortedIsUnique(le, Sort(le, all), Sort(le, first) + Sort(le, rest));
  }

  /** The first `limit` index rows of the whole shard, newest first, ties by ascending key. */
  function MostRecent(index: seq<IndexRow>, limit: nat): seq<string> {
    KeysOf(Take(Sort(RecentLe, index), limit))
  }

  /** `keys` are those of the rows at the positions `at`, as many as there are up to `limit`: no row twice, the newest first,
      equal sequences by ascending key, and no row left out that belongs before one listed. */
  ghost predicate NewestAt(index: seq<IndexRow>, limit: nat, keys: seq<string>, at: seq<nat>) {
    && |keys| == |at| == Min(limit, |index|)
    && (forall a :: 0 <= a < |at| ==> at[a] < |index| && keys[a] == index[at[a]].1)
    && (forall a, b :: 0 <= a < b < |at| ==>
          && at[a] != at[b]
          && index[at[a]].0 >= index[at[b]].0
          && (index[at[a]].0 == index[at[b]].0 ==> StrLe(index[at[a]].1, index[at[b]].1)))
    && (forall a, i :: 0 <= a < |at| && 0 <= i < |index| && i !in at ==>
          && index[at[a]].0 >= index[i].0
          && (index[at[a]].0 == index[i].0 ==> StrLe(index[at[a]].1, index[i].1)))
  }

  ghost predicate NewestFirst(index: seq<IndexRow>, limit: nat, keys: seq<string>) {
    exists at :: NewestAt(index, limit, keys, at)
  }

  lemma MostRecentIsNewest(index: seq<IndexRow>, limit: nat)
    ensures NewestFirst(index, limit, MostRecent(index, limit))
  {
    RecentLeIsTotal();
    SortIsSorted(RecentLe, index);
    var whole := SortPositions(RecentLe, index);
    var n := Min(limit, |index|);
    assert |Take(Sort(RecentLe, index), limit)| == n;
    FirstPlaces(index, Sort(RecentLe, index), whole, n);
    assert NewestAt(index, limit, MostRecent(index, limit), whole[..n]);
  }

  /** The first places of the sorted rows, against each other and against the places left out. */
  lemma FirstPlaces(index: seq<IndexRow>, sorted: seq<IndexRow>, whole: seq<nat>, n: nat)
    requires |sorted| == |index| == |whole| && n <= |whole| && Permutes(whole) && SortedBy(RecentLe, sorted)
    requires forall a :: 0 <= a < |whole| ==> sorted[a] == index[whole[a]]
    ensures forall a, b :: 0 <= a < b < n ==> RecentLe(index[whole[a]], index[whole[b]])
    ensures forall a, i :: 0 <= a < n && 0 <= i < |index| && i !in whole[..n] ==> RecentLe(index[whole[a]], index[i])
  {
    hide RecentLe;
    forall a, b | 0 <= a < b < n ensures RecentLe(index[whole[a]], index[whole[b]]) {
      assert RecentLe(sorted[a], sorted[b]);
    }
    forall a, i | 0 <= a < n && 0 <= i < |index| && i !in whole[..n] ensures RecentLe(index[whole[a]], index[i]) {
      assert i in whole;
      var b :| 0 <= b < |whole| && whole[b] == i;
      assert forall c :: 0 <= c < n ==> whole[c] in whole[..n];
      assert RecentLe(sorted[a], sorted[b]);
    }
  }

  lemma SplitAtAGap(index: seq<IndexRow>, i: nat, a: nat, b: nat)
    requires Ascending(index) && b < i <= a < |index|
    requires index[i].0 != index[i - 1].0
    ensures RecentLe(index[a], index[b])
  {
    AscendingAt(index, i - 1, i);
    if b < i - 1 { AscendingAt(index, b, i - 1); }
    if i < a { AscendingAt(index, i, a); }
  }

  lemma GapSeparates(index: seq<IndexRow>, i: nat)
    requires Ascending(index) && 0 < i < |index| && index[i].0 != index[i - 1].0
    ensures forall x, y :: x in index[i..] && y in index[..i] ==> RecentLe(x, y)
  {
    forall x, y | x in index[i..] && y in index[..i] ensures RecentLe(x, y) {
      var a :| i <= a < |index| && index[a] == x;
      var b :| 0 <= b < i && index[b] == y;
      SplitAtAGap(index, i, a, b);
    }
  }

  lemma TakenRowsAreEnough(index: seq<IndexRow>, i: nat, limit: nat)
    requires Ascending(index) && 0 < i < |index| && |index| - i >= limit
    requires index[i].0 != index[i - 1].0
    ensures Take(Sort(RecentLe, index[i..]), limit) == Take(Sort(RecentLe, index), limit)
  {
    RecentLeIsTotal();
    var taken, left := index[i..], index[..i];
    assert index == left + taken;
    GapSeparates(index, i);
    SortSplits(RecentLe, index, taken, left);
    SortKeeps(RecentLe, taken);
    TakeFromFirst(Sort(RecentLe, taken), Sort(RecentLe, left), limit);
  }

  lemma TakeFromFirst<T>(first: seq<T>, rest: seq<T>, n: nat)
    requires n <= |first|
    ensures Take(first + rest, n) == Take(first, n)
  {
  }

  lemma SortIgnoresOrder<T(!new)>(le: (T, T) -> bool, xs: seq<T>, ys: seq<T>)
    requires TotalOrder(le) && multiset(xs) == multiset(ys)
    ensures Sort(le, xs) == Sort(le, ys)
  {
    SortIsSorted(le, xs);
    SortIsSorted(le, ys);
    SortedIsUnique(le, Sort(le, xs), Sort(le, ys));
  }

  /** The preload read: walk the index from its newest end, keep every row tied with the last one
      taken, sort, truncate. It returns what a full sort of the shard would. */
  method WalkRecent(index: seq<IndexRow>, limit: nat) returns (keys: seq<string>)
    requires Ascending(index)
    ensures keys == MostRecent(index, limit)
    ensures NewestFirst(index, limit, keys)
  {
    hide Ascending, Sort, RecentLe, Take, KeysOf, NewestAt;
    MostRecentIsNewest(index, limit);
    if limit == 0 {
      TakeNothing(index);
      return [];
    }
    var taken: seq<IndexRow> := [];
    var i := |index|;
    while i > 0
      invariant 0 <= i <= |index|
      invariant |taken| == |index| - i && multiset(taken) == multiset(index[i..])
      invariant i < |index| ==> taken != [] && taken[|taken| - 1] == index[i]
    {
      var row := index[i - 1];
      if |taken| >= limit && taken != [] && taken[|taken| - 1].0 != row.0 {
        break;
      }
      OneMoreTaken(index, i, taken);
      taken := taken + [row];
      i := i - 1;
    }
    WalkedEnough(index, i, limit, taken);
    keys := KeysOf(Take(Sort(RecentLe, taken), limit));
  }

  lemma TakeNothing(index: seq<IndexRow>)
    ensures MostRecent(index, 0) == []
  {
    assert Take(Sort(RecentLe, index), 0) == [];
  }

  lemma OneMoreTaken(index: seq<IndexRow>, i: nat, taken: seq<IndexRow>)
    requires 0 < i <= |index| && multiset(taken) == multiset(index[i..])
    ensures multiset(taken + [index[i - 1]]) == multiset(index[i - 1..])
  {
    assert index[i - 1..] == [index[i - 1]] + index[i..];
  }

  /** Where the walk may stop: at the end, or past `limit` rows at a change of sequence. */
  lemma WalkedEnough(index: seq<IndexRow>, i: nat, limit: nat, taken: seq<IndexRow>)
    requires Ascending(index) && i <= |index| && multiset(taken) == multiset(index[i..])
    requires i == 0 || (i < |index| && |index| - i >= limit && index[i].0 != index[i - 1].0)
    ensures Take(Sort(RecentLe, taken), limit) == Take(Sort(RecentLe, index), limit)
  {
    assert Sort(RecentLe, taken) == Sort(RecentLe, index[i..]) by {
      RecentLeIsTotal();
      SortIgnoresOrder(RecentLe, taken, index[i..]);
    }
    if i > 0 { TakenRowsAreEnough(index, i, limit); } else { assert index[0..] == index; }
  }

  /** How many rows a bounded read past the floor may return. */
  function EvictableCount(count: nat, floor: nat): nat {
    if count <= floor then 0 else count - floor
  }

  /** The `n` oldest index rows beyond the `floor` newest. */
  function Oldest(index: seq<IndexRow>, n: nat, floor: nat): (r: seq<IndexRow>)
    ensures r <= index && |r| == if |index| <= floor then 0 else Min(n, |index| - floor)
  {
    index[..Min(n, EvictableCount(|index|, floor))]
  }

  /** The bounded ascending read behind victim selection; `entryCount` is the stored count. */
  method ReadOldest(index: seq<IndexRow>, entryCount: nat, n: nat, floor: nat) returns (lowest: seq<IndexRow>)
    ensures entryCount == |index| ==> lowest == Oldest(index, n, floor)
    ensures lowest <= index
    ensures |lowest| == if entryCount <= floor then 0 else Min(|index|, Min(n, entryCount - floor))
  {
    lowest := [];
    var take := Min(n, EvictableCount(entryCount, floor));
    if take == 0 { return; }
    for i := 0 to |index|
      invariant lowest == index[..i] && i < take
    {
      lowest := lowest + [index[i]];
      if |lowest| >= take { return; }
    }
  }

  /** A consistent index names each row once, so it is as long as the table. */
  lemma MirrorCount(index: seq<IndexRow>, rows: map<string, Row>)
    requires IndexMirrors(index, rows)
    ensures |index| == |rows| == Count(rows)
  {
    CountIsSize(rows);
    var keys := KeysOf(index);
    forall i, j | 0 <= i < j < |keys| ensures keys[i] != keys[j] {
      AscendingAt(index, i, j);
      assert index[i] in index && index[j] in index;
    }
    DistinctCount(keys);
    assert (set k | k in keys) == rows.Keys by {
      forall k | k in rows ensures k in keys {
        assert (DecodeLastSeq(rows[k]), k) in index;
        var i :| 0 <= i < |index| && index[i] == (DecodeLastSeq(rows[k]), k);
        assert keys[i] == k;
      }
      forall k | k in keys ensures k in rows {
        var i :| 0 <= i < |keys| && keys[i] == k;
        assert index[i] in index;
      }
    }
  }

  lemma {:induction false} DistinctCount(keys: seq<string>)
    requires forall i, j :: 0 <= i < j < |keys| ==> keys[i] != keys[j]
    ensures |set k | k in keys| == |keys|
  {
    if keys != [] {
      DistinctCount(keys[1..]);
      assert (set k | k in keys) == {keys[0]} + set k | k in keys[1..];
      assert keys[0] !in keys[1..];
    }
  }

  // ---- The shard object ----

  type Envelope = seq<Byte>

  /** A row as its readers see it. */
  datatype Stored = Stored(lastSeq: nat, envelope: Option<Envelope>)

  function StoredOf(row: Row): Stored { Stored(DecodeLastSeq(row), EnvelopeOf(row)) }

  ghost function Decoded(rows: map<string, Row>): map<string, Stored> {
    map k | k in rows :: StoredOf(rows[k])
  }

  /** The queued rows of the current generation. */
  function Kept(pending: map<string, (nat, Row)>, generation: nat): map<string, Row> {
    map k | k in pending && pending[k].0 == generation :: pending[k].1
  }

  function Retag(kept: map<string, Row>, generation: nat): map<string, (nat, Row)> {
    map k | k in kept :: (generation, kept[k])
  }

  /** What a read can find: the committed rows, overlaid with the queued ones of this generation. */
  ghost function View(rows: map<string, Row>, pending: map<string, (nat, Row)>, generation: nat): map<string, Row> {
    rows + Kept(pending, generation)
  }

  /** What reads of the shard find. */
  ghost function ContentsOf(rows: map<string, Row>, pending: map<string, (nat, Row)>, generation: nat): map<string, Stored> {
    Decoded(View(rows, pending, generation))
  }

  lemma DecodedPut(rows: map<string, Row>, key: string, row: Row)
    ensures Decoded(rows[key := row]) == Decoded(rows)[key := StoredOf(row)]
  {
  }

  lemma DecodedDrop(rows: map<string, Row>, keys: set<string>)
    ensures Decoded(rows) - keys == Decoded(rows - keys)
  {
  }

  lemma KeptPut(pending: map<string, (nat, Row)>, generation: nat, key: string, tag: nat, row: Row)
    ensures Kept(pending[key := (tag, row)], generation)
         == if tag == generation then Kept(pending, generation)[key := row] else Kept(pending, generation) - {key}
  {
  }

  lemma ViewPut(rows: map<string, Row>, pending: map<string, (nat, Row)>, generation: nat, key: string, row: Row)
    ensures ContentsOf(rows, pending[key := (generation, row)], generation)
         == ContentsOf(rows, pending, generation)[key := StoredOf(row)]
  {
    KeptPut(pending, generation, key, generation, row);
    assert View(rows, pending[key := (generation, row)], generation) == View(rows, pending, generation)[key := row];
    DecodedPut(View(rows, pending, generation), key, row);
  }

  lemma ViewStalePut(rows: map<string, Row>, pending: map<string, (nat, Row)>, generation: nat, key: string, tag: nat, row: Row)
    requires tag != generation
    ensures ContentsOf(rows, pending[key := (tag, row)], generation) - {key} == ContentsOf(rows, pending, generation) - {key}
  {
    var before, after := View(rows, pending, generation), View(rows, pending[key := (tag, row)], generation);
    KeptPut(pending, generation, key, tag, row);
    assert after - {key} == before - {key};
    DecodedDrop(before, {key});
    DecodedDrop(after, {key});
  }

  lemma ViewFlush(rows: map<string, Row>, pending: map<string, (nat, Row)>, generation: nat)
    ensures View(rows + Kept(pending, generation), map[], generation) == View(rows, pending, generation)
    ensures View(rows, Retag(Kept(pending, generation), generation), generation) == View(rows, pending, generation)
    ensures Kept(pending, generation) == map[] ==> View(rows, map[], generation) == View(rows, pending, generation)
  {
    assert Kept(map[], generation) == map[];
    assert Kept(Retag(Kept(pending, generation), generation), generation) == Kept(pending, generation);
  }

  lemma ViewDrop(rows: map<string, Row>, pending: map<string, (nat, Row)>, generation: nat, keys: set<string>, rows': map<string, Row>)
    requires rows' == rows || rows' == rows - keys
    ensures ContentsOf(rows', pending - keys, generation) - keys == ContentsOf(rows, pending, generation) - keys
    ensures rows' == rows - keys ==> ContentsOf(rows', pending - keys, generation) == ContentsOf(rows, pending, generation) - keys
  {
    var before, after := View(rows, pending, generation), View(rows', pending - keys, generation);
    assert Kept(pending - keys, generation) == Kept(pending, generation) - keys;
    assert after - keys == before - keys;
    DecodedDrop(before, keys);
    DecodedDrop(after, keys);
    if rows' == rows - keys { assert after == before - keys; }
  }

  lemma DropNothing(rows: map<string, Row>, pending: map<string, (nat, Row)>, generation: nat)
    ensures rows - KeySet([]) == rows && pending - KeySet([]) == pending
    ensures ContentsOf(rows, pending, generation) - KeySet([]) == ContentsOf(rows, pending, generation)
  {
  }

  /** An empty queue, over the rows or over none. */
  lemma WipedOrNot(rows: map<string, Row>, pending: map<string, (nat, Row)>, generation: nat, bound: nat,
                   decodes: Envelope -> bool, durable: Envelope -> bool)
    requires SeqsBelow(rows, pending, bound)
    ensures SeqsBelow(rows, map[], bound) && SeqsBelow(map[], map[], bound) && Admitted(map[], decodes, durable)
    ensures ContentsOf(rows, map[], generation) == Decoded(rows) && ContentsOf(map[], map[], generation) == Decoded(map[]) == map[]
  {
    assert View(rows, map[], generation) == rows && View(map[], map[], generation) == map[];
  }

  lemma EmptyIsConsistent()
    ensures Disk.Consistent(EMPTY_TABLES)
  {
  }

  const INSERT_FLUSH_BATCH: nat := 64

  /** A write transaction over consistent tables, which may fail to commit. */
  method TryInserts(t: Tables, kept: map<string, Row>) returns (commits: bool, t': Tables)
    requires Disk.Consistent(t)
    ensures Disk.Consistent(t') && if commits then t'.rows == t.rows + kept else t' == t
  {
    t' := WritePendingInserts(t, kept);
    commits := *;
    if !commits { t' := t; }
  }

  /** A removal transaction over consistent tables, which may fail to commit and then frees nothing. */
  method TryRemovals(t: Tables, keys: seq<string>) returns (commits: bool, freed: nat, t': Tables)
    requires Disk.Consistent(t)
    ensures Disk.Consistent(t') && if commits then t'.rows == t.rows - KeySet(keys) else t' == t
    ensures freed == ByteSum(t.rows) - ByteSum(t'.rows)
  {
    t', freed := MaintainRemovals(t, keys);
    commits := *;
    if !commits { freed, t' := 0, t; }
  }

  function Matching(keys: set<string>, matches: string -> bool): set<string> {
    set k | k in keys && matches(k)
  }

  lemma DropMatching<T>(m: map<string, T>, others: set<string>, matches: string -> bool)
    ensures m - Matching(m.Keys, matches) == m - Matching(m.Keys + others, matches)
    ensures m - Matching(m.Keys, matches) == m - Matching(others + m.Keys, matches)
  {
  }

  /** The keys of the committed rows that `matches` accepts. */
  method MatchingKeys(rows: map<string, Row>, matches: string -> bool) returns (keys: seq<string>)
    ensures KeySet(keys) == Matching(rows.Keys, matches)
  {
    keys := [];
    var todo := rows.Keys;
    while todo != {}
      invariant todo <= rows.Keys
      invariant KeySet(keys) == Matching(rows.Keys - todo, matches)
    {
      var key :| key in todo;
      if matches(key) {
        assert KeySet(keys + [key]) == KeySet(keys) + {key};
        keys := keys + [key];
      }
      todo := todo - {key};
    }
  }

  lemma KeySetOne(key: string)
    ensures KeySet([key]) == {key}
  {
  }

  ghost predicate SubQueue(small: map<string, (nat, Row)>, pending: map<string, (nat, Row)>) {
    forall k :: k in small ==> k in pending && small[k] == pending[k]
  }

  /** Every queued row decodes and passed the durability gate. */
  ghost predicate Admitted(pending: map<string, (nat, Row)>, decodes: Envelope -> bool, durable: Envelope -> bool) {
    forall k :: k in pending ==> var e := EnvelopeOf(pending[k].1); e.Some? && decodes(e.value) && durable(e.value)
  }

  lemma SubQueueAdmitted(small: map<string, (nat, Row)>, pending: map<string, (nat, Row)>,
                         decodes: Envelope -> bool, durable: Envelope -> bool)
    requires Admitted(pending, decodes, durable) && SubQueue(small, pending)
    ensures Admitted(small, decodes, durable)
  {
  }

  lemma AdmittedPut(pending: map<string, (nat, Row)>, decodes: Envelope -> bool, durable: Envelope -> bool,
                    key: string, generation: nat, lastSeq: nat, envelope: Envelope)
    requires Admitted(pending, decodes, durable) && lastSeq <= U64_MAX && decodes(envelope) && durable(envelope)
    ensures Admitted(pending[key := (generation, EncodeRow(lastSeq, envelope))], decodes, durable)
  {
    EncodeRowRoundTrip(lastSeq, envelope);
  }

  /** No row, committed or queued, carries a sequence of `bound` or more. */
  ghost predicate SeqsBelow(rows: map<string, Row>, pending: map<string, (nat, Row)>, bound: nat) {
    && (forall k :: k in rows ==> DecodeLastSeq(rows[k]) < bound)
    && (forall k :: k in pending ==> DecodeLastSeq(pending[k].1) < bound)
  }

  lemma SeqsPut(rows: map<string, Row>, pending: map<string, (nat, Row)>, bound: nat,
                key: string, tag: nat, lastSeq: nat, envelope: Envelope)
    requires SeqsBelow(rows, pending, bound) && lastSeq <= U64_MAX
    ensures SeqsBelow(rows, pending[key := (tag, EncodeRow(lastSeq, envelope))], Max(bound, lastSeq + 1))
  {
    EncodeRowRoundTrip(lastSeq, envelope);
  }

  lemma SeqsFlush(rows: map<string, Row>, pending: map<string, (nat, Row)>, generation: nat, bound: nat)
    requires SeqsBelow(rows, pending, bound)
    ensures SeqsBelow(rows + Kept(pending, generation), map[], bound)
    ensures SeqsBelow(rows, Retag(Kept(pending, generation), generation), bound)
  {
  }

  /** A read of `key` finds its committed row or nothing. */
  ghost predicate ShowsRow(contents: map<string, Stored>, key: string, rows: map<string, Row>) {
    key in contents ==> key in rows && contents[key] == StoredOf(rows[key])
  }

  /** What queueing a row does to the reads. */
  lemma QueuePut(rows: map<string, Row>, pending: map<string, (nat, Row)>, generation: nat,
                 key: string, tag: nat, lastSeq: nat, envelope: Envelope)
    requires lastSeq <= U64_MAX
    ensures var before := ContentsOf(rows, pending, generation);
            var after := ContentsOf(rows, pending[key := (tag, EncodeRow(lastSeq, envelope))], generation);
            if tag == generation then after == before[key := Stored(lastSeq, Some(envelope))]
            else after - {key} == before - {key} && ShowsRow(after, key, rows)
  {
    EncodeRowRoundTrip(lastSeq, envelope);
    if tag == generation { ViewPut(rows, pending, generation, key, EncodeRow(lastSeq, envelope)); }
    else { ViewStalePut(rows, pending, generation, key, tag, EncodeRow(lastSeq, envelope)); }
  }

  /** One flush of the queue: commits what carries the current generation, drops the rest, and queues
      the kept rows again when the commit fails. */
  method FlushQueue(t: Tables, pending: map<string, (nat, Row)>, generation: nat)
    returns (commits: bool, t': Tables, pending': map<string, (nat, Row)>)
    requires Disk.Consistent(t)
    ensures Disk.Consistent(t')
    ensures ContentsOf(t'.rows, pending', generation) == ContentsOf(t.rows, pending, generation)
    ensures if commits then t'.rows == t.rows + Kept(pending, generation) && pending' == map[]
            else t' == t && pending' == Retag(Kept(pending, generation), generation)
    ensures SubQueue(pending', pending) && forall k :: k in pending' ==> pending'[k].0 == generation
  {
    commits, t', pending' := true, t, map[];
    var kept := Kept(pending, generation);
    ViewFlush(t.rows, pending, generation);
    if kept == map[] { return; }
    commits, t' := TryInserts(t, kept);
    if !commits {
      pending' := Retag(kept, generation);
    }
  }

  /** Drops `keys` from the queue and, if the transaction commits, from the tables. */
  method DropKeys(t: Tables, pending: map<string, (nat, Row)>, ghost generation: nat, keys: seq<string>)
    returns (commits: bool, freed: nat, t': Tables, pending': map<string, (nat, Row)>)
    requires Disk.Consistent(t)
    ensures Disk.Consistent(t') && SubQueue(pending', pending) && pending' == pending - KeySet(keys)
    ensures ContentsOf(t'.rows, pending', generation) - KeySet(keys) == ContentsOf(t.rows, pending, generation) - KeySet(keys)
    ensures if commits then t'.rows == t.rows - KeySet(keys) else t' == t
    ensures commits ==> ContentsOf(t'.rows, pending', generation) == ContentsOf(t.rows, pending, generation) - KeySet(keys)
    ensures freed == ByteSum(t.rows) - ByteSum(t'.rows)
  {
    if keys == [] {
      DropNothing(t.rows, pending, generation);
      return true, 0, t, pending;
    }
    pending' := pending - KeySet(keys);
    commits, freed, t' := TryRemovals(t, keys);
    ViewDrop(t.rows, pending, generation, KeySet(keys), t'.rows);
  }

  /** Drops what `matches` accepts, first from the queue, then from the tables by a scan. */
  method DropMatches(t: Tables, pending: map<string, (nat, Row)>, ghost generation: nat, matches: string -> bool)
    returns (commits: bool, t': Tables, pending': map<string, (nat, Row)>)
    requires Disk.Consistent(t)
    ensures Disk.Consistent(t') && SubQueue(pending', pending)
    ensures pending' == pending - Matching(pending.Keys, matches)
    ensures if commits then t'.rows == t.rows - Matching(t.rows.Keys, matches) else t' == t
    ensures var gone := Matching(t.rows.Keys + pending.Keys, matches);
            && ContentsOf(t'.rows, pending', generation) - gone == ContentsOf(t.rows, pending, generation) - gone
            && (commits ==> ContentsOf(t'.rows, pending', generation) == ContentsOf(t.rows, pending, generation) - gone)
  {
    pending' := pending - Matching(pending.Keys, matches);
    DropMatching(t.rows, pending.Keys, matches);
    DropMatching(pending, t.rows.Keys, matches);
    var keys := MatchingKeys(t.rows, matches);
    var freed: nat;
    commits, freed, t' := TryRemovals(t, keys);
    ViewDrop(t.rows, pending, generation, Matching(t.rows.Keys + pending.Keys, matches), t'.rows);
  }

  class DiskCache {
    var tables: Tables
    var pendingInserts: map<string, (nat, Row)>
    var clearGeneration: nat
    /** What reads can find. */
    ghost var Contents: map<string, Stored>
    /** How many enqueues have failed, and how many transactions have not committed. */
    ghost var Refusals: nat
    ghost var Aborts: nat
    /** Above every sequence stored in the shard. */
    ghost var Ceiling: nat
    /** Whether an envelope decodes under this analyzer version. */
    const decodes: Envelope -> bool
    /** Whether a decoded entry may live in a store that outlives the process. */
    const durable: Envelope -> bool
    const fingerprintsOf: Envelope -> seq<FileFingerprint>

    ghost predicate Valid() reads this {
      && Disk.Consistent(tables)
      && Contents == ContentsOf(tables.rows, pendingInserts, clearGeneration)
      && Admitted(pendingInserts, decodes, durable)
      && Below(Ceiling)
    }

    constructor (decodes: Envelope -> bool, durable: Envelope -> bool, fingerprintsOf: Envelope -> seq<FileFingerprint>)
      ensures Valid() && Contents == map[] && clearGeneration == 0
      ensures this.decodes == decodes && this.durable == durable && this.fingerprintsOf == fingerprintsOf
    {
      EmptyIsConsistent();
      tables, pendingInserts, clearGeneration, Contents := EMPTY_TABLES, map[], 0, map[];
      Refusals, Aborts, Ceiling := 0, 0, 0;
      this.decodes, this.durable, this.fingerprintsOf := decodes, durable, fingerprintsOf;
    }

    /** No stored sequence reaches `bound`. */
    ghost predicate Below(bound: nat) reads this { SeqsBelow(tables.rows, pendingInserts, bound) }

    /** What reads find has a row, committed or queued. */
    lemma ContentsHaveRows()
      requires Valid()
      ensures Contents.Keys <= tables.rows.Keys + pendingInserts.Keys
    {
    }

    /** Replaces the ceiling by a bound known to hold. */
    ghost method Tighten(bound: nat)
      requires Valid() && Below(bound)
      modifies this`Ceiling
      ensures Valid() && Ceiling == bound
    {
      Ceiling := bound;
    }

    /** Queues an entry under the generation the caller captured, or fails and queues nothing. A
        flush may follow. */
    method WriteAtGeneration(key: string, lastSeq: nat, envelope: Envelope, generation: nat) returns (ok: bool)
      requires Valid() && lastSeq <= U64_MAX && Servable(envelope)
      modifies this
      ensures Valid() && clearGeneration == old(clearGeneration)
      ensures Refusals == old(Refusals) + (if ok then 0 else 1) && Aborts >= old(Aborts)
      ensures !ok ==> Contents == old(Contents)
      ensures ok && generation == clearGeneration ==> Contents == old(Contents)[key := Stored(lastSeq, Some(envelope))]
      ensures ok && generation != clearGeneration ==>
                Contents - {key} == old(Contents) - {key} && ShowsRow(Contents, key, old(tables.rows))
      ensures old(Ceiling) <= Ceiling <= Max(old(Ceiling), lastSeq + 1)
    {
      hide ShowsRow, Disk.Consistent, ContentsOf, Admitted;
      ok := *;
      if !ok {
        Refusals := Refusals + 1;
        return;
      }
      QueuePut(tables.rows, pendingInserts, clearGeneration, key, generation, lastSeq, envelope);
      AdmittedPut(pendingInserts, decodes, durable, key, generation, lastSeq, envelope);
      SeqsPut(tables.rows, pendingInserts, Ceiling, key, generation, lastSeq, envelope);
      pendingInserts := pendingInserts[key := (generation, EncodeRow(lastSeq, envelope))];
      Ceiling := Max(Ceiling, lastSeq + 1);
      Contents := ContentsOf(tables.rows, pendingInserts, clearGeneration);
      var flushAllowed: bool := *;
      if |pendingInserts| >= INSERT_FLUSH_BATCH && flushAllowed {
        FlushPendingInserts();
      }
    }

    /** Decodes here, and may live in a store that outlives the process. */
    predicate Servable(envelope: Envelope) { decodes(envelope) && durable(envelope) }

    /** The write behind the durability gate, which refuses quietly. */
    method InsertAtGeneration(key: string, lastSeq: nat, envelope: Envelope, generation: nat) returns (ok: bool)
      requires Valid() && lastSeq <= U64_MAX && decodes(envelope)
      modifies this
      ensures Valid() && clearGeneration == old(clearGeneration)
      ensures Refusals == old(Refusals) + (if ok then 0 else 1) && Aborts >= old(Aborts)
      ensures !ok || !durable(envelope) ==> Contents == old(Contents)
      ensures ok && durable(envelope) && generation == clearGeneration ==>
                Contents == old(Contents)[key := Stored(lastSeq, Some(envelope))]
      ensures ok && durable(envelope) && generation != clearGeneration ==>
                Contents - {key} == old(Contents) - {key} && ShowsRow(Contents, key, old(tables.rows))
      ensures old(Ceiling) <= Ceiling <= Max(old(Ceiling), lastSeq + 1)
    {
      if !durable(envelope) { return true; }
      ok := WriteAtGeneration(key, lastSeq, envelope, generation);
    }

    /** Commits the queued inserts of the current generation and drops the rest; a failed commit
        queues the kept ones again. No read can tell. */
    method FlushPendingInserts()
      requires Valid()
      modifies this
      ensures Valid() && clearGeneration == old(clearGeneration)
      ensures Contents == old(Contents) && Refusals == old(Refusals) && Aborts >= old(Aborts)
      ensures if Aborts == old(Aborts)
              then tables.rows == old(tables.rows + Kept(pendingInserts, clearGeneration)) && pendingInserts == map[]
              else tables == old(tables) && pendingInserts == Retag(old(Kept(pendingInserts, clearGeneration)), clearGeneration)
      ensures forall k :: k in pendingInserts ==> pendingInserts[k].0 == clearGeneration
      ensures Ceiling == old(Ceiling)
    {
      var commits: bool;
      hide SeqsBelow, Disk.Consistent, ContentsOf, Admitted;
      SeqsFlush(tables.rows, pendingInserts, clearGeneration, Ceiling);
      commits, tables, pendingInserts := FlushQueue(tables, pendingInserts, clearGeneration);
      if !commits { Aborts := Aborts + 1; }
      SubQueueAdmitted(pendingInserts, old(pendingInserts), decodes, durable);
    }

    /** Drops `keys` from the queue and, when the transaction commits, from the tables. Returns the
        bytes durably freed. */
    method RemoveKeys(keys: seq<string>) returns (freed: nat)
      requires Valid()
      modifies this
      ensures Valid() && clearGeneration == old(clearGeneration)
      ensures Contents - KeySet(keys) == old(Contents) - KeySet(keys)
      ensures pendingInserts == old(pendingInserts) - KeySet(keys)
      ensures Refusals == old(Refusals) && Aborts >= old(Aborts)
      ensures if Aborts == old(Aborts)
              then tables.rows == old(tables.rows) - KeySet(keys) && Contents == old(Contents) - KeySet(keys)
              else tables == old(tables)
      ensures freed == ByteSum(old(tables.rows)) - ByteSum(tables.rows)
      ensures Ceiling == old(Ceiling)
    {
      hide Disk.Consistent, ContentsOf, Admitted;
      var commits: bool;
      commits, freed, tables, pendingInserts := DropKeys(tables, pendingInserts, clearGeneration, keys);
      SubQueueAdmitted(pendingInserts, old(pendingInserts), decodes, durable);
      Contents := ContentsOf(tables.rows, pendingInserts, clearGeneration);
      if !commits { Aborts := Aborts + 1; }
    }

    /** Evicts every entry whose key `matches`, queued or committed. */
    method Invalidate(matches: string -> bool)
      requires Valid()
      modifies this
      ensures Valid() && clearGeneration == old(clearGeneration)
      ensures var gone := Matching(old(tables.rows.Keys + pendingInserts.Keys), matches);
              Contents - gone == old(Contents) - gone
      ensures pendingInserts == old(pendingInserts) - Matching(old(pendingInserts).Keys, matches)
      ensures Refusals == old(Refusals) && Aborts >= old(Aborts)
      ensures if Aborts == old(Aborts)
              then tables.rows == old(tables.rows) - Matching(old(tables.rows).Keys, matches)
                   && Contents == old(Contents) - Matching(old(tables.rows.Keys + pendingInserts.Keys), matches)
              else tables == old(tables)
      ensures Ceiling == old(Ceiling)
    {
      hide Disk.Consistent, ContentsOf, Admitted;
      var commits: bool;
      commits, tables, pendingInserts := DropMatches(tables, pendingInserts, clearGeneration, matches);
      SubQueueAdmitted(pendingInserts, old(pendingInserts), decodes, durable);
      Contents := ContentsOf(tables.rows, pendingInserts, clearGeneration);
      if !commits { Aborts := Aborts + 1; }
    }

    /** Wipes the shard. The generation moves first, so whatever a writer captured before this call
        queues stays invisible even if the wipe itself does not commit. */
    method Clear() returns (wiped: bool)
      requires Valid()
      modifies this
      ensures Valid() && clearGeneration == old(clearGeneration) + 1
      ensures pendingInserts == map[]
      ensures Refusals == old(Refusals) && Aborts == old(Aborts) + (if wiped then 0 else 1)
      ensures wiped ==> Contents == map[] && tables == EMPTY_TABLES
      ensures !wiped ==> tables == old(tables) && Contents == Decoded(tables.rows)
      ensures Ceiling == old(Ceiling)
    {
      hide Disk.Consistent, ContentsOf, SeqsBelow, Admitted;
      WipedOrNot(tables.rows, pendingInserts, clearGeneration + 1, Ceiling, decodes, durable);
      clearGeneration := clearGeneration + 1;
      wiped := *;
      if wiped {
        EmptyIsConsistent();
        tables := EMPTY_TABLES;
      } else {
        Aborts := Aborts + 1;
      }
      pendingInserts := map[];
      Contents := Decoded(tables.rows);
    }

    /** Reads an entry and classifies it; a stale, gone, undecodable or non-durable row is evicted. */
    method GetEntry(key: string, world: string -> FileProbe) returns (entry: Option<(Stored, Freshness)>)
      requires Valid()
      modifies this
      ensures Valid() && clearGeneration == old(clearGeneration) && Refusals == old(Refusals) && Aborts >= old(Aborts)
      ensures entry.Some? ==>
                var (stored, freshness) := entry.value;
                && Contents == old(Contents) && key in Contents && stored == Contents[key]
                && stored.lastSeq <= U64_MAX && stored.envelope.Some? && Servable(stored.envelope.value)
                && (freshness == Fresh || freshness == Unknown)
                && IsWorst(freshness, fingerprintsOf(stored.envelope.value), world)
                && (freshness == Unknown <==> SomeUnreadable(fingerprintsOf(stored.envelope.value), world))
      ensures entry.None? ==>
                && Contents - {key} == old(Contents) - {key}
                && (Aborts == old(Aborts) || key !in old(Contents) ==> Contents == old(Contents) - {key})
      ensures entry.None? <==> key !in old(Contents) || Refused(old(Contents)[key], world)
      ensures Ceiling == old(Ceiling)
      ensures entry.Some? ==> entry.value.0.lastSeq < Ceiling
    {
      entry := None;
      var found: Row;
      if key in pendingInserts && pendingInserts[key].0 == clearGeneration {
        found := pendingInserts[key].1;
        assert Kept(pendingInserts, clearGeneration)[key] == found;
      } else {
        if key !in tables.rows {
          assert key !in Contents;
          return;
        }
        found := tables.rows[key];
        var envelope := EnvelopeOf(found);
        if envelope.None? || !decodes(envelope.value) || !durable(envelope.value) {
          var _ := RemoveKeys([key]);
          KeySetOne(key);
          return;
        }
      }
      var envelope := EnvelopeOf(found).value;
      var freshness := CheckFingerprintsStrict(fingerprintsOf(envelope), world);
      WorstMeans(freshness, fingerprintsOf(envelope), world);
      hide IsWorst, SomeUnreadable, SomeMissing, SomeChanged;
      if freshness == Stale || freshness == Gone {
        assert old(Contents)[key] == StoredOf(found);
        var _ := RemoveKeys([key]);
        KeySetOne(key);
        return;
      }
      DecodeLastSeqBound(found);
      entry := Some((StoredOf(found), freshness));
    }

    /** Rows a read evicts instead of serving. */
    ghost predicate Refused(stored: Stored, world: string -> FileProbe) {
      stored.envelope.None? || !Servable(stored.envelope.value)
      || Outdated(fingerprintsOf(stored.envelope.value), world, false)
    }

    /** The preload list, over queued and committed entries alike once the flush commits. */
    method RecentKeys(limit: nat) returns (keys: seq<string>)
      requires Valid()
      modifies this
      ensures Valid() && Contents == old(Contents) && clearGeneration == old(clearGeneration)
      ensures Aborts == old(Aborts) && limit > 0 ==> pendingInserts == map[]
      ensures keys == MostRecent(tables.index, limit)
      ensures NewestFirst(tables.index, limit, keys)
      ensures Ceiling == old(Ceiling)
    {
      hide NewestAt, MostRecent;
      if limit == 0 {
        TakeNothing(tables.index);
        MostRecentIsNewest(tables.index, 0);
        return [];
      }
      FlushPendingInserts();
      keys := WalkRecent(tables.index, limit);
    }

    /** Total bytes, oldest sequence and entry count, each read in constant time; the recency clock
        moves past every stored sequence. */
    method ShardRollup(clock: RecencyClock) returns (totalBytes: nat, oldestSeq: nat, entryCount: nat)
      requires Valid() && clock.Valid()
      modifies this, clock
      ensures Valid() && clock.Valid() && Contents == old(Contents) && clearGeneration == old(clearGeneration)
      ensures totalBytes == ByteSum(tables.rows) && entryCount == |tables.rows|
      ensures IsOldestSeq(tables.rows, oldestSeq)
      ensures clock.next == AfterObserve(old(clock.next), tables.maxSeq)
      ensures Ceiling == old(Ceiling)
    {
      FlushPendingInserts();
      MirrorCount(tables.index, tables.rows);
      totalBytes, entryCount, oldestSeq := tables.totalBytes, tables.entryCount, U64_MAX;
      clock.Observe(tables.maxSeq);
      if entryCount == 0 {
        assert tables.rows == map[];
        totalBytes := 0;
        return;
      }
      oldestSeq := tables.index[0].0;
      FirstIsOldest(tables.index, tables.rows);
    }

    method LowestSeqKeys(n: nat, floor: nat) returns (lowest: seq<IndexRow>)
      requires Valid()
      modifies this
      ensures Valid() && Contents == old(Contents) && clearGeneration == old(clearGeneration)
      ensures Refusals == old(Refusals) && Aborts >= old(Aborts)
      ensures lowest == Oldest(tables.index, n, floor)
      ensures lowest <= tables.index
      ensures |lowest| == if |tables.rows| <= floor then 0 else Min(n, |tables.rows| - floor)
      ensures Ceiling == old(Ceiling)
    {
      if n == 0 { return []; }
      FlushPendingInserts();
      MirrorCount(tables.index, tables.rows);
      lowest := ReadOldest(tables.index, tables.entryCount, n, floor);
    }
  }

  /** The smallest stored sequence, or the top of the range for an empty shard. */
  ghost predicate IsOldestSeq(rows: map<string, Row>, oldest: nat) {
    if rows == map[] then oldest == U64_MAX
    else
      && (forall k :: k in rows ==> oldest <= DecodeLastSeq(rows[k]))
      && (exists k :: k in rows && oldest == DecodeLastSeq(rows[k]))
  }

  lemma FirstIsOldest(index: seq<IndexRow>, rows: map<string, Row>)
    requires IndexMirrors(index, rows) && index != []
    ensures IsOldestSeq(rows, index[0].0)
  {
    assert index[0] in index;
    assert index[0].1 in rows && index[0].0 == DecodeLastSeq(rows[index[0].1]);
    forall k | k in rows ensures index[0].0 <= DecodeLastSeq(rows[k]) {
      assert (DecodeLastSeq(rows[k]), k) in index;
      var i :| 0 <= i < |index| && index[i] == (DecodeLastSeq(rows[k]), k);
      if i > 0 { AscendingAt(index, 0, i); }
    }
  }
}
