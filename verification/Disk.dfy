/** The disk shard: the cache rows, the `(last_seq, key)` index and the running totals that one
    write transaction keeps in step, behind a queue of inserts tagged with a clear generation.
    Models daemon/src/cache/disk.rs. */
module Disk {
  import opened Common
  import opened Orders
  import opened Sums

  const SEQ_PREFIX_LEN: nat := 8

  /** A stored value: eight little-endian bytes of recency sequence, then the envelope. */
  type Row = seq<Byte>
  type IndexRow = (nat, string)

  // ---- The row codec ----

  /** The eight little-endian bytes of a u64, and back. */
  function LeBytes(v: nat): (r: seq<Byte>)
    ensures |r| == SEQ_PREFIX_LEN
  {
    var v1 := v / 256;
    var v2 := v1 / 256;
    var v3 := v2 / 256;
    var v4 := v3 / 256;
    var v5 := v4 / 256;
    var v6 := v5 / 256;
    var v7 := v6 / 256;
    [v % 256, v1 % 256, v2 % 256, v3 % 256, v4 % 256, v5 % 256, v6 % 256, v7 % 256]
  }

  function LeValue(b: seq<Byte>): (v: nat)
    requires |b| >= SEQ_PREFIX_LEN
    ensures v <= U64_MAX
  {
    var b0: int, b1: int, b2: int, b3: int := b[0], b[1], b[2], b[3];
    var b4: int, b5: int, b6: int, b7: int := b[4], b[5], b[6], b[7];
    b0 + 0x100 * b1 + 0x1_0000 * b2 + 0x100_0000 * b3 + 0x1_0000_0000 * b4
    + 0x100_0000_0000 * b5 + 0x1_0000_0000_0000 * b6 + 0x100_0000_0000_0000 * b7
  }

  lemma LeRoundTrip(v: nat, rest: seq<Byte>)
    requires v <= U64_MAX
    ensures LeValue(LeBytes(v) + rest) == v
  {
    var v1 := v / 256;
    var v2 := v1 / 256;
    var v3 := v2 / 256;
    var v4 := v3 / 256;
    var v5 := v4 / 256;
    var v6 := v5 / 256;
    var v7 := v6 / 256;
    assert v7 < 256;
    assert v == v % 256 + 256 * v1 && v1 == v1 % 256 + 256 * v2 && v2 == v2 % 256 + 256 * v3 && v3 == v3 % 256 + 256 * v4;
    assert v4 == v4 % 256 + 256 * v5 && v5 == v5 % 256 + 256 * v6 && v6 == v6 % 256 + 256 * v7;
    var b := LeBytes(v) + rest;
    assert b[0] == v % 256 && b[1] == v1 % 256 && b[2] == v2 % 256 && b[3] == v3 % 256;
    assert b[4] == v4 % 256 && b[5] == v5 % 256 && b[6] == v6 % 256 && b[7] == v7;
  }

  /** The recency sequence of a stored value; a value too short for the prefix reads as oldest. */
  function DecodeLastSeq(row: Row): nat {
    if |row| < SEQ_PREFIX_LEN then 0 else LeValue(row)
  }

  lemma DecodeLastSeqBound(row: Row)
    ensures DecodeLastSeq(row) <= U64_MAX
  {
  }

  function EnvelopeOf(row: Row): Option<seq<Byte>> {
    if |row| < SEQ_PREFIX_LEN then None else Some(row[SEQ_PREFIX_LEN..])
  }

  function EncodeRow(lastSeq: nat, envelope: seq<Byte>): Row {
    LeBytes(lastSeq) + envelope
  }

  lemma EncodeRowRoundTrip(lastSeq: nat, envelope: seq<Byte>)
    requires lastSeq <= U64_MAX
    ensures DecodeLastSeq(EncodeRow(lastSeq, envelope)) == lastSeq
    ensures EnvelopeOf(EncodeRow(lastSeq, envelope)) == Some(envelope)
  {
    LeRoundTrip(lastSeq, envelope);
    assert EncodeRow(lastSeq, envelope)[SEQ_PREFIX_LEN..] == envelope;
  }

  /** A row too short for the prefix has no envelope and counts as the oldest there is. */
  lemma ShortRowsAreOldest(row: Row, other: Row)
    requires |row| < 8
    ensures EnvelopeOf(row).None? && DecodeLastSeq(row) == 0 <= DecodeLastSeq(other)
  {
  }

  /** The row as stored: eight bytes of sequence, the lowest first, then the envelope. */
  lemma PrefixIsLittleEndian(lastSeq: nat, envelope: seq<Byte>)
    requires lastSeq <= U64_MAX
    ensures var row: seq<int> := EncodeRow(lastSeq, envelope);
            && |row| == 8 + |envelope| && row[8..] == envelope
            && lastSeq == row[0] + 0x100 * row[1] + 0x1_0000 * row[2] + 0x100_0000 * row[3] + 0x1_0000_0000 * row[4]
                          + 0x100_0000_0000 * row[5] + 0x1_0000_0000_0000 * row[6] + 0x100_0000_0000_0000 * row[7]
  {
    LeRoundTrip(lastSeq, envelope);
  }

  // ---- The ordered index ----

  predicate RowLt(a: IndexRow, b: IndexRow) {
    RowLe(a, b) && a != b
  }

  /** A table iterates its keys in strictly ascending order. */
  predicate Ascending(index: seq<IndexRow>)
    decreases |index|
  {
    |index| < 2 || (RowLt(index[0], index[1]) && Ascending(index[1..]))
  }

  /** The pairwise reading of the order. */
  lemma {:induction false} AscendingAt(index: seq<IndexRow>, i: nat, j: nat)
    requires Ascending(index) && i < j < |index|
    ensures RowLt(index[i], index[j])
    decreases |index|
  {
    RowLeIsTotal();
    if i > 0 {
      AscendingAt(index[1..], i - 1, j - 1);
    } else if j > 1 {
      AscendingAt(index[1..], 0, j - 1);
      assert RowLe(index[0], index[1]) && RowLe(index[1], index[j]);
    }
  }

  /** The order of the index: by sequence, equal sequences by ascending key, and no row twice. */
  lemma {:induction false} AscendingMeans(index: seq<IndexRow>)
    ensures Ascending(index) <==>
              forall i, j :: 0 <= i < j < |index| ==>
                index[i].0 < index[j].0 || (index[i].0 == index[j].0 && StrLe(index[i].1, index[j].1) && index[i].1 != index[j].1)
    decreases |index|
  {
    if Ascending(index) {
      forall i, j | 0 <= i < j < |index| ensures RowLt(index[i], index[j]) { AscendingAt(index, i, j); }
    } else {
      AscendingMeans(index[1..]);
      assert forall i :: 0 < i < |index| ==> index[1..][i - 1] == index[i];
    }
  }

  lemma AscendingHead(index: seq<IndexRow>, e: IndexRow)
    requires Ascending(index) && index != [] && e in index[1..]
    ensures RowLt(index[0], e)
  {
    var j :| 1 <= j < |index| && index[j] == e;
    AscendingAt(index, 0, j);
  }

  function IndexInsert(index: seq<IndexRow>, row: IndexRow): (r: seq<IndexRow>)
    ensures forall e :: e in r <==> e == row || e in index
  {
    if index == [] then [row]
    else if row == index[0] then index
    else if RowLe(row, index[0]) then [row] + index
    else [index[0]] + IndexInsert(index[1..], row)
  }

  function IndexRemove(index: seq<IndexRow>, row: IndexRow): (r: seq<IndexRow>)
    ensures forall e :: e in r ==> e in index
  {
    if index == [] then []
    else if row == index[0] then index[1..]
    else [index[0]] + IndexRemove(index[1..], row)
  }

  lemma {:induction false} IndexInsertAscending(index: seq<IndexRow>, row: IndexRow)
    requires Ascending(index)
    ensures Ascending(IndexInsert(index, row))
    decreases |index|
  {
    if index != [] && row != index[0] {
      if RowLe(row, index[0]) {
        assert ([row] + index)[1..] == index;
      } else {
        StrLeTotal(row.1, index[0].1);
        IndexInsertAscending(index[1..], row);
        var rest := IndexInsert(index[1..], row);
        assert ([index[0]] + rest)[1..] == rest;
        if rest[0] != row { AscendingHead(index, rest[0]); }
      }
    }
  }

  lemma {:induction false} IndexRemoveAscending(index: seq<IndexRow>, row: IndexRow)
    requires Ascending(index)
    ensures Ascending(IndexRemove(index, row))
    ensures forall e :: e in IndexRemove(index, row) <==> e in index && e != row
    decreases |index|
  {
    if index != [] {
      if row == index[0] {
        forall e | e in index[1..] ensures e != row { AscendingHead(index, e); }
      } else {
        IndexRemoveAscending(index[1..], row);
        var rest := IndexRemove(index[1..], row);
        assert ([index[0]] + rest)[1..] == rest;
        if rest != [] { AscendingHead(index, rest[0]); }
      }
    }
  }

  // ---- The tables of one shard ----

  datatype Tables = Tables(
    rows: map<string, Row>,
    index: seq<IndexRow>,
    totalBytes: nat,
    entryCount: nat,
    maxSeq: nat)

  const EMPTY_TABLES := Tables(map[], [], 0, 0, 0)

  function RowLen(row: Row): nat { |row| }

  /** Bytes held by the rows, the quantity the byte budget counts. */
  ghost function ByteSum(rows: map<string, Row>): nat {
    MapSum(rows, RowLen)
  }

  /** The index holds exactly one `(seq, key)` pair per row. */
  ghost predicate IndexMirrors(index: seq<IndexRow>, rows: map<string, Row>) {
    && Ascending(index)
    && (forall e :: e in index <==> e.1 in rows && e.0 == DecodeLastSeq(rows[e.1]))
  }

  ghost predicate Consistent(t: Tables) {
    && IndexMirrors(t.index, t.rows)
    && t.totalBytes == ByteSum(t.rows)
    && t.entryCount == Count(t.rows)
    && t.maxSeq <= U64_MAX
    && (forall k :: k in t.rows ==> DecodeLastSeq(t.rows[k]) <= t.maxSeq)
  }

  /** Writes the totals back, and `max_seq` when supplied. A negative delta means the stored totals
      had drifted: nothing is written and the caller rebuilds. */
  function WriteSummary(t: Tables, totalBytes: int, entryCount: int, maxSeq: Option<nat>): (r: (Tables, bool))
    ensures r.1 <==> totalBytes >= 0 && entryCount >= 0
    ensures !r.1 ==> r.0 == t
  {
    if totalBytes < 0 || entryCount < 0 then (t, false)
    else (t.(totalBytes := totalBytes, entryCount := entryCount,
             maxSeq := if maxSeq.Some? then maxSeq.value else t.maxSeq), true)
  }

  /** Puts one row: the index entry of the row it replaces goes, its own comes in. */
  function IndexPut(index: seq<IndexRow>, rows: map<string, Row>, key: string, bytes: Row): seq<IndexRow> {
    IndexInsert(if key in rows then IndexRemove(index, (DecodeLastSeq(rows[key]), key)) else index,
                (DecodeLastSeq(bytes), key))
  }

  function IndexDrop(index: seq<IndexRow>, rows: map<string, Row>, key: string): seq<IndexRow> {
    if key in rows then IndexRemove(index, (DecodeLastSeq(rows[key]), key)) else index
  }

  lemma IndexPutMembers(index: seq<IndexRow>, rows: map<string, Row>, key: string, bytes: Row)
    requires Ascending(index)
    ensures Ascending(IndexPut(index, rows, key, bytes))
    ensures forall e :: e in IndexPut(index, rows, key, bytes) <==>
              e == (DecodeLastSeq(bytes), key)
              || (e in index && !(key in rows && e == (DecodeLastSeq(rows[key]), key)))
  {
    if key in rows { IndexRemoveAscending(index, (DecodeLastSeq(rows[key]), key)); }
    IndexInsertAscending(IndexDrop(index, rows, key), (DecodeLastSeq(bytes), key));
  }

  lemma IndexDropMembers(index: seq<IndexRow>, rows: map<string, Row>, key: string)
    requires Ascending(index)
    ensures Ascending(IndexDrop(index, rows, key))
    ensures forall e :: e in IndexDrop(index, rows, key) <==>
              e in index && !(key in rows && e == (DecodeLastSeq(rows[key]), key))
  {
    if key in rows { IndexRemoveAscending(index, (DecodeLastSeq(rows[key]), key)); }
  }

  lemma IndexPutMirrors(index: seq<IndexRow>, rows: map<string, Row>, key: string, bytes: Row)
    requires IndexMirrors(index, rows)
    ensures IndexMirrors(IndexPut(index, rows, key, bytes), rows[key := bytes])
  {
    IndexPutMembers(index, rows, key, bytes);
  }

  /** The index after a batch of inserts, whatever it held before: the batch's own pairs, and every
      old entry except the pair of a row the batch replaced. */
  ghost predicate IndexAfterInserts(index: seq<IndexRow>, rows: map<string, Row>,
                                    pending: map<string, Row>, index': seq<IndexRow>)
  {
    forall e :: e in index' <==>
      || (e.1 in pending && e.0 == DecodeLastSeq(pending[e.1]))
      || (e in index && !(e.1 in pending && e.1 in rows && e.0 == DecodeLastSeq(rows[e.1])))
  }

  ghost predicate IndexAfterRemovals(index: seq<IndexRow>, rows: map<string, Row>,
                                     keys: set<string>, index': seq<IndexRow>)
  {
    forall e :: e in index' <==>
      e in index && !(e.1 in keys && e.1 in rows && e.0 == DecodeLastSeq(rows[e.1]))
  }

  lemma IndexAfterInsertsStep(index: seq<IndexRow>, rows: map<string, Row>, done: map<string, Row>,
                              index': seq<IndexRow>, key: string, bytes: Row)
    requires Ascending(index') && IndexAfterInserts(index, rows, done, index') && key !in done
    ensures Ascending(IndexPut(index', rows + done, key, bytes))
    ensures IndexAfterInserts(index, rows, done[key := bytes], IndexPut(index', rows + done, key, bytes))
  {
    IndexPutMembers(index', rows + done, key, bytes);
    assert key in rows + done <==> key in rows;
  }

  lemma IndexAfterRemovalsStep(index: seq<IndexRow>, rows: map<string, Row>, dropped: set<string>,
                               index': seq<IndexRow>, key: string)
    requires Ascending(index') && IndexAfterRemovals(index, rows, dropped, index')
    ensures Ascending(IndexDrop(index', rows - dropped, key))
    ensures IndexAfterRemovals(index, rows, dropped + {key}, IndexDrop(index', rows - dropped, key))
  {
    IndexDropMembers(index', rows - dropped, key);
  }

  lemma InsertsKeepMirror(index: seq<IndexRow>, rows: map<string, Row>, pending: map<string, Row>, index': seq<IndexRow>)
    requires IndexMirrors(index, rows) && Ascending(index') && IndexAfterInserts(index, rows, pending, index')
    ensures IndexMirrors(index', rows + pending)
  {
  }

  lemma RemovalsKeepMirror(index: seq<IndexRow>, rows: map<string, Row>, keys: set<string>, index': seq<IndexRow>)
    requires IndexMirrors(index, rows) && Ascending(index') && IndexAfterRemovals(index, rows, keys, index')
    ensures IndexMirrors(index', rows - keys)
  {
  }

  /** `max_seq` is the largest stored sequence, or 0 of an empty table. */
  ghost predicate IsMaxSeq(rows: map<string, Row>, maxSeq: nat) {
    && maxSeq <= U64_MAX
    && (forall k :: k in rows ==> DecodeLastSeq(rows[k]) <= maxSeq)
    && (maxSeq == 0 || exists k :: k in rows && DecodeLastSeq(rows[k]) == maxSeq)
  }

  lemma IsMaxSeqStep(rows: map<string, Row>, maxSeq: nat, key: string, bytes: Row)
    requires IsMaxSeq(rows, maxSeq) && key !in rows
    ensures IsMaxSeq(rows[key := bytes], if DecodeLastSeq(bytes) > maxSeq then DecodeLastSeq(bytes) else maxSeq)
  {
    var rows' := rows[key := bytes];
    DecodeLastSeqBound(bytes);
    assert key in rows';
    if maxSeq != 0 {
      var k :| k in rows && DecodeLastSeq(rows[k]) == maxSeq;
      assert k in rows' && rows'[k] == rows[k];
    }
  }

  /** One more key of `m` visited: the visited part is `m` without the keys still to do. */
  lemma VisitedStep(m: map<string, Row>, todo: set<string>, key: string)
    requires key in todo && todo <= m.Keys
    ensures key !in m - todo
    ensures m - (todo - {key}) == (m - todo)[key := m[key]]
    ensures |todo - {key}| < |todo|
  {
  }

  /** Recomputes the index and the totals from a full scan of the rows, in any scan order. */
  method RebuildSummary(t: Tables) returns (t': Tables)
    ensures t'.rows == t.rows
    ensures Consistent(t') && IsMaxSeq(t'.rows, t'.maxSeq)
  {
    var index: seq<IndexRow> := [];
    var totalBytes, entryCount, maxSeq: nat := 0, 0, 0;
    var todo := t.rows.Keys;
    assert t.rows - todo == map[];
    while todo != {}
      invariant todo <= t.rows.Keys
      invariant IndexMirrors(index, t.rows - todo)
      invariant totalBytes == ByteSum(t.rows - todo)
      invariant entryCount == Count(t.rows - todo)
      invariant IsMaxSeq(t.rows - todo, maxSeq)
      decreases |todo|
    {
      var key :| key in todo;
      var bytes := t.rows[key];
      var seqNo := DecodeLastSeq(bytes);
      VisitedStep(t.rows, todo, key);
      IsMaxSeqStep(t.rows - todo, maxSeq, key, bytes);
      IndexPutMirrors(index, t.rows - todo, key, bytes);
      PutGrows(t.rows - todo, key, bytes);
      totalBytes := totalBytes + |bytes|;
      entryCount := entryCount + 1;
      if seqNo > maxSeq { maxSeq := seqNo; }
      index := IndexInsert(index, (seqNo, key));
      todo := todo - {key};
    }
    assert t.rows - todo == t.rows;
    t' := WriteSummary(t.(index := index), totalBytes, entryCount, Some(maxSeq)).0;
  }

  /** The rows and totals of a batch once the rows `done` are in. */
  ghost predicate InsertTotals(t: Tables, done: map<string, Row>, rows: map<string, Row>,
                               totalBytes: int, entryCount: int, maxSeq: nat)
  {
    && rows == t.rows + done
    && totalBytes == t.totalBytes + ByteSum(rows) - ByteSum(t.rows)
    && entryCount == t.entryCount + Count(rows) - Count(t.rows)
    && entryCount >= t.entryCount && maxSeq >= t.maxSeq && (maxSeq == t.maxSeq || maxSeq <= U64_MAX)
    && (forall k :: k in done ==> DecodeLastSeq(done[k]) <= maxSeq)
  }

  lemma MergePut(rows: map<string, Row>, done: map<string, Row>, key: string, bytes: Row)
    ensures (rows + done)[key := bytes] == rows + done[key := bytes]
  {
  }

  lemma PutGrows(rows: map<string, Row>, key: string, bytes: Row)
    ensures Count(rows[key := bytes]) == Count(rows) + (if key in rows then 0 else 1)
    ensures ByteSum(rows[key := bytes]) == ByteSum(rows) + |bytes| - (if key in rows then |rows[key]| else 0)
  {
    MapSumUpdate(rows, RowLen, key, bytes);
    CountUpdate(rows, key, bytes);
  }

  lemma InsertTotalsStep(t: Tables, done: map<string, Row>, rows: map<string, Row>,
                         totalBytes: int, entryCount: int, maxSeq: nat, key: string, bytes: Row)
    requires InsertTotals(t, done, rows, totalBytes, entryCount, maxSeq) && key !in done
    ensures InsertTotals(t, done[key := bytes], rows[key := bytes],
              totalBytes + |bytes| - (if key in rows then |rows[key]| else 0),
              entryCount + (if key in rows then 0 else 1),
              if DecodeLastSeq(bytes) > maxSeq then DecodeLastSeq(bytes) else maxSeq)
  {
    DecodeLastSeqBound(bytes);
    MergePut(t.rows, done, key, bytes);
    PutGrows(rows, key, bytes);
  }

  ghost predicate InsertsSoFar(t: Tables, done: map<string, Row>, rows: map<string, Row>, index: seq<IndexRow>,
                               totalBytes: int, entryCount: int, maxSeq: nat)
  {
    && InsertTotals(t, done, rows, totalBytes, entryCount, maxSeq)
    && Ascending(index) && IndexAfterInserts(t.index, t.rows, done, index)
  }

  lemma InsertsSoFarStep(t: Tables, done: map<string, Row>, rows: map<string, Row>, index: seq<IndexRow>,
                         totalBytes: int, entryCount: int, maxSeq: nat, key: string, bytes: Row)
    requires InsertsSoFar(t, done, rows, index, totalBytes, entryCount, maxSeq) && key !in done
    ensures InsertsSoFar(t, done[key := bytes], rows[key := bytes], IndexPut(index, rows, key, bytes),
              totalBytes + |bytes| - (if key in rows then |rows[key]| else 0),
              entryCount + (if key in rows then 0 else 1),
              if DecodeLastSeq(bytes) > maxSeq then DecodeLastSeq(bytes) else maxSeq)
  {
    InsertTotalsStep(t, done, rows, totalBytes, entryCount, maxSeq, key, bytes);
    IndexAfterInsertsStep(t.index, t.rows, done, index, key, bytes);
  }

  lemma InsertsKeepConsistent(t: Tables, pending: map<string, Row>, t': Tables)
    requires InsertsSoFar(t, pending, t'.rows, t'.index, t'.totalBytes, t'.entryCount, t'.maxSeq)
    requires Consistent(t)
    ensures Consistent(t')
  {
    InsertsKeepMirror(t.index, t.rows, pending, t'.index);
  }

  /** The rows, index and totals after folding a batch in, in any order. */
  method FoldInserts(t: Tables, pending: map<string, Row>)
    returns (rows: map<string, Row>, index: seq<IndexRow>, totalBytes: int, entryCount: int, maxSeq: nat)
    requires Ascending(t.index)
    ensures InsertsSoFar(t, pending, rows, index, totalBytes, entryCount, maxSeq)
  {
    rows, index := t.rows, t.index;
    totalBytes, entryCount, maxSeq := t.totalBytes, t.entryCount, t.maxSeq;
    var todo := pending.Keys;
    assert pending - todo == map[] && t.rows + map[] == t.rows;
    while todo != {}
      invariant todo <= pending.Keys
      invariant InsertsSoFar(t, pending - todo, rows, index, totalBytes, entryCount, maxSeq)
      decreases |todo|
    {
      var key :| key in todo;
      var bytes := pending[key];
      var newSeq := DecodeLastSeq(bytes);
      VisitedStep(pending, todo, key);
      InsertsSoFarStep(t, pending - todo, rows, index, totalBytes, entryCount, maxSeq, key, bytes);
      if key in rows {
        var prior := rows[key];
        index := IndexRemove(index, (DecodeLastSeq(prior), key));
        totalBytes := totalBytes + |bytes| - |prior|;
      } else {
        totalBytes := totalBytes + |bytes|;
        entryCount := entryCount + 1;
      }
      index := IndexInsert(index, (newSeq, key));
      if newSeq > maxSeq { maxSeq := newSeq; }
      rows := rows[key := bytes];
      todo := todo - {key};
    }
    assert pending - todo == pending;
  }

  /** Commits a batch of queued inserts, replacing the rows they supersede. */
  method WritePendingInserts(t: Tables, pending: map<string, Row>) returns (t': Tables)
    requires Ascending(t.index)
    ensures t'.rows == t.rows + pending && Ascending(t'.index)
    ensures Consistent(t) ==> Consistent(t')
    ensures if t.totalBytes + ByteSum(t'.rows) - ByteSum(t.rows) < 0 then Consistent(t')
            else InsertsSoFar(t, pending, t'.rows, t'.index, t'.totalBytes, t'.entryCount, t'.maxSeq)
  {
    var rows, index, totalBytes, entryCount, maxSeq := FoldInserts(t, pending);
    var summary := WriteSummary(t.(rows := rows, index := index), totalBytes, entryCount, Some(maxSeq));
    t' := summary.0;
    if summary.1 {
      if Consistent(t) { InsertsKeepConsistent(t, pending, t'); }
    } else {
      t' := RebuildSummary(t');
    }
  }

  function KeySet(keys: seq<string>): set<string> { set k | k in keys }

  ghost predicate RemovalsSoFar(t: Tables, dropped: set<string>, rows: map<string, Row>, index: seq<IndexRow>,
                                totalBytes: int, entryCount: int, freed: nat)
  {
    && rows == t.rows - dropped
    && Ascending(index) && IndexAfterRemovals(t.index, t.rows, dropped, index)
    && freed == ByteSum(t.rows) - ByteSum(rows)
    && totalBytes == t.totalBytes - freed
    && entryCount == t.entryCount + Count(rows) - Count(t.rows)
  }

  lemma RemovalsSoFarStep(t: Tables, dropped: set<string>, rows: map<string, Row>, index: seq<IndexRow>,
                          totalBytes: int, entryCount: int, freed: nat, key: string)
    requires RemovalsSoFar(t, dropped, rows, index, totalBytes, entryCount, freed)
    ensures var len := if key in rows then |rows[key]| else 0;
            RemovalsSoFar(t, dropped + {key}, rows - {key}, IndexDrop(index, rows, key),
              totalBytes - len, entryCount - (if key in rows then 1 else 0), freed + len)
  {
    assert t.rows - (dropped + {key}) == rows - {key};
    if key in rows { MapSumRemove(rows, RowLen, key); CountRemove(rows, key); }
    else { assert rows - {key} == rows; }
    IndexAfterRemovalsStep(t.index, t.rows, dropped, index, key);
  }

  lemma RemovalsKeepConsistent(t: Tables, keys: set<string>, t': Tables, freed: nat)
    requires Consistent(t) && t'.maxSeq == t.maxSeq
    requires RemovalsSoFar(t, keys, t'.rows, t'.index, t'.totalBytes, t'.entryCount, freed)
    ensures Consistent(t')
  {
    RemovalsKeepMirror(t.index, t.rows, keys, t'.index);
  }

  lemma KeySetExtend(keys: seq<string>, i: nat)
    requires i < |keys|
    ensures KeySet(keys[..i + 1]) == KeySet(keys[..i]) + {keys[i]}
  {
    assert keys[..i + 1] == keys[..i] + [keys[i]];
  }

  method FoldRemovals(t: Tables, keys: seq<string>)
    returns (rows: map<string, Row>, index: seq<IndexRow>, totalBytes: int, entryCount: int, freed: nat)
    requires Ascending(t.index)
    ensures RemovalsSoFar(t, KeySet(keys), rows, index, totalBytes, entryCount, freed)
  {
    rows, index := t.rows, t.index;
    totalBytes, entryCount, freed := t.totalBytes, t.entryCount, 0;
    for i := 0 to |keys|
      invariant RemovalsSoFar(t, KeySet(keys[..i]), rows, index, totalBytes, entryCount, freed)
    {
      var key := keys[i];
      KeySetExtend(keys, i);
      RemovalsSoFarStep(t, KeySet(keys[..i]), rows, index, totalBytes, entryCount, freed, key);
      if key in rows {
        var prior := rows[key];
        index := IndexRemove(index, (DecodeLastSeq(prior), key));
        totalBytes := totalBytes - |prior|;
        entryCount := entryCount - 1;
        freed := freed + |prior|;
        rows := rows - {key};
      } else {
        assert rows - {key} == rows;
      }
    }
    assert keys[..|keys|] == keys;
  }

  /** Removes `keys`, which may repeat and may name absent rows, and reports the bytes freed. */
  method MaintainRemovals(t: Tables, keys: seq<string>) returns (t': Tables, freed: nat)
    requires Ascending(t.index)
    ensures t'.rows == t.rows - KeySet(keys) && Ascending(t'.index)
    ensures freed == ByteSum(t.rows) - ByteSum(t'.rows)
    ensures Consistent(t) ==> Consistent(t') && t'.maxSeq == t.maxSeq
    ensures if t.totalBytes - freed < 0 || t.entryCount + Count(t'.rows) - Count(t.rows) < 0 then Consistent(t')
            else t'.maxSeq == t.maxSeq
                 && RemovalsSoFar(t, KeySet(keys), t'.rows, t'.index, t'.totalBytes, t'.entryCount, freed)
  {
    var rows, index, totalBytes, entryCount, bytes := FoldRemovals(t, keys);
    freed := bytes;
    var summary := WriteSummary(t.(rows := rows, index := index), totalBytes, entryCount, None);
    t' := summary.0;
    if summary.1 {
      if Consistent(t) { RemovalsKeepConsistent(t, KeySet(keys), t', freed); }
    } else {
      t' := RebuildSummary(t');
    }
  }
}
