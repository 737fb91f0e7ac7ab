/** Ignore-rule globs: the memoised matcher and what a pattern means.
    Models `glob_matches_path`, `glob_matches_exact` and `glob_matches_at` in
    daemon/src/document/ignore.rs over UTF-8 bytes. */
module Glob {
  import opened Common

  type Bytes = seq<Byte>

  const STAR: Byte := 42
  const SLASH: Byte := 47
  const BACKSLASH: Byte := 92

  // ---- What a pattern means ----

  datatype Token = AnyText | AnySegment | Literal(byte: Byte)

  function Tokens(pattern: Bytes): seq<Token> {
    if pattern == [] then []
    else if pattern[0] == STAR && |pattern| > 1 && pattern[1] == STAR then [AnyText] + Tokens(pattern[2..])
    else if pattern[0] == STAR then [AnySegment] + Tokens(pattern[1..])
    else [Literal(pattern[0])] + Tokens(pattern[1..])
  }

  /** `**` takes any text, `*` any text without a slash, any other byte itself. */
  predicate Takes(t: Token, piece: Bytes) {
    match t
    case AnyText => true
    case AnySegment => SLASH !in piece
    case Literal(b) => piece == [b]
  }

  function Joined(pieces: seq<Bytes>): Bytes {
    if pieces == [] then [] else pieces[0] + Joined(pieces[1..])
  }

  ghost predicate Fits(tokens: seq<Token>, pieces: seq<Bytes>) {
    |pieces| == |tokens| && forall i :: 0 <= i < |tokens| ==> Takes(tokens[i], pieces[i])
  }

  /** The value splits into one piece per token, each taken by its token. */
  ghost predicate Matches(pattern: Bytes, value: Bytes) {
    exists pieces :: Fits(Tokens(pattern), pieces) && Joined(pieces) == value
  }

  // ---- The recursive reading ----

  predicate DoubleStar(pattern: Bytes) { |pattern| > 1 && pattern[0] == STAR && pattern[1] == STAR }

  /** Token by token and byte by byte, as the matcher looks at suffixes. */
  predicate Derives(pattern: Bytes, value: Bytes)
    decreases |pattern|, |value|
  {
    if pattern == [] then value == []
    else if DoubleStar(pattern) then Derives(pattern[2..], value) || (value != [] && Derives(pattern, value[1..]))
    else if pattern[0] == STAR then
      Derives(pattern[1..], value) || (value != [] && value[0] != SLASH && Derives(pattern, value[1..]))
    else value != [] && pattern[0] == value[0] && Derives(pattern[1..], value[1..])
  }

  lemma TokensStep(pattern: Bytes)
    requires pattern != []
    ensures var rest := if DoubleStar(pattern) then pattern[2..] else pattern[1..];
            Tokens(pattern)[1..] == Tokens(rest) && Tokens(pattern) == [Tokens(pattern)[0]] + Tokens(rest)
  {
  }

  /** One more piece in front. */
  lemma PrependPiece(pattern: Bytes, piece: Bytes, value: Bytes)
    requires pattern != [] && Takes(Tokens(pattern)[0], piece)
    requires Matches(if DoubleStar(pattern) then pattern[2..] else pattern[1..], value)
    ensures Matches(pattern, piece + value)
  {
    TokensStep(pattern);
    var rest := if DoubleStar(pattern) then pattern[2..] else pattern[1..];
    var pieces :| Fits(Tokens(rest), pieces) && Joined(pieces) == value;
    assert ([piece] + pieces)[1..] == pieces;
    assert Fits(Tokens(pattern), [piece] + pieces) && Joined([piece] + pieces) == piece + value;
  }

  /** A star's first piece may be one byte longer. */
  lemma GrowPiece(pattern: Bytes, value: Bytes)
    requires pattern != [] && pattern[0] == STAR && value != []
    requires DoubleStar(pattern) || value[0] != SLASH
    requires Matches(pattern, value[1..])
    ensures Matches(pattern, value)
  {
    var pieces :| Fits(Tokens(pattern), pieces) && Joined(pieces) == value[1..];
    assert Takes(Tokens(pattern)[0], pieces[0]);
    var longer := [value[0]] + pieces[0];
    var pieces' := [longer] + pieces[1..];
    assert pieces'[1..] == pieces[1..];
    assert value == [value[0]] + value[1..];
    assert Fits(Tokens(pattern), pieces') && Joined(pieces') == value;
  }

  lemma {:induction false} DerivesIsSound(pattern: Bytes, value: Bytes)
    requires Derives(pattern, value)
    ensures Matches(pattern, value)
    decreases |pattern|, |value|
  {
    if pattern == [] {
      assert Fits(Tokens([]), []) && Joined([]) == value;
    } else if pattern[0] == STAR {
      var rest := if DoubleStar(pattern) then pattern[2..] else pattern[1..];
      if Derives(rest, value) {
        DerivesIsSound(rest, value);
        PrependPiece(pattern, [], value);
        assert [] + value == value;
      } else {
        DerivesIsSound(pattern, value[1..]);
        GrowPiece(pattern, value);
      }
    } else {
      DerivesIsSound(pattern[1..], value[1..]);
      PrependPiece(pattern, [value[0]], value[1..]);
      assert [value[0]] + value[1..] == value;
    }
  }

  lemma {:induction false} DerivesIsComplete(pattern: Bytes, value: Bytes, pieces: seq<Bytes>)
    requires Fits(Tokens(pattern), pieces) && Joined(pieces) == value
    ensures Derives(pattern, value)
    decreases |pattern|, |value|
  {
    if pattern != [] {
      TokensStep(pattern);
      var rest := if DoubleStar(pattern) then pattern[2..] else pattern[1..];
      var first := pieces[0];
      assert Takes(Tokens(pattern)[0], first);
      if first == [] {
        assert first + Joined(pieces[1..]) == Joined(pieces[1..]);
        DerivesIsComplete(rest, value, pieces[1..]);
      } else {
        assert value[0] == first[0];
        var pieces' := [first[1..]] + pieces[1..];
        assert pieces'[1..] == pieces[1..];
        assert Joined(pieces') == value[1..];
        if pattern[0] == STAR {
          DerivesIsComplete(pattern, value[1..], pieces');
        } else {
          assert first[1..] == [] && Joined(pieces[1..]) == value[1..];
          DerivesIsComplete(rest, value[1..], pieces[1..]);
        }
      }
    }
  }

  /** The recursive reading is the declared meaning, for every pattern and value. */
  lemma DerivesIsMeaning(pattern: Bytes, value: Bytes)
    ensures Derives(pattern, value) <==> Matches(pattern, value)
  {
    if Derives(pattern, value) { DerivesIsSound(pattern, value); }
    if Matches(pattern, value) {
      var pieces :| Fits(Tokens(pattern), pieces) && Joined(pieces) == value;
      DerivesIsComplete(pattern, value, pieces);
    }
  }

  // ---- The memo table ----

  type Cell = (nat, nat)

  predicate Sized(memo: array2<Option<bool>>, pattern: Bytes, value: Bytes) {
    memo.Length0 == |pattern| + 1 && memo.Length1 == |value| + 1
  }

  /** The filled cells and what they hold. */
  ghost function Table(memo: array2<Option<bool>>): map<Cell, bool>
    reads memo
  {
    map i, j | 0 <= i < memo.Length0 && 0 <= j < memo.Length1 && memo[i, j].Some? :: (i, j) := memo[i, j].value
  }

  /** Every filled cell holds the meaning of its two suffixes. */
  ghost predicate TableOk(table: map<Cell, bool>, pattern: Bytes, value: Bytes) {
    forall c :: c in table ==>
      c.0 <= |pattern| && c.1 <= |value| && table[c] == Derives(pattern[c.0..], value[c.1..])
  }

  /** `log` lists, once each, the cells filled since; the others are as they were. */
  ghost predicate Filled(before: map<Cell, bool>, log: seq<Cell>, after: map<Cell, bool>) {
    && (forall a, b :: 0 <= a < b < |log| ==> log[a] != log[b])
    && (forall c :: c in log ==> c !in before)
    && (forall c :: c in after <==> c in before || c in log)
    && (forall c :: c in before ==> after[c] == before[c])
  }

  lemma FilledThen(t0: map<Cell, bool>, log: seq<Cell>, t1: map<Cell, bool>, more: seq<Cell>, t2: map<Cell, bool>)
    requires Filled(t0, log, t1) && Filled(t1, more, t2)
    ensures Filled(t0, log + more, t2)
  {
    var all := log + more;
    forall a, b | 0 <= a < b < |all| ensures all[a] != all[b] {
      if a < |log| <= b { assert all[a] in log && all[b] in more; }
    }
  }

  lemma FillOne(t: map<Cell, bool>, c: Cell, result: bool)
    requires c !in t
    ensures Filled(t, [c], t[c := result])
  {
  }

  /** The cells at or beyond both positions. */
  ghost predicate Beyond(log: seq<Cell>, p: nat, v: nat) {
    forall c :: c in log ==> c.0 >= p && c.1 >= v
  }

  /** Stores one decided cell. */
  method Fill(memo: array2<Option<bool>>, p: nat, v: nat, result: bool)
    requires p < memo.Length0 && v < memo.Length1 && (p, v) !in Table(memo)
    modifies memo
    ensures Table(memo) == old(Table(memo))[(p, v) := result]
    ensures Filled(old(Table(memo)), [(p, v)], Table(memo))
  {
    memo[p, v] := Some(result);
    FillOne(old(Table(memo)), (p, v), result);
  }

  /** Decides the suffixes at `(p, v)`, consulting and filling the table. `log` is the cells it computed:
      each was empty before and each was computed once. */
  method GlobMatchesAt(pattern: Bytes, value: Bytes, p: nat, v: nat, memo: array2<Option<bool>>)
    returns (result: bool, ghost log: seq<Cell>)
    requires Sized(memo, pattern, value) && TableOk(Table(memo), pattern, value)
    requires p <= |pattern| && v <= |value|
    modifies memo
    ensures TableOk(Table(memo), pattern, value) && (p, v) in Table(memo)
    ensures result == Derives(pattern[p..], value[v..])
    ensures Filled(old(Table(memo)), log, Table(memo)) && Beyond(log, p, v)
    decreases |pattern| - p, |value| - v
  {
    hide Filled, Table, Derives;
    log := [];
    var known := memo[p, v];
    Lookup(memo, p, v);
    if known.Some? {
      NothingFilled(Table(memo));
      return known.value, log;
    }
    result, log := Compute(pattern, value, p, v, memo);
    ghost var t1 := Table(memo);
    StillEmpty(old(Table(memo)), log, t1, (p, v));
    Fill(memo, p, v, result);
    FilledThen(old(Table(memo)), log, t1, [(p, v)], Table(memo));
    log := log + [(p, v)];
  }

  lemma Lookup(memo: array2<Option<bool>>, p: nat, v: nat)
    requires p < memo.Length0 && v < memo.Length1
    ensures (p, v) in Table(memo) <==> memo[p, v].Some?
    ensures memo[p, v].Some? ==> Table(memo)[(p, v)] == memo[p, v].value
  {
  }

  lemma NothingFilled(t: map<Cell, bool>)
    ensures Filled(t, [], t)
  {
  }

  lemma StillEmpty(t0: map<Cell, bool>, log: seq<Cell>, t1: map<Cell, bool>, c: Cell)
    requires Filled(t0, log, t1) && c !in t0 && c !in log
    ensures c !in t1
  {
  }

  /** The rule at two positions, in terms of later ones. */
  lemma DerivesAt(pattern: Bytes, value: Bytes, p: nat, v: nat)
    requires p <= |pattern| && v <= |value|
    ensures p == |pattern| ==> (Derives(pattern[p..], value[v..]) <==> v == |value|)
    ensures p < |pattern| && pattern[p] == STAR ==>
              var double := p + 1 < |pattern| && pattern[p + 1] == STAR;
              (Derives(pattern[p..], value[v..]) <==>
                 || Derives(pattern[if double then p + 2 else p + 1..], value[v..])
                 || (v < |value| && (double || value[v] != SLASH) && Derives(pattern[p..], value[v + 1..])))
    ensures p < |pattern| && pattern[p] != STAR ==>
              (Derives(pattern[p..], value[v..]) <==>
                 v < |value| && pattern[p] == value[v] && Derives(pattern[p + 1..], value[v + 1..]))
  {
    if p < |pattern| {
      assert pattern[p..][1..] == pattern[p + 1..];
      if p + 1 < |pattern| { assert pattern[p..][2..] == pattern[p + 2..]; }
      if v < |value| { assert value[v..][1..] == value[v + 1..]; }
    }
  }

  /** One cell's rule: only cells strictly beyond it are consulted. */
  method Compute(pattern: Bytes, value: Bytes, p: nat, v: nat, memo: array2<Option<bool>>)
    returns (result: bool, ghost log: seq<Cell>)
    requires Sized(memo, pattern, value) && TableOk(Table(memo), pattern, value)
    requires p <= |pattern| && v <= |value|
    modifies memo
    ensures TableOk(Table(memo), pattern, value)
    ensures result == Derives(pattern[p..], value[v..])
    ensures Filled(old(Table(memo)), log, Table(memo)) && Beyond(log, p, v) && (p, v) !in log
    decreases |pattern| - p, |value| - v, 0
  {
    hide Filled, Table, TableOk, Derives;
    log := [];
    NothingFilled(Table(memo));
    DerivesAt(pattern, value, p, v);
    if p == |pattern| {
      result := v == |value|;
    } else if pattern[p] == STAR {
      var double := p + 1 < |pattern| && pattern[p + 1] == STAR;
      var next := if double then p + 2 else p + 1;
      result, log := GlobMatchesAt(pattern, value, next, v, memo);
      if !result && v < |value| && (double || value[v] != SLASH) {
        ghost var t1 := Table(memo);
        ghost var more;
        result, more := GlobMatchesAt(pattern, value, p, v + 1, memo);
        FilledThen(old(Table(memo)), log, t1, more, Table(memo));
        log := log + more;
      }
    } else if v < |value| && pattern[p] == value[v] {
      result, log := GlobMatchesAt(pattern, value, p + 1, v + 1, memo);
    } else {
      result := false;
    }
  }

  function Row(i: nat, w: nat): set<Cell> { set j: nat | j < w :: (i, j) }

  function Grid(h: nat, w: nat): set<Cell> {
    if h == 0 then {} else Grid(h - 1, w) + Row(h - 1, w)
  }

  lemma {:induction false} RowSize(i: nat, w: nat)
    ensures |Row(i, w)| == w
  {
    if w > 0 {
      RowSize(i, w - 1);
      assert Row(i, w) == Row(i, w - 1) + {(i, w - 1)};
    }
  }

  lemma {:induction false} GridHolds(h: nat, w: nat, c: Cell)
    ensures c in Grid(h, w) <==> c.0 < h && c.1 < w
  {
    if h > 0 {
      GridHolds(h - 1, w, c);
      assert c in Row(h - 1, w) <==> c.0 == h - 1 && c.1 < w;
    }
  }

  lemma GridRowDisjoint(h: nat, w: nat)
    ensures Grid(h, w) !! Row(h, w)
  {
    forall c | c in Grid(h, w) ensures c.0 < h { GridHolds(h, w, c); }
  }

  lemma GridGrows(h: nat, w: nat)
    ensures |Grid(h + 1, w)| == |Grid(h, w)| + w
  {
    RowSize(h, w);
    GridRowDisjoint(h, w);
    hide Row;
    assert Grid(h + 1, w) == Grid(h, w) + Row(h, w);
  }

  lemma RowsAdd(h: nat, w: nat)
    ensures 0 * w == 0 && h * w + w == (h + 1) * w
  {
  }

  lemma {:induction false} GridSize(h: nat, w: nat)
    ensures |Grid(h, w)| == h * w
  {
    if h == 0 {
      RowsAdd(0, w);
    } else {
      hide Grid;
      GridSize(h - 1, w);
      GridGrows(h - 1, w);
      RowsAdd(h - 1, w);
    }
  }

  /** Distinct cells of a set are no more than the set holds. */
  lemma {:induction false} DistinctFit(log: seq<Cell>, cells: set<Cell>)
    requires forall a, b :: 0 <= a < b < |log| ==> log[a] != log[b]
    requires forall c :: c in log ==> c in cells
    ensures |log| <= |cells|
  {
    if log != [] {
      assert log[0] in cells;
      forall c | c in log[1..] ensures c in cells - {log[0]} {
        var k :| 0 <= k < |log[1..]| && log[1..][k] == c;
        assert log[k + 1] == c && log[k + 1] in log;
      }
      DistinctFit(log[1..], cells - {log[0]});
    }
  }

  /** Whole pattern against whole value. `table` is the memo in the end and `log` the cells computed, exactly those it
      holds, none twice: so never more than one per pair of suffixes. */
  method GlobMatchesExact(pattern: Bytes, value: Bytes) returns (result: bool, ghost log: seq<Cell>, ghost table: map<Cell, bool>)
    ensures result <==> Matches(pattern, value)
    ensures Filled(map[], log, table) && TableOk(table, pattern, value)
    ensures (0, 0) in table && table[(0, 0)] == result
    ensures |log| <= (|pattern| + 1) * (|value| + 1)
  {
    hide Filled;
    var memo := new Option<bool>[|pattern| + 1, |value| + 1]((_, _) => None);
    assert Table(memo) == map[];
    result, log := GlobMatchesAt(pattern, value, 0, 0, memo);
    table := Table(memo);
    assert pattern[0..] == pattern && value[0..] == value;
    DerivesIsMeaning(pattern, value);
    LogFits(pattern, value, log, table);
  }

  lemma LogFits(pattern: Bytes, value: Bytes, log: seq<Cell>, table: map<Cell, bool>)
    requires Filled(map[], log, table) && TableOk(table, pattern, value)
    ensures |log| <= (|pattern| + 1) * (|value| + 1)
  {
    forall c | c in log ensures c in Grid(|pattern| + 1, |value| + 1) {
      assert c in table;
      GridHolds(|pattern| + 1, |value| + 1, c);
    }
    DistinctFit(log, Grid(|pattern| + 1, |value| + 1));
    GridSize(|pattern| + 1, |value| + 1);
  }

  // ---- Paths ----

  function NormalizePath(text: Bytes): (r: Bytes)
    ensures |r| == |text| && BACKSLASH !in r
    ensures forall i :: 0 <= i < |text| ==> r[i] == if text[i] == BACKSLASH then SLASH else text[i]
  {
    seq(|text|, i requires 0 <= i < |text| => if text[i] == BACKSLASH then SLASH else text[i])
  }

  /** The text without its trailing slashes. */
  function TrimEnd(text: Bytes): (r: Bytes)
    ensures r <= text && (r == [] || r[|r| - 1] != SLASH)
    ensures forall i :: |r| <= i < |text| ==> text[i] == SLASH
  {
    if text != [] && text[|text| - 1] == SLASH then TrimEnd(text[..|text| - 1]) else text
  }

  /** A pattern with a leading slash names one path below the base directory; any other matches the
      path, or what follows any slash of it. */
  ghost predicate PathMatches(pattern: Bytes, path: Bytes, base: Bytes) {
    if pattern != [] && pattern[0] == SLASH then
      var prefix := TrimEnd(base) + [SLASH];
      prefix <= path && Matches(pattern[1..], path[|prefix|..])
    else
      exists k :: 0 <= k <= |path| && (k == 0 || path[k - 1] == SLASH) && Matches(pattern, path[k..])
  }

  method GlobMatchesPath(pattern: Bytes, filePath: Bytes, baseDirectory: Bytes) returns (result: bool)
    ensures result <==> PathMatches(NormalizePath(pattern), NormalizePath(filePath), NormalizePath(baseDirectory))
  {
    var normalizedPattern := NormalizePath(pattern);
    var normalizedPath := NormalizePath(filePath);
    ghost var log, table;
    if normalizedPattern != [] && normalizedPattern[0] == SLASH {
      var base := TrimEnd(NormalizePath(baseDirectory));
      if !(base <= normalizedPath) { return false; }
      var rest := normalizedPath[|base|..];
      if rest == [] || rest[0] != SLASH { return false; }
      assert base + [SLASH] <= normalizedPath && normalizedPath[|base + [SLASH]|..] == rest[1..];
      result, log, table := GlobMatchesExact(normalizedPattern[1..], rest[1..]);
      return;
    }
    result, log, table := GlobMatchesExact(normalizedPattern, normalizedPath);
    assert normalizedPath[0..] == normalizedPath;
    if result { return; }
    for i := 0 to |normalizedPath|
      invariant forall k :: 0 <= k <= i && (k == 0 || normalizedPath[k - 1] == SLASH) ==> !Matches(normalizedPattern, normalizedPath[k..])
    {
      if normalizedPath[i] == SLASH {
        result, log, table := GlobMatchesExact(normalizedPattern, normalizedPath[i + 1..]);
        if result { return; }
      }
    }
    result := false;
  }
}
