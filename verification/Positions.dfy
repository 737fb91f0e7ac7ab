/** Line and UTF-16 positions of byte offsets in a source text. Models daemon/src/document/positions.rs
    and `byte_offset_for_utf16` in daemon/src/document/script_regions.rs; the encoding widths are
    those of the Unicode Standard, section 3.9. */
module Positions {
  import opened Common

  /** A Unicode scalar value. */
  type Scalar = c: int | 0 <= c <= 0x10FFFF && !(0xD800 <= c <= 0xDFFF) witness 0

  /** A well-formed text. */
  type Text = seq<Scalar>

  const LF: int := 10
  const CR: int := 13

  function Encode(c: Scalar): (r: seq<Byte>)
    ensures 1 <= |r| <= 4
    ensures c < 0x80 ==> r == [c]
    ensures c >= 0x80 ==> forall i :: 0 <= i < |r| ==> r[i] >= 0x80
  {
    if c < 0x80 then [c]
    else if c < 0x800 then [0xC0 + c / 64, 0x80 + c % 64]
    else if c < 0x1_0000 then [0xE0 + c / 4096, 0x80 + c / 64 % 64, 0x80 + c % 64]
    else [0xF0 + c / 262144, 0x80 + c / 4096 % 64, 0x80 + c / 64 % 64, 0x80 + c % 64]
  }

  function Bytes(text: Text): seq<Byte> {
    if text == [] then [] else Encode(text[0]) + Bytes(text[1..])
  }

  function Utf16Width(c: Scalar): nat { if c < 0x1_0000 then 1 else 2 }

  function Utf16Length(text: Text): nat {
    if text == [] then 0 else Utf16Width(text[0]) + Utf16Length(text[1..])
  }

  // ---- The two encodings, from the reader's side ----

  /** What UTF-8 bytes spell: the lead byte says how many continue it, each with six bits. */
  function DecodeUtf8(bytes: seq<int>): seq<int> {
    if bytes == [] then []
    else
      var b := bytes[0];
      if b < 0x80 then [b] + DecodeUtf8(bytes[1..])
      else if b < 0xE0 && |bytes| >= 2 then
        [(b - 0xC0) * 64 + (bytes[1] - 0x80)] + DecodeUtf8(bytes[2..])
      else if 0xE0 <= b < 0xF0 && |bytes| >= 3 then
        [(b - 0xE0) * 4096 + (bytes[1] - 0x80) * 64 + (bytes[2] - 0x80)] + DecodeUtf8(bytes[3..])
      else if b >= 0xF0 && |bytes| >= 4 then
        [(b - 0xF0) * 262144 + (bytes[1] - 0x80) * 4096 + (bytes[2] - 0x80) * 64 + (bytes[3] - 0x80)] + DecodeUtf8(bytes[4..])
      else []
  }

  /** The code units of a text: one for a character of the basic plane, a surrogate pair for any other. */
  function CodeUnits(text: Text): (units: seq<int>)
    ensures forall u :: u in units ==> 0 <= u < 0x1_0000
  {
    if text == [] then []
    else
      var c: int := text[0];
      (if c < 0x1_0000 then [c] else [0xD800 + (c - 0x1_0000) / 0x400, 0xDC00 + (c - 0x1_0000) % 0x400]) + CodeUnits(text[1..])
  }

  /** What code units spell. */
  function DecodeUtf16(units: seq<int>): seq<int> {
    if units == [] then []
    else if 0xD800 <= units[0] < 0xDC00 && |units| >= 2 then
      [0x1_0000 + (units[0] - 0xD800) * 0x400 + (units[1] - 0xDC00)] + DecodeUtf16(units[2..])
    else [units[0]] + DecodeUtf16(units[1..])
  }

  lemma SpellThree(a: Byte, b: Byte, c: Byte, rest: seq<Byte>)
    requires 0xE0 <= a < 0xF0
    ensures DecodeUtf8([a, b, c] + rest) == [(a - 0xE0) * 4096 + (b - 0x80) * 64 + (c - 0x80)] + DecodeUtf8(rest)
  {
    assert ([a, b, c] + rest)[3..] == rest;
  }

  lemma SpellFour(a: Byte, b: Byte, c: Byte, d: Byte, rest: seq<Byte>)
    requires a >= 0xF0
    ensures DecodeUtf8([a, b, c, d] + rest)
         == [(a - 0xF0) * 262144 + (b - 0x80) * 4096 + (c - 0x80) * 64 + (d - 0x80)] + DecodeUtf8(rest)
  {
    assert ([a, b, c, d] + rest)[4..] == rest;
  }

  /** The encoding of one character, read back. */
  lemma CharacterSpells(c: Scalar, rest: seq<Byte>)
    ensures DecodeUtf8(Encode(c) + rest) == [c as int] + DecodeUtf8(rest)
  {
    var bytes := Encode(c);
    if c < 0x80 {
      assert (bytes + rest)[1..] == rest;
    } else if c < 0x800 {
      assert (bytes + rest)[2..] == rest;
    } else if c < 0x1_0000 {
      hide DecodeUtf8;
      SpellThree(bytes[0], bytes[1], bytes[2], rest);
    } else {
      hide DecodeUtf8;
      Sextets(c);
      SpellFour(bytes[0], bytes[1], bytes[2], bytes[3], rest);
    }
  }

  lemma Sextets(c: nat)
    ensures c == c / 262144 * 262144 + c / 4096 % 64 * 4096 + c / 64 % 64 * 64 + c % 64
  {
    var a := c / 64;
    var b := a / 64;
    assert b == c / 4096 && b / 64 == c / 262144;
    assert c == a * 64 + c % 64 && a == b * 64 + a % 64 && b == b / 64 * 64 + b % 64;
  }

  lemma {:induction false} BytesSpell(text: Text)
    ensures DecodeUtf8(Bytes(text)) == text
  {
    if text != [] {
      CharacterSpells(text[0], Bytes(text[1..]));
      BytesSpell(text[1..]);
      hide Encode, DecodeUtf8;
      assert text == [text[0]] + text[1..];
    }
  }

  lemma {:induction false} CodeUnitsSpell(text: Text)
    ensures DecodeUtf16(CodeUnits(text)) == text && Utf16Length(text) == |CodeUnits(text)|
  {
    if text != [] {
      CodeUnitsSpell(text[1..]);
      assert text == [text[0]] + text[1..];
      var c: int := text[0];
      var rest := CodeUnits(text[1..]);
      if c < 0x1_0000 {
        assert ([c] + rest)[1..] == rest;
      } else {
        var high, low := 0xD800 + (c - 0x1_0000) / 0x400, 0xDC00 + (c - 0x1_0000) % 0x400;
        assert ([high, low] + rest)[2..] == rest;
      }
    }
  }

  /** The bits that UTF-8 sequences of one to four bytes hold: seven, eleven, sixteen and twenty-one. */
  function Capacity(bytes: nat): nat {
    if bytes <= 1 then 0x80 else if bytes == 2 then 0x800 else if bytes == 3 then 0x1_0000 else 0x20_0000
  }

  /** The bytes of a text spell it, each character in as few of them as hold it, and a width in UTF-16 is the number of code
      units that spell the text with surrogate pairs. */
  lemma WidthsAreOfEncodings(text: Text)
    ensures DecodeUtf8(Bytes(text)) == text
    ensures forall c :: c in text ==> c < Capacity(|Encode(c)|) && (|Encode(c)| > 1 ==> c >= Capacity(|Encode(c)| - 1))
    ensures DecodeUtf16(CodeUnits(text)) == text && Utf16Length(text) == |CodeUnits(text)|
  {
    BytesSpell(text);
    CodeUnitsSpell(text);
  }

  /** The byte offset of a character boundary. */
  function OffsetOf(text: Text, k: nat): nat
    requires k <= |text|
  {
    |Bytes(text[..k])|
  }

  lemma {:induction false} BytesAppend(a: Text, b: Text)
    ensures Bytes(a + b) == Bytes(a) + Bytes(b)
  {
    hide Encode;
    if a == [] {
      assert a + b == b;
    } else {
      BytesAppend(a[1..], b);
      assert (a + b)[1..] == a[1..] + b;
    }
  }

  lemma {:induction false} Utf16Append(a: Text, b: Text)
    ensures Utf16Length(a + b) == Utf16Length(a) + Utf16Length(b)
  {
    if a == [] {
      assert a + b == b;
    } else {
      Utf16Append(a[1..], b);
      assert (a + b)[1..] == a[1..] + b;
    }
  }

  lemma SplitAt(text: Text, j: nat, k: nat)
    requires j <= k <= |text|
    ensures OffsetOf(text, k) == OffsetOf(text, j) + |Bytes(text[j..k])|
    ensures OffsetOf(text, k) <= |Bytes(text)|
    ensures j < k ==> OffsetOf(text, j) < OffsetOf(text, k)
  {
    assert text[..k] == text[..j] + text[j..k];
    BytesAppend(text[..j], text[j..k]);
    assert text == text[..k] + text[k..];
    BytesAppend(text[..k], text[k..]);
  }

  // ---- Line starts ----

  /** A line begins at 0 and after each LF, CRLF or lone CR. */
  predicate IsLineStart(bytes: seq<Byte>, s: nat) {
    s == 0
    || (s <= |bytes|
        && (bytes[s - 1] == LF || (bytes[s - 1] == CR && !(s < |bytes| && bytes[s] == LF))))
  }

  ghost predicate Increasing(starts: seq<nat>) {
    forall i, j :: 0 <= i < j < |starts| ==> starts[i] < starts[j]
  }

  datatype LineIndex = LineIndex(lineStarts: seq<nat>)

  ghost predicate IsIndexOf(index: LineIndex, bytes: seq<Byte>) {
    && Increasing(index.lineStarts)
    && index.lineStarts != [] && index.lineStarts[0] == 0
    && (forall s: nat :: s in index.lineStarts <==> IsLineStart(bytes, s))
  }

  /** One pass over the bytes finds exactly the line starts, in order. */
  method BuildLineIndex(bytes: seq<Byte>) returns (index: LineIndex)
    ensures IsIndexOf(index, bytes)
  {
    var lineStarts: seq<nat> := [0];
    var i := 0;
    while i < |bytes|
      invariant 0 <= i <= |bytes|
      invariant forall x :: 0 <= x < |lineStarts| ==> lineStarts[x] <= i
      invariant Increasing(lineStarts) && lineStarts != [] && lineStarts[0] == 0
      invariant forall s: nat :: s in lineStarts <==> s <= i && IsLineStart(bytes, s)
    {
      if bytes[i] == LF {
        lineStarts := lineStarts + [i + 1];
      } else if bytes[i] == CR {
        if i + 1 < |bytes| && bytes[i + 1] == LF {
          lineStarts := lineStarts + [i + 2];
          i := i + 2;
          continue;
        }
        lineStarts := lineStarts + [i + 1];
      }
      i := i + 1;
    }
    index := LineIndex(lineStarts);
  }

  // ---- Boundaries ----

  /** Every byte belongs to one character; an ASCII byte is a whole one. */
  lemma {:induction false} AsciiByteIsACharacter(text: Text, i: nat) returns (k: nat)
    requires i < |Bytes(text)| && Bytes(text)[i] < 0x80
    ensures k < |text| && OffsetOf(text, k) == i && text[k] == Bytes(text)[i] && OffsetOf(text, k + 1) == i + 1
  {
    var w := |Encode(text[0])|;
    if i < w {
      k := 0;
      assert text[..1] == [text[0]] && [text[0]][1..] == [];
      assert Bytes(text)[i] == Encode(text[0])[i];
    } else {
      k := AsciiByteIsACharacter(text[1..], i - w);
      assert text[..k + 1][1..] == text[1..][..k] && text[..k + 2][1..] == text[1..][..k + 1];
      k := k + 1;
    }
  }

  /** Line starts fall on character boundaries. */
  lemma LineStartIsBoundary(text: Text, s: nat) returns (k: nat)
    requires IsLineStart(Bytes(text), s)
    ensures k <= |text| && OffsetOf(text, k) == s
  {
    if s == 0 {
      k := 0;
    } else {
      k := AsciiByteIsACharacter(text, s - 1);
      k := k + 1;
    }
  }

  // ---- Positions ----

  datatype Position = Position(line: nat, character: nat)

  predicate Before(a: Position, b: Position) {
    a.line < b.line || (a.line == b.line && a.character < b.character)
  }

  /** How many leading starts lie at or before `offset`. */
  function PartitionPoint(starts: seq<nat>, offset: nat): nat {
    if starts == [] || starts[0] > offset then 0 else 1 + PartitionPoint(starts[1..], offset)
  }

  lemma {:induction false} PartitionPointIs(starts: seq<nat>, offset: nat)
    requires Increasing(starts)
    ensures var n := PartitionPoint(starts, offset);
            && n <= |starts|
            && (forall i :: 0 <= i < n ==> starts[i] <= offset)
            && (forall i :: n <= i < |starts| ==> starts[i] > offset)
  {
    if starts != [] && starts[0] <= offset {
      PartitionPointIs(starts[1..], offset);
      forall i | 0 < i < |starts| ensures starts[i] == starts[1..][i - 1] { }
    }
  }

  /** The number of characters that begin before `offset`. */
  function CharsBefore(text: Text, offset: int): nat {
    if text == [] || offset <= 0 then 0 else 1 + CharsBefore(text[1..], offset - |Encode(text[0])|)
  }

  lemma {:induction false} CharsBeforeBoundary(text: Text, k: nat)
    requires k <= |text|
    ensures CharsBefore(text, OffsetOf(text, k)) == k
  {
    if k > 0 {
      CharsBeforeBoundary(text[1..], k - 1);
      assert text[..k][1..] == text[1..][..k - 1];
    }
  }

  /** The position of a byte offset: its line, and the UTF-16 units since the line began. */
  function PositionAt(index: LineIndex, text: Text, offset: nat): Position {
    var safeOffset := Min(offset, |Bytes(text)|);
    var n := PartitionPoint(index.lineStarts, safeOffset);
    if n == 0 || n > |index.lineStarts| then Position(0, 0)
    else
      var lineStart := index.lineStarts[n - 1];
      var first, last := CharsBefore(text, lineStart), CharsBefore(text, safeOffset);
      Position(n - 1, if first <= last <= |text| then Utf16Length(text[first..last]) else 0)
  }

  /** What the position of the boundary before character `k` is: the last line start at or before it,
      and the width of the text in between. */
  lemma PositionOfBoundary(index: LineIndex, text: Text, k: nat) returns (line: nat, first: nat)
    requires IsIndexOf(index, Bytes(text)) && k <= |text|
    ensures line < |index.lineStarts| && first <= k
    ensures OffsetOf(text, first) == index.lineStarts[line] <= OffsetOf(text, k)
    ensures forall i :: line < i < |index.lineStarts| ==> index.lineStarts[i] > OffsetOf(text, k)
    ensures PositionAt(index, text, OffsetOf(text, k)) == Position(line, Utf16Length(text[first..k]))
  {
    var offset := OffsetOf(text, k);
    SplitAt(text, k, k);
    PartitionPointIs(index.lineStarts, offset);
    line := PartitionPoint(index.lineStarts, offset) - 1;
    var s := index.lineStarts[line];
    assert s in index.lineStarts;
    first := LineStartIsBoundary(text, s);
    if first > k { SplitAt(text, k, first); }
    CharsBeforeBoundary(text, first);
    CharsBeforeBoundary(text, k);
  }

  /** An offset past the end is the end. */
  lemma PastTheEnd(index: LineIndex, text: Text, offset: nat)
    requires offset >= |Bytes(text)|
    ensures PositionAt(index, text, offset) == PositionAt(index, text, |Bytes(text)|)
  {
  }

  lemma {:induction false} WidthPositive(text: Text)
    ensures Utf16Length(text) >= |text|
  {
    if text != [] { WidthPositive(text[1..]); }
  }

  /** Positions strictly increase over character boundaries. */
  lemma PositionsIncrease(index: LineIndex, text: Text, j: nat, k: nat)
    requires IsIndexOf(index, Bytes(text)) && j < k <= |text|
    ensures Before(PositionAt(index, text, OffsetOf(text, j)), PositionAt(index, text, OffsetOf(text, k)))
  {
    hide Bytes, Encode, Utf16Length, PositionAt, IsIndexOf;
    var line1, first1 := PositionOfBoundary(index, text, j);
    var line2, first2 := PositionOfBoundary(index, text, k);
    SplitAt(text, j, k);
    if line1 == line2 {
      if first1 < first2 { SplitAt(text, first1, first2); }
      if first2 < first1 { SplitAt(text, first2, first1); }
      assert text[first1..k] == text[first1..j] + text[j..k];
      Utf16Append(text[first1..j], text[j..k]);
      WidthPositive(text[j..k]);
    }
  }

  /** What fits in the 32 bits a position is sent with. */
  function Sent(p: Position): Position { Position(p.line % 0x1_0000_0000, p.character % 0x1_0000_0000) }

  lemma {:induction false} WidthAtMostBytes(text: Text)
    ensures Utf16Length(text) <= |Bytes(text)|
  {
    if text != [] { WidthAtMostBytes(text[1..]); }
  }

  lemma {:induction false} StartsGrow(starts: seq<nat>, i: nat)
    requires Increasing(starts) && i < |starts|
    ensures starts[i] >= i
  {
    if i > 0 { StartsGrow(starts, i - 1); }
  }

  lemma SentFits(p: Position)
    ensures Sent(p) == p <==> p.line < 0x1_0000_0000 && p.character < 0x1_0000_0000
  {
  }

  /** A position is sent whole exactly when its line and its column fit in 32 bits, and neither exceeds the length of
      the text: below four gigabytes nothing is cut off. */
  lemma SentWhole(index: LineIndex, text: Text, k: nat)
    requires IsIndexOf(index, Bytes(text)) && k <= |text|
    ensures var p := PositionAt(index, text, OffsetOf(text, k));
            && p.line <= |Bytes(text)| && p.character <= |Bytes(text)|
            && (Sent(p) == p <==> p.line < 0x1_0000_0000 && p.character < 0x1_0000_0000)
            && (|Bytes(text)| < 0x1_0000_0000 ==> Sent(p) == p)
  {
    var line, first := PositionOfBoundary(index, text, k);
    StartsGrow(index.lineStarts, line);
    SplitAt(text, first, k);
    SplitAt(text, k, k);
    WidthAtMostBytes(text[first..k]);
    SentFits(PositionAt(index, text, OffsetOf(text, k)));
    hide Bytes, Encode, Utf16Length, PositionAt, IsIndexOf, Sent;
  }

  // ---- Columns back to offsets ----

  /** The first boundary at which at least `units` UTF-16 units have passed, or the end. */
  ghost predicate IsUtf16Offset(text: Text, units: nat, offset: nat) {
    exists k :: 0 <= k <= |text| && offset == OffsetOf(text, k)
      && (k == |text| || Utf16Length(text[..k]) >= units)
      && (forall j :: 0 <= j < k ==> Utf16Length(text[..j]) < units)
  }

  method ByteOffsetForUtf16(text: Text, units: nat) returns (offset: nat)
    ensures IsUtf16Offset(text, units, offset)
  {
    var seen := 0;
    offset := 0;
    for k := 0 to |text|
      invariant seen == Utf16Length(text[..k]) && offset == OffsetOf(text, k)
      invariant forall j :: 0 <= j < k ==> Utf16Length(text[..j]) < units
    {
      if seen >= units { return; }
      assert text[..k + 1] == text[..k] + [text[k]];
      Utf16Append(text[..k], [text[k]]);
      BytesAppend(text[..k], [text[k]]);
      assert [text[k]][1..] == [];
      seen := seen + Utf16Width(text[k]);
      offset := offset + |Encode(text[k])|;
    }
  }

  lemma {:induction false} WidthGrows(text: Text, j: nat, k: nat)
    requires j < k <= |text|
    ensures Utf16Length(text[..j]) < Utf16Length(text[..k])
  {
    assert text[..k] == text[..j] + text[j..k];
    Utf16Append(text[..j], text[j..k]);
    WidthPositive(text[j..k]);
  }

  /** A boundary's column, counted out from the start of its line, leads back to its offset. */
  lemma ColumnRoundTrip(index: LineIndex, text: Text, k: nat, start: nat, back: nat)
    requires IsIndexOf(index, Bytes(text)) && k <= |text|
    requires var line := PositionAt(index, text, OffsetOf(text, k)).line;
             line < |index.lineStarts| && start <= |text| && OffsetOf(text, start) == index.lineStarts[line]
    requires IsUtf16Offset(text[start..], PositionAt(index, text, OffsetOf(text, k)).character, back)
    ensures OffsetOf(text, start) + back == OffsetOf(text, k)
  {
    hide Bytes, Encode, Utf16Length, PositionAt, IsIndexOf;
    var line, first := PositionOfBoundary(index, text, k);
    if first < start { SplitAt(text, first, start); }
    if start < first { SplitAt(text, start, first); }
    var rest := text[first..];
    assert rest[..k - first] == text[first..k];
    var m :| 0 <= m <= |rest| && back == OffsetOf(rest, m)
             && (m == |rest| || Utf16Length(rest[..m]) >= Utf16Length(rest[..k - first]))
             && (forall j :: 0 <= j < m ==> Utf16Length(rest[..j]) < Utf16Length(rest[..k - first]));
    if m < k - first { WidthGrows(rest, m, k - first); }
    SplitAt(text, first, k);
  }
}
