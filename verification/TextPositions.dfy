/** UTF-16 positions and incremental edits.

    A text is a sequence of Unicode scalar values. Boundary `i` lies before its `i`-th character;
    `Offset` gives its place in the UTF-8 bytes, `PositionAt` its line and UTF-16 column. */
module TextPositions {
  import opened Common

  datatype Position = Position(line: nat, character: nat)

  function Utf8Width(c: char): (n: nat)
    ensures 1 <= n <= 4
  {
    if c < 0x80 as char then 1 else if c < 0x800 as char then 2 else if c as int < 0x1_0000 then 3 else 4
  }

  function Utf16Width(c: char): (n: nat)
    ensures 1 <= n <= 2
  {
    if c as int < 0x1_0000 then 1 else 2
  }

  /** The byte offset of boundary `i`. */
  function Offset(text: string, i: nat): nat
    requires i <= |text|
  {
    if i == 0 then 0 else Offset(text, i - 1) + Utf8Width(text[i - 1])
  }

  function ByteLength(text: string): nat {
    Offset(text, |text|)
  }

  /** Newlines before boundary `i`, and UTF-16 units since the last of them. */
  function PositionAt(text: string, i: nat): Position
    requires i <= |text|
  {
    if i == 0 then Position(0, 0) else
    var p := PositionAt(text, i - 1);
    if text[i - 1] == '\n' then Position(p.line + 1, 0) else Position(p.line, p.character + Utf16Width(text[i - 1]))
  }

  predicate Before(p: Position, q: Position) {
    p.line < q.line || (p.line == q.line && p.character < q.character)
  }

  lemma {:induction false} PositionsIncrease(text: string, i: nat, j: nat)
    requires i < j <= |text|
    ensures Before(PositionAt(text, i), PositionAt(text, j)) && Offset(text, i) < Offset(text, j)
    decreases j
  {
    if i < j - 1 { PositionsIncrease(text, i, j - 1); }
  }

  /** `p` names a boundary of `text`. */
  ghost predicate Exists(text: string, p: Position) {
    exists i :: 0 <= i <= |text| && PositionAt(text, i) == p
  }

  /** A position between two adjacent boundaries names none. */
  lemma NoBoundaryBetween(text: string, i: nat, p: Position)
    requires i <= |text| && Before(PositionAt(text, i), p)
    requires i < |text| ==> Before(p, PositionAt(text, i + 1))
    ensures !Exists(text, p)
  {
    forall j | 0 <= j <= |text| ensures PositionAt(text, j) != p {
      if j < i { PositionsIncrease(text, j, i); }
      if j > i + 1 { PositionsIncrease(text, i + 1, j); }
    }
  }

  /** The start of line `line`, or nothing when the text has fewer lines. */
  method LineStart(text: string, line: nat) returns (r: Option<nat>)
    ensures r.Some? ==> r.value <= |text| && PositionAt(text, r.value) == Position(line, 0)
    ensures r.None? ==> PositionAt(text, |text|).line < line
  {
    var start := 0;
    for l := 0 to line
      invariant start <= |text| && PositionAt(text, start) == Position(l, 0)
    {
      var newline := start;
      while newline < |text| && text[newline] != '\n'
        invariant start <= newline <= |text| && PositionAt(text, newline).line == l
      {
        newline := newline + 1;
      }
      if newline == |text| { return None; }
      start := newline + 1;
    }
    r := Some(start);
  }

  /** `checked_byte_offset`: exactly the inverse of `PositionAt`, as a byte offset; every position that names
      no boundary fails, such as one inside a surrogate pair or past the end of a line. */
  method CheckedByteOffset(text: string, p: Position) returns (r: Option<nat>, ghost at: nat)
    requires p.character <= MAX_U32
    ensures r.Some? <==> Exists(text, p)
    ensures r.Some? ==> at <= |text| && PositionAt(text, at) == p && r.value == Offset(text, at)
  {
    at := 0;
    var start := LineStart(text, p.line);
    if start.None? {
      NoBoundaryBetween(text, |text|, p);
      return None, at;
    }
    var i, utf16: nat, offset := start.value, 0, Offset(text, start.value);
    while i < |text|
      invariant start.value <= i <= |text| && offset == Offset(text, i)
      invariant PositionAt(text, i) == Position(p.line, utf16) && utf16 <= p.character
      decreases |text| - i
    {
      if utf16 == p.character { return Some(offset), i; }
      if text[i] == '\n' {
        NoBoundaryBetween(text, i, p);
        return None, at;
      }
      utf16 := utf16 + Utf16Width(text[i]);
      if utf16 > MAX_U32 || utf16 > p.character {
        NoBoundaryBetween(text, i, p);
        return None, at;
      }
      offset := offset + Utf8Width(text[i]);
      i := i + 1;
    }
    if utf16 == p.character { return Some(offset), i; }
    NoBoundaryBetween(text, i, p);
    r := None;
  }

  /** Boundary `i` is at or past `p`, or ends the line of `p`. */
  predicate Stops(text: string, p: Position, i: nat)
    requires i <= |text|
  {
    !Before(PositionAt(text, i), p) || (i < |text| && text[i] == '\n' && PositionAt(text, i).line == p.line)
  }

  /** The first boundary that stops the search for `p`, or the end of the text. */
  predicate Clamps(text: string, p: Position, i: nat) {
    i <= |text| && (forall j :: 0 <= j < i ==> !Stops(text, p, j)) && (i < |text| ==> Stops(text, p, i))
  }

  lemma ClampsExactly(text: string, p: Position, i: nat)
    requires Clamps(text, p, i) && Exists(text, p)
    ensures PositionAt(text, i) == p
  {
    var at := BoundaryOf(text, p);
    assert Stops(text, p, at);
    if i < at {
      PositionsIncrease(text, i, at);
      PositionsIncrease(text, i, i + 1);
      if i + 1 < at { PositionsIncrease(text, i + 1, at); }
    }
  }

  lemma NothingStopsBefore(text: string, p: Position, start: nat, j: nat)
    requires j < start <= |text| && PositionAt(text, start) == Position(p.line, 0)
    ensures !Stops(text, p, j)
  {
    PositionsIncrease(text, j, start);
  }

  lemma NothingStops(text: string, p: Position, j: nat)
    requires j <= |text| && PositionAt(text, |text|).line < p.line
    ensures !Stops(text, p, j)
  {
    if j < |text| { PositionsIncrease(text, j, |text|); }
  }

  /** `byte_offset`: the named boundary when there is one, otherwise the next boundary, the end of the line,
      or the end of the text. */
  method ByteOffset(text: string, p: Position) returns (r: nat)
    ensures exists at :: Clamps(text, p, at) && r == Offset(text, at)
    ensures Exists(text, p) ==> r == Offset(text, BoundaryOf(text, p))
  {
    var start := LineStart(text, p.line);
    var i, utf16: nat := |text|, 0;
    r := ByteLength(text);
    if start.None? {
      forall j | 0 <= j < |text| ensures !Stops(text, p, j) { NothingStops(text, p, j); }
    } else {
      i, r := start.value, Offset(text, start.value);
      forall j | 0 <= j < i ensures !Stops(text, p, j) { NothingStopsBefore(text, p, i, j); }
      while i < |text| && utf16 < p.character && text[i] != '\n'
        invariant start.value <= i <= |text| && r == Offset(text, i)
        invariant PositionAt(text, i) == Position(p.line, utf16)
        invariant forall j :: 0 <= j < i ==> !Stops(text, p, j)
      {
        utf16 := utf16 + Utf16Width(text[i]);
        r := r + Utf8Width(text[i]);
        i := i + 1;
      }
    }
    assert Clamps(text, p, i);
    if Exists(text, p) {
      ClampsExactly(text, p, i);
      BoundaryUnique(text, p, i);
    }
  }

  // ----- edits -----

  datatype Range = Range(start: Position, end: Position)

  datatype Change = Change(range: Option<Range>, text: string)

  /** The boundary a position names. */
  ghost function BoundaryOf(text: string, p: Position): (i: nat)
    requires Exists(text, p)
    ensures i <= |text| && PositionAt(text, i) == p
  {
    var i :| 0 <= i <= |text| && PositionAt(text, i) == p;
    i
  }

  lemma BoundaryUnique(text: string, p: Position, i: nat)
    requires i <= |text| && PositionAt(text, i) == p
    ensures Exists(text, p) && BoundaryOf(text, p) == i
  {
    var j := BoundaryOf(text, p);
    if i < j { PositionsIncrease(text, i, j); }
    if j < i { PositionsIncrease(text, j, i); }
  }

  ghost predicate Applies(text: string, change: Change) {
    change.range.Some? ==>
      && Exists(text, change.range.value.start) && Exists(text, change.range.value.end)
      && BoundaryOf(text, change.range.value.start) <= BoundaryOf(text, change.range.value.end)
  }

  /** The text after one change: a splice between two boundaries, or a replacement of the whole. */
  ghost function Spliced(text: string, change: Change): string
    requires Applies(text, change)
  {
    match change.range
    case None => change.text
    case Some(range) =>
      text[..BoundaryOf(text, range.start)] + change.text + text[BoundaryOf(text, range.end)..]
  }

  /** The boundary at a byte offset, found by walking the text. */
  method BoundaryAtOffset(text: string, offset: nat, ghost at: nat) returns (i: nat)
    requires at <= |text| && offset == Offset(text, at)
    ensures i == at
  {
    i := 0;
    var seen := 0;
    while seen < offset
      invariant i <= at && seen == Offset(text, i)
      decreases at - i
    {
      seen := seen + Utf8Width(text[i]);
      i := i + 1;
    }
    if i < at { PositionsIncrease(text, i, at); }
  }

  /** `apply_change`: on an invalid range the text is left as it was. */
  method ApplyChange(text: string, change: Change) returns (ok: bool, text': string)
    requires change.range.Some? ==>
      change.range.value.start.character <= MAX_U32 && change.range.value.end.character <= MAX_U32
    ensures ok <==> Applies(text, change)
    ensures text' == if ok then Spliced(text, change) else text
  {
    match change.range
    case None => ok, text' := true, change.text;
    case Some(range) =>
      var start, i := CheckedByteOffset(text, range.start);
      if start.None? { return false, text; }
      var end, j := CheckedByteOffset(text, range.end);
      if end.None? { return false, text; }
      BoundaryUnique(text, range.start, i);
      BoundaryUnique(text, range.end, j);
      if j < i { PositionsIncrease(text, j, i); }
      if i < j { PositionsIncrease(text, i, j); }
      if start.value > end.value { return false, text; }
      var from := BoundaryAtOffset(text, start.value, i);
      var to := BoundaryAtOffset(text, end.value, j);
      ok, text' := true, text[..from] + change.text + text[to..];
  }
}
