/**
 The layout scanner that both Format and Parse are driven by: it splits off the
 next reference-time piece of a layout.
 */
module TimeLayout {
  datatype Std =
    | Literal  // no piece left
    | LongMonth | Month | NumMonth | ZeroMonth
    | LongWeekday | Weekday
    | Day | UnderDay | ZeroDay | UnderYearDay | ZeroYearDay
    | Hour | Hour12 | ZeroHour12 | Minute | ZeroMinute | Second | ZeroSecond
    | LongYear | Year | PmUpper | PmLower | Tz
    | IsoTz | IsoShortTz | IsoSecondsTz | IsoColonTz | IsoColonSecondsTz
    | NumTz | NumShortTz | NumSecondsTz | NumColonTz | NumColonSecondsTz
    | Frac0 | Frac9

  datatype Chunk = Chunk(prefix: string, std: Std, arg: nat, suffix: string)

  /** A piece found at an offset: where its text starts and ends. */
  datatype Piece = Nothing | Piece(start: nat, std: Std, arg: nat, end: nat)

  predicate At(layout: string, i: nat, pat: string) {
    i + |pat| <= |layout| && layout[i..i + |pat|] == pat
  }

  predicate CharIn(layout: string, i: nat, lo: char, hi: char) {
    i < |layout| && lo <= layout[i] <= hi
  }

  /** First offset from j on that does not hold ch. */
  function RunEnd(layout: string, j: nat, ch: char): (e: nat)
    requires j <= |layout|
    ensures j <= e <= |layout|
    ensures forall k :: j <= k < e ==> layout[k] == ch
    ensures e < |layout| ==> layout[e] != ch
    decreases |layout| - j
  {
    if j < |layout| && layout[j] == ch then RunEnd(layout, j + 1, ch) else j
  }

  function Std0X(c: char): Std {
    if c == '1' then ZeroMonth
    else if c == '2' then ZeroDay
    else if c == '3' then ZeroHour12
    else if c == '4' then ZeroMinute
    else if c == '5' then ZeroSecond
    else Year
  }

  /** The piece the scanner recognises at offset i, if any. */
  function PieceAt(layout: string, i: nat): (p: Piece)
    requires i < |layout|
    ensures p.Piece? ==> i <= p.start <= i + 1 && p.start < p.end <= |layout| && p.std != Literal
  {
    var c := layout[i];
    if c == 'J' then
      if At(layout, i, "January") then Piece(i, LongMonth, 0, i + 7)
      else if At(layout, i, "Jan") && !CharIn(layout, i + 3, 'a', 'z') then Piece(i, Month, 0, i + 3)
      else Nothing
    else if c == 'M' then
      if At(layout, i, "Monday") then Piece(i, LongWeekday, 0, i + 6)
      else if At(layout, i, "Mon") && !CharIn(layout, i + 3, 'a', 'z') then Piece(i, Weekday, 0, i + 3)
      else if At(layout, i, "MST") then Piece(i, Tz, 0, i + 3)
      else Nothing
    else if c == '0' then
      if CharIn(layout, i + 1, '1', '6') then Piece(i, Std0X(layout[i + 1]), 0, i + 2)
      else if At(layout, i + 1, "02") then Piece(i, ZeroYearDay, 0, i + 3)
      else Nothing
    else if c == '1' then
      if At(layout, i + 1, "5") then Piece(i, Hour, 0, i + 2) else Piece(i, NumMonth, 0, i + 1)
    else if c == '2' then
      if At(layout, i, "2006") then Piece(i, LongYear, 0, i + 4) else Piece(i, Day, 0, i + 1)
    else if c == '_' then
      if At(layout, i + 1, "2") then
        if At(layout, i + 1, "2006") then Piece(i + 1, LongYear, 0, i + 5) else Piece(i, UnderDay, 0, i + 2)
      else if At(layout, i + 1, "_2") then Piece(i, UnderYearDay, 0, i + 3)
      else Nothing
    else if c == '3' then Piece(i, Hour12, 0, i + 1)
    else if c == '4' then Piece(i, Minute, 0, i + 1)
    else if c == '5' then Piece(i, Second, 0, i + 1)
    else if c == 'P' then if At(layout, i, "PM") then Piece(i, PmUpper, 0, i + 2) else Nothing
    else if c == 'p' then if At(layout, i, "pm") then Piece(i, PmLower, 0, i + 2) else Nothing
    else if c == '-' then
      if At(layout, i, "-070000") then Piece(i, NumSecondsTz, 0, i + 7)
      else if At(layout, i, "-07:00:00") then Piece(i, NumColonSecondsTz, 0, i + 9)
      else if At(layout, i, "-0700") then Piece(i, NumTz, 0, i + 5)
      else if At(layout, i, "-07:00") then Piece(i, NumColonTz, 0, i + 6)
      else if At(layout, i, "-07") then Piece(i, NumShortTz, 0, i + 3)
      else Nothing
    else if c == 'Z' then
      if At(layout, i, "Z070000") then Piece(i, IsoSecondsTz, 0, i + 7)
      else if At(layout, i, "Z07:00:00") then Piece(i, IsoColonSecondsTz, 0, i + 9)
      else if At(layout, i, "Z0700") then Piece(i, IsoTz, 0, i + 5)
      else if At(layout, i, "Z07:00") then Piece(i, IsoColonTz, 0, i + 6)
      else if At(layout, i, "Z07") then Piece(i, IsoShortTz, 0, i + 3)
      else Nothing
    else if c == '.' || c == ',' then
      if i + 1 < |layout| && (layout[i + 1] == '0' || layout[i + 1] == '9') then
        var ch := layout[i + 1];
        var j := RunEnd(layout, i + 1, ch);
        if !CharIn(layout, j, '0', '9') then Piece(i, if ch == '0' then Frac0 else Frac9, j - (i + 1), j)
        else Nothing
      else Nothing
    else Nothing
  }

  function ChunkOf(layout: string, p: Piece): Chunk
    requires p.Piece? ==> p.start <= p.end <= |layout|
  {
    if p.Piece? then Chunk(layout[..p.start], p.std, p.arg, layout[p.end..]) else Chunk(layout, Literal, 0, "")
  }

  function NextChunkFrom(layout: string, i: nat): Chunk
    requires i <= |layout|
    decreases |layout| - i
  {
    if i == |layout| then Chunk(layout, Literal, 0, "")
    else if PieceAt(layout, i).Piece? then ChunkOf(layout, PieceAt(layout, i))
    else NextChunkFrom(layout, i + 1)
  }

  function NextChunk(layout: string): Chunk {
    NextChunkFrom(layout, 0)
  }

  method ScanChunk(layout: string) returns (c: Chunk)
    ensures c == NextChunk(layout)
  {
    var i := 0;
    while i < |layout|
      invariant 0 <= i <= |layout|
      invariant NextChunkFrom(layout, i) == NextChunk(layout)
    {
      var p := PieceAt(layout, i);
      if p.Piece? {
        return ChunkOf(layout, p);
      }
      i := i + 1;
    }
    return Chunk(layout, Literal, 0, "");
  }

  /** The text of the piece between prefix and suffix, Parse's `stdstr`. */
  function PieceText(layout: string, c: Chunk): string
    requires |c.prefix| + |c.suffix| <= |layout|
  {
    layout[|c.prefix|..|layout| - |c.suffix|]
  }

  predicate Partitions(layout: string, c: Chunk) {
    && |c.prefix| + |c.suffix| <= |layout|
    && layout == c.prefix + PieceText(layout, c) + c.suffix
    && (c.std == Literal ==> c.prefix == layout && c.suffix == "")
    && (c.std != Literal ==> PieceText(layout, c) != "" && |c.suffix| < |layout|)
  }

  lemma PiecePartitions(layout: string, p: Piece)
    requires p.Piece? && p.start < p.end <= |layout| && p.std != Literal
    ensures Partitions(layout, ChunkOf(layout, p))
  {
  }

  lemma {:induction false} ChunkPartitionsFrom(layout: string, i: nat)
    requires i <= |layout|
    ensures Partitions(layout, NextChunkFrom(layout, i))
    decreases |layout| - i
  {
    if i < |layout| {
      if PieceAt(layout, i).Piece? { PiecePartitions(layout, PieceAt(layout, i)); }
      else { ChunkPartitionsFrom(layout, i + 1); }
    }
  }

  /** Every layout is prefix, piece, suffix; a piece is never empty, so each chunk
      strictly shortens the layout, and without a piece all of it is literal. */
  lemma ChunkPartitions(layout: string)
    ensures Partitions(layout, NextChunk(layout))
  {
    ChunkPartitionsFrom(layout, 0);
  }

  /** The scanner takes the piece at the first offset that holds one, and nothing else. */
  lemma {:induction false} ChunkIsLeftmostFrom(layout: string, i: nat, k: nat)
    requires i <= k < |layout| && PieceAt(layout, k).Piece?
    requires forall j :: i <= j < k ==> PieceAt(layout, j) == Nothing
    ensures NextChunkFrom(layout, i) == ChunkOf(layout, PieceAt(layout, k))
    decreases |layout| - i
  {
    if i < k { ChunkIsLeftmostFrom(layout, i + 1, k); }
  }

  lemma {:induction false} NoPieceFrom(layout: string, i: nat)
    requires i <= |layout| && forall j :: i <= j < |layout| ==> PieceAt(layout, j) == Nothing
    ensures NextChunkFrom(layout, i) == Chunk(layout, Literal, 0, "")
    decreases |layout| - i
  {
    if i < |layout| { NoPieceFrom(layout, i + 1); }
  }

  /** The first offset at which the layout holds a piece. */
  predicate FirstPiece(layout: string, k: nat) {
    k < |layout| && PieceAt(layout, k).Piece? && forall j :: 0 <= j < k ==> PieceAt(layout, j) == Nothing
  }

  /** The next chunk is cut out by the piece at the first offset that holds one; a layout
      that holds none is literal. */
  lemma ChunkIsLeftmost(layout: string)
    ensures forall k :: FirstPiece(layout, k) ==> NextChunk(layout) == ChunkOf(layout, PieceAt(layout, k))
    ensures NextChunk(layout).std == Literal <==> forall j :: 0 <= j < |layout| ==> PieceAt(layout, j) == Nothing
  {
    forall k | FirstPiece(layout, k) ensures NextChunk(layout) == ChunkOf(layout, PieceAt(layout, k)) {
      ChunkIsLeftmostFrom(layout, 0, k);
    }
    if forall j :: 0 <= j < |layout| ==> PieceAt(layout, j) == Nothing {
      NoPieceFrom(layout, 0);
    } else {
      var k := FirstOf(layout, 0);
      ChunkIsLeftmostFrom(layout, 0, k);
    }
  }

  lemma {:induction false} FirstOf(layout: string, i: nat) returns (k: nat)
    requires i <= |layout| && exists j :: i <= j < |layout| && PieceAt(layout, j) != Nothing
    ensures i <= k < |layout| && PieceAt(layout, k).Piece?
    ensures forall j :: i <= j < k ==> PieceAt(layout, j) == Nothing
    decreases |layout| - i
  {
    if PieceAt(layout, i) != Nothing { k := i; } else { k := FirstOf(layout, i + 1); }
  }
}
