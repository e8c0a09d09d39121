/** Algebraic squares and move strings: `get_square`, `get_tile`, `get_data_from_move`
    and the move-string patterns the validators accept. */
module Squares {
  import opened Types
  import opened Text

  predicate IsFile(c: char) {
    'a' <= c <= 'h'
  }

  predicate IsRank(c: char) {
    '1' <= c <= '8'
  }

  predicate IsAscii(c: char) {
    c < 128 as char
  }

  /** The pattern `[a-h][1-8]` matches at index `i` of `s`. */
  predicate IsSquareAt(s: string, i: int) {
    0 <= i && i + 1 < |s| && IsFile(s[i]) && IsRank(s[i + 1])
  }

  /** The unanchored `[a-h]{1}[1-8]{1}` regex finds a match in `s`. */
  predicate ContainsSquare(s: string) {
    exists i :: 0 <= i < |s| && IsSquareAt(s, i)
  }

  /** The square spelled at index `i`. */
  function SquareOf(s: string, i: int): (c: Coordinates)
    requires IsSquareAt(s, i)
    ensures OnBoard(c)
  {
    Coordinates(s[i + 1] as int - '1' as int, s[i] as int - 'a' as int)
  }

  /** `get_square` does not panic: its byte slices `[0..1]` and `[1..2]` fall on character
      boundaries and the digit it parses is at least 1, whenever the regex matches. */
  predicate GetSquareDefined(s: string) {
    ContainsSquare(s) ==> IsAscii(s[0]) && (IsFile(s[0]) ==> IsAscii(s[1]) && '1' <= s[1] <= '9')
  }

  /** `get_square`: the regex decides InvalidFormat, then only the first two characters
      are read; the row comes from a single digit 1..9, so `"a9b1"` gives row 8. */
  function GetSquare(s: string): (r: Result<Coordinates>)
    requires GetSquareDefined(s)
    ensures !ContainsSquare(s) ==> r == Err(InvalidFormat)
    ensures ContainsSquare(s) && !IsFile(s[0]) ==> r == Err(InvalidSquare)
    ensures r.Ok? ==> ContainsSquare(s) && IsFile(s[0]) && r.value.col < 8 && r.value.row < 9
    ensures r.Ok? && IsRank(s[1]) ==> r.value == SquareOf(s, 0)
  {
    if !ContainsSquare(s) then Err(InvalidFormat)
    else if !IsFile(s[0]) then Err(InvalidSquare)
    else Ok(Coordinates(s[1] as int - '1' as int, s[0] as int - 'a' as int))
  }

  const Files: string := "abcdefgh"

  /** `get_tile`: the file letter followed by the rank number, InvalidSquare off the board. */
  function GetTile(c: Coordinates): (r: Result<string>)
    ensures r.Ok? <==> OnBoard(c)
    ensures !OnBoard(c) ==> r == Err(InvalidSquare)
    ensures r.Ok? ==> |r.value| == 2 && IsSquareAt(r.value, 0)
  {
    if c.row > 7 || c.col > 7 then Err(InvalidSquare)
    else Ok([Files[c.col]] + NatToString(c.row + 1))
  }

  /** Every on-board square survives `get_tile` followed by `get_square`. */
  lemma TileSquare(c: Coordinates)
    requires OnBoard(c)
    ensures GetSquareDefined(GetTile(c).value)
    ensures GetSquare(GetTile(c).value) == Ok(c)
  {
    var t := GetTile(c).value;
    assert IsSquareAt(t, 0);
  }

  /** A two-character square name survives `get_square` followed by `get_tile`. */
  lemma SquareTile(s: string)
    requires |s| == 2 && IsSquareAt(s, 0)
    ensures GetSquareDefined(s) && GetSquare(s).Ok?
    ensures GetTile(GetSquare(s).value) == Ok(s)
  {
    var c := GetSquare(s).value;
    assert Files[c.col] == s[0];
    assert DigitChar(c.row + 1) == s[1];
    assert NatToString(c.row + 1) == [s[1]];
    assert GetTile(c).value == [s[0]] + [s[1]];
    assert [s[0]] + [s[1]] == s;
  }

  /** Every two-character string is accepted by `get_square` without a panic, and it
      succeeds exactly on the names of the 64 squares. */
  lemma TwoCharSquare(s: string)
    requires |s| == 2
    ensures GetSquareDefined(s)
    ensures GetSquare(s).Ok? <==> IsSquareAt(s, 0)
  {
    if ContainsSquare(s) {
      var i :| 0 <= i < |s| && IsSquareAt(s, i);
      assert i == 0;
    }
  }

  /** The index of the last `[a-h][1-8]` match. Two matches can never overlap (a character
      is never both a file and a rank), so the regex iterator visits every matching index
      and its last capture is the one with the largest index. */
  function LastSquareIndex(s: string): (i: nat)
    requires ContainsSquare(s)
    ensures IsSquareAt(s, i)
    ensures forall j :: i < j ==> !IsSquareAt(s, j)
    decreases |s|
  {
    if IsSquareAt(s, |s| - 2) then |s| - 2
    else
      var k :| 0 <= k < |s| && IsSquareAt(s, k);
      assert IsSquareAt(s[..|s| - 1], k);
      var i := LastSquareIndex(s[..|s| - 1]);
      assert forall j :: IsSquareAt(s, j) && j < |s| - 2 ==> IsSquareAt(s[..|s| - 1], j);
      i
  }

  /** The piece a move string names by its first character: a pawn unless N, R, B, Q or K. */
  function MoveKind(c: char): (p: PieceName)
    ensures p == Pawn <==> c !in "NRBQK"
  {
    match c
    case 'N' => Knight
    case 'R' => Rook
    case 'B' => Bishop
    case 'Q' => Queen
    case 'K' => King
    case _ => Pawn
  }

  /** Where the starting square begins: 0 for a pawn move, 1 after a piece letter. */
  function StartOffset(p: PieceName): nat {
    if p == Pawn then 0 else 1
  }

  /** A character whose UTF-8 encoding takes exactly two bytes. */
  predicate IsTwoByte(c: char) {
    128 as char <= c < 0x800 as char
  }

  /** The two bytes after the offset are two ASCII characters. */
  predicate AsciiStart(s: string, off: nat) {
    off + 2 <= |s| && IsAscii(s[off]) && IsAscii(s[off + 1])
  }

  /** `get_data_from_move` does not panic: the byte slices `[0..1]` and the starting square
      slice exist and lie on character boundaries. The first character is one byte; the
      two bytes of the start slice are two ASCII characters, or, after a piece letter,
      one character of two bytes. */
  predicate DecodeDefined(s: string) {
    |s| >= 1 && IsAscii(s[0]) &&
    var off := StartOffset(MoveKind(s[0]));
    AsciiStart(s, off) || (off == 1 && 2 <= |s| && IsTwoByte(s[1]))
  }

  /** The characters the two-byte start slice covers. */
  function StartSlice(s: string): (t: string)
    requires DecodeDefined(s)
    ensures var off := StartOffset(MoveKind(s[0]));
      if AsciiStart(s, off) then t == s[off..off + 2] else |t| == 1 && t[0] == s[1] && !IsAscii(t[0])
  {
    var off := StartOffset(MoveKind(s[0]));
    if AsciiStart(s, off) then s[off..off + 2] else s[1..2]
  }

  datatype MoveData = MoveData(start: Coordinates, end: Coordinates, name: PieceName)

  /** `get_data_from_move`: the piece from the first character, the starting square from
      the two bytes after it, the ending square from the last square match. */
  function DecodeMove(s: string): (r: Result<MoveData>)
    requires DecodeDefined(s)
    ensures r.Ok? ==> var off := StartOffset(MoveKind(s[0]));
      r.value.name == MoveKind(s[0]) && IsSquareAt(s, off) && r.value.start == SquareOf(s, off)
    ensures r.Ok? ==> exists i :: IsSquareAt(s, i) && r.value.end == SquareOf(s, i) &&
                                  (forall j :: i < j ==> !IsSquareAt(s, j))
    ensures r.Err? <==> !IsSquareAt(s, StartOffset(MoveKind(s[0])))
    ensures r.Err? ==> r.error == InvalidFormat
  {
    var name := MoveKind(s[0]);
    var off := StartOffset(name);
    var first := StartSlice(s);
    assert GetSquareDefined(first) && (GetSquare(first).Ok? <==> IsSquareAt(s, off)) by {
      if AsciiStart(s, off) {
        TwoCharSquare(first);
      } else {
        assert !ContainsSquare(first);
      }
    }
    match GetSquare(first)
    case Err(e) => Err(e)
    case Ok(start) =>
      assert IsSquareAt(s, off);
      var last := LastSquareIndex(s);
      var tail := s[last..last + 2];
      TwoCharSquare(tail);
      Ok(MoveData(start, GetSquare(tail).value, name))
  }

  /** After a piece letter, a two-byte character where the start square should be is
      sliced on its own, and `get_square` refuses it as InvalidFormat. */
  lemma DecodeTwoByteStart(s: string)
    requires |s| >= 2 && s[0] in "NRBQK" && IsTwoByte(s[1])
    ensures DecodeDefined(s) && StartSlice(s) == [s[1]] && DecodeMove(s) == Err(InvalidFormat)
  {
    assert MoveKind(s[0]) != Pawn;
  }

  predicate IsPieceLetter(c: char) {
    c in "RNBKQ"
  }

  /** `sq x? sq`: two squares, optionally separated by the capture mark. */
  predicate IsSquarePair(t: string) {
    (|t| == 4 && IsSquareAt(t, 0) && IsSquareAt(t, 2)) ||
    (|t| == 5 && IsSquareAt(t, 0) && t[2] == 'x' && IsSquareAt(t, 3))
  }

  predicate IsCastling(s: string) {
    s == "O-O-O" || s == "O-O"
  }

  /** The anchored move pattern of the newer validators:
      `O-O-O`, `O-O`, `[RNBKQ]? sq x? sq`, or `sq x? sq [RNBKQ]?`. */
  predicate MatchesMoveGrammar(s: string) {
    IsCastling(s) || IsSquarePair(s) ||
    (|s| >= 1 && IsPieceLetter(s[0]) && IsSquarePair(s[1..])) ||
    (|s| >= 1 && IsPieceLetter(s[|s| - 1]) && IsSquarePair(s[..|s| - 1]))
  }

  /** Index of the first square of a non-castling move matching the grammar. */
  function FirstSquareIndex(s: string): nat
    requires |s| >= 1
  {
    if IsPieceLetter(s[0]) then 1 else 0
  }

  /** Index of the second square of a non-castling move matching the grammar. */
  function SecondSquareIndex(s: string): nat
    requires |s| >= 4
  {
    var f := FirstSquareIndex(s);
    if s[f + 2] == 'x' then f + 3 else f + 2
  }

  /** A move that matches the grammar decodes without error: the piece letter (or a pawn),
      the square after it and the second square of the pattern. */
  lemma {:induction false} DecodeGrammar(s: string)
    requires MatchesMoveGrammar(s) && !IsCastling(s)
    ensures |s| >= 4 && IsSquareAt(s, FirstSquareIndex(s)) && IsSquareAt(s, SecondSquareIndex(s))
    ensures DecodeDefined(s)
    ensures DecodeMove(s) == Ok(MoveData(SquareOf(s, FirstSquareIndex(s)), SquareOf(s, SecondSquareIndex(s)),
      MoveKind(s[0])))
  {
    var f := FirstSquareIndex(s);
    var e := SecondSquareIndex(s);
    if IsPieceLetter(s[0]) {
      var t := s[1..];
      assert IsSquarePair(t);
      assert IsSquareAt(t, 0);
      assert IsSquareAt(s, 1);
      if |t| == 4 { assert IsSquareAt(t, 2); assert IsSquareAt(s, 3); }
      else { assert IsSquareAt(t, 3); assert IsSquareAt(s, 4); }
    } else {
      var t := if IsSquarePair(s) then s else s[..|s| - 1];
      assert IsSquarePair(t);
      assert IsSquareAt(s, 0);
      if |t| == 4 { assert IsSquareAt(s, 2); } else { assert IsSquareAt(s, 3); }
    }
    assert MoveKind(s[0]) == Pawn <==> f == 0;
    var r := DecodeMove(s);
    assert r.Ok?;
    var i :| IsSquareAt(s, i) && r.value.end == SquareOf(s, i) && forall j :: i < j ==> !IsSquareAt(s, j);
    assert i == e;
  }

  /** `O-O` occurs at index `i`. */
  predicate IsCastleMarkAt(s: string, i: int) {
    0 <= i && i + 2 < |s| && s[i] == 'O' && s[i + 1] == '-' && s[i + 2] == 'O'
  }

  /** The unanchored pattern of the oldest validator: it accepts any text containing `O-O`
      (which covers `O-O-O`) or a square pair `sq x? sq`; the optional piece prefix and
      check suffix of the pattern never change whether it matches. */
  predicate ContainsMovePattern(s: string) {
    (exists i :: 0 <= i < |s| && IsCastleMarkAt(s, i)) ||
    (exists i :: 0 <= i < |s| && IsSquareAt(s, i) && (IsSquareAt(s, i + 2) || (i + 2 < |s| && s[i + 2] == 'x' && IsSquareAt(s, i + 3))))
  }

  /** Every move the anchored pattern accepts is accepted by the oldest one too. */
  lemma GrammarContainsPattern(s: string)
    requires MatchesMoveGrammar(s)
    ensures ContainsMovePattern(s)
  {
    if IsCastling(s) {
      assert IsCastleMarkAt(s, 0);
    } else {
      DecodeGrammar(s);
      var f := FirstSquareIndex(s);
      assert IsSquareAt(s, f);
    }
  }
}
