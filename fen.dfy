/** The FEN text format as `parse_fen` reads it and `to_fen` writes it. All three
    generations of the engine share this format; only the game-outcome field they derive
    from the parsed board differs, and that lives with each generation. */
module Fen {
  import opened Types
  import opened Text
  import opened Squares

  /** U+212A KELVIN SIGN: `to_lowercase` maps it to `k` and it is an uppercase letter,
      so `parse_fen` reads it as a white king. */
  const KelvinSign: char := 0x212A as char

  /** The piece a placement character stands for: one of `rnbqkp` in either case,
      uppercase meaning White. */
  function PieceOfChar(c: char): (r: Option<Piece>)
    ensures r.Some? ==> !IsDigit(c) && c != '/' && c != ' '
  {
    if c == KelvinSign then Some(Piece(White, King))
    else match c
      case 'R' => Some(Piece(White, Rook))
      case 'N' => Some(Piece(White, Knight))
      case 'B' => Some(Piece(White, Bishop))
      case 'Q' => Some(Piece(White, Queen))
      case 'K' => Some(Piece(White, King))
      case 'P' => Some(Piece(White, Pawn))
      case 'r' => Some(Piece(Black, Rook))
      case 'n' => Some(Piece(Black, Knight))
      case 'b' => Some(Piece(Black, Bishop))
      case 'q' => Some(Piece(Black, Queen))
      case 'k' => Some(Piece(Black, King))
      case 'p' => Some(Piece(Black, Pawn))
      case _ => None
  }

  /** The letter `to_fen` writes for a piece; `parse_fen` reads it back as the same piece. */
  function PieceChar(p: Piece): (c: char)
    ensures PieceOfChar(c) == Some(p)
    ensures !IsDigit(c) && c != '/' && c != ' ' && IsLetter(c)
  {
    match (p.color, p.name)
    case (White, Rook) => 'R'
    case (White, Knight) => 'N'
    case (White, Bishop) => 'B'
    case (White, Queen) => 'Q'
    case (White, King) => 'K'
    case (White, Pawn) => 'P'
    case (Black, Rook) => 'r'
    case (Black, Knight) => 'n'
    case (Black, Bishop) => 'b'
    case (Black, Queen) => 'q'
    case (Black, King) => 'k'
    case (Black, Pawn) => 'p'
  }

  /** `n` empty cells. */
  function Nones(n: nat): (r: seq<Cell>)
    ensures |r| == n && forall i :: 0 <= i < n ==> r[i] == None
  {
    seq(n, _ => None)
  }

  function Prepend(x: seq<Cell>, rest: Option<seq<Cell>>): Option<seq<Cell>> {
    if rest.None? then None else Some(x + rest.value)
  }

  /** One rank of the placement field, read character by character: a digit stands for
      that many empty cells (`0` for none), a piece letter for one piece, and anything
      else is an error. The length is checked separately. */
  function DecodeCells(t: string): Option<seq<Cell>>
    decreases |t|
  {
    if |t| == 0 then Some([])
    else if IsDigit(t[0]) then Prepend(Nones(DigitValue(t[0])), DecodeCells(t[1..]))
    else if PieceOfChar(t[0]).Some? then Prepend([PieceOfChar(t[0])], DecodeCells(t[1..]))
    else None
  }

  lemma PrependTwice(x: seq<Cell>, y: seq<Cell>, rest: Option<seq<Cell>>)
    ensures Prepend(x, Prepend(y, rest)) == Prepend(x + y, rest)
  {
    if rest.Some? {
      assert x + (y + rest.value) == (x + y) + rest.value;
    }
  }

  /** The rank loop of `parse_fen`: the cells of one rank, or None at the first character
      that is neither a digit nor a piece letter. */
  method DecodeRank(t: string) returns (r: Option<seq<Cell>>)
    ensures r == DecodeCells(t)
  {
    var row: seq<Cell> := [];
    var j := 0;
    assert t[0..] == t;
    assert Prepend([], DecodeCells(t)) == DecodeCells(t) by {
      if DecodeCells(t).Some? { assert [] + DecodeCells(t).value == DecodeCells(t).value; }
    }
    while j < |t|
      invariant 0 <= j <= |t|
      invariant DecodeCells(t) == Prepend(row, DecodeCells(t[j..]))
    {
      var c := t[j];
      var rest := t[j..];
      assert rest[0] == c && rest[1..] == t[j + 1..];
      if IsDigit(c) {
        PrependTwice(row, Nones(DigitValue(c)), DecodeCells(t[j + 1..]));
        row := row + Nones(DigitValue(c));
      } else {
        var p := PieceOfChar(c);
        if p.None? {
          return None;
        }
        PrependTwice(row, [p], DecodeCells(t[j + 1..]));
        row := row + [p];
      }
      j := j + 1;
    }
    assert t[j..] == [];
    assert row + [] == row;
    return Some(row);
  }

  function Combine(a: Option<seq<Cell>>, b: Option<seq<Cell>>): Option<seq<Cell>> {
    if a.Some? && b.Some? then Some(a.value + b.value) else None
  }

  /** Reading two pieces of text one after the other reads their concatenation. */
  lemma {:induction false} DecodeConcat(a: string, b: string)
    ensures DecodeCells(a + b) == Combine(DecodeCells(a), DecodeCells(b))
    decreases |a|
  {
    if |a| == 0 {
      assert a + b == b;
      if DecodeCells(b).Some? { assert [] + DecodeCells(b).value == DecodeCells(b).value; }
    } else {
      assert (a + b)[0] == a[0];
      assert (a + b)[1..] == a[1..] + b;
      DecodeConcat(a[1..], b);
      var x := if IsDigit(a[0]) then Nones(DigitValue(a[0])) else [PieceOfChar(a[0])];
      if IsDigit(a[0]) || PieceOfChar(a[0]).Some? {
        assert DecodeCells(a) == Prepend(x, DecodeCells(a[1..]));
        assert DecodeCells(a + b) == Prepend(x, DecodeCells(a[1..] + b));
        if DecodeCells(a[1..]).Some? && DecodeCells(b).Some? {
          assert x + (DecodeCells(a[1..]).value + DecodeCells(b).value)
              == (x + DecodeCells(a[1..]).value) + DecodeCells(b).value;
        }
      }
    }
  }

  /** The pending run of empty cells, as `to_fen` writes it when a piece or the rank end comes. */
  function Flush(counter: nat): string {
    if counter != 0 then NatToString(counter) else ""
  }

  /** The run-length encoding `to_fen` produces for the cells `r`, `counter` empty cells
      being pending from before. */
  function EncodeRun(r: seq<Cell>, counter: nat): string
    decreases |r|
  {
    if |r| == 0 then Flush(counter)
    else match r[0]
      case None => EncodeRun(r[1..], counter + 1)
      case Some(p) => Flush(counter) + [PieceChar(p)] + EncodeRun(r[1..], 0)
  }

  function EncodeRank(r: seq<Cell>): string {
    EncodeRun(r, 0)
  }

  /** A run of at most nine empty cells followed by the cells `r` is what the encoding reads back as. */
  lemma {:induction false} DecodeEncodeRun(r: seq<Cell>, counter: nat)
    requires counter + |r| <= 9
    ensures DecodeCells(EncodeRun(r, counter)) == Some(Nones(counter) + r)
    decreases |r|
  {
    if counter != 0 {
      var d := NatToString(counter);
      assert d == [DigitChar(counter)];
      assert d[1..] == [];
      assert DecodeCells(d[1..]) == Some([]);
      assert Nones(counter) + [] == Nones(counter);
      assert DecodeCells(Flush(counter)) == Some(Nones(counter));
    } else {
      assert DecodeCells(Flush(counter)) == Some(Nones(counter));
    }
    if |r| == 0 {
      assert Nones(counter) + r == Nones(counter);
    } else {
      match r[0]
      case None =>
        DecodeEncodeRun(r[1..], counter + 1);
        assert Nones(counter + 1) + r[1..] == Nones(counter) + r;
      case Some(p) =>
        DecodeEncodeRun(r[1..], 0);
        var c := PieceChar(p);
        assert [c][1..] == [];
        assert DecodeCells([c][1..]) == Some([]);
        assert [Some(p)] + [] == [Some(p)];
        assert DecodeCells([c]) == Some([Some(p)]);
        DecodeConcat(Flush(counter), [c]);
        DecodeConcat(Flush(counter) + [c], EncodeRun(r[1..], 0));
        assert Nones(counter) + [Some(p)] + (Nones(0) + r[1..]) == Nones(counter) + r;
    }
  }

  predicate IsLetter(c: char) {
    'a' <= c <= 'z' || 'A' <= c <= 'Z'
  }

  /** An encoded rank holds only digits and piece letters. */
  lemma {:induction false} EncodeRunChars(r: seq<Cell>, counter: nat, c: char)
    requires !IsDigit(c) && !IsLetter(c)
    ensures c !in EncodeRun(r, counter)
    decreases |r|
  {
    NatTextFree(counter, c);
    if |r| > 0 {
      match r[0]
      case None => EncodeRunChars(r[1..], counter + 1, c);
      case Some(p) => EncodeRunChars(r[1..], 0, c);
    }
  }

  /** A rank of the placement field is well formed: it reads back as exactly eight cells. */
  predicate RankOk(t: string) {
    var d := DecodeCells(t);
    d.Some? && |d.value| == 8
  }

  function RankCells(t: string): (r: Row)
    requires RankOk(t)
    ensures Some(r) == DecodeCells(t)
  {
    DecodeCells(t).value
  }

  /** The placement field: eight `/`-separated ranks, the first one being row 7. */
  function DecodePlacement(field: string): (r: Option<Grid>)
  {
    GridOfRanks(Split(field, '/'))
  }

  predicate AllRanksOk(parts: seq<string>)
    requires |parts| == 8
  {
    forall k :: 0 <= k < 8 ==> RankOk(parts[k])
  }

  /** The grid the rank texts describe, the first text being row 7. */
  function GridOfRanks(parts: seq<string>): (r: Option<Grid>)
    ensures r.Some? <==> |parts| == 8 && AllRanksOk(parts)
    ensures r.Some? ==> forall i :: 0 <= i < 8 ==> Some(r.value[i]) == DecodeCells(parts[7 - i])
  {
    if |parts| != 8 || !AllRanksOk(parts) then None
    else
      assert RankOk(parts[0]) && RankOk(parts[1]) && RankOk(parts[2]) && RankOk(parts[3]);
      assert RankOk(parts[4]) && RankOk(parts[5]) && RankOk(parts[6]) && RankOk(parts[7]);
      Some([RankCells(parts[7]), RankCells(parts[6]), RankCells(parts[5]), RankCells(parts[4]),
            RankCells(parts[3]), RankCells(parts[2]), RankCells(parts[1]), RankCells(parts[0])])
  }

  /** The eight rank texts of a grid, row 7 first. */
  function RankTexts(g: Grid): (ts: seq<string>)
    ensures |ts| == 8 && forall k :: 0 <= k < 8 ==> ts[k] == EncodeRank(g[7 - k])
  {
    seq(8, k requires 0 <= k < 8 => EncodeRank(g[7 - k]))
  }

  function PlacementText(g: Grid): string {
    Join(RankTexts(g), '/')
  }

  /** The placement field `to_fen` writes reads back as the same grid. */
  lemma PlacementRoundTrip(g: Grid)
    ensures ' ' !in PlacementText(g)
    ensures DecodePlacement(PlacementText(g)) == Some(g)
  {
    var ts := RankTexts(g);
    forall k | 0 <= k < 8
      ensures '/' !in ts[k] && ' ' !in ts[k] && DecodeCells(ts[k]) == Some(g[7 - k])
    {
      EncodeRunChars(g[7 - k], 0, '/');
      EncodeRunChars(g[7 - k], 0, ' ');
      DecodeEncodeRun(g[7 - k], 0);
      assert Nones(0) + g[7 - k] == g[7 - k];
    }
    SplitJoin(ts, '/');
    JoinChars(ts, '/', ' ');
    assert AllRanksOk(ts);
    var r := GridOfRanks(ts);
    assert r.Some?;
    forall i | 0 <= i < 8
      ensures r.value[i] == g[i]
    {
      assert Some(r.value[i]) == DecodeCells(ts[7 - i]);
    }
    assert r.value == g;
  }

  /** The castling field: a flag is set when its letter occurs anywhere in the field. */
  function CastlingOf(field: string): (m: CastlingMap)
    ensures CastlingComplete(m)
    ensures m[(White, Kingside)] <==> 'K' in field
    ensures m[(White, Queenside)] <==> 'Q' in field
    ensures m[(Black, Kingside)] <==> 'k' in field
    ensures m[(Black, Queenside)] <==> 'q' in field
  {
    map[(Black, Kingside) := 'k' in field, (Black, Queenside) := 'q' in field,
        (White, Kingside) := 'K' in field, (White, Queenside) := 'Q' in field]
  }

  function Letter(b: bool, c: char): string {
    if b then [c] else ""
  }

  /** The castling field `to_fen` writes: the set flags in the order K, Q, k, q, or `-`. */
  function CastlingText(m: CastlingMap): string
    requires CastlingComplete(m)
  {
    var t := Letter(m[(White, Kingside)], 'K') + Letter(m[(White, Queenside)], 'Q') +
             Letter(m[(Black, Kingside)], 'k') + Letter(m[(Black, Queenside)], 'q');
    if t == "" then "-" else t
  }

  /** A complete castling map holds exactly the four keys there are. */
  lemma CompleteKeys(m: CastlingMap)
    requires CastlingComplete(m)
    ensures m.Keys == {(White, Kingside), (White, Queenside), (Black, Kingside), (Black, Queenside)}
  {
    forall k | k in m
      ensures k in {(White, Kingside), (White, Queenside), (Black, Kingside), (Black, Queenside)}
    {
      match k
      case (White, Kingside) =>
      case (White, Queenside) =>
      case (Black, Kingside) =>
      case (Black, Queenside) =>
    }
  }

  /** Which letters the four flag letters of the castling field hold. */
  lemma LettersIn(wk: bool, wq: bool, bk: bool, bq: bool)
    ensures var t := Letter(wk, 'K') + Letter(wq, 'Q') + Letter(bk, 'k') + Letter(bq, 'q');
      ('K' in t <==> wk) && ('Q' in t <==> wq) && ('k' in t <==> bk) && ('q' in t <==> bq) &&
      ' ' !in t && (t == "" <==> !wk && !wq && !bk && !bq)
  {
  }

  /** The castling field `to_fen` writes reads back as the same flags. */
  lemma CastlingRoundTrip(m: CastlingMap)
    requires CastlingComplete(m)
    ensures ' ' !in CastlingText(m)
    ensures CastlingOf(CastlingText(m)) == m
  {
    LettersIn(m[(White, Kingside)], m[(White, Queenside)], m[(Black, Kingside)], m[(Black, Queenside)]);
    var r := CastlingOf(CastlingText(m));
    CompleteKeys(m);
    CompleteKeys(r);
    forall k | k in m
      ensures r[k] == m[k]
    {
      match k
      case (White, Kingside) =>
      case (White, Queenside) =>
      case (Black, Kingside) =>
      case (Black, Queenside) =>
    }
  }

  /** The position a FEN describes, apart from the side to move (which `parse_fen` checks
      but discards) and the outcome each generation derives from the grid. */
  datatype Position = Position(grid: Grid, castling: CastlingMap, enPassant: Option<Coordinates>,
                               halfmove: nat, fullmove: nat)

  predicate IsSideField(t: string) {
    t == "w" || t == "b"
  }

  /** `parse_fen` does not panic: when it reaches the en-passant field, `get_square` on it
      does not panic either. */
  predicate FieldsDefined(f: seq<string>) {
    |f| == 6 && DecodePlacement(f[0]).Some? && IsSideField(f[1]) && f[3] != "-" ==> GetSquareDefined(f[3])
  }

  predicate FenDefined(fen: string) {
    FieldsDefined(Split(fen, ' '))
  }

  /** The en-passant field: `-` for none, otherwise a square as `get_square` reads it. */
  function EnPassantOf(t: string): (r: Result<Option<Coordinates>>)
    requires t != "-" ==> GetSquareDefined(t)
    ensures t == "-" <==> r == Ok(None)
  {
    if t == "-" then Ok(None)
    else match GetSquare(t)
      case Err(e) => Err(e)
      case Ok(c) => Ok(Some(c))
  }

  /** `parse_fen` on its split fields, without the outcome. */
  function ParseFields(f: seq<string>): (r: Result<Position>)
    requires FieldsDefined(f)
    ensures r.Ok? ==> CastlingComplete(r.value.castling)
    ensures r.Ok? ==> r.value.halfmove <= UsizeMax && r.value.fullmove <= UsizeMax
    ensures r.Ok? && r.value.enPassant.Some? ==> r.value.enPassant.value.col < 8 && r.value.enPassant.value.row < 9
    ensures |f| != 6 ==> r == Err(InvalidFormat)
  {
    if |f| != 6 then Err(InvalidFormat)
    else
      var placement := DecodePlacement(f[0]);
      if placement.None? || !IsSideField(f[1]) then Err(InvalidFormat)
      else
        var ep := EnPassantOf(f[3]);
        if ep.Err? then Err(ep.error)
        else
          var half := ParseUsize(f[4]);
          var full := ParseUsize(f[5]);
          if half.None? || full.None? then Err(InvalidFormat)
          else Ok(Position(placement.value, CastlingOf(f[2]), ep.value, half.value, full.value))
  }

  /** `parse_fen` without the outcome: six space-separated fields; a bad placement or side
      field is InvalidFormat; then the en-passant square (which can be InvalidFormat or
      InvalidSquare); then the two clocks, InvalidFormat unless they parse as usize. */
  function ParsePosition(fen: string): (r: Result<Position>)
    requires FenDefined(fen)
  {
    ParseFields(Split(fen, ' '))
  }

  function SideText(next: Color): string {
    if next == White then "w" else "b"
  }

  function EnPassantText(ep: Option<Coordinates>): string
    requires ep.Some? ==> OnBoard(ep.value)
  {
    if ep.None? then "-" else GetTile(ep.value).value
  }

  /** The en-passant field `to_fen` writes reads back as the same square. */
  lemma EnPassantRoundTrip(ep: Option<Coordinates>)
    requires ep.Some? ==> OnBoard(ep.value)
    ensures ' ' !in EnPassantText(ep)
    ensures EnPassantText(ep) != "-" ==> GetSquareDefined(EnPassantText(ep))
    ensures EnPassantOf(EnPassantText(ep)) == Ok(ep)
  {
    if ep.Some? {
      TileSquare(ep.value);
      assert |EnPassantText(ep)| == 2;
    }
  }

  /** The six fields `to_fen` writes. */
  function FenFields(pos: Position, next: Color): (f: seq<string>)
    requires CastlingComplete(pos.castling)
    requires pos.enPassant.Some? ==> OnBoard(pos.enPassant.value)
    ensures |f| == 6
  {
    [PlacementText(pos.grid), SideText(next), CastlingText(pos.castling), EnPassantText(pos.enPassant),
     NatToString(pos.halfmove), NatToString(pos.fullmove)]
  }

  /** `to_fen`: fails with InvalidSquare exactly when the en-passant square is off the board. */
  function PositionText(pos: Position, next: Color): (r: Result<string>)
    requires CastlingComplete(pos.castling)
    ensures r.Err? <==> pos.enPassant.Some? && !OnBoard(pos.enPassant.value)
    ensures r.Err? ==> r.error == InvalidSquare
  {
    if pos.enPassant.Some? && !OnBoard(pos.enPassant.value) then Err(InvalidSquare)
    else Ok(Join(FenFields(pos, next), ' '))
  }

  /** The text `to_fen` writes, field after field. */
  lemma PositionTextFields(pos: Position, next: Color)
    requires CastlingComplete(pos.castling) && (pos.enPassant.Some? ==> OnBoard(pos.enPassant.value))
    ensures PositionText(pos, next) == Ok(PlacementText(pos.grid) + " " + SideText(next) + " " +
      CastlingText(pos.castling) + " " + EnPassantText(pos.enPassant) + " " +
      NatToString(pos.halfmove) + " " + NatToString(pos.fullmove))
  {
    var f := FenFields(pos, next);
    JoinSnoc(f, ' ');
    assert f[..5][..4] == f[..4] && f[..4][..3] == f[..3] && f[..3][..2] == f[..2] && f[..2][..1] == f[..1];
    JoinSnoc(f[..5], ' ');
    JoinSnoc(f[..4], ' ');
    JoinSnoc(f[..3], ' ');
    JoinSnoc(f[..2], ' ');
  }

  /** No field `to_fen` writes holds a space. */
  lemma FieldsFree(pos: Position, next: Color)
    requires CastlingComplete(pos.castling)
    requires pos.enPassant.Some? ==> OnBoard(pos.enPassant.value)
    ensures Free(FenFields(pos, next), ' ')
  {
    PlacementRoundTrip(pos.grid);
    CastlingRoundTrip(pos.castling);
    EnPassantRoundTrip(pos.enPassant);
    NatTextFree(pos.halfmove, ' ');
    NatTextFree(pos.fullmove, ' ');
  }

  /** Six fields each of which reads back as its part of `pos` are read back as `pos`. */
  lemma ParseFieldsOk(placement: string, side: string, castling: string, ep: string,
                      half: string, full: string, pos: Position)
    requires DecodePlacement(placement) == Some(pos.grid) && IsSideField(side)
    requires CastlingOf(castling) == pos.castling
    requires ep != "-" ==> GetSquareDefined(ep)
    requires EnPassantOf(ep) == Ok(pos.enPassant)
    requires ParseUsize(half) == Some(pos.halfmove) && ParseUsize(full) == Some(pos.fullmove)
    ensures FieldsDefined([placement, side, castling, ep, half, full])
    ensures ParseFields([placement, side, castling, ep, half, full]) == Ok(pos)
  {
  }

  /** The fields `to_fen` writes are read back as the same position. */
  lemma FieldsRoundTrip(pos: Position, next: Color)
    requires CastlingComplete(pos.castling)
    requires pos.enPassant.Some? ==> OnBoard(pos.enPassant.value)
    requires pos.halfmove <= UsizeMax && pos.fullmove <= UsizeMax
    ensures Free(FenFields(pos, next), ' ')
    ensures FieldsDefined(FenFields(pos, next))
    ensures ParseFields(FenFields(pos, next)) == Ok(pos)
  {
    FieldsFree(pos, next);
    PlacementRoundTrip(pos.grid);
    CastlingRoundTrip(pos.castling);
    EnPassantRoundTrip(pos.enPassant);
    ParseFormat(pos.halfmove);
    ParseFormat(pos.fullmove);
    ParseFieldsOk(PlacementText(pos.grid), SideText(next), CastlingText(pos.castling),
                  EnPassantText(pos.enPassant), NatToString(pos.halfmove), NatToString(pos.fullmove), pos);
  }

  /** What `to_fen` writes, `parse_fen` reads back as the same position, and its fields
      are the six `to_fen` wrote, the side to move among them. */
  lemma FenRoundTrip(pos: Position, next: Color)
    requires CastlingComplete(pos.castling)
    requires pos.enPassant.Some? ==> OnBoard(pos.enPassant.value)
    requires pos.halfmove <= UsizeMax && pos.fullmove <= UsizeMax
    ensures PositionText(pos, next).Ok?
    ensures Split(PositionText(pos, next).value, ' ') == FenFields(pos, next)
    ensures FenDefined(PositionText(pos, next).value)
    ensures ParsePosition(PositionText(pos, next).value) == Ok(pos)
  {
    FieldsRoundTrip(pos, next);
    SplitJoin(FenFields(pos, next), ' ');
  }

  /** Printing a parsed position and parsing it again is stable, whenever the parsed
      en-passant square is printable. */
  lemma ParsePrintParse(fen: string, next: Color)
    requires FenDefined(fen) && ParsePosition(fen).Ok?
    requires ParsePosition(fen).value.enPassant.Some? ==> OnBoard(ParsePosition(fen).value.enPassant.value)
    ensures PositionText(ParsePosition(fen).value, next).Ok?
    ensures FenDefined(PositionText(ParsePosition(fen).value, next).value)
    ensures ParsePosition(PositionText(ParsePosition(fen).value, next).value) == ParsePosition(fen)
  {
    var pos := ParsePosition(fen).value;
    FenRoundTrip(pos, next);
  }

  /** No field `to_fen` writes holds a character other than a digit, a letter, `/` or
      `-`, so the separators of the nine-board format never occur in it. */
  lemma PositionTextFree(pos: Position, next: Color, c: char)
    requires CastlingComplete(pos.castling) && (pos.enPassant.Some? ==> OnBoard(pos.enPassant.value))
    requires !IsDigit(c) && !IsLetter(c) && c != ' ' && c != '/' && c != '-'
    ensures c !in PositionText(pos, next).value
  {
    PlacementFree(pos.grid, c);
    if pos.enPassant.Some? {
      NatTextFree(pos.enPassant.value.row + 1, c);
    }
    LettersIn(pos.castling[(White, Kingside)], pos.castling[(White, Queenside)],
              pos.castling[(Black, Kingside)], pos.castling[(Black, Queenside)]);
    NatTextFree(pos.halfmove, c);
    NatTextFree(pos.fullmove, c);
    SixFree(PlacementText(pos.grid), SideText(next), CastlingText(pos.castling),
            EnPassantText(pos.enPassant), NatToString(pos.halfmove), NatToString(pos.fullmove), c);
    JoinChars(FenFields(pos, next), ' ', c);
  }

  /** The placement field holds only digits, piece letters and `/`. */
  lemma PlacementFree(g: Grid, c: char)
    requires !IsDigit(c) && !IsLetter(c) && c != '/'
    ensures c !in PlacementText(g)
  {
    var ts := RankTexts(g);
    forall k | 0 <= k < 8
      ensures c !in ts[k]
    {
      EncodeRunChars(g[7 - k], 0, c);
    }
    JoinChars(ts, '/', c);
  }

  lemma SixFree(a: string, b: string, d: string, e: string, f: string, h: string, c: char)
    requires c !in a && c !in b && c !in d && c !in e && c !in f && c !in h
    ensures Free([a, b, d, e, f, h], c)
  {
  }
}
