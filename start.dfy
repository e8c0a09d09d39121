/** The standard starting position that every `Default` board is parsed from, and the
    proof that `parse_fen` reads it as expected (so its `unwrap` never panics). */
module Start {
  import opened Types
  import opened Text
  import opened Fen
  import MetaGame
  import Engine
  import Legacy

  /** Rook, knight, bishop, queen, king, bishop, knight, rook. */
  function BackRank(c: Color): Row {
    [Some(Piece(c, Rook)), Some(Piece(c, Knight)), Some(Piece(c, Bishop)), Some(Piece(c, Queen)),
     Some(Piece(c, King)), Some(Piece(c, Bishop)), Some(Piece(c, Knight)), Some(Piece(c, Rook))]
  }

  function PawnRank(c: Color): Row {
    var p := Some(Piece(c, Pawn));
    [p, p, p, p, p, p, p, p]
  }

  /** White on rows 0 and 1, Black on rows 6 and 7. */
  const StartGrid: Grid := [BackRank(White), PawnRank(White), EmptyRow, EmptyRow, EmptyRow, EmptyRow,
                            PawnRank(Black), BackRank(Black)]

  const StartPosition: Position :=
    Position(StartGrid, map[(White, Kingside) := true, (White, Queenside) := true,
                            (Black, Kingside) := true, (Black, Queenside) := true], None, 0, 1)

  /** Text made of piece letters only. */
  predicate Letters(t: string) {
    forall i :: 0 <= i < |t| ==> !IsDigit(t[i]) && PieceOfChar(t[i]).Some?
  }

  /** The pieces a text of letters names, one per character. */
  function Pieces(t: string): (r: seq<Cell>)
    ensures |r| == |t| && forall i :: 0 <= i < |t| ==> r[i] == PieceOfChar(t[i])
  {
    seq(|t|, i requires 0 <= i < |t| => PieceOfChar(t[i]))
  }

  /** A text of piece letters decodes to those pieces, one cell each. */
  lemma {:induction false} DecodeLetters(t: string)
    requires Letters(t)
    ensures DecodeCells(t) == Some(Pieces(t))
    decreases |t|
  {
    if |t| > 0 {
      assert Letters(t[1..]) by {
        forall i | 0 <= i < |t| - 1
          ensures !IsDigit(t[1..][i]) && PieceOfChar(t[1..][i]).Some?
        {
          assert t[1..][i] == t[i + 1];
        }
      }
      DecodeLetters(t[1..]);
      assert [PieceOfChar(t[0])] + Pieces(t[1..]) == Pieces(t);
    }
  }

  /** Eight letters naming the back rank of colour `c`. */
  predicate BackLetters(c: Color, t: string) {
    |t| == 8 && (forall i :: 0 <= i < 8 ==> !IsDigit(t[i])) &&
    PieceOfChar(t[0]) == Some(Piece(c, Rook)) && PieceOfChar(t[1]) == Some(Piece(c, Knight)) &&
    PieceOfChar(t[2]) == Some(Piece(c, Bishop)) && PieceOfChar(t[3]) == Some(Piece(c, Queen)) &&
    PieceOfChar(t[4]) == Some(Piece(c, King)) && PieceOfChar(t[5]) == Some(Piece(c, Bishop)) &&
    PieceOfChar(t[6]) == Some(Piece(c, Knight)) && PieceOfChar(t[7]) == Some(Piece(c, Rook))
  }

  /** Eight letters naming pawns of colour `c`. */
  predicate PawnLetters(c: Color, t: string) {
    |t| == 8 && forall i :: 0 <= i < 8 ==> !IsDigit(t[i]) && PieceOfChar(t[i]) == Some(Piece(c, Pawn))
  }

  /** The single digit 8. */
  predicate EmptyLetters(t: string) {
    |t| == 1 && t[0] == '8'
  }

  lemma BackRankText(c: Color, t: string)
    requires BackLetters(c, t)
    ensures DecodeCells(t) == Some(BackRank(c)) && '/' !in t && ' ' !in t
  {
    DecodeLetters(t);
    assert Pieces(t) == BackRank(c);
  }

  lemma PawnRankText(c: Color, t: string)
    requires PawnLetters(c, t)
    ensures DecodeCells(t) == Some(PawnRank(c)) && '/' !in t && ' ' !in t
  {
    DecodeLetters(t);
    assert Pieces(t) == PawnRank(c);
  }

  lemma EmptyRankText(t: string)
    requires EmptyLetters(t)
    ensures DecodeCells(t) == Some(EmptyRow) && '/' !in t && ' ' !in t
  {
    assert IsDigit(t[0]) && DigitValue(t[0]) == 8;
    assert t[1..] == "";
    assert DecodeCells(t[1..]) == Some([]);
    assert Nones(8) + [] == EmptyRow;
  }

  /** The letters of the starting ranks. */
  lemma StartLetters()
    ensures BackLetters(Black, "rnbqkbnr") && PawnLetters(Black, "pppppppp") && EmptyLetters("8")
    ensures PawnLetters(White, "PPPPPPPP") && BackLetters(White, "RNBQKBNR")
  {
    assert PieceOfChar('r') == Some(Piece(Black, Rook)) && PieceOfChar('n') == Some(Piece(Black, Knight));
    assert PieceOfChar('b') == Some(Piece(Black, Bishop)) && PieceOfChar('q') == Some(Piece(Black, Queen));
    assert PieceOfChar('k') == Some(Piece(Black, King)) && PieceOfChar('p') == Some(Piece(Black, Pawn));
    assert PieceOfChar('R') == Some(Piece(White, Rook)) && PieceOfChar('N') == Some(Piece(White, Knight));
    assert PieceOfChar('B') == Some(Piece(White, Bishop)) && PieceOfChar('Q') == Some(Piece(White, Queen));
    assert PieceOfChar('K') == Some(Piece(White, King)) && PieceOfChar('P') == Some(Piece(White, Pawn));
  }

  /** A separator-free word, a separator, the rest: the word is the first part. */
  lemma SplitWord(w: string, rest: string, sep: char)
    requires sep !in w
    ensures Split(w + ([sep] + rest), sep) == [w] + Split(rest, sep)
  {
    var t := [sep] + rest;
    SplitPrefix(w, t, sep);
    assert t[0] == sep && t[1..] == rest;
    assert Split(t, sep) == [""] + Split(rest, sep);
    assert w + "" == w;
  }

  /** Six separator-free fields joined by the separator split back into those fields. */
  lemma SplitSix(a: string, b: string, c: string, d: string, e: string, f: string, sep: char)
    requires sep !in a && sep !in b && sep !in c && sep !in d && sep !in e && sep !in f
    ensures Split(a + ([sep] + (b + ([sep] + (c + ([sep] + (d + ([sep] + (e + ([sep] + f))))))))), sep) ==
            [a, b, c, d, e, f]
  {
    var r4 := e + ([sep] + f);
    var r3 := d + ([sep] + r4);
    var r2 := c + ([sep] + r3);
    var r1 := b + ([sep] + r2);
    SplitFree(f, sep);
    SplitWord(e, f, sep);
    SplitWord(d, r4, sep);
    SplitWord(c, r3, sep);
    SplitWord(b, r2, sep);
    SplitWord(a, r1, sep);
  }

  /** The starting placement written with the rank texts `bb` (black back rank), `bp` (black
      pawns), `e` (an empty rank, four times), `wp` and `wb`. */
  function PlacementOf(bb: string, bp: string, e: string, wp: string, wb: string): string {
    bb + ("/" + (bp + ("/" + (e + ("/" + (e + ("/" + (e + ("/" + (e + ("/" + (wp + ("/" + wb)))))))))))))
  }

  lemma RanksSplit(bb: string, bp: string, e: string, wp: string, wb: string)
    requires '/' !in bb && '/' !in bp && '/' !in e && '/' !in wp && '/' !in wb
    ensures Split(PlacementOf(bb, bp, e, wp, wb), '/') == [bb, bp, e, e, e, e, wp, wb]
  {
    var r6 := wp + ("/" + wb);
    var r5 := e + ("/" + r6);
    var r4 := e + ("/" + r5);
    var r3 := e + ("/" + r4);
    var r2 := e + ("/" + r3);
    var r1 := bp + ("/" + r2);
    SplitFree(wb, '/');
    SplitWord(wp, wb, '/');
    SplitWord(e, r6, '/');
    SplitWord(e, r5, '/');
    SplitWord(e, r4, '/');
    SplitWord(e, r3, '/');
    SplitWord(bp, r2, '/');
    SplitWord(bb, r1, '/');
  }

  lemma RanksGrid(bb: string, bp: string, e: string, wp: string, wb: string)
    requires DecodeCells(bb) == Some(BackRank(Black)) && DecodeCells(bp) == Some(PawnRank(Black))
    requires DecodeCells(e) == Some(EmptyRow)
    requires DecodeCells(wp) == Some(PawnRank(White)) && DecodeCells(wb) == Some(BackRank(White))
    ensures GridOfRanks([bb, bp, e, e, e, e, wp, wb]) == Some(StartGrid)
  {
    var ranks := [bb, bp, e, e, e, e, wp, wb];
    assert RankOk(bb) && RankOk(bp) && RankOk(e) && RankOk(wp) && RankOk(wb);
    assert AllRanksOk(ranks) by {
      assert ranks[0] == bb && ranks[1] == bp && ranks[2] == e && ranks[3] == e;
      assert ranks[4] == e && ranks[5] == e && ranks[6] == wp && ranks[7] == wb;
    }
    var g := GridOfRanks(ranks).value;
    assert g[0] == BackRank(White) && g[1] == PawnRank(White) && g[2] == EmptyRow && g[3] == EmptyRow;
    assert g[4] == EmptyRow && g[5] == EmptyRow && g[6] == PawnRank(Black) && g[7] == BackRank(Black);
  }

  /** Rank texts with the starting letters make a placement field that reads as the
      starting grid and holds no space. */
  lemma PlacementReads(bb: string, bp: string, e: string, wp: string, wb: string)
    requires BackLetters(Black, bb) && PawnLetters(Black, bp) && EmptyLetters(e)
    requires PawnLetters(White, wp) && BackLetters(White, wb)
    ensures DecodePlacement(PlacementOf(bb, bp, e, wp, wb)) == Some(StartGrid)
    ensures ' ' !in PlacementOf(bb, bp, e, wp, wb)
  {
    BackRankText(Black, bb);
    PawnRankText(Black, bp);
    EmptyRankText(e);
    PawnRankText(White, wp);
    BackRankText(White, wb);
    RanksSplit(bb, bp, e, wp, wb);
    RanksGrid(bb, bp, e, wp, wb);
  }

  /** A single digit reads as its value. */
  lemma OneDigit(t: string)
    requires |t| == 1 && IsDigit(t[0])
    ensures ParseUsize(t) == Some(DigitValue(t[0])) && ' ' !in t
  {
    assert AllDigits(t);
    assert t[..0] == "";
    assert DigitsValue(t) == DigitValue(t[0]);
  }

  /** A castling field holding all four letters sets all four flags. */
  lemma StartCastling(castle: string)
    requires 'K' in castle && 'Q' in castle && 'k' in castle && 'q' in castle
    ensures CastlingOf(castle) == StartPosition.castling
  {
  }

  /** The five fields after the placement, as `Default` writes them, read as the
      starting flags, no en-passant square and clocks 0 and 1. */
  lemma OtherFieldsRead(p: string, side: string, castle: string, ep: string, half: string, full: string)
    requires DecodePlacement(p) == Some(StartGrid) && side == "w" && ep == "-"
    requires 'K' in castle && 'Q' in castle && 'k' in castle && 'q' in castle && ' ' !in castle
    requires |half| == 1 && half[0] == '0' && |full| == 1 && full[0] == '1'
    ensures FieldsDefined([p, side, castle, ep, half, full])
    ensures ParseFields([p, side, castle, ep, half, full]) == Ok(StartPosition)
  {
    OneDigit(half);
    OneDigit(full);
    StartCastling(castle);
    assert IsSideField(side) && EnPassantOf(ep) == Ok(None);
  }

  /** The FEN `Default` parses, "rnbqkbnr/pppppppp/8/8/8/8/PPPPPPPP/RNBQKBNR w KQkq - 0 1",
      assembled from its ranks and fields. */
  const StartFen: string :=
    PlacementOf("rnbqkbnr", "pppppppp", "8", "PPPPPPPP", "RNBQKBNR") +
    (" " + ("w" + (" " + ("KQkq" + (" " + ("-" + (" " + ("0" + (" " + "1")))))))))

  /** The six fields of the starting FEN. */
  lemma StartFields()
    ensures Split(StartFen, ' ') ==
            [PlacementOf("rnbqkbnr", "pppppppp", "8", "PPPPPPPP", "RNBQKBNR"), "w", "KQkq", "-", "0", "1"]
    ensures DecodePlacement(PlacementOf("rnbqkbnr", "pppppppp", "8", "PPPPPPPP", "RNBQKBNR")) == Some(StartGrid)
  {
    StartLetters();
    PlacementReads("rnbqkbnr", "pppppppp", "8", "PPPPPPPP", "RNBQKBNR");
    var p := PlacementOf("rnbqkbnr", "pppppppp", "8", "PPPPPPPP", "RNBQKBNR");
    SplitSix(p, "w", "KQkq", "-", "0", "1", ' ');
  }

  /** `parse_fen` of the starting FEN reads the standard position: all four castling
      flags set, no en-passant square, clocks 0 and 1. */
  lemma StartParses()
    ensures FenDefined(StartFen) && ParsePosition(StartFen) == Ok(StartPosition)
  {
    StartFields();
    assert "KQkq"[0] == 'K' && "KQkq"[1] == 'Q' && "KQkq"[2] == 'k' && "KQkq"[3] == 'q';
    OtherFieldsRead(PlacementOf("rnbqkbnr", "pppppppp", "8", "PPPPPPPP", "RNBQKBNR"), "w", "KQkq", "-", "0", "1");
  }

  /** Both kings are on the starting grid, on the e-file. */
  lemma StartKings()
    ensures HasPiece(StartGrid, Piece(White, King)) && HasPiece(StartGrid, Piece(Black, King))
  {
    assert StartGrid[0][4] == Some(Piece(White, King));
    assert StartGrid[7][4] == Some(Piece(Black, King));
  }

  /** `ChessBoard::default()` of the two newer engines: the open starting position with the
      starting FEN as its history. */
  const StartBoard: Engine.BoardState := Engine.BoardState(StartPosition, Open(true), [StartFen])

  /** `ChessBoard::default()` of the oldest engine: the starting position, no winner. */
  const StartLegacy: Legacy.LegacyState := Legacy.LegacyState(StartPosition, None)

  /** `parse_fen(..).unwrap()` in every `Default` does not panic, and yields the boards above. */
  lemma DefaultParses()
    ensures FenDefined(StartFen)
    ensures Engine.ParseBoard(StartFen) == Ok(StartBoard)
    ensures Legacy.ParseBoard(StartFen) == Ok(StartLegacy)
  {
    StartParses();
    StartKings();
  }

  /** The 3x3 grid with the same board in every cell. */
  function Nine<T>(x: T): (r: seq<seq<T>>)
    ensures MetaGame.Shaped(r) && forall i, j :: 0 <= i < 3 && 0 <= j < 3 ==> r[i][j] == x
  {
    [[x, x, x], [x, x, x], [x, x, x]]
  }
}
