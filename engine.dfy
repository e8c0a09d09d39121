/** The rules of the two newer engines, `helpers/src/chess.rs` and `helpers/src/lib.rs`,
    as functions of a board value: `parse_fen`, `validate_move` and `make_move`. The
    `ChessBoard` class in `Chess` is proved to compute exactly these. */
module Engine {
  import opened Types
  import opened Text
  import opened Squares
  import opened Fen
  import opened Rules

  /** Which newer engine: `helpers/src/chess.rs` (ChessRs) or `helpers/src/lib.rs` (LibRs).
      They differ in the pawn rule and in removing the pawn taken en passant. */
  datatype Generation = ChessRs | LibRs

  /** A `ChessBoard` as a value: the FEN-visible position, `end` and `past`. */
  datatype BoardState = BoardState(pos: Position, end: EndResult, past: seq<string>)

  /** A board whose castling map holds its four keys, as every parsed board does. */
  predicate Sound(st: BoardState) {
    CastlingComplete(st.pos.castling)
  }

  /** The outcome `parse_fen` derives from the grid: White wins without a black king,
      Black wins without a white king, otherwise the game is open. */
  function Outcome(g: Grid): (e: EndResult)
    ensures e == Open(true) <==> HasPiece(g, Piece(Black, King)) && HasPiece(g, Piece(White, King))
    ensures e == Won(ColorCode(White)) <==> !HasPiece(g, Piece(Black, King))
    ensures e == Won(ColorCode(Black)) <==> HasPiece(g, Piece(Black, King)) && !HasPiece(g, Piece(White, King))
  {
    if !HasPiece(g, Piece(Black, King)) then Won(ColorCode(White))
    else if !HasPiece(g, Piece(White, King)) then Won(ColorCode(Black))
    else Open(true)
  }

  /** `parse_fen`: the position, the outcome of its grid, and the input as the history. */
  function ParseBoard(fen: string): (r: Result<BoardState>)
    requires FenDefined(fen)
    ensures r.Ok? ==> Sound(r.value) && r.value.past == [fen]
  {
    match ParsePosition(fen)
    case Err(e) => Err(e)
    case Ok(pos) => Ok(BoardState(pos, Outcome(pos.grid), [fen]))
  }

  /** `parse_fen` succeeds exactly when there are six fields, eight ranks of eight cells
      each, a side `w` or `b`, a readable en-passant field and two usize clocks; the only
      errors are InvalidFormat and (from the en-passant square) InvalidSquare. */
  lemma ParseBoardAccepts(fen: string)
    requires FenDefined(fen)
    ensures var f := Split(fen, ' ');
      ParseBoard(fen).Ok? <==>
        |f| == 6 && |Split(f[0], '/')| == 8 && AllRanksOk(Split(f[0], '/')) && IsSideField(f[1]) &&
        EnPassantOf(f[3]).Ok? && ParseUsize(f[4]).Some? && ParseUsize(f[5]).Some?
    ensures ParseBoard(fen).Err? ==> ParseBoard(fen).error == InvalidFormat || ParseBoard(fen).error == InvalidSquare
    ensures |Split(fen, ' ')| != 6 ==> ParseBoard(fen) == Err(InvalidFormat)
  {
    var f := Split(fen, ' ');
    if |f| == 6 && DecodePlacement(f[0]).Some? && IsSideField(f[1]) && f[3] != "-" {
      assert EnPassantOf(f[3]).Err? ==> EnPassantOf(f[3]).error == InvalidFormat || EnPassantOf(f[3]).error == InvalidSquare;
    }
  }

  /** A board printed by `to_fen` parses back to the same position, with `past` holding
      just that text. */
  lemma ParseOfPrinted(st: BoardState, next: Color)
    requires Sound(st) && (st.pos.enPassant.Some? ==> OnBoard(st.pos.enPassant.value))
    requires st.pos.halfmove <= UsizeMax && st.pos.fullmove <= UsizeMax
    ensures PositionText(st.pos, next).Ok? && FenDefined(PositionText(st.pos, next).value)
    ensures ParseBoard(PositionText(st.pos, next).value) ==
      Ok(BoardState(st.pos, Outcome(st.pos.grid), [PositionText(st.pos, next).value]))
  {
    FenRoundTrip(st.pos, next);
  }

  /** The decoded move of a non-castling move string that matches the grammar. */
  function Decoded(alg: string): (d: MoveData)
    requires MatchesMoveGrammar(alg) && !IsCastling(alg)
    ensures OnBoard(d.start) && OnBoard(d.end) && |alg| >= 4
    ensures DecodeDefined(alg) && DecodeMove(alg) == Ok(d)
  {
    DecodeGrammar(alg);
    DecodeMove(alg).value
  }

  /** The landing test: without `x` the target is empty; with `x` it holds no own piece,
      and it may be empty only for a pawn. */
  predicate TargetOk(g: Grid, alg: string, mover: Color, d: MoveData)
    requires OnBoard(d.end)
  {
    if 'x' !in alg then At(g, d.end).None?
    else match At(g, d.end)
      case Some(p) => p.color != mover
      case None => d.name == Pawn
  }

  /** The row of a pawn taken en passant by `mover` landing on `e`. */
  function VictimSquare(mover: Color, e: Coordinates): Coordinates
    requires mover == White ==> e.row >= 1
  {
    if mover == Black then Coordinates(e.row + 1, e.col) else Coordinates(e.row - 1, e.col)
  }

  /** Black moves its pawns toward row 0, White toward row 7. */
  function Forward(mover: Color, s: Coordinates, e: Coordinates): nat {
    if mover == Black then SaturatingSub(s.row, e.row) else SaturatingSub(e.row, s.row)
  }

  predicate DoubleStep(mover: Color, s: Coordinates, e: Coordinates) {
    if mover == Black then s.row == 6 && e.row == 4 else s.row == 1 && e.row == 3
  }

  /** The pawn rule. With `x`: one row forward and one column over, onto a piece or the
      en-passant square. Otherwise, in chess.rs, a single step onto an empty cell or a
      double step with the skipped cell empty too; in lib.rs either step onto an empty cell
      or the en-passant square, the skipped cell unchecked. Landing on row 0 or 7 also
      needs a trailing piece letter. */
  predicate PawnOk(gen: Generation, pos: Position, alg: string, mover: Color, s: Coordinates, e: Coordinates)
    requires OnBoard(s) && OnBoard(e) && |alg| >= 1
  {
    var g := pos.grid;
    var single := Forward(mover, s, e) == 1;
    var double := DoubleStep(mover, s, e);
    var ep := pos.enPassant == Some(e);
    var valid :=
      if 'x' in alg then single && AbsDiff(s.col, e.col) == 1 && (At(g, e).Some? || ep)
      else if gen == ChessRs then
        if single && s.col == e.col then At(g, e).None?
        else if double && s.col == e.col then At(g, e).None? && g[if mover == Black then 5 else 2][s.col].None?
        else false
      else (double || single) && s.col == e.col && (At(g, e).None? || ep);
    if e.row == 0 || e.row == 7 then IsPieceLetter(alg[|alg| - 1]) && valid else valid
  }

  /** The per-piece test of `validate_move`. */
  predicate PieceRule(gen: Generation, pos: Position, alg: string, mover: Color, d: MoveData)
    requires OnBoard(d.start) && OnBoard(d.end) && |alg| >= 1
  {
    var g := pos.grid;
    match d.name
    case Rook => RookPath(g, d.start, d.end)
    case Knight => KnightJump(d.start, d.end)
    case Bishop => BishopPath(g, d.start, d.end)
    case Queen => RookPath(g, d.start, d.end) || BishopPath(g, d.start, d.end)
    case King => KingStep(g, d.start, d.end)
    case Pawn => PawnOk(gen, pos, alg, mover, d.start, d.end)
  }

  /** The non-castling part of `validate_move`: landing square, then the piece on the
      start square, then the piece's own rule. */
  predicate MoveOk(gen: Generation, pos: Position, alg: string, mover: Color)
    requires MatchesMoveGrammar(alg) && !IsCastling(alg)
  {
    var d := Decoded(alg);
    TargetOk(pos.grid, alg, mover, d) && At(pos.grid, d.start) == Some(Piece(mover, d.name)) &&
    PieceRule(gen, pos, alg, mover, d)
  }

  /** `validate_move`: the grammar (InvalidFormat), then the finished-game guard (GameOver),
      then castling or the ordinary move test. */
  function Validate(gen: Generation, st: BoardState, alg: string, mover: Color): (r: Result<bool>)
    ensures !MatchesMoveGrammar(alg) ==> r == Err(InvalidFormat)
    ensures MatchesMoveGrammar(alg) && st.end != Open(true) ==> r == Err(GameOver)
    ensures r.Err? ==> !MatchesMoveGrammar(alg) || st.end != Open(true)
  {
    if !MatchesMoveGrammar(alg) then Err(InvalidFormat)
    else if st.end != Open(true) then Err(GameOver)
    else if IsCastling(alg) then Ok(CastleOk(st.pos.grid, alg == "O-O-O", mover))
    else Ok(MoveOk(gen, st.pos, alg, mover))
  }

  /** The castling flags after an ordinary move: a king move clears both of the mover's
      flags, a rook leaving a1/h1 (White) or a8/h8 (Black) clears that side's flag. */
  function CastlingAfter(m: CastlingMap, piece: Piece, s: Coordinates): (m': CastlingMap)
    requires CastlingComplete(m) && OnBoard(s)
    ensures m'.Keys == m.Keys
  {
    if piece.name == King then ClearCastling(m, piece.color)
    else if piece.name == Rook then
      var tile := GetTile(s).value;
      if piece.color == Black then
        if tile == "a8" then m[(Black, Queenside) := false]
        else if tile == "h8" then m[(Black, Kingside) := false]
        else m
      else
        if tile == "a1" then m[(White, Queenside) := false]
        else if tile == "h1" then m[(White, Kingside) := false]
        else m
    else m
  }

  /** The first space-separated field of a FEN, the placement. */
  function FirstField(fen: string): string {
    Split(fen, ' ')[0]
  }

  /** How many recorded FENs have the placement field `f`. */
  function Repeats(past: seq<string>, f: string): (n: nat)
    ensures n <= |past|
    decreases |past|
  {
    if |past| == 0 then 0
    else Repeats(past[..|past| - 1], f) + (if FirstField(past[|past| - 1]) == f then 1 else 0)
  }

  /** The indices of the recorded FENs whose placement field is `f`. */
  ghost function Matching(past: seq<string>, f: string): set<int> {
    set k | 0 <= k < |past| && FirstField(past[k]) == f
  }

  /** The count is the number of recorded FENs with that placement, counted one index at a time. */
  lemma {:induction false} RepeatsCount(past: seq<string>, f: string)
    ensures Repeats(past, f) == |Matching(past, f)|
    decreases |past|
  {
    if |past| == 0 {
      assert Matching(past, f) == {};
    } else {
      var n := |past| - 1;
      var init := past[..n];
      RepeatsCount(init, f);
      if FirstField(past[n]) == f {
        assert Matching(past, f) == Matching(init, f) + {n};
        assert n !in Matching(init, f);
      } else {
        assert Matching(past, f) == Matching(init, f);
      }
    }
  }

  /** Counting over two histories one after the other adds their counts; in particular
      recording one more FEN raises the count by one exactly when its placement is `f`. */
  lemma {:induction false} RepeatsAppend(a: seq<string>, b: seq<string>, f: string)
    ensures Repeats(a + b, f) == Repeats(a, f) + Repeats(b, f)
    ensures |b| == 1 ==> Repeats(a + b, f) == Repeats(a, f) + (if FirstField(b[0]) == f then 1 else 0)
    decreases |b|
  {
    if |b| == 0 {
      assert a + b == a;
    } else {
      var n := |b| - 1;
      assert (a + b)[..|a + b| - 1] == a + b[..n];
      assert (a + b)[|a + b| - 1] == b[n];
      RepeatsAppend(a, b[..n], f);
      if |b| == 1 {
        assert Repeats(b[..n], f) == 0;
      }
    }
  }

  /** A pawn move the rule accepts never runs its en-passant victim off the board. */
  lemma PawnRows(gen: Generation, pos: Position, alg: string, mover: Color, s: Coordinates, e: Coordinates)
    requires OnBoard(s) && OnBoard(e) && |alg| >= 1 && PawnOk(gen, pos, alg, mover, s, e)
    ensures mover == Black ==> e.row + 1 < 8
    ensures mover == White ==> e.row >= 1
  {
  }

  /** The grid after an ordinary move: the pawn taken en passant removed (chess.rs only),
      the start emptied, the piece (or its promotion) on the target. */
  function MovedGrid(gen: Generation, st: BoardState, alg: string, mover: Color): (g: Grid)
    requires MatchesMoveGrammar(alg) && !IsCastling(alg) && MoveOk(gen, st.pos, alg, mover)
  {
    var d := Decoded(alg);
    var g0 := st.pos.grid;
    var g1 :=
      if gen == ChessRs && d.name == Pawn && st.pos.enPassant == Some(d.end) then
        PawnRows(gen, st.pos, alg, mover, d.start, d.end);
        Put(g0, VictimSquare(mover, d.end), None)
      else g0;
    var g2 := Put(Put(g1, d.start, None), d.end, Some(Piece(mover, d.name)));
    var last := alg[|alg| - 1];
    if d.name == Pawn && IsPieceLetter(last) then Put(g2, d.end, Some(Piece(mover, MoveKind(last)))) else g2
  }

  /** The en-passant square after a move by a `name` piece from `s` to `e`: the skipped
      cell of a pawn's two-row step, otherwise none. */
  function EnPassantAfter(name: PieceName, s: Coordinates, e: Coordinates): Option<Coordinates> {
    if name == Pawn && AbsDiff(s.row, e.row) == 2 then Some(Coordinates((s.row + e.row) / 2, s.col)) else None
  }

  /** The halfmove clock after a move: reset by a pawn move or a capture, otherwise one more. */
  function HalfmoveAfter(name: PieceName, capture: bool, half: nat): nat {
    if name == Pawn || capture then 0 else half + 1
  }

  /** The fullmove number after a move: one more after Black's move. */
  function FullmoveAfter(mover: Color, full: nat): nat {
    if mover == Black then full + 1 else full
  }

  /** The position after an ordinary move. */
  function MovedPosition(gen: Generation, st: BoardState, alg: string, mover: Color): (pos: Position)
    requires Sound(st) && MatchesMoveGrammar(alg) && !IsCastling(alg) && MoveOk(gen, st.pos, alg, mover)
    ensures pos.castling.Keys == st.pos.castling.Keys && CastlingComplete(pos.castling)
    ensures pos.enPassant.Some? ==> OnBoard(pos.enPassant.value)
  {
    var d := Decoded(alg);
    Position(MovedGrid(gen, st, alg, mover), CastlingAfter(st.pos.castling, Piece(mover, d.name), d.start),
             EnPassantAfter(d.name, d.start, d.end), HalfmoveAfter(d.name, 'x' in alg, st.pos.halfmove),
             FullmoveAfter(mover, st.pos.fullmove))
  }

  /** The win check of `make_move`, made on the grid before the move: landing on an
      occupied cell while the opponent has no king wins for the mover. */
  function WinCheck(g: Grid, alg: string, mover: Color, end: EndResult): EndResult
    requires MatchesMoveGrammar(alg) && !IsCastling(alg)
  {
    if At(g, Decoded(alg).end).Some? && !HasPiece(g, Piece(Opposite(mover), King)) then Won(ColorCode(mover))
    else end
  }

  /** The repetition check of `make_move` after `pos` is reached: its FEN, written with
      `mover` to move, is recorded, and the game is drawn when its placement field was
      already recorded twice; otherwise the outcome is `won`. */
  function Recorded(pos: Position, won: EndResult, past: seq<string>, mover: Color): (r: BoardState)
    requires CastlingComplete(pos.castling) && (pos.enPassant.Some? ==> OnBoard(pos.enPassant.value))
    ensures r.pos == pos && r.past == past + [PositionText(pos, mover).value]
  {
    var fen := PositionText(pos, mover).value;
    BoardState(pos, if Repeats(past, FirstField(fen)) >= 2 then Drawn(true) else won, past + [fen])
  }

  /** The ordinary part of `make_move`: the win check, the new position, then the
      repetition check. */
  function NormalStep(gen: Generation, st: BoardState, alg: string, mover: Color): (r: BoardState)
    requires Sound(st) && MatchesMoveGrammar(alg) && !IsCastling(alg) && MoveOk(gen, st.pos, alg, mover)
    ensures r.pos == MovedPosition(gen, st, alg, mover)
    ensures r.past == st.past + [PositionText(r.pos, mover).value]
  {
    Recorded(MovedPosition(gen, st, alg, mover), WinCheck(st.pos.grid, alg, mover, st.end), st.past, mover)
  }

  /** The king's new column and the rook's old and new columns of a castling move. */
  function CastleColumns(queenside: bool): (nat, nat, nat) {
    if queenside then (2, 0, 3) else (6, 7, 5)
  }

  /** The grid after castling: king from e to c or g, rook from a to d or from h to f. */
  function CastledGrid(g: Grid, queenside: bool, mover: Color): Grid {
    var r := HomeRow(mover);
    var (kingNew, rookOld, rookNew) := CastleColumns(queenside);
    Put(Put(Put(Put(g, Coordinates(r, 4), None), Coordinates(r, kingNew), Some(Piece(mover, King))),
            Coordinates(r, rookOld), None), Coordinates(r, rookNew), Some(Piece(mover, Rook)))
  }

  /** The castling part of `make_move`: pieces moved, half-move clock up by one, the
      mover's flags cleared, full-move up after Black, no en-passant square, and neither
      the outcome nor the history touched. */
  function CastleStep(st: BoardState, queenside: bool, mover: Color): (r: BoardState)
    requires Sound(st)
    ensures r.pos.castling.Keys == st.pos.castling.Keys && r.past == st.past
  {
    BoardState(Position(CastledGrid(st.pos.grid, queenside, mover), ClearCastling(st.pos.castling, mover), None,
                        st.pos.halfmove + 1, if mover == Black then st.pos.fullmove + 1 else st.pos.fullmove),
               st.end, st.past)
  }

  /** `make_move`: InvalidMove when `validate_move` says false, its error when it fails,
      otherwise the castling or ordinary step. */
  function Step(gen: Generation, st: BoardState, alg: string, mover: Color): (r: Result<BoardState>)
    requires Sound(st)
    ensures r.Ok? <==> Validate(gen, st, alg, mover) == Ok(true)
    ensures Validate(gen, st, alg, mover) == Ok(false) ==> r == Err(InvalidMove)
    ensures Validate(gen, st, alg, mover).Err? ==> r == Err(Validate(gen, st, alg, mover).error)
    ensures st.end != Open(true) ==> r.Err?
    ensures r.Ok? ==> Sound(r.value) && r.value.pos.castling.Keys == st.pos.castling.Keys
  {
    match Validate(gen, st, alg, mover)
    case Err(e) => Err(e)
    case Ok(ok) =>
      if !ok then Err(InvalidMove)
      else if IsCastling(alg) then Ok(CastleStep(st, alg == "O-O-O", mover))
      else Ok(NormalStep(gen, st, alg, mover))
  }

  // ---------------------------------------------------------------------------
  // What `validate_move` accepts

  /** An ordinary move is accepted exactly when the game is open, the start holds the
      mover's piece of the decoded kind, the landing test passes (without `x` an empty
      cell; with `x` no own piece, and an empty cell only for a pawn) and the piece's own
      rule holds. An accepted piece always moves. */
  lemma AcceptedMove(gen: Generation, st: BoardState, alg: string, mover: Color)
    requires MatchesMoveGrammar(alg) && !IsCastling(alg)
    ensures var d := Decoded(alg); var g := st.pos.grid;
      Validate(gen, st, alg, mover) == Ok(true) <==>
        st.end == Open(true) && At(g, d.start) == Some(Piece(mover, d.name)) &&
        ('x' !in alg ==> At(g, d.end).None?) &&
        ('x' in alg ==> (At(g, d.end).Some? ==> At(g, d.end).value.color != mover) &&
                        (At(g, d.end).None? ==> d.name == Pawn)) &&
        PieceRule(gen, st.pos, alg, mover, d)
    ensures Validate(gen, st, alg, mover) == Ok(true) ==> Decoded(alg).start != Decoded(alg).end
  {
  }

  /** The shape of every accepted ordinary move: a rook along exactly one line, a bishop
      along a diagonal, a queen along either, a knight by (1,2) or (2,1), a king by one
      step, a pawn by one or two rows forward and at most one column over. */
  lemma AcceptedGeometry(gen: Generation, st: BoardState, alg: string, mover: Color)
    requires MatchesMoveGrammar(alg) && !IsCastling(alg) && Validate(gen, st, alg, mover) == Ok(true)
    ensures var d := Decoded(alg);
      var dr := AbsDiff(d.start.row, d.end.row); var dc := AbsDiff(d.start.col, d.end.col);
      (d.name == Rook ==> (dr == 0) != (dc == 0)) &&
      (d.name == Bishop ==> dr == dc > 0) &&
      (d.name == Queen ==> (dr == 0) != (dc == 0) || dr == dc > 0) &&
      (d.name == Knight ==> (dr == 1 && dc == 2) || (dr == 2 && dc == 1)) &&
      (d.name == King ==> dr <= 1 && dc <= 1) &&
      (d.name == Pawn ==> dc <= 1 && 1 <= Forward(mover, d.start, d.end) <= 2)
  {
    var d := Decoded(alg);
    AcceptedMove(gen, st, alg, mover);
    if d.name == King {
      KingStepGeometry(st.pos.grid, d.start, d.end);
    }
  }

  /** The square spelled by file `c` and rank `rank`. */
  function SquareText(c: nat, rank: char): string
    requires c < 8
  {
    [('a' as int + c) as char, rank]
  }

  /** A white pawn's double step `x2x4`: chess.rs refuses it over an occupied third-rank
      cell, lib.rs accepts it. */
  lemma DoubleStepOverPiece(st: BoardState, c: nat)
    requires c < 8 && st.end == Open(true)
    requires st.pos.grid[1][c] == Some(Piece(White, Pawn)) && st.pos.grid[3][c].None? && st.pos.grid[2][c].Some?
    ensures var alg := SquareText(c, '2') + SquareText(c, '4');
      MatchesMoveGrammar(alg) && !IsCastling(alg) &&
      Validate(LibRs, st, alg, White) == Ok(true) && Validate(ChessRs, st, alg, White) == Ok(false)
  {
    var alg := SquareText(c, '2') + SquareText(c, '4');
    assert IsSquareAt(alg, 0) && IsSquareAt(alg, 2);
    assert IsSquarePair(alg);
    var d := Decoded(alg);
    assert d.start == Coordinates(1, c) && d.end == Coordinates(3, c) && d.name == Pawn;
  }

  /** The blocked-rank queen move of the `rook_bug` test: `Qd1a1` with a piece on b1 is
      never accepted. */
  lemma QueenBlockedOnRank(gen: Generation, st: BoardState, mover: Color)
    requires st.pos.grid[0][1].Some?
    ensures MatchesMoveGrammar("Qd1a1")
    ensures Validate(gen, st, "Qd1a1", mover) != Ok(true)
  {
    var alg := "Qd1a1";
    assert IsSquarePair(alg[1..]);
    var d := Decoded(alg);
    assert d.start == Coordinates(0, 3) && d.end == Coordinates(0, 0) && d.name == Queen;
    assert !RookPath(st.pos.grid, d.start, d.end) by {
      assert Min(3, 0) < 1 < Max(3, 0);
    }
  }

  /** Castling ignores the castling flags: two boards that differ only in them get the
      same verdict for every move. */
  lemma ValidateIgnoresRights(gen: Generation, st: BoardState, m: CastlingMap, alg: string, mover: Color)
    ensures Validate(gen, st, alg, mover) == Validate(gen, st.(pos := st.pos.(castling := m)), alg, mover)
  {
  }

  /** A castling move is refused during a finished game and otherwise accepted exactly
      when its side passes `CastleOk` (see `QueensideSquares` and `KingsideSquares`). */
  lemma CastlingAccepted(gen: Generation, st: BoardState, alg: string, mover: Color)
    requires IsCastling(alg)
    ensures MatchesMoveGrammar(alg)
    ensures st.end != Open(true) ==> Validate(gen, st, alg, mover) == Err(GameOver)
    ensures Validate(gen, st, alg, mover) == Ok(true) <==>
      st.end == Open(true) && (if alg == "O-O-O" then QueensideClear(st.pos.grid, mover) else KingsideClear(st.pos.grid, mover))
  {
    QueensideSquares(st.pos.grid, mover);
    KingsideSquares(st.pos.grid, mover);
  }

  // ---------------------------------------------------------------------------
  // What `make_move` does

  /** The kind on the target after a pawn move: a trailing piece letter promotes it. */
  function Promoted(alg: string, name: PieceName): PieceName
    requires |alg| >= 1
  {
    var last := alg[|alg| - 1];
    if name == Pawn && IsPieceLetter(last) then MoveKind(last) else name
  }

  /** chess.rs removes a pawn taken en passant: a pawn landing on the en-passant square. */
  predicate TakesEnPassant(gen: Generation, st: BoardState, alg: string)
    requires MatchesMoveGrammar(alg) && !IsCastling(alg)
  {
    gen == ChessRs && Decoded(alg).name == Pawn && st.pos.enPassant == Some(Decoded(alg).end)
  }

  /** The cells an ordinary move writes: the start is emptied, the target gets the piece
      (promoted by a trailing letter, on any rank), the pawn taken en passant is removed in
      chess.rs, and every other cell keeps its piece. */
  lemma MovedCells(gen: Generation, st: BoardState, alg: string, mover: Color)
    requires MatchesMoveGrammar(alg) && !IsCastling(alg) && MoveOk(gen, st.pos, alg, mover)
    ensures TakesEnPassant(gen, st, alg) ==> mover == White ==> Decoded(alg).end.row >= 1
    ensures TakesEnPassant(gen, st, alg) ==> mover == Black ==> Decoded(alg).end.row < 7
    ensures var d := Decoded(alg); var h := MovedGrid(gen, st, alg, mover);
      At(h, d.start) == None && At(h, d.end) == Some(Piece(mover, Promoted(alg, d.name)))
    ensures TakesEnPassant(gen, st, alg) ==>
      At(MovedGrid(gen, st, alg, mover), VictimSquare(mover, Decoded(alg).end)) == None
    ensures forall c ::
      (OnBoard(c) && c != Decoded(alg).start && c != Decoded(alg).end &&
       !(TakesEnPassant(gen, st, alg) && c == VictimSquare(mover, Decoded(alg).end))) ==>
      At(MovedGrid(gen, st, alg, mover), c) == At(st.pos.grid, c)
  {
    var d := Decoded(alg);
    if d.name == Pawn {
      PawnRows(gen, st.pos, alg, mover, d.start, d.end);
    }
    assert d.start != d.end by { AcceptedMove(gen, st.(end := Open(true)), alg, mover); }
    MovedUntouched(gen, st, alg, mover);
  }

  /** Every cell an ordinary move does not write keeps its piece. */
  lemma MovedUntouched(gen: Generation, st: BoardState, alg: string, mover: Color)
    requires MatchesMoveGrammar(alg) && !IsCastling(alg) && MoveOk(gen, st.pos, alg, mover)
    ensures forall c ::
      (OnBoard(c) && c != Decoded(alg).start && c != Decoded(alg).end &&
       !(TakesEnPassant(gen, st, alg) && c == VictimSquare(mover, Decoded(alg).end))) ==>
      At(MovedGrid(gen, st, alg, mover), c) == At(st.pos.grid, c)
  {
    var d := Decoded(alg);
    if d.name == Pawn {
      PawnRows(gen, st.pos, alg, mover, d.start, d.end);
    }
    var g0 := st.pos.grid;
    var g1 := if TakesEnPassant(gen, st, alg) then Put(g0, VictimSquare(mover, d.end), None) else g0;
    var g2 := Put(Put(g1, d.start, None), d.end, Some(Piece(mover, d.name)));
    var last := alg[|alg| - 1];
    var h := if d.name == Pawn && IsPieceLetter(last) then Put(g2, d.end, Some(Piece(mover, MoveKind(last)))) else g2;
    assert MovedGrid(gen, st, alg, mover) == h;
    forall c | OnBoard(c) && c != d.start && c != d.end && !(TakesEnPassant(gen, st, alg) && c == VictimSquare(mover, d.end))
      ensures At(h, c) == At(g0, c)
    {
      assert At(h, c) == At(g2, c) && At(g2, c) == At(g1, c) && At(g1, c) == At(g0, c);
    }
  }

  /** The clocks and the en-passant square after an ordinary move: the half-move clock
      restarts on a pawn move or a capture mark and otherwise counts up; the full-move
      number counts up after Black; the en-passant square is set exactly by a double step,
      to the skipped cell. */
  lemma MovedClocks(gen: Generation, st: BoardState, alg: string, mover: Color)
    requires Sound(st) && MatchesMoveGrammar(alg) && !IsCastling(alg) && MoveOk(gen, st.pos, alg, mover)
    ensures var d := Decoded(alg); var pos := MovedPosition(gen, st, alg, mover);
      (pos.halfmove == 0 <==> d.name == Pawn || 'x' in alg) &&
      (pos.halfmove != 0 ==> pos.halfmove == st.pos.halfmove + 1) &&
      pos.fullmove == st.pos.fullmove + (if mover == Black then 1 else 0) &&
      (pos.enPassant.Some? <==> d.name == Pawn && DoubleStep(mover, d.start, d.end)) &&
      (pos.enPassant.Some? ==> pos.enPassant.value == Coordinates(if mover == White then 2 else 5, d.start.col))
  {
  }

  /** The home square of the rook that castles on `side` for `c`. */
  function RookHome(c: Color, side: Side): Coordinates {
    Coordinates(HomeRow(c), if side == Queenside then 0 else 7)
  }

  /** The four corner names `make_move` compares the rook's start tile with. */
  lemma CornerTiles(s: Coordinates)
    requires OnBoard(s)
    ensures GetTile(s).value == "a1" <==> s == RookHome(White, Queenside)
    ensures GetTile(s).value == "h1" <==> s == RookHome(White, Kingside)
    ensures GetTile(s).value == "a8" <==> s == RookHome(Black, Queenside)
    ensures GetTile(s).value == "h8" <==> s == RookHome(Black, Kingside)
  {
    TileSquare(s);
    SquareTile("a1");
    SquareTile("h1");
    SquareTile("a8");
    SquareTile("h8");
  }

  /** A flag falls exactly when its own king moves, or its own rook leaves that side's
      corner; every other flag, the opponent's in particular, is kept. */
  lemma CastlingAfterMeaning(m: CastlingMap, piece: Piece, s: Coordinates)
    requires CastlingComplete(m) && OnBoard(s)
    ensures CastlingAfter(m, piece, s).Keys == m.Keys
    ensures forall k :: k in m ==>
      CastlingAfter(m, piece, s)[k] == (m[k] && !(k.0 == piece.color && (piece.name == King || (piece.name == Rook && s == RookHome(k.0, k.1)))))
  {
    CornerTiles(s);
    forall k | k in m
      ensures CastlingAfter(m, piece, s)[k] ==
        (m[k] && !(k.0 == piece.color && (piece.name == King || (piece.name == Rook && s == RookHome(k.0, k.1)))))
    {
      if k.1 == Kingside {
        assert RookHome(k.0, k.1) == Coordinates(HomeRow(k.0), 7);
      } else {
        assert RookHome(k.0, k.1) == Coordinates(HomeRow(k.0), 0);
      }
    }
  }

  /** Castling rights never come back, and a move never touches the opponent's rights,
      not even when it captures the opponent's rook on its corner. */
  lemma RightsOnlyFall(gen: Generation, st: BoardState, alg: string, mover: Color)
    requires Sound(st) && Step(gen, st, alg, mover).Ok?
    ensures var m' := Step(gen, st, alg, mover).value.pos.castling;
      forall k :: k in m' && m'[k] ==> st.pos.castling[k]
    ensures forall k :: k in st.pos.castling && k.0 == Opposite(mover) ==>
      Step(gen, st, alg, mover).value.pos.castling[k] == st.pos.castling[k]
  {
    if !IsCastling(alg) {
      CastlingAfterMeaning(st.pos.castling, Piece(mover, Decoded(alg).name), Decoded(alg).start);
    }
  }

  /** The placement field of the FEN `make_move` records. */
  lemma RecordedPlacement(pos: Position, next: Color)
    requires CastlingComplete(pos.castling) && (pos.enPassant.Some? ==> OnBoard(pos.enPassant.value))
    ensures FirstField(PositionText(pos, next).value) == PlacementText(pos.grid)
  {
    PlacementRoundTrip(pos.grid);
    FirstOfJoin(FenFields(pos, next), ' ');
  }

  /** The outcome after an ordinary accepted move: a draw when the new placement already
      occurs twice in the history; otherwise a win for the mover when the target was
      occupied and the opponent had no king before the move; otherwise still open. */
  lemma StepOutcome(gen: Generation, st: BoardState, alg: string, mover: Color)
    requires Sound(st) && MatchesMoveGrammar(alg) && !IsCastling(alg) && Validate(gen, st, alg, mover) == Ok(true)
    ensures var r := Step(gen, st, alg, mover).value; var g := st.pos.grid; var d := Decoded(alg);
      var drawn := Repeats(st.past, PlacementText(r.pos.grid)) >= 2;
      var won := At(g, d.end).Some? && !HasPiece(g, Piece(Opposite(mover), King));
      (r.end == Drawn(true) <==> drawn) &&
      (r.end == Won(ColorCode(mover)) <==> !drawn && won) &&
      (r.end == Open(true) <==> !drawn && !won)
  {
    assert st.end == Open(true) && MoveOk(gen, st.pos, alg, mover);
    var r := NormalStep(gen, st, alg, mover);
    assert Step(gen, st, alg, mover) == Ok(r);
    RecordedPlacement(r.pos, mover);
  }

  /** Taking the opponent's king does not end the game: the win test looks for the king
      before the capture removes it. */
  lemma KingCaptureDoesNotWin(gen: Generation, st: BoardState, alg: string, mover: Color)
    requires Sound(st) && MatchesMoveGrammar(alg) && !IsCastling(alg) && Validate(gen, st, alg, mover) == Ok(true)
    requires At(st.pos.grid, Decoded(alg).end) == Some(Piece(Opposite(mover), King))
    ensures !Step(gen, st, alg, mover).value.end.Won?
  {
    var e := Decoded(alg).end;
    assert st.pos.grid[e.row][e.col] == Some(Piece(Opposite(mover), King));
    StepOutcome(gen, st, alg, mover);
  }

  /** The FEN an ordinary move records: written with the mover as the side to move, it
      parses back to the new position. */
  lemma RecordedFenParses(gen: Generation, st: BoardState, alg: string, mover: Color)
    requires Sound(st) && MatchesMoveGrammar(alg) && !IsCastling(alg) && MoveOk(gen, st.pos, alg, mover)
    requires st.pos.halfmove < UsizeMax && st.pos.fullmove < UsizeMax
    ensures var pos := MovedPosition(gen, st, alg, mover); var fen := PositionText(pos, mover).value;
      |Split(fen, ' ')| == 6 && Split(fen, ' ')[1] == SideText(mover) && FenDefined(fen) && ParsePosition(fen) == Ok(pos)
  {
    FenRoundTrip(MovedPosition(gen, st, alg, mover), mover);
  }

  /** The history after an ordinary move gains exactly one FEN, which parses back to the
      new position; castling leaves the history alone. */
  lemma RecordedFen(gen: Generation, st: BoardState, alg: string, mover: Color)
    requires Sound(st) && Step(gen, st, alg, mover).Ok?
    requires st.pos.halfmove < UsizeMax && st.pos.fullmove < UsizeMax
    ensures IsCastling(alg) ==> Step(gen, st, alg, mover).value.past == st.past
    ensures !IsCastling(alg) ==> var r := Step(gen, st, alg, mover).value;
      |r.past| == |st.past| + 1 && r.past[..|st.past|] == st.past &&
      FenDefined(r.past[|st.past|]) && ParsePosition(r.past[|st.past|]) == Ok(r.pos)
  {
    if !IsCastling(alg) {
      var r := NormalStep(gen, st, alg, mover);
      assert Step(gen, st, alg, mover).value == r;
      RecordedFenParses(gen, st, alg, mover);
      assert r.past[..|st.past|] == st.past;
    }
  }

  /** The cells castling writes: on the home row the king leaves e for c or g, the rook
      leaves a for d or h for f; nothing else changes. */
  lemma CastledCells(g: Grid, queenside: bool, mover: Color)
    ensures var r := HomeRow(mover); var cols := CastleColumns(queenside); var h := CastledGrid(g, queenside, mover);
      h[r][4] == None && h[r][cols.0] == Some(Piece(mover, King)) &&
      h[r][cols.1] == None && h[r][cols.2] == Some(Piece(mover, Rook)) &&
      forall i, j :: 0 <= i < 8 && 0 <= j < 8 && !(i == r && (j == 4 || j == cols.0 || j == cols.1 || j == cols.2)) ==>
        h[i][j] == g[i][j]
  {
  }
}
