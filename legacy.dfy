/** The rules of the oldest engine, `src/lib/lib.rs`, as functions of a board value:
    `parse_fen`, `validate_move` and `make_move(mover, alg, next)`. The FEN text format
    is the one of `Fen`; what differs is the outcome (a `winner` colour or none), the
    unanchored move pattern, flag-based castling, the older rook, bishop, king and pawn
    rules, and the bookkeeping of `make_move`. The `LegacyBoard` class in `LegacyChess`
    is proved to compute exactly these. */
module Legacy {
  import opened Types
  import opened Text
  import opened Squares
  import opened Fen
  import opened Rules
  import Engine

  /** The oldest `ChessBoard` as a value: the FEN-visible position and `winner`, where
      Rust's `Color::None` is `None`. */
  datatype LegacyState = LegacyState(pos: Position, winner: Option<Color>)

  /** A board whose castling map holds its four keys, so that `get(..).unwrap()` succeeds. */
  predicate Sound(st: LegacyState) {
    CastlingComplete(st.pos.castling)
  }

  /** The winner `parse_fen` derives from the grid: White without a black king, Black
      without a white king, otherwise nobody. */
  function Winner(g: Grid): (w: Option<Color>)
    ensures w == Some(White) <==> !HasPiece(g, Piece(Black, King))
    ensures w == Some(Black) <==> HasPiece(g, Piece(Black, King)) && !HasPiece(g, Piece(White, King))
    ensures w == None <==> HasPiece(g, Piece(Black, King)) && HasPiece(g, Piece(White, King))
  {
    if !HasPiece(g, Piece(Black, King)) then Some(White)
    else if !HasPiece(g, Piece(White, King)) then Some(Black)
    else None
  }

  /** `parse_fen`: the position and the winner of its grid. */
  function ParseBoard(fen: string): (r: Result<LegacyState>)
    requires FenDefined(fen)
    ensures r.Ok? ==> Sound(r.value)
  {
    match ParsePosition(fen)
    case Err(e) => Err(e)
    case Ok(pos) => Ok(LegacyState(pos, Winner(pos.grid)))
  }

  /** The oldest `parse_fen` accepts exactly the texts the newer engines accept, with the
      same position and the same errors; only the outcome it derives differs. */
  lemma ParseLikeNewer(fen: string)
    requires FenDefined(fen)
    ensures ParseBoard(fen).Ok? <==> Engine.ParseBoard(fen).Ok?
    ensures ParseBoard(fen).Err? ==> ParseBoard(fen).error == Engine.ParseBoard(fen).error
    ensures ParseBoard(fen).Ok? ==>
      ParseBoard(fen).value.pos == Engine.ParseBoard(fen).value.pos &&
      (ParseBoard(fen).value.winner == None <==> Engine.ParseBoard(fen).value.end == Open(true))
  {
  }

  /** `to_fen` followed by `parse_fen` gives back the position, with the winner derived
      afresh from the grid. */
  lemma PrintParse(st: LegacyState, next: Color)
    requires Sound(st) && (st.pos.enPassant.Some? ==> OnBoard(st.pos.enPassant.value))
    requires st.pos.halfmove <= UsizeMax && st.pos.fullmove <= UsizeMax
    ensures PositionText(st.pos, next).Ok? && FenDefined(PositionText(st.pos, next).value)
    ensures ParseBoard(PositionText(st.pos, next).value) == Ok(LegacyState(st.pos, Winner(st.pos.grid)))
  {
    FenRoundTrip(st.pos, next);
  }

  // ---------------------------------------------------------------------------
  // validate_move

  function SideOf(queenside: bool): Side {
    if queenside then Queenside else Kingside
  }

  /** The castling test of the oldest `validate_move`: false without the flag; with the
      flag and rook and king at home, true exactly when the cells between are empty; with
      the flag and either piece elsewhere, true. */
  predicate CastleAllowed(pos: Position, queenside: bool, next: Color)
    requires CastlingComplete(pos.castling)
  {
    var q := CastleSquaresOf(queenside, next);
    if !pos.castling[(next, SideOf(queenside))] then false
    else if At(pos.grid, q.rook) == Some(Piece(next, Rook)) && At(pos.grid, q.king) == Some(Piece(next, King)) then
      BetweenEmpty(pos.grid, q.between)
    else true
  }

  /** The oldest `validate_rook`: a move along a row needs a change of column and empty
      cells strictly between; any other move only needs the cells strictly between the
      two rows on the start column to be empty, whatever the end column. */
  predicate RookScan(g: Grid, s: Coordinates, e: Coordinates)
    requires OnBoard(s) && OnBoard(e)
  {
    if s.row == e.row then s.col != e.col && forall c :: Min(s.col, e.col) < c < Max(s.col, e.col) ==> g[s.row][c].None?
    else forall r :: Min(s.row, e.row) < r < Max(s.row, e.row) ==> g[r][s.col].None?
  }

  /** The `i`th cell the oldest `validate_bishop` inspects, counted from the end square:
      toward the start column, and one row down (start column greater) or up (otherwise). */
  function DiagonalCell(s: Coordinates, e: Coordinates, i: nat): (int, int) {
    if s.col > e.col then (e.row - i, e.col + i) else (e.row + i, e.col - i)
  }

  /** The scan of cells `i` to `n - 1`: Some(false) at the first occupied one, None when
      one lies off the board (the index underflows or overruns and Rust panics), and
      Some(true) when all are empty. */
  function DiagonalScan(g: Grid, s: Coordinates, e: Coordinates, i: nat, n: nat): (r: Option<bool>)
    decreases n - i
  {
    if i >= n then Some(true)
    else
      var (row, col) := DiagonalCell(s, e, i);
      if !(0 <= row < 8 && 0 <= col < 8) then None
      else if g[row][col].Some? then Some(false)
      else DiagonalScan(g, s, e, i + 1, n)
  }

  /** The oldest `validate_bishop`: false unless both coordinates change by the same
      non-zero amount; then the scan of `DiagonalCell`s 1 to |Δcol| - 1. */
  function BishopScan(g: Grid, s: Coordinates, e: Coordinates): (r: Option<bool>)
    requires OnBoard(s) && OnBoard(e)
    ensures r == Some(true) ==> AbsDiff(s.row, e.row) == AbsDiff(s.col, e.col) && s.row != e.row
  {
    if AbsDiff(s.row, e.row) != AbsDiff(s.col, e.col) || s.row == e.row || s.col == e.col then Some(false)
    else DiagonalScan(g, s, e, 1, AbsDiff(s.col, e.col))
  }

  /** The king's test: one coordinate changes by exactly one, then the bishop or the rook
      scan. The bishop scan never runs off the board here. */
  predicate KingScan(g: Grid, s: Coordinates, e: Coordinates)
    requires OnBoard(s) && OnBoard(e)
  {
    if AbsDiff(s.row, e.row) == 1 || AbsDiff(s.col, e.col) == 1 then
      var b := BishopScan(g, s, e);
      (b.Some? && b.value) || RookScan(g, s, e)
    else false
  }

  /** The pawn test's usize subtraction `start - end` (Black) or `end - start` (White)
      of a move without `x` does not underflow. */
  predicate PawnDefined(alg: string, next: Color, s: Coordinates, e: Coordinates) {
    'x' !in alg ==> if next == Black then s.row >= e.row else e.row >= s.row
  }

  /** The oldest pawn rule. With `x`: one row forward and one column over, onto a piece
      or the en-passant square. Otherwise a double step from the home row (any columns,
      the skipped cell unchecked) or a single step in the same column, onto an empty
      cell. Promotion letters play no part. */
  predicate PawnRule(pos: Position, alg: string, next: Color, s: Coordinates, e: Coordinates)
    requires OnBoard(s) && OnBoard(e) && PawnDefined(alg, next, s, e)
  {
    if 'x' in alg then
      (if next == Black then s.row > e.row && s.row - e.row == 1 else e.row > s.row && e.row - s.row == 1) &&
      AbsDiff(s.col, e.col) == 1 && (At(pos.grid, e).Some? || pos.enPassant == Some(e))
    else
      var double := if next == Black then s.row == 6 && e.row == 4 else s.row == 1 && e.row == 3;
      var single := (if next == Black then s.row - e.row == 1 else e.row - s.row == 1) && s.col == e.col;
      (double || single) && At(pos.grid, e).None?
  }

  /** The per-piece test does not panic. */
  predicate PieceDefined(g: Grid, alg: string, next: Color, d: MoveData)
    requires OnBoard(d.start) && OnBoard(d.end)
  {
    match d.name
    case Bishop => BishopScan(g, d.start, d.end).Some?
    case Queen => !RookScan(g, d.start, d.end) ==> BishopScan(g, d.start, d.end).Some?
    case Pawn => PawnDefined(alg, next, d.start, d.end)
    case _ => true
  }

  /** The per-piece test of the oldest `validate_move`; the queen tries the rook scan
      first and the bishop scan only when it fails. */
  predicate PieceRule(pos: Position, alg: string, next: Color, d: MoveData)
    requires OnBoard(d.start) && OnBoard(d.end) && PieceDefined(pos.grid, alg, next, d)
  {
    var g := pos.grid;
    match d.name
    case Rook => RookScan(g, d.start, d.end)
    case Knight => KnightJump(d.start, d.end)
    case Bishop => BishopScan(g, d.start, d.end).value
    case Queen => RookScan(g, d.start, d.end) || BishopScan(g, d.start, d.end).value
    case King => KingScan(g, d.start, d.end)
    case Pawn => PawnRule(pos, alg, next, d.start, d.end)
  }

  /** The decoded move when the pattern holds, the game is open and the text is not
      exactly a castling move. */
  predicate Ordinary(st: LegacyState, alg: string) {
    ContainsMovePattern(alg) && st.winner.None? && !IsCastling(alg)
  }

  /** The oldest `validate_move` does not panic: the move text can be sliced, and when
      the landing and start tests pass, the piece's own test does not panic. */
  predicate ValidateDefined(st: LegacyState, alg: string, next: Color) {
    Ordinary(st, alg) ==>
      DecodeDefined(alg) &&
      (DecodeMove(alg).Ok? ==>
        var d := DecodeMove(alg).value;
        OnBoard(d.start) && OnBoard(d.end) &&
        (Engine.TargetOk(st.pos.grid, alg, next, d) && At(st.pos.grid, d.start) == Some(Piece(next, d.name)) ==>
          PieceDefined(st.pos.grid, alg, next, d)))
  }

  /** The ordinary part of the oldest `validate_move`: the landing test, the piece on the
      start square, then the piece's own test. */
  predicate MoveOk(pos: Position, alg: string, next: Color, d: MoveData)
    requires OnBoard(d.start) && OnBoard(d.end)
    requires Engine.TargetOk(pos.grid, alg, next, d) && At(pos.grid, d.start) == Some(Piece(next, d.name)) ==>
      PieceDefined(pos.grid, alg, next, d)
  {
    Engine.TargetOk(pos.grid, alg, next, d) && At(pos.grid, d.start) == Some(Piece(next, d.name)) &&
    PieceRule(pos, alg, next, d)
  }

  /** The oldest `validate_move`: the unanchored pattern (InvalidFormat), the winner
      guard (GameOver), castling by the flags, then the decoded move. */
  function Validate(st: LegacyState, alg: string, next: Color): (r: Result<bool>)
    requires Sound(st) && ValidateDefined(st, alg, next)
    ensures !ContainsMovePattern(alg) ==> r == Err(InvalidFormat)
    ensures ContainsMovePattern(alg) && st.winner.Some? ==> r == Err(GameOver)
    ensures r.Err? ==> r.error == InvalidFormat || r.error == GameOver
  {
    if !ContainsMovePattern(alg) then Err(InvalidFormat)
    else if st.winner.Some? then Err(GameOver)
    else if alg == "O-O-O" then Ok(CastleAllowed(st.pos, true, next))
    else if alg == "O-O" then Ok(CastleAllowed(st.pos, false, next))
    else match DecodeMove(alg)
      case Err(e) => Err(e)
      case Ok(d) => Ok(MoveOk(st.pos, alg, next, d))
  }

  // ---------------------------------------------------------------------------
  // make_move

  /** The en-passant square after a move by a `name` piece: a pawn moving two rows gives
      the start row and the mean of the two columns, another pawn move keeps the old
      square, any other piece clears it. */
  function EnPassantAfter(name: PieceName, s: Coordinates, e: Coordinates, prev: Option<Coordinates>): Option<Coordinates> {
    if name != Pawn then None
    else if AbsDiff(s.row, e.row) == 2 then Some(Coordinates(s.row, (s.col + e.col) / 2))
    else prev
  }

  /** The board after an accepted ordinary move: `winner` becomes the mover when the end
      square held a king of either colour; the start is emptied and the mover's piece put
      on the end; the castling flags, the en-passant square and the clocks follow. */
  function Moved(st: LegacyState, mover: Color, alg: string, next: Color, d: MoveData): (r: LegacyState)
    requires Sound(st) && OnBoard(d.start) && OnBoard(d.end)
    ensures Sound(r)
  {
    var g := st.pos.grid;
    var target := At(g, d.end);
    var winner := if target.Some? && target.value.name == King then Some(mover) else st.winner;
    var grid := Put(Put(g, d.start, None), d.end, Some(Piece(mover, d.name)));
    LegacyState(Position(grid, Engine.CastlingAfter(st.pos.castling, Piece(next, d.name), d.start),
                         EnPassantAfter(d.name, d.start, d.end, st.pos.enPassant),
                         Engine.HalfmoveAfter(d.name, 'x' in alg, st.pos.halfmove),
                         Engine.FullmoveAfter(mover, st.pos.fullmove)),
                winner)
  }

  /** The oldest `make_move(mover, alg, next)`: the move text is decoded first (its start
      square's error), then `validate_move` with `next` (its error, or InvalidMove), then
      the move is made by `mover`. */
  function Step(st: LegacyState, mover: Color, alg: string, next: Color): (r: Result<LegacyState>)
    requires Sound(st) && DecodeDefined(alg) && ValidateDefined(st, alg, next)
    ensures r.Ok? ==> Sound(r.value)
  {
    match DecodeMove(alg)
    case Err(e) => Err(e)
    case Ok(d) =>
      match Validate(st, alg, next)
      case Err(e) => Err(e)
      case Ok(ok) => if ok then Ok(Moved(st, mover, alg, next, d)) else Err(InvalidMove)
  }

  // ---------------------------------------------------------------------------
  // What the oldest rules accept

  /** With its flag set, castling passes whenever the newer engines' castling test does,
      and also whenever the rook or the king has left its square. */
  lemma CastleFlagOnly(pos: Position, queenside: bool, next: Color)
    requires CastlingComplete(pos.castling)
    ensures CastleOk(pos.grid, queenside, next) && pos.castling[(next, SideOf(queenside))] ==> CastleAllowed(pos, queenside, next)
    ensures var q := CastleSquaresOf(queenside, next);
      pos.castling[(next, SideOf(queenside))] && At(pos.grid, q.rook) != Some(Piece(next, Rook)) ==> CastleAllowed(pos, queenside, next)
    ensures !pos.castling[(next, SideOf(queenside))] ==> !CastleAllowed(pos, queenside, next)
  {
  }

  /** Along a row or a column the oldest rook test is the newer path test, except that
      it refuses a move of length zero. */
  lemma RookScanOnLine(g: Grid, s: Coordinates, e: Coordinates)
    requires OnBoard(s) && OnBoard(e) && (s.row == e.row || s.col == e.col)
    ensures RookScan(g, s, e) <==> RookPath(g, s, e) && s != e
  {
  }

  /** Off a line the end column is never looked at: the oldest rook test accepts a move
      exactly when it would accept the move to the end row on the start column. */
  lemma RookScanIgnoresEndColumn(g: Grid, s: Coordinates, e: Coordinates)
    requires OnBoard(s) && OnBoard(e) && s.row != e.row
    ensures RookScan(g, s, e) == RookScan(g, s, Coordinates(e.row, s.col))
    ensures AbsDiff(s.row, e.row) == 1 ==> RookScan(g, s, e)
  {
  }

  predicate CellOnBoard(c: (int, int)) {
    0 <= c.0 < 8 && 0 <= c.1 < 8
  }

  predicate CellEmpty(g: Grid, c: (int, int)) {
    CellOnBoard(c) && g[c.0][c.1].None?
  }

  /** While every inspected cell lies on the board the scan does not panic, and it
      succeeds exactly when all of them are empty. */
  lemma {:induction false} DiagonalScanMeaning(g: Grid, s: Coordinates, e: Coordinates, i: nat, n: nat)
    requires forall k :: i <= k < n ==> CellOnBoard(DiagonalCell(s, e, k))
    ensures DiagonalScan(g, s, e, i, n) ==
      Some(forall k :: i <= k < n ==> CellEmpty(g, DiagonalCell(s, e, k)))
    decreases n - i
  {
    if i < n {
      DiagonalScanMeaning(g, s, e, i + 1, n);
    }
  }

  /** On a move along the anti-diagonal (up and to the left, or down and to the right)
      the oldest bishop test is the newer path test: it walks the same cells from the
      other end. */
  lemma BishopScanAntiDiagonal(g: Grid, s: Coordinates, e: Coordinates)
    requires OnBoard(s) && OnBoard(e) && (s.row < e.row <==> s.col > e.col)
    ensures BishopScan(g, s, e) == Some(BishopPath(g, s, e))
  {
    var n := AbsDiff(s.col, e.col);
    if AbsDiff(s.row, e.row) == n && s.row != e.row && s.col != e.col {
      forall k | 1 <= k < n
        ensures DiagonalCell(s, e, k) == (Toward(e.row, s.row, k), Toward(e.col, s.col, k))
        ensures CellOnBoard(DiagonalCell(s, e, k))
      {
      }
      DiagonalScanMeaning(g, s, e, 1, n);
      BishopPathSymmetric(g, s, e);
      if BishopPath(g, e, s) {
        forall k | 1 <= k < n
          ensures CellEmpty(g, DiagonalCell(s, e, k))
        {
          assert 0 < k < AbsDiff(e.row, s.row);
        }
      }
    }
  }

  /** The grid holding nothing but `p` on `c`. */
  function Lone(c: Coordinates, p: Piece): (g: Grid)
    requires OnBoard(c)
    ensures At(g, c) == Some(p)
  {
    var empty: Grid := [EmptyRow, EmptyRow, EmptyRow, EmptyRow, EmptyRow, EmptyRow, EmptyRow, EmptyRow];
    Put(empty, c, Some(p))
  }

  /** Along the main diagonal the oldest bishop test looks at the mirrored cells: from a1
      to c3 it inspects a4 and not b2, so a piece on b2 does not stop the move, and from
      a1 to h8 it runs off the board. */
  lemma BishopScanMainDiagonal(p: Piece)
    ensures var g := Lone(Coordinates(1, 1), p);
      BishopScan(g, Coordinates(0, 0), Coordinates(2, 2)) == Some(true) &&
      !BishopPath(g, Coordinates(0, 0), Coordinates(2, 2))
    ensures BishopScan(Lone(Coordinates(1, 1), p), Coordinates(0, 0), Coordinates(7, 7)) == None
  {
    var g := Lone(Coordinates(1, 1), p);
    assert DiagonalCell(Coordinates(0, 0), Coordinates(2, 2), 1) == (3, 1);
    assert g[3][1].None?;
    assert Toward(0, 2, 1) == 1;
    assert DiagonalCell(Coordinates(0, 0), Coordinates(7, 7), 1) == (8, 6);
  }

  /** The oldest king test accepts any move to an adjacent row, however far the column
      changes, and never panics. */
  lemma KingAnyColumn(g: Grid, s: Coordinates, e: Coordinates)
    requires OnBoard(s) && OnBoard(e) && AbsDiff(s.row, e.row) == 1
    ensures KingScan(g, s, e)
  {
  }

  /** A pawn's double step from its home row is accepted onto any empty cell two rows
      ahead, in any column and over an occupied cell. */
  lemma PawnDoubleAnyColumn(pos: Position, next: Color, s: Coordinates, e: Coordinates, alg: string)
    requires OnBoard(s) && OnBoard(e) && 'x' !in alg
    requires if next == Black then s.row == 6 && e.row == 4 else s.row == 1 && e.row == 3
    ensures PawnDefined(alg, next, s, e)
    ensures PawnRule(pos, alg, next, s, e) <==> At(pos.grid, e).None?
  {
  }

  // ---------------------------------------------------------------------------
  // What make_move changes

  /** An accepted move empties the start square, puts the mover's piece on the end
      square and leaves every other cell alone. */
  lemma StepCells(st: LegacyState, mover: Color, alg: string, next: Color)
    requires Sound(st) && DecodeDefined(alg) && ValidateDefined(st, alg, next)
    requires Step(st, mover, alg, next).Ok?
    ensures var d := DecodeMove(alg).value; var g := Step(st, mover, alg, next).value.pos.grid;
      At(g, d.end) == Some(Piece(mover, d.name)) &&
      (d.start != d.end ==> At(g, d.start) == None) &&
      forall i, j :: 0 <= i < 8 && 0 <= j < 8 && Coordinates(i, j) != d.start && Coordinates(i, j) != d.end ==>
        g[i][j] == st.pos.grid[i][j]
  {
  }

  /** Only a king capture decides the game: the winner becomes the mover when the end
      square held a king of either colour, and stays as it was otherwise. */
  lemma StepWinner(st: LegacyState, mover: Color, alg: string, next: Color)
    requires Sound(st) && DecodeDefined(alg) && ValidateDefined(st, alg, next)
    requires Step(st, mover, alg, next).Ok?
    ensures var d := DecodeMove(alg).value; var t := At(st.pos.grid, d.end);
      Step(st, mover, alg, next).value.winner == if t.Some? && t.value.name == King then Some(mover) else st.winner
  {
  }

  /** A move is made only on an open board, and after a king capture every further move
      with a square pair is refused as GameOver. */
  lemma CaptureEndsGame(st: LegacyState, mover: Color, alg: string, next: Color, alg': string, next': Color)
    requires Sound(st) && DecodeDefined(alg) && ValidateDefined(st, alg, next)
    requires Step(st, mover, alg, next).Ok?
    requires At(st.pos.grid, DecodeMove(alg).value.end) == Some(Piece(Opposite(mover), King))
    requires ContainsMovePattern(alg')
    ensures st.winner == None
    ensures var st' := Step(st, mover, alg, next).value;
      ValidateDefined(st', alg', next') && Validate(st', alg', next') == Err(GameOver)
  {
  }

  /** The clocks and the en-passant square after an accepted move. */
  lemma StepBookkeeping(st: LegacyState, mover: Color, alg: string, next: Color)
    requires Sound(st) && DecodeDefined(alg) && ValidateDefined(st, alg, next)
    requires Step(st, mover, alg, next).Ok?
    ensures var d := DecodeMove(alg).value; var pos := Step(st, mover, alg, next).value.pos;
      (pos.halfmove == 0 <==> d.name == Pawn || 'x' in alg) &&
      (pos.halfmove != 0 ==> pos.halfmove == st.pos.halfmove + 1) &&
      pos.fullmove == (if mover == Black then st.pos.fullmove + 1 else st.pos.fullmove) &&
      (d.name != Pawn ==> pos.enPassant == None) &&
      (d.name == Pawn && AbsDiff(d.start.row, d.end.row) == 2 ==>
        pos.enPassant == Some(Coordinates(d.start.row, (d.start.col + d.end.col) / 2)) && OnBoard(pos.enPassant.value))
  {
  }

  /** Castling flags after an accepted move: a flag of `next` falls when the move is a
      king move, or a rook move from that side's corner; every other flag is kept. The
      flags follow `next`, not the colour of the piece placed. */
  lemma StepFlags(st: LegacyState, mover: Color, alg: string, next: Color)
    requires Sound(st) && DecodeDefined(alg) && ValidateDefined(st, alg, next)
    requires Step(st, mover, alg, next).Ok?
    ensures var d := DecodeMove(alg).value; var m := Step(st, mover, alg, next).value.pos.castling;
      m.Keys == st.pos.castling.Keys &&
      forall k :: k in st.pos.castling ==>
        m[k] == (st.pos.castling[k] &&
                 !(k.0 == next && (d.name == King || (d.name == Rook && d.start == Engine.RookHome(k.0, k.1)))))
  {
    var d := DecodeMove(alg).value;
    Engine.CastlingAfterMeaning(st.pos.castling, Piece(next, d.name), d.start);
  }

  /** A move text with a two-byte character right after its piece letter is answered
      with InvalidFormat by `validate_move`, when the pattern occurs and the game is open,
      and by `make_move` always. */
  lemma TwoByteStartRefused(st: LegacyState, mover: Color, alg: string, next: Color)
    requires Sound(st) && |alg| >= 2 && alg[0] in "NRBQK" && IsTwoByte(alg[1])
    ensures DecodeDefined(alg) && ValidateDefined(st, alg, next)
    ensures Ordinary(st, alg) ==> Validate(st, alg, next) == Err(InvalidFormat)
    ensures Step(st, mover, alg, next) == Err(InvalidFormat)
  {
    DecodeTwoByteStart(alg);
  }

  /** A castling move is never made: `make_move` reads `O-` as its start square first. */
  lemma CastlingNeverMade(st: LegacyState, mover: Color, next: Color)
    requires Sound(st)
    ensures DecodeDefined("O-O") && ValidateDefined(st, "O-O", next) && Step(st, mover, "O-O", next) == Err(InvalidFormat)
    ensures DecodeDefined("O-O-O") && ValidateDefined(st, "O-O-O", next) && Step(st, mover, "O-O-O", next) == Err(InvalidFormat)
  {
    assert !IsSquareAt("O-O", 0) && !IsSquareAt("O-O-O", 0);
  }

  /** A refused or failing move gives the error of decoding, then that of the test, then
      InvalidMove; an accepted one is `Moved`. */
  lemma StepErrors(st: LegacyState, mover: Color, alg: string, next: Color)
    requires Sound(st) && DecodeDefined(alg) && ValidateDefined(st, alg, next)
    ensures DecodeMove(alg).Err? ==> Step(st, mover, alg, next) == Err(InvalidFormat)
    ensures DecodeMove(alg).Ok? && Validate(st, alg, next).Err? ==> Step(st, mover, alg, next) == Err(Validate(st, alg, next).error)
    ensures DecodeMove(alg).Ok? && Validate(st, alg, next) == Ok(false) ==> Step(st, mover, alg, next) == Err(InvalidMove)
    ensures Step(st, mover, alg, next).Ok? <==> DecodeMove(alg).Ok? && Validate(st, alg, next) == Ok(true)
  {
  }
}
