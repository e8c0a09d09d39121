/** The `ChessBoard` struct of the oldest engine, `src/lib/lib.rs`, as a class over an
    8x8 array: `parse_fen`, `to_fen`, `validate_move` with `validate_rook` and
    `validate_bishop`, and `make_move(mover, alg, next)`, each proved to compute the
    value-level rules of `Legacy`. */
module LegacyChess {
  import opened Types
  import opened Text
  import opened Squares
  import opened Fen
  import opened Rules
  import opened Boards
  import opened Legacy
  import Engine
  import Chess
  import Start

  class LegacyBoard {
    const board: array2<Cell>
    var castling: CastlingMap
    var enPassant: Option<Coordinates>
    var halfmove: nat
    var fullmove: nat
    /** `winner`, where Rust's `Color::None` is `None`. */
    var winner: Option<Color>

    ghost predicate Valid()
      reads this
    {
      Is8x8(board) && CastlingComplete(castling)
    }

    /** The board as a value. */
    function State(): LegacyState
      reads this, board
      requires Is8x8(board)
    {
      LegacyState(Position(GridOf(board), castling, enPassant, halfmove, fullmove), winner)
    }

    constructor (board: array2<Cell>, castling: CastlingMap, enPassant: Option<Coordinates>,
                 halfmove: nat, fullmove: nat, winner: Option<Color>)
      requires Is8x8(board) && CastlingComplete(castling)
      ensures Valid() && this.board == board
      ensures State() == LegacyState(Position(GridOf(board), castling, enPassant, halfmove, fullmove), winner)
    {
      this.board := board;
      this.castling := castling;
      this.enPassant := enPassant;
      this.halfmove := halfmove;
      this.fullmove := fullmove;
      this.winner := winner;
    }

    /** `ChessBoard::default()`: `parse_fen` of the starting FEN, unwrapped. */
    static method Default() returns (b: LegacyBoard)
      ensures fresh(b) && fresh(b.board) && b.Valid() && b.State() == Start.StartLegacy
    {
      Start.DefaultParses();
      var r := ParseFen(Start.StartFen);
      b := r.value;
    }

    /** `parse_fen`: a fresh board holding exactly what `Legacy.ParseBoard` reads, or its
        error. */
    static method ParseFen(fen: string) returns (r: Result<LegacyBoard>)
      requires FenDefined(fen)
      ensures r.Ok? <==> Legacy.ParseBoard(fen).Ok?
      ensures r.Err? ==> r.error == Legacy.ParseBoard(fen).error
      ensures r.Ok? ==> fresh(r.value) && fresh(r.value.board) && r.value.Valid() &&
                        r.value.State() == Legacy.ParseBoard(fen).value
    {
      var parts := Split(fen, ' ');
      if |parts| != 6 {
        return Err(InvalidFormat);
      }
      var ranks := Split(parts[0], '/');
      if |ranks| != 8 {
        return Err(InvalidFormat);
      }
      var grid := ReadPlacement(ranks);
      if grid.None? {
        return Err(InvalidFormat);
      }
      if parts[1] != "w" && parts[1] != "b" {
        return Err(InvalidFormat);
      }
      var a := grid.value;
      var m := Chess.ChessBoard.ReadCastling(parts[2]);
      var w := Winner(GridOf(a));
      var ep := EnPassantOf(parts[3]);
      if ep.Err? {
        return Err(ep.error);
      }
      var half := ParseUsize(parts[4]);
      if half.None? {
        return Err(InvalidFormat);
      }
      var full := ParseUsize(parts[5]);
      if full.None? {
        return Err(InvalidFormat);
      }
      ghost var pos := Position(GridOf(a), m, ep.value, half.value, full.value);
      assert ParsePosition(fen) == Ok(pos);
      var b := new LegacyBoard(a, m, ep.value, half.value, full.value, w);
      return Ok(b);
    }

    /** `to_fen`: the FEN text of the board with `next` to move. */
    method ToFen(next: Color) returns (r: Result<string>)
      requires Valid()
      ensures r == PositionText(State().pos, next)
    {
      ghost var pos := State().pos;
      var out := WritePlacement(board);
      out := out + " ";
      out := out + (if next == White then "w " else "b ");
      ghost var prefix := out;
      assert prefix == PlacementText(pos.grid) + " " + SideText(next) + " ";
      var castlingText := Chess.ChessBoard.WriteCastling(castling);
      out := out + castlingText;
      out := out + " ";
      match enPassant {
        case Some(tile) =>
          var t := GetTile(tile);
          if t.Err? {
            return Err(t.error);
          }
          out := out + t.value;
        case None =>
          out := out + "-";
      }
      assert out == prefix + CastlingText(castling) + " " + EnPassantText(enPassant);
      out := out + " ";
      out := out + NatToString(halfmove);
      out := out + " ";
      out := out + NatToString(fullmove);
      PositionTextFields(State().pos, next);
      return Ok(out);
    }

    /** `validate_move`. */
    method ValidateMove(alg: string, next: Color) returns (r: Result<bool>)
      requires Valid() && ValidateDefined(State(), alg, next)
      ensures r == Validate(State(), alg, next)
    {
      if !ContainsMovePattern(alg) {
        return Err(InvalidFormat);
      }
      if winner.Some? {
        return Err(GameOver);
      }
      if alg == "O-O-O" || alg == "O-O" {
        var ok := CastleAllowed(alg == "O-O-O", next);
        return Ok(ok);
      }
      var d := DecodeMove(alg);
      if d.Err? {
        return Err(d.error);
      }
      var ok := OrdinaryAllowed(alg, next, d.value);
      return Ok(ok);
    }

    /** The castling branch of `validate_move`: the flag, then, with rook and king at
        home, the cells between. */
    method CastleAllowed(queenside: bool, next: Color) returns (ok: bool)
      requires Valid()
      ensures ok == Legacy.CastleAllowed(State().pos, queenside, next)
    {
      if !castling[(next, SideOf(queenside))] {
        return false;
      }
      var q := CastleSquaresOf(queenside, next);
      if board[q.rook.row, q.rook.col] == Some(Piece(next, Rook)) &&
         board[q.king.row, q.king.col] == Some(Piece(next, King)) {
        ok := AllEmpty(q.between);
        return ok;
      }
      return true;
    }

    /** Every cell of `between` is empty. */
    method AllEmpty(between: seq<Coordinates>) returns (ok: bool)
      requires Valid() && forall i :: 0 <= i < |between| ==> OnBoard(between[i])
      ensures ok == BetweenEmpty(GridOf(board), between)
    {
      for i := 0 to |between|
        invariant forall j :: 0 <= j < i ==> At(GridOf(board), between[j]).None?
      {
        var b := between[i];
        if board[b.row, b.col].Some? {
          return false;
        }
      }
      return true;
    }

    /** The ordinary branch of `validate_move`: the landing square, the piece on the start
        square, then the piece's own test. */
    method OrdinaryAllowed(alg: string, next: Color, d: MoveData) returns (ok: bool)
      requires Valid() && OnBoard(d.start) && OnBoard(d.end)
      requires Engine.TargetOk(GridOf(board), alg, next, d) && At(GridOf(board), d.start) == Some(Piece(next, d.name)) ==>
        PieceDefined(GridOf(board), alg, next, d)
      ensures ok == MoveOk(State().pos, alg, next, d)
    {
      var s, e := d.start, d.end;
      if 'x' !in alg {
        if board[e.row, e.col] != None {
          return false;
        }
      } else {
        match board[e.row, e.col] {
          case Some(p) =>
            if p.color == next {
              return false;
            }
          case None =>
            if d.name != Pawn {
              return false;
            }
        }
      }
      assert Engine.TargetOk(GridOf(board), alg, next, d);
      if board[s.row, s.col] != Some(Piece(next, d.name)) {
        return false;
      }
      ok := PieceAllowed(alg, next, d);
    }

    /** The per-piece test of `validate_move`; the queen and the king evaluate their two
        scans lazily, as Rust's `||` does. */
    method PieceAllowed(alg: string, next: Color, d: MoveData) returns (ok: bool)
      requires Valid() && OnBoard(d.start) && OnBoard(d.end) && PieceDefined(GridOf(board), alg, next, d)
      ensures ok == PieceRule(State().pos, alg, next, d)
    {
      var s, e := d.start, d.end;
      match d.name {
        case Rook =>
          ok := ScanRook(s, e, board);
        case Knight =>
          ok := (AbsDiff(s.row, e.row) == 1 && AbsDiff(s.col, e.col) == 2) ||
                (AbsDiff(s.row, e.row) == 2 && AbsDiff(s.col, e.col) == 1);
        case Bishop =>
          ok := ScanBishop(s, e, board);
        case Queen =>
          ok := ScanRook(s, e, board);
          if !ok {
            ok := ScanBishop(s, e, board);
          }
        case King =>
          if AbsDiff(s.row, e.row) == 1 || AbsDiff(s.col, e.col) == 1 {
            assert BishopScan(GridOf(board), s, e).Some? by {
              if AbsDiff(s.row, e.row) == AbsDiff(s.col, e.col) && s.row != e.row {
                assert AbsDiff(s.col, e.col) == 1;
              }
            }
            ok := ScanBishop(s, e, board);
            if !ok {
              ok := ScanRook(s, e, board);
            }
          } else {
            ok := false;
          }
        case Pawn =>
          ok := PawnAllowed(alg, next, s, e);
      }
    }

    /** The pawn branch of `validate_move`. */
    method PawnAllowed(alg: string, next: Color, s: Coordinates, e: Coordinates) returns (ok: bool)
      requires Valid() && OnBoard(s) && OnBoard(e) && PawnDefined(alg, next, s, e)
      ensures ok == PawnRule(State().pos, alg, next, s, e)
    {
      if 'x' in alg {
        var forward := if next == Black then s.row > e.row && s.row - e.row == 1 else e.row > s.row && e.row - s.row == 1;
        if forward && AbsDiff(s.col, e.col) == 1 {
          return board[e.row, e.col] != None || enPassant == Some(e);
        }
        return false;
      }
      var double := if next == Black then s.row == 6 && e.row == 4 else s.row == 1 && e.row == 3;
      var single := (if next == Black then s.row - e.row == 1 else e.row - s.row == 1) && s.col == e.col;
      if double || single {
        return board[e.row, e.col] == None;
      }
      return false;
    }

    /** `validate_rook`: along a row, a column change and empty cells strictly between;
        otherwise the cells strictly between the two rows on the start column. */
    static method ScanRook(s: Coordinates, e: Coordinates, a: array2<Cell>) returns (ok: bool)
      requires Is8x8(a) && OnBoard(s) && OnBoard(e)
      ensures ok == RookScan(GridOf(a), s, e)
    {
      if AbsDiff(s.row, e.row) == 0 {
        if AbsDiff(s.col, e.col) == 0 {
          return false;
        }
        var lo, hi := if s.col > e.col then e.col + 1 else s.col + 1, if s.col > e.col then s.col else e.col;
        for i := lo to hi
          invariant forall c :: Min(s.col, e.col) < c < i ==> GridOf(a)[s.row][c].None?
        {
          if a[s.row, i] != None {
            return false;
          }
        }
        return true;
      }
      var lo, hi := if s.row > e.row then e.row + 1 else s.row + 1, if s.row > e.row then s.row else e.row;
      for i := lo to hi
        invariant forall r :: Min(s.row, e.row) < r < i ==> GridOf(a)[r][s.col].None?
      {
        if a[i, s.col] != None {
          return false;
        }
      }
      return true;
    }

    /** `validate_bishop`: the shape test, then the cells `DiagonalCell(s, e, i)` for
        `i` from 1 below |Δcol|. Rust repeats the same two loops under a test of the rows
        that changes nothing; they are written once here. */
    static method ScanBishop(s: Coordinates, e: Coordinates, a: array2<Cell>) returns (ok: bool)
      requires Is8x8(a) && OnBoard(s) && OnBoard(e) && BishopScan(GridOf(a), s, e).Some?
      ensures ok == BishopScan(GridOf(a), s, e).value
    {
      if AbsDiff(s.row, e.row) != AbsDiff(s.col, e.col) {
        return false;
      }
      if s.row == e.row || s.col == e.col {
        return false;
      }
      ghost var g := GridOf(a);
      var n := AbsDiff(s.col, e.col);
      for i := 1 to n
        invariant DiagonalScan(g, s, e, i, n) == DiagonalScan(g, s, e, 1, n)
      {
        var row, col := if s.col > e.col then e.row - i else e.row + i, if s.col > e.col then e.col + i else e.col - i;
        assert row == DiagonalCell(s, e, i).0 && col == DiagonalCell(s, e, i).1;
        if a[row, col] != None {
          return false;
        }
      }
      return true;
    }

    /** `make_move(mover, alg, next)`: the move text decoded first, then `validate_move`
        with `next`; on success the board becomes exactly `Step`'s result, on failure it
        is unchanged. */
    method MakeMove(mover: Color, alg: string, next: Color) returns (r: Result<()>)
      requires Valid() && DecodeDefined(alg) && ValidateDefined(State(), alg, next)
      modifies this, board
      ensures Valid()
      ensures Step(old(State()), mover, alg, next).Ok? ==>
        r == Ok(()) && State() == Step(old(State()), mover, alg, next).value
      ensures Step(old(State()), mover, alg, next).Err? ==>
        r == Err(Step(old(State()), mover, alg, next).error) && State() == old(State())
    {
      var d := DecodeMove(alg);
      if d.Err? {
        return Err(d.error);
      }
      var valid := ValidateMove(alg, next);
      if valid.Err? {
        return Err(valid.error);
      }
      if !valid.value {
        return Err(InvalidMove);
      }
      ghost var st := State();
      Place(mover, d.value);
      ghost var g := GridOf(board);
      Advance(mover, alg, next, d.value);
      assert GridOf(board) == g;
      assert State() == Moved(st, mover, alg, next, d.value);
      return Ok(());
    }

    /** The winner and the two cell writes of `make_move`. */
    method Place(mover: Color, d: MoveData)
      requires Valid() && OnBoard(d.start) && OnBoard(d.end)
      modifies this, board
      ensures Valid() && castling == old(castling) && enPassant == old(enPassant)
      ensures halfmove == old(halfmove) && fullmove == old(fullmove)
      ensures GridOf(board) == Put(Put(old(GridOf(board)), d.start, None), d.end, Some(Piece(mover, d.name)))
      ensures var t := At(old(GridOf(board)), d.end);
        winner == if t.Some? && t.value.name == King then Some(mover) else old(winner)
    {
      var t := board[d.end.row, d.end.col];
      if t.Some? && t.value.name == King {
        winner := Some(mover);
      }
      SetCell(board, d.start, None);
      SetCell(board, d.end, Some(Piece(mover, d.name)));
    }

    /** The bookkeeping of `make_move`: the flags of `next`, the en-passant square and the
        two clocks. */
    method Advance(mover: Color, alg: string, next: Color, d: MoveData)
      requires Valid() && OnBoard(d.start)
      modifies this
      ensures Valid() && castling == Engine.CastlingAfter(old(castling), Piece(next, d.name), d.start)
      ensures enPassant == EnPassantAfter(d.name, d.start, d.end, old(enPassant))
      ensures halfmove == Engine.HalfmoveAfter(d.name, 'x' in alg, old(halfmove))
      ensures fullmove == Engine.FullmoveAfter(mover, old(fullmove))
      ensures winner == old(winner)
    {
      var m := Chess.ChessBoard.RightsAfter(castling, Piece(next, d.name), d.start);
      castling := m;
      if d.name == Pawn {
        if AbsDiff(d.start.row, d.end.row) == 2 {
          enPassant := Some(Coordinates(d.start.row, (d.start.col + d.end.col) / 2));
        }
      } else {
        enPassant := None;
      }
      if d.name == Pawn || 'x' in alg {
        halfmove := 0;
      } else {
        halfmove := halfmove + 1;
      }
      if mover == Black {
        fullmove := fullmove + 1;
      }
    }
  }
}
