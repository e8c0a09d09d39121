/** The `ChessBoard` struct of the two newer engines as a class over an 8x8 array:
    `parse_fen`, `to_fen`, `validate_move` and `make_move`, each proved to compute the
    value-level rules of `Engine`. */
module Chess {
  import opened Types
  import opened Text
  import opened Squares
  import opened Fen
  import opened Rules
  import opened Boards
  import opened Engine
  import Start

  /** The order in which `to_fen` visits the castling flags. */
  const CastlingOrder: seq<(Color, Side)> :=
    [(White, Kingside), (White, Queenside), (Black, Kingside), (Black, Queenside)]

  function CastlingLetter(k: (Color, Side)): char {
    match k
    case (White, Kingside) => 'K'
    case (White, Queenside) => 'Q'
    case (Black, Kingside) => 'k'
    case (Black, Queenside) => 'q'
  }

  /** The letters of the set flags among the first `n` of `CastlingOrder`. */
  function LettersOf(m: CastlingMap, n: nat): string
    requires CastlingComplete(m) && n <= 4
  {
    if n == 0 then ""
    else LettersOf(m, n - 1) + Letter(m[CastlingOrder[n - 1]], CastlingLetter(CastlingOrder[n - 1]))
  }

  /** All four flags visited spell the castling field, before the `-` for none. */
  lemma AllLetters(m: CastlingMap)
    requires CastlingComplete(m)
    ensures CastlingText(m) == if LettersOf(m, 4) == "" then "-" else LettersOf(m, 4)
  {
    assert CastlingOrder[0] == (White, Kingside) && CastlingOrder[1] == (White, Queenside);
    assert CastlingOrder[2] == (Black, Kingside) && CastlingOrder[3] == (Black, Queenside);
    assert LettersOf(m, 1) == Letter(m[(White, Kingside)], 'K');
    assert LettersOf(m, 2) == Letter(m[(White, Kingside)], 'K') + Letter(m[(White, Queenside)], 'Q');
    assert LettersOf(m, 3) == Letter(m[(White, Kingside)], 'K') + Letter(m[(White, Queenside)], 'Q') +
                              Letter(m[(Black, Kingside)], 'k');
  }

  class ChessBoard {
    /** Which of the two newer engines this board follows. */
    const gen: Generation
    const board: array2<Cell>
    var castling: CastlingMap
    var enPassant: Option<Coordinates>
    var halfmove: nat
    var fullmove: nat
    var end: EndResult
    var past: seq<string>

    ghost predicate Valid()
      reads this
    {
      Is8x8(board) && CastlingComplete(castling)
    }

    /** The board as a value. */
    function State(): BoardState
      reads this, board
      requires Is8x8(board)
    {
      BoardState(Position(GridOf(board), castling, enPassant, halfmove, fullmove), end, past)
    }

    constructor (gen: Generation, board: array2<Cell>, castling: CastlingMap, enPassant: Option<Coordinates>,
                 halfmove: nat, fullmove: nat, end: EndResult, past: seq<string>)
      requires Is8x8(board) && CastlingComplete(castling)
      ensures Valid() && this.gen == gen && this.board == board
      ensures State() == BoardState(Position(GridOf(board), castling, enPassant, halfmove, fullmove), end, past)
    {
      this.gen := gen;
      this.board := board;
      this.castling := castling;
      this.enPassant := enPassant;
      this.halfmove := halfmove;
      this.fullmove := fullmove;
      this.end := end;
      this.past := past;
    }

    /** `ChessBoard::default()`: `parse_fen` of the starting FEN, unwrapped. */
    static method Default(gen: Generation) returns (b: ChessBoard)
      ensures fresh(b) && fresh(b.board) && b.gen == gen && b.Valid() && b.State() == Start.StartBoard
    {
      Start.DefaultParses();
      var r := ParseFen(gen, Start.StartFen);
      b := r.value;
    }

    /** `parse_fen`: a fresh board holding exactly what `ParseBoard` reads, or its error. */
    static method ParseFen(gen: Generation, fen: string) returns (r: Result<ChessBoard>)
      requires FenDefined(fen)
      ensures r.Ok? <==> ParseBoard(fen).Ok?
      ensures r.Err? ==> r.error == ParseBoard(fen).error
      ensures r.Ok? ==> fresh(r.value) && fresh(r.value.board) && r.value.gen == gen && r.value.Valid() &&
                        r.value.State() == ParseBoard(fen).value
    {
      var parts := Split(fen, ' ');
      if |parts| != 6 {
        return Err(InvalidFormat);
      }
      var ranks := Split(parts[0], '/');
      if |ranks| != 8 {
        return Err(InvalidFormat);
      }
      var grid := ReadPlacement(ranks);
      if grid.None? {
        return Err(InvalidFormat);
      }
      if parts[1] != "w" && parts[1] != "b" {
        return Err(InvalidFormat);
      }
      var a := grid.value;
      var m := ReadCastling(parts[2]);
      var outcome := Outcome(GridOf(a));
      var ep := EnPassantOf(parts[3]);
      if ep.Err? {
        return Err(ep.error);
      }
      var half := ParseUsize(parts[4]);
      if half.None? {
        return Err(InvalidFormat);
      }
      var full := ParseUsize(parts[5]);
      if full.None? {
        return Err(InvalidFormat);
      }
      ghost var pos := Position(GridOf(a), m, ep.value, half.value, full.value);
      assert ParsePosition(fen) == Ok(pos);
      var b := new ChessBoard(gen, a, m, ep.value, half.value, full.value, outcome, [fen]);
      return Ok(b);
    }

    /** The castling flags `parse_fen` reads: all four start false, and a flag is set when
        its letter occurs in the field. */
    static method ReadCastling(field: string) returns (m: CastlingMap)
      ensures m == CastlingOf(field)
    {
      m := map[(Black, Kingside) := false, (Black, Queenside) := false,
               (White, Kingside) := false, (White, Queenside) := false];
      if 'K' in field {
        m := m[(White, Kingside) := true];
      }
      if 'Q' in field {
        m := m[(White, Queenside) := true];
      }
      if 'k' in field {
        m := m[(Black, Kingside) := true];
      }
      if 'q' in field {
        m := m[(Black, Queenside) := true];
      }
    }

    /** The castling field `to_fen` writes: the letters of the set flags in `CastlingOrder`,
        or `-` when none is set. */
    static method WriteCastling(m: CastlingMap) returns (out: string)
      requires CastlingComplete(m)
      ensures out == CastlingText(m)
    {
      out := "";
      var hasCastling := false;
      for i := 0 to 4
        invariant out == LettersOf(m, i)
        invariant hasCastling <==> out != ""
      {
        var k := CastlingOrder[i];
        if m[k] {
          hasCastling := true;
          out := out + [CastlingLetter(k)];
        }
      }
      AllLetters(m);
      if !hasCastling {
        out := "-";
      }
    }

    /** `to_fen`: the FEN text of the board with `next` to move. */
    method ToFen(next: Color) returns (r: Result<string>)
      requires Valid()
      ensures r == PositionText(State().pos, next)
    {
      ghost var pos := State().pos;
      var out := WritePlacement(board);
      out := out + " ";
      out := out + (if next == White then "w " else "b ");
      ghost var prefix := out;
      assert prefix == PlacementText(pos.grid) + " " + SideText(next) + " ";
      var castlingText := WriteCastling(castling);
      out := out + castlingText;
      out := out + " ";
      match enPassant {
        case Some(tile) =>
          var t := GetTile(tile);
          if t.Err? {
            return Err(t.error);
          }
          out := out + t.value;
        case None =>
          out := out + "-";
      }
      assert out == prefix + CastlingText(castling) + " " + EnPassantText(enPassant);
      out := out + " ";
      out := out + NatToString(halfmove);
      out := out + " ";
      out := out + NatToString(fullmove);
      PositionTextFields(State().pos, next);
      return Ok(out);
    }

    /** The castling test of `validate_move`: rook and king at home, the cells between
        empty, the king not in check, and not in check on a copy of the board with the
        king moved to each cell between. */
    method CastleAllowed(queenside: bool, next: Color) returns (ok: bool)
      requires Valid()
      ensures ok == CastleOk(GridOf(board), queenside, next)
    {
      var q := CastleSquaresOf(queenside, next);
      var home := board[q.rook.row, q.rook.col] == Some(Piece(next, Rook)) &&
                  board[q.king.row, q.king.col] == Some(Piece(next, King));
      if !home {
        return false;
      }
      var empty := AllEmpty(q.between);
      if !empty {
        return false;
      }
      assert GridOf(board)[q.king.row][q.king.col] == Some(Piece(next, King));
      var checked := IsChecked(board, next);
      if checked {
        return false;
      }
      ok := AllSafe(q.king, q.between, next);
    }

    /** Every cell of `between` is empty. */
    method AllEmpty(between: seq<Coordinates>) returns (ok: bool)
      requires Valid() && forall i :: 0 <= i < |between| ==> OnBoard(between[i])
      ensures ok == BetweenEmpty(GridOf(board), between)
    {
      var i := 0;
      while i < |between|
        invariant 0 <= i <= |between|
        invariant forall j :: 0 <= j < i ==> At(GridOf(board), between[j]).None?
      {
        var b := between[i];
        if board[b.row, b.col].Some? {
          return false;
        }
        i := i + 1;
      }
      return true;
    }

    /** The king is not in check on any of the fake boards for `between`. */
    method AllSafe(king: Coordinates, between: seq<Coordinates>, next: Color) returns (ok: bool)
      requires Valid() && OnBoard(king) && forall i :: 0 <= i < |between| ==> OnBoard(between[i])
      ensures ok == BetweenSafe(GridOf(board), king, between, next)
    {
      ghost var g := GridOf(board);
      var i := 0;
      while i < |between|
        invariant 0 <= i <= |between|
        invariant forall j :: 0 <= j < i ==> SafeOn(g, king, between[j], next)
      {
        var safe := SafeWithKingOn(g, king, between[i], next);
        if !safe {
          return false;
        }
        SafeExtend(g, king, between, next, i);
        i := i + 1;
      }
      return true;
    }

    /** One fake board of the castling test: a copy with the king lifted off `king` and
        put on `b`, tested for check. */
    method SafeWithKingOn(ghost g: Grid, king: Coordinates, b: Coordinates, next: Color) returns (safe: bool)
      requires Valid() && g == GridOf(board) && OnBoard(king) && OnBoard(b)
      ensures safe == SafeOn(g, king, b, next)
    {
      var fake := CopyBoard(board);
      SetCell(fake, king, None);
      SetCell(fake, b, Some(Piece(next, King)));
      assert GridOf(fake) == KingMovedTo(g, king, b, next);
      var checked := IsChecked(fake, next);
      return !checked;
    }

    /** The pawn test of `validate_move`. */
    method PawnAllowed(alg: string, next: Color, s: Coordinates, e: Coordinates) returns (ok: bool)
      requires Valid() && OnBoard(s) && OnBoard(e) && |alg| >= 1
      ensures ok == PawnOk(gen, State().pos, alg, next, s, e)
    {
      var double := if next == Black then s.row == 6 && e.row == 4 else s.row == 1 && e.row == 3;
      var single := if next == Black then SaturatingSub(s.row, e.row) == 1 else SaturatingSub(e.row, s.row) == 1;
      var ep := enPassant == Some(e);
      var valid := false;
      if 'x' in alg {
        var diagonal := single && AbsDiff(s.col, e.col) == 1;
        valid := diagonal && (board[e.row, e.col].Some? || ep);
      } else if gen == ChessRs {
        if single && s.col == e.col {
          valid := board[e.row, e.col].None?;
        } else if double && s.col == e.col {
          valid := board[e.row, e.col].None? &&
            ((next == Black && board[5, s.col].None?) || (next == White && board[2, s.col].None?));
        }
      } else if (double || single) && s.col == e.col {
        valid := board[e.row, e.col].None? || ep;
      }
      if e.row == 0 || e.row == 7 {
        if IsPieceLetter(alg[|alg| - 1]) {
          return valid;
        }
        return false;
      }
      return valid;
    }

    /** `validate_move`. */
    method ValidateMove(alg: string, next: Color) returns (r: Result<bool>)
      requires Valid()
      ensures r == Validate(gen, State(), alg, next)
    {
      if !MatchesMoveGrammar(alg) {
        return Err(InvalidFormat);
      }
      if end != Open(true) {
        return Err(GameOver);
      }
      if alg == "O-O-O" || alg == "O-O" {
        var ok := CastleAllowed(alg == "O-O-O", next);
        return Ok(ok);
      }
      var ok := OrdinaryAllowed(alg, next);
      return Ok(ok);
    }

    /** The ordinary-move test of `validate_move`: the landing square, the piece on the
        start square, then the piece's own rule. */
    method OrdinaryAllowed(alg: string, next: Color) returns (ok: bool)
      requires Valid() && MatchesMoveGrammar(alg) && !IsCastling(alg)
      ensures ok == MoveOk(gen, State().pos, alg, next)
    {
      var d := Decoded(alg);
      var s, e := d.start, d.end;
      if 'x' !in alg {
        if board[e.row, e.col].Some? {
          return false;
        }
      } else {
        match board[e.row, e.col] {
          case Some(p) =>
            if p.color == next {
              return false;
            }
          case None =>
            if d.name != Pawn {
              return false;
            }
        }
      }
      assert TargetOk(GridOf(board), alg, next, d);
      if board[s.row, s.col] != Some(Piece(next, d.name)) {
        return false;
      }
      ok := PieceAllowed(alg, next, d);
    }

    /** The per-piece rule of `validate_move`. */
    method PieceAllowed(alg: string, next: Color, d: MoveData) returns (ok: bool)
      requires Valid() && OnBoard(d.start) && OnBoard(d.end) && |alg| >= 1
      ensures ok == PieceRule(gen, State().pos, alg, next, d)
    {
      var s, e := d.start, d.end;
      match d.name {
        case Rook =>
          ok := ValidateRook(s, e, board);
        case Knight =>
          ok := (AbsDiff(s.row, e.row) == 1 && AbsDiff(s.col, e.col) == 2) ||
                (AbsDiff(s.row, e.row) == 2 && AbsDiff(s.col, e.col) == 1);
        case Bishop =>
          ok := ValidateBishop(s, e, board);
        case Queen =>
          var rook := ValidateRook(s, e, board);
          var bishop := ValidateBishop(s, e, board);
          ok := rook || bishop;
        case King =>
          if AbsDiff(s.row, e.row) == 1 || AbsDiff(s.col, e.col) == 1 {
            var bishop := ValidateBishop(s, e, board);
            var rook := ValidateRook(s, e, board);
            ok := bishop || rook;
          } else {
            ok := false;
          }
        case Pawn =>
          ok := PawnAllowed(alg, next, s, e);
      }
    }

    /** The castling branch of `make_move`. */
    method Castle(queenside: bool, next: Color)
      requires Valid()
      modifies this, board
      ensures Valid() && State() == CastleStep(old(State()), queenside, next)
    {
      ghost var st := State();
      CastleCells(queenside, next);
      ghost var g := GridOf(board);
      assert g == CastledGrid(st.pos.grid, queenside, next);
      CastleBookkeeping(next);
      assert GridOf(board) == g;
    }

    /** The flags and clocks after castling: both of the mover's flags cleared, the
        halfmove clock advanced, the fullmove number advanced after Black, no en-passant
        square. */
    method CastleBookkeeping(next: Color)
      requires Valid()
      modifies this
      ensures Valid() && castling == ClearCastling(old(castling), next) && enPassant == None
      ensures halfmove == old(halfmove) + 1
      ensures fullmove == if next == Black then old(fullmove) + 1 else old(fullmove)
      ensures end == old(end) && past == old(past)
    {
      halfmove := halfmove + 1;
      castling := castling[(next, Kingside) := false];
      castling := castling[(next, Queenside) := false];
      if next == Black {
        fullmove := fullmove + 1;
      }
      enPassant := None;
    }

    /** The four cell writes of castling: the king and the rook lifted and put down. */
    method CastleCells(queenside: bool, next: Color)
      requires Valid()
      modifies board
      ensures GridOf(board) == CastledGrid(old(GridOf(board)), queenside, next)
    {
      var r := HomeRow(next);
      var (kingNew, rookOld, rookNew) := CastleColumns(queenside);
      SetCell(board, Coordinates(r, 4), None);
      SetCell(board, Coordinates(r, kingNew), Some(Piece(next, King)));
      SetCell(board, Coordinates(r, rookOld), None);
      SetCell(board, Coordinates(r, rookNew), Some(Piece(next, Rook)));
    }

    /** The cell writes of an ordinary move: the pawn taken en passant (chess.rs only),
        the start, the target, and the promotion. */
    method PlacePiece(alg: string, next: Color)
      requires Valid() && MatchesMoveGrammar(alg) && !IsCastling(alg) && MoveOk(gen, State().pos, alg, next)
      modifies board
      ensures GridOf(board) == MovedGrid(gen, old(State()), alg, next)
    {
      ghost var st := State();
      var d := Decoded(alg);
      var piece := Piece(next, d.name);
      if gen == ChessRs && piece.name == Pawn && enPassant == Some(d.end) {
        PawnRows(gen, st.pos, alg, next, d.start, d.end);
        SetCell(board, VictimSquare(next, d.end), None);
      }
      SetCell(board, d.start, None);
      SetCell(board, d.end, Some(piece));
      var last := alg[|alg| - 1];
      if piece.name == Pawn && IsPieceLetter(last) {
        SetCell(board, d.end, Some(Piece(next, MoveKind(last))));
      }
    }

    /** The ordinary branch of `make_move`. */
    method MovePiece(alg: string, next: Color)
      requires Valid() && MatchesMoveGrammar(alg) && !IsCastling(alg) && MoveOk(gen, State().pos, alg, next)
      modifies this, board
      ensures Valid() && State() == NormalStep(gen, old(State()), alg, next)
    {
      ghost var st := State();
      var d := Decoded(alg);
      var won := end;
      if board[d.end.row, d.end.col].Some? && !HasPiece(GridOf(board), Piece(Opposite(next), King)) {
        won := Won(ColorCode(next));
      }
      assert won == WinCheck(st.pos.grid, alg, next, st.end);
      Relocate(alg, next);
      Record(next, won);
    }

    /** The position part of an ordinary move. */
    method Relocate(alg: string, next: Color)
      requires Valid() && MatchesMoveGrammar(alg) && !IsCastling(alg) && MoveOk(gen, State().pos, alg, next)
      modifies this, board
      ensures Valid() && State().pos == MovedPosition(gen, old(State()), alg, next)
      ensures end == old(end) && past == old(past)
    {
      ghost var st := State();
      var d := Decoded(alg);
      PlacePiece(alg, next);
      ghost var g := GridOf(board);
      assert g == MovedGrid(gen, st, alg, next);
      Advance(Piece(next, d.name), d.start, d.end, 'x' in alg);
      assert GridOf(board) == g;
    }

    /** The repetition check of `make_move`, `won` being the outcome the win check chose
        before the move. */
    method Record(next: Color, won: EndResult)
      requires Valid() && (enPassant.Some? ==> OnBoard(enPassant.value))
      modifies this
      ensures Valid() && State() == Recorded(old(State()).pos, won, old(past), next)
    {
      ghost var pos := State().pos;
      end := won;
      assert State().pos == pos;
      var fen := ToFen(next);
      var current := FirstField(fen.value);
      var count := Repeats(past, current);
      if count >= 2 {
        end := Drawn(true);
      }
      past := past + [fen.value];
      assert State() == BoardState(pos, end, past);
    }

    /** The bookkeeping of an ordinary move by `piece` from `s` to `e`: the castling
        flags, the en-passant square and the two clocks. */
    method Advance(piece: Piece, s: Coordinates, e: Coordinates, capture: bool)
      requires Valid() && OnBoard(s)
      modifies this
      ensures Valid() && castling == CastlingAfter(old(castling), piece, s)
      ensures enPassant == EnPassantAfter(piece.name, s, e)
      ensures halfmove == HalfmoveAfter(piece.name, capture, old(halfmove))
      ensures fullmove == FullmoveAfter(piece.color, old(fullmove))
      ensures end == old(end) && past == old(past)
    {
      var m := RightsAfter(castling, piece, s);
      castling := m;
      if piece.name == Pawn && AbsDiff(s.row, e.row) == 2 {
        enPassant := Some(Coordinates((s.row + e.row) / 2, s.col));
      } else {
        enPassant := None;
      }
      if piece.name == Pawn || capture {
        halfmove := 0;
      } else {
        halfmove := halfmove + 1;
      }
      if piece.color == Black {
        fullmove := fullmove + 1;
      }
    }

    /** The castling flags after an ordinary move by `piece` from `s`. */
    static method RightsAfter(m: CastlingMap, piece: Piece, s: Coordinates) returns (m': CastlingMap)
      requires CastlingComplete(m) && OnBoard(s)
      ensures m' == CastlingAfter(m, piece, s)
    {
      var startingSquare := GetTile(s).value;
      m' := m;
      if piece.name == King {
        m' := m'[(piece.color, Kingside) := false];
        m' := m'[(piece.color, Queenside) := false];
      } else if piece.name == Rook {
        if piece.color == Black {
          if startingSquare == "a8" {
            m' := m'[(Black, Queenside) := false];
          } else if startingSquare == "h8" {
            m' := m'[(Black, Kingside) := false];
          }
        } else {
          if startingSquare == "a1" {
            m' := m'[(White, Queenside) := false];
          } else if startingSquare == "h1" {
            m' := m'[(White, Kingside) := false];
          }
        }
      }
    }

    /** `make_move`: on a move `validate_move` rejects, its error or InvalidMove and no
        change; otherwise the board becomes exactly `Step`'s result. */
    method MakeMove(alg: string, next: Color) returns (r: Result<()>)
      requires Valid()
      modifies this, board
      ensures Valid()
      ensures Step(gen, old(State()), alg, next).Ok? ==> r == Ok(()) && State() == Step(gen, old(State()), alg, next).value
      ensures Step(gen, old(State()), alg, next).Err? ==>
        r == Err(Step(gen, old(State()), alg, next).error) && State() == old(State())
    {
      var valid := ValidateMove(alg, next);
      if valid.Err? {
        return Err(valid.error);
      }
      if !valid.value {
        return Err(InvalidMove);
      }
      if alg == "O-O" || alg == "O-O-O" {
        Castle(alg == "O-O-O", next);
        return Ok(());
      }
      MovePiece(alg, next);
      return Ok(());
    }
  }
}
