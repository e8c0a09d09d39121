/** The `TicTacToe` structs of `helpers/src/tictactoe.rs` and `helpers/src/lib.rs`: a
    class holding the 3x3 grid of boards and the colour to move, each method proved to
    compute the game-value functions of `MetaGame`. */
module TicTac {
  import opened Types
  import opened Text
  import opened Fen
  import opened Engine
  import opened MetaGame
  import Start

  class TicTacToe {
    /** Which of the two newer engines the boards follow, and so how a board index picks
        its cell. */
    const gen: Generation
    /** The nine boards, owned by the game as Rust's `[[ChessBoard; 3]; 3]` is. */
    var chesses: seq<seq<BoardState>>
    var next: Color

    function State(): Game
      reads this
    {
      MetaGame.Game(chesses, next)
    }

    ghost predicate Valid()
      reads this
    {
      SoundGame(State())
    }

    constructor (gen: Generation, game: Game)
      requires SoundGame(game)
      ensures Valid() && this.gen == gen && State() == game
    {
      this.gen := gen;
      chesses := game.boards;
      next := game.next;
    }

    /** `TicTacToe::default()`: nine `ChessBoard::default()` boards, White to move. */
    static method Default(gen: Generation) returns (t: TicTacToe)
      ensures fresh(t) && t.gen == gen && t.Valid()
      ensures t.State() == MetaGame.Game(Start.Nine(Start.StartBoard), White)
    {
      Start.DefaultParses();
      var board := ParseBoard(Start.StartFen).value;
      t := new TicTacToe(gen, MetaGame.Game(Start.Nine(board), White));
    }

    /** `get_board`: InvalidCoords for an index beyond 2, otherwise the board at the
        index's cell. */
    method GetBoard(board: Coordinates) returns (r: Result<BoardState>)
      requires Valid()
      ensures r == MetaGame.GetBoard(gen, State(), board)
    {
      if board.col > 2 || board.row > 2 {
        return Err(InvalidCoords);
      }
      var (i, j) := Slot(gen, board);
      return Ok(chesses[i][j]);
    }

    /** `validate_move`: the chosen board's test with `next` as the mover. */
    method ValidateMove(board: Coordinates, alg: string) returns (r: Result<bool>)
      requires Valid()
      ensures r == MetaValidate(gen, State(), board, alg)
    {
      var b := GetBoard(board);
      if b.Err? {
        return Err(b.error);
      }
      r := Validate(gen, b.value, alg, next);
    }

    /** `make_move`: the test's error or InvalidMove, with nothing changed; otherwise the
        chosen board makes the move and the turn passes. */
    method MakeMove(board: Coordinates, alg: string) returns (r: Result<()>)
      requires Valid()
      modifies this
      ensures Valid()
      ensures MetaStep(gen, old(State()), board, alg).Ok? ==>
        r == Ok(()) && State() == MetaStep(gen, old(State()), board, alg).value
      ensures MetaStep(gen, old(State()), board, alg).Err? ==>
        r == Err(MetaStep(gen, old(State()), board, alg).error) && State() == old(State())
    {
      var valid := ValidateMove(board, alg);
      if valid.Err? {
        return Err(valid.error);
      }
      if !valid.value {
        return Err(InvalidMove);
      }
      var (i, j) := Slot(gen, board);
      var moved := Step(gen, chesses[i][j], alg, next);
      chesses := chesses[i := chesses[i][j := moved.value]];
      next := Opposite(next);
      r := Ok(());
      MetaStepFrame(gen, old(State()), board, alg);
    }

    /** `to_fen`: each board's text with `next` to move followed by `\`, the last `\`
        dropped, then `+w` or `+b`; the first board that cannot be printed stops it. */
    method ToFen() returns (r: Result<string>)
      requires Valid()
      ensures r == MetaText(State())
    {
      var res := WriteBoards(Printed(State()));
      if res.Err? {
        return Err(res.error);
      }
      r := Ok(res.value + "+" + (if next == White then "w" else "b"));
    }

    /** The loops of `to_fen`: the nine texts, each followed by `\`, the last `\` then
        dropped; `rs` holds the nine texts. */
    method WriteBoards(ghost rs: seq<Result<string>>) returns (r: Result<string>)
      requires Valid() && |rs| == 9 && forall i: nat, j: nat :: i < 3 && j < 3 ==> PrintsAt(rs, State(), i, j)
      ensures Collect(rs).Err? ==> r == Err(Collect(rs).error)
      ensures Collect(rs).Ok? ==> r == Ok(Join(Collect(rs).value, '\\'))
    {
      var res := "";
      ghost var done: seq<string> := [];
      assert rs[..0] == [];
      for i := 0 to 3
        invariant |done| == 3 * i && Collect(rs[..3 * i]) == Ok(done) && res == Terminated(done, '\\')
      {
        for j := 0 to 3
          invariant |done| == 3 * i + j && Collect(rs[..3 * i + j]) == Ok(done) && res == Terminated(done, '\\')
        {
          var k := 3 * i + j;
          var t := TextAt(i, j, rs);
          if t.Err? {
            CollectStops(rs, k);
            return Err(t.error);
          }
          CollectSnoc(rs, k, done);
          res := res + t.value + "\\";
          done := done + [t.value];
        }
      }
      assert rs[..9] == rs;
      TerminatedJoin(done, '\\');
      res := res[..|res| - 1];
      r := Ok(res);
    }

    /** `to_fen` of board `[i][j]`, kept apart so that the loops see only its result. */
    method TextAt(i: nat, j: nat, ghost rs: seq<Result<string>>) returns (t: Result<string>)
      requires Valid() && i < 3 && j < 3 && |rs| == 9
      requires forall i: nat, j: nat :: i < 3 && j < 3 ==> PrintsAt(rs, State(), i, j)
      ensures t == rs[3 * i + j]
    {
      t := PositionText(chesses[i][j].pos, next);
      assert PrintsAt(rs, State(), i, j);
    }

    /** `from_fen`: exactly one `+`, nine `\`-separated board texts that parse (the first
        failure is passed on), then `w` or `b`. */
    static method FromFen(gen: Generation, input: string) returns (r: Result<TicTacToe>)
      requires MetaDefined(input)
      ensures r.Ok? <==> MetaParse(input).Ok?
      ensures r.Err? ==> r.error == MetaParse(input).error
      ensures r.Ok? ==> fresh(r.value) && r.value.Valid() && r.value.gen == gen && r.value.State() == MetaParse(input).value
    {
      var parts := Split(input, '+');
      if |parts| != 2 {
        return Err(InvalidFormat);
      }
      var boards := Split(parts[0], '\\');
      if |boards| != 9 {
        return Err(InvalidFormat);
      }
      var chesses := ParseBoards(boards, Parsed(boards));
      if chesses.Err? {
        return Err(chesses.error);
      }
      var next;
      if parts[1] == "w" {
        next := White;
      } else if parts[1] == "b" {
        next := Black;
      } else {
        return Err(InvalidFormat);
      }
      MetaParseAccepts(input);
      var t := new TicTacToe(gen, MetaGame.Game(chesses.value, next));
      return Ok(t);
    }

    /** The loops of `from_fen`: nine `parse_fen` calls, row by row, the first error
        stopping them; `rs` holds the parses up to that error. */
    static method ParseBoards(texts: seq<string>, ghost rs: seq<Result<BoardState>>) returns (r: Result<seq<seq<BoardState>>>)
      requires |texts| == 9 && ParseRun(rs, texts)
      ensures Collect(rs).Err? ==> r == Err(Collect(rs).error)
      ensures Collect(rs).Ok? ==> |Collect(rs).value| == 9 && r == Ok(Unflatten(Collect(rs).value))
    {
      var chesses: seq<seq<BoardState>> := [];
      assert rs[..0] == [];
      for i := 0 to 3
        invariant |chesses| == i && (forall i' :: 0 <= i' < i ==> |chesses[i']| == 3)
        invariant 3 * i <= |rs| && Collect(rs[..3 * i]) == Ok(Rows(chesses))
      {
        var row := ParseRow(texts, i, rs, Rows(chesses));
        if row.Err? {
          return Err(row.error);
        }
        assert (chesses + [row.value])[..i] == chesses;
        chesses := chesses + [row.value];
      }
      assert rs[..9] == rs;
      RowsUnflatten(chesses);
      return Ok(chesses);
    }

    /** The inner loop of `from_fen`: the three boards of row `i`, or the first error. */
    static method ParseRow(texts: seq<string>, i: nat, ghost rs: seq<Result<BoardState>>, ghost prefix: seq<BoardState>)
      returns (r: Result<seq<BoardState>>)
      requires |texts| == 9 && i < 3 && ParseRun(rs, texts)
      requires 3 * i <= |rs| && Collect(rs[..3 * i]) == Ok(prefix)
      ensures r.Err? ==> Collect(rs) == Err(r.error)
      ensures r.Ok? ==> |r.value| == 3 && 3 * i + 3 <= |rs| && Collect(rs[..3 * i + 3]) == Ok(prefix + r.value)
    {
      var row: seq<BoardState> := [];
      assert prefix + row == prefix;
      for j := 0 to 3
        invariant |row| == j && 3 * i + j <= |rs| && Collect(rs[..3 * i + j]) == Ok(prefix + row)
      {
        var k := 3 * i + j;
        StoppedContinues(rs, 9, k);
        var b := ParseAt(texts, k, rs);
        if b.Err? {
          CollectStops(rs, k);
          return Err(b.error);
        }
        CollectSnoc(rs, k, prefix + row);
        assert prefix + row + [b.value] == prefix + (row + [b.value]);
        row := row + [b.value];
      }
      return Ok(row);
    }

    /** `parse_fen` of the `k`th text, kept apart so that the loops see only its result. */
    static method ParseAt(texts: seq<string>, k: nat, ghost rs: seq<Result<BoardState>>) returns (b: Result<BoardState>)
      requires k < |texts| && k < |rs| && ParsesAt(rs, texts, k)
      ensures b == rs[k]
    {
      b := ParseBoard(texts[k]);
      assert ParsesAt(rs, texts, k);
    }
  }
}
