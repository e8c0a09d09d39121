/** The `TicTacToe` struct of `src/lib/lib.rs`: a class holding the 3x3 grid of boards
    of the oldest engine and the colour to move, each method proved to compute the
    game-value functions of `LegacyMeta`. */
module LegacyTic {
  import opened Types
  import opened Text
  import opened Fen
  import opened Legacy
  import opened LegacyMeta
  import MetaGame
  import Start

  class LegacyTicTacToe {
    /** The nine boards, owned by the game as Rust's `[[ChessBoard; 3]; 3]` is. */
    var chesses: seq<seq<LegacyState>>
    var next: Color

    function State(): Game
      reads this
    {
      Game(chesses, next)
    }

    ghost predicate Valid()
      reads this
    {
      SoundGame(State())
    }

    constructor (game: Game)
      requires SoundGame(game)
      ensures Valid() && State() == game
    {
      chesses := game.boards;
      next := game.next;
    }

    /** `TicTacToe::default()`: nine `ChessBoard::default()` boards, White to move. */
    static method Default() returns (t: LegacyTicTacToe)
      ensures fresh(t) && t.Valid() && t.State() == Game(Start.Nine(Start.StartLegacy), White)
    {
      Start.DefaultParses();
      var board := ParseBoard(Start.StartFen).value;
      t := new LegacyTicTacToe(Game(Start.Nine(board), White));
    }

    /** `validate_move`: InvalidCoords for an index beyond 2, otherwise the test of
        `chesses[board.0][board.1]` with `next` as the mover. */
    method ValidateMove(board: (nat, nat), alg: string) returns (r: Result<bool>)
      requires Valid() && MoveDefined(State(), board, alg)
      ensures r == MetaValidate(State(), board, alg)
    {
      if board.0 > 2 || board.1 > 2 {
        return Err(InvalidCoords);
      }
      r := Validate(chesses[board.0][board.1], alg, next);
    }

    /** `to_fen`: each board's text with `next` to move followed by `\`, the last `\`
        dropped, then `+w` or `+b`; the first board that cannot be printed stops it. */
    method ToFen() returns (r: Result<string>)
      requires Valid()
      ensures r == MetaText(State())
    {
      var res := WriteBoards(Printed(State()));
      if res.Err? {
        return Err(res.error);
      }
      r := Ok(res.value + "+" + (if next == White then "w" else "b"));
    }

    /** The loops of `to_fen`: the nine texts, each followed by `\`, the last `\` then
        dropped; `rs` holds the nine texts. */
    method WriteBoards(ghost rs: seq<Result<string>>) returns (r: Result<string>)
      requires Valid() && |rs| == 9 && forall i: nat, j: nat :: i < 3 && j < 3 ==> PrintsAt(rs, State(), i, j)
      ensures MetaGame.Collect(rs).Err? ==> r == Err(MetaGame.Collect(rs).error)
      ensures MetaGame.Collect(rs).Ok? ==> r == Ok(Join(MetaGame.Collect(rs).value, '\\'))
    {
      var res := "";
      ghost var done: seq<string> := [];
      assert rs[..0] == [];
      for i := 0 to 3
        invariant |done| == 3 * i && MetaGame.Collect(rs[..3 * i]) == Ok(done) && res == Terminated(done, '\\')
      {
        for j := 0 to 3
          invariant |done| == 3 * i + j && MetaGame.Collect(rs[..3 * i + j]) == Ok(done) && res == Terminated(done, '\\')
        {
          var k := 3 * i + j;
          var t := TextAt(i, j, rs);
          if t.Err? {
            MetaGame.CollectStops(rs, k);
            return Err(t.error);
          }
          MetaGame.CollectSnoc(rs, k, done);
          res := res + t.value + "\\";
          done := done + [t.value];
        }
      }
      assert rs[..9] == rs;
      TerminatedJoin(done, '\\');
      res := res[..|res| - 1];
      r := Ok(res);
    }

    /** `to_fen` of board `[i][j]`, kept apart so that the loops see only its result. */
    method TextAt(i: nat, j: nat, ghost rs: seq<Result<string>>) returns (t: Result<string>)
      requires Valid() && i < 3 && j < 3 && |rs| == 9
      requires forall i: nat, j: nat :: i < 3 && j < 3 ==> PrintsAt(rs, State(), i, j)
      ensures t == rs[3 * i + j]
    {
      t := PositionText(chesses[i][j].pos, next);
      assert PrintsAt(rs, State(), i, j);
    }

    /** `from_fen`: exactly one `+`, nine `\`-separated board texts that parse (the first
        failure is passed on), then `w` or `b`. */
    static method FromFen(input: string) returns (r: Result<LegacyTicTacToe>)
      requires MetaDefined(input)
      ensures r.Ok? <==> MetaParse(input).Ok?
      ensures r.Err? ==> r.error == MetaParse(input).error
      ensures r.Ok? ==> fresh(r.value) && r.value.Valid() && r.value.State() == MetaParse(input).value
    {
      var parts := Split(input, '+');
      if |parts| != 2 {
        return Err(InvalidFormat);
      }
      var boards := Split(parts[0], '\\');
      if |boards| != 9 {
        return Err(InvalidFormat);
      }
      var chesses := ParseBoards(boards, Parsed(boards));
      if chesses.Err? {
        return Err(chesses.error);
      }
      var next;
      if parts[1] == "w" {
        next := White;
      } else if parts[1] == "b" {
        next := Black;
      } else {
        return Err(InvalidFormat);
      }
      MetaParseAccepts(input);
      var t := new LegacyTicTacToe(Game(chesses.value, next));
      return Ok(t);
    }

    /** The loops of `from_fen`: nine `parse_fen` calls, row by row, the first error
        stopping them; `rs` holds the parses up to that error. */
    static method ParseBoards(texts: seq<string>, ghost rs: seq<Result<LegacyState>>) returns (r: Result<seq<seq<LegacyState>>>)
      requires |texts| == 9 && ParseRun(rs, texts)
      ensures MetaGame.Collect(rs).Err? ==> r == Err(MetaGame.Collect(rs).error)
      ensures MetaGame.Collect(rs).Ok? ==> |MetaGame.Collect(rs).value| == 9 && r == Ok(MetaGame.Unflatten(MetaGame.Collect(rs).value))
    {
      var chesses: seq<seq<LegacyState>> := [];
      assert rs[..0] == [];
      for i := 0 to 3
        invariant |chesses| == i && (forall i' :: 0 <= i' < i ==> |chesses[i']| == 3)
        invariant 3 * i <= |rs| && MetaGame.Collect(rs[..3 * i]) == Ok(MetaGame.Rows(chesses))
      {
        var row := ParseRow(texts, i, rs, MetaGame.Rows(chesses));
        if row.Err? {
          return Err(row.error);
        }
        assert (chesses + [row.value])[..i] == chesses;
        chesses := chesses + [row.value];
      }
      assert rs[..9] == rs;
      MetaGame.RowsUnflatten(chesses);
      return Ok(chesses);
    }

    /** The inner loop of `from_fen`: the three boards of row `i`, or the first error. */
    static method ParseRow(texts: seq<string>, i: nat, ghost rs: seq<Result<LegacyState>>, ghost prefix: seq<LegacyState>)
      returns (r: Result<seq<LegacyState>>)
      requires |texts| == 9 && i < 3 && ParseRun(rs, texts)
      requires 3 * i <= |rs| && MetaGame.Collect(rs[..3 * i]) == Ok(prefix)
      ensures r.Err? ==> MetaGame.Collect(rs) == Err(r.error)
      ensures r.Ok? ==> |r.value| == 3 && 3 * i + 3 <= |rs| && MetaGame.Collect(rs[..3 * i + 3]) == Ok(prefix + r.value)
    {
      var row: seq<LegacyState> := [];
      assert prefix + row == prefix;
      for j := 0 to 3
        invariant |row| == j && 3 * i + j <= |rs| && MetaGame.Collect(rs[..3 * i + j]) == Ok(prefix + row)
      {
        var k := 3 * i + j;
        MetaGame.StoppedContinues(rs, 9, k);
        var b := ParseAt(texts, k, rs);
        if b.Err? {
          MetaGame.CollectStops(rs, k);
          return Err(b.error);
        }
        MetaGame.CollectSnoc(rs, k, prefix + row);
        assert prefix + row + [b.value] == prefix + (row + [b.value]);
        row := row + [b.value];
      }
      return Ok(row);
    }

    /** `parse_fen` of the `k`th text, kept apart so that the loops see only its result. */
    static method ParseAt(texts: seq<string>, k: nat, ghost rs: seq<Result<LegacyState>>) returns (b: Result<LegacyState>)
      requires k < |texts| && k < |rs| && ParsesAt(rs, texts, k)
      ensures b == rs[k]
    {
      b := ParseBoard(texts[k]);
      assert ParsesAt(rs, texts, k);
    }
  }
}
