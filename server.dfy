/** The free function `make_move` of `src/server.rs`: the turn-ownership wrapper over a
    game of the oldest engine, as a function from the game to the new game. */
module Server {
  import opened Types
  import opened Squares
  import opened Legacy
  import opened LegacyMeta

  /** The chosen board's `make_move` does not panic. */
  predicate ServerDefined(game: Game, board: (nat, nat), alg: string, mover: Color)
    requires SoundGame(game)
  {
    InRange(board) && mover == game.next ==>
      DecodeDefined(alg) && ValidateDefined(game.boards[board.0][board.1], alg, game.next)
  }

  /** `make_move(tic, board, alg, mover)`: InvalidCoords for an index beyond 2, then
      WrongColor unless `mover` is the game's colour; otherwise the chosen board makes
      the move with `mover` and the game's colour, its error is passed on, and on
      success the turn passes. */
  function ServerMove(game: Game, board: (nat, nat), alg: string, mover: Color): (r: Result<Game>)
    requires SoundGame(game) && ServerDefined(game, board, alg, mover)
    ensures r.Ok? ==> SoundGame(r.value)
  {
    if board.0 > 2 || board.1 > 2 then Err(InvalidCoords)
    else if game.next != mover then Err(WrongColor)
    else
      var (i, j) := board;
      match Step(game.boards[i][j], mover, alg, game.next)
      case Err(e) => Err(e)
      case Ok(b) =>
        var r := Game(game.boards[i := game.boards[i][j := b]], Opposite(game.next));
        assert forall i', j' :: 0 <= i' < 3 && 0 <= j' < 3 && (i', j') != (i, j) ==> r.boards[i'][j'] == game.boards[i'][j'];
        Ok(r)
  }

  /** The errors of `make_move`: InvalidCoords exactly for an index beyond 2, then
      WrongColor exactly for a mover whose turn it is not, then exactly the errors of the
      chosen board's own move. */
  lemma ServerErrors(game: Game, board: (nat, nat), alg: string, mover: Color)
    requires SoundGame(game) && ServerDefined(game, board, alg, mover)
    ensures ServerMove(game, board, alg, mover) == Err(InvalidCoords) <==> !InRange(board)
    ensures ServerMove(game, board, alg, mover) == Err(WrongColor) <==> InRange(board) && mover != game.next
    ensures InRange(board) && mover == game.next ==>
      var s := Step(game.boards[board.0][board.1], mover, alg, game.next);
      (ServerMove(game, board, alg, mover).Ok? <==> s.Ok?) &&
      (s.Err? ==> ServerMove(game, board, alg, mover) == Err(s.error))
  {
    if InRange(board) && mover == game.next {
      StepErrors(game.boards[board.0][board.1], mover, alg, game.next);
    }
  }

  /** An accepted move changes only `chesses[board.0][board.1]`, to what that board's own
      move gives, and passes the turn. */
  lemma ServerFrame(game: Game, board: (nat, nat), alg: string, mover: Color)
    requires SoundGame(game) && ServerDefined(game, board, alg, mover)
    requires ServerMove(game, board, alg, mover).Ok?
    ensures var r := ServerMove(game, board, alg, mover).value; var (i, j) := board;
      InRange(board) && mover == game.next && r.next == Opposite(game.next) &&
      r.boards[i][j] == Step(game.boards[i][j], mover, alg, game.next).value &&
      forall i', j' :: 0 <= i' < 3 && 0 <= j' < 3 && (i', j') != (i, j) ==> r.boards[i'][j'] == game.boards[i'][j']
  {
  }
}
