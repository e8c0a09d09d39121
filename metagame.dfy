/** The 3x3 meta-game of the two newer engines (`helpers/src/tictactoe.rs` and the
    `TicTacToe` of `helpers/src/lib.rs`) as functions of a game value: the board look-up,
    the move test and the move, and the nine-board text format. The `TicTacToe` class in
    `TicTac` is proved to compute exactly these. */
module MetaGame {
  import opened Types
  import opened Text
  import opened Fen
  import opened Engine

  /** A `TicTacToe` as a value: the nine boards, `boards[i][j]` being `chesses[i][j]`, and
      the colour to move on every board. */
  datatype Game = Game(boards: seq<seq<BoardState>>, next: Color)

  predicate Shaped<T>(boards: seq<seq<T>>) {
    |boards| == 3 && forall i :: 0 <= i < 3 ==> |boards[i]| == 3
  }

  /** Nine boards, each with its four castling keys. */
  predicate SoundGame(game: Game) {
    Shaped(game.boards) && forall i, j :: 0 <= i < 3 && 0 <= j < 3 ==> Sound(game.boards[i][j])
  }

  /** `get_board`'s bound test: both indices at most 2. */
  predicate InRange(board: Coordinates) {
    board.row <= 2 && board.col <= 2
  }

  /** The cell of `chesses` a board index names: `chesses[col][row]` for the
      `Coordinates` of tictactoe.rs, `chesses[board.0][board.1]` for the pair of lib.rs,
      whose two components are carried here as `row` and `col`. */
  function Slot(gen: Generation, board: Coordinates): (s: (nat, nat))
    ensures InRange(board) ==> s.0 <= 2 && s.1 <= 2
    ensures gen == ChessRs ==> s == (board.col, board.row)
    ensures gen == LibRs ==> s == (board.row, board.col)
  {
    if gen == ChessRs then (board.col, board.row) else (board.row, board.col)
  }

  /** `get_board`. */
  function GetBoard(gen: Generation, game: Game, board: Coordinates): (r: Result<BoardState>)
    requires Shaped(game.boards)
    ensures r.Err? <==> !InRange(board)
    ensures r.Err? ==> r.error == InvalidCoords
    ensures r.Ok? ==> r.value == game.boards[Slot(gen, board).0][Slot(gen, board).1]
  {
    if board.col > 2 || board.row > 2 then Err(InvalidCoords)
    else Ok(game.boards[Slot(gen, board).0][Slot(gen, board).1])
  }

  /** `validate_move`: the chosen board's own test, with the game's colour as the mover. */
  function MetaValidate(gen: Generation, game: Game, board: Coordinates, alg: string): (r: Result<bool>)
    requires Shaped(game.boards)
  {
    match GetBoard(gen, game, board)
    case Err(e) => Err(e)
    case Ok(b) => Validate(gen, b, alg, game.next)
  }

  /** `make_move`: a rejected move is InvalidMove, an error of the test is passed on;
      otherwise the chosen board makes the move and the turn passes. */
  function MetaStep(gen: Generation, game: Game, board: Coordinates, alg: string): (r: Result<Game>)
    requires SoundGame(game)
  {
    match MetaValidate(gen, game, board, alg)
    case Err(e) => Err(e)
    case Ok(ok) =>
      if !ok then Err(InvalidMove)
      else
        var (i, j) := Slot(gen, board);
        var b := Step(gen, game.boards[i][j], alg, game.next).value;
        Ok(Game(game.boards[i := game.boards[i][j := b]], Opposite(game.next)))
  }

  /** The errors of `make_move`: out-of-range indices first, then exactly the chosen
      board's errors; the same move on the chosen board alone decides acceptance. */
  lemma MetaStepErrors(gen: Generation, game: Game, board: Coordinates, alg: string)
    requires SoundGame(game)
    ensures !InRange(board) ==> MetaStep(gen, game, board, alg) == Err(InvalidCoords)
    ensures InRange(board) ==>
      var (i, j) := Slot(gen, board);
      (MetaStep(gen, game, board, alg).Ok? <==> Step(gen, game.boards[i][j], alg, game.next).Ok?) &&
      (MetaStep(gen, game, board, alg).Err? ==>
        MetaStep(gen, game, board, alg).error == Step(gen, game.boards[i][j], alg, game.next).error)
    ensures MetaValidate(gen, game, board, alg) == Ok(false) ==> MetaStep(gen, game, board, alg) == Err(InvalidMove)
  {
  }

  /** An accepted move changes only the chosen board, to what that board's own move
      gives, and passes the turn. */
  lemma MetaStepFrame(gen: Generation, game: Game, board: Coordinates, alg: string)
    requires SoundGame(game) && MetaStep(gen, game, board, alg).Ok?
    ensures var r := MetaStep(gen, game, board, alg).value; var (i, j) := Slot(gen, board);
      InRange(board) && SoundGame(r) && r.next == Opposite(game.next) &&
      r.boards[i][j] == Step(gen, game.boards[i][j], alg, game.next).value &&
      forall i', j' :: 0 <= i' < 3 && 0 <= j' < 3 && (i', j') != (i, j) ==> r.boards[i'][j'] == game.boards[i'][j']
  {
    var (i, j) := Slot(gen, board);
    var r := MetaStep(gen, game, board, alg).value;
    assert Step(gen, game.boards[i][j], alg, game.next).Ok?;
    forall i', j' | 0 <= i' < 3 && 0 <= j' < 3
      ensures Sound(r.boards[i'][j'])
    {
      if (i', j') != (i, j) {
        assert r.boards[i'][j'] == game.boards[i'][j'];
      }
    }
  }

  // ---------------------------------------------------------------------------
  // The nine-board text format

  /** The nine boards in the order `to_fen` visits them: `chesses[0][0]`,
      `chesses[0][1]`, ..., `chesses[2][2]`. */
  function Flatten<T>(boards: seq<seq<T>>): (s: seq<T>)
    requires Shaped(boards)
    ensures |s| == 9 && forall i, j :: 0 <= i < 3 && 0 <= j < 3 ==> s[3 * i + j] == boards[i][j]
  {
    boards[0] + boards[1] + boards[2]
  }

  /** Nine boards back into three rows of three. */
  function Unflatten<T>(s: seq<T>): (boards: seq<seq<T>>)
    requires |s| == 9
    ensures Shaped(boards) && forall i, j :: 0 <= i < 3 && 0 <= j < 3 ==> boards[i][j] == s[3 * i + j]
  {
    [s[0..3], s[3..6], s[6..9]]
  }

  /** The rows of a grid one after the other. */
  function Rows<T>(c: seq<seq<T>>): seq<T>
    decreases |c|
  {
    if |c| == 0 then [] else Rows(c[..|c| - 1]) + c[|c| - 1]
  }

  /** Three rows of three, laid out one after the other, fold back into the grid. */
  lemma RowsUnflatten<T>(c: seq<seq<T>>)
    requires Shaped(c)
    ensures |Rows(c)| == 9 && Unflatten(Rows(c)) == c
  {
    assert c[..2][..1] == c[..1] && c[..1][..0] == [];
    assert Rows(c[..1]) == c[0];
    assert Rows(c[..2]) == c[0] + c[1];
    var s := c[0] + c[1] + c[2];
    assert Rows(c) == s;
    assert s[0..3] == c[0] && s[3..6] == c[1] && s[6..9] == c[2];
  }

  /** The values of the results, or the error of the first one that failed: how a loop
      with `?` in it collects the results of its calls. */
  function Collect<T>(rs: seq<Result<T>>): (r: Result<seq<T>>)
    ensures r.Ok? ==> |r.value| == |rs|
    decreases |rs|
  {
    if |rs| == 0 then Ok([])
    else match rs[0]
      case Err(e) => Err(e)
      case Ok(x) =>
        match Collect(rs[1..])
        case Err(e) => Err(e)
        case Ok(xs) => Ok([x] + xs)
  }

  /** Collecting succeeds exactly when every result is Ok, and then holds their values in
      order; otherwise its error is that of the first failed result. */
  lemma {:induction false} CollectSpec<T>(rs: seq<Result<T>>)
    ensures Collect(rs).Ok? <==> forall k :: 0 <= k < |rs| ==> rs[k].Ok?
    ensures Collect(rs).Ok? ==> |Collect(rs).value| == |rs| && forall k :: 0 <= k < |rs| ==> rs[k] == Ok(Collect(rs).value[k])
    ensures Collect(rs).Err? ==>
      exists k :: 0 <= k < |rs| && rs[k] == Err(Collect(rs).error) && forall j :: 0 <= j < k ==> rs[j].Ok?
    decreases |rs|
  {
    if |rs| > 0 {
      CollectSpec(rs[1..]);
      if rs[0].Ok? {
        if Collect(rs[1..]).Ok? {
          forall k | 0 < k < |rs|
            ensures rs[k] == rs[1..][k - 1]
          {
          }
        } else {
          var k :| 0 <= k < |rs[1..]| && rs[1..][k] == Err(Collect(rs[1..]).error) &&
                   forall j :: 0 <= j < k ==> rs[1..][j].Ok?;
          assert rs[k + 1] == rs[1..][k];
          forall j | 0 < j < k + 1
            ensures rs[j].Ok?
          {
            assert rs[j] == rs[1..][j - 1];
          }
          assert !rs[k + 1].Ok?;
        }
      }
    }
  }

  /** Collecting two runs of results one after the other: the first run's error, else
      the second run's error, else both runs' values in order. */
  lemma {:induction false} CollectAppend<T>(a: seq<Result<T>>, b: seq<Result<T>>)
    ensures Collect(a + b) ==
      match Collect(a)
      case Err(e) => Err(e)
      case Ok(xs) => (match Collect(b) case Err(e) => Err(e) case Ok(ys) => Ok(xs + ys))
    decreases |a|
  {
    if |a| == 0 {
      assert a + b == b;
      if Collect(b).Ok? {
        assert [] + Collect(b).value == Collect(b).value;
      }
    } else {
      assert (a + b)[0] == a[0] && (a + b)[1..] == a[1..] + b;
      CollectAppend(a[1..], b);
      if Collect(a).Ok? && Collect(b).Ok? {
        assert [a[0].value] + (Collect(a[1..]).value + Collect(b).value) ==
               ([a[0].value] + Collect(a[1..]).value) + Collect(b).value;
      }
    }
  }

  /** One more Ok result extends the collected values by its value. */
  lemma CollectSnoc<T>(rs: seq<Result<T>>, k: nat, xs: seq<T>)
    requires k < |rs| && Collect(rs[..k]) == Ok(xs) && rs[k].Ok?
    ensures Collect(rs[..k + 1]) == Ok(xs + [rs[k].value])
  {
    var one := [rs[k]];
    assert rs[..k + 1] == rs[..k] + one;
    assert one[1..] == [] && [rs[k].value] + [] == [rs[k].value];
    assert Collect(one) == Ok([rs[k].value]);
    CollectAppend(rs[..k], one);
  }

  /** The first failed result decides the error of the whole run. */
  lemma CollectStops<T>(rs: seq<Result<T>>, k: nat)
    requires k < |rs| && Collect(rs[..k]).Ok? && rs[k].Err?
    ensures Collect(rs) == Err(rs[k].error)
  {
    assert rs == rs[..k] + rs[k..];
    CollectAppend(rs[..k], rs[k..]);
  }

  /** A run of results that stops at its first failure: out of `n` attempts, every result
      but the last is Ok, and a run shorter than `n` ends in an error. */
  predicate Stopped<T>(rs: seq<Result<T>>, n: nat) {
    |rs| <= n && (forall k :: 0 <= k < |rs| - 1 ==> rs[k].Ok?) &&
    (|rs| < n ==> 0 < |rs| && rs[|rs| - 1].Err?)
  }

  /** An Ok result followed by a stopped run of one attempt fewer is a stopped run. */
  lemma StoppedCons<T>(r: Result<T>, rest: seq<Result<T>>, n: nat)
    requires 0 < n && r.Ok? && Stopped(rest, n - 1)
    ensures Stopped([r] + rest, n)
  {
    var rs := [r] + rest;
    forall k | 0 < k < |rs|
      ensures rs[k] == rest[k - 1]
    {
    }
  }

  /** After `k` Ok results of a stopped run, attempt `k` is in the run too. */
  lemma StoppedContinues<T>(rs: seq<Result<T>>, n: nat, k: nat)
    requires Stopped(rs, n) && k <= |rs| && k < n && Collect(rs[..k]).Ok?
    ensures k < |rs|
  {
    if k == |rs| {
      assert rs[..k] == rs;
      CollectSpec(rs);
    }
  }

  /** A stopped run collects to Ok only when all `n` attempts were made. */
  lemma StoppedCollect<T>(rs: seq<Result<T>>, n: nat)
    requires Stopped(rs, n)
    ensures Collect(rs).Ok? ==> |rs| == n
  {
    CollectSpec(rs);
  }

  /** The result in slot `3 * i + j` is the text of board `[i][j]`. */
  predicate PrintsAt(rs: seq<Result<string>>, game: Game, i: nat, j: nat)
    requires SoundGame(game) && |rs| == 9 && i < 3 && j < 3
  {
    rs[3 * i + j] == PositionText(game.boards[i][j].pos, game.next)
  }

  /** The nine FEN texts of the boards with `next` to move, in `to_fen`'s order. */
  function Printed(game: Game): (rs: seq<Result<string>>)
    requires SoundGame(game)
    ensures |rs| == 9 && forall i: nat, j: nat :: i < 3 && j < 3 ==> PrintsAt(rs, game, i, j)
  {
    var bs := Flatten(game.boards);
    seq(9, k requires 0 <= k < 9 => (SoundAt(game, k); PositionText(bs[k].pos, game.next)))
  }

  /** Every flattened board has its four castling keys. */
  lemma SoundAt(game: Game, k: int)
    requires SoundGame(game) && 0 <= k < 9
    ensures Sound(Flatten(game.boards)[k])
  {
    var bs := Flatten(game.boards);
    if k < 3 {
      assert bs[k] == game.boards[0][k];
    } else if k < 6 {
      assert bs[k] == game.boards[1][k - 3];
    } else {
      assert bs[k] == game.boards[2][k - 6];
    }
  }

  /** `to_fen`: the nine board texts joined by `\`, then `+w` or `+b`; the error of the
      first board that cannot be printed. */
  function MetaText(game: Game): (r: Result<string>)
    requires SoundGame(game)
  {
    match Collect(Printed(game))
    case Err(e) => Err(e)
    case Ok(ts) => Ok(Join(ts, '\\') + "+" + SideText(game.next))
  }

  /** `to_fen` fails exactly when a board's en-passant square is off the board, with that
      board's error (the first such board's, in `to_fen`'s order). */
  lemma MetaTextErrors(game: Game)
    requires SoundGame(game)
    ensures MetaText(game).Err? <==>
      exists i, j :: 0 <= i < 3 && 0 <= j < 3 && PositionText(game.boards[i][j].pos, game.next).Err?
    ensures MetaText(game).Err? ==> MetaText(game).error == InvalidSquare
  {
    var rs := Printed(game);
    forall i: nat, j: nat | i < 3 && j < 3
      ensures rs[3 * i + j] == PositionText(game.boards[i][j].pos, game.next)
    {
      assert PrintsAt(rs, game, i, j);
    }
    CollectSpec(rs);
    if Collect(rs).Err? {
      var k :| 0 <= k < 9 && rs[k] == Err(Collect(rs).error) && forall j :: 0 <= j < k ==> rs[j].Ok?;
      if k < 3 {
        assert rs[k] == rs[3 * 0 + k];
      } else if k < 6 {
        assert rs[k] == rs[3 * 1 + (k - 3)];
      } else {
        assert rs[k] == rs[3 * 2 + (k - 6)];
      }
    } else {
      forall i, j | 0 <= i < 3 && 0 <= j < 3
        ensures PositionText(game.boards[i][j].pos, game.next).Ok?
      {
        assert rs[3 * i + j].Ok?;
      }
    }
  }

  /** The nine texts of the boards `from_fen` parses. */
  function BoardFields(input: string): seq<string> {
    Split(Split(input, '+')[0], '\\')
  }

  /** The `parse_fen` calls of `from_fen` stay within what the model covers: each text is
      covered as long as every text before it parses, since the first failure ends the loop. */
  predicate TextsDefined(texts: seq<string>)
    decreases |texts|
  {
    |texts| > 0 ==> FenDefined(texts[0]) && (ParseBoard(texts[0]).Ok? ==> TextsDefined(texts[1..]))
  }

  /** The input of `from_fen` stays within what the model of `parse_fen` covers: when it
      has one `+` and nine board texts, the board texts it reaches do. */
  predicate MetaDefined(input: string) {
    |Split(input, '+')| == 2 && |BoardFields(input)| == 9 ==> TextsDefined(BoardFields(input))
  }

  /** The result is the parse of the text. */
  predicate ParsesTo(r: Result<BoardState>, text: string) {
    FenDefined(text) && r == ParseBoard(text)
  }

  /** The `k`th result is the parse of the `k`th text. */
  predicate ParsesAt(rs: seq<Result<BoardState>>, texts: seq<string>, k: nat)
    requires k < |rs| && k < |texts|
  {
    ParsesTo(rs[k], texts[k])
  }

  /** The parses `from_fen` performs: text by text, up to and including the first failure. */
  predicate ParseRun(rs: seq<Result<BoardState>>, texts: seq<string>) {
    Stopped(rs, |texts|) && forall k :: 0 <= k < |rs| ==> ParsesAt(rs, texts, k)
  }

  /** The boards the texts describe, in `to_fen`'s order, stopping after the first failure. */
  function Parsed(texts: seq<string>): (rs: seq<Result<BoardState>>)
    requires TextsDefined(texts)
    ensures ParseRun(rs, texts)
    decreases |texts|
  {
    if |texts| == 0 then []
    else
      var r := ParseBoard(texts[0]);
      if r.Err? then [r]
      else
        var rest := Parsed(texts[1..]);
        RunCons(texts, r, rest);
        [r] + rest
  }

  /** A successful first parse followed by the run over the other texts is a run. */
  lemma RunCons(texts: seq<string>, r: Result<BoardState>, rest: seq<Result<BoardState>>)
    requires |texts| > 0 && ParsesTo(r, texts[0]) && r.Ok? && ParseRun(rest, texts[1..])
    ensures ParseRun([r] + rest, texts)
  {
    var rs := [r] + rest;
    StoppedCons(r, rest, |texts|);
    assert rs[1..] == rest;
    forall k | 0 < k < |rs|
      ensures ParsesAt(rs, texts, k)
    {
      ParsesShift(rs, texts, k);
    }
    assert ParsesAt(rs, texts, 0);
  }

  /** The parse at index `k - 1` of the tails is the parse at index `k`. */
  lemma ParsesShift(rs: seq<Result<BoardState>>, texts: seq<string>, k: nat)
    requires 0 < k < |rs| && k < |texts| && ParsesAt(rs[1..], texts[1..], k - 1)
    ensures ParsesAt(rs, texts, k)
  {
    assert rs[1..][k - 1] == rs[k] && texts[1..][k - 1] == texts[k];
  }

  /** Parsing up to the first failure and collecting gives what parsing every text would:
      Ok with every board when all texts parse, else the error of the first that does not. */
  lemma ParsedCollect(texts: seq<string>)
    requires TextsDefined(texts)
    ensures Collect(Parsed(texts)).Ok? <==> forall k :: 0 <= k < |texts| ==> FenDefined(texts[k]) && ParseBoard(texts[k]).Ok?
    ensures Collect(Parsed(texts)).Ok? ==>
      |Collect(Parsed(texts)).value| == |texts| &&
      forall k :: 0 <= k < |texts| ==> ParseBoard(texts[k]) == Ok(Collect(Parsed(texts)).value[k])
    ensures Collect(Parsed(texts)).Err? ==>
      exists k :: 0 <= k < |texts| &&
        (forall j :: 0 <= j < k ==> FenDefined(texts[j]) && ParseBoard(texts[j]).Ok?) &&
        FenDefined(texts[k]) && ParseBoard(texts[k]) == Err(Collect(Parsed(texts)).error)
  {
    var rs := Parsed(texts);
    CollectSpec(rs);
    StoppedCollect(rs, |texts|);
    if Collect(rs).Ok? {
      forall k | 0 <= k < |texts|
        ensures FenDefined(texts[k]) && ParseBoard(texts[k]) == Ok(Collect(rs).value[k])
      {
        assert ParsesAt(rs, texts, k);
      }
    } else {
      var k :| 0 <= k < |rs| && rs[k] == Err(Collect(rs).error) && forall j :: 0 <= j < k ==> rs[j].Ok?;
      assert ParsesAt(rs, texts, k);
      forall j | 0 <= j < k
        ensures FenDefined(texts[j]) && ParseBoard(texts[j]).Ok?
      {
        assert ParsesAt(rs, texts, j);
      }
    }
  }

  /** When the first text does not parse, the loop stops there: the texts after it are
      never read, and its error is the loop's. */
  lemma FirstFailureStops(texts: seq<string>)
    requires |texts| > 0 && FenDefined(texts[0]) && ParseBoard(texts[0]).Err?
    ensures TextsDefined(texts) && Parsed(texts) == [ParseBoard(texts[0])]
    ensures Collect(Parsed(texts)) == Err(ParseBoard(texts[0]).error)
  {
  }

  /** Texts that are all covered are covered as a run. */
  lemma {:induction false} AllTextsDefined(texts: seq<string>)
    requires forall k :: 0 <= k < |texts| ==> FenDefined(texts[k])
    ensures TextsDefined(texts)
    decreases |texts|
  {
    if |texts| > 0 {
      assert forall k :: 0 <= k < |texts[1..]| ==> texts[1..][k] == texts[k + 1];
      AllTextsDefined(texts[1..]);
    }
  }

  /** `from_fen`: exactly one `+`, nine `\`-separated boards that parse (the first failure
      is passed on), then the turn marker `w` or `b`. */
  function MetaParse(input: string): (r: Result<Game>)
    requires MetaDefined(input)
  {
    var parts := Split(input, '+');
    if |parts| != 2 then Err(InvalidFormat)
    else
      var texts := BoardFields(input);
      if |texts| != 9 then Err(InvalidFormat)
      else
        StoppedCollect(Parsed(texts), 9);
        match Collect(Parsed(texts))
          case Err(e) => Err(e)
          case Ok(bs) =>
            if parts[1] == "w" then Ok(Game(Unflatten(bs), White))
            else if parts[1] == "b" then Ok(Game(Unflatten(bs), Black))
            else Err(InvalidFormat)
  }

  /** `from_fen` accepts exactly one `+` with nine parseable boards before it and `w` or
      `b` after it; every board is `parse_fen` of its text, in `to_fen`'s order. The only
      errors are InvalidFormat and, from a board's en-passant field, InvalidSquare. */
  lemma MetaParseAccepts(input: string)
    requires MetaDefined(input)
    ensures var parts := Split(input, '+');
      MetaParse(input).Ok? <==>
        |parts| == 2 && |BoardFields(input)| == 9 &&
        (forall k :: 0 <= k < 9 ==> FenDefined(BoardFields(input)[k]) && ParseBoard(BoardFields(input)[k]).Ok?) && IsSideField(parts[1])
    ensures MetaParse(input).Ok? ==>
      SoundGame(MetaParse(input).value) &&
      (MetaParse(input).value.next == White <==> Split(input, '+')[1] == "w") &&
      forall i, j :: 0 <= i < 3 && 0 <= j < 3 ==>
        ParseBoard(BoardFields(input)[3 * i + j]) == Ok(MetaParse(input).value.boards[i][j])
    ensures MetaParse(input).Err? ==> MetaParse(input).error == InvalidFormat || MetaParse(input).error == InvalidSquare
  {
    var parts := Split(input, '+');
    if |parts| == 2 && |BoardFields(input)| == 9 {
      var texts := BoardFields(input);
      ParsedCollect(texts);
      ParsedBoards(texts);
      var r := Collect(Parsed(texts));
      if r.Ok? {
        var bs := r.value;
        forall i, j | 0 <= i < 3 && 0 <= j < 3
          ensures Unflatten(bs)[i][j] == bs[3 * i + j] && ParseBoard(texts[3 * i + j]) == Ok(bs[3 * i + j])
        {
        }
      }
    }
  }

  /** The collected boards are sound; a failed collection fails as one `parse_fen` can. */
  lemma ParsedBoards(texts: seq<string>)
    requires TextsDefined(texts)
    ensures Collect(Parsed(texts)).Ok? ==> forall k :: 0 <= k < |Collect(Parsed(texts)).value| ==> Sound(Collect(Parsed(texts)).value[k])
    ensures Collect(Parsed(texts)).Err? ==> Collect(Parsed(texts)).error == InvalidFormat || Collect(Parsed(texts)).error == InvalidSquare
  {
    var rs := Parsed(texts);
    CollectSpec(rs);
    if Collect(rs).Ok? {
      forall k | 0 <= k < |Collect(rs).value|
        ensures Sound(Collect(rs).value[k])
      {
        assert ParsesAt(rs, texts, k);
      }
    } else {
      var k :| 0 <= k < |rs| && rs[k] == Err(Collect(rs).error) && forall j :: 0 <= j < k ==> rs[j].Ok?;
      assert ParsesAt(rs, texts, k);
      ParseBoardAccepts(texts[k]);
    }
  }

  /** Splitting a word, the separator and a word gives back the two words. */
  lemma SplitPair(a: string, b: string, sep: char)
    requires sep !in a && sep !in b
    ensures Split(a + [sep] + b, sep) == [a, b]
  {
    SplitJoin([a, b], sep);
    assert Join([a, b], sep) == a + [sep] + Join([b], sep);
  }

  /** The board can be printed and its clocks parse back. */
  predicate PrintableBoard(b: BoardState) {
    (b.pos.enPassant.Some? ==> OnBoard(b.pos.enPassant.value)) && b.pos.halfmove <= UsizeMax && b.pos.fullmove <= UsizeMax
  }

  predicate Printable(game: Game)
    requires Shaped(game.boards)
  {
    forall i, j :: 0 <= i < 3 && 0 <= j < 3 ==> PrintableBoard(game.boards[i][j])
  }

  /** A printable board's text holds neither `+` nor `\\` and parses back to its position. */
  lemma BoardPrinted(b: BoardState, next: Color)
    requires Sound(b) && PrintableBoard(b)
    ensures var t := PositionText(b.pos, next);
      t.Ok? && '+' !in t.value && '\\' !in t.value &&
      FenDefined(t.value) && ParseBoard(t.value) == Ok(BoardState(b.pos, Outcome(b.pos.grid), [t.value]))
  {
    PositionTextFree(b.pos, next, '+');
    PositionTextFree(b.pos, next, '\\');
    ParseOfPrinted(b, next);
  }

  /** Every board of a printable game is printed, and no board text holds `+` or `\\`. */
  lemma PrintedTexts(game: Game)
    requires SoundGame(game) && Printable(game)
    ensures var r := Collect(Printed(game));
      r.Ok? && |r.value| == 9 && Free(r.value, '+') && Free(r.value, '\\') &&
      forall i, j :: 0 <= i < 3 && 0 <= j < 3 ==> PositionText(game.boards[i][j].pos, game.next) == Ok(r.value[3 * i + j])
  {
    var rs := Printed(game);
    forall i: nat, j: nat | i < 3 && j < 3
      ensures rs[3 * i + j] == PositionText(game.boards[i][j].pos, game.next)
    {
      assert PrintsAt(rs, game, i, j);
    }
    forall k | 0 <= k < 9
      ensures rs[k].Ok? && '+' !in rs[k].value && '\\' !in rs[k].value
    {
      var b := if k < 3 then game.boards[0][k] else if k < 6 then game.boards[1][k - 3] else game.boards[2][k - 6];
      assert rs[k] == PositionText(b.pos, game.next);
      PositionTextFree(b.pos, game.next, '+');
      PositionTextFree(b.pos, game.next, '\\');
    }
    CollectSpec(rs);
  }

  /** The printed texts of a printable game all parse, each back to its board's position. */
  lemma ParsedPrinted(game: Game, ts: seq<string>)
    requires SoundGame(game) && Printable(game) && |ts| == 9
    requires forall i, j :: 0 <= i < 3 && 0 <= j < 3 ==> PositionText(game.boards[i][j].pos, game.next) == Ok(ts[3 * i + j])
    ensures forall k :: 0 <= k < 9 ==> FenDefined(ts[k])
    ensures TextsDefined(ts) && Collect(Parsed(ts)).Ok? && |Collect(Parsed(ts)).value| == 9
    ensures forall i, j :: 0 <= i < 3 && 0 <= j < 3 ==>
      Collect(Parsed(ts)).value[3 * i + j] == BoardState(game.boards[i][j].pos, Outcome(game.boards[i][j].pos.grid), [ts[3 * i + j]])
  {
    forall k | 0 <= k < 9
      ensures FenDefined(ts[k]) && ParseBoard(ts[k]).Ok?
    {
      var b := if k < 3 then game.boards[0][k] else if k < 6 then game.boards[1][k - 3] else game.boards[2][k - 6];
      assert PositionText(b.pos, game.next) == Ok(ts[k]);
      BoardPrinted(b, game.next);
    }
    forall i, j | 0 <= i < 3 && 0 <= j < 3
      ensures ParseBoard(ts[3 * i + j]) == Ok(BoardState(game.boards[i][j].pos, Outcome(game.boards[i][j].pos.grid), [ts[3 * i + j]]))
    {
      BoardPrinted(game.boards[i][j], game.next);
    }
    AllTextsDefined(ts);
    ParsedCollect(ts);
  }

  /** The nine-board text of separator-free board texts splits back into them. */
  lemma MetaSplit(ts: seq<string>, next: Color)
    requires |ts| == 9 && Free(ts, '+') && Free(ts, '\\')
    ensures var t := Join(ts, '\\') + "+" + SideText(next);
      Split(t, '+') == [Join(ts, '\\'), SideText(next)] && BoardFields(t) == ts
  {
    JoinChars(ts, '\\', '+');
    SplitJoin(ts, '\\');
    SplitPair(Join(ts, '\\'), SideText(next), '+');
  }

  /** `from_fen` reads what `to_fen` writes back as the same turn and, on every board, the
      same position; each board's outcome is derived afresh from its grid and its history
      restarts at its own text. */
  lemma MetaRoundTrip(game: Game)
    requires SoundGame(game) && Printable(game)
    ensures MetaText(game).Ok? && MetaDefined(MetaText(game).value)
    ensures var r := MetaParse(MetaText(game).value);
      r.Ok? && r.value.next == game.next && SoundGame(r.value) &&
      forall i, j :: 0 <= i < 3 && 0 <= j < 3 ==>
        r.value.boards[i][j].pos == game.boards[i][j].pos &&
        r.value.boards[i][j].end == Outcome(game.boards[i][j].pos.grid)
  {
    PrintedTexts(game);
    var ts := Collect(Printed(game)).value;
    var text := Join(ts, '\\') + "+" + SideText(game.next);
    MetaSplit(ts, game.next);
    assert MetaText(game) == Ok(text);
    ParsedPrinted(game, ts);
    var bs := Collect(Parsed(ts)).value;
    var boards := Unflatten(bs);
    assert MetaParse(text) == Ok(Game(boards, game.next));
    forall i, j | 0 <= i < 3 && 0 <= j < 3
      ensures boards[i][j] == BoardState(game.boards[i][j].pos, Outcome(game.boards[i][j].pos.grid), [ts[3 * i + j]])
      ensures Sound(boards[i][j])
    {
      assert boards[i][j] == bs[3 * i + j];
    }
  }
}
