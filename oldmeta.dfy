/** The 3x3 meta-game of the oldest engine (`TicTacToe` in `src/lib/lib.rs`) as functions
    of a game value: the move test and the nine-board text format, over boards of the
    oldest `ChessBoard`. The `LegacyTicTacToe` class in `LegacyTic` is proved to compute
    exactly these. */
module LegacyMeta {
  import opened Types
  import opened Text
  import opened Fen
  import opened Legacy
  import MetaGame
  import Engine

  /** A `TicTacToe` of the oldest engine as a value: `boards[i][j]` is `chesses[i][j]`. */
  datatype Game = Game(boards: seq<seq<LegacyState>>, next: Color)

  /** Nine boards, each with its four castling keys. */
  predicate SoundGame(game: Game) {
    MetaGame.Shaped(game.boards) && forall i, j :: 0 <= i < 3 && 0 <= j < 3 ==> Sound(game.boards[i][j])
  }

  /** The bound test on a board index `(board.0, board.1)`: both at most 2. */
  predicate InRange(board: (nat, nat)) {
    board.0 <= 2 && board.1 <= 2
  }

  /** The chosen board's `validate_move` does not panic. */
  predicate MoveDefined(game: Game, board: (nat, nat), alg: string)
    requires SoundGame(game)
  {
    InRange(board) ==> ValidateDefined(game.boards[board.0][board.1], alg, game.next)
  }

  /** `validate_move`: InvalidCoords for an index beyond 2, otherwise the test of
      `chesses[board.0][board.1]` with the game's colour; InvalidCoords comes from the
      index and from nothing else. */
  function MetaValidate(game: Game, board: (nat, nat), alg: string): (r: Result<bool>)
    requires SoundGame(game) && MoveDefined(game, board, alg)
    ensures r == Err(InvalidCoords) <==> !InRange(board)
  {
    if board.0 > 2 || board.1 > 2 then Err(InvalidCoords)
    else Validate(game.boards[board.0][board.1], alg, game.next)
  }

  // ---------------------------------------------------------------------------
  // The nine-board text format

  /** The result in slot `3 * i + j` is the text of board `[i][j]`. */
  predicate PrintsAt(rs: seq<Result<string>>, game: Game, i: nat, j: nat)
    requires SoundGame(game) && |rs| == 9 && i < 3 && j < 3
  {
    rs[3 * i + j] == PositionText(game.boards[i][j].pos, game.next)
  }

  /** The nine FEN texts of the boards with `next` to move, in `to_fen`'s order. */
  function Printed(game: Game): (rs: seq<Result<string>>)
    requires SoundGame(game)
    ensures |rs| == 9 && forall i: nat, j: nat :: i < 3 && j < 3 ==> PrintsAt(rs, game, i, j)
  {
    var bs := MetaGame.Flatten(game.boards);
    seq(9, k requires 0 <= k < 9 => (SoundAt(game, k); PositionText(bs[k].pos, game.next)))
  }

  /** Every flattened board has its four castling keys. */
  lemma SoundAt(game: Game, k: int)
    requires SoundGame(game) && 0 <= k < 9
    ensures Sound(MetaGame.Flatten(game.boards)[k])
  {
    var bs := MetaGame.Flatten(game.boards);
    if k < 3 {
      assert bs[k] == game.boards[0][k];
    } else if k < 6 {
      assert bs[k] == game.boards[1][k - 3];
    } else {
      assert bs[k] == game.boards[2][k - 6];
    }
  }

  /** `to_fen`: the nine board texts joined by `\`, then `+w` or `+b`; the error of the
      first board that cannot be printed. */
  function MetaText(game: Game): (r: Result<string>)
    requires SoundGame(game)
  {
    match MetaGame.Collect(Printed(game))
    case Err(e) => Err(e)
    case Ok(ts) => Ok(Join(ts, '\\') + "+" + SideText(game.next))
  }

  /** `to_fen` fails exactly when a board's en-passant square is off the board, with
      InvalidSquare. */
  lemma MetaTextErrors(game: Game)
    requires SoundGame(game)
    ensures MetaText(game).Err? <==>
      exists i, j :: 0 <= i < 3 && 0 <= j < 3 && PositionText(game.boards[i][j].pos, game.next).Err?
    ensures MetaText(game).Err? ==> MetaText(game).error == InvalidSquare
  {
    var rs := Printed(game);
    forall i: nat, j: nat | i < 3 && j < 3
      ensures rs[3 * i + j] == PositionText(game.boards[i][j].pos, game.next)
    {
      assert PrintsAt(rs, game, i, j);
    }
    MetaGame.CollectSpec(rs);
    if MetaGame.Collect(rs).Err? {
      var k :| 0 <= k < 9 && rs[k] == Err(MetaGame.Collect(rs).error) && forall j :: 0 <= j < k ==> rs[j].Ok?;
      if k < 3 {
        assert rs[k] == rs[3 * 0 + k];
      } else if k < 6 {
        assert rs[k] == rs[3 * 1 + (k - 3)];
      } else {
        assert rs[k] == rs[3 * 2 + (k - 6)];
      }
    } else {
      forall i, j | 0 <= i < 3 && 0 <= j < 3
        ensures PositionText(game.boards[i][j].pos, game.next).Ok?
      {
        assert rs[3 * i + j].Ok?;
      }
    }
  }

  /** The `parse_fen` calls of `from_fen` stay within what the model covers: each text is
      covered as long as every text before it parses, since the first failure ends the loop. */
  predicate TextsDefined(texts: seq<string>)
    decreases |texts|
  {
    |texts| > 0 ==> FenDefined(texts[0]) && (ParseBoard(texts[0]).Ok? ==> TextsDefined(texts[1..]))
  }

  /** The input of `from_fen` stays within what the model of `parse_fen` covers: when it
      has one `+` and nine board texts, the board texts it reaches do. */
  predicate MetaDefined(input: string) {
    |Split(input, '+')| == 2 && |MetaGame.BoardFields(input)| == 9 ==> TextsDefined(MetaGame.BoardFields(input))
  }

  /** The result is the parse of the text. */
  predicate ParsesTo(r: Result<LegacyState>, text: string) {
    FenDefined(text) && r == ParseBoard(text)
  }

  /** The `k`th result is the parse of the `k`th text. */
  predicate ParsesAt(rs: seq<Result<LegacyState>>, texts: seq<string>, k: nat)
    requires k < |rs| && k < |texts|
  {
    ParsesTo(rs[k], texts[k])
  }

  /** The parses `from_fen` performs: text by text, up to and including the first failure. */
  predicate ParseRun(rs: seq<Result<LegacyState>>, texts: seq<string>) {
    MetaGame.Stopped(rs, |texts|) && forall k :: 0 <= k < |rs| ==> ParsesAt(rs, texts, k)
  }

  /** The boards the texts describe, in `to_fen`'s order, stopping after the first failure. */
  function Parsed(texts: seq<string>): (rs: seq<Result<LegacyState>>)
    requires TextsDefined(texts)
    ensures ParseRun(rs, texts)
    decreases |texts|
  {
    if |texts| == 0 then []
    else
      var r := ParseBoard(texts[0]);
      if r.Err? then [r]
      else
        var rest := Parsed(texts[1..]);
        RunCons(texts, r, rest);
        [r] + rest
  }

  /** A successful first parse followed by the run over the other texts is a run. */
  lemma RunCons(texts: seq<string>, r: Result<LegacyState>, rest: seq<Result<LegacyState>>)
    requires |texts| > 0 && ParsesTo(r, texts[0]) && r.Ok? && ParseRun(rest, texts[1..])
    ensures ParseRun([r] + rest, texts)
  {
    var rs := [r] + rest;
    MetaGame.StoppedCons(r, rest, |texts|);
    assert rs[1..] == rest;
    forall k | 0 < k < |rs|
      ensures ParsesAt(rs, texts, k)
    {
      ParsesShift(rs, texts, k);
    }
    assert ParsesAt(rs, texts, 0);
  }

  /** The parse at index `k - 1` of the tails is the parse at index `k`. */
  lemma ParsesShift(rs: seq<Result<LegacyState>>, texts: seq<string>, k: nat)
    requires 0 < k < |rs| && k < |texts| && ParsesAt(rs[1..], texts[1..], k - 1)
    ensures ParsesAt(rs, texts, k)
  {
    assert rs[1..][k - 1] == rs[k] && texts[1..][k - 1] == texts[k];
  }

  /** Parsing up to the first failure and collecting gives what parsing every text would:
      Ok with every board when all texts parse, else the error of the first that does not. */
  lemma ParsedCollect(texts: seq<string>)
    requires TextsDefined(texts)
    ensures MetaGame.Collect(Parsed(texts)).Ok? <==> forall k :: 0 <= k < |texts| ==> FenDefined(texts[k]) && ParseBoard(texts[k]).Ok?
    ensures MetaGame.Collect(Parsed(texts)).Ok? ==>
      |MetaGame.Collect(Parsed(texts)).value| == |texts| &&
      forall k :: 0 <= k < |texts| ==> ParseBoard(texts[k]) == Ok(MetaGame.Collect(Parsed(texts)).value[k])
    ensures MetaGame.Collect(Parsed(texts)).Err? ==>
      exists k :: 0 <= k < |texts| &&
        (forall j :: 0 <= j < k ==> FenDefined(texts[j]) && ParseBoard(texts[j]).Ok?) &&
        FenDefined(texts[k]) && ParseBoard(texts[k]) == Err(MetaGame.Collect(Parsed(texts)).error)
  {
    var rs := Parsed(texts);
    MetaGame.CollectSpec(rs);
    MetaGame.StoppedCollect(rs, |texts|);
    if MetaGame.Collect(rs).Ok? {
      forall k | 0 <= k < |texts|
        ensures FenDefined(texts[k]) && ParseBoard(texts[k]) == Ok(MetaGame.Collect(rs).value[k])
      {
        assert ParsesAt(rs, texts, k);
      }
    } else {
      var k :| 0 <= k < |rs| && rs[k] == Err(MetaGame.Collect(rs).error) && forall j :: 0 <= j < k ==> rs[j].Ok?;
      assert ParsesAt(rs, texts, k);
      forall j | 0 <= j < k
        ensures FenDefined(texts[j]) && ParseBoard(texts[j]).Ok?
      {
        assert ParsesAt(rs, texts, j);
      }
    }
  }

  /** Texts that are all covered are covered as a run. */
  lemma {:induction false} AllTextsDefined(texts: seq<string>)
    requires forall k :: 0 <= k < |texts| ==> FenDefined(texts[k])
    ensures TextsDefined(texts)
    decreases |texts|
  {
    if |texts| > 0 {
      assert forall k :: 0 <= k < |texts[1..]| ==> texts[1..][k] == texts[k + 1];
      AllTextsDefined(texts[1..]);
    }
  }

  /** The collected boards are sound; a failed collection fails as one `parse_fen` can. */
  lemma ParsedBoards(texts: seq<string>)
    requires TextsDefined(texts)
    ensures MetaGame.Collect(Parsed(texts)).Ok? ==> forall k :: 0 <= k < |MetaGame.Collect(Parsed(texts)).value| ==> Sound(MetaGame.Collect(Parsed(texts)).value[k])
    ensures MetaGame.Collect(Parsed(texts)).Err? ==> MetaGame.Collect(Parsed(texts)).error == InvalidFormat || MetaGame.Collect(Parsed(texts)).error == InvalidSquare
  {
    var rs := Parsed(texts);
    MetaGame.CollectSpec(rs);
    if MetaGame.Collect(rs).Ok? {
      forall k | 0 <= k < |MetaGame.Collect(rs).value|
        ensures Sound(MetaGame.Collect(rs).value[k])
      {
        assert ParsesAt(rs, texts, k);
      }
    } else {
      var k :| 0 <= k < |rs| && rs[k] == Err(MetaGame.Collect(rs).error) && forall j :: 0 <= j < k ==> rs[j].Ok?;
      assert ParsesAt(rs, texts, k);
      ParseLikeNewer(texts[k]);
      Engine.ParseBoardAccepts(texts[k]);
    }
  }

  /** `from_fen`: exactly one `+`, nine `\`-separated boards that parse (the first failure
      is passed on), then the turn marker `w` or `b`. */
  function MetaParse(input: string): (r: Result<Game>)
    requires MetaDefined(input)
  {
    var parts := Split(input, '+');
    if |parts| != 2 then Err(InvalidFormat)
    else
      var texts := MetaGame.BoardFields(input);
      if |texts| != 9 then Err(InvalidFormat)
      else
        MetaGame.StoppedCollect(Parsed(texts), 9);
        match MetaGame.Collect(Parsed(texts))
          case Err(e) => Err(e)
          case Ok(bs) =>
            if parts[1] == "w" then Ok(Game(MetaGame.Unflatten(bs), White))
            else if parts[1] == "b" then Ok(Game(MetaGame.Unflatten(bs), Black))
            else Err(InvalidFormat)
  }

  /** `from_fen` accepts exactly one `+` with nine parseable boards before it and `w` or
      `b` after it; every board is `parse_fen` of its text, in `to_fen`'s order. The only
      errors are InvalidFormat and, from a board's en-passant field, InvalidSquare. */
  lemma MetaParseAccepts(input: string)
    requires MetaDefined(input)
    ensures var parts := Split(input, '+');
      MetaParse(input).Ok? <==>
        |parts| == 2 && |MetaGame.BoardFields(input)| == 9 &&
        (forall k :: 0 <= k < 9 ==> FenDefined(MetaGame.BoardFields(input)[k]) && ParseBoard(MetaGame.BoardFields(input)[k]).Ok?) && IsSideField(parts[1])
    ensures MetaParse(input).Ok? ==>
      SoundGame(MetaParse(input).value) &&
      (MetaParse(input).value.next == White <==> Split(input, '+')[1] == "w") &&
      forall i, j :: 0 <= i < 3 && 0 <= j < 3 ==>
        ParseBoard(MetaGame.BoardFields(input)[3 * i + j]) == Ok(MetaParse(input).value.boards[i][j])
    ensures MetaParse(input).Err? ==> MetaParse(input).error == InvalidFormat || MetaParse(input).error == InvalidSquare
  {
    var parts := Split(input, '+');
    if |parts| == 2 && |MetaGame.BoardFields(input)| == 9 {
      var texts := MetaGame.BoardFields(input);
      ParsedCollect(texts);
      ParsedBoards(texts);
      var r := MetaGame.Collect(Parsed(texts));
      if r.Ok? {
        var bs := r.value;
        forall i, j | 0 <= i < 3 && 0 <= j < 3
          ensures MetaGame.Unflatten(bs)[i][j] == bs[3 * i + j] && ParseBoard(texts[3 * i + j]) == Ok(bs[3 * i + j])
        {
        }
      }
    }
  }

  /** The board can be printed and its clocks parse back. */
  predicate PrintableBoard(b: LegacyState) {
    (b.pos.enPassant.Some? ==> OnBoard(b.pos.enPassant.value)) && b.pos.halfmove <= UsizeMax && b.pos.fullmove <= UsizeMax
  }

  predicate Printable(game: Game)
    requires MetaGame.Shaped(game.boards)
  {
    forall i, j :: 0 <= i < 3 && 0 <= j < 3 ==> PrintableBoard(game.boards[i][j])
  }

  /** A printable board's text holds neither `+` nor `\\` and parses back to its position. */
  lemma BoardPrinted(b: LegacyState, next: Color)
    requires Sound(b) && PrintableBoard(b)
    ensures var t := PositionText(b.pos, next);
      t.Ok? && '+' !in t.value && '\\' !in t.value &&
      FenDefined(t.value) && ParseBoard(t.value) == Ok(LegacyState(b.pos, Winner(b.pos.grid)))
  {
    PositionTextFree(b.pos, next, '+');
    PositionTextFree(b.pos, next, '\\');
    PrintParse(b, next);
  }

  /** Every board of a printable game is printed, and no board text holds `+` or `\\`. */
  lemma PrintedTexts(game: Game)
    requires SoundGame(game) && Printable(game)
    ensures var r := MetaGame.Collect(Printed(game));
      r.Ok? && |r.value| == 9 && Free(r.value, '+') && Free(r.value, '\\') &&
      forall i, j :: 0 <= i < 3 && 0 <= j < 3 ==> PositionText(game.boards[i][j].pos, game.next) == Ok(r.value[3 * i + j])
  {
    var rs := Printed(game);
    forall i: nat, j: nat | i < 3 && j < 3
      ensures rs[3 * i + j] == PositionText(game.boards[i][j].pos, game.next)
    {
      assert PrintsAt(rs, game, i, j);
    }
    forall k | 0 <= k < 9
      ensures rs[k].Ok? && '+' !in rs[k].value && '\\' !in rs[k].value
    {
      var b := if k < 3 then game.boards[0][k] else if k < 6 then game.boards[1][k - 3] else game.boards[2][k - 6];
      assert rs[k] == PositionText(b.pos, game.next);
      PositionTextFree(b.pos, game.next, '+');
      PositionTextFree(b.pos, game.next, '\\');
    }
    MetaGame.CollectSpec(rs);
  }

  /** The printed texts of a printable game all parse, each back to its board's position. */
  lemma ParsedPrinted(game: Game, ts: seq<string>)
    requires SoundGame(game) && Printable(game) && |ts| == 9
    requires forall i, j :: 0 <= i < 3 && 0 <= j < 3 ==> PositionText(game.boards[i][j].pos, game.next) == Ok(ts[3 * i + j])
    ensures forall k :: 0 <= k < 9 ==> FenDefined(ts[k])
    ensures TextsDefined(ts) && MetaGame.Collect(Parsed(ts)).Ok? && |MetaGame.Collect(Parsed(ts)).value| == 9
    ensures forall i, j :: 0 <= i < 3 && 0 <= j < 3 ==>
      MetaGame.Collect(Parsed(ts)).value[3 * i + j] == LegacyState(game.boards[i][j].pos, Winner(game.boards[i][j].pos.grid))
  {
    forall k | 0 <= k < 9
      ensures FenDefined(ts[k]) && ParseBoard(ts[k]).Ok?
    {
      var b := if k < 3 then game.boards[0][k] else if k < 6 then game.boards[1][k - 3] else game.boards[2][k - 6];
      assert PositionText(b.pos, game.next) == Ok(ts[k]);
      BoardPrinted(b, game.next);
    }
    forall i, j | 0 <= i < 3 && 0 <= j < 3
      ensures ParseBoard(ts[3 * i + j]) == Ok(LegacyState(game.boards[i][j].pos, Winner(game.boards[i][j].pos.grid)))
    {
      BoardPrinted(game.boards[i][j], game.next);
    }
    AllTextsDefined(ts);
    ParsedCollect(ts);
  }

  /** `from_fen` reads what `to_fen` writes back as the same turn and, on every board, the
      same position; each board's winner is derived afresh from its grid. */
  lemma MetaRoundTrip(game: Game)
    requires SoundGame(game) && Printable(game)
    ensures MetaText(game).Ok? && MetaDefined(MetaText(game).value)
    ensures var r := MetaParse(MetaText(game).value);
      r.Ok? && r.value.next == game.next && SoundGame(r.value) &&
      forall i, j :: 0 <= i < 3 && 0 <= j < 3 ==>
        r.value.boards[i][j] == LegacyState(game.boards[i][j].pos, Winner(game.boards[i][j].pos.grid))
  {
    PrintedTexts(game);
    var ts := MetaGame.Collect(Printed(game)).value;
    var text := Join(ts, '\\') + "+" + SideText(game.next);
    MetaGame.MetaSplit(ts, game.next);
    assert MetaText(game) == Ok(text);
    ParsedPrinted(game, ts);
    var bs := MetaGame.Collect(Parsed(ts)).value;
    var boards := MetaGame.Unflatten(bs);
    assert MetaParse(text) == Ok(Game(boards, game.next));
    forall i, j | 0 <= i < 3 && 0 <= j < 3
      ensures boards[i][j] == LegacyState(game.boards[i][j].pos, Winner(game.boards[i][j].pos.grid))
      ensures Sound(boards[i][j])
    {
      assert boards[i][j] == bs[3 * i + j];
    }
  }
}
