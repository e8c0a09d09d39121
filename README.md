# chess-tac-toe, modelled in Dafny

chess-tac-toe is tic-tac-toe played on a 3x3 grid of chess boards. On each turn the
side to move picks one of the nine boards and plays a chess move on it; then the turn
passes to the other colour. Each board is stored as a FEN text. The whole game is
stored as the nine FENs separated by `\`, then `+`, then `w` or `b` for the side to
move.

The repository holds three generations of the chess engine:

- `helpers/src/chess.rs` and `helpers/src/lib.rs`, the two newer ones. They have the
  same `ChessBoard` and differ in the pawn rule and in removing a pawn taken en passant.
  `Engine.Generation` picks one: `ChessRs` or `LibRs`.
- `src/lib/lib.rs`, the oldest. It has a `winner` field, an unanchored move pattern,
  castling gated by flags, and `make_move(mover, alg, next)`.

A thin server function (`src/server.rs`) wraps the oldest meta-game. It checks whose
turn it is and flips the colour after a move.

The project layers as follows.

- Value types and text: `Types`, `Text`, `Squares` and `Fen`. `Fen` holds the FEN
  codec that all three generations share.
- The newer engines' rules as functions of a board value, in `Rules` and `Engine`.
- The `ChessBoard` struct as a class over an `array2` (`Boards`, `Chess`). Every method
  is proved to compute the value-level functions.
- The nine-board game as values (`MetaGame`) and as a class (`TicTac`).
- The oldest engine in the same layers: `Legacy`, `LegacyChess`, `LegacyMeta` and
  `LegacyTic`. `Server` sits on top of it.
- `Start`: the standard starting position that every `Default` parses. It proves that
  the `unwrap` there never panics.

Rust panics (`unwrap` on `None`, slicing past the end, usize underflow) become
preconditions. The named `...Defined` predicates say that the call does not panic.
Errors are one `Error` type; `Result`/`Option` model the error paths.

## Model

| member | source | states |
|---|---|---|
| `Types.Opposite` | helpers/src/tictactoe.rs:48-52 | the colour that moves next is never the colour that just moved |
| `Types.ColorCode` | helpers/src/chess.rs:220-238 | the protocol's colour number in `EndResult::Color` is 0 exactly for White and 1 exactly for Black |
| `Types.ClearCastling` | helpers/src/chess.rs:868-920 | after castling both flags of the mover are false and the other colour's flags are unchanged |
| `Text.Split` | helpers/src/chess.rs:104-115 | `str::split` on one character: at least one part, and no part holds the separator |
| `Text.SplitJoin` | helpers/src/tictactoe.rs:57-92 | splitting separator-free parts joined by the separator gives back exactly those parts |
| `Text.NatToString` | helpers/src/chess.rs:852-858 | `usize::to_string` writes at least one digit and nothing else |
| `Text.ParseFormat` | helpers/src/chess.rs:240-256 | `parse::<usize>` of the decimal text of any usize gives the number back |
| `Squares.GetSquare` | helpers/src/chess.rs:259-280 | InvalidFormat when no square pattern occurs anywhere in the text; InvalidSquare when the first character is not a file letter; otherwise the column is below 8 and the row below 9 (the unanchored pattern lets `a9` through), and the square spelled at the start when its second character is a rank digit |
| `Squares.GetTile` | helpers/src/chess.rs:282-290 | succeeds exactly for on-board squares, with a two-character square name; off the board it gives InvalidSquare |
| `Squares.TileSquare` | helpers/src/chess.rs:259-290 | `get_square(get_tile(c))` gives back every on-board square `c` |
| `Squares.SquareTile` | helpers/src/chess.rs:259-290 | `get_tile(get_square(s))` gives back every two-character square name `s` |
| `Squares.TwoCharSquare` | helpers/src/chess.rs:259-280 | on a two-character text `get_square` succeeds exactly when the text is a square name |
| `Squares.LastSquareIndex` | helpers/src/chess.rs:308-310 | the last match of the square pattern, with no square spelled after it |
| `Squares.MoveKind` | helpers/src/chess.rs:295-302 | the piece is a pawn exactly when the first character is not one of N, R, B, Q, K |
| `Squares.StartSlice` | helpers/src/chess.rs:303-304 | the characters the two-byte start slice covers: two ASCII characters at offset 0 or 1, or one two-byte character after a piece letter |
| `Squares.DecodeTwoByteStart` | helpers/src/chess.rs:303-305 | after a piece letter, a two-byte character where the start square should be is sliced alone and refused with InvalidFormat, without a panic |
| `Squares.DecodeMove` | helpers/src/chess.rs:292-314 | the piece is named by the first character; the start square is the one at offset 0 or 1; the end square is the last square in the text; it fails, with InvalidFormat, exactly when the start slice is not a square, including a start slice that is one two-byte character |
| `Squares.DecodeGrammar` | helpers/src/chess.rs:322-328 | every non-castling move the anchored pattern accepts decodes, to its first and second squares and the piece of its first character |
| `Squares.GrammarContainsPattern` | src/lib/lib.rs:305-310 | every move the anchored pattern of the newer engines accepts is also accepted by the oldest, unanchored pattern |
| `Fen.PieceOfChar` | helpers/src/chess.rs:119-184 | a character read as a piece is never a digit, `/` or a space |
| `Fen.PieceChar` | helpers/src/chess.rs:756-798 | the letter `to_fen` writes for a piece is read back by `parse_fen` as that same piece |
| `Fen.DecodeRank` | helpers/src/chess.rs:119-184 | the character loop over one rank computes the cells `DecodeCells` describes |
| `Fen.DecodeConcat` | helpers/src/chess.rs:119-184 | reading two texts one after the other reads the cells of their concatenation |
| `Fen.DecodeEncodeRun` | helpers/src/chess.rs:747-811 | a rank written with a pending run of empty cells reads back as those empty cells and then the cells written |
| `Fen.EncodeRunChars` | helpers/src/chess.rs:747-811 | a written rank holds only digits and piece letters |
| `Fen.RankCells` | helpers/src/chess.rs:119-184 | a well-formed rank text reads as its eight cells |
| `Fen.GridOfRanks` | helpers/src/chess.rs:111-184 | the grid exists exactly when there are eight well-formed ranks; row `i` of the grid is rank text `7 - i` |
| `Fen.RankTexts` | helpers/src/chess.rs:747-811 | the eight rank texts of a grid, row 7 first |
| `Fen.PlacementRoundTrip` | helpers/src/chess.rs:744-813 | the placement field `to_fen` writes holds no space and reads back as the same grid |
| `Fen.CastlingOf` | helpers/src/chess.rs:192-212 | each of the four flags is set exactly when its letter occurs anywhere in the field |
| `Fen.LettersIn` | helpers/src/chess.rs:818-841 | the castling letters written hold K, Q, k, q exactly for the set flags, and are empty exactly when none is set |
| `Fen.CastlingRoundTrip` | helpers/src/chess.rs:818-841 | the castling field `to_fen` writes holds no space and reads back as the same flags |
| `Fen.EnPassantOf` | helpers/src/chess.rs:240-256 | the en-passant field is empty (`-`) exactly when it reads as no square |
| `Fen.ParseFields` | helpers/src/chess.rs:103-256 | InvalidFormat unless there are six fields; a parsed position has all four castling keys, clocks within usize, and an en-passant square with column below 8 |
| `Fen.EnPassantRoundTrip` | helpers/src/chess.rs:845-850 | the en-passant field `to_fen` writes reads back as the same square or none |
| `Fen.FenFields` | helpers/src/chess.rs:744-861 | `to_fen` writes six fields |
| `Fen.PositionText` | helpers/src/chess.rs:744-861 | `to_fen` fails, with InvalidSquare, exactly when the en-passant square is off the board |
| `Fen.PositionTextFields` | helpers/src/chess.rs:744-861 | the FEN text is the placement, side, castling, en-passant and two clock fields separated by single spaces |
| `Fen.FieldsFree` | helpers/src/chess.rs:744-861 | no field `to_fen` writes holds a space |
| `Fen.ParseFieldsOk` | helpers/src/chess.rs:103-256 | six fields that each read as their part of a position are read as that position |
| `Fen.FieldsRoundTrip` | helpers/src/chess.rs:103-256 | the six fields `to_fen` writes are read back as the same position |
| `Fen.FenRoundTrip` | helpers/src/chess.rs:744-861 | `parse_fen(to_fen(p))` gives back the position `p` (castling keys complete, en-passant square on the board, clocks within usize) |
| `Fen.ParsePrintParse` | helpers/src/chess.rs:103-257 | printing a parsed position and parsing the text again gives the same position |
| `Fen.PositionTextFree` | helpers/src/tictactoe.rs:57-77 | a FEN text holds none of the characters the nine-board format uses as separators |
| `Fen.PlacementFree` | helpers/src/chess.rs:747-813 | the placement field holds only digits, piece letters and `/` |
| `Rules.RookPathSymmetric` | helpers/src/chess.rs:713-742 | `validate_rook` gives the same answer when start and end are swapped |
| `Rules.BishopPathSymmetric` | helpers/src/chess.rs:676-711 | `validate_bishop` gives the same answer when start and end are swapped |
| `Rules.BishopPathReversed` | helpers/src/chess.rs:676-711 | a bishop path is also a path read backwards |
| `Rules.KingStepGeometry` | helpers/src/chess.rs:453-463 | the king's test accepts exactly the moves of at most one row and one column that change the square |
| `Rules.KnightJumpSymmetric` | helpers/src/chess.rs:432-439 | a knight jump read backwards is a knight jump |
| `Rules.RayPieceSound` | helpers/src/chess.rs:554-625 | the piece an attack ray meets first does stand on the ray, with only empty cells before it |
| `Rules.RayPieceComplete` | helpers/src/chess.rs:554-625 | a piece on the ray with only empty cells before it is the one the ray meets first |
| `Rules.RayPieceMeaning` | helpers/src/chess.rs:554-625 | the ray meets `p` first exactly when `p` stands on the ray behind empty cells |
| `Rules.FirstRowWith` | helpers/src/chess.rs:529-537 | the first row holding the piece: it holds it and no earlier row does |
| `Rules.FirstColWith` | helpers/src/chess.rs:539-547 | the first column of the row holding the piece: it holds it and no earlier column does |
| `Rules.KingSquare` | helpers/src/chess.rs:529-552 | the king's square scanned row by row: that colour's king stands there and on no earlier square |
| `Rules.AdjacentRookChecks` | helpers/src/chess.rs:589-625 | an enemy rook or queen next to the king on its row or column puts it in check |
| `Rules.DistantPawnChecksWhite` | helpers/src/chess.rs:554-588 | `is_checked` counts a black pawn any distance up the white king's diagonal as a check, behind empty cells |
| `Rules.EnemyKingsNeverCheck` | helpers/src/chess.rs:528-674 | when every enemy piece is a king, the king is never in check (enemy kings are not attackers) |
| `Rules.CastleSquaresOf` | helpers/src/chess.rs:334-397 | the rook, king and between squares of each castling are on the board |
| `Rules.KingMovedTo` | helpers/src/chess.rs:382-389 | the fake board of the castling test still holds the mover's king |
| `Rules.QueensideSquares` | helpers/src/chess.rs:334-397 | queenside castling is accepted exactly when rook and king are at home, b, c, d are empty and the king is safe on its square and passing c and d |
| `Rules.KingsideSquares` | helpers/src/chess.rs:334-397 | kingside castling is accepted exactly when rook and king are at home, f, g are empty and the king is safe on its square and passing f and g |
| `Boards.RowOf` | helpers/src/chess.rs:58-66 | a row of the board array as a value, cell by cell |
| `Boards.GridOf` | helpers/src/chess.rs:58-66 | the board array as a grid value, cell by cell |
| `Boards.SetCell` | helpers/src/chess.rs:963-965 | one cell write changes exactly that cell of the grid |
| `Boards.CopyBoard` | helpers/src/chess.rs:382 | `self.clone()` of the board is a fresh array with the same cells |
| `Boards.ValidateRook` | helpers/src/chess.rs:713-742 | the loop returns true exactly when the move is along a row or a column and every cell strictly between is empty |
| `Boards.ValidateBishop` | helpers/src/chess.rs:676-711 | the loop returns true exactly when the move is a non-zero diagonal and every cell strictly between is empty |
| `Boards.DiagonalRay` | helpers/src/chess.rs:554-588 | one ray of `check_the_diagonals` is safe exactly when the first piece it meets does not attack diagonally |
| `Boards.LateralRay` | helpers/src/chess.rs:589-625 | one ray of `check_the_lateral` is safe exactly when the first piece it meets does not attack along lines |
| `Boards.FirstOnRay` | helpers/src/chess.rs:554-625 | the walk along a ray returns the first piece on it, or none at the edge |
| `Boards.KnightScan` | helpers/src/chess.rs:626-665 | `check_the_knights` is true exactly when no enemy knight stands a knight's jump away |
| `Boards.IsChecked` | helpers/src/chess.rs:528-674 | `is_checked` is true exactly when a diagonal, lateral or knight attack on the king's square exists |
| `Boards.WriteRank` | helpers/src/chess.rs:747-811 | the rank loop of `to_fen` writes the rank's run-length text |
| `Boards.WritePlacement` | helpers/src/chess.rs:744-813 | the board loop of `to_fen` writes the placement field, which reads back as the same grid |
| `Boards.ReadPlacement` | helpers/src/chess.rs:117-184 | the rank loop of `parse_fen` fills a fresh board exactly when the eight ranks are well formed, with the grid they describe |
| `Engine.Outcome` | helpers/src/chess.rs:220-238 | the game is open exactly when both kings are on the board; White has won exactly when the black king is missing; Black has won exactly when only the white king is missing |
| `Engine.ParseBoard` | helpers/src/chess.rs:103-257 | a parsed board has all castling keys and records its own text as the only history entry |
| `Engine.ParseBoardAccepts` | helpers/src/chess.rs:103-257 | `parse_fen` succeeds exactly when there are six fields, eight well-formed ranks, a `w`/`b` side, a valid en-passant field and two usize clocks; it fails only with InvalidFormat or InvalidSquare |
| `Engine.ParseOfPrinted` | helpers/src/chess.rs:744-861 | `parse_fen(to_fen(b))` gives back `b`'s position, the outcome of its grid and the text as history |
| `Engine.Decoded` | helpers/src/chess.rs:292-314 | the decoded squares of a move matching the pattern are on the board |
| `Engine.Validate` | helpers/src/chess.rs:317-332 | InvalidFormat when the text does not match the anchored pattern; GameOver when the game is not open; no other error |
| `Engine.CastlingAfter` | helpers/src/chess.rs:967-995 | moving a piece keeps the four castling keys |
| `Engine.Repeats` | helpers/src/chess.rs:1034-1048 | the number of recorded FENs with a given placement is at most the history's length |
| `Engine.RepeatsCount` | helpers/src/chess.rs:1037-1045 | the count equals the number of indices of the history whose FEN has that placement as its first space-separated field |
| `Engine.RepeatsAppend` | helpers/src/chess.rs:1037-1045 | the count over two histories in sequence is the sum of their counts; recording one FEN adds one exactly when its placement matches |
| `Engine.PawnRows` | helpers/src/chess.rs:953-962 | an accepted pawn move never puts the square of the pawn taken en passant off the board |
| `Engine.MovedPosition` | helpers/src/chess.rs:953-1032 | an ordinary move keeps the castling keys and puts any en-passant square on the board |
| `Engine.Recorded` | helpers/src/chess.rs:1034-1050 | the new board keeps its position and appends its own FEN to the history |
| `Engine.NormalStep` | helpers/src/chess.rs:938-1050 | an ordinary move gives the moved position and appends its FEN to the history |
| `Engine.CastleStep` | helpers/src/chess.rs:868-920 | castling keeps the castling keys and leaves the history untouched |
| `Engine.Step` | helpers/src/chess.rs:863-1053 | `make_move` succeeds exactly when `validate_move` returns Ok(true); InvalidMove on Ok(false); the validation error otherwise; always an error once the game is over; the new board is well formed |
| `Engine.AcceptedMove` | helpers/src/chess.rs:406-513 | an ordinary move is accepted exactly when the game is open, the mover's named piece stands on the start, the landing rule for `x` holds and the piece's own rule holds |
| `Engine.AcceptedGeometry` | helpers/src/chess.rs:425-511 | an accepted rook move is along a line, a bishop a diagonal, a queen either, a knight an L, a king at most one step, a pawn forward for its colour |
| `Engine.DoubleStepOverPiece` | helpers/src/lib.rs:388-527 | a white pawn's double step over an occupied cell is accepted by `helpers/src/lib.rs` but refused by `helpers/src/chess.rs` |
| `Engine.QueenBlockedOnRank` | helpers/src/chess.rs:447-452 | a queen move along the first rank through an occupied cell is refused |
| `Engine.ValidateIgnoresRights` | helpers/src/chess.rs:334-397 | `validate_move` of the newer engines never reads the castling flags |
| `Engine.CastlingAccepted` | helpers/src/chess.rs:334-397 | `O-O-O` and `O-O` match the pattern; once the game is over they give GameOver; otherwise they are accepted exactly when the squares are clear and safe |
| `Engine.MovedCells` | helpers/src/chess.rs:953-1028 | after an ordinary move the start is empty, the end holds the mover's piece or its promotion, and a pawn taken en passant is removed |
| `Engine.MovedUntouched` | helpers/src/chess.rs:953-965 | every other cell keeps its piece |
| `Engine.MovedClocks` | helpers/src/chess.rs:996-1032 | the halfmove clock resets exactly on a pawn move or capture and otherwise grows by one; the fullmove number grows after Black; an en-passant square is set exactly on a pawn's double step, to the skipped square |
| `Engine.CornerTiles` | helpers/src/chess.rs:967-995 | the corner names `make_move` compares with are exactly the rooks' home squares |
| `Engine.CastlingAfterMeaning` | helpers/src/chess.rs:967-995 | a flag falls exactly when its colour's king moves, or its rook moves off its home corner; every other flag stays |
| `Engine.RightsOnlyFall` | helpers/src/chess.rs:863-1053 | a move never sets a castling flag and never changes the opponent's flags |
| `Engine.RecordedPlacement` | helpers/src/chess.rs:1034-1048 | the placement field of the recorded FEN is the new grid's placement text |
| `Engine.StepOutcome` | helpers/src/chess.rs:938-1048 | after an ordinary move: drawn exactly at the third repetition of the placement; won by the mover exactly when not drawn, the end square was occupied and the opposing king was already absent; open otherwise |
| `Engine.KingCaptureDoesNotWin` | helpers/src/chess.rs:938-946 | capturing the opposing king does not win the game, since the outcome test runs before the capture |
| `Engine.RecordedFenParses` | helpers/src/chess.rs:1034-1050 | the FEN recorded after a move names the mover as the side and parses back to the new position |
| `Engine.RecordedFen` | helpers/src/chess.rs:1050 | castling leaves the history alone; any other move appends exactly one FEN, which parses back to the new position |
| `Engine.CastledCells` | helpers/src/chess.rs:868-920 | castling empties e and the rook's corner, puts the king on c or g and the rook on d or f, and touches no other cell |
| `Chess.AllLetters` | helpers/src/chess.rs:818-841 | visiting the four flags in order writes the castling field, `-` when none is set |
| `Chess.ChessBoard.constructor` | helpers/src/chess.rs:58-66 | a board whose value is the fields given |
| `Chess.ChessBoard.Default` | helpers/src/chess.rs:70-74 | `default()` is the starting position, open, with the starting FEN as history |
| `Chess.ChessBoard.ParseFen` | helpers/src/chess.rs:103-257 | `parse_fen` fails exactly when `Engine.ParseBoard` does, with its error, and otherwise builds a fresh board with that value |
| `Chess.ChessBoard.ReadCastling` | helpers/src/chess.rs:192-212 | the castling-field reads give the flags of `Fen.CastlingOf` |
| `Chess.ChessBoard.WriteCastling` | helpers/src/chess.rs:818-841 | the castling loop writes the field of `Fen.CastlingText` |
| `Chess.ChessBoard.ToFen` | helpers/src/chess.rs:744-861 | `to_fen` returns `Fen.PositionText` of the board |
| `Chess.ChessBoard.CastleAllowed` | helpers/src/chess.rs:334-397 | the castling branch of `validate_move` returns the newer castling test |
| `Chess.ChessBoard.AllEmpty` | helpers/src/chess.rs:377-379 | true exactly when every between square is empty |
| `Chess.ChessBoard.AllSafe` | helpers/src/chess.rs:380-392 | true exactly when the king is not in check on any fake board with it on a between square |
| `Chess.ChessBoard.SafeWithKingOn` | helpers/src/chess.rs:381-391 | true exactly when the king moved to that square on a copy of the board is not in check |
| `Chess.ChessBoard.PawnAllowed` | helpers/src/chess.rs:464-511 | the pawn branch returns the pawn rule of its engine generation |
| `Chess.ChessBoard.ValidateMove` | helpers/src/chess.rs:317-513 | `validate_move` returns `Engine.Validate` |
| `Chess.ChessBoard.OrdinaryAllowed` | helpers/src/chess.rs:406-513 | the non-castling part returns the landing, start-piece and piece rules |
| `Chess.ChessBoard.PieceAllowed` | helpers/src/chess.rs:425-511 | the per-piece match returns the piece's rule |
| `Chess.ChessBoard.Castle` | helpers/src/chess.rs:868-920 | the castling branch of `make_move` leaves the board at `Engine.CastleStep` of the old one |
| `Chess.ChessBoard.CastleBookkeeping` | helpers/src/chess.rs:868-920 | castling clears the mover's flags and the en-passant square, adds one to the halfmove clock and one to the fullmove number after Black |
| `Chess.ChessBoard.CastleCells` | helpers/src/chess.rs:868-920 | the four cell writes of castling give `Engine.CastledGrid` |
| `Chess.ChessBoard.PlacePiece` | helpers/src/chess.rs:953-1028 | the cell writes of an ordinary move give `Engine.MovedGrid` |
| `Chess.ChessBoard.MovePiece` | helpers/src/chess.rs:938-1050 | the ordinary branch of `make_move` leaves the board at `Engine.NormalStep` |
| `Chess.ChessBoard.Relocate` | helpers/src/chess.rs:953-1032 | the position after an ordinary move is `Engine.MovedPosition`; outcome and history are untouched |
| `Chess.ChessBoard.Record` | helpers/src/chess.rs:1034-1050 | sets the outcome and appends the new FEN to the history |
| `Chess.ChessBoard.Advance` | helpers/src/chess.rs:996-1032 | the en-passant square and both clocks follow the move |
| `Chess.ChessBoard.RightsAfter` | helpers/src/chess.rs:967-995 | the flag updates give `Engine.CastlingAfter` |
| `Chess.ChessBoard.MakeMove` | helpers/src/chess.rs:863-1053 | `make_move` returns Ok and leaves the board at `Engine.Step` when that succeeds, and returns its error with the board unchanged otherwise |
| `MetaGame.Slot` | helpers/src/tictactoe.rs:118-124 | `helpers/src/tictactoe.rs` indexes the grid by (col, row), `helpers/src/lib.rs` by (row, col); within range both are below 3 |
| `MetaGame.GetBoard` | helpers/src/tictactoe.rs:118-124 | InvalidCoords exactly when a coordinate exceeds 2; otherwise the board at the slot |
| `MetaGame.MetaStepErrors` | helpers/src/tictactoe.rs:37-55 | InvalidCoords out of range; otherwise the move succeeds exactly when the chosen board's move does, with its error otherwise |
| `MetaGame.MetaStepFrame` | helpers/src/tictactoe.rs:37-55 | a move changes only the chosen board, to the result of its `make_move`, and flips the side to move |
| `MetaGame.Flatten` | helpers/src/tictactoe.rs:60-65 | the nine boards in row-major order |
| `MetaGame.Unflatten` | helpers/src/tictactoe.rs:96-107 | nine boards back into three rows of three, row-major |
| `MetaGame.RowsUnflatten` | helpers/src/tictactoe.rs:96-107 | laying out three rows and folding them back gives the same grid |
| `MetaGame.CollectSpec` | helpers/src/tictactoe.rs:96-105 | collecting results succeeds exactly when every result is Ok, with their values in order; otherwise it fails with the first error |
| `MetaGame.Printed` | helpers/src/tictactoe.rs:60-65 | the nine FEN texts of the boards with the side to move, in `to_fen`'s order |
| `MetaGame.MetaTextErrors` | helpers/src/tictactoe.rs:57-77 | the game's `to_fen` fails exactly when some board's `to_fen` fails, with InvalidSquare |
| `MetaGame.Parsed` | helpers/src/tictactoe.rs:96-105 | the results of `parse_fen` of the texts, in order, up to and including the first failure, after which the loop stops |
| `MetaGame.FirstFailureStops` | helpers/src/tictactoe.rs:101-105 | when the first board text does not parse, the loop stops there with its error and never reads the other texts |
| `MetaGame.ParsedCollect` | helpers/src/tictactoe.rs:96-105 | the loop succeeds exactly when every text parses, and then holds every board in order; otherwise its error is that of the first text that does not parse |
| `MetaGame.ParsedBoards` | helpers/src/tictactoe.rs:96-105 | every parsed board is sound, and the loop fails only with InvalidFormat or InvalidSquare |
| `MetaGame.MetaParseAccepts` | helpers/src/tictactoe.rs:79-116 | `from_fen` succeeds exactly when there are two `+` parts, nine `\` parts, each parses and the side is `w` or `b`; the result holds the parsed boards row-major |
| `MetaGame.BoardPrinted` | helpers/src/tictactoe.rs:57-77 | a board's text holds neither `+` nor `\` and parses back to its position |
| `MetaGame.PrintedTexts` | helpers/src/tictactoe.rs:57-77 | every board of a printable game prints, and no board text holds a separator |
| `MetaGame.ParsedPrinted` | helpers/src/tictactoe.rs:79-116 | the printed texts all parse, each back to its board's position |
| `MetaGame.MetaSplit` | helpers/src/tictactoe.rs:79-92 | the nine-board text of separator-free texts splits back into those texts and the side |
| `MetaGame.MetaRoundTrip` | helpers/src/tictactoe.rs:57-116 | `from_fen(to_fen(g))` gives back the side and every board's position of the game |
| `TicTac.TicTacToe.constructor` | helpers/src/tictactoe.rs:9-13 | a game whose value is the one given |
| `TicTac.TicTacToe.Default` | helpers/src/tictactoe.rs:127-150 | nine starting boards, White to move |
| `TicTac.TicTacToe.GetBoard` | helpers/src/tictactoe.rs:118-124 | returns `MetaGame.GetBoard` |
| `TicTac.TicTacToe.ValidateMove` | helpers/src/tictactoe.rs:29-35 | returns the chosen board's `validate_move` with the side to move, or InvalidCoords |
| `TicTac.TicTacToe.MakeMove` | helpers/src/tictactoe.rs:37-55 | on success the game is `MetaGame.MetaStep` of the old one; on failure its error is returned |
| `TicTac.TicTacToe.ToFen` | helpers/src/tictactoe.rs:57-77 | returns `MetaGame.MetaText` |
| `TicTac.TicTacToe.WriteBoards` | helpers/src/tictactoe.rs:60-67 | the loop writes the nine texts joined by `\`, or the first error |
| `TicTac.TicTacToe.TextAt` | helpers/src/tictactoe.rs:62 | the `to_fen` of one board |
| `TicTac.TicTacToe.FromFen` | helpers/src/tictactoe.rs:79-116 | `from_fen` fails exactly when `MetaGame.MetaParse` does, with its error, and otherwise builds a game with that value |
| `TicTac.TicTacToe.ParseBoards` | helpers/src/tictactoe.rs:94-107 | the row loop gives the nine parsed boards as a grid, or the first error |
| `TicTac.TicTacToe.ParseRow` | helpers/src/tictactoe.rs:102-104 | the column loop gives the three boards of one row, or the first error |
| `TicTac.TicTacToe.ParseAt` | helpers/src/tictactoe.rs:103 | the `parse_fen` of one text |
| `Legacy.Winner` | src/lib/lib.rs:248-257 | White wins exactly when the black king is missing; Black exactly when only the white king is missing; none exactly when both are present |
| `Legacy.ParseBoard` | src/lib/lib.rs:168-265 | a parsed board has all four castling keys |
| `Legacy.ParseLikeNewer` | src/lib/lib.rs:168-265 | the oldest `parse_fen` accepts and rejects exactly what the newer one does, with the same error and the same position |
| `Legacy.PrintParse` | src/lib/lib.rs:589-668 | `parse_fen(to_fen(b))` gives back `b`'s position and the winner of its grid |
| `Legacy.BishopScan` | src/lib/lib.rs:502-555 | accepting a bishop move means both coordinates change by the same non-zero amount |
| `Legacy.Validate` | src/lib/lib.rs:303-314 | InvalidFormat when no move pattern occurs; GameOver when there is a winner; no other error |
| `Legacy.Moved` | src/lib/lib.rs:690-741 | the board after an accepted move keeps all four castling keys |
| `Legacy.Step` | src/lib/lib.rs:669-745 | the board after a successful move keeps all four castling keys |
| `Legacy.CastleFlagOnly` | src/lib/lib.rs:316-397 | castling is refused without its flag; with the flag it is accepted whenever the newer test accepts it, and also whenever the rook has left its corner |
| `Legacy.RookScanOnLine` | src/lib/lib.rs:556-588 | along a row or column the oldest rook test is the newer path test, except that it refuses a move of length zero |
| `Legacy.RookScanIgnoresEndColumn` | src/lib/lib.rs:556-588 | off the start row the oldest rook test ignores the end column, so any one-row move passes |
| `Legacy.DiagonalScanMeaning` | src/lib/lib.rs:502-555 | when every cell scanned is on the board, the scan is true exactly when they are all empty |
| `Legacy.BishopScanAntiDiagonal` | src/lib/lib.rs:502-555 | on the anti-diagonal the oldest bishop test equals the newer bishop path |
| `Legacy.Lone` | src/lib/lib.rs:502-555 | a grid with one piece on the given square |
| `Legacy.BishopScanMainDiagonal` | src/lib/lib.rs:502-555 | on the main diagonal the oldest scan inspects the wrong cells: it passes a blocked move, and a long one runs off the board (a panic) |
| `Legacy.KingAnyColumn` | src/lib/lib.rs:447-453 | a king move of one row passes whatever the column change |
| `Legacy.PawnDoubleAnyColumn` | src/lib/lib.rs:473-493 | a pawn's double step from its home row passes onto any empty square of the target row, whatever the column and the skipped cell |
| `Legacy.StepCells` | src/lib/lib.rs:694-696 | after a move the end holds the mover's piece, the start is empty, and every other cell is unchanged |
| `Legacy.StepWinner` | src/lib/lib.rs:690-692 | the winner becomes the mover exactly when a king of either colour stood on the end square |
| `Legacy.CaptureEndsGame` | src/lib/lib.rs:312-314 | after a king capture every further move is refused with GameOver |
| `Legacy.StepBookkeeping` | src/lib/lib.rs:723-741 | the halfmove clock resets on a pawn move or capture and otherwise grows; the fullmove grows when `mover` is Black; a pawn keeps or sets the en-passant square and any other piece clears it |
| `Legacy.StepFlags` | src/lib/lib.rs:698-722 | the flags cleared are those of `next`, not the mover: both on a king move, one on a rook leaving its corner |
| `Legacy.TwoByteStartRefused` | src/lib/lib.rs:669-688 | a move text with a two-byte character right after its piece letter fails with InvalidFormat in `make_move`, and in `validate_move` when the pattern occurs and the game is open |
| `Legacy.CastlingNeverMade` | src/lib/lib.rs:669-688 | `make_move` of `O-O` or `O-O-O` always fails with InvalidFormat, since `O-` is read as a start square first |
| `Legacy.StepErrors` | src/lib/lib.rs:669-688 | a bad start or end square gives InvalidFormat; a validation error is passed on; a refused move gives InvalidMove |
| `LegacyChess.LegacyBoard.constructor` | src/lib/lib.rs:151-158 | a board whose value is the fields given |
| `LegacyChess.LegacyBoard.Default` | src/lib/lib.rs:160-164 | `default()` is the starting position with no winner |
| `LegacyChess.LegacyBoard.ParseFen` | src/lib/lib.rs:168-265 | `parse_fen` fails exactly when `Legacy.ParseBoard` does, with its error, and otherwise builds a fresh board with that value |
| `LegacyChess.LegacyBoard.ToFen` | src/lib/lib.rs:589-668 | `to_fen` returns `Fen.PositionText` of the board |
| `LegacyChess.LegacyBoard.ValidateMove` | src/lib/lib.rs:303-500 | `validate_move` returns `Legacy.Validate` |
| `LegacyChess.LegacyBoard.CastleAllowed` | src/lib/lib.rs:316-397 | the castling branch returns the oldest castling test |
| `LegacyChess.LegacyBoard.AllEmpty` | src/lib/lib.rs:328-331 | true exactly when every between square is empty |
| `LegacyChess.LegacyBoard.OrdinaryAllowed` | src/lib/lib.rs:414-496 | the non-castling part returns the oldest landing, start-piece and piece rules |
| `LegacyChess.LegacyBoard.PieceAllowed` | src/lib/lib.rs:432-496 | the per-piece match returns the oldest piece rule |
| `LegacyChess.LegacyBoard.PawnAllowed` | src/lib/lib.rs:454-495 | the pawn branch returns the oldest pawn rule |
| `LegacyChess.LegacyBoard.ScanRook` | src/lib/lib.rs:556-588 | the loops of the oldest `validate_rook` return `Legacy.RookScan` |
| `LegacyChess.LegacyBoard.ScanBishop` | src/lib/lib.rs:502-555 | the loop of the oldest `validate_bishop` returns `Legacy.BishopScan` when that does not panic |
| `LegacyChess.LegacyBoard.MakeMove` | src/lib/lib.rs:669-745 | `make_move` returns Ok and leaves the board at `Legacy.Step` when that succeeds, and returns its error with the board unchanged otherwise |
| `LegacyChess.LegacyBoard.Place` | src/lib/lib.rs:690-696 | sets the winner and writes the start and end cells |
| `LegacyChess.LegacyBoard.Advance` | src/lib/lib.rs:698-741 | the castling flags, en-passant square and clocks follow the move |
| `LegacyMeta.MetaValidate` | src/lib/lib.rs:76-83 | InvalidCoords exactly when a coordinate exceeds 2 |
| `LegacyMeta.Printed` | src/lib/lib.rs:88-93 | the nine FEN texts of the boards with the side to move, in `to_fen`'s order |
| `LegacyMeta.MetaTextErrors` | src/lib/lib.rs:85-100 | the game's `to_fen` fails exactly when some board's `to_fen` fails, with InvalidSquare |
| `LegacyMeta.Parsed` | src/lib/lib.rs:118-125 | the results of `parse_fen` of the texts, in order, up to and including the first failure, after which the loop stops |
| `LegacyMeta.ParsedCollect` | src/lib/lib.rs:118-125 | the loop succeeds exactly when every text parses, and then holds every board in order; otherwise its error is that of the first text that does not parse |
| `LegacyMeta.ParsedBoards` | src/lib/lib.rs:118-125 | every parsed board is sound, and the loop fails only with InvalidFormat or InvalidSquare |
| `LegacyMeta.MetaParseAccepts` | src/lib/lib.rs:102-136 | `from_fen` succeeds exactly when there are two `+` parts, nine `\` parts, each parses and the side is `w` or `b` |
| `LegacyMeta.BoardPrinted` | src/lib/lib.rs:85-100 | a board's text holds neither `+` nor `\` and parses back to its position |
| `LegacyMeta.PrintedTexts` | src/lib/lib.rs:85-100 | every board of a printable game prints, and no board text holds a separator |
| `LegacyMeta.ParsedPrinted` | src/lib/lib.rs:102-136 | the printed texts all parse, each back to its board's position |
| `LegacyMeta.MetaRoundTrip` | src/lib/lib.rs:85-136 | `from_fen(to_fen(g))` gives back the side and every board's position of the game |
| `LegacyTic.LegacyTicTacToe.constructor` | src/lib/lib.rs:56-59 | a game whose value is the one given |
| `LegacyTic.LegacyTicTacToe.Default` | src/lib/lib.rs:140-148 | nine starting boards, White to move |
| `LegacyTic.LegacyTicTacToe.ValidateMove` | src/lib/lib.rs:76-83 | returns `LegacyMeta.MetaValidate` |
| `LegacyTic.LegacyTicTacToe.ToFen` | src/lib/lib.rs:85-100 | returns `LegacyMeta.MetaText` |
| `LegacyTic.LegacyTicTacToe.WriteBoards` | src/lib/lib.rs:88-95 | the loop writes the nine texts joined by `\`, or the first error |
| `LegacyTic.LegacyTicTacToe.TextAt` | src/lib/lib.rs:90 | the `to_fen` of one board |
| `LegacyTic.LegacyTicTacToe.FromFen` | src/lib/lib.rs:102-136 | `from_fen` fails exactly when `LegacyMeta.MetaParse` does, with its error, and otherwise builds a game with that value |
| `LegacyTic.LegacyTicTacToe.ParseBoards` | src/lib/lib.rs:118-127 | the row loop gives the nine parsed boards as a grid, or the first error |
| `LegacyTic.LegacyTicTacToe.ParseRow` | src/lib/lib.rs:122-124 | the column loop gives the three boards of one row, or the first error |
| `LegacyTic.LegacyTicTacToe.ParseAt` | src/lib/lib.rs:123 | the `parse_fen` of one text |
| `Server.ServerMove` | src/server.rs:90-105 | the new game is well formed |
| `Server.ServerErrors` | src/server.rs:90-105 | InvalidCoords exactly out of range; WrongColor exactly in range when `mover` is not the side to move; otherwise the chosen board's `make_move` error |
| `Server.ServerFrame` | src/server.rs:90-105 | a successful move was by the side to move; it changes only the chosen board, to its `make_move` with the side to move as both mover and next, and flips the side |
| `Start.Pieces` | helpers/src/chess.rs:119-184 | one cell per piece letter |
| `Start.DecodeLetters` | helpers/src/chess.rs:119-184 | a text of piece letters reads as those pieces |
| `Start.BackRankText` | helpers/src/chess.rs:70-74 | the back-rank text of the starting FEN reads as rook, knight, bishop, queen, king, bishop, knight, rook |
| `Start.PawnRankText` | helpers/src/chess.rs:70-74 | the pawn-rank text reads as eight pawns |
| `Start.EmptyRankText` | helpers/src/chess.rs:70-74 | `8` reads as an empty rank |
| `Start.StartLetters` | helpers/src/chess.rs:70-74 | the starting ranks are spelled with the expected letters |
| `Start.RanksSplit` | helpers/src/chess.rs:111-115 | the starting placement splits into its eight ranks |
| `Start.RanksGrid` | helpers/src/chess.rs:117-184 | the eight starting ranks read as the starting grid |
| `Start.PlacementReads` | helpers/src/chess.rs:111-184 | the starting placement reads as the starting grid and holds no space |
| `Start.OneDigit` | helpers/src/chess.rs:240-256 | a single digit reads as its value |
| `Start.StartCastling` | helpers/src/chess.rs:192-212 | a castling field holding all four letters sets all four flags |
| `Start.OtherFieldsRead` | helpers/src/chess.rs:186-256 | side `w`, castling `KQkq`, en passant `-` and clocks `0`, `1` read as the starting position |
| `Start.StartFields` | helpers/src/chess.rs:104-107 | the starting FEN has the six expected fields |
| `Start.StartParses` | helpers/src/chess.rs:70-74 | the starting FEN parses to the starting position |
| `Start.StartKings` | helpers/src/chess.rs:220-238 | both kings are on the starting grid, so a default board is open |
| `Start.DefaultParses` | helpers/src/chess.rs:70-74 | `parse_fen(..).unwrap()` in every `Default` does not panic and gives the starting board of each generation |
| `Start.Nine` | helpers/src/tictactoe.rs:127-150 | the 3x3 grid with the same board in each of its nine cells |

## Left out

- The `TicTacToe` classes hold their nine boards as values, not as `ChessBoard`
  objects. A move on one board is modelled by replacing that value, so aliasing
  between the boards is not modelled; the boards' own methods are proved on the
  `ChessBoard` classes.
- `random()`, the `Display` and `From` conversions, the protocol buffers, the gRPC
  service and the async server (`move_piece`, `join`, `subscribe_board`, `main`) are
  I/O or glue code and are not modelled. Only `make_move` of `src/server.rs` is.
- The client (`client/`) and the tests are not part of this model.
- Engine.MovedClocks: usize counters are unbounded integers, so the overflow panic of
  `+= 1` at `usize::MAX` is not modelled. Parsing still rejects numbers above
  `usize::MAX`, as Rust does.
- Panics become preconditions rather than results:
  - `Squares.GetSquareDefined`: slicing a string shorter than two characters, the
    `.unwrap()` of a second character that is not a digit (as in `"axb1"`), and the
    `- 1` underflow of `0` as a rank.
  - `Squares.DecodeDefined`: slicing the move text off a character boundary. The first
    character must be one byte; the start slice must be two one-byte characters, or,
    after a piece letter, one two-byte character (from U+0080 to U+07FF).
  - `Legacy.ValidateDefined`: the oldest bishop scan running off the board, and the
    usize underflow of the oldest pawn rule.
  - `MetaGame.MetaDefined` and `LegacyMeta.MetaDefined`: each `parse_fen` call that
    `from_fen` reaches being defined, that is, each board text that follows only
    texts that parse.
- LegacyMeta.MetaValidate: the model states only the coordinate error. The board's
  own result is stated by `LegacyChess.LegacyBoard.ValidateMove`.
- `Color::None`, the third colour of the Rust enum, is never passed as a mover. The
  `todo!()` branches it reaches are not modelled.
- Errors are one flat `Error` type. The nesting of `ChessError` and `Box<dyn Error>`
  is not modelled; the variant is kept.
- LegacyChess.LegacyBoard.ScanBishop: the oldest `validate_bishop` repeats one outer
  branch with the same body. The model reads it once.
- Start.StartFen is built from its ranks and fields by concatenation. Its equality with
  the one-piece literal written in the source is not proved.
- Differences between the code and what its design suggests are modelled as the code
  behaves:
  - In the newer engines, capturing a king does not win: the outcome test runs before
    the capture (`Engine.KingCaptureDoesNotWin`).
  - Rook captures do not clear the captured rook's flags.
  - The castling test of the newer engines never reads the flags
    (`Engine.ValidateIgnoresRights`).
  - The oldest `make_move` never executes castling (`Legacy.CastlingNeverMade`).
  - The oldest `make_move` clears the flags of `next`, not of the mover
    (`Legacy.StepFlags`).
  - `src/server.rs` calls the three-argument `make_move` of the oldest engine.
