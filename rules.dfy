/** Board geometry shared by the two newer engines: the path checks behind
    `validate_rook` and `validate_bishop`, the knight and king patterns, the square
    search and attack rays of `is_checked`, and the castling squares. */
module Rules {
  import opened Types

  function Min(a: nat, b: nat): nat {
    if a <= b then a else b
  }

  function Max(a: nat, b: nat): nat {
    if a <= b then b else a
  }

  /** `validate_rook`: on one row every column strictly between is empty; otherwise on one
      column every row strictly between is empty; otherwise rejected. A zero-length move
      passes. */
  predicate RookPath(g: Grid, s: Coordinates, e: Coordinates)
    requires OnBoard(s) && OnBoard(e)
  {
    if s.row == e.row then
      forall c :: Min(s.col, e.col) < c < Max(s.col, e.col) ==> g[s.row][c].None?
    else if s.col == e.col then
      forall r :: Min(s.row, e.row) < r < Max(s.row, e.row) ==> g[r][s.col].None?
    else false
  }

  /** The coordinate `k` steps from `a` toward `b`. */
  function Toward(a: nat, b: nat, k: nat): int {
    if a < b then a + k else a - k
  }

  /** `validate_bishop`: a diagonal move of non-zero length whose cells strictly between
      the two squares are empty. */
  predicate BishopPath(g: Grid, s: Coordinates, e: Coordinates)
    requires OnBoard(s) && OnBoard(e)
  {
    AbsDiff(s.row, e.row) == AbsDiff(s.col, e.col) && s.row != e.row && s.col != e.col &&
    forall k :: 0 < k < AbsDiff(s.row, e.row) ==>
      0 <= Toward(s.row, e.row, k) < 8 && 0 <= Toward(s.col, e.col, k) < 8 &&
      g[Toward(s.row, e.row, k)][Toward(s.col, e.col, k)].None?
  }

  /** A rook path reads the same in both directions. */
  lemma RookPathSymmetric(g: Grid, s: Coordinates, e: Coordinates)
    requires OnBoard(s) && OnBoard(e)
    ensures RookPath(g, s, e) == RookPath(g, e, s)
  {
  }

  /** A bishop path reads the same in both directions: the cell `k` steps from one end is
      the cell `n - k` steps from the other. */
  lemma BishopPathSymmetric(g: Grid, s: Coordinates, e: Coordinates)
    requires OnBoard(s) && OnBoard(e)
    ensures BishopPath(g, s, e) == BishopPath(g, e, s)
  {
    if BishopPath(g, s, e) {
      BishopPathReversed(g, s, e);
    }
    if BishopPath(g, e, s) {
      BishopPathReversed(g, e, s);
    }
  }

  lemma BishopPathReversed(g: Grid, s: Coordinates, e: Coordinates)
    requires OnBoard(s) && OnBoard(e) && BishopPath(g, s, e)
    ensures BishopPath(g, e, s)
  {
    var n := AbsDiff(s.row, e.row);
    forall k | 0 < k < n
      ensures 0 <= Toward(e.row, s.row, k) < 8 && 0 <= Toward(e.col, s.col, k) < 8 &&
              g[Toward(e.row, s.row, k)][Toward(e.col, s.col, k)].None?
    {
      assert Toward(e.row, s.row, k) == Toward(s.row, e.row, n - k);
      assert Toward(e.col, s.col, k) == Toward(s.col, e.col, n - k);
    }
  }

  /** The knight test of `validate_move`: offsets (1, 2) or (2, 1). */
  predicate KnightJump(s: Coordinates, e: Coordinates) {
    (AbsDiff(s.row, e.row) == 1 && AbsDiff(s.col, e.col) == 2) ||
    (AbsDiff(s.row, e.row) == 2 && AbsDiff(s.col, e.col) == 1)
  }

  /** The king test of `validate_move`: one coordinate changes by exactly one, and the
      move passes the bishop or the rook path check. */
  predicate KingStep(g: Grid, s: Coordinates, e: Coordinates)
    requires OnBoard(s) && OnBoard(e)
  {
    (AbsDiff(s.row, e.row) == 1 || AbsDiff(s.col, e.col) == 1) &&
    (BishopPath(g, s, e) || RookPath(g, s, e))
  }

  /** The king test accepts exactly the moves to one of the eight neighbouring squares,
      whatever stands on the board. */
  lemma KingStepGeometry(g: Grid, s: Coordinates, e: Coordinates)
    requires OnBoard(s) && OnBoard(e)
    ensures KingStep(g, s, e) <==> AbsDiff(s.row, e.row) <= 1 && AbsDiff(s.col, e.col) <= 1 && s != e
  {
    if AbsDiff(s.row, e.row) <= 1 && AbsDiff(s.col, e.col) <= 1 && s != e {
      if s.row != e.row && s.col != e.col {
        assert BishopPath(g, s, e);
      } else {
        assert RookPath(g, s, e);
      }
    }
  }

  /** A knight jump turns into a knight jump when read backwards. */
  lemma KnightJumpSymmetric(s: Coordinates, e: Coordinates)
    ensures KnightJump(s, e) == KnightJump(e, s)
  {
  }

  /** `k` steps along one axis in direction `d`, with `d` one of -1, 0, 1. */
  function Offset(d: int, k: nat): int {
    if d > 0 then k as int else if d < 0 then -(k as int) else 0
  }

  /** The cell `k` steps from `from` in direction (`dr`, `dc`) is on the board. */
  predicate RayOn(from: Coordinates, dr: int, dc: int, k: nat) {
    0 <= from.row + Offset(dr, k) < 8 && 0 <= from.col + Offset(dc, k) < 8
  }

  function RayAt(g: Grid, from: Coordinates, dr: int, dc: int, k: nat): Cell
    requires RayOn(from, dr, dc, k)
  {
    g[from.row + Offset(dr, k)][from.col + Offset(dc, k)]
  }

  predicate IsDirection(dr: int, dc: int) {
    -1 <= dr <= 1 && -1 <= dc <= 1 && (dr != 0 || dc != 0)
  }

  /** The first piece met walking from `from` in direction (`dr`, `dc`), starting `k` steps
      away; None once the walk leaves the board. */
  function RayPiece(g: Grid, from: Coordinates, dr: int, dc: int, k: nat): Option<Piece>
    requires IsDirection(dr, dc)
    decreases 8 - k
  {
    if k >= 8 || !RayOn(from, dr, dc, k) then None
    else if RayAt(g, from, dr, dc, k).Some? then RayAt(g, from, dr, dc, k)
    else RayPiece(g, from, dr, dc, k + 1)
  }

  /** The ray's cells from `k` up to (excluding) `n` are on the board and empty. */
  predicate RayClear(g: Grid, from: Coordinates, dr: int, dc: int, k: nat, n: nat) {
    forall m :: k <= m < n ==> RayOn(from, dr, dc, m) && RayAt(g, from, dr, dc, m).None?
  }

  /** `p` stands `n` steps along the ray, on the board, with every cell from `k` up to it empty. */
  predicate RayHits(g: Grid, from: Coordinates, dr: int, dc: int, k: nat, n: nat, p: Piece) {
    k <= n < 8 && RayOn(from, dr, dc, n) && RayAt(g, from, dr, dc, n) == Some(p) && RayClear(g, from, dr, dc, k, n)
  }

  lemma {:induction false} RayPieceSound(g: Grid, from: Coordinates, dr: int, dc: int, k: nat, p: Piece)
    requires IsDirection(dr, dc) && RayPiece(g, from, dr, dc, k) == Some(p)
    ensures exists n :: RayHits(g, from, dr, dc, k, n, p)
    decreases 8 - k
  {
    if RayAt(g, from, dr, dc, k).Some? {
      assert RayHits(g, from, dr, dc, k, k, p);
    } else {
      RayPieceSound(g, from, dr, dc, k + 1, p);
      var n :| RayHits(g, from, dr, dc, k + 1, n, p);
      RayClearExtend(g, from, dr, dc, k, n);
      assert RayHits(g, from, dr, dc, k, n, p);
    }
  }

  /** An empty cell on the board in front of a clear stretch of the ray extends it. */
  lemma RayClearExtend(g: Grid, from: Coordinates, dr: int, dc: int, k: nat, n: nat)
    requires RayOn(from, dr, dc, k) && RayAt(g, from, dr, dc, k).None? && RayClear(g, from, dr, dc, k + 1, n)
    ensures RayClear(g, from, dr, dc, k, n)
  {
  }

  lemma {:induction false} RayPieceComplete(g: Grid, from: Coordinates, dr: int, dc: int, k: nat, n: nat, p: Piece)
    requires IsDirection(dr, dc) && RayHits(g, from, dr, dc, k, n, p)
    ensures RayPiece(g, from, dr, dc, k) == Some(p)
    decreases n - k
  {
    if n > k {
      assert RayOn(from, dr, dc, k) && RayAt(g, from, dr, dc, k).None?;
      assert RayHits(g, from, dr, dc, k + 1, n, p);
      RayPieceComplete(g, from, dr, dc, k + 1, n, p);
    }
  }

  /** An independent reading of the ray walk: it stops on `p` exactly when `p` stands
      some number of steps away on the board with every cell before it empty. */
  lemma RayPieceMeaning(g: Grid, from: Coordinates, dr: int, dc: int, k: nat, p: Piece)
    requires IsDirection(dr, dc)
    ensures RayPiece(g, from, dr, dc, k) == Some(p) <==> exists n :: RayHits(g, from, dr, dc, k, n, p)
  {
    if RayPiece(g, from, dr, dc, k) == Some(p) {
      RayPieceSound(g, from, dr, dc, k, p);
    }
    if exists n :: RayHits(g, from, dr, dc, k, n, p) {
      var n :| RayHits(g, from, dr, dc, k, n, p);
      RayPieceComplete(g, from, dr, dc, k, n, p);
    }
  }

  /** The diagonal attack test of `is_checked`: an enemy bishop or queen, or an enemy pawn
      on the one diagonal ray the code checks for that colour (at any distance). */
  predicate DiagonalAttacker(color: Color, dr: int, dc: int, p: Piece) {
    p.color != color &&
    (p.name == Bishop || p.name == Queen ||
     (dr == 1 && dc == 1 && p.name == Pawn && color == White) ||
     (dr == -1 && dc == 1 && p.name == Pawn && color == Black))
  }

  predicate LateralAttacker(color: Color, p: Piece) {
    p.color != color && (p.name == Rook || p.name == Queen)
  }

  predicate DiagonalRaySafe(g: Grid, k: Coordinates, color: Color, dr: int, dc: int)
    requires IsDirection(dr, dc)
  {
    var p := RayPiece(g, k, dr, dc, 1);
    p.None? || !DiagonalAttacker(color, dr, dc, p.value)
  }

  predicate LateralRaySafe(g: Grid, k: Coordinates, color: Color, dr: int, dc: int)
    requires IsDirection(dr, dc)
  {
    var p := RayPiece(g, k, dr, dc, 1);
    p.None? || !LateralAttacker(color, p.value)
  }

  /** `check_the_diagonals`, over the directions (1, 1), (-1, 1), (1, -1), (-1, -1). */
  predicate DiagonalsSafe(g: Grid, k: Coordinates, color: Color) {
    DiagonalRaySafe(g, k, color, 1, 1) && DiagonalRaySafe(g, k, color, -1, 1) &&
    DiagonalRaySafe(g, k, color, 1, -1) && DiagonalRaySafe(g, k, color, -1, -1)
  }

  /** `check_the_lateral`, over the directions (1, 0), (-1, 0), (0, 1), (0, -1). */
  predicate LateralsSafe(g: Grid, k: Coordinates, color: Color) {
    LateralRaySafe(g, k, color, 1, 0) && LateralRaySafe(g, k, color, -1, 0) &&
    LateralRaySafe(g, k, color, 0, 1) && LateralRaySafe(g, k, color, 0, -1)
  }

  const KnightOffsets: seq<(int, int)> := [(2, 1), (2, -1), (-2, 1), (-2, -1), (1, 2), (1, -2), (-1, 2), (-1, -2)]

  /** An enemy knight stands at offset `o` from `k`. */
  predicate KnightThreat(g: Grid, k: Coordinates, color: Color, o: (int, int)) {
    0 <= k.row + o.0 < 8 && 0 <= k.col + o.1 < 8 &&
    var p := g[k.row + o.0][k.col + o.1];
    p.Some? && p.value.name == Knight && p.value.color != color
  }

  /** `check_the_knights`. */
  predicate KnightsSafe(g: Grid, k: Coordinates, color: Color) {
    forall i :: 0 <= i < |KnightOffsets| ==> !KnightThreat(g, k, color, KnightOffsets[i])
  }

  function FirstRowWith(g: Grid, p: Piece, i: nat): (r: nat)
    requires i <= 8
    requires exists r, c :: i <= r < 8 && 0 <= c < 8 && g[r][c] == Some(p)
    ensures i <= r < 8 && exists c :: 0 <= c < 8 && g[r][c] == Some(p)
    ensures forall r', c :: i <= r' < r && 0 <= c < 8 ==> g[r'][c] != Some(p)
    decreases 8 - i
  {
    if exists c :: 0 <= c < 8 && g[i][c] == Some(p) then i
    else FirstRowWith(g, p, i + 1)
  }

  function FirstColWith(row: Row, p: Piece, j: nat): (c: nat)
    requires j <= 8
    requires exists c :: j <= c < 8 && row[c] == Some(p)
    ensures j <= c < 8 && row[c] == Some(p)
    ensures forall c' :: j <= c' < c ==> row[c'] != Some(p)
    decreases 8 - j
  {
    if row[j] == Some(p) then j else FirstColWith(row, p, j + 1)
  }

  /** Where `is_checked` finds the king of `color`: the first row holding one, and the
      first column of that row. */
  function KingSquare(g: Grid, color: Color): (k: Coordinates)
    requires HasPiece(g, Piece(color, King))
    ensures OnBoard(k) && At(g, k) == Some(Piece(color, King))
    ensures forall r, c :: 0 <= r < k.row && 0 <= c < 8 ==> g[r][c] != Some(Piece(color, King))
    ensures forall c :: 0 <= c < k.col ==> g[k.row][c] != Some(Piece(color, King))
  {
    var r := FirstRowWith(g, Piece(color, King), 0);
    Coordinates(r, FirstColWith(g[r], Piece(color, King), 0))
  }

  /** `is_checked`: some diagonal, lateral or knight attack reaches the king of `color`.
      Enemy kings are never counted, and enemy pawns only on one ray per colour. */
  predicate Checked(g: Grid, color: Color)
    requires HasPiece(g, Piece(color, King))
  {
    var k := KingSquare(g, color);
    !DiagonalsSafe(g, k, color) || !LateralsSafe(g, k, color) || !KnightsSafe(g, k, color)
  }

  /** An enemy rook or queen next to the king on its row or column is found. */
  lemma AdjacentRookChecks(g: Grid, color: Color, dr: int, dc: int)
    requires HasPiece(g, Piece(color, King))
    requires (dr == 0 && (dc == 1 || dc == -1)) || (dc == 0 && (dr == 1 || dr == -1))
    requires var k := KingSquare(g, color);
      RayOn(k, dr, dc, 1) && RayAt(g, k, dr, dc, 1).Some? && LateralAttacker(color, RayAt(g, k, dr, dc, 1).value)
    ensures Checked(g, color)
  {
  }

  /** The pawn quirk: a white king counts as attacked by a black pawn anywhere on its
      up-right diagonal when nothing stands between them. */
  lemma DistantPawnChecksWhite(g: Grid, n: nat)
    requires HasPiece(g, Piece(White, King))
    requires var k := KingSquare(g, White);
      RayHits(g, k, 1, 1, 1, n, Piece(Black, Pawn))
    ensures Checked(g, White)
  {
    var k := KingSquare(g, White);
    RayPieceComplete(g, k, 1, 1, 1, n, Piece(Black, Pawn));
  }

  /** A board where every enemy piece is a king never reads as check: `is_checked` has no
      test for an attacking king. */
  lemma EnemyKingsNeverCheck(g: Grid, color: Color)
    requires HasPiece(g, Piece(color, King))
    requires forall r, c :: 0 <= r < 8 && 0 <= c < 8 && g[r][c].Some? && g[r][c].value.color != color ==>
      g[r][c].value.name == King
    ensures !Checked(g, color)
  {
    var k := KingSquare(g, color);
    forall dr, dc | IsDirection(dr, dc) && RayPiece(g, k, dr, dc, 1).Some?
      ensures RayPiece(g, k, dr, dc, 1).value.color != color ==> RayPiece(g, k, dr, dc, 1).value.name == King
    {
      var p := RayPiece(g, k, dr, dc, 1).value;
      RayPieceMeaning(g, k, dr, dc, 1, p);
    }
    assert DiagonalsSafe(g, k, color) && LateralsSafe(g, k, color);
  }

  /** The squares castling uses for `mover`: rook, king and the squares between them. */
  datatype CastleSquares = CastleSquares(rook: Coordinates, king: Coordinates, between: seq<Coordinates>)

  function HomeRow(mover: Color): nat {
    if mover == White then 0 else 7
  }

  function CastleSquaresOf(queenside: bool, mover: Color): (q: CastleSquares)
    ensures OnBoard(q.rook) && OnBoard(q.king) && forall i :: 0 <= i < |q.between| ==> OnBoard(q.between[i])
  {
    var r := HomeRow(mover);
    if queenside then CastleSquares(Coordinates(r, 0), Coordinates(r, 4), [Coordinates(r, 1), Coordinates(r, 2), Coordinates(r, 3)])
    else CastleSquares(Coordinates(r, 7), Coordinates(r, 4), [Coordinates(r, 5), Coordinates(r, 6)])
  }

  /** The board `validate_move` builds to test one between square: the king lifted off
      its square and put on `b`. */
  function KingMovedTo(g: Grid, king: Coordinates, b: Coordinates, mover: Color): (h: Grid)
    requires OnBoard(king) && OnBoard(b)
    ensures HasPiece(h, Piece(mover, King))
  {
    var h := Put(Put(g, king, None), b, Some(Piece(mover, King)));
    assert h[b.row][b.col] == Some(Piece(mover, King));
    h
  }

  /** Castling legality of the newer engines: the mover's rook and king on their home
      squares, the squares between empty, the king not in check, and not in check on
      any of the squares between. The castling flags play no part. */
  predicate CastleOk(g: Grid, queenside: bool, mover: Color) {
    var q := CastleSquaresOf(queenside, mover);
    At(g, q.rook) == Some(Piece(mover, Rook)) && At(g, q.king) == Some(Piece(mover, King)) &&
    BetweenEmpty(g, q.between) &&
    (assert HasPiece(g, Piece(mover, King)) by { assert g[q.king.row][q.king.col] == Some(Piece(mover, King)); }
     !Checked(g, mover)) &&
    BetweenSafe(g, q.king, q.between, mover)
  }

  predicate BetweenEmpty(g: Grid, between: seq<Coordinates>)
    requires forall i :: 0 <= i < |between| ==> OnBoard(between[i])
  {
    forall i :: 0 <= i < |between| ==> At(g, between[i]).None?
  }

  predicate BetweenSafe(g: Grid, king: Coordinates, between: seq<Coordinates>, mover: Color)
    requires OnBoard(king) && forall i :: 0 <= i < |between| ==> OnBoard(between[i])
  {
    forall i :: 0 <= i < |between| ==> SafeOn(g, king, between[i], mover)
  }

  /** The king lifted off `king` and put on `b` is not in check. */
  predicate SafeOn(g: Grid, king: Coordinates, b: Coordinates, mover: Color)
    requires OnBoard(king) && OnBoard(b)
  {
    !Checked(KingMovedTo(g, king, b, mover), mover)
  }

  /** The square-by-square condition for queenside castling. */
  predicate QueensideClear(g: Grid, mover: Color) {
    var r := HomeRow(mover); var k := Coordinates(r, 4);
    g[r][0] == Some(Piece(mover, Rook)) && g[r][4] == Some(Piece(mover, King)) &&
    HasPiece(g, Piece(mover, King)) && !Checked(g, mover) &&
    g[r][1].None? && SafeOn(g, k, Coordinates(r, 1), mover) &&
    g[r][2].None? && SafeOn(g, k, Coordinates(r, 2), mover) &&
    g[r][3].None? && SafeOn(g, k, Coordinates(r, 3), mover)
  }

  /** The square-by-square condition for kingside castling. */
  predicate KingsideClear(g: Grid, mover: Color) {
    var r := HomeRow(mover); var k := Coordinates(r, 4);
    g[r][7] == Some(Piece(mover, Rook)) && g[r][4] == Some(Piece(mover, King)) &&
    HasPiece(g, Piece(mover, King)) && !Checked(g, mover) &&
    g[r][5].None? && SafeOn(g, k, Coordinates(r, 5), mover) &&
    g[r][6].None? && SafeOn(g, k, Coordinates(r, 6), mover)
  }

  lemma QueensideForward(g: Grid, mover: Color)
    requires CastleOk(g, true, mover)
    ensures QueensideClear(g, mover)
  {
    var q := CastleSquaresOf(true, mover);
    assert At(g, q.between[0]).None? && SafeOn(g, q.king, q.between[0], mover);
    assert At(g, q.between[1]).None? && SafeOn(g, q.king, q.between[1], mover);
    assert At(g, q.between[2]).None? && SafeOn(g, q.king, q.between[2], mover);
  }

  lemma QueensideBackward(g: Grid, mover: Color)
    requires QueensideClear(g, mover)
    ensures CastleOk(g, true, mover)
  {
    var q := CastleSquaresOf(true, mover);
    forall i | 0 <= i < |q.between| ensures At(g, q.between[i]).None? && SafeOn(g, q.king, q.between[i], mover) {
      if i == 0 {} else if i == 1 {} else {}
    }
  }

  /** Queenside castling is legal exactly when the rook is on a and the king on e of the
      home row, b, c and d are empty, and the king is in check neither on e nor when put
      on b, c or d. */
  lemma QueensideSquares(g: Grid, mover: Color)
    ensures CastleOk(g, true, mover) <==> QueensideClear(g, mover)
  {
    if CastleOk(g, true, mover) {
      QueensideForward(g, mover);
    } else if QueensideClear(g, mover) {
      QueensideBackward(g, mover);
    }
  }

  lemma KingsideForward(g: Grid, mover: Color)
    requires CastleOk(g, false, mover)
    ensures KingsideClear(g, mover)
  {
    var q := CastleSquaresOf(false, mover);
    assert At(g, q.between[0]).None? && SafeOn(g, q.king, q.between[0], mover);
    assert At(g, q.between[1]).None? && SafeOn(g, q.king, q.between[1], mover);
  }

  lemma KingsideBackward(g: Grid, mover: Color)
    requires KingsideClear(g, mover)
    ensures CastleOk(g, false, mover)
  {
    var q := CastleSquaresOf(false, mover);
    forall i | 0 <= i < |q.between| ensures At(g, q.between[i]).None? && SafeOn(g, q.king, q.between[i], mover) {
      if i == 0 {} else {}
    }
  }

  /** Kingside castling is legal exactly when the rook is on h and the king on e of the
      home row, f and g are empty, and the king is in check neither on e nor when put on
      f or g. */
  lemma KingsideSquares(g: Grid, mover: Color)
    ensures CastleOk(g, false, mover) <==> KingsideClear(g, mover)
  {
    if CastleOk(g, false, mover) {
      KingsideForward(g, mover);
    } else if KingsideClear(g, mover) {
      KingsideBackward(g, mover);
    }
  }

  /** One more safe cell extends a safe prefix of `bs`. */
  lemma SafeExtend(g: Grid, king: Coordinates, bs: seq<Coordinates>, mover: Color, i: nat)
    requires OnBoard(king) && i < |bs| && forall j :: 0 <= j < |bs| ==> OnBoard(bs[j])
    requires forall j :: 0 <= j < i ==> SafeOn(g, king, bs[j], mover)
    requires SafeOn(g, king, bs[i], mover)
    ensures forall j :: 0 <= j < i + 1 ==> SafeOn(g, king, bs[j], mover)
  {
  }
}
