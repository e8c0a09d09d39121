/** The `[[Option<Piece>; 8]; 8]` board as an array, and the loops of the newer engines
    that scan it: `validate_rook`, `validate_bishop`, `is_checked` and the placement part
    of `parse_fen` and `to_fen`. Each loop is proved against its definition in `Rules` or
    `Fen`. */
module Boards {
  import opened Types
  import opened Text
  import opened Fen
  import opened Rules

  predicate Is8x8(a: array2<Cell>) {
    a.Length0 == 8 && a.Length1 == 8
  }

  function RowOf(a: array2<Cell>, i: nat): (r: Row)
    requires Is8x8(a) && i < 8
    reads a
    ensures forall j :: 0 <= j < 8 ==> r[j] == a[i, j]
  {
    [a[i, 0], a[i, 1], a[i, 2], a[i, 3], a[i, 4], a[i, 5], a[i, 6], a[i, 7]]
  }

  /** The board's contents as a value. */
  function GridOf(a: array2<Cell>): (g: Grid)
    requires Is8x8(a)
    reads a
    ensures forall i, j :: 0 <= i < 8 && 0 <= j < 8 ==> g[i][j] == a[i, j]
  {
    seq(8, i requires 0 <= i < 8 reads a => RowOf(a, i))
  }

  /** Two grids with the same cells are equal. */
  lemma GridExt(g: Grid, h: Grid)
    requires forall i, j :: 0 <= i < 8 && 0 <= j < 8 ==> g[i][j] == h[i][j]
    ensures g == h
  {
    forall i | 0 <= i < 8
      ensures g[i] == h[i]
    {
      assert forall j :: 0 <= j < 8 ==> g[i][j] == h[i][j];
    }
  }

  /** Writing one cell of the array puts that cell into the grid. */
  method SetCell(a: array2<Cell>, c: Coordinates, x: Cell)
    requires Is8x8(a) && OnBoard(c)
    modifies a
    ensures GridOf(a) == Put(old(GridOf(a)), c, x)
  {
    ghost var g := GridOf(a);
    ghost var h := Put(g, c, x);
    a[c.row, c.col] := x;
    forall i, j | 0 <= i < 8 && 0 <= j < 8
      ensures a[i, j] == h[i][j]
    {
    }
    GridExt(GridOf(a), h);
  }

  /** `self.clone()` of the board, as the castling check does before moving the king. */
  method CopyBoard(a: array2<Cell>) returns (b: array2<Cell>)
    requires Is8x8(a)
    ensures fresh(b) && Is8x8(b) && GridOf(b) == GridOf(a)
  {
    b := new Cell[8, 8]((i, j) => None);
    for i := 0 to 8
      invariant forall r, c :: 0 <= r < i && 0 <= c < 8 ==> b[r, c] == a[r, c]
    {
      for j := 0 to 8
        invariant forall r, c :: 0 <= r < i && 0 <= c < 8 ==> b[r, c] == a[r, c]
        invariant forall c :: 0 <= c < j ==> b[i, c] == a[i, c]
      {
        b[i, j] := a[i, j];
      }
    }
    GridExt(GridOf(b), GridOf(a));
  }

  /** `validate_rook`: scans the cells strictly between the two squares on their shared
      row or column. */
  method ValidateRook(s: Coordinates, e: Coordinates, a: array2<Cell>) returns (r: bool)
    requires Is8x8(a) && OnBoard(s) && OnBoard(e)
    ensures r == RookPath(GridOf(a), s, e)
  {
    if s.row == e.row || s.col == e.col {
      var lo, hi;
      if s.row == e.row {
        lo, hi := Min(s.col, e.col), Max(s.col, e.col);
      } else {
        lo, hi := Min(s.row, e.row), Max(s.row, e.row);
      }
      var i := lo + 1;
      while i < hi
        invariant lo < i
        invariant s.row == e.row ==> forall c :: lo < c < i && c < hi ==> a[s.row, c].None?
        invariant s.row != e.row ==> forall c :: lo < c < i && c < hi ==> a[c, s.col].None?
        decreases hi - i
      {
        if s.row == e.row {
          if a[s.row, i].Some? {
            return false;
          }
        } else if a[i, s.col].Some? {
          return false;
        }
        i := i + 1;
      }
      return true;
    }
    return false;
  }

  /** `validate_bishop`: checks the diagonal and walks from the start toward the end,
      stopping at the first occupied cell strictly between them. */
  method ValidateBishop(s: Coordinates, e: Coordinates, a: array2<Cell>) returns (r: bool)
    requires Is8x8(a) && OnBoard(s) && OnBoard(e)
    ensures r == BishopPath(GridOf(a), s, e)
  {
    var rowDiff := s.row as int - e.row as int;
    var colDiff := s.col as int - e.col as int;
    if AbsDiff(s.row, e.row) != AbsDiff(s.col, e.col) || s.row == e.row || s.col == e.col {
      return false;
    }
    var rowDir, colDir;
    if rowDiff > 0 && colDiff > 0 {
      rowDir, colDir := -1, -1;
    } else if rowDiff > 0 && colDiff < 0 {
      rowDir, colDir := -1, 1;
    } else if rowDiff < 0 && colDiff > 0 {
      rowDir, colDir := 1, -1;
    } else {
      rowDir, colDir := 1, 1;
    }
    var n := AbsDiff(s.row, e.row);
    var row := s.row as int + rowDir;
    var col := s.col as int + colDir;
    ghost var k := 1;
    while row != e.row as int && col != e.col as int
      invariant 1 <= k <= n
      invariant row == Toward(s.row, e.row, k) && col == Toward(s.col, e.col, k)
      invariant forall m :: 0 < m < k ==>
        0 <= Toward(s.row, e.row, m) < 8 && 0 <= Toward(s.col, e.col, m) < 8 &&
        a[Toward(s.row, e.row, m), Toward(s.col, e.col, m)].None?
      decreases n - k
    {
      if a[row, col].Some? {
        return false;
      }
      row := row + rowDir;
      col := col + colDir;
      k := k + 1;
    }
    assert k == n;
    return true;
  }

  /** One diagonal ray of `check_the_diagonals`: true unless the first piece met attacks. */
  method DiagonalRay(a: array2<Cell>, k: Coordinates, color: Color, dx: int, dy: int) returns (safe: bool)
    requires Is8x8(a) && OnBoard(k) && (dx == 1 || dx == -1) && (dy == 1 || dy == -1)
    ensures safe == DiagonalRaySafe(GridOf(a), k, color, dx, dy)
  {
    var found := FirstOnRay(GridOf(a), k, dx, dy);
    safe := found.None? || !DiagonalAttacker(color, dx, dy, found.value);
  }

  /** One ray of `check_the_lateral`: true unless the first piece met attacks. */
  method LateralRay(a: array2<Cell>, k: Coordinates, color: Color, dx: int, dy: int) returns (safe: bool)
    requires Is8x8(a) && OnBoard(k) && IsDirection(dx, dy)
    ensures safe == LateralRaySafe(GridOf(a), k, color, dx, dy)
  {
    var found := FirstOnRay(GridOf(a), k, dx, dy);
    safe := found.None? || !LateralAttacker(color, found.value);
  }

  /** The walk both ray checks share: step from the king while on the board and stop at
      the first occupied cell. */
  method FirstOnRay(g: Grid, k: Coordinates, dx: int, dy: int) returns (found: Option<Piece>)
    requires OnBoard(k) && IsDirection(dx, dy)
    ensures found == RayPiece(g, k, dx, dy, 1)
  {
    var x := k.row as int + dx;
    var y := k.col as int + dy;
    ghost var n: nat := 1;
    while 0 <= x < 8 && 0 <= y < 8
      invariant 1 <= n <= 8
      invariant x == k.row + Offset(dx, n) && y == k.col + Offset(dy, n)
      invariant RayPiece(g, k, dx, dy, 1) == RayPiece(g, k, dx, dy, n)
      decreases 8 - n
    {
      RayInside(k, dx, dy, n);
      if g[x][y].Some? {
        RayStop(g, k, dx, dy, n);
        return g[x][y];
      }
      RayStep(g, k, dx, dy, n);
      x := x + dx;
      y := y + dy;
      n := n + 1;
    }
    RayEnd(g, k, dx, dy, n);
    return None;
  }

  lemma RayInside(k: Coordinates, dx: int, dy: int, n: nat)
    requires OnBoard(k) && IsDirection(dx, dy) && RayOn(k, dx, dy, n)
    ensures n < 8
  {
  }

  lemma RayStop(g: Grid, k: Coordinates, dx: int, dy: int, n: nat)
    requires IsDirection(dx, dy) && n < 8 && RayOn(k, dx, dy, n) && RayAt(g, k, dx, dy, n).Some?
    ensures RayPiece(g, k, dx, dy, n) == RayAt(g, k, dx, dy, n)
  {
  }

  lemma RayStep(g: Grid, k: Coordinates, dx: int, dy: int, n: nat)
    requires IsDirection(dx, dy) && n < 8 && RayOn(k, dx, dy, n) && RayAt(g, k, dx, dy, n).None?
    ensures RayPiece(g, k, dx, dy, n) == RayPiece(g, k, dx, dy, n + 1)
  {
  }

  lemma RayEnd(g: Grid, k: Coordinates, dx: int, dy: int, n: nat)
    requires IsDirection(dx, dy) && !RayOn(k, dx, dy, n)
    ensures RayPiece(g, k, dx, dy, n) == None
  {
  }

  /** `check_the_knights`: true unless an enemy knight stands a knight's jump away. */
  method KnightScan(a: array2<Cell>, k: Coordinates, color: Color) returns (safe: bool)
    requires Is8x8(a) && OnBoard(k)
    ensures safe == KnightsSafe(GridOf(a), k, color)
  {
    ghost var g := GridOf(a);
    for i := 0 to |KnightOffsets|
      invariant forall m :: 0 <= m < i ==> !KnightThreat(g, k, color, KnightOffsets[m])
    {
      var o := KnightOffsets[i];
      var row := k.row as int + o.0;
      var col := k.col as int + o.1;
      if !(0 <= row <= 7) || !(0 <= col <= 7) {
        continue;
      }
      var piece := a[row, col];
      if piece.Some? && piece.value.name == Knight && piece.value.color != color {
        assert KnightThreat(g, k, color, o);
        return false;
      }
    }
    return true;
  }

  /** `is_checked`: locate the king, then run the diagonal, lateral and knight scans. */
  method IsChecked(a: array2<Cell>, color: Color) returns (r: bool)
    requires Is8x8(a) && HasPiece(GridOf(a), Piece(color, King))
    ensures r == Checked(GridOf(a), color)
  {
    var k := KingSquare(GridOf(a), color);
    var d1 := DiagonalRay(a, k, color, 1, 1);
    var d2 := DiagonalRay(a, k, color, -1, 1);
    var d3 := DiagonalRay(a, k, color, 1, -1);
    var d4 := DiagonalRay(a, k, color, -1, -1);
    var diag := d1 && d2 && d3 && d4;
    var l1 := LateralRay(a, k, color, 1, 0);
    var l2 := LateralRay(a, k, color, -1, 0);
    var l3 := LateralRay(a, k, color, 0, 1);
    var l4 := LateralRay(a, k, color, 0, -1);
    var lat := l1 && l2 && l3 && l4;
    var knights := KnightScan(a, k, color);
    r := !diag || !lat || !knights;
  }

  /** The text loop of `to_fen` for one rank: empty cells are counted and flushed as a
      number before the next piece letter and at the end of the rank. */
  method WriteRank(a: array2<Cell>, i: nat, ghost row: Row) returns (out: string)
    requires Is8x8(a) && i < 8 && forall j :: 0 <= j < 8 ==> row[j] == a[i, j]
    ensures out == EncodeRank(row)
  {
    out := "";
    var counter: nat := 0;
    for j := 0 to 8
      invariant out + EncodeRun(row[j..], counter) == EncodeRank(row)
    {
      var cell := a[i, j];
      assert row[j..][0] == cell && row[j..][1..] == row[j + 1..];
      match cell
      case Some(p) =>
        ghost var rest := EncodeRun(row[j + 1..], 0);
        assert EncodeRun(row[j..], counter) == Flush(counter) + [PieceChar(p)] + rest;
        if counter != 0 {
          out := out + NatToString(counter);
        }
        counter := 0;
        out := out + [PieceChar(p)];
      case None =>
        counter := counter + 1;
    }
    assert row[8..] == [];
    if counter != 0 {
      out := out + NatToString(counter);
    }
  }

  /** The placement loop of `to_fen`: the ranks from row 7 down, each followed by `/`,
      then the final `/` dropped. */
  method WritePlacement(a: array2<Cell>) returns (out: string)
    requires Is8x8(a)
    ensures out == PlacementText(GridOf(a))
  {
    ghost var ts := RankTexts(GridOf(a));
    out := "";
    for k := 0 to 8
      invariant out == Terminated(ts[..k], '/')
    {
      var rank := WriteRank(a, 7 - k, GridOf(a)[7 - k]);
      assert ts[..k + 1][..k] == ts[..k];
      out := out + rank + "/";
    }
    assert ts[..8] == ts;
    TerminatedJoin(ts, '/');
    assert out[..|out| - 1] == Join(ts, '/');
    out := out[..|out| - 1];
  }

  /** The placement loop of `parse_fen`: each rank text read by `DecodeRank`, rejected
      unless it gives exactly eight cells, and stored so that the first text is row 7. */
  method ReadPlacement(ranks: seq<string>) returns (r: Option<array2<Cell>>)
    requires |ranks| == 8
    ensures r.Some? <==> GridOfRanks(ranks).Some?
    ensures r.Some? ==> fresh(r.value) && Is8x8(r.value) && GridOf(r.value) == GridOfRanks(ranks).value
  {
    var a := new Cell[8, 8]((i, j) => None);
    for index := 0 to 8
      invariant forall k :: 0 <= k < index ==> RankOk(ranks[k])
      invariant forall k, j :: 0 <= k < index && 0 <= j < 8 ==> a[7 - k, j] == RankCells(ranks[k])[j]
    {
      var row := DecodeRank(ranks[index]);
      if row.None? || |row.value| != 8 {
        assert !RankOk(ranks[index]);
        return None;
      }
      for j := 0 to 8
        invariant forall k, c :: 0 <= k < index && 0 <= c < 8 ==> a[7 - k, c] == RankCells(ranks[k])[c]
        invariant forall c :: 0 <= c < j ==> a[7 - index, c] == row.value[c]
      {
        a[7 - index, j] := row.value[j];
      }
    }
    assert AllRanksOk(ranks);
    var g := GridOfRanks(ranks).value;
    forall i, j | 0 <= i < 8 && 0 <= j < 8
      ensures GridOf(a)[i][j] == g[i][j]
    {
      assert Some(g[i]) == DecodeCells(ranks[7 - i]);
      assert a[7 - (7 - i), j] == RankCells(ranks[7 - i])[j];
    }
    GridExt(GridOf(a), g);
    return Some(a);
  }
}
