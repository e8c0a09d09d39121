/** Value types shared by every generation of the chess engine: colours, pieces,
    board coordinates, the 8x8 grid, castling rights, game outcomes and errors. */
module Types {

  datatype Option<+T> = None | Some(value: T)

  /** `Result<T, Box<dyn Error>>`: every error the engine raises is one of these. */
  datatype Result<+T> = Ok(value: T) | Err(error: Error)

  /** `FenError` (InvalidFormat, InvalidSquare), `MoveError` (InvalidMove, GameOver,
      WrongColor) and `TicError` (InvalidCoords, WrongColor) folded into one type. */
  datatype Error = InvalidFormat | InvalidSquare | InvalidMove | GameOver | WrongColor | InvalidCoords

  datatype Color = White | Black

  function Opposite(c: Color): (o: Color)
    ensures o != c
  {
    if c == White then Black else White
  }

  /** The protocol's numeric colour code, used by `EndResult::Color(i32)`. */
  function ColorCode(c: Color): (code: int)
    ensures code == 0 <==> c == White
    ensures code == 1 <==> c == Black
  {
    match c
    case White => 0
    case Black => 1
  }

  datatype PieceName = Rook | Knight | Bishop | Queen | King | Pawn

  datatype Piece = Piece(color: Color, name: PieceName)

  /** The two castling sides, keys of the castling map together with a colour. */
  datatype Side = Kingside | Queenside

  /** A square: row 0 is rank 1 and col 0 is file a. */
  datatype Coordinates = Coordinates(row: nat, col: nat)

  predicate OnBoard(c: Coordinates) {
    c.row < 8 && c.col < 8
  }

  /** The protocol's `EndResult` oneof: `Color(i32)`, `None(bool)`, `Draw(bool)`. */
  datatype EndResult = Won(code: int) | Open(flag: bool) | Drawn(flag: bool)

  type Cell = Option<Piece>

  type Row = r: seq<Cell> | |r| == 8 witness [None, None, None, None, None, None, None, None]

  const EmptyRow: Row := [None, None, None, None, None, None, None, None]

  /** `[[Option<Piece>; 8]; 8]` as a value: `g[row][col]`. */
  type Grid = g: seq<Row> | |g| == 8
    witness [EmptyRow, EmptyRow, EmptyRow, EmptyRow, EmptyRow, EmptyRow, EmptyRow, EmptyRow]

  function At(g: Grid, c: Coordinates): Cell
    requires OnBoard(c)
  {
    g[c.row][c.col]
  }

  /** The grid with one cell replaced. */
  function Put(g: Grid, c: Coordinates, x: Cell): (h: Grid)
    requires OnBoard(c)
    ensures At(h, c) == x
    ensures forall i, j :: 0 <= i < 8 && 0 <= j < 8 && (i != c.row || j != c.col) ==> h[i][j] == g[i][j]
  {
    g[c.row := g[c.row][c.col := x]]
  }

  /** True when some cell of the grid holds exactly `p`. */
  predicate HasPiece(g: Grid, p: Piece) {
    exists i, j :: 0 <= i < 8 && 0 <= j < 8 && g[i][j] == Some(p)
  }

  /** The castling `HashMap<(Color, Castling), bool>`. */
  type CastlingMap = map<(Color, Side), bool>

  /** The four keys every castling map of the engine holds, so that `get(..).unwrap()` succeeds. */
  predicate CastlingComplete(m: CastlingMap) {
    (White, Kingside) in m && (White, Queenside) in m && (Black, Kingside) in m && (Black, Queenside) in m
  }

  /** The castling map with both flags of `c` set to false. */
  function ClearCastling(m: CastlingMap, c: Color): (m': CastlingMap)
    ensures m'.Keys == m.Keys + {(c, Kingside), (c, Queenside)}
    ensures m'[(c, Kingside)] == false && m'[(c, Queenside)] == false
    ensures forall k :: k in m && k.0 != c ==> m'[k] == m[k]
  {
    m[(c, Kingside) := false][(c, Queenside) := false]
  }

  function AbsDiff(a: nat, b: nat): nat {
    if a >= b then a - b else b - a
  }

  /** `usize::saturating_sub`. */
  function SaturatingSub(a: nat, b: nat): nat {
    if a >= b then a - b else 0
  }
}
