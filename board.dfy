/**
 * The read-only Go board (the `Goban` class of goban.py) and its status
 * lookup. A board is a list of text rows; column `x`, row `y`, origin at the
 * top-left corner. Off-board coordinates are not an error: they read as the
 * `Out` sentinel.
 */
module Board {

  /** The four members of the source's `Status` enum (their numeric values play no part). */
  datatype Status = White | Black | Empty | Out

  /** The two `ValueError`s the source raises: a cell with an unrecognised
      symbol, and a liberty query on a point that holds no stone. */
  datatype Error = UnknownSymbol(symbol: char) | NotAPlayer

  /** A computation that either yields a value or raises one of the errors above. */
  datatype Result<T> = Ok(value: T) | Err(error: Error)

  /** An `(x, y)` coordinate pair; any integers, in bounds or not. */
  type Pos = (int, int)

  /** Every row is as long as the first one: the width is read from row 0 only. */
  predicate Rectangular(rows: seq<string>) {
    forall y :: 0 <= y < |rows| ==> |rows[y]| == |rows[0]|
  }

  /** The rows a `Goban` is built from. */
  type Grid = rows: seq<string> | Rectangular(rows)

  predicate IsPlayer(s: Status) {
    s == White || s == Black
  }

  /** The coordinate names a cell of the grid. */
  predicate InBounds(g: Grid, x: int, y: int) {
    0 <= y < |g| && 0 <= x < |g[0]|
  }

  /** The text symbol of an on-board status. */
  function Symbol(s: Status): char
    requires s != Out
  {
    match s
    case Empty => '.'
    case White => 'o'
    case Black => '#'
  }

  /** `Goban.get_status`: `Out` off the board (and everywhere on a board
      with no rows), the status a recognised symbol stands for, and an
      error for any other symbol. */
  function GetStatus(g: Grid, x: int, y: int): (r: Result<Status>)
    ensures r == Ok(Out) <==> !InBounds(g, x, y)
    ensures r == Ok(Empty) <==> InBounds(g, x, y) && g[y][x] == Symbol(Empty)
    ensures r == Ok(White) <==> InBounds(g, x, y) && g[y][x] == Symbol(White)
    ensures r == Ok(Black) <==> InBounds(g, x, y) && g[y][x] == Symbol(Black)
    ensures r.Err? <==> InBounds(g, x, y) && g[y][x] !in {'.', 'o', '#'}
    ensures r.Err? ==> InBounds(g, x, y) && r.error == UnknownSymbol(g[y][x])
  {
    if |g| == 0 || x < 0 || y < 0 || y >= |g| || x >= |g[0]| then Ok(Out)
    else if g[y][x] == '.' then Ok(Empty)
    else if g[y][x] == 'o' then Ok(White)
    else if g[y][x] == '#' then Ok(Black)
    else Err(UnknownSymbol(g[y][x]))
  }

  function StatusAt(g: Grid, p: Pos): Result<Status> {
    GetStatus(g, p.0, p.1)
  }

  /** Orthogonal adjacency: the two points differ by one in exactly one coordinate. */
  predicate Adjacent(p: Pos, q: Pos) {
    (p.0 == q.0 && (p.1 - q.1 == 1 || q.1 - p.1 == 1)) ||
    (p.1 == q.1 && (p.0 - q.0 == 1 || q.0 - p.0 == 1))
  }

  /** The four cardinal neighbours, in the order the source visits them:
      left, right, up, down. */
  function Neighbours(p: Pos): (ns: seq<Pos>)
    ensures |ns| == 4
    ensures forall q :: q in ns <==> Adjacent(p, q)
    ensures forall i, j :: 0 <= i < j < |ns| ==> ns[i] != ns[j]
  {
    [(p.0 - 1, p.1), (p.0 + 1, p.1), (p.0, p.1 - 1), (p.0, p.1 + 1)]
  }

  /** Every cell holds one of the three recognised symbols. */
  predicate WellFormed(g: Grid) {
    forall y, x :: 0 <= y < |g| && 0 <= x < |g[0]| ==> g[y][x] in {'.', 'o', '#'}
  }
}
