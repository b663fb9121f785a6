/** Routes between two tiles: the direction strings built by the six route
    shapes of model/board.py and by `__make_lines`, and what such a string
    means on the grid. A route is a string over u/d/l/r read from the upper
    tile (the first given one when both share a row). */
module Routes {
  import opened Grid

  const UP: char := 'u'
  const DOWN: char := 'd'
  const RIGHT: char := 'r'
  const LEFT: char := 'l'

  function Abs(x: int): nat {
    if x < 0 then -x else x
  }

  /** Python's `c * n`: n copies of c, none when n <= 0. */
  function Run(c: char, n: int): (r: string)
    ensures |r| == (if n <= 0 then 0 else n)
    ensures forall k :: 0 <= k < |r| ==> r[k] == c
  {
    if n <= 0 then [] else seq(n, _ => c)
  }

  /** A horizontal run: to the right when `right`, else to the left. */
  function Horizontal(right: bool, n: int): string {
    Run(if right then RIGHT else LEFT, n)
  }

  predicate IsDirection(c: char) {
    c == UP || c == DOWN || c == LEFT || c == RIGHT
  }

  predicate IsVertical(c: char) {
    c == UP || c == DOWN
  }

  /** Two directions at a right angle to each other. */
  predicate Perpendicular(a: char, b: char) {
    IsDirection(a) && IsDirection(b) && IsVertical(a) != IsVertical(b)
  }

  predicate Opposite(a: char, b: char) {
    (a == UP && b == DOWN) || (a == DOWN && b == UP) || (a == LEFT && b == RIGHT) || (a == RIGHT && b == LEFT)
  }

  /** The cell one step from p: the update `__get_positions_by_line` applies
      for one character (any other character leaves the position as it is). */
  function Step(p: Pos, c: char): Pos {
    if c == RIGHT then (p.0, p.1 + 1)
    else if c == LEFT then (p.0, p.1 - 1)
    else if c == UP then (p.0 - 1, p.1)
    else if c == DOWN then (p.0 + 1, p.1)
    else p
  }

  /** The cell n steps from p in direction c. */
  function Move(p: Pos, c: char, n: int): Pos {
    if c == RIGHT then (p.0, p.1 + n)
    else if c == LEFT then (p.0, p.1 - n)
    else if c == UP then (p.0 - n, p.1)
    else if c == DOWN then (p.0 + n, p.1)
    else p
  }

  /** The cells a route visits, starting cell first (`__get_positions_by_line`). */
  function Walk(p: Pos, route: string): (w: seq<Pos>)
    ensures |w| == |route| + 1 && w[0] == p
    decreases |route|
  {
    [p] + if route == [] then [] else Walk(Step(p, route[0]), route[1..])
  }

  /** The cell a route ends on. */
  function End(p: Pos, route: string): Pos
    decreases |route|
  {
    if route == [] then p else End(Step(p, route[0]), route[1..])
  }

  /** Every cell the route passes through strictly between its two ends is
      an empty cell of the grid. */
  predicate ClearInterior(g: Cells, p: Pos, route: string)
    requires Rect(g)
    decreases |route|
  {
    |route| <= 1 || (Free(g, Step(p, route[0])) && ClearInterior(g, Step(p, route[0]), route[1..]))
  }

  /** Number of direction changes along a route. */
  function Turns(route: string): nat
    decreases |route|
  {
    if |route| < 2 then 0 else (if route[0] != route[1] then 1 else 0) + Turns(route[1..])
  }

  /** `route` joins p to q through empty cells only, one unit step per
      character, never doubling back on itself. */
  predicate Connects(g: Cells, p: Pos, q: Pos, route: string)
    requires Rect(g)
  {
    route != [] &&
    (forall k :: 0 <= k < |route| ==> IsDirection(route[k])) &&
    (forall k :: 0 <= k < |route| - 1 ==> !Opposite(route[k], route[k + 1])) &&
    End(p, route) == q && ClearInterior(g, p, route)
  }

  // ---------------------------------------------------------------------------
  // The checks the inner `for` loops of the route shapes make.

  /** `for hj in range(j1 + inc, j2 + inc, inc): if crashed(i, hj): fail`:
      the cells of row i from next to j1 up to j2 (included) are all empty. */
  predicate HorizontalFree(g: Cells, i: int, j1: int, j2: int, right: bool)
    requires Rect(g)
  {
    if right then RowFree(g, i, j1 + 1, j2) else RowFree(g, i, j2, j1 - 1)
  }

  /** `for hj in range(from + inc, to + inc, inc): if crashed(i, hj): found iff hj == to; break`:
      walking row i from `from` toward `to`, the first occupied cell is `to`. */
  predicate RowReaches(g: Cells, i: int, from: int, to: int, right: bool)
    requires Rect(g) && InGrid(g, i, to)
  {
    if right then from < to && RowFree(g, i, from + 1, to - 1) && Crashed(g, i, to)
    else to < from && RowFree(g, i, to + 1, from - 1) && Crashed(g, i, to)
  }

  /** Walking column j down from row `from`, the first occupied cell is row `to`. */
  predicate ColReachesDown(g: Cells, j: int, from: int, to: int)
    requires Rect(g) && InGrid(g, to, j)
  {
    from < to && ColFree(g, j, from + 1, to - 1) && Crashed(g, to, j)
  }

  /** Walking column j up from row `from`, the first occupied cell is row `to`. */
  predicate ColReachesUp(g: Cells, j: int, from: int, to: int)
    requires Rect(g) && InGrid(g, to, j)
  {
    to < from && ColFree(g, j, to + 1, from - 1) && Crashed(g, to, j)
  }

  // ---------------------------------------------------------------------------
  // The six route shapes (model/board.py:199-472). Each outer `while` loop is
  // a recursive function over the row or column it has reached.

  /** `__same_column_tiles`: walk down from the upper tile; the route is the
      straight line when the first occupied cell met is the other tile. */
  function SameColumnTiles(g: Cells, i1: int, j1: int, i2: int, j2: int): string
    requires Rect(g) && InGrid(g, i1, j1)
  {
    ColumnFrom(g, i1, j1, i2, j2, i1 + 1)
  }

  function ColumnFrom(g: Cells, i1: int, j1: int, i2: int, j2: int, i: int): string
    requires Rect(g)
    decreases |g| - i
  {
    if !InGrid(g, i, j1) then ""
    else if Crashed(g, i, j1) then (if i == i2 && j1 == j2 then Run(DOWN, i2 - i1) else "")
    else ColumnFrom(g, i1, j1, i2, j2, i + 1)
  }

  /** `__same_row_tiles`: walk along the row toward the other tile (to the
      right when `left`, i.e. when the first tile is the left one). */
  function SameRowTiles(g: Cells, i1: int, j1: int, i2: int, j2: int, left: bool): string
    requires Rect(g)
  {
    RowFrom(g, i1, j1, i2, j2, left, if left then j1 + 1 else j1 - 1)
  }

  function RowFrom(g: Cells, i1: int, j1: int, i2: int, j2: int, left: bool, j: int): string
    requires Rect(g)
    decreases if left then |g[0]| - j else j + 1
  {
    if !InGrid(g, i1, j) then ""
    else if Crashed(g, i1, j) then
      (if i1 == i2 && j == j2 then Horizontal(left, Abs(j2 - j1)) else "")
    else RowFrom(g, i1, j1, i2, j2, left, if left then j + 1 else j - 1)
  }

  /** `__to_left_right_side`: leave the upper tile sideways along its row,
      go down an empty column to the lower tile's row, then come back along
      that row. Columns to the left are tried first, nearest first. */
  function ToLeftRightSide(g: Cells, i1: int, j1: int, i2: int, j2: int): string
    requires Rect(g) && InGrid(g, i2, j2)
  {
    var fromLeft := LeftSideFrom(g, i1, j1, i2, j2, j1 - 1);
    if fromLeft != "" then fromLeft else RightSideFrom(g, i1, j1, i2, j2, j1 + 1)
  }

  function LeftSideFrom(g: Cells, i1: int, j1: int, i2: int, j2: int, j: int): string
    requires Rect(g) && InGrid(g, i2, j2)
    decreases j + 1
  {
    if !InGrid(g, i1, j) || Crashed(g, i1, j) then ""
    else if ColFree(g, j, i1 + 1, i2) && RowReaches(g, i2, j, j2, true) then
      Run(LEFT, Abs(j1 - j)) + Run(DOWN, Abs(i2 - i1)) + Run(RIGHT, j2 - j)
    else LeftSideFrom(g, i1, j1, i2, j2, j - 1)
  }

  function RightSideFrom(g: Cells, i1: int, j1: int, i2: int, j2: int, j: int): string
    requires Rect(g) && InGrid(g, i2, j2)
    decreases |g[0]| - j
  {
    if !InGrid(g, i1, j) || Crashed(g, i1, j) then ""
    else if ColFree(g, j, i1 + 1, i2) && RowReaches(g, i2, j, j2, false) then
      Run(RIGHT, Abs(j - j1)) + Run(DOWN, Abs(i2 - i1)) + Run(LEFT, Abs(j - j2))
    else RightSideFrom(g, i1, j1, i2, j2, j + 1)
  }

  /** `__to_up_down_side`: leave the first tile vertically, cross over along
      an empty row to the second tile's column, then come back vertically.
      Rows above are tried first, nearest first. */
  function ToUpDownSide(g: Cells, i1: int, j1: int, i2: int, j2: int, left: bool): string
    requires Rect(g) && InGrid(g, i2, j2)
  {
    var fromUp := UpSideFrom(g, i1, j1, i2, j2, left, i1 - 1);
    if fromUp != "" then fromUp else DownSideFrom(g, i1, j1, i2, j2, left, i1 + 1)
  }

  function UpSideFrom(g: Cells, i1: int, j1: int, i2: int, j2: int, left: bool, i: int): string
    requires Rect(g) && InGrid(g, i2, j2)
    decreases i + 1
  {
    if !InGrid(g, i, j1) || Crashed(g, i, j1) then ""
    else if HorizontalFree(g, i, j1, j2, left) && ColReachesDown(g, j2, i, i2) then
      Run(UP, Abs(i1 - i)) + Horizontal(left, Abs(j2 - j1)) + Run(DOWN, Abs(i2 - i))
    else UpSideFrom(g, i1, j1, i2, j2, left, i - 1)
  }

  function DownSideFrom(g: Cells, i1: int, j1: int, i2: int, j2: int, left: bool, i: int): string
    requires Rect(g) && InGrid(g, i2, j2)
    decreases |g| - i
  {
    if !InGrid(g, i, j1) || Crashed(g, i, j1) then ""
    else if HorizontalFree(g, i, j1, j2, left) && ColReachesUp(g, j2, i, i2) then
      Run(DOWN, Abs(i - i1)) + Horizontal(left, Abs(j2 - j1)) + Run(UP, Abs(i - i2))
    else DownSideFrom(g, i1, j1, i2, j2, left, i + 1)
  }

  /** `__border_side_lines`: the two one-turn routes, first along the upper
      tile's row then down the lower tile's column, else down the upper
      tile's column then along the lower tile's row. */
  function BorderSideLines(g: Cells, i1: int, j1: int, i2: int, j2: int, toLeft: bool): string
    requires Rect(g) && InGrid(g, i2, j2)
  {
    if HorizontalFree(g, i1, j1, j2, toLeft) && ColReachesDown(g, j2, i1, i2) then
      Horizontal(toLeft, Abs(j2 - j1)) + Run(DOWN, Abs(i2 - i1))
    else if ColFree(g, j1, i1 + 1, i2) && RowReaches(g, i2, j1, j2, toLeft) then
      Run(DOWN, Abs(i2 - i1)) + Horizontal(toLeft, Abs(j2 - j1))
    else ""
  }

  /** `__stair_side`: down, across, down again through an empty row between
      the tiles (rows nearest the upper tile first); else across, down,
      across again through an empty column between them. */
  function StairSide(g: Cells, i1: int, j1: int, i2: int, j2: int, toLeft: bool): string
    requires Rect(g) && InGrid(g, i2, j2)
  {
    var fromDown := StairDownFrom(g, i1, j1, i2, j2, toLeft, i1 + 1);
    if fromDown != "" then fromDown
    else StairSideFrom(g, i1, j1, i2, j2, toLeft, if toLeft then j1 + 1 else j1 - 1)
  }

  function StairDownFrom(g: Cells, i1: int, j1: int, i2: int, j2: int, toLeft: bool, i: int): string
    requires Rect(g) && InGrid(g, i2, j2)
    decreases |g| - i
  {
    if !InGrid(g, i, j1) || Crashed(g, i, j1) then ""
    else if HorizontalFree(g, i, j1, j2, toLeft) && ColReachesDown(g, j2, i, i2) then
      Run(DOWN, Abs(i - i1)) + Horizontal(toLeft, Abs(j2 - j1)) + Run(DOWN, Abs(i2 - i))
    else StairDownFrom(g, i1, j1, i2, j2, toLeft, i + 1)
  }

  function StairSideFrom(g: Cells, i1: int, j1: int, i2: int, j2: int, toLeft: bool, j: int): string
    requires Rect(g) && InGrid(g, i2, j2)
    decreases if toLeft then |g[0]| - j else j + 1
  {
    if !InGrid(g, i1, j) || Crashed(g, i1, j) then ""
    else if ColFree(g, j, i1 + 1, i2) && RowReaches(g, i2, j, j2, toLeft) then
      Horizontal(toLeft, Abs(j - j1)) + Run(DOWN, Abs(i2 - i1)) + Horizontal(toLeft, Abs(j2 - j))
    else StairSideFrom(g, i1, j1, i2, j2, toLeft, if toLeft then j + 1 else j - 1)
  }

  /** `__make_lines`: the route from (i1, j1) to (i2, j2), "" when none of
      the shapes applies. The first tile must not lie below the second. */
  function MakeLines(g: Cells, i1: int, j1: int, i2: int, j2: int): string
    requires Rect(g) && InGrid(g, i1, j1) && InGrid(g, i2, j2)
  {
    if g[i1][j1] != g[i2][j2] then ""
    else if i1 < i2 then
      if j1 == j2 then
        var straight := SameColumnTiles(g, i1, j1, i2, j2);
        if straight != "" then straight else ToLeftRightSide(g, i1, j1, i2, j2)
      else
        var toLeft := j1 < j2;
        var border := BorderSideLines(g, i1, j1, i2, j2, toLeft);
        if border != "" then border else
        var stair := StairSide(g, i1, j1, i2, j2, toLeft);
        if stair != "" then stair else
        var sides := ToLeftRightSide(g, i1, j1, i2, j2);
        if sides != "" then sides else ToUpDownSide(g, i1, j1, i2, j2, toLeft)
    else if i1 == i2 && j1 != j2 then
      var left := j1 < j2;
      var straight := SameRowTiles(g, i1, j1, i2, j2, left);
      if straight != "" then straight else ToUpDownSide(g, i1, j1, i2, j2, left)
    else ""
  }

  /** `__above_tile`: the pair with the upper tile first (the first given one
      when both share a row). */
  function AboveTile(p: Pos, q: Pos): (r: (Pos, Pos))
    ensures r == (p, q) || r == (q, p)
    ensures r.0.0 <= r.1.0
    ensures p.0 == q.0 ==> r == (p, q)
  {
    if p.0 <= q.0 then (p, q) else (q, p)
  }
}
