/** Turning a route into what the window draws (model/board.py:483-497 and
    678-767): the list of cells the route visits, and one drawing tag per
    cell. A tag names the sides of its cell that the drawn line touches: a
    half line at each end, a straight line or a corner in between. */
module Paths {
  import opened Grid
  import opened Routes
  import opened RouteFacts

  datatype Option<T> = None | Some(value: T)

  // Corner tags: the line enters from one side and leaves by another.
  const TURN_FROM_LEFT_TO_DOWN: char := 'q'
  const TURN_FROM_RIGHT_TO_DOWN: char := 'e'
  const TURN_FROM_RIGHT_TO_UP: char := 'x'
  const TURN_FROM_LEFT_TO_UP: char := 'z'
  // Half tags, for the two tiles a route joins.
  const UP_HALF: char := 'v'
  const DOWN_HALF: char := 'b'
  const LEFT_HALF: char := 'n'
  const RIGHT_HALF: char := 'm'

  /** The sides of its cell that a tag's line touches, named by direction. */
  function Sides(tag: char): set<char> {
    if tag == UP || tag == DOWN then {UP, DOWN}
    else if tag == LEFT || tag == RIGHT then {LEFT, RIGHT}
    else if tag == TURN_FROM_LEFT_TO_DOWN then {LEFT, DOWN}
    else if tag == TURN_FROM_RIGHT_TO_DOWN then {RIGHT, DOWN}
    else if tag == TURN_FROM_RIGHT_TO_UP then {RIGHT, UP}
    else if tag == TURN_FROM_LEFT_TO_UP then {LEFT, UP}
    else if tag == UP_HALF then {UP}
    else if tag == DOWN_HALF then {DOWN}
    else if tag == LEFT_HALF then {LEFT}
    else if tag == RIGHT_HALF then {RIGHT}
    else {}
  }

  /** The side of cell y on which its neighbour x lies. */
  function Toward(y: Pos, x: Pos): char {
    if x.0 < y.0 then UP else if x.0 > y.0 then DOWN else if x.1 < y.1 then LEFT else RIGHT
  }

  // ---------------------------------------------------------------------------
  // Cells of a route

  lemma {:induction false} WalkSnoc(p: Pos, r: string, c: char)
    ensures Walk(p, r + [c]) == Walk(p, r) + [Step(End(p, r), c)]
    ensures End(p, r + [c]) == Step(End(p, r), c)
    decreases |r|
  {
    if r == [] {
      assert [] + [c] == [c];
    } else {
      assert (r + [c])[0] == r[0] && (r + [c])[1..] == r[1..] + [c];
      WalkSnoc(Step(p, r[0]), r[1..], c);
    }
  }

  /** `__get_positions_by_line`: the cells the route visits from (i, j), one
      per step, the starting cell first. */
  method GetPositionsByLine(route: string, i: int, j: int) returns (positions: seq<Pos>)
    ensures positions == Walk((i, j), route)
    ensures |positions| == |route| + 1 && positions[0] == (i, j) && positions[|route|] == End((i, j), route)
  {
    positions := [(i, j)];
    var ci, cj := i, j;
    for n := 0 to |route|
      invariant positions == Walk((i, j), route[..n])
      invariant (ci, cj) == End((i, j), route[..n])
    {
      var line := route[n];
      if line == RIGHT {
        cj := cj + 1;
      } else if line == LEFT {
        cj := cj - 1;
      } else if line == UP {
        ci := ci - 1;
      } else if line == DOWN {
        ci := ci + 1;
      }
      WalkSnoc((i, j), route[..n], line);
      assert route[..n + 1] == route[..n] + [line];
      positions := positions + [(ci, cj)];
    }
    assert route[..|route|] == route;
    WalkShape((i, j), route);
  }

  // ---------------------------------------------------------------------------
  // Tags

  /** `__get_turned_line`: the corner tag for y when x and z lie on
      different rows and different columns. */
  function TurnedLine(x: Pos, y: Pos, z: Pos): string {
    if x.0 > z.0 then
      if x.1 < z.1 then (if x.0 - 1 == y.0 then [TURN_FROM_RIGHT_TO_DOWN] else [TURN_FROM_LEFT_TO_UP])
      else if x.1 > z.1 then (if x.0 - 1 == y.0 then [TURN_FROM_LEFT_TO_DOWN] else [TURN_FROM_RIGHT_TO_UP])
      else ""
    else if x.0 < z.0 then
      if x.1 < z.1 then (if x.0 + 1 == y.0 then [TURN_FROM_RIGHT_TO_UP] else [TURN_FROM_LEFT_TO_DOWN])
      else if x.1 > z.1 then (if x.0 + 1 == y.0 then [TURN_FROM_LEFT_TO_UP] else [TURN_FROM_RIGHT_TO_DOWN])
      else ""
    else ""
  }

  /** The half tag for an end cell y whose one neighbour is n. */
  function HalfLine(y: Pos, n: Pos): string {
    if y.1 == n.1 then
      (if y.0 > n.0 then [UP_HALF] else if y.0 < n.0 then [DOWN_HALF] else "")
    else if y.0 == n.0 then
      (if y.1 > n.1 then [LEFT_HALF] else if y.1 < n.1 then [RIGHT_HALF] else "")
    else ""
  }

  /** `__get_line_given_3_positions`: the tag of cell y, given the cell before
      it (None at the start of the path) and the cell after it (None at the
      end). The source reads a missing neighbour's coordinates when both are
      None, so one of them must be given. */
  function LineGiven3(x: Option<Pos>, y: Pos, z: Option<Pos>): string
    requires x.Some? || z.Some?
  {
    if x.None? then HalfLine(y, z.value)
    else if z.None? then HalfLine(y, x.value)
    else
      var x, z := x.value, z.value;
      if x.1 != z.1 && x.0 != z.0 then TurnedLine(x, y, z)
      else if x.0 == z.0 then (if x.1 < z.1 then [RIGHT] else if x.1 > z.1 then [LEFT] else "")
      else (if x.0 < z.0 then [DOWN] else if x.0 > z.0 then [UP] else "")
  }

  /** The tag the loop of `get_lines_by_position` computes for cell k. */
  function LineAt(ps: seq<Pos>, k: int): string
    requires |ps| >= 2 && 0 <= k < |ps|
  {
    if k == 0 then LineGiven3(None, ps[k], Some(ps[k + 1]))
    else if k == |ps| - 1 then LineGiven3(Some(ps[k - 1]), ps[k], None)
    else LineGiven3(Some(ps[k - 1]), ps[k], Some(ps[k + 1]))
  }

  /** The tags of the first n cells, laid end to end. */
  function LinesUpTo(ps: seq<Pos>, n: int): string
    requires |ps| >= 2 && 0 <= n <= |ps|
  {
    if n == 0 then "" else LinesUpTo(ps, n - 1) + LineAt(ps, n - 1)
  }

  /** The string `get_lines_by_position` builds for a list of cells. */
  function LinesOf(ps: seq<Pos>): string
    requires |ps| != 1
  {
    if ps == [] then "" else LinesUpTo(ps, |ps|)
  }

  /** `get_lines_by_position`. A one-cell list makes the source index past
      its end, so that input is excluded. */
  method GetLinesByPosition(positions: seq<Pos>) returns (lines: string)
    requires |positions| != 1
    ensures lines == LinesOf(positions)
  {
    lines := "";
    var x, y, z := -1, 0, 1;
    while y <= |positions| - 1
      invariant 0 <= y <= |positions| && x == y - 1 && z == y + 1
      invariant positions != [] ==> lines == LinesUpTo(positions, y)
      invariant positions == [] ==> lines == ""
    {
      var currentLine: string;
      if y == 0 {
        currentLine := LineGiven3(None, positions[y], Some(positions[z]));
      } else if y == |positions| - 1 {
        currentLine := LineGiven3(Some(positions[x]), positions[y], None);
      } else {
        currentLine := LineGiven3(Some(positions[x]), positions[y], Some(positions[z]));
      }
      lines := lines + currentLine;
      x, y, z := x + 1, y + 1, z + 1;
    }
  }

  // ---------------------------------------------------------------------------
  // What the tags mean

  /** A path of cells: each next to the one before, never stepping straight
      back. */
  predicate PathLike(ps: seq<Pos>) {
    (forall k :: 0 <= k < |ps| - 1 ==> Adjacent(ps[k], ps[k + 1])) &&
    (forall k :: 0 <= k < |ps| - 2 ==> ps[k] != ps[k + 2])
  }

  /** The sides of cell k of a path that lead to its neighbours on the path. */
  function Neighbours(ps: seq<Pos>, k: int): set<char>
    requires 0 <= k < |ps|
  {
    (if k > 0 then {Toward(ps[k], ps[k - 1])} else {}) +
    (if k < |ps| - 1 then {Toward(ps[k], ps[k + 1])} else {})
  }

  /** One tag: a single character whose sides are exactly those toward the
      given neighbours. */
  lemma LineSides(x: Option<Pos>, y: Pos, z: Option<Pos>)
    requires x.Some? || z.Some?
    requires x.Some? ==> Adjacent(x.value, y)
    requires z.Some? ==> Adjacent(y, z.value)
    requires x.Some? && z.Some? ==> x.value != z.value
    ensures var l := LineGiven3(x, y, z);
      |l| == 1 &&
      Sides(l[0]) == (if x.Some? then {Toward(y, x.value)} else {}) + (if z.Some? then {Toward(y, z.value)} else {})
  {
  }

  /** The tag of cell k of a path is one character facing its neighbours. */
  lemma LineAtSides(ps: seq<Pos>, k: int)
    requires |ps| >= 2 && 0 <= k < |ps| && PathLike(ps)
    ensures |LineAt(ps, k)| == 1 && Sides(LineAt(ps, k)[0]) == Neighbours(ps, k)
  {
    if k == 0 {
      LineSides(None, ps[k], Some(ps[k + 1]));
    } else if k == |ps| - 1 {
      LineSides(Some(ps[k - 1]), ps[k], None);
    } else {
      LineSides(Some(ps[k - 1]), ps[k], Some(ps[k + 1]));
    }
  }

  lemma {:induction false} LinesUpToTags(ps: seq<Pos>, n: int)
    requires |ps| >= 2 && 0 <= n <= |ps| && PathLike(ps)
    ensures |LinesUpTo(ps, n)| == n
    ensures forall k :: 0 <= k < n ==> Sides(LinesUpTo(ps, n)[k]) == Neighbours(ps, k)
    decreases n
  {
    if n > 0 {
      LinesUpToTags(ps, n - 1);
      LineAtSides(ps, n - 1);
      var front, last := LinesUpTo(ps, n - 1), LineAt(ps, n - 1);
      assert LinesUpTo(ps, n) == front + last;
      forall k | 0 <= k < n
        ensures Sides(LinesUpTo(ps, n)[k]) == Neighbours(ps, k)
      {
        if k < n - 1 {
          assert LinesUpTo(ps, n)[k] == front[k];
        } else {
          assert LinesUpTo(ps, n)[k] == last[0];
        }
      }
    }
  }

  /** `get_lines_by_position` draws one tag per cell of a path, and each
      tag's line touches exactly the sides of its cell that face the cells
      before and after it: a half line at both ends, a straight segment or
      the right corner in between. */
  lemma TagsFollowPath(ps: seq<Pos>)
    requires |ps| >= 2 && PathLike(ps)
    ensures |LinesOf(ps)| == |ps|
    ensures forall k :: 0 <= k < |ps| ==> Sides(LinesOf(ps)[k]) == Neighbours(ps, k)
  {
    LinesUpToTags(ps, |ps|);
  }

  /** A route that joins two cells is drawn cell by cell along its walk: one
      tag for each cell it visits, each touching the sides toward the
      previous and next cells of the walk. */
  lemma RouteDrawing(g: Cells, p: Pos, q: Pos, route: string)
    requires Rect(g) && Connects(g, p, q, route)
    ensures var w := Walk(p, route);
      |LinesOf(w)| == |w| == |route| + 1 &&
      forall k :: 0 <= k < |w| ==> Sides(LinesOf(w)[k]) == Neighbours(w, k)
  {
    ConnectsWalk(g, p, q, route);
    TagsFollowPath(Walk(p, route));
  }
}
