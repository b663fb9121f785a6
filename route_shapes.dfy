/** Each route shape of model/board.py is sound: whenever it returns a
    non-empty string, that string joins the two tiles through empty cells
    (`Connects`), lands on an occupied cell, and has the number of turns the
    shape is drawn with. `__make_lines` therefore only ever returns routes
    with at most two turns, and it prefers the straight route and the
    one-turn routes to any detour. */
module RouteShapes {
  import opened Grid
  import opened Routes
  import opened RouteFacts

  /** What a shape promises about a route it returns. */
  predicate Found(g: Cells, i1: int, j1: int, i2: int, j2: int, r: string, turns: nat)
    requires Rect(g)
  {
    InGrid(g, i2, j2) && Crashed(g, i2, j2) && Connects(g, (i1, j1), (i2, j2), r) && Turns(r) == turns
  }

  // ---------------------------------------------------------------------------
  // Straight routes

  lemma {:induction false} ColumnFromRoute(g: Cells, i1: int, j1: int, i2: int, j2: int, i: int)
    requires Rect(g) && i1 < i && ColFree(g, j1, i1 + 1, i - 1)
    ensures var r := ColumnFrom(g, i1, j1, i2, j2, i);
      r != "" ==> i1 < i2 && j2 == j1 && ColFree(g, j1, i1 + 1, i2 - 1) && Found(g, i1, j1, i2, j2, r, 0)
    decreases |g| - i
  {
    var r := ColumnFrom(g, i1, j1, i2, j2, i);
    if InGrid(g, i, j1) {
      if Crashed(g, i, j1) {
        if r != "" {
          ColLeg(g, j1, i1, i2 - 1, true);
          OneRun(g, (i1, j1), DOWN, i2 - i1);
        }
      } else {
        assert ColFree(g, j1, i1 + 1, i);
        ColumnFromRoute(g, i1, j1, i2, j2, i + 1);
      }
    }
  }

  /** The walk down the column stops at the first occupied cell; when that is
      the lower tile, the straight route is returned. */
  lemma {:induction false} ColumnFromReaches(g: Cells, i1: int, j: int, i2: int, i: int)
    requires Rect(g) && i1 < i <= i2 && InGrid(g, i2, j) && Crashed(g, i2, j) && ColFree(g, j, i, i2 - 1)
    ensures ColumnFrom(g, i1, j, i2, j, i) == Run(DOWN, i2 - i1)
    decreases i2 - i
  {
    if i < i2 {
      ColumnFromReaches(g, i1, j, i2, i + 1);
    }
  }

  lemma {:induction false} RowFromRoute(g: Cells, i1: int, j1: int, i2: int, j2: int, left: bool, j: int)
    requires Rect(g)
    requires if left then j1 < j && RowFree(g, i1, j1 + 1, j - 1) else j < j1 && RowFree(g, i1, j + 1, j1 - 1)
    ensures var r := RowFrom(g, i1, j1, i2, j2, left, j);
      r != "" ==> (i2 == i1 && (left <==> j1 < j2) && j1 != j2 &&
        (if left then RowFree(g, i1, j1 + 1, j2 - 1) else RowFree(g, i1, j2 + 1, j1 - 1)) &&
        Found(g, i1, j1, i2, j2, r, 0))
    decreases if left then |g[0]| - j else j + 1
  {
    var r := RowFrom(g, i1, j1, i2, j2, left, j);
    if InGrid(g, i1, j) {
      if Crashed(g, i1, j) {
        if r != "" {
          RowLeg(g, i1, j1, if left then j2 - 1 else j2 + 1, left);
          OneRun(g, (i1, j1), HDir(left), Abs(j2 - j1));
        }
      } else if left {
        assert RowFree(g, i1, j1 + 1, j);
        RowFromRoute(g, i1, j1, i2, j2, left, j + 1);
      } else {
        assert RowFree(g, i1, j, j1 - 1);
        RowFromRoute(g, i1, j1, i2, j2, left, j - 1);
      }
    }
  }

  lemma {:induction false} RowFromReaches(g: Cells, i1: int, j1: int, j2: int, left: bool, j: int)
    requires Rect(g) && InGrid(g, i1, j2) && Crashed(g, i1, j2)
    requires if left then j1 < j <= j2 && RowFree(g, i1, j, j2 - 1) else j2 <= j < j1 && RowFree(g, i1, j2 + 1, j)
    ensures RowFrom(g, i1, j1, i1, j2, left, j) == Horizontal(left, Abs(j2 - j1))
    decreases if left then j2 - j else j - j2
  {
    if j != j2 {
      RowFromReaches(g, i1, j1, j2, left, if left then j + 1 else j - 1);
    }
  }

  // ---------------------------------------------------------------------------
  // Routes around a side: three legs, two turns

  /** Left, down the empty column j, right: a two-turn route. */
  lemma LeftSideFound(g: Cells, i1: int, j1: int, i2: int, j2: int, j: int)
    requires Rect(g) && InGrid(g, i2, j2) && i1 < i2 && j < j1 && RowFree(g, i1, j, j1 - 1)
    requires ColFree(g, j, i1 + 1, i2) && RowReaches(g, i2, j, j2, true)
    ensures Found(g, i1, j1, i2, j2, Run(LEFT, Abs(j1 - j)) + Run(DOWN, Abs(i2 - i1)) + Run(RIGHT, j2 - j), 2)
  {
    RowLeg(g, i1, j1, j, false);
    ColLeg(g, j, i1, i2, true);
    RowLeg(g, i2, j, j2 - 1, true);
    ThreeRuns(g, (i1, j1), LEFT, j1 - j, DOWN, i2 - i1, RIGHT, j2 - j);
  }

  lemma {:induction false} LeftSideFromRoute(g: Cells, i1: int, j1: int, i2: int, j2: int, j: int)
    requires Rect(g) && InGrid(g, i2, j2) && i1 < i2 && j < j1 && RowFree(g, i1, j + 1, j1 - 1)
    ensures var r := LeftSideFrom(g, i1, j1, i2, j2, j); r != "" ==> Found(g, i1, j1, i2, j2, r, 2)
    decreases j + 1
  {
    if InGrid(g, i1, j) && !Crashed(g, i1, j) {
      assert RowFree(g, i1, j, j1 - 1);
      if ColFree(g, j, i1 + 1, i2) && RowReaches(g, i2, j, j2, true) {
        LeftSideFound(g, i1, j1, i2, j2, j);
      } else {
        LeftSideFromRoute(g, i1, j1, i2, j2, j - 1);
      }
    }
  }

  /** Right, down the empty column j, left: a two-turn route. */
  lemma RightSideFound(g: Cells, i1: int, j1: int, i2: int, j2: int, j: int)
    requires Rect(g) && InGrid(g, i2, j2) && i1 < i2 && j1 < j && RowFree(g, i1, j1 + 1, j)
    requires ColFree(g, j, i1 + 1, i2) && RowReaches(g, i2, j, j2, false)
    ensures Found(g, i1, j1, i2, j2, Run(RIGHT, Abs(j - j1)) + Run(DOWN, Abs(i2 - i1)) + Run(LEFT, Abs(j - j2)), 2)
  {
    RowLeg(g, i1, j1, j, true);
    ColLeg(g, j, i1, i2, true);
    RowLeg(g, i2, j, j2 + 1, false);
    ThreeRuns(g, (i1, j1), RIGHT, j - j1, DOWN, i2 - i1, LEFT, j - j2);
  }

  lemma {:induction false} RightSideFromRoute(g: Cells, i1: int, j1: int, i2: int, j2: int, j: int)
    requires Rect(g) && InGrid(g, i2, j2) && i1 < i2 && j1 < j && RowFree(g, i1, j1 + 1, j - 1)
    ensures var r := RightSideFrom(g, i1, j1, i2, j2, j); r != "" ==> Found(g, i1, j1, i2, j2, r, 2)
    decreases |g[0]| - j
  {
    if InGrid(g, i1, j) && !Crashed(g, i1, j) {
      assert RowFree(g, i1, j1 + 1, j);
      if ColFree(g, j, i1 + 1, i2) && RowReaches(g, i2, j, j2, false) {
        RightSideFound(g, i1, j1, i2, j2, j);
      } else {
        RightSideFromRoute(g, i1, j1, i2, j2, j + 1);
      }
    }
  }

  /** `__to_left_right_side` only returns two-turn routes to an occupied cell. */
  lemma ToLeftRightSideRoute(g: Cells, i1: int, j1: int, i2: int, j2: int)
    requires Rect(g) && InGrid(g, i2, j2) && i1 < i2
    ensures var r := ToLeftRightSide(g, i1, j1, i2, j2); r != "" ==> Found(g, i1, j1, i2, j2, r, 2)
  {
    LeftSideFromRoute(g, i1, j1, i2, j2, j1 - 1);
    RightSideFromRoute(g, i1, j1, i2, j2, j1 + 1);
  }

  /** Up the first column, across the empty row i, down: a two-turn route. */
  lemma UpSideFound(g: Cells, i1: int, j1: int, i2: int, j2: int, left: bool, i: int)
    requires Rect(g) && InGrid(g, i2, j2) && j1 != j2 && (left <==> j1 < j2)
    requires i < i1 && ColFree(g, j1, i, i1 - 1)
    requires HorizontalFree(g, i, j1, j2, left) && ColReachesDown(g, j2, i, i2)
    ensures Found(g, i1, j1, i2, j2, Run(UP, Abs(i1 - i)) + Horizontal(left, Abs(j2 - j1)) + Run(DOWN, Abs(i2 - i)), 2)
  {
    ColLeg(g, j1, i1, i, false);
    RowLeg(g, i, j1, j2, left);
    ColLeg(g, j2, i, i2 - 1, true);
    assert Move((i1, j1), UP, i1 - i) == (i, j1);
    assert Move((i, j1), HDir(left), Abs(j2 - j1)) == (i, j2);
    assert Horizontal(left, Abs(j2 - j1)) == Run(HDir(left), Abs(j2 - j1));
    ThreeRuns(g, (i1, j1), UP, i1 - i, HDir(left), Abs(j2 - j1), DOWN, i2 - i);
  }

  lemma {:induction false} UpSideFromRoute(g: Cells, i1: int, j1: int, i2: int, j2: int, left: bool, i: int)
    requires Rect(g) && InGrid(g, i2, j2) && j1 != j2 && (left <==> j1 < j2)
    requires i < i1 && ColFree(g, j1, i + 1, i1 - 1)
    ensures var r := UpSideFrom(g, i1, j1, i2, j2, left, i); r != "" ==> Found(g, i1, j1, i2, j2, r, 2)
    decreases i + 1
  {
    if InGrid(g, i, j1) && !Crashed(g, i, j1) {
      assert ColFree(g, j1, i, i1 - 1);
      if HorizontalFree(g, i, j1, j2, left) && ColReachesDown(g, j2, i, i2) {
        UpSideFound(g, i1, j1, i2, j2, left, i);
      } else {
        UpSideFromRoute(g, i1, j1, i2, j2, left, i - 1);
      }
    }
  }

  /** Down the first column, across the empty row i, up: a two-turn route. */
  lemma DownSideFound(g: Cells, i1: int, j1: int, i2: int, j2: int, left: bool, i: int)
    requires Rect(g) && InGrid(g, i2, j2) && j1 != j2 && (left <==> j1 < j2)
    requires i1 < i && ColFree(g, j1, i1 + 1, i)
    requires HorizontalFree(g, i, j1, j2, left) && ColReachesUp(g, j2, i, i2)
    ensures Found(g, i1, j1, i2, j2, Run(DOWN, Abs(i - i1)) + Horizontal(left, Abs(j2 - j1)) + Run(UP, Abs(i - i2)), 2)
  {
    ColLeg(g, j1, i1, i, true);
    RowLeg(g, i, j1, j2, left);
    ColLeg(g, j2, i, i2 + 1, false);
    assert Move((i1, j1), DOWN, i - i1) == (i, j1);
    assert Move((i, j1), HDir(left), Abs(j2 - j1)) == (i, j2);
    assert Horizontal(left, Abs(j2 - j1)) == Run(HDir(left), Abs(j2 - j1));
    ThreeRuns(g, (i1, j1), DOWN, i - i1, HDir(left), Abs(j2 - j1), UP, i - i2);
  }

  lemma {:induction false} DownSideFromRoute(g: Cells, i1: int, j1: int, i2: int, j2: int, left: bool, i: int)
    requires Rect(g) && InGrid(g, i2, j2) && j1 != j2 && (left <==> j1 < j2)
    requires i1 < i && ColFree(g, j1, i1 + 1, i - 1)
    ensures var r := DownSideFrom(g, i1, j1, i2, j2, left, i); r != "" ==> Found(g, i1, j1, i2, j2, r, 2)
    decreases |g| - i
  {
    if InGrid(g, i, j1) && !Crashed(g, i, j1) {
      assert ColFree(g, j1, i1 + 1, i);
      if HorizontalFree(g, i, j1, j2, left) && ColReachesUp(g, j2, i, i2) {
        DownSideFound(g, i1, j1, i2, j2, left, i);
      } else {
        DownSideFromRoute(g, i1, j1, i2, j2, left, i + 1);
      }
    }
  }

  /** `__to_up_down_side` only returns two-turn routes to an occupied cell. */
  lemma ToUpDownSideRoute(g: Cells, i1: int, j1: int, i2: int, j2: int, left: bool)
    requires Rect(g) && InGrid(g, i2, j2) && j1 != j2 && (left <==> j1 < j2)
    ensures var r := ToUpDownSide(g, i1, j1, i2, j2, left); r != "" ==> Found(g, i1, j1, i2, j2, r, 2)
  {
    UpSideFromRoute(g, i1, j1, i2, j2, left, i1 - 1);
    DownSideFromRoute(g, i1, j1, i2, j2, left, i1 + 1);
  }

  // ---------------------------------------------------------------------------
  // One-turn routes and stairs

  /** Along the upper tile's row, then down the lower tile's column. */
  lemma AcrossDownFound(g: Cells, i1: int, j1: int, i2: int, j2: int, toLeft: bool)
    requires Rect(g) && InGrid(g, i2, j2) && i1 < i2 && j1 != j2 && (toLeft <==> j1 < j2)
    requires HorizontalFree(g, i1, j1, j2, toLeft) && ColReachesDown(g, j2, i1, i2)
    ensures Found(g, i1, j1, i2, j2, Horizontal(toLeft, Abs(j2 - j1)) + Run(DOWN, Abs(i2 - i1)), 1)
  {
    RowLeg(g, i1, j1, j2, toLeft);
    ColLeg(g, j2, i1, i2 - 1, true);
    TwoRuns(g, (i1, j1), HDir(toLeft), Abs(j2 - j1), DOWN, i2 - i1);
  }

  /** Down the upper tile's column, then along the lower tile's row. */
  lemma DownAcrossFound(g: Cells, i1: int, j1: int, i2: int, j2: int, toLeft: bool)
    requires Rect(g) && InGrid(g, i2, j2) && i1 < i2 && j1 != j2 && (toLeft <==> j1 < j2)
    requires ColFree(g, j1, i1 + 1, i2) && RowReaches(g, i2, j1, j2, toLeft)
    ensures Found(g, i1, j1, i2, j2, Run(DOWN, Abs(i2 - i1)) + Horizontal(toLeft, Abs(j2 - j1)), 1)
  {
    ColLeg(g, j1, i1, i2, true);
    RowLeg(g, i2, j1, if toLeft then j2 - 1 else j2 + 1, toLeft);
    TwoRuns(g, (i1, j1), DOWN, i2 - i1, HDir(toLeft), Abs(j2 - j1));
  }

  /** `__border_side_lines` only returns one-turn routes to an occupied cell. */
  lemma BorderSideLinesRoute(g: Cells, i1: int, j1: int, i2: int, j2: int, toLeft: bool)
    requires Rect(g) && InGrid(g, i2, j2) && i1 < i2 && j1 != j2 && (toLeft <==> j1 < j2)
    ensures var r := BorderSideLines(g, i1, j1, i2, j2, toLeft); r != "" ==> Found(g, i1, j1, i2, j2, r, 1)
  {
    if HorizontalFree(g, i1, j1, j2, toLeft) && ColReachesDown(g, j2, i1, i2) {
      AcrossDownFound(g, i1, j1, i2, j2, toLeft);
    } else if ColFree(g, j1, i1 + 1, i2) && RowReaches(g, i2, j1, j2, toLeft) {
      DownAcrossFound(g, i1, j1, i2, j2, toLeft);
    }
  }

  /** Down, across the empty row i, down again: a two-turn route. */
  lemma StairDownFound(g: Cells, i1: int, j1: int, i2: int, j2: int, toLeft: bool, i: int)
    requires Rect(g) && InGrid(g, i2, j2) && j1 != j2 && (toLeft <==> j1 < j2)
    requires i1 < i && ColFree(g, j1, i1 + 1, i)
    requires HorizontalFree(g, i, j1, j2, toLeft) && ColReachesDown(g, j2, i, i2)
    ensures Found(g, i1, j1, i2, j2, Run(DOWN, Abs(i - i1)) + Horizontal(toLeft, Abs(j2 - j1)) + Run(DOWN, Abs(i2 - i)), 2)
  {
    ColLeg(g, j1, i1, i, true);
    RowLeg(g, i, j1, j2, toLeft);
    ColLeg(g, j2, i, i2 - 1, true);
    assert Move((i1, j1), DOWN, i - i1) == (i, j1);
    assert Move((i, j1), HDir(toLeft), Abs(j2 - j1)) == (i, j2);
    assert Horizontal(toLeft, Abs(j2 - j1)) == Run(HDir(toLeft), Abs(j2 - j1));
    ThreeRuns(g, (i1, j1), DOWN, i - i1, HDir(toLeft), Abs(j2 - j1), DOWN, i2 - i);
  }

  lemma {:induction false} StairDownFromRoute(g: Cells, i1: int, j1: int, i2: int, j2: int, toLeft: bool, i: int)
    requires Rect(g) && InGrid(g, i2, j2) && j1 != j2 && (toLeft <==> j1 < j2)
    requires i1 < i && ColFree(g, j1, i1 + 1, i - 1)
    ensures var r := StairDownFrom(g, i1, j1, i2, j2, toLeft, i); r != "" ==> Found(g, i1, j1, i2, j2, r, 2)
    decreases |g| - i
  {
    if InGrid(g, i, j1) && !Crashed(g, i, j1) {
      assert ColFree(g, j1, i1 + 1, i);
      if HorizontalFree(g, i, j1, j2, toLeft) && ColReachesDown(g, j2, i, i2) {
        StairDownFound(g, i1, j1, i2, j2, toLeft, i);
      } else {
        StairDownFromRoute(g, i1, j1, i2, j2, toLeft, i + 1);
      }
    }
  }

  /** Across, down the empty column j, across again: a two-turn route. */
  lemma StairSideFound(g: Cells, i1: int, j1: int, i2: int, j2: int, toLeft: bool, j: int)
    requires Rect(g) && InGrid(g, i2, j2) && i1 < i2
    requires if toLeft then j1 < j && RowFree(g, i1, j1 + 1, j) else j < j1 && RowFree(g, i1, j, j1 - 1)
    requires ColFree(g, j, i1 + 1, i2) && RowReaches(g, i2, j, j2, toLeft)
    ensures Found(g, i1, j1, i2, j2, Horizontal(toLeft, Abs(j - j1)) + Run(DOWN, Abs(i2 - i1)) + Horizontal(toLeft, Abs(j2 - j)), 2)
  {
    RowLeg(g, i1, j1, j, toLeft);
    ColLeg(g, j, i1, i2, true);
    RowLeg(g, i2, j, if toLeft then j2 - 1 else j2 + 1, toLeft);
    ThreeRuns(g, (i1, j1), HDir(toLeft), Abs(j - j1), DOWN, i2 - i1, HDir(toLeft), Abs(j2 - j));
  }

  lemma {:induction false} StairSideFromRoute(g: Cells, i1: int, j1: int, i2: int, j2: int, toLeft: bool, j: int)
    requires Rect(g) && InGrid(g, i2, j2) && i1 < i2
    requires if toLeft then j1 < j && RowFree(g, i1, j1 + 1, j - 1) else j < j1 && RowFree(g, i1, j + 1, j1 - 1)
    ensures var r := StairSideFrom(g, i1, j1, i2, j2, toLeft, j); r != "" ==> Found(g, i1, j1, i2, j2, r, 2)
    decreases if toLeft then |g[0]| - j else j + 1
  {
    if InGrid(g, i1, j) && !Crashed(g, i1, j) {
      assert if toLeft then RowFree(g, i1, j1 + 1, j) else RowFree(g, i1, j, j1 - 1);
      if ColFree(g, j, i1 + 1, i2) && RowReaches(g, i2, j, j2, toLeft) {
        StairSideFound(g, i1, j1, i2, j2, toLeft, j);
      } else {
        StairSideFromRoute(g, i1, j1, i2, j2, toLeft, if toLeft then j + 1 else j - 1);
      }
    }
  }

  /** `__stair_side` only returns two-turn routes to an occupied cell. */
  lemma StairSideRoute(g: Cells, i1: int, j1: int, i2: int, j2: int, toLeft: bool)
    requires Rect(g) && InGrid(g, i2, j2) && i1 < i2 && j1 != j2 && (toLeft <==> j1 < j2)
    ensures var r := StairSide(g, i1, j1, i2, j2, toLeft); r != "" ==> Found(g, i1, j1, i2, j2, r, 2)
  {
    StairDownFromRoute(g, i1, j1, i2, j2, toLeft, i1 + 1);
    StairSideFromRoute(g, i1, j1, i2, j2, toLeft, if toLeft then j1 + 1 else j1 - 1);
  }

  // ---------------------------------------------------------------------------
  // `__make_lines`

  /** Every route `__make_lines` returns joins two distinct cells holding the
      same tile, the first not below the second, through empty cells only,
      with at most two turns. */
  lemma MakeLinesRoute(g: Cells, i1: int, j1: int, i2: int, j2: int)
    requires Rect(g) && InGrid(g, i1, j1) && InGrid(g, i2, j2)
    ensures var r := MakeLines(g, i1, j1, i2, j2);
      r != "" ==> (i1 <= i2 && (i1, j1) != (i2, j2) && g[i1][j1] == g[i2][j2] != EMPTY &&
        Connects(g, (i1, j1), (i2, j2), r) && Turns(r) <= 2)
  {
    if g[i1][j1] == g[i2][j2] {
      if i1 < i2 {
        if j1 == j2 {
          ColumnFromRoute(g, i1, j1, i2, j2, i1 + 1);
          ToLeftRightSideRoute(g, i1, j1, i2, j2);
        } else {
          BorderSideLinesRoute(g, i1, j1, i2, j2, j1 < j2);
          StairSideRoute(g, i1, j1, i2, j2, j1 < j2);
          ToLeftRightSideRoute(g, i1, j1, i2, j2);
          ToUpDownSideRoute(g, i1, j1, i2, j2, j1 < j2);
        }
      } else if i1 == i2 && j1 != j2 {
        RowFromRoute(g, i1, j1, i2, j2, j1 < j2, if j1 < j2 then j1 + 1 else j1 - 1);
        ToUpDownSideRoute(g, i1, j1, i2, j2, j1 < j2);
      }
    }
  }

  /** Two matching tiles one above the other with only empty cells between
      them are always joined by the straight route. */
  lemma StraightColumnFirst(g: Cells, i1: int, j: int, i2: int)
    requires Rect(g) && InGrid(g, i1, j) && InGrid(g, i2, j) && i1 < i2
    requires g[i1][j] == g[i2][j] != EMPTY && ColFree(g, j, i1 + 1, i2 - 1)
    ensures MakeLines(g, i1, j, i2, j) == Run(DOWN, i2 - i1)
  {
    ColumnFromReaches(g, i1, j, i2, i1 + 1);
  }

  /** Two matching tiles in one row with only empty cells between them are
      always joined by the straight route. */
  lemma StraightRowFirst(g: Cells, i: int, j1: int, j2: int)
    requires Rect(g) && InGrid(g, i, j1) && InGrid(g, i, j2) && j1 != j2
    requires g[i][j1] == g[i][j2] != EMPTY
    requires if j1 < j2 then RowFree(g, i, j1 + 1, j2 - 1) else RowFree(g, i, j2 + 1, j1 - 1)
    ensures MakeLines(g, i, j1, i, j2) == Horizontal(j1 < j2, Abs(j2 - j1))
  {
    RowFromReaches(g, i, j1, j2, j1 < j2, if j1 < j2 then j1 + 1 else j1 - 1);
  }

  /** When one of the two one-turn routes between matching tiles on
      different rows and columns is clear, `__make_lines` returns a one-turn
      route: it never prefers a two-turn detour. */
  lemma OneTurnFirst(g: Cells, i1: int, j1: int, i2: int, j2: int)
    requires Rect(g) && InGrid(g, i1, j1) && InGrid(g, i2, j2) && i1 < i2 && j1 != j2
    requires g[i1][j1] == g[i2][j2] != EMPTY
    requires (HorizontalFree(g, i1, j1, j2, j1 < j2) && ColFree(g, j2, i1 + 1, i2 - 1)) ||
             (ColFree(g, j1, i1 + 1, i2) && (if j1 < j2 then RowFree(g, i2, j1 + 1, j2 - 1) else RowFree(g, i2, j2 + 1, j1 - 1)))
    ensures var r := MakeLines(g, i1, j1, i2, j2); r != "" && Turns(r) == 1
  {
    BorderSideLinesRoute(g, i1, j1, i2, j2, j1 < j2);
  }
}
