/** What the routes of `__make_lines` mean on the grid: every non-empty route
    leads from the first tile to the second through empty cells only, one
    unit step per character, with at most two turns; the straight route and
    the one-turn routes are preferred to any detour. */
module RouteFacts {
  import opened Grid
  import opened Routes

  /** Two cells side by side or one above the other. */
  predicate Adjacent(a: Pos, b: Pos) {
    Abs(a.0 - b.0) + Abs(a.1 - b.1) == 1
  }

  /** The horizontal direction toward the right when `right`. */
  function HDir(right: bool): char {
    if right then RIGHT else LEFT
  }

  /** The vertical direction downward when `down`. */
  function VDir(down: bool): char {
    if down then DOWN else UP
  }

  /** The cells p + k steps in direction c, lo <= k <= hi, are free. */
  predicate LegFree(g: Cells, p: Pos, c: char, lo: int, hi: int)
    requires Rect(g)
  {
    forall k :: lo <= k <= hi ==> Free(g, Move(p, c, k))
  }

  predicate NoReversal(r: string) {
    forall k :: 0 <= k < |r| - 1 ==> !Opposite(r[k], r[k + 1])
  }

  predicate Directions(r: string) {
    forall k :: 0 <= k < |r| ==> IsDirection(r[k])
  }

  // ---------------------------------------------------------------------------
  // Walks

  lemma {:induction false} WalkShape(p: Pos, route: string)
    ensures var w := Walk(p, route);
      |w| == |route| + 1 && w[0] == p && w[|route|] == End(p, route) &&
      forall k :: 0 <= k < |route| ==> w[k + 1] == Step(w[k], route[k])
    decreases |route|
  {
    if route != [] {
      WalkShape(Step(p, route[0]), route[1..]);
      var w := Walk(p, route);
      var w' := Walk(Step(p, route[0]), route[1..]);
      assert w == [p] + w';
      forall k | 0 <= k < |route|
        ensures w[k + 1] == Step(w[k], route[k])
      {
        if k > 0 {
          assert w[k + 1] == w'[k] && w[k] == w'[k - 1] && route[k] == route[1..][k - 1];
        }
      }
    }
  }

  lemma {:induction false} ClearInteriorCells(g: Cells, p: Pos, route: string)
    requires Rect(g) && ClearInterior(g, p, route)
    ensures forall k :: 0 < k < |route| ==> Free(g, Walk(p, route)[k])
    decreases |route|
  {
    if |route| > 1 {
      var q := Step(p, route[0]);
      ClearInteriorCells(g, q, route[1..]);
      var w := Walk(p, route);
      assert w == [p] + Walk(q, route[1..]);
      WalkShape(q, route[1..]);
      forall k | 0 < k < |route|
        ensures Free(g, w[k])
      {
        if k > 1 {
          assert w[k] == Walk(q, route[1..])[k - 1];
        } else {
          assert w[1] == Walk(q, route[1..])[0] == q;
        }
      }
    }
  }

  lemma StepAdjacent(p: Pos, c: char)
    requires IsDirection(c)
    ensures Adjacent(p, Step(p, c))
  {
  }

  /** A route found by the engine, read as the list of cells
      `__get_positions_by_line` turns it into (model/board.py:483-497):
      it starts at the first tile, ends at the second, moves one unit step
      at a time, never doubles back, and every cell strictly between the
      two tiles is an empty cell of the grid. */
  lemma ConnectsWalk(g: Cells, p: Pos, q: Pos, route: string)
    requires Rect(g) && Connects(g, p, q, route)
    ensures var w := Walk(p, route);
      |w| == |route| + 1 && w[0] == p && w[|w| - 1] == q &&
      (forall k :: 0 <= k < |w| - 1 ==> Adjacent(w[k], w[k + 1])) &&
      (forall k :: 0 < k < |w| - 1 ==> Free(g, w[k])) &&
      (forall k :: 0 <= k < |w| - 2 ==> w[k] != w[k + 2])
  {
    var w := Walk(p, route);
    WalkShape(p, route);
    ClearInteriorCells(g, p, route);
    forall k | 0 <= k < |w| - 1
      ensures Adjacent(w[k], w[k + 1])
    {
      StepAdjacent(w[k], route[k]);
    }
    forall k | 0 <= k < |w| - 2
      ensures w[k] != w[k + 2]
    {
      assert w[k + 1] == Step(w[k], route[k]);
      assert w[k + 2] == Step(w[k + 1], route[k + 1]);
      assert !Opposite(route[k], route[k + 1]);
    }
  }

  // ---------------------------------------------------------------------------
  // Routes made of straight runs

  lemma {:induction false} EndAppend(p: Pos, a: string, b: string)
    ensures End(p, a + b) == End(End(p, a), b)
    decreases |a|
  {
    if a == [] {
      assert a + b == b;
    } else {
      assert (a + b)[0] == a[0] && (a + b)[1..] == a[1..] + b;
      EndAppend(Step(p, a[0]), a[1..], b);
    }
  }

  lemma {:induction false} ClearAppend(g: Cells, p: Pos, a: string, b: string)
    requires Rect(g) && a != [] && ClearInterior(g, p, a)
    requires b != [] ==> Free(g, End(p, a))
    requires ClearInterior(g, End(p, a), b)
    ensures ClearInterior(g, p, a + b)
    decreases |a|
  {
    assert (a + b)[0] == a[0] && (a + b)[1..] == a[1..] + b;
    if |a| == 1 {
      assert a[1..] == [] && a[1..] + b == b;
      assert End(p, a) == End(Step(p, a[0]), []);
    } else {
      ClearAppend(g, Step(p, a[0]), a[1..], b);
    }
  }

  lemma {:induction false} RunLeg(g: Cells, p: Pos, c: char, n: int)
    requires Rect(g) && IsDirection(c) && n >= 1 && LegFree(g, p, c, 1, n - 1)
    ensures ClearInterior(g, p, Run(c, n)) && End(p, Run(c, n)) == Move(p, c, n)
    decreases n
  {
    var r := Run(c, n);
    var q := Step(p, c);
    assert r[0] == c && r[1..] == Run(c, n - 1);
    assert q == Move(p, c, 1);
    if n > 1 {
      forall k | 1 <= k <= n - 2
        ensures Free(g, Move(q, c, k))
      {
        assert Move(q, c, k) == Move(p, c, k + 1);
      }
      RunLeg(g, q, c, n - 1);
      assert Move(q, c, n - 1) == Move(p, c, n);
    } else {
      assert r[1..] == [];
    }
  }

  lemma {:induction false} TurnsRunPrefix(c: char, n: int, rest: string)
    requires n >= 1
    ensures Turns(Run(c, n) + rest) == Turns([c] + rest)
    decreases n
  {
    if n > 1 {
      var s := Run(c, n) + rest;
      assert s[0] == c && s[1] == c;
      assert s[1..] == Run(c, n - 1) + rest;
      TurnsRunPrefix(c, n - 1, rest);
    } else {
      assert Run(c, n) == [c];
    }
  }

  lemma TurnsCons(c: char, rest: string)
    ensures Turns([c] + rest) == (if rest != [] && rest[0] != c then 1 else 0) + Turns(rest)
  {
    assert ([c] + rest)[1..] == rest;
  }

  lemma TurnsRun(c: char, n: int)
    requires n >= 1
    ensures Turns(Run(c, n)) == 0
  {
    TurnsRunPrefix(c, n, []);
    assert Run(c, n) + [] == Run(c, n);
    assert [c] + [] == [c];
  }

  /** One straight run. */
  lemma OneRun(g: Cells, p: Pos, c: char, n: int)
    requires Rect(g) && IsDirection(c) && n >= 1
    requires LegFree(g, p, c, 1, n - 1)
    ensures Connects(g, p, Move(p, c, n), Run(c, n)) && Turns(Run(c, n)) == 0
  {
    RunLeg(g, p, c, n);
    TurnsRun(c, n);
  }

  /** Two straight runs at a right angle: a route with one turn. */
  lemma TwoRuns(g: Cells, p: Pos, c1: char, n1: int, c2: char, n2: int)
    requires Rect(g) && Perpendicular(c1, c2) && n1 >= 1 && n2 >= 1
    requires LegFree(g, p, c1, 1, n1)
    requires LegFree(g, Move(p, c1, n1), c2, 1, n2 - 1)
    ensures var r := Run(c1, n1) + Run(c2, n2);
      Connects(g, p, Move(Move(p, c1, n1), c2, n2), r) && Turns(r) == 1
  {
    var p1 := Move(p, c1, n1);
    var a, b := Run(c1, n1), Run(c2, n2);
    var r := a + b;
    RunLeg(g, p, c1, n1);
    RunLeg(g, p1, c2, n2);
    ClearAppend(g, p, a, b);
    EndAppend(p, a, b);
    TurnsRunPrefix(c1, n1, b);
    TurnsCons(c1, b);
    TurnsRun(c2, n2);
    forall k | 0 <= k < |r| - 1
      ensures !Opposite(r[k], r[k + 1])
    {
      if k + 1 < n1 {
        assert r[k] == c1 && r[k + 1] == c1;
      } else if k + 1 == n1 {
        assert r[k] == c1 && r[k + 1] == c2;
      } else {
        assert r[k] == c2 && r[k + 1] == c2;
      }
    }
  }

  /** Three straight runs, each at a right angle to the next: a route with two turns. */
  lemma ThreeRuns(g: Cells, p: Pos, c1: char, n1: int, c2: char, n2: int, c3: char, n3: int)
    requires Rect(g) && Perpendicular(c1, c2) && Perpendicular(c2, c3) && n1 >= 1 && n2 >= 1 && n3 >= 1
    requires LegFree(g, p, c1, 1, n1)
    requires LegFree(g, Move(p, c1, n1), c2, 1, n2)
    requires LegFree(g, Move(Move(p, c1, n1), c2, n2), c3, 1, n3 - 1)
    ensures var r := Run(c1, n1) + Run(c2, n2) + Run(c3, n3);
      Connects(g, p, Move(Move(Move(p, c1, n1), c2, n2), c3, n3), r) && Turns(r) == 2
  {
    var p1 := Move(p, c1, n1);
    var p2 := Move(p1, c2, n2);
    var a, b, c := Run(c1, n1), Run(c2, n2), Run(c3, n3);
    var r := a + b + c;
    assert r == a + (b + c);
    RunLeg(g, p, c1, n1);
    RunLeg(g, p1, c2, n2);
    RunLeg(g, p2, c3, n3);
    ClearAppend(g, p1, b, c);
    EndAppend(p1, b, c);
    ClearAppend(g, p, a, b + c);
    EndAppend(p, a, b + c);
    TurnsRunPrefix(c1, n1, b + c);
    TurnsCons(c1, b + c);
    TurnsRunPrefix(c2, n2, c);
    TurnsCons(c2, c);
    TurnsRun(c3, n3);
    ThreeRunsNoReversal(c1, n1, c2, n2, c3, n3);
  }

  /** Three runs, each at a right angle to the next, never reverse. */
  lemma ThreeRunsNoReversal(c1: char, n1: int, c2: char, n2: int, c3: char, n3: int)
    requires Perpendicular(c1, c2) && Perpendicular(c2, c3) && n1 >= 1 && n2 >= 1 && n3 >= 1
    ensures NoReversal(Run(c1, n1) + Run(c2, n2) + Run(c3, n3))
  {
    var r := Run(c1, n1) + Run(c2, n2) + Run(c3, n3);
    forall k | 0 <= k < |r| - 1
      ensures !Opposite(r[k], r[k + 1])
    {
      if k + 1 < n1 {
        assert r[k] == c1 && r[k + 1] == c1;
      } else if k + 1 == n1 {
        assert r[k] == c1 && r[k + 1] == c2;
      } else if k + 1 < n1 + n2 {
        assert r[k] == c2 && r[k + 1] == c2;
      } else if k + 1 == n1 + n2 {
        assert r[k] == c2 && r[k + 1] == c3;
      } else {
        assert r[k] == c3 && r[k + 1] == c3;
      }
    }
  }

  /** A run along row i from column `from` to column `to` passes over the
      columns strictly after `from` up to `to`. */
  lemma RowLeg(g: Cells, i: int, from: int, to: int, right: bool)
    requires Rect(g) && (if right then from <= to else to <= from)
    requires if right then RowFree(g, i, from + 1, to) else RowFree(g, i, to, from - 1)
    ensures LegFree(g, (i, from), HDir(right), 1, Abs(to - from))
  {
    forall k | 1 <= k <= Abs(to - from)
      ensures Free(g, Move((i, from), HDir(right), k))
    {
      if right {
        assert Move((i, from), HDir(right), k) == (i, from + k);
      } else {
        assert Move((i, from), HDir(right), k) == (i, from - k);
      }
    }
  }

  /** A run along column j from row `from` to row `to` passes over the rows
      strictly after `from` up to `to`. */
  lemma ColLeg(g: Cells, j: int, from: int, to: int, down: bool)
    requires Rect(g) && (if down then from <= to else to <= from)
    requires if down then ColFree(g, j, from + 1, to) else ColFree(g, j, to, from - 1)
    ensures LegFree(g, (from, j), VDir(down), 1, Abs(to - from))
  {
    forall k | 1 <= k <= Abs(to - from)
      ensures Free(g, Move((from, j), VDir(down), k))
    {
      if down {
        assert Move((from, j), VDir(down), k) == (from + k, j);
      } else {
        assert Move((from, j), VDir(down), k) == (from - k, j);
      }
    }
  }
}
