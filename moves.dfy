/** What the board decides about moves (model/board.py:474-476, 500-529,
    546-593): whether some pair can be joined, which pair to advise, what a
    click on two cells does to the grid, and the reshuffling that makes a
    stuck board playable again. These are the specifications the methods of
    `Board` are proved against. */
module Moves {
  import opened Grid
  import opened Routes
  import opened RouteShapes
  import opened Shuffling
  import opened Dealing

  /** `ADVISED_TILE_ERROR`: what `get_advised_tile_pair` returns when no pair
      can be joined. */
  const ADVISED_TILE_ERROR: seq<Pos> := [(-1, -1), (-1, -1)]

  // ---------------------------------------------------------------------------
  // The pair of one id

  /** The first two cells of id v in row-major order, upper one first: what
      `__above_tile` makes of the list the scan files under v. */
  function PairOf(g: Cells, v: int): (r: (Pos, Pos))
    requires Rect(g) && |PositionsOf(g, v)| >= 2
    ensures InGrid(g, r.0.0, r.0.1) && InGrid(g, r.1.0, r.1.1)
    ensures g[r.0.0][r.0.1] == v && g[r.1.0][r.1.1] == v
    ensures r.0.0 <= r.1.0 && r.0 != r.1
  {
    var ps := PositionsOf(g, v);
    HoldingSorted(g, v, |g|, 0);
    assert Before(ps[0], ps[1]);
    AboveTile(ps[0], ps[1])
  }

  /** The route the scans try for id v ("" when v is not on the grid). */
  function PairRoute(g: Cells, v: int): string
    requires Rect(g)
  {
    if |PositionsOf(g, v)| < 2 then ""
    else
      var pq := PairOf(g, v);
      MakeLines(g, pq.0.0, pq.0.1, pq.1.0, pq.1.1)
  }

  /** Id v is on the grid and its two tiles can be joined. */
  predicate Playable(g: Cells, v: int)
    requires Rect(g)
  {
    PairRoute(g, v) != ""
  }

  /** `__is_possible_play`: some id of 0..n-1 can be joined. */
  predicate HasMove(g: Cells, n: int)
    requires Rect(g)
  {
    exists v :: 0 <= v < n && Playable(g, v)
  }

  /** The first id from v on that can be joined; n when there is none. The
      loops of `__is_possible_play` and `get_advised_tile_pair` stop there. */
  function FirstPlayable(g: Cells, n: int, v: int): int
    requires Rect(g)
    decreases n - v
  {
    if v >= n then n
    else if Playable(g, v) then v
    else FirstPlayable(g, n, v + 1)
  }

  /** `get_advised_tile_pair`. */
  function Advice(g: Cells, n: int): seq<Pos>
    requires Rect(g)
  {
    if !HasMove(g, n) then ADVISED_TILE_ERROR
    else
      var k := FirstPlayable(g, n, 0);
      FirstPlayableSpec(g, n, 0);
      if k < n then [PairOf(g, k).0, PairOf(g, k).1] else ADVISED_TILE_ERROR
  }

  /** A joined pair is a legal route: two different cells of the same id,
      the upper one first, linked through empty cells with at most two turns. */
  lemma PlayableRoute(g: Cells, v: int)
    requires Rect(g) && Playable(g, v)
    ensures var pq := PairOf(g, v);
      v != EMPTY && Connects(g, pq.0, pq.1, PairRoute(g, v)) && Turns(PairRoute(g, v)) <= 2
  {
    var pq := PairOf(g, v);
    MakeLinesRoute(g, pq.0.0, pq.0.1, pq.1.0, pq.1.1);
  }

  /** The scan stops at the smallest id from v on that can be joined. */
  lemma {:induction false} FirstPlayableSpec(g: Cells, n: int, v: int)
    requires Rect(g) && v <= n
    ensures var k := FirstPlayable(g, n, v);
      v <= k <= n && (k < n ==> Playable(g, k)) && forall u :: v <= u < k ==> !Playable(g, u)
    decreases n - v
  {
    if v < n && !Playable(g, v) {
      FirstPlayableSpec(g, n, v + 1);
    }
  }

  /** `get_advised_tile_pair` gives the error pair exactly when no id can be
      joined; otherwise it gives the pair of the smallest id that can. */
  lemma AdviceSpec(g: Cells, n: int)
    requires Rect(g)
    ensures var a := Advice(g, n);
      (a == ADVISED_TILE_ERROR <==> !HasMove(g, n)) &&
      (a != ADVISED_TILE_ERROR ==>
        exists v :: 0 <= v < n && Playable(g, v) && a == [PairOf(g, v).0, PairOf(g, v).1] &&
          forall u :: 0 <= u < v ==> !Playable(g, u))
  {
    if HasMove(g, n) {
      var w :| 0 <= w < n && Playable(g, w);
      FirstPlayableSpec(g, n, 0);
      var k := FirstPlayable(g, n, 0);
      assert k < n;
      assert PairOf(g, k).0.0 >= 0;
    }
  }

  // ---------------------------------------------------------------------------
  // A click on two cells

  /** The route `play_movement` finds for a click on (i1, j1) and (i2, j2):
      "" when a cell lies off the grid or the two differ, otherwise
      `__make_lines` from the upper cell to the other. */
  function MoveRoute(g: Cells, i1: int, j1: int, i2: int, j2: int): string
    requires Rect(g)
  {
    if !InGrid(g, i1, j1) || !InGrid(g, i2, j2) then ""
    else if g[i1][j1] != g[i2][j2] then ""
    else if i1 <= i2 then MakeLines(g, i1, j1, i2, j2)
    else MakeLines(g, i2, j2, i1, j1)
  }

  /** The cell a route of `play_movement` starts from: the upper one. */
  function MoveStart(i1: int, j1: int, i2: int, j2: int): Pos {
    if i1 <= i2 then (i1, j1) else (i2, j2)
  }

  /** The other cell of the click. */
  function MoveEnd(i1: int, j1: int, i2: int, j2: int): Pos {
    if i1 <= i2 then (i2, j2) else (i1, j1)
  }

  /** The grid once both clicked cells are emptied. */
  function Cleared(g: Cells, i1: int, j1: int, i2: int, j2: int): (r: Cells)
    requires Rect(g) && InGrid(g, i1, j1) && InGrid(g, i2, j2)
    ensures |r| == |g| && forall a :: 0 <= a < |g| ==> |r[a]| == |g[a]|
  {
    SetCell(SetCell(g, i1, j1, EMPTY), i2, j2, EMPTY)
  }

  /** A click succeeds only on two different cells of the same tile, joined
      from the upper one by a route through empty cells with at most two
      turns. */
  lemma MoveRouteSound(g: Cells, i1: int, j1: int, i2: int, j2: int)
    requires Rect(g)
    ensures var r := MoveRoute(g, i1, j1, i2, j2);
      r != "" ==>
        InGrid(g, i1, j1) && InGrid(g, i2, j2) && (i1, j1) != (i2, j2) &&
        g[i1][j1] == g[i2][j2] != EMPTY &&
        Connects(g, MoveStart(i1, j1, i2, j2), MoveEnd(i1, j1, i2, j2), r) && Turns(r) <= 2
  {
    if InGrid(g, i1, j1) && InGrid(g, i2, j2) {
      if i1 <= i2 {
        MakeLinesRoute(g, i1, j1, i2, j2);
      } else {
        MakeLinesRoute(g, i2, j2, i1, j1);
      }
    }
  }

  /** Clicking the advised pair is a successful move. */
  lemma AdviceIsMove(g: Cells, n: int)
    requires Rect(g) && Advice(g, n) != ADVISED_TILE_ERROR
    ensures var a := Advice(g, n);
      |a| == 2 && MoveRoute(g, a[0].0, a[0].1, a[1].0, a[1].1) != ""
  {
    AdviceSpec(g, n);
  }

  /** An id that can be joined is a click that succeeds. */
  lemma PlayableIsMove(g: Cells, v: int)
    requires Rect(g) && Playable(g, v)
    ensures var pq := PairOf(g, v);
      MoveRoute(g, pq.0.0, pq.0.1, pq.1.0, pq.1.1) == PairRoute(g, v)
  {
  }

  // ---------------------------------------------------------------------------
  // Keeping the deal

  /** Shuffling keeps a dealt board dealt, with as many tiles as before. */
  lemma ShuffleDealt(g: Cells, width: int, height: int, n: int, draws: seq<nat>)
    requires Dealt(g, width, height, n)
    ensures Dealt(ShuffleGrid(g, draws), width, height, n)
    ensures TileCount(ShuffleGrid(g, draws)) == TileCount(g)
  {
    assert Rect(g);
    ShuffleGridKeeps(g, draws);
    var r := ShuffleGrid(g, draws);
    forall v ensures Count(r, v) == Count(g, v) {
    }
  }

  /** Emptying the two cells of a tile removes that tile and nothing else. */
  lemma ClearDealt(g: Cells, width: int, height: int, n: int, i1: int, j1: int, i2: int, j2: int)
    requires Dealt(g, width, height, n) && Rect(g) && InGrid(g, i1, j1) && InGrid(g, i2, j2)
    requires (i1, j1) != (i2, j2) && g[i1][j1] == g[i2][j2] != EMPTY
    ensures var c := Cleared(g, i1, j1, i2, j2);
      Dealt(c, width, height, n) && TileCount(c) == TileCount(g) - 2 && Count(c, g[i1][j1]) == 0 &&
      c[i1][j1] == EMPTY && c[i2][j2] == EMPTY &&
      forall a, b :: 0 <= a < |g| && 0 <= b < |g[a]| && (a, b) != (i1, j1) && (a, b) != (i2, j2) ==> c[a][b] == g[a][b]
  {
    var t := g[i1][j1];
    var h := SetCell(g, i1, j1, EMPTY);
    ClearCellCount(g, i1, j1);
    assert h[i2][j2] == t;
    ClearCellCount(h, i2, j2);
    var c := Cleared(g, i1, j1, i2, j2);
    assert c == SetCell(h, i2, j2, EMPTY);
    CellInFlatten(g, i1, j1);
    assert Count(g, t) == 2;
    assert Count(c, t) == 0;
    forall v | v != EMPTY
      ensures Count(c, v) == 0 || (Count(c, v) == 2 && 0 <= v < n)
    {
      if v != t {
        assert Count(c, v) == Count(g, v);
      }
    }
  }

  // ---------------------------------------------------------------------------
  // `__generate_playable_board`

  /** The reshuffling loop: while no id can be joined, shuffle with the next
      round of random numbers. The source loops until a move exists; here the
      loop also stops when the supplied rounds run out. */
  function Settle(g: Cells, n: int, rounds: seq<seq<nat>>): (r: Cells)
    requires Rect(g)
    ensures Rect(r) && |r| == |g| && |r[0]| == |g[0]|
    decreases |rounds|
  {
    if HasMove(g, n) || rounds == [] then g
    else
      ShuffleGridKeeps(g, rounds[0]);
      Settle(ShuffleGrid(g, rounds[0]), n, rounds[1..])
  }

  /** Settling leaves a playable board untouched, and otherwise ends on a
      playable board unless every round was needed. */
  lemma {:induction false} SettleStops(g: Cells, n: int, rounds: seq<seq<nat>>)
    requires Rect(g)
    ensures HasMove(g, n) ==> Settle(g, n, rounds) == g
    ensures rounds == [] ==> Settle(g, n, rounds) == g
    ensures !HasMove(Settle(g, n, rounds), n) ==>
      forall k :: 0 <= k <= |rounds| ==> !HasMove(Settle(g, n, rounds[..k]), n) || k == |rounds|
    decreases |rounds|
  {
    if !HasMove(g, n) && rounds != [] {
      var s := ShuffleGrid(g, rounds[0]);
      ShuffleGridKeeps(g, rounds[0]);
      SettleStops(s, n, rounds[1..]);
      forall k | 0 <= k <= |rounds| && !HasMove(Settle(g, n, rounds), n)
        ensures !HasMove(Settle(g, n, rounds[..k]), n) || k == |rounds|
      {
        if 0 < k {
          assert rounds[..k][1..] == rounds[1..][..k - 1];
        }
      }
    }
  }

  /** Settling keeps a dealt board dealt, with the same tiles on it. */
  lemma {:induction false} SettleDealt(g: Cells, width: int, height: int, n: int, rounds: seq<seq<nat>>)
    requires Dealt(g, width, height, n) && Rect(g)
    ensures Dealt(Settle(g, n, rounds), width, height, n)
    ensures TileCount(Settle(g, n, rounds)) == TileCount(g)
    ensures forall v :: Count(Settle(g, n, rounds), v) == Count(g, v)
    decreases |rounds|
  {
    if !HasMove(g, n) && rounds != [] {
      ShuffleDealt(g, width, height, n, rounds[0]);
      ShuffleGridKeeps(g, rounds[0]);
      SettleDealt(ShuffleGrid(g, rounds[0]), width, height, n, rounds[1..]);
    }
  }
}
