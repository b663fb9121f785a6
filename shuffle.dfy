/** The randomness of model/board.py. Python's `random.shuffle` is the
    Fisher–Yates shuffle: for i from the last index down to 1 it swaps
    element i with element `randbelow(i + 1)`. The random numbers are not
    drawn here but supplied as `draws`: the k-th swap uses `draws[k] % (i + 1)`
    (0 once the draws run out), so every permutation is reachable and every
    result is a permutation. `__shuffle_tiles` (model/board.py:531-544) is
    modelled on top of it as `ShuffleGrid`. */
module Shuffling {
  import opened Grid

  function Swap<T>(s: seq<T>, i: int, j: int): (r: seq<T>)
    requires 0 <= i < |s| && 0 <= j < |s|
    ensures |r| == |s| && r[i] == s[j] && r[j] == s[i]
    ensures forall k :: 0 <= k < |s| && k != i && k != j ==> r[k] == s[k]
  {
    s[i := s[j]][j := s[i]]
  }

  lemma SwapPermutes<T>(s: seq<T>, i: int, j: int)
    requires 0 <= i < |s| && 0 <= j < |s|
    ensures multiset(Swap(s, i, j)) == multiset(s)
  {
    if i != j {
      var t := s[i := s[j]];
      assert multiset(t) == multiset(s) - multiset{s[i]} + multiset{s[j]};
      assert multiset(t[j := s[i]]) == multiset(t) - multiset{t[j]} + multiset{s[i]};
    }
  }

  /** The swaps of the shuffle for indices i, i - 1, ..., 1. */
  function ShuffleFrom<T>(s: seq<T>, i: int, draws: seq<nat>): (r: seq<T>)
    requires i < |s|
    ensures |r| == |s| && multiset(r) == multiset(s)
    decreases i
  {
    if i < 1 then s
    else
      var d := if draws == [] then 0 else draws[0];
      SwapPermutes(s, i, d % (i + 1));
      ShuffleFrom(Swap(s, i, d % (i + 1)), i - 1, if draws == [] then [] else draws[1..])
  }

  /** `random.shuffle(s)` with the random numbers `draws`. */
  function Shuffle<T>(s: seq<T>, draws: seq<nat>): (r: seq<T>)
    ensures |r| == |s| && multiset(r) == multiset(s)
  {
    ShuffleFrom(s, |s| - 1, draws)
  }

  // ---------------------------------------------------------------------------
  // Writing ids back over a list of cells

  predicate CellsIn(g: Cells, ps: seq<Pos>) {
    forall k :: 0 <= k < |ps| ==> 0 <= ps[k].0 < |g| && 0 <= ps[k].1 < |g[ps[k].0]|
  }

  predicate Distinct(ps: seq<Pos>) {
    forall k, l :: 0 <= k < l < |ps| ==> ps[k] != ps[l]
  }

  /** The grid after writing vals[k] into cell ps[k], for k = 0, 1, ... in turn. */
  function WriteBack(g: Cells, ps: seq<Pos>, vals: seq<int>): (r: Cells)
    requires |vals| == |ps| && CellsIn(g, ps)
    ensures |r| == |g| && forall a :: 0 <= a < |g| ==> |r[a]| == |g[a]|
    decreases |ps|
  {
    if ps == [] then g
    else
      var n := |ps| - 1;
      SetCell(WriteBack(g, ps[..n], vals[..n]), ps[n].0, ps[n].1, vals[n])
  }

  /** A cell outside the list keeps its content; a listed cell (each listed
      once) gets its value. */
  lemma {:induction false} WriteBackCells(g: Cells, ps: seq<Pos>, vals: seq<int>)
    requires |vals| == |ps| && CellsIn(g, ps) && Distinct(ps)
    ensures var r := WriteBack(g, ps, vals);
      (forall a, b :: 0 <= a < |g| && 0 <= b < |g[a]| && (a, b) !in ps ==> r[a][b] == g[a][b]) &&
      (forall k :: 0 <= k < |ps| ==> r[ps[k].0][ps[k].1] == vals[k])
    decreases |ps|
  {
    if ps != [] {
      var n := |ps| - 1;
      WriteBackCells(g, ps[..n], vals[..n]);
      var r := WriteBack(g, ps, vals);
      forall a, b | 0 <= a < |g| && 0 <= b < |g[a]| && (a, b) !in ps
        ensures r[a][b] == g[a][b]
      {
        assert (a, b) !in ps[..n];
      }
      forall k | 0 <= k < n
        ensures r[ps[k].0][ps[k].1] == vals[k]
      {
        assert ps[k] != ps[n];
        assert ps[..n][k] == ps[k] && vals[..n][k] == vals[k];
      }
    }
  }

  /** Writing trades the old contents of the listed cells for the new values. */
  lemma {:induction false} WriteBackCount(g: Cells, ps: seq<Pos>, vals: seq<int>, olds: seq<int>)
    requires |vals| == |ps| && |olds| == |ps| && CellsIn(g, ps) && Distinct(ps)
    requires forall k :: 0 <= k < |ps| ==> olds[k] == g[ps[k].0][ps[k].1]
    ensures multiset(Flatten(WriteBack(g, ps, vals))) + multiset(olds) == multiset(Flatten(g)) + multiset(vals)
    decreases |ps|
  {
    if ps != [] {
      var n := |ps| - 1;
      var prev := WriteBack(g, ps[..n], vals[..n]);
      WriteBackCount(g, ps[..n], vals[..n], olds[..n]);
      WriteBackCells(g, ps[..n], vals[..n]);
      assert ps[n] !in ps[..n];
      assert prev[ps[n].0][ps[n].1] == olds[n];
      SetCellCount(prev, ps[n].0, ps[n].1, vals[n]);
      TradeStep(multiset(Flatten(prev)), multiset(Flatten(WriteBack(g, ps, vals))), multiset(Flatten(g)), olds, vals);
    }
  }

  lemma TradeStep(a: multiset<int>, b: multiset<int>, m: multiset<int>, olds: seq<int>, vals: seq<int>)
    requires |olds| == |vals| > 0
    requires a + multiset(olds[..|olds| - 1]) == m + multiset(vals[..|vals| - 1])
    requires b + multiset{olds[|olds| - 1]} == a + multiset{vals[|vals| - 1]}
    ensures b + multiset(olds) == m + multiset(vals)
  {
    var n := |olds| - 1;
    assert olds == olds[..n] + [olds[n]];
    assert vals == vals[..n] + [vals[n]];
    assert multiset(olds) == multiset(olds[..n]) + multiset{olds[n]};
    assert multiset(vals) == multiset(vals[..n]) + multiset{vals[n]};
    calc {
      b + multiset(olds);
      (b + multiset{olds[n]}) + multiset(olds[..n]);
      (a + multiset(olds[..n])) + multiset{vals[n]};
      m + multiset(vals);
    }
  }

  // ---------------------------------------------------------------------------
  // `__shuffle_tiles`

  /** The grid `__shuffle_tiles` leaves: the ids of the occupied cells,
      collected row by row, shuffled and written back over the same cells. */
  function ShuffleGrid(g: Cells, draws: seq<nat>): (r: Cells)
    requires Rect(g)
    ensures |r| == |g| && forall a :: 0 <= a < |g| ==> |r[a]| == |g[a]|
  {
    var ps := Occupied(g, |g|, 0);
    OccupiedIdsAt(g, |g|, 0);
    WriteBack(g, ps, Shuffle(OccupiedIds(g, |g|, 0), draws))
  }

  lemma SortedDistinct(g: Cells, ps: seq<Pos>, i: int, j: int)
    requires Rect(g) && SortedBefore(g, ps, i, j)
    ensures Distinct(ps) && CellsIn(g, ps)
  {
    forall k, l | 0 <= k < l < |ps|
      ensures ps[k] != ps[l]
    {
      assert Before(ps[k], ps[l]);
    }
  }

  /** A shuffle keeps the multiset of ids on the grid. */
  lemma ShuffleGridCount(g: Cells, draws: seq<nat>)
    requires Rect(g)
    ensures multiset(Flatten(ShuffleGrid(g, draws))) == multiset(Flatten(g))
  {
    var ps, ids := Occupied(g, |g|, 0), OccupiedIds(g, |g|, 0);
    var vals := Shuffle(ids, draws);
    OccupiedSorted(g, |g|, 0);
    OccupiedIdsAt(g, |g|, 0);
    SortedDistinct(g, ps, |g|, 0);
    WriteBackCount(g, ps, vals, ids);
    assert ShuffleGrid(g, draws) == WriteBack(g, ps, vals);
    Cancel(multiset(Flatten(WriteBack(g, ps, vals))), multiset(Flatten(g)), multiset(ids));
  }

  lemma Cancel(x: multiset<int>, y: multiset<int>, z: multiset<int>)
    requires x + z == y + z
    ensures x == y
  {
    assert forall v :: x[v] == (x + z)[v] - z[v];
  }

  /** A shuffle leaves empty exactly the cells that were empty. */
  lemma ShuffleGridOccupancy(g: Cells, draws: seq<nat>, a: int, b: int)
    requires Rect(g) && InGrid(g, a, b)
    ensures ShuffleGrid(g, draws)[a][b] == EMPTY <==> g[a][b] == EMPTY
  {
    var ps, ids := Occupied(g, |g|, 0), OccupiedIds(g, |g|, 0);
    var vals := Shuffle(ids, draws);
    OccupiedSorted(g, |g|, 0);
    OccupiedIdsAt(g, |g|, 0);
    SortedDistinct(g, ps, |g|, 0);
    WriteBackCells(g, ps, vals);
    assert ShuffleGrid(g, draws) == WriteBack(g, ps, vals);
    if g[a][b] != EMPTY {
      OccupiedComplete(g, |g|, 0, a, b);
      var k :| 0 <= k < |ps| && ps[k] == (a, b);
      assert WriteBack(g, ps, vals)[a][b] == vals[k];
      assert vals[k] in multiset(vals);
      assert vals[k] in ids;
      var l :| 0 <= l < |ids| && ids[l] == vals[k];
      assert g[ps[l].0][ps[l].1] != EMPTY;
    } else {
      assert (a, b) !in ps;
    }
  }

  /** A shuffle keeps the grid's shape, empties exactly the cells that were
      empty, and keeps the multiset of ids. */
  lemma ShuffleGridKeeps(g: Cells, draws: seq<nat>)
    requires Rect(g)
    ensures var r := ShuffleGrid(g, draws);
      Rect(r) && |r| == |g| && |r[0]| == |g[0]| &&
      (forall a, b :: 0 <= a < |g| && 0 <= b < |g[0]| ==> (r[a][b] == EMPTY <==> g[a][b] == EMPTY)) &&
      multiset(Flatten(r)) == multiset(Flatten(g))
  {
    ShuffleGridCount(g, draws);
    forall a, b | 0 <= a < |g| && 0 <= b < |g[0]|
      ensures ShuffleGrid(g, draws)[a][b] == EMPTY <==> g[a][b] == EMPTY
    {
      ShuffleGridOccupancy(g, draws, a, b);
    }
  }
}
