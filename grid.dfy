/** The padded grid of tile ids that a board keeps (model/board.py, `tile_board`).
    A cell holds a tile id (0, 1, ...) or EMPTY, which stands for Python's `None`.
    Tiles are compared by id only (`Tile.__eq__`), so an `int` per cell carries
    everything the engine looks at; -1 is also what `get_tile_index` reports for
    an empty cell. */
module Grid {

  const EMPTY: int := -1

  /** (row, column) */
  type Pos = (int, int)

  type Cells = seq<seq<int>>

  /** A non-empty grid whose rows are all as long as the first one. */
  predicate Rect(g: Cells) {
    |g| > 0 && forall r :: 0 <= r < |g| ==> |g[r]| == |g[0]|
  }

  /** `__is_possible_cell`: the coordinates address a cell of the grid. */
  predicate InGrid(g: Cells, i: int, j: int)
    requires Rect(g)
  {
    0 <= i < |g| && 0 <= j < |g[0]|
  }

  /** `__is_crashed`: the cell holds a tile. */
  predicate Crashed(g: Cells, i: int, j: int)
    requires Rect(g) && InGrid(g, i, j)
  {
    g[i][j] != EMPTY
  }

  /** A cell a route may pass through: inside the grid and empty. */
  predicate Free(g: Cells, p: Pos)
    requires Rect(g)
  {
    InGrid(g, p.0, p.1) && g[p.0][p.1] == EMPTY
  }

  /** Every cell of row i from column lo to column hi (both included) is an
      empty cell of the grid; an empty range holds vacuously. */
  predicate RowFree(g: Cells, i: int, lo: int, hi: int)
    requires Rect(g)
  {
    forall j :: lo <= j <= hi ==> InGrid(g, i, j) && g[i][j] == EMPTY
  }

  /** Every cell of column j from row lo to row hi (both included) is an
      empty cell of the grid. */
  predicate ColFree(g: Cells, j: int, lo: int, hi: int)
    requires Rect(g)
  {
    forall i :: lo <= i <= hi ==> InGrid(g, i, j) && g[i][j] == EMPTY
  }

  function SetCell(g: Cells, i: int, j: int, v: int): (r: Cells)
    requires 0 <= i < |g| && 0 <= j < |g[i]|
    ensures |r| == |g| && (forall k :: 0 <= k < |g| ==> |r[k]| == |g[k]|)
    ensures r[i][j] == v
    ensures forall a, b :: 0 <= a < |g| && 0 <= b < |g[a]| && (a, b) != (i, j) ==> r[a][b] == g[a][b]
  {
    g[i := g[i][j := v]]
  }

  /** The rows laid end to end. */
  function Flatten(g: Cells): seq<int>
  {
    if g == [] then [] else Flatten(g[..|g| - 1]) + g[|g| - 1]
  }

  /** How many cells hold a tile. */
  function TileCount(g: Cells): int
  {
    |multiset(Flatten(g))| - multiset(Flatten(g))[EMPTY]
  }

  /** How many times v occurs in s, counted from the end. Counting through
      this function rather than `multiset` keeps the per-id proofs cheap. */
  function Occ(s: seq<int>, v: int): nat
  {
    if s == [] then 0 else Occ(s[..|s| - 1], v) + (if s[|s| - 1] == v then 1 else 0)
  }

  lemma OccSnoc(s: seq<int>, c: int, v: int)
    ensures Occ(s + [c], v) == Occ(s, v) + (if c == v then 1 else 0)
  {
    assert (s + [c])[..|s|] == s;
  }

  lemma {:induction false} OccAppend(a: seq<int>, b: seq<int>, v: int)
    ensures Occ(a + b, v) == Occ(a, v) + Occ(b, v)
    decreases |b|
  {
    if b == [] {
      assert a + b == a;
    } else {
      var front := b[..|b| - 1];
      OccAppend(a, front, v);
      assert a + b == (a + front) + [b[|b| - 1]];
      OccSnoc(a + front, b[|b| - 1], v);
      assert b == front + [b[|b| - 1]];
      OccSnoc(front, b[|b| - 1], v);
    }
  }

  lemma {:induction false} OccMultiset(s: seq<int>, v: int)
    ensures multiset(s)[v] == Occ(s, v)
    decreases |s|
  {
    if s != [] {
      var front, c := s[..|s| - 1], s[|s| - 1];
      OccMultiset(front, v);
      assert s == front + [c];
      assert multiset(s) == multiset(front) + multiset{c};
      if c == v {
        assert multiset{c}[v] == 1;
      } else {
        assert multiset{c}[v] == 0;
      }
    }
  }

  lemma {:induction false} FlattenAppend(a: Cells, b: Cells)
    ensures Flatten(a + b) == Flatten(a) + Flatten(b)
    decreases |b|
  {
    if b == [] {
      assert a + b == a;
    } else {
      var b' := b[..|b| - 1];
      assert (a + b)[..|a + b| - 1] == a + b';
      FlattenAppend(a, b');
    }
  }

  lemma RowSetCount(r: seq<int>, j: int, v: int)
    requires 0 <= j < |r|
    ensures multiset(r[j := v]) + multiset{r[j]} == multiset(r) + multiset{v}
  {
    assert r == r[..j] + [r[j]] + r[j + 1..];
    assert r[j := v] == r[..j] + [v] + r[j + 1..];
  }

  lemma FlattenAround(g: Cells, i: int)
    requires 0 <= i < |g|
    ensures Flatten(g) == Flatten(g[..i]) + g[i] + Flatten(g[i + 1..])
  {
    var front := g[..i + 1];
    assert g == front + g[i + 1..];
    FlattenAppend(front, g[i + 1..]);
    assert front[..|front| - 1] == g[..i];
    assert Flatten(front) == Flatten(g[..i]) + g[i];
  }

  /** Writing v into one cell trades one copy of the old content for one copy of v. */
  lemma SetCellCount(g: Cells, i: int, j: int, v: int)
    requires 0 <= i < |g| && 0 <= j < |g[i]|
    ensures multiset(Flatten(SetCell(g, i, j, v))) + multiset{g[i][j]} == multiset(Flatten(g)) + multiset{v}
  {
    var g' := SetCell(g, i, j, v);
    var front, back := Flatten(g[..i]), Flatten(g[i + 1..]);
    FlattenAround(g, i);
    FlattenAround(g', i);
    assert g'[..i] == g[..i] && g'[i + 1..] == g[i + 1..];
    assert Flatten(g') == front + g[i][j := v] + back;
    RowSetCount(g[i], j, v);
    var a, b := multiset(front), multiset(back);
    var row, row' := multiset(g[i]), multiset(g[i][j := v]);
    assert multiset(Flatten(g')) == a + row' + b;
    assert multiset(Flatten(g)) == a + row + b;
    assert row' + multiset{g[i][j]} == row + multiset{v};
    calc {
      multiset(Flatten(g')) + multiset{g[i][j]};
      a + (row' + multiset{g[i][j]}) + b;
      a + (row + multiset{v}) + b;
      multiset(Flatten(g)) + multiset{v};
    }
  }

  /** Emptying a cell that holds a tile removes exactly that tile. */
  lemma ClearCellCount(g: Cells, i: int, j: int)
    requires 0 <= i < |g| && 0 <= j < |g[i]| && g[i][j] != EMPTY
    ensures var g' := SetCell(g, i, j, EMPTY);
      TileCount(g') == TileCount(g) - 1 &&
      multiset(Flatten(g'))[g[i][j]] + 1 == multiset(Flatten(g))[g[i][j]] &&
      forall v :: v != g[i][j] && v != EMPTY ==> multiset(Flatten(g'))[v] == multiset(Flatten(g))[v]
  {
    var t := g[i][j];
    SetCellCount(g, i, j, EMPTY);
    var m', m := multiset(Flatten(SetCell(g, i, j, EMPTY))), multiset(Flatten(g));
    assert m' + multiset{t} == m + multiset{EMPTY};
    assert |m' + multiset{t}| == |m'| + |multiset{t}|;
    assert |m + multiset{EMPTY}| == |m| + |multiset{EMPTY}|;
    assert |m'| == |m|;
    assert (m' + multiset{t})[EMPTY] == m'[EMPTY];
    assert m'[EMPTY] == m[EMPTY] + 1;
    forall v | v != EMPTY
      ensures m'[v] + (if v == t then 1 else 0) == m[v]
    {
      assert (m' + multiset{t})[v] == (m + multiset{EMPTY})[v];
    }
  }

  /** A point of a row-major scan: the nested loops `for i ...: for j ...:` of
      model/board.py have visited every cell before (i, j). */
  predicate ScanPoint(g: Cells, i: int, j: int)
    requires Rect(g)
  {
    0 <= i <= |g| && 0 <= j <= |g[0]| && (i == |g| ==> j == 0)
  }

  /** `p` comes strictly before `q` in row-major order. */
  predicate Before(p: Pos, q: Pos) {
    p.0 < q.0 || (p.0 == q.0 && p.1 < q.1)
  }

  /** The cells holding v among those before (i, j), in row-major order: what
      the scans of `__is_possible_play` and `get_advised_tile_pair` file under id v. */
  function Holding(g: Cells, v: int, i: int, j: int): seq<Pos>
    requires Rect(g) && ScanPoint(g, i, j)
    decreases i, j
  {
    if j > 0 then Holding(g, v, i, j - 1) + (if g[i][j - 1] == v then [(i, j - 1)] else [])
    else if i > 0 then Holding(g, v, i - 1, |g[0]|)
    else []
  }

  /** The occupied cells before (i, j), in row-major order: the positions
      `__shuffle_tiles` collects. */
  function Occupied(g: Cells, i: int, j: int): seq<Pos>
    requires Rect(g) && ScanPoint(g, i, j)
    decreases i, j
  {
    if j > 0 then Occupied(g, i, j - 1) + (if g[i][j - 1] != EMPTY then [(i, j - 1)] else [])
    else if i > 0 then Occupied(g, i - 1, |g[0]|)
    else []
  }

  /** The ids of the occupied cells before (i, j), in row-major order: the
      ids `__shuffle_tiles` collects alongside their positions. */
  function OccupiedIds(g: Cells, i: int, j: int): seq<int>
    requires Rect(g) && ScanPoint(g, i, j)
    decreases i, j
  {
    if j > 0 then OccupiedIds(g, i, j - 1) + (if g[i][j - 1] != EMPTY then [g[i][j - 1]] else [])
    else if i > 0 then OccupiedIds(g, i - 1, |g[0]|)
    else []
  }

  /** The contents of the cells before (i, j), in row-major order. */
  function FlatBefore(g: Cells, i: int, j: int): seq<int>
    requires Rect(g) && ScanPoint(g, i, j)
    decreases i, j
  {
    if j > 0 then FlatBefore(g, i, j - 1) + [g[i][j - 1]]
    else if i > 0 then FlatBefore(g, i - 1, |g[0]|)
    else []
  }

  /** The two cells of id v, in row-major order, when v is on the grid. */
  function PositionsOf(g: Cells, v: int): seq<Pos>
    requires Rect(g)
  {
    Holding(g, v, |g|, 0)
  }

  /** A position list in strictly increasing row-major order whose cells all
      lie in the grid before (i, j). */
  predicate SortedBefore(g: Cells, ps: seq<Pos>, i: int, j: int)
    requires Rect(g)
  {
    (forall k :: 0 <= k < |ps| ==> InGrid(g, ps[k].0, ps[k].1) && Before(ps[k], (i, j))) &&
    (forall k, l :: 0 <= k < l < |ps| ==> Before(ps[k], ps[l]))
  }

  lemma {:induction false} HoldingSorted(g: Cells, v: int, i: int, j: int)
    requires Rect(g) && ScanPoint(g, i, j)
    ensures var ps := Holding(g, v, i, j);
      SortedBefore(g, ps, i, j) && forall k :: 0 <= k < |ps| ==> g[ps[k].0][ps[k].1] == v
    decreases i, j
  {
    if j > 0 {
      HoldingSorted(g, v, i, j - 1);
    } else if i > 0 {
      HoldingSorted(g, v, i - 1, |g[0]|);
    }
  }

  lemma {:induction false} OccupiedSorted(g: Cells, i: int, j: int)
    requires Rect(g) && ScanPoint(g, i, j)
    ensures var ps := Occupied(g, i, j);
      SortedBefore(g, ps, i, j) && forall k :: 0 <= k < |ps| ==> g[ps[k].0][ps[k].1] != EMPTY
    decreases i, j
  {
    if j > 0 {
      OccupiedSorted(g, i, j - 1);
    } else if i > 0 {
      OccupiedSorted(g, i - 1, |g[0]|);
    }
  }

  /** Every occupied cell before (i, j) is listed by `Occupied`. */
  lemma {:induction false} OccupiedComplete(g: Cells, i: int, j: int, a: int, b: int)
    requires Rect(g) && ScanPoint(g, i, j)
    requires InGrid(g, a, b) && g[a][b] != EMPTY && Before((a, b), (i, j))
    ensures (a, b) in Occupied(g, i, j)
    decreases i, j
  {
    if j > 0 {
      if (a, b) != (i, j - 1) {
        OccupiedComplete(g, i, j - 1, a, b);
      }
    } else if i > 0 {
      OccupiedComplete(g, i - 1, |g[0]|, a, b);
    }
  }

  lemma {:induction false} HoldingCount(g: Cells, v: int, i: int, j: int)
    requires Rect(g) && ScanPoint(g, i, j)
    ensures |Holding(g, v, i, j)| == Occ(FlatBefore(g, i, j), v)
    decreases i, j
  {
    if j > 0 {
      HoldingCount(g, v, i, j - 1);
      OccSnoc(FlatBefore(g, i, j - 1), g[i][j - 1], v);
    } else if i > 0 {
      HoldingCount(g, v, i - 1, |g[0]|);
    }
  }

  lemma {:induction false} FlatBeforeRows(g: Cells, i: int, j: int)
    requires Rect(g) && ScanPoint(g, i, j)
    ensures i < |g| ==> FlatBefore(g, i, j) == Flatten(g[..i]) + g[i][..j]
    ensures i == |g| ==> FlatBefore(g, i, j) == Flatten(g)
    decreases i, j
  {
    if j > 0 {
      FlatBeforeRows(g, i, j - 1);
      assert g[i][..j] == g[i][..j - 1] + [g[i][j - 1]];
    } else if i > 0 {
      FlatBeforeRows(g, i - 1, |g[0]|);
      assert g[..i][..i - 1] == g[..i - 1];
      assert g[i - 1][..|g[0]|] == g[i - 1];
      if i == |g| {
        assert g[..i] == g;
      }
    }
  }

  /** Id v is listed exactly as many times as it occurs on the grid. */
  lemma PositionsOfCount(g: Cells, v: int)
    requires Rect(g)
    ensures |PositionsOf(g, v)| == multiset(Flatten(g))[v]
  {
    HoldingCount(g, v, |g|, 0);
    FlatBeforeRows(g, |g|, 0);
    OccMultiset(Flatten(g), v);
  }

  /** The two scans of `__shuffle_tiles` agree: the k-th id is the content of
      the k-th position. */
  lemma {:induction false} OccupiedIdsAt(g: Cells, i: int, j: int)
    requires Rect(g) && ScanPoint(g, i, j)
    ensures var ps, ids := Occupied(g, i, j), OccupiedIds(g, i, j);
      |ids| == |ps| && forall k :: 0 <= k < |ps| ==> InGrid(g, ps[k].0, ps[k].1) && ids[k] == g[ps[k].0][ps[k].1]
    decreases i, j
  {
    if j > 0 {
      OccupiedIdsAt(g, i, j - 1);
    } else if i > 0 {
      OccupiedIdsAt(g, i - 1, |g[0]|);
    }
  }

  /** Every cell's content occurs in the flattened grid. */
  lemma CellInFlatten(g: Cells, i: int, j: int)
    requires 0 <= i < |g| && 0 <= j < |g[i]|
    ensures g[i][j] in multiset(Flatten(g))
  {
    FlattenAround(g, i);
    assert g[i][j] in g[i];
  }
}
