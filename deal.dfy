/** Dealing a board (model/board.py:138-166): each id 0..n-1 twice, shuffled,
    cut into rows of `width` cells, each row framed by an empty cell on both
    sides, and the whole framed by an empty row above and below. `Dealt` is
    the shape every board keeps from then on. */
module Dealing {
  import opened Grid

  /** Each id 0..n-1 twice, in order: the list `__separate_by_row` fills
      before shuffling it. */
  function Pairs(n: int): seq<int>
    decreases n
  {
    if n <= 0 then [] else Pairs(n - 1) + [n - 1, n - 1]
  }

  lemma {:induction false} PairsLength(n: int)
    ensures |Pairs(n)| == (if n <= 0 then 0 else 2 * n)
    decreases n
  {
    if n > 0 {
      PairsLength(n - 1);
    }
  }

  lemma {:induction false} PairsOcc(n: int, v: int)
    ensures Occ(Pairs(n), v) == (if 0 <= v < n then 2 else 0)
    decreases n
  {
    if n > 0 {
      PairsOcc(n - 1, v);
      OccAppend(Pairs(n - 1), [n - 1, n - 1], v);
      assert [n - 1, n - 1] == [n - 1] + [n - 1];
      OccSnoc([n - 1], n - 1, v);
      OccSnoc([], n - 1, v);
      assert [] + [n - 1] == [n - 1];
    }
  }

  /** The unshuffled list holds each id of 0..n-1 exactly twice and nothing else. */
  lemma PairsCount(n: int, v: int)
    ensures multiset(Pairs(n))[v] == (if 0 <= v < n then 2 else 0)
  {
    PairsOcc(n, v);
    OccMultiset(Pairs(n), v);
  }

  /** k empty cells. */
  function Blank(k: nat): (r: seq<int>)
    ensures |r| == k && forall i :: 0 <= i < k ==> r[i] == EMPTY
  {
    if k == 0 then [] else Blank(k - 1) + [EMPTY]
  }

  lemma {:induction false} BlankOcc(k: nat, v: int)
    ensures Occ(Blank(k), v) == (if v == EMPTY then k else 0)
  {
    if k > 0 {
      BlankOcc(k - 1, v);
      OccSnoc(Blank(k - 1), EMPTY, v);
    }
  }

  /** `__row_of_none`: a row of width + 2 empty cells (none when width + 2 <= 0). */
  function NoneRow(width: int): seq<int> {
    Blank(if width + 2 <= 0 then 0 else width + 2)
  }

  /** The framed rows the `while` loop of `__separate_by_row` cuts from
      `linear`, starting at index `cur`. */
  function Rows(width: int, linear: seq<int>, cur: nat): (r: Cells)
    requires width >= 1
    ensures forall k :: 0 <= k < |r| ==> |r[k]| == width + 2
    decreases |linear| - cur
  {
    if cur + width <= |linear| then [[EMPTY] + linear[cur..cur + width] + [EMPTY]] + Rows(width, linear, cur + width)
    else []
  }

  /** The board `__separate_by_row` returns for the shuffled list `linear`. */
  function Deal(width: int, linear: seq<int>): (r: Cells)
    requires width >= 1
    ensures Rect(r) && |r[0]| == width + 2
  {
    [NoneRow(width)] + Rows(width, linear, 0) + [NoneRow(width)]
  }

  /** How many cells of the grid hold v. */
  function Count(g: Cells, v: int): nat {
    multiset(Flatten(g))[v]
  }

  /** The shape every dealt board keeps: (height + 2) rows of width + 2 cells,
      an empty outer ring, and each id either gone or present exactly twice,
      ids ranging over 0..n-1. */
  ghost predicate Dealt(g: Cells, width: int, height: int, n: int) {
    width >= 1 && height >= 1 && |g| == height + 2 &&
    (forall r :: 0 <= r < |g| ==> |g[r]| == width + 2) &&
    (forall r, c :: 0 <= r < |g| && 0 <= c < width + 2 && (r == 0 || r == height + 1 || c == 0 || c == width + 1) ==>
      g[r][c] == EMPTY) &&
    (forall v :: v != EMPTY ==> Count(g, v) == 0 || (Count(g, v) == 2 && 0 <= v < n))
  }

  /**
   * A dealt board is a rectangle, stated once so that callers need not
   * unfold `Dealt` (and its quantifiers) to learn its shape.
   */
  lemma DealtRect(g: Cells, width: int, height: int, n: int)
    requires Dealt(g, width, height, n)
    ensures Rect(g) && |g[0]| == width + 2
  {
  }

  /** Every id on the grid indexes a list of n entries. */
  predicate IdsBelow(g: Cells, n: int) {
    forall i, j :: 0 <= i < |g| && 0 <= j < |g[i]| && g[i][j] != EMPTY ==> 0 <= g[i][j] < n
  }

  /** What the scans of a board rely on: a rectangle whose ids index a list
      of n entries, none of them on exactly one cell. */
  predicate Paired(g: Cells, n: int) {
    Rect(g) && IdsBelow(g, n) && forall v :: 0 <= v < n ==> |PositionsOf(g, v)| != 1
  }

  /** A dealt board can be scanned. */
  lemma DealtPaired(g: Cells, width: int, height: int, n: int)
    requires Dealt(g, width, height, n)
    ensures Paired(g, n)
  {
    DealtRect(g, width, height, n);
    forall i, j | 0 <= i < |g| && 0 <= j < |g[i]| && g[i][j] != EMPTY
      ensures 0 <= g[i][j] < n
    {
      CellInFlatten(g, i, j);
      assert Count(g, g[i][j]) > 0;
    }
    forall v | 0 <= v < n
      ensures |PositionsOf(g, v)| != 1
    {
      PositionsOfCount(g, v);
      assert Count(g, v) == 0 || Count(g, v) == 2;
    }
  }

  lemma FlattenCons(row: seq<int>, rest: Cells)
    ensures Flatten([row] + rest) == row + Flatten(rest)
  {
    FlattenAppend([row], rest);
    assert [row][..0] == [];
  }

  /** len is m whole rows of the given width. */
  predicate Fits(width: int, len: int, m: nat)
    decreases m
  {
    if m == 0 then len == 0 else len >= width && Fits(width, len - width, m - 1)
  }

  lemma {:induction false} WholeRows(width: int, m: nat)
    requires width >= 1
    ensures Fits(width, width * m, m)
  {
    if m > 0 {
      assert width * m - width == width * (m - 1);
      WholeRows(width, m - 1);
    }
  }

  lemma {:induction false} RowsShape(width: int, linear: seq<int>, cur: nat, m: nat)
    requires width >= 1 && cur <= |linear| && Fits(width, |linear| - cur, m)
    ensures var rs := Rows(width, linear, cur);
      |rs| == m &&
      forall k :: 0 <= k < m ==> |rs[k]| == width + 2 && rs[k][0] == EMPTY && rs[k][width + 1] == EMPTY
    decreases m
  {
    if m > 0 {
      RowsShape(width, linear, cur + width, m - 1);
    }
  }

  /** The framed rows hold the list from `cur` on, plus two empty cells a row. */
  lemma {:induction false} RowsCount(width: int, linear: seq<int>, cur: nat, m: nat, v: int)
    requires width >= 1 && cur <= |linear| && Fits(width, |linear| - cur, m)
    ensures |Flatten(Rows(width, linear, cur))| == |linear| - cur + 2 * m
    ensures Occ(Flatten(Rows(width, linear, cur)), v) == Occ(linear[cur..], v) + (if v == EMPTY then 2 * m else 0)
    decreases m
  {
    if m == 0 {
      assert linear[cur..] == [];
    } else {
      var chunk, tail := linear[cur..cur + width], linear[cur + width..];
      var row, rest := [EMPTY] + chunk + [EMPTY], Rows(width, linear, cur + width);
      RowsCount(width, linear, cur + width, m - 1, v);
      assert Rows(width, linear, cur) == [row] + rest;
      FlattenCons(row, rest);
      assert linear[cur..] == chunk + tail;
      OccAppend(chunk, tail, v);
      OccAppend(row, Flatten(rest), v);
      OccSnoc([EMPTY] + chunk, EMPTY, v);
      OccAppend([EMPTY], chunk, v);
      OccSnoc([], EMPTY, v);
      assert [] + [EMPTY] == [EMPTY];
    }
  }

  /** The flat list of a deal: an empty row, the framed rows, an empty row. */
  lemma DealFlat(width: int, linear: seq<int>)
    requires width >= 1
    ensures Flatten(Deal(width, linear)) == NoneRow(width) + Flatten(Rows(width, linear, 0)) + NoneRow(width)
  {
    var none, rs := NoneRow(width), Rows(width, linear, 0);
    assert Deal(width, linear) == [none] + (rs + [none]);
    FlattenCons(none, rs + [none]);
    FlattenAppend(rs, [none]);
    FlattenCons(none, []);
  }

  /** What a deal holds: the list, plus empty cells on the frame. */
  lemma DealCount(width: int, height: int, linear: seq<int>, v: int)
    requires width >= 1 && height >= 1 && Fits(width, |linear|, height)
    ensures |Flatten(Deal(width, linear))| == |linear| + 2 * height + 2 * (width + 2)
    ensures Count(Deal(width, linear), v) ==
      multiset(linear)[v] + (if v == EMPTY then 2 * height + 2 * (width + 2) else 0)
  {
    var none, flat := NoneRow(width), Flatten(Rows(width, linear, 0));
    RowsCount(width, linear, 0, height, v);
    assert linear[0..] == linear;
    BlankOcc(width + 2, v);
    DealFlat(width, linear);
    OccAppend(none + flat, none, v);
    OccAppend(none, flat, v);
    OccMultiset(Flatten(Deal(width, linear)), v);
    OccMultiset(linear, v);
  }

  /** A deal has height + 2 rows of width + 2 cells and an empty outer ring. */
  lemma DealShape(width: int, height: int, linear: seq<int>)
    requires width >= 1 && height >= 1 && Fits(width, |linear|, height)
    ensures var g := Deal(width, linear);
      |g| == height + 2 &&
      (forall r :: 0 <= r < |g| ==> |g[r]| == width + 2) &&
      (forall r, c :: 0 <= r < |g| && 0 <= c < width + 2 && (r == 0 || r == height + 1 || c == 0 || c == width + 1) ==>
        g[r][c] == EMPTY)
  {
    var g := Deal(width, linear);
    var rs := Rows(width, linear, 0);
    RowsShape(width, linear, 0, height);
    assert g == [NoneRow(width)] + rs + [NoneRow(width)];
    forall r, c | 0 <= r < |g| && 0 <= c < width + 2 && (r == 0 || r == height + 1 || c == 0 || c == width + 1)
      ensures g[r][c] == EMPTY
    {
      if 0 < r < height + 1 {
        assert g[r] == rs[r - 1];
      }
    }
  }

  /** A deal of w * h ids, each id of 0..n-1 listed twice or not at all, is
      a `Dealt` board holding each id as often as the list does, with all
      w * h cells of the play area occupied. */
  lemma DealFacts(width: int, height: int, linear: seq<int>, n: int)
    requires width >= 1 && height >= 1 && |linear| == width * height && EMPTY !in linear
    requires forall v :: v != EMPTY ==> multiset(linear)[v] == 0 || (multiset(linear)[v] == 2 && 0 <= v < n)
    ensures Dealt(Deal(width, linear), width, height, n)
    ensures TileCount(Deal(width, linear)) == width * height
    ensures forall v :: v != EMPTY ==> Count(Deal(width, linear), v) == multiset(linear)[v]
  {
    var g := Deal(width, linear);
    WholeRows(width, height);
    DealShape(width, height, linear);
    forall v | v != EMPTY
      ensures Count(g, v) == multiset(linear)[v]
    {
      DealCount(width, height, linear, v);
    }
    DealCount(width, height, linear, EMPTY);
    assert multiset(linear)[EMPTY] == 0;
  }

  /** The board `__separate_by_row` deals from w * h / 2 ids, shuffled in any
      order, holds each of them exactly twice and fills all w * h cells. */
  lemma ShuffledDeal(width: int, height: int, linear: seq<int>)
    requires width >= 1 && height >= 1 && (width * height) % 2 == 0
    requires multiset(linear) == multiset(Pairs(width * height / 2))
    ensures var n, g := width * height / 2, Deal(width, linear);
      Dealt(g, width, height, n) && TileCount(g) == width * height &&
      forall v :: 0 <= v < n ==> Count(g, v) == 2
  {
    var n := width * height / 2;
    assert 2 * n == width * height;
    PairsLength(n);
    assert |linear| == |multiset(linear)| == |Pairs(n)|;
    PairsCount(n, EMPTY);
    forall v | v != EMPTY
      ensures multiset(linear)[v] == 0 || (multiset(linear)[v] == 2 && 0 <= v < n)
    {
      PairsCount(n, v);
    }
    DealFacts(width, height, linear, n);
    forall v | 0 <= v < n
      ensures Count(Deal(width, linear), v) == 2
    {
      PairsCount(n, v);
    }
  }
}
