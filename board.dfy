/** The board of the game (model/board.py, class `Board`): a grid of tile
    ids framed by an empty ring, the count of pairs taken off it and whether
    the last pair is gone. Its methods deal the tiles, list where each id
    lies, decide whether some pair can still be joined, advise a pair, play
    a click on two cells and reshuffle a stuck board. Each is proved against
    the specifications of `Dealing` and `Moves`. */
module BoardModel {
  import opened Grid
  import opened Routes
  import opened Shuffling
  import opened Dealing
  import opened Moves
  import opened Paths

  /** `game_state`: `PLAYING` ("play") or `FINISH` ("finish"). */
  datatype BoardState = Playing | Finish

  /** Python's index into a list of length len, where -1 is the last element. */
  function Wrap(k: int, len: int): (r: int)
    requires -len <= k < len
    ensures 0 <= r < len && (r == k || r == k + len)
  {
    if k < 0 then k + len else k
  }

  /** One pass of the row loop of `__separate_by_row`: the next `width` ids,
      padded with an empty cell at each end, move from the rows still to
      build to the board built so far. */
  lemma RowStep(width: int, linear: seq<int>, current: int, board: Cells, row: seq<int>)
    requires width >= 1 && 0 <= current && current + width <= |linear|
    requires row == [EMPTY] + (linear[current..current + width] + [EMPTY])
    ensures board + Rows(width, linear, current) == (board + [row]) + Rows(width, linear, current + width)
  {
    assert row == [EMPTY] + linear[current..current + width] + [EMPTY];
    assert Rows(width, linear, current) == [row] + Rows(width, linear, current + width);
  }

  class Board {
    const width: int
    const height: int
    /** `tile_board`; [] while no board has been dealt (`None`). */
    var tiles: Cells
    /** `eliminated_tiles`: the pairs taken off so far. */
    var eliminated: int
    var state: BoardState

    /** How many different ids there are: `len(tile_data)`. */
    function Kinds(): int {
      width * height / 2
    }

    /** Once dealt, the board is `Dealt` and every tile is either still on it
        or counted as eliminated, two cells a pair. */
    ghost predicate Valid()
      reads this
    {
      (width * height) % 2 == 0 && eliminated >= 0 &&
      (tiles != [] ==> Dealt(tiles, width, height, Kinds()) && 2 * eliminated + TileCount(tiles) == width * height)
    }

    /** `__init__` for an even number of cells; no board is dealt yet. */
    constructor (width: int, height: int)
      requires (width * height) % 2 == 0
      ensures this.width == width && this.height == height
      ensures tiles == [] && eliminated == 0 && state == Playing && Valid()
    {
      this.width := width;
      this.height := height;
      tiles := [];
      eliminated := 0;
      state := Playing;
    }

    /** `Board(width, height)`: raises (here: None) when the number of cells is odd. */
    static method Create(width: int, height: int) returns (b: Option<Board>)
      ensures b.None? <==> (width * height) % 2 != 0
      ensures b.Some? ==>
        fresh(b.value) && b.value.width == width && b.value.height == height &&
        b.value.tiles == [] && b.value.eliminated == 0 && b.value.state == Playing && b.value.Valid()
    {
      if (width * height) % 2 != 0 {
        return None;
      }
      var board := new Board(width, height);
      return Some(board);
    }

    // -------------------------------------------------------------------------
    // Queries

    /** `get_tile_index`: the id on a cell, -1 when it is empty. Indices
        follow Python's, so -1 addresses the last row or column. */
    function GetTileIndex(i: int, j: int): (r: int)
      reads this
      requires tiles != [] && Rect(tiles)
      requires -|tiles| <= i < |tiles| && -|tiles[0]| <= j < |tiles[0]|
      ensures r == tiles[Wrap(i, |tiles|)][Wrap(j, |tiles[0]|)]
      ensures IdsBelow(tiles, Kinds()) ==> r == EMPTY || 0 <= r < Kinds()
    {
      tiles[Wrap(i, |tiles|)][Wrap(j, |tiles[0]|)]
    }

    /** `is_a_tile`: the cell holds a tile. */
    function IsATile(i: int, j: int): (r: bool)
      reads this
      requires tiles != [] && Rect(tiles)
      requires -|tiles| <= i < |tiles| && -|tiles[0]| <= j < |tiles[0]|
      ensures r <==> GetTileIndex(i, j) != EMPTY
    {
      tiles[Wrap(i, |tiles|)][Wrap(j, |tiles[0]|)] != EMPTY
    }

    /** `get_board_size`: (columns, rows) including the empty ring, (-1, -1)
        when no board is dealt. */
    function GetBoardSize(): (r: (int, int))
      reads this
      requires Valid()
      ensures tiles == [] ==> r == (-1, -1)
      ensures tiles != [] ==> r == (width + 2, height + 2)
    {
      if tiles == [] then (-1, -1)
      else
        DealtRect(tiles, width, height, Kinds());
        (|tiles[0]|, |tiles|)
    }

    /** `is_finished`: every pair has been taken off, so the board is empty. */
    function IsFinished(): (r: bool)
      reads this
      requires Valid()
      ensures tiles != [] ==> (r <==> TileCount(tiles) == 0)
    {
      assert 2 * Kinds() == width * height;
      eliminated == Kinds()
    }

    // -------------------------------------------------------------------------
    // Dealing

    /** `__row_of_none`: a row of width + 2 empty cells. */
    static method RowOfNone(rowWidth: int) returns (row: seq<int>)
      ensures |row| == (if rowWidth + 2 <= 0 then 0 else rowWidth + 2)
      ensures forall k :: 0 <= k < |row| ==> row[k] == EMPTY
    {
      var size := if rowWidth + 2 <= 0 then 0 else rowWidth + 2;
      row := seq(size, k => k);
      for k := 0 to |row|
        invariant |row| == size
        invariant forall l :: 0 <= l < k ==> row[l] == EMPTY
      {
        row := row[k := EMPTY];
      }
    }

    /** The first loop of `__separate_by_row`: every id twice, in order. */
    method PairList() returns (linear: seq<int>)
      ensures linear == Pairs(Kinds())
    {
      linear := [];
      var t := 0;
      while t < Kinds()
        invariant 0 <= t && (t <= Kinds() || t == 0)
        invariant linear == Pairs(t)
      {
        linear := linear + [t, t];
        t := t + 1;
      }
    }

    /** `__separate_by_row`: every id twice, shuffled with `draws`, then cut
        into rows of `width` ids between an empty top and bottom row, each
        row padded with an empty cell at both ends. */
    method SeparateByRow(draws: seq<nat>) returns (board: Cells)
      requires width >= 1
      ensures board == Deal(width, Shuffle(Pairs(Kinds()), draws))
    {
      var linear := PairList();
      linear := Shuffle(linear, draws);
      board := CutRows(linear);
    }

    /** The row loop of `__separate_by_row`. */
    method CutRows(linear: seq<int>) returns (board: Cells)
      requires width >= 1
      ensures board == Deal(width, linear)
    {
      var none := RowOfNone(width);
      assert none == NoneRow(width);
      board := [none];
      var current := 0;
      while current + width <= |linear|
        invariant 0 <= current <= |linear|
        invariant board + Rows(width, linear, current) == [none] + Rows(width, linear, 0)
        decreases |linear| - current
      {
        var row := [EMPTY];
        row := row + (linear[current..current + width] + [EMPTY]);
        RowStep(width, linear, current, board, row);
        board := board + [row];
        current := current + width;
      }
      assert board == [none] + Rows(width, linear, 0);
      board := board + [none];
    }

    /** `init_board`: deal a fresh board and reshuffle it until a pair can be
        joined. With fewer than one row or column the source never returns. */
    method InitBoard(draws: seq<nat>, rounds: seq<seq<nat>>)
      requires Valid() && width >= 1 && height >= 1
      modifies this
      ensures tiles == Settle(Deal(width, Shuffle(Pairs(Kinds()), draws)), Kinds(), rounds)
      ensures eliminated == 0 && state == old(state) && Valid() && tiles != []
      ensures TileCount(tiles) == width * height
      ensures forall v :: 0 <= v < Kinds() ==> Count(tiles, v) == 2
    {
      eliminated := 0;
      var board := SeparateByRow(draws);
      ShuffledDeal(width, height, Shuffle(Pairs(Kinds()), draws));
      SettleDealt(board, width, height, Kinds(), rounds);
      tiles := board;
      GeneratePlayableBoard(rounds);
    }

    /** `reset_board`: deal again and start playing. */
    method ResetBoard(draws: seq<nat>, rounds: seq<seq<nat>>)
      requires Valid() && width >= 1 && height >= 1
      modifies this
      ensures tiles == Settle(Deal(width, Shuffle(Pairs(Kinds()), draws)), Kinds(), rounds)
      ensures eliminated == 0 && state == Playing && Valid()
      ensures TileCount(tiles) == width * height
      ensures forall v :: 0 <= v < Kinds() ==> Count(tiles, v) == 2
    {
      InitBoard(draws, rounds);
      eliminated := 0;
      state := Playing;
    }

    // -------------------------------------------------------------------------
    // Looking for a move

    /** The table `__is_possible_play` and `get_advised_tile_pair` build: for
        each id, the cells holding it in row-major order. */
    method IndexPositions() returns (index: seq<seq<Pos>>)
      requires Rect(tiles) && IdsBelow(tiles, Kinds())
      ensures |index| == (if Kinds() < 0 then 0 else Kinds())
      ensures forall v :: 0 <= v < Kinds() ==> index[v] == PositionsOf(tiles, v)
    {
      var n := if Kinds() < 0 then 0 else Kinds();
      index := seq(n, _ => []);
      var i := 0;
      while i < |tiles|
        invariant 0 <= i <= |tiles| && |index| == n
        invariant forall v :: 0 <= v < n ==> index[v] == Holding(tiles, v, i, 0)
      {
        var j := 0;
        while j < |tiles[0]|
          invariant 0 <= j <= |tiles[0]| && |index| == n
          invariant forall v :: 0 <= v < n ==> index[v] == Holding(tiles, v, i, j)
        {
          var t := tiles[i][j];
          if t != EMPTY {
            index := index[t := index[t] + [(i, j)]];
          }
          j := j + 1;
        }
        i := i + 1;
      }
    }

    /** The scan of one id: its first two cells, upper one first, and the
        route `__make_lines` finds between them. */
    method TryPair(index: seq<seq<Pos>>, v: int) returns (pair: (Pos, Pos), lines: string)
      requires Paired(tiles, Kinds()) && 0 <= v < |index| && v < Kinds() && index[v] == PositionsOf(tiles, v)
      ensures lines != "" <==> Playable(tiles, v)
      ensures lines != "" ==> pair == PairOf(tiles, v)
    {
      var positions := index[v];
      pair, lines := ((-1, -1), (-1, -1)), "";
      if |positions| != 0 {
        pair := AboveTile(positions[0], positions[1]);
        assert pair == PairOf(tiles, v);
        lines := MakeLines(tiles, pair.0.0, pair.0.1, pair.1.0, pair.1.1);
      }
    }

    /** `__is_possible_play`: some pair on the board can be joined. */
    method IsPossiblePlay() returns (b: bool)
      requires Paired(tiles, Kinds())
      ensures b == HasMove(tiles, Kinds())
    {
      var index := IndexPositions();
      var v := 0;
      while v < |index|
        invariant 0 <= v <= |index|
        invariant forall u :: 0 <= u < v ==> !Playable(tiles, u)
      {
        var _, lines := TryPair(index, v);
        if lines != "" {
          assert Playable(tiles, v);
          return true;
        }
        v := v + 1;
      }
      assert !HasMove(tiles, Kinds());
      return false;
    }

    /** `get_advised_tile_pair`: the pair of the smallest id that can be
        joined, `ADVISED_TILE_ERROR` when none can. */
    method GetAdvisedTilePair() returns (advice: seq<Pos>)
      requires Paired(tiles, Kinds())
      ensures advice == Advice(tiles, Kinds())
      ensures advice == ADVISED_TILE_ERROR <==> !HasMove(tiles, Kinds())
      ensures advice != ADVISED_TILE_ERROR ==>
        |advice| == 2 && MoveRoute(tiles, advice[0].0, advice[0].1, advice[1].0, advice[1].1) != ""
    {
      var n := Kinds();
      var possible := IsPossiblePlay();
      AdviceSpec(tiles, n);
      if !possible {
        return ADVISED_TILE_ERROR;
      }
      var index := IndexPositions();
      var v := 0;
      while v < |index|
        invariant 0 <= v <= |index|
        invariant FirstPlayable(tiles, n, v) == FirstPlayable(tiles, n, 0)
      {
        var pair, lines := TryPair(index, v);
        if lines != "" {
          AdviceIsMove(tiles, n);
          return [pair.0, pair.1];
        }
        v := v + 1;
      }
      FirstPlayableSpec(tiles, n, 0);
      assert false;
    }

    // -------------------------------------------------------------------------
    // Reshuffling

    /** The first half of `__shuffle_tiles`: the occupied cells and their
        ids, row by row. */
    method CollectTiles() returns (positions: seq<Pos>, ids: seq<int>)
      requires Rect(tiles)
      ensures positions == Occupied(tiles, |tiles|, 0) && ids == OccupiedIds(tiles, |tiles|, 0)
      ensures |ids| == |positions| && Distinct(positions) && CellsIn(tiles, positions)
      ensures forall k :: 0 <= k < |positions| ==> ids[k] == tiles[positions[k].0][positions[k].1] != EMPTY
    {
      positions := [];
      ids := [];
      var i := 0;
      while i < |tiles|
        invariant 0 <= i <= |tiles|
        invariant positions == Occupied(tiles, i, 0) && ids == OccupiedIds(tiles, i, 0)
      {
        var j := 0;
        while j < |tiles[0]|
          invariant 0 <= j <= |tiles[0]|
          invariant positions == Occupied(tiles, i, j) && ids == OccupiedIds(tiles, i, j)
        {
          if tiles[i][j] != EMPTY {
            positions := positions + [(i, j)];
            ids := ids + [tiles[i][j]];
          }
          j := j + 1;
        }
        i := i + 1;
      }
      OccupiedSorted(tiles, |tiles|, 0);
      OccupiedIdsAt(tiles, |tiles|, 0);
      SortedDistinct(tiles, positions, |tiles|, 0);
    }

    /** The second half of `__shuffle_tiles`: the k-th value goes into the
        k-th cell. */
    method WriteTiles(positions: seq<Pos>, values: seq<int>)
      requires |values| == |positions| && CellsIn(tiles, positions)
      modifies this
      ensures tiles == WriteBack(old(tiles), positions, values)
      ensures eliminated == old(eliminated) && state == old(state)
    {
      ghost var g := tiles;
      for k := 0 to |positions|
        invariant tiles == WriteBack(g, positions[..k], values[..k])
        invariant eliminated == old(eliminated) && state == old(state)
      {
        assert positions[..k + 1][..k] == positions[..k];
        assert values[..k + 1][..k] == values[..k];
        tiles := SetCell(tiles, positions[k].0, positions[k].1, values[k]);
      }
      assert positions[..|positions|] == positions && values[..|values|] == values;
    }

    /** `__shuffle_tiles`: collect the occupied cells and their ids row by
        row, shuffle the ids with the random numbers `draws`, and write them
        back over the same cells. */
    method ShuffleTiles(draws: seq<nat>)
      requires Rect(tiles)
      modifies this
      ensures tiles == ShuffleGrid(old(tiles), draws)
      ensures eliminated == old(eliminated) && state == old(state)
    {
      var positions, ids := CollectTiles();
      var values := Shuffle(ids, draws);
      WriteTiles(positions, values);
    }

    /** `__generate_playable_board`: while no pair can be joined, shuffle.
        The source draws fresh random numbers for as long as it takes; here
        they come as `rounds`, one list per shuffle, and the loop also ends
        when they run out. */
    method GeneratePlayableBoard(rounds: seq<seq<nat>>)
      requires Valid() && tiles != []
      modifies this
      ensures Rect(old(tiles)) && tiles == Settle(old(tiles), Kinds(), rounds)
      ensures eliminated == old(eliminated) && state == old(state) && Valid() && tiles != []
      ensures HasMove(old(tiles), Kinds()) ==> tiles == old(tiles)
      ensures HasMove(tiles, Kinds()) ||
        forall k :: 0 <= k < |rounds| ==> !HasMove(Settle(old(tiles), Kinds(), rounds[..k]), Kinds())
    {
      ghost var g := tiles;
      var n := Kinds();
      DealtPaired(tiles, width, height, n);
      var possible := IsPossiblePlay();
      var k := 0;
      while !possible && k < |rounds|
        invariant 0 <= k <= |rounds| && Valid() && tiles != [] && Rect(tiles)
        invariant possible == HasMove(tiles, n)
        invariant Settle(tiles, n, rounds[k..]) == Settle(g, n, rounds)
        invariant eliminated == old(eliminated) && state == old(state)
        decreases |rounds| - k
      {
        assert rounds[k..][0] == rounds[k] && rounds[k..][1..] == rounds[k + 1..];
        ShuffleDealt(tiles, width, height, n, rounds[k]);
        ShuffleTiles(rounds[k]);
        k := k + 1;
        DealtPaired(tiles, width, height, n);
        possible := IsPossiblePlay();
      }
      SettleStops(g, n, rounds);
    }

    // -------------------------------------------------------------------------
    // Playing a pair

    /** `__movement_done`: one more pair taken off. */
    method MovementDone()
      modifies this
      ensures eliminated == old(eliminated) + 1
      ensures tiles == old(tiles) && state == old(state)
    {
      eliminated := eliminated + 1;
    }

    /** `play_movement`: a click on (i1, j1) and (i2, j2). When a route joins
        the two, both cells are emptied, the pair is counted, the cells of
        the route are returned, and then either the game is over or the
        board is reshuffled while no pair can be joined. Otherwise nothing
        changes and no cell is returned. */
    method PlayMovement(i1: int, j1: int, i2: int, j2: int, rounds: seq<seq<nat>>) returns (positions: seq<Pos>)
      requires Valid() && tiles != []
      modifies this
      ensures Valid() && tiles != [] && Rect(old(tiles))
      ensures var route := MoveRoute(old(tiles), i1, j1, i2, j2);
        if route == "" then
          positions == [] && tiles == old(tiles) && eliminated == old(eliminated) && state == old(state)
        else
          InGrid(old(tiles), i1, j1) && InGrid(old(tiles), i2, j2) &&
          positions == Walk(MoveStart(i1, j1, i2, j2), route) &&
          eliminated == old(eliminated) + 1 &&
          var cleared := Cleared(old(tiles), i1, j1, i2, j2);
          if TileCount(cleared) == 0 then tiles == cleared && state == Finish
          else tiles == Settle(cleared, Kinds(), rounds) && state == old(state)
    {
      DealtRect(tiles, width, height, Kinds());
      positions := [];
      if !(0 <= i1 < |tiles| && 0 <= j1 < |tiles[0]|) || !(0 <= i2 < |tiles| && 0 <= j2 < |tiles[0]|) {
        return;
      }
      if tiles[i1][j1] != tiles[i2][j2] {
        return;
      }
      var lines: string;
      var initialI, initialJ: int;
      if i1 <= i2 {
        lines := MakeLines(tiles, i1, j1, i2, j2);
        initialI, initialJ := i1, j1;
      } else {
        lines := MakeLines(tiles, i2, j2, i1, j1);
        initialI, initialJ := i2, j2;
      }
      if lines != "" {
        MoveRouteSound(tiles, i1, j1, i2, j2);
        RemovePair(i1, j1, i2, j2);
        positions := GetPositionsByLine(lines, initialI, initialJ);
        EndMovement(rounds);
      }
    }

    /** Taking a joined pair off: both cells emptied and the pair counted. */
    method RemovePair(i1: int, j1: int, i2: int, j2: int)
      requires Valid() && tiles != [] && Rect(tiles) && InGrid(tiles, i1, j1) && InGrid(tiles, i2, j2)
      requires (i1, j1) != (i2, j2) && tiles[i1][j1] == tiles[i2][j2] != EMPTY
      modifies this
      ensures tiles == Cleared(old(tiles), i1, j1, i2, j2) && TileCount(tiles) == TileCount(old(tiles)) - 2
      ensures eliminated == old(eliminated) + 1 && state == old(state) && Valid() && tiles != []
    {
      ghost var g := tiles;
      ClearDealt(g, width, height, Kinds(), i1, j1, i2, j2);
      tiles := SetCell(tiles, i1, j1, EMPTY);
      tiles := SetCell(tiles, i2, j2, EMPTY);
      assert tiles == Cleared(g, i1, j1, i2, j2);
      MovementDone();
    }

    /** The end of `play_movement`, once a pair is taken off: an empty board
        finishes the game; otherwise a stuck board is reshuffled. */
    method EndMovement(rounds: seq<seq<nat>>)
      requires Valid() && tiles != []
      modifies this
      ensures Valid() && tiles != [] && Rect(old(tiles)) && eliminated == old(eliminated)
      ensures TileCount(old(tiles)) == 0 ==> tiles == old(tiles) && state == Finish
      ensures TileCount(old(tiles)) != 0 ==> tiles == Settle(old(tiles), Kinds(), rounds) && state == old(state)
    {
      DealtRect(tiles, width, height, Kinds());
      var finished := IsFinished();
      if finished {
        state := Finish;
      } else {
        DealtPaired(tiles, width, height, Kinds());
        var possible := IsPossiblePlay();
        if !possible {
          GeneratePlayableBoard(rounds);
        } else {
          SettleStops(tiles, Kinds(), rounds);
        }
      }
    }
  }
}
