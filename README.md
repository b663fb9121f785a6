# Match3Lines engine in Dafny

A model of the tile engine of Match3Lines, a Shisen-sho style game. The board
holds pairs of identical tiles. Two tiles of the same kind can be taken off
when a route joins them. The route may turn at most twice and may pass only
over empty cells, including the empty ring around the play area.

The model has these modules:

- `Grid` (grid.dfy): the padded grid of tile ids. It uses -1 for an empty
  cell, as `get_tile_index` does. It also holds the row-major scans the board
  makes.
- `Routes`, `RouteFacts`, `RouteShapes` (routes.dfy, route_facts.dfy,
  route_shapes.dfy):
  - the six hand-written route shapes, and `__make_lines`, which tries them
    in the source's order;
  - what a route means on the grid;
  - a proof that every route the engine returns is legal.
- `Paths` (paths.dfy): a route turned into the cells it visits, and those
  cells turned into drawing tags.
- `Shuffling` (shuffle.dfy): `random.shuffle`, as the Fisher–Yates shuffle
  driven by supplied random numbers, and `__shuffle_tiles` built on it.
- `Dealing` (deal.dfy): the deal `__separate_by_row` builds, and the shape
  every board keeps afterwards.
- `Moves` (moves.dfy): the specifications of the board's decisions:
  - whether a move exists;
  - which pair to advise;
  - what a click on two cells does;
  - the reshuffle of a stuck board.
- `BoardModel` (board.dfy): the `Board` class. Its methods update the grid
  in place and are proved against `Dealing` and `Moves`.
- `Counter` (user_counter.dfy): the `UserCounter` class, for points and
  level.
- `LinesRecord` (lines.dfy): the `Lines` result record, modelled as a value.
- `GameModel` (game.dfy): the `Game` class. It covers the selection of two
  cells, scoring, hints and screen changes.

## Model

| member | source | states |
|---|---|---|
| Grid.ClearCellCount | model/board.py:519-520 | Emptying a cell that holds a tile removes one copy of that tile from the grid and changes no other tile's count |
| Grid.InGrid | model/board.py:189-192 | `__is_possible_cell`: the cell lies on the padded grid. `Moves.MoveRouteSound` shows that a click outside it is a miss |
| Grid.Crashed | model/board.py:194-197 | `__is_crashed`: the cell holds a tile. `RouteFacts.ClearInteriorCells` shows that no route passes over such a cell |
| Grid.HoldingSorted | model/board.py:577-583 | The scan files the cells holding an id in strictly increasing row-major order, and each of those cells holds that id |
| Grid.PositionsOfCount | model/board.py:577-583 | The scan lists an id exactly as many times as the grid holds it |
| Grid.OccupiedSorted | model/board.py:533-538 | The cells `__shuffle_tiles` collects are in strictly increasing row-major order and all hold a tile |
| Grid.OccupiedComplete | model/board.py:533-538 | Every cell that holds a tile is among the collected cells |
| Grid.OccupiedIdsAt | model/board.py:533-538 | The k-th collected id is the content of the k-th collected cell |
| Routes.Run | model/board.py:210 | Python's string repetition: n copies of the direction, and none when n is not positive |
| Routes.Walk | model/board.py:483-497 | A route visits one more cell than it has steps, and the walk begins at the starting cell |
| Routes.AboveTile | model/board.py:635-638 | The pair is reordered so that the upper tile comes first, and left as given when both tiles share a row |
| Routes.SameColumnTiles | model/board.py:199-213 | The straight route down a column. `RouteShapes.ColumnFromRoute` and `RouteShapes.ColumnFromReaches` state when it is found and that it is legal |
| Routes.SameRowTiles | model/board.py:272-292 | The straight route along a row, to the left or the right. `RouteShapes.RowFromRoute` and `RouteShapes.RowFromReaches` state its meaning |
| Routes.ToLeftRightSide | model/board.py:215-270 | The two-turn detour through a column to the left or the right of both cells. `RouteShapes.ToLeftRightSideRoute` states that each result is legal |
| Routes.ToUpDownSide | model/board.py:294-356 | The two-turn detour through a row above or below both cells. `RouteShapes.ToUpDownSideRoute` states that each result is legal |
| Routes.BorderSideLines | model/board.py:358-404 | The one-turn L-shaped route. `RouteShapes.BorderSideLinesRoute` states that each result is legal |
| Routes.StairSide | model/board.py:406-472 | The two-turn stair route between cells in different rows and columns. `RouteShapes.StairSideRoute` states that each result is legal |
| Routes.MakeLines | model/board.py:640-676 | `__make_lines`: tries the shapes in the source's order and returns the first route found, or "". `RouteShapes.MakeLinesRoute` states that every result is legal; `StraightColumnFirst`, `StraightRowFirst` and `OneTurnFirst` state the order |
| RouteFacts.ConnectsWalk | model/board.py:483-497 | A joining route's cells run from the first tile to the second. Each is next to the previous one, the route never steps straight back, and every cell strictly between the ends is empty |
| RouteFacts.ClearInteriorCells | model/board.py:199-472 | Every cell a route crosses strictly between its two ends lies in the grid and is empty |
| RouteShapes.ColumnFromRoute | model/board.py:199-213 | `__same_column_tiles` returns only a straight downward route through empty cells that ends on the other tile |
| RouteShapes.ColumnFromReaches | model/board.py:199-213 | When only empty cells lie between the upper tile and a tile below it, the column walk returns the straight route |
| RouteShapes.RowFromRoute | model/board.py:272-292 | `__same_row_tiles` returns only a straight route along the row through empty cells that ends on the other tile |
| RouteShapes.RowFromReaches | model/board.py:272-292 | When only empty cells lie between two tiles of a row, the row walk returns the straight route |
| RouteShapes.ToLeftRightSideRoute | model/board.py:215-270 | Any route `__to_left_right_side` returns joins the tiles through empty cells with exactly two turns |
| RouteShapes.ToUpDownSideRoute | model/board.py:294-356 | Any route `__to_up_down_side` returns joins the tiles through empty cells with exactly two turns |
| RouteShapes.BorderSideLinesRoute | model/board.py:358-404 | Any route `__border_side_lines` returns joins the tiles through empty cells with exactly one turn |
| RouteShapes.StairSideRoute | model/board.py:406-472 | Any route `__stair_side` returns joins the tiles through empty cells with exactly two turns |
| RouteShapes.MakeLinesRoute | model/board.py:640-676 | A non-empty route joins two distinct cells that hold the same tile, the first not below the second. It passes only over empty cells and turns at most twice |
| RouteShapes.StraightColumnFirst | model/board.py:643-647 | Two matching tiles in one column with only empty cells between them are always joined by the straight route, never by a detour |
| RouteShapes.StraightRowFirst | model/board.py:667-675 | Two matching tiles in one row with only empty cells between them are always joined by the straight route |
| RouteShapes.OneTurnFirst | model/board.py:649-666 | When a one-turn route joins matching tiles in different rows and columns, `__make_lines` returns a one-turn route and no two-turn detour |
| Paths.GetPositionsByLine | model/board.py:483-497 | The loop lists the cells the route visits, one per step. The list starts at the starting cell and ends where the route ends |
| Paths.GetLinesByPosition | model/board.py:678-696 | The loop yields the concatenation of the tags of the cells, in order |
| Paths.LinesOf | model/board.py:678-696 | The drawing of a cell list, one tag per cell. `Paths.GetLinesByPosition` is proved equal to it and `Paths.TagsFollowPath` states its meaning |
| Paths.LineGiven3 | model/board.py:698-737 | `__get_line_given_3_positions`: the tag of a cell from its neighbours on the path. `Paths.LineSides` and `Paths.LineAtSides` state that the tag faces them |
| Paths.HalfLine | model/board.py:702-723 | The half-cap of an end cell, facing its one neighbour on the path. `Paths.TagsFollowPath` states this for both ends |
| Paths.TurnedLine | model/board.py:739-767 | `__get_turned_line`: the corner tag of a cell where the path turns. `Paths.LineSides` states that it faces both neighbours |
| Paths.LineSides | model/board.py:698-737 | For a cell with one or two neighbours on a path, the tag is a single character. Its line touches exactly the sides facing those neighbours: a half line at an end, a straight line or the right corner in between |
| Paths.LineAtSides | model/board.py:684-695 | The tag the loop picks for each cell of a path faces exactly that cell's neighbours on the path |
| Paths.TagsFollowPath | model/board.py:678-696 | For a path of at least two cells there is one tag per cell, and each tag touches exactly the sides toward the previous and next cells |
| Paths.RouteDrawing | model/board.py:483-497 | The drawing of a joining route has one tag for each cell of its walk, each facing that cell's neighbours on the walk |
| Shuffling.Shuffle | model/board.py:150 | The shuffle returns a permutation of its input, for any random numbers |
| Shuffling.WriteBackCells | model/board.py:540-544 | Writing ids back changes only the listed cells, and each listed cell gets its id |
| Shuffling.WriteBackCount | model/board.py:540-544 | Writing ids back trades the old contents of the listed cells for the written ids |
| Shuffling.ShuffleGrid | model/board.py:531-544 | `__shuffle_tiles` as a function of the grid and the random numbers. It keeps the shape; `Shuffling.ShuffleGridKeeps` states that it keeps the occupancy and the multiset of ids |
| Shuffling.ShuffleGridCount | model/board.py:531-544 | `__shuffle_tiles` keeps the multiset of ids on the grid |
| Shuffling.ShuffleGridOccupancy | model/board.py:531-544 | After `__shuffle_tiles` a cell is empty exactly when it was empty before |
| Shuffling.ShuffleGridKeeps | model/board.py:531-544 | `__shuffle_tiles` keeps the grid's shape, the set of occupied cells and the multiset of ids |
| Dealing.PairsCount | model/board.py:146-149 | Before shuffling, the list holds each id of 0..n-1 exactly twice and nothing else |
| Dealing.Deal | model/board.py:152-160 | A deal is a rectangle whose rows are width + 2 cells long |
| Dealing.RowsCount | model/board.py:152-158 | The framed rows hold the rest of the list, plus two empty cells per row |
| Dealing.DealShape | model/board.py:145-166 | A deal of height full rows has height + 2 rows of width + 2 cells, and its outer ring is empty |
| Dealing.DealCount | model/board.py:145-166 | A deal holds the list's ids plus empty cells on the frame |
| Dealing.DealFacts | model/board.py:145-166 | A deal of w * h ids, each present twice or not at all, is a dealt board with all w * h play cells occupied |
| Dealing.ShuffledDeal | model/board.py:145-160 | Whatever order the shuffle gives, the deal holds every id of 0..w*h/2-1 exactly twice, fills all w * h play cells and leaves the outer ring empty |
| Dealing.DealtRect | model/board.py:178-184 | A dealt board is a rectangle of width + 2 columns |
| Dealing.DealtPaired | model/board.py:584-586 | On a dealt board no id sits on exactly one cell, so the scans never read past an id's list |
| Moves.PairOf | model/board.py:584-585 | The first two cells of an id, upper one first, are distinct cells of the grid holding that id |
| Moves.PlayableRoute | model/board.py:584-590 | A pair the scan can join is linked through empty cells with at most two turns |
| Moves.HasMove | model/board.py:572-593 | `__is_possible_play`: some id's two cells are joined by `__make_lines`. `BoardModel.Board.IsPossiblePlay` is proved to compute it |
| Moves.FirstPlayable | model/board.py:584-593 | The first id, in list order, whose pair can be joined. `Moves.FirstPlayableSpec` states that it is the smallest such id |
| Moves.FirstPlayableSpec | model/board.py:583-593 | The scan stops at the smallest id from its start that can be joined, and it skips only ids that cannot be joined |
| Moves.AdviceSpec | model/board.py:546-570 | The advice is `ADVISED_TILE_ERROR` exactly when no pair can be joined. Otherwise it is the pair of the smallest id that can be, upper tile first |
| Moves.Advice | model/board.py:546-570 | `get_advised_tile_pair` as a function of the grid. `Moves.AdviceSpec` and `Moves.AdviceIsMove` state its meaning |
| Moves.AdviceIsMove | model/board.py:546-570 | Clicking the advised pair is a successful move |
| Moves.PlayableIsMove | model/board.py:500-518 | A click on the two cells of a joinable id finds the same route the scan found |
| Moves.MoveRoute | model/board.py:500-517 | The route `play_movement` finds for two clicked cells, "" for a miss. `Moves.MoveRouteSound` states that a non-empty one is a legal move |
| Moves.MoveRouteSound | model/board.py:500-518 | A click succeeds only on two distinct in-grid cells holding the same tile. They are joined from the upper one through empty cells with at most two turns |
| Moves.Cleared | model/board.py:519-520 | Clearing a pair keeps the grid's shape |
| Moves.ClearDealt | model/board.py:519-521 | Emptying the two cells of a pair removes that tile entirely. The two cells become empty, every other cell is kept, two fewer tiles remain, and the board stays dealt |
| Moves.ShuffleDealt | model/board.py:531-544 | A shuffle keeps a dealt board dealt, with as many tiles as before |
| Moves.Settle | model/board.py:474-476 | Reshuffling keeps the grid's shape |
| Moves.SettleStops | model/board.py:474-476 | A board with a move is left untouched. Otherwise reshuffling ends on a board with a move, unless every supplied round was needed |
| Moves.SettleDealt | model/board.py:474-476 | Reshuffling keeps a dealt board dealt, with every id's count unchanged |
| BoardModel.Wrap | model/board.py:113 | Python's list index: a negative index counts from the end |
| BoardModel.RowStep | model/board.py:155-158 | One pass of the row loop moves the next framed row from the rows still to cut onto the board |
| BoardModel.Board.constructor | model/board.py:94-109 | A new board has its size, no grid, no pairs taken off, and the playing state |
| BoardModel.Board.Create | model/board.py:94-96 | Construction fails exactly when width * height is odd |
| BoardModel.Board.GetTileIndex | model/board.py:112-116 | The id on the cell, with Python's negative indices, or -1 for an empty cell. On a scanned board it is -1 or an id below the number of kinds |
| BoardModel.Board.IsATile | model/board.py:186-187 | The cell holds a tile exactly when its index is not -1 |
| BoardModel.Board.GetBoardSize | model/board.py:178-184 | (-1, -1) while no board is dealt; otherwise (width + 2, height + 2) |
| BoardModel.Board.IsFinished | model/board.py:127-128 | Counting w*h/2 eliminated pairs means the board holds no tile |
| BoardModel.Board.RowOfNone | model/board.py:162-166 | A row of width + 2 empty cells |
| BoardModel.Board.PairList | model/board.py:146-149 | The first loop lists every id twice, in order |
| BoardModel.Board.CutRows | model/board.py:151-160 | The row loop builds exactly the framed deal of the list |
| BoardModel.Board.SeparateByRow | model/board.py:145-160 | The dealt grid is the shuffled pair list cut into framed rows |
| BoardModel.Board.InitBoard | model/board.py:138-143 | A fresh deal, reshuffled while stuck. No pair is taken off yet, every play cell is full, and each id occurs exactly twice |
| BoardModel.Board.ResetBoard | model/board.py:133-136 | As `init_board`, and the board is playing again |
| BoardModel.Board.IndexPositions | model/board.py:574-583 | The table lists, for each id, the cells holding it in row-major order |
| BoardModel.Board.TryPair | model/board.py:584-592 | The route for one id is non-empty exactly when that id can be joined, and the pair tried is that id's pair |
| BoardModel.Board.IsPossiblePlay | model/board.py:572-593 | True exactly when some id on the board can be joined |
| BoardModel.Board.GetAdvisedTilePair | model/board.py:546-570 | The error pair exactly when no move exists. Otherwise the pair of the smallest joinable id, and clicking it is a successful move. The board is not changed |
| BoardModel.Board.CollectTiles | model/board.py:532-538 | The occupied cells, row by row, with their ids; no cell is listed twice |
| BoardModel.Board.WriteTiles | model/board.py:540-544 | The k-th id goes into the k-th cell, and nothing else changes |
| BoardModel.Board.ShuffleTiles | model/board.py:531-544 | The grid becomes the shuffled grid, which keeps the occupied cells and the ids |
| BoardModel.Board.GeneratePlayableBoard | model/board.py:474-476 | A board with a move is kept. Otherwise it is reshuffled until a move exists or the supplied rounds run out; the pair count and state are kept, and the board stays dealt |
| BoardModel.Board.MovementDone | model/board.py:478-481 | One more pair counted; the grid is unchanged |
| BoardModel.Board.PlayMovement | model/board.py:500-529 | A miss (out of range, different tiles, same cell, no route) returns no cell and changes nothing. A hit empties exactly the two cells, counts the pair and returns the route's cells from the upper tile. Then the board either finishes (when empty) or is reshuffled while stuck |
| BoardModel.Board.RemovePair | model/board.py:519-521 | Exactly the two cells become empty, two tiles fewer remain and one more pair is counted |
| BoardModel.Board.EndMovement | model/board.py:524-527 | An empty board finishes. Otherwise a stuck board is reshuffled and a playable one is kept |
| Counter.IntPartBounds | model/user_counter.py:17 | The integer part of a non-negative number is the largest whole number not above it |
| Counter.TruncToward0 | model/user_counter.py:17 | `int(t)` drops the fraction toward zero |
| Counter.UserCounter.constructor | model/user_counter.py:6-8 | A new counter is at level 1 with no points |
| Counter.UserCounter.WonLevel | model/user_counter.py:16-18 | The points rise by twice the truncated remaining time; the level is kept |
| Counter.UserCounter.IncreaseLevel | model/user_counter.py:20-21 | The level rises by the quantity; the points are kept |
| Counter.UserCounter.IncreasePoints | model/user_counter.py:23-24 | The points rise by the amount; the level is kept |
| Counter.UserCounter.DecreasePoints | model/user_counter.py:26-30 | Subtracts the amount when the result stays non-negative, else sets the points to 0. The points are never negative afterwards |
| Counter.UserCounter.Reset | model/user_counter.py:32-34 | Back to level 1 with no points |
| Counter.UserCounter.ArePointsBiggerThan | model/user_counter.py:36-37 | True exactly when the points reach the quantity (not a strict comparison) |
| LinesRecord.Lines.IsEmpty | model/lines.py:12-13 | `is_empty`: the drawing string is empty, whatever the positions. `GameModel.Game.PlayClicked` states that this happens exactly on a miss |
| GameModel.TimeForLevel | model/game.py:247-248 | The time allowed never grows with the level, and level 1 keeps it as it is |
| GameModel.MovePositions | model/game.py:124 | The cells a click returns are never a single cell, so drawing them is always defined |
| GameModel.MoveDrawing | model/game.py:124-127 | The drawing of a click is empty exactly when no route joins the two cells; otherwise it has one tag per cell |
| GameModel.Scored | model/game.py:129-132 | A joined pair earns 10 points; a miss costs 5, floored at 0 |
| GameModel.Game.constructor | model/game.py:29-53 | A new game starts on the main menu with a fresh counter, no selection, no advice and an undealt board with no pair taken off, in the PLAYING state |
| GameModel.Game.IsClickedTile | model/game.py:71-80 | True exactly for the first or the second clicked cell; false when nothing is clicked |
| GameModel.Game.IsMaxSelectedTiles | model/game.py:90-91 | True exactly when two cells are clicked |
| GameModel.Game.IsAdvisedTile | model/game.py:82-85 | False while the advice is the error pair; otherwise true exactly for an advised cell |
| GameModel.Game.ResetClickedTiles | model/game.py:87-88 | The selection is emptied and nothing else changes |
| GameModel.Game.ResetAdvisedTiles | model/game.py:118-119 | The advice becomes the error pair and nothing else changes |
| GameModel.Game.AddSelectedTile | model/game.py:97-100 | The cell is appended only when it holds a tile and fewer than two cells are clicked; otherwise nothing changes |
| GameModel.Game.RemoveSelectedTile | model/game.py:93-95 | The selection is cleared only when fewer than two cells are clicked and (i, j) is one of them; otherwise nothing changes |
| GameModel.Game.SetAAdvisedTilePair | model/game.py:102-106 | With at least 50 points the board's advice is stored, and it costs 50 points unless it is the error pair. A real advice is a successful move. With fewer points nothing changes |
| GameModel.Game.WonLevel | model/game.py:206-210 | The advice is withdrawn, the level is won, and the points rise by twice the whole seconds left |
| GameModel.Game.PlayClicked | model/game.py:124-127 | The board plays the two clicked cells and the result carries the route's cells and their drawing. It is empty exactly on a miss. The grid becomes the one the move leaves, one more pair is counted on a hit, and the board's state becomes FINISH exactly when the hit empties the board |
| GameModel.Game.ScoreMove | model/game.py:128-134 | Plus 10 for a hit, minus 5 floored at 0 for a miss. An emptied board wins the level and adds the time bonus |
| GameModel.Game.PlayMovement | model/game.py:121-135 | Without two clicked cells nothing happens and the result is empty. With two, the board plays them: the grid becomes the one the move leaves, one more pair is counted on a hit, and the board's state becomes FINISH exactly when the hit empties the board. The selection is cleared, a hit earns 10 points and a miss costs 5 (floored at 0), and the result is empty exactly on a miss. An emptied board wins the level |
| GameModel.Game.PauseGame | model/game.py:193-196 | The game is paused and nothing else changes |
| GameModel.Game.ResumeGame | model/game.py:199-204 | Only a paused game resumes, and its advice is withdrawn; in any other state nothing changes |
| GameModel.Game.GameOver | model/game.py:221-227 | The game is over, the record flag is set, and the advice is withdrawn |
| GameModel.Game.RunGame | model/game.py:174-180 | Playing on a fresh deal with an empty selection and the clock at 0, and the time allowed cut for the level |
| GameModel.Game.SetUserTime | model/game.py:247-248 | The time allowed is cut by a quarter of a second per level above the first |
| GameModel.Game.ResetGame | model/game.py:182-185 | The counter starts over at level 1 with no points, then a fresh settled deal is played with no pair taken off. The board's state, the advice and the record flag stay as they were |
| GameModel.Game.NextLevel | model/game.py:213-219 | One level up, points kept, a fresh settled deal with less time and no pair taken off, and the advice withdrawn. The board's state and the record flag stay as they were |

## Left out

- The window, the presenter, the database of players and the chronometer
  (view/, presenter/, model/database_controller.py, model/chronometer.py) are
  not part of this model:
  - the remaining and elapsed time are fields of `Game`;
  - whether the points are a new record is a parameter of `GameOver`.
- Floating point: times are `real`, so rounding in Python floats is not
  modelled. `int(t)` is modelled exactly, as truncation toward zero.
- Randomness: `random.shuffle` takes its random numbers as a parameter, so
  every permutation can be reached.
  - The reshuffle loop of `__generate_playable_board` never ends while no
    move exists. Here it takes one list of random numbers per round and stops
    when they run out.
- BoardModel.Board.GeneratePlayableBoard: promises a board with a move only
  when the supplied rounds suffice. Otherwise the board it leaves has had no
  move after any earlier round.
- BoardModel.Board.PlayMovement: after a hit, the board has a move only when
  the supplied rounds suffice, as for `GeneratePlayableBoard`. On its early
  exits the source returns the empty string where the model returns an empty
  list; the caller treats both as empty.
- `__get_correct_lines` (model/board.py:595-633): its result is computed and
  then dropped, so it does not affect the game.
- `print_board`, `Tile.__str__`, and the window position and click fields of
  `Tile` are not modelled: nothing in the engine reads them. The tiles'
  deep copies carry no identity, so a tile is its id.
- The `ready_to_play` attribute that `__movement_done` sets is never read,
  and is left out.
- BoardModel.Board.InitBoard: requires at least one row and one column,
  because the source never returns otherwise:
  - with no column (width 0 or less), the row loop of `__separate_by_row`
    (model/board.py:154) never ends, since its index never moves forward;
  - with a column but no row, no tile is dealt, so no move ever exists and
    the reshuffle loop of `__generate_playable_board` (model/board.py:474-476)
    never ends.
- BoardModel.Board.GetTileIndex: requires a dealt board and indices in
  Python's range `[-len, len)`. Before any deal the source raises TypeError,
  and outside that range it raises IndexError. `draw_board` passes
  0 <= i, j < len (view/game_screen.py:409-411). `click_in_tile` passes
  indices in [-1, len) (view/game_screen.py:430-452), which Python wraps and
  the requires admits.
- BoardModel.Board.IsATile: has the same requires as `GetTileIndex`, for the
  same TypeError and IndexError.
- GameModel.Game.AddSelectedTile: has the same requires on the clicked cell,
  since it asks `is_a_tile` first.
- `init_board`'s check that there are enough tiles never fails, since the
  number of kinds is always w*h/2, and it is left out.
- The `Board` and `Game` constructors require an even number of cells.
  `BoardModel.Board.Create` models the source's exception for an odd number.
- Paths.GetLinesByPosition: requires a list other than one cell. On one
  cell the source indexes past the end of the list. The engine never passes
  one cell, as `GameModel.MovePositions` shows.
- `Game`'s delegating getters and setters are not modelled because they hold
  no logic:
  - the screen predicates and setters (`is_playing_game` … `is_about_menu`,
    `statistic`, `main_menu`, `about_menu`);
  - the delegating getters (`get_id_board_element`, `get_board_dimension`,
    `is_a_tile`, `get_user_level`, `get_user_points`, `is_new_record`,
    `get_clicked_tile_positions`);
  - the player database calls (`get_players_from_memory`,
    `update_players_from_memory`, `get_all_players`, `insert_player`,
    `reset_statistics`, `delay_thread`).
- The clock parts of `Game` depend on the chronometer and are left out:
  - the time penalties and the help timer of `set_a_advised_tile_pair`
    (model/game.py:107-109);
  - `is_advised_tile_chronometer_done`, `reset_advised_tile_chronometer`;
  - `get_current_time_percent` and `__calculate_percent`.
- Cell lists are sequences of (row, column) pairs rather than Python lists of
  two-element lists.
