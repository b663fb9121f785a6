/** A game (model/game.py): one board, the player's counter, the cells the
    player has clicked, the advised pair and the screen the game is on. The
    clock, the database of players and the window are outside the model:
    the remaining and elapsed time are fields the caller keeps up to date,
    and whether the points are a record is passed in. */
module GameModel {
  import opened Grid
  import opened Routes
  import opened Moves
  import opened Paths
  import opened Dealing
  import opened Shuffling
  import opened BoardModel
  import opened Counter
  import opened LinesRecord

  // Screens.
  const PLAYING: int := 0
  const PAUSED: int := 1
  const GAME_OVER: int := 2
  const WON_GAME: int := 3
  const MAIN_MENU: int := 4
  const STATISTIC: int := 5
  const ABOUT: int := 6

  // Points.
  const POINTS_FOR_CORRECT: int := 10
  const POINTS_FOR_INCORRECT: int := 5
  const POINTS_FOR_HELP: int := 50

  /** The time allowed at a level: a quarter of a second less per level
      above the first than the time it is cut from. */
  function TimeForLevel(time: real, level: int): (r: real)
    ensures level >= 1 ==> r <= time
    ensures level == 1 ==> r == time
  {
    time - (level - 1) as real * 0.25
  }

  /** The cells the board returns for a click on (i1, j1) and (i2, j2): the
      walk of the joining route, or nothing when no route joins them. */
  function MovePositions(g: Cells, i1: int, j1: int, i2: int, j2: int): (ps: seq<Pos>)
    requires Rect(g)
    ensures |ps| != 1
  {
    var route := MoveRoute(g, i1, j1, i2, j2);
    if route == "" then [] else Walk(MoveStart(i1, j1, i2, j2), route)
  }

  /** The grid the board is left with after a click on (i1, j1) and (i2, j2),
      with n ids: unchanged when no route joins them; otherwise both cells are
      emptied and, unless the board is then empty, reshuffled while stuck. */
  function AfterMove(g: Cells, n: int, i1: int, j1: int, i2: int, j2: int, rounds: seq<seq<nat>>): Cells
    requires Rect(g)
  {
    if MoveRoute(g, i1, j1, i2, j2) == "" then g
    else
      MoveRouteSound(g, i1, j1, i2, j2);
      var cleared := Cleared(g, i1, j1, i2, j2);
      if TileCount(cleared) == 0 then cleared else Settle(cleared, n, rounds)
  }

  /** The drawing of a click's result is empty exactly when no route joins
      the two cells; otherwise it has one tag per cell of the route. */
  lemma MoveDrawing(g: Cells, i1: int, j1: int, i2: int, j2: int)
    requires Rect(g)
    ensures var ps := MovePositions(g, i1, j1, i2, j2);
      (LinesOf(ps) == "" <==> MoveRoute(g, i1, j1, i2, j2) == "") &&
      |LinesOf(ps)| == |ps|
  {
    var route := MoveRoute(g, i1, j1, i2, j2);
    if route != "" {
      MoveRouteSound(g, i1, j1, i2, j2);
      RouteDrawing(g, MoveStart(i1, j1, i2, j2), MoveEnd(i1, j1, i2, j2), route);
    }
  }

  /** The points after a click: 10 more for a joined pair, 5 fewer (but not
      below zero) for a miss. */
  function Scored(points: int, joined: bool): (r: int)
    ensures joined ==> r == points + POINTS_FOR_CORRECT
    ensures !joined && points >= POINTS_FOR_INCORRECT ==> r == points - POINTS_FOR_INCORRECT
    ensures !joined && points < POINTS_FOR_INCORRECT ==> r == 0
  {
    if joined then points + POINTS_FOR_CORRECT
    else if points - POINTS_FOR_INCORRECT >= 0 then points - POINTS_FOR_INCORRECT
    else 0
  }

  class Game {
    const board: Board
    const counter: UserCounter
    /** The clicked cells as the source keeps them: row, column, row, column. */
    var clicked: seq<int>
    var advised: seq<Pos>
    var state: int
    var userTime: real
    var passedTime: real
    var newRecord: bool

    /** At most two cells are clicked, each stored as a row and a column. */
    predicate Selection()
      reads this
    {
      |clicked| == 0 || |clicked| == 2 || |clicked| == 4
    }

    ghost predicate Valid()
      reads this, board
    {
      board.Valid() && Selection()
    }

    /** The clicked cells, first click first. */
    function Selected(): (s: seq<Pos>)
      reads this
      requires Selection()
      ensures |s| == |clicked| / 2
    {
      if |clicked| == 4 then [(clicked[0], clicked[1]), (clicked[2], clicked[3])]
      else if |clicked| == 2 then [(clicked[0], clicked[1])]
      else []
    }

    /** A new game on a board of width by height tiles, on the main menu;
        the source raises an exception for an odd number of tiles. */
    constructor (width: int, height: int, userTime: real)
      requires (width * height) % 2 == 0
      ensures fresh(board) && fresh(counter)
      ensures board.width == width && board.height == height && board.tiles == []
      ensures board.eliminated == 0 && board.state == Playing
      ensures counter.level == 1 && counter.points == 0
      ensures clicked == [] && advised == [] && state == MAIN_MENU
      ensures this.userTime == userTime && passedTime == 0.0 && !newRecord
      ensures Valid()
    {
      this.userTime := userTime;
      passedTime := 0.0;
      clicked := [];
      advised := [];
      state := MAIN_MENU;
      counter := new UserCounter();
      board := new Board(width, height);
      newRecord := false;
    }

    /** The points a won level adds: twice the whole seconds left. */
    function WinBonus(): int
      reads this
    {
      2 * Trunc(userTime - passedTime)
    }

    /** `is_clicked_tile`: (i, j) is one of the clicked cells. */
    function IsClickedTile(i: int, j: int): (r: bool)
      reads this
      requires Selection()
      ensures r <==> (i, j) in Selected()
    {
      if |clicked| < 2 then false
      else if clicked[0] == i && clicked[1] == j then true
      else if |clicked| == 2 then false
      else clicked[2] == i && clicked[3] == j
    }

    /** `is_max_selected_tiles`: two cells are clicked. */
    function IsMaxSelectedTiles(): (r: bool)
      reads this
      requires Selection()
      ensures r <==> |Selected()| == 2
    {
      |clicked| == 4
    }

    /** `is_advised_tile`: (i, j) is a cell of the advised pair; never while
        the advice is the no-pair sentinel. */
    function IsAdvisedTile(i: int, j: int): (r: bool)
      reads this
      ensures advised == ADVISED_TILE_ERROR ==> !r
      ensures advised != ADVISED_TILE_ERROR ==> (r <==> exists k :: 0 <= k < |advised| && advised[k] == (i, j))
    {
      if advised == ADVISED_TILE_ERROR then false else (i, j) in advised
    }

    /** `__reset_clicked_tiles`. */
    method ResetClickedTiles()
      modifies this
      ensures clicked == [] && Selected() == []
      ensures advised == old(advised) && state == old(state) && newRecord == old(newRecord)
      ensures userTime == old(userTime) && passedTime == old(passedTime)
    {
      clicked := [];
    }

    /** `reset_advised_tiles`: back to the no-pair sentinel. */
    method ResetAdvisedTiles()
      modifies this
      ensures advised == ADVISED_TILE_ERROR
      ensures clicked == old(clicked) && state == old(state) && newRecord == old(newRecord)
      ensures userTime == old(userTime) && passedTime == old(passedTime)
    {
      advised := ADVISED_TILE_ERROR;
    }

    /** `add_selected_tile`: a click on a tile is recorded unless two cells
        are already clicked. The board reads (i, j) first, with Python's
        negative indices, so they must lie on it. */
    method AddSelectedTile(i: int, j: int)
      requires Selection() && board.tiles != [] && Rect(board.tiles)
      requires -|board.tiles| <= i < |board.tiles| && -|board.tiles[0]| <= j < |board.tiles[0]|
      modifies this
      ensures Selection()
      ensures board.IsATile(i, j) && |old(clicked)| != 4 ==>
        clicked == old(clicked) + [i, j] && Selected() == old(Selected()) + [(i, j)]
      ensures !(board.IsATile(i, j) && |old(clicked)| != 4) ==> clicked == old(clicked)
      ensures advised == old(advised) && state == old(state) && newRecord == old(newRecord)
      ensures userTime == old(userTime) && passedTime == old(passedTime)
    {
      var tile := board.IsATile(i, j);
      var max := IsMaxSelectedTiles();
      if tile && !max {
        clicked := clicked + [i];
        clicked := clicked + [j];
      }
    }

    /** `remove_selected_tile`: a click on a clicked cell, while only one is
        clicked, clears the selection. */
    method RemoveSelectedTile(i: int, j: int)
      requires Selection()
      modifies this
      ensures Selection()
      ensures |old(clicked)| != 4 && (i, j) in old(Selected()) ==> clicked == []
      ensures !(|old(clicked)| != 4 && (i, j) in old(Selected())) ==> clicked == old(clicked)
      ensures advised == old(advised) && state == old(state) && newRecord == old(newRecord)
      ensures userTime == old(userTime) && passedTime == old(passedTime)
    {
      var max := IsMaxSelectedTiles();
      var isClicked := IsClickedTile(i, j);
      if !max && isClicked {
        ResetClickedTiles();
      }
    }

    /** `set_a_advised_tile_pair`: with at least 50 points the board's advice
        is shown, and it costs 50 points unless no pair can be joined. */
    method SetAAdvisedTilePair()
      requires Valid() && board.tiles != []
      modifies this, counter
      ensures Valid() && board.tiles == old(board.tiles)
      ensures old(counter.points) >= POINTS_FOR_HELP ==>
        advised == Advice(board.tiles, board.Kinds()) &&
        counter.points == (if advised == ADVISED_TILE_ERROR then old(counter.points) else old(counter.points) - POINTS_FOR_HELP)
      ensures old(counter.points) >= POINTS_FOR_HELP && advised != ADVISED_TILE_ERROR ==>
        |advised| == 2 && MoveRoute(board.tiles, advised[0].0, advised[0].1, advised[1].0, advised[1].1) != ""
      ensures old(counter.points) < POINTS_FOR_HELP ==> advised == old(advised) && counter.points == old(counter.points)
      ensures counter.level == old(counter.level)
      ensures clicked == old(clicked) && state == old(state) && newRecord == old(newRecord)
      ensures userTime == old(userTime) && passedTime == old(passedTime)
    {
      var enough := counter.ArePointsBiggerThan(POINTS_FOR_HELP);
      if enough {
        DealtPaired(board.tiles, board.width, board.height, board.Kinds());
        advised := board.GetAdvisedTilePair();
        if advised != ADVISED_TILE_ERROR {
          counter.DecreasePoints(POINTS_FOR_HELP);
        }
      }
    }

    /** `won_level`: the advice is withdrawn, the level is won and the time
        left is turned into points. */
    method WonLevel()
      modifies this, counter
      ensures advised == ADVISED_TILE_ERROR && state == WON_GAME
      ensures counter.points == old(counter.points) + WinBonus()
      ensures counter.level == old(counter.level)
      ensures clicked == old(clicked) && newRecord == old(newRecord)
      ensures userTime == old(userTime) && passedTime == old(passedTime)
    {
      ResetAdvisedTiles();
      state := WON_GAME;
      counter.WonLevel(userTime - passedTime);
    }

    /** The board's half of `play_movement`: the two clicked cells are played
        and the cells of the route drawn. */
    method PlayClicked(rounds: seq<seq<nat>>) returns (result: Lines)
      requires board.Valid() && board.tiles != [] && |clicked| == 4
      modifies board
      ensures board.Valid() && board.tiles != [] && Rect(old(board.tiles))
      ensures var route := MoveRoute(old(board.tiles), clicked[0], clicked[1], clicked[2], clicked[3]);
        result.positions == MovePositions(old(board.tiles), clicked[0], clicked[1], clicked[2], clicked[3]) &&
        result.lines == LinesOf(result.positions) &&
        (result.IsEmpty() <==> route == "") &&
        board.tiles == AfterMove(old(board.tiles), board.Kinds(), clicked[0], clicked[1], clicked[2], clicked[3], rounds) &&
        board.eliminated == old(board.eliminated) + (if route == "" then 0 else 1) &&
        board.state == (if route != "" && TileCount(Cleared(old(board.tiles), clicked[0], clicked[1], clicked[2], clicked[3])) == 0
          then Finish else old(board.state))
    {
      ghost var g := board.tiles;
      var i1, j1, i2, j2 := clicked[0], clicked[1], clicked[2], clicked[3];
      var positions := board.PlayMovement(i1, j1, i2, j2, rounds);
      MoveDrawing(g, i1, j1, i2, j2);
      var lines := GetLinesByPosition(positions);
      result := Lines(lines, positions);
    }

    /** The counter's half of `play_movement`: 10 points for a joined pair,
        5 fewer (not below zero) for a miss, and the level won once the
        board is empty. */
    method ScoreMove(joined: bool, finished: bool)
      modifies this, counter
      ensures counter.points == Scored(old(counter.points), joined) + (if finished then WinBonus() else 0)
      ensures finished ==> state == WON_GAME && advised == ADVISED_TILE_ERROR
      ensures !finished ==> state == old(state) && advised == old(advised)
      ensures counter.level == old(counter.level)
      ensures clicked == old(clicked) && newRecord == old(newRecord)
      ensures userTime == old(userTime) && passedTime == old(passedTime)
    {
      if joined {
        counter.IncreasePoints(POINTS_FOR_CORRECT);
      } else {
        counter.DecreasePoints(POINTS_FOR_INCORRECT);
      }
      if finished {
        WonLevel();
      }
    }

    /** `play_movement`: with two cells clicked, the board plays them, the
        selection is cleared, the points go up by 10 for a joined pair or
        down by 5 (not below zero) for a miss, and an emptied board wins the
        level. With fewer cells clicked nothing happens. The drawing returned
        is empty exactly when the move missed. */
    method PlayMovement(rounds: seq<seq<nat>>) returns (result: Lines)
      requires Valid() && board.tiles != []
      modifies this, board, counter
      ensures Valid() && board.tiles != []
      ensures |old(clicked)| != 4 ==>
        result == Lines("", []) && clicked == old(clicked) && advised == old(advised) && state == old(state) &&
        board.tiles == old(board.tiles) && board.eliminated == old(board.eliminated) &&
        board.state == old(board.state) && counter.points == old(counter.points)
      ensures |old(clicked)| == 4 ==>
        var c := old(clicked);
        var route := MoveRoute(old(board.tiles), c[0], c[1], c[2], c[3]);
        Rect(old(board.tiles)) &&
        result.positions == MovePositions(old(board.tiles), c[0], c[1], c[2], c[3]) &&
        result.lines == LinesOf(result.positions) &&
        (result.IsEmpty() <==> route == "") &&
        board.tiles == AfterMove(old(board.tiles), board.Kinds(), c[0], c[1], c[2], c[3], rounds) &&
        board.eliminated == old(board.eliminated) + (if route == "" then 0 else 1) &&
        board.state == (if route != "" && TileCount(Cleared(old(board.tiles), c[0], c[1], c[2], c[3])) == 0
          then Finish else old(board.state)) &&
        clicked == [] &&
        counter.points == Scored(old(counter.points), !result.IsEmpty()) +
          (if board.IsFinished() then WinBonus() else 0) &&
        (board.IsFinished() ==> state == WON_GAME && advised == ADVISED_TILE_ERROR) &&
        (!board.IsFinished() ==> state == old(state) && advised == old(advised))
      ensures counter.level == old(counter.level) && newRecord == old(newRecord)
      ensures userTime == old(userTime) && passedTime == old(passedTime)
    {
      result := Lines("", []);
      var max := IsMaxSelectedTiles();
      if max {
        result := PlayClicked(rounds);
        ghost var after := board.tiles;
        ResetClickedTiles();
        var finished := board.IsFinished();
        ScoreMove(!result.IsEmpty(), finished);
        assert board.tiles == after && finished == board.IsFinished();
      }
    }

    /** `pause_game`. */
    method PauseGame()
      modifies this
      ensures state == PAUSED
      ensures clicked == old(clicked) && advised == old(advised) && newRecord == old(newRecord)
      ensures userTime == old(userTime) && passedTime == old(passedTime)
    {
      state := PAUSED;
    }

    /** `resume_game`: only a paused game resumes, and the advice is withdrawn. */
    method ResumeGame()
      modifies this
      ensures old(state) == PAUSED ==> state == PLAYING && advised == ADVISED_TILE_ERROR
      ensures old(state) != PAUSED ==> state == old(state) && advised == old(advised)
      ensures clicked == old(clicked) && newRecord == old(newRecord)
      ensures userTime == old(userTime) && passedTime == old(passedTime)
    {
      if state == PAUSED {
        state := PLAYING;
        ResetAdvisedTiles();
        ResetAdvisedTiles();
      }
    }

    /** `game_over`; whether the points beat the stored players is given. */
    method GameOver(isNewRecord: bool)
      modifies this
      ensures state == GAME_OVER && newRecord == isNewRecord && advised == ADVISED_TILE_ERROR
      ensures clicked == old(clicked)
      ensures userTime == old(userTime) && passedTime == old(passedTime)
    {
      state := GAME_OVER;
      newRecord := isNewRecord;
      ResetAdvisedTiles();
    }

    /** `run_game`: a fresh deal; the time allowed shrinks by a quarter of a
        second per level above the first. */
    method RunGame(draws: seq<nat>, rounds: seq<seq<nat>>)
      requires Valid() && board.width >= 1 && board.height >= 1
      modifies this, board
      ensures Valid() && board.tiles != []
      ensures state == PLAYING && clicked == [] && passedTime == 0.0
      ensures userTime == TimeForLevel(old(userTime), counter.level)
      ensures board.tiles == Settle(Deal(board.width, Shuffle(Pairs(board.Kinds()), draws)), board.Kinds(), rounds)
      ensures board.eliminated == 0 && board.state == old(board.state)
      ensures advised == old(advised) && newRecord == old(newRecord)
    {
      state := PLAYING;
      SetUserTime(counter.level);
      passedTime := 0.0;
      ResetClickedTiles();
      board.InitBoard(draws, rounds);
    }

    /** `__set_user_time`: cut the time allowed for the given level. */
    method SetUserTime(level: int)
      modifies this
      ensures userTime == TimeForLevel(old(userTime), level)
      ensures clicked == old(clicked) && advised == old(advised) && state == old(state)
      ensures passedTime == old(passedTime) && newRecord == old(newRecord)
    {
      userTime := userTime - (level - 1) as real * 0.25;
    }

    /** `reset_game`: the counter starts over, then a fresh deal. */
    method ResetGame(draws: seq<nat>, rounds: seq<seq<nat>>)
      requires Valid() && board.width >= 1 && board.height >= 1
      modifies this, board, counter
      ensures Valid() && board.tiles != []
      ensures counter.level == 1 && counter.points == 0
      ensures state == PLAYING && clicked == [] && passedTime == 0.0 && userTime == old(userTime)
      ensures board.tiles == Settle(Deal(board.width, Shuffle(Pairs(board.Kinds()), draws)), board.Kinds(), rounds)
      ensures board.eliminated == 0 && board.state == old(board.state)
      ensures advised == old(advised) && newRecord == old(newRecord)
    {
      counter.Reset();
      RunGame(draws, rounds);
    }

    /** `next_level`: one level up, a fresh deal, and the advice withdrawn. */
    method NextLevel(draws: seq<nat>, rounds: seq<seq<nat>>)
      requires Valid() && board.width >= 1 && board.height >= 1
      modifies this, board, counter
      ensures Valid() && board.tiles != []
      ensures counter.level == old(counter.level) + 1 && counter.points == old(counter.points)
      ensures state == PLAYING && clicked == [] && passedTime == 0.0 && advised == ADVISED_TILE_ERROR
      ensures userTime == TimeForLevel(old(userTime), old(counter.level) + 1)
      ensures board.tiles == Settle(Deal(board.width, Shuffle(Pairs(board.Kinds()), draws)), board.Kinds(), rounds)
      ensures board.eliminated == 0 && board.state == old(board.state) && newRecord == old(newRecord)
    {
      counter.IncreaseLevel(1);
      RunGame(draws, rounds);
      ResetAdvisedTiles();
      state := PLAYING;
    }
  }
}
