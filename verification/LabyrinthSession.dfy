/** Whole runs of the program: each loads the map file, checks it, moves one player and saves the file again. */
module LabyrinthSession {
  import opened LabyrinthMaze
  import opened LabyrinthMoves
  import opened LabyrinthFile

  ghost predicate IsArray(cells: seq<seq<char>>) {
    |cells| == MAX && forall i :: 0 <= i < MAX ==> |cells[i]| == MAX
  }

  ghost predicate GridFits(g: Grid) {
    && |g.lines| <= MAX && g.cols <= MAX
    && forall i :: 0 <= i < |g.lines| ==> |g.lines[i]| <= MAX
  }

  /** The struct after loadMap: what was read, over what the uninitialised array held before. */
  function Loaded(g: Grid, garbage: seq<seq<char>>): (m: Maze)
    requires GridFits(g) && IsArray(garbage)
    ensures Shaped(m) && m.rows == |g.lines| && m.cols == g.cols
    ensures forall i, j :: 0 <= i < m.rows && 0 <= j < |g.lines[i]| ==> m.cells[i][j] == g.lines[i][j]
  {
    Maze(seq(MAX, i requires 0 <= i < MAX =>
               if i < |g.lines| then g.lines[i] + garbage[i][|g.lines[i]|..] else garbage[i]), |g.lines|, g.cols)
  }

  lemma {:induction false} LoadFits(s: string, lines: seq<string>, cols: nat)
    requires GridFits(Grid(lines, cols)) && LoadFrom(s, lines, cols).Some?
    ensures GridFits(LoadFrom(s, lines, cols).value)
    decreases |s|
  {
    var c := Chunk(s, BUFFER - 1);
    if c != "" {
      LoadFits(s[|c|..], lines + [Line(c)], if cols == 0 then |Line(c)| else cols);
    }
  }

  datatype Exit = Exit(file: string, success: bool)

  /** main with a map file, a player and a move: the file it leaves and whether it exits with success. */
  ghost function Invoke(file: string, player: string, direction: Option<string>, garbage: seq<seq<char>>): Exit
    requires IsArray(garbage)
  {
    match Load(file)
    case None => Exit(file, false)
    case Some(g) =>
      LoadFits(file, [], 0);
      var m := Loaded(g, garbage);
      if !Connected(m) || |player| != 1 || !IsValidPlayer(player[0]) then Exit(file, false)
      else if !MoveDefined(m, player[0], direction) then Exit(file, false)  // C gives no meaning to this
      else
        var o := Move(m, player[0], direction);
        if o.ok then Exit(Save(o.maze), true) else Exit(file, false)
  }

  // ----- only what is visible matters -----

  ghost predicate SameVisible(m: Maze, r: Maze)
    requires Shaped(m) && Shaped(r)
  {
    r.rows == m.rows && r.cols == m.cols && forall p :: Inside(m, p) ==> Cell(r, p) == Cell(m, p)
  }

  lemma VisibleCells(m: Maze, r: Maze)
    requires Shaped(m) && Shaped(r)
    ensures SameVisible(m, r) <==> Visible(m) == Visible(r)
  {
    if SameVisible(m, r) {
      forall i | 0 <= i < m.rows ensures Visible(m).lines[i] == Visible(r).lines[i] {
        forall j | 0 <= j < m.cols ensures Visible(m).lines[i][j] == Visible(r).lines[i][j] {
          assert Cell(r, Position(i, j)) == Cell(m, Position(i, j));
        }
      }
    } else if Visible(m) == Visible(r) {
      forall p | Inside(m, p) ensures Cell(r, p) == Cell(m, p) {
        assert Visible(m).lines[p.row][p.col] == Visible(r).lines[p.row][p.col];
      }
    }
  }

  lemma SameFindFirst(m: Maze, r: Maze, c: char)
    requires Shaped(m) && Shaped(r) && SameVisible(m, r)
    ensures FindFirst(m, c) == FindFirst(r, c)
  {
    FindFirstIsFirst(m, c);
    FindFirstIsFirst(r, c);
  }

  lemma SameGood(m: Maze, r: Maze)
    requires Good(m) && Shaped(r) && SameVisible(m, r)
    ensures Good(r) && SameWalls(m, r)
  {
  }

  lemma SameMove(m: Maze, r: Maze, id: char, direction: Option<string>)
    requires Good(m) && Shaped(r) && SameVisible(m, r) && IsValidPlayer(id)
    ensures MoveDefined(m, id, direction) && MoveDefined(r, id, direction)
    ensures Move(r, id, direction).ok == Move(m, id, direction).ok
    ensures SameVisible(Move(m, id, direction).maze, Move(r, id, direction).maze)
  {
    SameGood(m, r);
    MoveGood(m, id, direction);
    MoveGood(r, id, direction);
    SameFindFirst(m, r, id);
    SameFindFirst(m, r, '.');
    GoodIsDefined(m, id, direction);
    FindFirstIsFirst(m, id);
    FindFirstIsFirst(m, '.');
    if FindFirst(m, id).Some? && direction.Some? {
      var p := FindFirst(m, id).value;
      var t := Target(p, FirstLetter(direction.value));
      if t.Some? && PassesBounds(m, t.value, FirstLetter(direction.value)) {
        assert Inside(m, t.value);
        assert Cell(r, t.value) == Cell(m, t.value);
      }
    }
    var a, b := Move(m, id, direction), Move(r, id, direction);
    forall x | Inside(m, x) ensures Cell(b.maze, x) == Cell(a.maze, x) {
      assert Cell(r, x) == Cell(m, x);
      if FindFirst(m, id).None? && FindFirst(m, '.').Some? {
        PutCell(m, FindFirst(m, '.').value, id, x);
        PutCell(r, FindFirst(m, '.').value, id, x);
      } else if FindFirst(m, id).Some? && direction.Some? && a.ok {
        StepSwaps(m, id, direction.value, FindFirst(m, id).value, x);
        StepSwaps(r, id, direction.value, FindFirst(m, id).value, x);
      }
    }
  }

  /** A maze that survives its file: last row and column walled, with unique players, and loadable. */
  ghost predicate Playable(m: Maze) {
    Good(m) && Loadable(Visible(m)) && Connected(m)
  }

  lemma CleanCells(m: Maze)
    requires Shaped(m) && m.rows > 0 && m.cols < MAX
    ensures Loadable(Visible(m)) <==> forall p :: Inside(m, p) ==> !Stops(Cell(m, p))
  {
    if Loadable(Visible(m)) {
      forall p | Inside(m, p) ensures !Stops(Cell(m, p)) {
        assert Clean(Visible(m).lines[p.row]);
        assert Visible(m).lines[p.row][p.col] == Cell(m, p);
      }
    } else {
      var i :| 0 <= i < m.rows && !Clean(Visible(m).lines[i]);
      var j :| 0 <= j < m.cols && Stops(Visible(m).lines[i][j]);
      assert Inside(m, Position(i, j)) && Stops(Cell(m, Position(i, j)));
    }
  }

  lemma MovePlayable(m: Maze, id: char, direction: Option<string>)
    requires Playable(m) && IsValidPlayer(id)
    ensures MoveDefined(m, id, direction) && Playable(Move(m, id, direction).maze)
  {
    MoveGood(m, id, direction);
    var o := Move(m, id, direction);
    SameWallsOpen(m, o.maze);
    FindFirstIsFirst(m, id);
    FindFirstIsFirst(m, '.');
    if m.rows > 0 {
      CleanCells(m);
      CleanCells(o.maze);
      forall x | Inside(m, x) ensures !Stops(Cell(o.maze, x)) {
        if FindFirst(m, id).None? && FindFirst(m, '.').Some? {
          PutCell(m, FindFirst(m, '.').value, id, x);
        } else if FindFirst(m, id).Some? && direction.Some? && o.ok {
          StepSwaps(m, id, direction.value, FindFirst(m, id).value, x);
        }
      }
    }
  }

  /** One run of the program on a saved maze is one move of that maze, whatever the uninitialised struct held. */
  lemma InvokeIsMove(m: Maze, player: string, direction: Option<string>, garbage: seq<seq<char>>)
    requires Playable(m) && IsArray(garbage)
    ensures Invoke(Save(m), player, direction, garbage) ==
      if |player| == 1 && IsValidPlayer(player[0]) then
        MoveGood(m, player[0], direction);
        var o := Move(m, player[0], direction);
        Exit(Save(o.maze), o.ok)
      else Exit(Save(m), false)
  {
    LoadUndoesSaveExactly(m);
    var g := Visible(m);
    LoadFits(Save(m), [], 0);
    var r := Loaded(g, garbage);
    assert SameVisible(m, r) by {
      forall p | Inside(m, p) ensures Cell(r, p) == Cell(m, p) {
        assert r.cells[p.row][p.col] == g.lines[p.row][p.col];
      }
    }
    SameGood(m, r);
    SameWallsOpen(m, r);
    if |player| == 1 && IsValidPlayer(player[0]) {
      SameMove(m, r, player[0], direction);
      VisibleCells(Move(m, player[0], direction).maze, Move(r, player[0], direction).maze);
    }
  }

  // ----- players that leave -----

  /** Every line is as wide as the grid. */
  ghost predicate Rectangular(g: Grid) {
    forall i :: 0 <= i < |g.lines| ==> |g.lines[i]| == g.cols
  }

  ghost predicate LinesSoFar(lines: seq<string>, cols: nat) {
    && (cols == 0 ==> forall i :: 0 <= i < |lines| ==> lines[i] == "")
    && (lines != [] && lines[0] != "" ==> forall i :: 0 <= i < |lines| ==> |lines[i]| == cols)
  }

  lemma {:induction false} LoadShape(s: string, lines: seq<string>, cols: nat)
    requires LinesSoFar(lines, cols) && LoadFrom(s, lines, cols).Some?
    ensures var g := LoadFrom(s, lines, cols).value; LinesSoFar(g.lines, g.cols)
    decreases |s|
  {
    var c := Chunk(s, BUFFER - 1);
    if c != "" {
      LoadShape(s[|c|..], lines + [Line(c)], if cols == 0 then |Line(c)| else cols);
    }
  }

  /** A file that loads gives a grid without ragged lines exactly when it has no empty line before a longer one. */
  lemma LoadedRectangular(s: string)
    requires Load(s).Some?
    ensures var g := Load(s).value; Rectangular(g) <==> g.cols == 0 || g.lines == [] || g.lines[0] != ""
  {
    LoadShape(s, [], 0);
  }

  /** The grid shows the player at p and nowhere else. */
  ghost predicate Shows(g: Grid, id: char, p: Position)
    requires Rectangular(g)
  {
    && 0 <= p.row < |g.lines| && 0 <= p.col < g.cols && g.lines[p.row][p.col] == id
    && forall i, j :: 0 <= i < |g.lines| && 0 <= j < g.cols && g.lines[i][j] == id ==> p == Position(i, j)
  }

  /** The move has a meaning and leaves the player in the maze, for this content of the uninitialised array. */
  ghost predicate Keeps(g: Grid, garbage: seq<seq<char>>, id: char, direction: string)
    requires GridFits(g) && IsArray(garbage)
  {
    var m := Loaded(g, garbage);
    MoveDefined(m, id, Some(direction)) && FindFirst(Move(m, id, Some(direction)).maze, id).Some?
  }

  lemma LoadedOnlyAt(g: Grid, garbage: seq<seq<char>>, id: char, p: Position)
    requires GridFits(g) && IsArray(garbage) && Rectangular(g) && Shows(g, id, p)
    ensures OnlyAt(Loaded(g, garbage), id, p) && FindFirst(Loaded(g, garbage), id) == Some(p)
  {
    var m := Loaded(g, garbage);
    forall q | Inside(m, q) ensures Cell(m, q) == g.lines[q.row][q.col] {
    }
    OnlyPlace(m, id, p);
  }

  /**
   What a caller can see before the run: whatever the uninitialised array holds, the player is still in the maze after
   its move exactly when it does not go down from the last row or right from the last column.
   */
  lemma KeepsExactly(g: Grid, id: char, direction: string, p: Position)
    requires GridFits(g) && Rectangular(g) && IsValidPlayer(id) && Shows(g, id, p)
    ensures (forall garbage :: IsArray(garbage) ==> Keeps(g, garbage, id, direction))
       <==> !(FirstLetter(direction) == 'd' && p.row == |g.lines| - 1)
            && !(FirstLetter(direction) == 'r' && p.col == g.cols - 1)
  {
    var d := FirstLetter(direction);
    if (d == 'd' && p.row == |g.lines| - 1) || (d == 'r' && p.col == g.cols - 1) {
      var dots := seq(MAX, _ => seq(MAX, _ => '.'));
      assert IsArray(dots);
      LoadedOnlyAt(g, dots, id, p);
      var m := Loaded(g, dots);
      MoveDefinedExactly(m, id, Some(direction));
      if MoveDefined(m, id, Some(direction)) {
        MoveStaysInsideExactly(m, id, direction, p);
        assert Cell(m, Target(p, d).value) == '.';
      }
      assert !Keeps(g, dots, id, direction);
    } else {
      forall garbage | IsArray(garbage) ensures Keeps(g, garbage, id, direction) {
        LoadedOnlyAt(g, garbage, id, p);
        var m := Loaded(g, garbage);
        MoveDefinedExactly(m, id, Some(direction));
        MoveStaysInsideExactly(m, id, direction, p);
      }
    }
  }

  /**
   The smallest such file: moving right from its only cell, the program removes the player from the file when the
   uninitialised array holds a '.' behind that cell, and refuses the move otherwise.
   */
  lemma RunLosesPlayer(garbage: seq<seq<char>>)
    requires IsArray(garbage)
    ensures Invoke("0\n", "0", Some("right"), garbage) ==
            if garbage[0][1] == '.' then Exit(".\n", true) else Exit("0\n", false)
  {
    hide Connected, Visible, Chunk, Line, LoadFrom, SaveLines;
    OneCellLoads();
    LoadFits("0\n", [], 0);
    var m := Loaded(Grid(["0"], 1), garbage);
    assert m.cells[0] == "0" + garbage[0][1..];
    OneCellConnected(m);
    FindFirstIsFirst(m, '0');
    assert Cell(m, Position(0, 0)) == '0';
    assert FindFirst(m, '0') == Some(Position(0, 0));
    var o := Move(m, '0', Some("right"));
    if o.ok {
      assert o.maze.cells[0][0] == '.';
      OneCellSaved(o.maze);
    }
  }

  lemma OneCellConnected(m: Maze)
    requires Shaped(m) && m.rows == 1 && m.cols == 1 && m.cells[0][0] != '#'
    ensures Connected(m)
  {
    assert Open(m) == {Position(0, 0)} by {
      assert Position(0, 0) in Open(m);
    }
    ReachesSelf(Open(m), Position(0, 0));
  }

  lemma OneCellLoads()
    ensures Load("0\n") == Some(Grid(["0"], 1))
  {
    var s := "0\n";
    assert s[1..] == "\n" && s[2..] == "";
    assert Chunk("\n", BUFFER - 2) == "\n";
    assert Chunk(s, BUFFER - 1) == s;
    assert Line("\n") == "" && Line(s) == "0";
    assert [] + ["0"] == ["0"];
    assert LoadFrom("", ["0"], 1) == Some(Grid(["0"], 1));
  }

  lemma OneCellSaved(m: Maze)
    requires Shaped(m) && m.rows == 1 && m.cols == 1
    ensures Save(m) == [m.cells[0][0]] + "\n"
  {
    var line := Visible(m).lines[0];
    assert line == [m.cells[0][0]];
    assert Visible(m).lines == [line] && [line][1..] == [] && SaveLines([]) == "";
    assert line + "\n" + "" == line + "\n";
  }

  // ----- sessions of runs -----

  datatype Command = Command(player: string, direction: Option<string>, garbage: seq<seq<char>>)

  ghost predicate Runnable(commands: seq<Command>) {
    forall c :: c in commands ==> IsArray(c.garbage)
  }

  ghost function FileAfter(file: string, commands: seq<Command>): string
    requires Runnable(commands)
    decreases |commands|
  {
    if commands == [] then file
    else
      var c := commands[0];
      FileAfter(Invoke(file, c.player, c.direction, c.garbage).file, commands[1..])
  }

  /** The turns that a session of commands amounts to: commands naming no player do nothing. */
  function Turns(commands: seq<Command>): (turns: seq<Turn>)
    ensures Legal(turns)
  {
    if commands == [] then []
    else
      var c, rest := commands[0], Turns(commands[1..]);
      if |c.player| == 1 && IsValidPlayer(c.player[0]) then [Turn(c.player[0], c.direction)] + rest else rest
  }

  /** Any sequence of program runs on a playable map file plays exactly the corresponding moves on the maze. */
  lemma {:induction false} SessionOnFile(m: Maze, commands: seq<Command>)
    requires Playable(m) && Runnable(commands)
    ensures FileAfter(Save(m), commands) == Save(Play(m, Turns(commands))) && Playable(Play(m, Turns(commands)))
    decreases |commands|
  {
    if commands != [] {
      var c := commands[0];
      InvokeIsMove(m, c.player, c.direction, c.garbage);
      if |c.player| == 1 && IsValidPlayer(c.player[0]) {
        MovePlayable(m, c.player[0], c.direction);
        SessionOnFile(Move(m, c.player[0], c.direction).maze, commands[1..]);
        assert Turns(commands)[1..] == Turns(commands[1..]);
      } else {
        SessionOnFile(m, commands[1..]);
      }
    }
  }
}
