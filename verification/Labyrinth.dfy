/** labyrinth/labyrinth.c on its own data: a 100 by 100 character array, marked and rewritten in place. */
module Labyrinth {
  import opened LabyrinthMaze
  import Moves = LabyrinthMoves
  import MapFile = LabyrinthFile

  class Labyrinth {
    const cells: array2<char>
    var rows: nat
    var cols: nat

    ghost predicate Valid()
      reads this
    {
      cells.Length0 == MAX && cells.Length1 == MAX && rows <= MAX && cols <= MAX
    }

    ghost function View(): (m: Maze)
      requires Valid()
      reads this, cells
      ensures Shaped(m) && m.rows == rows && m.cols == cols
      ensures forall i, j :: 0 <= i < MAX && 0 <= j < MAX ==> m.cells[i][j] == cells[i, j]
    {
      Maze(seq(MAX, i requires 0 <= i < MAX reads this, cells =>
                 seq(MAX, j requires 0 <= j < MAX reads this, cells => cells[i, j])), rows, cols)
    }

    /** An uninitialised struct, as main declares it. */
    constructor (garbage: seq<seq<char>>)
      requires |garbage| == MAX && forall i :: 0 <= i < MAX ==> |garbage[i]| == MAX
      ensures Valid() && fresh(cells) && View().cells == garbage && rows == 0 && cols == 0
    {
      rows, cols := 0, 0;
      cells := new char[MAX, MAX]((i, j) requires 0 <= i < MAX && 0 <= j < MAX => garbage[i][j]);
      new;
      forall i | 0 <= i < MAX ensures View().cells[i] == garbage[i] {
      }
    }

    // ----- players -----

    /** findPlayer and findFirstEmptySpace: the first cell holding c in row order. */
    method FindFirst(c: char) returns (p: Option<Position>)
      requires Valid()
      ensures p == LabyrinthMaze.FindFirst(View(), c)
    {
      ghost var m := View();
      for i := 0 to rows
        invariant LabyrinthMaze.FindFirst(m, c) == FindFrom(m, c, i, 0)
      {
        for j := 0 to cols
          invariant FindFrom(m, c, i, 0) == FindFrom(m, c, i, j)
        {
          if cells[i, j] == c {
            return Some(Position(i, j));
          }
        }
      }
      p := None;
    }

    method SetCell(p: Position, c: char)
      requires Valid() && 0 <= p.row < MAX && 0 <= p.col < MAX
      modifies cells
      ensures Valid() && View() == Put(old(View()), p, c)
    {
      cells[p.row, p.col] := c;
      ghost var m := Put(old(View()), p, c);
      forall i | 0 <= i < MAX ensures View().cells[i] == m.cells[i] {
        forall j | 0 <= j < MAX ensures View().cells[i][j] == m.cells[i][j] {
        }
      }
      assert View().cells == m.cells;
    }

    /** movePlayer. */
    method MovePlayer(id: char, direction: Option<string>) returns (ok: bool)
      requires Valid() && Moves.MoveDefined(View(), id, direction)
      modifies cells
      ensures Valid() && Moves.Outcome(ok, View()) == Moves.Move(old(View()), id, direction)
    {
      var loc := FindFirst(id);
      if loc == None {
        var empty := FindFirst('.');
        if empty == None {
          return false;
        }
        FindFirstIsFirst(View(), '.');
        SetCell(empty.value, id);
        return true;
      } else if direction == None {
        return true;
      }
      FindFirstIsFirst(View(), id);
      var p := loc.value;
      var q := p;
      var d := Moves.FirstLetter(direction.value);
      match d {
      case 'u' =>
        q := Position(p.row - 1, p.col);
        if q.row < 0 { return false; }
      case 'd' =>
        q := Position(p.row + 1, p.col);
        if q.row > rows { return false; }
      case 'l' =>
        q := Position(p.row, p.col - 1);
        if q.col < 0 { return false; }
      case 'r' =>
        q := Position(p.row, p.col + 1);
        if q.col > cols { return false; }
      case _ =>
        return false;
      }
      assert Moves.Target(p, d) == Some(q) && Moves.PassesBounds(View(), q, d);
      if cells[q.row, q.col] != '.' {
        return false;
      }
      SetCell(q, id);
      SetCell(p, '.');
      ok := true;
    }

    // ----- connectivity -----

    ghost function Marked(visited: array2<bool>): (v: set<Position>)
      requires visited.Length0 == MAX && visited.Length1 == MAX
      reads visited
      ensures forall p :: p in v <==> 0 <= p.row < MAX && 0 <= p.col < MAX && visited[p.row, p.col]
    {
      set i, j | 0 <= i < MAX && 0 <= j < MAX && visited[i, j] :: Position(i, j)
    }

    /** dfs: marks exactly the cells that (row, col) reaches through cells that are open and were not marked. */
    method Dfs(p: Position, visited: array2<bool>)
      requires Valid() && visited.Length0 == MAX && visited.Length1 == MAX
      requires p in Open(View()) && p !in Marked(visited)
      modifies visited
      ensures old(Marked(visited)) <= Marked(visited)
      ensures forall q :: q in Marked(visited) && q !in old(Marked(visited)) <==>
                            Reaches(Open(View()) - old(Marked(visited)), p, q)
      decreases Open(View()) - Marked(visited)
    {
      hide Connected, Reaches;
      ghost var open, before := Open(View()), Marked(visited);
      var next := [Position(p.row + 1, p.col), Position(p.row - 1, p.col),
                   Position(p.row, p.col - 1), Position(p.row, p.col + 1)];
      visited[p.row, p.col] := true;
      ReachesSelf(open - before, p);
      for i := 0 to 4
        invariant Searched(open, before, Marked(visited), p)
        invariant forall k :: 0 <= k < i && next[k] in open ==> next[k] in Marked(visited)
      {
        var n := next[i];
        if n.row >= 0 && n.row < rows {
          if n.col >= 0 && n.col < cols {
            if !visited[n.row, n.col] {
              if cells[n.row, n.col] != '#' {
                ghost var mid := Marked(visited);
                Dfs(n, visited);
                SearchedMore(open, before, mid, Marked(visited), p, n);
              }
            }
          }
        }
      }
      SearchedAll(open, before, Marked(visited), p, next);
    }

    /** isConnected. */
    method IsConnected() returns (connected: bool)
      requires Valid()
      ensures connected <==> Connected(View())
    {
      hide Reaches, Open, Connected;
      var visited := new bool[MAX, MAX]((i, j) => false);
      var start := FindOpen();
      ghost var m := View();
      if start == None {
        NoneConnected(m);
        return false;
      }
      assert Marked(visited) == {} && Open(m) - {} == Open(m);
      Dfs(start.value, visited);
      ConnectedFromOne(m, start.value);
      assert forall q :: q in Marked(visited) <==> Reaches(Open(m), start.value, q);
      connected := AllMarked(visited);
    }

    static lemma NoneConnected(m: Maze)
      requires Shaped(m) && Open(m) == {}
      ensures !Connected(m)
    {
    }

    /** The last loop of isConnected. */
    method AllMarked(visited: array2<bool>) returns (all: bool)
      requires Valid() && visited.Length0 == MAX && visited.Length1 == MAX
      ensures all <==> forall p :: p in Open(View()) ==> p in Marked(visited)
    {
      ghost var open := Open(View());
      for i := 0 to rows
        invariant forall p :: p in open && p.row < i ==> p in Marked(visited)
      {
        for j := 0 to cols
          invariant forall p :: p in open && (p.row < i || (p.row == i && p.col < j)) ==> p in Marked(visited)
        {
          if !visited[i, j] && cells[i, j] != '#' {
            assert Position(i, j) in open && Position(i, j) !in Marked(visited);
            return false;
          }
        }
      }
      all := true;
    }

    /** The first loop of isConnected. */
    method FindOpen() returns (p: Option<Position>)
      requires Valid()
      ensures p == None ==> Open(View()) == {}
      ensures p.Some? ==> p.value in Open(View())
    {
      for i := 0 to rows
        invariant forall q :: q in Open(View()) ==> q.row >= i
      {
        for j := 0 to cols
          invariant forall q :: q in Open(View()) ==> q.row > i || (q.row == i && q.col >= j)
        {
          if cells[i, j] != '#' {
            return Some(Position(i, j));
          }
        }
      }
      p := None;
    }

    // ----- the map file -----

    /** saveMap: the new contents of the file. */
    method SaveMap() returns (file: string)
      requires Valid()
      ensures file == MapFile.Save(View())
    {
      file := "";
      ghost var lines := MapFile.Visible(View()).lines;
      assert lines[..0] == [];
      for i := 0 to rows
        invariant file == MapFile.SaveLines(lines[..i])
      {
        ghost var start := file;
        for j := 0 to cols
          invariant file == start + lines[i][..j]
        {
          file := file + [cells[i, j]];
        }
        file := file + "\n";
        SaveOneMore(lines, i);
      }
      assert lines[..rows] == lines;
    }

    /**
     loadMap. The array bytes a 101st line would be written to, past the end, are not part of the model;
     such a file is refused anyway.
     */
    method LoadMap(file: string) returns (ok: bool)
      requires Valid()
      modifies this, cells
      ensures Valid()
      ensures match MapFile.Load(file)
              case None => !ok
              case Some(g) =>
                && ok && rows == |g.lines| && cols == g.cols
                && forall i :: 0 <= i < rows ==> |g.lines[i]| <= cols && View().cells[i][..|g.lines[i]|] == g.lines[i]
    {
      var r: nat, c: nat := 0, 0;
      var rest := file;
      ghost var lines: seq<string> := [];
      while true
        invariant Valid() && r == |lines| <= MAX && c <= MAX
        invariant MapFile.Load(file) == MapFile.LoadFrom(rest, lines, c)
        invariant forall i :: 0 <= i < r ==> |lines[i]| <= c && Holds(i, lines[i])
        decreases |rest|
      {
        var buffer := MapFile.Chunk(rest, MapFile.BUFFER - 1);
        if buffer == "" {
          break;
        }
        var line := MapFile.Line(buffer);
        if r < MAX {
          WriteRow(r, line);
        }
        if c != 0 && c != |line| {
          return false;
        }
        if r + 1 > 100 {
          return false;
        }
        c := if c == 0 then |line| else c;
        r, lines, rest := r + 1, lines + [line], rest[|buffer|..];
      }
      rows, cols := r, c;
      ok := r <= 100 && c <= 100;
      forall i | 0 <= i < rows ensures View().cells[i][..|lines[i]|] == lines[i] {
        assert Holds(i, lines[i]);
      }
    }

    /** Row i of the array starts with l. */
    ghost predicate Holds(i: nat, l: string)
      requires Valid() && i < MAX
      reads this, cells
    {
      |l| <= MAX && forall j :: 0 <= j < |l| ==> cells[i, j] == l[j]
    }

    /** The inner loop of loadMap. */
    method WriteRow(r: nat, line: string)
      requires Valid() && r < MAX && |line| <= MAX
      modifies cells
      ensures Holds(r, line)
      ensures forall i, j :: 0 <= i < MAX && 0 <= j < MAX && i != r ==> cells[i, j] == old(cells[i, j])
    {
      for j := 0 to |line|
        invariant forall k :: 0 <= k < j ==> cells[r, k] == line[k]
        invariant forall i, k :: 0 <= i < MAX && 0 <= k < MAX && i != r ==> cells[i, k] == old(cells[i, k])
      {
        cells[r, j] := line[j];
      }
    }
  }

  // ----- what dfs keeps while it searches -----

  /**
   `now` holds p, everything marked so far was reached from p through cells not marked before, and but for p
   itself all open neighbours of these are marked.
   */
  ghost predicate Searched(open: set<Position>, before: set<Position>, now: set<Position>, p: Position) {
    && p in open && p !in before && p in now && before <= now
    && (forall q :: q in now && q !in before ==> Reaches(open - before, p, q))
    && forall a, b :: a in now && a !in before && a != p && b in open && Adjacent(a, b) ==> b in now
  }

  lemma SearchedMore(open: set<Position>, before: set<Position>, mid: set<Position>, now: set<Position>, p: Position,
                     n: Position)
    requires Searched(open, before, mid, p) && Adjacent(p, n) && n in open && n !in mid && mid <= now
    requires forall q :: q in now && q !in mid <==> Reaches(open - mid, n, q)
    ensures Searched(open, before, now, p) && n in now
  {
    ReachesSelf(open - mid, n);
    assert n in now && n !in mid;
    forall q | q in now && q !in before ensures Reaches(open - before, p, q) {
      if q !in mid {
        ReachesMore(open - mid, open - before, n, q);
        ReachesFurther(open - before, p, n, q);
      }
    }
    forall a, b | a in now && a !in before && a != p && b in open && Adjacent(a, b) ensures b in now {
      if a !in mid && b !in mid {
        ReachesSelf(open - mid, b);
        ReachesThroughStep(open - mid, n, a, b);
        assert b in now && b !in mid;
      }
    }
  }

  lemma ReachesThroughStep(s: set<Position>, n: Position, a: Position, b: Position)
    requires Reaches(s, n, a) && b in s && Adjacent(a, b)
    ensures Reaches(s, n, b)
  {
    ReachesMore(s, s, n, a);
    ReachesSelf(s, b);
    ReachesFurther(s, a, b, b);
    ReachesThrough(s, n, a, b);
  }

  lemma SearchedAll(open: set<Position>, before: set<Position>, now: set<Position>, p: Position, next: seq<Position>)
    requires Searched(open, before, now, p)
    requires next == [Position(p.row + 1, p.col), Position(p.row - 1, p.col),
                     Position(p.row, p.col - 1), Position(p.row, p.col + 1)]
    requires forall k :: 0 <= k < 4 && next[k] in open ==> next[k] in now
    ensures forall q :: q in now && q !in before <==> Reaches(open - before, p, q)
  {
    var s := open - before;
    forall a, b | a in now - before && b in s && Adjacent(a, b) ensures b in now - before {
      if a == p {
        assert b == next[0] || b == next[1] || b == next[2] || b == next[3];
      }
    }
    forall q | Reaches(s, p, q) ensures q in now && q !in before {
      var path :| Joins(s, path, p, q);
      ClosedReaches(s, now - before, path);
    }
  }

  lemma {:induction false} SaveOneMore(lines: seq<string>, i: nat)
    requires i < |lines|
    ensures MapFile.SaveLines(lines[..i + 1]) == MapFile.SaveLines(lines[..i]) + lines[i] + "\n"
  {
    if i == 0 {
      assert lines[..1] == [lines[0]] && lines[..0] == [];
    } else {
      SaveOneMore(lines[1..], i - 1);
      assert lines[..i + 1][1..] == lines[1..][..i] && lines[..i][1..] == lines[1..][..i - 1];
    }
  }
}
