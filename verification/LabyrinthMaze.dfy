/** The maze, its players, what "connected" means, and what a move does. */
module LabyrinthMaze {

  const MAX: nat := 100  // MAX_ROWS and MAX_COLS

  datatype Option<T> = None | Some(value: T)

  datatype Position = Position(row: int, col: int)

  /** The struct: an array of 100 by 100 characters of which rows by cols are in use. */
  datatype Maze = Maze(cells: seq<seq<char>>, rows: nat, cols: nat)

  ghost predicate Shaped(m: Maze) {
    && |m.cells| == MAX && (forall i :: 0 <= i < MAX ==> |m.cells[i]| == MAX)
    && m.rows <= MAX && m.cols <= MAX
  }

  predicate Inside(m: Maze, p: Position) {
    0 <= p.row < m.rows && 0 <= p.col < m.cols
  }

  function Cell(m: Maze, p: Position): char
    requires Shaped(m) && 0 <= p.row < MAX && 0 <= p.col < MAX
  {
    m.cells[p.row][p.col]
  }

  function Put(m: Maze, p: Position, c: char): (r: Maze)
    requires Shaped(m) && 0 <= p.row < MAX && 0 <= p.col < MAX
    ensures Shaped(r)
  {
    m.(cells := m.cells[p.row := m.cells[p.row][p.col := c]])
  }

  lemma PutCell(m: Maze, p: Position, c: char, q: Position)
    requires Shaped(m) && 0 <= p.row < MAX && 0 <= p.col < MAX && 0 <= q.row < MAX && 0 <= q.col < MAX
    ensures Cell(Put(m, p, c), q) == if q == p then c else Cell(m, q)
  {
  }

  // ----- searching in row order -----

  predicate Before(p: Position, q: Position) {
    p.row < q.row || (p.row == q.row && p.col < q.col)
  }

  /** The first cell holding c, from (i, j) on in row order. */
  function FindFrom(m: Maze, c: char, i: nat, j: nat): Option<Position>
    requires Shaped(m) && i <= m.rows && j <= m.cols
    decreases m.rows - i, m.cols - j
  {
    if i == m.rows then None
    else if j == m.cols then FindFrom(m, c, i + 1, 0)
    else if m.cells[i][j] == c then Some(Position(i, j))
    else FindFrom(m, c, i, j + 1)
  }

  function FindFirst(m: Maze, c: char): Option<Position>
    requires Shaped(m)
  {
    FindFrom(m, c, 0, 0)
  }

  ghost predicate IsFirst(m: Maze, c: char, start: Position, r: Option<Position>)
    requires Shaped(m)
  {
    match r
    case Some(p) =>
      && Inside(m, p) && Cell(m, p) == c && !Before(p, start)
      && forall q :: Inside(m, q) && !Before(q, start) && Cell(m, q) == c ==> !Before(q, p)
    case None => forall q :: Inside(m, q) && !Before(q, start) ==> Cell(m, q) != c
  }

  lemma {:induction false} FindFromIsFirst(m: Maze, c: char, i: nat, j: nat)
    requires Shaped(m) && i <= m.rows && j <= m.cols
    ensures IsFirst(m, c, Position(i, j), FindFrom(m, c, i, j))
    decreases m.rows - i, m.cols - j
  {
    if i == m.rows {
    } else if j == m.cols {
      FindFromIsFirst(m, c, i + 1, 0);
    } else if m.cells[i][j] != c {
      FindFromIsFirst(m, c, i, j + 1);
    }
  }

  lemma FindFirstIsFirst(m: Maze, c: char)
    requires Shaped(m)
    ensures IsFirst(m, c, Position(0, 0), FindFirst(m, c))
  {
    FindFromIsFirst(m, c, 0, 0);
  }

  // ----- connectivity -----

  function Open(m: Maze): set<Position>
    requires Shaped(m)
  {
    set i, j | 0 <= i < m.rows && 0 <= j < m.cols && m.cells[i][j] != '#' :: Position(i, j)
  }

  predicate Adjacent(p: Position, q: Position) {
    || (p.col == q.col && (p.row == q.row + 1 || q.row == p.row + 1))
    || (p.row == q.row && (p.col == q.col + 1 || q.col == p.col + 1))
  }

  /** Consecutive cells are neighbours, and all are in s. */
  ghost predicate IsPath(s: set<Position>, path: seq<Position>) {
    && path != [] && (forall i :: 0 <= i < |path| ==> path[i] in s)
    && forall i :: 0 <= i < |path| - 1 ==> Adjacent(path[i], path[i + 1])
  }

  ghost predicate Joins(s: set<Position>, path: seq<Position>, p: Position, q: Position) {
    IsPath(s, path) && path[0] == p && path[|path| - 1] == q
  }

  ghost predicate Reaches(s: set<Position>, p: Position, q: Position) {
    exists path :: Joins(s, path, p, q)
  }

  /** There is a cell that is no wall, and any two of them are joined by a path of such cells. */
  ghost predicate Connected(m: Maze)
    requires Shaped(m)
  {
    Open(m) != {} && forall p, q :: p in Open(m) && q in Open(m) ==> Reaches(Open(m), p, q)
  }

  lemma ReachesSelf(s: set<Position>, p: Position)
    requires p in s
    ensures Reaches(s, p, p)
  {
    assert Joins(s, [p], p, p);
  }

  lemma ReachesMore(s: set<Position>, t: set<Position>, p: Position, q: Position)
    requires Reaches(s, p, q) && s <= t
    ensures Reaches(t, p, q) && p in s && q in s
  {
    var path :| Joins(s, path, p, q);
    assert Joins(t, path, p, q);
  }

  lemma ReachesFurther(s: set<Position>, p: Position, n: Position, q: Position)
    requires p in s && Adjacent(p, n) && Reaches(s, n, q)
    ensures Reaches(s, p, q)
  {
    var path :| Joins(s, path, n, q);
    assert Joins(s, [p] + path, p, q);
  }

  lemma ReachesBack(s: set<Position>, p: Position, q: Position)
    requires Reaches(s, p, q)
    ensures Reaches(s, q, p)
  {
    var path :| Joins(s, path, p, q);
    var back := seq(|path|, i requires 0 <= i < |path| => path[|path| - 1 - i]);
    forall i | 0 <= i < |back| - 1 ensures Adjacent(back[i], back[i + 1]) {
      assert Adjacent(path[|path| - 2 - i], path[|path| - 2 - i + 1]);
    }
    assert Joins(s, back, q, p);
  }

  lemma ReachesThrough(s: set<Position>, p: Position, n: Position, q: Position)
    requires Reaches(s, p, n) && Reaches(s, n, q)
    ensures Reaches(s, p, q)
  {
    var a :| Joins(s, a, p, n);
    var b :| Joins(s, b, n, q);
    var c := a + b[1..];
    forall i | 0 <= i < |c| - 1 ensures Adjacent(c[i], c[i + 1]) {
      if i >= |a| - 1 {
        assert Adjacent(b[i - |a| + 1], b[i - |a| + 2]);
        assert c[i] == b[i - |a| + 1] && c[i + 1] == b[i - |a| + 2];
      } else {
        assert Adjacent(a[i], a[i + 1]);
      }
    }
    assert Joins(s, c, p, q);
  }

  /** A set that is closed under neighbours inside s holds everything its members reach. */
  lemma {:induction false} ClosedReaches(s: set<Position>, v: set<Position>, path: seq<Position>)
    requires IsPath(s, path) && path[0] in v
    requires forall a, b :: a in v && b in s && Adjacent(a, b) ==> b in v
    ensures path[|path| - 1] in v
    decreases |path|
  {
    if |path| > 1 {
      assert Adjacent(path[0], path[1]);
      assert IsPath(s, path[1..]) by {
        forall i | 0 <= i < |path[1..]| - 1 ensures Adjacent(path[1..][i], path[1..][i + 1]) {
          assert Adjacent(path[i + 1], path[i + 2]);
        }
      }
      ClosedReaches(s, v, path[1..]);
    }
  }

  /** All open cells are reachable from one of them exactly when the maze is connected. */
  lemma ConnectedFromOne(m: Maze, p: Position)
    requires Shaped(m) && p in Open(m)
    ensures Connected(m) <==> forall q :: q in Open(m) ==> Reaches(Open(m), p, q)
  {
    var s := Open(m);
    if forall q :: q in s ==> Reaches(s, p, q) {
      forall a, b | a in s && b in s ensures Reaches(s, a, b) {
        ReachesBack(s, p, a);
        ReachesThrough(s, a, p, b);
      }
    }
  }
}
