/** movePlayer as a function of the maze, and what stays true over whole sessions of moves. */
module LabyrinthMoves {
  import opened LabyrinthMaze

  predicate IsValidPlayer(id: char) {
    '0' <= id <= '9'
  }

  datatype Outcome = Outcome(ok: bool, maze: Maze)

  /** The cell a step leads to; None for a letter that is no direction. */
  function Target(p: Position, d: char): Option<Position> {
    if d == 'u' then Some(Position(p.row - 1, p.col))
    else if d == 'd' then Some(Position(p.row + 1, p.col))
    else if d == 'l' then Some(Position(p.row, p.col - 1))
    else if d == 'r' then Some(Position(p.row, p.col + 1))
    else None
  }

  /** Lines 254-278: below and right, the bounds let one row and one column too many pass. */
  predicate PassesBounds(m: Maze, q: Position, d: char) {
    match d
    case 'u' => q.row >= 0
    case 'd' => q.row <= m.rows
    case 'l' => q.col >= 0
    case 'r' => q.col <= m.cols
    case _ => false
  }

  function FirstLetter(direction: string): char {
    if direction == "" then '\0' else direction[0]
  }

  /** The step does not index the array at row or column 100, where C gives no meaning. */
  predicate StepDefined(m: Maze, p: Position, d: char) {
    var t := Target(p, d);
    t.Some? && PassesBounds(m, t.value, d) ==> t.value.row < MAX && t.value.col < MAX
  }

  predicate MoveDefined(m: Maze, id: char, direction: Option<string>)
    requires Shaped(m)
  {
    direction.Some? && FindFirst(m, id).Some? ==>
      StepDefined(m, FindFirst(m, id).value, FirstLetter(direction.value))
  }

  /** movePlayer: place a player that is not there yet, or move it one step. */
  function Move(m: Maze, id: char, direction: Option<string>): (r: Outcome)
    requires Shaped(m) && MoveDefined(m, id, direction)
    ensures Shaped(r.maze) && r.maze.rows == m.rows && r.maze.cols == m.cols
  {
    FindFirstIsFirst(m, id);
    FindFirstIsFirst(m, '.');
    match FindFirst(m, id)
    case None =>
      (match FindFirst(m, '.')
       case None => Outcome(false, m)
       case Some(e) => Outcome(true, Put(m, e, id)))
    case Some(p) =>
      match direction
      case None => Outcome(true, m)
      case Some(s) =>
        match Target(p, FirstLetter(s))
        case None => Outcome(false, m)
        case Some(q) =>
          if !PassesBounds(m, q, FirstLetter(s)) || Cell(m, q) != '.' then Outcome(false, m)
          else Outcome(true, Put(Put(m, q, id), p, '.'))
  }

  // ----- one move -----

  /** A failed move changes nothing. */
  lemma FailedMove(m: Maze, id: char, direction: Option<string>)
    requires Shaped(m) && MoveDefined(m, id, direction) && !Move(m, id, direction).ok
    ensures Move(m, id, direction).maze == m
  {
  }

  /** A player that is not in the maze goes to the first '.' in row order; nothing else changes. */
  lemma Placement(m: Maze, id: char, direction: Option<string>, e: Position, q: Position)
    requires Shaped(m) && MoveDefined(m, id, direction) && FindFirst(m, id).None?
    requires Inside(m, e) && Cell(m, e) == '.' && 0 <= q.row < MAX && 0 <= q.col < MAX
    requires forall f :: Inside(m, f) && Before(f, e) ==> Cell(m, f) != '.'
    ensures var r := Move(m, id, direction);
            r.ok && Cell(r.maze, q) == if q == e then id else Cell(m, q)
  {
    FindFirstIsFirst(m, '.');
  }

  /** A step that succeeds swaps the player with a '.' next to it, and touches no other cell. */
  lemma StepSwaps(m: Maze, id: char, direction: string, p: Position, x: Position)
    requires Shaped(m) && MoveDefined(m, id, Some(direction)) && FindFirst(m, id) == Some(p)
    requires Move(m, id, Some(direction)).ok && 0 <= x.row < MAX && 0 <= x.col < MAX
    ensures var r := Move(m, id, Some(direction)).maze;
            var t := Target(p, FirstLetter(direction));
            && t.Some? && Inside(m, p) && Cell(m, p) == id && Adjacent(p, t.value)
            && 0 <= t.value.row < MAX && 0 <= t.value.col < MAX && Cell(m, t.value) == '.'
            && Cell(r, x) == if x == t.value then id else if x == p then '.' else Cell(m, x)
  {
    FindFirstIsFirst(m, id);
  }

  /** In the last row going down, or in the last column going right. */
  predicate AtEdge(m: Maze, p: Position, d: char) {
    (d == 'd' && p.row == m.rows - 1) || (d == 'r' && p.col == m.cols - 1)
  }

  /** A move indexes outside the array exactly from row 99 going down, or from column 99 going right. */
  lemma MoveDefinedExactly(m: Maze, id: char, direction: Option<string>)
    requires Shaped(m)
    ensures MoveDefined(m, id, direction) <==>
            !(&& direction.Some? && FindFirst(m, id).Some?
              && var p, d := FindFirst(m, id).value, FirstLetter(direction.value);
                 (d == 'd' && p.row == MAX - 1) || (d == 'r' && p.col == MAX - 1))
  {
    FindFirstIsFirst(m, id);
  }

  /** The player stands at p and nowhere else. */
  ghost predicate OnlyAt(m: Maze, id: char, p: Position)
    requires Shaped(m)
  {
    Inside(m, p) && Cell(m, p) == id && forall q :: Inside(m, q) && Cell(m, q) == id ==> q == p
  }

  lemma OnlyPlace(m: Maze, id: char, p: Position)
    requires Shaped(m) && OnlyAt(m, id, p)
    ensures FindFirst(m, id) == Some(p)
  {
    FindFirstIsFirst(m, id);
  }

  /**
   A player is still in the maze after its move exactly unless it stands at the lower or right edge, goes that way,
   and the array holds a '.' in the cell behind the edge.
   */
  lemma MoveStaysInsideExactly(m: Maze, id: char, direction: string, p: Position)
    requires Shaped(m) && OnlyAt(m, id, p) && id != '.' && MoveDefined(m, id, Some(direction))
    ensures FindFirst(m, id) == Some(p)
    ensures FindFirst(Move(m, id, Some(direction)).maze, id).Some? <==>
            !(AtEdge(m, p, FirstLetter(direction)) && Cell(m, Target(p, FirstLetter(direction)).value) == '.')
  {
    OnlyPlace(m, id, p);
    FindFirstIsFirst(m, id);
    var d, o := FirstLetter(direction), Move(m, id, Some(direction));
    FindFirstIsFirst(o.maze, id);
    if o.ok {
      var q := Target(p, d).value;
      assert Inside(o.maze, q) <==> !AtEdge(m, p, d);
      forall x | Inside(m, x) ensures Cell(o.maze, x) == if x == q then id else if x == p then '.' else Cell(m, x) {
        StepSwaps(m, id, direction, p, x);
      }
    }
  }

  // ----- which letter goes where -----

  /** The move of the player from p to q: it succeeds only onto a '.', and then swaps the two cells and no others. */
  ghost predicate GoesTo(m: Maze, o: Outcome, id: char, p: Position, q: Position)
    requires Shaped(m) && Shaped(o.maze) && Inside(m, p)
  {
    && 0 <= q.row < MAX && 0 <= q.col < MAX && Cell(m, q) == '.' && Cell(o.maze, q) == id && Cell(o.maze, p) == '.'
    && forall x: Position :: 0 <= x.row < MAX && 0 <= x.col < MAX && x != p && x != q ==> Cell(o.maze, x) == Cell(m, x)
  }

  /**
   Up, down, left and right by the first letter of the direction; without one of these four letters the move fails.
   The move is defined but from row 99 down and from column 99 to the right.
   */
  lemma MoveByLetter(m: Maze, id: char, direction: string, p: Position)
    requires Shaped(m) && OnlyAt(m, id, p) && id != '.'
    requires direction != "" && direction[0] == 'd' ==> p.row < MAX - 1
    requires direction != "" && direction[0] == 'r' ==> p.col < MAX - 1
    ensures MoveDefined(m, id, Some(direction))
    ensures var o := Move(m, id, Some(direction));
            && (direction == "" || direction[0] !in ['u', 'd', 'l', 'r'] ==> !o.ok)
            && (o.ok && direction[0] == 'u' ==> GoesTo(m, o, id, p, Position(p.row - 1, p.col)))
            && (o.ok && direction[0] == 'd' ==> GoesTo(m, o, id, p, Position(p.row + 1, p.col)))
            && (o.ok && direction[0] == 'l' ==> GoesTo(m, o, id, p, Position(p.row, p.col - 1)))
            && (o.ok && direction[0] == 'r' ==> GoesTo(m, o, id, p, Position(p.row, p.col + 1)))
  {
    OnlyPlace(m, id, p);
    MoveDefinedExactly(m, id, Some(direction));
    var o := Move(m, id, Some(direction));
    if o.ok {
      forall x: Position | 0 <= x.row < MAX && 0 <= x.col < MAX
        ensures Cell(o.maze, x) ==
                  if x == Target(p, FirstLetter(direction)).value then id else if x == p then '.' else Cell(m, x)
      {
        StepSwaps(m, id, direction, p, x);
      }
    }
  }

  /** The move succeeds exactly when the cell it leads to is free; up and left of the maze there is none. */
  lemma MoveWhenFree(m: Maze, id: char, direction: string, p: Position)
    requires Shaped(m) && OnlyAt(m, id, p) && id != '.' && direction != ""
    requires direction[0] == 'd' ==> p.row < MAX - 1
    requires direction[0] == 'r' ==> p.col < MAX - 1
    ensures MoveDefined(m, id, Some(direction))
    ensures var ok := Move(m, id, Some(direction)).ok;
            && (direction[0] == 'u' ==> (ok <==> p.row > 0 && Cell(m, Position(p.row - 1, p.col)) == '.'))
            && (direction[0] == 'd' ==> (ok <==> Cell(m, Position(p.row + 1, p.col)) == '.'))
            && (direction[0] == 'l' ==> (ok <==> p.col > 0 && Cell(m, Position(p.row, p.col - 1)) == '.'))
            && (direction[0] == 'r' ==> (ok <==> Cell(m, Position(p.row, p.col + 1)) == '.'))
  {
    OnlyPlace(m, id, p);
    MoveDefinedExactly(m, id, Some(direction));
  }

  // ----- sessions -----

  /** Every cell on the edge is a wall. */
  ghost predicate Walled(m: Maze)
    requires Shaped(m)
  {
    forall p :: Inside(m, p) && (p.row == 0 || p.row == m.rows - 1 || p.col == 0 || p.col == m.cols - 1) ==>
      Cell(m, p) == '#'
  }

  /** Each player stands at no more than one place. */
  ghost predicate OneOfEach(m: Maze)
    requires Shaped(m)
  {
    forall p, q :: Inside(m, p) && Inside(m, q) && Cell(m, p) == Cell(m, q) && IsValidPlayer(Cell(m, p)) ==> p == q
  }

  /** The last row and the last column are walls. */
  ghost predicate WalledBehind(m: Maze)
    requires Shaped(m)
  {
    forall p :: Inside(m, p) && (p.row == m.rows - 1 || p.col == m.cols - 1) ==> Cell(m, p) == '#'
  }

  ghost predicate Good(m: Maze) {
    Shaped(m) && WalledBehind(m) && OneOfEach(m)
  }

  lemma GoodIsDefined(m: Maze, id: char, direction: Option<string>)
    requires Good(m) && IsValidPlayer(id)
    ensures MoveDefined(m, id, direction)
    ensures FindFirst(m, id).Some? ==> InFront(m, FindFirst(m, id).value)
    ensures FindFirst(m, id).Some? && Walled(m) ==> StrictlyInside(m, FindFirst(m, id).value)
  {
    FindFirstIsFirst(m, id);
  }

  /** In the maze, and neither in its last row nor in its last column. */
  predicate InFront(m: Maze, p: Position) {
    0 <= p.row < m.rows - 1 && 0 <= p.col < m.cols - 1
  }

  predicate StrictlyInside(m: Maze, p: Position) {
    0 < p.row < m.rows - 1 && 0 < p.col < m.cols - 1
  }

  /** What a move may change: only cells that are no wall, and never into or out of a wall. */
  ghost predicate SameWalls(m: Maze, r: Maze)
    requires Shaped(m) && Shaped(r)
  {
    && r.rows == m.rows && r.cols == m.cols
    && forall p :: Inside(m, p) ==> (Cell(r, p) == '#' <==> Cell(m, p) == '#')
  }

  lemma SameWallsOpen(m: Maze, r: Maze)
    requires Shaped(m) && Shaped(r) && SameWalls(m, r)
    ensures Open(r) == Open(m) && (Connected(r) <==> Connected(m))
  {
    forall p ensures p in Open(r) <==> p in Open(m) {
      if Inside(m, p) {
        assert Cell(r, p) == '#' <==> Cell(m, p) == '#';
      }
    }
  }

  /** One cell holding '.' or one player swapped or replaced as a move does. */
  lemma PlacedGood(m: Maze, e: Position, id: char)
    requires Good(m) && IsValidPlayer(id) && Inside(m, e) && Cell(m, e) == '.'
    requires forall p :: Inside(m, p) ==> Cell(m, p) != id
    ensures Good(Put(m, e, id)) && SameWalls(m, Put(m, e, id))
  {
    var r := Put(m, e, id);
    forall p | Inside(m, p) ensures Cell(r, p) == if p == e then id else Cell(m, p) {
      PutCell(m, e, id, p);
    }
  }

  lemma SteppedGood(m: Maze, p: Position, q: Position, id: char)
    requires Good(m) && IsValidPlayer(id) && Inside(m, p) && Cell(m, p) == id
    requires Inside(m, q) && Cell(m, q) == '.'
    ensures var r := Put(Put(m, q, id), p, '.'); Good(r) && SameWalls(m, r)
  {
    var r := Put(Put(m, q, id), p, '.');
    forall x | Inside(m, x) ensures Cell(r, x) == if x == p then '.' else if x == q then id else Cell(m, x) {
      PutCell(m, q, id, x);
      PutCell(Put(m, q, id), p, '.', x);
    }
  }

  lemma MoveGood(m: Maze, id: char, direction: Option<string>)
    requires Good(m) && IsValidPlayer(id)
    ensures MoveDefined(m, id, direction)
    ensures var r := Move(m, id, direction).maze; Good(r) && SameWalls(m, r)
  {
    GoodIsDefined(m, id, direction);
    FindFirstIsFirst(m, id);
    FindFirstIsFirst(m, '.');
    match FindFirst(m, id)
    case None =>
      if FindFirst(m, '.').Some? {
        PlacedGood(m, FindFirst(m, '.').value, id);
      }
    case Some(p) =>
      if direction.Some? && Move(m, id, direction).ok {
        SteppedGood(m, p, Target(p, FirstLetter(direction.value)).value, id);
      }
  }

  /** A move of one player leaves every other player where it was. */
  lemma OthersStay(m: Maze, id: char, direction: Option<string>, other: char)
    requires Good(m) && IsValidPlayer(id) && IsValidPlayer(other) && other != id
    ensures MoveDefined(m, id, direction)
    ensures FindFirst(Move(m, id, direction).maze, other) == FindFirst(m, other)
  {
    MoveGood(m, id, direction);
    var r := Move(m, id, direction).maze;
    forall p | Inside(m, p) ensures Cell(r, p) == other <==> Cell(m, p) == other {
      FindFirstIsFirst(m, id);
      FindFirstIsFirst(m, '.');
      if FindFirst(m, id).None? && FindFirst(m, '.').Some? {
        PutCell(m, FindFirst(m, '.').value, id, p);
      } else if FindFirst(m, id).Some? && direction.Some? && Move(m, id, direction).ok {
        StepSwaps(m, id, direction.value, FindFirst(m, id).value, p);
      }
    }
    FindFirstIsFirst(m, other);
    FindFirstIsFirst(r, other);
  }

  datatype Turn = Turn(id: char, direction: Option<string>)

  ghost predicate Legal(turns: seq<Turn>) {
    forall t :: t in turns ==> IsValidPlayer(t.id)
  }

  function Play(m: Maze, turns: seq<Turn>): (r: Maze)
    requires Good(m) && Legal(turns)
    ensures Good(r)
    decreases |turns|
  {
    if turns == [] then m
    else
      MoveGood(m, turns[0].id, turns[0].direction);
      Play(Move(m, turns[0].id, turns[0].direction).maze, turns[1..])
  }

  lemma StaysWalled(m: Maze, r: Maze)
    requires Shaped(m) && Shaped(r) && SameWalls(m, r)
    ensures Walled(r) <==> Walled(m)
  {
  }

  /**
   Over any session on a maze whose last row and column are walls, with at most one of each player: the walls, the
   cells that are no wall and so the connectivity never change, players stay unique, and every player is in front of
   the last row and column; with a wall all round, strictly inside the border.
   */
  lemma {:induction false} SessionSafe(m: Maze, turns: seq<Turn>, id: char)
    requires Good(m) && Legal(turns) && IsValidPlayer(id)
    ensures var r := Play(m, turns);
            && Good(r) && SameWalls(m, r) && Open(r) == Open(m) && (Connected(r) <==> Connected(m))
            && (FindFirst(r, id).Some? ==> InFront(r, FindFirst(r, id).value))
            && (FindFirst(r, id).Some? && Walled(m) ==> StrictlyInside(r, FindFirst(r, id).value))
            && (FindFirst(m, id).Some? ==> FindFirst(r, id).Some?)
    decreases |turns|
  {
    if turns == [] {
      GoodIsDefined(m, id, None);
      SameWallsOpen(m, m);
    } else {
      var turn := turns[0];
      MoveGood(m, turn.id, turn.direction);
      var n := Move(m, turn.id, turn.direction).maze;
      SameWallsOpen(m, n);
      StaysWalled(m, n);
      SessionSafe(n, turns[1..], id);
      if id != turn.id {
        OthersStay(m, turn.id, turn.direction, id);
      } else if FindFirst(m, id).Some? {
        PlayerStays(m, id, turn.direction);
      }
    }
  }

  /** A player in the maze is still in it after its own move. */
  lemma PlayerStays(m: Maze, id: char, direction: Option<string>)
    requires Good(m) && IsValidPlayer(id) && FindFirst(m, id).Some?
    ensures MoveDefined(m, id, direction) && FindFirst(Move(m, id, direction).maze, id).Some?
  {
    MoveGood(m, id, direction);
    var out := Move(m, id, direction);
    if out.ok && direction.Some? {
      var p := FindFirst(m, id).value;
      var q := Target(p, FirstLetter(direction.value)).value;
      GoodIsDefined(m, id, direction);
      StepSwaps(m, id, direction.value, p, q);
      assert Inside(out.maze, q);
    }
    FindFirstIsFirst(out.maze, id);
  }
}
