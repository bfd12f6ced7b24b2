/**
 The map file: what saveMap writes, what loadMap reads through a 101-byte fgets buffer, and when one undoes the
 other.
 */
module LabyrinthFile {
  import opened LabyrinthMaze

  const BUFFER: nat := 101  // MAX_MAP, one byte of which is the NUL

  // ----- fgets -----

  /** What one fgets call takes from the file: up to and including a newline, or 100 characters. */
  function Chunk(s: string, room: nat): (c: string)
    ensures |c| <= room && |c| <= |s| && c == s[..|c|]
    ensures s != "" && room > 0 ==> c != ""
  {
    if s == "" || room == 0 then ""
    else if s[0] == '\n' then [s[0]]
    else [s[0]] + Chunk(s[1..], room - 1)
  }

  predicate Stops(c: char) {
    c == '\n' || c == '\0'
  }

  /** The characters of a buffer before its first newline or NUL. */
  function Line(c: string): (l: string)
    ensures |l| <= |c| && l == c[..|l|] && (|l| < |c| ==> Stops(c[|l|]))
    ensures forall i :: 0 <= i < |l| ==> !Stops(l[i])
  {
    if c == "" || Stops(c[0]) then "" else [c[0]] + Line(c[1..])
  }

  // ----- the two directions -----

  /** What is visible of a maze, or what a file holds. */
  datatype Grid = Grid(lines: seq<string>, cols: nat)

  /** loadMap's loop: `lines` have been read and `cols` is the width so far (0 until a line is not empty). */
  function LoadFrom(s: string, lines: seq<string>, cols: nat): Option<Grid>
    decreases |s|
  {
    var c := Chunk(s, BUFFER - 1);
    if c == "" then (if |lines| <= MAX && cols <= MAX then Some(Grid(lines, cols)) else None)
    else
      var l := Line(c);
      if cols != 0 && cols != |l| then None
      else if |lines| + 1 > MAX then None
      else LoadFrom(s[|c|..], lines + [l], if cols == 0 then |l| else cols)
  }

  function Load(s: string): Option<Grid> {
    LoadFrom(s, [], 0)
  }

  function SaveLines(lines: seq<string>): string {
    if lines == [] then "" else lines[0] + "\n" + SaveLines(lines[1..])
  }

  function Visible(m: Maze): (g: Grid)
    requires Shaped(m)
    ensures |g.lines| == m.rows && g.cols == m.cols
    ensures forall i :: 0 <= i < m.rows ==> g.lines[i] == m.cells[i][..m.cols]
  {
    Grid(seq(m.rows, i requires 0 <= i < m.rows => m.cells[i][..m.cols]), m.cols)
  }

  function Save(m: Maze): string
    requires Shaped(m)
  {
    SaveLines(Visible(m).lines)
  }

  // ----- reading one saved line -----

  ghost predicate Clean(l: string) {
    forall i :: 0 <= i < |l| ==> !Stops(l[i])
  }

  lemma {:induction false} LineOfClean(l: string, rest: string)
    requires Clean(l) && (rest != "" ==> Stops(rest[0]))
    ensures Line(l + rest) == l
  {
    if l == "" {
      assert l + rest == rest;
    } else {
      assert (l + rest)[1..] == l[1..] + rest;
      assert Clean(l[1..]) by {
        forall i | 0 <= i < |l[1..]| ensures !Stops(l[1..][i]) { assert !Stops(l[i + 1]); }
      }
      LineOfClean(l[1..], rest);
    }
  }

  /** A line without newlines that leaves room for its newline is read whole; one that fills the buffer is not. */
  lemma {:induction false} ChunkOfLine(l: string, rest: string, room: nat)
    requires Clean(l) && room > 0
    ensures Chunk(l + "\n" + rest, room) == if |l| < room then l + "\n" else l[..room]
  {
    if l == "" {
      assert l + "\n" + rest == "\n" + rest;
    } else {
      assert (l + "\n" + rest)[1..] == l[1..] + "\n" + rest;
      if room > 1 {
        assert Clean(l[1..]) by {
          forall i | 0 <= i < |l[1..]| ensures !Stops(l[1..][i]) { assert !Stops(l[i + 1]); }
        }
        ChunkOfLine(l[1..], rest, room - 1);
      } else {
        assert Chunk((l + "\n" + rest)[1..], 0) == "";
      }
    }
  }

  /** A line with a newline or NUL in it, of at most 100 characters, comes back cut before the first of these. */
  lemma {:induction false} SpoiltLine(l: string, rest: string, room: nat)
    requires !Clean(l) && |l| <= room
    ensures |Line(Chunk(l + "\n" + rest, room))| < |l|
  {
    var s := l + "\n" + rest;
    if !Stops(l[0]) {
      assert s[1..] == l[1..] + "\n" + rest;
      assert !Clean(l[1..]) by {
        var i :| 0 <= i < |l| && Stops(l[i]);
        assert Stops(l[1..][i - 1]);
      }
      SpoiltLine(l[1..], rest, room - 1);
      assert Chunk(s, room) == [l[0]] + Chunk(s[1..], room - 1);
      assert Chunk(s, room)[1..] == Chunk(s[1..], room - 1);
    }
  }

  // ----- loadMap undoes saveMap exactly for these mazes -----

  /** At most 99 columns, no newline or NUL in a cell; a maze without rows has no columns either. */
  ghost predicate Loadable(g: Grid) {
    if g.lines == [] then g.cols == 0
    else g.cols < MAX && forall i :: 0 <= i < |g.lines| ==> Clean(g.lines[i])
  }

  ghost predicate Rectangular(lines: seq<string>, cols: nat) {
    forall i :: 0 <= i < |lines| ==> |lines[i]| == cols
  }

  lemma LoadStep(l: string, rest: seq<string>, done: seq<string>, cols: nat)
    requires Clean(l) && |l| < MAX && (cols == 0 || cols == |l|) && |done| < MAX
    ensures LoadFrom(SaveLines([l] + rest), done, cols) == LoadFrom(SaveLines(rest), done + [l], |l|)
  {
    var s := SaveLines([l] + rest);
    assert ([l] + rest)[1..] == rest;
    assert s == l + "\n" + SaveLines(rest);
    ChunkOfLine(l, SaveLines(rest), BUFFER - 1);
    LineOfClean(l, "\n");
    assert s[|l| + 1..] == SaveLines(rest);
  }

  lemma LoadSpoilt(l: string, rest: seq<string>, done: seq<string>)
    requires !Clean(l) && |l| < MAX
    ensures LoadFrom(SaveLines([l] + rest), done, |l|) == None
  {
    var s := SaveLines([l] + rest);
    assert ([l] + rest)[1..] == rest;
    assert s == l + "\n" + SaveLines(rest);
    SpoiltLine(l, SaveLines(rest), BUFFER - 1);
  }

  /** Reading the remaining lines of a saved map, once the width is settled. */
  lemma {:induction false} LoadRest(rest: seq<string>, done: seq<string>, cols: nat)
    requires Rectangular(rest, cols) && cols < MAX && |done| + |rest| <= MAX
    ensures LoadFrom(SaveLines(rest), done, cols) == Some(Grid(done + rest, cols))
       <==> forall i :: 0 <= i < |rest| ==> Clean(rest[i])
    decreases |rest|
  {
    hide LoadFrom, SaveLines, Clean, Rectangular;
    if rest == [] {
      NothingToLoad(done, cols);
      assert done + rest == done;
    } else {
      var l := rest[0];
      assert rest == [l] + rest[1..];
      AllClean(rest);
      RestRectangular(rest, cols);
      if Clean(l) {
        LoadStep(l, rest[1..], done, cols);
        LoadRest(rest[1..], done + [l], cols);
        assert done + [l] + rest[1..] == done + rest;
      } else {
        LoadSpoilt(l, rest[1..], done);
      }
    }
  }

  lemma NothingToLoad(done: seq<string>, cols: nat)
    requires cols < MAX && |done| <= MAX
    ensures LoadFrom(SaveLines([]), done, cols) == Some(Grid(done, cols))
  {
  }

  lemma RestRectangular(rest: seq<string>, cols: nat)
    requires Rectangular(rest, cols) && rest != []
    ensures Rectangular(rest[1..], cols) && |rest[0]| == cols
  {
  }

  /** A line that is read shorter than it was written stays so in whatever is loaded. */
  lemma {:induction false} LoadKeepsPrefix(s: string, done: seq<string>, cols: nat)
    ensures var r := LoadFrom(s, done, cols); r.Some? ==> done <= r.value.lines
    decreases |s|
  {
    var c := Chunk(s, BUFFER - 1);
    if c != "" {
      var l := Line(c);
      if !(cols != 0 && cols != |l|) && |done| + 1 <= MAX {
        LoadKeepsPrefix(s[|c|..], done + [l], if cols == 0 then |l| else cols);
      }
    }
  }

  lemma FullWidthFails(l: string, rest: seq<string>)
    requires Clean(l) && |l| == MAX
    ensures Load(SaveLines([l] + rest)) == None
  {
    var s := SaveLines([l] + rest);
    assert ([l] + rest)[1..] == rest;
    assert s == l + "\n" + SaveLines(rest);
    ChunkOfLine(l, SaveLines(rest), BUFFER - 1);
    assert l[..MAX] == l && l + "" == l;
    LineOfClean(l, "");
    var s' := s[MAX..];
    assert s' == "\n" + SaveLines(rest) && Chunk(s', BUFFER - 1) == "\n";
    assert LoadFrom(s, [], 0) == LoadFrom(s', [l], MAX);
  }

  /** loadMap undoes saveMap exactly for the mazes that fit its buffer and hold no newline or NUL. */
  lemma LoadUndoesSaveExactly(m: Maze)
    requires Shaped(m)
    ensures Load(Save(m)) == Some(Visible(m)) <==> Loadable(Visible(m))
  {
    var g := Visible(m);
    if g.lines != [] {
      var l, rest := g.lines[0], g.lines[1..];
      assert g.lines == [l] + rest;
      assert Rectangular(rest, g.cols) by {
        forall i | 0 <= i < |rest| ensures |rest[i]| == g.cols { assert rest[i] == g.lines[i + 1]; }
      }
      if !Clean(l) {
        FirstLineSpoilt(l, rest, g.cols);
      } else if g.cols == MAX {
        FullWidthFails(l, rest);
      } else {
        LoadStep(l, rest, [], 0);
        assert [] + [l] == [l];
        LoadRest(rest, [l], g.cols);
        AllClean(g.lines);
      }
    }
  }

  lemma AllClean(lines: seq<string>)
    requires lines != []
    ensures (forall i :: 0 <= i < |lines| ==> Clean(lines[i]))
       <==> Clean(lines[0]) && forall i :: 0 <= i < |lines[1..]| ==> Clean(lines[1..][i])
  {
    if Clean(lines[0]) && forall i :: 0 <= i < |lines[1..]| ==> Clean(lines[1..][i]) {
      forall i | 0 <= i < |lines| ensures Clean(lines[i]) {
        if i > 0 { assert Clean(lines[1..][i - 1]); }
      }
    }
  }

  lemma FirstLineSpoilt(l: string, rest: seq<string>, cols: nat)
    requires !Clean(l) && |l| == cols <= MAX
    ensures Load(SaveLines([l] + rest)) != Some(Grid([l] + rest, cols))
  {
    var s := SaveLines([l] + rest);
    assert ([l] + rest)[1..] == rest;
    assert s == l + "\n" + SaveLines(rest);
    SpoiltLine(l, SaveLines(rest), BUFFER - 1);
    var c := Chunk(s, BUFFER - 1);
    LoadKeepsPrefix(s[|c|..], [Line(c)], |Line(c)|);
    assert [] + [Line(c)] == [Line(c)];
    assert LoadFrom(s, [], 0) == LoadFrom(s[|c|..], [Line(c)], |Line(c)|);
    assert ([l] + rest)[0] == l;
  }
}
