/** What the tree and the printout are, said with pids and parent pids alone. */
module PstreePids {
  import opened PstreeForest

  /** Entry i is the first with this pid: the one that a search by pid finds. */
  ghost predicate FirstWith(t: Table, pid: int, i: nat) {
    i < |t| && t[i].pid == pid && forall k :: 0 <= k < i ==> t[k].pid != pid
  }

  ghost predicate NoneWith(t: Table, pid: int) {
    forall k :: 0 <= k < |t| ==> t[k].pid != pid
  }

  /** Entry j hangs under i: i has the pid that j names as its parent, or nobody has and i is init. */
  ghost predicate ChildOf(t: Table, j: nat, i: nat) {
    && j < |t| && t[j].pid != 1
    && (FirstWith(t, t[j].ppid, i) || (NoneWith(t, t[j].ppid) && FirstWith(t, 1, i)))
  }

  /** With distinct pids j is a child of i when it names the pid of i, or when nobody has that pid and i is init. */
  lemma ChildByPid(t: Table, j: nat, i: nat)
    requires (forall a, b :: 0 <= a < b < |t| ==> t[a].pid != t[b].pid) && j < |t| && i < |t|
    ensures ChildOf(t, j, i) <==>
              && t[j].pid != 1
              && (t[j].ppid == t[i].pid || (t[i].pid == 1 && forall k :: 0 <= k < |t| ==> t[k].pid != t[j].ppid))
  {
    assert FirstWith(t, t[j].ppid, i) <==> t[i].pid == t[j].ppid;
    assert FirstWith(t, 1, i) <==> t[i].pid == 1;
  }

  lemma FoundFirst(t: Table, pid: int, i: nat)
    ensures FirstWith(t, pid, i) <==> i < |t| && FindPid(t, pid) == i
    ensures NoneWith(t, pid) <==> FindPid(t, pid) == |t|
  {
  }

  lemma ParentIs(t: Table, j: nat, i: nat)
    requires j < |t|
    ensures Parent(t, j) == Some(i) <==> ChildOf(t, j, i)
  {
    hide FindPid;
    FoundFirst(t, t[j].ppid, i);
    FoundFirst(t, 1, i);
  }

  /** The list of i: its children, each once, in ascending order of pid. */
  ghost predicate ListsChildren(t: Table, list: seq<nat>, i: nat) {
    && (forall j: nat :: j in list <==> ChildOf(t, j, i))
    && (forall x, y :: 0 <= x < y < |list| ==> list[x] != list[y])
    && Ascending(t, list)
  }

  lemma KidsAreChildren(t: Table, i: nat)
    ensures ListsChildren(t, Kids(t, i, |t|), i)
  {
    hide Kids, Parent, ChildOf;
    var list := Kids(t, i, |t|);
    KidsExact(t, i, |t|);
    forall j: nat ensures j in list <==> ChildOf(t, j, i) {
      KidIs(t, i, j);
      if j < |t| {
        ParentIs(t, j, i);
      } else {
        NoChild(t, j, i);
      }
    }
    forall x, y | 0 <= x < y < |list| ensures list[x] != list[y] {
      KidsDistinct(t, i, x, y);
    }
  }

  lemma NoChild(t: Table, j: nat, i: nat)
    requires j >= |t|
    ensures !ChildOf(t, j, i)
  {
  }

  // ----- the printout -----

  /** Line x stands directly under line y: one level deeper, with only deeper lines than y's between. */
  ghost predicate Under(lines: seq<Line>, y: nat, x: nat) {
    && y < x < |lines| && lines[x].depth == lines[y].depth + 1
    && forall z :: y < z < x ==> lines[z].depth > lines[y].depth
  }

  /** The lines directly under line y are those of its children, in ascending order of pid. */
  ghost predicate ChildrenUnder(t: Table, lines: seq<Line>, y: nat)
    requires y < |lines|
  {
    && (forall x: nat :: Under(lines, y, x) ==> ChildOf(t, lines[x].index, lines[y].index))
    && (forall j: nat :: ChildOf(t, j, lines[y].index) ==> exists x: nat :: Under(lines, y, x) && lines[x].index == j)
    && (forall x: nat, x': nat :: Under(lines, y, x) && Under(lines, y, x') && x < x' ==>
          lines[x].index < |t| && lines[x'].index < |t| && t[lines[x].index].pid <= t[lines[x'].index].pid)
  }

  /** Trees printed one after another, their roots at depth d. */
  ghost predicate Trees(t: Table, lines: seq<Line>, d: nat) {
    && (forall x :: 0 <= x < |lines| ==> lines[x].depth >= d)
    && (lines != [] ==> lines[0].depth == d)
    && (forall x: nat :: x < |lines| && lines[x].depth > d ==> exists y: nat :: Under(lines, y, x))
    && (forall y: nat :: y < |lines| ==> ChildrenUnder(t, lines, y))
  }

  /** The entries whose lines are at depth d, in order. */
  function Tops(lines: seq<Line>, d: nat): seq<nat> {
    if lines == [] then []
    else
      var rest, last := Tops(lines[..|lines| - 1], d), lines[|lines| - 1];
      if last.depth == d then rest + [last.index] else rest
  }

  lemma {:induction false} TopsAppend(a: seq<Line>, b: seq<Line>, d: nat)
    ensures Tops(a + b, d) == Tops(a, d) + Tops(b, d)
  {
    if b == [] {
      assert a + b == a;
    } else {
      var n := |b| - 1;
      TopsAppend(a, b[..n], d);
      assert (a + b)[..|a + b| - 1] == a + b[..n];
    }
  }

  /** Where a line at depth d comes in that list. */
  function TopBefore(lines: seq<Line>, d: nat, x: nat): nat
    requires x <= |lines|
  {
    |Tops(lines[..x], d)|
  }

  lemma {:induction false} TopAt(lines: seq<Line>, d: nat, x: nat)
    requires x < |lines| && lines[x].depth == d
    ensures TopBefore(lines, d, x) < |Tops(lines, d)| && Tops(lines, d)[TopBefore(lines, d, x)] == lines[x].index
    ensures TopBefore(lines, d, x) < TopBefore(lines, d, x + 1) <= |Tops(lines, d)|
  {
    TopsAppend(lines[..x], lines[x..], d);
    assert lines == lines[..x] + lines[x..];
    TopsAppend(lines[..x + 1], lines[x + 1..], d);
    assert lines == lines[..x + 1] + lines[x + 1..];
    assert lines[..x + 1][..x] == lines[..x];
  }

  lemma {:induction false} TopsGrow(lines: seq<Line>, d: nat, x: nat, y: nat)
    requires x <= y <= |lines|
    ensures TopBefore(lines, d, x) <= TopBefore(lines, d, y)
  {
    assert lines[..y] == lines[..x] + lines[x..y];
    TopsAppend(lines[..x], lines[x..y], d);
  }

  lemma {:induction false} TopIsLine(lines: seq<Line>, d: nat, j: nat) returns (x: nat)
    requires j in Tops(lines, d)
    ensures x < |lines| && lines[x].depth == d && lines[x].index == j
  {
    var n := |lines| - 1;
    if lines[n].depth == d && lines[n].index == j {
      x := n;
    } else {
      x := TopIsLine(lines[..n], d, j);
    }
  }

  /** No line of one group of trees is under a line of another. */
  lemma UnderConcat(a: seq<Line>, b: seq<Line>, d: nat, y: nat, x: nat)
    requires forall z :: 0 <= z < |a| ==> a[z].depth >= d
    requires b != [] ==> b[0].depth == d
    ensures Under(a + b, y, x) <==> Under(a, y, x) || (y >= |a| && x >= |a| && Under(b, y - |a|, x - |a|))
  {
    var all := a + b;
    if b != [] {
      assert all[|a|] == b[0];
    }
    if y >= |a| && x >= |a| && Under(b, y - |a|, x - |a|) {
      forall z | y < z < x ensures all[z].depth > all[y].depth {
        assert all[z] == b[z - |a|];
      }
    }
    if y >= |a| && Under(all, y, x) {
      assert all[x] == b[x - |a|];
      forall z | y - |a| < z < x - |a| ensures b[z].depth > b[y - |a|].depth {
        assert all[z + |a|] == b[z];
      }
    }
    if Under(all, y, x) && x < |a| {
      forall z | y < z < x ensures a[z].depth > a[y].depth {
        assert all[z] == a[z];
      }
    }
  }

  lemma TreesConcat(t: Table, a: seq<Line>, b: seq<Line>, d: nat)
    requires Trees(t, a, d) && Trees(t, b, d)
    ensures Trees(t, a + b, d)
  {
    hide Under, ChildrenUnder;
    forall x: nat | x < |a + b| && (a + b)[x].depth > d ensures exists y: nat :: Under(a + b, y, x) {
      AboveConcat(t, a, b, d, x);
    }
    forall y: nat | y < |a + b| ensures ChildrenUnder(t, a + b, y) {
      if y < |a| {
        ChildrenLeft(t, a, b, d, y);
      } else {
        ChildrenRight(t, a, b, d, y - |a|);
      }
    }
  }

  lemma AboveConcat(t: Table, a: seq<Line>, b: seq<Line>, d: nat, x: nat)
    requires Trees(t, a, d) && Trees(t, b, d) && x < |a + b| && (a + b)[x].depth > d
    ensures exists y: nat :: Under(a + b, y, x)
  {
    hide Under, ChildrenUnder;
    if x < |a| {
      var y: nat :| Under(a, y, x);
      UnderConcat(a, b, d, y, x);
    } else {
      var y: nat :| Under(b, y, x - |a|);
      UnderConcat(a, b, d, y + |a|, x);
    }
  }

  /** Line x, seen from `off` lines further up, stands directly under line y. */
  ghost predicate UnderBy(lines: seq<Line>, y: nat, x: nat, off: nat) {
    x >= off && Under(lines, y, x - off)
  }

  /** A piece of the printout keeps its children where nothing else comes under its lines. */
  lemma ChildrenMoved(t: Table, lines: seq<Line>, y: nat, all: seq<Line>, off: nat, at: nat)
    requires y < |lines| && off + |lines| <= |all| && all[off..off + |lines|] == lines && at == off + y
    requires ChildrenUnder(t, lines, y)
    requires forall x: nat :: Under(all, at, x) <==> UnderBy(lines, y, x, off)
    ensures ChildrenUnder(t, all, at)
  {
    hide Under, ChildOf;
    UnderInside();
    forall z | 0 <= z < |lines| ensures all[off + z] == lines[z] {
      assert all[off..off + |lines|][z] == all[off + z];
    }
    forall x: nat | UnderBy(lines, y, x, off) ensures x < |all| && all[x] == lines[x - off] {
      assert all[off + (x - off)] == lines[x - off];
    }
    forall j: nat | ChildOf(t, j, all[at].index) ensures HasUnder(all, at, j) {
      var x: nat :| Under(lines, y, x) && lines[x].index == j;
      assert UnderBy(lines, y, off + x, off);
      assert Under(all, at, off + x);
    }
    ChildrenAre(t, all, at);
  }

  ghost predicate HasUnder(lines: seq<Line>, y: nat, j: nat) {
    exists x: nat :: Under(lines, y, x) && x < |lines| && lines[x].index == j
  }

  lemma ChildrenLeft(t: Table, a: seq<Line>, b: seq<Line>, d: nat, y: nat)
    requires Trees(t, a, d) && Trees(t, b, d) && y < |a|
    ensures ChildrenUnder(t, a + b, y)
  {
    hide Under, ChildOf, ChildrenUnder;
    forall x: nat ensures Under(a + b, y, x) <==> UnderBy(a, y, x, 0) {
      UnderConcat(a, b, d, y, x);
    }
    ChildrenMoved(t, a, y, a + b, 0, y);
  }

  lemma ChildrenRight(t: Table, a: seq<Line>, b: seq<Line>, d: nat, y: nat)
    requires Trees(t, a, d) && Trees(t, b, d) && y < |b|
    ensures ChildrenUnder(t, a + b, |a| + y)
  {
    hide Under, ChildOf, ChildrenUnder;
    UnderInside();
    forall x: nat ensures Under(a + b, |a| + y, x) <==> UnderBy(b, y, x, |a|) {
      UnderConcat(a, b, d, |a| + y, x);
    }
    ChildrenMoved(t, b, y, a + b, |a|, |a| + y);
  }

  lemma UnderInside()
    ensures forall lines: seq<Line>, y: nat, x: nat :: Under(lines, y, x) ==> y < x < |lines|
  {
  }

  /** An entry's line in front of the trees of its children makes a tree. */
  lemma TreeOf(t: Table, i: nat, d: nat, rest: seq<Line>)
    requires Trees(t, rest, d + 1) && ListsChildren(t, Tops(rest, d + 1), i)
    ensures Trees(t, [Line(i, d)] + rest, d)
  {
    hide Under, ChildrenUnder, ListsChildren, Tops;
    var all := [Line(i, d)] + rest;
    RootChildren(t, i, d, rest);
    forall y: nat | y < |all| ensures ChildrenUnder(t, all, y) {
      if y > 0 {
        DeeperChildren(t, Line(i, d), rest, d, y - 1);
      }
    }
    forall x: nat | x < |all| && all[x].depth > d ensures exists y: nat :: Under(all, y, x) {
      if rest[x - 1].depth > d + 1 {
        var y: nat :| Under(rest, y, x - 1);
        UnderShift(Line(i, d), rest, y, x - 1);
      } else {
        UnderRoot(Line(i, d), rest, x);
      }
    }
  }

  lemma UnderShift(root: Line, rest: seq<Line>, y: nat, x: nat)
    ensures Under([root] + rest, y + 1, x + 1) <==> Under(rest, y, x)
  {
    var all := [root] + rest;
    if Under(rest, y, x) {
      forall z | y + 1 < z < x + 1 ensures all[z].depth > all[y + 1].depth {
        assert all[z] == rest[z - 1];
      }
    }
    if Under(all, y + 1, x + 1) {
      forall z | y < z < x ensures rest[z].depth > rest[y].depth {
        assert all[z + 1] == rest[z];
      }
    }
  }

  lemma UnderRoot(root: Line, rest: seq<Line>, x: nat)
    requires forall z :: 0 <= z < |rest| ==> rest[z].depth > root.depth
    ensures Under([root] + rest, 0, x) <==> 0 < x <= |rest| && rest[x - 1].depth == root.depth + 1
  {
  }

  lemma DeeperChildren(t: Table, root: Line, rest: seq<Line>, d: nat, y: nat)
    requires Trees(t, rest, d + 1) && y < |rest|
    ensures ChildrenUnder(t, [root] + rest, 1 + y)
  {
    hide Under, ChildOf, ChildrenUnder;
    UnderInside();
    forall x: nat ensures Under([root] + rest, 1 + y, x) <==> UnderBy(rest, y, x, 1) {
      if x > 0 {
        UnderShift(root, rest, y, x - 1);
      }
    }
    ChildrenMoved(t, rest, y, [root] + rest, 1, 1 + y);
  }

  lemma RootChildren(t: Table, i: nat, d: nat, rest: seq<Line>)
    requires Trees(t, rest, d + 1) && ListsChildren(t, Tops(rest, d + 1), i)
    ensures ChildrenUnder(t, [Line(i, d)] + rest, 0)
  {
    hide Under, ChildOf, ChildrenUnder, Tops;
    var all, tops := [Line(i, d)] + rest, Tops(rest, d + 1);
    forall x: nat ensures Under(all, 0, x) <==> 0 < x <= |rest| && rest[x - 1].depth == d + 1 {
      UnderRoot(Line(i, d), rest, x);
    }
    forall x: nat | Under(all, 0, x) ensures ChildOf(t, all[x].index, i) {
      TopAt(rest, d + 1, x - 1);
    }
    forall j: nat | ChildOf(t, j, i) ensures HasUnder(all, 0, j) {
      var x := TopIsLine(rest, d + 1, j);
      assert Under(all, 0, x + 1);
    }
    forall x: nat, x': nat | Under(all, 0, x) && Under(all, 0, x') && x < x'
      ensures all[x].index < |t| && all[x'].index < |t| && t[all[x].index].pid <= t[all[x'].index].pid
    {
      TopAt(rest, d + 1, x - 1);
      TopAt(rest, d + 1, x' - 1);
      TopsGrow(rest, d + 1, x, x' - 1);
    }
    ChildrenAre(t, all, 0);
  }

  lemma ChildrenAre(t: Table, lines: seq<Line>, y: nat)
    requires y < |lines|
    requires forall x: nat :: Under(lines, y, x) ==> x < |lines| && ChildOf(t, lines[x].index, lines[y].index)
    requires forall j: nat :: ChildOf(t, j, lines[y].index) ==> HasUnder(lines, y, j)
    requires forall x: nat, x': nat :: Under(lines, y, x) && Under(lines, y, x') && x < x' ==>
               x' < |lines| && lines[x].index < |t| && lines[x'].index < |t|
               && t[lines[x].index].pid <= t[lines[x'].index].pid
    ensures ChildrenUnder(t, lines, y)
  {
    hide Under, ChildOf;
  }

  /** What printing shows of i at depth d: one tree, with i at its root. */
  lemma {:induction false} ListingIsTree(t: Table, r: nat, i: nat, d: nat)
    requires Root(t, r) && i < |t| && Up(t, i, d) == Some(r)
    ensures Trees(t, Listing(t, r, i, d), d) && Tops(Listing(t, r, i, d), d) == [i]
    ensures Listing(t, r, i, d) != [] && Listing(t, r, i, d)[0] == Line(i, d)
    decreases |t| - d, 1, 0
  {
    hide Parent, Up, Kids, Trees, Tops, ListsChildren;
    DepthBound(t, r, i, d);
    var n := |Kids(t, i, |t|)|;
    BelowIsTrees(t, r, i, d, n);
    var rest := Below(t, r, i, d, n);
    assert Kids(t, i, |t|)[..n] == Kids(t, i, |t|);
    KidsAreChildren(t, i);
    TreeOf(t, i, d, rest);
    TopsAppend([Line(i, d)], rest, d);
    AllDeeper(t, rest, d + 1);
    NoTops(rest, d);
    TopOfOne(i, d);
  }

  lemma TopOfOne(i: nat, d: nat)
    ensures Tops([Line(i, d)], d) == [i]
  {
    assert [Line(i, d)][..0] == [];
  }

  lemma {:induction false} NoTops(lines: seq<Line>, d: nat)
    requires forall z :: 0 <= z < |lines| ==> lines[z].depth > d
    ensures Tops(lines, d) == []
  {
    if lines != [] {
      NoTops(lines[..|lines| - 1], d);
    }
  }

  lemma AllDeeper(t: Table, lines: seq<Line>, d: nat)
    requires Trees(t, lines, d)
    ensures forall z :: 0 <= z < |lines| ==> lines[z].depth >= d
  {
  }

  lemma {:induction false} BelowIsTrees(t: Table, r: nat, i: nat, d: nat, n: nat)
    requires Root(t, r) && i < |t| && Up(t, i, d) == Some(r) && n <= |Kids(t, i, |t|)| && d < |t|
    ensures Trees(t, Below(t, r, i, d, n), d + 1)
    ensures Tops(Below(t, r, i, d, n), d + 1) == Kids(t, i, |t|)[..n]
    decreases |t| - d, 0, n
  {
    hide Parent, Up, Kids, Trees, Tops;
    if n == 0 {
      NothingPrinted(t, d + 1);
    } else {
      KidUp(t, r, i, d, n - 1);
      BelowIsTrees(t, r, i, d, n - 1);
      var kid := Kids(t, i, |t|)[n - 1];
      ListingIsTree(t, r, kid, d + 1);
      TreesConcat(t, Below(t, r, i, d, n - 1), Listing(t, r, kid, d + 1), d + 1);
      TopsAppend(Below(t, r, i, d, n - 1), Listing(t, r, kid, d + 1), d + 1);
    }
  }

  lemma NothingPrinted(t: Table, d: nat)
    ensures Trees(t, [], d) && Tops([], d) == []
  {
  }

  /**
   A printout of the tree of init: init first and alone at the margin, no process twice, and every other line under
   that of the process's parent, in order of pid, with no child of a printed process left out.
   */
  ghost predicate ShowsTree(t: Table, r: nat, lines: seq<Line>) {
    && lines != [] && lines[0] == Line(r, 0)
    && (forall x :: 0 < x < |lines| ==> lines[x].depth > 0)
    && NoRepeats(lines) && Trees(t, lines, 0)
  }

  lemma PrintedIsTree(t: Table, r: nat)
    requires FirstWith(t, 1, r)
    ensures Root(t, r) && Up(t, r, 0) == Some(r) && ShowsTree(t, r, Listing(t, r, r, 0))
  {
    hide Listing, Trees, Up, Tops;
    UpZero(t, r);
    ListingIsTree(t, r, r, 0);
    ListingOnce(t, r, r, 0);
    var lines := Listing(t, r, r, 0);
    forall x | 0 < x < |lines| ensures lines[x].depth > 0 {
      if lines[x].depth == 0 {
        TwoTops(lines, x);
      }
    }
  }

  lemma TwoTops(lines: seq<Line>, x: nat)
    requires 0 < x < |lines| && lines[0].depth == 0 && lines[x].depth == 0
    ensures |Tops(lines, 0)| > 1
  {
    hide Tops;
    TopAt(lines, 0, 0);
    TopAt(lines, 0, x);
    TopsGrow(lines, 0, 1, x);
  }

  // ----- cycles -----

  /** Processes each of which names the next as its parent, the last one the first; init is not among them. */
  ghost predicate Cycle(t: Table, ring: seq<nat>) {
    && ring != []
    && forall k :: 0 <= k < |ring| ==>
         ring[k] < |t| && t[ring[k]].pid != 1 && FirstWith(t, t[ring[k]].ppid, Next(ring, k))
  }

  function Next(ring: seq<nat>, k: int): nat
    requires 0 <= k < |ring|
  {
    if k + 1 < |ring| then ring[k + 1] else ring[0]
  }

  ghost predicate HasCycle(t: Table) {
    exists ring :: Cycle(t, ring)
  }

  lemma AcyclicIs(t: Table)
    ensures Acyclic(t) <==> !HasCycle(t)
  {
    hide Up, Parent, Cycle;
    if ring :| Cycle(t, ring) {
      CycleClimbs(t, ring);
    }
    if !Acyclic(t) {
      var i: nat, k: nat :| i < |t| && k > 0 && Up(t, i, k) == Some(i);
      var ring := ClimbCycles(t, i, k);
    }
  }

  lemma CycleClimbs(t: Table, ring: seq<nat>)
    requires Cycle(t, ring)
    ensures ring != [] && ring[0] < |t| && Up(t, ring[0], |ring|) == Some(ring[0])
  {
    hide Up, Parent;
    RingUp(t, ring, |ring| - 1);
    CycleLink(t, ring, |ring| - 1);
    UpStep(t, ring[0], |ring|);
  }

  lemma CycleLink(t: Table, ring: seq<nat>, k: nat)
    requires Cycle(t, ring) && k < |ring|
    ensures ring[k] < |t| && Parent(t, ring[k]) == Some(Next(ring, k))
  {
    hide Parent;
    ParentIs(t, ring[k], Next(ring, k));
  }

  lemma {:induction false} RingUp(t: Table, ring: seq<nat>, k: nat)
    requires Cycle(t, ring) && k < |ring|
    ensures ring[0] < |t| && Up(t, ring[0], k) == Some(ring[k])
  {
    hide Up, Parent;
    UpZero(t, ring[0]);
    if k > 0 {
      RingUp(t, ring, k - 1);
      CycleLink(t, ring, k - 1);
      UpStep(t, ring[0], k);
    }
  }

  lemma ClimbCycles(t: Table, i: nat, n: nat) returns (ring: seq<nat>)
    requires i < |t| && n > 0 && Up(t, i, n) == Some(i)
    ensures Cycle(t, ring)
  {
    hide Up, Parent, FirstWith;
    forall k: nat | k <= n ensures Up(t, i, k).Some? {
      UpBefore(t, i, n, k);
    }
    UpZero(t, i);
    ring := seq(n, k requires 0 <= k < n => Up(t, i, k).value);
    forall k: nat | k < n ensures ring[k] < |t| && Parent(t, ring[k]) == Some(Next(ring, k)) {
      UpInside(t, i, k);
      UpStep(t, i, k + 1);
    }
    forall k: nat | k < n ensures t[ring[k]].pid != 1 && FirstWith(t, t[ring[k]].ppid, Next(ring, k)) {
      var next := if k + 1 < n then k + 1 else 0;
      assert ring[next] == Next(ring, k);
      LinkByPid(t, ring[k], ring[next]);
    }
  }

  lemma {:induction false} UpBefore(t: Table, i: nat, n: nat, k: nat)
    requires i < |t| && k <= n && Up(t, i, n).Some?
    ensures Up(t, i, k).Some?
  {
    hide Up;
    if k < n {
      UpStep(t, i, n);
      UpBefore(t, i, n - 1, k);
    }
  }

  /** A parent that has a parent itself is not init, so it is found by its pid. */
  lemma LinkByPid(t: Table, j: nat, i: nat)
    requires j < |t| && i < |t| && Parent(t, j) == Some(i) && Parent(t, i).Some?
    ensures t[j].pid != 1 && FirstWith(t, t[j].ppid, i)
  {
    hide FindPid;
    ParentIs(t, j, i);
  }

  ghost predicate ShowsAll(t: Table, lines: seq<Line>) {
    forall i: nat :: i < |t| ==> Shown(lines, i)
  }

  ghost predicate Shown(lines: seq<Line>, i: nat) {
    exists x :: 0 <= x < |lines| && lines[x].index == i
  }

  /** With one init, everything is shown exactly when no processes are each other's ancestors. */
  lemma AllShownExactly(t: Table, r: nat)
    requires FirstWith(t, 1, r) && forall i :: r < i < |t| ==> t[i].pid != 1
    ensures Root(t, r) && Up(t, r, 0) == Some(r)
    ensures ShowsAll(t, Listing(t, r, r, 0)) <==> !HasCycle(t)
  {
    hide Listing, Up, Acyclic, HasCycle, FindPid;
    FoundFirst(t, 1, r);
    AllPrinted(t);
    AcyclicIs(t);
    forall i: nat | i < |t| ensures Shown(Listing(t, r, r, 0), i) <==> Printed(t, r, i) {
      ShownIs(t, r, i);
    }
  }

  lemma ShownIs(t: Table, r: nat, i: nat)
    requires Root(t, r) && Up(t, r, 0) == Some(r)
    ensures Shown(Listing(t, r, r, 0), i) <==> Printed(t, r, i)
  {
    hide Listing, Up;
    var lines := Listing(t, r, r, 0);
    if x :| 0 <= x < |lines| && lines[x].index == i {
      assert lines[x] == Line(i, lines[x].depth);
    }
  }
}
