/** The processes as a forest: who is whose child, in what order, and what printing from init shows. */
module PstreeForest {
  datatype Option<T> = None | Some(value: T)

  /** One entry of the process table. */
  datatype Proc = Proc(name: string, pid: int, ppid: int)

  type Table = seq<Proc>

  const INIT_PID: int := 1

  /** The first entry with this pid, or the number of entries. */
  function FindPid(t: Table, pid: int): (i: nat)
    ensures i <= |t| && (i < |t| ==> t[i].pid == pid)
    ensures forall k :: 0 <= k < i ==> t[k].pid != pid
  {
    if t == [] then 0
    else
      var i := FindPid(t[..|t| - 1], pid);
      if i < |t| - 1 || t[|t| - 1].pid == pid then i else |t|
  }

  /** The entry whose list i is put on: its parent's, or init's for an orphan; init itself is on none. */
  function Parent(t: Table, i: nat): (p: Option<nat>)
    requires i < |t|
    ensures p.Some? ==> p.value < |t|
  {
    var parent, init := FindPid(t, t[i].ppid), FindPid(t, INIT_PID);
    if t[i].pid == INIT_PID then None
    else if parent < |t| then Some(parent)
    else if init < |t| then Some(init) else None
  }

  // ----- sorted insertion -----

  /**
   Where entry c goes in a list: at the front if its pid is below the first, otherwise before the first later pid
   that is not below it.
   */
  function Place(t: Table, list: seq<nat>, c: nat): (k: nat)
    requires c < |t| && forall x :: 0 <= x < |list| ==> list[x] < |t|
    ensures k <= |list|
  {
    if list == [] || t[c].pid < t[list[0]].pid then 0 else PlaceFrom(t, list, c, 1)
  }

  function PlaceFrom(t: Table, list: seq<nat>, c: nat, k: nat): (r: nat)
    requires c < |t| && 0 < k <= |list| && forall x :: 0 <= x < |list| ==> list[x] < |t|
    ensures k <= r <= |list|
    ensures forall x :: k <= x < r ==> t[list[x]].pid < t[c].pid
    ensures r < |list| ==> t[c].pid <= t[list[r]].pid
    decreases |list| - k
  {
    if k < |list| && t[c].pid > t[list[k]].pid then PlaceFrom(t, list, c, k + 1) else k
  }

  function Insert(t: Table, list: seq<nat>, c: nat): (r: seq<nat>)
    requires c < |t| && forall x :: 0 <= x < |list| ==> list[x] < |t|
    ensures |r| == |list| + 1 && forall x :: 0 <= x < |r| ==> r[x] < |t|
  {
    var k := Place(t, list, c);
    list[..k] + [c] + list[k..]
  }

  ghost predicate Ascending(t: Table, list: seq<nat>) {
    && (forall x :: 0 <= x < |list| ==> list[x] < |t|)
    && forall x, y :: 0 <= x < y < |list| ==> t[list[x]].pid <= t[list[y]].pid
  }

  /** Everything before the place is not above the new pid, everything from it on is not below. */
  lemma PlaceSplits(t: Table, list: seq<nat>, c: nat)
    requires c < |t| && Ascending(t, list)
    ensures forall x :: 0 <= x < Place(t, list, c) ==> t[list[x]].pid <= t[c].pid
    ensures forall x :: Place(t, list, c) <= x < |list| ==> t[c].pid <= t[list[x]].pid
  {
    var k := Place(t, list, c);
    assert k < |list| ==> t[c].pid <= t[list[k]].pid;
    assert k > 0 ==> t[list[0]].pid <= t[c].pid;
  }

  lemma InsertAscending(t: Table, list: seq<nat>, c: nat)
    requires c < |t| && Ascending(t, list)
    ensures Ascending(t, Insert(t, list, c))
  {
    PlaceSplits(t, list, c);
    hide Place;
    var k, r := Place(t, list, c), Insert(t, list, c);
    forall x, y | 0 <= x < y < |r| ensures t[r[x]].pid <= t[r[y]].pid {
      assert r[x] == if x < k then list[x] else if x == k then c else list[x - 1];
      assert r[y] == if y < k then list[y] else if y == k then c else list[y - 1];
    }
  }

  lemma InsertContents(t: Table, list: seq<nat>, c: nat)
    requires c < |t| && forall x :: 0 <= x < |list| ==> list[x] < |t|
    ensures multiset(Insert(t, list, c)) == multiset(list) + multiset{c}
  {
    hide Place;
    var k := Place(t, list, c);
    assert list == list[..k] + list[k..];
  }

  // ----- the lists -----

  /** The child list of p after the first n entries have been put on lists. */
  function Kids(t: Table, p: nat, n: nat): (list: seq<nat>)
    requires n <= |t|
    ensures forall x :: 0 <= x < |list| ==> list[x] < |t|
  {
    if n == 0 then []
    else if Parent(t, n - 1) == Some(p) then Insert(t, Kids(t, p, n - 1), n - 1)
    else Kids(t, p, n - 1)
  }

  /** A list holds exactly the entries whose parent it belongs to, each once, in ascending order of pid. */
  lemma {:induction false} KidsExact(t: Table, p: nat, n: nat)
    requires n <= |t|
    ensures Ascending(t, Kids(t, p, n))
    ensures forall i: nat :: multiset(Kids(t, p, n))[i] == if i < n && Parent(t, i) == Some(p) then 1 else 0
  {
    hide Parent, Insert, Ascending;
    if n == 0 {
      NoKids(t, p);
    } else {
      KidsExact(t, p, n - 1);
      if Parent(t, n - 1) == Some(p) {
        InsertAscending(t, Kids(t, p, n - 1), n - 1);
        InsertContents(t, Kids(t, p, n - 1), n - 1);
      }
    }
  }

  lemma NoKids(t: Table, p: nat)
    ensures Kids(t, p, 0) == [] && Ascending(t, [])
  {
  }

  lemma KidIs(t: Table, p: nat, i: nat)
    ensures i in Kids(t, p, |t|) <==> i < |t| && Parent(t, i) == Some(p)
  {
    KidsExact(t, p, |t|);
    assert i in Kids(t, p, |t|) <==> i in multiset(Kids(t, p, |t|));
  }

  lemma KidsDistinct(t: Table, p: nat, x: nat, y: nat)
    requires x < y < |Kids(t, p, |t|)|
    ensures Kids(t, p, |t|)[x] != Kids(t, p, |t|)[y]
  {
    var kids := Kids(t, p, |t|);
    KidsExact(t, p, |t|);
    if kids[x] == kids[y] {
      TwiceCounts(kids, x, y);
    }
  }

  lemma TwiceCounts(s: seq<nat>, x: nat, y: nat)
    requires x < y < |s| && s[x] == s[y]
    ensures multiset(s)[s[x]] >= 2
  {
    assert s == s[..y] + [s[y]] + s[y + 1..];
    assert s[..y] == s[..x] + [s[x]] + s[x + 1..y];
  }

  /** With distinct pids siblings are in strictly increasing order. */
  lemma SiblingsIncrease(t: Table, p: nat, x: nat, y: nat)
    requires forall i, j :: 0 <= i < j < |t| ==> t[i].pid != t[j].pid
    requires x < y < |Kids(t, p, |t|)|
    ensures t[Kids(t, p, |t|)[x]].pid < t[Kids(t, p, |t|)[y]].pid
  {
    KidsExact(t, p, |t|);
    KidsDistinct(t, p, x, y);
  }

  // ----- chains of parents -----

  /** The k-th ancestor. */
  function Up(t: Table, i: nat, k: nat): (a: Option<nat>)
    requires i < |t|
    ensures a.Some? ==> a.value < |t|
    decreases k
  {
    if k == 0 then Some(i)
    else
      var a := Up(t, i, k - 1);
      if a.Some? then Parent(t, a.value) else None
  }

  lemma {:induction false} UpFirst(t: Table, i: nat, k: nat)
    requires i < |t| && k > 0
    ensures Up(t, i, k) == if Parent(t, i).Some? then Up(t, Parent(t, i).value, k - 1) else None
    decreases k
  {
    hide Parent;
    if k > 1 {
      UpFirst(t, i, k - 1);
    }
  }

  /** The entry that printing starts from has no parent. */
  ghost predicate Root(t: Table, r: nat) {
    r < |t| && t[r].pid == INIT_PID
  }

  /** Two chains that end at the root are equally long. */
  lemma {:induction false} DepthUnique(t: Table, r: nat, i: nat, d: nat, e: nat)
    requires Root(t, r) && i < |t| && Up(t, i, d) == Some(r) && Up(t, i, e) == Some(r)
    ensures d == e
    decreases d + e
  {
    hide Up;
    UpZero(t, i);
    if d > 0 && e > 0 {
      UpFirst(t, i, d);
      UpFirst(t, i, e);
      DepthUnique(t, r, Parent(t, i).value, d - 1, e - 1);
    } else if d > 0 {
      UpFirst(t, i, d);
    } else if e > 0 {
      UpFirst(t, i, e);
    }
  }

  lemma UpZero(t: Table, i: nat)
    requires i < |t|
    ensures Up(t, i, 0) == Some(i)
  {
  }

  /** The root is reached in at most d steps. */
  ghost predicate Reaches(t: Table, r: nat, i: nat, d: nat) {
    i < |t| && exists e: nat :: e <= d && Up(t, i, e) == Some(r)
  }

  /** The entries on a chain to the root are all different. */
  lemma {:induction false} ChainSet(t: Table, r: nat, i: nat, d: nat) returns (chain: set<nat>)
    requires Root(t, r) && i < |t| && Up(t, i, d) == Some(r)
    ensures |chain| == d + 1
    ensures forall x :: x in chain ==> Reaches(t, r, x, d)
    decreases d
  {
    hide Parent, Up;
    assert Reaches(t, r, i, d);
    if d == 0 {
      chain := {i};
    } else {
      UpFirst(t, i, d);
      var rest := ChainSet(t, r, Parent(t, i).value, d - 1);
      if Reaches(t, r, i, d - 1) {
        var e: nat :| e <= d - 1 && Up(t, i, e) == Some(r);
        DepthUnique(t, r, i, d, e);
      }
      chain := rest + {i};
      forall x | x in rest ensures Reaches(t, r, x, d) {
        var e: nat :| e <= d - 1 && Up(t, x, e) == Some(r);
      }
    }
  }

  lemma {:induction false} SetBound(s: set<nat>, n: nat)
    requires forall x :: x in s ==> x < n
    ensures |s| <= n
  {
    if n > 0 {
      SetBound(s - {n - 1}, n - 1);
      if n - 1 in s {
        assert s == (s - {n - 1}) + {n - 1};
      } else {
        assert s - {n - 1} == s;
      }
    }
  }

  /** So a chain is shorter than the table, whatever the parent links are. */
  lemma DepthBound(t: Table, r: nat, i: nat, d: nat)
    requires Root(t, r) && i < |t| && Up(t, i, d) == Some(r)
    ensures d < |t|
  {
    var chain := ChainSet(t, r, i, d);
    SetBound(chain, |t|);
  }

  // ----- what is printed -----

  /** A printed line: an entry and its indentation. */
  datatype Line = Line(index: nat, depth: nat)

  /** The lines for entry i at depth d: the entry, then its children's lines in the order of its list. */
  function Listing(t: Table, r: nat, i: nat, d: nat): (lines: seq<Line>)
    requires Root(t, r) && i < |t| && Up(t, i, d) == Some(r)
    decreases |t| - d, 1, 0
  {
    DepthBound(t, r, i, d);
    [Line(i, d)] + Below(t, r, i, d, |Kids(t, i, |t|)|)
  }

  /** The lines of the first n children of i. */
  function Below(t: Table, r: nat, i: nat, d: nat, n: nat): (lines: seq<Line>)
    requires Root(t, r) && i < |t| && Up(t, i, d) == Some(r) && n <= |Kids(t, i, |t|)| && d < |t|
    decreases |t| - d, 0, n
  {
    if n == 0 then []
    else
      var kid := Kids(t, i, |t|)[n - 1];
      KidUp(t, r, i, d, n - 1);
      Below(t, r, i, d, n - 1) + Listing(t, r, kid, d + 1)
  }

  lemma KidUp(t: Table, r: nat, i: nat, d: nat, x: nat)
    requires Root(t, r) && i < |t| && Up(t, i, d) == Some(r) && x < |Kids(t, i, |t|)|
    ensures var kid := Kids(t, i, |t|)[x];
            kid < |t| && Parent(t, kid) == Some(i) && Up(t, kid, d + 1) == Some(r) && d + 1 < |t|
  {
    hide Parent, Up;
    var kid := Kids(t, i, |t|)[x];
    KidIs(t, i, kid);
    UpFirst(t, kid, d + 1);
    DepthBound(t, r, kid, d + 1);
  }

  /** A line is in the listing of i exactly when its entry descends from i by as many steps as it is deeper. */
  lemma {:induction false} ListingExact(t: Table, r: nat, i: nat, d: nat, j: nat, e: nat)
    requires Root(t, r) && i < |t| && Up(t, i, d) == Some(r)
    ensures Line(j, e) in Listing(t, r, i, d) <==> j < |t| && d <= e && Up(t, j, e - d) == Some(i)
    decreases |t| - d, 1, 0
  {
    hide Parent, Up, Kids;
    DepthBound(t, r, i, d);
    BelowExact(t, r, i, d, |Kids(t, i, |t|)|, j, e);
    if j < |t| {
      UpZero(t, j);
      if e > d {
        DescendsByKid(t, r, i, d, j, e - d);
      }
    }
  }

  /** To descend from i by k > 0 steps is to descend from one of its children by k - 1. */
  lemma DescendsByKid(t: Table, r: nat, i: nat, d: nat, j: nat, k: nat)
    requires Root(t, r) && i < |t| && Up(t, i, d) == Some(r) && j < |t| && k > 0
    ensures Up(t, j, k) == Some(i) <==>
              exists x :: 0 <= x < |Kids(t, i, |t|)| && Up(t, j, k - 1) == Some(Kids(t, i, |t|)[x])
  {
    hide Parent, Up, Kids;
    UpStep(t, j, k);
    if Up(t, j, k) == Some(i) {
      KidIs(t, i, Up(t, j, k - 1).value);
    }
    if x :| 0 <= x < |Kids(t, i, |t|)| && Up(t, j, k - 1) == Some(Kids(t, i, |t|)[x]) {
      KidUp(t, r, i, d, x);
    }
  }

  lemma UpStep(t: Table, j: nat, k: nat)
    requires j < |t| && k > 0
    ensures Up(t, j, k) == if Up(t, j, k - 1).Some? then Parent(t, Up(t, j, k - 1).value) else None
  {
  }

  /** The same for the first n children of i. */
  lemma {:induction false} BelowExact(t: Table, r: nat, i: nat, d: nat, n: nat, j: nat, e: nat)
    requires Root(t, r) && i < |t| && Up(t, i, d) == Some(r) && n <= |Kids(t, i, |t|)| && d < |t|
    ensures Line(j, e) in Below(t, r, i, d, n) <==>
              j < |t| && d < e && exists x :: 0 <= x < n && Up(t, j, e - d - 1) == Some(Kids(t, i, |t|)[x])
    decreases |t| - d, 0, n
  {
    hide Parent, Up, Kids;
    if n > 0 {
      KidUp(t, r, i, d, n - 1);
      BelowExact(t, r, i, d, n - 1, j, e);
      ListingExact(t, r, Kids(t, i, |t|)[n - 1], d + 1, j, e);
    }
  }

  ghost predicate NoRepeats(lines: seq<Line>) {
    forall x, y :: 0 <= x < y < |lines| ==> lines[x].index != lines[y].index
  }

  /** No entry is printed twice. */
  lemma {:induction false} ListingOnce(t: Table, r: nat, i: nat, d: nat)
    requires Root(t, r) && i < |t| && Up(t, i, d) == Some(r)
    ensures NoRepeats(Listing(t, r, i, d))
    decreases |t| - d, 1, 0
  {
    hide Parent, Up, Kids;
    DepthBound(t, r, i, d);
    var n := |Kids(t, i, |t|)|;
    BelowOnce(t, r, i, d, n);
    var below := Below(t, r, i, d, n);
    forall x | 0 <= x < |below| ensures below[x].index != i {
      LineDepth(t, r, i, d, n, below[x]);
      if below[x].index == i {
        DepthUnique(t, r, i, d, below[x].depth);
      }
    }
  }

  /** Every line below i is deeper, and its depth is the length of its chain to the root. */
  lemma LineDepth(t: Table, r: nat, i: nat, d: nat, n: nat, line: Line)
    requires Root(t, r) && i < |t| && Up(t, i, d) == Some(r) && n <= |Kids(t, i, |t|)| && d < |t|
    requires line in Below(t, r, i, d, n)
    ensures line.index < |t| && line.depth > d && Up(t, line.index, line.depth) == Some(r)
  {
    hide Parent, Up, Kids, Below;
    BelowExact(t, r, i, d, n, line.index, line.depth);
    var x :| 0 <= x < n && Up(t, line.index, line.depth - d - 1) == Some(Kids(t, i, |t|)[x]);
    KidUp(t, r, i, d, x);
    UpSum(t, line.index, line.depth - d - 1, d + 1);
  }

  lemma {:induction false} UpSum(t: Table, j: nat, a: nat, b: nat)
    requires j < |t| && Up(t, j, a).Some?
    ensures Up(t, j, a + b) == Up(t, Up(t, j, a).value, b)
    decreases b
  {
    hide Parent;
    if b > 0 {
      UpSum(t, j, a, b - 1);
    }
  }

  lemma {:induction false} BelowOnce(t: Table, r: nat, i: nat, d: nat, n: nat)
    requires Root(t, r) && i < |t| && Up(t, i, d) == Some(r) && n <= |Kids(t, i, |t|)| && d < |t|
    ensures NoRepeats(Below(t, r, i, d, n))
    decreases |t| - d, 0, n
  {
    hide Parent, Up, Kids;
    if n > 0 {
      KidUp(t, r, i, d, n - 1);
      BelowOnce(t, r, i, d, n - 1);
      var kid := Kids(t, i, |t|)[n - 1];
      ListingOnce(t, r, kid, d + 1);
      var first, second := Below(t, r, i, d, n - 1), Listing(t, r, kid, d + 1);
      forall x, y | 0 <= x < |first| && 0 <= y < |second| ensures first[x].index != second[y].index {
        SubtreesApart(t, r, i, d, n - 1, first[x], second[y]);
      }
    }
  }

  lemma SubtreesApart(t: Table, r: nat, i: nat, d: nat, n: nat, a: Line, b: Line)
    requires Root(t, r) && i < |t| && Up(t, i, d) == Some(r) && n < |Kids(t, i, |t|)| && d < |t|
    requires Kids(t, i, |t|)[n] < |t| && Up(t, Kids(t, i, |t|)[n], d + 1) == Some(r)
    requires a in Below(t, r, i, d, n) && b in Listing(t, r, Kids(t, i, |t|)[n], d + 1)
    ensures a.index != b.index
  {
    hide Parent, Up, Kids, Below, Listing;
    var kid := Kids(t, i, |t|)[n];
    BelowExact(t, r, i, d, n, a.index, a.depth);
    ListingExact(t, r, kid, d + 1, b.index, b.depth);
    LineDepth(t, r, i, d, n, a);
    UpSum(t, b.index, b.depth - d - 1, d + 1);
    if a.index == b.index {
      DepthUnique(t, r, a.index, a.depth, b.depth);
      var x :| 0 <= x < n && Up(t, a.index, a.depth - d - 1) == Some(Kids(t, i, |t|)[x]);
      KidsDistinct(t, i, x, n);
    }
  }

  /**
   Printing from init: the processes whose chain of parents reaches init, each once, indented by the length of the
   chain. It is every process exactly when every chain reaches init.
   */
  lemma PrintedExactly(t: Table)
    requires FindPid(t, INIT_PID) < |t|
    ensures var r := FindPid(t, INIT_PID);
            && Root(t, r) && Up(t, r, 0) == Some(r)
            && NoRepeats(Listing(t, r, r, 0))
            && (forall j: nat, e: nat :: Line(j, e) in Listing(t, r, r, 0) <==> j < |t| && Up(t, j, e) == Some(r))
  {
    hide Parent, Kids, Listing;
    var r := FindPid(t, INIT_PID);
    ListingOnce(t, r, r, 0);
    forall j: nat, e: nat ensures Line(j, e) in Listing(t, r, r, 0) <==> j < |t| && Up(t, j, e) == Some(r) {
      ListingExact(t, r, r, 0, j, e);
    }
  }

  // ----- when everything is printed -----

  /** No entry is its own ancestor. */
  ghost predicate Acyclic(t: Table) {
    forall i: nat, k: nat :: i < |t| && k > 0 ==> Up(t, i, k) != Some(i)
  }

  ghost predicate OnChain(t: Table, i: nat, x: nat, n: nat)
    requires i < |t|
  {
    exists k: nat :: k <= n && Up(t, i, k) == Some(x)
  }

  lemma {:induction false} ChainUp(t: Table, i: nat, n: nat) returns (chain: set<nat>)
    requires Acyclic(t) && i < |t| && Up(t, i, n).Some?
    ensures |chain| == n + 1 && forall x :: x in chain ==> x < |t| && OnChain(t, i, x, n)
    decreases n
  {
    hide Parent, Up;
    UpZero(t, i);
    if n == 0 {
      chain := {i};
    } else {
      UpStep(t, i, n);
      var rest := ChainUp(t, i, n - 1);
      var top := Up(t, i, n).value;
      UpInside(t, i, n);
      if OnChain(t, i, top, n - 1) {
        var k: nat :| k <= n - 1 && Up(t, i, k) == Some(top);
        UpSum(t, i, k, n - k);
      }
      chain := rest + {top};
      forall x | x in rest ensures OnChain(t, i, x, n) {
        var k: nat :| k <= n - 1 && Up(t, i, k) == Some(x);
      }
    }
  }

  lemma UpInside(t: Table, i: nat, k: nat)
    requires i < |t| && Up(t, i, k).Some?
    ensures Up(t, i, k).value < |t|
  {
  }

  /** Without cycles a chain ends, at an entry without a parent. */
  lemma {:induction false} ChainEnds(t: Table, i: nat, n: nat) returns (k: nat)
    requires i < |t| && Up(t, i, n) == None
    ensures k < n && Up(t, i, k).Some? && Parent(t, Up(t, i, k).value) == None
    decreases n
  {
    hide Parent, Up;
    UpZero(t, i);
    if Up(t, i, n - 1) == None {
      k := ChainEnds(t, i, n - 1);
    } else {
      k := n - 1;
      UpStep(t, i, n);
    }
  }

  ghost predicate ReachesInit(t: Table, i: nat)
    requires i < |t|
  {
    exists e: nat :: Up(t, i, e) == Some(FindPid(t, INIT_PID))
  }

  ghost predicate OneInit(t: Table) {
    && FindPid(t, INIT_PID) < |t|
    && forall i :: 0 <= i < |t| && t[i].pid == INIT_PID ==> i == FindPid(t, INIT_PID)
  }

  lemma AcyclicReaches(t: Table, i: nat)
    requires OneInit(t) && Acyclic(t) && i < |t|
    ensures ReachesInit(t, i)
  {
    hide Up, FindPid, Acyclic;
    if Up(t, i, |t|).Some? {
      var chain := ChainUp(t, i, |t|);
      SetBound(chain, |t|);
    }
    var k := ChainEnds(t, i, |t|);
    UpInside(t, i, k);
    assert Up(t, i, k) == Some(FindPid(t, INIT_PID));
  }

  lemma CycleMisses(t: Table, i: nat, k: nat)
    requires OneInit(t) && i < |t| && k > 0 && Up(t, i, k) == Some(i)
    ensures !ReachesInit(t, i)
  {
    hide Up, FindPid;
    RootFound(t);
    if e: nat :| Up(t, i, e) == Some(FindPid(t, INIT_PID)) {
      UpSum(t, i, k, e);
      DepthUnique(t, FindPid(t, INIT_PID), i, e, k + e);
    }
  }

  /** Entry i has a line in what is printed from the root. */
  ghost predicate Printed(t: Table, r: nat, i: nat)
    requires Root(t, r) && Up(t, r, 0) == Some(r)
  {
    exists d: nat :: Line(i, d) in Listing(t, r, r, 0)
  }

  /** With one init, every process is printed exactly when there is no cycle of parents. */
  lemma AllPrinted(t: Table)
    requires OneInit(t)
    ensures var r := FindPid(t, INIT_PID);
            && Root(t, r) && Up(t, r, 0) == Some(r)
            && (Acyclic(t) <==> forall i: nat :: i < |t| ==> Printed(t, r, i))
  {
    hide Up, FindPid, Listing, Root, Acyclic, ReachesInit;
    InitFound(t);
    PrintedExactly(t);
    var r := FindPid(t, INIT_PID);
    forall i: nat | i < |t| ensures Printed(t, r, i) <==> ReachesInit(t, i) {
      PrintedReaches(t, r, i);
    }
    if Acyclic(t) {
      forall i: nat | i < |t| ensures ReachesInit(t, i) {
        AcyclicReaches(t, i);
      }
    } else {
      CycleOf(t);
    }
  }

  lemma RootFound(t: Table)
    requires FindPid(t, INIT_PID) < |t|
    ensures Root(t, FindPid(t, INIT_PID))
  {
  }

  lemma InitFound(t: Table)
    requires OneInit(t)
    ensures FindPid(t, INIT_PID) < |t|
  {
  }

  lemma CycleOf(t: Table)
    requires OneInit(t) && !Acyclic(t)
    ensures exists i: nat :: i < |t| && !ReachesInit(t, i)
  {
    hide Up, ReachesInit;
    var i: nat, k: nat :| i < |t| && k > 0 && Up(t, i, k) == Some(i);
    CycleMisses(t, i, k);
  }

  lemma PrintedReaches(t: Table, r: nat, i: nat)
    requires Root(t, r) && Up(t, r, 0) == Some(r) && i < |t| && r == FindPid(t, INIT_PID)
    requires forall j: nat, e: nat :: Line(j, e) in Listing(t, r, r, 0) <==> j < |t| && Up(t, j, e) == Some(r)
    ensures Printed(t, r, i) <==> ReachesInit(t, i)
  {
    hide Up, FindPid, Listing;
    if e: nat :| Up(t, i, e) == Some(r) {
      assert Line(i, e) in Listing(t, r, r, 0);
    }
  }
}
