/** The process tree as it is in memory: an array of processes, each with a linked list of its children. */
module Pstree {
  import opened PstreeForest
  import opened PstreePids

  class Child {
    const index: nat
    var next: Child?

    constructor (index: nat)
      ensures this.index == index && next == null
    {
      this.index := index;
      next := null;
    }
  }

  /** The nodes of a list in order, beginning at `head`. */
  ghost predicate Linked(head: Child?, nodes: seq<Child>)
    reads nodes
  {
    && head == (if nodes == [] then null else nodes[0])
    && forall k {:trigger nodes[k].next} :: 0 <= k < |nodes| ==> nodes[k].next == After(nodes, k)
  }

  ghost function After(nodes: seq<Child>, k: int): Child?
    requires 0 <= k < |nodes|
  {
    if k + 1 < |nodes| then nodes[k + 1] else null
  }

  ghost function Indexes(nodes: seq<Child>): (list: seq<nat>)
    ensures |list| == |nodes|
  {
    seq(|nodes|, k requires 0 <= k < |nodes| => nodes[k].index)
  }

  ghost predicate Distinct(nodes: seq<Child>) {
    forall x, y :: 0 <= x < y < |nodes| ==> nodes[x] != nodes[y]
  }

  /** No node is on two lists. */
  ghost predicate Separate(lists: seq<seq<Child>>) {
    forall p, q, c {:trigger c in lists[p], c in lists[q]} ::
      0 <= p < |lists| && 0 <= q < |lists| && c in lists[p] && c in lists[q] ==> p == q
  }

  /** A list with one node put in before position k. */
  ghost function Spliced(nodes: seq<Child>, k: nat, node: Child): seq<Child>
    requires k <= |nodes|
  {
    nodes[..k] + [node] + nodes[k..]
  }

  /** The links that make the splice. */
  lemma SpliceLinked(head: Child?, nodes: seq<Child>, k: nat, node: Child)
    requires k <= |nodes|
    requires head == if k == 0 then node else nodes[0]
    requires node.next == if k < |nodes| then nodes[k] else null
    requires k > 0 ==> nodes[k - 1].next == node
    requires forall x :: 0 <= x < |nodes| && x != k - 1 ==> nodes[x].next == After(nodes, x)
    ensures Linked(head, Spliced(nodes, k, node))
  {
    var all := Spliced(nodes, k, node);
    forall x | 0 <= x < |all| ensures all[x].next == After(all, x) {
      if x < k {
        assert all[x] == nodes[x];
      } else if x > k {
        assert all[x] == nodes[x - 1];
      }
    }
  }

  lemma SpliceContents(t: Table, nodes: seq<Child>, k: nat, node: Child)
    requires k <= |nodes| && node.index < |t| && forall x :: 0 <= x < |nodes| ==> nodes[x].index < |t|
    requires k == Place(t, Indexes(nodes), node.index)
    ensures Indexes(Spliced(nodes, k, node)) == Insert(t, Indexes(nodes), node.index)
  {
    hide Place;
  }

  lemma SpliceDistinct(nodes: seq<Child>, k: nat, node: Child)
    requires k <= |nodes| && Distinct(nodes) && node !in nodes
    ensures Distinct(Spliced(nodes, k, node))
    ensures forall c :: c in Spliced(nodes, k, node) <==> c in nodes || c == node
  {
    var all := Spliced(nodes, k, node);
    forall x, y | 0 <= x < y < |all| ensures all[x] != all[y] {
      assert all[x] == if x < k then nodes[x] else if x == k then node else nodes[x - 1];
      assert all[y] == if y < k then nodes[y] else if y == k then node else nodes[y - 1];
    }
    assert all[k] == node;
    forall c | c in nodes ensures c in all {
      var x :| 0 <= x < |nodes| && nodes[x] == c;
      assert all[if x < k then x else x + 1] == c;
    }
  }

  class Tree {
    const table: Table
    const heads: array<Child?>
    ghost var lists: seq<seq<Child>>
    ghost var repr: set<Child>
    var printed: seq<Line>

    ghost predicate Valid()
      reads this, heads, repr
    {
      && heads.Length == |table| == |lists|
      && (forall p, c :: 0 <= p < |lists| && c in lists[p] ==> c in repr)
      && Separate(lists)
      && forall p :: 0 <= p < |lists| ==> ListOk(heads[p], lists[p])
    }

    ghost predicate ListOk(head: Child?, nodes: seq<Child>)
      reads nodes
    {
      Linked(head, nodes) && Distinct(nodes) && forall k :: 0 <= k < |nodes| ==> nodes[k].index < |table|
    }

    /** The children of p, in list order. */
    ghost function Kin(p: nat): (list: seq<nat>)
      requires p < |lists|
      reads this
    {
      Indexes(lists[p])
    }

    constructor (t: Table)
      ensures Valid() && table == t && printed == [] && fresh(heads) && repr == {}
      ensures Holds(0)
    {
      table := t;
      heads := new Child?[|t|](_ => null);
      lists := seq(|t|, _ => []);
      repr := {};
      printed := [];
    }

    /** p_index, with the number of processes in place of -1. */
    method PIndex(pid: int) returns (i: nat)
      ensures i == FindPid(table, pid)
    {
      i := 0;
      while i < |table|
        invariant i <= |table| && forall k :: 0 <= k < i ==> table[k].pid != pid
      {
        if table[i].pid == pid {
          FirstFound(table, pid, i);
          return;
        }
        i := i + 1;
      }
      FirstFound(table, pid, i);
    }

    /** The links of all nodes. */
    ghost function Links(): (links: map<Child, Child?>)
      reads this, repr
    {
      map n | n in repr :: n.next
    }

    /** Node `node` hangs on the list of p before position k, and all other links and heads are as they were. */
    ghost predicate LinkedIn(p: nat, node: Child, k: nat, heads0: seq<Child?>, links: map<Child, Child?>)
      reads this, heads, repr, node
    {
      && p < |lists| == heads.Length == |heads0| && repr == links.Keys
      && var nodes := lists[p];
         && k <= |nodes| && (forall n :: n in nodes ==> n in repr)
         && heads[..] == (if k == 0 then heads0[p := node] else heads0)
         && node.next == (if k < |nodes| then nodes[k] else null)
         && (k > 0 ==> nodes[k - 1].next == node)
         && forall n :: n in repr && (k > 0 ==> n != nodes[k - 1]) ==> n.next == links[n]
    }

    /** A list as it was, in the heads and links of that time. */
    ghost predicate WasLinked(head: Child?, nodes: seq<Child>, links: map<Child, Child?>)
    {
      && head == (if nodes == [] then null else nodes[0]) && Distinct(nodes)
      && forall k {:trigger nodes[k]} :: 0 <= k < |nodes| ==>
           nodes[k] in links && links[nodes[k]] == After(nodes, k) && nodes[k].index < |table|
    }

    /** The three ways in which build_list stores links. */
    method Link(p: nat, node: Child) returns (ghost k: nat)
      requires Valid() && p < |table| && node.index < |table| && node !in repr && node.next == null
      modifies heads, repr, node
      ensures k == Place(table, Indexes(lists[p]), node.index)
      ensures LinkedIn(p, node, k, old(heads[..]), old(Links()))
    {
      ghost var nodes := lists[p];
      assert ListOk(heads[p], nodes);
      assert forall x :: 0 <= x < |nodes| ==> nodes[x] in nodes;
      var head := heads[p];
      k := 0;
      if head == null {
        heads[p] := node;
      } else if table[node.index].pid < table[head.index].pid {
        node.next := head;
        heads[p] := node;
      } else {
        k := FindPlace(p, node, head);
      }
    }

    lemma WereLinked(q: nat)
      requires Valid() && q < |lists|
      ensures WasLinked(heads[q], lists[q], Links())
    {
      assert ListOk(heads[q], lists[q]);
      forall k | 0 <= k < |lists[q]| ensures lists[q][k] in repr {
        assert lists[q][k] in lists[q];
      }
    }

    /** All lists are in order, with the node on the list of p. */
    method LinkInOrder(p: nat, node: Child) returns (ghost k: nat)
      requires Valid() && p < |table| && node.index < |table| && node !in repr && node.next == null
      modifies heads, repr, node
      ensures k <= |lists[p]| && k == Place(table, Indexes(lists[p]), node.index)
      ensures ListOk(heads[p], Spliced(lists[p], k, node))
      ensures forall q :: 0 <= q < |lists| && q != p ==> ListOk(heads[q], lists[q])
      ensures forall c :: c in Spliced(lists[p], k, node) <==> c in lists[p] || c == node
    {
      hide Place, PlaceFrom, Links, WasLinked, ListOk, LinkedIn, Linked, Distinct, Spliced;
      ghost var heads0, links := heads[..], Links();
      forall q: nat | q < |lists| ensures WasLinked(heads0[q], lists[q], links) {
        WereLinked(q);
      }
      k := Link(p, node);
      NewList(p, node, k, heads0, links);
      forall q: nat | q < |lists| && q != p ensures ListOk(heads[q], lists[q]) {
        OtherList(p, node, k, heads0, links, q);
      }
    }

    lemma NewList(p: nat, node: Child, k: nat, heads0: seq<Child?>, links: map<Child, Child?>)
      requires LinkedIn(p, node, k, heads0, links) && WasLinked(heads0[p], lists[p], links)
      requires node.index < |table| && node !in repr
      ensures ListOk(heads[p], Spliced(lists[p], k, node))
      ensures forall c :: c in Spliced(lists[p], k, node) <==> c in lists[p] || c == node
    {
      var nodes := lists[p];
      forall x | 0 <= x < |nodes| && x != k - 1 ensures nodes[x].next == After(nodes, x) {
        assert nodes[x] in nodes;
      }
      assert heads[p] == heads[..][p];
      SpliceLinked(heads[p], nodes, k, node);
      SpliceDistinct(nodes, k, node);
      SplicedOk(nodes, k, node);
    }

    lemma OtherList(p: nat, node: Child, k: nat, heads0: seq<Child?>, links: map<Child, Child?>, q: nat)
      requires LinkedIn(p, node, k, heads0, links) && q < |lists| && q != p && WasLinked(heads0[q], lists[q], links)
      requires Separate(lists)
      ensures ListOk(heads[q], lists[q])
    {
      assert heads[q] == heads[..][q];
      forall x | 0 <= x < |lists[q]| ensures lists[q][x].next == After(lists[q], x) {
        assert lists[q][x] in lists[q];
        assert k > 0 ==> lists[p][k - 1] in lists[p];
      }
    }

    /** build_list: entry c on the list of p. */
    method BuildList(p: nat, c: nat)
      requires Valid() && p < |table| && c < |table|
      modifies heads, repr, this`lists, this`repr
      ensures Valid() && fresh(repr - old(repr)) && |lists| == |old(lists)|
      ensures Kin(p) == Insert(table, old(Kin(p)), c)
      ensures forall q :: 0 <= q < |table| && q != p ==> Kin(q) == old(Kin(q))
    {
      hide Place, PlaceFrom, Insert, Spliced, Separate, Linked, Distinct;
      var node := new Child(c);
      ghost var nodes := lists[p];
      assert ListOk(heads[p], nodes);
      ghost var k := LinkInOrder(p, node);
      SpliceContents(table, nodes, k, node);
      StillSeparate(lists, p, k, node);
      lists := lists[p := Spliced(nodes, k, node)];
      repr := repr + {node};
    }

    lemma SplicedOk(nodes: seq<Child>, k: nat, node: Child)
      requires k <= |nodes| && node.index < |table| && forall x :: 0 <= x < |nodes| ==> nodes[x].index < |table|
      ensures var all := Spliced(nodes, k, node); forall x :: 0 <= x < |all| ==> all[x].index < |table|
    {
    }

    /** The walk along the list, and the link behind the node where it ends. */
    method FindPlace(p: nat, node: Child, head: Child) returns (ghost k: nat)
      requires Valid() && p < |table| && node.index < |table| && node !in repr && node.next == null
      requires heads[p] == head && table[node.index].pid >= table[head.index].pid
      modifies node, repr
      ensures k == Place(table, Indexes(lists[p]), node.index) && 0 < k <= |lists[p]|
      ensures lists[p][k - 1].next == node && node.next == if k < |lists[p]| then lists[p][k] else null
      ensures forall n :: n in repr && n != lists[p][k - 1] ==> n.next == old(n.next)
    {
      ghost var nodes := lists[p];
      assert ListOk(head, nodes);
      var current := head;
      k := 1;
      while current.next != null && table[node.index].pid > table[current.next.index].pid
        invariant 0 < k <= |nodes| && current == nodes[k - 1]
        invariant PlaceFrom(table, Indexes(nodes), node.index, k) == Place(table, Indexes(nodes), node.index)
        decreases |nodes| - k
      {
        assert current.next == After(nodes, k - 1);
        current := current.next;
        k := k + 1;
      }
      assert current.next == After(nodes, k - 1);
      node.next := current.next;
      current.next := node;
    }

    /** The lists are those of the forest, as far as the first n entries go. */
    ghost predicate Holds(n: nat)
      requires |lists| == |table| && n <= |table|
      reads this
    {
      forall p :: 0 <= p < |table| ==> Kin(p) == Kids(table, p, n)
    }

    /** The body of the loop over entries. */
    method Attach(i: nat, init: nat)
      requires Valid() && i < |table| && Holds(i) && init == FindPid(table, INIT_PID)
      modifies heads, repr, this`lists, this`repr
      ensures Valid() && Holds(i + 1) && fresh(repr - old(repr))
    {
      hide Insert;
      if table[i].pid == INIT_PID {
        return;
      }
      var parent := PIndex(table[i].ppid);
      if parent == |table| {
        if init != |table| {
          BuildList(init, i);
        }
      } else {
        BuildList(parent, i);
      }
    }

    /** build_tree. */
    method BuildTree()
      requires Valid() && Holds(0)
      modifies heads, repr, this`lists, this`repr
      ensures Valid() && Holds(|table|) && fresh(repr - old(repr))
      ensures forall i: nat :: i < |lists| ==> ListsChildren(table, Kin(i), i)
    {
      hide Kids, Parent, ListsChildren;
      var init := PIndex(INIT_PID);
      var i := 0;
      while i < |table|
        invariant i <= |table| && Valid() && Holds(i) && fresh(repr - old(repr))
      {
        Attach(i, init);
        i := i + 1;
      }
      forall p: nat | p < |lists| ensures ListsChildren(table, Kin(p), p) {
        KidsAreChildren(table, p);
      }
    }

    /** print_tree: it ends, whatever the parent links are, because it only ever goes down from the root. */
    method PrintTree(index: nat, depth: nat, ghost r: nat)
      requires Valid() && Holds(|table|)
      requires Root(table, r) && index < |table| && Up(table, index, depth) == Some(r)
      modifies this`printed
      ensures printed == old(printed) + Listing(table, r, index, depth)
      decreases |table| - depth
    {
      hide Kids, Up, Root;
      DepthBound(table, r, index, depth);
      printed := printed + [Line(index, depth)];
      ghost var nodes, kids := lists[index], Kids(table, index, |table|);
      assert Kin(index) == kids;
      assert ListOk(heads[index], nodes);
      var current := heads[index];
      ghost var k := 0;
      while current != null
        invariant k <= |nodes| == |kids| && current == if k < |nodes| then nodes[k] else null
        invariant printed == old(printed) + ([Line(index, depth)] + Below(table, r, index, depth, k))
        decreases |nodes| - k
      {
        assert current.index == kids[k] && current.next == After(nodes, k);
        KidUp(table, r, index, depth, k);
        PrintTree(current.index, depth + 1, r);
        current := current.next;
        k := k + 1;
      }
    }

    /** main after the options: build, then print from init if there is one. */
    method Run()
      requires Valid() && Holds(0) && printed == []
      modifies heads, repr, this`lists, this`repr, this`printed
      ensures Valid() && Holds(|table|)
      ensures var r := FindPid(table, INIT_PID);
              if r < |table| then Root(table, r) && Up(table, r, 0) == Some(r) && printed == Listing(table, r, r, 0)
              else printed == []
      ensures NoneWith(table, 1) ==> printed == []
      ensures forall r: nat :: FirstWith(table, 1, r) ==>
                && ShowsTree(table, r, printed)
                && ((forall i :: r < i < |table| ==> table[i].pid != 1) ==>
                      (ShowsAll(table, printed) <==> !HasCycle(table)))
    {
      hide Listing, ListsChildren, ShowsTree, ShowsAll, HasCycle, Kids;
      BuildTree();
      var init := PIndex(INIT_PID);
      if init != |table| {
        PrintTree(init, 0, init);
        WhatIsPrinted(table, init);
      } else {
        FoundNone(table);
      }
    }
  }

  /** Putting a new node on one list leaves the lists separate. */
  lemma StillSeparate(lists: seq<seq<Child>>, p: nat, k: nat, node: Child)
    requires Separate(lists) && p < |lists| && k <= |lists[p]|
    requires forall q :: 0 <= q < |lists| ==> node !in lists[q]
    requires forall c :: c in Spliced(lists[p], k, node) <==> c in lists[p] || c == node
    ensures Separate(lists[p := Spliced(lists[p], k, node)])
  {
    hide Spliced;
    var after := lists[p := Spliced(lists[p], k, node)];
    forall q, r, c {:trigger c in after[q], c in after[r]}
      | 0 <= q < |after| && 0 <= r < |after| && c in after[q] && c in after[r] ensures q == r
    {
      assert after[q] == if q == p then Spliced(lists[p], k, node) else lists[q];
      assert after[r] == if r == p then Spliced(lists[p], k, node) else lists[r];
    }
  }

  lemma WhatIsPrinted(t: Table, init: nat)
    requires init < |t| && FindPid(t, INIT_PID) == init
    ensures Root(t, init) && Up(t, init, 0) == Some(init)
    ensures forall r: nat :: FirstWith(t, 1, r) <==> r == init
    ensures var lines := Listing(t, init, init, 0);
            && ShowsTree(t, init, lines)
            && ((forall i :: init < i < |t| ==> t[i].pid != 1) ==> (ShowsAll(t, lines) <==> !HasCycle(t)))
  {
    hide Listing, ShowsTree, ShowsAll, HasCycle, FindPid, Up, Root;
    forall r: nat ensures FirstWith(t, 1, r) <==> r == init {
      FoundFirst(t, 1, r);
    }
    PrintedIsTree(t, init);
    if forall i :: init < i < |t| ==> t[i].pid != 1 {
      AllShownExactly(t, init);
    }
  }

  lemma FoundNone(t: Table)
    requires FindPid(t, INIT_PID) == |t|
    ensures forall r: nat :: !FirstWith(t, 1, r)
  {
  }

  lemma FirstFound(t: Table, pid: int, i: nat)
    requires i <= |t| && (forall k :: 0 <= k < i ==> t[k].pid != pid) && (i < |t| ==> t[i].pid == pid)
    ensures FindPid(t, pid) == i
  {
  }
}
