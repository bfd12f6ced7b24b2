/**
 How one directory cluster is cut: an optional suffix of a group begun elsewhere, whole groups, an optional prefix
 of a group that goes on elsewhere.
 */
module FsrecovCut {
  import opened FsrecovEntry

  type Slots = seq<Entry>

  function IsDirectory(slots: Slots, total: nat): bool
    requires slots != []
  {
    IsShort(slots[0], total) || IsLong(slots[0])
  }

  /** Slots taken by the suffix at the head of the cluster; it may claim more than the cluster has. */
  function Head(slots: Slots, total: nat): nat
    requires slots != []
  {
    var e := slots[0];
    if IsLong(e) then (if Final(e) then 0 else e[0] % 0x20 + 1)
    else if IsShort(e, total) then 1 else 0
  }

  /** The first slot from `at` on that is of neither kind, or the end. */
  function Stop(slots: Slots, total: nat, at: nat): (stop: nat)
    requires at <= |slots|
    ensures at <= stop <= |slots|
    ensures forall i :: at <= i < stop ==> IsShort(slots[i], total) || IsLong(slots[i])
    ensures stop < |slots| ==> !IsShort(slots[stop], total) && !IsLong(slots[stop])
    decreases |slots| - at
  {
    if at == |slots| || !(IsShort(slots[at], total) || IsLong(slots[at])) then at else Stop(slots, total, at + 1)
  }

  /** The positions after the short entries from `at` on, up to the stop. */
  function Ends(slots: Slots, total: nat, at: nat): (ends: seq<nat>)
    requires at <= |slots|
    decreases |slots| - at
  {
    if at == |slots| then []
    else if IsShort(slots[at], total) then [at + 1] + Ends(slots, total, at + 1)
    else if IsLong(slots[at]) then Ends(slots, total, at + 1)
    else []
  }

  /** Where group i begins when the first begins at `begin`; the group after the last is the unfinished one. */
  function BeginOf(begin: nat, ends: seq<nat>, i: nat): nat
    requires i <= |ends|
  {
    if i == 0 then begin else ends[i - 1]
  }

  /** Only long entries, none of which passes for a short one. */
  ghost predicate AllLong(slots: Slots, total: nat, lo: nat, hi: nat) {
    hi <= |slots| && forall k :: lo <= k < hi ==> IsLong(slots[k]) && !IsShort(slots[k], total)
  }

  /** Group i: any number of long entries closed by one short entry. */
  ghost predicate IsGroup(slots: Slots, total: nat, begin: nat, ends: seq<nat>, i: nat)
    requires i < |ends|
  {
    && BeginOf(begin, ends, i) < ends[i] <= |slots|
    && AllLong(slots, total, BeginOf(begin, ends, i), ends[i] - 1) && IsShort(slots[ends[i] - 1], total)
  }

  /**
   The slots from `begin` are cut into groups with these ends, then long entries up to `stop`, where the cluster ends
   or a slot is of neither kind. Nothing is left out and nothing overlaps, for each part begins where the last ended.
   */
  ghost predicate CutAt(slots: Slots, total: nat, begin: nat, ends: seq<nat>, stop: nat) {
    && (forall i :: 0 <= i < |ends| ==> IsGroup(slots, total, begin, ends, i))
    && BeginOf(begin, ends, |ends|) <= stop <= |slots|
    && AllLong(slots, total, BeginOf(begin, ends, |ends|), stop)
    && (stop < |slots| ==> !IsShort(slots[stop], total) && !IsLong(slots[stop]))
  }

  /** The cut that the scan makes, with the current group already `at - begin` long entries long. */
  lemma {:induction false} ScanCuts(slots: Slots, total: nat, begin: nat, at: nat)
    requires begin <= at <= |slots| && AllLong(slots, total, begin, at)
    ensures CutAt(slots, total, begin, Ends(slots, total, at), Stop(slots, total, at))
    decreases |slots| - at
  {
    var ends, stop := Ends(slots, total, at), Stop(slots, total, at);
    if at < |slots| && IsShort(slots[at], total) {
      ScanCuts(slots, total, at + 1, at + 1);
      forall i | 0 <= i < |ends| ensures IsGroup(slots, total, begin, ends, i) {
        if i > 0 {
          assert IsGroup(slots, total, at + 1, Ends(slots, total, at + 1), i - 1);
        }
      }
    } else if at < |slots| && IsLong(slots[at]) {
      ScanCuts(slots, total, begin, at + 1);
    }
  }

  /** There is only one way to cut a cluster. */
  lemma {:induction false} CutUnique(slots: Slots, total: nat, begin: nat, ends: seq<nat>, stop: nat, ends': seq<nat>,
                                     stop': nat)
    requires CutAt(slots, total, begin, ends, stop) && CutAt(slots, total, begin, ends', stop')
    ensures ends == ends' && stop == stop'
    decreases |ends|
  {
    if ends == [] {
      if ends' == [] {
        SameStop(slots, total, begin, stop, stop');
      } else {
        NoGroup(slots, total, begin, stop, ends', stop');
      }
    } else if ends' == [] {
      NoGroup(slots, total, begin, stop', ends, stop);
    } else {
      SameEnd(slots, total, begin, ends, stop, ends', stop');
      CutRest(slots, total, begin, ends, stop);
      CutRest(slots, total, begin, ends', stop');
      CutUnique(slots, total, ends[0], ends[1..], stop, ends'[1..], stop');
      assert ends == [ends[0]] + ends[1..] && ends' == [ends'[0]] + ends'[1..];
    }
  }

  lemma SameStop(slots: Slots, total: nat, begin: nat, stop: nat, stop': nat)
    requires CutAt(slots, total, begin, [], stop) && CutAt(slots, total, begin, [], stop')
    ensures stop == stop'
  {
  }

  lemma NoGroup(slots: Slots, total: nat, begin: nat, stop: nat, ends: seq<nat>, stop': nat)
    requires CutAt(slots, total, begin, [], stop) && CutAt(slots, total, begin, ends, stop')
    ensures ends == []
  {
    if ends != [] {
      GroupFacts(slots, total, begin, ends, stop');
    }
  }

  lemma GroupFacts(slots: Slots, total: nat, begin: nat, ends: seq<nat>, stop: nat)
    requires CutAt(slots, total, begin, ends, stop) && ends != []
    ensures begin < ends[0] <= |slots| && AllLong(slots, total, begin, ends[0] - 1)
        && IsShort(slots[ends[0] - 1], total)
  {
    assert IsGroup(slots, total, begin, ends, 0);
  }

  lemma SameEnd(slots: Slots, total: nat, begin: nat, ends: seq<nat>, stop: nat, ends': seq<nat>, stop': nat)
    requires CutAt(slots, total, begin, ends, stop) && CutAt(slots, total, begin, ends', stop') && ends != []
        && ends' != []
    ensures ends[0] == ends'[0]
  {
    GroupFacts(slots, total, begin, ends, stop);
    GroupFacts(slots, total, begin, ends', stop');
  }

  lemma CutRest(slots: Slots, total: nat, begin: nat, ends: seq<nat>, stop: nat)
    requires CutAt(slots, total, begin, ends, stop) && ends != []
    ensures CutAt(slots, total, ends[0], ends[1..], stop)
  {
    forall i | 0 <= i < |ends[1..]| ensures IsGroup(slots, total, ends[0], ends[1..], i) {
      assert IsGroup(slots, total, begin, ends, i + 1);
    }
  }

  ghost predicate Ordered(slots: Slots, begin: nat, ends: seq<nat>) {
    begin <= |slots| && forall i :: 0 <= i < |ends| ==> BeginOf(begin, ends, i) <= ends[i] <= |slots|
  }

  lemma CutOrdered(slots: Slots, total: nat, begin: nat, ends: seq<nat>, stop: nat)
    requires CutAt(slots, total, begin, ends, stop)
    ensures Ordered(slots, begin, ends)
  {
    forall i | 0 <= i < |ends| ensures BeginOf(begin, ends, i) <= ends[i] <= |slots| {
      assert IsGroup(slots, total, begin, ends, i);
    }
    if ends != [] {
      assert IsGroup(slots, total, begin, ends, 0);
    }
  }

  /** The groups themselves. */
  function GroupsOf(slots: Slots, begin: nat, ends: seq<nat>): seq<Slots>
    requires Ordered(slots, begin, ends)
  {
    seq(|ends|, i requires 0 <= i < |ends| => slots[BeginOf(begin, ends, i)..ends[i]])
  }

  function Flat(groups: seq<Slots>): Slots {
    if groups == [] then [] else Flat(groups[..|groups| - 1]) + groups[|groups| - 1]
  }

  /** Put together again, the groups are the slots that were cut. */
  lemma {:induction false} CutCovers(slots: Slots, begin: nat, ends: seq<nat>, n: nat)
    requires Ordered(slots, begin, ends) && n <= |ends|
    ensures begin <= BeginOf(begin, ends, n) <= |slots|
    ensures Flat(GroupsOf(slots, begin, ends)[..n]) == slots[begin..BeginOf(begin, ends, n)]
  {
    var groups := GroupsOf(slots, begin, ends);
    if n > 0 {
      CutCovers(slots, begin, ends, n - 1);
      assert groups[..n][..n - 1] == groups[..n - 1] && groups[..n][n - 1] == groups[n - 1];
    }
  }
}
