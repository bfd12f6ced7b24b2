/**
 A directory written as the specification describes, its groups of entries cut at cluster boundaries and its clusters
 anywhere on the volume: every group is analysed once, whole.
 */
module FsrecovRecovery {
  import opened FsrecovEntry
  import opened FsrecovCut
  import opened FsrecovMerge
  import opened FsrecovScan

  /**
   Long entries count down to 1, the first marked as the last of the name, and carry the checksum of the short
   name.
   */
  ghost predicate GroupOk(g: Slots, total: nat) {
    && g != [] && IsShort(g[|g| - 1], total) && !IsLong(g[|g| - 1])
    && forall i :: 0 <= i < |g| - 1 ==> LongOk(g, total, i)
  }

  ghost predicate LongOk(g: Slots, total: nat, i: nat)
    requires i < |g|
  {
    && IsLong(g[i]) && !IsShort(g[i], total) && Number(g[i]) == |g| - 1 - i && (Final(g[i]) <==> i == 0)
    && g[i][13] == Checksum(Name(g[|g| - 1]))
  }

  /** What a directory cluster holds: the end of a group, whole groups, the beginning of a group, nothing after that. */
  datatype Window = Window(tail: Slots, groups: seq<Slots>, front: Slots, rest: Slots)

  function SlotsOf(w: Window): Slots {
    w.tail + Flat(w.groups) + w.front + w.rest
  }

  /** The end of a group: not its first slot, unless the group is a single slot. */
  ghost predicate IsTail(t: Slots, total: nat) {
    && t != [] && IsShort(t[|t| - 1], total) && !IsLong(t[|t| - 1])
    && forall i :: 0 <= i < |t| - 1 ==> IsLong(t[i]) && Number(t[i]) == |t| - 1 - i && !Final(t[i])
  }

  /** A single-slot group at the head of a cluster counts as a tail. */
  ghost predicate WindowOk(w: Window, total: nat) {
    && (w.tail == [] || IsTail(w.tail, total))
    && (forall i :: 0 <= i < |w.groups| ==> GroupOk(w.groups[i], total))
    && AllLong(w.front, total, 0, |w.front|)
    && (w.tail == [] ==> if w.groups == [] then w.front != [] && Final(w.front[0]) else |w.groups[0]| > 1)
    && (w.rest != [] ==> !IsShort(w.rest[0], total) && !IsLong(w.rest[0]))
  }

  // ----- one cluster -----

  function EndsOf(begin: nat, groups: seq<Slots>): (ends: seq<nat>)
    ensures |ends| == |groups|
  {
    seq(|groups|, i requires 0 <= i < |groups| => begin + |Flat(groups[..i + 1])|)
  }

  lemma {:induction false} FlatAt(groups: seq<Slots>, i: nat)
    requires i < |groups|
    ensures |Flat(groups[..i])| + |groups[i]| == |Flat(groups[..i + 1])| <= |Flat(groups)|
    ensures Flat(groups)[|Flat(groups[..i])|..|Flat(groups[..i + 1])|] == groups[i]
  {
    assert groups[..i + 1][..i] == groups[..i];
    if i == |groups| - 1 {
      assert groups[..i + 1] == groups;
    } else {
      var shorter := groups[..|groups| - 1];
      FlatAt(shorter, i);
      assert shorter[..i] == groups[..i] && shorter[..i + 1] == groups[..i + 1];
    }
  }

  /** Where group i of a window is. */
  lemma GroupAt(w: Window, i: nat)
    requires i < |w.groups|
    ensures var (h, ends) := (|w.tail|, EndsOf(|w.tail|, w.groups));
            && BeginOf(h, ends, i) <= ends[i] <= |SlotsOf(w)|
            && SlotsOf(w)[BeginOf(h, ends, i)..ends[i]] == w.groups[i]
  {
    var h, flat := |w.tail|, Flat(w.groups);
    FlatAt(w.groups, i);
    BeginIs(h, w.groups, i);
    var lo, hi := |Flat(w.groups[..i])|, |Flat(w.groups[..i + 1])|;
    Within(w.tail, flat, w.front + w.rest, lo, hi);
    assert SlotsOf(w) == w.tail + flat + (w.front + w.rest);
  }

  lemma BeginIs(h: nat, groups: seq<Slots>, i: nat)
    requires i <= |groups|
    ensures BeginOf(h, EndsOf(h, groups), i) == h + |Flat(groups[..i])|
  {
  }

  lemma Within(a: Slots, b: Slots, c: Slots, lo: nat, hi: nat)
    requires lo <= hi <= |b|
    ensures (a + b + c)[|a| + lo..|a| + hi] == b[lo..hi]
  {
  }

  /** The first slot tells how long the tail is. */
  lemma WindowHead(w: Window, total: nat)
    requires WindowOk(w, total)
    ensures SlotsOf(w) != [] && IsDirectory(SlotsOf(w), total) && Head(SlotsOf(w), total) == |w.tail|
  {
    hide IsShort, IsLong;
    var slots := SlotsOf(w);
    if w.tail != [] {
      assert slots[0] == w.tail[0];
      if |w.tail| > 1 {
        TailNumber(w.tail, total);
      }
    } else if w.groups != [] {
      GroupAt(w, 0);
      assert GroupOk(w.groups[0], total) && LongOk(w.groups[0], total, 0);
      assert slots[0] == w.groups[0][0];
    } else {
      assert slots[0] == w.front[0];
    }
  }

  lemma TailNumber(t: Slots, total: nat)
    requires IsTail(t, total) && |t| > 1
    ensures IsLong(t[0]) && !Final(t[0]) && t[0][0] % 0x20 + 1 == |t|
  {
  }

  lemma WindowGroup(w: Window, total: nat, i: nat)
    requires WindowOk(w, total) && i < |w.groups|
    ensures IsGroup(SlotsOf(w), total, |w.tail|, EndsOf(|w.tail|, w.groups), i)
  {
    hide IsShort, IsLong, Flat, EndsOf, SlotsOf;
    GroupAt(w, i);
    var slots, g := SlotsOf(w), w.groups[i];
    var begin, end := BeginOf(|w.tail|, EndsOf(|w.tail|, w.groups), i), EndsOf(|w.tail|, w.groups)[i];
    assert GroupOk(g, total) && end - begin == |g|;
    forall k | begin <= k < end ensures slots[k] == g[k - begin] {
      assert slots[begin..end][k - begin] == slots[k];
    }
    forall k | begin <= k < end - 1 ensures IsLong(slots[k]) && !IsShort(slots[k], total) {
      assert LongOk(g, total, k - begin);
    }
  }

  /** The scan cuts a window into exactly its parts. */
  lemma WindowCut(w: Window, total: nat)
    requires WindowOk(w, total)
    ensures SlotsOf(w) != [] && IsDirectory(SlotsOf(w), total) && Head(SlotsOf(w), total) == |w.tail| <= |SlotsOf(w)|
    ensures Whole(SlotsOf(w), total) == w.groups
    ensures LastBegin(SlotsOf(w), total) == |w.tail| + |Flat(w.groups)|
    ensures Stop(SlotsOf(w), total, |w.tail|) == |w.tail| + |Flat(w.groups)| + |w.front|
  {
    hide IsShort, IsLong, Head, Flat, IsDirectory, IsTail, GroupOk, Ends, Stop, IsGroup;
    WindowHead(w, total);
    var slots, h, ends := SlotsOf(w), |w.tail|, EndsOf(|w.tail|, w.groups);
    var last := h + |Flat(w.groups)|;
    var stop := last + |w.front|;
    BeginIs(h, w.groups, |w.groups|);
    assert w.groups[..|w.groups|] == w.groups;
    forall i | 0 <= i < |ends| ensures IsGroup(slots, total, h, ends, i) {
      WindowGroup(w, total, i);
    }
    assert forall k :: last <= k < stop ==> slots[k] == w.front[k - last];
    assert stop < |slots| ==> slots[stop] == w.rest[0];
    assert CutAt(slots, total, h, ends, stop);
    ScanCuts(slots, total, h, h);
    CutUnique(slots, total, h, ends, stop, Ends(slots, total, h), Stop(slots, total, h));
    CutOrdered(slots, total, h, ends, stop);
    forall i | 0 <= i < |ends| ensures GroupsOf(slots, h, ends)[i] == w.groups[i] {
      GroupAt(w, i);
    }
  }

  // ----- the volume -----

  /** The directory's clusters are windows; no other cluster begins like one. */
  ghost predicate Laid(disk: Slots, k: nat, total: nat, windows: seq<Option<Window>>) {
    && k > 0 && |windows| == total && total * k <= |disk|
    && forall c: nat {:trigger windows[c]} :: c < total ==> LaidAt(disk, k, total, windows, c)
  }

  ghost predicate LaidAt(disk: Slots, k: nat, total: nat, windows: seq<Option<Window>>, c: nat)
    requires c < |windows| && k > 0
  {
    var base := c * k;
    && base + k <= |disk|
    && match windows[c]
       case Some(w) => WindowOk(w, total) && disk[base..base + k] == SlotsOf(w)
       case None => !IsDirectory(disk[base..base + k], total)
  }

  function Fronts(windows: seq<Option<Window>>, n: nat): seq<Slots>
    requires n <= |windows|
  {
    if n == 0 then []
    else Fronts(windows, n - 1)
         + (if windows[n - 1].Some? && windows[n - 1].value.front != [] then [windows[n - 1].value.front] else [])
  }

  function Tails(windows: seq<Option<Window>>, n: nat): seq<Slots>
    requires n <= |windows|
  {
    if n == 0 then []
    else Tails(windows, n - 1)
         + (if windows[n - 1].Some? && windows[n - 1].value.tail != [] then [windows[n - 1].value.tail] else [])
  }

  /** The groups that no boundary cuts. */
  function Uncut(windows: seq<Option<Window>>, n: nat): seq<Slots>
    requires n <= |windows|
  {
    if n == 0 then []
    else Uncut(windows, n - 1) + (if windows[n - 1].Some? then windows[n - 1].value.groups else [])
  }

  lemma LaidVolume(disk: Slots, k: nat, total: nat, windows: seq<Option<Window>>)
    requires Laid(disk, k, total, windows)
    ensures Volume(disk, k, total)
  {
    hide WindowOk, SlotsOf;
    forall c: nat {:trigger c * k} | c < total
      ensures c * k + k <= |disk| && c * k + Head(disk[c * k..c * k + k], total) <= |disk|
    {
      assert windows[c] == windows[c] && LaidAt(disk, k, total, windows, c);
      if windows[c].Some? {
        WindowCut(windows[c].value, total);
      }
    }
  }

  lemma ContentsAppend(disk: Slots, a: seq<Segment>, b: seq<Segment>)
    requires AllInside(disk, a) && AllInside(disk, b)
    ensures AllInside(disk, a + b) && Contents(disk, a + b) == Contents(disk, a) + Contents(disk, b)
  {
  }

  /** What the scan collects in one cluster. */
  lemma WindowFound(disk: Slots, base: nat, k: nat, total: nat, w: Window)
    requires WindowOk(w, total) && base + k <= |disk| && disk[base..base + k] == SlotsOf(w)
    ensures var slots := disk[base..base + k];
            && slots != [] && IsDirectory(slots, total) && Head(slots, total) <= |slots|
                && Whole(slots, total) == w.groups
            && AllInside(disk, TailPart(slots, total, base)) && AllInside(disk, HeadPart(slots, total, base))
            && Contents(disk, TailPart(slots, total, base)) == (if w.front != [] then [w.front] else [])
            && Contents(disk, HeadPart(slots, total, base)) == (if w.tail != [] then [w.tail] else [])
  {
    hide WindowOk, Head, IsDirectory, Whole, Stop, LastBegin, Flat, SlotsOf, TailPart, HeadPart;
    WindowCut(w, total);
    FoundParts(disk, base, k, total, w);
  }

  /** What the scan collects. */
  lemma {:induction false} ScanFinds(disk: Slots, k: nat, total: nat, windows: seq<Option<Window>>, n: nat)
    requires Laid(disk, k, total, windows) && Volume(disk, k, total) && n <= total
    ensures var f := ScanTo(disk, k, total, n);
            && AllInside(disk, f.prefixes) && AllInside(disk, f.suffixes)
            && Contents(disk, f.prefixes) == Fronts(windows, n)
            && Contents(disk, f.suffixes) == Tails(windows, n)
            && f.analysed == Uncut(windows, n)
  {
    hide WindowOk, Head, IsDirectory, Whole, Stop, LastBegin, Flat, SlotsOf, TailPart, HeadPart, Contents, AllInside;
    if n == 0 {
      NoContents(disk);
    } else {
      ScanFinds(disk, k, total, windows, n - 1);
      assert windows[n - 1] == windows[n - 1] && LaidAt(disk, k, total, windows, n - 1);
      if windows[n - 1].Some? {
        var f, base := ScanTo(disk, k, total, n - 1), (n - 1) * k;
        WindowFound(disk, base, k, total, windows[n - 1].value);
        ContentsAppend(disk, f.prefixes, TailPart(disk[base..base + k], total, base));
        ContentsAppend(disk, f.suffixes, HeadPart(disk[base..base + k], total, base));
      }
    }
  }

  lemma NoContents(disk: Slots)
    ensures AllInside(disk, []) && Contents(disk, []) == []
  {
  }

  /** The segments recorded for a window are its tail and its front. */
  lemma FoundParts(disk: Slots, base: nat, k: nat, total: nat, w: Window)
    requires WindowOk(w, total) && base + k <= |disk| && disk[base..base + k] == SlotsOf(w)
    ensures var slots := SlotsOf(w);
            && slots != [] && Head(slots, total) <= |slots|
            && HeadPart(slots, total, base) == (if w.tail != [] then [Segment(base, |w.tail|)] else [])
            && TailPart(slots, total, base) ==
                 (if w.front != [] then [Segment(base + |w.tail| + |Flat(w.groups)|, |w.front|)] else [])
            && base + |w.tail| + |Flat(w.groups)| + |w.front| <= |disk|
            && disk[base..base + |w.tail|] == w.tail
            && disk[base + |w.tail| + |Flat(w.groups)|..base + |w.tail| + |Flat(w.groups)| + |w.front|] == w.front
  {
    hide WindowOk, Head, Stop, LastBegin, Flat, IsDirectory, Whole;
    WindowCut(w, total);
    var slots, last := SlotsOf(w), |w.tail| + |Flat(w.groups)|;
    SubSlots(disk, base, k, 0, |w.tail|);
    SubSlots(disk, base, k, last, last + |w.front|);
    assert slots[0..|w.tail|] == w.tail && slots[last..last + |w.front|] == w.front;
  }

  // ----- the parts find each other -----

  /**
   Tail j belongs to group j: either it is all of it, or it is the rest of the front `mates[j]`. No other front in the
   volume carries the same checksum.
   */
  ghost predicate Torn(fronts: seq<Slots>, tails: seq<Slots>, mates: seq<Option<nat>>, groups: seq<Slots>, total: nat) {
    && Parts(fronts) && Parts(tails) && |mates| == |groups| == |tails|
    && forall j :: 0 <= j < |tails| ==> TornAt(fronts, tails[j], mates[j], groups[j], total)
  }

  ghost predicate TornAt(fronts: seq<Slots>, tail: Slots, mate: Option<nat>, group: Slots, total: nat)
    requires Parts(fronts)
  {
    && GroupOk(group, total)
    && (match mate
        case None => group == tail && |tail| == 1
        case Some(m) => m < |fronts| && tail != [] && group == fronts[m] + tail)
    && forall i: nat :: i < |fronts| && mate != Some(i) ==> fronts[i][0][13] != Checksum(Name(group[|group| - 1]))
  }

  lemma MatchesMate(fronts: seq<Slots>, tail: Slots, mate: Option<nat>, group: Slots, total: nat)
    requires Parts(fronts) && TornAt(fronts, tail, mate, group, total)
    ensures tail != [] && Outcome(fronts, tail, total) == multiset{group}
  {
    hide IsShort, IsLong, Checksum, First;
    var last := group[|group| - 1];
    assert tail[|tail| - 1] == last;
    forall i: nat | i < |fronts| ensures Match(fronts[i], tail, total) <==> fronts[i][0][13] == Checksum(Name(last)) {
      if |tail| > 1 {
        assert tail[0] == group[|group| - |tail|] && LongOk(group, total, |group| - |tail|);
      }
    }
    if mate.Some? {
      assert group[0] == fronts[mate.value][0] && LongOk(group, total, 0);
    }
    FirstIs(fronts, tail, total, if mate.Some? then mate.value else |fronts|);
  }

  lemma FirstIs(fronts: seq<Slots>, tail: Slots, total: nat, m: nat)
    requires Parts(fronts) && tail != [] && m <= |fronts|
    requires forall i: nat :: i < |fronts| ==> (Match(fronts[i], tail, total) <==> i == m)
    ensures First(fronts, tail, total) == m
  {
    hide Match;
  }

  lemma {:induction false} AllMated(fronts: seq<Slots>, tails: seq<Slots>, mates: seq<Option<nat>>, groups: seq<Slots>,
                                    total: nat, n: nat)
    requires Torn(fronts, tails, mates, groups, total) && n <= |tails|
    ensures Outcomes(fronts, tails, total, n) == multiset(groups[..n])
  {
    hide TornAt, Outcome;
    if n > 0 {
      AllMated(fronts, tails, mates, groups, total, n - 1);
      MatchesMate(fronts, tails[n - 1], mates[n - 1], groups[n - 1], total);
      assert groups[..n] == groups[..n - 1] + [groups[n - 1]];
    }
  }

  /** Every group of the directory is analysed, whole and once, wherever its parts were, and nothing else is. */
  lemma EveryGroupOnce(disk: Slots, k: nat, total: nat, windows: seq<Option<Window>>, mates: seq<Option<nat>>,
                       cut: seq<Slots>)
    requires |windows| == total && Laid(disk, k, total, windows)
    requires Torn(Fronts(windows, total), Tails(windows, total), mates, cut, total)
    ensures Volume(disk, k, total)
    ensures multiset(Recovered(disk, k, total)) == multiset(Uncut(windows, total)) + multiset(cut)
  {
    hide Laid, Volume, ScanTo, Torn, Resolved, Outcomes, AllInside;
    LaidVolume(disk, k, total, windows);
    ScanFinds(disk, k, total, windows, total);
    var fronts, tails := Fronts(windows, total), Tails(windows, total);
    TornParts(fronts, tails, mates, cut, total);
    ResolvedIsOutcomes(fronts, tails, total);
    AllMated(fronts, tails, mates, cut, total, |tails|);
    assert cut[..|tails|] == cut;
  }

  lemma TornParts(fronts: seq<Slots>, tails: seq<Slots>, mates: seq<Option<nat>>, groups: seq<Slots>, total: nat)
    requires Torn(fronts, tails, mates, groups, total)
    ensures Parts(fronts) && Parts(tails) && |groups| == |tails|
  {
  }
}
