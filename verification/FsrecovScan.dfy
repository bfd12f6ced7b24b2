/** The scan of a volume: every directory cluster is cut, then the parts that cross clusters are put together. */
module FsrecovScan {
  import opened FsrecovEntry
  import opened FsrecovCut
  import opened FsrecovMerge

  /** `count` slots from slot `at` of the data area. */
  datatype Segment = Segment(at: nat, count: nat)

  datatype Option<T> = None | Some(value: T)

  function HeadPart(slots: Slots, total: nat, base: nat): seq<Segment>
    requires slots != []
  {
    if Head(slots, total) > 0 then [Segment(base, Head(slots, total))] else []
  }

  /** The groups that are cut whole; a head that claims more slots than the cluster has leaves none. */
  function Whole(slots: Slots, total: nat): seq<Slots>
    requires slots != []
  {
    if Head(slots, total) <= |slots| then WholeFrom(slots, total) else []
  }

  function WholeFrom(slots: Slots, total: nat): seq<Slots>
    requires slots != [] && Head(slots, total) <= |slots|
  {
    var h := Head(slots, total);
    ScanCuts(slots, total, h, h);
    CutOrdered(slots, total, h, Ends(slots, total, h), Stop(slots, total, h));
    GroupsOf(slots, h, Ends(slots, total, h))
  }

  function LastBegin(slots: Slots, total: nat): nat
    requires slots != [] && Head(slots, total) <= |slots|
  {
    var h := Head(slots, total);
    BeginOf(h, Ends(slots, total, h), |Ends(slots, total, h)|)
  }

  function TailPart(slots: Slots, total: nat, base: nat): seq<Segment>
    requires slots != []
  {
    if Head(slots, total) <= |slots| then TailFrom(slots, total, base) else []
  }

  function TailFrom(slots: Slots, total: nat, base: nat): seq<Segment>
    requires slots != [] && Head(slots, total) <= |slots|
  {
    var last, stop := LastBegin(slots, total), Stop(slots, total, Head(slots, total));
    if last < stop then [Segment(base + last, stop - last)] else []
  }

  /**
   A cluster is used up to its first slot of neither kind after the head: head part, whole groups and tail part follow
   each other without gap or overlap, the groups end in short entries and the tail part is long entries only. When the
   head claims more slots than the cluster has, its part is recorded with that length and nothing else is taken.
   */
  lemma ClusterCut(slots: Slots, total: nat, base: nat)
    requires slots != []
    ensures var h := Head(slots, total);
            && HeadPart(slots, total, base) == (if h > 0 then [Segment(base, h)] else [])
            && if h > |slots| then Whole(slots, total) == [] && TailPart(slots, total, base) == []
               else
                 var stop, last := Stop(slots, total, h), LastBegin(slots, total);
                 && CutAt(slots, total, h, Ends(slots, total, h), stop) && last <= stop
                 && slots[..stop] == slots[..h] + Flat(Whole(slots, total)) + slots[last..stop]
                 && TailPart(slots, total, base) == (if last < stop then [Segment(base + last, stop - last)] else [])
  {
    hide IsShort, IsLong, Head, Ends, Flat, IsGroup;
    var h := Head(slots, total);
    if h <= |slots| {
      var ends, stop := Ends(slots, total, h), Stop(slots, total, h);
      ScanCuts(slots, total, h, h);
      CutOrdered(slots, total, h, ends, stop);
      CutCovers(slots, h, ends, |ends|);
      var groups := Whole(slots, total);
      assert groups[..|ends|] == groups;
      Rejoin(slots, h, LastBegin(slots, total), stop);
    }
  }

  /** A long entry numbered 20 that is not the last of its name. */
  function TwentiethEntry(): (e: Entry) {
    seq(32, i => if i == 0 then 20 else if i == 11 then LONG_NAME_FLAGS else 0)
  }

  /** Suffixes fit their clusters, whatever these hold, exactly when a cluster has 21 slots or more. */
  lemma HeadsFit(k: nat, total: nat)
    requires k > 0
    ensures (forall slots: Slots :: |slots| == k ==> Head(slots, total) <= k) <==> k >= 21
  {
    forall slots: Slots | |slots| == k ensures Head(slots, total) <= 21 {
      HeadBound(slots, total);
    }
    if k < 21 {
      var slots: Slots := seq(k, _ => TwentiethEntry());
      assert slots[0] == TwentiethEntry() && Head(slots, total) == 21;
    }
  }

  lemma HeadBound(slots: Slots, total: nat)
    requires slots != []
    ensures Head(slots, total) <= 21
  {
  }

  lemma Rejoin(slots: Slots, h: nat, last: nat, stop: nat)
    requires h <= last <= stop <= |slots|
    ensures slots[..stop] == slots[..h] + slots[h..last] + slots[last..stop]
  {
  }

  // ----- the whole volume -----

  datatype Found = Found(prefixes: seq<Segment>, suffixes: seq<Segment>, analysed: seq<Slots>)

  /** All clusters, and the slots their head parts claim, lie in the data area. */
  ghost predicate Volume(disk: Slots, k: nat, total: nat) {
    && k > 0 && total * k <= |disk|
    && forall c: nat {:trigger c * k} :: c < total ==>
         c * k + k <= |disk| && c * k + Head(disk[c * k..c * k + k], total) <= |disk|
  }

  /** Clusters of 21 slots or more need no more than to be there. */
  lemma LargeClusters(disk: Slots, k: nat, total: nat)
    requires k >= 21 && total * k <= |disk|
    ensures Volume(disk, k, total)
  {
    forall c: nat {:trigger c * k} | c < total
      ensures c * k + k <= |disk| && c * k + Head(disk[c * k..c * k + k], total) <= |disk|
    {
      assert c * k + k == (c + 1) * k <= total * k;
      HeadBound(disk[c * k..c * k + k], total);
    }
  }

  /** What scanning the first n clusters finds. */
  function ScanTo(disk: Slots, k: nat, total: nat, n: nat): Found
    requires Volume(disk, k, total) && n <= total
  {
    if n == 0 then Found([], [], [])
    else
      var f, base := ScanTo(disk, k, total, n - 1), (n - 1) * k;
      var slots := disk[base..base + k];
      if IsDirectory(slots, total)
      then Found(f.prefixes + TailPart(slots, total, base), f.suffixes + HeadPart(slots, total, base),
                 f.analysed + Whole(slots, total))
      else f
  }

  ghost predicate Inside(disk: Slots, s: Segment) {
    s.count > 0 && s.at + s.count <= |disk|
  }

  ghost predicate AllInside(disk: Slots, segments: seq<Segment>) {
    forall i :: 0 <= i < |segments| ==> Inside(disk, segments[i])
  }

  function Contents(disk: Slots, segments: seq<Segment>): (parts: seq<Slots>)
    requires AllInside(disk, segments)
    ensures |parts| == |segments| && Parts(parts)
    ensures forall i :: 0 <= i < |parts| ==> parts[i] == disk[segments[i].at..segments[i].at + segments[i].count]
  {
    seq(|segments|, i requires 0 <= i < |segments| => disk[segments[i].at..segments[i].at + segments[i].count])
  }

  lemma {:induction false} ScanInside(disk: Slots, k: nat, total: nat, n: nat)
    requires Volume(disk, k, total) && n <= total
    ensures AllInside(disk, ScanTo(disk, k, total, n).prefixes) && AllInside(disk, ScanTo(disk, k, total, n).suffixes)
  {
    hide Head, IsDirectory, Whole, Ends;
    if n > 0 {
      ScanInside(disk, k, total, n - 1);
      var base := (n - 1) * k;
      ClusterCut(disk[base..base + k], total, base);
    }
  }

  /** Everything that is analysed in a run of the program. */
  function Recovered(disk: Slots, k: nat, total: nat): seq<Slots>
    requires Volume(disk, k, total)
  {
    var f := ScanTo(disk, k, total, total);
    ScanInside(disk, k, total, total);
    f.analysed + Resolved(Contents(disk, f.prefixes), Contents(disk, f.suffixes), total)
  }

  class Scanner {
    const disk: Slots
    const k: nat
    const total: nat
    var prefixes: seq<Segment>
    var suffixes: seq<Option<Segment>>
    var analysed: seq<Slots>

    constructor (disk: Slots, k: nat, total: nat)
      ensures this.disk == disk && this.k == k && this.total == total
      ensures prefixes == [] && suffixes == [] && analysed == []
    {
      this.disk, this.k, this.total := disk, k, total;
      prefixes, suffixes, analysed := [], [], [];
    }

    /** analyze_entry, as an event. */
    method AnalyzeEntry(entries: Slots)
      modifies this`analysed
      ensures analysed == old(analysed) + [entries]
    {
      analysed := analysed + [entries];
    }

    /** Lines 331-347: the head of the cluster. */
    method ScanHead(base: nat) returns (current: nat)
      requires k > 0 && base + k <= |disk|
      modifies this`suffixes
      ensures var slots := disk[base..base + k];
              && suffixes == old(suffixes) + Marked(HeadPart(slots, total, base))
              && current == base + Head(slots, total)
    {
      hide IsLong, IsShort, Final;
      current := base;
      var first := disk[current];
      assert first == disk[base..base + k][0];
      if IsLong(first) {
        if !Final(first) {
          suffixes := suffixes + [Some(Segment(current, first[0] % 0x20 + 1))];
          current := current + (first[0] % 0x20 + 1);
        }
      } else if IsShort(first, total) {
        suffixes := suffixes + [Some(Segment(current, 1))];
        current := current + 1;
      }
    }

    /** scan_directory_cluster, for the cluster whose slots begin at `base`. */
    method ScanDirectoryCluster(base: nat)
      requires k > 0 && base + k <= |disk|
      modifies this`prefixes, this`suffixes, this`analysed
      ensures var slots := disk[base..base + k];
              && suffixes == old(suffixes) + Marked(HeadPart(slots, total, base))
              && analysed == old(analysed) + Whole(slots, total)
              && prefixes == old(prefixes) + TailPart(slots, total, base)
    {
      hide IsLong, IsShort, Head, Progress, Ordered, GroupsOf, Marked, HeadPart, Ends, Stop;
      ghost var slots := disk[base..base + k];
      ghost var h, before := Head(slots, total), analysed;
      var current := ScanHead(base);
      ghost var heads := suffixes;
      var groupStart, groupCount := current, 0;
      ghost var done: seq<nat> := [];
      Begin(slots, total, h);
      while current < base + k
        invariant base <= groupStart <= current && groupCount == current - groupStart
        invariant h > k ==> current == base + h && groupCount == 0 && analysed == before
        invariant h <= k ==> current <= base + k && Progress(slots, total, h, done, groupStart - base, current - base)
        invariant h <= k ==> Ordered(slots, h, done) && analysed == before + GroupsOf(slots, h, done)
        invariant suffixes == heads && prefixes == old(prefixes)
        decreases base + k - current
      {
        OneSlot(slots, total, h, done, groupStart - base, current - base);
        assert disk[current] == slots[current - base];
        if IsShort(disk[current], total) {
          AnalyzeEntry(disk[groupStart..groupStart + groupCount + 1]);
          SubSlots(disk, base, k, groupStart - base, current - base + 1);
          current := current + 1;
          done := done + [current - base];
          groupStart, groupCount := current, 0;
        } else if IsLong(disk[current]) {
          current := current + 1;
          groupCount := groupCount + 1;
        } else {
          break;
        }
      }
      AtStop(slots, total, h, done, groupStart - base, current - base);
      if groupCount > 0 {
        prefixes := prefixes + [Segment(groupStart, groupCount)];
      }
    }

    /** The loop of perform_full_scan, and what follows it. */
    method PerformFullScan()
      requires Volume(disk, k, total)
      requires prefixes == [] && suffixes == [] && analysed == []
      modifies this`prefixes, this`suffixes, this`analysed
      ensures analysed == Recovered(disk, k, total)
    {
      hide Head, IsShort, IsLong, IsDirectory, Whole, TailPart, HeadPart, AllInside, Contents, Resolved, Marked;
      var cluster := 0;
      NoneYet();
      while cluster < total
        invariant cluster <= total
        invariant var f := ScanTo(disk, k, total, cluster);
                  prefixes == f.prefixes && suffixes == Marked(f.suffixes) && analysed == f.analysed
      {
        var base := cluster * k;
        if IsDirectory(disk[base..base + k], total) {
          ScanDirectoryCluster(base);
          MarkedAppend(ScanTo(disk, k, total, cluster).suffixes, HeadPart(disk[base..base + k], total, base));
        }
        cluster := cluster + 1;
      }
      ScanInside(disk, k, total, total);
      ResolvePendingEntries(ScanTo(disk, k, total, total).suffixes);
    }

    /** resolve_pending_entries: a merged suffix is marked by replacing it with None. */
    method ResolvePendingEntries(ghost all: seq<Segment>)
      requires suffixes == Marked(all) && AllInside(disk, all) && AllInside(disk, prefixes)
      modifies this`suffixes, this`analysed
      ensures analysed == old(analysed) + Resolved(Contents(disk, prefixes), Contents(disk, all), total)
    {
      hide Match, Compatible, MarkedFor, Rows, Marked, First;
      ghost var ps, ss := Contents(disk, prefixes), Contents(disk, all);
      ghost var before := analysed;
      NoneMarked(all, ps, ss, total);
      var i := 0;
      while i < |prefixes|
        invariant i <= |prefixes| && suffixes == MarkedFor(all, ps, ss, total, i, 0)
        invariant analysed == before + Rows(ps, ss, total, i, |ss|)
      {
        OnePrefix(i, all, ps, ss);
        assert analysed == before + (Rows(ps, ss, total, i, |ss|) + Row(ps, ss, total, i, |ss|));
        RowsAre(ps, ss, total, i + 1);
        RoundMarked(all, ps, ss, total, i);
        i := i + 1;
      }
      ghost var merged := analysed;
      var j := 0;
      while j < |suffixes|
        invariant j <= |suffixes| && suffixes == MarkedFor(all, ps, ss, total, i, 0)
        invariant analysed == merged + Leftovers(ps, ss, total, j)
      {
        MarkedAt(all, ps, ss, total, i, 0, j);
        if suffixes[j].Some? && suffixes[j].value.count == 1 {
          AnalyzeEntry(disk[suffixes[j].value.at..suffixes[j].value.at + 1]);
        }
        j := j + 1;
      }
    }

    /** The inner loop, for prefix i. */
    method OnePrefix(i: nat, ghost all: seq<Segment>, ghost ps: seq<Slots>, ghost ss: seq<Slots>)
      requires AllInside(disk, all) && AllInside(disk, prefixes) && i < |prefixes|
      requires ps == Contents(disk, prefixes) && ss == Contents(disk, all)
      requires suffixes == MarkedFor(all, ps, ss, total, i, 0)
      modifies this`suffixes, this`analysed
      ensures suffixes == MarkedFor(all, ps, ss, total, i, |ss|)
      ensures analysed == old(analysed) + Row(ps, ss, total, i, |ss|)
    {
      hide Match, MarkedFor, First, AllInside, Contents;
      PartAt(disk, prefixes, i);
      var prefix := disk[prefixes[i].at..prefixes[i].at + prefixes[i].count];
      var j := 0;
      while j < |suffixes|
        invariant j <= |suffixes| && suffixes == MarkedFor(all, ps, ss, total, i, j)
        invariant analysed == old(analysed) + Row(ps, ss, total, i, j)
      {
        MarkedAt(all, ps, ss, total, i, j, j);
        MatchIsFirst(ps, ss[j], total, i);
        MarkNext(all, ps, ss, total, i, j);
        PartAt(disk, all, j);
        if suffixes[j].Some? {
          var suffix := disk[suffixes[j].value.at..suffixes[j].value.at + suffixes[j].value.count];
          if Match(prefix, suffix, total) {
            AnalyzeEntry(prefix + suffix);
            suffixes := suffixes[j := None];
          }
        }
        j := j + 1;
      }
    }
  }

  /** Suffixes merged with prefixes before i are marked, and those before j merged with prefix i. */
  function MarkedFor(all: seq<Segment>, ps: seq<Slots>, ss: seq<Slots>, total: nat, i: nat,
                     j: nat): (marked: seq<Option<Segment>>)
    requires Parts(ps) && Parts(ss) && |ss| == |all|
    ensures |marked| == |all|
  {
    seq(|all|, x requires 0 <= x < |all| =>
      var f := First(ps, ss[x], total);
      if f < i || (f == i && x < j) then None else Some(all[x]))
  }

  lemma NoneMarked(all: seq<Segment>, ps: seq<Slots>, ss: seq<Slots>, total: nat)
    requires Parts(ps) && Parts(ss) && |ss| == |all|
    ensures MarkedFor(all, ps, ss, total, 0, 0) == Marked(all) && Rows(ps, ss, total, 0, |ss|) == []
  {
    hide First;
  }

  lemma RowsAre(ps: seq<Slots>, ss: seq<Slots>, total: nat, i: nat)
    requires Parts(ps) && Parts(ss) && 0 < i <= |ps|
    ensures Rows(ps, ss, total, i, |ss|) == Rows(ps, ss, total, i - 1, |ss|) + Row(ps, ss, total, i - 1, |ss|)
  {
    hide First, Row;
  }

  lemma RoundMarked(all: seq<Segment>, ps: seq<Slots>, ss: seq<Slots>, total: nat, i: nat)
    requires Parts(ps) && Parts(ss) && |ss| == |all|
    ensures MarkedFor(all, ps, ss, total, i, |ss|) == MarkedFor(all, ps, ss, total, i + 1, 0)
  {
    hide First;
  }

  lemma MarkedAt(all: seq<Segment>, ps: seq<Slots>, ss: seq<Slots>, total: nat, i: nat, j: nat, x: nat)
    requires Parts(ps) && Parts(ss) && |ss| == |all| && x < |all|
    ensures var f := First(ps, ss[x], total);
            MarkedFor(all, ps, ss, total, i, j)[x] == if f < i || (f == i && x < j) then None else Some(all[x])
    ensures First(ps, ss[x], total) <= |ps|
  {
    hide Match;
  }

  lemma MarkNext(all: seq<Segment>, ps: seq<Slots>, ss: seq<Slots>, total: nat, i: nat, j: nat)
    requires Parts(ps) && Parts(ss) && |ss| == |all| && j < |all|
    ensures MarkedFor(all, ps, ss, total, i, j + 1) ==
              if First(ps, ss[j], total) == i then MarkedFor(all, ps, ss, total, i, j)[j := None]
              else MarkedFor(all, ps, ss, total, i, j)
  {
    hide First;
  }

  /** Once earlier prefixes have had their turn, a match is a first match. */
  lemma MatchIsFirst(ps: seq<Slots>, suffix: Slots, total: nat, i: nat)
    requires Parts(ps) && suffix != [] && i < |ps|
    ensures First(ps, suffix, total) >= i ==> (Match(ps[i], suffix, total) <==> First(ps, suffix, total) == i)
  {
    hide Match;
  }

  /** Suffixes none of which has been merged yet. */
  function Marked(segments: seq<Segment>): (marked: seq<Option<Segment>>)
    ensures |marked| == |segments|
  {
    seq(|segments|, i requires 0 <= i < |segments| => Some(segments[i]))
  }

  lemma PartAt(disk: Slots, segments: seq<Segment>, i: nat)
    requires AllInside(disk, segments) && i < |segments|
    ensures var s := segments[i];
            && s.count > 0 && s.at + s.count <= |disk|
            && |Contents(disk, segments)| == |segments| && Contents(disk, segments)[i] == disk[s.at..s.at + s.count]
  {
    assert Inside(disk, segments[i]);
  }

  lemma NoneYet()
    ensures Marked([]) == []
  {
  }

  lemma MarkedAppend(a: seq<Segment>, b: seq<Segment>)
    ensures Marked(a + b) == Marked(a) + Marked(b)
  {
  }

  /** The groups found so far end at `done`, the current one begins at `begin`, and the rest is still to be cut. */
  ghost predicate Progress(slots: Slots, total: nat, h: nat, done: seq<nat>, begin: nat, at: nat) {
    && h <= begin <= at <= |slots| && begin == BeginOf(h, done, |done|)
    && Ends(slots, total, h) == done + Ends(slots, total, at) && Stop(slots, total, h) == Stop(slots, total, at)
  }

  lemma SubSlots(disk: Slots, base: nat, k: nat, lo: nat, hi: nat)
    requires base + k <= |disk| && lo <= hi <= k
    ensures disk[base..base + k][lo..hi] == disk[base + lo..base + hi]
  {
    var inner, part := disk[base..base + k][lo..hi], disk[base + lo..base + hi];
    forall i | 0 <= i < hi - lo ensures inner[i] == part[i] {
      assert disk[base..base + k][lo + i] == disk[base + (lo + i)];
    }
  }

  lemma Begin(slots: Slots, total: nat, h: nat)
    ensures h <= |slots| ==>
              Progress(slots, total, h, [], h, h) && Ordered(slots, h, []) && GroupsOf(slots, h, []) == []
  {
  }

  /** One slot further: a short entry closes the group, a long one makes it longer. */
  lemma OneSlot(slots: Slots, total: nat, h: nat, done: seq<nat>, begin: nat, at: nat)
    requires Progress(slots, total, h, done, begin, at) && Ordered(slots, h, done) && at < |slots|
    ensures IsShort(slots[at], total) ==>
              && Progress(slots, total, h, done + [at + 1], at + 1, at + 1) && Ordered(slots, h, done + [at + 1])
              && GroupsOf(slots, h, done + [at + 1]) == GroupsOf(slots, h, done) + [slots[begin..at + 1]]
    ensures !IsShort(slots[at], total) && IsLong(slots[at]) ==> Progress(slots, total, h, done, begin, at + 1)
  {
    hide IsShort, IsLong, GroupsOf, Ordered;
    if IsShort(slots[at], total) {
      GroupDone(slots, h, done, begin, at + 1);
    }
  }

  /** At the end of the loop everything has been cut. */
  lemma AtStop(slots: Slots, total: nat, h: nat, done: seq<nat>, begin: nat, at: nat)
    requires slots != [] && h == Head(slots, total)
    requires h <= |slots| ==> Ordered(slots, h, done) && Progress(slots, total, h, done, begin, at)
    requires h <= |slots| ==> at == |slots| || (!IsShort(slots[at], total) && !IsLong(slots[at]))
    ensures h <= |slots| ==>
              && done == Ends(slots, total, h) && at == Stop(slots, total, h) && begin == LastBegin(slots, total)
              && GroupsOf(slots, h, done) == Whole(slots, total)
  {
    hide IsShort, IsLong, Head;
  }

  lemma GroupDone(slots: Slots, h: nat, done: seq<nat>, begin: nat, end: nat)
    requires Ordered(slots, h, done) && begin == BeginOf(h, done, |done|) && begin <= end <= |slots|
    ensures Ordered(slots, h, done + [end])
    ensures GroupsOf(slots, h, done + [end]) == GroupsOf(slots, h, done) + [slots[begin..end]]
  {
    var longer := done + [end];
    forall i | 0 <= i < |longer| ensures BeginOf(h, longer, i) <= longer[i] <= |slots| {
      if i < |done| {
        assert BeginOf(h, longer, i) == BeginOf(h, done, i);
      }
    }
  }
}
