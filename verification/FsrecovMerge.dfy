/** What becomes of the parts that were cut off at cluster boundaries. */
module FsrecovMerge {
  import opened FsrecovEntry
  import opened FsrecovCut

  ghost predicate Parts(parts: seq<Slots>) {
    forall i :: 0 <= i < |parts| ==> parts[i] != []
  }

  predicate Match(prefix: Slots, suffix: Slots, total: nat)
    requires prefix != [] && suffix != []
  {
    Compatible(prefix[0], suffix[0], total)
  }

  /** The lowest prefix compatible with a suffix, or the number of prefixes. */
  function First(prefixes: seq<Slots>, suffix: Slots, total: nat): (i: nat)
    requires Parts(prefixes) && suffix != []
    ensures i <= |prefixes| && (i < |prefixes| ==> Match(prefixes[i], suffix, total))
    ensures forall k :: 0 <= k < i ==> !Match(prefixes[k], suffix, total)
  {
    if prefixes == [] then 0
    else
      var i := First(prefixes[..|prefixes| - 1], suffix, total);
      if i < |prefixes| - 1 || Match(prefixes[|prefixes| - 1], suffix, total) then i else |prefixes|
  }

  // ----- the order of the nested loops -----

  /** Prefix i against the first n suffixes. */
  function Row(prefixes: seq<Slots>, suffixes: seq<Slots>, total: nat, i: nat, n: nat): seq<Slots>
    requires Parts(prefixes) && Parts(suffixes) && i < |prefixes| && n <= |suffixes|
  {
    if n == 0 then []
    else Row(prefixes, suffixes, total, i, n - 1)
         + (if First(prefixes, suffixes[n - 1], total) == i then [prefixes[i] + suffixes[n - 1]] else [])
  }

  function Rows(prefixes: seq<Slots>, suffixes: seq<Slots>, total: nat, i: nat, n: nat): seq<Slots>
    requires Parts(prefixes) && Parts(suffixes) && i <= |prefixes| && n <= |suffixes|
  {
    if i == 0 then [] else Rows(prefixes, suffixes, total, i - 1, n) + Row(prefixes, suffixes, total, i - 1, n)
  }

  function Leftovers(prefixes: seq<Slots>, suffixes: seq<Slots>, total: nat, n: nat): seq<Slots>
    requires Parts(prefixes) && Parts(suffixes) && n <= |suffixes|
  {
    if n == 0 then []
    else Leftovers(prefixes, suffixes, total, n - 1)
         + (if First(prefixes, suffixes[n - 1], total) == |prefixes| && |suffixes[n - 1]| == 1
             then [suffixes[n - 1]] else [])
  }

  /** Everything resolve_pending_entries analyses, in its order. */
  function Resolved(prefixes: seq<Slots>, suffixes: seq<Slots>, total: nat): seq<Slots>
    requires Parts(prefixes) && Parts(suffixes)
  {
    Rows(prefixes, suffixes, total, |prefixes|, |suffixes|) + Leftovers(prefixes, suffixes, total, |suffixes|)
  }

  // ----- suffix by suffix -----

  /** What is analysed on behalf of one suffix. */
  function Outcome(prefixes: seq<Slots>, suffix: Slots, total: nat): multiset<Slots>
    requires Parts(prefixes) && suffix != []
  {
    var i := First(prefixes, suffix, total);
    if i < |prefixes| then multiset{prefixes[i] + suffix}
    else if |suffix| == 1 then multiset{suffix}
    else multiset{}
  }

  function Outcomes(prefixes: seq<Slots>, suffixes: seq<Slots>, total: nat, n: nat): multiset<Slots>
    requires Parts(prefixes) && Parts(suffixes) && n <= |suffixes|
  {
    if n == 0 then multiset{}
    else Outcomes(prefixes, suffixes, total, n - 1) + Outcome(prefixes, suffixes[n - 1], total)
  }

  /** The merges for suffix n alone, by the first i prefixes. */
  function MergesOf(prefixes: seq<Slots>, suffix: Slots, total: nat, i: nat): multiset<Slots>
    requires Parts(prefixes) && suffix != [] && i <= |prefixes|
  {
    var f := First(prefixes, suffix, total);
    if f < i then multiset{prefixes[f] + suffix} else multiset{}
  }

  /** The merge of one suffix with prefix i, if that is its first. */
  function MergeWith(prefixes: seq<Slots>, suffix: Slots, total: nat, i: nat): multiset<Slots>
    requires Parts(prefixes) && suffix != [] && i < |prefixes|
  {
    if First(prefixes, suffix, total) == i then multiset{prefixes[i] + suffix} else multiset{}
  }

  lemma RowStep(prefixes: seq<Slots>, suffixes: seq<Slots>, total: nat, i: nat, n: nat)
    requires Parts(prefixes) && Parts(suffixes) && i < |prefixes| && 0 < n <= |suffixes|
    ensures multiset(Row(prefixes, suffixes, total, i, n)) ==
              multiset(Row(prefixes, suffixes, total, i, n - 1)) + MergeWith(prefixes, suffixes[n - 1], total, i)
  {
    hide First;
  }

  lemma RowsStep(prefixes: seq<Slots>, suffixes: seq<Slots>, total: nat, i: nat, n: nat)
    requires Parts(prefixes) && Parts(suffixes) && 0 < i <= |prefixes| && n <= |suffixes|
    ensures multiset(Rows(prefixes, suffixes, total, i, n)) ==
              multiset(Rows(prefixes, suffixes, total, i - 1, n)) + multiset(Row(prefixes, suffixes, total, i - 1, n))
  {
    hide First, Row;
  }

  lemma MergesStep(prefixes: seq<Slots>, suffix: Slots, total: nat, i: nat)
    requires Parts(prefixes) && suffix != [] && 0 < i <= |prefixes|
    ensures MergesOf(prefixes, suffix, total, i) ==
              MergesOf(prefixes, suffix, total, i - 1) + MergeWith(prefixes, suffix, total, i - 1)
  {
    hide First;
  }

  lemma Chained(x: multiset<Slots>, y: multiset<Slots>, x0: multiset<Slots>, y0: multiset<Slots>,
                dx: multiset<Slots>, dy: multiset<Slots>, sum: multiset<Slots>, d: multiset<Slots>)
    requires x == x0 + dx && y == y0 + dy && sum == x0 + y0 && d == dx + dy
    ensures x + y == sum + d
  {
  }

  lemma NoRows(prefixes: seq<Slots>, suffixes: seq<Slots>, total: nat, n: nat)
    requires Parts(prefixes) && Parts(suffixes) && 0 < n <= |suffixes|
    ensures Rows(prefixes, suffixes, total, 0, n) == Rows(prefixes, suffixes, total, 0, n - 1) == []
    ensures MergesOf(prefixes, suffixes[n - 1], total, 0) == multiset{}
  {
    hide First;
  }

  lemma {:induction false} OneMoreSuffix(prefixes: seq<Slots>, suffixes: seq<Slots>, total: nat, i: nat, n: nat)
    requires Parts(prefixes) && Parts(suffixes) && i <= |prefixes| && 0 < n <= |suffixes|
    ensures multiset(Rows(prefixes, suffixes, total, i, n)) ==
              multiset(Rows(prefixes, suffixes, total, i, n - 1)) + MergesOf(prefixes, suffixes[n - 1], total, i)
  {
    hide First, Row, Rows, MergeWith, MergesOf;
    if i == 0 {
      NoRows(prefixes, suffixes, total, n);
    } else {
      OneMoreSuffix(prefixes, suffixes, total, i - 1, n);
      RowsStep(prefixes, suffixes, total, i, n);
      RowsStep(prefixes, suffixes, total, i, n - 1);
      RowStep(prefixes, suffixes, total, i - 1, n);
      MergesStep(prefixes, suffixes[n - 1], total, i);
      Chained(multiset(Rows(prefixes, suffixes, total, i - 1, n)), multiset(Row(prefixes, suffixes, total, i - 1, n)),
              multiset(Rows(prefixes, suffixes, total, i - 1, n - 1)),
              multiset(Row(prefixes, suffixes, total, i - 1, n - 1)),
              MergesOf(prefixes, suffixes[n - 1], total, i - 1), MergeWith(prefixes, suffixes[n - 1], total, i - 1),
              multiset(Rows(prefixes, suffixes, total, i, n - 1)), MergesOf(prefixes, suffixes[n - 1], total, i));
    }
  }

  /** A suffix that no prefix matches is analysed alone if it is a single slot. */
  function Alone(prefixes: seq<Slots>, suffix: Slots, total: nat): multiset<Slots>
    requires Parts(prefixes) && suffix != []
  {
    if First(prefixes, suffix, total) == |prefixes| && |suffix| == 1 then multiset{suffix} else multiset{}
  }

  lemma LeftoversStep(prefixes: seq<Slots>, suffixes: seq<Slots>, total: nat, n: nat)
    requires Parts(prefixes) && Parts(suffixes) && 0 < n <= |suffixes|
    ensures multiset(Leftovers(prefixes, suffixes, total, n)) ==
              multiset(Leftovers(prefixes, suffixes, total, n - 1)) + Alone(prefixes, suffixes[n - 1], total)
  {
    hide First;
  }

  lemma OutcomeIs(prefixes: seq<Slots>, suffix: Slots, total: nat)
    requires Parts(prefixes) && suffix != []
    ensures Outcome(prefixes, suffix, total) ==
              MergesOf(prefixes, suffix, total, |prefixes|) + Alone(prefixes, suffix, total)
  {
    hide First;
    FirstInRange(prefixes, suffix, total);
  }

  /**
   The nested loops with their marking come to this: each suffix is merged with the lowest-index prefix compatible
   with it and no other, a one-entry suffix without one is analysed alone, and only longer suffixes without one are
   dropped. Nothing is analysed twice for the same suffix.
   */
  lemma {:induction false} ResolvedBySuffix(prefixes: seq<Slots>, suffixes: seq<Slots>, total: nat, n: nat)
    requires Parts(prefixes) && Parts(suffixes) && n <= |suffixes|
    ensures multiset(Rows(prefixes, suffixes, total, |prefixes|, n))
              + multiset(Leftovers(prefixes, suffixes, total, n)) ==
              Outcomes(prefixes, suffixes, total, n)
  {
    hide First, Row, Rows, Leftovers, Outcome, MergesOf, Alone;
    var p := |prefixes|;
    if n == 0 {
      NoSuffixes(prefixes, suffixes, total, p);
    } else {
      ResolvedBySuffix(prefixes, suffixes, total, n - 1);
      OneMoreSuffix(prefixes, suffixes, total, p, n);
      LeftoversStep(prefixes, suffixes, total, n);
      OutcomeIs(prefixes, suffixes[n - 1], total);
      Chained(multiset(Rows(prefixes, suffixes, total, p, n)), multiset(Leftovers(prefixes, suffixes, total, n)),
              multiset(Rows(prefixes, suffixes, total, p, n - 1)),
              multiset(Leftovers(prefixes, suffixes, total, n - 1)),
              MergesOf(prefixes, suffixes[n - 1], total, p), Alone(prefixes, suffixes[n - 1], total),
              Outcomes(prefixes, suffixes, total, n - 1), Outcome(prefixes, suffixes[n - 1], total));
    }
  }

  lemma ResolvedIsOutcomes(prefixes: seq<Slots>, suffixes: seq<Slots>, total: nat)
    requires Parts(prefixes) && Parts(suffixes)
    ensures multiset(Resolved(prefixes, suffixes, total)) == Outcomes(prefixes, suffixes, total, |suffixes|)
  {
    hide First, Rows, Leftovers, Outcomes;
    ResolvedBySuffix(prefixes, suffixes, total, |suffixes|);
  }

  lemma FirstInRange(prefixes: seq<Slots>, suffix: Slots, total: nat)
    requires Parts(prefixes) && suffix != []
    ensures First(prefixes, suffix, total) <= |prefixes|
  {
  }

  lemma {:induction false} NoSuffixes(prefixes: seq<Slots>, suffixes: seq<Slots>, total: nat, i: nat)
    requires Parts(prefixes) && Parts(suffixes) && i <= |prefixes|
    ensures Rows(prefixes, suffixes, total, i, 0) == [] && Leftovers(prefixes, suffixes, total, 0) == []
  {
    if i > 0 {
      NoSuffixes(prefixes, suffixes, total, i - 1);
    }
  }
}
