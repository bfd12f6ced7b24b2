/** The profiler: the table of system calls, the trace reader that fills it, and the display. */
module Sperf {
  import opened SperfTrace

  datatype Row = Row(name: Text, time: real)

  datatype Option<T> = None | Some(value: T)

  /** A displayed row; no percentage is defined while the total is zero. */
  datatype Shown = Shown(name: Text, percent: Option<int>)

  ghost predicate Unique(rows: seq<Row>) {
    forall i, j :: 0 <= i < j < |rows| ==> rows[i].name != rows[j].name
  }

  ghost predicate HasName(rows: seq<Row>, name: Text) {
    exists i :: 0 <= i < |rows| && rows[i].name == name
  }

  /** One row for each name, holding its time. */
  ghost predicate Matches(rows: seq<Row>, times: Times) {
    && Unique(rows)
    && (forall i :: 0 <= i < |rows| ==> rows[i].name in times && times[rows[i].name] == rows[i].time)
    && forall n :: n in times ==> HasName(rows, n)
  }

  function SumOf(rows: seq<Row>): real {
    if rows == [] then 0.0 else SumOf(rows[..|rows| - 1]) + rows[|rows| - 1].time
  }

  lemma {:induction false} RowCount(rows: seq<Row>, times: Times)
    requires Matches(rows, times)
    ensures |rows| == |times|
    decreases |rows|
  {
    hide Matches;
    if rows == [] {
      NoTimes(times);
    } else {
      var m := |rows| - 1;
      FewerMatch(rows, times);
      var rest := times - {rows[m].name};
      RowCount(rows[..m], rest);
      assert times.Keys == rest.Keys + {rows[m].name};
    }
  }

  lemma FewerMatch(rows: seq<Row>, times: Times)
    requires Matches(rows, times) && rows != []
    ensures rows[|rows| - 1].name in times
    ensures Matches(rows[..|rows| - 1], times - {rows[|rows| - 1].name})
  {
    var m := |rows| - 1;
    var fewer, rest := rows[..m], times - {rows[m].name};
    assert HasName(rows, rows[m].name);
    forall n | n in rest ensures HasName(fewer, n) {
      assert HasName(rows, n);
      var i :| 0 <= i < |rows| && rows[i].name == n;
      assert fewer[i].name == n;
    }
  }

  lemma NoTimes(times: Times)
    requires Matches([], times)
    ensures |times| == 0
  {
    assert forall n :: !HasName([], n);
    assert times.Keys == {};
  }

  lemma {:induction false} SumUpdated(rows: seq<Row>, i: nat, row: Row)
    requires i < |rows|
    ensures SumOf(rows[i := row]) == SumOf(rows) - rows[i].time + row.time
    decreases |rows|
  {
    var m, after := |rows| - 1, rows[i := row];
    if i < m {
      assert after[..m] == rows[..m][i := row];
      SumUpdated(rows[..m], i, row);
    } else {
      assert after[..m] == rows[..m];
    }
  }

  lemma SumAppend(rows: seq<Row>, row: Row)
    ensures SumOf(rows + [row]) == SumOf(rows) + row.time
  {
    assert (rows + [row])[..|rows|] == rows;
  }

  lemma ExchangeMatches(rows: seq<Row>, times: Times, i: nat, j: nat)
    requires i < |rows| && j < |rows| && Matches(rows, times)
    ensures Matches(rows[i := rows[j]][j := rows[i]], times)
  {
    var after := rows[i := rows[j]][j := rows[i]];
    forall n | n in times ensures HasName(after, n) {
      assert HasName(rows, n);
      var k :| 0 <= k < |rows| && rows[k].name == n;
      assert after[if k == i then j else if k == j then i else k].name == n;
    }
  }

  /** Exchanging two rows changes neither the sum nor what the table says. */
  lemma Exchange(rows: seq<Row>, times: Times, i: nat, j: nat)
    requires i < |rows| && j < |rows| && Matches(rows, times)
    ensures var after := rows[i := rows[j]][j := rows[i]]; Matches(after, times) && SumOf(after) == SumOf(rows)
  {
    hide Matches, SumOf;
    ExchangeMatches(rows, times, i, j);
    SumUpdated(rows, i, rows[j]);
    SumUpdated(rows[i := rows[j]], j, rows[i]);
  }

  // ----- the percentages -----

  /** The cast truncates, and nothing here is negative. */
  function Percent(time: real, total: real): int
    requires total > 0.0
  {
    (time * 100.0 / total).Floor
  }

  /** The whole percentage p of a time: the largest number whose share of the total the time still reaches. */
  ghost predicate WholePercent(p: Option<int>, time: real, total: real) {
    p.Some? && p.value as real * total <= time * 100.0 < (p.value + 1) as real * total
  }

  lemma PercentIsWhole(time: real, total: real)
    requires total > 0.0
    ensures WholePercent(Some(Percent(time, total)), time, total)
  {
    PercentBound(time, total);
    Reached(time * 100.0, total, (Percent(time, total) + 1) as real);
  }

  lemma Reached(x: real, total: real, p: real)
    requires total > 0.0 && x / total < p
    ensures x < p * total
  {
    var q := x / total;
    assert x == q * total;
    LessThan(q, p, total);
  }

  lemma ShownWhole(lines: seq<Shown>, rows: seq<Row>, total: real)
    requires total > 0.0 && |lines| <= |rows|
    requires forall k :: 0 <= k < |lines| ==> lines[k].percent == Some(Percent(rows[k].time, total))
    ensures forall k :: 0 <= k < |lines| ==> WholePercent(lines[k].percent, rows[k].time, total)
  {
    hide Percent, WholePercent;
    forall k | 0 <= k < |lines| ensures WholePercent(lines[k].percent, rows[k].time, total) {
      PercentIsWhole(rows[k].time, total);
    }
  }

  lemma LessThan(p: real, q: real, n: real)
    requires p < q && n > 0.0
    ensures p * n < q * n
  {
  }

  function PercentSum(rows: seq<Row>, total: real): int
    requires total > 0.0
  {
    if rows == [] then 0 else PercentSum(rows[..|rows| - 1], total) + Percent(rows[|rows| - 1].time, total)
  }

  ghost predicate NonNegative(rows: seq<Row>) {
    forall i :: 0 <= i < |rows| ==> rows[i].time >= 0.0
  }

  lemma PercentBound(time: real, total: real)
    requires total > 0.0
    ensures Percent(time, total) as real * total <= time * 100.0
  {
    var p := Percent(time, total) as real;
    var q := time * 100.0 / total;
    assert p <= q;
    assert q * total == time * 100.0;
    LessTimes(p, q, total);
  }

  lemma LessTimes(p: real, q: real, n: real)
    requires p <= q && n > 0.0
    ensures p * n <= q * n
  {
  }

  lemma {:induction false} PercentsBound(rows: seq<Row>, total: real)
    requires total > 0.0
    ensures PercentSum(rows, total) as real * total <= SumOf(rows) * 100.0
    decreases |rows|
  {
    if rows != [] {
      var m := |rows| - 1;
      PercentsBound(rows[..m], total);
      PercentBound(rows[m].time, total);
      Distributes(PercentSum(rows[..m], total), Percent(rows[m].time, total), total);
    }
  }

  lemma Distributes(a: int, b: int, n: real)
    ensures (a + b) as real * n == a as real * n + b as real * n
  {
  }

  lemma {:induction false} SumTake(rows: seq<Row>, n: nat)
    requires n <= |rows| && NonNegative(rows)
    ensures 0.0 <= SumOf(rows[..n]) <= SumOf(rows)
    decreases |rows|
  {
    var m := |rows| - 1;
    if n == |rows| {
      assert rows[..n] == rows;
      if n > 0 {
        SumTake(rows[..m], m);
        assert rows[..m][..m] == rows[..m];
      }
    } else {
      SumTake(rows[..m], n);
      assert rows[..m][..n] == rows[..n];
    }
  }

  /** The displayed whole percentages of any n rows at the top come to at most 100. */
  lemma PercentsAtMost100(rows: seq<Row>, total: real, n: nat)
    requires n <= |rows| && NonNegative(rows) && total > 0.0 && SumOf(rows) == total
    ensures PercentSum(rows[..n], total) <= 100
  {
    hide PercentSum, SumOf, NonNegative;
    PercentsBound(rows[..n], total);
    SumTake(rows, n);
    Cancel(PercentSum(rows[..n], total), SumOf(rows[..n]), total);
  }

  lemma Cancel(p: int, s: real, total: real)
    requires total > 0.0 && s <= total && p as real * total <= s * 100.0
    ensures p <= 100
  {
    if p > 100 {
      LessTimes(101.0, p as real, total);
    }
  }

  // ----- the profiler -----

  lemma {:induction false} CStrOf(s: Text, t: Text)
    ensures CStr(s + [0] + t) == CStr(s)
    decreases |s|
  {
    if s != [] {
      assert (s + [0] + t)[1..] == s[1..] + [0] + t;
      CStrOf(s[1..], t);
    }
  }

  lemma TableAfter(rows: seq<Row>, times: Times, i: nat, name: Text, time: real)
    requires Matches(rows, times) && i < |rows| && rows[i].name == name
    ensures var row := Row(name, rows[i].time + time);
            Matches(rows[i := row], Add(times, name, time)) && SumOf(rows[i := row]) == SumOf(rows) + time
  {
    var after := rows[i := Row(name, rows[i].time + time)];
    SumUpdated(rows, i, after[i]);
    forall n | n in Add(times, name, time) ensures HasName(after, n) {
      assert HasName(rows, n);
      var k :| 0 <= k < |rows| && rows[k].name == n;
      assert after[k].name == n;
    }
  }

  lemma TableGrown(rows: seq<Row>, times: Times, name: Text, time: real)
    requires Matches(rows, times) && name !in times
    ensures Matches(rows + [Row(name, time)], Add(times, name, time))
    ensures SumOf(rows + [Row(name, time)]) == SumOf(rows) + time
  {
    var after := rows + [Row(name, time)];
    SumAppend(rows, Row(name, time));
    forall n | n in Add(times, name, time) ensures HasName(after, n) {
      if n == name {
        assert after[|rows|].name == n;
      } else {
        assert HasName(rows, n);
        var k :| 0 <= k < |rows| && rows[k].name == n;
        assert after[k].name == n;
      }
    }
  }

  class Profiler {
    const sysTrace: array<Row>
    var nrSysTrace: nat
    var totalTime: real
    var shown: seq<seq<Shown>>

    ghost predicate Valid()
      reads this, sysTrace
    {
      && sysTrace.Length == ROWS && nrSysTrace <= ROWS
      && NonNegative(sysTrace[..nrSysTrace]) && SumOf(sysTrace[..nrSysTrace]) == totalTime
    }

    /** The table says what `times` says. */
    ghost predicate Tells(times: Times)
      requires nrSysTrace <= sysTrace.Length
      reads this, sysTrace
    {
      Matches(sysTrace[..nrSysTrace], times)
    }

    constructor ()
      ensures Valid() && Tells(map[]) && totalTime == 0.0 && shown == [] && fresh(sysTrace)
    {
      sysTrace := new Row[ROWS](_ => Row([], 0.0));
      nrSysTrace, totalTime, shown := 0, 0.0, [];
    }

    /** find_trace, with the number of rows in place of NULL. */
    method FindTrace(name: Text) returns (i: nat)
      requires nrSysTrace <= sysTrace.Length
      ensures i <= nrSysTrace && (i < nrSysTrace ==> sysTrace[i].name == name)
      ensures i == nrSysTrace ==> !HasName(sysTrace[..nrSysTrace], name)
    {
      i := 0;
      while i < nrSysTrace
        invariant i <= nrSysTrace && forall k :: 0 <= k < i ==> sysTrace[k].name != name
      {
        if name == sysTrace[i].name {
          return;
        }
        i := i + 1;
      }
    }

    /** update_trace; it fails where a row beyond the end of the array would be written. */
    method UpdateTrace(name: Text, time: real, ghost times: Times) returns (ok: bool)
      requires Valid() && Tells(times) && time >= 0.0
      modifies sysTrace, this`nrSysTrace, this`totalTime
      ensures ok <==> name in times || |times| < ROWS
      ensures ok ==> Valid() && Tells(Add(times, name, time)) && totalTime == old(totalTime) + time
    {
      hide Matches, SumOf, HasName;
      ghost var rows := sysTrace[..nrSysTrace];
      RowCount(rows, times);
      var i := FindTrace(name);
      Found(rows, times, name, i);
      if i == nrSysTrace {
        if nrSysTrace == ROWS {
          return false;
        }
        TableGrown(rows, times, name, time);
        sysTrace[i] := Row(name, 0.0);
        nrSysTrace := nrSysTrace + 1;
        sysTrace[i] := Row(name, sysTrace[i].time + time);
        assert sysTrace[..nrSysTrace] == rows + [Row(name, time)];
      } else {
        TableAfter(rows, times, i, name, time);
        sysTrace[i] := Row(name, sysTrace[i].time + time);
        assert sysTrace[..nrSysTrace] == rows[i := Row(name, rows[i].time + time)];
      }
      totalTime := totalTime + time;
      ok := true;
    }

    lemma Found(rows: seq<Row>, times: Times, name: Text, i: nat)
      requires Matches(rows, times) && i <= |rows| && (i < |rows| ==> rows[i].name == name)
      requires i == |rows| ==> !HasName(rows, name)
      ensures name in times <==> i < |rows|
    {
    }

    /** qsort with a comparison that never says "less": any exchanges may come of it. */
    method Sort(swaps: seq<(nat, nat)>, ghost times: Times)
      requires Valid() && Tells(times)
      modifies sysTrace
      ensures Valid() && Tells(times)
    {
      hide Matches, SumOf;
      for k := 0 to |swaps|
        invariant Valid() && Tells(times)
      {
        var (i, j) := swaps[k];
        if i < nrSysTrace && j < nrSysTrace {
          ghost var rows := sysTrace[..nrSysTrace];
          Exchange(rows, times, i, j);
          sysTrace[i], sysTrace[j] := sysTrace[j], sysTrace[i];
          assert sysTrace[..nrSysTrace] == rows[i := rows[j]][j := rows[i]];
        }
      }
    }

    /** display_trace: at most five rows, whose percentages come to at most 100. */
    method DisplayTrace(swaps: seq<(nat, nat)>, ghost times: Times)
      requires Valid() && Tells(times)
      modifies sysTrace, this`shown
      ensures Valid() && Tells(times)
      ensures |shown| == |old(shown)| + 1 && shown[..|old(shown)|] == old(shown)
      ensures var last := shown[|old(shown)|];
              && |last| == (if nrSysTrace < 5 then nrSysTrace else 5)
              && (forall k :: 0 <= k < |last| ==> last[k].name == sysTrace[k].name)
              && (totalTime > 0.0 ==>
                    && (forall k :: 0 <= k < |last| ==>
                          && last[k].percent == Some(Percent(sysTrace[k].time, totalTime))
                          && WholePercent(last[k].percent, sysTrace[k].time, totalTime))
                    && PercentSum(sysTrace[..|last|], totalTime) <= 100)
    {
      hide WholePercent, PercentSum;
      Sort(swaps, times);
      var maxLine := if nrSysTrace < 5 then nrSysTrace else 5;
      var lines: seq<Shown> := [];
      for i := 0 to maxLine
        invariant |lines| == i
        invariant forall k :: 0 <= k < i ==>
          lines[k] == Shown(sysTrace[k].name,
                         if totalTime > 0.0 then Some(Percent(sysTrace[k].time, totalTime)) else None)
      {
        var percent := if totalTime > 0.0 then Some(Percent(sysTrace[i].time, totalTime)) else None;
        lines := lines + [Shown(sysTrace[i].name, percent)];
      }
      shown := shown + [lines];
      if totalTime > 0.0 {
        PercentsAtMost100(sysTrace[..nrSysTrace], totalTime, maxLine);
        assert sysTrace[..nrSysTrace][..maxLine] == sysTrace[..maxLine];
        ShownWhole(lines, sysTrace[..maxLine], totalTime);
      }
    }

    /** SKIP_WHITESPACE, from position `at`: the position of the character it stops at. */
    method SkipWhitespace(input: Text, at: nat) returns (p: nat)
      ensures p == SkipSpaces(input, at)
    {
      p := at;
      while Get(input, p) == SPACE
        invariant at <= p && SkipSpaces(input, at) == SkipSpaces(input, p)
        decreases |input| - p
      {
        p := p + 1;
      }
    }

    /** The loop over `<...>`: digits and dots go to the buffer. It fails where it would write past the buffer's end. */
    method ReadDigits(input: Text, at: nat, buffer: array<Char>, pos: nat) returns (ok: bool, p: nat, pos': nat)
      requires buffer.Length == BUFFER && pos <= BUFFER
      modifies buffer
      ensures match ReadTime(input, at, old(buffer[..pos]))
              case TooLong => !ok
              case TimeRead(q, text) => ok && p == q && pos' <= BUFFER && buffer[..pos'] == text
    {
      p, pos', ok := at, pos, true;
      ghost var r := ReadTime(input, at, buffer[..pos]);
      var c := Get(input, p);
      while c != GREATER && IsTimeChar(c)
        invariant pos' <= BUFFER && c == Get(input, p) && ReadTime(input, p, buffer[..pos']) == r
        decreases |input| - p
      {
        if pos' == BUFFER {
          return false, p, pos';
        }
        ghost var before := buffer[..pos'];
        buffer[pos'] := c;
        pos' := pos' + 1;
        assert buffer[..pos'] == before + [c];
        p := p + 1;
        c := Get(input, p);
      }
    }

    /** Outcomes of the `<` branch: a write past an array, a false alarm, or a line that was added to the table. */
    method TimeField(input: Text, at: nat, buffer: array<Char>, pos: nat, name: Text, sort: Option<seq<(nat, nat)>>,
                     ghost times: Times)
      returns (ok: bool, p: nat, pos': nat, phase: Phase, ghost times': Times)
      requires buffer.Length == BUFFER && pos <= BUFFER && Valid() && Tells(times)
      modifies buffer, sysTrace, this`nrSysTrace, this`totalTime, this`shown
      ensures var r := ReadTime(input, at, old(buffer[..pos]));
              if r.TooLong? ||
                    (Get(input, r.at + 1) == NEWLINE && (|r.buffer| == BUFFER || (name !in times && |times| == ROWS)))
              then !ok
              else && ok && p == r.at + 2 && pos' <= BUFFER && Valid() && Tells(times')
                   && if Get(input, r.at + 1) == NEWLINE
                      then phase == Initial && pos' == 0 && times' == Add(times, name, Atof(r.buffer))
                           && totalTime == old(totalTime) + Atof(r.buffer)
                      else phase == Processing && buffer[..pos'] == r.buffer
                            && times' == times && totalTime == old(totalTime)
    {
      hide Atof, ReadTime;
      ghost var r := ReadTime(input, at, buffer[..pos]);
      phase, times' := Processing, times;
      ok, p, pos' := ReadDigits(input, at, buffer, pos);
      if !ok {
        return;
      }
      p := p + 2;
      if Get(input, p - 1) == NEWLINE {
        if pos' == BUFFER {
          return false, p, pos', phase, times';
        }
        buffer[pos'] := 0;
        AtofOfBuffer(buffer, pos', r.buffer);
        AtofNonNegative(r.buffer);
        RowCount(sysTrace[..nrSysTrace], times);
        ok := UpdateTrace(name, Atof(buffer[..pos']), times);
        if ok {
          times' := Add(times, name, Atof(r.buffer));
          if sort.Some? {
            DisplayTrace(sort.value, times');
          }
          phase, pos' := Initial, 0;
        }
      }
    }

    lemma AtofOfBuffer(buffer: array<Char>, n: nat, text: Text)
      requires n < buffer.Length && |text| == n && forall k :: 0 <= k < n ==> buffer[k] == text[k]
      ensures buffer[..n] == text
    {
    }

    /**
     process_parent: the input is what strace writes; `sorts` says after which lines the clock has ticked, and what
     qsort does then; `lastSort` what it does at the end. It fails where it would write past the end of an array.
     */
    method ProcessParent(input: Text, sorts: seq<Option<seq<(nat, nat)>>>, lastSort: seq<(nat, nat)>)
      returns (ok: bool, ghost times: Times)
      requires Valid() && Tells(map[]) && totalTime == 0.0
      modifies this, sysTrace
      ensures match Read(input, 0, Initial, [], [], map[], 0.0)
              case Overrun => !ok
              case Summed(t, total) => ok && times == t && Valid() && Tells(t) && totalTime == total
    {
      hide Read, SkipSpaces, Matches, SumOf, CStr, ReadTime, Atof;
      ghost var goal := Read(input, 0, Initial, [], [], map[], 0.0);
      var buffer := new Char[BUFFER](_ => 0);
      var at: nat, pos: nat, phase, lines: nat := 0, 0, Initial, 0;
      var name: Text := [];
      times := map[];
      ok := true;
      var c := Get(input, at);
      while c != EOF
        invariant c == Get(input, at) && buffer.Length == BUFFER && pos <= BUFFER && (phase == Initial ==> pos < BUFFER)
        invariant Valid() && Tells(times) && fresh(buffer)
        invariant Read(input, at, phase, buffer[..pos], name, times, totalTime) == goal
        decreases |input| - at
      {
        ReadStep(input, at, phase, buffer[..pos], name, times, totalTime);
        at := at + 1;
        match phase {
          case Initial =>
            if c != OPEN {
              ghost var before := buffer[..pos];
              buffer[pos] := c;
              pos := pos + 1;
              assert buffer[..pos] == before + [c];
              if pos == BUFFER {
                pos := 0;
              }
            } else {
              buffer[pos] := 0;
              name := CStr(buffer[..]);
              CStrOf(buffer[..pos], buffer[pos + 1..]);
              assert buffer[..] == buffer[..pos] + [0] + buffer[pos + 1..];
              phase, pos := Processing, 0;
            }
          case Processing =>
            if c == CLOSE {
              at := SkipWhitespace(input, at);
              if Get(input, at) == EQUALS {
                phase := Final;
              }
              at := at + 1;
            }
          case Final =>
            if c == LESS {
              ok, at, pos, phase, times := TimeField(
                input, at, buffer, pos, name, if lines < |sorts| then sorts[lines] else None, times);
              if !ok {
                return;
              }
              lines := lines + 1;
            }
        }
        c := Get(input, at);
      }
      ReadEnd(input, at, phase, buffer[..pos], name, times, totalTime);
      DisplayTrace(lastSort, times);
    }
  }

  lemma ReadEnd(input: Text, at: nat, phase: Phase, buffer: Text, name: Text, times: Times, total: real)
    requires BufferOk(phase, buffer) && Get(input, at) == EOF
    ensures Read(input, at, phase, buffer, name, times, total) == Summed(times, total)
  {
  }

  /** One turn of the loop, as the reader's definition has it. */
  lemma ReadStep(input: Text, at: nat, phase: Phase, buffer: Text, name: Text, times: Times, total: real)
    requires BufferOk(phase, buffer) && Get(input, at) != EOF
    ensures var c := Get(input, at);
            Read(input, at, phase, buffer, name, times, total) ==
            match phase
            case Initial =>
              if c != OPEN then
                Read(input, at + 1, Initial, if |buffer| + 1 == BUFFER then [] else buffer + [c], name, times, total)
              else Read(input, at + 1, Processing, [], CStr(buffer), times, total)
            case Processing =>
              if c == CLOSE then
                var p := SkipSpaces(input, at + 1);
                Read(input, p + 1, if Get(input, p) == EQUALS then Final else Processing, buffer, name, times, total)
              else Read(input, at + 1, Processing, buffer, name, times, total)
            case Final =>
              if c == LESS then
                var r := ReadTime(input, at + 1, buffer);
                if r.TooLong? then Overrun
                else if Get(input, r.at + 1) != NEWLINE then
                  Read(input, r.at + 2, Processing, r.buffer, name, times, total)
                else if |r.buffer| == BUFFER || (name !in times && |times| == ROWS) then Overrun
                else
                  var t := Atof(r.buffer);
                  Read(input, r.at + 2, Initial, [], name, Add(times, name, t), total + t)
              else Read(input, at + 1, Final, buffer, name, times, total)
  {
    hide SkipSpaces, ReadTime, Atof, CStr;
  }

  /**
   The whole program on well-formed lines: one row for each distinct name with that name's summed time, rows that sum
   to the total; and it stays inside its arrays exactly when there are no more than 400 names.
   */
  method Profile(lines: seq<Line>, sorts: seq<Option<seq<(nat, nat)>>>, lastSort: seq<(nat, nat)>) returns (ok: bool,
                 p: Profiler)
    requires forall i :: 0 <= i < |lines| ==> LineOk(lines[i])
    ensures ok <==> |TimesOf(lines, map[])| <= ROWS
    ensures ok ==> p.Valid() && p.Tells(TimesOf(lines, map[])) && p.totalTime == TotalOf(lines)
  {
    hide LineOk, Atof, CStr, Read, TextOfAll;
    p := new Profiler();
    var input := TextOfAll(lines);
    assert input[0..] == input;
    LinesRead(input, 0, lines, [], map[], 0.0);
    ghost var times;
    ok, times := p.ProcessParent(input, sorts, lastSort);
  }
}
