/**
 The trace reader as a function of its input: what the character loop makes of any bytes, and what it makes of
 well-formed lines.
 */
module SperfTrace {
  /** A byte as the signed char that getchar is stored in. */
  type Char = c: int | -128 <= c < 128

  type Text = seq<Char>

  const EOF: Char := -1
  const OPEN: Char := 40      // (
  const CLOSE: Char := 41     // )
  const SPACE: Char := 32
  const EQUALS: Char := 61    // =
  const LESS: Char := 60      // <
  const GREATER: Char := 62   // >
  const NEWLINE: Char := 10
  const DOT: Char := 46
  const BUFFER: nat := 32
  const ROWS: nat := 400

  predicate IsDigit(c: Char) {
    48 <= c <= 57
  }

  predicate IsTimeChar(c: Char) {
    c == DOT || IsDigit(c)
  }

  /** getchar at a position: beyond the input it is EOF again and again. */
  function Get(input: Text, at: nat): Char {
    if at < |input| then input[at] else EOF
  }

  /** A C string: what comes before the first NUL. */
  function CStr(s: Text): Text {
    if s == [] || s[0] == 0 then [] else [s[0]] + CStr(s[1..])
  }

  // ----- atof -----

  function WholeOf(s: Text, value: real): real {
    if s == [] || !IsDigit(s[0]) then value else WholeOf(s[1..], value * 10.0 + (s[0] - 48) as real)
  }

  function AfterDigits(s: Text): Text {
    if s == [] || !IsDigit(s[0]) then s else AfterDigits(s[1..])
  }

  function FractionOf(s: Text, unit: real): real {
    if s == [] || !IsDigit(s[0]) then 0.0 else (s[0] - 48) as real * unit + FractionOf(s[1..], unit / 10.0)
  }

  /** atof of digits and dots, exactly. */
  function Atof(s: Text): real {
    var rest := AfterDigits(s);
    WholeOf(s, 0.0) + (if rest != [] && rest[0] == DOT then FractionOf(rest[1..], 0.1) else 0.0)
  }

  lemma {:induction false} WholeNonNegative(s: Text, value: real)
    requires value >= 0.0
    ensures WholeOf(s, value) >= 0.0
    decreases |s|
  {
    if s != [] && IsDigit(s[0]) {
      WholeNonNegative(s[1..], value * 10.0 + (s[0] - 48) as real);
    }
  }

  lemma {:induction false} FractionNonNegative(s: Text, unit: real)
    requires unit > 0.0
    ensures FractionOf(s, unit) >= 0.0
    decreases |s|
  {
    if s != [] && IsDigit(s[0]) {
      FractionNonNegative(s[1..], unit / 10.0);
    }
  }

  lemma AtofNonNegative(s: Text)
    ensures Atof(s) >= 0.0
  {
    WholeNonNegative(s, 0.0);
    var rest := AfterDigits(s);
    if rest != [] && rest[0] == DOT {
      FractionNonNegative(rest[1..], 0.1);
    }
  }

  predicate AllDigits(s: Text) {
    forall k :: 0 <= k < |s| ==> IsDigit(s[k])
  }

  function DigitOf(c: Char): int {
    c as int - 48
  }

  /** The number that digits write in base ten. */
  function NumberOf(s: Text): int {
    if s == [] then 0 else 10 * NumberOf(s[..|s| - 1]) + DigitOf(s[|s| - 1])
  }

  function Power10(n: nat): int {
    if n == 0 then 1 else 10 * Power10(n - 1)
  }

  function Shifted(a: int, p: int, b: int): int {
    a * p + b
  }

  lemma ShiftMore(a: int, p: int, b: int, e: int)
    ensures 10 * Shifted(a, p, b) + e == Shifted(a, 10 * p, 10 * b + e)
    ensures Shifted(10 * a + e, p, b) == Shifted(a, 10 * p, Shifted(e, p, b))
  {
    assert a * (10 * p) == 10 * (a * p);
    assert (10 * a + e) * p == 10 * (a * p) + e * p;
  }

  lemma ShiftBasics(a: int, p: int, b: int)
    ensures Shifted(a, 1, b) == a + b && Shifted(0, p, b) == b
  {
  }

  lemma {:induction false} NumberConcat(w: Text, f: Text)
    ensures NumberOf(w + f) == Shifted(NumberOf(w), Power10(|f|), NumberOf(f))
    decreases |f|
  {
    hide Shifted;
    ShiftBasics(NumberOf(w), 1, 0);
    if f == [] {
      assert w + f == w;
    } else {
      var n := |f| - 1;
      assert (w + f)[..|w + f| - 1] == w + f[..n];
      NumberConcat(w, f[..n]);
      ShiftMore(NumberOf(w), Power10(n), NumberOf(f[..n]), DigitOf(f[n]));
    }
  }

  lemma FirstDigit(s: Text)
    requires s != []
    ensures NumberOf(s) == Shifted(DigitOf(s[0]), Power10(|s| - 1), NumberOf(s[1..]))
  {
    hide Shifted, NumberOf;
    assert [s[0]] + s[1..] == s;
    NumberConcat([s[0]], s[1..]);
    OneDigit(s[0]);
  }

  lemma OneDigit(c: Char)
    ensures NumberOf([c]) == DigitOf(c)
  {
    assert [c][..0] == [];
  }

  ghost predicate NoDigitFirst(s: Text) {
    s == [] || !IsDigit(s[0])
  }

  lemma {:induction false} DigitsEnd(w: Text, rest: Text)
    requires AllDigits(w) && NoDigitFirst(rest)
    ensures AfterDigits(w + rest) == rest
    decreases |w|
  {
    if w == [] {
      assert w + rest == rest;
    } else {
      assert (w + rest)[1..] == w[1..] + rest;
      DigitsEnd(w[1..], rest);
    }
  }

  lemma WholeStep(s: Text, value: int)
    requires s != [] && IsDigit(s[0])
    ensures WholeOf(s, value as real) == WholeOf(s[1..], (10 * value + DigitOf(s[0])) as real)
  {
    assert value as real * 10.0 + (s[0] - 48) as real == (10 * value + DigitOf(s[0])) as real;
  }

  lemma {:induction false} WholeIs(w: Text, rest: Text, value: int)
    requires AllDigits(w) && NoDigitFirst(rest)
    ensures WholeOf(w + rest, value as real) == Shifted(value, Power10(|w|), NumberOf(w)) as real
    decreases |w|
  {
    hide Shifted, WholeOf;
    if w == [] {
      assert w + rest == rest;
      WholeOfNone(rest, value as real);
      ShiftBasics(value, 1, 0);
    } else {
      assert (w + rest)[1..] == w[1..] + rest;
      WholeStep(w + rest, value);
      WholeIs(w[1..], rest, 10 * value + DigitOf(w[0]));
      FirstDigit(w);
      ShiftMore(value, Power10(|w| - 1), NumberOf(w[1..]), DigitOf(w[0]));
    }
  }

  lemma WholeOfNone(s: Text, value: real)
    requires NoDigitFirst(s)
    ensures WholeOf(s, value) == value
  {
  }

  lemma {:induction false} FractionIs(f: Text, more: Text, unit: real)
    requires AllDigits(f) && NoDigitFirst(more)
    ensures Scaled(FractionOf(f + more, unit), Power10(|f|)) == Scaled(10.0 * unit, NumberOf(f))
    decreases |f|
  {
    hide Scaled, Shifted;
    if f == [] {
      assert f + more == more;
      ScaledZero(10.0 * unit, 1);
    } else {
      var d, p, n := DigitOf(f[0]), Power10(|f| - 1), NumberOf(f[1..]);
      assert (f + more)[1..] == f[1..] + more;
      FractionIs(f[1..], more, unit / 10.0);
      FirstDigit(f);
      ScaledDigit(d, p, n, unit, FractionOf(f[1..] + more, unit / 10.0));
    }
  }

  function Scaled(x: real, p: int): real {
    x * p as real
  }

  lemma ScaledZero(x: real, p: int)
    ensures Scaled(x, 0) == 0.0 && Scaled(0.0, p) == 0.0
  {
  }

  lemma ScaledDigit(d: int, p: int, n: int, unit: real, rest: real)
    requires Scaled(rest, p) == Scaled(10.0 * (unit / 10.0), n)
    ensures Scaled(d as real * unit + rest, 10 * p) == Scaled(10.0 * unit, Shifted(d, p, n))
  {
    var dr, pr, nr := d as real, p as real, n as real;
    assert rest * pr == unit * nr;
    assert (10 * p) as real == 10.0 * pr;
    RealProduct(d, p);
    assert Shifted(d, p, n) as real == dr * pr + nr;
    Spread(dr, pr, nr, unit, rest);
  }

  lemma RealProduct(a: int, b: int)
    ensures (a * b) as real == a as real * b as real
  {
  }

  lemma Spread(d: real, p: real, n: real, unit: real, rest: real)
    requires rest * p == unit * n
    ensures (d * unit + rest) * (10.0 * p) == 10.0 * unit * (d * p + n)
  {
    assert (d * unit + rest) * (10.0 * p) == 10.0 * (d * unit * p) + 10.0 * (rest * p);
    assert 10.0 * unit * (d * p + n) == 10.0 * (d * unit * p) + 10.0 * (unit * n);
  }

  /**
   Digits, a dot and digits read as the decimal number they write, whatever comes after them; so do digits alone.
   */
  lemma AtofIsDecimal(w: Text, f: Text, more: Text)
    requires AllDigits(w) && AllDigits(f) && NoDigitFirst(more)
    ensures Atof(w) == NumberOf(w) as real
    ensures Atof(w + [DOT] + f + more) * Power10(|f|) as real == NumberOf(w + f) as real
  {
    hide WholeOf, FractionOf, AfterDigits, NumberOf, Shifted, Scaled, Power10;
    AtofOfDigits(w);
    AtofOfDecimal(w, f, more);
    WholeIs(w, [DOT] + (f + more), 0);
    ShiftBasics(0, Power10(|w|), NumberOf(w));
    FractionIs(f, more, 0.1);
    NumberConcat(w, f);
    PartsAddUp(NumberOf(w), FractionOf(f + more, 0.1), Power10(|f|), NumberOf(f));
  }

  lemma AtofOfDigits(w: Text)
    requires AllDigits(w)
    ensures Atof(w) == NumberOf(w) as real
  {
    hide WholeOf, FractionOf, NumberOf, Shifted, Power10;
    assert w + [] == w;
    WholeIs(w, [], 0);
    ShiftBasics(0, Power10(|w|), NumberOf(w));
    DigitsEnd(w, []);
  }

  lemma AtofOfDecimal(w: Text, f: Text, more: Text)
    requires AllDigits(w) && AllDigits(f) && NoDigitFirst(more)
    ensures Atof(w + [DOT] + f + more) == WholeOf(w + ([DOT] + (f + more)), 0.0) + FractionOf(f + more, 0.1)
  {
    hide WholeOf, FractionOf;
    var rest := [DOT] + (f + more);
    assert w + [DOT] + f + more == w + rest && rest[1..] == f + more;
    DigitsEnd(w, rest);
  }

  lemma PartsAddUp(whole: int, part: real, p: int, n: int)
    requires Scaled(part, p) == Scaled(10.0 * 0.1, n)
    ensures (whole as real + part) * p as real == Shifted(whole, p, n) as real
  {
    RealProduct(whole, p);
    assert (whole as real + part) * p as real == whole as real * p as real + part * p as real;
  }

  // ----- the machine -----

  datatype Phase = Initial | Processing | Final

  /** Time spent for each name. */
  type Times = map<Text, real>

  function Add(times: Times, name: Text, time: real): Times {
    times[name := (if name in times then times[name] else 0.0) + time]
  }

  /** What a run of the reader leaves: the times and their sum, or a write outside one of its arrays. */
  datatype Outcome = Summed(times: Times, total: real) | Overrun

  /** Position after the spaces from `at` on. */
  function SkipSpaces(input: Text, at: nat): (r: nat)
    ensures at <= r
    decreases |input| - at
  {
    if at < |input| && input[at] == SPACE then SkipSpaces(input, at + 1) else at
  }

  /** How the inner loop on `<...>` ended: at `at`, the character there being the one that ended it. */
  datatype TimeRead = TimeRead(at: nat, buffer: Text) | TooLong

  function ReadTime(input: Text, at: nat, buffer: Text): (r: TimeRead)
    requires |buffer| <= BUFFER
    ensures r.TimeRead? ==> at <= r.at && |r.buffer| <= BUFFER
    decreases |input| - at
  {
    var c := Get(input, at);
    if c == GREATER || !IsTimeChar(c) then TimeRead(at, buffer)
    else if |buffer| == BUFFER then TooLong
    else ReadTime(input, at + 1, buffer + [c])
  }

  /** `buffer` holds what is stored in the array of that name; room for a NUL is left while a name is read. */
  predicate BufferOk(phase: Phase, buffer: Text) {
    |buffer| <= BUFFER && (phase == Initial ==> |buffer| < BUFFER)
  }

  /** The loop of process_parent from position `at` on; `name` is the name of the current line. */
  function Read(input: Text, at: nat, phase: Phase, buffer: Text, name: Text, times: Times, total: real): Outcome
    requires BufferOk(phase, buffer)
    decreases |input| - at
  {
    var c := Get(input, at);
    if c == EOF then Summed(times, total)
    else match phase
      case Initial =>
        if c != OPEN then
          Read(input, at + 1, Initial, if |buffer| + 1 == BUFFER then [] else buffer + [c], name, times, total)
        else Read(input, at + 1, Processing, [], CStr(buffer), times, total)
      case Processing =>
        if c == CLOSE then
          var p := SkipSpaces(input, at + 1);
          Read(input, p + 1, if Get(input, p) == EQUALS then Final else Processing, buffer, name, times, total)
        else Read(input, at + 1, Processing, buffer, name, times, total)
      case Final =>
        if c == LESS then
          var r := ReadTime(input, at + 1, buffer);
          if r.TooLong? then Overrun
          else if Get(input, r.at + 1) != NEWLINE then Read(input, r.at + 2, Processing, r.buffer, name, times, total)
          else if |r.buffer| == BUFFER || (name !in times && |times| == ROWS) then Overrun
          else
            var t := Atof(r.buffer);
            Read(input, r.at + 2, Initial, [], name, Add(times, name, t), total + t)
        else Read(input, at + 1, Final, buffer, name, times, total)
  }

  // ----- well-formed lines -----

  /** name(args)   =result<time>\n */
  datatype Line = Line(name: Text, args: Text, spaces: nat, result: Text, time: Text)

  ghost predicate LineOk(l: Line) {
    && |l.name| < BUFFER && |l.time| < BUFFER
    && (forall i :: 0 <= i < |l.name| ==> l.name[i] != OPEN && l.name[i] != EOF)
    && (forall i :: 0 <= i < |l.args| ==> l.args[i] != CLOSE && l.args[i] != EOF)
    && (forall i :: 0 <= i < |l.result| ==> l.result[i] != LESS && l.result[i] != EOF)
    && (forall i :: 0 <= i < |l.time| ==> IsTimeChar(l.time[i]))
  }

  function Spaces(n: nat): (s: Text)
    ensures |s| == n
  {
    seq(n, _ => SPACE)
  }

  function TextOf(l: Line): Text {
    l.name + [OPEN] + l.args + [CLOSE] + Spaces(l.spaces) + [EQUALS] + l.result + [LESS] + l.time + [GREATER, NEWLINE]
  }

  function TextOfAll(lines: seq<Line>): Text {
    if lines == [] then [] else TextOf(lines[0]) + TextOfAll(lines[1..])
  }

  /** The times of the lines, added up by name. */
  function TimesOf(lines: seq<Line>, times: Times): Times {
    if lines == [] then times else TimesOf(lines[1..], Add(times, CStr(lines[0].name), Atof(lines[0].time)))
  }

  function TotalOf(lines: seq<Line>): real {
    if lines == [] then 0.0 else Atof(lines[0].time) + TotalOf(lines[1..])
  }

  ghost predicate Occurs(lines: seq<Line>, name: Text) {
    exists i :: 0 <= i < |lines| && CStr(lines[i].name) == name
  }

  /** The times of the lines that have this name. */
  function TimeFor(lines: seq<Line>, name: Text): real {
    if lines == [] then 0.0
    else (if CStr(lines[0].name) == name then Atof(lines[0].time) else 0.0) + TimeFor(lines[1..], name)
  }

  /** A name is in the table exactly when it occurs, and its time is the sum over its lines. */
  lemma {:induction false} TimesByName(lines: seq<Line>, times: Times, name: Text)
    ensures name in TimesOf(lines, times) <==> name in times || Occurs(lines, name)
    ensures name in TimesOf(lines, times) ==>
              TimesOf(lines, times)[name] == (if name in times then times[name] else 0.0) + TimeFor(lines, name)
    ensures !Occurs(lines, name) ==> TimeFor(lines, name) == 0.0
    decreases |lines|
  {
    hide CStr, Atof;
    if lines != [] {
      TimesByName(lines[1..], Add(times, CStr(lines[0].name), Atof(lines[0].time)), name);
      OccursFirst(lines, name);
    }
  }

  lemma OccursFirst(lines: seq<Line>, name: Text)
    requires lines != []
    ensures Occurs(lines, name) <==> CStr(lines[0].name) == name || Occurs(lines[1..], name)
  {
    hide CStr;
    if Occurs(lines, name) {
      var i :| 0 <= i < |lines| && CStr(lines[i].name) == name;
      assert i > 0 ==> CStr(lines[1..][i - 1].name) == name;
    }
    if Occurs(lines[1..], name) {
      var i :| 0 <= i < |lines[1..]| && CStr(lines[1..][i].name) == name;
      assert CStr(lines[i + 1].name) == name;
    }
  }

  // ----- reading well-formed lines -----

  ghost predicate Has(input: Text, at: nat, s: Text) {
    at + |s| <= |input| && input[at..at + |s|] == s
  }

  lemma HasBoth(input: Text, at: nat, a: Text, b: Text)
    requires Has(input, at, a + b)
    ensures Has(input, at, a) && Has(input, at + |a|, b)
  {
    var s := input[at..at + |a + b|];
    assert s[..|a|] == a && s[|a|..] == b;
    assert input[at..at + |a|] == s[..|a|];
    assert input[at + |a|..at + |a| + |b|] == s[|a|..];
  }

  lemma HasFirst(input: Text, at: nat, s: Text)
    requires Has(input, at, s) && s != []
    ensures Get(input, at) == s[0] && Has(input, at + 1, s[1..])
  {
    assert input[at] == input[at..at + |s|][0];
    assert input[at + 1..at + |s|] == input[at..at + |s|][1..];
  }

  lemma {:induction false} NameRead(input: Text, at: nat, s: Text, buffer: Text, name: Text, times: Times, total: real)
    requires Has(input, at, s) && |buffer| + |s| < BUFFER
    requires forall i :: 0 <= i < |s| ==> s[i] != OPEN && s[i] != EOF
    ensures Read(input, at, Initial, buffer, name, times, total) ==
            Read(input, at + |s|, Initial, buffer + s, name, times, total)
    decreases |s|
  {
    if s == [] {
      assert buffer + s == buffer;
    } else {
      HasFirst(input, at, s);
      assert |buffer| + 1 < BUFFER;
      NameRead(input, at + 1, s[1..], buffer + [s[0]], name, times, total);
      assert buffer + [s[0]] + s[1..] == buffer + s;
    }
  }

  lemma {:induction false} ArgsRead(input: Text, at: nat, s: Text, name: Text, times: Times, total: real)
    requires Has(input, at, s) && forall i :: 0 <= i < |s| ==> s[i] != CLOSE && s[i] != EOF
    ensures Read(input, at, Processing, [], name, times, total) ==
              Read(input, at + |s|, Processing, [], name, times, total)
    decreases |s|
  {
    if s != [] {
      HasFirst(input, at, s);
      ArgsRead(input, at + 1, s[1..], name, times, total);
    }
  }

  lemma {:induction false} ResultRead(input: Text, at: nat, s: Text, name: Text, times: Times, total: real)
    requires Has(input, at, s) && forall i :: 0 <= i < |s| ==> s[i] != LESS && s[i] != EOF
    ensures Read(input, at, Final, [], name, times, total) == Read(input, at + |s|, Final, [], name, times, total)
    decreases |s|
  {
    if s != [] {
      HasFirst(input, at, s);
      ResultRead(input, at + 1, s[1..], name, times, total);
    }
  }

  lemma {:induction false} SpacesSkipped(input: Text, at: nat, n: nat)
    requires Has(input, at, Spaces(n)) && Get(input, at + n) == EQUALS
    ensures SkipSpaces(input, at) == at + n
    decreases n
  {
    if n > 0 {
      HasFirst(input, at, Spaces(n));
      assert Spaces(n)[1..] == Spaces(n - 1);
      SpacesSkipped(input, at + 1, n - 1);
    }
  }

  lemma {:induction false} TimeIsRead(input: Text, at: nat, s: Text, buffer: Text)
    requires Has(input, at, s) && |buffer| + |s| < BUFFER && Get(input, at + |s|) == GREATER
    requires forall i :: 0 <= i < |s| ==> IsTimeChar(s[i])
    ensures ReadTime(input, at, buffer) == TimeRead(at + |s|, buffer + s)
    decreases |s|
  {
    if s == [] {
      assert buffer + s == buffer;
    } else {
      HasFirst(input, at, s);
      TimeIsRead(input, at + 1, s[1..], buffer + [s[0]]);
      assert buffer + [s[0]] + s[1..] == buffer + s;
    }
  }

  lemma OpenRead(input: Text, at: nat, buffer: Text, name: Text, times: Times, total: real)
    requires Get(input, at) == OPEN && |buffer| < BUFFER
    ensures Read(input, at, Initial, buffer, name, times, total) ==
            Read(input, at + 1, Processing, [], CStr(buffer), times, total)
  {
    hide CStr;
  }

  lemma CloseRead(input: Text, at: nat, n: nat, name: Text, times: Times, total: real)
    requires Get(input, at) == CLOSE && Has(input, at + 1, Spaces(n)) && Get(input, at + 1 + n) == EQUALS
    ensures Read(input, at, Processing, [], name, times, total) ==
              Read(input, at + n + 2, Final, [], name, times, total)
  {
    SpacesSkipped(input, at + 1, n);
    hide SkipSpaces, Has;
  }

  /** Where the parts before the `=` are. */
  lemma HeadParts(input: Text, at: nat, l: Line)
    requires Has(input, at, l.name + [OPEN] + l.args + [CLOSE] + Spaces(l.spaces) + [EQUALS])
    ensures Has(input, at, l.name) && Get(input, at + |l.name|) == OPEN && Has(input, at + |l.name| + 1, l.args)
    ensures var q := at + |l.name| + 1 + |l.args|;
            Get(input, q) == CLOSE && Has(input, q + 1, Spaces(l.spaces)) && Get(input, q + 1 + l.spaces) == EQUALS
  {
    hide Has, Get, Spaces;
    var head := l.name + [OPEN] + l.args + [CLOSE] + Spaces(l.spaces);
    HasBoth(input, at, head, [EQUALS]);
    HasBoth(input, at, l.name + [OPEN] + l.args + [CLOSE], Spaces(l.spaces));
    HasBoth(input, at, l.name + [OPEN] + l.args, [CLOSE]);
    HasBoth(input, at, l.name + [OPEN], l.args);
    HasBoth(input, at, l.name, [OPEN]);
    HasFirst(input, at + |l.name|, [OPEN]);
    HasFirst(input, at + |l.name| + 1 + |l.args|, [CLOSE]);
    HasFirst(input, at + |l.name| + 1 + |l.args| + 1 + l.spaces, [EQUALS]);
  }

  /** Up to the `=`. */
  lemma HeadRead(input: Text, at: nat, l: Line, name: Text, times: Times, total: real)
    requires LineOk(l) && Has(input, at, l.name + [OPEN] + l.args + [CLOSE] + Spaces(l.spaces) + [EQUALS])
    ensures Read(input, at, Initial, [], name, times, total) ==
            Read(input, at + |l.name| + |l.args| + l.spaces + 3, Final, [], CStr(l.name), times, total)
  {
    hide CStr, Read, Has, Get, Spaces;
    HeadParts(input, at, l);
    NameRead(input, at, l.name, [], name, times, total);
    assert [] + l.name == l.name;
    var p := at + |l.name|;
    OpenRead(input, p, l.name, name, times, total);
    ArgsRead(input, p + 1, l.args, CStr(l.name), times, total);
    CloseRead(input, p + 1 + |l.args|, l.spaces, CStr(l.name), times, total);
  }

  lemma TailParts(input: Text, at: nat, l: Line)
    requires Has(input, at, l.result + [LESS] + l.time + [GREATER, NEWLINE])
    ensures Has(input, at, l.result) && Get(input, at + |l.result|) == LESS && Has(input, at + |l.result| + 1, l.time)
    ensures var q := at + |l.result| + 1 + |l.time|; Get(input, q) == GREATER && Get(input, q + 1) == NEWLINE
  {
    hide Has, Get;
    HasBoth(input, at, l.result + [LESS] + l.time, [GREATER, NEWLINE]);
    HasBoth(input, at, l.result + [LESS], l.time);
    HasBoth(input, at, l.result, [LESS]);
    HasFirst(input, at + |l.result|, [LESS]);
    var q := at + |l.result| + 1 + |l.time|;
    HasFirst(input, q, [GREATER, NEWLINE]);
    assert [GREATER, NEWLINE][1..] == [NEWLINE];
    HasFirst(input, q + 1, [NEWLINE]);
  }

  /** After the `=`. */
  lemma TailRead(input: Text, at: nat, l: Line, name: Text, times: Times, total: real)
    requires LineOk(l) && Has(input, at, l.result + [LESS] + l.time + [GREATER, NEWLINE])
    ensures Read(input, at, Final, [], name, times, total) ==
            if name !in times && |times| == ROWS then Overrun
            else Read(input, at + |l.result| + |l.time| + 3, Initial, [], name,
                       Add(times, name, Atof(l.time)), total + Atof(l.time))
  {
    hide Atof, Add, Has, ReadTime;
    TailParts(input, at, l);
    ResultRead(input, at, l.result, name, times, total);
    TimeIsRead(input, at + |l.result| + 1, l.time, []);
    assert [] + l.time == l.time;
  }

  /** One line adds its time to its name. */
  lemma LineRead(input: Text, at: nat, l: Line, name: Text, times: Times, total: real)
    requires LineOk(l) && Has(input, at, TextOf(l))
    ensures var n := CStr(l.name);
            Read(input, at, Initial, [], name, times, total) ==
            if n !in times && |times| == ROWS then Overrun
            else Read(input, at + |TextOf(l)|, Initial, [], n, Add(times, n, Atof(l.time)), total + Atof(l.time))
  {
    hide Atof, Add, CStr, Read;
    var head := l.name + [OPEN] + l.args + [CLOSE] + Spaces(l.spaces) + [EQUALS];
    var tail := l.result + [LESS] + l.time + [GREATER, NEWLINE];
    assert TextOf(l) == head + tail;
    HasBoth(input, at, head, tail);
    HeadRead(input, at, l, name, times, total);
    TailRead(input, at + |head|, l, CStr(l.name), times, total);
  }

  lemma {:induction false} TimesGrow(lines: seq<Line>, times: Times)
    ensures times.Keys <= TimesOf(lines, times).Keys
    ensures |times| <= |TimesOf(lines, times)|
    decreases |lines|
  {
    hide Atof, CStr;
    if lines != [] {
      var next := Add(times, CStr(lines[0].name), Atof(lines[0].time));
      TimesGrow(lines[1..], next);
    }
    KeysCount(times, TimesOf(lines, times));
  }

  lemma KeysCount(a: Times, b: Times)
    requires a.Keys <= b.Keys
    ensures |a| <= |b|
  {
    SubsetCount(a.Keys, b.Keys);
  }

  lemma {:induction false} SubsetCount(a: set<Text>, b: set<Text>)
    requires a <= b
    ensures |a| <= |b|
    decreases |a|
  {
    if a != {} {
      var x :| x in a;
      SubsetCount(a - {x}, b - {x});
    }
  }

  /**
   On well-formed lines the reader ends with each name's times added up, and with their total, exactly when the lines
   have no more names than the table has rows.
   */
  lemma {:induction false} LinesRead(input: Text, at: nat, lines: seq<Line>, name: Text, times: Times, total: real)
    requires (forall i :: 0 <= i < |lines| ==> LineOk(lines[i])) && at <= |input| && input[at..] == TextOfAll(lines)
    requires |times| <= ROWS
    ensures Read(input, at, Initial, [], name, times, total) ==
            if |TimesOf(lines, times)| <= ROWS then Summed(TimesOf(lines, times), total + TotalOf(lines)) else Overrun
    decreases |lines|
  {
    hide Atof, CStr, LineOk, Read, TextOf, Has;
    if lines == [] {
      NothingRead(input, at, name, times, total);
    } else {
      var l, text := lines[0], TextOf(lines[0]);
      TextSplit(input, at, text, TextOfAll(lines[1..]));
      LineRead(input, at, l, name, times, total);
      var n, t := CStr(l.name), Atof(l.time);
      var next := Add(times, n, t);
      TimesGrow(lines[1..], next);
      if n !in times && |times| == ROWS {
        NewName(times, n, t);
      } else {
        RoomLeft(times, n, t);
        LinesRead(input, at + |text|, lines[1..], n, next, total + t);
      }
    }
  }

  lemma NothingRead(input: Text, at: nat, name: Text, times: Times, total: real)
    requires at == |input|
    ensures Read(input, at, Initial, [], name, times, total) == Summed(times, total)
  {
  }

  lemma TextSplit(input: Text, at: nat, a: Text, b: Text)
    requires at <= |input| && input[at..] == a + b
    ensures Has(input, at, a) && input[at + |a|..] == b
  {
    assert input[at..at + |a|] == input[at..][..|a|];
    assert input[at + |a|..] == input[at..][|a|..];
  }

  lemma NewName(times: Times, n: Text, t: real)
    requires n !in times
    ensures |Add(times, n, t)| == |times| + 1
  {
    assert Add(times, n, t).Keys == times.Keys + {n};
  }

  lemma RoomLeft(times: Times, n: Text, t: real)
    requires |times| <= ROWS && (n in times || |times| != ROWS)
    ensures |Add(times, n, t)| <= ROWS
  {
    if n in times {
      assert Add(times, n, t).Keys == times.Keys;
    } else {
      NewName(times, n, t);
    }
  }
}
