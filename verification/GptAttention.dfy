/** attention_forward: a thread for each position, which goes through the heads with four passes for each. */
module GptAttention {
  import opened GptRows
  import opened GptThreads
  import opened GptIndex

  /** T positions, NH heads of width hs; the number of channels is NH * hs. */
  datatype Args = Args(out: nat, preatt: nat, att: nat, inp: nat, T: nat, NH: nat, hs: nat)

  function Channels(a: Args): nat {
    a.NH * a.hs
  }

  function OutSize(a: Args): nat {
    a.T * Channels(a)
  }

  function AttSize(a: Args): nat {
    a.NH * a.T * a.T
  }

  /** The length of a row of queries, keys and values. */
  function Width(a: Args): nat {
    3 * Channels(a)
  }

  function InpSize(a: Args): nat {
    a.T * Width(a)
  }

  ghost predicate Fits<F>(a: Args, start: seq<F>) {
    && a.hs > 0
    && a.out + OutSize(a) <= |start| && a.preatt + AttSize(a) <= |start| && a.att + AttSize(a) <= |start|
    && a.inp + InpSize(a) <= |start|
    && Apart(a.out, OutSize(a), a.inp, InpSize(a)) && Apart(a.preatt, AttSize(a), a.inp, InpSize(a))
    && Apart(a.att, AttSize(a), a.inp, InpSize(a)) && Apart(a.out, OutSize(a), a.preatt, AttSize(a))
    && Apart(a.out, OutSize(a), a.att, AttSize(a)) && Apart(a.preatt, AttSize(a), a.att, AttSize(a))
  }

  // ----- addresses -----

  function OutRowAt(a: Args, t: nat): nat {
    a.out + t * Channels(a)
  }

  function OutAt(a: Args, t: nat, h: nat, i: nat): nat {
    OutRowAt(a, t) + (h * a.hs + i)
  }

  /** preatt + h * T * T + t * T + t2; the same offset serves att. */
  function AttOffset(a: Args, t: nat, h: nat, t2: nat): nat {
    (h * a.T + t) * a.T + t2
  }

  function PreAt(a: Args, t: nat, h: nat, t2: nat): nat {
    a.preatt + AttOffset(a, t, h, t2)
  }

  function AttAt(a: Args, t: nat, h: nat, t2: nat): nat {
    a.att + AttOffset(a, t, h, t2)
  }

  /** Column j of row t2 of the queries, keys and values. */
  function InpAt(a: Args, t2: nat, j: nat): nat {
    InpRowAt(a, t2) + j
  }

  function InpRowAt(a: Args, t2: nat): nat {
    a.inp + t2 * Width(a)
  }

  lemma OutCell(a: Args, t: nat, h: nat, i: nat)
    requires t < a.T && h < a.NH && i < a.hs
    ensures h * a.hs + i < Channels(a) && a.out <= OutAt(a, t, h, i) < a.out + OutSize(a)
    ensures RowOf(OutAt(a, t, h, i), a.out, a.T, Channels(a)) == t
  {
    InRange(h, a.NH, a.hs, i);
    RowOfCell(a.out, a.T, Channels(a), t, h * a.hs + i);
  }

  lemma AttCell(a: Args, base: nat, t: nat, h: nat, t2: nat)
    requires t < a.T && h < a.NH && t2 < a.T
    ensures base <= base + AttOffset(a, t, h, t2) < base + AttSize(a)
    ensures RowOf(base + AttOffset(a, t, h, t2), base, a.NH * a.T, a.T) == h * a.T + t && (h * a.T + t) % a.T == t
    ensures AttOffset(a, t, h, t2) % a.T == t2
  {
    var q := h * a.T + t;
    InRange(h, a.NH, a.T, t);
    RowAndColumn(h, a.T, t);
    assert q % a.T == t;
    RowAndColumn(q, a.T, t2);
    RowOfCell(base, a.NH * a.T, a.T, q, t2);
    hide RowOf;
  }

  lemma OutDistinct(a: Args, t: nat, h: nat, i: nat, h': nat, i': nat)
    requires i < a.hs && i' < a.hs && OutAt(a, t, h, i) == OutAt(a, t, h', i')
    ensures h == h' && i == i'
  {
    SameRow(h, i, h', i', a.hs);
  }

  lemma AttDistinct(a: Args, t: nat, h: nat, t2: nat, h': nat, t2': nat)
    requires t < a.T && t2 < a.T && t2' < a.T && AttOffset(a, t, h, t2) == AttOffset(a, t, h', t2')
    ensures h == h' && t2 == t2'
  {
    SameRow(h * a.T + t, t2, h' * a.T + t, t2', a.T);
    SameRow(h, t, h', t, a.T);
  }

  /** The thread that stores at an address, or -1; scores are stored for rows up to the thread's own only. */
  function Owner(a: Args, addr: nat): int {
    if a.out <= addr < a.out + OutSize(a) then RowOf(addr, a.out, a.T, Channels(a))
    else if a.preatt <= addr < a.preatt + AttSize(a) && a.T > 0 then
      var t := RowOf(addr, a.preatt, a.NH * a.T, a.T) % a.T;
      if (addr - a.preatt) % a.T <= t then t else -1
    else if a.att <= addr < a.att + AttSize(a) && a.T > 0 then RowOf(addr, a.att, a.NH * a.T, a.T) % a.T
    else -1
  }

  lemma OwnCells<F>(a: Args, start: seq<F>, t: nat, h: nat, i: nat, t2: nat)
    requires Fits(a, start) && t < a.T && h < a.NH && i < a.hs && t2 < a.T
    ensures Owner(a, OutAt(a, t, h, i)) == t && Owner(a, AttAt(a, t, h, t2)) == t
    ensures Owner(a, PreAt(a, t, h, t2)) == if t2 <= t then t else -1
    ensures OutAt(a, t, h, i) < |start| && PreAt(a, t, h, t2) < |start| && AttAt(a, t, h, t2) < |start|
    ensures OutAt(a, t, h, i) != PreAt(a, t, h, t2) && OutAt(a, t, h, i) != AttAt(a, t, h, t2)
  {
    OutCell(a, t, h, i);
    AttCell(a, a.preatt, t, h, t2);
    AttCell(a, a.att, t, h, t2);
    hide RowOf, OutAt, AttOffset, OutSize, AttSize, InpSize;
  }

  // ----- what thread t sees of its own cells -----

  function OutV<F>(a: Args, mem: seq<F>, t: nat, h: nat, i: nat): F
    requires Fits(a, mem) && t < a.T && h < a.NH && i < a.hs
  {
    OutCell(a, t, h, i);
    mem[OutAt(a, t, h, i)]
  }

  function PreV<F>(a: Args, mem: seq<F>, t: nat, h: nat, t2: nat): F
    requires Fits(a, mem) && t < a.T && h < a.NH && t2 < a.T
  {
    AttCell(a, a.preatt, t, h, t2);
    mem[PreAt(a, t, h, t2)]
  }

  function AttV<F>(a: Args, mem: seq<F>, t: nat, h: nat, t2: nat): F
    requires Fits(a, mem) && t < a.T && h < a.NH && t2 < a.T
  {
    AttCell(a, a.att, t, h, t2);
    mem[AttAt(a, t, h, t2)]
  }

  ghost predicate SameOut<F>(a: Args, mem: seq<F>, mem': seq<F>, t: nat)
    requires Fits(a, mem) && Fits(a, mem') && t < a.T
  {
    forall h: nat, i: nat :: h < a.NH && i < a.hs ==> OutV(a, mem', t, h, i) == OutV(a, mem, t, h, i)
  }

  ghost predicate SamePre<F>(a: Args, mem: seq<F>, mem': seq<F>, t: nat)
    requires Fits(a, mem) && Fits(a, mem') && t < a.T
  {
    forall h: nat, k: nat :: h < a.NH && k <= t ==> PreV(a, mem', t, h, k) == PreV(a, mem, t, h, k)
  }

  ghost predicate SameAtt<F>(a: Args, mem: seq<F>, mem': seq<F>, t: nat)
    requires Fits(a, mem) && Fits(a, mem') && t < a.T
  {
    forall h: nat, k: nat :: h < a.NH && k < a.T ==> AttV(a, mem', t, h, k) == AttV(a, mem, t, h, k)
  }

  lemma StoreOut<F>(a: Args, mem: seq<F>, t: nat, h: nat, i: nat, v: F)
    requires Fits(a, mem) && t < a.T && h < a.NH && i < a.hs
    ensures OutAt(a, t, h, i) < |mem| && Owner(a, OutAt(a, t, h, i)) == t
    ensures var mem' := mem[OutAt(a, t, h, i) := v];
            && SamePre(a, mem, mem', t) && SameAtt(a, mem, mem', t)
            && forall g: nat, j: nat :: g < a.NH && j < a.hs ==>
                 OutV(a, mem', t, g, j) == if g == h && j == i then v else OutV(a, mem, t, g, j)
  {
    OutCell(a, t, h, i);
    var mem' := mem[OutAt(a, t, h, i) := v];
    forall g: nat, k: nat | g < a.NH && k < a.T
      ensures PreV(a, mem', t, g, k) == PreV(a, mem, t, g, k) && AttV(a, mem', t, g, k) == AttV(a, mem, t, g, k)
    {
      OwnCells(a, mem, t, g, i, k);
      AttCell(a, a.preatt, t, g, k);
      AttCell(a, a.att, t, g, k);
    }
    forall g: nat, j: nat | g < a.NH && j < a.hs
      ensures OutV(a, mem', t, g, j) == if g == h && j == i then v else OutV(a, mem, t, g, j)
    {
      OutCell(a, t, g, j);
      if OutAt(a, t, g, j) == OutAt(a, t, h, i) {
        OutDistinct(a, t, g, j, h, i);
      }
    }
  }

  lemma StorePre<F>(a: Args, mem: seq<F>, t: nat, h: nat, k: nat, v: F)
    requires Fits(a, mem) && k <= t < a.T && h < a.NH
    ensures PreAt(a, t, h, k) < |mem| && Owner(a, PreAt(a, t, h, k)) == t
    ensures var mem' := mem[PreAt(a, t, h, k) := v];
            && SameOut(a, mem, mem', t) && SameAtt(a, mem, mem', t)
            && forall g: nat, l: nat :: g < a.NH && l < a.T ==>
                 PreV(a, mem', t, g, l) == if g == h && l == k then v else PreV(a, mem, t, g, l)
  {
    OwnCells(a, mem, t, h, 0, k);
    AttCell(a, a.preatt, t, h, k);
    var mem' := mem[PreAt(a, t, h, k) := v];
    forall g: nat, i: nat | g < a.NH && i < a.hs ensures OutV(a, mem', t, g, i) == OutV(a, mem, t, g, i) {
      OutCell(a, t, g, i);
    }
    forall g: nat, l: nat | g < a.NH && l < a.T
      ensures AttV(a, mem', t, g, l) == AttV(a, mem, t, g, l)
      ensures PreV(a, mem', t, g, l) == if g == h && l == k then v else PreV(a, mem, t, g, l)
    {
      AttCell(a, a.att, t, g, l);
      AttCell(a, a.preatt, t, g, l);
      if AttOffset(a, t, g, l) == AttOffset(a, t, h, k) {
        AttDistinct(a, t, g, l, h, k);
      }
    }
  }

  lemma StoreAtt<F>(a: Args, mem: seq<F>, t: nat, h: nat, k: nat, v: F)
    requires Fits(a, mem) && t < a.T && h < a.NH && k < a.T
    ensures AttAt(a, t, h, k) < |mem| && Owner(a, AttAt(a, t, h, k)) == t
    ensures var mem' := mem[AttAt(a, t, h, k) := v];
            && SameOut(a, mem, mem', t) && SamePre(a, mem, mem', t)
            && forall g: nat, l: nat :: g < a.NH && l < a.T ==>
                 AttV(a, mem', t, g, l) == if g == h && l == k then v else AttV(a, mem, t, g, l)
  {
    OwnCells(a, mem, t, h, 0, k);
    AttCell(a, a.att, t, h, k);
    var mem' := mem[AttAt(a, t, h, k) := v];
    forall g: nat, i: nat | g < a.NH && i < a.hs ensures OutV(a, mem', t, g, i) == OutV(a, mem, t, g, i) {
      OutCell(a, t, g, i);
    }
    forall g: nat, l: nat | g < a.NH && l < a.T
      ensures PreV(a, mem', t, g, l) == PreV(a, mem, t, g, l)
      ensures AttV(a, mem', t, g, l) == if g == h && l == k then v else AttV(a, mem, t, g, l)
    {
      AttCell(a, a.att, t, g, l);
      AttCell(a, a.preatt, t, g, l);
      if AttOffset(a, t, g, l) == AttOffset(a, t, h, k) {
        AttDistinct(a, t, g, l, h, k);
      }
    }
  }

  // ----- the input rows -----

  lemma InputFits(a: Args, t2: nat)
    requires t2 < a.T
    ensures InpRowAt(a, t2) + Width(a) <= a.inp + InpSize(a)
  {
    InRangeRow(t2, a.T, Width(a));
  }

  function InputRow<F>(a: Args, start: seq<F>, t2: nat): (r: Row<F>)
    requires Fits(a, start) && t2 < a.T
    ensures |r| == 3 * Channels(a)
  {
    InputFits(a, t2);
    Slice(start, InpRowAt(a, t2), Width(a))
  }

  /** Rows 0..t of queries, keys and values. */
  function Rows<F>(a: Args, start: seq<F>, t: nat): (rows: seq<Row<F>>)
    requires Fits(a, start) && t < a.T
    ensures |rows| == t + 1 && QkvRows(rows, Channels(a))
    ensures forall i :: 0 <= i <= t ==> rows[i] == InputRow(a, start, i)
  {
    seq(t + 1, i requires 0 <= i <= t => InputRow(a, start, i))
  }

  function HeadAt<F>(a: Args, start: seq<F>, t: nat, h: nat): (hd: Head<F>)
    requires Fits(a, start) && t < a.T && h < a.NH
    ensures HeadOk(hd) && |hd.rows| == t + 1 && hd.hs == a.hs
  {
    HeadFits(Rows(a, start, t), h, a.NH, a.hs);
    HeadOf(Rows(a, start, t), h, a.hs, Channels(a))
  }

  function Load<F>(ops: Ops<F>, mem: seq<F>, addr: nat): F {
    if addr < |mem| then mem[addr] else ops.zero
  }

  lemma InpInside(a: Args, t2: nat, j: nat)
    requires t2 < a.T && j < Width(a)
    ensures a.inp <= InpAt(a, t2, j) < a.inp + InpSize(a)
  {
    InputFits(a, t2);
    hide Width, InpSize;
  }

  lemma InpUnowned<F>(a: Args, start: seq<F>, addr: nat)
    requires Fits(a, start) && a.inp <= addr < a.inp + InpSize(a)
    ensures addr < |start| && Owner(a, addr) == -1
  {
    hide OutSize, AttSize, InpSize, RowOf;
  }

  lemma Unchanged<F>(a: Args, start: seq<F>, mem: seq<F>, addr: nat)
    requires OnlyOwned(start, mem, a.T, (at: nat) => Owner(a, at)) && addr < |start| && Owner(a, addr) == -1
    ensures addr < |mem| && mem[addr] == start[addr]
  {
    hide Owner;
  }

  lemma InputRowAt<F>(a: Args, start: seq<F>, t2: nat, j: nat)
    requires Fits(a, start) && t2 < a.T && j < Width(a) && InpAt(a, t2, j) < |start|
    ensures j < |InputRow(a, start, t2)| && InputRow(a, start, t2)[j] == start[InpAt(a, t2, j)]
  {
    hide Fits, InpRowAt, InpSize, Width, Channels;
    WidthOfRow(a);
    InputRowFits(a, start, t2);
  }

  lemma InputRowFits<F>(a: Args, start: seq<F>, t2: nat)
    requires Fits(a, start) && t2 < a.T
    ensures InpRowAt(a, t2) + Width(a) <= |start|
  {
    hide InpRowAt, InpSize, Width, OutSize, AttSize;
    InputFits(a, t2);
  }

  lemma WidthOfRow(a: Args)
    ensures Width(a) == 3 * Channels(a)
  {
    hide Channels;
  }

  lemma InputCell<F>(ops: Ops<F>, a: Args, start: seq<F>, mem: seq<F>, t2: nat, j: nat)
    requires Fits(a, start) && OnlyOwned(start, mem, a.T, (addr: nat) => Owner(a, addr)) && t2 < a.T && j < Width(a)
    ensures j < |InputRow(a, start, t2)| && Load(ops, mem, InpAt(a, t2, j)) == InputRow(a, start, t2)[j]
  {
    InpInside(a, t2, j);
    InpUnowned(a, start, InpAt(a, t2, j));
    Unchanged(a, start, mem, InpAt(a, t2, j));
    InputRowAt(a, start, t2, j);
    hide Fits, OnlyOwned, Owner, Width, InpAt, InputRow;
  }

  lemma HeadColumn(a: Args, h: nat, i: nat)
    requires h < a.NH && i < a.hs
    ensures h * a.hs + i < Channels(a) && Width(a) == 3 * Channels(a)
  {
    InRange(h, a.NH, a.hs, i);
  }

  /** The three reads of lines 190 and 226. */
  lemma Reads<F>(ops: Ops<F>, a: Args, start: seq<F>, mem: seq<F>, t: nat, h: nat, t2: nat, i: nat)
    requires Fits(a, start) && OnlyOwned(start, mem, a.T, (addr: nat) => Owner(a, addr))
    requires t2 <= t < a.T && h < a.NH && i < a.hs
    ensures var hd := HeadAt(a, start, t, h);
            && Load(ops, mem, InpAt(a, t, h * a.hs + i)) == Query(hd)[i]
            && Load(ops, mem, InpAt(a, t2, h * a.hs + i + Channels(a))) == Part(hd.rows[t2], hd.k, hd.hs)[i]
            && Load(ops, mem, InpAt(a, t2, h * a.hs + i + Channels(a) * 2)) == Part(hd.rows[t2], hd.v, hd.hs)[i]
  {
    hide *;
    HeadColumn(a, h, i);
    InputCell(ops, a, start, mem, t, h * a.hs + i);
    InputCell(ops, a, start, mem, t2, h * a.hs + i + Channels(a));
    InputCell(ops, a, start, mem, t2, h * a.hs + i + Channels(a) * 2);
    HeadColumns(a, start, t, h, t2, i);
  }

  lemma HeadColumns<F>(a: Args, start: seq<F>, t: nat, h: nat, t2: nat, i: nat)
    requires Fits(a, start) && t2 <= t < a.T && h < a.NH && i < a.hs && h * a.hs + i < Channels(a)
    ensures var hd := HeadAt(a, start, t, h);
            && Query(hd)[i] == InputRow(a, start, t)[h * a.hs + i]
            && Part(hd.rows[t2], hd.k, hd.hs)[i] == InputRow(a, start, t2)[h * a.hs + i + Channels(a)]
            && Part(hd.rows[t2], hd.v, hd.hs)[i] == InputRow(a, start, t2)[h * a.hs + i + Channels(a) * 2]
  {
    hide InputRow, Fits, Channels;
  }

  // ----- the thread -----

  datatype Thread<F> =
    | NextHead(h: nat)                                // 179-185
    | Dotting(h: nat, t2: nat, i: nat, val: F, max: F)  // pass 1
    | Weighing(h: nat, t2: nat, max: F, sum: F)         // pass 2
    | Normalising(h: nat, t2: nat, inv: F)              // pass 3
    | Clearing(h: nat, i: nat)                          // 219-221
    | Mixing(h: nat, t2: nat, i: nat)                   // pass 4

  predicate Done<F>(a: Args, s: Thread<F>) {
    s.NextHead? && s.h >= a.NH
  }

  function Step<F>(ops: Ops<F>, a: Args, mem: seq<F>, t: nat, s: Thread<F>): Action<F, Thread<F>> {
    match s
    case NextHead(h) =>
      if h >= a.NH then Compute(s) else Compute(Dotting(h, 0, 0, ops.zero, ops.lowest))
    case Dotting(h, t2, i, val, max) =>
      if i < a.hs then
        var q := Load(ops, mem, InpAt(a, t, h * a.hs + i));
        var k := Load(ops, mem, InpAt(a, t2, h * a.hs + i + Channels(a)));
        Compute(Dotting(h, t2, i + 1, ops.add(val, ops.mul(q, k)), max))
      else
        var scaled := ops.mul(val, Scale(ops, a.hs));
        var max' := if ops.greater(scaled, max) then scaled else max;
        Store(PreAt(a, t, h, t2), scaled,
              if t2 + 1 <= t then Dotting(h, t2 + 1, 0, ops.zero, max') else Weighing(h, 0, max', ops.zero))
    case Weighing(h, t2, max, sum) =>
      if t2 <= t then
        var e := ops.exp(ops.sub(Load(ops, mem, PreAt(a, t, h, t2)), max));
        Store(AttAt(a, t, h, t2), e, Weighing(h, t2 + 1, max, ops.add(sum, e)))
      else Compute(Normalising(h, 0, if ops.isZero(sum) then ops.zero else ops.div(ops.one, sum)))
    case Normalising(h, t2, inv) =>
      if t2 < a.T then
        Store(AttAt(a, t, h, t2),
              if t2 <= t then ops.mul(Load(ops, mem, AttAt(a, t, h, t2)), inv) else ops.zero,
              Normalising(h, t2 + 1, inv))
      else Compute(Clearing(h, 0))
    case Clearing(h, i) =>
      if i < a.hs then Store(OutAt(a, t, h, i), ops.zero, Clearing(h, i + 1)) else Compute(Mixing(h, 0, 0))
    case Mixing(h, t2, i) =>
      if t2 > t then Compute(NextHead(h + 1))
      else if i < a.hs then
        var w := Load(ops, mem, AttAt(a, t, h, t2));
        var v := Load(ops, mem, InpAt(a, t2, h * a.hs + i + Channels(a) * 2));
        Store(OutAt(a, t, h, i), ops.add(Load(ops, mem, OutAt(a, t, h, i)), ops.mul(w, v)), Mixing(h, t2, i + 1))
      else Compute(Mixing(h, t2 + 1, 0))
  }

  // ----- what holds while it runs -----

  ghost predicate PreTo<F>(ops: Ops<F>, a: Args, start: seq<F>, mem: seq<F>, t: nat, h: nat, n: nat)
    requires Fits(a, start) && Fits(a, mem) && t < a.T && h < a.NH && n <= t + 1
  {
    forall k: nat :: k < n ==> PreV(a, mem, t, h, k) == Score(ops, HeadAt(a, start, t, h), k)
  }

  /** Attention weights up to n are normalised, the others still raw. */
  ghost predicate AttTo<F>(ops: Ops<F>, a: Args, start: seq<F>, mem: seq<F>, t: nat, h: nat, n: nat)
    requires Fits(a, start) && Fits(a, mem) && t < a.T && h < a.NH && n <= a.T
  {
    forall k: nat :: k < a.T ==>
      && (k < n ==> AttV(a, mem, t, h, k) == Att(ops, HeadAt(a, start, t, h), k))
      && (n <= k <= t ==> AttV(a, mem, t, h, k) == Weight(ops, HeadAt(a, start, t, h), k))
  }

  ghost predicate WeightsUpTo<F>(ops: Ops<F>, a: Args, start: seq<F>, mem: seq<F>, t: nat, h: nat, n: nat)
    requires Fits(a, start) && Fits(a, mem) && t < a.T && h < a.NH && n <= t + 1
  {
    forall k: nat :: k < n ==> AttV(a, mem, t, h, k) == Weight(ops, HeadAt(a, start, t, h), k)
  }

  /** Output i holds the mix of rows before n, or before n + 1 if it was already reached in this round. */
  ghost predicate OutTo<F>(ops: Ops<F>, a: Args, start: seq<F>, mem: seq<F>, t: nat, h: nat, n: nat, reached: nat)
    requires Fits(a, start) && Fits(a, mem) && t < a.T && h < a.NH && n + (if reached > 0 then 1 else 0) <= t + 1
  {
    forall i: nat :: i < a.hs ==>
      OutV(a, mem, t, h, i) == MixTo(ops, HeadAt(a, start, t, h), i, if i < reached then n + 1 else n)
  }

  ghost predicate HeadFinished<F>(ops: Ops<F>, a: Args, start: seq<F>, mem: seq<F>, t: nat, h: nat)
    requires Fits(a, start) && Fits(a, mem) && t < a.T && h < a.NH
  {
    && PreTo(ops, a, start, mem, t, h, t + 1) && AttTo(ops, a, start, mem, t, h, a.T)
    && OutTo(ops, a, start, mem, t, h, t + 1, 0)
  }

  ghost predicate HeadsFinished<F>(ops: Ops<F>, a: Args, start: seq<F>, mem: seq<F>, t: nat, n: nat)
    requires Fits(a, start) && Fits(a, mem) && t < a.T && n <= a.NH
  {
    forall h: nat :: h < n ==> HeadFinished(ops, a, start, mem, t, h)
  }

  ghost predicate Inv<F>(ops: Ops<F>, a: Args, start: seq<F>, mem: seq<F>, t: nat, s: Thread<F>)
    requires Fits(a, start)
  {
    && t < a.T && |mem| == |start| && s.h <= a.NH && (!s.NextHead? ==> s.h < a.NH)
    && HeadsFinished(ops, a, start, mem, t, s.h)
    && (!s.NextHead? ==> Working(ops, a, start, mem, t, s))
  }

  ghost predicate Working<F>(ops: Ops<F>, a: Args, start: seq<F>, mem: seq<F>, t: nat, s: Thread<F>)
    requires Fits(a, start) && Fits(a, mem) && t < a.T && s.h < a.NH
  {
    var hd := HeadAt(a, start, t, s.h);
    match s
    case NextHead(_) => true
    case Dotting(h, t2, i, val, max) =>
      && t2 <= t && i <= a.hs && PreTo(ops, a, start, mem, t, h, t2) && max == MaxTo(ops, hd, t2)
      && val == DotTo(ops, ops.zero, Query(hd), Part(hd.rows[t2], hd.k, hd.hs), i)
    case Weighing(h, t2, max, sum) =>
      && t2 <= t + 1 && PreTo(ops, a, start, mem, t, h, t + 1) && max == MaxTo(ops, hd, t + 1)
      && sum == WeightsTo(ops, hd, t2) && WeightsUpTo(ops, a, start, mem, t, h, t2)
    case Normalising(h, t2, inv) =>
      t2 <= a.T && inv == Inverse(ops, hd) && PreTo(ops, a, start, mem, t, h, t + 1)
      && AttTo(ops, a, start, mem, t, h, t2)
    case Clearing(h, i) =>
      && i <= a.hs && PreTo(ops, a, start, mem, t, h, t + 1) && AttTo(ops, a, start, mem, t, h, a.T)
      && forall j: nat :: j < i ==> OutV(a, mem, t, h, j) == ops.zero
    case Mixing(h, t2, i) =>
      && t2 <= t + 1 && i <= a.hs && (t2 > t ==> i == 0)
      && PreTo(ops, a, start, mem, t, h, t + 1) && AttTo(ops, a, start, mem, t, h, a.T)
      && OutTo(ops, a, start, mem, t, h, t2, i)
  }

  // ----- every step is in order -----

  /** Heads that are finished stay so while another head's cells are stored to. */
  lemma FinishedKept<F>(ops: Ops<F>, a: Args, start: seq<F>, mem: seq<F>, mem': seq<F>, t: nat, n: nat)
    requires Fits(a, start) && Fits(a, mem) && Fits(a, mem') && t < a.T && n <= a.NH
    requires HeadsFinished(ops, a, start, mem, t, n)
    requires forall g: nat, k: nat :: g < n && k <= t ==> PreV(a, mem', t, g, k) == PreV(a, mem, t, g, k)
    requires forall g: nat, k: nat :: g < n && k < a.T ==> AttV(a, mem', t, g, k) == AttV(a, mem, t, g, k)
    requires forall g: nat, i: nat :: g < n && i < a.hs ==> OutV(a, mem', t, g, i) == OutV(a, mem, t, g, i)
    ensures HeadsFinished(ops, a, start, mem', t, n)
  {
    hide PreV, AttV, OutV, HeadAt, Score, Att, Weight, MixTo, Fits;
    forall h: nat | h < n ensures HeadFinished(ops, a, start, mem', t, h) {
      assert HeadFinished(ops, a, start, mem, t, h);
    }
  }

  lemma DotValue<F>(ops: Ops<F>, a: Args, start: seq<F>, mem: seq<F>, t: nat, s: Thread<F>)
    requires Fits(a, start) && OnlyOwned(start, mem, a.T, (addr: nat) => Owner(a, addr))
    requires s.Dotting? && s.t2 <= t < a.T && s.h < a.NH && s.i < a.hs
    ensures var hd := HeadAt(a, start, t, s.h);
            Step(ops, a, mem, t, s) ==
              Compute(Dotting(s.h, s.t2, s.i + 1,
                              ops.add(s.val, ops.mul(Query(hd)[s.i], Part(hd.rows[s.t2], hd.k, hd.hs)[s.i])), s.max))
  {
    hide Fits, HeadAt, InpAt, PreAt, Load, OnlyOwned, Owner, HeadOk, Channels, Scale;
    Reads(ops, a, start, mem, t, s.h, s.t2, s.i);
  }

  lemma DotFine<F>(ops: Ops<F>, a: Args, start: seq<F>, mem: seq<F>, t: nat, s: Thread<F>)
    requires Fits(a, start) && OnlyOwned(start, mem, a.T, (addr: nat) => Owner(a, addr))
    requires Inv(ops, a, start, mem, t, s) && s.Dotting? && s.i < a.hs
    ensures var act := Step(ops, a, mem, t, s); act.Compute? && Inv(ops, a, start, mem, t, act.next)
  {
    hide Fits, HeadAt, Step, PreTo, HeadsFinished, OnlyOwned, Owner, MaxTo, Part, Query;
    InvFits(ops, a, start, mem, t, s);
    DotValue(ops, a, start, mem, t, s);
  }

  lemma ScoreFine<F>(ops: Ops<F>, a: Args, start: seq<F>, mem: seq<F>, t: nat, s: Thread<F>)
    requires Fits(a, start) && Inv(ops, a, start, mem, t, s) && s.Dotting? && s.i == a.hs
    ensures var act := Step(ops, a, mem, t, s);
            && act.Store? && act.addr < |mem| && Owner(a, act.addr) == t
            && Inv(ops, a, start, mem[act.addr := act.value], t, act.next)
  {
    hide Fits, PreV, AttV, OutV, HeadAt, OutAt, PreAt, AttAt, Load, Owner, Part, Query, Scale, HeadsFinished, Channels;
    InvFits(ops, a, start, mem, t, s);
    var hd, h := HeadAt(a, start, t, s.h), s.h;
    var act := Step(ops, a, mem, t, s);
    assert t + 1 == |hd.rows| && hd.hs == a.hs;
    assert act.value == Score(ops, hd, s.t2);
    StorePre(a, mem, t, h, s.t2, act.value);
    var mem' := mem[act.addr := act.value];
    SameFits(a, mem, mem');
    FinishedKept(ops, a, start, mem, mem', t, h);
  }

  lemma WeighFine<F>(ops: Ops<F>, a: Args, start: seq<F>, mem: seq<F>, t: nat, s: Thread<F>)
    requires Fits(a, start) && Inv(ops, a, start, mem, t, s) && s.Weighing? && s.t2 <= t
    ensures var act := Step(ops, a, mem, t, s);
            && act.Store? && act.addr < |mem| && Owner(a, act.addr) == t
            && Inv(ops, a, start, mem[act.addr := act.value], t, act.next)
  {
    hide Fits, PreV, AttV, OutV, HeadAt, OutAt, PreAt, AttAt, Load, Owner, Score, MaxTo, HeadsFinished, Channels;
    InvFits(ops, a, start, mem, t, s);
    var hd, h := HeadAt(a, start, t, s.h), s.h;
    var act := Step(ops, a, mem, t, s);
    LoadOwn(ops, a, mem, t, h, s.t2, 0);
    assert PreV(a, mem, t, h, s.t2) == Score(ops, hd, s.t2);
    assert act.value == Weight(ops, hd, s.t2);
    StoreAtt(a, mem, t, h, s.t2, act.value);
    var mem' := mem[act.addr := act.value];
    SameFits(a, mem, mem');
    FinishedKept(ops, a, start, mem, mem', t, h);
  }

  lemma WeighEndFine<F>(ops: Ops<F>, a: Args, start: seq<F>, mem: seq<F>, t: nat, s: Thread<F>)
    requires Fits(a, start) && Inv(ops, a, start, mem, t, s) && s.Weighing? && s.t2 == t + 1
    ensures var act := Step(ops, a, mem, t, s); act.Compute? && Inv(ops, a, start, mem, t, act.next)
  {
    assert |HeadAt(a, start, t, s.h).rows| == t + 1;
    hide PreV, AttV, HeadAt, HeadsFinished, PreTo, Fits, Weight, WeightsTo;
  }

  lemma NormFine<F>(ops: Ops<F>, a: Args, start: seq<F>, mem: seq<F>, t: nat, s: Thread<F>)
    requires Fits(a, start) && Inv(ops, a, start, mem, t, s) && s.Normalising? && s.t2 < a.T
    ensures var act := Step(ops, a, mem, t, s);
            && act.Store? && act.addr < |mem| && Owner(a, act.addr) == t
            && Inv(ops, a, start, mem[act.addr := act.value], t, act.next)
  {
    hide Fits, PreV, AttV, OutV, HeadAt, OutAt, PreAt, AttAt, Load, Owner, Score, Weight, Inverse, HeadsFinished,
         Channels;
    InvFits(ops, a, start, mem, t, s);
    var hd, h := HeadAt(a, start, t, s.h), s.h;
    var act := Step(ops, a, mem, t, s);
    LoadOwn(ops, a, mem, t, h, s.t2, 0);
    assert |hd.rows| == t + 1;
    assert act.value == Att(ops, hd, s.t2);
    StoreAtt(a, mem, t, h, s.t2, act.value);
    var mem' := mem[act.addr := act.value];
    SameFits(a, mem, mem');
    FinishedKept(ops, a, start, mem, mem', t, h);
  }

  lemma ClearFine<F>(ops: Ops<F>, a: Args, start: seq<F>, mem: seq<F>, t: nat, s: Thread<F>)
    requires Fits(a, start) && Inv(ops, a, start, mem, t, s) && s.Clearing? && s.i < a.hs
    ensures var act := Step(ops, a, mem, t, s);
            && act.Store? && act.addr < |mem| && Owner(a, act.addr) == t
            && Inv(ops, a, start, mem[act.addr := act.value], t, act.next)
  {
    hide Fits, PreV, AttV, OutV, HeadAt, OutAt, PreAt, AttAt, Load, Owner, Score, Att, HeadsFinished, Channels;
    InvFits(ops, a, start, mem, t, s);
    var act := Step(ops, a, mem, t, s);
    StoreOut(a, mem, t, s.h, s.i, act.value);
    var mem' := mem[act.addr := act.value];
    SameFits(a, mem, mem');
    FinishedKept(ops, a, start, mem, mem', t, s.h);
  }

  lemma InvFits<F>(ops: Ops<F>, a: Args, start: seq<F>, mem: seq<F>, t: nat, s: Thread<F>)
    requires Fits(a, start) && Inv(ops, a, start, mem, t, s)
    ensures Fits(a, mem) && a.hs > 0 && t < a.T && |mem| == |start| && s.h <= a.NH && (!s.NextHead? ==> s.h < a.NH)
  {
    hide HeadsFinished, Working, OutSize, AttSize, InpSize;
  }

  lemma MixState<F>(ops: Ops<F>, a: Args, start: seq<F>, mem: seq<F>, t: nat, s: Thread<F>)
    requires Fits(a, start) && Inv(ops, a, start, mem, t, s) && s.Mixing? && s.t2 <= t && s.i < a.hs
    ensures AttV(a, mem, t, s.h, s.t2) == Att(ops, HeadAt(a, start, t, s.h), s.t2)
    ensures OutV(a, mem, t, s.h, s.i) == MixTo(ops, HeadAt(a, start, t, s.h), s.i, s.t2)
  {
    assert Fits(a, mem);
    hide Fits, PreV, OutV, AttV, HeadAt, HeadsFinished, PreTo, Att, MixTo;
  }

  lemma MixValue<F>(ops: Ops<F>, a: Args, start: seq<F>, mem: seq<F>, t: nat, s: Thread<F>)
    requires Fits(a, start) && OnlyOwned(start, mem, a.T, (addr: nat) => Owner(a, addr))
    requires Inv(ops, a, start, mem, t, s) && s.Mixing? && s.t2 <= t && s.i < a.hs
    ensures Step(ops, a, mem, t, s) ==
              Store(OutAt(a, t, s.h, s.i), MixTo(ops, HeadAt(a, start, t, s.h), s.i, s.t2 + 1),
                    Mixing(s.h, s.t2, s.i + 1))
  {
    hide Inv, Fits, OnlyOwned, Owner, OutV, AttV, Load, OutAt, AttAt, InpAt, Att, Part, Channels, Width, HeadAt;
    InvFits(ops, a, start, mem, t, s);
    Reads(ops, a, start, mem, t, s.h, s.t2, s.i);
    LoadOwn(ops, a, mem, t, s.h, s.t2, s.i);
    MixState(ops, a, start, mem, t, s);
  }

  lemma LoadOwn<F>(ops: Ops<F>, a: Args, mem: seq<F>, t: nat, h: nat, t2: nat, i: nat)
    requires Fits(a, mem) && t < a.T && h < a.NH && i < a.hs && t2 < a.T
    ensures Load(ops, mem, OutAt(a, t, h, i)) == OutV(a, mem, t, h, i)
    ensures Load(ops, mem, AttAt(a, t, h, t2)) == AttV(a, mem, t, h, t2)
    ensures Load(ops, mem, PreAt(a, t, h, t2)) == PreV(a, mem, t, h, t2)
  {
    OutCell(a, t, h, i);
    AttCell(a, a.preatt, t, h, t2);
    AttCell(a, a.att, t, h, t2);
    hide OutAt, AttOffset, RowOf;
  }

  lemma MixFine<F>(ops: Ops<F>, a: Args, start: seq<F>, mem: seq<F>, t: nat, s: Thread<F>)
    requires Fits(a, start) && OnlyOwned(start, mem, a.T, (addr: nat) => Owner(a, addr))
    requires Inv(ops, a, start, mem, t, s) && s.Mixing? && s.t2 <= t && s.i < a.hs
    ensures var act := Step(ops, a, mem, t, s);
            && act.Store? && act.addr < |mem| && Owner(a, act.addr) == t
            && Inv(ops, a, start, mem[act.addr := act.value], t, act.next)
  {
    hide Fits, Step, PreV, AttV, OutV, HeadAt, OutAt, Owner, OnlyOwned, Att, Score, MixTo, HeadsFinished;
    InvFits(ops, a, start, mem, t, s);
    MixValue(ops, a, start, mem, t, s);
    var act := Step(ops, a, mem, t, s);
    StoreOut(a, mem, t, s.h, s.i, act.value);
    var mem' := mem[act.addr := act.value];
    SameFits(a, mem, mem');
    FinishedKept(ops, a, start, mem, mem', t, s.h);
  }

  lemma SameFits<F>(a: Args, mem: seq<F>, mem': seq<F>)
    requires Fits(a, mem) && |mem| == |mem'|
    ensures Fits(a, mem')
  {
    hide OutSize, AttSize, InpSize;
  }

  lemma MixTurnFine<F>(ops: Ops<F>, a: Args, start: seq<F>, mem: seq<F>, t: nat, s: Thread<F>)
    requires Fits(a, start) && Inv(ops, a, start, mem, t, s) && s.Mixing? && (s.t2 == t + 1 || s.i == a.hs)
    ensures var act := Step(ops, a, mem, t, s); act.Compute? && Inv(ops, a, start, mem, t, act.next)
  {
    hide Fits, PreV, AttV, OutV, HeadAt, MixTo, Load, PreAt, AttAt, InpAt, OutAt, PreTo, AttTo, Channels;
    InvFits(ops, a, start, mem, t, s);
  }

  lemma TurnFine<F>(ops: Ops<F>, a: Args, start: seq<F>, mem: seq<F>, t: nat, s: Thread<F>)
    requires Fits(a, start) && Inv(ops, a, start, mem, t, s) && !Done(a, s)
    requires s.NextHead? || (s.Normalising? && s.t2 == a.T) || (s.Clearing? && s.i == a.hs)
    ensures var act := Step(ops, a, mem, t, s); act.Compute? && Inv(ops, a, start, mem, t, act.next)
  {
    hide Fits, PreV, AttV, OutV, HeadAt, Att, Weight, Score, Load, PreAt, AttAt, InpAt, OutAt, AttTo, HeadFinished,
         Channels;
    InvFits(ops, a, start, mem, t, s);
  }

  // ----- how much is left -----

  lemma TimesStep(n: nat, c: nat)
    ensures n > 0 ==> Times(n, c) == Times(n - 1, c) + c
  {
  }

  function MixWork(a: Args): nat {
    Times(a.T + 1, a.hs + 1)
  }

  function HeadWork(a: Args): nat {
    MixWork(a) + a.hs + 2 * a.T + 4 + Times(a.T, a.hs + 1)
  }

  /** Steps left in the current head, at most. */
  function Rest<F>(a: Args, s: Thread<F>): int {
    match s
    case NextHead(_) => HeadWork(a) + 1
    case Dotting(_, t2, i, _, _) =>
      if t2 >= a.T then 0 else MixWork(a) + a.hs + 2 * a.T + 4 + Times(a.T - t2, a.hs + 1) - i
    case Weighing(_, t2, _, _) => MixWork(a) + a.hs + 4 + 2 * a.T - t2
    case Normalising(_, t2, _) => MixWork(a) + a.hs + 3 + a.T - t2
    case Clearing(_, i) => MixWork(a) + 1 + a.hs - i
    case Mixing(_, t2, i) => if t2 > a.T then 0 else Times(a.T + 1 - t2, a.hs + 1) - i
  }

  function Work<F>(a: Args, s: Thread<F>): nat {
    if s.h >= a.NH || Rest(a, s) < 0 then 0 else Times(a.NH - s.h - 1, HeadWork(a) + 1) + Rest(a, s)
  }

  /** Either the rest of the head falls, or the head is done. */
  predicate Falls<F>(a: Args, s: Thread<F>, next: Thread<F>) {
    Rest(a, s) > 0 && (next == NextHead(s.h + 1) || (next.h == s.h && Rest(a, next) < Rest(a, s)))
  }

  /** The counters a thread keeps within bounds. */
  predicate InBounds<F>(a: Args, t: nat, s: Thread<F>) {
    && t < a.T && a.hs > 0
    && (s.Dotting? ==> s.t2 <= t && s.i <= a.hs) && (s.Weighing? ==> s.t2 <= t + 1)
    && (s.Normalising? ==> s.t2 <= a.T) && (s.Clearing? ==> s.i <= a.hs)
    && (s.Mixing? ==> s.t2 <= t + 1 && s.i <= a.hs)
  }

  lemma WorkFalls<F>(a: Args, s: Thread<F>, next: Thread<F>)
    requires s.h < a.NH && Falls(a, s, next)
    ensures Work(a, next) < Work(a, s)
  {
    hide Times, HeadWork;
    if next == NextHead(s.h + 1) {
      TimesStep(a.NH - s.h - 1, HeadWork(a) + 1);
    }
  }

  lemma DotFalls<F>(ops: Ops<F>, a: Args, mem: seq<F>, t: nat, s: Thread<F>)
    requires s.Dotting? && InBounds(a, t, s)
    ensures Falls(a, s, Step(ops, a, mem, t, s).next)
  {
    hide Times, Load, Channels, InpAt, PreAt, AttAt, OutAt, Scale;
    TimesStep(a.T - s.t2, a.hs + 1);
  }

  lemma MixFalls<F>(ops: Ops<F>, a: Args, mem: seq<F>, t: nat, s: Thread<F>)
    requires s.Mixing? && InBounds(a, t, s)
    ensures Falls(a, s, Step(ops, a, mem, t, s).next)
  {
    hide Times, Load, Channels, InpAt, PreAt, AttAt, OutAt, Scale;
    TimesStep(a.T + 1 - s.t2, a.hs + 1);
    if s.t2 <= t {
      TimesStep(a.T - s.t2, a.hs + 1);
    }
  }

  lemma PassFalls<F>(ops: Ops<F>, a: Args, mem: seq<F>, t: nat, s: Thread<F>)
    requires !s.Dotting? && !s.Mixing? && s.h < a.NH && InBounds(a, t, s)
    ensures Falls(a, s, Step(ops, a, mem, t, s).next)
  {
    hide Times, Load, Channels, InpAt, PreAt, AttAt, OutAt, Scale;
    TimesStep(a.T + 1, a.hs + 1);
  }

  lemma StepWorks<F>(ops: Ops<F>, a: Args, mem: seq<F>, t: nat, s: Thread<F>)
    requires s.h < a.NH && InBounds(a, t, s)
    ensures Work(a, Step(ops, a, mem, t, s).next) < Work(a, s)
  {
    hide Work, Step, Falls, InBounds;
    if s.Dotting? {
      DotFalls(ops, a, mem, t, s);
    } else if s.Mixing? {
      MixFalls(ops, a, mem, t, s);
    } else {
      PassFalls(ops, a, mem, t, s);
    }
    WorkFalls(a, s, Step(ops, a, mem, t, s).next);
  }

  lemma StepIsFine<F>(ops: Ops<F>, a: Args, start: seq<F>, mem: seq<F>, t: nat, s: Thread<F>)
    requires Fits(a, start) && OnlyOwned(start, mem, a.T, (addr: nat) => Owner(a, addr))
    requires Inv(ops, a, start, mem, t, s) && !Done(a, s)
    ensures var act := Step(ops, a, mem, t, s);
            && (act.Store? ==> act.addr < |mem| && Owner(a, act.addr) == t)
            && Inv(ops, a, start, After(mem, act), t, act.next) && Work(a, act.next) < Work(a, s)
  {
    StepWorks(ops, a, mem, t, s);
    if s.Dotting? {
      if s.i < a.hs { DotFine(ops, a, start, mem, t, s); } else { ScoreFine(ops, a, start, mem, t, s); }
    } else if s.Weighing? {
      if s.t2 <= t { WeighFine(ops, a, start, mem, t, s); } else { WeighEndFine(ops, a, start, mem, t, s); }
    } else if s.Normalising? && s.t2 < a.T {
      NormFine(ops, a, start, mem, t, s);
    } else if s.Clearing? && s.i < a.hs {
      ClearFine(ops, a, start, mem, t, s);
    } else if s.Mixing? && s.t2 <= t && s.i < a.hs {
      MixFine(ops, a, start, mem, t, s);
    } else if s.Mixing? {
      MixTurnFine(ops, a, start, mem, t, s);
    } else {
      TurnFine(ops, a, start, mem, t, s);
    }
    hide Fits, Inv, Step, Owner, OnlyOwned, Work;
  }

  lemma OwnSame<F>(a: Args, mem: seq<F>, mem': seq<F>, t: nat)
    requires Fits(a, mem) && Fits(a, mem') && t < a.T && |mem| == |mem'|
    requires forall addr :: 0 <= addr < |mem| && Owner(a, addr) == t ==> mem'[addr] == mem[addr]
    ensures SameOut(a, mem, mem', t) && SamePre(a, mem, mem', t) && SameAtt(a, mem, mem', t)
  {
    forall h: nat, i: nat | h < a.NH && i < a.hs ensures OutV(a, mem', t, h, i) == OutV(a, mem, t, h, i) {
      OwnCells(a, mem, t, h, i, t);
    }
    forall h: nat, k: nat | h < a.NH && k < a.T
      ensures k <= t ==> PreV(a, mem', t, h, k) == PreV(a, mem, t, h, k)
      ensures AttV(a, mem', t, h, k) == AttV(a, mem, t, h, k)
    {
      OwnCells(a, mem, t, h, 0, k);
    }
  }

  lemma WorkingKept<F>(ops: Ops<F>, a: Args, start: seq<F>, mem: seq<F>, mem': seq<F>, t: nat, s: Thread<F>)
    requires Fits(a, start) && Fits(a, mem) && Fits(a, mem') && t < a.T && s.h < a.NH
    requires SameOut(a, mem, mem', t) && SamePre(a, mem, mem', t) && SameAtt(a, mem, mem', t)
    requires Working(ops, a, start, mem, t, s)
    ensures Working(ops, a, start, mem', t, s)
  {
    hide Fits, OutV, PreV, AttV, HeadAt, Score, Att, Weight, MixTo, MaxTo, DotTo, Query, Part, WeightsTo, Inverse;
  }

  lemma InvIsStable<F>(ops: Ops<F>, a: Args, start: seq<F>, mem: seq<F>, mem': seq<F>, t: nat, s: Thread<F>)
    requires Fits(a, start) && |mem'| == |start| && Inv(ops, a, start, mem, t, s)
    requires forall addr :: 0 <= addr < |start| && Owner(a, addr) == t ==> mem'[addr] == mem[addr]
    ensures Inv(ops, a, start, mem', t, s)
  {
    OwnSame(a, mem, mem', t);
    assert Fits(a, mem) && Fits(a, mem');
    hide Fits, OutV, PreV, AttV, Owner, Working;
    FinishedKept(ops, a, start, mem, mem', t, s.h);
    hide HeadsFinished;
    if !s.NextHead? {
      WorkingKept(ops, a, start, mem, mem', t, s);
    }
  }

  predicate Written(a: Args, addr: nat) {
    || a.out <= addr < a.out + OutSize(a)
    || a.preatt <= addr < a.preatt + AttSize(a)
    || a.att <= addr < a.att + AttSize(a)
  }

  /** Scores, weights and outputs of all positions and heads are in place, and nothing else changed. */
  ghost predicate Result<F>(ops: Ops<F>, a: Args, start: seq<F>, mem: seq<F>)
    requires Fits(a, start)
  {
    && |mem| == |start|
    && (forall addr :: 0 <= addr < |mem| && Owner(a, addr) == -1 ==> mem[addr] == start[addr])
    && forall t :: 0 <= t < a.T ==> HeadsFinished(ops, a, start, mem, t, a.NH)
  }

  lemma NotOwned(a: Args, addr: nat)
    requires !Written(a, addr)
    ensures Owner(a, addr) == -1
  {
  }

  /** The input determines the memory a call leaves. */
  lemma OneResult<F>(ops: Ops<F>, a: Args, start: seq<F>, mem: seq<F>, mem': seq<F>)
    requires Fits(a, start) && Result(ops, a, start, mem) && Result(ops, a, start, mem')
    ensures mem == mem'
  {
    assert |mem| == |mem'| == |start|;
    assert forall addr :: 0 <= addr < |start| && Owner(a, addr) == -1 ==> mem[addr] == mem'[addr];
    hide *;
    forall addr | 0 <= addr < |start| ensures mem[addr] == mem'[addr] {
      if Owner(a, addr) != -1 {
        if a.out <= addr < a.out + OutSize(a) {
          SameOutputs(ops, a, start, mem, mem', addr);
        } else {
          SameWeights(ops, a, start, mem, mem', addr);
        }
      }
    }
  }

  lemma SameOutputs<F>(ops: Ops<F>, a: Args, start: seq<F>, mem: seq<F>, mem': seq<F>, addr: nat)
    requires Fits(a, start) && Result(ops, a, start, mem) && Result(ops, a, start, mem')
    requires a.out <= addr < a.out + OutSize(a)
    ensures addr < |mem| && addr < |mem'| && mem[addr] == mem'[addr]
  {
    var c := addr - a.out;
    CellOf(c, a.T, Channels(a));
    var t, j := c / Channels(a), c % Channels(a);
    assert addr == OutRowAt(a, t) + j;
    hide *;
    OutputColumn(ops, a, start, mem, t, j);
    OutputColumn(ops, a, start, mem', t, j);
  }

  lemma CellOf(c: nat, count: nat, n: nat)
    requires c < count * n
    ensures n > 0 && c / n < count && c % n < n && (c / n) * n + c % n == c
  {
    HeadAndColumn(c, count, n);
  }

  /** The head, position and column that a score or weight belongs to. */
  lemma WeightCell(a: Args, base: nat, addr: nat) returns (t: nat, h: nat, k: nat)
    requires base <= addr < base + AttSize(a)
    ensures t < a.T && h < a.NH && k < a.T && addr == base + AttOffset(a, t, h, k)
  {
    CellOf(addr - base, a.NH * a.T, a.T);
    var q := (addr - base) / a.T;
    k := (addr - base) % a.T;
    CellOf(q, a.NH, a.T);
    h, t := q / a.T, q % a.T;
    assert q == h * a.T + t;
  }

  lemma CellOfWeight<F>(a: Args, mem: seq<F>, addr: nat) returns (t: nat, h: nat, k: nat, pre: bool)
    requires Fits(a, mem) && addr < |mem| && Owner(a, addr) != -1 && !(a.out <= addr < a.out + OutSize(a))
    ensures t < a.T && h < a.NH && k < a.T && (pre ==> k <= t)
    ensures addr == if pre then PreAt(a, t, h, k) else AttAt(a, t, h, k)
  {
    pre := a.preatt <= addr < a.preatt + AttSize(a);
    t, h, k := WeightCell(a, if pre then a.preatt else a.att, addr);
    AttCell(a, if pre then a.preatt else a.att, t, h, k);
  }

  lemma SameWeights<F>(ops: Ops<F>, a: Args, start: seq<F>, mem: seq<F>, mem': seq<F>, addr: nat)
    requires Fits(a, start) && Result(ops, a, start, mem) && Result(ops, a, start, mem')
    requires addr < |start| && Owner(a, addr) != -1 && !(a.out <= addr < a.out + OutSize(a))
    ensures addr < |mem| && addr < |mem'| && mem[addr] == mem'[addr]
  {
    hide Fits, Result, Owner, OutSize, AttSize, PreAt, AttAt, PreV, AttV, HeadAt, Score, Att, OutTo;
    var t, h, k, pre := CellOfWeight(a, start, addr);
    ResultHead(ops, a, start, mem, t, h);
    ResultHead(ops, a, start, mem', t, h);
    LoadOwn(ops, a, mem, t, h, k, 0);
    LoadOwn(ops, a, mem', t, h, k, 0);
  }

  lemma FinishedCell<F>(ops: Ops<F>, a: Args, start: seq<F>, mem: seq<F>, t: nat, h: nat, i: nat)
    requires Fits(a, start) && Fits(a, mem) && t < a.T && h < a.NH && i < a.hs
    requires HeadFinished(ops, a, start, mem, t, h)
    ensures OutV(a, mem, t, h, i) == MixTo(ops, HeadAt(a, start, t, h), i, t + 1)
  {
    hide Fits, OutV, PreTo, AttTo, HeadAt, MixTo;
  }

  lemma ResultHead<F>(ops: Ops<F>, a: Args, start: seq<F>, mem: seq<F>, t: nat, h: nat)
    requires Fits(a, start) && Result(ops, a, start, mem) && t < a.T && h < a.NH
    ensures |mem| == |start| && Fits(a, mem) && a.hs > 0 && HeadFinished(ops, a, start, mem, t, h)
  {
    hide HeadFinished, OutSize, AttSize, InpSize, Owner;
    assert HeadsFinished(ops, a, start, mem, t, a.NH);
  }

  lemma OutVAt<F>(a: Args, mem: seq<F>, t: nat, h: nat, i: nat)
    requires Fits(a, mem) && t < a.T && h < a.NH && i < a.hs
    ensures OutAt(a, t, h, i) < |mem| && mem[OutAt(a, t, h, i)] == OutV(a, mem, t, h, i)
  {
    OutCell(a, t, h, i);
    assert OutAt(a, t, h, i) < |mem|;
    assert mem[OutAt(a, t, h, i)] == OutV(a, mem, t, h, i);
  }

  lemma OutputCell<F>(ops: Ops<F>, a: Args, start: seq<F>, mem: seq<F>, t: nat, h: nat, i: nat)
    requires Fits(a, start) && Result(ops, a, start, mem) && t < a.T && h < a.NH && i < a.hs
    ensures OutAt(a, t, h, i) < |mem| && mem[OutAt(a, t, h, i)] == MixTo(ops, HeadAt(a, start, t, h), i, t + 1)
  {
    hide Fits, Result, OutAt, HeadAt, MixTo, OutV, HeadFinished;
    ResultHead(ops, a, start, mem, t, h);
    FinishedCell(ops, a, start, mem, t, h, i);
    OutVAt(a, mem, t, h, i);
  }

  lemma ColumnSplit(a: Args, t: nat, j: nat) returns (h: nat, i: nat)
    requires a.hs > 0 && j < Channels(a)
    ensures h < a.NH && i < a.hs && j == h * a.hs + i && OutAt(a, t, h, i) == OutRowAt(a, t) + j
  {
    HeadAndColumn(j, a.NH, a.hs);
    h, i := j / a.hs, j % a.hs;
  }

  lemma HeadsFit<F>(a: Args, start: seq<F>)
    requires Fits(a, start)
    ensures a.hs > 0
  {
    hide OutSize, AttSize, InpSize;
  }

  lemma WantedColumn<F>(ops: Ops<F>, a: Args, start: seq<F>, t: nat, h: nat, i: nat)
    requires Fits(a, start) && t < a.T && h < a.NH && i < a.hs
    ensures h * a.hs + i < |AttRow(ops, Rows(a, start, t), a.NH, a.hs)|
    ensures AttRow(ops, Rows(a, start, t), a.NH, a.hs)[h * a.hs + i] == MixTo(ops, HeadAt(a, start, t, h), i, t + 1)
  {
    hide MixTo, Fits, Rows;
    HeadsFit(a, start);
    RowAndColumn(h, a.hs, i);
    InRange(h, a.NH, a.hs, i);
  }

  lemma OutputColumn<F>(ops: Ops<F>, a: Args, start: seq<F>, mem: seq<F>, t: nat, j: nat)
    requires Fits(a, start) && Result(ops, a, start, mem) && t < a.T && j < Channels(a)
    ensures j < |AttRow(ops, Rows(a, start, t), a.NH, a.hs)| && OutRowAt(a, t) + j < |mem|
    ensures mem[OutRowAt(a, t) + j] == AttRow(ops, Rows(a, start, t), a.NH, a.hs)[j]
  {
    hide Fits, Result, OutAt, OutRowAt, MixTo, HeadAt, AttRow, Rows;
    HeadsFit(a, start);
    var h, i := ColumnSplit(a, t, j);
    WantedColumn(ops, a, start, t, h, i);
    OutputCell(ops, a, start, mem, t, h, i);
  }

  lemma OutputRowFits<F>(a: Args, mem: seq<F>, t: nat)
    requires Fits(a, mem) && t < a.T
    ensures OutRowAt(a, t) + Channels(a) <= |mem|
  {
    InRangeRow(t, a.T, Channels(a));
    hide Channels, AttSize, InpSize;
  }

  /** The outputs of position t, read as one row. */
  lemma OutputRow<F>(ops: Ops<F>, a: Args, start: seq<F>, mem: seq<F>, t: nat)
    requires Fits(a, start) && Result(ops, a, start, mem) && t < a.T
    ensures |mem| == |start| && OutRowAt(a, t) + Channels(a) <= |mem|
    ensures Slice(mem, OutRowAt(a, t), Channels(a)) == AttRow(ops, Rows(a, start, t), a.NH, a.hs)
  {
    assert |mem| == |start|;
    OutputRowFits(a, start, t);
    hide Fits, Result, AttRow, Rows, Channels, OutRowAt;
    var c, at := Channels(a), OutRowAt(a, t);
    var got, want := Slice(mem, at, c), AttRow(ops, Rows(a, start, t), a.NH, a.hs);
    assert |want| == c by {
      assert c == a.NH * a.hs by { SizeOfRow(a); }
    }
    forall j | 0 <= j < c ensures got[j] == want[j] {
      OutputColumn(ops, a, start, mem, t, j);
    }
  }

  lemma SizeOfRow(a: Args)
    ensures Channels(a) == a.NH * a.hs
  {
  }

  lemma InRangeRow(t: nat, bound: nat, n: nat)
    requires t < bound
    ensures t * n + n <= bound * n
  {
    Gap(bound - t, n);
    assert (bound - t) * n == bound * n - t * n;
  }

  // ----- all schedules -----

  function Starts<F>(a: Args): seq<Thread<F>> {
    seq(a.T, _ => NextHead(0))
  }

  function Acting<F>(ops: Ops<F>, a: Args): (seq<F>, nat, Thread<F>) -> Action<F, Thread<F>> {
    (mem: seq<F>, t: nat, s: Thread<F>) => Step(ops, a, mem, t, s)
  }

  function Ending<F>(a: Args): Thread<F> -> bool {
    (s: Thread<F>) => Done(a, s)
  }

  ghost function Holding<F(!new)>(ops: Ops<F>, a: Args, start: seq<F>): (seq<F>, nat, Thread<F>) -> bool
    requires Fits(a, start)
  {
    (mem: seq<F>, t: nat, s: Thread<F>) => Inv(ops, a, start, mem, t, s)
  }

  ghost function Owning(a: Args): nat -> int {
    (addr: nat) => Owner(a, addr)
  }

  ghost function Measuring<F>(a: Args): Thread<F> -> nat {
    (s: Thread<F>) => Work(a, s)
  }

  /** Every step of every thread is in order, whatever the others have stored. */
  lemma Sound<F(!new)>(ops: Ops<F>, a: Args, start: seq<F>)
    requires Fits(a, start)
    ensures StepsFine(start, |Starts<F>(a)|, Acting(ops, a), Ending(a), Holding(ops, a, start), Owning(a), Measuring(a))
    ensures Stable(start, |Starts<F>(a)|, Holding(ops, a, start), Owning(a))
    ensures AllHold(start, Starts(a), Holding(ops, a, start))
  {
    var action, done := Acting(ops, a), Ending<F>(a);
    var inv, owner, work := Holding(ops, a, start), Owning(a), Measuring<F>(a);
    forall mem: seq<F>, t: nat, s: Thread<F>
      | OnlyOwned(start, mem, a.T, owner) && t < a.T && inv(mem, t, s) && !done(s)
      ensures GptThreads.StepFine(mem, t, s, action(mem, t, s), inv, owner, work)
    {
      StepIsFine(ops, a, start, mem, t, s);
    }
    forall mem: seq<F>, mem': seq<F>, t: nat, s: Thread<F>
      | OnlyOwned(start, mem, a.T, owner) && OnlyOwned(start, mem', a.T, owner) && t < a.T && inv(mem, t, s)
        && (forall addr :: 0 <= addr < |start| && owner(addr) == t ==> mem'[addr] == mem[addr])
      ensures inv(mem', t, s)
    {
      InvIsStable(ops, a, start, mem, mem', t, s);
    }
  }

  /** However the scheduler picks, what the threads leave is the result. */
  lemma AnySchedule<F(!new)>(ops: Ops<F>, a: Args, start: seq<F>, picks: seq<nat>, mem: seq<F>)
    requires Fits(a, start) && Ends(start, Starts(a), Acting(ops, a), Ending(a), picks, mem)
    ensures Result(ops, a, start, mem)
  {
    Sound(ops, a, start);
    RunFine(start, Starts(a), Acting(ops, a), Ending(a), Holding(ops, a, start), Owning(a), Measuring(a),
            picks);
    var final := Run(start, Starts(a), Acting(ops, a), Ending(a), picks).1;
    hide HeadsFinished, Owner, OutSize, AttSize, InpSize;
    forall t | 0 <= t < a.T ensures HeadsFinished(ops, a, start, mem, t, a.NH) {
      assert Holding(ops, a, start)(mem, t, final[t]) && Ending(a)(final[t]);
    }
  }

  /** Any two interleavings of the T threads end in the same memory. */
  lemma SameEnd<F(!new)>(ops: Ops<F>, a: Args, start: seq<F>, picks: seq<nat>, mem: seq<F>,
                         picks': seq<nat>, mem': seq<F>)
    requires Fits(a, start)
    requires Ends(start, Starts(a), Acting(ops, a), Ending(a), picks, mem)
    requires Ends(start, Starts(a), Acting(ops, a), Ending(a), picks', mem')
    ensures mem == mem'
  {
    hide Fits, Ends, Result, Starts, Acting, Ending;
    AnySchedule(ops, a, start, picks, mem);
    AnySchedule(ops, a, start, picks', mem');
    OneResult(ops, a, start, mem, mem');
  }

  /** attention_forward with its T threads, under any scheduler. */
  method Forward<F(!new)>(ops: Ops<F>, a: Args, acts: array<F>)
    requires Fits(a, acts[..])
    modifies acts
    ensures Result(ops, a, old(acts[..]), acts[..])
  {
    hide Fits, Ends, Result, Starts, Acting, Ending, Holding, Owning, Measuring;
    ghost var start := acts[..];
    Sound(ops, a, start);
    ghost var inv := Holding(ops, a, start);
    var _, picks := ForkJoin(acts, Starts(a), Acting(ops, a), Ending(a), inv, Owning(a), Measuring(a));
    AnySchedule(ops, a, start, picks, acts[..]);
  }
}
