/** Row-major addresses, and matmul_forward: a thread for each position, each storing one row of the result. */
module GptIndex {

  lemma InRange(t: nat, bound: nat, n: nat, i: nat)
    requires t < bound && i < n
    ensures t * n + i < bound * n
    ensures t * n + n <= bound * n
  {
    assert t * n + n == (t + 1) * n <= bound * n;
  }

  lemma RowAndColumn(t: nat, n: nat, i: nat)
    requires i < n
    ensures (t * n + i) / n == t && (t * n + i) % n == i
  {
    var a := t * n + i;
    SameRow(a / n, a % n, t, i, n);
  }

  lemma SameRow(q: int, r: int, t: int, i: int, n: nat)
    requires q * n + r == t * n + i && 0 <= r < n && 0 <= i < n
    ensures q == t && r == i
  {
    if q < t {
      RowsApart(q, t, n);
    } else if q > t {
      RowsApart(t, q, n);
    }
  }

  function Times(n: nat, c: nat): nat {
    n * c
  }

  lemma RowsApart(q: int, t: int, n: nat)
    requires q < t
    ensures t * n - q * n >= n
  {
    Gap(t - q, n);
    assert (t - q) * n == t * n - q * n;
  }

  lemma Gap(k: nat, n: nat)
    requires k > 0
    ensures k * n >= n
  {
  }

  /** Position of an address in a block of `count` rows of n, or -1 outside. */
  function RowOf(a: nat, base: nat, count: nat, n: nat): int {
    if n > 0 && base <= a < base + count * n then (a - base) / n else -1
  }

  lemma RowOfCell(base: nat, count: nat, n: nat, t: nat, i: nat)
    requires t < count && i < n
    ensures base + t * n + i < base + count * n && RowOf(base + t * n + i, base, count, n) == t
  {
    InRange(t, count, n, i);
    RowAndColumn(t, n, i);
  }

  lemma RowOfOutside(a: nat, base: nat, count: nat, n: nat)
    requires a < base || base + count * n <= a
    ensures RowOf(a, base, count, n) == -1
  {
  }

  /** Where row t of rows of length n starts. */
  function RowAddr(base: nat, t: nat, n: nat): nat {
    base + t * n
  }

  ghost predicate Apart(a: nat, aLen: nat, b: nat, bLen: nat) {
    a + aLen <= b || b + bLen <= a
  }

  function Slice<F>(mem: seq<F>, a: nat, n: nat): (r: seq<F>)
    requires a + n <= |mem|
    ensures |r| == n
  {
    mem[a..a + n]
  }
}

module GptMatmul {
  import opened GptRows
  import opened GptThreads
  import opened GptIndex

  /** Where the operands are: out and inp in the activations, weight and bias in the parameters. */
  datatype Args = Args(out: nat, inp: nat, weight: nat, hasBias: bool, bias: nat, T: nat, C: nat, OC: nat)

  ghost predicate Fits<F>(a: Args, start: seq<F>, params: seq<F>) {
    && a.out + a.T * a.OC <= |start| && a.inp + a.T * a.C <= |start| && Apart(a.out, a.T * a.OC, a.inp, a.T * a.C)
    && a.weight + a.OC * a.C <= |params| && (a.hasBias ==> a.bias + a.OC <= |params|)
  }

  // ----- the result -----

  function Input<F>(a: Args, mem: seq<F>, params: seq<F>, t: nat): (x: Row<F>)
    requires Fits(a, mem, params) && t < a.T
    ensures |x| == a.C
  {
    assert t * a.C + a.C == (t + 1) * a.C <= a.T * a.C;
    Slice(mem, a.inp + t * a.C, a.C)
  }

  function BiasRow<F>(a: Args, params: seq<F>): (b: Bias<F>)
    requires a.hasBias ==> a.bias + a.OC <= |params|
    ensures b.Bias? ==> |b.row| == a.OC
  {
    if a.hasBias then Bias(Slice(params, a.bias, a.OC)) else NoBias
  }

  function Output<F>(ops: Ops<F>, a: Args, mem: seq<F>, params: seq<F>, t: nat): (y: Row<F>)
    requires Fits(a, mem, params) && t < a.T
    ensures |y| == a.OC
  {
    MatRow(ops, Input(a, mem, params, t), Slice(params, a.weight, a.OC * a.C), BiasRow(a, params), a.OC)
  }

  // ----- the thread -----

  /** About to start output o, or in the middle of its dot product with i products added, or finished. */
  datatype Thread<F> = Begin(o: nat) | Adding(o: nat, i: nat, val: F)

  predicate Done<F>(a: Args, s: Thread<F>) {
    s.Begin? && s.o >= a.OC
  }

  /** Lines 127-134, one addition or one store at a time. */
  function Step<F>(ops: Ops<F>, a: Args, params: seq<F>, mem: seq<F>, t: nat, s: Thread<F>): Action<F, Thread<F>> {
    if Done(a, s) then Compute(s)
    else match s
      case Begin(o) =>
        var at := a.bias + o;
        Compute(Adding(o, 0, if a.hasBias && at < |params| then params[at] else ops.zero))
      case Adding(o, i, val) =>
        var x, w := a.inp + t * a.C + i, a.weight + o * a.C + i;
        if i < a.C && x < |mem| && w < |params|
        then Compute(Adding(o, i + 1, ops.add(val, ops.mul(mem[x], params[w]))))
        else Store(a.out + t * a.OC + o, val, Begin(o + 1))
  }

  function Work<F>(a: Args, s: Thread<F>): nat {
    match s
    case Begin(o) => if o >= a.OC then 0 else Times(a.OC - o, a.C + 2)
    case Adding(o, i, _) =>
      if o >= a.OC || i > a.C then 0 else Times(a.OC - o - 1, a.C + 2) + (a.C - i) + 1
  }

  function Owner(a: Args, addr: nat): int {
    RowOf(addr, a.out, a.T, a.OC)
  }

  /** Outputs below o are stored; the current dot product is right so far. */
  ghost predicate Inv<F>(ops: Ops<F>, a: Args, start: seq<F>, params: seq<F>, mem: seq<F>, t: nat, s: Thread<F>)
    requires Fits(a, start, params)
  {
    && t < a.T && |mem| == |start|
    && s.o <= a.OC
    && (forall o :: 0 <= o < s.o ==> Stored(ops, a, start, params, mem, t, o))
    && (s.Adding? ==>
          && s.o < a.OC && s.i <= a.C
          && s.val == DotTo(ops, BiasAt(ops, BiasRow(a, params), s.o), Input(a, start, params, t),
                            OutputWeights(a, params, s.o), s.i))
  }

  function OutputWeights<F>(a: Args, params: seq<F>, o: nat): (w: Row<F>)
    requires a.weight + a.OC * a.C <= |params| && o < a.OC
    ensures |w| == a.C
  {
    RowInside(o, a.OC, a.C);
    WeightRow(Slice(params, a.weight, a.OC * a.C), o, a.C)
  }

  ghost predicate Stored<F>(ops: Ops<F>, a: Args, start: seq<F>, params: seq<F>, mem: seq<F>, t: nat, o: nat)
    requires Fits(a, start, params) && t < a.T && o < a.OC && |mem| == |start|
  {
    var at := a.out + t * a.OC + o;
    at < |mem| && mem[at] == Output(ops, a, start, params, t)[o]
  }

  lemma InputUntouched<F>(a: Args, start: seq<F>, params: seq<F>, mem: seq<F>, t: nat, i: nat)
    requires Fits(a, start, params) && OnlyOwned(start, mem, a.T, (addr: nat) => Owner(a, addr)) && t < a.T && i < a.C
    ensures a.inp + t * a.C + i < |mem| && mem[a.inp + t * a.C + i] == Input(a, start, params, t)[i]
  {
    hide RowOf, Input;
    InputCell(a, start, params, t, i);
  }

  lemma InputCell<F>(a: Args, start: seq<F>, params: seq<F>, t: nat, i: nat)
    requires Fits(a, start, params) && t < a.T && i < a.C
    ensures var addr := a.inp + t * a.C + i;
            addr < |start| && Owner(a, addr) == -1 && Input(a, start, params, t)[i] == start[addr]
  {
    hide RowOf;
    InRange(t, a.T, a.C, i);
    RowOfOutside(a.inp + t * a.C + i, a.out, a.T, a.OC);
  }

  lemma WeightAt<F>(a: Args, params: seq<F>, o: nat, i: nat)
    requires a.weight + a.OC * a.C <= |params| && o < a.OC && i < a.C
    ensures a.weight + o * a.C + i < |params| && params[a.weight + o * a.C + i] == OutputWeights(a, params, o)[i]
  {
    InRange(o, a.OC, a.C, i);
    assert (o + 1) * a.C == o * a.C + a.C;
  }

  lemma AddIsFine<F>(ops: Ops<F>, a: Args, start: seq<F>, params: seq<F>, mem: seq<F>, t: nat, s: Thread<F>)
    requires Fits(a, start, params) && OnlyOwned(start, mem, a.T, (addr: nat) => Owner(a, addr))
    requires Inv(ops, a, start, params, mem, t, s) && s.Adding? && s.i < a.C
    ensures var act := Step(ops, a, params, mem, t, s);
            act.Compute? && Inv(ops, a, start, params, mem, t, act.next) && Work(a, act.next) < Work(a, s)
  {
    InputUntouched(a, start, params, mem, t, s.i);
    WeightAt(a, params, s.o, s.i);
    hide Stored, OnlyOwned, Input, OutputWeights;
  }

  lemma OtherOutputs<F>(ops: Ops<F>, a: Args, start: seq<F>, params: seq<F>, mem: seq<F>, t: nat, o: nat, at: nat, v: F)
    requires Fits(a, start, params) && t < a.T && o < a.OC && |mem| == |start|
    requires at == a.out + t * a.OC + o && at < |mem| && v == Output(ops, a, start, params, t)[o]
    requires forall p :: 0 <= p < o ==> Stored(ops, a, start, params, mem, t, p)
    ensures var after := mem[at := v]; forall p :: 0 <= p < o + 1 ==> Stored(ops, a, start, params, after, t, p)
  {
    hide Output;
    var after := mem[at := v];
    forall p | 0 <= p < o + 1 ensures Stored(ops, a, start, params, after, t, p) {
      if p < o {
        assert Stored(ops, a, start, params, mem, t, p);
      }
    }
  }

  lemma StoreIsFine<F>(ops: Ops<F>, a: Args, start: seq<F>, params: seq<F>, mem: seq<F>, t: nat, s: Thread<F>)
    requires Fits(a, start, params) && Inv(ops, a, start, params, mem, t, s) && s.Adding? && s.i == a.C
    ensures var act := Step(ops, a, params, mem, t, s);
            && act.Store? && act.addr < |mem| && Owner(a, act.addr) == t
            && Inv(ops, a, start, params, mem[act.addr := act.value], t, act.next) && Work(a, act.next) < Work(a, s)
  {
    WorkStep(a.OC - s.o, a.C);
    RowOfCell(a.out, a.T, a.OC, t, s.o);
    OtherOutputs(ops, a, start, params, mem, t, s.o, a.out + t * a.OC + s.o, s.val);
    hide Stored, Output;
  }

  lemma StepIsFine<F>(ops: Ops<F>, a: Args, start: seq<F>, params: seq<F>, mem: seq<F>, t: nat, s: Thread<F>)
    requires Fits(a, start, params) && OnlyOwned(start, mem, a.T, (addr: nat) => Owner(a, addr))
    requires Inv(ops, a, start, params, mem, t, s) && !Done(a, s)
    ensures var act := Step(ops, a, params, mem, t, s);
            && (act.Store? ==> act.addr < |mem| && Owner(a, act.addr) == t)
            && Inv(ops, a, start, params, After(mem, act), t, act.next) && Work(a, act.next) < Work(a, s)
  {
    if s.Begin? {
      WorkStep(a.OC - s.o, a.C);
    } else if s.i < a.C {
      AddIsFine(ops, a, start, params, mem, t, s);
    } else {
      StoreIsFine(ops, a, start, params, mem, t, s);
    }
    hide Stored, Input, OutputWeights, OnlyOwned;
  }

  lemma WorkStep(left: nat, c: nat)
    ensures left > 0 ==> Times(left, c + 2) == Times(left - 1, c + 2) + c + 2
  {
  }

  lemma InvIsStable<F(!new)>(ops: Ops<F>, a: Args, start: seq<F>, params: seq<F>, mem: seq<F>, mem': seq<F>, t: nat,
                      s: Thread<F>)
    requires Fits(a, start, params) && |mem'| == |start| && Inv(ops, a, start, params, mem, t, s)
    requires forall addr :: 0 <= addr < |start| && Owner(a, addr) == t ==> mem'[addr] == mem[addr]
    ensures Inv(ops, a, start, params, mem', t, s)
  {
    forall o | 0 <= o < s.o ensures Stored(ops, a, start, params, mem', t, o) {
      RowOfCell(a.out, a.T, a.OC, t, o);
      assert Stored(ops, a, start, params, mem, t, o);
    }
  }

  /** The rows a kernel call leaves, and that it leaves nothing else. */
  ghost predicate Result<F>(ops: Ops<F>, a: Args, start: seq<F>, params: seq<F>, mem: seq<F>)
    requires Fits(a, start, params)
  {
    && |mem| == |start|
    && (forall addr :: 0 <= addr < |mem| && !(a.out <= addr < a.out + a.T * a.OC) ==> mem[addr] == start[addr])
    && forall t, o :: 0 <= t < a.T && 0 <= o < a.OC ==> Stored(ops, a, start, params, mem, t, o)
  }

  lemma ElementOf<F>(ops: Ops<F>, a: Args, start: seq<F>, params: seq<F>, mem: seq<F>, t: nat, o: nat)
    requires Fits(a, start, params) && Result(ops, a, start, params, mem) && t < a.T && o < a.OC
    ensures a.out + t * a.OC + o < |mem| && mem[a.out + t * a.OC + o] == Output(ops, a, start, params, t)[o]
  {
    hide Output, Fits;
    assert Stored(ops, a, start, params, mem, t, o);
  }

  /** The input determines the memory a call leaves. */
  lemma OneResult<F>(ops: Ops<F>, a: Args, start: seq<F>, params: seq<F>, mem: seq<F>, mem': seq<F>)
    requires Fits(a, start, params) && Result(ops, a, start, params, mem) && Result(ops, a, start, params, mem')
    ensures mem == mem'
  {
    hide Output, Fits;
    forall addr | 0 <= addr < |start| ensures mem[addr] == mem'[addr] {
      if a.out <= addr < a.out + a.T * a.OC {
        var c := addr - a.out;
        HeadAndColumn(c, a.T, a.OC);
        assert Stored(ops, a, start, params, mem, c / a.OC, c % a.OC);
        assert Stored(ops, a, start, params, mem', c / a.OC, c % a.OC);
      }
    }
  }

  // ----- all schedules -----

  function Starts<F>(a: Args): seq<Thread<F>> {
    seq(a.T, _ => Begin(0))
  }

  function Acting<F>(ops: Ops<F>, a: Args, params: seq<F>): (seq<F>, nat, Thread<F>) -> Action<F, Thread<F>> {
    (mem: seq<F>, t: nat, s: Thread<F>) => Step(ops, a, params, mem, t, s)
  }

  function Ending<F>(a: Args): Thread<F> -> bool {
    (s: Thread<F>) => Done(a, s)
  }

  ghost function Holding<F(!new)>(ops: Ops<F>, a: Args, start: seq<F>, params: seq<F>): (seq<F>, nat, Thread<F>) -> bool
    requires Fits(a, start, params)
  {
    (mem: seq<F>, t: nat, s: Thread<F>) => Inv(ops, a, start, params, mem, t, s)
  }

  ghost function Owning(a: Args): nat -> int {
    (addr: nat) => Owner(a, addr)
  }

  ghost function Measuring<F>(a: Args): Thread<F> -> nat {
    (s: Thread<F>) => Work(a, s)
  }

  /** Every step of every thread is in order, whatever the others have stored. */
  lemma Sound<F(!new)>(ops: Ops<F>, a: Args, start: seq<F>, params: seq<F>)
    requires Fits(a, start, params)
    ensures StepsFine(start, |Starts<F>(a)|, Acting(ops, a, params), Ending(a), Holding(ops, a, start, params),
                      Owning(a), Measuring(a))
    ensures Stable(start, |Starts<F>(a)|, Holding(ops, a, start, params), Owning(a))
    ensures AllHold(start, Starts(a), Holding(ops, a, start, params))
  {
    var action, done := Acting(ops, a, params), Ending<F>(a);
    var inv, owner, work := Holding(ops, a, start, params), Owning(a), Measuring<F>(a);
    forall mem: seq<F>, t: nat, s: Thread<F>
      | OnlyOwned(start, mem, a.T, owner) && t < a.T && inv(mem, t, s) && !done(s)
      ensures GptThreads.StepFine(mem, t, s, action(mem, t, s), inv, owner, work)
    {
      StepIsFine(ops, a, start, params, mem, t, s);
    }
    forall mem: seq<F>, mem': seq<F>, t: nat, s: Thread<F>
      | OnlyOwned(start, mem, a.T, owner) && OnlyOwned(start, mem', a.T, owner) && t < a.T && inv(mem, t, s)
        && (forall addr :: 0 <= addr < |start| && owner(addr) == t ==> mem'[addr] == mem[addr])
      ensures inv(mem', t, s)
    {
      InvIsStable(ops, a, start, params, mem, mem', t, s);
    }
  }

  /** However the scheduler picks, what the threads leave is the result. */
  lemma AnySchedule<F(!new)>(ops: Ops<F>, a: Args, start: seq<F>, params: seq<F>, picks: seq<nat>, mem: seq<F>)
    requires Fits(a, start, params) && Ends(start, Starts(a), Acting(ops, a, params), Ending(a), picks, mem)
    ensures Result(ops, a, start, params, mem)
  {
    Sound(ops, a, start, params);
    RunFine(start, Starts(a), Acting(ops, a, params), Ending(a), Holding(ops, a, start, params), Owning(a),
            Measuring(a), picks);
    var final := Run(start, Starts(a), Acting(ops, a, params), Ending(a), picks).1;
    forall t, o | 0 <= t < a.T && 0 <= o < a.OC ensures Stored(ops, a, start, params, mem, t, o) {
      assert Holding(ops, a, start, params)(mem, t, final[t]) && Ending(a)(final[t]);
    }
  }

  /** Any two interleavings of the T threads end in the same memory. */
  lemma SameEnd<F(!new)>(ops: Ops<F>, a: Args, start: seq<F>, params: seq<F>, picks: seq<nat>, mem: seq<F>,
                         picks': seq<nat>, mem': seq<F>)
    requires Fits(a, start, params)
    requires Ends(start, Starts(a), Acting(ops, a, params), Ending(a), picks, mem)
    requires Ends(start, Starts(a), Acting(ops, a, params), Ending(a), picks', mem')
    ensures mem == mem'
  {
    hide Fits, Ends, Result, Starts, Acting, Ending;
    AnySchedule(ops, a, start, params, picks, mem);
    AnySchedule(ops, a, start, params, picks', mem');
    OneResult(ops, a, start, params, mem, mem');
  }

  /** matmul_forward with its T threads, under any scheduler. */
  method Forward<F(!new)>(ops: Ops<F>, a: Args, acts: array<F>, params: array<F>)
    requires acts != params && Fits(a, acts[..], params[..])
    modifies acts
    ensures Result(ops, a, old(acts[..]), params[..], acts[..])
  {
    hide Fits, Ends, Result, Starts, Acting, Ending, Holding, Owning, Measuring;
    ghost var start := acts[..];
    var p := params[..];
    Sound(ops, a, start, p);
    ghost var inv := Holding(ops, a, start, p);
    var _, picks := ForkJoin(acts, Starts(a), Acting(ops, a, p), Ending(a), inv, Owning(a), Measuring(a));
    AnySchedule(ops, a, start, p, picks, acts[..]);
  }
}
