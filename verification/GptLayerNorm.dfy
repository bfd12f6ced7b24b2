/** layernorm_forward: a thread for each position, which normalises one row and caches its mean and rstd. */
module GptLayerNorm {
  import opened GptRows
  import opened GptThreads
  import opened GptIndex

  datatype Args = Args(out: nat, mean: nat, rstd: nat, inp: nat, weight: nat, bias: nat, T: nat, C: nat)

  ghost predicate Fits<F>(a: Args, start: seq<F>, params: seq<F>) {
    && a.out + a.T * a.C <= |start| && a.mean + a.T <= |start| && a.rstd + a.T <= |start|
    && a.inp + a.T * a.C <= |start|
    && Apart(a.out, a.T * a.C, a.inp, a.T * a.C) && Apart(a.mean, a.T, a.inp, a.T * a.C)
        && Apart(a.rstd, a.T, a.inp, a.T * a.C)
    && Apart(a.out, a.T * a.C, a.mean, a.T) && Apart(a.out, a.T * a.C, a.rstd, a.T) && Apart(a.mean, a.T, a.rstd, a.T)
    && a.weight + a.C <= |params| && a.bias + a.C <= |params|
  }

  lemma InputInside<F>(a: Args, mem: seq<F>, params: seq<F>, t: nat)
    requires Fits(a, mem, params) && t < a.T
    ensures a.inp + t * a.C + a.C <= |mem|
  {
    hide Apart;
    assert t * a.C + a.C == (t + 1) * a.C <= a.T * a.C;
  }

  function Input<F>(a: Args, mem: seq<F>, params: seq<F>, t: nat): (x: Row<F>)
    requires Fits(a, mem, params) && t < a.T
    ensures |x| == a.C
  {
    InputInside(a, mem, params, t);
    Slice(mem, a.inp + t * a.C, a.C)
  }

  function Output<F>(ops: Ops<F>, a: Args, mem: seq<F>, params: seq<F>, t: nat): (y: Row<F>)
    requires Fits(a, mem, params) && t < a.T
    ensures |y| == a.C
  {
    LnRow(ops, Input(a, mem, params, t), Slice(params, a.weight, a.C), Slice(params, a.bias, a.C))
  }

  /** Where element i of row t of the result goes. */
  function OutAt(a: Args, t: nat, i: nat): nat {
    a.out + t * a.C + i
  }

  // ----- the thread -----

  datatype Thread<F> =
    | Summing(i: nat, m: F)         // 61-64
    | Squaring(i: nat, m: F, v: F)  // 66-70
    | Storing(i: nat, m: F, s: F)   // 73-78
    | StoringMean(m: F, s: F)       // 80
    | StoringRstd(s: F)             // 81
    | Finished

  function Step<F>(ops: Ops<F>, a: Args, params: seq<F>, mem: seq<F>, t: nat, s: Thread<F>): Action<F, Thread<F>> {
    var row := a.inp + t * a.C;
    match s
    case Summing(i, m) =>
      if i < a.C && row + i < |mem| then Compute(Summing(i + 1, ops.add(m, mem[row + i])))
      else Compute(Squaring(0, ops.div(m, ops.ofInt(a.C)), ops.zero))
    case Squaring(i, m, v) =>
      if i < a.C && row + i < |mem| then
        var shift := ops.sub(mem[row + i], m);
        Compute(Squaring(i + 1, m, ops.add(v, ops.mul(shift, shift))))
      else Compute(Storing(0, m, ops.div(ops.one, ops.sqrt(ops.add(ops.div(v, ops.ofInt(a.C)), ops.eps)))))
    case Storing(i, m, r) =>
      if i < a.C && row + i < |mem| && a.weight + i < |params| && a.bias + i < |params| then
        var n := ops.mul(r, ops.sub(mem[row + i], m));
        Store(OutAt(a, t, i), ops.add(ops.mul(n, params[a.weight + i]), params[a.bias + i]), Storing(i + 1, m, r))
      else Compute(StoringMean(m, r))
    case StoringMean(m, r) => Store(a.mean + t, m, StoringRstd(r))
    case StoringRstd(r) => Store(a.rstd + t, r, Finished)
    case Finished => Compute(s)
  }

  function Work<F>(a: Args, s: Thread<F>): nat {
    match s
    case Summing(i, _) => if i > a.C then 0 else 3 * a.C + 5 - i
    case Squaring(i, _, _) => if i > a.C then 0 else 2 * a.C + 4 - i
    case Storing(i, _, _) => if i > a.C then 0 else a.C + 3 - i
    case StoringMean(_, _) => 2
    case StoringRstd(_) => 1
    case Finished => 0
  }

  function Owner(a: Args, addr: nat): int {
    if a.mean <= addr < a.mean + a.T then addr - a.mean
    else if a.rstd <= addr < a.rstd + a.T then addr - a.rstd
    else RowOf(addr, a.out, a.T, a.C)
  }

  ghost predicate Stored<F>(ops: Ops<F>, a: Args, start: seq<F>, params: seq<F>, mem: seq<F>, t: nat, i: nat)
    requires Fits(a, start, params) && t < a.T && i < a.C && |mem| == |start|
  {
    var at := OutAt(a, t, i);
    at < |mem| && mem[at] == Output(ops, a, start, params, t)[i]
  }

  ghost predicate StoredTo<F>(ops: Ops<F>, a: Args, start: seq<F>, params: seq<F>, mem: seq<F>, t: nat, n: nat)
    requires Fits(a, start, params) && t < a.T && n <= a.C && |mem| == |start|
  {
    forall i :: 0 <= i < n ==> Stored(ops, a, start, params, mem, t, i)
  }

  ghost predicate Inv<F>(ops: Ops<F>, a: Args, start: seq<F>, params: seq<F>, mem: seq<F>, t: nat, s: Thread<F>)
    requires Fits(a, start, params)
  {
    && t < a.T && |mem| == |start|
    && var x := Input(a, start, params, t);
       match s
       case Summing(i, m) => i <= a.C && m == SumTo(ops, x, i)
       case Squaring(i, m, v) => i <= a.C && m == Mean(ops, x) && v == SquaresTo(ops, x, m, i)
       case Storing(i, m, r) =>
         i <= a.C && m == Mean(ops, x) && r == Rstd(ops, x) && StoredTo(ops, a, start, params, mem, t, i)
       case StoringMean(m, r) =>
         m == Mean(ops, x) && r == Rstd(ops, x) && StoredTo(ops, a, start, params, mem, t, a.C)
       case StoringRstd(r) =>
         && mem[a.mean + t] == Mean(ops, x) && r == Rstd(ops, x) && StoredTo(ops, a, start, params, mem, t, a.C)
       case Finished =>
         && mem[a.mean + t] == Mean(ops, x) && mem[a.rstd + t] == Rstd(ops, x)
         && StoredTo(ops, a, start, params, mem, t, a.C)
  }

  lemma InputUntouched<F>(a: Args, start: seq<F>, params: seq<F>, mem: seq<F>, t: nat, i: nat)
    requires Fits(a, start, params) && OnlyOwned(start, mem, a.T, (addr: nat) => Owner(a, addr)) && t < a.T && i < a.C
    ensures a.inp + t * a.C + i < |mem| && mem[a.inp + t * a.C + i] == Input(a, start, params, t)[i]
  {
    InputCell(a, start, params, t, i);
    var addr := a.inp + t * a.C + i;
    hide Input, Fits, RowOf;
    assert Owner(a, addr) == -1;
  }

  lemma InputCell<F>(a: Args, start: seq<F>, params: seq<F>, t: nat, i: nat)
    requires Fits(a, start, params) && t < a.T && i < a.C
    ensures var addr := a.inp + t * a.C + i;
            addr < |start| && !Written(a, addr) && Owner(a, addr) == -1 && Input(a, start, params, t)[i] == start[addr]
  {
    InRange(t, a.T, a.C, i);
    var addr := a.inp + t * a.C + i;
    RowOfOutside(addr, a.out, a.T, a.C);
    hide RowOf;
  }

  lemma OwnCell(a: Args, t: nat, i: nat)
    requires t < a.T && i < a.C && Apart(a.out, a.T * a.C, a.mean, a.T) && Apart(a.out, a.T * a.C, a.rstd, a.T)
    ensures OutAt(a, t, i) < a.out + a.T * a.C && Owner(a, OutAt(a, t, i)) == t
        && !(a.mean <= OutAt(a, t, i) < a.mean + a.T)
    ensures !(a.rstd <= OutAt(a, t, i) < a.rstd + a.T)
  {
    RowOfCell(a.out, a.T, a.C, t, i);
  }

  /** Storing outside the row's first n cells keeps them stored. */
  lemma StoredKept<F>(ops: Ops<F>, a: Args, start: seq<F>, params: seq<F>, mem: seq<F>, mem': seq<F>, t: nat, n: nat)
    requires Fits(a, start, params) && t < a.T && n <= a.C && |mem| == |mem'| == |start|
    requires StoredTo(ops, a, start, params, mem, t, n)
    requires forall i :: 0 <= i < n && OutAt(a, t, i) < |mem| ==> mem'[OutAt(a, t, i)] == mem[OutAt(a, t, i)]
    ensures StoredTo(ops, a, start, params, mem', t, n)
  {
    hide Output;
    forall i | 0 <= i < n ensures Stored(ops, a, start, params, mem', t, i) {
      assert Stored(ops, a, start, params, mem, t, i);
    }
  }

  lemma StoreElementValue<F>(ops: Ops<F>, a: Args, start: seq<F>, params: seq<F>, mem: seq<F>, t: nat, s: Thread<F>)
    requires Fits(a, start, params) && OnlyOwned(start, mem, a.T, (addr: nat) => Owner(a, addr))
    requires Inv(ops, a, start, params, mem, t, s) && s.Storing? && s.i < a.C
    ensures Step(ops, a, params, mem, t, s) ==
              Store(OutAt(a, t, s.i), Output(ops, a, start, params, t)[s.i], Storing(s.i + 1, s.m, s.s))
  {
    hide Input, Owner, OnlyOwned, Mean, Rstd, OutAt, StoredTo;
    InputUntouched(a, start, params, mem, t, s.i);
  }

  lemma StoreElementFine<F>(ops: Ops<F>, a: Args, start: seq<F>, params: seq<F>, mem: seq<F>, t: nat, s: Thread<F>)
    requires Fits(a, start, params) && OnlyOwned(start, mem, a.T, (addr: nat) => Owner(a, addr))
    requires Inv(ops, a, start, params, mem, t, s) && s.Storing? && s.i < a.C
    ensures var act := Step(ops, a, params, mem, t, s);
            && act.Store? && act.addr < |mem| && Owner(a, act.addr) == t
            && Inv(ops, a, start, params, mem[act.addr := act.value], t, act.next)
  {
    hide Output, OnlyOwned, Owner, Mean, Rstd, OutAt, Input, Step;
    StoreElementValue(ops, a, start, params, mem, t, s);
    OwnCell(a, t, s.i);
    var act := Step(ops, a, params, mem, t, s);
    var mem' := mem[act.addr := act.value];
    forall i | 0 <= i < s.i + 1 ensures Stored(ops, a, start, params, mem', t, i) {
      OtherCell(a, t, i, s.i);
      if i < s.i {
        assert Stored(ops, a, start, params, mem, t, i);
      }
    }
  }

  lemma OtherCell(a: Args, t: nat, i: nat, j: nat)
    ensures OutAt(a, t, i) == OutAt(a, t, j) <==> i == j
  {
  }

  lemma CacheFine<F>(ops: Ops<F>, a: Args, start: seq<F>, params: seq<F>, mem: seq<F>, t: nat, s: Thread<F>)
    requires Fits(a, start, params) && Inv(ops, a, start, params, mem, t, s) && (s.StoringMean? || s.StoringRstd?)
    ensures var act := Step(ops, a, params, mem, t, s);
            && act.Store? && act.addr < |mem| && Owner(a, act.addr) == t
            && Inv(ops, a, start, params, mem[act.addr := act.value], t, act.next)
  {
    var act := Step(ops, a, params, mem, t, s);
    var mem' := mem[act.addr := act.value];
    forall i | 0 <= i < a.C ensures OutAt(a, t, i) != act.addr {
      OwnCell(a, t, i);
    }
    hide Output, OutAt, Input, Mean, Rstd;
    StoredKept(ops, a, start, params, mem, mem', t, a.C);
  }

  lemma ComputeFine<F>(ops: Ops<F>, a: Args, start: seq<F>, params: seq<F>, mem: seq<F>, t: nat, s: Thread<F>)
    requires Fits(a, start, params) && OnlyOwned(start, mem, a.T, (addr: nat) => Owner(a, addr))
    requires Inv(ops, a, start, params, mem, t, s)
    requires s.Summing? || s.Squaring? || (s.Storing? && s.i == a.C)
    ensures var act := Step(ops, a, params, mem, t, s); act.Compute? && Inv(ops, a, start, params, mem, t, act.next)
  {
    hide Fits, Owner, Input, OnlyOwned, Stored, OutAt;
    if !s.Storing? && s.i < a.C {
      InputUntouched(a, start, params, mem, t, s.i);
    }
  }

  lemma StepIsFine<F>(ops: Ops<F>, a: Args, start: seq<F>, params: seq<F>, mem: seq<F>, t: nat, s: Thread<F>)
    requires Fits(a, start, params) && OnlyOwned(start, mem, a.T, (addr: nat) => Owner(a, addr))
    requires Inv(ops, a, start, params, mem, t, s) && s != Finished
    ensures var act := Step(ops, a, params, mem, t, s);
            && (act.Store? ==> act.addr < |mem| && Owner(a, act.addr) == t)
            && Inv(ops, a, start, params, After(mem, act), t, act.next) && Work(a, act.next) < Work(a, s)
  {
    if s.StoringMean? || s.StoringRstd? {
      CacheFine(ops, a, start, params, mem, t, s);
    } else if s.Storing? && s.i < a.C {
      StoreElementFine(ops, a, start, params, mem, t, s);
    } else {
      ComputeFine(ops, a, start, params, mem, t, s);
    }
    hide OnlyOwned, StoredTo, Input;
  }

  lemma InvIsStable<F>(ops: Ops<F>, a: Args, start: seq<F>, params: seq<F>, mem: seq<F>, mem': seq<F>, t: nat,
                       s: Thread<F>)
    requires Fits(a, start, params) && |mem'| == |start| && Inv(ops, a, start, params, mem, t, s)
    requires forall addr :: 0 <= addr < |start| && Owner(a, addr) == t ==> mem'[addr] == mem[addr]
    ensures Inv(ops, a, start, params, mem', t, s)
  {
    forall i | 0 <= i < a.C ensures OutAt(a, t, i) < |mem| && mem'[OutAt(a, t, i)] == mem[OutAt(a, t, i)] {
      OwnCell(a, t, i);
    }
    assert Owner(a, a.mean + t) == t && Owner(a, a.rstd + t) == t;
    hide Output, Owner, OutAt, Input, Mean, Rstd, SumTo, SquaresTo;
    var n := if s.Storing? then s.i else if s.Summing? || s.Squaring? then 0 else a.C;
    StoredKept(ops, a, start, params, mem, mem', t, n);
  }

  /** The rows, means and rstds a kernel call leaves, and that it leaves nothing else. */
  ghost predicate Result<F>(ops: Ops<F>, a: Args, start: seq<F>, params: seq<F>, mem: seq<F>)
    requires Fits(a, start, params)
  {
    && |mem| == |start|
    && (forall addr :: 0 <= addr < |mem| && !Written(a, addr) ==> mem[addr] == start[addr])
    && forall t :: 0 <= t < a.T ==>
         && StoredTo(ops, a, start, params, mem, t, a.C)
         && mem[a.mean + t] == Mean(ops, Input(a, start, params, t))
         && mem[a.rstd + t] == Rstd(ops, Input(a, start, params, t))
  }

  predicate Written(a: Args, addr: nat) {
    a.out <= addr < a.out + a.T * a.C || a.mean <= addr < a.mean + a.T || a.rstd <= addr < a.rstd + a.T
  }

  lemma ElementOf<F>(ops: Ops<F>, a: Args, start: seq<F>, params: seq<F>, mem: seq<F>, t: nat, i: nat)
    requires Fits(a, start, params) && Result(ops, a, start, params, mem) && t < a.T && i < a.C
    ensures a.out + t * a.C + i < |mem| && mem[a.out + t * a.C + i] == Output(ops, a, start, params, t)[i]
  {
    hide Output, Mean, Rstd;
    assert StoredTo(ops, a, start, params, mem, t, a.C);
    assert Stored(ops, a, start, params, mem, t, i);
  }

  lemma CachesOf<F>(ops: Ops<F>, a: Args, start: seq<F>, params: seq<F>, mem: seq<F>, t: nat)
    requires Fits(a, start, params) && Result(ops, a, start, params, mem) && t < a.T
    ensures |mem| == |start| && mem[a.mean + t] == Mean(ops, Input(a, start, params, t))
    ensures mem[a.rstd + t] == Rstd(ops, Input(a, start, params, t))
  {
    assert StoredTo(ops, a, start, params, mem, t, a.C);
    hide StoredTo, Mean, Rstd, Input;
  }

  /** The input determines the memory a call leaves. */
  lemma OneResult<F>(ops: Ops<F>, a: Args, start: seq<F>, params: seq<F>, mem: seq<F>, mem': seq<F>)
    requires Fits(a, start, params) && Result(ops, a, start, params, mem) && Result(ops, a, start, params, mem')
    ensures mem == mem'
  {
    assert |mem| == |mem'| == |start|;
    assert forall addr :: 0 <= addr < |start| && !Written(a, addr) ==> mem[addr] == mem'[addr];
    hide Result, Output, Mean, Rstd, Input, StoredTo, Fits;
    forall addr | 0 <= addr < |start| && Written(a, addr) ensures mem[addr] == mem'[addr] {
      if a.mean <= addr < a.mean + a.T || a.rstd <= addr < a.rstd + a.T {
        var t := if a.mean <= addr < a.mean + a.T then addr - a.mean else addr - a.rstd;
        CachesOf(ops, a, start, params, mem, t);
        CachesOf(ops, a, start, params, mem', t);
      } else {
        SameElement(ops, a, start, params, mem, mem', addr);
      }
    }
  }

  lemma SameElement<F>(ops: Ops<F>, a: Args, start: seq<F>, params: seq<F>, mem: seq<F>, mem': seq<F>, addr: nat)
    requires Fits(a, start, params) && Result(ops, a, start, params, mem) && Result(ops, a, start, params, mem')
    requires a.out <= addr < a.out + a.T * a.C
    ensures addr < |mem| && addr < |mem'| && mem[addr] == mem'[addr]
  {
    var c := addr - a.out;
    HeadAndColumn(c, a.T, a.C);
    var t, i := c / a.C, c % a.C;
    assert addr == a.out + t * a.C + i;
    hide *;
    ElementOf(ops, a, start, params, mem, t, i);
    ElementOf(ops, a, start, params, mem', t, i);
  }

  lemma Joined<F>(ops: Ops<F>, a: Args, start: seq<F>, params: seq<F>, mem: seq<F>)
    requires Fits(a, start, params) && OnlyOwned(start, mem, a.T, (addr: nat) => Owner(a, addr))
    requires forall t: nat :: t < a.T ==> Inv(ops, a, start, params, mem, t, Finished)
    ensures Result(ops, a, start, params, mem)
  {
    hide Inv, StoredTo, Owner, Fits, Mean, Rstd, Input;
    CachesFit(a, start, params);
    forall t: nat | t < a.T
      ensures StoredTo(ops, a, start, params, mem, t, a.C)
      ensures mem[a.mean + t] == Mean(ops, Input(a, start, params, t))
          && mem[a.rstd + t] == Rstd(ops, Input(a, start, params, t))
    {
      FinishedInv(ops, a, start, params, mem, t);
    }
    forall addr | 0 <= addr < |start| && !Written(a, addr) ensures mem[addr] == start[addr] {
      NotOwned(a, addr);
    }
  }

  lemma CachesFit<F>(a: Args, start: seq<F>, params: seq<F>)
    requires Fits(a, start, params)
    ensures a.mean + a.T <= |start| && a.rstd + a.T <= |start|
  {
  }

  lemma FinishedInv<F>(ops: Ops<F>, a: Args, start: seq<F>, params: seq<F>, mem: seq<F>, t: nat)
    requires Fits(a, start, params) && Inv(ops, a, start, params, mem, t, Finished)
    ensures t < a.T && |mem| == |start| && StoredTo(ops, a, start, params, mem, t, a.C)
    ensures mem[a.mean + t] == Mean(ops, Input(a, start, params, t))
    ensures mem[a.rstd + t] == Rstd(ops, Input(a, start, params, t))
  {
  }

  lemma NotOwned(a: Args, addr: nat)
    requires !Written(a, addr)
    ensures Owner(a, addr) == -1
  {
    RowOfOutside(addr, a.out, a.T, a.C);
  }

  // ----- all schedules -----

  function Starts<F>(ops: Ops<F>, a: Args): seq<Thread<F>> {
    seq(a.T, _ => Summing(0, ops.zero))
  }

  function Acting<F>(ops: Ops<F>, a: Args, params: seq<F>): (seq<F>, nat, Thread<F>) -> Action<F, Thread<F>> {
    (mem: seq<F>, t: nat, s: Thread<F>) => Step(ops, a, params, mem, t, s)
  }

  function Ending<F>(): Thread<F> -> bool {
    (s: Thread<F>) => s.Finished?
  }

  ghost function Holding<F(!new)>(ops: Ops<F>, a: Args, start: seq<F>, params: seq<F>): (seq<F>, nat, Thread<F>) -> bool
    requires Fits(a, start, params)
  {
    (mem: seq<F>, t: nat, s: Thread<F>) => Inv(ops, a, start, params, mem, t, s)
  }

  ghost function Owning(a: Args): nat -> int {
    (addr: nat) => Owner(a, addr)
  }

  ghost function Measuring<F>(a: Args): Thread<F> -> nat {
    (s: Thread<F>) => Work(a, s)
  }

  /** Every step of every thread is in order, whatever the others have stored. */
  lemma Sound<F(!new)>(ops: Ops<F>, a: Args, start: seq<F>, params: seq<F>)
    requires Fits(a, start, params)
    ensures StepsFine(start, |Starts(ops, a)|, Acting(ops, a, params), Ending(), Holding(ops, a, start, params),
                      Owning(a), Measuring(a))
    ensures Stable(start, |Starts(ops, a)|, Holding(ops, a, start, params), Owning(a))
    ensures AllHold(start, Starts(ops, a), Holding(ops, a, start, params))
  {
    var action, done := Acting(ops, a, params), Ending<F>();
    var inv, owner, work := Holding(ops, a, start, params), Owning(a), Measuring<F>(a);
    forall mem: seq<F>, t: nat, s: Thread<F>
      | OnlyOwned(start, mem, a.T, owner) && t < a.T && inv(mem, t, s) && !done(s)
      ensures GptThreads.StepFine(mem, t, s, action(mem, t, s), inv, owner, work)
    {
      StepIsFine(ops, a, start, params, mem, t, s);
    }
    forall mem: seq<F>, mem': seq<F>, t: nat, s: Thread<F>
      | OnlyOwned(start, mem, a.T, owner) && OnlyOwned(start, mem', a.T, owner) && t < a.T && inv(mem, t, s)
        && (forall addr :: 0 <= addr < |start| && owner(addr) == t ==> mem'[addr] == mem[addr])
      ensures inv(mem', t, s)
    {
      InvIsStable(ops, a, start, params, mem, mem', t, s);
    }
  }

  /** However the scheduler picks, what the threads leave is the result. */
  lemma AnySchedule<F(!new)>(ops: Ops<F>, a: Args, start: seq<F>, params: seq<F>, picks: seq<nat>, mem: seq<F>)
    requires Fits(a, start, params) && Ends(start, Starts(ops, a), Acting(ops, a, params), Ending(), picks, mem)
    ensures Result(ops, a, start, params, mem)
  {
    Sound(ops, a, start, params);
    RunFine(start, Starts(ops, a), Acting(ops, a, params), Ending(), Holding(ops, a, start, params), Owning(a),
            Measuring(a), picks);
    var final := Run(start, Starts(ops, a), Acting(ops, a, params), Ending<F>(), picks).1;
    hide Inv, StoredTo, Owner, Result;
    forall t: nat | t < a.T ensures Inv(ops, a, start, params, mem, t, Finished) {
      assert Holding(ops, a, start, params)(mem, t, final[t]) && Ending<F>()(final[t]);
    }
    Joined(ops, a, start, params, mem);
  }

  /** Any two interleavings of the T threads end in the same memory. */
  lemma SameEnd<F(!new)>(ops: Ops<F>, a: Args, start: seq<F>, params: seq<F>, picks: seq<nat>, mem: seq<F>,
                         picks': seq<nat>, mem': seq<F>)
    requires Fits(a, start, params)
    requires Ends(start, Starts(ops, a), Acting(ops, a, params), Ending(), picks, mem)
    requires Ends(start, Starts(ops, a), Acting(ops, a, params), Ending(), picks', mem')
    ensures mem == mem'
  {
    hide Fits, Ends, Result, Starts, Acting, Ending;
    AnySchedule(ops, a, start, params, picks, mem);
    AnySchedule(ops, a, start, params, picks', mem');
    OneResult(ops, a, start, params, mem, mem');
  }

  /** layernorm_forward with its T threads, under any scheduler. */
  method Forward<F(!new)>(ops: Ops<F>, a: Args, acts: array<F>, params: array<F>)
    requires acts != params && Fits(a, acts[..], params[..])
    modifies acts
    ensures Result(ops, a, old(acts[..]), params[..], acts[..])
  {
    hide Fits, Ends, Result, Starts, Acting, Ending, Holding, Owning, Measuring;
    ghost var start := acts[..];
    var p := params[..];
    Sound(ops, a, start, p);
    ghost var inv := Holding(ops, a, start, p);
    var _, picks := ForkJoin(acts, Starts(ops, a), Acting(ops, a, p), Ending(), inv, Owning(a), Measuring(a));
    AnySchedule(ops, a, start, p, picks, acts[..]);
  }
}
