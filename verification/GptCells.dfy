/**
 Over exact reals, what the kernels leave in the cells of the arena, stated on addresses and sums alone: nothing here
 is said by way of the functions on rows.
 */
module GptCells {
  import opened GptRows
  import opened GptIndex
  import opened GptNetwork
  import opened GptKernels
  import opened GptLoops
  import opened GptArena
  import opened GptForward
  import opened GptModel
  import opened GptSoftmax
  import GptThreads
  import GptMatmul
  import GptLayerNorm
  import GptAttention

  /** The operations are those of the reals; of exp it is only asked that it turns sums into products and grows. */
  ghost predicate Arithmetic(ops: Ops<real>) {
    && Exact(ops) && (forall x, y :: ops.sub(x, y) == x - y) && (forall n: int :: ops.ofInt(n) == n as real)
    && (forall x: real :: x > 0.0 ==> ops.sqrt(x) > 0.0 && ops.sqrt(x) * ops.sqrt(x) == x)
    && (forall x: real, y: real :: x < y ==> ops.exp(x) < ops.exp(y))
    && forall x: real, y: real, z: real :: z == x + y ==> ops.exp(z) == ops.exp(x) * ops.exp(y)
  }

  lemma ExpGrows(ops: Ops<real>, a: real, b: real, m: real)
    requires Arithmetic(ops)
    ensures ops.exp(ops.sub(a, m)) > 0.0
    ensures a < b <==> ops.exp(ops.sub(a, m)) < ops.exp(ops.sub(b, m))
    ensures ops.exp(ops.sub(a, m)) * ops.exp(b) == ops.exp(ops.sub(b, m)) * ops.exp(a)
  {
    var x: real, y: real := a - m, b - m;
    assert ops.sub(a, m) == x && ops.sub(b, m) == y;
    assert x + b == y + a;
    var z: real := x + b;
    assert ops.exp(z) == ops.exp(x) * ops.exp(b) && ops.exp(z) == ops.exp(y) * ops.exp(a);
    if a < b {
      assert x < y;
    } else if b < a {
      assert y < x;
    } else {
      assert x == y;
    }
  }

  lemma Divided(a: real, b: real, p: real, q: real, c: real)
    requires c > 0.0
    ensures a < b <==> a / c < b / c
    ensures a * p == b * q ==> (a / c) * p == (b / c) * q
  {
    assert a == (a / c) * c && b == (b / c) * c;
    if a * p == b * q {
      assert (a / c) * p == (a * p) / c;
      assert (b / c) * q == (b * q) / c;
    }
  }

  lemma SoftmaxLaws(ops: Ops<real>, x: Row<real>, i: nat, j: nat)
    requires Arithmetic(ops) && i < |x| && j < |x|
    ensures var y := SoftmaxRow(ops, x);
            && (x[i] < x[j] <==> y[i] < y[j])
            && y[i] * ops.exp(x[j]) == y[j] * ops.exp(x[i])
  {
    hide SoftmaxRow, ExpsTo, RowMaxTo;
    ExpsPositive(ops, x, |x|);
    var total := ExpsTo(ops, x, |x|);
    SoftmaxEntry(ops, x, i);
    SoftmaxEntry(ops, x, j);
    ExpGrows(ops, x[i], x[j], RowMaxTo(ops, x, |x|));
    Divided(ExpAt(ops, x, i), ExpAt(ops, x, j), ops.exp(x[j]), ops.exp(x[i]), total);
  }

  function At(mem: seq<real>, a: nat): real {
    if a < |mem| then mem[a] else 0.0
  }

  function TensorStart(ptrs: seq<nat>, k: nat): nat {
    if k < |ptrs| then ptrs[k] else 0
  }

  lemma CellOfRow(mem: seq<real>, at: nat, count: nat, n: nat, t: nat, i: nat)
    requires at + count * n <= |mem| && t < count && i < n
    ensures at + t * n + i < |mem| && RowsAt(mem, at, count, n)[t][i] == At(mem, at + t * n + i)
  {
    RowEnd(t, count, n);
    assert RowsAt(mem, at, count, n)[t] == Slice(mem, at + t * n, n);
  }

  /** The sum of f over 0..n - 1. */
  function Sum(f: nat -> real, n: nat): real {
    if n == 0 then 0.0 else Sum(f, n - 1) + f(n - 1)
  }

  /** The cells from `at` on. */
  function Cells(mem: seq<real>, at: nat): nat -> real {
    (i: nat) => At(mem, at + i)
  }

  lemma {:induction false} SumSame(f: nat -> real, g: nat -> real, n: nat)
    requires forall i: nat :: i < n ==> f(i) == g(i)
    ensures Sum(f, n) == Sum(g, n)
  {
    if n > 0 {
      SumSame(f, g, n - 1);
    }
  }

  // ----- softmax_forward -----

  /** The sum of a row of probabilities is that of its cells. */
  lemma {:induction false} RowSum(ops: Ops<real>, p: Row<real>, f: nat -> real, n: nat)
    requires Exact(ops) && n <= |p| && forall i: nat :: i < |p| ==> f(i) == p[i]
    ensures CdfTo(ops, p, n) == Sum(f, n)
  {
    hide Exact, CdfTo;
    if n == 0 {
      CdfStart(ops, p);
    } else {
      RowSum(ops, p, f, n - 1);
      CdfStep(ops, p, n - 1);
    }
  }

  /**
   The V cells from `probs` are positive, sum to 1, and are to each other as the exponentials of the cells from
   `logits`; so the larger logit has the larger probability. Here for entries i and j.
   */
  ghost predicate SoftmaxOf(ops: Ops<real>, start: seq<real>, mem: seq<real>, logits: nat, probs: nat, V: nat, i: nat,
                            j: nat) {
    var p, q, x, y := At(mem, probs + i), At(mem, probs + j), At(start, logits + i), At(start, logits + j);
    && p > 0.0 && (x < y <==> p < q) && p * ops.exp(y) == q * ops.exp(x)
    && Sum(Cells(mem, probs), V) == 1.0
  }

  lemma CellsAre(mem: seq<real>, at: nat, count: nat, n: nat, t: nat)
    requires at + count * n <= |mem| && t < count
    ensures forall k: nat :: k < n ==> At(mem, at + t * n + k) == RowsAt(mem, at, count, n)[t][k]
  {
    hide At, RowsAt;
    forall k: nat | k < n ensures At(mem, at + t * n + k) == RowsAt(mem, at, count, n)[t][k] {
      CellOfRow(mem, at, count, n, t, k);
    }
  }

  /** What softmax_forward leaves in each position. */
  lemma SoftmaxCells(ops: Ops<real>, start: seq<real>, mem: seq<real>, probs: nat, logits: nat, T: nat, V: nat, t: nat,
                     i: nat, j: nat)
    requires Arithmetic(ops) && probs + T * V <= |mem| && logits + T * V <= |start| && t < T && i < V && j < V
    requires RowsAt(mem, probs, T, V) == SoftmaxRows(ops, RowsAt(start, logits, T, V), V)
    ensures SoftmaxOf(ops, start, mem, logits + t * V, probs + t * V, V, i, j)
  {
    hide Arithmetic, SoftmaxRow, RowsAt, At, SoftmaxOf;
    var x, y := RowsAt(start, logits, T, V)[t], RowsAt(mem, probs, T, V)[t];
    assert y == SoftmaxRow(ops, x);
    CellsAre(start, logits, T, V, t);
    CellsAre(mem, probs, T, V, t);
    SoftmaxOfRow(ops, start, mem, logits + t * V, probs + t * V, x, i, j);
  }

  lemma SoftmaxOfRow(ops: Ops<real>, start: seq<real>, mem: seq<real>, logits: nat, probs: nat, x: Row<real>, i: nat,
                     j: nat)
    requires Arithmetic(ops) && i < |x| && j < |x|
    requires forall k: nat :: k < |x| ==> At(start, logits + k) == x[k] && At(mem, probs + k) == SoftmaxRow(ops, x)[k]
    ensures SoftmaxOf(ops, start, mem, logits, probs, |x|, i, j)
  {
    hide Arithmetic, SoftmaxRow, CdfTo, At;
    SoftmaxLaws(ops, x, i, j);
    SoftmaxSums(ops, x);
    RowSum(ops, SoftmaxRow(ops, x), Cells(mem, probs), |x|);
  }

  lemma SoftmaxSums(ops: Ops<real>, x: Row<real>)
    requires Arithmetic(ops) && x != []
    ensures Exact(ops) && (forall i :: 0 <= i < |x| ==> SoftmaxRow(ops, x)[i] > 0.0)
    ensures CdfTo(ops, SoftmaxRow(ops, x), |x|) == 1.0
  {
    hide Exact, SoftmaxRow, CdfTo;
    SoftmaxIsDistribution(ops, x);
  }

  /** So it is for the logits and the probabilities that a forward pass leaves. */
  lemma ModelProbabilities(ops: Ops<real>, net: Net<real>, toks: seq<nat>, ptrs: seq<nat>, mem: seq<real>, t: nat,
                           i: nat, j: nat)
    requires Arithmetic(ops) && Computed(ops, net, toks, ptrs, mem) && t < |toks| && i < net.shape.V && j < net.shape.V
    ensures |ptrs| == 23
    ensures var V := net.shape.V;
            SoftmaxOf(ops, mem, mem, TensorStart(ptrs, 20) + t * V, TensorStart(ptrs, 21) + t * V, V, i, j)
  {
    hide Arithmetic, NetOk, TokensOk, ActsPointed, StreamsHeld, RowsAt, Logits, SoftmaxRows;
    OutputsInside(ptrs, net.shape, |net.layers|, |toks|, mem);
    SoftmaxCells(ops, mem, mem, ptrs[21], ptrs[20], |toks|, net.shape.V, t, i, j);
  }

  // ----- matmul_forward -----

  function Products(x: Row<real>, w: Row<real>): nat -> real {
    (i: nat) => if i < |x| && i < |w| then x[i] * w[i] else 0.0
  }

  lemma {:induction false} DotIsSum(ops: Ops<real>, b: real, x: Row<real>, w: Row<real>, n: nat)
    requires Exact(ops) && n <= |x| && n <= |w|
    ensures DotTo(ops, b, x, w, n) == b + Sum(Products(x, w), n)
  {
    if n > 0 {
      DotIsSum(ops, b, x, w, n - 1);
      var p: real, q: real := x[n - 1], w[n - 1];
      var d: real := DotTo(ops, b, x, w, n - 1);
      assert ops.mul(p, q) == p * q && ops.add(d, p * q) == d + p * q;
    }
  }

  /** The products of the cells from x of one memory and those from w of another. */
  function Pairs(mem: seq<real>, x: nat, params: seq<real>, w: nat): nat -> real {
    (i: nat) => At(mem, x + i) * At(params, w + i)
  }

  /** Every output cell is the bias, if there is one, plus the sum of input times weight. */
  lemma MatmulCell(ops: Ops<real>, a: GptMatmul.Args, start: seq<real>, params: seq<real>, mem: seq<real>, t: nat,
                   o: nat)
    requires Exact(ops) && GptMatmul.Fits(a, start, params) && GptMatmul.Result(ops, a, start, params, mem)
    requires t < a.T && o < a.OC
    ensures At(mem, a.out + t * a.OC + o) ==
              (if a.hasBias then At(params, a.bias + o) else 0.0)
              + Sum(Pairs(start, a.inp + t * a.C, params, a.weight + o * a.C), a.C)
  {
    hide Exact, GptMatmul.Fits, GptMatmul.Result, GptMatmul.Output, DotTo;
    GptMatmul.ElementOf(ops, a, start, params, mem, t, o);
    MatmulRows(ops, a, start, params, t, o);
  }

  lemma MatmulRows(ops: Ops<real>, a: GptMatmul.Args, start: seq<real>, params: seq<real>, t: nat, o: nat)
    requires Exact(ops) && GptMatmul.Fits(a, start, params) && t < a.T && o < a.OC
    ensures GptMatmul.Output(ops, a, start, params, t)[o] ==
              (if a.hasBias then At(params, a.bias + o) else 0.0)
              + Sum(Pairs(start, a.inp + t * a.C, params, a.weight + o * a.C), a.C)
  {
    hide Exact, DotTo, GptMatmul.Fits, GptMatmul.Input, GptMatmul.OutputWeights, GptMatmul.Output, At;
    MatmulFits(a, start, params);
    var x, w := GptMatmul.Input(a, start, params, t), GptMatmul.OutputWeights(a, params, o);
    var f := Pairs(start, a.inp + t * a.C, params, a.weight + o * a.C);
    OutputIsDot(ops, a, start, params, t, o);
    DotIsSum(ops, if a.hasBias then At(params, a.bias + o) else 0.0, x, w, a.C);
    forall i: nat | i < a.C ensures Products(x, w)(i) == f(i) {
      MatmulInput(a, start, params, t, i);
      MatmulWeight(a, params, o, i);
    }
    SumSame(Products(x, w), f, a.C);
  }

  lemma OutputIsDot(ops: Ops<real>, a: GptMatmul.Args, start: seq<real>, params: seq<real>, t: nat, o: nat)
    requires Exact(ops) && GptMatmul.Fits(a, start, params) && t < a.T && o < a.OC
    ensures a.weight + a.OC * a.C <= |params|
    ensures GptMatmul.Output(ops, a, start, params, t)[o] ==
              DotTo(ops, if a.hasBias then At(params, a.bias + o) else 0.0, GptMatmul.Input(a, start, params, t),
                    GptMatmul.OutputWeights(a, params, o), a.C)
  {
    hide DotTo, Apart;
    ZeroIs(ops);
    RowInside(o, a.OC, a.C);
  }

  lemma ZeroIs(ops: Ops<real>)
    requires Exact(ops)
    ensures ops.zero == 0.0
  {
  }

  lemma MatmulInput(a: GptMatmul.Args, start: seq<real>, params: seq<real>, t: nat, i: nat)
    requires GptMatmul.Fits(a, start, params) && t < a.T && i < a.C
    ensures GptMatmul.Input(a, start, params, t)[i] == At(start, a.inp + t * a.C + i)
  {
    hide Apart;
    InRange(t, a.T, a.C, i);
  }

  lemma MatmulWeight(a: GptMatmul.Args, params: seq<real>, o: nat, i: nat)
    requires a.weight + a.OC * a.C <= |params| && o < a.OC && i < a.C
    ensures GptMatmul.OutputWeights(a, params, o)[i] == At(params, a.weight + o * a.C + i)
  {
    InRange(o, a.OC, a.C, i);
    RowInside(o, a.OC, a.C);
    var w := Slice(params, a.weight, a.OC * a.C);
    assert w[o * a.C + i] == params[a.weight + (o * a.C + i)];
  }

  lemma MatmulFits(a: GptMatmul.Args, start: seq<real>, params: seq<real>)
    requires GptMatmul.Fits(a, start, params)
    ensures a.weight + a.OC * a.C <= |params|
  {
  }

  // ----- attention_forward -----

  /** Lines 181-182, for position t, head h and column k: the offset into preatt and att. */
  function WeightOffset(a: GptAttention.Args, t: nat, h: nat, k: nat): nat {
    h * a.T * a.T + t * a.T + k
  }

  /** Lines 180, 187 and 224: query, key and value of position t in entry i of head h, at `part` 0, 1 and 2. */
  function InputAddress(a: GptAttention.Args, t: nat, h: nat, i: nat, part: nat): nat {
    a.inp + t * (a.NH * a.hs * 3) + h * a.hs + a.NH * a.hs * part + i
  }

  /** Line 218. */
  function OutAddress(a: GptAttention.Args, t: nat, h: nat, i: nat): nat {
    a.out + t * (a.NH * a.hs) + h * a.hs + i
  }

  /** The cell of preatt times the root of the head's width is the query times the key. */
  ghost predicate ScoreCell(ops: Ops<real>, a: GptAttention.Args, start: seq<real>, mem: seq<real>, t: nat, h: nat,
                            k: nat) {
    At(mem, a.preatt + WeightOffset(a, t, h, k)) * ops.sqrt(a.hs as real) ==
      Sum(QueryKey(a, start, t, h, k), a.hs)
  }

  /** Cells k and l of att are positive and to each other as the exponentials of the cells of preatt. */
  ghost predicate WeightCells(ops: Ops<real>, a: GptAttention.Args, mem: seq<real>, t: nat, h: nat, k: nat, l: nat) {
    var p, q := At(mem, a.att + WeightOffset(a, t, h, k)), At(mem, a.att + WeightOffset(a, t, h, l));
    var x, y := At(mem, a.preatt + WeightOffset(a, t, h, k)), At(mem, a.preatt + WeightOffset(a, t, h, l));
    p > 0.0 && (x < y <==> p < q) && p * ops.exp(y) == q * ops.exp(x)
  }

  /** The cell of out is the sum of the values weighted by the cells of att. */
  ghost predicate MixCell(a: GptAttention.Args, start: seq<real>, mem: seq<real>, t: nat, h: nat, i: nat) {
    At(mem, OutAddress(a, t, h, i)) ==
      Sum(WeightedValues(a, start, mem, t, h, i), t + 1)
  }

  function WeightedValues(a: GptAttention.Args, start: seq<real>, mem: seq<real>, t: nat, h: nat, i: nat): nat -> real {
    (k: nat) => At(mem, a.att + WeightOffset(a, t, h, k)) * At(start, InputAddress(a, k, h, i, 2))
  }

  /** Entry by entry, the query of position t times the key of position k. */
  function QueryKey(a: GptAttention.Args, start: seq<real>, t: nat, h: nat, k: nat): nat -> real {
    (i: nat) => At(start, InputAddress(a, t, h, i, 0)) * At(start, InputAddress(a, k, h, i, 1))
  }

  lemma OffsetIs(a: GptAttention.Args, t: nat, h: nat, k: nat)
    ensures GptAttention.AttOffset(a, t, h, k) == WeightOffset(a, t, h, k)
  {
    assert (h * a.T + t) * a.T == h * a.T * a.T + t * a.T;
  }

  lemma WeightCellIs(a: GptAttention.Args, mem: seq<real>, t: nat, h: nat, k: nat)
    requires GptAttention.Fits(a, mem) && t < a.T && h < a.NH && k < a.T
    ensures At(mem, a.preatt + WeightOffset(a, t, h, k)) == GptAttention.PreV(a, mem, t, h, k)
    ensures At(mem, a.att + WeightOffset(a, t, h, k)) == GptAttention.AttV(a, mem, t, h, k)
  {
    hide GptAttention.Fits, GptAttention.AttOffset, WeightOffset;
    OffsetIs(a, t, h, k);
    WeightsInside(a, mem, t, h, k);
  }

  lemma WeightsInside(a: GptAttention.Args, mem: seq<real>, t: nat, h: nat, k: nat)
    requires GptAttention.Fits(a, mem) && t < a.T && h < a.NH && k < a.T
    ensures GptAttention.PreAt(a, t, h, k) < |mem| && GptAttention.AttAt(a, t, h, k) < |mem|
  {
    hide GptAttention.AttOffset, GptAttention.OutSize, GptAttention.InpSize, GptAttention.AttSize;
    GptAttention.AttCell(a, a.preatt, t, h, k);
    GptAttention.AttCell(a, a.att, t, h, k);
  }

  lemma AddressIs(a: GptAttention.Args, t: nat, h: nat, i: nat, part: nat)
    ensures InputAddress(a, t, h, i, part) == GptAttention.InpAt(a, t, h * a.hs + i + GptAttention.Channels(a) * part)
  {
    assert t * (a.NH * a.hs * 3) == t * (3 * (a.NH * a.hs));
  }

  lemma LoadIs(ops: Ops<real>, mem: seq<real>, addr: nat)
    requires Exact(ops)
    ensures GptAttention.Load(ops, mem, addr) == At(mem, addr)
  {
  }

  lemma StartReads(ops: Ops<real>, a: GptAttention.Args, start: seq<real>, t: nat, h: nat, k: nat, i: nat)
    requires GptAttention.Fits(a, start) && k <= t < a.T && h < a.NH && i < a.hs
    ensures var hd, c := GptAttention.HeadAt(a, start, t, h), GptAttention.Channels(a);
            && GptAttention.Load(ops, start, GptAttention.InpAt(a, t, h * a.hs + i)) == Query(hd)[i]
            && GptAttention.Load(ops, start, GptAttention.InpAt(a, k, h * a.hs + i + c))
                 == Part(hd.rows[k], hd.k, hd.hs)[i]
            && GptAttention.Load(ops, start, GptAttention.InpAt(a, k, h * a.hs + i + c * 2))
                 == Part(hd.rows[k], hd.v, hd.hs)[i]
  {
    hide *;
    GptThreads.Untouched(start, a.T, (addr: nat) => GptAttention.Owner(a, addr));
    GptAttention.Reads(ops, a, start, start, t, h, k, i);
  }

  /** The three parts of a head are where the addresses say. */
  lemma HeadCells(ops: Ops<real>, a: GptAttention.Args, start: seq<real>, t: nat, h: nat, k: nat, i: nat)
    requires Exact(ops) && GptAttention.Fits(a, start) && k <= t < a.T && h < a.NH && i < a.hs
    ensures var hd := GptAttention.HeadAt(a, start, t, h);
            && At(start, InputAddress(a, t, h, i, 0)) == Query(hd)[i]
            && At(start, InputAddress(a, k, h, i, 1)) == Part(hd.rows[k], hd.k, hd.hs)[i]
            && At(start, InputAddress(a, k, h, i, 2)) == Part(hd.rows[k], hd.v, hd.hs)[i]
  {
    hide *;
    AddressIs(a, t, h, i, 0);
    AddressIs(a, k, h, i, 1);
    AddressIs(a, k, h, i, 2);
    StartReads(ops, a, start, t, h, k, i);
    LoadIs(ops, start, InputAddress(a, t, h, i, 0));
    LoadIs(ops, start, InputAddress(a, k, h, i, 1));
    LoadIs(ops, start, InputAddress(a, k, h, i, 2));
  }

  // over one head

  lemma ScaleIs(ops: Ops<real>, hs: nat, d: real)
    requires Arithmetic(ops) && hs > 0
    ensures ops.mul(d, Scale(ops, hs)) * ops.sqrt(hs as real) == d
  {
    var r: real := ops.sqrt(hs as real);
    assert ops.ofInt(hs) == hs as real && r > 0.0;
    assert ops.div(1.0, r) == 1.0 / r;
    assert ops.mul(d, 1.0 / r) == d * (1.0 / r);
    assert (1.0 / r) * r == 1.0;
  }

  lemma ScoreIs(ops: Ops<real>, hd: Head<real>, k: nat)
    requires Arithmetic(ops) && HeadOk(hd) && k < |hd.rows| && hd.hs > 0
    ensures Score(ops, hd, k) * ops.sqrt(hd.hs as real) ==
              Sum(Products(Query(hd), Part(hd.rows[k], hd.k, hd.hs)), hd.hs)
  {
    hide Exact, DotTo, Scale;
    ZeroIs(ops);
    DotIsSum(ops, 0.0, Query(hd), Part(hd.rows[k], hd.k, hd.hs), hd.hs);
    ScaleIs(ops, hd.hs, DotTo(ops, 0.0, Query(hd), Part(hd.rows[k], hd.k, hd.hs), hd.hs));
  }

  lemma Multiplied(a: real, b: real, p: real, q: real, c: real)
    requires c > 0.0
    ensures a < b <==> a * c < b * c
    ensures a * p == b * q ==> (a * c) * p == (b * c) * q
  {
    if a < b {
      assert (b - a) * c > 0.0;
    } else if b < a {
      assert (a - b) * c > 0.0;
    }
    assert (a * c) * p == (a * p) * c && (b * c) * q == (b * q) * c;
  }

  lemma ArithmeticIsExact(ops: Ops<real>)
    requires Arithmetic(ops)
    ensures Exact(ops)
  {
  }

  /** The attention paid to a row is its exponential times one positive factor. */
  lemma AttFactor(ops: Ops<real>, hd: Head<real>, k: nat)
    requires Exact(ops) && HeadOk(hd) && k < |hd.rows|
    ensures Inverse(ops, hd) > 0.0 && Att(ops, hd, k) == Weight(ops, hd, k) * Inverse(ops, hd)
  {
    hide Exact, HeadOk, WeightsTo, Weight, Inverse, Att;
    HeadHasRows(hd);
    WeightsPositive(ops, hd, |hd.rows|);
    InverseIs(ops, hd);
    Reciprocal(WeightsTo(ops, hd, |hd.rows|));
    AttEntry(ops, hd, k);
  }

  lemma AttLaws(ops: Ops<real>, hd: Head<real>, k: nat, l: nat)
    requires Arithmetic(ops) && HeadOk(hd) && k < |hd.rows| && l < |hd.rows|
    ensures var x, y := Score(ops, hd, k), Score(ops, hd, l);
            && Att(ops, hd, k) > 0.0 && (x < y <==> Att(ops, hd, k) < Att(ops, hd, l))
            && Att(ops, hd, k) * ops.exp(y) == Att(ops, hd, l) * ops.exp(x)
  {
    hide Arithmetic, Exact, HeadOk, Score, MaxTo, Inverse, Att;
    ArithmeticIsExact(ops);
    AttFactor(ops, hd, k);
    AttFactor(ops, hd, l);
    var x, y, m := Score(ops, hd, k), Score(ops, hd, l), MaxTo(ops, hd, |hd.rows|);
    var u, v, c := ops.exp(ops.sub(x, m)), ops.exp(ops.sub(y, m)), Inverse(ops, hd);
    ExpGrows(ops, x, y, m);
    Multiplied(u, v, ops.exp(y), ops.exp(x), c);
    PositiveProduct(u, c);
  }

  function Mixed(ops: Ops<real>, hd: Head<real>, i: nat): nat -> real
    requires HeadOk(hd) && i < hd.hs
  {
    (k: nat) => if k < |hd.rows| then Att(ops, hd, k) * Part(hd.rows[k], hd.v, hd.hs)[i] else 0.0
  }

  lemma {:induction false} MixIsSum(ops: Ops<real>, hd: Head<real>, i: nat, n: nat)
    requires Exact(ops) && HeadOk(hd) && i < hd.hs && n <= |hd.rows|
    ensures MixTo(ops, hd, i, n) == Sum(Mixed(ops, hd, i), n)
  {
    hide Exact, HeadOk, Att, MixTo, Part;
    if n == 0 {
      NothingMixed(ops, hd, i);
    } else {
      MixIsSum(ops, hd, i, n - 1);
      MixStep(ops, hd, i, n);
    }
  }

  lemma NothingMixed(ops: Ops<real>, hd: Head<real>, i: nat)
    requires Exact(ops) && HeadOk(hd) && i < hd.hs
    ensures MixTo(ops, hd, i, 0) == 0.0
  {
  }

  lemma MixStep(ops: Ops<real>, hd: Head<real>, i: nat, n: nat)
    requires Exact(ops) && HeadOk(hd) && i < hd.hs && 0 < n <= |hd.rows|
    ensures MixTo(ops, hd, i, n) ==
              MixTo(ops, hd, i, n - 1) + Att(ops, hd, n - 1) * Part(hd.rows[n - 1], hd.v, hd.hs)[i]
  {
    hide Att;
    var w: real, v: real := Att(ops, hd, n - 1), Part(hd.rows[n - 1], hd.v, hd.hs)[i];
    var m: real := MixTo(ops, hd, i, n - 1);
    assert ops.mul(w, v) == w * v && ops.add(m, w * v) == m + w * v;
  }

  // what attention_forward leaves

  lemma StoredScore(ops: Ops<real>, a: GptAttention.Args, start: seq<real>, mem: seq<real>, t: nat, h: nat, k: nat)
    requires GptAttention.Fits(a, start) && GptAttention.Result(ops, a, start, mem) && k <= t < a.T && h < a.NH
    ensures a.hs > 0
    ensures At(mem, a.preatt + WeightOffset(a, t, h, k)) == Score(ops, GptAttention.HeadAt(a, start, t, h), k)
    ensures At(mem, a.att + WeightOffset(a, t, h, k)) == Att(ops, GptAttention.HeadAt(a, start, t, h), k)
  {
    hide GptAttention.Fits, GptAttention.Result, GptAttention.AttV, GptAttention.PreV, GptAttention.HeadAt, Att, Score,
         GptAttention.OutTo, At, WeightOffset;
    GptAttention.ResultHead(ops, a, start, mem, t, h);
    WeightCellIs(a, mem, t, h, k);
  }

  lemma ScoreCells(ops: Ops<real>, a: GptAttention.Args, start: seq<real>, mem: seq<real>, t: nat, h: nat, k: nat)
    requires Arithmetic(ops) && GptAttention.Fits(a, start) && GptAttention.Result(ops, a, start, mem)
    requires k <= t < a.T && h < a.NH
    ensures ScoreCell(ops, a, start, mem, t, h, k)
  {
    hide Arithmetic, Exact, GptAttention.Fits, GptAttention.Result, GptAttention.HeadAt, Score, At, WeightOffset,
         InputAddress, Part;
    ArithmeticIsExact(ops);
    StoredScore(ops, a, start, mem, t, h, k);
    ScoreIs(ops, GptAttention.HeadAt(a, start, t, h), k);
    ScoreProducts(ops, a, start, t, h, k);
  }

  lemma ScoreProducts(ops: Ops<real>, a: GptAttention.Args, start: seq<real>, t: nat, h: nat, k: nat)
    requires Exact(ops) && GptAttention.Fits(a, start) && k <= t < a.T && h < a.NH
    ensures var hd := GptAttention.HeadAt(a, start, t, h);
            Sum(Products(Query(hd), Part(hd.rows[k], hd.k, hd.hs)), a.hs) ==
              Sum(QueryKey(a, start, t, h, k), a.hs)
  {
    hide Exact, GptAttention.Fits, GptAttention.HeadAt, At, InputAddress, Part, Sum;
    var hd := GptAttention.HeadAt(a, start, t, h);
    var f := QueryKey(a, start, t, h, k);
    var g := Products(Query(hd), Part(hd.rows[k], hd.k, hd.hs));
    forall i: nat | i < a.hs ensures g(i) == f(i) {
      HeadCells(ops, a, start, t, h, k, i);
    }
    SumSame(g, f, a.hs);
  }

  lemma WeightCellsOf(ops: Ops<real>, a: GptAttention.Args, start: seq<real>, mem: seq<real>, t: nat, h: nat, k: nat,
                      l: nat)
    requires Arithmetic(ops) && GptAttention.Fits(a, start) && GptAttention.Result(ops, a, start, mem)
    requires k <= t < a.T && l <= t && h < a.NH
    ensures WeightCells(ops, a, mem, t, h, k, l)
  {
    hide Arithmetic, GptAttention.Fits, GptAttention.Result, GptAttention.HeadAt, Score, Att, At, WeightOffset;
    StoredScore(ops, a, start, mem, t, h, k);
    StoredScore(ops, a, start, mem, t, h, l);
    AttLaws(ops, GptAttention.HeadAt(a, start, t, h), k, l);
  }

  lemma MixCells(ops: Ops<real>, a: GptAttention.Args, start: seq<real>, mem: seq<real>, t: nat, h: nat, i: nat)
    requires Exact(ops) && GptAttention.Fits(a, start) && GptAttention.Result(ops, a, start, mem)
    requires t < a.T && h < a.NH && i < a.hs
    ensures MixCell(a, start, mem, t, h, i)
  {
    hide Exact, GptAttention.Fits, GptAttention.Result, GptAttention.HeadAt, Att, At, WeightOffset, InputAddress, Part,
         MixTo, OutAddress;
    StoredMix(ops, a, start, mem, t, h, i);
    MixIsSum(ops, GptAttention.HeadAt(a, start, t, h), i, t + 1);
    MixProducts(ops, a, start, mem, t, h, i);
  }

  lemma MixProducts(ops: Ops<real>, a: GptAttention.Args, start: seq<real>, mem: seq<real>, t: nat, h: nat, i: nat)
    requires Exact(ops) && GptAttention.Fits(a, start) && GptAttention.Result(ops, a, start, mem)
    requires t < a.T && h < a.NH && i < a.hs
    ensures Sum(Mixed(ops, GptAttention.HeadAt(a, start, t, h), i), t + 1) ==
              Sum(WeightedValues(a, start, mem, t, h, i), t + 1)
  {
    hide Exact, GptAttention.Fits, GptAttention.Result, GptAttention.HeadAt, Sum, Mixed, WeightedValues;
    var f, g := Mixed(ops, GptAttention.HeadAt(a, start, t, h), i), WeightedValues(a, start, mem, t, h, i);
    forall k: nat | k < t + 1 ensures f(k) == g(k) {
      MixTerm(ops, a, start, mem, t, h, i, k);
    }
    SumSame(f, g, t + 1);
  }

  lemma MixTerm(ops: Ops<real>, a: GptAttention.Args, start: seq<real>, mem: seq<real>, t: nat, h: nat, i: nat, k: nat)
    requires Exact(ops) && GptAttention.Fits(a, start) && GptAttention.Result(ops, a, start, mem)
    requires k <= t < a.T && h < a.NH && i < a.hs
    ensures Mixed(ops, GptAttention.HeadAt(a, start, t, h), i)(k) == WeightedValues(a, start, mem, t, h, i)(k)
  {
    hide Exact, GptAttention.Fits, GptAttention.Result, GptAttention.HeadAt, Att, At, WeightOffset, InputAddress, Part;
    StoredScore(ops, a, start, mem, t, h, k);
    HeadCells(ops, a, start, t, h, k, i);
  }

  lemma StoredMix(ops: Ops<real>, a: GptAttention.Args, start: seq<real>, mem: seq<real>, t: nat, h: nat, i: nat)
    requires GptAttention.Fits(a, start) && GptAttention.Result(ops, a, start, mem)
    requires t < a.T && h < a.NH && i < a.hs
    ensures At(mem, OutAddress(a, t, h, i)) == MixTo(ops, GptAttention.HeadAt(a, start, t, h), i, t + 1)
  {
    hide GptAttention.Fits, GptAttention.Result, GptAttention.HeadAt, MixTo;
    GptAttention.OutputCell(ops, a, start, mem, t, h, i);
  }

  lemma {:induction false} StoredSumIsSum(a: GptAttention.Args, mem: seq<real>, t: nat, h: nat, f: nat -> real, n: nat)
    requires GptAttention.Fits(a, mem) && t < a.T && h < a.NH && n <= a.T
    requires forall k: nat :: k < a.T ==> f(k) == GptAttention.AttV(a, mem, t, h, k)
    ensures Sum(f, n) == StoredSum(a, mem, t, h, n)
  {
    hide GptAttention.Fits, GptAttention.AttV;
    if n > 0 {
      StoredSumIsSum(a, mem, t, h, f, n - 1);
    }
  }

  function Weights(a: GptAttention.Args, mem: seq<real>, t: nat, h: nat): nat -> real {
    (k: nat) => At(mem, a.att + WeightOffset(a, t, h, k))
  }

  /** Columns beyond the position get nothing, and the T cells of a position and head sum to 1. */
  lemma WeightCellsSum(ops: Ops<real>, a: GptAttention.Args, start: seq<real>, mem: seq<real>, t: nat, h: nat)
    requires Exact(ops) && GptAttention.Fits(a, start) && GptAttention.Result(ops, a, start, mem)
    requires t < a.T && h < a.NH
    ensures forall k: nat :: t < k < a.T ==> At(mem, a.att + WeightOffset(a, t, h, k)) == 0.0
    ensures Sum(Weights(a, mem, t, h), a.T) == 1.0
  {
    hide Exact, GptAttention.Fits, GptAttention.Result, GptAttention.AttV, At, WeightOffset, StoredSum;
    StoredAttention(ops, a, start, mem, t, h);
    var f := Weights(a, mem, t, h);
    forall k: nat | k < a.T ensures f(k) == GptAttention.AttV(a, mem, t, h, k) {
      WeightCellIs(a, mem, t, h, k);
    }
    forall k: nat | t < k < a.T ensures At(mem, a.att + WeightOffset(a, t, h, k)) == 0.0 {
      assert f(k) == GptAttention.AttV(a, mem, t, h, k);
    }
    StoredSumIsSum(a, mem, t, h, f, a.T);
  }

  // ----- layernorm_forward -----

  function Entries(x: Row<real>): nat -> real {
    (i: nat) => if i < |x| then x[i] else 0.0
  }

  lemma {:induction false} SumIs(ops: Ops<real>, x: Row<real>, n: nat)
    requires Exact(ops) && n <= |x|
    ensures SumTo(ops, x, n) == Sum(Entries(x), n)
  {
    if n > 0 {
      SumIs(ops, x, n - 1);
      var s: real, e: real := SumTo(ops, x, n - 1), x[n - 1];
      assert ops.add(s, e) == s + e;
    }
  }

  /** The square of entry i's distance from m. */
  function Shifted(x: Row<real>, m: real): nat -> real {
    (i: nat) => if i < |x| then (x[i] - m) * (x[i] - m) else 0.0
  }

  lemma {:induction false} SquaresAre(ops: Ops<real>, x: Row<real>, m: real, n: nat)
    requires Arithmetic(ops) && n <= |x|
    ensures SquaresTo(ops, x, m, n) == Sum(Shifted(x, m), n)
    ensures Sum(Shifted(x, m), n) >= 0.0
  {
    hide Arithmetic, SquaresTo;
    if n == 0 {
      NoSquares(ops, x, m);
    } else {
      SquaresAre(ops, x, m, n - 1);
      SquaresStep(ops, x, m, n);
    }
  }

  lemma NoSquares(ops: Ops<real>, x: Row<real>, m: real)
    requires Arithmetic(ops)
    ensures SquaresTo(ops, x, m, 0) == 0.0
  {
  }

  lemma SquaresStep(ops: Ops<real>, x: Row<real>, m: real, n: nat)
    requires Arithmetic(ops) && 0 < n <= |x|
    ensures SquaresTo(ops, x, m, n) == SquaresTo(ops, x, m, n - 1) + (x[n - 1] - m) * (x[n - 1] - m)
    ensures (x[n - 1] - m) * (x[n - 1] - m) >= 0.0
  {
    var e: real, v: real := x[n - 1], SquaresTo(ops, x, m, n - 1);
    var d: real := e - m;
    assert ops.sub(e, m) == d && ops.mul(d, d) == d * d && ops.add(v, d * d) == v + d * d;
  }

  lemma MeanIs(ops: Ops<real>, x: Row<real>)
    requires Arithmetic(ops) && x != []
    ensures Mean(ops, x) * (|x| as real) == Sum(Entries(x), |x|)
  {
    hide SumTo;
    SumIs(ops, x, |x|);
    var s: real, n: real := SumTo(ops, x, |x|), |x| as real;
    assert ops.ofInt(|x|) == n && n > 0.0 && ops.div(s, n) == s / n;
    assert (s / n) * n == s;
  }

  /** The rstd is the positive number whose square times variance plus eps is 1. */
  lemma RstdIs(ops: Ops<real>, x: Row<real>)
    requires Arithmetic(ops) && x != [] && ops.eps > 0.0
    ensures Rstd(ops, x) > 0.0
    ensures Rstd(ops, x) * Rstd(ops, x) * (Sum(Shifted(x, Mean(ops, x)), |x|) / (|x| as real) + ops.eps) == 1.0
  {
    hide Mean, SquaresTo;
    var m: real := Mean(ops, x);
    SquaresAre(ops, x, m, |x|);
    var s: real, n: real := SquaresTo(ops, x, m, |x|), |x| as real;
    assert ops.ofInt(|x|) == n && n > 0.0 && ops.div(s, n) == s / n;
    RootOf(ops, s / n);
  }

  lemma RootOf(ops: Ops<real>, v: real)
    requires Arithmetic(ops) && v >= 0.0 && ops.eps > 0.0
    ensures var r := ops.div(ops.one, ops.sqrt(ops.add(v, ops.eps)));
            r > 0.0 && r * r * (v + ops.eps) == 1.0
  {
    var e: real := ops.eps;
    var w: real := v + e;
    assert ops.add(v, e) == w;
    var q: real := ops.sqrt(w);
    assert q > 0.0 && q * q == w;
    assert ops.div(1.0, q) == 1.0 / q;
    assert (1.0 / q) * (1.0 / q) * (q * q) == 1.0;
  }

  /** Normalise, scale, shift. */
  function Affine(rstd: real, x: real, mean: real, w: real, b: real): real {
    rstd * (x - mean) * w + b
  }

  lemma NormIs(ops: Ops<real>, x: Row<real>, w: real, b: real, i: nat)
    requires Arithmetic(ops) && i < |x|
    ensures LnElem(ops, x, w, b, i) == Affine(Rstd(ops, x), x[i], Mean(ops, x), w, b)
  {
    hide Rstd, Mean;
    var r: real, m: real, e: real := Rstd(ops, x), Mean(ops, x), x[i];
    assert ops.sub(e, m) == e - m && ops.mul(r, e - m) == r * (e - m);
    var n: real := r * (e - m);
    assert ops.mul(n, w) == n * w && ops.add(n * w, b) == n * w + b;
  }

  /** The squares of the distances from m of the cells from `at` on. */
  function Distances(mem: seq<real>, at: nat, m: real): nat -> real {
    (i: nat) => (At(mem, at + i) - m) * (At(mem, at + i) - m)
  }

  /** What layernorm_forward leaves for position t: the mean of the row, and the rstd. */
  ghost predicate Moments(ops: Ops<real>, a: GptLayerNorm.Args, start: seq<real>, mem: seq<real>, t: nat) {
    var mean, rstd, n := At(mem, a.mean + t), At(mem, a.rstd + t), a.C as real;
    && mean * n == Sum(Cells(start, a.inp + t * a.C), a.C)
    && rstd > 0.0 && n > 0.0
    && rstd * rstd * (Sum(Distances(start, a.inp + t * a.C, mean), a.C) / n + ops.eps) == 1.0
  }

  /** And its i-th entry, scaled and shifted. */
  ghost predicate Normalised(a: GptLayerNorm.Args, start: seq<real>, params: seq<real>, mem: seq<real>, t: nat, i: nat)
  {
    At(mem, a.out + t * a.C + i) ==
      Affine(At(mem, a.rstd + t), At(start, a.inp + t * a.C + i), At(mem, a.mean + t), At(params, a.weight + i),
             At(params, a.bias + i))
  }

  lemma NormInput(a: GptLayerNorm.Args, start: seq<real>, params: seq<real>, t: nat)
    requires GptLayerNorm.Fits(a, start, params) && t < a.T
    ensures forall i: nat :: i < a.C ==> GptLayerNorm.Input(a, start, params, t)[i] == At(start, a.inp + t * a.C + i)
  {
    hide Apart;
    GptLayerNorm.InputInside(a, start, params, t);
  }

  lemma SumsAre(x: Row<real>, start: seq<real>, at: nat, m: real)
    requires forall i: nat :: i < |x| ==> x[i] == At(start, at + i)
    ensures Sum(Entries(x), |x|) == Sum(Cells(start, at), |x|)
    ensures Sum(Shifted(x, m), |x|) == Sum(Distances(start, at, m), |x|)
  {
    hide At, Sum;
    SumSame(Entries(x), Cells(start, at), |x|);
    SumSame(Shifted(x, m), Distances(start, at, m), |x|);
  }

  lemma MomentsOf(ops: Ops<real>, a: GptLayerNorm.Args, start: seq<real>, params: seq<real>, mem: seq<real>, t: nat)
    requires Arithmetic(ops) && ops.eps > 0.0 && a.C > 0 && t < a.T
    requires GptLayerNorm.Fits(a, start, params) && GptLayerNorm.Result(ops, a, start, params, mem)
    ensures Moments(ops, a, start, mem, t)
  {
    hide Arithmetic, GptLayerNorm.Fits, GptLayerNorm.Result, GptLayerNorm.Input, Mean, Rstd, Sum, Entries, Shifted,
         Cells, Distances, At;
    var x := GptLayerNorm.Input(a, start, params, t);
    NormInput(a, start, params, t);
    MeanIs(ops, x);
    RstdIs(ops, x);
    CachesCells(ops, a, start, params, mem, t);
    SumsAre(x, start, a.inp + t * a.C, Mean(ops, x));
  }

  lemma NormCells(ops: Ops<real>, a: GptLayerNorm.Args, start: seq<real>, params: seq<real>, mem: seq<real>, t: nat,
                  i: nat)
    requires Arithmetic(ops) && t < a.T && i < a.C
    requires GptLayerNorm.Fits(a, start, params) && GptLayerNorm.Result(ops, a, start, params, mem)
    ensures Normalised(a, start, params, mem, t, i)
  {
    hide Arithmetic, GptLayerNorm.Fits, GptLayerNorm.Result, GptLayerNorm.Input, Mean, Rstd, At, Affine;
    NormInput(a, start, params, t);
    CachesCells(ops, a, start, params, mem, t);
    NormOutput(ops, a, start, params, mem, t, i, GptLayerNorm.Input(a, start, params, t));
  }

  lemma CachesCells(ops: Ops<real>, a: GptLayerNorm.Args, start: seq<real>, params: seq<real>, mem: seq<real>, t: nat)
    requires GptLayerNorm.Fits(a, start, params) && GptLayerNorm.Result(ops, a, start, params, mem) && t < a.T
    ensures At(mem, a.mean + t) == Mean(ops, GptLayerNorm.Input(a, start, params, t))
    ensures At(mem, a.rstd + t) == Rstd(ops, GptLayerNorm.Input(a, start, params, t))
  {
    hide Mean, Rstd, GptLayerNorm.Input, Apart;
    GptLayerNorm.CachesOf(ops, a, start, params, mem, t);
  }

  lemma NormOutput(ops: Ops<real>, a: GptLayerNorm.Args, start: seq<real>, params: seq<real>, mem: seq<real>, t: nat,
                   i: nat, x: Row<real>)
    requires GptLayerNorm.Fits(a, start, params) && t < a.T && x == GptLayerNorm.Input(a, start, params, t)
    requires Arithmetic(ops) && GptLayerNorm.Result(ops, a, start, params, mem) && i < |x|
    ensures At(mem, a.out + t * a.C + i) ==
              Affine(Rstd(ops, x), x[i], Mean(ops, x), At(params, a.weight + i), At(params, a.bias + i))
  {
    hide Arithmetic, GptLayerNorm.Result, GptLayerNorm.Input, Mean, Rstd, LnElem, Apart;
    GptLayerNorm.ElementOf(ops, a, start, params, mem, t, i);
    NormIs(ops, x, At(params, a.weight + i), At(params, a.bias + i), i);
  }

  // what follows from these

  lemma {:induction false} SumShift(f: nat -> real, g: nat -> real, r: real, m: real, n: nat)
    requires forall i: nat :: i < n ==> g(i) == r * (f(i) - m)
    ensures Sum(g, n) == r * (Sum(f, n) - m * (n as real))
  {
    if n > 0 {
      SumShift(f, g, r, m, n - 1);
      assert r * (Sum(f, n - 1) - m * ((n - 1) as real)) + r * (f(n - 1) - m)
          == r * (Sum(f, n - 1) + f(n - 1) - m * (n as real));
    }
  }

  ghost predicate AllAre(f: nat -> real, n: nat, v: real) {
    forall i: nat :: i < n ==> f(i) == v
  }

  /** The entries of position t less their biases. */
  function LessBias(a: GptLayerNorm.Args, params: seq<real>, mem: seq<real>, t: nat): nat -> real {
    (i: nat) => At(mem, a.out + t * a.C + i) - At(params, a.bias + i)
  }

  /** With weights of 1 the entries less their biases sum to 0. */
  lemma OnesBalance(ops: Ops<real>, a: GptLayerNorm.Args, start: seq<real>, params: seq<real>, mem: seq<real>, t: nat)
    requires Arithmetic(ops) && ops.eps > 0.0 && a.C > 0 && t < a.T
    requires GptLayerNorm.Fits(a, start, params) && GptLayerNorm.Result(ops, a, start, params, mem)
    requires AllAre(Cells(params, a.weight), a.C, 1.0)
    ensures Sum(LessBias(a, params, mem, t), a.C) == 0.0
  {
    hide Arithmetic, GptLayerNorm.Fits, GptLayerNorm.Result, Sum, At;
    MomentsOf(ops, a, start, params, mem, t);
    var f, g := Cells(start, a.inp + t * a.C), LessBias(a, params, mem, t);
    var r, m := At(mem, a.rstd + t), At(mem, a.mean + t);
    forall i: nat | i < a.C ensures g(i) == r * (f(i) - m) {
      NormCells(ops, a, start, params, mem, t, i);
      assert Cells(params, a.weight)(i) == 1.0;
    }
    SumShift(f, g, r, m, a.C);
  }

  /** With a weight of 0 the bias is left. */
  lemma ZeroLeavesBias(ops: Ops<real>, a: GptLayerNorm.Args, start: seq<real>, params: seq<real>, mem: seq<real>,
                       t: nat, i: nat)
    requires Arithmetic(ops) && t < a.T && i < a.C && At(params, a.weight + i) == 0.0
    requires GptLayerNorm.Fits(a, start, params) && GptLayerNorm.Result(ops, a, start, params, mem)
    ensures At(mem, a.out + t * a.C + i) == At(params, a.bias + i)
  {
    hide Arithmetic, GptLayerNorm.Fits, GptLayerNorm.Result, At;
    NormCells(ops, a, start, params, mem, t, i);
  }

  // ----- the plain loops -----

  /** The i-th cell of position t is the token's cell of the first table plus the position's of the second. */
  ghost predicate EmbeddedCell(params: seq<real>, mem: seq<real>, out: nat, wte: nat, wpe: nat, tok: nat, t: nat,
                               C: nat, i: nat) {
    At(mem, out + t * C + i) == At(params, wte + tok * C + i) + At(params, wpe + t * C + i)
  }

  /** encoder_forward: the sum of the token's and the position's embedding. */
  lemma EncoderCell(ops: Ops<real>, net: Net<real>, params: seq<real>, mem: seq<real>, inputs: seq<nat>, out: nat,
                    wte: nat, wpe: nat, t: nat, i: nat)
    requires Exact(ops) && NetOk(net) && TokensOk(net, inputs) && t < |inputs| && i < net.shape.C
    requires Inside(params, wte, net.shape.V * net.shape.C) && net.wte == Slice(params, wte, net.shape.V * net.shape.C)
    requires Inside(params, wpe, net.shape.maxT * net.shape.C)
    requires net.wpe == Slice(params, wpe, net.shape.maxT * net.shape.C)
    requires out + |inputs| * net.shape.C <= |mem|
    requires RowsAt(mem, out, |inputs|, net.shape.C) == EncodeRows(ops, net, inputs)
    ensures EmbeddedCell(params, mem, out, wte, wpe, inputs[t], t, net.shape.C, i)
  {
    hide Exact, NetOk, RowsAt, Encode, At;
    var C := net.shape.C;
    CellOfRow(mem, out, |inputs|, C, t, i);
    assert RowsAt(mem, out, |inputs|, C)[t] == Encode(ops, net, inputs[t], t);
    Embeddings(ops, params, wte, wpe, net, inputs[t], t, C);
    AddedEntry(ops, params, RowAddr(wte, inputs[t], C), RowAddr(wpe, t, C), C, i);
  }

  lemma AddedEntry(ops: Ops<real>, mem: seq<real>, x: nat, y: nat, n: nat, i: nat)
    requires Exact(ops) && x + n <= |mem| && y + n <= |mem| && i < n
    ensures AddRow(ops, Slice(mem, x, n), Slice(mem, y, n))[i] == At(mem, x + i) + At(mem, y + i)
  {
    var p: real, q: real := mem[x + i], mem[y + i];
    assert ops.add(p, q) == p + q;
  }

  /** residual_forward: the sum of the two cells. */
  lemma ResidualCell(ops: Ops<real>, start: seq<real>, mem: seq<real>, out: nat, inp1: nat, inp2: nat, n: nat, i: nat)
    requires Exact(ops) && i < n && out + n <= |mem| && inp1 + n <= |start| && inp2 + n <= |start|
    requires Slice(mem, out, n) == AddRow(ops, Slice(start, inp1, n), Slice(start, inp2, n))
    ensures At(mem, out + i) == At(start, inp1 + i) + At(start, inp2 + i)
  {
    AddedEntry(ops, start, inp1, inp2, n, i);
    assert Slice(mem, out, n)[i] == mem[out + i];
  }

  function Cubic(s: real, c: real, x: real): real {
    s * (x + c * x * x * x)
  }

  /** gelu_forward: x / 2 times 1 + tanh of the scaled cubic. */
  lemma GeluCell(ops: Ops<real>, start: seq<real>, mem: seq<real>, out: nat, inp: nat, n: nat, i: nat)
    requires Exact(ops) && i < n && out + n <= |mem| && inp + n <= |start|
    requires Slice(mem, out, n) == GeluRow(ops, Slice(start, inp, n))
    ensures var x := At(start, inp + i);
            At(mem, out + i) ==
              0.5 * x * (1.0 + ops.tanh(Cubic(ops.geluScale, ops.cubeCoefficient, x)))
  {
    hide Gelu, Cubic, Exact;
    assert Slice(mem, out, n)[i] == mem[out + i] && Slice(start, inp, n)[i] == start[inp + i];
    GeluIs(ops, start[inp + i]);
  }

  lemma GeluIs(ops: Ops<real>, x: real)
    requires Exact(ops)
    ensures Gelu(ops, x) == 0.5 * x * (1.0 + ops.tanh(Cubic(ops.geluScale, ops.cubeCoefficient, x)))
  {
    var c: real, s: real := ops.cubeCoefficient, ops.geluScale;
    var c1: real := c * x;
    var c2: real := c1 * x;
    var c3: real := c2 * x;
    assert ops.mul(c, x) == c1 && ops.mul(c1, x) == c2 && ops.mul(c2, x) == c3;
    var y: real := x + c3;
    var z: real := s * y;
    assert ops.add(x, c3) == y && ops.mul(s, y) == z;
    assert c * x * x * x == c3;
    assert Cubic(s, c, x) == z;
    var h: real := ops.tanh(z);
    var u: real := 0.5 * x;
    var v: real := 1.0 + h;
    assert ops.add(1.0, h) == v && ops.mul(0.5, x) == u && ops.mul(u, v) == u * v;
    assert Gelu(ops, x) == u * v;
  }
}
