/** The kernels of gpt.c that are plain loops over the float memory. */
module GptLoops {
  import opened GptRows
  import opened GptIndex
  import opened GptNetwork
  import opened GptKernels

  ghost predicate Inside<F>(mem: seq<F>, at: nat, n: nat) {
    at + n <= |mem|
  }

  /** The first i cells from `at` hold those of `want`, everything else is as in `start`. */
  ghost predicate Filled<F>(start: seq<F>, mem: seq<F>, at: nat, want: Row<F>, i: nat) {
    i <= |want| && at + |want| <= |start| && mem == start[..at] + want[..i] + start[at + i..]
  }

  lemma FilledCell<F>(start: seq<F>, mem: seq<F>, at: nat, want: Row<F>, i: nat, addr: nat)
    requires Filled(start, mem, at, want, i) && addr < |start|
    ensures |mem| == |start| && mem[addr] == if at <= addr < at + i then want[addr - at] else start[addr]
  {
  }

  lemma FillOne<F>(start: seq<F>, mem: seq<F>, at: nat, want: Row<F>, i: nat)
    requires Filled(start, mem, at, want, i) && i < |want|
    ensures at + i < |mem| == |start| && Filled(start, mem[at + i := want[i]], at, want, i + 1)
  {
  }

  lemma FilledAll<F>(start: seq<F>, mem: seq<F>, at: nat, want: Row<F>)
    requires Filled(start, mem, at, want, |want|)
    ensures SameOutside(start, mem, at, |want|) && at + |want| <= |mem| && Slice(mem, at, |want|) == want
  {
    assert want[..|want|] == want;
  }

  /** Lines 331-335. */
  method ResidualForward<F>(ops: Ops<F>, acts: array<F>, out: nat, inp1: nat, inp2: nat, n: nat)
    requires Inside(acts[..], out, n) && Inside(acts[..], inp1, n) && Inside(acts[..], inp2, n)
    requires Apart(out, n, inp1, n) && Apart(out, n, inp2, n)
    modifies acts
    ensures SameOutside(old(acts[..]), acts[..], out, n)
    ensures Slice(acts[..], out, n) == AddRow(ops, old(Slice(acts[..], inp1, n)), old(Slice(acts[..], inp2, n)))
  {
    hide Filled, SameOutside;
    ghost var start := acts[..];
    ghost var want := AddRow(ops, Slice(start, inp1, n), Slice(start, inp2, n));
    FilledNone(start, out, want);
    var i := 0;
    while i < n
      invariant i <= n && Filled(start, acts[..], out, want, i)
    {
      FilledCell(start, acts[..], out, want, i, inp1 + i);
      FilledCell(start, acts[..], out, want, i, inp2 + i);
      FillOne(start, acts[..], out, want, i);
      ghost var before := acts[..];
      acts[out + i] := ops.add(acts[inp1 + i], acts[inp2 + i]);
      assert acts[..] == before[out + i := want[i]];
      i := i + 1;
    }
    FilledAll(start, acts[..], out, want);
  }

  lemma FilledNone<F>(start: seq<F>, at: nat, want: Row<F>)
    requires at + |want| <= |start|
    ensures Filled(start, start, at, want, 0)
  {
  }

  /** Lines 293-300. */
  method GeluForward<F>(ops: Ops<F>, acts: array<F>, out: nat, inp: nat, n: nat)
    requires Inside(acts[..], out, n) && Inside(acts[..], inp, n) && Apart(out, n, inp, n)
    modifies acts
    ensures SameOutside(old(acts[..]), acts[..], out, n)
    ensures Slice(acts[..], out, n) == GeluRow(ops, old(Slice(acts[..], inp, n)))
  {
    hide Filled;
    ghost var start := acts[..];
    ghost var want := GeluRow(ops, Slice(start, inp, n));
    FilledNone(start, out, want);
    var i := 0;
    while i < n
      invariant i <= n && Filled(start, acts[..], out, want, i)
    {
      FilledCell(start, acts[..], out, want, i, inp + i);
      FillOne(start, acts[..], out, want, i);
      ghost var before := acts[..];
      var x := acts[inp + i];
      var cube := ops.mul(ops.mul(ops.mul(ops.cubeCoefficient, x), x), x);
      acts[out + i] := ops.mul(ops.mul(ops.half, x),
                             ops.add(ops.one, ops.tanh(ops.mul(ops.geluScale, ops.add(x, cube)))));
      assert acts[..] == before[out + i := want[i]];
      i := i + 1;
    }
    FilledAll(start, acts[..], out, want);
  }

  lemma FlatCell<F>(mem: seq<F>, at: nat, count: nat, n: nat, t: nat)
    requires at + count * n <= |mem| && t < count
    ensures t * n + n <= count * n && RowsAt(mem, at, count, n)[t] == Slice(mem, at, count * n)[t * n..t * n + n]
  {
    RowEnd(t, count, n);
    SubSlice(mem, at, count * n, t * n, n);
  }

  lemma SubSlice<F>(mem: seq<F>, at: nat, len: nat, k: nat, n: nat)
    requires at + len <= |mem| && k + n <= len
    ensures Slice(mem, at, len)[k..k + n] == Slice(mem, at + k, n)
  {
    var inner, part := Slice(mem, at, len)[k..k + n], Slice(mem, at + k, n);
    forall i | 0 <= i < n ensures inner[i] == part[i] {
      assert Slice(mem, at, len)[k + i] == mem[at + (k + i)];
    }
  }

  /** Adding whole blocks is adding them row by row. */
  lemma AddFlat<F>(ops: Ops<F>, mem: seq<F>, start: seq<F>, out: nat, inp1: nat, inp2: nat, count: nat, n: nat)
    requires Inside(mem, out, count * n) && Inside(start, inp1, count * n) && Inside(start, inp2, count * n)
    requires Slice(mem, out, count * n) == AddRow(ops, Slice(start, inp1, count * n), Slice(start, inp2, count * n))
    ensures RowsAt(mem, out, count, n) == AddRows(ops, RowsAt(start, inp1, count, n), RowsAt(start, inp2, count, n), n)
  {
    hide RowsAt, Slice, AddRow;
    var x, y := RowsAt(start, inp1, count, n), RowsAt(start, inp2, count, n);
    forall t | 0 <= t < count ensures RowsAt(mem, out, count, n)[t] == AddRow(ops, x[t], y[t]) {
      FlatCell(mem, out, count, n, t);
      FlatCell(start, inp1, count, n, t);
      FlatCell(start, inp2, count, n, t);
      AddPart(ops, Slice(start, inp1, count * n), Slice(start, inp2, count * n), t * n, n);
    }
  }

  lemma AddPart<F>(ops: Ops<F>, x: Row<F>, y: Row<F>, k: nat, n: nat)
    requires |x| == |y| && k + n <= |x|
    ensures AddRow(ops, x, y)[k..k + n] == AddRow(ops, x[k..k + n], y[k..k + n])
  {
  }

  lemma GeluFlat<F>(ops: Ops<F>, mem: seq<F>, start: seq<F>, out: nat, inp: nat, count: nat, n: nat)
    requires Inside(mem, out, count * n) && Inside(start, inp, count * n)
    requires Slice(mem, out, count * n) == GeluRow(ops, Slice(start, inp, count * n))
    ensures RowsAt(mem, out, count, n) == GeluRows(ops, RowsAt(start, inp, count, n), n)
  {
    hide RowsAt, Slice, GeluRow;
    var x := RowsAt(start, inp, count, n);
    forall t | 0 <= t < count ensures RowsAt(mem, out, count, n)[t] == GeluRow(ops, x[t]) {
      FlatCell(mem, out, count, n, t);
      FlatCell(start, inp, count, n, t);
      GeluPart(ops, Slice(start, inp, count * n), t * n, n);
    }
  }

  lemma GeluPart<F>(ops: Ops<F>, x: Row<F>, k: nat, n: nat)
    requires k + n <= |x|
    ensures GeluRow(ops, x)[k..k + n] == GeluRow(ops, x[k..k + n])
  {
    hide Gelu;
  }

  // ----- encoder -----

  /** Lines 37-39: one position. */
  method EncodeAt<F>(ops: Ops<F>, acts: array<F>, params: array<F>, out: nat, wte: nat, wpe: nat, n: nat)
    requires acts != params && Inside(acts[..], out, n) && Inside(params[..], wte, n) && Inside(params[..], wpe, n)
    modifies acts
    ensures SameOutside(old(acts[..]), acts[..], out, n)
    ensures Slice(acts[..], out, n) == AddRow(ops, Slice(params[..], wte, n), Slice(params[..], wpe, n))
  {
    hide Filled;
    ghost var start := acts[..];
    ghost var want := AddRow(ops, Slice(params[..], wte, n), Slice(params[..], wpe, n));
    FilledNone(start, out, want);
    var i := 0;
    while i < n
      invariant i <= n && Filled(start, acts[..], out, want, i)
    {
      FillOne(start, acts[..], out, want, i);
      ghost var before := acts[..];
      acts[out + i] := ops.add(params[wte + i], params[wpe + i]);
      assert acts[..] == before[out + i := want[i]];
      i := i + 1;
    }
    FilledAll(start, acts[..], out, want);
  }

  /** Row t + 1 onwards may change without touching rows up to t. */
  lemma EarlierRows<F>(start: seq<F>, mem: seq<F>, at: nat, count: nat, n: nat, t: nat)
    requires t < count && at + count * n <= |start| == |mem| && SameOutside(start, mem, RowAddr(at, t, n), n)
    ensures forall k :: 0 <= k < t ==> RowsAt(mem, at, count, n)[k] == RowsAt(start, at, count, n)[k]
    ensures SameOutside(start, mem, at, count * n)
  {
    RowEnd(t, count, n);
    forall k | 0 <= k < t ensures RowsAt(mem, at, count, n)[k] == RowsAt(start, at, count, n)[k] {
      RowEnd(k, count, n);
      RowEnd(k, t, n);
      SliceKept(start, mem, at + k * n, n, at + k * n, n);
    }
  }

  lemma SameOutsideTwice<F>(a: seq<F>, b: seq<F>, c: seq<F>, at: nat, n: nat)
    requires SameOutside(a, b, at, n) && SameOutside(b, c, at, n)
    ensures SameOutside(a, c, at, n)
  {
  }

  /** The body of the loop over positions. */
  method EncodePosition<F>(ops: Ops<F>, acts: array<F>, params: array<F>, out: nat, tok: nat, wte: nat, wpe: nat,
                           T: nat, C: nat, t: nat, ghost net: Net<F>)
    requires acts != params && NetOk(net) && tok < net.shape.V && t < T <= net.shape.maxT && C == net.shape.C
    requires Inside(acts[..], out, T * C)
    requires Inside(params[..], wte, net.shape.V * C) && net.wte == Slice(params[..], wte, net.shape.V * C)
    requires Inside(params[..], wpe, net.shape.maxT * C) && net.wpe == Slice(params[..], wpe, net.shape.maxT * C)
    modifies acts
    ensures SameOutside(old(acts[..]), acts[..], out, T * C)
    ensures RowsAt(acts[..], out, T, C)[t] == Encode(ops, net, tok, t)
    ensures forall k :: 0 <= k < t ==> RowsAt(acts[..], out, T, C)[k] == old(RowsAt(acts[..], out, T, C)[k])
  {
    hide SameOutside, RowsAt, Encode, NetOk, AddRow, RowAddr;
    Embeddings(ops, params[..], wte, wpe, net, tok, t, C);
    RowIs(acts[..], out, T, C, t);
    ghost var before := acts[..];
    EncodeAt(ops, acts, params, RowAddr(out, t, C), RowAddr(wte, tok, C), RowAddr(wpe, t, C), C);
    EarlierRows(before, acts[..], out, T, C, t);
    RowIs(acts[..], out, T, C, t);
  }

  /** encoder_forward for one batch row: the first residual stream. */
  method EncoderForward<F>(ops: Ops<F>, acts: array<F>, params: array<F>, out: nat, inputs: seq<nat>,
      wte: nat, wpe: nat, C: nat, ghost net: Net<F>)
    requires acts != params && NetOk(net) && TokensOk(net, inputs) && C == net.shape.C
    requires Inside(acts[..], out, |inputs| * C)
    requires Inside(params[..], wte, net.shape.V * C) && net.wte == Slice(params[..], wte, net.shape.V * C)
    requires Inside(params[..], wpe, net.shape.maxT * C) && net.wpe == Slice(params[..], wpe, net.shape.maxT * C)
    modifies acts
    ensures SameOutside(old(acts[..]), acts[..], out, |inputs| * C)
    ensures RowsAt(acts[..], out, |inputs|, C) == EncodeRows(ops, net, inputs)
  {
    hide SameOutside, RowsAt, Encode, NetOk;
    ghost var start := acts[..];
    var t, T := 0, |inputs|;
    SameAtFirst(start, out, T * C);
    while t < T
      invariant t <= T && acts.Length == |start| && SameOutside(start, acts[..], out, T * C)
      invariant forall k :: 0 <= k < t ==> RowsAt(acts[..], out, T, C)[k] == Encode(ops, net, inputs[k], k)
    {
      ghost var before := acts[..];
      EncodePosition(ops, acts, params, out, inputs[t], wte, wpe, T, C, t, net);
      SameOutsideTwice(start, before, acts[..], out, T * C);
      t := t + 1;
    }
  }

  lemma SameAtFirst<F>(start: seq<F>, at: nat, n: nat)
    ensures SameOutside(start, start, at, n)
  {
  }

  lemma RowIs<F>(mem: seq<F>, at: nat, count: nat, n: nat, t: nat)
    requires t < count && at + count * n <= |mem|
    ensures RowAddr(at, t, n) + n <= at + count * n && at <= RowAddr(at, t, n)
    ensures RowsAt(mem, at, count, n)[t] == Slice(mem, RowAddr(at, t, n), n)
  {
    RowEnd(t, count, n);
  }

  /** The two rows read at a position are those of its token and of the position. */
  lemma Embeddings<F>(ops: Ops<F>, params: seq<F>, wte: nat, wpe: nat, net: Net<F>, tok: nat, t: nat, C: nat)
    requires NetOk(net) && tok < net.shape.V && t < net.shape.maxT && C == net.shape.C
    requires Inside(params, wte, net.shape.V * C) && net.wte == Slice(params, wte, net.shape.V * C)
    requires Inside(params, wpe, net.shape.maxT * C) && net.wpe == Slice(params, wpe, net.shape.maxT * C)
    ensures Inside(params, RowAddr(wte, tok, C), C) && Inside(params, RowAddr(wpe, t, C), C)
    ensures AddRow(ops, Slice(params, RowAddr(wte, tok, C), C), Slice(params, RowAddr(wpe, t, C), C)) ==
              Encode(ops, net, tok, t)
  {
    hide NetOk, AddRow;
    NetSizes(net);
    RowEnd(tok, net.shape.V, C);
    RowEnd(t, net.shape.maxT, C);
    TableRow(net.wte, params, wte, net.shape.V, C, tok);
    TableRow(net.wpe, params, wpe, net.shape.maxT, C, t);
  }

  lemma NetSizes<F>(net: Net<F>)
    requires NetOk(net)
    ensures |net.wte| == net.shape.V * net.shape.C && |net.wpe| == net.shape.maxT * net.shape.C
  {
  }

  lemma TableRow<F>(table: Row<F>, params: seq<F>, at: nat, rows: nat, c: nat, i: nat)
    requires Inside(params, at, rows * c) && table == Slice(params, at, rows * c) && i < rows
    ensures i * c + c <= rows * c && (i + 1) * c <= rows * c && WeightRow(table, i, c) == Slice(params, at + i * c, c)
  {
    RowEnd(i, rows, c);
    assert (i + 1) * c == i * c + c;
    SubSlice(params, at, rows * c, i * c, c);
  }

  // ----- softmax -----

  function ExpRow<F>(ops: Ops<F>, x: Row<F>): (y: Row<F>)
    ensures |y| == |x|
  {
    seq(|x|, i requires 0 <= i < |x| => ExpAt(ops, x, i))
  }

  /** Lines 346-360: one position. */
  method SoftmaxAt<F>(ops: Ops<F>, acts: array<F>, probs: nat, logits: nat, V: nat)
    requires Inside(acts[..], probs, V) && Inside(acts[..], logits, V) && Apart(probs, V, logits, V)
    modifies acts
    ensures SameOutside(old(acts[..]), acts[..], probs, V)
    ensures Slice(acts[..], probs, V) == SoftmaxRow(ops, old(Slice(acts[..], logits, V)))
  {
    hide Filled;
    ghost var start := acts[..];
    ghost var x := Slice(start, logits, V);
    var i, maxval := 0, ops.lowest;
    while i < V
      invariant i <= V && maxval == RowMaxTo(ops, x, i)
    {
      if ops.greater(acts[logits + i], maxval) {
        maxval := acts[logits + i];
      }
      i := i + 1;
    }
    var sum := Exponentials(ops, acts, probs, logits, V, maxval);
    Divide(ops, acts, probs, logits, V, sum, start);
  }

  /** Lines 353-357. */
  method Exponentials<F>(ops: Ops<F>, acts: array<F>, probs: nat, logits: nat, V: nat, maxval: F) returns (sum: F)
    requires Inside(acts[..], probs, V) && Inside(acts[..], logits, V) && Apart(probs, V, logits, V)
    requires maxval == RowMaxTo(ops, Slice(acts[..], logits, V), V)
    modifies acts
    ensures SameOutside(old(acts[..]), acts[..], probs, V)
    ensures Slice(acts[..], probs, V) == ExpRow(ops, old(Slice(acts[..], logits, V)))
    ensures sum == ExpsTo(ops, old(Slice(acts[..], logits, V)), V)
  {
    hide Filled, RowMaxTo, SameOutside;
    ghost var start := acts[..];
    ghost var x := Slice(start, logits, V);
    ghost var want := ExpRow(ops, x);
    FilledNone(start, probs, want);
    var i := 0;
    sum := ops.zero;
    while i < V
      invariant i <= V && Filled(start, acts[..], probs, want, i) && sum == ExpsTo(ops, x, i)
    {
      FilledCell(start, acts[..], probs, want, i, logits + i);
      FillOne(start, acts[..], probs, want, i);
      ghost var before := acts[..];
      acts[probs + i] := ops.exp(ops.sub(acts[logits + i], maxval));
      assert acts[..] == before[probs + i := want[i]];
      sum := ops.add(sum, acts[probs + i]);
      i := i + 1;
    }
    FilledAll(start, acts[..], probs, want);
  }

  /** Lines 358-360. */
  method Divide<F>(ops: Ops<F>, acts: array<F>, probs: nat, logits: nat, V: nat, sum: F, ghost first: seq<F>)
    requires Inside(acts[..], probs, V) && Inside(first, logits, V) && SameOutside(first, acts[..], probs, V)
    requires Slice(acts[..], probs, V) == ExpRow(ops, Slice(first, logits, V))
    requires sum == ExpsTo(ops, Slice(first, logits, V), V)
    modifies acts
    ensures SameOutside(first, acts[..], probs, V)
    ensures Slice(acts[..], probs, V) == SoftmaxRow(ops, Slice(first, logits, V))
  {
    hide Filled, SameOutside;
    ghost var start := acts[..];
    ghost var x := Slice(first, logits, V);
    ghost var want := SoftmaxRow(ops, x);
    FilledNone(start, probs, want);
    var i := 0;
    while i < V
      invariant i <= V && Filled(start, acts[..], probs, want, i)
    {
      FilledCell(start, acts[..], probs, want, i, probs + i);
      FillOne(start, acts[..], probs, want, i);
      ghost var before := acts[..];
      assert start[probs + i] == ExpRow(ops, x)[i];
      acts[probs + i] := ops.div(acts[probs + i], sum);
      assert acts[..] == before[probs + i := want[i]];
      i := i + 1;
    }
    FilledAll(start, acts[..], probs, want);
    SameOutsideTwice(first, start, acts[..], probs, V);
  }

  /** The body of the loop over positions. */
  method SoftmaxPosition<F>(ops: Ops<F>, acts: array<F>, probs: nat, logits: nat, T: nat, V: nat, t: nat,
                            ghost first: seq<F>)
    requires Inside(acts[..], probs, T * V) && Inside(acts[..], logits, T * V) && Apart(probs, T * V, logits, T * V)
        && t < T
    requires Inside(first, logits, T * V) && SameOutside(first, acts[..], probs, T * V)
    modifies acts
    ensures SameOutside(first, acts[..], probs, T * V)
    ensures RowsAt(acts[..], probs, T, V)[t] == SoftmaxRow(ops, RowsAt(first, logits, T, V)[t])
    ensures forall k :: 0 <= k < t ==> RowsAt(acts[..], probs, T, V)[k] == old(RowsAt(acts[..], probs, T, V)[k])
  {
    hide SameOutside, RowsAt, SoftmaxRow, RowAddr;
    RowIs(first, logits, T, V, t);
    RowIs(acts[..], probs, T, V, t);
    ghost var before := acts[..];
    ApartRows(first, before, probs, logits, T * V, RowAddr(logits, t, V), V);
    SoftmaxAt(ops, acts, RowAddr(probs, t, V), RowAddr(logits, t, V), V);
    EarlierRows(before, acts[..], probs, T, V, t);
    SameOutsideTwice(first, before, acts[..], probs, T * V);
    RowIs(acts[..], probs, T, V, t);
  }

  /** softmax_forward for one batch row. */
  method SoftmaxForward<F>(ops: Ops<F>, acts: array<F>, probs: nat, logits: nat, T: nat, V: nat)
    requires Inside(acts[..], probs, T * V) && Inside(acts[..], logits, T * V) && Apart(probs, T * V, logits, T * V)
    modifies acts
    ensures SameOutside(old(acts[..]), acts[..], probs, T * V)
    ensures RowsAt(acts[..], probs, T, V) == SoftmaxRows(ops, old(RowsAt(acts[..], logits, T, V)), V)
  {
    hide SameOutside, RowsAt, SoftmaxRow;
    ghost var start := acts[..];
    ghost var x := RowsAt(start, logits, T, V);
    SameAtFirst(start, probs, T * V);
    var t := 0;
    while t < T
      invariant t <= T && SameOutside(start, acts[..], probs, T * V)
      invariant forall k :: 0 <= k < t ==> RowsAt(acts[..], probs, T, V)[k] == SoftmaxRow(ops, x[k])
    {
      SoftmaxPosition(ops, acts, probs, logits, T, V, t, start);
      t := t + 1;
    }
  }

  lemma ApartRows<F>(start: seq<F>, mem: seq<F>, at: nat, other: nat, len: nat, row: nat, n: nat)
    requires SameOutside(start, mem, at, len) && Apart(at, len, other, len) && other <= row
        && row + n <= other + len <= |start|
    ensures |mem| == |start| && Slice(mem, row, n) == Slice(start, row, n)
  {
  }

  // ----- sampling -----

  /** The running sum of lines 691-693. */
  function CdfTo<F>(ops: Ops<F>, p: Row<F>, n: nat): F
    requires n <= |p|
  {
    if n == 0 then ops.zero else ops.add(CdfTo(ops, p, n - 1), p[n - 1])
  }

  ghost predicate Passes<F>(ops: Ops<F>, p: Row<F>, i: nat)
    requires i < |p|
  {
    ops.greater(CdfTo(ops, p, i + 1), ops.half)
  }

  /** The token chosen: the first whose running sum passes one half, or else the last. */
  ghost predicate Chosen<F>(ops: Ops<F>, p: Row<F>, r: int) {
    && 0 <= r < |p| && (forall i :: 0 <= i < r ==> !Passes(ops, p, i))
    && (Passes(ops, p, r) || r == |p| - 1)
  }

  /** sample_mult. */
  method SampleMult<F>(ops: Ops<F>, acts: array<F>, at: nat, n: nat) returns (r: int)
    requires Inside(acts[..], at, n) && n > 0
    ensures Chosen(ops, Slice(acts[..], at, n), r)
  {
    ghost var p := Slice(acts[..], at, n);
    var cdf, i := ops.zero, 0;
    while i < n
      invariant i <= n && cdf == CdfTo(ops, p, i)
      invariant forall k :: 0 <= k < i ==> !Passes(ops, p, k)
    {
      assert p[i] == acts[at + i];
      cdf := ops.add(cdf, acts[at + i]);
      if ops.greater(cdf, ops.half) {
        return i;
      }
      i := i + 1;
    }
    return n - 1;
  }

  lemma ChosenOnce<F>(ops: Ops<F>, p: Row<F>, r: int, r': int)
    requires Chosen(ops, p, r) && Chosen(ops, p, r')
    ensures r == r'
  {
  }
}
