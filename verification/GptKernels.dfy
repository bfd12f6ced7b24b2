/**
 The kernels seen as operations on blocks of rows in one float memory: what the threaded kernels leave there, and
 the kernels of gpt.c that are plain loops.
 */
module GptKernels {
  import opened GptRows
  import opened GptIndex
  import opened GptNetwork
  import GptMatmul
  import GptLayerNorm
  import GptAttention

  /** `count` rows of length n, stored one after another from address `at`. */
  function RowsAt<F>(mem: seq<F>, at: nat, count: nat, n: nat): (rows: Rows<F>)
    requires at + count * n <= |mem|
    ensures |rows| == count && AllWide(rows, n)
  {
    seq(count, t requires 0 <= t < count =>
      RowEnd(t, count, n);
      Slice(mem, at + t * n, n))
  }

  lemma RowEnd(t: nat, count: nat, n: nat)
    requires t < count
    ensures t * n + n <= count * n
  {
    RowInside(t, count, n);
    assert (t + 1) * n == t * n + n;
  }

  /** `mem` is `start` outside the n cells from `at`. */
  ghost predicate SameOutside<F>(start: seq<F>, mem: seq<F>, at: nat, n: nat) {
    |mem| == |start| && forall addr :: 0 <= addr < |mem| && !(at <= addr < at + n) ==> mem[addr] == start[addr]
  }

  ghost predicate SameInside<F>(start: seq<F>, mem: seq<F>, at: nat, n: nat) {
    && |mem| == |start| && at + n <= |mem|
    && forall addr {:trigger mem[addr]} {:trigger start[addr]} :: at <= addr < at + n ==> mem[addr] == start[addr]
  }

  lemma RowsKept<F>(start: seq<F>, mem: seq<F>, at: nat, count: nat, n: nat)
    requires at + count * n <= |mem| == |start| && SameInside(start, mem, at, count * n)
    ensures RowsAt(mem, at, count, n) == RowsAt(start, at, count, n)
  {
    hide RowsAt, Slice, SameInside;
    forall t | 0 <= t < count ensures RowsAt(mem, at, count, n)[t] == RowsAt(start, at, count, n)[t] {
      RowKept(start, mem, at, count, n, t);
    }
  }

  lemma RowKept<F>(start: seq<F>, mem: seq<F>, at: nat, count: nat, n: nat, t: nat)
    requires t < count && at + count * n <= |mem| == |start| && SameInside(start, mem, at, count * n)
    ensures RowsAt(mem, at, count, n)[t] == RowsAt(start, at, count, n)[t]
  {
    hide Slice, SameInside;
    RowEnd(t, count, n);
    SliceKept(start, mem, at, count * n, at + t * n, n);
  }

  lemma SliceKept<F>(start: seq<F>, mem: seq<F>, lo: nat, len: nat, at: nat, n: nat)
    requires SameInside(start, mem, lo, len) && lo <= at && at + n <= lo + len
    ensures Slice(mem, at, n) == Slice(start, at, n)
  {
  }

  // ----- the threaded kernels -----

  lemma MatmulRows<F>(ops: Ops<F>, a: GptMatmul.Args, start: seq<F>, params: seq<F>, mem: seq<F>)
    requires GptMatmul.Fits(a, start, params) && GptMatmul.Result(ops, a, start, params, mem)
    ensures |mem| == |start| && SameOutside(start, mem, a.out, a.T * a.OC)
    ensures RowsAt(mem, a.out, a.T, a.OC) ==
              MatRows(ops, RowsAt(start, a.inp, a.T, a.C), Slice(params, a.weight, a.OC * a.C),
                      GptMatmul.BiasRow(a, params), a.C, a.OC)
  {
    hide MatRow, GptMatmul.BiasRow, GptMatmul.Stored;
    var got, inp := RowsAt(mem, a.out, a.T, a.OC), RowsAt(start, a.inp, a.T, a.C);
    var w, b := Slice(params, a.weight, a.OC * a.C), GptMatmul.BiasRow(a, params);
    forall t | 0 <= t < a.T ensures got[t] == MatRow(ops, inp[t], w, b, a.OC) {
      RowEnd(t, a.T, a.OC);
      RowEnd(t, a.T, a.C);
      MatmulRow(ops, a, start, params, mem, t);
    }
  }

  lemma MatmulRow<F>(ops: Ops<F>, a: GptMatmul.Args, start: seq<F>, params: seq<F>, mem: seq<F>, t: nat)
    requires |mem| == |start| && a.out + a.T * a.OC <= |start| && t < a.T && t * a.OC + a.OC <= a.T * a.OC
    requires GptMatmul.Fits(a, start, params) && GptMatmul.Result(ops, a, start, params, mem)
    ensures Slice(mem, a.out + t * a.OC, a.OC) == GptMatmul.Output(ops, a, start, params, t)
  {
    hide GptMatmul.Output, GptMatmul.Result, GptMatmul.Fits;
    var got := Slice(mem, a.out + t * a.OC, a.OC);
    forall o | 0 <= o < a.OC ensures got[o] == GptMatmul.Output(ops, a, start, params, t)[o] {
      GptMatmul.ElementOf(ops, a, start, params, mem, t, o);
    }
  }

  lemma LayerNormRows<F>(ops: Ops<F>, a: GptLayerNorm.Args, start: seq<F>, params: seq<F>, mem: seq<F>)
    requires GptLayerNorm.Fits(a, start, params) && GptLayerNorm.Result(ops, a, start, params, mem)
    ensures |mem| == |start|
    ensures forall addr :: 0 <= addr < |mem| && !GptLayerNorm.Written(a, addr) ==> mem[addr] == start[addr]
    ensures RowsAt(mem, a.out, a.T, a.C) ==
              LnRows(ops, RowsAt(start, a.inp, a.T, a.C), Slice(params, a.weight, a.C), Slice(params, a.bias, a.C))
  {
    hide LnRow, GptLayerNorm.StoredTo, Mean, Rstd;
    var got, inp := RowsAt(mem, a.out, a.T, a.C), RowsAt(start, a.inp, a.T, a.C);
    var w, b := Slice(params, a.weight, a.C), Slice(params, a.bias, a.C);
    forall t | 0 <= t < a.T ensures got[t] == LnRow(ops, inp[t], w, b) {
      LayerNormRow(ops, a, start, params, mem, t);
    }
  }

  lemma LayerNormRow<F>(ops: Ops<F>, a: GptLayerNorm.Args, start: seq<F>, params: seq<F>, mem: seq<F>, t: nat)
    requires |mem| == |start|
    requires GptLayerNorm.Fits(a, start, params) && GptLayerNorm.Result(ops, a, start, params, mem) && t < a.T
    ensures t * a.C + a.C <= a.T * a.C
    ensures Slice(mem, a.out + t * a.C, a.C) == GptLayerNorm.Output(ops, a, start, params, t)
  {
    hide LnRow, GptLayerNorm.Result;
    RowEnd(t, a.T, a.C);
    var got := Slice(mem, a.out + t * a.C, a.C);
    forall i | 0 <= i < a.C ensures got[i] == GptLayerNorm.Output(ops, a, start, params, t)[i] {
      GptLayerNorm.ElementOf(ops, a, start, params, mem, t, i);
    }
  }

  lemma AttentionRows<F>(ops: Ops<F>, a: GptAttention.Args, start: seq<F>, mem: seq<F>)
    requires GptAttention.Fits(a, start) && GptAttention.Result(ops, a, start, mem)
    ensures |mem| == |start|
    ensures forall addr :: 0 <= addr < |mem| && !GptAttention.Written(a, addr) ==> mem[addr] == start[addr]
    ensures RowsAt(mem, a.out, a.T, a.NH * a.hs) ==
              AttRows(ops, RowsAt(start, a.inp, a.T, 3 * (a.NH * a.hs)), a.NH, a.hs)
  {
    forall addr | 0 <= addr < |mem| && !GptAttention.Written(a, addr) ensures mem[addr] == start[addr] {
      GptAttention.NotOwned(a, addr);
    }
    var got, inp := RowsAt(mem, a.out, a.T, a.NH * a.hs), RowsAt(start, a.inp, a.T, 3 * (a.NH * a.hs));
    forall t | 0 <= t < a.T ensures got[t] == AttRow(ops, inp[..t + 1], a.NH, a.hs) {
      AttentionRow(ops, a, start, mem, t);
    }
  }

  lemma AttentionRow<F>(ops: Ops<F>, a: GptAttention.Args, start: seq<F>, mem: seq<F>, t: nat)
    requires GptAttention.Fits(a, start) && GptAttention.Result(ops, a, start, mem) && t < a.T
    ensures |mem| == |start|
    ensures RowsAt(mem, a.out, a.T, a.NH * a.hs)[t] ==
              AttRow(ops, RowsAt(start, a.inp, a.T, 3 * (a.NH * a.hs))[..t + 1], a.NH, a.hs)
  {
    hide AttRow, GptAttention.Result, GptAttention.HeadAt;
    GptAttention.OutputRow(ops, a, start, mem, t);
    var rows := RowsAt(start, a.inp, a.T, 3 * (a.NH * a.hs));
    assert GptAttention.Rows(a, start, t) == rows[..t + 1];
  }
}
