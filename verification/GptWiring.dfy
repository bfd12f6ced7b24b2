/**
 How the kernels are put together, read off the two arenas after a forward pass: which tensor is computed from which,
 with which weights. Weights are named by the entry of the parameter table and the offset of the layer in it.
 */
module GptWiring {
  import opened GptRows
  import opened GptIndex
  import opened GptNetwork
  import opened GptKernels
  import opened GptLayer
  import opened GptArena
  import opened GptForward
  import opened GptModel

  /** The rows of the tensor at an address, or none if it is not in memory. */
  function Tensor<F>(mem: seq<F>, at: nat, count: nat, n: nat): (rows: Rows<F>)
    ensures AllWide(rows, n)
  {
    if at + count * n <= |mem| then RowsAt(mem, at, count, n) else []
  }

  /** The output of layer l - 1, or of the encoder. */
  function StreamRows<F>(mem: seq<F>, acts: seq<nat>, T: nat, C: nat, l: nat): (rows: Rows<F>)
    requires |acts| == 23
    ensures AllWide(rows, C)
  {
    Tensor(mem, if l == 0 then acts[0] else acts[16] + (l - 1) * (T * C), T, C)
  }

  /** n floats from an address on, or none if they are not in memory. */
  function Floats<F>(p: seq<F>, at: nat, n: nat): Row<F> {
    if at + n <= |p| then Slice(p, at, n) else []
  }

  /** Layer l's weights, by name. */
  function WeightsOf<F>(p: seq<F>, w: seq<nat>, C: nat, l: nat): Layer<F>
    requires |w| == 16
  {
    Layer(
      Floats(p, w[2] + l * C, C), Floats(p, w[3] + l * C, C),
      Floats(p, w[4] + l * ((3 * C) * C), (3 * C) * C), Floats(p, w[5] + l * (3 * C), 3 * C),
      Floats(p, w[6] + l * (C * C), C * C), Floats(p, w[7] + l * C, C),
      Floats(p, w[8] + l * C, C), Floats(p, w[9] + l * C, C),
      Floats(p, w[10] + l * ((4 * C) * C), (4 * C) * C), Floats(p, w[11] + l * (4 * C), 4 * C),
      Floats(p, w[12] + l * (C * (4 * C)), C * (4 * C)), Floats(p, w[13] + l * C, C))
  }

  /** Lines 655-659: normalisation, projection to queries, keys and values, attention, projection, and x again. */
  ghost predicate AfterAttention<F>(ops: Ops<F>, s: Shape, k: Layer<F>, x: Rows<F>, residual2: Rows<F>)
    requires ShapeOk(s) && LayerOk(k, s.C) && AllWide(x, s.C)
  {
    var ln1 := LnRows(ops, x, k.ln1w, k.ln1b);
    var qkv := MatRows(ops, ln1, k.qkvw, Bias(k.qkvb), s.C, 3 * s.C);
    var atty := AttRows(ops, qkv, s.NH, s.hs);
    var attproj := MatRows(ops, atty, k.attprojw, Bias(k.attprojb), s.C, s.C);
    residual2 == AddRows(ops, x, attproj, s.C)
  }

  /** Lines 660-664: normalisation, projection to four times the width, GELU, projection back, and residual2 again. */
  ghost predicate AfterFeedForward<F>(ops: Ops<F>, s: Shape, k: Layer<F>, residual2: Rows<F>, residual3: Rows<F>)
    requires ShapeOk(s) && LayerOk(k, s.C) && AllWide(residual2, s.C)
  {
    var ln2 := LnRows(ops, residual2, k.ln2w, k.ln2b);
    var fch := MatRows(ops, ln2, k.fcw, Bias(k.fcb), s.C, 4 * s.C);
    var gelu := GeluRows(ops, fch, 4 * s.C);
    var fcproj := MatRows(ops, gelu, k.fcprojw, Bias(k.fcprojb), 4 * s.C, s.C);
    residual3 == AddRows(ops, residual2, fcproj, s.C)
  }

  lemma LayerIs<F>(p: seq<F>, w: seq<nat>, s: Shape, L: nat, l: nat)
    requires ShapeOk(s) && ParamsPointed(w, s, L, |p|) && l < L
    ensures |w| == 16 && NetAt(p, w, s, L).layers[l] == WeightsOf(p, w, s.C, l)
  {
    hide ParamsPointed, ShapeOk, LayerOk, WeightsAt;
    LayerWeightsFit(w, s, L, |p|, l);
  }

  lemma HalvesAre<F>(ops: Ops<F>, s: Shape, k: Layer<F>, x: Rows<F>)
    requires ShapeOk(s) && LayerOk(k, s.C) && AllWide(x, s.C)
    ensures AfterAttention(ops, s, k, x, Attended(ops, s, k, x))
    ensures AfterFeedForward(ops, s, k, x, FedForward(ops, s, k, x))
  {
    hide LnRows, MatRows, AttRows, AddRows, GeluRows;
  }

  /**
   After a forward pass, the residual stream behind layer l is computed from the one before it by normalisation,
   attention, feed-forward and the two residual additions, with the l-th slices of the twelve tensors of weights.
   */
  lemma StreamFollows<F>(ops: Ops<F>, p: seq<F>, w: seq<nat>, s: Shape, L: nat, toks: seq<nat>, acts: seq<nat>,
                         mem: seq<F>, l: nat) returns (residual2: Rows<F>)
    requires ShapeOk(s) && ParamsPointed(w, s, L, |p|) && Computed(ops, NetAt(p, w, s, L), toks, acts, mem) && l < L
    ensures |w| == 16 && |acts| == 23 && LayerOk(WeightsOf(p, w, s.C, l), s.C) && AllWide(residual2, s.C)
    ensures var k := WeightsOf(p, w, s.C, l);
            && |StreamRows(mem, acts, |toks|, s.C, l)| == |toks|
            && AfterAttention(ops, s, k, StreamRows(mem, acts, |toks|, s.C, l), residual2)
            && AfterFeedForward(ops, s, k, residual2, StreamRows(mem, acts, |toks|, s.C, l + 1))
  {
    hide ParamsPointed, Attended, FedForward, AfterAttention, AfterFeedForward, NetAt, ActsPointed, NetOk, TokensOk,
         StreamsHeld, WeightsOf, ShapeOk, LayerOk, Stream, StreamRows;
    var net := NetAt(p, w, s, L);
    LayerIs(p, w, s, L, l);
    var k := WeightsOf(p, w, s.C, l);
    StreamIsHeld(ops, net, toks, acts, mem, l);
    StreamIsHeld(ops, net, toks, acts, mem, l + 1);
    NextStream(ops, net, toks, l);
    var x := Stream(ops, net, toks, l);
    HalvesAre(ops, s, k, x);
    residual2 := Attended(ops, s, k, x);
    HalvesAre(ops, s, k, residual2);
  }

  lemma NextStream<F>(ops: Ops<F>, net: Net<F>, toks: seq<nat>, l: nat)
    requires NetOk(net) && TokensOk(net, toks) && l < |net.layers|
    ensures ShapeOk(net.shape) && LayerOk(net.layers[l], net.shape.C)
    ensures Stream(ops, net, toks, l + 1) ==
              FedForward(ops, net.shape, net.layers[l],
                         Attended(ops, net.shape, net.layers[l], Stream(ops, net, toks, l)))
  {
    hide Attended, FedForward, ShapeOk, LayerOk;
  }

  lemma StreamIsHeld<F>(ops: Ops<F>, net: Net<F>, toks: seq<nat>, acts: seq<nat>, mem: seq<F>, l: nat)
    requires Computed(ops, net, toks, acts, mem) && l <= |net.layers|
    ensures |acts| == 23 && StreamRows(mem, acts, |toks|, net.shape.C, l) == Stream(ops, net, toks, l)
  {
    hide ActsPointed, RowsAt, Stream, NetOk, TokensOk, LogitsAt, ProbsAt, Logits, Probs;
    StreamInside(acts, net.shape, |net.layers|, |toks|, |mem|, l);
    assert StreamAt(net, toks, acts, mem, l) == Stream(ops, net, toks, l);
  }

  // ----- the two ends -----

  /** Each row of the first stream is its token's row of the first tensor plus its position's row of the second. */
  lemma FirstRows<F>(ops: Ops<F>, p: seq<F>, w: seq<nat>, s: Shape, L: nat, toks: seq<nat>, acts: seq<nat>,
                     mem: seq<F>, t: nat)
    requires ShapeOk(s) && ParamsPointed(w, s, L, |p|) && Computed(ops, NetAt(p, w, s, L), toks, acts, mem)
    requires t < |toks|
    ensures |w| == 16 && |acts| == 23 && |StreamRows(mem, acts, |toks|, s.C, 0)| == |toks|
    ensures Embedded(ops, StreamRows(mem, acts, |toks|, s.C, 0)[t], p, w, toks[t], t, s.C)
  {
    hide ParamsPointed, ActsPointed, StreamsHeld, ShapeOk, LogitsAt, ProbsAt, Logits, Probs, StreamRows, Embedded,
         NetAt, Encode, NetOk;
    var net := NetAt(p, w, s, L);
    StreamIsHeld(ops, net, toks, acts, mem, 0);
    Embeddings(p, w, s, L);
    EncodeIs(ops, net, p, w, toks[t], t);
  }

  /** z is, entry by entry, row `tok` of the first tensor of weights plus row t of the second. */
  ghost predicate Embedded<F>(ops: Ops<F>, z: Row<F>, p: seq<F>, w: seq<nat>, tok: nat, t: nat, C: nat)
    requires |w| == 16
  {
    var x, y := Floats(p, w[0] + tok * C, C), Floats(p, w[1] + t * C, C);
    |z| == |x| == |y| == C && forall i :: 0 <= i < C ==> z[i] == ops.add(x[i], y[i])
  }

  lemma Embeddings<F>(p: seq<F>, w: seq<nat>, s: Shape, L: nat)
    requires ShapeOk(s) && ParamsPointed(w, s, L, |p|)
    ensures var net := NetAt(p, w, s, L);
            && |w| == 16 && w[0] + s.V * s.C <= |p| && w[1] + s.maxT * s.C <= |p|
            && net.wte == Slice(p, w[0], s.V * s.C) && net.wpe == Slice(p, w[1], s.maxT * s.C)
            && w[14] + s.C <= |p| && w[15] + s.C <= |p|
            && net.lnfw == Slice(p, w[14], s.C) && net.lnfb == Slice(p, w[15], s.C)
  {
    hide ParamsPointed, ShapeOk, Times, LayerOk;
    ParamsChain(w, s, L, |p|);
  }

  lemma EncodeIs<F>(ops: Ops<F>, net: Net<F>, p: seq<F>, w: seq<nat>, tok: nat, t: nat)
    requires NetOk(net) && tok < net.shape.V && t < net.shape.maxT && |w| == 16
    requires w[0] + net.shape.V * net.shape.C <= |p| && w[1] + net.shape.maxT * net.shape.C <= |p|
    requires net.wte == Slice(p, w[0], net.shape.V * net.shape.C)
    requires net.wpe == Slice(p, w[1], net.shape.maxT * net.shape.C)
    ensures Embedded(ops, Encode(ops, net, tok, t), p, w, tok, t, net.shape.C)
  {
    hide NetOk, Slice;
    var C := net.shape.C;
    RowEnd(tok, net.shape.V, C);
    RowEnd(t, net.shape.maxT, C);
    RowOf(net.wte, p, w[0], net.shape.V, C, tok);
    RowOf(net.wpe, p, w[1], net.shape.maxT, C, t);
  }

  lemma RowOf<F>(rows: Row<F>, p: seq<F>, at: nat, count: nat, n: nat, i: nat)
    requires at + count * n <= |p| && rows == Slice(p, at, count * n) && i < count
    ensures |rows| == count * n && (i + 1) * n <= count * n && at + i * n + n <= |p|
    ensures WeightRow(rows, i, n) == Slice(p, at + i * n, n)
  {
    RowEnd(i, count, n);
    RowInside(i, count, n);
    assert (i + 1) * n == i * n + n;
    RowsSlice(p, at, count * n, i * n, n);
  }

  lemma RowsSlice<F>(p: seq<F>, at: nat, len: nat, from: nat, n: nat)
    requires at + len <= |p| && from + n <= len
    ensures Slice(p, at, len)[from..from + n] == Slice(p, at + from, n)
  {
    var a, b := Slice(p, at, len)[from..from + n], Slice(p, at + from, n);
    forall i | 0 <= i < n ensures a[i] == b[i] {
    }
  }

  /**
   The logits come from the last stream by the last normalisation and a product with the token embeddings, and each
   row of probabilities is the softmax of its row of logits.
   */
  lemma LastRows<F>(ops: Ops<F>, p: seq<F>, w: seq<nat>, s: Shape, L: nat, toks: seq<nat>, acts: seq<nat>,
                    mem: seq<F>)
    requires ShapeOk(s) && ParamsPointed(w, s, L, |p|) && Computed(ops, NetAt(p, w, s, L), toks, acts, mem)
    ensures |w| == 16 && |acts| == 23
    ensures |Floats(p, w[14], s.C)| == |Floats(p, w[15], s.C)| == s.C && |Floats(p, w[0], s.V * s.C)| == s.V * s.C
    ensures var lnf := LnRows(ops, StreamRows(mem, acts, |toks|, s.C, L), Floats(p, w[14], s.C), Floats(p, w[15], s.C));
            var logits := Tensor(mem, acts[20], |toks|, s.V);
            && logits == MatRows(ops, lnf, Floats(p, w[0], s.V * s.C), NoBias, s.C, s.V)
            && Tensor(mem, acts[21], |toks|, s.V) == SoftmaxRows(ops, logits, s.V)
  {
    hide ParamsPointed, ActsPointed, StreamsHeld, ShapeOk, StreamRows, NetAt, RowsAt, NetOk, TokensOk, LnRows, MatRows,
         SoftmaxRows, Stream;
    var net := NetAt(p, w, s, L);
    StreamIsHeld(ops, net, toks, acts, mem, L);
    Embeddings(p, w, s, L);
    LayeredChain(acts, s, L, |toks|, |mem|);
  }
}
