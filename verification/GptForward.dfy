/** gpt2_forward: encoder, layers, final normalisation, logits and probabilities, in one arena of activations. */
module GptForward {
  import opened GptRows
  import opened GptIndex
  import opened GptNetwork
  import opened GptKernels
  import opened GptLoops
  import opened GptLayer
  import opened GptArena
  import GptMatmul
  import GptLayerNorm

  /** Where the residual stream after l layers is. */
  function StreamAddr(ptrs: seq<nat>, s: Shape, T: nat, l: nat): nat
    requires |ptrs| == 23
  {
    if l == 0 then ptrs[0] else ptrs[16] + Times(l - 1, Block(T, s.C))
  }

  lemma StreamInside(ptrs: seq<nat>, s: Shape, L: nat, T: nat, total: nat, l: nat)
    requires ActsPointed(ptrs, s, L, T, total) && l <= L
    ensures |ptrs| == 23 && StreamAddr(ptrs, s, T, l) + Block(T, s.C) <= ptrs[17] <= total
    ensures l == 0 ==> StreamAddr(ptrs, s, T, l) + Block(T, s.C) <= ptrs[1]
    ensures l > 0 ==> ptrs[16] <= StreamAddr(ptrs, s, T, l)
  {
    hide ActsPointed, Block, Heads, Times;
    LayeredChain(ptrs, s, L, T, total);
    if l > 0 {
      SliceInside(l - 1, L, Block(T, s.C));
    }
  }

  lemma BeforeLayer(d: ActAddr, s: Shape, T: nat, size: nat, addr: nat)
    requires Laid(d, s, T, size) && addr < d.ln1
    ensures !InAttend(d, s, T, addr) && !InFeed(d, s, T, addr)
  {
    hide Block, Heads;
  }

  lemma BeforeOutput(d: ActAddr, s: Shape, T: nat, size: nat, addr: nat)
    requires Laid(d, s, T, size) && d.fcproj + Block(T, s.C) <= addr < d.residual3
    ensures !InAttend(d, s, T, addr) && !InFeed(d, s, T, addr)
  {
    hide Block, Heads;
  }

  /** A layer leaves the streams before it alone. */
  lemma StreamOutsideLayer(ptrs: seq<nat>, s: Shape, L: nat, T: nat, total: nat, k: nat, l: nat, addr: nat)
    requires ActsPointed(ptrs, s, L, T, total) && k <= l < L && |ptrs| == 23
    requires StreamAddr(ptrs, s, T, k) <= addr < StreamAddr(ptrs, s, T, k) + Block(T, s.C)
    ensures !InAttend(ActAddrOf(ptrs, s, T, l), s, T, addr) && !InFeed(ActAddrOf(ptrs, s, T, l), s, T, addr)
  {
    hide ActsPointed, Block, Heads, Times, Laid, InAttend, InFeed;
    LayerLaid(ptrs, s, L, T, total, l);
    StreamInside(ptrs, s, L, T, total, k);
    if k == 0 {
      BeforeLayer(ActAddrOf(ptrs, s, T, l), s, T, total, addr);
    } else {
      SlicesApart(k - 1, l, Block(T, s.C));
      InTheirTensors(ptrs, s, L, T, total, l);
      BeforeOutput(ActAddrOf(ptrs, s, T, l), s, T, total, addr);
    }
  }

  /** The parts of a layer before its output are in tensors before the layers' outputs. */
  lemma InTheirTensors(ptrs: seq<nat>, s: Shape, L: nat, T: nat, total: nat, l: nat)
    requires ActsPointed(ptrs, s, L, T, total) && l < L
    ensures |ptrs| == 23
    ensures var d := ActAddrOf(ptrs, s, T, l); d.fcproj + Block(T, s.C) <= ptrs[16]
  {
    hide ActsPointed, Block, Heads, Times;
    LayeredChain(ptrs, s, L, T, total);
    SliceInside(l, L, Block(T, s.C));
  }

  /** The streams after 0..l layers are in memory. */
  ghost predicate StreamsHeld<F>(ops: Ops<F>, net: Net<F>, toks: seq<nat>, ptrs: seq<nat>, mem: seq<F>, l: nat)
    requires NetOk(net) && TokensOk(net, toks) && l <= |net.layers|
    requires ActsPointed(ptrs, net.shape, |net.layers|, |toks|, |mem|)
  {
    forall k: nat {:trigger Stream(ops, net, toks, k)} :: k <= l ==>
      StreamAt(net, toks, ptrs, mem, k) == Stream(ops, net, toks, k)
  }

  function StreamAt<F>(net: Net<F>, toks: seq<nat>, ptrs: seq<nat>, mem: seq<F>, k: nat): (rows: Rows<F>)
    requires k <= |net.layers| && ActsPointed(ptrs, net.shape, |net.layers|, |toks|, |mem|)
    ensures |rows| == |toks|
  {
    StreamInside(ptrs, net.shape, |net.layers|, |toks|, |mem|, k);
    RowsAt(mem, StreamAddr(ptrs, net.shape, |toks|, k), |toks|, net.shape.C)
  }

  lemma StreamKept<F>(net: Net<F>, toks: seq<nat>, ptrs: seq<nat>, start: seq<F>, mem: seq<F>, k: nat, l: nat)
    requires k <= l < |net.layers| && |mem| == |start| && |ptrs| == 23
    requires ActsPointed(ptrs, net.shape, |net.layers|, |toks|, |start|)
    requires LayerOnly(ActAddrOf(ptrs, net.shape, |toks|, l), net.shape, |toks|, start, mem)
    ensures StreamAt(net, toks, ptrs, mem, k) == StreamAt(net, toks, ptrs, start, k)
  {
    hide ActsPointed, Heads, InAttend, InFeed, StreamAddr, ActAddrOf, RowsAt;
    var s, T := net.shape, |toks|;
    StreamInside(ptrs, s, |net.layers|, T, |start|, k);
    var at := StreamAddr(ptrs, s, T, k);
    forall addr: nat | at <= addr < at + Block(T, s.C) ensures mem[addr] == start[addr] {
      StreamOutsideLayer(ptrs, s, |net.layers|, T, |start|, k, l, addr);
    }
    RowsKept(start, mem, at, T, s.C);
  }

  lemma LayerStep<F>(ops: Ops<F>, net: Net<F>, toks: seq<nat>, ptrs: seq<nat>, start: seq<F>, mem: seq<F>, l: nat)
    requires NetOk(net) && TokensOk(net, toks) && l < |net.layers| && |mem| == |start| && |ptrs| == 23
    requires ActsPointed(ptrs, net.shape, |net.layers|, |toks|, |start|)
    requires StreamsHeld(ops, net, toks, ptrs, start, l)
    requires LayerOnly(ActAddrOf(ptrs, net.shape, |toks|, l), net.shape, |toks|, start, mem)
    requires StreamAt(net, toks, ptrs, mem, l + 1) ==
               LayerRows(ops, net.shape, net.layers[l], Stream(ops, net, toks, l))
    ensures StreamsHeld(ops, net, toks, ptrs, mem, l + 1)
  {
    hide ActsPointed, LayerOnly, StreamAt, LayerRows, ActAddrOf;
    forall k: nat | k <= l + 1 ensures StreamAt(net, toks, ptrs, mem, k) == Stream(ops, net, toks, k) {
      if k <= l {
        StreamKept(net, toks, ptrs, start, mem, k, l);
        assert StreamAt(net, toks, ptrs, start, k) == Stream(ops, net, toks, k);
      }
    }
  }

  // ----- lines 666-669 -----

  ghost predicate SameBelow<F>(start: seq<F>, mem: seq<F>, bound: nat) {
    |mem| == |start| && forall addr :: 0 <= addr < |mem| && addr < bound ==> mem[addr] == start[addr]
  }

  lemma StreamsBelow<F>(ops: Ops<F>, net: Net<F>, toks: seq<nat>, ptrs: seq<nat>, start: seq<F>, mem: seq<F>)
    requires NetOk(net) && TokensOk(net, toks) && |mem| == |start| && |ptrs| == 23
    requires ActsPointed(ptrs, net.shape, |net.layers|, |toks|, |start|)
    requires StreamsHeld(ops, net, toks, ptrs, start, |net.layers|) && SameBelow(start, mem, ptrs[17])
    ensures StreamsHeld(ops, net, toks, ptrs, mem, |net.layers|)
  {
    hide ActsPointed, StreamAddr, RowsAt, Stream;
    var s, T := net.shape, |toks|;
    forall k: nat | k <= |net.layers| ensures StreamAt(net, toks, ptrs, mem, k) == Stream(ops, net, toks, k) {
      StreamInside(ptrs, s, |net.layers|, T, |start|, k);
      RowsKept(start, mem, StreamAddr(ptrs, s, T, k), T, s.C);
      assert StreamAt(net, toks, ptrs, start, k) == Stream(ops, net, toks, k);
    }
  }

  function LnfArgs(ptrs: seq<nat>, weights: seq<nat>, s: Shape, L: nat, T: nat): GptLayerNorm.Args
    requires |ptrs| == 23 && |weights| == 16
  {
    GptLayerNorm.Args(ptrs[17], ptrs[18], ptrs[19], StreamAddr(ptrs, s, T, L), weights[14], weights[15], T, s.C)
  }

  function LogitsArgs(ptrs: seq<nat>, weights: seq<nat>, s: Shape, T: nat): GptMatmul.Args
    requires |ptrs| == 23 && |weights| == 16
  {
    GptMatmul.Args(ptrs[20], ptrs[17], weights[0], false, 0, T, s.C, s.V)
  }

  lemma LnfFits<F>(ptrs: seq<nat>, weights: seq<nat>, s: Shape, L: nat, T: nat, mem: seq<F>, params: seq<F>)
    requires ActsPointed(ptrs, s, L, T, |mem|) && ParamsPointed(weights, s, L, |params|)
    ensures |ptrs| == 23 && |weights| == 16 && GptLayerNorm.Fits(LnfArgs(ptrs, weights, s, L, T), mem, params)
  {
    hide ActsPointed, ParamsPointed, Heads, Times, StreamAddr;
    LayeredChain(ptrs, s, L, T, |mem|);
    ParamsChain(weights, s, L, |params|);
    StreamInside(ptrs, s, L, T, |mem|, L);
  }

  lemma LogitsFits<F>(ptrs: seq<nat>, weights: seq<nat>, s: Shape, L: nat, T: nat, mem: seq<F>, params: seq<F>)
    requires ActsPointed(ptrs, s, L, T, |mem|) && ParamsPointed(weights, s, L, |params|)
    ensures |ptrs| == 23 && |weights| == 16 && GptMatmul.Fits(LogitsArgs(ptrs, weights, s, T), mem, params)
    ensures Inside(mem, ptrs[20], T * s.V) && Inside(mem, ptrs[21], T * s.V)
        && Apart(ptrs[21], T * s.V, ptrs[20], T * s.V)
    ensures ptrs[17] <= ptrs[20] <= ptrs[21]
  {
    hide ActsPointed, ParamsPointed, Heads, Times;
    LayeredChain(ptrs, s, L, T, |mem|);
    ParamsChain(weights, s, L, |params|);
  }

  lemma LnfDone<F>(ops: Ops<F>, ptrs: seq<nat>, weights: seq<nat>, s: Shape, L: nat, T: nat, start: seq<F>,
                   params: seq<F>, mem: seq<F>)
    requires ShapeOk(s) && ActsPointed(ptrs, s, L, T, |start|) && ParamsPointed(weights, s, L, |params|)
    requires |ptrs| == 23 && |weights| == 16
    requires GptLayerNorm.Fits(LnfArgs(ptrs, weights, s, L, T), start, params)
    requires GptLayerNorm.Result(ops, LnfArgs(ptrs, weights, s, L, T), start, params, mem)
    ensures SameBelow(start, mem, ptrs[17])
    ensures ptrs[17] + T * s.C <= |mem| && StreamAddr(ptrs, s, T, L) + T * s.C <= |start|
    ensures RowsAt(mem, ptrs[17], T, s.C) ==
              LnRows(ops, RowsAt(start, StreamAddr(ptrs, s, T, L), T, s.C),
                     NetAt(params, weights, s, L).lnfw, NetAt(params, weights, s, L).lnfb)
  {
    hide ActsPointed, ParamsPointed, Heads, Times, StreamAddr, GptLayerNorm.Result, RowsAt, LnRows;
    LayeredChain(ptrs, s, L, T, |start|);
    LayerNormRows(ops, LnfArgs(ptrs, weights, s, L, T), start, params, mem);
  }

  lemma LogitsDone<F>(ops: Ops<F>, ptrs: seq<nat>, weights: seq<nat>, s: Shape, L: nat, T: nat, start: seq<F>,
                      params: seq<F>, mem: seq<F>)
    requires ShapeOk(s) && ActsPointed(ptrs, s, L, T, |start|) && ParamsPointed(weights, s, L, |params|)
    requires |ptrs| == 23 && |weights| == 16
    requires GptMatmul.Fits(LogitsArgs(ptrs, weights, s, T), start, params)
    requires GptMatmul.Result(ops, LogitsArgs(ptrs, weights, s, T), start, params, mem)
    ensures SameBelow(start, mem, ptrs[17])
    ensures ptrs[20] + T * s.V <= |mem| && ptrs[17] + T * s.C <= |start|
    ensures RowsAt(mem, ptrs[20], T, s.V) ==
              MatRows(ops, RowsAt(start, ptrs[17], T, s.C), NetAt(params, weights, s, L).wte, NoBias, s.C, s.V)
  {
    hide ActsPointed, ParamsPointed, Heads, Times, GptMatmul.Result, RowsAt, MatRows;
    LayeredChain(ptrs, s, L, T, |start|);
    MatmulRows(ops, LogitsArgs(ptrs, weights, s, T), start, params, mem);
  }
}
