/** The model object: its two arenas, the forward pass, and the loop that generates tokens. */
module GptModel {
  import opened GptRows
  import opened GptIndex
  import opened GptNetwork
  import opened GptKernels
  import opened GptLoops
  import opened GptLayer
  import opened GptArena
  import opened GptForward
  import GptMatmul
  import GptLayerNorm

  /** What a forward pass over `toks` leaves in the activations: all residual streams, logits and probabilities. */
  ghost predicate Computed<F>(ops: Ops<F>, net: Net<F>, toks: seq<nat>, ptrs: seq<nat>, mem: seq<F>) {
    && NetOk(net) && TokensOk(net, toks)
    && ActsPointed(ptrs, net.shape, |net.layers|, |toks|, |mem|)
    && StreamsHeld(ops, net, toks, ptrs, mem, |net.layers|)
    && LogitsAt(net, toks, ptrs, mem) == Logits(ops, net, toks)
    && ProbsAt(net, toks, ptrs, mem) == Probs(ops, net, toks)
  }

  function LogitsAt<F>(net: Net<F>, toks: seq<nat>, ptrs: seq<nat>, mem: seq<F>): (rows: Rows<F>)
    requires ActsPointed(ptrs, net.shape, |net.layers|, |toks|, |mem|)
    ensures |rows| == |toks|
  {
    LayeredChain(ptrs, net.shape, |net.layers|, |toks|, |mem|);
    RowsAt(mem, ptrs[20], |toks|, net.shape.V)
  }

  function ProbsAt<F>(net: Net<F>, toks: seq<nat>, ptrs: seq<nat>, mem: seq<F>): (rows: Rows<F>)
    requires ActsPointed(ptrs, net.shape, |net.layers|, |toks|, |mem|)
    ensures |rows| == |toks|
  {
    LayeredChain(ptrs, net.shape, |net.layers|, |toks|, |mem|);
    RowsAt(mem, ptrs[21], |toks|, net.shape.V)
  }

  class Model<F(0, !new)> {
    const shape: Shape
    const layers: nat
    const params: seq<nat>
    const paramsMemory: array<F>
    var acts: seq<nat>
    var actsMemory: array<F>

    ghost predicate Valid()
      reads this, paramsMemory
    {
      && ShapeOk(shape) && layers > 0 && ParamsPointed(params, shape, layers, paramsMemory.Length)
      && actsMemory != paramsMemory
    }

    ghost function Network(): (net: Net<F>)
      requires Valid()
      reads this, paramsMemory
      ensures NetOk(net) && net.shape == shape && |net.layers| == layers
    {
      NetAt(paramsMemory[..], params, shape, layers)
    }

    /** gpt2_build_from_checkpoint; the file's floats may be fewer than the arena holds, and fread is not checked. */
    constructor (s: Shape, L: nat, file: seq<F>)
      requires ShapeOk(s) && L > 0
      ensures Valid() && shape == s && layers == L && fresh(paramsMemory)
      ensures paramsMemory.Length == SumOf(ParamSizes(s, L), 16)
      ensures forall i :: 0 <= i < paramsMemory.Length && i < |file| ==> paramsMemory[i] == file[i]
      ensures |file| == paramsMemory.Length ==> paramsMemory[..] == file
    {
      shape, layers := s, L;
      var ptrs, total := MallocAndPoint(ParamSizes(s, L));
      params := ptrs;
      paramsMemory := new F[total];
      acts := [];
      actsMemory := new F[0];
      new;
      var n := 0;
      while n < total && n < |file|
        invariant n <= total && n <= |file| && forall i :: 0 <= i < n ==> paramsMemory[i] == file[i]
        modifies paramsMemory
      {
        paramsMemory[n] := file[n];
        n := n + 1;
      }
    }

    /** gpt2_forward with one batch row: a fresh activation arena, filled layer by layer. */
    method Forward(ops: Ops<F>, inputs: seq<nat>)
      requires Valid() && TokensOk(Network(), inputs)
      modifies this`acts, this`actsMemory
      ensures Valid() && fresh(actsMemory) && Network() == old(Network())
      ensures Computed(ops, Network(), inputs, acts, actsMemory[..])
    {
      hide ParamsPointed, ActsPointed, ActSizes, NetAt, NetOk, TokensOk, ShapeOk, StreamsHeld, StreamAt, Stream,
           RowsAt, Laid, LayerOnly, WeightsAt, LayerOk, LayerRows, StreamAddr, ActAddrOf, WeightAddrOf, EncodeRows,
           Inside;
      var ptrs, total := MallocAndPoint(ActSizes(shape, layers, |inputs|));
      AreActs(ptrs, shape, layers, |inputs|, total);
      acts := ptrs;
      actsMemory := new F[total];
      ghost var net, p := Network(), paramsMemory[..];
      AreParams(params, shape, layers, |p|);
      Encoder(ops, actsMemory, paramsMemory, ptrs, params, shape, layers, inputs, net);
      var l := 0;
      while l < layers
        invariant l <= layers && paramsMemory[..] == p && acts == ptrs && fresh(actsMemory)
                  && actsMemory.Length == total
        invariant StreamsHeld(ops, net, inputs, ptrs, actsMemory[..], l)
      {
        OneLayer(ops, actsMemory, paramsMemory, ptrs, params, shape, layers, inputs, l, net);
        l := l + 1;
      }
      LastCalls(ops, actsMemory, paramsMemory, ptrs, params, shape, layers, inputs, net);
    }
  }

  lemma AreActs(ptrs: seq<nat>, s: Shape, L: nat, T: nat, total: nat)
    requires Pointed(ptrs, ActSizes(s, L, T), total)
    ensures ActsPointed(ptrs, s, L, T, total) && |ptrs| == 23
  {
  }

  lemma AreParams(ptrs: seq<nat>, s: Shape, L: nat, total: nat)
    requires ParamsPointed(ptrs, s, L, total)
    ensures |ptrs| == 16
  {
  }

  ghost predicate Ready<F>(mem: seq<F>, p: seq<F>, ptrs: seq<nat>, weights: seq<nat>, s: Shape, L: nat,
                           inputs: seq<nat>, net: Net<F>) {
    && ShapeOk(s) && L > 0 && |ptrs| == 23 && |weights| == 16
    && ActsPointed(ptrs, s, L, |inputs|, |mem|) && ParamsPointed(weights, s, L, |p|)
    && net == NetAt(p, weights, s, L) && TokensOk(net, inputs)
  }

  lemma EncoderFits<F>(mem: seq<F>, p: seq<F>, ptrs: seq<nat>, weights: seq<nat>, s: Shape, L: nat, inputs: seq<nat>,
                       net: Net<F>)
    requires Ready(mem, p, ptrs, weights, s, L, inputs, net)
    ensures NetOk(net) && net.shape == s && |net.layers| == L && ActsPointed(ptrs, s, L, |inputs|, |mem|)
    ensures TokensOk(net, inputs) && |ptrs| == 23 && |weights| == 16
    ensures Inside(mem, ptrs[0], |inputs| * s.C)
    ensures Inside(p, weights[0], s.V * s.C) && net.wte == Slice(p, weights[0], s.V * s.C)
    ensures Inside(p, weights[1], s.maxT * s.C) && net.wpe == Slice(p, weights[1], s.maxT * s.C)
  {
    hide ActsPointed, ParamsPointed, Heads, Times, TokensOk;
    LayeredChain(ptrs, s, L, |inputs|, |mem|);
    ParamsChain(weights, s, L, |p|);
  }

  lemma FirstStream<F>(ops: Ops<F>, net: Net<F>, toks: seq<nat>, ptrs: seq<nat>, mem: seq<F>)
    requires NetOk(net) && TokensOk(net, toks) && |ptrs| == 23
        && ActsPointed(ptrs, net.shape, |net.layers|, |toks|, |mem|)
    requires ptrs[0] + |toks| * net.shape.C <= |mem|
        && RowsAt(mem, ptrs[0], |toks|, net.shape.C) == EncodeRows(ops, net, toks)
    ensures StreamsHeld(ops, net, toks, ptrs, mem, 0)
  {
    hide RowsAt, EncodeRows, ActsPointed, NetOk, TokensOk;
  }

  /** Line 617. */
  method Encoder<F(!new)>(ops: Ops<F>, acts: array<F>, params: array<F>, ptrs: seq<nat>, weights: seq<nat>, s: Shape,
      ghost L: nat, inputs: seq<nat>, ghost net: Net<F>)
    requires acts != params && Ready(acts[..], params[..], ptrs, weights, s, L, inputs, net)
    requires |ptrs| == 23 && |weights| == 16
    modifies acts
    ensures Ready(acts[..], params[..], ptrs, weights, s, L, inputs, net)
    ensures NetOk(net) && TokensOk(net, inputs) && ActsPointed(ptrs, net.shape, |net.layers|, |inputs|, acts.Length)
    ensures StreamsHeld(ops, net, inputs, ptrs, acts[..], 0)
  {
    hide Ready, ParamsPointed, ActsPointed, NetAt, NetOk, TokensOk, ShapeOk, RowsAt, EncodeRows, StreamsHeld, Inside;
    EncoderFits(acts[..], params[..], ptrs, weights, s, L, inputs, net);
    ghost var before := acts[..];
    EncoderForward(ops, acts, params, ptrs[0], inputs, weights[0], weights[1], s.C, net);
    StillReady(before, acts[..], params[..], ptrs, weights, s, L, inputs, net);
    EncoderFits(acts[..], params[..], ptrs, weights, s, L, inputs, net);
    InsideIs(acts[..], ptrs[0], |inputs| * s.C);
    FirstStream(ops, net, inputs, ptrs, acts[..]);
  }

  lemma InsideIs<F>(mem: seq<F>, at: nat, n: nat)
    requires Inside(mem, at, n)
    ensures at + n <= |mem|
  {
  }

  lemma StillReady<F>(before: seq<F>, mem: seq<F>, p: seq<F>, ptrs: seq<nat>, weights: seq<nat>, s: Shape, L: nat,
                      inputs: seq<nat>, net: Net<F>)
    requires Ready(before, p, ptrs, weights, s, L, inputs, net) && |mem| == |before|
    ensures Ready(mem, p, ptrs, weights, s, L, inputs, net)
  {
    hide ActsPointed, ParamsPointed, NetAt, TokensOk;
  }

  lemma LayerReady<F>(mem: seq<F>, p: seq<F>, ptrs: seq<nat>, weights: seq<nat>, s: Shape, L: nat, inputs: seq<nat>,
                      net: Net<F>, l: nat)
    requires Ready(mem, p, ptrs, weights, s, L, inputs, net) && l < L
    ensures |ptrs| == 23 && |weights| == 16 && ShapeOk(s) && l < |net.layers|
    ensures LayerOk(net.layers[l], s.C) && WeightsAt(WeightAddrOf(weights, s, l), p, net.layers[l], s.C)
    ensures Laid(ActAddrOf(ptrs, s, |inputs|, l), s, |inputs|, |mem|)
    ensures ActAddrOf(ptrs, s, |inputs|, l).residual + |inputs| * s.C <= |mem|
    ensures ActAddrOf(ptrs, s, |inputs|, l).residual3 + |inputs| * s.C <= |mem|
  {
    hide ActsPointed, ParamsPointed, TokensOk, WeightsAt, Laid, Heads, Times;
    LayerWeightsFit(weights, s, L, |p|, l);
    LayerLaid(ptrs, s, L, |inputs|, |mem|, l);
    StreamInside(ptrs, s, L, |inputs|, |mem|, l);
    StreamInside(ptrs, s, L, |inputs|, |mem|, l + 1);
  }

  lemma StreamIs<F>(net: Net<F>, toks: seq<nat>, ptrs: seq<nat>, mem: seq<F>, l: nat)
    requires l < |net.layers| && |ptrs| == 23 && ActsPointed(ptrs, net.shape, |net.layers|, |toks|, |mem|)
    ensures var d := ActAddrOf(ptrs, net.shape, |toks|, l);
            && d.residual + |toks| * net.shape.C <= |mem| && d.residual3 + |toks| * net.shape.C <= |mem|
            && StreamAt(net, toks, ptrs, mem, l) == RowsAt(mem, d.residual, |toks|, net.shape.C)
            && StreamAt(net, toks, ptrs, mem, l + 1) == RowsAt(mem, d.residual3, |toks|, net.shape.C)
  {
    hide ActsPointed, RowsAt, Heads, Times;
    StreamInside(ptrs, net.shape, |net.layers|, |toks|, |mem|, l);
    StreamInside(ptrs, net.shape, |net.layers|, |toks|, |mem|, l + 1);
  }

  lemma HeldAt<F>(ops: Ops<F>, net: Net<F>, toks: seq<nat>, ptrs: seq<nat>, mem: seq<F>, l: nat)
    requires NetOk(net) && TokensOk(net, toks) && l <= |net.layers|
        && ActsPointed(ptrs, net.shape, |net.layers|, |toks|, |mem|)
    requires StreamsHeld(ops, net, toks, ptrs, mem, l)
    ensures StreamAt(net, toks, ptrs, mem, l) == Stream(ops, net, toks, l)
  {
    hide NetOk, TokensOk, ActsPointed, StreamAt;
    assert Stream(ops, net, toks, l) == Stream(ops, net, toks, l);
  }

  /** Lines 620-664 for layer l. */
  method OneLayer<F(!new)>(ops: Ops<F>, acts: array<F>, params: array<F>, ptrs: seq<nat>, weights: seq<nat>, s: Shape,
      ghost L: nat, inputs: seq<nat>, l: nat, ghost net: Net<F>)
    requires acts != params && Ready(acts[..], params[..], ptrs, weights, s, L, inputs, net) && l < L == |net.layers|
    requires |ptrs| == 23 && |weights| == 16 && net.shape == s
    requires NetOk(net) && TokensOk(net, inputs) && ActsPointed(ptrs, s, L, |inputs|, acts.Length)
    requires StreamsHeld(ops, net, inputs, ptrs, acts[..], l)
    modifies acts
    ensures Ready(acts[..], params[..], ptrs, weights, s, L, inputs, net)
    ensures StreamsHeld(ops, net, inputs, ptrs, acts[..], l + 1)
  {
    hide Ready, ParamsPointed, ActsPointed, NetAt, NetOk, TokensOk, ShapeOk, StreamsHeld, StreamAt, Stream, RowsAt,
         Laid, LayerOnly, WeightsAt, LayerOk, LayerRows, ActAddrOf, WeightAddrOf;
    ghost var before := acts[..];
    LayerReady(before, params[..], ptrs, weights, s, L, inputs, net, l);
    var d, w := ActAddrOf(ptrs, s, |inputs|, l), WeightAddrOf(weights, s, l);
    HeldAt(ops, net, inputs, ptrs, before, l);
    StreamIs(net, inputs, ptrs, before, l);
    LayerForward(ops, acts, params, d, w, s, |inputs|, net.layers[l]);
    SameLength(d, s, |inputs|, before, acts[..]);
    StreamIs(net, inputs, ptrs, acts[..], l);
    LayerStep(ops, net, inputs, ptrs, before, acts[..], l);
    StillReady(before, acts[..], params[..], ptrs, weights, s, L, inputs, net);
  }

  lemma SameLength<F>(d: ActAddr, s: Shape, T: nat, start: seq<F>, mem: seq<F>)
    requires LayerOnly(d, s, T, start, mem)
    ensures |mem| == |start|
  {
  }

  lemma ReadyParts<F>(mem: seq<F>, p: seq<F>, ptrs: seq<nat>, weights: seq<nat>, s: Shape, L: nat, inputs: seq<nat>,
                      net: Net<F>)
    requires Ready(mem, p, ptrs, weights, s, L, inputs, net)
    ensures ShapeOk(s) && ParamsPointed(weights, s, L, |p|) && net == NetAt(p, weights, s, L)
  {
    hide ActsPointed, ParamsPointed, NetAt, TokensOk, ShapeOk;
  }

  /** Lines 666-667. */
  method LastNorm<F(!new)>(ops: Ops<F>, acts: array<F>, params: array<F>, ptrs: seq<nat>, weights: seq<nat>, s: Shape,
      L: nat, inputs: seq<nat>, ghost net: Net<F>)
    requires acts != params && Ready(acts[..], params[..], ptrs, weights, s, L, inputs, net) && L == |net.layers|
    requires |ptrs| == 23 && |weights| == 16 && net.shape == s
    requires NetOk(net) && TokensOk(net, inputs) && ActsPointed(ptrs, s, L, |inputs|, acts.Length)
    requires StreamsHeld(ops, net, inputs, ptrs, acts[..], L) && ptrs[17] + |inputs| * s.C <= acts.Length
    modifies acts
    ensures Ready(acts[..], params[..], ptrs, weights, s, L, inputs, net)
    ensures StreamsHeld(ops, net, inputs, ptrs, acts[..], L)
    ensures RowsAt(acts[..], ptrs[17], |inputs|, s.C) == LnRows(ops, Stream(ops, net, inputs, L), net.lnfw, net.lnfb)
  {
    hide Ready, ParamsPointed, ActsPointed, NetAt, NetOk, TokensOk, ShapeOk, StreamsHeld, Stream, RowsAt, LnRows,
         StreamAddr, SameBelow, GptLayerNorm.Fits, GptLayerNorm.Result;
    ghost var before, p := acts[..], params[..];
    ReadyParts(before, p, ptrs, weights, s, L, inputs, net);
    LnfFits(ptrs, weights, s, L, |inputs|, before, p);
    GptLayerNorm.Forward(ops, LnfArgs(ptrs, weights, s, L, |inputs|), acts, params);
    LnfDone(ops, ptrs, weights, s, L, |inputs|, before, p, acts[..]);
    StreamsBelow(ops, net, inputs, ptrs, before, acts[..]);
    HeldAt(ops, net, inputs, ptrs, before, L);
    StillReady(before, acts[..], p, ptrs, weights, s, L, inputs, net);
  }

  /** Line 668. */
  method LastMatmul<F(!new)>(ops: Ops<F>, acts: array<F>, params: array<F>, ptrs: seq<nat>, weights: seq<nat>,
      s: Shape, ghost L: nat, inputs: seq<nat>, ghost net: Net<F>)
    requires acts != params && Ready(acts[..], params[..], ptrs, weights, s, L, inputs, net) && L == |net.layers|
    requires |ptrs| == 23 && |weights| == 16 && net.shape == s
    requires NetOk(net) && TokensOk(net, inputs) && ActsPointed(ptrs, s, L, |inputs|, acts.Length)
    requires StreamsHeld(ops, net, inputs, ptrs, acts[..], L)
    requires ptrs[17] + |inputs| * s.C <= acts.Length && ptrs[20] + |inputs| * s.V <= acts.Length
    requires RowsAt(acts[..], ptrs[17], |inputs|, s.C) == LnRows(ops, Stream(ops, net, inputs, L), net.lnfw, net.lnfb)
    modifies acts
    ensures Ready(acts[..], params[..], ptrs, weights, s, L, inputs, net)
    ensures StreamsHeld(ops, net, inputs, ptrs, acts[..], L)
    ensures RowsAt(acts[..], ptrs[20], |inputs|, s.V) == Logits(ops, net, inputs)
  {
    hide Ready, ParamsPointed, ActsPointed, NetAt, NetOk, TokensOk, ShapeOk, StreamsHeld, Stream, RowsAt, LnRows,
         MatRows, SameBelow, GptMatmul.Fits, GptMatmul.Result;
    ghost var before, p := acts[..], params[..];
    ReadyParts(before, p, ptrs, weights, s, L, inputs, net);
    LogitsFits(ptrs, weights, s, L, |inputs|, before, p);
    GptMatmul.Forward(ops, LogitsArgs(ptrs, weights, s, |inputs|), acts, params);
    LogitsDone(ops, ptrs, weights, s, L, |inputs|, before, p, acts[..]);
    StreamsBelow(ops, net, inputs, ptrs, before, acts[..]);
    StillReady(before, acts[..], p, ptrs, weights, s, L, inputs, net);
  }

  lemma OutputsInside<F>(ptrs: seq<nat>, s: Shape, L: nat, T: nat, mem: seq<F>)
    requires ActsPointed(ptrs, s, L, T, |mem|)
    ensures |ptrs| == 23 && ptrs[17] + T * s.C <= |mem| && ptrs[20] + T * s.V <= |mem| && ptrs[21] + T * s.V <= |mem|
    ensures Inside(mem, ptrs[20], T * s.V) && Inside(mem, ptrs[21], T * s.V)
        && Apart(ptrs[21], T * s.V, ptrs[20], T * s.V)
    ensures ptrs[17] <= ptrs[21] && ptrs[20] + T * s.V <= ptrs[21]
  {
    hide ActsPointed, Heads, Times;
    LayeredChain(ptrs, s, L, T, |mem|);
  }

  /** Nothing that was computed before is lost when the probabilities are stored. */
  lemma ProbsDone<F>(ops: Ops<F>, net: Net<F>, toks: seq<nat>, ptrs: seq<nat>, start: seq<F>, mem: seq<F>)
    requires NetOk(net) && TokensOk(net, toks) && ActsPointed(ptrs, net.shape, |net.layers|, |toks|, |start|)
    requires StreamsHeld(ops, net, toks, ptrs, start, |net.layers|)
    requires |ptrs| == 23 && ptrs[20] + |toks| * net.shape.V <= |start| && ptrs[21] + |toks| * net.shape.V <= |start|
    requires SameOutside(start, mem, ptrs[21], |toks| * net.shape.V)
    requires RowsAt(start, ptrs[20], |toks|, net.shape.V) == Logits(ops, net, toks)
    requires |mem| == |start| && RowsAt(mem, ptrs[21], |toks|, net.shape.V) == Probs(ops, net, toks)
    ensures Computed(ops, net, toks, ptrs, mem)
  {
    hide NetOk, TokensOk, ActsPointed, StreamsHeld, RowsAt, Logits, Probs;
    OutputsInside(ptrs, net.shape, |net.layers|, |toks|, start);
    StreamsBelow(ops, net, toks, ptrs, start, mem);
    RowsKept(start, mem, ptrs[20], |toks|, net.shape.V);
  }

  /** Lines 666-669. */
  method LastCalls<F(!new)>(ops: Ops<F>, acts: array<F>, params: array<F>, ptrs: seq<nat>, weights: seq<nat>, s: Shape,
      L: nat, inputs: seq<nat>, ghost net: Net<F>)
    requires acts != params && Ready(acts[..], params[..], ptrs, weights, s, L, inputs, net) && L == |net.layers|
    requires |ptrs| == 23 && |weights| == 16 && net.shape == s
    requires NetOk(net) && TokensOk(net, inputs) && ActsPointed(ptrs, s, L, |inputs|, acts.Length)
    requires StreamsHeld(ops, net, inputs, ptrs, acts[..], L)
    modifies acts
    ensures Computed(ops, net, inputs, ptrs, acts[..])
  {
    hide Ready, ParamsPointed, ActsPointed, NetAt, NetOk, TokensOk, ShapeOk, StreamsHeld, Stream, RowsAt, LnRows,
         MatRows, SoftmaxRows, Logits, Inside, SameOutside, Computed;
    OutputsInside(ptrs, s, L, |inputs|, acts[..]);
    LastNorm(ops, acts, params, ptrs, weights, s, L, inputs, net);
    LastMatmul(ops, acts, params, ptrs, weights, s, L, inputs, net);
    ghost var before := acts[..];
    OutputsInside(ptrs, s, L, |inputs|, before);
    SoftmaxForward(ops, acts, ptrs[21], ptrs[20], |inputs|, s.V);
    ProbsDone(ops, net, inputs, ptrs, before, acts[..]);
  }
}
