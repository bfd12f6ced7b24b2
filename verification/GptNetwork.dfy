/**
 The whole network as a function of the tokens: a stream of rows, one for each position, carried through the
 layers. Row p of everything depends on the tokens up to p only.
 */
module GptNetwork {
  import opened GptRows

  type Rows<F> = seq<Row<F>>

  ghost predicate AllWide<F>(x: Rows<F>, n: nat) {
    forall t :: 0 <= t < |x| ==> |x[t]| == n
  }

  // ----- the kernels on whole sequences of rows -----

  function LnRows<F>(ops: Ops<F>, x: Rows<F>, w: Row<F>, b: Row<F>): (y: Rows<F>)
    requires AllWide(x, |w|) && |b| == |w|
    ensures |y| == |x| && AllWide(y, |w|)
  {
    seq(|x|, t requires 0 <= t < |x| => LnRow(ops, x[t], w, b))
  }

  function MatRows<F>(ops: Ops<F>, x: Rows<F>, w: Row<F>, b: Bias<F>, c: nat, oc: nat): (y: Rows<F>)
    requires AllWide(x, c) && |w| == oc * c && (b.Bias? ==> |b.row| == oc)
    ensures |y| == |x| && AllWide(y, oc)
  {
    seq(|x|, t requires 0 <= t < |x| => MatRow(ops, x[t], w, b, oc))
  }

  /** Position t attends to positions 0..t. */
  function AttRows<F>(ops: Ops<F>, qkv: Rows<F>, nh: nat, hs: nat): (y: Rows<F>)
    requires AllWide(qkv, 3 * (nh * hs)) && hs > 0
    ensures |y| == |qkv| && AllWide(y, nh * hs)
  {
    seq(|qkv|, t requires 0 <= t < |qkv| => AttRow(ops, qkv[..t + 1], nh, hs))
  }

  function AddRows<F>(ops: Ops<F>, x: Rows<F>, y: Rows<F>, c: nat): (z: Rows<F>)
    requires |x| == |y| && AllWide(x, c) && AllWide(y, c)
    ensures |z| == |x| && AllWide(z, c)
  {
    seq(|x|, t requires 0 <= t < |x| => AddRow(ops, x[t], y[t]))
  }

  function GeluRows<F>(ops: Ops<F>, x: Rows<F>, c: nat): (y: Rows<F>)
    requires AllWide(x, c)
    ensures |y| == |x| && AllWide(y, c)
  {
    seq(|x|, t requires 0 <= t < |x| => GeluRow(ops, x[t]))
  }

  function SoftmaxRows<F>(ops: Ops<F>, x: Rows<F>, c: nat): (y: Rows<F>)
    requires AllWide(x, c)
    ensures |y| == |x| && AllWide(y, c)
  {
    seq(|x|, t requires 0 <= t < |x| => SoftmaxRow(ops, x[t]))
  }

  // ----- the network -----

  datatype Layer<F> = Layer(
    ln1w: Row<F>, ln1b: Row<F>, qkvw: Row<F>, qkvb: Row<F>, attprojw: Row<F>, attprojb: Row<F>,
    ln2w: Row<F>, ln2b: Row<F>, fcw: Row<F>, fcb: Row<F>, fcprojw: Row<F>, fcprojb: Row<F>)

  /** NH heads of width hs; C is NH * hs. */
  datatype Shape = Shape(maxT: nat, V: nat, NH: nat, hs: nat, C: nat)

  datatype Net<F> = Net(shape: Shape, wte: Row<F>, wpe: Row<F>, layers: seq<Layer<F>>, lnfw: Row<F>, lnfb: Row<F>)

  ghost predicate ShapeOk(s: Shape) {
    s.hs > 0 && s.C == s.NH * s.hs && s.V > 0
  }

  ghost predicate LayerOk<F>(w: Layer<F>, c: nat) {
    && |w.ln1w| == |w.ln1b| == |w.ln2w| == |w.ln2b| == |w.attprojb| == |w.fcprojb| == c
    && |w.qkvw| == (3 * c) * c && |w.qkvb| == 3 * c && |w.attprojw| == c * c
    && |w.fcw| == (4 * c) * c && |w.fcb| == 4 * c && |w.fcprojw| == c * (4 * c)
  }

  ghost predicate NetOk<F>(net: Net<F>) {
    && ShapeOk(net.shape)
    && |net.wte| == net.shape.V * net.shape.C && |net.wpe| == net.shape.maxT * net.shape.C
    && (forall l :: 0 <= l < |net.layers| ==> LayerOk(net.layers[l], net.shape.C))
    && |net.lnfw| == |net.lnfb| == net.shape.C
  }

  /** The position embeddings reach far enough, and every token is in the vocabulary. */
  ghost predicate TokensOk<F>(net: Net<F>, toks: seq<nat>) {
    |toks| <= net.shape.maxT && forall t :: 0 <= t < |toks| ==> toks[t] < net.shape.V
  }

  /** Token embedding plus position embedding. */
  function Encode<F>(ops: Ops<F>, net: Net<F>, tok: nat, t: nat): (y: Row<F>)
    requires NetOk(net) && tok < net.shape.V && t < net.shape.maxT
    ensures |y| == net.shape.C
  {
    RowInside(tok, net.shape.V, net.shape.C);
    RowInside(t, net.shape.maxT, net.shape.C);
    AddRow(ops, WeightRow(net.wte, tok, net.shape.C), WeightRow(net.wpe, t, net.shape.C))
  }

  function EncodeRows<F>(ops: Ops<F>, net: Net<F>, toks: seq<nat>): (y: Rows<F>)
    requires NetOk(net) && TokensOk(net, toks)
    ensures |y| == |toks| && AllWide(y, net.shape.C)
  {
    seq(|toks|, t requires 0 <= t < |toks| => Encode(ops, net, toks[t], t))
  }

  /** The attention half of a layer, with its residual connection. */
  function Attended<F>(ops: Ops<F>, s: Shape, w: Layer<F>, x: Rows<F>): (y: Rows<F>)
    requires ShapeOk(s) && LayerOk(w, s.C) && AllWide(x, s.C)
    ensures |y| == |x| && AllWide(y, s.C)
  {
    var qkv := MatRows(ops, LnRows(ops, x, w.ln1w, w.ln1b), w.qkvw, Bias(w.qkvb), s.C, 3 * s.C);
    var mixed := MatRows(ops, AttRows(ops, qkv, s.NH, s.hs), w.attprojw, Bias(w.attprojb), s.C, s.C);
    AddRows(ops, x, mixed, s.C)
  }

  /** The feed-forward half of a layer, with its residual connection. */
  function FedForward<F>(ops: Ops<F>, s: Shape, w: Layer<F>, x: Rows<F>): (y: Rows<F>)
    requires ShapeOk(s) && LayerOk(w, s.C) && AllWide(x, s.C)
    ensures |y| == |x| && AllWide(y, s.C)
  {
    var fch := MatRows(ops, LnRows(ops, x, w.ln2w, w.ln2b), w.fcw, Bias(w.fcb), s.C, 4 * s.C);
    var proj := MatRows(ops, GeluRows(ops, fch, 4 * s.C), w.fcprojw, Bias(w.fcprojb), 4 * s.C, s.C);
    AddRows(ops, x, proj, s.C)
  }

  function LayerRows<F>(ops: Ops<F>, s: Shape, w: Layer<F>, x: Rows<F>): (y: Rows<F>)
    requires ShapeOk(s) && LayerOk(w, s.C) && AllWide(x, s.C)
    ensures |y| == |x| && AllWide(y, s.C)
  {
    FedForward(ops, s, w, Attended(ops, s, w, x))
  }

  /** The residual stream after l layers. */
  function Stream<F>(ops: Ops<F>, net: Net<F>, toks: seq<nat>, l: nat): (y: Rows<F>)
    requires NetOk(net) && TokensOk(net, toks) && l <= |net.layers|
    ensures |y| == |toks| && AllWide(y, net.shape.C)
  {
    if l == 0 then EncodeRows(ops, net, toks)
    else LayerRows(ops, net.shape, net.layers[l - 1], Stream(ops, net, toks, l - 1))
  }

  function Logits<F>(ops: Ops<F>, net: Net<F>, toks: seq<nat>): (y: Rows<F>)
    requires NetOk(net) && TokensOk(net, toks)
    ensures |y| == |toks| && AllWide(y, net.shape.V)
  {
    var x := LnRows(ops, Stream(ops, net, toks, |net.layers|), net.lnfw, net.lnfb);
    MatRows(ops, x, net.wte, NoBias, net.shape.C, net.shape.V)
  }

  function Probs<F>(ops: Ops<F>, net: Net<F>, toks: seq<nat>): (y: Rows<F>)
    requires NetOk(net) && TokensOk(net, toks)
    ensures |y| == |toks| && AllWide(y, net.shape.V)
  {
    SoftmaxRows(ops, Logits(ops, net, toks), net.shape.V)
  }

  // ----- prefixes -----

  lemma AttendedPrefix<F>(ops: Ops<F>, s: Shape, w: Layer<F>, x: Rows<F>, p: nat)
    requires ShapeOk(s) && LayerOk(w, s.C) && AllWide(x, s.C) && p <= |x|
    ensures Attended(ops, s, w, x[..p]) == Attended(ops, s, w, x)[..p]
  {
    hide LnRow, MatRow, AttRow, AddRow;
    var ln := LnRows(ops, x, w.ln1w, w.ln1b);
    assert LnRows(ops, x[..p], w.ln1w, w.ln1b) == ln[..p];
    var qkv := MatRows(ops, ln, w.qkvw, Bias(w.qkvb), s.C, 3 * s.C);
    assert MatRows(ops, ln[..p], w.qkvw, Bias(w.qkvb), s.C, 3 * s.C) == qkv[..p];
    var att := AttRows(ops, qkv, s.NH, s.hs);
    AttPrefix(ops, qkv, s.NH, s.hs, p);
    var mixed := MatRows(ops, att, w.attprojw, Bias(w.attprojb), s.C, s.C);
    assert MatRows(ops, att[..p], w.attprojw, Bias(w.attprojb), s.C, s.C) == mixed[..p];
    assert AddRows(ops, x[..p], mixed[..p], s.C) == AddRows(ops, x, mixed, s.C)[..p];
  }

  lemma AttPrefix<F>(ops: Ops<F>, qkv: Rows<F>, nh: nat, hs: nat, p: nat)
    requires AllWide(qkv, 3 * (nh * hs)) && hs > 0 && p <= |qkv|
    ensures AttRows(ops, qkv[..p], nh, hs) == AttRows(ops, qkv, nh, hs)[..p]
  {
    hide AttRow;
    forall t | 0 <= t < p ensures AttRows(ops, qkv[..p], nh, hs)[t] == AttRows(ops, qkv, nh, hs)[t] {
      assert qkv[..p][..t + 1] == qkv[..t + 1];
    }
  }

  lemma FedForwardPrefix<F>(ops: Ops<F>, s: Shape, w: Layer<F>, x: Rows<F>, p: nat)
    requires ShapeOk(s) && LayerOk(w, s.C) && AllWide(x, s.C) && p <= |x|
    ensures FedForward(ops, s, w, x[..p]) == FedForward(ops, s, w, x)[..p]
  {
    hide LnRow, MatRow, GeluRow, AddRow;
    var ln := LnRows(ops, x, w.ln2w, w.ln2b);
    assert LnRows(ops, x[..p], w.ln2w, w.ln2b) == ln[..p];
    var fch := MatRows(ops, ln, w.fcw, Bias(w.fcb), s.C, 4 * s.C);
    assert MatRows(ops, ln[..p], w.fcw, Bias(w.fcb), s.C, 4 * s.C) == fch[..p];
    var gelu := GeluRows(ops, fch, 4 * s.C);
    assert GeluRows(ops, fch[..p], 4 * s.C) == gelu[..p];
    var proj := MatRows(ops, gelu, w.fcprojw, Bias(w.fcprojb), 4 * s.C, s.C);
    assert MatRows(ops, gelu[..p], w.fcprojw, Bias(w.fcprojb), 4 * s.C, s.C) == proj[..p];
    assert AddRows(ops, x[..p], proj[..p], s.C) == AddRows(ops, x, proj, s.C)[..p];
  }

  /** Running the first l layers on a prefix gives the prefix of running them on everything. */
  lemma {:induction false} StreamPrefix<F>(ops: Ops<F>, net: Net<F>, toks: seq<nat>, p: nat, l: nat)
    requires NetOk(net) && TokensOk(net, toks) && l <= |net.layers| && p <= |toks|
    ensures Stream(ops, net, toks[..p], l) == Stream(ops, net, toks, l)[..p]
  {
    hide Encode, Attended, FedForward;
    if l > 0 {
      StreamPrefix(ops, net, toks, p, l - 1);
      var w, x := net.layers[l - 1], Stream(ops, net, toks, l - 1);
      AttendedPrefix(ops, net.shape, w, x, p);
      FedForwardPrefix(ops, net.shape, w, Attended(ops, net.shape, w, x), p);
    }
  }

  lemma LogitsPrefix<F>(ops: Ops<F>, net: Net<F>, toks: seq<nat>, p: nat)
    requires NetOk(net) && TokensOk(net, toks) && p <= |toks|
    ensures Logits(ops, net, toks[..p]) == Logits(ops, net, toks)[..p]
    ensures Probs(ops, net, toks[..p]) == Probs(ops, net, toks)[..p]
  {
    hide Stream, LnRow, MatRow, SoftmaxRow;
    StreamPrefix(ops, net, toks, p, |net.layers|);
    var x := Stream(ops, net, toks, |net.layers|);
    var ln := LnRows(ops, x, net.lnfw, net.lnfb);
    assert LnRows(ops, x[..p], net.lnfw, net.lnfb) == ln[..p];
  }

  /**
   Causality: two runs, of any two lengths, whose tokens agree up to position p have the same row p in the residual
   stream after every layer, in the logits and in the probabilities.
   */
  lemma Causality<F>(ops: Ops<F>, net: Net<F>, toks: seq<nat>, toks': seq<nat>, p: nat)
    requires NetOk(net) && TokensOk(net, toks) && TokensOk(net, toks')
    requires p < |toks| && p < |toks'| && toks[..p + 1] == toks'[..p + 1]
    ensures forall l :: 0 <= l <= |net.layers| ==> Stream(ops, net, toks, l)[p] == Stream(ops, net, toks', l)[p]
    ensures Logits(ops, net, toks)[p] == Logits(ops, net, toks')[p]
    ensures Probs(ops, net, toks)[p] == Probs(ops, net, toks')[p]
  {
    hide Stream, Logits, Probs;
    forall l | 0 <= l <= |net.layers| ensures Stream(ops, net, toks, l)[p] == Stream(ops, net, toks', l)[p] {
      StreamPrefix(ops, net, toks, p + 1, l);
      StreamPrefix(ops, net, toks', p + 1, l);
      assert Stream(ops, net, toks, l)[p] == Stream(ops, net, toks, l)[..p + 1][p];
    }
    LogitsPrefix(ops, net, toks, p + 1);
    LogitsPrefix(ops, net, toks', p + 1);
    assert Logits(ops, net, toks)[p] == Logits(ops, net, toks)[..p + 1][p];
    assert Probs(ops, net, toks)[p] == Probs(ops, net, toks)[..p + 1][p];
  }
}
