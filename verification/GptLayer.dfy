/**
 One layer of the forward pass on the two float memories: ten kernel calls, each reading what the one before it
 left, compute the layer's function of the residual stream and store nowhere else.
 */
module GptLayer {
  import opened GptRows
  import opened GptIndex
  import opened GptNetwork
  import opened GptKernels
  import opened GptLoops
  import GptMatmul
  import GptLayerNorm
  import GptAttention

  /** Where a layer's activations are; `residual` is what it reads. */
  datatype ActAddr = ActAddr(
    residual: nat, ln1: nat, ln1Mean: nat, ln1Rstd: nat, qkv: nat, atty: nat, preatt: nat, att: nat, attproj: nat,
    residual2: nat, ln2: nat, ln2Mean: nat, ln2Rstd: nat, fch: nat, fchGelu: nat, fcproj: nat, residual3: nat)

  /** Where a layer's weights are. */
  datatype WeightAddr = WeightAddr(
    ln1w: nat, ln1b: nat, qkvw: nat, qkvb: nat, attprojw: nat, attprojb: nat,
    ln2w: nat, ln2b: nat, fcw: nat, fcb: nat, fcprojw: nat, fcprojb: nat)

  function Block(T: nat, n: nat): nat {
    T * n
  }

  function Heads(s: Shape, T: nat): nat {
    s.NH * T * T
  }

  /** The activations of a layer lie in order, one after another, and apart from what the layer reads. */
  ghost predicate Laid(d: ActAddr, s: Shape, T: nat, size: nat) {
    && d.ln1 + Block(T, s.C) <= d.ln1Mean && d.ln1Mean + T <= d.ln1Rstd && d.ln1Rstd + T <= d.qkv
    && d.qkv + Block(T, 3 * s.C) <= d.atty && d.atty + Block(T, s.C) <= d.preatt
    && d.preatt + Heads(s, T) <= d.att && d.att + Heads(s, T) <= d.attproj && d.attproj + Block(T, s.C) <= d.residual2
    && d.residual2 + Block(T, s.C) <= d.ln2 && d.ln2 + Block(T, s.C) <= d.ln2Mean
    && d.ln2Mean + T <= d.ln2Rstd && d.ln2Rstd + T <= d.fch && d.fch + Block(T, 4 * s.C) <= d.fchGelu
    && d.fchGelu + Block(T, 4 * s.C) <= d.fcproj && d.fcproj + Block(T, s.C) <= d.residual3
    && d.residual3 + Block(T, s.C) <= size
    && (d.residual + Block(T, s.C) <= d.ln1
        || (d.fcproj + Block(T, s.C) <= d.residual && d.residual + Block(T, s.C) <= d.residual3))
  }

  ghost predicate At<F>(params: seq<F>, at: nat, n: nat, row: Row<F>) {
    at + n <= |params| && row == Slice(params, at, n)
  }

  /** The parameter memory holds these weights at these addresses. */
  ghost predicate WeightsAt<F>(w: WeightAddr, params: seq<F>, layer: Layer<F>, C: nat) {
    && At(params, w.ln1w, C, layer.ln1w) && At(params, w.ln1b, C, layer.ln1b)
    && At(params, w.qkvw, (3 * C) * C, layer.qkvw) && At(params, w.qkvb, 3 * C, layer.qkvb)
    && At(params, w.attprojw, C * C, layer.attprojw) && At(params, w.attprojb, C, layer.attprojb)
    && At(params, w.ln2w, C, layer.ln2w) && At(params, w.ln2b, C, layer.ln2b)
    && At(params, w.fcw, (4 * C) * C, layer.fcw) && At(params, w.fcb, 4 * C, layer.fcb)
    && At(params, w.fcprojw, C * (4 * C), layer.fcprojw) && At(params, w.fcprojb, C, layer.fcprojb)
  }

  predicate In(addr: nat, at: nat, n: nat) {
    at <= addr < at + n
  }

  /** The cells the attention half stores to. */
  predicate InAttend(d: ActAddr, s: Shape, T: nat, addr: nat) {
    || In(addr, d.ln1, Block(T, s.C)) || In(addr, d.ln1Mean, T) || In(addr, d.ln1Rstd, T)
    || In(addr, d.qkv, Block(T, 3 * s.C)) || In(addr, d.atty, Block(T, s.C))
    || In(addr, d.preatt, Heads(s, T)) || In(addr, d.att, Heads(s, T))
    || In(addr, d.attproj, Block(T, s.C)) || In(addr, d.residual2, Block(T, s.C))
  }

  /** The cells the feed-forward half stores to. */
  predicate InFeed(d: ActAddr, s: Shape, T: nat, addr: nat) {
    || In(addr, d.ln2, Block(T, s.C)) || In(addr, d.ln2Mean, T) || In(addr, d.ln2Rstd, T)
    || In(addr, d.fch, Block(T, 4 * s.C)) || In(addr, d.fchGelu, Block(T, 4 * s.C))
    || In(addr, d.fcproj, Block(T, s.C)) || In(addr, d.residual3, Block(T, s.C))
  }

  ghost predicate AttendOnly<F>(d: ActAddr, s: Shape, T: nat, start: seq<F>, mem: seq<F>) {
    |mem| == |start| && forall addr :: 0 <= addr < |mem| && !InAttend(d, s, T, addr) ==> mem[addr] == start[addr]
  }

  ghost predicate FeedOnly<F>(d: ActAddr, s: Shape, T: nat, start: seq<F>, mem: seq<F>) {
    |mem| == |start| && forall addr :: 0 <= addr < |mem| && !InFeed(d, s, T, addr) ==> mem[addr] == start[addr]
  }

  lemma AttendThen<F>(d: ActAddr, s: Shape, T: nat, a: seq<F>, b: seq<F>, c: seq<F>)
    requires AttendOnly(d, s, T, a, b) && AttendOnly(d, s, T, b, c)
    ensures AttendOnly(d, s, T, a, c)
  {
    hide InAttend;
  }

  lemma FeedThen<F>(d: ActAddr, s: Shape, T: nat, a: seq<F>, b: seq<F>, c: seq<F>)
    requires FeedOnly(d, s, T, a, b) && FeedOnly(d, s, T, b, c)
    ensures FeedOnly(d, s, T, a, c)
  {
    hide InFeed;
  }

  /** The attention half does not touch what it reads. */
  lemma ResidualKept<F>(d: ActAddr, s: Shape, T: nat, start: seq<F>, mem: seq<F>)
    requires |mem| == |start| && Laid(d, s, T, |start|) && AttendOnly(d, s, T, start, mem)
    ensures d.residual + T * s.C <= |start|
    ensures RowsAt(mem, d.residual, T, s.C) == RowsAt(start, d.residual, T, s.C)
  {
    hide Heads;
    RowsKept(start, mem, d.residual, T, s.C);
  }

  /** The feed-forward half does not touch what it reads. */
  lemma Residual2Kept<F>(d: ActAddr, s: Shape, T: nat, start: seq<F>, mem: seq<F>)
    requires |mem| == |start| && Laid(d, s, T, |start|) && FeedOnly(d, s, T, start, mem)
    ensures d.residual2 + T * s.C <= |start|
    ensures RowsAt(mem, d.residual2, T, s.C) == RowsAt(start, d.residual2, T, s.C)
  {
    hide Heads;
    RowsKept(start, mem, d.residual2, T, s.C);
  }

  // ----- line 655 -----

  function Ln1Args(d: ActAddr, w: WeightAddr, s: Shape, T: nat): GptLayerNorm.Args {
    GptLayerNorm.Args(d.ln1, d.ln1Mean, d.ln1Rstd, d.residual, w.ln1w, w.ln1b, T, s.C)
  }

  lemma Ln1Fits<F>(d: ActAddr, w: WeightAddr, s: Shape, T: nat, mem: seq<F>, params: seq<F>, layer: Layer<F>)
    requires Laid(d, s, T, |mem|) && WeightsAt(w, params, layer, s.C)
    ensures GptLayerNorm.Fits(Ln1Args(d, w, s, T), mem, params)
  {
    hide Heads;
  }

  lemma Ln1Done<F>(ops: Ops<F>, d: ActAddr, w: WeightAddr, s: Shape, T: nat, start: seq<F>, params: seq<F>,
                   layer: Layer<F>, mem: seq<F>)
    requires Laid(d, s, T, |start|) && WeightsAt(w, params, layer, s.C) && LayerOk(layer, s.C)
    requires GptLayerNorm.Fits(Ln1Args(d, w, s, T), start, params)
        && GptLayerNorm.Result(ops, Ln1Args(d, w, s, T), start, params, mem)
    ensures |mem| == |start| && AttendOnly(d, s, T, start, mem) && d.ln1 + T * s.C <= |mem|
        && d.residual + T * s.C <= |mem|
    ensures RowsAt(mem, d.ln1, T, s.C) == LnRows(ops, RowsAt(start, d.residual, T, s.C), layer.ln1w, layer.ln1b)
  {
    hide GptLayerNorm.Result, LnRows, RowsAt, Heads;
    LayerNormRows(ops, Ln1Args(d, w, s, T), start, params, mem);
  }

  // ----- line 656 -----

  function QkvArgs(d: ActAddr, w: WeightAddr, s: Shape, T: nat): GptMatmul.Args {
    GptMatmul.Args(d.qkv, d.ln1, w.qkvw, true, w.qkvb, T, s.C, 3 * s.C)
  }

  lemma QkvFits<F>(d: ActAddr, w: WeightAddr, s: Shape, T: nat, mem: seq<F>, params: seq<F>, layer: Layer<F>)
    requires Laid(d, s, T, |mem|) && WeightsAt(w, params, layer, s.C)
    ensures GptMatmul.Fits(QkvArgs(d, w, s, T), mem, params)
  {
    hide Heads;
  }

  lemma QkvDone<F>(ops: Ops<F>, d: ActAddr, w: WeightAddr, s: Shape, T: nat, start: seq<F>, params: seq<F>,
                   layer: Layer<F>, mem: seq<F>)
    requires Laid(d, s, T, |start|) && WeightsAt(w, params, layer, s.C) && LayerOk(layer, s.C)
    requires GptMatmul.Fits(QkvArgs(d, w, s, T), start, params)
        && GptMatmul.Result(ops, QkvArgs(d, w, s, T), start, params, mem)
    ensures |mem| == |start| && AttendOnly(d, s, T, start, mem) && d.qkv + T * (3 * s.C) <= |mem|
        && d.ln1 + T * s.C <= |mem|
    ensures RowsAt(mem, d.qkv, T, 3 * s.C) ==
              MatRows(ops, RowsAt(start, d.ln1, T, s.C), layer.qkvw, Bias(layer.qkvb), s.C, 3 * s.C)
  {
    hide GptMatmul.Result, MatRows, RowsAt, Heads;
    MatmulRows(ops, QkvArgs(d, w, s, T), start, params, mem);
    assert GptMatmul.BiasRow(QkvArgs(d, w, s, T), params) == Bias(layer.qkvb);
  }

  // ----- line 657 -----

  function AttArgs(d: ActAddr, s: Shape, T: nat): GptAttention.Args {
    GptAttention.Args(d.atty, d.preatt, d.att, d.qkv, T, s.NH, s.hs)
  }

  lemma AttSizes(d: ActAddr, s: Shape, T: nat)
    requires ShapeOk(s)
    ensures GptAttention.OutSize(AttArgs(d, s, T)) == Block(T, s.C)
        && GptAttention.InpSize(AttArgs(d, s, T)) == Block(T, 3 * s.C)
    ensures GptAttention.AttSize(AttArgs(d, s, T)) == Heads(s, T)
  {
  }

  lemma AttFits<F>(d: ActAddr, s: Shape, T: nat, mem: seq<F>)
    requires ShapeOk(s) && Laid(d, s, T, |mem|)
    ensures GptAttention.Fits(AttArgs(d, s, T), mem)
  {
    hide Heads, Block, GptAttention.OutSize, GptAttention.InpSize, GptAttention.AttSize;
    AttSizes(d, s, T);
  }

  lemma AttDone<F>(ops: Ops<F>, d: ActAddr, s: Shape, T: nat, start: seq<F>, mem: seq<F>)
    requires ShapeOk(s) && Laid(d, s, T, |start|)
    requires GptAttention.Fits(AttArgs(d, s, T), start) && GptAttention.Result(ops, AttArgs(d, s, T), start, mem)
    ensures |mem| == |start| && AttendOnly(d, s, T, start, mem) && d.atty + T * s.C <= |mem|
        && d.qkv + T * (3 * s.C) <= |mem|
    ensures RowsAt(mem, d.atty, T, s.C) == AttRows(ops, RowsAt(start, d.qkv, T, 3 * s.C), s.NH, s.hs)
  {
    hide GptAttention.Fits, GptAttention.Result, AttRows, RowsAt, Heads, GptAttention.OutSize, GptAttention.InpSize,
         GptAttention.AttSize;
    AttSizes(d, s, T);
    AttentionRows(ops, AttArgs(d, s, T), start, mem);
  }

  // ----- line 658 -----

  function ProjArgs(d: ActAddr, w: WeightAddr, s: Shape, T: nat): GptMatmul.Args {
    GptMatmul.Args(d.attproj, d.atty, w.attprojw, true, w.attprojb, T, s.C, s.C)
  }

  lemma ProjFits<F>(d: ActAddr, w: WeightAddr, s: Shape, T: nat, mem: seq<F>, params: seq<F>, layer: Layer<F>)
    requires Laid(d, s, T, |mem|) && WeightsAt(w, params, layer, s.C)
    ensures GptMatmul.Fits(ProjArgs(d, w, s, T), mem, params)
  {
    hide Heads;
  }

  lemma ProjDone<F>(ops: Ops<F>, d: ActAddr, w: WeightAddr, s: Shape, T: nat, start: seq<F>, params: seq<F>,
                    layer: Layer<F>, mem: seq<F>)
    requires Laid(d, s, T, |start|) && WeightsAt(w, params, layer, s.C) && LayerOk(layer, s.C)
    requires GptMatmul.Fits(ProjArgs(d, w, s, T), start, params)
        && GptMatmul.Result(ops, ProjArgs(d, w, s, T), start, params, mem)
    ensures |mem| == |start| && AttendOnly(d, s, T, start, mem) && d.attproj + T * s.C <= |mem|
        && d.atty + T * s.C <= |mem|
    ensures RowsAt(mem, d.attproj, T, s.C) ==
              MatRows(ops, RowsAt(start, d.atty, T, s.C), layer.attprojw, Bias(layer.attprojb), s.C, s.C)
  {
    hide GptMatmul.Result, MatRows, RowsAt, Heads;
    MatmulRows(ops, ProjArgs(d, w, s, T), start, params, mem);
    assert GptMatmul.BiasRow(ProjArgs(d, w, s, T), params) == Bias(layer.attprojb);
  }

  // ----- line 659 -----

  lemma Res2Fits<F>(d: ActAddr, s: Shape, T: nat, mem: seq<F>)
    requires Laid(d, s, T, |mem|)
    ensures Inside(mem, d.residual2, T * s.C) && Inside(mem, d.residual, T * s.C) && Inside(mem, d.attproj, T * s.C)
    ensures Apart(d.residual2, T * s.C, d.residual, T * s.C) && Apart(d.residual2, T * s.C, d.attproj, T * s.C)
  {
    hide Heads;
  }

  lemma Res2Done<F>(ops: Ops<F>, d: ActAddr, s: Shape, T: nat, start: seq<F>, mem: seq<F>)
    requires Laid(d, s, T, |start|) && |mem| == |start| && SameOutside(start, mem, d.residual2, T * s.C)
    requires Inside(start, d.residual2, T * s.C) && Inside(start, d.residual, T * s.C)
        && Inside(start, d.attproj, T * s.C)
    requires Slice(mem, d.residual2, T * s.C) ==
               AddRow(ops, Slice(start, d.residual, T * s.C), Slice(start, d.attproj, T * s.C))
    ensures AttendOnly(d, s, T, start, mem)
    ensures RowsAt(mem, d.residual2, T, s.C) ==
              AddRows(ops, RowsAt(start, d.residual, T, s.C), RowsAt(start, d.attproj, T, s.C), s.C)
  {
    hide AddRows, RowsAt, Heads, Slice, AddRow;
    AddFlat(ops, mem, start, d.residual2, d.residual, d.attproj, T, s.C);
  }

  // ----- line 660 -----

  function Ln2Args(d: ActAddr, w: WeightAddr, s: Shape, T: nat): GptLayerNorm.Args {
    GptLayerNorm.Args(d.ln2, d.ln2Mean, d.ln2Rstd, d.residual2, w.ln2w, w.ln2b, T, s.C)
  }

  lemma Ln2Fits<F>(d: ActAddr, w: WeightAddr, s: Shape, T: nat, mem: seq<F>, params: seq<F>, layer: Layer<F>)
    requires Laid(d, s, T, |mem|) && WeightsAt(w, params, layer, s.C)
    ensures GptLayerNorm.Fits(Ln2Args(d, w, s, T), mem, params)
  {
    hide Heads;
  }

  lemma Ln2Done<F>(ops: Ops<F>, d: ActAddr, w: WeightAddr, s: Shape, T: nat, start: seq<F>, params: seq<F>,
                   layer: Layer<F>, mem: seq<F>)
    requires Laid(d, s, T, |start|) && WeightsAt(w, params, layer, s.C) && LayerOk(layer, s.C)
    requires GptLayerNorm.Fits(Ln2Args(d, w, s, T), start, params)
        && GptLayerNorm.Result(ops, Ln2Args(d, w, s, T), start, params, mem)
    ensures |mem| == |start| && FeedOnly(d, s, T, start, mem) && d.ln2 + T * s.C <= |mem|
        && d.residual2 + T * s.C <= |mem|
    ensures RowsAt(mem, d.ln2, T, s.C) == LnRows(ops, RowsAt(start, d.residual2, T, s.C), layer.ln2w, layer.ln2b)
  {
    hide GptLayerNorm.Result, LnRows, RowsAt, Heads;
    LayerNormRows(ops, Ln2Args(d, w, s, T), start, params, mem);
  }

  // ----- line 661 -----

  function FchArgs(d: ActAddr, w: WeightAddr, s: Shape, T: nat): GptMatmul.Args {
    GptMatmul.Args(d.fch, d.ln2, w.fcw, true, w.fcb, T, s.C, 4 * s.C)
  }

  lemma FchFits<F>(d: ActAddr, w: WeightAddr, s: Shape, T: nat, mem: seq<F>, params: seq<F>, layer: Layer<F>)
    requires Laid(d, s, T, |mem|) && WeightsAt(w, params, layer, s.C)
    ensures GptMatmul.Fits(FchArgs(d, w, s, T), mem, params)
  {
    hide Heads;
  }

  lemma FchDone<F>(ops: Ops<F>, d: ActAddr, w: WeightAddr, s: Shape, T: nat, start: seq<F>, params: seq<F>,
                   layer: Layer<F>, mem: seq<F>)
    requires Laid(d, s, T, |start|) && WeightsAt(w, params, layer, s.C) && LayerOk(layer, s.C)
    requires GptMatmul.Fits(FchArgs(d, w, s, T), start, params)
        && GptMatmul.Result(ops, FchArgs(d, w, s, T), start, params, mem)
    ensures |mem| == |start| && FeedOnly(d, s, T, start, mem) && d.fch + T * (4 * s.C) <= |mem|
        && d.ln2 + T * s.C <= |mem|
    ensures RowsAt(mem, d.fch, T, 4 * s.C) ==
              MatRows(ops, RowsAt(start, d.ln2, T, s.C), layer.fcw, Bias(layer.fcb), s.C, 4 * s.C)
  {
    hide GptMatmul.Result, MatRows, RowsAt, Heads;
    MatmulRows(ops, FchArgs(d, w, s, T), start, params, mem);
    assert GptMatmul.BiasRow(FchArgs(d, w, s, T), params) == Bias(layer.fcb);
  }

  // ----- line 662 -----

  lemma GeluFits<F>(d: ActAddr, s: Shape, T: nat, mem: seq<F>)
    requires Laid(d, s, T, |mem|)
    ensures Inside(mem, d.fchGelu, T * (4 * s.C)) && Inside(mem, d.fch, T * (4 * s.C))
    ensures Apart(d.fchGelu, T * (4 * s.C), d.fch, T * (4 * s.C))
  {
    hide Heads;
  }

  lemma GeluDone<F>(ops: Ops<F>, d: ActAddr, s: Shape, T: nat, start: seq<F>, mem: seq<F>)
    requires Laid(d, s, T, |start|) && |mem| == |start| && SameOutside(start, mem, d.fchGelu, T * (4 * s.C))
    requires Inside(start, d.fchGelu, T * (4 * s.C)) && Inside(start, d.fch, T * (4 * s.C))
    requires Slice(mem, d.fchGelu, T * (4 * s.C)) == GeluRow(ops, Slice(start, d.fch, T * (4 * s.C)))
    ensures FeedOnly(d, s, T, start, mem)
    ensures RowsAt(mem, d.fchGelu, T, 4 * s.C) == GeluRows(ops, RowsAt(start, d.fch, T, 4 * s.C), 4 * s.C)
  {
    hide GeluRows, RowsAt, Heads, Slice, GeluRow;
    GeluFlat(ops, mem, start, d.fchGelu, d.fch, T, 4 * s.C);
  }

  // ----- line 663 -----

  function FcprojArgs(d: ActAddr, w: WeightAddr, s: Shape, T: nat): GptMatmul.Args {
    GptMatmul.Args(d.fcproj, d.fchGelu, w.fcprojw, true, w.fcprojb, T, 4 * s.C, s.C)
  }

  lemma FcprojFits<F>(d: ActAddr, w: WeightAddr, s: Shape, T: nat, mem: seq<F>, params: seq<F>, layer: Layer<F>)
    requires Laid(d, s, T, |mem|) && WeightsAt(w, params, layer, s.C)
    ensures GptMatmul.Fits(FcprojArgs(d, w, s, T), mem, params)
  {
    hide Heads;
  }

  lemma FcprojDone<F>(ops: Ops<F>, d: ActAddr, w: WeightAddr, s: Shape, T: nat, start: seq<F>, params: seq<F>,
                      layer: Layer<F>, mem: seq<F>)
    requires Laid(d, s, T, |start|) && WeightsAt(w, params, layer, s.C) && LayerOk(layer, s.C)
    requires GptMatmul.Fits(FcprojArgs(d, w, s, T), start, params)
        && GptMatmul.Result(ops, FcprojArgs(d, w, s, T), start, params, mem)
    ensures |mem| == |start| && FeedOnly(d, s, T, start, mem) && d.fcproj + T * s.C <= |mem|
        && d.fchGelu + T * (4 * s.C) <= |mem|
    ensures RowsAt(mem, d.fcproj, T, s.C) ==
              MatRows(ops, RowsAt(start, d.fchGelu, T, 4 * s.C), layer.fcprojw, Bias(layer.fcprojb), 4 * s.C, s.C)
  {
    hide GptMatmul.Result, MatRows, RowsAt, Heads;
    MatmulRows(ops, FcprojArgs(d, w, s, T), start, params, mem);
    assert GptMatmul.BiasRow(FcprojArgs(d, w, s, T), params) == Bias(layer.fcprojb);
  }

  // ----- line 664 -----

  lemma Res3Fits<F>(d: ActAddr, s: Shape, T: nat, mem: seq<F>)
    requires Laid(d, s, T, |mem|)
    ensures Inside(mem, d.residual3, T * s.C) && Inside(mem, d.residual2, T * s.C) && Inside(mem, d.fcproj, T * s.C)
    ensures Apart(d.residual3, T * s.C, d.residual2, T * s.C) && Apart(d.residual3, T * s.C, d.fcproj, T * s.C)
  {
    hide Heads;
  }

  lemma Res3Done<F>(ops: Ops<F>, d: ActAddr, s: Shape, T: nat, start: seq<F>, mem: seq<F>)
    requires Laid(d, s, T, |start|) && |mem| == |start| && SameOutside(start, mem, d.residual3, T * s.C)
    requires Inside(start, d.residual3, T * s.C) && Inside(start, d.residual2, T * s.C)
        && Inside(start, d.fcproj, T * s.C)
    requires Slice(mem, d.residual3, T * s.C) ==
               AddRow(ops, Slice(start, d.residual2, T * s.C), Slice(start, d.fcproj, T * s.C))
    ensures FeedOnly(d, s, T, start, mem)
    ensures RowsAt(mem, d.residual3, T, s.C) ==
              AddRows(ops, RowsAt(start, d.residual2, T, s.C), RowsAt(start, d.fcproj, T, s.C), s.C)
  {
    hide AddRows, RowsAt, Heads, Slice, AddRow;
    AddFlat(ops, mem, start, d.residual3, d.residual2, d.fcproj, T, s.C);
  }

  // ----- the calls -----

  /** Lines 655-659. */
  method AttendForward<F(!new)>(ops: Ops<F>, acts: array<F>, params: array<F>, d: ActAddr, w: WeightAddr, s: Shape,
      T: nat, ghost layer: Layer<F>)
    requires acts != params && ShapeOk(s) && Laid(d, s, T, acts.Length)
    requires LayerOk(layer, s.C) && WeightsAt(w, params[..], layer, s.C)
    requires d.residual + T * s.C <= acts.Length && d.residual2 + T * s.C <= acts.Length
    modifies acts
    ensures AttendOnly(d, s, T, old(acts[..]), acts[..])
    ensures RowsAt(acts[..], d.residual2, T, s.C) == Attended(ops, s, layer, old(RowsAt(acts[..], d.residual, T, s.C)))
  {
    hide ShapeOk, Laid, LayerOk, WeightsAt, AttendOnly, RowsAt, LnRows, MatRows, AttRows, AddRows, Block, Heads,
         Inside, GptLayerNorm.Fits, GptMatmul.Fits, GptAttention.Fits, GptLayerNorm.Result, GptMatmul.Result,
         GptAttention.Result, SameOutside;
    var p := params[..];
    ghost var m0 := acts[..];
    Ln1Fits(d, w, s, T, m0, p, layer);
    GptLayerNorm.Forward(ops, Ln1Args(d, w, s, T), acts, params);
    ghost var m1 := acts[..];
    Ln1Done(ops, d, w, s, T, m0, p, layer, m1);
    QkvFits(d, w, s, T, m1, p, layer);
    GptMatmul.Forward(ops, QkvArgs(d, w, s, T), acts, params);
    ghost var m2 := acts[..];
    QkvDone(ops, d, w, s, T, m1, p, layer, m2);
    AttendThen(d, s, T, m0, m1, m2);
    AttFits(d, s, T, m2);
    GptAttention.Forward(ops, AttArgs(d, s, T), acts);
    ghost var m3 := acts[..];
    AttDone(ops, d, s, T, m2, m3);
    AttendThen(d, s, T, m0, m2, m3);
    ProjFits(d, w, s, T, m3, p, layer);
    GptMatmul.Forward(ops, ProjArgs(d, w, s, T), acts, params);
    ghost var m4 := acts[..];
    ProjDone(ops, d, w, s, T, m3, p, layer, m4);
    AttendThen(d, s, T, m0, m3, m4);
    ResidualKept(d, s, T, m0, m4);
    Res2Fits(d, s, T, m4);
    ResidualForward(ops, acts, d.residual2, d.residual, d.attproj, T * s.C);
    Res2Done(ops, d, s, T, m4, acts[..]);
    AttendThen(d, s, T, m0, m4, acts[..]);
  }

  /** Lines 660-664. */
  method FeedForward<F(!new)>(ops: Ops<F>, acts: array<F>, params: array<F>, d: ActAddr, w: WeightAddr, s: Shape,
      T: nat, ghost layer: Layer<F>)
    requires acts != params && ShapeOk(s) && Laid(d, s, T, acts.Length)
    requires LayerOk(layer, s.C) && WeightsAt(w, params[..], layer, s.C)
    requires d.residual2 + T * s.C <= acts.Length && d.residual3 + T * s.C <= acts.Length
    modifies acts
    ensures FeedOnly(d, s, T, old(acts[..]), acts[..])
    ensures RowsAt(acts[..], d.residual3, T, s.C) ==
              FedForward(ops, s, layer, old(RowsAt(acts[..], d.residual2, T, s.C)))
  {
    hide ShapeOk, Laid, LayerOk, WeightsAt, FeedOnly, RowsAt, LnRows, MatRows, GeluRows, AddRows, Block, Heads,
         Inside, GptLayerNorm.Fits, GptMatmul.Fits, GptLayerNorm.Result, GptMatmul.Result, SameOutside;
    var p := params[..];
    ghost var m0 := acts[..];
    Ln2Fits(d, w, s, T, m0, p, layer);
    GptLayerNorm.Forward(ops, Ln2Args(d, w, s, T), acts, params);
    ghost var m1 := acts[..];
    Ln2Done(ops, d, w, s, T, m0, p, layer, m1);
    FchFits(d, w, s, T, m1, p, layer);
    GptMatmul.Forward(ops, FchArgs(d, w, s, T), acts, params);
    ghost var m2 := acts[..];
    FchDone(ops, d, w, s, T, m1, p, layer, m2);
    FeedThen(d, s, T, m0, m1, m2);
    GeluFits(d, s, T, m2);
    GeluForward(ops, acts, d.fchGelu, d.fch, T * (4 * s.C));
    ghost var m3 := acts[..];
    GeluDone(ops, d, s, T, m2, m3);
    FeedThen(d, s, T, m0, m2, m3);
    FcprojFits(d, w, s, T, m3, p, layer);
    GptMatmul.Forward(ops, FcprojArgs(d, w, s, T), acts, params);
    ghost var m4 := acts[..];
    FcprojDone(ops, d, w, s, T, m3, p, layer, m4);
    FeedThen(d, s, T, m0, m3, m4);
    Residual2Kept(d, s, T, m0, m4);
    Res3Fits(d, s, T, m4);
    ResidualForward(ops, acts, d.residual3, d.residual2, d.fcproj, T * s.C);
    Res3Done(ops, d, s, T, m4, acts[..]);
    FeedThen(d, s, T, m0, m4, acts[..]);
  }

  ghost predicate LayerOnly<F>(d: ActAddr, s: Shape, T: nat, start: seq<F>, mem: seq<F>) {
    && |mem| == |start|
    && forall addr :: 0 <= addr < |mem| && !InAttend(d, s, T, addr) && !InFeed(d, s, T, addr) ==>
         mem[addr] == start[addr]
  }

  lemma BothHalves<F>(d: ActAddr, s: Shape, T: nat, a: seq<F>, b: seq<F>, c: seq<F>)
    requires AttendOnly(d, s, T, a, b) && FeedOnly(d, s, T, b, c)
    ensures LayerOnly(d, s, T, a, c)
  {
    hide InAttend, InFeed;
  }

  /** The body of the loop over layers. */
  method LayerForward<F(!new)>(ops: Ops<F>, acts: array<F>, params: array<F>, d: ActAddr, w: WeightAddr, s: Shape,
      T: nat, ghost layer: Layer<F>)
    requires acts != params && ShapeOk(s) && Laid(d, s, T, acts.Length)
    requires LayerOk(layer, s.C) && WeightsAt(w, params[..], layer, s.C)
    requires d.residual + T * s.C <= acts.Length && d.residual3 + T * s.C <= acts.Length
    modifies acts
    ensures LayerOnly(d, s, T, old(acts[..]), acts[..])
    ensures RowsAt(acts[..], d.residual3, T, s.C) == LayerRows(ops, s, layer, old(RowsAt(acts[..], d.residual, T, s.C)))
  {
    hide ShapeOk, Laid, LayerOk, WeightsAt, AttendOnly, FeedOnly, RowsAt, Attended, FedForward, LayerOnly;
    ghost var m0 := acts[..];
    Residual2Inside(d, s, T, acts.Length);
    AttendForward(ops, acts, params, d, w, s, T, layer);
    ghost var m1 := acts[..];
    FeedForward(ops, acts, params, d, w, s, T, layer);
    BothHalves(d, s, T, m0, m1, acts[..]);
  }

  lemma Residual2Inside(d: ActAddr, s: Shape, T: nat, size: nat)
    requires Laid(d, s, T, size)
    ensures d.residual2 + T * s.C <= size
  {
    hide Heads;
  }
}
