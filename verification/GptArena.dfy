/**
 The two float arenas: the tensors lie one after another in the order of the two pointer tables, and a layer's part
 of a tensor is the l-th of L equal slices. The batch size is 1 throughout.
 */
module GptArena {
  import opened GptIndex
  import opened GptNetwork
  import opened GptKernels
  import opened GptLayer

  function SumOf(sizes: seq<nat>, k: nat): nat
    requires k <= |sizes|
  {
    if k == 0 then 0 else SumOf(sizes, k - 1) + sizes[k - 1]
  }

  /** Each tensor starts where the one before it ends, and the last one ends where the arena does. */
  ghost predicate Pointed(ptrs: seq<nat>, sizes: seq<nat>, total: nat) {
    && |ptrs| == |sizes| && total == SumOf(sizes, |sizes|)
    && forall k :: 0 <= k < |sizes| ==> ptrs[k] == SumOf(sizes, k)
  }

  /**
   malloc_and_point_parameters and malloc_and_point_activations, with addresses counted from the start of the
   arena.
   */
  method MallocAndPoint(sizes: seq<nat>) returns (ptrs: seq<nat>, total: nat)
    ensures Pointed(ptrs, sizes, total)
  {
    total := 0;
    var i := 0;
    while i < |sizes|
      invariant i <= |sizes| && total == SumOf(sizes, i)
    {
      total := total + sizes[i];
      i := i + 1;
    }
    var next := 0;
    ptrs := [];
    i := 0;
    while i < |sizes|
      invariant i <= |sizes| && |ptrs| == i && next == SumOf(sizes, i)
      invariant forall k :: 0 <= k < i ==> ptrs[k] == SumOf(sizes, k)
    {
      ptrs := ptrs + [next];
      next := next + sizes[i];
      i := i + 1;
    }
  }

  lemma {:induction false} SumGrows(sizes: seq<nat>, j: nat, k: nat)
    requires j <= k <= |sizes|
    ensures SumOf(sizes, j) <= SumOf(sizes, k)
  {
    if j < k {
      SumGrows(sizes, j, k - 1);
    }
  }

  /** Different tensors do not overlap, and every tensor is inside the arena. */
  lemma TensorsApart(ptrs: seq<nat>, sizes: seq<nat>, total: nat, j: nat, k: nat)
    requires Pointed(ptrs, sizes, total) && j < k < |sizes|
    ensures ptrs[j] + sizes[j] <= ptrs[k] && ptrs[k] + sizes[k] <= total
  {
    SumGrows(sizes, j + 1, k);
    SumGrows(sizes, k + 1, |sizes|);
  }

  /** The arena has a tensor at every address. */
  lemma {:induction false} TensorAt(ptrs: seq<nat>, sizes: seq<nat>, total: nat, addr: nat, n: nat) returns (k: nat)
    requires Pointed(ptrs, sizes, total) && n <= |sizes| && addr < SumOf(sizes, n)
    ensures k < n && ptrs[k] <= addr < ptrs[k] + sizes[k]
  {
    if addr < SumOf(sizes, n - 1) {
      k := TensorAt(ptrs, sizes, total, addr, n - 1);
    } else {
      k := n - 1;
    }
  }

  /** The l-th of L slices of length n lies inside the tensor. */
  lemma SliceInside(l: nat, L: nat, n: nat)
    requires l < L
    ensures Times(l, n) + n <= Times(L, n)
  {
    RowEnd(l, L, n);
  }

  /** Different slices of one tensor do not overlap. */
  lemma SlicesApart(k: nat, l: nat, n: nat)
    requires k < l
    ensures Times(k, n) + n <= Times(l, n)
  {
    RowEnd(k, l, n);
  }

  // ----- activations -----

  /** Lines 569-591, each product regrouped. */
  function ActSizes(s: Shape, L: nat, T: nat): (sizes: seq<nat>)
    ensures |sizes| == 23
  {
    var row, row3, row4, heads := Block(T, s.C), Block(T, 3 * s.C), Block(T, 4 * s.C), Heads(s, T);
    var rows, ones := Times(L, row), Times(L, T);
    [row, rows, ones, ones, Times(L, row3), rows, Times(L, heads), Times(L, heads), rows, rows, rows, ones, ones,
     Times(L, row4), Times(L, row4), rows, rows, row, T, T, Block(T, s.V), Block(T, s.V), T]
  }

  /** Lines 620 and 637-652. */
  function ActAddrOf(ptrs: seq<nat>, s: Shape, T: nat, l: nat): ActAddr
    requires |ptrs| == 23
  {
    var row, row3, row4, heads := Block(T, s.C), Block(T, 3 * s.C), Block(T, 4 * s.C), Heads(s, T);
    var skip, ones := Times(l, row), Times(l, T);
    ActAddr(
      if l == 0 then ptrs[0] else ptrs[16] + Times(l - 1, row),
      ptrs[1] + skip, ptrs[2] + ones, ptrs[3] + ones, ptrs[4] + Times(l, row3), ptrs[5] + skip,
      ptrs[6] + Times(l, heads), ptrs[7] + Times(l, heads), ptrs[8] + skip, ptrs[9] + skip, ptrs[10] + skip,
      ptrs[11] + ones, ptrs[12] + ones, ptrs[13] + Times(l, row4), ptrs[14] + Times(l, row4),
      ptrs[15] + skip, ptrs[16] + skip)
  }

  ghost predicate ActsPointed(ptrs: seq<nat>, s: Shape, L: nat, T: nat, total: nat) {
    Pointed(ptrs, ActSizes(s, L, T), total)
  }

  lemma NextTensor(ptrs: seq<nat>, sizes: seq<nat>, total: nat, k: nat)
    requires Pointed(ptrs, sizes, total) && k + 1 < |sizes|
    ensures ptrs[k] + sizes[k] == ptrs[k + 1]
  {
  }

  /** The layered tensors, one after another. */
  lemma LayeredChain(ptrs: seq<nat>, s: Shape, L: nat, T: nat, total: nat)
    requires ActsPointed(ptrs, s, L, T, total)
    ensures |ptrs| == 23
    ensures ptrs[0] + Block(T, s.C) == ptrs[1] && ptrs[1] + Times(L, Block(T, s.C)) == ptrs[2]
        && ptrs[2] + Times(L, T) == ptrs[3]
    ensures ptrs[3] + Times(L, T) == ptrs[4] && ptrs[4] + Times(L, Block(T, 3 * s.C)) == ptrs[5]
        && ptrs[5] + Times(L, Block(T, s.C)) == ptrs[6]
    ensures ptrs[6] + Times(L, Heads(s, T)) == ptrs[7] && ptrs[7] + Times(L, Heads(s, T)) == ptrs[8]
    ensures ptrs[8] + Times(L, Block(T, s.C)) == ptrs[9] && ptrs[9] + Times(L, Block(T, s.C)) == ptrs[10]
    ensures ptrs[10] + Times(L, Block(T, s.C)) == ptrs[11] && ptrs[11] + Times(L, T) == ptrs[12]
        && ptrs[12] + Times(L, T) == ptrs[13]
    ensures ptrs[13] + Times(L, Block(T, 4 * s.C)) == ptrs[14] && ptrs[14] + Times(L, Block(T, 4 * s.C)) == ptrs[15]
    ensures ptrs[15] + Times(L, Block(T, s.C)) == ptrs[16] && ptrs[16] + Times(L, Block(T, s.C)) == ptrs[17]
    ensures ptrs[17] + Block(T, s.C) == ptrs[18] && ptrs[18] + T == ptrs[19] && ptrs[19] + T == ptrs[20]
    ensures ptrs[20] + Block(T, s.V) == ptrs[21] && ptrs[21] + Block(T, s.V) == ptrs[22] && ptrs[22] + T == total
  {
    hide Block, Heads, Pointed, SumOf, Times;
    var sizes := ActSizes(s, L, T);
    PointedLast(ptrs, sizes, total);
    forall k: nat | k + 1 < |sizes| ensures ptrs[k] + sizes[k] == After(ptrs, k) {
      NextTensor(ptrs, sizes, total, k);
    }
    assert forall k {:trigger ptrs[k]} :: 0 <= k < 22 ==> ptrs[k] + sizes[k] == After(ptrs, k);
  }

  function After(ptrs: seq<nat>, k: nat): nat
    requires k + 1 < |ptrs|
  {
    ptrs[k + 1]
  }

  lemma PointedLast(ptrs: seq<nat>, sizes: seq<nat>, total: nat)
    requires Pointed(ptrs, sizes, total) && |sizes| > 0
    ensures |ptrs| == |sizes| && ptrs[|sizes| - 1] + sizes[|sizes| - 1] == total
  {
  }

  /** Layer l's activations are laid out as the layer needs them. */
  lemma LayerLaid(ptrs: seq<nat>, s: Shape, L: nat, T: nat, total: nat, l: nat)
    requires ActsPointed(ptrs, s, L, T, total) && l < L
    ensures |ptrs| == 23 && Laid(ActAddrOf(ptrs, s, T, l), s, T, total)
  {
    hide ActsPointed, Block, Heads, Times;
    LayeredChain(ptrs, s, L, T, total);
    SliceInside(l, L, Block(T, s.C));
    SliceInside(l, L, Block(T, 3 * s.C));
    SliceInside(l, L, Block(T, 4 * s.C));
    SliceInside(l, L, Heads(s, T));
    SliceInside(l, L, T);
    if l > 0 {
      SlicesApart(l - 1, l, Block(T, s.C));
    }
  }

  // ----- parameters -----

  /** Lines 515-530, each product regrouped. */
  function ParamSizes(s: Shape, L: nat): (sizes: seq<nat>)
    ensures |sizes| == 16
  {
    var c := Times(L, s.C);
    [Block(s.V, s.C), Block(s.maxT, s.C), c, c, Times(L, Block(3 * s.C, s.C)), Times(L, 3 * s.C),
     Times(L, Block(s.C, s.C)), c,
     c, c, Times(L, Block(4 * s.C, s.C)), Times(L, 4 * s.C), Times(L, Block(s.C, 4 * s.C)), c, s.C, s.C]
  }

  /** Lines 623-634. */
  function WeightAddrOf(ptrs: seq<nat>, s: Shape, l: nat): WeightAddr
    requires |ptrs| == 16
  {
    var c := Times(l, s.C);
    WeightAddr(
      ptrs[2] + c, ptrs[3] + c, ptrs[4] + Times(l, Block(3 * s.C, s.C)), ptrs[5] + Times(l, 3 * s.C),
      ptrs[6] + Times(l, Block(s.C, s.C)), ptrs[7] + c, ptrs[8] + c, ptrs[9] + c,
      ptrs[10] + Times(l, Block(4 * s.C, s.C)),
      ptrs[11] + Times(l, 4 * s.C), ptrs[12] + Times(l, Block(s.C, 4 * s.C)), ptrs[13] + c)
  }

  ghost predicate ParamsPointed(ptrs: seq<nat>, s: Shape, L: nat, total: nat) {
    Pointed(ptrs, ParamSizes(s, L), total)
  }

  lemma ParamsChain(ptrs: seq<nat>, s: Shape, L: nat, total: nat)
    requires ParamsPointed(ptrs, s, L, total)
    ensures |ptrs| == 16
    ensures ptrs[0] + Block(s.V, s.C) == ptrs[1] && ptrs[1] + Block(s.maxT, s.C) == ptrs[2]
        && ptrs[2] + Times(L, s.C) == ptrs[3]
    ensures ptrs[3] + Times(L, s.C) == ptrs[4] && ptrs[4] + Times(L, Block(3 * s.C, s.C)) == ptrs[5]
    ensures ptrs[5] + Times(L, 3 * s.C) == ptrs[6] && ptrs[6] + Times(L, Block(s.C, s.C)) == ptrs[7]
    ensures ptrs[7] + Times(L, s.C) == ptrs[8] && ptrs[8] + Times(L, s.C) == ptrs[9]
        && ptrs[9] + Times(L, s.C) == ptrs[10]
    ensures ptrs[10] + Times(L, Block(4 * s.C, s.C)) == ptrs[11] && ptrs[11] + Times(L, 4 * s.C) == ptrs[12]
    ensures ptrs[12] + Times(L, Block(s.C, 4 * s.C)) == ptrs[13] && ptrs[13] + Times(L, s.C) == ptrs[14]
    ensures ptrs[14] + s.C == ptrs[15] && ptrs[15] + s.C == total
  {
    hide Block, Pointed, SumOf, Times;
    var sizes := ParamSizes(s, L);
    PointedLast(ptrs, sizes, total);
    forall k: nat | k + 1 < |sizes| ensures ptrs[k] + sizes[k] == After(ptrs, k) {
      NextTensor(ptrs, sizes, total, k);
    }
    assert forall k {:trigger ptrs[k]} :: 0 <= k < 15 ==> ptrs[k] + sizes[k] == After(ptrs, k);
  }

  /** Every weight of layer l is inside the arena. */
  ghost predicate WeightsFit(w: WeightAddr, C: nat, total: nat) {
    && w.ln1w + C <= total && w.ln1b + C <= total && w.qkvw + Block(3 * C, C) <= total && w.qkvb + 3 * C <= total
    && w.attprojw + Block(C, C) <= total && w.attprojb + C <= total && w.ln2w + C <= total && w.ln2b + C <= total
    && w.fcw + Block(4 * C, C) <= total && w.fcb + 4 * C <= total && w.fcprojw + Block(C, 4 * C) <= total
    && w.fcprojb + C <= total
  }

  lemma LayerWeightsFit(ptrs: seq<nat>, s: Shape, L: nat, total: nat, l: nat)
    requires ParamsPointed(ptrs, s, L, total) && l < L
    ensures |ptrs| == 16 && WeightsFit(WeightAddrOf(ptrs, s, l), s.C, total)
  {
    hide ParamsPointed, Block, Times;
    ParamsChain(ptrs, s, L, total);
    SliceInside(l, L, s.C);
    SliceInside(l, L, 3 * s.C);
    SliceInside(l, L, 4 * s.C);
    SliceInside(l, L, Block(3 * s.C, s.C));
    SliceInside(l, L, Block(s.C, s.C));
    SliceInside(l, L, Block(4 * s.C, s.C));
    SliceInside(l, L, Block(s.C, 4 * s.C));
  }

  function LayerAt<F>(params: seq<F>, w: WeightAddr, C: nat): (layer: Layer<F>)
    requires WeightsFit(w, C, |params|)
    ensures LayerOk(layer, C) && WeightsAt(w, params, layer, C)
  {
    Layer(
      Slice(params, w.ln1w, C), Slice(params, w.ln1b, C), Slice(params, w.qkvw, (3 * C) * C),
      Slice(params, w.qkvb, 3 * C),
      Slice(params, w.attprojw, C * C), Slice(params, w.attprojb, C), Slice(params, w.ln2w, C),
      Slice(params, w.ln2b, C),
      Slice(params, w.fcw, (4 * C) * C), Slice(params, w.fcb, 4 * C), Slice(params, w.fcprojw, C * (4 * C)),
      Slice(params, w.fcprojb, C))
  }

  /** The network that the parameter arena holds. */
  function NetAt<F>(params: seq<F>, ptrs: seq<nat>, s: Shape, L: nat): (net: Net<F>)
    requires ShapeOk(s) && ParamsPointed(ptrs, s, L, |params|)
    ensures NetOk(net) && net.shape == s && |net.layers| == L
  {
    ParamsChain(ptrs, s, L, |params|);
    Net(s, Slice(params, ptrs[0], s.V * s.C), Slice(params, ptrs[1], s.maxT * s.C),
        seq(L, l requires 0 <= l < L =>
          LayerWeightsFit(ptrs, s, L, |params|, l);
          LayerAt(params, WeightAddrOf(ptrs, s, l), s.C)),
        Slice(params, ptrs[14], s.C), Slice(params, ptrs[15], s.C))
  }
}
