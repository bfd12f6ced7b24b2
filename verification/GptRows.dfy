/**
 What one position of the transformer computes, layer by layer, as functions of rows of floats. The float
 operations are parameters, so every result is exact: same inputs, same operations, same order of rounding.
 */
module GptRows {

  /** The float operations and constants of gpt.c. */
  datatype Ops<!F> = Ops(
    zero: F, one: F, half: F, eps: F, lowest: F, cubeCoefficient: F, geluScale: F,
    add: (F, F) -> F, sub: (F, F) -> F, mul: (F, F) -> F, div: (F, F) -> F,
    greater: (F, F) -> bool, isZero: F -> bool,
    sqrt: F -> F, exp: F -> F, tanh: F -> F, ofInt: int -> F)

  type Row<F> = seq<F>

  // ----- layernorm -----

  function SumTo<F>(ops: Ops<F>, x: Row<F>, n: nat): F
    requires n <= |x|
  {
    if n == 0 then ops.zero else ops.add(SumTo(ops, x, n - 1), x[n - 1])
  }

  function Mean<F>(ops: Ops<F>, x: Row<F>): F {
    ops.div(SumTo(ops, x, |x|), ops.ofInt(|x|))
  }

  function SquaresTo<F>(ops: Ops<F>, x: Row<F>, m: F, n: nat): F
    requires n <= |x|
  {
    if n == 0 then ops.zero
    else
      var shift := ops.sub(x[n - 1], m);
      ops.add(SquaresTo(ops, x, m, n - 1), ops.mul(shift, shift))
  }

  function Rstd<F>(ops: Ops<F>, x: Row<F>): F {
    var v := ops.div(SquaresTo(ops, x, Mean(ops, x), |x|), ops.ofInt(|x|));
    ops.div(ops.one, ops.sqrt(ops.add(v, ops.eps)))
  }

  function LnElem<F>(ops: Ops<F>, x: Row<F>, weight: F, bias: F, i: nat): F
    requires i < |x|
  {
    var n := ops.mul(Rstd(ops, x), ops.sub(x[i], Mean(ops, x)));
    ops.add(ops.mul(n, weight), bias)
  }

  function LnRow<F>(ops: Ops<F>, x: Row<F>, weight: Row<F>, bias: Row<F>): (y: Row<F>)
    requires |weight| == |bias| == |x|
    ensures |y| == |x|
  {
    seq(|x|, i requires 0 <= i < |x| => LnElem(ops, x, weight[i], bias[i], i))
  }

  // ----- matmul -----

  function DotTo<F>(ops: Ops<F>, start: F, x: Row<F>, w: Row<F>, n: nat): F
    requires n <= |x| && n <= |w|
  {
    if n == 0 then start else ops.add(DotTo(ops, start, x, w, n - 1), ops.mul(x[n - 1], w[n - 1]))
  }

  function MatElem<F>(ops: Ops<F>, x: Row<F>, w: Row<F>, start: F): F
    requires |w| == |x|
  {
    DotTo(ops, start, x, w, |x|)
  }

  /** Row o of a matrix of rows of length n. */
  function WeightRow<F>(w: Row<F>, o: nat, n: nat): (r: Row<F>)
    requires (o + 1) * n <= |w|
    ensures |r| == n
  {
    assert o * n + n == (o + 1) * n;
    w[o * n..(o + 1) * n]
  }

  datatype Bias<F> = NoBias | Bias(row: Row<F>)

  function BiasAt<F>(ops: Ops<F>, b: Bias<F>, o: nat): F
    requires b.Bias? ==> o < |b.row|
  {
    if b.Bias? then b.row[o] else ops.zero
  }

  function MatRow<F>(ops: Ops<F>, x: Row<F>, w: Row<F>, b: Bias<F>, oc: nat): (y: Row<F>)
    requires |w| == oc * |x| && (b.Bias? ==> |b.row| == oc)
    ensures |y| == oc
  {
    seq(oc, o requires 0 <= o < oc =>
      RowInside(o, oc, |x|);
      MatElem(ops, x, WeightRow(w, o, |x|), BiasAt(ops, b, o)))
  }

  lemma RowInside(o: nat, oc: nat, n: nat)
    requires o < oc
    ensures (o + 1) * n <= oc * n
  {
  }

  // ----- attention of row t over rows 0..t, one head of width hs at column c -----

  /** The three parts of row t2 for one head. */
  function Part<F>(row: Row<F>, at: nat, hs: nat): (r: Row<F>)
    requires at + hs <= |row|
    ensures |r| == hs
  {
    row[at..at + hs]
  }

  /** A head: rows 0..t of queries, keys and values, and the columns at which its query, keys and values start. */
  datatype Head<F> = Head(rows: seq<Row<F>>, q: nat, k: nat, v: nat, hs: nat)

  ghost predicate HeadOk<F>(hd: Head<F>) {
    && hd.rows != []
    && forall i :: 0 <= i < |hd.rows| ==>
         hd.q + hd.hs <= |hd.rows[i]| && hd.k + hd.hs <= |hd.rows[i]| && hd.v + hd.hs <= |hd.rows[i]|
  }

  function Query<F>(hd: Head<F>): Row<F>
    requires HeadOk(hd)
  {
    Part(hd.rows[|hd.rows| - 1], hd.q, hd.hs)
  }

  function Score<F>(ops: Ops<F>, hd: Head<F>, t2: nat): F
    requires HeadOk(hd) && t2 < |hd.rows|
  {
    ops.mul(DotTo(ops, ops.zero, Query(hd), Part(hd.rows[t2], hd.k, hd.hs), hd.hs), Scale(ops, hd.hs))
  }

  function Scale<F>(ops: Ops<F>, hs: nat): F {
    ops.div(ops.one, ops.sqrt(ops.ofInt(hs)))
  }

  function MaxTo<F>(ops: Ops<F>, hd: Head<F>, n: nat): F
    requires HeadOk(hd) && n <= |hd.rows|
  {
    if n == 0 then ops.lowest
    else
      var m, s := MaxTo(ops, hd, n - 1), Score(ops, hd, n - 1);
      if ops.greater(s, m) then s else m
  }

  function Weight<F>(ops: Ops<F>, hd: Head<F>, t2: nat): F
    requires HeadOk(hd) && t2 < |hd.rows|
  {
    ops.exp(ops.sub(Score(ops, hd, t2), MaxTo(ops, hd, |hd.rows|)))
  }

  function WeightsTo<F>(ops: Ops<F>, hd: Head<F>, n: nat): F
    requires HeadOk(hd) && n <= |hd.rows|
  {
    if n == 0 then ops.zero else ops.add(WeightsTo(ops, hd, n - 1), Weight(ops, hd, n - 1))
  }

  function Inverse<F>(ops: Ops<F>, hd: Head<F>): F
    requires HeadOk(hd)
  {
    var sum := WeightsTo(ops, hd, |hd.rows|);
    if ops.isZero(sum) then ops.zero else ops.div(ops.one, sum)
  }

  /** The attention paid to row t2; rows after the last one get none. */
  function Att<F>(ops: Ops<F>, hd: Head<F>, t2: nat): F
    requires HeadOk(hd)
  {
    if t2 < |hd.rows| then ops.mul(Weight(ops, hd, t2), Inverse(ops, hd)) else ops.zero
  }

  function MixTo<F>(ops: Ops<F>, hd: Head<F>, i: nat, n: nat): F
    requires HeadOk(hd) && n <= |hd.rows| && i < hd.hs
  {
    if n == 0 then ops.zero
    else ops.add(MixTo(ops, hd, i, n - 1), ops.mul(Att(ops, hd, n - 1), Part(hd.rows[n - 1], hd.v, hd.hs)[i]))
  }

  /** Head number h of nh, for rows of width 3 * c. */
  function HeadOf<F>(rows: seq<Row<F>>, h: nat, hs: nat, c: nat): Head<F> {
    Head(rows, h * hs, h * hs + c, h * hs + c * 2, hs)
  }

  ghost predicate QkvRows<F>(rows: seq<Row<F>>, c: nat) {
    rows != [] && forall i :: 0 <= i < |rows| ==> |rows[i]| == 3 * c
  }

  lemma HeadFits<F>(rows: seq<Row<F>>, h: nat, nh: nat, hs: nat)
    requires h < nh && QkvRows(rows, nh * hs)
    ensures HeadOk(HeadOf(rows, h, hs, nh * hs)) && h * hs + hs <= nh * hs
  {
    assert h * hs + hs == (h + 1) * hs <= nh * hs;
  }

  /** The output of attention for the last of the rows: the heads side by side. */
  function AttRow<F>(ops: Ops<F>, rows: seq<Row<F>>, nh: nat, hs: nat): (y: Row<F>)
    requires QkvRows(rows, nh * hs) && hs > 0
    ensures |y| == nh * hs
  {
    seq(nh * hs, j requires 0 <= j < nh * hs =>
      HeadAndColumn(j, nh, hs);
      HeadFits(rows, j / hs, nh, hs);
      MixTo(ops, HeadOf(rows, j / hs, hs, nh * hs), j % hs, |rows|))
  }

  lemma HeadAndColumn(j: nat, nh: nat, hs: nat)
    requires hs > 0 && j < nh * hs
    ensures j / hs < nh && j % hs < hs
  {
    if j / hs >= nh {
      TimesGrows(nh, j / hs, hs);
    }
  }

  lemma TimesGrows(a: nat, b: nat, n: nat)
    requires a <= b
    ensures a * n <= b * n
  {
  }

  // ----- elementwise -----

  function AddRow<F>(ops: Ops<F>, x: Row<F>, y: Row<F>): (z: Row<F>)
    requires |x| == |y|
    ensures |z| == |x|
  {
    seq(|x|, i requires 0 <= i < |x| => ops.add(x[i], y[i]))
  }

  function Gelu<F>(ops: Ops<F>, x: F): F {
    var cube := ops.mul(ops.mul(ops.mul(ops.cubeCoefficient, x), x), x);
    ops.mul(ops.mul(ops.half, x), ops.add(ops.one, ops.tanh(ops.mul(ops.geluScale, ops.add(x, cube)))))
  }

  function GeluRow<F>(ops: Ops<F>, x: Row<F>): (y: Row<F>)
    ensures |y| == |x|
  {
    seq(|x|, i requires 0 <= i < |x| => Gelu(ops, x[i]))
  }

  // ----- softmax -----

  function RowMaxTo<F>(ops: Ops<F>, x: Row<F>, n: nat): F
    requires n <= |x|
  {
    if n == 0 then ops.lowest
    else
      var m := RowMaxTo(ops, x, n - 1);
      if ops.greater(x[n - 1], m) then x[n - 1] else m
  }

  function ExpAt<F>(ops: Ops<F>, x: Row<F>, i: nat): F
    requires i < |x|
  {
    ops.exp(ops.sub(x[i], RowMaxTo(ops, x, |x|)))
  }

  function ExpsTo<F>(ops: Ops<F>, x: Row<F>, n: nat): F
    requires n <= |x|
  {
    if n == 0 then ops.zero else ops.add(ExpsTo(ops, x, n - 1), ExpAt(ops, x, n - 1))
  }

  function SoftmaxRow<F>(ops: Ops<F>, x: Row<F>): (y: Row<F>)
    ensures |y| == |x|
  {
    seq(|x|, i requires 0 <= i < |x| => ops.div(ExpAt(ops, x, i), ExpsTo(ops, x, |x|)))
  }
}
