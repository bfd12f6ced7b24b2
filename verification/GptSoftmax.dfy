/** Softmax over exact reals: with any positive exponential a row is a distribution, and sampling never falls back. */
module GptSoftmax {
  import opened GptRows
  import opened GptNetwork
  import opened GptLoops
  import opened GptGenerate
  import GptAttention

  /** The operations are those of the reals, and exp is any function with positive values. */
  ghost predicate Exact(ops: Ops<real>) {
    && ops.zero == 0.0 && ops.one == 1.0 && ops.half == 0.5
    && (forall x, y :: ops.add(x, y) == x + y) && (forall x, y :: ops.mul(x, y) == x * y)
    && (forall x, y :: y != 0.0 ==> ops.div(x, y) == x / y)
    && (forall x, y :: ops.greater(x, y) <==> x > y) && (forall x :: ops.isZero(x) <==> x == 0.0)
    && forall x :: ops.exp(x) > 0.0
  }

  // ----- softmax rows -----

  lemma ExpsStep(ops: Ops<real>, x: Row<real>, n: nat)
    requires Exact(ops) && n < |x|
    ensures ExpAt(ops, x, n) > 0.0 && ExpsTo(ops, x, n + 1) == ExpsTo(ops, x, n) + ExpAt(ops, x, n)
  {
    var d: real := ops.sub(x[n], RowMaxTo(ops, x, |x|));
    assert ops.exp(d) > 0.0;
    var a: real, b: real := ExpsTo(ops, x, n), ExpAt(ops, x, n);
    assert ops.add(a, b) == a + b;
  }

  lemma NoExps(ops: Ops<real>, x: Row<real>)
    requires Exact(ops)
    ensures ExpsTo(ops, x, 0) == 0.0
  {
  }

  lemma SoftmaxEntry(ops: Ops<real>, x: Row<real>, i: nat)
    requires Exact(ops) && i < |x| && ExpsTo(ops, x, |x|) != 0.0
    ensures SoftmaxRow(ops, x)[i] == ExpAt(ops, x, i) / ExpsTo(ops, x, |x|)
  {
    var a: real, b: real := ExpAt(ops, x, i), ExpsTo(ops, x, |x|);
    assert ops.div(a, b) == a / b;
  }

  lemma CdfStart(ops: Ops<real>, p: Row<real>)
    requires Exact(ops)
    ensures CdfTo(ops, p, 0) == 0.0
  {
  }

  lemma CdfStep(ops: Ops<real>, p: Row<real>, n: nat)
    requires Exact(ops) && n < |p|
    ensures CdfTo(ops, p, n + 1) == CdfTo(ops, p, n) + p[n]
  {
    var a: real, b: real := CdfTo(ops, p, n), p[n];
    assert ops.add(a, b) == a + b;
  }

  lemma {:induction false} ExpsPositive(ops: Ops<real>, x: Row<real>, n: nat)
    requires Exact(ops) && n <= |x|
    ensures ExpsTo(ops, x, n) >= 0.0 && (n > 0 ==> ExpsTo(ops, x, n) > 0.0)
  {
    if n > 0 {
      ExpsPositive(ops, x, n - 1);
      ExpsStep(ops, x, n - 1);
    }
  }

  lemma Quotient(a: real, b: real, c: real)
    requires c > 0.0
    ensures a / c + b / c == (a + b) / c && (b > 0.0 ==> b / c > 0.0) && c / c == 1.0
  {
  }

  /** The running sum of a softmax row is the running sum of the exponentials, divided by their total. */
  lemma {:induction false} SoftmaxCdf(ops: Ops<real>, x: Row<real>, n: nat)
    requires Exact(ops) && n <= |x| && x != []
    ensures ExpsTo(ops, x, |x|) > 0.0
    ensures CdfTo(ops, SoftmaxRow(ops, x), n) == ExpsTo(ops, x, n) / ExpsTo(ops, x, |x|)
  {
    hide SoftmaxRow, ExpAt, ExpsTo, CdfTo, Exact;
    CdfStart(ops, SoftmaxRow(ops, x));
    ExpsPositive(ops, x, |x|);
    assert n == 0 ==> ExpsTo(ops, x, n) == 0.0 by {
      NoExps(ops, x);
    }
    if n > 0 {
      SoftmaxCdf(ops, x, n - 1);
      ExpsStep(ops, x, n - 1);
      CdfStep(ops, SoftmaxRow(ops, x), n - 1);
      SoftmaxEntry(ops, x, n - 1);
      Quotient(ExpsTo(ops, x, n - 1), ExpAt(ops, x, n - 1), ExpsTo(ops, x, |x|));
    }
  }

  /** Every entry of a softmax row is positive, and together they make 1. */
  lemma SoftmaxIsDistribution(ops: Ops<real>, x: Row<real>)
    requires Exact(ops) && x != []
    ensures forall i :: 0 <= i < |x| ==> SoftmaxRow(ops, x)[i] > 0.0
    ensures CdfTo(ops, SoftmaxRow(ops, x), |x|) == 1.0
  {
    hide Exact, SoftmaxRow, CdfTo, ExpAt, ExpsTo;
    SoftmaxCdf(ops, x, |x|);
    var total := ExpsTo(ops, x, |x|);
    Quotient(0.0, 0.0, total);
    forall i | 0 <= i < |x| ensures SoftmaxRow(ops, x)[i] > 0.0 {
      ExpsStep(ops, x, i);
      SoftmaxEntry(ops, x, i);
      Quotient(0.0, ExpAt(ops, x, i), total);
    }
  }

  // ----- attention rows -----

  lemma WeightsStep(ops: Ops<real>, hd: Head<real>, n: nat)
    requires Exact(ops) && HeadOk(hd) && n < |hd.rows|
    ensures Weight(ops, hd, n) > 0.0 && WeightsTo(ops, hd, n + 1) == WeightsTo(ops, hd, n) + Weight(ops, hd, n)
  {
    hide HeadOk, Score, MaxTo;
    var d: real := ops.sub(Score(ops, hd, n), MaxTo(ops, hd, |hd.rows|));
    assert ops.exp(d) > 0.0;
    var a: real, b: real := WeightsTo(ops, hd, n), Weight(ops, hd, n);
    assert ops.add(a, b) == a + b;
  }

  lemma AttEntry(ops: Ops<real>, hd: Head<real>, t2: nat)
    requires Exact(ops) && HeadOk(hd)
    ensures Att(ops, hd, t2) == if t2 < |hd.rows| then Weight(ops, hd, t2) * Inverse(ops, hd) else 0.0
  {
    hide HeadOk, Weight, Inverse;
    if t2 < |hd.rows| {
      var a: real, b: real := Weight(ops, hd, t2), Inverse(ops, hd);
      assert ops.mul(a, b) == a * b;
    }
  }

  lemma InverseIs(ops: Ops<real>, hd: Head<real>)
    requires Exact(ops) && HeadOk(hd) && WeightsTo(ops, hd, |hd.rows|) > 0.0
    ensures !ops.isZero(WeightsTo(ops, hd, |hd.rows|)) && Inverse(ops, hd) == 1.0 / WeightsTo(ops, hd, |hd.rows|)
  {
    hide HeadOk, WeightsTo;
    var total: real := WeightsTo(ops, hd, |hd.rows|);
    assert ops.isZero(total) <==> total == 0.0;
    assert ops.div(1.0, total) == 1.0 / total;
  }

  lemma {:induction false} WeightsPositive(ops: Ops<real>, hd: Head<real>, n: nat)
    requires Exact(ops) && HeadOk(hd) && n <= |hd.rows|
    ensures WeightsTo(ops, hd, n) >= 0.0 && (n > 0 ==> WeightsTo(ops, hd, n) > 0.0)
  {
    hide HeadOk, Weight;
    if n > 0 {
      WeightsPositive(ops, hd, n - 1);
      WeightsStep(ops, hd, n - 1);
    }
  }

  /** The sum of the first n entries of a row of attention. */
  function AttSum(ops: Ops<real>, hd: Head<real>, n: nat): real
    requires HeadOk(hd)
  {
    if n == 0 then 0.0 else AttSum(ops, hd, n - 1) + Att(ops, hd, n - 1)
  }

  lemma NoWeights(ops: Ops<real>, hd: Head<real>)
    requires Exact(ops) && HeadOk(hd)
    ensures WeightsTo(ops, hd, 0) == 0.0
  {
  }

  lemma Scaled(a: real, b: real, r: real)
    ensures a * r + b * r == (a + b) * r
  {
  }

  lemma Reciprocal(a: real)
    requires a > 0.0
    ensures a * (1.0 / a) == 1.0 && 1.0 / a > 0.0
  {
  }

  lemma {:induction false} AttCdf(ops: Ops<real>, hd: Head<real>, n: nat)
    requires Exact(ops) && HeadOk(hd)
    ensures AttSum(ops, hd, n) ==
              WeightsTo(ops, hd, if n <= |hd.rows| then n else |hd.rows|) * Inverse(ops, hd)
  {
    hide Exact, HeadOk, Weight, Inverse, Att, WeightsTo;
    if n == 0 {
      NoWeights(ops, hd);
    } else {
      AttCdf(ops, hd, n - 1);
      AttEntry(ops, hd, n - 1);
      if n <= |hd.rows| {
        WeightsStep(ops, hd, n - 1);
        Scaled(WeightsTo(ops, hd, n - 1), Weight(ops, hd, n - 1), Inverse(ops, hd));
      }
    }
  }

  /**
   The attention of row t over all T columns: positive up to the row itself, zero beyond, and 1 in all. The guard
   against a zero sum is never taken.
   */
  lemma AttentionIsDistribution(ops: Ops<real>, hd: Head<real>, T: nat)
    requires Exact(ops) && HeadOk(hd) && |hd.rows| <= T
    ensures !ops.isZero(WeightsTo(ops, hd, |hd.rows|))
    ensures forall t2: nat :: t2 < T ==> if t2 < |hd.rows| then Att(ops, hd, t2) > 0.0 else Att(ops, hd, t2) == 0.0
    ensures AttSum(ops, hd, T) == 1.0
  {
    hide Exact, HeadOk, Weight, WeightsTo, Inverse, Att, AttSum;
    var total := WeightsTo(ops, hd, |hd.rows|);
    HeadHasRows(hd);
    WeightsPositive(ops, hd, |hd.rows|);
    InverseIs(ops, hd);
    Reciprocal(total);
    AttCdf(ops, hd, T);
    forall t2: nat | t2 < T ensures if t2 < |hd.rows| then Att(ops, hd, t2) > 0.0 else Att(ops, hd, t2) == 0.0 {
      AttEntry(ops, hd, t2);
      if t2 < |hd.rows| {
        WeightsStep(ops, hd, t2);
        PositiveProduct(Weight(ops, hd, t2), Inverse(ops, hd));
      }
    }
  }

  lemma HeadHasRows(hd: Head<real>)
    requires HeadOk(hd)
    ensures |hd.rows| > 0
  {
  }

  lemma PositiveProduct(a: real, b: real)
    requires a > 0.0 && b > 0.0
    ensures a * b > 0.0
  {
  }

  /** The sum of the first n cells of the weights stored for head h of position t. */
  function StoredSum(a: GptAttention.Args, mem: seq<real>, t: nat, h: nat, n: nat): real
    requires GptAttention.Fits(a, mem) && t < a.T && h < a.NH && n <= a.T
  {
    if n == 0 then 0.0 else StoredSum(a, mem, t, h, n - 1) + GptAttention.AttV(a, mem, t, h, n - 1)
  }

  lemma {:induction false} StoredSumIs(ops: Ops<real>, a: GptAttention.Args, hd: Head<real>, mem: seq<real>,
                                       t: nat, h: nat, n: nat)
    requires GptAttention.Fits(a, mem) && t < a.T && h < a.NH && n <= a.T && HeadOk(hd)
    requires forall k: nat :: k < a.T ==> GptAttention.AttV(a, mem, t, h, k) == Att(ops, hd, k)
    ensures StoredSum(a, mem, t, h, n) == AttSum(ops, hd, n)
  {
    hide GptAttention.Fits, GptAttention.AttV, Att, HeadOk;
    if n > 0 {
      StoredSumIs(ops, a, hd, mem, t, h, n - 1);
    }
  }

  lemma StoredCell(ops: Ops<real>, a: GptAttention.Args, start: seq<real>, mem: seq<real>, t: nat, h: nat, k: nat)
    requires GptAttention.Fits(a, start) && GptAttention.Result(ops, a, start, mem) && t < a.T && h < a.NH && k < a.T
    ensures GptAttention.Fits(a, mem)
    ensures GptAttention.AttV(a, mem, t, h, k) == Att(ops, GptAttention.HeadAt(a, start, t, h), k)
  {
    hide GptAttention.Fits, GptAttention.Result, GptAttention.AttV, GptAttention.HeadAt, Att, GptAttention.PreTo,
         GptAttention.OutTo;
    GptAttention.ResultHead(ops, a, start, mem, t, h);
  }

  /**
   The row of weights that attention_forward stored for head h of position t: positive up to the position itself, zero
   in the columns beyond, and the T cells sum to 1.
   */
  lemma StoredAttention(ops: Ops<real>, a: GptAttention.Args, start: seq<real>, mem: seq<real>, t: nat, h: nat)
    requires Exact(ops) && GptAttention.Fits(a, start) && GptAttention.Result(ops, a, start, mem)
    requires t < a.T && h < a.NH
    ensures GptAttention.Fits(a, mem)
    ensures forall k: nat :: k < a.T ==>
              if k <= t then GptAttention.AttV(a, mem, t, h, k) > 0.0 else GptAttention.AttV(a, mem, t, h, k) == 0.0
    ensures StoredSum(a, mem, t, h, a.T) == 1.0
  {
    hide Exact, GptAttention.Fits, GptAttention.Result, GptAttention.AttV, GptAttention.HeadAt, Att, AttSum, StoredSum;
    var hd := GptAttention.HeadAt(a, start, t, h);
    AttentionIsDistribution(ops, hd, a.T);
    StoredCell(ops, a, start, mem, t, h, t);
    forall k: nat | k < a.T ensures GptAttention.AttV(a, mem, t, h, k) == Att(ops, hd, k) {
      StoredCell(ops, a, start, mem, t, h, k);
    }
    StoredSumIs(ops, a, hd, mem, t, h, a.T);
  }

  // ----- sampling -----

  /** The running sum of lines 691-693 after entry i. */
  function Cumulative(ops: Ops<real>, p: Row<real>, i: nat): real
    requires i < |p|
  {
    CdfTo(ops, p, i + 1)
  }

  lemma PassesIs(ops: Ops<real>, p: Row<real>, i: nat)
    requires Exact(ops) && i < |p|
    ensures Passes(ops, p, i) <==> Cumulative(ops, p, i) > 0.5
  {
    hide CdfTo;
    var c: real := CdfTo(ops, p, i + 1);
    assert ops.greater(c, 0.5) <==> c > 0.5;
  }

  /** The token sampled from a softmax row is the least whose running sum passes one half: the fallback is not used. */
  lemma SampleIsMedian(ops: Ops<real>, x: Row<real>, r: int)
    requires Exact(ops) && x != []
    ensures Chosen(ops, SoftmaxRow(ops, x), r) <==>
              && 0 <= r < |x| && Cumulative(ops, SoftmaxRow(ops, x), r) > 0.5
              && forall i :: 0 <= i < r ==> Cumulative(ops, SoftmaxRow(ops, x), i) <= 0.5
  {
    hide SoftmaxRow, Passes, Exact;
    SoftmaxIsDistribution(ops, x);
    var p := SoftmaxRow(ops, x);
    forall i: nat | i < |p| ensures Passes(ops, p, i) <==> Cumulative(ops, p, i) > 0.5 {
      PassesIs(ops, p, i);
    }
    assert Cumulative(ops, p, |p| - 1) == 1.0;
  }

  /** So it is for every token a run generates. */
  lemma GeneratedMedian(ops: Ops<real>, net: Net<real>, prompt: seq<nat>, toks: seq<nat>, t: nat)
    requires Exact(ops) && Generated(ops, net, prompt, toks) && |prompt| <= t < |toks|
    ensures TokensOk(net, toks[..t])
    ensures var p := Probs(ops, net, toks[..t])[t - 1];
            && toks[t] < |p| && CdfTo(ops, p, |p|) == 1.0 && Cumulative(ops, p, toks[t]) > 0.5
            && forall i :: 0 <= i < toks[t] ==> Cumulative(ops, p, i) <= 0.5
  {
    hide Chosen, Logits, SoftmaxRow, CdfTo, Exact, Cumulative;
    assert NextToken(ops, net, toks, t);
    PrefixOk(net, toks, t);
    var x := Logits(ops, net, toks[..t])[t - 1];
    assert Probs(ops, net, toks[..t])[t - 1] == SoftmaxRow(ops, x);
    SoftmaxIsDistribution(ops, x);
    SampleIsMedian(ops, x, toks[t]);
  }
}
