/** The main loop: each new token is sampled from the last row of a forward pass over the tokens so far. */
module GptGenerate {
  import opened GptRows
  import opened GptIndex
  import opened GptNetwork
  import opened GptKernels
  import opened GptLoops
  import opened GptArena
  import opened GptForward
  import opened GptModel

  const LIMIT: nat := 20
  const EOT: nat := 50256

  datatype Result<T> = Ok(value: T) | Err

  ghost predicate InVocabulary<F>(net: Net<F>, toks: seq<nat>) {
    forall t :: 0 <= t < |toks| ==> toks[t] < net.shape.V
  }

  lemma PrefixOk<F>(net: Net<F>, toks: seq<nat>, t: nat)
    requires InVocabulary(net, toks) && t <= |toks| && t <= net.shape.maxT
    ensures TokensOk(net, toks[..t])
  {
  }

  /** Every token after the prompt is the one chosen by the network from the tokens before it. */
  ghost predicate Generated<F>(ops: Ops<F>, net: Net<F>, prompt: seq<nat>, toks: seq<nat>) {
    && NetOk(net) && InVocabulary(net, toks) && |toks| <= net.shape.maxT + 1
    && prompt != [] && prompt <= toks
    && forall t :: |prompt| <= t < |toks| ==> NextToken(ops, net, toks, t)
  }

  ghost predicate NextToken<F>(ops: Ops<F>, net: Net<F>, toks: seq<nat>, t: nat)
    requires NetOk(net) && InVocabulary(net, toks) && 0 < t < |toks| <= net.shape.maxT + 1
  {
    PrefixOk(net, toks, t);
    Chosen(ops, Probs(ops, net, toks[..t])[t - 1], toks[t])
  }

  /** Sampling the last row that a forward pass left in the activations. */
  method SampleLast<F(0, !new)>(model: Model<F>, ops: Ops<F>, ghost net: Net<F>, toks: seq<nat>) returns (next: nat)
    requires toks != [] && Computed(ops, net, toks, model.acts, model.actsMemory[..]) && net.shape == model.shape
    ensures Chosen(ops, Probs(ops, net, toks)[|toks| - 1], next)
  {
    hide ActsPointed, NetOk, TokensOk, StreamsHeld, Logits, Probs, Chosen, RowsAt;
    ghost var mem := model.actsMemory[..];
    var t, V := |toks|, model.shape.V;
    OutputsInside(model.acts, net.shape, |net.layers|, t, mem);
    RowIs(mem, model.acts[21], t, V, t - 1);
    HasVocabulary(net);
    ghost var row := Probs(ops, net, toks)[t - 1];
    var r := SampleMult(ops, model.actsMemory, RowAddr(model.acts[21], t - 1, V), V);
    ChosenInside(ops, row, r);
    next := r;
  }

  lemma HasVocabulary<F>(net: Net<F>)
    requires NetOk(net)
    ensures net.shape.V > 0
  {
  }

  lemma ChosenInside<F>(ops: Ops<F>, p: Row<F>, r: int)
    requires Chosen(ops, p, r)
    ensures 0 <= r < |p|
  {
  }

  /** Tokens generated so far stay as they are when one more is added. */
  lemma OneMore<F>(ops: Ops<F>, net: Net<F>, prompt: seq<nat>, toks: seq<nat>, next: nat)
    requires Generated(ops, net, prompt, toks) && |toks| <= net.shape.maxT && TokensOk(net, toks)
    requires Chosen(ops, Probs(ops, net, toks)[|toks| - 1], next)
    ensures Generated(ops, net, prompt, toks + [next])
  {
    hide Chosen, NetOk, Probs;
    var longer := toks + [next];
    ChosenInside(ops, Probs(ops, net, toks)[|toks| - 1], next);
    forall t | |prompt| <= t < |longer| ensures NextToken(ops, net, longer, t) {
      if t < |toks| {
        assert longer[..t] == toks[..t];
        assert NextToken(ops, net, toks, t);
      } else {
        assert longer[..t] == toks;
      }
    }
  }

  /** The body of the loop: a forward pass over the tokens so far and a sample from its last row. */
  method GenerateOne<F(0, !new)>(model: Model<F>, ops: Ops<F>, ghost prompt: seq<nat>, toks: seq<nat>)
    returns (next: nat)
    requires model.Valid() && Generated(ops, model.Network(), prompt, toks) && |toks| <= model.shape.maxT
    modifies model`acts, model`actsMemory
    ensures model.Valid() && model.Network() == old(model.Network())
    ensures Generated(ops, model.Network(), prompt, toks + [next])
  {
    hide NextToken, Computed, Probs, NetOk, ActsPointed, ParamsPointed, NetAt, Chosen, InVocabulary, TokensOk;
    ghost var net := model.Network();
    assert toks[..|toks|] == toks;
    PrefixOk(net, toks, |toks|);
    model.Forward(ops, toks);
    next := SampleLast(model, ops, net, toks);
    OneMore(ops, net, prompt, toks, next);
  }

  lemma Begin<F>(ops: Ops<F>, net: Net<F>, prompt: seq<nat>)
    requires NetOk(net) && InVocabulary(net, prompt) && |prompt| <= net.shape.maxT + 1 && prompt != []
    ensures Generated(ops, net, prompt, prompt)
  {
    hide NetOk, InVocabulary;
  }

  /** main, for the prompt on the command line. */
  method Generate<F(0, !new)>(model: Model<F>, ops: Ops<F>, prompt: seq<nat>) returns (r: Result<seq<nat>>)
    requires model.Valid() && InVocabulary(model.Network(), prompt) && LIMIT <= model.shape.maxT + 1
    modifies model`acts, model`actsMemory
    ensures model.Valid() && model.Network() == old(model.Network())
    ensures r.Ok? <==> 0 < |prompt| < LIMIT
    ensures r.Ok? ==> |r.value| == LIMIT && Generated(ops, model.Network(), prompt, r.value)
  {
    hide NetOk, InVocabulary, Generated, ParamsPointed, NetAt, Probs, NextToken;
    if |prompt| == 0 || |prompt| + 1 > LIMIT {
      return Err;
    }
    var tokens := new nat[LIMIT](i => if 0 <= i < |prompt| then prompt[i] else EOT);
    ghost var net := model.Network();
    assert tokens[..|prompt|] == prompt;
    Begin(ops, net, prompt);
    var t := |prompt|;
    while t < LIMIT
      invariant |prompt| <= t <= LIMIT && fresh(tokens)
      invariant model.Valid() && model.Network() == net
      invariant Generated(ops, net, prompt, tokens[..t])
    {
      var soFar := tokens[..t];
      var next := GenerateOne(model, ops, prompt, soFar);
      tokens[t] := next;
      assert tokens[..t + 1] == soFar + [next];
      t := t + 1;
    }
    assert tokens[..] == tokens[..LIMIT];
    r := Ok(tokens[..]);
  }

  /**
   One forward pass over everything agrees with the passes that generated it: at each position before a generated
   token, the row of that single pass chooses the same token again.
   */
  lemma OnePassAgrees<F>(ops: Ops<F>, net: Net<F>, prompt: seq<nat>, toks: seq<nat>, n: nat, t: nat)
    requires Generated(ops, net, prompt, toks) && |prompt| <= t <= n <= |toks| && t < |toks| && TokensOk(net, toks[..n])
    ensures Chosen(ops, Probs(ops, net, toks[..n])[t - 1], toks[t])
  {
    hide Chosen, Probs, NetOk;
    assert NextToken(ops, net, toks, t);
    LogitsPrefix(ops, net, toks[..n], t);
    assert toks[..n][..t] == toks[..t];
    assert Probs(ops, net, toks[..t])[t - 1] == Probs(ops, net, toks[..n])[t - 1];
  }

  /** The prompt decides everything: two generations from it agree as far as both go. */
  lemma {:induction false} SameTokens<F>(ops: Ops<F>, net: Net<F>, prompt: seq<nat>, toks: seq<nat>, toks': seq<nat>,
                                         n: nat)
    requires Generated(ops, net, prompt, toks) && Generated(ops, net, prompt, toks')
    requires |prompt| <= n <= |toks| && n <= |toks'|
    ensures toks[..n] == toks'[..n]
  {
    hide Chosen, Probs, NetOk;
    if n > |prompt| {
      SameTokens(ops, net, prompt, toks, toks', n - 1);
      assert NextToken(ops, net, toks, n - 1) && NextToken(ops, net, toks', n - 1);
      ChosenOnce(ops, Probs(ops, net, toks[..n - 1])[n - 2], toks[n - 1], toks'[n - 1]);
      assert toks[..n] == toks[..n - 1] + [toks[n - 1]] && toks'[..n] == toks'[..n - 1] + [toks'[n - 1]];
    } else {
      assert toks[..n] == prompt == toks'[..n];
    }
  }

  /**
   Two passes of different lengths, over tokens that agree up to position p, leave the same floats at row p of every
   residual stream, of the logits and of the probabilities, although the rows are at different addresses.
   */
  lemma CausalMemory<F>(ops: Ops<F>, net: Net<F>, toks: seq<nat>, ptrs: seq<nat>, mem: seq<F>,
                        toks': seq<nat>, ptrs': seq<nat>, mem': seq<F>, p: nat)
    requires Computed(ops, net, toks, ptrs, mem) && Computed(ops, net, toks', ptrs', mem')
    requires p < |toks| && p < |toks'| && toks[..p + 1] == toks'[..p + 1]
    ensures forall l :: 0 <= l <= |net.layers| ==>
              StreamAt(net, toks, ptrs, mem, l)[p] == StreamAt(net, toks', ptrs', mem', l)[p]
    ensures LogitsAt(net, toks, ptrs, mem)[p] == LogitsAt(net, toks', ptrs', mem')[p]
    ensures ProbsAt(net, toks, ptrs, mem)[p] == ProbsAt(net, toks', ptrs', mem')[p]
  {
    hide NetOk, TokensOk, ActsPointed, Stream, Logits, Probs, LogitsAt, ProbsAt, StreamAt;
    Causality(ops, net, toks, toks', p);
    forall l | 0 <= l <= |net.layers|
      ensures StreamAt(net, toks, ptrs, mem, l)[p] == StreamAt(net, toks', ptrs', mem', l)[p]
    {
      assert Stream(ops, net, toks, l)[p] == Stream(ops, net, toks', l)[p];
    }
  }
}
