/** Generation (src/inference/generate.rs): the decode budget, and the prefill and decode loop over the KV
    cache and the sampler. The forward passes' logits are a parameter; text output is left out. */
module Generate {
  import opened Arithmetic
  import opened KvCache
  import opened Forward
  import opened Options
  import S = Sampler

  /** Gemma4State allocates its batch buffers for this many tokens. */
  const MAX_BATCH: nat := 2048

  /** decode_budget: None when the prompt alone fills the window. */
  function DecodeBudget(nPrompt: nat, maxTokens: nat, maxSeqLen: nat): (b: Option<nat>)
    ensures b.Some? <==> nPrompt < maxSeqLen
    ensures b.Some? ==> nPrompt + b.value <= maxSeqLen && b.value <= maxTokens
                        && (b.value == maxTokens || nPrompt + b.value == maxSeqLen)
  {
    if nPrompt >= maxSeqLen then None else Some(Min(maxTokens, maxSeqLen - nPrompt))
  }

  /** The engine's settings, the logits its forward passes leave after a list of tokens, and the tokens
      that end generation. */
  datatype Engine = Engine(maxTokens: nat, params: S.Params, maxSeqLen: nat, lib: S.Library,
                           vocab: nat, logits: seq<nat> -> seq<real>, stop: nat -> bool)
  {
    ghost predicate Valid() {
      lib.Valid() && 0 < vocab && forall tokens :: |logits(tokens)| == vocab
    }

    function Budget(prompt: seq<nat>): Option<nat> {
      DecodeBudget(|prompt|, maxTokens, maxSeqLen)
    }
  }

  datatype Outcome =
    | Empty                      // nothing but BOS
    | Refused                    // the prompt fills the window
    | Panicked
    | Done(tokens: seq<nat>)     // the prompt and the decoded tokens

  // ---------- the runs of generate ----------

  /** The decode loop with `left` rounds to go may end in r: each round samples from the logits of all
      tokens so far. */
  ghost predicate Decodes(e: Engine, tokens: seq<nat>, left: nat, rng: bv64, r: Outcome)
    decreases left
  {
    if left == 0 then r == Done(tokens)
    else exists t: Option<nat>, rng': bv64 ::
      && S.SampleOutcome(e.lib, e.logits(tokens), e.params, rng, t, rng')
      && match t
         case None => r == Panicked
         case Some(token) => if e.stop(token) then r == Done(tokens) else Decodes(e, tokens + [token], left - 1, rng', r)
  }

  /** `generate` on a tokenized prompt may end in r. */
  ghost predicate Generates(e: Engine, prompt: seq<nat>, seed: bv64, r: Outcome) {
    if |prompt| <= 1 then r == Empty
    else match e.Budget(prompt)
      case None => r == Refused
      case Some(budget) => if BatchAsserts(prompt) then Decodes(e, prompt, budget, seed, r) else r == Panicked
  }

  /** forward_batch's assertions on the whole prompt. */
  predicate BatchAsserts(prompt: seq<nat>) {
    0 < |prompt| <= MAX_BATCH
  }

  /** Sliding layers have a window. */
  ghost predicate Windowed(c: Cache)
    requires c.Shaped()
  {
    forall l: nat :: l < |c.headDimV| && c.Owns(l) && c.attnTypes[l].SlidingWindow? ==> 0 < c.windowSize
  }

  lemma RoomUpto(c: Cache, pos: nat, n: nat)
    requires c.Shaped() && Windowed(c) && pos + n <= c.maxSeqLen
    ensures Room(c, pos, n)
  {
    forall l: nat | l < |c.headDimV|
      ensures c.HasRoom(l, pos, n)
    {
    }
  }

  lemma Sampled(e: Engine, tokens: seq<nat>, left: nat, rng: bv64, t: Option<nat>, rng': bv64, r: Outcome)
    requires 0 < left && S.SampleOutcome(e.lib, e.logits(tokens), e.params, rng, t, rng')
    requires match t
             case None => r == Panicked
             case Some(token) => if e.stop(token) then r == Done(tokens) else Decodes(e, tokens + [token], left - 1, rng', r)
    ensures Decodes(e, tokens, left, rng, r)
  {
    hide S.SampleOutcome;
  }

  lemma SampledOnwards(e: Engine, tokens: seq<nat>, left: nat, rng: bv64, token: nat, rng': bv64)
    requires 0 < left && !e.stop(token) && S.SampleOutcome(e.lib, e.logits(tokens), e.params, rng, Some(token), rng')
    ensures forall o: Outcome :: Decodes(e, tokens + [token], left - 1, rng', o) ==> Decodes(e, tokens, left, rng, o)
  {
    hide S.SampleOutcome, Decodes;
    forall o: Outcome | Decodes(e, tokens + [token], left - 1, rng', o)
      ensures Decodes(e, tokens, left, rng, o)
    {
      Sampled(e, tokens, left, rng, Some(token), rng', o);
    }
  }

  /** Engine::generate over the cache. Every forward call meets its precondition, so every global-layer
      write and every RoPE row read is below max_seq_len; the position always equals the number of tokens
      processed. */
  method Generate(m: Model, c: Cache, e: Engine, prompt: seq<nat>, ubatchSetting: nat, seed: bv64) returns (r: Outcome)
    requires c.Valid() && Fits(m, c) && Windowed(c) && c.Resolved() && c.maxSeqLen == e.maxSeqLen
    requires 0 < ubatchSetting && e.Valid()
    modifies c
    ensures Generates(e, prompt, seed, r)
    ensures c.Valid() && Fits(m, c)
    ensures r.Done? ==> Remembers(m, c) && c.seqLen == |r.tokens| <= e.maxSeqLen
    ensures r.Empty? || r.Refused? ==> c.k == old(c.k) && c.v == old(c.v) && c.seqLen == old(c.seqLen)
  {
    if |prompt| <= 1 {
      return Empty;
    }
    var budget := DecodeBudget(|prompt|, e.maxTokens, e.maxSeqLen);
    if budget.None? {
      return Refused;
    }
    c.Reset();
    FreshRemembers(m, c);
    hide Remembers, Fits, Rope.Valid, Cache.Resolved, S.SampleOutcome, S.Library.Valid, Decodes;
    RoomUpto(c, 0, |prompt|);
    RememberedValid(m, c);
    var ok := ForwardBatch(m, c, |prompt|, MAX_BATCH, ubatchSetting);
    RememberedValid(m, c);
    if !ok {
      return Panicked;
    }
    var tokens, rng, left: nat := prompt, seed, budget.value;
    while left > 0
      invariant left <= budget.value && |tokens| + left == |prompt| + budget.value
      invariant c.Valid() && Fits(m, c) && Remembers(m, c) && c.seqLen == |tokens|
      invariant forall o: Outcome :: Decodes(e, tokens, left, rng, o) ==> Decodes(e, prompt, budget.value, seed, o)
    {
      var t, next := S.Sample(e.lib, e.logits(tokens), e.params, rng);
      if t.None? {
        Sampled(e, tokens, left, rng, t, next, Panicked);
        return Panicked;
      }
      if e.stop(t.value) {
        Sampled(e, tokens, left, rng, t, next, Done(tokens));
        return Done(tokens);
      }
      SampledOnwards(e, tokens, left, rng, t.value, next);
      RoomUpto(c, c.seqLen, 1);
      ForwardOne(m, c);
      RememberedValid(m, c);
      tokens, rng, left := tokens + [t.value], next, left - 1;
    }
    NothingLeft(e, tokens, rng);
    r := Done(tokens);
  }

  lemma NothingLeft(e: Engine, tokens: seq<nat>, rng: bv64)
    ensures Decodes(e, tokens, 0, rng, Done(tokens))
  {
  }

  lemma RememberedValid(m: Model, c: Cache)
    requires Fits(m, c) && Remembers(m, c)
    ensures c.Valid()
  {
  }

  // ---------- what every run does ----------

  /** Whether `sample` returns does not depend on the logits: the loop panics at once or never. */
  lemma {:induction false} DecodePanics(e: Engine, tokens: seq<nat>, left: nat, rng: bv64, r: Outcome)
    requires e.Valid() && Decodes(e, tokens, left, rng, r)
    ensures r.Done? || r.Panicked?
    ensures r.Done? <==> left == 0 || e.params.temperature < 0.000001 || (0 < e.params.topK && S.Allocates(e.params.topK))
    decreases left
  {
    if left > 0 {
      var t: Option<nat>, rng': bv64 :|
        && S.SampleOutcome(e.lib, e.logits(tokens), e.params, rng, t, rng')
        && match t
           case None => r == Panicked
           case Some(token) => if e.stop(token) then r == Done(tokens) else Decodes(e, tokens + [token], left - 1, rng', r);
      assert e.logits(tokens) != [];
      if t.Some? && !e.stop(t.value) {
        DecodePanics(e, tokens + [t.value], left - 1, rng', r);
      }
      hide S.IsSample, S.Allocates, Decodes;
    }
  }

  /** A prompt that the budget check accepts is generated from without a panic if and only if it fits the
      batch buffers and, when there is anything to sample, sampling is greedy or top_k is positive and its
      candidates can be allocated. */
  lemma PanicFreeIff(e: Engine, prompt: seq<nat>, seed: bv64, r: Outcome)
    requires e.Valid() && |prompt| > 1 && e.Budget(prompt).Some? && Generates(e, prompt, seed, r)
    ensures r.Done? || r.Panicked?
    ensures r.Done? <==>
              && |prompt| <= MAX_BATCH
              && (e.Budget(prompt).value == 0 || e.params.temperature < 0.000001
                  || (0 < e.params.topK && S.Allocates(e.params.topK)))
  {
    if BatchAsserts(prompt) {
      DecodePanics(e, prompt, e.Budget(prompt).value, seed, r);
    }
  }

  /** What is decoded: at most the budget, ids inside the vocabulary, no stop token; and short of the
      budget only because a stop token was sampled next. */
  lemma {:induction false} DecodedTokens(e: Engine, tokens: seq<nat>, left: nat, rng: bv64, r: Outcome)
    requires e.Valid() && Decodes(e, tokens, left, rng, r) && r.Done?
    ensures tokens <= r.tokens && |r.tokens| <= |tokens| + left
    ensures forall i: nat :: |tokens| <= i < |r.tokens| ==> r.tokens[i] < e.vocab && !e.stop(r.tokens[i])
    ensures |r.tokens| < |tokens| + left ==>
              exists t: nat, x: bv64, y: bv64 ::
                S.IsSample(e.lib, e.logits(r.tokens), e.params, x, t, y) && e.stop(t) && t < e.vocab
    decreases left
  {
    if left > 0 {
      var t: Option<nat>, rng': bv64 :|
        && S.SampleOutcome(e.lib, e.logits(tokens), e.params, rng, t, rng')
        && match t
           case None => r == Panicked
           case Some(token) => if e.stop(token) then r == Done(tokens) else Decodes(e, tokens + [token], left - 1, rng', r);
      assert t.Some? && S.IsSample(e.lib, e.logits(tokens), e.params, rng, t.value, rng') && |e.logits(tokens)| == e.vocab;
      assert t.value < e.vocab;
      hide S.IsSample, S.SampleOutcome, Decodes, Engine.Valid;
      if !e.stop(t.value) {
        DecodedTokens(e, tokens + [t.value], left - 1, rng', r);
      }
    }
  }

  /** One step of the chain: a token sampled from the logits of all tokens before it. */
  ghost predicate Drawn(e: Engine, before: seq<nat>, rng: bv64, t: nat, rng': bv64) {
    S.IsSample(e.lib, e.logits(before), e.params, rng, t, rng')
  }

  ghost predicate StopDrawn(e: Engine, before: seq<nat>, rng: bv64) {
    exists t: nat, rng': bv64 :: Drawn(e, before, rng, t, rng') && e.stop(t)
  }

  /** Every decoded token was drawn from the logits after the tokens before it, with the random state the
      previous draw left; decoding ends at the budget or at a stop token, which is drawn and not kept. */
  ghost predicate Chain(e: Engine, start: nat, left: nat, tokens: seq<nat>, rngs: seq<bv64>)
    requires start <= |tokens|
  {
    && |rngs| == |tokens| - start + 1
    && (forall i: nat :: start <= i < |tokens| ==>
          Drawn(e, tokens[..i], rngs[i - start], tokens[i], rngs[i - start + 1]) && !e.stop(tokens[i]))
    && (|tokens| == start + left
        || (|tokens| < start + left && StopDrawn(e, tokens, rngs[|tokens| - start])))
  }

  lemma ChainMore(e: Engine, start: nat, left: nat, tokens: seq<nat>, rng: bv64, rngs: seq<bv64>)
    requires start < |tokens| && 0 < left && Chain(e, start + 1, left - 1, tokens, rngs)
    requires rngs != [] && Drawn(e, tokens[..start], rng, tokens[start], rngs[0]) && !e.stop(tokens[start])
    ensures Chain(e, start, left, tokens, [rng] + rngs)
  {
    var all := [rng] + rngs;
    hide Drawn;
    forall i: nat | start <= i < |tokens|
      ensures Drawn(e, tokens[..i], all[i - start], tokens[i], all[i - start + 1]) && !e.stop(tokens[i])
    {
      assert i > start ==> all[i - start] == rngs[i - (start + 1)];
      assert all[i - start + 1] == rngs[i - start];
    }
    assert all[|tokens| - start] == rngs[|tokens| - (start + 1)];
  }

  lemma {:induction false} DecodedChain(e: Engine, tokens: seq<nat>, left: nat, rng: bv64, r: Outcome) returns (rngs: seq<bv64>)
    requires e.Valid() && Decodes(e, tokens, left, rng, r) && r.Done?
    ensures tokens <= r.tokens && rngs != [] && rngs[0] == rng && Chain(e, |tokens|, left, r.tokens, rngs)
    decreases left
  {
    rngs := [rng];
    if left > 0 {
      var t: Option<nat>, rng': bv64 :|
        && S.SampleOutcome(e.lib, e.logits(tokens), e.params, rng, t, rng')
        && match t
           case None => r == Panicked
           case Some(token) => if e.stop(token) then r == Done(tokens) else Decodes(e, tokens + [token], left - 1, rng', r);
      assert Drawn(e, tokens, rng, t.value, rng');
      hide S.IsSample, S.SampleOutcome, Drawn, Decodes, Engine.Valid;
      if !e.stop(t.value) {
        var rest := DecodedChain(e, tokens + [t.value], left - 1, rng', r);
        assert r.tokens[..|tokens|] == tokens && r.tokens[|tokens|] == t.value;
        hide Chain;
        ChainMore(e, |tokens|, left, r.tokens, rng, rest);
        rngs := [rng] + rest;
      }
    }
  }

  /** A prompt of one token is empty, one that fills the window is refused, and any other that is generated
      from without a panic is continued by such a chain of at most max_tokens tokens within the window. */
  lemma GeneratedTokens(e: Engine, prompt: seq<nat>, seed: bv64, r: Outcome) returns (rngs: seq<bv64>)
    requires e.Valid() && Generates(e, prompt, seed, r)
    ensures r.Empty? <==> |prompt| <= 1
    ensures r.Refused? <==> |prompt| > 1 && |prompt| >= e.maxSeqLen
    ensures r.Done? ==>
              && prompt <= r.tokens && rngs != [] && rngs[0] == seed
              && Chain(e, |prompt|, Min(e.maxTokens, e.maxSeqLen - |prompt|), r.tokens, rngs)
  {
    rngs := [seed];
    hide S.SampleOutcome, Drawn, Chain;
    if r.Done? {
      rngs := DecodedChain(e, prompt, e.Budget(prompt).value, seed, r);
    } else if |prompt| > 1 && |prompt| < e.maxSeqLen && BatchAsserts(prompt) {
      DecodePanics(e, prompt, e.Budget(prompt).value, seed, r);
    }
  }

  // ---------- inputs that panic ----------

  /** With a window of more than 2049 tokens a 2049-token prompt passes the budget check and then panics,
      although the check is documented to make generation panic-safe for every caller. Up to 2049 no
      accepted prompt is too long for the batch buffers. No caller in the repository passes a window above
      2048, so this needs a caller of the public Engine::load. */
  lemma BudgetIsNotEnough(e: Engine, prompt: seq<nat>, seed: bv64, r: Outcome)
    requires e.Valid() && |prompt| > 1 && Generates(e, prompt, seed, r)
    ensures e.maxSeqLen > 2049 && |prompt| == 2049 ==> e.Budget(prompt).Some? && r == Panicked
    ensures e.maxSeqLen <= 2049 && e.Budget(prompt).Some? ==> |prompt| <= MAX_BATCH
  {
  }

  /** top_k reaches the engine unchecked: a server request that sets it to 0, or to -2 (which becomes
      2^64 - 2), makes every accepted prompt that asks for tokens at a positive temperature panic. */
  lemma TopKIsNotChecked(e: Engine, prompt: seq<nat>, seed: bv64, r: Outcome)
    requires e.Valid() && |prompt| > 1 && |prompt| < e.maxSeqLen && 0 < e.maxTokens && Generates(e, prompt, seed, r)
    requires e.params.temperature == 1.0 && (e.params.topK == 0 || e.params.topK == S.USIZE_MODULUS - 2)
    ensures r == Panicked
  {
    hide Generates, Engine.Valid;
    PanicFreeIff(e, prompt, seed, r);
  }
}
