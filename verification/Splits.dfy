/** How quantization is shared out: a ceiling-division block split
    (src/inference/forward_graph_primitives.rs, parallel_quant_decode) and a strided token split with
    zero padding (src/inference/forward_batch_helpers.rs, parallel_batch_quant). */
module Splits {
  import opened Arithmetic

  function Per(nb: nat, nth: nat): nat
    requires 0 < nth
  {
    (nb + nth - 1) / nth
  }

  /** The blocks of thread ith: start .. min(start + per, nb). */
  predicate InBlocks(nb: nat, nth: nat, ith: nat, b: nat)
    requires 0 < nth
  {
    Product(ith, Per(nb, nth)) <= b < Min(Product(ith, Per(nb, nth)) + Per(nb, nth), nb)
  }

  /** The only thread that has block b. */
  function BlockOwner(nb: nat, nth: nat, b: nat): (ith: nat)
    requires 0 < nth && b < nb
  {
    PerPositive(nb, nth);
    Quot(b, Per(nb, nth))
  }

  function BlockOwners(nb: nat, nth: nat): nat -> nat
    requires 0 < nth
  {
    (b: nat) => if b < nb then BlockOwner(nb, nth, b) else 0
  }

  lemma PerPositive(nb: nat, nth: nat)
    requires 0 < nth
    ensures 0 < nb ==> 0 < Per(nb, nth)
    ensures nb <= nth * Per(nb, nth)
  {
    Divided(nb + nth - 1, nth);
    if nb > 0 {
      Quotient(nb + nth - 1, Per(nb, nth) + 1, nth);
    }
  }

  /** `c` blocks a thread, the least number with which nth threads have enough, in order; the last threads get
      what is left. */
  lemma BlockRanges(nb: nat, nth: nat, ith: nat, b: nat, c: nat)
    requires 0 < nth && nb <= c * nth && (c > 0 ==> (c - 1) * nth < nb)
    ensures InBlocks(nb, nth, ith, b) <==> ith * c <= b < (ith + 1) * c && b < nb
  {
    CeilingIs(nb, nth, c);
    Succ(ith, c);
  }

  lemma CeilingIs(nb: nat, nth: nat, c: nat)
    requires 0 < nth && nb <= c * nth && (c > 0 ==> (c - 1) * nth < nb)
    ensures Per(nb, nth) == c
  {
    var r := nb + nth - 1 - c * nth;
    if c > 0 {
      Succ(c - 1, nth);
    }
    assert 0 <= r < nth;
    DivMod(c, r, nth);
  }

  /** For every thread count, each block is in exactly one existing thread's range. */
  lemma BlocksPartition(nb: nat, nth: nat, b: nat, ith: nat)
    requires 0 < nth && b < nb
    ensures BlockOwner(nb, nth, b) < nth
    ensures InBlocks(nb, nth, ith, b) <==> ith == BlockOwner(nb, nth, b)
  {
    var per, o := Per(nb, nth), BlockOwner(nb, nth, b);
    PerPositive(nb, nth);
    Divided(b, per);
    Quotient(b, nth, per);
    if InBlocks(nb, nth, ith, b) {
      Split(ith, b - Product(ith, per), o, b - Product(o, per), per);
    }
  }

  /** Thread ith's share of the output changed to the right values, the rest did not change. */
  ghost predicate Share<T>(before: seq<T>, after: seq<T>, n: nat, val: nat -> T, owner: nat -> nat, ith: nat) {
    && n <= |before| == |after|
    && (forall k: nat :: k < n ==> after[k] == if owner(k) == ith then val(k) else before[k])
    && forall k :: n <= k < |before| ==> after[k] == before[k]
  }

  /** parallel_quant_decode for thread ith; `quant` is the quantizer, one 256-element block. */
  method QuantBlocks<T>(quant: nat -> T, out: array<T>, nb: nat, ith: nat, nth: nat)
    requires 0 < nth && nb <= out.Length
    modifies out
    ensures Share(old(out[..]), out[..], nb, quant, BlockOwners(nb, nth), ith)
  {
    var per := Per(nb, nth);
    var start := Product(ith, per);
    var end := Min(start + per, nb);
    forall b: nat | b < nb
      ensures InBlocks(nb, nth, ith, b) <==> ith == BlockOwner(nb, nth, b)
    {
      BlocksPartition(nb, nth, b, ith);
    }
    hide BlockOwner;
    if start < nb {
      for b := start to end
        invariant forall k: nat :: k < out.Length ==> out[k] == if start <= k < b then quant(k) else old(out[k])
      {
        out[b] := quant(b);
      }
    }
  }

  /** parallel_batch_quant for thread ith: tokens ith, ith + nth, ...; the padding tokens are zeroed. */
  method QuantTokens<T>(quant: nat -> T, zero: T, out: array<T>, n: nat, nPad: nat, ith: nat, nth: nat)
    requires ith < nth && nPad <= out.Length
    modifies out
    ensures Share(old(out[..]), out[..], nPad, (t: nat) => if t < n then quant(t) else zero, (t: nat) => t % nth, ith)
  {
    var t := ith;
    DivMod(0, ith, nth);
    while t < nPad
      invariant t % nth == ith
      invariant forall k: nat :: k < out.Length ==>
                  out[k] == if k < t && k < nPad && k % nth == ith then (if k < n then quant(k) else zero) else old(out[k])
    {
      out[t] := if t < n then quant(t) else zero;
      forall k: nat | t < k < t + nth
        ensures k % nth != ith
      {
        NextInStride(t, k, nth);
      }
      NextInStride(t, t + nth, nth);
      t := t + nth;
    }
  }

  /** Between one multiple of the stride and the next, no number has the same remainder. */
  lemma NextInStride(t: nat, k: nat, nth: nat)
    requires 0 < nth && t < k <= t + nth
    ensures k % nth == t % nth <==> k == t + nth
  {
    var q, r := Quot(t, nth), t % nth;
    Divided(t, nth);
    var d := k - t;
    if r + d < nth {
      DivMod(q, r + d, nth);
    } else {
      Succ(q, nth);
      DivMod(q + 1, r + d - nth, nth);
    }
  }

  /** Whatever order the threads do their shares in, once each has, everything is in place. */
  lemma {:induction false} AllShares<T>(outs: seq<seq<T>>, order: seq<nat>, n: nat, val: nat -> T, owner: nat -> nat, k: nat)
    requires |outs| == |order| + 1 && k < n && owner(k) in order
    requires forall j :: 0 <= j < |order| ==> Share(outs[j], outs[j + 1], n, val, owner, order[j])
    ensures k < |outs[|order|]| && outs[|order|][k] == val(k)
  {
    var last := |order| - 1;
    assert Share(outs[last], outs[last + 1], n, val, owner, order[last]);
    if owner(k) != order[last] {
      AllShares(outs[..last + 1], order[..last], n, val, owner, k);
    }
  }

  // ---------- one write at a time ----------

  /** The cells each thread writes, in its own order: its own, all of them. */
  ghost predicate Programs(progs: seq<seq<nat>>, n: nat, owner: nat -> nat) {
    && (forall i: nat, p: nat :: i < |progs| && p < |progs[i]| ==> progs[i][p] < n && owner(progs[i][p]) == i)
    && (forall k: nat :: k < n ==> owner(k) < |progs| && k in progs[owner(k)])
  }

  /** The output, and how many of its cells each thread has written. */
  datatype Progress<T> = Progress(out: seq<T>, done: seq<nat>)

  /** Thread i's next write, if it has one. */
  function WriteNext<T>(progs: seq<seq<nat>>, val: nat -> T, s: Progress<T>, i: nat): Progress<T> {
    if i < |progs| && i < |s.done| && s.done[i] < |progs[i]| && progs[i][s.done[i]] < |s.out| then
      var k := progs[i][s.done[i]];
      Progress(s.out[k := val(k)], s.done[i := s.done[i] + 1])
    else s
  }

  /** The threads in `who` write one cell each, in that order. */
  function WriteInTurn<T>(progs: seq<seq<nat>>, val: nat -> T, s: Progress<T>, who: seq<nat>): Progress<T> {
    if who == [] then s else WriteNext(progs, val, WriteInTurn(progs, val, s, who[..|who| - 1]), who[|who| - 1])
  }

  /** Exactly the cells written so far hold their values. */
  ghost predicate SoFar<T(!new)>(progs: seq<seq<nat>>, n: nat, val: nat -> T, owner: nat -> nat, out: seq<T>, s: Progress<T>) {
    && n <= |out| == |s.out| && |s.done| == |progs|
    && (forall i: nat :: i < |progs| ==> s.done[i] <= |progs[i]|)
    && (forall k: nat :: k < n ==>
          owner(k) < |progs| && s.out[k] == if k in progs[owner(k)][..s.done[owner(k)]] then val(k) else out[k])
    && (forall k: nat :: n <= k < |out| ==> s.out[k] == out[k])
  }

  lemma SoFarNext<T(!new)>(progs: seq<seq<nat>>, n: nat, val: nat -> T, owner: nat -> nat, out: seq<T>, s: Progress<T>, i: nat)
    requires Programs(progs, n, owner) && SoFar(progs, n, val, owner, out, s)
    ensures SoFar(progs, n, val, owner, out, WriteNext(progs, val, s, i))
  {
    var s' := WriteNext(progs, val, s, i);
    if s' != s {
      var w := progs[i][s.done[i]];
      assert progs[i][..s'.done[i]] == progs[i][..s.done[i]] + [w];
      forall k: nat | k < n
        ensures s'.out[k] == if k in progs[owner(k)][..s'.done[owner(k)]] then val(k) else out[k]
      {
        assert owner(k) != i ==> k != w;
      }
    }
  }

  lemma {:induction false} SoFarAll<T(!new)>(progs: seq<seq<nat>>, n: nat, val: nat -> T, owner: nat -> nat, out: seq<T>,
                                             s: Progress<T>, who: seq<nat>)
    requires Programs(progs, n, owner) && SoFar(progs, n, val, owner, out, s)
    ensures SoFar(progs, n, val, owner, out, WriteInTurn(progs, val, s, who))
  {
    if who != [] {
      hide Programs, SoFar, WriteNext;
      SoFarAll(progs, n, val, owner, out, s, who[..|who| - 1]);
      SoFarNext(progs, n, val, owner, out, WriteInTurn(progs, val, s, who[..|who| - 1]), who[|who| - 1]);
    }
  }

  /** However the threads' single writes are interleaved, once every thread has made its own, everything is
      in place and nothing else has changed. */
  lemma AnyInterleaving<T(!new)>(progs: seq<seq<nat>>, n: nat, val: nat -> T, owner: nat -> nat, out: seq<T>, who: seq<nat>)
    requires Programs(progs, n, owner) && n <= |out|
    ensures var end := WriteInTurn(progs, val, Progress(out, seq(|progs|, _ => 0)), who);
            && |end.out| == |out| && |end.done| == |progs|
            && ((forall i: nat :: i < |progs| ==> end.done[i] == |progs[i]|) ==>
                  && (forall k: nat :: k < n ==> end.out[k] == val(k))
                  && (forall k: nat :: n <= k < |out| ==> end.out[k] == out[k]))
  {
    var start := Progress(out, seq(|progs|, _ => 0));
    SoFarAll(progs, n, val, owner, out, start, who);
    var end := WriteInTurn(progs, val, start, who);
    if forall i: nat :: i < |progs| ==> end.done[i] == |progs[i]| {
      forall k: nat | k < n
        ensures end.out[k] == val(k)
      {
        assert progs[owner(k)][..|progs[owner(k)]|] == progs[owner(k)];
      }
    }
  }

  /** The blocks of parallel_quant_decode, thread by thread. */
  function BlockPrograms(nb: nat, nth: nat): (r: seq<seq<nat>>)
    requires 0 < nth
    ensures |r| == nth
    ensures forall i: nat, b: nat :: i < nth ==> (b in r[i] <==> InBlocks(nb, nth, i, b))
  {
    seq(nth, i requires 0 <= i < nth => Span(Product(i, Per(nb, nth)), Min(Product(i, Per(nb, nth)) + Per(nb, nth), nb)))
  }

  function Span(start: nat, end: nat): (r: seq<nat>)
    ensures forall b: nat :: b in r <==> start <= b < end
    decreases end - start
  {
    if start >= end then [] else [start] + Span(start + 1, end)
  }

  lemma BlocksAreShared(nb: nat, nth: nat)
    requires 0 < nth
    ensures Programs(BlockPrograms(nb, nth), nb, BlockOwners(nb, nth))
  {
    hide BlockOwner, BlockPrograms, InBlocks, Per;
    var progs, owner := BlockPrograms(nb, nth), BlockOwners(nb, nth);
    forall i: nat, p: nat | i < |progs| && p < |progs[i]|
      ensures progs[i][p] < nb && owner(progs[i][p]) == i
    {
      assert progs[i][p] in progs[i];
      OwnBlock(nb, nth, i, progs[i][p]);
    }
    forall b: nat | b < nb
      ensures owner(b) < |progs| && b in progs[owner(b)]
    {
      BlocksPartition(nb, nth, b, owner(b));
    }
  }

  lemma OwnBlock(nb: nat, nth: nat, i: nat, b: nat)
    requires 0 < nth && InBlocks(nb, nth, i, b)
    ensures b < nb && BlockOwner(nb, nth, b) == i
  {
    BlocksPartition(nb, nth, b, i);
    hide BlockOwner, Per;
  }

  /** The tokens of parallel_batch_quant, thread by thread. */
  function TokenPrograms(nPad: nat, nth: nat): (r: seq<seq<nat>>)
    requires 0 < nth
    ensures |r| == nth
  {
    seq(nth, i requires 0 <= i < nth => Strided(i, nPad, nth))
  }

  function Strided(t: nat, nPad: nat, nth: nat): seq<nat>
    requires 0 < nth
    decreases nPad - t
  {
    if t >= nPad then [] else [t] + Strided(t + nth, nPad, nth)
  }

  lemma {:induction false} StridedHas(t: nat, nPad: nat, nth: nat, k: nat)
    requires 0 < nth
    ensures k in Strided(t, nPad, nth) <==> t <= k < nPad && k % nth == t % nth
    decreases nPad - t
  {
    if t < nPad {
      StridedHas(t + nth, nPad, nth, k);
      NextInStride(t, t + nth, nth);
      if t < k < t + nth {
        NextInStride(t, k, nth);
      }
    }
  }

  lemma TokensAreShared(nPad: nat, nth: nat)
    requires 0 < nth
    ensures Programs(TokenPrograms(nPad, nth), nPad, (t: nat) => t % nth)
  {
    var progs := TokenPrograms(nPad, nth);
    forall i: nat, p: nat | i < |progs| && p < |progs[i]|
      ensures progs[i][p] < nPad && progs[i][p] % nth == i
    {
      StridedHas(i, nPad, nth, progs[i][p]);
      DivMod(0, i, nth);
    }
    forall k: nat | k < nPad
      ensures k % nth < |progs| && k in progs[k % nth]
    {
      StridedHas(k % nth, nPad, nth, k);
      DivMod(0, k % nth, nth);
      Divided(k, nth);
    }
  }
}
