/** The sampler chain (src/inference/sample.rs): top-k, sort, softmax, top-p, min-p, temperature, draw.
    Values are reals; `exp`, `ln` and the library sort are parameters. */
module Sampler {
  import opened Arithmetic
  import opened Options
  import opened TopK

  const U64_MAX: real := 18446744073709551615.0

  /** A pointer-sized word, and the largest allocation in bytes. */
  const USIZE_MODULUS: nat := 0x1_0000_0000_0000_0000
  const MAX_ALLOCATION: nat := 0x7FFF_FFFF_FFFF_FFFF

  /** A candidate is a u32 and an f32. */
  const CAND_BYTES: nat := 8

  type Usize = x: nat | x < USIZE_MODULUS

  datatype Params = Params(temperature: real, topK: Usize, topP: real, minP: real)

  /** Functions the original takes from its libraries. */
  datatype Library = Library(exp: real -> real, ln: real -> real, sort: seq<Cand> -> seq<Cand>)
  {
    ghost predicate ExpAdds(x: real, y: real) {
      exp(x + y) == Times(exp(x), exp(y))
    }

    ghost predicate Valid() {
      && (forall x :: exp(x) > 0.0)
      && (forall x, y :: x <= y ==> exp(x) <= exp(y))
      && (forall x, y :: ExpAdds(x, y))
      && (forall p :: p > 0.0 ==> exp(ln(p)) == p)
      && (forall c: seq<Cand> :: multiset(sort(c)) == multiset(c) && Descending(Vals(sort(c))))
    }
  }

  function Abs(x: real): real {
    if x < 0.0 then -x else x
  }

  // ---------- sums and softmax ----------

  function Sum(xs: seq<real>): real {
    if xs == [] then 0.0 else Sum(xs[..|xs| - 1]) + xs[|xs| - 1]
  }

  lemma SumNext(xs: seq<real>, i: nat)
    requires i < |xs|
    ensures Sum(xs[..i + 1]) == Sum(xs[..i]) + xs[i]
  {
    assert xs[..i + 1][..i] == xs[..i];
  }

  lemma {:induction false} SumPositive(xs: seq<real>)
    requires xs != [] && forall i :: 0 <= i < |xs| ==> xs[i] > 0.0
    ensures Sum(xs) > 0.0
  {
    if |xs| > 1 {
      SumPositive(xs[..|xs| - 1]);
    }
  }

  function Scale(xs: seq<real>, f: real): (r: seq<real>)
    ensures |r| == |xs|
  {
    seq(|xs|, i requires 0 <= i < |xs| => Times(xs[i], f))
  }

  lemma {:induction false} ScaleSum(xs: seq<real>, f: real)
    ensures Sum(Scale(xs, f)) == Times(Sum(xs), f)
  {
    if xs != [] {
      var n := |xs| - 1;
      ScaleSum(xs[..n], f);
      assert Scale(xs, f)[..n] == Scale(xs[..n], f);
      Distribute(Sum(xs[..n]), xs[n], f);
    }
  }

  lemma Distribute(x: real, y: real, f: real)
    ensures Times(x + y, f) == Times(x, f) + Times(y, f)
  {
  }

  function Exps(exp: real -> real, xs: seq<real>, m: real): (r: seq<real>)
    ensures |r| == |xs|
  {
    seq(|xs|, i requires 0 <= i < |xs| => exp(xs[i] - m))
  }

  function Inverse(x: real): real
    requires x != 0.0
  {
    1.0 / x
  }

  /** Each value over the sum: a distribution in the original order. */
  function Normalized(xs: seq<real>): (r: seq<real>)
    ensures |r| == |xs|
  {
    if Sum(xs) == 0.0 then xs else Scale(xs, Inverse(Sum(xs)))
  }

  function SoftmaxOf(exp: real -> real, xs: seq<real>, m: real): (r: seq<real>)
    ensures |r| == |xs|
  {
    Normalized(Exps(exp, xs, m))
  }

  lemma InverseFacts(s: real, x: real, y: real)
    requires s > 0.0
    ensures Times(s, Inverse(s)) == 1.0
    ensures x > 0.0 ==> Times(x, Inverse(s)) > 0.0
    ensures x <= y ==> Times(x, Inverse(s)) <= Times(y, Inverse(s))
  {
    assert Inverse(s) > 0.0;
    TimesPositive(x, Inverse(s));
    TimesMono(x, y, Inverse(s));
  }

  lemma TimesPositive(x: real, f: real)
    requires f > 0.0
    ensures x > 0.0 ==> Times(x, f) > 0.0
  {
  }

  lemma TimesMono(x: real, y: real, f: real)
    requires f > 0.0
    ensures x <= y ==> Times(x, f) <= Times(y, f)
  {
    if x <= y {
      assert (y - x) * f >= 0.0;
    }
  }

  predicate Positive(xs: seq<real>) {
    forall i :: 0 <= i < |xs| ==> xs[i] > 0.0
  }

  /** Normalizing positive values gives a distribution and keeps their order. */
  lemma NormalizedIsDistribution(xs: seq<real>)
    requires xs != [] && Positive(xs)
    ensures Sum(Normalized(xs)) == 1.0 && Positive(Normalized(xs)) && Sum(xs) > 0.0
    ensures Descending(xs) ==> Descending(Normalized(xs))
  {
    SumPositive(xs);
    var s, r := Sum(xs), Normalized(xs);
    ScaleSum(xs, Inverse(s));
    InverseFacts(s, s, s);
    hide Sum, Times, Inverse;
    forall i | 0 <= i < |xs|
      ensures r[i] > 0.0
    {
      InverseFacts(s, xs[i], xs[i]);
    }
    if Descending(xs) {
      forall i, j | 0 <= i < j < |xs|
        ensures r[j] <= r[i]
      {
        InverseFacts(s, xs[j], xs[i]);
      }
    }
  }

  lemma ExpsFacts(lib: Library, xs: seq<real>, m: real)
    requires lib.Valid()
    ensures Positive(Exps(lib.exp, xs, m)) && (Descending(xs) ==> Descending(Exps(lib.exp, xs, m)))
  {
  }

  // ---------- the loops ----------

  /** Same tokens in the same order. */
  predicate SameTokens(c: seq<Cand>, r: seq<Cand>) {
    |r| == |c| && forall i :: 0 <= i < |c| ==> r[i].0 == c[i].0
  }

  /** The two loops of a softmax: exponentiate and sum, then scale. */
  method Softmax(exp: real -> real, c: seq<Cand>, m: real) returns (r: seq<Cand>)
    requires c != [] && forall x :: exp(x) > 0.0
    ensures SameTokens(c, r) && Vals(r) == SoftmaxOf(exp, Vals(c), m)
  {
    ghost var xs := Exps(exp, Vals(c), m);
    r := c;
    var sum := 0.0;
    assert xs[..0] == [];
    for i := 0 to |c|
      invariant SameTokens(c, r) && sum == Sum(xs[..i])
      invariant forall k :: 0 <= k < |c| ==> r[k].1 == if k < i then xs[k] else c[k].1
    {
      r := r[i := (r[i].0, exp(r[i].1 - m))];
      SumNext(xs, i);
      sum := sum + r[i].1;
    }
    assert xs[..|c|] == xs && Vals(r) == xs;
    SumPositive(xs);
    var mid := r;
    r := ScaleAll(mid, Inverse(sum));
  }

  /** One loop multiplying every value. */
  method ScaleAll(c: seq<Cand>, f: real) returns (r: seq<Cand>)
    ensures SameTokens(c, r) && Vals(r) == Scale(Vals(c), f)
  {
    hide Times;
    r := c;
    for i := 0 to |c|
      invariant SameTokens(c, r)
      invariant forall k :: 0 <= k < |c| ==> r[k].1 == if k < i then Times(c[k].1, f) else c[k].1
    {
      r := r[i := (r[i].0, Times(r[i].1, f))];
    }
  }

  /** The smallest prefix whose mass exceeds top_p, or everything. */
  ghost predicate IsCutoff(ps: seq<real>, topP: real, n: nat) {
    && 0 < n <= |ps|
    && (forall i: nat :: 0 < i < n ==> Sum(ps[..i]) <= topP)
    && (n < |ps| ==> Sum(ps[..n]) > topP)
  }

  method TopPCutoff(ps: seq<real>, topP: real) returns (n: nat)
    requires ps != []
    ensures IsCutoff(ps, topP, n)
  {
    var cumulative := 0.0;
    n := |ps|;
    assert ps[..0] == [];
    for i := 0 to |ps|
      invariant n == |ps| && cumulative == Sum(ps[..i])
      invariant forall j: nat :: 0 < j <= i ==> Sum(ps[..j]) <= topP
    {
      SumNext(ps, i);
      hide Sum;
      cumulative := cumulative + ps[i];
      if cumulative > topP {
        n := i + 1;
        break;
      }
    }
  }

  function Retained(c: seq<Cand>, threshold: real): seq<Cand> {
    if c == [] then []
    else
      var n := |c| - 1;
      Retained(c[..n], threshold) + if c[n].1 >= threshold then [c[n]] else []
  }

  /** Of descending candidates, a threshold keeps a prefix. */
  lemma {:induction false} RetainedIsPrefix(c: seq<Cand>, threshold: real) returns (m: nat)
    requires Descending(Vals(c))
    ensures m <= |c| && Retained(c, threshold) == c[..m]
    ensures forall i: nat :: i < |c| ==> (c[i].1 >= threshold <==> i < m)
  {
    if c == [] {
      m := 0;
    } else {
      var n := |c| - 1;
      LastIsLeast(c);
      hide Descending, Vals;
      m := RetainedIsPrefix(c[..n], threshold);
      if c[n].1 >= threshold {
        assert forall i: nat :: i < n ==> c[..n][i].1 >= threshold;
        m := n + 1;
        assert c[..n] + [c[n]] == c[..m];
      } else {
        assert c[..n][..m] == c[..m];
      }
    }
  }

  lemma LastIsLeast(c: seq<Cand>)
    requires c != [] && Descending(Vals(c))
    ensures Descending(Vals(c[..|c| - 1]))
    ensures forall i: nat :: i < |c| - 1 ==> c[..|c| - 1][i] == c[i] && c[|c| - 1].1 <= c[i].1
  {
    var v := Vals(c);
    assert Vals(c[..|c| - 1]) == v[..|c| - 1];
    assert forall i :: 0 <= i < |c| - 1 ==> v[|c| - 1] <= v[i];
  }

  method RetainLoop(c: seq<Cand>, threshold: real) returns (r: seq<Cand>)
    ensures r == Retained(c, threshold)
  {
    r := [];
    for i := 0 to |c|
      invariant r == Retained(c[..i], threshold)
    {
      assert c[..i + 1][..i] == c[..i];
      if c[i].1 >= threshold {
        r := r + [c[i]];
      }
    }
    assert c[..|c|] == c;
  }

  function Logs(ln: real -> real, temperature: real, ps: seq<real>): (r: seq<real>)
    requires temperature != 0.0
    ensures |r| == |ps|
  {
    seq(|ps|, i requires 0 <= i < |ps| => Times(ln(ps[i]), Inverse(temperature)))
  }

  ghost predicate IsMax(xs: seq<real>, m: real) {
    m in xs && forall i :: 0 <= i < |xs| ==> xs[i] <= m
  }

  /** The final weights: softmax of log p / T, or plain renormalization when T is 1. */
  ghost predicate IsReweighed(lib: Library, temperature: real, ps: seq<real>, ws: seq<real>)
    requires temperature != 0.0
  {
    if Abs(temperature - 1.0) > 0.000001 then
      exists m :: IsMax(Logs(lib.ln, temperature, ps), m) && ws == SoftmaxOf(lib.exp, Logs(lib.ln, temperature, ps), m)
    else ws == Normalized(ps)
  }

  method LogLoop(ln: real -> real, temperature: real, c: seq<Cand>) returns (r: seq<Cand>)
    requires temperature != 0.0
    ensures SameTokens(c, r) && Vals(r) == Logs(ln, temperature, Vals(c))
  {
    hide Times, Inverse;
    r := c;
    for i := 0 to |c|
      invariant SameTokens(c, r)
      invariant forall k :: 0 <= k < |c| ==> r[k].1 == if k < i then Times(ln(c[k].1), Inverse(temperature)) else c[k].1
    {
      r := r[i := (r[i].0, Times(ln(r[i].1), Inverse(temperature)))];
    }
  }

  method MaxLoop(xs: seq<real>) returns (m: real)
    requires xs != []
    ensures IsMax(xs, m)
  {
    m := xs[0];
    for i := 1 to |xs|
      invariant m in xs && forall k :: 0 <= k < i ==> xs[k] <= m
    {
      if xs[i] > m {
        m := xs[i];
      }
    }
  }

  method SumLoop(xs: seq<real>) returns (s: real)
    ensures s == Sum(xs)
  {
    s := 0.0;
    assert xs[..0] == [];
    for i := 0 to |xs|
      invariant s == Sum(xs[..i])
    {
      SumNext(xs, i);
      hide Sum;
      s := s + xs[i];
    }
    assert xs[..|xs|] == xs;
  }

  /** Step 6. */
  method Reweigh(lib: Library, temperature: real, c: seq<Cand>) returns (r: seq<Cand>)
    requires lib.Valid() && temperature > 0.0 && c != [] && Positive(Vals(c))
    ensures SameTokens(c, r) && IsReweighed(lib, temperature, Vals(c), Vals(r)) && Sum(Vals(r)) == 1.0
  {
    if Abs(temperature - 1.0) > 0.000001 {
      var logs := LogLoop(lib.ln, temperature, c);
      var m := MaxLoop(Vals(logs));
      r := Softmax(lib.exp, logs, m);
      ExpsFacts(lib, Vals(logs), m);
      NormalizedIsDistribution(Exps(lib.exp, Vals(logs), m));
    } else {
      var s := SumLoop(Vals(c));
      NormalizedIsDistribution(Vals(c));
      r := ScaleAll(c, Inverse(s));
    }
    hide Sum, Times, Scale;
  }

  /** The inverse distribution function: j is the first place where the running sum reaches the threshold. */
  ghost predicate IsDrawn(ws: seq<real>, threshold: real, j: nat) {
    && j < |ws| && Sum(ws[..j + 1]) >= threshold
    && forall i: nat :: 0 < i <= j ==> Sum(ws[..i]) < threshold
  }

  /** Step 7. */
  method Draw(ws: seq<real>, threshold: real) returns (j: nat)
    requires ws != [] && Sum(ws) == 1.0 && threshold <= 1.0
    ensures IsDrawn(ws, threshold, j)
  {
    var acc := 0.0;
    assert ws[..0] == [];
    j := |ws| - 1;
    for i := 0 to |ws|
      invariant j == |ws| - 1 && acc == Sum(ws[..i])
      invariant forall k: nat :: 0 < k <= i ==> Sum(ws[..k]) < threshold
    {
      SumNext(ws, i);
      hide Sum;
      acc := acc + ws[i];
      if acc >= threshold {
        j := i;
        break;
      }
    }
    assert ws[..|ws|] == ws;
  }

  // ---------- greedy ----------

  /** The first of the largest logits. */
  ghost predicate IsArgmax(logits: seq<real>, t: nat) {
    && t < |logits|
    && (forall j :: 0 <= j < |logits| ==> logits[j] <= logits[t])
    && (forall j :: 0 <= j < t ==> logits[j] < logits[t])
  }

  method Argmax(logits: seq<real>) returns (t: nat)
    ensures logits == [] ==> t == 0
    ensures logits != [] ==> IsArgmax(logits, t)
  {
    t := 0;
    var none, bestVal := true, 0.0;
    for i := 0 to |logits|
      invariant none <==> i == 0
      invariant t == 0 || t < i
      invariant i > 0 ==> t < i && bestVal == logits[t] && forall j :: 0 <= j < i ==> logits[j] <= bestVal
      invariant forall j :: 0 <= j < t ==> logits[j] < bestVal
    {
      if none || logits[i] > bestVal {
        none, bestVal, t := false, logits[i], i;
      }
    }
  }

  // ---------- the chain ----------

  function Left13(x: bv64): bv64 {
    x ^ (x << 13)
  }

  function Right7(x: bv64): bv64 {
    x ^ (x >> 7)
  }

  function Left17(x: bv64): bv64 {
    x ^ (x << 17)
  }

  /** xorshift64: the new state is also the random number. */
  function XorShift(x: bv64): bv64 {
    Left17(Right7(Left13(x)))
  }

  // What undoes each of the three shifts.

  function UndoLeft13(y: bv64): bv64 {
    y ^ (y << 13) ^ (y << 26) ^ (y << 39) ^ (y << 52)
  }

  function UndoRight7(y: bv64): bv64 {
    y ^ (y >> 7) ^ (y >> 14) ^ (y >> 21) ^ (y >> 28) ^ (y >> 35) ^ (y >> 42) ^ (y >> 49) ^ (y >> 56) ^ (y >> 63)
  }

  function UndoLeft17(y: bv64): bv64 {
    y ^ (y << 17) ^ (y << 34) ^ (y << 51)
  }

  lemma Left13Is(x: bv64)
    ensures Left13(x) == x ^ (x << 13)
  {
  }

  lemma Right7Is(x: bv64)
    ensures Right7(x) == x ^ (x >> 7)
  {
  }

  lemma Left17Is(x: bv64)
    ensures Left17(x) == x ^ (x << 17)
  {
  }

  lemma Left13Undone(x: bv64)
    ensures UndoLeft13(x ^ (x << 13)) == x
  {
  }

  lemma Right7Undone(x: bv64)
    ensures UndoRight7(x ^ (x >> 7)) == x
  {
  }

  lemma Left17Undone(x: bv64)
    ensures UndoLeft17(x ^ (x << 17)) == x
  {
  }

  /** One step loses nothing: the previous state can be computed from the next. */
  lemma XorShiftInverse(x: bv64)
    ensures UndoLeft13(UndoRight7(UndoLeft17(XorShift(x)))) == x
  {
    hide Left13, Right7, Left17, UndoLeft13, UndoRight7, UndoLeft17;
    var a, b := Left13(x), Right7(Left13(x));
    Left13Is(x);
    Right7Is(a);
    Left17Is(b);
    Left13Undone(x);
    Right7Undone(a);
    Left17Undone(b);
  }

  /** On the lowest and the highest bit, every shift shows. */
  lemma XorShiftValues()
    ensures XorShift(0) == 0 && XorShift(1) == 0x4082_2041
    ensures XorShift(0x8000_0000_0000_0000) == 0x8100_0000_0000_0000
  {
  }

  /** The stream never gets stuck at zero: a nonzero state has a nonzero successor. */
  lemma XorShiftNonZero(x: bv64)
    requires x != 0
    ensures XorShift(x) != 0
  {
    hide *;
    XorShiftInverse(x);
    XorShiftInverse(0);
    XorShiftValues();
  }

  function Threshold(r: bv64): real {
    r as int as real / U64_MAX
  }

  lemma ThresholdIn(r: bv64)
    ensures 0.0 <= Threshold(r) <= 1.0
  {
    Fraction(r as int);
  }

  lemma Fraction(i: int)
    requires 0 <= i <= 0xFFFF_FFFF_FFFF_FFFF
    ensures 0.0 <= i as real / U64_MAX <= 1.0
  {
  }

  /** Of the n candidates left by top-p, min-p keeps the first m. */
  ghost predicate IsKept(ps: seq<real>, n: nat, minP: real, m: nat) {
    && 0 < n <= |ps| && m <= n
    && forall i: nat :: i < n ==> (ps[i] >= Times(minP, ps[0]) <==> i < m)
  }

  /** From descending candidates with distribution ps: cut at n, keep m, reweigh to ws, draw place j. */
  ghost predicate Chain(lib: Library, p: Params, threshold: real, sorted: seq<Cand>, n: nat, m: nat, ws: seq<real>, j: nat)
    requires p.temperature != 0.0 && sorted != []
  {
    var ps := SoftmaxOf(lib.exp, Vals(sorted), sorted[0].1);
    && IsCutoff(ps, p.topP, n) && IsKept(ps, n, p.minP, m) && 0 < m
    && |ws| == m && IsReweighed(lib, p.temperature, ps[..m], ws) && Sum(ws) == 1.0
    && IsDrawn(ws, threshold, j)
  }

  ghost predicate DrawnFrom(logits: seq<real>, lib: Library, p: Params, threshold: real, sel: seq<Cand>, token: nat)
    requires p.temperature != 0.0
  {
    && Selected(logits, |logits|, p.topK, sel) && lib.sort(sel) != []
    && exists n: nat, m: nat, ws: seq<real>, j: nat ::
         Chain(lib, p, threshold, lib.sort(sel), n, m, ws, j) && j < |lib.sort(sel)| && token == lib.sort(sel)[j].0
  }

  /** Steps 4 and 5: truncate, then retain. */
  method Keep(probs: seq<Cand>, topP: real, minP: real) returns (kept: seq<Cand>, ghost n: nat, ghost m: nat)
    requires probs != [] && Descending(Vals(probs)) && probs[0].1 > 0.0
    ensures IsCutoff(Vals(probs), topP, n) && IsKept(Vals(probs), n, minP, m) && kept == probs[..m]
    ensures m > 0 <==> minP <= 1.0
  {
    var cutoff := TopPCutoff(Vals(probs), topP);
    var cut := probs[..cutoff];
    n := cutoff;
    hide IsCutoff, Times;
    var threshold := Times(minP, cut[0].1);
    kept := RetainLoop(cut, threshold);
    assert Vals(cut) == Vals(probs)[..n];
    m := RetainedIsPrefix(cut, threshold);
    MinPFirst(minP, cut[0].1);
    KeptPrefix(probs, n, m, minP);
  }

  lemma KeptPrefix(probs: seq<Cand>, n: nat, m: nat, minP: real)
    requires 0 < n <= |probs| && m <= n
    requires forall i: nat :: i < n ==> (probs[..n][i].1 >= Times(minP, probs[..n][0].1) <==> i < m)
    ensures IsKept(Vals(probs), n, minP, m) && probs[..n][..m] == probs[..m]
  {
    hide Times;
    forall i: nat | i < n
      ensures Vals(probs)[i] >= Times(minP, Vals(probs)[0]) <==> i < m
    {
      assert probs[..n][i] == probs[i] && probs[..n][0] == probs[0];
    }
  }

  lemma SoftmaxFacts(lib: Library, xs: seq<real>, m: real)
    requires lib.Valid() && xs != [] && Descending(xs)
    ensures Positive(SoftmaxOf(lib.exp, xs, m)) && Descending(SoftmaxOf(lib.exp, xs, m))
  {
    ExpsFacts(lib, xs, m);
    NormalizedIsDistribution(Exps(lib.exp, xs, m));
  }

  /** Steps 3 to 7 on sorted candidates. Nothing is found when min-p leaves nothing. */
  method DrawSorted(lib: Library, p: Params, threshold: real, sorted: seq<Cand>) returns (found: bool, j: nat)
    requires lib.Valid() && p.temperature > 0.0 && sorted != [] && Descending(Vals(sorted)) && threshold <= 1.0
    ensures found <==> p.minP <= 1.0
    ensures found ==> j < |sorted| && exists n: nat, m: nat, ws: seq<real> :: Chain(lib, p, threshold, sorted, n, m, ws, j)
  {
    var probs := Softmax(lib.exp, sorted, sorted[0].1);
    SoftmaxFacts(lib, Vals(sorted), sorted[0].1);
    hide SoftmaxOf, Sum, IsCutoff, IsKept, IsReweighed, Descending, Library.Valid;
    assert Vals(probs)[0] > 0.0;
    var kept; ghost var n: nat, m: nat;
    kept, n, m := Keep(probs, p.topP, p.minP);
    KeptBound(Vals(probs), n, p.minP, m);
    if kept == [] {
      return false, 0;
    }
    ghost var ps := Vals(probs);
    assert Vals(kept) == ps[..m];
    var weighed := Reweigh(lib, p.temperature, kept);
    var ws := Vals(weighed);
    j := Draw(ws, threshold);
    DrawnIn(ws, threshold, j);
    hide IsDrawn;
    assert Chain(lib, p, threshold, sorted, n, m, ws, j);
    found := true;
  }

  lemma KeptBound(ps: seq<real>, n: nat, minP: real, m: nat)
    requires IsKept(ps, n, minP, m)
    ensures m <= n <= |ps|
  {
  }

  lemma DrawnIn(ws: seq<real>, threshold: real, j: nat)
    requires IsDrawn(ws, threshold, j)
    ensures j < |ws|
  {
  }

  /** The most likely candidate passes min-p unless min_p is above one. */
  lemma MinPFirst(minP: real, p0: real)
    requires p0 > 0.0
    ensures p0 >= Times(minP, p0) <==> minP <= 1.0
  {
    if minP <= 1.0 {
      assert (1.0 - minP) * p0 >= 0.0;
    } else {
      assert (minP - 1.0) * p0 > 0.0;
    }
  }

  /** Room for top_k + 1 candidates is asked for at once. The sum wraps in a release build; a capacity
      whose size exceeds the largest allocation panics. */
  predicate Allocates(topK: Usize) {
    (topK + 1) % USIZE_MODULUS * CAND_BYTES <= MAX_ALLOCATION
  }

  /** What `sample` returns: below temperature 1e-6 the argmax; otherwise a token drawn by the chain from
      the top_k candidates, or the argmax exactly when min_p is above one. */
  ghost predicate IsSample(lib: Library, logits: seq<real>, p: Params, rng: bv64, token: nat, rng': bv64) {
    && (logits != [] ==> token < |logits|)
    && (p.temperature < 0.000001 && logits == [] ==> token == 0 && rng' == rng)
    && ((p.temperature < 0.000001 || p.minP > 1.0) && logits != [] ==> IsArgmax(logits, token) && rng' == rng)
    && (p.temperature >= 0.000001 && p.minP <= 1.0 ==>
          && rng' == XorShift(rng)
          && exists sel: seq<Cand> :: DrawnFrom(logits, lib, p, Threshold(XorShift(rng)), sel, token))
  }

  /** What a call of `sample` may do. None is a panic: the candidates' allocation, or the index into an
      empty list of candidates. */
  ghost predicate SampleOutcome(lib: Library, logits: seq<real>, p: Params, rng: bv64, r: Option<nat>, rng': bv64) {
    && (r.Some? <==> p.temperature < 0.000001 || (0 < p.topK && Allocates(p.topK) && logits != []))
    && (r.Some? ==> IsSample(lib, logits, p, rng, r.value, rng'))
  }

  /** Steps 2 to 7, on the selected candidates. */
  method SampleFrom(lib: Library, logits: seq<real>, p: Params, rng: bv64, sel: seq<Cand>) returns (token: nat, rng': bv64)
    requires lib.Valid() && p.temperature >= 0.000001 && logits != [] && 0 < p.topK
    requires Selected(logits, |logits|, p.topK, sel)
    ensures IsSample(lib, logits, p, rng, token, rng')
  {
    var sorted := lib.sort(sel);
    SortedFacts(logits, lib, p.topK, sel);
    var x := XorShift(rng);
    ThresholdIn(x);
    hide XorShift, Threshold, Chain, Selected, IsArgmax, Library.Valid;
    var found, j := DrawSorted(lib, p, Threshold(x), sorted);
    if !found {
      token := Argmax(logits);
      ArgmaxIn(logits, token);
      return token, rng;
    }
    token := sorted[j].0;
    assert DrawnFrom(logits, lib, p, Threshold(x), sel, token);
    rng' := x;
  }

  /** `sample`. */
  method Sample(lib: Library, logits: seq<real>, p: Params, rng: bv64) returns (r: Option<nat>, rng': bv64)
    requires lib.Valid()
    ensures SampleOutcome(lib, logits, p, rng, r, rng')
  {
    hide Allocates, XorShift, Threshold, DrawnFrom, Selected, IsArgmax, Library.Valid;
    if p.temperature < 0.000001 {
      var token := Argmax(logits);
      ArgmaxIn(logits, token);
      return Some(token), rng;
    }
    hide IsSample;
    if !Allocates(p.topK) {
      return None, rng;
    }
    var sel := SelectTopK(logits, p.topK);
    if sel.None? || logits == [] {
      return None, rng;
    }
    var token, x := SampleFrom(lib, logits, p, rng, sel.value);
    return Some(token), x;
  }

  lemma ArgmaxIn(logits: seq<real>, t: nat)
    requires logits != [] ==> IsArgmax(logits, t)
    ensures logits != [] ==> t < |logits|
  {
  }

  /** Sorting keeps the candidates. */
  lemma SortedFacts(logits: seq<real>, lib: Library, topK: nat, sel: seq<Cand>)
    requires lib.Valid() && logits != [] && topK > 0 && Selected(logits, |logits|, topK, sel)
    ensures var sorted := lib.sort(sel);
            && sorted != [] && Descending(Vals(sorted)) && |sorted| == |sel|
            && forall j: nat :: j < |sorted| ==> sorted[j] in sel && sorted[j].0 < |logits|
                                                 && logits[sorted[j].0] == sorted[j].1
  {
    SelectedSize(logits, |logits|, topK, sel);
    var sorted := lib.sort(sel);
    assert |multiset(sorted)| == |sorted| && |multiset(sel)| == |sel|;
    forall j: nat | j < |sorted|
      ensures sorted[j] in sel
    {
      assert sorted[j] in multiset(sel);
    }
  }

  /** A drawn token's logit is at least the k-th largest one. */
  lemma DrawnIsTop(logits: seq<real>, lib: Library, p: Params, threshold: real, sel: seq<Cand>, token: nat, ranked: seq<real>)
    requires lib.Valid() && p.temperature != 0.0
    requires DrawnFrom(logits, lib, p, threshold, sel, token)
    requires Descending(ranked) && multiset(ranked) == multiset(logits)
    ensures |ranked| == |logits| && token < |logits| && 0 < p.topK
    ensures logits[token] >= ranked[(if p.topK < |logits| then p.topK else |logits|) - 1]
  {
    hide *;
    SomeSelected(logits, lib, p, threshold, sel, token);
    var j := DrawnToken(logits, lib, p, threshold, sel, token);
    SortedFacts(logits, lib, p.topK, sel);
    SelectedIsSortAndTake(logits, p.topK, sel, ranked);
    TopValue(logits, p.topK, sel, ranked, lib.sort(sel)[j]);
  }

  lemma SomeSelected(logits: seq<real>, lib: Library, p: Params, threshold: real, sel: seq<Cand>, token: nat)
    requires lib.Valid() && p.temperature != 0.0 && DrawnFrom(logits, lib, p, threshold, sel, token)
    ensures logits != [] && 0 < p.topK
  {
    SelectedSize(logits, |logits|, p.topK, sel);
    var sorted := lib.sort(sel);
    assert |multiset(sorted)| == |sorted| && |multiset(sel)| == |sel|;
    hide Chain, Selected;
  }

  lemma DrawnToken(logits: seq<real>, lib: Library, p: Params, threshold: real, sel: seq<Cand>, token: nat) returns (j: nat)
    requires p.temperature != 0.0 && DrawnFrom(logits, lib, p, threshold, sel, token)
    ensures Selected(logits, |logits|, p.topK, sel) && j < |lib.sort(sel)| && token == lib.sort(sel)[j].0
  {
    hide Chain, Selected;
    var n: nat, m: nat, ws: seq<real>, k: nat :|
      Chain(lib, p, threshold, lib.sort(sel), n, m, ws, k) && k < |lib.sort(sel)| && token == lib.sort(sel)[k].0;
    j := k;
  }

  lemma TopValue(logits: seq<real>, topK: nat, sel: seq<Cand>, ranked: seq<real>, x: Cand)
    requires Descending(ranked) && |sel| <= |ranked| && multiset(Vals(sel)) == multiset(ranked[..|sel|]) && x in sel
    ensures x.1 >= ranked[|sel| - 1]
  {
    var a: nat :| a < |sel| && sel[a] == x;
    assert Vals(sel)[a] == x.1;
    assert x.1 in multiset(ranked[..|sel|]);
    var i: nat :| i < |sel| && ranked[..|sel|][i] == x.1;
    assert ranked[i] == x.1;
  }
}
