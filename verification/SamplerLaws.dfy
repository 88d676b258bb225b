/** What the sampler's weights are, without its own functions (src/inference/sample.rs): shares of a sum,
    exponentials' ratios, and the temperature as a power of the probabilities. */
module SamplerLaws {
  import opened Arithmetic
  import opened TopK
  import opened Sampler

  // ---------- sums and shares ----------

  lemma SumOne(x: real)
    ensures Sum([x]) == x && Sum([]) == 0.0
  {
    assert [x][..0] == [];
  }

  lemma {:induction false} SumAppend(a: seq<real>, b: seq<real>)
    ensures Sum(a + b) == Sum(a) + Sum(b)
  {
    if b == [] {
      assert a + b == a;
    } else {
      var n := |b| - 1;
      assert (a + b)[..|a + b| - 1] == a + b[..n];
      SumAppend(a, b[..n]);
    }
  }

  /** A normalized value is the value's share of the sum. */
  lemma NormalizedShare(xs: seq<real>, i: nat)
    requires i < |xs| && Sum(xs) > 0.0
    ensures Normalized(xs)[i] * Sum(xs) == xs[i]
  {
    hide Sum, Times;
    Cancel(xs[i], Sum(xs));
    TimesIs(Normalized(xs)[i], Sum(xs));
  }

  lemma TimesIs(x: real, y: real)
    ensures Times(x, y) == x * y
  {
  }

  lemma Cancel(x: real, s: real)
    requires s != 0.0
    ensures Times(Times(x, Inverse(s)), s) == x
  {
  }

  lemma TimesLaws(x: real, y: real, z: real)
    ensures Times(x, y) == Times(y, x)
    ensures Times(Times(x, y), z) == Times(x, Times(y, z)) == Times(Times(x, z), y)
    ensures Times(x, 1.0) == x
  {
  }

  /** a is to b as x is to y. */
  predicate Alike(a: real, b: real, x: real, y: real) {
    Times(a, y) == Times(b, x)
  }

  /** Scaling both of a pair keeps their ratio to any other. */
  lemma Scaled(a: real, b: real, x: real, y: real, s: real)
    requires Alike(a, b, x, y)
    ensures Alike(a, b, Times(x, s), Times(y, s))
  {
    hide Times;
    TimesLaws(a, y, s);
    TimesLaws(b, x, s);
  }

  lemma ScaledPair(x: real, y: real, s: real)
    ensures Alike(Times(x, s), Times(y, s), x, y)
  {
    hide Times;
    TimesLaws(x, s, y);
    TimesLaws(y, s, x);
    TimesLaws(x, y, s);
  }

  lemma NormalizedRatio(xs: seq<real>, i: nat, j: nat)
    requires i < |xs| && j < |xs| && Sum(xs) > 0.0
    ensures Alike(Normalized(xs)[i], Normalized(xs)[j], xs[i], xs[j])
  {
    hide Sum, Times, Inverse;
    ScaledPair(xs[i], xs[j], Inverse(Sum(xs)));
  }

  // ---------- exponentials ----------

  lemma ExpSum(lib: Library, x: real, y: real)
    requires lib.Valid()
    ensures lib.exp(x + y) == Times(lib.exp(x), lib.exp(y)) && lib.exp(x) > 0.0
  {
    hide Times;
    assert lib.ExpAdds(x, y);
  }

  lemma ExpZero(lib: Library)
    requires lib.Valid()
    ensures lib.exp(0.0) == 1.0
  {
    ExpSum(lib, 0.0, 0.0);
    OneRoot(lib.exp(0.0 + 0.0));
    hide Library.Valid, Times;
  }

  lemma OneRoot(e: real)
    requires e > 0.0 && Times(e, e) == e
    ensures e == 1.0
  {
    assert e * (e - 1.0) == 0.0;
  }

  lemma ExpsPositive(lib: Library, xs: seq<real>, m: real)
    requires lib.Valid() && xs != []
    ensures Sum(Exps(lib.exp, xs, m)) > 0.0
  {
    ExpsFacts(lib, xs, m);
    SumPositive(Exps(lib.exp, xs, m));
    hide *;
  }

  lemma ShiftedExp(lib: Library, xs: seq<real>, m: real, i: nat)
    requires lib.Valid() && i < |xs|
    ensures lib.exp(xs[i]) == Times(Exps(lib.exp, xs, m)[i], lib.exp(m))
  {
    hide Times, Library.Valid;
    ExpSum(lib, xs[i] - m, m);
    assert xs[i] - m + m == xs[i];
  }

  /** Softmax weights are in the ratio of the exponentials, whatever was subtracted. */
  lemma SoftmaxRatio(lib: Library, xs: seq<real>, m: real, i: nat, j: nat)
    requires lib.Valid() && i < |xs| && j < |xs|
    ensures var ws := SoftmaxOf(lib.exp, xs, m); Alike(ws[i], ws[j], lib.exp(xs[i]), lib.exp(xs[j]))
  {
    hide Times, Library.Valid, Sum, Normalized, Exps, Alike;
    var ws, es := SoftmaxOf(lib.exp, xs, m), Exps(lib.exp, xs, m);
    ExpsPositive(lib, xs, m);
    NormalizedRatio(es, i, j);
    ShiftedExp(lib, xs, m, i);
    ShiftedExp(lib, xs, m, j);
    Scaled(ws[i], ws[j], es[i], es[j], lib.exp(m));
  }

  // ---------- temperature ----------

  function Pow(x: real, n: nat): real {
    if n == 0 then 1.0 else Times(Pow(x, n - 1), x)
  }

  lemma {:induction false} PowExp(lib: Library, x: real, n: nat)
    requires lib.Valid()
    ensures Pow(lib.exp(x), n) == lib.exp(Times(n as real, x))
  {
    hide Library.Valid, Times;
    if n == 0 {
      ExpZero(lib);
      TimesZero(x);
    } else {
      PowExp(lib, x, n - 1);
      ExpSum(lib, Times((n - 1) as real, x), x);
      OneMore((n - 1) as real, x);
    }
  }

  lemma TimesZero(x: real)
    ensures Times(0.0, x) == 0.0
  {
  }

  lemma OneMore(n: real, x: real)
    ensures Times(n, x) + x == Times(n + 1.0, x)
  {
  }

  lemma {:induction false} PowTimes(x: real, y: real, n: nat)
    ensures Pow(Times(x, y), n) == Times(Pow(x, n), Pow(y, n))
  {
    hide Times;
    if n == 0 {
      TimesLaws(1.0, 1.0, 1.0);
    } else {
      PowTimes(x, y, n - 1);
      Regroup(Pow(x, n - 1), Pow(y, n - 1), x, y);
    }
  }

  lemma Regroup(a: real, b: real, x: real, y: real)
    ensures Times(Times(a, b), Times(x, y)) == Times(Times(a, x), Times(b, y))
  {
    hide Times;
    TimesLaws(a, b, Times(x, y));
    TimesLaws(b, x, y);
    TimesLaws(a, x, Times(b, y));
    TimesLaws(b, y, x);
    TimesLaws(x, b, y);
  }

  lemma Pows(a: real, b: real, x: real, y: real, l: nat)
    requires Alike(a, b, x, y)
    ensures Alike(Pow(a, l), Pow(b, l), Pow(x, l), Pow(y, l))
  {
    hide Times, Pow;
    PowTimes(a, y, l);
    PowTimes(b, x, l);
  }

  /** At temperature T = l / k the log-probability is divided so that l times it is k times the original. */
  lemma Divided(T: real, k: nat, l: nat, x: real)
    requires T > 0.0 && T * k as real == l as real
    ensures Times(l as real, Times(x, Inverse(T))) == Times(k as real, x)
  {
    var kr, y := k as real, Times(x, Inverse(T));
    TimesIs(T, kr);
    Cancel(x, T);
    hide Times, Inverse;
    TimesLaws(T, kr, y);
    TimesLaws(kr, y, T);
    TimesLaws(kr, T, y);
  }

  lemma PowOfLog(lib: Library, T: real, p: real, k: nat, l: nat)
    requires lib.Valid() && p > 0.0 && T > 0.0 && T * k as real == l as real
    ensures Pow(lib.exp(Times(lib.ln(p), Inverse(T))), l) == Pow(p, k)
  {
    hide Times, Inverse, Pow;
    assert lib.exp(lib.ln(p)) == p;
    PowExp(lib, Times(lib.ln(p), Inverse(T)), l);
    PowExp(lib, lib.ln(p), k);
    Divided(T, k, l, lib.ln(p));
    hide Library.Valid;
  }

  /** exp(ln p / T). */
  function Tempered(lib: Library, T: real, p: real): real
    requires T != 0.0
  {
    lib.exp(Times(lib.ln(p), Inverse(T)))
  }

  /** Away from temperature one the weights are in the ratio of exp(ln p / T). */
  lemma ReweighedRatio(lib: Library, T: real, ps: seq<real>, ws: seq<real>, i: nat, j: nat)
    requires lib.Valid() && T > 0.0 && IsReweighed(lib, T, ps, ws) && |ws| == |ps| && i < |ps| && j < |ps|
    requires T < 0.999999 || T > 1.000001
    ensures Alike(ws[i], ws[j], Tempered(lib, T, ps[i]), Tempered(lib, T, ps[j]))
  {
    hide Library.Valid, SoftmaxOf, Times, Inverse, Alike, Normalized;
    var logs := Logs(lib.ln, T, ps);
    var m :| IsMax(logs, m) && ws == SoftmaxOf(lib.exp, logs, m);
    SoftmaxRatio(lib, logs, m, i, j);
  }

  /** Around temperature one they are in the ratio of the probabilities. */
  lemma PlainRatio(lib: Library, T: real, ps: seq<real>, ws: seq<real>, i: nat, j: nat)
    requires 0.999999 <= T <= 1.000001 && Positive(ps) && IsReweighed(lib, T, ps, ws)
    requires i < |ps| && j < |ps|
    ensures |ws| == |ps| && Alike(ws[i], ws[j], ps[i], ps[j])
  {
    hide SoftmaxOf, Times, Inverse, Alike, Normalized, Sum, Logs, IsMax;
    SumPositive(ps);
    NormalizedRatio(ps, i, j);
  }

  /** The weights are p to the power 1/T, up to a common factor: at T = l / k their l-th powers are in the
      ratio of the k-th powers of the probabilities. */
  lemma TemperatureIsPower(lib: Library, T: real, ps: seq<real>, ws: seq<real>, k: nat, l: nat, i: nat, j: nat)
    requires lib.Valid() && T > 0.0 && Positive(ps) && IsReweighed(lib, T, ps, ws) && |ws| == |ps|
    requires i < |ps| && j < |ps| && T * k as real == l as real
    ensures T < 0.999999 || T > 1.000001 ==> Pow(ws[i], l) * Pow(ps[j], k) == Pow(ws[j], l) * Pow(ps[i], k)
    ensures 0.999999 <= T <= 1.000001 ==> ws[i] * ps[j] == ws[j] * ps[i]
  {
    hide Library.Valid, IsReweighed, Times, Pow, Inverse;
    if 0.999999 <= T <= 1.000001 {
      PlainRatio(lib, T, ps, ws, i, j);
      AlikeIs(ws[i], ws[j], ps[i], ps[j]);
    } else {
      var x, y := Tempered(lib, T, ps[i]), Tempered(lib, T, ps[j]);
      ReweighedRatio(lib, T, ps, ws, i, j);
      Pows(ws[i], ws[j], x, y, l);
      PowOfLog(lib, T, ps[i], k, l);
      PowOfLog(lib, T, ps[j], k, l);
      AlikeIs(Pow(ws[i], l), Pow(ws[j], l), Pow(ps[i], k), Pow(ps[j], k));
    }
  }

  lemma AlikeIs(a: real, b: real, x: real, y: real)
    requires Alike(a, b, x, y)
    ensures a * y == b * x
  {
  }

  /** Below temperature one the odds of the likelier of two candidates do not fall, above one they do not
      rise. */
  lemma TemperatureSharpens(lib: Library, T: real, ps: seq<real>, ws: seq<real>, i: nat, j: nat)
    requires lib.Valid() && T > 0.0 && Positive(ps) && IsReweighed(lib, T, ps, ws) && |ws| == |ps| && Positive(ws)
    requires i < |ps| && j < |ps| && ps[i] >= ps[j]
    ensures T <= 1.0 ==> ws[i] * ps[j] >= ws[j] * ps[i]
    ensures T >= 1.0 ==> ws[i] * ps[j] <= ws[j] * ps[i]
  {
    hide Library.Valid, IsReweighed, Times, Inverse, Alike, Tempered;
    if 0.999999 <= T <= 1.000001 {
      PlainRatio(lib, T, ps, ws, i, j);
      AlikeIs(ws[i], ws[j], ps[i], ps[j]);
    } else {
      var x, y := Tempered(lib, T, ps[i]), Tempered(lib, T, ps[j]);
      ReweighedRatio(lib, T, ps, ws, i, j);
      Odds(lib, T, ps[i], ps[j]);
      Compare(ws[i], ws[j], x, y, ps[i], ps[j]);
    }
  }

  /** When x : y is at least p : q, so is anything in the ratio x : y. */
  lemma Compare(a: real, b: real, x: real, y: real, p: real, q: real)
    requires Alike(a, b, x, y) && a > 0.0 && b > 0.0 && x > 0.0 && y > 0.0
    ensures Times(x, q) >= Times(y, p) ==> a * q >= b * p
    ensures Times(x, q) <= Times(y, p) ==> a * q <= b * p
  {
    var d := x * q - y * p;
    assert b * x * q == a * y * q;
    assert b * d == y * (a * q - b * p) by {
      assert b * d == b * x * q - b * y * p;
      assert y * (a * q - b * p) == a * y * q - b * y * p;
    }
    SameSign(b, d, y, a * q - b * p);
  }

  lemma SameSign(b: real, d: real, y: real, e: real)
    requires b > 0.0 && y > 0.0 && b * d == y * e
    ensures d >= 0.0 ==> e >= 0.0
    ensures d <= 0.0 ==> e <= 0.0
  {
    if d >= 0.0 {
      assert b * d >= 0.0;
    }
    if d <= 0.0 {
      assert b * d <= 0.0;
    }
  }

  /** exp(ln p / T) compared with p. */
  lemma Odds(lib: Library, T: real, p: real, q: real)
    requires lib.Valid() && T > 0.0 && p >= q > 0.0
    ensures var x, y := Tempered(lib, T, p), Tempered(lib, T, q);
            && x > 0.0 && y > 0.0
            && (T <= 1.0 ==> Times(x, q) >= Times(y, p)) && (T >= 1.0 ==> Times(x, q) <= Times(y, p))
  {
    hide Times, Inverse;
    var a, b, u := lib.ln(p), lib.ln(q), Inverse(T);
    LnMonotone(lib, p, q);
    hide Library.Valid;
    ExpSum(lib, Times(a, u), b);
    ExpSum(lib, Times(b, u), a);
    Stretched(a, b, T);
    ExpMonotone(lib, Times(a, u) + b, Times(b, u) + a);
  }

  lemma ExpMonotone(lib: Library, x: real, y: real)
    requires lib.Valid()
    ensures x <= y ==> lib.exp(x) <= lib.exp(y)
    ensures y <= x ==> lib.exp(y) <= lib.exp(x)
  {
  }

  lemma LnMonotone(lib: Library, p: real, q: real)
    requires lib.Valid() && p >= q > 0.0
    ensures lib.ln(p) >= lib.ln(q) && lib.exp(lib.ln(p)) == p && lib.exp(lib.ln(q)) == q
  {
    hide Times;
    assert lib.exp(lib.ln(p)) == p && lib.exp(lib.ln(q)) == q;
    if p > q {
      ExpMonotone(lib, lib.ln(p), lib.ln(q));
    }
  }

  lemma Stretched(a: real, b: real, T: real)
    requires a >= b && T > 0.0
    ensures T <= 1.0 ==> Times(a, Inverse(T)) + b >= Times(b, Inverse(T)) + a
    ensures T >= 1.0 ==> Times(a, Inverse(T)) + b <= Times(b, Inverse(T)) + a
  {
    var u := Inverse(T);
    InverseSize(T);
    var d, e := a - b, u - 1.0;
    assert T <= 1.0 ==> d * e >= 0.0;
    assert T >= 1.0 ==> d * e <= 0.0;
    assert d * e == Times(a, u) - Times(b, u) - a + b;
  }

  lemma InverseSize(T: real)
    requires T > 0.0
    ensures T <= 1.0 ==> Inverse(T) >= 1.0
    ensures T >= 1.0 ==> Inverse(T) <= 1.0
  {
  }

  /** Probabilities 0.8 and 0.2 at temperature one half: 16/17 and 1/17. */
  lemma HalfTemperature(lib: Library, ws: seq<real>)
    requires lib.Valid() && IsReweighed(lib, 0.5, [0.8, 0.2], ws) && |ws| == 2 && Sum(ws) == 1.0
    ensures ws[0] == 16.0 / 17.0 && ws[1] == 1.0 / 17.0
  {
    hide Library.Valid, IsReweighed, Sum, Pow;
    TemperatureIsPower(lib, 0.5, [0.8, 0.2], ws, 2, 1, 0, 1);
    SmallPowers(ws[0]);
    SmallPowers(ws[1]);
    SmallPowers(0.2);
    SmallPowers(0.8);
    SumAppend([ws[0]], [ws[1]]);
    assert ws == [ws[0]] + [ws[1]];
    SumOne(ws[0]);
    SumOne(ws[1]);
  }

  lemma SmallPowers(x: real)
    ensures Pow(x, 1) == x && Pow(x, 2) == x * x
  {
    assert Pow(x, 0) == 1.0;
    assert Pow(x, 2) == Times(Pow(x, 1), x);
  }

  // ---------- at the boundaries ----------

  lemma {:induction false} SumGrows(ps: seq<real>, i: nat, j: nat)
    requires Positive(ps) && i <= j <= |ps|
    ensures i < j ==> Sum(ps[..i]) < Sum(ps[..j])
  {
    if i < j {
      SumNext(ps, j - 1);
      hide Sum;
      SumGrows(ps, i, j - 1);
    }
  }

  /** A prefix whose mass is exactly top_p is not enough: one more candidate is taken. */
  lemma TopPIsExceeded(ps: seq<real>, i: nat, n: nat)
    requires Positive(ps) && 0 < i < |ps| && IsCutoff(ps, Sum(ps[..i]), n)
    ensures n == i + 1
  {
    hide Sum;
    SumGrows(ps, i, i + 1);
    if n <= i {
      SumGrows(ps, n, i);
    }
  }

  /** A candidate of exactly min_p times the first probability is kept. */
  lemma MinPIsReached(ps: seq<real>, n: nat, minP: real, m: nat, i: nat)
    requires IsKept(ps, n, minP, m) && i < n && ps[i] == minP * ps[0]
    ensures i < m
  {
    TimesIs(minP, ps[0]);
  }

  /** A running sum that equals the threshold is enough. */
  lemma ThresholdIsReached(ws: seq<real>, i: nat, j: nat)
    requires Positive(ws) && i < |ws| && IsDrawn(ws, Sum(ws[..i + 1]), j)
    ensures j == i
  {
    hide Sum;
    if j < i {
      SumGrows(ws, j + 1, i + 1);
    }
  }

  // ---------- the random number ----------

  /** The threshold is the random word over 2^64 - 1. */
  lemma ThresholdIs(r: bv64)
    ensures Threshold(r) * 18446744073709551615.0 == r as int as real
  {
    Cancelled(r as int, Threshold(r));
    hide *;
  }

  lemma Cancelled(x: int, y: real)
    requires y == x as real / U64_MAX
    ensures y * 18446744073709551615.0 == x as real
  {
  }
}
