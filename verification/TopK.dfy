/** Top-k selection with a hand-written min-heap (src/inference/sample.rs, step 1 of `sample`). Logits are
    reals. The reference is the multiset of the k largest values. */
module TopK {
  import opened Options

  /** A candidate: token index and value. */
  type Cand = (nat, real)

  function Vals(c: seq<Cand>): (r: seq<real>)
    ensures |r| == |c| && forall i :: 0 <= i < |c| ==> r[i] == c[i].1
  {
    seq(|c|, i requires 0 <= i < |c| => c[i].1)
  }

  // ---------- the k largest ----------

  /** `top` is a choice of k elements of `all` that no left-out element exceeds. */
  ghost predicate IsTop(all: multiset<real>, top: multiset<real>, k: nat) {
    top <= all && |top| == k && forall x, y :: x in top && y in all - top ==> y <= x
  }

  lemma SameSize(a: multiset<real>, b: multiset<real>)
    requires a <= b && |a| == |b|
    ensures a == b
  {
    assert b == a + (b - a);
  }

  lemma SomeMore(a: multiset<real>, b: multiset<real>)
    requires |a| == |b| && a != b
    ensures exists x :: x in a && a[x] > b[x]
  {
    if forall x :: a[x] <= b[x] {
      SameSize(a, b);
    } else {
      var x :| a[x] > b[x];
      assert x in a;
    }
  }

  /** An element one choice has more of and an element the other has more of are equal in value. */
  lemma Exchange(all: multiset<real>, a: multiset<real>, b: multiset<real>, k: nat, x: real, y: real)
    requires IsTop(all, a, k) && IsTop(all, b, k) && a[x] > b[x] && b[y] > a[y]
    ensures x == y
  {
    assert x in all - b && y in all - a;
  }

  /** The k largest values are determined: whatever way they are selected, the multiset is the same. */
  lemma TopUnique(all: multiset<real>, a: multiset<real>, b: multiset<real>, k: nat)
    requires IsTop(all, a, k) && IsTop(all, b, k)
    ensures a == b
  {
    if a != b {
      SomeMore(a, b);
      SomeMore(b, a);
      var x :| x in a && a[x] > b[x];
      var y :| y in b && b[y] > a[y];
      hide IsTop;
      Exchange(all, a, b, k, x, y);
    }
  }

  predicate Descending(s: seq<real>) {
    forall i, j :: 0 <= i < j < |s| ==> s[j] <= s[i]
  }

  /** Sort-and-take-k is such a choice, so the heap's values equal it. */
  lemma SortedTop(all: multiset<real>, sorted: seq<real>, k: nat)
    requires multiset(sorted) == all && Descending(sorted) && k <= |sorted|
    ensures IsTop(all, multiset(sorted[..k]), k)
  {
    assert sorted == sorted[..k] + sorted[k..];
    assert all - multiset(sorted[..k]) == multiset(sorted[k..]);
    forall x, y | x in multiset(sorted[..k]) && y in multiset(sorted[k..])
      ensures y <= x
    {
      assert x in sorted[..k] && y in sorted[k..];
    }
  }

  // ---------- candidates ----------

  /** Every candidate is a different index below i, with its own value. */
  ghost predicate Own(logits: seq<real>, i: nat, c: seq<Cand>) {
    && i <= |logits|
    && (forall a :: 0 <= a < |c| ==> c[a].0 < i && c[a].1 == logits[c[a].0])
    && (forall a, b :: 0 <= a < b < |c| ==> c[a].0 != c[b].0)
  }

  /** The candidates after the first i logits. */
  ghost predicate Selected(logits: seq<real>, i: nat, k: nat, c: seq<Cand>) {
    && Own(logits, i, c)
    && IsTop(multiset(logits[..i]), multiset(Vals(c)), if i < k then i else k)
  }

  // ---------- the heap ----------

  function Parent(c: nat): (p: nat)
    requires 0 < c
    ensures p < c
  {
    (c - 1) / 2
  }

  predicate Ordered(s: seq<Cand>, c: nat)
    requires 0 < c < |s|
  {
    s[Parent(c)].1 <= s[c].1
  }

  ghost predicate Heap(s: seq<Cand>) {
    forall c: nat :: 0 < c < |s| ==> Ordered(s, c)
  }

  /** The root of a min-heap is a least element. */
  lemma {:induction false} RootIsLeast(s: seq<Cand>, c: nat)
    requires Heap(s) && c < |s|
    ensures s[0].1 <= s[c].1
  {
    if c > 0 {
      RootIsLeast(s, Parent(c));
      assert Ordered(s, c);
    }
  }

  function Swap(s: seq<Cand>, i: nat, j: nat): (r: seq<Cand>)
    requires i < |s| && j < |s|
    ensures |r| == |s|
  {
    s[i := s[j]][j := s[i]]
  }

  lemma SwapKeeps(logits: seq<real>, n: nat, s: seq<Cand>, i: nat, j: nat)
    requires i < |s| && j < |s| && Own(logits, n, s)
    ensures Own(logits, n, Swap(s, i, j)) && multiset(Vals(Swap(s, i, j))) == multiset(Vals(s))
  {
    var v := Vals(s);
    assert Vals(Swap(s, i, j)) == v[i := v[j]][j := v[i]];
  }

  /** A heap except that the element at `hole` may be smaller than its parent; its children respect the
      hole's parent. */
  ghost predicate UpHeap(s: seq<Cand>, hole: nat) {
    && (forall c: nat :: 0 < c < |s| && c != hole ==> Ordered(s, c))
    && (forall c: nat :: 0 < c < |s| && Parent(c) == hole && hole > 0 ==> s[Parent(hole)].1 <= s[c].1)
  }

  /** A heap except that the element at `hole` may be larger than its children; they respect its parent. */
  ghost predicate DownHeap(s: seq<Cand>, hole: nat) {
    && (forall c: nat :: 0 < c < |s| && Parent(c) != hole ==> Ordered(s, c))
    && (forall c: nat :: 0 < c < |s| && Parent(c) == hole && 0 < hole < |s| ==> s[Parent(hole)].1 <= s[c].1)
  }

  lemma SwapUp(s: seq<Cand>, c: nat)
    requires UpHeap(s, c) && 0 < c < |s| && s[c].1 < s[Parent(c)].1
    ensures UpHeap(Swap(s, c, Parent(c)), Parent(c))
  {
    var p, r := Parent(c), Swap(s, c, Parent(c));
    forall d: nat | 0 < d < |r| && d != p
      ensures Ordered(r, d)
    {
      assert d != c ==> Ordered(s, d);
      assert p > 0 ==> Ordered(s, p);
    }
    forall d: nat | 0 < d < |r| && Parent(d) == p && p > 0
      ensures r[Parent(p)].1 <= r[d].1
    {
      assert Ordered(s, p);
      assert d != c ==> Ordered(s, d);
    }
  }

  lemma UpDone(s: seq<Cand>, c: nat)
    requires UpHeap(s, c) && c < |s| && (c > 0 ==> s[Parent(c)].1 <= s[c].1)
    ensures Heap(s)
  {
    forall d: nat | 0 < d < |s|
      ensures Ordered(s, d)
    {
    }
  }

  /** candidates.push, then sift up. */
  method Push(logits: seq<real>, n: nat, s: seq<Cand>, x: Cand) returns (r: seq<Cand>)
    requires Heap(s) && Own(logits, n, s + [x])
    ensures Heap(r) && |r| == |s| + 1 && Own(logits, n, r) && multiset(Vals(r)) == multiset(Vals(s)) + multiset{x.1}
  {
    r := s + [x];
    PushStart(s, x);
    var c: nat := |r| - 1;
    hide Heap, UpHeap, Own, Vals, Swap;
    while c > 0
      invariant c < |r| == |s| + 1 && UpHeap(r, c) && Own(logits, n, r)
      invariant multiset(Vals(r)) == multiset(Vals(s)) + multiset{x.1}
    {
      var p: nat := (c - 1) / 2;
      if r[c].1 < r[p].1 {
        SwapUp(r, c);
        SwapKeeps(logits, n, r, c, p);
        r := Swap(r, c, p);
        c := p;
      } else {
        break;
      }
    }
    UpDone(r, c);
  }

  lemma PushStart(s: seq<Cand>, x: Cand)
    requires Heap(s)
    ensures UpHeap(s + [x], |s|) && multiset(Vals(s + [x])) == multiset(Vals(s)) + multiset{x.1}
  {
    var r := s + [x];
    assert Vals(r) == Vals(s) + [x.1];
    forall c: nat | 0 < c < |r| && c != |s|
      ensures Ordered(r, c)
    {
      assert Ordered(s, c);
    }
  }

  lemma SwapDown(s: seq<Cand>, p: nat, m: nat)
    requires DownHeap(s, p) && p < |s| && 0 < m < |s| && Parent(m) == p && s[m].1 < s[p].1
    requires forall c: nat :: 0 < c < |s| && Parent(c) == p ==> s[m].1 <= s[c].1
    ensures DownHeap(Swap(s, p, m), m)
  {
    var r := Swap(s, p, m);
    forall d: nat | 0 < d < |r| && Parent(d) != m
      ensures Ordered(r, d)
    {
      assert Parent(d) != p ==> Ordered(s, d);
    }
    forall d: nat | 0 < d < |r| && Parent(d) == m
      ensures r[Parent(m)].1 <= r[d].1
    {
      assert Ordered(s, d);
    }
  }

  lemma DownDone(s: seq<Cand>, p: nat)
    requires DownHeap(s, p) && forall c: nat :: 0 < c < |s| && Parent(c) == p ==> s[p].1 <= s[c].1
    ensures Heap(s)
  {
    forall d: nat | 0 < d < |s|
      ensures Ordered(s, d)
    {
    }
  }

  /** Index of the least of a node and its children. */
  method LeastChild(s: seq<Cand>, p: nat) returns (m: nat)
    requires p < |s|
    ensures m < |s| && (m == p || (m > 0 && Parent(m) == p && s[m].1 < s[p].1))
    ensures forall c: nat :: 0 < c < |s| && Parent(c) == p ==> s[m].1 <= s[c].1
  {
    var l, r := 2 * p + 1, 2 * p + 2;
    m := p;
    if l < |s| && s[l].1 < s[m].1 {
      m := l;
    }
    if r < |s| && s[r].1 < s[m].1 {
      m := r;
    }
    forall c: nat | 0 < c < |s| && Parent(c) == p
      ensures c == l || c == r
    {
    }
  }

  /** candidates[0] = x, then sift down. */
  method ReplaceRoot(logits: seq<real>, n: nat, s: seq<Cand>, x: Cand) returns (r: seq<Cand>)
    requires Heap(s) && s != [] && Own(logits, n, s[0 := x])
    ensures Heap(r) && |r| == |s| && Own(logits, n, r)
    ensures multiset(Vals(r)) == multiset(Vals(s)) - multiset{s[0].1} + multiset{x.1}
  {
    r := s[0 := x];
    ReplaceStart(s, x);
    var p: nat := 0;
    hide Heap, DownHeap, Own, Vals, Swap;
    while true
      invariant p < |r| == |s| && DownHeap(r, p) && Own(logits, n, r)
      invariant multiset(Vals(r)) == multiset(Vals(s)) - multiset{s[0].1} + multiset{x.1}
      decreases |r| - p
    {
      var m := LeastChild(r, p);
      if m == p {
        break;
      }
      SwapDown(r, p, m);
      SwapKeeps(logits, n, r, p, m);
      r := Swap(r, p, m);
      p := m;
    }
    DownDone(r, p);
  }

  lemma ReplaceStart(s: seq<Cand>, x: Cand)
    requires Heap(s) && s != []
    ensures DownHeap(s[0 := x], 0) && multiset(Vals(s[0 := x])) == multiset(Vals(s)) - multiset{s[0].1} + multiset{x.1}
  {
    var r, v := s[0 := x], Vals(s);
    assert Vals(r) == v[0 := x.1];
    assert v == [v[0]] + v[1..] && v[0 := x.1] == [x.1] + v[1..];
    forall c: nat | 0 < c < |r| && Parent(c) != 0
      ensures Ordered(r, c)
    {
      assert Ordered(s, c);
    }
  }

  // ---------- the scan ----------

  lemma PrefixNext(logits: seq<real>, i: nat)
    requires i < |logits|
    ensures multiset(logits[..i + 1]) == multiset(logits[..i]) + multiset{logits[i]}
  {
    assert logits[..i + 1] == logits[..i] + [logits[i]];
  }

  /** Fewer than k so far: the next logit joins. */
  lemma TakeNext(all: multiset<real>, top: multiset<real>, i: nat, v: real)
    requires IsTop(all, top, i) && |all| == i
    ensures IsTop(all + multiset{v}, top + multiset{v}, i + 1)
  {
    SameSize(top, all);
  }

  /** The next logit is no larger than the least candidate. */
  lemma SkipNext(all: multiset<real>, top: multiset<real>, k: nat, v: real)
    requires IsTop(all, top, k) && forall x :: x in top ==> v <= x
    ensures IsTop(all + multiset{v}, top, k)
  {
    forall x, y | x in top && y in all + multiset{v} - top
      ensures y <= x
    {
      assert y == v || y in all - top;
    }
  }

  /** The next logit replaces the least candidate. */
  lemma SwapNext(all: multiset<real>, top: multiset<real>, k: nat, least: real, v: real)
    requires IsTop(all, top, k) && least in top && (forall x :: x in top ==> least <= x) && least < v
    ensures IsTop(all + multiset{v}, top - multiset{least} + multiset{v}, k)
  {
    var top' := top - multiset{least} + multiset{v};
    assert top' <= all + multiset{v} && |top'| == k;
    forall x, y | x in top' && y in all + multiset{v} - top'
      ensures y <= x
    {
      assert x == v || x in top;
      assert y == least || y in all - top;
    }
  }

  lemma LeastCand(s: seq<Cand>)
    requires Heap(s) && s != []
    ensures s[0].1 in multiset(Vals(s)) && forall x :: x in multiset(Vals(s)) ==> s[0].1 <= x
  {
    assert Vals(s)[0] == s[0].1;
    forall x | x in multiset(Vals(s))
      ensures s[0].1 <= x
    {
      var c: nat :| c < |s| && Vals(s)[c] == x;
      RootIsLeast(s, c);
    }
  }

  lemma OwnPush(logits: seq<real>, i: nat, s: seq<Cand>)
    requires Own(logits, i, s) && i < |logits|
    ensures Own(logits, i + 1, s + [(i, logits[i])])
    ensures Own(logits, i + 1, s) && (s != [] ==> Own(logits, i + 1, s[0 := (i, logits[i])]))
  {
  }

  lemma PushSelected(logits: seq<real>, i: nat, k: nat, c: seq<Cand>, c': seq<Cand>)
    requires i < k && i < |logits| && Selected(logits, i, k, c) && Own(logits, i + 1, c')
    requires multiset(Vals(c')) == multiset(Vals(c)) + multiset{logits[i]}
    ensures Selected(logits, i + 1, k, c')
  {
    hide Own, IsTop;
    PrefixNext(logits, i);
    TakeNext(multiset(logits[..i]), multiset(Vals(c)), i, logits[i]);
  }

  lemma SwapSelected(logits: seq<real>, i: nat, k: nat, c: seq<Cand>, c': seq<Cand>)
    requires k <= i < |logits| && Selected(logits, i, k, c) && Own(logits, i + 1, c')
    requires Heap(c) && c != [] && logits[i] > c[0].1
    requires multiset(Vals(c')) == multiset(Vals(c)) - multiset{c[0].1} + multiset{logits[i]}
    ensures Selected(logits, i + 1, k, c')
  {
    hide Own, IsTop, Heap;
    PrefixNext(logits, i);
    LeastCand(c);
    SwapNext(multiset(logits[..i]), multiset(Vals(c)), k, c[0].1, logits[i]);
  }

  lemma SkipSelected(logits: seq<real>, i: nat, k: nat, c: seq<Cand>)
    requires k <= i < |logits| && Selected(logits, i, k, c) && Own(logits, i + 1, c)
    requires Heap(c) && c != [] && logits[i] <= c[0].1
    ensures Selected(logits, i + 1, k, c)
  {
    hide Own, IsTop, Heap;
    PrefixNext(logits, i);
    LeastCand(c);
    SkipNext(multiset(logits[..i]), multiset(Vals(c)), k, logits[i]);
  }

  lemma SelectedSize(logits: seq<real>, i: nat, k: nat, c: seq<Cand>)
    requires Selected(logits, i, k, c)
    ensures |c| == (if i < k then i else k) && Own(logits, i, c)
  {
    assert |multiset(Vals(c))| == |c|;
  }

  lemma NoneSelected(logits: seq<real>, k: nat)
    ensures Selected(logits, 0, k, []) && Heap([])
  {
    assert logits[..0] == [] && Vals([]) == [];
  }

  /** Step 1 of `sample`: one scan over the logits. With top_k at zero nothing is ever pushed, and the
      first logit is compared with a candidate that does not exist: the original panics. */
  method SelectTopK(logits: seq<real>, topK: nat) returns (r: Option<seq<Cand>>)
    ensures r.None? <==> topK == 0 && logits != []
    ensures r.Some? ==> Selected(logits, |logits|, topK, r.value) && Heap(r.value)
  {
    hide Own, Heap, IsTop, Selected, Vals;
    var c := [];
    NoneSelected(logits, topK);
    for i := 0 to |logits|
      invariant Selected(logits, i, topK, c) && Heap(c) && (topK == 0 ==> i == 0)
    {
      var v := logits[i];
      SelectedSize(logits, i, topK, c);
      OwnPush(logits, i, c);
      ghost var before := c;
      if |c| < topK {
        c := Push(logits, i + 1, c, (i, v));
        PushSelected(logits, i, topK, before, c);
      } else if c == [] {
        return None;
      } else if v > c[0].1 {
        c := ReplaceRoot(logits, i + 1, c, (i, v));
        SwapSelected(logits, i, topK, before, c);
      } else {
        SkipSelected(logits, i, topK, c);
      }
    }
    r := Some(c);
  }

  /** The values selected are the k largest: those of any descending sort of the logits, cut at k. */
  lemma SelectedIsSortAndTake(logits: seq<real>, topK: nat, c: seq<Cand>, sorted: seq<real>)
    requires Selected(logits, |logits|, topK, c) && Descending(sorted) && multiset(sorted) == multiset(logits)
    ensures |sorted| == |logits| && |c| == if |logits| < topK then |logits| else topK
    ensures multiset(Vals(c)) == multiset(sorted[..|c|])
  {
    assert |multiset(sorted)| == |sorted| && |multiset(logits)| == |logits| && |multiset(Vals(c))| == |c|;
    assert logits[..|logits|] == logits;
    SortedTop(multiset(logits), sorted, |c|);
    TopUnique(multiset(logits), multiset(Vals(c)), multiset(sorted[..|c|]), |c|);
  }
}
