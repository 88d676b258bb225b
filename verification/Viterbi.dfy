/** The unigram Viterbi encoder (src/inference/tokenizer.rs, encode_sentencepiece), with real-valued scores. */
module Viterbi {
  import opened Tokens
  import SpaceMark

  const MAX_TOK_LEN: nat := 64

  /** A total log-score, or minus infinity. */
  datatype Score = NegInf | Fin(value: real)

  /** One step of a segmentation: up to position `to` with token `id`. */
  datatype Edge = Edge(to: nat, id: nat)

  /** Tables of the encoder and the text being encoded. */
  datatype Task = Task(tk: Tokenizer, scores: seq<real>, bytes: Bytes)
  {
    ghost predicate Valid() {
      tk.Valid() && |scores| == |tk.vocab|
    }

    /** The vocabulary piece bytes[i..j], of at most 64 bytes. */
    predicate IsPiece(i: nat, e: Edge) {
      && i < e.to <= |bytes| && e.to <= i + MAX_TOK_LEN
      && bytes[i..e.to] in tk.tokenToId && tk.tokenToId[bytes[i..e.to]] == e.id
    }

    /** The byte-fallback token of byte i. */
    predicate IsFallback(i: nat, e: Edge) {
      && i < |bytes| && e.to == i + 1 && |tk.byteFallback| == 256
      && tk.byteFallback[bytes[i] as nat] == e.id != NO_TOKEN
    }

    predicate EdgeOk(i: nat, e: Edge) {
      IsPiece(i, e) || IsFallback(i, e)
    }

    function Weight(id: nat): real {
      if id < |scores| then scores[id] else 0.0
    }
  }

  // ---------- segmentations ----------

  function End(path: seq<Edge>): nat {
    if path == [] then 0 else path[|path| - 1].to
  }

  /** A segmentation of the first End(path) bytes. */
  ghost predicate IsPath(t: Task, path: seq<Edge>) {
    path != [] ==> var last := |path| - 1; IsPath(t, path[..last]) && t.EdgeOk(End(path[..last]), path[last])
  }

  function Total(t: Task, path: seq<Edge>): real {
    if path == [] then 0.0 else Total(t, path[..|path| - 1]) + t.Weight(path[|path| - 1].id)
  }

  function Ids(path: seq<Edge>): seq<nat> {
    seq(|path|, k requires 0 <= k < |path| => path[k].id)
  }

  /** The sum of the scores of a list of tokens. */
  function ScoreSum(scores: seq<real>, ids: seq<nat>): real {
    if ids == [] then 0.0
    else
      var last := ids[|ids| - 1];
      ScoreSum(scores, ids[..|ids| - 1]) + if last < |scores| then scores[last] else 0.0
  }

  /** Of one token it is the token's score. */
  lemma ScoreSumOne(scores: seq<real>, id: nat)
    requires id < |scores|
    ensures ScoreSum(scores, [id]) == scores[id] && ScoreSum(scores, []) == 0.0
  {
    assert [id][..0] == [];
  }

  lemma {:induction false} ScoreSumAppend(scores: seq<real>, a: seq<nat>, b: seq<nat>)
    ensures ScoreSum(scores, a + b) == ScoreSum(scores, a) + ScoreSum(scores, b)
  {
    if b == [] {
      assert a + b == a;
    } else {
      var n := |b| - 1;
      assert (a + b)[..|a + b| - 1] == a + b[..n];
      ScoreSumAppend(scores, a, b[..n]);
    }
  }

  lemma ScoreSumLast(scores: seq<real>, ids: seq<nat>, n: nat)
    requires |ids| == n + 1
    ensures ScoreSum(scores, ids) == ScoreSum(scores, ids[..n]) + if ids[n] < |scores| then scores[ids[n]] else 0.0
  {
  }

  lemma CountLast(ids: seq<nat>, n: nat, id: nat)
    requires |ids| == n + 1
    ensures multiset(ids)[id] == multiset(ids[..n])[id] + if ids[n] == id then 1 else 0
  {
    assert ids == ids[..n] + [ids[n]];
  }

  lemma Once(delta: real, n: nat)
    ensures delta * (n + 1) as real == delta * n as real + delta
  {
  }

  /** Raising one token's score raises the sum by that much for every time the token occurs. */
  lemma {:induction false} ScoreSumRaised(scores: seq<real>, id: nat, delta: real, ids: seq<nat>, count: nat)
    requires id < |scores| && count == multiset(ids)[id]
    ensures ScoreSum(scores[id := scores[id] + delta], ids) == ScoreSum(scores, ids) + delta * count as real
  {
    if ids != [] {
      var n, raised := |ids| - 1, scores[id := scores[id] + delta];
      CountLast(ids, n, id);
      ScoreSumLast(scores, ids, n);
      ScoreSumLast(raised, ids, n);
      hide ScoreSum;
      if ids[n] == id {
        ScoreSumRaised(scores, id, delta, ids[..n], count - 1);
        Once(delta, count - 1);
      } else {
        ScoreSumRaised(scores, id, delta, ids[..n], count);
      }
    }
  }

  /** A path's total is the sum of the scores of its tokens. */
  lemma {:induction false} TotalIsScoreSum(t: Task, path: seq<Edge>)
    ensures Total(t, path) == ScoreSum(t.scores, Ids(path))
  {
    if path != [] {
      TotalIsScoreSum(t, path[..|path| - 1]);
      assert Ids(path)[..|path| - 1] == Ids(path[..|path| - 1]);
    }
  }

  /** Segmentations grow by a vocabulary piece of at most 64 bytes or by the fallback token of one byte, and by
      nothing else. */
  lemma PathNext(t: Task, path: seq<Edge>, e: Edge)
    ensures var i, j := if path == [] then 0 else path[|path| - 1].to, e.to;
            IsPath(t, path + [e]) <==>
              && IsPath(t, path)
              && ((i < j <= |t.bytes| && j - i <= 64 && t.bytes[i..j] in t.tk.tokenToId
                   && e.id == t.tk.tokenToId[t.bytes[i..j]])
                  || (i < |t.bytes| && j == i + 1 && |t.tk.byteFallback| == 256
                      && e.id == t.tk.byteFallback[t.bytes[i] as nat] && e.id != 0xFFFF_FFFF))
  {
    assert (path + [e])[..|path|] == path;
  }

  /** A segmentation of the whole text whose tokens' scores no other's exceed. */
  ghost predicate Best(t: Task, path: seq<Edge>) {
    && IsPath(t, path) && End(path) == |t.bytes|
    && forall q: seq<Edge> :: IsPath(t, q) && End(q) == |t.bytes| ==>
         ScoreSum(t.scores, Ids(q)) <= ScoreSum(t.scores, Ids(path))
  }

  ghost predicate Reachable(t: Task) {
    exists q: seq<Edge> :: IsPath(t, q) && End(q) == |t.bytes|
  }

  // ---------- the tables ----------

  /** best_score, best_id, best_prev, and (ghost) the segmentation they encode for each position. */
  datatype Table = Table(best: seq<Score>, ids: seq<nat>, prev: seq<nat>, paths: seq<seq<Edge>>)

  ghost predicate Sized(t: Task, d: Table) {
    |d.best| == |d.ids| == |d.prev| == |d.paths| == |t.bytes| + 1
  }

  /** Position p's entry: a segmentation ending there, extending the one of its predecessor. */
  ghost predicate EntryOk(t: Task, d: Table, i: nat, p: nat)
    requires Sized(t, d) && p <= |t.bytes|
  {
    match d.best[p]
    case NegInf => p > 0 && d.ids[p] == NO_TOKEN
    case Fin(s) =>
      && IsPath(t, d.paths[p]) && End(d.paths[p]) == p && Total(t, d.paths[p]) == s
      && (if p == 0 then d.paths[p] == []
          else d.prev[p] < p && d.prev[p] <= i && d.ids[p] != NO_TOKEN && d.best[d.prev[p]].Fin?
               && d.paths[p] == d.paths[d.prev[p]] + [Edge(p, d.ids[p])])
  }

  /** All entries are sound; predecessors are at most position i. */
  ghost predicate Sound(t: Task, d: Table, i: nat) {
    Sized(t, d) && forall p: nat :: p <= |t.bytes| ==> EntryOk(t, d, i, p)
  }

  /** The step has been taken into account. */
  ghost predicate Covered(t: Task, d: Table, a: nat, e: Edge)
    requires Sized(t, d) && a <= |t.bytes| && e.to <= |t.bytes|
  {
    d.best[a].Fin? ==> d.best[e.to].Fin? && d.best[e.to].value >= d.best[a].value + t.Weight(e.id)
  }

  /** Every step from a position below i has been. */
  ghost predicate Complete(t: Task, d: Table, i: nat)
    requires Sized(t, d) && i <= |t.bytes|
  {
    forall a: nat, e: Edge :: a < i && t.EdgeOk(a, e) ==> Covered(t, d, a, e)
  }

  predicate Better(s: real, b: Score) {
    b.NegInf? || s > b.value
  }

  /** The update of one entry. */
  function Relaxed(d: Table, i: nat, e: Edge, s: real): Table
    requires e.to < |d.best| == |d.ids| == |d.prev| == |d.paths| && i < |d.paths|
  {
    if Better(s, d.best[e.to]) then
      Table(d.best[e.to := Fin(s)], d.ids[e.to := e.id], d.prev[e.to := i], d.paths[e.to := d.paths[i] + [e]])
    else d
  }

  lemma Extend(t: Task, path: seq<Edge>, e: Edge)
    requires IsPath(t, path) && t.EdgeOk(End(path), e)
    ensures IsPath(t, path + [e]) && End(path + [e]) == e.to
    ensures Total(t, path + [e]) == Total(t, path) + t.Weight(e.id)
  {
    assert (path + [e])[..|path|] == path;
  }

  /** One relaxation from position i keeps every entry sound ... */
  lemma RelaxEntry(t: Task, d: Table, i: nat, e: Edge, s: real, p: nat)
    requires Sound(t, d, i) && i < e.to <= |t.bytes| && p <= |t.bytes| && d.best[i].Fin? && e.id != NO_TOKEN
    requires IsPath(t, d.paths[i] + [e]) && End(d.paths[i] + [e]) == e.to && Total(t, d.paths[i] + [e]) == s
    ensures Sized(t, Relaxed(d, i, e, s)) && EntryOk(t, Relaxed(d, i, e, s), i, p)
  {
    hide IsPath, Total, End, Better;
    assert EntryOk(t, d, i, p);
    var d' := Relaxed(d, i, e, s);
    if d'.best[e.to] == d.best[e.to] && d' == d {
    } else if p == e.to {
      assert Edge(p, d'.ids[p]) == e;
    } else {
      assert d'.paths[p] == d.paths[p] && d'.best[p] == d.best[p];
    }
  }

  /** ... and takes the step into account. */
  lemma RelaxSound(t: Task, d: Table, i: nat, e: Edge)
    requires Sound(t, d, i) && i < |t.bytes| && d.best[i].Fin? && t.EdgeOk(i, e) && i < e.to <= |t.bytes|
    requires e.id != NO_TOKEN
    ensures var d' := Relaxed(d, i, e, d.best[i].value + t.Weight(e.id));
            Sound(t, d', i) && Covered(t, d', i, e) && d'.best[i] == d.best[i]
  {
    var s := d.best[i].value + t.Weight(e.id);
    assert EntryOk(t, d, i, i);
    Extend(t, d.paths[i], e);
    var d' := Relaxed(d, i, e, s);
    assert Covered(t, d', i, e) && d'.best[i] == d.best[i];
    hide IsPath, Total, End, Task.EdgeOk, Task.Weight, EntryOk, Covered, Better;
    forall p: nat | p <= |t.bytes|
      ensures EntryOk(t, d', i, p)
    {
      RelaxEntry(t, d, i, e, s, p);
    }
  }

  /** Raising an entry beyond position i keeps every step already taken into account. */
  lemma RelaxCovers(t: Task, d: Table, i: nat, e: Edge, s: real, a: nat, f: Edge)
    requires Sized(t, d) && a <= i < e.to <= |t.bytes| && f.to <= |t.bytes| && Covered(t, d, a, f)
    ensures Covered(t, Relaxed(d, i, e, s), a, f)
  {
  }

  // ---------- what complete tables mean ----------

  /** No segmentation beats the table's entry for its end position. */
  lemma {:induction false} TableBeats(t: Task, d: Table, q: seq<Edge>)
    requires Sound(t, d, |t.bytes|) && Complete(t, d, |t.bytes|) && IsPath(t, q)
    ensures End(q) <= |t.bytes| && d.best[End(q)].Fin? && Total(t, q) <= d.best[End(q)].value
  {
    assert EntryOk(t, d, |t.bytes|, 0);
    if q != [] {
      var last := |q| - 1;
      TableBeats(t, d, q[..last]);
      assert Covered(t, d, End(q[..last]), q[last]);
    }
  }

  /** The full table's last entry is an optimal segmentation; it has none exactly if there is none. */
  lemma TableIsBest(t: Task, d: Table)
    requires Sound(t, d, |t.bytes|) && Complete(t, d, |t.bytes|)
    ensures d.best[|t.bytes|].Fin? <==> Reachable(t)
    ensures d.best[|t.bytes|].Fin? ==> Best(t, d.paths[|t.bytes|])
  {
    var n := |t.bytes|;
    assert EntryOk(t, d, n, n);
    hide Total, Ids, ScoreSum;
    TotalIsScoreSum(t, d.paths[n]);
    forall q: seq<Edge> | IsPath(t, q) && End(q) == n
      ensures d.best[n].Fin? && ScoreSum(t.scores, Ids(q)) <= d.best[n].value
    {
      TotalIsScoreSum(t, q);
      TableBeats(t, d, q);
    }
  }

  /** Steps from positions below i, and vocabulary pieces from i that end before j, are taken into account. */
  ghost predicate CompleteTo(t: Task, d: Table, i: nat, j: nat)
    requires Sized(t, d) && i < |t.bytes|
  {
    forall a: nat, e: Edge :: (a < i && t.EdgeOk(a, e)) || (a == i && t.IsPiece(i, e) && e.to < j) ==> Covered(t, d, a, e)
  }

  lemma RelaxCompleteTo(t: Task, d: Table, i: nat, e: Edge, j: nat)
    requires Sound(t, d, i) && i < |t.bytes| && CompleteTo(t, d, i, j) && d.best[i].Fin?
    requires t.IsPiece(i, e) && e.to == j && e.id != NO_TOKEN
    ensures var d' := Relaxed(d, i, e, d.best[i].value + t.Weight(e.id));
            Sound(t, d', i) && CompleteTo(t, d', i, j + 1) && d'.best[i] == d.best[i]
  {
    RelaxSound(t, d, i, e);
    var s := d.best[i].value + t.Weight(e.id);
    hide Relaxed, Covered;
    forall a: nat, f: Edge | (a < i && t.EdgeOk(a, f)) || (a == i && t.IsPiece(i, f) && f.to < j + 1)
      ensures Covered(t, Relaxed(d, i, e, s), a, f)
    {
      if a == i && f.to == j {
        assert f == e;
      } else {
        RelaxCovers(t, d, i, e, s, a, f);
      }
    }
  }

  lemma SkipCompleteTo(t: Task, d: Table, i: nat, j: nat)
    requires Sized(t, d) && i < j <= |t.bytes| && CompleteTo(t, d, i, j) && t.bytes[i..j] !in t.tk.tokenToId
    ensures CompleteTo(t, d, i, j + 1)
  {
    hide Covered;
    forall a: nat, f: Edge | (a < i && t.EdgeOk(a, f)) || (a == i && t.IsPiece(i, f) && f.to < j + 1)
      ensures Covered(t, d, a, f)
    {
    }
  }

  /** With every piece from i and the fallback of byte i done, position i is done. */
  lemma FinishPosition(t: Task, d: Table, i: nat, j: nat)
    requires Sized(t, d) && i < |t.bytes| && CompleteTo(t, d, i, j)
    requires j > |t.bytes| || j > i + MAX_TOK_LEN
    requires forall e: Edge :: t.IsFallback(i, e) ==> Covered(t, d, i, e)
    ensures Complete(t, d, i + 1)
  {
    hide Covered;
  }

  lemma RelaxFallback(t: Task, d: Table, i: nat, e: Edge, j: nat)
    requires Sound(t, d, i) && i < |t.bytes| && CompleteTo(t, d, i, j) && d.best[i].Fin? && t.IsFallback(i, e)
    requires j > |t.bytes| || j > i + MAX_TOK_LEN
    ensures var d' := Relaxed(d, i, e, d.best[i].value + t.Weight(e.id));
            Sound(t, d', i) && Complete(t, d', i + 1)
  {
    RelaxSound(t, d, i, e);
    var s := d.best[i].value + t.Weight(e.id);
    var d' := Relaxed(d, i, e, s);
    hide Relaxed, Covered;
    forall a: nat, f: Edge | (a < i && t.EdgeOk(a, f)) || (a == i && t.IsPiece(i, f) && f.to < j)
      ensures Covered(t, d', a, f)
    {
      RelaxCovers(t, d, i, e, s, a, f);
    }
    forall f: Edge | t.IsFallback(i, f)
      ensures Covered(t, d', i, f)
    {
      assert f == e;
    }
    FinishPosition(t, d', i, j);
  }

  lemma SoundLater(t: Task, d: Table, i: nat)
    requires Sound(t, d, i)
    ensures Sound(t, d, i + 1)
  {
    hide IsPath, Total, End;
    var next := i + 1;
    forall p: nat | p <= |t.bytes|
      ensures EntryOk(t, d, next, p)
    {
      assert EntryOk(t, d, i, p);
    }
  }

  lemma SkipPosition(t: Task, d: Table, i: nat)
    requires Sized(t, d) && i < |t.bytes| && Complete(t, d, i) && d.best[i].NegInf?
    ensures Complete(t, d, i + 1)
  {
  }

  lemma StartPosition(t: Task, d: Table, i: nat)
    requires Sized(t, d) && i < |t.bytes| && Complete(t, d, i)
    ensures CompleteTo(t, d, i, i + 1)
  {
    hide Covered;
  }

  // ---------- the program ----------

  ghost function View(best: array<Score>, ids: array<nat>, prev: array<nat>, paths: seq<seq<Edge>>): Table
    reads best, ids, prev
  {
    Table(best[..], ids[..], prev[..], paths)
  }

  predicate Distinct(best: array<Score>, ids: array<nat>, prev: array<nat>) {
    (ids as object) != (prev as object) && (best as object) != (ids as object) && (best as object) != (prev as object)
  }

  /** Position j gets a better segmentation through i with token id, or stays. */
  method Relax(best: array<Score>, ids: array<nat>, prev: array<nat>, ghost paths: seq<seq<Edge>>,
               i: nat, e: Edge, s: real) returns (ghost paths': seq<seq<Edge>>)
    requires Distinct(best, ids, prev)
    requires e.to < best.Length == ids.Length == prev.Length == |paths| && i < |paths|
    modifies best, ids, prev
    ensures View(best, ids, prev, paths') == Relaxed(old(View(best, ids, prev, paths)), i, e, s)
  {
    paths' := paths;
    if best[e.to].NegInf? || s > best[e.to].value {
      best[e.to] := Fin(s);
      ids[e.to] := e.id;
      prev[e.to] := i;
      paths' := paths[e.to := paths[i] + [e]];
    }
  }

  /** All vocabulary pieces starting at position i. */
  method TryPieces(t: Task, best: array<Score>, ids: array<nat>, prev: array<nat>, ghost paths: seq<seq<Edge>>, i: nat)
    returns (ghost paths': seq<seq<Edge>>)
    requires t.Valid() && Distinct(best, ids, prev) && i < |t.bytes| && Sound(t, View(best, ids, prev, paths), i)
    requires Complete(t, View(best, ids, prev, paths), i) && best[i].Fin?
    modifies best, ids, prev
    ensures Sound(t, View(best, ids, prev, paths'), i) && best[i].Fin?
    ensures CompleteTo(t, View(best, ids, prev, paths'), i,
                       (if i + MAX_TOK_LEN < |t.bytes| then i + MAX_TOK_LEN else |t.bytes|) + 1)
  {
    var limit := if i + MAX_TOK_LEN < |t.bytes| then i + MAX_TOK_LEN else |t.bytes|;
    paths' := paths;
    StartPosition(t, View(best, ids, prev, paths), i);
    hide Sound, CompleteTo, Relaxed;
    for j := i + 1 to limit + 1
      invariant best.Length == ids.Length == prev.Length == |paths'| == |t.bytes| + 1 && best[i].Fin?
      invariant Sound(t, View(best, ids, prev, paths'), i) && CompleteTo(t, View(best, ids, prev, paths'), i, j)
    {
      if t.bytes[i..j] in t.tk.tokenToId {
        var id := t.tk.tokenToId[t.bytes[i..j]];
        var s := best[i].value + t.scores[id];
        RelaxCompleteTo(t, View(best, ids, prev, paths'), i, Edge(j, id), j);
        RelaxedSized(View(best, ids, prev, paths'), i, Edge(j, id), s);
        paths' := Relax(best, ids, prev, paths', i, Edge(j, id), s);
      } else {
        SkipCompleteTo(t, View(best, ids, prev, paths'), i, j);
      }
    }
  }

  lemma RelaxedSized(d: Table, i: nat, e: Edge, s: real)
    requires e.to < |d.best| == |d.ids| == |d.prev| == |d.paths| && i < |d.paths|
    ensures |Relaxed(d, i, e, s).paths| == |d.paths|
  {
  }

  /** One position of the outer loop. */
  method TryPosition(t: Task, best: array<Score>, ids: array<nat>, prev: array<nat>, ghost paths: seq<seq<Edge>>, i: nat)
    returns (ghost paths': seq<seq<Edge>>)
    requires t.Valid() && Distinct(best, ids, prev) && i < |t.bytes| && Sound(t, View(best, ids, prev, paths), i)
    requires Complete(t, View(best, ids, prev, paths), i)
    modifies best, ids, prev
    ensures Sound(t, View(best, ids, prev, paths'), i + 1) && Complete(t, View(best, ids, prev, paths'), i + 1)
  {
    paths' := paths;
    hide EntryOk, CompleteTo, Complete, Relaxed;
    if best[i].NegInf? {
      SkipPosition(t, View(best, ids, prev, paths'), i);
    } else {
      paths' := TryPieces(t, best, ids, prev, paths', i);
      var limit := if i + MAX_TOK_LEN < |t.bytes| then i + MAX_TOK_LEN else |t.bytes|;
      var fb := t.tk.byteFallback[t.bytes[i] as nat];
      if fb != NO_TOKEN {
        var s := best[i].value + t.scores[fb];
        RelaxFallback(t, View(best, ids, prev, paths'), i, Edge(i + 1, fb), limit + 1);
        paths' := Relax(best, ids, prev, paths', i, Edge(i + 1, fb), s);
      } else {
        FinishPosition(t, View(best, ids, prev, paths'), i, limit + 1);
      }
    }
    SoundLater(t, View(best, ids, prev, paths'), i);
  }

  function Reversed(s: seq<nat>): (r: seq<nat>)
    ensures |r| == |s| && forall k :: 0 <= k < |s| ==> r[k] == s[|s| - 1 - k]
  {
    seq(|s|, k requires 0 <= k < |s| => s[|s| - 1 - k])
  }

  /** Follows best_prev from the end. */
  method Backtrack(t: Task, ids: array<nat>, prev: array<nat>, ghost best: seq<Score>, ghost paths: seq<seq<Edge>>)
    returns (out: seq<nat>)
    requires Sound(t, Table(best, ids[..], prev[..], paths), |t.bytes|)
    ensures out == if best[|t.bytes|].Fin? then Ids(paths[|t.bytes|]) else []
  {
    ghost var d, n := Table(best, ids[..], prev[..], paths), |t.bytes|;
    out := [];
    var p: nat := |t.bytes|;
    assert EntryOk(t, d, n, n);
    while p > 0
      invariant p <= n && (best[n].NegInf? ==> p == n && out == [])
      invariant best[n].Fin? ==> best[p].Fin? && Ids(paths[n]) == Ids(paths[p]) + Reversed(out)
    {
      assert EntryOk(t, d, n, p);
      hide IsPath, Total, End;
      var id := ids[p];
      if id == NO_TOKEN {
        break;
      }
      IdsSnoc(paths[prev[p]], Edge(p, id), out);
      out := out + [id];
      p := prev[p];
    }
    assert EntryOk(t, d, n, 0);
    out := Reversed(out);
  }

  lemma IdsSnoc(path: seq<Edge>, e: Edge, out: seq<nat>)
    ensures Ids(path + [e]) + Reversed(out) == Ids(path) + Reversed(out + [e.id])
  {
    assert Ids(path + [e]) == Ids(path) + [e.id];
    assert Reversed(out + [e.id]) == [e.id] + Reversed(out);
  }

  lemma InitialTable(t: Task, d: Table)
    requires Sized(t, d) && d.best[0] == Fin(0.0) && d.paths[0] == []
    requires forall p :: 0 < p <= |t.bytes| ==> d.best[p] == NegInf && d.ids[p] == NO_TOKEN
    ensures Sound(t, d, 0) && Complete(t, d, 0)
  {
  }

  /** encode_sentencepiece: an optimal segmentation of the space-normalized text if there is any
      segmentation at all, otherwise nothing. */
  method EncodeSentencepiece(tk: Tokenizer, scores: seq<real>, raw: Bytes) returns (out: seq<nat>)
    requires Task(tk, scores, SpaceMark.Normalize(raw)).Valid()
    ensures var t := Task(tk, scores, SpaceMark.Normalize(raw));
            if Reachable(t) then exists path: seq<Edge> :: Best(t, path) && out == Ids(path) else out == []
  {
    var bytes := SpaceMark.NormalizeBytes(raw);
    var t := Task(tk, scores, bytes);
    var n := |bytes|;
    var best := new Score[n + 1](_ => NegInf);
    var ids := new nat[n + 1](_ => NO_TOKEN);
    var prev := new nat[n + 1](_ => 0);
    best[0] := Fin(0.0);
    ghost var paths := seq(n + 1, _ => []);
    InitialTable(t, View(best, ids, prev, paths));
    hide Sound, Complete, Best, IsPath;
    for i := 0 to n
      invariant best.Length == ids.Length == prev.Length == n + 1
      invariant Sound(t, View(best, ids, prev, paths), i) && Complete(t, View(best, ids, prev, paths), i)
    {
      paths := TryPosition(t, best, ids, prev, paths, i);
    }
    TableIsBest(t, View(best, ids, prev, paths));
    out := Backtrack(t, ids, prev, best[..], paths);
  }

  // ---------- what the segmentations are ----------

  /** With a byte-fallback token for every byte the end is always reachable. */
  lemma {:induction false} FallbackReaches(t: Task, i: nat) returns (path: seq<Edge>)
    requires t.Valid() && i <= |t.bytes| && forall b: nat :: b < 256 ==> t.tk.byteFallback[b] != NO_TOKEN
    ensures IsPath(t, path) && End(path) == i
    ensures i == |t.bytes| ==> Reachable(t)
  {
    if i == 0 {
      path := [];
    } else {
      var before := FallbackReaches(t, i - 1);
      var e := Edge(i, t.tk.byteFallback[t.bytes[i - 1] as nat]);
      assert t.IsFallback(i - 1, e);
      Extend(t, before, e);
      path := before + [e];
    }
  }

  /** The vocabulary texts of a list of ids. */
  function Texts(tk: Tokenizer, ids: seq<nat>): seq<Bytes> {
    seq(|ids|, k requires 0 <= k < |ids| => if ids[k] < |tk.vocab| then tk.vocab[ids[k]] else [])
  }

  /** A segmentation that uses vocabulary pieces only. */
  ghost predicate PiecePath(t: Task, path: seq<Edge>) {
    path != [] ==>
      var last := |path| - 1; PiecePath(t, path[..last]) && t.IsPiece(End(path[..last]), path[last])
  }

  /** A segmentation into vocabulary pieces spells exactly the text it covers. */
  lemma {:induction false} PathSpells(t: Task, path: seq<Edge>)
    requires t.Valid() && PiecePath(t, path)
    ensures IsPath(t, path)
    ensures End(path) <= |t.bytes| && Concat(Texts(t.tk, Ids(path))) == t.bytes[..End(path)]
  {
    if path == [] {
      assert Texts(t.tk, Ids(path)) == [];
    } else {
      var short, e := path[..|path| - 1], path[|path| - 1];
      PathSpells(t, short);
      SpellLast(t, short, e);
      assert path == short + [e];
    }
    hide Task.IsFallback, Task.IsPiece, Task.Valid, Texts, Ids, Concat;
  }

  lemma SpellLast(t: Task, short: seq<Edge>, e: Edge)
    requires t.Valid() && End(short) <= |t.bytes| && t.IsPiece(End(short), e)
    requires Concat(Texts(t.tk, Ids(short))) == t.bytes[..End(short)]
    ensures Concat(Texts(t.tk, Ids(short + [e]))) == t.bytes[..e.to]
  {
    hide End;
    var text := t.tk.vocab[e.id];
    assert text == t.bytes[End(short)..e.to];
    assert Texts(t.tk, Ids(short + [e])) == Texts(t.tk, Ids(short)) + [text];
    ConcatAppend(Texts(t.tk, Ids(short)), [text]);
    assert Concat([text]) == text;
    hide Concat, Texts, Ids;
    assert t.bytes[..End(short)] + text == t.bytes[..e.to];
  }
}
