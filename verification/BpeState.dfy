/** The state of the heap-driven merge loop (src/inference/tokenizer_gemma4.rs): an in-place doubly
    linked symbol list and a heap of bigrams that may have gone stale. `live` lists the indices of
    the symbols that still have bytes, in order; it is what the linked list encodes. */
module BpeState {
  import opened Tokens
  import opened BpeSpec

  datatype Sym = Sym(start: nat, len: nat, prev: int, next: int)

  datatype Bigram = Bigram(rank: nat, left: int, right: int, text: Bytes)

  /** Heap order: lower rank first, ties to the lower left index. */
  predicate Before(a: Bigram, b: Bigram) {
    a.rank < b.rank || (a.rank == b.rank && a.left < b.left)
  }

  function Text(bytes: Bytes, s: Sym): Bytes {
    if s.start + s.len <= |bytes| then bytes[s.start..s.start + s.len] else []
  }

  predicate Alive(syms: seq<Sym>, i: int) {
    0 <= i < |syms| && syms[i].len > 0
  }

  /** Position k of the list: its symbol is alive, lies in the bytes, ends where its successor
      starts (the last one at the end), and its links name its neighbours. */
  ghost predicate LinkAt(bytes: Bytes, syms: seq<Sym>, live: seq<nat>, k: int)
    requires 0 <= k < |live| && forall j :: 0 <= j < |live| ==> live[j] < |syms|
  {
    var s := syms[live[k]];
    && s.len > 0
    && s.start + s.len <= |bytes|
    && s.next == (if k + 1 < |live| then live[k + 1] else -1)
    && s.prev == (if k > 0 then live[k - 1] else -1)
    && s.start + s.len == (if k + 1 < |live| then syms[live[k + 1]].start else |bytes|)
    && (k == 0 ==> live[0] == 0 && s.start == 0)
  }

  ghost predicate Sorted(live: seq<nat>) {
    forall j, k :: 0 <= j < k < |live| ==> live[j] < live[k]
  }

  /** The list reachable from index 0 is `live`; prev and next are inverse on it; its symbols tile
      the bytes in order; no symbol off the list has bytes. */
  ghost predicate Shape(bytes: Bytes, syms: seq<Sym>, live: seq<nat>) {
    && |live| > 0 && Sorted(live)
    && (forall j :: 0 <= j < |live| ==> live[j] < |syms|)
    && (forall k :: 0 <= k < |live| ==> LinkAt(bytes, syms, live, k))
    && (forall i: nat :: Alive(syms, i) ==> i in live)
  }

  ghost function Pieces(bytes: Bytes, syms: seq<Sym>, live: seq<nat>): (ps: seq<Bytes>)
    requires forall j :: 0 <= j < |live| ==> live[j] < |syms|
    ensures |ps| == |live|
    ensures forall k :: 0 <= k < |live| ==> ps[k] == Text(bytes, syms[live[k]])
  {
    seq(|live|, k requires 0 <= k < |live| => Text(bytes, syms[live[k]]))
  }

  /** A queued bigram, if both its ends are alive, is still adjacent, its left end has not grown,
      and its rank is that of its text cut after the left end. */
  ghost predicate Sound(bytes: Bytes, m: MergeRanks, syms: seq<Sym>, b: Bigram) {
    && 0 <= b.left < |syms| && 0 <= b.right < |syms| && b.left != b.right
    && (Alive(syms, b.left) && Alive(syms, b.right) ==>
          var l := syms[b.left];
          && l.next == b.right
          && l.len <= |b.text|
          && b.text[..l.len] == Text(bytes, l)
          && (b.text[..l.len], b.text[l.len..]) in m
          && m[(b.text[..l.len], b.text[l.len..])] == b.rank)
  }

  /** The heap entry that stands for the adjacent live pair k, k + 1. */
  ghost function EntryFor(bytes: Bytes, m: MergeRanks, syms: seq<Sym>, live: seq<nat>, k: int): Bigram
    requires forall j :: 0 <= j < |live| ==> live[j] < |syms|
    requires Ranked(m, Pieces(bytes, syms, live), k)
  {
    var ps := Pieces(bytes, syms, live);
    Bigram(RankAt(m, ps, k), live[k], live[k + 1], ps[k] + ps[k + 1])
  }

  /** Every pair that can be merged now has its entry in the heap. */
  ghost predicate Complete(bytes: Bytes, m: MergeRanks, syms: seq<Sym>, live: seq<nat>, queue: multiset<Bigram>)
    requires forall j :: 0 <= j < |live| ==> live[j] < |syms|
  {
    forall k :: Ranked(m, Pieces(bytes, syms, live), k) ==> EntryFor(bytes, m, syms, live, k) in queue
  }

  ghost predicate Inv(bytes: Bytes, m: MergeRanks, syms: seq<Sym>, live: seq<nat>, queue: multiset<Bigram>) {
    && Shape(bytes, syms, live)
    && (forall b :: b in queue ==> Sound(bytes, m, syms, b))
    && Complete(bytes, m, syms, live, queue)
  }

  /** No entry of the heap comes before b. */
  ghost predicate IsMin(queue: multiset<Bigram>, b: Bigram) {
    b in queue && forall c :: c in queue ==> !Before(c, b)
  }

  /** The test the loop makes before it trusts a popped entry. */
  predicate TextMatches(bytes: Bytes, syms: seq<Sym>, b: Bigram) {
    && Alive(syms, b.left) && Alive(syms, b.right)
    && b.text == Text(bytes, syms[b.left]) + Text(bytes, syms[b.right])
  }

  /** An empty heap means no pair is left to merge. */
  lemma EmptyIsDone(bytes: Bytes, m: MergeRanks, syms: seq<Sym>, live: seq<nat>)
    requires Inv(bytes, m, syms, live, multiset{})
    ensures NaiveMerge(m, Pieces(bytes, syms, live)) == Pieces(bytes, syms, live)
    ensures NaiveTrace(m, Pieces(bytes, syms, live)) == []
  {
    hide LinkAt, Sorted, Sound;
    assert forall k :: !Ranked(m, Pieces(bytes, syms, live), k);
  }

  lemma PositionOf(bytes: Bytes, syms: seq<Sym>, live: seq<nat>, i: nat) returns (k: nat)
    requires Shape(bytes, syms, live) && Alive(syms, i)
    ensures k < |live| && live[k] == i && LinkAt(bytes, syms, live, k)
  {
    assert i in live;
    k :| 0 <= k < |live| && live[k] == i;
  }

  /** A popped minimum that passes the test is the naive algorithm's next merge. */
  lemma PopValid(bytes: Bytes, m: MergeRanks, syms: seq<Sym>, live: seq<nat>, queue: multiset<Bigram>, b: Bigram)
    returns (k: nat)
    requires Inv(bytes, m, syms, live, queue) && IsMin(queue, b) && TextMatches(bytes, syms, b)
    ensures k + 1 < |live| && live[k] == b.left && live[k + 1] == b.right
    ensures Ranked(m, Pieces(bytes, syms, live), k) && b == EntryFor(bytes, m, syms, live, k)
    ensures Best(m, Pieces(bytes, syms, live)) == k
  {
    var ps := Pieces(bytes, syms, live);
    assert Sound(bytes, m, syms, b);
    k := PositionOf(bytes, syms, live, b.left);
    assert k + 1 < |live| && live[k + 1] == b.right;
    assert b.text[..syms[b.left].len] == ps[k];
    assert b.text[syms[b.left].len..] == ps[k + 1];
    assert Ranked(m, ps, k);
    forall j | Ranked(m, ps, j)
      ensures RankAt(m, ps, k) < RankAt(m, ps, j) || (RankAt(m, ps, k) == RankAt(m, ps, j) && k <= j)
    {
      assert !Before(EntryFor(bytes, m, syms, live, j), b);
      assert j < k ==> live[j] < live[k];
    }
    BestUnique(m, ps, k);
  }

  /** A popped entry that fails the test stood for no current pair, so dropping it loses nothing. */
  lemma PopStale(bytes: Bytes, m: MergeRanks, syms: seq<Sym>, live: seq<nat>, queue: multiset<Bigram>, b: Bigram)
    requires Inv(bytes, m, syms, live, queue) && !TextMatches(bytes, syms, b)
    ensures Inv(bytes, m, syms, live, queue - multiset{b})
  {
    forall k | Ranked(m, Pieces(bytes, syms, live), k)
      ensures EntryFor(bytes, m, syms, live, k) in queue - multiset{b}
    {
      assert LinkAt(bytes, syms, live, k) && LinkAt(bytes, syms, live, k + 1);
      assert TextMatches(bytes, syms, EntryFor(bytes, m, syms, live, k));
    }
  }

  /** The in-place update of the loop body: right is absorbed into left. */
  function Absorb(syms: seq<Sym>, li: nat, ri: nat): seq<Sym>
    requires li < |syms| && ri < |syms|
  {
    var nn := syms[ri].next;
    var s := syms[li := syms[li].(len := syms[li].len + syms[ri].len, next := nn)];
    var s' := s[ri := s[ri].(len := 0)];
    if 0 <= nn < |s'| then s'[nn := s'[nn].(prev := li)] else s'
  }

  function Without(live: seq<nat>, k: nat): seq<nat>
    requires k < |live|
  {
    live[..k] + live[k + 1..]
  }

  /** What `Absorb` leaves in the symbol at position o of the old list. */
  ghost predicate FieldsAt(syms: seq<Sym>, live: seq<nat>, k: nat, s': seq<Sym>, o: nat)
    requires k + 1 < |live| && o < |live| && |s'| == |syms|
    requires forall j :: 0 <= j < |live| ==> live[j] < |syms|
  {
    s'[live[o]] == Sym(
      syms[live[o]].start,
      (if o == k then syms[live[k]].len + syms[live[k + 1]].len else if o == k + 1 then 0 else syms[live[o]].len),
      (if o == k + 2 then live[k] else syms[live[o]].prev),
      (if o == k then syms[live[k + 1]].next else syms[live[o]].next))
  }

  lemma AbsorbFields(bytes: Bytes, syms: seq<Sym>, live: seq<nat>, k: nat, o: nat)
    requires Shape(bytes, syms, live) && k + 1 < |live| && o < |live|
    ensures |Absorb(syms, live[k], live[k + 1])| == |syms|
    ensures FieldsAt(syms, live, k, Absorb(syms, live[k], live[k + 1]), o)
  {
    assert LinkAt(bytes, syms, live, k + 1);
    assert live[k] < live[k + 1];
    assert o < k ==> live[o] < live[k];
    assert o > k + 1 ==> live[k + 1] < live[o];
    if k + 2 < |live| {
      assert live[k + 1] < live[k + 2];
      assert o > k + 2 ==> live[k + 2] < live[o];
    }
  }

  /** Position j of the shortened list. */
  ghost predicate ShiftAt(live: seq<nat>, k: nat, live': seq<nat>, j: nat)
    requires j < |live'| && |live'| + 1 == |live|
  {
    live'[j] == live[if j <= k then j else j + 1]
  }

  ghost predicate Absorbed(syms: seq<Sym>, live: seq<nat>, k: nat, s': seq<Sym>, live': seq<nat>) {
    && k + 1 < |live| && |live'| + 1 == |live| && |s'| == |syms|
    && (forall j :: 0 <= j < |live| ==> live[j] < |syms|)
    && (forall o: nat :: o < |live| ==> FieldsAt(syms, live, k, s', o))
    && (forall j: nat :: j < |live'| ==> ShiftAt(live, k, live', j))
  }

  lemma AbsorbedBounds(syms: seq<Sym>, live: seq<nat>, k: nat, s': seq<Sym>, live': seq<nat>)
    requires Absorbed(syms, live, k, s', live') && Sorted(live)
    ensures forall i :: 0 <= i < |live'| ==> live'[i] < |s'|
    ensures Sorted(live')
  {
    forall i: nat | i < |live'|
      ensures live'[i] < |s'|
    {
      assert ShiftAt(live, k, live', i);
    }
    forall i: nat, j: nat | i < j < |live'|
      ensures live'[i] < live'[j]
    {
      assert ShiftAt(live, k, live', i) && ShiftAt(live, k, live', j);
    }
  }

  lemma AbsorbedLinkAt(bytes: Bytes, syms: seq<Sym>, live: seq<nat>, k: nat, s': seq<Sym>, live': seq<nat>, j: nat)
    requires Shape(bytes, syms, live) && Absorbed(syms, live, k, s', live') && j < |live'|
    requires forall i :: 0 <= i < |live'| ==> live'[i] < |s'|
    ensures LinkAt(bytes, s', live', j)
  {
    var o := if j <= k then j else j + 1;
    assert ShiftAt(live, k, live', j) && FieldsAt(syms, live, k, s', o);
    assert LinkAt(bytes, syms, live, o);
    if j == k {
      assert LinkAt(bytes, syms, live, k + 1);
    }
    if j + 1 < |live'| {
      assert ShiftAt(live, k, live', j + 1);
      assert FieldsAt(syms, live, k, s', if j + 1 <= k then j + 1 else j + 2);
    }
    if j > 0 {
      assert ShiftAt(live, k, live', j - 1);
    }
  }

  lemma SameText(bytes: Bytes, a: Sym, b: Sym)
    requires a.start == b.start && a.len == b.len
    ensures Text(bytes, a) == Text(bytes, b)
  {
  }

  lemma TextsJoin(bytes: Bytes, a: Sym, b: Sym, c: Sym)
    requires a.start + a.len == b.start && b.start + b.len <= |bytes|
    requires c.start == a.start && c.len == a.len + b.len
    ensures Text(bytes, c) == Text(bytes, a) + Text(bytes, b)
  {
  }

  lemma AbsorbedText(bytes: Bytes, syms: seq<Sym>, live: seq<nat>, k: nat, s': seq<Sym>, live': seq<nat>, j: nat)
    requires Shape(bytes, syms, live) && Absorbed(syms, live, k, s', live') && j < |live'|
    requires forall i :: 0 <= i < |live'| ==> live'[i] < |s'|
    ensures Text(bytes, s'[live'[j]])
            == if j == k then Text(bytes, syms[live[k]]) + Text(bytes, syms[live[k + 1]])
               else Text(bytes, syms[live[if j < k then j else j + 1]])
  {
    assert ShiftAt(live, k, live', j) && FieldsAt(syms, live, k, s', if j <= k then j else j + 1);
    assert LinkAt(bytes, syms, live, k) && LinkAt(bytes, syms, live, k + 1);
    hide Sorted, Shape, Absorbed, Text;
    if j == k {
      TextsJoin(bytes, syms[live[k]], syms[live[k + 1]], s'[live'[j]]);
    } else {
      assert s'[live'[j]].start == syms[live'[j]].start && s'[live'[j]].len == syms[live'[j]].len;
      SameText(bytes, s'[live'[j]], syms[live'[j]]);
    }
  }

  lemma MergeAtUnique(ps: seq<Bytes>, k: nat, ps': seq<Bytes>)
    requires k + 1 < |ps| && |ps'| + 1 == |ps|
    requires forall j: nat :: j < |ps'| ==>
               ps'[j] == if j == k then ps[k] + ps[k + 1] else ps[if j < k then j else j + 1]
    ensures ps' == MergeAt(ps, k)
  {
  }

  lemma AbsorbedPieces(bytes: Bytes, syms: seq<Sym>, live: seq<nat>, k: nat, s': seq<Sym>, live': seq<nat>)
    requires Shape(bytes, syms, live) && Absorbed(syms, live, k, s', live')
    requires forall i :: 0 <= i < |live'| ==> live'[i] < |s'|
    ensures Pieces(bytes, s', live') == MergeAt(Pieces(bytes, syms, live), k)
  {
    var ps, ps' := Pieces(bytes, syms, live), Pieces(bytes, s', live');
    assert k + 1 < |live| && |live'| + 1 == |live|;
    hide Shape, Absorbed, Text;
    forall j: nat | j < |live'|
      ensures ps'[j] == if j == k then ps[k] + ps[k + 1] else ps[if j < k then j else j + 1]
    {
      AbsorbedText(bytes, syms, live, k, s', live', j);
    }
    MergeAtUnique(ps, k, ps');
  }

  lemma AbsorbAlive(bytes: Bytes, syms: seq<Sym>, live: seq<nat>, k: nat, i: nat)
    requires Shape(bytes, syms, live) && k + 1 < |live|
    requires Alive(Absorb(syms, live[k], live[k + 1]), i)
    ensures Alive(syms, i) && i in Without(live, k + 1) && i != live[k + 1]
  {
    assert LinkAt(bytes, syms, live, k) && LinkAt(bytes, syms, live, k + 1);
    var o := PositionOf(bytes, syms, live, i);
    AbsorbFields(bytes, syms, live, k, o);
    assert Without(live, k + 1)[if o <= k then o else o - 1] == i;
  }

  lemma AbsorbIsAbsorbed(bytes: Bytes, syms: seq<Sym>, live: seq<nat>, k: nat)
    requires Shape(bytes, syms, live) && k + 1 < |live|
    ensures Absorbed(syms, live, k, Absorb(syms, live[k], live[k + 1]), Without(live, k + 1))
  {
    AbsorbFields(bytes, syms, live, k, k);
    var s' := Absorb(syms, live[k], live[k + 1]);
    forall o: nat | o < |live|
      ensures FieldsAt(syms, live, k, s', o)
    {
      AbsorbFields(bytes, syms, live, k, o);
    }
  }

  /** Absorbing position k + 1 into k keeps the list well-formed and is `MergeAt` on the pieces. */
  lemma AbsorbShape(bytes: Bytes, syms: seq<Sym>, live: seq<nat>, k: nat, s': seq<Sym>, live': seq<nat>)
    requires Shape(bytes, syms, live) && Absorbed(syms, live, k, s', live')
    requires forall i: nat :: Alive(s', i) ==> i in live'
    ensures Shape(bytes, s', live')
    ensures Pieces(bytes, s', live') == MergeAt(Pieces(bytes, syms, live), k)
  {
    AbsorbedBounds(syms, live, k, s', live');
    forall j: nat | j < |live'|
      ensures LinkAt(bytes, s', live', j)
    {
      AbsorbedLinkAt(bytes, syms, live, k, s', live', j);
    }
    AbsorbedPieces(bytes, syms, live, k, s', live');
  }

  lemma AbsorbSound(bytes: Bytes, m: MergeRanks, syms: seq<Sym>, live: seq<nat>, k: nat, b: Bigram)
    requires Shape(bytes, syms, live) && k + 1 < |live| && Sound(bytes, m, syms, b)
    ensures Sound(bytes, m, Absorb(syms, live[k], live[k + 1]), b)
  {
    var s' := Absorb(syms, live[k], live[k + 1]);
    if Alive(s', b.left) && Alive(s', b.right) {
      AbsorbAlive(bytes, syms, live, k, b.left);
      AbsorbAlive(bytes, syms, live, k, b.right);
      var o := PositionOf(bytes, syms, live, b.left);
      assert o != k;
      AbsorbFields(bytes, syms, live, k, o);
    }
  }

  /** The pushes `try_push_bigram` makes for the pair j, j + 1 of the current list, if any. */
  ghost function Pushed(bytes: Bytes, m: MergeRanks, syms: seq<Sym>, live: seq<nat>, j: int): multiset<Bigram>
    requires forall j :: 0 <= j < |live| ==> live[j] < |syms|
  {
    if Ranked(m, Pieces(bytes, syms, live), j) then multiset{EntryFor(bytes, m, syms, live, j)} else multiset{}
  }

  lemma EntrySound(bytes: Bytes, m: MergeRanks, syms: seq<Sym>, live: seq<nat>, j: int)
    requires Shape(bytes, syms, live) && Ranked(m, Pieces(bytes, syms, live), j)
    ensures Sound(bytes, m, syms, EntryFor(bytes, m, syms, live, j))
  {
    var ps, b := Pieces(bytes, syms, live), EntryFor(bytes, m, syms, live, j);
    assert live[j] < live[j + 1];
    assert LinkAt(bytes, syms, live, j);
    assert b.text[..syms[live[j]].len] == ps[j] && b.text[syms[live[j]].len..] == ps[j + 1];
  }

  ghost predicate Bounded(syms: seq<Sym>, live: seq<nat>) {
    Sorted(live) && forall j :: 0 <= j < |live| ==> live[j] < |syms|
  }

  lemma MergeAtAway(ps: seq<Bytes>, k: nat, j: nat)
    requires k + 1 < |ps| && j + 1 < |ps| && j != k
    ensures MergeAt(ps, k)[j] == ps[if j < k then j else j + 1]
  {
  }

  lemma WithoutAt(live: seq<nat>, k: nat, j: nat)
    requires k + 1 < |live| && j + 1 < |live|
    ensures Without(live, k + 1)[j] == live[if j <= k then j else j + 1]
  {
  }

  /** Entry j of the new list and entry o of the old one stand for the same two symbols. */
  lemma SameEntry(bytes: Bytes, m: MergeRanks, syms: seq<Sym>, live: seq<nat>, s': seq<Sym>, live': seq<nat>, j: nat, o: nat)
    requires Bounded(syms, live) && Bounded(s', live')
    requires j + 1 < |live'| && o + 1 < |live| && live'[j] == live[o] && live'[j + 1] == live[o + 1]
    requires Pieces(bytes, s', live')[j] == Pieces(bytes, syms, live)[o]
    requires Pieces(bytes, s', live')[j + 1] == Pieces(bytes, syms, live)[o + 1]
    requires Ranked(m, Pieces(bytes, s', live'), j)
    ensures Ranked(m, Pieces(bytes, syms, live), o)
    ensures EntryFor(bytes, m, s', live', j) == EntryFor(bytes, m, syms, live, o)
  {
  }

  lemma InRest(queue: multiset<Bigram>, e: Bigram, p: multiset<Bigram>, q: multiset<Bigram>, x: Bigram)
    requires (x in queue && x != e) || x in p || x in q
    ensures x in queue - multiset{e} + p + q
  {
  }

  lemma EntriesDiffer(bytes: Bytes, m: MergeRanks, syms: seq<Sym>, live: seq<nat>, k: nat, o: nat)
    requires Bounded(syms, live) && o != k
    requires Ranked(m, Pieces(bytes, syms, live), k) && Ranked(m, Pieces(bytes, syms, live), o)
    ensures EntryFor(bytes, m, syms, live, o) != EntryFor(bytes, m, syms, live, k)
  {
    assert if o < k then live[o] < live[k] else live[k] < live[o];
  }

  /** A pair away from the merge keeps its entry in the heap. */
  lemma AbsorbComplete(bytes: Bytes, m: MergeRanks, syms: seq<Sym>, live: seq<nat>, queue: multiset<Bigram>, k: nat,
                       s': seq<Sym>, live': seq<nat>, j: nat)
    requires Bounded(syms, live) && Complete(bytes, m, syms, live, queue) && k + 1 < |live|
    requires Bounded(s', live') && live' == Without(live, k + 1)
    requires Pieces(bytes, s', live') == MergeAt(Pieces(bytes, syms, live), k)
    requires Ranked(m, Pieces(bytes, s', live'), j) && Ranked(m, Pieces(bytes, syms, live), k)
    requires j + 1 != k && j != k
    ensures EntryFor(bytes, m, s', live', j) in queue
    ensures EntryFor(bytes, m, s', live', j) != EntryFor(bytes, m, syms, live, k)
  {
    var o := if j < k then j else j + 1;
    WithoutAt(live, k, j);
    WithoutAt(live, k, j + 1);
    MergeAtAway(Pieces(bytes, syms, live), k, j);
    MergeAtAway(Pieces(bytes, syms, live), k, j + 1);
    SameEntry(bytes, m, syms, live, s', live', j, o);
    EntriesDiffer(bytes, m, syms, live, k, o);
  }

  lemma AbsorbQueueSound(bytes: Bytes, m: MergeRanks, syms: seq<Sym>, live: seq<nat>, queue: multiset<Bigram>, k: nat,
                         s': seq<Sym>, live': seq<nat>, b: Bigram)
    requires Shape(bytes, syms, live) && (forall c :: c in queue ==> Sound(bytes, m, syms, c)) && k + 1 < |live|
    requires s' == Absorb(syms, live[k], live[k + 1]) && Shape(bytes, s', live')
    requires b in queue || b in Pushed(bytes, m, s', live', k - 1) || b in Pushed(bytes, m, s', live', k)
    ensures Sound(bytes, m, s', b)
  {
    if b in queue {
      AbsorbSound(bytes, m, syms, live, k, b);
    } else if b in Pushed(bytes, m, s', live', k - 1) {
      EntrySound(bytes, m, s', live', k - 1);
    } else {
      EntrySound(bytes, m, s', live', k);
    }
  }

  /** The heap after the merge at k: the popped entry is gone, the two boundary pushes are in. */
  ghost function QueueAfter(bytes: Bytes, m: MergeRanks, syms: seq<Sym>, live: seq<nat>, queue: multiset<Bigram>, k: nat,
                            s': seq<Sym>, live': seq<nat>): multiset<Bigram>
    requires Bounded(syms, live) && Ranked(m, Pieces(bytes, syms, live), k) && Bounded(s', live')
  {
    queue - multiset{EntryFor(bytes, m, syms, live, k)}
    + Pushed(bytes, m, s', live', k - 1) + Pushed(bytes, m, s', live', k)
  }

  lemma AbsorbMerges(bytes: Bytes, syms: seq<Sym>, live: seq<nat>, k: nat, s': seq<Sym>, live': seq<nat>)
    requires Shape(bytes, syms, live) && k + 1 < |live|
    requires s' == Absorb(syms, live[k], live[k + 1]) && live' == Without(live, k + 1)
    ensures Shape(bytes, s', live') && Pieces(bytes, s', live') == MergeAt(Pieces(bytes, syms, live), k)
  {
    AbsorbIsAbsorbed(bytes, syms, live, k);
    forall i: nat | Alive(s', i)
      ensures i in live'
    {
      AbsorbAlive(bytes, syms, live, k, i);
    }
    AbsorbShape(bytes, syms, live, k, s', live');
  }

  lemma AbsorbAllSound(bytes: Bytes, m: MergeRanks, syms: seq<Sym>, live: seq<nat>, queue: multiset<Bigram>, k: nat,
                       s': seq<Sym>, live': seq<nat>)
    requires Shape(bytes, syms, live) && (forall b :: b in queue ==> Sound(bytes, m, syms, b))
    requires Ranked(m, Pieces(bytes, syms, live), k) && s' == Absorb(syms, live[k], live[k + 1])
    requires Shape(bytes, s', live')
    ensures forall b :: b in QueueAfter(bytes, m, syms, live, queue, k, s', live') ==> Sound(bytes, m, s', b)
  {
    forall b | b in QueueAfter(bytes, m, syms, live, queue, k, s', live')
      ensures Sound(bytes, m, s', b)
    {
      AbsorbQueueSound(bytes, m, syms, live, queue, k, s', live', b);
    }
  }

  lemma AbsorbCovers(bytes: Bytes, m: MergeRanks, syms: seq<Sym>, live: seq<nat>, queue: multiset<Bigram>, k: nat,
                     s': seq<Sym>, live': seq<nat>, j: int)
    requires Bounded(syms, live) && Complete(bytes, m, syms, live, queue) && Ranked(m, Pieces(bytes, syms, live), k)
    requires Bounded(s', live') && live' == Without(live, k + 1)
    requires Pieces(bytes, s', live') == MergeAt(Pieces(bytes, syms, live), k)
    requires Ranked(m, Pieces(bytes, s', live'), j)
    ensures EntryFor(bytes, m, s', live', j) in QueueAfter(bytes, m, syms, live, queue, k, s', live')
  {
    hide Sorted, Without, MergeAt, RankAt, Complete, EntryFor;
    if j != k - 1 && j != k {
      AbsorbComplete(bytes, m, syms, live, queue, k, s', live', j);
    }
    InRest(queue, EntryFor(bytes, m, syms, live, k), Pushed(bytes, m, s', live', k - 1),
           Pushed(bytes, m, s', live', k), EntryFor(bytes, m, s', live', j));
  }

  lemma AbsorbAllComplete(bytes: Bytes, m: MergeRanks, syms: seq<Sym>, live: seq<nat>, queue: multiset<Bigram>, k: nat,
                          s': seq<Sym>, live': seq<nat>)
    requires Bounded(syms, live) && Complete(bytes, m, syms, live, queue) && Ranked(m, Pieces(bytes, syms, live), k)
    requires Bounded(s', live') && live' == Without(live, k + 1)
    requires Pieces(bytes, s', live') == MergeAt(Pieces(bytes, syms, live), k)
    ensures Complete(bytes, m, s', live', QueueAfter(bytes, m, syms, live, queue, k, s', live'))
  {
    forall j | Ranked(m, Pieces(bytes, s', live'), j)
      ensures EntryFor(bytes, m, s', live', j) in QueueAfter(bytes, m, syms, live, queue, k, s', live')
    {
      AbsorbCovers(bytes, m, syms, live, queue, k, s', live', j);
    }
  }

  /** The merge at k with its two boundary pushes: the list stays well-formed, the pieces make the
      naive merge, and the heap again covers every pair. */
  lemma AbsorbInv(bytes: Bytes, m: MergeRanks, syms: seq<Sym>, live: seq<nat>, queue: multiset<Bigram>, k: nat,
                  s': seq<Sym>, live': seq<nat>)
    requires Inv(bytes, m, syms, live, queue) && Ranked(m, Pieces(bytes, syms, live), k)
    requires s' == Absorb(syms, live[k], live[k + 1]) && live' == Without(live, k + 1)
    ensures Shape(bytes, s', live')
    ensures Pieces(bytes, s', live') == MergeAt(Pieces(bytes, syms, live), k)
    ensures Inv(bytes, m, s', live', QueueAfter(bytes, m, syms, live, queue, k, s', live'))
  {
    AbsorbMerges(bytes, syms, live, k, s', live');
    AbsorbAllSound(bytes, m, syms, live, queue, k, s', live');
    AbsorbAllComplete(bytes, m, syms, live, queue, k, s', live');
  }
}
