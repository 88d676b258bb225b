/** The heap-driven BPE encoder (src/inference/tokenizer_gemma4.rs), method by method, proved to
    compute what the rescanning algorithm of `BpeSpec` computes. The standard library's binary
    heap is a multiset whose `pop` removes some least element. */
module BpeMerge {
  import opened Tokens
  import opened BpeSpec
  import opened BpeState
  import opened SpaceMark

  // ---------- emission ----------

  method EmitSingleByte(tok: Tokenizer, b: Byte, out: seq<nat>) returns (out': seq<nat>)
    requires |tok.byteFallback| == 256
    ensures out' == out + EmitByte(tok, b)
  {
    if [b] in tok.tokenToId {
      out' := out + [tok.tokenToId[[b]]];
    } else {
      var fb := tok.byteFallback[b as int];
      if fb != NO_TOKEN {
        out' := out + [fb];
      } else {
        out' := out;
      }
    }
  }

  method EmitEachByte(tok: Tokenizer, text: Bytes, out: seq<nat>) returns (out': seq<nat>)
    requires |tok.byteFallback| == 256
    ensures out' == out + EmitBytes(tok, text)
  {
    out' := out;
    for i := 0 to |text|
      invariant out' == out + EmitBytes(tok, text[..i])
    {
      assert text[..i + 1][..i] == text[..i];
      out' := EmitSingleByte(tok, text[i], out');
    }
    assert text[..|text|] == text;
  }

  /** Whole-piece lookup, else byte by byte; newline runs are emitted the same way. */
  method EmitText(tok: Tokenizer, text: Bytes, out: seq<nat>) returns (out': seq<nat>)
    requires |tok.byteFallback| == 256
    ensures out' == out + EmitPiece(tok, text)
  {
    if text in tok.tokenToId {
      out' := out + [tok.tokenToId[text]];
    } else {
      out' := EmitEachByte(tok, text, out);
    }
  }

  method EmitSymbol(tok: Tokenizer, bytes: Bytes, sym: Sym, out: seq<nat>) returns (out': seq<nat>)
    requires |tok.byteFallback| == 256 && sym.start + sym.len <= |bytes|
    ensures out' == if sym.len > 0 then out + EmitPiece(tok, Text(bytes, sym)) else out
  {
    out' := out;
    if sym.len > 0 {
      out' := EmitText(tok, bytes[sym.start..sym.start + sym.len], out');
    }
  }

  lemma ListStep(bytes: Bytes, syms: seq<Sym>, live: seq<nat>, k: nat)
    requires Shape(bytes, syms, live) && k < |live|
    ensures syms[live[k]].len > 0 && syms[live[k]].start + syms[live[k]].len <= |bytes|
    ensures syms[live[k]].next == if k + 1 < |live| then live[k + 1] else -1
  {
    assert LinkAt(bytes, syms, live, k);
  }

  lemma EmitNone(tok: Tokenizer, ps: seq<Bytes>, out: seq<nat>)
    requires |tok.byteFallback| == 256
    ensures out + EmitUpto(tok, ps, 0) == out
  {
  }

  /** Walks the linked list from symbol 0 and emits each symbol's text. */
  method EmitList(tok: Tokenizer, bytes: Bytes, symbols: array<Sym>, ghost live: seq<nat>, out: seq<nat>)
    returns (out': seq<nat>)
    requires |tok.byteFallback| == 256
    requires Shape(bytes, symbols[..], live)
    ensures out' == out + EmitPieces(tok, Pieces(bytes, symbols[..], live))
  {
    out' := out;
    var idx: int := 0;
    ghost var syms := symbols[..];
    ghost var ps := Pieces(bytes, syms, live);
    ghost var k := 0;
    ListStep(bytes, syms, live, 0);
    assert live[0] == 0 by { assert LinkAt(bytes, syms, live, 0); }
    hide Shape, LinkAt, Sorted, EmitUpto, EmitPiece, Text;
    EmitNone(tok, ps, out);
    while 0 <= idx < symbols.Length
      invariant 0 <= k <= |live|
      invariant idx == if k < |live| then live[k] else -1
      invariant out' == out + EmitUpto(tok, ps, k)
      decreases |live| - k
    {
      ListStep(bytes, syms, live, k);
      EmitNext(tok, ps, k, out);
      var sym := symbols[idx];
      out' := EmitSymbol(tok, bytes, sym, out');
      idx := sym.next;
      k := k + 1;
    }
  }

  // ---------- symbol list ----------

  /** Symbol j of a freshly cut list whose first `linked` next-pointers are set; `end` is where the
      last symbol stops. */
  ghost predicate CutAt(bytes: Bytes, syms: seq<Sym>, linked: int, end: nat, j: nat)
    requires j < |syms|
  {
    var s := syms[j];
    && s.len > 0
    && s.start + s.len <= |bytes|
    && s.prev == j - 1
    && s.next == (if j < linked then j + 1 else -1)
    && s.start + s.len == (if j + 1 < |syms| then syms[j + 1].start else end)
    && (j == 0 ==> s.start == 0)
  }

  ghost predicate Cut(bytes: Bytes, syms: seq<Sym>, linked: int, end: nat) {
    forall j: nat :: j < |syms| ==> CutAt(bytes, syms, linked, end, j)
  }

  ghost function Texts(bytes: Bytes, syms: seq<Sym>): (ps: seq<Bytes>)
    ensures |ps| == |syms| && forall j :: 0 <= j < |syms| ==> ps[j] == Text(bytes, syms[j])
  {
    seq(|syms|, j requires 0 <= j < |syms| => Text(bytes, syms[j]))
  }

  lemma CutAppend(bytes: Bytes, syms: seq<Sym>, i: nat, cl: nat)
    requires Cut(bytes, syms, 0, i) && cl > 0 && i + cl <= |bytes| && (syms == [] ==> i == 0)
    ensures var s := Sym(i, cl, if syms == [] then -1 else |syms| - 1, -1);
            && Cut(bytes, syms + [s], 0, i + cl)
            && Texts(bytes, syms + [s]) == Texts(bytes, syms) + [bytes[i..i + cl]]
  {
    var syms' := syms + [Sym(i, cl, if syms == [] then -1 else |syms| - 1, -1)];
    var e := i + cl;
    forall j: nat | j < |syms'|
      ensures CutAt(bytes, syms', 0, e, j)
    {
      assert j < |syms| ==> CutAt(bytes, syms, 0, i, j);
    }
  }

  /** One symbol per code point, next-pointers not set yet. */
  method CutSymbols(bytes: Bytes) returns (syms: seq<Sym>)
    ensures Cut(bytes, syms, 0, |bytes|) && Texts(bytes, syms) == CodePoints(bytes)
  {
    syms := [];
    var i := 0;
    CutNone(bytes);
    hide Cut, FirstLen, CodePoints, Texts;
    while i < |bytes|
      invariant i <= |bytes| && (syms == [] ==> i == 0)
      invariant Cut(bytes, syms, 0, i)
      invariant Texts(bytes, syms) + CodePoints(bytes[i..]) == CodePoints(bytes)
    {
      var cl := FirstLen(bytes[i..]);
      CodePointsStep(bytes, i, Texts(bytes, syms));
      CutAppend(bytes, syms, i, cl);
      syms := syms + [Sym(i, cl, if |syms| == 0 then -1 else |syms| - 1, -1)];
      i := i + cl;
    }
    CutAll(bytes, syms);
  }

  lemma CutNone(bytes: Bytes)
    ensures Cut(bytes, [], 0, 0) && Texts(bytes, []) + CodePoints(bytes[0..]) == CodePoints(bytes)
  {
    assert bytes[0..] == bytes;
  }

  lemma CutAll(bytes: Bytes, syms: seq<Sym>)
    requires Cut(bytes, syms, 0, |bytes|)
    requires Texts(bytes, syms) + CodePoints(bytes[|bytes|..]) == CodePoints(bytes)
    ensures Texts(bytes, syms) == CodePoints(bytes)
  {
    assert CodePoints(bytes[|bytes|..]) == [];
  }

  lemma CutLink(bytes: Bytes, syms: seq<Sym>, l: nat)
    requires Cut(bytes, syms, l, |bytes|) && l < |syms|
    ensures Cut(bytes, syms[l := syms[l].(next := l + 1)], l + 1, |bytes|)
    ensures Texts(bytes, syms[l := syms[l].(next := l + 1)]) == Texts(bytes, syms)
  {
    var syms' := syms[l := syms[l].(next := l + 1)];
    var l' := l + 1;
    forall j: nat | j < |syms'|
      ensures CutAt(bytes, syms', l', |bytes|, j)
    {
      assert CutAt(bytes, syms, l, |bytes|, j);
    }
  }

  method LinkNext(bytes: Bytes, symbols: array<Sym>)
    requires 0 < symbols.Length && Cut(bytes, symbols[..], 0, |bytes|)
    modifies symbols
    ensures Cut(bytes, symbols[..], symbols.Length - 1, |bytes|)
    ensures Texts(bytes, symbols[..]) == old(Texts(bytes, symbols[..]))
  {
    for l := 0 to symbols.Length - 1
      invariant Cut(bytes, symbols[..], l, |bytes|)
      invariant Texts(bytes, symbols[..]) == old(Texts(bytes, symbols[..]))
    {
      ghost var before := symbols[..];
      CutLink(bytes, before, l);
      symbols[l] := symbols[l].(next := l + 1);
      assert symbols[..] == before[l := before[l].(next := l + 1)];
    }
  }

  ghost function Upto(n: nat): (s: seq<nat>)
    ensures |s| == n && forall i :: 0 <= i < n ==> s[i] == i
  {
    seq(n, i requires 0 <= i < n => i)
  }

  lemma CutIsShape(bytes: Bytes, syms: seq<Sym>)
    requires |syms| > 0 && Cut(bytes, syms, |syms| - 1, |bytes|)
    ensures Shape(bytes, syms, Upto(|syms|))
    ensures Pieces(bytes, syms, Upto(|syms|)) == Texts(bytes, syms)
  {
    var live, linked := Upto(|syms|), |syms| - 1;
    forall k | 0 <= k < |live|
      ensures LinkAt(bytes, syms, live, k)
    {
      assert CutAt(bytes, syms, linked, |bytes|, k);
    }
    forall i: nat | Alive(syms, i)
      ensures i in live
    {
      assert live[i] == i;
    }
  }

  /** One live symbol per code point, in order. */
  method BuildSymbols(bytes: Bytes) returns (symbols: array<Sym>)
    requires bytes != []
    ensures fresh(symbols) && 0 < symbols.Length
    ensures Shape(bytes, symbols[..], Upto(symbols.Length))
    ensures Pieces(bytes, symbols[..], Upto(symbols.Length)) == CodePoints(bytes)
  {
    var syms := CutSymbols(bytes);
    symbols := new Sym[|syms|](i requires 0 <= i < |syms| => syms[i]);
    assert symbols[..] == syms;
    LinkNext(bytes, symbols);
    CutIsShape(bytes, symbols[..]);
  }

  // ---------- heap ----------

  lemma {:induction false} MinExists(queue: multiset<Bigram>)
    requires queue != multiset{}
    ensures exists b :: IsMin(queue, b)
    decreases |queue|
  {
    var x :| x in queue;
    var rest := queue - multiset{x};
    if rest == multiset{} {
      assert queue == multiset{x};
      assert IsMin(queue, x);
    } else {
      MinExists(rest);
      var b :| IsMin(rest, b);
      forall c | c in queue
        ensures c == x || c in rest
      {
      }
      if Before(x, b) {
        assert IsMin(queue, x);
      } else {
        assert IsMin(queue, b);
      }
    }
  }

  /** `BinaryHeap::pop`: removes one least entry; which of several equal ones is not specified. */
  method Pop(queue: multiset<Bigram>) returns (b: Bigram, rest: multiset<Bigram>)
    requires queue != multiset{}
    ensures IsMin(queue, b) && b in queue && rest == queue - multiset{b} && |rest| == |queue| - 1
  {
    MinExists(queue);
    b :| b in queue && forall c :: c in queue ==> !Before(c, b);
    rest := queue - multiset{b};
  }

  method TryPush(queue: multiset<Bigram>, left: int, right: int, symbols: array<Sym>, bytes: Bytes, tok: Tokenizer)
    returns (queue': multiset<Bigram>)
    requires 0 <= left < symbols.Length && 0 <= right < symbols.Length
    requires symbols[left].start + symbols[left].len <= |bytes|
    requires symbols[right].start + symbols[right].len <= |bytes|
    ensures var key := (Text(bytes, symbols[left]), Text(bytes, symbols[right]));
            queue' == queue + if key in tok.mergesRank
                              then multiset{Bigram(tok.mergesRank[key], left, right, key.0 + key.1)}
                              else multiset{}
  {
    var l, r := symbols[left], symbols[right];
    var lb, rb := bytes[l.start..l.start + l.len], bytes[r.start..r.start + r.len];
    if (lb, rb) in tok.mergesRank {
      queue' := queue + multiset{Bigram(tok.mergesRank[(lb, rb)], left, right, lb + rb)};
    } else {
      queue' := queue;
    }
  }

  /** Pushes the pair at positions j, j + 1 of the list. */
  method PushPair(queue: multiset<Bigram>, symbols: array<Sym>, bytes: Bytes, tok: Tokenizer,
                  left: int, right: int, ghost live: seq<nat>, ghost j: nat)
    returns (queue': multiset<Bigram>)
    requires Shape(bytes, symbols[..], live)
    requires j + 1 < |live| && left == live[j] && right == live[j + 1]
    ensures queue' == queue + Pushed(bytes, tok.mergesRank, symbols[..], live, j)
  {
    assert LinkAt(bytes, symbols[..], live, j) && LinkAt(bytes, symbols[..], live, j + 1);
    queue' := TryPush(queue, left, right, symbols, bytes, tok);
  }

  /** b is the entry of the ranked pair at some place below n. */
  ghost predicate Stands(bytes: Bytes, m: MergeRanks, syms: seq<Sym>, live: seq<nat>, b: Bigram, n: nat)
    requires forall j :: 0 <= j < |live| ==> live[j] < |syms|
  {
    exists k: nat :: k < n && Ranked(m, Pieces(bytes, syms, live), k) && b == EntryFor(bytes, m, syms, live, k)
  }

  /** The queue holds the entry of each ranked pair below n once, and nothing else. */
  ghost predicate Seeded(bytes: Bytes, m: MergeRanks, syms: seq<Sym>, live: seq<nat>, queue: multiset<Bigram>, n: nat)
    requires forall j :: 0 <= j < |live| ==> live[j] < |syms|
  {
    forall b: Bigram :: queue[b] == if Stands(bytes, m, syms, live, b, n) then 1 else 0
  }

  /** Entries of different places differ in their left end. */
  lemma StandsNext(bytes: Bytes, m: MergeRanks, syms: seq<Sym>, live: seq<nat>, b: Bigram, n: nat)
    requires Shape(bytes, syms, live) && n + 1 < |live|
    ensures Ranked(m, Pieces(bytes, syms, live), n) && b == EntryFor(bytes, m, syms, live, n) ==>
              !Stands(bytes, m, syms, live, b, n)
    ensures Stands(bytes, m, syms, live, b, n + 1) <==>
              Stands(bytes, m, syms, live, b, n)
              || (Ranked(m, Pieces(bytes, syms, live), n) && b == EntryFor(bytes, m, syms, live, n))
  {
    hide LinkAt, Ranked, RankAt;
    if Stands(bytes, m, syms, live, b, n) {
      var k: nat :| k < n && Ranked(m, Pieces(bytes, syms, live), k) && b == EntryFor(bytes, m, syms, live, k);
      assert live[k] < live[n];
    }
  }

  lemma SeedNext(bytes: Bytes, m: MergeRanks, syms: seq<Sym>, live: seq<nat>, queue: multiset<Bigram>, n: nat)
    requires Shape(bytes, syms, live) && n + 1 < |live| && Seeded(bytes, m, syms, live, queue, n)
    ensures Seeded(bytes, m, syms, live, queue + Pushed(bytes, m, syms, live, n), n + 1)
  {
    var next := queue + Pushed(bytes, m, syms, live, n);
    hide LinkAt, Stands, EntryFor, Ranked;
    forall b: Bigram
      ensures next[b] == if Stands(bytes, m, syms, live, b, n + 1) then 1 else 0
    {
      StandsNext(bytes, m, syms, live, b, n);
    }
  }

  lemma SeededInv(bytes: Bytes, m: MergeRanks, syms: seq<Sym>, live: seq<nat>, queue: multiset<Bigram>)
    requires Shape(bytes, syms, live) && Seeded(bytes, m, syms, live, queue, |live| - 1)
    ensures Inv(bytes, m, syms, live, queue)
  {
    hide LinkAt, Sound, EntryFor;
    forall b | b in queue
      ensures Sound(bytes, m, syms, b)
    {
      assert Stands(bytes, m, syms, live, b, |live| - 1);
      var k: nat :| k < |live| - 1 && Ranked(m, Pieces(bytes, syms, live), k) && b == EntryFor(bytes, m, syms, live, k);
      EntrySound(bytes, m, syms, live, k);
    }
    forall k | Ranked(m, Pieces(bytes, syms, live), k)
      ensures EntryFor(bytes, m, syms, live, k) in queue
    {
      assert Stands(bytes, m, syms, live, EntryFor(bytes, m, syms, live, k), |live| - 1);
    }
  }

  /** Seeds the heap with every initial adjacent ranked pair, once each. */
  method Seed(symbols: array<Sym>, bytes: Bytes, tok: Tokenizer) returns (queue: multiset<Bigram>)
    requires 0 < symbols.Length && Shape(bytes, symbols[..], Upto(symbols.Length))
    ensures Seeded(bytes, tok.mergesRank, symbols[..], Upto(symbols.Length), queue, symbols.Length - 1)
    ensures Inv(bytes, tok.mergesRank, symbols[..], Upto(symbols.Length), queue)
  {
    queue := multiset{};
    ghost var syms, live, m := symbols[..], Upto(symbols.Length), tok.mergesRank;
    assert Seeded(bytes, m, syms, live, queue, 0);
    hide Seeded, Shape;
    for j := 0 to symbols.Length - 1
      invariant Seeded(bytes, m, syms, live, queue, j)
    {
      assert live[j] == j && live[j + 1] == j + 1;
      SeedNext(bytes, m, syms, live, queue, j);
      queue := PushPair(queue, symbols, bytes, tok, j, j + 1, live, j);
    }
    SeededInv(bytes, m, syms, live, queue);
  }

  /** The two slice comparisons of the staleness test amount to comparing the concatenation. */
  lemma SplitCompare(t: Bytes, l: Bytes, r: Bytes)
    ensures (|t| == |l| + |r| && t[..|l|] == l && t[|l|..] == r) <==> t == l + r
  {
    if |t| == |l| + |r| && t[..|l|] == l && t[|l|..] == r {
      assert t == t[..|l|] + t[|l|..];
    }
  }

  /** The staleness test of a popped bigram. */
  method Matches(bytes: Bytes, symbols: array<Sym>, bg: Bigram, ghost live: seq<nat>) returns (ok: bool)
    requires Shape(bytes, symbols[..], live)
    requires 0 <= bg.left < symbols.Length && 0 <= bg.right < symbols.Length
    ensures ok == TextMatches(bytes, symbols[..], bg)
  {
    var li, ri := bg.left, bg.right;
    if symbols[li].len == 0 || symbols[ri].len == 0 {
      return false;
    }
    ghost var i := PositionOf(bytes, symbols[..], live, li);
    ghost var j := PositionOf(bytes, symbols[..], live, ri);
    hide Shape, Sorted;
    var l := bytes[symbols[li].start..symbols[li].start + symbols[li].len];
    var r := bytes[symbols[ri].start..symbols[ri].start + symbols[ri].len];
    SplitCompare(bg.text, l, r);
    ok := |bg.text| == |l| + |r| && bg.text[..|l|] == l && bg.text[|l|..] == r;
  }

  /** Absorbs the right symbol into the left one, in place. */
  method MergeInPlace(symbols: array<Sym>, li: nat, ri: nat)
    requires li < symbols.Length && ri < symbols.Length && li != ri
    requires symbols[ri].next < symbols.Length && symbols[ri].next != li && symbols[ri].next != ri
    modifies symbols
    ensures symbols[..] == Absorb(old(symbols[..]), li, ri) && symbols[li].next == old(symbols[ri].next)
  {
    var newLen := symbols[li].len + symbols[ri].len;
    var newNext := symbols[ri].next;
    symbols[li] := symbols[li].(len := newLen);
    symbols[li] := symbols[li].(next := newNext);
    symbols[ri] := symbols[ri].(len := 0);
    if newNext >= 0 {
      symbols[newNext] := symbols[newNext].(prev := li);
    }
  }

  lemma Neighbours(bytes: Bytes, syms: seq<Sym>, live: seq<nat>, k: nat)
    requires Shape(bytes, syms, live) && k + 1 < |live|
    ensures var nn := syms[live[k + 1]].next;
            && live[k] != live[k + 1] && nn != live[k] && nn != live[k + 1]
            && nn == (if k + 2 < |live| then live[k + 2] else -1) && nn < |syms|
  {
    assert LinkAt(bytes, syms, live, k + 1);
    assert live[k] < live[k + 1];
    assert k + 2 < |live| ==> live[k + 1] < live[k + 2];
  }

  /** The two pushes at the boundaries of the symbol at position k. */
  method PushBoundaries(queue: multiset<Bigram>, symbols: array<Sym>, bytes: Bytes, tok: Tokenizer, left: nat,
                        newNext: int, ghost live: seq<nat>, ghost k: nat)
    returns (queue': multiset<Bigram>)
    requires Shape(bytes, symbols[..], live) && k < |live| && left == live[k]
    requires newNext == symbols[left].next
    ensures queue' == queue + Pushed(bytes, tok.mergesRank, symbols[..], live, k - 1)
                            + Pushed(bytes, tok.mergesRank, symbols[..], live, k)
  {
    assert LinkAt(bytes, symbols[..], live, k);
    var prevIdx := symbols[left].prev;
    queue' := queue;
    if prevIdx >= 0 {
      queue' := PushPair(queue', symbols, bytes, tok, prevIdx, left, live, k - 1);
    }
    if newNext >= 0 {
      queue' := PushPair(queue', symbols, bytes, tok, left, newNext, live, k);
    }
  }

  /** The popped bigram is valid and stands at position k: merge it and push its new neighbours. */
  method MergeStep(tok: Tokenizer, bytes: Bytes, symbols: array<Sym>, bg: Bigram, queue: multiset<Bigram>,
                   ghost whole: multiset<Bigram>, ghost live: seq<nat>, ghost k: nat)
    returns (queue': multiset<Bigram>, ghost live': seq<nat>)
    requires Inv(bytes, tok.mergesRank, symbols[..], live, whole)
    requires Ranked(tok.mergesRank, Pieces(bytes, symbols[..], live), k)
    requires bg == EntryFor(bytes, tok.mergesRank, symbols[..], live, k) && bg in whole
    requires queue == whole - multiset{bg}
    modifies symbols
    ensures |live'| == |live| - 1 && |queue'| <= |whole| + 1
    ensures Inv(bytes, tok.mergesRank, symbols[..], live', queue')
    ensures Pieces(bytes, symbols[..], live') == MergeAt(old(Pieces(bytes, symbols[..], live)), k)
  {
    ghost var syms, m := symbols[..], tok.mergesRank;
    EntryEnds(bytes, m, syms, live, k);
    Neighbours(bytes, syms, live, k);
    hide Shape, LinkAt, Sorted, Sound, Complete, Absorb, MergeAt, EntryFor, Ranked, Pieces, Without;
    var newNext := symbols[bg.right].next;
    MergeInPlace(symbols, bg.left, bg.right);
    live' := Without(live, k + 1);
    WithoutKeeps(live, k);
    AbsorbInv(bytes, m, syms, live, whole, k, symbols[..], live');
    queue' := PushBoundaries(queue, symbols, bytes, tok, bg.left, newNext, live', k);
    TwoPushes(bytes, m, symbols[..], live', k, whole, bg);
  }

  lemma EntryEnds(bytes: Bytes, m: MergeRanks, syms: seq<Sym>, live: seq<nat>, k: nat)
    requires Shape(bytes, syms, live) && Ranked(m, Pieces(bytes, syms, live), k)
    ensures k + 1 < |live| && live[k] < |syms| && live[k + 1] < |syms|
    ensures EntryFor(bytes, m, syms, live, k).left == live[k] && EntryFor(bytes, m, syms, live, k).right == live[k + 1]
  {
    hide LinkAt, Sorted;
  }

  lemma WithoutKeeps(live: seq<nat>, k: nat)
    requires k + 1 < |live|
    ensures |Without(live, k + 1)| == |live| - 1 && Without(live, k + 1)[k] == live[k]
  {
  }

  /** A pop and two pushes add at most one entry. */
  lemma TwoPushes(bytes: Bytes, m: MergeRanks, syms: seq<Sym>, live: seq<nat>, k: nat, whole: multiset<Bigram>, bg: Bigram)
    requires (forall j :: 0 <= j < |live| ==> live[j] < |syms|) && bg in whole
    ensures |whole - multiset{bg} + Pushed(bytes, m, syms, live, k - 1) + Pushed(bytes, m, syms, live, k)| <= |whole| + 1
  {
    assert |whole - multiset{bg}| == |whole| - 1;
    hide Ranked, Pieces, EntryFor;
  }

  lemma SoundBounds(bytes: Bytes, m: MergeRanks, syms: seq<Sym>, b: Bigram)
    requires Sound(bytes, m, syms, b)
    ensures 0 <= b.left < |syms| && 0 <= b.right < |syms|
  {
  }

  /** Drains the heap. The pieces left are those of the naive algorithm, and the merges were made at
      the positions, and in the order, of the naive algorithm. */
  method Drain(tok: Tokenizer, bytes: Bytes, symbols: array<Sym>, seeded: multiset<Bigram>, ghost live0: seq<nat>)
    returns (ghost live: seq<nat>, ghost trace: seq<nat>)
    requires Inv(bytes, tok.mergesRank, symbols[..], live0, seeded)
    modifies symbols
    ensures Shape(bytes, symbols[..], live)
    ensures Pieces(bytes, symbols[..], live) == NaiveMerge(tok.mergesRank, old(Pieces(bytes, symbols[..], live0)))
    ensures trace == NaiveTrace(tok.mergesRank, old(Pieces(bytes, symbols[..], live0)))
  {
    var queue := seeded;
    live, trace := live0, [];
    ghost var m, ps0 := tok.mergesRank, Pieces(bytes, symbols[..], live0);
    hide LinkAt, Sorted, Sound, Complete, Ranked, RankAt, Best, MergeAt, Pieces, TextMatches, EntryFor, IsMin,
         NaiveMerge, NaiveTrace;
    while queue != multiset{}
      invariant Inv(bytes, m, symbols[..], live, queue)
      invariant NaiveMerge(m, Pieces(bytes, symbols[..], live)) == NaiveMerge(m, ps0)
      invariant trace + NaiveTrace(m, Pieces(bytes, symbols[..], live)) == NaiveTrace(m, ps0)
      decreases 2 * |live| + |queue|
    {
      var bg, rest := Pop(queue);
      SoundBounds(bytes, m, symbols[..], bg);
      var ok := Matches(bytes, symbols, bg, live);
      if !ok {
        PopStale(bytes, m, symbols[..], live, queue, bg);
        queue := rest;
      } else {
        ghost var k := PopValid(bytes, m, symbols[..], live, queue, bg);
        NaiveStep(m, Pieces(bytes, symbols[..], live), trace);
        trace := trace + [k];
        queue, live := MergeStep(tok, bytes, symbols, bg, rest, queue, live, k);
      }
    }
    EmptyIsDone(bytes, m, symbols[..], live);
  }

  /** One newline-free chunk: emits exactly the naive algorithm's final pieces. */
  method BpeMergeChunk(tok: Tokenizer, raw: Bytes, out: seq<nat>) returns (out': seq<nat>)
    requires |tok.byteFallback| == 256
    ensures out' == out + EmitPieces(tok, ChunkPieces(tok, raw))
  {
    var bytes := NormalizeBytes(raw);
    if bytes == [] {
      assert ChunkPieces(tok, raw) == [];
      return out;
    }
    var symbols := BuildSymbols(bytes);
    var queue := Seed(symbols, bytes, tok);
    ghost var live, trace := Drain(tok, bytes, symbols, queue, Upto(symbols.Length));
    out' := EmitList(tok, bytes, symbols, live, out);
  }

  method FindRunEnd(input: Bytes, start: nat) returns (end: nat)
    requires start < |input|
    ensures start < end <= |input|
    ensures end == RunEnd(input, start + 1, input[start] == NEWLINE)
  {
    var isNl := input[start] == NEWLINE;
    end := start;
    while end < |input| && (input[end] == NEWLINE) == isNl
      invariant start <= end <= |input|
      invariant RunEnd(input, end, isNl) == RunEnd(input, start, isNl)
    {
      end := end + 1;
    }
  }

  lemma EncodeStep(tok: Tokenizer, input: Bytes, start: nat, end: nat, out: seq<nat>)
    requires |tok.byteFallback| == 256 && start < end <= |input|
    requires end == RunEnd(input, start + 1, input[start] == NEWLINE)
    ensures out + EncodeSegment(tok, input[start..])
            == out + EncodeRun(tok, input[start..end]) + EncodeSegment(tok, input[end..])
  {
    RunOfSuffix(input, start, end);
    hide EncodeRun, RunEnd;
  }

  /** Splits on newlines; newline runs are looked up whole. */
  method EncodeGemma4Bpe(tok: Tokenizer, input: Bytes) returns (out: seq<nat>)
    requires |tok.byteFallback| == 256
    ensures out == EncodeSegment(tok, input)
  {
    out := [];
    var start := 0;
    while start < |input|
      invariant start <= |input|
      invariant out + EncodeSegment(tok, input[start..]) == EncodeSegment(tok, input)
    {
      var end := FindRunEnd(input, start);
      EncodeStep(tok, input, start, end, out);
      assert input[start..end][0] == input[start];
      hide EncodeSegment, RunEnd, EmitPiece, EmitPieces, ChunkPieces;
      var chunk := input[start..end];
      if input[start] == NEWLINE {
        out := EmitText(tok, chunk, out);
      } else {
        out := BpeMergeChunk(tok, chunk, out);
      }
      start := end;
    }
    assert input[start..] == [];
  }
}
