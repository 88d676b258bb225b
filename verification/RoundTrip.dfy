/** Decoding an encoding gives the text back, on the Gemma 4 path. */
module RoundTrip {
  import opened Tokens
  import opened SpaceMark
  import opened BpeSpec
  import opened Codec

  // ---------- well-formed text ----------

  predicate Continuation(b: Byte) {
    0x80 <= b <= 0xBF
  }

  /** s starts with a whole code point. */
  predicate WholeFirst(s: Bytes) {
    && s != [] && !Continuation(s[0]) && CharLen(s[0]) <= |s|
    && (s[0] >= 0x80 ==> CharLen(s[0]) >= 2)
    && forall i :: 1 <= i < CharLen(s[0]) ==> Continuation(s[i])
  }

  /** A sequence of whole code points; every UTF-8 text is one (`Utf8.TextIsWellFormed`). */
  predicate WellFormed(s: Bytes) {
    s == [] || (WholeFirst(s) && WellFormed(s[CharLen(s[0])..]))
  }

  /** U+2581 starts at byte i. */
  predicate MarkAt(s: Bytes, i: int) {
    0 <= i < |s| - 2 && s[i] == 0xE2 && s[i + 1] == 0x96 && s[i + 2] == 0x81
  }

  ghost predicate NoMark(s: Bytes) {
    forall i :: !MarkAt(s, i)
  }

  lemma NoMarkSlice(s: Bytes, i: nat, j: nat)
    requires NoMark(s) && i <= j <= |s|
    ensures NoMark(s[i..j])
  {
    forall k
      ensures !MarkAt(s[i..j], k)
    {
      assert !MarkAt(s, i + k);
    }
  }

  lemma WholePrefix(s: Bytes, t: Bytes)
    requires WholeFirst(s)
    ensures WholeFirst(s + t) && CharLen((s + t)[0]) == CharLen(s[0])
  {
  }

  lemma {:induction false} WellFormedAppend(a: Bytes, b: Bytes)
    requires WellFormed(a) && WellFormed(b)
    ensures WellFormed(a + b)
  {
    if a == [] {
      assert a + b == b;
    } else {
      var n := CharLen(a[0]);
      WellFormedAppend(a[n..], b);
      WholePrefix(a, b);
      assert (a + b)[n..] == a[n..] + b;
    }
  }

  lemma NothingWellFormed()
    ensures WellFormed([])
  {
  }

  /** A text may be cut before any byte that is not a continuation byte. */
  lemma {:induction false} WellFormedCut(s: Bytes, i: nat)
    requires WellFormed(s) && i <= |s| && (i == |s| || !Continuation(s[i]))
    ensures WellFormed(s[..i]) && WellFormed(s[i..])
  {
    hide *;
    if i == 0 {
      NothingWellFormed();
      assert s[..i] == [] && s[i..] == s;
    } else {
      var n := CutBeyond(s, i);
      WellFormedCut(s[n..], i - n);
      CutAgain(s, n, i);
      WellFormedStep(s[..i], n);
    }
  }

  lemma WellFormedStep(s: Bytes, n: nat)
    requires WholeFirst(s) && n == CharLen(s[0]) <= |s| && WellFormed(s[n..])
    ensures WellFormed(s)
  {
  }

  lemma CutAgain(s: Bytes, n: nat, i: nat)
    requires n <= i <= |s|
    ensures s[n..][..i - n] == s[..i][n..] && s[n..][i - n..] == s[i..]
  {
  }

  /** Such a cut does not fall inside the first code point. */
  lemma CutBeyond(s: Bytes, i: nat) returns (n: nat)
    requires s != [] && WellFormed(s) && 0 < i <= |s| && (i == |s| || !Continuation(s[i]))
    ensures n == CharLen(s[0]) && 0 < n <= i && WellFormed(s[n..])
    ensures i < |s| ==> s[n..][i - n] == s[i]
    ensures WholeFirst(s[..i]) && s[..i][0] == s[0]
  {
    n := CharLen(s[0]);
    assert n <= i;
    hide WellFormed;
  }

  lemma {:induction false} AsciiPrefix(s: Bytes, e: nat)
    requires WellFormed(s) && e <= |s| && forall j :: 0 <= j < e ==> s[j] < 0x80
    ensures WellFormed(s[e..])
  {
    if e == 0 {
      assert s[e..] == s;
    } else {
      AsciiPrefix(s[1..], e - 1);
      assert s[1..][e - 1..] == s[e..];
    }
  }

  // ---------- unmarking ----------

  lemma {:induction false} UnmarkPlain(s: Bytes)
    requires NoMark(s)
    ensures Unmark(s) == s
  {
    if s != [] {
      assert !MarkAt(s, 0);
      NoMarkSlice(s, 1, |s|);
      assert s[1..|s|] == s[1..];
      UnmarkPlain(s[1..]);
    }
  }

  /** Continuation bytes pass through. */
  lemma {:induction false} UnmarkTail(c: Bytes, t: Bytes)
    requires forall i :: 0 <= i < |c| ==> Continuation(c[i])
    ensures Unmark(c + t) == c + Unmark(t)
  {
    if c == [] {
      assert c + t == t;
    } else {
      assert (c + t)[1..] == c[1..] + t;
      UnmarkTail(c[1..], t);
    }
  }

  lemma UnmarkMark(t: Bytes)
    ensures Unmark(MARK + t) == [SPACE] + Unmark(t)
  {
    assert (MARK + t)[3..] == t;
  }

  lemma UnmarkStep(s: Bytes)
    requires s != [] && !MarkAt(s, 0)
    ensures Unmark(s) == [s[0]] + Unmark(s[1..])
  {
  }

  lemma SplitTail(s: Bytes, n: nat)
    requires 1 <= n <= |s| && forall i :: 1 <= i < n ==> Continuation(s[i])
    ensures forall i :: 0 <= i < |s[1..n]| ==> Continuation(s[1..n][i])
    ensures s[1..] == s[1..n] + s[n..] && s[..n] == [s[0]] + s[1..n]
  {
  }

  lemma UnmarkOther(s: Bytes, n: nat)
    requires 1 <= n <= |s| && !MarkAt(s, 0) && forall i :: 1 <= i < n ==> Continuation(s[i])
    ensures Unmark(s) == s[..n] + Unmark(s[n..])
  {
    SplitTail(s, n);
    var c, t := s[1..n], s[n..];
    calc {
      Unmark(s);
      { UnmarkStep(s); }
      [s[0]] + Unmark(s[1..]);
      { UnmarkTail(c, t); }
      [s[0]] + (c + Unmark(t));
      { Assoc([s[0]], c, Unmark(t)); }
      ([s[0]] + c) + Unmark(t);
    }
  }

  /** The first code point of s is unmarked on its own. */
  lemma UnmarkFirst(s: Bytes)
    requires WholeFirst(s)
    ensures var n := CharLen(s[0]);
            Unmark(s) == (if MarkAt(s, 0) then [SPACE] else s[..n]) + Unmark(s[n..])
  {
    hide Unmark;
    if MarkAt(s, 0) {
      assert s == MARK + s[3..];
      UnmarkMark(s[3..]);
    } else {
      UnmarkOther(s, CharLen(s[0]));
    }
  }

  lemma CutFirst(a: Bytes, b: Bytes, n: nat)
    requires n <= |a|
    ensures (a + b)[n..] == a[n..] + b && (a + b)[..n] == a[..n]
  {
  }

  lemma {:induction false} UnmarkAppend(a: Bytes, b: Bytes)
    requires WellFormed(a)
    ensures Unmark(a + b) == Unmark(a) + Unmark(b)
  {
    if a == [] {
      assert a + b == b;
    } else {
      var n := CharLen(a[0]);
      WholePrefix(a, b);
      UnmarkFirst(a);
      UnmarkFirst(a + b);
      UnmarkAppend(a[n..], b);
      CutFirst(a, b, n);
      var head := if MarkAt(a, 0) then [SPACE] else a[..n];
      assert MarkAt(a + b, 0) == MarkAt(a, 0);
      hide Unmark, WellFormed, CharLen, WholeFirst, MarkAt;
      Assoc(head, Unmark(a[n..]), Unmark(b));
    }
  }

  lemma {:induction false} NormalizePlain(c: Bytes)
    requires SPACE !in c
    ensures Normalize(c) == c
  {
    if c != [] {
      var n := |c| - 1;
      NormalizePlain(c[..n]);
      assert c[n] in c;
      assert c == c[..n] + [c[n]];
    }
  }

  lemma NormalizeFirst(s: Bytes)
    requires WholeFirst(s)
    ensures var n := CharLen(s[0]);
            Normalize(s) == (if s[0] == SPACE then MARK else s[..n]) + Normalize(s[n..])
  {
    hide Normalize;
    var n := CharLen(s[0]);
    assert s == s[..n] + s[n..];
    NormalizeAppend(s[..n], s[n..]);
    if s[0] == SPACE {
      assert s[..n] == [SPACE];
      NormalizeSpace();
    } else {
      NormalizePlain(s[..n]);
    }
  }

  lemma NormalizeSpace()
    ensures Normalize([SPACE]) == MARK
  {
    assert Normalize([SPACE][..0]) == [];
  }

  /** The first code point, spaces replaced, is itself one code point, and unmarks to the original. */
  lemma HeadRoundTrip(s: Bytes, head: Bytes)
    requires WholeFirst(s) && !MarkAt(s, 0)
    requires head == if s[0] == SPACE then MARK else s[..CharLen(s[0])]
    ensures WellFormed(head) && Unmark(head) == s[..CharLen(s[0])]
  {
    var n := CharLen(s[0]);
    if s[0] == SPACE {
      assert MARK[3..] == [] && WellFormed([]) && WholeFirst(MARK);
      assert MARK + [] == MARK;
      UnmarkMark([]);
      assert s[..n] == [SPACE];
    } else {
      assert WholeFirst(head) && head[n..] == [] && WellFormed([]);
      assert !MarkAt(head, 0);
      UnmarkOther(head, n);
      assert head[..n] == head;
    }
  }

  /** Mapping spaces to U+2581 and back is the identity on text without U+2581. */
  lemma {:induction false} UnmarkNormalize(s: Bytes)
    requires WellFormed(s) && NoMark(s)
    ensures WellFormed(Normalize(s)) && Unmark(Normalize(s)) == s
  {
    if s != [] {
      hide Unmark, Normalize;
      var n := CharLen(s[0]);
      assert !MarkAt(s, 0);
      NormalizeFirst(s);
      NoMarkSlice(s, n, |s|);
      assert s[n..|s|] == s[n..] && s == s[..n] + s[n..];
      UnmarkNormalize(s[n..]);
      var head := if s[0] == SPACE then MARK else s[..n];
      HeadRoundTrip(s, head);
      WellFormedAppend(head, Normalize(s[n..]));
      UnmarkAppend(head, Normalize(s[n..]));
    }
  }

  // ---------- pieces ----------

  ghost predicate AllWellFormed(ps: seq<Bytes>) {
    forall k :: 0 <= k < |ps| ==> WellFormed(ps[k])
  }

  lemma {:induction false} CodePointsWellFormed(s: Bytes)
    requires WellFormed(s)
    ensures AllWellFormed(CodePoints(s))
  {
    if s != [] {
      var n := CharLen(s[0]);
      CodePointsWellFormed(s[n..]);
      assert WholeFirst(s[..n]) && s[..n][n..] == [];
    }
  }

  lemma {:induction false} NaiveMergeWellFormed(m: MergeRanks, ps: seq<Bytes>)
    requires AllWellFormed(ps)
    ensures AllWellFormed(NaiveMerge(m, ps))
    decreases |ps|
  {
    var k := Best(m, ps);
    if k != -1 {
      WellFormedAppend(ps[k], ps[k + 1]);
      var ps' := MergeAt(ps, k);
      forall j | 0 <= j < |ps'|
        ensures WellFormed(ps'[j])
      {
        assert ps'[j] == if j < k then ps[j] else if j == k then ps[k] + ps[k + 1] else ps[j + 1];
      }
      NaiveMergeWellFormed(m, ps');
    }
  }

  ghost predicate AllKnown(tok: Tokenizer, ps: seq<Bytes>) {
    forall k :: 0 <= k < |ps| ==> ps[k] in tok.tokenToId
  }

  lemma {:induction false} DecodeAppend(tok: Tokenizer, a: seq<nat>, b: seq<nat>)
    ensures Decode(tok, a + b) == Decode(tok, a) + Decode(tok, b)
  {
    hide Unmark;
    if a == [] {
      assert a + b == b;
    } else {
      assert (a + b)[1..] == a[1..] + b;
      DecodeAppend(tok, a[1..], b);
    }
  }

  lemma DecodeKnown(tok: Tokenizer, p: Bytes)
    requires tok.Valid() && p in tok.tokenToId
    ensures Decode(tok, [tok.tokenToId[p]]) == Unmark(p)
    ensures EmitPiece(tok, p) == [tok.tokenToId[p]]
  {
    hide Unmark;
    var ids := [tok.tokenToId[p]];
    assert ids[1..] == [];
    assert Decode(tok, ids[1..]) == [];
  }

  lemma {:induction false} ConcatTake(ps: seq<Bytes>, n: nat)
    requires n < |ps|
    ensures Concat(ps[..n + 1]) == Concat(ps[..n]) + ps[n]
  {
    assert ps[..n + 1] == ps[..n] + [ps[n]];
    ConcatAppend(ps[..n], [ps[n]]);
    assert [ps[n]][1..] == [];
  }

  lemma {:induction false} ConcatWellFormed(ps: seq<Bytes>)
    requires AllWellFormed(ps)
    ensures WellFormed(Concat(ps))
  {
    if ps != [] {
      ConcatWellFormed(ps[1..]);
      WellFormedAppend(ps[0], Concat(ps[1..]));
    }
  }

  lemma {:induction false} DecodePieces(tok: Tokenizer, ps: seq<Bytes>, n: nat)
    requires tok.Valid() && AllWellFormed(ps) && AllKnown(tok, ps) && n <= |ps|
    ensures Decode(tok, EmitUpto(tok, ps, n)) == Unmark(Concat(ps[..n]))
  {
    if n > 0 {
      hide Unmark, Decode, Concat, WellFormed, EmitPiece;
      DecodePieces(tok, ps, n - 1);
      DecodeAppend(tok, EmitUpto(tok, ps, n - 1), EmitPiece(tok, ps[n - 1]));
      DecodeKnown(tok, ps[n - 1]);
      ConcatTake(ps, n - 1);
      ConcatWellFormed(ps[..n - 1]);
      UnmarkAppend(Concat(ps[..n - 1]), ps[n - 1]);
    }
  }

  /** One newline-free chunk. */
  lemma DecodeChunk(tok: Tokenizer, raw: Bytes)
    requires tok.Valid() && WellFormed(raw) && NoMark(raw) && AllKnown(tok, ChunkPieces(tok, raw))
    ensures Decode(tok, EmitPieces(tok, ChunkPieces(tok, raw))) == raw
  {
    hide Unmark, Decode, Concat, WellFormed, EmitPiece, EmitUpto;
    var cps, ps := CodePoints(Normalize(raw)), ChunkPieces(tok, raw);
    UnmarkNormalize(raw);
    CodePointsWellFormed(Normalize(raw));
    NaiveMergeWellFormed(tok.mergesRank, cps);
    DecodePieces(tok, ps, |ps|);
    assert ps[..|ps|] == ps;
    NaiveMergeKeepsBytes(tok.mergesRank, cps);
    CodePointsKeepBytes(Normalize(raw));
  }

  /** Newline runs: one token, or one token per newline. */
  lemma {:induction false} DecodeNewlines(tok: Tokenizer, s: Bytes)
    requires tok.Valid() && (forall i :: 0 <= i < |s| ==> s[i] == NEWLINE) && [NEWLINE] in tok.tokenToId
    ensures Decode(tok, EmitBytes(tok, s)) == s
  {
    if s != [] {
      hide Unmark, Decode;
      var n := |s| - 1;
      DecodeNewlines(tok, s[..n]);
      DecodeAppend(tok, EmitBytes(tok, s[..n]), EmitByte(tok, s[n]));
      DecodeKnown(tok, [NEWLINE]);
      UnmarkPlain([NEWLINE]);
      assert s == s[..n] + [s[n]];
    }
  }

  /** The final pieces of every run of the segment are vocabulary entries. */
  ghost predicate SegmentKnown(tok: Tokenizer, s: Bytes)
    decreases |s|
  {
    s == [] ||
    var nl := s[0] == NEWLINE;
    var e := RunEnd(s, 1, nl);
    && (if nl then s[..e] in tok.tokenToId || [NEWLINE] in tok.tokenToId else AllKnown(tok, ChunkPieces(tok, s[..e])))
    && SegmentKnown(tok, s[e..])
  }

  lemma RunWellFormed(s: Bytes, e: nat)
    requires s != [] && WellFormed(s) && e == RunEnd(s, 1, s[0] == NEWLINE)
    ensures WellFormed(s[e..]) && (s[0] != NEWLINE ==> WellFormed(s[..e]))
  {
    hide WellFormed, RunEnd;
    if s[0] == NEWLINE {
      AsciiPrefix(s, e);
    } else {
      WellFormedCut(s, e);
    }
  }

  lemma DecodeRun(tok: Tokenizer, s: Bytes, e: nat)
    requires tok.Valid() && s != [] && WellFormed(s) && NoMark(s) && SegmentKnown(tok, s)
    requires e == RunEnd(s, 1, s[0] == NEWLINE)
    ensures Decode(tok, EncodeRun(tok, s[..e])) == s[..e]
  {
    hide Unmark, Decode, WellFormed, EmitPieces, RunEnd;
    RunWellFormed(s, e);
    NoMarkSlice(s, 0, e);
    assert s[0..e] == s[..e];
    if s[0] != NEWLINE {
      DecodeChunk(tok, s[..e]);
    } else if s[..e] in tok.tokenToId {
      DecodeKnown(tok, s[..e]);
      UnmarkPlain(s[..e]);
    } else {
      DecodeNewlines(tok, s[..e]);
    }
  }

  lemma EncodeEmpty(tok: Tokenizer)
    requires tok.Valid()
    ensures |tok.byteFallback| == 256
    ensures Decode(tok, EncodeSegment(tok, [])) == [] && Decode(tok, Encode(tok, [])) == []
  {
  }

  lemma ValidTable(tok: Tokenizer)
    requires tok.Valid()
    ensures |tok.byteFallback| == 256
  {
  }

  lemma NoMarkSuffix(s: Bytes, i: nat)
    requires NoMark(s) && i <= |s|
    ensures NoMark(s[i..])
  {
    NoMarkSlice(s, i, |s|);
    assert s[i..|s|] == s[i..];
  }

  lemma SegmentStep(tok: Tokenizer, s: Bytes) returns (e: nat)
    requires |tok.byteFallback| == 256 && s != [] && SegmentKnown(tok, s)
    ensures 0 < e <= |s| && e == RunEnd(s, 1, s[0] == NEWLINE)
    ensures EncodeSegment(tok, s) == EncodeRun(tok, s[..e]) + EncodeSegment(tok, s[e..])
    ensures SegmentKnown(tok, s[e..])
  {
    hide EncodeRun, RunEnd;
    e := RunEnd(s, 1, s[0] == NEWLINE);
  }

  lemma {:induction false} DecodeSegment(tok: Tokenizer, s: Bytes)
    requires tok.Valid() && WellFormed(s) && NoMark(s) && SegmentKnown(tok, s)
    ensures Decode(tok, EncodeSegment(tok, s)) == s
    decreases |s|
  {
    hide *;
    if s == [] {
      EncodeEmpty(tok);
    } else {
      ValidTable(tok);
      var e := SegmentStep(tok, s);
      RunWellFormed(s, e);
      NoMarkSuffix(s, e);
      DecodeRun(tok, s, e);
      DecodeSegment(tok, s[e..]);
      DecodeAppend(tok, EncodeRun(tok, s[..e]), EncodeSegment(tok, s[e..]));
      assert s == s[..e] + s[e..];
    }
  }

  /** The same for a whole text: segments between special tokens are known; special tokens are by
      definition. */
  ghost predicate TextKnown(tok: Tokenizer, text: Bytes)
    decreases |text|
  {
    if text == [] then true
    else
      match NextStop(tok, text)
      case End => SegmentKnown(tok, text)
      case Special(pos, cut) => SegmentKnown(tok, text[..pos]) && TextKnown(tok, text[cut..])
      case Plain(pos) => SegmentKnown(tok, text[..pos]) && SegmentKnown(tok, [LESS]) && TextKnown(tok, text[pos + 1..])
  }

  /** Cutting around an ASCII byte. */
  lemma CutAround(s: Bytes, i: nat)
    requires WellFormed(s) && i < |s| && s[i] < 0x80
    ensures WellFormed(s[..i]) && WellFormed(s[i..]) && WellFormed(s[i + 1..])
  {
    WellFormedCut(s, i);
    AsciiPrefix(s[i..], 1);
    assert s[i..][1..] == s[i + 1..];
  }

  lemma DecodeSpecial(tok: Tokenizer, text: Bytes, pos: nat, end: nat)
    requires tok.Valid() && NoMark(text) && pos < |text| && pos + end < |text|
    requires text[pos..pos + end + 1] in tok.tokenToId
    ensures Decode(tok, [tok.tokenToId[text[pos..pos + end + 1]]]) == text[pos..pos + end + 1]
  {
    hide Unmark, Decode;
    NoMarkSlice(text, pos, pos + end + 1);
    UnmarkPlain(text[pos..pos + end + 1]);
    DecodeKnown(tok, text[pos..pos + end + 1]);
  }

  lemma Decode3(tok: Tokenizer, a: seq<nat>, b: seq<nat>, c: seq<nat>)
    ensures Decode(tok, a + b + c) == Decode(tok, a) + Decode(tok, b) + Decode(tok, c)
  {
    hide Decode;
    DecodeAppend(tok, a + b, c);
    DecodeAppend(tok, a, b);
  }

  /** The text before `<`, a matched special token, and the rest. */
  lemma DecodeMatched(tok: Tokenizer, text: Bytes, pos: nat, cut: nat)
    requires tok.Valid() && NoMark(text) && pos < cut <= |text| && WellFormed(text[..pos])
    requires SegmentKnown(tok, text[..pos]) && text[pos..cut] in tok.tokenToId
    requires Decode(tok, Encode(tok, text[cut..])) == text[cut..]
    ensures Decode(tok, EncodeSegment(tok, text[..pos]) + [tok.tokenToId[text[pos..cut]]] + Encode(tok, text[cut..])) == text
  {
    hide Unmark, Decode, WellFormed, EncodeSegment, SegmentKnown, Encode;
    NoMarkSlice(text, 0, pos);
    assert text[0..pos] == text[..pos];
    DecodeSegment(tok, text[..pos]);
    DecodeSpecial(tok, text, pos, cut - pos - 1);
    Decode3(tok, EncodeSegment(tok, text[..pos]), [tok.tokenToId[text[pos..cut]]], Encode(tok, text[cut..]));
    assert text == text[..pos] + text[pos..cut] + text[cut..];
  }

  /** The text before `<`, the `<` as ordinary text, and the rest. */
  lemma DecodeUnmatched(tok: Tokenizer, text: Bytes, pos: nat)
    requires tok.Valid() && NoMark(text) && pos < |text| && text[pos] == LESS && WellFormed(text[..pos])
    requires SegmentKnown(tok, text[..pos]) && SegmentKnown(tok, [LESS])
    requires Decode(tok, Encode(tok, text[pos + 1..])) == text[pos + 1..]
    ensures Decode(tok, EncodeSegment(tok, text[..pos]) + EncodeSegment(tok, [LESS]) + Encode(tok, text[pos + 1..])) == text
  {
    hide Unmark, Decode, WellFormed, EncodeSegment, SegmentKnown, Encode, NoMark;
    NoMarkSlice(text, 0, pos);
    assert text[0..pos] == text[..pos];
    DecodeSegment(tok, text[..pos]);
    LessIsPlain();
    DecodeSegment(tok, [LESS]);
    Decode3(tok, EncodeSegment(tok, text[..pos]), EncodeSegment(tok, [LESS]), Encode(tok, text[pos + 1..]));
    assert text == text[..pos] + [LESS] + text[pos + 1..];
  }

  lemma TextParts(text: Bytes, pos: nat, i: nat)
    requires WellFormed(text) && NoMark(text) && pos <= i < |text|
    requires text[pos] == LESS && (text[i] == LESS || text[i] == GREATER)
    ensures WellFormed(text[..pos]) && WellFormed(text[i + 1..]) && NoMark(text[i + 1..])
  {
    hide WellFormed;
    CutAround(text, pos);
    CutAround(text, i);
    NoMarkSlice(text, i + 1, |text|);
    assert text[i + 1..|text|] == text[i + 1..];
  }

  /** One step of `Encode` on a text whose pieces are known. */
  lemma EncodeOnce(tok: Tokenizer, text: Bytes, stop: Stop)
    requires |tok.byteFallback| == 256 && text != [] && TextKnown(tok, text) && stop == NextStop(tok, text)
    ensures stop.End? ==> Encode(tok, text) == EncodeSegment(tok, text) && SegmentKnown(tok, text)
    ensures !stop.End? ==> SegmentKnown(tok, text[..stop.pos])
    ensures stop.Special? ==>
              && TextKnown(tok, text[stop.cut..])
              && Encode(tok, text) == EncodeSegment(tok, text[..stop.pos])
                                      + [tok.tokenToId[text[stop.pos..stop.cut]]] + Encode(tok, text[stop.cut..])
    ensures stop.Plain? ==>
              && SegmentKnown(tok, [LESS]) && TextKnown(tok, text[stop.pos + 1..])
              && Encode(tok, text) == EncodeSegment(tok, text[..stop.pos])
                                      + EncodeSegment(tok, [LESS]) + Encode(tok, text[stop.pos + 1..])
  {
    hide EncodeSegment, SegmentKnown, NextStop;
  }

  /** Decode inverts Encode: well-formed text, no literal U+2581 in it, every final piece known. */
  lemma {:induction false} DecodeEncode(tok: Tokenizer, text: Bytes)
    requires tok.Valid() && WellFormed(text) && NoMark(text) && TextKnown(tok, text)
    ensures Decode(tok, Encode(tok, text)) == text
    decreases |text|
  {
    hide *;
    ValidTable(tok);
    if text == [] {
      EncodeEmpty(tok);
      return;
    }
    var stop := NextStop(tok, text);
    EncodeOnce(tok, text, stop);
    if stop.End? {
      DecodeSegment(tok, text);
    } else if stop.Special? {
      TextParts(text, stop.pos, stop.cut - 1);
      DecodeEncode(tok, text[stop.cut..]);
      DecodeMatched(tok, text, stop.pos, stop.cut);
    } else {
      TextParts(text, stop.pos, stop.pos);
      DecodeEncode(tok, text[stop.pos + 1..]);
      DecodeUnmatched(tok, text, stop.pos);
    }
  }

  lemma LessIsPlain()
    ensures WellFormed([LESS]) && NoMark([LESS])
  {
    assert [LESS][1..] == [];
    assert WellFormed([]);
    assert forall i :: !MarkAt([LESS], i);
  }

  /** Through the conversions at both ends: a text that from_utf8_lossy leaves alone, as it does any string,
      comes back from `decode`. */
  lemma TextRoundTrip(tok: Tokenizer, text: Bytes, lossy: Bytes -> Bytes)
    requires tok.Valid() && WellFormed(text) && NoMark(text) && TextKnown(tok, text) && lossy(text) == text
    ensures lossy(Decode(tok, Encode(tok, text))) == text
  {
    hide *;
    DecodeEncode(tok, text);
  }
}
