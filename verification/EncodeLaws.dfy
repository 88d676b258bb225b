/** What the functions of `BpeSpec`, `Codec` and `Encoder` compute, in terms of the text and the vocabulary
    alone (src/inference/tokenizer_gemma4.rs, src/inference/tokenizer.rs). */
module EncodeLaws {
  import opened Tokens
  import opened BpeSpec
  import opened Codec
  import opened Encoder
  import SpaceMark

  // ---------- merging ----------

  /** While some adjacent pair is in the table, the one of lowest rank, leftmost among equals, is joined. */
  lemma MergesLowest(m: MergeRanks, ps: seq<Bytes>, k: nat)
    requires k + 1 < |ps| && (ps[k], ps[k + 1]) in m
    requires forall j :: 0 <= j < |ps| - 1 && (ps[j], ps[j + 1]) in m ==>
               m[(ps[k], ps[k + 1])] < m[(ps[j], ps[j + 1])]
               || (m[(ps[k], ps[k + 1])] == m[(ps[j], ps[j + 1])] && k <= j)
    ensures NaiveMerge(m, ps) == NaiveMerge(m, ps[..k] + [ps[k] + ps[k + 1]] + ps[k + 2..])
  {
    assert IsBest(m, ps, k);
    BestUnique(m, ps, k);
  }

  lemma MergesUntilNone(m: MergeRanks, ps: seq<Bytes>)
    requires forall j :: 0 <= j < |ps| - 1 ==> (ps[j], ps[j + 1]) !in m
    ensures NaiveMerge(m, ps) == ps
  {
    assert forall j :: !Ranked(m, ps, j);
  }

  // ---------- emission ----------

  /** The value of an upper-case hexadecimal digit. */
  function HexValue(c: Byte): int {
    if 0x30 <= c <= 0x39 then c as int - 0x30 else if 0x41 <= c <= 0x46 then c as int - 0x41 + 10 else -1
  }

  /** `<0x`, the two hexadecimal digits of the byte, `>`. */
  lemma FallbackKeyReads(b: nat)
    requires b < 256
    ensures var key := FallbackKey(b);
            && |key| == 6 && key[..3] == [0x3C, 0x30, 0x78] && key[5] == 0x3E
            && HexValue(key[3]) >= 0 && HexValue(key[4]) >= 0 && 16 * HexValue(key[3]) + HexValue(key[4]) == b
  {
    var q, r := b / 16, b % 16;
    HexDigit(q);
    HexDigit(r);
    hide HexValue;
  }

  lemma HexDigit(d: nat)
    requires d < 16
    ensures HexValue(HEX[d]) == d
  {
  }

  /** A table built from a vocabulary, as `FromTokens` builds it. */
  ghost predicate BuiltFrom(tok: Tokenizer, texts: seq<Bytes>) {
    && tok.Valid() && tok.vocab == texts
    && (forall t :: t in tok.tokenToId <==> t in texts)
    && (forall b: nat :: b < 256 ==> FallbackEntry(tok.tokenToId, b, tok.byteFallback[b]))
  }

  /** A byte becomes the entry whose text it is, else the entry `<0xNN>`, else nothing. */
  lemma EmitByteText(tok: Tokenizer, texts: seq<Bytes>, b: Byte)
    requires BuiltFrom(tok, texts)
    ensures |tok.byteFallback| == 256
    ensures var ids := EmitByte(tok, b);
            var key := if [b] in texts then [b] else FallbackKey(b as nat);
            if key in texts then |ids| == 1 && ids[0] < |texts| && texts[ids[0]] == key else ids == []
  {
    hide FallbackKey;
    assert FallbackEntry(tok.tokenToId, b as nat, tok.byteFallback[b as nat]);
  }

  /** Bytes are emitted one by one, in order. */
  lemma {:induction false} EmitBytesAppend(tok: Tokenizer, a: Bytes, b: Bytes)
    requires |tok.byteFallback| == 256
    ensures EmitBytes(tok, a + b) == EmitBytes(tok, a) + EmitBytes(tok, b)
  {
    hide EmitByte;
    if b == [] {
      assert a + b == a;
    } else {
      var n := |b| - 1;
      assert (a + b)[..|a + b| - 1] == a + b[..n];
      EmitBytesAppend(tok, a, b[..n]);
    }
  }

  lemma EmitOneByte(tok: Tokenizer, b: Byte)
    requires |tok.byteFallback| == 256
    ensures EmitBytes(tok, [b]) == EmitByte(tok, b)
  {
    assert [b][..0] == [];
  }

  /** A piece of the vocabulary is one token, the one with its text; any other is emitted byte by byte. */
  lemma EmitPieceText(tok: Tokenizer, texts: seq<Bytes>, p: Bytes)
    requires BuiltFrom(tok, texts)
    ensures |tok.byteFallback| == 256
    ensures var ids := EmitPiece(tok, p);
            if p in texts then |ids| == 1 && ids[0] < |texts| && texts[ids[0]] == p else ids == EmitBytes(tok, p)
  {
    hide EmitBytes;
  }

  lemma {:induction false} EmitUptoTake(tok: Tokenizer, ps: seq<Bytes>, n: nat)
    requires |tok.byteFallback| == 256 && n <= |ps|
    ensures EmitUpto(tok, ps, n) == EmitPieces(tok, ps[..n])
    decreases n
  {
    hide EmitPiece;
    if n > 0 {
      EmitUptoTake(tok, ps, n - 1);
      EmitUptoTake(tok, ps[..n], n - 1);
      assert ps[..n][..n - 1] == ps[..n - 1];
    }
  }

  /** Pieces are emitted one by one, in order. */
  lemma EmitPiecesNext(tok: Tokenizer, ps: seq<Bytes>, p: Bytes)
    requires |tok.byteFallback| == 256
    ensures EmitPieces(tok, []) == []
    ensures EmitPieces(tok, ps + [p]) == EmitPieces(tok, ps) + EmitPiece(tok, p)
  {
    hide EmitPiece;
    EmitUptoTake(tok, ps + [p], |ps|);
    assert (ps + [p])[..|ps|] == ps;
  }

  // ---------- segments ----------

  lemma RunEndIs(s: Bytes, nl: bool, e: nat)
    requires 1 <= e <= |s| && (forall j :: 1 <= j < e ==> (s[j] == NEWLINE) == nl)
    requires e == |s| || (s[e] == NEWLINE) != nl
    ensures RunEnd(s, 1, nl) == e
  {
    var r := RunEnd(s, 1, nl);
    assert r == |s| || (s[r] == NEWLINE) != nl;
    assert e == |s| || (s[e] == NEWLINE) != nl;
    hide RunEnd;
  }

  /** Text without a newline is cut into characters, merged and emitted. */
  lemma PlainSegment(tok: Tokenizer, s: Bytes)
    requires |tok.byteFallback| == 256 && s != [] && NEWLINE !in s
    ensures EncodeSegment(tok, s) == EmitPieces(tok, NaiveMerge(tok.mergesRank, CodePoints(SpaceMark.Normalize(s))))
  {
    RunEndIs(s, false, |s|);
    assert s[..|s|] == s && s[|s|..] == [];
    hide EmitPieces, NaiveMerge, CodePoints, EmitPiece, RunEnd, SpaceMark.Normalize;
  }

  /** Newlines alone are one piece. */
  lemma NewlineSegment(tok: Tokenizer, s: Bytes)
    requires |tok.byteFallback| == 256 && s != [] && forall i :: 0 <= i < |s| ==> s[i] == NEWLINE
    ensures EncodeSegment(tok, s) == EmitPiece(tok, s)
  {
    RunEndIs(s, true, |s|);
    assert s[..|s|] == s && s[|s|..] == [];
    hide EmitPieces, ChunkPieces, EmitPiece, RunEnd;
  }

  lemma SegmentFirst(tok: Tokenizer, s: Bytes, e: nat)
    requires |tok.byteFallback| == 256 && s != [] && e == RunEnd(s, 1, s[0] == NEWLINE)
    ensures e > 0 && EncodeSegment(tok, s) == EncodeRun(tok, s[..e]) + EncodeSegment(tok, s[e..])
  {
    hide EncodeRun, RunEnd;
  }

  lemma NoSegment(tok: Tokenizer)
    requires |tok.byteFallback| == 256
    ensures EncodeSegment(tok, []) == []
  {
  }

  /** The first run of a text that is cut there is the first run of the left part. */
  lemma FirstRunOf(tok: Tokenizer, a: Bytes, b: Bytes) returns (e: nat)
    requires |tok.byteFallback| == 256 && a != [] && b != []
    requires (a[|a| - 1] == NEWLINE) != (b[0] == NEWLINE)
    ensures 0 < e <= |a| && a[..e] != []
    ensures EncodeSegment(tok, a) == EncodeRun(tok, a[..e]) + EncodeSegment(tok, a[e..])
    ensures EncodeSegment(tok, a + b) == EncodeRun(tok, a[..e]) + EncodeSegment(tok, a[e..] + b)
    ensures e < |a| ==> a[e..][|a[e..]| - 1] == a[|a| - 1]
  {
    hide *;
    var nl := a[0] == NEWLINE;
    e := RunEnd(a, 1, nl);
    RunEndOfJoin(a, b, nl, e);
    SegmentFirst(tok, a, e);
    SegmentFirst(tok, a + b, e);
    assert (a + b)[..e] == a[..e] && (a + b)[e..] == a[e..] + b;
  }

  lemma RunEndOfJoin(a: Bytes, b: Bytes, nl: bool, e: nat)
    requires a != [] && b != [] && nl == (a[0] == NEWLINE) && e == RunEnd(a, 1, nl)
    requires (a[|a| - 1] == NEWLINE) != (b[0] == NEWLINE)
    ensures RunEnd(a + b, 1, nl) == e && (a + b)[0] == a[0]
  {
    hide RunEnd;
    var s := a + b;
    assert forall j :: 0 <= j < |a| ==> s[j] == a[j];
    assert s[|a|] == b[0];
    RunEndIs(s, nl, e);
  }

  /** Where newlines and other text meet, a segment falls apart into two. */
  lemma {:induction false} SegmentCut(tok: Tokenizer, a: Bytes, b: Bytes)
    requires |tok.byteFallback| == 256 && a != [] && b != []
    requires (a[|a| - 1] == NEWLINE) != (b[0] == NEWLINE)
    ensures EncodeSegment(tok, a + b) == EncodeSegment(tok, a) + EncodeSegment(tok, b)
    decreases |a|
  {
    hide *;
    var e := FirstRunOf(tok, a, b);
    if e == |a| {
      NoSegment(tok);
      assert a[e..] == [] && a[e..] + b == b;
    } else {
      SegmentCut(tok, a[e..], b);
      Assoc(EncodeRun(tok, a[..e]), EncodeSegment(tok, a[e..]), EncodeSegment(tok, b));
    }
  }

  // ---------- whole texts ----------

  lemma IndexIs(s: Bytes, b: Byte, i: nat)
    requires i <= |s| && b !in s[..i] && (i < |s| ==> s[i] == b)
    ensures IndexOf(s, b) == i
  {
    var k := IndexOf(s, b);
    assert forall j :: 0 <= j < i ==> s[j] == s[..i][j];
    if k > i {
      IndexOfFirst(s, b, i);
    }
    hide IndexOf;
  }

  /** A text without `<` is one segment. */
  lemma EncodePlain(tok: Tokenizer, text: Bytes)
    requires |tok.byteFallback| == 256 && LESS !in text
    ensures Encode(tok, text) == EncodeSegment(tok, text)
  {
    assert text[..|text|] == text;
    IndexIs(text, LESS, |text|);
    NoSegment(tok);
    hide IndexOf, EncodeSegment;
  }

  lemma Around(a: Bytes, b: Bytes, c: Bytes)
    ensures (a + b + c)[..|a|] == a && (a + b + c)[|a|..] == b + c
    ensures (a + b + c)[|a|..|a| + |b|] == b && (a + b + c)[|a| + |b|..] == c
  {
  }

  lemma StopIsSpecial(tok: Tokenizer, a: Bytes, b: Bytes, c: Bytes)
    requires LESS !in a && GREATER !in b
    ensures var span := [LESS] + b + [GREATER];
            NextStop(tok, a + span + c) ==
              if span in tok.tokenToId then Special(|a|, |a| + |b| + 2) else Plain(|a|)
  {
    var span := [LESS] + b + [GREATER];
    var text := a + span + c;
    Around(a, span, c);
    IndexIs(text, LESS, |a|);
    var after := span + c;
    assert after[..|b| + 1] == [LESS] + b;
    IndexIs(after, GREATER, |b| + 1);
    hide IndexOf;
  }

  /** The first `<`, up to the first `>` after it, is one token if the vocabulary has that text... */
  lemma EncodeSpan(tok: Tokenizer, a: Bytes, b: Bytes, c: Bytes)
    requires |tok.byteFallback| == 256 && LESS !in a && GREATER !in b && [LESS] + b + [GREATER] in tok.tokenToId
    ensures Encode(tok, a + ([LESS] + b + [GREATER]) + c)
            == EncodeSegment(tok, a) + [tok.tokenToId[[LESS] + b + [GREATER]]] + Encode(tok, c)
  {
    StopIsSpecial(tok, a, b, c);
    Around(a, [LESS] + b + [GREATER], c);
    hide NextStop, EncodeSegment;
  }

  /** ...and otherwise the `<` is encoded alone and the scan goes on right after it. */
  lemma EncodeNoSpan(tok: Tokenizer, a: Bytes, b: Bytes, c: Bytes)
    requires |tok.byteFallback| == 256 && LESS !in a && GREATER !in b && [LESS] + b + [GREATER] !in tok.tokenToId
    ensures Encode(tok, a + ([LESS] + b + [GREATER]) + c)
            == EncodeSegment(tok, a) + EncodeSegment(tok, [LESS]) + Encode(tok, b + [GREATER] + c)
  {
    var span := [LESS] + b + [GREATER];
    StopIsSpecial(tok, a, b, c);
    Around(a, span, c);
    assert (a + span + c)[|a| + 1..] == b + [GREATER] + c;
    hide NextStop, EncodeSegment;
  }

  lemma StopIsPlain(tok: Tokenizer, a: Bytes, b: Bytes)
    requires LESS !in a && GREATER !in b
    ensures NextStop(tok, a + ([LESS] + b)) == Plain(|a|)
  {
    var text, after := a + ([LESS] + b), [LESS] + b;
    assert text[|a|..] == after && text[..|a|] == a;
    IndexIs(text, LESS, |a|);
    assert after[..|after|] == after;
    IndexIs(after, GREATER, |after|);
    hide IndexOf;
  }

  /** So it is where no `>` follows. */
  lemma EncodeOpen(tok: Tokenizer, a: Bytes, b: Bytes)
    requires |tok.byteFallback| == 256 && LESS !in a && GREATER !in b
    ensures Encode(tok, a + ([LESS] + b)) == EncodeSegment(tok, a) + EncodeSegment(tok, [LESS]) + Encode(tok, b)
  {
    var text := a + ([LESS] + b);
    StopIsPlain(tok, a, b);
    assert text[..|a|] == a && text[|a| + 1..] == b;
    hide EncodeSegment, NextStop;
  }

  /** Decoding one id: its text with spaces for U+2581; an id outside the vocabulary gives nothing. */
  lemma DecodeOne(tok: Tokenizer, id: nat)
    ensures Decode(tok, [id]) == if id < |tok.vocab| then SpaceMark.Unmark(tok.vocab[id]) else []
  {
    assert [id][1..] == [];
    assert Decode(tok, [id][1..]) == [];
    hide SpaceMark.Unmark;
  }
}
