/** A vocabulary that has every merged pair and the characters of a text (src/inference/tokenizer_gemma4.rs,
    src/inference/tokenizer.rs): every piece is then known, and decoding the encoding gives the text back. */
module ClosedVocabulary {
  import opened Tokens
  import opened SpaceMark
  import opened BpeSpec
  import opened Codec
  import opened RoundTrip
  import opened EncodeLaws
  import opened Utf8

  /** Whatever the merges join is in the vocabulary. */
  ghost predicate Closed(tok: Tokenizer) {
    forall p :: p in tok.mergesRank ==> p.0 + p.1 in tok.tokenToId
  }

  /** So is every character of the text, U+2581 in place of a space. */
  ghost predicate CharsKnown(tok: Tokenizer, cs: seq<Scalar>) {
    forall i :: 0 <= i < |cs| ==> Encoded(if cs[i] == 0x20 then 0x2581 else cs[i]) in tok.tokenToId
  }

  lemma {:induction false} MergesKnown(tok: Tokenizer, ps: seq<Bytes>)
    requires Closed(tok) && AllKnown(tok, ps)
    ensures AllKnown(tok, NaiveMerge(tok.mergesRank, ps))
    decreases |ps|
  {
    var k := Best(tok.mergesRank, ps);
    if k != -1 {
      assert (ps[k], ps[k + 1]) in tok.mergesRank;
      var r := MergeAt(ps, k);
      forall j | 0 <= j < |r|
        ensures r[j] in tok.tokenToId
      {
        assert r[j] == if j < k then ps[j] else if j == k then ps[k] + ps[k + 1] else ps[j + 1];
      }
      MergesKnown(tok, r);
    }
    hide Best;
  }

  lemma ChunkKnown(tok: Tokenizer, cs: seq<Scalar>)
    requires Closed(tok) && CharsKnown(tok, cs)
    ensures AllKnown(tok, ChunkPieces(tok, Text(cs)))
  {
    hide Encoded, Text, NaiveMerge, CodePoints, Normalize, Closed;
    NormalizeText(cs);
    SymbolsAreChars(Replaced(cs, 0x20, 0x2581));
    MergesKnown(tok, Chars(Replaced(cs, 0x20, 0x2581)));
  }

  lemma TextAppend(a: seq<Scalar>, b: seq<Scalar>)
    ensures Text(a + b) == Text(a) + Text(b)
  {
    hide Encoded, Concat;
    ConcatAppend(Chars(a), Chars(b));
    assert Chars(a + b) == Chars(a) + Chars(b);
  }

  /** The first position of c, or the length. */
  function FirstAt(cs: seq<Scalar>, c: Scalar): (i: nat)
    ensures i <= |cs| && c !in cs[..i] && (i < |cs| ==> cs[i] == c)
  {
    if cs == [] || cs[0] == c then 0
    else
      var i := 1 + FirstAt(cs[1..], c);
      assert cs[..i] == [cs[0]] + cs[1..][..i - 1];
      i
  }

  // ---------- runs ----------

  /** How many leading characters are newlines like the first, or none like it. */
  function Lead(cs: seq<Scalar>): (n: nat)
    requires cs != []
    ensures 0 < n <= |cs| && forall i :: 0 <= i < n ==> (cs[i] == 0x0A <==> cs[0] == 0x0A)
    ensures n < |cs| ==> (cs[n] == 0x0A <==> cs[0] != 0x0A)
  {
    if |cs| == 1 || (cs[1] == 0x0A) != (cs[0] == 0x0A) then 1 else 1 + Lead(cs[1..])
  }

  lemma {:induction false} NewlineText(cs: seq<Scalar>)
    requires forall i :: 0 <= i < |cs| ==> cs[i] == 0x0A
    ensures forall i :: 0 <= i < |Text(cs)| ==> Text(cs)[i] == NEWLINE
  {
    hide Encoded, Text;
    if cs == [] {
      NoText();
    } else {
      TextFirst(cs);
      AsciiBytes();
      NewlineText(cs[1..]);
    }
  }

  lemma FirstByte(cs: seq<Scalar>)
    requires cs != []
    ensures Text(cs) != [] && (Text(cs)[0] == NEWLINE <==> cs[0] == 0x0A)
  {
    TextFirst(cs);
    EncodingShape(cs[0]);
    AsciiInChar(cs[0], NEWLINE);
    hide Text, Encoded;
    AsciiBytes();
  }

  /** The first run of the bytes is the text of the first run of characters. */
  lemma FirstRun(cs: seq<Scalar>, n: nat)
    requires cs != [] && n == Lead(cs)
    ensures Text(cs) == Text(cs[..n]) + Text(cs[n..]) && Text(cs) != []
    ensures Text(cs)[0] == NEWLINE <==> cs[0] == 0x0A
    ensures RunEnd(Text(cs), 1, Text(cs)[0] == NEWLINE) == |Text(cs[..n])|
  {
    hide Encoded, Text, RunEnd, Lead;
    var a, b := cs[..n], cs[n..];
    assert cs == a + b;
    TextAppend(a, b);
    FirstByte(cs);
    FirstByte(a);
    if b != [] {
      FirstByte(b);
    } else {
      NoText();
    }
    if cs[0] == 0x0A {
      NewlineText(a);
    } else {
      AsciiInText(a, NEWLINE);
    }
    RunKind(Text(a), cs[0] == 0x0A);
    RunEndIs(Text(cs), cs[0] == 0x0A, |Text(a)|);
  }

  lemma RunKind(s: Bytes, nl: bool)
    requires if nl then forall i :: 0 <= i < |s| ==> s[i] == NEWLINE else NEWLINE !in s
    ensures forall i :: 0 <= i < |s| ==> (s[i] == NEWLINE) == nl
  {
  }

  lemma SegmentKnownStep(tok: Tokenizer, s: Bytes, e: nat)
    requires s != [] && e == RunEnd(s, 1, s[0] == NEWLINE) && e <= |s|
    requires if s[0] == NEWLINE then [NEWLINE] in tok.tokenToId else AllKnown(tok, ChunkPieces(tok, s[..e]))
    requires SegmentKnown(tok, s[e..])
    ensures SegmentKnown(tok, s)
  {
    hide RunEnd, ChunkPieces, AllKnown;
  }

  lemma SegmentNone(tok: Tokenizer)
    ensures SegmentKnown(tok, []) && TextKnown(tok, [])
  {
  }

  lemma NewlineKnown(tok: Tokenizer, cs: seq<Scalar>, i: nat)
    requires CharsKnown(tok, cs) && i < |cs|
    ensures cs[i] == 0x0A ==> [NEWLINE] in tok.tokenToId
  {
    hide Encoded;
    AsciiBytes();
  }

  lemma {:induction false} SegmentOfChars(tok: Tokenizer, cs: seq<Scalar>)
    requires Closed(tok) && CharsKnown(tok, cs)
    ensures SegmentKnown(tok, Text(cs))
    decreases |cs|
  {
    hide Encoded, Text, Closed, SegmentKnown, ChunkPieces, AllKnown, RunEnd, Lead;
    if cs == [] {
      NoText();
      SegmentNone(tok);
    } else {
      var n := Lead(cs);
      FirstRun(cs, n);
      NewlineKnown(tok, cs, 0);
      ChunkKnown(tok, cs[..n]);
      SegmentOfChars(tok, cs[n..]);
      CutFirst(Text(cs[..n]), Text(cs[n..]), |Text(cs[..n])|);
      Whole(Text(cs[..n]), Text(cs[n..]));
      SegmentKnownStep(tok, Text(cs), |Text(cs[..n])|);
    }
  }

  lemma Whole(a: Bytes, b: Bytes)
    ensures a[|a|..] + b == b && a[..|a|] == a
  {
  }

  // ---------- special tokens ----------

  lemma TextKnownEnd(tok: Tokenizer, text: Bytes)
    requires NextStop(tok, text).End? && SegmentKnown(tok, text)
    ensures TextKnown(tok, text)
  {
    hide SegmentKnown, NextStop;
  }

  lemma TextKnownStop(tok: Tokenizer, text: Bytes, stop: Stop)
    requires stop == NextStop(tok, text) && !stop.End? && text != [] && SegmentKnown(tok, text[..stop.pos])
    requires stop.Special? ==> TextKnown(tok, text[stop.cut..])
    requires stop.Plain? ==> SegmentKnown(tok, [LESS]) && TextKnown(tok, text[stop.pos + 1..])
    ensures TextKnown(tok, text)
  {
    hide SegmentKnown, NextStop;
  }

  lemma NoStopIn(tok: Tokenizer, cs: seq<Scalar>)
    requires 0x3C !in cs
    ensures NextStop(tok, Text(cs)).End?
  {
    hide Encoded, Text;
    AsciiInText(cs, LESS);
    var s := Text(cs);
    assert s[..|s|] == s;
    IndexIs(s, LESS, |s|);
    hide IndexOf;
  }

  /** A text around its first `<`. */
  lemma AroundLess(cs: seq<Scalar>, p: nat)
    requires p == FirstAt(cs, 0x3C) < |cs|
    ensures Text(cs) == Text(cs[..p]) + ([LESS] + Text(cs[p + 1..])) && LESS !in Text(cs[..p])
  {
    hide Encoded, Text, FirstAt;
    var a, b := cs[..p], cs[p..];
    assert cs == a + b && b[1..] == cs[p + 1..];
    TextAppend(a, b);
    TextFirst(b);
    AsciiBytes();
    AsciiInText(a, LESS);
  }

  lemma AroundGreater(cs: seq<Scalar>, q: nat)
    requires q == FirstAt(cs, 0x3E) < |cs|
    ensures Text(cs) == Text(cs[..q]) + ([GREATER] + Text(cs[q + 1..])) && GREATER !in Text(cs[..q])
  {
    hide Encoded, Text, FirstAt;
    var a, b := cs[..q], cs[q..];
    assert cs == a + b && b[1..] == cs[q + 1..];
    TextAppend(a, b);
    TextFirst(b);
    AsciiBytes();
    AsciiInText(a, GREATER);
  }

  lemma PartKnown(tok: Tokenizer, cs: seq<Scalar>, i: nat, j: nat)
    requires CharsKnown(tok, cs) && i <= j <= |cs|
    ensures CharsKnown(tok, cs[i..j])
  {
    hide Encoded;
  }

  /** The scan stops at a `<` whose following text has a `>`. */
  lemma StopWithSpan(tok: Tokenizer, a: Bytes, b: Bytes, c: Bytes, text: Bytes) returns (stop: Stop)
    requires LESS !in a && GREATER !in b && text == a + ([LESS] + (b + ([GREATER] + c)))
    ensures text != [] && stop == NextStop(tok, text) && !stop.End? && text[..stop.pos] == a
    ensures stop.Special? ==> text[stop.cut..] == c
    ensures stop.Plain? ==> text[stop.pos + 1..] == b + ([GREATER] + c)
  {
    hide NextStop;
    SpanParts(a, b, c);
    StopIsSpecial(tok, a, b, c);
    stop := NextStop(tok, text);
  }

  lemma SpanParts(a: Bytes, b: Bytes, c: Bytes)
    ensures var text := a + ([LESS] + (b + ([GREATER] + c)));
            && text == a + ([LESS] + b + [GREATER]) + c && text[..|a|] == a
            && text[|a| + 1..] == b + ([GREATER] + c) && text[|a| + |b| + 2..] == c
  {
    Around(a, [LESS] + b + [GREATER], c);
  }

  lemma StopWithoutSpan(tok: Tokenizer, a: Bytes, b: Bytes, text: Bytes) returns (stop: Stop)
    requires LESS !in a && GREATER !in b && text == a + ([LESS] + b)
    ensures text != [] && stop == NextStop(tok, text) && stop.Plain? && text[..stop.pos] == a && text[stop.pos + 1..] == b
  {
    StopIsPlain(tok, a, b);
    stop := NextStop(tok, text);
    hide NextStop;
  }

  /** Every piece of such a text is known. */
  lemma {:induction false} TextOfChars(tok: Tokenizer, cs: seq<Scalar>)
    requires Closed(tok) && CharsKnown(tok, cs)
    ensures TextKnown(tok, Text(cs))
    decreases |cs|
  {
    hide Encoded, Text, Closed, CharsKnown, SegmentKnown, TextKnown, NextStop, FirstAt;
    var p := FirstAt(cs, 0x3C);
    if p == |cs| {
      assert cs[..p] == cs;
      SegmentOfChars(tok, cs);
      NoStopIn(tok, cs);
      TextKnownEnd(tok, Text(cs));
    } else {
      AroundLess(cs, p);
      BeforeLess(tok, cs, p);
      var rest := cs[p + 1..];
      PartKnown(tok, cs, p + 1, |cs|);
      assert cs[p + 1..|cs|] == rest;
      TextOfChars(tok, rest);
      var q := FirstAt(rest, 0x3E);
      if q < |rest| {
        AroundGreater(rest, q);
        PartKnown(tok, rest, q + 1, |rest|);
        assert rest[q + 1..|rest|] == rest[q + 1..];
        TextOfChars(tok, rest[q + 1..]);
        var stop := StopWithSpan(tok, Text(cs[..p]), Text(rest[..q]), Text(rest[q + 1..]), Text(cs));
        TextKnownStop(tok, Text(cs), stop);
      } else {
        assert rest[..q] == rest;
        AsciiInText(rest, GREATER);
        var stop := StopWithoutSpan(tok, Text(cs[..p]), Text(rest), Text(cs));
        TextKnownStop(tok, Text(cs), stop);
      }
    }
  }

  lemma BeforeLess(tok: Tokenizer, cs: seq<Scalar>, p: nat)
    requires Closed(tok) && CharsKnown(tok, cs) && p < |cs| && cs[p] == 0x3C
    ensures SegmentKnown(tok, Text(cs[..p])) && SegmentKnown(tok, [LESS])
  {
    hide Encoded, Text, Closed, CharsKnown, SegmentKnown;
    PartKnown(tok, cs, 0, p);
    assert cs[0..p] == cs[..p];
    SegmentOfChars(tok, cs[..p]);
    PartKnown(tok, cs, p, p + 1);
    assert cs[p..p + 1] == [cs[p]];
    SegmentOfChars(tok, cs[p..p + 1]);
    TextOfOne(cs[p]);
    AsciiBytes();
  }

  /** With a vocabulary that is closed under its merges, every text without U+2581 whose characters it has comes
      back from decoding its encoding: across special tokens, newlines, spaces, merges. */
  lemma EveryTextComesBack(tok: Tokenizer, cs: seq<Scalar>)
    requires tok.Valid() && Closed(tok) && CharsKnown(tok, cs) && 0x2581 !in cs
    ensures Decode(tok, Encode(tok, Text(cs))) == Text(cs)
  {
    hide *;
    TextOfChars(tok, cs);
    CharsRoundTrip(tok, cs);
  }
}
