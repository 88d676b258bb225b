/** Encoding and decoding of whole texts as functions (src/inference/tokenizer.rs, encode and decode). */
module Codec {
  import opened Tokens
  import opened SpaceMark
  import opened BpeSpec

  /** Index of the first b in s, or |s|. */
  function IndexOf(s: Bytes, b: Byte): (i: nat)
    ensures i <= |s| && (i < |s| ==> s[i] == b)
  {
    if s == [] || s[0] == b then 0 else 1 + IndexOf(s[1..], b)
  }

  lemma {:induction false} IndexOfFirst(s: Bytes, b: Byte, j: nat)
    requires j < IndexOf(s, b)
    ensures s[j] != b
  {
    if j > 0 {
      IndexOfFirst(s[1..], b, j - 1);
    }
  }

  // ---------- encode ----------

  /** Where the scan stops first: nowhere, at a `<...>` span (pos up to cut) that is in the vocabulary, or at
      a `<` that starts none. */
  datatype Stop = End | Special(pos: nat, cut: nat) | Plain(pos: nat)

  function NextStop(tok: Tokenizer, text: Bytes): (s: Stop)
    ensures match s
            case End => true
            case Special(pos, cut) =>
              pos + 1 < cut <= |text| && text[pos] == LESS && text[cut - 1] == GREATER && text[pos..cut] in tok.tokenToId
            case Plain(pos) => pos < |text| && text[pos] == LESS
  {
    var pos := IndexOf(text, LESS);
    if pos == |text| then End
    else
      var cut := pos + IndexOf(text[pos..], GREATER) + 1;
      if cut <= |text| && text[pos..cut] in tok.tokenToId then Special(pos, cut) else Plain(pos)
  }

  /** Whole text: a `<...>` span found in the vocabulary is one token, everything else is encoded
      segment by segment. */
  function Encode(tok: Tokenizer, text: Bytes): seq<nat>
    requires |tok.byteFallback| == 256
    decreases |text|
  {
    if text == [] then []
    else
      match NextStop(tok, text)
      case End => EncodeSegment(tok, text)
      case Special(pos, cut) =>
        EncodeSegment(tok, text[..pos]) + [tok.tokenToId[text[pos..cut]]] + Encode(tok, text[cut..])
      case Plain(pos) => EncodeSegment(tok, text[..pos]) + EncodeSegment(tok, [LESS]) + Encode(tok, text[pos + 1..])
  }

  /** Every id is a vocabulary index. */
  ghost predicate InVocab(tok: Tokenizer, ids: seq<nat>) {
    forall k :: 0 <= k < |ids| ==> ids[k] < |tok.vocab|
  }

  lemma {:induction false} EmitBytesInVocab(tok: Tokenizer, s: Bytes)
    requires tok.Valid()
    ensures InVocab(tok, EmitBytes(tok, s))
  {
    if s != [] {
      EmitBytesInVocab(tok, s[..|s| - 1]);
    }
  }

  lemma NoneInVocab(tok: Tokenizer)
    ensures InVocab(tok, [])
  {
  }

  lemma {:induction false} EmitUptoInVocab(tok: Tokenizer, ps: seq<Bytes>, n: nat)
    requires tok.Valid() && n <= |ps|
    ensures InVocab(tok, EmitUpto(tok, ps, n))
  {
    assert |tok.byteFallback| == 256;
    hide Tokenizer.Valid, EmitBytes, InVocab;
    if n == 0 {
      NoneInVocab(tok);
    } else {
      EmitUptoInVocab(tok, ps, n - 1);
      EmitBytesInVocab(tok, ps[n - 1]);
      InVocabAppend(tok, EmitUpto(tok, ps, n - 1), EmitBytes(tok, ps[n - 1]));
    }
  }

  lemma {:induction false} SegmentInVocab(tok: Tokenizer, s: Bytes)
    requires tok.Valid()
    ensures InVocab(tok, EncodeSegment(tok, s))
    decreases |s|
  {
    if s != [] {
      hide RunEnd, ChunkPieces, EmitBytes, EmitUpto;
      var e := RunEnd(s, 1, s[0] == NEWLINE);
      SegmentInVocab(tok, s[e..]);
      EmitBytesInVocab(tok, s[..e]);
      EmitUptoInVocab(tok, ChunkPieces(tok, s[..e]), |ChunkPieces(tok, s[..e])|);
    }
  }

  lemma InVocabAppend(tok: Tokenizer, a: seq<nat>, b: seq<nat>)
    requires InVocab(tok, a) && InVocab(tok, b)
    ensures InVocab(tok, a + b)
  {
  }

  lemma SpecialInVocab(tok: Tokenizer, t: Bytes)
    requires tok.Valid() && t in tok.tokenToId
    ensures InVocab(tok, [tok.tokenToId[t]])
  {
  }

  lemma JoinInVocab(tok: Tokenizer, a: seq<nat>, b: seq<nat>, c: seq<nat>)
    requires InVocab(tok, a) && InVocab(tok, b) && InVocab(tok, c)
    ensures InVocab(tok, a + b + c)
  {
    InVocabAppend(tok, a, b);
    InVocabAppend(tok, a + b, c);
  }

  /** Whatever the text, the embedding lookup never sees an id outside the vocabulary. */
  lemma {:induction false} EncodeInVocab(tok: Tokenizer, text: Bytes)
    requires tok.Valid()
    ensures InVocab(tok, Encode(tok, text))
    decreases |text|
  {
    assert |tok.byteFallback| == 256;
    NoneInVocab(tok);
    hide EncodeSegment, NextStop, InVocab, Tokenizer.Valid;
    if text != [] {
      match NextStop(tok, text)
      case End => SegmentInVocab(tok, text);
      case Special(pos, cut) =>
        SegmentInVocab(tok, text[..pos]);
        SpecialInVocab(tok, text[pos..cut]);
        EncodeInVocab(tok, text[cut..]);
        JoinInVocab(tok, EncodeSegment(tok, text[..pos]), [tok.tokenToId[text[pos..cut]]], Encode(tok, text[cut..]));
      case Plain(pos) =>
        SegmentInVocab(tok, text[..pos]);
        SegmentInVocab(tok, [LESS]);
        EncodeInVocab(tok, text[pos + 1..]);
        JoinInVocab(tok, EncodeSegment(tok, text[..pos]), EncodeSegment(tok, [LESS]), Encode(tok, text[pos + 1..]));
    }
  }

  /** The bytes `decode` collects before the final UTF-8 conversion; unknown ids are skipped. */
  function Decode(tok: Tokenizer, ids: seq<nat>): Bytes {
    if ids == [] then []
    else (if ids[0] < |tok.vocab| then Unmark(tok.vocab[ids[0]]) else []) + Decode(tok, ids[1..])
  }

  lemma DecodeStep(tok: Tokenizer, ids: seq<nat>, k: nat, bytes: Bytes)
    requires k < |ids|
    ensures bytes + Decode(tok, ids[k..])
            == bytes + (if ids[k] < |tok.vocab| then Unmark(tok.vocab[ids[k]]) else []) + Decode(tok, ids[k + 1..])
  {
    hide Unmark;
    assert ids[k..][1..] == ids[k + 1..];
  }

  lemma DecodeEmpty(tok: Tokenizer)
    ensures Decode(tok, []) == []
  {
  }

  /** `decode`; `lossy` is the final from_utf8_lossy. */
  method DecodeIds(tok: Tokenizer, ids: seq<nat>, lossy: Bytes -> Bytes) returns (text: Bytes)
    ensures text == lossy(Decode(tok, ids))
  {
    hide *;
    var bytes: Bytes := [];
    assert ids[0..] == ids;
    for k := 0 to |ids|
      invariant bytes + Decode(tok, ids[k..]) == Decode(tok, ids)
    {
      DecodeStep(tok, ids, k, bytes);
      if ids[k] < |tok.vocab| {
        bytes := UnmarkToken(tok.vocab[ids[k]], bytes);
      }
    }
    assert ids[|ids|..] == [];
    DecodeEmpty(tok);
    assert bytes == Decode(tok, ids);
    text := lossy(bytes);
  }
}
