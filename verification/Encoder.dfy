/** Construction of the vocabulary maps, and special-token splitting (src/inference/tokenizer.rs, Gemma 4
    path). */
module Encoder {
  import opened Tokens
  import opened BpeSpec
  import opened BpeMerge
  import opened Codec
  import opened Options

  // ---------- vocabulary ----------

  const HEX: Bytes := [0x30, 0x31, 0x32, 0x33, 0x34, 0x35, 0x36, 0x37, 0x38, 0x39, 0x41, 0x42, 0x43, 0x44, 0x45, 0x46]

  /** The literal text `<0xNN>` of byte b. */
  function FallbackKey(b: nat): Bytes
    requires b < 256
  {
    [LESS, 0x30, 0x78, HEX[b / 16], HEX[b % 16], GREATER]
  }

  method FindByte(s: Bytes, b: Byte) returns (i: nat)
    ensures i == IndexOf(s, b)
  {
    i := 0;
    while i < |s| && s[i] != b
      invariant i <= |s| && IndexOf(s, b) == i + IndexOf(s[i..], b)
    {
      i := i + 1;
    }
  }

  /** An entry of the merges array (None: not a string) is l, a space, r, split at its first space. */
  predicate SplitsInto(line: Option<Bytes>, l: Bytes, r: Bytes) {
    line.Some? && line.value == l + [SPACE] + r && SPACE !in l
  }

  /** The ranks of the first n entries: exactly the pairs some entry splits into, each with the index of
      the last such entry. */
  ghost predicate IsRanks(merges: seq<Option<Bytes>>, n: nat, ranks: MergeRanks)
    requires n <= |merges|
  {
    && (forall p :: p in ranks ==> ranks[p] < n && SplitsInto(merges[ranks[p]], p.0, p.1))
    && (forall i: nat, p: (Bytes, Bytes) :: i < n && SplitsInto(merges[i], p.0, p.1) ==> p in ranks && i <= ranks[p])
  }

  /** That determines them. */
  lemma RanksUnique(merges: seq<Option<Bytes>>, n: nat, a: MergeRanks, b: MergeRanks)
    requires n <= |merges| && IsRanks(merges, n, a) && IsRanks(merges, n, b)
    ensures a == b
  {
    hide SplitsInto;
    assert forall p :: p in a <==> p in b;
    assert forall p :: p in a ==> a[p] == b[p];
  }

  method BuildTokenMap(tokenStrs: seq<Bytes>) returns (tokenToId: map<Bytes, nat>)
    ensures forall t :: t in tokenToId <==> t in tokenStrs
    ensures forall t :: t in tokenToId ==> tokenToId[t] < |tokenStrs| && tokenStrs[tokenToId[t]] == t
    ensures forall t, i :: t in tokenToId && tokenToId[t] < i < |tokenStrs| ==> tokenStrs[i] != t
  {
    tokenToId := map[];
    for i := 0 to |tokenStrs|
      invariant forall t :: t in tokenToId ==> tokenToId[t] < i && tokenStrs[tokenToId[t]] == t
      invariant forall j :: 0 <= j < i ==> tokenStrs[j] in tokenToId
      invariant forall t, j :: t in tokenToId && tokenToId[t] < j < i ==> tokenStrs[j] != t
    {
      tokenToId := tokenToId[tokenStrs[i] := i];
    }
  }

  predicate FallbackEntry(tokenToId: map<Bytes, nat>, b: nat, id: nat)
    requires b < 256
  {
    id == if FallbackKey(b) in tokenToId then tokenToId[FallbackKey(b)] else NO_TOKEN
  }

  method BuildFallback(tokenToId: map<Bytes, nat>) returns (table: seq<nat>)
    ensures |table| == 256 && forall b: nat :: b < 256 ==> FallbackEntry(tokenToId, b, table[b])
  {
    table := [];
    hide FallbackKey;
    for b := 0 to 256
      invariant |table| == b && forall c: nat :: c < b ==> FallbackEntry(tokenToId, c, table[c])
    {
      var key := FallbackKey(b);
      var id := if key in tokenToId then tokenToId[key] else NO_TOKEN;
      assert FallbackEntry(tokenToId, b, id);
      hide FallbackEntry;
      table := table + [id];
    }
  }

  lemma SplitAt(line: Bytes, sep: nat)
    requires sep < |line| && line[sep] == SPACE && forall j :: 0 <= j < sep ==> line[j] != SPACE
    ensures SplitsInto(Some(line), line[..sep], line[sep + 1..])
  {
    assert line == line[..sep] + [SPACE] + line[sep + 1..];
  }

  lemma SplitPlace(l: Bytes, r: Bytes, sep: nat)
    requires SPACE !in l
    requires var line := l + [SPACE] + r;
             sep <= |line| && (sep < |line| ==> line[sep] == SPACE) && forall j :: 0 <= j < sep ==> line[j] != SPACE
    ensures sep == |l| && (l + [SPACE] + r)[..sep] == l && (l + [SPACE] + r)[sep + 1..] == r
  {
    var line := l + [SPACE] + r;
    assert line[|l|] == SPACE;
    assert forall j :: 0 <= j < |l| ==> line[j] == l[j];
  }

  /** The first space splits a line, and there is no other way to split it. */
  lemma SplitsOnce(line: Bytes, sep: nat, l: Bytes, r: Bytes)
    requires sep == IndexOf(line, SPACE)
    ensures SplitsInto(Some(line), l, r) <==> sep < |line| && l == line[..sep] && r == line[sep + 1..]
  {
    hide IndexOf;
    forall j: nat | j < sep
      ensures line[j] != SPACE
    {
      IndexOfFirst(line, SPACE, j);
    }
    if sep < |line| {
      SplitAt(line, sep);
    }
    if SplitsInto(Some(line), l, r) {
      SplitPlace(l, r, sep);
    }
  }

  method BuildRanks(merges: seq<Option<Bytes>>) returns (ranks: MergeRanks)
    ensures IsRanks(merges, |merges|, ranks)
  {
    ranks := map[];
    for i := 0 to |merges|
      invariant IsRanks(merges, i, ranks)
    {
      if merges[i].None? {
        continue;
      }
      var line := merges[i].value;
      var sep := FindByte(line, SPACE);
      forall l: Bytes, r: Bytes
        ensures SplitsInto(merges[i], l, r) <==> sep < |line| && l == line[..sep] && r == line[sep + 1..]
      {
        SplitsOnce(line, sep, l, r);
      }
      hide SplitsInto, IndexOf;
      if sep < |line| {
        ranks := ranks[(line[..sep], line[sep + 1..]) := i];
      }
    }
  }

  /** Builds the maps from the raw token strings. Every id looks itself up, and a text that occurs
      more than once belongs to its last id. */
  method FromTokens(tokenStrs: seq<Bytes>, merges: seq<Option<Bytes>>) returns (tok: Tokenizer)
    requires |tokenStrs| <= NO_TOKEN
    ensures tok.Valid() && tok.vocab == tokenStrs && IsRanks(merges, |merges|, tok.mergesRank)
    ensures forall t :: t in tok.tokenToId <==> t in tokenStrs
    ensures forall t, i :: t in tok.tokenToId && tok.tokenToId[t] < i < |tokenStrs| ==> tokenStrs[i] != t
    ensures forall b: nat :: b < 256 ==> FallbackEntry(tok.tokenToId, b, tok.byteFallback[b])
  {
    var tokenToId := BuildTokenMap(tokenStrs);
    var byteFallback := BuildFallback(tokenToId);
    var ranks := BuildRanks(merges);
    hide FallbackKey, IsRanks;
    tok := Tokenizer(tokenStrs, tokenToId, ranks, byteFallback);
    assert forall b: nat :: b < 256 ==> FallbackEntry(tokenToId, b, byteFallback[b]);
  }

  /** The two searches of the scan find the next stop. */
  lemma StopsAt(tok: Tokenizer, text: Bytes, pos: nat, end: nat)
    requires pos < |text| && pos == IndexOf(text, LESS) && end == IndexOf(text[pos..], GREATER)
    ensures NextStop(tok, text) ==
              if end < |text[pos..]| && text[pos..][..end + 1] in tok.tokenToId then Special(pos, pos + end + 1) else Plain(pos)
    ensures end < |text[pos..]| ==> text[pos..][..end + 1] == text[pos..pos + end + 1]
    ensures end < |text[pos..]| ==> text[pos..][end + 1..] == text[pos + end + 1..]
  {
    hide IndexOf;
    if end < |text[pos..]| {
      assert text[pos..][..end + 1] == text[pos..pos + end + 1];
    }
  }

  lemma NoStop(tok: Tokenizer, text: Bytes)
    requires |tok.byteFallback| == 256 && text != [] && IndexOf(text, LESS) == |text|
    ensures EncodeSegment(tok, text[..|text|]) + Encode(tok, []) == Encode(tok, text)
  {
    assert text[..|text|] == text;
    hide EncodeSegment, IndexOf;
  }

  /** One turn of the loop, from the text still to be encoded. */
  method EncodeOne(tok: Tokenizer, remaining: Bytes) returns (tokens: seq<nat>, rest: Bytes)
    requires |tok.byteFallback| == 256 && remaining != []
    ensures tokens + Encode(tok, rest) == Encode(tok, remaining) && |rest| < |remaining|
  {
    hide IndexOf, EncodeSegment, NextStop;
    var pos := FindByte(remaining, LESS);
    var seg := EncodeGemma4Bpe(tok, remaining[..pos]);
    if pos == |remaining| {
      NoStop(tok, remaining);
      return seg, [];
    }
    var after := remaining[pos..];
    var end := FindByte(after, GREATER);
    StopsAt(tok, remaining, pos, end);
    if end < |after| && after[..end + 1] in tok.tokenToId {
      return seg + [tok.tokenToId[after[..end + 1]]], after[end + 1..];
    }
    var less := EncodeGemma4Bpe(tok, [LESS]);
    return seg + less, remaining[pos + 1..];
  }

  method EncodeText(tok: Tokenizer, text: Bytes) returns (tokens: seq<nat>)
    requires |tok.byteFallback| == 256
    ensures tokens == Encode(tok, text)
  {
    tokens := [];
    var remaining := text;
    while remaining != []
      invariant tokens + Encode(tok, remaining) == Encode(tok, text)
      decreases |remaining|
    {
      hide *;
      var more, rest := EncodeOne(tok, remaining);
      Assoc(tokens, more, Encode(tok, rest));
      tokens, remaining := tokens + more, rest;
    }
  }
}
