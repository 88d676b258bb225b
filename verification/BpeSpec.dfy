/** What Gemma 4 tokenization means, without a heap: normalize, cut into code points, then rescan
    all adjacent pairs and merge the lowest-ranked, leftmost one until no pair has a rank. */
module BpeSpec {
  import opened Tokens
  import opened SpaceMark

  function CharLen(first: Byte): (n: nat)
    ensures 1 <= n <= 4
  {
    if first <= 0x7F then 1
    else if 0xC2 <= first <= 0xDF then 2
    else if 0xE0 <= first <= 0xEF then 3
    else if 0xF0 <= first <= 0xF4 then 4
    else 1
  }

  function FirstLen(s: Bytes): (n: nat)
    requires s != []
    ensures 1 <= n <= |s|
  {
    if CharLen(s[0]) <= |s| then CharLen(s[0]) else |s|
  }

  /** One piece per code point; a truncated last code point is cut at the end of the input. */
  function CodePoints(s: Bytes): seq<Bytes> {
    if s == [] then [] else [s[..FirstLen(s)]] + CodePoints(s[FirstLen(s)..])
  }

  lemma CodePointsStep(s: Bytes, i: nat, done: seq<Bytes>)
    requires i < |s|
    ensures FirstLen(s[i..]) <= |s| - i
    ensures done + CodePoints(s[i..])
            == done + [s[i..i + FirstLen(s[i..])]] + CodePoints(s[i + FirstLen(s[i..])..])
  {
    hide CharLen;
    var cl := FirstLen(s[i..]);
    assert s[i..][..cl] == s[i..i + cl] && s[i..][cl..] == s[i + cl..];
  }

  /** Adjacent pieces k and k+1 have a merge rank. */
  predicate Ranked(m: MergeRanks, ps: seq<Bytes>, k: int) {
    0 <= k < |ps| - 1 && (ps[k], ps[k + 1]) in m
  }

  function RankAt(m: MergeRanks, ps: seq<Bytes>, k: int): nat
    requires Ranked(m, ps, k)
  {
    m[(ps[k], ps[k + 1])]
  }

  /** k is the lowest-ranked adjacent pair, leftmost among equals. */
  ghost predicate IsBest(m: MergeRanks, ps: seq<Bytes>, k: int) {
    && Ranked(m, ps, k)
    && forall j :: Ranked(m, ps, j) ==>
         RankAt(m, ps, k) < RankAt(m, ps, j) || (RankAt(m, ps, k) == RankAt(m, ps, j) && k <= j)
  }

  /** One rescan of the first n adjacent pairs, keeping the first strictly lowest rank; -1 if none. */
  function Rescan(m: MergeRanks, ps: seq<Bytes>, n: nat): (k: int)
    ensures k == -1 || (k < n && Ranked(m, ps, k))
    ensures k == -1 ==> forall j :: 0 <= j < n ==> !Ranked(m, ps, j)
    ensures k != -1 ==> forall j :: 0 <= j < n && Ranked(m, ps, j) ==>
                          RankAt(m, ps, k) < RankAt(m, ps, j)
                          || (RankAt(m, ps, k) == RankAt(m, ps, j) && k <= j)
  {
    if n == 0 then -1
    else
      var k := Rescan(m, ps, n - 1);
      if Ranked(m, ps, n - 1) && (k == -1 || RankAt(m, ps, n - 1) < RankAt(m, ps, k)) then n - 1 else k
  }

  function Best(m: MergeRanks, ps: seq<Bytes>): (k: int)
    ensures k == -1 <==> forall j :: !Ranked(m, ps, j)
    ensures k != -1 ==> IsBest(m, ps, k)
  {
    Rescan(m, ps, |ps|)
  }

  function MergeAt(ps: seq<Bytes>, k: nat): (r: seq<Bytes>)
    requires k + 1 < |ps|
    ensures |r| == |ps| - 1
  {
    ps[..k] + [ps[k] + ps[k + 1]] + ps[k + 2..]
  }

  /** The naive algorithm, run to the end. */
  function NaiveMerge(m: MergeRanks, ps: seq<Bytes>): seq<Bytes>
    decreases |ps|
  {
    var k := Best(m, ps);
    if k == -1 then ps else NaiveMerge(m, MergeAt(ps, k))
  }

  /** The positions the naive algorithm merges at, in order. */
  function NaiveTrace(m: MergeRanks, ps: seq<Bytes>): seq<nat>
    decreases |ps|
  {
    var k := Best(m, ps);
    if k == -1 then [] else [k as nat] + NaiveTrace(m, MergeAt(ps, k))
  }

  lemma BestUnique(m: MergeRanks, ps: seq<Bytes>, k: int)
    requires IsBest(m, ps, k)
    ensures Best(m, ps) == k
  {
    var b := Best(m, ps);
    assert b != -1;
    assert IsBest(m, ps, b);
  }

  lemma NaiveStep(m: MergeRanks, ps: seq<Bytes>, done: seq<nat>)
    requires Best(m, ps) != -1
    ensures NaiveMerge(m, ps) == NaiveMerge(m, MergeAt(ps, Best(m, ps)))
    ensures done + NaiveTrace(m, ps) == done + [Best(m, ps) as nat] + NaiveTrace(m, MergeAt(ps, Best(m, ps)))
  {
    hide Best, MergeAt;
  }

  /** Merging stops exactly when no adjacent pair has a rank. */
  lemma {:induction false} NaiveMergeIsFinal(m: MergeRanks, ps: seq<Bytes>)
    ensures forall j :: !Ranked(m, NaiveMerge(m, ps), j)
    decreases |ps|
  {
    var k := Best(m, ps);
    if k != -1 {
      NaiveMergeIsFinal(m, MergeAt(ps, k));
    }
  }

  lemma {:induction false} MergeAtKeepsBytes(ps: seq<Bytes>, k: nat)
    requires k + 1 < |ps|
    ensures Concat(MergeAt(ps, k)) == Concat(ps)
  {
    var r := MergeAt(ps, k);
    if k == 0 {
      assert r[1..] == ps[1..][1..];
      assert Concat(ps[1..]) == ps[1] + Concat(ps[1..][1..]);
    } else {
      assert r[1..] == MergeAt(ps[1..], k - 1);
      MergeAtKeepsBytes(ps[1..], k - 1);
    }
  }

  /** Merging moves no byte: the final pieces spell the same text. */
  lemma {:induction false} NaiveMergeKeepsBytes(m: MergeRanks, ps: seq<Bytes>)
    ensures Concat(NaiveMerge(m, ps)) == Concat(ps)
    decreases |ps|
  {
    var k := Best(m, ps);
    if k != -1 {
      MergeAtKeepsBytes(ps, k);
      NaiveMergeKeepsBytes(m, MergeAt(ps, k));
    }
  }

  lemma {:induction false} CodePointsKeepBytes(s: Bytes)
    ensures Concat(CodePoints(s)) == s
  {
    if s != [] {
      CodePointsKeepBytes(s[FirstLen(s)..]);
      assert CodePoints(s)[1..] == CodePoints(s[FirstLen(s)..]);
    }
  }

  /** The final pieces of one newline-free chunk. */
  function ChunkPieces(tok: Tokenizer, raw: Bytes): seq<Bytes> {
    NaiveMerge(tok.mergesRank, CodePoints(Normalize(raw)))
  }

  function EmitByte(tok: Tokenizer, b: Byte): seq<nat>
    requires |tok.byteFallback| == 256
  {
    if [b] in tok.tokenToId then [tok.tokenToId[[b]]]
    else if tok.byteFallback[b as int] != NO_TOKEN then [tok.byteFallback[b as int]]
    else []
  }

  function EmitBytes(tok: Tokenizer, s: Bytes): seq<nat>
    requires |tok.byteFallback| == 256
  {
    if s == [] then [] else EmitBytes(tok, s[..|s| - 1]) + EmitByte(tok, s[|s| - 1])
  }

  function EmitPiece(tok: Tokenizer, p: Bytes): seq<nat>
    requires |tok.byteFallback| == 256
  {
    if p in tok.tokenToId then [tok.tokenToId[p]] else EmitBytes(tok, p)
  }

  /** Tokens of the first n pieces. */
  function EmitUpto(tok: Tokenizer, ps: seq<Bytes>, n: nat): seq<nat>
    requires |tok.byteFallback| == 256 && n <= |ps|
  {
    if n == 0 then [] else EmitUpto(tok, ps, n - 1) + EmitPiece(tok, ps[n - 1])
  }

  lemma EmitNext(tok: Tokenizer, ps: seq<Bytes>, n: nat, out: seq<nat>)
    requires |tok.byteFallback| == 256 && n < |ps|
    ensures out + EmitUpto(tok, ps, n) + EmitPiece(tok, ps[n]) == out + EmitUpto(tok, ps, n + 1)
  {
  }

  function EmitPieces(tok: Tokenizer, ps: seq<Bytes>): seq<nat>
    requires |tok.byteFallback| == 256
  {
    EmitUpto(tok, ps, |ps|)
  }

  /** End of the maximal run starting at i whose bytes are all newlines, or all not. */
  function RunEnd(s: Bytes, i: nat, nl: bool): (e: nat)
    requires i <= |s|
    ensures i <= e <= |s|
    ensures forall j :: i <= j < e ==> (s[j] == NEWLINE) == nl
    ensures e == |s| || (s[e] == NEWLINE) != nl
    decreases |s| - i
  {
    if i < |s| && (s[i] == NEWLINE) == nl then RunEnd(s, i + 1, nl) else i
  }

  lemma {:induction false} RunEndShift(s: Bytes, k: nat, i: nat, nl: bool)
    requires k + i <= |s|
    ensures RunEnd(s[k..], i, nl) == RunEnd(s, k + i, nl) - k
    decreases |s| - i
  {
    if k + i < |s| && (s[k + i] == NEWLINE) == nl {
      RunEndShift(s, k, i + 1, nl);
    }
  }

  /** The first run of s[start..] ends where the scan over s says. */
  lemma RunOfSuffix(s: Bytes, start: nat, end: nat)
    requires start < end <= |s| && end == RunEnd(s, start + 1, s[start] == NEWLINE)
    ensures s[start..] != [] && s[start..][0] == s[start]
    ensures RunEnd(s[start..], 1, s[start] == NEWLINE) == end - start
    ensures s[start..][..end - start] == s[start..end] && s[start..][end - start..] == s[end..]
  {
    RunEndShift(s, start, 1, s[start] == NEWLINE);
  }

  /** Tokens of one run: a newline run is looked up whole, any other run is merged. */
  function EncodeRun(tok: Tokenizer, run: Bytes): seq<nat>
    requires |tok.byteFallback| == 256 && run != []
  {
    if run[0] == NEWLINE then EmitPiece(tok, run) else EmitPieces(tok, ChunkPieces(tok, run))
  }

  function EncodeSegment(tok: Tokenizer, s: Bytes): seq<nat>
    requires |tok.byteFallback| == 256
    decreases |s|
  {
    if s == [] then []
    else
      var nl := s[0] == NEWLINE;
      var e := RunEnd(s, 1, nl);
      EncodeRun(tok, s[..e]) + EncodeSegment(tok, s[e..])
  }
}
