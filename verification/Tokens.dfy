/** Byte strings and the tokenizer record (src/inference/tokenizer.rs). */
module Tokens {

  newtype Byte = x: int | 0 <= x < 256

  type Bytes = seq<Byte>

  const SPACE: Byte := 0x20
  const NEWLINE: Byte := 0x0A
  const LESS: Byte := 0x3C
  const GREATER: Byte := 0x3E

  /** U+2581, the SentencePiece space marker, in UTF-8. */
  const MARK: Bytes := [0xE2, 0x96, 0x81]

  /** `u32::MAX`, the "no token" entry of the byte-fallback table. */
  const NO_TOKEN: nat := 0xFFFF_FFFF

  type MergeRanks = map<(Bytes, Bytes), nat>

  datatype Tokenizer = Tokenizer(
    vocab: seq<Bytes>,
    tokenToId: map<Bytes, nat>,
    mergesRank: MergeRanks,
    byteFallback: seq<nat>)
  {
    /** What the constructor establishes: ids name vocabulary entries, and looking a piece up gives
        an entry with exactly that text. */
    ghost predicate Valid() {
      && |vocab| <= NO_TOKEN
      && |byteFallback| == 256
      && (forall t :: t in tokenToId ==> tokenToId[t] < |vocab| && vocab[tokenToId[t]] == t)
      && (forall i :: 0 <= i < |vocab| ==> vocab[i] in tokenToId)
      && (forall b: nat :: b < 256 ==> byteFallback[b] < |vocab| || byteFallback[b] == NO_TOKEN)
    }
  }

  /** Concatenation of a list of byte strings. */
  function Concat(ps: seq<Bytes>): Bytes {
    if ps == [] then [] else ps[0] + Concat(ps[1..])
  }

  lemma {:induction false} ConcatAppend(a: seq<Bytes>, b: seq<Bytes>)
    ensures Concat(a + b) == Concat(a) + Concat(b)
  {
    if a == [] {
      assert a + b == b;
    } else {
      assert (a + b)[1..] == a[1..] + b;
      ConcatAppend(a[1..], b);
    }
  }

  lemma Assoc<T>(a: seq<T>, b: seq<T>, c: seq<T>)
    ensures a + (b + c) == a + b + c
  {
  }
}
