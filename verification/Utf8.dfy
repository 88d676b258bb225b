/** UTF-8 by arithmetic on the code point (section 3 of RFC 3629), and the tokenizer's byte-level functions
    on text: cutting into symbols, the space mapping and its inverse (src/inference/tokenizer_gemma4.rs,
    src/inference/tokenizer.rs). */
module Utf8 {
  import opened Tokens
  import opened SpaceMark
  import opened BpeSpec
  import opened Codec
  import opened RoundTrip
  import opened EncodeLaws

  /** A Unicode scalar value: a code point that is no surrogate. */
  type Scalar = c: nat | c < 0xD800 || 0xE000 <= c < 0x110000

  function Encoded(c: Scalar): (s: Bytes)
    ensures 1 <= |s| <= 4
  {
    if c < 0x80 then [c as Byte]
    else if c < 0x800 then [(0xC0 + c / 0x40) as Byte, (0x80 + c % 0x40) as Byte]
    else if c < 0x10000 then
      [(0xE0 + c / 0x1000) as Byte, (0x80 + c / 0x40 % 0x40) as Byte, (0x80 + c % 0x40) as Byte]
    else
      [(0xF0 + c / 0x40000) as Byte, (0x80 + c / 0x1000 % 0x40) as Byte, (0x80 + c / 0x40 % 0x40) as Byte,
       (0x80 + c % 0x40) as Byte]
  }

  /** A text, character by character. */
  function Chars(cs: seq<Scalar>): (r: seq<Bytes>)
    ensures |r| == |cs| && forall i :: 0 <= i < |cs| ==> r[i] == Encoded(cs[i])
  {
    seq(|cs|, i requires 0 <= i < |cs| => Encoded(cs[i]))
  }

  function Text(cs: seq<Scalar>): Bytes {
    Concat(Chars(cs))
  }

  lemma TextFirst(cs: seq<Scalar>)
    requires cs != []
    ensures Text(cs) == Encoded(cs[0]) + Text(cs[1..])
  {
    assert Chars(cs)[1..] == Chars(cs[1..]);
  }

  lemma NoText()
    ensures Text([]) == []
  {
  }

  // ---------- symbols ----------

  /** An encoding announces its length and continues with continuation bytes. */
  lemma EncodingShape(c: Scalar)
    ensures CharLen(Encoded(c)[0]) == |Encoded(c)| && !Continuation(Encoded(c)[0])
    ensures forall i :: 1 <= i < |Encoded(c)| ==> Continuation(Encoded(c)[i])
    ensures |Encoded(c)| >= 2 <==> Encoded(c)[0] >= 0x80
  {
  }

  /** A character at the front is the first symbol, and whole. */
  lemma FirstSymbol(c: Scalar, rest: Bytes)
    ensures CodePoints(Encoded(c) + rest) == [Encoded(c)] + CodePoints(rest)
    ensures WellFormed(Encoded(c) + rest) <==> WellFormed(rest)
  {
    hide Encoded, CharLen;
    EncodingShape(c);
    var s := Encoded(c) + rest;
    assert s[..|Encoded(c)|] == Encoded(c) && s[|Encoded(c)|..] == rest;
    assert WholeFirst(s);
    hide WholeFirst;
  }

  /** The encoder's symbols of a text are its characters. */
  lemma {:induction false} SymbolsAreChars(cs: seq<Scalar>)
    ensures CodePoints(Text(cs)) == Chars(cs)
  {
    hide Encoded, Text;
    if cs == [] {
      NoText();
    } else {
      TextFirst(cs);
      FirstSymbol(cs[0], Text(cs[1..]));
      SymbolsAreChars(cs[1..]);
      hide *;
      assert Chars(cs) == [Encoded(cs[0])] + Chars(cs[1..]);
    }
  }

  /** Every text is well-formed. */
  lemma {:induction false} TextIsWellFormed(cs: seq<Scalar>)
    ensures WellFormed(Text(cs))
  {
    hide *;
    if cs == [] {
      NoText();
      NothingWellFormed();
    } else {
      TextFirst(cs);
      FirstSymbol(cs[0], Text(cs[1..]));
      TextIsWellFormed(cs[1..]);
    }
  }

  /** Two examples of RFC 3629, section 7. */
  lemma Rfc3629Examples()
    ensures Chars([0x41, 0x2262, 0x391, 0x2E]) == [[0x41], [0xE2, 0x89, 0xA2], [0xCE, 0x91], [0x2E]]
    ensures Encoded(0x233B4) == [0xF0, 0xA3, 0x8E, 0xB4]
  {
  }

  /** The base-64 digits of a number. */
  lemma Digits(c: nat)
    ensures c / 0x1000 == c / 0x40 / 0x40 && c / 0x40000 == c / 0x1000 / 0x40
    ensures c == c / 0x40 * 0x40 + c % 0x40
    ensures c == c / 0x1000 * 0x1000 + c / 0x40 % 0x40 * 0x40 + c % 0x40
    ensures c == c / 0x40000 * 0x40000 + c / 0x1000 % 0x40 * 0x1000 + c / 0x40 % 0x40 * 0x40 + c % 0x40
  {
  }

  /** The code point an encoding stands for. */
  function CodePointOf(s: Bytes): int
    requires s != []
  {
    if |s| == 1 then s[0] as int
    else if |s| == 2 then (s[0] as int - 0xC0) * 0x40 + (s[1] as int - 0x80)
    else if |s| == 3 then (s[0] as int - 0xE0) * 0x1000 + (s[1] as int - 0x80) * 0x40 + (s[2] as int - 0x80)
    else
      (s[0] as int - 0xF0) * 0x40000 + (s[1] as int - 0x80) * 0x1000 + (s[2] as int - 0x80) * 0x40
      + (s[3] as int - 0x80)
  }

  lemma EncodingIsInverted(c: Scalar)
    ensures CodePointOf(Encoded(c)) == c
  {
    Digits(c);
  }

  /** Different texts have different bytes: the cut into symbols recovers the characters. */
  lemma TextIsInjective(a: seq<Scalar>, b: seq<Scalar>)
    requires Text(a) == Text(b)
    ensures a == b
  {
    hide Encoded, Text, CodePoints, CodePointOf;
    SymbolsAreChars(a);
    SymbolsAreChars(b);
    forall i | 0 <= i < |a|
      ensures a[i] == b[i]
    {
      assert Chars(a)[i] == Chars(b)[i];
      EncodingIsInverted(a[i]);
      EncodingIsInverted(b[i]);
    }
  }

  /** A character cut short by the end of the input is one symbol. */
  lemma TruncatedIsOneSymbol(c: Scalar, n: nat)
    requires 0 < n < |Encoded(c)|
    ensures CodePoints(Encoded(c)[..n]) == [Encoded(c)[..n]]
  {
    EncodingShape(c);
    var s := Encoded(c)[..n];
    assert s[0] == Encoded(c)[0] && FirstLen(s) == n && s[..n] == s && s[n..] == [];
    hide Encoded, CharLen;
  }

  /** A byte with which no character begins is a symbol of its own. */
  lemma StrayIsOneSymbol(b: Byte, s: Bytes)
    requires forall c: Scalar :: Encoded(c)[0] != b
    ensures CodePoints([b] + s) == [[b]] + CodePoints(s)
  {
    StrayRange(b);
    var t := [b] + s;
    assert t[..1] == [b] && t[1..] == s;
  }

  /** A character that begins with byte n. */
  function Starting(n: nat): (c: Scalar)
    requires n < 0x80 || 0xC2 <= n < 0xF5
    ensures Encoded(c)[0] as nat == n
  {
    if n < 0x80 then n
    else if n < 0xE0 then (n - 0xC0) * 0x40
    else if n == 0xE0 then 0x800
    else if n == 0xED then 0xD000
    else if n < 0xF0 then (n - 0xE0) * 0x1000
    else if n == 0xF0 then 0x10000
    else (n - 0xF0) * 0x40000
  }

  lemma StrayRange(b: Byte)
    requires forall c: Scalar :: Encoded(c)[0] != b
    ensures 0x80 <= b <= 0xC1 || b >= 0xF5
  {
    var c := if b < 0x80 || 0xC2 <= b < 0xF5 then Starting(b as nat) else 0;
    assert Encoded(c)[0] != b;
    hide Encoded;
  }

  // ---------- the space mapping ----------

  /** The characters the scans look for. */
  lemma AsciiBytes()
    ensures Encoded(0x20) == [SPACE] && Encoded(0x0A) == [NEWLINE] && Encoded(0x3C) == [LESS] && Encoded(0x3E) == [GREATER]
    ensures Encoded(0x2581) == MARK == [0xE2, 0x96, 0x81]
  {
  }

  /** One character for another. */
  function Replaced(cs: seq<Scalar>, from: Scalar, to: Scalar): (r: seq<Scalar>)
    ensures |r| == |cs| && forall i :: 0 <= i < |cs| ==> r[i] == if cs[i] == from then to else cs[i]
  {
    seq(|cs|, i requires 0 <= i < |cs| => if cs[i] == from then to else cs[i])
  }

  lemma ReplacedFirst(cs: seq<Scalar>, from: Scalar, to: Scalar)
    requires cs != []
    ensures var r := Replaced(cs, from, to);
            r != [] && r[0] == (if cs[0] == from then to else cs[0]) && r[1..] == Replaced(cs[1..], from, to)
  {
  }

  lemma AsciiInChar(c: Scalar, b: Byte)
    requires b < 0x80
    ensures b in Encoded(c) <==> c == b as nat
  {
    EncodingShape(c);
    if c < 0x80 {
      assert Encoded(c) == [c as Byte];
    }
  }

  lemma NormalizeChar(c: Scalar)
    ensures Normalize(Encoded(c)) == Encoded(if c == 0x20 then 0x2581 else c)
  {
    hide Encoded, Normalize;
    AsciiBytes();
    AsciiInChar(c, SPACE);
    if c == 0x20 {
      NormalizeSpace();
    } else {
      NormalizePlain(Encoded(c));
    }
  }

  /** Normalizing replaces each U+0020 of a text by U+2581 and nothing else. */
  lemma {:induction false} NormalizeText(cs: seq<Scalar>)
    ensures Normalize(Text(cs)) == Text(Replaced(cs, 0x20, 0x2581))
  {
    if cs == [] {
      NoText();
    } else {
      hide *;
      var r := Replaced(cs, 0x20, 0x2581);
      ReplacedFirst(cs, 0x20, 0x2581);
      TextFirst(cs);
      TextFirst(r);
      NormalizeAppend(Encoded(cs[0]), Text(cs[1..]));
      NormalizeChar(cs[0]);
      NormalizeText(cs[1..]);
    }
  }

  lemma UnmarkChar(c: Scalar, rest: Bytes)
    ensures Unmark(Encoded(c) + rest) == Encoded(if c == 0x2581 then 0x20 else c) + Unmark(rest)
  {
    hide Encoded, Unmark;
    var t := Encoded(c) + rest;
    EncodingShape(c);
    assert WholeFirst(t);
    UnmarkFirst(t);
    assert t[..|Encoded(c)|] == Encoded(c) && t[|Encoded(c)|..] == rest;
    AsciiBytes();
    if c != 0x2581 {
      NotMark(c, rest);
    }
  }

  /** Only U+2581 has the three bytes of the marker. */
  lemma MarkDecodes(c: Scalar)
    requires |Encoded(c)| == 3 && Encoded(c)[0] == 0xE2 && Encoded(c)[1] == 0x96 && Encoded(c)[2] == 0x81
    ensures c == 0x2581
  {
    EncodingIsInverted(c);
    hide Encoded;
  }

  lemma NotMark(c: Scalar, rest: Bytes)
    requires c != 0x2581
    ensures !MarkAt(Encoded(c) + rest, 0)
  {
    hide Encoded;
    EncodingShape(c);
    assert CharLen(0xE2) == 3;
    if MarkAt(Encoded(c) + rest, 0) {
      MarkDecodes(c);
    }
  }

  /** Decoding's byte scan replaces each U+2581 of a text by U+0020 and nothing else. */
  lemma {:induction false} UnmarkText(cs: seq<Scalar>)
    ensures Unmark(Text(cs)) == Text(Replaced(cs, 0x2581, 0x20))
  {
    if cs == [] {
      NoText();
    } else {
      hide *;
      var r := Replaced(cs, 0x2581, 0x20);
      ReplacedFirst(cs, 0x2581, 0x20);
      TextFirst(cs);
      TextFirst(r);
      UnmarkChar(cs[0], Text(cs[1..]));
      UnmarkText(cs[1..]);
    }
  }

  /** A text without U+2581 has its three bytes nowhere. */
  lemma {:induction false} TextHasNoMark(cs: seq<Scalar>, i: int)
    requires 0x2581 !in cs
    ensures !MarkAt(Text(cs), i)
    decreases |cs|
  {
    hide Encoded, Text, CharLen, MarkAt;
    if cs == [] {
      NoText();
      NoMarkHere(i);
    } else {
      TextFirst(cs);
      EncodingShape(cs[0]);
      NotMark(cs[0], Text(cs[1..]));
      if i >= |Encoded(cs[0])| {
        TextHasNoMark(cs[1..], i - |Encoded(cs[0])|);
      }
      MarkBeyond(Encoded(cs[0]), Text(cs[1..]), i);
    }
  }

  lemma NoMarkHere(i: int)
    ensures !MarkAt([], i)
  {
  }

  /** No marker starts at a continuation byte. */
  lemma MarkBeyond(a: Bytes, b: Bytes, i: int)
    requires a != [] && forall k :: 1 <= k < |a| ==> Continuation(a[k])
    ensures MarkAt(a + b, i) ==> i == 0 || (i >= |a| && MarkAt(b, i - |a|))
  {
    assert 0 <= i < |a| ==> (a + b)[i] == a[i];
  }

  // ---------- encoding ----------

  lemma InHeadOrTail<T>(s: seq<T>, x: T)
    requires s != []
    ensures x in s <==> x == s[0] || x in s[1..]
  {
    assert s == [s[0]] + s[1..];
  }

  /** An ASCII byte occurs in a text only as that character. */
  lemma {:induction false} AsciiInText(cs: seq<Scalar>, b: Byte)
    requires b < 0x80
    ensures b in Text(cs) <==> b as nat in cs
  {
    hide Encoded, Text;
    if cs == [] {
      NoText();
    } else {
      TextFirst(cs);
      AsciiInChar(cs[0], b);
      AsciiInText(cs[1..], b);
      InHeadOrTail(cs, b as nat);
    }
  }

  /** A text with neither newline nor `<` is encoded by merging its characters, spaces replaced. */
  lemma PlainText(tok: Tokenizer, cs: seq<Scalar>)
    requires |tok.byteFallback| == 256 && cs != [] && 0x0A !in cs && 0x3C !in cs
    ensures Encode(tok, Text(cs)) == EmitPieces(tok, NaiveMerge(tok.mergesRank, Chars(Replaced(cs, 0x20, 0x2581))))
  {
    hide Encoded, Text, Encode, EncodeSegment, EmitPieces, NaiveMerge, CodePoints, Normalize, Replaced;
    AsciiInText(cs, NEWLINE);
    AsciiInText(cs, LESS);
    TextFirst(cs);
    EncodePlain(tok, Text(cs));
    PlainSegment(tok, Text(cs));
    NormalizeText(cs);
    SymbolsAreChars(Replaced(cs, 0x20, 0x2581));
  }

  /** One character of any length whose text is in the vocabulary is one token. */
  lemma OneCharacter(tok: Tokenizer, c: Scalar)
    requires |tok.byteFallback| == 256 && c != 0x20 && c != 0x0A && c != 0x3C && Encoded(c) in tok.tokenToId
    ensures Encode(tok, Encoded(c)) == [tok.tokenToId[Encoded(c)]]
  {
    hide Encoded, Text, Encode, NaiveMerge, EmitPieces, EmitPiece;
    var cs: seq<Scalar> := [c];
    var ps := Chars(cs);
    assert ps == [Encoded(c)] && Replaced(cs, 0x20, 0x2581) == cs;
    TextOfOne(c);
    PlainText(tok, cs);
    MergesUntilNone(tok.mergesRank, ps);
    EmitPiecesNext(tok, [], Encoded(c));
    assert [] + [Encoded(c)] == ps;
    KnownPiece(tok, Encoded(c));
  }

  lemma KnownPiece(tok: Tokenizer, p: Bytes)
    requires |tok.byteFallback| == 256 && p in tok.tokenToId
    ensures EmitPiece(tok, p) == [tok.tokenToId[p]]
  {
  }

  lemma TextOfOne(c: Scalar)
    ensures Text([c]) == Encoded(c)
  {
    hide Encoded, Text;
    var cs: seq<Scalar> := [c];
    TextFirst(cs);
    NoText();
    assert cs[1..] == [];
  }

  /** The round trip for characters: every text without U+2581 whose final pieces are in the vocabulary
      comes back. */
  lemma CharsRoundTrip(tok: Tokenizer, cs: seq<Scalar>)
    requires tok.Valid() && 0x2581 !in cs && TextKnown(tok, Text(cs))
    ensures Decode(tok, Encode(tok, Text(cs))) == Text(cs)
  {
    hide *;
    TextIsWellFormed(cs);
    NoMarkIn(cs);
    DecodeEncode(tok, Text(cs));
  }

  lemma NoMarkIn(cs: seq<Scalar>)
    requires 0x2581 !in cs
    ensures NoMark(Text(cs))
  {
    hide Text, MarkAt;
    forall i
      ensures !MarkAt(Text(cs), i)
    {
      TextHasNoMark(cs, i);
    }
  }
}
