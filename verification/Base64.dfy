/** Base64 (section 4 of RFC 4648): the encoder of src/interface/ws.rs and the decoder of
    src/interface/server_analyze.rs, which keeps a 32-bit accumulator it never masks. Bytes and ASCII
    characters are 8-bit words. */
module Base64 {
  import opened Options

  type U8 = bv8

  const PAD: U8 := 0x3D
  const COMMA: U8 := 0x2C

  predicate IsSpace(c: U8) {
    c == 0x0A || c == 0x0D || c == 0x20 || c == 0x09
  }

  // ---------- the alphabet ----------

  /** Character i of the alphabet A-Z a-z 0-9 + /. */
  function Letter(i: U8): U8 {
    if i < 26 then 0x41 + i
    else if i < 52 then 0x61 + (i - 26)
    else if i < 62 then 0x30 + (i - 52)
    else if i == 62 then 0x2B
    else 0x2F
  }

  function Val(c: U8): Option<U8> {
    if 0x41 <= c <= 0x5A then Some(c - 0x41)
    else if 0x61 <= c <= 0x7A then Some(c - 0x61 + 26)
    else if 0x30 <= c <= 0x39 then Some(c - 0x30 + 52)
    else if c == 0x2B then Some(62)
    else if c == 0x2F then Some(63)
    else None
  }

  lemma LetterFacts(i: U8)
    requires i < 64
    ensures Val(Letter(i)) == Some(i)
    ensures Letter(i) != PAD && Letter(i) != COMMA && !IsSpace(Letter(i))
  {
  }

  // ---------- encoding ----------

  function Sextet0(b0: U8): U8 {
    b0 >> 2
  }

  function Sextet1(b0: U8, b1: U8): U8 {
    ((b0 & 0x03) << 4) | (b1 >> 4)
  }

  function Sextet2(b1: U8, b2: U8): U8 {
    ((b1 & 0x0F) << 2) | (b2 >> 6)
  }

  function Sextet3(b2: U8): U8 {
    b2 & 0x3F
  }

  lemma SextetsSmall(b0: U8, b1: U8, b2: U8)
    ensures Sextet0(b0) < 64 && Sextet1(b0, b1) < 64 && Sextet2(b1, b2) < 64 && Sextet3(b2) < 64
  {
  }

  function EncodeGroup(d: seq<U8>): (s: seq<U8>)
    requires d != []
    ensures |s| == 4
  {
    var b0 := d[0];
    var b1: U8 := if |d| > 1 then d[1] else 0;
    var b2: U8 := if |d| > 2 then d[2] else 0;
    [Letter(Sextet0(b0)), Letter(Sextet1(b0, b1)),
     if |d| > 1 then Letter(Sextet2(b1, b2)) else PAD,
     if |d| > 2 then Letter(Sextet3(b2)) else PAD]
  }

  function Encode(d: seq<U8>): (s: seq<U8>)
    ensures |s| == (|d| + 2) / 3 * 4
  {
    if d == [] then [] else if |d| <= 3 then EncodeGroup(d) else EncodeGroup(d[..3]) + Encode(d[3..])
  }

  /** The loop body: one chunk of one to three bytes. */
  method EncodeChunk(chunk: seq<U8>, before: seq<U8>) returns (out: seq<U8>)
    requires 0 < |chunk| <= 3
    ensures out == before + EncodeGroup(chunk)
  {
    hide Letter, EncodeGroup, Sextet0, Sextet1, Sextet2, Sextet3;
    var b0 := chunk[0];
    var b1: U8 := if |chunk| > 1 then chunk[1] else 0;
    var b2: U8 := if |chunk| > 2 then chunk[2] else 0;
    var c0, c1 := Letter(b0 >> 2), Letter(((b0 & 0x03) << 4) | (b1 >> 4));
    var c2, c3 := PAD, PAD;
    if |chunk| > 1 {
      c2 := Letter(((b1 & 0x0F) << 2) | (b2 >> 6));
    }
    if |chunk| > 2 {
      c3 := Letter(b2 & 0x3F);
    }
    GroupIs(chunk, c0, c1, c2, c3);
    out := before + [c0] + [c1] + [c2] + [c3];
    AppendFour(before, c0, c1, c2, c3);
  }

  lemma GroupIs(chunk: seq<U8>, c0: U8, c1: U8, c2: U8, c3: U8)
    requires 0 < |chunk| <= 3
    requires var b1: U8, b2: U8 := if |chunk| > 1 then chunk[1] else 0, if |chunk| > 2 then chunk[2] else 0;
             && c0 == Letter(chunk[0] >> 2) && c1 == Letter(((chunk[0] & 0x03) << 4) | (b1 >> 4))
             && c2 == (if |chunk| > 1 then Letter(((b1 & 0x0F) << 2) | (b2 >> 6)) else PAD)
             && c3 == (if |chunk| > 2 then Letter(b2 & 0x3F) else PAD)
    ensures EncodeGroup(chunk) == [c0, c1, c2, c3]
  {
    hide Letter;
  }

  lemma AppendFour(s: seq<U8>, c0: U8, c1: U8, c2: U8, c3: U8)
    ensures s + [c0] + [c1] + [c2] + [c3] == s + [c0, c1, c2, c3]
  {
  }

  method EncodeBytes(data: seq<U8>) returns (out: seq<U8>)
    ensures out == Encode(data)
  {
    hide Encode, EncodeGroup;
    out := [];
    var i := 0;
    assert data[0..] == data;
    while i < |data|
      invariant i <= |data| && out + Encode(data[i..]) == Encode(data)
    {
      var n := if |data| - i < 3 then |data| - i else 3;
      EncodeNext(data, i, n, out);
      out := EncodeChunk(data[i..i + n], out);
      i := i + n;
    }
    EncodeEnd(data, i, out);
  }

  lemma EncodeEnd(data: seq<U8>, i: nat, out: seq<U8>)
    requires i == |data|
    ensures out + Encode(data[i..]) == out
  {
  }

  lemma EncodeNext(data: seq<U8>, i: nat, n: nat, out: seq<U8>)
    requires i < |data| && n == if |data| - i < 3 then |data| - i else 3
    ensures out + Encode(data[i..]) == out + EncodeGroup(data[i..i + n]) + Encode(data[i + n..])
  {
    var rest := data[i..];
    hide EncodeGroup;
    if |rest| <= 3 {
      assert data[i..i + n] == rest && data[i + n..] == [];
    } else {
      assert data[i..i + n] == rest[..3] && data[i + n..] == rest[3..];
    }
  }

  // ---------- decoding ----------

  /** The low byte of the accumulator, shifted. */
  function LowByte(acc: bv32, bits: bv32): U8
    requires bits < 8
  {
    ((acc >> bits) & 0xFF) as U8
  }

  function Shifted(acc: bv32, v: U8): bv32 {
    (acc << 6) | (v as bv32)
  }

  function Prepend(b: U8, r: Option<seq<U8>>): Option<seq<U8>> {
    if r.Some? then Some([b] + r.value) else None
  }

  /** What the loop makes of the characters s when it starts with `bits` bits pending in acc. */
  function DecodeFrom(acc: bv32, bits: bv32, s: seq<U8>): Option<seq<U8>>
    requires bits < 8
    decreases |s|
  {
    if s == [] || s[0] == PAD then Some([])
    else if IsSpace(s[0]) then DecodeFrom(acc, bits, s[1..])
    else if Val(s[0]).None? then None
    else
      var acc' := Shifted(acc, Val(s[0]).value);
      if bits + 6 >= 8 then Prepend(LowByte(acc', bits + 6 - 8), DecodeFrom(acc', bits + 6 - 8, s[1..]))
      else DecodeFrom(acc', bits + 6, s[1..])
  }

  /** The part after the last comma. */
  function AfterComma(s: seq<U8>): seq<U8> {
    if s == [] then [] else if s[|s| - 1] == COMMA then [] else AfterComma(s[..|s| - 1]) + [s[|s| - 1]]
  }

  function Decode(s: seq<U8>): Option<seq<U8>> {
    DecodeFrom(0, 0, AfterComma(s))
  }

  lemma AfterLast(s: seq<U8>, c: U8)
    ensures AfterComma(s + [c]) == if c == COMMA then [] else AfterComma(s) + [c]
  {
    assert (s + [c])[..|s|] == s;
  }

  lemma CommaBefore(s: seq<U8>, i: nat)
    requires 0 < i <= |s| && s[i - 1] != COMMA
    ensures AfterComma(s[..i]) + s[i..] == AfterComma(s[..i - 1]) + s[i - 1..]
  {
    AfterLast(s[..i - 1], s[i - 1]);
    hide AfterComma;
    assert s[..i - 1] + [s[i - 1]] == s[..i] && [s[i - 1]] + s[i..] == s[i - 1..];
  }

  method DropPrefix(s: seq<U8>) returns (t: seq<U8>)
    ensures t == AfterComma(s)
  {
    var i := |s|;
    assert s[..i] == s && s[i..] == [];
    while i > 0 && s[i - 1] != COMMA
      invariant 0 <= i <= |s| && AfterComma(s) == AfterComma(s[..i]) + s[i..]
    {
      CommaBefore(s, i);
      hide AfterComma;
      i := i - 1;
    }
    t := s[i..];
  }

  method DecodeBytes(s: seq<U8>) returns (r: Option<seq<U8>>)
    ensures r == Decode(s)
  {
    var t := DropPrefix(s);
    var out: seq<U8> := [];
    var acc: bv32, bits: bv32 := 0, 0;
    var i := 0;
    assert t[0..] == t;
    hide Decode, DecodeFrom, LowByte, Shifted, Val, AfterComma;
    DecodeIs(s);
    NothingBefore(DecodeFrom(acc, bits, t));
    while i < |t|
      invariant i <= |t| && bits < 8
      invariant Joined(out, DecodeFrom(acc, bits, t[i..])) == DecodeFrom(0, 0, t)
    {
      var c := t[i];
      DecodeNext(acc, bits, t, i, out);
      if c == PAD {
        break;
      }
      i := i + 1;
      if !IsSpace(c) {
        var v := Val(c);
        if v.None? {
          return None;
        }
        acc := Shifted(acc, v.value);
        bits := bits + 6;
        if bits >= 8 {
          bits := bits - 8;
          out := out + [LowByte(acc, bits)];
        }
      }
    }
    DecodeStops(acc, bits, t, i);
    assert out + [] == out;
    r := Some(out);
  }

  /** Bytes already output, then the rest. */
  function Joined(out: seq<U8>, r: Option<seq<U8>>): Option<seq<U8>> {
    if r.Some? then Some(out + r.value) else None
  }

  lemma DecodeIs(s: seq<U8>)
    ensures Decode(s) == DecodeFrom(0, 0, AfterComma(s))
  {
  }

  lemma NothingBefore(r: Option<seq<U8>>)
    ensures Joined([], r) == r
  {
    if r.Some? {
      assert [] + r.value == r.value;
    }
  }

  lemma DecodeStops(acc: bv32, bits: bv32, t: seq<U8>, i: nat)
    requires bits < 8 && i <= |t| && (i < |t| ==> t[i] == PAD)
    ensures DecodeFrom(acc, bits, t[i..]) == Some([])
  {
  }

  lemma DecodeNext(acc: bv32, bits: bv32, t: seq<U8>, i: nat, out: seq<U8>)
    requires bits < 8 && i < |t|
    ensures t[i] != PAD && IsSpace(t[i]) ==> DecodeFrom(acc, bits, t[i..]) == DecodeFrom(acc, bits, t[i + 1..])
    ensures t[i] != PAD && !IsSpace(t[i]) ==>
              match Val(t[i])
              case None => DecodeFrom(acc, bits, t[i..]) == None
              case Some(v) =>
                var acc', bits' := Shifted(acc, v), bits + 6;
                if bits' >= 8 then
                  Joined(out, DecodeFrom(acc, bits, t[i..]))
                  == Joined(out + [LowByte(acc', bits' - 8)], DecodeFrom(acc', bits' - 8, t[i + 1..]))
                else DecodeFrom(acc, bits, t[i..]) == DecodeFrom(acc', bits', t[i + 1..])
  {
    assert t[i..][1..] == t[i + 1..];
    if t[i] != PAD && !IsSpace(t[i]) && Val(t[i]).Some? && bits + 6 >= 8 {
      var acc', bits' := Shifted(acc, Val(t[i]).value), bits + 6 - 8;
      JoinOne(out, LowByte(acc', bits'), DecodeFrom(acc', bits', t[i + 1..]));
    }
    hide LowByte, Shifted, Val;
  }

  lemma JoinOne(out: seq<U8>, b: U8, r: Option<seq<U8>>)
    ensures Joined(out, Prepend(b, r)) == Joined(out + [b], r)
  {
    if r.Some? {
      assert out + ([b] + r.value) == out + [b] + r.value;
    }
  }

  // ---------- the round trip ----------

  /** One letter from a state with room for its bits. */
  lemma LetterStep(acc: bv32, bits: bv32, i: U8, rest: seq<U8>)
    requires bits < 8 && i < 64
    ensures DecodeFrom(acc, bits, [Letter(i)] + rest)
            == if bits + 6 >= 8 then
                 Prepend(LowByte(Shifted(acc, i), bits + 6 - 8), DecodeFrom(Shifted(acc, i), bits + 6 - 8, rest))
               else DecodeFrom(Shifted(acc, i), bits + 6, rest)
  {
    LetterFacts(i);
    var s := [Letter(i)] + rest;
    assert s[0] == Letter(i) && s[1..] == rest;
    hide Letter, LowByte, Shifted;
  }

  /** The accumulator's old bits never reach an output byte. */
  lemma GroupBytes(acc: bv32, b0: U8, b1: U8, b2: U8)
    ensures var a2 := Shifted(Shifted(acc, Sextet0(b0)), Sextet1(b0, b1));
            && LowByte(a2, 4) == b0
            && LowByte(Shifted(a2, Sextet2(b1, b2)), 2) == b1
            && LowByte(Shifted(Shifted(a2, Sextet2(b1, b2)), Sextet3(b2)), 0) == b2
  {
  }

  /** Four letters of a full group, whatever the accumulator holds. */
  lemma GroupStep(acc: bv32, b0: U8, b1: U8, b2: U8, rest: seq<U8>) returns (acc': bv32)
    ensures DecodeFrom(acc, 0, EncodeGroup([b0, b1, b2]) + rest)
            == Joined([b0, b1, b2], DecodeFrom(acc', 0, rest))
  {
    hide DecodeFrom, Letter, LowByte, Shifted, Sextet0, Sextet1, Sextet2, Sextet3;
    var i0, i1, i2, i3 := Sextet0(b0), Sextet1(b0, b1), Sextet2(b1, b2), Sextet3(b2);
    SextetsSmall(b0, b1, b2);
    GroupBytes(acc, b0, b1, b2);
    var s3 := [Letter(i3)] + rest;
    var s2 := [Letter(i2)] + s3;
    var s1 := [Letter(i1)] + s2;
    assert EncodeGroup([b0, b1, b2]) + rest == [Letter(i0)] + s1;
    var a1 := Shifted(acc, i0);
    var a2 := Shifted(a1, i1);
    var a3 := Shifted(a2, i2);
    acc' := Shifted(a3, i3);
    LetterStep(acc, 0, i0, s1);
    LetterStep(a1, 6, i1, s2);
    LetterStep(a2, 4, i2, s3);
    LetterStep(a3, 2, i3, rest);
    JoinThree(b0, b1, b2, DecodeFrom(acc', 0, rest));
  }

  lemma JoinThree(b0: U8, b1: U8, b2: U8, r: Option<seq<U8>>)
    ensures Prepend(b0, Prepend(b1, Prepend(b2, r))) == Joined([b0, b1, b2], r)
  {
    if r.Some? {
      assert [b0] + ([b1] + ([b2] + r.value)) == [b0, b1, b2] + r.value;
    }
  }

  /** A last group of one or two bytes: the padding stops the decoder. */
  lemma LastGroup(acc: bv32, d: seq<U8>)
    requires 0 < |d| < 3
    ensures DecodeFrom(acc, 0, EncodeGroup(d)) == Some(d)
  {
    hide DecodeFrom, Letter, LowByte, Shifted, Sextet0, Sextet1, Sextet2, Sextet3;
    var b0 := d[0];
    var b1: U8 := if |d| > 1 then d[1] else 0;
    var i0, i1, i2 := Sextet0(b0), Sextet1(b0, b1), Sextet2(b1, 0);
    SextetsSmall(b0, b1, 0);
    GroupBytes(acc, b0, b1, 0);
    var a1 := Shifted(acc, i0);
    var a2 := Shifted(a1, i1);
    var a3 := Shifted(a2, i2);
    assert [b1] + [] == [b1] && [b0] + [] == [b0];
    if |d| == 1 {
      assert d == [b0] && EncodeGroup(d) == [Letter(i0)] + ([Letter(i1)] + [PAD, PAD]);
      LetterStep(acc, 0, i0, [Letter(i1)] + [PAD, PAD]);
      LetterStep(a1, 6, i1, [PAD, PAD]);
      PadStops(a2, 4, [PAD, PAD]);
    } else {
      assert d == [b0] + [b1] && EncodeGroup(d) == [Letter(i0)] + ([Letter(i1)] + ([Letter(i2)] + [PAD]));
      LetterStep(acc, 0, i0, [Letter(i1)] + ([Letter(i2)] + [PAD]));
      LetterStep(a1, 6, i1, [Letter(i2)] + [PAD]);
      LetterStep(a2, 4, i2, [PAD]);
      PadStops(a3, 2, [PAD]);
    }
  }

  lemma PadStops(acc: bv32, bits: bv32, s: seq<U8>)
    requires bits < 8 && (s == [] || s[0] == PAD)
    ensures DecodeFrom(acc, bits, s) == Some([])
  {
  }

  /** Decoding an encoding gives the bytes back, whatever is left in the accumulator. */
  lemma {:induction false} DecodeEncoded(acc: bv32, d: seq<U8>)
    ensures DecodeFrom(acc, 0, Encode(d)) == Some(d)
    decreases |d|
  {
    hide DecodeFrom, EncodeGroup;
    if d == [] {
      PadStops(acc, 0, []);
    } else if |d| < 3 {
      LastGroup(acc, d);
    } else {
      assert d[..3] == [d[0], d[1], d[2]] && d == d[..3] + d[3..];
      var acc' := GroupStep(acc, d[0], d[1], d[2], Encode(d[3..]));
      DecodeEncoded(acc', d[3..]);
      if |d| == 3 {
        assert d[..3] == d && d[3..] == [];
        assert EncodeGroup(d) + Encode(d[3..]) == EncodeGroup(d);
      }
    }
  }

  lemma {:induction false} EncodeHasNoComma(d: seq<U8>)
    ensures COMMA !in Encode(d)
    decreases |d|
  {
    if d != [] {
      var g := d[..if |d| <= 3 then |d| else 3];
      GroupHasNoComma(g);
      hide EncodeGroup;
      if |d| > 3 {
        EncodeHasNoComma(d[3..]);
      } else {
        assert g == d;
      }
    }
  }

  lemma GroupHasNoComma(d: seq<U8>)
    requires d != []
    ensures COMMA !in EncodeGroup(d)
  {
    var b0 := d[0];
    var b1: U8 := if |d| > 1 then d[1] else 0;
    var b2: U8 := if |d| > 2 then d[2] else 0;
    SextetsSmall(b0, b1, b2);
    LetterFacts(Sextet0(b0));
    LetterFacts(Sextet1(b0, b1));
    LetterFacts(Sextet2(b1, b2));
    LetterFacts(Sextet3(b2));
    hide Letter, Sextet0, Sextet1, Sextet2, Sextet3;
  }

  lemma {:induction false} NoCommaKept(p: seq<U8>, s: seq<U8>)
    requires COMMA !in s
    ensures AfterComma(s) == s && AfterComma(p + [COMMA] + s) == s
  {
    if s == [] {
      AfterLast(p, COMMA);
      assert p + [COMMA] + s == p + [COMMA];
    } else {
      hide AfterComma;
      var front, c := s[..|s| - 1], s[|s| - 1];
      NoCommaKept(p, front);
      AfterLast(front, c);
      AfterLast(p + [COMMA] + front, c);
      assert front + [c] == s && p + [COMMA] + front + [c] == p + [COMMA] + s;
    }
  }

  /** For every byte sequence: base64_decode(base64_encode(d)) == d. */
  lemma RoundTrip(d: seq<U8>)
    ensures Decode(Encode(d)) == Some(d)
  {
    EncodeHasNoComma(d);
    NoCommaKept([], Encode(d));
    DecodeEncoded(0, d);
    hide DecodeFrom, Encode, AfterComma;
  }

  /** Different byte sequences have different encodings. */
  lemma EncodeInjective(d: seq<U8>, e: seq<U8>)
    requires Encode(d) == Encode(e)
    ensures d == e
  {
    RoundTrip(d);
    RoundTrip(e);
    hide Decode, Encode;
  }

  // ---------- what the decoder tolerates ----------

  function Compact(s: seq<U8>): seq<U8> {
    if s == [] then [] else (if IsSpace(s[0]) then [] else [s[0]]) + Compact(s[1..])
  }

  /** White space anywhere does not matter. */
  lemma {:induction false} SpacesIgnored(acc: bv32, bits: bv32, s: seq<U8>)
    requires bits < 8
    ensures DecodeFrom(acc, bits, s) == DecodeFrom(acc, bits, Compact(s))
    decreases |s|
  {
    hide LowByte, Shifted, Val, IsSpace;
    if s != [] && s[0] != PAD {
      if IsSpace(s[0]) {
        SpacesIgnored(acc, bits, s[1..]);
        assert Compact(s) == Compact(s[1..]);
      } else {
        assert Compact(s) == [s[0]] + Compact(s[1..]) && Compact(s)[1..] == Compact(s[1..]);
        if Val(s[0]).Some? {
          var acc' := Shifted(acc, Val(s[0]).value);
          SpacesIgnored(acc', if bits + 6 >= 8 then bits + 6 - 8 else bits + 6, s[1..]);
        }
      }
    } else if s != [] {
      PadIsNoSpace();
      assert Compact(s)[0] == PAD;
    }
  }

  lemma PadIsNoSpace()
    ensures !IsSpace(PAD)
  {
  }

  /** An encoding with white space scattered in it, after any data-URL prefix, decodes to the same bytes. */
  lemma TolerantRoundTrip(d: seq<U8>, prefix: seq<U8>, text: seq<U8>)
    requires 0x2C !in text && Compact(text) == Encode(d)
    ensures Decode(text) == Some(d) && Decode(prefix + [0x2C] + text) == Some(d)
  {
    NoCommaKept(prefix, text);
    SpacesIgnored(0, 0, text);
    DecodeEncoded(0, d);
    hide DecodeFrom, Encode, AfterComma, Compact;
  }
}
