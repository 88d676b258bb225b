/** Base64 against RFC 4648: its alphabet (Table 1), its groups as 24-bit numbers (section 4), its examples
    (section 10), and exactly which texts the decoder of src/interface/server_analyze.rs accepts. */
module Base64Laws {
  import opened Options
  import opened Base64

  // ---------- the alphabet ----------

  /** Table 1 in ASCII: A to Z, a to z, 0 to 9, plus, slash. */
  lemma Table1()
    ensures
            && Letter(0) == 0x41 && Letter(1) == 0x42 && Letter(2) == 0x43 && Letter(3) == 0x44
            && Letter(4) == 0x45 && Letter(5) == 0x46 && Letter(6) == 0x47 && Letter(7) == 0x48
            && Letter(8) == 0x49 && Letter(9) == 0x4A && Letter(10) == 0x4B && Letter(11) == 0x4C
            && Letter(12) == 0x4D && Letter(13) == 0x4E && Letter(14) == 0x4F && Letter(15) == 0x50
            && Letter(16) == 0x51 && Letter(17) == 0x52 && Letter(18) == 0x53 && Letter(19) == 0x54
            && Letter(20) == 0x55 && Letter(21) == 0x56 && Letter(22) == 0x57 && Letter(23) == 0x58
            && Letter(24) == 0x59 && Letter(25) == 0x5A && Letter(26) == 0x61 && Letter(27) == 0x62
            && Letter(28) == 0x63 && Letter(29) == 0x64 && Letter(30) == 0x65 && Letter(31) == 0x66
            && Letter(32) == 0x67 && Letter(33) == 0x68 && Letter(34) == 0x69 && Letter(35) == 0x6A
            && Letter(36) == 0x6B && Letter(37) == 0x6C && Letter(38) == 0x6D && Letter(39) == 0x6E
            && Letter(40) == 0x6F && Letter(41) == 0x70 && Letter(42) == 0x71 && Letter(43) == 0x72
            && Letter(44) == 0x73 && Letter(45) == 0x74 && Letter(46) == 0x75 && Letter(47) == 0x76
            && Letter(48) == 0x77 && Letter(49) == 0x78 && Letter(50) == 0x79 && Letter(51) == 0x7A
            && Letter(52) == 0x30 && Letter(53) == 0x31 && Letter(54) == 0x32 && Letter(55) == 0x33
            && Letter(56) == 0x34 && Letter(57) == 0x35 && Letter(58) == 0x36 && Letter(59) == 0x37
            && Letter(60) == 0x38 && Letter(61) == 0x39 && Letter(62) == 0x2B && Letter(63) == 0x2F
  {
  }

  /** Reading a character is the inverse of writing it; other characters have no value. */
  lemma Values(c: U8)
    ensures Val(c).Some? <==> exists i: U8 :: i < 64 && Letter(i) == c
    ensures Val(c).Some? ==> Val(c).value < 64 && Letter(Val(c).value) == c
  {
    ValueOf(c);
    if i: U8 :| i < 64 && Letter(i) == c {
      LetterFacts(i);
    }
    hide Letter, Val;
  }

  lemma ValueOf(c: U8)
    ensures Val(c).Some? ==> Val(c).value < 64 && Letter(Val(c).value) == c
  {
  }

  // ---------- groups ----------

  /** The four 6-bit numbers of three bytes are the base-64 digits of the 24-bit number they form. */
  lemma GroupIsNumber(b0: U8, b1: U8, b2: U8)
    ensures (b0 as bv32 << 16) | (b1 as bv32 << 8) | (b2 as bv32)
            == (Sextet0(b0) as bv32 << 18) | (Sextet1(b0, b1) as bv32 << 12) | (Sextet2(b1, b2) as bv32 << 6)
               | (Sextet3(b2) as bv32)
  {
  }

  /** Whole groups are encoded on their own. */
  lemma {:induction false} EncodeAppend(a: seq<U8>, b: seq<U8>)
    requires |a| % 3 == 0
    ensures Encode(a + b) == Encode(a) + Encode(b)
    decreases |a|
  {
    hide EncodeGroup;
    if a == [] {
      assert a + b == b;
    } else {
      assert (a + b)[..3] == a[..3] && (a + b)[3..] == a[3..] + b;
      EncodeAppend(a[3..], b);
      if |a| == 3 {
        assert a[..3] == a && a[3..] == [] && a[3..] + b == b;
      }
      if |a + b| == 3 {
        assert b == [] && a + b == a;
      }
    }
  }

  /** The examples of section 10: "", "f", "fo", "foo", "foob", "fooba", "foobar". */
  lemma Examples()
    ensures Encode([]) == []
    ensures Encode([0x66]) == [0x5A, 0x67, 0x3D, 0x3D]
    ensures Encode([0x66, 0x6F]) == [0x5A, 0x6D, 0x38, 0x3D]
    ensures Encode([0x66, 0x6F, 0x6F]) == [0x5A, 0x6D, 0x39, 0x76]
    ensures Encode([0x66, 0x6F, 0x6F, 0x62]) == [0x5A, 0x6D, 0x39, 0x76, 0x59, 0x67, 0x3D, 0x3D]
    ensures Encode([0x66, 0x6F, 0x6F, 0x62, 0x61]) == [0x5A, 0x6D, 0x39, 0x76, 0x59, 0x6D, 0x45, 0x3D]
    ensures Encode([0x66, 0x6F, 0x6F, 0x62, 0x61, 0x72]) == [0x5A, 0x6D, 0x39, 0x76, 0x59, 0x6D, 0x46, 0x79]
  {
  }

  // ---------- what the decoder accepts ----------

  /** Everything from the first padding character on is ignored. */
  lemma {:induction false} PadEnds(acc: bv32, bits: bv32, s: seq<U8>, rest: seq<U8>)
    requires bits < 8
    ensures DecodeFrom(acc, bits, s + [PAD] + rest) == DecodeFrom(acc, bits, s)
    decreases |s|
  {
    hide LowByte, Shifted, Val, IsSpace;
    var t := s + [PAD] + rest;
    if s == [] {
      assert t[0] == PAD;
    } else {
      assert t[0] == s[0] && t[1..] == s[1..] + [PAD] + rest;
      if s[0] != PAD {
        if IsSpace(s[0]) {
          PadEnds(acc, bits, s[1..], rest);
        } else if Val(s[0]).Some? {
          PadEnds(Shifted(acc, Val(s[0]).value), if bits + 6 >= 8 then bits + 6 - 8 else bits + 6, s[1..], rest);
        }
      }
    }
  }

  /** A character the decoder passes over or reads. */
  ghost predicate Readable(c: U8) {
    c == 0x20 || c == 0x09 || c == 0x0A || c == 0x0D || exists i: U8 :: i < 64 && Letter(i) == c
  }

  lemma ReadableIs(c: U8)
    ensures Readable(c) <==> IsSpace(c) || Val(c).Some?
  {
    Values(c);
    hide Letter, Val;
  }

  /** Without padding, a text decodes exactly if every character is one of these. */
  lemma {:induction false} Accepts(acc: bv32, bits: bv32, s: seq<U8>)
    requires bits < 8 && PAD !in s
    ensures DecodeFrom(acc, bits, s).Some? <==> forall i :: 0 <= i < |s| ==> Readable(s[i])
    decreases |s|
  {
    hide LowByte, Shifted, Val, IsSpace, Readable;
    if s != [] {
      ReadableIs(s[0]);
      assert s[0] in s;
      if IsSpace(s[0]) {
        Accepts(acc, bits, s[1..]);
      } else if Val(s[0]).Some? {
        Accepts(Shifted(acc, Val(s[0]).value), if bits + 6 >= 8 then bits + 6 - 8 else bits + 6, s[1..]);
      }
      assert forall i :: 1 <= i < |s| ==> s[i] == s[1..][i - 1];
    }
  }
}
