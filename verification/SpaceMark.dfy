/** Space and U+2581: the mapping the encoders apply and `decode` undoes (src/inference/tokenizer.rs). */
module SpaceMark {
  import opened Tokens

  /** ASCII space becomes the three bytes of U+2581; everything else is kept. */
  function NormalizeByte(b: Byte): Bytes {
    if b == SPACE then MARK else [b]
  }

  function Normalize(raw: Bytes): Bytes {
    if raw == [] then [] else Normalize(raw[..|raw| - 1]) + NormalizeByte(raw[|raw| - 1])
  }

  lemma {:induction false} NormalizeAppend(a: Bytes, b: Bytes)
    ensures Normalize(a + b) == Normalize(a) + Normalize(b)
  {
    if b == [] {
      assert a + b == a;
    } else {
      var i := |b| - 1;
      assert (a + b)[..|a + b| - 1] == a + b[..i];
      NormalizeAppend(a, b[..i]);
    }
  }

  method NormalizeBytes(raw: Bytes) returns (bytes: Bytes)
    ensures bytes == Normalize(raw)
  {
    bytes := [];
    for i := 0 to |raw|
      invariant bytes == Normalize(raw[..i])
    {
      assert raw[..i + 1][..i] == raw[..i];
      if raw[i] == SPACE {
        bytes := bytes + [0xE2, 0x96, 0x81];
      } else {
        bytes := bytes + [raw[i]];
      }
    }
    assert raw[..|raw|] == raw;
  }

  // ---------- decode ----------

  /** Replaces each U+2581 by a space. */
  function Unmark(t: Bytes): Bytes {
    if t == [] then []
    else if |t| >= 3 && t[0] == 0xE2 && t[1] == 0x96 && t[2] == 0x81 then [SPACE] + Unmark(t[3..])
    else [t[0]] + Unmark(t[1..])
  }

  method UnmarkToken(t: Bytes, bytes: Bytes) returns (bytes': Bytes)
    ensures bytes' == bytes + Unmark(t)
  {
    bytes' := bytes;
    var i := 0;
    while i < |t|
      invariant i <= |t| && bytes' + Unmark(t[i..]) == bytes + Unmark(t)
    {
      ghost var rest := t[i..];
      if i + 2 < |t| && t[i] == 0xE2 && t[i + 1] == 0x96 && t[i + 2] == 0x81 {
        assert rest[3..] == t[i + 3..];
        bytes' := bytes' + [SPACE];
        i := i + 3;
      } else {
        assert rest[1..] == t[i + 1..];
        bytes' := bytes' + [t[i]];
        i := i + 1;
      }
    }
    assert t[i..] == [];
  }
}
