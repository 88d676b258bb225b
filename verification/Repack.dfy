/** The Q6K four-row interleave and the precomputed block scales (src/inference/repack.rs), and the two
    batch paths that read them (src/inference/matmul_graph_batch.rs). Bytes move in whole 210-byte
    blocks: block `u` of a buffer is bytes 210u .. 210u + 209. */
module Repack {
  import opened Arithmetic
  import opened Tokens
  import S = MatmulSeq

  function Block(b: Bytes, u: nat): (r: Bytes)
    requires Product(u + 1, S.Q6K_BLOCK_BYTES) <= |b|
    ensures |r| == S.Q6K_BLOCK_BYTES
  {
    b[Product(u, S.Q6K_BLOCK_BYTES)..Product(u + 1, S.Q6K_BLOCK_BYTES)]
  }

  lemma BlockIn(b: Bytes, blocks: nat, u: nat)
    requires u < blocks && Product(blocks, S.Q6K_BLOCK_BYTES) <= |b|
    ensures Product(u + 1, S.Q6K_BLOCK_BYTES) <= |b|
  {
    MulMono(u + 1, blocks, S.Q6K_BLOCK_BYTES);
  }

  // ---------- the index map ----------

  /** Source block of row 4 * quad + r, column blk, in the row-major weight. */
  function SourceBlock(nb: nat, quad: nat, blk: nat, r: nat): nat {
    Product(quad * 4 + r, nb) + blk
  }

  /** Its place in the interleaved weight. */
  function TileBlock(nb: nat, quad: nat, blk: nat, r: nat): nat {
    (Product(quad, nb) + blk) * 4 + r
  }

  /** Which source block lands at block u of the interleaved weight. */
  function Home(nb: nat, u: nat): nat
    requires 0 < nb
  {
    SourceBlock(nb, Quot(u / 4, nb), u / 4 % nb, u % 4)
  }

  /** Where block s of the row-major weight goes. */
  function Dest(nb: nat, s: nat): nat
    requires 0 < nb
  {
    TileBlock(nb, Quot(s, nb) / 4, s % nb, Quot(s, nb) % 4)
  }

  lemma HomeOfTile(nb: nat, quad: nat, blk: nat, r: nat)
    requires blk < nb && r < 4
    ensures Home(nb, TileBlock(nb, quad, blk, r)) == SourceBlock(nb, quad, blk, r)
  {
    var u := TileBlock(nb, quad, blk, r);
    assert u / 4 == Product(quad, nb) + blk && u % 4 == r;
    DivMod(quad, blk, nb);
  }

  lemma DestOfSource(nb: nat, quad: nat, blk: nat, r: nat)
    requires blk < nb && r < 4
    ensures Dest(nb, SourceBlock(nb, quad, blk, r)) == TileBlock(nb, quad, blk, r)
  {
    DivMod(quad * 4 + r, blk, nb);
  }

  lemma TileIn(nq: nat, nb: nat, quad: nat, blk: nat, r: nat)
    requires quad < nq && blk < nb && r < 4
    ensures TileBlock(nb, quad, blk, r) < 4 * Product(nq, nb)
    ensures SourceBlock(nb, quad, blk, r) < Product(4 * nq, nb)
    ensures Product(4 * nq, nb) == 4 * Product(nq, nb)
  {
    Below(quad, blk, nq, nb);
    Below(quad * 4 + r, blk, 4 * nq, nb);
    FourTimes(nq, nb);
  }

  lemma FourTimes(a: nat, b: nat)
    ensures 4 * a * b == 4 * (a * b)
  {
  }

  /** Every block number of the interleaved weight is a (quad, column, row) and conversely. */
  lemma TileCoordinates(nq: nat, nb: nat, u: nat) returns (quad: nat, blk: nat, r: nat)
    requires 0 < nb && u < 4 * Product(nq, nb)
    ensures quad < nq && blk < nb && r < 4 && u == TileBlock(nb, quad, blk, r)
  {
    quad, blk, r := Quot(u / 4, nb), u / 4 % nb, u % 4;
    Quotient(u / 4, nq, nb);
    Divided(u / 4, nb);
  }

  lemma SourceCoordinates(nq: nat, nb: nat, s: nat) returns (quad: nat, blk: nat, r: nat)
    requires 0 < nb && s < Product(4 * nq, nb)
    ensures quad < nq && blk < nb && r < 4 && s == SourceBlock(nb, quad, blk, r)
  {
    quad, blk, r := Quot(s, nb) / 4, s % nb, Quot(s, nb) % 4;
    Quotient(s, 4 * nq, nb);
    Divided(s, nb);
  }

  /** The repack is a bijection on the blocks of n_rows = 4 * nq rows: Home and Dest stay in range and
      undo each other. */
  lemma RepackBijection(nq: nat, nb: nat, u: nat)
    requires 0 < nb && u < 4 * Product(nq, nb)
    ensures Home(nb, u) < 4 * Product(nq, nb) && Dest(nb, Home(nb, u)) == u
    ensures Dest(nb, u) < 4 * Product(nq, nb) && Home(nb, Dest(nb, u)) == u
  {
    FourTimes(nq, nb);
    var quad, blk, r := TileCoordinates(nq, nb, u);
    TileIn(nq, nb, quad, blk, r);
    HomeOfTile(nb, quad, blk, r);
    DestOfSource(nb, quad, blk, r);
    quad, blk, r := SourceCoordinates(nq, nb, u);
    TileIn(nq, nb, quad, blk, r);
    HomeOfTile(nb, quad, blk, r);
    DestOfSource(nb, quad, blk, r);
    hide Home, Dest, TileBlock, SourceBlock;
  }

  // ---------- q6k_repack_4row ----------

  /** `packed` is the interleave of the first 4 * nq rows of `src`. */
  ghost predicate Interleaved(src: Bytes, packed: Bytes, nq: nat, nb: nat) {
    && |packed| == Product(4 * Product(nq, nb), S.Q6K_BLOCK_BYTES) <= |src|
    && forall quad: nat, blk: nat, r: nat :: quad < nq && blk < nb && r < 4 ==> TileMatches(src, packed, nb, quad, blk, r)
  }

  predicate TileMatches(src: Bytes, packed: Bytes, nb: nat, quad: nat, blk: nat, r: nat) {
    && Product(TileBlock(nb, quad, blk, r) + 1, S.Q6K_BLOCK_BYTES) <= |packed|
    && Product(SourceBlock(nb, quad, blk, r) + 1, S.Q6K_BLOCK_BYTES) <= |src|
    && Block(packed, TileBlock(nb, quad, blk, r)) == Block(src, SourceBlock(nb, quad, blk, r))
  }

  /** copy_nonoverlapping of one block. */
  method CopyBlock(src: Bytes, from: nat, dst: array<Byte>, to: nat)
    requires from + S.Q6K_BLOCK_BYTES <= |src| && to + S.Q6K_BLOCK_BYTES <= dst.Length
    modifies dst
    ensures dst[..] == old(dst[..to]) + src[from..from + S.Q6K_BLOCK_BYTES] + old(dst[to + S.Q6K_BLOCK_BYTES..])
  {
    for i := 0 to S.Q6K_BLOCK_BYTES
      invariant dst[..] == old(dst[..to]) + src[from..from + i] + old(dst[to + i..])
    {
      dst[to + i] := src[from + i];
    }
  }

  /** Blocks below u hold their source blocks. */
  ghost predicate PackedUpto(src: Bytes, dst: Bytes, nb: nat, u: nat)
    requires 0 < nb
  {
    forall v: nat :: v < u ==> BlockHome(src, dst, nb, v)
  }

  predicate BlockHome(src: Bytes, dst: Bytes, nb: nat, v: nat)
    requires 0 < nb
  {
    && Product(v + 1, S.Q6K_BLOCK_BYTES) <= |dst| && Product(Home(nb, v) + 1, S.Q6K_BLOCK_BYTES) <= |src|
    && Block(dst, v) == Block(src, Home(nb, v))
  }

  /** Copying block u keeps the earlier ones and adds u. */
  lemma PackedNext(src: Bytes, before: Bytes, after: Bytes, nb: nat, u: nat)
    requires 0 < nb && PackedUpto(src, before, nb, u)
    requires Product(u + 1, S.Q6K_BLOCK_BYTES) <= |before| && Product(Home(nb, u) + 1, S.Q6K_BLOCK_BYTES) <= |src|
    requires after == before[..Product(u, S.Q6K_BLOCK_BYTES)] + Block(src, Home(nb, u)) + before[Product(u, S.Q6K_BLOCK_BYTES) + S.Q6K_BLOCK_BYTES..]
    ensures |after| == |before| && PackedUpto(src, after, nb, u + 1)
  {
    hide Home;
    forall v: nat | v < u + 1
      ensures BlockHome(src, after, nb, v)
    {
      if v < u {
        assert BlockHome(src, before, nb, v);
        assert Block(after, v) == Block(before, v);
      } else {
        assert Block(after, v) == Block(src, Home(nb, u));
      }
    }
  }

  lemma PackedAll(src: Bytes, dst: Bytes, nq: nat, nb: nat)
    requires 0 < nb ==> PackedUpto(src, dst, nb, 4 * Product(nq, nb))
    requires |dst| == Product(4 * Product(nq, nb), S.Q6K_BLOCK_BYTES) <= |src|
    ensures Interleaved(src, dst, nq, nb)
  {
    hide PackedUpto;
    forall quad: nat, blk: nat, r: nat | quad < nq && blk < nb && r < 4
      ensures TileMatches(src, dst, nb, quad, blk, r)
    {
      TileIn(nq, nb, quad, blk, r);
      HomeOfTile(nb, quad, blk, r);
      PackedAt(src, dst, nb, 4 * Product(nq, nb), TileBlock(nb, quad, blk, r));
    }
  }

  lemma PackedAt(src: Bytes, dst: Bytes, nb: nat, n: nat, v: nat)
    requires 0 < nb && PackedUpto(src, dst, nb, n) && v < n
    ensures BlockHome(src, dst, nb, v)
  {
  }

  method RepackFourRows(src: Bytes, nRows: nat, nCols: nat) returns (dst: array<Byte>)
    requires Product(4 * Product(nRows / 4, nCols / S.BLOCK_SIZE), S.Q6K_BLOCK_BYTES) <= |src|
    ensures fresh(dst) && Interleaved(src, dst[..], nRows / 4, nCols / S.BLOCK_SIZE)
  {
    var nb, nq := nCols / S.BLOCK_SIZE, nRows / 4;
    var total := 4 * Product(nq, nb);
    dst := new Byte[Product(total, S.Q6K_BLOCK_BYTES)](_ => 0);
    for quad := 0 to nq
      invariant 0 < nb ==> PackedUpto(src, dst[..], nb, TileBlock(nb, quad, 0, 0))
    {
      for blk := 0 to nb
        invariant 0 < nb ==> PackedUpto(src, dst[..], nb, TileBlock(nb, quad, blk, 0))
      {
        for r := 0 to 4
          invariant PackedUpto(src, dst[..], nb, TileBlock(nb, quad, blk, r))
        {
          var from, to := CopyPlace(src, nq, nb, quad, blk, r);
          ghost var before := dst[..];
          CopyBlock(src, from, dst, to);
          PackedNext(src, before, dst[..], nb, TileBlock(nb, quad, blk, r));
        }
      }
      Succ(quad, nb);
    }
    PackedAll(src, dst[..], nq, nb);
  }

  /** The byte offsets of one copy, as the loop body computes them. */
  method CopyPlace(src: Bytes, nq: nat, nb: nat, quad: nat, blk: nat, r: nat) returns (from: nat, to: nat)
    requires quad < nq && blk < nb && r < 4 && Product(4 * Product(nq, nb), S.Q6K_BLOCK_BYTES) <= |src|
    ensures to == Product(TileBlock(nb, quad, blk, r), S.Q6K_BLOCK_BYTES)
    ensures to + S.Q6K_BLOCK_BYTES == Product(TileBlock(nb, quad, blk, r) + 1, S.Q6K_BLOCK_BYTES) <= Product(4 * Product(nq, nb), S.Q6K_BLOCK_BYTES)
    ensures Home(nb, TileBlock(nb, quad, blk, r)) == SourceBlock(nb, quad, blk, r)
    ensures from + S.Q6K_BLOCK_BYTES == Product(SourceBlock(nb, quad, blk, r) + 1, S.Q6K_BLOCK_BYTES) <= |src|
    ensures src[from..from + S.Q6K_BLOCK_BYTES] == Block(src, Home(nb, TileBlock(nb, quad, blk, r)))
  {
    TileIn(nq, nb, quad, blk, r);
    HomeOfTile(nb, quad, blk, r);
    BlockIn(src, 4 * Product(nq, nb), SourceBlock(nb, quad, blk, r));
    from := Product(quad * 4 + r, Product(nb, S.Q6K_BLOCK_BYTES)) + blk * S.Q6K_BLOCK_BYTES;
    to := Product(Product(quad, nb) + blk, 4 * S.Q6K_BLOCK_BYTES) + r * S.Q6K_BLOCK_BYTES;
    Offsets(quad * 4 + r, nb, blk);
  }

  lemma Offsets(row: nat, nb: nat, blk: nat)
    ensures row * (nb * S.Q6K_BLOCK_BYTES) + blk * S.Q6K_BLOCK_BYTES == (row * nb + blk) * S.Q6K_BLOCK_BYTES
  {
  }

  // ---------- q6k_precompute_d_arr ----------

  /** The f16 scale of row 4 * quad + r, column blk, straight from the row-major weight. */
  function ScaleAt(f16: (Byte, Byte) -> real, src: Bytes, nb: nat, quad: nat, blk: nat, r: nat): real {
    var p := Product(SourceBlock(nb, quad, blk, r), S.Q6K_BLOCK_BYTES) + S.Q6K_D_OFFSET;
    if p + 1 < |src| then f16(src[p], src[p + 1]) else 0.0
  }

  ghost predicate Precomputed(f16: (Byte, Byte) -> real, src: Bytes, d: seq<real>, nq: nat, nb: nat) {
    && |d| == 4 * Product(nq, nb) && Product(4 * Product(nq, nb), S.Q6K_BLOCK_BYTES) <= |src|
    && forall quad: nat, blk: nat, r: nat :: quad < nq && blk < nb && r < 4 ==> ScaleMatches(f16, src, d, nb, quad, blk, r)
  }

  predicate ScaleMatches(f16: (Byte, Byte) -> real, src: Bytes, d: seq<real>, nb: nat, quad: nat, blk: nat, r: nat) {
    TileBlock(nb, quad, blk, r) < |d| && d[TileBlock(nb, quad, blk, r)] == ScaleAt(f16, src, nb, quad, blk, r)
  }

  function HomeScale(f16: (Byte, Byte) -> real, src: Bytes, nb: nat, v: nat): real
    requires 0 < nb
  {
    ScaleAt(f16, src, nb, Quot(v / 4, nb), v / 4 % nb, v % 4)
  }

  lemma HomeScaleOfTile(f16: (Byte, Byte) -> real, src: Bytes, nb: nat, quad: nat, blk: nat, r: nat)
    requires blk < nb && r < 4
    ensures HomeScale(f16, src, nb, TileBlock(nb, quad, blk, r)) == ScaleAt(f16, src, nb, quad, blk, r)
  {
    var u := TileBlock(nb, quad, blk, r);
    assert u / 4 == Product(quad, nb) + blk && u % 4 == r;
    DivMod(quad, blk, nb);
  }

  /** Reads and converts the scale of one block, at the byte offset the loops compute. */
  method ReadScale(f16: (Byte, Byte) -> real, src: Bytes, nq: nat, nb: nat, quad: nat, blk: nat, r: nat) returns (d: real)
    requires quad < nq && blk < nb && r < 4 && Product(4 * Product(nq, nb), S.Q6K_BLOCK_BYTES) <= |src|
    ensures d == ScaleAt(f16, src, nb, quad, blk, r)
  {
    var from, _ := CopyPlace(src, nq, nb, quad, blk, r);
    d := f16(src[from + S.Q6K_D_OFFSET], src[from + S.Q6K_D_OFFSET + 1]);
  }

  method PrecomputeScales(f16: (Byte, Byte) -> real, src: Bytes, nRows: nat, nCols: nat) returns (d: array<real>)
    requires Product(4 * Product(nRows / 4, nCols / S.BLOCK_SIZE), S.Q6K_BLOCK_BYTES) <= |src|
    ensures fresh(d) && Precomputed(f16, src, d[..], nRows / 4, nCols / S.BLOCK_SIZE)
  {
    var nb, nq := nCols / S.BLOCK_SIZE, nRows / 4;
    d := new real[4 * Product(nq, nb)](_ => 0.0);
    for quad := 0 to nq
      invariant 0 < nb ==> forall v: nat :: v < TileBlock(nb, quad, 0, 0) && v < d.Length ==> d[v] == HomeScale(f16, src, nb, v)
    {
      for blk := 0 to nb
        invariant forall v: nat :: v < TileBlock(nb, quad, blk, 0) && v < d.Length ==> d[v] == HomeScale(f16, src, nb, v)
      {
        for r := 0 to 4
          invariant forall v: nat :: v < TileBlock(nb, quad, blk, r) && v < d.Length ==> d[v] == HomeScale(f16, src, nb, v)
        {
          TileIn(nq, nb, quad, blk, r);
          HomeScaleOfTile(f16, src, nb, quad, blk, r);
          hide HomeScale, ScaleAt;
          var x := ReadScale(f16, src, nq, nb, quad, blk, r);
          d[TileBlock(nb, quad, blk, r)] := x;
        }
      }
      Succ(quad, nb);
    }
    forall quad: nat, blk: nat, r: nat | quad < nq && blk < nb && r < 4
      ensures ScaleMatches(f16, src, d[..], nb, quad, blk, r)
    {
      TileIn(nq, nb, quad, blk, r);
      HomeScaleOfTile(f16, src, nb, quad, blk, r);
    }
  }

  // ---------- the two kernel paths ----------

  /** The scales the tile kernel is handed for one quad: column by column, four rows each. */
  function TileScales(f16: (Byte, Byte) -> real, src: Bytes, nb: nat, quad: nat, q8d: seq<real>): (s: seq<real>)
    requires nb <= |q8d|
    ensures |s| == nb * 4
  {
    seq(nb * 4, j requires 0 <= j < nb * 4 => Times(ScaleAt(f16, src, nb, quad, j / 4, j % 4), q8d[j / 4]))
  }

  lemma ScaleOfColumn(f16: (Byte, Byte) -> real, weight: Bytes, nb: nat, quad: nat, q8d: seq<real>, blk: nat, r: nat)
    requires blk < nb <= |q8d| && r < 4
    ensures TileScales(f16, weight, nb, quad, q8d)[blk * 4 + r] == Times(ScaleAt(f16, weight, nb, quad, blk, r), q8d[blk])
  {
    assert (blk * 4 + r) / 4 == blk && (blk * 4 + r) % 4 == r;
    hide Times, ScaleAt;
  }

  /** `scratch` was `start`, and has the first n entries of `s` written from `at` on. */
  predicate Filled(start: seq<real>, scratch: seq<real>, at: nat, s: seq<real>, n: nat) {
    n <= |s| && at + n <= |start| && scratch == start[..at] + s[..n] + start[at + n..]
  }

  lemma FilledNone(start: seq<real>, at: nat, s: seq<real>)
    requires at + |s| <= |start|
    ensures Filled(start, start, at, s, 0)
  {
    assert start == start[..at] + s[..0] + start[at..];
  }

  lemma FilledAll(start: seq<real>, scratch: seq<real>, at: nat, s: seq<real>)
    requires Filled(start, scratch, at, s, |s|)
    ensures scratch == start[..at] + s + start[at + |s|..]
  {
    assert s[..|s|] == s;
  }

  lemma FilledNext(start: seq<real>, before: seq<real>, after: seq<real>, at: nat, s: seq<real>, n: nat, v: seq<real>)
    requires Filled(start, before, at, s, n) && n + |v| <= |s| && at + n + |v| <= |start| && v == s[n..n + |v|]
    requires after == before[..at + n] + v + before[at + n + |v|..]
    ensures Filled(start, after, at, s, n + |v|)
  {
    var m := at + n;
    assert before[..m] == start[..at] + s[..n];
    assert before[m + |v|..] == start[m + |v|..];
    assert s[..n + |v|] == s[..n] + v;
  }

  /** q6k_repacked_batch_ws: scales read and converted on the fly, into the thread's own scratch at `at`. */
  method ScalesOnTheFly(f16: (Byte, Byte) -> real, weight: Bytes, nq: nat, nb: nat, quad: nat, q8d: seq<real>,
                        scratch: array<real>, at: nat)
    requires quad < nq && nb <= |q8d| && at + nb * 4 <= scratch.Length
    requires Product(4 * Product(nq, nb), S.Q6K_BLOCK_BYTES) <= |weight|
    modifies scratch
    ensures scratch[..] == old(scratch[..at]) + TileScales(f16, weight, nb, quad, q8d) + old(scratch[at + nb * 4..])
  {
    hide *;
    ghost var start, s := scratch[..], TileScales(f16, weight, nb, quad, q8d);
    FilledNone(start, at, s);
    for blk := 0 to nb
      invariant Filled(start, scratch[..], at, s, blk * 4)
    {
      for r := 0 to 4
        invariant Filled(start, scratch[..], at, s, blk * 4 + r)
      {
        var d := ReadScale(f16, weight, nq, nb, quad, blk, r);
        ScaleOfColumn(f16, weight, nb, quad, q8d, blk, r);
        ghost var before := scratch[..];
        scratch[at + blk * 4 + r] := Times(d, q8d[blk]);
        FilledNext(start, before, scratch[..], at, s, blk * 4 + r, [scratch[at + blk * 4 + r]]);
      }
    }
    FilledAll(start, scratch[..], at, s);
  }

  /** q6k_repacked_batch_ws_pre_d: four multiplications a block, from the precomputed array. */
  method ScalesPreD(f16: (Byte, Byte) -> real, weight: Bytes, d: seq<real>, nq: nat, nb: nat, quad: nat,
                    q8d: seq<real>, scratch: array<real>, at: nat)
    requires quad < nq && nb <= |q8d| && at + nb * 4 <= scratch.Length
    requires Precomputed(f16, weight, d, nq, nb)
    modifies scratch
    ensures scratch[..] == old(scratch[..at]) + TileScales(f16, weight, nb, quad, q8d) + old(scratch[at + nb * 4..])
  {
    hide *;
    ghost var start, s := scratch[..], TileScales(f16, weight, nb, quad, q8d);
    FilledNone(start, at, s);
    for blk := 0 to nb
      invariant Filled(start, scratch[..], at, s, blk * 4)
    {
      var src := QuadScales(f16, weight, d, nq, nb, quad, blk);
      ghost var before := scratch[..];
      ghost var v := FourScales(d, src, q8d[blk], scratch, at + blk * 4);
      assert |v| == 4 && v == s[blk * 4..blk * 4 + 4] by {
        ColumnOfScales(f16, weight, nb, quad, q8d, blk);
      }
      FilledNext(start, before, scratch[..], at, s, blk * 4, v);
    }
    FilledAll(start, scratch[..], at, s);
  }

  /** The hot inner step: four products into four consecutive places. */
  method FourScales(d: seq<real>, src: nat, qd: real, scratch: array<real>, dst: nat) returns (ghost v: seq<real>)
    requires src + 4 <= |d| && dst + 4 <= scratch.Length
    modifies scratch
    ensures v == [Times(d[src], qd), Times(d[src + 1], qd), Times(d[src + 2], qd), Times(d[src + 3], qd)]
    ensures scratch[..] == old(scratch[..dst]) + v + old(scratch[dst + 4..])
  {
    hide Times;
    scratch[dst] := Times(d[src], qd);
    scratch[dst + 1] := Times(d[src + 1], qd);
    scratch[dst + 2] := Times(d[src + 2], qd);
    scratch[dst + 3] := Times(d[src + 3], qd);
    v := [Times(d[src], qd), Times(d[src + 1], qd), Times(d[src + 2], qd), Times(d[src + 3], qd)];
  }

  lemma ColumnOfScales(f16: (Byte, Byte) -> real, weight: Bytes, nb: nat, quad: nat, q8d: seq<real>, blk: nat)
    requires nb <= |q8d| && blk < nb
    ensures TileScales(f16, weight, nb, quad, q8d)[blk * 4..blk * 4 + 4]
            == [Times(ScaleAt(f16, weight, nb, quad, blk, 0), q8d[blk]), Times(ScaleAt(f16, weight, nb, quad, blk, 1), q8d[blk]),
                Times(ScaleAt(f16, weight, nb, quad, blk, 2), q8d[blk]), Times(ScaleAt(f16, weight, nb, quad, blk, 3), q8d[blk])]
  {
    ScaleOfColumn(f16, weight, nb, quad, q8d, blk, 0);
    ScaleOfColumn(f16, weight, nb, quad, q8d, blk, 1);
    ScaleOfColumn(f16, weight, nb, quad, q8d, blk, 2);
    ScaleOfColumn(f16, weight, nb, quad, q8d, blk, 3);
    hide Times, ScaleAt, TileScales;
  }

  /** Where the four precomputed scales of one column of a quad start, and what they are. */
  method QuadScales(f16: (Byte, Byte) -> real, weight: Bytes, d: seq<real>, nq: nat, nb: nat, quad: nat, blk: nat)
    returns (src: nat)
    requires quad < nq && blk < nb && Precomputed(f16, weight, d, nq, nb)
    ensures src + 4 <= |d|
    ensures d[src] == ScaleAt(f16, weight, nb, quad, blk, 0) && d[src + 1] == ScaleAt(f16, weight, nb, quad, blk, 1)
    ensures d[src + 2] == ScaleAt(f16, weight, nb, quad, blk, 2) && d[src + 3] == ScaleAt(f16, weight, nb, quad, blk, 3)
  {
    src := Product(quad, nb) * 4 + blk * 4;
    TileIn(nq, nb, quad, blk, 3);
    assert ScaleMatches(f16, weight, d, nb, quad, blk, 0) && ScaleMatches(f16, weight, d, nb, quad, blk, 1)
        && ScaleMatches(f16, weight, d, nb, quad, blk, 2) && ScaleMatches(f16, weight, d, nb, quad, blk, 3);
    hide Times, ScaleAt;
  }

  /** Row r of a tile, column by column: what the tile kernel reads for that row. */
  function TileRow(packed: Bytes, nb: nat, quad: nat, r: nat): seq<Bytes>
    requires r < 4 && Product(4 * Product(quad + 1, nb), S.Q6K_BLOCK_BYTES) <= |packed|
  {
    seq(nb, blk requires 0 <= blk < nb => (
      TileIn(quad + 1, nb, quad, blk, r);
      BlockIn(packed, 4 * Product(quad + 1, nb), TileBlock(nb, quad, blk, r));
      Block(packed, TileBlock(nb, quad, blk, r))))
  }

  /** A row of the row-major weight, block by block. */
  function RowBlocks(row: Bytes, nb: nat): seq<Bytes>
    requires |row| == Product(nb, S.Q6K_BLOCK_BYTES)
  {
    seq(nb, blk requires 0 <= blk < nb => (BlockIn(row, nb, blk); Block(row, blk)))
  }

  /** The scales of row r of a tile. */
  function RowScales(s: seq<real>, nb: nat, r: nat): seq<real>
    requires r < 4 && |s| == nb * 4
  {
    seq(nb, blk requires 0 <= blk < nb => s[blk * 4 + r])
  }

  lemma BlockOfRow(weight: Bytes, nb: nat, row: nat, blk: nat)
    requires blk < nb && Product(row + 1, Product(nb, S.Q6K_BLOCK_BYTES)) <= |weight|
    ensures Product(Product(row, nb) + blk + 1, S.Q6K_BLOCK_BYTES) <= |weight|
    ensures Product(blk + 1, S.Q6K_BLOCK_BYTES) <= Product(nb, S.Q6K_BLOCK_BYTES)
    ensures Block(S.Row(weight, Product(nb, S.Q6K_BLOCK_BYTES), row), blk) == Block(weight, Product(row, nb) + blk)
  {
    var rowBytes := Product(nb, S.Q6K_BLOCK_BYTES);
    var lo, hi := Product(row, rowBytes), Product(row + 1, rowBytes);
    var from, to := Product(blk, S.Q6K_BLOCK_BYTES), Product(blk + 1, S.Q6K_BLOCK_BYTES);
    MulMono(blk + 1, nb, S.Q6K_BLOCK_BYTES);
    Offsets(row, nb, blk);
    Offsets(row, nb, blk + 1);
    Succ(row, rowBytes);
    assert to <= hi - lo;
    assert lo + from == Product(Product(row, nb) + blk, S.Q6K_BLOCK_BYTES);
    assert lo + to == Product(Product(row, nb) + blk + 1, S.Q6K_BLOCK_BYTES);
    SliceOfSlice(weight, lo, hi, from, to);
  }

  lemma SliceOfSlice(b: Bytes, lo: nat, hi: nat, from: nat, to: nat)
    requires lo <= hi <= |b| && from <= to <= hi - lo
    ensures b[lo..hi][from..to] == b[lo + from..lo + to]
  {
    forall k | 0 <= k < to - from
      ensures b[lo..hi][from..to][k] == b[lo + from..lo + to][k]
    {
      assert b[lo..hi][from + k] == b[lo + from + k];
    }
  }

  /** The tile kernel is handed, for row 4 * quad + r, exactly the blocks and scales the sequential
      q6k_matvec uses for that row. */
  lemma TileIsFourRows(f16: (Byte, Byte) -> real, weight: Bytes, packed: Bytes, nq: nat, nb: nat, quad: nat, r: nat,
                       q8d: seq<real>)
    requires Interleaved(weight, packed, nq, nb) && quad < nq && r < 4 && nb <= |q8d|
    ensures Product(4 * Product(quad + 1, nb), S.Q6K_BLOCK_BYTES) <= |packed|
    ensures Product(quad * 4 + r + 1, Product(nb, S.Q6K_BLOCK_BYTES)) <= |weight|
    ensures var row := S.Row(weight, Product(nb, S.Q6K_BLOCK_BYTES), quad * 4 + r);
            && TileRow(packed, nb, quad, r) == RowBlocks(row, nb)
            && RowScales(TileScales(f16, weight, nb, quad, q8d), nb, r) == S.Scales(f16, row, q8d, nb)
  {
    TileFits(nq, nb, quad, r);
    var row := S.Row(weight, Product(nb, S.Q6K_BLOCK_BYTES), quad * 4 + r);
    var tile, blocks := TileRow(packed, nb, quad, r), RowBlocks(row, nb);
    var scales, rowScales := RowScales(TileScales(f16, weight, nb, quad, q8d), nb, r), S.Scales(f16, row, q8d, nb);
    assert |tile| == |blocks| == |scales| == |rowScales| == nb;
    hide Times, TileRow, RowBlocks, RowScales, TileScales, S.Scales, Interleaved;
    forall blk: nat | blk < nb
      ensures tile[blk] == blocks[blk] && scales[blk] == rowScales[blk]
    {
      TileColumnBlock(weight, packed, nq, nb, quad, r, blk);
      TileColumnScale(f16, weight, nb, quad, r, q8d, blk);
    }
  }

  lemma TileColumnBlock(weight: Bytes, packed: Bytes, nq: nat, nb: nat, quad: nat, r: nat, blk: nat)
    requires Interleaved(weight, packed, nq, nb) && quad < nq && r < 4 && blk < nb
    requires Product(4 * Product(quad + 1, nb), S.Q6K_BLOCK_BYTES) <= |packed|
    requires Product(quad * 4 + r + 1, Product(nb, S.Q6K_BLOCK_BYTES)) <= |weight|
    ensures TileRow(packed, nb, quad, r)[blk] == RowBlocks(S.Row(weight, Product(nb, S.Q6K_BLOCK_BYTES), quad * 4 + r), nb)[blk]
  {
    assert TileMatches(weight, packed, nb, quad, blk, r);
    hide Interleaved;
    BlockOfRow(weight, nb, quad * 4 + r, blk);
    hide S.Row, Block, TileBlock;
  }

  lemma TileColumnScale(f16: (Byte, Byte) -> real, weight: Bytes, nb: nat, quad: nat, r: nat, q8d: seq<real>, blk: nat)
    requires r < 4 && blk < nb <= |q8d| && Product(quad * 4 + r + 1, Product(nb, S.Q6K_BLOCK_BYTES)) <= |weight|
    ensures RowScales(TileScales(f16, weight, nb, quad, q8d), nb, r)[blk]
            == S.Scales(f16, S.Row(weight, Product(nb, S.Q6K_BLOCK_BYTES), quad * 4 + r), q8d, nb)[blk]
  {
    ScaleOfRow(f16, weight, nb, quad, r, blk);
    ScaleOfColumn(f16, weight, nb, quad, q8d, blk, r);
    hide Times, ScaleAt, TileScales, S.BlockScale, S.Row;
  }

  lemma ScaleOfRow(f16: (Byte, Byte) -> real, weight: Bytes, nb: nat, quad: nat, r: nat, blk: nat)
    requires blk < nb && r < 4 && Product(quad * 4 + r + 1, Product(nb, S.Q6K_BLOCK_BYTES)) <= |weight|
    ensures Product(blk + 1, S.Q6K_BLOCK_BYTES) <= Product(nb, S.Q6K_BLOCK_BYTES)
    ensures ScaleAt(f16, weight, nb, quad, blk, r)
            == S.BlockScale(f16, S.Row(weight, Product(nb, S.Q6K_BLOCK_BYTES), quad * 4 + r), blk)
  {
    var row, b := S.Row(weight, Product(nb, S.Q6K_BLOCK_BYTES), quad * 4 + r), SourceBlock(nb, quad, blk, r);
    BlockOfRow(weight, nb, quad * 4 + r, blk);
    assert Block(row, blk)[S.Q6K_D_OFFSET] == Block(weight, b)[S.Q6K_D_OFFSET];
    assert Block(row, blk)[S.Q6K_D_OFFSET + 1] == Block(weight, b)[S.Q6K_D_OFFSET + 1];
  }

  lemma TileFits(nq: nat, nb: nat, quad: nat, r: nat)
    requires quad < nq && r < 4
    ensures Product(4 * Product(quad + 1, nb), S.Q6K_BLOCK_BYTES) <= Product(4 * Product(nq, nb), S.Q6K_BLOCK_BYTES)
    ensures Product(quad * 4 + r + 1, Product(nb, S.Q6K_BLOCK_BYTES)) <= Product(4 * Product(nq, nb), S.Q6K_BLOCK_BYTES)
  {
    MulMono(quad + 1, nq, nb);
    MulMono(4 * Product(quad + 1, nb), 4 * Product(nq, nb), S.Q6K_BLOCK_BYTES);
    MulMono(quad * 4 + r + 1, 4 * nq, Product(nb, S.Q6K_BLOCK_BYTES));
    RowsOfBlocks(nq, nb);
  }

  lemma RowsOfBlocks(nq: nat, nb: nat)
    ensures 4 * nq * (nb * S.Q6K_BLOCK_BYTES) == 4 * (nq * nb) * S.Q6K_BLOCK_BYTES
  {
    Offsets(4 * nq, nb, 0);
    FourTimes(nq, nb);
  }
}
