/** The kernels of the work-stealing matrix products (src/inference/matmul_graph.rs,
    src/inference/matmul_graph_batch.rs): what each chunk computes, from its own weight, scale and token
    pointers, and that these address the very rows and tokens whose outputs the chunk writes. */
module StealingKernels {
  import opened Arithmetic
  import opened Tokens
  import W = WorkStealing
  import M = MatmulJobs
  import S = MatmulSeq
  import Q = Repack

  // ---------- pointers ----------

  /** The n bytes from a pointer into the weight. */
  function Read(weight: Bytes, at: nat, n: nat): Bytes {
    if at + n <= |weight| then weight[at..at + n] else []
  }

  /** `weight.add(row * row_bytes)` is the start of the row. */
  lemma ReadRow(weight: Bytes, rowBytes: nat, row: nat)
    requires Product(row + 1, rowBytes) <= |weight|
    ensures Read(weight, Product(row, rowBytes), rowBytes) == S.Row(weight, rowBytes, row)
  {
    Succ(row, rowBytes);
  }

  /** q4k_dot_q8k on a row pointer. */
  function Q4kProduct(dot: (Bytes, S.Input) -> real, weight: Bytes, nCols: nat, input: S.Input, at: nat): real {
    dot(Read(weight, at, Product(nCols / S.BLOCK_SIZE, S.Q4K_BLOCK_BYTES)), input)
  }

  lemma Q4kProductOfRow(dot: (Bytes, S.Input) -> real, weight: Bytes, nCols: nat, input: S.Input, nRows: nat, row: nat)
    requires row < nRows && Product(nRows, Product(nCols / S.BLOCK_SIZE, S.Q4K_BLOCK_BYTES)) <= |weight|
    ensures Q4kProduct(dot, weight, nCols, input, Product(row, Product(nCols / S.BLOCK_SIZE, S.Q4K_BLOCK_BYTES)))
            == S.Q4kValue(dot, weight, nCols, input, row)
  {
    var rowBytes := Product(nCols / S.BLOCK_SIZE, S.Q4K_BLOCK_BYTES);
    S.RowIn(nRows, rowBytes, row);
    ReadRow(weight, rowBytes, row);
  }

  /** The scales a thread extracts into its own scratch for the row at a pointer. */
  function ScalesAt(f16: (Byte, Byte) -> real, weight: Bytes, at: nat, d: seq<real>, nBlocks: nat): seq<real> {
    if at + Product(nBlocks, S.Q6K_BLOCK_BYTES) <= |weight| && nBlocks <= |d| then
      seq(nBlocks, blk requires 0 <= blk < nBlocks =>
        (S.RowIn(nBlocks, S.Q6K_BLOCK_BYTES, blk);
         Succ(blk, S.Q6K_BLOCK_BYTES);
         var p := at + Product(blk, S.Q6K_BLOCK_BYTES) + S.Q6K_D_OFFSET;
         Times(f16(weight[p], weight[p + 1]), d[blk])))
    else []
  }

  /** q6k_dot_q8k on a row pointer, with the scales just extracted from that pointer. */
  function Q6kProduct(f16: (Byte, Byte) -> real, dot: (Bytes, (S.Input, seq<real>)) -> real, weight: Bytes, nCols: nat,
                      input: S.Input, at: nat): real {
    var nBlocks := nCols / S.BLOCK_SIZE;
    dot(Read(weight, at, Product(nBlocks, S.Q6K_BLOCK_BYTES)), (input, ScalesAt(f16, weight, at, input.d, nBlocks)))
  }

  lemma ScalesOfRow(f16: (Byte, Byte) -> real, weight: Bytes, nBlocks: nat, d: seq<real>, row: nat)
    requires Product(row + 1, Product(nBlocks, S.Q6K_BLOCK_BYTES)) <= |weight| && nBlocks <= |d|
    ensures var rowBytes := Product(nBlocks, S.Q6K_BLOCK_BYTES);
            ScalesAt(f16, weight, Product(row, rowBytes), d, nBlocks) == S.Scales(f16, S.Row(weight, rowBytes, row), d, nBlocks)
  {
    var rowBytes := Product(nBlocks, S.Q6K_BLOCK_BYTES);
    var at, bytes := Product(row, rowBytes), S.Row(weight, rowBytes, row);
    Succ(row, rowBytes);
    hide Times;
    forall blk: nat | blk < nBlocks
      ensures ScalesAt(f16, weight, at, d, nBlocks)[blk] == S.Scales(f16, bytes, d, nBlocks)[blk]
    {
      S.RowIn(nBlocks, S.Q6K_BLOCK_BYTES, blk);
      Succ(blk, S.Q6K_BLOCK_BYTES);
      var p := Product(blk, S.Q6K_BLOCK_BYTES) + S.Q6K_D_OFFSET;
      assert bytes[p] == weight[at + p] && bytes[p + 1] == weight[at + p + 1];
    }
  }

  lemma Q6kProductOfRow(f16: (Byte, Byte) -> real, dot: (Bytes, (S.Input, seq<real>)) -> real, weight: Bytes, nCols: nat,
                        input: S.Input, nRows: nat, row: nat)
    requires row < nRows && Product(nRows, Product(nCols / S.BLOCK_SIZE, S.Q6K_BLOCK_BYTES)) <= |weight|
    requires nCols / S.BLOCK_SIZE <= |input.d|
    ensures Q6kProduct(f16, dot, weight, nCols, input, Product(row, Product(nCols / S.BLOCK_SIZE, S.Q6K_BLOCK_BYTES)))
            == S.Q6kValue(f16, dot, weight, nCols, input, row)
  {
    var nBlocks := nCols / S.BLOCK_SIZE;
    var rowBytes := Product(nBlocks, S.Q6K_BLOCK_BYTES);
    S.RowIn(nRows, rowBytes, row);
    ReadRow(weight, rowBytes, row);
    ScalesOfRow(f16, weight, nBlocks, input.d, row);
    hide ScalesAt, S.Scales, S.Row, Read;
  }

  // ---------- one vector ----------

  /** q4k_matvec_ws and q6k_matvec_ws: chunk q multiplies the rows at (4q + k) * row_bytes, k < 4, and
      thread 0 the rows after the last quad. `product` is the kernel on a row pointer. */
  function VectorJob(nRows: nat, rowBytes: nat, product: nat -> real): W.Job {
    W.Job(M.Chunks(M.Quads(nRows)), M.Tail(M.Quads(nRows)),
          (q: nat, k: nat) => product(Product(4 * q + k, rowBytes)),
          (i: nat) => product(Product(nRows / 4 * 4 + i, rowBytes)))
  }

  /** Each chunk multiplies the very rows whose outputs it writes. */
  lemma VectorComputes(nRows: nat, rowBytes: nat, product: nat -> real)
    ensures M.Computes(M.Quads(nRows), VectorJob(nRows, rowBytes, product),
                       (row: nat, t: nat) => product(Product(row, rowBytes)))
  {
    var g := M.Quads(nRows);
    assert M.TokenChunks(g) == 1 && M.Tiles(g) == nRows / 4;
    if 0 < M.Tiles(g) {
      forall q: nat, k: nat | q < M.TotalChunks(g) && k < M.CellCount(g, q)
        ensures M.CellRow(g, q, k) == 4 * q + k
      {
        DivMod(0, q, nRows / 4);
        assert M.CellCount(g, q) == 4;
      }
    }
  }

  // ---------- gate and up ----------

  /** q4k_matvec_dual_ws: the four gate rows of a quad, then its four up rows; the remainder row by row. */
  function DualJob(nRows: nat, apart: nat, rowBytes: nat, gate: nat -> real, up: nat -> real): W.Job
    requires nRows <= apart
  {
    W.Job(M.Chunks(M.DualQuads(nRows, apart)), M.Tail(M.DualQuads(nRows, apart)),
          (q: nat, k: nat) => if k < 4 then gate(Product(4 * q + k, rowBytes)) else up(Product(4 * q + (k - 4), rowBytes)),
          (k: nat) => if k % 2 == 0 then gate(Product(nRows / 4 * 4 + k / 2, rowBytes))
                      else up(Product(nRows / 4 * 4 + k / 2, rowBytes)))
  }

  lemma DualComputes(nRows: nat, apart: nat, rowBytes: nat, gate: nat -> real, up: nat -> real)
    requires nRows <= apart
    ensures M.Computes(M.DualQuads(nRows, apart), DualJob(nRows, apart, rowBytes, gate, up),
                       (row: nat, t: nat) => if t == 0 then gate(Product(row, rowBytes)) else up(Product(row, rowBytes)))
  {
    var g := M.DualQuads(nRows, apart);
    assert M.TokenChunks(g) == 1 && M.Tiles(g) == nRows / 4;
    if 0 < M.Tiles(g) {
      forall q: nat, k: nat | q < M.TotalChunks(g) && k < M.CellCount(g, q)
        ensures M.CellRow(g, q, k) == 4 * q + k % 4 && M.CellToken(g, q, k) == k / 4 && k < 8
      {
        DivMod(0, q, nRows / 4);
        assert M.CellCount(g, q) == 8;
      }
    }
  }

  // ---------- batches ----------

  /** Between two tokens' quantized values lie twelve bytes of padding. */
  const QS_PAD: nat := 12

  /** The quantized tokens of a batch, end to end. */
  datatype Batch = Batch(qs: seq<int>, d: seq<real>, bsums: seq<int>)

  function Part<T>(s: seq<T>, at: nat, n: nat): seq<T> {
    if at + n <= |s| then s[at..at + n] else []
  }

  /** What the kernels read through token t's three pointers. */
  function TokenInput(b: Batch, nCols: nat, t: nat): S.Input {
    var nb := nCols / S.BLOCK_SIZE;
    S.Input(Part(b.qs, Product(t, nCols + QS_PAD), nCols), Part(b.d, Product(t, nb), nb),
            Part(b.bsums, Product(t, nb) * 16, nb * 16))
  }

  /** x is the t-th token of a batch: its values from t * (n_cols + 12) on, its block scales and sums one token's
      after the other's. */
  ghost predicate IsToken(b: Batch, nCols: nat, t: nat, x: S.Input) {
    var nb := nCols / 256;
    && |x.qs| == nCols && |x.d| == nb && |x.bsums| == nb * 16
    && Product(t, nCols + 12) + nCols <= |b.qs|
    && Product(t, nb) + nb <= |b.d| && Product(t, nb) * 16 + nb * 16 <= |b.bsums|
    && (forall j: nat :: j < nCols ==> x.qs[j] == b.qs[Product(t, nCols + 12) + j])
    && (forall j: nat :: j < nb ==> x.d[j] == b.d[Product(t, nb) + j])
    && (forall j: nat :: j < nb * 16 ==> x.bsums[j] == b.bsums[Product(t, nb) * 16 + j])
  }

  /** The batch holds these tokens. */
  ghost predicate LaidOut(b: Batch, nCols: nat, xs: seq<S.Input>) {
    forall t: nat :: t < |xs| ==> IsToken(b, nCols, t, xs[t])
  }

  /** The tokens' values with their padding, and their scales and sums, end to end. */
  function Layout(nCols: nat, xs: seq<S.Input>): Batch {
    if xs == [] then Batch([], [], [])
    else
      var b, x := Layout(nCols, xs[..|xs| - 1]), xs[|xs| - 1];
      Batch(b.qs + x.qs + seq(12, _ => 0), b.d + x.d, b.bsums + x.bsums)
  }

  /** That is a batch that holds them, for any tokens of n_cols columns. */
  lemma {:induction false} LayoutHolds(nCols: nat, xs: seq<S.Input>)
    requires forall t :: 0 <= t < |xs| ==>
               |xs[t].qs| == nCols && |xs[t].d| == nCols / 256 && |xs[t].bsums| == nCols / 256 * 16
    ensures var b, nb := Layout(nCols, xs), nCols / 256;
            && LaidOut(b, nCols, xs)
            && |b.qs| == Product(|xs|, nCols + 12) && |b.d| == Product(|xs|, nb) && |b.bsums| == Product(|xs|, nb) * 16
  {
    if xs != [] {
      var n, nb := |xs| - 1, nCols / 256;
      LayoutHolds(nCols, xs[..n]);
      var b, b' := Layout(nCols, xs[..n]), Layout(nCols, xs);
      Succ(n, nCols + 12);
      Succ(n, nb);
      forall t: nat | t < |xs|
        ensures IsToken(b', nCols, t, xs[t])
      {
        if t < n {
          assert IsToken(b, nCols, t, xs[..n][t]);
        }
      }
    }
  }

  /** The kernels read, for each token, that token. */
  lemma TokenInputIs(b: Batch, nCols: nat, xs: seq<S.Input>, t: nat)
    requires LaidOut(b, nCols, xs) && t < |xs|
    ensures TokenInput(b, nCols, t) == xs[t] && |xs[t].d| == nCols / 256
  {
    assert IsToken(b, nCols, t, xs[t]);
    hide LaidOut;
    var nb := nCols / 256;
    SliceIs(xs[t].qs, b.qs, Product(t, nCols + 12));
    SliceIs(xs[t].d, b.d, Product(t, nb));
    SliceIs(xs[t].bsums, b.bsums, Product(t, nb) * 16);
  }

  lemma SliceIs<T>(x: seq<T>, s: seq<T>, at: nat)
    requires at + |x| <= |s| && forall j: nat :: j < |x| ==> x[j] == s[at + j]
    ensures s[at..at + |x|] == x
  {
  }

  /** matvec_batch_ws: chunk q takes quad q % full_quads and the q / full_quads-th block of tokens. */
  function BatchJob(nRows: nat, nTokens: nat, stride: nat, rowBytes: nat, product: (nat, nat) -> real): W.Job
    requires nRows <= stride
  {
    W.Job(M.Chunks(M.BatchQuads(nRows, nTokens, stride)), M.Tail(M.BatchQuads(nRows, nTokens, stride)),
          (q: nat, k: nat) => if nRows < 4 then 0.0 else
             var baseRow, start := q % (nRows / 4) * 4, Quot(q, nRows / 4) * M.TOKENS_PER_CHUNK;
             product(Product(baseRow + k % 4, rowBytes), start + k / 4),
          (k: nat) => if nTokens == 0 then 0.0 else
             product(Product(nRows / 4 * 4 + Quot(k, nTokens), rowBytes), k % nTokens))
  }

  lemma BatchComputes(nRows: nat, nTokens: nat, stride: nat, rowBytes: nat, product: (nat, nat) -> real)
    requires nRows <= stride
    ensures M.Computes(M.BatchQuads(nRows, nTokens, stride), BatchJob(nRows, nTokens, stride, rowBytes, product),
                       (row: nat, t: nat) => product(Product(row, rowBytes), t))
  {
    var g := M.BatchQuads(nRows, nTokens, stride);
    assert M.Tiles(g) == nRows / 4;
  }

  // ---------- the repacked Q6K weight ----------

  /** A product over a row's blocks. */
  type BlockDot = (seq<Bytes>, (S.Input, seq<real>)) -> real

  /** Row r of q6k_dot_q8k_4row_repacked on a tile, with the tile's scales (which both batch kernels put in
      the thread's scratch, converted on the fly or precomputed). */
  function TileProduct(f16: (Byte, Byte) -> real, blockDot: BlockDot, weight: Bytes, packed: Bytes, nb: nat, quad: nat,
                       r: nat, input: S.Input): real {
    if r < 4 && Product(4 * Product(quad + 1, nb), S.Q6K_BLOCK_BYTES) <= |packed| && nb <= |input.d| then
      blockDot(Q.TileRow(packed, nb, quad, r), (input, Q.RowScales(Q.TileScales(f16, weight, nb, quad, input.d), nb, r)))
    else 0.0
  }

  /** The row kernel and the tile kernel multiply the same blocks alike. */
  ghost predicate SameKernel(dot: (Bytes, (S.Input, seq<real>)) -> real, blockDot: BlockDot, nb: nat) {
    forall row: Bytes, x :: |row| == Product(nb, S.Q6K_BLOCK_BYTES) ==> dot(row, x) == blockDot(Q.RowBlocks(row, nb), x)
  }

  lemma TileProductOfRow(f16: (Byte, Byte) -> real, dot: (Bytes, (S.Input, seq<real>)) -> real, blockDot: BlockDot,
                         weight: Bytes, packed: Bytes, nCols: nat, nq: nat, quad: nat, r: nat, input: S.Input)
    requires SameKernel(dot, blockDot, nCols / S.BLOCK_SIZE) && Q.Interleaved(weight, packed, nq, nCols / S.BLOCK_SIZE)
    requires quad < nq && r < 4 && nCols / S.BLOCK_SIZE <= |input.d|
    ensures TileProduct(f16, blockDot, weight, packed, nCols / S.BLOCK_SIZE, quad, r, input)
            == S.Q6kValue(f16, dot, weight, nCols, input, quad * 4 + r)
  {
    var nb := nCols / S.BLOCK_SIZE;
    Q.TileIsFourRows(f16, weight, packed, nq, nb, quad, r, input.d);
    var row := S.Row(weight, Product(nb, S.Q6K_BLOCK_BYTES), quad * 4 + r);
    assert dot(row, (input, S.Scales(f16, row, input.d, nb))) == blockDot(Q.RowBlocks(row, nb), (input, S.Scales(f16, row, input.d, nb)));
    hide Q.Interleaved, Q.TileRow, Q.RowBlocks, Q.RowScales, Q.TileScales, S.Scales, S.Row;
  }

  /** q6k_repacked_batch_ws and q6k_repacked_batch_ws_pre_d: no remainder. */
  function TileJob(f16: (Byte, Byte) -> real, blockDot: BlockDot, weight: Bytes, packed: Bytes, b: Batch,
                   nRows: nat, nCols: nat, nTokens: nat, stride: nat): W.Job
    requires nRows <= stride
  {
    W.Job(M.Chunks(M.BatchQuadsRepacked(nRows, nTokens, stride)), [],
          (q: nat, k: nat) => if nRows < 4 then 0.0 else
             var quad, start := q % (nRows / 4), Quot(q, nRows / 4) * M.TOKENS_PER_CHUNK;
             TileProduct(f16, blockDot, weight, packed, nCols / S.BLOCK_SIZE, quad, k % 4, TokenInput(b, nCols, start + k / 4)),
          (k: nat) => 0.0)
  }

  /** Each tile multiplies the rows whose outputs it writes, for each of its tokens, by that token. */
  lemma TileComputes(f16: (Byte, Byte) -> real, dot: (Bytes, (S.Input, seq<real>)) -> real, blockDot: BlockDot,
                     weight: Bytes, packed: Bytes, b: Batch, xs: seq<S.Input>, nRows: nat, nCols: nat, stride: nat)
    requires nRows <= stride && SameKernel(dot, blockDot, nCols / S.BLOCK_SIZE) && LaidOut(b, nCols, xs)
    requires Q.Interleaved(weight, packed, nRows / 4, nCols / S.BLOCK_SIZE)
    ensures M.Computes(M.BatchQuadsRepacked(nRows, |xs|, stride),
                       TileJob(f16, blockDot, weight, packed, b, nRows, nCols, |xs|, stride),
                       (row: nat, t: nat) => if t < |xs| then S.Q6kValue(f16, dot, weight, nCols, xs[t], row) else 0.0)
  {
    var g := M.BatchQuadsRepacked(nRows, |xs|, stride);
    var job := TileJob(f16, blockDot, weight, packed, b, nRows, nCols, |xs|, stride);
    assert M.Tiles(g) == nRows / 4;
    hide TileProduct, S.Q6kValue, TokenInput, SameKernel, Q.Interleaved, LaidOut;
    if 0 < M.Tiles(g) {
      forall q: nat, k: nat | q < M.TotalChunks(g) && k < M.CellCount(g, q)
        ensures M.CellToken(g, q, k) < |xs|
        ensures job.chunkVal(q, k)
                == S.Q6kValue(f16, dot, weight, nCols, xs[M.CellToken(g, q, k)], M.CellRow(g, q, k))
      {
        M.CellIn(g, q, k);
        TileCell(f16, dot, blockDot, weight, packed, nCols, nRows / 4, q % (nRows / 4), k % 4, b, xs, M.CellToken(g, q, k));
      }
    }
  }

  lemma TileCell(f16: (Byte, Byte) -> real, dot: (Bytes, (S.Input, seq<real>)) -> real, blockDot: BlockDot,
                 weight: Bytes, packed: Bytes, nCols: nat, nq: nat, quad: nat, r: nat, b: Batch, xs: seq<S.Input>, t: nat)
    requires SameKernel(dot, blockDot, nCols / S.BLOCK_SIZE) && Q.Interleaved(weight, packed, nq, nCols / S.BLOCK_SIZE)
    requires quad < nq && r < 4 && LaidOut(b, nCols, xs) && t < |xs|
    ensures TileProduct(f16, blockDot, weight, packed, nCols / S.BLOCK_SIZE, quad, r, TokenInput(b, nCols, t))
            == S.Q6kValue(f16, dot, weight, nCols, xs[t], quad * 4 + r)
  {
    hide TileProduct, S.Q6kValue, TokenInput, SameKernel, Q.Interleaved, LaidOut;
    TokenInputIs(b, nCols, xs, t);
    TileProductOfRow(f16, dot, blockDot, weight, packed, nCols, nq, quad, r, xs[t]);
  }
}
