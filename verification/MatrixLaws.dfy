/** What the functions behind the matrix products compute, in terms of rows, blocks and byte offsets: a weight
    given row by row, the interleaved weight byte by byte, the cells of a batch chunk
    (src/inference/matmul_seq.rs, src/inference/repack.rs, src/inference/matmul_graph_batch.rs). */
module MatrixLaws {
  import opened Arithmetic
  import opened Tokens
  import M = MatmulJobs
  import Q = Repack
  import S = MatmulSeq

  // ---------- a weight given row by row ----------

  ghost predicate Widths(rows: seq<Bytes>, width: nat) {
    forall i :: 0 <= i < |rows| ==> |rows[i]| == width
  }

  lemma {:induction false} ConcatRow(rows: seq<Bytes>, width: nat, i: nat)
    requires Widths(rows, width) && i < |rows|
    ensures Product(i, width) + width == Product(i + 1, width) <= |Concat(rows)|
    ensures Concat(rows)[Product(i, width)..Product(i + 1, width)] == rows[i]
  {
    Succ(i, width);
    if i > 0 {
      ConcatRow(rows[1..], width, i - 1);
      Succ(i - 1, width);
      var tail := Concat(rows[1..]);
      assert Concat(rows) == rows[0] + tail;
      hide Concat;
      assert (rows[0] + tail)[Product(i, width)..Product(i + 1, width)] == tail[Product(i - 1, width)..Product(i, width)];
    }
  }

  lemma RowIs(rows: seq<Bytes>, width: nat, i: nat)
    requires Widths(rows, width) && i < |rows|
    ensures Product(i + 1, width) <= |Concat(rows)| && S.Row(Concat(rows), width, i) == rows[i]
  {
    ConcatRow(rows, width, i);
    hide Concat;
  }

  /** A Q4K product is that of the row: 144 bytes for every 256 columns. */
  lemma Q4kValueOfRows(dot: (Bytes, S.Input) -> real, rows: seq<Bytes>, nCols: nat, input: S.Input, row: nat)
    requires Widths(rows, Product(nCols / 256, 144)) && row < |rows|
    ensures S.Q4kValue(dot, Concat(rows), nCols, input, row) == dot(rows[row], input)
  {
    RowIs(rows, Product(nCols / 256, 144), row);
    hide Concat, S.Row;
  }

  /** A Q6K product is that of the row, 210 bytes for every 256 columns, with the scale of each block, the two
      bytes at 208, times the input's scale of that block. */
  lemma Q6kValueOfRows(f16: (Byte, Byte) -> real, dot: (Bytes, (S.Input, seq<real>)) -> real, rows: seq<Bytes>,
                       nCols: nat, input: S.Input, row: nat, scales: seq<real>)
    requires Widths(rows, Product(nCols / 256, 210)) && row < |rows| && |scales| == nCols / 256 <= |input.d|
    requires forall blk: nat :: blk < |scales| ==>
               Product(blk, 210) + 209 < |rows[row]|
               && scales[blk] == f16(rows[row][Product(blk, 210) + 208], rows[row][Product(blk, 210) + 209]) * input.d[blk]
    ensures S.Q6kValue(f16, dot, Concat(rows), nCols, input, row) == dot(rows[row], (input, scales))
  {
    RowIs(rows, Product(nCols / 256, 210), row);
    ScalesAre(f16, rows[row], input.d, scales);
    hide Concat, S.Row, S.Scales;
  }

  lemma ScalesAre(f16: (Byte, Byte) -> real, row: Bytes, d: seq<real>, scales: seq<real>)
    requires |row| == Product(|scales|, 210) && |scales| <= |d|
    requires forall blk: nat :: blk < |scales| ==>
               Product(blk, 210) + 209 < |row|
               && scales[blk] == f16(row[Product(blk, 210) + 208], row[Product(blk, 210) + 209]) * d[blk]
    ensures S.Scales(f16, row, d, |scales|) == scales
  {
    var s := S.Scales(f16, row, d, |scales|);
    forall blk: nat | blk < |scales|
      ensures s[blk] == scales[blk]
    {
      S.RowIn(|scales|, 210, blk);
      assert scales[blk] == f16(row[Product(blk, 210) + 208], row[Product(blk, 210) + 209]) * d[blk];
    }
  }

  // ---------- the interleaved weight ----------

  lemma BlockByte(b: Bytes, u: nat, j: nat)
    requires Product(u + 1, 210) <= |b| && j < 210
    ensures Product(u, 210) + j < |b| && Q.Block(b, u)[j] == b[Product(u, 210) + j]
  {
    Succ(u, 210);
  }

  /** Byte j of the block of row 4 * quad + r, column blk, moves to the r-th of four blocks of that column of
      the quad. */
  lemma InterleavedByte(src: Bytes, packed: Bytes, nq: nat, nb: nat, quad: nat, blk: nat, r: nat, j: nat)
    requires Q.Interleaved(src, packed, nq, nb) && quad < nq && blk < nb && r < 4 && j < 210
    ensures var from := Product(Product(4 * quad + r, nb) + blk, 210) + j;
            var to := Product(4 * (Product(quad, nb) + blk) + r, 210) + j;
            from < |src| && to < |packed| && packed[to] == src[from]
  {
    assert Q.TileMatches(src, packed, nb, quad, blk, r);
    var from, to := Product(4 * quad + r, nb) + blk, 4 * (Product(quad, nb) + blk) + r;
    assert from == Q.SourceBlock(nb, quad, blk, r) && to == Q.TileBlock(nb, quad, blk, r);
    BlockByte(src, from, j);
    BlockByte(packed, to, j);
    hide Q.Block, Q.Interleaved;
  }

  /** The f16 at byte 208 of the block of row 4 * quad + r, column blk. */
  lemma ScaleIs(f16: (Byte, Byte) -> real, src: Bytes, nq: nat, nb: nat, quad: nat, blk: nat, r: nat)
    requires Product(4 * Product(nq, nb), 210) <= |src| && quad < nq && blk < nb && r < 4
    ensures var p := Product(Product(4 * quad + r, nb) + blk, 210);
            p + 209 < |src| && Q.ScaleAt(f16, src, nb, quad, blk, r) == f16(src[p + 208], src[p + 209])
  {
    Q.TileIn(nq, nb, quad, blk, r);
    MulMono(Q.SourceBlock(nb, quad, blk, r) + 1, 4 * Product(nq, nb), 210);
    Succ(Q.SourceBlock(nb, quad, blk, r), 210);
  }

  /** The precomputed array has it in the interleaved order. */
  lemma PrecomputedIs(f16: (Byte, Byte) -> real, src: Bytes, d: seq<real>, nq: nat, nb: nat, quad: nat, blk: nat, r: nat)
    requires Q.Precomputed(f16, src, d, nq, nb) && quad < nq && blk < nb && r < 4
    ensures var p, k := Product(Product(4 * quad + r, nb) + blk, 210), 4 * (Product(quad, nb) + blk) + r;
            p + 209 < |src| && k < |d| && d[k] == f16(src[p + 208], src[p + 209])
  {
    assert Q.ScaleMatches(f16, src, d, nb, quad, blk, r);
    ScaleIs(f16, src, nq, nb, quad, blk, r);
    hide Q.Precomputed, Q.ScaleAt;
  }

  /** And a tile's scale of row r, column blk, is it times the input's scale of the column. */
  lemma TileScaleIs(f16: (Byte, Byte) -> real, src: Bytes, nq: nat, nb: nat, quad: nat, q8d: seq<real>, blk: nat, r: nat)
    requires Product(4 * Product(nq, nb), 210) <= |src| && quad < nq && blk < nb <= |q8d| && r < 4
    ensures var p := Product(Product(4 * quad + r, nb) + blk, 210);
            p + 209 < |src|
            && Q.TileScales(f16, src, nb, quad, q8d)[4 * blk + r] == f16(src[p + 208], src[p + 209]) * q8d[blk]
  {
    Q.ScaleOfColumn(f16, src, nb, quad, q8d, blk, r);
    ScaleIs(f16, src, nq, nb, quad, blk, r);
    hide Q.ScaleAt, Q.TileScales;
  }

  /** What the tile kernel reads for row r: column by column, the r-th of the column's four blocks. */
  lemma TileRowByte(packed: Bytes, nb: nat, quad: nat, r: nat, blk: nat, j: nat)
    requires r < 4 && blk < nb && j < 210 && Product(4 * Product(quad + 1, nb), 210) <= |packed|
    ensures var row, k := Q.TileRow(packed, nb, quad, r), Product(4 * (Product(quad, nb) + blk) + r, 210) + j;
            |row| == nb && |row[blk]| == 210 && k < |packed| && row[blk][j] == packed[k]
  {
    Q.TileIn(quad + 1, nb, quad, blk, r);
    Q.BlockIn(packed, 4 * Product(quad + 1, nb), Q.TileBlock(nb, quad, blk, r));
    BlockByte(packed, Q.TileBlock(nb, quad, blk, r), j);
    hide Q.Block;
  }

  /** A row's blocks, end to end, are the row. */
  lemma RowBlocksByte(row: Bytes, nb: nat, blk: nat, j: nat)
    requires |row| == Product(nb, 210) && blk < nb && j < 210
    ensures var blocks := Q.RowBlocks(row, nb);
            |blocks| == nb && |blocks[blk]| == 210 && Product(blk, 210) + j < |row|
            && blocks[blk][j] == row[Product(blk, 210) + j]
  {
    Q.BlockIn(row, nb, blk);
    BlockByte(row, blk, j);
    hide Q.Block;
  }

  lemma {:induction false} ConcatLength(rows: seq<Bytes>, width: nat)
    requires Widths(rows, width)
    ensures |Concat(rows)| == Product(|rows|, width)
  {
    if rows != [] {
      ConcatLength(rows[1..], width);
      Succ(|rows| - 1, width);
    }
  }

  /** Joined again, a row's blocks are the row. */
  lemma RowBlocksJoin(row: Bytes, nb: nat)
    requires |row| == Product(nb, 210)
    ensures Concat(Q.RowBlocks(row, nb)) == row
  {
    var blocks := Q.RowBlocks(row, nb);
    assert Widths(blocks, 210);
    ConcatLength(blocks, 210);
    hide Concat, Q.RowBlocks, Q.Block, Widths;
    forall k | 0 <= k < |row|
      ensures Concat(blocks)[k] == row[k]
    {
      var blk, j := k / 210, k % 210;
      Quotient(k, nb, 210);
      ConcatRow(blocks, 210, blk);
      RowBlocksByte(row, nb, blk, j);
      assert Concat(blocks)[Product(blk, 210)..Product(blk + 1, 210)][j] == Concat(blocks)[k];
    }
  }

  // ---------- the chunks of a batch ----------

  /** matvec_batch_ws: chunk q writes, for each of its up to 16 tokens, the four rows of its quad. */
  lemma BatchChunk(nRows: nat, nTokens: nat, stride: nat, q: nat, k: nat)
    requires nRows <= stride && 4 <= nRows
    ensures var chunks := M.Chunks(M.BatchQuads(nRows, nTokens, stride));
            var quads, blocks := nRows / 4, (nTokens + 15) / 16;
            && |chunks| == Product(quads, blocks)
            && (q < |chunks| ==>
                  var quad, first := q % quads, 16 * Quot(q, quads);
                  && |chunks[q]| == 4 * (Min(first + 16, nTokens) - first)
                  && (k < |chunks[q]| ==> chunks[q][k] == Product(first + k / 4, stride) + 4 * quad + k % 4))
  {
    var g := M.BatchQuads(nRows, nTokens, stride);
    assert M.Tiles(g) == nRows / 4;
    if q < |M.Chunks(g)| {
      Quotient(q, M.TokenChunks(g), nRows / 4);
      assert M.Chunks(g)[q] == M.Chunk(g, q);
    }
  }

  /** Thread 0 writes the rows after the last quad, row by row, for every token. */
  lemma BatchTail(nRows: nat, nTokens: nat, stride: nat, k: nat)
    requires nRows <= stride && 0 < nTokens
    ensures var tail := M.Tail(M.BatchQuads(nRows, nTokens, stride));
            && |tail| == Product(nRows % 4, nTokens)
            && (k < |tail| ==> tail[k] == Product(k % nTokens, stride) + nRows / 4 * 4 + Quot(k, nTokens))
  {
    var g := M.BatchQuads(nRows, nTokens, stride);
    assert M.ChunkRows(g) == nRows / 4 * 4;
  }
}
