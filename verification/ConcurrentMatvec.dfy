/** The work-stealing matrix products (src/inference/matmul_graph.rs, src/inference/matmul_graph_batch.rs)
    against the single-threaded ones (src/inference/matmul_seq.rs): after the closing wait of a round, on
    every interleaving of any number of threads, the output is what the single-threaded kernel computes. */
module ConcurrentMatvec {
  import opened Arithmetic
  import opened StealingKernels
  import opened Tokens
  import M = MatmulJobs
  import Q = Repack
  import R = StealingRuns
  import S = MatmulSeq

  /** After the closing wait of a round that ran q4k_matvec_ws, on every interleaving of any number of
      threads, the output holds for every row what q4k_matvec leaves there. */
  lemma Q4kIsSequential(m: M.Moment, dot: (Bytes, S.Input) -> real, weight: Bytes, input: S.Input, nRows: nat, nCols: nat,
                        before: seq<real>, after: seq<real>, row: nat)
    requires m.Valid() && row < nRows && m.grids[m.r] == M.Quads(nRows)
    requires Product(nRows, Product(nCols / S.BLOCK_SIZE, S.Q4K_BLOCK_BYTES)) <= |weight|
    requires m.jobs[m.r] == VectorJob(nRows, Product(nCols / S.BLOCK_SIZE, S.Q4K_BLOCK_BYTES),
                                      (at: nat) => Q4kProduct(dot, weight, nCols, input, at))
    requires S.MatvecResult(before, after, nRows, (row: nat) => S.Q4kValue(dot, weight, nCols, input, row))
    ensures row in m.run[m.k].out && m.run[m.k].out[row] == after[row]
  {
    var rowBytes := Product(nCols / S.BLOCK_SIZE, S.Q4K_BLOCK_BYTES);
    var product := (at: nat) => Q4kProduct(dot, weight, nCols, input, at);
    VectorComputes(nRows, rowBytes, product);
    Q4kProductOfRow(dot, weight, nCols, input, nRows, row);
    hide M.Moment.Valid, Q4kProduct, S.Q4kValue, M.Computes, VectorJob;
    assert m.r < |m.grids| by { InRange(m); }
    M.ConcurrentMatmul(m, (row: nat, t: nat) => product(Product(row, rowBytes)), row, 0);
    assert M.Address(m.grids[m.r], row, 0) == row;
  }

  /** The same for q6k_matvec_ws and q6k_matvec. */
  lemma Q6kIsSequential(m: M.Moment, f16: (Byte, Byte) -> real, dot: (Bytes, (S.Input, seq<real>)) -> real, weight: Bytes,
                        input: S.Input, nRows: nat, nCols: nat, before: seq<real>, after: seq<real>, row: nat)
    requires m.Valid() && row < nRows && m.grids[m.r] == M.Quads(nRows)
    requires Product(nRows, Product(nCols / S.BLOCK_SIZE, S.Q6K_BLOCK_BYTES)) <= |weight|
    requires nCols / S.BLOCK_SIZE <= |input.d|
    requires m.jobs[m.r] == VectorJob(nRows, Product(nCols / S.BLOCK_SIZE, S.Q6K_BLOCK_BYTES),
                                      (at: nat) => Q6kProduct(f16, dot, weight, nCols, input, at))
    requires S.MatvecResult(before, after, nRows, (row: nat) => S.Q6kValue(f16, dot, weight, nCols, input, row))
    ensures row in m.run[m.k].out && m.run[m.k].out[row] == after[row]
  {
    var rowBytes := Product(nCols / S.BLOCK_SIZE, S.Q6K_BLOCK_BYTES);
    var product := (at: nat) => Q6kProduct(f16, dot, weight, nCols, input, at);
    VectorComputes(nRows, rowBytes, product);
    Q6kProductOfRow(f16, dot, weight, nCols, input, nRows, row);
    hide M.Moment.Valid, Q6kProduct, S.Q6kValue, M.Computes, VectorJob;
    assert m.r < |m.grids| by { InRange(m); }
    M.ConcurrentMatmul(m, (row: nat, t: nat) => product(Product(row, rowBytes)), row, 0);
    assert M.Address(m.grids[m.r], row, 0) == row;
  }

  lemma InRange(m: M.Moment)
    requires m.Valid()
    ensures m.r < |m.grids| == |m.jobs| && m.k < |m.run|
  {
    hide R.IsRun;
  }

  /** After the closing wait of a round that ran q4k_matvec_dual_ws, gate_out and up_out (which lies `apart`
      elements further) hold the two matrices' products with the one input. */
  lemma DualIsSequential(m: M.Moment, dot: (Bytes, S.Input) -> real, gate: Bytes, up: Bytes, input: S.Input,
                         nRows: nat, nCols: nat, apart: nat, row: nat)
    requires m.Valid() && row < nRows <= apart && m.grids[m.r] == M.DualQuads(nRows, apart)
    requires Product(nRows, Product(nCols / S.BLOCK_SIZE, S.Q4K_BLOCK_BYTES)) <= |gate|
    requires Product(nRows, Product(nCols / S.BLOCK_SIZE, S.Q4K_BLOCK_BYTES)) <= |up|
    requires m.jobs[m.r] == DualJob(nRows, apart, Product(nCols / S.BLOCK_SIZE, S.Q4K_BLOCK_BYTES),
                                    (at: nat) => Q4kProduct(dot, gate, nCols, input, at),
                                    (at: nat) => Q4kProduct(dot, up, nCols, input, at))
    ensures var out := m.run[m.k].out;
            && row in out && out[row] == S.Q4kValue(dot, gate, nCols, input, row)
            && apart + row in out && out[apart + row] == S.Q4kValue(dot, up, nCols, input, row)
  {
    var rowBytes := Product(nCols / S.BLOCK_SIZE, S.Q4K_BLOCK_BYTES);
    var gateAt, upAt := (at: nat) => Q4kProduct(dot, gate, nCols, input, at), (at: nat) => Q4kProduct(dot, up, nCols, input, at);
    var val := (row: nat, t: nat) => if t == 0 then gateAt(Product(row, rowBytes)) else upAt(Product(row, rowBytes));
    DualComputes(nRows, apart, rowBytes, gateAt, upAt);
    Q4kProductOfRow(dot, gate, nCols, input, nRows, row);
    Q4kProductOfRow(dot, up, nCols, input, nRows, row);
    hide M.Moment.Valid, Q4kProduct, S.Q4kValue, M.Computes, DualJob;
    assert m.r < |m.grids| by { InRange(m); }
    M.ConcurrentMatmul(m, val, row, 0);
    M.ConcurrentMatmul(m, val, row, 1);
    assert M.Address(m.grids[m.r], row, 0) == row && M.Address(m.grids[m.r], row, 1) == apart + row;
  }

  /** After the closing wait of a round that ran matvec_batch_ws on a Q4K weight, the output column of every
      token of the batch holds what the single-threaded kernel computes for that token. */
  lemma BatchQ4kIsSequential(m: M.Moment, dot: (Bytes, S.Input) -> real, weight: Bytes, b: Batch, xs: seq<S.Input>,
                             nRows: nat, nCols: nat, stride: nat, row: nat, t: nat)
    requires m.Valid() && row < nRows <= stride && t < |xs| && m.grids[m.r] == M.BatchQuads(nRows, |xs|, stride)
    requires Product(nRows, Product(nCols / S.BLOCK_SIZE, S.Q4K_BLOCK_BYTES)) <= |weight| && LaidOut(b, nCols, xs)
    requires m.jobs[m.r] == BatchJob(nRows, |xs|, stride, Product(nCols / S.BLOCK_SIZE, S.Q4K_BLOCK_BYTES),
                                     (at: nat, u: nat) => Q4kProduct(dot, weight, nCols, TokenInput(b, nCols, u), at))
    ensures var out, a := m.run[m.k].out, Product(t, stride) + row;
            a in out && out[a] == S.Q4kValue(dot, weight, nCols, xs[t], row)
  {
    var rowBytes := Product(nCols / S.BLOCK_SIZE, S.Q4K_BLOCK_BYTES);
    var product := (at: nat, u: nat) => Q4kProduct(dot, weight, nCols, TokenInput(b, nCols, u), at);
    BatchComputes(nRows, |xs|, stride, rowBytes, product);
    TokenInputIs(b, nCols, xs, t);
    Q4kProductOfRow(dot, weight, nCols, xs[t], nRows, row);
    hide M.Moment.Valid, Q4kProduct, S.Q4kValue, M.Computes, BatchJob, TokenInput, LaidOut;
    assert m.r < |m.grids| by { InRange(m); }
    M.ConcurrentMatmul(m, (row: nat, u: nat) => product(Product(row, rowBytes), u), row, t);
  }

  /** And on a Q6K weight. */
  lemma BatchQ6kIsSequential(m: M.Moment, f16: (Byte, Byte) -> real, dot: (Bytes, (S.Input, seq<real>)) -> real,
                             weight: Bytes, b: Batch, xs: seq<S.Input>, nRows: nat, nCols: nat, stride: nat, row: nat, t: nat)
    requires m.Valid() && row < nRows <= stride && t < |xs| && m.grids[m.r] == M.BatchQuads(nRows, |xs|, stride)
    requires Product(nRows, Product(nCols / S.BLOCK_SIZE, S.Q6K_BLOCK_BYTES)) <= |weight| && LaidOut(b, nCols, xs)
    requires m.jobs[m.r] == BatchJob(nRows, |xs|, stride, Product(nCols / S.BLOCK_SIZE, S.Q6K_BLOCK_BYTES),
                                     (at: nat, u: nat) => Q6kProduct(f16, dot, weight, nCols, TokenInput(b, nCols, u), at))
    ensures var out, a := m.run[m.k].out, Product(t, stride) + row;
            a in out && out[a] == S.Q6kValue(f16, dot, weight, nCols, xs[t], row)
  {
    var rowBytes := Product(nCols / S.BLOCK_SIZE, S.Q6K_BLOCK_BYTES);
    var product := (at: nat, u: nat) => Q6kProduct(f16, dot, weight, nCols, TokenInput(b, nCols, u), at);
    BatchComputes(nRows, |xs|, stride, rowBytes, product);
    TokenInputIs(b, nCols, xs, t);
    Q6kProductOfRow(f16, dot, weight, nCols, xs[t], nRows, row);
    hide M.Moment.Valid, Q6kProduct, S.Q6kValue, M.Computes, BatchJob, TokenInput, LaidOut;
    assert m.r < |m.grids| by { InRange(m); }
    M.ConcurrentMatmul(m, (row: nat, u: nat) => product(Product(row, rowBytes), u), row, t);
  }

  /** After the closing wait of a round that ran either repacked batch kernel, every row of a full quad
      holds, for every token of the batch, what the single-threaded kernel computes from the weight as it was
      before repacking. */
  lemma RepackedIsSequential(m: M.Moment, f16: (Byte, Byte) -> real, dot: (Bytes, (S.Input, seq<real>)) -> real,
                             blockDot: BlockDot, weight: Bytes, packed: Bytes, b: Batch, xs: seq<S.Input>, nRows: nat,
                             nCols: nat, stride: nat, row: nat, t: nat)
    requires m.Valid() && row < nRows / 4 * 4 && nRows <= stride && t < |xs| && LaidOut(b, nCols, xs)
    requires m.grids[m.r] == M.BatchQuadsRepacked(nRows, |xs|, stride)
    requires m.jobs[m.r] == TileJob(f16, blockDot, weight, packed, b, nRows, nCols, |xs|, stride)
    requires SameKernel(dot, blockDot, nCols / S.BLOCK_SIZE)
    requires Q.Interleaved(weight, packed, nRows / 4, nCols / S.BLOCK_SIZE)
    ensures var out, a := m.run[m.k].out, Product(t, stride) + row;
            a in out && out[a] == S.Q6kValue(f16, dot, weight, nCols, xs[t], row)
  {
    TileComputes(f16, dot, blockDot, weight, packed, b, xs, nRows, nCols, stride);
    hide M.Moment.Valid, S.Q6kValue, M.Computes, TileJob, TokenInput, SameKernel, Q.Interleaved, LaidOut;
    assert m.r < |m.grids| by { InRange(m); }
    M.ConcurrentMatmul(m, (row: nat, u: nat) => if u < |xs| then S.Q6kValue(f16, dot, weight, nCols, xs[u], row) else 0.0, row, t);
  }
}
