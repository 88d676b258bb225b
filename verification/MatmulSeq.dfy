/** The single-threaded kernels (src/inference/matmul_seq.rs). Dot products and the f16 conversion are
    parameters: what is modelled is which bytes and scales each row's product is taken over, and where
    it is stored. */
module MatmulSeq {
  import opened Arithmetic
  import opened Tokens

  const BLOCK_SIZE: nat := 256
  const Q4K_BLOCK_BYTES: nat := 144
  const Q6K_BLOCK_BYTES: nat := 210

  /** Where the f16 scale sits in a Q6K block. */
  const Q6K_D_OFFSET: nat := 208

  /** A Q8K-quantized input vector. */
  datatype Input = Input(qs: seq<int>, d: seq<real>, bsums: seq<int>)

  /** The bytes of one weight row. */
  function Row(weight: Bytes, rowBytes: nat, row: nat): (r: Bytes)
    requires Product(row + 1, rowBytes) <= |weight|
    ensures |r| == rowBytes
  {
    Succ(row, rowBytes);
    weight[Product(row, rowBytes)..Product(row + 1, rowBytes)]
  }

  lemma RowIn(rows: nat, rowBytes: nat, row: nat)
    requires row < rows
    ensures Product(row + 1, rowBytes) <= Product(rows, rowBytes)
  {
    MulMono(row + 1, rows, rowBytes);
  }

  /** What the row-by-row product leaves in the output: rows below n_rows, and nothing else. */
  ghost predicate MatvecResult<T>(before: seq<T>, after: seq<T>, nRows: nat, value: nat -> T) {
    && |after| == |before| && nRows <= |after|
    && (forall row: nat :: row < nRows ==> after[row] == value(row))
    && forall k :: nRows <= k < |after| ==> after[k] == before[k]
  }

  // ---------- Q4K ----------

  function Q4kValue(dot: (Bytes, Input) -> real, weight: Bytes, nCols: nat, input: Input, row: nat): real {
    var rowBytes := Product(nCols / BLOCK_SIZE, Q4K_BLOCK_BYTES);
    if Product(row + 1, rowBytes) <= |weight| then dot(Row(weight, rowBytes, row), input) else 0.0
  }

  /** The 4-row kernel: four dot products into four consecutive outputs. */
  method Dot4Row<A>(dot: (Bytes, A) -> real, w: seq<Bytes>, inputs: seq<A>, output: array<real>, base: nat)
    requires |w| == |inputs| == 4 && base + 4 <= output.Length
    modifies output
    ensures output[..] == old(output[..base]) + [dot(w[0], inputs[0]), dot(w[1], inputs[1]),
                          dot(w[2], inputs[2]), dot(w[3], inputs[3])] + old(output[base + 4..])
  {
    output[base] := dot(w[0], inputs[0]);
    output[base + 1] := dot(w[1], inputs[1]);
    output[base + 2] := dot(w[2], inputs[2]);
    output[base + 3] := dot(w[3], inputs[3]);
  }

  lemma Spliced(before: seq<real>, after: seq<real>, b: nat, v0: real, v1: real, v2: real, v3: real)
    requires b + 4 <= |before| && after == before[..b] + [v0, v1, v2, v3] + before[b + 4..]
    ensures |after| == |before|
    ensures after[b] == v0 && after[b + 1] == v1 && after[b + 2] == v2 && after[b + 3] == v3
    ensures forall k :: 0 <= k < b || b + 4 <= k < |before| ==> after[k] == before[k]
  {
  }

  /** One quad of q4k_matvec. */
  method Q4kQuad(dot: (Bytes, Input) -> real, weight: Bytes, input: Input, output: array<real>, nRows: nat, nCols: nat, b: nat)
    requires b + 4 <= nRows <= output.Length
    requires Product(nRows, Product(nCols / BLOCK_SIZE, Q4K_BLOCK_BYTES)) <= |weight|
    modifies output
    ensures forall row: nat :: b <= row < b + 4 ==> output[row] == Q4kValue(dot, weight, nCols, input, row)
    ensures forall k :: 0 <= k < b || b + 4 <= k < output.Length ==> output[k] == old(output[k])
  {
    hide Row;
    var rowBytes := Product(nCols / BLOCK_SIZE, Q4K_BLOCK_BYTES);
    RowIn(nRows, rowBytes, b);
    RowIn(nRows, rowBytes, b + 1);
    RowIn(nRows, rowBytes, b + 2);
    RowIn(nRows, rowBytes, b + 3);
    ghost var sofar := output[..];
    Dot4Row(dot, [Row(weight, rowBytes, b), Row(weight, rowBytes, b + 1), Row(weight, rowBytes, b + 2),
                  Row(weight, rowBytes, b + 3)], [input, input, input, input], output, b);
    Spliced(sofar, output[..], b, Q4kValue(dot, weight, nCols, input, b),
            Q4kValue(dot, weight, nCols, input, b + 1), Q4kValue(dot, weight, nCols, input, b + 2),
            Q4kValue(dot, weight, nCols, input, b + 3));
  }

  /** q4k_matvec: quads of rows, then one to three rows one at a time. */
  method Q4kMatvec(dot: (Bytes, Input) -> real, weight: Bytes, input: Input, output: array<real>,
                   nRows: nat, nCols: nat)
    requires nRows <= output.Length
    requires Product(nRows, Product(nCols / BLOCK_SIZE, Q4K_BLOCK_BYTES)) <= |weight|
    modifies output
    ensures MatvecResult(old(output[..]), output[..], nRows, row => Q4kValue(dot, weight, nCols, input, row))
  {
    var nBlocks := nCols / BLOCK_SIZE;
    var rowBytes := Product(nBlocks, Q4K_BLOCK_BYTES);
    var fullQuads, remainder := nRows / 4, nRows % 4;
    ghost var before := output[..];
    for quad := 0 to fullQuads
      invariant forall row: nat :: row < 4 * quad ==> output[row] == Q4kValue(dot, weight, nCols, input, row)
      invariant forall k :: 4 * quad <= k < output.Length ==> output[k] == before[k]
    {
      Q4kQuad(dot, weight, input, output, nRows, nCols, 4 * quad);
    }
    for i := 0 to remainder
      invariant forall row: nat :: row < 4 * fullQuads + i ==> output[row] == Q4kValue(dot, weight, nCols, input, row)
      invariant forall k :: 4 * fullQuads + i <= k < output.Length ==> output[k] == before[k]
    {
      var row := fullQuads * 4 + i;
      RowIn(nRows, rowBytes, row);
      output[row] := dot(Row(weight, rowBytes, row), input);
    }
  }

  // ---------- Q6K ----------

  /** The f16 scale of one block of a row. */
  function BlockScale(f16: (Byte, Byte) -> real, row: Bytes, blk: nat): real
    requires Product(blk + 1, Q6K_BLOCK_BYTES) <= |row|
  {
    f16(row[Product(blk, Q6K_BLOCK_BYTES) + Q6K_D_OFFSET], row[Product(blk, Q6K_BLOCK_BYTES) + Q6K_D_OFFSET + 1])
  }

  /** A row's block scales, each times the input's block scale. */
  function Scales(f16: (Byte, Byte) -> real, row: Bytes, d: seq<real>, nBlocks: nat): (s: seq<real>)
    requires |row| == Product(nBlocks, Q6K_BLOCK_BYTES) && nBlocks <= |d|
    ensures |s| == nBlocks
  {
    seq(nBlocks, blk requires 0 <= blk < nBlocks =>
      (RowIn(nBlocks, Q6K_BLOCK_BYTES, blk); Times(BlockScale(f16, row, blk), d[blk])))
  }

  function Q6kValue(f16: (Byte, Byte) -> real, dot: (Bytes, (Input, seq<real>)) -> real, weight: Bytes, nCols: nat,
                    input: Input, row: nat): real {
    var nBlocks := nCols / BLOCK_SIZE;
    var rowBytes := Product(nBlocks, Q6K_BLOCK_BYTES);
    if Product(row + 1, rowBytes) <= |weight| && nBlocks <= |input.d| then
      dot(Row(weight, rowBytes, row), (input, Scales(f16, Row(weight, rowBytes, row), input.d, nBlocks)))
    else 0.0
  }

  /** q6k_extract_d, into the quarter of the scratch buffer starting at `at`. */
  method ExtractD(f16: (Byte, Byte) -> real, row: Bytes, nBlocks: nat, d: seq<real>, scratch: array<real>, at: nat)
    requires |row| == Product(nBlocks, Q6K_BLOCK_BYTES) && nBlocks <= |d| && at + nBlocks <= scratch.Length
    modifies scratch
    ensures scratch[at..at + nBlocks] == Scales(f16, row, d, nBlocks)
    ensures forall k :: 0 <= k < at || at + nBlocks <= k < scratch.Length ==> scratch[k] == old(scratch[k])
  {
    for blk := 0 to nBlocks
      invariant forall k :: 0 <= k < blk ==> scratch[at + k] == Scales(f16, row, d, nBlocks)[k]
      invariant forall k :: 0 <= k < at || at + nBlocks <= k < scratch.Length ==> scratch[k] == old(scratch[k])
    {
      RowIn(nBlocks, Q6K_BLOCK_BYTES, blk);
      var p := Product(blk, Q6K_BLOCK_BYTES) + Q6K_D_OFFSET;
      scratch[at + blk] := Times(f16(row[p], row[p + 1]), d[blk]);
    }
  }

  /** One quad of q6k_matvec: the scales of its rows through the scratch, then the 4-row kernel. */
  method Q6kQuad(f16: (Byte, Byte) -> real, dot: (Bytes, (Input, seq<real>)) -> real, weight: Bytes, input: Input,
                 output: array<real>, scratch: array<real>, nRows: nat, nCols: nat, b: nat)
    requires output != scratch && b + 4 <= nRows <= output.Length
    requires 4 * (nCols / BLOCK_SIZE) <= scratch.Length && nCols / BLOCK_SIZE <= |input.d|
    requires Product(nRows, Product(nCols / BLOCK_SIZE, Q6K_BLOCK_BYTES)) <= |weight|
    modifies output, scratch
    ensures forall row: nat :: b <= row < b + 4 ==> output[row] == Q6kValue(f16, dot, weight, nCols, input, row)
    ensures forall k :: 0 <= k < b || b + 4 <= k < output.Length ==> output[k] == old(output[k])
  {
    hide Scales, Row;
    var nBlocks := nCols / BLOCK_SIZE;
    var rowBytes := Product(nBlocks, Q6K_BLOCK_BYTES);
    RowIn(nRows, rowBytes, b);
    RowIn(nRows, rowBytes, b + 1);
    RowIn(nRows, rowBytes, b + 2);
    RowIn(nRows, rowBytes, b + 3);
    ghost var sofar := output[..];
    var w := [Row(weight, rowBytes, b), Row(weight, rowBytes, b + 1), Row(weight, rowBytes, b + 2),
              Row(weight, rowBytes, b + 3)];
    var ds := ExtractFour(f16, w, nBlocks, input.d, scratch);
    Dot4Row(dot, w, [(input, ds[0]), (input, ds[1]), (input, ds[2]), (input, ds[3])], output, b);
    Spliced(sofar, output[..], b, Q6kValue(f16, dot, weight, nCols, input, b),
            Q6kValue(f16, dot, weight, nCols, input, b + 1), Q6kValue(f16, dot, weight, nCols, input, b + 2),
            Q6kValue(f16, dot, weight, nCols, input, b + 3));
  }

  /** q6k_matvec, with its shared scale scratch split in four. */
  method Q6kMatvec(f16: (Byte, Byte) -> real, dot: (Bytes, (Input, seq<real>)) -> real, weight: Bytes, input: Input,
                   output: array<real>, scratch: array<real>, nRows: nat, nCols: nat)
    requires output != scratch && nRows <= output.Length
    requires 4 * (nCols / BLOCK_SIZE) <= scratch.Length && nCols / BLOCK_SIZE <= |input.d|
    requires Product(nRows, Product(nCols / BLOCK_SIZE, Q6K_BLOCK_BYTES)) <= |weight|
    modifies output, scratch
    ensures MatvecResult(old(output[..]), output[..], nRows, row => Q6kValue(f16, dot, weight, nCols, input, row))
  {
    hide Scales, Row;
    var nBlocks := nCols / BLOCK_SIZE;
    var rowBytes := Product(nBlocks, Q6K_BLOCK_BYTES);
    var fullQuads, remainder := nRows / 4, nRows % 4;
    ghost var before := output[..];
    for quad := 0 to fullQuads
      invariant forall row: nat :: row < 4 * quad ==> output[row] == Q6kValue(f16, dot, weight, nCols, input, row)
      invariant forall k :: 4 * quad <= k < output.Length ==> output[k] == before[k]
    {
      Q6kQuad(f16, dot, weight, input, output, scratch, nRows, nCols, 4 * quad);
    }
    for i := 0 to remainder
      invariant forall row: nat :: row < 4 * fullQuads + i ==>
                  output[row] == Q6kValue(f16, dot, weight, nCols, input, row)
      invariant forall k :: 4 * fullQuads + i <= k < output.Length ==> output[k] == before[k]
    {
      var row := fullQuads * 4 + i;
      RowIn(nRows, rowBytes, row);
      var w := Row(weight, rowBytes, row);
      ExtractD(f16, w, nBlocks, input.d, scratch, 0);
      output[row] := dot(w, (input, scratch[0..nBlocks]));
    }
  }

  /** The four scale rows of a quad, one after the other in the scratch buffer, as the kernel reads them. */
  method ExtractFour(f16: (Byte, Byte) -> real, w: seq<Bytes>, nBlocks: nat, d: seq<real>, scratch: array<real>)
    returns (ds: seq<seq<real>>)
    requires |w| == 4 && forall r :: 0 <= r < 4 ==> |w[r]| == Product(nBlocks, Q6K_BLOCK_BYTES)
    requires nBlocks <= |d| && 4 * nBlocks <= scratch.Length
    modifies scratch
    ensures |ds| == 4 && forall r :: 0 <= r < 4 ==> ds[r] == Scales(f16, w[r], d, nBlocks)
  {
    hide Scales;
    var n2, n3 := 2 * nBlocks, 3 * nBlocks;
    ExtractD(f16, w[0], nBlocks, d, scratch, 0);
    ghost var s0 := scratch[..nBlocks];
    ExtractD(f16, w[1], nBlocks, d, scratch, nBlocks);
    assert scratch[..nBlocks] == s0;
    ghost var s1 := scratch[..n2];
    assert s1[..nBlocks] == s0 && s1[nBlocks..] == scratch[nBlocks..n2];
    ExtractD(f16, w[2], nBlocks, d, scratch, n2);
    assert scratch[..n2] == s1;
    ghost var s2 := scratch[..n3];
    assert s2[..n2] == s1 && s2[n2..] == scratch[n2..n3];
    ExtractD(f16, w[3], nBlocks, d, scratch, n3);
    assert scratch[..n3] == s2;
    assert scratch[0..nBlocks] == s0 && scratch[nBlocks..n2] == s1[nBlocks..] && scratch[n2..n3] == s2[n2..];
    ds := [scratch[0..nBlocks], scratch[nBlocks..2 * nBlocks], scratch[2 * nBlocks..3 * nBlocks],
           scratch[3 * nBlocks..4 * nBlocks]];
  }
}
