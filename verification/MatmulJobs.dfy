/** The matrix products as work-stealing jobs (src/inference/matmul_graph.rs,
    src/inference/matmul_graph_batch.rs): which output address each claimed chunk writes, that no two
    cells share an address, and which cells a kernel covers. */
module MatmulJobs {
  import opened Arithmetic
  import W = WorkStealing
  import R = StealingRuns
  import E = StealingProgress

  /** Rows a chunk spans times a block of tokens. `tail`: thread 0 does the rows left over.
      `stride`: output elements from one token's row 0 to the next token's. */
  datatype Grid = Grid(height: nat, rows: nat, tokens: nat, stride: nat, tail: bool)
  {
    ghost predicate Valid() {
      0 < height && rows <= stride
    }
  }

  const TOKENS_PER_CHUNK: nat := 16

  function Tiles(g: Grid): (n: nat)
    requires g.Valid()
    ensures n * g.height <= g.rows < n * g.height + g.height
  {
    var n := g.rows / g.height;
    Divided(g.rows, g.height);
    n
  }

  /** Rows the chunk loop reaches. */
  function ChunkRows(g: Grid): (n: nat)
    requires g.Valid()
    ensures n <= g.rows
  {
    Tiles(g) * g.height
  }

  function TokenChunks(g: Grid): nat {
    (g.tokens + TOKENS_PER_CHUNK - 1) / TOKENS_PER_CHUNK
  }

  function TotalChunks(g: Grid): nat
    requires g.Valid()
  {
    Product(Tiles(g), TokenChunks(g))
  }

  function TokenStart(g: Grid, q: nat): nat
    requires g.Valid() && 0 < Tiles(g)
  {
    q / Tiles(g) * TOKENS_PER_CHUNK
  }

  function TokenEnd(g: Grid, q: nat): nat
    requires g.Valid() && 0 < Tiles(g)
  {
    Min(TokenStart(g, q) + TOKENS_PER_CHUNK, g.tokens)
  }

  /** Row and token of the k-th cell chunk q writes: token by token, `height` rows each. */
  function CellRow(g: Grid, q: nat, k: nat): nat
    requires g.Valid() && 0 < Tiles(g)
  {
    Product(q % Tiles(g), g.height) + k % g.height
  }

  function CellToken(g: Grid, q: nat, k: nat): nat
    requires g.Valid() && 0 < Tiles(g)
  {
    TokenStart(g, q) + k / g.height
  }

  function CellCount(g: Grid, q: nat): nat
    requires g.Valid() && 0 < Tiles(g)
  {
    if TokenStart(g, q) <= TokenEnd(g, q) then Product(TokenEnd(g, q) - TokenStart(g, q), g.height) else 0
  }

  /** The leftover cells: row by row, every token. */
  function TailRow(g: Grid, k: nat): nat
    requires g.Valid() && 0 < g.tokens
  {
    ChunkRows(g) + k / g.tokens
  }

  function TailToken(g: Grid, k: nat): nat
    requires 0 < g.tokens
  {
    k % g.tokens
  }

  function Address(g: Grid, row: nat, token: nat): nat {
    Product(token, g.stride) + row
  }

  function Chunk(g: Grid, q: nat): (c: seq<nat>)
    requires g.Valid() && 0 < Tiles(g)
    ensures |c| == CellCount(g, q)
    ensures forall k: nat :: k < |c| ==> c[k] == Address(g, CellRow(g, q, k), CellToken(g, q, k))
  {
    seq(CellCount(g, q), k requires 0 <= k => Address(g, CellRow(g, q, k), CellToken(g, q, k)))
  }

  function Chunks(g: Grid): (c: seq<seq<nat>>)
    requires g.Valid()
    ensures |c| == TotalChunks(g)
    ensures Tiles(g) == 0 ==> c == []
    ensures 0 < Tiles(g) ==> forall q: nat :: q < |c| ==> c[q] == Chunk(g, q)
  {
    if Tiles(g) == 0 then [] else seq(TotalChunks(g), q requires 0 <= q => Chunk(g, q))
  }

  function Tail(g: Grid): (c: seq<nat>)
    requires g.Valid()
    ensures |c| == if g.tail then Product(g.rows - ChunkRows(g), g.tokens) else 0
    ensures 0 < g.tokens ==> forall k: nat :: k < |c| ==> c[k] == Address(g, TailRow(g, k), TailToken(g, k))
  {
    if !g.tail || g.tokens == 0 then []
    else seq(Product(g.rows - ChunkRows(g), g.tokens), k requires 0 <= k => Address(g, TailRow(g, k), TailToken(g, k)))
  }

  /** A job that writes the grid's cells. */
  predicate IsGridJob(g: Grid, job: W.Job)
    requires g.Valid()
  {
    job.chunks == Chunks(g) && job.rest == Tail(g)
  }

  /** Each chunk and the remainder compute, at each place, the value of the row and token they write. */
  ghost predicate Computes(g: Grid, job: W.Job, val: (nat, nat) -> real)
    requires g.Valid()
  {
    && (0 < Tiles(g) ==> forall q: nat, k: nat :: q < TotalChunks(g) && k < CellCount(g, q) ==>
          job.chunkVal(q, k) == val(CellRow(g, q, k), CellToken(g, q, k)))
    && (0 < g.tokens ==> forall k: nat :: k < |Tail(g)| ==> job.restVal(k) == val(TailRow(g, k), TailToken(g, k)))
  }

  // ---------- cells ----------

  lemma AddressUnique(g: Grid, row: nat, token: nat, row': nat, token': nat)
    requires row < g.stride && row' < g.stride && Address(g, row, token) == Address(g, row', token')
    ensures row == row' && token == token'
  {
    Split(token, row, token', row', g.stride);
  }

  /** A chunk's cells lie in the grid. */
  lemma CellIn(g: Grid, q: nat, k: nat)
    requires g.Valid() && 0 < Tiles(g) && k < CellCount(g, q)
    ensures CellRow(g, q, k) < ChunkRows(g) && CellToken(g, q, k) < g.tokens
    ensures k / g.height < TOKENS_PER_CHUNK
  {
    Below(q % Tiles(g), k % g.height, Tiles(g), g.height);
    Quotient(k, TokenEnd(g, q) - TokenStart(g, q), g.height);
  }

  lemma TailIn(g: Grid, k: nat)
    requires g.Valid() && 0 < g.tokens && k < |Tail(g)|
    ensures ChunkRows(g) <= TailRow(g, k) < g.rows && TailToken(g, k) < g.tokens
  {
    Quotient(k, g.rows - ChunkRows(g), g.tokens);
  }

  /** Different cells of the chunks have different addresses. */
  lemma CellsDistinct(g: Grid, q: nat, k: nat, q': nat, k': nat)
    requires g.Valid() && 0 < Tiles(g) && k < CellCount(g, q) && k' < CellCount(g, q')
    requires Address(g, CellRow(g, q, k), CellToken(g, q, k)) == Address(g, CellRow(g, q', k'), CellToken(g, q', k'))
    ensures q == q' && k == k'
  {
    CellIn(g, q, k);
    CellIn(g, q', k');
    AddressUnique(g, CellRow(g, q, k), CellToken(g, q, k), CellRow(g, q', k'), CellToken(g, q', k'));
    SameCell(g, q, k, q', k');
    hide CellRow, CellToken, CellCount, Address, Tiles, ChunkRows;
  }

  lemma SameCell(g: Grid, q: nat, k: nat, q': nat, k': nat)
    requires g.Valid() && 0 < Tiles(g)
    requires k / g.height < TOKENS_PER_CHUNK && k' / g.height < TOKENS_PER_CHUNK
    requires CellRow(g, q, k) == CellRow(g, q', k') && CellToken(g, q, k) == CellToken(g, q', k')
    ensures q == q' && k == k'
  {
    var m := Tiles(g);
    Split(q % m, k % g.height, q' % m, k' % g.height, g.height);
    SameChunk(Quot(q, m), Quot(k, g.height), Quot(q', m), Quot(k', g.height));
    SameQuotient(q, q', m);
    SameQuotient(k, k', g.height);
  }

  lemma SameChunk(b: nat, j: nat, b': nat, j': nat)
    requires j < TOKENS_PER_CHUNK && j' < TOKENS_PER_CHUNK
    requires b * TOKENS_PER_CHUNK + j == b' * TOKENS_PER_CHUNK + j'
    ensures b == b' && j == j'
  {
  }

  lemma SameQuotient(a: nat, b: nat, m: nat)
    requires 0 < m && a / m == b / m && a % m == b % m
    ensures a == b
  {
    Divided(a, m);
    Divided(b, m);
  }

  lemma TailDistinct(g: Grid, k: nat, k': nat)
    requires g.Valid() && 0 < g.tokens && k < |Tail(g)| && k' < |Tail(g)|
    requires Address(g, TailRow(g, k), TailToken(g, k)) == Address(g, TailRow(g, k'), TailToken(g, k'))
    ensures k == k'
  {
    TailIn(g, k);
    TailIn(g, k');
    AddressUnique(g, TailRow(g, k), TailToken(g, k), TailRow(g, k'), TailToken(g, k'));
    Divided(k, g.tokens);
    Divided(k', g.tokens);
  }

  lemma ChunkReached(g: Grid, tile: nat, token: nat) returns (q: nat)
    requires g.Valid() && tile < Tiles(g) && token < g.tokens
    ensures q < TotalChunks(g) && q % Tiles(g) == tile && TokenStart(g, q) == token / TOKENS_PER_CHUNK * TOKENS_PER_CHUNK
  {
    var m, block := Tiles(g), token / TOKENS_PER_CHUNK;
    q := Product(block, m) + tile;
    hide Tiles;
    DivMod(block, tile, m);
    assert block < TokenChunks(g);
    Below(block, tile, TokenChunks(g), m);
  }

  lemma PlaceReached(g: Grid, q: nat, token: nat, r: nat) returns (k: nat)
    requires g.Valid() && 0 < Tiles(g) && token < g.tokens && r < g.height
    requires TokenStart(g, q) == token / TOKENS_PER_CHUNK * TOKENS_PER_CHUNK
    ensures k < CellCount(g, q) && k % g.height == r && CellToken(g, q, k) == token
  {
    var h, t := g.height, token % TOKENS_PER_CHUNK;
    k := Product(t, h) + r;
    DivMod(t, r, h);
    hide Tiles, TokenStart;
    assert t < TokenEnd(g, q) - TokenStart(g, q);
    Below(t, r, TokenEnd(g, q) - TokenStart(g, q), h);
  }

  /** The chunk and place where a cell of the first ChunkRows rows is written. */
  lemma CellReached(g: Grid, row: nat, token: nat) returns (q: nat, k: nat)
    requires g.Valid() && row < ChunkRows(g) && token < g.tokens
    ensures 0 < Tiles(g) && q < TotalChunks(g) && k < CellCount(g, q)
    ensures CellRow(g, q, k) == row && CellToken(g, q, k) == token
  {
    Quotient(row, Tiles(g), g.height);
    Divided(row, g.height);
    q := ChunkReached(g, Quot(row, g.height), token);
    k := PlaceReached(g, q, token, row % g.height);
    hide Tiles, TokenStart, CellToken, CellCount, TotalChunks;
  }

  lemma TailReached(g: Grid, row: nat, token: nat) returns (k: nat)
    requires g.Valid() && g.tail && ChunkRows(g) <= row < g.rows && token < g.tokens
    ensures k < |Tail(g)| && TailRow(g, k) == row && TailToken(g, k) == token
  {
    k := Product(row - ChunkRows(g), g.tokens) + token;
    DivMod(row - ChunkRows(g), token, g.tokens);
    Below(row - ChunkRows(g), token, g.rows - ChunkRows(g), g.tokens);
  }

  // ---------- the jobs ----------

  /** With an output stride of at least n_rows, no address is written twice. */
  lemma GridDistinct(g: Grid, job: W.Job)
    requires g.Valid() && IsGridJob(g, job)
    ensures W.Distinct(job)
  {
    forall q, k, q', k' | 0 <= q < |job.chunks| && 0 <= k < |job.chunks[q]|
                          && 0 <= q' < |job.chunks| && 0 <= k' < |job.chunks[q']|
                          && job.chunks[q][k] == job.chunks[q'][k']
      ensures q == q' && k == k'
    {
      CellsDistinct(g, q, k, q', k');
    }
    forall k, k' | 0 <= k < |job.rest| && 0 <= k' < |job.rest| && job.rest[k] == job.rest[k']
      ensures k == k'
    {
      NonEmpty(g, k);
      TailDistinct(g, k, k');
    }
    forall q, k, k' | 0 <= q < |job.chunks| && 0 <= k < |job.chunks[q]| && 0 <= k' < |job.rest|
      ensures job.chunks[q][k] != job.rest[k']
    {
      NonEmpty(g, k');
      CellIn(g, q, k);
      TailIn(g, k');
      if job.chunks[q][k] == job.rest[k'] {
        AddressUnique(g, CellRow(g, q, k), CellToken(g, q, k), TailRow(g, k'), TailToken(g, k'));
      }
    }
    hide Address, CellRow, CellToken, CellCount, TailRow, TailToken, Product, Tiles, ChunkRows, TotalChunks;
  }

  lemma NonEmpty(g: Grid, k: nat)
    requires g.Valid() && k < |Tail(g)|
    ensures 0 < g.tokens
  {
  }

  /** Rows a kernel writes. */
  function RowsWritten(g: Grid): nat
    requires g.Valid()
  {
    if g.tail then g.rows else ChunkRows(g)
  }

  /** A job writes exactly the addresses of its rows, for every token. */
  lemma GridCovers(g: Grid, job: W.Job, row: nat, token: nat)
    requires g.Valid() && IsGridJob(g, job) && row < g.rows
    ensures W.Covers(job, Address(g, row, token)) <==> row < RowsWritten(g) && token < g.tokens
  {
    var a := Address(g, row, token);
    if row < RowsWritten(g) && token < g.tokens {
      if row < ChunkRows(g) {
        var q, k := CellReached(g, row, token);
        assert job.chunks[q] == Chunk(g, q) && job.chunks[q][k] == a;
      } else {
        var k := TailReached(g, row, token);
        assert job.rest[k] == a;
      }
    }
    if exists q, k :: 0 <= q < |job.chunks| && 0 <= k < |job.chunks[q]| && job.chunks[q][k] == a {
      var q, k :| 0 <= q < |job.chunks| && 0 <= k < |job.chunks[q]| && job.chunks[q][k] == a;
      CellIn(g, q, k);
      AddressUnique(g, CellRow(g, q, k), CellToken(g, q, k), row, token);
    }
    if exists k :: 0 <= k < |job.rest| && job.rest[k] == a {
      var k :| 0 <= k < |job.rest| && job.rest[k] == a;
      NonEmpty(g, k);
      TailIn(g, k);
      AddressUnique(g, TailRow(g, k), TailToken(g, k), row, token);
    }
    hide Address, CellRow, CellToken, CellCount, TailRow, TailToken, Product, Tiles, ChunkRows, TotalChunks;
  }

  /** Every row of every token is written if and only if the kernel has a remainder loop or n_rows is
      a multiple of the tile height (or there is nothing to do). */
  lemma CoversAllRows(g: Grid, job: W.Job)
    requires g.Valid() && IsGridJob(g, job)
    ensures (forall row: nat, token: nat :: row < g.rows && token < g.tokens ==>
               W.Covers(job, Address(g, row, token)))
            <==> g.tail || g.rows % g.height == 0 || g.tokens == 0
  {
    forall row: nat, token: nat | row < g.rows && token < g.tokens
      ensures W.Covers(job, Address(g, row, token)) <==> row < RowsWritten(g)
    {
      GridCovers(g, job, row, token);
    }
    Divided(g.rows, g.height);
    if !g.tail && g.rows % g.height != 0 && g.tokens != 0 {
      assert !W.Covers(job, Address(g, ChunkRows(g), 0));
    }
    hide W.Covers, Address;
  }

  /** The value at the address of a cell is the cell's own product, by whichever chunk or remainder place
      it was written. */
  lemma CellValue(g: Grid, job: W.Job, val: (nat, nat) -> real, out: map<nat, real>, row: nat, token: nat)
    requires g.Valid() && IsGridJob(g, job) && Computes(g, job, val) && row < RowsWritten(g) && token < g.tokens
    requires R.HoldsCell(job, out, Address(g, row, token))
    ensures Address(g, row, token) in out && out[Address(g, row, token)] == val(row, token)
  {
    var a := Address(g, row, token);
    hide Address, CellRow, CellToken, CellCount, TailRow, TailToken, Tiles, ChunkRows, TotalChunks;
    if row < ChunkRows(g) {
      var q, k := CellReached(g, row, token);
      assert job.chunks[q] == Chunk(g, q) && W.InChunk(job, a, q, k);
    } else {
      var k := TailReached(g, row, token);
      assert W.InRest(job, a, k);
    }
  }

  // ---------- the kernels ----------

  /** q4k_matvec_ws: row quads for one input vector, thread 0 does n_rows % 4. */
  function Quads(nRows: nat): Grid {
    Grid(4, nRows, 1, nRows, true)
  }

  /** q4k_matvec_dual_ws: the same quads into two outputs, `up_out` lying `apart` elements after
      `gate_out`; "token" 0 is the gate product, 1 the up product. */
  function DualQuads(nRows: nat, apart: nat): Grid {
    Grid(4, nRows, 2, apart, true)
  }

  /** q4k_matvec_8x8_ws. */
  function Tiles8(nRows: nat): Grid {
    Grid(8, nRows, 1, nRows, false)
  }

  /** q4k_matvec_8x8_batch_ws. */
  function BatchTiles8(nRows: nat, nTokens: nat, stride: nat): Grid {
    Grid(8, nRows, nTokens, stride, false)
  }

  /** q6k_repacked_batch_ws and q6k_repacked_batch_ws_pre_d: no remainder loop. */
  function BatchQuadsRepacked(nRows: nat, nTokens: nat, stride: nat): Grid {
    Grid(4, nRows, nTokens, stride, false)
  }

  /** matvec_batch_ws. */
  function BatchQuads(nRows: nat, nTokens: nat, stride: nat): Grid {
    Grid(4, nRows, nTokens, stride, true)
  }

  /** For one token the grid is the plain loop: chunk q is rows 4q .. 4q + 3, up to n_rows / 4. */
  lemma QuadChunks(nRows: nat, q: nat)
    requires q < nRows / 4
    ensures |Chunks(Quads(nRows))| == nRows / 4
    ensures Chunks(Quads(nRows))[q] == [4 * q, 4 * q + 1, 4 * q + 2, 4 * q + 3]
    ensures |Tail(Quads(nRows))| == nRows % 4
    ensures forall i: nat :: i < nRows % 4 ==> Tail(Quads(nRows))[i] == nRows / 4 * 4 + i
  {
    var g := Quads(nRows);
    assert TokenChunks(g) == 1 && Tiles(g) == nRows / 4;
    DivMod(0, q, nRows / 4);
    assert TokenStart(g, q) == 0 && TokenEnd(g, q) == 1 && CellCount(g, q) == 4;
    assert Chunks(g)[q] == Chunk(g, q);
  }

  /** The dual kernel's chunk q: the four gate rows, then the same four up rows. */
  lemma DualChunks(nRows: nat, apart: nat, q: nat)
    requires nRows <= apart && q < nRows / 4
    ensures |Chunks(DualQuads(nRows, apart))| == nRows / 4
    ensures Chunks(DualQuads(nRows, apart))[q]
            == [4 * q, 4 * q + 1, 4 * q + 2, 4 * q + 3, apart + 4 * q, apart + 4 * q + 1, apart + 4 * q + 2, apart + 4 * q + 3]
  {
    var g := DualQuads(nRows, apart);
    assert TokenChunks(g) == 1 && Tiles(g) == nRows / 4;
    DivMod(0, q, nRows / 4);
    assert TokenStart(g, q) == 0 && TokenEnd(g, q) == 2 && CellCount(g, q) == 8;
    assert Chunks(g)[q] == Chunk(g, q);
    hide TokenStart, TokenEnd, CellCount, Tiles;
    forall k: nat | k < 8
      ensures Chunk(g, q)[k] == (if k < 4 then 4 * q + k else apart + 4 * q + (k - 4))
    {
      DualCell(g, q, k);
    }
  }

  lemma DualCell(g: Grid, q: nat, k: nat)
    requires g.Valid() && g.height == 4 && k < 8 && 0 < Tiles(g) && q < Tiles(g)
    ensures Address(g, CellRow(g, q, k), CellToken(g, q, k)) == if k < 4 then 4 * q + k else g.stride + 4 * q + (k - 4)
  {
    DivMod(0, q, Tiles(g));
    assert k / 4 == (if k < 4 then 0 else 1) && k % 4 == if k < 4 then k else k - 4;
  }

  /** The kernels without a remainder loop write every row exactly when the row count is a multiple of
      their tile height (or there is no token). Their callers check that before they repack. */
  lemma TileKernelsCover(nRows: nat, nTokens: nat, stride: nat, job: W.Job, g: Grid)
    requires nRows <= stride
    requires g == Tiles8(nRows) || g == BatchTiles8(nRows, nTokens, stride) || g == BatchQuadsRepacked(nRows, nTokens, stride)
    requires IsGridJob(g, job)
    ensures (forall row: nat, token: nat :: row < nRows && token < g.tokens ==> W.Covers(job, Address(g, row, token)))
            <==> nRows % g.height == 0 || g.tokens == 0
  {
    CoversAllRows(g, job);
  }

  /** matvec_batch_ws, which takes any shape, writes every row. */
  lemma BatchQuadsCover(nRows: nat, nTokens: nat, stride: nat, job: W.Job, row: nat, token: nat)
    requires nRows <= stride && IsGridJob(BatchQuads(nRows, nTokens, stride), job) && row < nRows
    ensures W.Covers(job, Address(BatchQuads(nRows, nTokens, stride), row, token)) <==> token < nTokens
  {
    GridCovers(BatchQuads(nRows, nTokens, stride), job, row, token);
  }

  /** On six rows and one token the text of the Q6K repacked batch kernel leaves the last two unwritten.
      Its callers never pass such a shape: they repack only multiples of four rows. */
  lemma RepackedLeavesRows(job: W.Job)
    requires IsGridJob(BatchQuadsRepacked(6, 1, 6), job)
    ensures !W.Covers(job, 4) && !W.Covers(job, 5)
  {
    var g := BatchQuadsRepacked(6, 1, 6);
    GridCovers(g, job, 4, 0);
    GridCovers(g, job, 5, 0);
  }

  // ---------- every interleaving ----------

  /** Jobs whose grids are valid and whose chunk counts fit the i32 counter. */
  ghost predicate GridsOk(grids: seq<Grid>, jobs: seq<W.Job>, n: nat) {
    && |grids| == |jobs|
    && forall r :: 0 <= r < |jobs| ==>
         grids[r].Valid() && IsGridJob(grids[r], jobs[r]) && TotalChunks(grids[r]) + n <= W.I32_MAX
  }

  lemma GridJobsOk(grids: seq<Grid>, jobs: seq<W.Job>, n: nat)
    requires GridsOk(grids, jobs, n)
    ensures W.JobsOk(jobs, n)
  {
    forall r | 0 <= r < |jobs|
      ensures W.Distinct(jobs[r]) && |jobs[r].chunks| + n <= W.I32_MAX
    {
      GridDistinct(grids[r], jobs[r]);
    }
    hide W.Distinct;
  }

  /** A moment of a run: thread i has returned from the closing wait of round r and not yet entered its
      next wait. */
  datatype Moment = Moment(grids: seq<Grid>, jobs: seq<W.Job>, n: nat, counter: int, out: map<nat, real>,
                           run: seq<W.State>, k: nat, i: nat, r: nat)
  {
    ghost predicate Valid() {
      && n > 1 && GridsOk(grids, jobs, n) && R.IsRun(jobs, n, counter, out, run) && k < |run| && i < n && r < |jobs|
      && i < |run[k].b.pc| && i < |run[k].b.returned|
      && run[k].b.pc[i] == W.B.Outside && run[k].b.returned[i] == 2 * r + 2
    }
  }

  /** There is such a moment for every thread and round, whatever the grids. */
  lemma MomentReached(grids: seq<Grid>, jobs: seq<W.Job>, n: nat, counter: int, out: map<nat, real>, i: nat, r: nat)
    returns (m: Moment)
    requires n > 1 && GridsOk(grids, jobs, n) && i < n && r < |jobs|
    ensures m.Valid() && m.grids == grids && m.jobs == jobs && m.n == n && m.i == i && m.r == r
  {
    GridJobsOk(grids, jobs, n);
    hide R.IsRun, W.JobsOk, GridsOk;
    var run, k := E.RoundReached(jobs, n, counter, out, i, r);
    m := Moment(grids, jobs, n, counter, out, run, k, i, r);
  }

  /** After the closing wait of round r, on every interleaving, each row the kernel writes holds its
      own product, for every token, having been written once; other rows were never touched. */
  lemma ConcurrentMatmul(m: Moment, val: (nat, nat) -> real, row: nat, token: nat)
    requires m.Valid() && row < m.grids[m.r].rows && token < m.grids[m.r].tokens
    requires Computes(m.grids[m.r], m.jobs[m.r], val)
    ensures var g, s := m.grids[m.r], m.run[m.k];
            var a := Address(g, row, token);
            && m.r < |s.logs|
            && if row < RowsWritten(g) then s.logs[m.r].hits[a] == 1 && a in s.out && s.out[a] == val(row, token)
               else s.logs[m.r].hits[a] == 0
  {
    var g, job := m.grids[m.r], m.jobs[m.r];
    var a := Address(g, row, token);
    GridJobsOk(m.grids, m.jobs, m.n);
    R.StealingComputes(m.jobs, m.n, m.counter, m.out, m.run, m.k, m.i, m.r, a);
    GridCovers(g, job, row, token);
    hide W.Covers, R.IsRun, W.JobsOk, Address, RowsWritten, Computes, R.HoldsCell, IsGridJob;
    if row < RowsWritten(g) {
      CellValue(g, job, val, m.run[m.k].out, row, token);
    }
  }
}
