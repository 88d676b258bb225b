/** What a forward pass does to the KV cache (src/inference/forward.rs, forward_batch.rs,
    forward_batch_layer.rs, forward_graph.rs, forward_graph_layer.rs): every layer stores the rows of the
    new tokens at the current position, keys rotated by the RoPE row of their position, then the position
    advances. The rows themselves are parameters. */
module Forward {
  import opened Arithmetic
  import opened KvCache

  /** Key or value rows by layer and position. */
  type LayerRows = nat -> Rows

  // ---------- RoPE tables ----------

  /** Pre-baked (cos, sin) pairs, `positions` rows of `half` for each attention type. */
  datatype Rope = Rope(positions: nat, halfSwa: nat, halfGlobal: nat, swa: seq<(real, real)>, global: seq<(real, real)>)
  {
    predicate Valid() {
      |swa| == Product(positions, halfSwa) && |global| == Product(positions, halfGlobal)
    }

    /** rope_slices: panics outside the tables. */
    function Slices(isSwa: bool, pos: nat): (s: seq<(real, real)>)
      requires Valid() && pos < positions
      ensures |s| == if isSwa then halfSwa else halfGlobal
    {
      BatchIn(positions, halfSwa, pos);
      BatchIn(positions, halfGlobal, pos);
      if isSwa then swa[Product(pos, halfSwa)..Product(pos + 1, halfSwa)]
      else global[Product(pos, halfGlobal)..Product(pos + 1, halfGlobal)]
    }
  }

  /** What the passes compute with. `rotate` applies a RoPE row to a key row. */
  datatype Model = Model(f16: real -> nat, rope: Rope, rotate: (seq<real>, seq<(real, real)>) -> seq<real>,
                         keys: LayerRows, values: LayerRows)

  ghost predicate Fits(m: Model, c: Cache) {
    && c.Shaped() && m.rope.Valid() && m.rope.positions == c.maxSeqLen
    && (forall x, r :: |m.rotate(x, r)| == |x|)
    && forall l: nat, t: nat :: l < |c.headDimV| ==> |m.keys(l)(t)| == |m.values(l)(t)| == c.Stride(l)
  }

  /** A layer's rotated keys by position. */
  function Rotated(m: Model, isSwa: bool, l: nat): Rows
    requires m.rope.Valid()
  {
    (t: nat) => if t < m.rope.positions then m.rotate(m.keys(l)(t), m.rope.Slices(isSwa, t)) else m.keys(l)(t)
  }

  ghost function KeyHistory(m: Model, c: Cache, l: nat, from: nat, n: nat): seq<Row>
    requires m.rope.Valid() && l < |c.attnTypes|
  {
    History(m.f16, Rotated(m, c.attnTypes[l].SlidingWindow?, l), from, n)
  }

  /** Layer l's buffers hold exactly the history of the first `count` tokens. */
  ghost predicate LayerHolds(m: Model, c: Cache, l: nat, kb: Row, vb: Row, count: nat)
    requires Fits(m, c) && l < |c.headDimV|
  {
    c.Owns(l) ==>
      && Holds(kb, c.attnTypes[l], c.windowSize, c.Stride(l), KeyHistory(m, c, l, 0, count))
      && Holds(vb, c.attnTypes[l], c.windowSize, c.Stride(l), History(m.f16, m.values(l), 0, count))
  }

  /** The cache agrees with the history of all tokens processed so far. */
  ghost predicate Remembers(m: Model, c: Cache)
    requires Fits(m, c)
    reads c
  {
    c.Valid() && forall l: nat :: l < |c.headDimV| ==> LayerHolds(m, c, l, c.k[l], c.v[l], c.seqLen)
  }

  /** The n tokens from position pos fit. */
  ghost predicate Room(c: Cache, pos: nat, n: nat)
    requires c.Shaped()
  {
    pos + n <= c.maxSeqLen && forall l: nat :: l < |c.headDimV| ==> c.HasRoom(l, pos, n)
  }

  lemma RoomPart(c: Cache, pos: nat, n: nat, start: nat, part: nat)
    requires c.Shaped() && Room(c, pos, n) && start + part <= n
    ensures Room(c, pos + start, part)
  {
    var from := pos + start;
    forall l: nat | l < |c.headDimV|
      ensures c.HasRoom(l, from, part)
    {
      assert c.HasRoom(l, pos, n);
    }
  }

  // ---------- one layer ----------

  /** Storing the next rows extends the history a layer holds. */
  lemma LayerMore(m: Model, c: Cache, l: nat, k0: seq<Row>, v0: seq<Row>, k1: seq<Row>, v1: seq<Row>, count: nat, n: nat)
    requires Fits(m, c) && l < |c.headDimV| == |k0| == |v0| && c.Owns(l) && LayerHolds(m, c, l, k0[l], v0[l], count)
    requires c.Stored(k0, v0, k1, v1, l, count, KeyHistory(m, c, l, count, n), History(m.f16, m.values(l), count, n))
    ensures |k1| == |v1| == |k0| && LayerHolds(m, c, l, k1[l], v1[l], count + n)
    ensures forall j: nat :: j < |k0| && j != l ==> k1[j] == k0[j] && v1[j] == v0[j]
  {
    var t, w, stride := c.attnTypes[l], c.windowSize, c.Stride(l);
    hide Holds, RowsFit, WriteRows, History, Fits;
    assert |KeyHistory(m, c, l, 0, count)| == count && |History(m.f16, m.values(l), 0, count)| == count;
    HoldsMore(k0[l], t, w, stride, KeyHistory(m, c, l, 0, count), KeyHistory(m, c, l, count, n));
    HoldsMore(v0[l], t, w, stride, History(m.f16, m.values(l), 0, count), History(m.f16, m.values(l), count, n));
    HistoryAppend(m.f16, Rotated(m, t.SlidingWindow?, l), count, n);
    HistoryAppend(m.f16, m.values(l), count, n);
  }

  /** The rotated keys of n tokens, end to end; every RoPE row read exists. */
  method KeyBatch(m: Model, isSwa: bool, l: nat, from: nat, n: nat) returns (b: seq<real>)
    requires m.rope.Valid() && from + n <= m.rope.positions
    ensures b == Flat(Rotated(m, isSwa, l), from, n)
  {
    b := [];
    for t := 0 to n
      invariant b == Flat(Rotated(m, isSwa, l), from, t)
    {
      b := b + m.rotate(m.keys(l)(from + t), m.rope.Slices(isSwa, from + t));
    }
  }

  lemma RowLengths(m: Model, c: Cache, l: nat)
    requires Fits(m, c) && l < |c.headDimV|
    ensures forall t: nat :: |m.values(l)(t)| == c.Stride(l)
    ensures forall t: nat :: |Rotated(m, c.attnTypes[l].SlidingWindow?, l)(t)| == c.Stride(l)
  {
  }

  /** Layers below l have stored up to `count + n` tokens, the others still `count`. */
  ghost predicate Progress(m: Model, c: Cache, ks: seq<Row>, vs: seq<Row>, l: nat, count: nat, n: nat)
    requires Fits(m, c) && |ks| == |vs| == |c.headDimV|
  {
    forall j: nat :: j < |c.headDimV| ==> LayerHolds(m, c, j, ks[j], vs[j], if j < l then count + n else count)
  }

  /** store_batch of one layer in a chunk. */
  method BatchLayer(m: Model, c: Cache, l: nat, n: nat)
    requires Fits(m, c) && c.Valid() && l < |c.headDimV| && Room(c, c.seqLen, n)
    requires Progress(m, c, c.k, c.v, l, c.seqLen, n)
    modifies c`k, c`v
    ensures c.Valid() && Progress(m, c, c.k, c.v, l + 1, c.seqLen, n)
  {
    hide Fits, Flat, RowsOf, History, Rotated, Holds, RowsFit, WriteRows, Rope.Valid, Rope.Slices;
    BatchReady(m, c, l, n);
    var kBatch := KeyBatch(m, c.attnTypes[l].SlidingWindow?, l, c.seqLen, n);
    c.StoreBatch(m.f16, l, kBatch, Flat(m.values(l), c.seqLen, n), n);
    if c.Owns(l) {
      LayerMore(m, c, l, old(c.k), old(c.v), c.k, c.v, c.seqLen, n);
    }
    hide LayerHolds;
  }

  lemma BatchReady(m: Model, c: Cache, l: nat, n: nat)
    requires Fits(m, c) && l < |c.headDimV| && Room(c, c.seqLen, n)
    ensures c.HasRoom(l, c.seqLen, n) && m.rope.Valid() && c.seqLen + n <= m.rope.positions
    ensures var keys := Rotated(m, c.attnTypes[l].SlidingWindow?, l);
            && |Flat(keys, c.seqLen, n)| == |Flat(m.values(l), c.seqLen, n)| == Product(n, c.Stride(l))
            && RowsOf(m.f16, Flat(keys, c.seqLen, n), c.Stride(l), n) == KeyHistory(m, c, l, c.seqLen, n)
            && RowsOf(m.f16, Flat(m.values(l), c.seqLen, n), c.Stride(l), n) == History(m.f16, m.values(l), c.seqLen, n)
  {
    RowLengths(m, c, l);
    FlatRows(m.f16, Rotated(m, c.attnTypes[l].SlidingWindow?, l), c.seqLen, n, c.Stride(l));
    FlatRows(m.f16, m.values(l), c.seqLen, n, c.Stride(l));
    hide Flat, RowsOf, History, Rotated;
  }

  // ---------- what attention reads ----------

  /** Slot p of owner s holds the rows of token t, the key rotated for position t. */
  ghost predicate RowAt(m: Model, c: Cache, s: nat, p: nat, t: nat)
    requires Fits(m, c) && s < |c.headDimV| == |c.k| == |c.v|
    reads c
  {
    && SlotFits(c.k[s], c.Stride(s), p) && SlotFits(c.v[s], c.Stride(s), p)
    && Slot(c.k[s], c.Stride(s), p) == Half(m.f16, Rotated(m, c.attnTypes[s].SlidingWindow?, s)(t))
    && Slot(c.v[s], c.Stride(s), p) == Half(m.f16, m.values(s)(t))
  }

  /** Token t, counted with the current one at seq_len, is among the last attn_len. */
  ghost predicate InWindow(c: Cache, l: nat, t: nat)
    requires c.Shaped() && l < |c.headDimV| && c.Source(l) < |c.attnTypes|
    reads c`seqLen
  {
    c.seqLen + 1 - c.AttnLen(l) <= t <= c.seqLen
  }

  /** Token t of the window is found at its place among the slots layer l reads, with its source's rows. */
  ghost predicate TokenFound(m: Model, c: Cache, l: nat, t: nat)
    requires Fits(m, c) && l < |c.headDimV| == |c.k| == |c.v| && c.Source(l) < |c.headDimV|
    reads c
  {
    var s := c.Source(l);
    && (c.attnTypes[s].SlidingWindow? ==> 0 < c.windowSize)
    && Place(c.attnTypes[s], c.windowSize, t) < c.AttnLen(l)
    && RowAt(m, c, s, Place(c.attnTypes[s], c.windowSize, t), t)
  }

  /** Slot p is the place of some token of the window. */
  ghost predicate SlotUsed(c: Cache, l: nat, p: nat)
    requires c.Shaped() && l < |c.headDimV| && c.Source(l) < |c.headDimV|
    reads c`seqLen
  {
    var s := c.Source(l);
    && (c.attnTypes[s].SlidingWindow? ==> 0 < c.windowSize)
    && exists t: nat :: InWindow(c, l, t) && p == Place(c.attnTypes[s], c.windowSize, t)
  }

  /** The first attn_len slots that layer l reads are those of its source, one for each token of the
      window and no others. */
  ghost predicate ReadsWindow(m: Model, c: Cache, l: nat)
    requires Fits(m, c) && l < |c.headDimV| == |c.k| == |c.v| && c.Source(l) < |c.headDimV|
    reads c
  {
    && (forall t: nat :: InWindow(c, l, t) ==> TokenFound(m, c, l, t))
    && (forall p: nat :: p < c.AttnLen(l) ==> SlotUsed(c, l, p))
  }

  lemma OwnerFinds(m: Model, c: Cache, l: nat, s: nat, t: nat)
    requires Fits(m, c) && c.Valid() && l < |c.headDimV| && s == c.Source(l) < |c.headDimV| && c.Owns(s)
    requires LayerHolds(m, c, s, c.k[s], c.v[s], c.seqLen + 1) && InWindow(c, l, t)
    ensures TokenFound(m, c, l, t)
  {
    WindowPositive(m, c, s);
    if c.attnTypes[s].SlidingWindow? {
      WindowInRing(c.windowSize, c.seqLen + 1, t);
    }
    FoundAt(m, c, s, t);
    hide RowAt, LayerHolds, Fits, Rotated;
  }

  lemma OwnerUses(m: Model, c: Cache, l: nat, s: nat, p: nat)
    requires Fits(m, c) && c.Valid() && l < |c.headDimV| && s == c.Source(l) < |c.headDimV| && c.Owns(s)
    requires LayerHolds(m, c, s, c.k[s], c.v[s], c.seqLen + 1) && p < c.AttnLen(l)
    ensures SlotUsed(c, l, p)
  {
    WindowPositive(m, c, s);
    hide LayerHolds, Fits;
    var t: nat := p;
    if c.attnTypes[s].SlidingWindow? {
      t := RingWindow(c.windowSize, c.seqLen + 1, p);
    }
    assert InWindow(c, l, t);
  }

  /** An owner that holds the current token's rows too. */
  lemma OwnerReads(m: Model, c: Cache, l: nat, s: nat)
    requires Fits(m, c) && c.Valid() && l < |c.headDimV| && s == c.Source(l) < |c.headDimV| && c.Owns(s)
    requires LayerHolds(m, c, s, c.k[s], c.v[s], c.seqLen + 1)
    ensures ReadsWindow(m, c, l)
  {
    hide TokenFound, SlotUsed, InWindow, LayerHolds, Fits;
    forall t: nat | InWindow(c, l, t)
      ensures TokenFound(m, c, l, t)
    {
      OwnerFinds(m, c, l, s, t);
    }
    forall p: nat | p < c.AttnLen(l)
      ensures SlotUsed(c, l, p)
    {
      OwnerUses(m, c, l, s, p);
    }
  }

  lemma WindowPositive(m: Model, c: Cache, s: nat)
    requires Fits(m, c) && c.Valid() && s < |c.headDimV| && c.Owns(s)
    requires LayerHolds(m, c, s, c.k[s], c.v[s], c.seqLen + 1)
    ensures c.attnTypes[s].SlidingWindow? ==> 0 < c.windowSize
  {
    var n, w, stride := c.seqLen + 1, c.windowSize, c.Stride(s);
    HeldRow(c.v[s], c.attnTypes[s], w, stride, History(m.f16, m.values(s), 0, n), n - 1);
    hide Fits, Half, Rotated, RowsFit, WriteRows;
  }

  /** A recent token's rows are at its place. */
  lemma FoundAt(m: Model, c: Cache, s: nat, t: nat)
    requires Fits(m, c) && c.Valid() && s < |c.headDimV| && c.Owns(s)
    requires LayerHolds(m, c, s, c.k[s], c.v[s], c.seqLen + 1)
    requires t <= c.seqLen && (c.attnTypes[s].SlidingWindow? ==> 0 < c.windowSize && c.seqLen < t + c.windowSize)
    ensures RowAt(m, c, s, Place(c.attnTypes[s], c.windowSize, t), t)
  {
    var n, w, stride := c.seqLen + 1, c.windowSize, c.Stride(s);
    var ks, vs := KeyHistory(m, c, s, 0, n), History(m.f16, m.values(s), 0, n);
    assert ks[t] == Half(m.f16, Rotated(m, c.attnTypes[s].SlidingWindow?, s)(t)) && vs[t] == Half(m.f16, m.values(s)(t));
    HeldRow(c.k[s], c.attnTypes[s], w, stride, ks, t);
    HeldRow(c.v[s], c.attnTypes[s], w, stride, vs, t);
    hide Fits, Slot, Half, Rotated, Holds, History, RowsFit, WriteRows;
  }

  /** A buffer that holds a history has a token's row at its place, if it is not overwritten yet. */
  lemma HeldRow(buf: Row, t: AttnType, w: nat, stride: nat, rows: seq<Row>, k: nat)
    requires Holds(buf, t, w, stride, rows) && k < |rows| && (t.SlidingWindow? ==> |rows| <= k + w)
    ensures t.SlidingWindow? ==> 0 < w
    ensures SlotFits(buf, stride, Place(t, w, k)) && Slot(buf, stride, Place(t, w, k)) == rows[k]
  {
    WindowOk(Zeros(|buf|), t, w, stride, 0, rows);
    if t.SlidingWindow? {
      RingSlots(Zeros(|buf|), w, stride, rows, k);
    } else {
      GlobalSlots(Zeros(|buf|), w, stride, rows, k);
    }
    hide RowsFit, WriteRows, Slot;
  }

  /** Right after layer l of a decode step has stored, its attention reads the window of its source,
      whether l owns its rows or shares those of an earlier layer. */
  lemma StepReads(m: Model, c: Cache, l: nat)
    requires Fits(m, c) && c.Valid() && c.Resolved() && l < |c.headDimV|
    requires Progress(m, c, c.k, c.v, l + 1, c.seqLen, 1)
    ensures c.Source(l) <= l && c.Owns(c.Source(l)) && ReadsWindow(m, c, l)
  {
    hide LayerHolds, Fits, ReadsWindow, RowAt;
    var s := c.Source(l);
    assert c.Source(l) <= l && c.Owns(c.Source(l));
    assert LayerHolds(m, c, s, c.k[s], c.v[s], c.seqLen + 1);
    OwnerReads(m, c, l, s);
  }

  /** One layer of a decode step: store, then attention, which reads exactly the window of the layer's
      source. */
  method DecodeLayer(m: Model, c: Cache, l: nat)
    requires Fits(m, c) && c.Valid() && c.Resolved() && l < |c.headDimV| && Room(c, c.seqLen, 1)
    requires Progress(m, c, c.k, c.v, l, c.seqLen, 1)
    modifies c`k, c`v
    ensures c.Valid() && Progress(m, c, c.k, c.v, l + 1, c.seqLen, 1)
    ensures c.Source(l) <= l && ReadsWindow(m, c, l)
  {
    hide Fits, History, Rotated, Holds, RowsFit, WriteRows, Half, Rope.Valid, Rope.Slices;
    TokenReady(m, c, l);
    var isSwa, pos := c.attnTypes[l].SlidingWindow?, c.seqLen;
    var kRow := m.rotate(m.keys(l)(pos), m.rope.Slices(isSwa, pos));
    c.Store(m.f16, l, kRow, m.values(l)(pos));
    if c.Owns(l) {
      LayerMore(m, c, l, old(c.k), old(c.v), c.k, c.v, c.seqLen, 1);
    }
    hide LayerHolds, ReadsWindow;
    StepReads(m, c, l);
  }

  lemma TokenReady(m: Model, c: Cache, l: nat)
    requires Fits(m, c) && l < |c.headDimV| && Room(c, c.seqLen, 1)
    ensures c.HasRoom(l, c.seqLen, 1) && m.rope.Valid() && c.seqLen < m.rope.positions
    ensures var isSwa, pos := c.attnTypes[l].SlidingWindow?, c.seqLen;
            var kRow := m.rotate(m.keys(l)(pos), m.rope.Slices(isSwa, pos));
            && |kRow| == |m.values(l)(pos)| == c.Stride(l)
            && [Half(m.f16, kRow)] == KeyHistory(m, c, l, pos, 1)
            && [Half(m.f16, m.values(l)(pos))] == History(m.f16, m.values(l), pos, 1)
  {
    RowLengths(m, c, l);
    var isSwa, pos := c.attnTypes[l].SlidingWindow?, c.seqLen;
    assert m.rotate(m.keys(l)(pos), m.rope.Slices(isSwa, pos)) == Rotated(m, isSwa, l)(pos);
    hide Half, Rope.Slices;
  }

  // ---------- the passes ----------

  /** forward_batch_inner: n tokens through every layer, then the position advances by n. */
  method ForwardChunk(m: Model, c: Cache, n: nat)
    requires Fits(m, c) && Remembers(m, c) && Room(c, c.seqLen, n)
    modifies c
    ensures Fits(m, c) && Remembers(m, c) && c.seqLen == old(c.seqLen) + n
  {
    hide LayerHolds, Rope.Valid;
    for l := 0 to |c.headDimV|
      invariant c.Valid() && c.seqLen == old(c.seqLen) && Fits(m, c)
      invariant Progress(m, c, c.k, c.v, l, c.seqLen, n)
    {
      BatchLayer(m, c, l, n);
    }
    c.AdvanceN(n);
  }

  /** forward_one_inner: one token. */
  method ForwardOne(m: Model, c: Cache)
    requires Fits(m, c) && Remembers(m, c) && c.Resolved() && Room(c, c.seqLen, 1)
    modifies c
    ensures Fits(m, c) && Remembers(m, c) && c.seqLen == old(c.seqLen) + 1
  {
    hide LayerHolds, Rope.Valid, ReadsWindow, Cache.Resolved;
    for l := 0 to |c.headDimV|
      invariant c.Valid() && c.seqLen == old(c.seqLen) && Fits(m, c)
      invariant Progress(m, c, c.k, c.v, l, c.seqLen, 1)
    {
      DecodeLayer(m, c, l);
    }
    c.Advance();
  }

  /** forward_batch: between one and `maxBatch` tokens, split into chunks of `ubatch` (usize::MAX: no
      split). The resulting cache does not depend on the split. Not ok is a failed assertion: a panic. */
  method ForwardBatch(m: Model, c: Cache, nTokens: nat, maxBatch: nat, ubatchSetting: nat) returns (ok: bool)
    requires 0 < ubatchSetting && Fits(m, c) && Remembers(m, c) && Room(c, c.seqLen, nTokens)
    modifies c
    ensures ok <==> 0 < nTokens <= maxBatch
    ensures Fits(m, c) && Remembers(m, c) && c.seqLen == old(c.seqLen) + if ok then nTokens else 0
  {
    if nTokens == 0 || nTokens > maxBatch {
      return false;
    }
    var ubatch := Min(ubatchSetting, nTokens);
    var start := 0;
    while start < nTokens
      invariant start <= nTokens && Remembers(m, c) && c.seqLen == old(c.seqLen) + start
    {
      var end := Min(start + ubatch, nTokens);
      RoomPart(c, old(c.seqLen), nTokens, start, end - start);
      ForwardChunk(m, c, end - start);
      start := end;
    }
    ok := true;
  }

  /** Two caches of the same shape that remember the same tokens are equal, whatever mix of batches and
      single tokens filled them. */
  lemma SameCache(m: Model, a: Cache, b: Cache)
    requires Fits(m, a) && Fits(m, b) && Remembers(m, a) && Remembers(m, b) && a.seqLen == b.seqLen
    requires a.attnTypes == b.attnTypes && a.sharedSource == b.sharedSource && a.headDimV == b.headDimV
    requires a.windowSize == b.windowSize && a.nKvHeads == b.nKvHeads && a.maxSeqLen == b.maxSeqLen
    ensures a.k == b.k && a.v == b.v
  {
    forall l: nat | l < |a.headDimV|
      ensures a.k[l] == b.k[l] && a.v[l] == b.v[l]
    {
      assert a.SizedLayer(l, a.k[l], a.v[l]) && b.SizedLayer(l, b.k[l], b.v[l]);
      assert LayerHolds(m, a, l, a.k[l], a.v[l], a.seqLen) && LayerHolds(m, b, l, b.k[l], b.v[l], b.seqLen);
    }
  }

  /** After `reset` the cache remembers nothing, like a new one. */
  lemma FreshRemembers(m: Model, c: Cache)
    requires Fits(m, c) && c.Valid() && c.seqLen == 0
    requires forall l: nat :: l < |c.headDimV| && c.Owns(l) && c.attnTypes[l].SlidingWindow? ==> 0 < c.windowSize
    requires forall l: nat :: l < |c.k| ==> c.k[l] == Zeros(|c.k[l]|) && c.v[l] == Zeros(|c.v[l]|)
    ensures Remembers(m, c)
  {
    forall l: nat | l < |c.headDimV|
      ensures LayerHolds(m, c, l, c.k[l], c.v[l], 0)
    {
      assert c.k[l] == Zeros(|c.k[l]|);
      assert KeyHistory(m, c, l, 0, 0) == [] && History(m.f16, m.values(l), 0, 0) == [];
    }
  }
}
