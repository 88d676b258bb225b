/** The cache, element by element (src/inference/cache.rs, src/inference/forward.rs,
    src/inference/engine_helpers.rs): where each half-precision number of each token's key and value lies, and
    from which table entries the key was rotated. */
module CacheLaws {
  import opened Arithmetic
  import opened KvCache
  import opened Forward
  import opened Options
  import SharedKv

  // ---------- RoPE rows ----------

  /** `row` is the row of position pos in the table of the layer's attention type. */
  ghost predicate IsRopeRow(rope: Rope, isSwa: bool, pos: nat, row: seq<(real, real)>) {
    if isSwa then
      |row| == rope.halfSwa && forall i: nat :: i < |row| ==>
        Product(pos, rope.halfSwa) + i < |rope.swa| && row[i] == rope.swa[Product(pos, rope.halfSwa) + i]
    else
      |row| == rope.halfGlobal && forall i: nat :: i < |row| ==>
        Product(pos, rope.halfGlobal) + i < |rope.global| && row[i] == rope.global[Product(pos, rope.halfGlobal) + i]
  }

  /** rope_slices returns it, for every position the tables cover. */
  lemma SlicesAre(rope: Rope, isSwa: bool, pos: nat, row: seq<(real, real)>)
    requires rope.Valid() && pos < rope.positions
    ensures IsRopeRow(rope, isSwa, pos, row) <==> row == rope.Slices(isSwa, pos)
  {
    BatchIn(rope.positions, rope.halfSwa, pos);
    BatchIn(rope.positions, rope.halfGlobal, pos);
    var s := rope.Slices(isSwa, pos);
    if IsRopeRow(rope, isSwa, pos, row) {
      assert forall i: nat :: i < |row| ==> row[i] == s[i];
    }
  }

  // ---------- slots ----------

  /** Slot p of a layer's key and value buffers, of `stride` numbers each, holds these rows, number by number in
      half precision. */
  ghost predicate HoldsRow(f16: real -> nat, kb: Row, vb: Row, stride: nat, p: nat, key: seq<real>, value: seq<real>) {
    && |key| == |value| == stride
    && Product(p, stride) + stride <= |kb| && Product(p, stride) + stride <= |vb|
    && forall i: nat :: i < stride ==>
         kb[Product(p, stride) + i] == f16(key[i]) && vb[Product(p, stride) + i] == f16(value[i])
  }

  lemma SlotIs(f16: real -> nat, buf: Row, stride: nat, p: nat, x: seq<real>)
    requires SlotFits(buf, stride, p) && Slot(buf, stride, p) == Half(f16, x)
    ensures |x| == stride && Product(p, stride) + stride <= |buf|
    ensures forall i: nat :: i < stride ==> buf[Product(p, stride) + i] == f16(x[i])
  {
    Succ(p, stride);
    var s := Slot(buf, stride, p);
    forall i: nat | i < stride
      ensures buf[Product(p, stride) + i] == f16(x[i])
    {
      assert s[i] == buf[Product(p, stride) + i];
    }
  }

  /** Token t's key and value as the forward pass stores them for layer s. */
  lemma RowAtIs(m: Model, c: Cache, s: nat, p: nat, t: nat, row: seq<(real, real)>)
    requires Fits(m, c) && s < |c.headDimV| == |c.k| == |c.v| && t < c.maxSeqLen && RowAt(m, c, s, p, t)
    requires IsRopeRow(m.rope, c.attnTypes[s].SlidingWindow?, t, row)
    ensures HoldsRow(m.f16, c.k[s], c.v[s], c.nKvHeads * c.headDimV[s], p, m.rotate(m.keys(s)(t), row), m.values(s)(t))
  {
    SlicesAre(m.rope, c.attnTypes[s].SlidingWindow?, t, row);
    var key := Rotated(m, c.attnTypes[s].SlidingWindow?, s)(t);
    assert key == m.rotate(m.keys(s)(t), row);
    SlotIs(m.f16, c.k[s], c.Stride(s), p, key);
    SlotIs(m.f16, c.v[s], c.Stride(s), p, m.values(s)(t));
    hide Fits, Rotated, IsRopeRow, Rope.Valid, Rope.Slices, Slot, Half;
  }

  // ---------- what attention reads, number by number ----------

  /** Right after layer l of a decode step has stored: for each token of the window, the slot attention reads
      for it (its position, modulo the window on a sliding layer) holds its value and its key, the key rotated
      by the table entries of its position. */
  lemma StepReadsRows(m: Model, c: Cache, l: nat, s: nat, t: nat, row: seq<(real, real)>)
    requires Fits(m, c) && c.Valid() && c.Resolved() && l < |c.headDimV| && c.seqLen < c.maxSeqLen
    requires Progress(m, c, c.k, c.v, l + 1, c.seqLen, 1)
    requires s == match c.sharedSource[l] { case Some(j) => j case None => l }
    requires s < |c.headDimV| && IsRopeRow(m.rope, c.attnTypes[s] == SlidingWindow, t, row)
    requires t <= c.seqLen && (c.attnTypes[s] == SlidingWindow ==> c.seqLen < t + c.windowSize)
    ensures var p := if c.attnTypes[s] == SlidingWindow then t % c.windowSize else t;
            && p < (if c.attnTypes[s] == SlidingWindow then Min(c.seqLen + 1, c.windowSize) else c.seqLen + 1)
            && HoldsRow(m.f16, c.k[s], c.v[s], c.nKvHeads * c.headDimV[s], p, m.rotate(m.keys(s)(t), row), m.values(s)(t))
  {
    StepReads(m, c, l);
    assert InWindow(c, l, t);
    assert TokenFound(m, c, l, t);
    RowAtIs(m, c, s, Place(c.attnTypes[s], c.windowSize, t), t, row);
    hide Fits, Progress, HoldsRow, IsRopeRow, RowAt, Cache.Valid, Cache.Resolved, ReadsWindow;
  }

  /** And after any pass every layer that keeps rows has those of every token still in its window. */
  lemma RemembersRows(m: Model, c: Cache, l: nat, t: nat, row: seq<(real, real)>)
    requires Fits(m, c) && Remembers(m, c) && l < |c.headDimV| && c.sharedSource[l] == None
    requires IsRopeRow(m.rope, c.attnTypes[l] == SlidingWindow, t, row)
    requires t < c.seqLen <= c.maxSeqLen && (c.attnTypes[l] == SlidingWindow ==> c.seqLen <= t + c.windowSize)
    ensures var p := if c.attnTypes[l] == SlidingWindow then t % c.windowSize else t;
            HoldsRow(m.f16, c.k[l], c.v[l], c.nKvHeads * c.headDimV[l], p, m.rotate(m.keys(l)(t), row), m.values(l)(t))
  {
    var n, w, stride := c.seqLen, c.windowSize, c.Stride(l);
    assert LayerHolds(m, c, l, c.k[l], c.v[l], n);
    var ks, vs := KeyHistory(m, c, l, 0, n), History(m.f16, m.values(l), 0, n);
    assert ks[t] == Half(m.f16, Rotated(m, c.attnTypes[l].SlidingWindow?, l)(t)) && vs[t] == Half(m.f16, m.values(l)(t));
    HeldRow(c.k[l], c.attnTypes[l], w, stride, ks, t);
    HeldRow(c.v[l], c.attnTypes[l], w, stride, vs, t);
    RowAtIs(m, c, l, Place(c.attnTypes[l], w, t), t, row);
    hide Fits, HoldsRow, IsRopeRow, Rotated, Half, Slot, Holds, History;
  }

  // ---------- sizes and sharing ----------

  /** A layer's buffers: nothing if it shares, else heads times slots times head dimension. */
  lemma BufferSizes(c: Cache, l: nat)
    requires c.Valid() && l < |c.headDimV|
    ensures |c.k[l]| == |c.v[l]| ==
              if c.sharedSource[l].Some? then 0
              else c.nKvHeads * (if c.attnTypes[l] == SlidingWindow then c.windowSize else c.maxSeqLen) * c.headDimV[l]
  {
    assert c.SizedLayer(l, c.k[l], c.v[l]);
    Capacity(c.nKvHeads, c.Slots(l), c.headDimV[l]);
  }

  /** Layer i reads layer j's rows exactly when i is one of the last `suffix` layers, j is not, and j is the
      last such layer of i's type. */
  lemma SharedMapIs(isSwa: seq<bool>, suffix: nat, r: seq<Option<nat>>, i: nat, j: nat)
    requires SharedKv.IsSharedMap(isSwa, suffix, r) && i < |isSwa|
    ensures |r| == |isSwa|
    ensures r[i] == Some(j) <==>
              && |isSwa| <= i + suffix && j + suffix < |isSwa| && isSwa[j] == isSwa[i]
              && forall k: nat :: j < k && k + suffix < |isSwa| ==> isSwa[k] != isSwa[i]
  {
    if |isSwa| <= i + suffix && j + suffix < |isSwa| && isSwa[j] == isSwa[i] && r[i].Some? {
      assert isSwa[r[i].value] == isSwa[i];
    }
  }
}
