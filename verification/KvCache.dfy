/** The KV cache (src/inference/cache.rs): sliding layers are rings of `window_size` slots, global layers
    linear, shared layers own nothing. The reference is the plain history of key and value rows. */
module KvCache {
  import opened Arithmetic
  import opened Options

  datatype AttnType = SlidingWindow | Global

  /** A stored key or value row: f16 bit patterns. */
  type Row = seq<nat>

  // ---------- rows and buffers ----------

  function Half(f16: real -> nat, x: seq<real>): (r: Row)
    ensures |r| == |x|
  {
    seq(|x|, i requires 0 <= i < |x| => f16(x[i]))
  }

  /** The slot a token's row goes to. */
  function Place(t: AttnType, window: nat, pos: nat): (p: nat)
    requires t.SlidingWindow? ==> 0 < window
  {
    if t.SlidingWindow? then pos % window else pos
  }

  predicate SlotFits(buf: Row, stride: nat, p: nat) {
    Product(p + 1, stride) <= |buf|
  }

  function Slot(buf: Row, stride: nat, p: nat): (r: Row)
    requires SlotFits(buf, stride, p)
    ensures |r| == stride
  {
    Succ(p, stride);
    buf[Product(p, stride)..Product(p + 1, stride)]
  }

  function Write(buf: Row, stride: nat, p: nat, row: Row): (r: Row)
    requires SlotFits(buf, stride, p) && |row| == stride
    ensures |r| == |buf|
  {
    Succ(p, stride);
    buf[..Product(p, stride)] + row + buf[Product(p + 1, stride)..]
  }

  /** Writing one slot sets it and leaves every other slot alone. */
  lemma WriteSlot(buf: Row, stride: nat, p: nat, row: Row, q: nat)
    requires SlotFits(buf, stride, p) && SlotFits(buf, stride, q) && |row| == stride
    ensures Slot(Write(buf, stride, p, row), stride, q) == if q == p then row else Slot(buf, stride, q)
  {
    Succ(p, stride);
    Succ(q, stride);
    if q < p {
      MulMono(q + 1, p, stride);
    } else if p < q {
      MulMono(p + 1, q, stride);
    }
    Splice(buf, Product(p, stride), row, Product(q, stride));
  }

  lemma Splice(buf: Row, x: nat, row: Row, y: nat)
    requires x + |row| <= |buf| && y + |row| <= |buf|
    requires x == y || y + |row| <= x || x + |row| <= y
    ensures (buf[..x] + row + buf[x + |row|..])[y..y + |row|] == if x == y then row else buf[y..y + |row|]
  {
  }

  predicate RowFits(buf: Row, t: AttnType, window: nat, stride: nat, pos: nat, row: Row)
    requires t.SlidingWindow? ==> 0 < window
  {
    |row| == stride && SlotFits(buf, stride, Place(t, window, pos))
  }

  ghost predicate RowsFit(buf: Row, t: AttnType, window: nat, stride: nat, from: nat, rows: seq<Row>) {
    && (t.SlidingWindow? ==> 0 < window)
    && forall i: nat :: i < |rows| ==> RowFits(buf, t, window, stride, from + i, rows[i])
  }

  /** The buffer after the rows of tokens from, from + 1, ... are stored one by one. */
  ghost function WriteRows(buf: Row, t: AttnType, window: nat, stride: nat, from: nat, rows: seq<Row>): (r: Row)
    requires RowsFit(buf, t, window, stride, from, rows)
    ensures |r| == |buf|
  {
    if rows == [] then buf
    else
      var n := |rows| - 1;
      FitPrefix(buf, t, window, stride, from, rows, n);
      assert RowFits(buf, t, window, stride, from + n, rows[n]);
      Write(WriteRows(buf, t, window, stride, from, rows[..n]), stride, Place(t, window, from + n), rows[n])
  }

  /** Storing in two batches is storing in one. */
  lemma {:induction false} WriteRowsAppend(buf: Row, t: AttnType, window: nat, stride: nat, from: nat, a: seq<Row>, b: seq<Row>)
    requires RowsFit(buf, t, window, stride, from, a + b)
    ensures RowsFit(buf, t, window, stride, from, a)
    ensures RowsFit(WriteRows(buf, t, window, stride, from, a), t, window, stride, from + |a|, b)
    ensures WriteRows(WriteRows(buf, t, window, stride, from, a), t, window, stride, from + |a|, b)
            == WriteRows(buf, t, window, stride, from, a + b)
  {
    hide WriteRows, RowsFit, RowFits, Write;
    FitParts(buf, t, window, stride, from, a, b);
    var mid := WriteRows(buf, t, window, stride, from, a);
    FitElsewhere(buf, mid, t, window, stride, from + |a|, b);
    if b == [] {
      AppendNone(buf, mid, t, window, stride, from, a, b);
    } else {
      var b', x := b[..|b| - 1], b[|b| - 1];
      AppendLast(a, b', x, b);
      var ab' := a + b';
      WriteRowsSnoc(buf, t, window, stride, from, ab', x);
      WriteRowsAppend(buf, t, window, stride, from, a, b');
      WriteRowsSnoc(mid, t, window, stride, from + |a|, b', x);
      assert from + |ab'| == from + |a| + |b'|;
    }
  }

  lemma AppendLast(a: seq<Row>, b': seq<Row>, x: Row, b: seq<Row>)
    requires b != [] && b' == b[..|b| - 1] && x == b[|b| - 1]
    ensures b == b' + [x] && a + b == (a + b') + [x]
  {
  }

  lemma AppendNone(buf: Row, mid: Row, t: AttnType, window: nat, stride: nat, from: nat, a: seq<Row>, b: seq<Row>)
    requires b == [] && RowsFit(buf, t, window, stride, from, a) && mid == WriteRows(buf, t, window, stride, from, a)
    ensures RowsFit(mid, t, window, stride, from + |a|, b) && RowsFit(buf, t, window, stride, from, a + b)
    ensures WriteRows(mid, t, window, stride, from + |a|, b) == WriteRows(buf, t, window, stride, from, a + b)
  {
    assert a + b == a;
  }

  lemma WriteRowsSnoc(buf: Row, t: AttnType, window: nat, stride: nat, from: nat, rows: seq<Row>, row: Row)
    requires RowsFit(buf, t, window, stride, from, rows + [row])
    ensures RowsFit(buf, t, window, stride, from, rows) && RowFits(buf, t, window, stride, from + |rows|, row)
    ensures WriteRows(buf, t, window, stride, from, rows + [row])
            == Write(WriteRows(buf, t, window, stride, from, rows), stride, Place(t, window, from + |rows|), row)
  {
    var all := rows + [row];
    assert all[..|rows|] == rows && all[|rows|] == row;
    FitPrefix(buf, t, window, stride, from, all, |rows|);
    assert RowFits(buf, t, window, stride, from + |rows|, all[|rows|]);
  }

  lemma FitParts(buf: Row, t: AttnType, window: nat, stride: nat, from: nat, a: seq<Row>, b: seq<Row>)
    requires RowsFit(buf, t, window, stride, from, a + b)
    ensures RowsFit(buf, t, window, stride, from, a) && RowsFit(buf, t, window, stride, from + |a|, b)
  {
    forall i: nat | i < |a|
      ensures RowFits(buf, t, window, stride, from + i, a[i])
    {
      assert RowFits(buf, t, window, stride, from + i, (a + b)[i]);
    }
    forall i: nat | i < |b|
      ensures RowFits(buf, t, window, stride, from + |a| + i, b[i])
    {
      assert RowFits(buf, t, window, stride, from + (|a| + i), (a + b)[|a| + i]);
    }
  }

  lemma FitElsewhere(buf: Row, buf': Row, t: AttnType, window: nat, stride: nat, from: nat, rows: seq<Row>)
    requires RowsFit(buf, t, window, stride, from, rows) && |buf'| == |buf|
    ensures RowsFit(buf', t, window, stride, from, rows)
  {
    forall i: nat | i < |rows|
      ensures RowFits(buf', t, window, stride, from + i, rows[i])
    {
      assert RowFits(buf, t, window, stride, from + i, rows[i]);
    }
  }

  lemma FitPrefix(buf: Row, t: AttnType, window: nat, stride: nat, from: nat, rows: seq<Row>, n: nat)
    requires RowsFit(buf, t, window, stride, from, rows) && n <= |rows|
    ensures RowsFit(buf, t, window, stride, from, rows[..n])
  {
    forall i: nat | i < n
      ensures RowFits(buf, t, window, stride, from + i, rows[..n][i])
    {
      assert RowFits(buf, t, window, stride, from + i, rows[i]);
    }
  }

  // ---------- agreement with the history ----------

  /** A global layer's slots are the whole history, in order. */
  lemma {:induction false} GlobalSlots(buf: Row, window: nat, stride: nat, rows: seq<Row>, t: nat)
    requires RowsFit(buf, Global, window, stride, 0, rows) && t < |rows|
    ensures SlotFits(buf, stride, t) && Slot(WriteRows(buf, Global, window, stride, 0, rows), stride, t) == rows[t]
  {
    var n := |rows| - 1;
    assert RowFits(buf, Global, window, stride, 0 + t, rows[t]);
    assert RowFits(buf, Global, window, stride, 0 + n, rows[n]);
    FitPrefix(buf, Global, window, stride, 0, rows, n);
    WriteSlot(WriteRows(buf, Global, window, stride, 0, rows[..n]), stride, n, rows[n], t);
    if t < n {
      GlobalSlots(buf, window, stride, rows[..n], t);
    }
    hide Write, Slot;
  }

  /** A sliding layer's slot t mod window holds token t's row as long as t is among the last `window`. */
  lemma {:induction false} RingSlots(buf: Row, window: nat, stride: nat, rows: seq<Row>, t: nat)
    requires RowsFit(buf, SlidingWindow, window, stride, 0, rows) && t < |rows| <= t + window
    ensures SlotFits(buf, stride, t % window)
    ensures Slot(WriteRows(buf, SlidingWindow, window, stride, 0, rows), stride, t % window) == rows[t]
  {
    var n := |rows| - 1;
    assert RowFits(buf, SlidingWindow, window, stride, 0 + t, rows[t]);
    assert RowFits(buf, SlidingWindow, window, stride, 0 + n, rows[n]);
    FitPrefix(buf, SlidingWindow, window, stride, 0, rows, n);
    WriteSlot(WriteRows(buf, SlidingWindow, window, stride, 0, rows[..n]), stride, n % window, rows[n], t % window);
    if t < n {
      SameSlot(t, n, window);
      RingSlots(buf, window, stride, rows[..n], t);
    }
    hide Write, Slot;
  }

  /** Two tokens less than a window apart never share a slot. */
  lemma SameSlot(t: nat, n: nat, window: nat)
    requires 0 < window && t < n < t + window
    ensures t % window != n % window
  {
    Divided(t, window);
    Divided(n, window);
    Apart(t / window, n / window, window);
  }

  lemma Apart(a: nat, b: nat, m: nat)
    requires 0 < m
    ensures !(a * m < b * m < a * m + m)
  {
    if a < b {
      MulMono(a + 1, b, m);
      Succ(a, m);
    } else {
      MulMono(b, a, m);
    }
  }

  /** The first min(n, window) slots of a ring after n tokens are exactly the last min(n, window) tokens. */
  lemma RingWindow(window: nat, n: nat, p: nat) returns (t: nat)
    requires 0 < window && p < Min(n, window)
    ensures t < n <= t + window && t % window == p
  {
    var q := Quot(n - 1, window);
    Divided(n - 1, window);
    if p <= (n - 1) % window {
      t := Product(q, window) + p;
      DivMod(q, p, window);
    } else {
      assert q > 0;
      t := Product(q - 1, window) + p;
      DivMod(q - 1, p, window);
      Succ(q - 1, window);
    }
  }

  lemma WindowInRing(window: nat, n: nat, t: nat)
    requires 0 < window && t < n <= t + window
    ensures t % window < Min(n, window)
  {
    if n < window {
      DivMod(0, t, window);
    }
  }

  // ---------- batches ----------

  /** Rows of a flat batch: token t's row is elements t * stride .. (t + 1) * stride. */
  function RowsOf(f16: real -> nat, batch: seq<real>, stride: nat, n: nat): (rows: seq<Row>)
    requires |batch| == Product(n, stride)
    ensures |rows| == n && forall t: nat :: t < n ==> |rows[t]| == stride
  {
    seq(n, t requires 0 <= t < n => Half(f16, BatchRow(batch, stride, n, t)))
  }

  function BatchRow(batch: seq<real>, stride: nat, n: nat, t: nat): (r: seq<real>)
    requires |batch| == Product(n, stride) && t < n
    ensures |r| == stride
  {
    BatchIn(n, stride, t);
    batch[Product(t, stride)..Product(t + 1, stride)]
  }

  lemma BatchIn(n: nat, stride: nat, t: nat)
    requires t < n
    ensures Product(t + 1, stride) <= Product(n, stride) && Product(t + 1, stride) == Product(t, stride) + stride
  {
    MulMono(t + 1, n, stride);
    Succ(t, stride);
  }

  /** One layer's float rows by token position. */
  type Rows = nat -> seq<real>

  /** The rows of tokens from .. from + n, as stored. */
  function History(f16: real -> nat, at: Rows, from: nat, n: nat): (rows: seq<Row>)
    ensures |rows| == n && forall i: nat :: i < n ==> rows[i] == Half(f16, at(from + i))
  {
    seq(n, i requires 0 <= i < n => Half(f16, at(from + i)))
  }

  /** The batch a forward pass hands to the cache: the rows of consecutive tokens, end to end. */
  function Flat(at: Rows, from: nat, n: nat): seq<real> {
    if n == 0 then [] else Flat(at, from, n - 1) + at(from + n - 1)
  }

  lemma {:induction false} FlatLength(at: Rows, from: nat, n: nat, stride: nat)
    requires forall t: nat :: |at(t)| == stride
    ensures |Flat(at, from, n)| == Product(n, stride)
  {
    if n > 0 {
      FlatLength(at, from, n - 1, stride);
      Succ(n - 1, stride);
    }
  }

  /** The t-th row of a flat batch is the row of its t-th token. */
  lemma {:induction false} FlatRow(at: Rows, from: nat, n: nat, stride: nat, t: nat)
    requires (forall i: nat :: |at(i)| == stride) && t < n
    ensures |Flat(at, from, n)| == Product(n, stride)
    ensures BatchRow(Flat(at, from, n), stride, n, t) == at(from + t)
  {
    FlatLength(at, from, n, stride);
    FlatLength(at, from, n - 1, stride);
    BatchIn(n, stride, t);
    if t < n - 1 {
      FlatRow(at, from, n - 1, stride, t);
      BatchIn(n - 1, stride, t);
      WithinPrefix(Flat(at, from, n - 1), at(from + n - 1), Product(t, stride), Product(t + 1, stride));
    }
  }

  lemma WithinPrefix(a: seq<real>, b: seq<real>, i: nat, j: nat)
    requires i <= j <= |a|
    ensures (a + b)[i..j] == a[i..j]
  {
  }

  lemma FlatRows(f16: real -> nat, at: Rows, from: nat, n: nat, stride: nat)
    requires forall t: nat :: |at(t)| == stride
    ensures |Flat(at, from, n)| == Product(n, stride)
    ensures RowsOf(f16, Flat(at, from, n), stride, n) == History(f16, at, from, n)
  {
    FlatLength(at, from, n, stride);
    hide Flat, Half, BatchRow;
    forall t: nat | t < n
      ensures RowsOf(f16, Flat(at, from, n), stride, n)[t] == History(f16, at, from, n)[t]
    {
      FlatRow(at, from, n, stride, t);
    }
  }

  lemma HistoryAppend(f16: real -> nat, at: Rows, m: nat, n: nat)
    ensures History(f16, at, 0, m) + History(f16, at, m, n) == History(f16, at, 0, m + n)
  {
  }

  function Zeros(n: nat): (r: Row)
    ensures |r| == n
  {
    seq(n, _ => 0)
  }

  /** A buffer of the right size that holds the history of the first `count` tokens. */
  ghost predicate Holds(buf: Row, t: AttnType, window: nat, stride: nat, rows: seq<Row>) {
    && RowsFit(Zeros(|buf|), t, window, stride, 0, rows)
    && buf == WriteRows(Zeros(|buf|), t, window, stride, 0, rows)
  }

  /** Storing the next rows into a buffer that holds a history extends the history. */
  lemma HoldsMore(buf: Row, t: AttnType, window: nat, stride: nat, rows: seq<Row>, more: seq<Row>)
    requires Holds(buf, t, window, stride, rows) && RowsFit(buf, t, window, stride, |rows|, more)
    ensures Holds(WriteRows(buf, t, window, stride, |rows|, more), t, window, stride, rows + more)
  {
    hide RowsFit, RowFits, WriteRows;
    var zeros := Zeros(|buf|);
    FitElsewhere(buf, zeros, t, window, stride, |rows|, more);
    FitJoin(zeros, t, window, stride, rows, more);
    WriteRowsAppend(zeros, t, window, stride, 0, rows, more);
    assert 0 + |rows| == |rows|;
  }

  lemma FitJoin(buf: Row, t: AttnType, window: nat, stride: nat, a: seq<Row>, b: seq<Row>)
    requires RowsFit(buf, t, window, stride, 0, a) && RowsFit(buf, t, window, stride, |a|, b)
    ensures RowsFit(buf, t, window, stride, 0, a + b)
  {
    forall i: nat | i < |a + b|
      ensures RowFits(buf, t, window, stride, 0 + i, (a + b)[i])
    {
      if i < |a| {
        assert RowFits(buf, t, window, stride, 0 + i, a[i]);
      } else {
        assert RowFits(buf, t, window, stride, |a| + (i - |a|), b[i - |a|]);
      }
    }
  }

  // ---------- the cache ----------

  class Cache {
    var k: seq<Row>
    var v: seq<Row>
    const sharedSource: seq<Option<nat>>
    const attnTypes: seq<AttnType>
    const windowSize: nat
    var seqLen: nat
    const nKvHeads: nat
    const headDimV: seq<nat>

    /** What the buffers were sized for; the original does not keep it. */
    ghost const maxSeqLen: nat

    ghost predicate Shaped() {
      |attnTypes| == |sharedSource| == |headDimV|
    }

    function Stride(l: nat): nat
      requires l < |headDimV|
    {
      Product(nKvHeads, headDimV[l])
    }

    ghost function Slots(l: nat): nat
      requires l < |attnTypes|
    {
      if attnTypes[l].SlidingWindow? then windowSize else maxSeqLen
    }

    ghost predicate Owns(l: nat)
      requires l < |sharedSource|
    {
      sharedSource[l].None?
    }

    ghost predicate SizedLayer(l: nat, kb: Row, vb: Row)
      requires Shaped() && l < |headDimV|
    {
      |kb| == |vb| == if Owns(l) then Product(Slots(l), Stride(l)) else 0
    }

    ghost predicate Sized(ks: seq<Row>, vs: seq<Row>)
      requires Shaped()
    {
      |ks| == |vs| == |headDimV| && forall l: nat :: l < |headDimV| ==> SizedLayer(l, ks[l], vs[l])
    }

    ghost predicate Valid()
      reads this
    {
      Shaped() && Sized(k, v)
    }

    /** The n tokens from position pos have a slot: otherwise the original's slice or modulo panics. */
    ghost predicate HasRoom(l: nat, pos: nat, n: nat)
      requires Shaped() && l < |headDimV|
    {
      Owns(l) ==> if attnTypes[l].SlidingWindow? then 0 < windowSize else pos + n <= maxSeqLen
    }

    constructor (nLayers: nat, nKvHeads: nat, headDimV: seq<nat>, windowSize: nat, maxSeqLen: nat,
                 attnTypes: seq<AttnType>, sharedSource: seq<Option<nat>>)
      requires |attnTypes| == |sharedSource| == |headDimV| == nLayers
      ensures Valid() && seqLen == 0 && |k| == nLayers
      ensures this.nKvHeads == nKvHeads && this.headDimV == headDimV && this.windowSize == windowSize
      ensures this.maxSeqLen == maxSeqLen && this.attnTypes == attnTypes && this.sharedSource == sharedSource
      ensures forall l: nat :: l < nLayers ==> k[l] == Zeros(|k[l]|) && v[l] == Zeros(|v[l]|)
    {
      var kk: seq<Row>, vv: seq<Row> := [], [];
      for l := 0 to nLayers
        invariant |kk| == |vv| == l
        invariant forall j: nat :: j < l ==> kk[j] == vv[j] == Zeros(
                    if sharedSource[j].Some? then 0
                    else Product(if attnTypes[j].SlidingWindow? then windowSize else maxSeqLen, Product(nKvHeads, headDimV[j])))
      {
        if sharedSource[l].Some? {
          kk, vv := kk + [[]], vv + [[]];
        } else {
          var hd := headDimV[l];
          var rows := if attnTypes[l].SlidingWindow? then windowSize else maxSeqLen;
          var cap := Product(Product(nKvHeads, rows), hd);
          Capacity(nKvHeads, rows, hd);
          kk, vv := kk + [Zeros(cap)], vv + [Zeros(cap)];
        }
      }
      this.k, this.v, this.seqLen := kk, vv, 0;
      this.sharedSource, this.attnTypes, this.windowSize := sharedSource, attnTypes, windowSize;
      this.nKvHeads, this.headDimV, this.maxSeqLen := nKvHeads, headDimV, maxSeqLen;
    }

    /** The rows of a batch fit in an owned layer. */
    lemma Fits(l: nat, rows: seq<Row>)
      requires Valid() && l < |headDimV| && Owns(l) && HasRoom(l, seqLen, |rows|)
      requires forall i: nat :: i < |rows| ==> |rows[i]| == Stride(l)
      ensures RowsFit(k[l], attnTypes[l], windowSize, Stride(l), seqLen, rows)
      ensures RowsFit(v[l], attnTypes[l], windowSize, Stride(l), seqLen, rows)
    {
      assert SizedLayer(l, k[l], v[l]);
      forall i: nat | i < |rows|
        ensures RowFits(k[l], attnTypes[l], windowSize, Stride(l), seqLen + i, rows[i])
        ensures RowFits(v[l], attnTypes[l], windowSize, Stride(l), seqLen + i, rows[i])
      {
        MulMono(Place(attnTypes[l], windowSize, seqLen + i) + 1, Slots(l), Stride(l));
      }
    }

    /** From (k0, v0) to (k1, v1), rows of tokens pos, pos + 1, ... were written to layer l and nowhere else. */
    ghost predicate Stored(k0: seq<Row>, v0: seq<Row>, k1: seq<Row>, v1: seq<Row>, l: nat, pos: nat,
                           kRows: seq<Row>, vRows: seq<Row>)
      requires Shaped() && l < |headDimV|
    {
      && |k0| == |v0| == |headDimV|
      && RowsFit(k0[l], attnTypes[l], windowSize, Stride(l), pos, kRows)
      && RowsFit(v0[l], attnTypes[l], windowSize, Stride(l), pos, vRows)
      && k1 == k0[l := WriteRows(k0[l], attnTypes[l], windowSize, Stride(l), pos, kRows)]
      && v1 == v0[l := WriteRows(v0[l], attnTypes[l], windowSize, Stride(l), pos, vRows)]
    }

    method Store(f16: real -> nat, layer: nat, kF32: seq<real>, vF32: seq<real>)
      requires Valid() && layer < |headDimV| && HasRoom(layer, seqLen, 1)
      requires |kF32| == |vF32| == Stride(layer)
      modifies this`k, this`v
      ensures Valid()
      ensures !Owns(layer) ==> k == old(k) && v == old(v)
      ensures Owns(layer) ==> Stored(old(k), old(v), k, v, layer, seqLen, [Half(f16, kF32)], [Half(f16, vF32)])
    {
      if sharedSource[layer].Some? {
        return;
      }
      var stride := Product(nKvHeads, headDimV[layer]);
      var kRow, vRow := Half(f16, kF32), Half(f16, vF32);
      Fits(layer, [kRow]);
      Fits(layer, [vRow]);
      var pos := Place(attnTypes[layer], windowSize, seqLen);
      WriteOne(k[layer], attnTypes[layer], windowSize, stride, seqLen, kRow);
      WriteOne(v[layer], attnTypes[layer], windowSize, stride, seqLen, vRow);
      var kb, vb := Write(k[layer], stride, pos, kRow), Write(v[layer], stride, pos, vRow);
      StillSized(k, v, layer, kb, vb);
      k, v := k[layer := kb], v[layer := vb];
    }

    /** Replacing one layer's buffers by ones of the same size keeps the cache valid. */
    lemma StillSized(ks: seq<Row>, vs: seq<Row>, l: nat, kb: Row, vb: Row)
      requires Shaped() && Sized(ks, vs) && l < |headDimV| && |kb| == |ks[l]| && |vb| == |vs[l]|
      ensures Sized(ks[l := kb], vs[l := vb])
    {
      var ks', vs' := ks[l := kb], vs[l := vb];
      forall j: nat | j < |headDimV|
        ensures SizedLayer(j, ks'[j], vs'[j])
      {
        assert SizedLayer(j, ks[j], vs[j]);
      }
    }

    method StoreBatch(f16: real -> nat, layer: nat, kBatch: seq<real>, vBatch: seq<real>, n: nat)
      requires Valid() && layer < |headDimV| && HasRoom(layer, seqLen, n)
      requires |kBatch| == |vBatch| == Product(n, Stride(layer))
      modifies this`k, this`v
      ensures Valid()
      ensures !Owns(layer) ==> k == old(k) && v == old(v)
      ensures Owns(layer) ==> Stored(old(k), old(v), k, v, layer, seqLen,
                                     RowsOf(f16, kBatch, Stride(layer), n), RowsOf(f16, vBatch, Stride(layer), n))
    {
      if sharedSource[layer].Some? {
        return;
      }
      var stride := Product(nKvHeads, headDimV[layer]);
      ghost var kRows, vRows := RowsOf(f16, kBatch, stride, n), RowsOf(f16, vBatch, stride, n);
      Fits(layer, kRows);
      Fits(layer, vRows);
      var kb, vb := StoreRows(f16, k[layer], v[layer], attnTypes[layer], windowSize, stride, seqLen, kBatch, vBatch, n);
      StillSized(k, v, layer, kb, vb);
      k, v := k[layer := kb], v[layer := vb];
    }

    /** The layer whose buffers a layer reads. */
    function Source(l: nat): nat
      requires l < |sharedSource|
    {
      if sharedSource[l].Some? then sharedSource[l].value else l
    }

    /** Every layer resolves, in one hop, to itself or an earlier layer that keeps its own rows, of the same
        type and row size. */
    ghost predicate Resolved()
      requires Shaped()
    {
      forall l: nat :: l < |headDimV| ==>
        && Source(l) <= l && Owns(Source(l)) && attnTypes[Source(l)] == attnTypes[l] && Stride(Source(l)) == Stride(l)
    }

    /** Positions available to attention at a layer, right after the current token was stored. */
    function AttnLen(l: nat): nat
      requires l < |sharedSource| && Source(l) < |attnTypes|
      reads this`seqLen
    {
      if attnTypes[Source(l)].SlidingWindow? then Min(seqLen + 1, windowSize) else seqLen + 1
    }

    method Advance()
      modifies this`seqLen
      ensures seqLen == old(seqLen) + 1
    {
      seqLen := seqLen + 1;
    }

    method AdvanceN(n: nat)
      modifies this`seqLen
      ensures seqLen == old(seqLen) + n
    {
      seqLen := seqLen + n;
    }

    method Reset()
      requires Valid()
      modifies this
      ensures Valid() && seqLen == 0
      ensures forall l: nat :: l < |k| ==> k[l] == Zeros(|k[l]|) && v[l] == Zeros(|v[l]|)
    {
      seqLen := 0;
      var kk: seq<Row>, vv: seq<Row> := [], [];
      for l := 0 to |k|
        invariant |kk| == |vv| == l
        invariant forall j: nat :: j < l ==> kk[j] == Zeros(|k[j]|) && vv[j] == Zeros(|v[j]|)
      {
        kk, vv := kk + [Zeros(|k[l]|)], vv + [Zeros(|v[l]|)];
      }
      k, v := kk, vv;
      forall l: nat | l < |headDimV|
        ensures SizedLayer(l, k[l], v[l])
      {
        assert SizedLayer(l, old(k)[l], old(v)[l]);
      }
    }
  }

  lemma Capacity(heads: nat, rows: nat, hd: nat)
    ensures heads * rows * hd == rows * (heads * hd)
  {
  }

  lemma WriteOne(buf: Row, t: AttnType, window: nat, stride: nat, from: nat, row: Row)
    requires RowsFit(buf, t, window, stride, from, [row])
    ensures RowFits(buf, t, window, stride, from, row)
    ensures WriteRows(buf, t, window, stride, from, [row]) == Write(buf, stride, Place(t, window, from), row)
  {
    assert RowFits(buf, t, window, stride, from + 0, [row][0]);
    assert [row] == [] + [row];
    WriteRowsSnoc(buf, t, window, stride, from, [], row);
  }

  /** The buffer after the first t rows. */
  ghost function WriteUpto(buf: Row, t: AttnType, window: nat, stride: nat, from: nat, rows: seq<Row>, n: nat): Row
    requires RowsFit(buf, t, window, stride, from, rows) && n <= |rows|
  {
    FitPrefix(buf, t, window, stride, from, rows, n);
    WriteRows(buf, t, window, stride, from, rows[..n])
  }

  lemma WriteNext(buf: Row, t: AttnType, window: nat, stride: nat, from: nat, rows: seq<Row>, n: nat)
    requires RowsFit(buf, t, window, stride, from, rows) && n < |rows|
    ensures RowFits(buf, t, window, stride, from + n, rows[n])
    ensures |WriteUpto(buf, t, window, stride, from, rows, n)| == |buf|
    ensures WriteUpto(buf, t, window, stride, from, rows, n + 1)
            == Write(WriteUpto(buf, t, window, stride, from, rows, n), stride, Place(t, window, from + n), rows[n])
  {
    assert rows[..n + 1] == rows[..n] + [rows[n]];
    FitPrefix(buf, t, window, stride, from, rows, n + 1);
    WriteRowsSnoc(buf, t, window, stride, from, rows[..n], rows[n]);
    hide RowsFit;
  }

  /** The loop of store_batch over one layer's two buffers. */
  method StoreRows(f16: real -> nat, kb0: Row, vb0: Row, t: AttnType, window: nat, stride: nat, from: nat,
                   kBatch: seq<real>, vBatch: seq<real>, n: nat) returns (kb: Row, vb: Row)
    requires |kBatch| == |vBatch| == Product(n, stride)
    requires RowsFit(kb0, t, window, stride, from, RowsOf(f16, kBatch, stride, n))
    requires RowsFit(vb0, t, window, stride, from, RowsOf(f16, vBatch, stride, n))
    ensures kb == WriteRows(kb0, t, window, stride, from, RowsOf(f16, kBatch, stride, n))
    ensures vb == WriteRows(vb0, t, window, stride, from, RowsOf(f16, vBatch, stride, n))
  {
    ghost var kRows, vRows := RowsOf(f16, kBatch, stride, n), RowsOf(f16, vBatch, stride, n);
    kb, vb := kb0, vb0;
    WriteNone(kb0, t, window, stride, from, kRows);
    WriteNone(vb0, t, window, stride, from, vRows);
    WindowOk(kb0, t, window, stride, from, kRows);
    hide WriteUpto, WriteRows, RowsFit, Write, Place;
    for i := 0 to n
      invariant kb == WriteUpto(kb0, t, window, stride, from, kRows, i) && |kb| == |kb0|
      invariant vb == WriteUpto(vb0, t, window, stride, from, vRows, i) && |vb| == |vb0|
    {
      var pos := Place(t, window, from + i);
      WriteNext(kb0, t, window, stride, from, kRows, i);
      WriteNext(vb0, t, window, stride, from, vRows, i);
      kb := Write(kb, stride, pos, Half(f16, BatchRow(kBatch, stride, n, i)));
      vb := Write(vb, stride, pos, Half(f16, BatchRow(vBatch, stride, n, i)));
    }
    WriteDone(kb0, t, window, stride, from, kRows);
    WriteDone(vb0, t, window, stride, from, vRows);
  }

  lemma WindowOk(buf: Row, t: AttnType, window: nat, stride: nat, from: nat, rows: seq<Row>)
    requires RowsFit(buf, t, window, stride, from, rows)
    ensures t.SlidingWindow? ==> 0 < window
  {
  }

  lemma WriteNone(buf: Row, t: AttnType, window: nat, stride: nat, from: nat, rows: seq<Row>)
    requires RowsFit(buf, t, window, stride, from, rows)
    ensures WriteUpto(buf, t, window, stride, from, rows, 0) == buf
  {
    assert rows[..0] == [];
  }

  lemma WriteDone(buf: Row, t: AttnType, window: nat, stride: nat, from: nat, rows: seq<Row>)
    requires RowsFit(buf, t, window, stride, from, rows)
    ensures WriteUpto(buf, t, window, stride, from, rows, |rows|) == WriteRows(buf, t, window, stride, from, rows)
  {
    assert rows[..|rows|] == rows;
  }
}
