/** Which layer's keys and values a layer reads (src/inference/engine_helpers.rs, compute_kv_shared), and
    that the cache built from the answer resolves every layer to a buffer of its own shape. */
module SharedKv {
  import opened Arithmetic
  import C = KvCache
  import opened Options

  function FirstShared(nLayers: nat, suffix: nat): nat {
    if suffix <= nLayers then nLayers - suffix else 0
  }

  /** j is the last layer below `first` of layer i's attention type. */
  ghost predicate IsSource(isSwa: seq<bool>, first: nat, i: nat, j: nat)
    requires i < |isSwa| && first <= |isSwa|
  {
    j < first && isSwa[j] == isSwa[i] && forall m: nat :: j < m < first ==> isSwa[m] != isSwa[i]
  }

  ghost predicate IsSharedMap(isSwa: seq<bool>, suffix: nat, r: seq<Option<nat>>) {
    var first := FirstShared(|isSwa|, suffix);
    && |r| == |isSwa|
    && forall i: nat :: i < |r| ==>
         match r[i]
         case Some(j) => i >= first && IsSource(isSwa, first, i, j)
         case None => i < first || forall j: nat :: j < first ==> isSwa[j] != isSwa[i]
  }

  method ComputeKvShared(nLayers: nat, suffix: nat, isSwa: seq<bool>) returns (r: seq<Option<nat>>)
    requires |isSwa| == nLayers
    ensures IsSharedMap(isSwa, suffix, r)
  {
    if suffix == 0 {
      return seq(nLayers, _ => None);
    }
    var first := FirstShared(nLayers, suffix);
    r := [];
    for i := 0 to nLayers
      invariant |r| == i
      invariant forall k: nat :: k < i ==>
                  match r[k]
                  case Some(j) => k >= first && IsSource(isSwa, first, k, j)
                  case None => k < first || forall j: nat :: j < first ==> isSwa[j] != isSwa[k]
    {
      var src: Option<nat> := None;
      if i >= first {
        var j := first;
        while j > 0
          invariant j <= first && src.None?
          invariant forall m: nat :: j <= m < first ==> isSwa[m] != isSwa[i]
        {
          j := j - 1;
          if isSwa[j] == isSwa[i] {
            src := Some(j);
            break;
          }
        }
      }
      r := r + [src];
    }
  }

  /** A layer that keeps its own keys and values. */
  predicate Owner(r: seq<Option<nat>>, j: nat)
    requires j < |r|
  {
    r[j].None?
  }

  /** Every shared layer points to the nearest earlier layer of its type that owns its storage: one hop. */
  lemma NearestOwner(isSwa: seq<bool>, suffix: nat, r: seq<Option<nat>>, i: nat)
    requires IsSharedMap(isSwa, suffix, r) && i < |r| && r[i].Some?
    ensures r[i].value < i && Owner(r, r[i].value) && isSwa[r[i].value] == isSwa[i]
    ensures forall m: nat :: r[i].value < m < i && isSwa[m] == isSwa[i] ==> !Owner(r, m)
  {
    var first, j := FirstShared(|isSwa|, suffix), r[i].value;
    forall m: nat | j < m < i && isSwa[m] == isSwa[i]
      ensures !Owner(r, m)
    {
      assert isSwa[j] == isSwa[m];
    }
  }

  /** Only a layer with no earlier layer of its type before the shared suffix falls back to its own storage. */
  lemma OwnersInSuffix(isSwa: seq<bool>, suffix: nat, r: seq<Option<nat>>, i: nat)
    requires IsSharedMap(isSwa, suffix, r) && i < |r|
    ensures Owner(r, i) <==> i < FirstShared(|r|, suffix)
                             || forall j: nat :: j < FirstShared(|r|, suffix) ==> isSwa[j] != isSwa[i]
  {
    if r[i].Some? {
      assert isSwa[r[i].value] == isSwa[i];
    }
  }

  /** The engine's per-layer attention types and head dimensions come from the same pattern. */
  ghost predicate FromPattern(c: C.Cache, isSwa: seq<bool>, dimSwa: nat, dimGlobal: nat) {
    && |isSwa| == |c.attnTypes| == |c.headDimV| == |c.sharedSource|
    && forall l: nat :: l < |isSwa| ==>
         && c.attnTypes[l] == (if isSwa[l] then C.SlidingWindow else C.Global)
         && c.headDimV[l] == if isSwa[l] then dimSwa else dimGlobal
  }

  /** Whatever the pattern, resolving a layer takes one hop to a buffer that was allocated with that
      layer's own row size and slot count, and attn_len is what the layer's own type gives. */
  lemma Resolves(c: C.Cache, isSwa: seq<bool>, suffix: nat, dimSwa: nat, dimGlobal: nat, l: nat)
    requires c.Valid() && FromPattern(c, isSwa, dimSwa, dimGlobal) && IsSharedMap(isSwa, suffix, c.sharedSource)
    requires l < |isSwa|
    ensures c.Source(l) <= l && c.Source(c.Source(l)) == c.Source(l) && c.Owns(c.Source(l))
    ensures |c.k[c.Source(l)]| == |c.v[c.Source(l)]| == Product(c.Slots(l), c.Stride(l))
    ensures c.AttnLen(l) == if isSwa[l] then Min(c.seqLen + 1, c.windowSize) else c.seqLen + 1
  {
    if c.sharedSource[l].Some? {
      NearestOwner(isSwa, suffix, c.sharedSource, l);
    }
    var s := c.Source(l);
    assert c.SizedLayer(s, c.k[s], c.v[s]);
  }

  /** Every cache built from the pattern resolves every layer. */
  lemma AllResolved(c: C.Cache, isSwa: seq<bool>, suffix: nat, dimSwa: nat, dimGlobal: nat)
    requires c.Shaped() && FromPattern(c, isSwa, dimSwa, dimGlobal) && IsSharedMap(isSwa, suffix, c.sharedSource)
    ensures c.Resolved()
  {
    forall l: nat | l < |c.headDimV|
      ensures c.Source(l) <= l && c.Owns(c.Source(l)) && c.attnTypes[c.Source(l)] == c.attnTypes[l]
      ensures c.Stride(c.Source(l)) == c.Stride(l)
    {
      if c.sharedSource[l].Some? {
        NearestOwner(isSwa, suffix, c.sharedSource, l);
      }
    }
  }
}
