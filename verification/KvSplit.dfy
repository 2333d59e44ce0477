/** Splitting the combined KV_B weight of GLM-4-MoE-Lite into its K and V parts. */
module KvSplit {
  import opened Common
  import opened Tensors

  const AXES_10: seq<nat> := [1, 0]
  const AXES_021: seq<nat> := [0, 2, 1]

  lemma Axes10Facts()
    ensures IsAxes(AXES_10)
  {
    assert AXES_10[0] == 1 && AXES_10[1] == 0;
    assert 0 in AXES_10 && 1 in AXES_10;
  }

  lemma Axes021Facts()
    ensures IsAxes(AXES_021)
  {
    assert AXES_021[0] == 0 && AXES_021[1] == 2 && AXES_021[2] == 1;
    assert 0 in AXES_021 && 1 in AXES_021 && 2 in AXES_021;
  }

  lemma Turned10(a: nat, b: nat)
    ensures IsAxes(AXES_10) && Permute([a, b], AXES_10) == [b, a]
  {
    Axes10Facts();
  }

  lemma Turned021(a: nat, b: nat, c: nat)
    ensures IsAxes(AXES_021) && Permute([a, b, c], AXES_021) == [a, c, b]
  {
    Axes021Facts();
  }

  /** The combined weight as `[heads * (qkNope + vHead), kvLoraRank]`, whichever way it was stored. */
  function Normalized<T>(data: seq<T>, shape: seq<nat>, kvFirst: bool): seq<T>
    requires |data| == Size(shape) && (kvFirst ==> |shape| == 2)
  {
    if kvFirst then Axes10Facts(); Transposed(data, shape, AXES_10) else data
  }

  /** Element `[h, r, q]` of K is element `[h * (qk + v) + q, r]` of the combined weight. */
  ghost predicate IsK<T>(m: seq<T>, k: seq<T>, heads: nat, qk: nat, v: nat, rank: nat) {
    && |k| == heads * rank * qk && |m| == heads * (qk + v) * rank
    && forall h, q, r :: Inside(heads, qk, rank, h, q, r) ==> KMoved(m, k, qk, v, rank, h, q, r)
  }

  ghost predicate KMoved<T>(m: seq<T>, k: seq<T>, qk: nat, v: nat, rank: nat, h: nat, q: nat, r: nat) {
    var to, from := Idx(rank, qk, h, r, q), Idx(qk + v, rank, h, q, r);
    to < |k| && from < |m| && k[to] == m[from]
  }

  /** Element `[h, c, r]` of V is element `[h * (qk + v) + qk + c, r]` of the combined weight. */
  ghost predicate IsV<T>(m: seq<T>, w: seq<T>, heads: nat, qk: nat, v: nat, rank: nat) {
    && |w| == heads * v * rank && |m| == heads * (qk + v) * rank
    && forall h, c, r :: Inside(heads, v, rank, h, c, r) ==> VMoved(m, w, qk, v, rank, h, c, r)
  }

  ghost predicate VMoved<T>(m: seq<T>, w: seq<T>, qk: nat, v: nat, rank: nat, h: nat, c: nat, r: nat) {
    var to, from := Idx(v, rank, h, c, r), Idx(qk + v, rank, h, qk + c, r);
    to < |w| && from < |m| && w[to] == m[from]
  }

  lemma SliceMoves<T>(t: Tensor<T>, heads: nat, per: nat, rank: nat, lo: nat, hi: nat, h: nat, q: nat, r: nat)
    requires t.shape == [heads, per, rank] && t.Valid() && lo <= hi <= per
    requires Inside(heads, hi - lo, rank, h, q, r)
    ensures t.Slice(1, lo, hi).Ok?
    ensures var s := t.Slice(1, lo, hi).value;
      && s.shape == [heads, hi - lo, rank]
      && Idx(hi - lo, rank, h, q, r) < |s.data| && Idx(per, rank, h, lo + q, r) < |t.data|
      && s.data[Idx(hi - lo, rank, h, q, r)] == t.data[Idx(per, rank, h, lo + q, r)]
  {
    var idx := [h, q, r];
    assert t.shape[1 := hi - lo] == [heads, hi - lo, rank];
    assert idx[1 := idx[1] + lo] == [h, lo + q, r];
    SliceAt(t, 1, lo, hi, idx);
    IdxIsRavel(heads, hi - lo, rank, h, q, r);
    IdxIsRavel(heads, per, rank, h, lo + q, r);
  }

  lemma TurnMoves<T>(x: seq<T>, heads: nat, qk: nat, rank: nat, h: nat, q: nat, r: nat)
    requires |x| == Size([heads, qk, rank]) && Inside(heads, qk, rank, h, q, r)
    ensures IsAxes(AXES_021)
    ensures var y := Transposed(x, [heads, qk, rank], AXES_021);
      && Idx(qk, rank, h, q, r) < |x| && Idx(rank, qk, h, r, q) < |y|
      && y[Idx(rank, qk, h, r, q)] == x[Idx(qk, rank, h, q, r)]
  {
    Turned021(heads, qk, rank);
    TransposedAt(x, [heads, qk, rank], AXES_021, [h, q, r]);
    IdxIsRavel(heads, qk, rank, h, q, r);
    IdxIsRavel(heads, rank, qk, h, r, q);
    TurnedIndex021(h, q, r);
  }

  lemma TurnedIndex021(h: nat, q: nat, r: nat)
    ensures IsAxes(AXES_021) && Permute([h, q, r], AXES_021) == [h, r, q]
  {
    Axes021Facts();
  }

  lemma NormalizedSize<T>(data: seq<T>, shape: seq<nat>, kvFirst: bool)
    requires |data| == Size(shape) && (kvFirst ==> |shape| == 2)
    ensures |Normalized(data, shape, kvFirst)| == |data|
  {
    if kvFirst {
      var a, b := shape[0], shape[1];
      assert shape == [a, b];
      Turned10(a, b);
      Ravel2(a, b, 0, 0);
      Ravel2(b, a, 0, 0);
    }
  }

  lemma SlicedK<T>(t: Tensor<T>, heads: nat, qk: nat, v: nat, rank: nat) returns (s: Tensor<T>)
    requires t.shape == [heads, qk + v, rank] && t.Valid()
    ensures t.Slice(1, 0, qk) == Ok(s) && s.Valid() && s.shape == [heads, qk, rank]
  {
    assert t.shape[1 := qk] == [heads, qk, rank];
    s := t.Slice(1, 0, qk).value;
  }

  lemma KElement<T>(t: Tensor<T>, s: Tensor<T>, k: seq<T>, heads: nat, qk: nat, v: nat, rank: nat, h: nat, q: nat, r: nat)
    requires t.shape == [heads, qk + v, rank] && t.Valid() && t.Slice(1, 0, qk) == Ok(s) && s.Valid()
    requires s.shape == [heads, qk, rank] && IsAxes(AXES_021) && k == Transposed(s.data, s.shape, AXES_021)
    requires Inside(heads, qk, rank, h, q, r)
    ensures KMoved(t.data, k, qk, v, rank, h, q, r)
  {
    SliceMoves(t, heads, qk + v, rank, 0, qk, h, q, r);
    TurnMoves(s.data, heads, qk, rank, h, q, r);
  }

  /** Slicing the first rows of each head and turning them gives K. */
  lemma KSplits<T>(t: Tensor<T>, heads: nat, qk: nat, v: nat, rank: nat)
    requires t.shape == [heads, qk + v, rank] && t.Valid()
    ensures IsAxes(AXES_021) && t.Slice(1, 0, qk).Ok?
    ensures var s := t.Slice(1, 0, qk).value;
      s.shape == [heads, qk, rank] && IsK(t.data, Transposed(s.data, s.shape, AXES_021), heads, qk, v, rank)
  {
    Turned021(heads, qk, rank);
    Ravel3(heads, qk + v, rank, 0, 0, 0);
    Ravel3(heads, rank, qk, 0, 0, 0);
    var s := SlicedK(t, heads, qk, v, rank);
    var k := Transposed(s.data, s.shape, AXES_021);
    forall h, q, r | Inside(heads, qk, rank, h, q, r) ensures KMoved(t.data, k, qk, v, rank, h, q, r) {
      KElement(t, s, k, heads, qk, v, rank, h, q, r);
    }
  }

  /** Slicing the remaining rows of each head gives V. */
  lemma VSplits<T>(t: Tensor<T>, heads: nat, qk: nat, v: nat, rank: nat)
    requires t.shape == [heads, qk + v, rank] && t.Valid()
    ensures t.Slice(1, qk, qk + v).Ok?
    ensures IsV(t.data, t.Slice(1, qk, qk + v).value.data, heads, qk, v, rank)
  {
    Ravel3(heads, qk + v, rank, 0, 0, 0);
    Ravel3(heads, v, rank, 0, 0, 0);
    assert t.shape[1 := v] == [heads, v, rank];
    var s := t.Slice(1, qk, qk + v).value;
    forall h, c, r | Inside(heads, v, rank, h, c, r) ensures VMoved(t.data, s.data, qk, v, rank, h, c, r) {
      SliceMoves(t, heads, qk + v, rank, qk, qk + v, h, c, r);
    }
  }

  method RepackKVB<T>(data: seq<T>, shape: seq<nat>, extractK: bool, kvFirst: bool, heads: nat, qk: nat, v: nat, rank: nat)
    returns (result: Result<seq<T>>)
    requires |data| == Size(shape)
    ensures result.Ok? <==> ((kvFirst ==> |shape| == 2) && |data| == heads * (qk + v) * rank)
    ensures result.Ok? && extractK ==> IsK(Normalized(data, shape, kvFirst), result.value, heads, qk, v, rank)
    ensures result.Ok? && !extractK ==> IsV(Normalized(data, shape, kvFirst), result.value, heads, qk, v, rank)
  {
    var tt := Tensor(shape, data);
    Axes10Facts();
    if kvFirst {
      var flipped := tt.Transpose(AXES_10);
      if flipped.Err? { return Err(flipped.message); }
      tt := flipped.value;
    }
    NormalizedSize(data, shape, kvFirst);
    Ravel3(heads, qk + v, rank, 0, 0, 0);
    var split := tt.Reshape([heads, qk + v, rank]);
    if split.Err? { return Err(split.message); }
    tt := split.value;
    if extractK {
      KSplits(tt, heads, qk, v, rank);
      tt := tt.Slice(1, 0, qk).value;
      tt := tt.Transpose(AXES_021).value;
    } else {
      VSplits(tt, heads, qk, v, rank);
      tt := tt.Slice(1, qk, qk + v).value;
    }
    result := Ok(tt.data);
  }

  // ---- Nothing is lost

  function KSources(heads: nat, qk: nat, v: nat, rank: nat): (src: seq<nat>)
    ensures |src| == heads * rank * qk
  {
    Ravel3(heads, rank, qk, 0, 0, 0);
    seq(heads * rank * qk, p requires 0 <= p < heads * rank * qk =>
      var idx := Unravel([heads, rank, qk], p);
      Idx(qk + v, rank, idx[0], idx[2], idx[1]))
  }

  function VSources(heads: nat, qk: nat, v: nat, rank: nat): (src: seq<nat>)
    ensures |src| == heads * v * rank
  {
    Ravel3(heads, v, rank, 0, 0, 0);
    seq(heads * v * rank, p requires 0 <= p < heads * v * rank =>
      var idx := Unravel([heads, v, rank], p);
      Idx(qk + v, rank, idx[0], qk + idx[1], idx[2]))
  }

  lemma KSourceAt(heads: nat, qk: nat, v: nat, rank: nat, p: nat) returns (h: nat, q: nat, r: nat)
    requires p < heads * rank * qk
    ensures Inside(heads, qk, rank, h, q, r) && p == Idx(rank, qk, h, r, q)
    ensures KSources(heads, qk, v, rank)[p] == Idx(qk + v, rank, h, q, r)
  {
    h, r, q := PlaceOf(heads, rank, qk, p);
    IdxIsRavel(heads, rank, qk, h, r, q);
  }

  lemma VSourceAt(heads: nat, qk: nat, v: nat, rank: nat, p: nat) returns (h: nat, c: nat, r: nat)
    requires p < heads * v * rank
    ensures Inside(heads, v, rank, h, c, r) && p == Idx(v, rank, h, c, r)
    ensures VSources(heads, qk, v, rank)[p] == Idx(qk + v, rank, h, qk + c, r)
  {
    h, c, r := PlaceOf(heads, v, rank, p);
    IdxIsRavel(heads, v, rank, h, c, r);
  }

  lemma SplitSourcesDistinct(heads: nat, qk: nat, v: nat, rank: nat)
    ensures Distinct(KSources(heads, qk, v, rank) + VSources(heads, qk, v, rank), heads * (qk + v) * rank)
  {
    var ks, vs := KSources(heads, qk, v, rank), VSources(heads, qk, v, rank);
    IdxFacts(heads, qk + v, rank);
    forall p | 0 <= p < |ks| ensures ks[p] < heads * (qk + v) * rank {
      var h, q, r := KSourceAt(heads, qk, v, rank, p);
      assert Inside(heads, qk + v, rank, h, q, r);
    }
    forall p | 0 <= p < |vs| ensures vs[p] < heads * (qk + v) * rank {
      var h, c, r := VSourceAt(heads, qk, v, rank, p);
      assert Inside(heads, qk + v, rank, h, qk + c, r);
    }
    forall p, p' | 0 <= p < p' < |ks| ensures ks[p] != ks[p'] {
      var h, q, r := KSourceAt(heads, qk, v, rank, p);
      var h', q', r' := KSourceAt(heads, qk, v, rank, p');
      assert Inside(heads, qk + v, rank, h, q, r) && Inside(heads, qk + v, rank, h', q', r');
    }
    forall p, p' | 0 <= p < p' < |vs| ensures vs[p] != vs[p'] {
      var h, c, r := VSourceAt(heads, qk, v, rank, p);
      var h', c', r' := VSourceAt(heads, qk, v, rank, p');
      assert Inside(heads, qk + v, rank, h, qk + c, r) && Inside(heads, qk + v, rank, h', qk + c', r');
    }
    forall p, p' | 0 <= p < |ks| && 0 <= p' < |vs| ensures ks[p] != vs[p'] {
      var h, q, r := KSourceAt(heads, qk, v, rank, p);
      var h', c', r' := VSourceAt(heads, qk, v, rank, p');
      assert Inside(heads, qk + v, rank, h, q, r) && Inside(heads, qk + v, rank, h', qk + c', r');
    }
  }

  lemma KIsGathered<T>(m: seq<T>, k: seq<T>, heads: nat, qk: nat, v: nat, rank: nat)
    requires IsK(m, k, heads, qk, v, rank)
    ensures forall p :: 0 <= p < |k| ==>
      KSources(heads, qk, v, rank)[p] < |m| && k[p] == m[KSources(heads, qk, v, rank)[p]]
  {
    forall p | 0 <= p < |k|
      ensures KSources(heads, qk, v, rank)[p] < |m| && k[p] == m[KSources(heads, qk, v, rank)[p]]
    {
      var h, q, r := KSourceAt(heads, qk, v, rank, p);
      assert KMoved(m, k, qk, v, rank, h, q, r);
    }
  }

  lemma VIsGathered<T>(m: seq<T>, w: seq<T>, heads: nat, qk: nat, v: nat, rank: nat)
    requires IsV(m, w, heads, qk, v, rank)
    ensures forall p :: 0 <= p < |w| ==>
      VSources(heads, qk, v, rank)[p] < |m| && w[p] == m[VSources(heads, qk, v, rank)[p]]
  {
    forall p | 0 <= p < |w|
      ensures VSources(heads, qk, v, rank)[p] < |m| && w[p] == m[VSources(heads, qk, v, rank)[p]]
    {
      var h, c, r := VSourceAt(heads, qk, v, rank, p);
      assert VMoved(m, w, qk, v, rank, h, c, r);
    }
  }

  /** K and V together hold every element of the combined weight exactly once. */
  lemma SplitLosesNothing<T>(m: seq<T>, k: seq<T>, w: seq<T>, heads: nat, qk: nat, v: nat, rank: nat)
    requires IsK(m, k, heads, qk, v, rank) && IsV(m, w, heads, qk, v, rank)
    ensures multiset(k) + multiset(w) == multiset(m)
  {
    var src := KSources(heads, qk, v, rank) + VSources(heads, qk, v, rank);
    SplitSourcesDistinct(heads, qk, v, rank);
    KIsGathered(m, k, heads, qk, v, rank);
    VIsGathered(m, w, heads, qk, v, rank);
    assert heads * rank * qk + heads * v * rank == heads * (qk + v) * rank by { SizesAdd(heads, qk, v, rank); }
    DistinctGather(m, src);
    assert Gathered(m, src) == k + w;
  }

  lemma SizesAdd(heads: nat, qk: nat, v: nat, rank: nat)
    ensures heads * rank * qk + heads * v * rank == heads * (qk + v) * rank
  {
    assert heads * rank * qk == heads * qk * rank;
  }

  // ---- Either orientation gives the same split

  /** The combined weight stored transposed normalizes to itself. */
  lemma OrientationFree<T>(m: seq<T>, rows: nat, rank: nat)
    requires |m| == Size([rows, rank])
    ensures IsAxes(AXES_10)
    ensures var flipped := Transposed(m, [rows, rank], AXES_10);
      |flipped| == Size([rank, rows])
      && Normalized(flipped, [rank, rows], true) == m && Normalized(m, [rows, rank], false) == m
  {
    Turned10(rows, rank);
    Ravel2(rows, rank, 0, 0);
    Ravel2(rank, rows, 0, 0);
    Twice10();
    TransposeRoundTrip(m, [rows, rank], AXES_10, AXES_10);
  }

  lemma Twice10()
    ensures IsAxes(AXES_10) && Permute(AXES_10, AXES_10) == Counting(2)
  {
    Axes10Facts();
  }

  /** A combined weight determines its K and V. */
  lemma SplitUnique<T>(m: seq<T>, k: seq<T>, k': seq<T>, w: seq<T>, w': seq<T>, heads: nat, qk: nat, v: nat, rank: nat)
    requires IsK(m, k, heads, qk, v, rank) && IsK(m, k', heads, qk, v, rank)
    requires IsV(m, w, heads, qk, v, rank) && IsV(m, w', heads, qk, v, rank)
    ensures k == k' && w == w'
  {
    KIsGathered(m, k, heads, qk, v, rank);
    KIsGathered(m, k', heads, qk, v, rank);
    VIsGathered(m, w, heads, qk, v, rank);
    VIsGathered(m, w', heads, qk, v, rank);
  }

  // ---- Which orientation the converter assumes

  datatype Layout = Layout(heads: nat, kvFirst: bool)

  function ChooseLayout(shape: seq<nat>, attentionHeads: nat, per: nat, rank: nat): Layout {
    if |shape| != 2 then Layout(attentionHeads, true)
    else if shape[0] == rank then
      Layout(if per > 0 && shape[1] % per == 0 then shape[1] / per else attentionHeads, true)
    else if shape[1] == rank then
      Layout(if per > 0 && shape[0] % per == 0 then shape[0] / per else attentionHeads, false)
    else Layout(attentionHeads, true)
  }

  /** The head count and orientation are read off the shape, with one exception: a weight stored
      rows first whose row count equals the rank is taken for a transposed one. */
  lemma LayoutChosen(heads: nat, attentionHeads: nat, per: nat, rank: nat)
    requires per > 0
    ensures ChooseLayout([rank, heads * per], attentionHeads, per, rank) == Layout(heads, true)
    ensures ChooseLayout([heads * per, rank], attentionHeads, per, rank) == Layout(heads, false)
        <==> heads * per != rank
  {
    MultipleDivides(heads, per);
  }

  /** For every shape: rows come first unless only the second dimension is the rank, and the head count
      is how often the rows of a head go into the other dimension, or the configured one if they do not
      go into it or no dimension is the rank. */
  lemma LayoutAlways(shape: seq<nat>, attentionHeads: nat, per: nat, rank: nat)
    ensures var layout := ChooseLayout(shape, attentionHeads, per, rank);
      && (!layout.kvFirst <==> |shape| == 2 && shape[1] == rank && shape[0] != rank)
      && (|shape| == 2 && rank in shape && per > 0 ==>
          var rows := if shape[0] == rank then shape[1] else shape[0];
          forall n: nat :: if layout.heads * per == rows then n * per == rows ==> n == layout.heads
                           else n * per != rows && layout.heads == attentionHeads)
      && (|shape| != 2 || rank !in shape || per == 0 ==> layout.heads == attentionHeads)
  {
    if |shape| == 2 && rank in shape && per > 0 {
      var rows := if shape[0] == rank then shape[1] else shape[0];
      DivMod(rows, per);
      forall n: nat | n * per == rows ensures rows % per == 0 && rows / per == n {
        MultipleDivides(n, per);
      }
    }
  }

  lemma MultipleDivides(n: nat, d: nat)
    requires d > 0
    ensures (n * d) % d == 0 && (n * d) / d == n
  {
    DigitsUnique((n * d) / d, (n * d) % d, n, 0, d);
  }
}
