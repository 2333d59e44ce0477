/** Row-major tensors and the index maps of the tensor operations the converters call.
    The tensor library itself is not part of this model: each operation is its documented map
    from output to input positions. */
module Tensors {
  import opened Common

  function Size(dims: seq<nat>): nat {
    if dims == [] then 1 else Size(dims[..|dims| - 1]) * dims[|dims| - 1]
  }

  predicate InShape(dims: seq<nat>, idx: seq<nat>) {
    |idx| == |dims| && forall m :: 0 <= m < |dims| ==> idx[m] < dims[m]
  }

  /** Position of an index in row-major order. */
  function Ravel(dims: seq<nat>, idx: seq<nat>): nat
    requires |idx| == |dims|
  {
    if dims == [] then 0
    else
      var last := |dims| - 1;
      Ravel(dims[..last], idx[..last]) * dims[last] + idx[last]
  }

  function Unravel(dims: seq<nat>, p: nat): (idx: seq<nat>)
    requires p < Size(dims)
    ensures InShape(dims, idx) && Ravel(dims, idx) == p
  {
    if dims == [] then []
    else
      var last := |dims| - 1;
      var d := dims[last];
      PositiveFactor(Size(dims[..last]), d);
      QuotientBound(p, Size(dims[..last]), d);
      DivMod(p, d);
      var front := Unravel(dims[..last], p / d);
      var idx := front + [p % d];
      assert idx[..last] == front;
      idx
  }

  lemma PositiveFactor(n: nat, d: nat)
    requires 0 < n * d
    ensures n > 0 && d > 0
  {
  }

  lemma DivMod(p: nat, d: nat)
    requires d > 0
    ensures (p / d) * d + p % d == p && p % d < d
  {
  }

  lemma MulMono(a: nat, b: nat, c: nat)
    requires a <= b
    ensures a * c <= b * c
  {
  }

  lemma QuotientBound(p: nat, n: nat, d: nat)
    requires d > 0 && p < n * d
    ensures p / d < n
  {
    DivMod(p, d);
    if p / d >= n {
      MulMono(n, p / d, d);
    }
  }

  lemma SmallMultiple(k: int, d: int)
    requires d > 0 && -d < k * d < d
    ensures k == 0
  {
  }

  lemma DigitsUnique(q: nat, r: nat, q': nat, r': nat, d: nat)
    requires r < d && r' < d && q * d + r == q' * d + r'
    ensures q == q' && r == r'
  {
    assert (q - q') * d == r' - r;
    SmallMultiple(q - q', d);
  }

  lemma {:induction false} RavelInjective(dims: seq<nat>, a: seq<nat>, b: seq<nat>)
    requires InShape(dims, a) && InShape(dims, b) && Ravel(dims, a) == Ravel(dims, b)
    ensures a == b
  {
    if dims != [] {
      var last := |dims| - 1;
      DigitsUnique(Ravel(dims[..last], a[..last]), a[last], Ravel(dims[..last], b[..last]), b[last], dims[last]);
      RavelInjective(dims[..last], a[..last], b[..last]);
      assert a == a[..last] + [a[last]] && b == b[..last] + [b[last]];
    }
  }

  lemma DigitsBound(q: nat, r: nat, n: nat, d: nat)
    requires q < n && r < d
    ensures q * d + r < n * d
  {
    MulMono(q + 1, n, d);
    assert (q + 1) * d == q * d + d;
  }

  lemma {:induction false} RavelInRange(dims: seq<nat>, idx: seq<nat>)
    requires InShape(dims, idx)
    ensures Ravel(dims, idx) < Size(dims)
    ensures Unravel(dims, Ravel(dims, idx)) == idx
  {
    if dims != [] {
      var last := |dims| - 1;
      var n, d, q := Size(dims[..last]), dims[last], Ravel(dims[..last], idx[..last]);
      RavelInRange(dims[..last], idx[..last]);
      DigitsBound(q, idx[last], n, d);
    }
    RavelInjective(dims, Unravel(dims, Ravel(dims, idx)), idx);
  }

  lemma Ravel2(a: nat, b: nat, i: nat, j: nat)
    ensures Ravel([a, b], [i, j]) == i * b + j
    ensures Size([a, b]) == a * b
  {
    assert [a, b][..1] == [a] && [i, j][..1] == [i];
    assert Ravel([a], [i]) == i && Size([a]) == a;
  }

  lemma Ravel3(a: nat, b: nat, c: nat, i: nat, j: nat, k: nat)
    ensures Ravel([a, b, c], [i, j, k]) == (i * b + j) * c + k
    ensures Size([a, b, c]) == a * b * c
  {
    assert [a, b, c][..2] == [a, b] && [i, j, k][..2] == [i, j];
    Ravel2(a, b, i, j);
  }

  lemma Ravel4(a: nat, b: nat, c: nat, d: nat, i: nat, j: nat, k: nat, l: nat)
    ensures Ravel([a, b, c, d], [i, j, k, l]) == ((i * b + j) * c + k) * d + l
    ensures Size([a, b, c, d]) == a * b * c * d
  {
    assert [a, b, c, d][..3] == [a, b, c] && [i, j, k, l][..3] == [i, j, k];
    Ravel3(a, b, c, i, j, k);
  }

  /** Position of `[i, j, k]` in a tensor whose last two dimensions are `b` and `c`. */
  function Idx(b: nat, c: nat, i: nat, j: nat, k: nat): nat {
    (i * b + j) * c + k
  }

  ghost predicate Inside(a: nat, b: nat, c: nat, i: nat, j: nat, k: nat) {
    i < a && j < b && k < c
  }

  lemma IdxIsRavel(a: nat, b: nat, c: nat, i: nat, j: nat, k: nat)
    requires Inside(a, b, c, i, j, k)
    ensures Ravel([a, b, c], [i, j, k]) == Idx(b, c, i, j, k)
    ensures Size([a, b, c]) == a * b * c
    ensures Idx(b, c, i, j, k) < a * b * c
    ensures Unravel([a, b, c], Idx(b, c, i, j, k)) == [i, j, k]
  {
    Ravel3(a, b, c, i, j, k);
    RavelInRange([a, b, c], [i, j, k]);
  }

  /** Distinct indices have distinct positions, all within the data. */
  lemma IdxFacts(a: nat, b: nat, c: nat)
    ensures forall i, j, k :: Inside(a, b, c, i, j, k) ==> Idx(b, c, i, j, k) < a * b * c
    ensures forall i, j, k, i', j', k' {:trigger Idx(b, c, i, j, k), Idx(b, c, i', j', k')} ::
      Inside(a, b, c, i, j, k) && Inside(a, b, c, i', j', k') && Idx(b, c, i, j, k) == Idx(b, c, i', j', k')
      ==> i == i' && j == j' && k == k'
  {
    forall i, j, k | Inside(a, b, c, i, j, k) ensures Idx(b, c, i, j, k) < a * b * c {
      IdxIsRavel(a, b, c, i, j, k);
    }
    forall i, j, k, i', j', k' |
      Inside(a, b, c, i, j, k) && Inside(a, b, c, i', j', k') && Idx(b, c, i, j, k) == Idx(b, c, i', j', k')
      ensures i == i' && j == j' && k == k'
    {
      IdxIsRavel(a, b, c, i, j, k);
      IdxIsRavel(a, b, c, i', j', k');
      assert [i, j, k][0] == [i', j', k'][0] && [i, j, k][1] == [i', j', k'][1] && [i, j, k][2] == [i', j', k'][2];
    }
  }

  lemma PlaceOf(a: nat, b: nat, c: nat, p: nat) returns (i: nat, j: nat, k: nat)
    requires p < a * b * c
    ensures Inside(a, b, c, i, j, k) && p == Idx(b, c, i, j, k)
  {
    var dims := [a, b, c];
    Ravel3(a, b, c, 0, 0, 0);
    var idx := Unravel(dims, p);
    assert idx == [idx[0], idx[1], idx[2]] && idx[0] < dims[0] && idx[1] < dims[1] && idx[2] < dims[2];
    i, j, k := idx[0], idx[1], idx[2];
    IdxIsRavel(a, b, c, i, j, k);
  }

  // ---- Transposing

  predicate IsAxes(axes: seq<nat>) {
    && (forall a :: 0 <= a < |axes| ==> axes[a] < |axes|)
    && (forall a, b :: 0 <= a < b < |axes| ==> axes[a] != axes[b])
    && (forall m :: 0 <= m < |axes| ==> m in axes)
  }

  function IndexOf(axes: seq<nat>, m: nat): (a: nat)
    requires m in axes
    ensures a < |axes| && axes[a] == m
  {
    if axes[0] == m then 0 else 1 + IndexOf(axes[1..], m)
  }

  function Permute(idx: seq<nat>, axes: seq<nat>): (r: seq<nat>)
    requires IsAxes(axes) && |idx| == |axes|
    ensures |r| == |idx| && forall a :: 0 <= a < |axes| ==> r[a] == idx[axes[a]]
  {
    seq(|axes|, a requires 0 <= a < |axes| => idx[axes[a]])
  }

  function Unpermute(idx: seq<nat>, axes: seq<nat>): (r: seq<nat>)
    requires IsAxes(axes) && |idx| == |axes|
    ensures |r| == |idx| && forall a :: 0 <= a < |axes| ==> r[axes[a]] == idx[a]
  {
    var r := seq(|axes|, m requires 0 <= m < |axes| => idx[IndexOf(axes, m)]);
    assert forall a :: 0 <= a < |axes| ==> IndexOf(axes, axes[a]) == a;
    r
  }

  lemma PermuteInverse(idx: seq<nat>, axes: seq<nat>)
    requires IsAxes(axes) && |idx| == |axes|
    ensures Permute(Unpermute(idx, axes), axes) == idx
    ensures Unpermute(Permute(idx, axes), axes) == idx
  {
    var p := Permute(idx, axes);
    forall m | 0 <= m < |axes| ensures Unpermute(p, axes)[m] == idx[m] {
      assert axes[IndexOf(axes, m)] == m;
    }
  }

  lemma UnpermuteInShape(dims: seq<nat>, idx: seq<nat>, axes: seq<nat>)
    requires IsAxes(axes) && |dims| == |axes| && InShape(Permute(dims, axes), idx)
    ensures InShape(dims, Unpermute(idx, axes))
  {
    forall m | 0 <= m < |axes| ensures Unpermute(idx, axes)[m] < dims[m] {
      assert axes[IndexOf(axes, m)] == m;
    }
  }

  /** Where the element at position `p` of the transposed tensor comes from. */
  function TransposeSource(dims: seq<nat>, axes: seq<nat>, p: nat): (q: nat)
    requires IsAxes(axes) && |dims| == |axes| && p < Size(Permute(dims, axes))
    ensures q < Size(dims)
  {
    var idx := Unravel(Permute(dims, axes), p);
    UnpermuteInShape(dims, idx, axes);
    RavelInRange(dims, Unpermute(idx, axes));
    Ravel(dims, Unpermute(idx, axes))
  }

  function Sources(dims: seq<nat>, axes: seq<nat>): (src: seq<nat>)
    requires IsAxes(axes) && |dims| == |axes|
    ensures |src| == Size(Permute(dims, axes))
    ensures forall p :: 0 <= p < |src| ==> src[p] == TransposeSource(dims, axes, p) && src[p] < Size(dims)
  {
    seq(Size(Permute(dims, axes)), p requires 0 <= p < Size(Permute(dims, axes)) => TransposeSource(dims, axes, p))
  }

  function Gathered<T>(x: seq<T>, src: seq<nat>): (y: seq<T>)
    requires forall p :: 0 <= p < |src| ==> src[p] < |x|
    ensures |y| == |src| && forall p :: 0 <= p < |src| ==> y[p] == x[src[p]]
  {
    seq(|src|, p requires 0 <= p < |src| => x[src[p]])
  }

  function Transposed<T>(x: seq<T>, dims: seq<nat>, axes: seq<nat>): (y: seq<T>)
    requires IsAxes(axes) && |dims| == |axes| && |x| == Size(dims)
    ensures |y| == Size(Permute(dims, axes))
  {
    Gathered(x, Sources(dims, axes))
  }

  lemma TransposeSourceAt(dims: seq<nat>, axes: seq<nat>, idx: seq<nat>)
    requires IsAxes(axes) && |dims| == |axes| && InShape(dims, idx)
    ensures Ravel(Permute(dims, axes), Permute(idx, axes)) < Size(Permute(dims, axes))
    ensures TransposeSource(dims, axes, Ravel(Permute(dims, axes), Permute(idx, axes))) == Ravel(dims, idx)
  {
    RavelInRange(Permute(dims, axes), Permute(idx, axes));
    PermuteInverse(idx, axes);
  }

  /** Transposing moves the element at `idx` to the permuted index, and nothing else does. */
  lemma TransposedAt<T>(x: seq<T>, dims: seq<nat>, axes: seq<nat>, idx: seq<nat>)
    requires IsAxes(axes) && |dims| == |axes| && |x| == Size(dims) && InShape(dims, idx)
    ensures Ravel(dims, idx) < |x|
    ensures Ravel(Permute(dims, axes), Permute(idx, axes)) < |Transposed(x, dims, axes)|
    ensures Transposed(x, dims, axes)[Ravel(Permute(dims, axes), Permute(idx, axes))] == x[Ravel(dims, idx)]
  {
    RavelInRange(dims, idx);
    TransposeSourceAt(dims, axes, idx);
  }

  lemma PermuteBack(idx: seq<nat>, axes: seq<nat>, back: seq<nat>)
    requires IsAxes(axes) && IsAxes(back) && |idx| == |axes| == |back|
    requires Permute(axes, back) == Counting(|axes|)
    ensures Permute(Permute(idx, axes), back) == idx
  {
    forall m | 0 <= m < |idx| ensures Permute(Permute(idx, axes), back)[m] == idx[m] {
      assert Permute(axes, back)[m] == m;
    }
  }

  function Counting(n: nat): (r: seq<nat>)
    ensures |r| == n && forall m :: 0 <= m < n ==> r[m] == m
  {
    seq(n, m requires 0 <= m < n => m)
  }

  lemma SourceRoundTrip(dims: seq<nat>, axes: seq<nat>, back: seq<nat>, p: nat)
    requires IsAxes(axes) && IsAxes(back) && |dims| == |axes| == |back|
    requires Permute(axes, back) == Counting(|axes|) && p < Size(dims)
    ensures Permute(Permute(dims, axes), back) == dims
    ensures var q := TransposeSource(Permute(dims, axes), back, p);
      q < Size(Permute(dims, axes)) && TransposeSource(dims, axes, q) == p
  {
    var idx := Unravel(dims, p);
    PermuteBack(dims, axes, back);
    PermuteBack(idx, axes, back);
    PermutedInShape(dims, idx, axes);
    TransposeSourceAt(Permute(dims, axes), back, Permute(idx, axes));
    TransposeSourceAt(dims, axes, idx);
  }

  lemma PermutedInShape(dims: seq<nat>, idx: seq<nat>, axes: seq<nat>)
    requires IsAxes(axes) && |dims| == |axes| && InShape(dims, idx)
    ensures InShape(Permute(dims, axes), Permute(idx, axes))
  {
  }

  /** Transposing there and back restores every element. */
  lemma TransposeRoundTrip<T>(x: seq<T>, dims: seq<nat>, axes: seq<nat>, back: seq<nat>)
    requires IsAxes(axes) && IsAxes(back) && |dims| == |axes| == |back| && |x| == Size(dims)
    requires Permute(axes, back) == Counting(|axes|)
    ensures Permute(Permute(dims, axes), back) == dims
    ensures Transposed(Transposed(x, dims, axes), Permute(dims, axes), back) == x
  {
    PermuteBack(dims, axes, back);
    var y := Transposed(x, dims, axes);
    var z := Transposed(y, Permute(dims, axes), back);
    forall p | 0 <= p < |x| ensures z[p] == x[p] {
      SourceRoundTrip(dims, axes, back, p);
    }
  }

  // ---- Tensors

  datatype Tensor<T> = Tensor(shape: seq<nat>, data: seq<T>) {
    predicate Valid() { |data| == Size(shape) }

    function Reshape(dims: seq<nat>): Result<Tensor<T>> {
      if Size(dims) == |data| then Ok(Tensor(dims, data)) else Err("cannot reshape")
    }

    function Transpose(axes: seq<nat>): (r: Result<Tensor<T>>)
      requires Valid()
      ensures r.Ok? ==> r.value.Valid()
    {
      if |axes| == |shape| && IsAxes(axes)
      then Ok(Tensor(Permute(shape, axes), Transposed(data, shape, axes)))
      else Err("bad axes")
    }

    /** Positions `lo..hi` of one axis. */
    function Slice(axis: nat, lo: nat, hi: nat): (r: Result<Tensor<T>>)
      requires Valid()
      ensures r.Ok? ==> r.value.Valid()
    {
      if axis < |shape| && lo <= hi <= shape[axis] then
        var dims := shape[axis := hi - lo];
        Ok(Tensor(dims, seq(Size(dims), p requires 0 <= p < Size(dims) => data[SlicePosition(shape, axis, lo, hi, p)])))
      else Err("slice out of range")
    }
  }

  lemma ShiftBound(shape: seq<nat>, axis: nat, lo: nat, hi: nat, idx: seq<nat>)
    requires axis < |shape| && lo <= hi <= shape[axis] && InShape(shape[axis := hi - lo], idx)
    ensures Ravel(shape, idx[axis := idx[axis] + lo]) < Size(shape)
  {
    RavelInRange(shape, idx[axis := idx[axis] + lo]);
  }

  /** Where the `p`-th element of a slice comes from. */
  function SlicePosition(shape: seq<nat>, axis: nat, lo: nat, hi: nat, p: nat): (at: nat)
    requires axis < |shape| && lo <= hi <= shape[axis] && p < Size(shape[axis := hi - lo])
    ensures at < Size(shape)
  {
    var idx := Unravel(shape[axis := hi - lo], p);
    ShiftBound(shape, axis, lo, hi, idx);
    Ravel(shape, idx[axis := idx[axis] + lo])
  }

  lemma SlicePositionIs(shape: seq<nat>, axis: nat, lo: nat, hi: nat, p: nat, idx: seq<nat>)
    requires axis < |shape| && lo <= hi <= shape[axis] && p < Size(shape[axis := hi - lo])
    requires idx == Unravel(shape[axis := hi - lo], p)
    ensures SlicePosition(shape, axis, lo, hi, p) == Ravel(shape, idx[axis := idx[axis] + lo])
  {
  }

  lemma SliceAt<T>(t: Tensor<T>, axis: nat, lo: nat, hi: nat, idx: seq<nat>)
    requires t.Valid() && t.Slice(axis, lo, hi).Ok? && InShape(t.shape[axis := hi - lo], idx)
    ensures var s := t.Slice(axis, lo, hi).value;
      && Ravel(s.shape, idx) < |s.data|
      && Ravel(t.shape, idx[axis := idx[axis] + lo]) < |t.data|
      && s.data[Ravel(s.shape, idx)] == t.data[Ravel(t.shape, idx[axis := idx[axis] + lo])]
  {
    var dims := t.shape[axis := hi - lo];
    RavelInRange(dims, idx);
    SlicePositionIs(t.shape, axis, lo, hi, Ravel(dims, idx), idx);
  }

  // ---- Rearrangements

  /** Positions below `n`, none twice. */
  ghost predicate Distinct(src: seq<nat>, n: nat) {
    && (forall p :: 0 <= p < |src| ==> src[p] < n)
    && (forall p, q :: 0 <= p < q < |src| ==> src[p] != src[q])
  }

  function Without(src: seq<nat>, at: nat): seq<nat>
    requires at < |src|
  {
    src[..at] + src[at + 1..]
  }

  lemma WithoutLargest(src: seq<nat>, n: nat, at: nat)
    requires Distinct(src, n + 1) && at < |src| && src[at] == n
    ensures Distinct(Without(src, at), n)
  {
    var rest := Without(src, at);
    forall p | 0 <= p < |rest| ensures rest[p] == src[if p < at then p else p + 1] {}
  }

  lemma {:induction false} AtMost(src: seq<nat>, n: nat)
    requires Distinct(src, n)
    ensures |src| <= n
    decreases n
  {
    if src != [] {
      assert src[0] < n;
      if n - 1 in src {
        var at :| 0 <= at < |src| && src[at] == n - 1;
        WithoutLargest(src, n - 1, at);
        AtMost(Without(src, at), n - 1);
      } else {
        AtMost(src, n - 1);
      }
    }
  }

  /** Fetching every position once rearranges the elements. */
  lemma {:induction false} DistinctGather<T>(x: seq<T>, src: seq<nat>)
    requires Distinct(src, |x|) && |src| == |x|
    ensures multiset(Gathered(x, src)) == multiset(x)
    decreases |x|
  {
    if x != [] {
      var n := |x| - 1;
      if n !in src { AtMost(src, n); }
      var at :| 0 <= at < |src| && src[at] == n;
      WithoutLargest(src, n, at);
      DistinctGather(x[..n], Without(src, at));
      GatherWithout(x, src, at);
      assert x == x[..n] + [x[n]];
    }
  }

  /** The axis order that takes a transposition back. */
  function Inverse(axes: seq<nat>): (back: seq<nat>)
    requires IsAxes(axes)
    ensures |back| == |axes| && forall m :: 0 <= m < |axes| ==> back[m] < |axes| && axes[back[m]] == m
    ensures forall a :: 0 <= a < |axes| ==> back[axes[a]] == a
  {
    var back := Unpermute(Counting(|axes|), axes);
    assert forall m :: 0 <= m < |axes| ==> axes[IndexOf(axes, m)] == m && back[m] == IndexOf(axes, m);
    back
  }

  lemma InverseIsAxes(axes: seq<nat>)
    requires IsAxes(axes)
    ensures IsAxes(Inverse(axes))
    ensures Permute(axes, Inverse(axes)) == Counting(|axes|) && Permute(Inverse(axes), axes) == Counting(|axes|)
  {
    var back := Inverse(axes);
    forall m | 0 <= m < |axes| ensures m in back {
      assert back[axes[m]] == m;
    }
    forall m, n | 0 <= m < n < |axes| ensures back[m] != back[n] {
      assert axes[back[m]] == m && axes[back[n]] == n;
    }
  }

  lemma SourcesDiffer(dims: seq<nat>, axes: seq<nat>, p: nat, q: nat)
    requires IsAxes(axes) && |dims| == |axes|
    requires p < Size(Permute(dims, axes)) && q < Size(Permute(dims, axes)) && p != q
    ensures TransposeSource(dims, axes, p) != TransposeSource(dims, axes, q)
  {
    var mid, back := Permute(dims, axes), Inverse(axes);
    InverseIsAxes(axes);
    PermuteBack(dims, axes, back);
    SourceRoundTrip(mid, back, axes, p);
    SourceRoundTrip(mid, back, axes, q);
  }

  lemma SourcesDistinct(dims: seq<nat>, axes: seq<nat>)
    requires IsAxes(axes) && |dims| == |axes|
    ensures Distinct(Sources(dims, axes), Size(dims))
    ensures Size(Permute(dims, axes)) <= Size(dims)
  {
    var src := Sources(dims, axes);
    forall p, q | 0 <= p < q < |src| ensures src[p] != src[q] {
      SourcesDiffer(dims, axes, p, q);
    }
    AtMost(src, Size(dims));
  }

  /** Permuting the dimensions keeps the size. */
  lemma SizePermuted(dims: seq<nat>, axes: seq<nat>)
    requires IsAxes(axes) && |dims| == |axes|
    ensures Size(Permute(dims, axes)) == Size(dims)
  {
    InverseIsAxes(axes);
    PermuteBack(dims, axes, Inverse(axes));
    SourcesDistinct(dims, axes);
    SourcesDistinct(Permute(dims, axes), Inverse(axes));
  }

  /** Transposing rearranges the elements, whatever the axis order. */
  lemma TransposedRearranges<T>(x: seq<T>, dims: seq<nat>, axes: seq<nat>)
    requires IsAxes(axes) && |dims| == |axes| && |x| == Size(dims)
    ensures multiset(Transposed(x, dims, axes)) == multiset(x)
  {
    SourcesDistinct(dims, axes);
    SizePermuted(dims, axes);
    DistinctGather(x, Sources(dims, axes));
  }

  lemma GatherWithout<T>(x: seq<T>, src: seq<nat>, at: nat)
    requires x != [] && Distinct(src, |x|) && at < |src| && src[at] == |x| - 1
    requires Distinct(Without(src, at), |x| - 1)
    ensures multiset(Gathered(x, src)) == multiset(Gathered(x[..|x| - 1], Without(src, at))) + multiset{x[|x| - 1]}
  {
    var g := Gathered(x, src);
    assert g == g[..at] + [g[at]] + g[at + 1..];
    assert Gathered(x[..|x| - 1], Without(src, at)) == g[..at] + g[at + 1..];
  }
}
