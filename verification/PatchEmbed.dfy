/** The two conversions of a patch embedding from pixel-major to channel-major order. */
module PatchEmbed {
  import opened Common
  import opened Tensors

  /** Pixel `m` and channel `c` of output row `o` change places: `[out, pixel, channel]` becomes
      `[out, channel, pixel]`. */
  ghost predicate IsChannelMajor<T>(data: seq<T>, r: seq<T>, out: nat, pixels: nat, channels: nat) {
    && |r| == |data| == out * pixels * channels
    && forall o, m, c :: Inside(out, pixels, channels, o, m, c) ==> PixelMoved(data, r, pixels, channels, o, m, c)
  }

  ghost predicate PixelMoved<T>(data: seq<T>, r: seq<T>, pixels: nat, channels: nat, o: nat, m: nat, c: nat) {
    var to, from := Idx(channels, pixels, o, c, m), Idx(pixels, channels, o, m, c);
    to < |r| && from < |data| && r[to] == data[from]
  }

  /** Where each element of the pixel-major data goes. */
  function Targets(out: nat, pixels: nat, channels: nat): (to: seq<nat>)
    ensures |to| == out * pixels * channels
  {
    Ravel3(out, pixels, channels, 0, 0, 0);
    seq(out * pixels * channels, p requires 0 <= p < out * pixels * channels =>
      var idx := Unravel([out, pixels, channels], p);
      Idx(channels, pixels, idx[0], idx[2], idx[1]))
  }

  lemma TargetAt(out: nat, pixels: nat, channels: nat, o: nat, m: nat, c: nat)
    requires Inside(out, pixels, channels, o, m, c)
    ensures Idx(pixels, channels, o, m, c) < out * pixels * channels
    ensures Targets(out, pixels, channels)[Idx(pixels, channels, o, m, c)] == Idx(channels, pixels, o, c, m)
  {
    IdxIsRavel(out, pixels, channels, o, m, c);
  }

  lemma SizeTurns(out: nat, pixels: nat, channels: nat)
    ensures out * pixels * channels == out * channels * pixels
  {
    assert pixels * channels == channels * pixels;
    assert out * (pixels * channels) == out * pixels * channels;
    assert out * (channels * pixels) == out * channels * pixels;
  }

  lemma TargetsDistinct(out: nat, pixels: nat, channels: nat)
    ensures Distinct(Targets(out, pixels, channels), out * pixels * channels)
  {
    var to := Targets(out, pixels, channels);
    IdxFacts(out, channels, pixels);
    SizeTurns(out, pixels, channels);
    forall p | 0 <= p < |to| ensures to[p] < out * pixels * channels {
      var o, m, c := PlaceOf(out, pixels, channels, p);
      TargetAt(out, pixels, channels, o, m, c);
      assert Inside(out, channels, pixels, o, c, m);
    }
    forall p, p' | 0 <= p < p' < |to| ensures to[p] != to[p'] {
      var o, m, c := PlaceOf(out, pixels, channels, p);
      var o', m', c' := PlaceOf(out, pixels, channels, p');
      TargetAt(out, pixels, channels, o, m, c);
      TargetAt(out, pixels, channels, o', m', c');
      assert Inside(out, channels, pixels, o, c, m) && Inside(out, channels, pixels, o', c', m');
    }
  }

  lemma OffsetsAgree(channels: nat, patch: nat, o: nat, m: nat, c: nat)
    ensures var flat, pixels := channels * patch * patch, patch * patch;
      && o * flat + m * channels + c == Idx(pixels, channels, o, m, c)
      && o * flat + c * pixels + m == Idx(channels, pixels, o, c, m)
  {
    var flat, pixels := channels * patch * patch, patch * patch;
    assert flat == channels * pixels;
    assert o * flat == o * channels * pixels;
    SizeTurns(o, pixels, channels);
    assert (o * pixels + m) * channels == o * pixels * channels + m * channels;
    assert (o * channels + c) * pixels == o * channels * pixels + c * pixels;
  }

  lemma PixelBound(patch: nat, y: nat, x: nat)
    requires y < patch && x < patch
    ensures y * patch + x < patch * patch
  {
    MulMono(y + 1, patch, patch);
    assert (y + 1) * patch == y * patch + patch;
  }

  /** Position of the first channel of a pixel in pixel-major data. */
  function PixelStart(pixels: nat, channels: nat, o: nat, m: nat): nat {
    (o * pixels + m) * channels
  }

  lemma PixelStarts(pixels: nat, channels: nat, o: nat, m: nat)
    ensures PixelStart(pixels, channels, o, m) + channels == PixelStart(pixels, channels, o, m + 1)
    ensures PixelStart(pixels, channels, o, pixels) == PixelStart(pixels, channels, o + 1, 0)
    ensures PixelStart(pixels, channels, o, 0) == o * pixels * channels
  {
  }

  ghost predicate PlacedUpTo<T>(data: seq<T>, r: seq<T>, to: seq<nat>, p: nat) {
    |data| == |r| == |to| && forall q :: 0 <= q < p && q < |data| ==> to[q] < |r| && r[to[q]] == data[q]
  }

  lemma AllPlaced<T>(data: seq<T>, r: seq<T>, out: nat, pixels: nat, channels: nat)
    requires |data| == |r| == out * pixels * channels
    requires PlacedUpTo(data, r, Targets(out, pixels, channels), |data|)
    ensures IsChannelMajor(data, r, out, pixels, channels)
  {
    forall o, m, c | Inside(out, pixels, channels, o, m, c) ensures PixelMoved(data, r, pixels, channels, o, m, c) {
      TargetAt(out, pixels, channels, o, m, c);
    }
  }

  /** The innermost loop: the channels of one pixel. */
  method PlacePixel<T>(data: seq<T>, repacked: array<T>, out: nat, patch: nat, channels: nat, o: nat, m: nat,
                       inPixelBase: nat, outBase: nat)
    requires repacked.Length == |data| == out * (patch * patch) * channels && o < out && m < patch * patch
    requires inPixelBase == PixelStart(patch * patch, channels, o, m)
    requires outBase == o * (channels * patch * patch)
    requires PlacedUpTo(data, repacked[..], Targets(out, patch * patch, channels), inPixelBase)
    modifies repacked
    ensures PlacedUpTo(data, repacked[..], Targets(out, patch * patch, channels), inPixelBase + channels)
  {
    var perChannel := patch * patch;
    ghost var to := Targets(out, perChannel, channels);
    TargetsDistinct(out, perChannel, channels);
    for c := 0 to channels
      invariant forall q :: 0 <= q < inPixelBase + c && q < |data| ==> repacked[to[q]] == data[q]
    {
      assert Inside(out, perChannel, channels, o, m, c);
      TargetAt(out, perChannel, channels, o, m, c);
      OffsetsAgree(channels, patch, o, m, c);
      var src := inPixelBase + c;
      var dst := outBase + c * perChannel + m;
      repacked[dst] := data[src];
    }
  }

  /** All pixels before the `m`-th of patch `o` are in place. */
  ghost predicate PixelsPlaced<T>(data: seq<T>, r: seq<T>, out: nat, patch: nat, channels: nat, o: nat, m: nat) {
    PlacedUpTo(data, r, Targets(out, patch * patch, channels), PixelStart(patch * patch, channels, o, m))
  }

  /** One pixel, at the offsets the loops compute. */
  method PlaceNext<T>(data: seq<T>, repacked: array<T>, out: nat, patch: nat, channels: nat, o: nat, y: nat, x: nat)
    requires repacked.Length == |data| == out * (patch * patch) * channels && o < out && y < patch && x < patch
    requires PixelsPlaced(data, repacked[..], out, patch, channels, o, y * patch + x)
    modifies repacked
    ensures PixelsPlaced(data, repacked[..], out, patch, channels, o, y * patch + x + 1)
  {
    var flatInputDim := channels * patch * patch;
    var m := y * patch + x;
    PixelBound(patch, y, x);
    PixelBase(channels, patch, o, m);
    PixelStarts(patch * patch, channels, o, m);
    PlacePixel(data, repacked, out, patch, channels, o, m, o * flatInputDim + m * channels, o * flatInputDim);
  }

  /** One row of pixels. */
  method PlaceRow<T>(data: seq<T>, repacked: array<T>, out: nat, patch: nat, channels: nat, o: nat, y: nat)
    requires repacked.Length == |data| == out * (patch * patch) * channels && o < out && y < patch
    requires PixelsPlaced(data, repacked[..], out, patch, channels, o, y * patch)
    modifies repacked
    ensures PixelsPlaced(data, repacked[..], out, patch, channels, o, (y + 1) * patch)
  {
    for x := 0 to patch
      invariant PixelsPlaced(data, repacked[..], out, patch, channels, o, y * patch + x)
    {
      PlaceNext(data, repacked, out, patch, channels, o, y, x);
    }
    assert y * patch + patch == (y + 1) * patch;
  }

  /** One patch. */
  method PlacePatch<T>(data: seq<T>, repacked: array<T>, out: nat, patch: nat, channels: nat, o: nat)
    requires repacked.Length == |data| == out * (patch * patch) * channels && o < out
    requires PixelsPlaced(data, repacked[..], out, patch, channels, o, 0)
    modifies repacked
    ensures PixelsPlaced(data, repacked[..], out, patch, channels, o + 1, 0)
  {
    for y := 0 to patch
      invariant PixelsPlaced(data, repacked[..], out, patch, channels, o, y * patch)
    {
      PlaceRow(data, repacked, out, patch, channels, o, y);
    }
    PixelStarts(patch * patch, channels, o, 0);
  }

  method RepackPatchEmbeddingWeight<T(0)>(data: seq<T>, srcShape: seq<nat>, channels: nat, patch: nat, zero: T)
    returns (result: Result<seq<T>>)
    ensures result.Ok? <==>
      (|srcShape| == 2 && srcShape[1] == channels * patch * patch && |data| == srcShape[0] * srcShape[1])
    ensures result.Ok? ==> IsChannelMajor(data, result.value, srcShape[0], patch * patch, channels)
  {
    if |srcShape| != 2 { return Err("invalid patch embedding shape rank"); }
    var outDim, flatInputDim := srcShape[0], srcShape[1];
    if flatInputDim != channels * patch * patch { return Err("invalid patch embedding input dim"); }
    if |data| != outDim * flatInputDim { return Err("invalid patch embedding data size"); }
    var repacked := new T[|data|](_ => zero);
    FlatSize(channels, patch, outDim);
    PixelStarts(patch * patch, channels, 0, 0);
    for o := 0 to outDim
      invariant PixelsPlaced(data, repacked[..], outDim, patch, channels, o, 0)
    {
      PlacePatch(data, repacked, outDim, patch, channels, o);
    }
    PixelStarts(patch * patch, channels, outDim, 0);
    AllPlaced(data, repacked[..], outDim, patch * patch, channels);
    result := Ok(repacked[..]);
  }

  lemma FlatSize(channels: nat, patch: nat, out: nat)
    ensures out * (channels * patch * patch) == out * (patch * patch) * channels
  {
    SizeTurns(out, patch * patch, channels);
    assert channels * patch * patch == channels * (patch * patch);
    assert out * (channels * (patch * patch)) == out * channels * (patch * patch);
  }

  lemma PixelBase(channels: nat, patch: nat, o: nat, m: nat)
    ensures o * (channels * patch * patch) + m * channels == PixelStart(patch * patch, channels, o, m)
  {
    FlatSize(channels, patch, o);
    assert (o * (patch * patch) + m) * channels == o * (patch * patch) * channels + m * channels;
  }

  /** In five dimensions: `[out, y, x, channel]` becomes `[out, channel, y, x]`, for all sizes. */
  lemma PatchAt<T>(data: seq<T>, r: seq<T>, out: nat, patch: nat, channels: nat, o: nat, y: nat, x: nat, c: nat)
    requires IsChannelMajor(data, r, out, patch * patch, channels)
    requires o < out && y < patch && x < patch && c < channels
    ensures var to, from := Ravel([out, channels, patch, patch], [o, c, y, x]), Ravel([out, patch, patch, channels], [o, y, x, c]);
      to < |r| && from < |data| && r[to] == data[from]
  {
    var m := y * patch + x;
    PixelBound(patch, y, x);
    assert Inside(out, patch * patch, channels, o, m, c);
    assert PixelMoved(data, r, patch * patch, channels, o, m, c);
    Ravel4(out, channels, patch, patch, o, c, y, x);
    Ravel4(out, patch, patch, channels, o, y, x, c);
    TwoDigits(patch, o * channels + c, y, x);
    TwoDigits(patch, o, y, x);
  }

  lemma TwoDigits(patch: nat, n: nat, y: nat, x: nat)
    ensures (n * patch + y) * patch + x == n * (patch * patch) + (y * patch + x)
  {
    assert (n * patch + y) * patch == n * patch * patch + y * patch;
  }

  lemma ChannelMajorRearranges<T>(data: seq<T>, r: seq<T>, out: nat, pixels: nat, channels: nat)
    requires IsChannelMajor(data, r, out, pixels, channels)
    ensures multiset(r) == multiset(data)
  {
    var to := Targets(out, pixels, channels);
    TargetsDistinct(out, pixels, channels);
    forall p | 0 <= p < |data| ensures data[p] == r[to[p]] {
      var o, m, c := PlaceOf(out, pixels, channels, p);
      TargetAt(out, pixels, channels, o, m, c);
      assert PixelMoved(data, r, pixels, channels, o, m, c);
    }
    DistinctGather(r, to);
    assert Gathered(r, to) == data;
  }

  // ---- The Gemma form: the output is filled in order, three channels, square patches

  function ISqrt(n: nat): (r: nat)
    ensures r * r <= n < (r + 1) * (r + 1)
  {
    if n == 0 then 0
    else var r := ISqrt(n - 1); if (r + 1) * (r + 1) <= n then r + 1 else r
  }

  function Sources3(rows: nat, pixels: nat, width: nat): (from: seq<nat>)
    ensures |from| == rows * 3 * pixels
  {
    Ravel3(rows, 3, pixels, 0, 0, 0);
    seq(rows * 3 * pixels, t requires 0 <= t < rows * 3 * pixels =>
      var idx := Unravel([rows, 3, pixels], t);
      idx[0] * width + idx[2] * 3 + idx[1])
  }

  /** Output rows hold three planes of `pixels` values; whatever they leave of the buffer is zero. */
  ghost predicate IsReshaped<T>(data: seq<T>, r: seq<T>, rows: nat, width: nat, pixels: nat, zero: T) {
    && |r| == |data| && rows * 3 * pixels <= |r|
    && (forall e, c, m :: Inside(rows, 3, pixels, e, c, m) ==> PlaneMoved(data, r, width, pixels, e, c, m))
    && (forall t :: rows * 3 * pixels <= t < |r| ==> r[t] == zero)
  }

  ghost predicate PlaneMoved<T>(data: seq<T>, r: seq<T>, width: nat, pixels: nat, e: nat, c: nat, m: nat) {
    var to, from := Idx(3, pixels, e, c, m), e * width + m * 3 + c;
    to < |r| && from < |data| && r[to] == data[from]
  }

  /** How much data the loops reach: nothing, or to the end of the last row's last pixel. */
  function Needed(rows: nat, width: nat, pixels: nat): nat {
    if rows == 0 || pixels == 0 then 0 else (rows - 1) * width + 3 * pixels
  }

  lemma SourceBelow(rows: nat, width: nat, pixels: nat, e: nat, c: nat, m: nat)
    requires Inside(rows, 3, pixels, e, c, m)
    ensures e * width + m * 3 + c < Needed(rows, width, pixels)
  {
    MulMono(e, rows - 1, width);
  }

  lemma PlanesFit(rows: nat, width: nat, pixels: nat)
    requires 3 * pixels <= width
    ensures rows * 3 * pixels <= Needed(rows, width, pixels)
  {
    if rows > 0 && pixels > 0 {
      MulMono(3 * pixels, width, rows - 1);
      assert rows * 3 * pixels == (3 * pixels) * (rows - 1) + 3 * pixels;
      assert (rows - 1) * width == width * (rows - 1);
    }
  }

  lemma SourceInRange(rows: nat, width: nat, pixels: nat, e: nat, c: nat, m: nat)
    requires 3 * pixels <= width && Inside(rows, 3, pixels, e, c, m)
    ensures e * width + m * 3 + c < Needed(rows, width, pixels)
    ensures Idx(3, pixels, e, c, m) < rows * 3 * pixels
    ensures Sources3(rows, pixels, width)[Idx(3, pixels, e, c, m)] == e * width + m * 3 + c
  {
    IdxIsRavel(rows, 3, pixels, e, c, m);
    SourceBelow(rows, width, pixels, e, c, m);
  }

  ghost predicate FilledUpTo<T>(data: seq<T>, r: seq<T>, from: seq<nat>, t: nat, zero: T) {
    && |r| == |data| && t <= |from| <= |r|
    && (forall q :: 0 <= q < t ==> from[q] < |data| && r[q] == data[from[q]])
    && (forall q :: t <= q < |r| ==> r[q] == zero)
  }

  lemma PlaneStarts(patch: nat, e: nat, c: nat)
    ensures Idx(3, patch * patch, e, c, patch * patch) == Idx(3, patch * patch, e, c + 1, 0)
    ensures Idx(3, patch * patch, e, 3, 0) == Idx(3, patch * patch, e + 1, 0, 0)
  {
  }

  lemma OutputOffset(patch: nat, e: nat, c: nat, h: nat, w: nat)
    ensures e * 3 * patch * patch + c * patch * patch + h * patch + w == Idx(3, patch * patch, e, c, h * patch + w)
  {
    assert (e * 3 + c) * (patch * patch) == e * 3 * (patch * patch) + c * (patch * patch);
    assert e * 3 * patch * patch == e * 3 * (patch * patch) && c * patch * patch == c * (patch * patch);
  }

  lemma InputOffset(patch: nat, width: nat, e: nat, h: nat, w: nat, c: nat)
    ensures e * width + h * patch * 3 + w * 3 + c == e * width + (h * patch + w) * 3 + c
  {
  }

  /** What is asked of the data is no more than the loops reach. */
  method ReshapePatchEmbed<T(0)>(data: seq<T>, shape: array<nat>, zero: T) returns (r: seq<T>)
    requires shape.Length == 2 ==>
      var patch := ISqrt(shape[1] / 3); Needed(shape[0], shape[1], patch * patch) <= |data|
    modifies shape
    ensures shape.Length != 2 ==> r == data && shape[..] == old(shape[..])
    ensures shape.Length == 2 ==>
      var rows, width := old(shape[0]), old(shape[1]);
      var patch := ISqrt(width / 3);
      shape[..] == [rows, 3 * patch * patch] && IsReshaped(data, r, rows, width, patch * patch, zero)
  {
    if shape.Length != 2 { return data; }
    var nEmbd, ksqC := shape[0], shape[1];
    var patchSize := ISqrt(ksqC / 3);
    r := FillPlanes(data, nEmbd, ksqC, patchSize, zero);
    shape[0] := nEmbd;
    shape[1] := 3 * patchSize * patchSize;
  }

  /** The two offsets of one assignment, and their bounds. */
  lemma FillOffsets(rows: nat, width: nat, patch: nat, e: nat, c: nat, h: nat, w: nat)
    requires 3 * (patch * patch) <= width && e < rows && c < 3 && h < patch && w < patch
    ensures var t := Idx(3, patch * patch, e, c, h * patch + w);
      var from := Sources3(rows, patch * patch, width);
      && e * 3 * patch * patch + c * patch * patch + h * patch + w == t
      && t < |from| && from[t] < Needed(rows, width, patch * patch)
      && e * width + h * patch * 3 + w * 3 + c == from[t]
      && Idx(3, patch * patch, e, c, h * patch + (w + 1)) == t + 1
  {
    PixelBound(patch, h, w);
    SourceInRange(rows, width, patch * patch, e, c, h * patch + w);
    OutputOffset(patch, e, c, h, w);
    InputOffset(patch, width, e, h, w, c);
  }

  /** The innermost loop: one row of one plane, its offsets split into a base and the part in `w`. */
  method FillRow<T>(data: seq<T>, result: array<T>, srcBase: nat, dstBase: nat, patch: nat, ghost from: seq<nat>, zero: T)
    requires dstBase + patch <= |from|
    requires forall w :: 0 <= w < patch ==> from[dstBase + w] == srcBase + w * 3 < |data|
    requires FilledUpTo(data, result[..], from, dstBase, zero)
    modifies result
    ensures FilledUpTo(data, result[..], from, dstBase + patch, zero)
  {
    for w := 0 to patch
      invariant FilledUpTo(data, result[..], from, dstBase + w, zero)
    {
      assert from[dstBase + w] == srcBase + w * 3;
      result[dstBase + w] := data[srcBase + w * 3];
    }
  }

  function SourceBase(width: nat, patch: nat, e: nat, c: nat, h: nat): nat {
    e * width + h * patch * 3 + c
  }

  function OutputBase(patch: nat, e: nat, c: nat, h: nat): nat {
    e * 3 * patch * patch + c * patch * patch + h * patch
  }

  lemma RowOffsets(rows: nat, width: nat, patch: nat, e: nat, c: nat, h: nat, size: nat)
    requires 3 * (patch * patch) <= width && Needed(rows, width, patch * patch) <= size && e < rows && c < 3 && h < patch
    ensures var from := Sources3(rows, patch * patch, width);
      var srcBase, dstBase := SourceBase(width, patch, e, c, h), OutputBase(patch, e, c, h);
      && dstBase + patch <= |from|
      && dstBase == Idx(3, patch * patch, e, c, h * patch)
      && dstBase + patch == Idx(3, patch * patch, e, c, (h + 1) * patch)
      && forall w :: 0 <= w < patch ==> from[dstBase + w] == srcBase + w * 3 < size
  {
    OutputOffset(patch, e, c, h, 0);
    assert h * patch + patch == (h + 1) * patch;
    FillOffsets(rows, width, patch, e, c, h, patch - 1);
    var from := Sources3(rows, patch * patch, width);
    var srcBase, dstBase := SourceBase(width, patch, e, c, h), OutputBase(patch, e, c, h);
    forall w | 0 <= w < patch ensures dstBase + w < |from| && from[dstBase + w] == srcBase + w * 3 < size {
      FillOffsets(rows, width, patch, e, c, h, w);
    }
  }

  method RowBases(rows: nat, width: nat, patch: nat, e: nat, c: nat, h: nat, size: nat)
    returns (srcBase: nat, dstBase: nat)
    requires 3 * (patch * patch) <= width && Needed(rows, width, patch * patch) <= size && e < rows && c < 3 && h < patch
    ensures dstBase == Idx(3, patch * patch, e, c, h * patch)
    ensures dstBase + patch == Idx(3, patch * patch, e, c, (h + 1) * patch)
    ensures var from := Sources3(rows, patch * patch, width);
      dstBase + patch <= |from| && forall w :: 0 <= w < patch ==> from[dstBase + w] == srcBase + w * 3 < size
  {
    RowOffsets(rows, width, patch, e, c, h, size);
    srcBase, dstBase := SourceBase(width, patch, e, c, h), OutputBase(patch, e, c, h);
  }

  /** The first `h` rows of a plane, and all before it, are filled. */
  ghost predicate RowsFilled<T>(data: seq<T>, r: seq<T>, from: seq<nat>, patch: nat, e: nat, c: nat, h: nat, zero: T) {
    FilledUpTo(data, r, from, Idx(3, patch * patch, e, c, h * patch), zero)
  }

  method FillNextRow<T(0)>(data: seq<T>, result: array<T>, nEmbd: nat, ksqC: nat, patch: nat, e: nat, c: nat, h: nat,
                           ghost from: seq<nat>, zero: T)
    requires Needed(nEmbd, ksqC, patch * patch) <= |data| && 3 * (patch * patch) <= ksqC && e < nEmbd && c < 3 && h < patch
    requires from == Sources3(nEmbd, patch * patch, ksqC)
    requires RowsFilled(data, result[..], from, patch, e, c, h, zero)
    modifies result
    ensures RowsFilled(data, result[..], from, patch, e, c, h + 1, zero)
  {
    var srcBase, dstBase := RowBases(nEmbd, ksqC, patch, e, c, h, |data|);
    FillRow(data, result, srcBase, dstBase, patch, from, zero);
  }

  /** One plane of one output row. */
  method FillPlane<T(0)>(data: seq<T>, result: array<T>, nEmbd: nat, ksqC: nat, patch: nat, e: nat, c: nat,
                         ghost from: seq<nat>, zero: T)
    requires Needed(nEmbd, ksqC, patch * patch) <= |data| && 3 * (patch * patch) <= ksqC && e < nEmbd && c < 3
    requires from == Sources3(nEmbd, patch * patch, ksqC)
    requires RowsFilled(data, result[..], from, patch, e, c, 0, zero)
    modifies result
    ensures RowsFilled(data, result[..], from, patch, e, c, patch, zero)
  {
    for h := 0 to patch
      invariant RowsFilled(data, result[..], from, patch, e, c, h, zero)
    {
      FillNextRow(data, result, nEmbd, ksqC, patch, e, c, h, from, zero);
    }
  }

  /** The outer loops. */
  method FillPlanes<T(0)>(data: seq<T>, nEmbd: nat, ksqC: nat, patch: nat, zero: T) returns (r: seq<T>)
    requires Needed(nEmbd, ksqC, patch * patch) <= |data| && 3 * (patch * patch) <= ksqC
    ensures IsReshaped(data, r, nEmbd, ksqC, patch * patch, zero)
  {
    var result := new T[|data|](_ => zero);
    ghost var pixels := patch * patch;
    ghost var from := Sources3(nEmbd, pixels, ksqC);
    OutputFits(nEmbd, ksqC, pixels);
    for e := 0 to nEmbd
      invariant FilledUpTo(data, result[..], from, Idx(3, pixels, e, 0, 0), zero)
    {
      for c := 0 to 3
        invariant FilledUpTo(data, result[..], from, Idx(3, pixels, e, c, 0), zero)
      {
        assert RowsFilled(data, result[..], from, patch, e, c, 0, zero);
        FillPlane(data, result, nEmbd, ksqC, patch, e, c, from, zero);
        PlaneStarts(patch, e, c);
      }
      PlaneStarts(patch, e, 0);
    }
    r := result[..];
    AllFilled(data, r, nEmbd, ksqC, pixels, zero);
  }

  lemma OutputFits(rows: nat, width: nat, pixels: nat)
    requires 3 * pixels <= width
    ensures rows * 3 * pixels <= Needed(rows, width, pixels)
    ensures Idx(3, pixels, 0, 0, 0) == 0 && Idx(3, pixels, rows, 0, 0) == rows * 3 * pixels
  {
    PlanesFit(rows, width, pixels);
  }

  lemma AllFilled<T>(data: seq<T>, r: seq<T>, rows: nat, width: nat, pixels: nat, zero: T)
    requires 3 * pixels <= width
    requires FilledUpTo(data, r, Sources3(rows, pixels, width), Idx(3, pixels, rows, 0, 0), zero)
    ensures IsReshaped(data, r, rows, width, pixels, zero)
  {
    OutputFits(rows, width, pixels);
    forall e, c, m | Inside(rows, 3, pixels, e, c, m) ensures PlaneMoved(data, r, width, pixels, e, c, m) {
      SourceInRange(rows, width, pixels, e, c, m);
    }
  }

  /** With three channels and rows of exactly `3 * patch * patch` values, both conversions compute
      the same array. */
  lemma ConversionsAgree<T>(data: seq<T>, r: seq<T>, s: seq<T>, out: nat, patch: nat, zero: T)
    requires IsChannelMajor(data, r, out, patch * patch, 3)
    requires IsReshaped(data, s, out, 3 * (patch * patch), patch * patch, zero)
    ensures ISqrt(3 * (patch * patch) / 3) == patch
    ensures r == s
  {
    SqrtExact(patch);
    SizeTurns(out, patch * patch, 3);
    forall p | 0 <= p < |r| ensures r[p] == s[p] {
      AgreeAt(data, r, s, out, patch * patch, zero, p);
    }
  }

  lemma AgreeAt<T>(data: seq<T>, r: seq<T>, s: seq<T>, out: nat, pixels: nat, zero: T, p: nat)
    requires IsChannelMajor(data, r, out, pixels, 3) && IsReshaped(data, s, out, 3 * pixels, pixels, zero)
    requires p < |r|
    ensures r[p] == s[p]
  {
    SizeTurns(out, pixels, 3);
    var e, c, m := PlaceOf(out, 3, pixels, p);
    assert Inside(out, pixels, 3, e, m, c);
    assert PixelMoved(data, r, pixels, 3, e, m, c);
    assert PlaneMoved(data, s, 3 * pixels, pixels, e, c, m);
    SameSource(pixels, e, m, c);
  }

  lemma SameSource(pixels: nat, e: nat, m: nat, c: nat)
    ensures e * (3 * pixels) + m * 3 + c == Idx(pixels, 3, e, m, c)
  {
  }

  lemma SquareGrows(a: nat, b: nat)
    requires a <= b
    ensures a * a <= b * b
  {
    MulMono(a, b, a);
    MulMono(a, b, b);
  }

  lemma SquareStep(p: nat)
    ensures (p + 1) * (p + 1) > p * p
  {
    assert (p + 1) * (p + 1) == p * p + 2 * p + 1;
  }

  lemma RootUnique(r: nat, p: nat)
    requires r * r <= p * p < (r + 1) * (r + 1)
    ensures r == p
  {
    if r < p {
      SquareGrows(r + 1, p);
    } else if r > p {
      SquareGrows(p + 1, r);
      SquareStep(p);
    }
  }

  lemma SqrtExact(patch: nat)
    ensures ISqrt(patch * patch) == patch
  {
    var n := patch * patch;
    RootUnique(ISqrt(n), patch);
  }
}
