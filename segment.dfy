/**
 * The label map of `runSegmentation` (scripts/segment.js): the segment
 * metadata, and an RGBA byte buffer that starts white and gets each
 * segment's index painted into the R, G and B bytes of the pixels its mask
 * covers, later segments over earlier ones.
 *
 * The segmentation model's output is the input `result`. The buffer is a
 * `Uint8ClampedArray`, so a stored index above 255 reads back as 255.
 */
module Segmentation {
  import opened Wrappers

  /** A mask of the model's output: its size and its values, row by row. */
  datatype Mask = Mask(width: nat, height: nat, values: seq<real>)

  /** One segment of the model's output; its mask may be absent. (`label`
      is a Dafny keyword, so the label field is `caption`.) */
  datatype Segment = Segment(caption: string, score: Option<real>, mask: Option<Mask>)

  /** The metadata written for a segment. */
  datatype SegmentMeta = SegmentMeta(id: nat, caption: string, score: Option<real>)

  /** The label map: its size, the segment metadata and the RGBA bytes. */
  datatype LabelMap = LabelMap(width: nat, height: nat, segments: seq<SegmentMeta>, bytes: seq<int>)

  const NoMaskData := "No mask data found"
  /** What Node reports when `mask.data` is read from a missing mask. */
  const MissingMaskData := "Cannot read properties of undefined (reading 'data')"

  /** `segments`: each segment's label and score under its position. */
  function SegmentsOf(result: seq<Segment>): (metas: seq<SegmentMeta>)
    ensures |metas| == |result|
    ensures forall i :: 0 <= i < |result| ==>
      metas[i].id == i && metas[i].caption == result[i].caption && metas[i].score == result[i].score
  {
    seq(|result|, i requires 0 <= i < |result| => SegmentMeta(i, result[i].caption, result[i].score))
  }

  /** `maskData[maskIdx] > 0.5`; past the end of the values the read gives
      `undefined`, which is not greater than 0.5. */
  predicate Covers(mask: Mask, p: nat)
  {
    p < |mask.values| && mask.values[p] > 0.5
  }

  /** The value a `Uint8ClampedArray` stores for a segment index. */
  function ClampByte(v: nat): (b: nat)
    ensures b <= 255
    ensures v <= 255 ==> b == v
  {
    if v > 255 then 255 else v
  }

  /** Byte `k` is a colour byte (R, G or B) of a pixel the mask covers. */
  predicate PaintsByte(mask: Mask, k: nat)
  {
    k % 4 != 3 && Covers(mask, k / 4)
  }

  /** The bytes after one segment with index `v` is painted over `s` for a
      picture of `pixels` pixels. */
  function PaintedBytes(s: seq<int>, mask: Mask, v: int, pixels: nat): (r: seq<int>)
    ensures |r| == |s|
    ensures forall k :: 0 <= k < |s| && !(k < 4 * pixels && PaintsByte(mask, k)) ==> r[k] == s[k]
    ensures forall k :: 0 <= k < |s| && k < 4 * pixels && PaintsByte(mask, k) ==> r[k] == v
  {
    seq(|s|, k requires 0 <= k < |s| => if k < 4 * pixels && PaintsByte(mask, k) then v else s[k])
  }

  /** Every segment below `n` has a mask. */
  predicate MasksUpTo(result: seq<Segment>, n: nat)
  {
    n <= |result| && forall i :: 0 <= i < n ==> result[i].mask.Some?
  }

  /** The bytes after the first `n` segments are painted over the white
      buffer of a `width` by `height` picture. */
  function Labels(result: seq<Segment>, n: nat, width: nat, height: nat): (r: seq<int>)
    requires MasksUpTo(result, n)
    ensures |r| == 4 * (width * height)
  {
    if n == 0 then seq(4 * (width * height), _ => 255)
    else PaintedBytes(Labels(result, n - 1, width, height), result[n - 1].mask.value, ClampByte(n - 1), width * height)
  }

  /** The last of the first `n` segments whose mask covers pixel `p`. */
  function LastCovering(result: seq<Segment>, n: nat, p: nat): (r: Option<nat>)
    requires MasksUpTo(result, n)
    ensures r.None? <==> forall i :: 0 <= i < n ==> !Covers(result[i].mask.value, p)
    ensures r.Some? ==>
      && r.value < n && Covers(result[r.value].mask.value, p)
      && forall i :: r.value < i < n ==> !Covers(result[i].mask.value, p)
  {
    if n == 0 then None
    else if Covers(result[n - 1].mask.value, p) then Some(n - 1)
    else LastCovering(result, n - 1, p)
  }

  /** The four bytes of pixel `p` hold `v`, `v`, `v` and 255. */
  predicate PixelIs(s: seq<int>, p: nat, v: int)
  {
    4 * p + 3 < |s| && s[4 * p] == v && s[4 * p + 1] == v && s[4 * p + 2] == v && s[4 * p + 3] == 255
  }

  /** Each pixel of the label map is grey, opaque, and holds the index of
      the last segment covering it (clamped to a byte), or 255 when none
      does. */
  lemma {:induction false} LabelsPixel(result: seq<Segment>, n: nat, width: nat, height: nat, p: nat)
    requires MasksUpTo(result, n)
    requires p < width * height
    ensures PixelIs(Labels(result, n, width, height), p,
                    match LastCovering(result, n, p) case None => 255 case Some(i) => ClampByte(i))
  {
    var s := Labels(result, n, width, height);
    PixelBytes(p);
    if n > 0 {
      LabelsPixel(result, n - 1, width, height, p);
    }
  }

  /** The bytes of pixel `p` are bytes `4p` to `4p + 3`. */
  lemma PixelBytes(p: nat)
    ensures (4 * p) / 4 == p && (4 * p) % 4 == 0
    ensures (4 * p + 1) / 4 == p && (4 * p + 1) % 4 == 1
    ensures (4 * p + 2) / 4 == p && (4 * p + 2) % 4 == 2
    ensures (4 * p + 3) / 4 == p && (4 * p + 3) % 4 == 3
  {
  }

  /** A painted value below 255 names the segment, by position, that owns the
      pixel: its metadata id is that value and its mask covers the pixel. */
  lemma PaintedValueIdentifiesSegment(result: seq<Segment>, width: nat, height: nat, p: nat)
    requires MasksUpTo(result, |result|)
    requires p < width * height
    ensures var s := Labels(result, |result|, width, height);
      s[4 * p] < 255 ==>
        && 0 <= s[4 * p] < |result|
        && SegmentsOf(result)[s[4 * p]].id == s[4 * p]
        && Covers(result[s[4 * p]].mask.value, p)
  {
    LabelsPixel(result, |result|, width, height, p);
  }

  /** `i < n` and `j < m` put the row-major index `i * m + j` below `n * m`. */
  lemma RowMajorBound(i: nat, j: nat, n: nat, m: nat)
    requires i < n && j < m
    ensures i * m + j < n * m
  {
    assert (i + 1) * m <= n * m;
  }

  /** The initialisation loop: every byte of a `width` by `height` RGBA
      buffer is 255. */
  method NewLabelBuffer(width: nat, height: nat) returns (data: array<int>)
    ensures fresh(data)
    ensures data[..] == Labels([], 0, width, height)
  {
    data := new int[4 * (width * height)];
    var i := 0;
    while i < data.Length
      invariant 0 <= i <= data.Length + 3 && i % 4 == 0
      invariant forall k :: 0 <= k < i && k < data.Length ==> data[k] == 255
    {
      data[i] := 255;
      data[i + 1] := 255;
      data[i + 2] := 255;
      data[i + 3] := 255;
      i := i + 4;
    }
  }

  /** The painting loops for one segment: every covered pixel of the
      picture gets `v` in its R, G and B bytes. */
  method PaintSegment(data: array<int>, width: nat, height: nat, mask: Mask, v: int)
    requires data.Length == 4 * (width * height)
    modifies data
    ensures data[..] == PaintedBytes(old(data[..]), mask, v, width * height)
  {
    ghost var before := data[..];
    ghost var done := 0;
    for y := 0 to height
      invariant done == y * width
      invariant forall k :: 0 <= k < data.Length ==>
        data[k] == if k < 4 * done && PaintsByte(mask, k) then v else before[k]
    {
      for x := 0 to width
        invariant forall k :: 0 <= k < data.Length ==>
          data[k] == if k < 4 * (done + x) && PaintsByte(mask, k) then v else before[k]
      {
        var maskIdx := y * width + x;
        var pixelIdx := (y * width + x) * 4;
        RowMajorBound(y, x, height, width);
        PixelBytes(maskIdx);
        if maskIdx < |mask.values| && mask.values[maskIdx] > 0.5 {
          data[pixelIdx] := v;
          data[pixelIdx + 1] := v;
          data[pixelIdx + 2] := v;
        }
      }
      done := done + width;
    }
    assert done == width * height;
  }

  /** `runSegmentation` without the model, the file output and the logs:
      the first mask gives the size, every segment is painted in order, and
      a missing mask fails the whole run. */
  method RunSegmentation(result: seq<Segment>) returns (out: Result<LabelMap>)
    ensures |result| == 0 || result[0].mask.None? <==> out == Err(NoMaskData)
    ensures out.Err? && out != Err(NoMaskData) ==>
      out == Err(MissingMaskData) && !MasksUpTo(result, |result|)
    ensures out.Ok? <==> |result| > 0 && MasksUpTo(result, |result|)
    ensures out.Ok? ==>
      var first := result[0].mask.value;
      && out.value.width == first.width && out.value.height == first.height
      && out.value.segments == SegmentsOf(result)
      && out.value.bytes == Labels(result, |result|, first.width, first.height)
  {
    var segments := SegmentsOf(result);
    if |result| == 0 || result[0].mask.None? {
      return Err(NoMaskData);
    }
    var first := result[0].mask.value;
    var width, height := first.width, first.height;
    var data := NewLabelBuffer(width, height);
    for segIndex := 0 to |result|
      invariant MasksUpTo(result, segIndex)
      invariant data.Length == 4 * (width * height)
      invariant data[..] == Labels(result, segIndex, width, height)
    {
      if result[segIndex].mask.None? {
        return Err(MissingMaskData);
      }
      PaintSegment(data, width, height, result[segIndex].mask.value, ClampByte(segIndex));
    }
    return Ok(LabelMap(width, height, segments, data[..]));
  }
}
