/**
 * The waveform display of the adaptive knob (app/adaptive-knob/page.tsx):
 * sampled wave shapes, the choice of the two waves to blend from the knob
 * angle, the linear blend and the SVG path string.
 *
 * `Math.sin` and the formatting of numbers into text lie outside the model:
 * they are the parameters `sin2pi` (t maps to sin(2*pi*t)) and `fmt`.
 */
module KnobWaveform {
  import AdaptiveKnob

  datatype WaveType = Sine | Triangle | Saw | Square

  /** `waveNames`, in detent order. */
  const WaveNames: seq<WaveType> := [Sine, Triangle, Saw, Square]

  /** The sizes `getWaveformPath` samples with. */
  const PathWidth: real := 200.0
  const PathHeight: real := 30.0
  const PathPoints: nat := 100

  datatype Point = Point(x: real, y: real)

  /** The y value of wave `w` at phase `t` (the `switch` of `generateWaveformPoints`). */
  function WaveY(w: WaveType, t: real, height: real, sin2pi: real -> real): real
  {
    match w
    case Sine => sin2pi(t) * height
    case Triangle =>
      if t < 0.25 then t * 4.0 * height
      else if t < 0.75 then (1.0 - (t - 0.25) * 4.0) * height
      else ((t - 1.0) * 4.0) * height
    case Square => if t < 0.5 then height else -height
    case Saw => (if t < 0.5 then t * 2.0 else (t - 0.5) * 2.0 - 1.0) * height
  }

  lemma ScaleWithin(a: real, p: real)
    requires a >= 0.0 && 0.0 <= p <= 1.0
    ensures 0.0 <= a * p <= a
  {
    assert a * (1.0 - p) >= 0.0;
  }

  lemma MulBound(t: real, h: real, y: real)
    requires -1.0 <= t <= 1.0 && h >= 0.0 && y == t * h
    ensures -h <= y <= h
  {
    if t >= 0.0 {
      assert t * h <= 1.0 * h;
    } else {
      assert t * h >= -1.0 * h;
    }
  }

  /** The factor the non-sine waves scale `height` by. */
  function Shape(w: WaveType, t: real): real
    requires w != Sine
  {
    match w
    case Triangle =>
      if t < 0.25 then t * 4.0
      else if t < 0.75 then 1.0 - (t - 0.25) * 4.0
      else (t - 1.0) * 4.0
    case Square => if t < 0.5 then 1.0 else -1.0
    case Saw => if t < 0.5 then t * 2.0 else (t - 0.5) * 2.0 - 1.0
  }

  lemma WaveIsShape(w: WaveType, t: real, height: real, sin2pi: real -> real)
    requires w != Sine
    ensures WaveY(w, t, height, sin2pi) == Shape(w, t) * height
  {
  }

  /** The triangle, saw and square waves stay within [-height, height] over one period. */
  lemma WaveBounded(w: WaveType, t: real, height: real, sin2pi: real -> real)
    requires w != Sine && 0.0 <= t <= 1.0 && height >= 0.0
    ensures -height <= WaveY(w, t, height, sin2pi) <= height
  {
    WaveIsShape(w, t, height, sin2pi);
    ShapeBounded(w, t);
    MulBound(Shape(w, t), height, WaveY(w, t, height, sin2pi));
  }

  lemma ShapeBounded(w: WaveType, t: real)
    requires w != Sine && 0.0 <= t <= 1.0
    ensures -1.0 <= Shape(w, t) <= 1.0
  {
  }

  /** The triangle wave is continuous at its two corners and returns to 0 at the end of the period. */
  lemma TriangleContinuous(height: real, sin2pi: real -> real)
    ensures WaveY(Triangle, 0.0, height, sin2pi) == 0.0
    ensures WaveY(Triangle, 0.25, height, sin2pi) == height
    ensures WaveY(Triangle, 0.75, height, sin2pi) == -height
    ensures WaveY(Triangle, 1.0, height, sin2pi) == 0.0
  {
  }

  /** Sample `i` of `generateWaveformPoints(w, width, height, points)`. */
  function WavePoint(w: WaveType, width: real, height: real, points: nat, i: nat, sin2pi: real -> real): Point
    requires points > 0
  {
    var t := i as real / points as real;
    Point(t * width, WaveY(w, t, height, sin2pi))
  }

  /** `generateWaveformPoints`: `points + 1` samples of one period of the wave. */
  method GenerateWaveformPoints(w: WaveType, width: real, height: real, points: nat, sin2pi: real -> real)
    returns (ps: seq<Point>)
    requires points > 0
    ensures |ps| == points + 1
    ensures forall i :: 0 <= i <= points ==> ps[i] == WavePoint(w, width, height, points, i, sin2pi)
    ensures ps[0].x == 0.0 && ps[points].x == width
  {
    ps := [];
    var i := 0;
    while i <= points
      invariant 0 <= i <= points + 1
      invariant |ps| == i
      invariant forall j :: 0 <= j < i ==> ps[j] == WavePoint(w, width, height, points, j, sin2pi)
    {
      var t := i as real / points as real;
      var x := t * width;
      var y := WaveY(w, t, height, sin2pi);
      ps := ps + [Point(x, y)];
      i := i + 1;
    }
  }

  /** The pair of neighbouring waves that an angle blends, stated directly:
      below -45 the first pair, below 45 the second, otherwise the third. */
  function SegmentIndex(angle: real): (i: nat)
    ensures i + 1 < |AdaptiveKnob.SnapPoints|
  {
    if angle < AdaptiveKnob.SnapPoints[1] then 0
    else if angle < AdaptiveKnob.SnapPoints[2] then 1
    else 2
  }

  /** The segment search of `getWaveformPath`: the first `i` with
      `snapPoints[i] <= angle < snapPoints[i + 1]`, 0 when there is none, and
      the last segment for an angle at or past the last detent. */
  method FindSegment(angle: real) returns (segmentIndex: nat)
    ensures segmentIndex == SegmentIndex(angle)
  {
    var snaps := AdaptiveKnob.SnapPoints;
    segmentIndex := 0;
    var i := 0;
    while i < |snaps| - 1
      invariant 0 <= i <= |snaps| - 1
      invariant segmentIndex == 0
      invariant forall j :: 0 <= j < i ==> !(snaps[j] <= angle < snaps[j + 1])
    {
      if snaps[i] <= angle && angle < snaps[i + 1] {
        segmentIndex := i;
        break;
      }
      i := i + 1;
    }
    if angle >= snaps[|snaps| - 1] {
      segmentIndex := |snaps| - 2;
    }
  }

  /** How far the angle has travelled from the segment's first detent to its second. */
  function Progress(angle: real): real
  {
    var i := SegmentIndex(angle);
    (angle - AdaptiveKnob.SnapPoints[i]) / (AdaptiveKnob.SnapPoints[i + 1] - AdaptiveKnob.SnapPoints[i])
  }

  /** Within the knob's range the segment lies between its two detents and the progress in [0, 1]. */
  lemma SegmentInRange(angle: real)
    requires AdaptiveKnob.MinAngle <= angle <= AdaptiveKnob.MaxAngle
    ensures var i := SegmentIndex(angle);
      AdaptiveKnob.SnapPoints[i] <= angle <= AdaptiveKnob.SnapPoints[i + 1]
    ensures 0.0 <= Progress(angle) <= 1.0
  {
    var i := SegmentIndex(angle);
    var lo, hi := AdaptiveKnob.SnapPoints[i], AdaptiveKnob.SnapPoints[i + 1];
    assert hi - lo == 90.0;
    assert 0.0 <= angle - lo <= 90.0;
  }

  /** At detent k the display shows wave k unblended: the blend starts from it
      with progress 0, or, at the last detent, ends at it with progress 1. */
  lemma DetentShowsItsWave(k: nat)
    requires k < |AdaptiveKnob.SnapPoints|
    ensures var a := AdaptiveKnob.SnapPoints[k];
      if k < 3 then SegmentIndex(a) == k && Progress(a) == 0.0
      else SegmentIndex(a) + 1 == k && Progress(a) == 1.0
  {
  }

  /** The linear blend of `getWaveformPath`. */
  function Blend(from: real, to: real, progress: real): real
  {
    from * (1.0 - progress) + to * progress
  }

  /** The blend moves from `from` towards `to` by the fraction `progress`. */
  lemma BlendOffset(from: real, to: real, progress: real)
    ensures Blend(from, to, progress) == from + (to - from) * progress
  {
  }

  /** The blend equals `from` at progress 0, `to` at progress 1, and lies between them in between. */
  lemma BlendBetween(from: real, to: real, progress: real)
    requires 0.0 <= progress <= 1.0
    ensures Blend(from, to, 0.0) == from && Blend(from, to, 1.0) == to
    ensures from <= to ==> from <= Blend(from, to, progress) <= to
    ensures to <= from ==> to <= Blend(from, to, progress) <= from
  {
    BlendOffset(from, to, progress);
    var d := (to - from) * progress;
    if from <= to {
      ScaleWithin(to - from, progress);
    } else {
      ScaleWithin(from - to, progress);
      assert d == -((from - to) * progress);
    }
  }

  /** The blend loop of `getWaveformPath`: x from the "from" points, y blended. */
  method BlendPoints(from: seq<Point>, to: seq<Point>, progress: real) returns (blended: seq<Point>)
    requires |to| >= |from|
    ensures |blended| == |from|
    ensures forall i :: 0 <= i < |from| ==>
      blended[i] == Point(from[i].x, Blend(from[i].y, to[i].y, progress))
    ensures progress == 0.0 ==> blended == from
    ensures progress == 1.0 ==> forall i :: 0 <= i < |from| ==> blended[i].y == to[i].y
  {
    blended := [];
    var i := 0;
    while i < |from|
      invariant 0 <= i <= |from|
      invariant |blended| == i
      invariant forall j :: 0 <= j < i ==> blended[j] == Point(from[j].x, Blend(from[j].y, to[j].y, progress))
    {
      var blendedY := from[i].y * (1.0 - progress) + to[i].y * progress;
      blended := blended + [Point(from[i].x, blendedY)];
      i := i + 1;
    }
    if progress == 0.0 {
      assert forall j :: 0 <= j < |from| ==> blended[j] == from[j];
    }
  }

  /** One path command: `M x y` for the first point, `L x y` for the others. */
  function Command(p: Point, first: bool, fmt: real -> string): string
  {
    (if first then "M" else "L") + " " + fmt(p.x) + " " + fmt(p.y)
  }

  function Commands(ps: seq<Point>, fmt: real -> string): (cs: seq<string>)
    ensures |cs| == |ps|
    ensures forall i :: 0 <= i < |ps| ==>
      && |cs[i]| > 0 && cs[i][0] == (if i == 0 then 'M' else 'L')
      && cs[i][1..] == " " + fmt(ps[i].x) + " " + fmt(ps[i].y)
  {
    seq(|ps|, i requires 0 <= i < |ps| => Command(ps[i], i == 0, fmt))
  }

  /** `Array.prototype.join(sep)`. */
  function Join(parts: seq<string>, sep: string): string
  {
    if |parts| == 0 then ""
    else if |parts| == 1 then parts[0]
    else parts[0] + sep + Join(parts[1..], sep)
  }

  lemma {:induction false} JoinAppend(parts: seq<string>, q: string, sep: string)
    requires |parts| > 0
    ensures Join(parts + [q], sep) == Join(parts, sep) + sep + q
  {
    if |parts| == 1 {
      assert parts + [q] == [parts[0], q];
      assert Join([q], sep) == q;
    } else {
      assert (parts + [q])[1..] == parts[1..] + [q];
      JoinAppend(parts[1..], q, sep);
    }
  }

  /** `pointsToPath`. */
  function PointsToPath(ps: seq<Point>, fmt: real -> string): string
  {
    Join(Commands(ps, fmt), " ")
  }

  /** The path of no points is empty; one point gives a single move command. */
  lemma PathStart(p: Point, fmt: real -> string)
    ensures PointsToPath([], fmt) == ""
    ensures PointsToPath([p], fmt) == "M " + fmt(p.x) + " " + fmt(p.y)
  {
    assert Commands([p], fmt) == [Command(p, true, fmt)];
  }

  /** Each later point appends a single space and a line command. */
  lemma PathAppend(ps: seq<Point>, p: Point, fmt: real -> string)
    requires |ps| > 0
    ensures PointsToPath(ps + [p], fmt) == PointsToPath(ps, fmt) + " L " + fmt(p.x) + " " + fmt(p.y)
  {
    assert Commands(ps + [p], fmt) == Commands(ps, fmt) + [Command(p, false, fmt)];
    JoinAppend(Commands(ps, fmt), Command(p, false, fmt), " ");
  }

  /** The blended samples that `getWaveformPath` draws for a knob angle. */
  function WaveformSamples(angle: real, sin2pi: real -> real): (ps: seq<Point>)
    ensures |ps| == PathPoints + 1
  {
    var i := SegmentIndex(angle);
    var p := Progress(angle);
    seq(PathPoints + 1, j requires 0 <= j <= PathPoints =>
      var a := WavePoint(WaveNames[i], PathWidth, PathHeight, PathPoints, j, sin2pi);
      var b := WavePoint(WaveNames[i + 1], PathWidth, PathHeight, PathPoints, j, sin2pi);
      Point(a.x, Blend(a.y, b.y, p)))
  }

  /** `getWaveformPath`. */
  method GetWaveformPath(angle: real, sin2pi: real -> real, fmt: real -> string) returns (path: string)
    ensures path == PointsToPath(WaveformSamples(angle, sin2pi), fmt)
  {
    var snaps := AdaptiveKnob.SnapPoints;
    var segmentIndex := FindSegment(angle);
    var progress := (angle - snaps[segmentIndex]) / (snaps[segmentIndex + 1] - snaps[segmentIndex]);
    var fromPoints := GenerateWaveformPoints(WaveNames[segmentIndex], PathWidth, PathHeight, PathPoints, sin2pi);
    var toPoints := GenerateWaveformPoints(WaveNames[segmentIndex + 1], PathWidth, PathHeight, PathPoints, sin2pi);
    var blendedPoints := BlendPoints(fromPoints, toPoints, progress);
    assert blendedPoints == WaveformSamples(angle, sin2pi);
    path := PointsToPath(blendedPoints, fmt);
  }
}
