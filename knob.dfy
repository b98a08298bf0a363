/**
 * The drag/snap state machine of the adaptive knob (app/adaptive-knob/page.tsx).
 *
 * Angles are degrees, as `real`. The pointer angle that the page derives
 * with `atan2` from the mouse position is an input of every step.
 */
module AdaptiveKnob {
  import opened Wrappers

  /** The four detents of the knob, one per waveform. */
  const SnapPoints: seq<real> := [-135.0, -45.0, 45.0, 135.0]
  const MinAngle: real := -135.0
  const MaxAngle: real := 135.0
  /** A snap is entered when the clamped angle is strictly closer than this. */
  const EnterThreshold: real := 5.0
  /** A snap is left when the clamped angle is strictly farther than this. */
  const ExitThreshold: real := 8.0
  /** Pointer jumps larger than this (in magnitude) are discarded as wrap-arounds. */
  const MaxJump: real := 180.0

  function Abs(x: real): real { if x < 0.0 then -x else x }

  /** `Math.max(MIN, Math.min(MAX, a))`. */
  function Clamp(a: real): (r: real)
    ensures MinAngle <= r <= MaxAngle
    ensures MinAngle <= a <= MaxAngle ==> r == a
    ensures a < MinAngle ==> r == MinAngle
    ensures a > MaxAngle ==> r == MaxAngle
  {
    if a > MaxAngle then MaxAngle else if a < MinAngle then MinAngle else a
  }

  /** The refs the mouse handlers share: `isDraggingRef`, `prevAngle`,
      `startAngle` and `snappedTo`. */
  datatype DragState = DragState(isDragging: bool, prevAngle: real, startAngle: real, snappedTo: Option<real>)

  /** A snap target is either absent or one of the detents. */
  predicate SnapValid(s: DragState)
  {
    s.snappedTo.None? || s.snappedTo.value in SnapPoints
  }

  /** The first detent of `snaps`, in order, strictly within EnterThreshold of `a`. */
  function FirstSnapWithin(snaps: seq<real>, a: real): (r: Option<real>)
    ensures r.Some? ==> r.value in snaps && Abs(a - r.value) < EnterThreshold
    ensures r.None? <==> forall k :: 0 <= k < |snaps| ==> Abs(a - snaps[k]) >= EnterThreshold
  {
    if |snaps| == 0 then None
    else if Abs(a - snaps[0]) < EnterThreshold then Some(snaps[0])
    else FirstSnapWithin(snaps[1..], a)
  }

  /** What one `mousemove` does: it is ignored, or it yields the next state and
      the angle the knob is animated towards. */
  datatype Move = Ignored | Moved(next: DragState, target: real)

  /** The specification of `handleMouseMove`. */
  function MoveSpec(s: DragState, deg: real): (m: Move)
    ensures m.Ignored? <==> !s.isDragging || Abs(deg - s.startAngle) > MaxJump
    ensures m.Moved? ==> m.next.isDragging && m.next.startAngle == deg
    ensures m.Moved? ==> m.next.prevAngle == Clamp(s.prevAngle + (deg - s.startAngle))
    ensures m.Moved? ==> MinAngle <= m.next.prevAngle <= MaxAngle
    ensures m.Moved? && m.next.snappedTo.Some? ==> m.target == m.next.snappedTo.value
    ensures m.Moved? && m.next.snappedTo.None? ==> m.target == m.next.prevAngle
  {
    if !s.isDragging then Ignored
    else
      var delta := deg - s.startAngle;
      if Abs(delta) > MaxJump then Ignored
      else
        var clamped := Clamp(s.prevAngle + delta);
        var snapped :=
          if s.snappedTo.Some? then
            (if Abs(clamped - s.snappedTo.value) > ExitThreshold then None else s.snappedTo)
          else FirstSnapWithin(SnapPoints, clamped);
        var target := if snapped.Some? then snapped.value else clamped;
        Moved(DragState(true, clamped, deg, snapped), target)
  }

  /** The clamped (not snapped) angle a move computes. */
  function ClampedOf(s: DragState, deg: real): real
  {
    Clamp(s.prevAngle + (deg - s.startAngle))
  }

  /** Two detents are 90 degrees apart, so at most one lies within EnterThreshold. */
  lemma SnapWithinUnique(a: real, i: nat, j: nat)
    requires i < |SnapPoints| && j < |SnapPoints|
    requires Abs(a - SnapPoints[i]) < EnterThreshold && Abs(a - SnapPoints[j]) < EnterThreshold
    ensures i == j
  {
  }

  /** A move is ignored, and changes nothing, when not dragging or when the
      pointer jumped more than 180 degrees. */
  lemma IgnoredMove(s: DragState, deg: real)
    requires !s.isDragging || Abs(deg - s.startAngle) > MaxJump
    ensures MoveSpec(s, deg) == Ignored
  {
  }

  /** Unsnapped, a clamped angle strictly within 5 of a detent snaps to it. */
  lemma {:induction false} SnapEnter(s: DragState, deg: real, i: nat)
    requires s.isDragging && Abs(deg - s.startAngle) <= MaxJump && s.snappedTo.None?
    requires i < |SnapPoints| && Abs(ClampedOf(s, deg) - SnapPoints[i]) < EnterThreshold
    ensures MoveSpec(s, deg) == Moved(DragState(true, ClampedOf(s, deg), deg, Some(SnapPoints[i])), SnapPoints[i])
  {
    var c := ClampedOf(s, deg);
    var r := FirstSnapWithin(SnapPoints, c);
    assert r.Some? by {
      assert !(Abs(c - SnapPoints[i]) >= EnterThreshold);
    }
    var j :| 0 <= j < |SnapPoints| && SnapPoints[j] == r.value;
    SnapWithinUnique(c, i, j);
  }

  /** Unsnapped and at least 5 from every detent, the knob follows the clamped angle. */
  lemma NoSnapWhenFar(s: DragState, deg: real)
    requires s.isDragging && Abs(deg - s.startAngle) <= MaxJump && s.snappedTo.None?
    requires forall k :: 0 <= k < |SnapPoints| ==> Abs(ClampedOf(s, deg) - SnapPoints[k]) >= EnterThreshold
    ensures MoveSpec(s, deg) == Moved(DragState(true, ClampedOf(s, deg), deg, None), ClampedOf(s, deg))
  {
  }

  /** Snapped, the knob stays at the detent while the clamped angle is within 8 of it. */
  lemma SnapHold(s: DragState, deg: real)
    requires s.isDragging && Abs(deg - s.startAngle) <= MaxJump && s.snappedTo.Some?
    requires Abs(ClampedOf(s, deg) - s.snappedTo.value) <= ExitThreshold
    ensures MoveSpec(s, deg) == Moved(DragState(true, ClampedOf(s, deg), deg, s.snappedTo), s.snappedTo.value)
  {
  }

  /** Snapped, a clamped angle strictly beyond 8 releases the snap and the knob
      follows the clamped angle; no new snap is taken in the same move, even
      when the clamped angle is within 5 of another detent. */
  lemma SnapRelease(s: DragState, deg: real)
    requires s.isDragging && Abs(deg - s.startAngle) <= MaxJump && s.snappedTo.Some?
    requires Abs(ClampedOf(s, deg) - s.snappedTo.value) > ExitThreshold
    ensures MoveSpec(s, deg) == Moved(DragState(true, ClampedOf(s, deg), deg, None), ClampedOf(s, deg))
  {
  }

  /** Every accepted move keeps the snap target a detent, within ExitThreshold
      of the recorded angle, and the target angle equal to it. */
  lemma MoveKeepsSnapValid(s: DragState, deg: real)
    requires SnapValid(s)
    requires MoveSpec(s, deg).Moved?
    ensures SnapValid(MoveSpec(s, deg).next)
    ensures var m := MoveSpec(s, deg);
      m.next.snappedTo.Some? ==> Abs(m.next.prevAngle - m.next.snappedTo.value) <= ExitThreshold
  {
  }

  /** The knob as the page holds it: the refs of the drag handlers plus the
      displayed angle (React state `angle`) and the target of the running tween. */
  class Knob {
    var angle: real
    var isDragging: bool
    var prevAngle: real
    var startAngle: real
    var snappedTo: Option<real>
    var target: real

    function State(): DragState
      reads this
    {
      DragState(isDragging, prevAngle, startAngle, snappedTo)
    }

    constructor ()
      ensures State() == DragState(false, 0.0, 0.0, None)
      ensures angle == 0.0 && target == 0.0
    {
      angle, target := 0.0, 0.0;
      isDragging, prevAngle, startAngle, snappedTo := false, 0.0, 0.0, None;
    }

    /** `handleMouseDown`: start dragging from the displayed angle and the
        pointer angle `deg`. */
    method MouseDown(deg: real)
      modifies this
      ensures State() == DragState(true, old(angle), deg, old(snappedTo))
      ensures angle == old(angle) && target == old(target)
    {
      isDragging := true;
      prevAngle := angle;
      startAngle := deg;
    }

    /** `handleMouseMove` for pointer angle `deg`; `moved` is false when the
        handler returned early. */
    method MouseMove(deg: real) returns (moved: bool)
      modifies this
      ensures var m := MoveSpec(old(State()), deg);
        if m.Ignored? then !moved && State() == old(State()) && target == old(target)
        else moved && State() == m.next && target == m.target
      ensures angle == old(angle)
    {
      if !isDragging {
        return false;
      }
      var delta := deg - startAngle;
      if Abs(delta) > MaxJump {
        return false;
      }
      var newAngle := prevAngle + delta;
      var clamped := Clamp(newAngle);
      var finalAngle := clamped;
      if snappedTo.Some? {
        if Abs(clamped - snappedTo.value) > ExitThreshold {
          snappedTo := None;
          finalAngle := clamped;
        } else {
          finalAngle := snappedTo.value;
        }
      } else {
        var k := 0;
        while k < |SnapPoints|
          invariant 0 <= k <= |SnapPoints|
          invariant snappedTo.None? && finalAngle == clamped
          invariant FirstSnapWithin(SnapPoints, clamped) == FirstSnapWithin(SnapPoints[k..], clamped)
        {
          if Abs(clamped - SnapPoints[k]) < EnterThreshold {
            snappedTo := Some(SnapPoints[k]);
            finalAngle := SnapPoints[k];
            break;
          }
          assert SnapPoints[k..][1..] == SnapPoints[k + 1..];
          k := k + 1;
        }
      }
      target := finalAngle;
      startAngle := deg;
      prevAngle := clamped;
      moved := true;
    }

    /** `handleMouseUp`. */
    method MouseUp()
      modifies this
      ensures State() == old(State()).(isDragging := false)
      ensures angle == old(angle) && target == old(target)
    {
      isDragging := false;
    }

    /** The running tween reaches its target and the displayed angle becomes it. */
    method TweenCompletes()
      modifies this
      ensures angle == old(target)
      ensures State() == old(State()) && target == old(target)
    {
      angle := target;
    }
  }
}
