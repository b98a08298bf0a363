/**
 * `LiquidCircle` (app/progressive-confidence-agent-tasks/components/
 * LiquidCircle.tsx): how full the circle is drawn, where the liquid sits,
 * which gradient fills it, and the effect that starts a settling wobble when
 * the progress changes.
 */
module LiquidCircle {
  import opened AgentTasks

  /** `fillProgress`: draining empties the circle, a complete task fills it,
      a sloshing one is half full, and otherwise the progress is shown. */
  function FillProgress(progress: real, status: TaskStatus, sloshing: bool, draining: bool): (f: real)
    ensures f == progress || f == 0.0 || f == 0.5 || f == 1.0
    ensures f == 1.0 ==> draining == false && (status == Complete || progress == 1.0)
  {
    if draining then 0.0
    else if status == Complete then 1.0
    else if sloshing then 0.5
    else progress
  }

  /** A progress in [0, 1] gives a fill in [0, 1], whatever the flags. */
  lemma FillInUnitRange(progress: real, status: TaskStatus, sloshing: bool, draining: bool)
    requires 0.0 <= progress <= 1.0
    ensures 0.0 <= FillProgress(progress, status, sloshing, draining) <= 1.0
  {
  }

  /** The priority of the flags: draining over complete over sloshing over
      the progress itself. */
  lemma FillPriority(progress: real, status: TaskStatus, sloshing: bool, draining: bool)
    ensures draining ==> FillProgress(progress, status, sloshing, draining) == 0.0
    ensures !draining && status == Complete ==> FillProgress(progress, status, sloshing, draining) == 1.0
    ensures !draining && status != Complete && sloshing ==> FillProgress(progress, status, sloshing, draining) == 0.5
    ensures !draining && status != Complete && !sloshing ==> FillProgress(progress, status, sloshing, draining) == progress
  {
  }

  /** `liquidY`: the wave's vertical offset, 22 for an empty circle (the
      crests below the circle) up to -5 for a full one. */
  function LiquidY(fill: real): (y: real)
    ensures fill == 0.0 ==> y == 22.0
    ensures fill == 1.0 ==> y == -5.0
    ensures 0.0 <= fill <= 1.0 ==> -5.0 <= y <= 22.0
    ensures fill == (22.0 - y) / 27.0
  {
    22.0 - fill * 27.0
  }

  /** More liquid sits higher: the offset strictly decreases as the fill grows. */
  lemma LiquidYDecreasing(f1: real, f2: real)
    requires f1 < f2
    ensures LiquidY(f1) > LiquidY(f2)
  {
  }

  /** The liquid is drawn for every status but pending. */
  predicate DrawsLiquid(status: TaskStatus)
  {
    status != Pending
  }

  /** The look of the liquid, chosen in the same order for its fill
      gradient and its highlight layer. */
  datatype Look = JustCompleted | Done | Sloshing | Filling

  function LookOf(justCompleted: bool, status: TaskStatus, sloshing: bool): (l: Look)
    ensures l == JustCompleted <==> justCompleted
    ensures l == Done <==> !justCompleted && status == Complete
    ensures l == Sloshing <==> !justCompleted && status != Complete && sloshing
  {
    if justCompleted then JustCompleted
    else if status == Complete then Done
    else if sloshing then Sloshing
    else Filling
  }

  /** The suffix of the fill gradient's id. */
  function FillGradient(l: Look): string
  {
    match l
    case JustCompleted => "complete"
    case Done => "grey"
    case Sloshing => "red"
    case Filling => "liquid"
  }

  /** The suffix of the highlight gradient's id. */
  function HighlightGradient(l: Look): string
  {
    match l
    case JustCompleted => "complete-highlight"
    case Done => "grey-highlight"
    case Sloshing => "red-highlight"
    case Filling => "highlight"
  }

  /** Each look has its own fill gradient and its own highlight, so the
      gradient shown names the look. */
  lemma GradientsDistinguishLooks(a: Look, b: Look)
    ensures FillGradient(a) == FillGradient(b) <==> a == b
    ensures HighlightGradient(a) == HighlightGradient(b) <==> a == b
    ensures FillGradient(a) != HighlightGradient(b)
  {
  }

  /** The settling wobble: the effect over `[progress, status]` and the
      one-second timer it starts. */
  class SettleTracker {
    /** `prevProgressRef`. */
    var prevProgress: real
    var isSettling: bool
    /** Whether the wobble's timer is scheduled. */
    var timerPending: bool
    /** The dependencies the effect last ran with. */
    var seenProgress: real
    var seenStatus: TaskStatus

    /** Mount: the reference starts at the first progress, so the first run
        of the effect starts nothing. */
    constructor (progress: real, status: TaskStatus)
      ensures prevProgress == progress && !isSettling && !timerPending
      ensures seenProgress == progress && seenStatus == status
    {
      prevProgress, isSettling, timerPending := progress, false, false;
      seenProgress, seenStatus := progress, status;
    }

    /** A render with `progress` and `status`. When a dependency changed,
        the previous run's cleanup cancels its timer, and then a wobble
        starts only if the progress differs from the recorded one while the
        task is in progress; only then is the progress recorded. */
    method Render(progress: real, status: TaskStatus) returns (started: bool)
      modifies this
      ensures seenProgress == progress && seenStatus == status
      ensures var rerun := progress != old(seenProgress) || status != old(seenStatus);
        started == (rerun && progress != old(prevProgress) && status == InProgress)
      ensures started ==> prevProgress == progress && isSettling && timerPending
      ensures !started ==> prevProgress == old(prevProgress) && isSettling == old(isSettling)
      ensures !started && (progress != old(seenProgress) || status != old(seenStatus)) ==> !timerPending
      ensures progress == old(seenProgress) && status == old(seenStatus) ==> timerPending == old(timerPending)
    {
      started := false;
      if progress == seenProgress && status == seenStatus {
        return;
      }
      seenProgress, seenStatus := progress, status;
      timerPending := false;
      if progress != prevProgress && status == InProgress {
        isSettling := true;
        timerPending := true;
        prevProgress := progress;
        started := true;
      }
    }

    /** One second later the scheduled timer ends the wobble. */
    method TimerFires()
      modifies this`isSettling, this`timerPending
      ensures old(timerPending) ==> !isSettling && !timerPending
      ensures !old(timerPending) ==> isSettling == old(isSettling) && !timerPending
    {
      if timerPending {
        isSettling := false;
        timerPending := false;
      }
    }
  }
}
