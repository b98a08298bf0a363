/**
 * The `useSpinningText` hook of the inline rewrite page
 * (app/inline-auto-suggest/page.tsx): the grey span's text is scrambled at
 * the active indices, activated one by one (ramp-up), and then settled to the
 * improved text one character at a time.
 *
 * Timers are explicit: the ramp-up and settle callbacks wait in `pending`, in
 * the order the hook schedules them, and `FireTimeout` runs the first one; a
 * tick of the scramble interval is `ScrambleTick`, which may come between any
 * two of them. The random letters of a tick are an input.
 */
module SpinningTextHook {
  import opened Wrappers
  import opened SuggestText

  /** `phaseRef`. */
  datatype Phase = Idle | RampingUp | RampingDown | Settled

  /** A scheduled `setTimeout` callback: the ramp-up activation of an index,
      or settle step `i`. */
  datatype Timeout = Activate(index: int) | SettleAt(i: nat)

  /** The nodes that replace the grey span after the last settle step: the
      text before the improvement, the orange span, the text after it. */
  datatype Highlight = Highlight(left: string, improved: string, right: string)

  /** What `randomLetter` can return. */
  predicate IsLetter(c: char) { 'a' <= c <= 'z' }

  /** The ramp-up callbacks `startSpinning` schedules: index `lead + i` for
      each `i` below `count` (none when `count` is not positive). */
  function RampQueue(lead: nat, count: int): (q: seq<Timeout>)
    ensures |q| == if count < 0 then 0 else count
    ensures forall i :: 0 <= i < |q| ==> q[i] == Activate(lead + i)
  {
    seq(if count < 0 then 0 else count, i requires 0 <= i => Activate(lead + i))
  }

  /** The settle callbacks `settleToText` schedules for a text of length `n`. */
  function SettleQueue(n: nat): (q: seq<Timeout>)
    ensures |q| == n
    ensures forall i :: 0 <= i < n ==> q[i] == SettleAt(i)
  {
    seq(n, i requires 0 <= i => SettleAt(i))
  }

  /** The indices `lo .. lo + n - 1`. */
  function Window(lo: int, n: int): (w: set<int>)
    ensures forall k :: k in w <==> lo <= k < lo + n
    decreases if n < 0 then 0 else n
  {
    if n <= 0 then {} else Window(lo, n - 1) + {lo + n - 1}
  }

  /** One tick of the scramble interval: every active index inside the text
      whose character is not a space gets the letter drawn for it. */
  function Scrambled(data: string, active: set<int>, draw: nat -> char): (r: string)
    ensures |r| == |data|
    ensures forall k :: 0 <= k < |data| && k !in active ==> r[k] == data[k]
    ensures forall k :: 0 <= k < |data| && data[k] == ' ' ==> r[k] == ' '
    ensures (forall k :: IsLetter(draw(k))) ==>
      forall k :: 0 <= k < |data| && k in active && data[k] != ' ' ==> IsLetter(r[k])
  {
    seq(|data|, k requires 0 <= k < |data| => if k in active && data[k] != ' ' then draw(k) else data[k])
  }

  /** `chars[k] = c; chars.join("")`: inside the text the character is
      replaced; past its end the array grows with holes, which `join` renders
      as nothing, so `c` is appended. */
  function WriteAt(s: string, k: nat, c: char): (r: string)
    ensures k < |s| ==> |r| == |s| && r[k] == c
    ensures k < |s| ==> forall j :: 0 <= j < |s| && j != k ==> r[j] == s[j]
  {
    if k < |s| then s[k := c] else s + [c]
  }

  /** How the last settle step cuts the text around the improvement. */
  function Highlighted(data: string, startOffset: int, n: nat): Highlight
  {
    Highlight(Slice(data, 0, startOffset), Slice(data, startOffset, startOffset + n), SliceFrom(data, startOffset + n))
  }

  /** Every queued activation is of a non-negative index, and every queued
      settle step has a character of `target` to write. */
  predicate Schedulable(queue: seq<Timeout>, target: string)
  {
    && (forall j :: 0 <= j < |queue| && queue[j].Activate? ==> queue[j].index >= 0)
    && (forall j :: 0 <= j < |queue| && queue[j].SettleAt? ==> queue[j].i < |target|)
  }

  /** The ramp-up loop of `startSpinning`: one `setTimeout` per content
      index, appended to the timeouts already scheduled for `target`. */
  method ScheduleRamp(queue: seq<Timeout>, lead: nat, count: int, ghost target: string) returns (q: seq<Timeout>)
    ensures q == queue + RampQueue(lead, count)
    ensures Schedulable(queue, target) ==> Schedulable(q, target)
  {
    q := queue;
    var n := if count < 0 then 0 else count;
    for i := 0 to n
      invariant q == queue + RampQueue(lead, i)
    {
      assert RampQueue(lead, i + 1) == RampQueue(lead, i) + [Activate(lead + i)];
      q := q + [Activate(lead + i)];
    }
  }

  /** The loop of `settleToText`: one `setTimeout` per character of the new
      text `target`, appended to `queue`. */
  method ScheduleSettle(queue: seq<Timeout>, n: nat, ghost target: string) returns (q: seq<Timeout>)
    ensures q == queue + SettleQueue(n)
    ensures Schedulable(queue, target) && n <= |target| ==> Schedulable(q, target)
  {
    q := queue;
    for i := 0 to n
      invariant q == queue + SettleQueue(i)
    {
      assert SettleQueue(i + 1) == SettleQueue(i) + [SettleAt(i)];
      q := q + [SettleAt(i)];
    }
  }

  class SpinningText {
    /** Whether `textNodeRef` holds a node, and that node's text. */
    var hasNode: bool
    var data: string
    /** The text of the node around the grey span. */
    var outerBefore: string
    var outerAfter: string
    var original: string
    var target: string
    var phase: Phase
    var active: set<int>
    /** Whether the scramble interval runs. */
    var ticking: bool
    /** `timeoutsRef`, in firing order. */
    var pending: seq<Timeout>
    var startOffset: int
    var selectionLength: int
    /** The orange span and its neighbours, once the last settle step ran. */
    var highlight: Option<Highlight>

    /** Every index ever activated is non-negative, and every pending settle
        step has a character of the target text to write. */
    ghost predicate Valid()
      reads this
    {
      && startOffset >= 0
      && (forall k :: k in active ==> k >= 0)
      && Schedulable(pending, target)
    }

    constructor ()
      ensures Valid()
      ensures !hasNode && data == "" && outerBefore == "" && outerAfter == ""
      ensures original == "" && target == "" && phase == Idle && active == {}
      ensures !ticking && pending == [] && startOffset == 0 && selectionLength == 0 && highlight == None
    {
      hasNode, data, outerBefore, outerAfter := false, "", "", "";
      original, target, phase, active := "", "", Idle, {};
      ticking, pending, startOffset, selectionLength, highlight := false, [], 0, 0, None;
    }

    /** `startSpinning` for a selection of `selected` at `rangeStart` in a text
        node holding `nodeText`: the selection moves into the grey span, the
        ramp-up is scheduled and the scramble interval starts. */
    method StartSpinning(nodeText: string, rangeStart: nat, selected: string)
      requires Valid()
      modifies this
      ensures Valid()
      ensures hasNode <==> |selected| > 0
      ensures data == selected && original == selected
      ensures var p := SplitAround(nodeText, rangeStart, selected);
        outerBefore == p.before && outerAfter == p.after
      ensures startOffset == LeadingSpaces(selected) && selectionLength == ContentLength(selected)
      ensures phase == RampingUp && ticking
      ensures pending == old(pending) + RampQueue(startOffset, selectionLength)
      ensures active == old(active) && target == old(target) && highlight == old(highlight)
    {
      var leadingSpaces := LeadingSpaces(selected);
      var contentLength := ContentLength(selected);
      var timeouts := ScheduleRamp(pending, leadingSpaces, contentLength, target);
      assert Schedulable(timeouts, target);
      var p := SplitAround(nodeText, rangeStart, selected);
      outerBefore, outerAfter := p.before, p.after;
      // An empty selection leaves the grey span without a text node.
      hasNode, data, original := |selected| > 0, selected, selected;
      startOffset := leadingSpaces;
      selectionLength := contentLength;
      phase := RampingUp;
      pending := timeouts;
      ticking := true;
    }

    /** One tick of the scramble interval; `draw(k)` is the letter drawn for
        position `k`. */
    method ScrambleTick(draw: nat -> char)
      requires Valid()
      modifies this`data
      ensures Valid()
      ensures data == if ticking && hasNode && |old(data)| > 0 then Scrambled(old(data), active, draw) else old(data)
    {
      if ticking && hasNode && |data| > 0 {
        // Visiting the positions of the text in order and asking whether each
        // is active touches the same indices as `forEach` over the active set
        // with its `i < chars.length` test; each index is rewritten on its own.
        var chars := data;
        for k := 0 to |chars|
          invariant |chars| == |data|
          invariant forall j :: 0 <= j < |data| ==>
            chars[j] == if j < k && j in active && data[j] != ' ' then draw(j) else data[j]
        {
          if k in active && chars[k] != ' ' {
            chars := chars[k := draw(k)];
          }
        }
        assert chars == Scrambled(data, active, draw);
        data := chars;
      }
    }

    /** `settleToText(text)`: the improved text replaces the content of the
        selection, pending ramp-up steps are dropped, exactly the indices of
        the new text become active, and a settle step is scheduled for each
        of its characters. */
    method SettleToText(text: string)
      requires Valid()
      modifies this
      ensures Valid()
      ensures target == text
      ensures data == if hasNode
        then Slice(old(data), 0, startOffset) + text + SliceFrom(old(data), startOffset + selectionLength)
        else old(data)
      ensures phase == RampingDown
      ensures active == Window(startOffset, |text|)
      ensures pending == SettleQueue(|text|)
      ensures hasNode == old(hasNode) && ticking == old(ticking) && highlight == old(highlight)
      ensures startOffset == old(startOffset) && selectionLength == old(selectionLength)
      ensures original == old(original) && outerBefore == old(outerBefore) && outerAfter == old(outerAfter)
    {
      var timeouts := ScheduleSettle([], |text|, text);
      if hasNode {
        var before := Slice(data, 0, startOffset);
        var after := SliceFrom(data, startOffset + selectionLength);
        data := before + text + after;
      }
      target, phase, active, pending := text, RampingDown, Window(startOffset, |text|), timeouts;
    }

    /** The first pending timeout fires. `onSettled` reports that the last
        settle step called the `onSettled` callback. */
    method FireTimeout() returns (onSettled: bool)
      requires Valid()
      modifies this
      ensures Valid()
      ensures hasNode == old(hasNode) && target == old(target) && startOffset == old(startOffset)
      ensures selectionLength == old(selectionLength) && original == old(original)
      ensures outerBefore == old(outerBefore) && outerAfter == old(outerAfter)
      ensures old(pending) == [] ==>
        (&& !onSettled && pending == [] && active == old(active) && data == old(data)
         && phase == old(phase) && ticking == old(ticking) && highlight == old(highlight))
      ensures old(pending) != [] ==> pending == old(pending)[1..]
      ensures old(pending) != [] && old(pending)[0].Activate? ==>
        (&& !onSettled && active == old(active) + {old(pending)[0].index} && data == old(data)
         && phase == old(phase) && ticking == old(ticking) && highlight == old(highlight))
      ensures old(pending) != [] && old(pending)[0].SettleAt? ==>
        var i := old(pending)[0].i;
        var k := startOffset + i;
        && i < |target|
        && active == old(active) - {k}
        && data == (if hasNode then WriteAt(old(data), k, target[i]) else old(data))
        && (i == |target| - 1 ==>
             (&& !ticking && phase == Settled && onSettled == hasNode
              && highlight == if hasNode then Some(Highlighted(data, startOffset, |target|)) else old(highlight)))
        && (i != |target| - 1 ==>
             (&& !onSettled && ticking == old(ticking) && phase == old(phase) && highlight == old(highlight)))
    {
      onSettled := false;
      if pending == [] {
        return;
      }
      var t := pending[0];
      pending := pending[1..];
      match t
      case Activate(index) =>
        active := active + {index};
      case SettleAt(i) =>
        var k := startOffset + i;
        active := active - {k};
        if hasNode {
          data := WriteAt(data, k, target[i]);
        }
        if i == |target| - 1 {
          ticking := false;
          phase := Settled;
          if hasNode {
            highlight := Some(Highlighted(data, startOffset, |target|));
            onSettled := true;
          }
        }
    }
  }

  /** What can happen between two scheduled steps of a rewrite: a tick of
      the scramble interval, drawing `draw(k)` for position `k`, or the
      first pending timeout firing. */
  datatype Tick = Scramble(draw: nat -> char) | Fire

  /** The state while the request is in flight: the node holds the
      selection, scrambled only inside the content window
      `[lead, lead + content)`, and every activation, done or pending, lies
      in that window. */
  ghost predicate Ramping(s: SpinningText, selected: string, lead: nat, content: int)
    reads s
  {
    && s.Valid() && s.hasNode && s.ticking && s.phase == RampingUp
    && s.startOffset == lead && s.selectionLength == content && s.highlight == None
    && |s.data| == |selected|
    && (forall k :: 0 <= k < |selected| && !(lead <= k < lead + content) ==> s.data[k] == selected[k])
    && (forall k :: k in s.active ==> lead <= k < lead + content)
    && (forall j :: 0 <= j < |s.pending| ==>
          s.pending[j].Activate? && lead <= s.pending[j].index < lead + content)
  }

  /** The state after `done` settle steps of `improved`: the text around the
      improvement is `before` and `after`, the first `done` characters of the
      improvement are final, the others are still active and scheduled, and
      once the last one is written the orange span is in place and the
      callback has run once. */
  ghost predicate Settling(s: SpinningText, lead: nat, before: string, improved: string, after: string,
                           done: nat, calls: nat)
    reads s
  {
    && s.Valid() && s.hasNode && s.target == improved && s.startOffset == lead
    && |before| == lead && done <= |improved|
    && |s.data| == lead + |improved| + |after|
    && (forall k :: 0 <= k < lead ==> s.data[k] == before[k])
    && (forall k :: 0 <= k < |after| ==> s.data[lead + |improved| + k] == after[k])
    && (forall j :: 0 <= j < done ==> s.data[lead + j] == improved[j])
    && s.pending == SettleQueue(|improved|)[done..]
    && s.active == Window(lead + done, |improved| - done)
    && if done == |improved| && |improved| > 0
       then s.phase == Settled && !s.ticking && calls == 1
            && s.highlight == Some(Highlight(before, improved, after))
       else s.phase == RampingDown && s.ticking && calls == 0 && s.highlight == None
  }

  /** One tick while the request is in flight keeps the content window. */
  method RampStep(s: SpinningText, tick: Tick, ghost selected: string, ghost lead: nat, ghost content: int)
    requires Ramping(s, selected, lead, content)
    modifies s
    ensures Ramping(s, selected, lead, content)
  {
    match tick
    case Scramble(draw) =>
      s.ScrambleTick(draw);
    case Fire =>
      var _ := s.FireTimeout();
  }

  /** One tick while the improvement settles moves at most one settle step
      forward and counts the callback. */
  method SettleStep(s: SpinningText, tick: Tick, ghost lead: nat, ghost before: string,
                    ghost improved: string, ghost after: string, ghost done: nat, calls: nat)
    returns (ghost done': nat, calls': nat)
    requires Settling(s, lead, before, improved, after, done, calls)
    modifies s
    ensures Settling(s, lead, before, improved, after, done', calls')
    ensures done <= done' && (tick.Fire? && done < |improved| ==> done' == done + 1)
  {
    match tick
    case Scramble(draw) =>
      s.ScrambleTick(draw);
      done', calls' := done, calls;
    case Fire =>
      done', calls' := SettleFire(s, lead, before, improved, after, done, calls);
  }

  /** A timeout fires while the improvement settles: settle step `done`
      writes its character, and the last one puts the orange span in place;
      with every step done nothing is pending and nothing changes. */
  method SettleFire(s: SpinningText, ghost lead: nat, ghost before: string,
                    ghost improved: string, ghost after: string, ghost done: nat, calls: nat)
    returns (ghost done': nat, calls': nat)
    requires Settling(s, lead, before, improved, after, done, calls)
    modifies s
    ensures Settling(s, lead, before, improved, after, done', calls')
    ensures done < |improved| ==> done' == done + 1
    ensures done == |improved| ==> done' == done
  {
    if s.pending == [] {
      var _ := s.FireTimeout();
      done', calls' := done, calls;
    } else if |s.pending| > 1 {
      SettleInner(s, lead, before, improved, after, done);
      done', calls' := done + 1, calls;
    } else {
      assert done == |improved| - 1;
      LastStepReady(s, lead, before, improved, after, calls);
      calls' := SettleLast(s, lead, before, improved, after);
      done' := done + 1;
    }
  }

  /** A settle step other than the last writes its character and leaves the
      rest active. */
  method SettleInner(s: SpinningText, ghost lead: nat, ghost before: string,
                     ghost improved: string, ghost after: string, ghost done: nat)
    requires done + 1 < |improved|
    requires Settling(s, lead, before, improved, after, done, 0)
    modifies s
    ensures Settling(s, lead, before, improved, after, done + 1, 0)
  {
    assert s.pending[0] == SettleAt(done);
    assert SettleQueue(|improved|)[done..][1..] == SettleQueue(|improved|)[done + 1..];
    ghost var data0 := s.data;
    var settled := s.FireTimeout();
    assert s.data == WriteAt(data0, lead + done, improved[done]);
    assert s.active == Window(lead + done + 1, |improved| - done - 1);
  }

  /** Before the last settle step only its own index is active and only
      it is pending, and writing its character completes the improvement. */
  lemma LastStepReady(s: SpinningText, lead: nat, before: string, improved: string, after: string, calls: nat)
    requires |improved| > 0
    requires Settling(s, lead, before, improved, after, |improved| - 1, calls)
    ensures s.Valid() && s.hasNode && s.target == improved && s.startOffset == lead && |before| == lead
    ensures s.pending == [SettleAt(|improved| - 1)] && s.active == {lead + |improved| - 1} && calls == 0
    ensures WriteAt(s.data, lead + |improved| - 1, improved[|improved| - 1]) == before + improved + after
  {
    LastWriteJoins(s.data, before, improved, after);
  }

  /** The last settle step writes the last character, stops the scramble
      interval, puts the orange span in place and runs the callback. */
  method SettleLast(s: SpinningText, ghost lead: nat, ghost before: string,
                    ghost improved: string, ghost after: string)
    returns (calls': nat)
    requires |improved| > 0
    requires s.Valid() && s.hasNode && s.target == improved && s.startOffset == lead && |before| == lead
    requires s.pending == [SettleAt(|improved| - 1)] && s.active == {lead + |improved| - 1}
    requires WriteAt(s.data, lead + |improved| - 1, improved[|improved| - 1]) == before + improved + after
    modifies s
    ensures Settling(s, lead, before, improved, after, |improved|, calls')
  {
    var settled := s.FireTimeout();
    calls' := 0;
    if settled {
      calls' := 1;
    }
    SettlingEnds(s, lead, before, improved, after, calls');
  }

  /** Writing the last character of the improvement over a text that holds
      the rest of it between `before` and `after` completes the text. */
  lemma LastWriteJoins(data: string, before: string, improved: string, after: string)
    requires |improved| > 0
    requires |data| == |before| + |improved| + |after|
    requires forall k :: 0 <= k < |before| ==> data[k] == before[k]
    requires forall k :: 0 <= k < |after| ==> data[|before| + |improved| + k] == after[k]
    requires forall j :: 0 <= j < |improved| - 1 ==> data[|before| + j] == improved[j]
    ensures WriteAt(data, |before| + |improved| - 1, improved[|improved| - 1]) == before + improved + after
  {
    var r := WriteAt(data, |before| + |improved| - 1, improved[|improved| - 1]);
    var joined := before + improved + after;
    forall k | 0 <= k < |joined|
      ensures r[k] == joined[k]
    {
      if k >= |before| + |improved| {
        assert data[|before| + |improved| + (k - |before| - |improved|)] == after[k - |before| - |improved|];
      } else if k >= |before| && k < |before| + |improved| - 1 {
        assert data[|before| + (k - |before|)] == improved[k - |before|];
      }
    }
  }

  /** After the last settle step the node holds the whole improvement, the
      orange span is in place and the callback has run once. */
  lemma SettlingEnds(s: SpinningText, lead: nat, before: string, improved: string, after: string, calls: nat)
    requires s.Valid() && s.hasNode && s.target == improved && s.startOffset == lead && |before| == lead
    requires |improved| > 0 && s.data == before + improved + after
    requires s.pending == [] && s.active == {}
    requires s.phase == Settled && !s.ticking && calls == 1
    requires s.highlight == Some(Highlighted(s.data, lead, |improved|))
    ensures Settling(s, lead, before, improved, after, |improved|, calls)
  {
    HighlightOfJoined(before, improved, after);
    assert SettleQueue(|improved|)[|improved|..] == [];
  }

  /** The last settle step cuts the node's text back into the pieces it was
      made of. */
  lemma HighlightOfJoined(before: string, improved: string, after: string)
    ensures Highlighted(before + improved + after, |before|, |improved|) == Highlight(before, improved, after)
  {
    var data := before + improved + after;
    assert data[..|before|] == before;
    assert data[|before|..|before| + |improved|] == improved;
    assert data[|before| + |improved|..] == after;
  }

  /** The whole rewrite of a selection of `selected` at `rangeStart` in a
      text node holding `nodeText`: the spinner starts, `early` ticks happen
      while the request is in flight, the reply `improved` arrives, `late`
      ticks happen, and then every pending timeout fires. Whatever letters
      were drawn, nothing is left pending or active, and a non-empty
      improvement settles while an empty one never does.

      For a non-empty selection the node ends up holding the improvement
      between the white space that surrounded the selection's content, and
      with a non-empty improvement the orange span holds exactly it and the
      callback ran once. An empty selection leaves the grey span without a
      text node: nothing is written, no orange span appears and the callback
      never runs. */
  method RewriteSelection(nodeText: string, rangeStart: nat, selected: string, early: seq<Tick>,
                          improved: string, late: seq<Tick>)
    returns (s: SpinningText, calls: nat)
    ensures fresh(s) && s.Valid()
    ensures s.pending == [] && s.active == {}
    ensures |improved| > 0 ==> s.phase == Settled && !s.ticking
    ensures |improved| == 0 ==> s.phase == RampingDown && s.ticking && calls == 0 && s.highlight == None
    ensures |selected| > 0 ==>
      var lead := LeadingSpaces(selected);
      var before, after := Slice(selected, 0, lead), SliceFrom(selected, lead + ContentLength(selected));
      && s.data == before + improved + after
      && (|improved| > 0 ==> calls == 1 && s.highlight == Some(Highlight(before, improved, after)))
    ensures |selected| == 0 ==> !s.hasNode && s.data == "" && calls == 0 && s.highlight == None
  {
    if |selected| > 0 {
      s, calls := RewriteInNode(nodeText, rangeStart, selected, early, improved, late);
    } else {
      s, calls := RewriteWithoutNode(nodeText, rangeStart, early, improved, late);
    }
  }

  /** The rewrite of a non-empty selection, whose grey span holds a text node. */
  method RewriteInNode(nodeText: string, rangeStart: nat, selected: string, early: seq<Tick>,
                       improved: string, late: seq<Tick>)
    returns (s: SpinningText, calls: nat)
    requires |selected| > 0
    ensures fresh(s) && s.Valid()
    ensures var lead := LeadingSpaces(selected);
      var before, after := Slice(selected, 0, lead), SliceFrom(selected, lead + ContentLength(selected));
      && s.data == before + improved + after
      && s.pending == [] && s.active == {}
      && (|improved| > 0 ==>
            s.phase == Settled && !s.ticking && calls == 1
            && s.highlight == Some(Highlight(before, improved, after)))
      && (|improved| == 0 ==>
            s.phase == RampingDown && s.ticking && calls == 0 && s.highlight == None)
  {
    s := StartRamp(nodeText, rangeStart, selected, early);
    ghost var lead, content := LeadingSpaces(selected), ContentLength(selected);
    ghost var before, after := Slice(selected, 0, lead), SliceFrom(selected, lead + content);
    BeginSettle(s, selected, improved, lead, before, after);
    calls := SettleAll(s, late, lead, before, improved, after);
  }

  /** From the reply on: `late` ticks happen and then every pending timeout
      fires, which leaves the improvement in place and, when it is not
      empty, the orange span around it. */
  method SettleAll(s: SpinningText, late: seq<Tick>, ghost lead: nat, ghost before: string,
                   ghost improved: string, ghost after: string)
    returns (calls: nat)
    requires Settling(s, lead, before, improved, after, 0, 0)
    modifies s
    ensures s.Valid() && s.data == before + improved + after
    ensures s.pending == [] && s.active == {}
    ensures |improved| > 0 ==>
      s.phase == Settled && !s.ticking && calls == 1 && s.highlight == Some(Highlight(before, improved, after))
    ensures |improved| == 0 ==> s.phase == RampingDown && s.ticking && calls == 0 && s.highlight == None
  {
    ghost var done: nat := 0;
    calls := 0;
    for t := 0 to |late|
      invariant Settling(s, lead, before, improved, after, done, calls)
    {
      done, calls := SettleStep(s, late[t], lead, before, improved, after, done, calls);
    }
    while s.pending != []
      invariant Settling(s, lead, before, improved, after, done, calls)
      decreases |improved| - done
    {
      done, calls := SettleStep(s, Fire, lead, before, improved, after, done, calls);
    }
    SettledOutcome(s, lead, before, improved, after, done, calls);
  }

  /** The state of a spinner started on an empty selection after `done`
      settle steps of `improved`: the steps run on their schedule, but with
      no text node they write nothing and never call back. */
  ghost predicate SettlingWithoutNode(s: SpinningText, improved: string, done: nat)
    reads s
  {
    && s.Valid() && !s.hasNode && s.data == "" && s.target == improved && s.startOffset == 0
    && s.highlight == None && done <= |improved|
    && s.pending == SettleQueue(|improved|)[done..]
    && s.active == Window(done, |improved| - done)
    && if done == |improved| && |improved| > 0
       then s.phase == Settled && !s.ticking
       else s.phase == RampingDown && s.ticking
  }

  /** The rewrite of an empty selection: nothing is activated while the
      request is in flight, and the settle steps find no node to write. */
  method RewriteWithoutNode(nodeText: string, rangeStart: nat, early: seq<Tick>,
                            improved: string, late: seq<Tick>)
    returns (s: SpinningText, calls: nat)
    ensures fresh(s) && s.Valid() && !s.hasNode && s.data == "" && s.highlight == None && calls == 0
    ensures s.pending == [] && s.active == {}
    ensures |improved| > 0 ==> s.phase == Settled && !s.ticking
    ensures |improved| == 0 ==> s.phase == RampingDown && s.ticking
  {
    s := new SpinningText();
    s.StartSpinning(nodeText, rangeStart, "");
    assert RampQueue(0, 0) == [];
    for t := 0 to |early|
      invariant fresh(s) && s.Valid() && !s.hasNode && s.data == "" && s.ticking && s.phase == RampingUp
      invariant s.startOffset == 0 && s.pending == [] && s.active == {} && s.highlight == None
    {
      match early[t]
      case Scramble(draw) =>
        s.ScrambleTick(draw);
      case Fire =>
        var _ := s.FireTimeout();
    }
    s.SettleToText(improved);
    assert SettleQueue(|improved|)[0..] == SettleQueue(|improved|);
    ghost var done: nat := 0;
    calls := 0;
    for t := 0 to |late|
      invariant fresh(s) && calls == 0
      invariant SettlingWithoutNode(s, improved, done)
    {
      done := StepWithoutNode(s, late[t], improved, done);
    }
    while s.pending != []
      invariant fresh(s) && calls == 0
      invariant SettlingWithoutNode(s, improved, done)
      decreases |improved| - done
    {
      done := StepWithoutNode(s, Fire, improved, done);
    }
    assert |SettleQueue(|improved|)[done..]| == |improved| - done;
  }

  /** One tick while the settle steps run without a node: a scramble changes
      nothing, and a fired timeout advances one step without calling back. */
  method StepWithoutNode(s: SpinningText, tick: Tick, ghost improved: string, ghost done: nat)
    returns (ghost done': nat)
    requires SettlingWithoutNode(s, improved, done)
    modifies s
    ensures SettlingWithoutNode(s, improved, done')
    ensures done <= done' && (tick.Fire? && done < |improved| ==> done' == done + 1)
  {
    match tick
    case Scramble(draw) =>
      s.ScrambleTick(draw);
      done' := done;
    case Fire =>
      if s.pending == [] {
        var _ := s.FireTimeout();
        done' := done;
      } else {
        assert s.pending[0] == SettleAt(done);
        assert SettleQueue(|improved|)[done..][1..] == SettleQueue(|improved|)[done + 1..];
        var settled := s.FireTimeout();
        assert !settled;
        done' := done + 1;
        assert s.active == Window(done', |improved| - done');
      }
  }

  /** Once nothing is pending every settle step has run: the node holds the
      improvement between `before` and `after` and nothing is active. */
  lemma SettledOutcome(s: SpinningText, lead: nat, before: string, improved: string, after: string,
                       done: nat, calls: nat)
    requires Settling(s, lead, before, improved, after, done, calls)
    requires s.pending == []
    ensures done == |improved| && s.active == {}
    ensures s.data == before + improved + after
  {
    assert |SettleQueue(|improved|)[done..]| == |improved| - done;
    assert s.data == before + improved + after;
  }

  /** A fresh spinner starts on the selection and `early` ticks happen
      while the request is in flight. */
  method StartRamp(nodeText: string, rangeStart: nat, selected: string, early: seq<Tick>)
    returns (s: SpinningText)
    requires |selected| > 0
    ensures fresh(s)
    ensures Ramping(s, selected, LeadingSpaces(selected), ContentLength(selected))
  {
    s := new SpinningText();
    s.StartSpinning(nodeText, rangeStart, selected);
    ghost var lead, content := LeadingSpaces(selected), ContentLength(selected);
    for t := 0 to |early|
      invariant fresh(s)
      invariant Ramping(s, selected, lead, content)
    {
      RampStep(s, early[t], selected, lead, content);
    }
  }

  /** The reply arrives while the request is in flight: `settleToText`
      leaves the node holding the improvement between the selection's outer
      white space, with no settle step done yet. */
  method BeginSettle(s: SpinningText, selected: string, improved: string,
                     ghost lead: nat, ghost before: string, ghost after: string)
    requires lead == LeadingSpaces(selected)
    requires before == Slice(selected, 0, lead) && after == SliceFrom(selected, lead + ContentLength(selected))
    requires Ramping(s, selected, lead, ContentLength(selected))
    modifies s
    ensures Settling(s, lead, before, improved, after, 0, 0)
  {
    ghost var content := ContentLength(selected);
    ghost var data0 := s.data;
    assert Slice(data0, 0, lead) == before && SliceFrom(data0, lead + content) == after && |before| == lead by {
      OutsideWindowSlices(data0, selected);
    }
    s.SettleToText(improved);
    assert s.data == Slice(data0, 0, lead) + improved + SliceFrom(data0, lead + content);
    SettlingStarts(s, lead, before, improved, after);
  }

  /** Right after `settleToText` no settle step has run: the node holds the
      improvement between `before` and `after`, every character of it is
      active and scheduled. */
  lemma SettlingStarts(s: SpinningText, lead: nat, before: string, improved: string, after: string)
    requires s.Valid() && s.hasNode && s.target == improved && s.startOffset == lead && |before| == lead
    requires s.data == before + improved + after
    requires s.pending == SettleQueue(|improved|) && s.active == Window(lead, |improved|)
    requires s.phase == RampingDown && s.ticking && s.highlight == None
    ensures Settling(s, lead, before, improved, after, 0, 0)
  {
    assert SettleQueue(|improved|)[0..] == SettleQueue(|improved|);
  }

  /** The text outside the content window is the selection's own, so
      `settleToText` keeps the selection's leading and trailing white space
      (for an all-white selection, whose content length is negative, it
      keeps the whole selection on both sides). */
  lemma OutsideWindowSlices(data: string, selected: string)
    requires |data| == |selected|
    requires forall k :: 0 <= k < |selected|
               && !(LeadingSpaces(selected) <= k < LeadingSpaces(selected) + ContentLength(selected))
               ==> data[k] == selected[k]
    ensures var lead := LeadingSpaces(selected);
      && Slice(data, 0, lead) == Slice(selected, 0, lead) == selected[..lead]
      && SliceFrom(data, lead + ContentLength(selected)) == SliceFrom(selected, lead + ContentLength(selected))
  {
    var lead := LeadingSpaces(selected);
    if AllWhite(selected) {
      WhiteSelection(selected);
      assert data == selected;
    } else {
      ContentSplit(selected);
      var end := lead + ContentLength(selected);
      assert data[..lead] == selected[..lead];
      assert data[end..] == selected[end..];
    }
  }
}
