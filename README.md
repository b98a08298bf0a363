# design-lab core logic, in Dafny

This project models the deterministic logic of six experiments in the
design-lab repository and proves what they promise:

- **Adaptive knob** (`knob.dfy`, `waveform.dfy`). The drag handlers keep
  four refs: `isDragging`, `prevAngle`, `startAngle` and `snappedTo`. A mouse
  move discards pointer jumps beyond 180 degrees. It clamps the angle to
  [-135, 135]. It snaps to the detents -135, -45, 45 and 135 with hysteresis:
  a snap is entered strictly within 5 degrees and left strictly beyond 8.
  The waveform display picks the pair of waves to blend from the angle,
  blends their samples linearly and prints an SVG path. `Knob` is a class
  whose `MouseMove` loop is proved equal to the specification `MoveSpec`.
- **Inline auto-suggest** (`suggest_text.dfy`, `spinning_text.dfy`,
  `auto_suggest.dfy`). The `useSpinningText` hook is the class
  `SpinningText`. Its fields are the grey span's text, the set of active
  indices, the queue of scheduled timeouts and the phase. The timeouts fire
  one at a time, in the order the hook schedules them. A scramble tick may
  come between any two of them. `RewriteSelection` runs a whole rewrite,
  with arbitrary ticks and arbitrary drawn letters, and proves what the
  text node ends up holding. The page itself is the class
  `InlineAutoSuggest`, with its status machine idle → loading → preview →
  idle.
- **Agent-task advance** (`agent_tasks.dfy`). `handleTaskComplete` is a
  pure map over the task list. It completes one task and promotes the first
  pending one.
- **Liquid circle** (`liquid_circle.dfy`). This covers the priority choice
  of the fill and the affine map to the liquid's offset. It also covers the
  choice of gradient, and the effect that starts the settling wobble. The
  liquid is drawn for every status but pending (`DrawsLiquid`). A dependency
  change cancels the running wobble's timer without starting a new one, so
  `isSettling` can stay set. `Render`'s contract states this.
- **Spatial filter** (`spatial_filter.dfy`). The filter keeps the points
  within radius 5 of the circle's centre, as squared distances over the
  reals. The crosshair lines tile the 0–100 span. The side list and the
  mock data are modelled too.
- **Segmentation label map** (`segment.dfy`). An RGBA buffer starts white.
  Each segment's mask pixels are then painted with the segment's index,
  later segments over earlier ones. The buffer is an `array<int>` that is
  written in place. Its byte clamping (`Uint8ClampedArray`) is explicit, so
  an index of 255 or more reads back as 255.

`wrappers.dfy` holds the `Option` and `Result` types.

## Model

| member | source | states |
|---|---|---|
| AdaptiveKnob.Clamp | app/adaptive-knob/page.tsx:164-167 | The result lies in [-135, 135]. It equals the input inside the range and the nearer bound outside it. |
| AdaptiveKnob.FirstSnapWithin | app/adaptive-knob/page.tsx:188-212 | The snap loop finds a detent strictly within 5 of the angle, if there is one. It finds none exactly when every detent is at least 5 away. |
| AdaptiveKnob.MoveSpec | app/adaptive-knob/page.tsx:151-226 | A move is ignored exactly when not dragging or when the jump exceeds 180. An accepted move records the clamped angle and the pointer angle. Its target is the snap point when snapped, and the clamped angle otherwise. |
| AdaptiveKnob.SnapWithinUnique | app/adaptive-knob/page.tsx:16 | At most one detent lies strictly within 5 of any angle. |
| AdaptiveKnob.IgnoredMove | app/adaptive-knob/page.tsx:151-162 | When not dragging, or after a jump beyond 180, the move is ignored. |
| AdaptiveKnob.SnapEnter | app/adaptive-knob/page.tsx:188-211 | When unsnapped, a clamped angle strictly within 5 of detent i snaps to it, and the target is that detent. |
| AdaptiveKnob.NoSnapWhenFar | app/adaptive-knob/page.tsx:188-213 | When unsnapped and at least 5 from every detent, nothing snaps and the target is the clamped angle. |
| AdaptiveKnob.SnapHold | app/adaptive-knob/page.tsx:174-187 | When snapped and within 8 of the snap point, the snap is kept and the target stays at it. |
| AdaptiveKnob.SnapRelease | app/adaptive-knob/page.tsx:174-187 | When snapped and strictly beyond 8, the snap clears and the target is the clamped angle. No new snap is taken in the same move. |
| AdaptiveKnob.MoveKeepsSnapValid | app/adaptive-knob/page.tsx:174-213 | Every accepted move keeps the snap target a detent within 8 of the recorded angle. |
| AdaptiveKnob.Knob.constructor | app/adaptive-knob/page.tsx:7-13 | The knob starts at angle 0, not dragging and not snapped. |
| AdaptiveKnob.Knob.MouseDown | app/adaptive-knob/page.tsx:131-149 | Dragging starts from the displayed angle and the pointer angle. The snap is kept. |
| AdaptiveKnob.Knob.MouseMove | app/adaptive-knob/page.tsx:151-226 | The handler's new refs and tween target are exactly those of MoveSpec. An ignored move changes nothing. |
| AdaptiveKnob.Knob.MouseUp | app/adaptive-knob/page.tsx:228-230 | Only the dragging flag changes, and it becomes false. |
| AdaptiveKnob.Knob.TweenCompletes | app/adaptive-knob/page.tsx:216-221 | When the tween completes, the displayed angle becomes the target. |
| KnobWaveform.WaveBounded | app/adaptive-knob/page.tsx:64-84 | Over one period, the triangle, saw and square waves stay within [-height, height]. |
| KnobWaveform.TriangleContinuous | app/adaptive-knob/page.tsx:68-72 | The triangle wave is 0, height, -height and 0 at phases 0, 0.25, 0.75 and 1, so its pieces meet. |
| KnobWaveform.GenerateWaveformPoints | app/adaptive-knob/page.tsx:56-91 | The push loop returns points + 1 samples. Sample i is at x = i/points·width with the wave's y, so x runs from 0 to width. |
| KnobWaveform.SegmentIndex | app/adaptive-knob/page.tsx:100-113 | The chosen segment always has a next detent, so its index is 0, 1 or 2. |
| KnobWaveform.FindSegment | app/adaptive-knob/page.tsx:100-113 | The search loop and the edge case for 135 pick the segment SegmentIndex describes. |
| KnobWaveform.SegmentInRange | app/adaptive-knob/page.tsx:100-115 | For an angle in [-135, 135], the segment's detents bracket the angle and the progress lies in [0, 1]. |
| KnobWaveform.DetentShowsItsWave | app/adaptive-knob/page.tsx:100-115 | At each detent the display shows that detent's wave unblended. |
| KnobWaveform.BlendOffset | app/adaptive-knob/page.tsx:123 | The blend moves from the first value towards the second by the fraction progress. |
| KnobWaveform.BlendBetween | app/adaptive-knob/page.tsx:123 | The blend equals the "from" value at progress 0 and the "to" value at progress 1. In between it lies between them. |
| KnobWaveform.BlendPoints | app/adaptive-knob/page.tsx:120-126 | There is one blended point per "from" point. Each takes its x from the "from" point and blends y. At progress 0 the result is the "from" points, and at progress 1 it has the "to" y values. |
| KnobWaveform.Commands | app/adaptive-knob/page.tsx:94-97 | There is one command per point. The first starts with M and every later one with L, followed by a space and the point's formatted x and y, separated by a space. |
| KnobWaveform.JoinAppend | app/adaptive-knob/page.tsx:97 | Joining one more part adds exactly one separator and the part. |
| KnobWaveform.PathStart | app/adaptive-knob/page.tsx:94-98 | No points give the empty path, and one point gives "M x y". |
| KnobWaveform.PathAppend | app/adaptive-knob/page.tsx:94-98 | Each later point appends a single space and "L x y". |
| KnobWaveform.WaveformSamples | app/adaptive-knob/page.tsx:115-126 | The path is drawn from 101 samples. |
| KnobWaveform.GetWaveformPath | app/adaptive-knob/page.tsx:100-128 | The returned path is the path of the two chosen waves' samples, blended by the angle's progress. |
| SuggestText.LeadingSpaces | app/inline-auto-suggest/page.tsx:65 | This is the longest white prefix: every character before it is white, and the next one is not. |
| SuggestText.TrailingSpaces | app/inline-auto-suggest/page.tsx:66 | This is the longest white suffix: every character in it is white, and the one before it is not. |
| SuggestText.ContentSplit | app/inline-auto-suggest/page.tsx:65-67 | When the selection has a non-white character, the leading count, content length and trailing count add up to its length. The content is at least 1 long, starts at the leading count, and starts and ends with non-white characters. |
| SuggestText.WhiteSelection | app/inline-auto-suggest/page.tsx:65-78 | For an all-white selection both counts equal its length, so the content length is minus the length. |
| SuggestText.Trimmed | app/inline-auto-suggest/page.tsx:222 | The trimmed text is empty exactly when the selection is all white. Otherwise it is the content window of the selection, with non-white ends. |
| SuggestText.TrimmedSplit | app/inline-auto-suggest/page.tsx:222 | The selection is its leading white space, then its trimmed text, then its trailing white space. |
| SuggestText.SliceIndex | app/inline-auto-suggest/page.tsx:40-42 | slice clamps an index into [0, len]. An index already in range is kept. |
| SuggestText.Slice | app/inline-auto-suggest/page.tsx:40 | Within bounds, slice is the subsequence. |
| SuggestText.SliceFrom | app/inline-auto-suggest/page.tsx:42 | Within bounds, slice from a start is the suffix. Past the end it is empty. |
| SuggestText.SplitReconstructs | app/inline-auto-suggest/page.tsx:36-42 | When the selection lies inside the node, before + selected + after is the node's text, and the before part is as long as the offset. |
| SuggestText.StripQuotes | app/inline-auto-suggest/page.tsx:230 | At most one character goes from each end. A leading quote is dropped, and otherwise the result is a prefix of the reply. An end character that is not a quote survives at that end of the result. |
| SuggestText.StripLeadingOnly | app/inline-auto-suggest/page.tsx:230 | A reply with a quote at its start but not at its end loses exactly that quote. |
| SuggestText.StripTrailingOnly | app/inline-auto-suggest/page.tsx:230 | A reply with a quote at its end but not at its start loses exactly that quote. |
| SuggestText.StripQuotedReply | app/inline-auto-suggest/page.tsx:230 | A reply wrapped in quotes loses exactly that pair. |
| SuggestText.StripUnquotedReply | app/inline-auto-suggest/page.tsx:230 | A reply with no quote at either end is unchanged. |
| SuggestText.StripKeepsInnerQuotes | app/inline-auto-suggest/page.tsx:230 | Only one quote goes at each end, so doubled quotes keep one. |
| SuggestText.StripToEmpty | app/inline-auto-suggest/page.tsx:230 | The reply strips to nothing exactly when it is empty, a lone quote or an empty quoted string. |
| SuggestText.StripLoneQuote | app/inline-auto-suggest/page.tsx:230 | A lone quote is removed once. |
| SpinningTextHook.RampQueue | app/inline-auto-suggest/page.tsx:73-78 | The ramp-up activates exactly the indices lead .. lead + count - 1, in increasing order. A count that is not positive activates none. |
| SpinningTextHook.SettleQueue | app/inline-auto-suggest/page.tsx:113-158 | Settle steps 0 .. n - 1 are scheduled in increasing order. |
| SpinningTextHook.Window | app/inline-auto-suggest/page.tsx:109-111 | The new active set is exactly the indices lo .. lo + n - 1. |
| SpinningTextHook.Scrambled | app/inline-auto-suggest/page.tsx:80-90 | A scramble tick keeps the length. It changes only active indices, never changes a space, and writes letters when the draws are letters. |
| SpinningTextHook.WriteAt | app/inline-auto-suggest/page.tsx:118-120 | Inside the text, a write replaces exactly one character. |
| SpinningTextHook.ScheduleRamp | app/inline-auto-suggest/page.tsx:73-78 | The loop appends RampQueue to the timeouts already scheduled and keeps them schedulable. |
| SpinningTextHook.ScheduleSettle | app/inline-auto-suggest/page.tsx:113-158 | The loop appends SettleQueue, and every settle step has a character to write. |
| SpinningTextHook.SpinningText.constructor | app/inline-auto-suggest/page.tsx:16-24 | The refs start empty and the phase idle. |
| SpinningTextHook.SpinningText.StartSpinning | app/inline-auto-suggest/page.tsx:26-91 | The span holds the selection, and it has a text node exactly when the selection is non-empty. The text around the selection is kept. The offset is the leading count and the length is the content length. The ramp-up is queued and the scramble interval runs. |
| SpinningTextHook.SpinningText.ScrambleTick | app/inline-auto-suggest/page.tsx:80-90 | A tick of a running interval on a non-empty node makes the text Scrambled(text, active, draw). Otherwise the text is unchanged. |
| SpinningTextHook.SpinningText.SettleToText | app/inline-auto-suggest/page.tsx:93-111 | The text becomes prefix + text + suffix. The ramp-up is dropped, exactly the new text's indices are active, and one settle step per character is queued. |
| SpinningTextHook.SpinningText.FireTimeout | app/inline-auto-suggest/page.tsx:114-156 | The first queued callback runs. An activation adds its index. Settle step i writes text[i] at offset + i and deactivates that index. The last step stops the interval, sets settled, cuts out the orange span and reports the callback. |
| SpinningTextHook.RampStep | app/inline-auto-suggest/page.tsx:73-90 | A tick or an activation during ramp-up keeps the text outside the content window and keeps every activation inside it. |
| SpinningTextHook.SettleStep | app/inline-auto-suggest/page.tsx:80-158 | A tick keeps the settle state. A fired timeout advances it by one step. |
| SpinningTextHook.SettleFire | app/inline-auto-suggest/page.tsx:113-156 | A fired timeout moves the settle by one step until none is left. |
| SpinningTextHook.SettleInner | app/inline-auto-suggest/page.tsx:114-121 | A step other than the last fixes one more character and leaves the rest active. |
| SpinningTextHook.SettleLast | app/inline-auto-suggest/page.tsx:114-154 | The last step completes the text, settles, places the orange span and runs the callback once. |
| SpinningTextHook.LastWriteJoins | app/inline-auto-suggest/page.tsx:117-121 | Writing the last character completes before + improvement + after. |
| SpinningTextHook.SettlingEnds | app/inline-auto-suggest/page.tsx:123-154 | After the last step the orange span holds exactly the improvement, between the same neighbours. |
| SpinningTextHook.HighlightOfJoined | app/inline-auto-suggest/page.tsx:127-136 | Cutting before + improved + after at the offset and at the improvement's length gives back the three pieces. |
| SpinningTextHook.RewriteSelection | app/inline-auto-suggest/page.tsx:26-159 | Whatever ticks and letters come, nothing ends up pending or active. A non-empty improvement settles and stops the interval; an empty one never settles and never runs the callback. For a non-empty selection the node ends up holding the improvement between the selection's outer white space, and a non-empty improvement is highlighted exactly and runs the callback once. An empty selection has no text node: nothing is written, nothing is highlighted and the callback never runs. |
| SpinningTextHook.RewriteWithoutNode | app/inline-auto-suggest/page.tsx:26-159 | With an empty selection the grey span has no text node. Its text stays empty, no orange span appears and the callback never runs, yet the settle steps still run out: nothing stays pending or active, and a non-empty improvement stops the interval. |
| SpinningTextHook.SettledOutcome | app/inline-auto-suggest/page.tsx:113-125 | Once nothing is pending, every settle step has run and the region equals the text. |
| SpinningTextHook.StartRamp | app/inline-auto-suggest/page.tsx:26-91 | While the request is in flight, the text changes only inside the content window. |
| SpinningTextHook.BeginSettle | app/inline-auto-suggest/page.tsx:93-111 | settleToText keeps the selection's leading and trailing white space around the improvement. |
| SpinningTextHook.SettlingStarts | app/inline-auto-suggest/page.tsx:96-111 | Right after settleToText no step has run, and every character of the improvement is active and queued. |
| SpinningTextHook.OutsideWindowSlices | app/inline-auto-suggest/page.tsx:96-101 | The slices outside the content window are the selection's own, including for an all-white selection. |
| AutoSuggestPage.RejectedRegion | app/inline-auto-suggest/page.tsx:188-201 | As written, Reject puts the whole selected text between the orange span's neighbours. |
| AutoSuggestPage.RestoredRegion | app/inline-auto-suggest/page.tsx:188-201 | The corrected Reject puts the trimmed selection between the neighbours. |
| AutoSuggestPage.RestoredRegionIsSelection | app/inline-auto-suggest/page.tsx:188-201 | For a selection holding a non-white character, the corrected Reject gives back the original selection exactly. |
| AutoSuggestPage.RejectedRegionRestores | app/inline-auto-suggest/page.tsx:188-201 | As written, Reject restores the selection exactly when it has no leading and no trailing white space. Otherwise the region is longer by both counts. |
| AutoSuggestPage.RejectDoublesLeadingSpace | app/inline-auto-suggest/page.tsx:192-198 | For " a" improved to "b", the page puts back "  a", while the corrected Reject gives " a". |
| AutoSuggestPage.InlineAutoSuggest.constructor | app/inline-auto-suggest/page.tsx:165-171 | The page starts idle, with no selection, no request in flight and an idle spinner. |
| AutoSuggestPage.InlineAutoSuggest.SelectionChange | app/inline-auto-suggest/page.tsx:241-260 | Outside idle a selection change does nothing. When idle, a non-empty selection is remembered and shows the button. Anything else hides the button and keeps the old selection. |
| AutoSuggestPage.InlineAutoSuggest.ClickAI | app/inline-auto-suggest/page.tsx:203-223 | The button acts only when it is visible; otherwise, and when no range is remembered, the spinner is untouched. The spinner starts on the remembered range: its span holds the selection with the surrounding text kept, the ramp-up is appended to the queue, and the active set, target and highlight are kept. The page goes idle → loading only for a non-empty selection, sending the trimmed text. |
| AutoSuggestPage.InlineAutoSuggest.Respond | app/inline-auto-suggest/page.tsx:225-238 | Without a request in flight nothing changes. A failure goes loading → idle and leaves the spinner untouched. An improvement, without its quotes, replaces the content window of the node's text, exactly its indices become active, one settle step per character is queued, and the page stays loading. |
| AutoSuggestPage.InlineAutoSuggest.Timer | app/inline-auto-suggest/page.tsx:232-234 | With nothing queued nothing changes. Otherwise the first queued step runs: an activation adds its index; a settle step writes its letter into the node and deactivates it; the last one stops the interval and highlights the improvement. The page enters preview exactly when that last step has a node to call back from. |
| AutoSuggestPage.InlineAutoSuggest.Scramble | app/inline-auto-suggest/page.tsx:80-90 | A tick of the spinner's interval scrambles its text. |
| AutoSuggestPage.InlineAutoSuggest.Accept | app/inline-auto-suggest/page.tsx:173-186 | The orange span becomes plain text, so the region is left + improved + right, and the page is idle. Without a span nothing happens. |
| AutoSuggestPage.InlineAutoSuggest.Reject | app/inline-auto-suggest/page.tsx:188-201 | The corrected Reject restores the trimmed selection between the neighbours and returns to idle. Without a span nothing happens. |
| AgentTasks.FirstPending | app/progressive-confidence-agent-tasks/page.tsx:13 | find returns the first pending task, and none exactly when nothing is pending. |
| AgentTasks.NextId | app/progressive-confidence-agent-tasks/page.tsx:13-17 | nextTask?.id is the first pending task's id, or none. |
| AgentTasks.HandleTaskComplete | app/progressive-confidence-agent-tasks/page.tsx:11-25 | Length and order are kept, and only the status changes. Tasks with the id become complete. Tasks carrying the first pending id, other than the completed one, become in progress. All others are unchanged. |
| AgentTasks.CompletingFirstPendingPromotesNone | app/progressive-confidence-agent-tasks/page.tsx:13-18 | Completing the first pending task promotes nobody. |
| AgentTasks.UnknownIdStillPromotes | app/progressive-confidence-agent-tasks/page.tsx:13-18 | An unknown id completes nothing, but the first pending task is still promoted. |
| AgentTasks.NothingToDo | app/progressive-confidence-agent-tasks/page.tsx:13-21 | With nothing pending and no task with the id, the list is unchanged. |
| AgentTasks.PromotesOnlyFirstPendingId | app/progressive-confidence-agent-tasks/page.tsx:13-18 | Every task moved to in progress carries the first pending task's id. |
| LiquidCircle.FillProgress | app/progressive-confidence-agent-tasks/components/LiquidCircle.tsx:32 | The fill is the progress, 0, 0.5 or 1. It is full only when not draining and either complete or at progress 1. |
| LiquidCircle.FillInUnitRange | app/progressive-confidence-agent-tasks/components/LiquidCircle.tsx:32 | A progress in [0, 1] gives a fill in [0, 1]. |
| LiquidCircle.FillPriority | app/progressive-confidence-agent-tasks/components/LiquidCircle.tsx:32 | Draining gives 0. Otherwise complete gives 1, then sloshing gives 0.5, and otherwise the fill is the progress. |
| LiquidCircle.LiquidY | app/progressive-confidence-agent-tasks/components/LiquidCircle.tsx:33-35 | The offset is 22 when empty and -5 when full, and lies in [-5, 22] for fills in [0, 1]. The fill is recovered as (22 - y)/27. |
| LiquidCircle.LiquidYDecreasing | app/progressive-confidence-agent-tasks/components/LiquidCircle.tsx:35 | More liquid sits strictly higher. |
| LiquidCircle.LookOf | app/progressive-confidence-agent-tasks/components/LiquidCircle.tsx:190-208 | The look is justCompleted first, then complete, then sloshing, and otherwise filling. Each is stated as an if-and-only-if. |
| LiquidCircle.GradientsDistinguishLooks | app/progressive-confidence-agent-tasks/components/LiquidCircle.tsx:190-208 | Distinct looks use distinct fill and highlight gradients, and no fill gradient is a highlight one. |
| LiquidCircle.SettleTracker.constructor | app/progressive-confidence-agent-tasks/components/LiquidCircle.tsx:21-22 | The recorded progress starts at the first progress, and nothing is settling. |
| LiquidCircle.SettleTracker.Render | app/progressive-confidence-agent-tasks/components/LiquidCircle.tsx:23-30 | A wobble starts only on a dependency change where the progress differs from the recorded one while in progress, and only then is the progress recorded. A dependency change cancels the previous timer. |
| LiquidCircle.SettleTracker.TimerFires | app/progressive-confidence-agent-tasks/components/LiquidCircle.tsx:26 | A scheduled timer ends the wobble. |
| SpatialFilter.FilteredItems | app/spacial-filter/page.tsx:36-42 | Exactly the points within distance 5 are kept, and no more points than given. |
| SpatialFilter.FilterIsSubsequence | app/spacial-filter/page.tsx:36-42 | The filter keeps mockData's order. |
| SpatialFilter.FilterBoundary | app/spacial-filter/page.tsx:41 | A point at distance exactly 5 is kept, and every dropped point is strictly farther. |
| SpatialFilter.SideList | app/spacial-filter/page.tsx:128-143 | The side list shows only filtered points. |
| SpatialFilter.SideListIsFiltered | app/spacial-filter/page.tsx:76-143 | The side list is exactly the filtered points in mockData order. A dot is red exactly when its point is inside the circle. |
| SpatialFilter.Crosshair | app/spacial-filter/page.tsx:88-123 | On either axis, the first line starts at 0, and first length + 12.5 gap + second length = 100, so the second line ends at 100. |
| SpatialFilter.CrosshairCentred | app/spacial-filter/page.tsx:88-123 | Both lines of an axis stop 6.25 short of the circle's centre. |
| SpatialFilter.NatToString | app/spacial-filter/page.tsx:18 | An id prints as a non-empty string of decimal digits with no leading zero. |
| SpatialFilter.NatToStringRoundTrip | app/spacial-filter/page.tsx:18 | The printed digits read back as the id, so distinct ids get distinct names. |
| SpatialFilter.GenerateMockData | app/spacial-filter/page.tsx:13-25 | There are 90 items with ids 1..90, names "Item i" and coordinates 5 + 90·r, so each coordinate is in [5, 95). |
| Segmentation.SegmentsOf | scripts/segment.js:31-38 | Each segment's metadata has its position as id, with its label and score. |
| Segmentation.ClampByte | scripts/segment.js:76-78 | A stored index is at most 255, and kept when it fits. |
| Segmentation.PaintedBytes | scripts/segment.js:69-81 | Painting one segment writes v to exactly the R, G and B bytes of the covered pixels and leaves every other byte as it was. |
| Segmentation.Labels | scripts/segment.js:56-82 | The buffer has 4·width·height bytes after each segment. |
| Segmentation.LastCovering | scripts/segment.js:65-82 | This is the last segment whose mask covers the pixel, or none when no mask does. |
| Segmentation.LabelsPixel | scripts/segment.js:56-82 | After every segment, each pixel has R = G = B and alpha 255. Its value is the clamped index of the last covering segment, or 255. |
| Segmentation.PixelBytes | scripts/segment.js:71-72 | Pixel p owns bytes 4p to 4p + 3. |
| Segmentation.PaintedValueIdentifiesSegment | scripts/segment.js:31-82 | A painted value below 255 is the id of a segment whose mask covers the pixel. |
| Segmentation.RowMajorBound | scripts/segment.js:69-72 | For x < width and y < height, the mask index y·width + x is below width·height, so its bytes are in bounds. |
| Segmentation.NewLabelBuffer | scripts/segment.js:52-62 | The buffer has 4·width·height bytes, all 255. |
| Segmentation.PaintSegment | scripts/segment.js:66-81 | The y/x loops leave the buffer as PaintedBytes of the old buffer. |
| Segmentation.RunSegmentation | scripts/segment.js:31-82 | An empty result, or a first segment without a mask, fails with "No mask data found". A later missing mask fails reading its data. Otherwise the label map has the first mask's size, the metadata and the bytes Labels gives. |

## Left out

- The pointer angle is an input. `atan2` and the conversion to degrees are not modelled.
- The knob does not model the null checks on `knobRef`, which mouse-down and mouse-move need to find the knob's centre.
- The gsap tweens and their easing are not modelled. A tween is a target that `TweenCompletes` jumps to.
- The glow intensity and `playClick` (`AudioContext`) are not modelled.
- `Math.sin` is the parameter `sin2pi`.
- Number formatting in the path string is the parameter `fmt`.
- `generateWaveformPoints` requires at least one point; the page always passes 100.
- The DOM work is not modelled: `Range`, `TreeWalker`, `replaceChild`, `normalize`, `querySelector` and `getBoundingClientRect`. A selection is the text of its node, its start offset and its text. The orange span is the `highlight` field.
- Real timers are not modelled. They are the `pending` queue, fired in order, plus explicit scramble ticks.
- A second `startSpinning` while an earlier run's scramble interval is still going is not modelled. The model keeps one interval flag.
- More than one orange span in the document at once is not modelled.
- `Math.random` is not modelled. The letters a tick draws are the input `draw`, and the mock coordinates are the input `draws`.
- The `/api/ai/improve-text` request and the LLM behind it are not modelled. Its outcome is the `Reply` given to `Respond`; a malformed body counts as a failure.
- framer-motion values, SVG markup and the gradient colours are not modelled. Only the gradient choice is.
- The circle's drag handler and its percentage conversion are not modelled. The centre is an input.
- React's dependency comparison (`Object.is`) is modelled as equality on reals, so NaN progress is not modelled.
- The segmentation model, image loading, PNG encoding, `writeFileSync` and the logging are not modelled.
- Masks are taken to match the first mask's size. A shorter mask's missing values count as not covering, as `undefined > 0.5` is false.
- `createImageData` rejects a zero width or height; this is not modelled.
- The seed task list of data.ts is not modelled. Its types are.
- AutoSuggestPage.RestoredRegionIsSelection: covers only selections with a non-white character. For an all-white selection both neighbours are the whole selection, so the corrected Reject would give it twice; the page never gets there, because the improve-text route (app/api/ai/improve-text/route.ts:8-13) answers 400 to a text that is empty once trimmed, which the page treats as a failure. The route is not part of this model.
- AutoSuggestPage.InlineAutoSuggest.Reject: models the corrected Reject, which puts the trimmed selection back (`RestoredRegion`). The page as written puts the whole selected text back, which is `RejectedRegion`; see Findings.
- JavaScript strings are sequences of UTF-16 code units, while a Dafny `string` is a sequence of Unicode scalar values. Lengths, `slice`, `split`/`join` and the offset arithmetic of the rewrite (`SuggestText.Slice`, `SuggestText.SplitAround`, `SuggestText.LeadingSpaces`, `SuggestText.ContentLength`, `SpinningTextHook.WriteAt`, `SpinningTextHook.Scrambled`) count a character outside the Basic Multilingual Plane as one, where the page counts it as two. So the model does not capture a settle step or a scramble tick writing a letter over half of a surrogate pair.
- JavaScript numbers are IEEE doubles; the model computes with exact reals. This covers the knob angles and the 5, 8 and 180 degree comparisons (`AdaptiveKnob.MoveSpec`, `AdaptiveKnob.Clamp`), the blend progress (`KnobWaveform.Progress`, `KnobWaveform.Blend`), `LiquidCircle.LiquidY`, the mock coordinates (`SpatialFilter.GenerateMockData`) and the filter's distance test, where `SpatialFilter.Within` compares squared distances instead of taking `Math.sqrt`. Rounding at the boundaries is not modelled.
- The semantic image hover page, the API route, the OpenAI service, the layout and the canvas components are not modelled.

## Findings

| source | as written | input that shows it | evidently intended | confidence | as-written member | corrected member |
|---|---|---|---|---|---|---|
| app/inline-auto-suggest/page.tsx:188-201 | Reject replaces the orange span, which holds only the improvement of the selection's trimmed content, with the whole selected text. The white space kept beside the span stays too, so it appears twice. | The selection " a" improved to "b": the region becomes "  a" instead of " a". | Reject restores the original selection exactly, for every selection holding a non-white character, by putting the trimmed selection back between the kept neighbours. | not executed | AutoSuggestPage.RejectDoublesLeadingSpace | AutoSuggestPage.RestoredRegionIsSelection |
