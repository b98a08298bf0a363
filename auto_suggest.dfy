/**
 * The `InlineAutoSuggest` page (app/inline-auto-suggest/page.tsx): the
 * selection is remembered while the page is idle, the AI button starts the
 * spinner and sends the trimmed selection, the reply settles into the
 * spinner, and the orange span is accepted or rejected.
 *
 * The request is the returned `request`; its outcome comes back through
 * `Respond`. The spinner's timers fire through `Timer` and its scramble
 * interval ticks through `Scramble`.
 */
module AutoSuggestPage {
  import opened Wrappers
  import opened SuggestText
  import opened SpinningTextHook

  datatype Status = Idle | Loading | Preview

  /** A selection as `selectionchange` sees it: the text node the range
      starts in, the range's start offset and the selected text. */
  datatype Selection = Selection(nodeText: string, start: nat, text: string)

  /** How the request ends: any failure (a response that is not ok, a body
      without a usable `improvedText`), or the improved text. */
  datatype Reply = Failed | Improved(text: string)

  /** The text that stands where the selection was once Reject has replaced
      the orange span by the selected text, as the page does it: the white
      space the settle step left beside the orange span stays, so it comes
      twice. */
  function RejectedRegion(h: Highlight, selected: string): (r: string)
    ensures |r| == |h.left| + |selected| + |h.right|
    ensures r[|h.left|..|h.left| + |selected|] == selected
  {
    var r := h.left + selected + h.right;
    assert r[|h.left|..|h.left| + |selected|] == selected;
    r
  }

  /** What Reject is meant to do: the orange span, which holds the
      improvement of the selection's trimmed text, gets the trimmed text
      back, between the same neighbours. */
  function RestoredRegion(h: Highlight, selected: string): (r: string)
    ensures |r| == |h.left| + |Trimmed(selected)| + |h.right|
  {
    h.left + Trimmed(selected) + h.right
  }

  /** The highlight a rewrite of `selected` into `improved` leaves. */
  function HighlightOf(selected: string, improved: string): Highlight
  {
    var lead := LeadingSpaces(selected);
    Highlight(Slice(selected, 0, lead), improved, SliceFrom(selected, lead + ContentLength(selected)))
  }

  /** Rejecting the rewrite of a selection with a non-white character gives
      the selection back exactly. */
  lemma RestoredRegionIsSelection(selected: string, improved: string)
    requires !AllWhite(selected)
    ensures RestoredRegion(HighlightOf(selected, improved), selected) == selected
  {
    ContentSplit(selected);
    TrimmedSplit(selected);
  }

  /** As the page does it, Reject gives the selection back only when it has
      no leading and no trailing white space; otherwise the result is longer
      by both. */
  lemma RejectedRegionRestores(selected: string, improved: string)
    requires !AllWhite(selected)
    ensures var r := RejectedRegion(HighlightOf(selected, improved), selected);
      && |r| == |selected| + LeadingSpaces(selected) + TrailingSpaces(selected)
      && (r == selected <==> LeadingSpaces(selected) == 0 && TrailingSpaces(selected) == 0)
  {
    ContentSplit(selected);
    var h := HighlightOf(selected, improved);
    var lead, trail := LeadingSpaces(selected), TrailingSpaces(selected);
    assert |h.left| == lead;
    assert |h.right| == trail;
    if lead == 0 && trail == 0 {
      assert h.left == [] && h.right == [];
    }
  }

  /** The selection " a" improved to "b": the page puts back "  a". */
  lemma RejectDoublesLeadingSpace()
    ensures RejectedRegion(HighlightOf(" a", "b"), " a") == "  a"
    ensures RestoredRegion(HighlightOf(" a", "b"), " a") == " a"
  {
    assert LeadingSpaces(" a") == 1;
    assert TrailingSpaces(" a") == 0;
    assert Trimmed(" a") == "a";
  }

  class InlineAutoSuggest {
    var status: Status
    /** Whether `selectionRect` is set, so that the AI button can show. */
    var hasRect: bool
    var selectedText: string
    /** `selectionRangeRef`. */
    var range: Option<Selection>
    /** Whether a request is in flight. */
    var awaiting: bool
    const spinner: SpinningText

    /** The remembered range and text come from the same selection, which
        was not empty. */
    ghost predicate Valid()
      reads this, spinner
    {
      && spinner.Valid()
      && (range.None? ==> selectedText == "")
      && (range.Some? ==> range.value.text == selectedText && |selectedText| > 0)
    }

    constructor ()
      ensures Valid() && fresh(spinner)
      ensures status == Status.Idle && !hasRect && selectedText == "" && range == None && !awaiting
      ensures spinner.phase == Phase.Idle && spinner.highlight == None && spinner.pending == []
    {
      status, hasRect, selectedText, range, awaiting := Status.Idle, false, "", None, false;
      spinner := new SpinningText();
    }

    /** The AI button is rendered only while a selection is shown and the
        page is idle. */
    predicate ButtonVisible()
      reads this
    {
      hasRect && status == Status.Idle
    }

    /** `selectionchange`: while idle, a non-empty selection is remembered
        and shows the button; anything else hides the button and keeps the
        remembered selection. Outside idle nothing happens. */
    method SelectionChange(sel: Option<Selection>)
      requires Valid()
      modifies this`hasRect, this`selectedText, this`range
      ensures Valid()
      ensures old(status) != Status.Idle ==> hasRect == old(hasRect) && selectedText == old(selectedText) && range == old(range)
      ensures old(status) == Status.Idle && sel.Some? && |sel.value.text| > 0 ==>
        hasRect && selectedText == sel.value.text && range == sel
      ensures old(status) == Status.Idle && !(sel.Some? && |sel.value.text| > 0) ==>
        !hasRect && selectedText == old(selectedText) && range == old(range)
    {
      if status != Status.Idle {
        return;
      }
      if sel.Some? && |sel.value.text| > 0 {
        hasRect, selectedText, range := true, sel.value.text, sel;
      } else {
        hasRect := false;
      }
    }

    /** A click on the AI button: the spinner starts on the remembered
        range and the trimmed selection is sent; the page waits for it. */
    method ClickAI() returns (request: Option<string>)
      requires Valid()
      modifies this, spinner
      ensures Valid()
      ensures hasRect == old(hasRect) && selectedText == old(selectedText) && range == old(range)
      ensures !old(ButtonVisible()) ==>
        request == None && status == old(status) && awaiting == old(awaiting) && unchanged(spinner)
      ensures old(ButtonVisible()) && range.None? ==>
        request == None && status == Status.Idle && awaiting == old(awaiting) && unchanged(spinner)
      ensures old(ButtonVisible()) && range.Some? ==>
        && request == Some(Trimmed(selectedText)) && status == Loading && awaiting
        && spinner.hasNode && spinner.data == selectedText && spinner.original == selectedText
        && (var p := SplitAround(range.value.nodeText, range.value.start, selectedText);
            spinner.outerBefore == p.before && spinner.outerAfter == p.after)
        && spinner.phase == RampingUp && spinner.ticking
        && spinner.startOffset == LeadingSpaces(selectedText)
        && spinner.selectionLength == ContentLength(selectedText)
        && spinner.pending == old(spinner.pending) + RampQueue(spinner.startOffset, spinner.selectionLength)
        && spinner.active == old(spinner.active) && spinner.target == old(spinner.target)
        && spinner.highlight == old(spinner.highlight)
    {
      request := None;
      if !ButtonVisible() {
        return;
      }
      if range.Some? {
        spinner.StartSpinning(range.value.nodeText, range.value.start, range.value.text);
      }
      if |selectedText| == 0 {
        return;
      }
      status := Loading;
      awaiting := true;
      request := Some(Trimmed(selectedText));
    }

    /** The request ends: a failure returns the page to idle and leaves the
        spinner running; an improvement, without its surrounding quotes,
        settles into the spinner while the page stays loading. */
    method Respond(reply: Reply)
      requires Valid()
      modifies this, spinner
      ensures Valid()
      ensures hasRect == old(hasRect) && selectedText == old(selectedText) && range == old(range)
      ensures !old(awaiting) ==> status == old(status) && awaiting == old(awaiting) && unchanged(spinner)
      ensures old(awaiting) ==> !awaiting
      ensures old(awaiting) && reply.Failed? ==> status == Status.Idle && unchanged(spinner)
      ensures old(awaiting) && reply.Improved? ==>
        var text := StripQuotes(reply.text);
        && status == old(status) && spinner.target == text
        && spinner.data == (if spinner.hasNode
             then Slice(old(spinner.data), 0, spinner.startOffset) + text
                  + SliceFrom(old(spinner.data), spinner.startOffset + spinner.selectionLength)
             else old(spinner.data))
        && spinner.phase == RampingDown && spinner.active == Window(spinner.startOffset, |text|)
        && spinner.pending == SettleQueue(|text|)
        && spinner.hasNode == old(spinner.hasNode) && spinner.ticking == old(spinner.ticking)
        && spinner.highlight == old(spinner.highlight)
        && spinner.startOffset == old(spinner.startOffset) && spinner.selectionLength == old(spinner.selectionLength)
        && spinner.original == old(spinner.original)
        && spinner.outerBefore == old(spinner.outerBefore) && spinner.outerAfter == old(spinner.outerAfter)
    {
      if !awaiting {
        return;
      }
      awaiting := false;
      match reply
      case Failed =>
        status := Status.Idle;
      case Improved(text) =>
        spinner.SettleToText(StripQuotes(text));
    }

    /** The spinner's first pending timeout fires; the last settle step's
        callback shows the preview. */
    method Timer()
      requires Valid()
      modifies this`status, spinner
      ensures Valid()
      ensures old(spinner.pending) == [] ==> status == old(status) && unchanged(spinner)
      ensures spinner.hasNode == old(spinner.hasNode) && spinner.target == old(spinner.target)
      ensures spinner.startOffset == old(spinner.startOffset) && spinner.selectionLength == old(spinner.selectionLength)
      ensures spinner.original == old(spinner.original)
      ensures spinner.outerBefore == old(spinner.outerBefore) && spinner.outerAfter == old(spinner.outerAfter)
      ensures old(spinner.pending) != [] ==> spinner.pending == old(spinner.pending)[1..]
      ensures old(spinner.pending) != [] && old(spinner.pending)[0].Activate? ==>
        && spinner.active == old(spinner.active) + {old(spinner.pending)[0].index}
        && spinner.data == old(spinner.data) && spinner.phase == old(spinner.phase)
        && spinner.ticking == old(spinner.ticking) && spinner.highlight == old(spinner.highlight)
      ensures old(spinner.pending) != [] && old(spinner.pending)[0].SettleAt? ==>
        var i := old(spinner.pending)[0].i;
        var k := spinner.startOffset + i;
        && i < |spinner.target|
        && spinner.active == old(spinner.active) - {k}
        && spinner.data == (if spinner.hasNode then WriteAt(old(spinner.data), k, spinner.target[i]) else old(spinner.data))
        && (i == |spinner.target| - 1 ==>
              && !spinner.ticking && spinner.phase == Settled
              && spinner.highlight == (if spinner.hasNode
                   then Some(Highlighted(spinner.data, spinner.startOffset, |spinner.target|))
                   else old(spinner.highlight)))
        && (i != |spinner.target| - 1 ==>
              && spinner.ticking == old(spinner.ticking) && spinner.phase == old(spinner.phase)
              && spinner.highlight == old(spinner.highlight))
      ensures status == if && old(spinner.pending) != [] && old(spinner.pending)[0].SettleAt?
                           && old(spinner.pending)[0].i == |spinner.target| - 1 && spinner.hasNode
                        then Preview else old(status)
      ensures status == Preview && old(status) != Preview ==>
        spinner.phase == Settled && spinner.highlight.Some? && !spinner.ticking
    {
      if spinner.pending == [] {
        // No timeout is scheduled, so none can fire.
        return;
      }
      var settled := spinner.FireTimeout();
      if settled {
        status := Preview;
      }
    }

    /** A tick of the spinner's scramble interval. */
    method Scramble(draw: nat -> char)
      requires Valid()
      modifies spinner`data
      ensures Valid()
      ensures spinner.data == if spinner.ticking && spinner.hasNode && |old(spinner.data)| > 0
        then Scrambled(old(spinner.data), spinner.active, draw) else old(spinner.data)
    {
      spinner.ScrambleTick(draw);
    }

    /** Accept: the orange span becomes plain text, so the region holds the
        improvement between its neighbours, and the page is idle again.
        Without an orange span nothing happens. */
    method Accept() returns (region: Option<string>)
      requires Valid()
      modifies this`status, spinner`highlight
      ensures Valid()
      ensures old(spinner.highlight).None? ==> region == None && status == old(status)
      ensures old(spinner.highlight).Some? ==>
        var h := old(spinner.highlight).value;
        region == Some(h.left + h.improved + h.right) && status == Status.Idle && spinner.highlight == None
    {
      region := None;
      if spinner.highlight.None? {
        return;
      }
      var h := spinner.highlight.value;
      region := Some(h.left + h.improved + h.right);
      spinner.highlight := None;
      status := Status.Idle;
    }

    /** Reject: the orange span gets the selection's trimmed text back, so
        the region holds the selection again, and the page is idle. Without
        an orange span nothing happens. */
    method Reject() returns (region: Option<string>)
      requires Valid()
      modifies this`status, spinner`highlight
      ensures Valid()
      ensures old(spinner.highlight).None? ==> region == None && status == old(status)
      ensures old(spinner.highlight).Some? ==>
        var h := old(spinner.highlight).value;
        region == Some(RestoredRegion(h, selectedText)) && status == Status.Idle && spinner.highlight == None
    {
      region := None;
      if spinner.highlight.None? {
        return;
      }
      region := Some(RestoredRegion(spinner.highlight.value, selectedText));
      spinner.highlight := None;
      status := Status.Idle;
    }
  }
}
