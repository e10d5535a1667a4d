/**
 * The Instagram content script (extension/content-instagram.js): the page-text
 * predicates, the outcome ladder of `doReport`, the `reportInProgress` guard of the
 * message listener, and the element searches that pick what to click.
 *
 * The page is given by what the script reads of it: the body text, the texts of the
 * clickable elements in document order, and, for each step of the flow, whether
 * `retryFor` saw that step succeed before its deadline.
 */
module Instagram {
  import opened Optional
  import opened Text
  import opened Search
  import opened Steps
  import opened Protocol

  const NotFoundIndicators: seq<string> := [
    "profile isn't available",
    "sorry, this page",
    "page isn't available",
    "this page isn't available",
    "may have been removed",
    "link may be broken"
  ]

  const CloseDialogTexts: seq<string> := ["Close", "Done", "OK", "Dismiss", "\U{00D7}", "Not now", "Cancel"]

  /** The wait the script asks for when the page says it is rate limited. */
  const RetryAfterMs: nat := 60000

  // ---------------------------------------------------------------------------
  // Page-text predicates
  // ---------------------------------------------------------------------------

  /** `checkProfileExists()`: no not-found indicator occurs in the lower-cased body text. */
  function CheckProfileExists(bodyText: string): (r: bool)
    ensures !r <==> exists k :: 0 <= k < |NotFoundIndicators| && Contains(Lower(bodyText), NotFoundIndicators[k])
  {
    !ContainsAny(Lower(bodyText), NotFoundIndicators)
  }

  /** `isRateLimited()`. */
  predicate IsRateLimited(bodyText: string) {
    var t := Lower(bodyText);
    Contains(t, "try again later") || Contains(t, "restricted your account")
  }

  /** Lower-casing is idempotent, so whatever the case of the body text, both predicates answer alike. */
  lemma PageTextIgnoresCase(bodyText: string)
    ensures CheckProfileExists(Lower(bodyText)) == CheckProfileExists(bodyText)
    ensures IsRateLimited(Lower(bodyText)) == IsRateLimited(bodyText)
  {
    LowerIsLower(bodyText);
    LowerOfLower(Lower(bodyText));
  }

  /** A body text that reads "try again later" anywhere is rate limited, whatever else it says. */
  lemma RateLimitedByPhrase(before: string, after: string)
    ensures IsRateLimited(Lower(before) + "try again later" + after)
  {
    var t := Lower(before) + "try again later" + after;
    var phrase := "try again later";
    LowerIsLower(before);
    assert IsLower(phrase);
    ContainsIff(Lower(t), phrase);
    LowerConcat(Lower(before) + phrase, after);
    LowerConcat(Lower(before), phrase);
    LowerOfLower(Lower(before));
    LowerOfLower(phrase);
    assert Lower(t)[|before|..|before| + |phrase|] == phrase;
    assert OccursAt(Lower(t), phrase, |before|);
  }

  // ---------------------------------------------------------------------------
  // doReport
  // ---------------------------------------------------------------------------

  /** What `doReport` meets on the page. */
  datatype ReportPage = ReportPage(
    loaded: bool,            // `waitFor` saw the options button, a header button or a not-found text within 15 s
    bodyText: string,
    optionsMenu: bool,       // step 1 `clickOptionsMenu`
    report: bool,            // step 2 `clickReport`
    reportAccount: bool,     // step 3 `clickReportAccount`
    postingContent: bool,    // step 4 `clickPostingContent`
    falseInformation: bool,  // step 5 `clickFalseInformation`
    subOption: bool,         // step 6 `clickFirstListOption`
    submit: bool)            // step 7 `clickSubmit`

  /** Steps 1 to 5, each with the error it ends the flow with. */
  function MandatorySteps(p: ReportPage): seq<Step> {
    [ Step(p.optionsMenu, "No options menu"),
      Step(p.report, "No Report button"),
      Step(p.reportAccount, "No Report Account"),
      Step(p.postingContent, "No posting content"),
      Step(p.falseInformation, "No False Information option") ]
  }

  /** The reply `doReport` resolves with. */
  function ReportOutcome(p: ReportPage): Reply {
    if !p.loaded then Error("Page load timeout")
    else if !CheckProfileExists(p.bodyText) then ProfileNotFound
    else if IsRateLimited(p.bodyText) then RateLimitedFor(RetryAfterMs)
    else match FirstFailure(MandatorySteps(p))
      case Some(e) => Error(e)
      case None => Succeeded
  }

  /** Every kind of reply, and exactly when `doReport` gives it. */
  lemma ReportOutcomeCases(p: ReportPage)
    ensures ReportOutcome(p) == Succeeded
            <==> p.loaded && CheckProfileExists(p.bodyText) && !IsRateLimited(p.bodyText)
                 && p.optionsMenu && p.report && p.reportAccount && p.postingContent && p.falseInformation
    ensures ReportOutcome(p) == ProfileNotFound <==> p.loaded && !CheckProfileExists(p.bodyText)
    ensures ReportOutcome(p).RateLimitedFor?
            <==> p.loaded && CheckProfileExists(p.bodyText) && IsRateLimited(p.bodyText)
    ensures ReportOutcome(p).RateLimitedFor? ==> ReportOutcome(p).retryAfterMs == 60000
    ensures ReportOutcome(p) == Error("Page load timeout") <==> !p.loaded
    ensures ReportOutcome(p) != Pong
  {
    var steps := MandatorySteps(p);
    if FirstFailure(steps).None? {
      assert steps[0].done && steps[1].done && steps[2].done && steps[3].done && steps[4].done;
    } else {
      var k :| FirstFailedAt(steps, k) && steps[k].error == FirstFailure(steps).value;
      assert k in {0, 1, 2, 3, 4};
    }
  }

  /** A failed step ends the flow with that step's error: the first failed step decides. */
  lemma ReportStepError(p: ReportPage, k: nat)
    requires p.loaded && CheckProfileExists(p.bodyText) && !IsRateLimited(p.bodyText)
    requires FirstFailedAt(MandatorySteps(p), k)
    ensures ReportOutcome(p) == Error(MandatorySteps(p)[k].error)
  {
    var steps := MandatorySteps(p);
    var j :| FirstFailedAt(steps, j) && steps[j].error == FirstFailure(steps).value;
    FirstFailedUnique(steps, j, k);
  }

  /** Steps 6 and 7 are attempted but their results are not looked at. */
  lemma ReportIgnoresLastSteps(p: ReportPage, subOption: bool, submit: bool)
    ensures ReportOutcome(p.(subOption := subOption, submit := submit)) == ReportOutcome(p)
  {
  }

  // ---------------------------------------------------------------------------
  // The message listener and the reportInProgress guard
  // ---------------------------------------------------------------------------

  /** The script's module state. */
  class ReportListener {
    var reportInProgress: bool

    constructor()
      ensures !reportInProgress
    {
      reportInProgress := false;
    }

    /** `doReport(username)`: raise the flag, walk the ladder, lower the flag on every exit. */
    method DoReport(p: ReportPage) returns (reply: Reply)
      modifies this
      ensures reply == ReportOutcome(p)
      ensures !reportInProgress
    {
      reportInProgress := true;
      if !p.loaded {
        reply := Error("Page load timeout");
      } else if !CheckProfileExists(p.bodyText) {
        reply := ProfileNotFound;
      } else if IsRateLimited(p.bodyText) {
        reply := RateLimitedFor(RetryAfterMs);
      } else {
        var failure, ran := RunSteps(MandatorySteps(p));
        reply := if failure.Some? then Error(failure.value) else Succeeded;
      }
      reportInProgress := false;
    }

    /**
     * The `chrome.runtime.onMessage` listener. A `DO_REPORT` that finds no report in
     * progress runs one on `p`; its reply is what is sent back asynchronously.
     */
    method OnMessage(m: Request, p: ReportPage) returns (reply: Option<Reply>)
      modifies this
      ensures m.Ping? ==> reply == Some(Pong) && reportInProgress == old(reportInProgress)
      ensures m.DoReport? && old(reportInProgress) ==> reply == Some(Error("Busy")) && reportInProgress
      ensures m.DoReport? && !old(reportInProgress) ==> reply == Some(ReportOutcome(p)) && !reportInProgress
      ensures m.Unknown? ==> reply.None? && reportInProgress == old(reportInProgress)
    {
      match m
      case Ping =>
        reply := Some(Pong);
      case DoReport(_) =>
        if reportInProgress {
          reply := Some(Error("Busy"));
        } else {
          var r := DoReport(p);
          reply := Some(r);
        }
      case Unknown =>
        reply := None;
    }
  }

  // ---------------------------------------------------------------------------
  // Choosing what to click
  // ---------------------------------------------------------------------------

  /**
   * `clickButtonByText(texts)` over the texts of `button, [role="button"], [role="menuitem"]`:
   * the index clicked, or None when it returns false.
   */
  method ClickButtonByText(texts: seq<string>, clickables: seq<string>) returns (clicked: Option<nat>)
    ensures clicked.None? <==> NoMatch(texts, clickables, TextIncludes)
    ensures clicked.Some? ==> ClicksElement(texts, clickables, TextIncludes, clicked.value)
  {
    var hit := FirstTextsMajor(texts, clickables, TextIncludes);
    clicked := if hit.Some? then Some(hit.value.1) else None;
  }

  /** `closeDialogs`' test on a button: trimmed, lower-cased text equal to the close text, and no "block". */
  predicate CloseMatches(text: string, btnText: string) {
    TrimmedEquals(text, btnText) && !Contains(Lower(Trim(btnText, JsSpace)), "block")
  }

  /** `closeDialogs()` over the texts of `button, [role="button"]`: the index clicked, or None. */
  method CloseDialogs(buttons: seq<string>) returns (clicked: Option<nat>)
    ensures clicked.None? <==> NoMatch(CloseDialogTexts, buttons, CloseMatches)
    ensures clicked.Some? ==> ClicksElement(CloseDialogTexts, buttons, CloseMatches, clicked.value)
  {
    var hit := FirstTextsMajor(CloseDialogTexts, buttons, CloseMatches);
    clicked := if hit.Some? then Some(hit.value.1) else None;
  }

  /** Lower-casing makes a 'b' only out of 'b' or 'B'. */
  lemma NoLetterB(t: string)
    requires 'b' !in t && 'B' !in t
    ensures 'b' !in Lower(t)
  {
    forall i | 0 <= i < |t|
      ensures Lower(t)[i] != 'b'
    {
      assert t[i] in t;
    }
  }

  /** A text without the letter b: the "block" guard passes every button equal to it. */
  lemma BlockGuardPasses(text: string, btnText: string)
    requires 'b' !in text && 'B' !in text
    ensures CloseMatches(text, btnText) <==> TrimmedEquals(text, btnText)
  {
    NoLetterB(text);
    if TrimmedEquals(text, btnText) {
      AbsentFirstChar(Lower(text), "block");
    }
  }

  /** The "block" guard never excludes a button: no close text contains "block". */
  lemma BlockGuardRedundant(k: nat, btnText: string)
    requires k < |CloseDialogTexts|
    ensures CloseMatches(CloseDialogTexts[k], btnText)
            <==> TrimmedEquals(CloseDialogTexts[k], btnText)
  {
    var text := CloseDialogTexts[k];
    assert 'b' !in text && 'B' !in text;
    BlockGuardPasses(text, btnText);
  }

  /** What `document.querySelector(selector)` finds for one options-menu selector. */
  datatype SelectorHit =
    | Absent       // no such element
    | NoButton     // an element with neither a `button` nor a `[role="button"]` ancestor
    | InButton     // an element inside a button, which is clicked

  const OptionsSelectors: seq<string> := [
    "svg[aria-label=\"Options\"]",
    "svg[aria-label=\"More options\"]",
    "[aria-label=\"Options\"]",
    "[aria-label=\"More options\"]"
  ]

  datatype MenuPick =
    | SelectorButton(selector: nat)    // the button around the element of `OptionsSelectors[selector]`
    | LastHeaderButton(index: nat)     // `headerButtons[headerButtons.length - 1]`
    | NoMenu

  /**
   * `clickOptionsMenu()`: `query` is what the document answers for each selector, and
   * `headerButtons` the number of `header [role="button"]` elements.
   */
  method ClickOptionsMenu(query: string -> SelectorHit, headerButtons: nat) returns (pick: MenuPick)
    ensures pick.SelectorButton? ==>
              && pick.selector < |OptionsSelectors|
              && query(OptionsSelectors[pick.selector]) == InButton
              && forall k :: 0 <= k < pick.selector ==> query(OptionsSelectors[k]) != InButton
    ensures pick.LastHeaderButton? <==>
              (forall k :: 0 <= k < |OptionsSelectors| ==> query(OptionsSelectors[k]) != InButton) && headerButtons > 0
    ensures pick.LastHeaderButton? ==> pick.index == headerButtons - 1
    ensures pick == NoMenu <==>
              (forall k :: 0 <= k < |OptionsSelectors| ==> query(OptionsSelectors[k]) != InButton) && headerButtons == 0
  {
    var k := 0;
    while k < |OptionsSelectors|
      invariant 0 <= k <= |OptionsSelectors|
      invariant forall j :: 0 <= j < k ==> query(OptionsSelectors[j]) != InButton
    {
      if query(OptionsSelectors[k]) == InButton {
        return SelectorButton(k);
      }
      k := k + 1;
    }
    if headerButtons > 0 {
      return LastHeaderButton(headerButtons - 1);
    }
    return NoMenu;
  }

  const ReportAccountTexts: seq<string> := ["Report Account", "Report account"]

  datatype AccountPick =
    | AccountByText(index: nat)   // the clickable found by its text
    | SecondListButton            // `listButtons[1]`
    | NoAccount

  /**
   * `clickReportAccount()`: the text search over `clickables`, then the second of the
   * `listButtons` buttons of `[role="list"]` and `[role="dialog"]`.
   */
  method ClickReportAccount(clickables: seq<string>, listButtons: nat) returns (pick: AccountPick)
    ensures pick.AccountByText? ==> ClicksElement(ReportAccountTexts, clickables, TextIncludes, pick.index)
    ensures pick == SecondListButton <==> NoMatch(ReportAccountTexts, clickables, TextIncludes) && listButtons >= 2
    ensures pick == NoAccount <==> NoMatch(ReportAccountTexts, clickables, TextIncludes) && listButtons < 2
  {
    var clicked := ClickButtonByText(ReportAccountTexts, clickables);
    if clicked.Some? {
      return AccountByText(clicked.value);
    }
    if listButtons >= 2 {
      return SecondListButton;
    }
    return NoAccount;
  }
}
