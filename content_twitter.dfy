/**
 * The Twitter/X content script (extension/content-twitter.js): the page-text
 * predicates, the outcome ladder of `doReport`, and the element searches behind
 * `clickReportButton`, `clickRadioOptionByText`, `clickNextButton` and `closeDialogs`.
 */
module Twitter {
  import opened Optional
  import opened Text
  import opened Search
  import opened Steps
  import opened Protocol

  const NotFoundIndicators: seq<string> := [
    "this account doesn't exist",
    "account suspended",
    "this account has been suspended",
    "account doesn't exist",
    "hmm...this page doesn't exist"
  ]

  /** The fifth entry is the multiplication sign as it reads after a UTF-8/Windows-1252 mix-up. */
  const CloseDialogTexts: seq<string> := ["Close", "Done", "OK", "Dismiss", "\U{00C3}\U{2014}", "Cancel", "Not now"]

  // ---------------------------------------------------------------------------
  // Page-text predicates
  // ---------------------------------------------------------------------------

  /** `checkProfileExists()`: no lower-cased indicator occurs in the lower-cased body text. */
  function CheckProfileExists(bodyText: string): (r: bool)
    ensures !r <==> exists k :: 0 <= k < |NotFoundIndicators| && Contains(Lower(bodyText), Lower(NotFoundIndicators[k]))
  {
    !ContainsAny(Lower(bodyText), LowerAll(NotFoundIndicators))
  }

  /** `isRateLimited()`. */
  predicate IsRateLimited(bodyText: string) {
    var t := Lower(bodyText);
    Contains(t, "try again later") || Contains(t, "rate limit") || Contains(t, "too many requests")
  }

  /**
   * Both predicates read the body text without regard to case: two texts that differ only
   * in case get the same answers (a text and its lower-cased form among them, by
   * `Text.LowerOfLower`).
   */
  lemma SameLowerSameAnswers(a: string, b: string)
    requires Lower(a) == Lower(b)
    ensures CheckProfileExists(a) == CheckProfileExists(b)
    ensures IsRateLimited(a) == IsRateLimited(b)
  {
  }

  /** "Too many requests" in any case is rate limiting. */
  lemma TooManyRequestsIsRateLimited(before: string, after: string)
    ensures IsRateLimited(before + "Too Many Requests" + after)
  {
    var phrase := "Too Many Requests";
    var t := before + phrase + after;
    LowerConcat(before + phrase, after);
    LowerConcat(before, phrase);
    assert Lower(t) == Lower(before) + Lower(phrase) + Lower(after);
    assert Lower(phrase) == "too many requests" by {
      forall i | 0 <= i < |phrase|
        ensures Lower(phrase)[i] == "too many requests"[i]
      {
      }
    }
    ContainsIff(Lower(t), "too many requests");
    assert Lower(t)[|before|..|before| + |phrase|] == "too many requests";
    assert OccursAt(Lower(t), "too many requests", |before|);
  }

  // ---------------------------------------------------------------------------
  // doReport
  // ---------------------------------------------------------------------------

  /** What `doReport` meets on the page after its two-second wait. */
  datatype ReportPage = ReportPage(
    bodyText: string,
    optionsMenu: bool,     // step 1 `clickOptionsMenu`
    reportButton: bool,    // step 2 `clickReportButton(username)`
    hate: bool,            // step 3 `clickHateOption`
    dehumanization: bool,  // step 4 `clickDehumanizationOption`
    submit: bool)          // step 5 `clickSubmit`

  function MandatorySteps(p: ReportPage): seq<Step> {
    [ Step(p.optionsMenu, "No options menu"),
      Step(p.reportButton, "No Report button"),
      Step(p.hate, "No Hate option"),
      Step(p.dehumanization, "No Dehumanization option") ]
  }

  /** The reply `doReport` resolves with. */
  function ReportOutcome(p: ReportPage): Reply {
    if !CheckProfileExists(p.bodyText) then ProfileNotFound
    else if IsRateLimited(p.bodyText) then Error("Rate limited")
    else match FirstFailure(MandatorySteps(p))
      case Some(e) => Error(e)
      case None => Succeeded
  }

  /**
   * Every kind of reply and exactly when it is given. Rate limiting is reported as a
   * plain error: there is no `rateLimited` reply from this script.
   */
  lemma ReportOutcomeCases(p: ReportPage)
    ensures ReportOutcome(p) == Succeeded
            <==> CheckProfileExists(p.bodyText) && !IsRateLimited(p.bodyText)
                 && p.optionsMenu && p.reportButton && p.hate && p.dehumanization
    ensures ReportOutcome(p) == ProfileNotFound <==> !CheckProfileExists(p.bodyText)
    ensures ReportOutcome(p) == Error("Rate limited") <==> CheckProfileExists(p.bodyText) && IsRateLimited(p.bodyText)
    ensures !ReportOutcome(p).RateLimitedFor? && ReportOutcome(p) != Pong
  {
    var steps := MandatorySteps(p);
    if FirstFailure(steps).None? {
      assert steps[0].done && steps[1].done && steps[2].done && steps[3].done;
    } else {
      var k :| FirstFailedAt(steps, k) && steps[k].error == FirstFailure(steps).value;
      assert k in {0, 1, 2, 3};
    }
  }

  /** The result of the submit step is not looked at. */
  lemma ReportIgnoresSubmit(p: ReportPage, submit: bool)
    ensures ReportOutcome(p.(submit := submit)) == ReportOutcome(p)
  {
  }

  // ---------------------------------------------------------------------------
  // clickReportButton
  // ---------------------------------------------------------------------------

  function ReportTexts(username: string): seq<string> {
    ["Report @" + username, "Report", "Report @"]
  }

  /**
   * `clickReportButton(username)` over the texts of `[role="menuitem"], [role="button"], div, span`.
   * The element matched is always clicked (itself when it has no clickable ancestor).
   */
  method ClickReportButton(username: string, elements: seq<string>) returns (clicked: Option<nat>)
    ensures clicked.None? <==> NoMatch(ReportTexts(username), elements, TrimmedIncludes)
    ensures clicked.Some? ==> ClicksElement(ReportTexts(username), elements, TrimmedIncludes, clicked.value)
  {
    var hit := FirstTextsMajor(ReportTexts(username), elements, TrimmedIncludes);
    clicked := if hit.Some? then Some(hit.value.1) else None;
  }

  /** An element whose text contains "report @" contains "report". */
  lemma ReportAtContainsReport(elText: string)
    requires TrimmedIncludes("Report @", elText)
    ensures TrimmedIncludes("Report", elText)
  {
    assert "Report @" == "Report" + " @";
    LowerConcat("Report", " @");
    ContainsOwnPrefix(Lower("Report"), Lower(" @"));
    ContainsTransitive(Lower(Trim(elText, JsSpace)), Lower("Report @"), Lower("Report"));
  }

  /** The third search text never produces the click: the second already matched that element. */
  lemma ReportAtNeverClicks(username: string, elements: seq<string>, j: int)
    ensures !IsFirstMatch(ReportTexts(username), elements, TrimmedIncludes, 2, j)
  {
    if 0 <= j < |elements| && TrimmedIncludes("Report @", elements[j]) {
      ReportAtContainsReport(elements[j]);
      assert ReportTexts(username)[1] == "Report";
    }
  }

  // ---------------------------------------------------------------------------
  // clickRadioOptionByText
  // ---------------------------------------------------------------------------

  /** The fallback's test: trimmed lower-cased text equal to, or starting with, the search text. */
  predicate EqualsOrStartsWith(text: string, elText: string) {
    var t := Lower(Trim(elText, JsSpace));
    t == Lower(text) || StartsWith(t, Lower(text))
  }

  /** The equality half of the fallback's test adds nothing: equal strings start with each other. */
  lemma EqualityImpliedByStartsWith(text: string, elText: string)
    ensures EqualsOrStartsWith(text, elText) <==> StartsWith(Lower(Trim(elText, JsSpace)), Lower(text))
  {
  }

  datatype RadioPick =
    | ByLabel(index: nat)     // the `label` clicked
    | ByElement(index: nat)   // the `div, span, button` clicked by the fallback
    | NoOption

  /**
   * `clickRadioOptionByText(texts)`: first the labels whose text contains a search text,
   * then the fallback over `div, span, button`, both texts-major.
   */
  method ClickRadioOptionByText(texts: seq<string>, labels: seq<string>, elements: seq<string>) returns (pick: RadioPick)
    ensures pick.ByLabel? ==> ClicksElement(texts, labels, TextIncludes, pick.index)
    ensures pick.ByElement? ==> NoMatch(texts, labels, TextIncludes) && ClicksElement(texts, elements, EqualsOrStartsWith, pick.index)
    ensures pick == NoOption <==> NoMatch(texts, labels, TextIncludes) && NoMatch(texts, elements, EqualsOrStartsWith)
  {
    var hit := FirstTextsMajor(texts, labels, TextIncludes);
    if hit.Some? {
      return ByLabel(hit.value.1);
    }
    hit := FirstTextsMajor(texts, elements, EqualsOrStartsWith);
    if hit.Some? {
      return ByElement(hit.value.1);
    }
    return NoOption;
  }

  // ---------------------------------------------------------------------------
  // clickNextButton
  // ---------------------------------------------------------------------------

  const NextTexts: seq<string> := ["Next", "Submit", "Continue", "Done"]

  /** A button whose trimmed text is one of the next texts, case aside. */
  ghost predicate IsNextButton(btnText: string) {
    MatchesSome(NextTexts, btnText, TrimmedEquals)
  }

  /** `clickNextButton()`: the outer loop is over the buttons, so the first button in document order wins. */
  method ClickNextButton(buttons: seq<string>) returns (clicked: Option<nat>)
    ensures clicked.None? <==> forall j :: 0 <= j < |buttons| ==> !IsNextButton(buttons[j])
    ensures clicked.Some? ==>
              && clicked.value < |buttons|
              && IsNextButton(buttons[clicked.value])
              && forall j :: 0 <= j < clicked.value ==> !IsNextButton(buttons[j])
  {
    clicked := FirstElementsMajor(NextTexts, buttons, TrimmedEquals);
  }

  /**
   * The order matters: when a "Done" button comes before the first "Next" button,
   * `clickNextButton` clicks "Done", where a texts-major search would click "Next".
   */
  lemma NextButtonOrder(buttons: seq<string>, j: nat, k: nat)
    requires j < k < |buttons|
    requires TrimmedEquals("Done", buttons[j]) && TrimmedEquals("Next", buttons[k])
    requires forall i :: 0 <= i < k ==> !TrimmedEquals("Next", buttons[i])
    requires forall i :: 0 <= i < j ==> !IsNextButton(buttons[i])
    ensures IsNextButton(buttons[j])
    ensures IsFirstMatch(NextTexts, buttons, TrimmedEquals, 0, k)
  {
    assert TrimmedEquals(NextTexts[3], buttons[j]);
    assert NextTexts[0] == "Next";
  }

  // ---------------------------------------------------------------------------
  // closeDialogs
  // ---------------------------------------------------------------------------

  /** What `closeDialogs` reads of a button: its text and its `aria-label` ("" when absent). */
  datatype DialogButton = DialogButton(text: string, ariaLabel: string)

  /** `btnText === text.toLowerCase() || ariaLabel === text.toLowerCase()`. */
  predicate CloseMatches(text: string, btn: DialogButton) {
    TrimmedEquals(text, btn.text) || Lower(btn.ariaLabel) == Lower(text)
  }

  datatype ClosePick =
    | ClosedByText(index: nat)   // the button clicked for a close text
    | ClosedByLabel              // the `[aria-label="Close"]` element
    | NotClosed

  /**
   * `closeDialogs()` after the Escape key: the texts-major search over the buttons, then
   * `document.querySelector('[aria-label="Close"]')`, given by `closeLabelled`.
   */
  method CloseDialogs(buttons: seq<DialogButton>, closeLabelled: bool) returns (pick: ClosePick)
    ensures pick.ClosedByText? ==> ClicksElement(CloseDialogTexts, buttons, CloseMatches, pick.index)
    ensures pick == ClosedByLabel <==> NoMatch(CloseDialogTexts, buttons, CloseMatches) && closeLabelled
    ensures pick == NotClosed <==> NoMatch(CloseDialogTexts, buttons, CloseMatches) && !closeLabelled
  {
    var hit := FirstTextsMajor(CloseDialogTexts, buttons, CloseMatches);
    if hit.Some? {
      return ClosedByText(hit.value.1);
    }
    if closeLabelled {
      return ClosedByLabel;
    }
    return NotClosed;
  }

  /** A button labelled "Close" is found by the first search, before the fallback is reached. */
  lemma CloseLabelFoundByText(btn: DialogButton)
    requires btn.ariaLabel == "Close"
    ensures CloseMatches(CloseDialogTexts[0], btn)
  {
  }
}
