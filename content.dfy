/**
 * The older Instagram content script (extension/content.js). Its indicator and close
 * texts, `checkProfileExists`, `isRateLimited`, `clickOptionsMenu`, `clickReportAccount`,
 * `closeDialogs` and `clickButtonByText` are the same as in extension/content-instagram.js,
 * so the members of module `Instagram` model them; what differs is `doReport`: no load
 * wait, no busy guard, a plain "Rate limited" error, and six mandatory single-attempt steps
 * ending with the violence options.
 */
module Content {
  import opened Steps
  import opened Protocol
  import Instagram

  /** What `doReport` meets on the page after its 1.5-second wait. */
  datatype ReportPage = ReportPage(
    bodyText: string,
    optionsMenu: bool,          // step 1 `clickOptionsMenu`
    report: bool,               // step 2 `clickReport`
    reportAccount: bool,        // step 3 `clickReportAccount`
    postingContent: bool,       // step 4 `clickPostingContent`
    violence: bool,             // step 5 `clickViolenceOption`
    callingForViolence: bool,   // step 6 `clickCallingForViolence`
    submit: bool)               // step 7 `clickSubmit`

  function MandatorySteps(p: ReportPage): seq<Step> {
    [ Step(p.optionsMenu, "No options menu"),
      Step(p.report, "No Report button"),
      Step(p.reportAccount, "No Report Account"),
      Step(p.postingContent, "No posting content"),
      Step(p.violence, "No Violence option"),
      Step(p.callingForViolence, "No Calling for Violence") ]
  }

  /** The reply `doReport` resolves with. */
  function ReportOutcome(p: ReportPage): Reply {
    if !Instagram.CheckProfileExists(p.bodyText) then ProfileNotFound
    else if Instagram.IsRateLimited(p.bodyText) then Error("Rate limited")
    else match FirstFailure(MandatorySteps(p))
      case Some(e) => Error(e)
      case None => Succeeded
  }

  /** Every kind of reply and exactly when it is given. */
  lemma ReportOutcomeCases(p: ReportPage)
    ensures ReportOutcome(p) == Succeeded
            <==> Instagram.CheckProfileExists(p.bodyText) && !Instagram.IsRateLimited(p.bodyText)
                 && p.optionsMenu && p.report && p.reportAccount && p.postingContent
                 && p.violence && p.callingForViolence
    ensures ReportOutcome(p) == ProfileNotFound <==> !Instagram.CheckProfileExists(p.bodyText)
    ensures ReportOutcome(p) == Error("Rate limited")
            <==> Instagram.CheckProfileExists(p.bodyText) && Instagram.IsRateLimited(p.bodyText)
    ensures !ReportOutcome(p).RateLimitedFor? && ReportOutcome(p) != Pong
  {
    var steps := MandatorySteps(p);
    if FirstFailure(steps).None? {
      assert steps[0].done && steps[1].done && steps[2].done && steps[3].done && steps[4].done && steps[5].done;
    } else {
      var k :| FirstFailedAt(steps, k) && steps[k].error == FirstFailure(steps).value;
      assert k in {0, 1, 2, 3, 4, 5};
    }
  }

  /** Each failed step ends the flow with its own error, and no two steps share one. */
  lemma StepErrorsDistinct(p: ReportPage, k1: nat, k2: nat)
    requires k1 < k2 < |MandatorySteps(p)|
    ensures MandatorySteps(p)[k1].error != MandatorySteps(p)[k2].error
  {
    var steps := MandatorySteps(p);
    assert steps[0].error[3] == 'o' && steps[1].error[3] == 'R' && steps[2].error[3] == 'R';
    assert steps[3].error[3] == 'p' && steps[4].error[3] == 'V' && steps[5].error[3] == 'C';
    assert |steps[1].error| != |steps[2].error|;
  }

  /** The submit result is not looked at. */
  lemma ReportIgnoresSubmit(p: ReportPage, submit: bool)
    ensures ReportOutcome(p.(submit := submit)) == ReportOutcome(p)
  {
  }
}
