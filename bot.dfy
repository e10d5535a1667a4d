/**
 * The Selenium bot (src/bot.py): its page-text checks, the early-return ladder of
 * `report_user` and its exception wrapper, the target file reader and the outcome
 * tally of `main`. (`escape_xpath_string` is in module `XPathLiteral`.)
 *
 * The browser is given by what the bot reads of it: whether the profile page opened,
 * the page source at each of the two checks (None when reading it raised), and whether
 * each click went through. The target file is its text, or None when it is missing.
 */
module Bot {
  import opened Optional
  import opened Text
  import opened Steps
  import Instagram

  const NotFoundIndicators: seq<string> := [
    "profile isn't available",
    "sorry, this page",
    "page isn't available",
    "this page isn't available",
    "may have been removed",
    "link may be broken"
  ]

  /** The three values of `ReportStatus`. */
  const Success: string := "success"
  const Skipped: string := "skipped"
  const Failed: string := "failed"

  // ---------------------------------------------------------------------------
  // Page checks
  // ---------------------------------------------------------------------------

  /** `check_profile_exists_fast`: false when the page cannot be read or shows a not-found indicator. */
  function ProfileExistsFast(pageSource: Option<string>): (r: bool)
    ensures !r <==> pageSource.None?
                    || exists k :: 0 <= k < |NotFoundIndicators| && Contains(Lower(pageSource.value), NotFoundIndicators[k])
  {
    match pageSource
    case None => false
    case Some(page) => !ContainsAny(Lower(page), NotFoundIndicators)
  }

  /** `check_profile_status`: false only on a rate-limit phrase; unreadable pages carry on. */
  function ProfileStatus(pageSource: Option<string>): (r: bool)
    ensures !r <==> pageSource.Some?
                    && (Contains(Lower(pageSource.value), "restricted your account")
                        || Contains(Lower(pageSource.value), "try again later"))
  {
    match pageSource
    case None => true
    case Some(page) =>
      var p := Lower(page);
      !(Contains(p, "restricted your account") || Contains(p, "try again later"))
  }

  /** A private account is reported anyway: the notice alone never makes the bot skip. */
  lemma PrivateAccountProceeds(before: string, after: string)
    requires !Contains(Lower(before + "this account is private" + after), "restricted your account")
    requires !Contains(Lower(before + "this account is private" + after), "try again later")
    ensures ProfileStatus(Some(before + "this account is private" + after))
  {
  }

  /** The bot and the Instagram content script use the same not-found indicators. */
  lemma SameIndicatorsAsExtension()
    ensures NotFoundIndicators == Instagram.NotFoundIndicators
  {
  }

  /** On a readable page the bot's checks agree with the Instagram content script's. */
  lemma ChecksAgreeWithExtension(page: string)
    ensures ProfileExistsFast(Some(page)) == Instagram.CheckProfileExists(page)
    ensures ProfileStatus(Some(page)) == !Instagram.IsRateLimited(page)
  {
  }

  // ---------------------------------------------------------------------------
  // report_user and report_user_safe
  // ---------------------------------------------------------------------------

  /** What `report_user` meets for one username. */
  datatype ProfileRun = ProfileRun(
    pageOpened: bool,                // `open_profile`
    fastPage: Option<string>,     // page source read by `check_profile_exists_fast`
    fullPage: Option<string>,     // page source read by `check_profile_status`
    optionsMenu: bool,            // step 2 `click_options_menu`
    reportButton: bool,           // step 3 `click_report_button`
    reportAccount: bool,          // step 4 `click_report_account`
    postingContent: bool,         // step 5 `click_posting_content`
    violence: bool,               // step 6 `click_violence_option`
    callingForViolence: bool,     // step 6b `click_calling_for_violence`
    submit: bool)                 // `click_submit`

  /** The checks and clicks whose failure returns early, each with the status it returns. */
  function Ladder(run: ProfileRun): seq<Step> {
    [ Step(run.pageOpened, Failed),
      Step(ProfileExistsFast(run.fastPage), Skipped),
      Step(ProfileStatus(run.fullPage), Skipped),
      Step(run.optionsMenu, Failed),
      Step(run.reportButton, Failed) ]
  }

  /** `report_user`. */
  function ReportUser(run: ProfileRun): (r: string)
    ensures r == Success || r == Skipped || r == Failed
  {
    match FirstFailure(Ladder(run))
    case Some(status) =>
      assert exists k :: FirstFailedAt(Ladder(run), k) && Ladder(run)[k].error == status;
      status
    case None => Success
  }

  /** Exactly when each status is returned. */
  lemma ReportUserCases(run: ProfileRun)
    ensures ReportUser(run) == Failed
            <==> !run.pageOpened
                 || (ProfileExistsFast(run.fastPage) && ProfileStatus(run.fullPage)
                     && (!run.optionsMenu || !run.reportButton))
    ensures ReportUser(run) == Skipped
            <==> run.pageOpened && (!ProfileExistsFast(run.fastPage) || !ProfileStatus(run.fullPage))
    ensures ReportUser(run) == Success
            <==> run.pageOpened && ProfileExistsFast(run.fastPage) && ProfileStatus(run.fullPage)
                 && run.optionsMenu && run.reportButton
  {
    var steps := Ladder(run);
    if !run.pageOpened {
      FirstFailureAt(steps, 0);
    } else if !ProfileExistsFast(run.fastPage) {
      FirstFailureAt(steps, 1);
    } else if !ProfileStatus(run.fullPage) {
      FirstFailureAt(steps, 2);
    } else if !run.optionsMenu {
      FirstFailureAt(steps, 3);
    } else if !run.reportButton {
      FirstFailureAt(steps, 4);
    }
  }

  /** Step 4 onwards and the submit click never change the status. */
  lemma ReportUserIgnoresLaterSteps(run: ProfileRun, reportAccount: bool, postingContent: bool,
                                    violence: bool, callingForViolence: bool, submit: bool)
    ensures ReportUser(run.(reportAccount := reportAccount, postingContent := postingContent,
                            violence := violence, callingForViolence := callingForViolence,
                            submit := submit))
            == ReportUser(run)
  {
  }

  /** An opened profile whose full check meets a rate-limit phrase is skipped, not failed. */
  lemma RateLimitedProfileIsSkipped(run: ProfileRun, page: string)
    requires run.pageOpened && run.fullPage == Some(page) && Instagram.IsRateLimited(page)
    ensures ReportUser(run) == Skipped
  {
    ReportUserCases(run);
  }

  /** `report_user_safe`: an exception raised anywhere inside `report_user` becomes "failed". */
  function ReportUserSafe(run: ProfileRun, raised: bool): (r: string)
    ensures raised ==> r == Failed
    ensures r == Success <==> !raised && ReportUser(run) == Success
    ensures r == Skipped <==> !raised && ReportUser(run) == Skipped
  {
    if raised then Failed else ReportUser(run)
  }

  // ---------------------------------------------------------------------------
  // load_targets
  // ---------------------------------------------------------------------------

  /** Python's text-mode reading: "\r\n" and a lone "\r" both become "\n". */
  function UniversalNewlines(s: string): (r: string)
    ensures '\r' !in r
  {
    if s == [] then []
    else if s[0] == '\r' then
      if |s| > 1 && s[1] == '\n' then "\n" + UniversalNewlines(s[2..]) else "\n" + UniversalNewlines(s[1..])
    else [s[0]] + UniversalNewlines(s[1..])
  }

  /** Text without carriage returns reads as it is. */
  lemma {:induction false} UniversalNewlinesOfPlain(s: string)
    requires '\r' !in s
    ensures UniversalNewlines(s) == s
  {
    if s != [] {
      assert '\r' !in s[1..] by { assert forall k :: 0 <= k < |s[1..]| ==> s[1..][k] == s[k + 1]; }
      UniversalNewlinesOfPlain(s[1..]);
    }
  }

  /** `load_targets`: the stripped non-empty lines of the file, or none when it is missing. */
  function LoadTargets(file: Option<string>): (r: seq<string>)
    ensures forall k :: 0 <= k < |r| ==> r[k] != [] && IsTrimmed(r[k], PySpace)
  {
    match file
    case None => []
    case Some(text) => TrimmedNonEmpty(Split(UniversalNewlines(text), '\n'), PySpace)
  }

  /** A file holding clean names one per line gives back exactly those names, in order. */
  lemma LoadTargetsOfCleanLines(names: seq<string>)
    requires forall k :: 0 <= k < |names| ==>
               names[k] != [] && IsTrimmed(names[k], PySpace) && '\n' !in names[k] && '\r' !in names[k]
    ensures LoadTargets(Some(Join(names, "\n"))) == names
  {
    JoinWithoutCarriageReturn(names);
    UniversalNewlinesOfPlain(Join(names, "\n"));
    if names == [] {
      assert Split("", '\n') == [""];
      assert Trim("", PySpace) == "";
    } else {
      SplitJoin(names, '\n');
      TrimmedNonEmptyOfClean(names, PySpace);
    }
  }

  lemma {:induction false} JoinWithoutCarriageReturn(names: seq<string>)
    requires forall k :: 0 <= k < |names| ==> '\r' !in names[k]
    ensures '\r' !in Join(names, "\n")
  {
    if |names| > 1 {
      JoinWithoutCarriageReturn(names[1..]);
    }
  }

  // ---------------------------------------------------------------------------
  // The tally of main
  // ---------------------------------------------------------------------------

  datatype Tally = Tally(success: nat, skipped: nat, failed: nat)

  /** Count one result: "success" and "skipped" have their counters, anything else is a failure. */
  function Count(t: Tally, result: string): Tally {
    if result == Success then t.(success := t.success + 1)
    else if result == Skipped then t.(skipped := t.skipped + 1)
    else t.(failed := t.failed + 1)
  }

  /** The counters after the results, counted in order. */
  function TallyOf(results: seq<string>): (t: Tally)
    ensures t.success + t.skipped + t.failed == |results|
  {
    if results == [] then Tally(0, 0, 0)
    else Count(TallyOf(results[..|results| - 1]), results[|results| - 1])
  }

  /** Counting a non-empty list counts its last result after the others. */
  lemma TallyOfStep(results: seq<string>)
    requires results != []
    ensures TallyOf(results) == Count(TallyOf(results[..|results| - 1]), results[|results| - 1])
  {
  }

  /** The counters are the multiplicities of "success" and "skipped", and the rest. */
  lemma {:induction false} TallyCountsResults(results: seq<string>)
    ensures TallyOf(results).success == multiset(results)[Success]
    ensures TallyOf(results).skipped == multiset(results)[Skipped]
    ensures TallyOf(results).failed == |results| - multiset(results)[Success] - multiset(results)[Skipped]
  {
    if results != [] {
      var front := results[..|results| - 1];
      assert results == front + [results[|results| - 1]];
      assert multiset(results) == multiset(front) + multiset{results[|results| - 1]};
      TallyCountsResults(front);
    }
  }

  /** When every result is one of the three statuses, the failure counter counts "failed". */
  lemma TallyOfStatuses(results: seq<string>)
    requires forall k :: 0 <= k < |results| ==> results[k] == Success || results[k] == Skipped || results[k] == Failed
    ensures TallyOf(results).failed == multiset(results)[Failed]
  {
    TallyCountsResults(results);
    StatusMultiplicities(results);
  }

  lemma {:induction false} StatusMultiplicities(results: seq<string>)
    requires forall k :: 0 <= k < |results| ==> results[k] == Success || results[k] == Skipped || results[k] == Failed
    ensures multiset(results)[Success] + multiset(results)[Skipped] + multiset(results)[Failed] == |results|
  {
    if results != [] {
      var front := results[..|results| - 1];
      assert results == front + [results[|results| - 1]];
      assert multiset(results) == multiset(front) + multiset{results[|results| - 1]};
      StatusMultiplicities(front);
    }
  }

  /** The statuses `main` meets, one per target in file order. */
  function Outcomes(targets: seq<string>, runs: nat -> ProfileRun, raised: nat -> bool): (r: seq<string>)
    ensures |r| == |targets|
  {
    seq(|targets|, i requires 0 <= i < |targets| => ReportUserSafe(runs(i), raised(i)))
  }

  /**
   * `main`: load the targets, stop without a tally when there are none or the opened
   * tab landed on a login URL, else report every target in order and count the outcomes.
   * `runs(i)` and `raised(i)` are what reporting the `i`-th target meets.
   */
  method RunBot(file: Option<string>, currentUrl: string, runs: nat -> ProfileRun, raised: nat -> bool)
    returns (tally: Option<Tally>)
    ensures var targets := LoadTargets(file);
            if targets == [] || Contains(Lower(currentUrl), "login") then tally.None?
            else tally == Some(TallyOf(Outcomes(targets, runs, raised)))
    ensures tally.Some? ==> tally.value.success + tally.value.skipped + tally.value.failed == |LoadTargets(file)|
  {
    var targets := LoadTargets(file);
    if |targets| == 0 {
      return None;
    }
    if Contains(Lower(currentUrl), "login") {
      return None;
    }
    ghost var outcomes := Outcomes(targets, runs, raised);
    var successCount, skippedCount, failedCount := 0, 0, 0;
    var i := 0;
    while i < |targets|
      invariant 0 <= i <= |targets|
      invariant Tally(successCount, skippedCount, failedCount) == TallyOf(outcomes[..i])
    {
      var result := ReportUserSafe(runs(i), raised(i));
      TallyOfStep(outcomes[..i + 1]);
      assert outcomes[..i + 1][..i] == outcomes[..i];
      if result == Success {
        successCount := successCount + 1;
      } else if result == Skipped {
        skippedCount := skippedCount + 1;
      } else {
        failedCount := failedCount + 1;
      }
      i := i + 1;
    }
    assert outcomes[..i] == outcomes;
    return Some(Tally(successCount, skippedCount, failedCount));
  }
}
