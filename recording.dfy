/**
 * What the background worker records for the replies of each content script: the
 * status `startBot` stores (extension/background.js) for each outcome of `doReport`
 * (extension/content-instagram.js, extension/content-twitter.js, extension/content.js).
 */
module Recording {
  import opened Protocol
  import Background
  import Instagram
  import Twitter
  import Content

  /** The status the worker stores for an answered `DO_REPORT`. */
  function Recorded(reply: Reply): string {
    Background.Classify(Background.Answered(reply))
  }

  /**
   * An Instagram target is recorded "success" exactly when every mandatory step went
   * through on a loaded, existing, not rate-limited page, and "skipped" exactly when the
   * loaded page says the profile does not exist.
   */
  lemma InstagramRecorded(p: Instagram.ReportPage)
    ensures Recorded(Instagram.ReportOutcome(p)) == Background.Success
            <==> p.loaded && Instagram.CheckProfileExists(p.bodyText) && !Instagram.IsRateLimited(p.bodyText)
                 && p.optionsMenu && p.report && p.reportAccount && p.postingContent && p.falseInformation
    ensures Recorded(Instagram.ReportOutcome(p)) == Background.Skipped
            <==> p.loaded && !Instagram.CheckProfileExists(p.bodyText)
  {
    Instagram.ReportOutcomeCases(p);
  }

  /**
   * The worker reads neither `rateLimited` nor `retryAfterMs`: a rate-limited Instagram
   * page is recorded as an ordinary failure and the loop moves on to the next target.
   */
  lemma InstagramRateLimitRecordedAsFailure(p: Instagram.ReportPage)
    requires p.loaded && Instagram.CheckProfileExists(p.bodyText) && Instagram.IsRateLimited(p.bodyText)
    ensures Instagram.ReportOutcome(p) == RateLimitedFor(60000)
    ensures Recorded(Instagram.ReportOutcome(p)) == Background.Failed
  {
  }

  /** A `DO_REPORT` that meets a report still in progress is recorded as a failure. */
  lemma BusyRecordedAsFailure()
    ensures Recorded(Error("Busy")) == Background.Failed
  {
  }

  /**
   * Were a content-twitter.js reply to reach the worker, it would be recorded "success"
   * exactly when all four mandatory steps went through. The worker only opens Instagram
   * profile pages, so no such reply reaches it.
   */
  lemma TwitterRecorded(p: Twitter.ReportPage)
    ensures Recorded(Twitter.ReportOutcome(p)) == Background.Success
            <==> Twitter.CheckProfileExists(p.bodyText) && !Twitter.IsRateLimited(p.bodyText)
                 && p.optionsMenu && p.reportButton && p.hate && p.dehumanization
    ensures Recorded(Twitter.ReportOutcome(p)) == Background.Skipped
            <==> !Twitter.CheckProfileExists(p.bodyText)
  {
    Twitter.ReportOutcomeCases(p);
  }

  /** The older Instagram script: "success" exactly when all six mandatory steps went through. */
  lemma ContentRecorded(p: Content.ReportPage)
    ensures Recorded(Content.ReportOutcome(p)) == Background.Success
            <==> Instagram.CheckProfileExists(p.bodyText) && !Instagram.IsRateLimited(p.bodyText)
                 && p.optionsMenu && p.report && p.reportAccount && p.postingContent
                 && p.violence && p.callingForViolence
    ensures Recorded(Content.ReportOutcome(p)) == Background.Skipped
            <==> !Instagram.CheckProfileExists(p.bodyText)
  {
    Content.ReportOutcomeCases(p);
  }
}
