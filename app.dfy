/**
 * The web UI's bookkeeping (src/app.py): the global `bot_state` dictionary, the
 * `/api/start` and `/api/stop` branches of `do_POST`, the results list that
 * `run_bot_thread` keeps while it reports the targets, the status table it maps
 * `report_user_safe` results through, and the rule of the embedded page's `updateUI`
 * that lists the targets not yet in the results as pending.
 *
 * `run_bot_thread` runs in its own thread; a `/api/stop` that arrives while it runs is
 * given as `stopBefore(i)`: the stop was handled before the thread checked `running`
 * for target `i`. The Selenium driver is given by how `setup_driver` ended and the URL of
 * the opened tab; the file of targets is read with `Bot.LoadTargets`, which models both
 * `load_targets` functions once the file's bytes are decoded.
 */
module App {
  import opened Optional
  import opened Text
  import Bot
  import Background

  /**
   * How `setup_driver` and the opening of the Instagram tab ended: a driver on its tab,
   * `SystemExit` (caught by `run_bot_thread`), or any other exception, which nothing catches.
   */
  datatype DriverSetup = Ready | Exited | Raised

  datatype ResultEntry = ResultEntry(username: string, status: string, message: string)

  const SystemEntry: ResultEntry :=
    ResultEntry("SYSTEM", "error", "Not logged into Instagram. Please log in.")

  function ProcessingEntry(username: string): ResultEntry {
    ResultEntry(username, "processing", "Processing...")
  }

  // ---------------------------------------------------------------------------
  // The status table
  // ---------------------------------------------------------------------------

  /** `status_messages.get(result, ("failed", "Unknown error"))`. */
  function StatusEntry(result: string): (r: (string, string))
    ensures r.0 == Bot.Success || r.0 == Bot.Skipped || r.0 == Bot.Failed
  {
    if result == Bot.Success then ("success", "Reported")
    else if result == Bot.Skipped then ("skipped", "Profile not found")
    else if result == Bot.Failed then ("failed", "Failed to report")
    else ("failed", "Unknown error")
  }

  /** The three statuses keep their name and get their own message; anything else is an unknown error. */
  lemma StatusTableCases(result: string)
    ensures result in {Bot.Success, Bot.Skipped, Bot.Failed} ==> StatusEntry(result).0 == result
    ensures StatusEntry(result) == ("failed", "Unknown error") <==> result !in {Bot.Success, Bot.Skipped, Bot.Failed}
  {
  }

  /** `report_user_safe` only returns the three statuses, so the default is never used. */
  lemma DefaultNeverUsed(run: Bot.ProfileRun, raised: bool)
    ensures StatusEntry(Bot.ReportUserSafe(run, raised)) != ("failed", "Unknown error")
    ensures StatusEntry(Bot.ReportUserSafe(run, raised)).0 == Bot.ReportUserSafe(run, raised)
  {
    StatusTableCases(Bot.ReportUserSafe(run, raised));
  }

  function FinalEntry(username: string, result: string): ResultEntry {
    ResultEntry(username, StatusEntry(result).0, StatusEntry(result).1)
  }

  // ---------------------------------------------------------------------------
  // What a run appends
  // ---------------------------------------------------------------------------

  /** How many targets a run reports: none when `running` is already false, else up to the first stop. */
  function Processed(running: bool, count: nat, stopBefore: nat -> bool): (n: nat)
    ensures n <= count
  {
    if running then Background.StopPoint(0, count, stopBefore) else 0
  }

  /** The entries left by reporting the first `n` targets, one per target. */
  function RunEntries(targets: seq<string>, n: nat, runs: nat -> Bot.ProfileRun, raised: nat -> bool): (r: seq<ResultEntry>)
    requires n <= |targets|
    ensures |r| == n
  {
    seq(n, i requires 0 <= i < n => FinalEntry(targets[i], Bot.ReportUserSafe(runs(i), raised(i))))
  }

  /** Each processed target leaves one settled entry under its own name, in target order. */
  lemma RunEntriesSettled(targets: seq<string>, n: nat, runs: nat -> Bot.ProfileRun, raised: nat -> bool, i: nat)
    requires n <= |targets| && i < n
    ensures var e := RunEntries(targets, n, runs, raised)[i];
            && e.username == targets[i]
            && e.status == Bot.ReportUserSafe(runs(i), raised(i))
            && e.status != "processing"
            && e.message != "Unknown error"
  {
    DefaultNeverUsed(runs(i), raised(i));
  }

  // ---------------------------------------------------------------------------
  // bot_state
  // ---------------------------------------------------------------------------

  class BotState {
    var running: bool
    var currentIndex: int
    var results: seq<ResultEntry>
    var chromeReady: bool
    /** At each `report_user_safe` call: `current_index` and the last entry of `results`. */
    ghost var reports: seq<(int, ResultEntry)>

    constructor()
      ensures !running && currentIndex == 0 && results == [] && !chromeReady && reports == []
    {
      running := false;
      currentIndex := 0;
      results := [];
      chromeReady := false;
      reports := [];
    }

    /** `/api/start`: reset and start a run only when none is running; says whether a thread was started. */
    method ApiStart() returns (started: bool)
      modifies this
      ensures started == !old(running)
      ensures old(running) ==> unchanged(this)
      ensures !old(running) ==> running && currentIndex == 0 && results == []
                                && chromeReady == old(chromeReady) && reports == old(reports)
    {
      started := !running;
      if started {
        running := true;
        currentIndex := 0;
        results := [];
      }
    }

    /** `/api/stop`: clear `running`; nothing else changes, so a second stop changes nothing. */
    method ApiStop()
      modifies this`running
      ensures !running
      ensures old(!running) ==> unchanged(this)
    {
      running := false;
    }

    /**
     * One target of the loop of `run_bot_thread`: point `current_index` at it, append a
     * "processing" entry, report, then overwrite that last entry with the mapped status.
     */
    method ReportTarget(i: nat, username: string, run: Bot.ProfileRun, raised: bool)
      modifies this`currentIndex, this`results, this`reports
      ensures currentIndex == i
      ensures results == old(results) + [FinalEntry(username, Bot.ReportUserSafe(run, raised))]
      ensures reports == old(reports) + [(i, ProcessingEntry(username))]
    {
      currentIndex := i;
      results := results + [ProcessingEntry(username)];
      reports := reports + [(currentIndex, results[|results| - 1])];
      var result := Bot.ReportUserSafe(run, raised);
      var (status, message) := StatusEntry(result);
      results := results[|results| - 1 := ResultEntry(username, status, message)];
    }

    /** The loop of `run_bot_thread` over the targets. */
    method RunTargets(targets: seq<string>, runs: nat -> Bot.ProfileRun, raised: nat -> bool, stopBefore: nat -> bool)
      modifies this`running, this`currentIndex, this`results, this`reports
      ensures var n := Processed(old(running), |targets|, stopBefore);
              && results == old(results) + RunEntries(targets, n, runs, raised)
              && currentIndex == (if n == 0 then old(currentIndex) else n - 1)
              && reports == old(reports) + ProcessingLog(targets, n)
    {
      ghost var n := Processed(running, |targets|, stopBefore);
      ghost var base := results;
      ghost var baseReports := reports;
      ghost var baseIndex := currentIndex;
      var i := 0;
      while i < |targets|
        invariant i <= n
        invariant running == old(running)
        invariant results == base + RunEntries(targets, i, runs, raised)
        invariant currentIndex == (if i == 0 then baseIndex else i - 1)
        invariant reports == baseReports + ProcessingLog(targets, i)
        decreases |targets| - i
      {
        if stopBefore(i) {
          ApiStop();
        }
        if !running {
          break;
        }
        ReportTarget(i, targets[i], runs(i), raised(i));
        RunEntriesGrow(targets, i, runs, raised);
        ProcessingLogGrows(targets, i);
        i := i + 1;
      }
    }

    /**
     * `run_bot_thread`. When the driver setup or the opening of the tab raises an exception
     * other than `SystemExit`, the thread dies and `bot_state` stays as it was, `running`
     * included.
     */
    method RunBotThread(file: Option<string>, setup: DriverSetup, currentUrl: string,
                        runs: nat -> Bot.ProfileRun, raised: nat -> bool, stopBefore: nat -> bool)
      modifies this
      ensures chromeReady == old(chromeReady)
      ensures setup.Raised? ==> running == old(running) && results == old(results)
                                && currentIndex == old(currentIndex) && reports == old(reports)
      ensures !setup.Raised? ==> !running
      ensures setup.Exited? ==> results == old(results) && currentIndex == old(currentIndex) && reports == old(reports)
      ensures setup.Ready? && Contains(Lower(currentUrl), "login") ==>
                results == old(results) + [SystemEntry] && currentIndex == old(currentIndex) && reports == old(reports)
      ensures setup.Ready? && !Contains(Lower(currentUrl), "login") ==>
                var targets := Bot.LoadTargets(file);
                var n := Processed(old(running), |targets|, stopBefore);
                && results == old(results) + RunEntries(targets, n, runs, raised)
                && currentIndex == (if n == 0 then old(currentIndex) else n - 1)
                && reports == old(reports) + ProcessingLog(targets, n)
    {
      var targets := Bot.LoadTargets(file);
      if setup.Raised? {
        return;
      }
      if setup.Exited? {
        running := false;
        return;
      }
      if Contains(Lower(currentUrl), "login") {
        results := results + [SystemEntry];
        running := false;
        return;
      }
      RunTargets(targets, runs, raised, stopBefore);
      running := false;
    }
  }

  /** For each target reported, in order: its index and the "processing" entry it was reported under. */
  function ProcessingLog(targets: seq<string>, n: nat): (r: seq<(int, ResultEntry)>)
    requires n <= |targets|
    ensures |r| == n
  {
    seq(n, i requires 0 <= i < n => (i, ProcessingEntry(targets[i])))
  }

  lemma ProcessingLogGrows(targets: seq<string>, i: nat)
    requires i < |targets|
    ensures ProcessingLog(targets, i + 1) == ProcessingLog(targets, i) + [(i, ProcessingEntry(targets[i]))]
  {
  }

  lemma RunEntriesGrow(targets: seq<string>, i: nat, runs: nat -> Bot.ProfileRun, raised: nat -> bool)
    requires i < |targets|
    ensures RunEntries(targets, i + 1, runs, raised)
            == RunEntries(targets, i, runs, raised) + [FinalEntry(targets[i], Bot.ReportUserSafe(runs(i), raised(i)))]
  {
  }

  // ---------------------------------------------------------------------------
  // Pending rows of the page
  // ---------------------------------------------------------------------------

  function Usernames(results: seq<ResultEntry>): set<string> {
    set k | 0 <= k < |results| :: results[k].username
  }

  /** The targets, in order, whose name is not in `done`. */
  function Pending(targets: seq<string>, done: set<string>): (r: seq<string>)
    ensures forall x :: x in r <==> x in targets && x !in done
  {
    if targets == [] then []
    else
      var front := targets[..|targets| - 1];
      var last := targets[|targets| - 1];
      assert targets == front + [last];
      Pending(front, done) + (if last in done then [] else [last])
  }

  /** The pending rows of `updateUI`, after the rows of the results. */
  method PendingRows(targets: seq<string>, results: seq<ResultEntry>) returns (pending: seq<string>)
    ensures pending == Pending(targets, Usernames(results))
  {
    var processed := set k | 0 <= k < |results| :: results[k].username;
    pending := [];
    var i := 0;
    while i < |targets|
      invariant 0 <= i <= |targets|
      invariant pending == Pending(targets[..i], processed)
    {
      assert targets[..i + 1][..i] == targets[..i];
      if targets[i] !in processed {
        pending := pending + [targets[i]];
      }
      i := i + 1;
    }
    assert targets[..i] == targets;
  }

  /** The pending rows of two runs of targets are those of the first, then those of the second. */
  lemma {:induction false} PendingInTargetOrder(a: seq<string>, b: seq<string>, done: set<string>)
    ensures Pending(a + b, done) == Pending(a, done) + Pending(b, done)
    decreases |b|
  {
    if b == [] {
      assert a + b == a;
    } else {
      var front := b[..|b| - 1];
      assert (a + b)[..|a + b| - 1] == a + front;
      assert (a + b)[|a + b| - 1] == b[|b| - 1];
      PendingInTargetOrder(a, front, done);
    }
  }

  /** With no username processed, every target is pending. */
  lemma {:induction false} NothingDoneAllPending(targets: seq<string>, done: set<string>)
    requires forall k :: 0 <= k < |targets| ==> targets[k] !in done
    ensures Pending(targets, done) == targets
  {
    if targets != [] {
      var front := targets[..|targets| - 1];
      assert forall k :: 0 <= k < |front| ==> front[k] == targets[k];
      NothingDoneAllPending(front, done);
    }
  }

  /** With every target processed, nothing is pending. */
  lemma {:induction false} AllDoneNonePending(targets: seq<string>, done: set<string>)
    requires forall k :: 0 <= k < |targets| ==> targets[k] in done
    ensures Pending(targets, done) == []
  {
    if targets != [] {
      var front := targets[..|targets| - 1];
      assert forall k :: 0 <= k < |front| ==> front[k] == targets[k];
      AllDoneNonePending(front, done);
    }
  }

  /** The names a run leaves in the results are exactly those of the targets it reported. */
  lemma RunUsernames(targets: seq<string>, n: nat, runs: nat -> Bot.ProfileRun, raised: nat -> bool, x: string)
    requires n <= |targets|
    ensures x in Usernames(RunEntries(targets, n, runs, raised)) <==> x in targets[..n]
  {
    var entries := RunEntries(targets, n, runs, raised);
    forall k | 0 <= k < n
      ensures entries[k].username == targets[..n][k]
    {
      assert entries[k] == FinalEntry(targets[k], Bot.ReportUserSafe(runs(k), raised(k)));
    }
    if x in targets[..n] {
      var k :| 0 <= k < n && targets[..n][k] == x;
      assert entries[k].username == x;
    }
    if x in Usernames(entries) {
      var k :| 0 <= k < |entries| && entries[k].username == x;
      assert targets[..n][k] == x;
    }
  }

  /**
   * After a run from a fresh start that reported the first `n` of distinct targets, the
   * pending rows are exactly the remaining targets, in order.
   */
  lemma FreshRunPending(targets: seq<string>, n: nat, runs: nat -> Bot.ProfileRun, raised: nat -> bool)
    requires n <= |targets|
    requires forall a, b :: 0 <= a < b < |targets| ==> targets[a] != targets[b]
    ensures Pending(targets, Usernames(RunEntries(targets, n, runs, raised))) == targets[n..]
  {
    var done := Usernames(RunEntries(targets, n, runs, raised));
    var front, back := targets[..n], targets[n..];
    forall k | 0 <= k < |front|
      ensures front[k] in done
    {
      RunUsernames(targets, n, runs, raised, front[k]);
    }
    forall k | 0 <= k < |back|
      ensures back[k] !in done
    {
      RunUsernames(targets, n, runs, raised, back[k]);
      assert back[k] == targets[n + k];
    }
    assert targets == front + back;
    PendingInTargetOrder(front, back, done);
    AllDoneNonePending(front, done);
    NothingDoneAllPending(back, done);
  }
}
