/**
 * The extension's popup (extension/popup.js): it parses the target textarea, writes the
 * start, resume and stop state into `chrome.storage.local` under platform-prefixed keys
 * (`ig_…`, `tw_…`), sends `START_BOT`/`STOP_BOT` to the background worker, and derives
 * each platform's panel (status label, button flags, resume visibility, progress text,
 * result rows) from the stored state.
 *
 * The DOM is replaced by the `View` record, `chrome.storage.local` by a map field,
 * `chrome.runtime.sendMessage` by an outbox and `alert` by a list of alert texts.
 */
module Popup {
  import opened Optional
  import opened Text
  import Background

  // ---------------------------------------------------------------------------
  // Target parsing
  // ---------------------------------------------------------------------------

  /** `value.split('\n').map(t => t.trim()).filter(t => t)`. */
  function ParseTargets(text: string): (r: seq<string>)
    ensures forall k :: 0 <= k < |r| ==> r[k] != [] && IsTrimmed(r[k], JsSpace)
  {
    TrimmedNonEmpty(Split(text, '\n'), JsSpace)
  }

  /** Every target is the trimmed form of some line of the textarea. */
  lemma TargetsComeFromLines(text: string, k: nat)
    requires k < |ParseTargets(text)|
    ensures exists j :: 0 <= j < |Split(text, '\n')| && ParseTargets(text)[k] == Trim(Split(text, '\n')[j], JsSpace)
  {
    var j := TrimmedNonEmptyFrom(Split(text, '\n'), JsSpace, k);
  }

  /** The targets of two blocks of lines are those of the first block, then those of the second. */
  lemma ParseTargetsInLineOrder(a: string, b: string)
    ensures ParseTargets(a + "\n" + b) == ParseTargets(a) + ParseTargets(b)
  {
    SplitConcat(a, b, '\n');
    TrimmedNonEmptyConcat(Split(a, '\n'), Split(b, '\n'), JsSpace);
  }

  /** A textarea holding clean names one per line gives back exactly those names. */
  lemma ParseTargetsOfCleanLines(names: seq<string>)
    requires forall k :: 0 <= k < |names| ==> names[k] != [] && IsTrimmed(names[k], JsSpace) && '\n' !in names[k]
    ensures ParseTargets(Join(names, "\n")) == names
  {
    if names == [] {
      assert Split("", '\n') == [""];
      assert Trim("", JsSpace) == "";
    } else {
      SplitJoin(names, '\n');
      TrimmedNonEmptyOfClean(names, JsSpace);
    }
  }

  // ---------------------------------------------------------------------------
  // Panel derivation (`updatePlatformUI`)
  // ---------------------------------------------------------------------------

  /** One line of the results list: the `@username` text, the label and the CSS class. */
  datatype ResultRow = ResultRow(handle: string, caption: string, cssClass: string)

  /** What `updatePlatformUI` sets on one platform's panel. */
  datatype View = View(
    statusLabel: string,
    statusClass: string,
    startDisabled: bool,
    resumeDisabled: bool,
    stopDisabled: bool,
    resumeHidden: bool,
    progressText: string,
    rows: seq<ResultRow>)

  const SuccessLabel: string := "Reported ✓"
  const FailedLabel: string := "Failed ✗"
  const SkippedLabel: string := "Not Found"
  const ProcessingLabel: string := "Processing..."

  /** The label lookup of a result row, falling back to the raw status. */
  function ResultLabel(status: string): string {
    if status == "success" then SuccessLabel
    else if status == "failed" then FailedLabel
    else if status == "skipped" then SkippedLabel
    else if status == "processing" then ProcessingLabel
    else status
  }

  function RowOf(e: Background.Entry): ResultRow {
    ResultRow("@" + e.username, ResultLabel(e.status), e.status)
  }

  /** `tabId` is truthy: present and not 0. */
  predicate HasTab(tabId: Option<int>) {
    tabId.Some? && tabId.value != 0
  }

  /** `idx > 0 && idx < total && !running`, after the defaults are applied. */
  predicate HasProgress(running: bool, idx: int, total: int) {
    0 < idx < total && !running
  }

  function ProgressText(idx: int, total: int): string {
    IntToDecimal(idx) + " / " + IntToDecimal(total)
  }

  function UpdatePlatformUI(running: Option<bool>, idx: Option<int>, total: Option<int>,
                            results: Option<seq<Background.Entry>>, tabId: Option<int>): (v: View)
    ensures |v.rows| == |results.GetOr([])|
  {
    var running := running.GetOr(false);
    var idx := idx.GetOr(0);
    var total := total.GetOr(0);
    var results := results.GetOr([]);
    var progress := HasProgress(running, idx, total);
    View(
      if running then "Running..." else if progress then "Paused" else "Idle",
      "status-value " + (if running then "running" else if progress then "paused" else "ready"),
      running || !HasTab(tabId),
      running || !HasTab(tabId),
      !running,
      !progress,
      ProgressText(idx, total),
      seq(|results|, k requires 0 <= k < |results| => RowOf(results[k])))
  }

  /** The status label: "Running..." exactly when running, "Paused" exactly when there is progress. */
  lemma StatusLabelCases(running: Option<bool>, idx: Option<int>, total: Option<int>,
                         results: Option<seq<Background.Entry>>, tabId: Option<int>)
    ensures var v := UpdatePlatformUI(running, idx, total, results, tabId);
            && (v.statusLabel == "Running..." <==> running == Some(true))
            && (v.statusLabel == "Paused"
                <==> HasProgress(running.GetOr(false), idx.GetOr(0), total.GetOr(0)))
            && (v.statusLabel == "Idle"
                <==> running != Some(true) && !(0 < idx.GetOr(0) < total.GetOr(0)))
  {
  }

  /**
   * Start and resume are disabled exactly when running or without a tab, stop exactly
   * when not running; so with a tab exactly one of start and stop is enabled.
   */
  lemma ButtonFlags(running: Option<bool>, idx: Option<int>, total: Option<int>,
                    results: Option<seq<Background.Entry>>, tabId: Option<int>)
    ensures var v := UpdatePlatformUI(running, idx, total, results, tabId);
            && (v.startDisabled <==> running == Some(true) || !HasTab(tabId))
            && v.resumeDisabled == v.startDisabled
            && (v.stopDisabled <==> running != Some(true))
            && (HasTab(tabId) ==> v.startDisabled != v.stopDisabled)
  {
  }

  /**
   * The resume button shows exactly when there is progress; then the status reads
   * "Paused", and with a tab the button is enabled.
   */
  lemma ResumeVisibility(running: Option<bool>, idx: Option<int>, total: Option<int>,
                         results: Option<seq<Background.Entry>>, tabId: Option<int>)
    ensures var v := UpdatePlatformUI(running, idx, total, results, tabId);
            && (!v.resumeHidden <==> running != Some(true) && 0 < idx.GetOr(0) < total.GetOr(0))
            && (!v.resumeHidden ==> v.statusLabel == "Paused" && (HasTab(tabId) ==> !v.resumeDisabled))
  {
  }

  /** With nothing stored, the panel is idle at "0 / 0" with no rows and no resume button. */
  lemma EmptyStorageView(tabId: Option<int>)
    ensures var v := UpdatePlatformUI(None, None, None, None, tabId);
            && v.statusLabel == "Idle" && v.resumeHidden && v.stopDisabled
            && v.progressText == "0 / 0" && v.rows == []
  {
  }

  /** The progress text is the index, a spaced slash and the total, and reads back as both. */
  lemma ProgressTextReadsBack(idx: nat, total: nat)
    ensures Split(ProgressText(idx, total), ' ') == [NatToDecimal(idx), "/", NatToDecimal(total)]
    ensures DecimalValue(NatToDecimal(idx)) == idx && DecimalValue(NatToDecimal(total)) == total
  {
    var a := NatToDecimal(idx);
    var b := NatToDecimal(total);
    DecimalHasNoSpace(idx);
    DecimalHasNoSpace(total);
    assert ' ' !in "/";
    SplitThree(a, "/", b, ' ');
    assert ProgressText(idx, total) == a + " / " + b;
    SpacedSlash(a, b);
    DecimalRoundTrip(idx);
    DecimalRoundTrip(total);
  }

  lemma SpacedSlash(a: string, b: string)
    ensures a + " / " + b == a + [' '] + "/" + [' '] + b
  {
    assert " / " == [' '] + "/" + [' '];
  }

  lemma DecimalHasNoSpace(n: nat)
    ensures ' ' !in NatToDecimal(n)
  {
    var s := NatToDecimal(n);
    assert forall k :: 0 <= k < |s| ==> s[k] != ' ';
  }

  /** Each row shows `@username`, the label of its status, and the status as its class. */
  lemma RowsFollowResults(results: seq<Background.Entry>, k: nat,
                          running: Option<bool>, idx: Option<int>, total: Option<int>, tabId: Option<int>)
    requires k < |results|
    ensures var v := UpdatePlatformUI(running, idx, total, Some(results), tabId);
            && v.rows[k].handle == "@" + results[k].username
            && v.rows[k].caption == ResultLabel(results[k].status)
            && v.rows[k].cssClass == results[k].status
  {
  }

  /**
   * The four known statuses get fixed labels; any other status is shown as it is,
   * so a raw status can read like a known one.
   */
  lemma ResultLabelCases(status: string)
    ensures ResultLabel(status) == SuccessLabel <==> status == "success" || status == SuccessLabel
    ensures ResultLabel(status) == SkippedLabel <==> status == "skipped" || status == SkippedLabel
    ensures status !in {"success", "failed", "skipped", "processing"} ==> ResultLabel(status) == status
  {
  }

  // ---------------------------------------------------------------------------
  // The popup's state
  // ---------------------------------------------------------------------------

  /** A value held in `chrome.storage.local`. */
  datatype Stored = Text(text: string) | Names(names: seq<string>) | Number(n: int)
                  | Flag(b: bool) | Results(entries: seq<Background.Entry>)

  /** Messages the popup sends to the background worker. */
  datatype Message =
    | StartBot(platform: string, tabId: Option<int>, targets: seq<string>, startIndex: int)
    | StopBot(platform: string)

  const NoTargetsAlert: string := "Add at least one target"

  /** `platform === 'instagram' ? 'ig' : 'tw'`. */
  function Prefix(platform: string): string {
    if platform == "instagram" then "ig" else "tw"
  }

  function Key(platform: string, name: string): string {
    Prefix(platform) + "_" + name
  }

  /** The stored value under `key` when it has the expected type. */
  function FlagAt(storage: map<string, Stored>, key: string): Option<bool> {
    if key in storage && storage[key].Flag? then Some(storage[key].b) else None
  }

  function NumberAt(storage: map<string, Stored>, key: string): Option<int> {
    if key in storage && storage[key].Number? then Some(storage[key].n) else None
  }

  function ResultsAt(storage: map<string, Stored>, key: string): Option<seq<Background.Entry>> {
    if key in storage && storage[key].Results? then Some(storage[key].entries) else None
  }

  /** The panel `check` derives for a platform from storage and the platform's tab. */
  function PanelOf(storage: map<string, Stored>, platform: string, tabId: Option<int>): View {
    UpdatePlatformUI(FlagAt(storage, Key(platform, "isRunning")),
                     NumberAt(storage, Key(platform, "currentIndex")),
                     NumberAt(storage, Key(platform, "totalTargets")),
                     ResultsAt(storage, Key(platform, "results")),
                     tabId)
  }

  /** Keys of different names differ: the name follows a prefix of fixed length. */
  lemma KeysDiffer(platform: string, a: string, b: string)
    requires a != b
    ensures Key(platform, a) != Key(platform, b)
  {
    assert Key(platform, a)[3..] == a;
    assert Key(platform, b)[3..] == b;
  }

  /** The six keys `start` writes for a non-empty target list. */
  function StartWrites(storage: map<string, Stored>, platform: string, textarea: string,
                       targets: seq<string>): map<string, Stored> {
    storage[Key(platform, "targets") := Text(textarea)]
           [Key(platform, "targetsList") := Names(targets)]
           [Key(platform, "totalTargets") := Number(|targets|)]
           [Key(platform, "currentIndex") := Number(0)]
           [Key(platform, "results") := Results([])]
           [Key(platform, "isRunning") := Flag(true)]
  }

  /** The four keys `resume` writes for a non-empty target list. */
  function ResumeWrites(storage: map<string, Stored>, platform: string, textarea: string,
                        targets: seq<string>): map<string, Stored> {
    storage[Key(platform, "targets") := Text(textarea)]
           [Key(platform, "targetsList") := Names(targets)]
           [Key(platform, "totalTargets") := Number(|targets|)]
           [Key(platform, "isRunning") := Flag(true)]
  }

  class PopupState {
    /** The first matching tab of each platform, as found by the last `check`. */
    var igTabId: Option<int>
    var twTabId: Option<int>
    var storage: map<string, Stored>
    var outbox: seq<Message>
    var alerts: seq<string>

    constructor(storage: map<string, Stored>)
      ensures igTabId == None && twTabId == None
      ensures this.storage == storage && outbox == [] && alerts == []
    {
      igTabId := None;
      twTabId := None;
      this.storage := storage;
      outbox := [];
      alerts := [];
    }

    function TabOf(platform: string): Option<int>
      reads this
    {
      if platform == "instagram" then igTabId else twTabId
    }

    /** `start(platform)` with `textarea` the value of the platform's target list. */
    method Start(platform: string, textarea: string)
      modifies this`storage, this`outbox, this`alerts
      ensures ParseTargets(textarea) == [] ==>
                storage == old(storage) && outbox == old(outbox) && alerts == old(alerts) + [NoTargetsAlert]
      ensures ParseTargets(textarea) != [] ==>
                && alerts == old(alerts)
                && storage == StartWrites(old(storage), platform, textarea, ParseTargets(textarea))
                && outbox == old(outbox) + [StartBot(platform, TabOf(platform), ParseTargets(textarea), 0)]
    {
      var targets := ParseTargets(textarea);
      if targets == [] {
        alerts := alerts + [NoTargetsAlert];
        return;
      }
      storage := StartWrites(storage, platform, textarea, targets);
      outbox := outbox + [StartBot(platform, TabOf(platform), targets, 0)];
    }

    /** `resume(platform)`: restart from the stored index, keeping the stored results. */
    method Resume(platform: string, textarea: string)
      modifies this`storage, this`outbox, this`alerts
      ensures ParseTargets(textarea) == [] ==>
                storage == old(storage) && outbox == old(outbox) && alerts == old(alerts) + [NoTargetsAlert]
      ensures ParseTargets(textarea) != [] ==>
                && alerts == old(alerts)
                && storage == ResumeWrites(old(storage), platform, textarea, ParseTargets(textarea))
                && outbox == old(outbox) + [StartBot(platform, TabOf(platform), ParseTargets(textarea),
                                                     NumberAt(old(storage), Key(platform, "currentIndex")).GetOr(0))]
    {
      var startIndex := NumberAt(storage, Key(platform, "currentIndex")).GetOr(0);
      var targets := ParseTargets(textarea);
      if targets == [] {
        alerts := alerts + [NoTargetsAlert];
        return;
      }
      storage := ResumeWrites(storage, platform, textarea, targets);
      outbox := outbox + [StartBot(platform, TabOf(platform), targets, startIndex)];
    }

    /** `stop(platform)`: clear the stored running flag and tell the worker. */
    method Stop(platform: string)
      modifies this`storage, this`outbox
      ensures storage == old(storage)[Key(platform, "isRunning") := Flag(false)]
      ensures outbox == old(outbox) + [StopBot(platform)]
    {
      storage := storage[Key(platform, "isRunning") := Flag(false)];
      outbox := outbox + [StopBot(platform)];
    }

    /**
     * `check`: remember the first Instagram and the first X/Twitter tab (ids of the
     * open tabs matching each platform's URLs) and derive both panels.
     */
    method Check(igTabs: seq<int>, twTabs: seq<int>) returns (ig: View, tw: View)
      modifies this`igTabId, this`twTabId
      ensures igTabId == (if igTabs == [] then None else Some(igTabs[0]))
      ensures twTabId == (if twTabs == [] then None else Some(twTabs[0]))
      ensures ig == PanelOf(storage, "instagram", igTabId)
      ensures tw == PanelOf(storage, "twitter", twTabId)
    {
      igTabId := if |igTabs| > 0 then Some(igTabs[0]) else None;
      twTabId := if |twTabs| > 0 then Some(twTabs[0]) else None;
      ig := PanelOf(storage, "instagram", igTabId);
      tw := PanelOf(storage, "twitter", twTabId);
    }
  }

  /**
   * `resume` keeps every key it does not name, among them the stored results and index
   * (`ResumeKeeps(…, "results")`, `ResumeKeeps(…, "currentIndex")`).
   */
  lemma ResumeKeeps(storage: map<string, Stored>, platform: string, textarea: string,
                    targets: seq<string>, name: string)
    requires name != "targets" && name != "targetsList" && name != "totalTargets" && name != "isRunning"
    ensures var after := ResumeWrites(storage, platform, textarea, targets);
            && (Key(platform, name) in after <==> Key(platform, name) in storage)
            && (Key(platform, name) in storage ==> after[Key(platform, name)] == storage[Key(platform, name)])
  {
    KeysDiffer(platform, name, "targets");
    KeysDiffer(platform, name, "targetsList");
    KeysDiffer(platform, name, "totalTargets");
    KeysDiffer(platform, name, "isRunning");
  }

  /** After `start`, the panel shows the run as running at "0 / n" with no rows. */
  lemma PanelAfterStart(storage: map<string, Stored>, platform: string, textarea: string,
                        targets: seq<string>, tabId: Option<int>)
    ensures var v := PanelOf(StartWrites(storage, platform, textarea, targets), platform, tabId);
            && v.statusLabel == "Running..." && v.startDisabled && !v.stopDisabled && v.resumeHidden
            && v.progressText == "0 / " + NatToDecimal(|targets|) && v.rows == []
  {
    var after := StartWrites(storage, platform, textarea, targets);
    StartWritesRead(storage, platform, textarea, targets);
    assert PanelOf(after, platform, tabId) == UpdatePlatformUI(Some(true), Some(0), Some(|targets|), Some([]), tabId);
    RunningView(tabId, |targets|);
  }

  /** The four keys the panel reads hold, after `start`, the values `start` wrote. */
  lemma StartWritesRead(storage: map<string, Stored>, platform: string, textarea: string,
                        targets: seq<string>)
    ensures var after := StartWrites(storage, platform, textarea, targets);
            && FlagAt(after, Key(platform, "isRunning")) == Some(true)
            && NumberAt(after, Key(platform, "currentIndex")) == Some(0)
            && NumberAt(after, Key(platform, "totalTargets")) == Some(|targets|)
            && ResultsAt(after, Key(platform, "results")) == Some([])
  {
    var kRun, kIdx, kTot, kRes := Key(platform, "isRunning"), Key(platform, "currentIndex"),
                                  Key(platform, "totalTargets"), Key(platform, "results");
    KeysDiffer(platform, "currentIndex", "results");
    KeysDiffer(platform, "currentIndex", "isRunning");
    KeysDiffer(platform, "totalTargets", "currentIndex");
    KeysDiffer(platform, "totalTargets", "results");
    KeysDiffer(platform, "totalTargets", "isRunning");
    KeysDiffer(platform, "results", "isRunning");
    var after := StartWrites(storage, platform, textarea, targets);
    assert after[kRun] == Flag(true);
    assert after[kRes] == Results([]);
    assert after[kIdx] == Number(0);
    assert after[kTot] == Number(|targets|);
  }

  /** The view of a run that has just started on `n` targets. */
  lemma RunningView(tabId: Option<int>, n: nat)
    ensures var v := UpdatePlatformUI(Some(true), Some(0), Some(n), Some([]), tabId);
            && v.statusLabel == "Running..." && v.startDisabled && !v.stopDisabled && v.resumeHidden
            && v.progressText == "0 / " + NatToDecimal(n) && v.rows == []
  {
  }
}
