/**
 * The extension's background worker (extension/background.js): the batch loop of
 * `startBot`, `stopBot`, and the results list kept in `chrome.storage.local` by
 * `addResult` and `updateResult`.
 *
 * Storage is modelled as fields under the keys background.js itself reads and writes
 * (`isRunning`, `currentIndex`, `totalTargets`, `results`). What the outside world does
 * during a run is given as inputs indexed by target position: `delivery(i)` is what came
 * of navigating to target `i` and sending it `DO_REPORT`, and `stopBefore(i)` says
 * that `stopBot` ran before the check that precedes target `i`.
 */
module Background {
  import opened Optional
  import opened Protocol

  const Processing: string := "processing"
  const Success: string := "success"
  const Skipped: string := "skipped"
  const Failed: string := "failed"

  /** One element of the stored `results` array: `{ username, status }`. */
  datatype Entry = Entry(username: string, status: string)

  /** No username appears twice. */
  ghost predicate NoDuplicates(results: seq<Entry>) {
    forall a, b :: 0 <= a < b < |results| ==> results[a].username != results[b].username
  }

  /** Both lists hold the same usernames at the same positions. */
  ghost predicate SameUsernames(a: seq<Entry>, b: seq<Entry>) {
    |a| == |b| && forall k :: 0 <= k < |a| ==> a[k].username == b[k].username
  }

  // ---------------------------------------------------------------------------
  // The results list
  // ---------------------------------------------------------------------------

  /** `results.findIndex(r => r.username === username)`, None for -1. */
  function FindIndex(results: seq<Entry>, username: string): (r: Option<nat>)
    ensures r.Some? ==> r.value < |results|
  {
    if |results| == 0 then None
    else if results[0].username == username then Some(0)
    else match FindIndex(results[1..], username)
      case None => None
      case Some(k) => Some(k + 1)
  }

  /** `findIndex` gives the first entry with the username, and -1 exactly when there is none. */
  lemma {:induction false} FindIndexSpec(results: seq<Entry>, username: string)
    ensures var r := FindIndex(results, username);
            && (r.None? <==> forall k :: 0 <= k < |results| ==> results[k].username != username)
            && (r.Some? ==> && results[r.value].username == username
                            && forall k :: 0 <= k < r.value ==> results[k].username != username)
  {
    if |results| > 0 && results[0].username != username {
      FindIndexSpec(results[1..], username);
      assert forall k :: 1 <= k < |results| ==> results[k] == results[1..][k - 1];
    }
  }

  /** The status the list records for `username`: that of its first entry. */
  function StatusOf(results: seq<Entry>, username: string): Option<string> {
    match FindIndex(results, username)
    case Some(k) => Some(results[k].status)
    case None => None
  }

  /** Lists with the same usernames find every username at the same place. */
  lemma FindIndexSameUsernames(a: seq<Entry>, b: seq<Entry>, username: string)
    requires SameUsernames(a, b)
    ensures FindIndex(a, username) == FindIndex(b, username)
  {
    FindIndexSpec(a, username);
    FindIndexSpec(b, username);
  }

  /** What `addResult(username, status)` leaves in storage. */
  function Upsert(results: seq<Entry>, username: string, status: string): seq<Entry> {
    match FindIndex(results, username)
    case Some(k) => results[k := Entry(username, status)]
    case None => results + [Entry(username, status)]
  }

  /** What `updateResult(username, status)` leaves in storage. */
  function Update(results: seq<Entry>, username: string, status: string): seq<Entry> {
    match FindIndex(results, username)
    case Some(k) => results[k := Entry(username, status)]
    case None => results
  }

  /**
   * `addResult` overwrites an existing entry or appends one: the list grows by at most
   * one, the earlier entries keep their usernames, entries of other usernames are
   * untouched, no duplicate appears, and the username now has the new status.
   */
  lemma UpsertSpec(results: seq<Entry>, username: string, status: string)
    ensures var r := Upsert(results, username, status);
            && (FindIndex(results, username).Some? ==> |r| == |results|)
            && (FindIndex(results, username).None? ==> |r| == |results| + 1 && r[|results|] == Entry(username, status))
            && (forall k :: 0 <= k < |results| ==> r[k].username == results[k].username)
            && (forall k :: 0 <= k < |results| && results[k].username != username ==> r[k] == results[k])
            && StatusOf(r, username) == Some(status)
            && (NoDuplicates(results) ==> NoDuplicates(r))
  {
    UpsertShape(results, username, status);
    UpsertStatus(results, username, status);
    if NoDuplicates(results) {
      UpsertKeepsUnique(results, username, status);
    }
  }

  /** The list grows by at most one, and the earlier entries keep their usernames. */
  lemma UpsertShape(results: seq<Entry>, username: string, status: string)
    ensures var r := Upsert(results, username, status);
            && (FindIndex(results, username).Some? ==> |r| == |results|)
            && (FindIndex(results, username).None? ==> |r| == |results| + 1 && r[|results|] == Entry(username, status))
            && (forall k :: 0 <= k < |results| ==> r[k].username == results[k].username)
            && (forall k :: 0 <= k < |results| && results[k].username != username ==> r[k] == results[k])
  {
    FindIndexSpec(results, username);
  }

  lemma UpsertStatus(results: seq<Entry>, username: string, status: string)
    ensures StatusOf(Upsert(results, username, status), username) == Some(status)
  {
    var r := Upsert(results, username, status);
    FindIndexSpec(results, username);
    match FindIndex(results, username)
    case Some(k) =>
      FindIndexSameUsernames(results, r, username);
    case None =>
      FindIndexSpec(r, username);
      assert forall k :: 0 <= k < |results| ==> r[k].username != username;
      assert r[|results|].username == username;
  }

  lemma UpsertKeepsUnique(results: seq<Entry>, username: string, status: string)
    requires NoDuplicates(results)
    ensures NoDuplicates(Upsert(results, username, status))
  {
    FindIndexSpec(results, username);
  }

  /**
   * `updateResult` changes only the status of the matching entry, and changes nothing
   * when the username is absent.
   */
  lemma UpdateSpec(results: seq<Entry>, username: string, status: string)
    ensures var r := Update(results, username, status);
            && (FindIndex(results, username).None? ==> r == results)
            && SameUsernames(r, results)
            && (forall k :: 0 <= k < |results| && results[k].username != username ==> r[k] == results[k])
            && (FindIndex(results, username).Some? ==> StatusOf(r, username) == Some(status))
            && (NoDuplicates(results) ==> NoDuplicates(r))
  {
    var r := Update(results, username, status);
    FindIndexSpec(results, username);
    if FindIndex(results, username).Some? {
      FindIndexSameUsernames(results, r, username);
    }
  }

  /** Either operation leaves the status of every other username as it was. */
  lemma OtherStatusesUnchanged(results: seq<Entry>, username: string, status: string, other: string)
    requires other != username
    ensures StatusOf(Upsert(results, username, status), other) == StatusOf(results, other)
    ensures StatusOf(Update(results, username, status), other) == StatusOf(results, other)
  {
    UpsertLeavesOthers(results, username, status, other);
    UpdateLeavesOthers(results, username, status, other);
  }

  lemma UpdateLeavesOthers(results: seq<Entry>, username: string, status: string, other: string)
    requires other != username
    ensures StatusOf(Update(results, username, status), other) == StatusOf(results, other)
  {
    var ud := Update(results, username, status);
    UpdateSpec(results, username, status);
    FindIndexSameUsernames(results, ud, other);
    FindIndexSpec(results, other);
  }

  lemma UpsertLeavesOthers(results: seq<Entry>, username: string, status: string, other: string)
    requires other != username
    ensures StatusOf(Upsert(results, username, status), other) == StatusOf(results, other)
  {
    FindIndexSpec(results, other);
    FindIndexSpec(results, username);
    match FindIndex(results, username)
    case Some(k) =>
      var up := results[k := Entry(username, status)];
      assert SameUsernames(results, up);
      FindIndexSameUsernames(results, up, other);
    case None =>
      FindIndexAppend(results, Entry(username, status), other);
  }

  /** Appending an entry of another username does not move where `other` is found. */
  lemma {:induction false} FindIndexAppend(results: seq<Entry>, e: Entry, other: string)
    requires e.username != other
    ensures FindIndex(results + [e], other) == FindIndex(results, other)
  {
    if |results| > 0 {
      assert (results + [e])[1..] == results[1..] + [e];
      FindIndexAppend(results[1..], e, other);
    }
  }

  // ---------------------------------------------------------------------------
  // Classifying what came back from the content script
  // ---------------------------------------------------------------------------

  /** What came of navigating to a target and sending it `DO_REPORT`. */
  datatype Delivery =
    | Answered(reply: Reply)  // `sendMessage` resolved with the content script's reply
    | NoAnswer                // it resolved with no reply
    | SendThrew               // `sendMessage` rejected (lines 87-89)
    | NavigationThrew         // `tabs.update` or the wait threw (lines 101-106)

  /** The status `startBot` records for a target. */
  function Classify(d: Delivery): string {
    if d.Answered? && d.reply.IsSuccess() then Success
    else if d.Answered? && d.reply.IsNotFound() then Skipped
    else Failed
  }

  /** A status that marks a target as done with. */
  predicate IsFinal(status: string) {
    status == Success || status == Skipped || status == Failed
  }

  /** The classification is exhaustive, and only the two kinds of reply it names escape "failed". */
  lemma ClassifyCases(d: Delivery)
    ensures IsFinal(Classify(d)) && Classify(d) != Processing
    ensures Classify(d) == Success <==> d == Answered(Succeeded)
    ensures Classify(d) == Skipped <==> d == Answered(ProfileNotFound)
    ensures Classify(d) == Failed <==> !(d == Answered(Succeeded) || d == Answered(ProfileNotFound))
  {
  }

  // ---------------------------------------------------------------------------
  // What a run does, target by target
  // ---------------------------------------------------------------------------

  /** One target: `addResult(username, 'processing')`, then `updateResult` with its classification. */
  function Visit(results: seq<Entry>, username: string, d: Delivery): seq<Entry> {
    Update(Upsert(results, username, Processing), username, Classify(d))
  }

  /** A visit leaves the target with its classification, keeps usernames unique, and touches no other username. */
  lemma VisitSpec(results: seq<Entry>, username: string, d: Delivery)
    ensures StatusOf(Visit(results, username, d), username) == Some(Classify(d))
    ensures NoDuplicates(results) ==> NoDuplicates(Visit(results, username, d))
    ensures forall other :: other != username ==> StatusOf(Visit(results, username, d), other) == StatusOf(results, other)
  {
    VisitStatus(results, username, d);
    if NoDuplicates(results) {
      VisitKeepsUnique(results, username, d);
    }
    forall other | other != username
      ensures StatusOf(Visit(results, username, d), other) == StatusOf(results, other)
    {
      VisitLeavesOthers(results, username, d, other);
    }
  }

  lemma VisitStatus(results: seq<Entry>, username: string, d: Delivery)
    ensures StatusOf(Visit(results, username, d), username) == Some(Classify(d))
  {
    var up := Upsert(results, username, Processing);
    UpsertStatus(results, username, Processing);
    UpdateSpec(up, username, Classify(d));
  }

  lemma VisitKeepsUnique(results: seq<Entry>, username: string, d: Delivery)
    requires NoDuplicates(results)
    ensures NoDuplicates(Visit(results, username, d))
  {
    var up := Upsert(results, username, Processing);
    UpsertKeepsUnique(results, username, Processing);
    UpdateSpec(up, username, Classify(d));
  }

  lemma VisitLeavesOthers(results: seq<Entry>, username: string, d: Delivery, other: string)
    requires other != username
    ensures StatusOf(Visit(results, username, d), other) == StatusOf(results, other)
  {
    var up := Upsert(results, username, Processing);
    UpsertLeavesOthers(results, username, Processing, other);
    UpdateLeavesOthers(up, username, Classify(d), other);
  }

  /** The results after targets `from` up to (not including) `until` have been visited in order. */
  function RunResults(base: seq<Entry>, targets: seq<string>, from: nat, until: nat, delivery: nat -> Delivery): seq<Entry>
    requires from < until ==> until <= |targets|
    decreases until
  {
    if until <= from then base
    else Visit(RunResults(base, targets, from, until - 1, delivery), targets[until - 1], delivery(until - 1))
  }

  /** The index of the first target a stop prevents, or `until` when the run goes through. */
  function StopPoint(from: nat, until: nat, stopBefore: nat -> bool): (r: nat)
    ensures from <= r && (from < r ==> r <= until)
    ensures forall i :: from <= i < r ==> !stopBefore(i)
    ensures r < until ==> stopBefore(r)
    decreases until - from
  {
    if from >= until then from
    else if stopBefore(from) then from
    else StopPoint(from + 1, until, stopBefore)
  }

  /** The StopPoint is the only index with those properties. */
  lemma StopPointUnique(from: nat, until: nat, stopBefore: nat -> bool, i: nat)
    requires from <= i && (from < i ==> i <= until)
    requires forall j :: from <= j < i ==> !stopBefore(j)
    requires i < until ==> stopBefore(i)
    ensures StopPoint(from, until, stopBefore) == i
  {
  }

  /** The `currentIndex` writes of the loop: `i` before target `i` and `i + 1` after it. */
  function CursorWrites(from: nat, until: nat): (w: seq<int>)
    decreases until
  {
    if until <= from then [] else CursorWrites(from, until - 1) + [until - 1, until]
  }

  /** Logging the writes around target `i` extends the log of a run up to `i` to a run up to `i + 1`. */
  lemma CursorWritesNext(log0: seq<int>, from: nat, i: nat, before: seq<int>, after: seq<int>)
    requires from <= i
    requires before == log0 + CursorWrites(from, i)
    requires after == before + [i, i + 1]
    ensures after == log0 + CursorWrites(from, i + 1)
  {
  }

  /** The writes only go up, and none passes the end of the list. */
  lemma {:induction false} CursorWritesSorted(from: nat, until: nat)
    requires from <= until
    ensures forall a, b :: 0 <= a < b < |CursorWrites(from, until)| ==> CursorWrites(from, until)[a] <= CursorWrites(from, until)[b]
    ensures forall a :: 0 <= a < |CursorWrites(from, until)| ==> from <= CursorWrites(from, until)[a] <= until
    ensures |CursorWrites(from, until)| == 2 * (until - from)
  {
    if from < until {
      CursorWritesSorted(from, until - 1);
    }
  }

  /** The whole `currentIndex` history of a run, from the first write to the last, never decreases. */
  lemma RunCursorSorted(startIndex: nat, stop: nat, total: nat)
    requires startIndex <= stop <= total
    ensures var log := [startIndex] + CursorWrites(startIndex, stop) + [total];
            forall a, b :: 0 <= a < b < |log| ==> log[a] <= log[b]
  {
    CursorWritesSorted(startIndex, stop);
    var w := CursorWrites(startIndex, stop);
    var log := [startIndex] + w + [total];
    forall a, b | 0 <= a < b < |log|
      ensures log[a] <= log[b]
    {
      if 0 < a && b < |log| - 1 {
        assert log[a] == w[a - 1] && log[b] == w[b - 1];
      } else if 0 < a {
        assert log[a] == w[a - 1];
      } else if b < |log| - 1 {
        assert log[b] == w[b - 1];
      }
    }
  }

  /** Visiting keeps the usernames unique. */
  lemma {:induction false} RunResultsNoDuplicates(base: seq<Entry>, targets: seq<string>, from: nat, until: nat, delivery: nat -> Delivery)
    requires until <= |targets| && NoDuplicates(base)
    ensures NoDuplicates(RunResults(base, targets, from, until, delivery))
    decreases until
  {
    if from < until {
      RunResultsNoDuplicates(base, targets, from, until - 1, delivery);
      VisitKeepsUnique(RunResults(base, targets, from, until - 1, delivery), targets[until - 1], delivery(until - 1));
      RunResultsStep(base, targets, from, until, delivery);
    }
  }

  /** A username that is not among the visited targets keeps its status. */
  lemma {:induction false} RunResultsUntouched(base: seq<Entry>, targets: seq<string>, from: nat, until: nat, delivery: nat -> Delivery, username: string)
    requires until <= |targets|
    requires forall i :: from <= i < until ==> targets[i] != username
    ensures StatusOf(RunResults(base, targets, from, until, delivery), username) == StatusOf(base, username)
    decreases until
  {
    if from < until {
      var before := RunResults(base, targets, from, until - 1, delivery);
      RunResultsUntouched(base, targets, from, until - 1, delivery, username);
      VisitLeavesOthers(before, targets[until - 1], delivery(until - 1), username);
      RunResultsStep(base, targets, from, until, delivery);
    }
  }

  /** A visited target whose username comes up no more keeps the status its own visit gave it. */
  lemma LastVisitDecides(base: seq<Entry>, targets: seq<string>, from: nat, until: nat, delivery: nat -> Delivery, i: nat)
    requires from <= i < until <= |targets|
    requires forall j :: i < j < until ==> targets[j] != targets[i]
    ensures StatusOf(RunResults(base, targets, from, until, delivery), targets[i]) == Some(Classify(delivery(i)))
  {
    var visited := RunResults(base, targets, from, i + 1, delivery);
    VisitStatus(RunResults(base, targets, from, i, delivery), targets[i], delivery(i));
    RunResultsUntouched(visited, targets, i + 1, until, delivery, targets[i]);
    RunResultsSplit(base, targets, from, i + 1, until, delivery, visited);
  }

  /** A run over no targets leaves the results as they were. */
  lemma RunResultsEmpty(base: seq<Entry>, targets: seq<string>, from: nat, delivery: nat -> Delivery)
    ensures RunResults(base, targets, from, from, delivery) == base
  {
  }

  /** The last step of a run visits target `until - 1`. */
  lemma RunResultsStep(base: seq<Entry>, targets: seq<string>, from: nat, until: nat, delivery: nat -> Delivery)
    requires from < until <= |targets|
    ensures RunResults(base, targets, from, until, delivery)
            == Visit(RunResults(base, targets, from, until - 1, delivery), targets[until - 1], delivery(until - 1))
  {
  }

  /** Visiting target `i` after a run up to `i` is the run up to `i + 1`. */
  lemma RunResultsNext(base: seq<Entry>, targets: seq<string>, from: nat, i: nat, delivery: nat -> Delivery, before: seq<Entry>, after: seq<Entry>)
    requires from <= i < |targets|
    requires before == RunResults(base, targets, from, i, delivery)
    requires after == Visit(before, targets[i], delivery(i))
    ensures after == RunResults(base, targets, from, i + 1, delivery)
  {
    RunResultsStep(base, targets, from, i + 1, delivery);
  }

  /** Two runs that agree up to `until - 1` agree after target `until - 1`. */
  lemma SameStep(a: seq<Entry>, b: seq<Entry>, targets: seq<string>, fromA: nat, fromB: nat, until: nat, delivery: nat -> Delivery)
    requires fromA < until && fromB < until && until <= |targets|
    requires RunResults(a, targets, fromA, until - 1, delivery) == RunResults(b, targets, fromB, until - 1, delivery)
    ensures RunResults(a, targets, fromA, until, delivery) == RunResults(b, targets, fromB, until, delivery)
  {
    RunResultsStep(a, targets, fromA, until, delivery);
    RunResultsStep(b, targets, fromB, until, delivery);
  }

  /** Running up to `mid` and then on to `until` is running up to `until`. */
  lemma {:induction false} RunResultsSplit(base: seq<Entry>, targets: seq<string>, from: nat, mid: nat, until: nat, delivery: nat -> Delivery, front: seq<Entry>)
    requires from <= mid <= until <= |targets|
    requires front == RunResults(base, targets, from, mid, delivery)
    ensures RunResults(front, targets, mid, until, delivery) == RunResults(base, targets, from, until, delivery)
    decreases until
  {
    if mid < until {
      RunResultsSplit(base, targets, from, mid, until - 1, delivery, front);
      SameStep(front, base, targets, mid, from, until, delivery);
    } else {
      RunResultsEmpty(front, targets, mid, delivery);
    }
  }

  /** After a run, every visited target has a final status: none is left "processing". */
  lemma {:induction false} RunResultsSettled(base: seq<Entry>, targets: seq<string>, from: nat, until: nat, delivery: nat -> Delivery, i: nat)
    requires from <= i < until <= |targets|
    ensures var s := StatusOf(RunResults(base, targets, from, until, delivery), targets[i]);
            s.Some? && IsFinal(s.value)
    decreases until - i
  {
    if j :| i < j < until && targets[j] == targets[i] {
      RunResultsSettled(base, targets, from, until, delivery, j);
    } else {
      LastVisitDecides(base, targets, from, until, delivery, i);
      ClassifyCases(delivery(i));
    }
  }

  // ---------------------------------------------------------------------------
  // The worker
  // ---------------------------------------------------------------------------

  class Worker {
    /** The module-level `isRunning` and `currentTabId`. */
    var isRunning: bool
    var currentTabId: Option<int>
    /** The `chrome.storage.local` keys the worker uses. */
    var storedRunning: bool
    var storedIndex: int
    var storedTotal: int
    var results: seq<Entry>
    /** Every value written to the stored `currentIndex`, in order. */
    ghost var cursorLog: seq<int>

    /** `stopBot()`: both flags down; nothing else changes, so a second stop changes nothing. */
    method StopBot()
      modifies this
      ensures !isRunning && !storedRunning
      ensures currentTabId == old(currentTabId) && storedIndex == old(storedIndex) && storedTotal == old(storedTotal)
      ensures results == old(results) && cursorLog == old(cursorLog)
      ensures old(!isRunning && !storedRunning) ==> unchanged(this)
    {
      isRunning := false;
      storedRunning := false;
    }

    /** `addResult(username, status)`. */
    method AddResult(username: string, status: string)
      modifies this`results
      ensures results == Upsert(old(results), username, status)
    {
      var existing := FindIndex(results, username);
      if existing.Some? {
        results := results[existing.value := Entry(username, status)];
      } else {
        results := results + [Entry(username, status)];
      }
    }

    /** `updateResult(username, status)`. */
    method UpdateResult(username: string, status: string)
      modifies this`results
      ensures results == Update(old(results), username, status)
    {
      var idx := FindIndex(results, username);
      if idx.Some? {
        results := results[idx.value := Entry(username, status)];
      }
    }

    /** The body of the loop for target `i`, from `currentIndex = i` to `currentIndex = i + 1`. */
    method ProcessTarget(i: nat, username: string, d: Delivery)
      modifies this
      ensures results == Visit(old(results), username, d)
      ensures storedIndex == i + 1 && cursorLog == old(cursorLog) + [i, i + 1]
      ensures isRunning == old(isRunning) && currentTabId == old(currentTabId)
      ensures storedRunning == old(storedRunning) && storedTotal == old(storedTotal)
    {
      storedIndex := i;
      AddResult(username, Processing);
      UpdateResult(username, Classify(d));
      storedIndex := i + 1;
      cursorLog := cursorLog + [i, i + 1];
    }

    /** Target `i` processed after a run up to `i`: the state of a run up to `i + 1`. */
    method Advance(ghost base: seq<Entry>, ghost log0: seq<int>, targets: seq<string>, from: nat, i: nat, delivery: nat -> Delivery)
      requires from <= i < |targets|
      requires results == RunResults(base, targets, from, i, delivery)
      requires cursorLog == log0 + CursorWrites(from, i)
      modifies this
      ensures results == RunResults(base, targets, from, i + 1, delivery)
      ensures cursorLog == log0 + CursorWrites(from, i + 1)
      ensures isRunning == old(isRunning) && currentTabId == old(currentTabId)
      ensures storedRunning == old(storedRunning) && storedTotal == old(storedTotal)
    {
      ghost var before, logBefore := results, cursorLog;
      ProcessTarget(i, targets[i], delivery(i));
      RunResultsNext(base, targets, from, i, delivery, before, results);
      CursorWritesNext(log0, from, i, logBefore, cursorLog);
    }

    /**
     * The `for` loop of `startBot`: before target `i` the stored `isRunning` is read
     * (a `stopBot` that ran since, `stopBefore(i)`, has lowered it) and a lowered flag ends
     * the loop; otherwise target `i` is processed. Gives the index where the loop ended.
     */
    method RunTargets(targets: seq<string>, startIndex: nat, delivery: nat -> Delivery, stopBefore: nat -> bool) returns (stop: nat)
      requires storedRunning
      modifies this
      ensures stop == StopPoint(startIndex, |targets|, stopBefore)
      ensures results == RunResults(old(results), targets, startIndex, stop, delivery)
      ensures cursorLog == old(cursorLog) + CursorWrites(startIndex, stop)
      ensures storedTotal == old(storedTotal) && currentTabId == old(currentTabId)
    {
      ghost var base := results;
      ghost var log0 := cursorLog;
      stop := startIndex;
      while stop < |targets|
        invariant startIndex <= stop && (startIndex < stop ==> stop <= |targets|)
        invariant storedRunning && storedTotal == old(storedTotal) && currentTabId == old(currentTabId)
        invariant StopPoint(stop, |targets|, stopBefore) == StopPoint(startIndex, |targets|, stopBefore)
        invariant results == RunResults(base, targets, startIndex, stop, delivery)
        invariant cursorLog == log0 + CursorWrites(startIndex, stop)
      {
        if stopBefore(stop) {
          StopBot();
        }
        if !storedRunning {
          break;
        }
        Advance(base, log0, targets, startIndex, stop, delivery);
        stop := stop + 1;
      }
    }

    /**
     * `startBot(tabId, targets, startIndex)`: a start from index 0 clears the results, a
     * resume keeps them; the run ends with both flags down and `currentIndex` set to the
     * stored `totalTargets`, however it ended.
     */
    method StartBot(tabId: int, targets: seq<string>, startIndex: nat, delivery: nat -> Delivery, stopBefore: nat -> bool)
      modifies this
      ensures var stop := StopPoint(startIndex, |targets|, stopBefore);
              var base := if startIndex == 0 then [] else old(results);
              && results == RunResults(base, targets, startIndex, stop, delivery)
              && cursorLog == old(cursorLog) + [startIndex] + CursorWrites(startIndex, stop) + [|targets|]
      ensures !isRunning && !storedRunning
      ensures storedIndex == |targets| && storedTotal == |targets|
      ensures currentTabId == Some(tabId)
    {
      isRunning := true;
      currentTabId := Some(tabId);
      if startIndex == 0 {
        results := [];
      }
      storedRunning, storedIndex, storedTotal := true, startIndex, |targets|;
      cursorLog := cursorLog + [startIndex];
      var stop := RunTargets(targets, startIndex, delivery, stopBefore);
      isRunning := false;
      storedRunning := false;
      storedIndex := storedTotal;
      cursorLog := cursorLog + [storedIndex];
    }
  }
}
