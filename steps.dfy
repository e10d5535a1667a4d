/**
 * The reporting flows of the content scripts and of the Python bot are ladders of
 * mandatory steps: each step either succeeds or ends the flow with its own error.
 * A step is given by whether it succeeded (for the extension, what `retryFor` returned;
 * for the bot, whether the click went through) and the error it ends the flow with.
 */
module Steps {
  import opened Optional

  datatype Step = Step(done: bool, error: string)

  /** Every step succeeded. */
  ghost predicate AllDone(steps: seq<Step>) {
    forall k :: 0 <= k < |steps| ==> steps[k].done
  }

  /** Step `k` is the first that failed. */
  ghost predicate FirstFailedAt(steps: seq<Step>, k: int) {
    0 <= k < |steps| && !steps[k].done && AllDone(steps[..k])
  }

  /** The error of the first step that failed, or None when all succeeded. */
  function FirstFailure(steps: seq<Step>): (r: Option<string>)
    ensures r.None? <==> AllDone(steps)
    ensures r.Some? ==> exists k :: FirstFailedAt(steps, k) && steps[k].error == r.value
  {
    if |steps| == 0 then None
    else if !steps[0].done then
      assert FirstFailedAt(steps, 0);
      Some(steps[0].error)
    else
      var r := FirstFailure(steps[1..]);
      assert r.Some? ==> exists k :: FirstFailedAt(steps, k) && steps[k].error == r.value by {
        if r.Some? {
          var k :| FirstFailedAt(steps[1..], k) && steps[1..][k].error == r.value;
          assert steps[..k + 1] == [steps[0]] + steps[1..][..k];
          assert FirstFailedAt(steps, k + 1);
        }
      }
      assert r.None? ==> AllDone(steps) by {
        assert forall k :: 1 <= k < |steps| ==> steps[k] == steps[1..][k - 1];
      }
      r
  }

  /** There is only one first failure, so its error is determined. */
  lemma FirstFailedUnique(steps: seq<Step>, k1: int, k2: int)
    requires FirstFailedAt(steps, k1) && FirstFailedAt(steps, k2)
    ensures k1 == k2
  {
  }

  /** The flow ends with the error of the step that failed first. */
  lemma FirstFailureAt(steps: seq<Step>, k: int)
    requires FirstFailedAt(steps, k)
    ensures FirstFailure(steps) == Some(steps[k].error)
  {
    var r := FirstFailure(steps);
    assert !AllDone(steps);
    var k' :| FirstFailedAt(steps, k') && steps[k'].error == r.value;
    FirstFailedUnique(steps, k, k');
  }

  /** Steps after a failure cannot change the outcome. */
  lemma {:induction false} FailureIgnoresLater(steps: seq<Step>, later: seq<Step>)
    requires !AllDone(steps)
    ensures FirstFailure(steps + later) == FirstFailure(steps)
  {
    if steps[0].done {
      assert (steps + later)[1..] == steps[1..] + later;
      assert !AllDone(steps[1..]) by {
        var k :| 0 <= k < |steps| && !steps[k].done;
        assert steps[1..][k - 1] == steps[k];
      }
      FailureIgnoresLater(steps[1..], later);
    }
  }

  /** When the earlier steps all succeed, the later steps decide. */
  lemma {:induction false} SuccessDefersToLater(steps: seq<Step>, later: seq<Step>)
    requires AllDone(steps)
    ensures FirstFailure(steps + later) == FirstFailure(later)
  {
    if |steps| > 0 {
      assert (steps + later)[1..] == steps[1..] + later;
      assert steps[1..] == steps[1..];
      assert forall k :: 0 <= k < |steps[1..]| ==> steps[1..][k] == steps[k + 1];
      SuccessDefersToLater(steps[1..], later);
    } else {
      assert steps + later == later;
    }
  }

  /**
   * The early-return sequence itself: run the steps in order and stop at the first
   * that fails. `ran` is how many steps were attempted.
   */
  method RunSteps(steps: seq<Step>) returns (failure: Option<string>, ran: nat)
    ensures failure == FirstFailure(steps)
    ensures failure.None? ==> ran == |steps|
    ensures failure.Some? ==> FirstFailedAt(steps, ran - 1)
  {
    ran := 0;
    while ran < |steps|
      invariant 0 <= ran <= |steps|
      invariant AllDone(steps[..ran])
    {
      assert steps[..ran + 1] == steps[..ran] + [steps[ran]];
      if !steps[ran].done {
        SuccessDefersToLater(steps[..ran], steps[ran..]);
        assert steps[..ran] + steps[ran..] == steps;
        ran := ran + 1;
        return Some(steps[ran - 1].error), ran;
      }
      ran := ran + 1;
    }
    assert steps[..ran] == steps;
    return None, ran;
  }
}
