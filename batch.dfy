/**
 * The batch driver's bookkeeping (`_run_evaluation`): every instance is
 * submitted as a task, and the outcomes are drained as they complete; a task
 * whose result re-raises an exception increments the error counter, and the
 * batch always goes on with the remaining tasks.
 */
module Batch {

  /** How a task ended: it returned a value, or `future.result()` raised. */
  datatype TaskOutcome<T> = Returned(value: T) | Raised

  /** The number of raised outcomes. */
  function CountRaised<T>(outcomes: seq<TaskOutcome<T>>): (n: nat)
    ensures n <= |outcomes|
    ensures n == 0 <==> forall k :: 0 <= k < |outcomes| ==> outcomes[k].Returned?
    ensures n == |outcomes| <==> forall k :: 0 <= k < |outcomes| ==> outcomes[k].Raised?
    decreases |outcomes|
  {
    if outcomes == [] then 0
    else
      var init := outcomes[..|outcomes| - 1];
      assert forall k :: 0 <= k < |init| ==> init[k] == outcomes[k];
      CountRaised(init) + (if outcomes[|outcomes| - 1].Raised? then 1 else 0)
  }

  /** The error count depends only on which tasks raised, not on the order they complete in. */
  lemma {:induction false} CountRaisedIsOrderFree<T>(outcomes: seq<TaskOutcome<T>>)
    ensures CountRaised(outcomes) == multiset(outcomes)[Raised]
    decreases |outcomes|
  {
    if outcomes != [] {
      var init := outcomes[..|outcomes| - 1];
      CountRaisedIsOrderFree(init);
      assert outcomes == init + [outcomes[|outcomes| - 1]];
    }
  }

  /** Counting the raised outcomes of a concatenation adds up. */
  lemma {:induction false} CountRaisedAppend<T>(xs: seq<TaskOutcome<T>>, ys: seq<TaskOutcome<T>>)
    ensures CountRaised(xs + ys) == CountRaised(xs) + CountRaised(ys)
    decreases |ys|
  {
    if ys == [] {
      assert xs + ys == xs;
    } else {
      var ysInit := ys[..|ys| - 1];
      assert (xs + ys)[..|xs + ys| - 1] == xs + ysInit;
      assert (xs + ys)[|xs + ys| - 1] == ys[|ys| - 1];
      CountRaisedAppend(xs, ysInit);
    }
  }

  /** The drain loop: one increment per raised outcome, in completion order. */
  method CountErrors<T>(completed: seq<TaskOutcome<T>>) returns (error: nat)
    ensures error == CountRaised(completed)
  {
    error := 0;
    for i := 0 to |completed|
      invariant error == CountRaised(completed[..i])
    {
      assert completed[..i + 1][..i] == completed[..i];
      if completed[i].Raised? {
        error := error + 1;
      }
    }
    assert completed[..|completed|] == completed;
  }
}
