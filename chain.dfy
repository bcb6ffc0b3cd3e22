/**
 The gating rule of a filter chain. Each member call evaluates its own
 predicate and carries `passed && notFailed` to the next member; the call
 that is given arguments runs the original mocha function exactly when that
 conjunction holds. `Carried` is that fold over the truthiness of the
 predicates evaluated along a chain, in order.
 */
module Chain {
  import opened Filters

  /** The flag carried after evaluating a chain whose predicates gave `results`,
      starting from the member's `notFailed`. */
  function Carried(notFailed: bool, results: seq<bool>): (r: bool)
    ensures r ==> notFailed
    decreases |results|
  {
    if results == [] then notFailed
    else Carried(results[0] && notFailed, results[1..])
  }

  /** Every predicate along the chain passed. */
  predicate AllPassed(results: seq<bool>)
  {
    forall i :: 0 <= i < |results| ==> results[i]
  }

  /** The carried flag is exactly the starting flag conjoined with every result. */
  lemma {:induction false} CarriedIsConjunction(notFailed: bool, results: seq<bool>)
    ensures Carried(notFailed, results) <==> notFailed && AllPassed(results)
    decreases |results|
  {
    if results != [] {
      CarriedIsConjunction(results[0] && notFailed, results[1..]);
      if AllPassed(results[1..]) && results[0] {
        forall i | 0 <= i < |results| ensures results[i] {
          if i > 0 {
            assert results[i] == results[1..][i - 1];
          }
        }
      }
    }
  }

  /** A chain extended by more members carries what the shorter chain
      carried into the extension. */
  lemma {:induction false} CarriedAppend(notFailed: bool, front: seq<bool>, back: seq<bool>)
    ensures Carried(notFailed, front + back) == Carried(Carried(notFailed, front), back)
    decreases |front|
  {
    if front != [] {
      assert (front + back)[0] == front[0];
      assert (front + back)[1..] == front[1..] + back;
      CarriedAppend(front[0] && notFailed, front[1..], back);
    } else {
      assert front + back == back;
    }
  }

  /** One more member call: the new flag is its own result and the old flag. */
  lemma {:induction false} CarriedStep(notFailed: bool, front: seq<bool>, passed: bool)
    ensures Carried(notFailed, front + [passed]) == (passed && Carried(notFailed, front))
  {
    CarriedAppend(notFailed, front, [passed]);
    assert Carried(Carried(notFailed, front), [passed]) == Carried(passed && Carried(notFailed, front), []);
  }

  /** Failure is monotonic: once the flag is false, no longer chain sets it again. */
  lemma {:induction false} FailureSticks(notFailed: bool, front: seq<bool>, back: seq<bool>)
    requires !Carried(notFailed, front)
    ensures !Carried(notFailed, front + back)
  {
    CarriedAppend(notFailed, front, back);
    CarriedIsConjunction(false, back);
  }

  /** The truthiness of each predicate evaluated along a chain. */
  function Results(predicates: seq<Predicate>, outcomes: seq<bool>): (r: seq<bool>)
    requires |predicates| == |outcomes|
    ensures |r| == |predicates|
    ensures forall i :: 0 <= i < |r| ==> r[i] == Truthy(predicates[i], outcomes[i])
  {
    seq(|predicates|, i requires 0 <= i < |predicates| => Truthy(predicates[i], outcomes[i]))
  }

  /** A chain that passes through the built-in `ignore` never runs the
      original function, whatever the other predicates return. */
  lemma IgnoreBlocksChain(notFailed: bool, predicates: seq<Predicate>, outcomes: seq<bool>)
    requires |predicates| == |outcomes|
    requires IgnoreBuiltin in predicates
    ensures !Carried(notFailed, Results(predicates, outcomes))
  {
    var i :| 0 <= i < |predicates| && predicates[i] == IgnoreBuiltin;
    CarriedIsConjunction(notFailed, Results(predicates, outcomes));
    assert !Results(predicates, outcomes)[i];
  }
}
