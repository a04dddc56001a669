/** The fan-out of one rollout event to the configured notification targets. */
module Dispatcher {
  import opened Wrappers

  /** One call of a target's Dispatch: None when it succeeded, otherwise the error's message. */
  datatype Attempt = Attempt(name: string, failure: Option<string>)

  function Succeeded(attempts: seq<Attempt>): seq<string> {
    if attempts == [] then []
    else
      var rest := Succeeded(attempts[..|attempts| - 1]);
      var last := attempts[|attempts| - 1];
      if last.failure.None? then rest + [last.name] else rest
  }

  /** The message of the last failure, "" when every target succeeded. */
  function FinalError(attempts: seq<Attempt>): string {
    if attempts == [] then ""
    else
      var last := attempts[|attempts| - 1];
      if last.failure.Some? then last.failure.value else FinalError(attempts[..|attempts| - 1])
  }

  /** Every target is tried whatever the others do; each failure overwrites the message of the one before. */
  method DispatchEvent(attempts: seq<Attempt>) returns (targetNames: seq<string>, dispatchErr: string)
    ensures targetNames == Succeeded(attempts)
    ensures dispatchErr == FinalError(attempts)
  {
    targetNames := [];
    dispatchErr := "";
    for k := 0 to |attempts|
      invariant targetNames == Succeeded(attempts[..k])
      invariant dispatchErr == FinalError(attempts[..k])
    {
      assert attempts[..k + 1][..k] == attempts[..k];
      if attempts[k].failure.Some? {
        dispatchErr := attempts[k].failure.value;
      } else {
        targetNames := targetNames + [attempts[k].name];
      }
    }
    assert attempts[..|attempts|] == attempts;
  }

  /** The names returned are exactly those of the targets that succeeded. */
  lemma {:induction false} SucceededExactly(attempts: seq<Attempt>, name: string)
    ensures name in Succeeded(attempts) <==>
            exists i :: 0 <= i < |attempts| && attempts[i] == Attempt(name, None)
  {
    if attempts != [] {
      var n := |attempts| - 1;
      SucceededExactly(attempts[..n], name);
      forall i | 0 <= i < |attempts| && attempts[i] == Attempt(name, None)
        ensures name in Succeeded(attempts)
      {
        if i < n { assert attempts[..n][i] == Attempt(name, None); }
      }
      if name in Succeeded(attempts) {
        if name in Succeeded(attempts[..n]) {
          var i :| 0 <= i < n && attempts[..n][i] == Attempt(name, None);
          assert attempts[i] == Attempt(name, None);
        } else {
          assert attempts[n] == Attempt(name, None);
        }
      }
    }
  }

  /** They come in the order of the targets, one for each success. */
  lemma {:induction false} SucceededInOrder(attempts: seq<Attempt>) returns (at: seq<int>)
    ensures |at| == |Succeeded(attempts)| && forall a, b | 0 <= a < b < |at| :: at[a] < at[b]
    ensures forall a | 0 <= a < |at| ::
              0 <= at[a] < |attempts| && attempts[at[a]] == Attempt(Succeeded(attempts)[a], None)
    ensures forall i | 0 <= i < |attempts| && attempts[i].failure.None? :: i in at
  {
    at := [];
    if attempts != [] {
      var n := |attempts| - 1;
      var before := SucceededInOrder(attempts[..n]);
      assert forall i | 0 <= i < n :: attempts[..n][i] == attempts[i];
      if attempts[n].failure.None? {
        at := before + [n];
        forall i | 0 <= i < |attempts| && attempts[i].failure.None? ensures i in at {
          assert i < n ==> i in before;
          assert at[|before|] == n;
        }
      } else {
        at := before;
      }
    }
  }

  ghost predicate AllSucceeded(attempts: seq<Attempt>) {
    forall i | 0 <= i < |attempts| :: attempts[i].failure.None?
  }

  ghost predicate IsLastFailure(attempts: seq<Attempt>, i: int) {
    && 0 <= i < |attempts| && attempts[i].failure.Some?
    && forall j | i < j < |attempts| :: attempts[j].failure.None?
  }

  lemma LastFailureUnique(attempts: seq<Attempt>, i: int, j: int)
    requires IsLastFailure(attempts, i) && IsLastFailure(attempts, j)
    ensures i == j
  {
  }

  lemma {:induction false} FinalErrorIsLast(attempts: seq<Attempt>)
    ensures AllSucceeded(attempts) ==> FinalError(attempts) == ""
    ensures !AllSucceeded(attempts) ==>
              exists i :: IsLastFailure(attempts, i) && FinalError(attempts) == attempts[i].failure.value
  {
    if attempts != [] {
      var n := |attempts| - 1;
      if attempts[n].failure.Some? {
        assert IsLastFailure(attempts, n);
      } else {
        FinalErrorIsLast(attempts[..n]);
        if !AllSucceeded(attempts) {
          assert !AllSucceeded(attempts[..n]);
          var i :| IsLastFailure(attempts[..n], i) && FinalError(attempts[..n]) == attempts[..n][i].failure.value;
          assert IsLastFailure(attempts, i);
        }
      }
    }
  }

  /** The empty error string means success of every target exactly when the last failure, if any, has a message:
      a target failing last with an empty message is reported as a success. */
  lemma EmptyErrorMeansSuccessIff(attempts: seq<Attempt>)
    ensures (FinalError(attempts) == "" ==> AllSucceeded(attempts)) <==>
            !exists i :: IsLastFailure(attempts, i) && attempts[i].failure.value == ""
    ensures !(FinalError([Attempt("slack", Some(""))]) == "" ==> AllSucceeded([Attempt("slack", Some(""))]))
  {
    FinalErrorIsLast(attempts);
    forall i, j | IsLastFailure(attempts, i) && IsLastFailure(attempts, j) ensures i == j {
      LastFailureUnique(attempts, i, j);
    }
    var silent := [Attempt("slack", Some(""))];
    assert silent[0].failure.Some?;
  }
}
