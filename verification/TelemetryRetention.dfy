/** Retention of one telemetry field across missing polls (TelemetryRetention.h). */
module TelemetryRetention {
  import opened Options

  datatype Field<T> = Field(cached: Option<T>, missing: nat)

  function AfterPoll<T>(f: Field<T>, current: Option<T>, threshold: nat): Field<T> {
    if current.Some? then Field(current, 0)
    else if f.cached.None? then f
    else if threshold == 0 then f
    else if f.missing + 1 >= threshold then Field(None, 0)
    else Field(f.cached, f.missing + 1)
  }

  class RetainedField<T> {
    var cached: Option<T>
    var missingCount: nat
    const threshold: nat

    function State(): Field<T>
      reads this
    {
      Field(cached, missingCount)
    }

    constructor (missingThreshold: nat)
      ensures State() == Field(None, 0) && threshold == missingThreshold
    {
      cached, missingCount, threshold := None, 0, missingThreshold;
    }

    method Update(current: Option<T>)
      modifies this
      ensures State() == AfterPoll(old(State()), current, threshold)
    {
      if current.Some? {
        cached, missingCount := current, 0;
        return;
      }
      if cached.None? {
        return;
      }
      if threshold != 0 {
        missingCount := missingCount + 1;
        if missingCount >= threshold {
          cached, missingCount := None, 0;
        }
      }
    }
  }

  function AfterPolls<T>(polls: seq<Option<T>>, threshold: nat): Field<T> {
    if polls == [] then Field(None, 0)
    else AfterPoll(AfterPolls(polls[..|polls| - 1], threshold), polls[|polls| - 1], threshold)
  }

  /** Poll `i` is the newest one with a value. */
  predicate IsNewest<T>(polls: seq<Option<T>>, i: int) {
    0 <= i < |polls| && polls[i].Some? && forall j :: i < j < |polls| ==> polls[j].None?
  }

  /**
   With threshold k > 0 the field holds the newest value of the last k polls, and is empty when none
   of them had one; with threshold 0 it holds the newest value of all polls.
   */
  lemma {:induction false} RetainedIsNewestOfLast<T>(polls: seq<Option<T>>, threshold: nat)
    ensures forall i :: IsNewest(polls, i) && (threshold == 0 || |polls| - i <= threshold) ==>
              AfterPolls(polls, threshold).cached == polls[i]
              && (threshold > 0 ==> AfterPolls(polls, threshold).missing == |polls| - 1 - i)
    ensures AfterPolls(polls, threshold).cached.Some? ==>
              exists i :: IsNewest(polls, i) && (threshold == 0 || |polls| - i <= threshold)
    decreases |polls|
  {
    if polls != [] {
      var n := |polls| - 1;
      var before := polls[..n];
      RetainedIsNewestOfLast(before, threshold);
      if polls[n].Some? {
        assert IsNewest(polls, n);
      } else {
        assert forall i :: IsNewest(polls, i) ==> IsNewest(before, i);
        assert forall i :: IsNewest(before, i) ==> IsNewest(polls, i);
        if AfterPolls(polls, threshold).cached.Some? {
          var i :| IsNewest(before, i) && (threshold == 0 || |before| - i <= threshold);
          assert IsNewest(polls, i);
        }
      }
    }
  }
}
