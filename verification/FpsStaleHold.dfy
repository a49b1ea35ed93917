/**
 The stale hold (FpsStaleHold.cpp): the last valid frame rate survives brief misses of the same
 process. `T` is whatever a measurement is; the hold never looks inside.
 */
module FpsStaleHold {
  import opened Options

  const HOLD_MS := 2000
  const TICKS := 0x1_0000_0000_0000_0000

  datatype Hold<T> = Hold(pid: nat, last: Option<T>, tick: nat)

  function Empty<T>(): Hold<T> {
    Hold(0, None, 0)
  }

  /** Unsigned 64-bit `now - tick`. */
  function Elapsed(now: nat, tick: nat): nat {
    (now - tick) % TICKS
  }

  function AfterPoll<T>(h: Hold<T>, pid: nat, sample: Option<T>, now: nat): Hold<T> {
    if pid == 0 then Empty()
    else if sample.Some? then Hold(pid, sample, now)
    else if pid == h.pid && h.last.Some? && Elapsed(now, h.tick) < HOLD_MS then h
    else Hold(pid, None, 0)
  }

  class StaleHold<T> {
    var processId: nat
    var lastValidFps: Option<T>
    var lastValidTick: nat

    function State(): Hold<T>
      reads this
    {
      Hold(processId, lastValidFps, lastValidTick)
    }

    constructor ()
      ensures State() == Empty()
    {
      processId, lastValidFps, lastValidTick := 0, None, 0;
    }

    method Reset()
      modifies this
      ensures State() == Empty()
    {
      processId, lastValidFps, lastValidTick := 0, None, 0;
    }

    method Observe(pid: nat, sample: Option<T>, now: nat) returns (shown: Option<T>)
      modifies this
      ensures State() == AfterPoll(old(State()), pid, sample, now)
      ensures shown == State().last
    {
      if pid == 0 {
        Reset();
        return None;
      }
      if pid != processId {
        processId, lastValidFps, lastValidTick := pid, None, 0;
      }
      if sample.Some? {
        lastValidFps, lastValidTick := sample, now;
        return sample;
      }
      if lastValidFps.Some? && Elapsed(now, lastValidTick) < HOLD_MS {
        return lastValidFps;
      }
      lastValidFps, lastValidTick := None, 0;
      shown := None;
    }
  }

  // ---------------------------------------------------------------- what the hold means

  datatype Poll<T> = Poll(pid: nat, sample: Option<T>, now: nat)

  function AfterPolls<T>(polls: seq<Poll<T>>): Hold<T> {
    if polls == [] then Empty() else
      var p := polls[|polls| - 1];
      AfterPoll(AfterPolls(polls[..|polls| - 1]), p.pid, p.sample, p.now)
  }

  /** The clock is GetTickCount64: it does not run backwards and does not wrap. */
  ghost predicate ClockOk<T>(polls: seq<Poll<T>>) {
    && (forall i :: 0 <= i < |polls| ==> polls[i].now < TICKS)
    && (forall i, j :: 0 <= i <= j < |polls| ==> polls[i].now <= polls[j].now)
  }

  /** Poll `i` and all later ones are for the process of the last poll. */
  predicate InStreak<T>(polls: seq<Poll<T>>, i: nat) {
    i < |polls| && forall j :: i <= j < |polls| ==> polls[j].pid == polls[|polls| - 1].pid
  }

  /** Poll `i` gave the newest measurement of the current streak. */
  predicate IsNewest<T>(polls: seq<Poll<T>>, i: nat) {
    InStreak(polls, i) && polls[i].sample.Some? && forall j :: i < j < |polls| ==> polls[j].sample.None?
  }

  predicate IsShown<T>(polls: seq<Poll<T>>, i: nat) {
    IsNewest(polls, i) && polls[i].pid != 0 && polls[|polls| - 1].now - polls[i].now < 2000
  }

  /** Across a miss, what is shown is what was shown before, if it is for the same process and young enough. */
  lemma ShownAcrossMiss<T>(polls: seq<Poll<T>>, i: nat)
    requires ClockOk(polls) && |polls| >= 2 && polls[|polls| - 1].sample.None? && polls[|polls| - 1].pid != 0
    ensures var n := |polls| - 1;
            IsShown(polls, i) <==> i < n && IsShown(polls[..n], i) && polls[n - 1].pid == polls[n].pid
                                   && polls[n].now - polls[i].now < 2000
  {
    var n := |polls| - 1;
    if IsShown(polls, i) {
      assert polls[n - 1].pid == polls[n].pid;
      assert forall j :: i <= j < n ==> polls[..n][j] == polls[j];
    }
    if i < n && IsShown(polls[..n], i) && polls[n - 1].pid == polls[n].pid {
      assert forall j :: i <= j < n ==> polls[..n][j] == polls[j];
    }
  }

  ghost predicate Exact<T>(polls: seq<Poll<T>>, h: Hold<T>) {
    && (forall i: nat :: IsShown(polls, i) ==> h.last == polls[i].sample && h.tick == polls[i].now)
    && (h.last.Some? ==> exists i: nat :: IsShown(polls, i))
  }

  lemma ExactAfterMiss<T>(polls: seq<Poll<T>>, h: Hold<T>)
    requires ClockOk(polls) && |polls| >= 2 && polls[|polls| - 1].sample.None? && polls[|polls| - 1].pid != 0
    requires Exact(polls[..|polls| - 1], h) && h.pid == polls[|polls| - 2].pid
    ensures Exact(polls, AfterPoll(h, polls[|polls| - 1].pid, None, polls[|polls| - 1].now))
  {
    var n := |polls| - 1;
    var p := polls[n];
    var after := AfterPoll(h, p.pid, None, p.now);
    forall i: nat | IsShown(polls, i)
      ensures after.last == polls[i].sample && after.tick == polls[i].now
    {
      ShownAcrossMiss(polls, i);
      assert IsShown(polls[..n], i) && polls[..n][i] == polls[i];
      assert Elapsed(p.now, polls[i].now) == p.now - polls[i].now;
    }
    if after.last.Some? {
      var i: nat :| IsShown(polls[..n], i);
      assert polls[..n][i] == polls[i];
      assert Elapsed(p.now, polls[i].now) == p.now - polls[i].now;
      ShownAcrossMiss(polls, i);
    }
  }

  /**
   After any polls the hold shows the newest measurement of the current same-process streak if
   that is less than 2000 ms old, and nothing otherwise.
   */
  lemma {:induction false} HoldShowsNewest<T>(polls: seq<Poll<T>>)
    requires polls != [] && ClockOk(polls)
    ensures AfterPolls(polls).pid == polls[|polls| - 1].pid
    ensures forall i: nat :: IsShown(polls, i) ==> AfterPolls(polls).last == polls[i].sample && AfterPolls(polls).tick == polls[i].now
    ensures AfterPolls(polls).last.Some? ==> exists i: nat :: IsShown(polls, i)
    decreases |polls|
  {
    var n := |polls| - 1;
    var p, before := polls[n], polls[..n];
    if p.pid != 0 && p.sample.Some? {
      assert IsShown(polls, n);
    } else if p.pid != 0 {
      if before == [] {
        assert forall i: nat :: !IsShown(polls, i);
      } else {
        HoldShowsNewest(before);
        ExactAfterMiss(polls, AfterPolls(before));
      }
    }
  }
}
