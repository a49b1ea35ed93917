/**
 VrrForegroundChangeTracker of VrrCaptureInvalidation.cpp: whether another process came to the
 foreground during the measurement epoch, judged by 32-bit millisecond ticks that wrap every 49.7
 days, with event callbacks that may be delivered late.
 */
module ForegroundTracker {
  const WRAP := 0x1_0000_0000
  const HALF := 0x8000_0000

  /** A tick count: the low 32 bits of a time. */
  type Dword = x: int | 0 <= x < WRAP witness 0

  function Ticks(time: int): Dword {
    time % WRAP
  }

  /** Unsigned 32-bit subtraction. */
  function Minus(a: Dword, b: Dword): Dword {
    (a - b) % WRAP
  }

  // ---------------------------------------------------------------- the tracker

  datatype State = State(
    target: Dword, active: bool, ended: bool, endKnown: bool, start: Dword, end: Dword, observed: bool)

  /** An event of a process at a tick is foreign and inside the epoch, as the tests of the tracker see it. */
  predicate Flags(s: State, process: Dword, tick: Dword) {
    && process != 0 && s.active && process != s.target
    && Minus(tick, s.start) < HALF
    && (s.endKnown ==> Minus(s.end, s.start) < HALF && Minus(tick, s.start) < Minus(s.end, s.start))
  }

  class VrrForegroundChangeTracker {
    var targetProcessId: Dword
    var epochActive: bool
    var epochEnded: bool
    var epochEndKnown: bool
    var epochStartTimeMs: Dword
    var epochEndTimeMs: Dword
    var foreignForegroundObserved: bool

    function Now(): State
      reads this
    {
      State(targetProcessId, epochActive, epochEnded, epochEndKnown, epochStartTimeMs, epochEndTimeMs,
        foreignForegroundObserved)
    }

    constructor ()
      ensures Now() == State(0, false, false, false, 0, 0, false)
    {
      targetProcessId, epochActive, epochEnded, epochEndKnown := 0, false, false, false;
      epochStartTimeMs, epochEndTimeMs, foreignForegroundObserved := 0, 0, false;
    }

    method Reset(target: Dword)
      modifies this
      ensures Now() == old(Now()).(active := false, ended := false, endKnown := false, observed := false, target := target)
    {
      epochActive, epochEnded, epochEndKnown := false, false, false;
      foreignForegroundObserved := false;
      targetProcessId := target;
    }

    method BeginMeasurementEpoch(startTimeMs: Dword)
      modifies this
      ensures Now() == AfterBegin(old(Now()), startTimeMs)
    {
      foreignForegroundObserved := false;
      epochStartTimeMs, epochEndTimeMs := startTimeMs, 0;
      epochEnded, epochEndKnown := false, false;
      epochActive := true;
    }

    method SetMeasurementEndBoundary(endTimeMs: Dword)
      modifies this
      ensures Now() == AfterBoundary(old(Now()), endTimeMs)
    {
      if !epochActive || epochEnded { return; }
      epochEndTimeMs := endTimeMs;
      epochEndKnown := true;
    }

    method EndMeasurementEpoch(endTimeMs: Dword)
      modifies this
      ensures Now() == AfterEnd(old(Now()), endTimeMs)
    {
      if !epochActive || epochEnded { return; }
      epochEndTimeMs := endTimeMs;
      epochEndKnown := true;
      epochEnded := true;
    }

    method ObserveForegroundProcess(processId: Dword, eventTimeMs: Dword)
      modifies this
      ensures Now() == AfterEvent(old(Now()), processId, eventTimeMs)
    {
      if processId == 0 || !epochActive || processId == targetProcessId { return; }
      var startElapsed := Minus(eventTimeMs, epochStartTimeMs);
      if startElapsed >= HALF { return; }
      if epochEndKnown {
        var endElapsed := Minus(epochEndTimeMs, epochStartTimeMs);
        if endElapsed >= HALF || startElapsed >= endElapsed { return; }
      }
      foreignForegroundObserved := true;
    }
  }

  function AfterBegin(s: State, start: Dword): State {
    State(s.target, true, false, false, start, 0, false)
  }

  function AfterBoundary(s: State, end: Dword): State {
    if s.active && !s.ended then s.(end := end, endKnown := true) else s
  }

  function AfterEnd(s: State, end: Dword): State {
    if s.active && !s.ended then s.(end := end, endKnown := true, ended := true) else s
  }

  function AfterEvent(s: State, process: Dword, tick: Dword): State {
    if Flags(s, process, tick) then s.(observed := true) else s
  }

  // ---------------------------------------------------------------- ticks against true times

  /** Within half a wrap, unsigned subtraction is below half exactly for a true difference that is not negative. */
  lemma MinusIsDifference(a: int, b: int)
    requires -HALF <= a - b < HALF
    ensures Minus(Ticks(a), Ticks(b)) == if a >= b then a - b else a - b + WRAP
  {
    var p, q := a / WRAP, b / WRAP;
    assert a == p * WRAP + Ticks(a) && b == q * WRAP + Ticks(b);
    var d := Ticks(a) - Ticks(b);
    assert d == (a - b) - (p - q) * WRAP;
    assert -WRAP < d < WRAP;
  }

  /** The epoch of a state in true time: it began at `start` and, if its end is known, ends at `end`. */
  ghost predicate Spans(s: State, start: int, end: int) {
    && s.active && s.start == Ticks(start)
    && (s.endKnown ==> s.end == Ticks(end) && 0 <= end - start < HALF)
  }

  /** The tick tests flag an event exactly when it truly lies in the epoch. */
  lemma FlagsExactly(s: State, process: Dword, time: int, start: int, end: int)
    requires Spans(s, start, end) && -HALF <= time - start < HALF
    ensures Flags(s, process, Ticks(time)) <==>
      process != 0 && process != s.target && start <= time && (s.endKnown ==> time < end)
  {
    MinusIsDifference(time, start);
    if s.endKnown { MinusIsDifference(end, start); }
  }

  // ---------------------------------------------------------------- any times at all

  /** How far a state's tests reach: to the known end, or half a wrap. */
  function Reach(s: State, start: int, end: int): int {
    if s.endKnown then end else start + HALF
  }

  /** The event, moved by a number of whole wraps, lies in the reach of the tests. */
  ghost predicate Wraps(s: State, time: int, start: int, end: int, k: int) {
    start <= time + k * WRAP < Reach(s, start, end)
  }

  lemma TicksRepeat(time: int, k: int)
    ensures Ticks(time + k * WRAP) == Ticks(time)
  {
    var q, r := time / WRAP, time % WRAP;
    assert time == q * WRAP + r;
    assert time + k * WRAP == (q + k) * WRAP + r;
    Remainder(time + k * WRAP, q + k, r);
  }

  lemma Remainder(x: int, q: int, r: int)
    requires x == q * WRAP + r && 0 <= r < WRAP
    ensures x % WRAP == r
  {
    var p := x / WRAP;
    assert x == p * WRAP + x % WRAP;
    assert (p - q) * WRAP == r - x % WRAP;
    assert -WRAP < r - x % WRAP < WRAP;
  }

  /**
   For every time, the tick tests flag a foreign event exactly when some whole number of wraps takes
   it into the reach of the tests.
   */
  lemma FlagsModuloWrap(s: State, process: Dword, time: int, start: int, end: int)
    requires Spans(s, start, end)
    ensures Flags(s, process, Ticks(time)) <==>
      process != 0 && process != s.target && exists k :: Wraps(s, time, start, end, k)
  {
    if k :| Wraps(s, time, start, end, k) {
      TicksRepeat(time, k);
      FlagsExactly(s, process, time + k * WRAP, start, end);
    }
    if Flags(s, process, Ticks(time)) {
      var k := -((time - start) / WRAP);
      var moved := time + k * WRAP;
      assert time - start == -k * WRAP + (time - start) % WRAP;
      assert 0 <= moved - start < WRAP;
      TicksRepeat(time, k);
      var near := if moved - start < HALF then moved else moved - WRAP;
      if near != moved { TicksRepeat(moved, -1); }
      FlagsExactly(s, process, near, start, end);
      assert Wraps(s, time, start, end, k);
    }
  }

  /** The event truly lies in the epoch. */
  predicate InEpoch(s: State, time: int, start: int, end: int) {
    start <= time && (s.endKnown ==> time < end)
  }

  /**
   The tests misjudge a foreign event exactly when it lies outside the epoch while some wraps take
   it into their reach, or, as long as no end is known, when it lies inside and no wraps do.
   */
  lemma MisjudgedExactly(s: State, process: Dword, time: int, start: int, end: int)
    requires Spans(s, start, end) && process != 0 && process != s.target
    ensures Flags(s, process, Ticks(time)) != InEpoch(s, time, start, end) <==>
      if InEpoch(s, time, start, end) then !s.endKnown && forall k :: !Wraps(s, time, start, end, k)
      else exists k :: k != 0 && Wraps(s, time, start, end, k)
  {
    FlagsModuloWrap(s, process, time, start, end);
    if InEpoch(s, time, start, end) && s.endKnown {
      assert Wraps(s, time, start, end, 0);
    }
    if !InEpoch(s, time, start, end) {
      assert !Wraps(s, time, start, end, 0);
    }
  }

  /** Inputs on either side: a wrap too early is flagged, half a wrap late with no end is not. */
  lemma OldEventMistaken(s: State, process: Dword, start: int)
    requires Spans(s, start, start) && !s.endKnown && process != 0 && process != s.target
    ensures Flags(s, process, Ticks(start - WRAP)) && !InEpoch(s, start - WRAP, start, start)
    ensures !Flags(s, process, Ticks(start + HALF)) && InEpoch(s, start + HALF, start, start)
  {
    assert Wraps(s, start - WRAP, start, start, 1);
    FlagsModuloWrap(s, process, start - WRAP, start, start);
    var late := start + HALF;
    assert forall k :: !Wraps(s, late, start, start, k);
    FlagsModuloWrap(s, process, late, start, start);
  }

  // ---------------------------------------------------------------- order of delivery

  datatype Call = Begin(start: int) | Boundary(end: int) | End(end: int) | Event(process: Dword, time: int)

  function After(s: State, c: Call): State {
    match c
    case Begin(start) => AfterBegin(s, Ticks(start))
    case Boundary(end) => AfterBoundary(s, Ticks(end))
    case End(end) => AfterEnd(s, Ticks(end))
    case Event(process, time) => AfterEvent(s, process, Ticks(time))
  }

  function Run(s: State, calls: seq<Call>): State {
    if calls == [] then s else After(Run(s, calls[..|calls| - 1]), calls[|calls| - 1])
  }

  /** The state at the beginning of an epoch. */
  function Begun(target: Dword, start: int): State {
    State(target, true, false, false, Ticks(start), 0, false)
  }

  /** Nothing but events. */
  ghost predicate OnlyEvents(calls: seq<Call>) {
    forall i :: 0 <= i < |calls| ==> calls[i].Event?
  }

  predicate IsForeign(c: Call, target: Dword, start: int, end: int) {
    c.Event? && c.process != 0 && c.process != target && start <= c.time < end
  }

  /**
   The calls of a completed epoch: every boundary is its end, until it has been ended; and an event
   that is delivered before the boundary is known happened before the end.
   */
  ghost predicate Completed(calls: seq<Call>, start: int, end: int) {
    forall i :: 0 <= i < |calls| ==>
      match calls[i]
      case Begin(_) => false
      case Boundary(e) => e == end || exists j :: 0 <= j < i && calls[j].End?
      case End(e) => e == end || exists j :: 0 <= j < i && calls[j].End?
      case Event(_, time) => -HALF <= time - start < HALF && (time < end || exists j :: 0 <= j < i && !calls[j].Event?)
  }

  lemma {:induction false} RunOfCompleted(target: Dword, start: int, end: int, calls: seq<Call>)
    requires 0 <= end - start < HALF && Completed(calls, start, end)
    ensures Spans(Run(Begun(target, start), calls), start, end)
    ensures Run(Begun(target, start), calls).target == target
    ensures Run(Begun(target, start), calls).ended <==> exists j :: 0 <= j < |calls| && calls[j].End?
    ensures (exists j :: 0 <= j < |calls| && !calls[j].Event?) ==> Run(Begun(target, start), calls).endKnown
    ensures Run(Begun(target, start), calls).observed
      <==> exists i :: 0 <= i < |calls| && IsForeign(calls[i], target, start, end)
  {
    if calls == [] {
    } else {
      var n := |calls| - 1;
      var before, last := Run(Begun(target, start), calls[..n]), calls[n];
      RunOfCompleted(target, start, end, calls[..n]);
      if last.Event? { FlagsExactly(before, last.process, last.time, start, end); }
      assert forall i :: 0 <= i < n ==> calls[i] == calls[..n][i];
      if i :| 0 <= i < n && IsForeign(calls[i], target, start, end) {
        assert IsForeign(calls[..n][i], target, start, end);
      }
      if j :| 0 <= j < n && !calls[j].Event? {
        assert !calls[..n][j].Event?;
      }
      if j :| 0 <= j < n && calls[j].End? {
        assert calls[..n][j].End?;
      }
    }
  }

  /**
   Whether a completed epoch saw a foreign process depends on the events only: any two deliveries
   of the same events agree, also when some come after the epoch has ended.
   */
  lemma DeliveryOrderIrrelevant(target: Dword, start: int, end: int, calls: seq<Call>, others: seq<Call>)
    requires 0 <= end - start < HALF && Completed(calls, start, end) && Completed(others, start, end)
    requires forall c: Call :: c.Event? ==> (c in calls <==> c in others)
    ensures Run(Begun(target, start), calls).observed == Run(Begun(target, start), others).observed
  {
    RunOfCompleted(target, start, end, calls);
    RunOfCompleted(target, start, end, others);
    SomeForeign(target, start, end, calls, others);
    SomeForeign(target, start, end, others, calls);
  }

  lemma SomeForeign(target: Dword, start: int, end: int, calls: seq<Call>, others: seq<Call>)
    requires forall c: Call :: c.Event? && c in calls ==> c in others
    ensures (exists i :: 0 <= i < |calls| && IsForeign(calls[i], target, start, end))
      ==> exists i :: 0 <= i < |others| && IsForeign(others[i], target, start, end)
  {
    if i :| 0 <= i < |calls| && IsForeign(calls[i], target, start, end) {
      assert calls[i] in calls;
      assert calls[i] in others;
    }
  }

  // ---------------------------------------------------------------- events before the epoch begins

  /** While no epoch is active, events are dropped. */
  lemma {:induction false} EarlyDropped(s: State, early: seq<Call>)
    requires !s.active && OnlyEvents(early)
    ensures Run(s, early) == s
  {
    if early != [] { EarlyDropped(s, early[..|early| - 1]); }
  }

  /** A foreign event that the tests flag while `end` is the known end. */
  ghost predicate SomeForeignIn(events: seq<Call>, target: Dword, start: int, end: int) {
    exists i :: 0 <= i < |events| && IsForeign(events[i], target, start, end)
  }

  lemma RunOne(s: State, c: Call)
    ensures Run(s, [c]) == After(s, c)
  {
    assert [c][..0] == [];
  }

  lemma {:induction false} RunConcat(s: State, a: seq<Call>, b: seq<Call>)
    ensures Run(s, a + b) == Run(Run(s, a), b)
    decreases |b|
  {
    if b == [] {
      assert a + b == a;
    } else {
      var n := |b| - 1;
      assert (a + b)[..|a + b| - 1] == a + b[..n];
      RunConcat(s, a, b[..n]);
    }
  }

  /**
   The tick of the start is read before the call that begins the epoch. Over the whole sequence of
   calls the flag says whether a foreign event of the epoch was delivered after that call; so it
   misses one exactly when some were delivered before it and none after it.
   */
  lemma EarlyMissedExactly(s: State, early: seq<Call>, start: int, end: int, calls: seq<Call>)
    requires !s.active && OnlyEvents(early)
    requires 0 <= end - start < HALF && Completed(calls, start, end)
    ensures var observed := Run(s, early + [Begin(start)] + calls).observed;
      && (observed <==> SomeForeignIn(calls, s.target, start, end))
      && ((observed != SomeForeignIn(early + calls, s.target, start, end))
        <==> (SomeForeignIn(early, s.target, start, end) && !SomeForeignIn(calls, s.target, start, end)))
  {
    EarlyDropped(s, early);
    RunConcat(s, early, [Begin(start)]);
    RunOne(s, Begin(start));
    RunConcat(s, early + [Begin(start)], calls);
    RunOfCompleted(s.target, start, end, calls);
    SomeForeignConcat(early, calls, s.target, start, end);
  }

  lemma SomeForeignConcat(a: seq<Call>, b: seq<Call>, target: Dword, start: int, end: int)
    ensures SomeForeignIn(a + b, target, start, end)
      <==> SomeForeignIn(a, target, start, end) || SomeForeignIn(b, target, start, end)
  {
    if i :| 0 <= i < |a| && IsForeign(a[i], target, start, end) {
      assert IsForeign((a + b)[i], target, start, end);
    }
    if i :| 0 <= i < |b| && IsForeign(b[i], target, start, end) {
      assert IsForeign((a + b)[|a| + i], target, start, end);
    }
  }

  /** An input: the foreground changes in the millisecond of the start, and is delivered before the call. */
  lemma EarlyEventMissed(s: State, process: Dword, start: int)
    requires !s.active && process != 0 && process != s.target
    ensures var calls := [Boundary(start + 15000), End(start + 15000)];
      && !Run(s, [Event(process, start), Begin(start)] + calls).observed
      && SomeForeignIn([Event(process, start)] + calls, s.target, start, start + 15000)
  {
    var early, calls := [Event(process, start)], [Boundary(start + 15000), End(start + 15000)];
    assert IsForeign(early[0], s.target, start, start + 15000);
    EarlyMissedExactly(s, early, start, start + 15000, calls);
    assert early + [Begin(start)] + calls == [Event(process, start), Begin(start)] + calls;
  }

  // ---------------------------------------------------------------- an epoch that is interrupted

  /** Events near enough to the start for their ticks to be unambiguous. */
  ghost predicate AreEvents(events: seq<Call>, start: int) {
    forall i :: 0 <= i < |events| ==> events[i].Event? && -HALF <= events[i].time - start < HALF
  }

  /** No event is delivered before it has happened. */
  ghost predicate HappenedBy(events: seq<Call>, now: int) {
    forall i :: 0 <= i < |events| ==> events[i].Event? && events[i].time <= now
  }

  /** The calls of an epoch with boundary `b` that is ended at `e`, which may be earlier or later. */
  function Interrupted(b: int, before: seq<Call>, e: int, after: seq<Call>): seq<Call> {
    [Boundary(b)] + before + [End(e)] + after
  }

  /** A run of events alone adds to the flag what the events say. */
  lemma {:induction false} RunOfEvents(s: State, events: seq<Call>, start: int, end: int)
    requires Spans(s, start, end) && AreEvents(events, start)
    requires s.endKnown || forall i :: 0 <= i < |events| ==> events[i].time < end
    ensures Run(s, events) == s.(observed := s.observed || SomeForeignIn(events, s.target, start, end))
  {
    if events == [] {
    } else {
      var n := |events| - 1;
      var init, last := events[..n], events[n];
      RunOfEvents(s, init, start, end);
      FlagsExactly(Run(s, init), last.process, last.time, start, end);
      if i :| 0 <= i < n && IsForeign(events[i], s.target, start, end) {
        assert IsForeign(init[i], s.target, start, end);
      }
    }
  }

  /** The state that a delivery of an interrupted epoch leaves. */
  lemma InterruptedState(target: Dword, start: int, b: int, before: seq<Call>, e: int, after: seq<Call>)
    requires 0 <= b - start < HALF && 0 <= e - start < HALF && AreEvents(before, start) && AreEvents(after, start)
    ensures Run(Begun(target, start), Interrupted(b, before, e, after)) == State(target, true, true, true, Ticks(start), Ticks(e),
      SomeForeignIn(before, target, start, b) || SomeForeignIn(after, target, start, e))
  {
    var s0 := Begun(target, start);
    var s1 := AfterBoundary(s0, Ticks(b));
    RunOne(s0, Boundary(b));
    RunConcat(s0, [Boundary(b)], before);
    RunOfEvents(s1, before, start, b);
    var s2 := Run(s1, before);
    RunConcat(s0, [Boundary(b)] + before, [End(e)]);
    var s3 := AfterEnd(s2, Ticks(e));
    RunOne(s2, End(e));
    RunConcat(s0, [Boundary(b)] + before + [End(e)], after);
    RunOfEvents(s3, after, start, e);
  }

  /** What a delivery of an interrupted epoch reports. */
  lemma InterruptedMeans(target: Dword, start: int, b: int, before: seq<Call>, e: int, after: seq<Call>)
    requires 0 <= b - start < HALF && 0 <= e - start < HALF && AreEvents(before, start) && AreEvents(after, start)
    ensures Run(Begun(target, start), Interrupted(b, before, e, after)).observed
      <==> SomeForeignIn(before, target, start, b) || SomeForeignIn(after, target, start, e)
  {
    InterruptedState(target, start, b, before, e, after);
  }

  /** Events that happened before the boundary may as well be delivered before it is set. */
  lemma BoundaryMayComeLater(target: Dword, start: int, b: int, first: seq<Call>, rest: seq<Call>)
    requires 0 <= b - start < HALF && AreEvents(first, start)
    requires forall i :: 0 <= i < |first| ==> first[i].time < b
    ensures Run(Begun(target, start), first + [Boundary(b)] + rest) == Run(Begun(target, start), [Boundary(b)] + first + rest)
  {
    var s0 := Begun(target, start);
    var s1 := AfterBoundary(s0, Ticks(b));
    RunOfEvents(s0, first, start, b);
    var t := Run(s0, first);
    RunOne(s0, Boundary(b));
    RunOne(t, Boundary(b));
    RunConcat(s0, first, [Boundary(b)]);
    RunConcat(s0, first + [Boundary(b)], rest);
    RunOfEvents(s1, first, start, b);
    RunConcat(s0, [Boundary(b)], first);
    RunConcat(s0, [Boundary(b)] + first, rest);
  }

  /** Stopping the hook ends the epoch once more, at any tick, between the events still delivered: this changes nothing. */
  lemma StoppingChangesNothing(target: Dword, start: int, b: int, before: seq<Call>, e: int, after: seq<Call>, x: int, late: seq<Call>)
    requires 0 <= b - start < HALF && 0 <= e - start < HALF
    requires AreEvents(before, start) && AreEvents(after, start) && AreEvents(late, start)
    ensures Run(Begun(target, start), Interrupted(b, before, e, after) + [End(x)] + late)
      == Run(Begun(target, start), Interrupted(b, before, e, after + late))
  {
    var s0, calls := Begun(target, start), Interrupted(b, before, e, after);
    InterruptedState(target, start, b, before, e, after);
    var s1 := Run(s0, calls);
    RunConcat(s0, calls, [End(x)]);
    RunOne(s1, End(x));
    RunConcat(s0, calls + [End(x)], late);
    RunConcat(s0, calls, late);
    assert calls + late == Interrupted(b, before, e, after + late);
  }

  /** The events, divided between before and after the call that ends the epoch, in any order. */
  ghost predicate IsDelivery(events: seq<Call>, before: seq<Call>, after: seq<Call>, now: int) {
    multiset(before) + multiset(after) == multiset(events) && HappenedBy(before, now)
  }

  ghost function Outcome(target: Dword, start: int, b: int, before: seq<Call>, e: int, after: seq<Call>): bool {
    Run(Begun(target, start), Interrupted(b, before, e, after)).observed
  }

  /** Every delivery of the events reports the same. */
  ghost predicate OrderIrrelevant(target: Dword, start: int, b: int, e: int, now: int, events: seq<Call>) {
    forall p: seq<Call>, q: seq<Call>, u: seq<Call>, v: seq<Call> ::
      (IsDelivery(events, p, q, now) && IsDelivery(events, u, v, now) ==>
        Outcome(target, start, b, p, e, q) == Outcome(target, start, b, u, e, v))
  }

  /** A foreign event between two times that had happened at the call. */
  ghost predicate SomeBetween(events: seq<Call>, target: Dword, low: int, high: int, now: int) {
    exists i :: 0 <= i < |events| && IsForeign(events[i], target, low, high) && events[i].time <= now
  }

  function Earlier(x: int, y: int): int {
    if x < y then x else y
  }

  function Later(x: int, y: int): int {
    if x < y then y else x
  }

  /**
   An epoch with boundary b that a call at `now` ends at e: its outcome does not depend on the order
   of delivery exactly when some foreign event lies before both ends, or no foreign event that had
   happened at the call lies between them. When e is b, nothing lies between. An end other than b
   is a tick read before the call.
   */
  lemma InterruptedOrderIrrelevantExactly(target: Dword, start: int, b: int, e: int, now: int, events: seq<Call>)
    requires 0 <= b - start < HALF && 0 <= e - start < HALF && (e == b || e <= now) && AreEvents(events, start)
    ensures OrderIrrelevant(target, start, b, e, now, events)
      <==> SomeForeignIn(events, target, start, Earlier(b, e)) || !SomeBetween(events, target, Earlier(b, e), Later(b, e), now)
  {
    var low, high := Earlier(b, e), Later(b, e);
    if SomeForeignIn(events, target, start, low) || !SomeBetween(events, target, low, high, now) {
      forall p: seq<Call>, q: seq<Call> | IsDelivery(events, p, q, now)
        ensures Outcome(target, start, b, p, e, q) == SomeForeignIn(events, target, start, low)
      {
        DeliveryDecided(target, start, b, e, now, events, p, q);
      }
    } else if e < b {
      var i :| 0 <= i < |events| && IsForeign(events[i], target, e, b) && events[i].time <= now;
      EarlierEndDiffers(target, start, b, e, now, events, i);
    } else {
      LaterEndDiffers(target, start, b, e, now, events);
    }
  }

  /** The two sides in plain words: a later end has the events between to itself, equal ends have none. */
  lemma InterruptedCases(target: Dword, start: int, b: int, e: int, now: int, events: seq<Call>)
    requires 0 <= b - start < HALF && 0 <= e - start < HALF && (e == b || e <= now) && AreEvents(events, start)
    ensures e == b ==> OrderIrrelevant(target, start, b, e, now, events)
    ensures e > b ==> (OrderIrrelevant(target, start, b, e, now, events)
      <==> SomeForeignIn(events, target, start, b) || !SomeForeignIn(events, target, b, e))
    ensures e < b && b <= now ==> (OrderIrrelevant(target, start, b, e, now, events)
      <==> SomeForeignIn(events, target, start, e) || !SomeForeignIn(events, target, e, b))
  {
    InterruptedOrderIrrelevantExactly(target, start, b, e, now, events);
    var low, high := Earlier(b, e), Later(b, e);
    if i :| 0 <= i < |events| && IsForeign(events[i], target, low, high) {
      assert events[i].time < high;
    }
  }

  lemma Members(events: seq<Call>, before: seq<Call>, after: seq<Call>, now: int)
    requires IsDelivery(events, before, after, now)
    ensures forall c :: c in before || c in after <==> c in events
  {
    assert forall c :: c in multiset(before) + multiset(after) <==> c in before || c in after;
    assert forall c :: c in multiset(events) <==> c in events;
  }

  lemma DeliveredEvents(events: seq<Call>, before: seq<Call>, after: seq<Call>, start: int, now: int)
    requires IsDelivery(events, before, after, now) && AreEvents(events, start)
    ensures AreEvents(before, start) && AreEvents(after, start)
  {
    Members(events, before, after, now);
    forall i | 0 <= i < |before| ensures before[i].Event? && -HALF <= before[i].time - start < HALF {
      assert before[i] in events;
    }
    forall i | 0 <= i < |after| ensures after[i].Event? && -HALF <= after[i].time - start < HALF {
      assert after[i] in events;
    }
  }

  lemma DeliveryDecided(target: Dword, start: int, b: int, e: int, now: int, events: seq<Call>, p: seq<Call>, q: seq<Call>)
    requires 0 <= b - start < HALF && 0 <= e - start < HALF && (e == b || e <= now)
    requires AreEvents(events, start) && IsDelivery(events, p, q, now)
    requires SomeForeignIn(events, target, start, Earlier(b, e)) || !SomeBetween(events, target, Earlier(b, e), Later(b, e), now)
    ensures Outcome(target, start, b, p, e, q) == SomeForeignIn(events, target, start, Earlier(b, e))
  {
    var low := Earlier(b, e);
    DeliveredEvents(events, p, q, start, now);
    InterruptedMeans(target, start, b, p, e, q);
    Members(events, p, q, now);
    if i :| 0 <= i < |events| && IsForeign(events[i], target, start, low) {
      assert events[i] in p || events[i] in q;
      if events[i] in p {
        var k :| 0 <= k < |p| && p[k] == events[i];
        assert IsForeign(p[k], target, start, b);
      } else {
        var k :| 0 <= k < |q| && q[k] == events[i];
        assert IsForeign(q[k], target, start, e);
      }
    } else {
      if k :| 0 <= k < |p| && IsForeign(p[k], target, start, b) { NotBetween(target, start, b, e, now, events, p[k]); }
      if k :| 0 <= k < |q| && IsForeign(q[k], target, start, e) { NotBetween(target, start, b, e, now, events, q[k]); }
    }
  }

  /** Without a foreign event before both ends or between them, no event is flagged on either side of the call. */
  lemma NotBetween(target: Dword, start: int, b: int, e: int, now: int, events: seq<Call>, c: Call)
    requires c in events && (e == b || e <= now)
    requires !SomeForeignIn(events, target, start, Earlier(b, e))
    requires !SomeBetween(events, target, Earlier(b, e), Later(b, e), now)
    ensures !(IsForeign(c, target, start, b) && c.time <= now) && !IsForeign(c, target, start, e)
  {
    var i :| 0 <= i < |events| && events[i] == c;
    assert !IsForeign(events[i], target, start, Earlier(b, e));
    assert !(IsForeign(events[i], target, Earlier(b, e), Later(b, e)) && events[i].time <= now);
  }

  /** When the end moves earlier, delivering such an event before the call differs from delivering all after it. */
  lemma EarlierEndDiffers(target: Dword, start: int, b: int, e: int, now: int, events: seq<Call>, i: nat)
    requires start <= e < b && b - start < HALF && AreEvents(events, start)
    requires !SomeForeignIn(events, target, start, e)
    requires i < |events| && IsForeign(events[i], target, e, b) && events[i].time <= now
    ensures !OrderIrrelevant(target, start, b, e, now, events)
  {
    var one, rest := [events[i]], events[..i] + events[i + 1..];
    TwoDeliveries(events, i, now);
    DeliveredEvents(events, one, rest, start, now);
    assert IsForeign(one[0], target, start, b);
    InterruptedMeans(target, start, b, one, e, rest);
    InterruptedMeans(target, start, b, [], e, events);
    assert Outcome(target, start, b, one, e, rest) && !Outcome(target, start, b, [], e, events);
  }

  lemma TwoDeliveries(events: seq<Call>, i: nat, now: int)
    requires i < |events| && events[i].Event? && events[i].time <= now
    ensures IsDelivery(events, [events[i]], events[..i] + events[i + 1..], now) && IsDelivery(events, [], events, now)
  {
    assert events == events[..i] + [events[i]] + events[i + 1..];
  }

  /** When the end moves later, delivering all after the call differs from delivering before it what had happened. */
  lemma LaterEndDiffers(target: Dword, start: int, b: int, e: int, now: int, events: seq<Call>)
    requires start <= b < e <= now && e - start < HALF && AreEvents(events, start)
    requires !SomeForeignIn(events, target, start, b) && SomeBetween(events, target, b, e, now)
    ensures !OrderIrrelevant(target, start, b, e, now, events)
  {
    var before, after := Split(events, now);
    assert IsDelivery(events, before, after, now) && IsDelivery(events, [], events, now);
    DeliveredEvents(events, before, after, start, now);
    Members(events, before, after, now);
    InterruptedMeans(target, start, b, before, e, after);
    SomeForeign(target, start, b, before, events);
    InterruptedMeans(target, start, b, [], e, events);
    var i :| 0 <= i < |events| && IsForeign(events[i], target, b, e) && events[i].time <= now;
    assert IsForeign(events[i], target, start, e);
  }

  /** What had happened at the call, and what had not. */
  lemma {:induction false} Split(events: seq<Call>, now: int) returns (before: seq<Call>, after: seq<Call>)
    requires OnlyEvents(events)
    ensures IsDelivery(events, before, after, now)
    ensures forall i :: 0 <= i < |after| ==> after[i].Event? && after[i].time > now
  {
    if events == [] {
      before, after := [], [];
    } else {
      var init, last := events[..|events| - 1], events[|events| - 1];
      before, after := Split(init, now);
      assert events == init + [last];
      if last.time <= now { before := before + [last]; } else { after := after + [last]; }
    }
  }

  /** An input: a change of foreground in the millisecond in which the end was read, before the call. */
  lemma EarlyEndOrderMatters(target: Dword, process: Dword, start: int)
    requires process != 0 && process != target
    ensures var e := start + 1000;
      && Run(Begun(target, start), [Boundary(start + 15000), Event(process, e), End(e)]).observed
      && !Run(Begun(target, start), [Boundary(start + 15000), End(e), Event(process, e)]).observed
  {
    var b, e := start + 15000, start + 1000;
    var event := Event(process, e);
    InterruptedMeans(target, start, b, [event], e, []);
    InterruptedMeans(target, start, b, [], e, [event]);
    assert IsForeign([event][0], target, start, b);
    assert Interrupted(b, [event], e, []) == [Boundary(b), event, End(e)];
    assert Interrupted(b, [], e, [event]) == [Boundary(b), End(e), event];
  }

  /** An input: a blocked measurement is ended ten milliseconds late, and the foreground changed at the boundary. */
  lemma LateEndOrderMatters(target: Dword, process: Dword, start: int)
    requires process != 0 && process != target
    ensures var b, e := start + 15000, start + 15010;
      && !Run(Begun(target, start), [Boundary(b), Event(process, b), End(e)]).observed
      && Run(Begun(target, start), [Boundary(b), End(e), Event(process, b)]).observed
  {
    var b, e := start + 15000, start + 15010;
    var event := Event(process, b);
    InterruptedMeans(target, start, b, [event], e, []);
    InterruptedMeans(target, start, b, [], e, [event]);
    assert IsForeign([event][0], target, start, e);
    assert Interrupted(b, [event], e, []) == [Boundary(b), event, End(e)];
    assert Interrupted(b, [], e, [event]) == [Boundary(b), End(e), event];
  }
}
