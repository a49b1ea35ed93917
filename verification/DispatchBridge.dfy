/**
 The main-thread dispatch bridge (RuntimeControlDispatchBridge.cpp) as a step relation.

 Any number of `Dispatch` calls, `Stop` calls and drains are in flight at once. Every region
 that the source runs under `mutex_` or under one request's own mutex is one step, and so is
 every call out of the bridge (the wake callback, the handler). Steps of different threads
 interleave freely. Drains all run on the main thread: one begins while another is in its handler
 when that handler pumps messages, and the outer one then waits for the inner one to end.

 A queued `Dispatch` call is named by its position in `calls`, so call numbers are the enqueue
 order. `handed` and `wakes` are bookkeeping of the model: the calls that were passed to the
 handler so far, and the wake messages delivered to the main thread but not yet handled.
 */
module DispatchBridge {
  import opened ControlProtocol
  import opened Options

  /** Who wrote a request's result. `ran` tells whether the handler produced it. */
  datatype Completer = ByStop | ByDrain(ran: bool) | ByProducer

  datatype Cell = Open | Completed(result: ExecutionResult, who: Completer)

  /** Where the thread that called `Dispatch` stands. */
  datatype Pc = Enqueued | WakeFailed | Withdrawn | Waiting | Returned(value: ExecutionResult)

  datatype Call = Call(request: Request, wake: bool, cell: Cell, pc: Pc)

  datatype Phase = Looking | Running | Finishing(result: ExecutionResult, ran: bool)

  /** A running `DrainOnMainThread` or `Stop`; `rest` is the unprocessed suffix of its batch. */
  datatype Frame = Drain(rest: seq<nat>, handler: bool, phase: Phase) | Stopping(rest: seq<nat>)

  datatype State = State(accepting: bool, mainThread: int, hasWake: bool, hasHandler: bool,
                         queue: seq<nat>, calls: seq<Call>, frames: seq<Frame>,
                         handed: seq<nat>, wakes: nat)

  const INITIAL := State(false, 0, false, false, [], [], [], [], 0)

  datatype Step =
    | Start(thread: int, wake: bool, handler: bool)
    | Enqueue(request: Request, thread: int)
    | Wake(call: nat, delivered: bool)
    | Withdraw(call: nat)
    | GiveUp(call: nat)
    | Return(call: nat)
    | BeginStop
    | StopOne(frame: nat)
    | BeginDrain
    | Look(frame: nat)
    | HandlerReturns(frame: nat, result: ExecutionResult)
    | Finish(frame: nat)

  /** `Complete`: the first result is kept, a later one is dropped. */
  function Settle(c: Call, result: ExecutionResult, who: Completer): Call {
    if c.cell.Open? then c.(cell := Completed(result, who)) else c
  }

  /** `std::erase(queue_, pending)`. */
  function Without(q: seq<nat>, id: nat): (r: seq<nat>)
    ensures forall x :: x in r <==> x in q && x != id
    ensures |r| <= |q|
  {
    if q == [] then [] else
      assert q == [q[0]] + q[1..];
      (if q[0] == id then [] else [q[0]]) + Without(q[1..], id)
  }

  lemma {:induction false} WithoutKeepsOrder(q: seq<nat>, id: nat)
    requires Sorted(q)
    ensures Sorted(Without(q, id))
  {
    if q != [] {
      WithoutKeepsOrder(q[1..], id);
      var tail := Without(q[1..], id);
      assert forall k :: 0 <= k < |tail| ==> tail[k] in q[1..];
    }
  }

  predicate Sorted(q: seq<nat>) {
    forall i, j :: 0 <= i < j < |q| ==> q[i] < q[j]
  }

  predicate At(s: State, id: nat, pc: Pc) {
    id < |s.calls| && s.calls[id].pc == pc
  }

  /** The frame has a request to work on and every request it names exists. */
  predicate Busy(s: State, f: nat) {
    f < |s.frames| && s.frames[f].rest != [] && s.frames[f].rest[0] < |s.calls|
  }

  predicate InPhase(s: State, f: nat) {
    Busy(s, f) && s.frames[f].Drain?
  }

  /** A drain that has not finished its batch. */
  predicate Active(s: State, f: nat) {
    f < |s.frames| && s.frames[f].Drain? && s.frames[f].rest != []
  }

  /** Drains that began later have ended: the main thread is in drain `f`. */
  predicate OnTop(s: State, f: nat) {
    forall g :: f < g < |s.frames| ==> !Active(s, g)
  }

  /** The main thread is outside any drain or in the handler of one. */
  predicate MayDrain(s: State) {
    forall f :: 0 <= f < |s.frames| && Active(s, f) ==> s.frames[f].phase.Running?
  }

  predicate Enabled(s: State, e: Step) {
    match e
    case Start(_, _, _) => true
    case Enqueue(_, thread) => s.accepting && thread != s.mainThread
    case Wake(id, delivered) => At(s, id, Enqueued) && (delivered ==> s.calls[id].wake)
    case Withdraw(id) => At(s, id, WakeFailed)
    case GiveUp(id) => At(s, id, Withdrawn)
    case Return(id) => At(s, id, Waiting) && s.calls[id].cell.Completed?
    case BeginStop => true
    case StopOne(f) => Busy(s, f) && s.frames[f].Stopping?
    case BeginDrain => MayDrain(s)
    case Look(f) => InPhase(s, f) && OnTop(s, f) && s.frames[f].phase.Looking?
    case HandlerReturns(f, _) => InPhase(s, f) && OnTop(s, f) && s.frames[f].phase.Running?
    case Finish(f) => InPhase(s, f) && OnTop(s, f) && s.frames[f].phase.Finishing?
  }

  function WithCall(s: State, id: nat, c: Call): State
    requires id < |s.calls|
  {
    s.(calls := s.calls[id := c])
  }

  /** The frame moves on to the next request of its batch. */
  function Advance(s: State, f: nat): State
    requires f < |s.frames| && s.frames[f].rest != []
  {
    var fr := s.frames[f];
    s.(frames := s.frames[f := if fr.Drain? then Drain(fr.rest[1..], fr.handler, Looking)
                               else Stopping(fr.rest[1..])])
  }

  function Apply(s: State, e: Step): State
    requires Enabled(s, e)
  {
    match e
    case Start(thread, wake, handler) =>
      s.(accepting := true, mainThread := thread, hasWake := wake, hasHandler := handler)
    case Enqueue(request, _) =>
      s.(queue := s.queue + [|s.calls|], calls := s.calls + [Call(request, s.hasWake, Open, Enqueued)])
    case Wake(id, delivered) =>
      if delivered then WithCall(s, id, s.calls[id].(pc := Waiting)).(wakes := s.wakes + 1)
      else WithCall(s, id, s.calls[id].(pc := WakeFailed))
    case Withdraw(id) =>
      WithCall(s, id, s.calls[id].(pc := Withdrawn)).(queue := Without(s.queue, id))
    case GiveUp(id) =>
      var c := s.calls[id];
      WithCall(s, id, Settle(c, TerminalResult(c.request, RuntimeUnavailable), ByProducer).(pc := Waiting))
    case Return(id) =>
      WithCall(s, id, s.calls[id].(pc := Returned(s.calls[id].cell.result)))
    case BeginStop =>
      s.(accepting := false, queue := [], frames := s.frames + [Stopping(s.queue)])
    case StopOne(f) =>
      var id := s.frames[f].rest[0];
      var c := s.calls[id];
      Advance(WithCall(s, id, Settle(c, TerminalResult(c.request, Status.ShuttingDown), ByStop)), f)
    case BeginDrain =>
      s.(queue := [], frames := s.frames + [Drain(s.queue, s.hasHandler, Looking)],
         wakes := if s.wakes > 0 then s.wakes - 1 else 0)
    case Look(f) =>
      var fr := s.frames[f];
      var c := s.calls[fr.rest[0]];
      if c.cell.Completed? then Advance(s, f)
      else if fr.handler then
        s.(frames := s.frames[f := fr.(phase := Running)], handed := s.handed + [fr.rest[0]])
      else
        s.(frames := s.frames[f := fr.(phase := Finishing(TerminalResult(c.request, RuntimeUnavailable), false))])
    case HandlerReturns(f, result) =>
      s.(frames := s.frames[f := s.frames[f].(phase := Finishing(result, true))])
    case Finish(f) =>
      var fr := s.frames[f];
      var id := fr.rest[0];
      Advance(WithCall(s, id, Settle(s.calls[id], fr.phase.result, ByDrain(fr.phase.ran))), f)
  }

  /** `es` can be taken one after the other from `s`. */
  ghost predicate Runs(s: State, es: seq<Step>)
    decreases |es|
  {
    es == [] || (Enabled(s, es[0]) && Runs(Apply(s, es[0]), es[1..]))
  }

  ghost function Exec(s: State, es: seq<Step>): State
    requires Runs(s, es)
    decreases |es|
  {
    if es == [] then s else Exec(Apply(s, es[0]), es[1..])
  }

  // ---------------------------------------------------------------- the invariant

  /** `id` is in the queue. */
  predicate Queued(s: State, id: nat) {
    id in s.queue
  }

  /** `id` is in the unprocessed part of batch `f`. */
  predicate HeldBy(s: State, f: nat, id: nat) {
    f < |s.frames| && id in s.frames[f].rest
  }

  ghost predicate Held(s: State, id: nat) {
    exists f: nat :: HeldBy(s, f, id)
  }

  /** Every batch and the queue are sorted, name existing calls and share no call. */
  ghost predicate PlacesOk(s: State) {
    && Sorted(s.queue)
    && (forall id :: id in s.queue ==> id < |s.calls|)
    && (forall f :: 0 <= f < |s.frames| ==> Sorted(s.frames[f].rest))
    && (forall f, id :: 0 <= f < |s.frames| && id in s.frames[f].rest ==> id < |s.calls|)
    && (forall f, g, id :: 0 <= f < g < |s.frames| && id in s.frames[f].rest ==> id !in s.frames[g].rest)
    && (forall f, id, q :: 0 <= f < |s.frames| && id in s.frames[f].rest && q in s.queue ==> id < q)
  }

  /** A call is still held after it was handed out only as the head of the drain that runs it. */
  ghost predicate HandedOk(s: State) {
    && (forall id :: id in s.handed ==> id < |s.calls|)
    && (forall id, q :: id in s.handed && q in s.queue ==> id < q)
    && (forall f, id :: 0 <= f < |s.frames| && id in s.frames[f].rest && id in s.handed ==>
          s.frames[f].Drain? && id == s.frames[f].rest[0] && s.frames[f].handler
          && (s.frames[f].phase.Running? || (s.frames[f].phase.Finishing? && s.frames[f].phase.ran)))
    && (forall f :: 0 <= f < |s.frames| && s.frames[f].Drain? && !s.frames[f].phase.Looking? ==>
          s.frames[f].rest != [])
    && (forall f :: 0 <= f < |s.frames| && s.frames[f].Drain? && s.frames[f].rest != [] ==>
          FrameOk(s, s.frames[f]))
    && (forall i, j :: 0 <= i < j < |s.handed| ==> s.handed[i] != s.handed[j])
  }

  ghost predicate FrameOk(s: State, fr: Frame)
    requires fr.Drain? && fr.rest != []
  {
    && (fr.phase.Running? ==> fr.rest[0] in s.handed)
    && (fr.phase.Finishing? && !fr.phase.ran ==> !fr.handler)
    && (fr.phase.Finishing? && fr.phase.ran ==> fr.rest[0] in s.handed)
    && (fr.phase.Finishing? && !fr.phase.ran && fr.rest[0] < |s.calls| ==>
          fr.phase.result == TerminalResult(s.calls[fr.rest[0]].request, RuntimeUnavailable))
  }

  /** Only the drain on top is not waiting in its handler. */
  ghost predicate StackOk(s: State) {
    forall f, g :: 0 <= f < g < |s.frames| && Active(s, f) && Active(s, g) ==> s.frames[f].phase.Running?
  }

  /** What a completed request says about how it was completed. */
  ghost predicate CellOk(s: State, id: nat)
    requires id < |s.calls|
  {
    var c := s.calls[id];
    match c.cell
    case Open => !c.pc.Returned?
    case Completed(result, who) =>
      && (c.pc.Returned? ==> c.pc.value == result)
      && (who == ByDrain(true) ==> id in s.handed)
      && (who == ByStop ==> id !in s.handed && !Queued(s, id) && !Held(s, id))
      && (who == ByStop ==> result == TerminalResult(c.request, Status.ShuttingDown))
      && (who == ByProducer || who == ByDrain(false) ==> result == TerminalResult(c.request, RuntimeUnavailable))
  }

  /**
   No waiter is lost: an uncompleted request is queued, in an unprocessed batch suffix, or about to be
   completed by its own producer. A queued request whose producer sleeps has a wake message on its way.
   */
  ghost predicate WaitOk(s: State, id: nat)
    requires id < |s.calls|
  {
    var c := s.calls[id];
    && (c.cell.Open? ==> Queued(s, id) || Held(s, id) || c.pc == Withdrawn)
    && (c.pc == Withdrawn ==> !Queued(s, id))
    && (c.pc == Waiting && Queued(s, id) ==> s.wakes > 0)
  }

  ghost predicate CallsOk(s: State) {
    forall id: nat :: id < |s.calls| ==> CellOk(s, id) && WaitOk(s, id)
  }

  ghost predicate Inv(s: State) {
    && (!s.accepting ==> s.queue == [])
    && PlacesOk(s)
    && HandedOk(s)
    && StackOk(s)
    && CallsOk(s)
  }

  // ---------------------------------------------------------------- every step keeps it

  lemma InitialInv()
    ensures Inv(INITIAL)
  {
  }

  lemma TailOfSorted(q: seq<nat>)
    requires Sorted(q) && q != []
    ensures Sorted(q[1..])
    ensures forall x :: x in q[1..] <==> x in q && x != q[0]
    ensures forall x :: x in q[1..] ==> q[0] < x
  {
    assert q == [q[0]] + q[1..];
  }

  /** Advancing batch `f` releases its head and nothing else. */
  lemma AdvanceReleasesHead(s: State, f: nat)
    requires PlacesOk(s) && f < |s.frames| && s.frames[f].rest != []
    ensures forall g: nat, id: nat :: HeldBy(Advance(s, f), g, id) <==>
              HeldBy(s, g, id) && id != s.frames[f].rest[0]
    ensures PlacesOk(Advance(s, f))
  {
    TailOfSorted(s.frames[f].rest);
    assert s.frames[f].rest[0] in s.frames[f].rest;
    forall g: nat, id: nat
      ensures HeldBy(Advance(s, f), g, id) <==> HeldBy(s, g, id) && id != s.frames[f].rest[0]
    {
    }
  }

  ghost predicate SamePlaces(s: State, t: State) {
    && t.queue == s.queue && |t.calls| == |s.calls| && |t.frames| == |s.frames|
    && (forall f :: 0 <= f < |s.frames| ==> t.frames[f].rest == s.frames[f].rest)
  }

  lemma PlacesCongruent(s: State, t: State)
    requires PlacesOk(s) && SamePlaces(s, t)
    ensures PlacesOk(t)
  {
  }

  lemma PlacesAfterEnqueue(s: State, calls: seq<Call>)
    requires PlacesOk(s) && |calls| == |s.calls| + 1
    ensures PlacesOk(s.(queue := s.queue + [|s.calls|], calls := calls))
  {
    assert forall k :: 0 <= k < |s.queue| ==> s.queue[k] in s.queue;
  }

  lemma PlacesAfterWithdraw(s: State, id: nat)
    requires PlacesOk(s)
    ensures PlacesOk(s.(queue := Without(s.queue, id)))
  {
    WithoutKeepsOrder(s.queue, id);
  }

  lemma PlacesAfterFrame(s: State, e: Step)
    requires Inv(s) && Enabled(s, e) && (e.StopOne? || e.Finish? || e.Look?)
    ensures PlacesOk(Apply(s, e))
  {
    var t, f := Apply(s, e), e.frame;
    AdvanceReleasesHead(s, f);
    if SamePlaces(s, t) { PlacesCongruent(s, t); } else { PlacesCongruent(Advance(s, f), t); }
  }

  lemma PlacesPreserved(s: State, e: Step)
    requires Inv(s) && Enabled(s, e)
    ensures PlacesOk(Apply(s, e))
  {
    var t := Apply(s, e);
    match e {
      case StopOne(_) => PlacesAfterFrame(s, e);
      case Finish(_) => PlacesAfterFrame(s, e);
      case Look(_) => PlacesAfterFrame(s, e);
      case BeginStop => PlacesAfterSwap(s, Stopping(s.queue));
        PlacesCongruent(s.(queue := [], frames := t.frames), t);
      case BeginDrain => PlacesAfterSwap(s, Drain(s.queue, s.hasHandler, Looking));
        PlacesCongruent(s.(queue := [], frames := t.frames), t);
      case Withdraw(id) => PlacesAfterWithdraw(s, id); PlacesCongruent(s.(queue := t.queue), t);
      case Enqueue(_, _) => PlacesAfterEnqueue(s, t.calls);
      case Start(_, _, _) => PlacesCongruent(s, t);
      case Wake(_, _) => PlacesCongruent(s, t);
      case GiveUp(_) => PlacesCongruent(s, t);
      case Return(_) => PlacesCongruent(s, t);
      case HandlerReturns(_, _) => PlacesCongruent(s, t);
    }
  }

  /** Moving the whole queue into a new batch. */
  lemma PlacesAfterSwap(s: State, fr: Frame)
    requires PlacesOk(s) && fr.rest == s.queue
    ensures PlacesOk(s.(queue := [], frames := s.frames + [fr]))
    ensures forall id: nat :: Held(s.(queue := [], frames := s.frames + [fr]), id) <==> Held(s, id) || Queued(s, id)
  {
    var t := s.(queue := [], frames := s.frames + [fr]);
    forall id: nat
      ensures Held(t, id) <==> Held(s, id) || Queued(s, id)
    {
      if Queued(s, id) { assert HeldBy(t, |s.frames|, id); }
      if f: nat :| HeldBy(s, f, id) { assert HeldBy(t, f, id); }
      if f: nat :| HeldBy(t, f, id) { assert f < |s.frames| ==> HeldBy(s, f, id); }
    }
  }

  /** Only the requests of the calls matter to `HandedOk`, and the queue may shrink. */
  lemma HandedCongruent(s: State, t: State)
    requires PlacesOk(s) && HandedOk(s) && t.handed == s.handed && t.frames == s.frames
    requires |s.calls| <= |t.calls| && forall i :: 0 <= i < |s.calls| ==> t.calls[i].request == s.calls[i].request
    requires forall q :: q in t.queue ==> q in s.queue || q >= |s.calls|
    ensures HandedOk(t)
  {
    assert forall f :: 0 <= f < |s.frames| && s.frames[f].rest != [] ==> s.frames[f].rest[0] in s.frames[f].rest;
  }

  lemma HandedAfterSwap(s: State, fr: Frame)
    requires PlacesOk(s) && HandedOk(s) && fr.rest == s.queue && (fr.Drain? ==> fr.phase.Looking?)
    ensures HandedOk(s.(queue := [], frames := s.frames + [fr]))
  {
  }

  /** A request at the head of a looking drain was not handed out before. */
  lemma LookedAtIsFresh(s: State, f: nat)
    requires Inv(s) && Enabled(s, Look(f))
    ensures s.frames[f].rest[0] in s.frames[f].rest && s.frames[f].rest[0] !in s.handed
  {
    assert s.frames[f].rest[0] in s.frames[f].rest;
  }

  lemma HandedAfterLook(s: State, f: nat)
    requires Inv(s) && Enabled(s, Look(f)) && s.calls[s.frames[f].rest[0]].cell.Open? && s.frames[f].handler
    ensures HandedOk(s.(frames := s.frames[f := s.frames[f].(phase := Running)],
                        handed := s.handed + [s.frames[f].rest[0]]))
  {
    LookedAtIsFresh(s, f);
    var id := s.frames[f].rest[0];
    var t := s.(handed := s.handed + [id]);
    assert forall x :: x in t.handed <==> x in s.handed || x == id;
    assert forall k :: 0 <= k < |s.handed| ==> s.handed[k] in s.handed;
    MarkRunning(s, t, f);
  }

  lemma HandedAfterLookWithoutHandler(s: State, f: nat)
    requires Inv(s) && Enabled(s, Look(f)) && s.calls[s.frames[f].rest[0]].cell.Open? && !s.frames[f].handler
    ensures HandedOk(Apply(s, Look(f)))
  {
    LookedAtIsFresh(s, f);
  }

  lemma MarkRunning(s: State, t: State, f: nat)
    requires PlacesOk(s) && HandedOk(s) && InPhase(s, f) && s.frames[f].phase.Looking? && s.frames[f].handler
    requires t == s.(handed := t.handed)
    requires forall x :: x in t.handed <==> x in s.handed || x == s.frames[f].rest[0]
    requires forall i, j :: 0 <= i < j < |t.handed| ==> t.handed[i] != t.handed[j]
    requires s.frames[f].rest[0] in s.frames[f].rest
    ensures HandedOk(t.(frames := s.frames[f := s.frames[f].(phase := Running)]))
  {
    var u := t.(frames := s.frames[f := s.frames[f].(phase := Running)]);
    forall g | 0 <= g < |u.frames| && u.frames[g].Drain? && u.frames[g].rest != []
      ensures FrameOk(u, u.frames[g])
    {
      assert g != f ==> u.frames[g] == s.frames[g] && FrameOk(s, s.frames[g]);
    }
  }

  lemma HandedAfterHandlerReturns(s: State, f: nat, result: ExecutionResult)
    requires Inv(s) && Enabled(s, HandlerReturns(f, result))
    ensures HandedOk(Apply(s, HandlerReturns(f, result)))
  {
  }

  lemma HandedAfterSettle(s: State, e: Step)
    requires Inv(s) && Enabled(s, e) && (e.StopOne? || e.Finish?)
    ensures HandedOk(Apply(s, e))
  {
    HandedAfterAdvance(s, e.frame);
    AdvanceReleasesHead(s, e.frame);
    HandedCongruent(Advance(s, e.frame), Apply(s, e));
  }

  lemma HandedAfterProducer(s: State, e: Step)
    requires Inv(s) && Enabled(s, e) && (e.Start? || e.Enqueue? || e.Wake? || e.Withdraw? || e.GiveUp? || e.Return?)
    ensures HandedOk(Apply(s, e))
  {
    HandedCongruent(s, Apply(s, e));
  }

  lemma HandedAfterLooking(s: State, e: Step)
    requires Inv(s) && Enabled(s, e) && e.Look?
    ensures HandedOk(Apply(s, e))
  {
    var fr := s.frames[e.frame];
    if s.calls[fr.rest[0]].cell.Completed? { HandedAfterAdvance(s, e.frame); }
    else if fr.handler { HandedAfterLook(s, e.frame); }
    else { HandedAfterLookWithoutHandler(s, e.frame); }
  }

  lemma HandedAfterBegin(s: State, e: Step)
    requires Inv(s) && Enabled(s, e) && (e.BeginStop? || e.BeginDrain?)
    ensures HandedOk(Apply(s, e))
  {
    var fr := if e.BeginStop? then Stopping(s.queue) else Drain(s.queue, s.hasHandler, Looking);
    HandedAfterSwap(s, fr);
    PlacesAfterSwap(s, fr);
    HandedCongruent(s.(queue := [], frames := Apply(s, e).frames), Apply(s, e));
  }

  lemma HandedPreserved(s: State, e: Step)
    requires Inv(s) && Enabled(s, e)
    ensures HandedOk(Apply(s, e))
  {
    if e.StopOne? || e.Finish? {
      HandedAfterSettle(s, e);
    } else if e.Look? {
      HandedAfterLooking(s, e);
    } else if e.BeginStop? || e.BeginDrain? {
      HandedAfterBegin(s, e);
    } else if e.HandlerReturns? {
      HandedAfterHandlerReturns(s, e.frame, e.result);
    } else {
      HandedAfterProducer(s, e);
    }
  }

  lemma HandedAfterAdvance(s: State, f: nat)
    requires PlacesOk(s) && HandedOk(s) && f < |s.frames| && s.frames[f].rest != []
    ensures HandedOk(Advance(s, f))
  {
    TailOfSorted(s.frames[f].rest);
  }

  lemma HeldAfterBegin(s: State, e: Step, id: nat)
    requires Inv(s) && Enabled(s, e) && (e.BeginStop? || e.BeginDrain?)
    ensures Held(Apply(s, e), id) <==> Held(s, id) || Queued(s, id)
  {
    var t := Apply(s, e);
    PlacesAfterSwap(s, if e.BeginStop? then Stopping(s.queue) else Drain(s.queue, s.hasHandler, Looking));
    assert forall f: nat :: HeldBy(t, f, id) <==> HeldBy(s.(queue := [], frames := t.frames), f, id);
  }

  /** Which calls are held after a step. */
  lemma HeldAfter(s: State, e: Step, id: nat)
    requires Inv(s) && Enabled(s, e)
    ensures e.BeginStop? || e.BeginDrain? ==> (Held(Apply(s, e), id) <==> Held(s, id) || Queued(s, id))
    ensures e.StopOne? || e.Finish? || (e.Look? && s.calls[s.frames[e.frame].rest[0]].cell.Completed?) ==>
              (Held(Apply(s, e), id) <==> Held(s, id) && id != s.frames[e.frame].rest[0])
    ensures e.HandlerReturns? || (e.Look? && s.calls[s.frames[e.frame].rest[0]].cell.Open?) ==>
              (Held(Apply(s, e), id) <==> Held(s, id))
    ensures Apply(s, e).frames == s.frames ==> (Held(Apply(s, e), id) <==> Held(s, id))
  {
    var t := Apply(s, e);
    match e {
      case BeginStop => HeldAfterBegin(s, e, id);
      case BeginDrain => HeldAfterBegin(s, e, id);
      case StopOne(f) => HeldAfterAdvance(s, t, f, id);
      case Finish(f) => HeldAfterAdvance(s, t, f, id);
      case Look(f) =>
        if s.calls[s.frames[f].rest[0]].cell.Completed? { HeldAfterAdvance(s, t, f, id); }
        else { assert forall g: nat :: HeldBy(t, g, id) <==> HeldBy(s, g, id); }
      case HandlerReturns(f, _) => assert forall g: nat :: HeldBy(t, g, id) <==> HeldBy(s, g, id);
      case _ => assert t.frames == s.frames ==> forall g: nat :: HeldBy(t, g, id) <==> HeldBy(s, g, id);
    }
  }

  lemma HeldAfterAdvance(s: State, t: State, f: nat, id: nat)
    requires PlacesOk(s) && f < |s.frames| && s.frames[f].rest != [] && t.frames == Advance(s, f).frames
    ensures Held(t, id) <==> Held(s, id) && id != s.frames[f].rest[0]
  {
    AdvanceReleasesHead(s, f);
    assert forall g: nat :: HeldBy(t, g, id) <==> HeldBy(Advance(s, f), g, id);
    if Held(s, id) && id != s.frames[f].rest[0] {
      var g: nat :| HeldBy(s, g, id);
      assert HeldBy(Advance(s, f), g, id);
    }
  }

  lemma CallPreserved(s: State, e: Step, id: nat)
    requires Inv(s) && Enabled(s, e) && id < |Apply(s, e).calls|
    ensures CellOk(Apply(s, e), id) && WaitOk(Apply(s, e), id)
  {
    if id == |s.calls| {
      HeldAfter(s, e, id);
      assert forall f: nat :: !HeldBy(s, f, id);
    } else if e.StopOne? || e.Look? || e.HandlerReturns? || e.Finish? {
      CallPreservedByFrame(s, e, id);
    } else {
      CallPreservedByProducer(s, e, id);
    }
  }

  lemma CallPreservedByFrame(s: State, e: Step, id: nat)
    requires Inv(s) && Enabled(s, e) && id < |s.calls|
    requires e.StopOne? || e.Look? || e.HandlerReturns? || e.Finish?
    ensures CellOk(Apply(s, e), id) && WaitOk(Apply(s, e), id)
  {
    HeldAfter(s, e, id);
    assert CellOk(s, id) && WaitOk(s, id);
    HeadIsHeld(s, e.frame);
  }

  lemma CallPreservedByProducer(s: State, e: Step, id: nat)
    requires Inv(s) && Enabled(s, e) && id < |s.calls|
    requires !e.StopOne? && !e.Look? && !e.HandlerReturns? && !e.Finish?
    ensures CellOk(Apply(s, e), id) && WaitOk(Apply(s, e), id)
  {
    HeldAfter(s, e, id);
    assert CellOk(s, id) && WaitOk(s, id);
  }

  lemma HeadIsHeld(s: State, f: nat)
    requires Inv(s) && Busy(s, f)
    ensures Held(s, s.frames[f].rest[0]) && !Queued(s, s.frames[f].rest[0])
    ensures s.frames[f].Stopping? ==> s.frames[f].rest[0] !in s.handed
    ensures s.frames[f].Drain? ==> FrameOk(s, s.frames[f])
  {
    assert HeldBy(s, f, s.frames[f].rest[0]);
  }

  lemma StackPreserved(s: State, e: Step)
    requires Inv(s) && Enabled(s, e)
    ensures StackOk(Apply(s, e))
  {
    var t := Apply(s, e);
    forall f, g | 0 <= f < g < |t.frames| && Active(t, f) && Active(t, g)
      ensures t.frames[f].phase.Running?
    {
      assert Active(s, f);
      assert g < |s.frames| ==> Active(s, g);
    }
  }

  lemma Preserved(s: State, e: Step)
    requires Inv(s) && Enabled(s, e)
    ensures Inv(Apply(s, e))
  {
    StackPreserved(s, e);
    PlacesPreserved(s, e);
    HandedPreserved(s, e);
    forall id: nat | id < |Apply(s, e).calls|
      ensures CellOk(Apply(s, e), id) && WaitOk(Apply(s, e), id)
    {
      CallPreserved(s, e, id);
    }
  }
}
