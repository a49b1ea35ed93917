/**
 What the dispatch bridge guarantees over whole runs: no waiter is lost, a request is executed
 at most once and answered once, a request refused by `Stop` never runs, and every blocked
 producer is released.
 */
module DispatchBridgeRuns {
  import opened ControlProtocol
  import opened Options
  import opened DispatchBridge

  // ---------------------------------------------------------------- runs

  lemma {:induction false} InvOfRun(s: State, es: seq<Step>)
    requires Inv(s) && Runs(s, es)
    ensures Inv(Exec(s, es))
    decreases |es|
  {
    if es != [] {
      Preserved(s, es[0]);
      InvOfRun(Apply(s, es[0]), es[1..]);
    }
  }

  lemma {:induction false} RunsConcat(s: State, es: seq<Step>, fs: seq<Step>)
    requires Runs(s, es) && Runs(Exec(s, es), fs)
    ensures Runs(s, es + fs) && Exec(s, es + fs) == Exec(Exec(s, es), fs)
    decreases |es|
  {
    if es == [] {
      assert es + fs == fs;
    } else {
      RunsConcat(Apply(s, es[0]), es[1..], fs);
      assert (es + fs)[1..] == es[1..] + fs;
    }
  }

  lemma Single(s: State, e: Step)
    requires Enabled(s, e)
    ensures Runs(s, [e]) && Exec(s, [e]) == Apply(s, e)
  {
    var none := [e][1..];
    assert none == [] && Runs(Apply(s, e), none);
  }

  /** A run taken one step further. */
  lemma Extend(s: State, es: seq<Step>, e: Step)
    requires Runs(s, es) && Enabled(Exec(s, es), e)
    ensures Runs(s, es + [e]) && Exec(s, es + [e]) == Apply(Exec(s, es), e)
  {
    var t := Exec(s, es);
    Single(t, e);
    RunsConcat(s, es, [e]);
  }

  // ---------------------------------------------------------------- safety

  /** In every reachable state no uncompleted request is out of everyone's hands. */
  lemma NoLostWaiter(es: seq<Step>, id: nat)
    requires Runs(INITIAL, es) && id < |Exec(INITIAL, es).calls|
    ensures var s := Exec(INITIAL, es);
            && (!s.accepting ==> s.queue == [])
            && (s.calls[id].cell.Open? ==> Queued(s, id) || Held(s, id) || s.calls[id].pc == Withdrawn)
            && (s.calls[id].pc == Waiting && Queued(s, id) ==> s.wakes > 0)
  {
    InitialInv();
    InvOfRun(INITIAL, es);
    assert WaitOk(Exec(INITIAL, es), id);
  }

  /** The handler is given no request twice. */
  lemma AtMostOnce(es: seq<Step>)
    requires Runs(INITIAL, es)
    ensures forall i, j :: 0 <= i < j < |Exec(INITIAL, es).handed| ==>
              Exec(INITIAL, es).handed[i] != Exec(INITIAL, es).handed[j]
  {
    InitialInv();
    InvOfRun(INITIAL, es);
  }

  lemma WrittenOnceInStep(s: State, e: Step, id: nat)
    requires Enabled(s, e) && id < |s.calls|
    ensures id < |Apply(s, e).calls|
    ensures Apply(s, e).calls[id].request == s.calls[id].request
    ensures s.calls[id].cell.Completed? ==> Apply(s, e).calls[id].cell == s.calls[id].cell
    ensures s.calls[id].pc.Returned? ==> Apply(s, e).calls[id].pc == s.calls[id].pc
  {
  }

  /** A result is written once: whatever happens later, the answer and the request stay the same. */
  lemma {:induction false} WriteOnce(s: State, es: seq<Step>, id: nat)
    requires Runs(s, es) && id < |s.calls|
    ensures id < |Exec(s, es).calls|
    ensures Exec(s, es).calls[id].request == s.calls[id].request
    ensures s.calls[id].cell.Completed? ==> Exec(s, es).calls[id].cell == s.calls[id].cell
    ensures s.calls[id].pc.Returned? ==> Exec(s, es).calls[id].pc == s.calls[id].pc
    decreases |es|
  {
    if es != [] {
      WrittenOnceInStep(s, es[0], id);
      WriteOnce(Apply(s, es[0]), es[1..], id);
    }
  }

  /** What a producer gets back is the one result, and it answers the producer's own request. */
  lemma AnswersMatch(es: seq<Step>, id: nat)
    requires Runs(INITIAL, es) && id < |Exec(INITIAL, es).calls|
    ensures var s := Exec(INITIAL, es);
            var c := s.calls[id];
            && (c.pc.Returned? ==> c.cell.Completed? && c.pc.value == c.cell.result)
            && (c.cell.Completed? && c.cell.who == ByStop ==>
                  c.cell.result == ExecutionResult(Response(c.request.operation, c.request.requestId, Status.ShuttingDown), false))
            && (c.cell.Completed? && (c.cell.who == ByProducer || c.cell.who == ByDrain(false)) ==>
                  c.cell.result == ExecutionResult(Response(c.request.operation, c.request.requestId, RuntimeUnavailable), false))
            && (c.cell.Completed? && c.cell.result.shutdownAfterResponse ==> id in s.handed)
  {
    InitialInv();
    InvOfRun(INITIAL, es);
    assert CellOk(Exec(INITIAL, es), id);
  }

  /** A request that `Stop` answered was never handed to the handler and never will be. */
  lemma StoppedNeverRuns(es: seq<Step>, fs: seq<Step>, id: nat)
    requires Runs(INITIAL, es) && Runs(Exec(INITIAL, es), fs)
    requires id < |Exec(INITIAL, es).calls|
    requires Exec(INITIAL, es).calls[id].cell.Completed? && Exec(INITIAL, es).calls[id].cell.who == ByStop
    ensures id !in Exec(Exec(INITIAL, es), fs).handed
  {
    InitialInv();
    InvOfRun(INITIAL, es);
    InvOfRun(Exec(INITIAL, es), fs);
    WriteOnce(Exec(INITIAL, es), fs, id);
    assert CellOk(Exec(Exec(INITIAL, es), fs), id);
  }

  const PROBE := Request(GetRuntimeInfo, 1, false, 0, 0, 0)

  /**
   The same is not true of RuntimeUnavailable: a drain may pick the request up before the
   producer learns that its wake failed, and then the request runs although it is refused.
   */
  lemma UnavailableMayHaveRun()
    ensures exists es: seq<Step> ::
      && Runs(INITIAL, es)
      && |Exec(INITIAL, es).calls| == 1
      && Exec(INITIAL, es).calls[0].pc == Returned(TerminalResult(PROBE, RuntimeUnavailable))
      && Exec(INITIAL, es).handed == [0]
  {
    var es: seq<Step> := [];
    es := Extended(es, Start(1, true, true));
    es := Extended(es, Enqueue(PROBE, 2));
    es := Extended(es, BeginDrain);
    es := Extended(es, Look(0));
    es := Extended(es, Wake(0, false));
    es := Extended(es, Withdraw(0));
    es := Extended(es, GiveUp(0));
    es := Extended(es, Return(0));
  }

  lemma Extended(es: seq<Step>, e: Step) returns (fs: seq<Step>)
    requires Runs(INITIAL, es) && Enabled(Exec(INITIAL, es), e)
    ensures Runs(INITIAL, fs) && Exec(INITIAL, fs) == Apply(Exec(INITIAL, es), e)
  {
    Extend(INITIAL, es, e);
    fs := es + [e];
  }

  // ---------------------------------------------------------------- every producer is released

  /** The steps that the threads already inside the bridge, and the main thread's pump, owe. */
  predicate Internal(s: State, e: Step) {
    Enabled(s, e) && !e.Start? && !e.Enqueue? && !e.BeginStop? && (e.BeginDrain? ==> s.wakes > 0)
  }

  function PcWeight(c: Call): nat {
    match c.pc
    case Enqueued => 5
    case WakeFailed => 3
    case Withdrawn => 2
    case Waiting => 1
    case Returned(_) => 0
  }

  function CallsWeight(calls: seq<Call>): nat {
    if calls == [] then 0 else CallsWeight(calls[..|calls| - 1]) + PcWeight(calls[|calls| - 1])
  }

  function FrameWeight(fr: Frame): nat {
    if fr.Stopping? || fr.rest == [] then 3 * |fr.rest|
    else 3 * |fr.rest| - (match fr.phase case Looking => 0 case Running => 1 case Finishing(_, _) => 2)
  }

  function FramesWeight(frames: seq<Frame>): nat {
    if frames == [] then 0 else FramesWeight(frames[..|frames| - 1]) + FrameWeight(frames[|frames| - 1])
  }

  /** An upper bound on the internal steps that are still possible. */
  function Work(s: State): nat {
    CallsWeight(s.calls) + FramesWeight(s.frames) + 3 * |s.queue| + s.wakes
  }

  lemma {:induction false} CallsWeightUpdate(calls: seq<Call>, i: nat, c: Call)
    requires i < |calls|
    ensures CallsWeight(calls[i := c]) == CallsWeight(calls) - PcWeight(calls[i]) + PcWeight(c)
    decreases |calls|
  {
    var n := |calls| - 1;
    if i == n {
      assert calls[i := c][..n] == calls[..n];
    } else {
      assert calls[i := c][..n] == calls[..n][i := c];
      CallsWeightUpdate(calls[..n], i, c);
    }
  }

  lemma {:induction false} FramesWeightUpdate(frames: seq<Frame>, i: nat, fr: Frame)
    requires i < |frames|
    ensures FramesWeight(frames[i := fr]) == FramesWeight(frames) - FrameWeight(frames[i]) + FrameWeight(fr)
    decreases |frames|
  {
    var n := |frames| - 1;
    if i == n {
      assert frames[i := fr][..n] == frames[..n];
    } else {
      assert frames[i := fr][..n] == frames[..n][i := fr];
      FramesWeightUpdate(frames[..n], i, fr);
    }
  }

  lemma ProducerStepWorks(s: State, e: Step)
    requires Internal(s, e) && (e.Wake? || e.Withdraw? || e.GiveUp? || e.Return?)
    ensures Work(Apply(s, e)) < Work(s)
  {
    CallsWeightUpdate(s.calls, e.call, Apply(s, e).calls[e.call]);
  }

  lemma SettleWorks(s: State, e: Step)
    requires Internal(s, e) && (e.StopOne? || e.Finish?)
    ensures Work(Apply(s, e)) < Work(s)
  {
    var t, f := Apply(s, e), e.frame;
    CallsWeightUpdate(s.calls, s.frames[f].rest[0], t.calls[s.frames[f].rest[0]]);
    FramesWeightUpdate(s.frames, f, t.frames[f]);
  }

  lemma DrainStepWorks(s: State, e: Step)
    requires Internal(s, e) && (e.Look? || e.HandlerReturns?)
    ensures Work(Apply(s, e)) < Work(s)
  {
    FramesWeightUpdate(s.frames, e.frame, Apply(s, e).frames[e.frame]);
  }

  /** Every internal step uses up work, whichever way the wake or the handler turns out. */
  lemma InternalStepWorks(s: State, e: Step)
    requires Internal(s, e)
    ensures Work(Apply(s, e)) < Work(s)
  {
    match e {
      case BeginDrain => assert Apply(s, e).frames[..|s.frames|] == s.frames;
      case StopOne(_) => SettleWorks(s, e);
      case Finish(_) => SettleWorks(s, e);
      case Look(_) => DrainStepWorks(s, e);
      case HandlerReturns(_, _) => DrainStepWorks(s, e);
      case _ => ProducerStepWorks(s, e);
    }
  }

  /** Nobody is stuck: while some producer has not returned, an internal step is possible. */
  lemma Unblocked(s: State, id: nat) returns (e: Step)
    requires Inv(s) && id < |s.calls| && !s.calls[id].pc.Returned?
    ensures Internal(s, e)
  {
    var c := s.calls[id];
    assert CellOk(s, id) && WaitOk(s, id);
    match c.pc {
      case Enqueued => e := Wake(id, false);
      case WakeFailed => e := Withdraw(id);
      case Withdrawn => e := GiveUp(id);
      case Waiting =>
        if c.cell.Completed? { e := Return(id); }
        else if Queued(s, id) && MayDrain(s) { e := BeginDrain; }
        else {
          var f: nat :| f < |s.frames| && if Queued(s, id) then Active(s, f) else HeldBy(s, f, id);
          if s.frames[f].Stopping? {
            assert s.frames[f].rest[0] in s.frames[f].rest;
            e := StopOne(f);
          } else {
            var t := TopOf(s, f);
            DrainStepEnabled(s, t);
            e := DrainStep(s, t);
          }
        }
    }
  }

  ghost predicate InternalRun(s: State, es: seq<Step>)
    decreases |es|
  {
    es == [] || (Internal(s, es[0]) && InternalRun(Apply(s, es[0]), es[1..]))
  }

  lemma {:induction false} InternalRunIsRun(s: State, es: seq<Step>)
    requires InternalRun(s, es)
    ensures Runs(s, es)
    decreases |es|
  {
    if es != [] { InternalRunIsRun(Apply(s, es[0]), es[1..]); }
  }

  predicate AllReturned(s: State) {
    forall id :: 0 <= id < |s.calls| ==> s.calls[id].pc.Returned?
  }

  /**
   Internal steps cannot go on for ever, and however they were scheduled so far, they go on
   until every producer has returned.
   */
  lemma {:induction false} EveryProducerReturns(s: State, es: seq<Step>)
    requires Inv(s) && InternalRun(s, es)
    ensures |es| <= Work(s)
    ensures Runs(s, es)
    ensures (forall e :: !Internal(Exec(s, es), e)) ==> AllReturned(Exec(s, es))
    decreases |es|
  {
    if es == [] {
      if (forall e :: !Internal(s, e)) && !AllReturned(s) {
        var id: nat :| id < |s.calls| && !s.calls[id].pc.Returned?;
        var e := Unblocked(s, id);
        assert false;
      }
    } else {
      InternalRunIsRun(s, es);
      Preserved(s, es[0]);
      InternalStepWorks(s, es[0]);
      EveryProducerReturns(Apply(s, es[0]), es[1..]);
    }
  }

  /** Some schedule of internal steps does bring every producer home. */
  lemma {:induction false} CompletionExists(s: State) returns (es: seq<Step>)
    requires Inv(s)
    ensures InternalRun(s, es) && Runs(s, es) && AllReturned(Exec(s, es))
    decreases Work(s)
  {
    if AllReturned(s) {
      es := [];
    } else {
      var id: nat :| id < |s.calls| && !s.calls[id].pc.Returned?;
      var e := Unblocked(s, id);
      Preserved(s, e);
      InternalStepWorks(s, e);
      var tail := CompletionExists(Apply(s, e));
      es := [e] + tail;
      assert es[1..] == tail;
    }
  }

  predicate StepOf(e: Step, id: nat) {
    match e
    case Wake(c, _) => c == id
    case Withdraw(c) => c == id
    case GiveUp(c) => c == id
    case Return(c) => c == id
    case _ => false
  }

  /** The steps a producer still has to take itself. */
  function OwnSteps(c: Call): nat {
    match c.pc
    case Enqueued => 4
    case WakeFailed => 3
    case Withdrawn => 2
    case Waiting => 1
    case Returned(_) => 0
  }

  /**
   Once `Stop` has swapped the queue and no batch is being worked on, a producer needs nobody else:
   at most four of its own steps take it home, even when its wake fails.
   */
  lemma StoppedProducerReturnsAlone(s: State, id: nat) returns (es: seq<Step>)
    requires Inv(s) && !s.accepting && id < |s.calls|
    requires forall f :: 0 <= f < |s.frames| ==> s.frames[f].rest == []
    ensures |es| == OwnSteps(s.calls[id]) && Runs(s, es)
    ensures id < |Exec(s, es).calls| && Exec(s, es).calls[id].pc.Returned?
    ensures forall k :: 0 <= k < |es| ==> StepOf(es[k], id)
    decreases OwnSteps(s.calls[id])
  {
    if s.calls[id].pc.Returned? { return []; }
    var e := OwnStep(s, id);
    var tail := StoppedProducerReturnsAlone(Apply(s, e), id);
    es := [e] + tail;
    assert es[1..] == tail;
  }

  /** Its next step is one of its own, and the bridge stays stopped. */
  lemma OwnStep(s: State, id: nat) returns (e: Step)
    requires Inv(s) && !s.accepting && id < |s.calls| && !s.calls[id].pc.Returned?
    requires forall f :: 0 <= f < |s.frames| ==> s.frames[f].rest == []
    ensures Enabled(s, e) && StepOf(e, id) && Inv(Apply(s, e))
    ensures !Apply(s, e).accepting && Apply(s, e).frames == s.frames && |Apply(s, e).calls| == |s.calls|
    ensures OwnSteps(Apply(s, e).calls[id]) == OwnSteps(s.calls[id]) - 1
  {
    assert WaitOk(s, id) && CellOk(s, id);
    e := match s.calls[id].pc
      case Enqueued => Wake(id, false)
      case WakeFailed => Withdraw(id)
      case Withdrawn => GiveUp(id)
      case _ => Return(id);
    Preserved(s, e);
  }

  // ---------------------------------------------------------------- execution order

  /** Drain `f` will still hand call `x` out, unless someone answers it first. */
  predicate Pending(s: State, f: nat, x: nat) {
    && Active(s, f) && s.frames[f].handler && x in s.frames[f].rest
    && x < |s.calls| && s.calls[x].cell.Open? && x !in s.handed
  }

  /** Calls went out in enqueue order, and at most one drain still has calls to hand out, all newer. */
  ghost predicate Orderly(s: State) {
    && Sorted(s.handed)
    && (forall f: nat, x: nat, h :: Pending(s, f, x) && h in s.handed ==> h < x)
    && (forall f: nat, x: nat, g: nat, y: nat :: Pending(s, f, x) && Pending(s, g, y) ==> f == g)
  }

  predicate OpenQueued(s: State, q: nat) {
    q in s.queue && q < |s.calls| && s.calls[q].cell.Open?
  }

  /** A drain that began now would find calls to hand out while another one still holds some. */
  ghost predicate Risky(s: State) {
    && s.hasHandler
    && (exists q: nat :: OpenQueued(s, q))
    && (exists f: nat, x: nat :: Pending(s, f, x))
  }

  /** No drain of the run begins at risk. */
  ghost predicate NeverRisky(s: State, es: seq<Step>)
    requires Runs(s, es)
    decreases |es|
  {
    es == [] || ((es[0].BeginDrain? ==> !Risky(s)) && NeverRisky(Apply(s, es[0]), es[1..]))
  }

  lemma PendingShrinksInFrame(s: State, e: Step, f: nat, x: nat)
    requires PlacesOk(s) && Enabled(s, e) && (e.StopOne? || e.Look? || e.HandlerReturns? || e.Finish?)
    requires Pending(Apply(s, e), f, x)
    ensures Pending(s, f, x)
  {
    TailOfSorted(s.frames[e.frame].rest);
    if f != e.frame { assert Apply(s, e).frames[f] == s.frames[f]; }
  }

  lemma PendingShrinksOutside(s: State, e: Step, f: nat, x: nat)
    requires PlacesOk(s) && Enabled(s, e) && !e.StopOne? && !e.Look? && !e.HandlerReturns? && !e.Finish? && !e.BeginDrain?
    requires Pending(Apply(s, e), f, x)
    ensures Pending(s, f, x)
  {
    if f < |s.frames| { assert Apply(s, e).frames[f] == s.frames[f]; }
  }

  /** Only a drain that begins adds calls to hand out. */
  lemma PendingShrinks(s: State, e: Step, f: nat, x: nat)
    requires Inv(s) && Enabled(s, e) && !e.BeginDrain? && Pending(Apply(s, e), f, x)
    ensures Pending(s, f, x)
  {
    if e.StopOne? || e.Look? || e.HandlerReturns? || e.Finish? { PendingShrinksInFrame(s, e, f, x); }
    else { PendingShrinksOutside(s, e, f, x); }
  }

  lemma OrderAfterLook(s: State, f: nat)
    requires Inv(s) && Orderly(s) && Enabled(s, Look(f)) && s.frames[f].handler
    requires s.calls[s.frames[f].rest[0]].cell.Open?
    ensures Orderly(Apply(s, Look(f)))
  {
    var t, id := Apply(s, Look(f)), s.frames[f].rest[0];
    LookedAtIsFresh(s, f);
    TailOfSorted(s.frames[f].rest);
    assert Pending(s, f, id);
    assert forall k :: 0 <= k < |s.handed| ==> s.handed[k] in s.handed;
    forall g: nat, y: nat | Pending(t, g, y) ensures Pending(s, g, y) && g == f && id < y {
      PendingShrinks(s, Look(f), g, y);
    }
  }

  lemma OrderAfterOther(s: State, e: Step)
    requires Inv(s) && Orderly(s) && Enabled(s, e) && !e.BeginDrain? && Apply(s, e).handed == s.handed
    ensures Orderly(Apply(s, e))
  {
    forall f: nat, x: nat | Pending(Apply(s, e), f, x) ensures Pending(s, f, x) {
      PendingShrinks(s, e, f, x);
    }
  }

  lemma OrderAfterBeginDrain(s: State)
    requires Inv(s) && Orderly(s) && Enabled(s, BeginDrain) && !Risky(s)
    ensures Orderly(Apply(s, BeginDrain))
  {
    var t, n := Apply(s, BeginDrain), |s.frames|;
    forall f: nat, x: nat | Pending(t, f, x)
      ensures if f == n then s.hasHandler && OpenQueued(s, x) else Pending(s, f, x)
    {
      if f < n { assert t.frames[f] == s.frames[f]; }
    }
  }

  lemma OrderPreserved(s: State, e: Step)
    requires Inv(s) && Orderly(s) && Enabled(s, e) && (e.BeginDrain? ==> !Risky(s))
    ensures Orderly(Apply(s, e))
  {
    if e.BeginDrain? {
      OrderAfterBeginDrain(s);
    } else if e.Look? && s.frames[e.frame].handler && s.calls[s.frames[e.frame].rest[0]].cell.Open? {
      OrderAfterLook(s, e.frame);
    } else {
      OrderAfterOther(s, e);
    }
  }

  lemma {:induction false} EnqueueOrder(s: State, es: seq<Step>)
    requires Inv(s) && Orderly(s) && Runs(s, es) && NeverRisky(s, es)
    ensures Inv(Exec(s, es)) && Orderly(Exec(s, es))
    decreases |es|
  {
    if es != [] {
      Preserved(s, es[0]);
      OrderPreserved(s, es[0]);
      EnqueueOrder(Apply(s, es[0]), es[1..]);
    }
  }

  /** The handler gets the requests in enqueue order in every run whose drains avoid the risk. */
  lemma EnqueueOrderFromStart(es: seq<Step>)
    requires Runs(INITIAL, es) && NeverRisky(INITIAL, es)
    ensures Sorted(Exec(INITIAL, es).handed) && Orderly(Exec(INITIAL, es))
  {
    InitialInv();
    EnqueueOrder(INITIAL, es);
  }

  /** The drain on top of `f`, or `f` itself. */
  lemma {:induction false} TopOf(s: State, f: nat) returns (t: nat)
    requires Active(s, f)
    ensures f <= t && Active(s, t) && OnTop(s, t)
    decreases |s.frames| - f
  {
    if OnTop(s, f) {
      t := f;
    } else {
      var g :| f < g < |s.frames| && Active(s, g);
      t := TopOf(s, g);
    }
  }

  /** What the main thread does next in the drain it is in. */
  function DrainStep(s: State, f: nat): Step
    requires Active(s, f)
  {
    match s.frames[f].phase
    case Looking => Look(f)
    case Running => HandlerReturns(f, TerminalResult(PROBE, Ok))
    case Finishing(_, _) => Finish(f)
  }

  lemma DrainStepEnabled(s: State, f: nat)
    requires Inv(s) && Active(s, f) && OnTop(s, f)
    ensures Internal(s, DrainStep(s, f))
  {
    assert s.frames[f].rest[0] in s.frames[f].rest;
  }

  predicate IsDrainStep(e: Step) {
    e.Look? || e.HandlerReturns? || e.Finish?
  }

  lemma LookKeepsPending(s: State, t: nat, f: nat, x: nat)
    requires Inv(s) && Enabled(s, Look(t)) && Pending(s, f, x)
    ensures var u := Apply(s, Look(t)); Pending(u, f, x) || (f == t && u.handed == s.handed + [x])
  {
    var head := s.frames[t].rest[0];
    assert head in s.frames[t].rest;
    TailOfSorted(s.frames[t].rest);
    if f != t { assert Apply(s, Look(t)).frames[f] == s.frames[f] && x != head; }
  }

  lemma FinishKeepsPending(s: State, t: nat, f: nat, x: nat)
    requires Inv(s) && Enabled(s, Finish(t)) && Pending(s, f, x)
    ensures Pending(Apply(s, Finish(t)), f, x)
  {
    var head := s.frames[t].rest[0];
    assert head in s.frames[t].rest && FrameOk(s, s.frames[t]);
    TailOfSorted(s.frames[t].rest);
    if f != t { assert Apply(s, Finish(t)).frames[f] == s.frames[f] && x != head; }
  }

  /** The step keeps every call to hand out, except the one it does hand out. */
  lemma DrainStepKeepsPending(s: State, t: nat, f: nat, x: nat)
    requires Inv(s) && Active(s, t) && OnTop(s, t) && Enabled(s, DrainStep(s, t)) && Pending(s, f, x)
    ensures var u := Apply(s, DrainStep(s, t)); Pending(u, f, x) || (f == t && u.handed == s.handed + [x])
  {
    match s.frames[t].phase {
      case Looking => LookKeepsPending(s, t, f, x);
      case Running =>
      case Finishing(_, _) => FinishKeepsPending(s, t, f, x);
    }
  }

  /** One step towards handing a pending call out. */
  lemma HandsOutStep(s: State, f: nat, x: nat) returns (e: Step)
    requires Inv(s) && Pending(s, f, x)
    ensures Internal(s, e) && IsDrainStep(e) && Inv(Apply(s, e)) && Work(Apply(s, e)) < Work(s)
    ensures Pending(Apply(s, e), f, x) || x in Apply(s, e).handed
    ensures s.handed <= Apply(s, e).handed
    ensures forall g: nat, y: nat :: g < f && Pending(s, g, y) ==> Pending(Apply(s, e), g, y)
  {
    var t := TopOf(s, f);
    e := DrainStep(s, t);
    DrainStepEnabled(s, t);
    DrainStepKeepsPending(s, t, f, x);
    Preserved(s, e);
    InternalStepWorks(s, e);
    forall g: nat, y: nat | g < f && Pending(s, g, y) ensures Pending(Apply(s, e), g, y) {
      DrainStepKeepsPending(s, t, g, y);
    }
  }

  /**
   The main thread alone, without beginning another drain, comes to hand a pending call out; calls
   pending further down the stack stay pending meanwhile.
   */
  lemma {:induction false} HandsOut(s: State, f: nat, x: nat) returns (es: seq<Step>)
    requires Inv(s) && Pending(s, f, x)
    ensures Runs(s, es) && Inv(Exec(s, es))
    ensures forall e :: e in es ==> IsDrainStep(e)
    ensures x in Exec(s, es).handed && s.handed <= Exec(s, es).handed
    ensures forall g: nat, y: nat :: g < f && Pending(s, g, y) ==> Pending(Exec(s, es), g, y)
    decreases Work(s)
  {
    var e := HandsOutStep(s, f, x);
    var u := Apply(s, e);
    if x in u.handed {
      es := [e];
      assert es[1..] == [];
    } else {
      var tail := HandsOut(u, f, x);
      es := [e] + tail;
      assert es[1..] == tail;
    }
  }

  /** Some continuation that begins no other drain hands calls out in another order. */
  ghost predicate MayDisorder(s: State) {
    exists es: seq<Step> :: Runs(s, es) && (forall e :: e in es ==> !e.BeginDrain?) && !Sorted(Exec(s, es).handed)
  }

  /**
   Where a drain can begin after an orderly past, order can be lost, without any further drain,
   exactly when the drain begins at risk: it will have a handler, an open call is queued, and a
   drain that waits in its handler still has an open call to hand out.
   */
  lemma OrderLostExactlyWhenRisky(s: State)
    requires Inv(s) && Orderly(s) && Enabled(s, BeginDrain)
    ensures MayDisorder(Apply(s, BeginDrain)) <==> Risky(s)
  {
    var t := Apply(s, BeginDrain);
    Preserved(s, BeginDrain);
    if Risky(s) {
      RiskyDisorders(s);
    } else {
      OrderAfterBeginDrain(s);
      forall es: seq<Step> | Runs(t, es) && (forall e :: e in es ==> !e.BeginDrain?)
        ensures Sorted(Exec(t, es).handed)
      {
        WithoutDrainsNeverRisky(t, es);
        EnqueueOrder(t, es);
      }
    }
  }

  lemma {:induction false} WithoutDrainsNeverRisky(s: State, es: seq<Step>)
    requires Runs(s, es) && forall e :: e in es ==> !e.BeginDrain?
    ensures NeverRisky(s, es)
    decreases |es|
  {
    if es != [] { WithoutDrainsNeverRisky(Apply(s, es[0]), es[1..]); }
  }

  lemma RiskyDisorders(s: State)
    requires Inv(s) && Enabled(s, BeginDrain) && Risky(s)
    ensures MayDisorder(Apply(s, BeginDrain))
  {
    var newer: nat :| OpenQueued(s, newer);
    var f: nat, older: nat :| Pending(s, f, older);
    Preserved(s, BeginDrain);
    RiskyPending(s, newer, f, older);
    UpperBatchFirst(Apply(s, BeginDrain), |s.frames|, newer, f, older);
  }

  /** The upper of two drains with calls to hand out goes first. */
  lemma UpperBatchFirst(s: State, n: nat, newer: nat, f: nat, older: nat)
    requires Inv(s) && Pending(s, n, newer) && Pending(s, f, older) && f < n && older < newer
    ensures MayDisorder(s)
  {
    var es := HandsOut(s, n, newer);
    var u := Exec(s, es);
    assert Pending(u, f, older);
    var fs := HandsOut(u, f, older);
    RunsConcat(s, es, fs);
    NotSorted(u.handed, Exec(u, fs).handed, newer, older);
    assert forall e :: e in es + fs <==> e in es || e in fs;
  }

  lemma RiskyPending(s: State, newer: nat, f: nat, older: nat)
    requires Inv(s) && Enabled(s, BeginDrain) && s.hasHandler && OpenQueued(s, newer) && Pending(s, f, older)
    ensures Pending(Apply(s, BeginDrain), |s.frames|, newer) && Pending(Apply(s, BeginDrain), f, older)
    ensures older < newer && f < |s.frames|
  {
    assert Apply(s, BeginDrain).frames[f] == s.frames[f];
  }

  lemma NotSorted(before: seq<nat>, after: seq<nat>, newer: nat, older: nat)
    requires before <= after && newer in before && older !in before && older in after && older < newer
    ensures !Sorted(after)
  {
    var i :| 0 <= i < |before| && before[i] == newer;
    var k :| 0 <= k < |after| && after[k] == older;
    assert forall m :: 0 <= m < |before| ==> after[m] == before[m] && before[m] in before;
  }

  /** From the start: two calls are batched, and a third is queued while the first is in the handler. */
  lemma NestedBatch() returns (es: seq<Step>)
    ensures Runs(INITIAL, es)
    ensures var s := Exec(INITIAL, es);
      && s.handed == [0] && s.queue == [2] && s.frames == [Drain([0, 1], true, Running)] && s.hasHandler
      && |s.calls| == 3 && forall id :: 0 <= id < 3 ==> s.calls[id] == Call(PROBE, true, Open, Enqueued)
  {
    es := [];
    es := Extended(es, Start(1, true, true));
    es := Extended(es, Enqueue(PROBE, 2));
    es := Extended(es, Enqueue(PROBE, 3));
    assert Exec(INITIAL, es).queue == [0, 1];
    es := Extended(es, BeginDrain);
    assert Exec(INITIAL, es).frames == [Drain([0, 1], true, Looking)];
    es := Extended(es, Look(0));
    es := Extended(es, Enqueue(PROBE, 4));
    assert Exec(INITIAL, es).queue == [2];
  }

  /** Then a second drain runs to its end inside that handler, before the handler returns. */
  lemma InnerDrain(es: seq<Step>) returns (fs: seq<Step>)
    requires Runs(INITIAL, es)
    requires Exec(INITIAL, es).frames == [Drain([0, 1], true, Running)] && Exec(INITIAL, es).hasHandler
    requires Exec(INITIAL, es).queue == [2] && |Exec(INITIAL, es).calls| == 3 && Exec(INITIAL, es).calls[2].cell.Open?
    ensures Runs(INITIAL, fs)
    ensures Exec(INITIAL, fs).frames == [Drain([0, 1], true, Running), Drain([], true, Looking)]
    ensures Exec(INITIAL, fs).handed == Exec(INITIAL, es).handed + [2]
    ensures |Exec(INITIAL, fs).calls| == 3 && Exec(INITIAL, fs).calls[..2] == Exec(INITIAL, es).calls[..2]
  {
    fs := Extended(es, BeginDrain);
    assert Exec(INITIAL, fs).frames == [Drain([0, 1], true, Running), Drain([2], true, Looking)];
    fs := Extended(fs, Look(1));
    fs := Extended(fs, HandlerReturns(1, TerminalResult(PROBE, Ok)));
    fs := Extended(fs, Finish(1));
    assert [2][1..] == [];
  }

  /** The outer batch goes on after it, and an older call is executed after a newer one. */
  lemma NestedDrainBreaksOrder()
    ensures exists es: seq<Step> :: Runs(INITIAL, es) && Exec(INITIAL, es).handed == [0, 2, 1]
  {
    var es := NestedBatch();
    assert Exec(INITIAL, es).calls[..2][1].cell.Open?;
    es := InnerDrain(es);
    es := Extended(es, HandlerReturns(0, TerminalResult(PROBE, Ok)));
    assert Exec(INITIAL, es).calls[..2][1] == Exec(INITIAL, es).calls[1];
    es := Extended(es, Finish(0));
    assert Exec(INITIAL, es).frames[0].rest[0] == 1;
    es := Extended(es, Look(0));
  }

  // ---------------------------------------------------------------- a wake that failed

  /** The call is out of the handler's reach: not handed out, not queued, held by no drain with a handler. */
  ghost predicate OutOfReach(s: State, id: nat) {
    && id < |s.calls| && id !in s.handed && !Queued(s, id)
    && forall f: nat :: HeldBy(s, f, id) ==> !ByHandler(s, f)
  }

  predicate ByHandler(s: State, f: nat) {
    f < |s.frames| && s.frames[f].Drain? && s.frames[f].handler
  }

  /** Drains that are left hold no more than before. */
  lemma OutOfReachCongruent(s: State, t: State, id: nat)
    requires OutOfReach(s, id) && |t.calls| >= |s.calls| && id !in t.handed && !Queued(t, id)
    requires forall f: nat :: HeldBy(t, f, id) && ByHandler(t, f) ==> HeldBy(s, f, id) && ByHandler(s, f)
    ensures OutOfReach(t, id)
  {
  }

  lemma OutOfReachAfterFrame(s: State, e: Step, id: nat)
    requires Inv(s) && Enabled(s, e) && OutOfReach(s, id)
    requires e.StopOne? || e.Look? || e.HandlerReturns? || e.Finish?
    ensures OutOfReach(Apply(s, e), id)
  {
    var t, k := Apply(s, e), e.frame;
    TailOfSorted(s.frames[k].rest);
    assert HeldBy(s, k, s.frames[k].rest[0]);
    forall f: nat | HeldBy(t, f, id) && ByHandler(t, f) ensures HeldBy(s, f, id) && ByHandler(s, f) {
      assert f != k ==> t.frames[f] == s.frames[f];
    }
    OutOfReachCongruent(s, t, id);
  }

  lemma OutOfReachStays(s: State, e: Step, id: nat)
    requires Inv(s) && Enabled(s, e) && OutOfReach(s, id)
    ensures OutOfReach(Apply(s, e), id)
  {
    var t := Apply(s, e);
    if e.StopOne? || e.Look? || e.HandlerReturns? || e.Finish? {
      OutOfReachAfterFrame(s, e, id);
    } else {
      forall f: nat | HeldBy(t, f, id) ensures !ByHandler(t, f) {
        assert f < |s.frames| ==> t.frames[f] == s.frames[f];
        assert HeldBy(s, f, id);
      }
    }
  }

  lemma {:induction false} OutOfReachForEver(s: State, es: seq<Step>, id: nat)
    requires Inv(s) && Runs(s, es) && OutOfReach(s, id)
    ensures id !in Exec(s, es).handed
    decreases |es|
  {
    if es != [] {
      Preserved(s, es[0]);
      OutOfReachStays(s, es[0], id);
      OutOfReachForEver(Apply(s, es[0]), es[1..], id);
    }
  }

  /** A call that its producer finds in the queue and erases was never executed and never will be. */
  lemma WithdrawnInTimeNeverRuns(es: seq<Step>, fs: seq<Step>, id: nat)
    requires Runs(INITIAL, es) && Enabled(Exec(INITIAL, es), Withdraw(id)) && Queued(Exec(INITIAL, es), id)
    requires Runs(Apply(Exec(INITIAL, es), Withdraw(id)), fs)
    ensures id !in Exec(INITIAL, es).handed
    ensures id !in Exec(Apply(Exec(INITIAL, es), Withdraw(id)), fs).handed
  {
    var s := Exec(INITIAL, es);
    var t := Apply(s, Withdraw(id));
    InitialInv();
    InvOfRun(INITIAL, es);
    Preserved(s, Withdraw(id));
    assert forall f: nat :: HeldBy(t, f, id) ==> HeldBy(s, f, id);
    OutOfReachForEver(t, fs, id);
  }

  /** The call has been handed out, or is on some continuation. */
  ghost predicate MayRun(s: State, id: nat) {
    exists fs: seq<Step> :: Runs(s, fs) && id in Exec(s, fs).handed
  }

  /**
   A call that its producer no longer finds in the queue, though nobody has answered it, is executed
   all the same, before or later, exactly when a drain with a handler holds it.
   */
  lemma WithdrawnTooLateMayRun(es: seq<Step>, id: nat)
    requires Runs(INITIAL, es) && Enabled(Exec(INITIAL, es), Withdraw(id)) && !Queued(Exec(INITIAL, es), id)
    requires Exec(INITIAL, es).calls[id].cell.Open?
    ensures MayRun(Apply(Exec(INITIAL, es), Withdraw(id)), id)
      <==> exists f: nat :: HeldBy(Exec(INITIAL, es), f, id) && ByHandler(Exec(INITIAL, es), f)
  {
    var s := Exec(INITIAL, es);
    var t := Apply(s, Withdraw(id));
    InitialInv();
    InvOfRun(INITIAL, es);
    Preserved(s, Withdraw(id));
    assert CellOk(s, id) && WaitOk(s, id);
    assert forall f: nat :: HeldBy(t, f, id) <==> HeldBy(s, f, id);
    if f: nat :| HeldBy(s, f, id) && ByHandler(s, f) {
      if id in s.handed {
        assert Runs(t, []) && id in Exec(t, []).handed;
      } else {
        assert Pending(t, f, id);
        var fs := HandsOut(t, f, id);
      }
    } else {
      var f: nat :| HeldBy(s, f, id);
      assert id in s.handed ==> ByHandler(s, f);
      forall fs: seq<Step> | Runs(t, fs) ensures id !in Exec(t, fs).handed {
        OutOfReachForEver(t, fs, id);
      }
    }
  }
}
