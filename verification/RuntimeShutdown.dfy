/**
 The pipe worker as a producer of the dispatch bridge, and the order in which App stops the two
 (App.cpp, StopRuntimeSources). The main thread first stops the bridge, then sets the stop event
 and joins the worker; while it joins it takes no step of its own.
 */
module RuntimeShutdown {
  import opened ControlProtocol
  import opened Options
  import B = DispatchBridge
  import R = DispatchBridgeRuns
  import W = PipeWorker
  import E = ControlExecution

  /** The worker's thread id; `Start` is never called with it. */
  const WORKER := -1

  /** `call` is the worker's queued `Dispatch`, if it has one. */
  datatype System = System(bridge: B.State, worker: W.Worker, call: Option<nat>)

  datatype Move =
    | Bridge(step: B.Step)
    | Work(outcome: W.Outcome)
    | Ask
    | Resume
    | SetStop

  const INITIAL := System(B.INITIAL, W.Started(true), None)

  /** The handler that App installs decides by `ExecuteRuntimeControlRequest`. */
  ghost predicate HandlerOk(b: B.State, e: B.Step)
    requires B.Enabled(b, e)
  {
    e.HandlerReturns? ==> E.Approved(b.calls[b.frames[e.frame].rest[0]].request, e.result)
  }

  ghost predicate Can(s: System, m: Move) {
    match m
    case Bridge(e) =>
      && B.Enabled(s.bridge, e) && HandlerOk(s.bridge, e)
      && (e.Start? ==> e.thread != WORKER) && (e.Enqueue? ==> e.thread != WORKER)
    case Work(o) => !s.worker.at.Dispatching? && W.Can(s.worker, o)
    case Ask => s.worker.at.Dispatching? && s.call == None && s.bridge.mainThread != WORKER
    case Resume => s.worker.at.Dispatching? && s.call.Some? && s.call.value < |s.bridge.calls|
                   && s.bridge.calls[s.call.value].pc.Returned?
    case SetStop => true
  }

  function Refusal(request: Request): W.Outcome {
    W.Answer(TerminalResult(request, Status.ShuttingDown))
  }

  ghost function Do(s: System, m: Move): System
    requires Can(s, m)
  {
    match m
    case Bridge(e) => s.(bridge := B.Apply(s.bridge, e))
    case Work(o) => s.(worker := W.Step(s.worker, o))
    case Ask =>
      var request := s.worker.at.request;
      if !s.bridge.accepting then s.(worker := W.Step(s.worker, Refusal(request)))
      else s.(bridge := B.Apply(s.bridge, B.Enqueue(request, WORKER)), call := Some(|s.bridge.calls|))
    case Resume =>
      s.(worker := W.Step(s.worker, W.Answer(s.bridge.calls[s.call.value].pc.value)), call := None)
    case SetStop => s.(worker := s.worker.(stop := true))
  }

  ghost predicate Runs(s: System, ms: seq<Move>)
    decreases |ms|
  {
    ms == [] || (Can(s, ms[0]) && Runs(Do(s, ms[0]), ms[1..]))
  }

  ghost function Exec(s: System, ms: seq<Move>): System
    requires Runs(s, ms)
    decreases |ms|
  {
    if ms == [] then s else Exec(Do(s, ms[0]), ms[1..])
  }

  // ---------------------------------------------------------------- invariants

  predicate Finishes(b: B.State, f: nat) {
    B.InPhase(b, f) && b.frames[f].phase.Finishing?
  }

  /** Every result, written or about to be written, is one that its request may get. */
  ghost predicate ResultsApproved(b: B.State) {
    && (forall id :: 0 <= id < |b.calls| && b.calls[id].cell.Completed? ==>
          E.Approved(b.calls[id].request, b.calls[id].cell.result))
    && (forall f :: 0 <= f < |b.frames| && Finishes(b, f) ==>
          E.Approved(b.calls[b.frames[f].rest[0]].request, b.frames[f].phase.result))
  }

  ghost predicate LogApproved(log: seq<W.Event>) {
    forall k :: 0 <= k < |log| && log[k].Dispatched? ==> E.Approved(log[k].request, log[k].result)
  }

  ghost predicate CallOk(s: System) {
    s.call.Some? ==>
      && s.call.value < |s.bridge.calls|
      && s.worker.at == W.Dispatching(s.bridge.calls[s.call.value].request)
  }

  ghost predicate Inv(s: System) {
    B.Inv(s.bridge) && W.Inv(s.worker) && CallOk(s) && ResultsApproved(s.bridge) && LogApproved(s.worker.log)
  }

  lemma ApprovedAfterFrame(b: B.State, e: B.Step)
    requires ResultsApproved(b) && B.Enabled(b, e) && HandlerOk(b, e) && (e.Look? || e.HandlerReturns?)
    ensures ResultsApproved(B.Apply(b, e))
  {
    var t := B.Apply(b, e);
    assert t.calls == b.calls;
    assert forall f :: 0 <= f < |b.frames| && f != e.frame ==> t.frames[f] == b.frames[f];
    forall f | 0 <= f < |t.frames| && Finishes(t, f)
      ensures E.Approved(t.calls[t.frames[f].rest[0]].request, t.frames[f].phase.result)
    {
      if f != e.frame { assert Finishes(b, f); }
    }
  }

  lemma ApprovedAfterSwap(b: B.State, e: B.Step)
    requires ResultsApproved(b) && B.Enabled(b, e) && (e.BeginStop? || e.BeginDrain?)
    ensures ResultsApproved(B.Apply(b, e))
  {
    var t := B.Apply(b, e);
    assert forall f :: 0 <= f < |t.frames| && Finishes(t, f) ==> f < |b.frames| && Finishes(b, f);
  }

  /** A new result in a cell is a terminal one or the one a finishing drain carries. */
  lemma ApprovedAfterBridge(b: B.State, e: B.Step)
    requires B.PlacesOk(b) && ResultsApproved(b) && B.Enabled(b, e) && HandlerOk(b, e)
    ensures ResultsApproved(B.Apply(b, e))
  {
    if e.StopOne? || e.Finish? {
      ApprovedAfterSettle(b, e);
    } else if e.Look? || e.HandlerReturns? {
      ApprovedAfterFrame(b, e);
    } else if e.BeginStop? || e.BeginDrain? {
      ApprovedAfterSwap(b, e);
    } else {
      ApprovedAfterProducer(b, e);
    }
  }

  lemma ApprovedAfterSettle(b: B.State, e: B.Step)
    requires B.PlacesOk(b) && ResultsApproved(b) && B.Enabled(b, e) && (e.StopOne? || e.Finish?)
    ensures ResultsApproved(B.Apply(b, e))
  {
  }

  lemma ApprovedAfterProducer(b: B.State, e: B.Step)
    requires B.PlacesOk(b) && ResultsApproved(b) && B.Enabled(b, e)
    requires e.Start? || e.Enqueue? || e.Wake? || e.Withdraw? || e.GiveUp? || e.Return?
    ensures ResultsApproved(B.Apply(b, e))
  {
    var t := B.Apply(b, e);
    assert t.frames == b.frames;
    forall id | 0 <= id < |t.calls| && t.calls[id].cell.Completed?
      ensures E.Approved(t.calls[id].request, t.calls[id].cell.result)
    {
      if id < |b.calls| { ApprovedCallAfterProducer(b, e, id); }
    }
    forall f | 0 <= f < |t.frames| && Finishes(t, f)
      ensures E.Approved(t.calls[t.frames[f].rest[0]].request, t.frames[f].phase.result)
    {
      var id := b.frames[f].rest[0];
      assert id in b.frames[f].rest && id < |b.calls| && Finishes(b, f);
      R.WrittenOnceInStep(b, e, id);
    }
  }

  lemma ApprovedCallAfterProducer(b: B.State, e: B.Step, id: nat)
    requires ResultsApproved(b) && B.Enabled(b, e) && id < |b.calls|
    requires e.Start? || e.Enqueue? || e.Wake? || e.Withdraw? || e.GiveUp? || e.Return?
    ensures var t := B.Apply(b, e);
            id < |t.calls| && (t.calls[id].cell.Completed? ==> E.Approved(t.calls[id].request, t.calls[id].cell.result))
  {
  }

  lemma LogAfterWork(w: W.Worker, o: W.Outcome)
    requires W.Inv(w) && W.Can(w, o) && LogApproved(w.log)
    requires w.at.Dispatching? ==> E.Approved(w.at.request, o.result)
    ensures LogApproved(W.Step(w, o).log)
  {
    W.StepKeepsInv(w, o);
  }

  lemma Preserved(s: System, m: Move)
    requires Inv(s) && Can(s, m)
    ensures Inv(Do(s, m))
  {
    match m {
      case Bridge(e) =>
        B.Preserved(s.bridge, e);
        ApprovedAfterBridge(s.bridge, e);
        if s.call.Some? { R.WrittenOnceInStep(s.bridge, e, s.call.value); }
      case Work(o) =>
        W.StepKeepsInv(s.worker, o);
        LogAfterWork(s.worker, o);
      case Ask =>
        if s.bridge.accepting {
          B.Preserved(s.bridge, B.Enqueue(s.worker.at.request, WORKER));
          ApprovedAfterBridge(s.bridge, B.Enqueue(s.worker.at.request, WORKER));
        } else {
          W.StepKeepsInv(s.worker, Refusal(s.worker.at.request));
          LogAfterWork(s.worker, Refusal(s.worker.at.request));
        }
      case Resume =>
        assert B.CellOk(s.bridge, s.call.value);
        var o := W.Answer(s.bridge.calls[s.call.value].pc.value);
        W.StepKeepsInv(s.worker, o);
        LogAfterWork(s.worker, o);
      case SetStop =>
    }
  }

  lemma {:induction false} InvOfRun(s: System, ms: seq<Move>)
    requires Inv(s) && Runs(s, ms)
    ensures Inv(Exec(s, ms))
    decreases |ms|
  {
    if ms != [] {
      Preserved(s, ms[0]);
      InvOfRun(Do(s, ms[0]), ms[1..]);
    }
  }

  /**
   Whenever the worker posts shutdown-ready, the handler has approved a RequestShutdown, its Ok
   response has been written and that connection has been closed, in this order, with nothing between.
   */
  lemma PostFollowsApprovedShutdown(ms: seq<Move>, k: nat)
    requires Runs(INITIAL, ms)
    requires k < |Exec(INITIAL, ms).worker.log| && Exec(INITIAL, ms).worker.log[k] == W.Posted
    ensures var log := Exec(INITIAL, ms).worker.log;
            && k >= 3 && log[k - 1] == W.Closed
            && log[k - 3].Dispatched? && log[k - 3].request.operation == RequestShutdown
            && log[k - 3].result.response.status == Ok
            && log[k - 2] == W.Written(log[k - 3].result.response)
  {
    B.InitialInv();
    W.StartedInv(true);
    InvOfRun(INITIAL, ms);
    assert W.EarnedPost(Exec(INITIAL, ms).worker.log, k);
  }

  /** Just before `k` an approved shutdown was answered, the answer written and the connection closed. */
  predicate Delivered(log: seq<W.Event>, k: nat) {
    && 3 <= k <= |log| && log[k - 3].Dispatched? && log[k - 3].result.shutdownAfterResponse
    && log[k - 2] == W.Written(log[k - 3].result.response) && log[k - 1] == W.Closed
  }

  lemma {:induction false} PostsInstalled(s: System, ms: seq<Move>)
    requires Runs(s, ms)
    ensures Exec(s, ms).worker.posts == s.worker.posts
    decreases |ms|
  {
    if ms != [] {
      PostsKept(s, ms[0]);
      PostsInstalled(Do(s, ms[0]), ms[1..]);
    }
  }

  lemma PostsKept(s: System, m: Move)
    requires Can(s, m)
    ensures Do(s, m).worker.posts == s.worker.posts
  {
  }

  /**
   Over every run, the event at a place in the log is a post if and only if an approved shutdown has
   just been delivered there. One that has been delivered last is posted by the worker's next step,
   unless the stop event has been set; then the worker is on its way out.
   */
  lemma PostedExactly(ms: seq<Move>)
    requires Runs(INITIAL, ms)
    ensures var w := Exec(INITIAL, ms).worker;
      && (forall k :: 0 <= k < |w.log| ==> (w.log[k] == W.Posted <==> Delivered(w.log, k)))
      && (Delivered(w.log, |w.log|) ==> w.at == W.PostReady(true) || (w.stop && (w.at.LoopTest? || w.at.Tail? || w.at.Exited?)))
  {
    B.InitialInv();
    W.StartedInv(true);
    InvOfRun(INITIAL, ms);
    PostsInstalled(INITIAL, ms);
    var w := Exec(INITIAL, ms).worker;
    forall k | 0 <= k <= |w.log| ensures W.EarnedPost(w.log, k) <==> Delivered(w.log, k) {
      EarnedIsDelivered(w.log, k);
    }
  }

  lemma EarnedIsDelivered(log: seq<W.Event>, k: nat)
    requires k <= |log|
    ensures W.EarnedPost(log, k) <==> Delivered(log, k)
  {
  }

  /** The step after the delivery, with the stop event unset, is the post, and no other step posts. */
  lemma PostComesNext(ms: seq<Move>, m: Move)
    requires Runs(INITIAL, ms) && Can(Exec(INITIAL, ms), m) && !Exec(INITIAL, ms).worker.stop
    ensures var w, t := Exec(INITIAL, ms).worker, Do(Exec(INITIAL, ms), m).worker;
      t.log == w.log + [W.Posted] <==> t != w && !m.SetStop? && Delivered(w.log, |w.log|)
  {
    var s := Exec(INITIAL, ms);
    var w, t := s.worker, Do(s, m).worker;
    PostedExactly(ms);
    RunsLonger(INITIAL, ms, m);
    PostedExactly(ms + [m]);
    PostsInstalled(INITIAL, ms);
    if t.log == w.log + [W.Posted] { DeliveredBefore(w.log, W.Posted); }
  }

  lemma DeliveredBefore(log: seq<W.Event>, e: W.Event)
    ensures Delivered(log + [e], |log|) <==> Delivered(log, |log|)
  {
  }

  // ---------------------------------------------------------------- the join

  /** A move of another thread than the main thread. */
  ghost predicate Joining(s: System, m: Move) {
    && Can(s, m) && !m.SetStop?
    && (m.Bridge? ==> m.step.Enqueue? || m.step.Wake? || m.step.Withdraw? || m.step.GiveUp? || m.step.Return?)
  }

  ghost predicate JoinRun(s: System, ms: seq<Move>)
    decreases |ms|
  {
    ms == [] || (Joining(s, ms[0]) && JoinRun(Do(s, ms[0]), ms[1..]))
  }

  lemma {:induction false} JoinRunIsRun(s: System, ms: seq<Move>)
    requires JoinRun(s, ms)
    ensures Runs(s, ms)
    decreases |ms|
  {
    if ms != [] { JoinRunIsRun(Do(s, ms[0]), ms[1..]); }
  }

  ghost predicate Quiet(s: System) {
    forall m :: !Joining(s, m)
  }

  /** The bridge refuses new calls and the stop event is set: the main thread is in `join`. */
  ghost predicate Stopped(s: System) {
    Inv(s) && !s.bridge.accepting && s.bridge.mainThread != WORKER && s.worker.stop
  }

  function JoinWork(s: System): nat {
    W.Rank(s.worker.at) + R.Work(s.bridge)
  }

  lemma JoiningWorks(s: System, m: Move)
    requires Stopped(s) && Joining(s, m)
    ensures Stopped(Do(s, m)) && JoinWork(Do(s, m)) < JoinWork(s)
  {
    Preserved(s, m);
    match m {
      case Bridge(e) => R.InternalStepWorks(s.bridge, e);
      case Work(o) => W.StopLeadsOut(s.worker, o);
      case Ask => W.StopLeadsOut(s.worker, Refusal(s.worker.at.request));
      case Resume => W.StopLeadsOut(s.worker, W.Answer(s.bridge.calls[s.call.value].pc.value));
    }
  }

  /** The worker sleeps in `Dispatch` on a request that only the main thread could still answer. */
  predicate Stranded(s: System) {
    && s.call.Some? && s.call.value < |s.bridge.calls|
    && s.bridge.calls[s.call.value].pc == B.Waiting && s.bridge.calls[s.call.value].cell.Open?
  }

  /** The worker sleeps on such a request, or will if the wake it is about to send gets through. */
  predicate AtRisk(s: System) {
    && s.call.Some? && s.call.value < |s.bridge.calls| && s.bridge.calls[s.call.value].cell.Open?
    && (s.bridge.calls[s.call.value].pc == B.Waiting
        || (s.bridge.calls[s.call.value].pc == B.Enqueued && s.bridge.calls[s.call.value].wake))
  }

  lemma SafeStaysSafe(s: System, m: Move)
    requires Stopped(s) && !AtRisk(s) && Joining(s, m)
    ensures !AtRisk(Do(s, m))
  {
  }

  lemma StrandedStays(s: System, m: Move)
    requires Inv(s) && Stranded(s) && Joining(s, m)
    ensures Stranded(Do(s, m)) && Do(s, m).worker == s.worker
  {
  }

  /** A worker that is not at risk can always go on until it has left. */
  lemma SafeWorkerMoves(s: System) returns (m: Move)
    requires Stopped(s) && !AtRisk(s) && s.worker.at != W.Exited
    ensures Joining(s, m)
  {
    if s.worker.at.Dispatching? {
      if s.call == None { return Ask; }
      var id := s.call.value;
      assert B.CellOk(s.bridge, id) && B.WaitOk(s.bridge, id);
      match s.bridge.calls[id].pc {
        case Enqueued => m := Bridge(B.Wake(id, false));
        case WakeFailed => m := Bridge(B.Withdraw(id));
        case Withdrawn => m := Bridge(B.GiveUp(id));
        case Waiting => m := Bridge(B.Return(id));
        case Returned(_) => m := Resume;
      }
    } else if W.Blocking(s.worker.at) {
      m := Work(W.Aborted);
    } else if s.worker.at.Decode? {
      m := Work(W.Frame(W.Unrelated));
    } else {
      m := Work(if W.Can(s.worker, W.Go) then W.Go else W.Yes);
    }
  }

  /** However the remaining threads are scheduled, the join is over within `JoinWork` moves. */
  lemma {:induction false} JoinTerminates(s: System, ms: seq<Move>)
    requires Stopped(s) && !AtRisk(s) && JoinRun(s, ms)
    ensures Runs(s, ms) && |ms| <= JoinWork(s)
    ensures Quiet(Exec(s, ms)) ==> Exec(s, ms).worker.at == W.Exited && !Exec(s, ms).worker.open
    decreases |ms|
  {
    if ms == [] {
      if s.worker.at != W.Exited {
        var m := SafeWorkerMoves(s);
      }
    } else {
      SafeStaysSafe(s, ms[0]);
      JoiningWorks(s, ms[0]);
      JoinTerminates(Do(s, ms[0]), ms[1..]);
    }
  }

  /** A stranded worker never leaves while the main thread waits for it. */
  lemma {:induction false} StrandedForEver(s: System, ms: seq<Move>)
    requires Inv(s) && Stranded(s) && JoinRun(s, ms)
    ensures Runs(s, ms) && Exec(s, ms).worker == s.worker && s.worker.at.Dispatching?
    decreases |ms|
  {
    if ms != [] {
      StrandedStays(s, ms[0]);
      Preserved(s, ms[0]);
      StrandedForEver(Do(s, ms[0]), ms[1..]);
    }
  }

  /** From any such state the remaining threads come to rest. */
  lemma {:induction false} ComesToRest(s: System) returns (ms: seq<Move>)
    requires Stopped(s)
    ensures JoinRun(s, ms) && Runs(s, ms) && Quiet(Exec(s, ms))
    decreases JoinWork(s)
  {
    if Quiet(s) {
      ms := [];
    } else {
      var m :| Joining(s, m);
      JoiningWorks(s, m);
      var tail := ComesToRest(Do(s, m));
      ms := [m] + tail;
      assert ms[1..] == tail;
    }
  }

  ghost predicate JoinAlwaysReturns(s: System) {
    forall ms: seq<Move> :: JoinRun(s, ms) && Runs(s, ms) && Quiet(Exec(s, ms)) ==> Exec(s, ms).worker.at == W.Exited
  }

  /**
   With the bridge stopped and the stop event set, the join returns on every schedule exactly when
   the worker is not at risk. It can be at risk only if the main thread began to stop while it was
   inside a drain that holds the worker's request.
   */
  lemma JoinReturnsExactlyWhenSafe(s: System)
    requires Stopped(s)
    ensures JoinAlwaysReturns(s) <==> !AtRisk(s)
  {
    if !AtRisk(s) {
      forall ms: seq<Move> | JoinRun(s, ms) && Runs(s, ms) && Quiet(Exec(s, ms))
        ensures Exec(s, ms).worker.at == W.Exited
      {
        JoinTerminates(s, ms);
      }
    } else {
      var ms := RiskStrands(s);
    }
  }

  lemma RiskStrands(s: System) returns (ms: seq<Move>)
    requires Stopped(s) && AtRisk(s)
    ensures JoinRun(s, ms) && Runs(s, ms) && Quiet(Exec(s, ms)) && Exec(s, ms).worker.at.Dispatching?
  {
    if Stranded(s) {
      ms := ComesToRest(s);
      StrandedForEver(s, ms);
    } else {
      var m := Bridge(B.Wake(s.call.value, true));
      JoiningWorks(s, m);
      var tail := ComesToRest(Do(s, m));
      StrandedForEver(Do(s, m), tail);
      ms := [m] + tail;
      assert ms[1..] == tail;
    }
  }

  /** Stopping the bridge first, outside any drain, leaves no worker at risk: the join returns. */
  lemma BridgeFirstIsSafe(s: System)
    requires Stopped(s) && forall f :: 0 <= f < |s.bridge.frames| ==> s.bridge.frames[f].rest == []
    ensures JoinAlwaysReturns(s)
  {
    if s.call.Some? { assert B.WaitOk(s.bridge, s.call.value); }
    JoinReturnsExactlyWhenSafe(s);
  }

  /** Setting the stop event before the bridge is stopped can strand the worker for ever. */
  lemma PipeFirstCanStrand() returns (s: System)
    ensures Reached(s) && Inv(s) && Stranded(s) && s.worker.stop && s.bridge.accepting
  {
    s := StartReached();
    s := ReadsShutdown(s);
    s := QueuesShutdown(s);
    s := ReachedNext(s, SetStop);
    ReachedInv(s);
  }

  /**
   A stop that begins inside a handler, while that handler's drain holds the worker's request, leaves
   the worker at risk though the bridge was stopped first, and the join does not always return.
   */
  lemma StopInsideDrainCanHang() returns (s: System)
    ensures Reached(s) && Stopped(s) && AtRisk(s) && !JoinAlwaysReturns(s)
  {
    s := WaitsForAnswer();
    s := HandsShutdownOver(s);
    s := ReachedNext(s, Bridge(B.BeginStop));
    s := ReachedNext(s, SetStop);
    ReachedInv(s);
    JoinReturnsExactlyWhenSafe(s);
  }

  lemma ReachedInv(s: System)
    requires Reached(s)
    ensures Inv(s)
  {
    var ms: seq<Move> :| Runs(INITIAL, ms) && Exec(INITIAL, ms) == s;
    B.InitialInv();
    W.StartedInv(true);
    InvOfRun(INITIAL, ms);
  }

  const SHUTDOWN := Request(RequestShutdown, 1, false, 0, 0, 0)
  const APPROVAL := ExecutionResult(Response(RequestShutdown, 1, Ok), true)

  ghost predicate Reached(s: System) {
    exists ms: seq<Move> :: Runs(INITIAL, ms) && Exec(INITIAL, ms) == s
  }

  lemma ReachedNext(s: System, m: Move) returns (t: System)
    requires Reached(s) && Can(s, m)
    ensures t == Do(s, m) && Reached(t)
  {
    var ms: seq<Move> :| Runs(INITIAL, ms) && Exec(INITIAL, ms) == s;
    t := Do(s, m);
    var more := Extended(ms, m);
  }

  const STARTED := B.Apply(B.INITIAL, B.Start(1, true, true))

  lemma StartReached() returns (s: System)
    ensures Reached(s) && s == System(STARTED, W.Started(true), None)
  {
    assert Runs(INITIAL, []);
    s := ReachedNext(INITIAL, Bridge(B.Start(1, true, true)));
  }

  lemma ConnectsClient(s: System) returns (t: System)
    requires Reached(s) && s.worker == W.Started(true)
    ensures Reached(t) && t == s.(worker := W.Started(true).(at := W.ReadStart))
  {
    t := ReachedNext(s, Work(W.Go));
    t := ReachedNext(t, Work(W.Yes));
    t := ReachedNext(t, Work(W.Go));
    t := ReachedNext(t, Work(W.Yes));
  }

  /** A client whose request arrives after a wait. */
  lemma ReadsShutdown(s: System) returns (t: System)
    requires Reached(s) && s.worker == W.Started(true)
    ensures Reached(t) && t == s.(worker := W.Started(true).(at := W.Dispatching(SHUTDOWN)))
  {
    t := ConnectsClient(s);
    t := ReachedNext(t, Work(W.Pending));
    t := ReachedNext(t, Work(W.Yes));
    t := ReachedNext(t, Work(W.Frame(W.Valid(SHUTDOWN))));
  }

  /** It is queued, and its wake delivered. */
  lemma QueuesShutdown(s: System) returns (t: System)
    requires Reached(s) && s.bridge == STARTED && s.call == None && s.worker.at == W.Dispatching(SHUTDOWN)
    ensures Reached(t) && t.worker == s.worker && t.call == Some(0) && t.bridge == QUEUED
  {
    t := ReachedNext(s, Ask);
    assert t.bridge.queue == [0];
    t := ReachedNext(t, Bridge(B.Wake(0, true)));
  }

  const QUEUED := STARTED.(queue := [0], calls := [B.Call(SHUTDOWN, true, B.Open, B.Waiting)], wakes := 1)

  /** The main thread drains it and hands it to the handler. */
  lemma HandsShutdownOver(s: System) returns (t: System)
    requires Reached(s) && s.call == Some(0) && s.bridge == QUEUED
    ensures Reached(t) && t.worker == s.worker && t.call == Some(0)
    ensures t.bridge.frames == [B.Drain([0], true, B.Running)] && t.bridge.calls == QUEUED.calls
    ensures t.bridge.mainThread == STARTED.mainThread
  {
    t := ReachedNext(s, Bridge(B.BeginDrain));
    assert t.bridge.frames == [B.Drain([0], true, B.Looking)];
    t := ReachedNext(t, Bridge(B.Look(0)));
  }

  /** The handler approves it. */
  lemma ApprovesShutdown(s: System) returns (t: System)
    requires Reached(s) && s.call == Some(0)
    requires s.bridge.frames == [B.Drain([0], true, B.Running)] && s.bridge.calls == QUEUED.calls
    ensures Reached(t) && t.worker == s.worker && t.call == Some(0)
    ensures t.bridge.calls == [B.Call(SHUTDOWN, true, B.Completed(APPROVAL, B.ByDrain(true)), B.Waiting)]
  {
    t := ReachedNext(s, Bridge(B.HandlerReturns(0, APPROVAL)));
    assert t.bridge.frames == [B.Drain([0], true, B.Finishing(APPROVAL, true))];
    t := ReachedNext(t, Bridge(B.Finish(0)));
  }

  lemma ObtainsApproval(s: System) returns (t: System)
    requires Reached(s) && s.call == Some(0) && s.worker == W.Started(true).(at := W.Dispatching(SHUTDOWN))
    requires s.bridge.calls == [B.Call(SHUTDOWN, true, B.Completed(APPROVAL, B.ByDrain(true)), B.Waiting)]
    ensures Reached(t) && t.worker == W.Started(true).(
      at := W.Encode(APPROVAL.response, true), log := [W.Dispatched(SHUTDOWN, APPROVAL)])
  {
    t := ReachedNext(s, Bridge(B.Return(0)));
    t := ReachedNext(t, Resume);
  }

  /** The answer is written after a wait. */
  lemma WritesApproval(s: System) returns (t: System)
    requires Reached(s) && s.worker == W.Started(true).(
      at := W.Encode(APPROVAL.response, true), log := [W.Dispatched(SHUTDOWN, APPROVAL)])
    ensures Reached(t) && t.worker == W.Started(true).(
      at := W.DrainStart(true), log := [W.Dispatched(SHUTDOWN, APPROVAL), W.Written(APPROVAL.response)])
  {
    t := ReachedNext(s, Work(W.Yes));
    t := ReachedNext(t, Work(W.Pending));
    t := ReachedNext(t, Work(W.Yes));
  }

  /** The client is gone; the connection is closed, and the post made. */
  lemma PostsShutdown(s: System) returns (t: System)
    requires Reached(s) && s.worker == W.Started(true).(
      at := W.DrainStart(true), log := [W.Dispatched(SHUTDOWN, APPROVAL), W.Written(APPROVAL.response)])
    ensures Reached(t)
    ensures t.worker.log == [W.Dispatched(SHUTDOWN, APPROVAL), W.Written(APPROVAL.response), W.Closed, W.Posted]
  {
    t := ReachedNext(s, Work(W.No));
    t := ReachedNext(t, Work(W.Go));
    t := ReachedNext(t, Work(W.Go));
  }

  lemma WaitsForAnswer() returns (s: System)
    ensures Reached(s) && s.bridge == QUEUED && s.call == Some(0)
    ensures s.worker == W.Started(true).(at := W.Dispatching(SHUTDOWN))
  {
    s := StartReached();
    s := ReadsShutdown(s);
    s := QueuesShutdown(s);
  }

  /** From the start: an approved shutdown is delivered, with a read and a write that block first, and posted. */
  lemma ShutdownIsPosted() returns (s: System)
    ensures Reached(s)
    ensures s.worker.log == [W.Dispatched(SHUTDOWN, APPROVAL), W.Written(APPROVAL.response), W.Closed, W.Posted]
  {
    s := WaitsForAnswer();
    s := HandsShutdownOver(s);
    s := ApprovesShutdown(s);
    s := ObtainsApproval(s);
    s := WritesApproval(s);
    s := PostsShutdown(s);
  }

  lemma Extended(ms: seq<Move>, m: Move) returns (more: seq<Move>)
    requires Runs(INITIAL, ms) && Can(Exec(INITIAL, ms), m)
    ensures Runs(INITIAL, more) && Exec(INITIAL, more) == Do(Exec(INITIAL, ms), m)
  {
    RunsLonger(INITIAL, ms, m);
    more := ms + [m];
  }

  lemma {:induction false} RunsLonger(s: System, ms: seq<Move>, m: Move)
    requires Runs(s, ms) && Can(Exec(s, ms), m)
    ensures Runs(s, ms + [m]) && Exec(s, ms + [m]) == Do(Exec(s, ms), m)
    decreases |ms|
  {
    if ms == [] {
      assert (ms + [m])[1..] == [];
    } else {
      RunsLonger(Do(s, ms[0]), ms[1..], m);
      assert (ms + [m])[1..] == ms[1..] + [m];
    }
  }
}
