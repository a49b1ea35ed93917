/**
 The bridge as an object whose methods update its fields, one thread at a time. The `Pending`
 records that producers and batches share are kept in `calls` and named by position. `trace`
 is the run of the step relation that the object has taken, so every theorem about runs
 applies to every use of this class.
 */
module DispatchBridgeObject {
  import opened ControlProtocol
  import opened Options
  import opened DispatchBridge
  import opened DispatchBridgeRuns

  type Handler = Request -> ExecutionResult

  /** What `Stop` leaves of a queued call. */
  function Stopped(c: Call): Call {
    Settle(c, TerminalResult(c.request, Status.ShuttingDown), ByStop)
  }

  /** What a drain leaves of a queued call. */
  function Drained(c: Call, handler: Option<Handler>): Call {
    match handler
    case Some(h) => Settle(c, h(c.request), ByDrain(true))
    case None => Settle(c, TerminalResult(c.request, RuntimeUnavailable), ByDrain(false))
  }

  /** The still uncompleted calls of a batch, in order. */
  function OpenOf(calls: seq<Call>, batch: seq<nat>): seq<nat> {
    if batch == [] then [] else
      var id := batch[|batch| - 1];
      OpenOf(calls, batch[..|batch| - 1]) + (if id < |calls| && calls[id].cell.Open? then [id] else [])
  }

  lemma {:induction false} WithoutNewcomer(q: seq<nat>, id: nat)
    requires id !in q
    ensures Without(q + [id], id) == q
  {
    if q != [] {
      WithoutNewcomer(q[1..], id);
      assert (q + [id])[1..] == q[1..] + [id];
    } else {
      assert (q + [id])[1..] == [];
    }
  }

  ghost predicate Distinct(batch: seq<nat>) {
    forall i, j :: 0 <= i < j < |batch| ==> batch[i] != batch[j]
  }

  /** The queue of a reachable state names existing calls, each once. */
  lemma QueueNamesCalls(trace: seq<Step>)
    requires Runs(INITIAL, trace)
    ensures var s := Exec(INITIAL, trace);
            && (forall id :: id in s.queue ==> id < |s.calls|)
            && Distinct(s.queue)
  {
    InitialInv();
    InvOfRun(INITIAL, trace);
  }

  /** The first `k` calls of a batch have been drained, no other call has changed. */
  ghost predicate DrainedUpTo(was: seq<Call>, now: seq<Call>, batch: seq<nat>, k: nat, handler: Option<Handler>) {
    && |now| == |was| && k <= |batch|
    && forall id :: 0 <= id < |now| ==> now[id] == if id in batch[..k] then Drained(was[id], handler) else was[id]
  }

  lemma DrainedNext(was: seq<Call>, now: seq<Call>, batch: seq<nat>, k: nat, handler: Option<Handler>)
    requires DrainedUpTo(was, now, batch, k, handler) && Distinct(batch) && k < |batch| && batch[k] < |was|
    ensures now[batch[k]] == was[batch[k]]
    ensures DrainedUpTo(was, now[batch[k] := Drained(was[batch[k]], handler)], batch, k + 1, handler)
    ensures OpenOf(was, batch[..k + 1]) == OpenOf(was, batch[..k]) + if was[batch[k]].cell.Open? then [batch[k]] else []
  {
    assert batch[..k + 1] == batch[..k] + [batch[k]] && batch[k] !in batch[..k];
    assert batch[..k + 1][..k] == batch[..k];
  }

  class RuntimeControlDispatchBridge {
    var accepting: bool
    var mainThread: int
    var wake: bool
    var handler: Option<Handler>
    var queue: seq<nat>
    var calls: seq<Call>
    ghost var trace: seq<Step>
    ghost var model: State

    ghost predicate Valid()
      reads this
    {
      && Runs(INITIAL, trace) && model == Exec(INITIAL, trace)
      && model.accepting == accepting && model.mainThread == mainThread
      && model.hasWake == wake && model.hasHandler == handler.Some?
      && model.queue == queue && model.calls == calls
    }

    /** No drain or stop is in the middle of its batch. */
    ghost predicate AtRest()
      reads this
    {
      forall f :: 0 <= f < |model.frames| ==> model.frames[f].rest == []
    }

    constructor ()
      ensures Valid() && AtRest() && !accepting && queue == [] && calls == []
    {
      accepting, mainThread, wake, handler := false, 0, false, None;
      queue, calls, trace, model := [], [], [], INITIAL;
    }

    /** The model takes the step that the fields have just taken or are about to take. */
    ghost method Took(e: Step)
      requires Runs(INITIAL, trace) && model == Exec(INITIAL, trace) && Enabled(model, e)
      modifies this`trace, this`model
      ensures Runs(INITIAL, trace) && model == Exec(INITIAL, trace)
      ensures model == Apply(old(model), e) && trace == old(trace) + [e]
    {
      Extend(INITIAL, trace, e);
      trace, model := trace + [e], Apply(model, e);
    }

    method Start(thread: int, hasWake: bool, h: Option<Handler>)
      requires Valid()
      modifies this
      ensures Valid() && accepting && mainThread == thread && wake == hasWake && handler == h
      ensures queue == old(queue) && calls == old(calls) && trace == old(trace) + [Step.Start(thread, hasWake, h.Some?)]
    {
      mainThread, wake, handler, accepting := thread, hasWake, h, true;
      Took(Step.Start(thread, hasWake, h.Some?));
    }

    /** `Complete`: an existing result is kept. */
    method Complete(id: nat, result: ExecutionResult, who: Completer)
      requires id < |calls|
      modifies this`calls
      ensures calls == old(calls)[id := Settle(old(calls)[id], result, who)]
    {
      if calls[id].cell.Completed? { return; }
      calls := calls[id := calls[id].(cell := Completed(result, who))];
    }

    /** One turn of the loop in `Stop`. */
    method StopOneOf(pending: seq<nat>, k: nat, ghost before: seq<Frame>)
      requires Valid() && k < |pending| && pending[k] < |calls|
      requires model.frames == before + [Stopping(pending[k..])]
      modifies this`calls, this`trace, this`model
      ensures Valid() && model.frames == before + [Stopping(pending[k + 1..])]
      ensures calls == old(calls)[pending[k] := Stopped(old(calls)[pending[k]])]
      ensures old(trace) <= trace && model.handed == old(model).handed
    {
      var id := pending[k];
      assert pending[k..][0] == id && pending[k..][1..] == pending[k + 1..];
      Complete(id, TerminalResult(calls[id].request, Status.ShuttingDown), ByStop);
      Took(StopOne(|before|));
      assert model.frames == before + [Stopping(pending[k + 1..])];
    }

    /**
     After `Stop` nothing is queued or accepted, and every request that was queued is answered:
     with the answer it already had, or else with ShuttingDown. No other request is touched.
     */
    method Stop()
      requires Valid() && AtRest()
      modifies this
      ensures Valid() && AtRest() && !accepting && queue == [] && |calls| == |old(calls)|
      ensures old(trace) <= trace && model.handed == old(model).handed
      ensures forall id :: 0 <= id < |calls| ==>
                calls[id] == (if id in old(queue) then Stopped(old(calls)[id]) else old(calls)[id])
      ensures forall id :: 0 <= id < |calls| && id in old(queue) && old(calls)[id].cell.Open? ==>
                var request := calls[id].request;
                calls[id].cell == Completed(ExecutionResult(Response(request.operation, request.requestId, Status.ShuttingDown), false), ByStop)
    {
      QueueNamesCalls(trace);
      var pending := queue;
      ghost var before := model.frames;
      accepting, queue := false, [];
      Took(BeginStop);
      assert pending[0..] == pending;
      for k := 0 to |pending|
        invariant Valid() && !accepting && queue == [] && |calls| == |old(calls)|
        invariant old(trace) <= trace && model.handed == old(model).handed
        invariant model.frames == before + [Stopping(pending[k..])]
        invariant forall id :: 0 <= id < |calls| ==>
                    calls[id] == (if id in pending[..k] then Stopped(old(calls)[id]) else old(calls)[id])
      {
        assert pending[k] in pending && pending[k] !in pending[..k] && pending[..k + 1] == pending[..k] + [pending[k]];
        StopOneOf(pending, k, before);
      }
      assert pending[..|pending|] == pending;
    }

    /** One turn of the loop in `DrainOnMainThread`. */
    method DrainOneOf(batch: seq<nat>, k: nat, h: Option<Handler>, ghost before: seq<Frame>)
      requires Valid() && k < |batch| && batch[k] < |calls|
      requires model.frames == before + [Drain(batch[k..], h.Some?, Looking)]
      modifies this`calls, this`trace, this`model
      ensures Valid() && model.frames == before + [Drain(batch[k + 1..], h.Some?, Looking)]
      ensures calls == old(calls)[batch[k] := Drained(old(calls)[batch[k]], h)]
      ensures old(trace) <= trace
      ensures model.handed == old(model).handed +
                              (if h.Some? && old(calls)[batch[k]].cell.Open? then [batch[k]] else [])
    {
      var id, f := batch[k], |before|;
      assert batch[k..][0] == id && batch[k..][1..] == batch[k + 1..];
      Took(Look(f));
      if calls[id].cell.Completed? {
        assert model.frames == before + [Drain(batch[k + 1..], h.Some?, Looking)];
        return;
      }
      RunOneOf(batch, k, h, before);
    }

    /** The handler runs, or without one the request is refused; then the result is written. */
    method RunOneOf(batch: seq<nat>, k: nat, h: Option<Handler>, ghost before: seq<Frame>)
      requires Valid() && k < |batch| && batch[k] < |calls| && batch[k..][0] == batch[k]
      requires model.frames == before + [Drain(batch[k..], h.Some?, if h.Some? then Running
        else Finishing(TerminalResult(calls[batch[k]].request, RuntimeUnavailable), false))]
      modifies this`calls, this`trace, this`model
      ensures Valid() && model.frames == before + [Drain(batch[k + 1..], h.Some?, Looking)]
      ensures calls == old(calls)[batch[k] := Drained(old(calls)[batch[k]], h)]
      ensures old(trace) <= trace && model.handed == old(model).handed
    {
      var id, f := batch[k], |before|;
      assert batch[k..][1..] == batch[k + 1..];
      match h {
        case Some(run) =>
          var result := run(calls[id].request);
          Took(HandlerReturns(f, result));
          Complete(id, result, ByDrain(true));
        case None =>
          Complete(id, TerminalResult(calls[id].request, RuntimeUnavailable), ByDrain(false));
      }
      Took(Finish(f));
      assert model.frames == before + [Drain(batch[k + 1..], h.Some?, Looking)];
    }

    /**
     A drain answers exactly the queued requests that had no answer, each with what the handler
     says about it, and hands exactly those to the handler, in queue order.
     */
    method DrainOnMainThread()
      requires Valid() && AtRest()
      modifies this
      ensures Valid() && AtRest() && accepting == old(accepting) && queue == [] && |calls| == |old(calls)|
      ensures handler == old(handler) && old(trace) <= trace
      ensures model.handed == old(model).handed + (if handler.Some? then OpenOf(old(calls), old(queue)) else [])
      ensures forall id :: 0 <= id < |calls| ==>
                calls[id] == (if id in old(queue) then Drained(old(calls)[id], handler) else old(calls)[id])
      ensures forall id :: 0 <= id < |calls| && id in old(queue) && old(calls)[id].cell.Open? ==>
                var request := calls[id].request;
                && calls[id].cell.Completed?
                && calls[id].cell.result == (if handler.Some? then handler.value(request)
                     else ExecutionResult(Response(request.operation, request.requestId, RuntimeUnavailable), false))
    {
      QueueNamesCalls(trace);
      var batch, h := queue, handler;
      ghost var before := model.frames;
      queue := [];
      Took(BeginDrain);
      assert batch[0..] == batch;
      for k := 0 to |batch|
        invariant Valid() && accepting == old(accepting) && handler == h && queue == [] && |calls| == |old(calls)|
        invariant old(trace) <= trace
        invariant model.frames == before + [Drain(batch[k..], h.Some?, Looking)]
        invariant model.handed == old(model).handed + (if h.Some? then OpenOf(old(calls), batch[..k]) else [])
        invariant DrainedUpTo(old(calls), calls, batch, k, h)
      {
        assert batch[k] in batch;
        DrainedNext(old(calls), calls, batch, k, h);
        DrainOneOf(batch, k, h, before);
      }
      assert batch[..|batch|] == batch;
    }

    /** The newest call, whose wake failed, leaves the queue. */
    method WithdrawLatest()
      requires Valid() && |calls| > 0 && calls[|calls| - 1].pc == WakeFailed
      modifies this`queue, this`calls, this`trace, this`model
      ensures Valid() && queue == Without(old(queue), |old(calls)| - 1) && model.frames == old(model).frames
      ensures calls == old(calls)[|old(calls)| - 1 := old(calls)[|old(calls)| - 1].(pc := Withdrawn)]
      ensures old(trace) <= trace
    {
      var id := |calls| - 1;
      queue, calls := Without(queue, id), calls[id := calls[id].(pc := Withdrawn)];
      Took(Withdraw(id));
    }

    /** The part of `Dispatch` between the wake that failed and the answer. */
    method WithdrawAndGiveUp(request: Request) returns (r: ExecutionResult)
      requires Valid() && |calls| > 0 && calls[|calls| - 1] == Call(request, wake, Open, WakeFailed)
      modifies this
      ensures Valid() && r == TerminalResult(request, RuntimeUnavailable) && queue == Without(old(queue), |old(calls)| - 1)
      ensures calls == old(calls)[|old(calls)| - 1 := Call(request, wake, Completed(r, ByProducer), Returned(r))]
      ensures accepting == old(accepting) && handler == old(handler)
      ensures mainThread == old(mainThread) && wake == old(wake) && model.frames == old(model).frames
      ensures old(trace) <= trace
    {
      var id := |calls| - 1;
      WithdrawLatest();
      Complete(id, TerminalResult(request, RuntimeUnavailable), ByProducer);
      calls := calls[id := calls[id].(pc := Waiting)];
      Took(GiveUp(id));
      calls := calls[id := calls[id].(pc := Returned(calls[id].cell.result))];
      Took(Return(id));
      r := calls[id].cell.result;
    }

    /**
     One `Dispatch` up to the point where it returns or sleeps. `delivered` is what the wake callback
     would answer. None means that the call is queued as number `|old(calls)|` and its thread sleeps.
     */
    method Dispatch(request: Request, thread: int, delivered: bool) returns (r: Option<ExecutionResult>)
      requires Valid()
      modifies this
      ensures Valid() && accepting == old(accepting) && handler == old(handler) && old(trace) <= trace
      ensures mainThread == old(mainThread) && wake == old(wake) && model.frames == old(model).frames
      ensures !accepting || thread == mainThread ==> trace == old(trace) && queue == old(queue) && calls == old(calls)
      ensures !accepting ==>
                r == Some(ExecutionResult(Response(request.operation, request.requestId, Status.ShuttingDown), false))
      ensures accepting && thread == mainThread ==>
                r == Some(if handler.Some? then handler.value(request)
                          else ExecutionResult(Response(request.operation, request.requestId, RuntimeUnavailable), false))
      ensures accepting && thread != mainThread && wake && delivered ==>
                && r == None && queue == old(queue) + [|old(calls)|]
                && calls == old(calls) + [Call(request, wake, Open, Waiting)]
      ensures accepting && thread != mainThread && !(wake && delivered) ==>
                && r == Some(ExecutionResult(Response(request.operation, request.requestId, RuntimeUnavailable), false))
                && queue == old(queue)
                && calls == old(calls) + [Call(request, wake, Completed(r.value, ByProducer), Returned(r.value))]
    {
      if !accepting {
        return Some(TerminalResult(request, Status.ShuttingDown));
      }
      if thread == mainThread {
        match handler {
          case Some(h) => return Some(h(request));
          case None => return Some(TerminalResult(request, RuntimeUnavailable));
        }
      }
      QueueNamesCalls(trace);
      var id := |calls|;
      queue, calls := queue + [id], calls + [Call(request, wake, Open, Enqueued)];
      Took(Enqueue(request, thread));
      if wake && delivered {
        calls := calls[id := calls[id].(pc := Waiting)];
        Took(Wake(id, true));
        return None;
      }
      calls := calls[id := calls[id].(pc := WakeFailed)];
      Took(Wake(id, false));
      WithoutNewcomer(old(queue), id);
      var answer := WithdrawAndGiveUp(request);
      r := Some(answer);
    }

    /** The end of the wait: a producer that sleeps returns the result that has been written. */
    method Awake(id: nat) returns (r: ExecutionResult)
      requires Valid() && id < |calls| && calls[id].pc == Waiting && calls[id].cell.Completed?
      modifies this
      ensures Valid() && r == old(calls)[id].cell.result
      ensures calls == old(calls)[id := old(calls)[id].(pc := Returned(r))]
      ensures queue == old(queue) && accepting == old(accepting) && handler == old(handler)
      ensures model.frames == old(model).frames && trace == old(trace) + [Step.Return(id)]
    {
      r := calls[id].cell.result;
      calls := calls[id := calls[id].(pc := Returned(r))];
      Took(Step.Return(id));
    }

    /**
     A call whose wake is delivered, followed by a drain and the end of its wait: it returns what the
     handler says of it.
     */
    method DispatchAndDrain(request: Request, thread: int, h: Handler) returns (r: ExecutionResult)
      requires Valid() && AtRest() && accepting && thread != mainThread && wake && handler == Some(h)
      modifies this
      ensures Valid() && AtRest() && queue == [] && r == h(request)
      ensures |calls| == |old(calls)| + 1 && calls[|old(calls)|].pc == Returned(r)
    {
      QueueNamesCalls(trace);
      var id := |calls|;
      var answer := Dispatch(request, thread, true);
      assert id in queue;
      DrainOnMainThread();
      r := Awake(id);
    }
  }
}
