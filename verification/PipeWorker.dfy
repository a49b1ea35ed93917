/**
 The worker thread of the control pipe (RuntimeControlPipeServer.cpp) as a control-state machine.
 Every Win32 call is one step whose outcome the environment chooses. `log` records what became
 visible outside: answers obtained from the dispatch callback, responses written, connections
 closed and shutdown-ready posts.
 */
module PipeWorker {
  import opened ControlProtocol
  import opened Options

  datatype Event =
    | Dispatched(request: Request, result: ExecutionResult)
    | Refused(response: Response)
    | Written(response: Response)
    | Closed
    | Posted

  /** Where the worker stands. `answer` is None for a malformed frame that is answered locally. */
  datatype Location =
    | LoopTest
    | Recreate
    | Connect
    | ConnectWait
    | Connected(ready: bool)
    | Identify
    | ReadStart
    | ReadWait
    | Decode
    | Dispatching(request: Request)
    | Encode(response: Response, arm: bool)
    | WriteStart(response: Response, arm: bool)
    | WriteWait(response: Response, arm: bool)
    | DrainStart(arm: bool)
    | DrainWait(arm: bool)
    | Closing(arm: bool)
    | PostReady(arm: bool)
    | Tail
    | Exited

  datatype Decoded = Valid(request: Request) | Identified(operation: Operation, requestId: nat, error: Status) | Unrelated

  /** `Aborted` is the stop event, or a failing wait, ending a blocked operation. */
  datatype Outcome =
    | Go
    | Yes
    | No
    | Pending
    | Aborted
    | Frame(decoded: Decoded)
    | Answer(result: ExecutionResult)

  /** `posts` says whether a shutdown-ready callback is installed. */
  datatype Worker = Worker(at: Location, stop: bool, open: bool, posts: bool, log: seq<Event>)

  /** The worker thread at its start: the first pipe instance exists. */
  function Started(posts: bool): Worker {
    Worker(LoopTest, false, true, posts, [])
  }

  /** A step that waits for the client or for the stop event. */
  predicate Blocking(l: Location) {
    l.ConnectWait? || l.ReadWait? || l.WriteWait? || l.DrainWait?
  }

  predicate Settled(o: Outcome) {
    o.Yes? || o.No?
  }

  /** The outcomes the environment can produce here. */
  predicate Can(w: Worker, o: Outcome) {
    match w.at
    case LoopTest => o.Go?
    case Recreate => Settled(o)
    case Connect => Settled(o) || o.Pending?
    case ConnectWait => Settled(o) || o.Aborted?
    case Connected(_) => o.Go?
    case Identify => Settled(o)
    case ReadStart => Settled(o) || o.Pending?
    case ReadWait => Settled(o) || o.Aborted?
    case Decode => o.Frame?
    case Dispatching(_) => o.Answer?
    case Encode(_, _) => Settled(o)
    case WriteStart(_, _) => Settled(o) || o.Pending?
    case WriteWait(_, _) => Settled(o) || o.Aborted?
    case DrainStart(_) => Settled(o) || o.Pending?
    case DrainWait(_) => Settled(o) || o.Aborted?
    case Closing(_) => o.Go?
    case PostReady(_) => o.Go?
    case Tail => o.Go?
    case Exited => false
  }

  function To(w: Worker, l: Location): Worker {
    w.(at := l)
  }

  function Logged(w: Worker, e: Event): Worker {
    w.(log := w.log + [e])
  }

  function Step(w: Worker, o: Outcome): Worker
    requires Can(w, o)
  {
    match w.at
    case LoopTest => if w.stop then To(w, Tail) else if w.open then To(w, Connect) else To(w, Recreate)
    case Recreate => if o.Yes? then To(w, Connect).(open := true) else To(w, Tail)
    case Connect => if o.Pending? then To(w, ConnectWait) else To(w, Connected(o.Yes?))
    case ConnectWait => To(w, Connected(o.Yes?))
    case Connected(ready) =>
      if w.stop then Logged(To(w, Exited), Closed).(open := false)
      else if ready then To(w, Identify) else To(w, Closing(false))
    case Identify => To(w, if o.Yes? then ReadStart else Closing(false))
    case ReadStart => To(w, if o.Pending? then ReadWait else if o.Yes? then Decode else Closing(false))
    case ReadWait => To(w, if o.Yes? then Decode else Closing(false))
    case Decode =>
      (match o.decoded
       case Valid(request) => To(w, Dispatching(request))
       case Identified(operation, id, error) =>
         Logged(To(w, Encode(Response(operation, id, error), false)), Refused(Response(operation, id, error)))
       case Unrelated => To(w, Closing(false)))
    case Dispatching(request) =>
      Logged(To(w, Encode(o.result.response, o.result.shutdownAfterResponse)), Dispatched(request, o.result))
    case Encode(response, arm) => To(w, if o.Yes? then WriteStart(response, arm) else Closing(false))
    case WriteStart(response, arm) =>
      if o.Pending? then To(w, WriteWait(response, arm)) else AfterWrite(w, response, arm, o.Yes?)
    case WriteWait(response, arm) => AfterWrite(w, response, arm, o.Yes?)
    case DrainStart(arm) => To(w, if o.Pending? then DrainWait(arm) else Closing(arm))
    case DrainWait(arm) => To(w, Closing(arm))
    case Closing(arm) => Logged(To(w, PostReady(arm)), Closed).(open := false)
    case PostReady(arm) =>
      if arm && !w.stop && w.posts then Logged(To(w, LoopTest), Posted) else To(w, LoopTest)
    case Tail => if w.open then Logged(To(w, Exited), Closed).(open := false) else To(w, Exited)
  }

  function AfterWrite(w: Worker, response: Response, arm: bool, written: bool): Worker {
    if written then Logged(To(w, DrainStart(arm)), Written(response)) else To(w, Closing(false))
  }

  // ---------------------------------------------------------------- the shutdown-ready post

  /** The answer obtained, the response written and the connection closed, in that order, precede a post. */
  predicate EarnedPost(log: seq<Event>, k: nat)
    requires k <= |log|
  {
    && k >= 3 && log[k - 1] == Closed && log[k - 2].Written? && log[k - 3].Dispatched?
    && log[k - 3].result == ExecutionResult(log[k - 2].response, true)
  }

  ghost predicate PostsEarned(log: seq<Event>) {
    forall k :: 0 <= k < |log| && log[k] == Posted ==> EarnedPost(log, k)
  }

  /** And nothing but a post follows them. */
  ghost predicate PostsMade(log: seq<Event>) {
    forall k :: 0 <= k < |log| && EarnedPost(log, k) ==> log[k] == Posted
  }

  /** A post that is earned but not made is the next thing the worker does, unless the stop event has ended it. */
  predicate PostsNext(w: Worker) {
    EarnedPost(w.log, |w.log|) ==>
      w.at == PostReady(true) || (w.stop && !w.open && (w.at.LoopTest? || w.at.Tail? || w.at.Exited?))
  }

  /** Every response written was obtained for this client immediately before. */
  ghost predicate WritesEarned(log: seq<Event>) {
    forall k :: 0 <= k < |log| && log[k].Written? ==>
      k >= 1 && ((log[k - 1].Dispatched? && log[k - 1].result.response == log[k].response) || log[k - 1] == Refused(log[k].response))
  }

  /** No client is being served. */
  predicate BetweenClients(log: seq<Event>) {
    log == [] || log[|log| - 1] == Closed || log[|log| - 1] == Posted
  }

  /** What the location says about the end of the log. */
  ghost predicate Progress(w: Worker) {
    var n := |w.log|;
    match w.at
    case Encode(r, arm) => Obtained(w.log, r, arm)
    case WriteStart(r, arm) => Obtained(w.log, r, arm)
    case WriteWait(r, arm) => Obtained(w.log, r, arm)
    case DrainStart(arm) => n >= 1 && w.log[n - 1].Written? && (arm <==> Delivered(w.log))
    case DrainWait(arm) => n >= 1 && w.log[n - 1].Written? && (arm <==> Delivered(w.log))
    case Closing(arm) => arm <==> Delivered(w.log)
    case PostReady(arm) => n >= 1 && w.log[n - 1] == Closed && (arm <==> Delivered(w.log[..n - 1]))
    case _ => BetweenClients(w.log)
  }

  predicate Obtained(log: seq<Event>, r: Response, arm: bool) {
    var n := |log|;
    && n >= 1
    && (log[n - 1] == Refused(r) || (log[n - 1].Dispatched? && log[n - 1].result.response == r))
    && (arm <==> log[n - 1].Dispatched? && log[n - 1].result == ExecutionResult(r, true))
  }

  predicate Delivered(log: seq<Event>) {
    var n := |log|;
    && n >= 2 && log[n - 1].Written? && log[n - 2].Dispatched?
    && log[n - 2].result == ExecutionResult(log[n - 1].response, true)
  }

  /** The pipe instance exists exactly where the worker needs one. */
  predicate OpenOk(w: Worker) {
    && (w.at.Exited? || w.at.Recreate? || w.at.PostReady? ==> !w.open)
    && (!w.at.LoopTest? && !w.at.Recreate? && !w.at.Tail? && !w.at.Exited? && !w.at.PostReady? ==> w.open)
  }

  ghost predicate Inv(w: Worker) {
    && PostsEarned(w.log) && WritesEarned(w.log) && Progress(w) && OpenOk(w)
    && (w.posts ==> PostsMade(w.log) && PostsNext(w))
  }

  lemma StartedInv(posts: bool)
    ensures Inv(Started(posts))
  {
  }

  lemma PostsAfter(log: seq<Event>, e: Event)
    requires PostsEarned(log)
    requires e == Posted ==> |log| >= 1 && log[|log| - 1] == Closed && Delivered(log[..|log| - 1])
    ensures PostsEarned(log + [e])
  {
    var more := log + [e];
    forall k | 0 <= k < |more| && more[k] == Posted
      ensures EarnedPost(more, k)
    {
      if k < |log| { assert EarnedPost(log, k); }
    }
  }

  lemma WritesAfter(log: seq<Event>, e: Event)
    requires WritesEarned(log)
    requires e.Written? ==> exists arm :: Obtained(log, e.response, arm)
    ensures WritesEarned(log + [e])
  {
  }

  /** The event a step makes visible, if any, is one the log has earned. */
  lemma NewEvent(w: Worker, o: Outcome) returns (e: Event)
    requires Progress(w) && Can(w, o)
    ensures Step(w, o).log == w.log || Step(w, o).log == w.log + [e]
    ensures e == Posted ==> |w.log| >= 1 && w.log[|w.log| - 1] == Closed && Delivered(w.log[..|w.log| - 1])
    ensures e.Written? ==> exists arm :: Obtained(w.log, e.response, arm)
  {
    var t := Step(w, o);
    if t.log == w.log { return Closed; }
    e := t.log[|w.log|];
    if e.Written? { assert Obtained(w.log, e.response, w.at.arm); }
  }

  lemma LogAfterStep(w: Worker, o: Outcome)
    requires PostsEarned(w.log) && WritesEarned(w.log) && Progress(w) && Can(w, o)
    ensures w.log <= Step(w, o).log
    ensures PostsEarned(Step(w, o).log) && WritesEarned(Step(w, o).log)
  {
    var e := NewEvent(w, o);
    if Step(w, o).log != w.log {
      PostsAfter(w.log, e);
      WritesAfter(w.log, e);
    }
  }

  lemma OpenAfterStep(w: Worker, o: Outcome)
    requires OpenOk(w) && Can(w, o)
    ensures OpenOk(Step(w, o)) && Step(w, o).posts == w.posts && Step(w, o).stop == w.stop
  {
  }

  lemma StepKeepsInv(w: Worker, o: Outcome)
    requires Inv(w) && Can(w, o)
    ensures Inv(Step(w, o))
    ensures w.log <= Step(w, o).log
  {
    var t := Step(w, o);
    LogAfterStep(w, o);
    ProgressAfterStep(w, o);
    OpenAfterStep(w, o);
    if w.posts {
      MadeAfterStep(w, o);
      OwedAfterStep(w, o);
    }
  }

  /** Looking back from a place in the log does not depend on what came later. */
  lemma EarnedInLonger(log: seq<Event>, e: Event, k: nat)
    requires k <= |log|
    ensures EarnedPost(log + [e], k) <==> EarnedPost(log, k)
  {
  }

  /** The last three events of a log that has just been closed. */
  lemma EarnedAfterClose(log: seq<Event>)
    ensures EarnedPost(log + [Closed], |log| + 1) <==> Delivered(log)
  {
  }

  lemma EarnedAtPostReady(w: Worker)
    requires Progress(w) && w.at.PostReady?
    ensures EarnedPost(w.log, |w.log|) <==> w.at.arm
  {
    var n := |w.log| - 1;
    assert w.log == w.log[..n] + [Closed];
    EarnedAfterClose(w.log[..n]);
  }

  lemma MadeAfterStep(w: Worker, o: Outcome)
    requires PostsMade(w.log) && PostsNext(w) && Progress(w) && OpenOk(w) && Can(w, o) && w.posts
    ensures PostsMade(Step(w, o).log)
  {
    var e := NewEvent(w, o);
    if Step(w, o).log != w.log {
      assert Step(w, o).log[|w.log|] == e;
      MadeInLonger(w.log, e);
    }
  }

  lemma MadeInLonger(log: seq<Event>, e: Event)
    requires PostsMade(log) && (EarnedPost(log, |log|) ==> e == Posted)
    ensures PostsMade(log + [e])
  {
    forall k | 0 <= k < |log + [e]| && EarnedPost(log + [e], k) ensures (log + [e])[k] == Posted {
      EarnedInLonger(log, e, k);
    }
  }

  lemma OwedAfterStep(w: Worker, o: Outcome)
    requires PostsNext(w) && Progress(w) && OpenOk(w) && Can(w, o) && w.posts
    ensures PostsNext(Step(w, o))
  {
    var t := Step(w, o);
    if w.at.PostReady? { EarnedAtPostReady(w); }
    if t.log != w.log {
      var e := t.log[|w.log|];
      assert t.log == w.log + [e];
      if e == Closed { EarnedAfterClose(w.log); }
    }
  }

  lemma ProgressAfterStep(w: Worker, o: Outcome)
    requires Progress(w) && Can(w, o)
    ensures Progress(Step(w, o))
  {
    match w.at {
      case WriteStart(_, _) => ProgressAfterWrite(w, o);
      case WriteWait(_, _) => ProgressAfterWrite(w, o);
      case Dispatching(_) => ProgressAfterAnswer(w, o);
      case Decode => ProgressAfterAnswer(w, o);
      case Encode(_, _) => ProgressWhileServing(w, o);
      case DrainStart(_) => ProgressWhileServing(w, o);
      case DrainWait(_) => ProgressWhileServing(w, o);
      case Closing(_) => ProgressWhileServing(w, o);
      case _ => ProgressOutside(w, o);
    }
  }

  lemma ProgressAfterAnswer(w: Worker, o: Outcome)
    requires Progress(w) && Can(w, o) && (w.at.Dispatching? || w.at.Decode?)
    ensures Progress(Step(w, o))
  {
  }

  lemma ProgressWhileServing(w: Worker, o: Outcome)
    requires Progress(w) && Can(w, o) && (w.at.Encode? || w.at.DrainStart? || w.at.DrainWait? || w.at.Closing?)
    ensures Progress(Step(w, o))
  {
    if w.at.Closing? {
      assert Step(w, o).log[..|w.log|] == w.log;
    }
  }

  lemma ProgressOutside(w: Worker, o: Outcome)
    requires Progress(w) && Can(w, o) && !w.at.Encode? && !w.at.WriteStart? && !w.at.WriteWait? && !w.at.DrainStart?
    requires !w.at.DrainWait? && !w.at.Closing? && !w.at.Dispatching? && !w.at.Decode?
    ensures Progress(Step(w, o))
  {
  }

  lemma ProgressAfterWrite(w: Worker, o: Outcome)
    requires Progress(w) && Can(w, o) && (w.at.WriteStart? || w.at.WriteWait?)
    ensures Progress(Step(w, o))
  {
  }

  // ---------------------------------------------------------------- the way out

  /** Steps left on the longest way to the exit once the stop event is set. */
  function Rank(l: Location): nat {
    match l
    case Exited => 0
    case Tail => 1
    case LoopTest => 2
    case PostReady(_) => 3
    case Closing(_) => 4
    case DrainWait(_) => 5
    case DrainStart(_) => 6
    case WriteWait(_, _) => 7
    case WriteStart(_, _) => 8
    case Encode(_, _) => 9
    case Dispatching(_) => 10
    case Decode => 11
    case ReadWait => 12
    case ReadStart => 13
    case Identify => 14
    case Connected(_) => 15
    case ConnectWait => 16
    case Connect => 17
    case Recreate => 18
  }

  /** With the stop event set every step leads closer to the exit, whatever its outcome, and no wait can block. */
  lemma StopLeadsOut(w: Worker, o: Outcome)
    requires w.stop && Can(w, o)
    ensures Step(w, o).stop && Rank(Step(w, o).at) < Rank(w.at)
    ensures Blocking(w.at) ==> Can(w, Aborted)
  {
  }

  // ---------------------------------------------------------------- a whole visit

  /** What the environment does while one client is served: which operations block first, and how each ends. */
  datatype Visit = Visit(
    connectPending: bool, connected: bool, identified: bool, readPending: bool, read: bool, decoded: Decoded,
    result: ExecutionResult, encoded: bool, writePending: bool, written: bool, drainPending: bool, drained: bool)

  function Settling(ok: bool): Outcome {
    if ok then Yes else No
  }

  function Starting(pending: bool, ok: bool): Outcome {
    if pending then Pending else Settling(ok)
  }

  /** The outcome of the step at each location. */
  function Choice(l: Location, v: Visit): Outcome {
    match l
    case Recreate => Yes
    case Connect => Starting(v.connectPending, v.connected)
    case ConnectWait => Settling(v.connected)
    case Identify => Settling(v.identified)
    case ReadStart => Starting(v.readPending, v.read)
    case ReadWait => Settling(v.read)
    case Decode => Frame(v.decoded)
    case Dispatching(_) => Answer(v.result)
    case Encode(_, _) => Settling(v.encoded)
    case WriteStart(_, _) => Starting(v.writePending, v.written)
    case WriteWait(_, _) => Settling(v.written)
    case DrainStart(_) => Starting(v.drainPending, v.drained)
    case DrainWait(_) => Settling(v.drained)
    case _ => Go
  }

  lemma ChoicePossible(w: Worker, v: Visit)
    requires w.at != Exited
    ensures Can(w, Choice(w.at, v))
  {
  }

  predicate Home(l: Location) {
    l.LoopTest? || l.Tail? || l.Exited?
  }

  lemma RankFalls(w: Worker, o: Outcome)
    requires Can(w, o) && !Home(w.at)
    ensures Rank(Step(w, o).at) < Rank(w.at)
  {
    if Rank(w.at) >= 12 { RankFallsEarly(w, o); } else { RankFallsLate(w, o); }
  }

  lemma RankFallsEarly(w: Worker, o: Outcome)
    requires Can(w, o) && Rank(w.at) >= 12
    ensures Rank(Step(w, o).at) < Rank(w.at)
  {
  }

  lemma RankFallsLate(w: Worker, o: Outcome)
    requires Can(w, o) && 2 < Rank(w.at) < 12
    ensures Rank(Step(w, o).at) < Rank(w.at)
  {
  }

  /** The worker when it is back at its loop. */
  ghost function Serve(w: Worker, v: Visit): Worker
    decreases Rank(w.at)
  {
    if Home(w.at) then w else
      ChoicePossible(w, v);
      RankFalls(w, Choice(w.at, v));
      Serve(Step(w, Choice(w.at, v)), v)
  }

  /** The frame was read and says whom to answer. */
  predicate Heard(v: Visit) {
    v.connected && v.identified && v.read && !v.decoded.Unrelated?
  }

  function Reply(v: Visit): Response
    requires Heard(v)
  {
    if v.decoded.Valid? then v.result.response
    else Response(v.decoded.operation, v.decoded.requestId, v.decoded.error)
  }

  /** A valid request is dispatched, a malformed one answered at once. */
  function Obtaining(v: Visit): Event
    requires Heard(v)
  {
    if v.decoded.Valid? then Dispatched(v.decoded.request, v.result) else Refused(Reply(v))
  }

  /** What a visit leaves in the log. */
  function LogOf(v: Visit, posts: bool): seq<Event> {
    if !Heard(v) then [Closed]
    else if !v.encoded || !v.written then [Obtaining(v), Closed]
    else if v.decoded.Valid? && v.result.shutdownAfterResponse && posts then [Obtaining(v), Written(Reply(v)), Closed, Posted]
    else [Obtaining(v), Written(Reply(v)), Closed]
  }

  function Back(w: Worker, more: seq<Event>): Worker {
    w.(at := LoopTest, open := false, log := w.log + more)
  }

  lemma FromClosing(w: Worker, v: Visit)
    requires w.at.Closing? && !w.stop
    ensures Serve(w, v) == Back(w, [Closed] + if w.at.arm && w.posts then [Posted] else [])
  {
    var t := Step(w, Go);
    assert Serve(w, v) == Serve(t, v) && Serve(t, v) == Serve(Step(t, Go), v);
  }

  lemma FromDrain(w: Worker, v: Visit)
    requires w.at.DrainStart? && !w.stop
    ensures Serve(w, v) == Back(w, [Closed] + if w.at.arm && w.posts then [Posted] else [])
  {
    var t := Step(w, Choice(w.at, v));
    if v.drainPending {
      FromClosing(Step(t, Choice(t.at, v)), v);
    } else {
      FromClosing(t, v);
    }
  }

  lemma FromWrite(w: Worker, v: Visit)
    requires w.at.WriteStart? && !w.stop
    ensures Serve(w, v) == Back(w,
      if v.written then [Written(w.at.response), Closed] + (if w.at.arm && w.posts then [Posted] else []) else [Closed])
  {
    var t := Step(w, Choice(w.at, v));
    var u := if v.writePending then Step(t, Choice(t.at, v)) else t;
    if v.written { FromDrain(u, v); } else { FromClosing(u, v); }
  }

  lemma FromEncode(w: Worker, v: Visit)
    requires w.at.Encode? && !w.stop
    ensures Serve(w, v) == Back(w,
      if v.encoded && v.written then [Written(w.at.response), Closed] + (if w.at.arm && w.posts then [Posted] else []) else [Closed])
  {
    var t := Step(w, Choice(w.at, v));
    if v.encoded { FromWrite(t, v); } else { FromClosing(t, v); }
  }

  lemma FromDecode(w: Worker, v: Visit)
    requires w.at.Decode? && !w.stop && v.connected && v.identified && v.read
    ensures Serve(w, v) == Back(w, LogOf(v, w.posts))
  {
    var t := Step(w, Choice(w.at, v));
    if v.decoded.Valid? {
      FromEncode(Step(t, Choice(t.at, v)), v);
    } else if v.decoded.Identified? {
      FromEncode(t, v);
    } else {
      FromClosing(t, v);
    }
  }

  lemma FromRead(w: Worker, v: Visit)
    requires w.at.ReadStart? && !w.stop && v.connected && v.identified
    ensures Serve(w, v) == Back(w, LogOf(v, w.posts))
  {
    var t := Step(w, Choice(w.at, v));
    var u := if v.readPending then Step(t, Choice(t.at, v)) else t;
    if v.read { FromDecode(u, v); } else { FromClosing(u, v); }
  }

  lemma FromConnected(w: Worker, v: Visit)
    requires w.at == Connected(v.connected) && !w.stop
    ensures Serve(w, v) == Back(w, LogOf(v, w.posts))
  {
    var t := Step(w, Go);
    if v.connected {
      var u := Step(t, Choice(t.at, v));
      if v.identified { FromRead(u, v); } else { FromClosing(u, v); }
    } else {
      FromClosing(t, v);
    }
  }

  /**
   One turn of the worker's loop while nobody stops it, from its start to the next one: whatever
   blocks and whatever fails, it leaves exactly this in the log, and the instance is closed. A valid
   request is always dispatched, its answer written if that is possible, and an approved shutdown
   posted if and only if its answer was written.
   */
  lemma VisitMeans(w: Worker, v: Visit)
    requires w.at == LoopTest && !w.stop
    ensures Serve(Step(w, Go), v) == Back(w, LogOf(v, w.posts))
  {
    var t := Step(w, Go);
    var u := if w.open then t else Step(t, Yes);
    assert u == w.(at := Connect, open := true) && Serve(t, v) == Serve(u, v);
    var x := Step(u, Choice(u.at, v));
    var y := if v.connectPending then Step(x, Choice(x.at, v)) else x;
    assert Serve(u, v) == Serve(y, v);
    FromConnected(y, v);
  }
}
