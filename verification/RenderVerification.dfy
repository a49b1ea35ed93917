/**
 Verification that a game renders (PresentMonFrameTelemetry.cpp): has the armed process produced
 a displayed frame since its attempt began? The service is modelled by one frame queue per
 process: frames arrive at the end, a successful flush empties the queue, and other consumers of
 the session may take frames out at any time.
 */
module RenderVerification {
  import opened Options

  const BATCH := 64

  /** `interval` is None when the record does not decode to a finite number; `arrival` is when it came. */
  datatype Frame = Frame(layoutOk: bool, interval: Option<real>, arrival: nat)

  predicate Displayed(f: Frame) {
    f.layoutOk && f.interval.Some? && f.interval.value > 0.0
  }

  /** `clock` counts arrivals, `begun` is the clock of the last successful begin, `evidence` the frame that was accepted. */
  datatype State = State(ready: bool, armed: nat, seen: bool,
                         queues: map<nat, seq<Frame>>, clock: nat, begun: nat, evidence: Option<Frame>)

  const INITIAL := State(false, 0, false, map[], 0, 0, None)

  datatype Event =
    | Initialize(registered: bool)
    | Shutdown
    | Arrive(pid: nat, layoutOk: bool, interval: Option<real>)
    | Stolen(pid: nat, count: nat)
    | Begin(pid: nat, flushOk: bool)
    | Poll(pid: nat, statusOk: bool, count: nat)

  function Queue(s: State, pid: nat): seq<Frame> {
    if pid in s.queues then s.queues[pid] else []
  }

  function Min(a: nat, b: nat): nat {
    if a < b then a else b
  }

  /** The records a consume call writes: at most a batch, at most what it reports, from the front of the queue. */
  function Batch(s: State, pid: nat, count: nat): seq<Frame> {
    Queue(s, pid)[..Min(Min(count, BATCH), |Queue(s, pid)|)]
  }

  function WithoutFirst(s: State, pid: nat, n: nat): State {
    s.(queues := s.queues[pid := Queue(s, pid)[Min(n, |Queue(s, pid)|)..]])
  }

  /** The position of the first displayed frame, or the length. */
  function FirstDisplayed(frames: seq<Frame>): (k: nat)
    ensures k <= |frames|
    ensures forall i :: 0 <= i < k ==> !Displayed(frames[i])
    ensures k < |frames| ==> Displayed(frames[k])
  {
    if frames == [] then 0 else if Displayed(frames[0]) then 0 else 1 + FirstDisplayed(frames[1..])
  }

  /** Does the poll reach the service? */
  predicate Polls(s: State, pid: nat) {
    s.ready && pid != 0 && pid == s.armed && !s.seen
  }

  function After(s: State, e: Event): State {
    match e
    case Initialize(registered) => s.(ready := registered, armed := 0, seen := false, evidence := None)
    case Shutdown => s.(ready := false, armed := 0, seen := false, evidence := None)
    case Arrive(pid, layoutOk, interval) =>
      s.(queues := s.queues[pid := Queue(s, pid) + [Frame(layoutOk, interval, s.clock)]], clock := s.clock + 1)
    case Stolen(pid, n) => WithoutFirst(s, pid, n)
    case Begin(pid, flushOk) =>
      if !s.ready || pid == 0 then s
      else if !flushOk then s.(seen := false, armed := 0, evidence := None)
      else s.(seen := false, armed := pid, evidence := None, queues := s.queues[pid := []], begun := s.clock)
    case Poll(pid, statusOk, count) =>
      if !Polls(s, pid) || !statusOk then s else
        var records := Batch(s, pid, count);
        var k := FirstDisplayed(records);
        var t := WithoutFirst(s, pid, |records|);
        if k < |records| then t.(seen := true, evidence := Some(records[k])) else t
  }

  /** What `PollDisplayedFrame` returns; None is its nullopt. */
  function Answer(s: State, pid: nat, statusOk: bool, count: nat): Option<bool> {
    if !s.ready || pid == 0 || pid != s.armed then None
    else if s.seen then Some(true)
    else if !statusOk then None
    else Some(FirstDisplayed(Batch(s, pid, count)) < |Batch(s, pid, count)|)
  }

  lemma {:induction false} FirstDisplayedIs(frames: seq<Frame>, k: nat)
    requires k <= |frames| && forall i :: 0 <= i < k ==> !Displayed(frames[i])
    requires k < |frames| ==> Displayed(frames[k])
    ensures FirstDisplayed(frames) == k
  {
    if k > 0 { FirstDisplayedIs(frames[1..], k - 1); }
  }

  /** The frames that the service holds for each process. */
  class FrameService {
    var queues: map<nat, seq<Frame>>
    var clock: nat

    constructor ()
      ensures queues == map[] && clock == 0
    {
      queues, clock := map[], 0;
    }

    function Of(pid: nat): seq<Frame>
      reads this
    {
      if pid in queues then queues[pid] else []
    }

    method Arrive(pid: nat, layoutOk: bool, interval: Option<real>)
      modifies this
      ensures queues == old(queues)[pid := old(Of(pid)) + [Frame(layoutOk, interval, old(clock))]]
      ensures clock == old(clock) + 1
    {
      queues := queues[pid := Of(pid) + [Frame(layoutOk, interval, clock)]];
      clock := clock + 1;
    }

    /** A flush drops what is queued for the process. */
    method Flush(pid: nat)
      modifies this`queues
      ensures queues == old(queues)[pid := []]
    {
      queues := queues[pid := []];
    }

    /** Hands over frames from the front of the queue, to whichever consumer asks. */
    method Consume(pid: nat, count: nat) returns (records: seq<Frame>)
      modifies this`queues
      ensures records == old(Of(pid))[..Min(count, |old(Of(pid))|)]
      ensures queues == old(queues)[pid := old(Of(pid))[Min(count, |old(Of(pid))|)..]]
    {
      var n := Min(count, |Of(pid)|);
      records := Of(pid)[..n];
      queues := queues[pid := Of(pid)[n..]];
    }
  }

  class PresentMonFrameTelemetry {
    const service: FrameService
    var ready: bool
    var armedProcessId: nat
    var seen: bool
    ghost var begun: nat
    ghost var evidence: Option<Frame>

    ghost function Model(): State
      reads this, service
    {
      State(ready, armedProcessId, seen, service.queues, service.clock, begun, evidence)
    }

    constructor (frames: FrameService)
      ensures service == frames && Model() == INITIAL.(queues := frames.queues, clock := frames.clock)
    {
      service := frames;
      ready, armedProcessId, seen, begun, evidence := false, 0, false, 0, None;
    }

    method Shutdown()
      modifies this
      ensures Model() == After(old(Model()), Event.Shutdown)
    {
      armedProcessId, seen, evidence := 0, false, None;
      ready := false;
    }

    method Initialize(registered: bool) returns (ok: bool)
      modifies this
      ensures Model() == After(old(Model()), Event.Initialize(registered)) && ok == registered
    {
      Shutdown();
      if !registered { return false; }
      ready := true;
      ok := true;
    }

    method BeginVerification(pid: nat, flushOk: bool) returns (armed: bool)
      modifies this, service`queues
      ensures Model() == After(old(Model()), Begin(pid, flushOk))
      ensures armed <==> ready && pid != 0 && flushOk
    {
      if !ready || pid == 0 { return false; }
      seen, armedProcessId, evidence := false, 0, None;
      if !flushOk { return false; }
      service.Flush(pid);
      begun := service.clock;
      armedProcessId := pid;
      armed := true;
    }

    /** `count` is how many records the service writes, though never more than a batch. */
    method PollDisplayedFrame(pid: nat, statusOk: bool, count: nat) returns (displayed: Option<bool>)
      modifies this`seen, this`evidence, service`queues
      ensures Model() == After(old(Model()), Poll(pid, statusOk, count))
      ensures displayed == Answer(old(Model()), pid, statusOk, count)
    {
      if !ready || pid == 0 || pid != armedProcessId { return None; }
      if seen { return Some(true); }
      if !statusOk { return None; }
      var records := service.Consume(pid, Min(count, BATCH));
      assert records == Batch(old(Model()), pid, count);
      for i := 0 to |records|
        invariant !seen && Model() == WithoutFirst(old(Model()), pid, |records|)
        invariant forall k :: 0 <= k < i ==> !Displayed(records[k])
      {
        if !records[i].layoutOk || records[i].interval == None { continue; }
        if records[i].interval.value <= 0.0 { continue; }
        FirstDisplayedIs(records, i);
        seen, evidence := true, Some(records[i]);
        return Some(true);
      }
      FirstDisplayedIs(records, |records|);
      displayed := Some(false);
    }

    /** Any event of the run model, taken by the objects. */
    method Handle(e: Event)
      modifies this, service
      ensures Model() == After(old(Model()), e)
    {
      match e {
        case Initialize(registered) => var ok := Initialize(registered);
        case Shutdown => Shutdown();
        case Arrive(pid, layoutOk, interval) => service.Arrive(pid, layoutOk, interval);
        case Stolen(pid, count) => var taken := service.Consume(pid, count);
        case Begin(pid, flushOk) => var armed := BeginVerification(pid, flushOk);
        case Poll(pid, statusOk, count) => var displayed := PollDisplayedFrame(pid, statusOk, count);
      }
    }

    /** So the theorems about runs speak about these objects. */
    method Run(es: seq<Event>)
      requires Model() == INITIAL
      modifies this, service
      ensures Model() == Exec(INITIAL, es)
      ensures Inv(Model())
    {
      for i := 0 to |es|
        invariant Model() == Exec(INITIAL, es[..i])
      {
        Handle(es[i]);
        ExecNext(INITIAL, es[..i], es[i]);
        assert es[..i] + [es[i]] == es[..i + 1];
      }
      assert es[..|es|] == es;
      InvOfRun(INITIAL, es);
    }
  }

  lemma {:induction false} ExecNext(s: State, es: seq<Event>, e: Event)
    ensures Exec(s, es + [e]) == After(Exec(s, es), e)
    decreases |es|
  {
    if es == [] {
      assert (es + [e])[1..] == [];
    } else {
      ExecNext(After(s, es[0]), es[1..], e);
      assert (es + [e])[1..] == es[1..] + [e];
    }
  }

  // ---------------------------------------------------------------- evidence

  /** Nothing older than the attempt can reach the armed process, and an accepted attempt has its frame. */
  ghost predicate Inv(s: State) {
    && s.begun <= s.clock
    && (!s.ready ==> s.armed == 0 && !s.seen)
    && (s.armed == 0 ==> !s.seen)
    && (forall pid, k :: pid in s.queues && 0 <= k < |s.queues[pid]| ==> s.queues[pid][k].arrival < s.clock)
    && (s.armed != 0 ==> forall k :: 0 <= k < |Queue(s, s.armed)| ==> Queue(s, s.armed)[k].arrival >= s.begun)
    && (s.seen ==> s.evidence.Some? && Displayed(s.evidence.value) && s.begun <= s.evidence.value.arrival < s.clock)
  }

  /** Taking frames out of a queue, whoever does it. */
  lemma TakingKeepsInv(s: State, pid: nat, n: nat)
    requires Inv(s)
    ensures Inv(WithoutFirst(s, pid, n))
  {
    var t := WithoutFirst(s, pid, n);
    var m := Min(n, |Queue(s, pid)|);
    assert forall p :: p != pid ==> Queue(t, p) == Queue(s, p);
    assert Queue(t, pid) == Queue(s, pid)[m..];
    assert forall k :: 0 <= k < |Queue(t, pid)| ==> Queue(t, pid)[k] == Queue(s, pid)[m + k];
  }

  lemma ArrivalKeepsInv(s: State, pid: nat, layoutOk: bool, interval: Option<real>)
    requires Inv(s)
    ensures Inv(After(s, Arrive(pid, layoutOk, interval)))
  {
    var t := After(s, Arrive(pid, layoutOk, interval));
    assert forall p :: p != pid ==> Queue(t, p) == Queue(s, p);
    assert Queue(t, pid) == Queue(s, pid) + [Frame(layoutOk, interval, s.clock)];
    forall p, k | p in t.queues && 0 <= k < |t.queues[p]|
      ensures t.queues[p][k].arrival < t.clock
    {
      assert t.queues[p] == Queue(t, p);
    }
  }

  lemma BeginKeepsInv(s: State, pid: nat, flushOk: bool)
    requires Inv(s)
    ensures Inv(After(s, Begin(pid, flushOk)))
  {
  }

  lemma PollKeepsInv(s: State, pid: nat, statusOk: bool, count: nat)
    requires Inv(s)
    ensures Inv(After(s, Poll(pid, statusOk, count)))
  {
    if Polls(s, pid) && statusOk {
      var records := Batch(s, pid, count);
      assert forall k :: 0 <= k < |records| ==> records[k] == Queue(s, pid)[k];
      TakingKeepsInv(s, pid, |records|);
    }
  }

  lemma EventKeepsInv(s: State, e: Event)
    requires Inv(s)
    ensures Inv(After(s, e))
  {
    match e {
      case Poll(pid, statusOk, count) => PollKeepsInv(s, pid, statusOk, count);
      case Arrive(pid, layoutOk, interval) => ArrivalKeepsInv(s, pid, layoutOk, interval);
      case Stolen(pid, n) => TakingKeepsInv(s, pid, n);
      case Begin(pid, flushOk) => BeginKeepsInv(s, pid, flushOk);
      case _ =>
    }
  }

  function Exec(s: State, es: seq<Event>): State
    decreases |es|
  {
    if es == [] then s else Exec(After(s, es[0]), es[1..])
  }

  lemma {:induction false} InvOfRun(s: State, es: seq<Event>)
    requires Inv(s)
    ensures Inv(Exec(s, es))
    decreases |es|
  {
    if es != [] {
      EventKeepsInv(s, es[0]);
      InvOfRun(After(s, es[0]), es[1..]);
    }
  }

  /** The attempt a positive answer refers to: armed for `pid`, with a frame displayed since it began. */
  ghost predicate Earned(s: State, pid: nat) {
    && s.armed == pid && s.seen && s.evidence.Some? && Displayed(s.evidence.value)
    && s.begun <= s.evidence.value.arrival < s.clock
  }

  /** A poll answers true only for the armed process and only on a displayed frame that arrived after its attempt began. */
  lemma TrueIsEarned(es: seq<Event>, pid: nat, statusOk: bool, count: nat)
    ensures var s := Exec(INITIAL, es);
            Answer(s, pid, statusOk, count) == Some(true) ==> Earned(After(s, Poll(pid, statusOk, count)), pid)
  {
    InvOfRun(INITIAL, es);
    EventKeepsInv(Exec(INITIAL, es), Poll(pid, statusOk, count));
  }

  /** Begin and shutdown start over; nothing else does. */
  predicate EndsAttempt(e: Event) {
    e.Begin? || e.Shutdown? || e.Initialize?
  }

  /** Once earned, the answer stays true, with the same evidence, until the next begin or shutdown. */
  lemma {:induction false} TrueStays(s: State, es: seq<Event>, pid: nat, statusOk: bool, count: nat)
    requires Inv(s) && s.ready && pid != 0 && Earned(s, pid)
    requires forall k :: 0 <= k < |es| ==> !EndsAttempt(es[k])
    ensures Answer(Exec(s, es), pid, statusOk, count) == Some(true)
    ensures Exec(s, es).evidence == s.evidence && Exec(s, es).begun == s.begun
    decreases |es|
  {
    if es != [] {
      EventKeepsInv(s, es[0]);
      assert !EndsAttempt(es[0]);
      TrueStays(After(s, es[0]), es[1..], pid, statusOk, count);
    }
  }

  /** A begin whose flush fails leaves every process unarmed until the next begin: no poll answers. */
  lemma {:induction false} FailedFlushDisarmsAll(s: State, pid: nat, es: seq<Event>, q: nat, statusOk: bool, count: nat)
    requires Inv(s) && s.ready && pid != 0
    requires forall k :: 0 <= k < |es| ==> !es[k].Begin?
    ensures Answer(Exec(After(s, Begin(pid, false)), es), q, statusOk, count) == None
  {
    UnarmedStays(After(s, Begin(pid, false)), es);
  }

  lemma {:induction false} UnarmedStays(s: State, es: seq<Event>)
    requires s.armed == 0
    requires forall k :: 0 <= k < |es| ==> !es[k].Begin?
    ensures Exec(s, es).armed == 0
    decreases |es|
  {
    if es != [] {
      assert !es[0].Begin?;
      UnarmedStays(After(s, es[0]), es[1..]);
    }
  }

  /** The frames from the front of the queue that a poll can be given: as many as the service writes, at most 64. */
  predicate Reaches(s: State, pid: nat, count: nat, k: nat) {
    k < |Queue(s, pid)| && k < count && k < 64
  }

  predicate ReachesDisplayed(s: State, pid: nat, count: nat, k: nat) {
    Reaches(s, pid, count, k) && var f := Queue(s, pid)[k]; f.layoutOk && f.interval.Some? && f.interval.value > 0.0
  }

  /** When a poll answers, and when it answers true. */
  lemma AnswerMeans(s: State, pid: nat, statusOk: bool, count: nat)
    ensures Answer(s, pid, statusOk, count) == None <==>
      !s.ready || pid == 0 || s.armed != pid || (!s.seen && !statusOk)
    ensures Answer(s, pid, statusOk, count) == Some(true) <==>
      && s.ready && pid != 0 && s.armed == pid
      && (s.seen || (statusOk && exists k: nat :: ReachesDisplayed(s, pid, count, k)))
  {
    var records := Batch(s, pid, count);
    assert forall k :: 0 <= k < |records| ==> records[k] == Queue(s, pid)[k];
    var first := FirstDisplayed(records);
    if first < |records| { assert ReachesDisplayed(s, pid, count, first); }
    forall k: nat | ReachesDisplayed(s, pid, count, k) ensures first < |records| {
      assert Displayed(records[k]);
    }
  }

  /** A poll that reaches the service takes what it is given out of the queue, and nothing else. */
  lemma PollTakes(s: State, pid: nat, statusOk: bool, count: nat)
    ensures var t := After(s, Poll(pid, statusOk, count));
      && (forall q :: q != pid ==> Queue(t, q) == Queue(s, q))
      && |Queue(t, pid)| <= |Queue(s, pid)|
      && var taken := |Queue(s, pid)| - |Queue(t, pid)|;
      && Queue(t, pid) == Queue(s, pid)[taken..]
      && forall k: nat :: k < taken <==>
        s.ready && pid != 0 && pid == s.armed && !s.seen && statusOk && Reaches(s, pid, count, k)
  {
  }

  /** Arrivals, of whichever processes, only add to the queues. */
  lemma {:induction false} ArrivalsAdd(s: State, es: seq<Event>, pid: nat)
    requires forall i :: 0 <= i < |es| ==> es[i].Arrive?
    ensures var t := Exec(s, es);
      && t.ready == s.ready && t.armed == s.armed
      && Queue(s, pid) <= Queue(t, pid) && |Queue(t, pid)| <= |Queue(s, pid)| + |es|
    decreases |es|
  {
    if es != [] {
      assert es[0].Arrive?;
      ArrivalsAdd(After(s, es[0]), es[1..], pid);
    }
  }

  lemma {:induction false} ArrivalIsQueued(s: State, es: seq<Event>, pid: nat, i: nat) returns (k: nat)
    requires forall i :: 0 <= i < |es| ==> es[i].Arrive?
    requires i < |es| && es[i].pid == pid
    ensures var t := Exec(s, es);
      k < |Queue(t, pid)| && Queue(t, pid)[k].layoutOk == es[i].layoutOk && Queue(t, pid)[k].interval == es[i].interval
    decreases |es|
  {
    assert es[0].Arrive?;
    if i == 0 {
      k := |Queue(s, pid)|;
      ArrivalsAdd(After(s, es[0]), es[1..], pid);
    } else {
      k := ArrivalIsQueued(After(s, es[0]), es[1..], pid, i - 1);
    }
  }

  /**
   Whatever came before, a displayed frame that is among the first 64 arrivals after a successful
   begin makes the next poll answer true, if the service hands over what it has.
   */
  lemma NewFrameIsSeen(before: seq<Event>, pid: nat, es: seq<Event>, i: nat, count: nat)
    requires Exec(INITIAL, before).ready && pid != 0
    requires |es| <= 64 && |es| <= count && forall i :: 0 <= i < |es| ==> es[i].Arrive?
    requires i < |es| && es[i].pid == pid && es[i].layoutOk && es[i].interval.Some? && es[i].interval.value > 0.0
    ensures Answer(Exec(After(Exec(INITIAL, before), Begin(pid, true)), es), pid, true, count) == Some(true)
  {
    var s := After(Exec(INITIAL, before), Begin(pid, true));
    ArrivalsAdd(s, es, pid);
    var k := ArrivalIsQueued(s, es, pid, i);
    assert ReachesDisplayed(Exec(s, es), pid, count, k);
    AnswerMeans(Exec(s, es), pid, true, count);
  }

  /** And a displayed frame within reach is not missed. */
  lemma DisplayedFrameIsSeen(s: State, pid: nat, count: nat, k: nat)
    requires s.ready && pid != 0 && pid == s.armed
    requires k < |Batch(s, pid, count)| && Displayed(Batch(s, pid, count)[k])
    ensures Answer(s, pid, true, count) == Some(true) && After(s, Poll(pid, true, count)).seen
  {
  }
}
