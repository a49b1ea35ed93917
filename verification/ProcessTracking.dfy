/**
 Shared process tracking on one PresentMon session: the reference counts of the client
 (PresentMonApi2Client.cpp), the leases of the provider (PresentMonTelemetryProvider.cpp) and
 the FPS query's own hold (PresentMonProcessTelemetry.cpp). Every endpoint may fail, and the code
 never looks at the answer of a stop.

 The model adds bookkeeping that the code does not have: `leases` are the processes of the live
 lease objects, `log` are the endpoint calls, and `registered` numbers the dynamic queries so
 that a reading can name the query it came through.
 */
module ProcessTracking {
  import opened Options

  const UINT64_MAX := 0xFFFF_FFFF_FFFF_FFFF
  const ALIGNMENT := 16

  /** A query element with the place the service assigned to it in the result blob. */
  datatype Element = Element(offset: nat, size: nat)

  datatype EndpointCall = StartCall(pid: nat, ok: bool) | StopCall(pid: nat, ok: bool)

  /** A measured frame rate, with the process it was asked for and the query it came through. */
  datatype Rate = Rate(fps: real, pid: nat, query: nat)

  datatype Poll = InvalidPid | Failed | NoSwapChain | Polled(fps: Option<real>)

  /**
   How the service answers one read: the stop for the process that was held before, the start,
   the registration with its layout, the poll, and the stop after a failed layout or an invalid process.
   */
  datatype Service = Service(releaseOk: bool, startOk: bool, layout: Option<seq<Element>>, poll: Poll, dropOk: bool)

  datatype Telemetry = Telemetry(ready: bool, query: Option<nat>, blobSize: nat, tracked: nat, owns: bool)

  datatype Session = Session(ready: bool, fps: Telemetry, counts: map<nat, nat>, log: seq<EndpointCall>,
                             registered: nat, leases: multiset<nat>)

  const NO_TELEMETRY := Telemetry(false, None, 0, 0, false)
  const CLOSED := Session(false, NO_TELEMETRY, map[], [], 0, multiset{})

  // ---------------------------------------------------------------- the blob layout

  function Max(a: nat, b: nat): nat {
    if a > b then a else b
  }

  predicate Fits(e: Element) {
    e.offset <= UINT64_MAX - e.size && e.size <= UINT64_MAX
  }

  /** The end of the furthest element, or None when an end exceeds 64 bits. */
  function End(elements: seq<Element>): Option<nat> {
    if elements == [] then Some(0) else
      var e := elements[|elements| - 1];
      match End(elements[..|elements| - 1])
      case None => None
      case Some(end) => if Fits(e) then Some(Max(end, e.offset + e.size)) else None
  }

  /** `(end + 15) & ~15`. */
  function AlignUp(end: nat): nat {
    (end + (ALIGNMENT - 1)) - (end + (ALIGNMENT - 1)) % ALIGNMENT
  }

  function BlobSize(elements: seq<Element>): Option<nat> {
    match End(elements)
    case None => None
    case Some(end) =>
      if end > UINT64_MAX - (ALIGNMENT - 1) then None
      else if AlignUp(end) == 0 then Some(ALIGNMENT) else Some(AlignUp(end))
  }

  lemma {:induction false} EndIsFurthest(elements: seq<Element>)
    ensures End(elements).None? <==> exists k :: 0 <= k < |elements| && !Fits(elements[k])
    ensures End(elements).Some? ==> forall k :: 0 <= k < |elements| ==> elements[k].offset + elements[k].size <= End(elements).value
    ensures End(elements).Some? && End(elements).value > 0 ==>
              exists k :: 0 <= k < |elements| && elements[k].offset + elements[k].size == End(elements).value
  {
    if elements != [] {
      var n := |elements| - 1;
      EndIsFurthest(elements[..n]);
      if k :| 0 <= k < n && !Fits(elements[..n][k]) { assert !Fits(elements[k]); }
      if k :| 0 <= k < |elements| && !Fits(elements[k]) { assert k < n ==> !Fits(elements[..n][k]); }
      if End(elements).Some? && End(elements).value > 0 {
        if elements[n].offset + elements[n].size != End(elements).value {
          var k :| 0 <= k < n && elements[..n][k].offset + elements[..n][k].size == End(elements).value;
          assert elements[k].offset + elements[k].size == End(elements).value;
        }
      }
    }
  }

  /** The blob is the smallest non-empty multiple of 16 bytes that holds every element; it is refused exactly when it needs more than 64 bits. */
  lemma BlobHoldsEveryElement(elements: seq<Element>)
    ensures BlobSize(elements).None? <==>
              exists k :: 0 <= k < |elements| && (!Fits(elements[k]) || elements[k].offset + elements[k].size > UINT64_MAX - (ALIGNMENT - 1))
    ensures BlobSize(elements).Some? ==>
              var size := BlobSize(elements).value;
              && size % ALIGNMENT == 0 && ALIGNMENT <= size <= UINT64_MAX
              && (forall k :: 0 <= k < |elements| ==> elements[k].offset + elements[k].size <= size)
              && (size == ALIGNMENT || exists k :: 0 <= k < |elements| && elements[k].offset + elements[k].size > size - ALIGNMENT)
  {
    EndIsFurthest(elements);
    if End(elements).Some? && End(elements).value > UINT64_MAX - (ALIGNMENT - 1) {
      var k :| 0 <= k < |elements| && elements[k].offset + elements[k].size == End(elements).value;
      assert elements[k].offset + elements[k].size > UINT64_MAX - (ALIGNMENT - 1);
    }
  }

  // ---------------------------------------------------------------- reference-counted tracking

  function Count(s: Session, pid: nat): nat {
    if pid in s.counts then s.counts[pid] else 0
  }

  /** `StartTrackingProcess`: the endpoint is called for the first holder only, and its failure is undone. */
  function StartTracking(s: Session, pid: nat, ok: bool): (Session, bool) {
    if !s.ready then (s, false)
    else if Count(s, pid) > 0 then (s.(counts := s.counts[pid := Count(s, pid) + 1]), true)
    else if ok then (s.(counts := s.counts[pid := 1], log := s.log + [StartCall(pid, true)]), true)
    else (s.(log := s.log + [StartCall(pid, false)]), false)
  }

  /** `StopTrackingProcess`: the count is gone before the endpoint for the last holder is called. */
  function StopTracking(s: Session, pid: nat, ok: bool): Session {
    if !s.ready || pid !in s.counts then s
    else if s.counts[pid] > 1 then s.(counts := s.counts[pid := s.counts[pid] - 1])
    else s.(counts := s.counts - {pid}, log := s.log + [StopCall(pid, ok)])
  }

  function ReleaseTarget(s: Session, ok: bool): Session {
    var t := if s.fps.owns then StopTracking(s, s.fps.tracked, ok) else s;
    t.(fps := Telemetry(s.fps.ready, None, 0, 0, false))
  }

  /** The FPS path holds `pid`; register the query and lay out its blob. */
  function Bind(s: Session, v: Service): (Session, bool) {
    if v.layout.None? then (ReleaseTarget(s, v.dropOk), false) else
      var bound := s.(registered := s.registered + 1, fps := s.fps.(query := Some(s.registered)));
      match BlobSize(v.layout.value)
      case None => (ReleaseTarget(bound, v.dropOk), false)
      case Some(size) => (bound.(fps := bound.fps.(blobSize := size)), true)
  }

  function Retarget(s: Session, pid: nat, v: Service): (Session, bool) {
    var (t, started) := StartTracking(ReleaseTarget(s, v.releaseOk), pid, v.startOk);
    if started then Bind(t.(fps := Telemetry(s.fps.ready, None, 0, pid, true)), v) else (t, false)
  }

  /** One poll through the bound query. */
  function PollQuery(s: Session, pid: nat, v: Service): (Session, Option<Rate>) {
    match v.poll
    case InvalidPid => (ReleaseTarget(s, v.dropOk), None)
    case Failed => (s, None)
    case NoSwapChain => (s, None)
    case Polled(fps) =>
      (s, if fps.Some? && s.fps.query.Some? then Some(Rate(fps.value, pid, s.fps.query.value)) else None)
  }

  /** `PresentMonProcessTelemetry::Read`. */
  function Read(s: Session, pid: nat, v: Service): (Session, Option<Rate>) {
    if !s.fps.ready then (s, None)
    else if pid == 0 then (ReleaseTarget(s, v.releaseOk), None)
    else if s.fps.query.Some? && s.fps.tracked == pid then PollQuery(s, pid, v)
    else
      var (t, bound) := Retarget(s, pid, v);
      if bound then PollQuery(t, pid, v) else (t, None)
  }

  function ReadProcess(s: Session, pid: nat, v: Service): (Session, Option<Rate>) {
    if s.ready then Read(s, pid, v) else (s, None)
  }

  // ---------------------------------------------------------------- events of one session

  datatype Event =
    | ReadFps(pid: nat, service: Service)
    | Acquire(pid: nat, ok: bool)
    | Verify(pid: nat, frameReady: bool, startOk: bool, flushOk: bool, stopOk: bool)
    | DropLease(pid: nat, stopOk: bool)

  function AcquireProcess(s: Session, pid: nat, ok: bool): (Session, bool) {
    if !s.ready || pid == 0 then (s, false) else
      var (t, started) := StartTracking(s, pid, ok);
      if started then (t.(leases := t.leases + multiset{pid}), true) else (t, false)
  }

  /** `BeginGameRenderVerification`: tracking is given back when the frame query cannot be armed. */
  function BeginVerification(s: Session, pid: nat, frameReady: bool, startOk: bool, flushOk: bool, stopOk: bool): (Session, bool)
  {
    if !s.ready || !frameReady || pid == 0 then (s, false) else
      var (t, started) := StartTracking(s, pid, startOk);
      if !started then (t, false)
      else if !flushOk then (StopTracking(t, pid, stopOk), false)
      else (t.(leases := t.leases + multiset{pid}), true)
  }

  function ReleaseLease(s: Session, pid: nat, ok: bool): Session {
    var t := s.(leases := s.leases - multiset{pid});
    if pid != 0 then StopTracking(t, pid, ok) else t
  }

  predicate Possible(s: Session, e: Event) {
    e.DropLease? ==> e.pid in s.leases
  }

  function After(s: Session, e: Event): Session {
    match e
    case ReadFps(pid, v) => ReadProcess(s, pid, v).0
    case Acquire(pid, ok) => AcquireProcess(s, pid, ok).0
    case Verify(pid, frameReady, startOk, flushOk, stopOk) =>
      BeginVerification(s, pid, frameReady, startOk, flushOk, stopOk).0
    case DropLease(pid, stopOk) => ReleaseLease(s, pid, stopOk)
  }

  /** `ShutdownUnlocked`: the session ends, and with it the tracking; leases may outlive it. */
  function Shutdown(s: Session): Session {
    s.(ready := false, fps := NO_TELEMETRY, counts := map[], log := [])
  }

  /** `Initialize`: a new session starts from a shut-down one. */
  function Open(s: Session, ok: bool, processOk: bool): Session {
    var t := Shutdown(s);
    if ok then t.(ready := true, fps := NO_TELEMETRY.(ready := processOk)) else t
  }

  // ---------------------------------------------------------------- conservation

  /** The FPS path's own hold on `pid`. */
  function Hold(s: Session, pid: nat): nat {
    if s.fps.owns && s.fps.tracked == pid then 1 else 0
  }

  ghost predicate Conserved(s: Session) {
    forall pid: nat :: Count(s, pid) == s.leases[pid] + Hold(s, pid)
  }

  /**
   The processes that the client believes tracked, by its calls alone; None if it called a start or
   a stop out of turn. A stop counts whatever the service answers.
   */
  function InTurn(log: seq<EndpointCall>): Option<set<nat>> {
    if log == [] then Some({}) else
      match InTurn(log[..|log| - 1])
      case None => None
      case Some(on) =>
        (match log[|log| - 1]
         case StartCall(pid, ok) => if pid in on then None else if ok then Some(on + {pid}) else Some(on)
         case StopCall(pid, _) => if pid in on then Some(on - {pid}) else None)
  }

  /** The processes that the service tracks: only calls that succeed change anything. */
  function Tracked(log: seq<EndpointCall>): set<nat> {
    if log == [] then {} else
      var on := Tracked(log[..|log| - 1]);
      var last := log[|log| - 1];
      if !last.ok then on else if last.StartCall? then on + {last.pid} else on - {last.pid}
  }

  /** Stopping the process failed, and no start has succeeded since. */
  ghost predicate Lingers(log: seq<EndpointCall>, pid: nat) {
    exists k :: 0 <= k < |log| && log[k] == StopCall(pid, false) && NoneSince(log, pid, k)
  }

  ghost predicate NoneSince(log: seq<EndpointCall>, pid: nat, k: nat) {
    forall j :: k < j < |log| && log[j].pid == pid ==> log[j] == StartCall(pid, false)
  }

  /** One more call lets a process linger exactly when it is its failed stop, or changes nothing for it. */
  lemma LingersNext(log: seq<EndpointCall>, c: EndpointCall, pid: nat)
    ensures Lingers(log + [c], pid) <==>
      c == StopCall(pid, false) || (Lingers(log, pid) && (c.pid == pid ==> c == StartCall(pid, false)))
  {
    var longer := log + [c];
    assert forall j :: 0 <= j < |log| ==> longer[j] == log[j];
    assert longer[|log|] == c;
    if Lingers(longer, pid) && c != StopCall(pid, false) {
      var k :| 0 <= k < |longer| && longer[k] == StopCall(pid, false) && NoneSince(longer, pid, k);
      assert NoneSince(log, pid, k);
    }
    if c == StopCall(pid, false) { assert NoneSince(longer, pid, |log|); }
    if Lingers(log, pid) && (c.pid == pid ==> c == StartCall(pid, false)) {
      var k :| 0 <= k < |log| && log[k] == StopCall(pid, false) && NoneSince(log, pid, k);
      assert NoneSince(longer, pid, k);
    }
  }

  /** What the service tracks beyond the client's belief is exactly what lingers. */
  lemma {:induction false} TrackedMeans(log: seq<EndpointCall>)
    requires InTurn(log).Some?
    ensures forall pid: nat :: pid in Tracked(log) <==> pid in InTurn(log).value || Lingers(log, pid)
    ensures forall pid: nat :: pid in InTurn(log).value ==> !Lingers(log, pid)
  {
    if log != [] {
      var before, c := log[..|log| - 1], log[|log| - 1];
      assert log == before + [c];
      TrackedMeans(before);
      forall pid: nat ensures Lingers(log, pid) <==>
        c == StopCall(pid, false) || (Lingers(before, pid) && (c.pid == pid ==> c == StartCall(pid, false)))
      {
        LingersNext(before, c, pid);
      }
    }
  }

  /** Counts are positive, the calls were in turn, and the client believes exactly the counted processes tracked. */
  ghost predicate EndpointsOk(s: Session) {
    (forall pid :: pid in s.counts ==> s.counts[pid] > 0) && InTurn(s.log) == Some(s.counts.Keys)
  }

  ghost predicate TelemetryOk(s: Session) {
    && (s.fps.query.Some? ==> s.fps.owns && s.fps.query.value < s.registered && s.fps.blobSize > 0)
    && (s.fps.owns ==> s.ready && s.fps.ready && s.fps.tracked != 0)
    && 0 !in s.leases
  }

  ghost predicate Inv(s: Session) {
    EndpointsOk(s) && TelemetryOk(s) && (s.ready ==> Conserved(s))
  }

  /** The start endpoint is called exactly when the count was zero, and the count grows by one exactly on success. */
  lemma StartOnFirstHolder(s: Session, pid: nat, ok: bool)
    requires EndpointsOk(s) && s.ready
    ensures var (t, started) := StartTracking(s, pid, ok);
            && EndpointsOk(t) && t.fps == s.fps && t.leases == s.leases && t.ready && t.registered == s.registered
            && (started <==> Count(s, pid) > 0 || ok)
            && (forall p :: Count(t, p) == Count(s, p) + (if started && p == pid then 1 else 0))
            && t.log == s.log + (if Count(s, pid) == 0 then [StartCall(pid, ok)] else [])
  {
    var t := StartTracking(s, pid, ok).0;
    if Count(s, pid) > 0 {
      assert t.counts.Keys == s.counts.Keys;
    } else {
      assert pid !in s.counts && t.log[..|s.log|] == s.log && t.log[|s.log|] == StartCall(pid, ok);
      assert t.counts.Keys == if ok then s.counts.Keys + {pid} else s.counts.Keys;
      assert InTurn(t.log) == Some(t.counts.Keys);
    }
  }

  /** The stop endpoint is called exactly when the count drops from one to zero. */
  lemma StopOnLastHolder(s: Session, pid: nat, ok: bool)
    requires EndpointsOk(s) && s.ready && Count(s, pid) > 0
    ensures var t := StopTracking(s, pid, ok);
            && EndpointsOk(t) && t.fps == s.fps && t.leases == s.leases && t.ready && t.registered == s.registered
            && (forall p :: Count(t, p) == Count(s, p) - (if p == pid then 1 else 0))
            && t.log == s.log + (if Count(s, pid) == 1 then [StopCall(pid, ok)] else [])
  {
    var t := StopTracking(s, pid, ok);
    assert pid in s.counts;
    if s.counts[pid] > 1 {
      assert t.counts.Keys == s.counts.Keys && t.log == s.log;
    } else {
      assert t.counts.Keys == s.counts.Keys - {pid};
      assert t.log[..|s.log|] == s.log && t.log[|s.log|] == StopCall(pid, ok);
      assert InTurn(t.log) == Some(t.counts.Keys);
    }
  }

  /** The part of the invariant that only the counts, the leases and the FPS hold decide. */
  ghost predicate Balanced(s: Session) {
    s.ready && EndpointsOk(s) && Conserved(s) && 0 !in s.leases
  }

  lemma BalancedCongruent(s: Session, t: Session)
    requires Balanced(s) && t.ready && t.counts == s.counts && t.log == s.log && t.leases == s.leases
    requires forall p :: Hold(t, p) == Hold(s, p)
    ensures Balanced(t)
  {
    assert forall p :: Count(t, p) == Count(s, p);
  }

  lemma ReleaseTargetConserves(s: Session, ok: bool)
    requires Balanced(s)
    ensures var t := ReleaseTarget(s, ok);
            && Inv(t) && Balanced(t) && t.leases == s.leases && t.registered == s.registered
            && t.fps == Telemetry(s.fps.ready, None, 0, 0, false)
  {
    if s.fps.owns {
      assert Count(s, s.fps.tracked) == s.leases[s.fps.tracked] + 1;
      StopOnLastHolder(s, s.fps.tracked, ok);
      assert forall p :: Count(ReleaseTarget(s, ok), p) == Count(StopTracking(s, s.fps.tracked, ok), p);
    } else {
      assert forall p :: Count(ReleaseTarget(s, ok), p) == Count(s, p);
    }
  }

  lemma BindConserves(s: Session, v: Service)
    requires Balanced(s) && s.fps == Telemetry(true, None, 0, s.fps.tracked, true) && s.fps.tracked != 0
    ensures var (t, bound) := Bind(s, v);
            && Inv(t) && Balanced(t) && t.leases == s.leases && t.fps.ready && s.registered <= t.registered
            && (if bound then t.fps.query == Some(s.registered) && t.fps.tracked == s.fps.tracked else t.fps.query.None?)
  {
    if v.layout.None? {
      ReleaseTargetConserves(s, v.dropOk);
    } else {
      var named := s.(registered := s.registered + 1, fps := s.fps.(query := Some(s.registered)));
      BalancedCongruent(s, named);
      ReleaseTargetConserves(named, v.dropOk);
      BlobHoldsEveryElement(v.layout.value);
      if BlobSize(v.layout.value).Some? { BalancedCongruent(named, Bind(s, v).0); }
    }
  }

  lemma RetargetConserves(s: Session, pid: nat, v: Service)
    requires Balanced(s) && s.fps.ready && pid != 0
    ensures var (t, bound) := Retarget(s, pid, v);
            && Inv(t) && Balanced(t) && t.leases == s.leases && t.fps.ready && s.registered <= t.registered
            && (if bound then t.fps.query == Some(s.registered) && t.fps.tracked == pid else t.fps.query.None?)
  {
    ReleaseTargetConserves(s, v.releaseOk);
    var r := ReleaseTarget(s, v.releaseOk);
    StartOnFirstHolder(r, pid, v.startOk);
    var (t, started) := StartTracking(r, pid, v.startOk);
    if started {
      var held := t.(fps := Telemetry(s.fps.ready, None, 0, pid, true));
      assert forall p :: Count(held, p) == Count(t, p);
      assert Balanced(held) by { assert EndpointsOk(t); }
      BindConserves(held, v);
    } else {
      assert forall p :: Count(t, p) == Count(r, p);
      assert EndpointsOk(t) && Balanced(t);
    }
  }

  lemma PollConserves(s: Session, pid: nat, v: Service)
    requires Inv(s) && Balanced(s)
    ensures var (t, rate) := PollQuery(s, pid, v);
            && Inv(t) && Balanced(t) && t.leases == s.leases && t.registered == s.registered
            && (t.fps.query.Some? ==> t.fps.query == s.fps.query)
            && (rate.Some? ==> rate.value.pid == pid && Some(rate.value.query) == s.fps.query)
  {
    ReleaseTargetConserves(s, v.dropOk);
  }

  lemma ReadConserves(s: Session, pid: nat, v: Service)
    requires Inv(s)
    ensures var (t, rate) := ReadProcess(s, pid, v);
            && Inv(t) && t.ready == s.ready && t.leases == s.leases && s.registered <= t.registered
            && (pid == 0 ==> t.fps.query.None?)
            && (t.fps.query.Some? ==> t.fps.query == s.fps.query || t.fps.query.value >= s.registered)
            && (rate.Some? ==> rate.value.pid == pid && pid != 0)
            && (rate.Some? ==> Some(rate.value.query) == s.fps.query || rate.value.query >= s.registered)
  {
    if s.ready && s.fps.ready {
      if pid == 0 {
        ReleaseTargetConserves(s, v.releaseOk);
      } else if s.fps.query.Some? && s.fps.tracked == pid {
        PollConserves(s, pid, v);
      } else {
        RetargetConserves(s, pid, v);
        var (t, bound) := Retarget(s, pid, v);
        if bound { PollConserves(t, pid, v); }
      }
    }
  }

  // ---------------------------------------------------------------- what a read returns

  /** Every element ends within 64 bits, with room for the alignment. */
  predicate LayoutFits(layout: Option<seq<Element>>) {
    layout.Some? && forall k :: 0 <= k < |layout.value| ==> layout.value[k].offset + layout.value[k].size <= 0xFFFF_FFFF_FFFF_FFF0
  }

  /** A query is bound to the process already, or can be: tracked for a lease or newly, registered, laid out. */
  predicate CanBind(s: Session, pid: nat, v: Service) {
    (s.fps.query.Some? && s.fps.tracked == pid) || ((pid in s.leases || v.startOk) && LayoutFits(v.layout))
  }

  predicate CanPoll(s: Session, pid: nat, v: Service) {
    s.ready && s.fps.ready && pid != 0 && CanBind(s, pid, v)
  }

  lemma BindMeans(s: Session, v: Service)
    requires Balanced(s) && s.fps == Telemetry(true, None, 0, s.fps.tracked, true) && s.fps.tracked != 0
    ensures Bind(s, v).1 <==> LayoutFits(v.layout)
    ensures Bind(s, v).1 ==> Bind(s, v).0.fps == Telemetry(true, Some(s.registered), BlobSize(v.layout.value).value, s.fps.tracked, true)
  {
    if v.layout.Some? { BlobHoldsEveryElement(v.layout.value); }
  }

  lemma RetargetMeans(s: Session, pid: nat, v: Service)
    requires Balanced(s) && s.fps.ready && pid != 0
    ensures Retarget(s, pid, v).1 <==> (pid in s.leases || v.startOk) && LayoutFits(v.layout)
    ensures Retarget(s, pid, v).1 ==>
      Retarget(s, pid, v).0.fps == Telemetry(true, Some(s.registered), BlobSize(v.layout.value).value, pid, true)
  {
    ReleaseTargetConserves(s, v.releaseOk);
    var r := ReleaseTarget(s, v.releaseOk);
    StartOnFirstHolder(r, pid, v.startOk);
    var (t, started) := StartTracking(r, pid, v.startOk);
    assert Count(r, pid) == r.leases[pid] + Hold(r, pid);
    if started {
      var held := t.(fps := Telemetry(s.fps.ready, None, 0, pid, true));
      assert forall p :: Count(held, p) == Count(t, p);
      assert Balanced(held) by { assert EndpointsOk(t); }
      BindMeans(held, v);
    }
  }

  /**
   A read returns a rate exactly when session and telemetry are ready, the process is known, a query
   is or can be bound to it, and the poll measured something; then it is what the poll measured.
   */
  lemma ReadMeans(s: Session, pid: nat, v: Service)
    requires Inv(s)
    ensures var rate := ReadProcess(s, pid, v).1;
      && (rate.Some? <==> CanPoll(s, pid, v) && v.poll.Polled? && v.poll.fps.Some?)
      && (rate.Some? ==> rate.value.fps == v.poll.fps.value && rate.value.pid == pid)
      && (rate.Some? ==>
            rate.value.query == if s.fps.query.Some? && s.fps.tracked == pid then s.fps.query.value else s.registered)
  {
    if s.ready && s.fps.ready && pid != 0 && !(s.fps.query.Some? && s.fps.tracked == pid) { RetargetMeans(s, pid, v); }
  }

  /** Afterwards the query is bound to the process, or, if that failed or the process is gone, to none. */
  lemma ReadBinds(s: Session, pid: nat, v: Service)
    requires Inv(s) && s.ready && s.fps.ready
    ensures var t := ReadProcess(s, pid, v).0;
      if CanPoll(s, pid, v) && !v.poll.InvalidPid? then t.fps.query.Some? && t.fps.owns && t.fps.tracked == pid
      else t.fps == Telemetry(true, None, 0, 0, false)
  {
    if pid != 0 && !(s.fps.query.Some? && s.fps.tracked == pid) {
      RetargetMeans(s, pid, v);
      RetargetConserves(s, pid, v);
      if !Retarget(s, pid, v).1 { UnboundIsReleased(s, pid, v); }
    }
  }

  lemma UnboundIsReleased(s: Session, pid: nat, v: Service)
    requires Balanced(s) && s.fps.ready && pid != 0 && !Retarget(s, pid, v).1
    ensures Retarget(s, pid, v).0.fps == Telemetry(true, None, 0, 0, false)
  {
    ReleaseTargetConserves(s, v.releaseOk);
  }

  /** Leases are granted exactly when tracking succeeds, and given back exactly when dropped. */
  lemma LeasesMean(s: Session, e: Event)
    requires Inv(s) && Possible(s, e)
    ensures After(s, e).leases == match e
      case ReadFps(_, _) => s.leases
      case Acquire(pid, ok) =>
        if s.ready && pid != 0 && (Count(s, pid) > 0 || ok) then s.leases + multiset{pid} else s.leases
      case Verify(pid, frameReady, startOk, flushOk, _) =>
        if s.ready && frameReady && pid != 0 && (Count(s, pid) > 0 || startOk) && flushOk then s.leases + multiset{pid} else s.leases
      case DropLease(pid, _) => s.leases - multiset{pid}
    ensures e.Acquire? ==> (AcquireProcess(s, e.pid, e.ok).1 <==> After(s, e).leases != s.leases)
    ensures e.Verify? ==>
      (BeginVerification(s, e.pid, e.frameReady, e.startOk, e.flushOk, e.stopOk).1 <==> After(s, e).leases != s.leases)
  {
    if e.ReadFps? {
      ReadConserves(s, e.pid, e.service);
    } else if !e.DropLease? {
      assert (s.leases + multiset{e.pid})[e.pid] == s.leases[e.pid] + 1;
    }
  }

  /** `after` extends `before`, and the calls it adds stop only processes without a lease. */
  ghost predicate StopsUnleased(before: Session, after: Session) {
    && before.log <= after.log
    && forall k :: |before.log| <= k < |after.log| && after.log[k].StopCall? ==> after.log[k].pid !in before.leases
  }

  lemma StopsConcat(s: Session, t: Session, u: Session)
    requires StopsUnleased(s, t) && StopsUnleased(t, u) && t.leases == s.leases
    ensures StopsUnleased(s, u)
  {
    forall k | |s.log| <= k < |u.log| && u.log[k].StopCall? ensures u.log[k].pid !in s.leases {
      if k < |t.log| { assert u.log[k] == t.log[k]; }
    }
  }

  lemma ReleaseStopsUnleased(s: Session, ok: bool)
    requires Balanced(s)
    ensures StopsUnleased(s, ReleaseTarget(s, ok))
  {
    ReleaseTargetConserves(s, ok);
    if s.fps.owns {
      assert Count(s, s.fps.tracked) == s.leases[s.fps.tracked] + 1;
      StopOnLastHolder(s, s.fps.tracked, ok);
    }
  }

  lemma BindStopsUnleased(s: Session, v: Service)
    requires Balanced(s) && s.fps == Telemetry(true, None, 0, s.fps.tracked, true) && s.fps.tracked != 0
    ensures StopsUnleased(s, Bind(s, v).0)
  {
    if v.layout.None? {
      ReleaseStopsUnleased(s, v.dropOk);
    } else {
      var named := s.(registered := s.registered + 1, fps := s.fps.(query := Some(s.registered)));
      BalancedCongruent(s, named);
      ReleaseStopsUnleased(named, v.dropOk);
    }
  }

  lemma RetargetStopsUnleased(s: Session, pid: nat, v: Service)
    requires Balanced(s) && s.fps.ready && pid != 0
    ensures StopsUnleased(s, Retarget(s, pid, v).0)
  {
    ReleaseTargetConserves(s, v.releaseOk);
    ReleaseStopsUnleased(s, v.releaseOk);
    var r := ReleaseTarget(s, v.releaseOk);
    StartOnFirstHolder(r, pid, v.startOk);
    var (t, started) := StartTracking(r, pid, v.startOk);
    assert StopsUnleased(r, t);
    StopsConcat(s, r, t);
    if started {
      var held := t.(fps := Telemetry(s.fps.ready, None, 0, pid, true));
      assert forall p :: Count(held, p) == Count(t, p);
      assert Balanced(held) by { assert EndpointsOk(t); }
      BindStopsUnleased(held, v);
      StopsConcat(s, held, Bind(held, v).0);
    }
  }

  lemma PollStopsUnleased(s: Session, pid: nat, v: Service)
    requires Balanced(s)
    ensures StopsUnleased(s, PollQuery(s, pid, v).0)
  {
    ReleaseStopsUnleased(s, v.dropOk);
  }

  lemma RetargetAndPollStopUnleased(s: Session, pid: nat, v: Service)
    requires Balanced(s) && s.fps.ready && pid != 0 && Retarget(s, pid, v).1
    ensures StopsUnleased(s, PollQuery(Retarget(s, pid, v).0, pid, v).0)
  {
    var t := Retarget(s, pid, v).0;
    RetargetStopsUnleased(s, pid, v);
    RetargetConserves(s, pid, v);
    PollStopsUnleased(t, pid, v);
    StopsConcat(s, t, PollQuery(t, pid, v).0);
  }

  /** A read, with all its retargeting and every failure, ends the tracking of no leased process. */
  lemma ReadStopsOnlyUnleased(s: Session, pid: nat, v: Service)
    requires Inv(s)
    ensures StopsUnleased(s, ReadProcess(s, pid, v).0)
  {
    if s.ready && s.fps.ready {
      if pid == 0 {
        ReleaseStopsUnleased(s, v.releaseOk);
      } else if s.fps.query.Some? && s.fps.tracked == pid {
        PollStopsUnleased(s, pid, v);
      } else if Retarget(s, pid, v).1 {
        RetargetAndPollStopUnleased(s, pid, v);
      } else {
        RetargetStopsUnleased(s, pid, v);
      }
    }
  }

  lemma AcquireConserves(s: Session, pid: nat, ok: bool)
    requires Inv(s)
    ensures Inv(AcquireProcess(s, pid, ok).0)
  {
    if s.ready && pid != 0 {
      StartOnFirstHolder(s, pid, ok);
      var (t, started) := StartTracking(s, pid, ok);
      var u := AcquireProcess(s, pid, ok).0;
      assert forall p :: Count(u, p) == Count(t, p);
    }
  }

  lemma VerifyConserves(s: Session, pid: nat, frameReady: bool, startOk: bool, flushOk: bool, stopOk: bool)
    requires Inv(s)
    ensures Inv(BeginVerification(s, pid, frameReady, startOk, flushOk, stopOk).0)
  {
    if s.ready && frameReady && pid != 0 {
      StartOnFirstHolder(s, pid, startOk);
      var (t, started) := StartTracking(s, pid, startOk);
      var u := BeginVerification(s, pid, frameReady, startOk, flushOk, stopOk).0;
      if started {
        if flushOk { assert forall p :: Count(u, p) == Count(t, p); } else { StopOnLastHolder(t, pid, stopOk); }
      }
    }
  }

  lemma DropConserves(s: Session, pid: nat, ok: bool)
    requires Inv(s) && pid in s.leases
    ensures Inv(ReleaseLease(s, pid, ok))
  {
    var t := s.(leases := s.leases - multiset{pid});
    assert forall p :: Count(t, p) == Count(s, p);
    if s.ready {
      assert Count(s, pid) == s.leases[pid] + Hold(s, pid);
      StopOnLastHolder(t, pid, ok);
    }
  }

  lemma EventConserves(s: Session, e: Event)
    requires Inv(s) && Possible(s, e)
    ensures Inv(After(s, e))
    ensures e.ReadFps? ==> After(s, e).leases == s.leases
  {
    match e {
      case ReadFps(pid, v) => ReadConserves(s, pid, v);
      case Acquire(pid, ok) => AcquireConserves(s, pid, ok);
      case Verify(pid, frameReady, startOk, flushOk, stopOk) =>
        VerifyConserves(s, pid, frameReady, startOk, flushOk, stopOk);
      case DropLease(pid, stopOk) => DropConserves(s, pid, stopOk);
    }
  }

  ghost predicate Runs(s: Session, es: seq<Event>)
    decreases |es|
  {
    es == [] || (Possible(s, es[0]) && Runs(After(s, es[0]), es[1..]))
  }

  function Exec(s: Session, es: seq<Event>): Session
    decreases |es|
  {
    if es == [] then s else Exec(After(s, es[0]), es[1..])
  }

  /**
   Within a session, under every pattern of endpoint failures, a process is counted once for each
   live lease and once for the FPS query, and the endpoints were called strictly in turn.
   */
  lemma {:induction false} CountsConserved(s: Session, es: seq<Event>)
    requires Inv(s) && Runs(s, es)
    ensures Inv(Exec(s, es)) && Exec(s, es).ready == s.ready
    decreases |es|
  {
    if es != [] {
      EventConserves(s, es[0]);
      ReadyStays(s, es[0]);
      CountsConserved(After(s, es[0]), es[1..]);
    }
  }

  /** Somebody holds the process: a lease, or the FPS query. */
  ghost predicate Held(s: Session, pid: nat) {
    pid in s.leases || Hold(s, pid) == 1
  }

  /**
   What the service is left tracking is what somebody holds, together with the processes whose stop
   failed and that were not started again; so it is exactly what somebody holds if and only if there
   is no process of the latter kind.
   */
  lemma TrackingConserved(s: Session, es: seq<Event>)
    requires Inv(s) && s.ready && Runs(s, es)
    ensures var t := Exec(s, es);
      && (forall pid: nat :: pid in t.counts.Keys <==> Held(t, pid))
      && (forall pid: nat :: pid in Tracked(t.log) <==> Held(t, pid) || Lingers(t.log, pid))
      && (forall pid: nat :: !(Held(t, pid) && Lingers(t.log, pid)))
      && ((forall pid: nat :: pid in Tracked(t.log) <==> Held(t, pid)) <==> forall pid: nat :: !Lingers(t.log, pid))
  {
    var t := Exec(s, es);
    CountsConserved(s, es);
    TrackedMeans(t.log);
    forall pid: nat ensures pid in t.counts.Keys <==> Held(t, pid) {
      assert Count(t, pid) == t.leases[pid] + Hold(t, pid);
    }
  }

  /** From a new session: one lease, whose end the service refuses, leaves a process tracked for nobody. */
  lemma FailedStopLingers(pid: nat)
    requires pid != 0
    ensures var s := Open(CLOSED, true, true);
            var es := [Acquire(pid, true), DropLease(pid, false)];
      && Runs(s, es) && !Held(Exec(s, es), pid) && Tracked(Exec(s, es).log) == {pid}
      && After(Exec(s, es), Acquire(pid, true)).log == Exec(s, es).log + [StartCall(pid, true)]
  {
    var s := Open(CLOSED, true, true);
    var es := [Acquire(pid, true), DropLease(pid, false)];
    var t := LeaseThenFailedStop(s, pid);
    var held := After(s, es[0]);
    assert es[1..] == [es[1]] && es[1..][1..] == [];
    assert Runs(held, es[1..]) && Exec(held, es[1..]) == t;
    TrackedAfterFailedStop(pid);
  }

  lemma LeaseThenFailedStop(s: Session, pid: nat) returns (t: Session)
    requires pid != 0 && s == Open(CLOSED, true, true)
    ensures Possible(After(s, Acquire(pid, true)), DropLease(pid, false))
    ensures t == After(After(s, Acquire(pid, true)), DropLease(pid, false))
    ensures t == s.(log := [StartCall(pid, true), StopCall(pid, false)])
  {
    var held := After(s, Acquire(pid, true));
    assert held.log == [StartCall(pid, true)] && held.counts == map[pid := 1] && held.leases == multiset{pid};
    t := After(held, DropLease(pid, false));
    assert t.counts == map[] && t.leases == multiset{};
    assert t.log == [StartCall(pid, true), StopCall(pid, false)];
  }

  lemma TrackedAfterFailedStop(pid: nat)
    ensures Tracked([StartCall(pid, true), StopCall(pid, false)]) == {pid}
  {
    var log := [StartCall(pid, true), StopCall(pid, false)];
    assert log[..1] == [StartCall(pid, true)] && log[..1][..0] == [];
    assert Tracked(log[..1]) == {pid};
  }

  lemma ReadyStays(s: Session, e: Event)
    requires Inv(s) && Possible(s, e)
    ensures After(s, e).ready == s.ready
  {
    if e.ReadFps? { ReadConserves(s, e.pid, e.service); }
  }

  /** Shutting down drops the counts and, with the session, all its tracking. */
  lemma ShutdownConserves(s: Session)
    requires Inv(s)
    ensures Inv(Shutdown(s)) && Shutdown(s).leases == s.leases && Shutdown(s).registered == s.registered
  {
    assert Shutdown(s).counts.Keys == {} && InTurn([]) == Some({});
  }

  /**
   Opening a new session restores conservation exactly when no lease outlived the old one. A lease
   that did would, on its release, end the tracking of a process that somebody else holds now.
   */
  lemma OpenConservesExactlyWithoutLeases(s: Session, processOk: bool)
    requires Inv(s)
    ensures Inv(Open(s, true, processOk)) <==> s.leases == multiset{}
  {
    var t := Open(s, true, processOk);
    assert t.leases == s.leases && t.counts == map[] && t.ready;
    assert InTurn(t.log) == Some({}) && t.counts.Keys == {};
    assert Conserved(t) <==> forall pid: nat :: s.leases[pid] == 0;
    if s.leases != multiset{} {
      var pid :| pid in s.leases;
      assert s.leases[pid] > 0;
    }
  }

  lemma ClosedInv(processOk: bool)
    ensures Inv(CLOSED) && Inv(Open(CLOSED, true, processOk))
  {
    assert InTurn([]) == Some({}) && CLOSED.counts.Keys == {};
    OpenConservesExactlyWithoutLeases(CLOSED, processOk);
  }
}
