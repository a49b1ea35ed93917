/**
 Which process the displayed frame rate belongs to (ProductionTelemetryController.cpp,
 AlwaysModeFpsTarget.cpp). Two visibility modes share one value, one stale hold and one
 process-bound query. A `Rate` carries the process it was measured for and the number of the
 query it was read through; the code never looks at either, the theorems do.
 */
module FpsAttribution {
  import opened Options
  import T = ProcessTracking
  import S = PresentMonSession
  import H = FpsStaleHold

  datatype Mode = Always | InGameOnly

  function ResolveTarget(mode: Mode, foreground: nat, inGame: nat): nat {
    if mode == Always then foreground else inGame
  }

  /** The foreground target of the Always mode with the last sample accepted for it. */
  datatype Target = Target(pid: nat, publishedPid: nat, published: Option<T.Rate>)

  const NO_TARGET := Target(0, 0, None)

  function WithForeground(t: Target, pid: nat): Target {
    if pid == t.pid then t else Target(pid, 0, None)
  }

  function Accepting(t: Target, pid: nat, rate: Option<T.Rate>): Target {
    if pid == 0 || pid != t.pid then t else Target(t.pid, pid, rate)
  }

  function Displayed(t: Target): Option<T.Rate> {
    if t.pid == 0 || t.publishedPid != t.pid then None else t.published
  }

  /** `epoch` counts the queries registered when the in-game target or the mode was last set. */
  datatype State = State(session: T.Session, mode: Mode, always: Target, inGame: nat,
                         hold: H.Hold<T.Rate>, latest: Option<T.Rate>, epoch: nat)

  function Resolved(s: State): nat {
    ResolveTarget(s.mode, s.always.pid, s.inGame)
  }

  datatype Event =
    | SampleFps(now: nat, service: T.Service)
    | SetVisibilityMode(mode: Mode, foreground: nat, stopOk: bool)
    | ForegroundChanged(pid: nat)
    | SetInGame(pid: nat, stopOk: bool)
    | ClearInGame(stopOk: bool)
    | StopFpsSampling(clearTarget: bool, stopOk: bool)
    | Tracking(event: T.Event)
    | CloseProvider
    | OpenProvider(ok: bool, processOk: bool)

  /** Releasing the shared query asks the service for nothing but to stop tracking. */
  function Stopping(stopOk: bool): T.Service {
    T.Service(stopOk, false, None, T.Failed, false)
  }

  /** The value, the hold and the query of the previous target are dropped together. */
  function Invalidated(s: State, stopOk: bool): State {
    s.(latest := None, hold := H.Empty(), session := T.ReadProcess(s.session, 0, Stopping(stopOk)).0)
  }

  function AfterSample(s: State, now: nat, v: T.Service): State {
    var pid := Resolved(s);
    if pid == 0 then Invalidated(s, v.releaseOk) else
      var (session, rate) := T.ReadProcess(s.session, pid, v);
      var always := if s.mode == Always then Accepting(s.always, pid, rate) else s.always;
      var shown := if s.mode == Always then Displayed(always) else rate;
      var hold := H.AfterPoll(s.hold, pid, shown, now);
      s.(session := session, always := always, hold := hold, latest := hold.last)
  }

  function AfterSetMode(s: State, mode: Mode, foreground: nat, stopOk: bool): State {
    var t := Invalidated(s.(mode := mode, always := NO_TARGET), stopOk);
    t.(always := if mode == Always then WithForeground(NO_TARGET, foreground) else NO_TARGET,
       epoch := t.session.registered)
  }

  function AfterForeground(s: State, pid: nat): State {
    var t := s.(always := WithForeground(s.always, pid));
    if pid != s.always.pid && s.mode == Always then t.(latest := None, hold := H.Empty()) else t
  }

  function AfterInGame(s: State, pid: nat, stopOk: bool): State {
    var t := s.(inGame := pid);
    var u := if s.mode == InGameOnly then Invalidated(t, stopOk) else t;
    u.(epoch := u.session.registered)
  }

  predicate Possible(s: State, e: Event) {
    match e
    case Tracking(t) => !t.ReadFps? && T.Possible(s.session, t)
    case OpenProvider(_, _) => s.session.leases == multiset{}
    case _ => true
  }

  function After(s: State, e: Event): State {
    match e
    case SampleFps(now, v) => AfterSample(s, now, v)
    case SetVisibilityMode(mode, foreground, stopOk) => AfterSetMode(s, mode, foreground, stopOk)
    case ForegroundChanged(pid) => AfterForeground(s, pid)
    case SetInGame(pid, stopOk) => AfterInGame(s, pid, stopOk)
    case ClearInGame(stopOk) => if s.inGame == 0 then s else AfterInGame(s, 0, stopOk)
    case StopFpsSampling(clear, stopOk) => if clear then Invalidated(s, stopOk) else s
    case Tracking(t) => s.(session := T.After(s.session, t))
    case CloseProvider => s.(session := T.Shutdown(s.session))
    case OpenProvider(ok, processOk) => s.(session := T.Open(s.session, ok, processOk))
  }

  function Initial(mode: Mode): State {
    State(T.CLOSED, mode, NO_TARGET, 0, H.Empty(), None, 0)
  }

  // ---------------------------------------------------------------- attribution

  /** The rate was measured for the current target, in the InGameOnly mode through a query of the current epoch. */
  predicate BelongsNow(s: State, r: T.Rate) {
    r.pid == Resolved(s) && r.pid != 0 && (s.mode == InGameOnly ==> r.query >= s.epoch)
  }

  ghost predicate Attributed(s: State) {
    && T.Inv(s.session) && s.epoch <= s.session.registered
    && (s.latest.Some? ==> BelongsNow(s, s.latest.value))
    && (s.hold.last.Some? ==> s.hold.pid == Resolved(s) && BelongsNow(s, s.hold.last.value))
    && (s.always.published.Some? ==> s.always.published.value.pid == s.always.publishedPid)
    && (s.mode == InGameOnly && s.session.fps.query.Some? ==> s.session.fps.query.value >= s.epoch)
  }

  lemma InvalidationAttributes(s: State, stopOk: bool)
    requires T.Inv(s.session) && s.epoch <= s.session.registered
    requires s.always.published.Some? ==> s.always.published.value.pid == s.always.publishedPid
    ensures Attributed(Invalidated(s, stopOk)) && Invalidated(s, stopOk).session.fps.query.None?
    ensures Invalidated(s, stopOk).session.registered >= s.session.registered
  {
    T.ReadConserves(s.session, 0, Stopping(stopOk));
  }

  lemma SampleAttributes(s: State, now: nat, v: T.Service)
    requires Attributed(s)
    ensures Attributed(AfterSample(s, now, v))
  {
    if Resolved(s) == 0 { InvalidationAttributes(s, v.releaseOk); } else { T.ReadConserves(s.session, Resolved(s), v); }
  }

  lemma ClosingKeepsAttribution(s: State, e: Event)
    requires Attributed(s) && Possible(s, e) && (e.CloseProvider? || e.OpenProvider?)
    ensures Attributed(After(s, e))
  {
    T.ShutdownConserves(s.session);
    if e.OpenProvider? { T.OpenConservesExactlyWithoutLeases(s.session, e.processOk); }
  }

  lemma TrackingKeepsQuery(s: T.Session, e: T.Event)
    requires T.Inv(s) && T.Possible(s, e) && !e.ReadFps?
    ensures T.After(s, e).fps == s.fps && T.After(s, e).registered == s.registered
  {
  }

  lemma TrackAttributes(s: State, t: T.Event)
    requires Attributed(s) && Possible(s, Tracking(t))
    ensures Attributed(After(s, Tracking(t)))
  {
    T.EventConserves(s.session, t);
    TrackingKeepsQuery(s.session, t);
  }

  lemma EventAttributes(s: State, e: Event)
    requires Attributed(s) && Possible(s, e)
    ensures Attributed(After(s, e))
  {
    match e {
      case SampleFps(now, v) => SampleAttributes(s, now, v);
      case SetVisibilityMode(mode, _, ok) => InvalidationAttributes(s.(mode := mode, always := NO_TARGET), ok);
      case SetInGame(pid, ok) => InvalidationAttributes(s.(inGame := pid), ok);
      case ClearInGame(ok) => InvalidationAttributes(s.(inGame := 0), ok);
      case StopFpsSampling(_, ok) => InvalidationAttributes(s, ok);
      case Tracking(t) => TrackAttributes(s, t);
      case CloseProvider => ClosingKeepsAttribution(s, e);
      case OpenProvider(_, _) => ClosingKeepsAttribution(s, e);
      case ForegroundChanged(_) =>
    }
  }

  ghost predicate Runs(s: State, es: seq<Event>)
    decreases |es|
  {
    es == [] || (Possible(s, es[0]) && Runs(After(s, es[0]), es[1..]))
  }

  function Exec(s: State, es: seq<Event>): State
    decreases |es|
  {
    if es == [] then s else Exec(After(s, es[0]), es[1..])
  }

  lemma {:induction false} AttributedAlways(s: State, es: seq<Event>)
    requires Attributed(s) && Runs(s, es)
    ensures Attributed(Exec(s, es))
    decreases |es|
  {
    if es != [] {
      EventAttributes(s, es[0]);
      AttributedAlways(After(s, es[0]), es[1..]);
    }
  }

  /**
   After any sequence of samples, mode switches, foreground events, in-game target changes, leases
   and provider restarts, a displayed rate was measured for the process that is the target now. In
   the InGameOnly mode it was also read through a query registered after the last target or mode
   change, so a reused process number never shows the rate of an earlier process.
   */
  lemma DisplayedFpsBelongsToTarget(mode: Mode, es: seq<Event>)
    requires Runs(Initial(mode), es)
    ensures var s := Exec(Initial(mode), es);
            s.latest.Some? ==>
              && s.latest.value.pid == (if s.mode == Always then s.always.pid else s.inGame) != 0
              && (s.mode == InGameOnly ==> s.latest.value.query >= s.epoch)
  {
    T.ClosedInv(false);
    AttributedAlways(Initial(mode), es);
  }

  // ---------------------------------------------------------------- which number is displayed

  /** The process whose rate is wanted: the foreground in the Always mode, else the game. */
  function Wanted(s: State): nat {
    match s.mode
    case Always => s.always.pid
    case InGameOnly => s.inGame
  }

  /** The event is a sample that measures `x`. */
  predicate Measures(s: State, e: Event, x: real) {
    e.SampleFps? && T.CanPoll(s.session, Wanted(s), e.service) && e.service.poll == T.Polled(Some(x))
  }

  ghost predicate MeasuresNothing(s: State, e: Event) {
    forall x: real :: !Measures(s, e, x)
  }

  /** The event gives up what was measured before. */
  predicate Forgets(s: State, e: Event) {
    match e
    case SampleFps(_, _) => Wanted(s) == 0
    case SetVisibilityMode(_, _, _) => true
    case ForegroundChanged(pid) => s.mode == Always && pid != s.always.pid
    case SetInGame(_, _) => s.mode == InGameOnly
    case ClearInGame(_) => s.mode == InGameOnly && s.inGame != 0
    case StopFpsSampling(clearTarget, _) => clearTarget
    case _ => false
  }

  /** A sample that measures something displays just that, in either mode. */
  lemma SampleShows(s: State, now: nat, v: T.Service, x: real)
    requires Attributed(s) && Measures(s, SampleFps(now, v), x)
    ensures var t := AfterSample(s, now, v);
      && t.latest.Some? && t.latest.value.fps == x && t.latest.value.pid == Wanted(s)
      && t.hold == H.Hold(Wanted(s), t.latest, now)
  {
    T.ReadMeans(s.session, Wanted(s), v);
  }

  /** A sample that measures nothing keeps what is held for its process and not two seconds old. */
  lemma SampleMisses(s: State, now: nat, v: T.Service)
    requires Attributed(s) && Wanted(s) != 0 && s.latest == s.hold.last
    requires MeasuresNothing(s, SampleFps(now, v))
    ensures var t := AfterSample(s, now, v);
      && t.latest == t.hold.last
      && t.latest == (if s.latest.Some? && H.Elapsed(now, s.hold.tick) < 2000 then s.latest else None)
      && (t.latest.Some? ==> t.hold.tick == s.hold.tick)
  {
    T.ReadMeans(s.session, Wanted(s), v);
    if T.CanPoll(s.session, Wanted(s), v) && v.poll.Polled? && v.poll.fps.Some? {
      assert Measures(s, SampleFps(now, v), v.poll.fps.value);
    }
  }

  lemma OthersKeep(s: State, e: Event)
    requires !e.SampleFps? && s.latest == s.hold.last
    ensures var t := After(s, e);
      && t.latest == t.hold.last
      && (if Forgets(s, e) then t.latest == None else t.latest == s.latest && t.hold == s.hold)
  {
  }

  /** The state before event `k`. */
  function Before(mode: Mode, es: seq<Event>, k: nat): State
    requires k <= |es|
  {
    Exec(Initial(mode), es[..k])
  }

  /** Sample `k` measured `x`, and since then nothing else was measured, nothing forgotten, and no sample came two seconds later. */
  ghost predicate IsNewest(mode: Mode, es: seq<Event>, k: nat, x: real) {
    && k < |es| && Measures(Before(mode, es, k), es[k], x)
    && forall j :: k < j < |es| ==> StillShown(Before(mode, es, j), es[j], es[k].now)
  }

  ghost predicate StillShown(s: State, e: Event, since: nat) {
    !Forgets(s, e) && (e.SampleFps? ==> e.now - since < 2000 && MeasuresNothing(s, e))
  }

  /** GetTickCount64 does not run backwards and does not wrap. */
  ghost predicate ClockOk(es: seq<Event>) {
    && (forall i :: 0 <= i < |es| && es[i].SampleFps? ==> es[i].now < 0x1_0000_0000_0000_0000)
    && (forall i, j :: 0 <= i <= j < |es| && es[i].SampleFps? && es[j].SampleFps? ==> es[i].now <= es[j].now)
  }

  lemma {:induction false} ExecNext(s: State, es: seq<Event>, e: Event)
    ensures Exec(s, es + [e]) == After(Exec(s, es), e)
    ensures Runs(s, es + [e]) <==> Runs(s, es) && Possible(Exec(s, es), e)
    decreases |es|
  {
    if es == [] {
      assert (es + [e])[1..] == [];
    } else {
      ExecNext(After(s, es[0]), es[1..], e);
      assert (es + [e])[1..] == es[1..] + [e];
    }
  }

  lemma BeforePrefix(mode: Mode, es: seq<Event>, n: nat, k: nat)
    requires k <= n <= |es|
    ensures Before(mode, es[..n], k) == Before(mode, es, k)
  {
    assert es[..n][..k] == es[..k];
  }

  lemma NewestLonger(mode: Mode, es: seq<Event>, k: nat, x: real)
    requires es != [] && k < |es| - 1
    ensures var n := |es| - 1;
      IsNewest(mode, es, k, x) <==> IsNewest(mode, es[..n], k, x) && StillShown(Before(mode, es, n), es[n], es[k].now)
  {
    var n := |es| - 1;
    forall j | 0 <= j <= n ensures Before(mode, es[..n], j) == Before(mode, es, j) { BeforePrefix(mode, es, n, j); }
  }

  lemma NewestSurvives(mode: Mode, es: seq<Event>, k: nat, x: real)
    requires IsNewest(mode, es, k, x)
    ensures var n := |es| - 1; k == n || StillShown(Before(mode, es, n), es[n], es[k].now)
  {
  }

  /** The displayed rate is that of the newest measurement, and there is none exactly without one. */
  ghost predicate ShowsNewest(mode: Mode, es: seq<Event>, s: State) {
    && s.latest == s.hold.last
    && (forall k: nat, x: real :: IsNewest(mode, es, k, x) ==> s.latest.Some? && s.latest.value.fps == x && s.hold.tick == es[k].now)
    && (s.latest.Some? ==> exists k: nat, x: real :: IsNewest(mode, es, k, x))
  }

  lemma ShownAfterMeasure(mode: Mode, es: seq<Event>, x: real)
    requires es != [] && Attributed(Before(mode, es, |es| - 1)) && Measures(Before(mode, es, |es| - 1), es[|es| - 1], x)
    ensures ShowsNewest(mode, es, After(Before(mode, es, |es| - 1), es[|es| - 1]))
  {
    var n := |es| - 1;
    var s := Before(mode, es, n);
    SampleShows(s, es[n].now, es[n].service, x);
    assert IsNewest(mode, es, n, x);
    forall k: nat, y: real | IsNewest(mode, es, k, y) ensures k == n && y == x {
      NewestSurvives(mode, es, k, y);
    }
  }

  lemma ShownAfterForgetting(mode: Mode, es: seq<Event>)
    requires es != [] && Forgets(Before(mode, es, |es| - 1), es[|es| - 1])
    requires Before(mode, es, |es| - 1).latest == Before(mode, es, |es| - 1).hold.last
    ensures ShowsNewest(mode, es, After(Before(mode, es, |es| - 1), es[|es| - 1]))
  {
    var n := |es| - 1;
    var s := Before(mode, es, n);
    if !es[n].SampleFps? { OthersKeep(s, es[n]); }
    forall k: nat, x: real | IsNewest(mode, es, k, x) ensures false {
      NewestSurvives(mode, es, k, x);
    }
  }

  lemma ShownAfterMiss(mode: Mode, es: seq<Event>)
    requires es != [] && ClockOk(es) && Attributed(Before(mode, es, |es| - 1))
    requires ShowsNewest(mode, es[..|es| - 1], Before(mode, es, |es| - 1))
    requires es[|es| - 1].SampleFps? && Wanted(Before(mode, es, |es| - 1)) != 0
    requires MeasuresNothing(Before(mode, es, |es| - 1), es[|es| - 1])
    ensures ShowsNewest(mode, es, After(Before(mode, es, |es| - 1), es[|es| - 1]))
  {
    var n := |es| - 1;
    var s, e := Before(mode, es, n), es[n];
    var t := After(s, e);
    SampleMisses(s, e.now, e.service);
    forall k: nat, x: real | IsNewest(mode, es, k, x)
      ensures t.latest.Some? && t.latest.value.fps == x && t.hold.tick == es[k].now
    {
      NewestLonger(mode, es, k, x);
      assert IsNewest(mode, es[..n], k, x) && es[..n][k] == es[k];
      assert H.Elapsed(e.now, es[k].now) == e.now - es[k].now;
    }
    if t.latest.Some? {
      var k: nat, x: real :| IsNewest(mode, es[..n], k, x);
      assert es[..n][k] == es[k];
      assert H.Elapsed(e.now, es[k].now) == e.now - es[k].now;
      NewestLonger(mode, es, k, x);
    }
  }

  lemma ShownAfterOther(mode: Mode, es: seq<Event>)
    requires es != [] && ShowsNewest(mode, es[..|es| - 1], Before(mode, es, |es| - 1))
    requires !es[|es| - 1].SampleFps? && !Forgets(Before(mode, es, |es| - 1), es[|es| - 1])
    ensures ShowsNewest(mode, es, After(Before(mode, es, |es| - 1), es[|es| - 1]))
  {
    var n := |es| - 1;
    var s, e := Before(mode, es, n), es[n];
    OthersKeep(s, e);
    forall k: nat, x: real ensures IsNewest(mode, es, k, x) <==> IsNewest(mode, es[..n], k, x) {
      if k < n { NewestLonger(mode, es, k, x); }
    }
    assert forall k: nat, x: real :: IsNewest(mode, es[..n], k, x) ==> es[..n][k] == es[k];
  }

  /**
   Over every run, the displayed number is what the newest successful poll measured: for the process
   that was wanted, with nothing measured or forgotten since, and no sample two seconds or more after
   it. Without such a poll nothing is displayed.
   */
  lemma {:induction false} DisplayedIsNewestMeasured(mode: Mode, es: seq<Event>)
    requires Runs(Initial(mode), es) && ClockOk(es)
    ensures ShowsNewest(mode, es, Exec(Initial(mode), es)) && Attributed(Exec(Initial(mode), es))
    decreases |es|
  {
    T.ClosedInv(false);
    AttributedAlways(Initial(mode), es);
    if es != [] {
      var n := |es| - 1;
      var s, e := Before(mode, es, n), es[n];
      assert es == es[..n] + [e];
      ExecNext(Initial(mode), es[..n], e);
      DisplayedIsNewestMeasured(mode, es[..n]);
      if x: real :| Measures(s, e, x) { ShownAfterMeasure(mode, es, x); }
      else if Forgets(s, e) { ShownAfterForgetting(mode, es); }
      else if e.SampleFps? { ShownAfterMiss(mode, es); }
      else { ShownAfterOther(mode, es); }
    }
  }

  // ---------------------------------------------------------------- old queries in the Always mode

  /** In the Always mode these events leave the query alone. */
  predicate KeepsQuery(e: Event) {
    e.ForegroundChanged? || e.Tracking? || e.SetInGame? || e.ClearInGame? || (e.StopFpsSampling? && !e.clearTarget)
  }

  lemma {:induction false} QueryKept(s: State, es: seq<Event>)
    requires Attributed(s) && s.mode == Always && Runs(s, es) && forall e :: e in es ==> KeepsQuery(e)
    ensures Attributed(Exec(s, es)) && Exec(s, es).mode == Always
    ensures Exec(s, es).session.fps == s.session.fps && Exec(s, es).session.registered == s.session.registered
    decreases |es|
  {
    if es != [] {
      assert es[0] in es && forall e :: e in es[1..] ==> e in es;
      EventAttributes(s, es[0]);
      if es[0].Tracking? { TrackingKeepsQuery(s.session, es[0].event); }
      QueryKept(After(s, es[0]), es[1..]);
    }
  }

  lemma RetargetIsNew(s: T.Session, pid: nat, v: T.Service)
    requires T.Inv(s) && s.ready && s.fps.ready && pid != 0 && !(s.fps.query.Some? && s.fps.tracked == pid)
    ensures T.ReadProcess(s, pid, v).1.Some? ==> T.ReadProcess(s, pid, v).1.value.query >= s.registered
  {
    T.RetargetConserves(s, pid, v);
  }

  /**
   The Always mode invalidates the value, but not the query. After any foreground changes, with
   leases, in-game targets and timer stops between them, a sample that gets a rate shows it, and it
   came through a query that is older than all of these events exactly when at their beginning a
   query was bound to the process that is in the foreground at the sample.
   */
  lemma AlwaysModeKeepsOldQueryExactly(s: State, es: seq<Event>, now: nat, v: T.Service)
    requires Attributed(s) && s.mode == Always && Runs(s, es) && forall e :: e in es ==> KeepsQuery(e)
    requires T.ReadProcess(Exec(s, es).session, Exec(s, es).always.pid, v).1.Some?
    ensures var u := Exec(s, es);
            var t := AfterSample(u, now, v);
            && t.latest == T.ReadProcess(u.session, u.always.pid, v).1
            && (t.latest.value.query < s.session.registered <==>
                  s.session.fps.query.Some? && s.session.fps.tracked == u.always.pid)
  {
    var u := Exec(s, es);
    QueryKept(s, es);
    T.ReadConserves(u.session, u.always.pid, v);
    if !(u.session.fps.query.Some? && u.session.fps.tracked == u.always.pid) {
      RetargetIsNew(u.session, u.always.pid, v);
    }
  }

  const ANSWERS := T.Service(true, true, Some([]), T.Polled(Some(60.0)), true)

  /** From the start: sample process 5, leave it, return to it, and sample it again through the same query. */
  lemma OldQueryIsReached()
    ensures exists es: seq<Event> ::
      && Runs(Initial(Always), es)
      && var s := Exec(Initial(Always), es);
         var t := AfterSample(AfterForeground(AfterForeground(s, 6), 5), 1, ANSWERS);
      && s.latest.Some? && t.latest.Some?
      && t.latest.value.query == s.latest.value.query < s.session.registered
  {
    var es := [OpenProvider(true, true), ForegroundChanged(5), SampleFps(0, ANSWERS)];
    var s0 := Initial(Always);
    var s1 := After(s0, es[0]);
    var s2 := After(s1, es[1]);
    var s3 := After(s2, es[2]);
    assert es[1..][0] == es[1] && es[2..][0] == es[2] && es[1..][1..] == es[2..] && es[2..][1..] == [];
    assert Exec(s2, es[2..]) == s3 && Runs(s2, es[2..]);
    assert Exec(s1, es[1..]) == s3 && Runs(s1, es[1..]);
    assert Exec(s0, es) == s3 && Runs(s0, es);
    assert T.BlobSize([]) == Some(16);
    assert s3.session.fps == T.Telemetry(true, Some(0), 16, 5, true);
  }

  // ---------------------------------------------------------------- the objects

  class AlwaysModeFpsTarget {
    var targetProcessId: nat
    var publishedProcessId: nat
    var publishedFps: Option<T.Rate>

    constructor ()
      ensures State() == NO_TARGET
    {
      targetProcessId, publishedProcessId, publishedFps := 0, 0, None;
    }

    function State(): Target
      reads this
    {
      Target(targetProcessId, publishedProcessId, publishedFps)
    }

    method SetForegroundProcess(pid: nat) returns (changed: bool)
      modifies this
      ensures State() == WithForeground(old(State()), pid) && (changed <==> pid != old(targetProcessId))
    {
      if pid == targetProcessId { return false; }
      targetProcessId, publishedProcessId, publishedFps := pid, 0, None;
      changed := true;
    }

    method AcceptSample(pid: nat, fps: Option<T.Rate>)
      modifies this
      ensures State() == Accepting(old(State()), pid, fps)
    {
      if pid == 0 || pid != targetProcessId { return; }
      publishedProcessId, publishedFps := pid, fps;
    }

    method DisplayedFps() returns (fps: Option<T.Rate>)
      ensures fps == Displayed(State())
    {
      if targetProcessId == 0 || publishedProcessId != targetProcessId { return None; }
      fps := publishedFps;
    }

    method Release()
      modifies this
      ensures State() == NO_TARGET
    {
      targetProcessId, publishedProcessId, publishedFps := 0, 0, None;
    }
  }

  class ProductionTelemetryController {
    const provider: S.PresentMonTelemetryProvider
    const alwaysFpsTarget: AlwaysModeFpsTarget
    const fpsStaleHold: H.StaleHold<T.Rate>
    var visibilityMode: Mode
    var inGameForegroundProcessId: nat
    var latestProcessFps: Option<T.Rate>
    ghost var epoch: nat

    constructor (p: S.PresentMonTelemetryProvider, mode: Mode)
      requires p.Valid() && p.Model() == T.CLOSED
      ensures Valid() && provider == p && Model() == Initial(mode)
      ensures fresh(alwaysFpsTarget) && fresh(fpsStaleHold)
    {
      provider := p;
      alwaysFpsTarget := new AlwaysModeFpsTarget();
      fpsStaleHold := new H.StaleHold();
      visibilityMode, inGameForegroundProcessId, latestProcessFps, epoch := mode, 0, None, 0;
    }

    ghost function Footprint(): set<object>
      reads this, provider
    {
      provider.Footprint() + {this, alwaysFpsTarget, fpsStaleHold}
    }

    ghost predicate Valid()
      reads this, provider, provider.client, provider.client.trackingRefs, provider.process, alwaysFpsTarget, fpsStaleHold
    {
      provider.Valid() && Attributed(Model())
    }

    ghost function Model(): State
      reads this, provider, provider.client, provider.client.trackingRefs, provider.process, alwaysFpsTarget, fpsStaleHold
    {
      State(provider.Model(), visibilityMode, alwaysFpsTarget.State(), inGameForegroundProcessId,
            fpsStaleHold.State(), latestProcessFps, epoch)
    }

    method SampleFps(now: nat, v: T.Service)
      requires Valid()
      modifies Footprint()
      ensures Valid() && Model() == AfterSample(old(Model()), now, v)
    {
      SampleAttributes(Model(), now, v);
      var pid := ResolveTarget(visibilityMode, alwaysFpsTarget.targetProcessId, inGameForegroundProcessId);
      if pid == 0 {
        DropTarget(v.releaseOk);
        return;
      }
      var rate := provider.ReadProcess(pid, v);
      var shown := Accept(pid, rate);
      latestProcessFps := fpsStaleHold.Observe(pid, shown, now);
    }

    /** In Always mode a rate is shown through the foreground target. */
    method Accept(pid: nat, rate: Option<T.Rate>) returns (shown: Option<T.Rate>)
      modifies alwaysFpsTarget
      ensures alwaysFpsTarget.State() ==
        if visibilityMode == Always then Accepting(old(alwaysFpsTarget.State()), pid, rate) else old(alwaysFpsTarget.State())
      ensures shown == if visibilityMode == Always then Displayed(alwaysFpsTarget.State()) else rate
    {
      shown := rate;
      if visibilityMode == Always {
        alwaysFpsTarget.AcceptSample(pid, rate);
        shown := alwaysFpsTarget.DisplayedFps();
      }
    }

    /** The three lines that every invalidation shares. */
    method DropTarget(stopOk: bool)
      requires provider.Valid()
      modifies Footprint()
      ensures provider.Valid() && Model() == Invalidated(old(Model()), stopOk)
    {
      T.ReadConserves(provider.Model(), 0, Stopping(stopOk));
      latestProcessFps := None;
      fpsStaleHold.Reset();
      var none := provider.ReadProcess(0, Stopping(stopOk));
    }

    method StopFpsSampling(clearTarget: bool, stopOk: bool)
      requires Valid()
      modifies Footprint()
      ensures Valid() && Model() == After(old(Model()), Event.StopFpsSampling(clearTarget, stopOk))
    {
      EventAttributes(Model(), Event.StopFpsSampling(clearTarget, stopOk));
      if clearTarget { DropTarget(stopOk); }
    }

    method SetVisibilityMode(mode: Mode, foreground: nat, stopOk: bool)
      requires Valid()
      modifies Footprint()
      ensures Valid() && Model() == AfterSetMode(old(Model()), mode, foreground, stopOk)
    {
      EventAttributes(Model(), Event.SetVisibilityMode(mode, foreground, stopOk));
      visibilityMode := mode;
      alwaysFpsTarget.Release();
      DropTarget(stopOk);
      if mode == Always {
        var changed := alwaysFpsTarget.SetForegroundProcess(foreground);
      }
      epoch := provider.Model().registered;
    }

    method OnForegroundProcessChanged(pid: nat)
      requires Valid()
      modifies Footprint()
      ensures Valid() && Model() == AfterForeground(old(Model()), pid)
    {
      EventAttributes(Model(), ForegroundChanged(pid));
      var changed := alwaysFpsTarget.SetForegroundProcess(pid);
      if changed && visibilityMode == Always {
        latestProcessFps := None;
        fpsStaleHold.Reset();
      }
    }

    method SetInGameForegroundProcess(pid: nat, stopOk: bool)
      requires Valid()
      modifies Footprint()
      ensures Valid() && Model() == AfterInGame(old(Model()), pid, stopOk)
    {
      EventAttributes(Model(), SetInGame(pid, stopOk));
      inGameForegroundProcessId := pid;
      if visibilityMode == InGameOnly { DropTarget(stopOk); }
      epoch := provider.Model().registered;
    }

    method ClearInGameForegroundProcess(stopOk: bool)
      requires Valid()
      modifies Footprint()
      ensures Valid() && Model() == After(old(Model()), ClearInGame(stopOk))
    {
      EventAttributes(Model(), ClearInGame(stopOk));
      if inGameForegroundProcessId == 0 { return; }
      inGameForegroundProcessId := 0;
      if visibilityMode == InGameOnly { DropTarget(stopOk); }
      epoch := provider.Model().registered;
    }

    /** What the leases and the verification do to the session that this controller shares. */
    method Track(e: T.Event)
      requires Valid() && Possible(Model(), Tracking(e))
      modifies provider.Footprint()
      ensures Valid() && Model() == After(old(Model()), Tracking(e))
    {
      TrackAttributes(Model(), e);
      Forward(e);
    }

    method Forward(e: T.Event)
      requires provider.Valid() && T.Possible(provider.Model(), e) && !e.ReadFps?
      modifies provider.Footprint()
      ensures provider.Valid() && provider.Model() == T.After(old(provider.Model()), e)
    {
      match e {
        case Acquire(pid, ok) => var leased := provider.AcquireProcess(pid, ok);
        case Verify(pid, frameReady, startOk, flushOk, stopOk) =>
          var leased := provider.BeginGameRenderVerification(pid, frameReady, startOk, flushOk, stopOk);
        case DropLease(pid, stopOk) => provider.ReleaseProcess(pid, stopOk);
      }
    }

    /** Any event of the run model, taken by the controller and the provider it samples. */
    method Handle(e: Event)
      requires Valid() && Possible(Model(), e)
      modifies Footprint()
      ensures Valid() && Model() == After(old(Model()), e)
    {
      EventAttributes(Model(), e);
      match e {
        case SampleFps(now, v) => SampleFps(now, v);
        case SetVisibilityMode(mode, foreground, stopOk) => SetVisibilityMode(mode, foreground, stopOk);
        case ForegroundChanged(pid) => OnForegroundProcessChanged(pid);
        case SetInGame(pid, stopOk) => SetInGameForegroundProcess(pid, stopOk);
        case ClearInGame(stopOk) => ClearInGameForegroundProcess(stopOk);
        case StopFpsSampling(clear, stopOk) => StopFpsSampling(clear, stopOk);
        case Tracking(t) => Track(t);
        case CloseProvider => provider.Shutdown();
        case OpenProvider(ok, processOk) => var connected := provider.Initialize(ok, true, true, processOk, true);
      }
    }

    /** So the theorems about runs speak about these objects. */
    method Run(es: seq<Event>)
      requires Valid() && Model() == Initial(visibilityMode) && Runs(Model(), es)
      modifies Footprint()
      ensures Valid() && Model() == Exec(old(Model()), es)
      ensures latestProcessFps.Some? ==>
        latestProcessFps.value.pid == ResolveTarget(visibilityMode, alwaysFpsTarget.targetProcessId, inGameForegroundProcessId)
    {
      ghost var start := Model();
      for i := 0 to |es|
        invariant Valid() && Runs(Model(), es[i..]) && Exec(start, es) == Exec(Model(), es[i..])
      {
        assert es[i..][0] == es[i] && es[i..][1..] == es[i + 1..];
        Handle(es[i]);
      }
      assert es[|es|..] == [];
    }
  }
}
