/**
 The objects behind shared process tracking, as their methods update them in place: the
 reference counts, the API client, the target-bound FPS query, the provider and its leases.
 Each method is tied to the function of module ProcessTracking that says what it means.
 */
module PresentMonSession {
  import opened Options
  import opened ProcessTracking

  class ProcessTrackingRefCounts {
    var counts: map<nat, nat>

    constructor ()
      ensures counts == map[]
    {
      counts := map[];
    }

    method Acquire(pid: nat) returns (first: bool)
      modifies this
      ensures counts == old(counts)[pid := (if pid in old(counts) then old(counts)[pid] else 0) + 1]
      ensures first <==> counts[pid] == 1
    {
      counts := counts[pid := (if pid in counts then counts[pid] else 0) + 1];
      first := counts[pid] == 1;
    }

    /** Undoes an `Acquire` whose endpoint call failed. */
    method AbortAcquire(pid: nat)
      modifies this
      ensures counts == if pid !in old(counts) then old(counts)
                        else if old(counts)[pid] <= 1 then old(counts) - {pid}
                        else old(counts)[pid := old(counts)[pid] - 1]
    {
      if pid !in counts { return; }
      if counts[pid] <= 1 { counts := counts - {pid}; } else { counts := counts[pid := counts[pid] - 1]; }
    }

    method Release(pid: nat) returns (last: bool)
      modifies this
      ensures last <==> pid in old(counts) && old(counts)[pid] <= 1
      ensures counts == if pid !in old(counts) then old(counts)
                        else if last then old(counts) - {pid}
                        else old(counts)[pid := old(counts)[pid] - 1]
    {
      if pid !in counts { return false; }
      if counts[pid] > 1 {
        counts := counts[pid := counts[pid] - 1];
        return false;
      }
      counts := counts - {pid};
      last := true;
    }

    method Clear()
      modifies this
      ensures counts == map[]
    {
      counts := map[];
    }
  }

  class PresentMonApi2Client {
    const trackingRefs: ProcessTrackingRefCounts
    var session: bool
    ghost var log: seq<EndpointCall>
    /** The service's numbering of the query handles it gives out. */
    var registered: nat
    ghost var leases: multiset<nat>

    constructor ()
      ensures !session && trackingRefs.counts == map[] && fresh(trackingRefs)
      ensures log == [] && registered == 0 && leases == multiset{}
    {
      trackingRefs := new ProcessTrackingRefCounts();
      session, log, registered, leases := false, [], 0, multiset{};
    }

    ghost function Model(fps: Telemetry): Session
      reads this, trackingRefs
    {
      Session(session, fps, trackingRefs.counts, log, registered, leases)
    }

    method StartTrackingProcess(pid: nat, endpointOk: bool) returns (ok: bool)
      requires forall p :: p in trackingRefs.counts ==> trackingRefs.counts[p] > 0
      modifies this`log, trackingRefs
      ensures forall fps :: (Model(fps), ok) == StartTracking(old(Model(fps)), pid, endpointOk)
    {
      if !session { return false; }
      var first := trackingRefs.Acquire(pid);
      if !first { return true; }
      log := log + [StartCall(pid, endpointOk)];
      if !endpointOk {
        trackingRefs.AbortAcquire(pid);
        assert trackingRefs.counts == old(trackingRefs.counts);
      }
      ok := endpointOk;
    }

    /** The count is given up before the endpoint answers, and stays so whatever it answers. */
    method StopTrackingProcess(pid: nat, endpointOk: bool) returns (ok: bool)
      modifies this`log, trackingRefs
      ensures forall fps :: Model(fps) == StopTracking(old(Model(fps)), pid, endpointOk)
      ensures ok <==> session && (|log| > |old(log)| ==> endpointOk)
    {
      if !session { return false; }
      var last := trackingRefs.Release(pid);
      if !last { return true; }
      log := log + [StopCall(pid, endpointOk)];
      ok := endpointOk;
    }

    method CloseSession()
      modifies this`session, this`log, trackingRefs
      ensures !session && trackingRefs.counts == map[] && log == []
    {
      session, log := false, [];
      trackingRefs.Clear();
    }

    /** Loading the service's library; a session that is open is closed first. */
    method Initialize(loaderOk: bool) returns (ok: bool)
      modifies this`session, this`log, trackingRefs
      ensures !session && trackingRefs.counts == map[] && log == [] && ok == loaderOk
    {
      CloseSession();
      ok := loaderOk;
    }

    method OpenSession(endpointOk: bool) returns (ok: bool)
      modifies this`session
      ensures ok == endpointOk && session == (endpointOk || old(session))
    {
      if endpointOk { session := true; }
      ok := endpointOk;
    }

    /** A registered query has a number no query had before. */
    method RegisterDynamicQuery(layout: Option<seq<Element>>) returns (query: Option<nat>)
      modifies this`registered
      ensures layout.Some? ==> query == Some(old(registered)) && registered == old(registered) + 1
      ensures layout.None? ==> query == None && registered == old(registered)
    {
      if layout.None? { return None; }
      query := Some(registered);
      registered := registered + 1;
    }
  }

  /** The `end` loop and the alignment of `RetargetProcess`. */
  method LayOutBlob(elements: seq<Element>) returns (size: Option<nat>)
    ensures size == BlobSize(elements)
  {
    var end := 0;
    for k := 0 to |elements|
      invariant End(elements[..k]) == Some(end)
    {
      assert elements[..k + 1][..k] == elements[..k];
      if elements[k].size > UINT64_MAX || elements[k].offset > UINT64_MAX - elements[k].size {
        EndIsFurthest(elements);
        assert !Fits(elements[k]);
        return None;
      }
      end := Max(end, elements[k].offset + elements[k].size);
    }
    assert elements[..|elements|] == elements;
    if end > UINT64_MAX - (ALIGNMENT - 1) { return None; }
    var aligned := AlignUp(end);
    size := Some(if aligned == 0 then ALIGNMENT else aligned);
  }

  class PresentMonProcessTelemetry {
    const client: PresentMonApi2Client
    var ready: bool
    var query: Option<nat>
    var blobSize: nat
    var trackedProcessId: nat
    var ownsTracking: bool

    constructor (c: PresentMonApi2Client)
      ensures client == c && Fps() == NO_TELEMETRY
    {
      client, ready, query, blobSize, trackedProcessId, ownsTracking := c, false, None, 0, 0, false;
    }

    function Fps(): Telemetry
      reads this
    {
      Telemetry(ready, query, blobSize, trackedProcessId, ownsTracking)
    }

    ghost function Model(): Session
      reads this, client, client.trackingRefs
    {
      client.Model(Fps())
    }

    /** The answer of the stop is ignored. */
    method ReleaseTarget(stopOk: bool)
      modifies this, client`log, client.trackingRefs
      ensures Model() == ProcessTracking.ReleaseTarget(old(Model()), stopOk)
    {
      query, blobSize := None, 0;
      if ownsTracking {
        var stopped := client.StopTrackingProcess(trackedProcessId, stopOk);
      }
      trackedProcessId, ownsTracking := 0, false;
    }

    method Shutdown(stopOk: bool)
      modifies this, client`log, client.trackingRefs
      ensures Model() == ProcessTracking.ReleaseTarget(old(Model()), stopOk).(fps := NO_TELEMETRY)
    {
      ReleaseTarget(stopOk);
      ready := false;
    }

    /** Ready exactly when the service offers the metrics that the query needs. */
    method Initialize(planOk: bool, stopOk: bool) returns (ok: bool)
      modifies this, client`log, client.trackingRefs
      ensures Model() == ProcessTracking.ReleaseTarget(old(Model()), stopOk).(fps := NO_TELEMETRY.(ready := planOk))
      ensures ok == planOk
    {
      Shutdown(stopOk);
      if !planOk { return false; }
      ready := true;
      ok := true;
    }

    method RetargetProcess(pid: nat, v: Service) returns (ok: bool)
      requires Balanced(Model())
      modifies this, client`log, client`registered, client.trackingRefs
      ensures (Model(), ok) == Retarget(old(Model()), pid, v)
    {
      ReleaseTargetConserves(Model(), v.releaseOk);
      ReleaseTarget(v.releaseOk);
      ghost var released := Model();
      var started := client.StartTrackingProcess(pid, v.startOk);
      if !started {
        ghost var failed := Model();
        ReleaseTarget(v.dropOk);
        assert Model() == failed;
        return false;
      }
      trackedProcessId, ownsTracking := pid, true;
      ok := BindQuery(v);
    }

    /** Registration and layout, once the process is tracked. */
    method BindQuery(v: Service) returns (ok: bool)
      requires ownsTracking && query == None && blobSize == 0
      modifies this, client`log, client`registered, client.trackingRefs
      ensures (Model(), ok) == Bind(old(Model()), v)
    {
      query := client.RegisterDynamicQuery(v.layout);
      if query == None {
        ReleaseTarget(v.dropOk);
        return false;
      }
      var size := LayOutBlob(v.layout.value);
      if size == None {
        ReleaseTarget(v.dropOk);
        return false;
      }
      blobSize := size.value;
      ok := true;
    }

    method Read(pid: nat, v: Service) returns (rate: Option<Rate>)
      requires Inv(Model()) && (ready ==> client.session)
      modifies this, client`log, client`registered, client.trackingRefs
      ensures (Model(), rate) == ProcessTracking.Read(old(Model()), pid, v)
    {
      if !ready { return None; }
      if pid == 0 {
        ReleaseTarget(v.releaseOk);
        return None;
      }
      if query == None || trackedProcessId != pid {
        var ok := RetargetProcess(pid, v);
        if !ok { return None; }
      }
      match v.poll {
        case InvalidPid =>
          ReleaseTarget(v.dropOk);
          rate := None;
        case Failed => rate := None;
        case NoSwapChain => rate := None;
        case Polled(fps) =>
          rate := if fps.Some? && query.Some? then Some(Rate(fps.value, pid, query.value)) else None;
      }
    }
  }

  class PresentMonTelemetryProvider {
    const client: PresentMonApi2Client
    const process: PresentMonProcessTelemetry
    var ready: bool

    constructor ()
      ensures Valid() && Model() == CLOSED
      ensures fresh(client) && fresh(client.trackingRefs) && fresh(process)
    {
      var c := new PresentMonApi2Client();
      var fps := new PresentMonProcessTelemetry(c);
      client, process, ready := c, fps, false;
      new;
      ClosedInv(false);
    }

    ghost function Footprint(): set<object>
      reads this
    {
      {this, client, client.trackingRefs, process}
    }

    ghost function Model(): Session
      reads this, client, client.trackingRefs, process
    {
      client.Model(process.Fps())
    }

    ghost predicate Valid()
      reads this, client, client.trackingRefs, process
    {
      process.client == client && ready == client.session && Inv(Model()) && (process.ready ==> ready)
    }

    method Shutdown()
      requires Valid()
      modifies Footprint()
      ensures Valid() && Model() == ProcessTracking.Shutdown(old(Model()))
    {
      ShutdownConserves(Model());
      var stopOk: bool := *;
      process.Shutdown(stopOk);
      ready := false;
      client.CloseSession();
    }

    /**
     A new session, whichever step of opening it fails. The accounts are right again exactly when no
     lease outlived the previous session.
     */
    method Initialize(loaderOk: bool, sessionOk: bool, introspectionOk: bool, flushPeriodOk: bool, planOk: bool)
      returns (ok: bool)
      requires Valid()
      modifies Footprint()
      ensures ok == (loaderOk && sessionOk && introspectionOk)
      ensures Model() == Open(old(Model()), ok, flushPeriodOk && planOk)
      ensures Valid() <==> !ok || old(Model()).leases == multiset{}
    {
      ghost var before := Model();
      OpenConservesExactlyWithoutLeases(before, flushPeriodOk && planOk);
      Shutdown();
      var loaded := client.Initialize(loaderOk);
      if !loaded {
        Shutdown();
        return false;
      }
      var connected := client.OpenSession(sessionOk);
      if !connected {
        Shutdown();
        return false;
      }
      if !introspectionOk {
        AbandonSession();
        return false;
      }
      ready := true;
      if flushPeriodOk {
        var planned := process.Initialize(planOk, true);
      }
      ok := true;
    }

    /** Shutting down a session that was opened but never became ready. */
    method AbandonSession()
      requires process.client == client && !ready && 0 !in client.leases
      requires Model() == CLOSED.(ready := true, registered := client.registered, leases := client.leases)
      modifies Footprint()
      ensures Valid() && Model() == CLOSED.(registered := old(client.registered), leases := old(client.leases))
    {
      process.Shutdown(true);
      ready := false;
      client.CloseSession();
      ClosedInv(false);
    }

    method ReadProcess(pid: nat, v: Service) returns (rate: Option<Rate>)
      requires Valid()
      modifies Footprint()
      ensures Valid() && (Model(), rate) == ProcessTracking.ReadProcess(old(Model()), pid, v)
    {
      ReadConserves(Model(), pid, v);
      if !ready { return None; }
      rate := process.Read(pid, v);
    }

    /** True means that the caller now owns a lease on `pid`. */
    method AcquireProcess(pid: nat, endpointOk: bool) returns (leased: bool)
      requires Valid()
      modifies Footprint()
      ensures Valid() && (Model(), leased) == ProcessTracking.AcquireProcess(old(Model()), pid, endpointOk)
    {
      AcquireConserves(Model(), pid, endpointOk);
      if !ready || pid == 0 { return false; }
      leased := client.StartTrackingProcess(pid, endpointOk);
      if leased { client.leases := client.leases + multiset{pid}; }
    }

    method BeginGameRenderVerification(pid: nat, frameReady: bool, startOk: bool, flushOk: bool, stopOk: bool)
      returns (leased: bool)
      requires Valid()
      modifies Footprint()
      ensures Valid() && (Model(), leased) == BeginVerification(old(Model()), pid, frameReady, startOk, flushOk, stopOk)
    {
      VerifyConserves(Model(), pid, frameReady, startOk, flushOk, stopOk);
      if !ready || !frameReady || pid == 0 { return false; }
      var started := client.StartTrackingProcess(pid, startOk);
      if !started { return false; }
      if !flushOk {
        var stopped := client.StopTrackingProcess(pid, stopOk);
        return false;
      }
      client.leases := client.leases + multiset{pid};
      leased := true;
    }

    /** Called by a lease that goes away. */
    method ReleaseProcess(pid: nat, stopOk: bool)
      requires Valid() && pid in client.leases
      modifies Footprint()
      ensures Valid() && Model() == ReleaseLease(old(Model()), pid, stopOk)
    {
      DropConserves(Model(), pid, stopOk);
      client.leases := client.leases - multiset{pid};
      if ready && pid != 0 {
        var stopped := client.StopTrackingProcess(pid, stopOk);
      }
    }
  }

  class PresentMonProcessLease {
    var provider: PresentMonTelemetryProvider?
    var processId: nat

    constructor (p: PresentMonTelemetryProvider?, pid: nat)
      ensures provider == p && processId == pid
    {
      provider, processId := p, pid;
    }

    /** Releasing gives the hold back once: a second release does nothing. */
    method Release(stopOk: bool)
      requires provider != null ==> provider.Valid() && processId in provider.client.leases
      modifies this, if provider == null then {} else provider.Footprint()
      ensures provider == null && processId == 0
      ensures old(provider) != null ==>
                old(provider).Valid() && old(provider).Model() == ReleaseLease(old(provider.Model()), old(processId), stopOk)
    {
      if provider != null { provider.ReleaseProcess(processId, stopOk); }
      provider, processId := null, 0;
    }

    /** Move assignment: this lease's own hold is given back, the other's hold moves here and is not given back. */
    method MoveFrom(other: PresentMonProcessLease, stopOk: bool)
      requires provider != null ==> provider.Valid() && processId in provider.client.leases
      modifies this, other, if provider == null then {} else provider.Footprint()
      ensures other == this ==> provider == old(provider) && processId == old(processId)
      ensures other != this ==> provider == old(other.provider) && processId == old(other.processId)
      ensures other != this ==> other.provider == null && other.processId == 0
      ensures other != this && old(provider) != null ==>
                old(provider).Valid() && old(provider).Model() == ReleaseLease(old(provider.Model()), old(processId), stopOk)
    {
      if other == this { return; }
      Release(stopOk);
      provider, processId := other.provider, other.processId;
      other.provider, other.processId := null, 0;
    }
  }
}
