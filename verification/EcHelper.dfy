/**
 The elevated EC helper (EcHelperClient.cpp, EcHelperLifetimePolicy.h, and the telemetry sample and
 sampling stops of ProductionTelemetryController.cpp and App.cpp that use it): how often the user
 can be asked to elevate it, and the transfer of a message over its pipe in parts of any size.
 */
module EcHelper {
  import opened Options

  newtype Byte = x: int | 0 <= x < 0x100

  const REQUEST_SIZE := 8
  const RESPONSE_SIZE := 142
  const MAX_PAYLOAD := 128

  const PROTOCOL_VERSION: Byte := 1
  const GET_TEMPERATURE: Byte := 1
  const GET_FAN: Byte := 2
  const GET_DATA: Byte := 3

  /** Version (32 bits, little-endian), operation, selector, 16 reserved bits. */
  function Request(operation: Byte, selector: Byte): seq<Byte> {
    [PROTOCOL_VERSION, 0, 0, 0, operation, selector, 0, 0]
  }

  /** The helper answers no other requests. */
  predicate IsAllowedRequest(request: seq<Byte>)
    requires |request| == REQUEST_SIZE
  {
    && Number(request[..4]) == PROTOCOL_VERSION as int && request[6] == 0 && request[7] == 0
    && match request[4] as int
       case 1 => request[5] == 0
       case 2 => request[5] == 0
       case 3 => request[5] == 70 || request[5] == 71 || request[5] == 74 || request[5] == 75 || request[5] == 221
       case _ => false
  }

  /** Four bytes, little-endian. */
  function Number(bytes: seq<Byte>): nat
    requires |bytes| == 4
  {
    bytes[0] as int + 0x100 * bytes[1] as int + 0x1_0000 * bytes[2] as int + 0x100_0000 * bytes[3] as int
  }

  /** Version (4 bytes), success (1), result code (4), stage (1), payload length (4), payload (128). */
  function Response(success: Byte, code: seq<Byte>, stage: Byte, payload: seq<Byte>): (response: seq<Byte>)
    requires |code| == 4 && |payload| <= MAX_PAYLOAD
    ensures |response| == RESPONSE_SIZE
  {
    [PROTOCOL_VERSION, 0, 0, 0] + [success] + code + [stage] + [|payload| as Byte, 0, 0, 0]
      + payload + seq(MAX_PAYLOAD - |payload|, _ => 0)
  }

  /** Where a response holds what. */
  lemma ResponseHolds(success: Byte, code: seq<Byte>, stage: Byte, payload: seq<Byte>)
    requires |code| == 4 && |payload| <= MAX_PAYLOAD
    ensures var r := Response(success, code, stage, payload);
      && r[..4] == [1, 0, 0, 0] && r[4] == success && r[9] == stage
      && Number(r[10..14]) == |payload| && r[14..14 + |payload|] == payload
  {
    var r := Response(success, code, stage, payload);
    assert r[10..14] == [|payload| as Byte, 0, 0, 0];
  }

  predicate WellFormed(response: seq<Byte>)
    requires |response| == RESPONSE_SIZE
  {
    Number(response[..4]) == PROTOCOL_VERSION as int && Number(response[10..14]) <= MAX_PAYLOAD
  }

  function Payload(response: seq<Byte>): seq<Byte>
    requires |response| == RESPONSE_SIZE && WellFormed(response)
  {
    response[14..14 + Number(response[10..14])]
  }

  datatype SamplingStopCause = HudHidden | SystemSuspend | HudDisabled | AppShutdown

  /** Only an explicit end of use releases the helper. */
  predicate ReleasesHelper(cause: SamplingStopCause) {
    cause == HudDisabled || cause == AppShutdown
  }

  datatype FailureStage =
    | NoFailure | CoInitialize | ConnectWmi | GetClass | LaterStage | InvalidResponse | InvalidSuccessFlag
    | HelperNotElevated | PipeFailure | HelperLaunch | HelperMissing

  /** The stage that a byte of a response names. */
  function StageOf(b: Byte): FailureStage {
    match b as int
    case 0 => NoFailure
    case 1 => CoInitialize
    case 2 => ConnectWmi
    case 3 => GetClass
    case 15 => InvalidResponse
    case 16 => InvalidSuccessFlag
    case 17 => HelperNotElevated
    case 18 => PipeFailure
    case 19 => HelperLaunch
    case 20 => HelperMissing
    case _ => LaterStage
  }

  predicate AbortsSample(s: FailureStage) {
    || s == PipeFailure || s == HelperLaunch || s == HelperMissing || s == HelperNotElevated
    || s == CoInitialize || s == ConnectWmi || s == GetClass
  }

  /** The failures of a session, by the byte that a response names them with. */
  lemma SessionFailures(b: Byte)
    ensures AbortsSample(StageOf(b)) <==> 1 <= b <= 3 || 17 <= b <= 20
  {
  }

  /** What the embedded controller said when the helper asked it for a quantity. */
  datatype Reading = Reading(operation: Byte, selector: Byte, payload: Option<seq<Byte>>)

  /** The user's desktop: how often elevation has been requested, and what helpers have read. */
  class Desktop {
    var prompts: nat
    ghost var readings: seq<Reading>

    constructor ()
      ensures prompts == 0 && readings == []
    {
      prompts, readings := 0, [];
    }
  }

  /** The quantity was read and can be sent. */
  predicate Fits(r: Reading) {
    r.payload.Some? && |r.payload.value| <= MAX_PAYLOAD
  }

  ghost predicate Extends(before: seq<Reading>, after: seq<Reading>) {
    before <= after && |after| <= |before| + 1
  }

  /** An answer says success exactly if the quantity asked for has just been read and fits, and then it is what was read. */
  ghost predicate Answered(request: seq<Byte>, answer: seq<Byte>, before: seq<Reading>, after: seq<Reading>)
    requires |request| == REQUEST_SIZE && |answer| == RESPONSE_SIZE
  {
    && WellFormed(answer)
    && (after != before <==> IsAllowedRequest(request))
    && (answer[4] != 0 ==> after == before + [Reading(request[4], request[5], Some(Payload(answer)))])
    && (answer[4] == 0 && after != before ==> after != [] && !Fits(after[|after| - 1]))
  }

  /** A byte pipe to a helper, which takes and gives as much at a time as it likes. */
  class Pipe {
    const desktop: Desktop
    var sent: seq<Byte>
    var incoming: seq<Byte>
    var serving: bool

    constructor (desktop: Desktop)
      ensures sent == [] && incoming == [] && !serving && this.desktop == desktop
    {
      this.desktop := desktop;
      sent, incoming, serving := [], [], false;
    }

    /** Nothing is under way; all that can be waiting is a refusal of a helper that is gone. */
    ghost predicate Idle()
      reads this
    {
      && (serving ==> sent == [] && incoming == [])
      && |incoming| <= RESPONSE_SIZE && (|incoming| > 4 ==> incoming[4] == 0)
    }

    /** The helper begins to serve, or says unasked why it cannot, and is gone. */
    method Begin()
      requires sent == [] && incoming == []
      modifies this`serving, this`incoming
      ensures Idle()
    {
      serving := *;
      if !serving {
        var code: seq<Byte>, stage: Byte := *, *;
        if |code| == 4 {
          ResponseHolds(0, code, stage, []);
          var written: nat :| written <= RESPONSE_SIZE;
          incoming := Response(0, code, stage, [])[..written];
        }
      }
    }

    /** One turn of the helper: it reads a request and answers it, or is gone, perhaps within its answer. */
    method Serve() returns (ghost answer: seq<Byte>)
      requires serving ==> |sent| == REQUEST_SIZE && incoming == []
      modifies this, desktop`readings
      ensures !serving ==> incoming == old(incoming) || (old(serving) && |incoming| < RESPONSE_SIZE)
      ensures serving ==> old(serving) && sent == [] && incoming == answer && |answer| == RESPONSE_SIZE
      ensures serving ==> Answered(old(sent), answer, old(desktop.readings), desktop.readings)
      ensures Extends(old(desktop.readings), desktop.readings)
      ensures !old(serving) ==> desktop.readings == old(desktop.readings)
    {
      answer := [];
      var gone: bool := *;
      if gone { serving := false; }
      if !serving { return; }
      var request := sent;
      sent := [];
      var response;
      response := Answer(request);
      answer := response;
      var written: nat :| written <= RESPONSE_SIZE;
      incoming := response[..written];
      serving := written == RESPONSE_SIZE;
      assert response[..RESPONSE_SIZE] == response;
    }

    /** Reads what is asked for, if that is allowed, and says it, or says why not. */
    method Answer(request: seq<Byte>) returns (response: seq<Byte>)
      requires |request| == REQUEST_SIZE
      modifies desktop`readings
      ensures |response| == RESPONSE_SIZE
      ensures Answered(request, response, old(desktop.readings), desktop.readings)
      ensures Extends(old(desktop.readings), desktop.readings)
    {
      var code: seq<Byte>, stage: Byte := [0x57, 0, 0x07, 0x80], 15;
      if IsAllowedRequest(request) {
        var said: Option<seq<Byte>> := *;
        desktop.readings := desktop.readings + [Reading(request[4], request[5], said)];
        if said.Some? && |said.value| <= MAX_PAYLOAD {
          ResponseHolds(1, [0, 0, 0, 0], 0, said.value);
          return Response(1, [0, 0, 0, 0], 0, said.value);
        }
        code, stage := *, *;
        if |code| != 4 { code := [0, 0, 0, 0]; }
      }
      ResponseHolds(0, code, stage, []);
      response := Response(0, code, stage, []);
    }

    /** All of the data in order, or a part of it and a failure. */
    method WriteAll(data: seq<Byte>) returns (ok: bool)
      modifies this`sent
      ensures ok ==> sent == old(sent) + data
      ensures !ok ==> old(sent) <= sent < old(sent) + data
    {
      var cursor := 0;
      while cursor < |data|
        invariant cursor <= |data| && sent == old(sent) + data[..cursor]
      {
        var written: nat :| written <= |data| - cursor;
        if written == 0 {
          assert data == data[..cursor] + data[cursor..];
          return false;
        }
        sent := sent + data[cursor..cursor + written];
        assert data[..cursor + written] == data[..cursor] + data[cursor..cursor + written];
        cursor := cursor + written;
      }
      return true;
    }

    /** The next `size` bytes in order, or a failure; nothing is read twice or lost. */
    method ReadAll(size: nat) returns (ok: bool, data: seq<Byte>)
      modifies this`incoming
      ensures old(incoming) == data + incoming
      ensures ok == (|data| == size) && |data| <= size
    {
      data := [];
      var cursor := 0;
      while cursor < size
        invariant cursor <= size && |data| == cursor && old(incoming) == data + incoming
      {
        var read: nat :| read <= size - cursor && read <= |incoming|;
        if read == 0 { return false, data; }
        data, incoming := data + incoming[..read], incoming[read..];
        cursor := cursor + read;
      }
      return true, data;
    }
  }

  /** What one side writes completely, the other reads back unchanged. */
  method RoundTrip(pipe: Pipe, message: seq<Byte>) returns (ok: bool, received: seq<Byte>)
    requires pipe.sent == [] && pipe.incoming == []
    modifies pipe
    ensures ok ==> received == message && pipe.incoming == []
  {
    var written := pipe.WriteAll(message);
    if !written { return false, []; }
    pipe.incoming := pipe.sent;
    ok, received := pipe.ReadAll(|message|);
    assert pipe.sent == message;
  }

  class EcHelperClient {
    const desktop: Desktop
    var pipe: Pipe?
    var attempted: bool
    var stage: FailureStage

    ghost function Repr(): set<object>
      reads this
    {
      {this, desktop} + if pipe == null then {} else {pipe}
    }

    /**
     A connection uses up the launch, and nothing is under way on it between two requests. Why a
     connection was not made or was lost is not forgotten.
     */
    ghost predicate Valid()
      reads this, pipe
    {
      && (pipe != null ==> attempted && pipe.desktop == desktop && pipe.Idle())
      && (attempted && pipe == null ==> stage == PipeFailure || stage == HelperLaunch || stage == HelperMissing)
    }

    constructor (desktop: Desktop)
      ensures Valid() && !attempted && pipe == null && this.desktop == desktop
    {
      this.desktop := desktop;
      pipe, attempted, stage := null, false, NoFailure;
    }

    predicate Connected()
      reads this
    {
      pipe != null
    }

    method CloseTransport()
      modifies this`pipe
      ensures !Connected()
    {
      pipe := null;
    }

    /** Asks for elevation unless the launch has been used up. */
    method EnsureConnected() returns (ok: bool)
      requires Valid()
      modifies this, desktop`prompts
      ensures Valid() && ok == Connected() && attempted
      ensures old(attempted) ==> pipe == old(pipe) && desktop.prompts == old(desktop.prompts)
      ensures old(desktop.prompts) <= desktop.prompts <= old(desktop.prompts) + if old(attempted) then 0 else 1
      ensures pipe == old(pipe) || pipe == null || fresh(pipe)
    {
      if Connected() { return true; }
      if attempted { return false; }
      attempted := true;
      CloseTransport();
      var created: bool := *;
      if !created {
        stage := PipeFailure;
        return false;
      }
      pipe := new Pipe(desktop);
      var started := StartHelper();
      if !started {
        CloseTransport();
        return false;
      }
      var connected: bool := *;
      if !connected {
        stage := PipeFailure;
        CloseTransport();
        return false;
      }
      pipe.Begin();
      stage := NoFailure;
      return true;
    }

    method StartHelper() returns (ok: bool)
      modifies this`stage, desktop`prompts
      ensures old(desktop.prompts) <= desktop.prompts <= old(desktop.prompts) + 1
      ensures ok ==> desktop.prompts == old(desktop.prompts) + 1
      ensures !ok ==> stage == HelperLaunch || stage == HelperMissing
    {
      var helperPresent: bool := *;
      if !helperPresent {
        stage := HelperMissing;
        return false;
      }
      desktop.prompts := desktop.prompts + 1;
      ok := *;
      if !ok { stage := HelperLaunch; }
    }

    /** A request and its answer, or a broken transfer, which drops the connection with whatever may still arrive. */
    method Exchange(request: seq<Byte>) returns (ok: bool, response: seq<Byte>)
      requires Valid() && Connected() && |request| == REQUEST_SIZE
      modifies Repr()
      ensures Valid() && ok == Connected() && attempted == old(attempted)
      ensures pipe == old(pipe) || pipe == null
      ensures desktop.prompts == old(desktop.prompts) && Extends(old(desktop.readings), desktop.readings)
      ensures ok ==> |response| == RESPONSE_SIZE
      ensures ok && old(pipe.serving) ==> Answered(request, response, old(desktop.readings), desktop.readings)
      ensures ok && !old(pipe.serving) ==> response[4] == 0 && desktop.readings == old(desktop.readings)
    {
      response := [];
      ghost var idle := pipe.serving;
      ok := pipe.WriteAll(request);
      if !ok {
        stage := PipeFailure;
        CloseTransport();
        return;
      }
      assert idle ==> pipe.sent == request;
      ghost var answer := pipe.Serve();
      ghost var arrived := pipe.incoming;
      ok, response := pipe.ReadAll(RESPONSE_SIZE);
      if !ok {
        stage := PipeFailure;
        CloseTransport();
        return;
      }
      assert pipe.incoming == [] && response == arrived;
    }

    /**
     A payload is what the embedded controller has just said of the quantity asked for, whichever
     way the transfer was split. While the connection lasts, what was said and fits is delivered. A
     broken transfer does not undo the fact that the launch was used.
     */
    method Send(operation: Byte, selector: Byte) returns (ok: bool, payload: seq<Byte>)
      requires Valid()
      modifies Repr()
      ensures Valid() && attempted
      ensures ok ==> Connected()
      ensures ok ==> desktop.readings == old(desktop.readings) + [Reading(operation, selector, Some(payload))]
      ensures !ok ==> payload == []
      ensures !ok && Connected() && desktop.readings != old(desktop.readings) ==>
        desktop.readings != [] && !Fits(desktop.readings[|desktop.readings| - 1])
      ensures Extends(old(desktop.readings), desktop.readings)
      ensures ok ==> exists i :: 0 <= i < 7 && Quantity(i) == (operation, selector)
      ensures old(attempted) && !old(Connected()) ==> !ok
      ensures old(desktop.prompts) <= desktop.prompts <= old(desktop.prompts) + if old(attempted) then 0 else 1
      ensures pipe == old(pipe) || pipe == null || fresh(pipe)
    {
      payload := [];
      ok := EnsureConnected();
      if !ok { return; }
      var response;
      ok, response := Exchange(Request(operation, selector));
      if !ok { return; }
      ok, payload := Decode(response);
      AllowedExactly(operation, selector);
    }

    /**
     A response is taken exactly when its version is 1, its length at most 128 and its success flag
     set, and then its payload is as many bytes from the fifteenth on; otherwise the stage says why not.
     */
    method Decode(response: seq<Byte>) returns (ok: bool, payload: seq<Byte>)
      requires |response| == RESPONSE_SIZE
      modifies this`stage
      ensures ok <==>
        && response[0] == 1 && response[1] == 0 && response[2] == 0 && response[3] == 0
        && response[10] <= 128 && response[11] == 0 && response[12] == 0 && response[13] == 0
        && response[4] != 0
      ensures ok ==> |payload| == response[10] as int && forall k :: 0 <= k < |payload| ==> payload[k] == response[14 + k]
      ensures ok ==> WellFormed(response) && payload == Payload(response)
      ensures !ok ==> payload == []
      ensures stage == if !WellFormed(response) then InvalidResponse
                       else if !ok && StageOf(response[9]) == NoFailure then InvalidSuccessFlag
                       else StageOf(response[9])
    {
      payload := [];
      if !WellFormed(response) {
        stage := InvalidResponse;
        return false, [];
      }
      stage := StageOf(response[9]);
      if response[4] == 0 {
        if stage == NoFailure { stage := InvalidSuccessFlag; }
        return false, [];
      }
      return true, Payload(response);
    }

    /** The explicit end of a helper's life: another launch may be asked for. */
    method Close()
      requires Valid()
      modifies this`pipe, this`attempted
      ensures Valid() && !attempted && !Connected()
    {
      CloseTransport();
      attempted := false;
    }
  }

  /** A battery reading needs a first byte. */
  predicate Usable(answer: Option<seq<Byte>>) {
    answer.Some? && answer.value != []
  }

  /** What the answers of a sample are about, in their order. */
  function Quantity(i: nat): (Byte, Byte) {
    match i
    case 0 => (1, 0)
    case 1 => (2, 0)
    case 2 => (3, 221)
    case 3 => (3, 70)
    case 4 => (3, 71)
    case 5 => (3, 74)
    case _ => (3, 75)
  }

  /** The helper answers exactly the requests that a sample makes. */
  lemma AllowedExactly(operation: Byte, selector: Byte)
    ensures IsAllowedRequest(Request(operation, selector)) <==> exists i :: 0 <= i < 7 && Quantity(i) == (operation, selector)
  {
    var request := Request(operation, selector);
    assert request[..4] == [1, 0, 0, 0];
    if IsAllowedRequest(request) {
      var i := if operation == 1 then 0 else if operation == 2 then 1 else if selector == 221 then 2
        else if selector == 70 then 3 else if selector == 71 then 4 else if selector == 74 then 5 else 6;
      assert Quantity(i) == (operation, selector);
    }
  }

  /** Each answer is a reading of the quantity in its place. */
  ghost predicate AllAsked(answers: seq<Option<seq<Byte>>>, readings: seq<Reading>) {
    forall i :: 0 <= i < |answers| && answers[i].Some? ==> Reading(Quantity(i).0, Quantity(i).1, answers[i]) in readings
  }

  /** A sample is broken off exactly where it should be. */
  ghost predicate IsSample(answers: seq<Option<seq<Byte>>>, stages: seq<FailureStage>, onBattery: bool) {
    var n := |answers|;
    && 1 <= n <= 7 && |stages| == n
    && (forall i :: 0 <= i < n - 1 ==>
      if i < 3 then answers[i].Some? || !AbortsSample(stages[i]) else answers[i].Some? && answers[i].value != [])
    && if n < 3 || (n == 3 && onBattery) then answers[n - 1] == None && AbortsSample(stages[n - 1])
       else if n == 3 then true
       else onBattery && (n < 7 ==> answers[n - 1] == None || answers[n - 1] == Some([]))
  }

  lemma AskedNext(answers: seq<Option<seq<Byte>>>, answer: Option<seq<Byte>>, readings: seq<Reading>, more: seq<Reading>)
    requires AllAsked(answers, readings) && readings <= more
    requires answer.Some? ==> more == readings + [Reading(Quantity(|answers|).0, Quantity(|answers|).1, answer)]
    ensures AllAsked(answers + [answer], more)
  {
    assert forall r :: r in readings ==> r in more;
  }

  datatype Event = Sample(onBattery: bool) | Stop(cause: SamplingStopCause)

  class EcTelemetry {
    const desktop: Desktop
    var ecClient: EcHelperClient?
    ghost var releases: nat

    ghost function Repr(): set<object>
      reads this, ecClient
    {
      {this, desktop} + if ecClient == null then {} else ecClient.Repr()
    }

    /** The launch that may be asked for without another release has been used up. */
    predicate Spent()
      reads this, ecClient
    {
      ecClient != null && ecClient.attempted
    }

    /** Requests for elevation never outnumber the releases by more than the one launch in use. */
    ghost predicate Valid()
      reads Repr()
    {
      && (ecClient != null ==> ecClient.Valid() && ecClient.desktop == desktop)
      && desktop.prompts + (if Spent() then 0 else 1) <= 1 + releases
    }

    constructor (desktop: Desktop)
      requires desktop.prompts == 0
      ensures Valid() && releases == 0 && ecClient == null && this.desktop == desktop
    {
      this.desktop := desktop;
      ecClient, releases := null, 0;
    }

    /** One request of a sample. */
    method Ask(operation: Byte, selector: Byte) returns (answer: Option<seq<Byte>>, stage: FailureStage)
      requires Valid() && ecClient != null
      modifies Repr()
      ensures Valid() && ecClient != null && fresh(Repr() - old(Repr())) && releases == old(releases) && Spent()
      ensures Extends(old(desktop.readings), desktop.readings)
      ensures answer.Some? ==> desktop.readings == old(desktop.readings) + [Reading(operation, selector, answer)]
      ensures old(Spent()) ==> desktop.prompts == old(desktop.prompts)
      ensures old(Spent()) && !old(ecClient.Connected()) ==> answer == None
      ensures answer.Some? ==> ecClient.Connected()
      ensures !ecClient.Connected() ==> AbortsSample(stage)
    {
      var ok, payload := ecClient.Send(operation, selector);
      answer := if ok then Some(payload) else None;
      stage := ecClient.stage;
    }

    /**
     One sample: temperature, fan and power, broken off exactly when the session itself has failed,
     then, on battery, four readings broken off at the first that fails or answers nothing. Every
     answer is what the embedded controller said, during this sample, of the quantity in its place.
     */
    method ReadEcTelemetry(onBattery: bool) returns (answers: seq<Option<seq<Byte>>>, ghost stages: seq<FailureStage>)
      requires Valid()
      modifies Repr()
      ensures Valid() && fresh(Repr() - old(Repr())) && releases == old(releases)
      ensures IsSample(answers, stages, onBattery)
      ensures ecClient != null && (!ecClient.Connected() ==> answers[|answers| - 1] == None)
      ensures old(desktop.readings) <= desktop.readings
      ensures AllAsked(answers, desktop.readings[|old(desktop.readings)|..])
      ensures old(Spent()) ==> desktop.prompts == old(desktop.prompts)
    {
      ghost var n := |desktop.readings|;
      if ecClient == null { ecClient := new EcHelperClient(desktop); }
      var broken;
      answers, stages, broken := ReadSession();
      if broken || !onBattery { return; }
      answers, stages := ReadBattery(answers, stages, n);
    }

    /** Temperature, fan and power, broken off when the session itself has failed. */
    method ReadSession() returns (answers: seq<Option<seq<Byte>>>, ghost stages: seq<FailureStage>, broken: bool)
      requires Valid() && ecClient != null
      modifies Repr()
      ensures Valid() && ecClient != null && fresh(Repr() - old(Repr())) && releases == old(releases) && Spent()
      ensures 1 <= |answers| <= 3 && |stages| == |answers| && (!broken ==> |answers| == 3)
      ensures forall i :: 0 <= i < |answers| - 1 ==> answers[i].Some? || !AbortsSample(stages[i])
      ensures var last := |answers| - 1; broken <==> answers[last] == None && AbortsSample(stages[last])
      ensures !ecClient.Connected() ==> broken
      ensures old(desktop.readings) <= desktop.readings
      ensures AllAsked(answers, desktop.readings[|old(desktop.readings)|..])
      ensures old(Spent()) ==> desktop.prompts == old(desktop.prompts)
    {
      ghost var n := |desktop.readings|;
      var stage;
      answers, stage, broken := AskNext(GET_TEMPERATURE, 0, [], n);
      stages := [stage];
      if broken { return; }
      answers, stage, broken := AskNext(GET_FAN, 0, answers, n);
      stages := stages + [stage];
      if broken { return; }
      answers, stage, broken := AskNext(GET_DATA, 221, answers, n);
      stages := stages + [stage];
    }

    /** Asks for the next quantity of a sample. */
    method AskNext(operation: Byte, selector: Byte, answers: seq<Option<seq<Byte>>>, ghost start: nat)
      returns (all: seq<Option<seq<Byte>>>, stage: FailureStage, broken: bool)
      requires Valid() && ecClient != null && start <= |desktop.readings|
      requires AllAsked(answers, desktop.readings[start..]) && Quantity(|answers|) == (operation, selector)
      modifies Repr()
      ensures Valid() && ecClient != null && fresh(Repr() - old(Repr())) && releases == old(releases) && Spent()
      ensures |all| == |answers| + 1 && all[..|answers|] == answers
      ensures broken <==> all[|answers|] == None && AbortsSample(stage)
      ensures all[|answers|].Some? ==> ecClient.Connected()
      ensures !ecClient.Connected() ==> broken
      ensures old(desktop.readings) <= desktop.readings && AllAsked(all, desktop.readings[start..])
      ensures old(Spent()) ==> desktop.prompts == old(desktop.prompts)
    {
      ghost var before := desktop.readings;
      var answer;
      answer, stage := Ask(operation, selector);
      AskedNext(answers, answer, before[start..], desktop.readings[start..]);
      all := answers + [answer];
      broken := answer == None && AbortsSample(stage);
    }

    /** Current and voltage, a byte each: the four readings that a battery power is computed from. */
    method ReadBattery(session: seq<Option<seq<Byte>>>, ghost early: seq<FailureStage>, ghost start: nat)
      returns (answers: seq<Option<seq<Byte>>>, ghost stages: seq<FailureStage>)
      requires Valid() && ecClient != null && Spent() && start <= |desktop.readings|
      requires IsSample(session, early, false) && |session| == 3 && AllAsked(session, desktop.readings[start..])
      requires session[2].Some? || !AbortsSample(early[2])
      modifies Repr()
      ensures Valid() && fresh(Repr() - old(Repr())) && releases == old(releases)
      ensures IsSample(answers, stages, true) && |answers| > 3 && answers[..3] == session
      ensures old(desktop.readings) <= desktop.readings && AllAsked(answers, desktop.readings[start..])
      ensures ecClient != null && (!ecClient.Connected() ==> answers[|answers| - 1] == None)
      ensures desktop.prompts == old(desktop.prompts)
    {
      answers, stages := session, early;
      for i := 0 to 4
        invariant ecClient != null && Valid() && Spent() && fresh(Repr() - old(Repr()))
        invariant releases == old(releases) && desktop.prompts == old(desktop.prompts)
        invariant |answers| == |stages| == 3 + i && answers[..3] == session && stages[..3] == early
        invariant forall j :: 3 <= j < 3 + i ==> Usable(answers[j])
        invariant old(desktop.readings) <= desktop.readings && AllAsked(answers, desktop.readings[start..])
        invariant i > 0 ==> ecClient.Connected()
      {
        ghost var before := answers;
        var stage, broken;
        answers, stage, broken := AskNext(GET_DATA, [70, 71, 74, 75][i], answers, start);
        assert forall j :: 0 <= j < 3 + i ==> answers[j] == before[j];
        stages := stages + [stage];
        if !Usable(answers[3 + i]) { return; }
      }
    }

    method ReleaseEcHelper()
      requires Valid()
      modifies Repr()
      ensures Valid() && ecClient == null && releases == old(releases) + 1
      ensures desktop.prompts == old(desktop.prompts)
    {
      releases := releases + 1;
      if ecClient == null { return; }
      ecClient.Close();
      ecClient := null;
    }

    /** A transient stop keeps the helper, connection and all. */
    method StopProductionSampling(cause: SamplingStopCause)
      requires Valid()
      modifies Repr()
      ensures Valid() && fresh(Repr() - old(Repr())) && desktop.prompts == old(desktop.prompts)
      ensures releases == old(releases) + if cause == HudDisabled || cause == AppShutdown then 1 else 0
      ensures cause == HudHidden || cause == SystemSuspend ==>
        ecClient == old(ecClient) && (ecClient != null ==> unchanged(ecClient))
      ensures cause == HudDisabled || cause == AppShutdown ==> ecClient == null
    {
      if ReleasesHelper(cause) { ReleaseEcHelper(); }
    }

    /**
     Over any run, the user is asked to elevate at most once more often than sampling was stopped
     for good, however often the helper fails and the HUD is hidden or the system suspended.
     */
    method Run(events: seq<Event>)
      requires Valid() && releases == 0
      modifies Repr()
      ensures Valid()
      ensures desktop.prompts <= 1 + Releases(events)
    {
      for i := 0 to |events|
        invariant Valid() && fresh(Repr() - old(Repr()))
        invariant releases == Releases(events[..i])
      {
        match events[i] {
          case Sample(onBattery) =>
            var answers;
            ghost var stages;
            answers, stages := ReadEcTelemetry(onBattery);
          case Stop(cause) => StopProductionSampling(cause);
        }
        assert events[..i + 1][..i] == events[..i];
      }
      assert events[..|events|] == events;
    }
  }

  function Releases(events: seq<Event>): nat {
    if events == [] then 0 else
      var last := events[|events| - 1];
      Releases(events[..|events| - 1]) + if last.Stop? && (last.cause == HudDisabled || last.cause == AppShutdown) then 1 else 0
  }
}
