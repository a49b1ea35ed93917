/**
 Execution of one control request on the main thread (RuntimeControlWireMapping.cpp). The
 runtime behind it answers through `Surroundings`; which setter is called with which argument is
 part of the result, so that a rejected request can be seen to have no effect.
 */
module ControlExecution {
  import opened ControlProtocol
  import opened Options
  import P = HudPresentationModel
  import C = HudControllerModel

  /** `accepted`: the setter succeeds; the rest: the reply can be built. */
  datatype Surroundings = Surroundings(accepted: bool, snapshotValid: bool, infoValid: bool)

  /** A call of one of the runtime's setters. */
  datatype Setting =
    | StartWithWindows(on: bool)
    | HudEnabled(on: bool)
    | VisibilityMode(mode: C.VisibilityMode)
    | SizeOffset(offset: int)
    | Font(font: P.Font)
    | Alignment(alignment: P.Alignment)
    | BackgroundMode(background: P.BackgroundMode)
    | PreviewOpacity(fraction: real)
    | CommitOpacity(fraction: real)
    | IntelVrrRangeFix(on: bool)

  datatype Outcome = Outcome(response: Response, settings: seq<Setting>)

  // ---------------------------------------------------------------- operands

  function ToVisibilityMode(wire: nat): Option<C.VisibilityMode> {
    match wire
    case 1 => Some(C.Always)
    case 2 => Some(C.InGameOnly)
    case _ => None
  }

  function ToAlignment(wire: nat): Option<P.Alignment> {
    match wire
    case 1 => Some(P.AlignLeft)
    case 2 => Some(P.AlignCenter)
    case 3 => Some(P.AlignRight)
    case _ => None
  }

  function ToFont(wire: nat): Option<P.Font> {
    match wire
    case 1 => Some(P.Unispace)
    case 2 => Some(P.SegoeUiVariable)
    case _ => None
  }

  function ToBackgroundMode(wire: nat): Option<P.BackgroundMode> {
    match wire
    case 1 => Some(P.FullWidth)
    case 2 => Some(P.ContentWidth)
    case _ => None
  }

  function FromVisibilityMode(mode: C.VisibilityMode): nat {
    match mode
    case Always => 1
    case InGameOnly => 2
  }

  function FromAlignment(alignment: P.Alignment): nat {
    match alignment
    case AlignLeft => 1
    case AlignCenter => 2
    case AlignRight => 3
  }

  function FromFont(font: P.Font): nat {
    match font
    case Unispace => 1
    case SegoeUiVariable => 2
  }

  function FromBackgroundMode(mode: P.BackgroundMode): nat {
    match mode
    case FullWidth => 1
    case ContentWidth => 2
  }

  /** Every value of a setting survives the wire, and no other wire value converts. */
  lemma WireValues(wire: nat)
    ensures forall mode :: ToVisibilityMode(wire) == Some(mode) <==> wire == FromVisibilityMode(mode)
    ensures forall alignment :: ToAlignment(wire) == Some(alignment) <==> wire == FromAlignment(alignment)
    ensures forall font :: ToFont(wire) == Some(font) <==> wire == FromFont(font)
    ensures forall mode :: ToBackgroundMode(wire) == Some(mode) <==> wire == FromBackgroundMode(mode)
  {
  }

  // ---------------------------------------------------------------- execution

  function StatusResponse(request: Request, status: Status): Response {
    Response(request.operation, request.requestId, status)
  }

  function SnapshotStatus(env: Surroundings): Status {
    if env.snapshotValid then Ok else OperationFailed
  }

  function ExecuteControlResponse(request: Request, env: Surroundings): Outcome {
    match request.operation
    case GetRuntimeInfo => Outcome(StatusResponse(request, if env.infoValid then Ok else OperationFailed), [])
    case GetSettingsSnapshot => Outcome(StatusResponse(request, SnapshotStatus(env)), [])
    case SetStartWithWindows => Apply(request, env, StartWithWindows(request.flag), env.accepted)
    case SetHudEnabled => Apply(request, env, HudEnabled(request.flag), env.accepted)
    case SetHudVisibilityMode =>
      var mode := ToVisibilityMode(request.wireEnum);
      if mode == None then Reject(request) else Apply(request, env, VisibilityMode(mode.value), true)
    case SetHudSizeOffset =>
      if !(C.MINIMUM_SIZE <= request.sizeOffset <= C.MAXIMUM_SIZE) then Reject(request)
      else Apply(request, env, SizeOffset(request.sizeOffset), true)
    case SetHudFont =>
      var font := ToFont(request.wireEnum);
      if font == None then Reject(request) else Apply(request, env, Font(font.value), true)
    case SetHudAlignment =>
      var alignment := ToAlignment(request.wireEnum);
      if alignment == None then Reject(request) else Apply(request, env, Alignment(alignment.value), true)
    case SetHudBackgroundMode =>
      var mode := ToBackgroundMode(request.wireEnum);
      if mode == None then Reject(request) else Apply(request, env, BackgroundMode(mode.value), true)
    case PreviewHudOpacity =>
      if !IsValidOpacity(request.opacityPercent) then Reject(request)
      else Apply(request, env, PreviewOpacity(request.opacityPercent as real / 100.0), env.accepted)
    case CommitHudOpacity =>
      if !IsValidOpacity(request.opacityPercent) then Reject(request)
      else Apply(request, env, CommitOpacity(request.opacityPercent as real / 100.0), env.accepted)
    case SetIntelVrrRangeFixEnabled => Apply(request, env, IntelVrrRangeFix(request.flag), true)
    case RequestShutdown => Outcome(StatusResponse(request, Ok), [])
    case Unlisted(_) => Outcome(StatusResponse(request, UnknownOperation), [])
  }

  predicate IsValidOpacity(percent: int) {
    C.MINIMUM_OPACITY <= percent <= C.MAXIMUM_OPACITY
  }

  function Apply(request: Request, env: Surroundings, setting: Setting, accepted: bool): Outcome {
    Outcome(StatusResponse(request, if accepted then SnapshotStatus(env) else OperationFailed), [setting])
  }

  function Reject(request: Request): Outcome {
    Outcome(StatusResponse(request, InvalidValue), [])
  }

  function ExecuteRuntimeControlRequest(request: Request, env: Surroundings): ExecutionResult {
    var response := ExecuteControlResponse(request, env).response;
    ExecutionResult(response, request.operation == RequestShutdown && response.status == Ok)
  }

  // ---------------------------------------------------------------- what it means

  /** The request asks for this setting, with an operand in its range. */
  predicate AsksFor(request: Request, setting: Setting) {
    match setting
    case StartWithWindows(on) => request.operation == SetStartWithWindows && request.flag == on
    case HudEnabled(on) => request.operation == SetHudEnabled && request.flag == on
    case VisibilityMode(mode) => request.operation == SetHudVisibilityMode && request.wireEnum == FromVisibilityMode(mode)
    case SizeOffset(offset) => request.operation == SetHudSizeOffset && request.sizeOffset == offset && -2 <= offset <= 2
    case Font(font) => request.operation == SetHudFont && request.wireEnum == FromFont(font)
    case Alignment(alignment) => request.operation == SetHudAlignment && request.wireEnum == FromAlignment(alignment)
    case BackgroundMode(mode) => request.operation == SetHudBackgroundMode && request.wireEnum == FromBackgroundMode(mode)
    case PreviewOpacity(x) =>
      request.operation == PreviewHudOpacity && x * 100.0 == request.opacityPercent as real && 0.5 <= x <= 1.0
    case CommitOpacity(x) =>
      request.operation == CommitHudOpacity && x * 100.0 == request.opacityPercent as real && 0.5 <= x <= 1.0
    case IntelVrrRangeFix(on) => request.operation == SetIntelVrrRangeFixEnabled && request.flag == on
  }

  /** Setters that can refuse. */
  predicate MayRefuse(setting: Setting) {
    setting.StartWithWindows? || setting.HudEnabled? || setting.PreviewOpacity? || setting.CommitOpacity?
  }

  predicate Reads(request: Request) {
    request.operation == GetRuntimeInfo || request.operation == GetSettingsSnapshot || request.operation == RequestShutdown
  }

  /** The result answers the request, and it arms the shutdown only for an approved RequestShutdown. */
  ghost predicate Approved(request: Request, result: ExecutionResult) {
    && result.response.operation == request.operation && result.response.requestId == request.requestId
    && (result.shutdownAfterResponse <==> request.operation == RequestShutdown && result.response.status == Ok)
  }

  lemma Hundredth(percent: int)
    ensures percent as real / 100.0 * 100.0 == percent as real
    ensures 0.5 <= percent as real / 100.0 <= 1.0 <==> 50 <= percent <= 100
  {
  }

  lemma SettingOf(request: Request, env: Surroundings, setting: Setting)
    ensures ExecuteControlResponse(request, env).settings == [setting] <==> AsksFor(request, setting)
  {
    WireValues(request.wireEnum);
    Hundredth(request.opacityPercent);
  }

  /**
   The setter that is called is the one the request asks for, with the operand it carries, and none
   is called otherwise. A request that asks for none of its values changes nothing and is told so;
   a refusing setter or an unrepresentable state is a failed operation; everything else is Ok.
   */
  lemma ExecutionMeans(request: Request, env: Surroundings, setting: Setting)
    ensures var o := ExecuteControlResponse(request, env);
      && (o.settings == [setting] <==> AsksFor(request, setting))
      && |o.settings| <= 1
      && o.response.operation == request.operation && o.response.requestId == request.requestId
      && (o.response.status == UnknownOperation <==> request.operation.Unlisted?)
      && (o.response.status == InvalidValue <==> o.settings == [] && !Reads(request) && !request.operation.Unlisted?)
      && (o.settings == [setting] ==>
            (o.response.status == Ok <==> (MayRefuse(setting) ==> env.accepted) && env.snapshotValid))
      && (request.operation == RequestShutdown ==> o.response.status == Ok)
      && (request.operation == GetSettingsSnapshot ==> (o.response.status == Ok <==> env.snapshotValid))
      && (request.operation == GetRuntimeInfo ==> (o.response.status == Ok <==> env.infoValid))
      && o.response.status in {Ok, InvalidValue, OperationFailed, UnknownOperation}
  {
    SettingOf(request, env, setting);
  }

  /** A request that is refused for its operand or its operation has changed nothing; no request changes two things. */
  lemma RejectedWithoutEffect(request: Request, env: Surroundings)
    ensures var o := ExecuteControlResponse(request, env);
            && (o.response.status in {InvalidValue, UnknownOperation} ==> o.settings == [])
            && |o.settings| <= 1
            && Approved(request, ExecuteRuntimeControlRequest(request, env))
            && (ExecuteRuntimeControlRequest(request, env).shutdownAfterResponse ==> o.settings == [])
            && (request.operation == RequestShutdown ==> ExecuteRuntimeControlRequest(request, env).shutdownAfterResponse)
  {
  }
}
