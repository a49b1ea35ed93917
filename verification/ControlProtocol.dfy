/**
 The values that cross the runtime-control boundary: requests, statuses, responses and
 the execution result that the main thread hands back to the pipe worker. The wire codec
 itself is not part of this model.
 */
module ControlProtocol {

  datatype Operation =
    | GetRuntimeInfo
    | GetSettingsSnapshot
    | SetStartWithWindows
    | SetHudEnabled
    | SetHudVisibilityMode
    | SetHudSizeOffset
    | SetHudFont
    | SetHudAlignment
    | SetHudBackgroundMode
    | PreviewHudOpacity
    | CommitHudOpacity
    | SetIntelVrrRangeFixEnabled
    | RequestShutdown
    | Unlisted(code: nat)

  datatype Status = Ok | InvalidValue | OperationFailed | UnknownOperation | ShuttingDown | RuntimeUnavailable

  /** `flag`, `wireEnum`, `sizeOffset` and `opacityPercent` are the decoded operands; an operation reads one. */
  datatype Request = Request(operation: Operation, requestId: nat, flag: bool, wireEnum: nat,
                             sizeOffset: int, opacityPercent: int)

  datatype Response = Response(operation: Operation, requestId: nat, status: Status)

  datatype ExecutionResult = ExecutionResult(response: Response, shutdownAfterResponse: bool)

  /** The result of a request that ends without having been executed. */
  function TerminalResult(request: Request, status: Status): ExecutionResult {
    ExecutionResult(Response(request.operation, request.requestId, status), false)
  }
}
