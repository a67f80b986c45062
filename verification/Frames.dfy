/** The wire-level vocabulary shared by the codec, the bridge protocol and the event loop. */
module Frames {
  type byte = x: int | 0 <= x < 0x100
  type u32 = x: int | 0 <= x < 0x1_0000_0000
  type u64 = x: int | 0 <= x < 0x1_0000_0000_0000_0000
  type i32 = x: int | -0x8000_0000 <= x < 0x8000_0000

  /** UTF-8 bytes of a string. */
  type Text = seq<byte>

  datatype Option<+T> = None | Some(value: T)

  datatype Result<+T, +E> = Ok(value: T) | Err(error: E) {
    predicate IsFailure() { Err? }
    function PropagateFailure<U>(): Result<U, E> requires Err? { Err(error) }
    function Extract(): T requires Ok? { value }
  }

  datatype ExecutionError = ExecutionError(errorType: Text, message: Text, stack: Text, code: Text)

  /** The thirteen frame kinds; the first nine travel from the host, the last four to it. */
  datatype Frame =
    | Authenticate(token: Text)
    | CreateSession(sessionId: Text, heapLimitMb: u32, cpuTimeLimitMs: u32)
    | DestroySession(sessionId: Text)
    | InjectGlobals(sessionId: Text, payload: seq<byte>)
    | Execute(sessionId: Text, mode: byte, filePath: Text, bridgeCode: Text,
              postRestoreScript: Text, userCode: Text)
    | BridgeResponse(sessionId: Text, callId: u64, status: byte, payload: seq<byte>)
    | StreamEvent(sessionId: Text, eventType: Text, payload: seq<byte>)
    | TerminateExecution(sessionId: Text)
    | WarmSnapshot(bridgeCode: Text)
    | BridgeCall(sessionId: Text, callId: u64, bridgeMethod: Text, payload: seq<byte>)
    | ExecutionResult(sessionId: Text, exitCode: i32, exports: Option<seq<byte>>, error: Option<ExecutionError>)
    | Log(sessionId: Text, channel: byte, message: Text)
    | StreamCallback(sessionId: Text, callbackType: Text, payload: seq<byte>)

  /** Commands on a session's channel. */
  datatype Command = Shutdown | Message(frame: Frame)
}
