/** The binary frame format: encoder, decoder, frame stream and the session-id peek. */
module FrameCodec {
  import opened Frames
  import Utf8

  const MAX_FRAME_SIZE: nat := 64 * 1024 * 1024

  datatype Error = InvalidData | InvalidInput | UnexpectedEof

  // ---- Numbers ----

  function Pow256(n: nat): (p: nat)
    ensures p > 0
  {
    if n == 0 then 1 else 256 * Pow256(n - 1)
  }

  /** x in n big-endian bytes. */
  function Be(x: nat, n: nat): (b: seq<byte>)
    ensures |b| == n
    decreases n, x
  {
    if n == 0 then [] else Be(x / 256, n - 1) + [x % 256]
  }

  function UnBe(b: seq<byte>): (x: nat)
    ensures x < Pow256(|b|)
  {
    if b == [] then 0 else UnBe(b[..|b| - 1]) * 256 + b[|b| - 1]
  }

  lemma {:induction false} UnBeBe(x: nat, n: nat)
    requires x < Pow256(n)
    ensures UnBe(Be(x, n)) == x
  {
    if n > 0 {
      UnBeBe(x / 256, n - 1);
      assert Be(x, n)[..n - 1] == Be(x / 256, n - 1);
    }
  }

  lemma {:induction false} BeUnBe(b: seq<byte>)
    ensures Be(UnBe(b), |b|) == b
  {
    if b != [] {
      BeUnBe(b[..|b| - 1]);
      assert b == b[..|b| - 1] + [b[|b| - 1]];
    }
  }

  lemma Widths()
    ensures Pow256(1) == 0x100 && Pow256(2) == 0x1_0000 && Pow256(4) == 0x1_0000_0000
    ensures Pow256(8) == 0x1_0000_0000_0000_0000
  {
    assert Pow256(2) == 0x1_0000;
    assert Pow256(4) == 0x1_0000_0000;
    assert Pow256(6) == 0x1_0000_0000_0000;
  }

  /** i32 to and from its two's complement bits. */
  function Unsigned(x: i32): u32 { if x >= 0 then x else x + 0x1_0000_0000 }
  function Signed(x: u32): i32 { if x < 0x8000_0000 then x else x - 0x1_0000_0000 }

  // ---- The wire layout ----

  /** Length-prefixed strings; the length is cut to the width of its field. */
  function Str8(t: Text, rest: seq<byte>): seq<byte> { Be(|t| % 0x100, 1) + (t + rest) }
  function Str16(t: Text, rest: seq<byte>): seq<byte> { Be(|t| % 0x1_0000, 2) + (t + rest) }
  function Str32(t: Text, rest: seq<byte>): seq<byte> { Be(|t| % 0x1_0000_0000, 4) + (t + rest) }

  function Kind(f: Frame): byte {
    match f
    case Authenticate(_) => 0x01
    case CreateSession(_, _, _) => 0x02
    case DestroySession(_) => 0x03
    case InjectGlobals(_, _) => 0x04
    case Execute(_, _, _, _, _, _) => 0x05
    case BridgeResponse(_, _, _, _) => 0x06
    case StreamEvent(_, _, _) => 0x07
    case TerminateExecution(_) => 0x08
    case WarmSnapshot(_) => 0x09
    case BridgeCall(_, _, _, _) => 0x81
    case ExecutionResult(_, _, _, _) => 0x82
    case Log(_, _, _) => 0x83
    case StreamCallback(_, _, _) => 0x84
  }

  predicate HasSession(f: Frame) { !f.Authenticate? && !f.WarmSnapshot? }

  function SessionOf(f: Frame): Text { if HasSession(f) then f.sessionId else [] }

  function Flags(f: Frame): byte
    requires f.ExecutionResult?
  {
    (if f.exports.Some? then 1 else 0) + (if f.error.Some? then 2 else 0)
  }

  /** The optional parts of an ExecutionResult. */
  function ExportsPart(e: Option<seq<byte>>,
                       rest: seq<byte>): seq<byte> { if e.Some? then Str32(e.value, rest) else rest }

  function ErrorPart(e: Option<ExecutionError>, rest: seq<byte>): seq<byte> {
    if e.Some? then Str16(e.value.errorType, Str16(e.value.message, Str16(e.value.stack, Str16(e.value.code, rest))))
    else rest
  }

  /** What follows the session id; flags is the flag byte of an ExecutionResult, rest what comes after. */
  function Fields(f: Frame, flags: byte, rest: seq<byte>): seq<byte> {
    match f
    case Authenticate(token) => token + rest
    case CreateSession(_, heap, cpu) => Be(heap, 4) + (Be(cpu, 4) + rest)
    case DestroySession(_) => rest
    case InjectGlobals(_, payload) => payload + rest
    case Execute(_, mode, filePath, bridgeCode, script, userCode) =>
      Be(mode, 1) + Str16(filePath, Str32(bridgeCode, Str32(script, userCode + rest)))
    case BridgeResponse(_, callId, status, payload) => Be(callId, 8) + (Be(status, 1) + (payload + rest))
    case StreamEvent(_, eventType, payload) => Str16(eventType, payload + rest)
    case TerminateExecution(_) => rest
    case WarmSnapshot(bridgeCode) => Str32(bridgeCode, rest)
    case BridgeCall(_, callId, bridgeMethod, payload) => Be(callId, 8) + Str16(bridgeMethod, payload + rest)
    case ExecutionResult(_, exitCode, exports, error) =>
      Be(Unsigned(exitCode), 4) + (Be(flags, 1) + ExportsPart(exports, ErrorPart(error, rest)))
    case Log(_, channel, message) => Be(channel, 1) + (message + rest)
    case StreamCallback(_, callbackType, payload) => Str16(callbackType, payload + rest)
  }

  function Body(f: Frame): seq<byte> {
    [Kind(f)] + Str8(SessionOf(f), Fields(f, if f.ExecutionResult? then Flags(f) else 0, []))
  }

  /** The strings with a 16-bit length. */
  function Short(f: Frame): seq<Text> {
    match f
    case Execute(_, _, filePath, _, _, _) => [filePath]
    case StreamEvent(_, eventType, _) => [eventType]
    case BridgeCall(_, _, bridgeMethod, _) => [bridgeMethod]
    case ExecutionResult(_, _, _, Some(e)) => [e.errorType, e.message, e.stack, e.code]
    case StreamCallback(_, callbackType, _) => [callbackType]
    case _ => []
  }

  predicate WithinLimits(f: Frame) { |SessionOf(f)| <= 255 && forall t <- Short(f) :: |t| <= 0xFFFF }

  /** The frames the encoder accepts. */
  predicate Accepted(f: Frame) { WithinLimits(f) && |Body(f)| <= MAX_FRAME_SIZE }

  function FrameBytes(f: Frame): seq<byte> { Be(|Body(f)| % 0x1_0000_0000, 4) + Body(f) }

  /** Rust strings are well-formed UTF-8. */
  predicate StringsWellFormed(f: Frame) {
    && Utf8.WellFormed(SessionOf(f)) && (forall t <- Short(f) :: Utf8.WellFormed(t))
    && match f
       case Authenticate(token) => Utf8.WellFormed(token)
       case Execute(_, _, _, bridgeCode, script, userCode) =>
         Utf8.WellFormed(bridgeCode) && Utf8.WellFormed(script) && Utf8.WellFormed(userCode)
       case WarmSnapshot(bridgeCode) => Utf8.WellFormed(bridgeCode)
       case Log(_, _, message) => Utf8.WellFormed(message)
       case _ => true
  }

  // ---- Decoding, on what is left of the buffer ----

  datatype Parsed<+T> = Got(value: T, rest: seq<byte>) | Bad(error: Error) {
    predicate IsFailure() { Bad? }
    function PropagateFailure<U>(): Parsed<U> requires Bad? { Bad(error) }
    function Extract(): (T, seq<byte>) requires Got? { (value, rest) }
  }

  function TakeBytes(s: seq<byte>, n: nat): Parsed<seq<byte>> {
    if n > |s| then Bad(UnexpectedEof) else Got(s[..n], s[n..])
  }

  function TakeNumber(s: seq<byte>, n: nat): (r: Parsed<nat>)
    ensures r.Got? ==> r.value < Pow256(n)
  {
    if n > |s| then Bad(UnexpectedEof)
    else Got(UnBe(s[..n]), s[n..])
  }

  function TakeText(s: seq<byte>, n: nat): Parsed<Text> {
    var (b, rest) :- TakeBytes(s, n);
    if Utf8.WellFormed(b) then Got(b, rest) else Bad(InvalidData)
  }

  function TakeStr16(s: seq<byte>): Parsed<Text> {
    var (n, rest) :- TakeNumber(s, 2);
    TakeText(rest, n)
  }

  function TakeStr32(s: seq<byte>): Parsed<Text> {
    var (n, rest) :- TakeNumber(s, 4);
    TakeText(rest, n)
  }

  function TakeBlob32(s: seq<byte>): Parsed<seq<byte>> {
    var (n, rest) :- TakeNumber(s, 4);
    TakeBytes(rest, n)
  }

  function TakeExports(flags: nat, s: seq<byte>): Parsed<Option<seq<byte>>> {
    if flags % 2 == 0 then Got(None, s)
    else
      var (data, rest) :- TakeBlob32(s);
      Got(Some(data), rest)
  }

  function TakeError(flags: nat, s: seq<byte>): Parsed<Option<ExecutionError>> {
    if flags / 2 % 2 == 0 then Got(None, s)
    else
      var (errorType, rest) :- TakeStr16(s);
      var (message, rest) :- TakeStr16(rest);
      var (stack, rest) :- TakeStr16(rest);
      var (code, rest) :- TakeStr16(rest);
      Got(Some(ExecutionError(errorType, message, stack, code)), rest)
  }

  function TakeExecute(sid: Text, s: seq<byte>): Parsed<Frame> {
    var (mode, rest) :- TakeNumber(s, 1);
    Widths();
    var (filePath, rest) :- TakeStr16(rest);
    var (bridgeCode, rest) :- TakeStr32(rest);
    var (script, rest) :- TakeStr32(rest);
    var (userCode, rest) :- TakeText(rest, |rest|);
    Got(Execute(sid, mode, filePath, bridgeCode, script, userCode), rest)
  }

  function TakeExecutionResult(sid: Text, s: seq<byte>): Parsed<Frame> {
    var (bits, rest) :- TakeNumber(s, 4);
    Widths();
    var (flags, rest) :- TakeNumber(rest, 1);
    var (exports, rest) :- TakeExports(flags, rest);
    var (error, rest) :- TakeError(flags, rest);
    Got(ExecutionResult(sid, Signed(bits), exports, error), rest)
  }

  function TakeStreamEvent(sid: Text, s: seq<byte>): Parsed<Frame> {
    var (eventType, rest) :- TakeStr16(s);
    Got(StreamEvent(sid, eventType, rest), [])
  }

  function TakeStreamCallback(sid: Text, s: seq<byte>): Parsed<Frame> {
    var (callbackType, rest) :- TakeStr16(s);
    Got(StreamCallback(sid, callbackType, rest), [])
  }

  function TakeBridgeCall(sid: Text, s: seq<byte>): Parsed<Frame> {
    var (callId, rest) :- TakeNumber(s, 8);
    Widths();
    var (bridgeMethod, rest) :- TakeStr16(rest);
    Got(BridgeCall(sid, callId, bridgeMethod, rest), [])
  }

  function TakeLog(sid: Text, s: seq<byte>): Parsed<Frame> {
    var (channel, rest) :- TakeNumber(s, 1);
    Widths();
    var (message, rest) :- TakeText(rest, |rest|);
    Got(Log(sid, channel, message), rest)
  }

  /** The fields of a frame whose kind and session id have been read. */
  function TakeFields(kind: byte, sid: Text, s: seq<byte>): Parsed<Frame> {
    Widths();
    match kind
    case 0x01 =>
      var (token, rest) :- TakeText(s, |s|);
      Got(Authenticate(token), rest)
    case 0x02 =>
      var (heap, rest) :- TakeNumber(s, 4);
      var (cpu, rest) :- TakeNumber(rest, 4);
      Got(CreateSession(sid, heap, cpu), rest)
    case 0x03 => Got(DestroySession(sid), s)
    case 0x04 => Got(InjectGlobals(sid, s), [])
    case 0x05 => TakeExecute(sid, s)
    case 0x06 =>
      var (callId, rest) :- TakeNumber(s, 8);
      var (status, rest) :- TakeNumber(rest, 1);
      Got(BridgeResponse(sid, callId, status, rest), [])
    case 0x07 => TakeStreamEvent(sid, s)
    case 0x08 => Got(TerminateExecution(sid), s)
    case 0x09 =>
      var (bridgeCode, rest) :- TakeStr32(s);
      Got(WarmSnapshot(bridgeCode), rest)
    case 0x81 => TakeBridgeCall(sid, s)
    case 0x82 => TakeExecutionResult(sid, s)
    case 0x83 => TakeLog(sid, s)
    case 0x84 => TakeStreamCallback(sid, s)
    case _ => Bad(InvalidData)
  }

  /** decode_body; the bytes a frame kind does not look at are in rest. */
  function DecodeBody(buf: seq<byte>): Parsed<Frame> {
    if buf == [] then Bad(InvalidData)
    else
      var (n, rest) :- TakeNumber(buf[1..], 1);
      var (sid, rest) :- TakeText(rest, n);
      TakeFields(buf[0], sid, rest)
  }

  /** read_frame, on a stream that ends after the given bytes. */
  function ReadFrame(stream: seq<byte>): Parsed<Frame> {
    var (n, rest) :- TakeNumber(stream, 4);
    if n > MAX_FRAME_SIZE then Bad(InvalidData)
    else
      var (body, rest) :- TakeBytes(rest, n);
      var (f, _) :- DecodeBody(body);
      Got(f, rest)
  }

  /** extract_session_id, on the bytes after the length prefix. */
  function ExtractSessionId(raw: seq<byte>): Parsed<Option<Text>> {
    if |raw| < 2 then Bad(InvalidData)
    else if raw[0] == 0x01 || raw[0] == 0x09 then Got(None, raw)
    else if |raw| < 2 + raw[1] as nat then Bad(InvalidData)
    else if Utf8.WellFormed(raw[2..2 + raw[1] as nat]) then Got(Some(raw[2..2 + raw[1] as nat]), raw)
    else Bad(InvalidData)
  }

  // ---- Reading back, and its converse, piece by piece ----

  lemma NumberRead(x: nat, n: nat, rest: seq<byte>)
    requires x < Pow256(n)
    ensures TakeNumber(Be(x, n) + rest, n) == Got(x, rest)
  {
    UnBeBe(x, n);
    assert (Be(x, n) + rest)[..n] == Be(x, n) && (Be(x, n) + rest)[n..] == rest;
  }

  lemma NumberWritten(s: seq<byte>, n: nat)
    requires TakeNumber(s, n).Got?
    ensures s == Be(TakeNumber(s, n).value, n) + TakeNumber(s, n).rest
  {
    BeUnBe(s[..n]);
  }

  /** A length below the width of its field survives the cast. */
  lemma NotCut(x: nat, m: nat)
    requires x < m
    ensures x % m == x
  {
  }

  lemma TextRead(t: Text, rest: seq<byte>)
    requires Utf8.WellFormed(t)
    ensures TakeText(t + rest, |t|) == Got(t, rest)
  {
    assert (t + rest)[..|t|] == t && (t + rest)[|t|..] == rest;
  }

  lemma Str16Read(t: Text, rest: seq<byte>)
    requires Utf8.WellFormed(t) && |t| <= 0xFFFF
    ensures TakeStr16(Str16(t, rest)) == Got(t, rest)
  {
    NotCut(|t|, 0x1_0000);
    NumberRead(|t|, 2, t + rest);
    TextRead(t, rest);
  }

  lemma Str32Read(t: Text, rest: seq<byte>)
    requires Utf8.WellFormed(t) && |t| < 0x1_0000_0000
    ensures TakeStr32(Str32(t, rest)) == Got(t, rest)
  {
    NotCut(|t|, 0x1_0000_0000);
    NumberRead(|t|, 4, t + rest);
    TextRead(t, rest);
  }

  lemma TextWritten(s: seq<byte>, n: nat)
    requires TakeText(s, n).Got?
    ensures var r := TakeText(s, n); s == r.value + r.rest && |r.value| == n && Utf8.WellFormed(r.value)
  {
  }

  lemma Str16Written(s: seq<byte>)
    requires TakeStr16(s).Got?
    ensures var r := TakeStr16(s); s == Str16(r.value, r.rest) && |r.value| <= 0xFFFF && Utf8.WellFormed(r.value)
  {
    var n := TakeNumber(s, 2);
    NotCut(n.value, 0x1_0000);
    TextWritten(n.rest, n.value);
    NumberWritten(s, 2);
  }

  lemma Str32Written(s: seq<byte>)
    requires TakeStr32(s).Got?
    ensures var r := TakeStr32(s); s == Str32(r.value, r.rest) && |r.value| < 0x1_0000_0000 && Utf8.WellFormed(r.value)
  {
    var n := TakeNumber(s, 4);
    NotCut(n.value, 0x1_0000_0000);
    TextWritten(n.rest, n.value);
    NumberWritten(s, 4);
  }

  lemma Blob32Read(b: seq<byte>, rest: seq<byte>)
    requires |b| < 0x1_0000_0000
    ensures TakeBlob32(Str32(b, rest)) == Got(b, rest)
  {
    NotCut(|b|, 0x1_0000_0000);
    NumberRead(|b|, 4, b + rest);
    assert (b + rest)[..|b|] == b && (b + rest)[|b|..] == rest;
  }

  lemma Blob32Written(s: seq<byte>)
    requires TakeBlob32(s).Got?
    ensures var r := TakeBlob32(s); s == Str32(r.value, r.rest) && |r.value| < 0x1_0000_0000
  {
    var n := TakeNumber(s, 4);
    NotCut(n.value, 0x1_0000_0000);
    NumberWritten(s, 4);
    var r := TakeBlob32(s);
    assert n.rest == r.value + r.rest;
  }

  // ---- The language of the decoder ----

  /** The fields with a 32-bit length fit. */
  predicate LongFits(f: Frame) {
    match f
    case Execute(_, _, _, bridgeCode, script, _) => |bridgeCode| < 0x1_0000_0000 && |script| < 0x1_0000_0000
    case WarmSnapshot(bridgeCode) => |bridgeCode| < 0x1_0000_0000
    case ExecutionResult(_, _, Some(exports), _) => |exports| < 0x1_0000_0000
    case _ => true
  }

  predicate FlagsOk(f: Frame, flags: byte) {
    f.ExecutionResult? ==> (flags % 2 == 1 <==> f.exports.Some?) && (flags / 2 % 2 == 1 <==> f.error.Some?)
  }

  /** Kinds whose last field does not extend to the end of the frame: anything may follow. */
  predicate Open(f: Frame) {
    f.CreateSession? || f.DestroySession? || f.TerminateExecution? || f.WarmSnapshot? || f.ExecutionResult?
  }

  /** What a decoded frame always satisfies. */
  predicate Decodable(f: Frame) { WithinLimits(f) && LongFits(f) && StringsWellFormed(f) }

  /** A string that fits a 16-bit length field and decodes. */
  predicate ShortOk(t: Text) { |t| <= 0xFFFF && Utf8.WellFormed(t) }

  predicate ErrorTextsOk(e: ExecutionError) {
    ShortOk(e.errorType) && ShortOk(e.message) && ShortOk(e.stack) && ShortOk(e.code)
  }

  lemma ErrorTexts(f: Frame)
    requires f.ExecutionResult? && f.error.Some?
    ensures ErrorTextsOk(f.error.value) <==>
      (forall t <- Short(f) :: |t| <= 0xFFFF) && (forall t <- Short(f) :: Utf8.WellFormed(t))
  {
    var ts := Short(f);
    assert ts[0] in ts && ts[1] in ts && ts[2] in ts && ts[3] in ts;
  }

  lemma ExecuteRead(f: Frame)
    requires f.Execute? && Decodable(f)
    ensures TakeExecute(f.sessionId, Fields(f, 0, [])) == Got(f, [])
  {
    Widths();
    assert f.filePath in Short(f);
    var s3 := f.userCode + [];
    var s2 := Str32(f.postRestoreScript, s3);
    var s1 := Str32(f.bridgeCode, s2);
    NumberRead(f.mode, 1, Str16(f.filePath, s1));
    Str16Read(f.filePath, s1);
    Str32Read(f.bridgeCode, s2);
    Str32Read(f.postRestoreScript, s3);
    TextRead(f.userCode, []);
  }

  lemma ErrorRead(e: Option<ExecutionError>, flags: nat, rest: seq<byte>)
    requires flags / 2 % 2 == 1 <==> e.Some?
    requires e.Some? ==> ErrorTextsOk(e.value)
    ensures TakeError(flags, ErrorPart(e, rest)) == Got(e, rest)
  {
    if e.Some? {
      var (code, stack, message) := (e.value.code, e.value.stack, e.value.message);
      Str16Read(code, rest);
      Str16Read(stack, Str16(code, rest));
      Str16Read(message, Str16(stack, Str16(code, rest)));
      Str16Read(e.value.errorType, Str16(message, Str16(stack, Str16(code, rest))));
    }
  }

  lemma ExportsRead(e: Option<seq<byte>>, flags: nat, rest: seq<byte>)
    requires (flags % 2 == 1 <==> e.Some?) && (e.Some? ==> |e.value| < 0x1_0000_0000)
    ensures TakeExports(flags, ExportsPart(e, rest)) == Got(e, rest)
  {
    if e.Some? {
      Blob32Read(e.value, rest);
    }
  }

  lemma ExecutionResultRead(f: Frame, flags: byte, rest: seq<byte>)
    requires f.ExecutionResult? && Decodable(f) && FlagsOk(f, flags)
    ensures TakeExecutionResult(f.sessionId, Fields(f, flags, rest)) == Got(f, rest)
  {
    Widths();
    var s2 := ErrorPart(f.error, rest);
    var s1 := ExportsPart(f.exports, s2);
    assert TakeError(flags, s2) == Got(f.error, rest) by {
      if f.error.Some? {
        ErrorTexts(f);
      }
      ErrorRead(f.error, flags, rest);
    }
    ExportsRead(f.exports, flags, s2);
    NumberRead(flags, 1, s1);
    NumberRead(Unsigned(f.exitCode), 4, Be(flags, 1) + s1);
  }

  lemma CreateSessionRead(f: Frame, rest: seq<byte>)
    requires f.CreateSession?
    ensures TakeFields(0x02, f.sessionId, Fields(f, 0, rest)) == Got(f, rest)
  {
    Widths();
    NumberRead(f.heapLimitMb, 4, Be(f.cpuTimeLimitMs, 4) + rest);
    NumberRead(f.cpuTimeLimitMs, 4, rest);
  }

  lemma BridgeResponseRead(f: Frame)
    requires f.BridgeResponse?
    ensures TakeFields(0x06, f.sessionId, Fields(f, 0, [])) == Got(f, [])
  {
    Widths();
    assert f.payload + [] == f.payload;
    NumberRead(f.callId, 8, Be(f.status, 1) + f.payload);
    NumberRead(f.status, 1, f.payload);
  }

  lemma BridgeCallRead(f: Frame)
    requires f.BridgeCall? && Decodable(f)
    ensures TakeBridgeCall(f.sessionId, Fields(f, 0, [])) == Got(f, [])
  {
    Widths();
    assert f.payload + [] == f.payload && f.bridgeMethod in Short(f);
    NumberRead(f.callId, 8, Str16(f.bridgeMethod, f.payload));
    Str16Read(f.bridgeMethod, f.payload);
  }

  lemma StreamEventRead(f: Frame)
    requires f.StreamEvent? && Decodable(f)
    ensures TakeStreamEvent(f.sessionId, Fields(f, 0, [])) == Got(f, [])
  {
    assert f.payload + [] == f.payload && f.eventType in Short(f);
    Str16Read(f.eventType, f.payload);
  }

  lemma StreamCallbackRead(f: Frame)
    requires f.StreamCallback? && Decodable(f)
    ensures TakeStreamCallback(f.sessionId, Fields(f, 0, [])) == Got(f, [])
  {
    assert f.payload + [] == f.payload && f.callbackType in Short(f);
    Str16Read(f.callbackType, f.payload);
  }

  lemma LogRead(f: Frame)
    requires f.Log? && Utf8.WellFormed(f.message)
    ensures TakeLog(f.sessionId, Fields(f, 0, [])) == Got(f, [])
  {
    TextRead(f.message, []);
    NumberRead(f.channel, 1, f.message + []);
  }

  lemma AuthenticateRead(f: Frame, sid: Text)
    requires f.Authenticate? && Utf8.WellFormed(f.token)
    ensures TakeFields(0x01, sid, Fields(f, 0, [])) == Got(f, [])
  {
    TextRead(f.token, []);
  }

  lemma PlainRead(f: Frame, rest: seq<byte>)
    requires f.DestroySession? || f.TerminateExecution? || (f.InjectGlobals? && rest == [])
    ensures TakeFields(Kind(f), f.sessionId, Fields(f, 0, rest)) == Got(f, rest)
  {
    if f.InjectGlobals? {
      assert f.payload + [] == f.payload;
    }
  }

  lemma WarmSnapshotRead(f: Frame, rest: seq<byte>, sid: Text)
    requires f.WarmSnapshot? && Utf8.WellFormed(f.bridgeCode) && |f.bridgeCode| < 0x1_0000_0000
    ensures TakeFields(0x09, sid, Fields(f, 0, rest)) == Got(f, rest)
  {
    Str32Read(f.bridgeCode, rest);
  }

  /** Only an ExecutionResult has flags. */
  lemma FlagsUnused(f: Frame, flags: byte, rest: seq<byte>)
    requires !f.ExecutionResult?
    ensures Fields(f, flags, rest) == Fields(f, 0, rest)
  {
  }

  /** Every frame kind reads its own fields back. */
  lemma FieldsRead(f: Frame, flags: byte, rest: seq<byte>, sid: Text)
    requires Decodable(f) && FlagsOk(f, flags) && (rest == [] || Open(f)) && (HasSession(f) ==> sid == f.sessionId)
    ensures TakeFields(Kind(f), sid, Fields(f, flags, rest)) == Got(f, rest)
  {
    if f.ExecutionResult? {
      ExecutionResultRead(f, flags, rest);
    } else {
      FlagsUnused(f, flags, rest);
      UnflaggedRead(f, rest, sid);
    }
  }

  lemma UnflaggedRead(f: Frame, rest: seq<byte>, sid: Text)
    requires Decodable(f) && !f.ExecutionResult? && (rest == [] || Open(f)) && (HasSession(f) ==> sid == f.sessionId)
    ensures TakeFields(Kind(f), sid, Fields(f, 0, rest)) == Got(f, rest)
  {
    if Kind(f) < 0x06 {
      LowKindRead(f, rest, sid);
    } else if Kind(f) < 0x81 {
      MiddleKindRead(f, rest, sid);
    } else {
      HighKindRead(f);
    }
  }

  lemma LowKindRead(f: Frame, rest: seq<byte>, sid: Text)
    requires Decodable(f) && Kind(f) < 0x06 && (rest == [] || Open(f)) && (HasSession(f) ==> sid == f.sessionId)
    ensures TakeFields(Kind(f), sid, Fields(f, 0, rest)) == Got(f, rest)
  {
    match f
    case Authenticate(_) => AuthenticateRead(f, sid);
    case CreateSession(_, _, _) => CreateSessionRead(f, rest);
    case DestroySession(_) => PlainRead(f, rest);
    case InjectGlobals(_, _) => PlainRead(f, rest);
    case Execute(_, _, _, _, _, _) => ExecuteRead(f);
  }

  lemma MiddleKindRead(f: Frame, rest: seq<byte>, sid: Text)
    requires Decodable(f) && 0x06 <= Kind(f) < 0x81 && (rest == [] || Open(f)) && (HasSession(f) ==> sid == f.sessionId)
    ensures TakeFields(Kind(f), sid, Fields(f, 0, rest)) == Got(f, rest)
  {
    match f
    case BridgeResponse(_, _, _, _) => BridgeResponseRead(f);
    case StreamEvent(_, _, _) => StreamEventRead(f);
    case TerminateExecution(_) => PlainRead(f, rest);
    case WarmSnapshot(_) => WarmSnapshotRead(f, rest, sid);
  }

  lemma HighKindRead(f: Frame)
    requires Decodable(f) && Kind(f) >= 0x81 && !f.ExecutionResult?
    ensures TakeFields(Kind(f), f.sessionId, Fields(f, 0, [])) == Got(f, [])
  {
    match f
    case BridgeCall(_, _, _, _) => BridgeCallRead(f);
    case Log(_, _, _) => LogRead(f);
    case StreamCallback(_, _, _) => StreamCallbackRead(f);
  }

  // ---- Nothing else is read ----

  lemma ExecuteDecodable(f: Frame)
    requires f.Execute? && |f.sessionId| <= 255 && |f.bridgeCode| < 0x1_0000_0000
    requires |f.postRestoreScript| < 0x1_0000_0000
    requires ShortOk(f.filePath) && Utf8.WellFormed(f.sessionId)
    requires Utf8.WellFormed(f.bridgeCode) && Utf8.WellFormed(f.postRestoreScript) && Utf8.WellFormed(f.userCode)
    ensures Decodable(f)
  {
  }

  lemma ExecuteTail(s: seq<byte>, script: Text, userCode: Text)
    requires TakeStr32(s) == Got(script, userCode)
    ensures s == Str32(script, userCode + []) && |script| < 0x1_0000_0000 && Utf8.WellFormed(script)
  {
    Str32Written(s);
    assert userCode + [] == userCode;
  }

  lemma WholeText(s: seq<byte>)
    ensures TakeText(s, |s|) == if Utf8.WellFormed(s) then Got(s, []) else Bad(InvalidData)
  {
    assert s[..|s|] == s && s[|s|..] == [];
  }

  lemma ExecuteWritten(sid: Text, s: seq<byte>)
    requires TakeExecute(sid, s).Got? && Utf8.WellFormed(sid) && |sid| <= 255
    ensures var r := TakeExecute(sid, s);
      r.value.Execute? && r.value.sessionId == sid && r.rest == [] && Decodable(r.value) && s == Fields(r.value, 0, [])
  {
    var n := TakeNumber(s, 1);
    var p := TakeStr16(n.rest);
    var b := TakeStr32(p.rest);
    var c := TakeStr32(b.rest);
    WholeText(c.rest);
    var f := Execute(sid, n.value, p.value, b.value, c.value, c.rest);
    assert TakeExecute(sid, s) == Got(f, []);
    Str16Written(n.rest);
    Str32Written(p.rest);
    ExecuteTail(b.rest, c.value, c.rest);
    ExecuteDecodable(f);
    NumberWritten(s, 1);
  }

  lemma ErrorWritten(flags: nat, s: seq<byte>)
    requires TakeError(flags, s).Got?
    ensures var r := TakeError(flags, s);
      && s == ErrorPart(r.value, r.rest) && (flags / 2 % 2 == 1 <==> r.value.Some?)
      && (r.value.Some? ==> ErrorTextsOk(r.value.value))
  {
    if flags / 2 % 2 == 1 {
      var a := TakeStr16(s);
      Str16Written(s);
      var b := TakeStr16(a.rest);
      Str16Written(a.rest);
      var c := TakeStr16(b.rest);
      Str16Written(b.rest);
      Str16Written(c.rest);
    }
  }

  lemma ExportsWritten(flags: nat, s: seq<byte>)
    requires TakeExports(flags, s).Got?
    ensures var r := TakeExports(flags, s);
      && s == ExportsPart(r.value, r.rest) && (flags % 2 == 1 <==> r.value.Some?)
      && (r.value.Some? ==> |r.value.value| < 0x1_0000_0000)
  {
    if flags % 2 == 1 {
      Blob32Written(s);
    }
  }

  lemma ExecutionResultWritten(sid: Text, s: seq<byte>) returns (flags: byte)
    requires TakeExecutionResult(sid, s).Got? && Utf8.WellFormed(sid) && |sid| <= 255
    ensures var r := TakeExecutionResult(sid, s);
      && r.value.ExecutionResult? && r.value.sessionId == sid && Decodable(r.value) && FlagsOk(r.value, flags)
      && s == Fields(r.value, flags, r.rest)
  {
    Widths();
    var bits := TakeNumber(s, 4);
    NumberWritten(s, 4);
    var fl := TakeNumber(bits.rest, 1);
    NumberWritten(bits.rest, 1);
    flags := fl.value;
    var exports := TakeExports(flags, fl.rest);
    ExportsWritten(flags, fl.rest);
    ErrorWritten(flags, exports.rest);
    assert Unsigned(Signed(bits.value)) == bits.value;
    var f := TakeExecutionResult(sid, s).value;
    if f.error.Some? {
      ErrorTexts(f);
    }
  }

  lemma CreateSessionWritten(sid: Text, s: seq<byte>)
    requires TakeFields(0x02, sid, s).Got?
    ensures var r := TakeFields(0x02, sid, s);
      r.value.CreateSession? && r.value.sessionId == sid && s == Fields(r.value, 0, r.rest)
  {
    Widths();
    NumberWritten(s, 4);
    NumberWritten(TakeNumber(s, 4).rest, 4);
  }

  lemma BridgeResponseWritten(sid: Text, s: seq<byte>)
    requires TakeFields(0x06, sid, s).Got?
    ensures var r := TakeFields(0x06, sid, s);
      r.value.BridgeResponse? && r.value.sessionId == sid && r.rest == [] && s == Fields(r.value, 0, [])
  {
    Widths();
    NumberWritten(s, 8);
    NumberWritten(TakeNumber(s, 8).rest, 1);
    var f := TakeFields(0x06, sid, s).value;
    assert f.payload + [] == f.payload;
  }

  lemma TaggedDecodable(f: Frame, t: Text)
    requires
      || (f.StreamEvent? && f.eventType == t)
      || (f.StreamCallback? && f.callbackType == t)
      || (f.BridgeCall? && f.bridgeMethod == t)
    requires |f.sessionId| <= 255 && Utf8.WellFormed(f.sessionId) && ShortOk(t)
    ensures Decodable(f)
  {
    assert Short(f) == [t];
  }

  lemma LogDecodable(f: Frame)
    requires f.Log? && |f.sessionId| <= 255 && Utf8.WellFormed(f.sessionId) && Utf8.WellFormed(f.message)
    ensures Decodable(f)
  {
  }

  lemma BridgeCallWritten(sid: Text, s: seq<byte>)
    requires TakeBridgeCall(sid, s).Got? && Utf8.WellFormed(sid) && |sid| <= 255
    ensures var r := TakeBridgeCall(sid, s);
      && r.value.BridgeCall? && r.value.sessionId == sid && r.rest == []
      && Decodable(r.value) && s == Fields(r.value, 0, [])
  {
    Widths();
    var n := TakeNumber(s, 8);
    var t := TakeStr16(n.rest);
    var f := BridgeCall(sid, n.value, t.value, t.rest);
    Str16Written(n.rest);
    NumberWritten(s, 8);
    assert t.rest + [] == t.rest;
    TaggedDecodable(f, t.value);
  }

  lemma StreamEventWritten(sid: Text, s: seq<byte>)
    requires TakeStreamEvent(sid, s).Got? && Utf8.WellFormed(sid) && |sid| <= 255
    ensures var r := TakeStreamEvent(sid, s);
      && r.value.StreamEvent? && r.value.sessionId == sid && r.rest == []
      && Decodable(r.value) && s == Fields(r.value, 0, [])
  {
    var t := TakeStr16(s);
    var f := StreamEvent(sid, t.value, t.rest);
    Str16Written(s);
    assert t.rest + [] == t.rest;
    TaggedDecodable(f, t.value);
    assert TakeStreamEvent(sid, s) == Got(f, []);
  }

  lemma StreamCallbackWritten(sid: Text, s: seq<byte>)
    requires TakeStreamCallback(sid, s).Got? && Utf8.WellFormed(sid) && |sid| <= 255
    ensures var r := TakeStreamCallback(sid, s);
      && r.value.StreamCallback? && r.value.sessionId == sid && r.rest == []
      && Decodable(r.value) && s == Fields(r.value, 0, [])
  {
    var t := TakeStr16(s);
    var f := StreamCallback(sid, t.value, t.rest);
    Str16Written(s);
    assert t.rest + [] == t.rest;
    TaggedDecodable(f, t.value);
    assert TakeStreamCallback(sid, s) == Got(f, []);
  }

  lemma LogWritten(sid: Text, s: seq<byte>)
    requires TakeLog(sid, s).Got? && Utf8.WellFormed(sid) && |sid| <= 255
    ensures var r := TakeLog(sid, s);
      r.value.Log? && r.value.sessionId == sid && r.rest == [] && Decodable(r.value) && s == Fields(r.value, 0, [])
  {
    var n := TakeNumber(s, 1);
    NumberWritten(s, 1);
    WholeText(n.rest);
    LogDecodable(Log(sid, n.value, n.rest));
    assert n.rest + [] == n.rest;
  }

  /** Whatever the decoder reads is laid out as a frame of that kind. */
  lemma FieldsWritten(kind: byte, sid: Text, s: seq<byte>) returns (flags: byte)
    requires TakeFields(kind, sid, s).Got? && Utf8.WellFormed(sid) && |sid| <= 255
    ensures var r := TakeFields(kind, sid, s);
      && Kind(r.value) == kind && s == Fields(r.value, flags, r.rest) && (r.rest == [] || Open(r.value))
      && Decodable(r.value) && FlagsOk(r.value, flags) && (HasSession(r.value) ==> r.value.sessionId == sid)
  {
    flags := 0;
    match kind
    case 0x01 =>
      TextWritten(s, |s|);
      assert s == TakeFields(kind, sid, s).value.token + [];
    case 0x02 => CreateSessionWritten(sid, s);
    case 0x03 =>
    case 0x04 => assert s + [] == s;
    case 0x05 => ExecuteWritten(sid, s);
    case 0x06 => BridgeResponseWritten(sid, s);
    case 0x07 => StreamEventWritten(sid, s);
    case 0x08 =>
    case 0x09 => Str32Written(s);
    case 0x81 => BridgeCallWritten(sid, s);
    case 0x82 => flags := ExecutionResultWritten(sid, s);
    case 0x83 => LogWritten(sid, s);
    case 0x84 => StreamCallbackWritten(sid, s);
    case _ => assert false;
  }

  // ---- Main results ----

  /** b is the frame f on the wire, up to what the decoder ignores: the session id of a frame that has
      none, unused flag bits, and bytes behind a frame whose last field does not reach the end. */
  ghost predicate Denotes(b: seq<byte>, f: Frame, sid: Text, flags: byte, tail: seq<byte>) {
    && Utf8.WellFormed(sid) && |sid| <= 255 && (HasSession(f) ==> sid == f.sessionId)
    && Decodable(f) && FlagsOk(f, flags) && (tail == [] || Open(f))
    && b == [Kind(f)] + Str8(sid, Fields(f, flags, tail))
  }

  lemma HeaderRead(kind: byte, sid: Text, fields: seq<byte>)
    requires Utf8.WellFormed(sid) && |sid| <= 255
    ensures DecodeBody([kind] + Str8(sid, fields)) == TakeFields(kind, sid, fields)
  {
    var b := [kind] + Str8(sid, fields);
    NotCut(|sid|, 0x100);
    assert b[1..] == Be(|sid|, 1) + (sid + fields);
    NumberRead(|sid|, 1, sid + fields);
    TextRead(sid, fields);
  }

  lemma HeaderBytes(kind: byte, sid: Text, fields: seq<byte>)
    requires |sid| <= 255
    ensures var b := [kind] + Str8(sid, fields);
      |b| >= 2 + |sid| && b[0] == kind && b[1] == |sid| && b[2..2 + |sid|] == sid
  {
    var b := [kind] + Str8(sid, fields);
    NotCut(|sid|, 0x100);
    assert b == [kind, |sid|] + (sid + fields);
  }

  lemma HeaderPeeked(kind: byte, sid: Text, fields: seq<byte>)
    requires Utf8.WellFormed(sid) && |sid| <= 255
    ensures var b := [kind] + Str8(sid, fields);
      ExtractSessionId(b) == Got(if kind == 0x01 || kind == 0x09 then None else Some(sid), b)
  {
    HeaderBytes(kind, sid, fields);
  }

  /** The decoder accepts exactly the byte strings that denote a frame, and returns that frame. */
  lemma DecoderIsExact(b: seq<byte>, f: Frame, tail: seq<byte>)
    ensures DecodeBody(b) == Got(f, tail) <==> exists sid, flags :: Denotes(b, f, sid, flags, tail)
  {
    if DecodeBody(b) == Got(f, tail) {
      var n := TakeNumber(b[1..], 1);
      NumberWritten(b[1..], 1);
      var t := TakeText(n.rest, n.value);
      TextWritten(n.rest, n.value);
      NotCut(n.value, 0x100);
      var flags := FieldsWritten(b[0], t.value, t.rest);
      assert b == [b[0]] + b[1..];
      assert Denotes(b, f, t.value, flags, tail);
    }
    if sid, flags :| Denotes(b, f, sid, flags, tail) {
      HeaderRead(Kind(f), sid, Fields(f, flags, tail));
      FieldsRead(f, flags, tail, sid);
    }
  }

  /** No byte string denotes two frames. */
  lemma DecodingIsUnambiguous(b: seq<byte>, f: Frame, g: Frame, sf: Text, ff: byte, tf: seq<byte>, sg: Text, fg: byte,
                              tg: seq<byte>)
    requires Denotes(b, f, sf, ff, tf) && Denotes(b, g, sg, fg, tg)
    ensures f == g
  {
    DecoderIsExact(b, f, tf);
    DecoderIsExact(b, g, tg);
  }

  /** The peek agrees with the full decoder on every decodable body, and finds no session id exactly
      in the two kinds that have none. */
  lemma PeekAgrees(b: seq<byte>)
    requires DecodeBody(b).Got?
    ensures var f := DecodeBody(b).value;
      ExtractSessionId(b) == Got(if HasSession(f) then Some(f.sessionId) else None, b)
  {
    var f, tail := DecodeBody(b).value, DecodeBody(b).rest;
    DecoderIsExact(b, f, tail);
    var sid, flags :| Denotes(b, f, sid, flags, tail);
    HeaderPeeked(Kind(f), sid, Fields(f, flags, tail));
  }

  /** The frame size limit makes the 32-bit length casts harmless. */
  lemma LongFieldsFit(f: Frame)
    requires |Body(f)| <= MAX_FRAME_SIZE
    ensures LongFits(f)
  {
  }

  lemma AcceptedIsDecodable(f: Frame)
    requires Accepted(f) && StringsWellFormed(f)
    ensures Decodable(f)
  {
    LongFieldsFit(f);
  }

  lemma DecodableReadBack(f: Frame)
    requires Decodable(f)
    ensures DecodeBody(Body(f)) == Got(f, [])
  {
    var flags := if f.ExecutionResult? then Flags(f) else 0;
    FieldsRead(f, flags, [], SessionOf(f));
    HeaderRead(Kind(f), SessionOf(f), Fields(f, flags, []));
  }

  lemma BodyReadBack(f: Frame)
    requires Accepted(f) && StringsWellFormed(f)
    ensures DecodeBody(Body(f)) == Got(f, [])
  {
    AcceptedIsDecodable(f);
    DecodableReadBack(f);
  }

  /** Every accepted frame is read back, whatever follows it on the stream. */
  lemma FrameRoundTrip(f: Frame, more: seq<byte>)
    requires Accepted(f) && StringsWellFormed(f)
    ensures ReadFrame(FrameBytes(f) + more) == Got(f, more)
  {
    BodyReadBack(f);
    var body := Body(f);
    NotCut(|body|, 0x1_0000_0000);
    assert FrameBytes(f) + more == Be(|body|, 4) + (body + more);
    NumberRead(|body|, 4, body + more);
    assert (body + more)[..|body|] == body && (body + more)[|body|..] == more;
  }

  function StreamOf(fs: seq<Frame>): seq<byte> {
    if fs == [] then [] else FrameBytes(fs[0]) + StreamOf(fs[1..])
  }

  /** Reading to the end of the stream: the frames, and how it ended. */
  function ReadAll(stream: seq<byte>): (seq<Frame>, Error)
    decreases |stream|
  {
    match ReadFrame(stream)
    case Bad(e) => ([], e)
    case Got(f, rest) =>
      var (fs, e) := ReadAll(rest);
      ([f] + fs, e)
  }

  /** A stream of accepted frames reads back as exactly those frames, with nothing left over. */
  lemma {:induction false} StreamRoundTrip(fs: seq<Frame>)
    requires forall f <- fs :: Accepted(f) && StringsWellFormed(f)
    ensures ReadAll(StreamOf(fs)) == (fs, UnexpectedEof)
  {
    if fs != [] {
      FrameRoundTrip(fs[0], StreamOf(fs[1..]));
      StreamRoundTrip(fs[1..]);
      assert fs == [fs[0]] + fs[1..];
    }
  }

  /** No encoded frame is a proper prefix of another; equal bytes mean equal frames. */
  lemma FramesArePrefixFree(f: Frame, g: Frame)
    requires Accepted(f) && StringsWellFormed(f) && Accepted(g) && StringsWellFormed(g)
    requires FrameBytes(f) <= FrameBytes(g)
    ensures f == g
  {
    ReadPrefix(f, FrameBytes(g));
    ReadPrefix(g, FrameBytes(g));
  }

  lemma ReadPrefix(f: Frame, stream: seq<byte>)
    requires Accepted(f) && StringsWellFormed(f) && FrameBytes(f) <= stream
    ensures ReadFrame(stream) == Got(f, stream[|FrameBytes(f)|..])
  {
    var b := FrameBytes(f);
    assert stream == b + stream[|b|..];
    FrameRoundTrip(f, stream[|b|..]);
  }
}
