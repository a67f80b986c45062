/** The wire format written out byte by byte, kind by kind, and the proof that the codec lays frames out so. */
module FrameLayout {
  import opened Frames
  import opened FrameCodec

  // ---- Big-endian numbers, byte by byte ----

  function U16(x: nat): seq<byte> { [x / 0x100 % 0x100, x % 0x100] }

  function U32(x: nat): seq<byte> {
    [x / 0x100_0000 % 0x100, x / 0x1_0000 % 0x100, x / 0x100 % 0x100, x % 0x100]
  }

  function U64(x: nat): seq<byte> { U32(x / 0x1_0000_0000) + U32(x) }

  lemma Be16(x: nat)
    ensures Be(x, 2) == U16(x)
  {
    assert Be(x, 2) == Be(x / 256, 1) + [x % 256];
    assert Be(x / 256, 1) == Be(x / 256 / 256, 0) + [x / 256 % 256];
  }

  lemma Be32(x: nat)
    ensures Be(x, 4) == U32(x)
  {
    Be16(x / 0x1_0000);
    assert Be(x, 4) == Be(x / 256, 3) + [x % 256];
    assert Be(x / 256, 3) == Be(x / 256 / 256, 2) + [x / 256 % 256];
    assert x / 256 / 256 == x / 0x1_0000 && x / 0x1_0000 / 0x100 == x / 0x100_0000;
  }

  lemma Be64(x: nat)
    ensures Be(x, 8) == U64(x)
  {
    Be32(x);
    Be32(x / 0x1_0000_0000);
    BeTail(x, 8);
    BeTail(x / 0x100, 7);
    BeTail(x / 0x1_0000, 6);
    BeTail(x / 0x100_0000, 5);
    assert x / 0x100 / 256 == x / 0x1_0000 && x / 0x1_0000 / 256 == x / 0x100_0000;
    assert x / 0x100_0000 / 256 == x / 0x1_0000_0000;
  }

  lemma BeTail(x: nat, n: nat)
    requires n > 0
    ensures Be(x, n) == Be(x / 256, n - 1) + [x % 256]
  {
  }

  lemma U16Wraps(x: nat)
    ensures U16(x % 0x1_0000) == U16(x)
  {
    var q, y := x / 0x1_0000, x % 0x1_0000;
    assert x == q * 0x1_0000 + y;
    assert (q * 0x1_0000 + y) / 0x100 == q * 0x100 + y / 0x100;
  }

  /** Four bytes hold what is left of a number modulo 2^32. */
  lemma U32Wraps(x: nat)
    ensures U32(x % 0x1_0000_0000) == U32(x)
  {
    var q, y := x / 0x1_0000_0000, x % 0x1_0000_0000;
    WrapByte(q, y, 0x100, 0x100_0000);
    WrapByte(q, y, 0x1_0000, 0x1_0000);
    WrapByte(q, y, 0x100_0000, 0x100);
    WrapByte(q, y, 0x1_0000_0000, 1);
    assert x == q * 0x1_0000_0000 + y;
  }

  lemma WrapByte(q: nat, y: nat, m: nat, d: nat)
    requires (m == 0x100 && d == 0x100_0000) || (m == 0x1_0000 && d == 0x1_0000) || (m == 0x100_0000 && d == 0x100)
          || (m == 0x1_0000_0000 && d == 1)
    ensures (q * 0x1_0000_0000 + y) / d % 0x100 == y / d % 0x100
  {
    assert (q * 0x1_0000_0000 + y) / d == q * m + y / d;
  }

  // ---- The thirteen kinds ----

  function Text8(t: Text): seq<byte> { [|t| % 0x100] + t }
  function Text16(t: Text): seq<byte> { U16(|t|) + t }
  function Blob32(t: seq<byte>): seq<byte> { U32(|t|) + t }

  /** The lowest bit tells of exports, the next of an error. */
  function FlagByte(exports: bool, error: bool): byte {
    match (exports, error)
    case (false, false) => 0x00
    case (true, false) => 0x01
    case (false, true) => 0x02
    case (true, true) => 0x03
  }

  function ErrorBytes(e: ExecutionError): seq<byte> {
    Text16(e.errorType) + Text16(e.message) + Text16(e.stack) + Text16(e.code)
  }

  /** What is behind the length of a frame. */
  function Layout(f: Frame): seq<byte> {
    match f
    case Authenticate(token) => [0x01, 0x00] + token
    case CreateSession(sid, heap, cpu) => [0x02] + Text8(sid) + U32(heap) + U32(cpu)
    case DestroySession(sid) => [0x03] + Text8(sid)
    case InjectGlobals(sid, payload) => [0x04] + Text8(sid) + payload
    case Execute(sid, mode, filePath, bridgeCode, script, userCode) =>
      [0x05] + Text8(sid) + [mode] + Text16(filePath) + Blob32(bridgeCode) + Blob32(script) + userCode
    case BridgeResponse(sid, callId, status, payload) => [0x06] + Text8(sid) + U64(callId) + [status] + payload
    case StreamEvent(sid, eventType, payload) => [0x07] + Text8(sid) + Text16(eventType) + payload
    case TerminateExecution(sid) => [0x08] + Text8(sid)
    case WarmSnapshot(bridgeCode) => [0x09, 0x00] + Blob32(bridgeCode)
    case BridgeCall(sid, callId, bridgeMethod, payload) =>
      [0x81] + Text8(sid) + U64(callId) + Text16(bridgeMethod) + payload
    case ExecutionResult(sid, exitCode, exports, error) =>
      [0x82] + Text8(sid) + U32(exitCode % 0x1_0000_0000)
      + [FlagByte(exports.Some?, error.Some?)]
      + (match exports case None => [] case Some(e) => Blob32(e))
      + (match error case None => [] case Some(e) => ErrorBytes(e))
    case Log(sid, channel, message) => [0x83] + Text8(sid) + [channel] + message
    case StreamCallback(sid, callbackType, payload) => [0x84] + Text8(sid) + Text16(callbackType) + payload
  }

  lemma Short8(t: Text, rest: seq<byte>)
    ensures Str8(t, rest) == Text8(t) + rest
  {
    assert Be(|t| % 0x100, 1) == Be(|t| % 0x100 / 256, 0) + [|t| % 0x100 % 256];
  }

  lemma Short16(t: Text, rest: seq<byte>)
    ensures Str16(t, rest) == Text16(t) + rest
  {
    Be16(|t| % 0x1_0000);
    U16Wraps(|t|);
  }

  lemma Long32(t: seq<byte>, rest: seq<byte>)
    ensures Str32(t, rest) == Blob32(t) + rest
  {
    Be32(|t| % 0x1_0000_0000);
    U32Wraps(|t|);
  }

  lemma OneByte(x: byte)
    ensures Be(x, 1) == [x]
  {
    assert Be(x, 1) == Be(x / 256, 0) + [x % 256];
  }

  /** What the fields of a frame behind its session id are. */
  function Rest(f: Frame): seq<byte> { Fields(f, if f.ExecutionResult? then Flags(f) else 0, []) }

  lemma BareFields(f: Frame)
    requires f.Authenticate? || f.DestroySession? || f.InjectGlobals? || f.TerminateExecution?
    ensures Layout(f) == [Kind(f)] + (Text8(SessionOf(f)) + Rest(f))
  {
    if f.Authenticate? { assert Text8([]) == [0x00]; }
  }

  lemma EventFields(f: Frame)
    requires f.StreamEvent? || f.WarmSnapshot?
    ensures Layout(f) == [Kind(f)] + (Text8(SessionOf(f)) + Rest(f))
  {
    match f
    case StreamEvent(_, eventType, payload) => Short16(eventType, payload + []);
    case WarmSnapshot(bridgeCode) =>
      assert Text8([]) == [0x00];
      Long32(bridgeCode, []);
  }

  lemma NumberFields(f: Frame)
    requires f.BridgeResponse? || f.CreateSession?
    ensures Layout(f) == [Kind(f)] + (Text8(SessionOf(f)) + Rest(f))
  {
    match f
    case CreateSession(_, heap, cpu) => Be32(heap); Be32(cpu);
    case BridgeResponse(_, callId, status, _) => Be64(callId); OneByte(status);
  }

  lemma SessionFields(f: Frame)
    requires Kind(f) >= 0x81 && !f.ExecutionResult?
    ensures Layout(f) == [Kind(f)] + (Text8(SessionOf(f)) + Rest(f))
  {
    match f
    case BridgeCall(_, callId, bridgeMethod, payload) => Be64(callId); Short16(bridgeMethod, payload + []);
    case Log(_, channel, _) => OneByte(channel);
    case StreamCallback(_, callbackType, payload) => Short16(callbackType, payload + []);
  }

  lemma ExecuteFields(f: Frame)
    requires f.Execute?
    ensures Layout(f) == [Kind(f)] + (Text8(SessionOf(f)) + Rest(f))
  {
    var s1 := f.userCode + [];
    var s2 := Str32(f.postRestoreScript, s1);
    var s3 := Str32(f.bridgeCode, s2);
    OneByte(f.mode);
    Long32(f.postRestoreScript, s1);
    Long32(f.bridgeCode, s2);
    Short16(f.filePath, s3);
  }

  lemma ResultFields(f: Frame)
    requires f.ExecutionResult?
    ensures Layout(f) == [Kind(f)] + (Text8(SessionOf(f)) + Rest(f))
  {
    var errors := ErrorPart(f.error, []);
    var exported := ExportsPart(f.exports, errors);
    if f.error.Some? { ErrorFields(f.error.value); }
    if f.exports.Some? { Long32(f.exports.value, errors); }
    ResultHead(f, exported);
  }

  lemma ResultHead(f: Frame, exported: seq<byte>)
    requires f.ExecutionResult?
    ensures Be(Unsigned(f.exitCode), 4) + (Be(Flags(f), 1) + exported)
         == U32(f.exitCode % 0x1_0000_0000) + [FlagByte(f.exports.Some?, f.error.Some?)] + exported
  {
    Be32(Unsigned(f.exitCode));
    OneByte(Flags(f));
    assert f.exitCode % 0x1_0000_0000 == Unsigned(f.exitCode);
  }

  lemma ErrorFields(e: ExecutionError)
    ensures ErrorPart(Some(e), []) == ErrorBytes(e)
  {
    var s1 := Str16(e.code, []);
    var s2 := Str16(e.stack, s1);
    var s3 := Str16(e.message, s2);
    Short16(e.code, []);
    Short16(e.stack, s1);
    Short16(e.message, s2);
    Short16(e.errorType, s3);
  }

  lemma BodyIsLaidOut(f: Frame)
    ensures Body(f) == Layout(f)
  {
    Short8(SessionOf(f), Rest(f));
    if f.Execute? { ExecuteFields(f); }
    else if f.ExecutionResult? { ResultFields(f); }
    else if f.BridgeResponse? || f.CreateSession? { NumberFields(f); }
    else if f.StreamEvent? || f.WarmSnapshot? { EventFields(f); }
    else if Kind(f) >= 0x81 { SessionFields(f); }
    else { BareFields(f); }
  }

  /** Every frame goes over the wire in this layout, its length in front. */
  lemma FramesAreLaidOut(f: Frame)
    ensures FrameBytes(f) == U32(|Layout(f)|) + Layout(f)
  {
    BodyIsLaidOut(f);
    U32Wraps(|Layout(f)|);
    Be32(|Layout(f)| % 0x1_0000_0000);
  }
}
