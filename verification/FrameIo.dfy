/** The codec as it runs: an encoder that appends to a reusable buffer and a decoder that advances a
    position, proved against the wire format. */
module FrameIo {
  import opened Frames
  import opened FrameCodec
  import Utf8
  import opened TextOps

  // ---- Encoding ----

  datatype Outcome = Written | Failed(error: Error) {
    predicate IsFailure() { Failed? }
    function PropagateFailure(): Outcome { this }
  }

  /** What encoding f comes to. */
  function Verdict(f: Frame): Outcome {
    if !WithinLimits(f) then Failed(InvalidInput)
    else if |Body(f)| > MAX_FRAME_SIZE then Failed(InvalidData)
    else Written
  }

  class FrameBuffer {
    var bytes: seq<byte>

    constructor ()
      ensures bytes == []
    {
      bytes := [];
    }

    method Append(b: seq<byte>)
      modifies this
      ensures bytes == old(bytes) + b
    {
      bytes := bytes + b;
    }

    method WriteSessionId(sid: Text) returns (r: Outcome)
      modifies this
      ensures old(bytes) <= bytes
      ensures r == if |sid| <= 255 then Written else Failed(InvalidInput)
      ensures r.Written? ==> bytes == old(bytes) + Str8(sid, [])
    {
      if |sid| > 255 {
        return Failed(InvalidInput);
      }
      Append([|sid|]);
      Append(sid);
      assert Str8(sid, []) == [|sid|] + sid;
      return Written;
    }

    method WriteStr16(t: Text) returns (r: Outcome)
      modifies this
      ensures old(bytes) <= bytes
      ensures r == if |t| <= 0xFFFF then Written else Failed(InvalidInput)
      ensures r.Written? ==> bytes == old(bytes) + Str16(t, [])
    {
      if |t| > 0xFFFF {
        return Failed(InvalidInput);
      }
      NotCut(|t|, 0x1_0000);
      Append(Be(|t|, 2));
      Append(t);
      Assoc(old(bytes), Be(|t|, 2), t);
      assert t + [] == t;
      return Written;
    }

    /** A 32-bit length, cut to its width, then the bytes. */
    method WriteBlob32(b: seq<byte>)
      modifies this
      ensures bytes == old(bytes) + Str32(b, [])
    {
      Append(Be(|b| % 0x1_0000_0000, 4));
      Append(b);
      Assoc(old(bytes), Be(|b| % 0x1_0000_0000, 4), b);
      assert b + [] == b;
    }

    method WriteExecute(f: Frame) returns (r: Outcome)
      requires f.Execute?
      modifies this
      ensures old(bytes) <= bytes
      ensures r == if |f.filePath| <= 0xFFFF then Written else Failed(InvalidInput)
      ensures r.Written? ==> bytes == old(bytes) + Fields(f, 0, [])
    {
      ghost var b0 := bytes;
      Append([f.mode]);
      :- WriteStr16(f.filePath);
      WriteBlob32(f.bridgeCode);
      WriteBlob32(f.postRestoreScript);
      Append(f.userCode);
      ExecuteLaidOut(b0, f);
      return Written;
    }

    method WriteError(e: ExecutionError) returns (r: Outcome)
      modifies this
      ensures old(bytes) <= bytes
      ensures r == if |e.errorType| <= 0xFFFF && |e.message| <= 0xFFFF && |e.stack| <= 0xFFFF && |e.code| <= 0xFFFF
                   then Written else Failed(InvalidInput)
      ensures r.Written? ==> bytes == old(bytes) + ErrorPart(Some(e), [])
    {
      ghost var b0 := bytes;
      :- WriteStr16(e.errorType);
      :- WriteStr16(e.message);
      :- WriteStr16(e.stack);
      :- WriteStr16(e.code);
      ErrorLaidOut(b0, e);
      return Written;
    }

    method WriteExecutionResult(f: Frame) returns (r: Outcome)
      requires f.ExecutionResult?
      modifies this
      ensures old(bytes) <= bytes
      ensures r == if forall t <- Short(f) :: |t| <= 0xFFFF then Written else Failed(InvalidInput)
      ensures r.Written? ==> bytes == old(bytes) + Fields(f, Flags(f), [])
    {
      ghost var b0 := bytes;
      Append(Be(Unsigned(f.exitCode), 4));
      var flags := 0;
      if f.exports.Some? {
        flags := flags + 1;
      }
      if f.error.Some? {
        flags := flags + 2;
      }
      Append([flags]);
      if f.exports.Some? {
        WriteBlob32(f.exports.value);
      }
      ghost var b1 := bytes;
      if f.error.Some? {
        ErrorTextsShort(f);
        :- WriteError(f.error.value);
      }
      ResultLaidOut(b0, b1, f);
      return Written;
    }

    method WriteBridgeResponse(f: Frame)
      requires f.BridgeResponse?
      modifies this
      ensures bytes == old(bytes) + Fields(f, 0, [])
    {
      Append(Be(f.callId, 8));
      Append([f.status]);
      Append(f.payload);
      Assoc(old(bytes) + Be(f.callId, 8), [f.status], f.payload);
      Assoc(old(bytes), Be(f.callId, 8), [f.status] + f.payload);
      assert f.payload + [] == f.payload && Be(f.status, 1) == [f.status];
    }

    method WriteTagged(tag: Text, payload: seq<byte>) returns (r: Outcome)
      modifies this
      ensures old(bytes) <= bytes
      ensures r == if |tag| <= 0xFFFF then Written else Failed(InvalidInput)
      ensures r.Written? ==> bytes == old(bytes) + Str16(tag, payload + [])
    {
      ghost var b0 := bytes;
      :- WriteStr16(tag);
      Append(payload);
      Str16Nested(b0, tag, payload);
      assert payload + [] == payload;
      return Written;
    }

    method WriteBridgeCall(f: Frame) returns (r: Outcome)
      requires f.BridgeCall?
      modifies this
      ensures old(bytes) <= bytes
      ensures r == if |f.bridgeMethod| <= 0xFFFF then Written else Failed(InvalidInput)
      ensures r.Written? ==> bytes == old(bytes) + Fields(f, 0, [])
    {
      ghost var b0 := bytes;
      Append(Be(f.callId, 8));
      :- WriteTagged(f.bridgeMethod, f.payload);
      Assoc(b0, Be(f.callId, 8), Str16(f.bridgeMethod, f.payload + []));
      return Written;
    }

    /** What follows the session id. */
    method WriteFields(f: Frame) returns (r: Outcome)
      modifies this
      ensures old(bytes) <= bytes
      ensures r == if forall t <- Short(f) :: |t| <= 0xFFFF then Written else Failed(InvalidInput)
      ensures r.Written? ==> bytes == old(bytes) + Fields(f, if f.ExecutionResult? then Flags(f) else 0, [])
    {
      ghost var b0 := bytes;
      match f {
        case Authenticate(token) =>
          Append(token);
          assert token + [] == token;
        case CreateSession(_, heap, cpu) =>
          Append(Be(heap, 4));
          Append(Be(cpu, 4));
          Assoc(b0, Be(heap, 4), Be(cpu, 4));
          assert Be(cpu, 4) + [] == Be(cpu, 4);
        case DestroySession(_) =>
          assert b0 + [] == b0;
        case InjectGlobals(_, payload) =>
          Append(payload);
          assert payload + [] == payload;
        case Execute(_, _, filePath, _, _, _) =>
          assert Short(f) == [filePath];
          :- WriteExecute(f);
        case BridgeResponse(_, _, _, _) =>
          WriteBridgeResponse(f);
        case StreamEvent(_, eventType, payload) =>
          assert Short(f) == [eventType];
          :- WriteTagged(eventType, payload);
        case TerminateExecution(_) =>
          assert b0 + [] == b0;
        case WarmSnapshot(bridgeCode) =>
          WriteBlob32(bridgeCode);
        case BridgeCall(_, _, bridgeMethod, _) =>
          assert Short(f) == [bridgeMethod];
          :- WriteBridgeCall(f);
        case ExecutionResult(_, _, _, _) =>
          :- WriteExecutionResult(f);
        case Log(_, channel, message) =>
          Append([channel]);
          Append(message);
          Assoc(b0, [channel], message);
          assert message + [] == message && Be(channel, 1) == [channel];
        case StreamCallback(_, callbackType, payload) =>
          assert Short(f) == [callbackType];
          :- WriteTagged(callbackType, payload);
      }
      return Written;
    }

    method EncodeBody(f: Frame) returns (r: Outcome)
      modifies this
      ensures old(bytes) <= bytes
      ensures r == if WithinLimits(f) then Written else Failed(InvalidInput)
      ensures r.Written? ==> bytes == old(bytes) + Body(f)
    {
      ghost var b0 := bytes;
      Append([Kind(f)]);
      :- WriteSessionId(SessionOf(f));
      ghost var b1 := bytes;
      :- WriteFields(f);
      BodyLaidOut(b0, f);
      return Written;
    }

    /** The buffer is reused: what it held before does not matter. A frame that is refused leaves a
        length prefix of zero. */
    method EncodeFrameInto(f: Frame) returns (r: Outcome)
      modifies this
      ensures r == Verdict(f) && |bytes| >= 4
      ensures bytes[..4] == if r.Written? then Be(|Body(f)|, 4) else [0, 0, 0, 0]
      ensures r != Failed(InvalidInput) ==> bytes[4..] == Body(f)
      ensures r.Written? ==> bytes == FrameBytes(f)
    {
      bytes := [];
      Append([0, 0, 0, 0]);
      :- EncodeBody(f);
      ghost var body := Body(f);
      assert bytes[4..] == body;
      if |bytes| - 4 > MAX_FRAME_SIZE {
        return Failed(InvalidData);
      }
      NotCut(|body|, 0x1_0000_0000);
      bytes := Be((|bytes| - 4) % 0x1_0000_0000, 4) + bytes[4..];
      return Written;
    }
  }

  lemma ErrorTextsShort(f: Frame)
    requires f.ExecutionResult? && f.error.Some?
    ensures var e := f.error.value;
      (forall t <- Short(f) :: |t| <= 0xFFFF) <==>
      |e.errorType| <= 0xFFFF && |e.message| <= 0xFFFF && |e.stack| <= 0xFFFF && |e.code| <= 0xFFFF
  {
    var ts := Short(f);
    assert ts[0] in ts && ts[1] in ts && ts[2] in ts && ts[3] in ts;
  }

  // Appending piece by piece gives the nested layout.

  lemma Str16Nested(b: seq<byte>, t: Text, rest: seq<byte>)
    ensures (b + Str16(t, [])) + rest == b + Str16(t, rest)
  {
    var n := Be(|t| % 0x1_0000, 2);
    assert n + (t + []) == n + t;
    Assoc(n, t, rest);
    Assoc(b, n + t, rest);
  }

  lemma Str32Nested(b: seq<byte>, t: Text, rest: seq<byte>)
    ensures (b + Str32(t, [])) + rest == b + Str32(t, rest)
  {
    var n := Be(|t| % 0x1_0000_0000, 4);
    assert n + (t + []) == n + t;
    Assoc(n, t, rest);
    Assoc(b, n + t, rest);
  }

  lemma ExecuteLaidOut(b: seq<byte>, f: Frame)
    requires f.Execute?
    ensures b + [f.mode] + Str16(f.filePath, []) + Str32(f.bridgeCode, []) + Str32(f.postRestoreScript, []) + f.userCode
         == b + Fields(f, 0, [])
  {
    var b1 := b + [f.mode];
    var b2 := b1 + Str16(f.filePath, []);
    var s3 := Str32(f.postRestoreScript, f.userCode);
    var s2 := Str32(f.bridgeCode, s3);
    Str32Nested(b2 + Str32(f.bridgeCode, []), f.postRestoreScript, f.userCode);
    Str32Nested(b2, f.bridgeCode, s3);
    Str16Nested(b1, f.filePath, s2);
    Assoc(b, [f.mode], Str16(f.filePath, s2));
    assert f.userCode + [] == f.userCode && Be(f.mode, 1) == [f.mode];
  }

  lemma ErrorLaidOut(b: seq<byte>, e: ExecutionError)
    ensures b + Str16(e.errorType, []) + Str16(e.message, []) + Str16(e.stack, []) + Str16(e.code, [])
         == b + ErrorPart(Some(e), [])
  {
    var b1 := b + Str16(e.errorType, []);
    var b2 := b1 + Str16(e.message, []);
    var s3 := Str16(e.code, []);
    var s2 := Str16(e.stack, s3);
    Str16Nested(b2, e.stack, s3);
    Str16Nested(b1, e.message, s2);
    Str16Nested(b, e.errorType, Str16(e.message, s2));
  }

  lemma ResultLaidOut(b0: seq<byte>, b1: seq<byte>, f: Frame)
    requires f.ExecutionResult?
    requires b1 ==
      b0 + Be(Unsigned(f.exitCode), 4) + [Flags(f)] + if f.exports.Some? then Str32(f.exports.value, []) else []
    ensures b1 + ErrorPart(f.error, []) == b0 + Fields(f, Flags(f), [])
  {
    var code := Be(Unsigned(f.exitCode), 4);
    var error := ErrorPart(f.error, []);
    var b := b0 + code + [Flags(f)];
    var s := ExportsPart(f.exports, error);
    assert b1 + error == b + s by {
      if f.exports.Some? {
        Str32Nested(b, f.exports.value, error);
      }
    }
    Assoc(b0 + code, [Flags(f)], s);
    Assoc(b0, code, [Flags(f)] + s);
    assert Be(Flags(f), 1) == [Flags(f)];
  }

  lemma BodyLaidOut(b: seq<byte>, f: Frame)
    ensures var fields := Fields(f, if f.ExecutionResult? then Flags(f) else 0, []);
      b + [Kind(f)] + Str8(SessionOf(f), []) + fields == b + Body(f)
  {
    HeaderNested(b, Kind(f), SessionOf(f), Fields(f, if f.ExecutionResult? then Flags(f) else 0, []));
  }

  lemma HeaderNested(b: seq<byte>, kind: byte, sid: Text, rest: seq<byte>)
    ensures b + [kind] + Str8(sid, []) + rest == b + ([kind] + Str8(sid, rest))
  {
    var n := Be(|sid| % 0x100, 1);
    assert n + (sid + []) == n + sid;
    Assoc(n, sid, rest);
    Assoc(b + [kind], n + sid, rest);
    Assoc(b, [kind], Str8(sid, rest));
  }

  // ---- Decoding ----

  /** A result together with what is left of the buffer. */
  function With<T>(r: Result<T, Error>, rest: seq<byte>): Parsed<T> {
    match r case Ok(v) => Got(v, rest) case Err(e) => Bad(e)
  }

  function ResultOf<T>(p: Parsed<T>): Result<T, Error> { match p case Got(v, _) => Ok(v) case Bad(e) => Err(e) }

  /** A buffer and the position up to which it has been read. */
  class Reader {
    const buf: seq<byte>
    var pos: nat

    ghost predicate Valid()
      reads this
    {
      pos <= |buf|
    }

    function Rest(): seq<byte>
      requires Valid()
      reads this
    {
      buf[pos..]
    }

    constructor (buf: seq<byte>, pos: nat)
      requires pos <= |buf|
      ensures Valid() && this.buf == buf && this.pos == pos
    {
      this.buf := buf;
      this.pos := pos;
    }

    method ReadBytes(n: nat) returns (r: Result<seq<byte>, Error>)
      requires Valid()
      modifies this
      ensures Valid() && With(r, Rest()) == TakeBytes(old(Rest()), n)
    {
      if pos + n > |buf| {
        return Err(UnexpectedEof);
      }
      r := Ok(buf[pos..pos + n]);
      pos := pos + n;
      assert old(Rest())[..n] == r.value && old(Rest())[n..] == Rest();
    }

    /** A big-endian number of n bytes. */
    method ReadNumber(n: nat) returns (r: Result<nat, Error>)
      requires Valid()
      modifies this
      ensures Valid() && With(r, Rest()) == TakeNumber(old(Rest()), n)
    {
      var b :- ReadBytes(n);
      return Ok(UnBe(b));
    }

    method ReadText(n: nat) returns (r: Result<Text, Error>)
      requires Valid()
      modifies this
      ensures Valid() && With(r, Rest()) == TakeText(old(Rest()), n)
    {
      var b :- ReadBytes(n);
      return if Utf8.WellFormed(b) then Ok(b) else Err(InvalidData);
    }

    method ReadRemainingText() returns (r: Result<Text, Error>)
      requires Valid()
      modifies this
      ensures Valid() && With(r, Rest()) == TakeText(old(Rest()), |old(Rest())|)
    {
      var remaining := |buf| - pos;
      r := ReadText(remaining);
    }

    method ReadStr16() returns (r: Result<Text, Error>)
      requires Valid()
      modifies this
      ensures Valid() && With(r, Rest()) == TakeStr16(old(Rest()))
    {
      var n :- ReadNumber(2);
      r := ReadText(n);
    }

    method ReadStr32() returns (r: Result<Text, Error>)
      requires Valid()
      modifies this
      ensures Valid() && With(r, Rest()) == TakeStr32(old(Rest()))
    {
      var n :- ReadNumber(4);
      r := ReadText(n);
    }

    method ReadExecute(sid: Text) returns (r: Result<Frame, Error>)
      requires Valid()
      modifies this
      ensures Valid() && With(r, Rest()) == TakeExecute(sid, old(Rest()))
    {
      var mode :- ReadNumber(1);
      var filePath :- ReadStr16();
      var bridgeCode :- ReadStr32();
      var script :- ReadStr32();
      var userCode :- ReadRemainingText();
      return Ok(Execute(sid, mode, filePath, bridgeCode, script, userCode));
    }

    method ReadExports(flags: nat) returns (r: Result<Option<seq<byte>>, Error>)
      requires Valid()
      modifies this
      ensures Valid() && With(r, Rest()) == TakeExports(flags, old(Rest()))
    {
      if flags % 2 == 0 {
        return Ok(None);
      }
      var n :- ReadNumber(4);
      var data :- ReadBytes(n);
      return Ok(Some(data));
    }

    method ReadError(flags: nat) returns (r: Result<Option<ExecutionError>, Error>)
      requires Valid()
      modifies this
      ensures Valid() && With(r, Rest()) == TakeError(flags, old(Rest()))
    {
      if flags / 2 % 2 == 0 {
        return Ok(None);
      }
      var errorType :- ReadStr16();
      var message :- ReadStr16();
      var stack :- ReadStr16();
      var code :- ReadStr16();
      return Ok(Some(ExecutionError(errorType, message, stack, code)));
    }

    method ReadExecutionResult(sid: Text) returns (r: Result<Frame, Error>)
      requires Valid()
      modifies this
      ensures Valid() && With(r, Rest()) == TakeExecutionResult(sid, old(Rest()))
    {
      var bits :- ReadNumber(4);
      var flags :- ReadNumber(1);
      var exports :- ReadExports(flags);
      var error :- ReadError(flags);
      Widths();
      return Ok(ExecutionResult(sid, Signed(bits), exports, error));
    }

    method ReadFields(kind: byte, sid: Text) returns (r: Result<Frame, Error>)
      requires Valid()
      modifies this
      ensures Valid() && r == ResultOf(TakeFields(kind, sid, old(Rest())))
    {
      Widths();
      match kind {
        case 0x01 =>
          var token :- ReadRemainingText();
          return Ok(Authenticate(token));
        case 0x02 =>
          var heap :- ReadNumber(4);
          var cpu :- ReadNumber(4);
          return Ok(CreateSession(sid, heap, cpu));
        case 0x03 =>
          return Ok(DestroySession(sid));
        case 0x04 =>
          return Ok(InjectGlobals(sid, Rest()));
        case 0x05 =>
          r := ReadExecute(sid);
        case 0x06 =>
          var callId :- ReadNumber(8);
          var status :- ReadNumber(1);
          return Ok(BridgeResponse(sid, callId, status, Rest()));
        case 0x07 =>
          var eventType :- ReadStr16();
          return Ok(StreamEvent(sid, eventType, Rest()));
        case 0x08 =>
          return Ok(TerminateExecution(sid));
        case 0x09 =>
          var bridgeCode :- ReadStr32();
          return Ok(WarmSnapshot(bridgeCode));
        case 0x81 =>
          var callId :- ReadNumber(8);
          var bridgeMethod :- ReadStr16();
          return Ok(BridgeCall(sid, callId, bridgeMethod, Rest()));
        case 0x82 =>
          r := ReadExecutionResult(sid);
        case 0x83 =>
          var channel :- ReadNumber(1);
          var message :- ReadRemainingText();
          return Ok(Log(sid, channel, message));
        case 0x84 =>
          var callbackType :- ReadStr16();
          return Ok(StreamCallback(sid, callbackType, Rest()));
        case _ =>
          return Err(InvalidData);
      }
    }
  }

  /** The decoder never reads outside the buffer and returns what the wire format says. */
  method DecodeBuffer(buf: seq<byte>) returns (r: Result<Frame, Error>)
    ensures r == ResultOf(DecodeBody(buf))
  {
    if |buf| == 0 {
      return Err(InvalidData);
    }
    var reader := new Reader(buf, 1);
    var n :- reader.ReadNumber(1);
    var sid :- reader.ReadText(n);
    r := reader.ReadFields(buf[0], sid);
  }

  /** A byte stream with its reading position, one frame read at a time. */
  method ReadFrameFrom(stream: Reader) returns (r: Result<Frame, Error>)
    requires stream.Valid()
    modifies stream
    ensures stream.Valid() && r == ResultOf(ReadFrame(old(stream.Rest())))
    ensures r.Ok? ==> stream.Rest() == ReadFrame(old(stream.Rest())).rest
  {
    var n :- stream.ReadNumber(4);
    if n > MAX_FRAME_SIZE {
      return Err(InvalidData);
    }
    var body :- stream.ReadBytes(n);
    r := DecodeBuffer(body);
  }

  /** Encode, then read: the frame comes back and the stream is at its end. */
  method EncodeThenRead(f: Frame, buffer: FrameBuffer) returns (r: Result<Frame, Error>)
    requires StringsWellFormed(f)
    modifies buffer
    ensures r.Ok? <==> Accepted(f)
    ensures r.Ok? ==> r.value == f
  {
    var sent := buffer.EncodeFrameInto(f);
    if sent.Failed? {
      return Err(sent.error);
    }
    FrameRoundTrip(f, []);
    assert FrameBytes(f) + [] == FrameBytes(f);
    var stream := new Reader(buffer.bytes, 0);
    assert stream.Rest() == FrameBytes(f);
    r := ReadFrameFrom(stream);
  }
}
