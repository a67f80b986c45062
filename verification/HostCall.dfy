/** Blocking bridge calls: the channel receiver of a session thread and the call context above it. */
module HostCall {
  import opened Frames

  datatype Error =
    | ExecutionTimedOut | ChannelClosed | SessionShutdown
    | DuplicateCallId | WriteFailed | CallIdMismatch | UnexpectedFrame
    | HostError(message: seq<byte>)

  predicate Answers(f: Frame, callId: u64) { f.BridgeResponse? && f.callId == callId }

  function Messages(frames: seq<Frame>): seq<Command> {
    seq(|frames|, i requires 0 <= i < |frames| => Message(frames[i]))
  }

  lemma MessagesCons(f: Frame, frames: seq<Frame>)
    ensures Messages([f] + frames) == [Message(f)] + Messages(frames)
  {
  }

  /** What a blocking receive does to a channel: its result, the frames it sets aside, what it leaves. */
  datatype Scanned = Scanned(result: Result<Frame, Error>, setAside: seq<Frame>, rest: seq<Command>)

  /** The end of the channel stands for its disconnection; abortAfter is the number of commands
      that are received before the abort channel fires, None if it never does. */
  function Scan(channel: seq<Command>, expected: u64, abortAfter: Option<nat>): Scanned {
    if abortAfter == Some(0) then Scanned(Err(ExecutionTimedOut), [], channel)
    else if channel == [] then Scanned(Err(ChannelClosed), [], [])
    else match channel[0]
      case Shutdown => Scanned(Err(SessionShutdown), [], channel[1..])
      case Message(f) =>
        if Answers(f, expected) then Scanned(Ok(f), [], channel[1..])
        else
          var later := Scan(channel[1..], expected, Earlier(abortAfter));
          later.(setAside := [f] + later.setAside)
  }

  function Earlier(n: Option<nat>): Option<nat> {
    if n.Some? && n.value > 0 then Some(n.value - 1) else n
  }

  /** Everything before the end of the wait is set aside in order, nothing set aside answers the
      call, and what ended the wait is exactly the result. */
  lemma {:induction false} ScanSplitsTheChannel(channel: seq<Command>, expected: u64, abortAfter: Option<nat>)
    ensures var s := Scan(channel, expected, abortAfter);
      && (forall f <- s.setAside :: !Answers(f, expected))
      && match s.result
         case Ok(f) => Answers(f, expected) && channel == Messages(s.setAside) + [Message(f)] + s.rest
         case Err(SessionShutdown) => channel == Messages(s.setAside) + [Shutdown] + s.rest
         case Err(ChannelClosed) => channel == Messages(s.setAside) && s.rest == []
         case Err(ExecutionTimedOut) => channel == Messages(s.setAside) + s.rest && abortAfter == Some(|s.setAside|)
         case _ => false
  {
    if abortAfter != Some(0) && channel != [] && channel[0].Message? && !Answers(channel[0].frame, expected) {
      ScanSplitsTheChannel(channel[1..], expected, Earlier(abortAfter));
      var later := Scan(channel[1..], expected, Earlier(abortAfter));
      assert channel == [channel[0]] + channel[1..];
      MessagesCons(channel[0].frame, later.setAside);
    }
  }

  /** Conversely, a response that stands behind unrelated messages only is found, however many there are. */
  lemma {:induction false} ScanFindsTheResponse(before: seq<Frame>, f: Frame, rest: seq<Command>, expected: u64)
    requires Answers(f, expected) && forall g <- before :: !Answers(g, expected)
    ensures Scan(Messages(before) + [Message(f)] + rest, expected, None) == Scanned(Ok(f), before, rest)
  {
    var channel := Messages(before) + [Message(f)] + rest;
    if before != [] {
      ScanFindsTheResponse(before[1..], f, rest, expected);
      assert channel[1..] == Messages(before[1..]) + [Message(f)] + rest;
      assert channel[0] == Message(before[0]) && before[0] in before;
      assert [before[0]] + before[1..] == before;
    } else {
      assert channel[1..] == rest;
    }
  }

  /** The receiving end of a session's command channel and its deferred queue. */
  class ChannelReceiver {
    var channel: seq<Command>
    var deferred: seq<Frame>

    constructor (channel: seq<Command>)
      ensures this.channel == channel && deferred == []
    {
      this.channel, deferred := channel, [];
    }

    method RecvResponse(expected: u64, abortAfter: Option<nat>) returns (r: Result<Frame, Error>)
      modifies this
      ensures var s := Scan(old(channel), expected, abortAfter);
        r == s.result && deferred == old(deferred) + s.setAside && channel == s.rest
    {
      var budget := abortAfter;
      ghost var held: seq<Frame> := [];
      while true
        invariant deferred == old(deferred) + held
        invariant var now, all := Scan(channel, expected, budget), Scan(old(channel), expected, abortAfter);
          now.result == all.result && now.rest == all.rest && held + now.setAside == all.setAside
        decreases |channel|
      {
        if budget == Some(0) { return Err(ExecutionTimedOut); }
        if channel == [] { return Err(ChannelClosed); }
        var command := channel[0];
        ghost var now := Scan(channel, expected, budget);
        channel, budget := channel[1..], Earlier(budget);
        match command {
          case Shutdown => return Err(SessionShutdown);
          case Message(frame) =>
            if Answers(frame, expected) { return Ok(frame); }
            deferred := deferred + [frame];
            held := held + [frame];
            assert now.setAside == [frame] + Scan(channel, expected, budget).setAside;
        }
      }
    }
  }

  class CallIdRouter { var routes: map<u64, Text> constructor () ensures routes == map[] { routes := map[]; } }

  class CallIdCounter { var next: u64 constructor () ensures next == 1 { next := 1; } }

  /** What sync_call makes of a response. */
  function Interpret(f: Frame): Result<Option<seq<byte>>, Error>
    requires f.BridgeResponse?
  {
    if f.status == 1 then Err(HostError(f.payload))
    else if f.payload == [] then Ok(None)
    else Ok(Some(f.payload))
  }

  class BridgeCallContext {
    const sessionId: Text
    const receiver: ChannelReceiver
    const router: CallIdRouter
    const counter: CallIdCounter
    var pendingCalls: set<u64>
    var sent: seq<Frame>  // frames handed to the writer thread

    constructor (sessionId: Text, receiver: ChannelReceiver, router: CallIdRouter, counter: CallIdCounter)
      ensures this.sessionId == sessionId && this.receiver == receiver && this.router == router
      ensures this.counter == counter
      ensures pendingCalls == {} && sent == []
    {
      this.sessionId, this.receiver, this.router, this.counter := sessionId, receiver, router, counter;
      pendingCalls, sent := {}, [];
    }

    /** The whole effect of a sync call. writable says whether the frame encodes and the writer
        thread is still there. The call's result is read off the first command that ends the wait;
        the branches for a foreign id and a foreign frame kind are in the body and never chosen. */
    method SyncCall(bridgeMethod: Text, args: seq<byte>, writable: bool, abortAfter: Option<nat>)
      returns (r: Result<Option<seq<byte>>, Error>)
      modifies this, receiver, router, counter
      ensures pendingCalls == old(pendingCalls)
      ensures counter.next == (old(counter.next) + 1) % 0x1_0000_0000_0000_0000
      ensures old(counter.next) in old(pendingCalls) ==>
        && r == Err(DuplicateCallId) && sent == old(sent) && router.routes == old(router.routes)
        && receiver.channel == old(receiver.channel) && receiver.deferred == old(receiver.deferred)
      ensures old(counter.next) !in old(pendingCalls) ==>
        router.routes == old(router.routes)[old(counter.next) := sessionId]
      ensures old(counter.next) !in old(pendingCalls) && !writable ==>
        && r == Err(WriteFailed) && sent == old(sent)
        && receiver.channel == old(receiver.channel) && receiver.deferred == old(receiver.deferred)
      ensures old(counter.next) !in old(pendingCalls) && writable ==>
        var id := old(counter.next);
        var s := Scan(old(receiver.channel), id, abortAfter);
        && sent == old(sent) + [BridgeCall(sessionId, id, bridgeMethod, args)]
        && receiver.channel == s.rest && receiver.deferred == old(receiver.deferred) + s.setAside
        && (s.result.Ok? ==>
              var f := s.result.value;
              && f.BridgeResponse? && f.callId == id
              && (f.status == 1 ==> r == Err(HostError(f.payload)))
              && (f.status != 1 ==> r == Ok(if f.payload == [] then None else Some(f.payload))))
        && (s.result.Err? ==> r == Err(s.result.error))
      ensures r != Err(CallIdMismatch) && r != Err(UnexpectedFrame)
    {
      var id := counter.next;
      counter.next := (counter.next + 1) % 0x1_0000_0000_0000_0000;
      if id in pendingCalls { return Err(DuplicateCallId); }
      pendingCalls := pendingCalls + {id};
      router.routes := router.routes[id := sessionId];
      if !writable {
        pendingCalls := pendingCalls - {id};
        return Err(WriteFailed);
      }
      sent := sent + [BridgeCall(sessionId, id, bridgeMethod, args)];
      ScanSplitsTheChannel(receiver.channel, id, abortAfter);
      var response := receiver.RecvResponse(id, abortAfter);
      pendingCalls := pendingCalls - {id};
      if response.Err? { return Err(response.error); }
      var frame := response.value;
      r := if !frame.BridgeResponse? then Err(UnexpectedFrame)
           else if frame.callId != id then Err(CallIdMismatch)
           else Interpret(frame);
    }

    /** The id an async call returns is routed to this session before the frame is sent. */
    method AsyncSend(bridgeMethod: Text, args: seq<byte>, writable: bool) returns (r: Result<u64, Error>)
      modifies this`sent, router, counter
      ensures counter.next == (old(counter.next) + 1) % 0x1_0000_0000_0000_0000
      ensures router.routes == old(router.routes)[old(counter.next) := sessionId]
      ensures r == if writable then Ok(old(counter.next)) else Err(WriteFailed)
      ensures sent == old(sent) +
        if writable then [BridgeCall(sessionId, old(counter.next), bridgeMethod, args)] else []
    {
      var id := counter.next;
      counter.next := (counter.next + 1) % 0x1_0000_0000_0000_0000;
      router.routes := router.routes[id := sessionId];
      if !writable { return Err(WriteFailed); }
      sent := sent + [BridgeCall(sessionId, id, bridgeMethod, args)];
      r := Ok(id);
    }
  }
}
