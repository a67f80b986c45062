/**
 The bridge-call protocol as a state machine. Session threads draw call ids from one shared
 64-bit counter, register them in the router and wait; the connection handler routes host
 responses by call id; threads match, defer or dispatch what arrives. Every shared-memory access
 is a step of its own, so a run is an arbitrary interleaving. The host is unconstrained: it may
 repeat, reorder, withhold or invent responses.

 A call is named by its ordinal, its position in the order in which ids were drawn; the id it
 carries on the wire is what the counter, which starts at 1 and wraps around at 2^64, gives then.
 */
module BridgeProtocol {
  import opened Frames
  import HostCall

  const ID_SPACE: nat := 0x1_0000_0000_0000_0000

  type SessionId = Text

  /** fetch_add wraps around. */
  function NextId(id: u64): u64 { if id == ID_SPACE - 1 then 0 else id + 1 }

  /** The id of a draw; the counter starts at 1. */
  function IdOf(ordinal: nat): u64 { if ordinal == 0 then 1 else NextId(IdOf(ordinal - 1)) }

  /** The only ordinal below ID_SPACE that carries the given id. */
  function OrdinalOf(id: u64): nat { if id == 0 then ID_SPACE - 1 else id - 1 }

  /** Where a session thread stands; Free means running JavaScript or the loop around it. */
  datatype Pc =
    | Free
    | SyncIssued(ordinal: nat) | SyncRouted(ordinal: nat) | Blocked(ordinal: nat)
    | AsyncIssued(ordinal: nat) | AsyncRouted(ordinal: nat) | AsyncSent(ordinal: nat)
  {
    predicate Issued() { SyncIssued? || AsyncIssued? }
    predicate Sync() { SyncIssued? || SyncRouted? || Blocked? }
  }

  /** One run of session_thread. A session id destroyed and created again names a new Thread. */
  datatype Thread = Thread(
    sid: SessionId, connection: nat, pc: Pc,
    channel: seq<Command>, deferred: seq<Frame>, drained: seq<Frame>,
    pendingCalls: set<u64>, promises: map<u64, nat>)

  datatype Call = Call(thread: nat, sid: SessionId)

  /** A command that was put into a thread's channel, and the connection it came from. */
  datatype Delivery = Delivery(thread: nat, connection: nat, command: Command)
  datatype Settlement =
    | ByResponse(ordinal: nat, thread: nat, frame: Frame)
    | ByFailure(ordinal: nat, thread: nat)

  /** calls, deliveries and settlements are histories: nothing in the protocol reads them. */
  datatype State = State(
    router: map<u64, SessionId>, registry: map<SessionId, nat>, threads: seq<Thread>,
    calls: seq<Call>, deliveries: seq<Delivery>, settlements: seq<Settlement>)

  datatype Action =
    | CreateSession(sid: SessionId, connection: nat)
    | DestroySession(sid: SessionId, connection: nat)
    | HostResponse(connection: nat, frame: Frame)
    | HostMessage(connection: nat, sid: SessionId, frame: Frame)
    | BeginSync(thread: nat)
    | BeginAsync(thread: nat)
    | Route(thread: nat)
    | Send(thread: nat, delivered: bool)
    | StorePromise(thread: nat)
    | Receive(thread: nat)
    | ReceiveFails(thread: nat)
    | DispatchNext(thread: nat)
    | IgnoreNext(thread: nat)
    | Drain(thread: nat)
    | DispatchDrained(thread: nat)
    | AbandonDrained(thread: nat)
    | NewExecution(thread: nat)

  const Initial := State(map[], map[], [], [], [], [])

  predicate IsResponse(f: Frame) { f.BridgeResponse? }

  predicate Enabled(s: State, a: Action) {
    match a
    case CreateSession(_, _) => true
    case DestroySession(_, _) => true
    case HostResponse(_, frame) => IsResponse(frame)
    case HostMessage(_, _, frame) => !IsResponse(frame)
    case _ =>
      a.thread < |s.threads| &&
      var t := s.threads[a.thread];
      match a
      case Route(_) => t.pc.Issued()
      case Send(_, _) => t.pc.SyncRouted? || t.pc.AsyncRouted?
      case StorePromise(_) => t.pc.AsyncSent?
      case Receive(_) => t.pc.Blocked? && t.channel != []
      case ReceiveFails(_) => t.pc.Blocked?
      case DispatchNext(_) => t.pc.Free? && t.channel != []
      case IgnoreNext(_) => t.pc.Free? && t.channel != []
      case Drain(_) => t.pc.Free? && t.drained == []
      case DispatchDrained(_) => t.pc.Free? && t.drained != []
      case _ => t.pc.Free?
  }

  function SetThread(s: State, i: nat, t: Thread): State
    requires i < |s.threads|
  {
    s.(threads := s.threads[i := t])
  }

  /** The session exists and belongs to the connection. */
  predicate Owns(s: State, sid: SessionId, connection: nat) {
    sid in s.registry && s.registry[sid] < |s.threads| && s.threads[s.registry[sid]].connection == connection
  }

  /** fetch_add on the shared counter; a sync call also enters its id in pending_calls. */
  function Begin(s: State, i: nat, sync: bool): State
    requires i < |s.threads|
  {
    var t := s.threads[i];
    var n := |s.calls|;
    var s1 := s.(calls := s.calls + [Call(i, t.sid)]);
    if !sync then SetThread(s1, i, t.(pc := AsyncIssued(n)))
    else if IdOf(n) in t.pendingCalls then s1.(settlements := s.settlements + [ByFailure(n, i)])
    else SetThread(s1, i, t.(pc := SyncIssued(n), pendingCalls := t.pendingCalls + {IdOf(n)}))
  }

  /** The command goes into the channel of thread i. */
  function Deliver(s: State, i: nat, connection: nat, command: Command): State
    requires i < |s.threads|
  {
    SetThread(s, i, s.threads[i].(channel := s.threads[i].channel + [command]))
      .(deliveries := s.deliveries + [Delivery(i, connection, command)])
  }

  /** send_to_session: the frame reaches the channel only of a live session of the same connection. */
  function SendToSession(s: State, sid: SessionId, connection: nat, frame: Frame): State {
    if Owns(s, sid, connection) then Deliver(s, s.registry[sid], connection, Message(frame)) else s
  }

  /** The calling thread gives up on its call: the error is thrown or rejects the promise. */
  function Fail(s: State, i: nat): State
    requires i < |s.threads| && !s.threads[i].pc.Free?
  {
    var t := s.threads[i];
    var n := t.pc.ordinal;
    var pendingCalls := if t.pc.Sync() then t.pendingCalls - {IdOf(n)} else t.pendingCalls;
    SetThread(s, i, t.(pc := Free, pendingCalls := pendingCalls))
      .(settlements := s.settlements + [ByFailure(n, i)])
  }

  /** One turn of the loop in recv_response, and the return from sync_call when it matches. */
  function ReceiveOne(s: State, i: nat): State
    requires i < |s.threads| && s.threads[i].pc.Blocked? && s.threads[i].channel != []
  {
    var t := s.threads[i].(channel := s.threads[i].channel[1..]);
    var n := t.pc.ordinal;
    match s.threads[i].channel[0]
    case Shutdown => Fail(SetThread(s, i, t), i)
    case Message(f) =>
      if IsResponse(f) && f.callId == IdOf(n) then
        SetThread(s, i, t.(pc := Free, pendingCalls := t.pendingCalls - {IdOf(n)}))
          .(settlements := s.settlements + [ByResponse(n, i, f)])
      else SetThread(s, i, t.(deferred := t.deferred + [f]))
  }

  /** dispatch_event_loop_frame: a response settles the promise stored under its id, if there is one. */
  function Dispatch(s: State, i: nat, f: Frame): State
    requires i < |s.threads|
  {
    var t := s.threads[i];
    if IsResponse(f) && f.callId in t.promises then
      SetThread(s, i, t.(promises := t.promises - {f.callId}))
        .(settlements := s.settlements + [ByResponse(t.promises[f.callId], i, f)])
    else s
  }

  function Step(s: State, a: Action): State
    requires Enabled(s, a)
  {
    match a
    case CreateSession(sid, connection) =>
      if sid in s.registry then s
      else s.(registry := s.registry[sid := |s.threads|],
              threads := s.threads + [Thread(sid, connection, Free, [], [], [], {}, map[])])
    case DestroySession(sid, connection) =>
      if Owns(s, sid, connection) then
        Deliver(s, s.registry[sid], connection, Shutdown).(registry := s.registry - {sid})
      else s
    case HostResponse(connection, frame) =>
      if frame.callId in s.router then
        SendToSession(s.(router := s.router - {frame.callId}), s.router[frame.callId], connection, frame)
      else s
    case HostMessage(connection, sid, frame) => SendToSession(s, sid, connection, frame)
    case BeginSync(i) => Begin(s, i, true)
    case BeginAsync(i) => Begin(s, i, false)
    case Route(i) =>
      var t := s.threads[i];
      var n := t.pc.ordinal;
      SetThread(s, i, t.(pc := if t.pc.SyncIssued? then SyncRouted(n) else AsyncRouted(n)))
        .(router := s.router[IdOf(n) := t.sid])
    case Send(i, delivered) =>
      var t := s.threads[i];
      var n := t.pc.ordinal;
      if delivered then SetThread(s, i, t.(pc := if t.pc.SyncRouted? then Blocked(n) else AsyncSent(n)))
      else Fail(s, i)
    case StorePromise(i) =>
      var t := s.threads[i];
      var n := t.pc.ordinal;
      SetThread(s, i, t.(pc := Free, promises := t.promises[IdOf(n) := n]))
    case Receive(i) => ReceiveOne(s, i)
    case ReceiveFails(i) => Fail(s, i)
    case DispatchNext(i) =>
      var t := s.threads[i];
      var s1 := SetThread(s, i, t.(channel := t.channel[1..]));
      if t.channel[0].Message? then Dispatch(s1, i, t.channel[0].frame) else s1
    case IgnoreNext(i) =>
      var t := s.threads[i];
      SetThread(s, i, t.(channel := t.channel[1..]))
    case Drain(i) =>
      var t := s.threads[i];
      SetThread(s, i, t.(drained := t.deferred, deferred := []))
    case DispatchDrained(i) =>
      var t := s.threads[i];
      Dispatch(SetThread(s, i, t.(drained := t.drained[1..])), i, t.drained[0])
    case AbandonDrained(i) => SetThread(s, i, s.threads[i].(drained := []))
    case NewExecution(i) => SetThread(s, i, s.threads[i].(drained := [], deferred := [], pendingCalls := {}))
  }

  // ---- The blocking receive ----

  /** Thread i receives until its wait ends; it is aborted after the given number of commands, if any. */
  function Receives(s: State, i: nat, abortAfter: Option<nat>): State
    requires i < |s.threads| && s.threads[i].pc.Blocked?
    decreases |s.threads[i].channel|
  {
    if abortAfter == Some(0) || s.threads[i].channel == [] then Step(s, ReceiveFails(i))
    else
      var s' := Step(s, Receive(i));
      if s'.threads[i].pc.Blocked? then Receives(s', i, HostCall.Earlier(abortAfter)) else s'
  }

  /** What the wait leaves behind, if it went as scanned. */
  function Waited(s: State, i: nat, scanned: HostCall.Scanned): State
    requires i < |s.threads| && s.threads[i].pc.Blocked?
  {
    var t := s.threads[i];
    var n := t.pc.ordinal;
    SetThread(s, i, t.(pc := Free, pendingCalls := t.pendingCalls - {IdOf(n)}, channel := scanned.rest,
                       deferred := t.deferred + scanned.setAside))
      .(settlements := s.settlements +
          [if scanned.result.Ok? then ByResponse(n, i, scanned.result.value) else ByFailure(n, i)])
  }

  /** The receive steps of a blocked thread add up to the scan that recv_response performs. */
  lemma {:induction false} ReceivesComputeScan(s: State, i: nat, abortAfter: Option<nat>)
    requires i < |s.threads| && s.threads[i].pc.Blocked?
    ensures Receives(s, i, abortAfter)
         == Waited(s, i, HostCall.Scan(s.threads[i].channel, IdOf(s.threads[i].pc.ordinal), abortAfter))
    decreases |s.threads[i].channel|
  {
    var t := s.threads[i];
    assert t.deferred + [] == t.deferred;
    if abortAfter != Some(0) && t.channel != [] {
      var s' := Step(s, Receive(i));
      if s'.threads[i].pc.Blocked? {
        var f := t.channel[0].frame;
        assert s' == SetThread(s, i, t.(channel := t.channel[1..], deferred := t.deferred + [f]));
        ReceivesComputeScan(s', i, HostCall.Earlier(abortAfter));
        WaitedFurther(s, i, f, HostCall.Scan(t.channel[1..], IdOf(t.pc.ordinal), HostCall.Earlier(abortAfter)));
      }
    }
  }

  /** Setting one frame aside and then waiting on. */
  lemma WaitedFurther(s: State, i: nat, f: Frame, later: HostCall.Scanned)
    requires i < |s.threads| && s.threads[i].pc.Blocked? && s.threads[i].channel != []
    ensures var t := s.threads[i];
      Waited(SetThread(s, i, t.(channel := t.channel[1..], deferred := t.deferred + [f])), i, later)
      == Waited(s, i, later.(setAside := [f] + later.setAside))
  {
    var t := s.threads[i];
    assert t.deferred + [f] + later.setAside == t.deferred + ([f] + later.setAside);
  }

  // ---- The invariant ----

  ghost predicate Settled(settlements: seq<Settlement>, n: nat) {
    exists k :: 0 <= k < |settlements| && settlements[k].ordinal == n
  }

  predicate IsResponseTo(c: Command, id: u64) { c.Message? && IsResponse(c.frame) && c.frame.callId == id }

  /** A response to this id was delivered. */
  ghost predicate Answered(deliveries: seq<Delivery>, id: u64) {
    exists k :: 0 <= k < |deliveries| && IsResponseTo(deliveries[k].command, id)
  }

  /** Thread i owns the unfinished call n. */
  ghost predicate Open(s: State, i: nat, n: nat) {
    n < |s.calls| && s.calls[n].thread == i && !Settled(s.settlements, n)
  }

  /** The commands delivered to thread i, in order. */
  function Inbox(deliveries: seq<Delivery>, i: nat): seq<Command>
    decreases |deliveries|
  {
    if deliveries == [] then []
    else
      var last := deliveries[|deliveries| - 1];
      Inbox(deliveries[..|deliveries| - 1], i) + if last.thread == i then [last.command] else []
  }

  /** rest is what is left of all when commands are only taken off the front. */
  predicate LeftOf(rest: seq<Command>, all: seq<Command>) {
    |rest| <= |all| && rest == all[|all| - |rest|..]
  }

  /** A frame held by a thread was delivered to that thread, from the thread's connection. */
  ghost predicate Traced(s: State, i: nat, connection: nat, f: Frame) {
    Delivery(i, connection, Message(f)) in s.deliveries
  }

  /** The channel holds the latest of what was delivered, in order. */
  ghost predicate QueuesTraced(s: State, i: nat, t: Thread) {
    && LeftOf(t.channel, Inbox(s.deliveries, i))
    && (forall f <- t.deferred :: Traced(s, i, t.connection, f))
    && (forall f <- t.drained :: Traced(s, i, t.connection, f))
  }

  /** The thread is still busy with the call, or keeps a promise for it. */
  predicate Keeps(t: Thread, n: nat) {
    (!t.pc.Free? && t.pc.ordinal == n) || (IdOf(n) in t.promises && t.promises[IdOf(n)] == n)
  }

  ghost predicate PcOk(s: State, i: nat, t: Thread) {
    && (!t.pc.Free? ==> Open(s, i, t.pc.ordinal))
    && (t.pc.Issued() ==> IdOf(t.pc.ordinal) !in s.router && !Answered(s.deliveries, IdOf(t.pc.ordinal)))
    && t.pendingCalls == (if t.pc.Sync() then {IdOf(t.pc.ordinal)} else {})
  }

  ghost predicate PromisesOk(s: State, i: nat, t: Thread) {
    forall id <- t.promises ::
      && Open(s, i, t.promises[id]) && IdOf(t.promises[id]) == id
      && (!t.pc.Free? ==> t.pc.ordinal != t.promises[id])
  }

  ghost predicate ThreadOk(s: State, i: nat)
    requires i < |s.threads|
  {
    var t := s.threads[i];
    PcOk(s, i, t) && PromisesOk(s, i, t) && QueuesTraced(s, i, t)
  }

  ghost predicate RegistryOk(s: State) {
    forall sid <- s.registry :: s.registry[sid] < |s.threads| && s.threads[s.registry[sid]].sid == sid
  }

  /** Every call was made by some thread, and is settled or still kept by that thread. */
  ghost predicate CallsOk(s: State) {
    forall n {:trigger s.calls[n]} :: 0 <= n < |s.calls| ==>
      && s.calls[n].thread < |s.threads| && s.threads[s.calls[n].thread].sid == s.calls[n].sid
      && (Settled(s.settlements, n) || Keeps(s.threads[s.calls[n].thread], n))
  }

  ghost predicate RouterOk(s: State) {
    forall id <- s.router ::
      OrdinalOf(id) < |s.calls| && s.router[id] == s.calls[OrdinalOf(id)].sid && !Answered(s.deliveries, id)
  }

  /** Whatever was delivered to a thread came from the connection that thread belongs to; a response went to a thread
      of the session id that drew the call id, and no call id was answered twice. */
  ghost predicate DeliveriesOk(s: State) {
    && (forall k {:trigger s.deliveries[k]} :: 0 <= k < |s.deliveries| ==>
          var d := s.deliveries[k];
          && d.thread < |s.threads| && d.connection == s.threads[d.thread].connection
          && (d.command.Message? && IsResponse(d.command.frame) ==>
                var n := OrdinalOf(d.command.frame.callId);
                n < |s.calls| && s.threads[d.thread].sid == s.calls[n].sid))
    && (forall j, k {:trigger s.deliveries[j], s.deliveries[k]} :: 0 <= j < k < |s.deliveries| ==>
          var c := s.deliveries[j].command;
          c.Message? && IsResponse(c.frame) ==> !IsResponseTo(s.deliveries[k].command, c.frame.callId))
  }

  /** No call is settled twice; a response settles only the call whose id it carries, and it was delivered to
      the very thread that made the call, from that thread's connection. */
  ghost predicate SettlementsOk(s: State) {
    && (forall k {:trigger s.settlements[k]} :: 0 <= k < |s.settlements| ==>
          var e := s.settlements[k];
          && e.ordinal < |s.calls| && e.thread == s.calls[e.ordinal].thread
          && (e.ByResponse? ==>
                && IsResponse(e.frame) && e.frame.callId == IdOf(e.ordinal) && e.thread < |s.threads|
                && Traced(s, e.thread, s.threads[e.thread].connection, e.frame)))
    && (forall j, k {:trigger s.settlements[j], s.settlements[k]} :: 0 <= j < k < |s.settlements| ==>
          s.settlements[j].ordinal != s.settlements[k].ordinal)
  }

  ghost predicate Inv(s: State) {
    && RegistryOk(s) && CallsOk(s) && RouterOk(s) && DeliveriesOk(s) && SettlementsOk(s)
    && (forall i {:trigger s.threads[i]} :: 0 <= i < |s.threads| ==> ThreadOk(s, i))
  }

  lemma InboxOne(ds: seq<Delivery>, d: Delivery, i: nat)
    ensures Inbox(ds + [d], i) == Inbox(ds, i) + if d.thread == i then [d.command] else []
  {
    assert (ds + [d])[..|ds|] == ds;
  }

  /** What is in a thread's channel was delivered to it. */
  lemma {:induction false} InboxTraced(ds: seq<Delivery>, i: nat, c: Command)
    requires c in Inbox(ds, i)
    ensures exists k :: 0 <= k < |ds| && ds[k].thread == i && ds[k].command == c
    decreases |ds|
  {
    var last := ds[|ds| - 1];
    if !(last.thread == i && last.command == c) { InboxTraced(ds[..|ds| - 1], i, c); }
  }

  lemma ChannelTraced(s: State, i: nat)
    requires Inv(s) && i < |s.threads|
    ensures forall c <- s.threads[i].channel :: Delivery(i, s.threads[i].connection, c) in s.deliveries
  {
    assert ThreadOk(s, i);
    forall c <- s.threads[i].channel ensures Delivery(i, s.threads[i].connection, c) in s.deliveries {
      InboxTraced(s.deliveries, i, c);
      var k :| 0 <= k < |s.deliveries| && s.deliveries[k].thread == i && s.deliveries[k].command == c;
      assert s.deliveries[k] == Delivery(i, s.threads[i].connection, c);
    }
  }

  lemma {:induction false} IdIs(n: nat)
    requires n < ID_SPACE
    ensures IdOf(n) == if n == ID_SPACE - 1 then 0 else n + 1
  {
    if n > 0 { IdIs(n - 1); }
  }

  lemma IdsAreDistinct(m: nat, n: nat)
    requires m < ID_SPACE && n < ID_SPACE
    ensures IdOf(m) == IdOf(n) ==> m == n
    ensures OrdinalOf(IdOf(n)) == n
  {
    IdIs(m);
    IdIs(n);
  }

  /** What must be shown when a step replaces thread i and leaves the histories and the router alone. */
  lemma ReplaceThread(s: State, i: nat, t: Thread)
    requires Inv(s) && i < |s.threads| && t.sid == s.threads[i].sid && t.connection == s.threads[i].connection
    requires PcOk(s, i, t) && PromisesOk(s, i, t) && QueuesTraced(s, i, t)
    requires forall n :: Keeps(s.threads[i], n) ==> Keeps(t, n)
    ensures Inv(SetThread(s, i, t))
  {
    ReplaceKeepsRegistry(s, i, t);
    ReplaceKeepsHistories(s, i, t);
    ReplaceKeepsCalls(s, i, t);
    forall j | 0 <= j < |s.threads| ensures ThreadOk(SetThread(s, i, t), j) {
      assert ThreadOk(s, j);
      ReplaceKeepsThread(s, i, t, j);
    }
  }

  lemma ReplaceKeepsRegistry(s: State, i: nat, t: Thread)
    requires RegistryOk(s) && RouterOk(s) && i < |s.threads| && t.sid == s.threads[i].sid
    ensures RegistryOk(SetThread(s, i, t)) && RouterOk(SetThread(s, i, t))
  {
  }

  lemma ReplaceKeepsHistories(s: State, i: nat, t: Thread)
    requires DeliveriesOk(s) && SettlementsOk(s)
    requires i < |s.threads| && t.sid == s.threads[i].sid && t.connection == s.threads[i].connection
    ensures DeliveriesOk(SetThread(s, i, t)) && SettlementsOk(SetThread(s, i, t))
  {
  }

  lemma ReplaceKeepsCalls(s: State, i: nat, t: Thread)
    requires CallsOk(s) && i < |s.threads| && t.sid == s.threads[i].sid
    requires forall n :: Keeps(s.threads[i], n) ==> Keeps(t, n)
    ensures CallsOk(SetThread(s, i, t))
  {
  }

  lemma ReplaceKeepsThread(s: State, i: nat, t: Thread, j: nat)
    requires i < |s.threads| && j < |s.threads| && ThreadOk(s, j)
    requires PcOk(s, i, t) && PromisesOk(s, i, t) && QueuesTraced(s, i, t)
    ensures ThreadOk(SetThread(s, i, t), j)
  {
    var s' := SetThread(s, i, t);
    PcStays(s, s', j, s'.threads[j]);
    PromisesStay(s, s', j, s'.threads[j]);
    assert QueuesTraced(s', j, s'.threads[j]);
  }

  /** The histories and the router are the same. */
  predicate SameRecords(s: State, s': State) {
    s'.router == s.router && s'.calls == s.calls && s'.deliveries == s.deliveries && s'.settlements == s.settlements
  }

  lemma PcStays(s: State, s': State, i: nat, t: Thread)
    requires SameRecords(s, s') && PcOk(s, i, t)
    ensures PcOk(s', i, t)
  {
  }

  lemma PromisesStay(s: State, s': State, i: nat, t: Thread)
    requires s'.calls == s.calls && s'.settlements == s.settlements && PromisesOk(s, i, t)
    ensures PromisesOk(s', i, t)
  {
  }

  /** What must be shown when thread i becomes t and the call e.ordinal it owned is settled. */
  lemma SettleCall(s: State, i: nat, t: Thread, e: Settlement)
    requires Inv(s) && i < |s.threads| && t.sid == s.threads[i].sid && t.connection == s.threads[i].connection
    requires Open(s, i, e.ordinal) && e.thread == i
    requires e.ByResponse? ==>
      IsResponse(e.frame) && e.frame.callId == IdOf(e.ordinal) && Traced(s, i, t.connection, e.frame)
    requires t.pc == Free && t.pendingCalls == {}
    requires forall n :: Keeps(s.threads[i], n) && n != e.ordinal ==> Keeps(t, n)
    requires PromisesOk(s, i, t) && e.ordinal !in t.promises.Values && QueuesTraced(s, i, t)
    ensures Inv(SetThread(s, i, t).(settlements := s.settlements + [e]))
  {
    var s' := SetThread(s, i, t).(settlements := s.settlements + [e]);
    SettlementRecorded(s, i, t, e);
    forall j | 0 <= j < |s'.threads| ensures ThreadOk(s', j) {
      if j != i { StillOk(s, s', j); } else { assert forall id <- t.promises :: t.promises[id] in t.promises.Values; }
    }
  }

  /** A thread that is none of the others' business. */
  lemma StillOk(s: State, s': State, j: nat)
    requires j < |s.threads| && j < |s'.threads| && s'.threads[j] == s.threads[j] && ThreadOk(s, j)
    requires s'.deliveries == s.deliveries && s'.router == s.router && s.calls <= s'.calls
    requires forall n :: Open(s, j, n) ==> !Settled(s'.settlements, n)
    ensures ThreadOk(s', j)
  {
    assert forall n :: Open(s, j, n) ==> Open(s', j, n);
  }

  lemma SettlementRecorded(s: State, i: nat, t: Thread, e: Settlement)
    requires SettlementsOk(s) && CallsOk(s) && i < |s.threads| && Open(s, i, e.ordinal) && e.thread == i
    requires t.sid == s.threads[i].sid && t.connection == s.threads[i].connection
    requires forall n :: Keeps(s.threads[i], n) && n != e.ordinal ==> Keeps(t, n)
    requires e.ByResponse? ==>
      IsResponse(e.frame) && e.frame.callId == IdOf(e.ordinal) && Traced(s, i, t.connection, e.frame)
    ensures var s' := SetThread(s, i, t).(settlements := s.settlements + [e]);
      && SettlementsOk(s') && CallsOk(s') && Settled(s'.settlements, e.ordinal)
      && forall m :: m != e.ordinal && !Settled(s.settlements, m) ==> !Settled(s'.settlements, m)
  {
    var s' := SetThread(s, i, t).(settlements := s.settlements + [e]);
    assert s'.settlements[|s.settlements|] == e;
    forall m | Settled(s.settlements, m) ensures Settled(s'.settlements, m) {
      var k :| 0 <= k < |s.settlements| && s.settlements[k].ordinal == m;
      assert s'.settlements[k].ordinal == m;
    }
    forall j, k | 0 <= j < k < |s'.settlements| ensures s'.settlements[j].ordinal != s'.settlements[k].ordinal {
      if k == |s.settlements| { assert !Settled(s.settlements, e.ordinal); }
    }
  }

  /** An id in use is left alone; any other gets a new thread with nothing in its channel. */
  lemma CreateKeepsInv(s: State, sid: SessionId, connection: nat)
    requires Inv(s)
    ensures Inv(Step(s, Action.CreateSession(sid, connection)))
    ensures sid in s.registry ==> Step(s, Action.CreateSession(sid, connection)) == s
    ensures sid !in s.registry ==>
      var s' := Step(s, Action.CreateSession(sid, connection));
      && s'.registry == s.registry[sid := |s.threads|] && |s'.threads| == |s.threads| + 1
      && s'.threads[|s.threads|].connection == connection && s'.threads[|s.threads|].channel == []
  {
    var s' := Step(s, Action.CreateSession(sid, connection));
    if sid !in s.registry {
      forall j | 0 <= j < |s'.threads| ensures ThreadOk(s', j) {
        if j < |s.threads| { assert ThreadOk(s, j); }
      }
    }
  }

  lemma DestroyKeepsInv(s: State, sid: SessionId, connection: nat)
    requires Inv(s)
    ensures Inv(Step(s, Action.DestroySession(sid, connection)))
  {
    if Owns(s, sid, connection) {
      var s1 := Deliver(s, s.registry[sid], connection, Shutdown);
      DeliverKeepsInv(s, s.registry[sid], connection, Shutdown);
      var s' := s1.(registry := s.registry - {sid});
      forall j | 0 <= j < |s'.threads| ensures ThreadOk(s', j) { assert ThreadOk(s1, j); }
    }
  }

  /** Removing a router entry disturbs nothing. */
  lemma UnrouteKeepsInv(s: State, id: u64)
    requires Inv(s)
    ensures Inv(s.(router := s.router - {id}))
  {
    var s' := s.(router := s.router - {id});
    forall j | 0 <= j < |s'.threads| ensures ThreadOk(s', j) { assert ThreadOk(s, j); }
  }

  /** The response may be delivered to thread i: it is the first to its id, and the id is no longer routed. */
  ghost predicate MayAnswer(s: State, i: nat, frame: Frame)
    requires i < |s.threads|
  {
    IsResponse(frame) ==>
      && frame.callId !in s.router && !Answered(s.deliveries, frame.callId)
      && OrdinalOf(frame.callId) < |s.calls| && s.threads[i].sid == s.calls[OrdinalOf(frame.callId)].sid
      && forall j {:trigger s.threads[j]} :: 0 <= j < |s.threads| && s.threads[j].pc.Issued() ==>
           IdOf(s.threads[j].pc.ordinal) != frame.callId
  }

  /** Delivery of a command from the thread's own connection keeps the invariant. */
  lemma DeliverKeepsInv(s: State, i: nat, connection: nat, command: Command)
    requires Inv(s) && i < |s.threads| && s.threads[i].connection == connection
    requires command.Message? ==> MayAnswer(s, i, command.frame)
    ensures Inv(Deliver(s, i, connection, command))
  {
    var s' := Deliver(s, i, connection, command);
    forall x | Answered(s'.deliveries, x) && !IsResponseTo(command, x) ensures Answered(s.deliveries, x) {}
    forall j | 0 <= j < |s'.threads| ensures ThreadOk(s', j) {
      assert ThreadOk(s, j);
      DeliverKeepsThread(s, i, connection, command, j);
    }
    assert DeliveriesOk(s') by { DeliveryRecorded(s, i, connection, command); }
  }

  lemma DeliverKeepsThread(s: State, i: nat, connection: nat, command: Command, j: nat)
    requires i < |s.threads| && s.threads[i].connection == connection && j < |s.threads| && ThreadOk(s, j)
    requires command.Message? ==> MayAnswer(s, i, command.frame)
    ensures ThreadOk(Deliver(s, i, connection, command), j)
  {
    var s' := Deliver(s, i, connection, command);
    PromisesStay(s, s', j, s.threads[j]);
    DeliverKeepsQueues(s, i, connection, command, j);
    assert PcOk(s', j, s'.threads[j]) by {
      forall x | Answered(s'.deliveries, x) && !IsResponseTo(command, x) ensures Answered(s.deliveries, x) {}
    }
  }

  lemma DeliverKeepsQueues(s: State, i: nat, connection: nat, command: Command, j: nat)
    requires i < |s.threads| && j < |s.threads| && QueuesTraced(s, j, s.threads[j])
    ensures var s' := Deliver(s, i, connection, command); QueuesTraced(s', j, s'.threads[j])
  {
    InboxOne(s.deliveries, Delivery(i, connection, command), j);
  }

  lemma DeliveryRecorded(s: State, i: nat, connection: nat, command: Command)
    requires DeliveriesOk(s) && i < |s.threads| && s.threads[i].connection == connection
    requires command.Message? ==> MayAnswer(s, i, command.frame)
    ensures DeliveriesOk(Deliver(s, i, connection, command))
  {
    var s' := Deliver(s, i, connection, command);
    forall j, k | 0 <= j < k < |s'.deliveries|
      ensures var c := s'.deliveries[j].command;
        c.Message? && IsResponse(c.frame) ==> !IsResponseTo(s'.deliveries[k].command, c.frame.callId)
    {
      if k == |s.deliveries| && command.Message? && IsResponse(command.frame) {
        assert !Answered(s.deliveries, command.frame.callId);
      }
    }
  }

  lemma HostResponseKeepsInv(s: State, connection: nat, frame: Frame)
    requires Inv(s) && IsResponse(frame)
    ensures Inv(Step(s, HostResponse(connection, frame)))
  {
    if frame.callId in s.router {
      var s1 := s.(router := s.router - {frame.callId});
      UnrouteKeepsInv(s, frame.callId);
      forall i | 0 <= i < |s.threads| && s.threads[i].pc.Issued()
        ensures IdOf(s.threads[i].pc.ordinal) != frame.callId
      {
        assert ThreadOk(s, i);
      }
      var sid := s.router[frame.callId];
      if Owns(s1, sid, connection) { DeliverKeepsInv(s1, s.registry[sid], connection, Message(frame)); }
    }
  }

  lemma HostMessageKeepsInv(s: State, connection: nat, sid: SessionId, frame: Frame)
    requires Inv(s) && !IsResponse(frame)
    ensures Inv(Step(s, HostMessage(connection, sid, frame)))
  {
    if Owns(s, sid, connection) { DeliverKeepsInv(s, s.registry[sid], connection, Message(frame)); }
  }

  /** A freshly drawn id is unknown to the router and to every earlier forward. */
  lemma FreshId(s: State)
    requires Inv(s) && |s.calls| < ID_SPACE
    ensures IdOf(|s.calls|) !in s.router && !Answered(s.deliveries, IdOf(|s.calls|))
    ensures !Settled(s.settlements, |s.calls|)
  {
    IdsAreDistinct(0, |s.calls|);
  }

  /** t is thread i at work on the call with the next id. */
  predicate Draws(s: State, i: nat, t: Thread)
    requires i < |s.threads|
  {
    && s.threads[i].pc.Free? && t == s.threads[i].(pc := t.pc, pendingCalls := t.pendingCalls)
    && ((t.pc == AsyncIssued(|s.calls|) && t.pendingCalls == s.threads[i].pendingCalls)
        || (t.pc == SyncIssued(|s.calls|) && t.pendingCalls == {IdOf(|s.calls|)}))
  }

  lemma DrawKeepsInv(s: State, i: nat, t: Thread)
    requires Inv(s) && |s.calls| < ID_SPACE && i < |s.threads| && Draws(s, i, t)
    ensures Inv(SetThread(s.(calls := s.calls + [Call(i, t.sid)]), i, t))
  {
    var s' := SetThread(s.(calls := s.calls + [Call(i, t.sid)]), i, t);
    DrawKeepsRecords(s, i, t);
    DrawKeepsCalls(s, i, t);
    DrawingThreadOk(s, i, t);
    forall j | 0 <= j < |s'.threads| ensures ThreadOk(s', j) {
      assert ThreadOk(s, j);
      if j != i { StillOk(s, s', j); }
    }
  }

  lemma DrawKeepsRecords(s: State, i: nat, t: Thread)
    requires RegistryOk(s) && RouterOk(s) && DeliveriesOk(s) && SettlementsOk(s)
    requires i < |s.threads| && t.sid == s.threads[i].sid && t.connection == s.threads[i].connection
    ensures var s' := SetThread(s.(calls := s.calls + [Call(i, t.sid)]), i, t);
      RegistryOk(s') && RouterOk(s') && DeliveriesOk(s') && SettlementsOk(s')
  {
  }

  lemma DrawKeepsCalls(s: State, i: nat, t: Thread)
    requires CallsOk(s) && i < |s.threads| && Draws(s, i, t)
    ensures CallsOk(SetThread(s.(calls := s.calls + [Call(i, t.sid)]), i, t))
  {
    assert Keeps(t, |s.calls|) && forall n :: Keeps(s.threads[i], n) ==> Keeps(t, n);
  }

  lemma DrawingThreadOk(s: State, i: nat, t: Thread)
    requires Inv(s) && |s.calls| < ID_SPACE && i < |s.threads| && Draws(s, i, t)
    ensures ThreadOk(SetThread(s.(calls := s.calls + [Call(i, t.sid)]), i, t), i)
  {
    FreshId(s);
    var s' := SetThread(s.(calls := s.calls + [Call(i, t.sid)]), i, t);
    assert ThreadOk(s, i);
    assert forall m :: Open(s, i, m) ==> Open(s', i, m);
  }

  /** The id drawn for a sync call is never pending already. */
  lemma BeginKeepsInv(s: State, i: nat, sync: bool)
    requires Inv(s) && |s.calls| < ID_SPACE && i < |s.threads| && s.threads[i].pc.Free?
    ensures Inv(Begin(s, i, sync))
    ensures Begin(s, i, sync).threads[i].pc == if sync then SyncIssued(|s.calls|) else AsyncIssued(|s.calls|)
  {
    assert ThreadOk(s, i);
    var t := s.threads[i];
    var n := |s.calls|;
    assert t.pendingCalls + {IdOf(n)} == {IdOf(n)};
    DrawKeepsInv(s, i, if sync then t.(pc := SyncIssued(n), pendingCalls := {IdOf(n)}) else t.(pc := AsyncIssued(n)));
  }

  /** Registering the id of call n, once no thread is about to register it any more. */
  lemma RegisterKeepsInv(s: State, n: nat)
    requires Inv(s) && n < |s.calls| <= ID_SPACE && !Answered(s.deliveries, IdOf(n))
    requires forall j :: 0 <= j < |s.threads| && s.threads[j].pc.Issued() ==> s.threads[j].pc.ordinal != n
    ensures Inv(s.(router := s.router[IdOf(n) := s.calls[n].sid]))
  {
    var r := s.router[IdOf(n) := s.calls[n].sid];
    RouterAside(s, r);
    RegisterKeepsRouter(s, n);
    forall j | 0 <= j < |s.threads| ensures ThreadOk(s.(router := r), j) {
      assert ThreadOk(s, j);
      if s.threads[j].pc.Issued() { OtherId(s, j, n); }
      RegisterKeepsThread(s, n, j);
    }
  }

  /** What does not depend on the router. */
  lemma RouterAside(s: State, r: map<u64, SessionId>)
    requires RegistryOk(s) && CallsOk(s) && DeliveriesOk(s) && SettlementsOk(s)
    ensures var s' := s.(router := r); RegistryOk(s') && CallsOk(s') && DeliveriesOk(s') && SettlementsOk(s')
  {
  }

  lemma RegisterKeepsRouter(s: State, n: nat)
    requires RouterOk(s) && n < |s.calls| <= ID_SPACE && !Answered(s.deliveries, IdOf(n))
    ensures RouterOk(s.(router := s.router[IdOf(n) := s.calls[n].sid]))
  {
    IdsAreDistinct(0, n);
  }

  lemma RegisterKeepsThread(s: State, n: nat, j: nat)
    requires n < |s.calls| && j < |s.threads| && ThreadOk(s, j)
    requires s.threads[j].pc.Issued() ==> IdOf(s.threads[j].pc.ordinal) != IdOf(n)
    ensures ThreadOk(s.(router := s.router[IdOf(n) := s.calls[n].sid]), j)
  {
    var s', t := s.(router := s.router[IdOf(n) := s.calls[n].sid]), s.threads[j];
    PromisesStay(s, s', j, t);
    assert PcOk(s', j, t) && QueuesTraced(s', j, t);
  }

  lemma OtherId(s: State, j: nat, n: nat)
    requires Inv(s) && j < |s.threads| && s.threads[j].pc.Issued() && |s.calls| <= ID_SPACE && n < |s.calls|
    ensures s.threads[j].pc.ordinal != n ==> IdOf(s.threads[j].pc.ordinal) != IdOf(n)
  {
    assert ThreadOk(s, j);
    IdsAreDistinct(n, s.threads[j].pc.ordinal);
  }

  lemma RouteKeepsInv(s: State, i: nat)
    requires Inv(s) && |s.calls| <= ID_SPACE && i < |s.threads| && s.threads[i].pc.Issued()
    ensures Inv(Step(s, Route(i)))
    ensures var t := s.threads[i];
      && Step(s, Route(i)).router == s.router[IdOf(t.pc.ordinal) := t.sid]
      && !Step(s, Route(i)).threads[i].pc.Issued()
  {
    var t := s.threads[i];
    var n := t.pc.ordinal;
    var t' := t.(pc := if t.pc.SyncIssued? then SyncRouted(n) else AsyncRouted(n));
    assert ThreadOk(s, i);
    RoutedFits(s, i, t');
    ReplaceThread(s, i, t');
    OnlyIssuer(s, i, t');
    RegisterKeepsInv(SetThread(s, i, t'), n);
  }

  lemma RoutedFits(s: State, i: nat, t: Thread)
    requires i < |s.threads| && ThreadOk(s, i) && s.threads[i].pc.Issued()
    requires var (was, n) := (s.threads[i], s.threads[i].pc.ordinal);
      t == was.(pc := if was.pc.SyncIssued? then SyncRouted(n) else AsyncRouted(n))
    ensures PcOk(s, i, t) && PromisesOk(s, i, t) && QueuesTraced(s, i, t)
    ensures forall n :: Keeps(s.threads[i], n) ==> Keeps(t, n)
  {
  }

  /** Once thread i has moved on, no thread is about to register its call. */
  lemma OnlyIssuer(s: State, i: nat, t: Thread)
    requires Inv(s) && i < |s.threads| && s.threads[i].pc.Issued() && !t.pc.Issued()
    ensures var (s', n) := (SetThread(s, i, t), s.threads[i].pc.ordinal);
      && !Answered(s'.deliveries, IdOf(n))
      && forall j :: 0 <= j < |s'.threads| && s'.threads[j].pc.Issued() ==> s'.threads[j].pc.ordinal != n
  {
    var s' := SetThread(s, i, t);
    assert ThreadOk(s, i);
    forall j | 0 <= j < |s'.threads| && s'.threads[j].pc.Issued()
      ensures s'.threads[j].pc.ordinal != s.threads[i].pc.ordinal
    {
      assert ThreadOk(s, j);
    }
  }

  lemma FailKeepsInv(s: State, i: nat)
    requires Inv(s) && i < |s.threads| && !s.threads[i].pc.Free?
    ensures Inv(Fail(s, i))
  {
    var t := s.threads[i];
    assert ThreadOk(s, i);
    var pendingCalls := if t.pc.Sync() then t.pendingCalls - {IdOf(t.pc.ordinal)} else t.pendingCalls;
    SettleCall(s, i, t.(pc := Free, pendingCalls := pendingCalls), ByFailure(t.pc.ordinal, i));
  }

  lemma SendKeepsInv(s: State, i: nat, delivered: bool)
    requires Inv(s) && Enabled(s, Send(i, delivered))
    ensures Inv(Step(s, Send(i, delivered)))
    ensures var (pc, s') := (s.threads[i].pc, Step(s, Send(i, delivered)));
      if delivered then s'.threads[i].pc == if pc.Sync() then Blocked(pc.ordinal) else AsyncSent(pc.ordinal)
      else s'.threads[i].pc.Free? && s'.settlements == s.settlements + [ByFailure(pc.ordinal, i)]
  {
    assert ThreadOk(s, i);
    var t := s.threads[i];
    var n := t.pc.ordinal;
    if delivered { ReplaceThread(s, i, t.(pc := if t.pc.SyncRouted? then Blocked(n) else AsyncSent(n))); }
    else { FailKeepsInv(s, i); }
  }

  lemma ReceiveKeepsInv(s: State, i: nat)
    requires Inv(s) && Enabled(s, Receive(i))
    ensures Inv(Step(s, Receive(i)))
  {
    assert ThreadOk(s, i);
    ChannelTraced(s, i);
    var t := s.threads[i].(channel := s.threads[i].channel[1..]);
    var n := t.pc.ordinal;
    match s.threads[i].channel[0]
    case Shutdown =>
      ReplaceThread(s, i, t);
      FailKeepsInv(SetThread(s, i, t), i);
    case Message(f) =>
      assert Traced(s, i, t.connection, f);
      if IsResponse(f) && f.callId == IdOf(n) {
        SettleCall(s, i, t.(pc := Free, pendingCalls := t.pendingCalls - {IdOf(n)}), ByResponse(n, i, f));
      } else {
        ReplaceThread(s, i, t.(deferred := t.deferred + [f]));
      }
  }

  lemma DispatchKeepsInv(s: State, i: nat, f: Frame)
    requires Inv(s) && i < |s.threads| && s.threads[i].pc.Free? && Traced(s, i, s.threads[i].connection, f)
    ensures Inv(Dispatch(s, i, f))
  {
    assert ThreadOk(s, i);
    var t := s.threads[i];
    if IsResponse(f) && f.callId in t.promises {
      var t' := t.(promises := t.promises - {f.callId});
      forall id | id in t'.promises ensures t'.promises[id] != t.promises[f.callId] {
        assert IdOf(t.promises[id]) == id;
      }
      SettleCall(s, i, t', ByResponse(t.promises[f.callId], i, f));
    }
  }

  /** The one step that adds a promise never finds its key taken. */
  lemma StoreNeverOverwrites(s: State, i: nat)
    requires Inv(s) && |s.calls| <= ID_SPACE && i < |s.threads| && s.threads[i].pc.AsyncSent?
    ensures IdOf(s.threads[i].pc.ordinal) !in s.threads[i].promises
  {
    assert ThreadOk(s, i);
    var t := s.threads[i];
    if IdOf(t.pc.ordinal) in t.promises { IdsAreDistinct(t.pc.ordinal, t.promises[IdOf(t.pc.ordinal)]); }
  }

  lemma StoreKeepsInv(s: State, i: nat)
    requires Inv(s) && |s.calls| <= ID_SPACE && Enabled(s, StorePromise(i))
    ensures Inv(Step(s, StorePromise(i)))
    ensures var (t, t') := (s.threads[i], Step(s, StorePromise(i)).threads[i]);
      t'.pc.Free? && t'.promises.Keys == t.promises.Keys + {IdOf(t.pc.ordinal)}
  {
    var t := s.threads[i];
    assert ThreadOk(s, i);
    StoreNeverOverwrites(s, i);
    ReplaceThread(s, i, t.(pc := Free, promises := t.promises[IdOf(t.pc.ordinal) := t.pc.ordinal]));
  }

  lemma DispatchNextKeepsInv(s: State, i: nat)
    requires Inv(s) && Enabled(s, DispatchNext(i))
    ensures Inv(Step(s, DispatchNext(i)))
  {
    var t := s.threads[i];
    assert ThreadOk(s, i);
    ChannelTraced(s, i);
    var t1 := t.(channel := t.channel[1..]);
    ReplaceThread(s, i, t1);
    if t.channel[0].Message? { DispatchKeepsInv(SetThread(s, i, t1), i, t.channel[0].frame); }
  }

  lemma DispatchDrainedKeepsInv(s: State, i: nat)
    requires Inv(s) && Enabled(s, DispatchDrained(i))
    ensures Inv(Step(s, DispatchDrained(i)))
  {
    var t := s.threads[i];
    assert ThreadOk(s, i);
    var t1 := t.(drained := t.drained[1..]);
    ReplaceThread(s, i, t1);
    assert t.drained[0] in t.drained;
    DispatchKeepsInv(SetThread(s, i, t1), i, t.drained[0]);
  }

  /** The queues may be moved and emptied at any time; a drain takes what is deferred, all of it and in order. */
  lemma QueueStepKeepsInv(s: State, a: Action)
    requires Inv(s) && Enabled(s, a)
    requires a.IgnoreNext? || a.Drain? || a.AbandonDrained? || a.NewExecution?
    ensures Inv(Step(s, a))
    ensures a.Drain? ==>
      var (t, t') := (s.threads[a.thread], Step(s, a).threads[a.thread]);
      t'.drained == t.deferred && t'.deferred == [] && t'.channel == t.channel
  {
    var i := a.thread;
    var t := s.threads[i];
    assert ThreadOk(s, i);
    match a
    case IgnoreNext(_) => ReplaceThread(s, i, t.(channel := t.channel[1..]));
    case Drain(_) => ReplaceThread(s, i, t.(drained := t.deferred, deferred := []));
    case AbandonDrained(_) => ReplaceThread(s, i, t.(drained := []));
    case NewExecution(_) => ReplaceThread(s, i, t.(drained := [], deferred := [], pendingCalls := {}));
  }

  lemma StepKeepsInv(s: State, a: Action)
    requires Inv(s) && Enabled(s, a) && |Step(s, a).calls| <= ID_SPACE
    ensures Inv(Step(s, a))
  {
    match a
    case CreateSession(sid, connection) => CreateKeepsInv(s, sid, connection);
    case DestroySession(sid, connection) => DestroyKeepsInv(s, sid, connection);
    case HostResponse(connection, frame) => HostResponseKeepsInv(s, connection, frame);
    case HostMessage(connection, sid, frame) => HostMessageKeepsInv(s, connection, sid, frame);
    case BeginSync(i) => BeginKeepsInv(s, i, true);
    case BeginAsync(i) => BeginKeepsInv(s, i, false);
    case Route(i) => RouteKeepsInv(s, i);
    case Send(i, delivered) => SendKeepsInv(s, i, delivered);
    case Receive(i) => ReceiveKeepsInv(s, i);
    case ReceiveFails(i) => FailKeepsInv(s, i);
    case StorePromise(i) => StoreKeepsInv(s, i);
    case DispatchNext(i) => DispatchNextKeepsInv(s, i);
    case DispatchDrained(i) => DispatchDrainedKeepsInv(s, i);
    case _ => QueueStepKeepsInv(s, a);
  }

  // ---- Whole runs ----

  /** states is a run: it starts with nothing and states[k+1] follows states[k] by actions[k]. */
  ghost predicate Run(states: seq<State>, actions: seq<Action>) {
    && |states| == |actions| + 1 && states[0] == Initial
    && forall k {:trigger actions[k]} :: 0 <= k < |actions| ==>
         Enabled(states[k], actions[k]) && states[k+1] == Step(states[k], actions[k])
  }

  lemma {:induction false} ReachableInv(states: seq<State>, actions: seq<Action>, k: nat)
    requires Run(states, actions) && k < |states| && |states[k].calls| <= ID_SPACE
    ensures Inv(states[k])
    decreases k
  {
    if k > 0 {
      assert Enabled(states[k-1], actions[k-1]);
      StepOnlyAppends(states[k-1], actions[k-1]);
      ReachableInv(states, actions, k - 1);
      StepKeepsInv(states[k-1], actions[k-1]);
    }
  }

  /** Histories are never rewritten, */
  lemma StepOnlyAppends(s: State, a: Action)
    requires Enabled(s, a)
    ensures var s' := Step(s, a);
      s.calls <= s'.calls && s.deliveries <= s'.deliveries && s.settlements <= s'.settlements
  {
  }

  /** and a thread keeps its session id and its connection. */
  lemma ThreadsStay(s: State, a: Action, i: nat)
    requires Enabled(s, a) && i < |s.threads|
    ensures Stays(s, Step(s, a), i)
  {
    if a.Receive? || a.ReceiveFails? || a.Send? || a.DispatchNext? || a.DispatchDrained? { CallerStays(s, a, i); }
  }

  predicate Stays(s: State, s': State, i: nat)
    requires i < |s.threads|
  {
    i < |s'.threads| && s'.threads[i].sid == s.threads[i].sid && s'.threads[i].connection == s.threads[i].connection
  }

  lemma CallerStays(s: State, a: Action, i: nat)
    requires Enabled(s, a) && i < |s.threads|
    requires a.Receive? || a.ReceiveFails? || a.Send? || a.DispatchNext? || a.DispatchDrained?
    ensures Stays(s, Step(s, a), i)
  {
  }

  /**
   The protocol's guarantee, in every run with at most 2^64 calls, whatever the host sends: what a thread gets comes
   from the connection it belongs to; responses reach only the session id that made the call, at most one per
   call; every call is settled at most once, and is at work or promised until then; a response settles it only if it
   carries the call's own id and was delivered to the calling thread.
   */
  lemma BridgeCallsAreSafe(states: seq<State>, actions: seq<Action>, k: nat)
    requires Run(states, actions) && k < |states| && |states[k].calls| <= ID_SPACE
    ensures DeliveriesOk(states[k]) && SettlementsOk(states[k]) && CallsOk(states[k])
    ensures forall i {:trigger states[k].threads[i]} :: 0 <= i < |states[k].threads| ==>
      QueuesTraced(states[k], i, states[k].threads[i])
    ensures k + 1 < |states| && actions[k].StorePromise? ==>
      var t := states[k].threads[actions[k].thread];
      IdOf(t.pc.ordinal) !in t.promises
    ensures k + 1 < |states| && actions[k].BeginSync? ==>
      IdOf(|states[k].calls|) !in states[k].threads[actions[k].thread].pendingCalls
  {
    ReachableInv(states, actions, k);
    forall i | 0 <= i < |states[k].threads| ensures QueuesTraced(states[k], i, states[k].threads[i]) {
      assert ThreadOk(states[k], i);
    }
    if k + 1 < |states| && actions[k].BeginSync? {
      assert Enabled(states[k], actions[k]) && ThreadOk(states[k], actions[k].thread);
    }
    if k + 1 < |states| && actions[k].StorePromise? {
      assert Enabled(states[k], actions[k]);
      StoreNeverOverwrites(states[k], actions[k].thread);
    }
  }

  // ---- Who sends what to whom ----

  /** The action sends the command, on the connection and to the session id of thread i. */
  ghost predicate Sends(s: State, a: Action, i: nat, connection: nat, command: Command) {
    && i < |s.threads|
    && match a
       case HostMessage(c, sid, frame) => c == connection && sid == s.threads[i].sid && command == Message(frame)
       case HostResponse(c, frame) =>
         && c == connection && command == Message(frame)
         && frame.BridgeResponse? && frame.callId in s.router && s.router[frame.callId] == s.threads[i].sid
       case DestroySession(c_sid, c) => c == connection && c_sid == s.threads[i].sid && command == Shutdown
       case _ => false
  }

  /** Threads are only created by CreateSession, and commands only delivered by an action that sends them. */
  lemma OnlySentIsDelivered(s: State, a: Action)
    requires RegistryOk(s) && Enabled(s, a)
    ensures var s' := Step(s, a);
      && (forall m {:trigger s'.deliveries[m]} :: |s.deliveries| <= m < |s'.deliveries| ==>
            Sends(s, a, s'.deliveries[m].thread, s'.deliveries[m].connection, s'.deliveries[m].command))
      && (forall i {:trigger s'.threads[i]} :: |s.threads| <= i < |s'.threads| ==>
            a == Action.CreateSession(s'.threads[i].sid, s'.threads[i].connection))
  {
  }

  /** Every thread goes back to the CreateSession that asked for it, on the connection it belongs to. */
  lemma {:induction false} CreatedBy(states: seq<State>, actions: seq<Action>, k: nat, i: nat) returns (j: nat)
    requires Run(states, actions) && k < |states| && |states[k].calls| <= ID_SPACE && i < |states[k].threads|
    ensures j < k
    ensures actions[j] == Action.CreateSession(states[k].threads[i].sid, states[k].threads[i].connection)
    decreases k
  {
    j := RunStep(states, actions, k);
    OnlySentIsDelivered(states[j], actions[j]);
    if i < |states[j].threads| {
      ThreadsStay(states[j], actions[j], i);
      j := CreatedBy(states, actions, j, i);
    }
  }

  /** Every delivery goes back to an action that sent that very command on the receiving thread's connection. */
  lemma {:induction false} DeliveredBy(states: seq<State>, actions: seq<Action>, k: nat, m: nat) returns (j: nat)
    requires Run(states, actions) && k < |states| && |states[k].calls| <= ID_SPACE && m < |states[k].deliveries|
    ensures j < k && states[k].deliveries[m].thread < |states[k].threads|
    ensures var d := states[k].deliveries[m];
      Sends(states[j], actions[j], d.thread, states[k].threads[d.thread].connection, d.command)
    decreases k
  {
    j := RunStep(states, actions, k);
    OnlySentIsDelivered(states[j], actions[j]);
    ReachableInv(states, actions, k);
    if m < |states[j].deliveries| {
      ReachableInv(states, actions, j);
      ThreadsStay(states[j], actions[j], states[j].deliveries[m].thread);
      j := DeliveredBy(states, actions, j, m);
    }
  }

  /** The step before state k. */
  lemma RunStep(states: seq<State>, actions: seq<Action>, k: nat) returns (j: nat)
    requires Run(states, actions) && k < |states| && |states[k].calls| <= ID_SPACE
    requires states[k].threads != [] || states[k].deliveries != []
    ensures k == j + 1 && Enabled(states[j], actions[j]) && states[k] == Step(states[j], actions[j])
    ensures Inv(states[j]) && |states[j].calls| <= ID_SPACE && states[j].deliveries <= states[k].deliveries
  {
    j := k - 1;
    assert Enabled(states[j], actions[j]);
    StepOnlyAppends(states[j], actions[j]);
    ReachableInv(states, actions, j);
  }

  /** Conversely: what is sent to a live session on its own connection is put at the end of that session's channel.
      A response is, if its id is still routed to the session. */
  lemma SentIsDelivered(s: State, a: Action, sid: SessionId, command: Command)
    requires RegistryOk(s) && Enabled(s, a) && sid in s.registry
    requires var i := s.registry[sid]; Sends(s, a, i, s.threads[i].connection, command)
    ensures var (s', i) := (Step(s, a), s.registry[sid]);
      && s'.deliveries == s.deliveries + [Delivery(i, s.threads[i].connection, command)]
      && s'.threads == s.threads[i := s.threads[i].(channel := s.threads[i].channel + [command])]
      && s'.registry == (if a.DestroySession? then s.registry - {sid} else s.registry)
      && s'.router == (if a.HostResponse? then s.router - {a.frame.callId} else s.router)
  {
  }

  /** And what nobody is there for, or what comes from another connection, changes nothing, except that a response
      uses up the route of its id. */
  lemma StrangersAreRefused(s: State, a: Action)
    requires RegistryOk(s) && Enabled(s, a) && (a.HostMessage? || a.HostResponse? || a.DestroySession?)
    requires forall sid <- s.registry ::
      var i := s.registry[sid];
      forall command :: !Sends(s, a, i, s.threads[i].connection, command)
    ensures Step(s, a) == if a.HostResponse? then s.(router := s.router - {a.frame.callId}) else s
  {
    if a.HostResponse? {
      assert a.frame.callId !in s.router ==> s.router - {a.frame.callId} == s.router;
      forall sid <- s.registry
        ensures !Sends(s, a, s.registry[sid], s.threads[s.registry[sid]].connection, Message(a.frame)) {}
    }
    if a.HostMessage? {
      forall sid <- s.registry
        ensures !Sends(s, a, s.registry[sid], s.threads[s.registry[sid]].connection, Message(a.frame)) {}
    }
    if a.DestroySession? {
      forall sid <- s.registry
        ensures !Sends(s, a, s.registry[sid], s.threads[s.registry[sid]].connection, Shutdown) {}
    }
  }

  /** An id stays routed to its session until a response to it comes in. */
  lemma RoutesStay(s: State, a: Action, id: u64)
    requires Inv(s) && Enabled(s, a) && id in s.router
    requires !(a.HostResponse? && a.frame.callId == id)
    ensures id in Step(s, a).router && Step(s, a).router[id] == s.router[id]
  {
    if a.Route? {
      assert ThreadOk(s, a.thread);
    } else {
      OtherRoutesStay(s, a, id);
    }
  }

  lemma OtherRoutesStay(s: State, a: Action, id: u64)
    requires Enabled(s, a) && !a.Route? && id in s.router && !(a.HostResponse? && a.frame.callId == id)
    ensures id in Step(s, a).router && Step(s, a).router[id] == s.router[id]
  {
  }

  /** A response that is dispatched to the thread keeping the promise for its id settles that call there and then,
      and no other frame touches promises or settlements. */
  lemma DispatchSettles(s: State, a: Action, f: Frame)
    requires Inv(s) && |s.calls| <= ID_SPACE && Enabled(s, a)
    requires (a.DispatchNext? && s.threads[a.thread].channel[0] == Message(f))
          || (a.DispatchDrained? && s.threads[a.thread].drained[0] == f)
    ensures var (s', p) := (Step(s, a), s.threads[a.thread].promises);
      if f.BridgeResponse? && f.callId in p
      then s'.settlements == s.settlements + [ByResponse(OrdinalOf(f.callId), a.thread, f)]
           && s'.threads[a.thread].promises == p - {f.callId}
      else s'.settlements == s.settlements && s'.threads[a.thread].promises == p
  {
    PromisesByOrdinal(s, a.thread);
  }

  lemma PromisesByOrdinal(s: State, i: nat)
    requires Inv(s) && |s.calls| <= ID_SPACE && i < |s.threads|
    ensures forall id <- s.threads[i].promises :: s.threads[i].promises[id] == OrdinalOf(id)
  {
    assert ThreadOk(s, i);
    forall id <- s.threads[i].promises ensures s.threads[i].promises[id] == OrdinalOf(id) {
      IdsAreDistinct(0, s.threads[i].promises[id]);
    }
  }
}
