/**
 What the session event loop does, as functions on its state and history, and the laws of that. JavaScript is the
 environment: whenever the loop dispatches a frame or runs a microtask checkpoint, the next burst of JavaScript
 happens, and a burst may make nested sync calls (which read the same channel), start async calls, settle or open
 evaluations and throw. Bursts and polls are arbitrary finite sequences, so the laws speak of every behaviour of the
 sandboxed program and of every arrival order.
 */
module EventLoop {
  import opened Frames
  import opened HostCall
  import TextOps

  datatype JsAction =
    | SyncCall(callId: u64, abortAfter: Option<nat>)
    | AsyncCall(callId: u64)
    | ModuleEvaluation(pending: bool)
    | ScriptEvaluation(pending: bool)

  datatype Burst = Burst(actions: seq<JsAction>, throws: bool)

  /** What one millisecond of waiting brings. */
  datatype Poll = Ready | Quiet | Abort

  /** StillRunning: the polls ran out with the loop still going. */
  datatype Status = Completed | Terminated | Failed | StillRunning

  /** How often a frame is in a channel. */
  function Carried(channel: seq<Command>, f: Frame): nat {
    if channel == [] then 0 else (if channel[0] == Message(f) then 1 else 0) + Carried(channel[1..], f)
  }

  /** How often it is among frames. */
  function Count(frames: seq<Frame>, f: Frame): nat {
    if frames == [] then 0 else Count(frames[..|frames| - 1], f) + if frames[|frames| - 1] == f then 1 else 0
  }

  lemma {:induction false} CountConcat(a: seq<Frame>, b: seq<Frame>, f: Frame)
    ensures Count(a + b, f) == Count(a, f) + Count(b, f)
    decreases |b|
  {
    if b == [] {
      assert a + b == a;
    } else {
      CountConcat(a, b[..|b| - 1], f);
      assert (a + b)[..|a + b| - 1] == a + b[..|b| - 1];
    }
  }

  lemma CountOne(g: Frame, f: Frame)
    ensures Count([g], f) == if g == f then 1 else 0
  {
    assert [g][..0] == [];
  }

  lemma CountFirst(frames: seq<Frame>, f: Frame)
    requires frames != []
    ensures Count(frames, f) == (if frames[0] == f then 1 else 0) + Count(frames[1..], f)
  {
    assert frames == [frames[0]] + frames[1..];
    CountConcat([frames[0]], frames[1..], f);
    CountOne(frames[0], f);
  }

  /** A blocking receive neither loses nor invents frames. */
  lemma {:induction false} ScanConserves(channel: seq<Command>, callId: u64, abortAfter: Option<nat>, f: Frame)
    ensures var s := Scan(channel, callId, abortAfter);
      Carried(channel, f) == Count(s.setAside, f) + Carried(s.rest, f) + (if s.result == Ok(f) then 1 else 0)
  {
    if abortAfter != Some(0) && channel != [] && channel[0].Message? && !Answers(channel[0].frame, callId) {
      ScanConserves(channel[1..], callId, Earlier(abortAfter), f);
      var later := Scan(channel[1..], callId, Earlier(abortAfter));
      CountConcat([channel[0].frame], later.setAside, f);
      CountOne(channel[0].frame, f);
    }
  }

  /** The same, with the deferred queue that takes what is set aside. */
  lemma SyncConserves(channel: seq<Command>, deferred: seq<Frame>, callId: u64, abortAfter: Option<nat>, f: Frame)
    ensures var s := Scan(channel, callId, abortAfter);
      Carried(channel, f) + Count(deferred, f)
      == Carried(s.rest, f) + Count(deferred + s.setAside, f) + (if s.result == Ok(f) then 1 else 0)
  {
    ScanConserves(channel, callId, abortAfter, f);
    CountConcat(deferred, Scan(channel, callId, abortAfter).setAside, f);
  }

  // ---- Histories ----

  /** A nested sync call that was made: the response it took off the channel and the frames it set aside. */
  datatype CallRecord = CallRecord(callId: u64, answer: Option<Frame>, setAside: seq<Frame>)

  /** Each call took nothing or a response to itself. */
  ghost predicate OwnAnswers(calls: seq<CallRecord>) {
    forall c <- calls :: c.answer.Some? ==> Answers(c.answer.value, c.callId)
  }

  /** How often a frame was taken by a sync call. */
  function Taken(calls: seq<CallRecord>, f: Frame): nat {
    if calls == [] then 0 else Taken(calls[..|calls| - 1], f) + if calls[|calls| - 1].answer == Some(f) then 1 else 0
  }

  function CallIds(calls: seq<CallRecord>): (ids: seq<u64>)
    ensures |ids| == |calls|
  {
    if calls == [] then [] else CallIds(calls[..|calls| - 1]) + [calls[|calls| - 1].callId]
  }

  /** Everything calls set aside, in order. */
  function Aside(calls: seq<CallRecord>): seq<Frame> {
    if calls == [] then [] else Aside(calls[..|calls| - 1]) + calls[|calls| - 1].setAside
  }

  lemma OneMoreCall(calls: seq<CallRecord>, c: CallRecord)
    ensures CallIds(calls + [c]) == CallIds(calls) + [c.callId]
    ensures Aside(calls + [c]) == Aside(calls) + c.setAside
  {
    assert (calls + [c])[..|calls|] == calls;
  }

  lemma OneMoreTaken(calls: seq<CallRecord>, c: CallRecord, f: Frame)
    ensures Taken(calls + [c], f) == Taken(calls, f) + if c.answer == Some(f) then 1 else 0
  {
    assert (calls + [c])[..|calls|] == calls;
  }

  /** What one call adds to the records. */
  lemma NewCall(before: seq<CallRecord>, c: CallRecord, deferred: seq<Frame>)
    ensures var calls := before + [c];
      calls[|before|..] == [c] && deferred + Aside(calls[|before|..]) == deferred + c.setAside
  {
    assert [c][..0] == [];
  }

  lemma NoCall(calls: seq<CallRecord>, deferred: seq<Frame>)
    ensures calls[|calls|..] == [] && deferred + Aside(calls[|calls|..]) == deferred
  {
  }

  lemma {:induction false} AsideConcat(a: seq<CallRecord>, b: seq<CallRecord>)
    ensures Aside(a + b) == Aside(a) + Aside(b)
    decreases |b|
  {
    if b == [] {
      assert a + b == a;
    } else {
      var front, last := b[..|b| - 1], b[|b| - 1];
      AsideConcat(a, front);
      assert b == front + [last] && a + b == (a + front) + [last];
      OneMoreCall(front, last);
      OneMoreCall(a + front, last);
      TextOps.Assoc(Aside(a), Aside(front), last.setAside);
    }
  }

  /** One stretch of calls after another. */
  lemma CallsAdded(c0: seq<CallRecord>, c1: seq<CallRecord>, c2: seq<CallRecord>, deferred: seq<Frame>)
    requires c0 <= c1 <= c2 && OwnAnswers(c1[|c0|..]) && OwnAnswers(c2[|c1|..])
    ensures OwnAnswers(c2[|c0|..])
    ensures deferred + Aside(c1[|c0|..]) + Aside(c2[|c1|..]) == deferred + Aside(c2[|c0|..])
  {
    assert c2[|c0|..] == c1[|c0|..] + c2[|c1|..];
    AsideConcat(c1[|c0|..], c2[|c1|..]);
  }

  /** What happens to the loop. */
  datatype Event =
    | Polled                    // it waited a millisecond for a command
    | Checkpoint                // microtasks were run
    | Dispatched(frame: Frame)
    | ShutDown                  // a Shutdown command was taken

  /** A promise was resolved or rejected. */
  datatype Settlement = Settlement(callId: u64, outcome: Result<Option<seq<byte>>, Error>)

  /** What JavaScript and the loop's waiting depend on: pending promises, unsettled evaluations, the sync calls made and
      the promises settled so far, the JavaScript and the polls still to come. */
  datatype Js = Js(promises: set<u64>, moduleWaits: bool, scriptWaits: bool, made: seq<u64>, settled: seq<Settlement>,
                   bursts: seq<Burst>, polls: seq<Poll>)

  function ActOn(js: Js, a: JsAction): Js {
    match a
    case SyncCall(id, _) => js.(made := js.made + [id])
    case AsyncCall(id) => js.(promises := js.promises + {id})
    case ModuleEvaluation(pending) => js.(moduleWaits := pending)
    case ScriptEvaluation(pending) => js.(scriptWaits := pending)
  }

  function ActAll(js: Js, actions: seq<JsAction>): Js
    decreases |actions|
  {
    if actions == [] then js else ActOn(ActAll(js, actions[..|actions| - 1]), actions[|actions| - 1])
  }

  /** The next burst runs, if there is one. */
  function RunNext(js: Js): Js {
    if js.bursts == [] then js else ActAll(js.(bursts := js.bursts[1..]), js.bursts[0].actions)
  }

  /** The frames that JavaScript gets to see: responses to pending promises and stream events. */
  predicate Reacts(js: Js, f: Frame) { (f.BridgeResponse? && f.callId in js.promises) || f.StreamEvent? }

  /** A response takes its promise away and settles it. */
  function Settled(js: Js, f: Frame): Js {
    if f.BridgeResponse? then
      js.(promises := js.promises - {f.callId}, settled := js.settled + [Settlement(f.callId, Interpret(f))])
    else js
  }

  function Step(js: Js, e: Event): Js {
    match e
    case Polled => js.(polls := if js.polls == [] then [] else js.polls[1..])
    case Checkpoint => RunNext(js)
    case Dispatched(f) => if Reacts(js, f) then RunNext(Settled(js, f)) else js
    case ShutDown => js
  }

  function Replay(js: Js, events: seq<Event>): Js
    decreases |events|
  {
    if events == [] then js else Step(Replay(js, events[..|events| - 1]), events[|events| - 1])
  }

  /** The status an event gives the loop; Completed lets it go on. */
  function Ending(js: Js, e: Event): Status {
    match e
    case Polled => if js.polls != [] && js.polls[0] == Abort then Terminated else Completed
    case Checkpoint => Completed
    case Dispatched(f) =>
      if f.TerminateExecution? then Terminated
      else if f.StreamEvent? && js.bursts != [] && js.bursts[0].throws then Failed
      else Completed
    case ShutDown => Terminated
  }

  /** None of the events ends the loop. */
  predicate GoesOn(js: Js, events: seq<Event>)
    decreases |events|
  {
    events == [] ||
    (var front := events[..|events| - 1];
     GoesOn(js, front) && Ending(Replay(js, front), events[|events| - 1]) == Completed)
  }

  /** Terminated and Failed come of the last event and of no earlier one; otherwise no event ends the loop. */
  predicate EndsBy(js: Js, events: seq<Event>, status: Status) {
    if status == Completed || status == StillRunning then GoesOn(js, events)
    else
      events != [] &&
      (var front := events[..|events| - 1];
       GoesOn(js, front) && Ending(Replay(js, front), events[|events| - 1]) == status)
  }

  predicate EndsInDispatch(events: seq<Event>) { events != [] && events[|events| - 1].Dispatched? }

  lemma {:induction false} ReplayConcat(js: Js, a: seq<Event>, b: seq<Event>)
    ensures Replay(js, a + b) == Replay(Replay(js, a), b)
    ensures GoesOn(js, a) && GoesOn(Replay(js, a), b) ==> GoesOn(js, a + b)
    decreases |b|
  {
    if b == [] {
      assert a + b == a;
    } else {
      ReplayConcat(js, a, b[..|b| - 1]);
      assert (a + b)[..|a + b| - 1] == a + b[..|b| - 1];
    }
  }

  lemma OneEvent(js: Js, e: Event)
    ensures Replay(js, [e]) == Step(js, e) && EndsBy(js, [e], Ending(js, e))
  {
    assert [e][..0] == [];
  }

  lemma ReplayOne(js: Js, es: seq<Event>, e: Event)
    ensures Replay(js, es + [e]) == Step(Replay(js, es), e)
    ensures GoesOn(js, es) ==> EndsBy(js, es + [e], Ending(Replay(js, es), e))
  {
    assert (es + [e])[..|es|] == es;
  }

  /** One stretch of events after another. */
  lemma WentTwice(j0: Js, j1: Js, j2: Js, e0: seq<Event>, e1: seq<Event>, e2: seq<Event>, status: Status)
    requires e0 <= e1 <= e2
    requires j1 == Replay(j0, e1[|e0|..]) && GoesOn(j0, e1[|e0|..])
    requires j2 == Replay(j1, e2[|e1|..]) && EndsBy(j1, e2[|e1|..], status)
    ensures j2 == Replay(j0, e2[|e0|..]) && EndsBy(j0, e2[|e0|..], status)
  {
    var a, b := e1[|e0|..], e2[|e1|..];
    assert e2[|e0|..] == a + b;
    ReplayConcat(j0, a, b);
    if b != [] {
      ReplayConcat(j0, a, b[..|b| - 1]);
      assert (a + b)[..|a + b| - 1] == a + b[..|b| - 1];
    }
  }

  lemma NothingYet(js: Js, events: seq<Event>, calls: seq<CallRecord>)
    ensures events[|events|..] == [] && calls[|calls|..] == [] && Replay(js, []) == js && EndsBy(js, [], Completed)
    ensures events + Dispatches([]) == events
  {
  }

  function Dispatches(frames: seq<Frame>): (es: seq<Event>)
    ensures |es| == |frames|
  {
    if frames == [] then [] else Dispatches(frames[..|frames| - 1]) + [Dispatched(frames[|frames| - 1])]
  }

  /** How often a frame was dispatched. */
  function Sent(events: seq<Event>, f: Frame): nat {
    if events == [] then 0 else Sent(events[..|events| - 1], f) + if events[|events| - 1] == Dispatched(f) then 1 else 0
  }

  lemma OneMoreEvent(events: seq<Event>, e: Event, f: Frame)
    ensures Sent(events + [e], f) == Sent(events, f) + if e == Dispatched(f) then 1 else 0
  {
    assert (events + [e])[..|events|] == events;
  }

  /** Commands were only taken off the front. */
  predicate Suffix(before: seq<Command>, after: seq<Command>) {
    |after| <= |before| && after == before[|before| - |after|..]
  }

  /** And this one was the last. */
  predicate TookLast(before: seq<Command>, after: seq<Command>, command: Command) {
    |after| < |before| && after == before[|before| - |after|..] && before[|before| - |after| - 1] == command
  }

  lemma ScanSuffix(channel: seq<Command>, callId: u64, abortAfter: Option<nat>)
    ensures Suffix(channel, Scan(channel, callId, abortAfter).rest)
  {
    ScanSplitsTheChannel(channel, callId, abortAfter);
  }

  /** The frame in hand, if there is one. */
  function Held(frame: Option<Frame>): seq<Frame> { if frame.Some? then [frame.value] else [] }

  /** The state of the loop with its histories. hand holds the frames that were taken to be dispatched and are not
      dispatched yet; dropped holds those that an early exit threw away. */
  datatype Snapshot = Snapshot(
    js: Js, channel: seq<Command>, deferred: seq<Frame>, hand: seq<Frame>,
    events: seq<Event>, calls: seq<CallRecord>, dropped: seq<Frame>)

  /** How often the session has or had a frame: in the channel, deferred, in hand, dispatched, taken by the sync
      call it answers, or dropped when the loop was cut short. */
  function Accounted(s: Snapshot, f: Frame): nat {
    Carried(s.channel, f) + Count(s.deferred, f) + Count(s.hand, f) + Sent(s.events, f) + Taken(s.calls, f)
    + Count(s.dropped, f)
  }

  /** No frame was lost or made up. */
  ghost predicate Conserves(a: Snapshot, b: Snapshot) { forall f :: Accounted(a, f) == Accounted(b, f) }

  /** b is n calls after a: histories only grow, commands are only taken, calls take only responses to themselves,
      no frame is lost. */
  ghost predicate GrowsBy(a: Snapshot, b: Snapshot, n: nat) {
    && |b.calls| == |a.calls| + n && a.events <= b.events && a.calls <= b.calls && a.dropped <= b.dropped
    && OwnAnswers(b.calls[|a.calls|..]) && Suffix(a.channel, b.channel) && Conserves(a, b)
  }

  ghost predicate Grows(a: Snapshot, b: Snapshot) { exists n: nat :: GrowsBy(a, b, n) }

  /** b, moreover, is n events after a: its state is what they make of that at a, and the status comes of them. The
      loop is shut down only by a Shutdown command, the last one taken. */
  ghost predicate LeadsBy(a: Snapshot, b: Snapshot, status: Status, n: nat) {
    && |b.events| == |a.events| + n && Grows(a, b) && a.events <= b.events
    && b.js == Replay(a.js, b.events[|a.events|..]) && EndsBy(a.js, b.events[|a.events|..], status)
    && (n > 0 && b.events[|b.events| - 1] == ShutDown ==> TookLast(a.channel, b.channel, Shutdown))
  }

  ghost predicate Leads(a: Snapshot, b: Snapshot, status: Status) { exists n: nat :: LeadsBy(a, b, status, n) }

  function RecordOf(id: u64, s: Scanned): CallRecord {
    CallRecord(id, if s.result.Ok? then Some(s.result.value) else None, s.setAside)
  }

  /** A sync call took what its scan says. */
  lemma GrowsByCall(a: Snapshot, b: Snapshot, id: u64, abortAfter: Option<nat>)
    requires var s := Scan(a.channel, id, abortAfter);
      b == a.(js := b.js, channel := s.rest, deferred := a.deferred + s.setAside, calls := a.calls + [RecordOf(id, s)])
    ensures Grows(a, b)
  {
    var c := RecordOf(id, Scan(a.channel, id, abortAfter));
    ScanSplitsTheChannel(a.channel, id, abortAfter);
    ScanSuffix(a.channel, id, abortAfter);
    NewCall(a.calls, c, []);
    forall f ensures Accounted(a, f) == Accounted(b, f) {
      SyncConserves(a.channel, a.deferred, id, abortAfter, f);
      OneMoreTaken(a.calls, c, f);
    }
    assert GrowsBy(a, b, 1);
  }

  /** An event other than a dispatch goes on record. */
  lemma LogConserves(a: Snapshot, e: Event)
    requires !e.Dispatched?
    ensures Conserves(a, a.(events := a.events + [e]))
  {
    var b := a.(events := a.events + [e]);
    forall f ensures Accounted(a, f) == Accounted(b, f) { OneMoreEvent(a.events, e, f); }
  }

  /** The first frame in hand goes on record as dispatched. */
  lemma DispatchConserves(a: Snapshot)
    requires a.hand != []
    ensures Conserves(a, a.(hand := a.hand[1..], events := a.events + [Dispatched(a.hand[0])]))
  {
    var b := a.(hand := a.hand[1..], events := a.events + [Dispatched(a.hand[0])]);
    forall f ensures Accounted(a, f) == Accounted(b, f) {
      CountFirst(a.hand, f);
      OneMoreEvent(a.events, Dispatched(a.hand[0]), f);
    }
  }

  lemma GrowsByJs(a: Snapshot, js: Js)
    ensures Grows(a, a.(js := js))
  {
    assert GrowsBy(a, a.(js := js), 0);
  }

  /** No call was made and no command taken. */
  lemma GrowsInPlace(a: Snapshot, b: Snapshot)
    requires b == a.(js := b.js, deferred := b.deferred, hand := b.hand, events := b.events, dropped := b.dropped)
    requires a.events <= b.events && a.dropped <= b.dropped && Conserves(a, b)
    ensures Grows(a, b)
  {
    assert b.calls[|a.calls|..] == [] && GrowsBy(a, b, 0);
  }

  lemma GrowsTwice(a: Snapshot, b: Snapshot, c: Snapshot)
    requires Grows(a, b) && Grows(b, c)
    ensures Grows(a, c)
  {
    CallsAdded(a.calls, b.calls, c.calls, []);
    forall f ensures Accounted(a, f) == Accounted(c, f) { assert Accounted(a, f) == Accounted(b, f); }
    assert GrowsBy(a, c, |c.calls| - |a.calls|);
  }

  lemma LeadsTwice(a: Snapshot, b: Snapshot, c: Snapshot, status: Status)
    requires Leads(a, b, Completed) && Leads(b, c, status)
    ensures Leads(a, c, status)
  {
    GrowsTwice(a, b, c);
    WentTwice(a.js, b.js, c.js, a.events, b.events, c.events, status);
    assert LeadsBy(a, c, status, |c.events| - |a.events|);
  }

  lemma LeadsStill(a: Snapshot, b: Snapshot)
    requires Leads(a, b, Completed)
    ensures Leads(a, b, StillRunning)
  {
    assert LeadsBy(a, b, StillRunning, |b.events| - |a.events|);
  }

  lemma LeadsNowhere(a: Snapshot)
    ensures Leads(a, a, Completed)
  {
    NothingYet(a.js, a.events, a.calls);
    assert GrowsBy(a, a, 0) && LeadsBy(a, a, Completed, 0);
  }

  /** One event, from the moment it goes on record until its consequences are there. */
  lemma LeadsByEvent(a: Snapshot, b: Snapshot, c: Snapshot, e: Event)
    requires e != ShutDown && Conserves(a, b) && b == a.(js := b.js, hand := b.hand, events := a.events + [e])
    requires Grows(b, c) && c.events == b.events && c.js == Step(a.js, e)
    ensures Leads(a, c, Ending(a.js, e))
  {
    OneEvent(a.js, e);
    assert c.events[|a.events|..] == [e];
    assert Grows(a, c) by {
      GrowsInPlace(a, b);
      GrowsTwice(a, b, c);
    }
    assert LeadsBy(a, c, Ending(a.js, e), 1);
  }

  /** A Shutdown command was taken and the loop ends. */
  lemma LeadsToShutDown(a: Snapshot, b: Snapshot, c: Snapshot)
    requires Leads(a, b, Completed) && TookLast(a.channel, b.channel, Shutdown)
    requires c == b.(events := b.events + [ShutDown])
    ensures Leads(a, c, Terminated)
  {
    var es := b.events[|a.events|..];
    ReplayOne(a.js, es, ShutDown);
    assert c.events[|a.events|..] == es + [ShutDown];
    assert Grows(a, c) by {
      LogConserves(b, ShutDown);
      GrowsInPlace(b, c);
      GrowsTwice(a, b, c);
    }
    assert LeadsBy(a, c, Terminated, |es| + 1);
  }

  /** While nothing else happens, the deferred queue is taken in hand, */
  lemma LeadsByDrain(a: Snapshot)
    requires a.hand == []
    ensures Leads(a, a.(deferred := [], hand := a.deferred), Completed)
  {
    var b := a.(deferred := [], hand := a.deferred);
    NothingYet(a.js, a.events, a.calls);
    assert GrowsBy(a, b, 0) && LeadsBy(a, b, Completed, 0);
  }

  /** or the frame of the next command, */
  lemma LeadsByTake(a: Snapshot)
    requires a.hand == [] && a.channel != []
    ensures var c := a.channel[0];
      Leads(a, a.(channel := a.channel[1..], hand := if c.Message? then [c.frame] else []), Completed)
  {
    NothingYet(a.js, a.events, a.calls);
    var b := a.(channel := a.channel[1..], hand := if a.channel[0].Message? then [a.channel[0].frame] else []);
    forall f ensures Accounted(a, f) == Accounted(b, f) {
      if a.channel[0].Message? { CountOne(a.channel[0].frame, f); }
    }
    assert GrowsBy(a, b, 0) && LeadsBy(a, b, Completed, 0);
  }

  /** or what is in hand is dropped. */
  lemma LeadsByDrop(a: Snapshot, b: Snapshot, status: Status)
    requires Leads(a, b, status)
    ensures Leads(a, b.(hand := [], dropped := b.dropped + b.hand), status)
  {
    var c := b.(hand := [], dropped := b.dropped + b.hand);
    assert Grows(a, c) by {
      forall f ensures Accounted(b, f) == Accounted(c, f) { CountConcat(b.dropped, b.hand, f); }
      GrowsInPlace(b, c);
      GrowsTwice(a, b, c);
    }
    assert LeadsBy(a, c, status, |c.events| - |a.events|);
  }

  // ---- What the loop does ----

  /** A state, and the status a part of the loop ended with; Completed also where the loop goes on. */
  datatype Ran = Ran(s: Snapshot, status: Status)

  /** Something is pending: the loop has a reason to wait. */
  predicate Waits(js: Js) { js.promises != {} || js.moduleWaits || js.scriptWaits }

  /** Nothing is pending and nothing deferred. */
  predicate Finished(s: Snapshot) { !Waits(s.js) && s.deferred == [] }

  /** A nested sync call. */
  function Called(s: Snapshot, id: u64, abortAfter: Option<nat>): Snapshot {
    var scanned := Scan(s.channel, id, abortAfter);
    s.(js := s.js.(made := s.js.made + [id]), channel := scanned.rest, deferred := s.deferred + scanned.setAside,
       calls := s.calls + [RecordOf(id, scanned)])
  }

  function Acted(s: Snapshot, a: JsAction): Snapshot {
    match a case SyncCall(id, abortAfter) => Called(s, id, abortAfter) case _ => s.(js := ActOn(s.js, a))
  }

  /** JavaScript does not touch what the loop has in hand, its history, or the waiting to come. */
  predicate JavaScriptOnly(s: Snapshot, r: Snapshot) {
    && r == s.(js := r.js, channel := r.channel, deferred := r.deferred, calls := r.calls)
    && r.js.polls == s.js.polls
  }

  function ActedAll(s: Snapshot, actions: seq<JsAction>): (r: Snapshot)
    ensures JavaScriptOnly(s, r)
    decreases |actions|
  {
    if actions == [] then s else Acted(ActedAll(s, actions[..|actions| - 1]), actions[|actions| - 1])
  }

  /** Whatever JavaScript comes next has run. */
  function Bursted(s: Snapshot): (r: Snapshot)
    ensures JavaScriptOnly(s, r)
  {
    if s.js.bursts == [] then s else ActedAll(s.(js := s.js.(bursts := s.js.bursts[1..])), s.js.bursts[0].actions)
  }

  function Logged(s: Snapshot, e: Event): Snapshot { s.(events := s.events + [e]) }

  /** A microtask checkpoint. */
  function Checked(s: Snapshot): Snapshot { Bursted(Logged(s, Checkpoint)) }

  /** Frame f, which was in hand, goes on record. */
  function Spent(s: Snapshot, f: Frame): Snapshot
    requires s.hand != []
  {
    Logged(s, Dispatched(f)).(hand := s.hand[1..])
  }

  function Reacted(s: Snapshot, f: Frame): (r: Snapshot)
    ensures JavaScriptOnly(s, r)
  {
    if Reacts(s.js, f) then Bursted(s.(js := Settled(s.js, f))) else s
  }

  /** The first frame in hand is dispatched. */
  function DispatchedOne(s: Snapshot): Snapshot
    requires s.hand != []
  {
    Reacted(Spent(s, s.hand[0]), s.hand[0])
  }

  /** The frames in hand are dispatched until one ends the loop. */
  function DispatchedHand(s: Snapshot): (r: Ran)
    ensures r.status == Completed ==> r.s.hand == []
    ensures r.s.js.polls == s.js.polls
    decreases |s.hand|
  {
    if s.hand == [] then Ran(s, Completed)
    else
      var status, next := Ending(s.js, Dispatched(s.hand[0])), DispatchedOne(s);
      if status != Completed then Ran(next, status) else DispatchedHand(next)
  }

  /** What was in hand is dropped. */
  function Dropped(s: Snapshot): Snapshot { s.(hand := [], dropped := s.dropped + s.hand) }

  /** What is deferred is dispatched; what is left of it when the loop ends is dropped. */
  function Drained(s: Snapshot): (r: Ran)
    ensures s.hand == [] ==> r.s.hand == [] && r.s.js.polls == s.js.polls
  {
    var r := DispatchedHand(s.(deferred := [], hand := s.deferred));
    if r.status == Completed then r else Ran(Dropped(r.s), r.status)
  }

  /** Up to n microtask checkpoints, until something is deferred. */
  function Flushed(s: Snapshot, n: nat): (r: Snapshot)
    ensures r.hand == s.hand && r.js.polls == s.js.polls && r.dropped == s.dropped
    decreases n
  {
    if n == 0 then s
    else
      var next := Checked(s);
      if next.deferred != [] then next else Flushed(next, n - 1)
  }

  /** Nothing came in: JavaScript gets a turn, and what is deferred then is dispatched. */
  function Idled(s: Snapshot): (r: Ran)
    ensures s.hand == [] ==> r.s.hand == [] && r.s.js.polls == s.js.polls
  {
    var next := Checked(s);
    if next.deferred != [] then Drained(next) else Ran(next, Completed)
  }

  function Polling(s: Snapshot): Snapshot
    requires s.js.polls != []
  {
    Logged(s, Polled).(js := s.js.(polls := s.js.polls[1..]))
  }

  /** The next command is received: a frame is in hand then, a Shutdown ends the loop. */
  function Received(s: Snapshot): Ran
    requires s.channel != []
  {
    var rest := s.(channel := s.channel[1..]);
    match s.channel[0]
    case Message(f) => Ran(rest.(hand := [f]), Completed)
    case Shutdown => Ran(Logged(rest, ShutDown), Terminated)
  }

  /** A millisecond of waiting. */
  function AwaitedOnce(s: Snapshot): (r: Ran)
    requires s.js.polls != [] && s.hand == []
    ensures r.s.js.polls == s.js.polls[1..] && |r.s.hand| <= 1 && (r.s.hand != [] ==> r.status == Completed)
  {
    var next := Polling(s);
    if s.js.polls[0] == Abort then Ran(next, Terminated)
    else if s.js.polls[0] == Ready && s.channel != [] then Received(next)
    else Idled(next)
  }

  /** Waiting until a frame is in hand or the loop ends. */
  function Awaited(s: Snapshot): (r: Ran)
    requires s.hand == []
    ensures |r.s.js.polls| <= |s.js.polls| && |r.s.hand| <= 1 && (r.s.hand != [] ==> r.status == Completed)
    ensures r.s.hand != [] ==> |r.s.js.polls| < |s.js.polls|
    decreases |s.js.polls|
  {
    if s.js.polls == [] then Ran(s, StillRunning)
    else
      var r := AwaitedOnce(s);
      if r.s.hand != [] || r.status != Completed || Finished(r.s) then r else Awaited(r.s)
  }

  /** A turn of the loop; over tells that the loop ends with it. */
  datatype Turn = Turn(ran: Ran, over: bool)

  /** First what is deferred, then microtasks. */
  function Prepared(s: Snapshot): (t: Turn)
    requires s.hand == []
    ensures t.ran.s.hand == [] && t.ran.s.js.polls == s.js.polls
  {
    var r := Drained(s);
    if r.status != Completed || !Waits(r.s.js) then Turn(r, true)
    else
      var flushed := Flushed(r.s, 100);
      Turn(Ran(flushed, Completed), Finished(flushed))
  }

  /** Then a frame is received and dispatched. */
  function Served(s: Snapshot): (t: Turn)
    requires s.hand == []
    ensures t.ran.s.hand == [] && (!t.over ==> t.ran.status == Completed && |t.ran.s.js.polls| < |s.js.polls|)
  {
    var r := Awaited(s);
    if r.s.hand == [] then Turn(r, true)
    else
      var status := Ending(r.s.js, Dispatched(r.s.hand[0]));
      Turn(Ran(DispatchedOne(r.s), status), status != Completed)
  }

  function Turned(s: Snapshot): (t: Turn)
    requires s.hand == []
    ensures t.ran.s.hand == [] && (!t.over ==> t.ran.status == Completed && |t.ran.s.js.polls| < |s.js.polls|)
  {
    var t := Prepared(s);
    if t.over then t else Served(t.ran.s)
  }

  /** run_event_loop */
  function Looped(s: Snapshot): Ran
    requires s.hand == []
    decreases |s.js.polls|
  {
    if Finished(s) then Ran(s, Completed)
    else
      var t := Turned(s);
      if t.over then t.ran else Looped(t.ran.s)
  }

  // ---- Its laws: nothing is lost, and the history tells everything ----

  lemma CalledGrows(s: Snapshot, id: u64, abortAfter: Option<nat>)
    ensures var r := Called(s, id, abortAfter);
      && Grows(s, r) && r.deferred == s.deferred + Aside(r.calls[|s.calls|..])
      && r.js == s.js.(made := s.js.made + [id])
  {
    var c := RecordOf(id, Scan(s.channel, id, abortAfter));
    GrowsByCall(s, Called(s, id, abortAfter), id, abortAfter);
    NewCall(s.calls, c, s.deferred);
  }

  lemma ActedGrows(s: Snapshot, a: JsAction)
    ensures var r := Acted(s, a);
      Grows(s, r) && r.deferred == s.deferred + Aside(r.calls[|s.calls|..]) && r.js == ActOn(s.js, a)
  {
    match a
    case SyncCall(id, abortAfter) => CalledGrows(s, id, abortAfter);
    case _ =>
      GrowsByJs(s, ActOn(s.js, a));
      NoCall(s.calls, s.deferred);
  }

  lemma {:induction false} ActedAllGrows(s: Snapshot, actions: seq<JsAction>)
    ensures var r := ActedAll(s, actions);
      Grows(s, r) && r.deferred == s.deferred + Aside(r.calls[|s.calls|..]) && r.js == ActAll(s.js, actions)
    decreases |actions|
  {
    if actions == [] {
      GrowsByJs(s, s.js);
      NoCall(s.calls, s.deferred);
    } else {
      var front := ActedAll(s, actions[..|actions| - 1]);
      ActedAllGrows(s, actions[..|actions| - 1]);
      ActedGrows(front, actions[|actions| - 1]);
      var r := ActedAll(s, actions);
      GrowsTwice(s, front, r);
      CallsAdded(s.calls, front.calls, r.calls, s.deferred);
    }
  }

  /** A burst of JavaScript performs its actions in order; the deferred queue grows by exactly what its sync calls set
      aside, and no frame is lost. */
  lemma BurstedGrows(s: Snapshot)
    ensures var r := Bursted(s);
      Grows(s, r) && r.deferred == s.deferred + Aside(r.calls[|s.calls|..]) && r.js == RunNext(s.js)
  {
    if s.js.bursts == [] {
      GrowsByJs(s, s.js);
      NoCall(s.calls, s.deferred);
    } else {
      var next := s.(js := s.js.(bursts := s.js.bursts[1..]));
      GrowsByJs(s, next.js);
      ActedAllGrows(next, s.js.bursts[0].actions);
      GrowsTwice(s, next, Bursted(s));
    }
  }

  lemma CheckedLeads(s: Snapshot)
    ensures var r := Checked(s);
      && Leads(s, r, Completed) && r.js == RunNext(s.js) && r.events == s.events + [Checkpoint]
      && r.deferred == s.deferred + Aside(r.calls[|s.calls|..])
  {
    LogConserves(s, Checkpoint);
    BurstedGrows(Logged(s, Checkpoint));
    LeadsByEvent(s, Logged(s, Checkpoint), Checked(s), Checkpoint);
  }

  lemma ReactedGrows(s: Snapshot, f: Frame)
    ensures Grows(s, Reacted(s, f)) && Reacted(s, f).js == Step(s.js, Dispatched(f))
  {
    if Reacts(s.js, f) {
      var settled := s.(js := Settled(s.js, f));
      GrowsByJs(s, settled.js);
      BurstedGrows(settled);
      GrowsTwice(s, settled, Reacted(s, f));
    } else {
      GrowsByJs(s, s.js);
    }
  }

  lemma DispatchedOneLeads(s: Snapshot)
    requires s.hand != []
    ensures Leads(s, DispatchedOne(s), Ending(s.js, Dispatched(s.hand[0])))
    ensures DispatchedOne(s).events == s.events + [Dispatched(s.hand[0])] && DispatchedOne(s).hand == s.hand[1..]
  {
    var f := s.hand[0];
    DispatchConserves(s);
    ReactedGrows(Spent(s, f), f);
    LeadsByEvent(s, Spent(s, f), DispatchedOne(s), Dispatched(f));
  }

  lemma DispatchesFirst(before: seq<Event>, frames: seq<Frame>, n: nat)
    requires 0 < n <= |frames|
    ensures before + [Dispatched(frames[0])] + Dispatches(frames[1..][..n - 1]) == before + Dispatches(frames[..n])
  {
    DispatchesCons(frames[0], frames[1..][..n - 1]);
    assert [frames[0]] + frames[1..][..n - 1] == frames[..n];
  }

  lemma {:induction false} DispatchesCons(f: Frame, frames: seq<Frame>)
    ensures Dispatches([f] + frames) == [Dispatched(f)] + Dispatches(frames)
    decreases |frames|
  {
    if frames == [] {
      assert [f] + frames == [f] && [f][..0] == [];
    } else {
      var front := frames[..|frames| - 1];
      DispatchesCons(f, front);
      assert ([f] + frames)[..|frames|] == [f] + front;
    }
  }

  /** The frames are dispatched in order up to the n-th, all of them unless that one ends the loop. */
  ghost predicate InOrder(s: Snapshot, frames: seq<Frame>, r: Ran, n: nat) {
    && n <= |frames| && r.s.events == s.events + Dispatches(frames[..n]) && r.status != StillRunning
    && (if r.status == Completed then n == |frames| else n > 0 && EndsInDispatch(r.s.events))
  }

  lemma {:induction false} HandLeads(s: Snapshot) returns (n: nat)
    ensures var r := DispatchedHand(s);
      Leads(s, r.s, r.status) && InOrder(s, s.hand, r, n) && r.s.hand == s.hand[n..] && r.s.dropped == s.dropped
    decreases |s.hand|
  {
    n := 0;
    if s.hand == [] {
      LeadsNowhere(s);
      NothingYet(s.js, s.events, s.calls);
    } else {
      var status, next := Ending(s.js, Dispatched(s.hand[0])), DispatchedOne(s);
      DispatchedOneLeads(s);
      if status == Completed {
        var later := HandLeads(next);
        n := later + 1;
        LeadsTwice(s, next, DispatchedHand(next).s, DispatchedHand(next).status);
        HandInOrder(s, later);
      } else {
        n := 1;
        HandEnds(s);
      }
    }
  }

  lemma HandEnds(s: Snapshot)
    requires s.hand != [] && Ending(s.js, Dispatched(s.hand[0])) != Completed
    ensures InOrder(s, s.hand, DispatchedHand(s), 1) && DispatchedHand(s).s.hand == s.hand[1..]
  {
    DispatchedOneLeads(s);
    DispatchesOne(s.events, s.hand);
  }

  lemma DispatchesOne(before: seq<Event>, frames: seq<Frame>)
    requires frames != []
    ensures before + [Dispatched(frames[0])] == before + Dispatches(frames[..1])
  {
    assert frames[..1] == [frames[0]] && [frames[0]][..0] == [];
  }

  lemma HandInOrder(s: Snapshot, later: nat)
    requires s.hand != [] && Ending(s.js, Dispatched(s.hand[0])) == Completed
    requires var next := DispatchedOne(s);
      InOrder(next, next.hand, DispatchedHand(next), later) && DispatchedHand(next).s.hand == next.hand[later..]
    ensures InOrder(s, s.hand, DispatchedHand(s), later + 1) && DispatchedHand(s).s.hand == s.hand[later + 1..]
  {
    DispatchedOneLeads(s);
    DispatchesFirst(s.events, s.hand, later + 1);
  }

  /** The deferred queue goes to dispatch in order; when a frame ends the loop exactly those behind it are dropped. */
  lemma DrainedLeads(s: Snapshot) returns (n: nat)
    requires s.hand == []
    ensures var r := Drained(s);
      && Leads(s, r.s, r.status) && InOrder(s, s.deferred, r, n)
      && r.s.dropped == s.dropped + (if r.status == Completed then [] else s.deferred[n..])
  {
    var taken := s.(deferred := [], hand := s.deferred);
    LeadsByDrain(s);
    n := HandLeads(taken);
    var r := DispatchedHand(taken);
    LeadsTwice(s, taken, r.s, r.status);
    if r.status != Completed { LeadsByDrop(s, r.s, r.status); }
  }

  /** n checkpoints, one after the other. */
  function CheckedTimes(s: Snapshot, n: nat): Snapshot {
    if n == 0 then s else Checked(CheckedTimes(s, n - 1))
  }

  function Checkpoints(n: nat): (es: seq<Event>)
    ensures |es| == n
  {
    if n == 0 then [] else Checkpoints(n - 1) + [Checkpoint]
  }

  lemma {:induction false} CheckedTimesFirst(s: Snapshot, n: nat)
    ensures CheckedTimes(s, n + 1) == CheckedTimes(Checked(s), n)
    decreases n
  {
    if n > 0 { CheckedTimesFirst(s, n - 1); }
  }

  /** r is s after k checkpoints, at least one and at most n; the last is the first to defer a frame, unless it is
      the n-th. */
  ghost predicate StopsAfter(s: Snapshot, r: Snapshot, k: nat, n: nat) {
    && 1 <= k <= n && r == CheckedTimes(s, k)
    && (forall i :: 0 < i < k ==> CheckedTimes(s, i).deferred == [])
    && (k < n ==> r.deferred != [])
  }

  lemma {:induction false} FlushStops(s: Snapshot, n: nat) returns (k: nat)
    requires n > 0
    ensures StopsAfter(s, Flushed(s, n), k, n)
    decreases n
  {
    k := 1;
    var next := Checked(s);
    CheckedTimesFirst(s, 0);
    if next.deferred == [] && n > 1 {
      var fewer: nat := n - 1;
      var j := FlushStops(next, fewer);
      k := j + 1;
      forall i: nat | 0 < i <= k ensures CheckedTimes(s, i) == CheckedTimes(next, i - 1) {
        CheckedTimesFirst(s, i - 1);
      }
    }
  }

  /** Microtasks run until something is deferred, and nothing else happens meanwhile. */
  lemma FlushedStops(s: Snapshot, n: nat) returns (k: nat)
    requires n > 0
    ensures StopsAfter(s, Flushed(s, n), k, n) && Flushed(s, n).events == s.events + Checkpoints(k)
    ensures Leads(s, Flushed(s, n), Completed)
  {
    k := FlushStops(s, n);
    CheckedTimesLeads(s, k);
  }

  lemma {:induction false} CheckedTimesLeads(s: Snapshot, k: nat)
    ensures var r := CheckedTimes(s, k);
      Leads(s, r, Completed) && r.events == s.events + Checkpoints(k) && r.hand == s.hand && r.dropped == s.dropped
    decreases k
  {
    if k == 0 {
      LeadsNowhere(s);
      NothingYet(s.js, s.events, s.calls);
    } else {
      var fewer: nat := k - 1;
      var front := CheckedTimes(s, fewer);
      CheckedTimesLeads(s, fewer);
      CheckedLeads(front);
      LeadsTwice(s, front, Checked(front), Completed);
      TextOps.Assoc(s.events, Checkpoints(fewer), [Checkpoint]);
    }
  }

  /** One checkpoint, and then exactly the deferred queue as JavaScript left it is dispatched, in order. */
  lemma IdledLeads(s: Snapshot) returns (n: nat)
    requires s.hand == []
    ensures var r := Idled(s);
      && Leads(s, r.s, r.status) && InOrder(Checked(s), Checked(s).deferred, r, n)
      && r.s.dropped == s.dropped + (if r.status == Completed then [] else Checked(s).deferred[n..])
  {
    var next := Checked(s);
    CheckedLeads(s);
    n := 0;
    if next.deferred != [] {
      n := DrainedLeads(next);
      LeadsTwice(s, next, Drained(next).s, Drained(next).status);
    } else {
      NothingYet(next.js, next.events, next.calls);
    }
  }

  /** Frames are dropped only behind a dispatched one that ended the loop. */
  ghost predicate DropsAtTheEnd(s: Snapshot, r: Ran) {
    r.s.dropped == s.dropped || ((r.status == Terminated || r.status == Failed) && EndsInDispatch(r.s.events))
  }

  /** Whatever r is, it came of s by recorded events, with nothing lost and nothing dropped before its time. */
  ghost predicate ComesOf(s: Snapshot, r: Ran) {
    && Leads(s, r.s, r.status) && DropsAtTheEnd(s, r)
    && (r.status == Completed || r.status == StillRunning ==> r.s.dropped == s.dropped)
  }

  lemma ComesOfTwice(s: Snapshot, a: Ran, b: Ran)
    requires ComesOf(s, a) && a.status == Completed && ComesOf(a.s, b)
    ensures ComesOf(s, b)
  {
    LeadsTwice(s, a.s, b.s, b.status);
  }

  lemma PollingLeads(s: Snapshot)
    requires s.js.polls != []
    ensures Leads(s, Polling(s), if s.js.polls[0] == Abort then Terminated else Completed)
  {
    LogConserves(s, Polled);
    GrowsByJs(Logged(s, Polled), Polling(s).js);
    LeadsByEvent(s, Logged(s, Polled), Polling(s), Polled);
  }

  lemma ReceivedComes(s: Snapshot)
    requires s.channel != [] && s.hand == []
    ensures ComesOf(s, Received(s))
  {
    var rest := s.(channel := s.channel[1..], hand := if s.channel[0].Message? then [s.channel[0].frame] else []);
    LeadsByTake(s);
    if s.channel[0].Shutdown? { LeadsToShutDown(s, rest, Received(s).s); }
  }

  lemma AwaitedOnceComes(s: Snapshot)
    requires s.js.polls != [] && s.hand == []
    ensures ComesOf(s, AwaitedOnce(s)) && AwaitedOnce(s).status != StillRunning
  {
    var next := Polling(s);
    PollingLeads(s);
    if s.js.polls[0] != Abort {
      if s.js.polls[0] == Ready && s.channel != [] {
        ReceivedComes(next);
      } else {
        var _ := IdledLeads(next);
      }
      ComesOfTwice(s, Ran(next, Completed), AwaitedOnce(s));
    }
  }

  /** Waiting hands out one frame, or ends with Completed and nothing left, or by the event that ended it. */
  lemma {:induction false} AwaitedComes(s: Snapshot)
    requires s.hand == []
    ensures var r := Awaited(s);
      && ComesOf(s, r) && (r.status == StillRunning ==> r.s.js.polls == [])
      && (r.status == Completed && r.s.hand == [] ==> Finished(r.s))
    decreases |s.js.polls|
  {
    if s.js.polls == [] {
      LeadsNowhere(s);
      LeadsStill(s, s);
    } else {
      AwaitedOnceComes(s);
      var r := AwaitedOnce(s);
      if r.s.hand == [] && r.status == Completed && !Finished(r.s) {
        AwaitedComes(r.s);
        ComesOfTwice(s, r, Awaited(r.s));
      }
    }
  }

  lemma PreparedComes(s: Snapshot)
    requires s.hand == []
    ensures var t := Prepared(s);
      && ComesOf(s, t.ran) && t.ran.status != StillRunning && (!t.over ==> t.ran.status == Completed)
      && (t.over && t.ran.status == Completed ==> !Waits(t.ran.s.js))
  {
    var r := Drained(s);
    var _ := DrainedLeads(s);
    if r.status == Completed && Waits(r.s.js) {
      var _ := FlushedStops(r.s, 100);
      ComesOfTwice(s, r, Prepared(s).ran);
    }
  }

  lemma ServedComes(s: Snapshot)
    requires s.hand == []
    ensures var t := Served(s);
      && ComesOf(s, t.ran) && (t.ran.status == StillRunning ==> t.ran.s.js.polls == [])
      && (t.over && t.ran.status == Completed ==> !Waits(t.ran.s.js))
  {
    AwaitedComes(s);
    var r := Awaited(s);
    if r.s.hand != [] {
      DispatchedOneLeads(r.s);
      ComesOfTwice(s, r, Served(s).ran);
    }
  }

  lemma TurnedComes(s: Snapshot)
    requires s.hand == []
    ensures var t := Turned(s);
      && ComesOf(s, t.ran) && (t.ran.status == StillRunning ==> t.ran.s.js.polls == [])
      && (t.over && t.ran.status == Completed ==> !Waits(t.ran.s.js))
  {
    PreparedComes(s);
    var t := Prepared(s);
    if !t.over {
      ServedComes(t.ran.s);
      ComesOfTwice(s, t.ran, Served(t.ran.s).ran);
    }
  }

  /**
   The guarantee of run_event_loop. The history of polls, microtask checkpoints, dispatched frames and a shutdown,
   replayed from the first state, gives the promises, the evaluations, the settlements, the sync calls made and the
   JavaScript and waiting left. The loop ends by the first event that ends it: an abort while waiting, a Shutdown
   command, a TerminateExecution, or a stream event whose JavaScript throws. On every exit each frame is where it was,
   or was dispatched, or was taken by a call that it answers, or was dropped behind a dispatched frame that ended the
   loop. On Completed nothing was dropped, no promise is pending and no evaluation is unsettled.
   */
  lemma {:induction false} LoopedComes(s: Snapshot)
    requires s.hand == []
    ensures var r := Looped(s);
      && ComesOf(s, r) && r.s.hand == [] && (r.status == StillRunning ==> r.s.js.polls == [])
      && (r.status == Completed ==> r.s.js.promises == {} && !r.s.js.moduleWaits && !r.s.js.scriptWaits)
    decreases |s.js.polls|
  {
    if Finished(s) {
      LeadsNowhere(s);
    } else {
      TurnedComes(s);
      var t := Turned(s);
      if !t.over {
        LoopedComes(t.ran.s);
        ComesOfTwice(s, t.ran, Looped(t.ran.s));
      }
    }
  }

  // ---- And its order ----

  /** What has happened stays on record, and replays. */
  lemma EventsStay(s: Snapshot, r: Ran)
    requires ComesOf(s, r)
    ensures s.events <= r.s.events && r.s.js == Replay(s.js, r.s.events[|s.events|..])
  {
  }

  /** An entered loop first dispatches what was deferred, in order, all of it unless one frame ends the loop. If nothing
      is pending then, it is over without a poll or a checkpoint. */
  lemma LoopDrainsFirst(s: Snapshot) returns (n: nat)
    requires s.hand == [] && !Finished(s)
    ensures n <= |s.deferred| && s.events + Dispatches(s.deferred[..n]) == Drained(s).s.events <= Looped(s).s.events
    ensures n < |s.deferred| ==>
      Looped(s) == Drained(s) && Looped(s).status != Completed && Looped(s).s.dropped == s.dropped + s.deferred[n..]
    ensures var r := Drained(s);
      r.status != Completed || (r.s.js.promises == {} && !r.s.js.moduleWaits && !r.s.js.scriptWaits) ==> Looped(s) == r
  {
    n := DrainedLeads(s);
    var r := Drained(s);
    if r.status == Completed && Waits(r.s.js) {
      var _ := FlushedStops(r.s, 100);
      LoopGoesOn(s);
    }
  }

  /** Otherwise microtasks run, up to a hundred times while nothing is deferred. If nothing is left after them the loop
      is over without a poll; only then is there any waiting. */
  lemma LoopFlushesNext(s: Snapshot) returns (k: nat)
    requires s.hand == [] && !Finished(s) && Drained(s).status == Completed && Waits(Drained(s).s.js)
    ensures StopsAfter(Drained(s).s, Flushed(Drained(s).s, 100), k, 100)
    ensures var flushed := Flushed(Drained(s).s, 100);
      && flushed.events == Drained(s).s.events + Checkpoints(k) && flushed.events <= Looped(s).s.events
      && (Finished(flushed) ==> Looped(s) == Ran(flushed, Completed))
  {
    var r := Drained(s);
    k := FlushedStops(r.s, 100);
    LoopGoesOn(s);
  }

  lemma LoopGoesOn(s: Snapshot)
    requires s.hand == [] && !Finished(s) && Drained(s).status == Completed && Waits(Drained(s).s.js)
    ensures var flushed := Flushed(Drained(s).s, 100);
      if Finished(flushed) then Looped(s) == Ran(flushed, Completed) else flushed.events <= Looped(s).s.events
  {
    var flushed := Flushed(Drained(s).s, 100);
    if !Finished(flushed) {
      var t := Served(flushed);
      ServedComes(flushed);
      EventsStay(flushed, t.ran);
      if !t.over {
        LoopedComes(t.ran.s);
        EventsStay(t.ran.s, Looped(t.ran.s));
      }
    }
  }

  /** Whether microtasks ran since the last poll, given whether they had before. */
  function Fresh(ready: bool, events: seq<Event>): bool
    decreases |events|
  {
    if events == [] then ready
    else
      match events[|events| - 1]
      case Checkpoint => true
      case Polled => false
      case _ => Fresh(ready, events[..|events| - 1])
  }

  /** Between any poll and the one before it, and before the first, microtasks ran. */
  predicate Paced(ready: bool, events: seq<Event>)
    decreases |events|
  {
    events == [] ||
    (var front := events[..|events| - 1];
     Paced(ready, front) && (events[|events| - 1] == Polled ==> Fresh(ready, front)))
  }

  lemma {:induction false} PacedConcat(ready: bool, a: seq<Event>, b: seq<Event>)
    ensures Fresh(ready, a + b) == Fresh(Fresh(ready, a), b)
    ensures Paced(ready, a + b) <==> Paced(ready, a) && Paced(Fresh(ready, a), b)
    decreases |b|
  {
    if b == [] {
      assert a + b == a;
    } else {
      PacedConcat(ready, a, b[..|b| - 1]);
      assert (a + b)[..|a + b| - 1] == a + b[..|b| - 1];
    }
  }

  /** From s to r the waiting is paced, and ends fresh or not. */
  ghost predicate PacedTo(s: Snapshot, r: Snapshot, before: bool, after: bool) {
    s.events <= r.events && Paced(before, r.events[|s.events|..]) && (after ==> Fresh(before, r.events[|s.events|..]))
  }

  lemma PacedTwice(s: Snapshot, r: Snapshot, q: Snapshot, before: bool, between: bool, after: bool)
    requires PacedTo(s, r, before, between) && PacedTo(r, q, between, after)
    ensures PacedTo(s, q, before, after)
  {
    var a, b := r.events[|s.events|..], q.events[|r.events|..];
    assert q.events[|s.events|..] == a + b;
    PacedConcat(before, a, b);
    if !between { FreshHelps(Fresh(before, a), b); }
  }

  lemma {:induction false} FreshHelps(ready: bool, events: seq<Event>)
    requires Paced(false, events)
    ensures Paced(ready, events) && (Fresh(false, events) ==> Fresh(ready, events))
    decreases |events|
  {
    if events != [] { FreshHelps(ready, events[..|events| - 1]); }
  }

  lemma {:induction false} DispatchesArePaced(ready: bool, frames: seq<Frame>)
    ensures Paced(ready, Dispatches(frames)) && Fresh(ready, Dispatches(frames)) == ready
    decreases |frames|
  {
    if frames != [] {
      DispatchesArePaced(ready, frames[..|frames| - 1]);
      assert Dispatches(frames)[..|frames| - 1] == Dispatches(frames[..|frames| - 1]);
    }
  }

  lemma DrainedPaced(s: Snapshot, ready: bool)
    requires s.hand == []
    ensures PacedTo(s, Drained(s).s, ready, ready)
  {
    var n := DrainedLeads(s);
    DispatchesArePaced(ready, s.deferred[..n]);
  }

  lemma CheckedPaced(s: Snapshot)
    ensures PacedTo(s, Checked(s), false, true)
  {
    CheckedLeads(s);
    assert Checked(s).events[|s.events|..] == [Checkpoint] && [Checkpoint][..0] == [];
  }

  lemma {:induction false} FlushedPaced(s: Snapshot, n: nat)
    requires n > 0
    ensures PacedTo(s, Flushed(s, n), false, true)
    decreases n
  {
    CheckedPaced(s);
    if Checked(s).deferred == [] && n > 1 {
      var fewer: nat := n - 1;
      FlushedPaced(Checked(s), fewer);
      PacedTwice(s, Checked(s), Flushed(s, n), false, false, true);
    }
  }

  lemma IdledPaced(s: Snapshot)
    requires s.hand == []
    ensures PacedTo(s, Idled(s).s, false, true)
  {
    CheckedPaced(s);
    if Checked(s).deferred != [] {
      DrainedPaced(Checked(s), true);
      PacedTwice(s, Checked(s), Idled(s).s, false, true, true);
    }
  }

  lemma PolledPaced(s: Snapshot, r: Snapshot)
    requires s.js.polls != [] && r.events == s.events + [Polled]
    ensures PacedTo(s, r, true, false)
  {
    assert r.events[|s.events|..] == [Polled] && [Polled][..0] == [];
  }

  lemma QuietPaced(s: Snapshot, r: Snapshot, ready: bool)
    requires r.events == s.events || r.events == s.events + [ShutDown] ||
      (s.hand != [] && r.events == s.events + [Dispatched(s.hand[0])])
    ensures PacedTo(s, r, ready, ready)
  {
    var added := r.events[|s.events|..];
    if added != [] { assert added == [r.events[|s.events|]] && added[..0] == []; }
  }

  lemma AwaitedOncePaced(s: Snapshot)
    requires s.js.polls != [] && s.hand == []
    ensures var r := AwaitedOnce(s); PacedTo(s, r.s, true, r.s.hand == [] && r.status == Completed)
  {
    var next := Polling(s);
    PolledPaced(s, next);
    if s.js.polls[0] != Abort {
      if s.js.polls[0] == Ready && s.channel != [] {
        QuietPaced(next, Received(next).s, false);
        PacedTwice(s, next, Received(next).s, true, false, false);
      } else {
        IdledPaced(next);
        PacedTwice(s, next, Idled(next).s, true, false, true);
      }
    }
  }

  lemma {:induction false} AwaitedPaced(s: Snapshot)
    requires s.hand == []
    ensures PacedTo(s, Awaited(s).s, true, false)
    decreases |s.js.polls|
  {
    if s.js.polls == [] {
      QuietPaced(s, s, true);
    } else {
      AwaitedOncePaced(s);
      var r := AwaitedOnce(s);
      if r.s.hand == [] && r.status == Completed && !Finished(r.s) {
        AwaitedPaced(r.s);
        PacedTwice(s, r.s, Awaited(r.s).s, true, true, false);
      }
    }
  }

  lemma TurnedPaced(s: Snapshot)
    requires s.hand == []
    ensures PacedTo(s, Turned(s).ran.s, false, false)
  {
    var r := Drained(s);
    DrainedPaced(s, false);
    if r.status == Completed && Waits(r.s.js) {
      var flushed := Flushed(r.s, 100);
      FlushedPaced(r.s, 100);
      PacedTwice(s, r.s, flushed, false, false, true);
      if !Finished(flushed) {
        ServedPaced(flushed);
        PacedTwice(s, flushed, Served(flushed).ran.s, false, true, false);
      }
    }
  }

  lemma ServedPaced(s: Snapshot)
    requires s.hand == []
    ensures PacedTo(s, Served(s).ran.s, true, false)
  {
    var r := Awaited(s);
    AwaitedPaced(s);
    if r.s.hand != [] {
      DispatchedOneLeads(r.s);
      QuietPaced(r.s, DispatchedOne(r.s), false);
      PacedTwice(s, r.s, DispatchedOne(r.s), true, false, false);
    }
  }

  /** Over the whole loop no poll comes before microtasks have run since the poll before, or since the start. */
  lemma {:induction false} LoopedPaced(s: Snapshot)
    requires s.hand == []
    ensures s.events <= Looped(s).s.events && Paced(false, Looped(s).s.events[|s.events|..])
    decreases |s.js.polls|
  {
    if Finished(s) {
      QuietPaced(s, s, false);
    } else {
      TurnedPaced(s);
      var t := Turned(s);
      if !t.over {
        LoopedPaced(t.ran.s);
        PacedTwice(s, t.ran.s, Looped(t.ran.s).s, false, false, false);
      }
    }
  }

  lemma {:induction false} ActAllSettlesNothing(js: Js, actions: seq<JsAction>)
    ensures ActAll(js, actions).settled == js.settled && js.promises <= ActAll(js, actions).promises
    decreases |actions|
  {
    if actions != [] { ActAllSettlesNothing(js, actions[..|actions| - 1]); }
  }

  /** A response to a pending promise settles it, with the payload as its error for status 1 and as its value otherwise;
      any other frame settles nothing, and no promise but that one goes away. */
  lemma ResponsesSettle(s: Snapshot)
    requires s.hand != []
    ensures var (f, js, js') := (s.hand[0], s.js, DispatchedOne(s).js);
      if f.BridgeResponse? && f.callId in js.promises then
        && js.promises - {f.callId} <= js'.promises
        && js'.settled == js.settled + [Settlement(f.callId,
             if f.status == 1 then Err(HostError(f.payload))
             else Ok(if f.payload == [] then None else Some(f.payload)))]
      else js'.settled == js.settled && js.promises <= js'.promises
  {
    var f := s.hand[0];
    ReactedGrows(Spent(s, f), f);
    if Reacts(s.js, f) && s.js.bursts != [] {
      ActAllSettlesNothing(Settled(s.js, f).(bursts := s.js.bursts[1..]), s.js.bursts[0].actions);
    }
  }

  /** One millisecond: an abort ends the loop; a ready frame is taken, a ready Shutdown ends the loop; otherwise
      microtasks run and then what is deferred is dispatched. */
  lemma OneMillisecond(s: Snapshot) returns (n: nat)
    requires s.js.polls != [] && s.hand == []
    ensures AwaitedOnce(s).s.js.polls == s.js.polls[1..]
    ensures s.js.polls[0] == Abort ==>
      var r := AwaitedOnce(s);
      r.status == Terminated && r.s.events == s.events + [Polled] && r.s.channel == s.channel
    ensures s.js.polls[0] == Ready && s.channel != [] ==>
      var r := AwaitedOnce(s);
      && r.s.channel == s.channel[1..]
      && match s.channel[0]
         case Message(f) => r.s.hand == [f] && r.status == Completed && r.s.events == s.events + [Polled]
         case Shutdown => r.s.hand == [] && r.status == Terminated && r.s.events == s.events + [Polled] + [ShutDown]
    ensures s.js.polls[0] != Abort && (s.js.polls[0] == Quiet || s.channel == []) ==>
      var (r, waited) := (AwaitedOnce(s), Polling(s));
      && r.s.hand == [] && InOrder(Checked(waited), Checked(waited).deferred, r, n)
      && Checked(waited).events == s.events + [Polled] + [Checkpoint]
  {
    n := IdledLeads(Polling(s));
    CheckedLeads(Polling(s));
  }

  /** JavaScript runs exactly for a stream event and for a response to a pending promise; other frames do nothing. */
  lemma WhoRunsJavaScript(s: Snapshot)
    requires s.hand != []
    ensures var (f, r) := (s.hand[0], DispatchedOne(s));
      if f.StreamEvent? || (f.BridgeResponse? && f.callId in s.js.promises)
      then r.js.bursts == if s.js.bursts == [] then [] else s.js.bursts[1..]
      else r == Spent(s, f)
  {
    var f := s.hand[0];
    ReactedGrows(Spent(s, f), f);
    if Reacts(s.js, f) && s.js.bursts != [] {
      ActAllKeepsBursts(Settled(s.js, f).(bursts := s.js.bursts[1..]), s.js.bursts[0].actions);
    }
  }

  lemma {:induction false} ActAllKeepsBursts(js: Js, actions: seq<JsAction>)
    ensures ActAll(js, actions).bursts == js.bursts
    decreases |actions|
  {
    if actions != [] { ActAllKeepsBursts(js, actions[..|actions| - 1]); }
  }

  /** The last action of a burst has its effect on top of those before it: an async call leaves a promise, an evaluation
      is pending or settled as it says, a sync call goes on record. */
  lemma ActionsInOrder(js: Js, before: seq<JsAction>, a: JsAction)
    ensures var (b, r) := (ActAll(js, before), ActAll(js, before + [a]));
      && r.promises == (if a.AsyncCall? then b.promises + {a.callId} else b.promises)
      && r.moduleWaits == (if a.ModuleEvaluation? then a.pending else b.moduleWaits)
      && r.scriptWaits == (if a.ScriptEvaluation? then a.pending else b.scriptWaits)
      && r.made == (if a.SyncCall? then b.made + [a.callId] else b.made)
  {
    assert (before + [a])[..|before|] == before;
  }

  /** The event is the dispatch of a response with this id. */
  predicate AnswersWith(e: Event, id: u64) { e.Dispatched? && e.frame.BridgeResponse? && e.frame.callId == id }

  /** A promise goes away by nothing but the dispatch of its response. */
  lemma {:induction false} PromisesWait(js: Js, events: seq<Event>, id: u64)
    requires id in js.promises && id !in Replay(js, events).promises
    ensures exists e <- events :: AnswersWith(e, id)
    decreases |events|
  {
    var front, last := events[..|events| - 1], events[|events| - 1];
    assert last in events;
    if id !in Replay(js, front).promises {
      PromisesWait(js, front, id);
    } else if !AnswersWith(last, id) {
      StepKeepsPromises(Replay(js, front), last, id);
    }
  }

  lemma StepKeepsPromises(js: Js, e: Event, id: u64)
    requires id in js.promises && !AnswersWith(e, id)
    ensures id in Step(js, e).promises
  {
    if js.bursts != [] {
      var next := js.(bursts := js.bursts[1..]);
      ActAllSettlesNothing(next, js.bursts[0].actions);
      if e.Dispatched? { ActAllSettlesNothing(Settled(next, e.frame), js.bursts[0].actions); }
    }
  }

  /** So when the loop is Completed, every promise that was pending at its start, or at any moment since, has had its
      response dispatched after that. */
  lemma CompletedMeansAnswered(s: Snapshot, k: nat, id: u64)
    requires s.hand == [] && Looped(s).status == Completed
    requires |s.events| <= k <= |Looped(s).s.events|
    requires id in Replay(s.js, Looped(s).s.events[|s.events|..k]).promises
    ensures exists e <- Looped(s).s.events[k..] :: AnswersWith(e, id)
  {
    LoopedComes(s);
    AnsweredSince(s, Looped(s), k, id);
  }

  lemma AnsweredSince(s: Snapshot, r: Ran, k: nat, id: u64)
    requires ComesOf(s, r) && r.s.js.promises == {} && |s.events| <= k <= |r.s.events|
    requires id in Replay(s.js, r.s.events[|s.events|..k]).promises
    ensures exists e <- r.s.events[k..] :: AnswersWith(e, id)
  {
    EventsStay(s, r);
    var (before, since) := (r.s.events[|s.events|..k], r.s.events[k..]);
    assert r.s.events[|s.events|..] == before + since;
    ReplayConcat(s.js, before, since);
    PromisesWait(Replay(s.js, before), since, id);
  }

  /** A received frame is dispatched before anything else happens. */
  lemma ReceivedIsDispatched(s: Snapshot)
    requires s.hand == [] && Awaited(s).s.hand != []
    ensures Served(s).ran.s.events == Awaited(s).s.events + [Dispatched(Awaited(s).s.hand[0])]
  {
    DispatchedOneLeads(Awaited(s).s);
  }
}
