/** The session thread's event loop as it runs: methods on its mutable state, each proved against EventLoop. */
module SessionThread {
  import opened Frames
  import opened HostCall
  import opened EventLoop

  class Session {
    const receiver: ChannelReceiver
    var promises: set<u64>       // keys of PendingPromises
    var moduleWaits: bool        // a module evaluation promise is still pending
    var scriptWaits: bool        // a script evaluation promise is still pending
    var bursts: seq<Burst>       // JavaScript still to come
    var polls: seq<Poll>         // waiting still to come
    // Histories, and the frames in hand.
    ghost var settled: seq<Settlement>
    ghost var events: seq<Event>
    ghost var calls: seq<CallRecord>
    ghost var dropped: seq<Frame>
    ghost var hand: seq<Frame>

    constructor (receiver: ChannelReceiver, promises: set<u64>, moduleWaits: bool, scriptWaits: bool,
                 bursts: seq<Burst>, polls: seq<Poll>)
      ensures this.receiver == receiver && State() == Js(promises, moduleWaits, scriptWaits, [], [], bursts, polls)
      ensures events == [] && calls == [] && dropped == [] && hand == []
    {
      this.receiver, this.promises, this.bursts, this.polls := receiver, promises, bursts, polls;
      this.moduleWaits, this.scriptWaits := moduleWaits, scriptWaits;
      settled, events, calls, dropped, hand := [], [], [], [], [];
    }

    ghost function State(): Js
      reads this
    {
      Js(promises, moduleWaits, scriptWaits, CallIds(calls), settled, bursts, polls)
    }

    ghost function Now(): Snapshot
      reads this, receiver
    {
      Snapshot(State(), receiver.channel, receiver.deferred, hand, events, calls, dropped)
    }

    predicate Waiting()
      reads this
    {
      promises != {} || moduleWaits || scriptWaits
    }

    // ---- JavaScript ----

    /** A nested sync call goes on record with the response it took, which answers it, and the frames it set aside. */
    method NestedSyncCall(id: u64, abortAfter: Option<nat>)
      modifies this`calls, receiver
      ensures Now() == Called(old(Now()), id, abortAfter)
      ensures var s := Scan(old(receiver.channel), id, abortAfter);
        && calls == old(calls) + [CallRecord(id, if s.result.Ok? then Some(s.result.value) else None, s.setAside)]
        && receiver.channel == s.rest && receiver.deferred == old(receiver.deferred) + s.setAside
        && (s.result.Ok? ==> Answers(s.result.value, id))
    {
      ScanSplitsTheChannel(receiver.channel, id, abortAfter);
      ghost var s := Scan(receiver.channel, id, abortAfter);
      var r := receiver.RecvResponse(id, abortAfter);
      OneMoreCall(calls, RecordOf(id, s));
      calls := calls + [RecordOf(id, s)];
    }

    method Act(a: JsAction)
      modifies this`promises, this`moduleWaits, this`scriptWaits, this`calls, receiver
      ensures Now() == Acted(old(Now()), a)
    {
      match a {
        case SyncCall(id, abortAfter) => NestedSyncCall(id, abortAfter);
        case AsyncCall(id) => promises := promises + {id};
        case ModuleEvaluation(pending) => moduleWaits := pending;
        case ScriptEvaluation(pending) => scriptWaits := pending;
      }
    }

    method RunActions(actions: seq<JsAction>)
      modifies this`promises, this`moduleWaits, this`scriptWaits, this`calls, receiver
      ensures Now() == ActedAll(old(Now()), actions)
    {
      for k := 0 to |actions|
        invariant Now() == ActedAll(old(Now()), actions[..k])
      {
        assert actions[..k + 1][..k] == actions[..k] && actions[..k + 1][k] == actions[k];
        Act(actions[k]);
      }
      assert actions[..|actions|] == actions;
    }

    /** Run whatever JavaScript comes next: its actions are performed in order, and the deferred queue grows by exactly
        what its sync calls set aside. */
    method RunJs() returns (threw: bool)
      modifies this`promises, this`moduleWaits, this`scriptWaits, this`calls, this`bursts, receiver
      ensures Now() == Bursted(old(Now())) && (threw <==> old(bursts) != [] && old(bursts)[0].throws)
      ensures State() == RunNext(old(State())) && Grows(old(Now()), Now())
      ensures receiver.deferred == old(receiver.deferred) + Aside(calls[|old(calls)|..])
    {
      BurstedGrows(Now());
      if bursts == [] { return false; }
      var burst := bursts[0];
      bursts := bursts[1..];
      RunActions(burst.actions);
      threw := burst.throws;
    }

    method MicrotaskCheckpoint()
      modifies this`promises, this`moduleWaits, this`scriptWaits, this`calls, this`bursts, this`events, receiver
      ensures Now() == Checked(old(Now()))
    {
      events := events + [Checkpoint];
      var _ := RunJs();
    }

    // ---- Dispatch ----

    /** dispatch_event_loop_frame: the frame is spent here, whatever it is. A response settles the promise with its id
        and no other, JavaScript that gets to see the frame runs, and the status comes of the frame. */
    method Dispatch(frame: Frame) returns (status: Status)
      requires hand != [] && hand[0] == frame
      modifies this`promises, this`moduleWaits, this`scriptWaits, this`calls, this`bursts, this`settled, this`events,
               this`hand, receiver
      ensures Now() == DispatchedOne(old(Now())) && status == Ending(old(State()), Dispatched(frame))
      ensures events == old(events) + [Dispatched(frame)] && hand == old(hand)[1..]
      ensures Leads(old(Now()), Now(), status)
      ensures settled == old(settled) +
        if frame.BridgeResponse? && frame.callId in old(promises)
        then [Settlement(frame.callId, if frame.status == 1 then Err(HostError(frame.payload))
                                       else Ok(if frame.payload == [] then None else Some(frame.payload)))]
        else []
      ensures match frame
        case TerminateExecution(_) => status == Terminated
        case StreamEvent(_, _, _) => status == if old(bursts) != [] && old(bursts)[0].throws then Failed else Completed
        case _ => status == Completed
    {
      DispatchedOneLeads(Now());
      ResponsesSettle(Now());
      events, hand := events + [Dispatched(frame)], hand[1..];
      status := React(frame);
    }

    method React(frame: Frame) returns (status: Status)
      modifies this`promises, this`moduleWaits, this`scriptWaits, this`calls, this`bursts, this`settled, receiver
      ensures Now() == Reacted(old(Now()), frame) && status == Ending(old(State()), Dispatched(frame))
    {
      status := Completed;
      match frame {
        case BridgeResponse(_, id, code, payload) =>
          var outcome :=
            if code == 1 then Err(HostError(payload)) else if payload != [] then Ok(Some(payload)) else Ok(None);
          assert outcome == Interpret(frame);
          ResolvePendingPromise(id, outcome);
        case StreamEvent(_, _, _) =>
          var threw := RunJs();
          if threw { status := Failed; }
        case TerminateExecution(_) => status := Terminated;
        case _ =>
      }
    }

    /** The promise is settled, if there is one, and microtasks run then. */
    method ResolvePendingPromise(id: u64, outcome: Result<Option<seq<byte>>, Error>)
      modifies this`promises, this`moduleWaits, this`scriptWaits, this`calls, this`bursts, this`settled, receiver
      ensures Now() ==
        if id !in old(promises) then old(Now())
        else Bursted(old(Now()).(js := old(State()).(promises := old(promises) - {id},
                                                     settled := old(settled) + [Settlement(id, outcome)])))
    {
      if id in promises {
        promises, settled := promises - {id}, settled + [Settlement(id, outcome)];
        var _ := RunJs();
      }
    }

    /** Dispatch the frames in hand in turn until one gives a bad status; count says how many were dispatched. */
    method DispatchAll(frames: seq<Frame>) returns (status: Status, count: nat)
      requires hand == frames
      modifies this`promises, this`moduleWaits, this`scriptWaits, this`calls, this`bursts, this`settled, this`events,
               this`hand, receiver
      ensures Ran(Now(), status) == DispatchedHand(old(Now()))
      ensures InOrder(old(Now()), frames, Ran(Now(), status), count) && hand == frames[count..]
    {
      ghost var n := HandLeads(Now());
      status, count := Completed, 0;
      while count < |frames| && status == Completed
        invariant count <= |frames| && hand == frames[count..]
        invariant DispatchedHand(old(Now())) ==
          if status == Completed then DispatchedHand(Now()) else Ran(Now(), status)
        decreases |frames| - count
      {
        status := Dispatch(frames[count]);
        count := count + 1;
      }
    }

    /** Take the deferred frames and dispatch them; a bad status drops the rest. */
    method DrainDeferred() returns (status: Status, ghost n: nat)
      requires hand == []
      modifies this`promises, this`moduleWaits, this`scriptWaits, this`calls, this`bursts, this`settled, this`events,
               this`dropped, this`hand, receiver
      ensures Ran(Now(), status) == Drained(old(Now())) && hand == [] && Leads(old(Now()), Now(), status)
      ensures n <= |old(receiver.deferred)| && events == old(events) + Dispatches(old(receiver.deferred)[..n])
      ensures status == Completed ==> n == |old(receiver.deferred)| && dropped == old(dropped)
      ensures status != Completed ==> 0 < n && dropped == old(dropped) + old(receiver.deferred)[n..]
    {
      n := DrainedLeads(Now());
      var frames := receiver.deferred;
      receiver.deferred, hand := [], frames;
      var count;
      status, count := DispatchAll(frames);
      if status != Completed { dropped, hand := dropped + hand, []; }
    }

    // ---- The loop ----

    /** Up to a hundred microtask checkpoints, fewer exactly if one of them defers a frame. */
    method FlushMicrotasks() returns (ghost k: nat)
      modifies this`promises, this`moduleWaits, this`scriptWaits, this`calls, this`bursts, this`events, receiver
      ensures Now() == Flushed(old(Now()), 100)
      ensures StopsAfter(old(Now()), Now(), k, 100) && events == old(events) + Checkpoints(k)
    {
      k := FlushedStops(Now(), 100);
      for i := 0 to 100
        invariant Flushed(old(Now()), 100) == Flushed(Now(), 100 - i)
      {
        MicrotaskCheckpoint();
        if receiver.deferred != [] { break; }
      }
    }

    /** Nothing came in: JavaScript gets a turn, and exactly what is deferred then is dispatched, in order. */
    method Idle() returns (status: Status, ghost n: nat)
      requires hand == []
      modifies this`promises, this`moduleWaits, this`scriptWaits, this`calls, this`bursts, this`settled, this`events,
               this`dropped, this`hand, receiver
      ensures Ran(Now(), status) == Idled(old(Now())) && hand == [] && Leads(old(Now()), Now(), status)
      ensures var deferred := Checked(old(Now())).deferred;
        && n <= |deferred| && events == old(events) + [Checkpoint] + Dispatches(deferred[..n])
        && (status == Completed ==> n == |deferred| && dropped == old(dropped))
        && (status != Completed ==> 0 < n && dropped == old(dropped) + deferred[n..])
    {
      n := IdledLeads(Now());
      CheckedLeads(Now());
      status := Completed;
      MicrotaskCheckpoint();
      if receiver.deferred != [] {
        ghost var count;
        status, count := DrainDeferred();
      }
    }

    /** The inner receive loop: either a frame, or the status with which the whole loop returns. */
    method NextFrame() returns (frame: Option<Frame>, status: Status)
      requires hand == []
      modifies this, receiver
      ensures Ran(Now(), status) == Awaited(old(Now())) && hand == Held(frame)
      ensures ComesOf(old(Now()), Ran(Now(), status)) && (status == StillRunning ==> polls == [])
      ensures frame.None? && status == Completed ==> !Waiting() && receiver.deferred == []
    {
      AwaitedComes(Now());
      while polls != []
        invariant hand == [] && Awaited(Now()) == Awaited(old(Now()))
        decreases |polls|
      {
        frame, status := WaitOnce();
        if frame.Some? || status != Completed { return; }
        if !Waiting() && receiver.deferred == [] { return; }
      }
      return None, StillRunning;
    }

    /** One turn of that loop: an abort ends the loop; a ready frame is received, a ready Shutdown ends the loop;
        otherwise it is idle. */
    method WaitOnce() returns (frame: Option<Frame>, status: Status)
      requires polls != [] && hand == []
      modifies this, receiver
      ensures Ran(Now(), status) == AwaitedOnce(old(Now())) && hand == Held(frame)
    {
      var poll := polls[0];
      events, polls := events + [Polled], polls[1..];
      if poll == Abort { return None, Terminated; }
      if poll == Ready && receiver.channel != [] {
        frame, status := TakeCommand();
      } else {
        frame := None;
        ghost var n;
        status, n := Idle();
      }
    }

    /** The next command is taken off the channel. */
    method TakeCommand() returns (frame: Option<Frame>, status: Status)
      requires receiver.channel != [] && hand == []
      modifies receiver`channel, this`hand, this`events
      ensures Ran(Now(), status) == Received(old(Now())) && hand == Held(frame)
      ensures receiver.channel == old(receiver.channel)[1..]
      ensures match old(receiver.channel)[0]
        case Message(f) => frame == Some(f) && status == Completed && events == old(events)
        case Shutdown => frame == None && status == Terminated && events == old(events) + [ShutDown]
    {
      var command := receiver.channel[0];
      receiver.channel := receiver.channel[1..];
      match command {
        case Message(f) =>
          hand := [f];
          return Some(f), Completed;
        case Shutdown =>
          events := events + [ShutDown];
          return None, Terminated;
      }
    }

    /** The first half of a turn: what is deferred, then microtasks. */
    method DrainAndFlush() returns (over: bool, status: Status)
      requires hand == []
      modifies this`promises, this`moduleWaits, this`scriptWaits, this`calls, this`bursts, this`settled, this`events,
               this`dropped, this`hand, receiver
      ensures Turn(Ran(Now(), status), over) == Prepared(old(Now())) && hand == []
    {
      ghost var n;
      status, n := DrainDeferred();
      if status != Completed { return true, status; }
      if !Waiting() { return true, Completed; }
      over := FlushAndTest();
    }

    /** Microtasks, and whether anything is left then. */
    method FlushAndTest() returns (over: bool)
      modifies this`promises, this`moduleWaits, this`scriptWaits, this`calls, this`bursts, this`events, receiver
      ensures Now() == Flushed(old(Now()), 100) && over == Finished(Now())
    {
      ghost var k := FlushMicrotasks();
      over := !Waiting() && receiver.deferred == [];
    }

    /** The second half of a turn: wait for a frame and dispatch it. */
    method ReceiveAndDispatch() returns (over: bool, status: Status)
      requires hand == []
      modifies this, receiver
      ensures Turn(Ran(Now(), status), over) == Served(old(Now())) && hand == []
    {
      var frame;
      frame, status := NextFrame();
      if frame.None? { return true, status; }
      status := Dispatch(frame.value);
      over := status != Completed;
    }

    /** One turn of the loop: over tells that the loop ends here, with the given status. */
    method TakeTurn() returns (over: bool, status: Status)
      requires hand == []
      modifies this, receiver
      ensures Turn(Ran(Now(), status), over) == Turned(old(Now())) && hand == []
      ensures ComesOf(old(Now()), Ran(Now(), status)) && (status == StillRunning ==> polls == [])
      ensures !over ==> status == Completed && |polls| < |old(polls)|
      ensures over && status == Completed ==> !Waiting()
    {
      TurnedComes(Now());
      over, status := DrainAndFlush();
      if !over { over, status := ReceiveAndDispatch(); }
    }

    /**
     run_event_loop, over any arrivals and any JavaScript: it does what Looped says, and so the history of polls,
     checkpoints, dispatched frames and a shutdown tells everything, and no frame is lost. An entered loop begins by
     dispatching what was deferred, in order; if nothing is pending then it has no other event; otherwise checkpoints
     follow, and there is at least one between any poll and the one before. On Completed nothing was dropped, no promise
     is pending and no evaluation is unsettled.
     */
    method Run() returns (status: Status)
      requires hand == []
      modifies this, receiver
      ensures Ran(Now(), status) == Looped(old(Now())) && hand == []
      ensures ComesOf(old(Now()), Ran(Now(), status))
      ensures status == Completed ==> promises == {} && !moduleWaits && !scriptWaits && dropped == old(dropped)
      ensures status == StillRunning ==> polls == []
      ensures old(events) <= events && Paced(false, events[|old(events)|..])
      ensures old(!Waiting() && receiver.deferred == []) ==> Now() == old(Now()) && status == Completed
      ensures old(Waiting() || receiver.deferred != []) ==> Drained(old(Now())).s.events <= events
      ensures old(Waiting() || receiver.deferred != []) && !Waits(Drained(old(Now())).s.js) ==>
        Ran(Now(), status) == Drained(old(Now())) && polls == old(polls)
    {
      ghost var start := Now();
      LoopedComes(start);
      LoopedPaced(start);
      if !Finished(start) { ghost var n := LoopDrainsFirst(start); }
      while Waiting() || receiver.deferred != []
        invariant hand == [] && Looped(Now()) == Looped(old(Now()))
        decreases |polls|
      {
        var over;
        over, status := TakeTurn();
        if over { return; }
      }
      status := Completed;
    }
  }
}
