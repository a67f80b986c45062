/**
 Concurrency slots: session threads share a counter under a mutex and a condition variable. Each
 critical section is one step. Barging threads, spurious wake-ups and the freedom of notify_one to
 wake any sleeper are all part of the machine.
 */
module Slots {
  import opened Frames

  type ThreadId = nat

  datatype Phase =
    | Arriving  // spawned, not yet at the lock
    | Asleep    // inside cvar.wait
    | Woken     // out of the wait, about to test the counter again
    | Holding   // between acquire and release
    | Finished

  datatype State = State(count: int, phase: map<ThreadId, Phase>)

  datatype Action =
    | Spawn(thread: ThreadId)
    | Acquire(thread: ThreadId)                            // lock, test, then increment or sleep
    | Release(thread: ThreadId, notified: Option<ThreadId>) // decrement and notify_one
    | SpuriousWake(thread: ThreadId)

  const Initial := State(0, map[])

  function In(phase: map<ThreadId, Phase>, p: Phase): set<ThreadId> {
    set t | t in phase && phase[t] == p
  }

  function Count(phase: map<ThreadId, Phase>, p: Phase): nat { |In(phase, p)| }

  predicate Enabled(s: State, a: Action) {
    match a
    case Spawn(t) => t !in s.phase
    case Acquire(t) => t in s.phase && (s.phase[t] == Arriving || s.phase[t] == Woken)
    case Release(t, None) => t in In(s.phase, Holding) && In(s.phase, Asleep) == {}
    case Release(t, Some(w)) => t in In(s.phase, Holding) && w in In(s.phase, Asleep)
    case SpuriousWake(t) => t in In(s.phase, Asleep)
  }

  function Step(s: State, a: Action, max: nat): State
    requires Enabled(s, a)
  {
    match a
    case Spawn(t) => s.(phase := s.phase[t := Arriving])
    case Acquire(t) =>
      if s.count >= max then s.(phase := s.phase[t := Asleep])
      else State(s.count + 1, s.phase[t := Holding])
    case Release(t, None) => State(s.count - 1, s.phase[t := Finished])
    case Release(t, Some(w)) => State(s.count - 1, s.phase[t := Finished][w := Woken])
    case SpuriousWake(t) => s.(phase := s.phase[t := Woken])
  }

  /** The counter counts the holders, never passes the limit, and no free slot is lost: while
      anyone sleeps, the slots in use and the threads already on their way fill the limit. */
  ghost predicate Inv(s: State, max: nat) {
    && s.count == Count(s.phase, Holding) <= max
    && (Count(s.phase, Asleep) > 0 ==> s.count + Count(s.phase, Woken) >= max)
  }

  /** Moving one thread changes only the populations of the phase it leaves and the one it enters. */
  lemma Move(phase: map<ThreadId, Phase>, t: ThreadId, to: Phase, p: Phase)
    ensures Count(phase[t := to], p)
         == Count(phase, p) - (if t in In(phase, p) then 1 else 0) + (if p == to then 1 else 0)
  {
    var rest := In(phase, p) - {t};
    assert In(phase[t := to], p) == if p == to then rest + {t} else rest;
    assert t in In(phase, p) ==> In(phase, p) == rest + {t};
    assert t !in In(phase, p) ==> In(phase, p) == rest;
    assert |rest + {t}| == |rest| + 1;
  }

  lemma MoveAll(phase: map<ThreadId, Phase>, t: ThreadId, to: Phase)
    ensures forall p <- {Asleep, Woken, Holding} ::
      Count(phase[t := to], p) == Count(phase, p) - (if t in In(phase, p) then 1 else 0) + (if p == to then 1 else 0)
  {
    Move(phase, t, to, Asleep);
    Move(phase, t, to, Woken);
    Move(phase, t, to, Holding);
  }

  lemma StepKeepsInv(s: State, a: Action, max: nat)
    requires Inv(s, max) && Enabled(s, a)
    ensures Inv(Step(s, a, max), max)
  {
    match a
    case Spawn(t) => MoveAll(s.phase, t, Arriving);
    case Acquire(t) => MoveAll(s.phase, t, if s.count >= max then Asleep else Holding);
    case Release(t, None) => MoveAll(s.phase, t, Finished);
    case Release(t, Some(w)) =>
      MoveAll(s.phase, t, Finished);
      MoveAll(s.phase[t := Finished], w, Woken);
    case SpuriousWake(t) => MoveAll(s.phase, t, Woken);
  }

  ghost predicate Run(states: seq<State>, actions: seq<Action>, max: nat) {
    && |states| == |actions| + 1 && states[0] == Initial
    && forall k {:trigger actions[k]} :: 0 <= k < |actions| ==>
         Enabled(states[k], actions[k]) && states[k+1] == Step(states[k], actions[k], max)
  }

  /** Every reachable state satisfies the slot guarantee. */
  lemma {:induction false} SlotsAreSafe(states: seq<State>, actions: seq<Action>, max: nat, k: nat)
    requires Run(states, actions, max) && k < |states|
    ensures Inv(states[k], max)
    decreases k
  {
    if k > 0 {
      assert Enabled(states[k-1], actions[k-1]);
      SlotsAreSafe(states, actions, max, k - 1);
      StepKeepsInv(states[k-1], actions[k-1], max);
    }
  }

  /** A sleeping thread is never forgotten: with at least one slot, some holder has yet to release or
      some woken thread has yet to try again, and if a slot is free that thread will get it. */
  lemma NoSleeperIsForgotten(states: seq<State>, actions: seq<Action>, max: nat, k: nat)
    requires Run(states, actions, max) && k < |states| && max > 0 && In(states[k].phase, Asleep) != {}
    ensures In(states[k].phase, Holding) != {} || In(states[k].phase, Woken) != {}
    ensures states[k].count < max ==>
      exists t :: t in In(states[k].phase, Woken) && t in In(Step(states[k], Acquire(t), max).phase, Holding)
  {
    SlotsAreSafe(states, actions, max, k);
    var s := states[k];
    if s.count < max {
      assert Count(s.phase, Woken) > 0;
      var t :| t in In(s.phase, Woken);
      assert t in In(Step(s, Acquire(t), max).phase, Holding);
    }
  }
}
