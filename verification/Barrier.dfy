/**
 The runtime's barrier as a state machine: any number of threads, interleaved at every point where
 one of them takes or releases the lock, sleeps, is woken for whatever reason, or times out.
 */
module Barrier {

  /** Wait(self) is Increment(-1) without a time limit. */
  datatype Op = Pass | Increment(delta: int, timed: bool) | Init(count: int)

  datatype Pc =
    | Outside
    | Entering(op: Op)                        // wants the lock
    | Inside(op: Op)                          // has the lock, count not yet changed
    | Testing(timed: bool, slept: bool, timedOut: bool)  // has the lock, about to look at the count
    | Sleeping(timed: bool)                   // in the condition variable, lock released
    | Woken(timed: bool, timedOut: bool)      // wants the lock back
    | Leaving(waited: bool, timed: bool, timedOut: bool) // has the lock, about to return; `waited` if from Increment
  {
    predicate HasLock()
    {
      Inside? || Testing? || Leaving?
    }
  }

  /** `changes` counts how often a Pass or Wait has taken effect. */
  datatype State = State(count: int, holder: set<nat>, pcs: map<nat, Pc>, changes: nat)

  datatype Step =
    | Call(t: nat, op: Op)
    | Acquire(t: nat)
    | SetCount(t: nat)
    | Test(t: nat, expired: bool)
    | Leave(t: nat)
    | WakeUp(t: nat, timedOut: bool)

  function Broadcast(pcs: map<nat, Pc>): map<nat, Pc>
  {
    map t | t in pcs :: if pcs[t].Sleeping? then Woken(pcs[t].timed, false) else pcs[t]
  }

  function NewCount(count: int, op: Op): int
  {
    match op
    case Pass => count - 1
    case Increment(delta, _) => count + delta
    case Init(c) => c
  }

  /** SetCountLocked, by the thread that has the lock: reaching zero wakes all sleepers. */
  function SetCountLocked(s: State, t: nat, op: Op): State
    requires t in s.pcs
  {
    var count := NewCount(s.count, op);
    var pcs := if count == 0 then Broadcast(s.pcs) else s.pcs;
    var pc := if op.Increment? then Testing(op.timed, false, false) else Leaving(false, false, false);
    State(count, s.holder, pcs[t := pc], s.changes + (if op == Pass || op == Increment(-1, false) then 1 else 0))
  }

  /** What a waiting thread does when it looks at the count; `expired` is what its clock says. */
  function Look(s: State, pc: Pc, expired: bool): Pc
    requires pc.Testing?
  {
    if pc.timedOut then Leaving(true, pc.timed, true)
    else if s.count == 0 then Leaving(true, pc.timed, false)
    else if pc.timed && pc.slept && expired then Leaving(true, pc.timed, true)
    else Sleeping(pc.timed)
  }

  ghost predicate Next(s: State, step: Step, s': State)
  {
    && step.t in s.pcs
    && var t, pc := step.t, s.pcs[step.t];
       match step
       case Call(_, op) => pc.Outside? && s' == s.(pcs := s.pcs[t := Entering(op)])
       case Acquire(_) =>
         && s.holder == {}
         && ((pc.Entering? && s' == s.(holder := {t}, pcs := s.pcs[t := Inside(pc.op)]))
             || (pc.Woken? && s' == s.(holder := {t}, pcs := s.pcs[t := Testing(pc.timed, true, pc.timedOut)])))
       case SetCount(_) => pc.Inside? && s' == SetCountLocked(s, t, pc.op)
       case Test(_, expired) =>
         && pc.Testing?
         && var after := Look(s, pc, expired);
            s' == s.(holder := if after.Sleeping? then {} else s.holder, pcs := s.pcs[t := after])
       case Leave(_) => pc.Leaving? && s' == s.(holder := {}, pcs := s.pcs[t := Outside])
       case WakeUp(_, timedOut) =>
         pc.Sleeping? && (timedOut ==> pc.timed) && s' == s.(pcs := s.pcs[t := Woken(pc.timed, timedOut)])
  }

  ghost predicate Initial(s: State, count: int)
  {
    s.count == count && s.holder == {} && s.changes == 0 && forall t :: t in s.pcs ==> s.pcs[t] == Outside
  }

  /** A run of the barrier: any steps, in any order, by any threads. */
  ghost predicate IsRun(count: int, states: seq<State>, steps: seq<Step>)
  {
    && |states| == |steps| + 1 && Initial(states[0], count)
    && forall i :: 0 <= i < |steps| ==> Next(states[i], steps[i], states[i + 1])
  }

  // ---------------------------------------------------------------- invariants

  /** The lock is held by the one thread that is at a place where it has it. */
  ghost predicate Exclusive(s: State)
  {
    forall t :: t in s.pcs ==> (s.pcs[t].HasLock() <==> s.holder == {t})
  }

  /** Nobody sleeps at zero. */
  ghost predicate NobodySleepsAtZero(s: State)
  {
    s.count == 0 ==> forall t :: t in s.pcs ==> !s.pcs[t].Sleeping?
  }

  /** Who is about to return from a wait without having timed out sees the count at zero. */
  ghost predicate LeavesAtZero(s: State)
  {
    forall t :: t in s.pcs && s.pcs[t].Leaving? && s.pcs[t].waited && !s.pcs[t].timedOut ==> s.count == 0
  }

  /** Only a timed wait can time out. */
  ghost predicate TimeOutsAreTimed(s: State)
  {
    forall t :: t in s.pcs && (s.pcs[t].Testing? || s.pcs[t].Woken? || s.pcs[t].Leaving?) && s.pcs[t].timedOut ==>
      s.pcs[t].timed
  }

  ghost predicate Safe(s: State)
  {
    Exclusive(s) && NobodySleepsAtZero(s) && LeavesAtZero(s) && TimeOutsAreTimed(s)
  }

  lemma LockMovesOn(s: State, step: Step, s': State)
    requires Exclusive(s) && Next(s, step, s')
    ensures Exclusive(s')
  {
    forall t | t in s'.pcs
      ensures s'.pcs[t].HasLock() <==> s'.holder == {t}
    {
      assert t in s.pcs && (s.pcs[t].HasLock() <==> s.holder == {t});
      assert s.pcs[step.t].HasLock() <==> s.holder == {step.t};
      if t != step.t {
        OthersKeepPlace(s, step, s', t);
        assert step.t in {step.t} && step.t !in {t} && t !in {step.t};
      }
    }
  }

  /** A step moves its own thread; another one at most from sleeping to woken. */
  lemma OthersKeepPlace(s: State, step: Step, s': State, t: nat)
    requires Next(s, step, s') && t in s.pcs && t != step.t
    ensures t in s'.pcs
    ensures s'.pcs[t] == s.pcs[t] || (s.pcs[t].Sleeping? && s'.pcs[t] == Woken(s.pcs[t].timed, false))
    ensures s'.count == 0 && s.count != 0 ==> !s'.pcs[t].Sleeping?
  {
  }

  lemma SleepersWoken(s: State, step: Step, s': State)
    requires NobodySleepsAtZero(s) && Next(s, step, s')
    ensures NobodySleepsAtZero(s')
  {
  }

  lemma ReturnsKept(s: State, step: Step, s': State)
    requires Exclusive(s) && LeavesAtZero(s) && Next(s, step, s')
    ensures LeavesAtZero(s')
  {
  }

  lemma TimesKept(s: State, step: Step, s': State)
    requires TimeOutsAreTimed(s) && Next(s, step, s')
    ensures TimeOutsAreTimed(s')
  {
  }

  /** Every state of every run is safe. */
  lemma {:induction false} RunsAreSafe(count: int, states: seq<State>, steps: seq<Step>, i: nat)
    requires IsRun(count, states, steps) && i < |states|
    ensures Safe(states[i])
  {
    if i != 0 {
      RunsAreSafe(count, states, steps, i - 1);
      var s, step, s' := states[i - 1], steps[i - 1], states[i];
      assert Next(s, step, s');
      hide Next, Exclusive, NobodySleepsAtZero, LeavesAtZero, TimeOutsAreTimed;
      LockMovesOn(s, step, s');
      SleepersWoken(s, step, s');
      ReturnsKept(s, step, s');
      TimesKept(s, step, s');
    }
  }

  // ---------------------------------------------------------------- what callers rely on

  /** The i-th step is a return from a wait: one without a time limit, or one that reports no time-out. */
  ghost predicate ReturnsFromWait(states: seq<State>, steps: seq<Step>, i: nat)
    requires i < |steps| && |states| == |steps| + 1
  {
    && steps[i].Leave? && steps[i].t in states[i].pcs
    && states[i].pcs[steps[i].t].Leaving?
    && states[i].pcs[steps[i].t].waited
    && (!states[i].pcs[steps[i].t].timed || !states[i].pcs[steps[i].t].timedOut)
  }

  /** Such a return happens only at an instant when the count is zero and nobody sleeps. */
  lemma WaitsReturnAtZero(count: int, states: seq<State>, steps: seq<Step>, i: nat)
    requires IsRun(count, states, steps) && i < |steps| && ReturnsFromWait(states, steps, i)
    ensures states[i].count == 0 == states[i + 1].count
    ensures forall t :: t in states[i].pcs ==> !states[i].pcs[t].Sleeping?
  {
    RunsAreSafe(count, states, steps, i);
    assert Next(states[i], steps[i], states[i + 1]);
  }

  /** Only Pass and Wait are called. */
  ghost predicate UsedAsLatch(steps: seq<Step>)
  {
    forall i :: 0 <= i < |steps| && steps[i].Call? ==> steps[i].op == Pass || steps[i].op == Increment(-1, false)
  }

  ghost predicate LatchState(s: State, count: int)
  {
    && s.count == count - s.changes
    && forall t :: t in s.pcs ==>
         ((s.pcs[t].Entering? || s.pcs[t].Inside?) ==> s.pcs[t].op == Pass || s.pcs[t].op == Increment(-1, false))
         && (s.pcs[t].Testing? || s.pcs[t].Sleeping? || s.pcs[t].Woken? ==> !s.pcs[t].timed)
  }

  lemma LatchStep(s: State, step: Step, s': State, count: int)
    requires LatchState(s, count) && Next(s, step, s')
    requires step.Call? ==> step.op == Pass || step.op == Increment(-1, false)
    ensures LatchState(s', count)
  {
    forall t | t in s'.pcs
      ensures (s'.pcs[t].Entering? || s'.pcs[t].Inside?) ==>
              s'.pcs[t].op == Pass || s'.pcs[t].op == Increment(-1, false)
      ensures s'.pcs[t].Testing? || s'.pcs[t].Sleeping? || s'.pcs[t].Woken? ==> !s'.pcs[t].timed
    {
      assert step.t in s.pcs && t in s.pcs;
      if t != step.t {
        OthersKeepPlace(s, step, s', t);
      }
    }
  }

  lemma {:induction false} LatchCounts(count: int, states: seq<State>, steps: seq<Step>, i: nat)
    requires IsRun(count, states, steps) && UsedAsLatch(steps) && i < |states|
    ensures LatchState(states[i], count)
  {
    if i != 0 {
      LatchCounts(count, states, steps, i - 1);
      assert Next(states[i - 1], steps[i - 1], states[i]);
      LatchStep(states[i - 1], steps[i - 1], states[i], count);
    }
  }

  /** A latch of `n` lets a waiter go only when exactly `n` calls of Pass or Wait have taken effect. */
  lemma LatchOpensAfterN(n: int, states: seq<State>, steps: seq<Step>, i: nat)
    requires IsRun(n, states, steps) && UsedAsLatch(steps) && i < |steps| && ReturnsFromWait(states, steps, i)
    ensures states[i].changes == n
  {
    hide Next, Safe, LatchState;
    WaitsReturnAtZero(n, states, steps, i);
    LatchCountAt(n, states, steps, i);
  }

  lemma LatchCountAt(n: int, states: seq<State>, steps: seq<Step>, i: nat)
    requires IsRun(n, states, steps) && UsedAsLatch(steps) && i < |states|
    ensures states[i].count == n - states[i].changes
  {
    LatchCounts(n, states, steps, i);
  }

  // ---------------------------------------------------------------- time-outs

  /** Thread `t` went to sleep at step `k`, and has been in the same call up to state `i`. */
  ghost predicate SleptAt(states: seq<State>, steps: seq<Step>, t: nat, k: nat, i: nat)
    requires |states| == |steps| + 1 && i < |states|
  {
    && k < i && steps[k].Test? && steps[k].t == t && t in states[k + 1].pcs && states[k + 1].pcs[t].Sleeping?
    && forall m :: k <= m < i ==> !(steps[m].Call? && steps[m].t == t)
  }

  /** The step is a reason for a timed wait of thread `t` to give up. */
  ghost predicate GivesUp(s: State, step: Step, t: nat)
  {
    || step == WakeUp(t, true)
    || (step == Test(t, true) && t in s.pcs && s.pcs[t].Testing? && s.pcs[t].timed && s.pcs[t].slept)
  }

  /** The thread sleeps, or has slept in this call. */
  predicate HasSlept(pc: Pc)
  {
    pc.Sleeping? || pc.Woken? || (pc.Testing? && pc.slept) || TimedOut(pc)
  }

  predicate TimedOut(pc: Pc)
  {
    (pc.Testing? || pc.Woken? || pc.Leaving?) && pc.timedOut
  }

  /** Who is awake after a sleep slept before; a time-out is noted only after a sleep. */
  ghost predicate TimeOutsFollowSleep(s: State)
  {
    forall t :: t in s.pcs && s.pcs[t].Testing? && s.pcs[t].timedOut ==> s.pcs[t].slept
  }

  lemma {:induction false} NotedAfterSleep(count: int, states: seq<State>, steps: seq<Step>, i: nat)
    requires IsRun(count, states, steps) && i < |states|
    ensures TimeOutsFollowSleep(states[i])
  {
    if i != 0 {
      NotedAfterSleep(count, states, steps, i - 1);
      assert Next(states[i - 1], steps[i - 1], states[i]);
    }
  }

  /** A step after which a thread has slept: it went to sleep just now, or it had slept before. */
  lemma SleptBeforeStep(s: State, step: Step, s': State, t: nat)
    requires Next(s, step, s') && TimeOutsFollowSleep(s) && t in s'.pcs && HasSlept(s'.pcs[t])
    ensures t in s.pcs && !(step.Call? && step.t == t)
    ensures HasSlept(s.pcs[t]) || (step.Test? && step.t == t && s'.pcs[t].Sleeping?)
  {
  }

  /** A thread that is asleep, or awake after a sleep, went to sleep in the same call. */
  lemma {:induction false} WentToSleep(count: int, states: seq<State>, steps: seq<Step>, t: nat, i: nat)
    requires IsRun(count, states, steps) && i < |states| && t in states[i].pcs && HasSlept(states[i].pcs[t])
    ensures exists k :: SleptAt(states, steps, t, k, i)
  {
    if i != 0 {
      var s, step, s' := states[i - 1], steps[i - 1], states[i];
      assert Next(s, step, s');
      NotedAfterSleep(count, states, steps, i - 1);
      SleptBeforeStep(s, step, s', t);
      hide Next, HasSlept;
      if step.Test? && step.t == t && s'.pcs[t].Sleeping? {
        assert SleptAt(states, steps, t, i - 1, i);
      } else {
        WentToSleep(count, states, steps, t, i - 1);
        var k :| SleptAt(states, steps, t, k, i - 1);
        assert SleptAt(states, steps, t, k, i);
      }
    }
  }

  /** A step after which a time-out is noted: it gave the reason, or the time-out was noted before. */
  lemma NotedBeforeStep(s: State, step: Step, s': State, t: nat)
    requires Next(s, step, s') && t in s'.pcs && TimedOut(s'.pcs[t])
    ensures t in s.pcs && !(step.Call? && step.t == t)
    ensures TimedOut(s.pcs[t]) || (GivesUp(s, step, t) && HasSlept(s.pcs[t]))
  {
  }

  /** The reason for a time-out: a step in the same call, at which the thread had slept. */
  lemma {:induction false} TimeOutsHaveReason(count: int, states: seq<State>, steps: seq<Step>, t: nat, i: nat)
    requires IsRun(count, states, steps) && i < |states| && t in states[i].pcs && TimedOut(states[i].pcs[t])
    ensures exists j, k :: 0 <= k < j < i && SleptAt(states, steps, t, k, i) && GivesUp(states[j], steps[j], t)
  {
    if i != 0 {
      var s, step, s' := states[i - 1], steps[i - 1], states[i];
      assert Next(s, step, s');
      NotedBeforeStep(s, step, s', t);
      hide Next, HasSlept, GivesUp, TimedOut;
      if TimedOut(s.pcs[t]) {
        TimeOutsHaveReason(count, states, steps, t, i - 1);
        var j, k :| 0 <= k < j < i - 1 && SleptAt(states, steps, t, k, i - 1) && GivesUp(states[j], steps[j], t);
        assert SleptAt(states, steps, t, k, i) && GivesUp(states[j], steps[j], t);
      } else {
        WentToSleep(count, states, steps, t, i - 1);
        var k :| SleptAt(states, steps, t, k, i - 1);
        assert SleptAt(states, steps, t, k, i) && GivesUp(states[i - 1], steps[i - 1], t);
      }
    }
  }

  /**
   A wait reports a time-out only if it has slept, and only after the condition variable timed out or
   the clock had run out when the thread looked at it after a sleep.
   */
  lemma TimeOutsAreReal(count: int, states: seq<State>, steps: seq<Step>, i: nat)
    requires IsRun(count, states, steps) && i < |steps| && steps[i].Leave?
    requires steps[i].t in states[i].pcs && states[i].pcs[steps[i].t].Leaving? && states[i].pcs[steps[i].t].timedOut
    ensures states[i].pcs[steps[i].t].timed
    ensures exists j, k :: 0 <= k < j < i && SleptAt(states, steps, steps[i].t, k, i)
                                && GivesUp(states[j], steps[j], steps[i].t)
  {
    hide Next, SleptAt, GivesUp;
    RunsAreSafe(count, states, steps, i);
    TimeOutsHaveReason(count, states, steps, steps[i].t, i);
  }

  // ---------------------------------------------------------------- the count

  /** What the step does to the count, by the call it belongs to. */
  function Effect(s: State, step: Step): int
  {
    if step.SetCount? && step.t in s.pcs && s.pcs[step.t].Inside? then
      match s.pcs[step.t].op
      case Pass => -1
      case Increment(delta, _) => delta
      case Init(c) => c - s.count
    else 0
  }

  function Effects(states: seq<State>, steps: seq<Step>, i: nat): int
    requires i <= |steps| && |states| == |steps| + 1
  {
    if i == 0 then 0 else Effects(states, steps, i - 1) + Effect(states[i - 1], steps[i - 1])
  }

  /** The count is what it was at first, plus all increments, minus one for each Pass, as reset by Init. */
  lemma {:induction false} CountIsConserved(count: int, states: seq<State>, steps: seq<Step>, i: nat)
    requires IsRun(count, states, steps) && i < |states|
    ensures states[i].count == count + Effects(states, steps, i)
  {
    if i != 0 {
      CountIsConserved(count, states, steps, i - 1);
      assert Next(states[i - 1], steps[i - 1], states[i]);
    }
  }
}
