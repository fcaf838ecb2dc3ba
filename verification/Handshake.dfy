/** The two-condition handshake between the clock thread and one timer thread
    (sys/clock.c:26-83, sys/timer.c:11-50). Every step runs with the mutex held; a broadcast wakes
    only a thread that is already waiting, and is lost otherwise. */
module Handshake {
  /** Ready: about to take the mutex. Waiting: on its condition. Woken: signalled, about to go on. */
  datatype Phase = Ready | Waiting | Woken

  datatype State = State(clock: Phase, timer: Phase, counter: int, lastTick: int,
                         examined: seq<int>, interrupts: seq<int>)

  datatype Step = ClockTick | ClockResume | TimerWait | TimerExamine

  function Wake(p: Phase): Phase {
    if p == Waiting then Woken else p
  }

  predicate Enabled(s: State, e: Step) {
    match e
    case ClockTick => s.clock == Ready
    case ClockResume => s.clock == Woken
    case TimerWait => s.timer == Ready
    case TimerExamine => s.timer == Woken
  }

  /** The timer's check of its interval. */
  function Examine(s: State, interval: int): State {
    var t := s.(timer := Ready, clock := Wake(s.clock), examined := s.examined + [s.counter]);
    if s.counter - s.lastTick >= interval
    then t.(lastTick := s.counter, interrupts := s.interrupts + [s.counter])
    else t
  }

  function Next(s: State, e: Step, interval: int): State
    requires Enabled(s, e)
  {
    match e
    case ClockTick => s.(counter := s.counter + 1, timer := Wake(s.timer), clock := Waiting)
    case ClockResume => s.(clock := Ready)
    case TimerWait => s.(timer := Waiting)
    case TimerExamine => Examine(s, interval)
  }

  /** No step of one thread moves the other, except that a broadcast wakes it where it waits: a tick the timer,
      an examination the clock. */
  lemma StepsAreLocal(s: State, e: Step, interval: int)
    requires Enabled(s, e)
    ensures var t := Next(s, e, interval);
            && (e.ClockTick? || e.ClockResume? ==>
                  && t.timer == (if e.ClockTick? && s.timer == Waiting then Woken else s.timer)
                  && t.lastTick == s.lastTick && t.examined == s.examined && t.interrupts == s.interrupts)
            && (e.TimerWait? || e.TimerExamine? ==>
                  && t.clock == (if e.TimerExamine? && s.clock == Waiting then Woken else s.clock)
                  && t.counter == s.counter)
  {
  }

  /** A run: every step enabled when it is taken. */
  ghost predicate IsRun(s: State, es: seq<Step>, interval: int) {
    es == [] || (IsRun(s, es[..|es|-1], interval) && Enabled(After(s, es[..|es|-1], interval), es[|es|-1]))
  }

  function After(s: State, es: seq<Step>, interval: int): State {
    if es == [] then s
    else
      var t := After(s, es[..|es|-1], interval);
      if Enabled(t, es[|es|-1]) then Next(t, es[|es|-1], interval) else t
  }

  /** A timer created at tick `t0` while the clock sleeps. */
  function Start(t0: int): State {
    State(Ready, Ready, t0, t0, [], [])
  }

  /** Ticks t0+1, t0+2, ... in order. */
  ghost predicate Consecutive(xs: seq<int>, t0: int) {
    forall i :: 0 <= i < |xs| ==> xs[i] == t0 + 1 + i
  }

  /** Multiples of the interval after t0. */
  ghost predicate Spaced(xs: seq<int>, t0: int, interval: int) {
    forall i :: 0 <= i < |xs| ==> xs[i] == t0 + interval * (i + 1)
  }

  /** A tick has happened that the timer has not examined yet. */
  predicate Unexamined(s: State, t0: int) {
    |s.examined| < s.counter - t0
  }

  ghost predicate Lockstep(s: State, t0: int, interval: int) {
    && Consecutive(s.examined, t0)
    && |s.examined| <= s.counter - t0 <= |s.examined| + 1
    && (Unexamined(s, t0) ==> s.clock == Waiting)
    && (s.timer == Woken ==> Unexamined(s, t0))
    && Spaced(s.interrupts, t0, interval)
    && s.lastTick == t0 + interval * |s.interrupts|
    && s.lastTick <= t0 + |s.examined| < s.lastTick + interval
  }

  lemma NextLockstep(s: State, e: Step, t0: int, interval: int)
    requires interval >= 1 && Lockstep(s, t0, interval) && Enabled(s, e)
    ensures Lockstep(Next(s, e, interval), t0, interval)
  {
    if e == TimerExamine {
      var n := |s.interrupts|;
      assert interval * (n + 1) == interval * n + interval;
    }
  }

  /** In every run the timer examines each tick before the next one happens, and its interrupts are
      exactly `interval` ticks apart. */
  lemma {:induction false} ClockAndTimerInLockstep(es: seq<Step>, t0: int, interval: int)
    requires interval >= 1 && IsRun(Start(t0), es, interval)
    ensures Lockstep(After(Start(t0), es, interval), t0, interval)
  {
    if es != [] {
      ClockAndTimerInLockstep(es[..|es|-1], t0, interval);
      NextLockstep(After(Start(t0), es[..|es|-1], interval), es[|es|-1], t0, interval);
    }
  }

  /** A tick that no timer was waiting for: the clock waits for an answer nobody owes it. */
  ghost predicate Stuck(s: State) {
    s.clock == Waiting && s.timer != Woken
  }

  /** From a stuck state the clock never ticks again. */
  lemma {:induction false} StuckForever(s: State, es: seq<Step>, interval: int)
    requires Stuck(s) && IsRun(s, es, interval)
    ensures Stuck(After(s, es, interval)) && After(s, es, interval).counter == s.counter
  {
    if es != [] {
      StuckForever(s, es[..|es|-1], interval);
    }
  }

  /** A tick is answered exactly when the timer was already waiting for it: then examining and
      resuming bring the clock round again, otherwise it has ticked for the last time. */
  lemma TickAnsweredIff(s: State, interval: int)
    requires s.clock == Ready && s.timer != Woken
    ensures var t := Next(s, ClockTick, interval);
            && (Stuck(t) <==> s.timer != Waiting)
            && (s.timer == Waiting ==>
                  && IsRun(t, [TimerExamine, ClockResume], interval)
                  && After(t, [TimerExamine, ClockResume], interval).clock == Ready)
  {
    var t := Next(s, ClockTick, interval);
    if s.timer == Waiting {
      var es := [TimerExamine, ClockResume];
      assert es[..1] == [TimerExamine] && es[..1][..0] == [];
      assert After(t, es[..1], interval) == Examine(t, interval);
      assert IsRun(t, es[..1], interval);
    }
  }

  /** After a tick some run brings the clock back to take the next one. */
  ghost predicate ClockComesBack(s: State, interval: int)
    requires s.clock == Ready
  {
    exists es :: IsRun(Next(s, ClockTick, interval), es, interval)
                 && After(Next(s, ClockTick, interval), es, interval).clock == Ready
  }

  /** The clock can come back from a tick if and only if the timer was waiting for it. */
  lemma ClockComesBackIff(s: State, interval: int)
    requires s.clock == Ready && s.timer != Woken
    ensures ClockComesBack(s, interval) <==> s.timer == Waiting
  {
    var t := Next(s, ClockTick, interval);
    TickAnsweredIff(s, interval);
    if s.timer == Waiting {
      assert IsRun(t, [TimerExamine, ClockResume], interval);
    } else {
      forall es | IsRun(t, es, interval) ensures After(t, es, interval).clock != Ready {
        StuckForever(t, es, interval);
      }
    }
  }

  /** The clock can tick before the timer first waits; then it never ticks again. */
  lemma FirstTickCanBeLost(t0: int, interval: int)
    ensures IsRun(Start(t0), [ClockTick], interval)
    ensures Stuck(After(Start(t0), [ClockTick], interval)) && !ClockComesBack(Start(t0), interval)
  {
    assert [ClockTick][..0] == [];
    assert After(Start(t0), [], interval) == Start(t0);
    ClockComesBackIff(Start(t0), interval);
  }
}
