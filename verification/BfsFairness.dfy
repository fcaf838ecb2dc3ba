/** BFS under clock sync: the -1 sentinel never clashes, and while a process waits no other one is
    dispatched twice. */
module BfsFairness {
  import opened Process
  import opened Machine
  import opened Scheduler
  import opened Population
  import opened Conservation

  // ------------------------------------------------------------------ deadlines

  predicate LegalPriority(p: PCB) {
    MIN_PRIORITY <= p.priority <= MAX_PRIORITY
  }

  lemma ProductNonNegative(a: nat, b: nat)
    ensures a * b >= 0
  {
  }

  lemma OffsetBounds(cfg: Config, p: PCB)
    requires LegalPriority(p)
    ensures -20 * cfg.quantum <= 100 * DeadlineOffset(cfg, p) <= 19 * cfg.quantum
  {
    var a := cfg.quantum * p.priority;
    assert -20 * cfg.quantum <= a <= 19 * cfg.quantum by {
      ProductNonNegative(cfg.quantum, p.priority + 20);
      ProductNonNegative(cfg.quantum, 19 - p.priority);
    }
  }

  /** A queued process has never run, or its deadline is at least 1 and was set no later than `now`. */
  predicate QueuedDeadline(cfg: Config, now: int, p: PCB) {
    && LegalPriority(p)
    && (p.deadline == 0 || (p.deadline >= 1 && p.deadline - DeadlineOffset(cfg, p) <= now))
  }

  /** A thread has not run for more activations than ticks have passed since tick 1. */
  predicate ThreadClock(now: int, t: Thread) {
    LegalPriority(t.pcb) && 0 <= t.pcb.quantumCounter <= now - 1
  }

  ghost predicate Timed(cfg: Config, s: Sys) {
    && SysWf(cfg, s) && cfg.policy == Bfs && cfg.sync == ClockSync && cfg.quantum >= 1
    && 0 <= s.lastTick <= s.clock
    && EachWaiting(s.sched, p => QueuedDeadline(cfg, s.lastTick, p))
    && EachExecuting(s.cores, t => ThreadClock(s.lastTick, t))
  }

  lemma SavedDeadline(cfg: Config, last: int, clock: int, t: Thread)
    requires cfg.policy == Bfs && cfg.sync == ClockSync && cfg.quantum >= 1 && last < clock
    requires ThreadClock(last, t) && Leaves(cfg, t)
    ensures QueuedDeadline(cfg, clock, Saved(cfg, clock, Bumped(t)))
  {
    OffsetBounds(cfg, t.pcb);
  }

  lemma ActivateTimed(cfg: Config, s: Sys)
    requires Timed(cfg, s)
    ensures Timed(cfg, Activate(cfg, s))
  {
    if Wakes(cfg, s) {
      var P := (p: PCB) => QueuedDeadline(cfg, s.clock, p);
      var R := (t: Thread) => ThreadClock(s.lastTick, t);
      forall t | R(t) && Leaves(cfg, t) ensures P(Saved(cfg, s.clock, Bumped(t))) {
        SavedDeadline(cfg, s.lastTick, s.clock, t);
      }
      ActivateEach(cfg, s, P, R, t => ThreadClock(s.clock, t));
    }
  }

  lemma TickTimed(cfg: Config, s: Sys)
    requires Timed(cfg, s)
    ensures Timed(cfg, Tick(cfg, s))
  {
    var R := (t: Thread) => ThreadClock(s.lastTick, t);
    TickEach(cfg, s, R, R);
  }

  /** In every clock-sync state reachable from any load that start-up accepts each queued deadline is 0
      or at least 1, so -1 always means "none yet". */
  lemma {:induction false} DeadlinesNonNegative(cfg: Config, s: Sys, es: seq<Step>)
    requires Accepted(cfg, s) && cfg.policy == Bfs && cfg.sync == ClockSync && cfg.quantum >= 1
    requires EachWaiting(s.sched, p => LegalPriority(p) && p.deadline == 0)
    ensures Timed(cfg, Run(cfg, s, es))
  {
    if es == [] {
      EmptyOrder(s.cores);
    } else {
      DeadlinesNonNegative(cfg, s, es[..|es|-1]);
      match es[|es|-1]
      case ClockTick => TickTimed(cfg, Run(cfg, s, es[..|es|-1]));
      case Activation => ActivateTimed(cfg, Run(cfg, s, es[..|es|-1]));
    }
  }

  // ------------------------------------------------------------------ timer sync

  /** Activations come from a timer whose interval is the quantum: none before that many ticks. */
  ghost predicate TimerPaced(cfg: Config, s: Sys, es: seq<Step>)
    requires SysWf(cfg, s)
  {
    es == [] ||
    (TimerPaced(cfg, s, es[..|es|-1]) &&
     (es[|es|-1] == Activation ==> Run(cfg, s, es[..|es|-1]).clock >= cfg.quantum))
  }

  predicate PositiveOrNew(p: PCB) {
    LegalPriority(p) && (p.deadline == 0 || p.deadline >= 1)
  }

  predicate LegalThread(t: Thread) { LegalPriority(t.pcb) }

  /** Under timer sync too, each queued deadline is 0 or at least 1. */
  lemma {:induction false} TimerDeadlinesNonNegative(cfg: Config, s: Sys, es: seq<Step>)
    requires Accepted(cfg, s) && cfg.policy == Bfs && cfg.quantum >= 1 && TimerPaced(cfg, s, es)
    requires EachWaiting(s.sched, p => LegalPriority(p) && p.deadline == 0)
    ensures EachWaiting(Run(cfg, s, es).sched, PositiveOrNew)
    ensures EachExecuting(Run(cfg, s, es).cores, LegalThread)
  {
    if es == [] {
      EmptyOrder(s.cores);
    } else {
      var now := Run(cfg, s, es[..|es|-1]);
      TimerDeadlinesNonNegative(cfg, s, es[..|es|-1]);
      match es[|es|-1]
      case ClockTick => TickEach(cfg, now, LegalThread, LegalThread);
      case Activation =>
        if Wakes(cfg, now) {
          forall t | LegalThread(t) && Leaves(cfg, t) ensures PositiveOrNew(Saved(cfg, now.clock, Bumped(t))) {
            OffsetBounds(cfg, t.pcb);
          }
          ActivateEach(cfg, now, PositiveOrNew, LegalThread, LegalThread);
        }
    }
  }

  // ------------------------------------------------------------------ the scan, at every load

  lemma ScanChoosesFirstMinimum(q: Sched)
    requires q.ready != [] && EachWaiting(q, PositiveOrNew)
    ensures IsFirstMinimum(q.ready, Scan(q.ready).1)
  {
    forall i | 0 <= i < |q.ready| ensures q.ready[i].deadline != -1 {
      assert PositiveOrNew(q.ready[i]);
    }
    ScanIsSound(q.ready);
  }

  /** Every scan the dispatch loop makes from here chooses the first minimum of the queue it finds. */
  ghost predicate EveryScanSound(cfg: Config, clock: int, q: Sched, cores: seq<seq<Thread>>)
    requires SchedWf(cfg, q) && CoresWf(cfg, cores) && cfg.policy == Bfs
    decreases FreeSlots(cfg, cores)
  {
    CanDispatch(cfg, q, cores) ==>
      && IsFirstMinimum(q.ready, Scan(q.ready).1)
      && var (q', cores') := DispatchOne(cfg, clock, q, cores);
         EveryScanSound(cfg, clock, q', cores')
  }

  lemma {:induction false} DispatchScans(cfg: Config, clock: int, q: Sched, cores: seq<seq<Thread>>)
    requires SchedWf(cfg, q) && CoresWf(cfg, cores) && cfg.policy == Bfs && EachWaiting(q, PositiveOrNew)
    ensures EveryScanSound(cfg, clock, q, cores)
    decreases FreeSlots(cfg, cores)
  {
    if CanDispatch(cfg, q, cores) {
      ScanChoosesFirstMinimum(q);
      SelectEach(cfg, q, PositiveOrNew);
      var (q', cores') := DispatchOne(cfg, clock, q, cores);
      DispatchScans(cfg, clock, q', cores');
    }
  }

  lemma ActivationScans(cfg: Config, s: Sys, R: Thread -> bool)
    requires SysWf(cfg, s) && cfg.policy == Bfs && EachWaiting(s.sched, PositiveOrNew) && EachExecuting(s.cores, R)
    requires forall t :: R(t) && Leaves(cfg, t) ==> PositiveOrNew(Saved(cfg, s.clock, Bumped(t)))
    ensures EveryScanSound(cfg, s.clock, BeforeDispatch(cfg, s), KeptCores(cfg, s.cores))
  {
    SweepEach(cfg, s.clock, s.sched, Order(s.cores), PositiveOrNew, R);
    DispatchScans(cfg, s.clock, BeforeDispatch(cfg, s), KeptCores(cfg, s.cores));
  }

  /** In every state reachable from any load that start-up accepts, every scan of the next activation
      chooses the first minimum of its queue, whatever the shift then does to the ring. */
  lemma ScansSoundUnderClock(cfg: Config, s: Sys, es: seq<Step>)
    requires Accepted(cfg, s) && cfg.policy == Bfs && cfg.sync == ClockSync && cfg.quantum >= 1
    requires EachWaiting(s.sched, p => LegalPriority(p) && p.deadline == 0)
    ensures var now := Run(cfg, s, es);
            Wakes(cfg, now) ==> EveryScanSound(cfg, now.clock, BeforeDispatch(cfg, now), KeptCores(cfg, now.cores))
  {
    var now := Run(cfg, s, es);
    DeadlinesNonNegative(cfg, s, es);
    if Wakes(cfg, now) {
      var R := (t: Thread) => ThreadClock(now.lastTick, t);
      forall t | R(t) && Leaves(cfg, t) ensures PositiveOrNew(Saved(cfg, now.clock, Bumped(t))) {
        SavedDeadline(cfg, now.lastTick, now.clock, t);
      }
      ActivationScans(cfg, now, R);
    }
  }

  lemma ScansSoundUnderTimer(cfg: Config, s: Sys, es: seq<Step>)
    requires Accepted(cfg, s) && cfg.policy == Bfs && cfg.quantum >= 1 && TimerPaced(cfg, s, es + [Activation])
    requires EachWaiting(s.sched, p => LegalPriority(p) && p.deadline == 0)
    ensures var now := Run(cfg, s, es);
            EveryScanSound(cfg, now.clock, BeforeDispatch(cfg, now), KeptCores(cfg, now.cores))
  {
    var now := Run(cfg, s, es);
    assert (es + [Activation])[..|es|] == es;
    TimerDeadlinesNonNegative(cfg, s, es);
    forall t | LegalThread(t) && Leaves(cfg, t) ensures PositiveOrNew(Saved(cfg, now.clock, Bumped(t))) {
      OffsetBounds(cfg, t.pcb);
    }
    ActivationScans(cfg, now, LegalThread);
  }

  /** With such deadlines and a queue within the load, selection removes the first minimum and
      keeps the order of the rest. */
  lemma {:induction false} SelectsFirstMinimum(cfg: Config, now: int, q: Sched, pids: multiset<int>,
                                               prios: multiset<int>)
    requires SchedWf(cfg, q) && cfg.policy == Bfs && HasReady(cfg, q)
    requires Fits(cfg, pids, prios) && Queued(Pid, q) <= pids
    requires EachWaiting(q, p => QueuedDeadline(cfg, now, p))
    ensures var m := Scan(q.ready).1;
            && IsFirstMinimum(q.ready, m)
            && SelectNext(cfg, q) == (q.ready[m], q.(ready := RemoveAt(q.ready, m)))
  {
    var m := Scan(q.ready).1;
    ReadyHalfFull(cfg, q, pids, prios);
    ShiftOutRemoves(q.ready, m, cfg.readyCapacity);
    ScanIsSound(q.ready);
  }

  // ------------------------------------------------------------------ the trace

  /** `w`, waiting from the start, is in the queue after these events. */
  predicate Pending(log: seq<Event>, w: int) {
    if log == [] then true
    else
      match log[|log|-1]
      case Enqueued(p) => p == w || Pending(log[..|log|-1], w)
      case Dispatched(p) => p != w && Pending(log[..|log|-1], w)
      case Completed(_) => Pending(log[..|log|-1], w)
  }

  /** Dispatches of `x` since `w` last entered the queue. */
  function CountSince(log: seq<Event>, w: int, x: int): nat {
    if log == [] then 0
    else
      match log[|log|-1]
      case Enqueued(p) => if p == w then 0 else CountSince(log[..|log|-1], w, x)
      case Dispatched(p) => CountSince(log[..|log|-1], w, x) + (if p == x then 1 else 0)
      case Completed(_) => CountSince(log[..|log|-1], w, x)
  }

  /** At every moment so far, if `w` was waiting, `x` had been dispatched at most once since `w`
      last entered the queue. */
  ghost predicate AtMostOnce(log: seq<Event>, w: int, x: int) {
    forall n :: 0 <= n <= |log| && Pending(log[..n], w) ==> CountSince(log[..n], w, x) <= 1
  }

  lemma AtMostOnceExtends(log: seq<Event>, e: Event, w: int, x: int)
    requires AtMostOnce(log, w, x)
    requires Pending(log + [e], w) ==> CountSince(log + [e], w, x) <= 1
    ensures AtMostOnce(log + [e], w, x)
  {
    forall n | 0 <= n <= |log| + 1 && Pending((log + [e])[..n], w)
      ensures CountSince((log + [e])[..n], w, x) <= 1
    {
      if n <= |log| {
        assert (log + [e])[..n] == log[..n];
      } else {
        assert (log + [e])[..n] == log + [e];
      }
    }
  }

  lemma TraceStep(log: seq<Event>, e: Event, w: int, x: int)
    ensures (log + [e])[..|log|] == log
    ensures e == Enqueued(w) ==> Pending(log + [e], w) && CountSince(log + [e], w, x) == 0
    ensures e == Dispatched(w) ==> !Pending(log + [e], w)
    ensures e != Enqueued(w) && e != Dispatched(w) ==> Pending(log + [e], w) == Pending(log, w)
    ensures e != Enqueued(w) && e != Dispatched(x) ==> CountSince(log + [e], w, x) == CountSince(log, w, x)
    ensures e == Dispatched(x) ==> CountSince(log + [e], w, x) == CountSince(log, w, x) + 1
  {
    assert (log + [e])[..|log|] == log;
  }

  // ------------------------------------------------------------------ one waiter, one rival

  predicate InReady(q: Sched, w: int) {
    exists i :: 0 <= i < |q.ready| && q.ready[i].pid == w
  }

  /** If rival `x` has run once since `w` entered the queue and waits again, it ranks after `w`. */
  ghost predicate QueuePair(q: Sched, w: int, x: int) {
    && (Pending(q.log, w) <==> InReady(q, w))
    && AtMostOnce(q.log, w, x)
    && forall i, k :: 0 <= i < |q.ready| && 0 <= k < |q.ready|
                      && q.ready[i].pid == w && q.ready[k].pid == x && CountSince(q.log, w, x) == 1
                      ==> q.ready[k].deadline > q.ready[i].deadline
  }

  /** If rival `x` is running since `w` entered the queue, it started no earlier than that. */
  ghost predicate ThreadPair(cfg: Config, q: Sched, now: int, t: Thread, w: int, x: int) {
    t.pcb.pid == x && CountSince(q.log, w, x) == 1 ==>
      forall i :: 0 <= i < |q.ready| && q.ready[i].pid == w ==>
        StartedAfter(cfg, q.ready[i], now, t.pcb)
  }

  predicate StartedAfter(cfg: Config, p: PCB, now: int, r: PCB) {
    p.deadline == 0 || now >= p.deadline - DeadlineOffset(cfg, p) + r.quantumCounter
  }

  ghost predicate ThreadsPair(cfg: Config, q: Sched, now: int, ts: seq<Thread>, w: int, x: int) {
    forall k :: 0 <= k < |ts| ==> ThreadPair(cfg, q, now, ts[k], w, x)
  }

  /** A rival that comes back after a full quantum ranks after everyone who was waiting. */
  lemma {:induction false} RivalRanksAfter(cfg: Config, last: int, clock: int, p: PCB, t: Thread)
    requires cfg.policy == Bfs && cfg.sync == ClockSync && cfg.quantum >= 1 && last < clock
    requires ThreadClock(last, t) && Leaves(cfg, t)
    requires LegalPriority(p) && StartedAfter(cfg, p, last, t.pcb)
    ensures Saved(cfg, clock, Bumped(t)).deadline > p.deadline
  {
    OffsetBounds(cfg, t.pcb);
    OffsetBounds(cfg, p);
  }

  /** The sweep's treatment of one thread keeps the pair's invariant. */
  lemma HandlePair(cfg: Config, last: int, clock: int, q: Sched, t: Thread, w: int, x: int)
    requires SchedWf(cfg, q) && cfg.policy == Bfs && cfg.sync == ClockSync && cfg.quantum >= 1 && last < clock
    requires w != x && QueuePair(q, w, x) && ThreadPair(cfg, q, last, t, w, x) && ThreadClock(last, t)
    requires forall i :: 0 <= i < |q.ready| ==> LegalPriority(q.ready[i])
    requires Leaves(cfg, t) ==> EnqueueTo(cfg, q, Saved(cfg, clock, Bumped(t))).Some?
    ensures QueuePair(Handle(cfg, clock, q, t), w, x)
  {
    var q', z := Handle(cfg, clock, q, t), t.pcb.pid;
    if Leaves(cfg, t) {
      var p := Saved(cfg, clock, Bumped(t));
      TraceStep(q.log, Enqueued(z), w, x);
      assert q'.ready == q.ready + [p] && q'.ready[|q.ready|] == p;
      assert InReady(q', w) <==> InReady(q, w) || z == w by {
        if InReady(q, w) {
          var i :| 0 <= i < |q.ready| && q.ready[i].pid == w;
          assert q'.ready[i].pid == w;
        }
      }
      assert q.log[..|q.log|] == q.log;
      AtMostOnceExtends(q.log, Enqueued(z), w, x);
      if z == x {
        forall i | 0 <= i < |q.ready| && q.ready[i].pid == w && CountSince(q.log, w, x) == 1
          ensures p.deadline > q.ready[i].deadline
        {
          RivalRanksAfter(cfg, last, clock, q.ready[i], t);
        }
      }
    } else if Done(Bump(t.pcb)) {
      TraceStep(q.log, Completed(z), w, x);
      assert q.log[..|q.log|] == q.log;
      AtMostOnceExtends(q.log, Completed(z), w, x);
    }
  }

  /** Other threads keep their part of the invariant when one is handled. */
  lemma HandleOthers(cfg: Config, clock: int, q: Sched, t: Thread, now: int, u: Thread, w: int, x: int)
    requires SchedWf(cfg, q) && w != x && ThreadPair(cfg, q, now, u, w, x)
    requires cfg.policy == Bfs
    ensures ThreadPair(cfg, Handle(cfg, clock, q, t), now, u, w, x)
  {
    var z := t.pcb.pid;
    TraceStep(q.log, Enqueued(z), w, x);
    TraceStep(q.log, Completed(z), w, x);
  }

  lemma {:induction false} SweepOthers(cfg: Config, clock: int, q: Sched, ts: seq<Thread>, now: int, u: Thread,
                                       w: int, x: int)
    requires SchedWf(cfg, q) && w != x && ThreadPair(cfg, q, now, u, w, x) && cfg.policy == Bfs
    ensures ThreadPair(cfg, SweepQueues(cfg, clock, q, ts), now, u, w, x)
  {
    hide ThreadPair, Handle;
    if ts != [] {
      SweepOthers(cfg, clock, q, ts[..|ts|-1], now, u, w, x);
      HandleOthers(cfg, clock, SweepQueues(cfg, clock, q, ts[..|ts|-1]), ts[|ts|-1], now, u, w, x);
    }
  }

  lemma {:induction false} SweepPair(cfg: Config, last: int, clock: int, q: Sched, ts: seq<Thread>, w: int, x: int,
                                     pids: multiset<int>, prios: multiset<int>)
    requires SchedWf(cfg, q) && cfg.policy == Bfs && cfg.sync == ClockSync && cfg.quantum >= 1 && last < clock
    requires Placed(q) && Fits(cfg, pids, prios) && LoadWithin(q, ts, pids, prios)
    requires w != x && QueuePair(q, w, x) && ThreadsPair(cfg, q, last, ts, w, x)
    requires EachWaiting(q, LegalPriority) && EachThread(ts, t => ThreadClock(last, t))
    ensures var q' := SweepQueues(cfg, clock, q, ts);
            QueuePair(q', w, x) && ThreadsPair(cfg, q', clock, Kept(cfg, ts), w, x)
  {
    hide QueuePair, ThreadPair, Queued, ThreadTally, Placed, Fits;
    if ts != [] {
      var n := |ts| - 1;
      var before, t := ts[..n], ts[n];
      assert ts == before + [t];
      ThreadTallySnoc(Pid, before, t);
      ThreadTallySnoc(Priority, before, t);
      SweepPair(cfg, last, clock, q, before, w, x, pids, prios);
      SweepSettles(cfg, clock, q, before, pids, prios);
      var r := SweepQueues(cfg, clock, q, before);
      SweepEach(cfg, clock, q, before, LegalPriority, t => ThreadClock(last, t));
      SweepOthers(cfg, clock, q, before, last, t, w, x);
      RequeueSucceeds(cfg, clock, q, before, r, t, pids, prios);
      HandlePair(cfg, last, clock, r, t, w, x);
      var k, q' := Kept(cfg, ts), Handle(cfg, clock, r, t);
      forall i | 0 <= i < |k| ensures ThreadPair(cfg, q', clock, k[i], w, x) {
        if i < |Kept(cfg, before)| {
          HandleOthers(cfg, clock, r, t, clock, k[i], w, x);
        } else {
          SurvivorPair(cfg, last, clock, r, t, w, x);
        }
      }
    }
  }

  lemma SurvivorPair(cfg: Config, last: int, clock: int, q: Sched, t: Thread, w: int, x: int)
    requires last < clock && ThreadPair(cfg, q, last, t, w, x)
    ensures ThreadPair(cfg, q, clock, Bumped(t), w, x)
  {
  }

  // ------------------------------------------------------------------ dispatch

  ghost predicate Distinct(q: Sched, cores: seq<seq<Thread>>) {
    forall y :: (Queued(Pid, q) + Executing(Pid, cores))[y] <= 1
  }

  /** A selected process is nowhere else. */
  lemma SelectedIsAlone(q: Sched, cores: seq<seq<Thread>>, m: nat)
    requires Distinct(q, cores) && m < |q.ready|
    ensures forall i :: 0 <= i < |q.ready| && i != m ==> q.ready[i].pid != q.ready[m].pid
    ensures forall k :: 0 <= k < |Order(cores)| ==> Order(cores)[k].pcb.pid != q.ready[m].pid
  {
    var z, ks := q.ready[m].pid, Keys(Pid, q.ready);
    assert (Queued(Pid, q) + Executing(Pid, cores))[z] <= 1;
    assert ks[m] == z && z in multiset(ks);
    forall i | 0 <= i < |q.ready| && i != m ensures q.ready[i].pid != z {
      CountedOnce(ks, m, i);
    }
    forall k | 0 <= k < |Order(cores)| ensures Order(cores)[k].pcb.pid != z {
      assert ThreadKeys(Pid, Order(cores))[k] in Executing(Pid, cores);
    }
  }

  lemma RemoveAtMembers(q: seq<PCB>, m: nat)
    requires m < |q|
    ensures forall i :: 0 <= i < |q| - 1 ==> RemoveAt(q, m)[i] == q[if i < m then i else i + 1]
  {
  }

  /** Dispatching the first minimum keeps the pair's invariant in the queue. */
  lemma DispatchOnePair(cfg: Config, clock: int, q: Sched, m: nat, r: Sched, w: int, x: int)
    requires w != x && QueuePair(q, w, x) && IsFirstMinimum(q.ready, m)
    requires r.ready == RemoveAt(q.ready, m) && r.log == q.log + [Dispatched(q.ready[m].pid)]
    requires forall i :: 0 <= i < |q.ready| && i != m ==> q.ready[i].pid != q.ready[m].pid
    ensures QueuePair(r, w, x)
  {
    var z := q.ready[m].pid;
    TraceStep(q.log, Dispatched(z), w, x);
    RemoveAtMembers(q.ready, m);
    assert q.log[..|q.log|] == q.log;
    if w != z {
      if InReady(q, w) {
        var i :| 0 <= i < |q.ready| && q.ready[i].pid == w;
        assert r.ready[if i < m then i else i - 1].pid == w;
        assert CountSince(q.log, w, x) <= 1;
      } else {
        assert !InReady(r, w);
      }
    } else {
      assert !InReady(r, w);
    }
    AtMostOnceExtends(q.log, Dispatched(z), w, x);
  }

  lemma DispatchOneThreads(cfg: Config, clock: int, q: Sched, m: nat, r: Sched, ts: seq<Thread>, us: seq<Thread>,
                           w: int, x: int)
    requires w != x && m < |q.ready| && ThreadsPair(cfg, q, clock, ts, w, x)
    requires r.ready == RemoveAt(q.ready, m) && r.log == q.log + [Dispatched(q.ready[m].pid)]
    requires forall i :: 0 <= i < |q.ready| && i != m ==> q.ready[i].pid != q.ready[m].pid
    requires forall k :: 0 <= k < |ts| ==> ts[k].pcb.pid != q.ready[m].pid
    requires forall i :: 0 <= i < |q.ready| ==> QueuedDeadline(cfg, clock, q.ready[i])
    requires forall u :: u in us ==> u in ts || u == Restored(cfg, clock, q.ready[m])
    ensures ThreadsPair(cfg, r, clock, us, w, x)
  {
    TraceStep(q.log, Dispatched(q.ready[m].pid), w, x);
    RemoveAtMembers(q.ready, m);
    forall k | 0 <= k < |us| ensures ThreadPair(cfg, r, clock, us[k], w, x) {
      if us[k] in ts {
        var j :| 0 <= j < |ts| && ts[j] == us[k];
        assert ThreadPair(cfg, q, clock, ts[j], w, x);
      }
    }
  }

  lemma {:induction false} DispatchPair(cfg: Config, clock: int, q: Sched, cores: seq<seq<Thread>>, w: int, x: int,
                                        pids: multiset<int>, prios: multiset<int>)
    requires SchedWf(cfg, q) && CoresWf(cfg, cores) && cfg.policy == Bfs
    requires Fits(cfg, pids, prios) && Queued(Pid, q) <= pids && Distinct(q, cores)
    requires EachWaiting(q, p => QueuedDeadline(cfg, clock, p))
    requires w != x && QueuePair(q, w, x) && ThreadsPair(cfg, q, clock, Order(cores), w, x)
    ensures var (q', cores') := Dispatch(cfg, clock, q, cores);
            QueuePair(q', w, x) && ThreadsPair(cfg, q', clock, Order(cores'), w, x)
    decreases FreeSlots(cfg, cores)
  {
    hide QueuePair, ThreadsPair, Queued, Executing, Fits, Order, QueuedDeadline;
    if CanDispatch(cfg, q, cores) {
      var m := Scan(q.ready).1;
      var (q1, cores1) := DispatchOne(cfg, clock, q, cores);
      SelectsFirstMinimum(cfg, clock, q, pids, prios);
      SelectedIsAlone(q, cores, m);
      DispatchOnePair(cfg, clock, q, m, q1, w, x);
      var a, b := OrderPut(cores, FirstFree(cfg, cores, 0), Restored(cfg, clock, q.ready[m]));
      DispatchOneThreads(cfg, clock, q, m, q1, Order(cores), Order(cores1), w, x);
      SelectEach(cfg, q, p => QueuedDeadline(cfg, clock, p));
      DispatchOneMoves(cfg, clock, Pid, q, cores, pids, prios);
      DispatchPair(cfg, clock, q1, cores1, w, x, pids, prios);
    }
  }

  // ------------------------------------------------------------------ whole runs

  ghost predicate Overtaking(cfg: Config, s: Sys, w: int, x: int) {
    QueuePair(s.sched, w, x) && ThreadsPair(cfg, s.sched, s.lastTick, Order(s.cores), w, x)
  }

  lemma SettledDistinct(before: multiset<int>, after: multiset<int>)
    requires after <= before && forall y :: before[y] <= 1
    ensures forall y :: after[y] <= 1
  {
  }

  lemma {:induction false} ActivateOvertaking(cfg: Config, s: Sys, w: int, x: int, pids: multiset<int>,
                                              prios: multiset<int>)
    requires Timed(cfg, s) && Conserved(cfg, s, pids, prios) && w != x && Overtaking(cfg, s, w, x)
    requires forall y :: Live(Pid, s)[y] <= 1
    ensures Overtaking(cfg, Activate(cfg, s), w, x)
  {
    if Wakes(cfg, s) {
      hide QueuePair, ThreadsPair, Queued, Executing, Order, QueuedDeadline;
      var q, cores := BeforeDispatch(cfg, s), KeptCores(cfg, s.cores);
      var P := (p: PCB) => QueuedDeadline(cfg, s.clock, p);
      var R := (t: Thread) => ThreadClock(s.lastTick, t);
      DeadlinesLegal(cfg, s);
      SweepPair(cfg, s.lastTick, s.clock, s.sched, Order(s.cores), w, x, pids, prios);
      OrderKept(cfg, s.cores);
      forall t | R(t) && Leaves(cfg, t) ensures P(Saved(cfg, s.clock, Bumped(t))) {
        SavedDeadline(cfg, s.lastTick, s.clock, t);
      }
      SweepEach(cfg, s.clock, s.sched, Order(s.cores), P, R);
      BeforeDispatchConserves(cfg, s, pids, prios);
      assert Settled(Live(Pid, s), s.sched.completed, Queued(Pid, q) + Executing(Pid, cores), q.completed,
                     Gone(Pid, Order(s.cores)));
      SettledDistinct(Live(Pid, s), Queued(Pid, q) + Executing(Pid, cores));
      DispatchPair(cfg, s.clock, q, cores, w, x, pids, prios);
    }
  }

  lemma DeadlinesLegal(cfg: Config, s: Sys)
    requires Timed(cfg, s)
    ensures EachWaiting(s.sched, LegalPriority)
    ensures EachWaiting(s.sched, p => QueuedDeadline(cfg, s.clock, p))
  {
  }

  lemma TickOvertaking(cfg: Config, s: Sys, w: int, x: int)
    requires SysWf(cfg, s) && Overtaking(cfg, s, w, x)
    ensures Overtaking(cfg, Tick(cfg, s), w, x)
  {
    hide QueuePair;
    TickPointwise(s.cores, s.mem);
    var now := Order(Tick(cfg, s).cores);
    forall k | 0 <= k < |now| ensures ThreadPair(cfg, s.sched, s.lastTick, now[k], w, x) {
      assert ThreadPair(cfg, s.sched, s.lastTick, Order(s.cores)[k], w, x);
    }
  }

  lemma {:induction false} RunOvertaking(cfg: Config, s: Sys, es: seq<Step>, w: int, x: int)
    requires Loaded(cfg, s) && cfg.policy == Bfs && cfg.sync == ClockSync && cfg.quantum >= 1
    requires EachWaiting(s.sched, p => LegalPriority(p) && p.deadline == 0)
    requires w != x && w in Live(Pid, s)
    ensures Overtaking(cfg, Run(cfg, s, es), w, x)
  {
    hide QueuePair, ThreadsPair, Timed, Conserved;
    if es == [] {
      StartsFair(cfg, s, w, x);
    } else {
      var before := es[..|es|-1];
      var now := Run(cfg, s, before);
      RunOvertaking(cfg, s, before, w, x);
      DeadlinesNonNegative(cfg, s, before);
      RunConserves(cfg, s, before);
      ProcessConservation(cfg, s, before);
      match es[|es|-1]
      case ClockTick => TickOvertaking(cfg, now, w, x);
      case Activation => ActivateOvertaking(cfg, now, w, x, Live(Pid, s), Live(Priority, s));
    }
  }

  lemma StartsFair(cfg: Config, s: Sys, w: int, x: int)
    requires Loaded(cfg, s) && cfg.policy == Bfs && w in Live(Pid, s)
    ensures Overtaking(cfg, s, w, x)
  {
    EmptyOrder(s.cores);
    assert w in Keys(Pid, s.sched.ready);
    var i :| 0 <= i < |s.sched.ready| && Keys(Pid, s.sched.ready)[i] == w;
    assert s.sched.ready[i].pid == w;
  }

  /** With a load that fits, while a process waits every other process is dispatched at most once. */
  lemma {:induction false} BoundedOvertaking(cfg: Config, s: Sys, es: seq<Step>, w: int, x: int)
    requires Loaded(cfg, s) && cfg.policy == Bfs && cfg.sync == ClockSync && cfg.quantum >= 1
    requires EachWaiting(s.sched, p => LegalPriority(p) && p.deadline == 0)
    requires w != x && w in Live(Pid, s)
    ensures AtMostOnce(Run(cfg, s, es).sched.log, w, x)
  {
    RunOvertaking(cfg, s, es, w, x);
  }
}
