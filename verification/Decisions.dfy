/** What the scheduler's formulas and the PCBs it hands on amount to, in numbers: shares of the quantum,
    places of a level, what is requeued and what is started (sys/process.c:583-775, 842-850). */
module Decisions {
  import opened CArith
  import opened Process
  import opened Machine
  import opened Scheduler
  import opened Population

  // ------------------------------------------------------------------ the share of the quantum

  /** `off` hundredths of quantum times priority, cut off toward zero. */
  ghost predicate IsShare(cfg: Config, priority: int, off: int) {
    var x := cfg.quantum * priority;
    && (x >= 0 ==> 100 * off <= x < 100 * off + 100)
    && (x <= 0 ==> 100 * off - 100 < x <= 100 * off)
  }

  lemma OffsetIsShare(cfg: Config, p: PCB)
    ensures IsShare(cfg, p.priority, DeadlineOffset(cfg, p))
  {
  }

  lemma ProductOrdered(q: nat, a: int, b: int)
    requires a <= b
    ensures q * a <= q * b
  {
  }

  /** A more urgent process never has the larger share. */
  lemma SharesOrdered(cfg: Config, a: int, b: int, x: int, y: int)
    requires IsShare(cfg, a, x) && IsShare(cfg, b, y) && a <= b
    ensures x <= y
  {
    ProductOrdered(cfg.quantum, a, b);
  }

  // ------------------------------------------------------------------ places of a level

  /** A fortieth of the ready queue's places, and two at the least. */
  ghost predicate IsLevelSize(readyCapacity: nat, places: nat) {
    if readyCapacity >= 80 then 40 * places <= readyCapacity < 40 * (places + 1) else places == 2
  }

  /** Forty levels of this size have no more places than the ready queue from eighty places on, and not below. */
  lemma LevelPlaces(cfg: Config)
    ensures IsLevelSize(cfg.readyCapacity, LevelCapacity(cfg))
    ensures forall m: nat :: IsLevelSize(cfg.readyCapacity, m) ==> m == LevelCapacity(cfg)
    ensures 40 * LevelCapacity(cfg) <= cfg.readyCapacity <==> cfg.readyCapacity >= 80
  {
  }

  // ------------------------------------------------------------------ who gets a place

  /** Under the priority policy a process is taken if and only if its priority lies within -20 and 19 and the
      level of that number, counted from -20, has a place; it goes to the rear of that level. */
  lemma LevelRules(cfg: Config, q: Sched, p: PCB, places: nat)
    requires SchedWf(cfg, q) && cfg.policy == PreemptivePrio && IsLevelSize(cfg.readyCapacity, places)
    ensures var r := EnqueueTo(cfg, q, p);
            && |q.levels| == 40
            && (r.Some? <==> -20 <= p.priority <= 19 && |q.levels[p.priority + 20]| < places)
            && (r.Some? ==>
                  var l := p.priority + 20;
                  && |r.value.levels| == 40 && r.value.levels[l] == q.levels[l] + [p]
                  && (forall k :: 0 <= k < 40 && k != l ==> r.value.levels[k] == q.levels[k])
                  && r.value.ready == q.ready && r.value.log == q.log + [Enqueued(p.pid)])
  {
    hide IsLevelSize;
    LevelPlaces(cfg);
  }

  /** Under the other policies it is taken if and only if the ready queue has a place, at the rear. */
  lemma ReadyRules(cfg: Config, q: Sched, p: PCB)
    requires SchedWf(cfg, q) && cfg.policy != PreemptivePrio
    ensures var r := EnqueueTo(cfg, q, p);
            && (r.Some? <==> |q.ready| < cfg.readyCapacity)
            && (r.Some? ==> r.value.ready == q.ready + [p] && r.value.levels == q.levels
                            && r.value.log == q.log + [Enqueued(p.pid)])
  {
  }

  function OfPriority(ps: seq<PCB>, x: int): seq<PCB> {
    if ps == [] then [] else (if ps[0].priority == x then [ps[0]] else []) + OfPriority(ps[1..], x)
  }

  /** The transfer has taken the first `d` arrivals of `q` into their levels, in order; a next one, if any, has
      no place and is now last in the ready queue. */
  ghost predicate TakenInOrder(cfg: Config, q: Sched, r: Sched, d: nat) {
    && d <= |q.ready| && |q.levels| == |r.levels| == 40
    && (forall l :: 0 <= l < 40 ==> r.levels[l] == q.levels[l] + OfPriority(q.ready[..d], l - 20))
    && (if d == |q.ready| then r.ready == []
        else
          var p := q.ready[d];
          && r.ready == q.ready[d+1..] + [p]
          && (-20 <= p.priority <= 19 ==> |r.levels[p.priority + 20]| >= LevelCapacity(cfg)))
  }

  lemma TakenOneMore(cfg: Config, q: Sched, r1: Sched, r: Sched, d: nat)
    requires SchedWf(cfg, q) && cfg.policy == PreemptivePrio && q.ready != []
    requires EnqueueTo(cfg, q.(ready := q.ready[1..], preempted := r1.preempted), q.ready[0]) == Some(r1)
    requires TakenInOrder(cfg, r1, r, d)
    ensures TakenInOrder(cfg, q, r, d + 1)
  {
    hide OfPriority, LevelCapacity;
    var p := q.ready[0];
    assert q.ready[..d+1][1..] == r1.ready[..d];
    if d + 1 < |q.ready| {
      assert q.ready[d+2..] == r1.ready[d+1..];
    }
    forall l | 0 <= l < 40 ensures r.levels[l] == q.levels[l] + OfPriority(q.ready[..d+1], l - 20) {
      NextOfPriority(q.ready[..d+1], l - 20);
      assert r1.levels[l] == q.levels[l] + if l == p.priority + 20 then [p] else [];
    }
  }

  lemma NextOfPriority(ps: seq<PCB>, x: int)
    requires ps != []
    ensures OfPriority(ps, x) == (if ps[0].priority == x then [ps[0]] else []) + OfPriority(ps[1..], x)
  {
  }

  /** Every transfer works that way. */
  lemma {:induction false} TransferInOrder(cfg: Config, room: bool, q: Sched) returns (d: nat)
    requires SchedWf(cfg, q) && cfg.policy == PreemptivePrio
    ensures TakenInOrder(cfg, q, Transfer(cfg, room, q), d)
    decreases |q.ready|
  {
    d := 0;
    if q.ready != [] {
      var rest := q.(ready := q.ready[1..], preempted := q.preempted || !room);
      match EnqueueTo(cfg, rest, q.ready[0])
      case Some(r) =>
        hide TakenInOrder;
        d := TransferInOrder(cfg, room, r);
        TakenOneMore(cfg, q, r, Transfer(cfg, room, r), d);
        d := d + 1;
      case None =>
    }
  }

  // ------------------------------------------------------------------ what is requeued

  /** `p` is the process of thread `t` on its way back to a queue at tick `clock`. */
  ghost predicate Requeued(cfg: Config, clock: int, t: Thread, p: PCB) {
    && p.pid == t.pcb.pid && p.priority == t.pcb.priority && p.ttl == t.pcb.ttl
    && p.initialTtl == t.pcb.initialTtl && p.pgb == t.pcb.pgb
    && p.context.pc == t.ctx.pc && p.context.ir == t.ctx.ir && p.context.regs == t.ctx.regs
    && p.state == Waiting && p.quantumCounter == 0
    && (if cfg.policy == Bfs then IsShare(cfg, p.priority, p.deadline - clock) else p.deadline == t.pcb.deadline)
  }

  predicate IsWaiting(q: Sched, p: PCB) {
    p in q.ready || exists l :: 0 <= l < |q.levels| && p in q.levels[l]
  }

  ghost predicate WaitsOrReturns(cfg: Config, clock: int, q: Sched, ts: seq<Thread>, p: PCB) {
    IsWaiting(q, p) || exists t :: t in ts && Leaves(cfg, t) && Requeued(cfg, clock, t, p)
  }

  lemma {:induction false} SavedIsRequeued(cfg: Config, clock: int, t: Thread)
    ensures Requeued(cfg, clock, t, Saved(cfg, clock, Bumped(t)))
  {
    OffsetIsShare(cfg, t.pcb);
    assert DeadlineOffset(cfg, Bump(t.pcb)) == DeadlineOffset(cfg, t.pcb);
  }

  /** After a sweep everyone waiting was waiting before or comes from an expired thread, with its context
      saved, its counter cleared and, under BFS, a deadline at the clock plus its share. */
  lemma SweepRequeues(cfg: Config, clock: int, q: Sched, ts: seq<Thread>)
    requires SchedWf(cfg, q)
    ensures EachWaiting(SweepQueues(cfg, clock, q, ts), p => WaitsOrReturns(cfg, clock, q, ts, p))
  {
    var R := (t: Thread) => t in ts;
    forall t | R(t) && Leaves(cfg, t) ensures WaitsOrReturns(cfg, clock, q, ts, Saved(cfg, clock, Bumped(t))) {
      SavedIsRequeued(cfg, clock, t);
    }
    SweepEach(cfg, clock, q, ts, p => WaitsOrReturns(cfg, clock, q, ts, p), R);
  }

  lemma {:induction false} SweepShares(cfg: Config, clock: int, q: Sched, ts: seq<Thread>)
    requires SchedWf(cfg, q) && cfg.policy == Bfs
    ensures var r := SweepQueues(cfg, clock, q, ts).ready;
            && q.ready <= r
            && forall i :: |q.ready| <= i < |r| ==> IsShare(cfg, r[i].priority, r[i].deadline - clock)
  {
    hide DeadlineOffset, IsShare;
    if ts != [] {
      var t := ts[|ts|-1];
      SweepShares(cfg, clock, q, ts[..|ts|-1]);
      OffsetIsShare(cfg, Bump(t.pcb));
    }
  }

  /** Of two processes that one activation puts back under BFS, the more urgent one never gets the later
      deadline. */
  lemma RequeuedByUrgency(cfg: Config, s: Sys, i: nat, j: nat)
    requires SysWf(cfg, s) && cfg.policy == Bfs
    requires var r := BeforeDispatch(cfg, s).ready;
             |s.sched.ready| <= i < |r| && |s.sched.ready| <= j < |r| && r[i].priority <= r[j].priority
    ensures var r := BeforeDispatch(cfg, s).ready; r[i].deadline <= r[j].deadline
  {
    hide IsShare, SweepQueues;
    var r := BeforeDispatch(cfg, s).ready;
    SweepShares(cfg, s.clock, s.sched, Order(s.cores));
    SharesOrdered(cfg, r[i].priority, r[j].priority, r[i].deadline - s.clock, r[j].deadline - s.clock);
  }

  /** A thread gives up its process at the activation that completes its quantum, or at once under timer
      sync; before that it keeps it, unless the program has stopped or its life is over. */
  lemma QuantumRules(cfg: Config, t: Thread)
    ensures var n := t.pcb.quantumCounter + 1;
            var over := n >= if cfg.sync == ClockSync then cfg.quantum else 1;
            var ended := t.pcb.state == Terminated || t.pcb.ttl <= 0;
            && (Done(Bump(t.pcb)) <==> ended)
            && (Leaves(cfg, t) <==> !ended && over)
            && (Stays(cfg, t) <==> !ended && !over)
  {
  }

  // ------------------------------------------------------------------ what is started

  /** Thread `u` is thread `t` one activation older. */
  predicate Survived(t: Thread, u: Thread) {
    u.ctx == t.ctx && u.pcb == t.pcb.(quantumCounter := t.pcb.quantumCounter + 1)
  }

  /** Thread `u` has just been started with process `p`: its context restored, its counter cleared and, the
      first time under BFS, a deadline at the clock plus its share. */
  ghost predicate LaunchedFrom(cfg: Config, clock: int, p: PCB, u: Thread) {
    && u.pcb.pid == p.pid && u.pcb.priority == p.priority && u.pcb.ttl == p.ttl
    && u.pcb.initialTtl == p.initialTtl && u.pcb.pgb == p.pgb
    && u.ctx.pc == p.context.pc && u.ctx.ir == p.context.ir && u.ctx.regs == p.context.regs
    && u.pcb.state == Running && u.pcb.quantumCounter == 0
    && (if cfg.policy == Bfs && p.deadline == 0 then IsShare(cfg, p.priority, u.pcb.deadline - clock)
        else u.pcb.deadline == p.deadline)
  }

  ghost predicate StaysOrStarts(cfg: Config, s: Sys, q: Sched, u: Thread) {
    || (exists t :: t in Order(s.cores) && Stays(cfg, t) && Survived(t, u))
    || (exists p :: IsWaiting(q, p) && LaunchedFrom(cfg, s.clock, p, u))
  }

  lemma {:induction false} RestoredIsLaunched(cfg: Config, clock: int, p: PCB)
    ensures LaunchedFrom(cfg, clock, p, Restored(cfg, clock, p))
  {
    OffsetIsShare(cfg, p);
  }

  /** After an activation every hardware thread executes what it did before, one activation older, or has
      just been started with a process that was waiting after the sweep. */
  lemma ActivationStarts(cfg: Config, s: Sys)
    requires SysWf(cfg, s) && Wakes(cfg, s)
    ensures EachExecuting(Activate(cfg, s).cores, u => StaysOrStarts(cfg, s, BeforeDispatch(cfg, s), u))
  {
    hide SweepQueues, Transfer, Dispatch, KeptCores, LaunchedFrom, Survived, BeforeDispatch;
    var q, ts := BeforeDispatch(cfg, s), Order(s.cores);
    var R := u => StaysOrStarts(cfg, s, q, u);
    forall t | t in ts && Stays(cfg, t) ensures R(Bumped(t)) {
      BumpedSurvives(t);
    }
    KeptEach(cfg, ts, t => t in ts, R);
    OrderKept(cfg, s.cores);
    forall p | IsWaiting(q, p) ensures R(Restored(cfg, s.clock, p)) {
      RestoredIsLaunched(cfg, s.clock, p);
    }
    DispatchEach(cfg, s.clock, q, KeptCores(cfg, s.cores), p => IsWaiting(q, p), R);
  }

  lemma BumpedSurvives(t: Thread)
    ensures Survived(t, Bumped(t))
  {
  }

  // ------------------------------------------------------------------ in what order

  /** Threads on the first `i` cores. */
  function Before(cores: seq<seq<Thread>>, i: nat): nat
    requires i <= |cores|
  {
    if i == 0 then 0 else Before(cores, i - 1) + |cores[i-1]|
  }

  lemma {:induction false} OrderSize(cores: seq<seq<Thread>>, i: nat)
    requires i <= |cores|
    ensures |Order(cores[..i])| == Before(cores, i)
  {
    if i > 0 {
      assert cores[..i][..i-1] == cores[..i-1];
      OrderSize(cores, i - 1);
    }
  }

  /** The sweep meets thread `k` of core `i` after those of the cores before and of the later slots. */
  lemma {:induction false} OrderAt(cores: seq<seq<Thread>>, i: nat, k: nat)
    requires i < |cores| && k < |cores[i]|
    ensures var n := Before(cores, i) + (|cores[i]| - 1 - k);
            n < |Order(cores)| && Order(cores)[n] == cores[i][k]
  {
    var n := |cores| - 1;
    OrderSize(cores, n);
    if i < n {
      OrderAt(cores[..n], i, k);
      SameBefore(cores, i, n);
    } else {
      ReversedAt(cores[n], |cores[n]| - 1 - k);
    }
  }

  lemma {:induction false} SameBefore(cores: seq<seq<Thread>>, i: nat, n: nat)
    requires i <= n <= |cores|
    ensures Before(cores[..n], i) == Before(cores, i)
  {
    if i > 0 {
      SameBefore(cores, i - 1, n);
    }
  }

  /** Under clock sync a second activation in the same tick does nothing. */
  lemma OneActivationPerTick(cfg: Config, s: Sys)
    requires SysWf(cfg, s) && cfg.sync == ClockSync
    ensures Activate(cfg, Activate(cfg, s)) == Activate(cfg, s)
    ensures s.clock == s.lastTick ==> Activate(cfg, s) == s
    ensures s.clock != s.lastTick ==> Activate(cfg, s).lastTick == s.clock
  {
    hide Dispatch, BeforeDispatch, KeptCores;
  }

  /** Only the clock moves the clock, by one, and it leaves the queues alone; an activation leaves the
      memory alone and, under timer sync, the last tick seen. */
  lemma StepsApart(cfg: Config, s: Sys)
    requires SysWf(cfg, s)
    ensures Tick(cfg, s).clock == s.clock + 1 && Tick(cfg, s).sched == s.sched && Tick(cfg, s).lastTick == s.lastTick
    ensures Activate(cfg, s).clock == s.clock && Activate(cfg, s).mem == s.mem
    ensures cfg.sync == TimerSync ==> Activate(cfg, s).lastTick == s.lastTick
  {
    hide Dispatch, BeforeDispatch, KeptCores, TickCores;
  }
}
