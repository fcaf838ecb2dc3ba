/** One activation at any load: when the priority queues take in every arrival, when the preemption
    branch is entered, when the most urgent are started, and when a hardware thread idles while
    somebody waits. */
module Overload {
  import opened CArith
  import opened Process
  import opened Machine
  import opened Scheduler
  import opened Population
  import opened Conservation
  import opened Termination
  import opened PriorityDispatch

  // ------------------------------------------------------------------ priority levels

  /** Every arrival has a legal priority and a place in its level. */
  ghost predicate LevelsTake(cfg: Config, q: Sched)
    requires SchedWf(cfg, q) && cfg.policy == PreemptivePrio
  {
    forall x :: x in Tally(Priority, q.ready) ==>
      && MIN_PRIORITY <= x <= MAX_PRIORITY
      && Tally(Priority, q.ready)[x] + |q.levels[x - MIN_PRIORITY]| <= LevelCapacity(cfg)
  }

  /** Taking in the arrival at the front does not change whether all of them can be taken in. */
  lemma ArrivalTaken(cfg: Config, q: Sched, rest: Sched, r: Sched)
    requires SchedWf(cfg, q) && cfg.policy == PreemptivePrio && q.ready != []
    requires rest.ready == q.ready[1..] && rest.levels == q.levels && SchedWf(cfg, rest)
    requires EnqueueTo(cfg, rest, q.ready[0]) == Some(r)
    ensures LevelsTake(cfg, q) <==> LevelsTake(cfg, r)
  {
    hide Tally;
    TallyHead(Priority, q.ready);
    var p := q.ready[0].priority;
    forall x | MIN_PRIORITY <= x <= MAX_PRIORITY
      ensures Tally(Priority, q.ready)[x] + |q.levels[x - MIN_PRIORITY]|
              == Tally(Priority, r.ready)[x] + |r.levels[x - MIN_PRIORITY]|
    {
    }
    assert forall x :: x in Tally(Priority, q.ready) <==> x == p || x in Tally(Priority, r.ready);
  }

  /** The transfer empties the ready queue if and only if every arrival has a legal priority and no
      level is asked to hold more than its capacity. */
  lemma {:induction false} TransferEmptiesIff(cfg: Config, room: bool, q: Sched)
    requires SchedWf(cfg, q) && cfg.policy == PreemptivePrio
    ensures Transfer(cfg, room, q).ready == [] <==> LevelsTake(cfg, q)
    decreases |q.ready|
  {
    hide LevelsTake;
    if q.ready == [] {
      NoArrivals(cfg, q);
    } else {
      var rest := q.(ready := q.ready[1..], preempted := q.preempted || !room);
      match EnqueueTo(cfg, rest, q.ready[0])
      case Some(r) =>
        ArrivalTaken(cfg, q, rest, r);
        TransferEmptiesIff(cfg, room, r);
      case None => ArrivalRefused(cfg, q);
    }
  }

  lemma NoArrivals(cfg: Config, q: Sched)
    requires SchedWf(cfg, q) && cfg.policy == PreemptivePrio && q.ready == []
    ensures LevelsTake(cfg, q)
  {
  }

  lemma ArrivalRefused(cfg: Config, q: Sched)
    requires SchedWf(cfg, q) && cfg.policy == PreemptivePrio && q.ready != []
    requires !HasPlace(cfg, q, q.ready[0])
    ensures !LevelsTake(cfg, q)
  {
    var p := q.ready[0].priority;
    assert Keys(Priority, q.ready)[0] == p;
    assert p in Tally(Priority, q.ready);
  }

  /** From start-up, the first activation empties the ready queue if and only if the load fits. */
  lemma FirstActivationEmptiesIff(cfg: Config, s: Sys)
    requires Accepted(cfg, s) && cfg.policy == PreemptivePrio && Wakes(cfg, s)
    ensures Activate(cfg, s).sched.ready == [] <==> Fits(cfg, Live(Pid, s), Live(Priority, s))
  {
    hide Dispatch, Transfer, Tally;
    EmptyOrder(s.cores);
    NoLevelNoTally(Priority, s.sched.levels);
    var cores := KeptCores(cfg, s.cores);
    TransferEmptiesIff(cfg, HasRoom(cfg, cores), s.sched);
    DispatchLeavesReady(cfg, s.clock, BeforeDispatch(cfg, s), cores);
    assert Live(Priority, s) == Tally(Priority, s.sched.ready);
  }

  lemma {:induction false} TransferPreempts(cfg: Config, room: bool, q: Sched)
    requires SchedWf(cfg, q) && cfg.policy == PreemptivePrio
    ensures Transfer(cfg, room, q).preempted <==> q.preempted || (q.ready != [] && !room)
    decreases |q.ready|
  {
    if q.ready != [] {
      var rest := q.(ready := q.ready[1..], preempted := q.preempted || !room);
      match EnqueueTo(cfg, rest, q.ready[0])
      case Some(r) => TransferPreempts(cfg, room, r);
      case None =>
    }
  }

  /** An activation calls the preemption routine if and only if somebody still waits in the ready
      queue and the sweep has left no hardware thread free. */
  lemma PreemptsIff(cfg: Config, s: Sys)
    requires SysWf(cfg, s) && cfg.policy == PreemptivePrio && Wakes(cfg, s) && !s.sched.preempted
    ensures Activate(cfg, s).sched.preempted <==>
            s.sched.ready != [] && !HasRoom(cfg, KeptCores(cfg, s.cores))
  {
    hide Dispatch, Transfer, SweepQueues;
    var cores, q := KeptCores(cfg, s.cores), SweepQueues(cfg, s.clock, s.sched, Order(s.cores));
    SweepNeverPreempts(cfg, s.clock, s.sched, Order(s.cores));
    TransferPreempts(cfg, HasRoom(cfg, cores), q);
    DispatchLeavesReady(cfg, s.clock, BeforeDispatch(cfg, s), cores);
  }

  /** If an activation calls the preemption routine, the routine changes nothing: no arrival is more
      urgent than any process executing after the sweep. */
  ghost predicate RoutineIdle(cfg: Config, s: Sys) {
    cfg.policy == PreemptivePrio && !HasRoom(cfg, KeptCores(cfg, s.cores)) ==>
      forall p, t :: p in s.sched.ready && t in Order(KeptCores(cfg, s.cores)) ==> t.pcb.priority <= p.priority
  }

  // ------------------------------------------------------------------ work conservation

  lemma {:induction false} NoSlotsIsFull(cfg: Config, cores: seq<seq<Thread>>)
    requires CoresWf(cfg, cores)
    ensures FreeSlots(cfg, cores) == 0 <==> forall i :: 0 <= i < |cores| ==> |cores[i]| == cfg.threads
  {
    if cores != [] {
      var n := |cores| - 1;
      NoSlotsIsFull(cfg, cores[..n]);
      assert forall i :: 0 <= i < n ==> cores[..n][i] == cores[i];
    }
  }

  /** Each start takes one free hardware thread and one process out of the levels. */
  lemma {:induction false} DispatchPairsUp(cfg: Config, clock: int, q: Sched, cores: seq<seq<Thread>>)
    requires SchedWf(cfg, q) && CoresWf(cfg, cores) && cfg.policy == PreemptivePrio
    ensures var (q', cores') := Dispatch(cfg, clock, q, cores);
            FreeSlots(cfg, cores') - |ByPriority(q'.levels)| == FreeSlots(cfg, cores) - |ByPriority(q.levels)|
    decreases FreeSlots(cfg, cores)
  {
    hide FreeSlots;
    if CanDispatch(cfg, q, cores) {
      FirstLevelIsHead(q.levels, FirstLevel(q.levels, 0));
      hide ByPriority;
      var (q', cores') := DispatchOne(cfg, clock, q, cores);
      DispatchPairsUp(cfg, clock, q', cores');
    }
  }

  lemma {:induction false} LevelsEmptyIff(levels: seq<seq<PCB>>)
    ensures LevelTally(Pid, levels) == multiset{} <==> ByPriority(levels) == []
  {
    if levels != [] {
      LevelsEmptyIff(levels[..|levels|-1]);
      assert |Tally(Pid, levels[|levels|-1])| == |levels[|levels|-1]|;
    }
  }

  /** Free hardware threads and waiting processes when the dispatch loop has stopped. */
  lemma DispatchStops(cfg: Config, clock: int, q: Sched, cores: seq<seq<Thread>>)
    requires SchedWf(cfg, q) && CoresWf(cfg, cores) && cfg.policy == PreemptivePrio
    ensures var (q', cores') := Dispatch(cfg, clock, q, cores);
            FreeSlots(cfg, cores') == 0 || ByPriority(q'.levels) == []
  {
    var (q', cores') := Dispatch(cfg, clock, q, cores);
    ByPriorityEmpty(q'.levels);
    if !HasRoom(cfg, cores') {
      RoomIsFreeSlots(cfg, cores');
    }
  }

  /** The guard that decides whether an activation leaves a thread idle while somebody waits: under the
      priority policy the arrivals must all be taken in, or the levels must be able to fill every
      free thread. */
  ghost predicate Fillable(cfg: Config, s: Sys)
    requires SysWf(cfg, s)
  {
    cfg.policy == PreemptivePrio ==>
      || LevelsTake(cfg, SweepQueues(cfg, s.clock, s.sched, Order(s.cores)))
      || FreeSlots(cfg, KeptCores(cfg, s.cores)) <= |ByPriority(BeforeDispatch(cfg, s).levels)|
  }

  lemma QueuesEmptyIff(q: Sched)
    ensures Queued(Pid, q) == multiset{} <==> q.ready == [] && ByPriority(q.levels) == []
  {
    hide LevelTally;
    LevelsEmptyIff(q.levels);
    assert |Tally(Pid, q.ready)| == |q.ready|;
    assert |Queued(Pid, q)| == |Tally(Pid, q.ready)| + |LevelTally(Pid, q.levels)|;
  }

  lemma PrioritiesConserveIff(cfg: Config, s: Sys)
    requires SysWf(cfg, s) && Wakes(cfg, s) && cfg.policy == PreemptivePrio
    ensures WorkConserving(cfg, Activate(cfg, s)) <==> Fillable(cfg, s)
  {
    var q, cores := BeforeDispatch(cfg, s), KeptCores(cfg, s.cores);
    TransferEmptiesIff(cfg, HasRoom(cfg, cores), SweepQueues(cfg, s.clock, s.sched, Order(s.cores)));
    hide Transfer, SweepQueues, KeptCores, LevelsTake, Order, BeforeDispatch, Dispatch, FreeSlots, ByPriority, Queued;
    DispatchLeavesReady(cfg, s.clock, q, cores);
    DispatchPairsUp(cfg, s.clock, q, cores);
    DispatchStops(cfg, s.clock, q, cores);
    QueuesEmptyIff(Activate(cfg, s).sched);
    NoSlotsIsFull(cfg, Activate(cfg, s).cores);
  }

  lemma QueueConserves(cfg: Config, s: Sys)
    requires SysWf(cfg, s) && Wakes(cfg, s) && cfg.policy != PreemptivePrio
    ensures WorkConserving(cfg, Activate(cfg, s))
  {
    hide SweepQueues, KeptCores, Order;
    var r := Activate(cfg, s);
    if r.sched.ready == [] {
      assert LevelTally(Pid, r.sched.levels) == multiset{};
    }
  }

  /** For every load: an activation leaves nobody waiting or every hardware thread busy if and only if
      the guard holds; under Round Robin and BFS it always does. Of the code when the preemption routine
      is idle (`RoutineIdle`). */
  lemma WorkConservingIff(cfg: Config, s: Sys)
    requires SysWf(cfg, s) && Wakes(cfg, s)
    ensures WorkConserving(cfg, Activate(cfg, s)) <==> Fillable(cfg, s)
  {
    hide WorkConserving, Activate;
    if cfg.policy == PreemptivePrio {
      PrioritiesConserveIff(cfg, s);
    } else {
      QueueConserves(cfg, s);
    }
  }

  // ------------------------------------------------------------------ the most urgent

  lemma {:induction false} SweepPlaces(cfg: Config, clock: int, q: Sched, ts: seq<Thread>)
    requires SchedWf(cfg, q) && Placed(q)
    ensures Placed(SweepQueues(cfg, clock, q, ts))
  {
    if ts != [] {
      SweepPlaces(cfg, clock, q, ts[..|ts|-1]);
    }
  }

  lemma {:induction false} TransferPlaces(cfg: Config, room: bool, q: Sched)
    requires SchedWf(cfg, q) && cfg.policy == PreemptivePrio && Placed(q)
    ensures Placed(Transfer(cfg, room, q))
    decreases |q.ready|
  {
    if q.ready != [] {
      var rest := q.(ready := q.ready[1..], preempted := q.preempted || !room);
      match EnqueueTo(cfg, rest, q.ready[0])
      case Some(r) => TransferPlaces(cfg, room, r);
      case None =>
    }
  }

  lemma BeforeDispatchPlaces(cfg: Config, s: Sys)
    requires SysWf(cfg, s) && Placed(s.sched)
    ensures Placed(BeforeDispatch(cfg, s))
  {
    hide Placed;
    SweepPlaces(cfg, s.clock, s.sched, Order(s.cores));
    if cfg.policy == PreemptivePrio {
      TransferPlaces(cfg, HasRoom(cfg, KeptCores(cfg, s.cores)), SweepQueues(cfg, s.clock, s.sched, Order(s.cores)));
    }
  }

  /** Whatever the load, a priority queue only ever holds processes of its own priority. */
  lemma {:induction false} RunPlaces(cfg: Config, s: Sys, es: seq<Step>)
    requires Accepted(cfg, s)
    ensures Placed(Run(cfg, s, es).sched)
  {
    if es != [] {
      hide Dispatch, BeforeDispatch, KeptCores;
      var now := Run(cfg, s, es[..|es|-1]);
      RunPlaces(cfg, s, es[..|es|-1]);
      if es[|es|-1] == Activation && Wakes(cfg, now) {
        BeforeDispatchPlaces(cfg, now);
        DispatchFrame(cfg, now.clock, BeforeDispatch(cfg, now), KeptCores(cfg, now.cores));
      }
    }
  }

  /** The guard that decides whether an activation starts the most urgent: the levels take in every
      arrival, or they hold enough for every free thread and no arrival left over is more urgent than
      the last one started from them. */
  ghost predicate UrgentFirst(cfg: Config, s: Sys)
    requires SysWf(cfg, s) && cfg.policy == PreemptivePrio
  {
    var q := BeforeDispatch(cfg, s);
    var all, free := ByPriority(q.levels), FreeSlots(cfg, KeptCores(cfg, s.cores));
    || LevelsTake(cfg, SweepQueues(cfg, s.clock, s.sched, Order(s.cores)))
    || (free <= |all| && forall i :: 0 < free && 0 <= i < |q.ready| ==> all[free-1].priority <= q.ready[i].priority)
  }

  /** In every run of any load, an activation starts as many as there are free threads for, nobody left
      waiting being more urgent than anybody started, if and only if the guard holds. Of the code as long
      as the preemption routine is idle. */
  lemma OptimalIff(cfg: Config, s: Sys, es: seq<Step>)
    requires Accepted(cfg, s) && cfg.policy == PreemptivePrio && Wakes(cfg, Run(cfg, s, es))
    ensures StartsMostUrgent(cfg, Run(cfg, s, es)) <==> UrgentFirst(cfg, Run(cfg, s, es))
  {
    hide ByPriority, FreeSlots, SweepQueues, KeptCores, LevelsTake, Run, Placed, BeforeDispatch, Order;
    var now := Run(cfg, s, es);
    RunPlaces(cfg, s, es);
    BeforeDispatchPlaces(cfg, now);
    var q, cores := BeforeDispatch(cfg, now), KeptCores(cfg, now.cores);
    ReadyEmptyIff(cfg, now);
    DispatchTakesMostUrgent(cfg, now.clock, q, cores);
    DispatchLeavesReady(cfg, now.clock, q, cores);
    LevelsSorted(q);
  }

  lemma ReadyEmptyIff(cfg: Config, s: Sys)
    requires SysWf(cfg, s) && cfg.policy == PreemptivePrio
    ensures BeforeDispatch(cfg, s).ready == [] <==>
            LevelsTake(cfg, SweepQueues(cfg, s.clock, s.sched, Order(s.cores)))
  {
    TransferEmptiesIff(cfg, HasRoom(cfg, KeptCores(cfg, s.cores)),
                       SweepQueues(cfg, s.clock, s.sched, Order(s.cores)));
  }

  const URGENT_CONFIG := Config(1, PreemptivePrio, ClockSync, 100, 3)

  lemma Arrives(q: Sched, p: PCB)
    requires SchedWf(URGENT_CONFIG, q) && q.ready != [] && q.ready[0] == p
    requires MIN_PRIORITY <= p.priority <= MAX_PRIORITY
    ensures var l := LevelOf(p); var r := Transfer(URGENT_CONFIG, true, q);
            && (|q.levels[l]| < 2 ==> var q' := q.(ready := q.ready[1..], levels := q.levels[l := q.levels[l] + [p]],
                                                   log := q.log + [Enqueued(p.pid)]);
                                      SchedWf(URGENT_CONFIG, q') && r == Transfer(URGENT_CONFIG, true, q'))
            && (|q.levels[l]| >= 2 ==> r == q.(ready := q.ready[1..] + [p]))
  {
    assert q.(ready := q.ready[1..], preempted := q.preempted || !true) == q.(ready := q.ready[1..]);
  }

  /** Three processes of the highest priority behind one of priority 0, with two places a level and three
      threads: the third stays in the ready queue and the one of priority 0 starts. */
  lemma UrgentArrivalWaits(q: Sched, z: PCB, a: PCB, b: PCB, c: PCB)
    requires SchedWf(URGENT_CONFIG, q) && q.ready == [z, a, b, c]
    requires forall l :: 0 <= l < |q.levels| ==> q.levels[l] == []
    requires z.priority == 0 && a.priority == b.priority == c.priority == MIN_PRIORITY
    ensures var r := Transfer(URGENT_CONFIG, true, q);
            r.ready == [c] && r.levels == q.levels[20 := [z]][0 := [a, b]]
  {
    hide Transfer;
    Arrives(q, z);
    var q1 := q.(ready := [a, b, c], levels := q.levels[20 := [z]], log := q.log + [Enqueued(z.pid)]);
    assert [] + [z] == [z];
    Arrives(q1, a);
    var q2 := q1.(ready := [b, c], levels := q1.levels[0 := [a]], log := q1.log + [Enqueued(a.pid)]);
    assert [] + [a] == [a];
    Arrives(q2, b);
    var q3 := q2.(ready := [c], levels := q2.levels[0 := [a, b]], log := q2.log + [Enqueued(b.pid)]);
    assert [a] + [b] == [a, b] && q2.levels[0 := [a, b]] == q1.levels[0 := [a, b]];
    Arrives(q3, c);
    assert [] + [c] == [c];
  }

  lemma {:induction false} ByPriorityUpdate(levels: seq<seq<PCB>>, l: nat, ps: seq<PCB>)
    requires l < |levels|
    ensures |ByPriority(levels[l := ps])| + |levels[l]| == |ByPriority(levels)| + |ps|
  {
    var n := |levels| - 1;
    if l < n {
      ByPriorityUpdate(levels[..n], l, ps);
      assert levels[l := ps][..n] == levels[..n][l := ps];
    } else {
      assert levels[l := ps][..n] == levels[..n];
    }
  }

  lemma {:induction false} InByPriority(levels: seq<seq<PCB>>, l: nat, p: PCB)
    requires l < |levels| && p in levels[l]
    ensures p in ByPriority(levels)
  {
    if l < |levels| - 1 {
      InByPriority(levels[..|levels|-1], l, p);
    }
  }

  lemma ThreeStart(clock: int, q: Sched, z: PCB)
    requires SchedWf(URGENT_CONFIG, q) && |ByPriority(q.levels)| == 3 && z in ByPriority(q.levels)
    ensures Dispatched(z.pid) in Dispatch(URGENT_CONFIG, clock, q, [[]]).0.log
  {
    hide Dispatch, ByPriority;
    var idle: seq<seq<Thread>> := [[]];
    assert idle[..0] == [] && FreeSlots(URGENT_CONFIG, idle) == 3;
    DispatchTakesMostUrgent(URGENT_CONFIG, clock, q, idle);
    var all := ByPriority(q.levels);
    var i :| 0 <= i < 3 && all[i] == z;
    assert all[..3] == all && Dispatches(all)[i] == Dispatched(z.pid);
  }

  lemma NotMostUrgent(cfg: Config, s: Sys, z: PCB, c: PCB)
    requires SysWf(cfg, s) && Activate(cfg, s).sched.ready == [c] && z.priority > c.priority
    requires var all := ByPriority(BeforeDispatch(cfg, s).levels);
             z in all && |all| <= FreeSlots(cfg, KeptCores(cfg, s.cores))
    ensures !StartsMostUrgent(cfg, s)
  {
    hide ByPriority, Activate, BeforeDispatch, FreeSlots, KeptCores;
    var all := ByPriority(BeforeDispatch(cfg, s).levels);
    var j :| 0 <= j < |all| && all[j] == z;
    assert all[j].priority > Activate(cfg, s).sched.ready[0].priority;
  }

  /** The first activation of that load starts the process of priority 0 and leaves one of the highest
      priority in the ready queue. */
  lemma LessUrgentStarts(s: Sys, z: PCB, a: PCB, b: PCB, c: PCB)
    requires SysWf(URGENT_CONFIG, s) && Wakes(URGENT_CONFIG, s) && s.cores == [[]] && s.sched.ready == [z, a, b, c]
    requires forall l :: 0 <= l < |s.sched.levels| ==> s.sched.levels[l] == []
    requires z.priority == 0 && a.priority == b.priority == c.priority == MIN_PRIORITY
    ensures var r := Activate(URGENT_CONFIG, s).sched; r.ready == [c] && Dispatched(z.pid) in r.log
    ensures !StartsMostUrgent(URGENT_CONFIG, s)
  {
    hide Dispatch, Transfer, Order, KeptCores;
    EmptyOrder(s.cores);
    assert KeptCores(URGENT_CONFIG, s.cores) == [[]];
    assert HasRoom(URGENT_CONFIG, [[]]);
    UrgentArrivalWaits(s.sched, z, a, b, c);
    var q, levels := BeforeDispatch(URGENT_CONFIG, s), s.sched.levels;
    DispatchLeavesReady(URGENT_CONFIG, s.clock, q, [[]]);
    ByPriorityEmpty(levels);
    ByPriorityUpdate(levels, 20, [z]);
    ByPriorityUpdate(levels[20 := [z]], 0, [a, b]);
    InByPriority(q.levels, 20, z);
    ThreeStart(s.clock, q, z);
    hide ByPriority, Activate, StartsMostUrgent, BeforeDispatch;
    var idle: seq<seq<Thread>> := [[]];
    assert idle[..0] == [] && FreeSlots(URGENT_CONFIG, idle) == 3;
    NotMostUrgent(URGENT_CONFIG, s, z, c);
  }
}
