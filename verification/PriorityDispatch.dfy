/** Static priorities: one activation starts the most urgent processes there are. */
module PriorityDispatch {
  import opened Process
  import opened Machine
  import opened Scheduler
  import opened Population
  import opened Conservation

  /** Every queued process, most urgent level first, each level front first. */
  function ByPriority(levels: seq<seq<PCB>>): seq<PCB> {
    if levels == [] then [] else ByPriority(levels[..|levels|-1]) + levels[|levels|-1]
  }

  lemma {:induction false} ByPriorityEmpty(levels: seq<seq<PCB>>)
    ensures ByPriority(levels) == [] <==> forall l :: 0 <= l < |levels| ==> levels[l] == []
  {
    if levels != [] {
      var n := |levels| - 1;
      ByPriorityEmpty(levels[..n]);
      assert forall l :: 0 <= l < n ==> levels[..n][l] == levels[l];
    }
  }

  /** Taking the head of the first non-empty level takes the head of the whole order. */
  lemma {:induction false} FirstLevelIsHead(levels: seq<seq<PCB>>, i: nat)
    requires i < |levels| && levels[i] != [] && forall l :: 0 <= l < i ==> levels[l] == []
    ensures ByPriority(levels) != [] && ByPriority(levels)[0] == levels[i][0]
    ensures ByPriority(levels[i := levels[i][1..]]) == ByPriority(levels)[1..]
  {
    var n, less := |levels| - 1, levels[i := levels[i][1..]];
    if i < n {
      FirstLevelIsHead(levels[..n], i);
      assert less[..n] == levels[..n][i := levels[i][1..]];
    } else {
      ByPriorityEmpty(levels[..n]);
      assert less[..n] == levels[..n];
    }
  }

  lemma {:induction false} ByPriorityMember(levels: seq<seq<PCB>>, k: nat)
    returns (l: nat, i: nat)
    requires k < |ByPriority(levels)|
    ensures l < |levels| && i < |levels[l]| && levels[l][i] == ByPriority(levels)[k]
  {
    var n := |levels| - 1;
    var before := ByPriority(levels[..n]);
    if k < |before| {
      l, i := ByPriorityMember(levels[..n], k);
    } else {
      l, i := n, k - |before|;
    }
  }

  /** The order is by priority number. */
  lemma {:induction false} ByPrioritySorted(levels: seq<seq<PCB>>, j: nat, k: nat)
    requires forall l, i :: 0 <= l < |levels| && 0 <= i < |levels[l]| ==> LevelOf(levels[l][i]) == l
    requires j < k < |ByPriority(levels)|
    ensures ByPriority(levels)[j].priority <= ByPriority(levels)[k].priority
  {
    var n := |levels| - 1;
    var before := ByPriority(levels[..n]);
    if k < |before| {
      ByPrioritySorted(levels[..n], j, k);
    } else if j < |before| {
      var l, i := ByPriorityMember(levels[..n], j);
      assert LevelOf(levels[l][i]) == l;
      assert LevelOf(levels[n][k - |before|]) == n;
    } else {
      assert LevelOf(levels[n][j - |before|]) == n && LevelOf(levels[n][k - |before|]) == n;
    }
  }

  function Dispatches(ps: seq<PCB>): (r: seq<Event>)
    ensures |r| == |ps|
  {
    seq(|ps|, i requires 0 <= i < |ps| => Dispatched(ps[i].pid))
  }

  lemma {:induction false} RoomIsFreeSlots(cfg: Config, cores: seq<seq<Thread>>)
    requires CoresWf(cfg, cores) && forall i :: 0 <= i < |cores| ==> |cores[i]| >= cfg.threads
    ensures FreeSlots(cfg, cores) == 0
  {
    if cores != [] {
      RoomIsFreeSlots(cfg, cores[..|cores|-1]);
    }
  }

  function Min(a: nat, b: nat): nat {
    if a < b then a else b
  }

  /** `q'` is `q` after its `d` most urgent processes have been started. */
  ghost predicate Started(q: Sched, q': Sched, d: nat) {
    var all := ByPriority(q.levels);
    && d <= |all|
    && ByPriority(q'.levels) == all[d..]
    && q'.log == q.log + Dispatches(all[..d])
  }

  lemma StartedOneMore(q: Sched, q1: Sched, q2: Sched, e: nat)
    requires Started(q, q1, 1) && Started(q1, q2, e)
    ensures Started(q, q2, e + 1)
  {
    hide ByPriority;
    var all := ByPriority(q.levels);
    assert all[1..][e..] == all[e+1..];
    assert all[..e+1] == all[..1] + all[1..][..e];
    assert Dispatches(all[..e+1]) == Dispatches(all[..1]) + Dispatches(all[1..][..e]);
  }

  lemma DispatchOneStarts(cfg: Config, clock: int, q: Sched, cores: seq<seq<Thread>>)
    requires SchedWf(cfg, q) && CoresWf(cfg, cores) && cfg.policy == PreemptivePrio && CanDispatch(cfg, q, cores)
    ensures Started(q, DispatchOne(cfg, clock, q, cores).0, 1)
  {
    FirstLevelIsHead(q.levels, FirstLevel(q.levels, 0));
    hide ByPriority;
    var all := ByPriority(q.levels);
    assert Dispatches(all[..1]) == [Dispatched(all[0].pid)];
  }

  /** The dispatch loop starts, in order, as many of the most urgent processes as there are free
      hardware threads. */
  lemma {:induction false} DispatchTakesMostUrgent(cfg: Config, clock: int, q: Sched, cores: seq<seq<Thread>>)
    requires SchedWf(cfg, q) && CoresWf(cfg, cores) && cfg.policy == PreemptivePrio
    ensures Started(q, Dispatch(cfg, clock, q, cores).0, Min(FreeSlots(cfg, cores), |ByPriority(q.levels)|))
    decreases FreeSlots(cfg, cores)
  {
    hide ByPriority, Started, FreeSlots;
    if CanDispatch(cfg, q, cores) {
      DispatchOneStarts(cfg, clock, q, cores);
      var (q1, cores1) := DispatchOne(cfg, clock, q, cores);
      DispatchTakesMostUrgent(cfg, clock, q1, cores1);
      StartedSize(q, q1, 1);
      StartedOneMore(q, q1, Dispatch(cfg, clock, q1, cores1).0, Min(FreeSlots(cfg, cores1), |ByPriority(q1.levels)|));
    } else {
      NothingStarted(q);
      ByPriorityEmpty(q.levels);
      if HasReady(cfg, q) {
        RoomIsFreeSlots(cfg, cores);
      }
    }
  }

  lemma NothingStarted(q: Sched)
    ensures Started(q, q, 0)
  {
    assert ByPriority(q.levels)[..0] == [];
    assert Dispatches([]) == [];
  }

  lemma StartedSize(q: Sched, q': Sched, d: nat)
    requires Started(q, q', d)
    ensures |ByPriority(q'.levels)| == |ByPriority(q.levels)| - d
  {
  }

  /** Nobody left behind is more urgent than anybody started, and of two equals the one that
      queued first went first. */
  lemma DispatchIsOptimal(cfg: Config, clock: int, q: Sched, cores: seq<seq<Thread>>, j: nat, k: nat)
    requires SchedWf(cfg, q) && CoresWf(cfg, cores) && cfg.policy == PreemptivePrio && Placed(q)
    requires j < Min(FreeSlots(cfg, cores), |ByPriority(q.levels)|) <= k < |ByPriority(q.levels)|
    ensures var q', d := Dispatch(cfg, clock, q, cores).0, Min(FreeSlots(cfg, cores), |ByPriority(q.levels)|);
            && |q'.log| == |q.log| + d && q'.log[|q.log| + j] == Dispatched(ByPriority(q.levels)[j].pid)
            && |ByPriority(q'.levels)| == |ByPriority(q.levels)| - d
            && ByPriority(q'.levels)[k - d] == ByPriority(q.levels)[k]
            && ByPriority(q.levels)[j].priority <= ByPriority(q.levels)[k].priority
  {
    DispatchTakesMostUrgent(cfg, clock, q, cores);
    ByPrioritySorted(q.levels, j, k);
  }

  /** What an activation of `now` owes everyone queued after its sweep: as many are started as there are
      free hardware threads for, in order, and nobody left in a level or in the ready queue is more urgent
      than anybody started. */
  ghost predicate StartsMostUrgent(cfg: Config, now: Sys)
    requires SysWf(cfg, now)
  {
    var q, after := BeforeDispatch(cfg, now), Activate(cfg, now).sched;
    var all, free := ByPriority(q.levels), FreeSlots(cfg, KeptCores(cfg, now.cores));
    var d := Min(free, |all| + |q.ready|);
    && Started(q, after, d)
    && (forall j, k :: 0 <= j < k < |all| ==> all[j].priority <= all[k].priority)
    && (forall j, i :: 0 <= j < d && 0 <= i < |after.ready| ==> all[j].priority <= after.ready[i].priority)
  }

  lemma {:induction false} DispatchLeavesReady(cfg: Config, clock: int, q: Sched, cores: seq<seq<Thread>>)
    requires SchedWf(cfg, q) && CoresWf(cfg, cores) && cfg.policy == PreemptivePrio
    ensures var r := Dispatch(cfg, clock, q, cores).0; r.ready == q.ready && r.preempted == q.preempted
    decreases FreeSlots(cfg, cores)
  {
    if CanDispatch(cfg, q, cores) {
      var (q', cores') := DispatchOne(cfg, clock, q, cores);
      DispatchLeavesReady(cfg, clock, q', cores');
    }
  }

  lemma LevelsSorted(q: Sched)
    requires Placed(q)
    ensures forall j, k :: 0 <= j < k < |ByPriority(q.levels)| ==>
              ByPriority(q.levels)[j].priority <= ByPriority(q.levels)[k].priority
  {
    forall j, k | 0 <= j < k < |ByPriority(q.levels)|
      ensures ByPriority(q.levels)[j].priority <= ByPriority(q.levels)[k].priority
    {
      ByPrioritySorted(q.levels, j, k);
    }
  }

  lemma ActivationStartsMostUrgent(cfg: Config, now: Sys, pids: multiset<int>, prios: multiset<int>)
    requires SysWf(cfg, now) && cfg.policy == PreemptivePrio && Wakes(cfg, now) && Conserved(cfg, now, pids, prios)
    ensures StartsMostUrgent(cfg, now) && Activate(cfg, now).sched.ready == []
  {
    hide ByPriority, FreeSlots, Started, BeforeDispatch, KeptCores, Conserved, Placed;
    BeforeDispatchConserves(cfg, now, pids, prios);
    var q, cores := BeforeDispatch(cfg, now), KeptCores(cfg, now.cores);
    DispatchTakesMostUrgent(cfg, now.clock, q, cores);
    DispatchLeavesReady(cfg, now.clock, q, cores);
    LevelsSorted(q);
  }

  /** With a load that fits, in every reachable state an activation starts the most urgent of all that
      are queued after its sweep, in order, as many as there are free hardware threads, and leaves
      nobody in the ready queue. */
  lemma {:induction false} ActivationIsOptimal(cfg: Config, s: Sys, es: seq<Step>)
    requires Loaded(cfg, s) && cfg.policy == PreemptivePrio && Wakes(cfg, Run(cfg, s, es))
    ensures StartsMostUrgent(cfg, Run(cfg, s, es)) && Activate(cfg, Run(cfg, s, es)).sched.ready == []
  {
    hide StartsMostUrgent, Conserved, Activate;
    RunConserves(cfg, s, es);
    ActivationStartsMostUrgent(cfg, Run(cfg, s, es), Live(Pid, s), Live(Priority, s));
  }
}
