/** Ticks and activations taking turns: every loaded process completes. */
module Termination {
  import opened Process
  import opened Machine
  import opened Scheduler
  import opened Population
  import opened Conservation

  // ------------------------------------------------------------------ sums over multisets

  ghost function Total(m: multiset<int>): int
    decreases |m|
  {
    if exists x :: x in m then var x :| x in m; x + Total(m - multiset{x}) else 0
  }

  lemma {:induction false} TotalTake(m: multiset<int>, x: int)
    requires x in m
    ensures Total(m) == x + Total(m - multiset{x})
    decreases |m|, 1
  {
    var y :| y in m && Total(m) == y + Total(m - multiset{y});
    if y != x {
      hide Total;
      var my, mx := m - multiset{y}, m - multiset{x};
      assert x in my && y in mx && my - multiset{x} == mx - multiset{y};
      TotalTake(my, x);
      TotalSwap(m, x, y);
    }
  }

  lemma {:induction false} TotalSwap(m: multiset<int>, x: int, y: int)
    requires x in m && y in m - multiset{x}
    ensures Total(m - multiset{x}) == y + Total(m - multiset{x} - multiset{y})
    decreases |m|, 0
  {
    TotalTake(m - multiset{x}, y);
  }

  lemma SomeMember(m: multiset<int>) returns (x: int)
    requires m != multiset{}
    ensures x in m
  {
    if !(exists y :: y in m) {
      assert false;
    }
    x :| x in m;
  }

  lemma {:induction false} TotalAdd(a: multiset<int>, b: multiset<int>)
    ensures Total(a + b) == Total(a) + Total(b)
    decreases |b|
  {
    if b == multiset{} {
      assert a + b == a;
    } else {
      var x := SomeMember(b);
      TotalTake(b, x);
      TotalTake(a + b, x);
      TotalAdd(a, b - multiset{x});
      assert a + b - multiset{x} == a + (b - multiset{x});
    }
  }

  ghost predicate AllAtLeast(m: multiset<int>, k: int) {
    forall x :: x in m ==> x >= k
  }

  lemma {:induction false} TotalBound(m: multiset<int>, k: nat)
    requires AllAtLeast(m, k)
    ensures Total(m) >= 0 && (k >= 1 ==> Total(m) >= |m|)
    decreases |m|
  {
    if m != multiset{} {
      var x := SomeMember(m);
      TotalTake(m, x);
      TotalBound(m - multiset{x}, k);
      assert |m| == |m - multiset{x}| + 1;
    }
  }

  lemma TotalShrinks(a: multiset<int>, b: multiset<int>)
    requires a <= b && AllAtLeast(b, 0)
    ensures Total(a) <= Total(b)
  {
    assert b == a + (b - a);
    TotalAdd(a, b - a);
    TotalBound(b - a, 0);
  }

  lemma TotalCons(xs: seq<int>)
    requires xs != []
    ensures Total(multiset(xs)) == xs[0] + Total(multiset(xs[1..]))
  {
    assert xs == [xs[0]] + xs[1..];
    TotalTake(multiset(xs), xs[0]);
    assert multiset(xs) - multiset{xs[0]} == multiset(xs[1..]);
  }

  /** Lowering every entry of a list by at least one lowers the total by at least its length. */
  lemma {:induction false} TotalDrops(xs: seq<int>, ys: seq<int>)
    requires |xs| == |ys| && forall i :: 0 <= i < |xs| ==> ys[i] <= xs[i] - 1
    ensures Total(multiset(ys)) <= Total(multiset(xs)) - |xs|
  {
    if xs != [] {
      TotalDrops(xs[1..], ys[1..]);
      TotalCons(xs);
      TotalCons(ys);
    } else {
      assert ys == [];
    }
  }

  lemma {:induction false} TotalNoMore(xs: seq<int>, ys: seq<int>)
    requires |xs| == |ys| && forall i :: 0 <= i < |xs| ==> ys[i] <= xs[i]
    ensures Total(multiset(ys)) <= Total(multiset(xs))
  {
    if xs != [] {
      TotalNoMore(xs[1..], ys[1..]);
      TotalCons(xs);
      TotalCons(ys);
    } else {
      assert ys == [];
    }
  }

  // ------------------------------------------------------------------ who still has life

  ghost function Life(s: Sys): int {
    Total(Live(Ttl, s))
  }

  predicate HasLife(p: PCB) { p.ttl >= 1 }

  predicate ThreadHasLife(t: Thread) { HasLife(t.pcb) }

  predicate AnyThread(t: Thread) { true }

  /** Everyone in a queue or on a hardware thread has at least one tick to live. */
  ghost predicate AllAlive(s: Sys) {
    EachWaiting(s.sched, HasLife) && EachExecuting(s.cores, ThreadHasLife)
  }

  lemma ActivateLeavesLiving(cfg: Config, s: Sys)
    requires SysWf(cfg, s) && Wakes(cfg, s) && EachWaiting(s.sched, HasLife)
    ensures AllAlive(Activate(cfg, s))
  {
    ActivateEach(cfg, s, HasLife, AnyThread, ThreadHasLife);
  }

  lemma {:induction false} LevelsAtLeast(f: Field, levels: seq<seq<PCB>>, k: int)
    requires forall l, i :: 0 <= l < |levels| && 0 <= i < |levels[l]| ==> Get(f, levels[l][i]) >= k
    ensures AllAtLeast(LevelTally(f, levels), k)
  {
    if levels != [] {
      var n := |levels| - 1;
      LevelsAtLeast(f, levels[..n], k);
      ListAtLeast(f, levels[n], k);
    }
  }

  lemma ListAtLeast(f: Field, ps: seq<PCB>, k: int)
    requires forall i :: 0 <= i < |ps| ==> Get(f, ps[i]) >= k
    ensures AllAtLeast(Tally(f, ps), k)
  {
    forall x | x in Tally(f, ps) ensures x >= k {
      assert x in Keys(f, ps);
    }
  }

  lemma QueuedAtLeast(q: Sched)
    requires EachWaiting(q, HasLife)
    ensures AllAtLeast(Queued(Ttl, q), 1)
  {
    LevelsAtLeast(Ttl, q.levels, 1);
    ListAtLeast(Ttl, q.ready, 1);
  }

  lemma ThreadsAtLeast(ts: seq<Thread>, k: int)
    requires forall i :: 0 <= i < |ts| ==> ts[i].pcb.ttl >= k
    ensures AllAtLeast(ThreadTally(Ttl, ts), k)
  {
    forall x | x in ThreadTally(Ttl, ts) ensures x >= k {
      assert x in ThreadKeys(Ttl, ts);
    }
  }

  lemma LiveAtLeastOne(s: Sys)
    requires AllAlive(s)
    ensures AllAtLeast(Live(Ttl, s), 1) && Life(s) >= |Live(Ttl, s)|
  {
    QueuedAtLeast(s.sched);
    ThreadsAtLeast(Order(s.cores), 1);
    TotalBound(Live(Ttl, s), 1);
  }

  predicate NotNegative(t: Thread) { t.pcb.ttl >= 0 }

  /** Between ticks of one turn an executing process may have used up its life. */
  ghost predicate NobodyOverdrawn(s: Sys) {
    EachWaiting(s.sched, HasLife) && EachExecuting(s.cores, NotNegative)
  }

  lemma NobodyBelowZero(s: Sys)
    requires NobodyOverdrawn(s)
    ensures AllAtLeast(Live(Ttl, s), 0)
  {
    QueuedAtLeast(s.sched);
    ThreadsAtLeast(Order(s.cores), 0);
  }

  /** A tick takes at least one unit of life from every executing process. */
  lemma {:induction false} TickDrains(cfg: Config, s: Sys)
    requires SysWf(cfg, s) && AllAlive(s)
    ensures NobodyOverdrawn(Tick(cfg, s)) && Life(Tick(cfg, s)) <= Life(s) - |Order(s.cores)|
  {
    hide TickCores, TickThreads, LevelTally, Total;
    var s' := Tick(cfg, s);
    TickPointwise(s.cores, s.mem);
    TotalDrops(ThreadKeys(Ttl, Order(s.cores)), ThreadKeys(Ttl, Order(s'.cores)));
    TotalAdd(Queued(Ttl, s.sched), Executing(Ttl, s.cores));
    TotalAdd(Queued(Ttl, s'.sched), Executing(Ttl, s'.cores));
  }

  /** A tick never gives life, not even to a process that has none left. */
  lemma {:induction false} TickNeverAdds(cfg: Config, s: Sys)
    requires SysWf(cfg, s) && NobodyOverdrawn(s)
    ensures NobodyOverdrawn(Tick(cfg, s)) && Life(Tick(cfg, s)) <= Life(s)
  {
    hide TickCores, TickThreads, LevelTally, Total;
    var s' := Tick(cfg, s);
    TickPointwise(s.cores, s.mem);
    TotalNoMore(ThreadKeys(Ttl, Order(s.cores)), ThreadKeys(Ttl, Order(s'.cores)));
    TotalAdd(Queued(Ttl, s.sched), Executing(Ttl, s.cores));
    TotalAdd(Queued(Ttl, s'.sched), Executing(Ttl, s'.cores));
  }

  // ------------------------------------------------------------------ work conservation

  lemma {:induction false} NoLevelNoTally(f: Field, levels: seq<seq<PCB>>)
    requires forall l :: 0 <= l < |levels| ==> levels[l] == []
    ensures LevelTally(f, levels) == multiset{}
  {
    if levels != [] {
      NoLevelNoTally(f, levels[..|levels|-1]);
    }
  }

  lemma {:induction false} FullMachineExecutes(cfg: Config, cores: seq<seq<Thread>>)
    requires forall i :: 0 <= i < |cores| ==> |cores[i]| == cfg.threads
    ensures |Order(cores)| == |cores| * cfg.threads
  {
    if cores != [] {
      var n := |cores| - 1;
      FullMachineExecutes(cfg, cores[..n]);
      assert |Order(cores)| == |Order(cores[..n])| + |Reversed(cores[n])|;
      Distribute(n, cfg.threads);
    }
  }

  lemma Distribute(n: nat, t: nat)
    ensures (n + 1) * t == n * t + t
  {
  }

  lemma Positive(a: nat, b: nat)
    requires a >= 1 && b >= 1
    ensures a * b >= 1
  {
  }

  /** Nobody waits or every hardware thread is busy. */
  ghost predicate WorkConserving(cfg: Config, s: Sys) {
    || Queued(Pid, s.sched) == multiset{}
    || forall i :: 0 <= i < |s.cores| ==> |s.cores[i]| == cfg.threads
  }

  lemma NothingReady(cfg: Config, q: Sched)
    requires SchedWf(cfg, q) && !HasReady(cfg, q) && (cfg.policy == PreemptivePrio ==> q.ready == [])
    ensures forall f: Field :: Queued(f, q) == multiset{}
  {
    forall f: Field ensures Queued(f, q) == multiset{} {
      NoLevelNoTally(f, q.levels);
    }
  }

  /** With a load that fits, an activation leaves nobody waiting or every hardware thread busy. */
  lemma ActivateIsWorkConserving(cfg: Config, s: Sys, pids: multiset<int>, prios: multiset<int>)
    requires SysWf(cfg, s) && Wakes(cfg, s) && Conserved(cfg, s, pids, prios)
    ensures WorkConserving(cfg, Activate(cfg, s))
    ensures |Activate(cfg, s).cores| == |s.cores|
  {
    hide SweepQueues, Kept, LevelTally, Tally, ThreadTally, Order, EachWaiting, EachThread, TickCores, Fits, Placed,
         Total;
    ActivateConserves(cfg, s, pids, prios);
    BeforeDispatchConserves(cfg, s, pids, prios);
    DispatchFrame(cfg, s.clock, BeforeDispatch(cfg, s), KeptCores(cfg, s.cores));
    var s' := Activate(cfg, s);
    if !HasReady(cfg, s'.sched) {
      NothingReady(cfg, s'.sched);
    }
  }

  // ------------------------------------------------------------------ turns

  function Ticks(cfg: Config, s: Sys, k: nat): (r: Sys)
    requires SysWf(cfg, s)
    ensures SysWf(cfg, r)
  {
    if k == 0 then s else Tick(cfg, Ticks(cfg, s, k - 1))
  }

  /** `k` ticks and then an activation. */
  function Turn(cfg: Config, s: Sys, k: nat): (r: Sys)
    requires SysWf(cfg, s)
    ensures SysWf(cfg, r)
  {
    Activate(cfg, Ticks(cfg, s, k))
  }

  function Turns(cfg: Config, s: Sys, ks: seq<nat>): (r: Sys)
    requires SysWf(cfg, s)
    ensures SysWf(cfg, r)
  {
    if ks == [] then s else Turn(cfg, Turns(cfg, s, ks[..|ks|-1]), ks[|ks|-1])
  }

  /** Every turn has at least one tick. */
  ghost predicate Ticking(ks: seq<nat>) {
    forall i :: 0 <= i < |ks| ==> ks[i] >= 1
  }

  /** Under clock sync an activation needs at least one tick since the last one. */
  ghost predicate Wakeful(cfg: Config, ks: seq<nat>) {
    cfg.sync == ClockSync ==> Ticking(ks)
  }

  lemma {:induction false} TurnsAdd(cfg: Config, s: Sys, a: seq<nat>, b: seq<nat>)
    requires SysWf(cfg, s)
    ensures Turns(cfg, s, a + b) == Turns(cfg, Turns(cfg, s, a), b)
  {
    hide Turn;
    if b == [] {
      assert a + b == a;
    } else {
      assert (a + b)[..|a + b|-1] == a + b[..|b|-1];
      TurnsAdd(cfg, s, a, b[..|b|-1]);
    }
  }

  lemma {:induction false} TicksAreRuns(cfg: Config, s: Sys, es: seq<Step>, k: nat) returns (fs: seq<Step>)
    requires SysWf(cfg, s)
    ensures Run(cfg, s, fs) == Ticks(cfg, Run(cfg, s, es), k)
  {
    hide Tick;
    if k == 0 {
      fs := es;
    } else {
      var gs := TicksAreRuns(cfg, s, es, k - 1);
      fs := gs + [ClockTick];
      assert fs[..|fs|-1] == gs;
    }
  }

  /** Turns are one kind of run. */
  lemma {:induction false} TurnsAreRuns(cfg: Config, s: Sys, ks: seq<nat>) returns (es: seq<Step>)
    requires SysWf(cfg, s)
    ensures Run(cfg, s, es) == Turns(cfg, s, ks)
  {
    hide Activate, Ticks;
    if ks == [] {
      es := [];
    } else {
      var n := |ks| - 1;
      var fs := TurnsAreRuns(cfg, s, ks[..n]);
      var gs := TicksAreRuns(cfg, s, fs, ks[n]);
      es := gs + [Activation];
      assert es[..|es|-1] == gs;
    }
  }

  lemma {:induction false} TicksOnlyTick(cfg: Config, s: Sys, k: nat, pids: multiset<int>, prios: multiset<int>)
    requires SysWf(cfg, s) && Conserved(cfg, s, pids, prios)
    ensures var r := Ticks(cfg, s, k);
            && Conserved(cfg, r, pids, prios)
            && r.sched == s.sched && r.clock == s.clock + k && r.lastTick == s.lastTick && |r.cores| == |s.cores|
            && |Order(r.cores)| == |Order(s.cores)|
            && forall i :: 0 <= i < |Order(s.cores)| ==>
                 Order(r.cores)[i].pcb.quantumCounter == Order(s.cores)[i].pcb.quantumCounter
  {
    hide Conserved, TickCores, TickThreads;
    if k > 0 {
      TicksOnlyTick(cfg, s, k - 1, pids, prios);
      var r := Ticks(cfg, s, k - 1);
      NextConserves(cfg, r, ClockTick, pids, prios);
      TickPointwise(r.cores, r.mem);
    }
  }

  lemma {:induction false} TicksConserve(cfg: Config, s: Sys, k: nat, f: Field)
    requires SysWf(cfg, s) && f != Ttl
    ensures Live(f, Ticks(cfg, s, k)) == Live(f, s)
  {
    hide Live, Tick;
    if k > 0 {
      TicksConserve(cfg, s, k - 1, f);
      TickConserves(cfg, Ticks(cfg, s, k - 1), f);
    }
  }

  /** One tick or more takes at least one unit of life from every executing process. */
  lemma {:induction false} TicksDrain(cfg: Config, s: Sys, k: nat)
    requires SysWf(cfg, s) && AllAlive(s) && k >= 1
    ensures var r := Ticks(cfg, s, k); NobodyOverdrawn(r) && Life(r) <= Life(s) - |Order(s.cores)|
    ensures AllAtLeast(Live(Ttl, Ticks(cfg, s, k)), 0)
  {
    hide Live, Tick, Order, AllAlive, NobodyOverdrawn, Life;
    if k == 1 {
      assert Ticks(cfg, s, 0) == s;
      TickDrains(cfg, s);
    } else {
      TicksDrain(cfg, s, k - 1);
      TickNeverAdds(cfg, Ticks(cfg, s, k - 1));
    }
    NobodyBelowZero(Ticks(cfg, s, k));
  }

  // ------------------------------------------------------------------ completion

  /** What holds once the first turn is over. */
  ghost predicate Steady(cfg: Config, s: Sys, pids: multiset<int>, prios: multiset<int>) {
    && SysWf(cfg, s) && Conserved(cfg, s, pids, prios) && AllAlive(s) && WorkConserving(cfg, s)
    && s.lastTick <= s.clock && |s.cores| > 0
  }

  lemma {:induction false} TurnIsSteady(cfg: Config, s: Sys, k: nat, pids: multiset<int>, prios: multiset<int>)
    requires SysWf(cfg, s) && Conserved(cfg, s, pids, prios) && EachWaiting(s.sched, HasLife)
    requires s.lastTick <= s.clock && |s.cores| > 0 && k >= 1
    ensures Steady(cfg, Turn(cfg, s, k), pids, prios)
  {
    hide SweepQueues, Kept, LevelTally, Tally, EachThread, TickCores, Fits, Placed, Total;
    var t := Ticks(cfg, s, k);
    TicksOnlyTick(cfg, s, k, pids, prios);
    NextConserves(cfg, t, Activation, pids, prios);
    ActivateLeavesLiving(cfg, t);
    ActivateIsWorkConserving(cfg, t, pids, prios);
  }

  /** With a load that fits, while anyone is live a turn of one tick or more uses up life. */
  lemma TurnDrains(cfg: Config, s: Sys, k: nat, pids: multiset<int>, prios: multiset<int>)
    requires Steady(cfg, s, pids, prios) && cfg.threads > 0 && k >= 1
    ensures var s' := Turn(cfg, s, k);
            Steady(cfg, s', pids, prios) && Life(s') <= Life(s) - (if Live(Pid, s) == multiset{} then 0 else 1)
  {
    hide SweepQueues, Kept, LevelTally, Tally, EachWaiting, EachThread, TickCores, Fits, Placed, Total, Ticks;
    var t := Ticks(cfg, s, k);
    TurnIsSteady(cfg, s, k, pids, prios);
    TicksDrain(cfg, s, k);
    TicksOnlyTick(cfg, s, k, pids, prios);
    ActivateConserves(cfg, t, pids, prios);
    TotalShrinks(Live(Ttl, Activate(cfg, t)), Live(Ttl, t));
    if Queued(Pid, s.sched) != multiset{} {
      FullMachineExecutes(cfg, s.cores);
      Positive(|s.cores|, cfg.threads);
    } else if Live(Pid, s) != multiset{} {
      assert |ThreadKeys(Pid, Order(s.cores))| != 0;
    }
  }

  lemma FirstTurnDrains(cfg: Config, s: Sys, k: nat)
    requires Loaded(cfg, s) && |s.cores| > 0 && EachWaiting(s.sched, HasLife) && k >= 1
    ensures Steady(cfg, Turn(cfg, s, k), Live(Pid, s), Live(Priority, s)) && Life(Turn(cfg, s, k)) <= Life(s)
  {
    hide SweepQueues, Kept, LevelTally, Tally, ThreadTally, EachWaiting, TickCores, Fits, Placed, Total, Ticks;
    var pids, prios := Live(Pid, s), Live(Priority, s);
    EmptyOrder(s.cores);
    RunConserves(cfg, s, []);
    TurnIsSteady(cfg, s, k, pids, prios);
    TicksDrain(cfg, s, k);
    TicksOnlyTick(cfg, s, k, pids, prios);
    ActivateConserves(cfg, Ticks(cfg, s, k), pids, prios);
    TotalShrinks(Live(Ttl, Turn(cfg, s, k)), Live(Ttl, Ticks(cfg, s, k)));
  }

  lemma {:induction false} TurnsDrain(cfg: Config, s: Sys, ks: seq<nat>)
    requires SysWf(cfg, s) && Loaded(cfg, s) && |s.cores| > 0 && cfg.threads > 0 && EachWaiting(s.sched, HasLife)
    requires Ticking(ks) && ks != []
    ensures Steady(cfg, Turns(cfg, s, ks), Live(Pid, s), Live(Priority, s))
    ensures var r := Turns(cfg, s, ks); Live(Pid, r) == multiset{} || Life(r) <= Life(s) - (|ks| - 1)
  {
    hide Live, EachWaiting, Turn, Life, Loaded, Steady;
    var pids, prios, n := Live(Pid, s), Live(Priority, s), |ks| - 1;
    if n == 0 {
      assert ks[..0] == [];
      FirstTurnDrains(cfg, s, ks[0]);
    } else {
      TurnsDrain(cfg, s, ks[..n]);
      var r := Turns(cfg, s, ks[..n]);
      TurnDrains(cfg, r, ks[n], pids, prios);
      if Live(Pid, r) == multiset{} {
        NobodyComesBack(cfg, r, ks[n], pids, prios);
      }
    }
  }

  /** A live process is counted once under each attribute. */
  lemma {:induction false} LevelSizes(f: Field, g: Field, levels: seq<seq<PCB>>)
    ensures |LevelTally(f, levels)| == |LevelTally(g, levels)|
  {
    if levels != [] {
      LevelSizes(f, g, levels[..|levels|-1]);
    }
  }

  lemma LiveSizes(s: Sys)
    ensures |Live(Pid, s)| == |Live(Ttl, s)|
  {
    LevelSizes(Pid, Ttl, s.sched.levels);
    assert |Tally(Pid, s.sched.ready)| == |Tally(Ttl, s.sched.ready)|;
    assert |Executing(Pid, s.cores)| == |Executing(Ttl, s.cores)|;
  }

  lemma NobodyComesBack(cfg: Config, s: Sys, k: nat, pids: multiset<int>, prios: multiset<int>)
    requires Steady(cfg, s, pids, prios) && Live(Pid, s) == multiset{}
    ensures Live(Pid, Turn(cfg, s, k)) == multiset{}
  {
    hide Ticks;
    var t := Ticks(cfg, s, k);
    TicksConserve(cfg, s, k, Pid);
    TicksOnlyTick(cfg, s, k, pids, prios);
    if Wakes(cfg, t) {
      BeforeDispatchConserves(cfg, t, pids, prios);
      DispatchMoves(cfg, t.clock, Pid, BeforeDispatch(cfg, t), KeptCores(cfg, t.cores), pids, prios);
    }
  }

  lemma LifeToBeginWith(cfg: Config, s: Sys)
    requires Loaded(cfg, s) && EachWaiting(s.sched, HasLife)
    ensures Life(s) >= 0
  {
    EmptyOrder(s.cores);
    LiveAtLeastOne(s);
  }

  /** No life left means nobody left. */
  lemma Exhausted(cfg: Config, s: Sys, pids: multiset<int>, prios: multiset<int>)
    requires Steady(cfg, s, pids, prios) && (Live(Pid, s) == multiset{} || Life(s) <= 0)
    ensures Live(Pid, s) == multiset{} && s.sched.completed == |pids|
  {
    hide Live, WorkConserving, SysWf;
    LiveAtLeastOne(s);
    LiveSizes(s);
  }

  /** With a load that fits, under each of the three policies and either sync mode, all loaded processes
      complete within as many turns as there is life in the system, plus one, however many ticks each
      turn has. */
  lemma {:induction false} AllComplete(cfg: Config, s: Sys, ks: seq<nat>)
    requires SysWf(cfg, s) && Loaded(cfg, s) && |s.cores| > 0 && cfg.threads > 0 && EachWaiting(s.sched, HasLife)
    requires Ticking(ks) && |ks| >= Life(s) + 1
    ensures Live(Pid, Turns(cfg, s, ks)) == multiset{}
    ensures Turns(cfg, s, ks).sched.completed == |Live(Pid, s)|
  {
    hide Live, Steady, Turns, EachWaiting, Life;
    LifeToBeginWith(cfg, s);
    TurnsDrain(cfg, s, ks);
    Exhausted(cfg, Turns(cfg, s, ks), Live(Pid, s), Live(Priority, s));
  }
}
