/** From the generator's draws to final memory in one statement: the files are written, start-up loads
    them, the clock and the scheduler take turns, and every process computes what its draws mean. */
module WholeSystem {
  import opened CArith
  import opened Memory
  import opened Process
  import opened Prometheus
  import opened GeneratedRuns
  import opened Scheduler
  import opened Kernel
  import opened Population
  import opened Conservation
  import opened Termination
  import opened Transparency
  import opened Lifetimes
  import opened EndToEnd
  import opened Boot
  import opened RoundRobinFairness
  import opened OverloadRuns
  import opened OverloadStarts

  /** What the generator can draw for programs that reach their EXIT. */
  ghost predicate ShortPrograms(gens: seq<Source>) {
    forall i :: 0 <= i < |gens| ==> Drawn(gens[i].blocks, gens[i].data) && Length(gens[i]) <= 100
  }

  ghost function FilesOf(gens: seq<Source>): (files: seq<seq<string>>)
    requires ShortPrograms(gens)
    ensures GeneratedFiles(files, gens)
  {
    seq(|gens|, i requires 0 <= i < |gens| && ShortPrograms(gens) => FileOf(gens[i].blocks, gens[i].data))
  }

  /** The process that was `i`-th in the ready queue shows the result of the `i`-th draws. */
  ghost predicate ShowsResult(procs: Procs, queued: PCB, g: Source, m: Mem) {
    && Drawn(g.blocks, g.data) && Shaped(m) && queued.pid in procs
    && var pr := procs[queued.pid];
       && queued.pgb == Some(pr.table.base) && Backed(m, pr.table) && |pr.image| >= Length(g) + |g.data|
       && View(m, pr.table) == Result(g.blocks, g.data, |pr.image|)
  }

  // ------------------------------------------------------------------ how long it takes

  lemma {:induction false} TotalAtMost(xs: seq<int>, k: nat)
    requires forall i :: 0 <= i < |xs| ==> xs[i] <= k
    ensures Total(multiset(xs)) <= k * |xs|
  {
    if xs == [] {
      assert multiset(xs) == multiset{};
    } else {
      TotalAtMost(xs[1..], k);
      TotalCons(xs);
      OneMore(k, |xs[1..]|);
    }
  }

  lemma OneMore(k: nat, n: nat)
    ensures k * (n + 1) == k * n + k
  {
  }

  lemma StartingLife(procs: Procs, budgets: Budgets, s: Sys)
    requires Idle(s) && InOrder(procs, budgets, s.sched.ready)
    ensures Life(s) <= 100 * |s.sched.ready| && |Live(Pid, s)| == |s.sched.ready|
  {
    hide Total;
    IdleLive(Ttl, s);
    IdleLive(Pid, s);
    var ks := Keys(Ttl, s.sched.ready);
    forall i | 0 <= i < |ks| ensures ks[i] <= 100 {
      assert AtStart(procs, budgets, s.sched.ready[i]);
    }
    TotalAtMost(ks, 100);
  }

  // ------------------------------------------------------------------ the theorem

  /** With a load that fits, a hundred turns a program and one more are enough, however many ticks each
      has: all have completed, and each one's memory holds its code unchanged and its data folded. */
  lemma GeneratedFilesCompute(cfg: Config, procs: Procs, budgets: Budgets, origins: Origins, gens: seq<Source>,
                              priorities: seq<int>, s: Sys, next: int, ks: seq<nat>)
    requires ShortPrograms(gens) && |priorities| == |gens| && SysWf(cfg, s) && Idle(s)
    requires HandedOver(procs, budgets, origins, FilesOf(gens), priorities, s.sched.ready, s.mem, next)
    requires AllIn(origins, s.sched.ready, |gens|) && Fits(cfg, Live(Pid, s), Live(Priority, s))
    requires |s.cores| > 0 && cfg.threads > 0 && Ticking(ks) && |ks| >= 100 * |gens| + 1
    ensures var now := Turns(cfg, s, ks);
            && now.sched.completed == |gens|
            && forall i :: 0 <= i < |gens| ==> ShowsResult(procs, s.sched.ready[i], gens[i], now.mem)
  {
    hide Turns, Ticking, Life, Fits, BootedGenerated, Live, Drawn, FilesOf, Result, Length;
    var sources, now := SourcesOf(origins, gens), Turns(cfg, s, ks);
    StartUpOfGenerated(cfg, procs, budgets, origins, FilesOf(gens), priorities, gens, s, next);
    StartingLife(procs, budgets, s);
    AllProgramsCompute(cfg, procs, sources, s, ks);
    forall i | 0 <= i < |gens| ensures ShowsResult(procs, s.sched.ready[i], gens[i], now.mem) {
      var p := s.sched.ready[i];
      assert AtStart(procs, budgets, p);
      assert sources[p.pid] == gens[i];
      SourceDrawn(procs, sources, p.pid);
      assert Computed(procs, sources, now.mem, p.pid);
    }
  }

  method RunTicks(k: Kernel, n: nat)
    requires k.Valid()
    modifies k, k.queues, k.queues.repr, k.hardware, k.hardware.repr, k.pm, k.pm.memory, k.pm.entries
    ensures k.Valid() && k.State() == Ticks(k.cfg, old(k.State()), n)
  {
    hide Queues.Valid, Hardware.Valid, PhysicalMemory.Valid, Tick;
    for i := 0 to n
      invariant k.Valid() && k.State() == Ticks(k.cfg, old(k.State()), i)
    {
      k.Tick();
    }
  }

  /** The clock and the scheduler taking turns: `ks[i]` ticks, then an activation. */
  method RunTurns(k: Kernel, ks: seq<nat>)
    requires k.Valid()
    modifies k, k.queues, k.queues.repr, k.hardware, k.hardware.repr, k.pm, k.pm.memory, k.pm.entries
    ensures k.Valid() && k.State() == Turns(k.cfg, old(k.State()), ks)
  {
    hide Queues.Valid, Hardware.Valid, PhysicalMemory.Valid, Ticks, Activate;
    assert ks[..|ks|] == ks && ks[..0] == [];
    for i := 0 to |ks|
      invariant k.Valid() && k.State() == Turns(k.cfg, old(k.State()), ks[..i])
    {
      RunTicks(k, ks[i]);
      k.Activate();
      assert ks[..i+1][..i] == ks[..i];
    }
  }

  lemma IsDrawn(gens: seq<Source>, i: nat)
    requires ShortPrograms(gens) && i < |gens|
    ensures Drawn(gens[i].blocks, gens[i].data) && FilesOf(gens)[i] == FileOf(gens[i].blocks, gens[i].data)
  {
  }

  method WriteFiles(gens: seq<Source>) returns (files: seq<seq<string>>)
    requires ShortPrograms(gens)
    ensures files == FilesOf(gens)
  {
    hide FileOf, Drawn, Length;
    files := [];
    for i := 0 to |gens|
      invariant files == FilesOf(gens)[..i]
    {
      IsDrawn(gens, i);
      var file := Emit(gens[i].blocks, gens[i].data);
      files := files + [file];
    }
  }

  /** The whole system under Round Robin, from draws to memory: whatever the draws, priorities, quantum,
      sync mode, topology and ticks between activations, if files and processes fit then every one of
      them completes and computes. */
  method GenerateLoadAndRun(cfg: Config, numCores: nat, gens: seq<Source>, priorities: seq<int>, ks: seq<nat>)
    returns (k: Kernel, ghost procs: Procs, ghost queued: seq<PCB>)
    requires cfg.policy == RoundRobin && cfg.quantum >= 1 && cfg.readyCapacity >= 1
    requires numCores >= 1 && cfg.threads >= 1 && ShortPrograms(gens) && |priorities| == |gens|
    requires AllFit(FilesOf(gens), priorities, 0, KERNEL_FRAMES, cfg.readyCapacity)
    requires Ticking(ks) && |ks| >= 100 * |gens| + 1
    ensures k.Valid() && k.State().sched.completed == |gens| == |queued|
    ensures forall i :: 0 <= i < |gens| ==> ShowsResult(procs, queued[i], gens[i], k.State().mem)
  {
    hide AllFit, HandedOver, ShowsResult, Queues.Valid, Hardware.Valid, PhysicalMemory.Valid, Turns, FilesOf;
    var files := WriteFiles(gens);
    ghost var budgets, origins, next;
    k, procs, budgets, origins, next := StartSystem(cfg, numCores, files, priorities);
    ghost var s := k.State();
    queued := s.sched.ready;
    WhenLoadFits(cfg, s);
    GeneratedFilesCompute(cfg, procs, budgets, origins, gens, priorities, s, next, ks);
    RunTurns(k, ks);
  }

  // ------------------------------------------------------------------ a load that does not fit

  /** The whole system under BFS on one core with more programs than half the queue plus one, the first
      of them urgent: whatever the draws, if no program is over within the first quantum then the last
      process to arrive is gone without having completed and another is on two hardware threads. */
  method GenerateTooManyAndRun(cfg: Config, gens: seq<Source>, ks: seq<nat>)
    returns (k: Kernel, ghost started: Sys)
    requires cfg.policy == Bfs && cfg.quantum >= 5 && ShortPrograms(gens)
    requires cfg.readyCapacity / 2 + 1 < |gens| <= cfg.threads
    requires AllFit(FilesOf(gens), Urgent(|gens|), 0, KERNEL_FRAMES, cfg.readyCapacity)
    requires Ticking(ks) && |ks| == Slice(cfg) + 1 && TicksIn(ks) < 100
    requires forall i :: 0 <= i < |gens| ==> Length(gens[i]) > TicksIn(ks)
    ensures k.Valid() && Delivered(cfg, started) && |started.sched.ready| == |gens| <= cfg.readyCapacity
    ensures var ps, n := started.sched.ready, |gens|;
            LostAndDoubled(started, k.State(), ps[n-1].pid, ps[cfg.readyCapacity + 1 - n].pid)
  {
    hide HandedOver, LostAndDoubled, Queues.Valid, Hardware.Valid, PhysicalMemory.Valid, Turns, FilesOf, Length,
         Urgent;
    var files := WriteFiles(gens);
    ghost var procs, budgets, origins, next;
    k, procs, budgets, origins, next := StartSystem(cfg, 1, files, Urgent(|gens|));
    started := k.State();
    assert started.cores == [[]];
    GeneratedCrowdLoses(cfg, procs, budgets, origins, files, gens, started, next, ks);
    RunTurns(k, ks);
  }
}
