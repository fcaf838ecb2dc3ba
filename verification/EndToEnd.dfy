/** Generated programs on the whole system: from the generator's draws, through file, loader,
    scheduler and processor, to what memory holds when a process has left. */
module EndToEnd {
  import opened CArith
  import opened Memory
  import opened Machine
  import opened Solo
  import opened ElfFile
  import opened Prometheus
  import opened GeneratedRuns
  import opened Scheduler
  import opened Population
  import opened Conservation
  import opened Termination
  import opened Transparency
  import opened Lifetimes

  /** The draws a program was generated from. */
  datatype Source = Source(blocks: seq<Block>, data: seq<u32>)

  type Sources = map<int, Source>

  function Length(g: Source): nat { CodeLength(|g.blocks|) }

  ghost predicate GeneratedFrom(pr: Proc, g: Source) {
    && Drawn(g.blocks, g.data) && |pr.image| >= Length(g) + |g.data|
    && pr.image == Loadable(g.blocks, g.data, |pr.image|)
  }

  ghost predicate AllGenerated(procs: Procs, sources: Sources) {
    && sources.Keys == procs.Keys
    && forall pid :: pid in procs ==> GeneratedFrom(procs[pid], sources[pid])
  }

  /** The life the loader gives each program. */
  function LoaderBudgets(sources: Sources): Budgets {
    map pid | pid in sources :: TtlFor(Length(sources[pid]))
  }

  function Lengths(sources: Sources): Budgets {
    map pid | pid in sources :: Length(sources[pid])
  }

  /** Three ticks a word between 10 and 100 are enough for a program of its size exactly up to 100 words. */
  lemma LifeSuffices(g: Source)
    requires Drawn(g.blocks, g.data)
    ensures 10 <= TtlFor(Length(g)) <= 100
    ensures TtlFor(Length(g)) >= Length(g) <==> Length(g) <= 100
    ensures Length(g) > 100 ==> TtlFor(Length(g)) == 100
  {
  }

  lemma {:induction false} GeneratedStop(procs: Procs, sources: Sources)
    requires AllGenerated(procs, sources)
    ensures StopsAt(procs, Lengths(sources)) && AllStayInPages(procs)
  {
    hide SoloRun, StepInPages, Loadable, CodeOf, Result, Drawn;
    forall pid, k: nat | pid in procs
      ensures SoloRun(Start(procs[pid].image), k).status != Continue <==> k >= Length(sources[pid])
    {
      var g := sources[pid];
      GeneratedProgramRuns(g.blocks, g.data, |procs[pid].image|, k);
    }
    forall pid | pid in procs ensures StaysInPages(Start(procs[pid].image)) {
      var g := sources[pid];
      GeneratedStaysInPages(g.blocks, g.data, |procs[pid].image|);
    }
  }

  /** The scheduler's starting state when every loaded program was generated. */
  ghost predicate BootedGenerated(cfg: Config, procs: Procs, sources: Sources, s: Sys) {
    && Booted(cfg, procs, s) && AllGenerated(procs, sources)
    && Budgeted(LoaderBudgets(sources), s, NoCycles(procs))
    && forall pid :: pid in procs ==> pid in Live(Pid, s)
  }

  lemma {:induction false} GeneratedIsBooted(cfg: Config, procs: Procs, sources: Sources, s: Sys)
    requires BootedGenerated(cfg, procs, sources, s)
    ensures BootedWith(cfg, procs, LoaderBudgets(sources), s) && StopsAt(procs, Lengths(sources))
    ensures forall pid :: pid in procs ==>
              pid in LoaderBudgets(sources) && Lengths(sources)[pid] >= 1 && LoaderBudgets(sources)[pid] >= 1
  {
    hide Booted, Budgeted, AllStayInPages, Live, GeneratedFrom;
    GeneratedStop(procs, sources);
    forall pid | pid in procs ensures LoaderBudgets(sources)[pid] >= 1 {
      SourceDrawn(procs, sources, pid);
      LifeSuffices(sources[pid]);
    }
  }

  lemma {:induction false} SourceDrawn(procs: Procs, sources: Sources, pid: int)
    requires AllGenerated(procs, sources) && pid in procs
    ensures Drawn(sources[pid].blocks, sources[pid].data)
    ensures |procs[pid].image| >= Length(sources[pid]) + |sources[pid].data|
  {
  }

  /** Memory of a process as its program's completed run leaves it. */
  ghost predicate Computed(procs: Procs, sources: Sources, m: Mem, pid: int)
    requires AllGenerated(procs, sources) && pid in procs && Shaped(m)
  {
    var g, pr := sources[pid], procs[pid];
    && Backed(m, pr.table)
    && View(m, pr.table) == Result(g.blocks, g.data, |pr.image|)
  }

  lemma {:induction false} EnoughCyclesCompute(procs: Procs, sources: Sources, m: Mem, n: Cycles, pid: int)
    requires AllGenerated(procs, sources) && MemoryMirrors(procs, m, n) && pid in procs
    requires pid in n && n[pid] >= Length(sources[pid])
    ensures Computed(procs, sources, m, pid) && Alone(procs, n, pid).status == Exited
  {
    hide View, SoloRun, FramesExclusive, Loadable, Result;
    var g := sources[pid];
    GeneratedProgramRuns(g.blocks, g.data, |procs[pid].image|, n[pid]);
  }

  /** What the earlier theorems say of a run of generated programs. */
  lemma {:induction false} GeneratedRun(cfg: Config, procs: Procs, sources: Sources, s: Sys, es: seq<Step>)
    requires SysWf(cfg, s) && BootedGenerated(cfg, procs, sources, s)
    ensures var now, n := Run(cfg, s, es), CyclesGiven(cfg, s, es, NoCycles(procs));
            && AllGenerated(procs, sources) && StopsAt(procs, Lengths(sources))
            && MemoryMirrors(procs, now.mem, n)
            && NobodyRobbed(procs, LoaderBudgets(sources), now, n)
  {
    hide Live, MemoryMirrors, AllGenerated, GeneratedFrom, Run, CyclesGiven, StopsAt, NobodyRobbed, Budgeted,
         AllStayInPages, Accepted, Fits, Transparent;
    GeneratedIsBooted(cfg, procs, sources, s);
    LeavesOnlyWhenServed(cfg, procs, LoaderBudgets(sources), s, es);
    TimeSharingIsTransparent(cfg, procs, s, es);
    ShowsMemory(procs, Run(cfg, s, es), CyclesGiven(cfg, s, es, NoCycles(procs)));
  }

  lemma ShowsMemory(procs: Procs, s: Sys, n: Cycles)
    requires Transparent(procs, s, n)
    ensures MemoryMirrors(procs, s.mem, n)
  {
  }

  /** With a load that fits, under every interleaving a generated program of at most 100 words leaves the
      system only after its EXIT, with its data folded and its code intact, even while others go on running. */
  lemma {:induction false} ShortProgramsRunToExit(cfg: Config, procs: Procs, sources: Sources, s: Sys, es: seq<Step>,
                                                  pid: int)
    requires SysWf(cfg, s) && BootedGenerated(cfg, procs, sources, s)
    requires pid in procs && pid in sources && Length(sources[pid]) <= 100
    requires pid !in Live(Pid, Run(cfg, s, es))
    ensures var now, n := Run(cfg, s, es), CyclesGiven(cfg, s, es, NoCycles(procs));
            && AllGenerated(procs, sources) && pid in n && Alone(procs, n, pid).status == Exited
            && Computed(procs, sources, now.mem, pid)
  {
    hide SoloRun, Live, MemoryMirrors, AllGenerated, GeneratedFrom, Drawn, Run, CyclesGiven, Computed, StopsAt,
         Served, BootedGenerated, TtlFor, Alone;
    var now, n := Run(cfg, s, es), CyclesGiven(cfg, s, es, NoCycles(procs));
    GeneratedRun(cfg, procs, sources, s, es);
    SourceDrawn(procs, sources, pid);
    LifeSuffices(sources[pid]);
    ServedLongEnough(procs, sources, n, pid);
    EnoughCyclesCompute(procs, sources, now.mem, n, pid);
  }

  lemma ServedLongEnough(procs: Procs, sources: Sources, n: Cycles, pid: int)
    requires StopsAt(procs, Lengths(sources)) && pid in sources && Served(procs, LoaderBudgets(sources), n, pid)
    requires TtlFor(Length(sources[pid])) >= Length(sources[pid])
    ensures pid in n && n[pid] >= Length(sources[pid])
  {
    hide SoloRun, Length;
  }

  lemma {:induction false} GeneratedRounds(cfg: Config, procs: Procs, sources: Sources, s: Sys, r: nat)
    requires SysWf(cfg, s) && BootedGenerated(cfg, procs, sources, s)
    ensures var now, n := Rounds(cfg, s, r), CyclesGiven(cfg, s, RoundSteps(r), NoCycles(procs));
            && AllGenerated(procs, sources) && MemoryMirrors(procs, now.mem, n)
            && Punctual(procs, Lengths(sources), LoaderBudgets(sources), now, n)
  {
    hide Live, MemoryMirrors, AllGenerated, GeneratedFrom, Rounds, CyclesGiven, StopsAt, Budgeted,
         AllStayInPages, Booted, Punctual, Conserved, BootedWith, EachWaiting, EachExecuting;
    GeneratedParts(cfg, procs, sources, s);
    GeneratedIsBooted(cfg, procs, sources, s);
    LeavesExactlyOnTime(cfg, procs, Lengths(sources), LoaderBudgets(sources), s, r);
  }

  lemma GeneratedParts(cfg: Config, procs: Procs, sources: Sources, s: Sys)
    requires BootedGenerated(cfg, procs, sources, s)
    ensures Loaded(cfg, s) && AllGenerated(procs, sources)
  {
  }

  /** With a load that fits and one activation per tick, a generated program gets one cycle for each of
      its words, EXIT included, and one of more than 100 words is cut off after exactly 100 instructions. */
  lemma {:induction false} CyclesOnLeaving(cfg: Config, procs: Procs, sources: Sources, s: Sys, r: nat, pid: int)
    requires SysWf(cfg, s) && BootedGenerated(cfg, procs, sources, s) && pid in procs && pid in sources
    requires pid !in Live(Pid, Rounds(cfg, s, r))
    ensures var n := CyclesGiven(cfg, s, RoundSteps(r), NoCycles(procs));
            pid in n && n[pid] == if Length(sources[pid]) <= 100 then Length(sources[pid]) else 100
  {
    hide Live, MemoryMirrors, AllGenerated, GeneratedFrom, Drawn, Rounds, CyclesGiven, BootedGenerated, TtlFor, EachPid;
    GeneratedRounds(cfg, procs, sources, s, r);
    SourceDrawn(procs, sources, pid);
    LifeSuffices(sources[pid]);
  }

  /** With such a load, a cut-off program's memory is where 100 instructions of its solo run leave it. */
  lemma {:induction false} LongProgramsAreCut(cfg: Config, procs: Procs, sources: Sources, s: Sys, r: nat, pid: int)
    requires SysWf(cfg, s) && BootedGenerated(cfg, procs, sources, s) && pid in procs && pid in sources
    requires pid !in Live(Pid, Rounds(cfg, s, r)) && Length(sources[pid]) > 100
    ensures var m := Rounds(cfg, s, r).mem; var solo := SoloRun(Start(procs[pid].image), 100);
            Backed(m, procs[pid].table) && View(m, procs[pid].table) == solo.vm && solo.status == Continue
  {
    hide Live, AllGenerated, GeneratedFrom, Drawn, Rounds, CyclesGiven, BootedGenerated, View, SoloRun,
         FramesExclusive, Punctual, StopsAt;
    GeneratedRounds(cfg, procs, sources, s, r);
    CyclesOnLeaving(cfg, procs, sources, s, r, pid);
    GeneratedStop(procs, sources);
    StopOf(procs, sources, pid, 100);
  }

  lemma StopOf(procs: Procs, sources: Sources, pid: int, k: nat)
    requires StopsAt(procs, Lengths(sources)) && pid in procs && pid in sources
    ensures SoloRun(Start(procs[pid].image), k).status != Continue <==> k >= Length(sources[pid])
  {
    hide SoloRun, Length;
  }

  /** A budget is a life: everyone starts with at least one tick. */
  lemma BudgetsAreLives(budgets: Budgets, procs: Procs, s: Sys)
    requires Budgeted(budgets, s, NoCycles(procs)) && budgets.Keys == procs.Keys
    requires forall pid :: pid in procs ==> budgets[pid] >= 1
    ensures EachWaiting(s.sched, HasLife)
  {
    hide EachExecuting;
    var n := NoCycles(procs);
    forall p | WaitingLife(budgets, n, p) ensures HasLife(p) {
    }
  }

  lemma EveryoneStartsWithLife(cfg: Config, procs: Procs, sources: Sources, s: Sys)
    requires BootedGenerated(cfg, procs, sources, s)
    ensures EachWaiting(s.sched, HasLife)
  {
    hide Booted, AllGenerated, BootedWith, StopsAt, Live, Budgeted, EachWaiting;
    GeneratedIsBooted(cfg, procs, sources, s);
    SameKeys(procs, sources);
    BudgetsAreLives(LoaderBudgets(sources), procs, s);
  }

  /** The whole system with a load of generated programs of at most 100 words that fits: within as many
      turns as there is life in the system plus one, all have completed and every process's memory holds
      its code unchanged and its data folded block by block. */
  lemma {:induction false} AllProgramsCompute(cfg: Config, procs: Procs, sources: Sources, s: Sys, ks: seq<nat>)
    requires SysWf(cfg, s) && BootedGenerated(cfg, procs, sources, s)
    requires forall pid :: pid in sources ==> Length(sources[pid]) <= 100
    requires |s.cores| > 0 && cfg.threads > 0 && Ticking(ks) && |ks| >= Life(s) + 1
    ensures var now := Turns(cfg, s, ks);
            && now.sched.completed == |Live(Pid, s)| && AllGenerated(procs, sources)
            && forall pid :: pid in procs ==> Computed(procs, sources, now.mem, pid)
  {
    hide Live, AllGenerated, GeneratedFrom, BootedGenerated, EachWaiting, Computed, Turns, Run, Length, Life,
         CyclesGiven, Loaded, Ticking;
    GeneratedParts(cfg, procs, sources, s);
    EveryoneStartsWithLife(cfg, procs, sources, s);
    AllComplete(cfg, s, ks);
    var es := TurnsAreRuns(cfg, s, ks);
    SameKeys(procs, sources);
    forall pid | pid in procs ensures Computed(procs, sources, Turns(cfg, s, ks).mem, pid) {
      ShortProgramsRunToExit(cfg, procs, sources, s, es, pid);
    }
  }

  lemma SameKeys(procs: Procs, sources: Sources)
    requires AllGenerated(procs, sources)
    ensures procs.Keys == sources.Keys
  {
  }
}
