/** Time to live against cycles received: what the counter says at any moment of any run, when a
    process can leave, and what a generated program has done by then
    (sys/clock.c:48-70, sys/process.c:61-66, sys/process.c:607-643, sys/loader.c:126-132). */
module Lifetimes {
  import opened Process
  import opened Machine
  import opened Solo
  import opened Scheduler
  import opened Population
  import opened Conservation
  import opened Transparency

  /** Life given at load time, by pid. */
  type Budgets = map<int, int>

  function Remaining(budget: int, cycles: nat): int {
    if cycles < budget then budget - cycles else 0
  }

  ghost predicate WaitingLife(budgets: Budgets, n: Cycles, p: PCB) {
    p.pid in budgets && p.pid in n && p.ttl == Remaining(budgets[p.pid], n[p.pid])
  }

  /** A program that has not stopped has what is left of its budget. */
  ghost predicate ThreadLife(budgets: Budgets, n: Cycles, t: Thread) {
    var pid := t.pcb.pid;
    && pid in budgets && pid in n
    && (t.pcb.state != Terminated ==> t.pcb.ttl == Remaining(budgets[pid], n[pid]))
  }

  ghost predicate Budgeted(budgets: Budgets, s: Sys, n: Cycles) {
    && EachWaiting(s.sched, p => WaitingLife(budgets, n, p))
    && EachExecuting(s.cores, t => ThreadLife(budgets, n, t))
  }

  // ------------------------------------------------------------------ credit

  lemma {:induction false} CreditMember(n: Cycles, ts: seq<Thread>, k: nat)
    requires k < |ts| && DistinctPids(ts) && ts[k].pcb.pid in n
    ensures var pid := ts[k].pcb.pid; pid in Credit(n, ts) && Credit(n, ts)[pid] == n[pid] + 1
  {
    var last := |ts| - 1;
    if k < last {
      CreditMember(n, ts[..last], k);
    } else {
      CreditOther(n, ts[..last], ts[k].pcb.pid);
    }
  }

  /** A tick credits each executing process with one cycle. */
  lemma ExecutingCredited(s: Sys, n: Cycles, k: nat)
    requires (forall x :: Live(Pid, s)[x] <= 1) && k < |Order(s.cores)| && Order(s.cores)[k].pcb.pid in n
    ensures var pid, n' := Order(s.cores)[k].pcb.pid, Credit(n, Flat(s.cores));
            pid in n' && n'[pid] == n[pid] + 1
  {
    var ts, pid := Flat(s.cores), Order(s.cores)[k].pcb.pid;
    FlatIsDistinct(s);
    FlatSameTally(s.cores);
    assert ThreadKeys(Pid, Order(s.cores))[k] == pid;
    assert pid in ThreadTally(Pid, ts);
    var j :| 0 <= j < |ts| && ThreadKeys(Pid, ts)[j] == pid;
    CreditMember(n, ts, j);
  }

  /** A tick credits nobody else. */
  lemma OthersUncredited(s: Sys, n: Cycles, pid: int)
    requires pid in n && pid !in Executing(Pid, s.cores)
    ensures pid in Credit(n, Flat(s.cores)) && Credit(n, Flat(s.cores))[pid] == n[pid]
  {
    var ts := Flat(s.cores);
    FlatSameTally(s.cores);
    forall k | 0 <= k < |ts| ensures ts[k].pcb.pid != pid {
      assert ThreadKeys(Pid, ts)[k] in ThreadTally(Pid, ts);
    }
    CreditOther(n, ts, pid);
  }

  lemma WaitingIsNotExecuting(s: Sys, pid: int)
    requires Live(Pid, s)[pid] <= 1 && pid in Queued(Pid, s.sched)
    ensures pid !in Executing(Pid, s.cores)
  {
    assert Live(Pid, s)[pid] == Queued(Pid, s.sched)[pid] + Executing(Pid, s.cores)[pid];
  }

  // ------------------------------------------------------------------ the counter

  lemma ThreadLifeTicks(budgets: Budgets, n: Cycles, n': Cycles, t: Thread, u: Thread)
    requires ThreadLife(budgets, n, t) && TickOf(t, u)
    requires t.pcb.pid in n' && n'[t.pcb.pid] == n[t.pcb.pid] + 1
    ensures ThreadLife(budgets, n', u)
  {
  }

  lemma TickThreadsBudgeted(cfg: Config, budgets: Budgets, s: Sys, n: Cycles)
    requires SysWf(cfg, s) && EachExecuting(s.cores, t => ThreadLife(budgets, n, t))
    requires forall x :: Live(Pid, s)[x] <= 1
    ensures EachExecuting(Tick(cfg, s).cores, t => ThreadLife(budgets, Credit(n, Flat(s.cores)), t))
  {
    hide Credit, Flat, Order, TickCores, ThreadLife, Live, TickOf;
    var s', n' := Tick(cfg, s), Credit(n, Flat(s.cores));
    TickPointwise(s.cores, s.mem);
    forall k | 0 <= k < |Order(s'.cores)| ensures ThreadLife(budgets, n', Order(s'.cores)[k]) {
      var t := Order(s.cores)[k];
      HasCycles(budgets, n, t);
      ExecutingCredited(s, n, k);
      ThreadLifeTicks(budgets, n, n', t, Order(s'.cores)[k]);
    }
  }

  lemma HasCycles(budgets: Budgets, n: Cycles, t: Thread)
    requires ThreadLife(budgets, n, t)
    ensures t.pcb.pid in n
  {
  }

  lemma {:induction false} TickBudgeted(cfg: Config, budgets: Budgets, s: Sys, n: Cycles)
    requires SysWf(cfg, s) && Budgeted(budgets, s, n) && forall x :: Live(Pid, s)[x] <= 1
    ensures Budgeted(budgets, Tick(cfg, s), Credit(n, Flat(s.cores)))
  {
    hide Credit, Flat, Order, TickCores, Live, Queued, Executing, ThreadLife;
    var n' := Credit(n, Flat(s.cores));
    TickThreadsBudgeted(cfg, budgets, s, n);
    QueuedMembers(s.sched);
    forall p: PCB | WaitingLife(budgets, n, p) && p.pid in Queued(Pid, s.sched) ensures WaitingLife(budgets, n', p) {
      WaitingIsNotExecuting(s, p.pid);
      OthersUncredited(s, n, p.pid);
    }
  }

  lemma ActivateBudgeted(cfg: Config, budgets: Budgets, s: Sys, n: Cycles)
    requires SysWf(cfg, s) && Budgeted(budgets, s, n)
    ensures Budgeted(budgets, Activate(cfg, s), n)
  {
    if Wakes(cfg, s) {
      ActivateEach(cfg, s, p => WaitingLife(budgets, n, p), t => ThreadLife(budgets, n, t),
                   t => ThreadLife(budgets, n, t));
    }
  }

  /** At any moment of any run of a load that does not overfill a BFS queue, a process that has not
      stopped has its budget less its cycles to live, never below zero. For a priority load that does not
      fit, as long as the preemption routine has nothing to replace. */
  lemma {:induction false} TtlCountsCycles(cfg: Config, budgets: Budgets, procs: Procs, s: Sys, es: seq<Step>)
    requires Undoubled(cfg, s) && Budgeted(budgets, s, NoCycles(procs))
    ensures Budgeted(budgets, Run(cfg, s, es), CyclesGiven(cfg, s, es, NoCycles(procs)))
  {
    if es != [] {
      var before := es[..|es|-1];
      TtlCountsCycles(cfg, budgets, procs, s, before);
      var now, n := Run(cfg, s, before), CyclesGiven(cfg, s, before, NoCycles(procs));
      match es[|es|-1]
      case ClockTick =>
        NobodyDoubled(cfg, s, before);
        TickBudgeted(cfg, budgets, now, n);
      case Activation =>
        ActivateBudgeted(cfg, budgets, now, n);
    }
  }

  // ------------------------------------------------------------------ who is in the system

  ghost predicate EachPid(pids: multiset<int>, G: int -> bool) {
    forall x :: x in pids ==> G(x)
  }

  lemma {:induction false} LevelPids(levels: seq<seq<PCB>>, P: PCB -> bool, G: int -> bool)
    requires forall l, i :: 0 <= l < |levels| && 0 <= i < |levels[l]| ==> P(levels[l][i])
    requires forall p :: P(p) ==> G(p.pid)
    ensures EachPid(LevelTally(Pid, levels), G)
  {
    if levels != [] {
      var n := |levels| - 1;
      LevelPids(levels[..n], P, G);
      ListPids(levels[n], P, G);
    }
  }

  lemma ListPids(ps: seq<PCB>, P: PCB -> bool, G: int -> bool)
    requires (forall i :: 0 <= i < |ps| ==> P(ps[i])) && forall p :: P(p) ==> G(p.pid)
    ensures EachPid(Tally(Pid, ps), G)
  {
    forall x | x in Tally(Pid, ps) ensures G(x) {
      assert x in Keys(Pid, ps);
    }
  }

  /** What every waiting and every executing process satisfies, every live pid satisfies. */
  lemma LivePids(s: Sys, P: PCB -> bool, R: Thread -> bool, G: int -> bool)
    requires EachWaiting(s.sched, P) && EachExecuting(s.cores, R)
    requires (forall p :: P(p) ==> G(p.pid)) && (forall t :: R(t) ==> G(t.pcb.pid))
    ensures EachPid(Live(Pid, s), G)
  {
    ListPids(s.sched.ready, P, G);
    LevelPids(s.sched.levels, P, G);
    forall x | x in Executing(Pid, s.cores) ensures G(x) {
      assert x in ThreadKeys(Pid, Order(s.cores));
    }
  }

  lemma {:induction false} GonePids(ts: seq<Thread>, R: Thread -> bool, G: int -> bool)
    requires EachThread(ts, R) && forall t :: R(t) && Done(Bump(t.pcb)) ==> G(t.pcb.pid)
    ensures EachPid(Gone(Pid, ts), G)
  {
    if ts != [] {
      GonePids(ts[..|ts|-1], R, G);
    }
  }

  // ------------------------------------------------------------------ leaving

  /** The program has stopped, or has had all the cycles its life allows. */
  ghost predicate Served(procs: Procs, budgets: Budgets, n: Cycles, pid: int) {
    && pid in procs && pid in n && pid in budgets
    && (Alone(procs, n, pid).status != Continue || n[pid] >= budgets[pid])
  }

  /** Everyone loaded is live or has been served. */
  ghost predicate NobodyRobbed(procs: Procs, budgets: Budgets, s: Sys, n: Cycles) {
    forall pid :: pid in procs ==> pid in Live(Pid, s) || Served(procs, budgets, n, pid)
  }

  lemma {:induction false} StoppedStays(s: Solo, k: nat, n: nat)
    requires k <= n && SoloRun(s, k).status != Continue
    ensures SoloRun(s, n).status != Continue
  {
    SoloRunAdd(s, k, n - k);
    HaltedStays(SoloRun(s, k), n - k);
  }

  lemma ServedStays(procs: Procs, budgets: Budgets, n: Cycles, n': Cycles, pid: int)
    requires Served(procs, budgets, n, pid) && pid in n' && n[pid] <= n'[pid]
    ensures Served(procs, budgets, n', pid)
  {
    if Alone(procs, n, pid).status != Continue {
      StoppedStays(Start(procs[pid].image), n[pid], n'[pid]);
    }
  }

  lemma {:induction false} CreditGrows(n: Cycles, ts: seq<Thread>, pid: int)
    requires pid in n
    ensures pid in Credit(n, ts) && Credit(n, ts)[pid] >= n[pid]
  {
    if ts != [] {
      CreditGrows(n, ts[..|ts|-1], pid);
    }
  }

  lemma TickRobsNobody(cfg: Config, procs: Procs, budgets: Budgets, s: Sys, n: Cycles)
    requires SysWf(cfg, s) && NobodyRobbed(procs, budgets, s, n)
    ensures NobodyRobbed(procs, budgets, Tick(cfg, s), Credit(n, Flat(s.cores)))
  {
    hide Served, Live, Flat, Credit;
    TickConserves(cfg, s, Pid);
    forall pid | pid in procs && pid !in Live(Pid, s) ensures Served(procs, budgets, Credit(n, Flat(s.cores)), pid) {
      assert pid in n by { ServedCounts(procs, budgets, n, pid); }
      CreditGrows(n, Flat(s.cores), pid);
      ServedStays(procs, budgets, n, Credit(n, Flat(s.cores)), pid);
    }
  }

  lemma ServedCounts(procs: Procs, budgets: Budgets, n: Cycles, pid: int)
    requires Served(procs, budgets, n, pid)
    ensures pid in n
  {
  }

  lemma GoneServed(procs: Procs, budgets: Budgets, s: Sys, n: Cycles)
    requires Transparent(procs, s, n) && Budgeted(budgets, s, n)
    ensures forall pid :: pid in Gone(Pid, Order(s.cores)) ==> Served(procs, budgets, n, pid)
  {
    hide SoloRun, MemoryMirrors, Gone, Order;
    GonePids(Order(s.cores), t => ThreadMirrors(procs, n, t) && ThreadLife(budgets, n, t),
             pid => Served(procs, budgets, n, pid));
  }

  /** Within the load the sweep takes out only those that have been served. */
  lemma {:induction false} ActivateRobsNobody(cfg: Config, procs: Procs, budgets: Budgets, s: Sys, n: Cycles,
                           pids: multiset<int>, prios: multiset<int>)
    requires SysWf(cfg, s) && Conserved(cfg, s, pids, prios)
    requires Transparent(procs, s, n) && Budgeted(budgets, s, n) && NobodyRobbed(procs, budgets, s, n)
    ensures NobodyRobbed(procs, budgets, Activate(cfg, s), n)
  {
    if Wakes(cfg, s) {
      hide Conserved, Live, Gone, Order, Transparent, Budgeted, Served;
      ActivateConserves(cfg, s, pids, prios);
      GoneServed(procs, budgets, s, n);
      forall pid | pid in procs ensures pid in Live(Pid, Activate(cfg, s)) || Served(procs, budgets, n, pid) {
        assert pid in Live(Pid, s) ==> pid in Live(Pid, Activate(cfg, s)) || pid in Gone(Pid, Order(s.cores));
      }
    }
  }

  /** The start of a run with a budget for every process. */
  ghost predicate BootedWith(cfg: Config, procs: Procs, budgets: Budgets, s: Sys) {
    && Booted(cfg, procs, s) && AllStayInPages(procs) && Budgeted(budgets, s, NoCycles(procs))
    && forall pid :: pid in procs ==> pid in Live(Pid, s)
  }

  /** With a load that fits, along every interleaving a process leaves the system only when its program
      has stopped or it has been given as many cycles as its time to live. */
  lemma {:induction false} LeavesOnlyWhenServed(cfg: Config, procs: Procs, budgets: Budgets, s: Sys, es: seq<Step>)
    requires BootedWith(cfg, procs, budgets, s)
    ensures NobodyRobbed(procs, budgets, Run(cfg, s, es), CyclesGiven(cfg, s, es, NoCycles(procs)))
  {
    hide NobodyRobbed, Transparent, Budgeted, Conserved;
    if es == [] {
      StartRobsNobody(cfg, procs, budgets, s);
    } else {
      var before := es[..|es|-1];
      LeavesOnlyWhenServed(cfg, procs, budgets, s, before);
      var now, n := Run(cfg, s, before), CyclesGiven(cfg, s, before, NoCycles(procs));
      match es[|es|-1]
      case ClockTick =>
        TickRobsNobody(cfg, procs, budgets, now, n);
      case Activation =>
        RunConserves(cfg, s, before);
        TimeSharingIsTransparent(cfg, procs, s, before);
        TtlCountsCycles(cfg, budgets, procs, s, before);
        ActivateRobsNobody(cfg, procs, budgets, now, n, Live(Pid, s), Live(Priority, s));
    }
  }

  lemma StartRobsNobody(cfg: Config, procs: Procs, budgets: Budgets, s: Sys)
    requires BootedWith(cfg, procs, budgets, s)
    ensures NobodyRobbed(procs, budgets, s, NoCycles(procs))
  {
    hide Served;
  }

  // ------------------------------------------------------------------ one activation per tick

  /** `n` rounds of one tick and one activation. */
  function Rounds(cfg: Config, s: Sys, n: nat): (r: Sys)
    requires SysWf(cfg, s)
    ensures SysWf(cfg, r)
  {
    if n == 0 then s else Activate(cfg, Tick(cfg, Rounds(cfg, s, n - 1)))
  }

  function RoundSteps(n: nat): seq<Step> {
    if n == 0 then [] else RoundSteps(n - 1) + [ClockTick] + [Activation]
  }

  lemma {:induction false} RoundsAreRuns(cfg: Config, s: Sys, n: nat)
    requires SysWf(cfg, s)
    ensures Run(cfg, s, RoundSteps(n)) == Rounds(cfg, s, n)
  {
    hide Tick, Activate;
    if n > 0 {
      var es := RoundSteps(n - 1);
      RoundsAreRuns(cfg, s, n - 1);
      assert (es + [ClockTick] + [Activation])[..|es| + 1] == es + [ClockTick];
      assert (es + [ClockTick])[..|es|] == es;
    }
  }

  lemma CyclesSnoc(cfg: Config, s: Sys, es: seq<Step>, e: Step, zero: Cycles)
    requires SysWf(cfg, s)
    ensures CyclesGiven(cfg, s, es + [e], zero)
            == if e == ClockTick then Credit(CyclesGiven(cfg, s, es, zero), Flat(Run(cfg, s, es).cores))
               else CyclesGiven(cfg, s, es, zero)
  {
    hide Run, Credit, Flat;
    assert (es + [e])[..|es|] == es;
  }

  lemma RoundCycles(cfg: Config, s: Sys, n: nat, zero: Cycles)
    requires SysWf(cfg, s) && n > 0
    ensures CyclesGiven(cfg, s, RoundSteps(n), zero)
            == Credit(CyclesGiven(cfg, s, RoundSteps(n - 1), zero), Flat(Rounds(cfg, s, n - 1).cores))
  {
    hide Rounds, Run, Credit, Flat, CyclesGiven;
    var es := RoundSteps(n - 1);
    RoundsAreRuns(cfg, s, n - 1);
    CyclesSnoc(cfg, s, es, ClockTick, zero);
    CyclesSnoc(cfg, s, es + [ClockTick], Activation, zero);
  }

  /** Solo, the program of `pid` stops in cycle `stop[pid]` and not before. */
  ghost predicate StopsAt(procs: Procs, stop: Budgets) {
    && stop.Keys == procs.Keys
    && forall pid, k: nat :: pid in procs ==>
         (SoloRun(Start(procs[pid].image), k).status != Continue <==> k >= stop[pid])
  }

  /** Cycles a process gets in all: to its stop, or to the end of its life if that comes first. */
  function Allowance(stop: Budgets, budgets: Budgets, pid: int): int
    requires pid in stop && pid in budgets
  {
    if stop[pid] <= budgets[pid] then stop[pid] else budgets[pid]
  }

  ghost predicate Within(stop: Budgets, budgets: Budgets, n: Cycles, pid: int) {
    pid in stop && pid in budgets && pid in n && n[pid] < Allowance(stop, budgets, pid)
  }

  ghost predicate Spent(stop: Budgets, budgets: Budgets, n: Cycles, pid: int) {
    pid in stop && pid in budgets && pid in n && n[pid] == Allowance(stop, budgets, pid)
  }

  /** Between rounds: the live have cycles to come, the others had exactly their allowance. */
  ghost predicate Punctual(procs: Procs, stop: Budgets, budgets: Budgets, s: Sys, n: Cycles) {
    && EachPid(Live(Pid, s), pid => Within(stop, budgets, n, pid))
    && forall pid :: pid in procs ==> pid in Live(Pid, s) || Spent(stop, budgets, n, pid)
  }

  /** After the activation everyone left is running a program that has not stopped, with life left. */
  ghost predicate StillGoing(p: PCB) {
    p.state != Terminated && p.ttl >= 1
  }

  ghost predicate WaitingGoing(procs: Procs, budgets: Budgets, n: Cycles, p: PCB) {
    WaitingMirrors(procs, n, p) && WaitingLife(budgets, n, p) && StillGoing(p)
  }

  ghost predicate ThreadTold(procs: Procs, budgets: Budgets, n: Cycles, t: Thread) {
    ThreadMirrors(procs, n, t) && ThreadLife(budgets, n, t)
  }

  ghost predicate ThreadGoing(procs: Procs, budgets: Budgets, n: Cycles, t: Thread) {
    ThreadTold(procs, budgets, n, t) && StillGoing(t.pcb)
  }

  lemma GoingIsWithin(procs: Procs, stop: Budgets, budgets: Budgets, n: Cycles, t: Thread)
    requires StopsAt(procs, stop) && ThreadGoing(procs, budgets, n, t)
    ensures Within(stop, budgets, n, t.pcb.pid)
  {
    hide SoloRun;
  }

  lemma WaitingIsWithin(procs: Procs, stop: Budgets, budgets: Budgets, n: Cycles, p: PCB)
    requires StopsAt(procs, stop) && WaitingGoing(procs, budgets, n, p)
    ensures Within(stop, budgets, n, p.pid)
  {
    hide SoloRun;
  }

  /** A process swept out one cycle after it was within its allowance has spent it exactly. */
  lemma DoneIsSpent(procs: Procs, stop: Budgets, budgets: Budgets, n: Cycles, n': Cycles, t: Thread)
    requires StopsAt(procs, stop) && ThreadTold(procs, budgets, n', t) && Done(Bump(t.pcb))
    requires LiveMidRound(stop, budgets, n, n', t.pcb.pid)
    ensures Spent(stop, budgets, n', t.pcb.pid)
  {
    hide SoloRun;
  }

  lemma ActivateLeavesGoing(cfg: Config, procs: Procs, budgets: Budgets, s: Sys, n: Cycles)
    requires SysWf(cfg, s) && Wakes(cfg, s)
    requires EachWaiting(s.sched, p => WaitingGoing(procs, budgets, n, p))
    requires EachExecuting(s.cores, t => ThreadTold(procs, budgets, n, t))
    ensures EachWaiting(Activate(cfg, s).sched, p => WaitingGoing(procs, budgets, n, p))
    ensures EachExecuting(Activate(cfg, s).cores, t => ThreadGoing(procs, budgets, n, t))
  {
    ActivateEach(cfg, s, p => WaitingGoing(procs, budgets, n, p), t => ThreadTold(procs, budgets, n, t),
                 t => ThreadGoing(procs, budgets, n, t));
  }

  /** Everything known of a state between rounds. */
  ghost predicate BetweenRounds(cfg: Config, procs: Procs, stop: Budgets, budgets: Budgets, s: Sys, n: Cycles,
                                pids: multiset<int>, prios: multiset<int>)
  {
    && SysWf(cfg, s) && Conserved(cfg, s, pids, prios) && s.lastTick <= s.clock
    && (forall x :: Live(Pid, s)[x] <= 1)
    && Transparent(procs, s, n) && Budgeted(budgets, s, n) && EachWaiting(s.sched, StillGoing)
    && Punctual(procs, stop, budgets, s, n)
  }

  lemma CreditAtMostOne(s: Sys, n: Cycles, pid: int)
    requires (forall x :: Live(Pid, s)[x] <= 1) && pid in n
    ensures pid in Credit(n, Flat(s.cores)) && n[pid] <= Credit(n, Flat(s.cores))[pid] <= n[pid] + 1
  {
    hide Flat, Credit, Order;
    CreditGrows(n, Flat(s.cores), pid);
    if pid in Executing(Pid, s.cores) {
      var ks := ThreadKeys(Pid, Order(s.cores));
      var k :| 0 <= k < |ks| && ks[k] == pid;
      ExecutingCredited(s, n, k);
    } else {
      OthersUncredited(s, n, pid);
    }
  }

  /** Between the tick and the activation of a round nobody has had more than one cycle since. */
  ghost predicate PidsMidRound(procs: Procs, stop: Budgets, budgets: Budgets, s: Sys, n: Cycles, n': Cycles) {
    && (forall pid :: pid in Live(Pid, s) ==> LiveMidRound(stop, budgets, n, n', pid))
    && (forall pid :: pid in procs ==> pid in Live(Pid, s) || Spent(stop, budgets, n', pid))
  }

  ghost predicate EveryoneMidRound(procs: Procs, budgets: Budgets, s: Sys, n: Cycles) {
    && EachWaiting(s.sched, p => WaitingGoing(procs, budgets, n, p))
    && EachExecuting(s.cores, t => ThreadTold(procs, budgets, n, t))
  }

  ghost predicate LiveMidRound(stop: Budgets, budgets: Budgets, n: Cycles, n': Cycles, pid: int) {
    Within(stop, budgets, n, pid) && pid in n' && n'[pid] <= n[pid] + 1
  }

  lemma TickLivePid(procs: Procs, stop: Budgets, budgets: Budgets, s: Sys, n: Cycles, pid: int)
    requires (forall x :: Live(Pid, s)[x] <= 1) && Punctual(procs, stop, budgets, s, n) && pid in Live(Pid, s)
    ensures LiveMidRound(stop, budgets, n, Credit(n, Flat(s.cores)), pid)
  {
    hide Live, Credit, Flat, Allowance;
    CreditAtMostOne(s, n, pid);
  }

  lemma TickDepartedPid(procs: Procs, stop: Budgets, budgets: Budgets, s: Sys, n: Cycles, pid: int)
    requires Punctual(procs, stop, budgets, s, n) && pid in procs && pid !in Live(Pid, s)
    ensures Spent(stop, budgets, Credit(n, Flat(s.cores)), pid)
  {
    hide Credit, Flat, Allowance, Executing;
    OthersUncredited(s, n, pid);
  }

  lemma {:induction false} TickPids(cfg: Config, procs: Procs, stop: Budgets, budgets: Budgets, s: Sys, n: Cycles)
    requires SysWf(cfg, s) && (forall x :: Live(Pid, s)[x] <= 1) && Punctual(procs, stop, budgets, s, n)
    ensures PidsMidRound(procs, stop, budgets, Tick(cfg, s), n, Credit(n, Flat(s.cores)))
  {
    hide Live, Tick, Credit, Flat, Punctual, LiveMidRound, Spent;
    TickConserves(cfg, s, Pid);
    var n' := Credit(n, Flat(s.cores));
    forall pid | pid in Live(Pid, s) ensures LiveMidRound(stop, budgets, n, n', pid) {
      TickLivePid(procs, stop, budgets, s, n, pid);
    }
    forall pid | pid in procs && pid !in Live(Pid, s) ensures Spent(stop, budgets, n', pid) {
      TickDepartedPid(procs, stop, budgets, s, n, pid);
    }
  }

  lemma TickEveryone(cfg: Config, procs: Procs, budgets: Budgets, s: Sys, n: Cycles)
    requires SysWf(cfg, s) && (forall x :: Live(Pid, s)[x] <= 1) && AllStayInPages(procs)
    requires Transparent(procs, s, n) && Budgeted(budgets, s, n) && EachWaiting(s.sched, StillGoing)
    ensures var t, n' := Tick(cfg, s), Credit(n, Flat(s.cores));
            Transparent(procs, t, n') && Budgeted(budgets, t, n') && EveryoneMidRound(procs, budgets, t, n')
  {
    hide Live, Tick, Credit, Flat, WaitingMirrors, WaitingLife, ThreadMirrors, ThreadLife, MemoryMirrors, StillGoing,
         TickCores, AllStayInPages;
    TickTransparent(cfg, procs, s, n);
    TickBudgeted(cfg, budgets, s, n);
    TickKeepsQueues(cfg, s);
  }

  lemma TickKeepsQueues(cfg: Config, s: Sys)
    requires SysWf(cfg, s)
    ensures Tick(cfg, s).sched == s.sched && Tick(cfg, s).clock == s.clock + 1 && Tick(cfg, s).lastTick == s.lastTick
  {
  }

  lemma ActivateKeepsWithin(cfg: Config, procs: Procs, stop: Budgets, budgets: Budgets, s: Sys, n: Cycles)
    requires SysWf(cfg, s) && Wakes(cfg, s) && StopsAt(procs, stop) && EveryoneMidRound(procs, budgets, s, n)
    ensures EachPid(Live(Pid, Activate(cfg, s)), pid => Within(stop, budgets, n, pid))
    ensures EachWaiting(Activate(cfg, s).sched, StillGoing)
  {
    var s' := Activate(cfg, s);
    ActivateLeavesGoing(cfg, procs, budgets, s, n);
    hide Activate, Wakes, EveryoneMidRound, SysWf;
    GoingAreWithin(procs, stop, budgets, s', n);
  }

  lemma GoingAreWithin(procs: Procs, stop: Budgets, budgets: Budgets, s: Sys, n: Cycles)
    requires StopsAt(procs, stop)
    requires EachWaiting(s.sched, p => WaitingGoing(procs, budgets, n, p))
    requires EachExecuting(s.cores, t => ThreadGoing(procs, budgets, n, t))
    ensures EachPid(Live(Pid, s), pid => Within(stop, budgets, n, pid))
    ensures EachWaiting(s.sched, StillGoing)
  {
    hide Order, Live, ThreadTold, WaitingGoing, ThreadGoing, Within, StopsAt, EachPid, StillGoing;
    forall p | WaitingGoing(procs, budgets, n, p) ensures Within(stop, budgets, n, p.pid) && StillGoing(p) {
      WaitingIsWithin(procs, stop, budgets, n, p);
      WaitingStillGoing(procs, budgets, n, p);
    }
    forall t | ThreadGoing(procs, budgets, n, t) ensures Within(stop, budgets, n, t.pcb.pid) {
      GoingIsWithin(procs, stop, budgets, n, t);
    }
    LivePids(s, p => WaitingGoing(procs, budgets, n, p), t => ThreadGoing(procs, budgets, n, t),
             pid => Within(stop, budgets, n, pid));
  }

  lemma {:induction false} ActivateEndsRound(cfg: Config, procs: Procs, stop: Budgets, budgets: Budgets, s: Sys,
                                             n: Cycles, n': Cycles,
                          pids: multiset<int>, prios: multiset<int>)
    requires SysWf(cfg, s) && Conserved(cfg, s, pids, prios) && Wakes(cfg, s) && StopsAt(procs, stop)
    requires PidsMidRound(procs, stop, budgets, s, n, n') && EveryoneMidRound(procs, budgets, s, n')
    ensures Punctual(procs, stop, budgets, Activate(cfg, s), n') && EachWaiting(Activate(cfg, s).sched, StillGoing)
  {
    hide Activate, Conserved, Order, Live, Within, Spent, Gone, EveryoneMidRound, StopsAt, Wakes, EachWaiting;
    ActivateConserves(cfg, s, pids, prios);
    ActivateKeepsWithin(cfg, procs, stop, budgets, s, n');
    GoneAreSpent(procs, stop, budgets, s, n, n');
    forall pid | pid in procs ensures pid in Live(Pid, Activate(cfg, s)) || Spent(stop, budgets, n', pid) {
      assert pid in Live(Pid, s) ==> pid in Live(Pid, Activate(cfg, s)) || pid in Gone(Pid, Order(s.cores));
    }
  }

  lemma WaitingStillGoing(procs: Procs, budgets: Budgets, n: Cycles, p: PCB)
    requires WaitingGoing(procs, budgets, n, p)
    ensures StillGoing(p)
  {
  }

  lemma {:induction false} GoneAreSpent(procs: Procs, stop: Budgets, budgets: Budgets, s: Sys, n: Cycles, n': Cycles)
    requires StopsAt(procs, stop)
    requires PidsMidRound(procs, stop, budgets, s, n, n') && EveryoneMidRound(procs, budgets, s, n')
    ensures EachPid(Gone(Pid, Order(s.cores)), pid => Spent(stop, budgets, n', pid))
  {
    var ts := Order(s.cores);
    hide Order, Gone, Queued, ThreadTold, WaitingGoing, LiveMidRound, Spent, StopsAt, Done;
    var R := (t: Thread) => ThreadTold(procs, budgets, n', t) && LiveMidRound(stop, budgets, n, n', t.pcb.pid);
    forall k | 0 <= k < |ts| ensures R(ts[k]) {
      assert ThreadKeys(Pid, ts)[k] in ThreadTally(Pid, ts);
      assert ts[k].pcb.pid in Live(Pid, s);
    }
    forall t | R(t) && Done(Bump(t.pcb)) ensures Spent(stop, budgets, n', t.pcb.pid) {
      DoneIsSpent(procs, stop, budgets, n, n', t);
    }
    GonePids(ts, R, pid => Spent(stop, budgets, n', pid));
  }

  lemma StartIsPunctual(cfg: Config, procs: Procs, stop: Budgets, budgets: Budgets, s: Sys)
    requires BootedWith(cfg, procs, budgets, s) && stop.Keys == procs.Keys
    requires forall pid :: pid in procs ==> pid in budgets && stop[pid] >= 1 && budgets[pid] >= 1
    ensures Punctual(procs, stop, budgets, s, NoCycles(procs)) && EachWaiting(s.sched, StillGoing)
  {
    var n := NoCycles(procs);
    hide MemoryMirrors, AllStayInPages, Live, SoloRun, Alone;
    EmptyOrder(s.cores);
    LivePids(s, p => WaitingMirrors(procs, n, p), NoThread, pid => Within(stop, budgets, n, pid));
    forall p: PCB | WaitingMirrors(procs, n, p) && WaitingLife(budgets, n, p) ensures StillGoing(p) {
    }
  }

  predicate NoThread(t: Thread) { false }

  lemma {:induction false} RoundGoesOn(cfg: Config, procs: Procs, stop: Budgets, budgets: Budgets, s: Sys, n: Cycles,
                    pids: multiset<int>, prios: multiset<int>)
    requires BetweenRounds(cfg, procs, stop, budgets, s, n, pids, prios)
    requires AllStayInPages(procs) && StopsAt(procs, stop) && forall x :: pids[x] <= 1
    ensures BetweenRounds(cfg, procs, stop, budgets, Activate(cfg, Tick(cfg, s)), Credit(n, Flat(s.cores)), pids, prios)
  {
    var t, n' := Tick(cfg, s), Credit(n, Flat(s.cores));
    hide Live, Transparent, Budgeted, Punctual, PidsMidRound, EveryoneMidRound, StopsAt, EachWaiting, Credit, Flat,
         Tick, Conserved, AllStayInPages, Activate, SysWf;
    TickPids(cfg, procs, stop, budgets, s, n);
    TickEveryone(cfg, procs, budgets, s, n);
    NextConserves(cfg, s, ClockTick, pids, prios);
    TickKeepsQueues(cfg, s);
    RoundCloses(cfg, procs, stop, budgets, t, n, n', pids, prios);
  }

  lemma {:induction false} RoundCloses(cfg: Config, procs: Procs, stop: Budgets, budgets: Budgets, t: Sys, n: Cycles,
                                       n': Cycles,
                    pids: multiset<int>, prios: multiset<int>)
    requires SysWf(cfg, t) && Conserved(cfg, t, pids, prios) && t.lastTick < t.clock
    requires Transparent(procs, t, n') && Budgeted(budgets, t, n') && StopsAt(procs, stop)
    requires PidsMidRound(procs, stop, budgets, t, n, n') && EveryoneMidRound(procs, budgets, t, n')
    requires forall x :: pids[x] <= 1
    ensures BetweenRounds(cfg, procs, stop, budgets, Activate(cfg, t), n', pids, prios)
  {
    hide Live, Transparent, Budgeted, Punctual, PidsMidRound, EveryoneMidRound, StopsAt, EachWaiting,
         Conserved, Activate, SysWf;
    ActivateEndsRound(cfg, procs, stop, budgets, t, n, n', pids, prios);
    ActivateTransparent(cfg, procs, t, n');
    ActivateBudgeted(cfg, budgets, t, n');
    NextConserves(cfg, t, Activation, pids, prios);
    ActivateAfterTick(cfg, t, pids, prios);
  }

  lemma ActivateAfterTick(cfg: Config, t: Sys, pids: multiset<int>, prios: multiset<int>)
    requires SysWf(cfg, t) && Conserved(cfg, Activate(cfg, t), pids, prios) && forall x :: pids[x] <= 1
    requires t.lastTick <= t.clock
    ensures Activate(cfg, t).lastTick <= Activate(cfg, t).clock
    ensures forall x :: Live(Pid, Activate(cfg, t))[x] <= 1
  {
    hide Live;
  }

  lemma StartsBetweenRounds(cfg: Config, procs: Procs, stop: Budgets, budgets: Budgets, s: Sys)
    requires BootedWith(cfg, procs, budgets, s) && StopsAt(procs, stop)
    requires forall pid :: pid in procs ==> pid in budgets && stop[pid] >= 1 && budgets[pid] >= 1
    ensures BetweenRounds(cfg, procs, stop, budgets, s, NoCycles(procs), Live(Pid, s), Live(Priority, s))
  {
    hide Live, EachWaiting, EachExecuting, Punctual, MemoryMirrors;
    RunConserves(cfg, s, []);
    StartIsPunctual(cfg, procs, stop, budgets, s);
  }

  /** With a load that fits and one activation per tick, each process that has left was given exactly
      the cycles its program needed, or exactly its time to live if that was fewer. */
  lemma {:induction false} LeavesExactlyOnTime(cfg: Config, procs: Procs, stop: Budgets, budgets: Budgets, s: Sys,
                                               r: nat)
    requires SysWf(cfg, s) && BootedWith(cfg, procs, budgets, s) && StopsAt(procs, stop)
    requires forall pid :: pid in procs ==> pid in budgets && stop[pid] >= 1 && budgets[pid] >= 1
    ensures BetweenRounds(cfg, procs, stop, budgets, Rounds(cfg, s, r),
                          CyclesGiven(cfg, s, RoundSteps(r), NoCycles(procs)), Live(Pid, s), Live(Priority, s))
  {
    hide Live, BetweenRounds, StopsAt, Credit, Flat, Tick, Activate, AllStayInPages, Transparent, Budgeted;
    var pids, prios := Live(Pid, s), Live(Priority, s);
    if r == 0 {
      StartsBetweenRounds(cfg, procs, stop, budgets, s);
    } else {
      LeavesExactlyOnTime(cfg, procs, stop, budgets, s, r - 1);
      var before, n := Rounds(cfg, s, r - 1), CyclesGiven(cfg, s, RoundSteps(r - 1), NoCycles(procs));
      RoundCycles(cfg, s, r, NoCycles(procs));
      RoundGoesOn(cfg, procs, stop, budgets, before, n, pids, prios);
    }
  }
}
