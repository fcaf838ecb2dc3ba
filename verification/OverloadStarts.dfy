/** Loads that do not fit, from start-up on: which of the loads start-up hands over are safe in every
    run, and what becomes of generated programs in one that is not. */
module OverloadStarts {
  import opened CArith
  import opened Memory
  import opened Process
  import opened Machine
  import opened Solo
  import opened ElfFile
  import opened Prometheus
  import opened Scheduler
  import opened Population
  import opened Conservation
  import opened Termination
  import opened RoundRobinFairness
  import opened PriorityDispatch
  import opened Transparency
  import opened Lifetimes
  import opened EndToEnd
  import opened Boot
  import opened Overload
  import opened OverloadRuns

  /** Ticks in all the turns together. */
  function TicksIn(ks: seq<nat>): nat {
    if ks == [] then 0 else TicksIn(ks[..|ks|-1]) + ks[|ks|-1]
  }

  lemma TicksInSnoc(ks: seq<nat>, j: nat)
    requires 1 <= j <= |ks|
    ensures TicksIn(ks[..j]) == TicksIn(ks[..j-1]) + ks[j-1]
  {
    assert ks[..j][..j-1] == ks[..j-1];
  }

  lemma {:induction false} TicksInGrow(ks: seq<nat>, j: nat)
    requires j <= |ks|
    ensures TicksIn(ks[..j]) <= TicksIn(ks)
  {
    if j < |ks| {
      TicksInGrow(ks[..|ks|-1], j);
      assert ks[..|ks|-1][..j] == ks[..j];
    } else {
      assert ks[..j] == ks;
    }
  }

  // ------------------------------------------------------------------ a memory of zeros

  /** Read as an instruction, zero is a load; it never stops. */
  ghost predicate Zeroed(m: Mem) {
    Shaped(m) && forall i :: 0 <= i < TOTAL_WORDS ==> m.words[i] == 0
  }

  predicate Going(p: PCB, life: int) {
    p.state != Terminated && p.ttl >= life
  }

  predicate RunsOn(t: Thread, life: int) { Going(t.pcb, life) }

  /** Everyone has `life` ticks to live and no program that could stop. */
  ghost predicate AllGoing(s: Sys, life: int) {
    && Zeroed(s.mem)
    && EachWaiting(s.sched, p => Going(p, life)) && EachExecuting(s.cores, t => RunsOn(t, life))
  }

  lemma {:induction false} ZeroThreads(ts: seq<Thread>, m: Mem, life: int)
    requires Zeroed(m) && life >= 1 && EachThread(ts, t => RunsOn(t, life))
    ensures TickThreads(ts, m).1 == m && EachThread(TickThreads(ts, m).0, t => RunsOn(t, life - 1))
  {
    if ts != [] {
      ZeroThreads(ts[..|ts|-1], m, life);
      assert RunsOn(ts[|ts|-1], life);
      assert Opcode(0) == OP_LD;
    }
  }

  lemma ZeroTick(cfg: Config, s: Sys, life: int)
    requires SysWf(cfg, s) && AllGoing(s, life) && life >= 1
    ensures AllGoing(Tick(cfg, s), life - 1)
  {
    hide TickThreads, Order, Flat;
    FlatSameThreads(s.cores, t => RunsOn(t, life));
    ZeroThreads(Flat(s.cores), s.mem, life);
    TickIsFlat(s.cores, s.mem);
    FlatSameThreads(Tick(cfg, s).cores, t => RunsOn(t, life - 1));
  }

  lemma {:induction false} ZeroTicks(cfg: Config, s: Sys, life: int, k: nat)
    requires SysWf(cfg, s) && AllGoing(s, life) && k <= life
    ensures AllGoing(Ticks(cfg, s, k), life - k)
  {
    hide Tick, AllGoing;
    if k > 0 {
      ZeroTicks(cfg, s, life, k - 1);
      ZeroTick(cfg, Ticks(cfg, s, k - 1), life - (k - 1));
    }
  }

  lemma ZeroActivate(cfg: Config, s: Sys, life: int)
    requires SysWf(cfg, s) && AllGoing(s, life)
    ensures AllGoing(Activate(cfg, s), life)
  {
    if Wakes(cfg, s) {
      ActivateEach(cfg, s, p => Going(p, life), t => RunsOn(t, life), t => RunsOn(t, life));
    }
  }

  lemma GoingIsUnfinished(s: Sys, life: int)
    requires AllGoing(s, life) && life >= 1
    ensures EachExecuting(s.cores, Unfinished)
  {
    forall k | 0 <= k < |Order(s.cores)| ensures Unfinished(Order(s.cores)[k]) {
      assert RunsOn(Order(s.cores)[k], life);
    }
  }

  lemma ZeroTurn(cfg: Config, s: Sys, life: int, k: nat)
    requires SysWf(cfg, s) && AllGoing(s, life) && k < life
    ensures EachExecuting(Ticks(cfg, s, k).cores, Unfinished) && AllGoing(Turn(cfg, s, k), life - k)
  {
    hide Ticks, Activate, AllGoing, EachExecuting;
    ZeroTicks(cfg, s, life, k);
    GoingIsUnfinished(Ticks(cfg, s, k), life - k);
    ZeroActivate(cfg, Ticks(cfg, s, k), life - k);
  }

  lemma NoTurnYet(cfg: Config, s: Sys, ks: seq<nat>)
    requires SysWf(cfg, s)
    ensures Undisturbed(cfg, s, ks, 0) && Turns(cfg, s, ks[..0]) == s && TicksIn(ks[..0]) == 0
  {
  }

  /** Over a memory of zeros nothing disturbs the turns as long as the lives last. */
  lemma {:induction false} ZeroGoesOn(cfg: Config, s: Sys, life: int, ks: seq<nat>, j: nat)
    requires SysWf(cfg, s) && AllGoing(s, life) && j <= |ks| && TicksIn(ks[..j]) < life
    ensures Undisturbed(cfg, s, ks, j) && AllGoing(Turns(cfg, s, ks[..j]), life - TicksIn(ks[..j]))
  {
    hide Ticks, Turn, Turns, AllGoing, EachExecuting, TicksIn, Undisturbed, SysWf;
    if j == 0 {
      NoTurnYet(cfg, s, ks);
    } else {
      TicksInSnoc(ks, j);
      ZeroGoesOn(cfg, s, life, ks, j - 1);
      ZeroTurn(cfg, Turns(cfg, s, ks[..j-1]), life - TicksIn(ks[..j-1]), ks[j-1]);
      OneTurnMore(cfg, s, ks, j);
    }
  }

  // ------------------------------------------------------------------ what start-up hands over

  /** An idle system with the processes and the memory that loading some files leaves. */
  ghost predicate Delivered(cfg: Config, s: Sys) {
    && SysWf(cfg, s) && Idle(s)
    && exists procs: Procs, budgets: Budgets, origins: Origins, files: seq<seq<string>>, priorities: seq<int>,
              next: int ::
         |files| == |priorities|
         && HandedOver(procs, budgets, origins, files, priorities, s.sched.ready, s.mem, next)
  }

  lemma DeliveredIsAccepted(cfg: Config, s: Sys)
    requires Delivered(cfg, s)
    ensures Accepted(cfg, s)
  {
    hide InMemoryApart, Known, InOrder, Prioritised, Idle, Live;
    var procs: Procs, budgets: Budgets, origins: Origins, files: seq<seq<string>>, priorities: seq<int>, next: int :|
      |files| == |priorities|
      && HandedOver(procs, budgets, origins, files, priorities, s.sched.ready, s.mem, next);
    QueuedInOrder(cfg, procs, budgets, s);
  }

  lemma {:induction false} TextFileScans(limit: nat)
    ensures Pass1([TextLine()]) == ElfFile.Scan(0, 0, true, false, 0) && Pass2([TextLine()], limit) == (true, [])
  {
    hide PrintHex, ScanHex;
    var head := [TextLine()];
    SectionAddress(0);
    assert head[..0] == [] && TextLine()[5..] == " " + PrintHex(0, 6) + "\n";
    assert Pass1(head) == Scan1(Pass1(head[..0]), TextLine());
    assert IsDirective(TextLine()) && Pass2(head[..0], limit) == (false, []);
  }

  /** The shortest file the loader accepts, a text section without words, gives ten ticks and no page. */
  lemma {:induction false} TextFileParses(priority: int)
    ensures var p := L.Program(L.Header(0, 0, 0, 0, priority, 10), [], []);
            Parse([TextLine()], priority) == Parsed(p) && L.PagesOf(p) == 0
  {
    hide Pass1, Pass2, TextLine;
    TextFileScans(0);
  }

  function Newcomer(pid: int, priority: int): PCB {
    CreatePcb(pid).(priority := priority, ttl := 10, initialTtl := 10, pgb := Some(0))
  }

  function Newcomers(priorities: seq<int>): (ps: seq<PCB>)
    ensures |ps| == |priorities| && forall i :: 0 <= i < |ps| ==> ps[i] == Newcomer(i + 1, priorities[i])
  {
    seq(|priorities|, i requires 0 <= i < |priorities| => Newcomer(i + 1, priorities[i]))
  }

  ghost function BlankMemory(): (m: Mem)
    ensures Zeroed(m) && m.nextKernel == 0
  {
    Mem(seq(TOTAL_WORDS, _ => 0), seq(KERNEL_WORDS, _ => EMPTY_ENTRY), seq(TOTAL_FRAMES, i => i < KERNEL_FRAMES),
        0, KERNEL_FRAMES)
  }

  /** Memory as `init_physical_memory` leaves it. */
  lemma BlankIsWf()
    ensures Wf(BlankMemory())
  {
    CountSetPrefix(BlankMemory().bitmap, KERNEL_FRAMES);
  }

  /** Start-up's state for one text-only file per priority, on one core. */
  ghost function TextOnly(cfg: Config, priorities: seq<int>): Sys {
    Sys(0, 0, Sched(Newcomers(priorities),
                    if cfg.policy == PreemptivePrio then seq(NUM_PRIORITY_LEVELS, _ => []) else [], 0, [], false),
        [[]], BlankMemory())
  }

  function TextFiles(n: nat): (files: seq<seq<string>>)
    ensures |files| == n
  {
    seq(n, _ => [TextLine()])
  }

  lemma TextFileLoads(m: Mem, priority: int)
    requires Shaped(m)
    ensures LoadedFrom(Proc(Table(0, 0), View(m, Table(0, 0))), 10, [TextLine()], priority)
  {
    hide Parse, TextLine;
    TextFileParses(priority);
  }

  /** Loading text-only files one after another, none of which takes a page. */
  lemma {:induction false} TextFilesHandOver(priorities: seq<int>, n: nat)
    returns (procs: Procs, budgets: Budgets, origins: Origins)
    requires n <= |priorities|
    ensures HandedOver(procs, budgets, origins, TextFiles(|priorities|), priorities, Newcomers(priorities[..n]),
                       BlankMemory(), n + 1)
  {
    hide HandedOver, LoadedFrom, TextLine, Wf, BlankMemory, View;
    var files, m := TextFiles(|priorities|), BlankMemory();
    BlankIsWf();
    if n == 0 {
      procs, budgets, origins := map[], map[], map[];
      NobodyYet(files, priorities, m, 1);
      assert Newcomers(priorities[..0]) == [];
    } else {
      procs, budgets, origins := TextFilesHandOver(priorities, n - 1);
      var p, t := Newcomer(n, priorities[n-1]), Table(0, 0);
      TextFileLoads(m, priorities[n-1]);
      OneMore(procs, budgets, origins, files, priorities, Newcomers(priorities[..n-1]), m, m, p, t, n - 1);
      assert Newcomers(priorities[..n-1]) + [p] == Newcomers(priorities[..n]);
      procs, budgets, origins := procs[n := Proc(t, View(m, t))], budgets[n := 10], origins[n := n - 1];
    }
  }

  /** For all priorities the loader accepts as many text-only files as the ready queue holds. */
  lemma TextOnlyIsDelivered(cfg: Config, priorities: seq<int>)
    requires |priorities| <= cfg.readyCapacity
    ensures SysWf(cfg, TextOnly(cfg, priorities)) && Delivered(cfg, TextOnly(cfg, priorities))
    ensures AllGoing(TextOnly(cfg, priorities), 10)
  {
    hide HandedOver, BlankMemory;
    var _, _, _ := TextFilesHandOver(priorities, |priorities|);
    assert priorities[..|priorities|] == priorities;
    EmptyOrder([[]]);
  }

  // ------------------------------------------------------------------ which loads are safe

  /** Whatever the interleaving, nobody is lost or doubled. */
  ghost predicate SafeInEveryRun(cfg: Config, s: Sys)
    requires SysWf(cfg, s)
  {
    forall es: seq<Step> ::
      var now := Run(cfg, s, es);
      && Live(Pid, now) <= Live(Pid, s) && |Live(Pid, now)| + now.sched.completed == |Live(Pid, s)|
  }

  lemma FittingIsSafe(cfg: Config, s: Sys)
    requires SysWf(cfg, s) && Loaded(cfg, s)
    ensures SafeInEveryRun(cfg, s)
  {
    hide Run, Live, Loaded;
    forall es: seq<Step>
      ensures var now := Run(cfg, s, es);
              Live(Pid, now) <= Live(Pid, s) && |Live(Pid, now)| + now.sched.completed == |Live(Pid, s)|
    {
      ProcessConservation(cfg, s, es);
    }
  }

  lemma LossIsUnsafe(cfg: Config, s: Sys, ks: seq<nat>)
    requires SysWf(cfg, s)
    requires var r := Turns(cfg, s, ks);
             !(Live(Pid, r) <= Live(Pid, s)) || |Live(Pid, r)| + r.sched.completed != |Live(Pid, s)|
    ensures !SafeInEveryRun(cfg, s)
  {
    hide Run, Turns, Live;
    var es := TurnsAreRuns(cfg, s, ks);
  }

  /** `n` processes that start-up delivers into a BFS queue of `cap` places. */
  ghost predicate BfsLoad(cfg: Config, s: Sys, cap: nat, n: nat) {
    SysWf(cfg, s) && Delivered(cfg, s) && cfg.policy == Bfs && cfg.readyCapacity == cap && |s.sched.ready| == n
  }

  /** One process more urgent than the others. */
  function Urgent(n: nat): (xs: seq<int>)
    ensures |xs| == n && forall i :: 0 <= i < n ==> xs[i] == if i == 0 then MIN_PRIORITY else 0
  {
    seq(n, i => if i == 0 then MIN_PRIORITY else 0)
  }

  function EachTick(n: nat): (ks: seq<nat>)
    ensures |ks| == n && Ticking(ks)
  {
    seq(n, _ => 1)
  }

  lemma {:induction false} TicksInOnes(n: nat, j: nat)
    requires j <= n
    ensures TicksIn(EachTick(n)[..j]) == j
  {
    if j > 0 {
      TicksInOnes(n, j - 1);
      TicksInSnoc(EachTick(n), j);
    }
  }

  lemma NothingDisturbs(cfg: Config, priorities: seq<int>, n: nat)
    requires |priorities| <= cfg.readyCapacity && n < 10
    ensures SysWf(cfg, TextOnly(cfg, priorities))
    ensures Undisturbed(cfg, TextOnly(cfg, priorities), EachTick(n), n)
  {
    hide AllGoing, TextOnly, TicksIn, EachTick;
    TextOnlyIsDelivered(cfg, priorities);
    TicksInOnes(n, n);
    ZeroGoesOn(cfg, TextOnly(cfg, priorities), 10, EachTick(n), n);
  }

  const BFS_QUANTUM: nat := 5

  /** Quantum 5, one core with a thread for each of `n` processes. */
  function Crowding(cap: nat, n: nat): Config {
    Config(BFS_QUANTUM, Bfs, ClockSync, cap, n)
  }

  lemma TextCrowd(cap: nat, n: nat)
    requires cap / 2 + 1 < n <= cap
    ensures var cfg := Crowding(cap, n); var s := TextOnly(cfg, Urgent(n));
            SysWf(cfg, s) && BfsLoad(cfg, s, cap, n) && Crowded(cfg, s)
  {
    hide AllGoing, BlankMemory, Live, Delivered, Idle;
    TextOnlyIsDelivered(Crowding(cap, n), Urgent(n));
    DeliveredIsAccepted(Crowding(cap, n), TextOnly(Crowding(cap, n), Urgent(n)));
  }

  lemma CrowdedIsUnsafe(cfg: Config, s: Sys, ks: seq<nat>)
    requires SysWf(cfg, s) && Crowded(cfg, s) && Ticking(ks) && |ks| == Slice(cfg) + 1
    requires Undisturbed(cfg, s, ks, |ks|)
    ensures !SafeInEveryRun(cfg, s)
  {
    hide Undisturbed, SafeInEveryRun, Live, Accepted, LostAndDoubled, Turns, Slice, Ticking;
    BfsLosesBeyondHalf(cfg, s, ks);
    var ps := s.sched.ready;
    DoubledIsNew(cfg, s, Turns(cfg, s, ks), ps[|ps|-1].pid, ps[cfg.readyCapacity + 1 - |ps|].pid);
    LossIsUnsafe(cfg, s, ks);
  }

  lemma CrowdIsLost(cap: nat, n: nat)
    requires cap / 2 + 1 < n <= cap
    ensures var cfg := Crowding(cap, n); var s := TextOnly(cfg, Urgent(n));
            BfsLoad(cfg, s, cap, n) && !SafeInEveryRun(cfg, s)
  {
    hide TextOnly, Undisturbed, SafeInEveryRun, EachTick, SysWf, Crowded, BfsLoad, Urgent;
    TextCrowd(cap, n);
    NothingDisturbs(Crowding(cap, n), Urgent(n), BFS_QUANTUM + 1);
    CrowdedIsUnsafe(Crowding(cap, n), TextOnly(Crowding(cap, n), Urgent(n)), EachTick(BFS_QUANTUM + 1));
  }

  lemma DoubledIsNew(cfg: Config, s: Sys, r: Sys, lost: int, doubled: int)
    requires LostAndDoubled(s, r, lost, doubled) && Accepted(cfg, s)
    ensures !(Live(Pid, r) <= Live(Pid, s))
  {
    hide Live, SysWf, Idle;
    assert Live(Pid, s)[doubled] <= 1;
  }

  /** For every capacity and every number of processes: all BFS loads of that size that start-up can
      deliver are safe in every run, under any quantum, sync mode and topology, if and only if they are
      no more than half the queue plus one. */
  lemma BfsSafeIff(cap: nat, n: nat)
    requires n <= cap
    ensures (forall cfg: Config, s: Sys :: BfsLoad(cfg, s, cap, n) ==> SafeInEveryRun(cfg, s))
            <==> n <= cap / 2 + 1
  {
    hide Delivered, SafeInEveryRun, TextOnly, Live;
    if n <= cap / 2 + 1 {
      forall cfg: Config, s: Sys | BfsLoad(cfg, s, cap, n) ensures SafeInEveryRun(cfg, s) {
        DeliveredIsAccepted(cfg, s);
        WhenLoadFits(cfg, s);
        FittingIsSafe(cfg, s);
      }
    } else {
      CrowdIsLost(cap, n);
    }
  }

  // ------------------------------------------------------------------ one priority

  /** `n` processes of priority `x` that start-up delivers with a ready queue of `cap` places. */
  ghost predicate LevelLoad(cfg: Config, s: Sys, cap: nat, x: int, n: nat) {
    && SysWf(cfg, s) && Delivered(cfg, s) && cfg.policy == PreemptivePrio && cfg.readyCapacity == cap
    && |s.sched.ready| == n
    && forall i :: 0 <= i < n ==> s.sched.ready[i].priority == x
  }

  function AllOf(x: int, n: nat): (xs: seq<int>)
    ensures |xs| == n && forall i :: 0 <= i < n ==> xs[i] == x
  {
    seq(n, _ => x)
  }

  /** Quantum 2 and one core of `threads` hardware threads. */
  function Queueing(cap: nat, threads: nat): Config {
    Config(2, PreemptivePrio, ClockSync, cap, threads)
  }

  lemma LevelLoadIsUniform(cfg: Config, s: Sys, x: int, n: nat)
    requires SysWf(cfg, s) && LevelLoad(cfg, s, cfg.readyCapacity, x, n) && s.cores == [[]]
    requires MIN_PRIORITY <= x <= MAX_PRIORITY
    ensures Uniform(cfg, s, x)
  {
    hide Delivered, Live;
    DeliveredIsAccepted(cfg, s);
  }

  lemma TextLevelLoad(cfg: Config, x: int, n: nat)
    requires cfg.policy == PreemptivePrio && n <= cfg.readyCapacity && MIN_PRIORITY <= x <= MAX_PRIORITY
    ensures var s := TextOnly(cfg, AllOf(x, n));
            && SysWf(cfg, s) && LevelLoad(cfg, s, cfg.readyCapacity, x, n) && Uniform(cfg, s, x)
            && |s.sched.ready| == n && s.cores == [[]]
  {
    hide Delivered, AllGoing, BlankMemory;
    TextOnlyIsDelivered(cfg, AllOf(x, n));
    LevelLoadIsUniform(cfg, TextOnly(cfg, AllOf(x, n)), x, n);
  }

  /** For every capacity, legal priority and number of processes: some load of that many processes of that
      priority leaves a hardware thread idle while one of them waits if and only if their level does not
      hold them. */
  lemma LevelBusyIff(cap: nat, x: int, n: nat)
    requires n <= cap && MIN_PRIORITY <= x <= MAX_PRIORITY
    ensures (forall cfg: Config, s: Sys, k: nat ::
               LevelLoad(cfg, s, cap, x, n) && s.cores == [[]] && k >= 1 ==> WorkConserving(cfg, Turn(cfg, s, k)))
            <==> n <= LevelCapacity(Queueing(cap, 1))
  {
    hide TextOnly, Live, Turn, WorkConserving, Uniform;
    if n <= LevelCapacity(Queueing(cap, 1)) {
      forall cfg: Config, s: Sys, k: nat | LevelLoad(cfg, s, cap, x, n) && s.cores == [[]] && k >= 1
        ensures WorkConserving(cfg, Turn(cfg, s, k))
      {
        LevelLoadIsUniform(cfg, s, x, n);
        UniformConservesIff(cfg, s, x, k);
      }
    } else {
      var cfg := Queueing(cap, n);
      TextLevelLoad(cfg, x, n);
      UniformConservesIff(cfg, TextOnly(cfg, AllOf(x, n)), x, 1);
    }
  }

  /** A start-up state whose first activation starts a process of priority 0 and leaves one of the highest
      priority waiting. */
  lemma LessUrgentCanStart()
    ensures var s := TextOnly(URGENT_CONFIG, [0, MIN_PRIORITY, MIN_PRIORITY, MIN_PRIORITY]);
            && SysWf(URGENT_CONFIG, s) && Delivered(URGENT_CONFIG, s)
            && var r := Turn(URGENT_CONFIG, s, 1).sched;
               && |r.ready| == 1 && r.ready[0].priority == MIN_PRIORITY
               && s.sched.ready[0].priority == 0 && Dispatched(s.sched.ready[0].pid) in r.log
               && !StartsMostUrgent(URGENT_CONFIG, Ticks(URGENT_CONFIG, s, 1))
  {
    hide Delivered, BlankMemory, Activate;
    var xs := [0, MIN_PRIORITY, MIN_PRIORITY, MIN_PRIORITY];
    var s := TextOnly(URGENT_CONFIG, xs);
    var ps := Newcomers(xs);
    TextOnlyIsDelivered(URGENT_CONFIG, xs);
    OneCoreTicks(URGENT_CONFIG, s, 1);
    var t := Ticks(URGENT_CONFIG, s, 1);
    assert t.cores[0] == [] && t.cores == [[]];
    assert ps == [ps[0], ps[1], ps[2], ps[3]];
    LessUrgentStarts(t, ps[0], ps[1], ps[2], ps[3]);
  }

  // ------------------------------------------------------------------ generated programs

  /** Every program has more than `r` cycles to go before it stops or its life ends. */
  ghost predicate Outlast(procs: Procs, stop: Budgets, budgets: Budgets, r: nat) {
    && AllStayInPages(procs) && StopsAt(procs, stop) && budgets.Keys == procs.Keys
    && forall pid :: pid in procs ==> stop[pid] > r && budgets[pid] > r
  }

  /** Everyone is where his program says, after no more than `r` cycles. */
  ghost predicate Underway(procs: Procs, budgets: Budgets, s: Sys, n: Cycles, r: nat) {
    && Transparent(procs, s, n) && Budgeted(budgets, s, n)
    && forall pid :: pid in procs ==> pid in n && n[pid] <= r
  }

  ghost predicate Distinct(s: Sys) {
    forall x :: Live(Pid, s)[x] <= 1
  }

  lemma TickUnderway(cfg: Config, procs: Procs, budgets: Budgets, s: Sys, n: Cycles, r: nat)
    requires SysWf(cfg, s) && Underway(procs, budgets, s, n, r) && AllStayInPages(procs) && Distinct(s)
    ensures Underway(procs, budgets, Tick(cfg, s), Credit(n, Flat(s.cores)), r + 1) && Distinct(Tick(cfg, s))
  {
    hide Live, Tick, Credit, Flat, Transparent, Budgeted, AllStayInPages;
    TickTransparent(cfg, procs, s, n);
    TickBudgeted(cfg, budgets, s, n);
    TickConserves(cfg, s, Pid);
    forall pid | pid in procs
      ensures pid in Credit(n, Flat(s.cores)) && Credit(n, Flat(s.cores))[pid] <= r + 1
    {
      CreditAtMostOne(s, n, pid);
    }
  }

  lemma {:induction false} TicksUnderway(cfg: Config, procs: Procs, budgets: Budgets, s: Sys, n: Cycles, r: nat,
                                         k: nat)
    returns (n': Cycles)
    requires SysWf(cfg, s) && Underway(procs, budgets, s, n, r) && AllStayInPages(procs) && Distinct(s)
    ensures Underway(procs, budgets, Ticks(cfg, s, k), n', r + k) && Distinct(Ticks(cfg, s, k))
  {
    hide Tick, Underway, Distinct, AllStayInPages;
    if k == 0 {
      n' := n;
    } else {
      var m := TicksUnderway(cfg, procs, budgets, s, n, r, k - 1);
      var t := Ticks(cfg, s, k - 1);
      TickUnderway(cfg, procs, budgets, t, m, r + k - 1);
      n' := Credit(m, Flat(t.cores));
    }
  }

  lemma ThreadUnfinished(procs: Procs, stop: Budgets, budgets: Budgets, n: Cycles, r: nat, t: Thread)
    requires Outlast(procs, stop, budgets, r) && ThreadMirrors(procs, n, t) && ThreadLife(budgets, n, t)
    requires t.pcb.pid in n && n[t.pcb.pid] <= r
    ensures Unfinished(t)
  {
    hide SoloRun, AllStayInPages;
  }

  lemma UnderwayUnfinished(procs: Procs, stop: Budgets, budgets: Budgets, s: Sys, n: Cycles, r: nat)
    requires Outlast(procs, stop, budgets, r) && Underway(procs, budgets, s, n, r)
    ensures EachExecuting(s.cores, Unfinished)
  {
    hide Outlast, MemoryMirrors, Order, Unfinished, ThreadLife;
    forall k | 0 <= k < |Order(s.cores)| ensures Unfinished(Order(s.cores)[k]) {
      assert ThreadMirrors(procs, n, Order(s.cores)[k]) && ThreadLife(budgets, n, Order(s.cores)[k]);
      ThreadUnfinished(procs, stop, budgets, n, r, Order(s.cores)[k]);
    }
  }

  /** One turn more of programs that outlast it. */
  lemma TurnUnderway(cfg: Config, procs: Procs, stop: Budgets, budgets: Budgets, s: Sys, n: Cycles, r: nat, k: nat)
    returns (n': Cycles)
    requires SysWf(cfg, s) && Underway(procs, budgets, s, n, r) && Distinct(s) && Outlast(procs, stop, budgets, r + k)
    ensures EachExecuting(Ticks(cfg, s, k).cores, Unfinished)
    ensures Underway(procs, budgets, Turn(cfg, s, k), n', r + k)
  {
    hide Ticks, Activate, Transparent, Budgeted, AllStayInPages, StopsAt, EachExecuting, Distinct;
    n' := TicksUnderway(cfg, procs, budgets, s, n, r, k);
    var t := Ticks(cfg, s, k);
    UnderwayUnfinished(procs, stop, budgets, t, n', r + k);
    ActivateTransparent(cfg, procs, t, n');
    ActivateBudgeted(cfg, budgets, t, n');
  }

  lemma OutlastLess(procs: Procs, stop: Budgets, budgets: Budgets, r: nat, q: nat)
    requires Outlast(procs, stop, budgets, r) && q <= r
    ensures Outlast(procs, stop, budgets, q)
  {
    hide StopsAt, AllStayInPages;
  }

  /** With no loss so far, long programs run through another turn undisturbed. */
  lemma NextTurnUnderway(cfg: Config, procs: Procs, stop: Budgets, budgets: Budgets, s: Sys, ks: seq<nat>, j: nat,
                         n: Cycles)
    returns (n': Cycles)
    requires SysWf(cfg, s) && 1 <= j <= |ks| && Outlast(procs, stop, budgets, TicksIn(ks))
    requires Undisturbed(cfg, s, ks, j - 1) && Distinct(Turns(cfg, s, ks[..j-1]))
    requires Underway(procs, budgets, Turns(cfg, s, ks[..j-1]), n, TicksIn(ks[..j-1]))
    ensures Undisturbed(cfg, s, ks, j) && Underway(procs, budgets, Turns(cfg, s, ks[..j]), n', TicksIn(ks[..j]))
  {
    hide Ticks, Turn, Turns, EachExecuting, TicksIn, Undisturbed, SysWf, Outlast, Underway, Distinct;
    TicksInSnoc(ks, j);
    TicksInGrow(ks, j);
    OutlastLess(procs, stop, budgets, TicksIn(ks), TicksIn(ks[..j]));
    n' := TurnUnderway(cfg, procs, stop, budgets, Turns(cfg, s, ks[..j-1]), n, TicksIn(ks[..j-1]), ks[j-1]);
    OneTurnMore(cfg, s, ks, j);
  }

  lemma AboardIsDistinct(s: Sys, r: Sys, cfg: Config, c: nat)
    requires Accepted(cfg, s) && Aboard(cfg, r, s.sched.ready, c)
    ensures Distinct(r)
  {
    EverybodyQueued(cfg, s);
    assert ThreadKeys(Pid, r.cores[0]) == Keys(Pid, s.sched.ready);
    ExecutingOnOneCore(r, Keys(Pid, s.sched.ready));
  }

  /** Until the first quantum is over a crowd of long programs runs undisturbed. */
  lemma {:induction false} CrowdGoesOn(cfg: Config, procs: Procs, stop: Budgets, budgets: Budgets, s: Sys,
                                       ks: seq<nat>, j: nat)
    returns (n: Cycles)
    requires SysWf(cfg, s) && Crowded(cfg, s) && Underway(procs, budgets, s, NoCycles(procs), 0)
    requires Ticking(ks) && j <= |ks| <= Slice(cfg) + 1 && Outlast(procs, stop, budgets, TicksIn(ks))
    ensures Undisturbed(cfg, s, ks, j) && Underway(procs, budgets, Turns(cfg, s, ks[..j]), n, TicksIn(ks[..j]))
  {
    hide Turn, Turns, Ticks, TicksIn, Undisturbed, Outlast, Underway, Accepted, Aboard, Slice;
    if j == 0 {
      NoTurnYet(cfg, s, ks);
      n := NoCycles(procs);
    } else {
      var m := CrowdGoesOn(cfg, procs, stop, budgets, s, ks, j - 1);
      if j == 1 {
        NoTurnYet(cfg, s, ks);
        AcceptedIsDistinct(cfg, s);
      } else {
        StayAboard(cfg, s, ks, j - 1);
        AboardIsDistinct(s, Turns(cfg, s, ks[..j-1]), cfg, j - 2);
      }
      n := NextTurnUnderway(cfg, procs, stop, budgets, s, ks, j, m);
    }
  }

  lemma AcceptedIsDistinct(cfg: Config, s: Sys)
    requires Accepted(cfg, s)
    ensures Distinct(s)
  {
  }

  /** The same of an overfull level. */
  lemma {:induction false} LevelGoesOn(cfg: Config, procs: Procs, stop: Budgets, budgets: Budgets, s: Sys, x: int,
                                       ks: seq<nat>, j: nat)
    returns (n: Cycles)
    requires SysWf(cfg, s) && Uniform(cfg, s, x) && cfg.threads == 1 && |s.sched.ready| > LevelCapacity(cfg)
    requires Underway(procs, budgets, s, NoCycles(procs), 0) && Outlast(procs, stop, budgets, TicksIn(ks))
    requires Ticking(ks) && j <= |ks| <= Slice(cfg) + 1
    ensures Undisturbed(cfg, s, ks, j) && Underway(procs, budgets, Turns(cfg, s, ks[..j]), n, TicksIn(ks[..j]))
  {
    hide Turn, Turns, Ticks, TicksIn, Undisturbed, Outlast, Underway, Accepted, Fronted, Slice, OneLevel, Live,
         LevelCapacity, SysWf;
    NoTurnYet(cfg, s, ks);
    AcceptedIsDistinct(cfg, s);
    if j == 0 {
      n := NoCycles(procs);
    } else {
      var m := LevelGoesOn(cfg, procs, stop, budgets, s, x, ks, j - 1);
      if j == 2 {
        LastTurn(cfg, s, ks, 1);
        FrontIsFirst(cfg, s, x, ks[0]);
      } else if j > 2 {
        FrontStays(cfg, s, x, ks, j - 1);
      }
      n := NextTurnUnderway(cfg, procs, stop, budgets, s, ks, j, m);
    }
  }

  /** Start-up's hand-over of generated programs that all outlast `r` cycles. */
  lemma GeneratedUnderway(cfg: Config, procs: Procs, budgets: Budgets, origins: Origins, files: seq<seq<string>>,
                          priorities: seq<int>, gens: seq<Source>, s: Sys, next: int, r: nat)
    returns (stop: Budgets)
    requires |files| == |priorities| && SysWf(cfg, s) && Idle(s) && GeneratedFiles(files, gens) && r < 100
    requires HandedOver(procs, budgets, origins, files, priorities, s.sched.ready, s.mem, next)
    requires forall i :: 0 <= i < |gens| ==> Length(gens[i]) > r
    ensures Underway(procs, budgets, s, NoCycles(procs), 0) && Outlast(procs, stop, budgets, r)
  {
    hide Budgeted, Transparent, Idle, GeneratedFiles, SysWf, AllStayInPages, StopsAt, Length, TtlFor, GeneratedFrom,
         Known, InMemoryApart, InOrder, Prioritised;
    GeneratedSources(procs, budgets, origins, files, priorities, gens, s.sched.ready, s.mem, next);
    StartsTransparent(procs, budgets, s);
    var sources := SourcesOf(origins, gens);
    GeneratedStop(procs, sources);
    stop := Lengths(sources);
    forall pid | pid in procs ensures stop[pid] > r && budgets[pid] > r {
      SourceDrawn(procs, sources, pid);
      LifeSuffices(sources[pid]);
    }
  }

  /** For all generated programs: start-up's load of more than half a BFS queue plus one, the first of
      them urgent, loses the last to arrive when the first quantum ends, if no program is over by then. */
  lemma GeneratedCrowdLoses(cfg: Config, procs: Procs, budgets: Budgets, origins: Origins, files: seq<seq<string>>,
                            gens: seq<Source>, s: Sys, next: int, ks: seq<nat>)
    requires SysWf(cfg, s) && Idle(s) && GeneratedFiles(files, gens)
    requires HandedOver(procs, budgets, origins, files, Urgent(|files|), s.sched.ready, s.mem, next)
    requires AllIn(origins, s.sched.ready, |files|) && cfg.policy == Bfs && cfg.quantum >= 5 && s.cores == [[]]
    requires cfg.readyCapacity / 2 + 1 < |gens| <= cfg.threads
    requires Ticking(ks) && |ks| == Slice(cfg) + 1 && TicksIn(ks) < 100
    requires forall i :: 0 <= i < |gens| ==> Length(gens[i]) > TicksIn(ks)
    ensures var ps, n := s.sched.ready, |gens|;
            |ps| == n && LostAndDoubled(s, Turns(cfg, s, ks), ps[n-1].pid, ps[cfg.readyCapacity + 1 - n].pid)
  {
    hide Turns, TicksIn, Underway, Outlast, Undisturbed, LostAndDoubled, Slice, Length, HandedOver, Crowded, SysWf,
         Idle;
    var stop := GeneratedUnderway(cfg, procs, budgets, origins, files, Urgent(|files|), gens, s, next, TicksIn(ks));
    IsCrowded(cfg, procs, budgets, origins, files, s, next);
    var _ := CrowdGoesOn(cfg, procs, stop, budgets, s, ks, |ks|);
    BfsLosesBeyondHalf(cfg, s, ks);
  }

  lemma IsCrowded(cfg: Config, procs: Procs, budgets: Budgets, origins: Origins, files: seq<seq<string>>, s: Sys,
                  next: int)
    requires SysWf(cfg, s) && Idle(s)
    requires HandedOver(procs, budgets, origins, files, Urgent(|files|), s.sched.ready, s.mem, next)
    requires AllIn(origins, s.sched.ready, |files|) && cfg.policy == Bfs && cfg.quantum >= 5 && s.cores == [[]]
    requires cfg.readyCapacity / 2 + 1 < |files| <= cfg.threads
    ensures Crowded(cfg, s)
  {
    hide InMemoryApart, Known, Live;
    assert Delivered(cfg, s);
    DeliveredIsAccepted(cfg, s);
    forall i | 0 <= i < |s.sched.ready|
      ensures s.sched.ready[i].deadline == 0 && s.sched.ready[i].priority == if i == 0 then MIN_PRIORITY else 0
    {
      assert AtStart(procs, budgets, s.sched.ready[i]);
    }
  }

  /** For all generated programs: start-up's load of one priority beyond its level, on one hardware
      thread, loses the first to arrive when its first quantum ends, if its program is not over by then. */
  lemma GeneratedLevelLoses(cfg: Config, procs: Procs, budgets: Budgets, origins: Origins, files: seq<seq<string>>,
                            gens: seq<Source>, x: int, s: Sys, next: int, ks: seq<nat>)
    requires SysWf(cfg, s) && Idle(s) && GeneratedFiles(files, gens) && MIN_PRIORITY <= x <= MAX_PRIORITY
    requires HandedOver(procs, budgets, origins, files, AllOf(x, |files|), s.sched.ready, s.mem, next)
    requires AllIn(origins, s.sched.ready, |files|) && cfg.policy == PreemptivePrio && s.cores == [[]]
    requires LevelCapacity(cfg) < |gens| && cfg.threads == 1 && Slice(cfg) >= 2
    requires Ticking(ks) && |ks| == Slice(cfg) + 1 && TicksIn(ks) < 100
    requires forall i :: 0 <= i < |gens| ==> Length(gens[i]) > TicksIn(ks)
    ensures |s.sched.ready| == |gens| && Vanished(s, Turns(cfg, s, ks), s.sched.ready[0].pid)
  {
    hide Turns, TicksIn, Underway, Outlast, Undisturbed, Vanished, Slice, Length, HandedOver, LevelCapacity, Uniform,
         SysWf, Idle;
    var stop := GeneratedUnderway(cfg, procs, budgets, origins, files, AllOf(x, |files|), gens, s, next, TicksIn(ks));
    IsUniform(cfg, procs, budgets, origins, files, x, s, next);
    var _ := LevelGoesOn(cfg, procs, stop, budgets, s, x, ks, |ks|);
    PrioritiesLoseBeyondLevel(cfg, s, x, ks);
  }

  lemma IsUniform(cfg: Config, procs: Procs, budgets: Budgets, origins: Origins, files: seq<seq<string>>, x: int,
                  s: Sys, next: int)
    requires SysWf(cfg, s) && Idle(s) && MIN_PRIORITY <= x <= MAX_PRIORITY
    requires HandedOver(procs, budgets, origins, files, AllOf(x, |files|), s.sched.ready, s.mem, next)
    requires cfg.policy == PreemptivePrio && s.cores == [[]]
    ensures Uniform(cfg, s, x)
  {
    hide InMemoryApart, Known, Live;
    assert Delivered(cfg, s);
    LevelLoadIsUniform(cfg, s, x, |s.sched.ready|);
  }
}
