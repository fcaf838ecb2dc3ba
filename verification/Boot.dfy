/** Start-up: every program file becomes a process in the ready queue before the scheduler runs
    (sys/kernel.c:496-527). */
module Boot {
  import opened CArith
  import opened Memory
  import opened Process
  import opened Solo
  import L = Loader
  import opened ElfFile
  import opened Prometheus
  import opened GeneratedRuns
  import opened Scheduler
  import opened Decisions
  import opened Kernel
  import opened Population
  import opened Conservation
  import opened Termination
  import opened Transparency
  import opened Lifetimes
  import opened BfsFairness
  import opened EndToEnd

  /** Which file each process came from. */
  type Origins = map<int, nat>

  /** Process `pr` is the program in `file`, its memory the image the header describes. */
  ghost predicate LoadedFrom(pr: Proc, budget: int, file: seq<string>, priority: int) {
    && Parse(file, priority).Parsed?
    && var p := Parse(file, priority).program;
       && L.Sized(p) && budget == p.header.ttl && pr.table.pages == L.PagesOf(p)
       && pr.image == L.ImageOf(p, pr.table.pages * PAGE_WORDS)
  }

  ghost predicate Known(procs: Procs, budgets: Budgets, origins: Origins, files: seq<seq<string>>,
                        priorities: seq<int>, pid: int)
    requires |files| == |priorities|
  {
    && pid in procs && pid in budgets && pid in origins && origins[pid] < |files|
    && LoadedFrom(procs[pid], budgets[pid], files[origins[pid]], priorities[origins[pid]])
  }

  /** Memory of the processes handed over so far: loaded, apart and untouched. */
  ghost predicate InMemoryApart(procs: Procs, m: Mem) {
    && Wf(m)
    && (forall p :: p in procs ==> L.Owned(m, procs[p].table) && View(m, procs[p].table) == procs[p].image)
    && (forall p :: p in procs ==> Untouched(m, procs[p].table))
    && (forall p, q :: p in procs && q in procs && p != q ==> Disjoint(procs[p].table, procs[q].table))
  }

  /** A queued process waits to run its program from the start with its whole life ahead. */
  ghost predicate AtStart(procs: Procs, budgets: Budgets, p: PCB) {
    && p.pid in procs && p.pid in budgets
    && p.pgb == Some(procs[p.pid].table.base) && p.context == ZERO_CONTEXT
    && p.state == Waiting && p.deadline == 0 && p.quantumCounter == 0
    && p.ttl == p.initialTtl == budgets[p.pid] && 10 <= p.ttl <= 100
  }

  ghost predicate InOrder(procs: Procs, budgets: Budgets, ready: seq<PCB>) {
    && (forall i :: 0 <= i < |ready| ==> AtStart(procs, budgets, ready[i]))
    && (forall i, j :: 0 <= i < j < |ready| ==> ready[i].pid < ready[j].pid)
    && (forall pid :: pid in procs ==> pid in Keys(Pid, ready))
  }

  /** Each queued process has the priority drawn for its file. */
  ghost predicate Prioritised(origins: Origins, priorities: seq<int>, ready: seq<PCB>) {
    forall i :: 0 <= i < |ready| ==>
      && ready[i].pid in origins && origins[ready[i].pid] < |priorities|
      && ready[i].priority == priorities[origins[ready[i].pid]]
  }

  /** Everything start-up promises about the processes handed over so far; pids are below `next`. */
  ghost predicate HandedOver(procs: Procs, budgets: Budgets, origins: Origins, files: seq<seq<string>>,
                             priorities: seq<int>, ready: seq<PCB>, m: Mem, next: int)
    requires |files| == |priorities|
  {
    && InMemoryApart(procs, m) && InOrder(procs, budgets, ready) && Prioritised(origins, priorities, ready)
    && budgets.Keys == procs.Keys && origins.Keys == procs.Keys
    && forall pid :: pid in procs ==> pid < next && Known(procs, budgets, origins, files, priorities, pid)
  }

  /** `m'` keeps every table of `m` and what it shows. */
  ghost predicate Keeps(m: Mem, m': Mem)
    requires Shaped(m) && Shaped(m')
  {
    && (forall x :: 0 <= x < m.nextKernel && x < KERNEL_WORDS ==> m'.ptes[x] == m.ptes[x])
    && forall u: Table :: L.Owned(m, u) ==> L.Owned(m', u) && View(m', u) == View(m, u)
  }

  /** A file that yields no process leaves the others as they were. */
  lemma OthersKept(procs: Procs, budgets: Budgets, origins: Origins, files: seq<seq<string>>, priorities: seq<int>,
                   ready: seq<PCB>, m: Mem, m': Mem, next: int, next': int)
    requires |files| == |priorities| && HandedOver(procs, budgets, origins, files, priorities, ready, m, next)
    requires Wf(m') && Keeps(m, m') && next <= next'
    ensures HandedOver(procs, budgets, origins, files, priorities, ready, m', next')
  {
    hide Known, View, FramesExclusive;
  }

  lemma MemoryGains(procs: Procs, m: Mem, m': Mem, pid: int, t: Table)
    requires InMemoryApart(procs, m) && Wf(m') && Keeps(m, m') && pid !in procs
    requires t.base == m.nextKernel && L.Owned(m', t) && Untouched(m', t)
    ensures InMemoryApart(procs[pid := Proc(t, View(m', t))], m')
  {
    hide View, FramesExclusive;
  }

  lemma QueueGains(procs: Procs, budgets: Budgets, ready: seq<PCB>, p: PCB, pr: Proc, budget: int)
    requires InOrder(procs, budgets, ready) && forall pid :: pid in procs ==> pid < p.pid
    requires AtStart(procs[p.pid := pr], budgets[p.pid := budget], p)
    ensures InOrder(procs[p.pid := pr], budgets[p.pid := budget], ready + [p])
  {
    var ps, bs, r := procs[p.pid := pr], budgets[p.pid := budget], ready + [p];
    assert Keys(Pid, r) == Keys(Pid, ready) + [p.pid];
    forall i | 0 <= i < |r| ensures AtStart(ps, bs, r[i]) && (i < |ready| ==> r[i].pid < p.pid) {
      if i < |ready| {
        assert AtStart(procs, budgets, ready[i]);
      }
    }
  }

  lemma RecordsGain(procs: Procs, budgets: Budgets, origins: Origins, files: seq<seq<string>>, priorities: seq<int>,
                    next: int, pr: Proc, budget: int, i: nat)
    requires |files| == |priorities| && i < |files|
    requires budgets.Keys == procs.Keys && origins.Keys == procs.Keys
    requires forall pid :: pid in procs ==> pid < next && Known(procs, budgets, origins, files, priorities, pid)
    requires LoadedFrom(pr, budget, files[i], priorities[i])
    ensures var ps, bs, os := procs[next := pr], budgets[next := budget], origins[next := i];
            forall pid :: pid in ps ==> pid < next + 1 && Known(ps, bs, os, files, priorities, pid)
  {
    hide LoadedFrom;
    var ps, bs, os := procs[next := pr], budgets[next := budget], origins[next := i];
    forall pid | pid in ps ensures pid < next + 1 && Known(ps, bs, os, files, priorities, pid) {
      if pid != next {
        assert Known(procs, budgets, origins, files, priorities, pid);
      }
    }
  }

  lemma PrioritiesGain(origins: Origins, priorities: seq<int>, ready: seq<PCB>, p: PCB, i: nat)
    requires Prioritised(origins, priorities, ready) && i < |priorities| && p.priority == priorities[i]
    requires forall k :: 0 <= k < |ready| ==> ready[k].pid != p.pid
    ensures Prioritised(origins[p.pid := i], priorities, ready + [p])
  {
  }

  /** A file that yields a process adds it to the others. */
  lemma OneMore(procs: Procs, budgets: Budgets, origins: Origins, files: seq<seq<string>>, priorities: seq<int>,
                ready: seq<PCB>, m: Mem, m': Mem, p: PCB, t: Table, i: nat)
    requires |files| == |priorities| && HandedOver(procs, budgets, origins, files, priorities, ready, m, p.pid)
    requires Wf(m') && Keeps(m, m') && t.base == m.nextKernel && L.Owned(m', t) && Untouched(m', t) && i < |files|
    requires LoadedFrom(Proc(t, View(m', t)), p.ttl, files[i], priorities[i])
    requires p.pgb == Some(t.base) && p.context == ZERO_CONTEXT && p.state == Waiting && p.deadline == 0
    requires p.quantumCounter == 0 && 10 <= p.ttl == p.initialTtl <= 100 && p.priority == priorities[i]
    ensures HandedOver(procs[p.pid := Proc(t, View(m', t))], budgets[p.pid := p.ttl], origins[p.pid := i], files,
                       priorities, ready + [p], m', p.pid + 1)
  {
    hide Known, View, FramesExclusive, LoadedFrom, InMemoryApart, InOrder, Prioritised, Keeps, Untouched;
    NewcomerIsNew(procs, budgets, origins, files, priorities, ready, m, p.pid);
    PrioritiesGain(origins, priorities, ready, p, i);
    MemoryGains(procs, m, m', p.pid, t);
    QueueGains(procs, budgets, ready, p, Proc(t, View(m', t)), p.ttl);
    RecordsGain(procs, budgets, origins, files, priorities, p.pid, Proc(t, View(m', t)), p.ttl, i);
  }

  // ------------------------------------------------------------------ room for everyone

  ghost function PagesFor(file: seq<string>, priority: int): nat {
    var r := Parse(file, priority);
    if r.Parsed? then L.PagesOf(r.program) else 0
  }

  ghost function TotalPages(files: seq<seq<string>>, priorities: seq<int>, n: nat): nat
    requires n <= |files| == |priorities|
  {
    if n == 0 then 0 else TotalPages(files, priorities, n - 1) + PagesFor(files[n-1], priorities[n-1])
  }

  lemma {:induction false} TotalPagesGrows(files: seq<seq<string>>, priorities: seq<int>, k: nat, n: nat)
    requires k <= n <= |files| == |priorities|
    ensures TotalPages(files, priorities, k) <= TotalPages(files, priorities, n)
  {
    if k < n {
      TotalPagesGrows(files, priorities, k, n - 1);
    }
  }

  /** Every file parses, and their pages and processes fit into the memory and the ready queue. */
  ghost predicate AllFit(files: seq<seq<string>>, priorities: seq<int>, kernelWords: nat, frames: nat, places: nat)
    requires |files| == |priorities|
  {
    && (forall i :: 0 <= i < |files| ==> Parse(files[i], priorities[i]).Parsed?)
    && kernelWords + TotalPages(files, priorities, |files|) <= KERNEL_WORDS
    && frames + TotalPages(files, priorities, |files|) <= TOTAL_FRAMES
    && |files| <= places
  }

  /** The first `n` files are all in, in order. */
  ghost predicate AllIn(origins: Origins, ready: seq<PCB>, n: nat) {
    && |ready| == n
    && forall i :: 0 <= i < n ==> ready[i].pid in origins && origins[ready[i].pid] == i
  }

  lemma OneMoreIn(origins: Origins, ready: seq<PCB>, p: PCB, n: nat)
    requires AllIn(origins, ready, n) && forall i :: 0 <= i < |ready| ==> ready[i].pid != p.pid
    ensures AllIn(origins[p.pid := n], ready + [p], n + 1)
  {
  }

  /** One file: parsed, loaded and queued, or refused at one of the three. */
  method LoadFile(files: seq<seq<string>>, priorities: seq<int>, i: nat, queues: Queues, loader: L.Loader,
                  ghost procs: Procs, ghost budgets: Budgets, ghost origins: Origins)
    returns (ok: bool, ghost p: PCB, ghost t: Table)
    requires i < |files| == |priorities| && queues.Valid()
    requires loader.pm.Valid() && Wf(loader.pm.Snapshot())
    requires {loader, loader.pm, loader.pm.memory, loader.pm.frameBitmap, loader.pm.entries} !! queues.repr + {queues}
    requires HandedOver(procs, budgets, origins, files, priorities, queues.now.ready,
                        loader.pm.Snapshot(), loader.nextPid)
    modifies loader, loader.pm, loader.pm.memory, loader.pm.frameBitmap, loader.pm.entries, queues`now, queues.repr
    ensures queues.Valid() && loader.pm.Valid() && Wf(loader.pm.Snapshot())
    ensures queues.now == old(queues.now).(ready := if ok then old(queues.now).ready + [p] else old(queues.now).ready)
    ensures ok <==> Parse(files[i], priorities[i]).Parsed?
                    && old(loader.pm.nextKernel) + PagesFor(files[i], priorities[i]) <= KERNEL_WORDS
                    && old(loader.pm.totalAllocated) + PagesFor(files[i], priorities[i]) <= TOTAL_FRAMES
                    && |old(queues.now).ready| < queues.cfg.readyCapacity
    ensures ok ==> p.pid == old(loader.nextPid)
                   && loader.pm.nextKernel == old(loader.pm.nextKernel) + PagesFor(files[i], priorities[i])
                   && loader.pm.totalAllocated == old(loader.pm.totalAllocated) + PagesFor(files[i], priorities[i])
                   && t.base + t.pages <= |loader.pm.Snapshot().ptes|
    ensures var m := loader.pm.Snapshot();
            if ok
            then HandedOver(procs[p.pid := Proc(t, View(m, t))], budgets[p.pid := p.ttl], origins[p.pid := i], files,
                            priorities, queues.now.ready, m, loader.nextPid)
            else HandedOver(procs, budgets, origins, files, priorities, queues.now.ready, m, loader.nextPid)
  {
    hide Queues.Valid, HandedOver, View, FramesExclusive, CountSet, Parse, Untouched, Wf;
    p, t, ok := CreatePcb(0), Table(0, 0), false;
    ghost var m, next, ready := loader.pm.Snapshot(), loader.nextPid, queues.now.ready;
    var parsed := LoadProgram(files[i], priorities[i]);
    if !parsed.Parsed? {
      return;
    }
    ParsedSegmentsDisjoint(files[i], priorities[i]);
    ParsedLife(files[i], priorities[i]);
    var pcb := loader.CreateProcess(parsed.program);
    ghost var m' := loader.pm.Snapshot();
    if pcb.Some? {
      ok := queues.EnqueueReady(pcb.value);
    }
    if ok {
      p, t := pcb.value, Table(m.nextKernel, L.PagesOf(parsed.program));
      OneMore(procs, budgets, origins, files, priorities, ready, m, m', p, t, i);
    } else {
      OthersKept(procs, budgets, origins, files, priorities, ready, m, m', next, loader.nextPid);
    }
  }

  lemma NewcomerIsNew(procs: Procs, budgets: Budgets, origins: Origins, files: seq<seq<string>>, priorities: seq<int>,
                      ready: seq<PCB>, m: Mem, next: int)
    requires |files| == |priorities| && HandedOver(procs, budgets, origins, files, priorities, ready, m, next)
    ensures forall i :: 0 <= i < |ready| ==> ready[i].pid != next
  {
  }

  /** The loading loop. Whatever the files, the processes it hands over are apart in memory, at the
      start of their own program and distinct; and when everything fits, no file is left out. */
  method LoadPrograms(files: seq<seq<string>>, priorities: seq<int>, queues: Queues, loader: L.Loader)
    returns (loaded: nat, ghost procs: Procs, ghost budgets: Budgets, ghost origins: Origins)
    requires |files| == |priorities|
    requires queues.Valid() && queues.now.ready == []
    requires loader.pm.Valid() && Wf(loader.pm.Snapshot())
    requires {loader, loader.pm, loader.pm.memory, loader.pm.frameBitmap, loader.pm.entries} !! queues.repr + {queues}
    modifies loader, loader.pm, loader.pm.memory, loader.pm.frameBitmap, loader.pm.entries, queues`now, queues.repr
    ensures queues.Valid() && loader.pm.Valid()
    ensures queues.now == old(queues.now).(ready := queues.now.ready) && loaded == |queues.now.ready|
    ensures HandedOver(procs, budgets, origins, files, priorities, queues.now.ready,
                       loader.pm.Snapshot(), loader.nextPid)
    ensures AllFit(files, priorities, old(loader.pm.nextKernel), old(loader.pm.totalAllocated),
                   queues.cfg.readyCapacity)
            ==> AllIn(origins, queues.now.ready, |files|)
  {
    hide Queues.Valid, View, FramesExclusive, CountSet, Parse, PagesFor;
    loaded, procs, budgets, origins := 0, map[], map[], map[];
    ghost var k0, t0 := loader.pm.nextKernel, loader.pm.totalAllocated;
    ghost var fits := AllFit(files, priorities, k0, t0, queues.cfg.readyCapacity);
    hide HandedOver, AllIn;
    NobodyYet(files, priorities, loader.pm.Snapshot(), loader.nextPid);
    for i := 0 to |files|
      invariant queues.Valid() && loader.pm.Valid() && Wf(loader.pm.Snapshot())
      invariant queues.now == old(queues.now).(ready := queues.now.ready) && loaded == |queues.now.ready|
      invariant HandedOver(procs, budgets, origins, files, priorities, queues.now.ready,
                           loader.pm.Snapshot(), loader.nextPid)
      invariant fits ==>
        && loaded == i && AllIn(origins, queues.now.ready, i)
        && loader.pm.nextKernel == k0 + TotalPages(files, priorities, i)
        && loader.pm.totalAllocated == t0 + TotalPages(files, priorities, i)
    {
      TotalPagesGrows(files, priorities, i + 1, |files|);
      ghost var m, next, ready := loader.pm.Snapshot(), loader.nextPid, queues.now.ready;
      NewcomerIsNew(procs, budgets, origins, files, priorities, ready, m, next);
      var ok;
      ghost var p, t;
      ok, p, t := LoadFile(files, priorities, i, queues, loader, procs, budgets, origins);
      if ok {
        if fits {
          OneMoreIn(origins, ready, p, i);
        }
        loaded := loaded + 1;
        procs := procs[p.pid := Proc(t, View(loader.pm.Snapshot(), t))];
        budgets, origins := budgets[p.pid := p.ttl], origins[p.pid := i];
      }
    }
  }

  lemma NobodyYet(files: seq<seq<string>>, priorities: seq<int>, m: Mem, next: int)
    requires |files| == |priorities| && Wf(m)
    ensures HandedOver(map[], map[], map[], files, priorities, [], m, next) && AllIn(map[], [], 0)
  {
  }

  // ------------------------------------------------------------------ ready to run

  lemma {:induction false} IncreasingOnce(ks: seq<int>)
    requires forall i, j :: 0 <= i < j < |ks| ==> ks[i] < ks[j]
    ensures forall x :: multiset(ks)[x] <= 1
  {
    if ks != [] {
      var n := |ks| - 1;
      IncreasingOnce(ks[..n]);
      assert ks == ks[..n] + [ks[n]];
      if ks[n] in ks[..n] {
        assert false;
      }
    }
  }

  lemma IdleLive(f: Field, s: Sys)
    requires Idle(s)
    ensures Live(f, s) == Tally(f, s.sched.ready)
  {
    NoLevelNoTally(f, s.sched.levels);
    EmptyOrder(s.cores);
  }

  /** After start-up the load fits the queues: always for Round Robin; for BFS exactly when it fills
      the ready queue no more than half, plus one. */
  lemma WhenLoadFits(cfg: Config, s: Sys)
    requires SysWf(cfg, s) && Idle(s)
    ensures cfg.policy == RoundRobin ==> Fits(cfg, Live(Pid, s), Live(Priority, s))
    ensures cfg.policy == Bfs ==>
              (Fits(cfg, Live(Pid, s), Live(Priority, s)) <==> |s.sched.ready| <= cfg.readyCapacity / 2 + 1)
  {
    IdleLive(Pid, s);
    IdleLive(Priority, s);
    assert |Tally(Pid, s.sched.ready)| == |s.sched.ready|;
  }

  /** The priorities drawn for the queued processes, in their order. */
  ghost function DrawnPriorities(origins: Origins, priorities: seq<int>, ready: seq<PCB>): (r: seq<int>)
    requires Prioritised(origins, priorities, ready)
    ensures |r| == |ready|
  {
    seq(|ready|, i requires 0 <= i < |ready| && Prioritised(origins, priorities, ready) =>
          priorities[origins[ready[i].pid]])
  }

  /** Every priority is legal and none is drawn more often than its level has places. */
  ghost predicate LevelsHold(cfg: Config, prios: multiset<int>) {
    forall x :: x in prios ==> MIN_PRIORITY <= x <= MAX_PRIORITY && prios[x] <= LevelCapacity(cfg)
  }

  /** Under the priority policy the load fits if and only if the levels hold what was drawn; the draws
      are all of `priorities` when no file was left out. */
  lemma WhenPrioritiesFit(cfg: Config, origins: Origins, priorities: seq<int>, s: Sys)
    requires SysWf(cfg, s) && Idle(s) && cfg.policy == PreemptivePrio
    requires Prioritised(origins, priorities, s.sched.ready)
    ensures Fits(cfg, Live(Pid, s), Live(Priority, s)) <==>
            LevelsHold(cfg, multiset(DrawnPriorities(origins, priorities, s.sched.ready)))
    ensures AllIn(origins, s.sched.ready, |priorities|) ==>
              DrawnPriorities(origins, priorities, s.sched.ready) == priorities
  {
    IdleLive(Priority, s);
    assert Keys(Priority, s.sched.ready) == DrawnPriorities(origins, priorities, s.sched.ready);
  }

  /** With draws in the legal range, start-up also meets what the deadline theorems ask of priorities
      and deadlines. */
  lemma StartsLegal(procs: Procs, budgets: Budgets, origins: Origins, files: seq<seq<string>>, priorities: seq<int>,
                    s: Sys, next: int)
    requires |files| == |priorities| && Idle(s)
    requires HandedOver(procs, budgets, origins, files, priorities, s.sched.ready, s.mem, next)
    requires forall i :: 0 <= i < |priorities| ==> MIN_PRIORITY <= priorities[i] <= MAX_PRIORITY
    ensures EachWaiting(s.sched, p => LegalPriority(p) && p.deadline == 0)
  {
    hide Known, InMemoryApart;
    forall i | 0 <= i < |s.sched.ready| ensures LegalPriority(s.sched.ready[i]) && s.sched.ready[i].deadline == 0 {
      assert AtStart(procs, budgets, s.sched.ready[i]);
    }
  }

  lemma StartsTransparent(procs: Procs, budgets: Budgets, s: Sys)
    requires InMemoryApart(procs, s.mem) && InOrder(procs, budgets, s.sched.ready) && budgets.Keys == procs.Keys
    requires Idle(s)
    ensures Transparent(procs, s, NoCycles(procs)) && Budgeted(budgets, s, NoCycles(procs))
  {
    hide View, FramesExclusive;
    EmptyOrder(s.cores);
    var n := NoCycles(procs);
    forall pid | pid in procs ensures Alone(procs, n, pid) == Start(procs[pid].image) {
    }
    forall p | AtStart(procs, budgets, p) ensures WaitingMirrors(procs, n, p) && WaitingLife(budgets, n, p) {
    }
  }

  lemma QueuedInOrder(cfg: Config, procs: Procs, budgets: Budgets, s: Sys)
    requires SysWf(cfg, s) && Idle(s) && InOrder(procs, budgets, s.sched.ready)
    ensures Accepted(cfg, s) && forall pid :: pid in procs ==> pid in Live(Pid, s)
  {
    hide AtStart;
    IdleLive(Pid, s);
    IncreasingOnce(Keys(Pid, s.sched.ready));
  }

  /** Whatever the load, start-up delivers an idle system of distinct processes, each at the start of its
      own program with its life ahead. */
  lemma StartUpIsAccepted(cfg: Config, procs: Procs, budgets: Budgets, origins: Origins, files: seq<seq<string>>,
                          priorities: seq<int>, s: Sys, next: int)
    requires |files| == |priorities| && SysWf(cfg, s) && Idle(s)
    requires HandedOver(procs, budgets, origins, files, priorities, s.sched.ready, s.mem, next)
    ensures Accepted(cfg, s) && forall pid :: pid in procs ==> pid in Live(Pid, s)
    ensures Transparent(procs, s, NoCycles(procs)) && Budgeted(budgets, s, NoCycles(procs))
    ensures forall pid :: pid in procs ==> Untouched(s.mem, procs[pid].table)
  {
    hide Known, InOrder, Transparent, Budgeted, Accepted, Live, Idle, Untouched, View;
    StartsTransparent(procs, budgets, s);
    QueuedInOrder(cfg, procs, budgets, s);
  }

  /** Start-up delivers what every theorem about runs starts from. */
  lemma StartUpIsBooted(cfg: Config, procs: Procs, budgets: Budgets, origins: Origins, files: seq<seq<string>>,
                        priorities: seq<int>, s: Sys, next: int)
    requires |files| == |priorities| && SysWf(cfg, s) && Idle(s)
    requires HandedOver(procs, budgets, origins, files, priorities, s.sched.ready, s.mem, next)
    requires Fits(cfg, Live(Pid, s), Live(Priority, s))
    ensures Booted(cfg, procs, s) && Budgeted(budgets, s, NoCycles(procs))
    ensures forall pid :: pid in procs ==> pid in Live(Pid, s)
    ensures (forall i :: 0 <= i < |priorities| ==> MIN_PRIORITY <= priorities[i] <= MAX_PRIORITY) ==>
              EachWaiting(s.sched, p => LegalPriority(p) && p.deadline == 0)
  {
    hide HandedOver, Transparent, Budgeted, Fits, Accepted, Idle, EachWaiting, Live, SysWf;
    StartUpIsAccepted(cfg, procs, budgets, origins, files, priorities, s, next);
    if forall i :: 0 <= i < |priorities| ==> MIN_PRIORITY <= priorities[i] <= MAX_PRIORITY {
      StartsLegal(procs, budgets, origins, files, priorities, s, next);
    }
  }

  // ------------------------------------------------------------------ generated files

  /** Every file is what the generator writes for its draws. */
  ghost predicate GeneratedFiles(files: seq<seq<string>>, gens: seq<Source>) {
    && |files| == |gens|
    && forall i :: 0 <= i < |files| ==>
         Drawn(gens[i].blocks, gens[i].data) && files[i] == FileOf(gens[i].blocks, gens[i].data)
  }

  function SourcesOf(origins: Origins, gens: seq<Source>): Sources
    requires forall pid :: pid in origins ==> origins[pid] < |gens|
  {
    map pid | pid in origins :: gens[origins[pid]]
  }

  lemma {:induction false} LoadedGenerated(pr: Proc, budget: int, g: Source, priority: int)
    requires Drawn(g.blocks, g.data) && LoadedFrom(pr, budget, FileOf(g.blocks, g.data), priority)
    ensures GeneratedFrom(pr, g) && budget == TtlFor(Length(g))
  {
    hide CodeOf, Parse, FileOf, TtlFor;
    FileRoundTrip(g.blocks, g.data, priority);
    EnoughPages(g.blocks, g.data, priority);
    var p, q, n := ProgramOf(g.blocks, g.data, priority), ProgramOf(g.blocks, g.data, 0), |pr.image|;
    forall w: nat | w < n ensures L.ImageOf(p, n)[w] == L.ImageOf(q, n)[w] {
      assert L.Image(p, w) == L.Image(q, w);
    }
  }

  /** Each process is the program drawn for its file, with the life that goes with it. */
  lemma GeneratedSources(procs: Procs, budgets: Budgets, origins: Origins, files: seq<seq<string>>,
                         priorities: seq<int>, gens: seq<Source>, ready: seq<PCB>, m: Mem, next: int)
    requires |files| == |priorities| && GeneratedFiles(files, gens)
    requires HandedOver(procs, budgets, origins, files, priorities, ready, m, next)
    ensures forall pid :: pid in origins ==> origins[pid] < |gens|
    ensures var sources := SourcesOf(origins, gens); AllGenerated(procs, sources) && budgets == LoaderBudgets(sources)
  {
    hide InMemoryApart, InOrder, GeneratedFrom, LoadedFrom, FileOf, Drawn, TtlFor;
    forall pid | pid in procs
      ensures origins[pid] < |gens| && GeneratedFrom(procs[pid], gens[origins[pid]])
      ensures budgets[pid] == TtlFor(Length(gens[origins[pid]]))
    {
      var i := origins[pid];
      LoadedGenerated(procs[pid], budgets[pid], gens[i], priorities[i]);
    }
    assert budgets == LoaderBudgets(SourcesOf(origins, gens));
  }

  /** Started from generated files, the system meets the premises of the end-to-end theorems. */
  lemma StartUpOfGenerated(cfg: Config, procs: Procs, budgets: Budgets, origins: Origins, files: seq<seq<string>>,
                           priorities: seq<int>, gens: seq<Source>, s: Sys, next: int)
    requires |files| == |priorities| && SysWf(cfg, s) && Idle(s) && GeneratedFiles(files, gens)
    requires HandedOver(procs, budgets, origins, files, priorities, s.sched.ready, s.mem, next)
    requires Fits(cfg, Live(Pid, s), Live(Priority, s))
    ensures (forall pid :: pid in origins ==> origins[pid] < |gens|)
            && BootedGenerated(cfg, procs, SourcesOf(origins, gens), s)
  {
    hide Booted, Budgeted, HandedOver, Fits, Live, Idle, AllGenerated, GeneratedFiles, LoaderBudgets;
    StartUpIsBooted(cfg, procs, budgets, origins, files, priorities, s, next);
    GeneratedSources(procs, budgets, origins, files, priorities, gens, s.sched.ready, s.mem, next);
  }

  /** Nothing the queues, the machine and the loader's memory are made of is shared. */
  ghost predicate Parted(queues: Queues, hardware: Hardware, loader: L.Loader) {
    var store: set<object> := {loader, loader.pm, loader.pm.memory, loader.pm.frameBitmap, loader.pm.entries};
    && store !! queues.repr + {queues} && store !! hardware.repr + {hardware}
    && queues.repr !! hardware.repr && queues !in hardware.repr && hardware !in queues.repr
  }

  method CreateParts(cfg: Config, numCores: nat) returns (queues: Queues, hardware: Hardware, loader: L.Loader)
    requires cfg.quantum >= 1 && cfg.readyCapacity >= 1
    ensures fresh(queues) && fresh(queues.repr) && fresh(hardware) && fresh(hardware.repr) && fresh(loader)
    ensures fresh({loader.pm, loader.pm.memory, loader.pm.frameBitmap, loader.pm.entries})
    ensures queues.Valid() && queues.cfg == cfg && queues.now == Sched([], queues.now.levels, 0, [], false)
    ensures forall l :: 0 <= l < |queues.now.levels| ==> queues.now.levels[l] == []
    ensures hardware.Valid() && hardware.threads == cfg.threads && |hardware.now| == numCores
    ensures forall i :: 0 <= i < numCores ==> hardware.now[i] == []
    ensures loader.pm.Valid() && Wf(loader.pm.Snapshot())
    ensures loader.pm.nextKernel == 0 && loader.pm.totalAllocated == KERNEL_FRAMES
    ensures Parted(queues, hardware, loader)
  {
    hide Queues.Valid, Hardware.Valid, ProcessQueue.Valid, ProcessQueue.Contents, PhysicalMemory.Valid, Wf;
    var ready := new ProcessQueue(cfg.readyCapacity);
    queues := new Queues(cfg, ready);
    hardware := new Hardware(numCores, cfg.threads);
    var pm := new PhysicalMemory();
    loader := new L.Loader(pm);
  }

  /** Forty levels, each of a fortieth of the ready queue's places and two at the least. */
  ghost predicate LevelsBuilt(queues: Queues) {
    && |queues.levels| == 40
    && forall i :: 0 <= i < 40 ==> IsLevelSize(queues.cfg.readyCapacity, queues.levels[i].maxCapacity)
  }

  lemma LevelsAreBuilt(queues: Queues)
    requires queues.Valid() && queues.cfg.policy == PreemptivePrio
    ensures LevelsBuilt(queues)
  {
    LevelPlaces(queues.cfg);
  }

  /** From configuration and files to a kernel about to run: memory, ready queue, machine, scheduler
      and loader are created and the programs loaded. */
  method StartSystem(cfg: Config, numCores: nat, files: seq<seq<string>>, priorities: seq<int>)
    returns (k: Kernel, ghost procs: Procs, ghost budgets: Budgets, ghost origins: Origins, ghost next: int)
    requires cfg.quantum >= 1 && cfg.readyCapacity >= 1 && |files| == |priorities|
    ensures k.Valid() && k.cfg == cfg && fresh(k)
    ensures fresh(k.queues) && fresh(k.queues.repr) && fresh(k.hardware) && fresh(k.hardware.repr)
    ensures fresh({k.pm, k.pm.memory, k.pm.frameBitmap, k.pm.entries})
    ensures Idle(k.State()) && |k.State().cores| == numCores
    ensures HandedOver(procs, budgets, origins, files, priorities, k.State().sched.ready, k.State().mem, next)
    ensures AllFit(files, priorities, 0, KERNEL_FRAMES, cfg.readyCapacity)
            ==> AllIn(origins, k.State().sched.ready, |files|)
    ensures cfg.policy == PreemptivePrio ==> LevelsBuilt(k.queues)
  {
    hide HandedOver, AllIn, AllFit, Wf, Queues.Valid, Hardware.Valid, PhysicalMemory.Valid;
    var queues, hardware, loader := CreateParts(cfg, numCores);
    var loaded;
    loaded, procs, budgets, origins := LoadPrograms(files, priorities, queues, loader);
    next := loader.nextPid;
    k := new Kernel(queues, hardware, loader.pm);
    if cfg.policy == PreemptivePrio {
      LevelsAreBuilt(k.queues);
    }
  }
}
