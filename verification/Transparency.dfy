/** Time-sharing is invisible: whatever the interleaving, every process is exactly where its image
    would be had it run alone for the cycles it was given. */
module Transparency {
  import opened CArith
  import opened Memory
  import opened Process
  import opened Machine
  import opened Solo
  import opened Scheduler
  import opened Population
  import opened Conservation

  /** A loaded program: its page table and the memory contents it started with. */
  datatype Proc = Proc(table: Table, image: seq<u32>)

  type Procs = map<int, Proc>

  // ------------------------------------------------------------------ threads in tick order

  function Flat(cores: seq<seq<Thread>>): seq<Thread> {
    if cores == [] then [] else Flat(cores[..|cores|-1]) + cores[|cores|-1]
  }

  lemma {:induction false} TickThreadsAppend(a: seq<Thread>, b: seq<Thread>, m: Mem)
    requires Shaped(m)
    ensures var (a', m') := TickThreads(a, m);
            var (b', m'') := TickThreads(b, m');
            TickThreads(a + b, m) == (a' + b', m'')
  {
    hide TickThread;
    if b == [] {
      assert a + b == a;
      var a' := TickThreads(a, m).0;
      assert a' + [] == a';
    } else {
      var n := |b| - 1;
      assert (a + b)[..|a + b|-1] == a + b[..n];
      TickThreadsAppend(a, b[..n], m);
      var (a', m') := TickThreads(a, m);
      var (c, m'') := TickThreads(b[..n], m');
      var t := TickThread(b[n], m'').0;
      assert (a' + c) + [t] == a' + (c + [t]);
    }
  }

  /** A tick of the machine is a tick of its threads one after another. */
  lemma {:induction false} TickIsFlat(cores: seq<seq<Thread>>, m: Mem)
    requires Shaped(m)
    ensures var (now, m') := TickCores(cores, m);
            TickThreads(Flat(cores), m) == (Flat(now), m')
  {
    hide TickThread;
    if cores != [] {
      var n := |cores| - 1;
      TickIsFlat(cores[..n], m);
      TickThreadsAppend(Flat(cores[..n]), cores[n], m);
      var (before, m') := TickCores(cores[..n], m);
      var last := TickThreads(cores[n], m').0;
      assert (before + [last])[..n] == before;
    }
  }

  lemma {:induction false} FlatSameThreads(cores: seq<seq<Thread>>, R: Thread -> bool)
    ensures EachThread(Flat(cores), R) <==> EachThread(Order(cores), R)
  {
    if cores != [] {
      var n := |cores| - 1;
      FlatSameThreads(cores[..n], R);
      EachReversed(cores[n], R);
      EachAppend(Flat(cores[..n]), cores[n], R);
      EachAppend(Order(cores[..n]), Reversed(cores[n]), R);
    }
  }

  lemma EachAppend(a: seq<Thread>, b: seq<Thread>, R: Thread -> bool)
    ensures EachThread(a + b, R) <==> EachThread(a, R) && EachThread(b, R)
  {
    if EachThread(a + b, R) {
      forall k | 0 <= k < |a| ensures R(a[k]) { assert (a + b)[k] == a[k]; }
      forall k | 0 <= k < |b| ensures R(b[k]) { assert (a + b)[|a| + k] == b[k]; }
    }
  }

  lemma EachReversed(s: seq<Thread>, R: Thread -> bool)
    ensures EachThread(Reversed(s), R) <==> EachThread(s, R)
  {
    forall k | 0 <= k < |s| ensures Reversed(s)[k] == s[|s|-1-k] { ReversedAt(s, k); }
    forall k | 0 <= k < |s| ensures s[k] == Reversed(s)[|s|-1-k] { ReversedAt(s, |s|-1-k); }
  }

  lemma {:induction false} ReversedTally(s: seq<Thread>)
    ensures ThreadTally(Pid, Reversed(s)) == ThreadTally(Pid, s)
  {
    if s != [] {
      ReversedTally(s[1..]);
      assert s == [s[0]] + s[1..];
      ThreadTallyAppend(Pid, [s[0]], s[1..]);
      ThreadTallyAppend(Pid, Reversed(s[1..]), [s[0]]);
    }
  }

  lemma {:induction false} FlatSameTally(cores: seq<seq<Thread>>)
    ensures ThreadTally(Pid, Flat(cores)) == Executing(Pid, cores)
  {
    if cores != [] {
      var n := |cores| - 1;
      FlatSameTally(cores[..n]);
      ReversedTally(cores[n]);
      ThreadTallyAppend(Pid, Flat(cores[..n]), cores[n]);
      ThreadTallyAppend(Pid, Order(cores[..n]), Reversed(cores[n]));
    }
  }

  ghost predicate DistinctPids(ts: seq<Thread>) {
    forall i, j :: 0 <= i < j < |ts| ==> ts[i].pcb.pid != ts[j].pcb.pid
  }

  lemma TallyDistinct(ts: seq<Thread>)
    requires forall x :: ThreadTally(Pid, ts)[x] <= 1
    ensures DistinctPids(ts)
  {
    forall i, j | 0 <= i < j < |ts| ensures ts[i].pcb.pid != ts[j].pcb.pid {
      assert ThreadTally(Pid, ts)[ThreadKeys(Pid, ts)[i]] <= 1;
      CountedOnce(ThreadKeys(Pid, ts), i, j);
    }
  }

  // ------------------------------------------------------------------ the invariant

  /** Cycles received so far, by pid. */
  type Cycles = map<int, nat>

  /** Process `pid` alone for as many cycles as `n` says it received. */
  function Alone(procs: Procs, n: Cycles, pid: int): Solo
    requires pid in procs && pid in n
  {
    SoloRun(Start(procs[pid].image), n[pid])
  }

  /** Every process's memory is intact and private, and shows what its own cycles leave. */
  ghost predicate MemoryMirrors(procs: Procs, m: Mem, n: Cycles) {
    && Wf(m) && n.Keys == procs.Keys
    && (forall p :: p in procs ==> Backed(m, procs[p].table))
    && (forall p, q :: p in procs && q in procs && p != q ==> Disjoint(procs[p].table, procs[q].table))
    && (forall p :: p in procs ==> View(m, procs[p].table) == Alone(procs, n, p).vm)
  }

  /** A waiting process has its solo context saved and has not stopped. */
  ghost predicate WaitingMirrors(procs: Procs, n: Cycles, p: PCB) {
    && p.pid in procs && p.pid in n && p.pgb == Some(procs[p.pid].table.base)
    && p.context == Alone(procs, n, p.pid).ctx
    && Alone(procs, n, p.pid).status == Continue && p.state != Terminated
  }

  /** An executing process has its solo context in the hardware thread, and has stopped exactly
      when its solo run has. */
  ghost predicate ThreadMirrors(procs: Procs, n: Cycles, t: Thread) {
    var pid := t.pcb.pid;
    && pid in procs && pid in n && t.pcb.pgb == Some(procs[pid].table.base)
    && t.ctx == Alone(procs, n, pid).ctx
    && (t.pcb.state == Terminated <==> Alone(procs, n, pid).status != Continue)
  }

  ghost predicate Transparent(procs: Procs, s: Sys, n: Cycles) {
    && MemoryMirrors(procs, s.mem, n)
    && EachWaiting(s.sched, p => WaitingMirrors(procs, n, p))
    && EachExecuting(s.cores, t => ThreadMirrors(procs, n, t))
  }

  ghost predicate AllStayInPages(procs: Procs) {
    forall p :: p in procs ==> StaysInPages(Start(procs[p].image))
  }

  // ------------------------------------------------------------------ one tick

  function CreditOne(n: Cycles, pid: int): Cycles {
    n[pid := if pid in n then n[pid] + 1 else 1]
  }

  /** One more cycle for each of the threads. */
  function Credit(n: Cycles, ts: seq<Thread>): Cycles {
    if ts == [] then n else CreditOne(Credit(n, ts[..|ts|-1]), ts[|ts|-1].pcb.pid)
  }

  lemma {:induction false} CreditOther(n: Cycles, ts: seq<Thread>, pid: int)
    requires pid in n && forall k :: 0 <= k < |ts| ==> ts[k].pcb.pid != pid
    ensures pid in Credit(n, ts) && Credit(n, ts)[pid] == n[pid]
  {
    if ts != [] {
      CreditOther(n, ts[..|ts|-1], pid);
    }
  }

  lemma MemoryStep(procs: Procs, m: Mem, m': Mem, n: Cycles, pid: int)
    requires MemoryMirrors(procs, m, n) && pid in procs && Wf(m')
    requires Backed(m', procs[pid].table)
    requires View(m', procs[pid].table) == SoloStep(Alone(procs, n, pid)).vm
    requires forall u: Table :: Backed(m, u) && Disjoint(procs[pid].table, u) ==>
               Backed(m', u) && View(m', u) == View(m, u)
    ensures MemoryMirrors(procs, m', CreditOne(n, pid))
  {
    hide SoloStep, View, FramesExclusive;
    var n' := CreditOne(n, pid);
    assert Alone(procs, n', pid) == SoloStep(Alone(procs, n, pid));
    forall p | p in procs && p != pid
      ensures Backed(m', procs[p].table) && View(m', procs[p].table) == Alone(procs, n', p).vm
    {
      assert Disjoint(procs[pid].table, procs[p].table);
    }
  }

  lemma {:induction false} TickThreadMirrors(procs: Procs, n: Cycles, t: Thread, m: Mem)
    requires Shaped(m) && MemoryMirrors(procs, m, n) && ThreadMirrors(procs, n, t) && AllStayInPages(procs)
    ensures var (t', m') := TickThread(t, m); var n' := CreditOne(n, t.pcb.pid);
            MemoryMirrors(procs, m', n') && ThreadMirrors(procs, n', t') && t'.pcb.pid == t.pcb.pid
  {
    hide SoloStep, View, Wf, StepInPages;
    var pid := t.pcb.pid;
    var table, solo := procs[pid].table, Alone(procs, n, pid);
    var u := t.(pcb := DecrementTtl(t.pcb));
    assert Mirrors(u, m, table, solo) && StepInPages(solo);
    CycleIsSoloStep(u, m, table, solo);
    MemoryStep(procs, m, TickThread(t, m).1, n, pid);
    assert Alone(procs, CreditOne(n, pid), pid) == SoloStep(solo);
  }

  lemma {:induction false} TickThreadsMirror(procs: Procs, n: Cycles, ts: seq<Thread>, m: Mem)
    requires Shaped(m) && MemoryMirrors(procs, m, n) && AllStayInPages(procs) && DistinctPids(ts)
    requires EachThread(ts, t => ThreadMirrors(procs, n, t))
    ensures var (ts', m') := TickThreads(ts, m); var n' := Credit(n, ts);
            MemoryMirrors(procs, m', n') && EachThread(ts', t => ThreadMirrors(procs, n', t))
    ensures forall k :: 0 <= k < |ts| ==> TickThreads(ts, m).0[k].pcb.pid == ts[k].pcb.pid
  {
    hide MemoryMirrors, TickThread;
    if ts != [] {
      var k := |ts| - 1;
      TickThreadsMirror(procs, n, ts[..k], m);
      var (before, m') := TickThreads(ts[..k], m);
      var n', t := Credit(n, ts[..k]), ts[k];
      assert ThreadMirrors(procs, n, t);
      CreditOther(n, ts[..k], t.pcb.pid);
      TickThreadMirrors(procs, n', t, m');
      forall i | 0 <= i < k ensures ThreadMirrors(procs, CreditOne(n', t.pcb.pid), before[i]) {
        assert ThreadMirrors(procs, n', before[i]);
        assert before[i].pcb.pid == ts[i].pcb.pid != t.pcb.pid;
      }
    }
  }

  lemma TickTransparent(cfg: Config, procs: Procs, s: Sys, n: Cycles)
    requires SysWf(cfg, s) && Transparent(procs, s, n) && AllStayInPages(procs)
    requires forall x :: Live(Pid, s)[x] <= 1
    ensures Transparent(procs, Tick(cfg, s), Credit(n, Flat(s.cores)))
  {
    hide MemoryMirrors, TickThreads;
    var ts, n' := Flat(s.cores), Credit(n, Flat(s.cores));
    FlatIsDistinct(s);
    FlatSameThreads(s.cores, t => ThreadMirrors(procs, n, t));
    TickThreadsMirror(procs, n, ts, s.mem);
    TickIsFlat(s.cores, s.mem);
    FlatSameThreads(Tick(cfg, s).cores, t => ThreadMirrors(procs, n', t));
    WaitingUncredited(procs, s, n);
  }

  lemma FlatIsDistinct(s: Sys)
    requires forall x :: Live(Pid, s)[x] <= 1
    ensures DistinctPids(Flat(s.cores))
  {
    FlatSameTally(s.cores);
    forall x ensures ThreadTally(Pid, Flat(s.cores))[x] <= 1 {
      assert Live(Pid, s)[x] <= 1;
    }
    TallyDistinct(Flat(s.cores));
  }

  lemma WaitingUncredited(procs: Procs, s: Sys, n: Cycles)
    requires EachWaiting(s.sched, p => WaitingMirrors(procs, n, p))
    requires forall x :: Live(Pid, s)[x] <= 1
    ensures EachWaiting(s.sched, p => WaitingMirrors(procs, Credit(n, Flat(s.cores)), p))
  {
    var ts := Flat(s.cores);
    FlatSameTally(s.cores);
    QueuedMembers(s.sched);
    forall p: PCB | WaitingMirrors(procs, n, p) && p.pid in Queued(Pid, s.sched)
      ensures WaitingMirrors(procs, Credit(n, ts), p)
    {
      WaitingNotExecuting(s, ts, p.pid);
      CreditOther(n, ts, p.pid);
    }
  }

  lemma WaitingNotExecuting(s: Sys, ts: seq<Thread>, pid: int)
    requires forall x :: Live(Pid, s)[x] <= 1
    requires pid in Queued(Pid, s.sched) && ThreadTally(Pid, ts) == Executing(Pid, s.cores)
    ensures forall k :: 0 <= k < |ts| ==> ts[k].pcb.pid != pid
  {
    assert Live(Pid, s)[pid] <= 1;
    forall k | 0 <= k < |ts| ensures ts[k].pcb.pid != pid {
      assert ThreadKeys(Pid, ts)[k] in ThreadTally(Pid, ts);
    }
  }

  /** Every waiting process is counted. */
  lemma QueuedMembers(q: Sched)
    ensures forall i :: 0 <= i < |q.ready| ==> q.ready[i].pid in Queued(Pid, q)
    ensures forall l, i :: 0 <= l < |q.levels| && 0 <= i < |q.levels[l]| ==> q.levels[l][i].pid in Queued(Pid, q)
  {
    forall i | 0 <= i < |q.ready| ensures q.ready[i].pid in Queued(Pid, q) {
      assert Keys(Pid, q.ready)[i] in Tally(Pid, q.ready);
    }
    forall l, i | 0 <= l < |q.levels| && 0 <= i < |q.levels[l]| ensures q.levels[l][i].pid in Queued(Pid, q) {
      assert Keys(Pid, q.levels[l])[i] in Tally(Pid, q.levels[l]);
      LevelTallyUpdate(Pid, q.levels, l, []);
    }
  }

  /** An activation moves contexts about and touches no memory. */
  lemma {:induction false} ActivateTransparent(cfg: Config, procs: Procs, s: Sys, n: Cycles)
    requires SysWf(cfg, s) && Transparent(procs, s, n)
    ensures Transparent(procs, Activate(cfg, s), n)
  {
    if Wakes(cfg, s) {
      ActivateEach(cfg, s, p => WaitingMirrors(procs, n, p), t => ThreadMirrors(procs, n, t),
                   t => ThreadMirrors(procs, n, t));
    }
  }

  // ------------------------------------------------------------------ whole runs

  /** Cycles each process has been given along a run: one for every tick it spends on a hardware thread. */
  function CyclesGiven(cfg: Config, s: Sys, es: seq<Step>, zero: Cycles): Cycles
    requires SysWf(cfg, s)
  {
    if es == [] then zero
    else
      var before := CyclesGiven(cfg, s, es[..|es|-1], zero);
      if es[|es|-1] == ClockTick then Credit(before, Flat(Run(cfg, s, es[..|es|-1]).cores)) else before
  }

  function NoCycles(procs: Procs): Cycles {
    map p | p in procs :: 0
  }

  /** The loader's hand-over, with a load that fits: every process waits with a clear context, and its
      pages hold its image. */
  ghost predicate Booted(cfg: Config, procs: Procs, s: Sys) {
    Loaded(cfg, s) && Transparent(procs, s, NoCycles(procs))
  }

  /** In every state of every interleaving, each process's memory, registers, program counter and
      instruction register are those of its image run alone for the cycles it received; of the loads
      that do not fit only an overfull BFS queue is excluded. Runs have no preemption routine: for a
      priority load that does not fit, they are the code's as long as it has nothing to replace. */
  lemma {:induction false} TimeSharingIsTransparent(cfg: Config, procs: Procs, s: Sys, es: seq<Step>)
    requires Undoubled(cfg, s) && Transparent(procs, s, NoCycles(procs)) && AllStayInPages(procs)
    ensures Transparent(procs, Run(cfg, s, es), CyclesGiven(cfg, s, es, NoCycles(procs)))
  {
    if es != [] {
      var before := es[..|es|-1];
      TimeSharingIsTransparent(cfg, procs, s, before);
      var now, n := Run(cfg, s, before), CyclesGiven(cfg, s, before, NoCycles(procs));
      match es[|es|-1]
      case ClockTick =>
        NobodyDoubled(cfg, s, before);
        TickTransparent(cfg, procs, now, n);
      case Activation =>
        ActivateTransparent(cfg, procs, now, n);
    }
  }
}
