/** What page tables and lives say about a process at any moment of any run: an entry is marked exactly when
    its page has been stored to, and EXIT ends a life (sys/memory.c:233-250, sys/machine.c:402-410). */
module Marks {
  import opened CArith
  import opened Memory
  import opened Process
  import opened Machine
  import opened InstructionSet
  import opened Solo
  import opened Scheduler
  import opened Population
  import opened Conservation
  import opened Trace
  import opened Transparency
  import opened Lifetimes

  // ------------------------------------------------------------------ pages stored to

  /** The page the next instruction stores to, if it is a store. */
  function StoresTo(s: Solo): set<int> {
    var w := Load(s.vm, s.ctx.pc);
    if s.status == Continue && w / 0x1000_0000 == 1 then {w % 0x100_0000 / PAGE_SIZE} else {}
  }

  /** Pages stored to in the first `n` cycles. */
  function Stored(s: Solo, n: nat): set<int> {
    if n == 0 then {} else Stored(s, n - 1) + StoresTo(SoloRun(s, n - 1))
  }

  /** An entry of a page that has been stored to, or has not. */
  function Marked(e: PageTableEntry, stored: bool): PageTableEntry {
    e.(dirty := e.dirty || stored, accessed := e.accessed || stored)
  }

  /** Entry `x` of the table is as before, but marked if it is among those stored to. */
  predicate EntryMarked(es: seq<PageTableEntry>, es': seq<PageTableEntry>, table: Table, x: nat, stored: set<int>)
    requires table.base + table.pages <= |es| == |es'| && x < table.pages
  {
    es'[table.base + x] == Marked(es[table.base + x], x in stored)
  }

  /** Cycle `s` of a program has changed its own entries as it should, and no others. */
  ghost predicate StepMarks(m: Mem, m': Mem, table: Table, s: Solo)
    requires table.base + table.pages <= |m.ptes|
  {
    && |m'.ptes| == |m.ptes|
    && (forall x: nat :: x < table.pages ==> EntryMarked(m.ptes, m'.ptes, table, x, StoresTo(s)))
    && (forall y :: 0 <= y < |m.ptes| && !(table.base <= y < table.base + table.pages) ==> m'.ptes[y] == m.ptes[y])
  }

  /** The word fetched is the one the process's own memory shows. */
  lemma FetchedIsLoaded(t: Thread, m: Mem, table: Table, s: Solo)
    requires Wf(m) && Backed(m, table) && Mirrors(t, m, table, s) && StepInPages(s) && Runs(t)
    ensures Fetched(t, m) == Load(s.vm, s.ctx.pc)
    ensures UsesAddress(Fetched(t, m)) ==> Address(Fetched(t, m)) / WORD_SIZE < table.pages * PAGE_WORDS
  {
    ReadSeesView(m, table, t.ctx.pc);
  }

  lemma CycleWrites(t: Thread, m: Mem)
    requires Shaped(m) && Runs(t)
    ensures var w := Fetched(t, m);
            Cycle(t, m).1 == if w / 0x1000_0000 == 1
                             then MmuWrite(m, t.pcb.pgb.value, Address(w), t.ctx.regs[Reg(w)]) else m
  {
  }

  lemma StoreMarksPage(m: Mem, table: Table, s: Solo, v: u32)
    requires Wf(m) && Backed(m, table) && s.status == Continue
    requires var w := Load(s.vm, s.ctx.pc);
             w / 0x1000_0000 == 1 && Address(w) / WORD_SIZE < table.pages * PAGE_WORDS
    ensures StepMarks(m, MmuWrite(m, table.base, Address(Load(s.vm, s.ctx.pc)), v), table, s)
  {
    hide Load, MmuWrite, Wf;
    StoreMarks(m, table, Address(Load(s.vm, s.ctx.pc)), v);
  }

  lemma {:induction false} CycleMarks(t: Thread, m: Mem, table: Table, s: Solo)
    requires Wf(m) && Backed(m, table) && Mirrors(t, m, table, s) && StepInPages(s)
    ensures StepMarks(m, Cycle(t, m).1, table, s)
  {
    if t.pcb.state != Terminated {
      hide Cycle, View, FramesExclusive, StepInPages, Load, MmuRead, MmuWrite, Accounted;
      FetchedIsLoaded(t, m, table, s);
      CycleWrites(t, m);
      if Fetched(t, m) / 0x1000_0000 == 1 {
        StoreMarksPage(m, table, s, t.ctx.regs[Reg(Fetched(t, m))]);
      }
    }
  }

  lemma CycleEnds(t: Thread, m: Mem)
    requires Shaped(m) && Runs(t)
    ensures Cycle(t, m).0.pcb.ttl == if Fetched(t, m) / 0x1000_0000 == 15 then 0 else t.pcb.ttl
  {
  }

  lemma StepExits(s: Solo)
    ensures s.status == Continue ==> (SoloStep(s).status == Exited <==> Load(s.vm, s.ctx.pc) / 0x1000_0000 == 15)
  {
  }

  /** EXIT ends the life, everything else leaves it alone. */
  lemma {:induction false} CycleLives(t: Thread, m: Mem, table: Table, s: Solo)
    requires Wf(m) && Backed(m, table) && Mirrors(t, m, table, s) && StepInPages(s)
    ensures Cycle(t, m).0.pcb.ttl
            == if s.status == Continue && SoloStep(s).status == Exited then 0 else t.pcb.ttl
  {
    if t.pcb.state != Terminated {
      hide Cycle, View, FramesExclusive, StepInPages, Load, MmuRead, SoloStep;
      FetchedIsLoaded(t, m, table, s);
      CycleEnds(t, m);
      StepExits(s);
    }
  }

  // ------------------------------------------------------------------ the invariant

  /** Compared with `m0`, the entries of every process are marked for exactly the pages its cycles have
      stored to, and not changed otherwise. */
  ghost predicate EntriesMarked(procs: Procs, m0: Mem, m: Mem, n: Cycles) {
    && |m.ptes| == |m0.ptes| && n.Keys == procs.Keys
    && forall pid :: pid in procs ==> TableMarked(procs[pid], m0, m, n[pid])
  }

  ghost predicate TableMarked(pr: Proc, m0: Mem, m: Mem, n: nat) {
    && pr.table.base + pr.table.pages <= |m0.ptes| == |m.ptes|
    && forall x: nat :: x < pr.table.pages ==>
         EntryMarked(m0.ptes, m.ptes, pr.table, x, Stored(Start(pr.image), n))
  }

  /** A process whose own run has reached EXIT has no life left; any other has its budget less its cycles. */
  ghost predicate ExactLife(procs: Procs, budgets: Budgets, n: Cycles, t: Thread) {
    var pid := t.pcb.pid;
    && pid in procs && pid in n && pid in budgets
    && t.pcb.ttl == if Alone(procs, n, pid).status == Exited then 0 else Remaining(budgets[pid], n[pid])
  }

  lemma OwnTableMarked(pr: Proc, m0: Mem, m: Mem, m': Mem, n: nat)
    requires TableMarked(pr, m0, m, n) && StepMarks(m, m', pr.table, SoloRun(Start(pr.image), n))
    ensures TableMarked(pr, m0, m', n + 1)
  {
    hide SoloRun, StoresTo;
    var before, now := Stored(Start(pr.image), n), StoresTo(SoloRun(Start(pr.image), n));
    assert Stored(Start(pr.image), n + 1) == before + now;
    forall x: nat | x < pr.table.pages ensures EntryMarked(m0.ptes, m'.ptes, pr.table, x, before + now) {
      assert EntryMarked(m0.ptes, m.ptes, pr.table, x, before) && EntryMarked(m.ptes, m'.ptes, pr.table, x, now);
    }
  }

  lemma OtherTableMarked(pr: Proc, m0: Mem, m: Mem, m': Mem, n: nat, table: Table, s: Solo)
    requires TableMarked(pr, m0, m, n) && table.base + table.pages <= |m.ptes| && StepMarks(m, m', table, s)
    requires Disjoint(table, pr.table)
    ensures TableMarked(pr, m0, m', n)
  {
    hide Stored, StoresTo, Marked;
    forall x: nat | x < pr.table.pages
      ensures EntryMarked(m0.ptes, m'.ptes, pr.table, x, Stored(Start(pr.image), n))
    {
      assert EntryMarked(m0.ptes, m.ptes, pr.table, x, Stored(Start(pr.image), n));
    }
  }

  lemma MarksStep(procs: Procs, m0: Mem, m: Mem, m': Mem, n: Cycles, pid: int)
    requires MemoryMirrors(procs, m, n) && EntriesMarked(procs, m0, m, n) && pid in procs
    requires StepMarks(m, m', procs[pid].table, Alone(procs, n, pid))
    ensures EntriesMarked(procs, m0, m', CreditOne(n, pid))
  {
    hide View, FramesExclusive, SoloRun, StepMarks, TableMarked, Stored;
    var n' := CreditOne(n, pid);
    StepKeepsSize(m, m', procs[pid].table, Alone(procs, n, pid));
    forall p | p in procs ensures TableMarked(procs[p], m0, m', n'[p]) {
      if p == pid {
        OwnTableMarked(procs[p], m0, m, m', n[p]);
      } else {
        OtherTableMarked(procs[p], m0, m, m', n[p], procs[pid].table, Alone(procs, n, pid));
      }
    }
  }

  lemma StepKeepsSize(m: Mem, m': Mem, table: Table, s: Solo)
    requires table.base + table.pages <= |m.ptes| && StepMarks(m, m', table, s)
    ensures |m'.ptes| == |m.ptes|
  {
  }

  // ------------------------------------------------------------------ one tick

  lemma {:induction false} TickThreadMarks(procs: Procs, budgets: Budgets, n: Cycles, m0: Mem, t: Thread, m: Mem)
    requires Shaped(m) && MemoryMirrors(procs, m, n) && ThreadMirrors(procs, n, t) && AllStayInPages(procs)
    requires EntriesMarked(procs, m0, m, n) && ExactLife(procs, budgets, n, t)
    ensures var (u, m') := TickThread(t, m); var n' := CreditOne(n, t.pcb.pid);
            EntriesMarked(procs, m0, m', n') && ExactLife(procs, budgets, n', u)
  {
    hide SoloStep, View, Wf, StepInPages, StepMarks, EntriesMarked;
    var pid := t.pcb.pid;
    var table, solo := procs[pid].table, Alone(procs, n, pid);
    var u := t.(pcb := DecrementTtl(t.pcb));
    assert Mirrors(u, m, table, solo) && StepInPages(solo);
    CycleMarks(u, m, table, solo);
    CycleLives(u, m, table, solo);
    MarksStep(procs, m0, m, TickThread(t, m).1, n, pid);
    TickThreadMirrors(procs, n, t, m);
    assert Alone(procs, CreditOne(n, pid), pid) == SoloStep(solo);
    StoppedStep(solo);
  }

  lemma StoppedStep(s: Solo)
    ensures s.status != Continue ==> SoloStep(s) == s
  {
  }

  lemma {:induction false} TickThreadsMark(procs: Procs, budgets: Budgets, n: Cycles, m0: Mem, ts: seq<Thread>, m: Mem)
    requires Shaped(m) && MemoryMirrors(procs, m, n) && AllStayInPages(procs) && DistinctPids(ts)
    requires EachThread(ts, t => ThreadMirrors(procs, n, t)) && EntriesMarked(procs, m0, m, n)
    requires EachThread(ts, t => ExactLife(procs, budgets, n, t))
    ensures var (us, m') := TickThreads(ts, m); var n' := Credit(n, ts);
            EntriesMarked(procs, m0, m', n') && EachThread(us, t => ExactLife(procs, budgets, n', t))
  {
    hide MemoryMirrors, TickThread, EntriesMarked, AllStayInPages;
    if ts != [] {
      var k := |ts| - 1;
      TickThreadsMark(procs, budgets, n, m0, ts[..k], m);
      TickThreadsMirror(procs, n, ts[..k], m);
      var (before, m') := TickThreads(ts[..k], m);
      var n', t := Credit(n, ts[..k]), ts[k];
      assert ThreadMirrors(procs, n, t) && ExactLife(procs, budgets, n, t);
      CreditOther(n, ts[..k], t.pcb.pid);
      TickThreadMarks(procs, budgets, n', m0, t, m');
      forall i | 0 <= i < k ensures ExactLife(procs, budgets, CreditOne(n', t.pcb.pid), before[i]) {
        assert ExactLife(procs, budgets, n', before[i]);
        assert before[i].pcb.pid == ts[i].pcb.pid != t.pcb.pid;
      }
    }
  }

  lemma TickMarks(cfg: Config, procs: Procs, budgets: Budgets, m0: Mem, s: Sys, n: Cycles)
    requires SysWf(cfg, s) && Transparent(procs, s, n) && AllStayInPages(procs)
    requires EntriesMarked(procs, m0, s.mem, n) && EachExecuting(s.cores, t => ExactLife(procs, budgets, n, t))
    requires forall x :: Live(Pid, s)[x] <= 1
    ensures var t, n' := Tick(cfg, s), Credit(n, Flat(s.cores));
            EntriesMarked(procs, m0, t.mem, n') && EachExecuting(t.cores, u => ExactLife(procs, budgets, n', u))
  {
    hide MemoryMirrors, TickThreads, EntriesMarked, AllStayInPages, ExactLife, ThreadMirrors, Flat, Order;
    var ts, n' := Flat(s.cores), Credit(n, Flat(s.cores));
    FlatIsDistinct(s);
    FlatSameThreads(s.cores, t => ThreadMirrors(procs, n, t));
    FlatSameThreads(s.cores, t => ExactLife(procs, budgets, n, t));
    TickThreadsMark(procs, budgets, n, m0, ts, s.mem);
    TickIsFlat(s.cores, s.mem);
    FlatSameThreads(Tick(cfg, s).cores, t => ExactLife(procs, budgets, n', t));
  }

  ghost predicate WaitingTold(procs: Procs, budgets: Budgets, n: Cycles, p: PCB) {
    WaitingMirrors(procs, n, p) && WaitingLife(budgets, n, p)
  }

  ghost predicate ThreadExact(procs: Procs, budgets: Budgets, n: Cycles, t: Thread) {
    ThreadMirrors(procs, n, t) && ExactLife(procs, budgets, n, t)
  }

  lemma ExactSaved(cfg: Config, clock: int, procs: Procs, budgets: Budgets, n: Cycles, t: Thread)
    requires ThreadExact(procs, budgets, n, t)
    ensures Leaves(cfg, t) ==> WaitingTold(procs, budgets, n, Saved(cfg, clock, Bumped(t)))
    ensures Stays(cfg, t) ==> ThreadExact(procs, budgets, n, Bumped(t))
  {
    hide SoloRun, DeadlineOffset;
  }

  lemma ToldRestored(cfg: Config, clock: int, procs: Procs, budgets: Budgets, n: Cycles, p: PCB)
    requires WaitingTold(procs, budgets, n, p)
    ensures ThreadExact(procs, budgets, n, Restored(cfg, clock, p))
  {
    hide SoloRun, DeadlineOffset;
  }

  lemma AllTold(cfg: Config, procs: Procs, budgets: Budgets, s: Sys, n: Cycles)
    requires SysWf(cfg, s) && Transparent(procs, s, n) && Budgeted(budgets, s, n)
    requires EachExecuting(s.cores, t => ExactLife(procs, budgets, n, t))
    ensures EachWaiting(s.sched, p => WaitingTold(procs, budgets, n, p))
    ensures EachExecuting(s.cores, t => ThreadExact(procs, budgets, n, t))
  {
    hide MemoryMirrors, WaitingMirrors, WaitingLife, ThreadMirrors, ThreadLife, ExactLife, Order;
  }

  lemma OnlyExact(cores: seq<seq<Thread>>, procs: Procs, budgets: Budgets, n: Cycles)
    requires EachExecuting(cores, t => ThreadExact(procs, budgets, n, t))
    ensures EachExecuting(cores, t => ExactLife(procs, budgets, n, t))
  {
    hide ThreadMirrors, ExactLife, Order;
  }

  lemma ActivateMarks(cfg: Config, procs: Procs, budgets: Budgets, s: Sys, n: Cycles)
    requires SysWf(cfg, s) && Transparent(procs, s, n) && Budgeted(budgets, s, n)
    requires EachExecuting(s.cores, t => ExactLife(procs, budgets, n, t))
    ensures EachExecuting(Activate(cfg, s).cores, t => ExactLife(procs, budgets, n, t))
  {
    hide *;
    if Wakes(cfg, s) {
      var P, R := p => WaitingTold(procs, budgets, n, p), t => ThreadExact(procs, budgets, n, t);
      AllTold(cfg, procs, budgets, s, n);
      forall t | R(t) ensures Leaves(cfg, t) ==> P(Saved(cfg, s.clock, Bumped(t)))
                      ensures Stays(cfg, t) ==> R(Bumped(t)) {
        ExactSaved(cfg, s.clock, procs, budgets, n, t);
      }
      forall p | P(p) ensures R(Restored(cfg, s.clock, p)) {
        ToldRestored(cfg, s.clock, procs, budgets, n, p);
      }
      ActivateEach(cfg, s, P, R, R);
      OnlyExact(Activate(cfg, s).cores, procs, budgets, n);
    } else {
      SleepsOn(cfg, s);
    }
  }

  // ------------------------------------------------------------------ whole runs

  ghost predicate AllUntouched(procs: Procs, m: Mem) {
    forall pid :: pid in procs ==> Untouched(m, procs[pid].table)
  }

  lemma StartMarks(procs: Procs, m: Mem)
    requires AllUntouched(procs, m)
    ensures EntriesMarked(procs, m, m, NoCycles(procs))
  {
  }

  /** In every state of every interleaving, and for every load but an overfull BFS queue: the entries of
      each process are those of the hand-over, marked for exactly the pages its cycles have stored to;
      and an executing process has no life left once its own run has reached EXIT, and its budget less
      its cycles otherwise, stopped or not. */
  lemma {:induction false} MarksAndLives(cfg: Config, procs: Procs, budgets: Budgets, s: Sys, es: seq<Step>)
    requires Undoubled(cfg, s) && Transparent(procs, s, NoCycles(procs)) && AllStayInPages(procs)
    requires Budgeted(budgets, s, NoCycles(procs)) && AllUntouched(procs, s.mem)
    ensures var now, n := Run(cfg, s, es), CyclesGiven(cfg, s, es, NoCycles(procs));
            && EntriesMarked(procs, s.mem, now.mem, n)
            && EachExecuting(now.cores, t => ExactLife(procs, budgets, n, t))
  {
    hide Transparent, EntriesMarked, AllStayInPages, Budgeted, ExactLife, Live, Credit, Flat, AllUntouched, Tick;
    if es == [] {
      StartMarks(procs, s.mem);
      EmptyOrder(s.cores);
    } else {
      var before := es[..|es|-1];
      MarksAndLives(cfg, procs, budgets, s, before);
      var now, n := Run(cfg, s, before), CyclesGiven(cfg, s, before, NoCycles(procs));
      TimeSharingIsTransparent(cfg, procs, s, before);
      match es[|es|-1]
      case ClockTick =>
        NobodyDoubled(cfg, s, before);
        TickMarks(cfg, procs, budgets, s.mem, now, n);
      case Activation =>
        TtlCountsCycles(cfg, budgets, procs, s, before);
        ActivateMarks(cfg, procs, budgets, now, n);
        ActivateKeepsMemory(cfg, now);
    }
  }

  lemma ActivateKeepsMemory(cfg: Config, s: Sys)
    requires SysWf(cfg, s)
    ensures Activate(cfg, s).mem == s.mem
  {
    hide Dispatch, BeforeDispatch, KeptCores;
  }

  /** A page-table entry is dirty if and only if its page has been stored to. */
  lemma DirtyIffStored(cfg: Config, procs: Procs, budgets: Budgets, s: Sys, es: seq<Step>, pid: int, x: nat)
    requires Undoubled(cfg, s) && Transparent(procs, s, NoCycles(procs)) && AllStayInPages(procs)
    requires Budgeted(budgets, s, NoCycles(procs)) && AllUntouched(procs, s.mem)
    requires pid in procs && x < procs[pid].table.pages
    ensures var now, n := Run(cfg, s, es), CyclesGiven(cfg, s, es, NoCycles(procs));
            && pid in n && procs[pid].table.base + x < |now.mem.ptes| == |s.mem.ptes|
            && var e, e0 := now.mem.ptes[procs[pid].table.base + x], s.mem.ptes[procs[pid].table.base + x];
               && (e.dirty <==> x in Stored(Start(procs[pid].image), n[pid])) && (e.accessed <==> e.dirty)
               && e.frame == e0.frame && e.present && e.rw && e.user
  {
    hide Run, CyclesGiven, Stored, Transparent, Budgeted, AllStayInPages;
    MarksAndLives(cfg, procs, budgets, s, es);
    var n := CyclesGiven(cfg, s, es, NoCycles(procs));
    assert TableMarked(procs[pid], s.mem, Run(cfg, s, es).mem, n[pid]);
    var stored := Stored(Start(procs[pid].image), n[pid]);
    assert EntryMarked(s.mem.ptes, Run(cfg, s, es).mem.ptes, procs[pid].table, x, stored);
    assert Untouched(s.mem, procs[pid].table);
  }

  /** An executing process whose program has reached EXIT has no life left. */
  lemma ExitEndsLife(cfg: Config, procs: Procs, budgets: Budgets, s: Sys, es: seq<Step>, k: nat)
    requires Undoubled(cfg, s) && Transparent(procs, s, NoCycles(procs)) && AllStayInPages(procs)
    requires Budgeted(budgets, s, NoCycles(procs)) && AllUntouched(procs, s.mem)
    requires k < |Order(Run(cfg, s, es).cores)|
    ensures var t, n := Order(Run(cfg, s, es).cores)[k], CyclesGiven(cfg, s, es, NoCycles(procs));
            && t.pcb.pid in procs && t.pcb.pid in n
            && (Alone(procs, n, t.pcb.pid).status == Exited ==> t.pcb.state == Terminated && t.pcb.ttl == 0)
  {
    hide Run, CyclesGiven, SoloRun, MemoryMirrors, Budgeted, AllStayInPages, Order, AllUntouched;
    MarksAndLives(cfg, procs, budgets, s, es);
    TimeSharingIsTransparent(cfg, procs, s, es);
    var t, n := Order(Run(cfg, s, es).cores)[k], CyclesGiven(cfg, s, es, NoCycles(procs));
    assert ExactLife(procs, budgets, n, t) && ThreadMirrors(procs, n, t);
  }
}
