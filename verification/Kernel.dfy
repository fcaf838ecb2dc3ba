/** The running system as objects: the scheduler thread's activation and the clock thread's tick,
    proved against the state machine of `Scheduler`. CPUs and cores are numbered in one sequence,
    in the order the nested loops visit them. */
module Kernel {
  import opened CArith
  import opened Memory
  import opened Process
  import opened Machine
  import opened Scheduler

  // ------------------------------------------------------------------ sequences of objects

  ghost predicate QueuesIn(qs: seq<ProcessQueue>, repr: set<object>) {
    forall i :: 0 <= i < |qs| ==> qs[i] in repr && qs[i].queue in repr
  }

  ghost predicate CoresIn(cs: seq<Core>, repr: set<object>) {
    forall i :: 0 <= i < |cs| ==> cs[i] in repr && cs[i].hwThreads in repr
  }

  ghost function ContentsOf(qs: seq<ProcessQueue>, repr: set<object>): (r: seq<seq<PCB>>)
    reads repr
    requires QueuesIn(qs, repr) && forall i :: 0 <= i < |qs| ==> qs[i].Valid()
    ensures |r| == |qs|
    ensures forall i :: 0 <= i < |qs| ==> r[i] == qs[i].Contents()
  {
    if qs == [] then [] else ContentsOf(qs[..|qs|-1], repr) + [qs[|qs|-1].Contents()]
  }

  ghost function ThreadsOf(cs: seq<Core>, repr: set<object>): (r: seq<seq<Thread>>)
    reads repr
    requires CoresIn(cs, repr) && forall i :: 0 <= i < |cs| ==> cs[i].Valid()
    ensures |r| == |cs|
    ensures forall i :: 0 <= i < |cs| ==> r[i] == cs[i].Threads()
  {
    if cs == [] then [] else ThreadsOf(cs[..|cs|-1], repr) + [cs[|cs|-1].Threads()]
  }

  // ------------------------------------------------------------------ list facts of the sweep

  lemma {:induction false} SweepQueuesAppend(cfg: Config, clock: int, q: Sched, a: seq<Thread>, b: seq<Thread>)
    requires SchedWf(cfg, q)
    ensures SweepQueues(cfg, clock, q, a + b) == SweepQueues(cfg, clock, SweepQueues(cfg, clock, q, a), b)
  {
    if b == [] {
      assert a + b == a;
    } else {
      assert (a + b)[..|a + b|-1] == a + b[..|b|-1];
      SweepQueuesAppend(cfg, clock, q, a, b[..|b|-1]);
    }
  }

  lemma {:induction false} KeptCons(cfg: Config, ts: seq<Thread>)
    requires ts != []
    ensures Kept(cfg, ts) ==
            (if Stays(cfg, ts[0]) then [ts[0].(pcb := Bump(ts[0].pcb))] else []) + Kept(cfg, ts[1..])
  {
    if |ts| == 1 {
      assert ts[..0] == [] && ts[1..] == [];
    } else {
      KeptCons(cfg, ts[..|ts|-1]);
      assert ts[..|ts|-1][1..] == ts[1..][..|ts|-2];
    }
  }

  lemma OrderNext(cores: seq<seq<Thread>>, i: nat)
    requires i < |cores|
    ensures Order(cores[..i+1]) == Order(cores[..i]) + Reversed(cores[i])
  {
    assert cores[..i+1][..i] == cores[..i];
  }

  // ------------------------------------------------------------------ the scheduler's queues

  /** The ready queue, the priority queues and the counters of the scheduler. */
  class Queues {
    const cfg: Config
    const readyQueue: ProcessQueue
    const levels: seq<ProcessQueue>
    ghost const repr: set<object>
    var totalCompleted: nat
    var log: seq<Event>
    var preempted: bool
    /** What the fields stand for. */
    ghost var now: Sched

    /** No two queues share storage. */
    ghost predicate Separate() {
      && readyQueue in repr && readyQueue.queue in repr && QueuesIn(levels, repr) && this !in repr
      && (forall i, j :: 0 <= i < j < |levels| ==>
            levels[i] != levels[j] && levels[i].queue != levels[j].queue)
      && (forall i :: 0 <= i < |levels| ==>
            levels[i] != readyQueue && levels[i].queue != readyQueue.queue)
    }

    ghost predicate Built()
      reads repr
    {
      && Separate()
      && readyQueue.Valid() && readyQueue.maxCapacity == cfg.readyCapacity
      && |levels| == (if cfg.policy == PreemptivePrio then NUM_PRIORITY_LEVELS else 0)
      && (forall i :: 0 <= i < |levels| ==>
            levels[i].Valid() && levels[i].maxCapacity == LevelCapacity(cfg))
    }

    ghost predicate Valid()
      reads this, repr
      ensures Valid() ==> SchedWf(cfg, now)
    {
      && Built()
      && now == Sched(readyQueue.Contents(), ContentsOf(levels, repr), totalCompleted, log, preempted)
    }

    static method CreateQueues(n: nat, capacity: nat) returns (qs: seq<ProcessQueue>, ghost repr: set<object>)
      requires capacity >= 1
      ensures fresh(repr) && QueuesIn(qs, repr)
      ensures |qs| == n && forall i :: 0 <= i < n ==>
                qs[i].Valid() && qs[i].Contents() == [] && qs[i].maxCapacity == capacity
      ensures forall i, j :: 0 <= i < j < n ==> qs[i] != qs[j] && qs[i].queue != qs[j].queue
    {
      qs, repr := [], {};
      for k := 0 to n
        invariant fresh(repr) && QueuesIn(qs, repr)
        invariant |qs| == k && forall i :: 0 <= i < k ==>
          qs[i].Valid() && qs[i].Contents() == [] && qs[i].maxCapacity == capacity
        invariant forall i, j :: 0 <= i < j < k ==> qs[i] != qs[j] && qs[i].queue != qs[j].queue
      {
        var q := new ProcessQueue(capacity);
        qs, repr := qs + [q], repr + {q, q.queue};
      }
    }

    /** Takes over the ready queue; the priority queues are created for the priority policy only. */
    constructor (cfg: Config, ready: ProcessQueue)
      requires cfg.quantum >= 1 && ready.Valid() && ready.maxCapacity == cfg.readyCapacity
      ensures Valid() && this.cfg == cfg && readyQueue == ready
      ensures fresh(repr - {ready, ready.queue})
      ensures now == Sched(ready.Contents(), now.levels, 0, [], false)
      ensures forall i :: 0 <= i < |now.levels| ==> now.levels[i] == []
    {
      this.cfg, readyQueue := cfg, ready;
      var ls, r := CreateQueues(if cfg.policy == PreemptivePrio then NUM_PRIORITY_LEVELS else 0, LevelCapacity(cfg));
      hide ProcessQueue.Valid, ProcessQueue.Contents;
      levels, repr := ls, r + {ready, ready.queue};
      totalCompleted, log, preempted := 0, [], false;
      new;
      now := Sched(ready.Contents(), ContentsOf(levels, repr), 0, [], false);
    }

    method Record(e: Event)
      requires Valid()
      modifies this`log, this`now
      ensures Valid()
      ensures now == old(now).(log := old(now).log + [e])
    {
      log := log + [e];
      now := now.(log := log);
    }

    method Complete(pid: int)
      requires Valid()
      modifies this
      ensures Valid()
      ensures now == old(now).(completed := old(now).completed + 1, log := old(now).log + [Completed(pid)])
    {
      totalCompleted := totalCompleted + 1;
      log := log + [Completed(pid)];
      now := now.(completed := totalCompleted, log := log);
    }

    method EnqueueReady(p: PCB) returns (ok: bool)
      requires Valid()
      modifies this`now, repr
      ensures Valid()
      ensures ok <==> |old(now).ready| < cfg.readyCapacity
      ensures now == old(now).(ready := if ok then old(now).ready + [p] else old(now).ready)
    {
      hide ProcessQueue.Valid, ProcessQueue.Contents;
      ok := readyQueue.Enqueue(p);
      assert ContentsOf(levels, repr) == now.levels;
      now := now.(ready := readyQueue.Contents());
    }

    method EnqueueLevel(i: nat, p: PCB) returns (ok: bool)
      requires Valid() && i < |levels|
      modifies this`now, repr
      ensures Valid()
      ensures ok <==> |old(now).levels[i]| < LevelCapacity(cfg)
      ensures now == old(now).(levels :=
        if ok then old(now).levels[i := old(now).levels[i] + [p]] else old(now).levels)
    {
      hide ProcessQueue.Valid, ProcessQueue.Contents;
      ok := levels[i].Enqueue(p);
      assert ContentsOf(levels, repr) == now.levels[i := levels[i].Contents()];
      now := now.(levels := ContentsOf(levels, repr));
    }

    method DequeueReady() returns (p: PCB)
      requires Valid() && now.ready != []
      modifies this`now, repr
      ensures Valid()
      ensures p == old(now).ready[0]
      ensures now == old(now).(ready := old(now).ready[1..])
    {
      hide ProcessQueue.Valid, ProcessQueue.Contents;
      var r := readyQueue.Dequeue();
      p := r.value;
      assert ContentsOf(levels, repr) == now.levels;
      now := now.(ready := readyQueue.Contents());
    }

    method DequeueLevel(i: nat) returns (p: PCB)
      requires Valid() && i < |levels| && now.levels[i] != []
      modifies this`now, repr
      ensures Valid()
      ensures p == old(now).levels[i][0]
      ensures now == old(now).(levels := old(now).levels[i := old(now).levels[i][1..]])
    {
      hide ProcessQueue.Valid, ProcessQueue.Contents;
      var r := levels[i].Dequeue();
      p := r.value;
      assert ContentsOf(levels, repr) == now.levels[i := levels[i].Contents()];
      now := now.(levels := ContentsOf(levels, repr));
    }

    method RemoveEarliestDeadline() returns (p: PCB)
      requires Valid() && now.ready != []
      modifies this`now, repr
      ensures Valid()
      ensures var ready := old(now).ready;
              && p == ready[Scan(ready).1]
              && now == old(now).(ready := ShiftOut(ready, Scan(ready).1, cfg.readyCapacity))
    {
      hide ProcessQueue.Valid, ProcessQueue.Contents;
      var r := readyQueue.RemoveMinDeadline();
      p := r.value;
      assert ContentsOf(levels, repr) == now.levels;
      now := now.(ready := readyQueue.Contents());
    }

    method EnqueueToScheduler(p: PCB) returns (ok: bool)
      requires Valid()
      modifies this, repr
      ensures Valid()
      ensures match EnqueueTo(cfg, old(now), p)
              case None => !ok && now == old(now)
              case Some(q) => ok && now == q
    {
      if cfg.policy == PreemptivePrio {
        if p.priority < MIN_PRIORITY || p.priority > MAX_PRIORITY {
          return false;
        }
        ok := EnqueueLevel(p.priority - MIN_PRIORITY, p);
      } else {
        ok := EnqueueReady(p);
      }
      if ok {
        Record(Enqueued(p.pid));
      }
    }

    method HasReadyProcesses() returns (r: bool)
      requires Valid()
      ensures r == HasReady(cfg, now)
    {
      if cfg.policy != PreemptivePrio {
        return readyQueue.currentSize > 0;
      }
      for i := 0 to |levels|
        invariant forall k :: 0 <= k < i ==> now.levels[k] == []
      {
        if levels[i].currentSize > 0 {
          assert now.levels[i] != [];
          return true;
        }
      }
      return false;
    }

    method SelectFromLevels() returns (p: Option<PCB>)
      requires Valid() && cfg.policy == PreemptivePrio
      modifies this`now, repr
      ensures Valid()
      ensures !HasReady(cfg, old(now)) ==> p == None && now == old(now)
      ensures HasReady(cfg, old(now)) ==> p.Some? && (p.value, now) == SelectNext(cfg, old(now))
    {
      for i := 0 to |levels|
        invariant now == old(now) && Valid()
        invariant forall k :: 0 <= k < i ==> now.levels[k] == []
      {
        if levels[i].currentSize > 0 {
          assert now.levels[i] != [];
          var q := DequeueLevel(i);
          return Some(q);
        }
      }
      return None;
    }

    method SelectNextProcess() returns (p: Option<PCB>)
      requires Valid()
      modifies this`now, repr
      ensures Valid()
      ensures !HasReady(cfg, old(now)) ==> p == None && now == old(now)
      ensures HasReady(cfg, old(now)) ==> p.Some? && (p.value, now) == SelectNext(cfg, old(now))
    {
      if cfg.policy == PreemptivePrio {
        p := SelectFromLevels();
        return;
      }
      if readyQueue.currentSize == 0 {
        return None;
      }
      var q;
      if cfg.policy == RoundRobin {
        q := DequeueReady();
      } else {
        q := RemoveEarliestDeadline();
      }
      return Some(q);
    }

    /** One arrival: to its priority queue, or back to the rear. Where the source calls the
        preemption routine, the model only records that it got there. */
    method TransferOne(room: bool) returns (ok: bool)
      requires Valid() && cfg.policy == PreemptivePrio && now.ready != []
      modifies this, repr
      ensures Valid()
      ensures var q := old(now);
              var rest := q.(ready := q.ready[1..], preempted := q.preempted || !room);
              match EnqueueTo(cfg, rest, q.ready[0])
              case Some(r) => ok && now == r
              case None => !ok && now == rest.(ready := rest.ready + [q.ready[0]])
    {
      var p := DequeueReady();
      preempted := preempted || !room;
      now := now.(preempted := preempted);
      ok := EnqueueToScheduler(p);
      if !ok {
        var _ := EnqueueReady(p);
      }
    }

    method TransferArrivals(room: bool)
      requires Valid() && cfg.policy == PreemptivePrio
      modifies this, repr
      ensures Valid()
      ensures now == Transfer(cfg, room, old(now))
    {
      var ok := true;
      while ok && readyQueue.currentSize > 0
        invariant Valid()
        invariant if ok then Transfer(cfg, room, now) == Transfer(cfg, room, old(now))
                  else now == Transfer(cfg, room, old(now))
        decreases ok, |now.ready|
      {
        ok := TransferOne(room);
      }
    }
  }

  // ------------------------------------------------------------------ the machine's cores

  class Hardware {
    const threads: nat
    const cores: seq<Core>
    ghost const repr: set<object>
    /** The threads of every core. */
    ghost var now: seq<seq<Thread>>

    /** No two cores share storage. */
    ghost predicate Separate() {
      && CoresIn(cores, repr) && this !in repr
      && (forall i, j :: 0 <= i < j < |cores| ==>
            cores[i] != cores[j] && cores[i].hwThreads != cores[j].hwThreads)
    }

    ghost predicate Built()
      reads repr
    {
      && Separate()
      && (forall i :: 0 <= i < |cores| ==> cores[i].Valid() && cores[i].numKernelThreads == threads)
    }

    ghost predicate Valid()
      reads this, repr
      ensures Valid() ==> |now| == |cores|
      ensures Valid() ==> forall i :: 0 <= i < |now| ==> |now[i]| <= threads
    {
      Built() && now == ThreadsOf(cores, repr)
    }

    constructor (n: nat, threads: nat)
      ensures Valid() && this.threads == threads && fresh(repr)
      ensures |now| == n && forall i :: 0 <= i < n ==> now[i] == []
    {
      this.threads := threads;
      var cs: seq<Core> := [];
      ghost var r: set<object> := {};
      for k := 0 to n
        invariant fresh(r) && CoresIn(cs, r)
        invariant |cs| == k && forall i :: 0 <= i < k ==>
          cs[i].Valid() && cs[i].Threads() == [] && cs[i].numKernelThreads == threads
        invariant forall i, j :: 0 <= i < j < k ==> cs[i] != cs[j] && cs[i].hwThreads != cs[j].hwThreads
      {
        var c := new Core(threads);
        cs, r := cs + [c], r + {c, c.hwThreads};
      }
      cores, repr := cs, r;
      new;
      now := ThreadsOf(cores, repr);
    }

    method SetPcb(i: nat, k: nat, p: PCB)
      requires Valid() && i < |cores| && k < |now[i]| && p.pgb == now[i][k].pcb.pgb
      modifies this, repr
      ensures Valid()
      ensures now == old(now)[i := old(now)[i][k := Thread(p, old(now)[i][k].ctx)]]
    {
      hide Core.Valid, Core.Threads;
      cores[i].SetPcb(k, p);
      now := ThreadsOf(cores, repr);
    }

    method Remove(i: nat, k: nat)
      requires Valid() && i < |cores| && k < |now[i]|
      modifies this, repr
      ensures Valid()
      ensures now == old(now)[i := old(now)[i][..k] + old(now)[i][k+1..]]
    {
      hide Core.Valid, Core.Threads;
      cores[i].Remove(k);
      now := ThreadsOf(cores, repr);
    }

    method ThreadAt(i: nat, k: nat) returns (t: Thread)
      requires Valid() && i < |cores| && k < |now[i]|
      ensures t == now[i][k]
    {
      t := Occupant(cores[i].hwThreads[k]);
    }

    method Count(i: nat) returns (n: nat)
      requires Valid() && i < |cores|
      ensures n == |now[i]|
    {
      n := cores[i].currentPcbCount;
    }

    /** `can_cpu_execute_process`. */
    method CanExecute(cfg: Config) returns (r: bool)
      requires Valid() && cfg.threads == threads
      ensures r == HasRoom(cfg, now)
    {
      var i := FindRoom(cfg);
      return i < |cores|;
    }

    method FindRoom(cfg: Config) returns (i: nat)
      requires Valid() && cfg.threads == threads
      ensures i == FirstFree(cfg, now, 0)
    {
      i := 0;
      while i < |cores| && cores[i].currentPcbCount >= cores[i].numKernelThreads
        invariant i <= |cores| && FirstFree(cfg, now, i) == FirstFree(cfg, now, 0)
        decreases |cores| - i
      {
        assert |now[i]| >= threads;
        i := i + 1;
      }
      assert i < |cores| ==> |now[i]| < threads;
    }

    /** `assign_process_to_core`: the first core with room takes the process. */
    method Assign(cfg: Config, p: PCB) returns (ok: bool)
      requires Valid() && cfg.threads == threads
      modifies this, repr
      ensures Valid()
      ensures ok == HasRoom(cfg, old(now))
      ensures now == if ok then Put(old(now), FirstFree(cfg, old(now), 0), Thread(p, p.context)) else old(now)
    {
      var i := FindRoom(cfg);
      ok := i < |cores|;
      if ok {
        AssignTo(i, p);
      }
    }

    ghost predicate Apart(pm: PhysicalMemory) {
      pm !in repr && pm.memory !in repr && pm.frameBitmap !in repr && pm.entries !in repr
    }

    /** The clock's visit to core `i`. */
    method TickCore(i: nat, pm: PhysicalMemory)
      requires Valid() && pm.Valid() && i < |cores|
      requires Apart(pm)
      modifies this, repr, pm.memory, pm.entries
      ensures Valid() && pm.Valid()
      ensures var (ts, m) := TickThreads(old(now)[i], old(pm.Snapshot()));
              now == old(now)[i := ts] && pm.Snapshot() == m
    {
      hide Core.Valid, Core.Threads, PhysicalMemory.Valid, PhysicalMemory.Snapshot, TickThreads;
      cores[i].Tick(pm);
      now := ThreadsOf(cores, repr);
    }

    method AssignTo(i: nat, p: PCB)
      requires Valid() && i < |cores| && |now[i]| < threads
      modifies this, repr
      ensures Valid()
      ensures now == Put(old(now), i, Thread(p, p.context))
    {
      hide Core.Valid, Core.Threads;
      cores[i].Assign(p);
      now := ThreadsOf(cores, repr);
    }
  }

  // ------------------------------------------------------------------ scheduler and clock

  /** The cores once the first `i` of them have been swept. */
  function SweptUpTo(cfg: Config, cs: seq<seq<Thread>>, i: nat): (r: seq<seq<Thread>>)
    requires i <= |cs|
    ensures |r| == |cs|
  {
    KeptCores(cfg, cs)[..i] + cs[i..]
  }

  lemma SweptUpToNext(cfg: Config, clock: int, q: Sched, cs: seq<seq<Thread>>, i: nat)
    requires SchedWf(cfg, q) && i < |cs|
    ensures SweptUpTo(cfg, cs, i)[i] == cs[i]
    ensures SweptUpTo(cfg, cs, i + 1) == SweptUpTo(cfg, cs, i)[i := Kept(cfg, cs[i])]
    ensures SweepQueues(cfg, clock, q, Order(cs[..i+1])) ==
            SweepQueues(cfg, clock, SweepQueues(cfg, clock, q, Order(cs[..i])), Reversed(cs[i]))
  {
    OrderNext(cs, i);
    SweepQueuesAppend(cfg, clock, q, Order(cs[..i]), Reversed(cs[i]));
  }

  lemma SweptUpToAll(cfg: Config, clock: int, q: Sched, cs: seq<seq<Thread>>)
    requires SchedWf(cfg, q)
    ensures SweptUpTo(cfg, cs, 0) == cs && SweptUpTo(cfg, cs, |cs|) == KeptCores(cfg, cs)
    ensures SweepQueues(cfg, clock, q, Order(cs[..0])) == q && cs[..|cs|] == cs
  {
  }

  /** The first `i` cores have had their tick, starting from memory `m0`. */
  ghost predicate CoresTicked(cs: seq<seq<Thread>>, m0: Mem, i: nat, now: seq<seq<Thread>>, m: Mem)
    requires i <= |cs| && Shaped(m0)
  {
    now == TickCores(cs[..i], m0).0 + cs[i..] && m == TickCores(cs[..i], m0).1
  }

  lemma CoresTickedNext(cs: seq<seq<Thread>>, m0: Mem, i: nat, now: seq<seq<Thread>>, m: Mem)
    requires i < |cs| && Shaped(m0) && CoresTicked(cs, m0, i, now, m)
    ensures |now| == |cs| && Shaped(m)
    ensures var (ts, m') := TickThreads(now[i], m);
            CoresTicked(cs, m0, i + 1, now[i := ts], m')
  {
    assert cs[..i+1][..i] == cs[..i];
    var done := TickCores(cs[..i], m0).0;
    assert now[i] == cs[i];
    var (ts, m') := TickThreads(cs[i], m);
    assert (done + cs[i..])[i := ts] == (done + [ts]) + cs[i+1..];
  }

  lemma {:induction false} CoresTickedAll(cs: seq<seq<Thread>>, m0: Mem, now: seq<seq<Thread>>, m: Mem)
    requires Shaped(m0)
    ensures CoresTicked(cs, m0, 0, cs, m0)
    ensures CoresTicked(cs, m0, |cs|, now, m) ==> (now, m) == TickCores(cs, m0)
  {
    assert cs[..|cs|] == cs && cs[..0] == [];
    assert TickCores(cs, m0).0 + cs[|cs|..] == TickCores(cs, m0).0;
  }

  class Kernel {
    const cfg: Config
    const queues: Queues
    const hardware: Hardware
    const pm: PhysicalMemory
    var clock: int
    var lastTick: int

    /** The queues, the machine and the memory share no storage. */
    ghost predicate Separate() {
      && queues.repr !! hardware.repr && queues !in hardware.repr && hardware !in queues.repr
      && this !in queues.repr && this !in hardware.repr
    }

    ghost predicate SchedulerValid()
      reads queues, queues.repr, hardware, hardware.repr
    {
      && queues.Valid() && queues.cfg == cfg && hardware.Valid() && hardware.threads == cfg.threads
      && Separate()
    }

    ghost predicate MemorySeparate() {
      && hardware.Apart(pm)
      && pm !in queues.repr && pm.memory !in queues.repr
      && pm.frameBitmap !in queues.repr && pm.entries !in queues.repr
    }

    ghost predicate Valid()
      reads queues, queues.repr, hardware, hardware.repr, pm, pm.memory, pm.frameBitmap, pm.entries
    {
      SchedulerValid() && pm.Valid() && MemorySeparate()
    }

    ghost function State(): (s: Sys)
      requires Valid()
      reads this, queues, queues.repr, hardware, hardware.repr, pm, pm.memory, pm.frameBitmap, pm.entries
      ensures SysWf(cfg, s)
    {
      Sys(clock, lastTick, queues.now, hardware.now, pm.Snapshot())
    }

    /** Takes over a scheduler's queues, a machine and a memory that share nothing. */
    constructor (queues: Queues, hardware: Hardware, pm: PhysicalMemory)
      requires queues.Valid() && hardware.Valid() && hardware.threads == queues.cfg.threads && pm.Valid()
      requires queues.repr !! hardware.repr && queues !in hardware.repr && hardware !in queues.repr
      requires {pm, pm.memory, pm.frameBitmap, pm.entries} !! queues.repr + hardware.repr
      ensures Valid() && this.cfg == queues.cfg
      ensures this.queues == queues && this.hardware == hardware && this.pm == pm
      ensures clock == 0 && lastTick == 0
    {
      this.cfg, this.queues, this.hardware, this.pm := queues.cfg, queues, hardware, pm;
      clock, lastTick := 0, 0;
    }

    method Finish(i: nat, k: nat)
      requires SchedulerValid() && i < |hardware.now| && k < |hardware.now[i]|
      modifies queues, hardware, hardware.repr
      ensures SchedulerValid()
      ensures var q, pid := old(queues.now), old(hardware.now)[i][k].pcb.pid;
              queues.now == q.(completed := q.completed + 1, log := q.log + [Completed(pid)])
      ensures var ts := old(hardware.now)[i];
              hardware.now == old(hardware.now)[i := ts[..k] + ts[k+1..]]
    {
      hide Queues.Valid, Hardware.Valid;
      var t := hardware.ThreadAt(i, k);
      queues.Complete(t.pcb.pid);
      hardware.Remove(i, k);
    }

    /** Saves the context, requeues whatever the outcome, and frees the hardware thread. */
    method Expel(i: nat, k: nat)
      requires SchedulerValid() && i < |hardware.now| && k < |hardware.now[i]|
      modifies queues, queues.repr, hardware, hardware.repr
      ensures SchedulerValid()
      ensures queues.now == Requeue(cfg, old(queues.now), Saved(cfg, clock, old(hardware.now)[i][k]))
      ensures var ts := old(hardware.now)[i];
              hardware.now == old(hardware.now)[i := ts[..k] + ts[k+1..]]
    {
      hide Queues.Valid, Hardware.Valid;
      var t := hardware.ThreadAt(i, k);
      var _ := queues.EnqueueToScheduler(Saved(cfg, clock, t));
      hardware.Remove(i, k);
    }

    /** The sweep's treatment of hardware thread `k` of core `i`. */
    method SweepSlot(i: nat, k: nat)
      requires SchedulerValid() && i < |hardware.now| && k < |hardware.now[i]|
      modifies queues, queues.repr, hardware, hardware.repr
      ensures SchedulerValid()
      ensures queues.now == Handle(cfg, clock, old(queues.now), old(hardware.now)[i][k])
      ensures hardware.now == SweptAt(cfg, old(hardware.now), i, k)
    {
      hide Queues.Valid, Hardware.Valid;
      var t := hardware.ThreadAt(i, k);
      var p := Bump(t.pcb);
      hardware.SetPcb(i, k, p);
      if Done(p) {
        Finish(i, k);
      } else if Expired(cfg, p) {
        Expel(i, k);
      }
    }

    /** One core, from its last hardware thread to its first. */
    method SweepCore(i: nat)
      requires SchedulerValid() && i < |hardware.now|
      modifies queues, queues.repr, hardware, hardware.repr
      ensures SchedulerValid()
      ensures queues.now == SweepQueues(cfg, clock, old(queues.now), Reversed(old(hardware.now)[i]))
      ensures hardware.now == old(hardware.now)[i := Kept(cfg, old(hardware.now)[i])]
    {
      hide Queues.Valid, Hardware.Valid;
      ghost var cs, q0 := hardware.now, queues.now;
      ghost var ts := cs[i];
      SweptStart(cfg, cs, i);
      var n := hardware.Count(i);
      for k := n downto 0
        invariant k <= |ts| && SchedulerValid()
        invariant hardware.now == SweptFrom(cfg, cs, i, k)
        invariant queues.now == SweepQueues(cfg, clock, q0, Reversed(ts[k..]))
      {
        SweptSuffix(cfg, clock, q0, cs, i, k);
        SweepSlot(i, k);
      }
      assert ts[0..] == ts;
    }

    method Sweep()
      requires SchedulerValid()
      modifies queues, queues.repr, hardware, hardware.repr
      ensures SchedulerValid()
      ensures queues.now == SweepQueues(cfg, clock, old(queues.now), Order(old(hardware.now)))
      ensures hardware.now == KeptCores(cfg, old(hardware.now))
    {
      hide Queues.Valid, Hardware.Valid;
      ghost var cs, q0 := hardware.now, queues.now;
      SweptUpToAll(cfg, clock, q0, cs);
      for i := 0 to |hardware.cores|
        invariant SchedulerValid()
        invariant hardware.now == SweptUpTo(cfg, cs, i)
        invariant queues.now == SweepQueues(cfg, clock, q0, Order(cs[..i]))
      {
        SweptUpToNext(cfg, clock, q0, cs, i);
        SweepCore(i);
      }
    }

    /** Starts one waiting process. The source's fallback for a refused assignment is dead code:
        the loop guard has just found room. */
    method DispatchNext()
      requires SchedulerValid() && CanDispatch(cfg, queues.now, hardware.now)
      modifies queues, queues.repr, hardware, hardware.repr
      ensures SchedulerValid()
      ensures (queues.now, hardware.now) ==
              DispatchOne(cfg, clock, old(queues.now), old(hardware.now))
    {
      hide Queues.Valid, Hardware.Valid;
      var next := queues.SelectNextProcess();
      var p := next.value;
      queues.Record(Dispatched(p.pid));
      var ok := hardware.Assign(cfg, Launched(cfg, clock, p));
      assert ok;
    }

    method DispatchReady()
      requires SchedulerValid()
      modifies queues, queues.repr, hardware, hardware.repr
      ensures SchedulerValid()
      ensures (queues.now, hardware.now) ==
              Dispatch(cfg, clock, old(queues.now), old(hardware.now))
    {
      hide Queues.Valid, Hardware.Valid;
      var ready := queues.HasReadyProcesses();
      var room := hardware.CanExecute(cfg);
      while ready && room
        invariant SchedulerValid()
        invariant ready == HasReady(cfg, queues.now) && room == Scheduler.HasRoom(cfg, hardware.now)
        invariant Dispatch(cfg, clock, queues.now, hardware.now) ==
                  Dispatch(cfg, clock, old(queues.now), old(hardware.now))
        decreases FreeSlots(cfg, hardware.now)
      {
        DispatchNext();
        ready := queues.HasReadyProcesses();
        room := hardware.CanExecute(cfg);
      }
    }

    /** One activation of the scheduler thread. */
    method Activate()
      requires Valid()
      modifies this`lastTick, queues, queues.repr, hardware, hardware.repr
      ensures Valid()
      ensures State() == Scheduler.Activate(cfg, old(State()))
    {
      hide Queues.Valid, Hardware.Valid;
      if cfg.sync == ClockSync {
        if clock == lastTick {
          return;
        }
        lastTick := clock;
      }
      Sweep();
      if cfg.policy == PreemptivePrio {
        var room := hardware.CanExecute(cfg);
        queues.TransferArrivals(room);
      }
      DispatchReady();
    }

    method TickAllCores()
      requires Valid()
      modifies hardware, hardware.repr, pm.memory, pm.entries
      ensures Valid() && queues.now == old(queues.now)
      ensures (hardware.now, pm.Snapshot()) == TickCores(old(hardware.now), old(pm.Snapshot()))
    {
      hide Queues.Valid, Hardware.Valid, CoresTicked, TickCores, TickThreads;
      ghost var cs, m0 := hardware.now, pm.Snapshot();
      CoresTickedAll(cs, m0, cs, m0);
      for i := 0 to |hardware.cores|
        invariant Valid()
        invariant CoresTicked(cs, m0, i, hardware.now, pm.Snapshot())
      {
        CoresTickedNext(cs, m0, i, hardware.now, pm.Snapshot());
        hardware.TickCore(i, pm);
      }
      CoresTickedAll(cs, m0, hardware.now, pm.Snapshot());
    }

    /** One tick of the clock thread. */
    method Tick()
      requires Valid()
      modifies this`clock, hardware, hardware.repr, pm.memory, pm.entries
      ensures Valid()
      ensures State() == Scheduler.Tick(cfg, old(State()))
    {
      hide Queues.Valid, Hardware.Valid;
      clock := clock + 1;
      TickAllCores();
    }
  }

  /** The cores once thread `k` of core `i` has been handled. */
  function SweptAt(cfg: Config, cs: seq<seq<Thread>>, i: nat, k: nat): seq<seq<Thread>>
    requires i < |cs| && k < |cs[i]|
  {
    var ts := cs[i];
    cs[i := if Stays(cfg, ts[k]) then ts[k := ts[k].(pcb := Bump(ts[k].pcb))] else ts[..k] + ts[k+1..]]
  }

  /** The cores once the threads of core `i` from `k` on have been handled. */
  function SweptFrom(cfg: Config, cs: seq<seq<Thread>>, i: nat, k: nat): (r: seq<seq<Thread>>)
    requires i < |cs| && k <= |cs[i]|
    ensures |r| == |cs| && k <= |r[i]|
  {
    cs[i := cs[i][..k] + Kept(cfg, cs[i][k..])]
  }

  lemma SweptStart(cfg: Config, cs: seq<seq<Thread>>, i: nat)
    requires i < |cs|
    ensures SweptFrom(cfg, cs, i, |cs[i]|) == cs
    ensures cs[i][|cs[i]|..] == []
    ensures SweptFrom(cfg, cs, i, 0) == cs[i := Kept(cfg, cs[i])]
  {
    assert cs[i][0..] == cs[i] && cs[i][..|cs[i]|] + [] == cs[i];
    assert cs[i][..0] + Kept(cfg, cs[i]) == Kept(cfg, cs[i]);
  }

  /** Handling thread `k` extends the swept suffix by one. */
  lemma {:induction false} SweptSuffix(cfg: Config, clock: int, q: Sched, cs: seq<seq<Thread>>, i: nat, k: nat)
    requires SchedWf(cfg, q) && i < |cs| && k < |cs[i]|
    ensures SweepQueues(cfg, clock, q, Reversed(cs[i][k..])) ==
            Handle(cfg, clock, SweepQueues(cfg, clock, q, Reversed(cs[i][k+1..])), cs[i][k])
    ensures SweptFrom(cfg, cs, i, k + 1)[i][k] == cs[i][k]
    ensures SweptFrom(cfg, cs, i, k) == SweptAt(cfg, SweptFrom(cfg, cs, i, k + 1), i, k)
  {
    var ts := cs[i];
    assert ts[k..][1..] == ts[k+1..];
    KeptCons(cfg, ts[k..]);
    var r := Reversed(ts[k+1..]) + [ts[k]];
    assert r[..|r|-1] == Reversed(ts[k+1..]);
    var now := ts[..k+1] + Kept(cfg, ts[k+1..]);
    assert ts[..k] + Kept(cfg, ts[k..]) ==
           if Stays(cfg, ts[k]) then now[k := ts[k].(pcb := Bump(ts[k].pcb))] else now[..k] + now[k+1..];
  }
}
