/** The scheduler's decisions and the whole system as a state machine over two atomic steps
    (sys/process.c:333-444, 576-777; sys/clock.c:32-77). Both run under one mutex. */
module Scheduler {
  import opened CArith
  import opened Memory
  import opened Process
  import opened Machine

  datatype Policy = RoundRobin | Bfs | PreemptivePrio
  datatype SyncMode = ClockSync | TimerSync

  /** `threads` is the number of hardware threads of each core. */
  datatype Config = Config(quantum: nat, policy: Policy, sync: SyncMode, readyCapacity: nat, threads: nat)

  function LevelCapacity(cfg: Config): nat {
    if cfg.readyCapacity / NUM_PRIORITY_LEVELS < 2 then 2 else cfg.readyCapacity / NUM_PRIORITY_LEVELS
  }

  /** The scheduler's trace. */
  datatype Event = Enqueued(pid: int) | Dispatched(pid: int) | Completed(pid: int)

  /** `preempted` records that the branch calling `preempt_lower_priority_processes` was entered. */
  datatype Sched = Sched(ready: seq<PCB>, levels: seq<seq<PCB>>, completed: nat, log: seq<Event>,
                         preempted: bool)

  datatype Sys = Sys(clock: int, lastTick: int, sched: Sched, cores: seq<seq<Thread>>, mem: Mem)

  ghost predicate SchedWf(cfg: Config, q: Sched) {
    && |q.ready| <= cfg.readyCapacity
    && |q.levels| == (if cfg.policy == PreemptivePrio then NUM_PRIORITY_LEVELS else 0)
    && forall i :: 0 <= i < |q.levels| ==> |q.levels[i]| <= LevelCapacity(cfg)
  }

  ghost predicate CoresWf(cfg: Config, cores: seq<seq<Thread>>) {
    forall i :: 0 <= i < |cores| ==> |cores[i]| <= cfg.threads
  }

  ghost predicate SysWf(cfg: Config, s: Sys) {
    SchedWf(cfg, s.sched) && CoresWf(cfg, s.cores) && Shaped(s.mem)
  }

  // ------------------------------------------------------------------ queues

  function LevelOf(p: PCB): int { p.priority - MIN_PRIORITY }

  /** `enqueue_to_scheduler`; None is its error return. */
  function EnqueueTo(cfg: Config, q: Sched, p: PCB): (r: Option<Sched>)
    requires SchedWf(cfg, q)
    ensures r.Some? ==> SchedWf(cfg, r.value)
    ensures r.Some? && cfg.policy == PreemptivePrio ==> r.value.ready == q.ready
  {
    var log := q.log + [Enqueued(p.pid)];
    if cfg.policy == PreemptivePrio then
      if p.priority < MIN_PRIORITY || p.priority > MAX_PRIORITY then None
      else if |q.levels[LevelOf(p)]| >= LevelCapacity(cfg) then None
      else Some(q.(levels := q.levels[LevelOf(p) := q.levels[LevelOf(p)] + [p]], log := log))
    else if |q.ready| >= cfg.readyCapacity then None
    else Some(q.(ready := q.ready + [p], log := log))
  }

  /** The requeue after a quantum ignores the error return: a refused process is lost. */
  function Requeue(cfg: Config, q: Sched, p: PCB): (r: Sched)
    requires SchedWf(cfg, q)
    ensures SchedWf(cfg, r)
  {
    match EnqueueTo(cfg, q, p)
    case None => q
    case Some(r) => r
  }

  /** First level, from the highest priority, that is not empty. */
  function FirstLevel(levels: seq<seq<PCB>>, from: nat): (i: nat)
    requires from <= |levels|
    ensures from <= i <= |levels|
    ensures i < |levels| ==> levels[i] != []
    ensures forall k :: from <= k < i ==> levels[k] == []
    decreases |levels| - from
  {
    if from == |levels| || levels[from] != [] then from else FirstLevel(levels, from + 1)
  }

  predicate HasReady(cfg: Config, q: Sched) {
    if cfg.policy == PreemptivePrio then FirstLevel(q.levels, 0) < |q.levels| else q.ready != []
  }

  /** `select_next_process`. */
  function SelectNext(cfg: Config, q: Sched): (r: (PCB, Sched))
    requires SchedWf(cfg, q) && HasReady(cfg, q)
    ensures SchedWf(cfg, r.1)
  {
    match cfg.policy
    case RoundRobin => (q.ready[0], q.(ready := q.ready[1..]))
    case Bfs =>
      var m := Scan(q.ready).1;
      (q.ready[m], q.(ready := ShiftOut(q.ready, m, cfg.readyCapacity)))
    case PreemptivePrio =>
      var i := FirstLevel(q.levels, 0);
      (q.levels[i][0], q.(levels := q.levels[i := q.levels[i][1..]]))
  }

  // ------------------------------------------------------------------ the sweep

  /** Offset of a virtual deadline: a share of the quantum set by the priority. */
  function DeadlineOffset(cfg: Config, p: PCB): int {
    TruncDiv(cfg.quantum * p.priority, 100)
  }

  function Bump(p: PCB): PCB {
    p.(quantumCounter := p.quantumCounter + 1)
  }

  predicate Done(p: PCB) {
    p.state == Terminated || p.ttl <= 0
  }

  predicate Expired(cfg: Config, p: PCB) {
    match cfg.sync
    case TimerSync => p.quantumCounter >= 1
    case ClockSync => p.quantumCounter >= cfg.quantum
  }

  /** The PCB that goes back to the queue, with its context saved. */
  function Saved(cfg: Config, clock: int, t: Thread): PCB {
    t.pcb.(context := t.ctx, state := Waiting, quantumCounter := 0,
           deadline := if cfg.policy == Bfs then clock + DeadlineOffset(cfg, t.pcb) else t.pcb.deadline)
  }

  predicate Stays(cfg: Config, t: Thread) {
    !Done(Bump(t.pcb)) && !Expired(cfg, Bump(t.pcb))
  }

  /** What the sweep does to the queues on account of one thread. */
  function Handle(cfg: Config, clock: int, q: Sched, t: Thread): (r: Sched)
    requires SchedWf(cfg, q)
    ensures SchedWf(cfg, r)
  {
    var p := Bump(t.pcb);
    if Done(p) then q.(completed := q.completed + 1, log := q.log + [Completed(p.pid)])
    else if Expired(cfg, p) then Requeue(cfg, q, Saved(cfg, clock, t.(pcb := p)))
    else q
  }

  function Reversed<T>(s: seq<T>): (r: seq<T>)
    ensures |r| == |s|
  {
    if s == [] then [] else Reversed(s[1..]) + [s[0]]
  }

  /** Every executing thread in the order the sweep meets them: core by core, each backwards. */
  function Order(cores: seq<seq<Thread>>): seq<Thread> {
    if cores == [] then [] else Order(cores[..|cores|-1]) + Reversed(cores[|cores|-1])
  }

  function SweepQueues(cfg: Config, clock: int, q: Sched, ts: seq<Thread>): (r: Sched)
    requires SchedWf(cfg, q)
    ensures SchedWf(cfg, r)
  {
    if ts == [] then q
    else Handle(cfg, clock, SweepQueues(cfg, clock, q, ts[..|ts|-1]), ts[|ts|-1])
  }

  /** The threads of a core that survive the sweep, in place. */
  function Kept(cfg: Config, ts: seq<Thread>): (r: seq<Thread>)
    ensures |r| <= |ts|
  {
    if ts == [] then []
    else
      var t := ts[|ts|-1];
      Kept(cfg, ts[..|ts|-1]) + (if Stays(cfg, t) then [t.(pcb := Bump(t.pcb))] else [])
  }

  function KeptCores(cfg: Config, cores: seq<seq<Thread>>): (r: seq<seq<Thread>>)
    ensures |r| == |cores|
    ensures forall i :: 0 <= i < |cores| ==> r[i] == Kept(cfg, cores[i])
  {
    seq(|cores|, i requires 0 <= i < |cores| => Kept(cfg, cores[i]))
  }

  // ------------------------------------------------------------------ transfer and dispatch

  /** Arrivals move to their priority queue; the first refusal goes back to the rear and stops. */
  function Transfer(cfg: Config, room: bool, q: Sched): (r: Sched)
    requires SchedWf(cfg, q) && cfg.policy == PreemptivePrio
    ensures SchedWf(cfg, r)
    decreases |q.ready|
  {
    if q.ready == [] then q
    else
      var p := q.ready[0];
      var rest := q.(ready := q.ready[1..], preempted := q.preempted || !room);
      match EnqueueTo(cfg, rest, p)
      case Some(r) => Transfer(cfg, room, r)
      case None => rest.(ready := rest.ready + [p])
  }

  /** First core with a free hardware thread. */
  function FirstFree(cfg: Config, cores: seq<seq<Thread>>, from: nat): (i: nat)
    requires from <= |cores|
    ensures from <= i <= |cores|
    ensures i < |cores| ==> |cores[i]| < cfg.threads
    ensures forall k :: from <= k < i ==> |cores[k]| >= cfg.threads
    decreases |cores| - from
  {
    if from == |cores| || |cores[from]| < cfg.threads then from else FirstFree(cfg, cores, from + 1)
  }

  /** `can_cpu_execute_process`. */
  predicate HasRoom(cfg: Config, cores: seq<seq<Thread>>) {
    FirstFree(cfg, cores, 0) < |cores|
  }

  function FreeSlots(cfg: Config, cores: seq<seq<Thread>>): nat
    requires CoresWf(cfg, cores)
  {
    if cores == [] then 0
    else FreeSlots(cfg, cores[..|cores|-1]) + (cfg.threads - |cores[|cores|-1]|)
  }

  function Put(cores: seq<seq<Thread>>, i: nat, t: Thread): (r: seq<seq<Thread>>)
    requires i < |cores|
    ensures |r| == |cores|
  {
    cores[i := cores[i] + [t]]
  }

  lemma {:induction false} PutTakesSlot(cfg: Config, cores: seq<seq<Thread>>, i: nat, t: Thread)
    requires CoresWf(cfg, cores) && i < |cores| && |cores[i]| < cfg.threads
    ensures CoresWf(cfg, Put(cores, i, t))
    ensures FreeSlots(cfg, Put(cores, i, t)) == FreeSlots(cfg, cores) - 1
  {
    var n := |cores| - 1;
    if i < n {
      PutTakesSlot(cfg, cores[..n], i, t);
      assert Put(cores, i, t)[..n] == Put(cores[..n], i, t);
    } else {
      assert Put(cores, i, t)[..n] == cores[..n];
    }
  }

  /** The PCB as it starts to run; BFS gives a first-timer its deadline here. */
  function Launched(cfg: Config, clock: int, p: PCB): PCB {
    p.(state := Running, quantumCounter := 0,
       deadline := if cfg.policy == Bfs && p.deadline == 0 then clock + DeadlineOffset(cfg, p) else p.deadline)
  }

  /** `assign_process_to_core` restores the saved context. */
  function Restored(cfg: Config, clock: int, p: PCB): Thread {
    Thread(Launched(cfg, clock, p), p.context)
  }

  predicate CanDispatch(cfg: Config, q: Sched, cores: seq<seq<Thread>>) {
    HasReady(cfg, q) && HasRoom(cfg, cores)
  }

  function DispatchOne(cfg: Config, clock: int, q: Sched, cores: seq<seq<Thread>>): (r: (Sched, seq<seq<Thread>>))
    requires SchedWf(cfg, q) && CoresWf(cfg, cores) && CanDispatch(cfg, q, cores)
    ensures SchedWf(cfg, r.0) && CoresWf(cfg, r.1)
    ensures FreeSlots(cfg, r.1) == FreeSlots(cfg, cores) - 1
  {
    var (p, q') := SelectNext(cfg, q);
    var i := FirstFree(cfg, cores, 0);
    var t := Restored(cfg, clock, p);
    PutTakesSlot(cfg, cores, i, t);
    (q'.(log := q'.log + [Dispatched(p.pid)]), Put(cores, i, t))
  }

  function Dispatch(cfg: Config, clock: int, q: Sched, cores: seq<seq<Thread>>): (r: (Sched, seq<seq<Thread>>))
    requires SchedWf(cfg, q) && CoresWf(cfg, cores)
    ensures SchedWf(cfg, r.0) && CoresWf(cfg, r.1)
    ensures !CanDispatch(cfg, r.0, r.1)
    decreases FreeSlots(cfg, cores)
  {
    if CanDispatch(cfg, q, cores) then
      var (q', cores') := DispatchOne(cfg, clock, q, cores);
      Dispatch(cfg, clock, q', cores')
    else (q, cores)
  }

  // ------------------------------------------------------------------ the two steps

  /** The queues when the dispatch loop starts. */
  function BeforeDispatch(cfg: Config, s: Sys): (r: Sched)
    requires SysWf(cfg, s)
    ensures SchedWf(cfg, r)
  {
    var q := SweepQueues(cfg, s.clock, s.sched, Order(s.cores));
    if cfg.policy == PreemptivePrio then Transfer(cfg, HasRoom(cfg, KeptCores(cfg, s.cores)), q) else q
  }

  predicate Wakes(cfg: Config, s: Sys) {
    cfg.sync == TimerSync || s.clock != s.lastTick
  }

  /** One scheduler activation. Under clock sync it waits until the clock has moved. */
  function Activate(cfg: Config, s: Sys): (r: Sys)
    requires SysWf(cfg, s)
    ensures SysWf(cfg, r)
  {
    if !Wakes(cfg, s) then s
    else
      var (q, cores) := Dispatch(cfg, s.clock, BeforeDispatch(cfg, s), KeptCores(cfg, s.cores));
      Sys(s.clock, if cfg.sync == ClockSync then s.clock else s.lastTick, q, cores, s.mem)
  }

  function TickCores(cores: seq<seq<Thread>>, m: Mem): (r: (seq<seq<Thread>>, Mem))
    requires Shaped(m)
    ensures Shaped(r.1) && |r.0| == |cores|
    ensures forall i :: 0 <= i < |cores| ==> |r.0[i]| == |cores[i]|
  {
    if cores == [] then ([], m)
    else
      var n := |cores| - 1;
      var (before, m') := TickCores(cores[..n], m);
      var (last, m'') := TickThreads(cores[n], m');
      (before + [last], m'')
  }

  /** One clock tick. */
  function Tick(cfg: Config, s: Sys): (r: Sys)
    requires SysWf(cfg, s)
    ensures SysWf(cfg, r)
  {
    var (cores, m) := TickCores(s.cores, s.mem);
    s.(clock := s.clock + 1, cores := cores, mem := m)
  }

  datatype Step = ClockTick | Activation

  function Next(cfg: Config, s: Sys, e: Step): (r: Sys)
    requires SysWf(cfg, s)
    ensures SysWf(cfg, r)
  {
    match e
    case ClockTick => Tick(cfg, s)
    case Activation => Activate(cfg, s)
  }

  /** Any interleaving of ticks and activations. */
  function Run(cfg: Config, s: Sys, es: seq<Step>): (r: Sys)
    requires SysWf(cfg, s)
    ensures SysWf(cfg, r)
  {
    if es == [] then s else Next(cfg, Run(cfg, s, es[..|es|-1]), es[|es|-1])
  }
}
