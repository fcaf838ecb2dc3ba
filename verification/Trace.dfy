/** What the scheduler's trace says: at any moment of any run the processes reported as completed are those
    that have left, by name and not just by number (sys/process.c:603-626). */
module Trace {
  import opened Machine
  import opened Scheduler
  import opened Population
  import opened Conservation

  /** Pids reported as completed. */
  ghost function Reported(log: seq<Event>): multiset<int> {
    if log == [] then multiset{}
    else Reported(log[..|log|-1])
         + match log[|log|-1]
           case Completed(pid) => multiset{pid}
           case _ => multiset{}
  }

  lemma ReportedNext(log: seq<Event>, e: Event)
    ensures Reported(log + [e]) == Reported(log) + if e.Completed? then multiset{e.pid} else multiset{}
  {
  }

  lemma {:induction false} SweepReports(cfg: Config, clock: int, q: Sched, ts: seq<Thread>)
    requires SchedWf(cfg, q)
    ensures var r := SweepQueues(cfg, clock, q, ts);
            Reported(r.log) == Reported(q.log) + Gone(Pid, ts) && r.completed == q.completed + |Gone(Pid, ts)|
  {
    if ts != [] {
      var t := ts[|ts|-1];
      var before := SweepQueues(cfg, clock, q, ts[..|ts|-1]);
      SweepReports(cfg, clock, q, ts[..|ts|-1]);
      HandleReports(cfg, clock, before, t);
    }
  }

  lemma HandleReports(cfg: Config, clock: int, q: Sched, t: Thread)
    requires SchedWf(cfg, q)
    ensures var r := Handle(cfg, clock, q, t); var gone := Done(Bump(t.pcb));
            && Reported(r.log) == Reported(q.log) + (if gone then multiset{t.pcb.pid} else multiset{})
            && r.completed == q.completed + if gone then 1 else 0
  {
    hide Reported, Expired, Saved;
    ReportedNext(q.log, Completed(t.pcb.pid));
    ReportedNext(q.log, Enqueued(Saved(cfg, clock, t.(pcb := Bump(t.pcb))).pid));
  }

  lemma {:induction false} TransferReports(cfg: Config, room: bool, q: Sched)
    requires SchedWf(cfg, q) && cfg.policy == PreemptivePrio
    ensures var r := Transfer(cfg, room, q); Reported(r.log) == Reported(q.log) && r.completed == q.completed
    decreases |q.ready|
  {
    hide Reported;
    if q.ready != [] {
      var p := q.ready[0];
      var rest := q.(ready := q.ready[1..], preempted := q.preempted || !room);
      ReportedNext(rest.log, Enqueued(p.pid));
      match EnqueueTo(cfg, rest, p)
      case Some(r) => TransferReports(cfg, room, r);
      case None =>
    }
  }

  lemma {:induction false} DispatchReports(cfg: Config, clock: int, q: Sched, cores: seq<seq<Thread>>)
    requires SchedWf(cfg, q) && CoresWf(cfg, cores)
    ensures var r := Dispatch(cfg, clock, q, cores).0; Reported(r.log) == Reported(q.log) && r.completed == q.completed
    decreases FreeSlots(cfg, cores)
  {
    hide Reported;
    if CanDispatch(cfg, q, cores) {
      var (q', cores') := DispatchOne(cfg, clock, q, cores);
      ReportedNext(SelectNext(cfg, q).1.log, Dispatched(SelectNext(cfg, q).0.pid));
      DispatchReports(cfg, clock, q', cores');
    }
  }

  /** An activation reports, and counts, exactly the processes it finds terminated or out of life. */
  lemma ActivateReports(cfg: Config, s: Sys)
    requires SysWf(cfg, s) && Wakes(cfg, s)
    ensures var r, gone := Activate(cfg, s).sched, Gone(Pid, Order(s.cores));
            Reported(r.log) == Reported(s.sched.log) + gone && r.completed == s.sched.completed + |gone|
  {
    hide Reported, SweepQueues, Transfer, Dispatch, Gone;
    SweepReports(cfg, s.clock, s.sched, Order(s.cores));
    if cfg.policy == PreemptivePrio {
      TransferReports(cfg, HasRoom(cfg, KeptCores(cfg, s.cores)), SweepQueues(cfg, s.clock, s.sched, Order(s.cores)));
    }
    DispatchReports(cfg, s.clock, BeforeDispatch(cfg, s), KeptCores(cfg, s.cores));
  }

  /** At any load: the counter counts the reports. */
  lemma {:induction false} ReportsAreCounted(cfg: Config, s: Sys, es: seq<Step>)
    requires SysWf(cfg, s)
    ensures var now := Run(cfg, s, es).sched;
            now.completed - s.sched.completed == |Reported(now.log)| - |Reported(s.sched.log)|
  {
    hide Reported, Activate, Tick;
    if es != [] {
      var now := Run(cfg, s, es[..|es|-1]);
      ReportsAreCounted(cfg, s, es[..|es|-1]);
      match es[|es|-1]
      case ClockTick => TickIsSilent(cfg, now);
      case Activation =>
        if Wakes(cfg, now) {
          ActivateReports(cfg, now);
        } else {
          SleepsOn(cfg, now);
        }
    }
  }

  lemma TickIsSilent(cfg: Config, s: Sys)
    requires SysWf(cfg, s)
    ensures Tick(cfg, s).sched == s.sched
  {
  }

  lemma SleepsOn(cfg: Config, s: Sys)
    requires SysWf(cfg, s) && !Wakes(cfg, s)
    ensures Activate(cfg, s) == s
  {
  }

  /** With a load that fits, at any moment of any run every process of the load is either live or has been
      reported as completed, and is so exactly once. */
  lemma {:induction false} LiveOrReported(cfg: Config, s: Sys, es: seq<Step>)
    requires Loaded(cfg, s)
    ensures var now := Run(cfg, s, es);
            Live(Pid, now) + Reported(now.sched.log) == Live(Pid, s) + Reported(s.sched.log)
  {
    hide Reported, Activate, Tick, Live, Conserved;
    if es != [] {
      var now := Run(cfg, s, es[..|es|-1]);
      LiveOrReported(cfg, s, es[..|es|-1]);
      match es[|es|-1]
      case ClockTick =>
        TickIsSilent(cfg, now);
        TickConserves(cfg, now, Pid);
      case Activation =>
        if Wakes(cfg, now) {
          ActivateReports(cfg, now);
          RunConserves(cfg, s, es[..|es|-1]);
          ActivateConserves(cfg, now, Live(Pid, s), Live(Priority, s));
        } else {
          SleepsOn(cfg, now);
        }
    }
  }
}
