/** Round Robin: how long a waiting process can wait. */
module RoundRobinFairness {
  import opened Process
  import opened Machine
  import opened Scheduler
  import opened Population
  import opened Conservation
  import opened Termination

  /** Activations after which a hardware thread changes hands. */
  function Slice(cfg: Config): nat {
    if cfg.sync == ClockSync then cfg.quantum else 1
  }

  function Threads(cfg: Config, s: Sys): nat {
    |s.cores| * cfg.threads
  }

  // ------------------------------------------------------------------ counters

  /** Threads that have been through at least `k` activations of their slice. */
  ghost function Old(ts: seq<Thread>, k: int): nat {
    if ts == [] then 0
    else Old(ts[..|ts|-1], k) + (if ts[|ts|-1].pcb.quantumCounter >= k then 1 else 0)
  }

  lemma {:induction false} OldAppend(a: seq<Thread>, b: seq<Thread>, k: int)
    ensures Old(a + b, k) == Old(a, k) + Old(b, k)
  {
    if b == [] {
      assert a + b == a;
    } else {
      assert (a + b)[..|a + b|-1] == a + b[..|b|-1];
      OldAppend(a, b[..|b|-1], k);
    }
  }

  lemma {:induction false} OldBounds(ts: seq<Thread>, k: int)
    ensures Old(ts, k) <= |ts|
    ensures (forall i :: 0 <= i < |ts| ==> ts[i].pcb.quantumCounter >= k) ==> Old(ts, k) == |ts|
    ensures (forall i :: 0 <= i < |ts| ==> ts[i].pcb.quantumCounter < k) ==> Old(ts, k) == 0
  {
    if ts != [] {
      OldBounds(ts[..|ts|-1], k);
    }
  }

  /** A sweep ages the survivors by one and drops the rest. */
  lemma {:induction false} OldKept(cfg: Config, ts: seq<Thread>, k: int)
    ensures Old(Kept(cfg, ts), k + 1) + (|ts| - |Kept(cfg, ts)|) >= Old(ts, k)
  {
    if ts != [] {
      var t := ts[|ts|-1];
      OldKept(cfg, ts[..|ts|-1], k);
      OldAppend(Kept(cfg, ts[..|ts|-1]), Survivor(cfg, t), k + 1);
      assert Stays(cfg, t) ==> Survivor(cfg, t)[..0] == [];
    }
  }

  lemma {:induction false} OldSame(a: seq<Thread>, b: seq<Thread>, k: int)
    requires |a| == |b| && forall i :: 0 <= i < |a| ==> a[i].pcb.quantumCounter == b[i].pcb.quantumCounter
    ensures Old(a, k) == Old(b, k)
  {
    if a != [] {
      OldSame(a[..|a|-1], b[..|b|-1], k);
    }
  }

  // ------------------------------------------------------------------ the queue is a queue

  lemma {:induction false} SweepAppends(cfg: Config, clock: int, q: Sched, ts: seq<Thread>)
    requires SchedWf(cfg, q)
    ensures var q' := SweepQueues(cfg, clock, q, ts);
            && q.log <= q'.log && (cfg.policy != PreemptivePrio ==> q.ready <= q'.ready)
  {
    if ts != [] {
      SweepAppends(cfg, clock, q, ts[..|ts|-1]);
    }
  }

  /** Round Robin dispatch takes a prefix of the ready queue, one process per thread started. */
  lemma {:induction false} DispatchTakesPrefix(cfg: Config, clock: int, q: Sched, cores: seq<seq<Thread>>)
    returns (d: nat)
    requires SchedWf(cfg, q) && CoresWf(cfg, cores) && cfg.policy == RoundRobin
    ensures d <= |q.ready|
    ensures var (q', cores') := Dispatch(cfg, clock, q, cores);
            && q'.ready == q.ready[d..] && |Order(cores')| == |Order(cores)| + d
            && q.log <= q'.log
            && (forall i :: 0 <= i < d ==> Dispatched(q.ready[i].pid) in q'.log[|q.log|..])
            && (forall k: int :: k >= 1 ==> Old(Order(cores'), k) == Old(Order(cores), k))
    decreases FreeSlots(cfg, cores)
  {
    if CanDispatch(cfg, q, cores) {
      var t := Restored(cfg, clock, q.ready[0]);
      var (q1, cores1) := DispatchOne(cfg, clock, q, cores);
      var a, b := OrderPut(cores, FirstFree(cfg, cores, 0), t);
      forall k: int | k >= 1 ensures Old(a + [t] + b, k) == Old(a + b, k) {
        OldAppend(a, b, k);
        OldAppend(a, [t], k);
        OldAppend(a + [t], b, k);
        assert [t][..0] == [];
      }
      var e := DispatchTakesPrefix(cfg, clock, q1, cores1);
      d := e + 1;
      var q' := Dispatch(cfg, clock, q1, cores1).0;
      assert q'.log[|q.log|] == Dispatched(q.ready[0].pid);
      forall i | 0 <= i < d ensures Dispatched(q.ready[i].pid) in q'.log[|q.log|..] {
        if i > 0 {
          assert q1.ready[i-1] == q.ready[i];
          assert q'.log[|q.log|..][1..] == q'.log[|q1.log|..];
        }
      }
    } else {
      d := 0;
    }
  }

  // ------------------------------------------------------------------ one turn

  /** The slice has not run out. */
  predicate Young(cfg: Config, t: Thread) {
    0 <= t.pcb.quantumCounter < Slice(cfg)
  }

  /** What every policy keeps between activations: no slice has run out, and no thread idles while
      anybody waits. */
  ghost predicate Fair(cfg: Config, s: Sys, pids: multiset<int>, prios: multiset<int>) {
    && SysWf(cfg, s) && cfg.quantum >= 1
    && Conserved(cfg, s, pids, prios) && WorkConserving(cfg, s) && s.lastTick <= s.clock
    && EachExecuting(s.cores, t => Young(cfg, t))
  }

  /** Ticks take nothing off a slice. */
  lemma TicksKeepYoung(cfg: Config, s: Sys, k: nat, pids: multiset<int>, prios: multiset<int>)
    requires SysWf(cfg, s) && Conserved(cfg, s, pids, prios) && EachExecuting(s.cores, t => Young(cfg, t))
    ensures EachExecuting(Ticks(cfg, s, k).cores, t => Young(cfg, t))
  {
    hide Conserved, Ticks, Order;
    TicksOnlyTick(cfg, s, k, pids, prios);
  }

  lemma OneTurnWakes(cfg: Config, k: nat)
    requires Wakeful(cfg, [k])
    ensures cfg.sync == ClockSync ==> k >= 1
  {
    assert cfg.sync == ClockSync ==> [k][0] >= 1;
  }

  lemma ActivateStaysFair(cfg: Config, s: Sys, pids: multiset<int>, prios: multiset<int>)
    requires SysWf(cfg, s) && cfg.quantum >= 1 && Wakes(cfg, s)
    requires Conserved(cfg, s, pids, prios) && s.lastTick <= s.clock
    requires EachExecuting(s.cores, t => Young(cfg, t))
    ensures Fair(cfg, Activate(cfg, s), pids, prios) && |Activate(cfg, s).cores| == |s.cores|
  {
    hide Conserved, SweepQueues, Kept, Dispatch, EachThread, EachWaiting;
    ActivateConserves(cfg, s, pids, prios);
    ActivateIsWorkConserving(cfg, s, pids, prios);
    EverybodyWaits(s.sched);
    ActivateEach(cfg, s, AnyProcess, t => Young(cfg, t), t => Young(cfg, t));
  }

  predicate AnyProcess(p: PCB) { true }

  lemma EverybodyWaits(q: Sched)
    ensures EachWaiting(q, AnyProcess)
  {
  }

  /** A busy machine has every hardware thread occupied. */
  lemma BusyWhileWaiting(cfg: Config, s: Sys)
    requires SysWf(cfg, s) && WorkConserving(cfg, s) && s.sched.ready != []
    ensures |Order(s.cores)| == Threads(cfg, s)
  {
    TallyHead(Pid, s.sched.ready);
    assert s.sched.ready[0].pid in Queued(Pid, s.sched);
    FullMachineExecutes(cfg, s.cores);
  }

  ghost predicate DispatchedSince(s: Sys, r: Sys, pid: int) {
    s.sched.log <= r.sched.log && Dispatched(pid) in r.sched.log[|s.sched.log|..]
  }

  /** Between `s` and `r`, `d` processes left the front of the ready queue: either the one at index
      `p` was among them, or it moved up by `d`. */
  ghost predicate Advanced(s: Sys, r: Sys, p: nat, d: nat)
    requires p < |s.sched.ready|
  {
    && s.sched.log <= r.sched.log
    && (d > p ==> DispatchedSince(s, r, s.sched.ready[p].pid))
    && (d <= p ==> p - d < |r.sched.ready| && r.sched.ready[p - d] == s.sched.ready[p])
  }

  /** One activation: everyone waiting moves up by the number of threads that changed hands, and
      all but those threads are one activation older. */
  lemma ActivationMovesUp(cfg: Config, s: Sys, p: nat, j: nat)
    returns (d: nat)
    requires SysWf(cfg, s) && cfg.policy == RoundRobin && Wakes(cfg, s) && p < |s.sched.ready|
    requires |Order(s.cores)| == Threads(cfg, s)
    requires var r := Activate(cfg, s); WorkConserving(cfg, r) && |r.cores| == |s.cores|
    ensures var r := Activate(cfg, s);
            && Advanced(s, r, p, d)
            && (d <= p ==> Old(Order(r.cores), j + 1) + d >= Old(Order(s.cores), j))
  {
    hide Dispatch, SweepQueues, Old, Order, Kept;
    var r := Activate(cfg, s);
    var q, cores := SweepQueues(cfg, s.clock, s.sched, Order(s.cores)), KeptCores(cfg, s.cores);
    SweepAppends(cfg, s.clock, s.sched, Order(s.cores));
    OrderKept(cfg, s.cores);
    OldKept(cfg, Order(s.cores), j);
    d := DispatchTakesPrefix(cfg, s.clock, q, cores);
    assert q.ready[p] == s.sched.ready[p];
    if d <= p {
      BusyWhileWaiting(cfg, r);
    } else {
      LaterSuffix(s.sched.log, q.log, r.sched.log, Dispatched(s.sched.ready[p].pid));
    }
  }

  lemma {:induction false} TurnMovesUp(cfg: Config, s: Sys, k: nat, p: nat, j: nat, pids: multiset<int>,
                                       prios: multiset<int>)
    returns (d: nat)
    requires cfg.policy == RoundRobin && Fair(cfg, s, pids, prios) && p < |s.sched.ready| && Wakeful(cfg, [k])
    ensures var r := Turn(cfg, s, k);
            && Fair(cfg, r, pids, prios) && |r.cores| == |s.cores| && Advanced(s, r, p, d)
            && (d <= p ==> Old(Order(r.cores), j + 1) + d >= Old(Order(s.cores), j))
  {
    hide Conserved, Dispatch, SweepQueues, Old, Order, Activate;
    OneTurnWakes(cfg, k);
    var u := Ticks(cfg, s, k);
    TicksOnlyTick(cfg, s, k, pids, prios);
    OldSame(Order(s.cores), Order(u.cores), j);
    TicksKeepYoung(cfg, s, k, pids, prios);
    BusyWhileWaiting(cfg, s);
    ActivateStaysFair(cfg, u, pids, prios);
    d := ActivationMovesUp(cfg, u, p, j);
  }

  lemma LaterSuffix(a: seq<Event>, b: seq<Event>, c: seq<Event>, e: Event)
    requires a <= b <= c && e in c[|b|..]
    ensures e in c[|a|..]
  {
    var i :| 0 <= i < |c[|b|..]| && c[|b|..][i] == e;
    assert c[|a|..][|b| - |a| + i] == e;
  }

  // ------------------------------------------------------------------ one slice, then all of them

  /** After `|ks|` turns the process has been dispatched, or it has moved up by as many places as
      threads changed hands, and those that did not are at least `|ks|` activations old. */
  lemma {:induction false} SliceMovesUp(cfg: Config, s: Sys, ks: seq<nat>, p: nat, pids: multiset<int>,
                                        prios: multiset<int>)
    returns (d: nat)
    requires cfg.policy == RoundRobin && Fair(cfg, s, pids, prios) && p < |s.sched.ready| && Wakeful(cfg, ks)
    ensures var r := Turns(cfg, s, ks);
            && Fair(cfg, r, pids, prios) && |r.cores| == |s.cores| && Advanced(s, r, p, d)
            && (d <= p ==> Old(Order(r.cores), |ks|) + d >= Threads(cfg, s))
  {
    hide Turn, Old, Order, Conserved, WorkConserving;
    if ks == [] {
      d := 0;
      BusyWhileWaiting(cfg, s);
      OldBounds(Order(s.cores), 0);
    } else {
      var n := |ks| - 1;
      var e := SliceMovesUp(cfg, s, ks[..n], p, pids, prios);
      var m := Turns(cfg, s, ks[..n]);
      assert Wakeful(cfg, [ks[n]]);
      if e > p {
        d := e;
        FairTurn(cfg, m, ks[n], pids, prios);
        EarlierSuffix(s.sched.log, m.sched.log, Turns(cfg, s, ks).sched.log, Dispatched(s.sched.ready[p].pid));
      } else {
        var f := TurnMovesUp(cfg, m, ks[n], p - e, n, pids, prios);
        d := e + f;
        if d > p {
          LaterSuffix(s.sched.log, m.sched.log, Turns(cfg, s, ks).sched.log, Dispatched(s.sched.ready[p].pid));
        }
      }
    }
  }

  lemma EarlierSuffix(a: seq<Event>, b: seq<Event>, c: seq<Event>, e: Event)
    requires a <= b <= c && e in b[|a|..]
    ensures e in c[|a|..]
  {
    var i :| 0 <= i < |b[|a|..]| && b[|a|..][i] == e;
    assert c[|a|..][i] == e;
  }

  lemma {:induction false} DispatchExtendsLog(cfg: Config, clock: int, q: Sched, cores: seq<seq<Thread>>)
    requires SchedWf(cfg, q) && CoresWf(cfg, cores)
    ensures q.log <= Dispatch(cfg, clock, q, cores).0.log
    decreases FreeSlots(cfg, cores)
  {
    if CanDispatch(cfg, q, cores) {
      var (q1, cores1) := DispatchOne(cfg, clock, q, cores);
      DispatchExtendsLog(cfg, clock, q1, cores1);
    }
  }

  lemma {:induction false} TransferExtendsLog(cfg: Config, room: bool, q: Sched)
    requires SchedWf(cfg, q) && cfg.policy == PreemptivePrio
    ensures q.log <= Transfer(cfg, room, q).log
    decreases |q.ready|
  {
    if q.ready != [] {
      var rest := q.(ready := q.ready[1..], preempted := q.preempted || !room);
      match EnqueueTo(cfg, rest, q.ready[0])
      case Some(r) => TransferExtendsLog(cfg, room, r);
      case None =>
    }
  }

  lemma ActivationExtendsLog(cfg: Config, s: Sys)
    requires SysWf(cfg, s)
    ensures s.sched.log <= Activate(cfg, s).sched.log
  {
    hide Dispatch, SweepQueues, Transfer;
    if Wakes(cfg, s) {
      var q := SweepQueues(cfg, s.clock, s.sched, Order(s.cores));
      SweepAppends(cfg, s.clock, s.sched, Order(s.cores));
      if cfg.policy == PreemptivePrio {
        TransferExtendsLog(cfg, HasRoom(cfg, KeptCores(cfg, s.cores)), q);
      }
      DispatchExtendsLog(cfg, s.clock, BeforeDispatch(cfg, s), KeptCores(cfg, s.cores));
    }
  }

  lemma {:induction false} FairTurn(cfg: Config, s: Sys, k: nat, pids: multiset<int>, prios: multiset<int>)
    requires Fair(cfg, s, pids, prios) && Wakeful(cfg, [k])
    ensures var r := Turn(cfg, s, k);
            Fair(cfg, r, pids, prios) && |r.cores| == |s.cores| && s.sched.log <= r.sched.log
  {
    hide Conserved, Activate, WorkConserving;
    OneTurnWakes(cfg, k);
    var u := Ticks(cfg, s, k);
    TicksOnlyTick(cfg, s, k, pids, prios);
    TicksKeepYoung(cfg, s, k, pids, prios);
    ActivateStaysFair(cfg, u, pids, prios);
    ActivationExtendsLog(cfg, u);
  }

  lemma {:induction false} FairTurns(cfg: Config, s: Sys, ks: seq<nat>, pids: multiset<int>, prios: multiset<int>)
    requires SysWf(cfg, s) && Fair(cfg, s, pids, prios) && Wakeful(cfg, ks)
    ensures Fair(cfg, Turns(cfg, s, ks), pids, prios) && s.sched.log <= Turns(cfg, s, ks).sched.log
  {
    hide Turn, Fair;
    if ks != [] {
      var n := |ks| - 1;
      FairTurns(cfg, s, ks[..n], pids, prios);
      assert Wakeful(cfg, [ks[n]]);
      FairTurn(cfg, Turns(cfg, s, ks[..n]), ks[n], pids, prios);
    }
  }

  lemma QuotientDrops(p: nat, d: nat, t: nat)
    requires t >= 1 && t <= d <= p
    ensures (p - d) / t + 1 <= p / t
  {
    var x, y := (p - d) / t, p / t;
    assert t * x <= p - d && p < t * y + t;
    if x >= y {
      Monotone(t, y, x);
      assert false;
    }
  }

  /** One slice for every `t` places up to and including place `p`. */
  function WaitBound(slice: nat, t: nat, p: nat): nat
    requires t >= 1
  {
    slice * (p / t + 1)
  }

  /** Moving up by at least `t` places saves a whole slice. */
  lemma {:induction false} SliceSaved(slice: nat, t: nat, p: nat, d: nat)
    requires t >= 1 && t <= d <= p
    ensures WaitBound(slice, t, p) >= slice + WaitBound(slice, t, p - d)
  {
    QuotientDrops(p, d, t);
    Monotone(slice, (p - d) / t + 1, p / t);
  }

  lemma Monotone(slice: nat, a: nat, b: nat)
    requires a <= b
    ensures slice * (b + 1) >= slice + slice * a
  {
    assert slice * (b + 1) == slice * b + slice;
    assert slice * a <= slice * b;
  }

  /** After one slice the process has been dispatched or moved up by a whole machine. */
  lemma {:induction false} SliceFreesMachine(cfg: Config, s: Sys, ks: seq<nat>, p: nat, pids: multiset<int>,
                                             prios: multiset<int>)
    returns (d: nat)
    requires cfg.policy == RoundRobin && Fair(cfg, s, pids, prios) && p < |s.sched.ready|
    requires Wakeful(cfg, ks) && |ks| == Slice(cfg)
    ensures var r := Turns(cfg, s, ks);
            && Fair(cfg, r, pids, prios) && |r.cores| == |s.cores| && Advanced(s, r, p, d)
            && (d <= p ==> d >= Threads(cfg, s))
  {
    hide Turns, Old, Order, Conserved, WorkConserving;
    d := SliceMovesUp(cfg, s, ks, p, pids, prios);
    OldBounds(Order(Turns(cfg, s, ks).cores), Slice(cfg));
  }

  /** The process at index `p` of the ready queue is dispatched within slice * (p / T + 1)
      turns, where T is the number of hardware threads. */
  lemma {:induction false} WaitBounded(cfg: Config, s: Sys, ks: seq<nat>, p: nat, pids: multiset<int>,
                                       prios: multiset<int>)
    requires cfg.policy == RoundRobin && Fair(cfg, s, pids, prios) && p < |s.sched.ready| && Wakeful(cfg, ks)
    requires Threads(cfg, s) >= 1 && |ks| >= WaitBound(Slice(cfg), Threads(cfg, s), p)
    ensures DispatchedSince(s, Turns(cfg, s, ks), s.sched.ready[p].pid)
    decreases p
  {
    hide Turns, Old, Order, Conserved, WorkConserving, EachExecuting, WaitBound, Threads;
    var slice, t := Slice(cfg), Threads(cfg, s);
    OneSliceAtLeast(slice, t, p);
    var a, b := ks[..slice], ks[slice..];
    assert ks == a + b;
    TurnsAdd(cfg, s, a, b);
    var d := SliceFreesMachine(cfg, s, a, p, pids, prios);
    var r := Turns(cfg, s, a);
    FairTurns(cfg, r, b, pids, prios);
    var z := Turns(cfg, r, b);
    if d > p {
      EarlierSuffix(s.sched.log, r.sched.log, z.sched.log, Dispatched(s.sched.ready[p].pid));
    } else {
      SliceSaved(slice, t, p, d);
      SameThreads(cfg, s, r);
      WaitBounded(cfg, r, b, p - d, pids, prios);
      LaterSuffix(s.sched.log, r.sched.log, z.sched.log, Dispatched(s.sched.ready[p].pid));
    }
  }

  lemma OneSliceAtLeast(slice: nat, t: nat, p: nat)
    requires t >= 1
    ensures WaitBound(slice, t, p) >= slice
  {
    Monotone(slice, 0, p / t);
  }

  lemma SameThreads(cfg: Config, s: Sys, r: Sys)
    requires |s.cores| == |r.cores|
    ensures Threads(cfg, s) == Threads(cfg, r)
  {
  }

  /** With a load that fits, under every policy the bounds' premises hold after the first activation that
      follows loading, and after every later one. */
  lemma FairFromTheStart(cfg: Config, s: Sys, k: nat, ks: seq<nat>)
    requires Loaded(cfg, s) && cfg.quantum >= 1
    requires Wakeful(cfg, [k]) && Wakeful(cfg, ks)
    requires cfg.sync == ClockSync ==> k >= 1
    ensures Fair(cfg, Turns(cfg, Turn(cfg, s, k), ks), Live(Pid, s), Live(Priority, s))
  {
    hide Turns, TickCores;
    var pids, prios := Live(Pid, s), Live(Priority, s);
    EmptyOrder(s.cores);
    TicksOnlyTick(cfg, s, k, pids, prios);
    ActivateStaysFair(cfg, Ticks(cfg, s, k), pids, prios);
    FairTurns(cfg, Turn(cfg, s, k), ks, pids, prios);
  }
}
