/** BFS: how long a waiting process can wait, from bounded overtaking and work conservation. */
module BfsWaiting {
  import opened Machine
  import opened Scheduler
  import opened Population
  import opened Conservation
  import opened Termination
  import opened RoundRobinFairness
  import opened BfsFairness

  // ------------------------------------------------------------------ who is started

  /** Pids of the processes started, in order. */
  function Starts(log: seq<Event>): seq<int> {
    if log == [] then []
    else
      Starts(log[..|log|-1]) + (match log[|log|-1] case Dispatched(p) => [p] case _ => [])
  }

  lemma {:induction false} StartsAppend(a: seq<Event>, b: seq<Event>)
    ensures Starts(a + b) == Starts(a) + Starts(b)
  {
    if b == [] {
      assert a + b == a;
    } else {
      assert (a + b)[..|a + b|-1] == a + b[..|b|-1];
      StartsAppend(a, b[..|b|-1]);
    }
  }

  lemma OneMoreCounts(a: seq<Event>, e: Event, w: int, x: int)
    requires e != Enqueued(w)
    ensures CountSince(a + [e], w, x) == CountSince(a, w, x) + multiset(Starts([e]))[x]
  {
    TraceStep(a, e, w, x);
    assert [e][..0] == [];
  }

  /** While `w` is not queued again, each start of `x` counts. */
  lemma {:induction false} CountsStarts(a: seq<Event>, b: seq<Event>, w: int, x: int)
    requires Enqueued(w) !in b
    ensures CountSince(a + b, w, x) == CountSince(a, w, x) + multiset(Starts(b))[x]
  {
    if b == [] {
      assert a + b == a;
    } else {
      hide CountSince, Starts;
      var n := |b| - 1;
      assert b == b[..n] + [b[n]] && a + b == (a + b[..n]) + [b[n]];
      CountsStarts(a, b[..n], w, x);
      OneMoreCounts(a + b[..n], b[n], w, x);
      StartsAppend(b[..n], [b[n]]);
      assert multiset(Starts(b)) == multiset(Starts(b[..n])) + multiset(Starts([b[n]]));
    }
  }

  /** While `w` is not started, it stays in the queue. */
  lemma {:induction false} StaysPending(a: seq<Event>, b: seq<Event>, w: int)
    requires Pending(a, w) && Dispatched(w) !in b
    ensures Pending(a + b, w)
  {
    if b == [] {
      assert a + b == a;
    } else {
      var n := |b| - 1;
      assert (a + b)[..|a + b|-1] == a + b[..n];
      StaysPending(a, b[..n], w);
    }
  }

  lemma {:induction false} NotStarted(b: seq<Event>, w: int)
    requires Dispatched(w) !in b
    ensures w !in Starts(b)
  {
    if b != [] {
      NotStarted(b[..|b|-1], w);
    }
  }

  // ------------------------------------------------------------------ one activation's events

  lemma {:induction false} SweepLogs(cfg: Config, clock: int, q: Sched, ts: seq<Thread>) returns (b: seq<Event>)
    requires SchedWf(cfg, q)
    ensures SweepQueues(cfg, clock, q, ts).log == q.log + b && Starts(b) == []
    ensures forall w :: Enqueued(w) in b ==> w in ThreadTally(Pid, ts)
  {
    hide Handle, ThreadTally, Starts;
    if ts == [] {
      b := [];
      NoStarts();
    } else {
      var n := |ts| - 1;
      assert ts == ts[..n] + [ts[n]];
      ThreadTallySnoc(Pid, ts[..n], ts[n]);
      var c := SweepLogs(cfg, clock, q, ts[..n]);
      var e := HandleLogs(cfg, clock, SweepQueues(cfg, clock, q, ts[..n]), ts[n]);
      b := c + e;
      StartsAppend(c, e);
      assert q.log + (c + e) == (q.log + c) + e;
    }
  }

  lemma NoStarts()
    ensures Starts([]) == []
  {
  }

  lemma HandleLogs(cfg: Config, clock: int, q: Sched, t: Thread) returns (e: seq<Event>)
    requires SchedWf(cfg, q)
    ensures Handle(cfg, clock, q, t).log == q.log + e && Starts(e) == []
    ensures forall w :: Enqueued(w) in e ==> w == t.pcb.pid
  {
    e := Handle(cfg, clock, q, t).log[|q.log|..];
    assert e == [] || e == [Completed(t.pcb.pid)] || e == [Enqueued(t.pcb.pid)];
    assert |e| == 1 ==> e[..0] == [];
  }

  lemma StartsOne(p: int)
    ensures Starts([Dispatched(p)]) == [p]
  {
    assert [Dispatched(p)][..0] == [];
  }

  ghost predicate StartedFrom(b: seq<Event>, pids: multiset<int>) {
    && |Starts(b)| == |b| && (forall w :: Enqueued(w) !in b)
    && forall x :: x in Starts(b) ==> x in pids
  }

  lemma OneMoreStart(p: int, b: seq<Event>, pids: multiset<int>)
    requires StartedFrom(b, pids) && p in pids
    ensures StartedFrom([Dispatched(p)] + b, pids)
  {
    StartsOne(p);
    StartsAppend([Dispatched(p)], b);
  }

  /** The dispatch loop starts one process for each thread it fills. */
  lemma {:induction false} DispatchLogs(cfg: Config, clock: int, q: Sched, cores: seq<seq<Thread>>,
                                        pids: multiset<int>, prios: multiset<int>)
    returns (b: seq<Event>)
    requires SchedWf(cfg, q) && CoresWf(cfg, cores) && Fits(cfg, pids, prios) && Queued(Pid, q) <= pids
    ensures var (q', cores') := Dispatch(cfg, clock, q, cores);
            && q'.log == q.log + b && StartedFrom(b, pids)
            && |Order(cores')| == |Order(cores)| + |b|
            && forall k: int :: k >= 1 ==> Old(Order(cores'), k) == Old(Order(cores), k)
    decreases FreeSlots(cfg, cores)
  {
    hide Order, Old, Queued, Fits, StartedFrom;
    if CanDispatch(cfg, q, cores) {
      var p := SelectNext(cfg, q).0;
      var (q1, cores1) := DispatchOne(cfg, clock, q, cores);
      SelectedIsQueued(cfg, q, pids, prios);
      DispatchOneMoves(cfg, clock, Pid, q, cores, pids, prios);
      FreshThread(cores, FirstFree(cfg, cores, 0), Restored(cfg, clock, p));
      var c := DispatchLogs(cfg, clock, q1, cores1, pids, prios);
      OneMoreStart(p.pid, c, pids);
      b := [Dispatched(p.pid)] + c;
      assert q.log + b == (q.log + [Dispatched(p.pid)]) + c;
    } else {
      b := [];
      NobodyStarted(pids);
    }
  }

  lemma NobodyStarted(pids: multiset<int>)
    ensures StartedFrom([], pids)
  {
  }

  lemma SelectedIsQueued(cfg: Config, q: Sched, pids: multiset<int>, prios: multiset<int>)
    requires SchedWf(cfg, q) && HasReady(cfg, q) && Fits(cfg, pids, prios) && Queued(Pid, q) <= pids
    ensures SelectNext(cfg, q).0.pid in pids
  {
    hide Queued, SelectNext;
    SelectTakesOne(cfg, Pid, q, pids, prios);
    assert SelectNext(cfg, q).0.pid in Queued(Pid, q);
  }

  /** A thread just filled is not old. */
  lemma FreshThread(cores: seq<seq<Thread>>, i: nat, t: Thread)
    requires i < |cores| && t.pcb.quantumCounter == 0
    ensures |Order(Put(cores, i, t))| == |Order(cores)| + 1
    ensures forall k: int :: k >= 1 ==> Old(Order(Put(cores, i, t)), k) == Old(Order(cores), k)
  {
    var a, b := OrderPut(cores, i, t);
    forall k: int | k >= 1 ensures Old(a + [t] + b, k) == Old(a + b, k) {
      OldAppend(a, b, k);
      OldAppend(a, [t], k);
      OldAppend(a + [t], b, k);
      assert [t][..0] == [];
    }
  }

  /** Events `b` leave the waiting `w` alone and start only loaded processes. */
  ghost predicate LeavesWaiting(b: seq<Event>, w: int, pids: multiset<int>) {
    Enqueued(w) !in b && forall x :: x in Starts(b) ==> x in pids
  }

  /** One activation while `w` waits and the machine is busy: threads that did not change hands are one
      activation older. */
  lemma ActivationLogs(cfg: Config, s: Sys, w: int, j: nat, pids: multiset<int>, prios: multiset<int>)
    returns (b: seq<Event>)
    requires SysWf(cfg, s) && cfg.policy == Bfs && Wakes(cfg, s) && Conserved(cfg, s, pids, prios)
    requires w !in Executing(Pid, s.cores) && |Order(s.cores)| == |Order(Activate(cfg, s).cores)|
    ensures var r := Activate(cfg, s);
            && r.sched.log == s.sched.log + b && LeavesWaiting(b, w, pids)
            && Old(Order(r.cores), j + 1) + |Starts(b)| >= Old(Order(s.cores), j)
  {
    hide Dispatch, SweepQueues, Old, Order, Kept, Conserved, Starts, Queued, StartedFrom;
    var q, cores := BeforeDispatch(cfg, s), KeptCores(cfg, s.cores);
    BeforeDispatchConserves(cfg, s, pids, prios);
    OrderKept(cfg, s.cores);
    OldKept(cfg, Order(s.cores), j);
    var a := SweepLogs(cfg, s.clock, s.sched, Order(s.cores));
    LoadFits(cfg, s, pids, prios);
    var c := DispatchLogs(cfg, s.clock, q, cores, pids, prios);
    b := a + c;
    StartsAppend(a, c);
    StartedParts(c, w, pids);
    assert s.sched.log + b == (s.sched.log + a) + c;
  }

  lemma LoadFits(cfg: Config, s: Sys, pids: multiset<int>, prios: multiset<int>)
    requires Conserved(cfg, s, pids, prios)
    ensures Fits(cfg, pids, prios)
  {
  }

  lemma StartedParts(b: seq<Event>, w: int, pids: multiset<int>)
    requires StartedFrom(b, pids)
    ensures |Starts(b)| == |b| && LeavesWaiting(b, w, pids)
  {
  }

  // ------------------------------------------------------------------ turns while somebody waits

  /** `w` waits in `s`, nobody is there twice, and the machine is fair. */
  ghost predicate Waits(cfg: Config, s: Sys, w: int, pids: multiset<int>, prios: multiset<int>) {
    && Fair(cfg, s, pids, prios) && (forall x :: pids[x] <= 1)
    && InReady(s.sched, w)
  }

  lemma WaiterNotExecuting(cfg: Config, s: Sys, w: int, pids: multiset<int>, prios: multiset<int>)
    requires Waits(cfg, s, w, pids, prios)
    ensures w !in Executing(Pid, s.cores) && s.sched.ready != []
  {
    var i :| 0 <= i < |s.sched.ready| && s.sched.ready[i].pid == w;
    assert Keys(Pid, s.sched.ready)[i] == w;
    assert w in Queued(Pid, s.sched);
    assert Live(Pid, s)[w] <= pids[w];
  }

  /** The ticks of a turn change nothing that matters to the waiter. */
  lemma TurnTicks(cfg: Config, s: Sys, k: nat, w: int, j: nat, pids: multiset<int>, prios: multiset<int>)
    requires Wakeful(cfg, [k]) && Waits(cfg, s, w, pids, prios)
    ensures var u := Ticks(cfg, s, k);
            && Conserved(cfg, u, pids, prios) && Wakes(cfg, u) && u.sched.log == s.sched.log
            && w !in Executing(Pid, u.cores) && |Order(u.cores)| == Threads(cfg, s)
            && Old(Order(u.cores), j) == Old(Order(s.cores), j)
            && |Activate(cfg, u).cores| == |s.cores|
  {
    WaiterNotExecuting(cfg, s, w, pids, prios);
    OneTurnWakes(cfg, k);
    hide Conserved, Old, Order, Activate, InReady, Executing, Ticks, EachExecuting, Threads, Wakeful, Queued;
    var u := Ticks(cfg, s, k);
    TicksOnlyTick(cfg, s, k, pids, prios);
    TicksKeepPids(cfg, s, k);
    OldSame(Order(s.cores), Order(u.cores), j);
    BusyWhileWaiting(cfg, s);
    TicksKeepYoung(cfg, s, k, pids, prios);
    ActivateStaysFair(cfg, u, pids, prios);
  }

  lemma WaiterKeepsBusy(cfg: Config, s: Sys, w: int, pids: multiset<int>, prios: multiset<int>)
    requires Waits(cfg, s, w, pids, prios)
    ensures |Order(s.cores)| == Threads(cfg, s)
  {
    WaiterNotExecuting(cfg, s, w, pids, prios);
    BusyWhileWaiting(cfg, s);
  }

  lemma TurnLogs(cfg: Config, s: Sys, k: nat, w: int, j: nat, pids: multiset<int>, prios: multiset<int>)
    returns (b: seq<Event>)
    requires SysWf(cfg, s) && cfg.policy == Bfs && Wakeful(cfg, [k]) && Waits(cfg, s, w, pids, prios)
    requires Waits(cfg, Turn(cfg, s, k), w, pids, prios)
    ensures var r := Turn(cfg, s, k);
            && r.sched.log == s.sched.log + b && LeavesWaiting(b, w, pids) && |r.cores| == |s.cores|
            && Old(Order(r.cores), j + 1) + |Starts(b)| >= Old(Order(s.cores), j)
  {
    hide Conserved, Old, Order, Activate, Waits, LeavesWaiting, Executing, Ticks, Wakes, Wakeful, Starts;
    TurnTicks(cfg, s, k, w, j, pids, prios);
    WaiterKeepsBusy(cfg, Turn(cfg, s, k), w, pids, prios);
    b := ActivationLogs(cfg, Ticks(cfg, s, k), w, j, pids, prios);
  }

  lemma {:induction false} TicksKeepPids(cfg: Config, s: Sys, k: nat)
    requires SysWf(cfg, s)
    ensures Executing(Pid, Ticks(cfg, s, k).cores) == Executing(Pid, s.cores)
  {
    hide Tick;
    if k > 0 {
      TicksKeepPids(cfg, s, k - 1);
      TickKeepsPids(cfg, Ticks(cfg, s, k - 1));
    }
  }

  lemma TickKeepsPids(cfg: Config, s: Sys)
    requires SysWf(cfg, s)
    ensures Executing(Pid, Tick(cfg, s).cores) == Executing(Pid, s.cores)
  {
    TickPointwise(s.cores, s.mem);
    assert ThreadKeys(Pid, Order(Tick(cfg, s).cores)) == ThreadKeys(Pid, Order(s.cores));
  }

  ghost predicate WaitsThroughout(cfg: Config, s: Sys, ks: seq<nat>, w: int, pids: multiset<int>, prios: multiset<int>)
    requires SysWf(cfg, s)
  {
    forall i :: 0 <= i <= |ks| ==> Waits(cfg, Turns(cfg, s, ks[..i]), w, pids, prios)
  }

  /** After `|ks|` turns of waiting, every thread that has not changed hands is at least that old. */
  lemma {:induction false} TurnsLog(cfg: Config, s: Sys, ks: seq<nat>, w: int, pids: multiset<int>,
                                    prios: multiset<int>)
    returns (b: seq<Event>)
    requires SysWf(cfg, s) && cfg.policy == Bfs && Wakeful(cfg, ks) && WaitsThroughout(cfg, s, ks, w, pids, prios)
    ensures var r := Turns(cfg, s, ks);
            && r.sched.log == s.sched.log + b && LeavesWaiting(b, w, pids) && |r.cores| == |s.cores|
            && Old(Order(r.cores), |ks|) + |Starts(b)| >= Threads(cfg, s)
  {
    hide Turn, Old, Order, Waits, Starts;
    assert ks[..|ks|] == ks && ks[..0] == [];
    if ks == [] {
      b := [];
      NoStarts();
      AllOld(cfg, s, w, pids, prios);
    } else {
      var n := |ks| - 1;
      WaitsBefore(cfg, s, ks, w, pids, prios);
      var c := TurnsLog(cfg, s, ks[..n], w, pids, prios);
      assert Wakeful(cfg, [ks[n]]);
      var e := TurnLogs(cfg, Turns(cfg, s, ks[..n]), ks[n], w, n, pids, prios);
      b := c + e;
      StartsAppend(c, e);
      assert s.sched.log + b == (s.sched.log + c) + e;
    }
  }

  lemma AllOld(cfg: Config, s: Sys, w: int, pids: multiset<int>, prios: multiset<int>)
    requires Waits(cfg, s, w, pids, prios)
    ensures Old(Order(s.cores), 0) == Threads(cfg, s)
  {
    hide Conserved, WorkConserving, InReady, Order;
    WaiterNotExecuting(cfg, s, w, pids, prios);
    BusyWhileWaiting(cfg, s);
    forall i | 0 <= i < |Order(s.cores)| ensures Order(s.cores)[i].pcb.quantumCounter >= 0 {
      assert Young(cfg, Order(s.cores)[i]);
    }
    OldBounds(Order(s.cores), 0);
  }

  lemma {:induction false} WaitsBefore(cfg: Config, s: Sys, ks: seq<nat>, w: int, pids: multiset<int>,
                                       prios: multiset<int>)
    requires SysWf(cfg, s) && ks != [] && WaitsThroughout(cfg, s, ks, w, pids, prios)
    ensures WaitsThroughout(cfg, s, ks[..|ks|-1], w, pids, prios)
  {
    hide Waits, Turns;
    var n := |ks| - 1;
    forall i | 0 <= i <= n ensures Waits(cfg, Turns(cfg, s, ks[..n][..i]), w, pids, prios) {
      assert ks[..n][..i] == ks[..i];
    }
  }

  // ------------------------------------------------------------------ the bound

  /** Whole slices of waiting start a whole machine of other processes each. */
  lemma {:induction false} SlicesLog(cfg: Config, s: Sys, ks: seq<nat>, m: nat, w: int, pids: multiset<int>,
                                     prios: multiset<int>)
    returns (b: seq<Event>)
    requires SysWf(cfg, s) && cfg.policy == Bfs && Wakeful(cfg, ks) && |ks| == Slice(cfg) * m
    requires WaitsThroughout(cfg, s, ks, w, pids, prios)
    ensures var r := Turns(cfg, s, ks);
            && r.sched.log == s.sched.log + b && LeavesWaiting(b, w, pids)
            && |Starts(b)| >= Threads(cfg, s) * m && |r.cores| == |s.cores|
    decreases m
  {
    hide Turn, Old, Order, Waits, Starts, Threads, Turns;
    if m == 0 {
      b := NothingYet(cfg, s, ks, w, pids);
    } else {
      var cut := Slice(cfg) * (m - 1);
      OneSliceMore(Slice(cfg), m);
      OneSliceMore(Threads(cfg, s), m);
      var front, back := ks[..cut], ks[cut..];
      assert ks == front + back;
      TurnsAdd(cfg, s, front, back);
      WaitsSplit(cfg, s, front, back, w, pids, prios);
      var c := SlicesLog(cfg, s, front, m - 1, w, pids, prios);
      var t := Turns(cfg, s, front);
      var e := TurnsLog(cfg, t, back, w, pids, prios);
      NobodyThatOld(cfg, Turns(cfg, t, back), w, pids, prios);
      SameThreads(cfg, s, t);
      b := c + e;
      StartsAppend(c, e);
      assert s.sched.log + b == (s.sched.log + c) + e;
    }
  }

  lemma NothingYet(cfg: Config, s: Sys, ks: seq<nat>, w: int, pids: multiset<int>) returns (b: seq<Event>)
    requires SysWf(cfg, s) && ks == []
    ensures b == [] && Turns(cfg, s, ks) == s && LeavesWaiting(b, w, pids) && Starts(b) == []
    ensures s.sched.log == s.sched.log + b
  {
    b := [];
  }

  lemma OneSliceMore(a: nat, m: nat)
    requires m >= 1
    ensures a * m == a * (m - 1) + a && a * (m - 1) >= 0
  {
  }

  /** No slice has run out between activations. */
  lemma NobodyThatOld(cfg: Config, s: Sys, w: int, pids: multiset<int>, prios: multiset<int>)
    requires Fair(cfg, s, pids, prios)
    ensures Old(Order(s.cores), Slice(cfg)) == 0
  {
    hide Conserved, WorkConserving, Order;
    forall i | 0 <= i < |Order(s.cores)| ensures Order(s.cores)[i].pcb.quantumCounter < Slice(cfg) {
      assert Young(cfg, Order(s.cores)[i]);
    }
    OldBounds(Order(s.cores), Slice(cfg));
  }

  lemma {:induction false} WaitsSplit(cfg: Config, s: Sys, a: seq<nat>, b: seq<nat>, w: int, pids: multiset<int>,
                                      prios: multiset<int>)
    requires SysWf(cfg, s) && WaitsThroughout(cfg, s, a + b, w, pids, prios)
    ensures WaitsThroughout(cfg, s, a, w, pids, prios)
    ensures WaitsThroughout(cfg, Turns(cfg, s, a), b, w, pids, prios)
    ensures Fair(cfg, Turns(cfg, Turns(cfg, s, a), b), pids, prios)
  {
    hide Turns, InReady, Fair;
    forall i | 0 <= i <= |a| ensures Waits(cfg, Turns(cfg, s, a[..i]), w, pids, prios) {
      assert (a + b)[..i] == a[..i];
    }
    forall i | 0 <= i <= |b| ensures Waits(cfg, Turns(cfg, Turns(cfg, s, a), b[..i]), w, pids, prios) {
      assert (a + b)[..|a| + i] == a + b[..i];
      TurnsAdd(cfg, s, a, b[..i]);
    }
    assert b[..|b|] == b;
  }

  /** Distinct members of a load without `w` are fewer than the load. */
  lemma FewerThanLoad(xs: seq<int>, w: int, pids: multiset<int>)
    requires w in pids && w !in xs && (forall x :: x in xs ==> x in pids)
    requires forall x :: multiset(xs)[x] <= 1
    ensures |xs| < |pids|
  {
    forall x ensures multiset(xs)[x] <= (pids - multiset{w})[x] {
      if x in multiset(xs) {
        assert x in xs;
      }
    }
    assert multiset(xs) <= pids - multiset{w};
    SubsetSize(multiset(xs), pids - multiset{w});
  }

  /** The start and load the deadline theorems need. */
  ghost predicate TimedStart(cfg: Config, s: Sys) {
    && Loaded(cfg, s) && cfg.policy == Bfs && cfg.sync == ClockSync && cfg.quantum >= 1
    && EachWaiting(s.sched, p => LegalPriority(p) && p.deadline == 0)
  }

  /** What bounded overtaking says of a state reached by turns. */
  lemma TurnsOvertaking(cfg: Config, s: Sys, ks: seq<nat>, w: int, x: int)
    requires SysWf(cfg, s) && TimedStart(cfg, s) && w != x && w in Live(Pid, s)
    ensures var q := Turns(cfg, s, ks).sched;
            (Pending(q.log, w) <==> InReady(q, w)) && (Pending(q.log, w) ==> CountSince(q.log, w, x) <= 1)
  {
    hide Run, Turns, Live, Pending, InReady;
    var es := TurnsAreRuns(cfg, s, ks);
    RunOvertaking(cfg, s, es, w, x);
    var log := Run(cfg, s, es).sched.log;
    assert log[..|log|] == log;
  }

  /** After the first turn the machine is fair, whatever the later turns. */
  lemma {:induction false} TurnsFair(cfg: Config, s: Sys, hs: seq<nat>)
    requires SysWf(cfg, s) && Loaded(cfg, s) && cfg.quantum >= 1 && hs != [] && Wakeful(cfg, hs)
    ensures Fair(cfg, Turns(cfg, s, hs), Live(Pid, s), Live(Priority, s))
  {
    hide Turn, Fair, Live, Loaded;
    var k, ks := hs[0], hs[1..];
    assert hs == [k] + ks && [k][..0] == [];
    TurnsAdd(cfg, s, [k], ks);
    assert Turns(cfg, s, [k]) == Turn(cfg, s, k);
    FairFromTheStart(cfg, s, k, ks);
  }

  /** A waiting process that is not started waits on. */
  lemma {:induction false} WaitsOn(cfg: Config, s: Sys, hs: seq<nat>, ks: seq<nat>, w: int)
    requires SysWf(cfg, s) && TimedStart(cfg, s) && hs != [] && Wakeful(cfg, hs) && Wakeful(cfg, ks)
    requires w in Live(Pid, s) && InReady(Turns(cfg, s, hs).sched, w)
    requires !DispatchedSince(Turns(cfg, s, hs), Turns(cfg, Turns(cfg, s, hs), ks), w)
    ensures WaitsThroughout(cfg, Turns(cfg, s, hs), ks, w, Live(Pid, s), Live(Priority, s))
  {
    var t := Turns(cfg, s, hs);
    forall i | 0 <= i <= |ks| ensures Waits(cfg, Turns(cfg, t, ks[..i]), w, Live(Pid, s), Live(Priority, s)) {
      WaitsAt(cfg, s, hs, ks, i, w);
    }
  }

  lemma TimedParts(cfg: Config, s: Sys)
    requires TimedStart(cfg, s)
    ensures Loaded(cfg, s) && cfg.quantum >= 1 && cfg.policy == Bfs && forall x :: Live(Pid, s)[x] <= 1
  {
  }

  lemma {:induction false} StillReady(cfg: Config, s: Sys, hs: seq<nat>, a: seq<nat>, b: seq<nat>, w: int)
    requires SysWf(cfg, s) && TimedStart(cfg, s) && hs != [] && Wakeful(cfg, hs) && Wakeful(cfg, a + b)
    requires w in Live(Pid, s) && InReady(Turns(cfg, s, hs).sched, w)
    requires !DispatchedSince(Turns(cfg, s, hs), Turns(cfg, Turns(cfg, s, hs), a + b), w)
    ensures InReady(Turns(cfg, Turns(cfg, s, hs), a).sched, w)
  {
    hide Turns, Fair, Pending, InReady, Live, Loaded, TimedStart, DispatchedSince, CountSince, Wakeful, SysWf;
    TimedParts(cfg, s);
    var t := Turns(cfg, s, hs);
    var z := Turns(cfg, t, a);
    LogsGrow(cfg, s, hs, a, b);
    TurnsAdd(cfg, t, a, b);
    var log := z.sched.log[|t.sched.log|..];
    NotInPrefix(cfg, t, z, Turns(cfg, t, a + b), w, log);
    TurnsOvertaking(cfg, s, hs, w, w + 1);
    StaysPending(t.sched.log, log, w);
    TurnsAdd(cfg, s, hs, a);
    TurnsOvertaking(cfg, s, hs + a, w, w + 1);
    assert t.sched.log + log == z.sched.log;
  }

  lemma {:induction false} WaitsAt(cfg: Config, s: Sys, hs: seq<nat>, ks: seq<nat>, i: nat, w: int)
    requires SysWf(cfg, s) && TimedStart(cfg, s) && hs != [] && Wakeful(cfg, hs) && Wakeful(cfg, ks) && i <= |ks|
    requires w in Live(Pid, s) && InReady(Turns(cfg, s, hs).sched, w)
    requires !DispatchedSince(Turns(cfg, s, hs), Turns(cfg, Turns(cfg, s, hs), ks), w)
    ensures Waits(cfg, Turns(cfg, Turns(cfg, s, hs), ks[..i]), w, Live(Pid, s), Live(Priority, s))
  {
    hide Turns, Fair, InReady, Live, Loaded, TimedStart, DispatchedSince;
    TimedParts(cfg, s);
    assert ks == ks[..i] + ks[i..];
    StillReady(cfg, s, hs, ks[..i], ks[i..], w);
    TurnsAdd(cfg, s, hs, ks[..i]);
    TurnsFair(cfg, s, hs + ks[..i]);
  }

  /** While `w` waits, fewer processes are started than are loaded: each other one at most once. */
  lemma {:induction false} FewStarts(cfg: Config, s: Sys, hs: seq<nat>, ks: seq<nat>, w: int, b: seq<Event>)
    requires SysWf(cfg, s) && TimedStart(cfg, s) && w in Live(Pid, s)
    requires InReady(Turns(cfg, s, hs).sched, w) && LeavesWaiting(b, w, Live(Pid, s)) && Dispatched(w) !in b
    requires Turns(cfg, Turns(cfg, s, hs), ks).sched.log == Turns(cfg, s, hs).sched.log + b
    ensures |Starts(b)| < |Live(Pid, s)|
  {
    hide Turns, Pending, InReady, CountSince, Starts;
    assert forall x :: Live(Pid, s)[x] <= 1;
    hide Live;
    var a := Turns(cfg, s, hs).sched.log;
    TurnsOvertaking(cfg, s, hs, w, w + 1);
    StaysPending(a, b, w);
    NotStarted(b, w);
    TurnsAdd(cfg, s, hs, ks);
    forall x ensures multiset(Starts(b))[x] <= 1 {
      if x == w {
        assert x !in multiset(Starts(b));
      } else {
        TurnsOvertaking(cfg, s, hs + ks, w, x);
        CountsStarts(a, b, w, x);
      }
    }
    FewerThanLoad(Starts(b), w, Live(Pid, s));
  }

  lemma MoreThan(t: nat, n: nat)
    requires t >= 1
    ensures t * (n / t + 1) > n
  {
    assert t * (n / t + 1) == t * (n / t) + t;
  }

  lemma NotInPrefix(cfg: Config, t: Sys, z: Sys, r: Sys, w: int, b: seq<Event>)
    requires t.sched.log <= z.sched.log <= r.sched.log && !DispatchedSince(t, r, w)
    requires z.sched.log == t.sched.log + b
    ensures Dispatched(w) !in b
  {
    var all := r.sched.log[|t.sched.log|..];
    assert b <= all;
  }

  /** So many slices, and whatever follows them. */
  lemma EnoughSlices(cfg: Config, s: Sys, hs: seq<nat>, early: seq<nat>, late: seq<nat>, m: nat, w: int)
    requires SysWf(cfg, s) && TimedStart(cfg, s) && hs != [] && Wakeful(cfg, hs) && Wakeful(cfg, early + late)
    requires w in Live(Pid, s) && InReady(Turns(cfg, s, hs).sched, w) && |early| == Slice(cfg) * m
    requires Threads(cfg, Turns(cfg, s, hs)) * m >= |Live(Pid, s)|
    ensures DispatchedSince(Turns(cfg, s, hs), Turns(cfg, Turns(cfg, s, hs), early + late), w)
  {
    assert Loaded(cfg, s) && cfg.quantum >= 1 && cfg.policy == Bfs;
    assert Wakeful(cfg, early) by {
      assert forall i :: 0 <= i < |early| ==> (early + late)[i] == early[i];
    }
    hide Turns, Live, InReady, Threads, DispatchedSince, WaitsThroughout, Starts, Fair, LeavesWaiting, Slice, Loaded,
         TimedStart, Wakeful;
    var t := Turns(cfg, s, hs);
    var r := Turns(cfg, t, early + late);
    if !DispatchedSince(t, r, w) {
      WaitsOn(cfg, s, hs, early + late, w);
      WaitsSplit(cfg, t, early, late, w, Live(Pid, s), Live(Priority, s));
      var b := SlicesLog(cfg, t, early, m, w, Live(Pid, s), Live(Priority, s));
      TurnsAdd(cfg, t, early, late);
      LogsGrow(cfg, s, hs, early, late);
      NotInPrefix(cfg, t, Turns(cfg, t, early), r, w, b);
      FewStarts(cfg, s, hs, early, w, b);
    }
  }

  /** On `T` hardware threads with a load of `n` processes that fits, a process found waiting after an
      activation is dispatched within quantum * ((n - 1) / T + 1) further turns. */
  lemma {:induction false} BfsWaitBounded(cfg: Config, s: Sys, hs: seq<nat>, ks: seq<nat>, w: int)
    requires SysWf(cfg, s) && TimedStart(cfg, s) && hs != [] && Wakeful(cfg, hs) && Wakeful(cfg, ks)
    requires w in Live(Pid, s) && InReady(Turns(cfg, s, hs).sched, w)
    requires Threads(cfg, Turns(cfg, s, hs)) >= 1
    requires |ks| >= WaitBound(cfg.quantum, Threads(cfg, Turns(cfg, s, hs)), |Live(Pid, s)| - 1)
    ensures DispatchedSince(Turns(cfg, s, hs), Turns(cfg, Turns(cfg, s, hs), ks), w)
  {
    hide Turns, Live, InReady, Threads, DispatchedSince, Slice, TimedStart, Wakeful, WaitBound, SysWf;
    TimedSlice(cfg, s);
    HasMember(Live(Pid, s), w);
    var m, cut := CutSlices(cfg.quantum, Threads(cfg, Turns(cfg, s, hs)), |Live(Pid, s)|, |ks|);
    assert ks == ks[..cut] + ks[cut..];
    EnoughSlices(cfg, s, hs, ks[..cut], ks[cut..], m, w);
  }

  lemma TimedSlice(cfg: Config, s: Sys)
    requires TimedStart(cfg, s)
    ensures Slice(cfg) == cfg.quantum
  {
  }

  lemma HasMember(m: multiset<int>, x: int)
    requires x in m
    ensures |m| >= 1
  {
  }

  lemma CutSlices(slice: nat, threads: nat, n: nat, turns: nat) returns (m: nat, cut: nat)
    requires threads >= 1 && n >= 1 && turns >= WaitBound(slice, threads, n - 1)
    ensures cut == slice * m <= turns && threads * m >= n
  {
    m := (n - 1) / threads + 1;
    cut := WaitBound(slice, threads, n - 1);
    MoreThan(threads, n - 1);
  }

  lemma {:induction false} LogsGrow(cfg: Config, s: Sys, hs: seq<nat>, a: seq<nat>, b: seq<nat>)
    requires SysWf(cfg, s) && Loaded(cfg, s) && cfg.quantum >= 1 && hs != []
    requires Wakeful(cfg, hs) && Wakeful(cfg, a + b)
    ensures var t := Turns(cfg, s, hs); var z := Turns(cfg, t, a);
            t.sched.log <= z.sched.log <= Turns(cfg, z, b).sched.log
  {
    hide Turns, Fair, Live, Loaded;
    var t := Turns(cfg, s, hs);
    TurnsFair(cfg, s, hs);
    assert forall i :: 0 <= i < |a| ==> (a + b)[i] == a[i];
    assert forall i :: 0 <= i < |b| ==> (a + b)[|a| + i] == b[i];
    FairTurns(cfg, t, a, Live(Pid, s), Live(Priority, s));
    FairTurns(cfg, Turns(cfg, t, a), b, Live(Pid, s), Live(Priority, s));
  }
}
