/** No process is lost or duplicated, whatever the interleaving, as long as the load fits the queues. */
module Conservation {
  import opened Process
  import opened Machine
  import opened Scheduler
  import opened Population

  /** The load the queues can take: `pids` and `prios` tally every process there is. */
  ghost predicate Fits(cfg: Config, pids: multiset<int>, prios: multiset<int>) {
    match cfg.policy
    case RoundRobin => |pids| <= cfg.readyCapacity
    case Bfs => |pids| <= cfg.readyCapacity && |pids| <= cfg.readyCapacity / 2 + 1
    case PreemptivePrio =>
      forall p :: p in prios ==> MIN_PRIORITY <= p <= MAX_PRIORITY && prios[p] <= LevelCapacity(cfg)
  }

  /** Every process of a priority queue belongs to that level. */
  ghost predicate Placed(q: Sched) {
    forall l, i :: 0 <= l < |q.levels| && 0 <= i < |q.levels[l]| ==> LevelOf(q.levels[l][i]) == l
  }

  lemma Cancel(a: multiset<int>, b: multiset<int>, t: multiset<int>, k: multiset<int>)
    requires a + t == b + (t + k)
    ensures a == b + k
  {
    forall x: int ensures a[x] == (b + k)[x] {
      assert (a + t)[x] == (b + (t + k))[x];
    }
  }

  lemma SubsetChain(a: multiset<int>, k: multiset<int>, b: multiset<int>, c: multiset<int>,
                    x: multiset<int>, total: multiset<int>)
    requires a + k <= b + c && b + (c + x) <= total
    ensures a + x <= total
  {
    forall i: int ensures (a + x)[i] <= total[i] {
      assert (a + k)[i] <= (b + c)[i] && (b + (c + x))[i] <= total[i];
    }
  }

  lemma SubsetSize(a: multiset<int>, b: multiset<int>)
    requires a <= b
    ensures |a| <= |b|
  {
    assert b == a + (b - a);
  }

  lemma {:induction false} UniformTally(ps: seq<PCB>, x: int)
    requires forall i :: 0 <= i < |ps| ==> ps[i].priority == x
    ensures Tally(Priority, ps)[x] == |ps|
  {
    if ps != [] {
      UniformTally(ps[1..], x);
      TallyHead(Priority, ps);
    }
  }

  /** Room for one more: the queue and the newcomer are within the load. */
  ghost predicate Admits(cfg: Config, q: Sched, p: PCB, pids: multiset<int>, prios: multiset<int>) {
    && Fits(cfg, pids, prios)
    && Queued(Pid, q) + multiset{p.pid} <= pids
    && Queued(Priority, q) + multiset{p.priority} <= prios
  }

  lemma ReadyAdmits(cfg: Config, q: Sched, p: PCB, pids: multiset<int>, prios: multiset<int>)
    requires SchedWf(cfg, q) && cfg.policy != PreemptivePrio && Admits(cfg, q, p, pids, prios)
    ensures |q.ready| < cfg.readyCapacity
  {
    assert |Tally(Pid, q.ready)| == |q.ready|;
    SubsetSize(Tally(Pid, q.ready) + multiset{p.pid}, pids);
  }

  lemma LevelAdmits(cfg: Config, q: Sched, p: PCB, pids: multiset<int>, prios: multiset<int>)
    requires SchedWf(cfg, q) && Placed(q) && cfg.policy == PreemptivePrio && Admits(cfg, q, p, pids, prios)
    ensures MIN_PRIORITY <= p.priority <= MAX_PRIORITY && |q.levels[LevelOf(p)]| < LevelCapacity(cfg)
  {
    assert p.priority in prios;
    var l := LevelOf(p);
    UniformTally(q.levels[l], p.priority);
    LevelTallyUpdate(Priority, q.levels, l, []);
    assert Queued(Priority, q)[p.priority] >= |q.levels[l]|;
  }

  /** Within the load no enqueue fails. */
  lemma EnqueueSucceeds(cfg: Config, q: Sched, p: PCB, pids: multiset<int>, prios: multiset<int>)
    requires SchedWf(cfg, q) && Placed(q) && Admits(cfg, q, p, pids, prios)
    ensures EnqueueTo(cfg, q, p).Some? && Placed(EnqueueTo(cfg, q, p).value)
  {
    if cfg.policy == PreemptivePrio {
      LevelAdmits(cfg, q, p, pids, prios);
    } else {
      ReadyAdmits(cfg, q, p, pids, prios);
    }
  }

  /** A successful enqueue adds exactly the newcomer. */
  lemma {:induction false} EnqueueAdds(cfg: Config, f: Field, q: Sched, p: PCB)
    requires SchedWf(cfg, q) && EnqueueTo(cfg, q, p).Some?
    ensures Queued(f, EnqueueTo(cfg, q, p).value) == Queued(f, q) + multiset{Get(f, p)}
  {
    hide LevelTally, Tally;
    TallySnoc(f, q.ready, p);
    if cfg.policy == PreemptivePrio {
      LevelTallySnoc(f, q.levels, LevelOf(p), p);
    }
  }

  lemma TallySnoc(f: Field, ps: seq<PCB>, p: PCB)
    ensures Tally(f, ps + [p]) == Tally(f, ps) + multiset{Get(f, p)}
  {
    TallyAppend(f, ps, [p]);
    assert Keys(f, [p]) == [Get(f, p)];
  }

  lemma LevelTallySnoc(f: Field, levels: seq<seq<PCB>>, l: nat, p: PCB)
    requires l < |levels|
    ensures LevelTally(f, levels[l := levels[l] + [p]]) == LevelTally(f, levels) + multiset{Get(f, p)}
  {
    hide LevelTally, Tally;
    TallySnoc(f, levels[l], p);
    LevelTallyUpdate(f, levels, l, levels[l] + [p]);
    Cancel(LevelTally(f, levels[l := levels[l] + [p]]), LevelTally(f, levels), Tally(f, levels[l]),
           multiset{Get(f, p)});
  }

  /** The threads the sweep finds terminated or out of life. */
  ghost function Gone(f: Field, ts: seq<Thread>): multiset<int> {
    if ts == [] then multiset{}
    else
      var t := ts[|ts|-1];
      Gone(f, ts[..|ts|-1]) + (if Done(Bump(t.pcb)) then multiset{Get(f, t.pcb)} else multiset{})
  }

  /** `after` is `before` without the `gone` ones, each of them counted as completed. */
  ghost predicate Settled(before: multiset<int>, c: nat, after: multiset<int>, c': nat, gone: multiset<int>) {
    before == after + gone && c' == c + |gone|
  }

  ghost predicate SweepSettled(cfg: Config, f: Field, q: Sched, ts: seq<Thread>, q': Sched) {
    Settled(Queued(f, q) + ThreadTally(f, ts), q.completed,
            Queued(f, q') + ThreadTally(f, Kept(cfg, ts)), q'.completed, Gone(f, ts))
  }

  ghost predicate LoadWithin(q: Sched, ts: seq<Thread>, pids: multiset<int>, prios: multiset<int>) {
    && Queued(Pid, q) + ThreadTally(Pid, ts) <= pids
    && Queued(Priority, q) + ThreadTally(Priority, ts) <= prios
  }

  lemma ThreadTallySnoc(f: Field, ts: seq<Thread>, t: Thread)
    ensures ThreadTally(f, ts + [t]) == ThreadTally(f, ts) + multiset{Get(f, t.pcb)}
  {
    ThreadTallyAppend(f, ts, [t]);
    assert ThreadKeys(f, [t]) == [Get(f, t.pcb)];
  }

  lemma SettledGrows(before: multiset<int>, c: nat, after: multiset<int>, c': nat, gone: multiset<int>, k: int)
    requires Settled(before, c, after, c', gone)
    ensures Settled(before + multiset{k}, c, after + multiset{k}, c', gone + multiset{})
    ensures Settled(before + multiset{k}, c, after, c' + 1, gone + multiset{k})
  {
    assert gone + multiset{} == gone;
  }

  lemma KeptSnoc(cfg: Config, ts: seq<Thread>, t: Thread)
    ensures Kept(cfg, ts + [t]) == Kept(cfg, ts) + (if Stays(cfg, t) then [Bumped(t)] else [])
  {
    assert (ts + [t])[..|ts|] == ts;
  }

  lemma GoneSnoc(f: Field, ts: seq<Thread>, t: Thread)
    ensures Gone(f, ts + [t])
            == Gone(f, ts) + (if Done(Bump(t.pcb)) then multiset{Get(f, t.pcb)} else multiset{})
  {
    assert (ts + [t])[..|ts|] == ts;
  }

  lemma SameQueuesSameTally(f: Field, q: Sched, r: Sched)
    requires q.ready == r.ready && q.levels == r.levels
    ensures Queued(f, q) == Queued(f, r)
  {
  }

  lemma HandleCounts(cfg: Config, clock: int, f: Field, q0: Sched, ts: seq<Thread>, q: Sched, t: Thread)
    requires SchedWf(cfg, q) && SweepSettled(cfg, f, q0, ts, q)
    requires Leaves(cfg, t) ==> EnqueueTo(cfg, q, Saved(cfg, clock, Bumped(t))).Some?
    ensures SweepSettled(cfg, f, q0, ts + [t], Handle(cfg, clock, q, t))
  {
    KeptSnoc(cfg, ts, t);
    GoneSnoc(f, ts, t);
    hide LevelTally, Tally, ThreadTally, Kept, Gone, Queued;
    ThreadTallySnoc(f, ts, t);
    var q', k := Handle(cfg, clock, q, t), Get(f, t.pcb);
    var before, after := Queued(f, q0) + ThreadTally(f, ts), Queued(f, q) + ThreadTally(f, Kept(cfg, ts));
    assert Queued(f, q0) + ThreadTally(f, ts + [t]) == before + multiset{k};
    SettledGrows(before, q0.completed, after, q.completed, Gone(f, ts), k);
    if Stays(cfg, t) {
      ThreadTallySnoc(f, Kept(cfg, ts), Bumped(t));
      assert Queued(f, q') + ThreadTally(f, Kept(cfg, ts + [t])) == after + multiset{k};
    } else {
      assert Kept(cfg, ts) + [] == Kept(cfg, ts);
      if Leaves(cfg, t) {
        EnqueueAdds(cfg, f, q, Saved(cfg, clock, Bumped(t)));
        assert Queued(f, q') + ThreadTally(f, Kept(cfg, ts + [t])) == after + multiset{k};
      } else {
        SameQueuesSameTally(f, q, q');
      }
    }
  }

  /** Within the load the requeue of an expired thread succeeds. */
  lemma RequeueSucceeds(cfg: Config, clock: int, q0: Sched, ts: seq<Thread>, q: Sched, t: Thread,
                        pids: multiset<int>, prios: multiset<int>)
    requires SchedWf(cfg, q) && Placed(q) && Fits(cfg, pids, prios) && LoadWithin(q0, ts + [t], pids, prios)
    requires forall f: Field :: SweepSettled(cfg, f, q0, ts, q)
    ensures EnqueueTo(cfg, q, Saved(cfg, clock, Bumped(t))).Some?
    ensures Placed(EnqueueTo(cfg, q, Saved(cfg, clock, Bumped(t))).value)
  {
    hide Queued, ThreadTally, Kept, Fits;
    ThreadTallySnoc(Pid, ts, t);
    ThreadTallySnoc(Priority, ts, t);
    assert SweepSettled(cfg, Pid, q0, ts, q) && SweepSettled(cfg, Priority, q0, ts, q);
    SubsetChain(Queued(Pid, q), ThreadTally(Pid, Kept(cfg, ts)), Queued(Pid, q0), ThreadTally(Pid, ts),
                multiset{t.pcb.pid}, pids);
    SubsetChain(Queued(Priority, q), ThreadTally(Priority, Kept(cfg, ts)), Queued(Priority, q0),
                ThreadTally(Priority, ts), multiset{t.pcb.priority}, prios);
    EnqueueSucceeds(cfg, q, Saved(cfg, clock, Bumped(t)), pids, prios);
  }

  lemma HandleSettles(cfg: Config, clock: int, q0: Sched, ts: seq<Thread>, q: Sched, t: Thread,
                      pids: multiset<int>, prios: multiset<int>)
    requires SchedWf(cfg, q) && Placed(q) && Fits(cfg, pids, prios) && LoadWithin(q0, ts + [t], pids, prios)
    requires forall f: Field :: SweepSettled(cfg, f, q0, ts, q)
    ensures var q' := Handle(cfg, clock, q, t);
            Placed(q') && forall f: Field :: SweepSettled(cfg, f, q0, ts + [t], q')
  {
    if Leaves(cfg, t) {
      RequeueSucceeds(cfg, clock, q0, ts, q, t, pids, prios);
    }
    forall f: Field ensures SweepSettled(cfg, f, q0, ts + [t], Handle(cfg, clock, q, t)) {
      HandleCounts(cfg, clock, f, q0, ts, q, t);
    }
  }

  lemma NothingSwept(cfg: Config, q: Sched)
    ensures forall f: Field :: SweepSettled(cfg, f, q, [], q)
  {
    hide LevelTally, Tally;
    forall f: Field ensures SweepSettled(cfg, f, q, [], q) {
    }
  }

  /** Within the load the sweep leaves everyone queued, executing or counted as completed. */
  lemma {:induction false} SweepSettles(cfg: Config, clock: int, q: Sched, ts: seq<Thread>, pids: multiset<int>,
                                        prios: multiset<int>)
    requires SchedWf(cfg, q) && Placed(q) && Fits(cfg, pids, prios) && LoadWithin(q, ts, pids, prios)
    ensures var q' := SweepQueues(cfg, clock, q, ts);
            Placed(q') && forall f: Field :: SweepSettled(cfg, f, q, ts, q')
  {
    hide Queued, ThreadTally, Kept, Fits, Placed, Gone, Handle, SweepSettled;
    if ts == [] {
      NothingSwept(cfg, q);
    } else {
      var n := |ts| - 1;
      assert ts == ts[..n] + [ts[n]];
      ThreadTallySnoc(Pid, ts[..n], ts[n]);
      ThreadTallySnoc(Priority, ts[..n], ts[n]);
      SweepSettles(cfg, clock, q, ts[..n], pids, prios);
      HandleSettles(cfg, clock, q, ts[..n], SweepQueues(cfg, clock, q, ts[..n]), ts[n], pids, prios);
    }
  }

  ghost predicate SameQueued(q: Sched, r: Sched) {
    && Queued(Pid, r) == Queued(Pid, q) && Queued(Priority, r) == Queued(Priority, q)
    && Queued(Ttl, r) == Queued(Ttl, q)
  }

  /** The guard of the queue an expired process goes back to. */
  predicate HasPlace(cfg: Config, q: Sched, p: PCB)
    requires |q.levels| == (if cfg.policy == PreemptivePrio then NUM_PRIORITY_LEVELS else 0)
  {
    if cfg.policy == PreemptivePrio
    then MIN_PRIORITY <= p.priority <= MAX_PRIORITY && |q.levels[LevelOf(p)]| < LevelCapacity(cfg)
    else |q.ready| < cfg.readyCapacity
  }

  /** An expired process stays in the system if and only if its queue has a place for it. */
  lemma RequeueKeepsIff(cfg: Config, clock: int, q: Sched, t: Thread)
    requires SchedWf(cfg, q) && Leaves(cfg, t)
    ensures Queued(Pid, Handle(cfg, clock, q, t)) == Queued(Pid, q) + multiset{t.pcb.pid}
            <==> HasPlace(cfg, q, t.pcb)
  {
    var p, q' := Saved(cfg, clock, Bumped(t)), Handle(cfg, clock, q, t);
    if HasPlace(cfg, q, t.pcb) {
      EnqueueAdds(cfg, Pid, q, p);
    } else {
      SameQueuesSameTally(Pid, q, q');
      hide Queued;
      assert Queued(Pid, q')[t.pcb.pid] != (Queued(Pid, q) + multiset{t.pcb.pid})[t.pcb.pid];
    }
  }

  lemma QueuedHead(f: Field, q: Sched, rest: Sched)
    requires q.ready != [] && rest.ready == q.ready[1..] && rest.levels == q.levels
    ensures Queued(f, q) == Queued(f, rest) + multiset{Get(f, q.ready[0])}
  {
    TallyHead(f, q.ready);
  }

  lemma StillPlaced(q: Sched, rest: Sched)
    requires Placed(q) && rest.levels == q.levels
    ensures Placed(rest)
  {
  }

  lemma EnqueueFrame(cfg: Config, q: Sched, p: PCB)
    requires SchedWf(cfg, q) && EnqueueTo(cfg, q, p).Some?
    ensures var r := EnqueueTo(cfg, q, p).value; r.completed == q.completed && r.preempted == q.preempted
  {
  }

  /** Within the load every arrival reaches its priority queue. */
  lemma {:induction false} TransferEmptiesReady(cfg: Config, room: bool, q: Sched, pids: multiset<int>,
                                                prios: multiset<int>)
    requires SchedWf(cfg, q) && cfg.policy == PreemptivePrio && Placed(q) && Fits(cfg, pids, prios)
    requires Queued(Pid, q) <= pids && Queued(Priority, q) <= prios
    ensures var r := Transfer(cfg, room, q);
            && r.ready == [] && Placed(r) && r.completed == q.completed && SameQueued(q, r)
            && (room || q.ready == [] ==> r.preempted == q.preempted)
    decreases |q.ready|
  {
    hide Queued, EnqueueTo, Placed, Fits;
    if q.ready != [] {
      var p := q.ready[0];
      var rest := q.(ready := q.ready[1..], preempted := q.preempted || !room);
      QueuedHead(Pid, q, rest);
      QueuedHead(Priority, q, rest);
      QueuedHead(Ttl, q, rest);
      StillPlaced(q, rest);
      EnqueueSucceeds(cfg, rest, p, pids, prios);
      EnqueueAdds(cfg, Pid, rest, p);
      EnqueueAdds(cfg, Priority, rest, p);
      EnqueueAdds(cfg, Ttl, rest, p);
      EnqueueFrame(cfg, rest, p);
      TransferEmptiesReady(cfg, room, EnqueueTo(cfg, rest, p).value, pids, prios);
    }
  }

  lemma SelectFromLevels(cfg: Config, f: Field, q: Sched)
    requires SchedWf(cfg, q) && HasReady(cfg, q) && cfg.policy == PreemptivePrio
    ensures var (p, r) := SelectNext(cfg, q); Queued(f, r) + multiset{Get(f, p)} == Queued(f, q)
  {
    hide LevelTally, Tally;
    var i := FirstLevel(q.levels, 0);
    TallyHead(f, q.levels[i]);
    LevelTallyUpdate(f, q.levels, i, q.levels[i][1..]);
    var rest := Tally(f, q.levels[i][1..]);
    var key := multiset{Get(f, q.levels[i][0])};
    var less := LevelTally(f, q.levels[i := q.levels[i][1..]]);
    assert LevelTally(f, q.levels) + rest == less + (rest + key);
    Cancel(LevelTally(f, q.levels), less, rest, key);
  }

  /** The only selection that a queue beyond the load can spoil is the BFS one. */
  ghost predicate Selectable(cfg: Config, q: Sched, pids: multiset<int>, prios: multiset<int>) {
    cfg.policy == Bfs ==> Fits(cfg, pids, prios) && Queued(Pid, q) <= pids
  }

  /** Selection takes out exactly the process it returns, under BFS within the load. */
  lemma SelectTakesOne(cfg: Config, f: Field, q: Sched, pids: multiset<int>, prios: multiset<int>)
    requires SchedWf(cfg, q) && HasReady(cfg, q) && Selectable(cfg, q, pids, prios)
    ensures var (p, r) := SelectNext(cfg, q); Queued(f, r) + multiset{Get(f, p)} == Queued(f, q)
  {
    match cfg.policy
    case RoundRobin => TallyHead(f, q.ready);
    case Bfs =>
      var m := Scan(q.ready).1;
      ReadyHalfFull(cfg, q, pids, prios);
      ShiftOutRemoves(q.ready, m, cfg.readyCapacity);
      TallyRemoveAt(f, q.ready, m);
    case PreemptivePrio => SelectFromLevels(cfg, f, q);
  }

  /** Selection takes out exactly the process it returns, under BFS if and only if the shift loop
      stays clear of the front of the ring; otherwise the front process is lost and another doubled. */
  lemma SelectTakesOneIff(cfg: Config, q: Sched)
    requires SchedWf(cfg, q) && HasReady(cfg, q) && forall x :: Tally(Pid, q.ready)[x] <= 1
    ensures var (p, r) := SelectNext(cfg, q);
            Queued(Pid, r) + multiset{p.pid} == Queued(Pid, q) <==>
            (cfg.policy == Bfs ==> ShiftFits(|q.ready|, Scan(q.ready).1, cfg.readyCapacity))
    ensures var (p, r) := SelectNext(cfg, q); var m := Scan(q.ready).1;
            cfg.policy == Bfs && !ShiftFits(|q.ready|, m, cfg.readyCapacity) ==>
              Queued(Pid, r) + multiset{q.ready[0].pid, p.pid}
              == Queued(Pid, q) + multiset{q.ready[Doubled(|q.ready|, m, cfg.readyCapacity)].pid}
  {
    match cfg.policy
    case RoundRobin => TallyHead(Pid, q.ready);
    case Bfs =>
      var m := Scan(q.ready).1;
      if ShiftFits(|q.ready|, m, cfg.readyCapacity) {
        ShiftOutRemoves(q.ready, m, cfg.readyCapacity);
        TallyRemoveAt(Pid, q.ready, m);
      } else {
        LossyShift(q, m, cfg.readyCapacity);
      }
    case PreemptivePrio => SelectFromLevels(cfg, Pid, q);
  }

  lemma LossyKeys(ks: seq<int>, m: nat, cap: nat)
    requires m < |ks| <= cap && !ShiftFits(|ks|, m, cap) && multiset(ks)[ks[0]] <= 1
    ensures var l, left := Doubled(|ks|, m, cap), multiset(ShiftOut(ks, m, cap));
            && left + multiset{ks[0], ks[m]} == multiset(ks) + multiset{ks[l]}
            && left[ks[0]] == 0 && multiset(ks)[ks[0]] == 1 && ks[0] != ks[m]
  {
    hide ShiftOut;
    var l, left := Doubled(|ks|, m, cap), multiset(ShiftOut(ks, m, cap));
    ShiftOutLoses(ks, m, cap);
    CountedOnce(ks, 0, l);
    CountedOnce(ks, 0, m);
    assert ks[0] in multiset(ks);
    assert (left + multiset{ks[0], ks[m]})[ks[0]] == (multiset(ks) + multiset{ks[l]})[ks[0]];
  }

  lemma AddBoth(a: multiset<int>, u: multiset<int>, b: multiset<int>, v: multiset<int>, n: multiset<int>)
    requires a + u == b + v
    ensures (a + n) + u == (b + n) + v
  {
    assert (a + n) + u == (a + u) + n;
    assert (b + n) + v == (b + v) + n;
  }

  lemma LossyShift(q: Sched, m: nat, cap: nat)
    requires m < |q.ready| <= cap && !ShiftFits(|q.ready|, m, cap) && forall x :: Tally(Pid, q.ready)[x] <= 1
    ensures var l, r := Doubled(|q.ready|, m, cap), q.(ready := ShiftOut(q.ready, m, cap));
            && Queued(Pid, r) + multiset{q.ready[0].pid, q.ready[m].pid} == Queued(Pid, q) + multiset{q.ready[l].pid}
            && Queued(Pid, r) + multiset{q.ready[m].pid} != Queued(Pid, q)
  {
    hide LevelTally;
    var ks, l, levels := Keys(Pid, q.ready), Doubled(|q.ready|, m, cap), LevelTally(Pid, q.levels);
    assert Tally(Pid, q.ready)[ks[0]] <= 1;
    LossyKeys(ks, m, cap);
    assert Keys(Pid, ShiftOut(q.ready, m, cap)) == ShiftOut(ks, m, cap);
    hide ShiftOut;
    var left := multiset(ShiftOut(ks, m, cap));
    AddBoth(left, multiset{ks[0], ks[m]}, multiset(ks), multiset{ks[l]}, levels);
    assert ((left + levels) + multiset{ks[m]})[ks[0]] != (multiset(ks) + levels)[ks[0]];
  }

  lemma ReadyHalfFull(cfg: Config, q: Sched, pids: multiset<int>, prios: multiset<int>)
    requires cfg.policy == Bfs && q.ready != [] && Fits(cfg, pids, prios) && Queued(Pid, q) <= pids
    ensures forall m: nat :: m < |q.ready| ==> ShiftFits(|q.ready|, m, cfg.readyCapacity)
  {
    assert |Tally(Pid, q.ready)| == |q.ready|;
    SubsetSize(Tally(Pid, q.ready), pids);
    ShiftAlwaysFits(|q.ready|, cfg.readyCapacity);
  }

  lemma {:induction false} DispatchOneMoves(cfg: Config, clock: int, f: Field, q: Sched, cores: seq<seq<Thread>>,
                                            pids: multiset<int>, prios: multiset<int>)
    requires SchedWf(cfg, q) && CoresWf(cfg, cores) && CanDispatch(cfg, q, cores)
    requires Selectable(cfg, q, pids, prios)
    ensures var (q', cores') := DispatchOne(cfg, clock, q, cores);
            Queued(f, q') <= Queued(f, q) && Queued(f, q') + Executing(f, cores') == Queued(f, q) + Executing(f, cores)
  {
    SelectTakesOne(cfg, f, q, pids, prios);
    ExecutingPut(f, cores, FirstFree(cfg, cores, 0), Restored(cfg, clock, SelectNext(cfg, q).0));
  }

  /** The dispatch loop moves processes from the queues to the hardware threads and loses none, under BFS
      within the load. */
  lemma {:induction false} DispatchMoves(cfg: Config, clock: int, f: Field, q: Sched, cores: seq<seq<Thread>>,
                                         pids: multiset<int>, prios: multiset<int>)
    requires SchedWf(cfg, q) && CoresWf(cfg, cores) && Selectable(cfg, q, pids, prios)
    ensures var (q', cores') := Dispatch(cfg, clock, q, cores);
            Queued(f, q') + Executing(f, cores') == Queued(f, q) + Executing(f, cores)
    decreases FreeSlots(cfg, cores)
  {
    if CanDispatch(cfg, q, cores) {
      DispatchOneMoves(cfg, clock, f, q, cores, pids, prios);
      DispatchOneMoves(cfg, clock, Pid, q, cores, pids, prios);
      var (q', cores') := DispatchOne(cfg, clock, q, cores);
      DispatchMoves(cfg, clock, f, q', cores', pids, prios);
    }
  }

  /** What the dispatch loop leaves alone. */
  lemma {:induction false} DispatchFrame(cfg: Config, clock: int, q: Sched, cores: seq<seq<Thread>>)
    requires SchedWf(cfg, q) && CoresWf(cfg, cores) && Placed(q)
    ensures var (q', cores') := Dispatch(cfg, clock, q, cores);
            && Placed(q') && q'.completed == q.completed && q'.preempted == q.preempted
            && (cfg.policy == PreemptivePrio ==> q'.ready == q.ready)
            && |cores'| == |cores|
    decreases FreeSlots(cfg, cores)
  {
    if CanDispatch(cfg, q, cores) {
      var (q', cores') := DispatchOne(cfg, clock, q, cores);
      DispatchFrame(cfg, clock, q', cores');
    }
  }

  // ------------------------------------------------------------------ the invariant over runs

  /** The state of a run that started with `pids` and `prios`: nobody lost, nobody doubled. */
  ghost predicate Conserved(cfg: Config, s: Sys, pids: multiset<int>, prios: multiset<int>) {
    && Fits(cfg, pids, prios) && Placed(s.sched)
    && Live(Pid, s) <= pids && Live(Priority, s) <= prios
    && |Live(Pid, s)| + s.sched.completed == |pids|
  }

  lemma BeforeDispatchConserves(cfg: Config, s: Sys, pids: multiset<int>, prios: multiset<int>)
    requires SysWf(cfg, s) && Conserved(cfg, s, pids, prios)
    ensures var q, cores := BeforeDispatch(cfg, s), KeptCores(cfg, s.cores);
            && Placed(q) && Queued(Pid, q) <= pids
            && (cfg.policy == PreemptivePrio ==> q.ready == [])
            && forall f: Field :: Settled(Live(f, s), s.sched.completed,
                                          Queued(f, q) + Executing(f, cores), q.completed, Gone(f, Order(s.cores)))
    ensures (cfg.policy == PreemptivePrio ==> s.sched.ready == [] || HasRoom(cfg, KeptCores(cfg, s.cores)))
            ==> BeforeDispatch(cfg, s).preempted == s.sched.preempted
  {
    var ts := Order(s.cores);
    SweepSettles(cfg, s.clock, s.sched, ts, pids, prios);
    SweepNeverPreempts(cfg, s.clock, s.sched, ts);
    OrderKept(cfg, s.cores);
    var q := SweepQueues(cfg, s.clock, s.sched, ts);
    assert SweepSettled(cfg, Pid, s.sched, ts, q) && SweepSettled(cfg, Priority, s.sched, ts, q)
           && SweepSettled(cfg, Ttl, s.sched, ts, q);
    if cfg.policy == PreemptivePrio {
      TransferEmptiesReady(cfg, HasRoom(cfg, KeptCores(cfg, s.cores)), q, pids, prios);
    }
    forall f: Field
      ensures Settled(Live(f, s), s.sched.completed,
                      Queued(f, BeforeDispatch(cfg, s)) + Executing(f, KeptCores(cfg, s.cores)),
                      BeforeDispatch(cfg, s).completed, Gone(f, ts))
    {
      assert f == Pid || f == Priority || f == Ttl;
    }
  }

  /** Within the load exactly the terminated and the out-of-life leave in an activation. */
  lemma ActivateConserves(cfg: Config, s: Sys, pids: multiset<int>, prios: multiset<int>)
    requires SysWf(cfg, s) && Conserved(cfg, s, pids, prios)
    ensures Conserved(cfg, Activate(cfg, s), pids, prios)
    ensures Wakes(cfg, s) && cfg.policy == PreemptivePrio ==> Activate(cfg, s).sched.ready == []
    ensures Live(Ttl, Activate(cfg, s)) <= Live(Ttl, s)
    ensures Wakes(cfg, s) ==> Live(Pid, s) == Live(Pid, Activate(cfg, s)) + Gone(Pid, Order(s.cores))
  {
    if Wakes(cfg, s) {
      BeforeDispatchConserves(cfg, s, pids, prios);
      var q, cores := BeforeDispatch(cfg, s), KeptCores(cfg, s.cores);
      DispatchMoves(cfg, s.clock, Pid, q, cores, pids, prios);
      DispatchMoves(cfg, s.clock, Priority, q, cores, pids, prios);
      DispatchMoves(cfg, s.clock, Ttl, q, cores, pids, prios);
      DispatchFrame(cfg, s.clock, q, cores);
      assert Settled(Live(Ttl, s), s.sched.completed, Queued(Ttl, q) + Executing(Ttl, cores), q.completed,
                     Gone(Ttl, Order(s.cores)));
      assert Settled(Live(Priority, s), s.sched.completed, Queued(Priority, q) + Executing(Priority, cores),
                     q.completed, Gone(Priority, Order(s.cores)));
    }
  }

  lemma TickConserves(cfg: Config, s: Sys, f: Field)
    requires SysWf(cfg, s) && f != Ttl
    ensures Live(f, Tick(cfg, s)) == Live(f, s)
  {
    hide TickCores;
    TickPointwise(s.cores, s.mem);
    assert ThreadKeys(f, Order(Tick(cfg, s).cores)) == ThreadKeys(f, Order(s.cores));
  }

  lemma NextConserves(cfg: Config, s: Sys, e: Step, pids: multiset<int>, prios: multiset<int>)
    requires SysWf(cfg, s) && Conserved(cfg, s, pids, prios)
    ensures Conserved(cfg, Next(cfg, s, e), pids, prios)
  {
    match e
    case ClockTick =>
      TickConserves(cfg, s, Pid);
      TickConserves(cfg, s, Priority);
    case Activation => ActivateConserves(cfg, s, pids, prios);
  }

  /** The machine is idle, the scheduler has done nothing yet, and every process waits in the ready queue. */
  ghost predicate Idle(s: Sys) {
    && s.lastTick == 0 <= s.clock
    && s.sched.completed == 0 && !s.sched.preempted && s.sched.log == []
    && (forall l :: 0 <= l < |s.sched.levels| ==> s.sched.levels[l] == [])
    && (forall i :: 0 <= i < |s.cores| ==> s.cores[i] == [])
  }

  /** Whatever start-up can hand over: an idle system whose pids are distinct. */
  ghost predicate Accepted(cfg: Config, s: Sys) {
    SysWf(cfg, s) && Idle(s) && forall x :: Live(Pid, s)[x] <= 1
  }

  /** The same with a load that fits the queues. */
  ghost predicate Loaded(cfg: Config, s: Sys) {
    && Accepted(cfg, s)
    && Fits(cfg, Live(Pid, s), Live(Priority, s))
  }

  lemma {:induction false} RunConserves(cfg: Config, s: Sys, es: seq<Step>)
    requires Loaded(cfg, s)
    ensures Conserved(cfg, Run(cfg, s, es), Live(Pid, s), Live(Priority, s))
  {
    if es != [] {
      RunConserves(cfg, s, es[..|es|-1]);
      NextConserves(cfg, Run(cfg, s, es[..|es|-1]), es[|es|-1], Live(Pid, s), Live(Priority, s));
    }
  }

  /** With a load that fits the queues, along every interleaving the live pids are distinct, were all
      loaded, and with the completed ones add up to the load. */
  lemma {:induction false} ProcessConservation(cfg: Config, s: Sys, es: seq<Step>)
    requires Loaded(cfg, s)
    ensures var now := Run(cfg, s, es);
            && Live(Pid, now) <= Live(Pid, s)
            && (forall x :: Live(Pid, now)[x] <= 1)
            && |Live(Pid, now)| + now.sched.completed == |Live(Pid, s)|
  {
    RunConserves(cfg, s, es);
  }

  // ------------------------------------------------------------------ nobody is doubled, at any load

  /** A transferred arrival is in a level or at the rear of the ready queue. */
  lemma ArrivalKept(cfg: Config, q: Sched, rest: Sched)
    requires SchedWf(cfg, q) && SchedWf(cfg, rest) && q.ready != []
    requires rest.ready == q.ready[1..] && rest.levels == q.levels
    ensures match EnqueueTo(cfg, rest, q.ready[0])
            case Some(r) => Queued(Pid, r) == Queued(Pid, q)
            case None => Queued(Pid, rest.(ready := rest.ready + [q.ready[0]])) == Queued(Pid, q)
  {
    hide LevelTally, Tally;
    TallyHead(Pid, q.ready);
    if EnqueueTo(cfg, rest, q.ready[0]).Some? {
      EnqueueAdds(cfg, Pid, rest, q.ready[0]);
    } else {
      TallySnoc(Pid, rest.ready, q.ready[0]);
    }
  }

  /** Whatever the load, the transfer loses and doubles nobody. */
  lemma {:induction false} TransferKeepsAll(cfg: Config, room: bool, q: Sched)
    requires SchedWf(cfg, q) && cfg.policy == PreemptivePrio
    ensures Queued(Pid, Transfer(cfg, room, q)) == Queued(Pid, q)
    decreases |q.ready|
  {
    hide Queued, EnqueueTo;
    if q.ready != [] {
      var rest := q.(ready := q.ready[1..], preempted := q.preempted || !room);
      ArrivalKept(cfg, q, rest);
      match EnqueueTo(cfg, rest, q.ready[0])
      case Some(r) => TransferKeepsAll(cfg, room, r);
      case None =>
    }
  }

  lemma HandleNeverAdds(cfg: Config, clock: int, q: Sched, t: Thread)
    requires SchedWf(cfg, q)
    ensures Queued(Pid, Handle(cfg, clock, q, t)) + (if Stays(cfg, t) then multiset{t.pcb.pid} else multiset{})
            <= Queued(Pid, q) + multiset{t.pcb.pid}
  {
    var p := Saved(cfg, clock, Bumped(t));
    if Leaves(cfg, t) && EnqueueTo(cfg, q, p).Some? {
      EnqueueAdds(cfg, Pid, q, p);
    } else {
      SameQueuesSameTally(Pid, q, Handle(cfg, clock, q, t));
    }
  }

  lemma AddsUp(q': multiset<int>, k': multiset<int>, q: multiset<int>, k: multiset<int>, r: multiset<int>,
               a: multiset<int>, b: multiset<int>)
    requires q + k <= q' + k' && r + a <= q + b
    ensures r + (k + a) <= q' + (k' + b)
  {
    forall x: int ensures (r + (k + a))[x] <= (q' + (k' + b))[x] {
      assert (q + k)[x] <= (q' + k')[x] && (r + a)[x] <= (q + b)[x];
    }
  }

  lemma {:induction false} SweepNeverAdds(cfg: Config, clock: int, q: Sched, ts: seq<Thread>)
    requires SchedWf(cfg, q)
    ensures Queued(Pid, SweepQueues(cfg, clock, q, ts)) + ThreadTally(Pid, Kept(cfg, ts))
            <= Queued(Pid, q) + ThreadTally(Pid, ts)
  {
    hide Queued, ThreadTally, Handle;
    if ts != [] {
      var n := |ts| - 1;
      var t, before := ts[n], SweepQueues(cfg, clock, q, ts[..n]);
      assert ts == ts[..n] + [t];
      SweepNeverAdds(cfg, clock, q, ts[..n]);
      HandleNeverAdds(cfg, clock, before, t);
      ThreadTallySnoc(Pid, ts[..n], t);
      ThreadTallySnoc(Pid, Kept(cfg, ts[..n]), Bumped(t));
      var kept := if Stays(cfg, t) then multiset{t.pcb.pid} else multiset{};
      assert ThreadTally(Pid, Kept(cfg, ts)) == ThreadTally(Pid, Kept(cfg, ts[..n])) + kept by {
        assert Kept(cfg, ts[..n]) + [] == Kept(cfg, ts[..n]);
      }
      AddsUp(Queued(Pid, q), ThreadTally(Pid, ts[..n]), Queued(Pid, before), ThreadTally(Pid, Kept(cfg, ts[..n])),
             Queued(Pid, SweepQueues(cfg, clock, q, ts)), kept, multiset{t.pcb.pid});
    }
  }

  lemma ActivateNeverAdds(cfg: Config, s: Sys)
    requires SysWf(cfg, s) && cfg.policy != Bfs
    ensures Live(Pid, Activate(cfg, s)) <= Live(Pid, s)
  {
    hide SweepQueues, Kept, Transfer, Dispatch, Queued, ThreadTally;
    if Wakes(cfg, s) {
      var ts, cores := Order(s.cores), KeptCores(cfg, s.cores);
      SweepNeverAdds(cfg, s.clock, s.sched, ts);
      OrderKept(cfg, s.cores);
      if cfg.policy == PreemptivePrio {
        TransferKeepsAll(cfg, HasRoom(cfg, cores), SweepQueues(cfg, s.clock, s.sched, ts));
      }
      DispatchMoves(cfg, s.clock, Pid, BeforeDispatch(cfg, s), cores, multiset{}, multiset{});
    }
  }

  /** Any load that start-up accepts, except one that overfills a BFS queue. */
  ghost predicate Undoubled(cfg: Config, s: Sys) {
    Accepted(cfg, s) && (cfg.policy == Bfs ==> Fits(cfg, Live(Pid, s), Live(Priority, s)))
  }

  /** In every run of such a load the live pids are distinct and were all loaded: a priority load that
      does not fit can lose a process, and the queues double one only in an overfull BFS ring. What the
      preemption routine does when it replaces a process is not part of a run. */
  lemma {:induction false} NobodyDoubled(cfg: Config, s: Sys, es: seq<Step>)
    requires Undoubled(cfg, s)
    ensures Live(Pid, Run(cfg, s, es)) <= Live(Pid, s) && forall x :: Live(Pid, Run(cfg, s, es))[x] <= 1
  {
    hide Live;
    if cfg.policy == Bfs {
      ProcessConservation(cfg, s, es);
    } else if es != [] {
      var now := Run(cfg, s, es[..|es|-1]);
      NobodyDoubled(cfg, s, es[..|es|-1]);
      match es[|es|-1]
      case ClockTick => TickConserves(cfg, now, Pid);
      case Activation => ActivateNeverAdds(cfg, now);
    }
  }

  // ------------------------------------------------------------------ no preemption

  ghost predicate QuietTransfer(cfg: Config, s: Sys) {
    && !s.sched.preempted
    && (cfg.policy == PreemptivePrio ==> s.sched.ready == [] || Order(s.cores) == [])
  }

  lemma {:induction false} NobodyExecutes(cores: seq<seq<Thread>>, i: nat)
    requires Order(cores) == [] && i < |cores|
    ensures cores[i] == []
  {
    assert |Reversed(cores[|cores|-1])| == 0;
    if i < |cores| - 1 {
      NobodyExecutes(cores[..|cores|-1], i);
    }
  }

  lemma {:induction false} EmptyOrder(cores: seq<seq<Thread>>)
    requires forall i :: 0 <= i < |cores| ==> cores[i] == []
    ensures Order(cores) == []
  {
    if cores != [] {
      EmptyOrder(cores[..|cores|-1]);
    }
  }

  lemma {:induction false} SweepNeverPreempts(cfg: Config, clock: int, q: Sched, ts: seq<Thread>)
    requires SchedWf(cfg, q)
    ensures SweepQueues(cfg, clock, q, ts).preempted == q.preempted
    ensures cfg.policy == PreemptivePrio ==> SweepQueues(cfg, clock, q, ts).ready == q.ready
  {
    if ts != [] {
      SweepNeverPreempts(cfg, clock, q, ts[..|ts|-1]);
    }
  }

  lemma ActivateStaysQuiet(cfg: Config, s: Sys, pids: multiset<int>, prios: multiset<int>)
    requires SysWf(cfg, s) && Conserved(cfg, s, pids, prios) && QuietTransfer(cfg, s)
    requires |s.cores| > 0 && cfg.threads > 0
    ensures QuietTransfer(cfg, Activate(cfg, s)) && |Activate(cfg, s).cores| > 0
  {
    hide SweepQueues, Kept, Queued, Executing, Fits, Placed;
    if Wakes(cfg, s) {
      BeforeDispatchConserves(cfg, s, pids, prios);
      ActivateConserves(cfg, s, pids, prios);
      SweepNeverPreempts(cfg, s.clock, s.sched, Order(s.cores));
      DispatchFrame(cfg, s.clock, BeforeDispatch(cfg, s), KeptCores(cfg, s.cores));
      if Order(s.cores) == [] {
        OrderKept(cfg, s.cores);
        NobodyExecutes(KeptCores(cfg, s.cores), 0);
        assert HasRoom(cfg, KeptCores(cfg, s.cores)) by {
          assert |KeptCores(cfg, s.cores)[0]| < cfg.threads;
        }
      }
    }
  }

  /** With every process loaded before the scheduler starts and no level loaded beyond its capacity, the
      preemption routine is never called. */
  lemma {:induction false} PreemptionNeverReached(cfg: Config, s: Sys, es: seq<Step>)
    requires Loaded(cfg, s) && |s.cores| > 0 && cfg.threads > 0
    ensures QuietTransfer(cfg, Run(cfg, s, es)) && |Run(cfg, s, es).cores| > 0
  {
    if es == [] {
      EmptyOrder(s.cores);
    } else {
      PreemptionNeverReached(cfg, s, es[..|es|-1]);
      RunConserves(cfg, s, es[..|es|-1]);
      var now := Run(cfg, s, es[..|es|-1]);
      match es[|es|-1]
      case ClockTick => TickPointwise(now.cores, now.mem);
      case Activation => ActivateStaysQuiet(cfg, now, Live(Pid, s), Live(Priority, s));
    }
  }
}
