/** Loads that do not fit, on one core: how long they run before the BFS removal or the requeue of the
    priority policy loses a process, and which one it is. */
module OverloadRuns {
  import opened CArith
  import opened Process
  import opened Machine
  import opened Scheduler
  import opened Decisions
  import opened Population
  import opened Conservation
  import opened Termination
  import opened RoundRobinFairness
  import opened PriorityDispatch
  import opened Transparency
  import opened Overload

  // ------------------------------------------------------------------ turns on one core

  predicate Unfinished(t: Thread) { !Done(t.pcb) }

  /** In none of the first `j` turns does a program stop or a life run out. */
  ghost predicate Undisturbed(cfg: Config, s: Sys, ks: seq<nat>, j: nat)
    requires SysWf(cfg, s) && j <= |ks|
  {
    forall i :: 0 <= i < j ==> EachExecuting(Ticks(cfg, Turns(cfg, s, ks[..i]), ks[i]).cores, Unfinished)
  }

  lemma TurnsNext(cfg: Config, s: Sys, ks: seq<nat>, j: nat)
    requires SysWf(cfg, s) && 1 <= j <= |ks|
    ensures Turns(cfg, s, ks[..j]) == Turn(cfg, Turns(cfg, s, ks[..j-1]), ks[j-1])
  {
    hide Turn;
    assert ks[..j][..j-1] == ks[..j-1];
  }

  lemma LastTurn(cfg: Config, s: Sys, ks: seq<nat>, j: nat)
    requires SysWf(cfg, s) && 1 <= j <= |ks| && Undisturbed(cfg, s, ks, j)
    ensures Turns(cfg, s, ks[..j]) == Turn(cfg, Turns(cfg, s, ks[..j-1]), ks[j-1])
    ensures Undisturbed(cfg, s, ks, j - 1)
    ensures EachExecuting(Ticks(cfg, Turns(cfg, s, ks[..j-1]), ks[j-1]).cores, Unfinished)
  {
    hide Turn, Turns, EachExecuting, Ticks;
    TurnsNext(cfg, s, ks, j);
  }

  lemma OneTurnMore(cfg: Config, s: Sys, ks: seq<nat>, j: nat)
    requires SysWf(cfg, s) && 1 <= j <= |ks| && Undisturbed(cfg, s, ks, j - 1)
    requires EachExecuting(Ticks(cfg, Turns(cfg, s, ks[..j-1]), ks[j-1]).cores, Unfinished)
    ensures Turns(cfg, s, ks[..j]) == Turn(cfg, Turns(cfg, s, ks[..j-1]), ks[j-1])
    ensures Undisturbed(cfg, s, ks, j)
  {
    hide Turn, Turns, EachExecuting, Ticks;
    TurnsNext(cfg, s, ks, j);
  }

  /** The same process some ticks later. */
  predicate Same(t: Thread, u: Thread) {
    && u.pcb.pid == t.pcb.pid && u.pcb.priority == t.pcb.priority
    && u.pcb.quantumCounter == t.pcb.quantumCounter
  }

  ghost predicate AllSame(ts: seq<Thread>, us: seq<Thread>) {
    |us| == |ts| && forall i :: 0 <= i < |ts| ==> Same(ts[i], us[i])
  }

  lemma OneCoreTick(cfg: Config, s: Sys)
    requires SysWf(cfg, s) && |s.cores| == 1
    ensures var r := Tick(cfg, s);
            && r.sched == s.sched && r.clock == s.clock + 1 && r.lastTick == s.lastTick
            && |r.cores| == 1 && AllSame(s.cores[0], r.cores[0])
  {
    hide TickThreads, TickThread;
    assert s.cores[..0] == [] && TickCores([], s.mem) == ([], s.mem);
    TickThreadsPointwise(s.cores[0], s.mem);
  }

  lemma {:induction false} OneCoreTicks(cfg: Config, s: Sys, k: nat)
    requires SysWf(cfg, s) && |s.cores| == 1
    ensures var r := Ticks(cfg, s, k);
            && r.sched == s.sched && r.clock == s.clock + k && r.lastTick == s.lastTick
            && |r.cores| == 1 && AllSame(s.cores[0], r.cores[0])
  {
    hide Tick;
    if k > 0 {
      OneCoreTicks(cfg, s, k - 1);
      OneCoreTick(cfg, Ticks(cfg, s, k - 1));
    }
  }

  lemma OneCoreOrder(ts: seq<Thread>)
    ensures Order([ts]) == Reversed(ts)
  {
    assert [ts][..0] == [];
    assert Order([ts]) == Order([]) + Reversed(ts);
  }

  /** The last tick of a turn, with nobody finished, as the sweep meets it. */
  lemma OneCoreSweep(cfg: Config, s: Sys, k: nat)
    returns (ts: seq<Thread>)
    requires SysWf(cfg, s) && |s.cores| == 1 && EachExecuting(Ticks(cfg, s, k).cores, Unfinished)
    ensures Ticks(cfg, s, k).cores == [ts] && AllSame(s.cores[0], ts) && EachThread(ts, Unfinished)
    ensures Order([ts]) == Reversed(ts) && EachThread(Reversed(ts), Unfinished)
    ensures KeptCores(cfg, [ts]) == [Kept(cfg, ts)]
  {
    OneCoreTicks(cfg, s, k);
    ts := Ticks(cfg, s, k).cores[0];
    assert Ticks(cfg, s, k).cores == [ts];
    OneCoreOrder(ts);
    EachReversed(ts, Unfinished);
  }

  lemma {:induction false} AllStay(cfg: Config, clock: int, q: Sched, ts: seq<Thread>)
    requires SchedWf(cfg, q) && EachThread(ts, t => Stays(cfg, t))
    ensures SweepQueues(cfg, clock, q, ts) == q
    ensures |Kept(cfg, ts)| == |ts| && forall i :: 0 <= i < |ts| ==> Kept(cfg, ts)[i] == Bumped(ts[i])
  {
    if ts != [] {
      AllStay(cfg, clock, q, ts[..|ts|-1]);
      assert Stays(cfg, ts[|ts|-1]);
    }
  }

  function SavedAll(cfg: Config, clock: int, ts: seq<Thread>): (ps: seq<PCB>)
    ensures |ps| == |ts| && forall i :: 0 <= i < |ts| ==> ps[i] == Saved(cfg, clock, Bumped(ts[i]))
  {
    seq(|ts|, i requires 0 <= i < |ts| => Saved(cfg, clock, Bumped(ts[i])))
  }

  /** Threads whose quantum ends together go back to the queue in the order of the sweep. */
  lemma {:induction false} AllReturn(cfg: Config, clock: int, q: Sched, ts: seq<Thread>)
    requires SchedWf(cfg, q) && cfg.policy == Bfs && EachThread(ts, t => Leaves(cfg, t))
    requires |q.ready| + |ts| <= cfg.readyCapacity
    ensures var r := SweepQueues(cfg, clock, q, ts);
            && r.ready == q.ready + SavedAll(cfg, clock, ts) && r.levels == q.levels && r.completed == q.completed
    ensures Kept(cfg, ts) == []
  {
    if ts != [] {
      var n := |ts| - 1;
      AllReturn(cfg, clock, q, ts[..n]);
      assert Leaves(cfg, ts[n]);
      assert SavedAll(cfg, clock, ts) == SavedAll(cfg, clock, ts[..n]) + [Saved(cfg, clock, Bumped(ts[n]))];
    }
  }

  // ------------------------------------------------------------------ BFS: starting equals in order

  function StartAll(cfg: Config, clock: int, ps: seq<PCB>): (ts: seq<Thread>)
    ensures |ts| == |ps| && forall i :: 0 <= i < |ps| ==> ts[i] == Restored(cfg, clock, ps[i])
  {
    seq(|ps|, i requires 0 <= i < |ps| => Restored(cfg, clock, ps[i]))
  }

  ghost predicate Level(ps: seq<PCB>, d: int) {
    forall i :: 0 <= i < |ps| ==> ps[i].deadline == d
  }

  /** Of equal deadlines the scan takes the first, of a single earlier one at the end the last. */
  lemma ScanOfEquals(ps: seq<PCB>, d: int)
    requires ps != [] && d >= 0
    ensures Level(ps, d) ==> Scan(ps).1 == 0
    ensures Level(ps[..|ps|-1], d) && ps[|ps|-1].deadline < d ==> Scan(ps).1 == |ps| - 1
  {
    var n := |ps| - 1;
    if Level(ps, d) || (Level(ps[..n], d) && ps[n].deadline < d) {
      forall i | 0 <= i < n ensures ps[i].deadline == d {
        assert Level(ps[..n], d) ==> ps[..n][i].deadline == d;
      }
      ScanIsSound(ps);
    }
  }

  lemma BfsStartsOne(cfg: Config, clock: int, q: Sched, ts: seq<Thread>)
    requires SchedWf(cfg, q) && cfg.policy == Bfs && q.ready != [] && |ts| < cfg.threads
    ensures var m := Scan(q.ready).1; var (q', cores') := DispatchOne(cfg, clock, q, [ts]);
            && q'.ready == ShiftOut(q.ready, m, cfg.readyCapacity)
            && q'.levels == q.levels && q'.completed == q.completed
            && cores' == [ts + [Restored(cfg, clock, q.ready[m])]]
            && Dispatch(cfg, clock, q, [ts]) == Dispatch(cfg, clock, q', cores')
  {
  }

  /** The dispatch loop has started the processes `ps` and emptied the queue. */
  ghost predicate AllStarted(cfg: Config, clock: int, q: Sched, ts: seq<Thread>, ps: seq<PCB>) {
    && SchedWf(cfg, q) && |ts| + |ps| <= cfg.threads
    && var (r, cores) := Dispatch(cfg, clock, q, [ts]);
       && r.ready == [] && r.levels == q.levels && r.completed == q.completed
       && cores == [ts + StartAll(cfg, clock, ps)]
  }

  lemma OneMoreStarted(cfg: Config, clock: int, q: Sched, ts: seq<Thread>, ps: seq<PCB>)
    requires SchedWf(cfg, q) && cfg.policy == Bfs && q.ready != [] && |ts| < cfg.threads
    requires AllStarted(cfg, clock, DispatchOne(cfg, clock, q, [ts]).0,
                        ts + [Restored(cfg, clock, q.ready[Scan(q.ready).1])], ps)
    ensures AllStarted(cfg, clock, q, ts, [q.ready[Scan(q.ready).1]] + ps)
  {
    hide Dispatch, DispatchOne, Restored;
    BfsStartsOne(cfg, clock, q, ts);
    var a := q.ready[Scan(q.ready).1];
    assert ts + StartAll(cfg, clock, [a] + ps) == ts + [Restored(cfg, clock, a)] + StartAll(cfg, clock, ps);
  }

  lemma {:induction false} EqualsStartInOrder(cfg: Config, clock: int, q: Sched, ts: seq<Thread>, d: int)
    requires SchedWf(cfg, q) && cfg.policy == Bfs && Level(q.ready, d) && d >= 0
    requires |ts| + |q.ready| <= cfg.threads
    ensures AllStarted(cfg, clock, q, ts, q.ready)
    decreases |q.ready|
  {
    if q.ready == [] {
      assert ts + StartAll(cfg, clock, []) == ts;
    } else {
      hide Dispatch, DispatchOne, Restored, AllStarted;
      ScanOfEquals(q.ready, d);
      BfsStartsOne(cfg, clock, q, ts);
      var q' := DispatchOne(cfg, clock, q, [ts]).0;
      assert q'.ready == q.ready[1..];
      EqualsStartInOrder(cfg, clock, q', ts + [Restored(cfg, clock, q.ready[0])], d);
      OneMoreStarted(cfg, clock, q, ts, q.ready[1..]);
      assert [q.ready[0]] + q.ready[1..] == q.ready;
    }
  }

  lemma ShiftKeepsLevel(ps: seq<PCB>, cap: nat, d: int)
    requires |ps| <= cap && cap / 2 + 1 < |ps| && Level(ps[..|ps|-1], d)
    ensures Level(ShiftOut(ps, |ps| - 1, cap), d)
  {
    var left := ShiftOut(ps, |ps| - 1, cap);
    ShiftOutLoses(ps, |ps| - 1, cap);
    forall i | 0 <= i < |left| ensures left[i].deadline == d {
      assert left[i] in ps[..|ps|-1];
    }
  }

  /** A queue past the load with its earliest deadline at the end: the shift spoils the front, and what
      it leaves starts after the one chosen. */
  lemma EarliestLastStarts(cfg: Config, clock: int, q: Sched, d: int)
    requires SchedWf(cfg, q) && cfg.policy == Bfs && d >= 0
    requires var n := |q.ready|; cfg.readyCapacity / 2 + 1 < n <= cfg.threads
    requires var n := |q.ready|; Level(q.ready[..n-1], d) && q.ready[n-1].deadline < d
    ensures var n := |q.ready|;
            AllStarted(cfg, clock, q, [], [q.ready[n-1]] + ShiftOut(q.ready, n - 1, cfg.readyCapacity))
  {
    hide Dispatch, DispatchOne, Restored, AllStarted;
    var n := |q.ready|;
    ScanOfEquals(q.ready, d);
    BfsStartsOne(cfg, clock, q, []);
    var q' := DispatchOne(cfg, clock, q, [[]]).0;
    ShiftKeepsLevel(q.ready, cfg.readyCapacity, d);
    hide ShiftOut, Level, Scan;
    EqualsStartInOrder(cfg, clock, q', [] + [Restored(cfg, clock, q.ready[n-1])], d);
    OneMoreStarted(cfg, clock, q, [], q'.ready);
  }

  // ------------------------------------------------------------------ BFS: the run

  /** More processes than half the queue plus one, a thread for each; the first is the most urgent
      there can be, the others are ordinary. */
  ghost predicate Crowded(cfg: Config, s: Sys) {
    && Accepted(cfg, s) && cfg.policy == Bfs && cfg.quantum >= 5 && s.cores == [[]]
    && cfg.readyCapacity / 2 + 1 < |s.sched.ready| <= cfg.threads
    && forall i :: 0 <= i < |s.sched.ready| ==>
         s.sched.ready[i].deadline == 0 && s.sched.ready[i].priority == if i == 0 then MIN_PRIORITY else 0
  }

  /** Everyone executes, in the order of arrival, for `c` activations now. */
  ghost predicate Aboard(cfg: Config, s: Sys, ps: seq<PCB>, c: nat) {
    && SysWf(cfg, s) && s.sched.ready == [] && s.sched.levels == [] && s.sched.completed == 0
    && s.lastTick <= s.clock && s.clock >= 0 && |s.cores| == 1 && |s.cores[0]| == |ps|
    && forall i :: 0 <= i < |ps| ==>
         var p := s.cores[0][i].pcb; p.pid == ps[i].pid && p.priority == ps[i].priority && p.quantumCounter == c
  }

  lemma EveryoneStarts(cfg: Config, s: Sys, k: nat)
    requires SysWf(cfg, s) && Crowded(cfg, s) && k >= 1
    ensures Aboard(cfg, Turn(cfg, s, k), s.sched.ready, 0)
  {
    hide SweepQueues, Dispatch, Ticks;
    OneCoreTicks(cfg, s, k);
    var t := Ticks(cfg, s, k);
    assert t.cores == [[]] && KeptCores(cfg, [[]]) == [[]];
    OneCoreOrder([]);
    AllStay(cfg, t.clock, t.sched, []);
    EqualsStartInOrder(cfg, t.clock, s.sched, [], 0);
    assert [] + StartAll(cfg, t.clock, s.sched.ready) == StartAll(cfg, t.clock, s.sched.ready);
  }

  lemma EveryoneGoesOn(cfg: Config, s: Sys, ps: seq<PCB>, c: nat, k: nat)
    requires Aboard(cfg, s, ps, c) && cfg.policy == Bfs && c + 1 < Slice(cfg) && k >= 1
    requires EachExecuting(Ticks(cfg, s, k).cores, Unfinished)
    ensures Aboard(cfg, Turn(cfg, s, k), ps, c + 1)
  {
    hide SweepQueues, Ticks, Order;
    OneCoreTicks(cfg, s, k);
    var t := Ticks(cfg, s, k);
    var ts := OneCoreSweep(cfg, s, k);
    forall i | 0 <= i < |ts| ensures Stays(cfg, ts[i]) {
      assert Unfinished(ts[i]);
    }
    EachReversed(ts, u => Stays(cfg, u));
    AllStay(cfg, t.clock, t.sched, ts);
    AllStay(cfg, t.clock, t.sched, Reversed(ts));
  }

  lemma Regrouped(x: multiset<int>, a: int, b: int, y: multiset<int>)
    requires x + multiset{a, b} == y
    ensures (multiset{b} + x) + multiset{a} == y
  {
  }

  /** The keys of what everyone's return and the next dispatch leave executing. */
  lemma LossOfKeys(ks: seq<int>, cap: nat)
    requires |ks| <= cap && cap / 2 + 1 < |ks|
    ensures var n, m := |ks|, |ks| - 1;
            multiset{ks[m]} + multiset(ShiftOut(ks, m, cap)) + multiset{ks[0]}
            == multiset(ks) + multiset{ks[2 * n - 2 - cap]}
  {
    hide ShiftOut;
    var n, m := |ks|, |ks| - 1;
    ShiftOutLoses(ks, m, cap);
    Regrouped(multiset(ShiftOut(ks, m, cap)), ks[0], ks[m], multiset(ks) + multiset{ks[2 * n - 2 - cap]});
  }

  lemma StartedKeys(cfg: Config, clock: int, ps: seq<PCB>)
    ensures ThreadKeys(Pid, StartAll(cfg, clock, ps)) == Keys(Pid, ps)
  {
  }

  lemma ExecutingOnOneCore(s: Sys, ks: seq<int>)
    requires s.sched.ready == [] && s.sched.levels == [] && |s.cores| == 1 && ThreadKeys(Pid, s.cores[0]) == ks
    ensures Live(Pid, s) == multiset(ks)
  {
    var ts := s.cores[0];
    assert s.cores == [ts];
    OneCoreOrder(ts);
    ReversedTally(ts);
    assert Keys(Pid, []) == [];
  }

  /** Everyone back in the queue, in reverse order, the most urgent last. */
  lemma EveryoneReturns(cfg: Config, s: Sys, ps: seq<PCB>, c: nat, k: nat)
    returns (back: seq<PCB>)
    requires SysWf(cfg, s) && Aboard(cfg, s, ps, c) && cfg.policy == Bfs && c + 1 == Slice(cfg) && k >= 1
    requires |ps| <= cfg.readyCapacity && EachExecuting(Ticks(cfg, s, k).cores, Unfinished)
    ensures var t := Ticks(cfg, s, k);
            && Wakes(cfg, t) && t.clock >= 1 && KeptCores(cfg, t.cores) == [[]]
            && var q := SweepQueues(cfg, t.clock, t.sched, Order(t.cores));
               q.ready == back && q.levels == [] && q.completed == 0
    ensures |back| == |ps|
    ensures forall i :: 0 <= i < |ps| ==>
              var p := ps[|ps| - 1 - i];
              back[i].pid == p.pid && back[i].deadline == Ticks(cfg, s, k).clock + DeadlineOffset(cfg, p)
  {
    hide SweepQueues, Ticks, Order;
    OneCoreTicks(cfg, s, k);
    var t := Ticks(cfg, s, k);
    var ts := OneCoreSweep(cfg, s, k);
    forall i | 0 <= i < |ts| ensures Leaves(cfg, ts[i]) && Reversed(ts)[i] == ts[|ts| - 1 - i] {
      assert Unfinished(ts[i]);
      ReversedAt(ts, i);
    }
    EachReversed(ts, u => Leaves(cfg, u));
    AllReturn(cfg, t.clock, t.sched, ts);
    AllReturn(cfg, t.clock, t.sched, Reversed(ts));
    back := SavedAll(cfg, t.clock, Reversed(ts));
    assert [] + back == back;
  }

  /** `r` is `s` after the shift has lost one process and put another on two hardware threads. */
  ghost predicate LostAndDoubled(s: Sys, r: Sys, lost: int, doubled: int) {
    && Live(Pid, r) + multiset{lost} == Live(Pid, s) + multiset{doubled}
    && lost in Live(Pid, s) && lost !in Live(Pid, r) && Live(Pid, r)[doubled] == 2
    && r.sched.completed == s.sched.completed == 0
  }

  lemma Offsets(cfg: Config, p: PCB)
    requires cfg.quantum >= 5
    ensures p.priority == MIN_PRIORITY ==> DeadlineOffset(cfg, p) < 0
    ensures p.priority == 0 ==> DeadlineOffset(cfg, p) == 0
  {
  }

  lemma BackByDeadline(cfg: Config, ps: seq<PCB>, back: seq<PCB>, d: int)
    requires |back| == |ps| >= 1 && cfg.quantum >= 5
    requires forall i :: 0 <= i < |ps| ==> ps[i].priority == if i == 0 then MIN_PRIORITY else 0
    requires forall i :: 0 <= i < |ps| ==> back[i].deadline == d + DeadlineOffset(cfg, ps[|ps| - 1 - i])
    ensures Level(back[..|back|-1], d) && back[|back|-1].deadline < d
  {
    hide DeadlineOffset;
    forall i | 0 <= i < |back| ensures if i == |back| - 1 then back[i].deadline < d else back[i].deadline == d {
      Offsets(cfg, ps[|ps| - 1 - i]);
    }
  }

  /** The turn that ends the first quantum, up to what it leaves executing. */
  lemma EarliestStarts(cfg: Config, s: Sys, ps: seq<PCB>, c: nat, k: nat)
    returns (back: seq<PCB>)
    requires SysWf(cfg, s) && Aboard(cfg, s, ps, c) && cfg.policy == Bfs && cfg.quantum >= 5
    requires c + 1 == Slice(cfg) && k >= 1
    requires EachExecuting(Ticks(cfg, s, k).cores, Unfinished)
    requires |ps| <= cfg.readyCapacity && cfg.readyCapacity / 2 + 1 < |ps| <= cfg.threads
    requires forall i :: 0 <= i < |ps| ==> ps[i].priority == if i == 0 then MIN_PRIORITY else 0
    ensures |back| == |ps| && forall i :: 0 <= i < |ps| ==> back[i].pid == ps[|ps| - 1 - i].pid
    ensures var r, n := Turn(cfg, s, k), |ps|;
            && r.sched.ready == [] && r.sched.levels == [] && r.sched.completed == 0
            && r.cores == [StartAll(cfg, r.clock, [back[n-1]] + ShiftOut(back, n - 1, cfg.readyCapacity))]
  {
    hide SweepQueues, Ticks, Order, Dispatch, ShiftOut, KeptCores, Aboard, EachExecuting, DeadlineOffset, Level;
    var n, t := |ps|, Ticks(cfg, s, k);
    back := EveryoneReturns(cfg, s, ps, c, k);
    var q := SweepQueues(cfg, t.clock, t.sched, Order(t.cores));
    BackByDeadline(cfg, ps, back, t.clock);
    EarliestLastStarts(cfg, t.clock, q, t.clock);
    var started := [back[n-1]] + ShiftOut(back, n - 1, cfg.readyCapacity);
    assert [] + StartAll(cfg, t.clock, started) == StartAll(cfg, t.clock, started);
  }

  lemma EarliestGoesFirst(cfg: Config, s: Sys, ps: seq<PCB>, c: nat, k: nat)
    requires SysWf(cfg, s) && Aboard(cfg, s, ps, c) && cfg.policy == Bfs && cfg.quantum >= 5
    requires c + 1 == Slice(cfg) && k >= 1
    requires EachExecuting(Ticks(cfg, s, k).cores, Unfinished)
    requires |ps| <= cfg.readyCapacity && cfg.readyCapacity / 2 + 1 < |ps| <= cfg.threads
    requires forall i :: 0 <= i < |ps| ==> ps[i].priority == if i == 0 then MIN_PRIORITY else 0
    ensures var r, n := Turn(cfg, s, k), |ps|;
            && Live(Pid, r) + multiset{ps[n-1].pid} == Tally(Pid, ps) + multiset{ps[cfg.readyCapacity + 1 - n].pid}
            && r.sched.completed == 0
  {
    hide Turn, Ticks, Live, ShiftOut, Aboard, EachExecuting, StartAll, SysWf, Slice;
    var r, cap := Turn(cfg, s, k), cfg.readyCapacity;
    var back := EarliestStarts(cfg, s, ps, c, k);
    var started := [back[|ps|-1]] + ShiftOut(back, |ps| - 1, cap);
    StartedKeys(cfg, r.clock, started);
    ExecutingOnOneCore(r, Keys(Pid, started));
    ReturnedKeys(ps, back, cap);
  }

  lemma StartedTally(ps: seq<PCB>, m: nat, cap: nat)
    requires m < |ps| <= cap
    ensures Tally(Pid, [ps[m]] + ShiftOut(ps, m, cap))
            == multiset{ps[m].pid} + multiset(ShiftOut(Keys(Pid, ps), m, cap))
  {
    TallyAppend(Pid, [ps[m]], ShiftOut(ps, m, cap));
    assert Keys(Pid, [ps[m]]) == [ps[m].pid];
    assert Keys(Pid, ShiftOut(ps, m, cap)) == ShiftOut(Keys(Pid, ps), m, cap);
  }

  lemma ReturnedKeys(ps: seq<PCB>, back: seq<PCB>, cap: nat)
    requires |back| == |ps| <= cap && cap / 2 + 1 < |ps|
    requires forall i :: 0 <= i < |ps| ==> back[i].pid == ps[|ps| - 1 - i].pid
    ensures var n := |ps|;
            Tally(Pid, [back[n-1]] + ShiftOut(back, n - 1, cap)) + multiset{ps[n-1].pid}
            == Tally(Pid, ps) + multiset{ps[cap + 1 - n].pid}
  {
    hide ShiftOut;
    var n, ks, l := |ps|, Keys(Pid, back), 2 * |ps| - 2 - cap;
    ReversedKeys(Keys(Pid, ps), ks);
    LossOfKeys(ks, cap);
    StartedTally(back, n - 1, cap);
    assert ks[0] == ps[n-1].pid && ks[l] == ps[n - 1 - l].pid && ks[n-1] == back[n-1].pid;
    assert Tally(Pid, ps) == multiset(ks);
    hide Tally, Keys;
  }

  lemma {:induction false} ReversedKeys(a: seq<int>, b: seq<int>)
    requires |b| == |a| && forall i :: 0 <= i < |a| ==> b[i] == a[|a| - 1 - i]
    ensures multiset(b) == multiset(a)
  {
    if a != [] {
      var n := |a| - 1;
      ReversedKeys(a[1..], b[..n]);
      assert a == [a[0]] + a[1..] && b == b[..n] + [b[n]];
    } else {
      assert b == [];
    }
  }

  /** Until the first quantum is over everyone stays aboard. */
  lemma {:induction false} StayAboard(cfg: Config, s: Sys, ks: seq<nat>, j: nat)
    requires SysWf(cfg, s) && Crowded(cfg, s) && Ticking(ks) && 1 <= j <= |ks| && j <= Slice(cfg)
    requires Undisturbed(cfg, s, ks, j)
    ensures Aboard(cfg, Turns(cfg, s, ks[..j]), s.sched.ready, j - 1)
  {
    hide Turn, Ticks, Aboard, EachExecuting, Undisturbed;
    LastTurn(cfg, s, ks, j);
    if j == 1 {
      assert Turns(cfg, s, ks[..0]) == s;
      EveryoneStarts(cfg, s, ks[0]);
    } else {
      StayAboard(cfg, s, ks, j - 1);
      EveryoneGoesOn(cfg, Turns(cfg, s, ks[..j-1]), s.sched.ready, j - 2, ks[j-1]);
    }
  }

  lemma LossIsFinal(before: multiset<int>, after: multiset<int>, lost: int, doubled: int)
    requires after + multiset{lost} == before + multiset{doubled}
    requires before[lost] == 1 && before[doubled] == 1 && lost != doubled
    ensures lost !in after && after[doubled] == 2
  {
    assert (after + multiset{lost})[lost] == (before + multiset{doubled})[lost];
    assert (after + multiset{lost})[doubled] == (before + multiset{doubled})[doubled];
  }

  lemma CountedExactlyOnce(ps: seq<PCB>, i: nat, j: nat)
    requires i < j < |ps| && forall x :: Tally(Pid, ps)[x] <= 1
    ensures Tally(Pid, ps)[ps[i].pid] == 1 && Tally(Pid, ps)[ps[j].pid] == 1 && ps[i].pid != ps[j].pid
  {
    var ks := Keys(Pid, ps);
    assert ks[i] in multiset(ks) && ks[j] in multiset(ks);
    assert Tally(Pid, ps)[ks[i]] <= 1 && Tally(Pid, ps)[ks[j]] <= 1;
    CountedOnce(ks, i, j);
  }

  lemma CrowdedLoses(cfg: Config, s: Sys, r: Sys)
    requires Crowded(cfg, s) && SysWf(cfg, s) && r.sched.completed == 0
    requires var ps := s.sched.ready; var n := |ps|;
             Live(Pid, r) + multiset{ps[n-1].pid} == Tally(Pid, ps) + multiset{ps[cfg.readyCapacity + 1 - n].pid}
    ensures var ps := s.sched.ready;
            LostAndDoubled(s, r, ps[|ps|-1].pid, ps[cfg.readyCapacity + 1 - |ps|].pid)
  {
    EverybodyQueued(cfg, s);
    hide Live, Tally;
    var ps := s.sched.ready;
    CountedExactlyOnce(ps, cfg.readyCapacity + 1 - |ps|, |ps| - 1);
    LossIsFinal(Live(Pid, s), Live(Pid, r), ps[|ps|-1].pid, ps[cfg.readyCapacity + 1 - |ps|].pid);
  }

  /** Every BFS load of more than half the queue plus one, once each process has run for a quantum:
      the last to arrive is gone and another is on two hardware threads. */
  lemma BfsLosesBeyondHalf(cfg: Config, s: Sys, ks: seq<nat>)
    requires SysWf(cfg, s) && Crowded(cfg, s) && Ticking(ks) && |ks| == Slice(cfg) + 1
    requires Undisturbed(cfg, s, ks, |ks|)
    ensures var ps := s.sched.ready;
            LostAndDoubled(s, Turns(cfg, s, ks), ps[|ps|-1].pid, ps[cfg.readyCapacity + 1 - |ps|].pid)
  {
    hide Turn, Turns, Ticks, Aboard, Live, Tally, Undisturbed, EachExecuting, LostAndDoubled, Accepted;
    var j := |ks| - 1;
    LastTurn(cfg, s, ks, |ks|);
    assert ks[..|ks|] == ks;
    StayAboard(cfg, s, ks, j);
    EarliestGoesFirst(cfg, Turns(cfg, s, ks[..j]), s.sched.ready, j - 1, ks[j]);
    CrowdedLoses(cfg, s, Turns(cfg, s, ks));
  }

  lemma EverybodyQueued(cfg: Config, s: Sys)
    requires Accepted(cfg, s)
    ensures Live(Pid, s) == Tally(Pid, s.sched.ready) && Live(Priority, s) == Tally(Priority, s.sched.ready)
    ensures forall x :: Tally(Pid, s.sched.ready)[x] <= 1
  {
    NoLevelNoTally(Pid, s.sched.levels);
    NoLevelNoTally(Priority, s.sched.levels);
    EmptyOrder(s.cores);
    assert Live(Pid, s) == Tally(Pid, s.sched.ready);
    forall x ensures Tally(Pid, s.sched.ready)[x] <= 1 {
      assert Live(Pid, s)[x] <= 1;
    }
  }

  // ------------------------------------------------------------------ priorities: one crowded level

  /** Only the level of priority `x` holds anyone, and all who still wait for a place have that priority. */
  ghost predicate OneLevel(cfg: Config, q: Sched, x: int) {
    && SchedWf(cfg, q) && cfg.policy == PreemptivePrio && MIN_PRIORITY <= x <= MAX_PRIORITY
    && (forall l :: 0 <= l < |q.levels| && l != x - MIN_PRIORITY ==> q.levels[l] == [])
    && (forall i :: 0 <= i < |q.ready| ==> q.ready[i].priority == x)
  }

  /** Places left in the level of priority `x`. */
  function Places(cfg: Config, q: Sched, x: int): nat
    requires OneLevel(cfg, q, x)
  {
    LevelCapacity(cfg) - |q.levels[x - MIN_PRIORITY]|
  }

  lemma Arrived(cfg: Config, q: Sched, rest: Sched, r: Sched, x: int)
    requires OneLevel(cfg, q, x) && SchedWf(cfg, rest) && q.ready != []
    requires rest.ready == q.ready[1..] && rest.levels == q.levels && rest.completed == q.completed
    requires EnqueueTo(cfg, rest, q.ready[0]) == Some(r)
    ensures OneLevel(cfg, r, x) && r.ready == q.ready[1..] && r.completed == q.completed
    ensures var l := x - MIN_PRIORITY;
            r.levels[l] == q.levels[l] + [q.ready[0]] && Places(cfg, r, x) == Places(cfg, q, x) - 1
  {
  }

  lemma NoPlace(cfg: Config, q: Sched, rest: Sched, x: int)
    requires OneLevel(cfg, q, x) && SchedWf(cfg, rest) && q.ready != []
    requires rest.ready == q.ready[1..] && rest.levels == q.levels && EnqueueTo(cfg, rest, q.ready[0]) == None
    ensures Places(cfg, q, x) == 0
  {
  }

  lemma TakenAfterFirst(level: seq<PCB>, arrivals: seq<PCB>, d: nat)
    requires 1 <= d <= |arrivals|
    ensures (level + [arrivals[0]]) + arrivals[1..][..d-1] == level + arrivals[..d]
  {
  }

  /** The transfer moves arrivals to their level, in order, as far as it has places. */
  lemma {:induction false} LevelFills(cfg: Config, room: bool, q: Sched, x: int)
    requires OneLevel(cfg, q, x)
    ensures var r, l, d := Transfer(cfg, room, q), x - MIN_PRIORITY, Min(|q.ready|, Places(cfg, q, x));
            && OneLevel(cfg, r, x) && r.completed == q.completed
            && r.levels[l] == q.levels[l] + q.ready[..d] && |r.ready| == |q.ready| - d
    decreases |q.ready|
  {
    hide EnqueueTo, LevelCapacity;
    if q.ready != [] {
      var rest := q.(ready := q.ready[1..], preempted := q.preempted || !room);
      match EnqueueTo(cfg, rest, q.ready[0])
      case Some(r) =>
        Arrived(cfg, q, rest, r, x);
        LevelFills(cfg, room, r, x);
        TakenAfterFirst(q.levels[x - MIN_PRIORITY], q.ready, Min(|q.ready|, Places(cfg, q, x)));
      case None => NoPlace(cfg, q, rest, x);
    }
  }

  /** With one thread, free: the front of the level starts. */
  lemma FrontStarts(cfg: Config, clock: int, q: Sched, x: int)
    requires OneLevel(cfg, q, x) && q.levels[x - MIN_PRIORITY] != [] && cfg.threads == 1
    ensures var l := x - MIN_PRIORITY; var (r, cores) := Dispatch(cfg, clock, q, [[]]);
            && OneLevel(cfg, r, x) && r.levels[l] == q.levels[l][1..] && r.ready == q.ready
            && r.completed == q.completed && r.preempted == q.preempted
            && cores == [[Restored(cfg, clock, q.levels[l][0])]]
            && Queued(Pid, r) + multiset{q.levels[l][0].pid} == Queued(Pid, q)
  {
    hide Queued;
    var l := x - MIN_PRIORITY;
    assert FirstLevel(q.levels, 0) == l && FirstFree(cfg, [[]], 0) == 0;
    SelectFromLevels(cfg, Pid, q);
    var (p, q') := SelectNext(cfg, q);
    var (r, cores) := DispatchOne(cfg, clock, q, [[]]);
    var empty: seq<Thread> := [];
    assert empty + [Restored(cfg, clock, p)] == [Restored(cfg, clock, p)];
    assert cores == [empty][0 := empty + [Restored(cfg, clock, p)]];
    assert cores == [[Restored(cfg, clock, p)]] && !HasRoom(cfg, cores);
    assert Dispatch(cfg, clock, r, cores) == (r, cores);
    SameQueuesSameTally(Pid, q', r);
  }

  /** A load all of one legal priority on an idle core. */
  ghost predicate Uniform(cfg: Config, s: Sys, x: int) {
    && Accepted(cfg, s) && OneLevel(cfg, s.sched, x) && s.cores == [[]]
  }

  /** A process of priority `x` executes, `c` activations old. */
  ghost predicate Fronted(cfg: Config, s: Sys, x: int, pid: int, c: nat) {
    && SysWf(cfg, s) && OneLevel(cfg, s.sched, x) && s.sched.completed == 0 && s.lastTick <= s.clock
    && |s.cores| == 1 && |s.cores[0]| == 1
    && var p := s.cores[0][0].pcb; p.pid == pid && p.priority == x && p.quantumCounter == c
  }

  lemma OneThread(cores: seq<seq<Thread>>, t: Thread)
    requires |cores| == 1 && |cores[0]| == 1 && cores[0][0] == t
    ensures cores == [[t]] && Order(cores) == [t] && Executing(Pid, cores) == multiset{t.pcb.pid}
  {
    assert cores[0] == [t];
    assert cores == [[t]];
    OneCoreOrder([t]);
    assert [t][1..] == [];
    assert Reversed([t]) == [t];
    assert ThreadKeys(Pid, [t]) == [t.pcb.pid];
  }

  /** An idle core's turn up to the dispatch loop. */
  lemma IdleTurn(cfg: Config, s: Sys, k: nat)
    requires SysWf(cfg, s) && s.cores == [[]] && s.lastTick <= s.clock && k >= 1
    ensures var t := Ticks(cfg, s, k);
            && Wakes(cfg, t) && t.sched == s.sched && t.clock == s.clock + k && t.lastTick == s.lastTick
            && KeptCores(cfg, t.cores) == [[]]
            && SweepQueues(cfg, t.clock, t.sched, Order(t.cores)) == s.sched
  {
    hide Ticks, SweepQueues;
    OneCoreTicks(cfg, s, k);
    var t := Ticks(cfg, s, k);
    assert t.cores == [[]] && KeptCores(cfg, [[]]) == [[]];
    OneCoreOrder([]);
    AllStay(cfg, t.clock, t.sched, []);
  }

  /** From start-up, a load of one priority fills the places of its level in the order of arrival; the others
      stay in the ready queue. */
  lemma FirstTransferFills(cfg: Config, s: Sys, x: int, places: nat)
    requires SysWf(cfg, s) && Uniform(cfg, s, x) && IsLevelSize(cfg.readyCapacity, places)
    ensures var q, d := BeforeDispatch(cfg, s), Min(|s.sched.ready|, places);
            && q.levels[x - MIN_PRIORITY] == s.sched.ready[..d] && |q.ready| == |s.sched.ready| - d
            && forall l :: 0 <= l < |q.levels| && l != x - MIN_PRIORITY ==> q.levels[l] == []
  {
    hide LevelCapacity, Transfer, SweepQueues, IsLevelSize, Live;
    OneCoreOrder([]);
    AllStay(cfg, s.clock, s.sched, []);
    LevelPlaces(cfg);
    LevelFills(cfg, HasRoom(cfg, KeptCores(cfg, s.cores)), s.sched, x);
    var none: seq<PCB> := [];
    assert none + s.sched.ready[..Min(|s.sched.ready|, places)] == s.sched.ready[..Min(|s.sched.ready|, places)];
  }

  lemma FrontIsFirst(cfg: Config, s: Sys, x: int, k: nat)
    requires SysWf(cfg, s) && Uniform(cfg, s, x) && cfg.threads == 1 && k >= 1
    requires |s.sched.ready| > LevelCapacity(cfg)
    ensures var r, pid := Turn(cfg, s, k), s.sched.ready[0].pid;
            && Fronted(cfg, r, x, pid, 0) && Live(Pid, r) == Live(Pid, s)
            && r.sched.ready != [] && Places(cfg, r.sched, x) == 1 && !r.sched.preempted
  {
    hide Ticks, SweepQueues, KeptCores, Order, Transfer, Dispatch, Queued;
    IdleTurn(cfg, s, k);
    var t := Ticks(cfg, s, k);
    var q := Transfer(cfg, true, s.sched);
    LevelFills(cfg, true, s.sched, x);
    TransferKeepsAll(cfg, true, s.sched);
    TransferPreempts(cfg, true, s.sched);
    assert HasRoom(cfg, [[]]);
    FrontStarts(cfg, t.clock, q, x);
    var front := Restored(cfg, t.clock, q.levels[x - MIN_PRIORITY][0]);
    OneThread([[front]], front);
    EmptyOrder(s.cores);
    assert Executing(Pid, s.cores) == multiset{};
  }

  lemma FrontGoesOn(cfg: Config, s: Sys, x: int, pid: int, c: nat, k: nat)
    requires Fronted(cfg, s, x, pid, c) && cfg.threads == 1 && c + 1 < Slice(cfg) && k >= 1
    requires EachExecuting(Ticks(cfg, s, k).cores, Unfinished)
    ensures var r := Turn(cfg, s, k);
            && Fronted(cfg, r, x, pid, c + 1) && Live(Pid, r) == Live(Pid, s)
            && Places(cfg, r.sched, x) == Places(cfg, s.sched, x) - Min(|s.sched.ready|, Places(cfg, s.sched, x))
            && (r.sched.preempted <==> s.sched.preempted || s.sched.ready != [])
  {
    hide Ticks, SweepQueues, Transfer, Queued, Kept, Order;
    OneCoreTicks(cfg, s, k);
    var t := Ticks(cfg, s, k);
    var ts := OneCoreSweep(cfg, s, k);
    var u := ts[0];
    assert ts == [u] && Unfinished(u) && Stays(cfg, u);
    OneThread([ts], u);
    OneThread(s.cores, s.cores[0][0]);
    AllStay(cfg, t.clock, t.sched, [u]);
    var kept := Kept(cfg, ts);
    assert kept == [Bumped(u)];
    OneThread([kept], Bumped(u));
    assert !HasRoom(cfg, [kept]);
    LevelFills(cfg, false, s.sched, x);
    TransferKeepsAll(cfg, false, s.sched);
    TransferPreempts(cfg, false, s.sched);
  }

  /** A process whose quantum ends while its level is full is dropped by the sweep. */
  lemma FrontIsRefused(cfg: Config, clock: int, q: Sched, x: int, u: Thread)
    requires OneLevel(cfg, q, x) && Places(cfg, q, x) == 0 && u.pcb.priority == x && Leaves(cfg, u)
    ensures SweepQueues(cfg, clock, q, [u]) == q && Kept(cfg, [u]) == []
  {
    assert [u][..0] == [];
    assert SweepQueues(cfg, clock, q, [u]) == Handle(cfg, clock, q, u);
  }

  /** The core the front process has left goes to the next one. */
  lemma NextStarts(cfg: Config, clock: int, q: Sched, x: int)
    requires OneLevel(cfg, q, x) && Places(cfg, q, x) == 0 && cfg.threads == 1
    ensures var (r, cores) := Dispatch(cfg, clock, Transfer(cfg, true, q), [[]]);
            Queued(Pid, r) + Executing(Pid, cores) == Queued(Pid, q) && r.completed == q.completed
  {
    hide Transfer, Queued, Dispatch, Executing;
    LevelFills(cfg, true, q, x);
    TransferKeepsAll(cfg, true, q);
    var q' := Transfer(cfg, true, q);
    FrontStarts(cfg, clock, q', x);
    var front := Restored(cfg, clock, q'.levels[x - MIN_PRIORITY][0]);
    OneThread([[front]], front);
  }

  /** The front process's quantum ends, its level is full, and it is gone. */
  lemma FrontIsLost(cfg: Config, s: Sys, x: int, pid: int, c: nat, k: nat)
    requires Fronted(cfg, s, x, pid, c) && cfg.threads == 1 && c + 1 == Slice(cfg) && k >= 1
    requires EachExecuting(Ticks(cfg, s, k).cores, Unfinished) && Places(cfg, s.sched, x) == 0
    ensures var r := Turn(cfg, s, k); Live(Pid, r) + multiset{pid} == Live(Pid, s) && r.sched.completed == 0
  {
    hide Ticks, Transfer, Queued, Order, Dispatch, SweepQueues, Kept, Executing;
    OneCoreTicks(cfg, s, k);
    var t := Ticks(cfg, s, k);
    var ts := OneCoreSweep(cfg, s, k);
    var u := ts[0];
    assert ts == [u] && Unfinished(u) && Leaves(cfg, u);
    OneThread([ts], u);
    OneThread(s.cores, s.cores[0][0]);
    FrontIsRefused(cfg, t.clock, s.sched, x, u);
    assert HasRoom(cfg, [[]]);
    NextStarts(cfg, t.clock, s.sched, x);
  }

  /** The level is full from the second activation on. */
  lemma {:induction false} FrontStays(cfg: Config, s: Sys, x: int, ks: seq<nat>, j: nat)
    requires SysWf(cfg, s) && Uniform(cfg, s, x) && cfg.threads == 1 && |s.sched.ready| > LevelCapacity(cfg)
    requires Ticking(ks) && 2 <= j <= |ks| && j <= Slice(cfg) && Undisturbed(cfg, s, ks, j)
    ensures var r := Turns(cfg, s, ks[..j]);
            && Fronted(cfg, r, x, s.sched.ready[0].pid, j - 1) && Live(Pid, r) == Live(Pid, s)
            && Places(cfg, r.sched, x) == 0 && r.sched.preempted
  {
    hide Turn, Ticks, Live, Uniform, EachExecuting, OneLevel, Undisturbed, SysWf, LevelCapacity;
    LastTurn(cfg, s, ks, j);
    var pid := s.sched.ready[0].pid;
    if j == 2 {
      LastTurn(cfg, s, ks, 1);
      assert Turns(cfg, s, ks[..0]) == s;
      FrontIsFirst(cfg, s, x, ks[0]);
      FrontGoesOn(cfg, Turns(cfg, s, ks[..1]), x, pid, 0, ks[1]);
    } else {
      FrontStays(cfg, s, x, ks, j - 1);
      FrontGoesOn(cfg, Turns(cfg, s, ks[..j-1]), x, pid, j - 2, ks[j-1]);
    }
  }

  /** `r` is `s` without the process `lost`, which has not completed. */
  ghost predicate Vanished(s: Sys, r: Sys, lost: int) {
    && Live(Pid, r) + multiset{lost} == Live(Pid, s) && lost !in Live(Pid, r)
    && r.sched.completed == s.sched.completed == 0
  }

  lemma UniformLoses(cfg: Config, s: Sys, x: int, r: Sys, pid: int)
    requires SysWf(cfg, s) && Uniform(cfg, s, x) && r.sched.completed == 0
    requires Live(Pid, r) + multiset{pid} == Live(Pid, s)
    ensures Vanished(s, r, pid)
  {
    EverybodyQueued(cfg, s);
    hide Live, Tally;
    assert Live(Pid, s)[pid] <= 1;
    assert (Live(Pid, r) + multiset{pid})[pid] <= 1;
  }

  /** The second activation enters the preemption branch, the first does not. */
  lemma SecondPreempts(cfg: Config, s: Sys, x: int, ks: seq<nat>)
    requires SysWf(cfg, s) && Uniform(cfg, s, x) && cfg.threads == 1 && |s.sched.ready| > LevelCapacity(cfg)
    requires Slice(cfg) >= 2 && Ticking(ks) && |ks| >= 2 && Undisturbed(cfg, s, ks, 2)
    ensures !Turns(cfg, s, ks[..1]).sched.preempted && Turns(cfg, s, ks[..2]).sched.preempted
  {
    hide Turn, Ticks, Live, EachExecuting, OneLevel, Undisturbed, SysWf, LevelCapacity, Uniform;
    LastTurn(cfg, s, ks, 2);
    LastTurn(cfg, s, ks, 1);
    assert Turns(cfg, s, ks[..0]) == s;
    FrontIsFirst(cfg, s, x, ks[0]);
    FrontStays(cfg, s, x, ks, 2);
  }

  /** Every load of more processes of one priority than its level holds, on one hardware thread: the
      activation that ends the first quantum loses the process that arrived first. The preemption
      routine called on the way changes nothing, no arrival being more urgent than the one executing. */
  lemma PrioritiesLoseBeyondLevel(cfg: Config, s: Sys, x: int, ks: seq<nat>)
    requires SysWf(cfg, s) && Uniform(cfg, s, x) && cfg.threads == 1 && |s.sched.ready| > LevelCapacity(cfg)
    requires Slice(cfg) >= 2 && Ticking(ks) && |ks| == Slice(cfg) + 1 && Undisturbed(cfg, s, ks, |ks|)
    ensures Vanished(s, Turns(cfg, s, ks), s.sched.ready[0].pid)
  {
    hide Turn, Turns, Ticks, Live, EachExecuting, OneLevel, Undisturbed, SysWf, LevelCapacity, Uniform, Vanished;
    var j, pid := |ks| - 1, s.sched.ready[0].pid;
    LastTurn(cfg, s, ks, |ks|);
    assert ks[..|ks|] == ks;
    FrontStays(cfg, s, x, ks, j);
    FrontIsLost(cfg, Turns(cfg, s, ks[..j]), x, pid, j - 1, ks[j]);
    UniformLoses(cfg, s, x, Turns(cfg, s, ks), pid);
  }

  // ------------------------------------------------------------------ priorities: idle while others wait

  lemma {:induction false} OneLevelByPriority(levels: seq<seq<PCB>>, l: nat)
    requires l < |levels| && forall i :: 0 <= i < |levels| && i != l ==> levels[i] == []
    ensures ByPriority(levels) == levels[l]
  {
    var n := |levels| - 1;
    if l < n {
      OneLevelByPriority(levels[..n], l);
    } else {
      ByPriorityEmpty(levels[..n]);
    }
  }

  lemma UniformTakes(cfg: Config, q: Sched, x: int)
    requires OneLevel(cfg, q, x) && q.levels[x - MIN_PRIORITY] == []
    ensures LevelsTake(cfg, q) <==> |q.ready| <= LevelCapacity(cfg)
  {
    UniformTally(q.ready, x);
    forall y | y in Tally(Priority, q.ready) ensures y == x {
      assert y in Keys(Priority, q.ready);
    }
    if q.ready != [] {
      assert Keys(Priority, q.ready)[0] == x;
      assert x in Tally(Priority, q.ready);
    }
  }

  /** A load of one priority on an idle core: the first activation leaves no thread idle while somebody
      waits if and only if the level holds them all or fills every thread. */
  lemma UniformConservesIff(cfg: Config, s: Sys, x: int, k: nat)
    requires SysWf(cfg, s) && Uniform(cfg, s, x) && k >= 1
    ensures WorkConserving(cfg, Turn(cfg, s, k)) <==>
            |s.sched.ready| <= LevelCapacity(cfg) || cfg.threads <= LevelCapacity(cfg)
  {
    hide Ticks, SweepQueues, KeptCores, Order, Transfer, Activate, WorkConserving, ByPriority, LevelsTake;
    var t, l := Ticks(cfg, s, k), x - MIN_PRIORITY;
    IdleTurn(cfg, s, k);
    WorkConservingIff(cfg, t);
    UniformTakes(cfg, s.sched, x);
    LevelFills(cfg, HasRoom(cfg, [[]]), s.sched, x);
    OneLevelByPriority(BeforeDispatch(cfg, t).levels, l);
    var idle: seq<seq<Thread>> := [[]];
    assert idle[..0] == [] && FreeSlots(cfg, idle) == cfg.threads;
  }

  lemma UniformLevel(q: Sched, l: nat, ps: seq<PCB>)
    requires Placed(q) && l < |q.levels| && ps == q.levels[l]
    ensures forall i :: 0 <= i < |ps| ==> LevelOf(ps[i]) == l
  {
    forall i | 0 <= i < |ps| ensures LevelOf(ps[i]) == l {
      assert LevelOf(q.levels[l][i]) == l;
    }
  }

  /** Such an activation starts the most urgent if and only if the same holds: with as many places as
      threads nobody left over is more urgent, though the level does not take in every arrival. */
  lemma UniformOptimalIff(cfg: Config, s: Sys, x: int, k: nat)
    requires SysWf(cfg, s) && Uniform(cfg, s, x) && k >= 1
    ensures StartsMostUrgent(cfg, Ticks(cfg, s, k)) <==>
            |s.sched.ready| <= LevelCapacity(cfg) || cfg.threads <= LevelCapacity(cfg)
  {
    hide Ticks, Run, SweepQueues, KeptCores, Order, Transfer, ByPriority, LevelsTake, StartsMostUrgent, Placed;
    var t, l := Ticks(cfg, s, k), x - MIN_PRIORITY;
    IdleTurn(cfg, s, k);
    var es := TicksAreRuns(cfg, s, [], k);
    assert Run(cfg, s, []) == s by { NoSteps(cfg, s); }
    OptimalIff(cfg, s, es);
    UniformTakes(cfg, s.sched, x);
    LevelFills(cfg, HasRoom(cfg, [[]]), s.sched, x);
    RunPlaces(cfg, s, es);
    BeforeDispatchPlaces(cfg, t);
    var q := BeforeDispatch(cfg, t);
    OneLevelByPriority(q.levels, l);
    UniformLevel(q, l, q.levels[l]);
    var idle: seq<seq<Thread>> := [[]];
    assert idle[..0] == [] && FreeSlots(cfg, idle) == cfg.threads;
  }

  lemma NoSteps(cfg: Config, s: Sys)
    requires SysWf(cfg, s)
    ensures Run(cfg, s, []) == s
  {
  }
}
