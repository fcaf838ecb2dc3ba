/** Who is where: counting processes by pid or by priority, and carrying a property of every
    waiting process and every executing thread through one activation. */
module Population {
  import opened Memory
  import opened Process
  import opened Machine
  import opened Scheduler

  // ------------------------------------------------------------------ list structure

  lemma {:induction false} ReversedAt<T>(s: seq<T>, k: nat)
    requires k < |s|
    ensures Reversed(s)[k] == s[|s| - 1 - k]
  {
    if k < |s| - 1 {
      ReversedAt(s[1..], k);
    }
  }

  lemma {:induction false} ReversedSnoc<T>(s: seq<T>, x: T)
    ensures Reversed(s + [x]) == [x] + Reversed(s)
  {
    if s == [] {
      assert (s + [x])[1..] == [];
    } else {
      assert (s + [x])[1..] == s[1..] + [x];
      ReversedSnoc(s[1..], x);
    }
  }

  lemma {:induction false} KeptAppend(cfg: Config, a: seq<Thread>, b: seq<Thread>)
    ensures Kept(cfg, a + b) == Kept(cfg, a) + Kept(cfg, b)
  {
    if b == [] {
      assert a + b == a;
    } else {
      assert (a + b)[..|a + b|-1] == a + b[..|b|-1];
      KeptAppend(cfg, a, b[..|b|-1]);
    }
  }

  function Survivor(cfg: Config, t: Thread): seq<Thread> {
    if Stays(cfg, t) then [t.(pcb := Bump(t.pcb))] else []
  }

  lemma {:induction false} KeptReversed(cfg: Config, ts: seq<Thread>)
    ensures Kept(cfg, Reversed(ts)) == Reversed(Kept(cfg, ts))
  {
    if ts != [] {
      KeptReversed(cfg, ts[1..]);
      KeptAppend(cfg, Reversed(ts[1..]), [ts[0]]);
      KeptAppend(cfg, [ts[0]], ts[1..]);
      assert ts == [ts[0]] + ts[1..];
      assert [ts[0]][..0] == [];
      assert Kept(cfg, [ts[0]]) == Survivor(cfg, ts[0]);
      var k := Kept(cfg, ts[1..]);
      if Stays(cfg, ts[0]) {
        var h := Survivor(cfg, ts[0]) + k;
        assert h[1..] == k;
      } else {
        assert [] + k == k;
      }
    }
  }

  /** The executing threads after the sweep are the survivors, met in the same order. */
  lemma {:induction false} OrderKept(cfg: Config, cores: seq<seq<Thread>>)
    ensures Order(KeptCores(cfg, cores)) == Kept(cfg, Order(cores))
  {
    if cores != [] {
      var n := |cores| - 1;
      OrderKept(cfg, cores[..n]);
      assert KeptCores(cfg, cores)[..n] == KeptCores(cfg, cores[..n]);
      KeptReversed(cfg, cores[n]);
      KeptAppend(cfg, Order(cores[..n]), Reversed(cores[n]));
    }
  }

  /** Thread `t` joins the executing ones, wherever it lands. */
  lemma {:induction false} OrderPut(cores: seq<seq<Thread>>, i: nat, t: Thread)
    returns (a: seq<Thread>, b: seq<Thread>)
    requires i < |cores|
    ensures Order(cores) == a + b && Order(Put(cores, i, t)) == a + [t] + b
  {
    var n := |cores| - 1;
    if i == n {
      assert Put(cores, i, t)[..n] == cores[..n];
      ReversedSnoc(cores[n], t);
      a, b := Order(cores[..n]), Reversed(cores[n]);
      assert a + ([t] + b) == a + [t] + b;
    } else {
      var c;
      a, c := OrderPut(cores[..n], i, t);
      assert Put(cores, i, t)[..n] == Put(cores[..n], i, t);
      b := c + Reversed(cores[n]);
    }
  }

  /** What a tick can do to a thread's PCB: one unit of life, and perhaps the end of its program. */
  predicate TickOf(t: Thread, u: Thread) {
    var p := DecrementTtl(t.pcb);
    || u.pcb == p
    || (t.pcb.state != Terminated && (u.pcb == Halt(p, Exited) || u.pcb == Halt(p, BadOpcode)))
  }

  lemma {:induction false} TickThreadsPointwise(ts: seq<Thread>, m: Mem)
    requires Shaped(m)
    ensures forall k :: 0 <= k < |ts| ==> TickOf(ts[k], TickThreads(ts, m).0[k])
  {
    if ts != [] {
      TickThreadsPointwise(ts[..|ts|-1], m);
    }
  }

  /** Ticked threads keep their positions; each one has had its own tick. */
  lemma {:induction false} TickPointwise(cores: seq<seq<Thread>>, m: Mem)
    requires Shaped(m)
    ensures var now := TickCores(cores, m).0;
            && |Order(now)| == |Order(cores)|
            && forall k :: 0 <= k < |Order(cores)| ==> TickOf(Order(cores)[k], Order(now)[k])
  {
    if cores != [] {
      var n := |cores| - 1;
      TickPointwise(cores[..n], m);
      var (before, m') := TickCores(cores[..n], m);
      TickThreadsPointwise(cores[n], m');
      var last := TickThreads(cores[n], m').0;
      assert (before + [last])[..n] == before;
      forall k | 0 <= k < |last| ensures TickOf(Reversed(cores[n])[k], Reversed(last)[k]) {
        ReversedAt(cores[n], k);
        ReversedAt(last, k);
      }
    }
  }

  // ------------------------------------------------------------------ counting

  datatype Field = Pid | Priority | Ttl

  /** The attributes of a process that no activation changes; the first two never change at all. */
  function Get(f: Field, p: PCB): int {
    match f
    case Pid => p.pid
    case Priority => p.priority
    case Ttl => p.ttl
  }

  ghost function Keys(f: Field, ps: seq<PCB>): seq<int> {
    seq(|ps|, i requires 0 <= i < |ps| => Get(f, ps[i]))
  }

  ghost function ThreadKeys(f: Field, ts: seq<Thread>): seq<int> {
    seq(|ts|, i requires 0 <= i < |ts| => Get(f, ts[i].pcb))
  }

  ghost function Tally(f: Field, ps: seq<PCB>): multiset<int> {
    multiset(Keys(f, ps))
  }

  ghost function ThreadTally(f: Field, ts: seq<Thread>): multiset<int> {
    multiset(ThreadKeys(f, ts))
  }

  ghost function LevelTally(f: Field, levels: seq<seq<PCB>>): multiset<int> {
    if levels == [] then multiset{}
    else LevelTally(f, levels[..|levels|-1]) + Tally(f, levels[|levels|-1])
  }

  /** Everything in a queue. */
  ghost function Queued(f: Field, q: Sched): multiset<int> {
    Tally(f, q.ready) + LevelTally(f, q.levels)
  }

  /** Everything on a hardware thread. */
  ghost function Executing(f: Field, cores: seq<seq<Thread>>): multiset<int> {
    ThreadTally(f, Order(cores))
  }

  /** Every live process, by pid or by priority. */
  ghost function Live(f: Field, s: Sys): multiset<int> {
    Queued(f, s.sched) + Executing(f, s.cores)
  }

  /** A key counted at most once occurs at most once. */
  lemma CountedOnce(ks: seq<int>, i: nat, j: nat)
    requires i < |ks| && j < |ks| && i != j && multiset(ks)[ks[i]] <= 1
    ensures ks[i] != ks[j]
  {
    var a, b := if i < j then i else j, if i < j then j else i;
    assert ks == ks[..b] + [ks[b]] + ks[b+1..];
    assert ks[..b][a] == ks[a];
    assert ks[a] in multiset(ks[..b]);
  }

  lemma TallyAppend(f: Field, a: seq<PCB>, b: seq<PCB>)
    ensures Tally(f, a + b) == Tally(f, a) + Tally(f, b)
  {
    assert Keys(f, a + b) == Keys(f, a) + Keys(f, b);
  }

  lemma ThreadTallyAppend(f: Field, a: seq<Thread>, b: seq<Thread>)
    ensures ThreadTally(f, a + b) == ThreadTally(f, a) + ThreadTally(f, b)
  {
    assert ThreadKeys(f, a + b) == ThreadKeys(f, a) + ThreadKeys(f, b);
  }

  lemma ThreadTallyInsert(f: Field, a: seq<Thread>, t: Thread, b: seq<Thread>)
    ensures ThreadTally(f, a + [t] + b) == ThreadTally(f, a + b) + multiset{Get(f, t.pcb)}
  {
    ThreadTallyAppend(f, a, b);
    ThreadTallyAppend(f, a, [t]);
    ThreadTallyAppend(f, a + [t], b);
    assert ThreadKeys(f, [t]) == [Get(f, t.pcb)];
  }

  lemma TallyRemoveAt(f: Field, ps: seq<PCB>, m: nat)
    requires m < |ps|
    ensures Tally(f, RemoveAt(ps, m)) + multiset{Get(f, ps[m])} == Tally(f, ps)
  {
    TallyAppend(f, ps[..m], ps[m+1..]);
    TallyAppend(f, ps[..m], [ps[m]]);
    TallyAppend(f, ps[..m] + [ps[m]], ps[m+1..]);
    assert ps == ps[..m] + [ps[m]] + ps[m+1..];
    assert Keys(f, [ps[m]]) == [Get(f, ps[m])];
  }

  lemma TallyHead(f: Field, ps: seq<PCB>)
    requires ps != []
    ensures Tally(f, ps) == multiset{Get(f, ps[0])} + Tally(f, ps[1..])
  {
    assert ps == [ps[0]] + ps[1..];
    TallyAppend(f, [ps[0]], ps[1..]);
    assert Keys(f, [ps[0]]) == [Get(f, ps[0])];
  }

  lemma {:induction false} LevelTallyUpdate(f: Field, levels: seq<seq<PCB>>, i: nat, ps: seq<PCB>)
    requires i < |levels|
    ensures LevelTally(f, levels[i := ps]) + Tally(f, levels[i]) == LevelTally(f, levels) + Tally(f, ps)
    ensures Tally(f, levels[i]) <= LevelTally(f, levels)
  {
    hide Tally;
    var n, l' := |levels| - 1, levels[i := ps];
    if i < n {
      assert l'[..n] == levels[..n][i := ps] && l'[n] == levels[n];
      LevelTallyUpdate(f, levels[..n], i, ps);
      assert levels[..n][i] == levels[i];
    } else {
      assert l'[..n] == levels[..n] && l'[n] == ps;
    }
    assert LevelTally(f, l') == LevelTally(f, l'[..n]) + Tally(f, l'[n]);
    assert LevelTally(f, levels) == LevelTally(f, levels[..n]) + Tally(f, levels[n]);
    if i < n {
      Regroup(LevelTally(f, l'[..n]), Tally(f, levels[i]), LevelTally(f, levels[..n]), Tally(f, ps),
              Tally(f, levels[n]));
    } else {
      Regroup(Tally(f, ps), Tally(f, levels[i]), Tally(f, levels[i]), Tally(f, ps), LevelTally(f, levels[..n]));
    }
  }

  lemma Regroup(a: multiset<int>, t: multiset<int>, b: multiset<int>, u: multiset<int>, n: multiset<int>)
    requires a + t == b + u
    ensures (a + n) + t == (b + n) + u && (n + a) + t == (n + b) + u
  {
    forall x: int ensures ((a + n) + t)[x] == ((b + n) + u)[x] {
      assert (a + t)[x] == (b + u)[x];
    }
    assert n + a == a + n && n + b == b + n;
  }

  lemma ExecutingPut(f: Field, cores: seq<seq<Thread>>, i: nat, t: Thread)
    requires i < |cores|
    ensures Executing(f, Put(cores, i, t)) == Executing(f, cores) + multiset{Get(f, t.pcb)}
  {
    var a, b := OrderPut(cores, i, t);
    ThreadTallyInsert(f, a, t, b);
  }

  // ------------------------------------------------------------------ a property of everyone

  ghost predicate EachWaiting(q: Sched, P: PCB -> bool) {
    && (forall i :: 0 <= i < |q.ready| ==> P(q.ready[i]))
    && (forall l, i :: 0 <= l < |q.levels| && 0 <= i < |q.levels[l]| ==> P(q.levels[l][i]))
  }

  ghost predicate EachThread(ts: seq<Thread>, R: Thread -> bool) {
    forall k :: 0 <= k < |ts| ==> R(ts[k])
  }

  ghost predicate EachExecuting(cores: seq<seq<Thread>>, R: Thread -> bool) {
    EachThread(Order(cores), R)
  }

  /** A bumped thread whose quantum has run out and that is not done. */
  predicate Leaves(cfg: Config, t: Thread) {
    !Done(Bump(t.pcb)) && Expired(cfg, Bump(t.pcb))
  }

  function Bumped(t: Thread): Thread {
    t.(pcb := Bump(t.pcb))
  }

  lemma {:induction false} SweepEach(cfg: Config, clock: int, q: Sched, ts: seq<Thread>, P: PCB -> bool,
                                     R: Thread -> bool)
    requires SchedWf(cfg, q) && EachWaiting(q, P) && EachThread(ts, R)
    requires forall t :: R(t) && Leaves(cfg, t) ==> P(Saved(cfg, clock, Bumped(t)))
    ensures EachWaiting(SweepQueues(cfg, clock, q, ts), P)
  {
    if ts != [] {
      SweepEach(cfg, clock, q, ts[..|ts|-1], P, R);
    }
  }

  lemma {:induction false} KeptEach(cfg: Config, ts: seq<Thread>, R: Thread -> bool, R': Thread -> bool)
    requires EachThread(ts, R)
    requires forall t :: R(t) && Stays(cfg, t) ==> R'(Bumped(t))
    ensures EachThread(Kept(cfg, ts), R')
  {
    if ts != [] {
      KeptEach(cfg, ts[..|ts|-1], R, R');
    }
  }

  lemma {:induction false} TransferEach(cfg: Config, room: bool, q: Sched, P: PCB -> bool)
    requires SchedWf(cfg, q) && cfg.policy == PreemptivePrio && EachWaiting(q, P)
    ensures EachWaiting(Transfer(cfg, room, q), P)
    decreases |q.ready|
  {
    if q.ready != [] {
      var rest := q.(ready := q.ready[1..], preempted := q.preempted || !room);
      match EnqueueTo(cfg, rest, q.ready[0])
      case Some(r) => TransferEach(cfg, room, r, P);
      case None =>
    }
  }

  lemma SelectEach(cfg: Config, q: Sched, P: PCB -> bool)
    requires SchedWf(cfg, q) && HasReady(cfg, q) && EachWaiting(q, P)
    ensures P(SelectNext(cfg, q).0) && EachWaiting(SelectNext(cfg, q).1, P)
  {
  }

  lemma {:induction false} DispatchEach(cfg: Config, clock: int, q: Sched, cores: seq<seq<Thread>>, P: PCB -> bool,
                                        R: Thread -> bool)
    requires SchedWf(cfg, q) && CoresWf(cfg, cores) && EachWaiting(q, P) && EachExecuting(cores, R)
    requires forall p :: P(p) ==> R(Restored(cfg, clock, p))
    ensures var (q', cores') := Dispatch(cfg, clock, q, cores);
            EachWaiting(q', P) && EachExecuting(cores', R)
    decreases FreeSlots(cfg, cores)
  {
    if CanDispatch(cfg, q, cores) {
      SelectEach(cfg, q, P);
      var p := SelectNext(cfg, q).0;
      var a, b := OrderPut(cores, FirstFree(cfg, cores, 0), Restored(cfg, clock, p));
      var (q', cores') := DispatchOne(cfg, clock, q, cores);
      assert forall t :: t in a + b ==> R(t);
      DispatchEach(cfg, clock, q', cores', P, R);
    }
  }

  /** Waiting processes satisfy P and executing ones R; the activation's own actions keep it so. */
  lemma ActivateEach(cfg: Config, s: Sys, P: PCB -> bool, R: Thread -> bool, R': Thread -> bool)
    requires SysWf(cfg, s) && Wakes(cfg, s)
    requires EachWaiting(s.sched, P) && EachExecuting(s.cores, R)
    requires forall t :: R(t) && Leaves(cfg, t) ==> P(Saved(cfg, s.clock, Bumped(t)))
    requires forall t :: R(t) && Stays(cfg, t) ==> R'(Bumped(t))
    requires forall p :: P(p) ==> R'(Restored(cfg, s.clock, p))
    ensures EachWaiting(Activate(cfg, s).sched, P) && EachExecuting(Activate(cfg, s).cores, R')
  {
    var ts := Order(s.cores);
    SweepEach(cfg, s.clock, s.sched, ts, P, R);
    OrderKept(cfg, s.cores);
    KeptEach(cfg, ts, R, R');
    if cfg.policy == PreemptivePrio {
      TransferEach(cfg, HasRoom(cfg, KeptCores(cfg, s.cores)), SweepQueues(cfg, s.clock, s.sched, ts), P);
    }
    DispatchEach(cfg, s.clock, BeforeDispatch(cfg, s), KeptCores(cfg, s.cores), P, R');
  }

  lemma TickEach(cfg: Config, s: Sys, R: Thread -> bool, R': Thread -> bool)
    requires SysWf(cfg, s) && EachExecuting(s.cores, R)
    requires forall t, u :: R(t) && TickOf(t, u) ==> R'(u)
    ensures EachExecuting(Tick(cfg, s).cores, R')
  {
    TickPointwise(s.cores, s.mem);
  }
}
