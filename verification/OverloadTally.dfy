/** Priority loads of any composition: which draws of priorities are safe in every run. */
module OverloadTally {
  import opened Process
  import opened Machine
  import opened Scheduler
  import opened Decisions
  import opened Population
  import opened Conservation
  import opened Termination
  import opened RoundRobinFairness
  import opened PriorityDispatch
  import opened Kernel
  import opened Transparency
  import opened Boot
  import opened Overload
  import opened OverloadRuns
  import opened OverloadStarts

  // ------------------------------------------------------------------ an order of arrival

  /** The priorities `lo` to `hi - 1`, each as often as drawn. */
  ghost function Spread(prios: multiset<int>, lo: int, hi: int): seq<int>
    decreases hi - lo
  {
    if hi <= lo then [] else Spread(prios, lo, hi - 1) + AllOf(hi - 1, prios[hi-1])
  }

  lemma {:induction false} AllOfTally(x: int, n: nat, y: int)
    ensures multiset(AllOf(x, n))[y] == if y == x then n else 0
  {
    if n > 0 {
      AllOfTally(x, n - 1, y);
      assert AllOf(x, n) == AllOf(x, n - 1) + [x];
    } else {
      assert AllOf(x, n) == [];
    }
  }

  lemma SumTally(a: seq<int>, b: seq<int>, y: int)
    ensures multiset(a + b)[y] == multiset(a)[y] + multiset(b)[y]
  {
  }

  lemma {:induction false} SpreadTally(prios: multiset<int>, lo: int, hi: int, y: int)
    ensures multiset(Spread(prios, lo, hi))[y] == if lo <= y < hi then prios[y] else 0
    decreases hi - lo
  {
    hide AllOf;
    if lo < hi {
      SpreadTally(prios, lo, hi - 1, y);
      AllOfTally(hi - 1, prios[hi-1], y);
      SumTally(Spread(prios, lo, hi - 1), AllOf(hi - 1, prios[hi-1]), y);
    }
  }

  predicate LegalDraw(x: int) { MIN_PRIORITY <= x <= MAX_PRIORITY }

  ghost predicate AllLegal(prios: multiset<int>) {
    forall x :: x in prios ==> LegalDraw(x)
  }

  /** The most urgent priority drawn more often than its level has places. */
  ghost predicate FirstOverdrawn(prios: multiset<int>, places: nat, p: int) {
    LegalDraw(p) && prios[p] > places && forall y :: y < p ==> prios[y] <= places
  }

  lemma {:induction false} FindOverdrawn(prios: multiset<int>, places: nat, x: int)
    returns (p: int)
    requires AllLegal(prios) && prios[x] > places
    ensures FirstOverdrawn(prios, places, p)
    decreases x - MIN_PRIORITY
  {
    assert x in prios;
    if y :| y < x && prios[y] > places {
      p := FindOverdrawn(prios, places, y);
    } else {
      p := x;
    }
  }

  /** `head` enters the levels and fills that of `p` but none beyond its places, `x` is refused, and what
      then heads the ready queue is of priority `p`; nobody behind `head` is more urgent than `p`. */
  ghost predicate Overdraws(prios: multiset<int>, places: nat, p: int, head: seq<int>, x: int, tail: seq<int>) {
    && (forall y :: multiset(head)[y] <= places)
    && (forall y :: y < p ==> multiset(head)[y] == prios[y])
    && multiset(head)[p] == places && multiset(head)[x] == places
    && (tail + [x])[0] == p && (forall i :: 0 <= i < |tail + [x]| ==> (tail + [x])[i] >= p)
    && multiset(head + [x] + tail) == prios
  }

  lemma SameTally(a: multiset<int>, b: multiset<int>)
    requires forall y: int :: a[y] == b[y]
    ensures a == b
  {
    if a - b != multiset{} {
      var y := SomeMember(a - b);
      assert false;
    }
    if b - a != multiset{} {
      var y := SomeMember(b - a);
      assert false;
    }
    assert a == (a - b) + (a * b) && b == (b - a) + (a * b);
  }

  lemma InOrder3(prios: multiset<int>, head: seq<int>, x: int, tail: seq<int>)
    requires forall y: int :: multiset(head)[y] + (if y == x then 1 else 0) + multiset(tail)[y] == prios[y]
    ensures multiset(head + [x] + tail) == prios
  {
    forall y: int ensures multiset(head + [x] + tail)[y] == prios[y] {
      SumTally(head + [x], tail, y);
      SumTally(head, [x], y);
    }
    SameTally(multiset(head + [x] + tail), prios);
  }

  lemma Behind(p: int, x: int, tail: seq<int>)
    requires x >= p && forall i :: 0 <= i < |tail| ==> tail[i] >= p
    requires if tail == [] then x == p else tail[0] == p
    ensures (tail + [x])[0] == p && forall i :: 0 <= i < |tail + [x]| ==> (tail + [x])[i] >= p
  {
  }

  lemma SpreadRange(prios: multiset<int>, lo: int, hi: int)
    ensures forall i :: 0 <= i < |Spread(prios, lo, hi)| ==> lo <= Spread(prios, lo, hi)[i] < hi
  {
    var s := Spread(prios, lo, hi);
    forall i | 0 <= i < |s| ensures lo <= s[i] < hi {
      SpreadTally(prios, lo, hi, s[i]);
      assert s[i] in multiset(s);
    }
  }

  lemma OutOfRange(prios: multiset<int>, y: int)
    requires AllLegal(prios)
    ensures LegalDraw(y) || prios[y] == 0
  {
    if prios[y] > 0 {
      assert y in prios;
    }
  }

  /** What an order of arrival has to show of each priority. */
  ghost predicate Counted(prios: multiset<int>, places: nat, p: int, head: seq<int>, x: int, tail: seq<int>, y: int) {
    && multiset(head)[y] <= places && (y < p ==> multiset(head)[y] == prios[y])
    && (y == p || y == x ==> multiset(head)[y] == places)
    && multiset(head)[y] + (if y == x then 1 else 0) + multiset(tail)[y] == prios[y]
  }

  lemma CountedOverdraws(prios: multiset<int>, places: nat, p: int, head: seq<int>, x: int, tail: seq<int>)
    requires forall y: int :: Counted(prios, places, p, head, x, tail, y)
    requires (tail + [x])[0] == p && forall i :: 0 <= i < |tail + [x]| ==> (tail + [x])[i] >= p
    ensures Overdraws(prios, places, p, head, x, tail)
  {
    assert Counted(prios, places, p, head, x, tail, p) && Counted(prios, places, p, head, x, tail, x);
    forall y: int
      ensures multiset(head)[y] + (if y == x then 1 else 0) + multiset(tail)[y] == prios[y]
      ensures multiset(head)[y] <= places
      ensures y < p ==> multiset(head)[y] == prios[y]
    {
      assert Counted(prios, places, p, head, x, tail, y);
    }
    InOrder3(prios, head, x, tail);
  }

  ghost function MoreUrgent(prios: multiset<int>, p: int): seq<int> { Spread(prios, MIN_PRIORITY, p) }

  ghost function LessUrgent(prios: multiset<int>, p: int): seq<int> { Spread(prios, p + 1, MAX_PRIORITY + 1) }

  lemma UrgencyTally(prios: multiset<int>, p: int, y: int)
    requires AllLegal(prios)
    ensures multiset(MoreUrgent(prios, p))[y] == if y < p then prios[y] else 0
    ensures multiset(LessUrgent(prios, p))[y] == if y > p then prios[y] else 0
  {
    SpreadTally(prios, MIN_PRIORITY, p, y);
    SpreadTally(prios, p + 1, MAX_PRIORITY + 1, y);
    OutOfRange(prios, y);
  }

  lemma CountByTwo(prios: multiset<int>, places: nat, p: int, more: nat, y: int)
    requires AllLegal(prios) && FirstOverdrawn(prios, places, p) && prios[p] == places + 1 + more
    ensures Counted(prios, places, p, MoreUrgent(prios, p) + AllOf(p, places), p,
                    AllOf(p, more) + LessUrgent(prios, p), y)
  {
    hide AllOf, MoreUrgent, LessUrgent;
    UrgencyTally(prios, p, y);
    SumTally(MoreUrgent(prios, p), AllOf(p, places), y);
    SumTally(AllOf(p, more), LessUrgent(prios, p), y);
    AllOfTally(p, places, y);
    AllOfTally(p, more, y);
  }

  /** With two too many of `p`, the less urgent come last. */
  lemma OrderByTwo(prios: multiset<int>, places: nat, p: int)
    returns (head: seq<int>, x: int, tail: seq<int>)
    requires AllLegal(prios) && FirstOverdrawn(prios, places, p) && prios[p] >= places + 2
    ensures Overdraws(prios, places, p, head, x, tail)
  {
    hide Overdraws, Counted, Spread;
    var more: nat := prios[p] - places - 1;
    head, x, tail := MoreUrgent(prios, p) + AllOf(p, places), p, AllOf(p, more) + LessUrgent(prios, p);
    SpreadRange(prios, p + 1, MAX_PRIORITY + 1);
    Behind(p, x, tail);
    forall y: int ensures Counted(prios, places, p, head, x, tail, y) {
      CountByTwo(prios, places, p, more, y);
    }
    CountedOverdraws(prios, places, p, head, x, tail);
  }

  lemma CountByOne(prios: multiset<int>, places: nat, p: int, y: int)
    requires AllLegal(prios) && FirstOverdrawn(prios, places, p) && prios[p] == places + 1
    requires forall z :: z > p ==> prios[z] <= places
    ensures Counted(prios, places, p, MoreUrgent(prios, p) + LessUrgent(prios, p) + AllOf(p, places), p, [], y)
  {
    hide AllOf, MoreUrgent, LessUrgent;
    UrgencyTally(prios, p, y);
    SumTally(MoreUrgent(prios, p) + LessUrgent(prios, p), AllOf(p, places), y);
    SumTally(MoreUrgent(prios, p), LessUrgent(prios, p), y);
    AllOfTally(p, places, y);
  }

  /** With one too many of `p` and none too many of the others, `p` comes last. */
  lemma OrderByOne(prios: multiset<int>, places: nat, p: int)
    returns (head: seq<int>, x: int, tail: seq<int>)
    requires AllLegal(prios) && FirstOverdrawn(prios, places, p) && prios[p] == places + 1
    requires forall y :: y > p ==> prios[y] <= places
    ensures Overdraws(prios, places, p, head, x, tail)
  {
    hide Overdraws, Counted, MoreUrgent, LessUrgent;
    head, x, tail := MoreUrgent(prios, p) + LessUrgent(prios, p) + AllOf(p, places), p, [];
    forall y: int ensures Counted(prios, places, p, head, x, tail, y) {
      CountByOne(prios, places, p, y);
    }
    CountedOverdraws(prios, places, p, head, x, tail);
  }

  lemma CountByOther(prios: multiset<int>, places: nat, p: int, v: int, y: int)
    requires AllLegal(prios) && FirstOverdrawn(prios, places, p) && prios[p] == places + 1
    requires v > p && prios[v] > places
    ensures Counted(prios, places, p, MoreUrgent(prios, p) + AllOf(p, places) + AllOf(v, places), v,
                    [p] + LessUrgent(prios[v := prios[v] - places - 1], p), y)
  {
    hide AllOf, MoreUrgent, LessUrgent;
    var less := prios[v := prios[v] - places - 1];
    OutOfRange(prios, v);
    UrgencyTally(prios, p, y);
    UrgencyTally(less, p, y);
    SumTally(MoreUrgent(prios, p) + AllOf(p, places), AllOf(v, places), y);
    SumTally(MoreUrgent(prios, p), AllOf(p, places), y);
    SumTally([p], LessUrgent(less, p), y);
    AllOfTally(p, places, y);
    AllOfTally(v, places, y);
  }

  /** With one too many of `p` and too many of a less urgent `v`, `v` is refused first. */
  lemma OrderByOther(prios: multiset<int>, places: nat, p: int, v: int)
    returns (head: seq<int>, x: int, tail: seq<int>)
    requires AllLegal(prios) && FirstOverdrawn(prios, places, p) && prios[p] == places + 1
    requires v > p && prios[v] > places
    ensures Overdraws(prios, places, p, head, x, tail)
  {
    hide Overdraws, Counted, Spread;
    var less := prios[v := prios[v] - places - 1];
    head, x, tail := MoreUrgent(prios, p) + AllOf(p, places) + AllOf(v, places), v, [p] + LessUrgent(less, p);
    SpreadRange(less, p + 1, MAX_PRIORITY + 1);
    Behind(p, x, tail);
    forall y: int ensures Counted(prios, places, p, head, x, tail, y) {
      CountByOther(prios, places, p, v, y);
    }
    CountedOverdraws(prios, places, p, head, x, tail);
  }

  lemma OrderOverdrawn(prios: multiset<int>, places: nat, p: int)
    returns (head: seq<int>, x: int, tail: seq<int>)
    requires AllLegal(prios) && FirstOverdrawn(prios, places, p)
    ensures Overdraws(prios, places, p, head, x, tail)
  {
    hide Overdraws;
    if prios[p] >= places + 2 {
      head, x, tail := OrderByTwo(prios, places, p);
    } else if v :| v > p && prios[v] > places {
      head, x, tail := OrderByOther(prios, places, p, v);
    } else {
      head, x, tail := OrderByOne(prios, places, p);
    }
  }

  // ------------------------------------------------------------------ the first activation

  /** Arrivals that their levels can hold all enter. */
  lemma {:induction false} TakesAll(cfg: Config, room: bool, q: Sched, k: nat)
    returns (r: Sched)
    requires SchedWf(cfg, q) && cfg.policy == PreemptivePrio && k <= |q.ready|
    requires forall i :: 0 <= i < k ==> LegalDraw(q.ready[i].priority)
    requires forall l :: 0 <= l < |q.levels| ==>
               |q.levels[l]| + Tally(Priority, q.ready[..k])[l + MIN_PRIORITY] <= LevelCapacity(cfg)
    ensures SchedWf(cfg, r) && Transfer(cfg, room, q) == Transfer(cfg, room, r) && r.ready == q.ready[k..]
    ensures forall l :: 0 <= l < |q.levels| ==>
              |r.levels[l]| == |q.levels[l]| + Tally(Priority, q.ready[..k])[l + MIN_PRIORITY]
    decreases k
  {
    hide LevelCapacity, Tally;
    if k == 0 {
      assert Keys(Priority, q.ready[..0]) == [];
      NoTally(q.ready[..0]);
      r := q;
    } else {
      var p, ps := q.ready[0], q.ready[..k];
      TallyHead(Priority, ps);
      assert Tally(Priority, ps)[p.priority] >= 1;
      var rest := q.(ready := q.ready[1..], preempted := q.preempted || !room);
      var q' := EnqueueTo(cfg, rest, p).value;
      assert ps[1..] == q'.ready[..k-1];
      r := TakesAll(cfg, room, q', k - 1);
    }
  }

  lemma NoTally(ps: seq<PCB>)
    requires ps == []
    ensures forall x :: Tally(Priority, ps)[x] == 0
  {
    assert Keys(Priority, ps) == [];
  }

  lemma {:induction false} LevelsGrow(cfg: Config, room: bool, q: Sched, l: nat)
    requires SchedWf(cfg, q) && cfg.policy == PreemptivePrio && l < |q.levels|
    ensures |Transfer(cfg, room, q).levels[l]| >= |q.levels[l]|
    decreases |q.ready|
  {
    if q.ready != [] {
      var rest := q.(ready := q.ready[1..], preempted := q.preempted || !room);
      match EnqueueTo(cfg, rest, q.ready[0])
      case Some(r) => LevelsGrow(cfg, room, r, l);
      case None =>
    }
  }

  /** An arrival with one place left fills its level. */
  lemma LastPlaceTaken(cfg: Config, room: bool, q: Sched)
    requires SchedWf(cfg, q) && cfg.policy == PreemptivePrio && q.ready != [] && LegalDraw(q.ready[0].priority)
    requires |q.levels[LevelOf(q.ready[0])]| == LevelCapacity(cfg) - 1
    ensures |Transfer(cfg, room, q).levels[LevelOf(q.ready[0])]| == LevelCapacity(cfg)
  {
    hide LevelCapacity;
    var rest := q.(ready := q.ready[1..], preempted := q.preempted || !room);
    LevelsGrow(cfg, room, EnqueueTo(cfg, rest, q.ready[0]).value, LevelOf(q.ready[0]));
  }

  ghost predicate FreshThreads(ts: seq<Thread>, p: int, c: int) {
    forall i :: 0 <= i < |ts| ==> ts[i].pcb.quantumCounter == c && ts[i].pcb.priority <= p
  }

  /** The most urgent process starts, on the one core. */
  lemma MostUrgentStarts(cfg: Config, clock: int, q: Sched, ts: seq<Thread>, l: nat)
    requires SchedWf(cfg, q) && cfg.policy == PreemptivePrio && Placed(q) && l < |q.levels| && q.levels[l] != []
    requires |ts| < cfg.threads && FreshThreads(ts, l + MIN_PRIORITY, 0)
    ensures var i := FirstLevel(q.levels, 0);
            i <= l && CoresWf(cfg, [ts]) && CanDispatch(cfg, q, [ts])
            && var (q', cores) := DispatchOne(cfg, clock, q, [ts]);
               && q'.levels == q.levels[i := q.levels[i][1..]] && q'.ready == q.ready && Placed(q')
               && |cores| == 1 && |cores[0]| == |ts| + 1 && FreshThreads(cores[0], l + MIN_PRIORITY, 0)
               && cores[0][|ts|].pcb.priority == i + MIN_PRIORITY
               && Dispatch(cfg, clock, q, [ts]) == Dispatch(cfg, clock, q', [cores[0]])
  {
    var i := FirstLevel(q.levels, 0);
    var t := Restored(cfg, clock, q.levels[i][0]);
    assert LevelOf(q.levels[i][0]) == i;
    assert FirstFree(cfg, [ts], 0) == 0;
    var (q', cores) := DispatchOne(cfg, clock, q, [ts]);
    assert cores == [ts][0 := ts + [t]] && cores == [ts + [t]];
  }

  lemma LowerLevels(levels: seq<seq<PCB>>, i: nat, l: nat)
    requires i < l < |levels| && levels[i] != [] && forall k :: 0 <= k < i ==> levels[k] == []
    ensures var less := levels[i := levels[i][1..]];
            less[l] == levels[l] && |ByPriority(less[..l])| == |ByPriority(levels[..l])| - 1
  {
    var more := levels[..l];
    FirstLevelIsHead(more, i);
    assert levels[i := levels[i][1..]][..l] == more[i := more[i][1..]];
  }

  lemma FullCoreStartsNobody(cfg: Config, clock: int, q: Sched, ts: seq<Thread>)
    requires SchedWf(cfg, q) && |ts| == cfg.threads
    ensures CoresWf(cfg, [ts]) && Dispatch(cfg, clock, q, [ts]) == (q, [ts])
  {
    assert FirstFree(cfg, [ts], 0) == 1;
  }

  /** With a thread for everyone more urgent and one more, the front of level `l` starts last. */
  lemma {:induction false} FrontStartsLast(cfg: Config, clock: int, q: Sched, ts: seq<Thread>, l: nat)
    requires SchedWf(cfg, q) && cfg.policy == PreemptivePrio && Placed(q) && l < |q.levels| && q.levels[l] != []
    requires |ts| + |ByPriority(q.levels[..l])| + 1 == cfg.threads && FreshThreads(ts, l + MIN_PRIORITY, 0)
    ensures var (r, cores) := Dispatch(cfg, clock, q, [ts]);
            && |r.levels| == |q.levels| && |r.levels[l]| == |q.levels[l]| - 1 && r.ready == q.ready
            && |cores| == 1 && |cores[0]| == cfg.threads && FreshThreads(cores[0], l + MIN_PRIORITY, 0)
            && cores[0][cfg.threads-1].pcb.priority == l + MIN_PRIORITY
    decreases |ByPriority(q.levels[..l])|
  {
    hide *;
    var i := FirstLevel(q.levels, 0);
    MostUrgentStarts(cfg, clock, q, ts, l);
    var (q', cores) := DispatchOne(cfg, clock, q, [ts]);
    var us := cores[0];
    if i == l {
      ByPriorityEmpty(q.levels[..l]);
      FullCoreStartsNobody(cfg, clock, q', us);
    } else {
      LowerLevels(q.levels, i, l);
      FrontStartsLast(cfg, clock, q', us, l);
    }
  }

  lemma {:induction false} BelowIsMoreUrgent(levels: seq<seq<PCB>>, prios: multiset<int>, l: nat)
    requires l <= |levels| && forall i :: 0 <= i < l ==> |levels[i]| == prios[i + MIN_PRIORITY]
    ensures |ByPriority(levels[..l])| == |MoreUrgent(prios, l + MIN_PRIORITY)|
  {
    hide AllOf;
    if l > 0 {
      assert levels[..l][..l-1] == levels[..l-1];
      BelowIsMoreUrgent(levels, prios, l - 1);
    }
  }

  /** Threads for everyone more urgent than `p` and one more are taken, the last by a process of priority
      `p` and `c` activations old; the level of `p` holds `n`, and no arrival is more urgent. */
  ghost predicate Packed(cfg: Config, s: Sys, p: int, c: int, n: int) {
    && SysWf(cfg, s) && cfg.policy == PreemptivePrio && cfg.threads >= 1 && LegalDraw(p) && Placed(s.sched)
    && |s.cores| == 1 && |s.cores[0]| == cfg.threads && FreshThreads(s.cores[0], p, c)
    && s.cores[0][cfg.threads-1].pcb.priority == p && s.lastTick <= s.clock
    && |s.sched.levels[p - MIN_PRIORITY]| == n
  }

  ghost predicate NoneMoreUrgent(ps: seq<PCB>, p: int) {
    forall i :: 0 <= i < |ps| ==> ps[i].priority >= p
  }

  /** A load of the priorities `prios`, arriving in such an order. */
  ghost predicate Overdrawing(cfg: Config, s: Sys, prios: multiset<int>, p: int, head: seq<int>, x: int,
                              tail: seq<int>)
  {
    && Accepted(cfg, s) && cfg.policy == PreemptivePrio && cfg.sync == ClockSync && cfg.quantum == 2
    && s.cores == [[]] && AllLegal(prios) && FirstOverdrawn(prios, LevelCapacity(cfg), p)
    && Overdraws(prios, LevelCapacity(cfg), p, head, x, tail)
    && Keys(Priority, s.sched.ready) == head + [x] + tail && cfg.threads == |MoreUrgent(prios, p)| + 1
  }

  lemma DrawsAreLegal(prios: multiset<int>, ks: seq<int>)
    requires AllLegal(prios) && multiset(ks) == prios
    ensures forall i :: 0 <= i < |ks| ==> LegalDraw(ks[i])
  {
    forall i | 0 <= i < |ks| ensures LegalDraw(ks[i]) {
      assert ks[i] in multiset(ks);
    }
  }

  lemma HeadKeys(ps: seq<PCB>, head: seq<int>, rest: seq<int>)
    requires Keys(Priority, ps) == head + rest
    ensures |head| <= |ps| && Keys(Priority, ps[..|head|]) == head
  {
    var ks := Keys(Priority, ps);
    assert ks[..|head|] == head;
    assert Keys(Priority, ps[..|head|]) == ks[..|head|];
  }

  lemma DrawsOf(ps: seq<PCB>, ks: seq<int>, prios: multiset<int>)
    requires Keys(Priority, ps) == ks && multiset(ks) == prios && AllLegal(prios)
    ensures forall i :: 0 <= i < |ps| ==> LegalDraw(ps[i].priority)
  {
    DrawsAreLegal(prios, ks);
    forall i | 0 <= i < |ps| ensures LegalDraw(ps[i].priority) {
      assert Keys(Priority, ps)[i] == ks[i];
    }
  }

  lemma DrawnInOrder(prios: multiset<int>, places: nat, p: int, head: seq<int>, x: int, tail: seq<int>)
    requires Overdraws(prios, places, p, head, x, tail)
    ensures multiset(head + [x] + tail) == prios && forall y: int :: multiset(head)[y] <= places
  {
  }

  /** What enters in the first activation. */
  lemma OverdrawnEnters(cfg: Config, s: Sys, prios: multiset<int>, p: int, head: seq<int>, x: int, tail: seq<int>)
    returns (r: Sched)
    requires SysWf(cfg, s) && Overdrawing(cfg, s, prios, p, head, x, tail)
    ensures SchedWf(cfg, r) && Transfer(cfg, true, s.sched) == Transfer(cfg, true, r)
    ensures |head| <= |s.sched.ready| && r.ready == s.sched.ready[|head|..]
    ensures forall i :: 0 <= i < |s.sched.ready| ==> LegalDraw(s.sched.ready[i].priority)
    ensures forall l :: 0 <= l < |r.levels| ==> |r.levels[l]| == multiset(head)[l + MIN_PRIORITY]
  {
    hide LevelCapacity, MoreUrgent, Overdraws, FirstOverdrawn, AllLegal, Keys, LegalDraw;
    var q, ks := s.sched, head + [x] + tail;
    assert ks == head + ([x] + tail);
    DrawnInOrder(prios, LevelCapacity(cfg), p, head, x, tail);
    DrawsOf(q.ready, ks, prios);
    HeadKeys(q.ready, head, [x] + tail);
    r := TakesAll(cfg, true, q, |head|);
  }

  lemma NextIsRefused(cfg: Config, q: Sched)
    requires SchedWf(cfg, q) && cfg.policy == PreemptivePrio && q.ready != [] && LegalDraw(q.ready[0].priority)
    requires |q.levels[LevelOf(q.ready[0])]| == LevelCapacity(cfg)
    ensures var r := Transfer(cfg, true, q); r.levels == q.levels && r.ready == q.ready[1..] + [q.ready[0]]
  {
    hide LevelCapacity;
  }

  lemma BehindHead(ps: seq<PCB>, head: seq<int>, x: int, tail: seq<int>, p: int)
    requires Keys(Priority, ps) == head + [x] + tail
    requires (tail + [x])[0] == p && forall i :: 0 <= i < |tail + [x]| ==> (tail + [x])[i] >= p
    ensures |ps| > |head| && ps[|head|].priority == x
    ensures var left := ps[|head|..][1..] + [ps[|head|]]; left[0].priority == p && NoneMoreUrgent(left, p)
  {
    var ks, left := Keys(Priority, ps), ps[|head|..][1..] + [ps[|head|]];
    assert ks[|head|] == x;
    forall i | 0 <= i < |left| ensures left[i].priority == (tail + [x])[i] {
      if i < |tail| {
        assert ks[|head| + 1 + i] == tail[i];
      }
    }
    assert left[0].priority == (tail + [x])[0];
    forall i | 0 <= i < |left| ensures left[i].priority >= p {
      assert (tail + [x])[i] >= p;
    }
  }

  /** The transfer of the first activation. */
  lemma OverdrawnTransfer(cfg: Config, s: Sys, prios: multiset<int>, p: int, head: seq<int>, x: int, tail: seq<int>)
    requires SysWf(cfg, s) && Overdrawing(cfg, s, prios, p, head, x, tail)
    ensures var r, l := Transfer(cfg, true, s.sched), p - MIN_PRIORITY;
            && |r.levels[l]| == LevelCapacity(cfg) && |ByPriority(r.levels[..l])| + 1 == cfg.threads
            && r.ready != [] && r.ready[0].priority == p && NoneMoreUrgent(r.ready, p)
  {
    hide LevelCapacity, MoreUrgent, ByPriority, Keys, NoneMoreUrgent, Transfer;
    var r := OverdrawnEnters(cfg, s, prios, p, head, x, tail);
    BehindHead(s.sched.ready, head, x, tail, p);
    assert r.ready[0] == s.sched.ready[|head|];
    assert LevelOf(r.ready[0]) == x - MIN_PRIORITY;
    NextIsRefused(cfg, r);
    BelowIsMoreUrgent(r.levels, prios, p - MIN_PRIORITY);
  }

  lemma OverdrawnStarts(cfg: Config, s: Sys, prios: multiset<int>, p: int, head: seq<int>, x: int, tail: seq<int>,
                        k: nat)
    requires SysWf(cfg, s) && Overdrawing(cfg, s, prios, p, head, x, tail) && k >= 1
    ensures RoutineIdle(cfg, Ticks(cfg, s, k))
    ensures var r := Turn(cfg, s, k);
            && Packed(cfg, r, p, 0, LevelCapacity(cfg) - 1) && r.sched.ready != []
            && r.sched.ready[0].priority == p && NoneMoreUrgent(r.sched.ready, p)
  {
    hide Ticks, SweepQueues, KeptCores, Order, Transfer, Dispatch, LevelCapacity, ByPriority, Keys, Overdraws,
         FirstOverdrawn, MoreUrgent, NoneMoreUrgent, FreshThreads, Placed;
    IdleTurn(cfg, s, k);
    var t := Ticks(cfg, s, k);
    assert HasRoom(cfg, [[]]);
    OverdrawnTransfer(cfg, s, prios, p, head, x, tail);
    var q := Transfer(cfg, true, s.sched);
    NobodyPlaced(s);
    TwoPlaces(cfg);
    TransferPlaces(cfg, true, s.sched);
    IsLegal(prios, LevelCapacity(cfg), p);
    NoFreshThreads(p);
    FrontStartsLast(cfg, t.clock, q, [], p - MIN_PRIORITY);
    DispatchFrame(cfg, t.clock, q, [[]]);
  }

  lemma IsLegal(prios: multiset<int>, places: nat, p: int)
    requires FirstOverdrawn(prios, places, p)
    ensures LegalDraw(p)
  {
  }

  lemma TwoPlaces(cfg: Config)
    ensures LevelCapacity(cfg) >= 2
  {
  }

  lemma NoFreshThreads(p: int)
    ensures FreshThreads([], p, 0)
  {
  }

  lemma NobodyPlaced(s: Sys)
    requires Idle(s)
    ensures Placed(s.sched)
  {
  }

  // ------------------------------------------------------------------ the second and the third

  lemma FreshAgain(ts: seq<Thread>, us: seq<Thread>, p: int, c: int, d: int)
    requires FreshThreads(ts, p, c) && |us| == |ts|
    requires forall i :: 0 <= i < |ts| ==> us[i].pcb.quantumCounter == ts[i].pcb.quantumCounter + d
                                           && us[i].pcb.priority == ts[i].pcb.priority
    ensures FreshThreads(us, p, c + d)
  {
  }

  lemma ReversedFresh(ts: seq<Thread>, p: int, c: int)
    requires FreshThreads(ts, p, c)
    ensures forall t :: t in Reversed(ts) ==> t.pcb.priority <= p
  {
    forall t | t in Reversed(ts) ensures t.pcb.priority <= p {
      var i :| 0 <= i < |ts| && Reversed(ts)[i] == t;
      ReversedAt(ts, i);
    }
  }

  /** With every thread taken by nobody less urgent than `p` and no arrival more urgent, the routine is idle. */
  lemma PackedIdles(cfg: Config, t: Sys, kept: seq<Thread>, p: int, c: int)
    requires KeptCores(cfg, t.cores) == [kept] && FreshThreads(kept, p, c) && NoneMoreUrgent(t.sched.ready, p)
    ensures RoutineIdle(cfg, t)
  {
    OneCoreOrder(kept);
    ReversedFresh(kept, p, c);
  }

  ghost predicate Older(ts: seq<Thread>, us: seq<Thread>) {
    |us| == |ts| && forall i :: 0 <= i < |ts| ==>
      us[i].pcb.quantumCounter == ts[i].pcb.quantumCounter + 1 && us[i].pcb.priority == ts[i].pcb.priority
  }

  /** A turn on one core whose quantum is not over sweeps nobody out. */
  lemma NobodySwept(cfg: Config, s: Sys, p: int, k: nat)
    returns (kept: seq<Thread>)
    requires SysWf(cfg, s) && |s.cores| == 1 && FreshThreads(s.cores[0], p, 0) && Slice(cfg) == 2
    requires EachExecuting(Ticks(cfg, s, k).cores, Unfinished)
    ensures var t := Ticks(cfg, s, k);
            && t.sched == s.sched && t.clock == s.clock + k && t.lastTick == s.lastTick
            && KeptCores(cfg, t.cores) == [kept] && SweepQueues(cfg, t.clock, t.sched, Order(t.cores)) == s.sched
    ensures Older(s.cores[0], kept)
  {
    hide SweepQueues, Ticks, Order;
    OneCoreTicks(cfg, s, k);
    var t := Ticks(cfg, s, k);
    var ts := OneCoreSweep(cfg, s, k);
    forall i | 0 <= i < |ts| ensures Stays(cfg, ts[i]) {
      assert Unfinished(ts[i]);
    }
    EachReversed(ts, u => Stays(cfg, u));
    AllStay(cfg, t.clock, t.sched, ts);
    AllStay(cfg, t.clock, t.sched, Reversed(ts));
    kept := Kept(cfg, ts);
  }

  /** The second activation sweeps nobody out. */
  lemma PackedSweep(cfg: Config, s: Sys, p: int, n: int, k: nat)
    returns (kept: seq<Thread>)
    requires Packed(cfg, s, p, 0, n) && cfg.sync == ClockSync && cfg.quantum == 2 && k >= 1
    requires EachExecuting(Ticks(cfg, s, k).cores, Unfinished)
    ensures var t := Ticks(cfg, s, k);
            && Wakes(cfg, t) && t.sched == s.sched && t.clock >= s.clock && KeptCores(cfg, t.cores) == [kept]
            && SweepQueues(cfg, t.clock, t.sched, Order(t.cores)) == s.sched
    ensures |kept| == cfg.threads && FreshThreads(kept, p, 1) && kept[cfg.threads-1].pcb.priority == p
  {
    hide SweepQueues, Ticks, Order, LevelCapacity, Placed, KeptCores, EachExecuting;
    kept := NobodySwept(cfg, s, p, k);
    FreshAgain(s.cores[0], kept, p, 0, 1);
  }

  lemma PackedGoesOn(cfg: Config, s: Sys, p: int, k: nat)
    requires Packed(cfg, s, p, 0, LevelCapacity(cfg) - 1) && cfg.sync == ClockSync && cfg.quantum == 2 && k >= 1
    requires s.sched.ready != [] && s.sched.ready[0].priority == p && NoneMoreUrgent(s.sched.ready, p)
    requires EachExecuting(Ticks(cfg, s, k).cores, Unfinished)
    ensures RoutineIdle(cfg, Ticks(cfg, s, k)) && Packed(cfg, Turn(cfg, s, k), p, 1, LevelCapacity(cfg))
  {
    hide SweepQueues, Ticks, Order, Transfer, LevelCapacity, NoneMoreUrgent, RoutineIdle, KeptCores, Placed,
         FreshThreads, EachExecuting;
    var t := Ticks(cfg, s, k);
    var kept := PackedSweep(cfg, s, p, LevelCapacity(cfg) - 1, k);
    PackedIdles(cfg, t, kept, p, 1);
    assert !HasRoom(cfg, [kept]);
    LastPlaceTaken(cfg, false, s.sched);
    TransferPlaces(cfg, false, s.sched);
  }

  lemma {:induction false} AllGo(cfg: Config, ts: seq<Thread>)
    requires EachThread(ts, t => Leaves(cfg, t))
    ensures Kept(cfg, ts) == []
  {
    if ts != [] {
      AllGo(cfg, ts[..|ts|-1]);
      assert Leaves(cfg, ts[|ts|-1]);
    }
  }

  lemma {:induction false} SweepKeepsLevels(cfg: Config, clock: int, q: Sched, ts: seq<Thread>, l: nat)
    requires SchedWf(cfg, q) && l < |q.levels|
    ensures |SweepQueues(cfg, clock, q, ts).levels| == |q.levels|
    ensures |SweepQueues(cfg, clock, q, ts).levels[l]| >= |q.levels[l]|
  {
    if ts != [] {
      SweepKeepsLevels(cfg, clock, q, ts[..|ts|-1], l);
    }
  }

  /** A process whose quantum ends while its level is full is as if it had not been there. */
  lemma SweepDrops(cfg: Config, clock: int, q: Sched, a: seq<Thread>, t: Thread, b: seq<Thread>)
    requires SchedWf(cfg, q) && cfg.policy == PreemptivePrio && Leaves(cfg, t) && LegalDraw(t.pcb.priority)
    requires |q.levels[LevelOf(t.pcb)]| == LevelCapacity(cfg)
    ensures SweepQueues(cfg, clock, q, a + [t] + b) == SweepQueues(cfg, clock, q, a + b)
    ensures Kept(cfg, a + [t] + b) == Kept(cfg, a + b)
  {
    hide LevelCapacity;
    var q1 := SweepQueues(cfg, clock, q, a);
    SweepKeepsLevels(cfg, clock, q, a, LevelOf(t.pcb));
    assert Handle(cfg, clock, q1, t) == q1;
    assert [t][..0] == [] && SweepQueues(cfg, clock, q1, [t]) == q1;
    SweepQueuesAppend(cfg, clock, q, a, [t]);
    SweepQueuesAppend(cfg, clock, q, a + [t], b);
    SweepQueuesAppend(cfg, clock, q, a, b);
    KeptAppend(cfg, a, [t]);
    KeptAppend(cfg, a + [t], b);
    KeptAppend(cfg, a, b);
    assert Kept(cfg, [t]) == [] && Kept(cfg, a) + [] == Kept(cfg, a);
  }

  /** An activation that meets such a process loses it, at any load and on any topology. */
  lemma ActivationDrops(cfg: Config, s: Sys, i: nat)
    requires SysWf(cfg, s) && cfg.policy == PreemptivePrio && Wakes(cfg, s) && i < |Order(s.cores)|
    requires var t := Order(s.cores)[i];
             Leaves(cfg, t) && LegalDraw(t.pcb.priority) && |s.sched.levels[LevelOf(t.pcb)]| == LevelCapacity(cfg)
    ensures Live(Pid, Activate(cfg, s)) + multiset{Order(s.cores)[i].pcb.pid} <= Live(Pid, s)
  {
    hide SweepQueues, Kept, Transfer, Dispatch, Queued, ThreadTally, LevelCapacity;
    var ts, cores := Order(s.cores), KeptCores(cfg, s.cores);
    var a, t, b := ts[..i], ts[i], ts[i+1..];
    assert ts == a + [t] + b;
    SweepDrops(cfg, s.clock, s.sched, a, t, b);
    SweepNeverAdds(cfg, s.clock, s.sched, a + b);
    ThreadTallyInsert(Pid, a, t, b);
    OrderKept(cfg, s.cores);
    TransferKeepsAll(cfg, HasRoom(cfg, cores), SweepQueues(cfg, s.clock, s.sched, ts));
    DispatchMoves(cfg, s.clock, Pid, BeforeDispatch(cfg, s), cores, multiset{}, multiset{});
  }

  lemma PackedLoses(cfg: Config, s: Sys, p: int, k: nat)
    requires Packed(cfg, s, p, 1, LevelCapacity(cfg)) && cfg.sync == ClockSync && cfg.quantum == 2 && k >= 1
    requires EachExecuting(Ticks(cfg, s, k).cores, Unfinished)
    ensures RoutineIdle(cfg, Ticks(cfg, s, k))
    ensures |Live(Pid, Turn(cfg, s, k))| < |Live(Pid, s)|
  {
    hide SweepQueues, Ticks, Order, LevelCapacity, Live, Activate, Placed;
    OneCoreTicks(cfg, s, k);
    var t, last := Ticks(cfg, s, k), cfg.threads - 1;
    var ts := OneCoreSweep(cfg, s, k);
    forall i | 0 <= i < |ts| ensures Leaves(cfg, ts[i]) {
      assert Unfinished(ts[i]);
    }
    AllGo(cfg, ts);
    assert HasRoom(cfg, [[]]);
    ReversedAt(ts, 0);
    assert Order(t.cores)[0] == ts[last];
    ActivationDrops(cfg, t, 0);
    SubsetSize(Live(Pid, Turn(cfg, s, k)) + multiset{ts[last].pcb.pid}, Live(Pid, t));
    TicksConserve(cfg, s, k, Pid);
  }

  // ------------------------------------------------------------------ nobody has completed

  lemma {:induction false} SweepCompletesNobody(cfg: Config, clock: int, q: Sched, ts: seq<Thread>)
    requires SchedWf(cfg, q) && EachThread(ts, Unfinished)
    ensures SweepQueues(cfg, clock, q, ts).completed == q.completed
  {
    if ts != [] {
      SweepCompletesNobody(cfg, clock, q, ts[..|ts|-1]);
      assert Unfinished(ts[|ts|-1]);
    }
  }

  lemma {:induction false} TransferCompletesNobody(cfg: Config, room: bool, q: Sched)
    requires SchedWf(cfg, q) && cfg.policy == PreemptivePrio
    ensures Transfer(cfg, room, q).completed == q.completed
    decreases |q.ready|
  {
    if q.ready != [] {
      var rest := q.(ready := q.ready[1..], preempted := q.preempted || !room);
      match EnqueueTo(cfg, rest, q.ready[0])
      case Some(r) => TransferCompletesNobody(cfg, room, r);
      case None =>
    }
  }

  lemma TurnCompletesNobody(cfg: Config, s: Sys, k: nat)
    requires SysWf(cfg, s) && cfg.policy == PreemptivePrio && Placed(s.sched) && |s.cores| == 1
    requires EachExecuting(Ticks(cfg, s, k).cores, Unfinished)
    ensures Turn(cfg, s, k).sched.completed == s.sched.completed
    ensures Live(Pid, Turn(cfg, s, k)) <= Live(Pid, s)
  {
    hide SweepQueues, Ticks, Transfer, Dispatch, Order, KeptCores, Placed, Live;
    OneCoreTicks(cfg, s, k);
    var t := Ticks(cfg, s, k);
    TicksConserve(cfg, s, k, Pid);
    ActivateNeverAdds(cfg, t);
    if Wakes(cfg, t) {
      SweepCompletesNobody(cfg, t.clock, t.sched, Order(t.cores));
      TransferCompletesNobody(cfg, HasRoom(cfg, KeptCores(cfg, t.cores)),
                              SweepQueues(cfg, t.clock, t.sched, Order(t.cores)));
      BeforeDispatchPlaces(cfg, t);
      DispatchFrame(cfg, t.clock, BeforeDispatch(cfg, t), KeptCores(cfg, t.cores));
    }
  }

  // ------------------------------------------------------------------ the loss

  /** In none of these turns does the preemption routine change anything. */
  ghost predicate IdleThroughout(cfg: Config, s: Sys, ks: seq<nat>)
    requires SysWf(cfg, s)
  {
    forall i :: 0 <= i < |ks| ==> RoutineIdle(cfg, Ticks(cfg, Turns(cfg, s, ks[..i]), ks[i]))
  }

  /** `r` has fewer processes than `s`, and none has completed. */
  ghost predicate Fewer(s: Sys, r: Sys) {
    |Live(Pid, r)| < |Live(Pid, s)| && r.sched.completed == s.sched.completed == 0
  }

  lemma ThreeTurns(cfg: Config, s: Sys, ks: seq<nat>)
    requires SysWf(cfg, s) && |ks| == 3 && Undisturbed(cfg, s, ks, 3)
    ensures var r1 := Turn(cfg, s, ks[0]); var r2 := Turn(cfg, r1, ks[1]);
            && Turns(cfg, s, ks) == Turn(cfg, r2, ks[2])
            && EachExecuting(Ticks(cfg, s, ks[0]).cores, Unfinished)
            && EachExecuting(Ticks(cfg, r1, ks[1]).cores, Unfinished)
            && EachExecuting(Ticks(cfg, r2, ks[2]).cores, Unfinished)
    ensures var r1 := Turn(cfg, s, ks[0]); var r2 := Turn(cfg, r1, ks[1]);
            var a, b, c := Ticks(cfg, s, ks[0]), Ticks(cfg, r1, ks[1]), Ticks(cfg, r2, ks[2]);
            RoutineIdle(cfg, a) && RoutineIdle(cfg, b) && RoutineIdle(cfg, c) ==> IdleThroughout(cfg, s, ks)
  {
    hide Turn, Ticks, EachExecuting, Undisturbed, RoutineIdle, SysWf;
    LastTurn(cfg, s, ks, 3);
    LastTurn(cfg, s, ks, 2);
    LastTurn(cfg, s, ks, 1);
    assert ks[..3] == ks && Turns(cfg, s, ks[..0]) == s;
  }

  /** A load that overdraws a priority, in such an order: within three turns a process is lost, and the
      preemption routine has changed nothing. */
  lemma OverdrawnLoses(cfg: Config, s: Sys, prios: multiset<int>, p: int, head: seq<int>, x: int, tail: seq<int>,
                       ks: seq<nat>)
    requires SysWf(cfg, s) && Overdrawing(cfg, s, prios, p, head, x, tail)
    requires Ticking(ks) && |ks| == 3 && Undisturbed(cfg, s, ks, 3)
    ensures Fewer(s, Turns(cfg, s, ks)) && IdleThroughout(cfg, s, ks)
  {
    hide Turn, Turns, Ticks, EachExecuting, Undisturbed, RoutineIdle, IdleThroughout, Live, LevelCapacity, Overdraws,
         FirstOverdrawn, MoreUrgent, Keys, NoneMoreUrgent, FreshThreads, Placed, SysWf;
    ThreeTurns(cfg, s, ks);
    var r1 := Turn(cfg, s, ks[0]);
    var r2 := Turn(cfg, r1, ks[1]);
    OverdrawnStarts(cfg, s, prios, p, head, x, tail, ks[0]);
    PackedGoesOn(cfg, r1, p, ks[1]);
    PackedLoses(cfg, r2, p, ks[2]);
    NobodyPlaced(s);
    TurnCompletesNobody(cfg, s, ks[0]);
    TurnCompletesNobody(cfg, r1, ks[1]);
    TurnCompletesNobody(cfg, r2, ks[2]);
    SubsetSize(Live(Pid, r1), Live(Pid, s));
    SubsetSize(Live(Pid, r2), Live(Pid, r1));
  }

  // ------------------------------------------------------------------ which draws are safe

  /** Processes of the priorities `prios`, in some order, that start-up delivers with a ready queue of
      `cap` places. */
  ghost predicate TallyLoad(cfg: Config, s: Sys, cap: nat, prios: multiset<int>) {
    && SysWf(cfg, s) && Delivered(cfg, s) && cfg.policy == PreemptivePrio && cfg.readyCapacity == cap
    && Tally(Priority, s.sched.ready) == prios
  }

  lemma NewcomersKeys(xs: seq<int>)
    ensures Keys(Priority, Newcomers(xs)) == xs
  {
  }

  lemma TextTally(cfg: Config, xs: seq<int>)
    requires cfg.policy == PreemptivePrio && |xs| <= cfg.readyCapacity
    ensures var s := TextOnly(cfg, xs);
            && TallyLoad(cfg, s, cfg.readyCapacity, multiset(xs)) && Accepted(cfg, s) && s.cores == [[]]
            && Keys(Priority, s.sched.ready) == xs
  {
    hide Delivered, AllGoing, BlankMemory, Accepted, Keys, Newcomers;
    TextOnlyIsDelivered(cfg, xs);
    DeliveredIsAccepted(cfg, TextOnly(cfg, xs));
    NewcomersKeys(xs);
  }

  /** A priority drawn more often than its level has places: some order of arrival on some machine loses
      a process, without the preemption routine having changed anything. */
  lemma OverdrawnIsLost(cap: nat, prios: multiset<int>, y: int)
    returns (cfg: Config, s: Sys, ks: seq<nat>)
    requires |prios| <= cap && AllLegal(prios) && prios[y] > LevelCapacity(Queueing(cap, 1))
    ensures TallyLoad(cfg, s, cap, prios) && Ticking(ks)
    ensures Fewer(s, Turns(cfg, s, ks)) && IdleThroughout(cfg, s, ks)
  {
    hide TextOnly, Overdraws, FirstOverdrawn, MoreUrgent, AllLegal, Turns, Live, Undisturbed, IdleThroughout, EachTick,
         Delivered, Accepted, Keys, Fewer;
    var places := LevelCapacity(Queueing(cap, 1));
    var p := FindOverdrawn(prios, places, y);
    var head, x, tail := OrderOverdrawn(prios, places, p);
    var xs := head + [x] + tail;
    DrawnInOrder(prios, places, p, head, x, tail);
    cfg, ks := Queueing(cap, |MoreUrgent(prios, p)| + 1), EachTick(3);
    s := TextOnly(cfg, xs);
    assert |multiset(xs)| == |xs|;
    TextTally(cfg, xs);
    NothingDisturbs(cfg, xs, 3);
    OverdrawnLoses(cfg, s, prios, p, head, x, tail, ks);
  }

  lemma HoldingFits(cfg: Config, s: Sys, prios: multiset<int>)
    requires SysWf(cfg, s) && Accepted(cfg, s) && cfg.policy == PreemptivePrio
    requires Tally(Priority, s.sched.ready) == prios && LevelsHold(cfg, prios)
    ensures Loaded(cfg, s)
  {
    hide Tally, LevelCapacity;
    EverybodyQueued(cfg, s);
  }

  lemma FewerIsUnsafe(cfg: Config, s: Sys, ks: seq<nat>)
    requires SysWf(cfg, s) && Fewer(s, Turns(cfg, s, ks))
    ensures !SafeInEveryRun(cfg, s)
  {
    hide Live, Turns, SafeInEveryRun;
    LossIsUnsafe(cfg, s, ks);
  }

  /** For every capacity and every draw of legal priorities: all loads of these priorities, in whatever
      order of arrival and on whatever machine, lose nobody in any run if and only if no level is
      overdrawn. */
  lemma PrioritiesSafeIff(cap: nat, prios: multiset<int>)
    requires |prios| <= cap && AllLegal(prios)
    ensures (forall cfg: Config, s: Sys :: TallyLoad(cfg, s, cap, prios) ==> SafeInEveryRun(cfg, s))
            <==> LevelsHold(Queueing(cap, 1), prios)
  {
    hide Delivered, SafeInEveryRun, Live, Tally, Fewer, Turns, IdleThroughout;
    if LevelsHold(Queueing(cap, 1), prios) {
      forall cfg: Config, s: Sys | TallyLoad(cfg, s, cap, prios) ensures SafeInEveryRun(cfg, s) {
        DeliveredIsAccepted(cfg, s);
        HoldingFits(cfg, s, prios);
        FittingIsSafe(cfg, s);
      }
    } else {
      var y :| y in prios && prios[y] > LevelCapacity(Queueing(cap, 1));
      var cfg, s, ks := OverdrawnIsLost(cap, prios, y);
      FewerIsUnsafe(cfg, s, ks);
    }
  }

  /** The same in numbers: no priority is drawn more often than a fortieth of the ready queue's places,
      two at the least. */
  lemma PrioritiesSafeInPlaces(cap: nat, prios: multiset<int>, places: nat)
    requires |prios| <= cap && AllLegal(prios) && IsLevelSize(cap, places)
    ensures (forall cfg: Config, s: Sys :: TallyLoad(cfg, s, cap, prios) ==> SafeInEveryRun(cfg, s))
            <==> forall x :: x in prios ==> prios[x] <= places
  {
    hide TallyLoad, SafeInEveryRun, LevelCapacity;
    PrioritiesSafeIff(cap, prios);
    LevelPlaces(Queueing(cap, 1));
    assert places == LevelCapacity(Queueing(cap, 1));
  }

  lemma AllOfKeys(ps: seq<PCB>, x: int)
    requires forall i :: 0 <= i < |ps| ==> ps[i].priority == x
    ensures Keys(Priority, ps) == AllOf(x, |ps|)
  {
  }

  lemma OnePriority(cfg: Config, s: Sys, cap: nat, x: int, n: nat)
    ensures LevelLoad(cfg, s, cap, x, n) <==> TallyLoad(cfg, s, cap, multiset(AllOf(x, n)))
  {
    hide Delivered, SysWf;
    var ks := Keys(Priority, s.sched.ready);
    if LevelLoad(cfg, s, cap, x, n) {
      AllOfKeys(s.sched.ready, x);
    } else if TallyLoad(cfg, s, cap, multiset(AllOf(x, n))) {
      assert |ks| == |multiset(ks)| == n;
      forall i | 0 <= i < n ensures s.sched.ready[i].priority == x {
        assert ks[i] in multiset(ks);
        AllOfTally(x, n, ks[i]);
      }
      assert false;
    }
  }

  /** In particular a load of one priority is safe if and only if its level holds it. */
  lemma LevelSafeIff(cap: nat, x: int, n: nat)
    requires n <= cap && MIN_PRIORITY <= x <= MAX_PRIORITY
    ensures (forall cfg: Config, s: Sys :: LevelLoad(cfg, s, cap, x, n) ==> SafeInEveryRun(cfg, s))
            <==> n <= LevelCapacity(Queueing(cap, 1))
  {
    hide LevelLoad, TallyLoad, SafeInEveryRun, SysWf, AllOf, LevelCapacity;
    var prios := multiset(AllOf(x, n));
    forall y: int ensures prios[y] == if y == x then n else 0 {
      AllOfTally(x, n, y);
    }
    assert |prios| == n;
    forall cfg: Config, s: Sys ensures LevelLoad(cfg, s, cap, x, n) <==> TallyLoad(cfg, s, cap, prios) {
      OnePriority(cfg, s, cap, x, n);
    }
    LoadsAreWf(cap, x, n);
    PrioritiesSafeIff(cap, prios);
  }

  lemma LoadsAreWf(cap: nat, x: int, n: nat)
    ensures forall cfg: Config, s: Sys :: LevelLoad(cfg, s, cap, x, n) ==> SysWf(cfg, s)
    ensures forall cfg: Config, s: Sys, prios: multiset<int> :: TallyLoad(cfg, s, cap, prios) ==> SysWf(cfg, s)
  {
  }
}
