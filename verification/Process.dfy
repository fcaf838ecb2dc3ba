/** Process control blocks and the circular process queue (sys/process.c:13-136, 348-391). */
module Process {
  import opened CArith

  const MIN_PRIORITY := -20
  const MAX_PRIORITY := 19
  const NUM_PRIORITY_LEVELS: nat := 40

  datatype State = Running | Waiting | Terminated

  /** 16 general purpose registers. */
  type Registers = r: seq<u32> | |r| == 16 witness ZERO_REGISTERS

  const ZERO_REGISTERS: seq<u32> := [0, 0, 0, 0, 0, 0, 0, 0, 0, 0, 0, 0, 0, 0, 0, 0]

  datatype Context = Context(pc: u32, ir: u32, regs: Registers)

  const ZERO_CONTEXT := Context(0, 0, ZERO_REGISTERS)

  /** `pgb` is the kernel word of the page table, or None for a null pointer. */
  datatype PCB = PCB(pid: int, state: State, priority: int, ttl: int, initialTtl: int,
                     quantumCounter: int, deadline: int, pgb: Option<nat>, context: Context)

  function CreatePcb(pid: int): PCB {
    PCB(pid, Waiting, 0, 0, 0, 0, 0, None, ZERO_CONTEXT)
  }

  /** `decrement_pcb_ttl`: the counter never goes below where it started or zero. */
  function DecrementTtl(p: PCB): PCB {
    if p.ttl > 0 then p.(ttl := p.ttl - 1) else p
  }

  // ------------------------------------------------------------------ the minimum scan

  /** The BFS scan as written: `-1` stands for "nothing selected yet". */
  function Scan(q: seq<PCB>): (r: (int, int))
    ensures -1 <= r.1 < |q| && (q == [] <==> r.1 == -1)
    ensures r.1 >= 0 ==> r.0 == q[r.1].deadline
    ensures r.1 == -1 ==> r.0 == -1
  {
    if q == [] then (-1, -1)
    else
      var n := |q| - 1;
      var (d, i) := Scan(q[..n]);
      if d == -1 || q[n].deadline < d then (q[n].deadline, n) else (d, i)
  }

  lemma ScanNothing()
    ensures Scan([]) == (-1, -1)
  {
  }

  lemma ScanNext(q: seq<PCB>, i: nat)
    requires i < |q|
    ensures var (d, m) := Scan(q[..i]);
            Scan(q[..i+1]) == if d == -1 || q[i].deadline < d then (q[i].deadline, i) else (d, m)
  {
    assert q[..i+1][..i] == q[..i];
  }

  /** `i` is the earliest entry of least deadline. */
  ghost predicate IsFirstMinimum(q: seq<PCB>, i: int) {
    && 0 <= i < |q|
    && (forall j :: 0 <= j < |q| ==> q[i].deadline <= q[j].deadline)
    && (forall j :: 0 <= j < i ==> q[i].deadline < q[j].deadline)
  }

  /** A deadline of -1 sits before the last entry and nothing is below it. */
  ghost predicate SentinelClash(q: seq<PCB>) {
    && (exists i :: 0 <= i < |q| - 1 && q[i].deadline == -1)
    && (forall i :: 0 <= i < |q| ==> q[i].deadline >= -1)
  }

  lemma {:induction false} ScanNeverReturns(q: seq<PCB>, k: nat)
    requires k <= |q|
    ensures Scan(q[..k]).1 <= Scan(q).1
  {
    if k < |q| {
      assert q[..|q|-1][..k] == q[..k];
      ScanNeverReturns(q[..|q|-1], k);
    } else {
      assert q[..k] == q;
    }
  }

  lemma {:induction false} ScanFindsFirstMinimum(q: seq<PCB>)
    requires q != [] && !SentinelClash(q)
    ensures IsFirstMinimum(q, Scan(q).1)
  {
    var n := |q| - 1;
    if n > 0 {
      if SentinelClash(q[..n]) {
        assert q[n].deadline < -1;
      } else {
        ScanFindsFirstMinimum(q[..n]);
        assert q[..n][Scan(q[..n]).1] == q[Scan(q[..n]).1];
      }
    }
  }

  /** Past a -1 that nothing undercuts, the scan moves on to the next entry. */
  lemma ScanSkipsSentinel(q: seq<PCB>, m: nat)
    requires m + 1 < |q| && q[m].deadline == -1
    requires forall j :: 0 <= j < |q| ==> q[j].deadline >= -1
    ensures Scan(q).1 > m
  {
    assert q[..m+1][..m] == q[..m] && q[..m+2][..m+1] == q[..m+1];
    assert Scan(q[..m+1]) == (-1, m);
    ScanNeverReturns(q, m + 2);
  }

  /** The sentinel scan returns the first minimum exactly when no -1 is overwritten. */
  lemma ScanIsSound(q: seq<PCB>)
    requires q != []
    ensures IsFirstMinimum(q, Scan(q).1) <==> !SentinelClash(q)
  {
    if SentinelClash(q) {
      var m :| 0 <= m < |q| - 1 && q[m].deadline == -1;
      ScanSkipsSentinel(q, m);
    } else {
      ScanFindsFirstMinimum(q);
    }
  }

  /** A deadline of -1 ahead of one of 3: the scan chooses the later deadline. */
  lemma SentinelMisleads(p: PCB, r: PCB)
    requires p.deadline == -1 && r.deadline == 3
    ensures Scan([p, r]) == (3, 1) && !IsFirstMinimum([p, r], 1)
  {
    assert [p, r][..1] == [p] && [p][..0] == [];
    assert Scan([p]) == (-1, 0);
  }

  // ------------------------------------------------------------------ removal by shifting

  function RemoveAt<T>(q: seq<T>, m: nat): seq<T>
    requires m < |q|
  {
    q[..m] + q[m+1..]
  }

  /** What the shift loop leaves in a ring of `cap` slots: it always makes |q| - 1 moves from
      offset `m`, so past the ring's end it keeps moving live entries at the front. */
  function ShiftOut<T>(q: seq<T>, m: nat, cap: nat): (r: seq<T>)
    requires m < |q| <= cap
    ensures |r| == |q| - 1
  {
    seq(|q| - 1, o requires 0 <= o < |q| - 1 =>
          if m + |q| - 2 - cap < o < m then q[o] else q[o + 1])
  }

  predicate ShiftFits(n: nat, m: nat, cap: nat) {
    m + n <= cap + 1
  }

  /** Within the bound the shift is a removal that keeps the order of the rest. */
  lemma ShiftOutRemoves<T>(q: seq<T>, m: nat, cap: nat)
    requires m < |q| <= cap && ShiftFits(|q|, m, cap)
    ensures ShiftOut(q, m, cap) == RemoveAt(q, m)
  {
  }

  /** Offset of the entry that the moves past the ring's end leave doubled. */
  function Doubled(n: nat, m: nat, cap: nat): nat
    requires m < n <= cap && !ShiftFits(n, m, cap)
  {
    m + n - 1 - cap
  }

  /** Beyond the bound the shift takes out the front entry as well as the chosen one and leaves a
      second copy of another; the others keep their order. */
  lemma ShiftOutLoses<T>(q: seq<T>, m: nat, cap: nat)
    requires m < |q| <= cap && !ShiftFits(|q|, m, cap)
    ensures var l := Doubled(|q|, m, cap);
            && 0 < l < m
            && ShiftOut(q, m, cap) == q[1..l+1] + q[l..m] + q[m+1..]
            && multiset(ShiftOut(q, m, cap)) + multiset{q[0], q[m]} == multiset(q) + multiset{q[l]}
  {
    var l := Doubled(|q|, m, cap);
    assert q[l..m] == [q[l]] + q[l+1..m];
    assert q == [q[0]] + q[1..l+1] + q[l+1..m] + [q[m]] + q[m+1..];
  }

  /** For distinct entries the bound is exact: the shift is the removal within it, and beyond it the
      front entry is gone. */
  lemma ShiftOutExact<T>(q: seq<T>, m: nat, cap: nat)
    requires m < |q| <= cap
    requires forall i, j :: 0 <= i < j < |q| ==> q[i] != q[j]
    ensures ShiftOut(q, m, cap) == RemoveAt(q, m) <==> ShiftFits(|q|, m, cap)
    ensures !ShiftFits(|q|, m, cap) ==> q[0] !in ShiftOut(q, m, cap)
  {
    if ShiftFits(|q|, m, cap) {
      ShiftOutRemoves(q, m, cap);
    } else {
      assert ShiftOut(q, m, cap)[0] == q[1] && RemoveAt(q, m)[0] == q[0];
    }
  }

  /** A full ring of three whose last entry is chosen: the front entry is lost, the next one doubled. */
  lemma FullRingLoses<T>(a: T, b: T, c: T)
    ensures ShiftOut([a, b, c], 2, 3) == [b, b]
  {
    ShiftOutLoses([a, b, c], 2, 3);
  }

  /** The bound holds for every possible choice exactly when the ring is at most half full, plus one. */
  lemma ShiftAlwaysFits(n: nat, cap: nat)
    requires 1 <= n
    ensures (forall m: nat :: m < n ==> ShiftFits(n, m, cap)) <==> n <= cap / 2 + 1
  {
    if forall m: nat :: m < n ==> ShiftFits(n, m, cap) {
      assert ShiftFits(n, n - 1, cap);
    }
  }

  // ------------------------------------------------------------------ the ring

  lemma ModOnce(a: nat, cap: nat)
    requires 0 < cap && a < 2 * cap
    ensures a % cap == if a < cap then a else a - cap
  {
    if a >= cap {
      assert a == cap * 1 + (a - cap);
    }
  }

  /** Ring slot after `p`. */
  function NextSlot(cap: nat, p: nat): nat {
    if p + 1 < cap then p + 1 else 0
  }

  /** Ring slot `o` places behind `front`. */
  function Slot(cap: nat, front: nat, o: nat): (p: nat)
    requires front < cap && o <= cap
    ensures o < cap ==> p < cap
  {
    if front + o < cap then front + o else front + o - cap
  }

  lemma {:induction false} RearBack(cap: nat, front: nat, rear: nat, n: nat)
    requires front < cap && rear < cap && 0 < n <= cap
    requires NextSlot(cap, rear) == Slot(cap, front, n)
    ensures var r := (rear - 1 + cap) % cap;
            0 <= r < cap && NextSlot(cap, r) == Slot(cap, front, n - 1)
  {
    ModOnce(rear - 1 + cap, cap);
  }

  /** The `n` entries of ring `a` from `front` on. */
  function Ring<T>(a: seq<T>, front: nat, n: nat): (s: seq<T>)
    requires front < |a| && n <= |a|
    ensures |s| == n
    ensures forall o :: 0 <= o < n ==> s[o] == a[Slot(|a|, front, o)]
  {
    if front + n <= |a| then a[front..front + n] else a[front..] + a[..front + n - |a|]
  }

  /** Slot `p` is overwritten by its successor within `i` moves from offset `m`. */
  predicate Moved(cap: nat, front: nat, m: nat, i: nat, p: nat)
    requires front < cap
  {
    var o := if p >= front then p - front else p + cap - front;
    m <= o < m + i || o < m + i - cap
  }

  /** Ring `a` after `i` moves from offset `m`. */
  function Shifted<T>(a: seq<T>, front: nat, m: nat, i: nat): (s: seq<T>)
    requires front < |a|
    ensures |s| == |a|
  {
    seq(|a|, p requires 0 <= p < |a| =>
          if Moved(|a|, front, m, i, p) then a[NextSlot(|a|, p)] else a[p])
  }

  /** Slot the move number `i` writes. */
  function Cursor(cap: nat, front: nat, m: nat, i: nat): (p: nat)
    requires front < cap && m < cap && i < cap
    ensures p < cap
  {
    Slot(cap, front, if m + i < cap then m + i else m + i - cap)
  }

  lemma ShiftedStep<T>(a: seq<T>, front: nat, m: nat, i: nat)
    requires front < |a| && m < |a| && i + 1 < |a|
    ensures var p := Cursor(|a|, front, m, i);
            var s := Shifted(a, front, m, i);
            && NextSlot(|a|, p) == Cursor(|a|, front, m, i + 1)
            && s[p := s[NextSlot(|a|, p)]] == Shifted(a, front, m, i + 1)
  {
    var p := Cursor(|a|, front, m, i);
    assert !Moved(|a|, front, m, i, NextSlot(|a|, p));
    forall k | 0 <= k < |a| && k != p
      ensures Moved(|a|, front, m, i, k) <==> Moved(|a|, front, m, i + 1, k)
    {
    }
  }

  lemma ShiftedStart<T>(a: seq<T>, front: nat, m: nat)
    requires front < |a| && m < |a|
    ensures Shifted(a, front, m, 0) == a
  {
  }

  /** All moves done: read from the front, the ring is `ShiftOut` of what it was. */
  lemma ShiftedIsShiftOut<T>(a: seq<T>, front: nat, m: nat, n: nat)
    requires front < |a| && m < n <= |a|
    ensures Ring(Shifted(a, front, m, n - 1), front, n - 1) == ShiftOut(Ring(a, front, n), m, |a|)
  {
    forall o | 0 <= o < n - 1
      ensures Ring(Shifted(a, front, m, n - 1), front, n - 1)[o] == ShiftOut(Ring(a, front, n), m, |a|)[o]
    {
      assert NextSlot(|a|, Slot(|a|, front, o)) == Slot(|a|, front, o + 1);
    }
  }

  class ProcessQueue {
    const queue: array<PCB>
    const maxCapacity: nat
    var front: nat
    var rear: int
    var currentSize: nat

    ghost predicate Valid()
      reads this, queue
    {
      && 1 <= maxCapacity == queue.Length
      && front < maxCapacity && currentSize <= maxCapacity
      && (|| (rear == -1 && front == 0 && currentSize == 0)
          || (0 <= rear < maxCapacity && NextSlot(maxCapacity, rear) == Slot(maxCapacity, front, currentSize)
              ))
    }

    /** The waiting processes, front first. */
    ghost function Contents(): (s: seq<PCB>)
      requires Valid()
      reads this, queue
      ensures |s| == currentSize
    {
      Ring(queue[..], front, currentSize)
    }

    constructor (capacity: nat)
      requires capacity >= 1
      ensures Valid() && Contents() == [] && maxCapacity == capacity && fresh(queue)
    {
      queue := new PCB[capacity](_ => CreatePcb(0));
      maxCapacity := capacity;
      front, rear, currentSize := 0, -1, 0;
    }

    /** Appends at the rear; a full queue refuses. */
    method Enqueue(p: PCB) returns (ok: bool)
      requires Valid()
      modifies this`rear, this`currentSize, queue
      ensures Valid()
      ensures ok <==> |old(Contents())| < maxCapacity
      ensures Contents() == if ok then old(Contents()) + [p] else old(Contents())
    {
      if currentSize >= maxCapacity {
        return false;
      }
      ModOnce(rear + 1, maxCapacity);
      rear := (rear + 1) % maxCapacity;
      queue[rear] := p;
      currentSize := currentSize + 1;
      return true;
    }

    /** Removes the front; an empty queue yields None. */
    method Dequeue() returns (r: Option<PCB>)
      requires Valid()
      modifies this`front, this`currentSize
      ensures Valid()
      ensures old(Contents()) == [] ==> r == None && Contents() == []
      ensures old(Contents()) != [] ==>
                r == Some(old(Contents())[0]) && Contents() == old(Contents())[1..]
    {
      if currentSize == 0 {
        return None;
      }
      r := Some(queue[front]);
      ModOnce(front + 1, maxCapacity);
      front := (front + 1) % maxCapacity;
      currentSize := currentSize - 1;
    }

    /** The scan of BFS: offset and slot of the chosen entry. */
    method FindMinDeadline() returns (offset: nat, slot: nat)
      requires Valid() && currentSize > 0
      ensures offset == Scan(Contents()).1 && slot == Slot(maxCapacity, front, offset)
    {
      hide Scan;
      ScanNothing();
      var minDeadline, minOffset, minSlot, idx := -1, -1, 0, front;
      for i := 0 to currentSize
        invariant i < maxCapacity ==> idx == Slot(maxCapacity, front, i)
        invariant (minDeadline, minOffset) == Scan(Contents()[..i])
        invariant minOffset >= 0 ==> minSlot == Slot(maxCapacity, front, minOffset)
      {
        ScanNext(Contents(), i);
        if minDeadline == -1 || queue[idx].deadline < minDeadline {
          minDeadline, minOffset, minSlot := queue[idx].deadline, i, idx;
        }
        ModOnce(idx + 1, maxCapacity);
        idx := (idx + 1) % maxCapacity;
      }
      assert Contents()[..currentSize] == Contents();
      return minOffset, minSlot;
    }

    /** The shift loop: size - 1 moves starting at the chosen slot, round the ring's end if need be. */
    method CloseGap(ghost m: nat, slot: nat)
      requires Valid() && m < currentSize && slot == Slot(maxCapacity, front, m)
      modifies queue
      ensures queue[..] == Shifted(old(queue[..]), front, m, currentSize - 1)
    {
      var idx := slot;
      ShiftedStart(queue[..], front, m);
      for i := 0 to currentSize - 1
        invariant idx == Cursor(maxCapacity, front, m, i)
        invariant queue[..] == Shifted(old(queue[..]), front, m, i)
      {
        ShiftedStep(old(queue[..]), front, m, i);
        ModOnce(idx + 1, maxCapacity);
        var next := (idx + 1) % maxCapacity;
        queue[idx] := queue[next];
        idx := next;
      }
    }

    method DropLast()
      requires Valid() && currentSize > 0
      modifies this`rear, this`currentSize
      ensures Valid() && currentSize == old(currentSize) - 1
    {
      RearBack(maxCapacity, front, rear, currentSize);
      currentSize := currentSize - 1;
      rear := (rear - 1 + maxCapacity) % maxCapacity;
    }

    /** Takes out the entry the BFS scan chooses and closes the gap slot by slot. */
    method RemoveMinDeadline() returns (r: Option<PCB>)
      requires Valid()
      modifies this`rear, this`currentSize, queue
      ensures Valid()
      ensures old(Contents()) == [] ==> r == None && Contents() == []
      ensures old(Contents()) != [] ==>
                var m := Scan(old(Contents())).1;
                && r == Some(old(Contents())[m])
                && Contents() == ShiftOut(old(Contents()), m, maxCapacity)
    {
      if currentSize == 0 {
        return None;
      }
      var m, idx := FindMinDeadline();
      r := Some(queue[idx]);
      CloseGap(m, idx);
      ShiftedIsShiftOut(old(queue[..]), front, m, currentSize);
      DropLast();
    }
  }
}
