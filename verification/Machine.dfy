/** Hardware threads, cores and the four-opcode processor (sys/machine.c), and one hardware
    thread's share of a clock tick (sys/clock.c:48-71). */
module Machine {
  import opened CArith
  import opened Memory
  import opened Process

  // ------------------------------------------------------------------ decoding

  const OP_LD: nat := 0x0
  const OP_ST: nat := 0x1
  const OP_ADD: nat := 0x2
  const OP_EXIT: nat := 0xF

  function Opcode(w: u32): nat { w / 0x1000_0000 % 16 }

  function Reg(w: u32): (r: nat)
    ensures r < 16
  {
    w / 0x100_0000 % 16
  }

  function Address(w: u32): u32 { w % 0x100_0000 }

  function RegSrc1(w: u32): (r: nat)
    ensures r < 16
  {
    w / 0x10_0000 % 16
  }

  function RegSrc2(w: u32): (r: nat)
    ensures r < 16
  {
    w / 0x1_0000 % 16
  }

  // ------------------------------------------------------------------ execution

  datatype Status = Continue | Exited | BadOpcode

  /** What one instruction does: new registers, at most one store, and whether it stops. */
  datatype Outcome = Outcome(ctx: Context, store: Option<(u32, u32)>, status: Status)

  function Advance(c: Context): Context {
    c.(pc := Wrap(c.pc + 4))
  }

  /** Instruction `w` in context `c`; `operand` is the word at its address, used by LD only.
      The signed sum of ADD wraps as in two's complement. */
  function Execute(c: Context, w: u32, operand: u32): Outcome {
    var f := c.(ir := w);
    if Opcode(w) == OP_LD then
      Outcome(Advance(f.(regs := f.regs[Reg(w) := operand])), None, Continue)
    else if Opcode(w) == OP_ST then
      Outcome(Advance(f), Some((Address(w), f.regs[Reg(w)])), Continue)
    else if Opcode(w) == OP_ADD then
      var sum := Wrap(ToSigned(f.regs[RegSrc1(w)]) + ToSigned(f.regs[RegSrc2(w)]));
      Outcome(Advance(f.(regs := f.regs[Reg(w) := sum])), None, Continue)
    else if Opcode(w) == OP_EXIT then
      Outcome(f, None, Exited)
    else
      Outcome(f, None, BadOpcode)
  }

  /** A process on a hardware thread: its PCB and the live registers. */
  datatype Thread = Thread(pcb: PCB, ctx: Context)

  function Halt(p: PCB, s: Status): PCB {
    match s
    case Continue => p
    case Exited => p.(state := Terminated, ttl := 0)
    case BadOpcode => p.(state := Terminated)
  }

  /** Fetch, decode, execute. A terminated process and a null page table are skipped. */
  function Cycle(t: Thread, m: Mem): (r: (Thread, Mem))
    requires Shaped(m)
    ensures Shaped(r.1)
  {
    if t.pcb.state == Terminated || t.pcb.pgb.None? then (t, m)
    else
      var base := t.pcb.pgb.value;
      var w := MmuRead(m, base, t.ctx.pc);
      var operand := if Opcode(w) == OP_LD then MmuRead(m, base, Address(w)) else 0;
      var o := Execute(t.ctx, w, operand);
      (Thread(Halt(t.pcb, o.status), o.ctx),
       if o.store.Some? then MmuWrite(m, base, o.store.value.0, o.store.value.1) else m)
  }

  /** The clock's treatment of one occupied hardware thread. */
  function TickThread(t: Thread, m: Mem): (r: (Thread, Mem))
    requires Shaped(m)
    ensures Shaped(r.1)
  {
    Cycle(t.(pcb := DecrementTtl(t.pcb)), m)
  }

  function TickThreads(ts: seq<Thread>, m: Mem): (r: (seq<Thread>, Mem))
    requires Shaped(m)
    ensures Shaped(r.1) && |r.0| == |ts|
  {
    if ts == [] then ([], m)
    else
      var n := |ts| - 1;
      var before := TickThreads(ts[..n], m);
      var last := TickThread(ts[n], before.1);
      (before.0 + [last.0], last.1)
  }

  // ------------------------------------------------------------------ cores

  /** One slot of a core; `pcb` is None when it is idle. */
  datatype HardwareThread = HardwareThread(pc: u32, ir: u32, ptbr: Option<nat>, regs: Registers,
                                           pcb: Option<PCB>)

  const IDLE_THREAD := HardwareThread(0, 0, None, ZERO_REGISTERS, None)

  predicate Occupied(h: HardwareThread) {
    h.pcb.Some? && h.ptbr == h.pcb.value.pgb
  }

  predicate Vacant(h: HardwareThread) {
    h.pcb.None? && h.ptbr.None?
  }

  function Occupant(h: HardwareThread): Thread
    requires h.pcb.Some?
  {
    Thread(h.pcb.value, Context(h.pc, h.ir, h.regs))
  }

  function Occupants(hs: seq<HardwareThread>): (ts: seq<Thread>)
    requires forall k :: 0 <= k < |hs| ==> hs[k].pcb.Some?
    ensures |ts| == |hs| && forall k :: 0 <= k < |hs| ==> ts[k] == Occupant(hs[k])
  {
    seq(|hs|, k requires 0 <= k < |hs| && hs[k].pcb.Some? => Occupant(hs[k]))
  }

  /** Slots `k..l` moved down by one. */
  function Slid(hs: seq<HardwareThread>, k: nat, l: nat): (s: seq<HardwareThread>)
    requires k <= l < |hs|
    ensures |s| == |hs|
  {
    seq(|hs|, i requires 0 <= i < |hs| => if k <= i < l then hs[i+1] else hs[i])
  }

  lemma SlidDone(hs: seq<HardwareThread>, h: HardwareThread, k: nat, n: nat)
    requires k < n <= |hs|
    ensures Slid(hs[k := h], k, n - 1)[..n-1] == hs[..n][..k] + hs[..n][k+1..]
  {
    var s := Slid(hs[k := h], k, n - 1);
    forall i | 0 <= i < n - 1 ensures s[i] == (hs[..n][..k] + hs[..n][k+1..])[i] {
      assert s[i] == hs[if i < k then i else i + 1];
    }
  }

  lemma {:induction false} OccupantsRemove(hs: seq<HardwareThread>, k: nat)
    requires k < |hs| && forall i :: 0 <= i < |hs| ==> hs[i].pcb.Some?
    ensures Occupants(hs[..k] + hs[k+1..]) == Occupants(hs)[..k] + Occupants(hs)[k+1..]
  {
    var rest := hs[..k] + hs[k+1..];
    forall i | 0 <= i < |rest| ensures Occupants(rest)[i] == (Occupants(hs)[..k] + Occupants(hs)[k+1..])[i] {
      assert rest[i] == hs[if i < k then i else i + 1];
    }
  }

  /** The first `k` threads of `ts` have had their tick, starting from memory `m0`. */
  ghost predicate Ticked(ts: seq<Thread>, m0: Mem, k: nat, now: seq<Thread>, m: Mem)
    requires k <= |ts| && Shaped(m0)
  {
    now == TickThreads(ts[..k], m0).0 + ts[k..] && m == TickThreads(ts[..k], m0).1
  }

  lemma {:induction false} TickedStep(ts: seq<Thread>, m0: Mem, k: nat, now: seq<Thread>, m: Mem)
    requires k < |ts| && Shaped(m0) && Ticked(ts, m0, k, now, m)
    ensures Shaped(m) && |now| == |ts|
    ensures var (t, m') := TickThread(now[k], m);
            Ticked(ts, m0, k + 1, now[k := t], m')
  {
    assert ts[..k+1][..k] == ts[..k];
    var done := TickThreads(ts[..k], m0).0;
    assert now[k] == ts[k];
    var (t, m') := TickThread(ts[k], m);
    assert (done + ts[k..])[k := t] == (done + [t]) + ts[k+1..];
  }

  lemma {:induction false} TickedAll(ts: seq<Thread>, m0: Mem, now: seq<Thread>, m: Mem)
    requires Shaped(m0)
    ensures Ticked(ts, m0, 0, ts, m0)
    ensures Ticked(ts, m0, |ts|, now, m) ==> (now, m) == TickThreads(ts, m0)
  {
    assert ts[..|ts|] == ts && ts[..0] == [];
    assert TickThreads(ts, m0).0 + ts[|ts|..] == TickThreads(ts, m0).0;
  }

  class Core {
    const numKernelThreads: nat
    const hwThreads: array<HardwareThread>
    var currentPcbCount: nat

    /** Slots below the count are occupied and point at the occupant's page table; the rest are idle. */
    ghost predicate Valid()
      reads this, hwThreads
    {
      && currentPcbCount <= numKernelThreads == hwThreads.Length
      && (forall k :: 0 <= k < currentPcbCount ==> Occupied(hwThreads[k]))
      && (forall k :: currentPcbCount <= k < numKernelThreads ==> Vacant(hwThreads[k]))
    }

    ghost function Threads(): (ts: seq<Thread>)
      requires Valid()
      reads this, hwThreads
      ensures |ts| == currentPcbCount
      ensures forall k :: 0 <= k < |ts| ==> ts[k] == Occupant(hwThreads[k])
    {
      Occupants(hwThreads[..currentPcbCount])
    }

    constructor (n: nat)
      ensures Valid() && Threads() == [] && numKernelThreads == n && fresh(hwThreads)
    {
      numKernelThreads := n;
      hwThreads := new HardwareThread[n](_ => IDLE_THREAD);
      currentPcbCount := 0;
    }

    predicate HasRoom()
      reads this
    {
      currentPcbCount < numKernelThreads
    }

    /** Restores the saved context on the next free slot. */
    method Assign(p: PCB)
      requires Valid() && HasRoom()
      modifies this`currentPcbCount, hwThreads
      ensures Valid()
      ensures Threads() == old(Threads()) + [Thread(p, p.context)]
    {
      var k := currentPcbCount;
      var pc := if p.context.pc == 0 && p.state != Running then 0 else p.context.pc;
      hwThreads[k] := HardwareThread(pc, p.context.ir, p.pgb, p.context.regs, Some(p));
      currentPcbCount := currentPcbCount + 1;
    }

    method ShiftDown(k: nat, n: nat)
      requires k < n <= hwThreads.Length
      modifies hwThreads
      ensures hwThreads[..] == Slid(old(hwThreads[..]), k, n - 1)
    {
      for l := k to n - 1
        invariant hwThreads[..] == Slid(old(hwThreads[..]), k, l)
      {
        hwThreads[l] := hwThreads[l+1];
      }
    }

    /** Clears slot `k` and moves the later slots down by one. */
    method Remove(k: nat)
      requires Valid() && k < currentPcbCount
      modifies this`currentPcbCount, hwThreads
      ensures Valid()
      ensures Threads() == old(Threads())[..k] + old(Threads())[k+1..]
    {
      var n := currentPcbCount;
      hwThreads[k] := hwThreads[k].(pcb := None, ptbr := None, pc := 0, ir := 0);
      ghost var hs := hwThreads[..];
      ShiftDown(k, n);
      hwThreads[n-1] := hwThreads[n-1].(pcb := None, ptbr := None);
      currentPcbCount := n - 1;
      OccupantsRemove(old(hwThreads[..n]), k);
      SlidDone(old(hwThreads[..]), hs[k], k, n);
      assert hwThreads[..n-1] == Slid(hs, k, n - 1)[..n-1];
    }

    method StoreSlot(k: nat, h: HardwareThread)
      requires Valid() && k < currentPcbCount && Occupied(h)
      modifies hwThreads
      ensures Valid()
      ensures Threads() == old(Threads())[k := Occupant(h)]
    {
      hwThreads[k] := h;
    }

    /** Updates the PCB on slot `k` without touching its page table. */
    method SetPcb(k: nat, p: PCB)
      requires Valid() && k < currentPcbCount && p.pgb == Threads()[k].pcb.pgb
      modifies hwThreads
      ensures Valid()
      ensures Threads() == old(Threads())[k := Thread(p, old(Threads())[k].ctx)]
    {
      StoreSlot(k, hwThreads[k].(pcb := Some(p)));
    }

    /** `execute_instruction_cycle` on slot `k`. */
    method ExecuteInstructionCycle(k: nat, pm: PhysicalMemory)
      requires Valid() && pm.Valid() && k < currentPcbCount
      modifies hwThreads, pm.memory, pm.entries
      ensures Valid() && pm.Valid()
      ensures var (t, m) := Cycle(old(Threads())[k], old(pm.Snapshot()));
              Threads() == old(Threads())[k := t] && pm.Snapshot() == m
    {
      var h := hwThreads[k];
      var p := h.pcb.value;
      assert Threads()[k := Threads()[k]] == Threads();
      if p.state == Terminated || h.ptbr.None? {
        return;
      }
      var base := h.ptbr.value;
      var w := pm.MmuReadWord(base, h.pc);
      h := h.(ir := w);
      if Opcode(w) == OP_LD {
        var value := pm.MmuReadWord(base, Address(w));
        h := h.(regs := h.regs[Reg(w) := value], pc := Wrap(h.pc + 4));
      } else if Opcode(w) == OP_ST {
        pm.MmuWriteWord(base, Address(w), h.regs[Reg(w)]);
        h := h.(pc := Wrap(h.pc + 4));
      } else if Opcode(w) == OP_ADD {
        var sum := Wrap(ToSigned(h.regs[RegSrc1(w)]) + ToSigned(h.regs[RegSrc2(w)]));
        h := h.(regs := h.regs[Reg(w) := sum], pc := Wrap(h.pc + 4));
      } else if Opcode(w) == OP_EXIT {
        h := h.(pcb := Some(p.(state := Terminated, ttl := 0)));
      } else {
        h := h.(pcb := Some(p.(state := Terminated)));
      }
      StoreSlot(k, h);
    }

    method TickSlot(k: nat, pm: PhysicalMemory)
      requires Valid() && pm.Valid() && k < currentPcbCount
      modifies hwThreads, pm.memory, pm.entries
      ensures Valid() && pm.Valid()
      ensures var (t, m) := TickThread(old(Threads())[k], old(pm.Snapshot()));
              Threads() == old(Threads())[k := t] && pm.Snapshot() == m
    {
      var p := DecrementTtl(hwThreads[k].pcb.value);
      SetPcb(k, p);
      if p.state != Terminated {
        ExecuteInstructionCycle(k, pm);
      }
    }

    /** The scan that skips empty slots and the count agree on which slots are in use. */
    lemma OccupiedBelowCount(k: nat)
      requires Valid() && k < numKernelThreads
      ensures hwThreads[k].pcb.Some? <==> k < currentPcbCount
    {
    }

    /** The clock's loop over one core: idle slots are skipped, every other one loses a tick of
        life and executes once. */
    method Tick(pm: PhysicalMemory)
      requires Valid() && pm.Valid()
      modifies hwThreads, pm.memory, pm.entries
      ensures Valid() && pm.Valid() && currentPcbCount == old(currentPcbCount)
      ensures (Threads(), pm.Snapshot()) == TickThreads(old(Threads()), old(pm.Snapshot()))
    {
      ghost var ts, m0 := Threads(), pm.Snapshot();
      TickedAll(ts, m0, ts, m0);
      assert numKernelThreads == hwThreads.Length && Shaped(m0) && |ts| <= numKernelThreads;
      hide Ticked, TickThreads, TickThread, Valid, Threads, PhysicalMemory.Valid, PhysicalMemory.Snapshot, Shaped;
      for k := 0 to numKernelThreads
        invariant Valid() && pm.Valid() && currentPcbCount == |ts|
        invariant Ticked(ts, m0, if k < |ts| then k else |ts|, Threads(), pm.Snapshot())
      {
        OccupiedBelowCount(k);
        if hwThreads[k].pcb.Some? {
          TickedStep(ts, m0, k, Threads(), pm.Snapshot());
          TickSlot(k, pm);
        }
      }
      TickedAll(ts, m0, Threads(), pm.Snapshot());
    }
  }
}
