/** What one tick does to a running process, instruction by instruction, in terms of the instruction's
    hexadecimal digits (sys/machine.c:325-480, sys/clock.c:48-73). */
module InstructionSet {
  import opened CArith
  import opened Memory
  import opened Process
  import opened Machine

  /** Thread `t` has a page table and its program has not stopped. */
  predicate Runs(t: Thread) {
    t.pcb.state != Terminated && t.pcb.pgb.Some?
  }

  /** The word at the program counter. */
  function Fetched(t: Thread, m: Mem): u32
    requires Runs(t) && Shaped(m)
  {
    MmuRead(m, t.pcb.pgb.value, t.ctx.pc)
  }

  /** Life after a tick; a life that is over stays as it is. */
  function OneTickOlder(ttl: int): int { if ttl > 0 then ttl - 1 else ttl }

  /** The PCB of `t` after a tick, but for state and life. */
  predicate SameButStateAndLife(p: PCB, r: PCB) {
    && r.pid == p.pid && r.priority == p.priority && r.initialTtl == p.initialTtl && r.deadline == p.deadline
    && r.quantumCounter == p.quantumCounter && r.pgb == p.pgb && r.context == p.context
  }

  /** The program goes on with the next instruction. */
  predicate GoesOn(t: Thread, u: Thread, w: u32) {
    && SameButStateAndLife(t.pcb, u.pcb) && u.pcb.state == t.pcb.state && u.pcb.ttl == OneTickOlder(t.pcb.ttl)
    && u.ctx.ir == w && u.ctx.pc == (t.ctx.pc + 4) % 0x1_0000_0000
  }

  /** The program has stopped where it is, with `ttl` to live. */
  predicate StopsHere(t: Thread, u: Thread, w: u32, ttl: int) {
    && SameButStateAndLife(t.pcb, u.pcb) && u.pcb.state == Terminated && u.pcb.ttl == ttl
    && u.ctx.ir == w && u.ctx.pc == t.ctx.pc && u.ctx.regs == t.ctx.regs
  }

  /** 0RAAAAAA: register R gets the word at address AAAAAA. */
  lemma LoadTick(t: Thread, m: Mem)
    requires Shaped(m) && Runs(t) && Fetched(t, m) / 0x1000_0000 == 0
    ensures var (u, m') := TickThread(t, m); var w := Fetched(t, m);
            && GoesOn(t, u, w) && m' == m
            && u.ctx.regs == t.ctx.regs[w / 0x100_0000 := MmuRead(m, t.pcb.pgb.value, w % 0x100_0000)]
  {
  }

  /** 1RAAAAAA: the word at address AAAAAA becomes that of register R. */
  lemma StoreTick(t: Thread, m: Mem)
    requires Shaped(m) && Runs(t) && Fetched(t, m) / 0x1000_0000 == 1
    ensures var (u, m') := TickThread(t, m); var w := Fetched(t, m);
            && GoesOn(t, u, w) && u.ctx.regs == t.ctx.regs
            && m' == MmuWrite(m, t.pcb.pgb.value, w % 0x100_0000, t.ctx.regs[w / 0x100_0000 % 16])
  {
  }

  /** 2RXY0000: register R gets the sum of registers X and Y modulo 2^32. */
  lemma AddTick(t: Thread, m: Mem)
    requires Shaped(m) && Runs(t) && Fetched(t, m) / 0x1000_0000 == 2
    ensures var (u, m') := TickThread(t, m); var w := Fetched(t, m);
            var x: int, y: int := t.ctx.regs[w / 0x10_0000 % 16], t.ctx.regs[w / 0x1_0000 % 16];
            && GoesOn(t, u, w) && m' == m
            && u.ctx.regs == t.ctx.regs[w / 0x100_0000 % 16 := (x + y) % 0x1_0000_0000]
  {
    hide ToSigned, MmuRead;
    var w := Fetched(t, m);
    SignedSum(t.ctx.regs[RegSrc1(w)], t.ctx.regs[RegSrc2(w)]);
  }

  /** F-------: the program ends, its life with it, the program counter stays. */
  lemma ExitTick(t: Thread, m: Mem)
    requires Shaped(m) && Runs(t) && Fetched(t, m) / 0x1000_0000 == 15
    ensures var (u, m') := TickThread(t, m); StopsHere(t, u, Fetched(t, m), 0) && m' == m
  {
  }

  /** Any other first digit: the program is stopped, but keeps what is left of its life. */
  lemma UnknownTick(t: Thread, m: Mem)
    requires Shaped(m) && Runs(t) && 2 < Fetched(t, m) / 0x1000_0000 < 15
    ensures var (u, m') := TickThread(t, m);
            StopsHere(t, u, Fetched(t, m), OneTickOlder(t.pcb.ttl)) && m' == m
  {
  }

  /** A stopped program, or one without a page table, only ages. */
  lemma IdleTick(t: Thread, m: Mem)
    requires Shaped(m) && !Runs(t)
    ensures var (u, m') := TickThread(t, m);
            && SameButStateAndLife(t.pcb, u.pcb) && u.pcb.state == t.pcb.state
            && u.pcb.ttl == OneTickOlder(t.pcb.ttl) && u.ctx == t.ctx && m' == m
  {
  }
}
