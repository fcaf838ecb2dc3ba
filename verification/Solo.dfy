/** One process alone on one processor with its own flat memory: the reference the
    time-shared system is compared with. */
module Solo {
  import opened CArith
  import opened Memory
  import opened Process
  import opened Machine

  /** `vm` is the process's virtual memory, word by word. */
  datatype Solo = Solo(ctx: Context, vm: seq<u32>, status: Status)

  function Start(image: seq<u32>): Solo {
    Solo(ZERO_CONTEXT, image, Continue)
  }

  predicate InMemory(vm: seq<u32>, va: u32) {
    va / WORD_SIZE < |vm|
  }

  function Load(vm: seq<u32>, va: u32): u32 {
    if InMemory(vm, va) then vm[va / WORD_SIZE] else 0
  }

  function Store(vm: seq<u32>, va: u32, v: u32): (r: seq<u32>)
    ensures |r| == |vm|
  {
    if InMemory(vm, va) then vm[va / WORD_SIZE := v] else vm
  }

  predicate UsesAddress(w: u32) {
    Opcode(w) == OP_LD || Opcode(w) == OP_ST
  }

  /** The next instruction and the word it names lie in the process's pages. */
  predicate StepInPages(s: Solo) {
    s.status == Continue ==>
      && InMemory(s.vm, s.ctx.pc)
      && (UsesAddress(Load(s.vm, s.ctx.pc)) ==> InMemory(s.vm, Address(Load(s.vm, s.ctx.pc))))
  }

  function SoloStep(s: Solo): (r: Solo)
    ensures |r.vm| == |s.vm|
  {
    if s.status != Continue then s
    else
      var w := Load(s.vm, s.ctx.pc);
      var operand := if Opcode(w) == OP_LD then Load(s.vm, Address(w)) else 0;
      var o := Execute(s.ctx, w, operand);
      Solo(o.ctx, if o.store.Some? then Store(s.vm, o.store.value.0, o.store.value.1) else s.vm, o.status)
  }

  function SoloRun(s: Solo, n: nat): (r: Solo)
    ensures |r.vm| == |s.vm|
  {
    if n == 0 then s else SoloStep(SoloRun(s, n - 1))
  }

  /** The whole solo run keeps to the process's pages. */
  ghost predicate StaysInPages(s: Solo) {
    forall n: nat :: StepInPages(SoloRun(s, n))
  }

  lemma {:induction false} SoloRunAdd(s: Solo, a: nat, b: nat)
    ensures SoloRun(s, a + b) == SoloRun(SoloRun(s, a), b)
  {
    hide SoloStep;
    if b > 0 {
      SoloRunAdd(s, a, b - 1);
    }
  }

  lemma {:induction false} HaltedStays(s: Solo, n: nat)
    requires s.status != Continue
    ensures SoloRun(s, n) == s
  {
    if n > 0 {
      HaltedStays(s, n - 1);
    }
  }

  /** Thread `t` over memory `m` is exactly where solo state `s` is. */
  ghost predicate Mirrors(t: Thread, m: Mem, table: Table, s: Solo)
    requires |m.words| == TOTAL_WORDS && table.base + table.pages <= |m.ptes|
  {
    && t.pcb.pgb == Some(table.base)
    && t.ctx == s.ctx
    && View(m, table) == s.vm
    && (t.pcb.state == Terminated <==> s.status != Continue)
  }

  /** One cycle on the shared machine is one solo step, and no other process's view moves. */
  lemma {:induction false} CycleIsSoloStep(t: Thread, m: Mem, table: Table, s: Solo)
    requires Wf(m) && Backed(m, table) && Mirrors(t, m, table, s) && StepInPages(s)
    ensures var (t', m') := Cycle(t, m);
            && Wf(m') && Backed(m', table) && Mirrors(t', m', table, SoloStep(s))
            && m'.nextKernel == m.nextKernel
            && forall u: Table :: Backed(m, u) && Disjoint(table, u) ==>
                 Backed(m', u) && View(m', u) == View(m, u)
  {
    if t.pcb.state != Terminated {
      ReadSeesView(m, table, t.ctx.pc);
      var w := MmuRead(m, table.base, t.ctx.pc);
      if UsesAddress(w) {
        ReadSeesView(m, table, Address(w));
        StoreIsLocal(m, table, Address(w), t.ctx.regs[Reg(w)]);
      }
    }
  }
}
