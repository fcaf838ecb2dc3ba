/** What a generated program computes: the whole run of its loaded image on the processor
    (programs/prometheus/prometheus.c:64-84, sys/machine.c:352-480). */
module GeneratedRuns {
  import opened CArith
  import opened Memory
  import opened Process
  import opened Machine
  import opened Solo
  import opened Loader
  import opened Prometheus

  // ------------------------------------------------------------------ the meaning of a program

  /** Addition of 32-bit words. */
  function Sum(a: u32, b: u32): u32 {
    Wrap((a as int) + (b as int))
  }

  /** D[k+2] := D[k] + D[k+1], indices modulo the data size and the sum modulo 2^32. */
  function FoldBlock(d: seq<u32>, x: Block): (r: seq<u32>)
    requires x.offset < |d|
    ensures |r| == |d|
  {
    var n := |d|;
    d[(x.offset + 2) % n := Sum(d[x.offset], d[(x.offset + 1) % n])]
  }

  /** The blocks in order. */
  function Fold(data: seq<u32>, blocks: seq<Block>): (r: seq<u32>)
    requires forall i :: 0 <= i < |blocks| ==> blocks[i].offset < |data|
    ensures |r| == |data|
  {
    if blocks == [] then data else FoldBlock(Fold(data, blocks[..|blocks|-1]), blocks[|blocks|-1])
  }

  // ------------------------------------------------------------------ one instruction

  ghost predicate About(s: Solo, w: u32) {
    s.status == Continue && InMemory(s.vm, s.ctx.pc) && Load(s.vm, s.ctx.pc) == w
  }

  lemma StepLoad(s: Solo, w: u32, r: nat, a: u32)
    requires Opcode(w) == OP_LD && Reg(w) == r && Address(w) == a && About(s, w) && InMemory(s.vm, a)
    ensures StepInPages(s)
    ensures SoloStep(s) == Solo(Advance(s.ctx.(ir := w, regs := s.ctx.regs[r := s.vm[a / 4]])), s.vm, Continue)
  {
    hide Opcode, Reg, Address;
  }

  lemma StepStore(s: Solo, w: u32, r: nat, a: u32)
    requires Opcode(w) == OP_ST && Reg(w) == r && Address(w) == a && About(s, w) && InMemory(s.vm, a)
    ensures StepInPages(s)
    ensures SoloStep(s) == Solo(Advance(s.ctx.(ir := w)), s.vm[a / 4 := s.ctx.regs[r]], Continue)
  {
    hide Opcode, Reg, Address;
  }

  lemma StepAdd(s: Solo, w: u32, r3: nat, r1: nat, r2: nat)
    requires Opcode(w) == OP_ADD && Reg(w) == r3 && RegSrc1(w) == r1 && RegSrc2(w) == r2 && About(s, w)
    ensures StepInPages(s)
    ensures SoloStep(s) == Solo(Advance(s.ctx.(ir := w,
                                               regs := s.ctx.regs[r3 := Sum(s.ctx.regs[r1], s.ctx.regs[r2])])),
                                s.vm, Continue)
  {
    hide Wrap, ToSigned, Opcode, Reg, RegSrc1, RegSrc2, Load, InMemory;
    SignedSum(s.ctx.regs[r1], s.ctx.regs[r2]);
  }

  lemma StepExit(s: Solo)
    requires About(s, EXIT_WORD)
    ensures StepInPages(s) && SoloStep(s) == Solo(s.ctx.(ir := EXIT_WORD), s.vm, Exited)
  {
  }

  // ------------------------------------------------------------------ one block

  lemma {:induction false} CodeAt(b: nat, n: nat, blocks: seq<Block>, i: nat, j: nat)
    requires n > 0 && (CodeLength(b) + n) * WORD_SIZE <= 0x100_0000
    requires forall k :: 0 <= k < |blocks| ==> blocks[k].reg < 16
    requires i < |blocks| && j < 4
    ensures BodyWords(b, n, blocks)[4 * i + j] == BlockWords(b, n, blocks[i])[j]
  {
    hide BlockWords;
    if i < |blocks| - 1 {
      CodeAt(b, n, blocks[..|blocks|-1], i, j);
    }
  }

  /** Memory laid out as code, data and whatever follows. */
  ghost function Layout(blocks: seq<Block>, data: seq<u32>, d: seq<u32>, rest: seq<u32>): seq<u32>
    requires Drawn(blocks, data)
  {
    CodeOf(blocks, data) + d + rest
  }

  /** A solo run of the program with `d` in its data words, about to run block `i` (or EXIT). */
  ghost predicate AtBlock(s: Solo, blocks: seq<Block>, data: seq<u32>, d: seq<u32>, rest: seq<u32>, i: nat)
    requires Drawn(blocks, data)
  {
    && |d| == |data| && i <= |blocks|
    && s.status == Continue && s.ctx.pc == 16 * i
    && s.vm == Layout(blocks, data, d, rest)
  }

  lemma {:induction false} Fetch(s: Solo, blocks: seq<Block>, data: seq<u32>, d: seq<u32>, rest: seq<u32>, i: nat,
                                 j: nat)
    requires Drawn(blocks, data) && |d| == |data| && i < |blocks| && j < 4
    requires s.status == Continue && s.ctx.pc == 16 * i + 4 * j && s.vm == Layout(blocks, data, d, rest)
    ensures About(s, BlockWords(|blocks|, |data|, blocks[i])[j])
  {
    hide BlockWords, BodyWords;
    CodeAt(|blocks|, |data|, blocks, i, j);
    assert s.ctx.pc / WORD_SIZE == 4 * i + j;
  }

  lemma DataAt(blocks: seq<Block>, data: seq<u32>, d: seq<u32>, rest: seq<u32>, k: nat, v: u32)
    requires Drawn(blocks, data) && |d| == |data|
    ensures var n, vm, a := |data|, Layout(blocks, data, d, rest), DataWord(|blocks|, |data|, k);
            && k % n < n && a < 0x100_0000 && InMemory(vm, a) && vm[a / 4] == d[k % n]
            && vm[a / 4 := v] == Layout(blocks, data, d[k % n := v], rest)
  {
    hide CodeOf;
    var c, n := CodeOf(blocks, data), |data|;
    assert DataWord(|blocks|, n, k) / 4 == |c| + k % n;
    assert (c + d)[|c| + k % n := v] == c + d[k % n := v];
  }

  /** After the two loads `t` has the operands of block `i` in its registers. */
  ghost predicate OperandsIn(t: Solo, blocks: seq<Block>, data: seq<u32>, d: seq<u32>, rest: seq<u32>, i: nat)
    requires Drawn(blocks, data)
  {
    && |d| == |data| && i < |blocks| && (blocks[i].offset + 1) % |data| < |data|
    && t.status == Continue && t.ctx.pc == 16 * i + 8 && t.vm == Layout(blocks, data, d, rest)
    && t.ctx.regs[blocks[i].reg] == d[blocks[i].offset]
    && t.ctx.regs[(blocks[i].reg + 1) % 16] == d[(blocks[i].offset + 1) % |data|]
  }

  /** After the two loads the registers hold the two operands. */
  lemma {:induction false} BlockLoads(s: Solo, blocks: seq<Block>, data: seq<u32>, d: seq<u32>, rest: seq<u32>, i: nat)
    requires Drawn(blocks, data) && AtBlock(s, blocks, data, d, rest, i) && i < |blocks|
    ensures var t := SoloStep(SoloStep(s));
            && StepInPages(s) && StepInPages(SoloStep(s)) && SoloStep(s).vm == s.vm
            && t.vm == s.vm && OperandsIn(t, blocks, data, d, rest, i)
  {
    hide SoloStep, StepInPages, CodeOf, Layout, About, Memory3, Add3, InMemory, DataWord,
         Opcode, Reg, Address;
    var x, b, n := blocks[i], |blocks|, |data|;
    DataAt(blocks, data, d, rest, x.offset, 0);
    DataAt(blocks, data, d, rest, x.offset + 1, 0);
    ModOnce(x.offset, n);
    Fetch(s, blocks, data, d, rest, i, 0);
    MemoryDecodes(OP_LD, x.reg, DataWord(b, n, x.offset));
    StepLoad(s, Memory3(OP_LD, x.reg, DataWord(b, n, x.offset)), x.reg, DataWord(b, n, x.offset));
    Fetch(SoloStep(s), blocks, data, d, rest, i, 1);
    var r2 := (x.reg + 1) % 16;
    MemoryDecodes(OP_LD, r2, DataWord(b, n, x.offset + 1));
    StepLoad(SoloStep(s), Memory3(OP_LD, r2, DataWord(b, n, x.offset + 1)), r2, DataWord(b, n, x.offset + 1));
  }

  lemma FoldBlockStores(d: seq<u32>, x: Block)
    requires x.offset < |d|
    ensures var n := |d|;
            && 0 <= (x.offset + 1) % n < n && 0 <= (x.offset + 2) % n < n
            && FoldBlock(d, x) == d[(x.offset + 2) % n := Sum(d[x.offset], d[(x.offset + 1) % n])]
  {
  }

  lemma {:induction false} BlockAdds(t: Solo, blocks: seq<Block>, data: seq<u32>, d: seq<u32>, rest: seq<u32>, i: nat)
    requires Drawn(blocks, data) && OperandsIn(t, blocks, data, d, rest, i)
    ensures var x, u := blocks[i], SoloStep(t);
            && StepInPages(t) && u.status == Continue && u.ctx.pc == 16 * i + 12 && u.vm == t.vm
            && u.ctx.regs[(x.reg + 2) % 16] == Sum(d[x.offset], d[(x.offset + 1) % |data|])
  {
    hide SoloStep, StepInPages, Layout, About, Memory3, Add3, InMemory, Sum, DataWord, Opcode, Reg, RegSrc1, RegSrc2;
    var x := blocks[i];
    var r2, r3 := (x.reg + 1) % 16, (x.reg + 2) % 16;
    Fetch(t, blocks, data, d, rest, i, 2);
    AddDecodes(r3, x.reg, r2);
    StepAdd(t, Add3(r3, x.reg, r2), r3, x.reg, r2);
  }

  /** The store puts the sum where it belongs and touches nothing else. */
  lemma {:induction false} BlockStores(u: Solo, blocks: seq<Block>, data: seq<u32>, d: seq<u32>, rest: seq<u32>, i: nat)
    requires Drawn(blocks, data) && |d| == |data| && i < |blocks| && (blocks[i].offset + 1) % |data| < |data|
    requires u.status == Continue && u.ctx.pc == 16 * i + 12 && u.vm == Layout(blocks, data, d, rest)
    requires var x := blocks[i];
             u.ctx.regs[(x.reg + 2) % 16] == Sum(d[x.offset], d[(x.offset + 1) % |data|])
    ensures StepInPages(u) && AtBlock(SoloStep(u), blocks, data, FoldBlock(d, blocks[i]), rest, i + 1)
  {
    hide SoloStep, StepInPages, Layout, About, Memory3, InMemory, Sum, DataWord, FoldBlock, Opcode, Reg, Address;
    var x, b, n := blocks[i], |blocks|, |data|;
    var r3 := (x.reg + 2) % 16;
    FoldBlockStores(d, x);
    DataAt(blocks, data, d, rest, x.offset + 2, Sum(d[x.offset], d[(x.offset + 1) % n]));
    Fetch(u, blocks, data, d, rest, i, 3);
    MemoryDecodes(OP_ST, r3, DataWord(b, n, x.offset + 2));
    StepStore(u, Memory3(OP_ST, r3, DataWord(b, n, x.offset + 2)), r3, DataWord(b, n, x.offset + 2));
  }

  /** Four instructions: the block's addition happens, nothing else in memory moves. */
  lemma {:induction false} BlockRuns(s: Solo, blocks: seq<Block>, data: seq<u32>, d: seq<u32>, rest: seq<u32>, i: nat)
    requires Drawn(blocks, data) && AtBlock(s, blocks, data, d, rest, i) && i < |blocks|
    ensures AtBlock(SoloRun(s, 4), blocks, data, FoldBlock(d, blocks[i]), rest, i + 1)
    ensures forall j: nat :: j < 4 ==> StepInPages(SoloRun(s, j)) && SoloRun(s, j).vm == s.vm
  {
    hide SoloStep, StepInPages, CodeOf, Layout, FoldBlock;
    BlockLoads(s, blocks, data, d, rest, i);
    BlockAdds(SoloStep(SoloStep(s)), blocks, data, d, rest, i);
    BlockStores(SoloStep(SoloStep(SoloStep(s))), blocks, data, d, rest, i);
    FirstRuns(s);
  }

  lemma FirstRuns(s: Solo)
    ensures SoloRun(s, 0) == s && SoloRun(s, 1) == SoloStep(s) && SoloRun(s, 2) == SoloStep(SoloStep(s))
    ensures SoloRun(s, 3) == SoloStep(SoloStep(SoloStep(s)))
    ensures SoloRun(s, 4) == SoloStep(SoloStep(SoloStep(SoloStep(s))))
  {
    hide SoloStep;
  }

  // ------------------------------------------------------------------ the whole run

  /** A state of the run before EXIT. */
  ghost predicate Underway(s: Solo, blocks: seq<Block>, data: seq<u32>)
    requires Drawn(blocks, data)
  {
    StepInPages(s) && s.status == Continue && CodeOf(blocks, data) <= s.vm
  }

  lemma AtBlockUnderway(s: Solo, t: Solo, blocks: seq<Block>, data: seq<u32>, d: seq<u32>, rest: seq<u32>, i: nat)
    requires Drawn(blocks, data) && AtBlock(s, blocks, data, d, rest, i)
    requires StepInPages(t) && t.vm == s.vm && t.status == Continue
    ensures Underway(t, blocks, data)
  {
    hide CodeOf, StepInPages;
  }

  lemma {:induction false} RunningBefore(s: Solo, k: nat, n: nat)
    requires SoloRun(s, n).status == Continue && k <= n
    ensures SoloRun(s, k).status == Continue
  {
    if k < n {
      RunningBefore(s, k, n - 1);
    }
  }

  /** Four cycles a block, each block having its effect on the data and on nothing else. */
  lemma {:induction false} ReachesBlock(s: Solo, blocks: seq<Block>, data: seq<u32>, rest: seq<u32>, i: nat)
    requires Drawn(blocks, data) && AtBlock(s, blocks, data, data, rest, 0) && i <= |blocks|
    ensures AtBlock(SoloRun(s, 4 * i), blocks, data, Fold(data, blocks[..i]), rest, i)
    ensures forall k: nat :: k < 4 * i ==> Underway(SoloRun(s, k), blocks, data)
  {
    hide SoloStep, StepInPages, CodeOf, Layout, FoldBlock, Underway;
    if i > 0 {
      var d := Fold(data, blocks[..i-1]);
      ReachesBlock(s, blocks, data, rest, i - 1);
      var now := SoloRun(s, 4 * i - 4);
      BlockRuns(now, blocks, data, d, rest, i - 1);
      assert blocks[..i][..i-1] == blocks[..i-1];
      SoloRunAdd(s, 4 * i - 4, 4);
      forall k: nat | 4 * i - 4 <= k < 4 * i ensures Underway(SoloRun(s, k), blocks, data) {
        SoloRunAdd(s, 4 * i - 4, k - (4 * i - 4));
        RunningBefore(s, k, 4 * i);
        AtBlockUnderway(now, SoloRun(s, k), blocks, data, d, rest, i - 1);
      }
    }
  }

  lemma {:induction false} ExitRuns(s: Solo, blocks: seq<Block>, data: seq<u32>, d: seq<u32>, rest: seq<u32>)
    requires Drawn(blocks, data) && AtBlock(s, blocks, data, d, rest, |blocks|)
    ensures Underway(s, blocks, data) && SoloStep(s).status == Exited && SoloStep(s).vm == s.vm
  {
    hide SoloStep, StepInPages, BodyWords;
    assert s.ctx.pc / WORD_SIZE == 4 * |blocks|;
    StepExit(s);
  }

  /** What follows the data in the loaded image. */
  ghost function Padding(blocks: seq<Block>, data: seq<u32>, words: nat): seq<u32>
    requires Drawn(blocks, data) && words >= CodeLength(|blocks|) + |data|
  {
    seq(words - (CodeLength(|blocks|) + |data|), _ => 0)
  }

  /** The image a program starts from, as the loader leaves it in `words` words of memory. */
  ghost function Loadable(blocks: seq<Block>, data: seq<u32>, words: nat): seq<u32>
    requires Drawn(blocks, data)
  {
    ImageOf(ProgramOf(blocks, data, 0), words)
  }

  lemma ImageIsLayout(blocks: seq<Block>, data: seq<u32>, words: nat)
    requires Drawn(blocks, data) && words >= CodeLength(|blocks|) + |data|
    ensures Loadable(blocks, data, words) == Layout(blocks, data, data, Padding(blocks, data, words))
  {
    hide CodeOf;
    var p := ProgramOf(blocks, data, 0);
    assert DataStart(p) == CodeLength(|blocks|) && CodeStart(p) == 0;
    var image, layout := Loadable(blocks, data, words), Layout(blocks, data, data, Padding(blocks, data, words));
    forall w: nat | w < words ensures image[w] == layout[w] {
      assert image[w] == Image(p, w);
    }
  }

  /** Memory after the blocks have run. */
  ghost function Result(blocks: seq<Block>, data: seq<u32>, words: nat): seq<u32>
    requires Drawn(blocks, data) && words >= CodeLength(|blocks|) + |data|
  {
    Layout(blocks, data, Fold(data, blocks), Padding(blocks, data, words))
  }

  /** After any number of cycles `k`: the run keeps to its pages and its code words, EXIT executes in
      cycle 4b + 1 and not before, and from then on memory holds the folded data. */
  lemma {:induction false} GeneratedProgramRuns(blocks: seq<Block>, data: seq<u32>, words: nat, k: nat)
    requires Drawn(blocks, data) && words >= CodeLength(|blocks|) + |data|
    ensures var now := SoloRun(Start(Loadable(blocks, data, words)), k);
            && StepInPages(now)
            && CodeOf(blocks, data) <= now.vm
            && now.status == (if k < CodeLength(|blocks|) then Continue else Exited)
            && (k >= CodeLength(|blocks|) ==> now.vm == Result(blocks, data, words))
  {
    hide SoloStep, StepInPages, CodeOf, Loadable, Fold, Padding;
    var b, s := |blocks|, Start(Loadable(blocks, data, words));
    ImageIsLayout(blocks, data, words);
    ReachesBlock(s, blocks, data, Padding(blocks, data, words), b);
    assert blocks[..b] == blocks;
    ExitRuns(SoloRun(s, 4 * b), blocks, data, Fold(data, blocks), Padding(blocks, data, words));
    if k >= CodeLength(b) {
      AfterExit(s, 4 * b, k);
    }
  }

  lemma AfterExit(s: Solo, last: nat, k: nat)
    requires k > last && SoloStep(SoloRun(s, last)).status == Exited
    ensures SoloRun(s, k) == SoloStep(SoloRun(s, last)) && StepInPages(SoloRun(s, k))
  {
    hide SoloStep;
    SoloRunAdd(s, last + 1, k - last - 1);
    HaltedStays(SoloRun(s, last + 1), k - last - 1);
  }

  /** The premise of the transparency theorem holds of every generated program. */
  lemma {:induction false} GeneratedStaysInPages(blocks: seq<Block>, data: seq<u32>, words: nat)
    requires Drawn(blocks, data) && words >= CodeLength(|blocks|) + |data|
    ensures StaysInPages(Start(Loadable(blocks, data, words)))
  {
    forall k: nat ensures StepInPages(SoloRun(Start(Loadable(blocks, data, words)), k)) {
      GeneratedProgramRuns(blocks, data, words, k);
    }
  }

  /** The loader gives a generated program enough pages and none too many. */
  lemma {:induction false} EnoughPages(blocks: seq<Block>, data: seq<u32>, priority: int)
    requires Drawn(blocks, data)
    ensures var pages := PagesOf(ProgramOf(blocks, data, priority));
            (pages - 1) * PAGE_WORDS < CodeLength(|blocks|) + |data| <= pages * PAGE_WORDS
  {
    hide CodeOf, PagesOf;
    var p := ProgramOf(blocks, data, priority);
    assert DataEnd(p) == CodeLength(|blocks|) + |data|;
    PagesOfTight(p);
  }
}
