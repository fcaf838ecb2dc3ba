/** Physical memory, the frame allocator, page tables and the MMU (sys/memory.c).
    `Mem` is the value a `PhysicalMemory` object stands for. */
module Memory {
  import opened CArith

  const WORD_SIZE: nat := 4
  const TOTAL_WORDS: nat := 4194304
  const KERNEL_WORDS: nat := 262144
  const PAGE_SIZE: nat := 4096
  const PAGE_WORDS: nat := 1024
  const TOTAL_FRAMES: nat := 4096
  const KERNEL_FRAMES: nat := 256

  /** A 12-bit frame number. */
  type Frame = x: int | 0 <= x < 4096

  datatype PageTableEntry = PageTableEntry(frame: Frame, present: bool, rw: bool, user: bool,
                                           accessed: bool, dirty: bool)

  const EMPTY_ENTRY := PageTableEntry(0, false, true, true, false, false)

  datatype Mem = Mem(words: seq<u32>, ptes: seq<PageTableEntry>, bitmap: seq<bool>,
                     nextKernel: nat, totalAllocated: nat)

  /** The page table at kernel word `base`, one word per entry. */
  datatype Table = Table(base: nat, pages: nat)

  // ------------------------------------------------------------------ accounting

  function CountSet(b: seq<bool>): nat {
    if b == [] then 0 else CountSet(b[..|b|-1]) + (if b[|b|-1] then 1 else 0)
  }

  /** Flipping one bit moves the count by one. */
  lemma {:induction false} CountSetUpdate(b: seq<bool>, i: nat, v: bool)
    requires i < |b| && b[i] != v
    ensures CountSet(b[i := v]) == CountSet(b) + (if v then 1 else -1)
  {
    var n := |b| - 1;
    if i < n {
      assert b[i := v][..n] == b[..n][i := v];
      CountSetUpdate(b[..n], i, v);
    } else {
      assert b[i := v][..n] == b[..n];
    }
  }

  lemma {:induction false} CountSetPrefix(b: seq<bool>, n: nat)
    requires n <= |b|
    requires forall i :: 0 <= i < |b| ==> (b[i] <==> i < n)
    ensures CountSet(b) == n
  {
    if |b| > 0 {
      var k := |b| - 1;
      CountSetPrefix(b[..k], if n <= k then n else k);
    }
  }

  ghost predicate Shaped(m: Mem) {
    |m.words| == TOTAL_WORDS && |m.ptes| == KERNEL_WORDS && |m.bitmap| == TOTAL_FRAMES
  }

  /** What every allocation and every release keeps. */
  ghost predicate Accounted(m: Mem) {
    && Shaped(m)
    && m.nextKernel <= KERNEL_WORDS
    && (forall i :: 0 <= i < KERNEL_FRAMES ==> m.bitmap[i])
    && m.totalAllocated == CountSet(m.bitmap)
  }

  /** Number of the first free user frame at or after `from`. */
  function LowestFree(b: seq<bool>, from: nat): (r: Option<nat>)
    requires from <= |b|
    ensures r.None? ==> forall i :: from <= i < |b| ==> b[i]
    ensures r.Some? ==> from <= r.value < |b| && !b[r.value]
                        && forall i :: from <= i < r.value ==> b[i]
    decreases |b| - from
  {
    if from == |b| then None else if !b[from] then Some(from) else LowestFree(b, from + 1)
  }

  /** `n` successive allocations: the frames handed out and the bitmap left behind. */
  function AllocateMany(b: seq<bool>, n: nat): (r: Option<(seq<nat>, seq<bool>)>)
    requires |b| == TOTAL_FRAMES
    ensures r.Some? ==> |r.value.0| == n && |r.value.1| == |b|
  {
    if n == 0 then Some(([], b))
    else
      match AllocateMany(b, n - 1)
      case None => None
      case Some((fs, c)) =>
        match LowestFree(c, KERNEL_FRAMES)
        case None => None
        case Some(f) => Some((fs + [f], c[f := true]))
  }

  /** `free_frame` applied to each frame in turn; kernel frames and free frames are left alone. */
  function FreeMany(b: seq<bool>, fs: seq<nat>): (r: seq<bool>)
    requires |b| == TOTAL_FRAMES
    ensures |r| == |b|
  {
    if fs == [] then b
    else
      var c := FreeMany(b, fs[..|fs|-1]);
      var f := fs[|fs|-1];
      if KERNEL_FRAMES <= f < TOTAL_FRAMES then c[f := false] else c
  }

  /** Frames of the present entries among `es`, in order. */
  function PresentFrames(es: seq<PageTableEntry>): seq<nat> {
    if es == [] then []
    else PresentFrames(es[..|es|-1]) + (if es[|es|-1].present then [es[|es|-1].frame] else [])
  }

  lemma {:induction false} FreeManyAt(b: seq<bool>, fs: seq<nat>, i: nat)
    requires |b| == TOTAL_FRAMES && i < TOTAL_FRAMES
    ensures FreeMany(b, fs)[i] == (b[i] && !(i in fs && KERNEL_FRAMES <= i))
  {
    if fs != [] {
      FreeManyAt(b, fs[..|fs|-1], i);
      assert fs == fs[..|fs|-1] + [fs[|fs|-1]];
    }
  }

  /** Where an allocation sequence sets bits: exactly at the frames it returns, all of them
      user frames that were free before. */
  lemma {:induction false} AllocateManyMarks(b: seq<bool>, n: nat)
    requires |b| == TOTAL_FRAMES && AllocateMany(b, n).Some?
    ensures var (fs, c) := AllocateMany(b, n).value;
            && (forall f :: f in fs ==> KERNEL_FRAMES <= f < TOTAL_FRAMES && !b[f])
            && (forall i, j :: 0 <= i < j < |fs| ==> fs[i] != fs[j])
            && (forall i :: 0 <= i < TOTAL_FRAMES ==> c[i] == (b[i] || i in fs))
  {
    if n > 0 {
      AllocateManyMarks(b, n - 1);
    }
  }

  /** Creating, filling and destroying a page table gives the bitmap back. */
  lemma AllocateThenFree(b: seq<bool>, n: nat)
    requires |b| == TOTAL_FRAMES && AllocateMany(b, n).Some?
    ensures FreeMany(AllocateMany(b, n).value.1, AllocateMany(b, n).value.0) == b
  {
    var (fs, c) := AllocateMany(b, n).value;
    AllocateManyMarks(b, n);
    forall i | 0 <= i < TOTAL_FRAMES ensures FreeMany(c, fs)[i] == b[i] {
      FreeManyAt(c, fs, i);
    }
  }

  // ------------------------------------------------------------------ translation

  function EntryIndex(base: nat, va: u32): nat {
    base + va / PAGE_SIZE
  }

  predicate Mapped(m: Mem, base: nat, va: u32) {
    EntryIndex(base, va) < |m.ptes| && m.ptes[EntryIndex(base, va)].present
  }

  /** Physical word address; a page that is not present yields word 0. */
  function Translate(m: Mem, base: nat, va: u32): (r: nat)
    ensures r < TOTAL_WORDS
  {
    if Mapped(m, base, va)
    then (m.ptes[EntryIndex(base, va)].frame * PAGE_SIZE + va % PAGE_SIZE) / WORD_SIZE
    else 0
  }

  function MmuRead(m: Mem, base: nat, va: u32): u32
    requires |m.words| == TOTAL_WORDS
  {
    m.words[Translate(m, base, va)]
  }

  function Touch(e: PageTableEntry): PageTableEntry {
    e.(dirty := true, accessed := true)
  }

  function MmuWrite(m: Mem, base: nat, va: u32, v: u32): Mem
    requires |m.words| == TOTAL_WORDS
  {
    var i := EntryIndex(base, va);
    m.(words := m.words[Translate(m, base, va) := v],
       ptes := if i < |m.ptes| then m.ptes[i := Touch(m.ptes[i])] else m.ptes)
  }

  // ------------------------------------------------------------------ isolation

  /** Frames named by present entries are user frames, reserved, and no two entries share one. */
  ghost predicate FramesExclusive(m: Mem)
    requires Shaped(m)
  {
    && (forall x :: 0 <= x < |m.ptes| && m.ptes[x].present ==>
          x < m.nextKernel && KERNEL_FRAMES <= m.ptes[x].frame && m.bitmap[m.ptes[x].frame])
    && (forall x, y :: 0 <= x < y < |m.ptes| && m.ptes[x].present && m.ptes[y].present ==>
          m.ptes[x].frame != m.ptes[y].frame)
  }

  ghost predicate Wf(m: Mem) {
    Accounted(m) && FramesExclusive(m)
  }

  /** Every page of the table is loaded. */
  ghost predicate Backed(m: Mem, t: Table) {
    && t.base + t.pages <= |m.ptes|
    && forall x :: t.base <= x < t.base + t.pages ==> m.ptes[x].present
  }

  /** Every page of the table is loaded, writable, for the user, and has not been touched since. */
  ghost predicate Untouched(m: Mem, t: Table) {
    && t.base + t.pages <= |m.ptes|
    && forall x :: t.base <= x < t.base + t.pages ==>
         var e := m.ptes[x]; e.present && e.rw && e.user && !e.accessed && !e.dirty
  }

  predicate Disjoint(t: Table, u: Table) {
    t.base + t.pages <= u.base || u.base + u.pages <= t.base
  }

  function WordAddress(m: Mem, t: Table, w: nat): (r: nat)
    requires t.base + t.pages <= |m.ptes| && w < t.pages * PAGE_WORDS
    ensures r < TOTAL_WORDS
  {
    m.ptes[t.base + w / PAGE_WORDS].frame * PAGE_WORDS + w % PAGE_WORDS
  }

  /** The virtual memory a process sees, word by word. */
  ghost function View(m: Mem, t: Table): (v: seq<u32>)
    requires |m.words| == TOTAL_WORDS && t.base + t.pages <= |m.ptes|
    ensures |v| == t.pages * PAGE_WORDS
  {
    seq(t.pages * PAGE_WORDS, w requires 0 <= w < t.pages * PAGE_WORDS =>
          m.words[WordAddress(m, t, w)])
  }

  /** Byte translation and word view agree: an access at byte `va` touches view word `va / 4`. */
  lemma TranslateIsWord(m: Mem, t: Table, va: u32)
    requires Shaped(m) && Backed(m, t) && va / WORD_SIZE < t.pages * PAGE_WORDS
    ensures Mapped(m, t.base, va)
    ensures Translate(m, t.base, va) == WordAddress(m, t, va / WORD_SIZE)
  {
    var w := va / 4;
    assert va / 4096 == w / 1024;
    assert va % 4096 == 4 * (w % 1024) + va % 4;
    var f := m.ptes[EntryIndex(t.base, va)].frame;
    assert f * 4096 + va % 4096 == 4 * (f * 1024 + w % 1024) + va % 4;
  }

  /** A mapped load returns the word the view shows. */
  lemma ReadSeesView(m: Mem, t: Table, va: u32)
    requires Shaped(m) && Backed(m, t) && va / WORD_SIZE < t.pages * PAGE_WORDS
    ensures MmuRead(m, t.base, va) == View(m, t)[va / WORD_SIZE]
  {
    TranslateIsWord(m, t, va);
  }

  /** Distinct words of backed tables live at distinct physical addresses. */
  lemma AddressesExclusive(m: Mem, t: Table, u: Table, w: nat, z: nat)
    requires Wf(m) && Backed(m, t) && Backed(m, u)
    requires w < t.pages * PAGE_WORDS && z < u.pages * PAGE_WORDS
    requires t.base + w / PAGE_WORDS != u.base + z / PAGE_WORDS || w % PAGE_WORDS != z % PAGE_WORDS
    ensures WordAddress(m, t, w) != WordAddress(m, u, z)
  {
    var x, y := t.base + w / PAGE_WORDS, u.base + z / PAGE_WORDS;
    if x != y {
      assert m.ptes[x].present && m.ptes[y].present;
      assert m.ptes[x].frame != m.ptes[y].frame by {
        if x < y { } else { assert y < x; }
      }
    }
  }

  /** No word of a process lies among those of the kernel. */
  lemma ProcessesAboveKernel(m: Mem, t: Table, w: nat)
    requires Wf(m) && Backed(m, t) && w < t.pages * PAGE_WORDS
    ensures KERNEL_WORDS <= WordAddress(m, t, w) < TOTAL_FRAMES * PAGE_WORDS == TOTAL_WORDS
  {
    assert m.ptes[t.base + w / PAGE_WORDS].present;
  }

  lemma StoreKeepsOthers(m: Mem, t: Table, va: u32, v: u32, u: Table)
    requires Wf(m) && Backed(m, t) && va / WORD_SIZE < t.pages * PAGE_WORDS && Backed(m, u) && Disjoint(t, u)
    ensures Backed(MmuWrite(m, t.base, va, v), u) && View(MmuWrite(m, t.base, va, v), u) == View(m, u)
  {
    var m' := MmuWrite(m, t.base, va, v);
    TranslateIsWord(m, t, va);
    forall w: nat | w < u.pages * PAGE_WORDS ensures View(m', u)[w] == View(m, u)[w] {
      AddressesExclusive(m, t, u, va / WORD_SIZE, w);
    }
  }

  lemma {:induction false} StoreWrites(m: Mem, t: Table, va: u32, v: u32)
    requires Wf(m) && Backed(m, t) && va / WORD_SIZE < t.pages * PAGE_WORDS
    ensures Backed(MmuWrite(m, t.base, va, v), t)
    ensures View(MmuWrite(m, t.base, va, v), t) == View(m, t)[va / WORD_SIZE := v]
  {
    var m', k := MmuWrite(m, t.base, va, v), va / WORD_SIZE;
    TranslateIsWord(m, t, va);
    forall w: nat | w < t.pages * PAGE_WORDS
      ensures View(m', t)[w] == View(m, t)[k := v][w]
    {
      if w != k {
        assert w / 1024 != k / 1024 || w % 1024 != k % 1024;
        AddressesExclusive(m, t, t, w, k);
      }
    }
  }

  /** A mapped store changes exactly one word of one process's view, and keeps the isolation. */
  lemma {:induction false} StoreIsLocal(m: Mem, t: Table, va: u32, v: u32)
    requires Wf(m) && Backed(m, t) && va / WORD_SIZE < t.pages * PAGE_WORDS
    ensures Wf(MmuWrite(m, t.base, va, v))
    ensures Backed(MmuWrite(m, t.base, va, v), t)
    ensures View(MmuWrite(m, t.base, va, v), t) == View(m, t)[va / WORD_SIZE := v]
    ensures forall u: Table :: Backed(m, u) && Disjoint(t, u) ==>
              Backed(MmuWrite(m, t.base, va, v), u) && View(MmuWrite(m, t.base, va, v), u) == View(m, u)
  {
    StoreWrites(m, t, va, v);
    forall u: Table | Backed(m, u) && Disjoint(t, u)
      ensures Backed(MmuWrite(m, t.base, va, v), u) && View(MmuWrite(m, t.base, va, v), u) == View(m, u)
    {
      StoreKeepsOthers(m, t, va, v, u);
    }
  }

  /** A store marks the entry of its page as dirty and accessed, leaves its other fields and every other
      entry alone, and takes no frame. */
  lemma StoreMarks(m: Mem, t: Table, va: u32, v: u32)
    requires Wf(m) && Backed(m, t) && va / WORD_SIZE < t.pages * PAGE_WORDS
    ensures var m', x := MmuWrite(m, t.base, va, v), t.base + va / PAGE_SIZE;
            && x < t.base + t.pages && m'.ptes[x].dirty && m'.ptes[x].accessed
            && m'.ptes[x].frame == m.ptes[x].frame && m'.ptes[x].present == m.ptes[x].present
            && m'.ptes[x].rw == m.ptes[x].rw && m'.ptes[x].user == m.ptes[x].user
            && |m'.ptes| == |m.ptes| && (forall y :: 0 <= y < |m.ptes| && y != x ==> m'.ptes[y] == m.ptes[y])
            && m'.bitmap == m.bitmap && m'.nextKernel == m.nextKernel && m'.totalAllocated == m.totalAllocated
  {
    assert va / PAGE_SIZE < t.pages;
  }

  /** An access to a page that is not loaded goes to physical word 0; a store marks the entry nevertheless. */
  lemma UnmappedAccess(m: Mem, base: nat, va: u32, v: u32)
    requires Shaped(m) && base + va / PAGE_SIZE < |m.ptes| && !m.ptes[base + va / PAGE_SIZE].present
    ensures var m', x := MmuWrite(m, base, va, v), base + va / PAGE_SIZE;
            && MmuRead(m, base, va) == m.words[0] && m'.words == m.words[0 := v]
            && |m'.ptes| == |m.ptes| && m'.ptes[x].dirty && m'.ptes[x].accessed && !m'.ptes[x].present
            && (forall y :: 0 <= y < |m.ptes| && y != x ==> m'.ptes[y] == m.ptes[y])
  {
  }

  /** An entry of a new page table: writable, for the user, not loaded and not touched. */
  lemma EmptyEntry()
    ensures !EMPTY_ENTRY.present && EMPTY_ENTRY.frame == 0 && EMPTY_ENTRY.rw && EMPTY_ENTRY.user
    ensures !EMPTY_ENTRY.accessed && !EMPTY_ENTRY.dirty
  {
  }

  // ------------------------------------------------------------------ the object

  /** Kernel words holding page-table entries are kept in `entries`, one entry per word. */
  class PhysicalMemory {
    const memory: array<u32>
    const frameBitmap: array<bool>
    const entries: array<PageTableEntry>
    var nextKernel: nat
    var totalAllocated: nat

    ghost function Snapshot(): Mem
      reads this, memory, frameBitmap, entries
    {
      Mem(memory[..], entries[..], frameBitmap[..], nextKernel, totalAllocated)
    }

    ghost predicate Valid()
      reads this, memory, frameBitmap, entries
    {
      Accounted(Snapshot())
    }

    constructor ()
      ensures Valid() && Wf(Snapshot())
      ensures fresh(memory) && fresh(frameBitmap) && fresh(entries)
      ensures nextKernel == 0 && totalAllocated == KERNEL_FRAMES
      ensures forall i :: 0 <= i < TOTAL_FRAMES ==> (frameBitmap[i] <==> i < KERNEL_FRAMES)
      ensures forall i :: 0 <= i < TOTAL_WORDS ==> memory[i] == 0
    {
      memory := new u32[TOTAL_WORDS](_ => 0);
      frameBitmap := new bool[TOTAL_FRAMES](_ => false);
      entries := new PageTableEntry[KERNEL_WORDS](_ => EMPTY_ENTRY);
      nextKernel := 0;
      totalAllocated := KERNEL_FRAMES;
      new;
      for i := 0 to KERNEL_FRAMES
        invariant nextKernel == 0 && totalAllocated == KERNEL_FRAMES
        invariant forall k :: 0 <= k < TOTAL_FRAMES ==> (frameBitmap[k] <==> k < i)
        invariant forall k :: 0 <= k < TOTAL_WORDS ==> memory[k] == 0
        invariant forall k :: 0 <= k < KERNEL_WORDS ==> entries[k] == EMPTY_ENTRY
      {
        frameBitmap[i] := true;
      }
      CountSetPrefix(frameBitmap[..], KERNEL_FRAMES);
    }

    /** Hands out the lowest free user frame; 0 when there is none. */
    method AllocateFrame() returns (r: nat)
      requires Valid()
      modifies this`totalAllocated, frameBitmap
      ensures Valid()
      ensures match LowestFree(old(frameBitmap[..]), KERNEL_FRAMES)
              case None => r == 0 && Snapshot() == old(Snapshot())
              case Some(f) =>
                && r == f
                && Snapshot() == old(Snapshot()).(bitmap := old(frameBitmap[..])[f := true],
                                                  totalAllocated := old(totalAllocated) + 1)
    {
      for i := KERNEL_FRAMES to TOTAL_FRAMES
        invariant frameBitmap[..] == old(frameBitmap[..]) && totalAllocated == old(totalAllocated)
        invariant forall k :: KERNEL_FRAMES <= k < i ==> frameBitmap[k]
      {
        if !frameBitmap[i] {
          frameBitmap[i] := true;
          totalAllocated := totalAllocated + 1;
          CountSetUpdate(old(frameBitmap[..]), i, true);
          assert frameBitmap[..] == old(frameBitmap[..])[i := true];
          return i;
        }
      }
      return 0;
    }

    method FreeFrame(frame: nat)
      requires Valid()
      modifies this`totalAllocated, frameBitmap
      ensures Valid()
      ensures frameBitmap[..] == FreeMany(old(frameBitmap[..]), [frame])
      ensures totalAllocated == CountSet(frameBitmap[..])
    {
      assert FreeMany(frameBitmap[..], []) == frameBitmap[..];
      assert [frame][..0] == [];
      if frame >= TOTAL_FRAMES || frame < KERNEL_FRAMES {
        return;
      }
      if frameBitmap[frame] {
        CountSetUpdate(frameBitmap[..], frame, false);
        frameBitmap[frame] := false;
        totalAllocated := totalAllocated - 1;
        assert frameBitmap[..] == old(frameBitmap[..])[frame := false];
      }
    }

    /** The bound is checked on a 32-bit sum: a size near 2^32 wraps past it, and the mark then moves
        back over words already handed out. */
    method AllocateKernelSpace(size: u32) returns (r: Option<nat>)
      requires Valid()
      modifies this`nextKernel
      ensures Valid()
      ensures r.Some? <==> Wrap(old(nextKernel) + size) <= KERNEL_WORDS
      ensures nextKernel == if r.Some? then Wrap(old(nextKernel) + size) else old(nextKernel)
      ensures r.Some? ==> r.value == old(nextKernel)
      ensures nextKernel >= old(nextKernel) <==> (r.Some? ==> old(nextKernel) + size <= KERNEL_WORDS)
    {
      if Wrap(nextKernel + size) > KERNEL_WORDS {
        return None;
      }
      var address := nextKernel;
      nextKernel := Wrap(nextKernel + size);
      return Some(address);
    }

    method ReadWord(address: nat) returns (v: u32)
      requires Valid()
      ensures v == if address < TOTAL_WORDS then memory[address] else 0
    {
      if address >= TOTAL_WORDS {
        return 0;
      }
      return memory[address];
    }

    method WriteWord(address: nat, v: u32)
      requires Valid()
      modifies memory
      ensures Valid()
      ensures memory[..] == if address < TOTAL_WORDS then old(memory[..])[address := v] else old(memory[..])
    {
      if address < TOTAL_WORDS {
        memory[address] := v;
      }
    }

    /** Entries are one word each, so the table takes `pages` kernel words. A page count whose sum with
        the mark wraps is left to the caller to avoid: the C code then writes past its memory. */
    method CreatePageTable(pages: nat) returns (r: Option<nat>)
      requires Valid() && nextKernel + pages < 0x1_0000_0000
      modifies this`nextKernel, entries
      ensures Valid()
      ensures r.Some? <==> old(nextKernel) + pages <= KERNEL_WORDS
      ensures r.None? ==> Snapshot() == old(Snapshot())
      ensures r.Some? ==>
                && r.value == old(nextKernel)
                && Snapshot() == old(Snapshot()).(nextKernel := nextKernel, ptes := entries[..])
                && nextKernel == r.value + pages
                && forall x :: 0 <= x < KERNEL_WORDS ==>
                     entries[x] == if r.value <= x < r.value + pages then EMPTY_ENTRY else old(entries[x])
    {
      r := AllocateKernelSpace(pages);
      if r.None? {
        return;
      }
      for i := 0 to pages
        invariant Valid() && nextKernel == r.value + pages
        invariant forall x :: 0 <= x < KERNEL_WORDS ==>
          entries[x] == if r.value <= x < r.value + i then EMPTY_ENTRY else old(entries[x])
      {
        entries[r.value + i] := EMPTY_ENTRY;
      }
    }

    method DestroyPageTable(base: nat, pages: nat)
      requires Valid() && base + pages <= KERNEL_WORDS
      modifies this`totalAllocated, frameBitmap
      ensures Valid()
      ensures frameBitmap[..] == FreeMany(old(frameBitmap[..]), PresentFrames(entries[base..base + pages]))
    {
      for i := 0 to pages
        invariant Valid()
        invariant frameBitmap[..] == FreeMany(old(frameBitmap[..]), PresentFrames(entries[base..base + i]))
      {
        assert entries[base..base + i + 1][..i] == entries[base..base + i];
        if entries[base + i].present {
          ghost var fs := PresentFrames(entries[base..base + i]);
          ghost var was := frameBitmap[..];
          FreeFrame(entries[base + i].frame);
          FreeManyAppend(old(frameBitmap[..]), fs, entries[base + i].frame);
        } else {
          assert PresentFrames(entries[base..base + i + 1]) == PresentFrames(entries[base..base + i]);
        }
      }
    }

    static lemma FreeManyAppend(b: seq<bool>, fs: seq<nat>, f: nat)
      requires |b| == TOTAL_FRAMES
      ensures FreeMany(b, fs + [f]) == FreeMany(FreeMany(b, fs), [f])
    {
      assert (fs + [f])[..|fs|] == fs;
      assert [f][..0] == [];
    }

    method TranslateVirtualToPhysical(base: nat, va: u32) returns (r: nat)
      requires Valid()
      ensures r == Translate(Snapshot(), base, va)
    {
      var offset := va % PAGE_SIZE;
      var page := va / PAGE_SIZE;
      if base + page >= entries.Length || !entries[base + page].present {
        return 0;
      }
      var bytes := entries[base + page].frame * PAGE_SIZE + offset;
      return bytes / WORD_SIZE;
    }

    method MmuReadWord(base: nat, va: u32) returns (v: u32)
      requires Valid()
      ensures v == MmuRead(Snapshot(), base, va)
    {
      var physical := TranslateVirtualToPhysical(base, va);
      v := ReadWord(physical);
    }

    method MmuWriteWord(base: nat, va: u32, v: u32)
      requires Valid()
      modifies memory, entries
      ensures Valid()
      ensures Snapshot() == MmuWrite(old(Snapshot()), base, va, v)
    {
      var physical := TranslateVirtualToPhysical(base, va);
      var page := va / PAGE_SIZE;
      if base + page < entries.Length {
        entries[base + page] := Touch(entries[base + page]);
      }
      WriteWord(physical, v);
    }
  }
}
