/** Turning a parsed program into a process: page table, frames and page contents
    (sys/loader.c:217-334). */
module Loader {
  import opened CArith
  import opened Memory
  import opened Process

  /** Sizes are in words, addresses in bytes. */
  datatype Header = Header(codeSize: nat, dataSize: nat, textAddress: u32, dataAddress: u32,
                           priority: int, ttl: int)

  datatype Program = Program(header: Header, code: seq<u32>, data: seq<u32>)

  predicate Sized(p: Program) {
    p.header.codeSize == |p.code| && p.header.dataSize == |p.data|
  }

  function CodeStart(p: Program): nat { p.header.textAddress / WORD_SIZE }

  function CodeEnd(p: Program): nat { CodeStart(p) + p.header.codeSize }

  function DataStart(p: Program): nat { p.header.dataAddress / WORD_SIZE }

  function DataEnd(p: Program): nat { DataStart(p) + p.header.dataSize }

  /** The word the header assigns to virtual word `w`. */
  function Image(p: Program, w: nat): u32
    requires Sized(p)
  {
    if DataStart(p) <= w < DataEnd(p) then p.data[w - DataStart(p)]
    else if CodeStart(p) <= w < CodeEnd(p) then p.code[w - CodeStart(p)]
    else 0
  }

  ghost function ImageOf(p: Program, n: nat): (r: seq<u32>)
    requires Sized(p)
    ensures |r| == n
  {
    seq(n, w requires 0 <= w < n && Sized(p) => Image(p, w))
  }

  ghost function PageImage(p: Program, page: nat): (r: seq<u32>)
    requires Sized(p)
    ensures |r| == PAGE_WORDS
    ensures forall j :: 0 <= j < PAGE_WORDS ==> r[j] == Image(p, page * PAGE_WORDS + j)
  {
    ImageOf(p, (page + 1) * PAGE_WORDS)[page * PAGE_WORDS..]
  }

  /** Where the segments come to lie: each data word at its address, each code word at its own unless data
      lies there, and zeros elsewhere. */
  lemma SegmentsInPlace(p: Program, w: nat)
    requires Sized(p)
    ensures var d, c := w - p.header.dataAddress / 4, w - p.header.textAddress / 4;
            var inData, inCode := 0 <= d < |p.data|, 0 <= c < |p.code|;
            && (inData ==> Image(p, w) == p.data[d])
            && (!inData && inCode ==> Image(p, w) == p.code[c])
            && (!inData && !inCode ==> Image(p, w) == 0)
  {
  }

  /** `calculate_pages_needed`, in 32-bit arithmetic. */
  function PagesNeeded(bytes: u32): nat {
    if bytes == 0 then 0 else Wrap(bytes + PAGE_SIZE - 1) / PAGE_SIZE
  }

  /** Just as many pages as the bytes fill; beyond the last whole page of 32 bits the sum wraps to none. */
  lemma PagesTight(bytes: u32)
    ensures var r := PagesNeeded(bytes);
            && (bytes == 0 || bytes > 0xFFFF_F000 ==> r == 0)
            && (0 < bytes <= 0xFFFF_F000 ==> (r - 1) * 4096 < bytes <= r * 4096)
  {
  }

  /** Pages of the address space from word 0 to the end of the later segment. */
  function PagesOf(p: Program): (n: nat)
    ensures n <= 0x10_0000
  {
    PagesNeeded(Wrap((if DataEnd(p) > CodeEnd(p) then DataEnd(p) else CodeEnd(p)) * WORD_SIZE))
  }

  /** The pages reach just as far as the later of the two segments. */
  lemma PagesOfTight(p: Program)
    ensures var words: int := if DataEnd(p) > CodeEnd(p) then DataEnd(p) else CodeEnd(p);
            && (words == 0 ==> PagesOf(p) == 0)
            && (0 < words <= 0x3FFF_FC00 ==> (PagesOf(p) - 1) * PAGE_WORDS < words <= PagesOf(p) * PAGE_WORDS)
  {
    hide PagesNeeded;
    PagesTight(Wrap((if DataEnd(p) > CodeEnd(p) then DataEnd(p) else CodeEnd(p)) * WORD_SIZE));
  }

  // ------------------------------------------------------------------ one page

  /** Memory after frame `f` has been taken, hooked to entry `x` and filled with `content`. */
  function LoadPage(m: Mem, x: nat, f: nat, content: seq<u32>): Mem
    requires Shaped(m) && x < |m.ptes| && KERNEL_FRAMES <= f < TOTAL_FRAMES && |content| == PAGE_WORDS
  {
    m.(words := m.words[..f * PAGE_WORDS] + content + m.words[f * PAGE_WORDS + PAGE_WORDS..],
       ptes := m.ptes[x := m.ptes[x].(frame := f, present := true, rw := true, user := true)],
       bitmap := m.bitmap[f := true],
       totalAllocated := m.totalAllocated + 1)
  }

  lemma LoadPageWords(m: Mem, x: nat, f: nat, content: seq<u32>)
    requires Shaped(m) && x < |m.ptes| && KERNEL_FRAMES <= f < TOTAL_FRAMES && |content| == PAGE_WORDS
    ensures var m' := LoadPage(m, x, f, content);
            && Shaped(m')
            && (forall i :: 0 <= i < TOTAL_WORDS ==>
                  m'.words[i] == if f * PAGE_WORDS <= i < f * PAGE_WORDS + PAGE_WORDS
                                 then content[i - f * PAGE_WORDS] else m.words[i])
  {
  }

  /** Loading a page into a free frame keeps the isolation and every loaded view. */
  lemma LoadPageIsPrivate(m: Mem, x: nat, f: nat, content: seq<u32>)
    requires Wf(m) && x < m.nextKernel && !m.ptes[x].present
    requires KERNEL_FRAMES <= f < TOTAL_FRAMES && !m.bitmap[f] && |content| == PAGE_WORDS
    ensures var m' := LoadPage(m, x, f, content);
            && Wf(m')
            && forall u: Table :: Backed(m, u) ==> Backed(m', u) && View(m', u) == View(m, u)
  {
    var m' := LoadPage(m, x, f, content);
    LoadPageWords(m, x, f, content);
    CountSetUpdate(m.bitmap, f, true);
    forall u: Table | Backed(m, u) ensures Backed(m', u) && View(m', u) == View(m, u) {
      forall w: nat | w < u.pages * PAGE_WORDS ensures View(m', u)[w] == View(m, u)[w] {
        var y := u.base + w / PAGE_WORDS;
        assert m.ptes[y].present && y != x;
        assert m.ptes[y].frame != f;
      }
    }
  }

  /** Word `w` of a view one page longer. */
  lemma LongerViewAt(m: Mem, m': Mem, t: Table, f: nat, content: seq<u32>, w: nat)
    requires Shaped(m) && t.base + t.pages < |m.ptes| && KERNEL_FRAMES <= f < TOTAL_FRAMES
    requires |content| == PAGE_WORDS && m' == LoadPage(m, t.base + t.pages, f, content)
    requires View(m', t) == View(m, t) && w < (t.pages + 1) * PAGE_WORDS
    ensures View(m', t.(pages := t.pages + 1))[w] == (View(m, t) + content)[w]
  {
    var t' := t.(pages := t.pages + 1);
    LoadPageWords(m, t.base + t.pages, f, content);
    if w < t.pages * PAGE_WORDS {
      assert View(m', t')[w] == View(m', t)[w];
    } else {
      assert w / PAGE_WORDS == t.pages && w % PAGE_WORDS == w - t.pages * PAGE_WORDS;
    }
  }

  /** The page just loaded extends the view of its table. */
  lemma LoadPageExtendsView(m: Mem, t: Table, f: nat, content: seq<u32>)
    requires Wf(m) && Backed(m, t) && t.base + t.pages < m.nextKernel && !m.ptes[t.base + t.pages].present
    requires KERNEL_FRAMES <= f < TOTAL_FRAMES && !m.bitmap[f] && |content| == PAGE_WORDS
    ensures var m' := LoadPage(m, t.base + t.pages, f, content); var t' := t.(pages := t.pages + 1);
            Wf(m') && Backed(m', t') && View(m', t') == View(m, t) + content
  {
    hide View, FramesExclusive, CountSet;
    var x := t.base + t.pages;
    var m', t' := LoadPage(m, x, f, content), t.(pages := t.pages + 1);
    LoadPageIsPrivate(m, x, f, content);
    forall w: nat | w < t'.pages * PAGE_WORDS ensures View(m', t')[w] == (View(m, t) + content)[w] {
      LongerViewAt(m, m', t, f, content, w);
    }
  }

  lemma ImageNextPage(p: Program, page: nat)
    requires Sized(p)
    ensures ImageOf(p, page * PAGE_WORDS) + PageImage(p, page) == ImageOf(p, (page + 1) * PAGE_WORDS)
  {
  }

  // ------------------------------------------------------------------ counting frames

  lemma {:induction false} CountSetFull(b: seq<bool>)
    ensures CountSet(b) <= |b|
    ensures CountSet(b) == |b| <==> forall i :: 0 <= i < |b| ==> b[i]
  {
    if b != [] {
      CountSetFull(b[..|b|-1]);
      assert b == b[..|b|-1] + [b[|b|-1]];
    }
  }

  /** A user frame is free exactly when not all frames are counted as allocated. */
  lemma FrameAvailableIff(m: Mem)
    requires Accounted(m)
    ensures LowestFree(m.bitmap, KERNEL_FRAMES).Some? <==> m.totalAllocated < TOTAL_FRAMES
  {
    CountSetFull(m.bitmap);
  }

  // ------------------------------------------------------------------ the object

  /** A table the loader has handed out: its entries lie below the allocation mark. */
  ghost predicate Owned(m: Mem, u: Table) {
    Backed(m, u) && u.base + u.pages <= m.nextKernel
  }

  class Loader {
    const pm: PhysicalMemory
    var nextPid: int
    var totalLoaded: nat

    constructor (pm: PhysicalMemory)
      ensures this.pm == pm && nextPid == 1 && totalLoaded == 0
    {
      this.pm := pm;
      nextPid, totalLoaded := 1, 0;
    }

    /** Copies the part of a segment that falls into the page. */
    method CopyOverlap(segment: seq<u32>, start: nat, page: nat, frameAddress: nat)
      requires pm.Valid() && frameAddress + PAGE_WORDS <= TOTAL_WORDS
      modifies pm.memory
      ensures pm.Valid()
      ensures forall i :: 0 <= i < TOTAL_WORDS ==>
                pm.memory[i] ==
                if frameAddress <= i < frameAddress + PAGE_WORDS
                   && start <= page * PAGE_WORDS + (i - frameAddress) < start + |segment|
                then segment[page * PAGE_WORDS + (i - frameAddress) - start] else old(pm.memory[i])
    {
      var pageStart := page * PAGE_WORDS;
      var pageEnd := pageStart + PAGE_WORDS;
      var end := start + |segment|;
      if start < pageEnd && end > pageStart {
        var copyStart := if start > pageStart then start else pageStart;
        var copyEnd := if end < pageEnd then end else pageEnd;
        var word := copyStart;
        while word < copyEnd
          invariant copyStart <= word && (word <= copyEnd || copyEnd < copyStart) && pm.Valid()
          invariant forall i :: 0 <= i < TOTAL_WORDS ==>
            pm.memory[i] ==
            if frameAddress <= i && copyStart <= pageStart + (i - frameAddress) < word
            then segment[pageStart + (i - frameAddress) - start] else old(pm.memory[i])
        {
          pm.WriteWord(frameAddress + (word - pageStart), segment[word - start]);
          word := word + 1;
        }
      }
    }

    method ClearFrame(frameAddress: nat)
      requires pm.Valid() && frameAddress + PAGE_WORDS <= TOTAL_WORDS
      modifies pm.memory
      ensures pm.Valid()
      ensures forall i :: 0 <= i < TOTAL_WORDS ==>
                pm.memory[i] == if frameAddress <= i < frameAddress + PAGE_WORDS then 0 else old(pm.memory[i])
    {
      for j := 0 to PAGE_WORDS
        invariant pm.Valid()
        invariant forall i :: 0 <= i < TOTAL_WORDS ==>
          pm.memory[i] == if frameAddress <= i < frameAddress + j then 0 else old(pm.memory[i])
      {
        pm.WriteWord(frameAddress + j, 0);
      }
    }

    /** Zeroes the frame, then copies code and data over it, data last. */
    method FillPage(p: Program, page: nat, f: nat)
      requires pm.Valid() && Sized(p) && f < TOTAL_FRAMES
      modifies pm.memory
      ensures pm.Valid()
      ensures forall i :: 0 <= i < TOTAL_WORDS ==>
                pm.memory[i] == if f * PAGE_WORDS <= i < f * PAGE_WORDS + PAGE_WORDS
                                then PageImage(p, page)[i - f * PAGE_WORDS] else old(pm.memory[i])
    {
      ClearFrame(f * PAGE_WORDS);
      CopyOverlap(p.code, CodeStart(p), page, f * PAGE_WORDS);
      CopyOverlap(p.data, DataStart(p), page, f * PAGE_WORDS);
    }

    /** One page: a frame, its table entry, its contents. False when no frame is left. */
    method LoadOnePage(p: Program, base: nat, page: nat) returns (ok: bool)
      requires pm.Valid() && Sized(p) && base + page < KERNEL_WORDS
      modifies pm`totalAllocated, pm.frameBitmap, pm.entries, pm.memory
      ensures pm.Valid()
      ensures match LowestFree(old(pm.frameBitmap[..]), KERNEL_FRAMES)
              case None => !ok && pm.Snapshot() == old(pm.Snapshot())
              case Some(f) =>
                ok && pm.Snapshot() == LoadPage(old(pm.Snapshot()), base + page, f, PageImage(p, page))
    {
      var f := pm.AllocateFrame();
      if f == 0 {
        return false;
      }
      pm.entries[base + page] := pm.entries[base + page].(frame := f, present := true, rw := true, user := true);
      ghost var m := pm.Snapshot();
      FillPage(p, page, f);
      LoadPageWords(old(pm.Snapshot()), base + page, f, PageImage(p, page));
      assert pm.memory[..] == LoadPage(old(pm.Snapshot()), base + page, f, PageImage(p, page)).words;
      return true;
    }

    /** `create_process_from_program`. A load that fails keeps the frames it took, but every table
        handed out earlier still shows what it showed. */
    method CreateProcess(p: Program) returns (r: Option<PCB>)
      requires pm.Valid() && Wf(pm.Snapshot()) && Sized(p)
      modifies this, pm, pm.frameBitmap, pm.entries, pm.memory
      ensures pm.Valid() && Wf(pm.Snapshot()) && nextPid == old(nextPid) + 1
      ensures r.Some? <==> old(pm.nextKernel) + PagesOf(p) <= KERNEL_WORDS
                           && old(pm.totalAllocated) + PagesOf(p) <= TOTAL_FRAMES
      ensures pm.nextKernel >= old(pm.nextKernel)
      ensures forall u: Table :: Owned(old(pm.Snapshot()), u) ==>
                Owned(pm.Snapshot(), u) && View(pm.Snapshot(), u) == View(old(pm.Snapshot()), u)
      ensures forall x :: 0 <= x < old(pm.nextKernel) ==> x < pm.entries.Length && pm.entries[x] == old(pm.entries[x])
      ensures r.Some? ==> pm.nextKernel == old(pm.nextKernel) + PagesOf(p)
      ensures r.Some? ==> pm.totalAllocated == old(pm.totalAllocated) + PagesOf(p)
      ensures r.Some? ==>
                var t := Table(old(pm.nextKernel), PagesOf(p));
                && r.value == CreatePcb(old(nextPid)).(priority := p.header.priority, ttl := p.header.ttl,
                                                      initialTtl := p.header.ttl, pgb := Some(t.base))
                && Owned(pm.Snapshot(), t) && Untouched(pm.Snapshot(), t)
                && View(pm.Snapshot(), t) == ImageOf(p, t.pages * PAGE_WORDS)
      ensures old(pm.nextKernel) + PagesOf(p) > KERNEL_WORDS ==> pm.Snapshot() == old(pm.Snapshot())
      ensures var base := old(pm.nextKernel);
              base + PagesOf(p) <= KERNEL_WORDS ==>
                && pm.nextKernel == base + PagesOf(p)
                && FreeMany(pm.frameBitmap[..], PresentFrames(pm.entries[base..base + PagesOf(p)]))
                   == old(pm.frameBitmap[..])
    {
      hide View, FramesExclusive, CountSet, ImageOf, PagesOf, FramesTaken, FreeMany, PresentFrames;
      var pcb := CreatePcb(nextPid);
      nextPid := nextPid + 1;
      pcb := pcb.(priority := p.header.priority, ttl := p.header.ttl, initialTtl := p.header.ttl);
      var pages := PagesOf(p);
      ghost var m0 := pm.Snapshot();
      var table := pm.CreatePageTable(pages);
      if table.None? {
        return None;
      }
      var base := table.value;
      pcb := pcb.(pgb := Some(base));
      NoPagesYet(m0, pm.Snapshot(), p, base, pages);
      var loaded := LoadPages(p, base, pages, m0);
      FreeingUndoesLoading(m0, pm.Snapshot(), base, loaded, pages);
      assert pm.Snapshot().ptes[base..base + pages] == pm.entries[base..base + pages];
      if loaded < pages {
        return None;
      }
      totalLoaded := totalLoaded + 1;
      return Some(pcb);
    }

    /** A load followed by the destruction of its page table: bitmap and count of allocated frames are
        what they were, whether the load succeeded, ran out of frames, or got no table. */
    method CreateThenDestroy(p: Program) returns (created: bool)
      requires pm.Valid() && Wf(pm.Snapshot()) && Sized(p)
      modifies this, pm, pm.frameBitmap, pm.entries, pm.memory
      ensures pm.Valid()
      ensures pm.frameBitmap[..] == old(pm.frameBitmap[..]) && pm.totalAllocated == old(pm.totalAllocated)
      ensures created <==> old(pm.nextKernel) + PagesOf(p) <= KERNEL_WORDS
                           && old(pm.totalAllocated) + PagesOf(p) <= TOTAL_FRAMES
    {
      hide View, FramesExclusive, ImageOf, PagesOf, FreeMany, PresentFrames;
      var base, pages := pm.nextKernel, PagesOf(p);
      var pcb := CreateProcess(p);
      created := pcb.Some?;
      if base + pages <= KERNEL_WORDS {
        pm.DestroyPageTable(base, pages);
      }
    }

    /** Page after page until all are in or the frames run out. */
    method LoadPages(p: Program, base: nat, pages: nat, ghost m0: Mem) returns (loaded: nat)
      requires pm.Valid() && Sized(p) && Shaped(m0) && base + pages <= KERNEL_WORDS
      requires PagesLoaded(m0, pm.Snapshot(), p, base, 0, pages)
      modifies pm`totalAllocated, pm.frameBitmap, pm.entries, pm.memory
      ensures pm.Valid() && PagesLoaded(m0, pm.Snapshot(), p, base, loaded, pages)
      ensures pm.totalAllocated <= TOTAL_FRAMES
      ensures loaded < pages ==> pm.totalAllocated == TOTAL_FRAMES
    {
      loaded := 0;
      var ok := true;
      while ok && loaded < pages
        invariant loaded <= pages && pm.Valid()
        invariant PagesLoaded(m0, pm.Snapshot(), p, base, loaded, pages)
        invariant !ok ==> LowestFree(pm.frameBitmap[..], KERNEL_FRAMES).None?
        decreases ok, pages - loaded
      {
        ghost var m := pm.Snapshot();
        ok := LoadOnePage(p, base, loaded);
        if ok {
          PagesLoadedNext(m0, m, p, base, loaded, pages);
          loaded := loaded + 1;
        }
      }
      FrameAvailableIff(pm.Snapshot());
      CountSetFull(pm.frameBitmap[..]);
    }
  }

  /** Every table of `m` is still there in `m'`, entry for entry, and shows the same. */
  ghost predicate KeepsTables(m: Mem, m': Mem)
    requires Shaped(m) && Shaped(m')
  {
    && m.nextKernel <= m'.nextKernel && m.nextKernel <= |m.ptes|
    && (forall x :: 0 <= x < m.nextKernel ==> m'.ptes[x] == m.ptes[x])
    && forall u: Table :: Owned(m, u) ==> Owned(m', u) && View(m', u) == View(m, u)
  }

  /** The entries of the first `page` pages name, in order, the frames that as many allocations hand
      out from the bitmap of `m0`, and no other bit has changed. */
  ghost predicate FramesTaken(m0: Mem, m: Mem, base: nat, page: nat)
    requires Shaped(m0) && Shaped(m) && base + page <= KERNEL_WORDS
  {
    AllocateMany(m0.bitmap, page) == Some((PresentFrames(m.ptes[base..base + page]), m.bitmap))
  }

  /** The first `page` of `pages` pages of `p` are in place. */
  ghost predicate PagesLoaded(m0: Mem, m: Mem, p: Program, base: nat, page: nat, pages: nat)
    requires Sized(p) && Shaped(m0)
  {
    && Wf(m) && page <= pages && m.nextKernel == base + pages
    && FramesTaken(m0, m, base, page)
    && m.totalAllocated == m0.totalAllocated + page
    && base == m0.nextKernel && (forall x :: base + page <= x < base + pages ==> m.ptes[x] == EMPTY_ENTRY)
    && KeepsTables(m0, m)
    && Backed(m, Table(base, page)) && Untouched(m, Table(base, page))
    && View(m, Table(base, page)) == ImageOf(p, page * PAGE_WORDS)
  }

  lemma FramesTakenNext(m0: Mem, m: Mem, base: nat, page: nat, content: seq<u32>)
    requires Shaped(m0) && Accounted(m) && base + page < KERNEL_WORDS && |content| == PAGE_WORDS
    requires FramesTaken(m0, m, base, page) && LowestFree(m.bitmap, KERNEL_FRAMES).Some?
    ensures var f := LowestFree(m.bitmap, KERNEL_FRAMES).value;
            FramesTaken(m0, LoadPage(m, base + page, f, content), base, page + 1)
  {
    hide LowestFree;
    var f := LowestFree(m.bitmap, KERNEL_FRAMES).value;
    var es := LoadPage(m, base + page, f, content).ptes[base..base + page + 1];
    assert es[..page] == m.ptes[base..base + page];
    assert es[page].present && es[page].frame == f;
  }

  /** Entries that are not present name no frame. */
  lemma {:induction false} AbsentTail(es: seq<PageTableEntry>, k: nat)
    requires k <= |es| && forall x :: k <= x < |es| ==> !es[x].present
    ensures PresentFrames(es) == PresentFrames(es[..k])
  {
    if k < |es| {
      AbsentTail(es[..|es|-1], k);
      assert es[..|es|-1][..k] == es[..k];
    } else {
      assert es[..k] == es;
    }
  }

  /** Freeing the frames of a table's present entries undoes the allocations that filled it, however
      many of its pages were filled. */
  lemma FreeingUndoesLoading(m0: Mem, m: Mem, base: nat, page: nat, pages: nat)
    requires Shaped(m0) && Shaped(m) && page <= pages && base + pages <= KERNEL_WORDS
    requires FramesTaken(m0, m, base, page)
    requires forall x :: base + page <= x < base + pages ==> !m.ptes[x].present
    ensures FreeMany(m.bitmap, PresentFrames(m.ptes[base..base + pages])) == m0.bitmap
  {
    hide AllocateMany, FreeMany;
    var es := m.ptes[base..base + pages];
    AbsentTail(es, page);
    assert es[..page] == m.ptes[base..base + page];
    AllocateThenFree(m0.bitmap, page);
  }

  lemma PagesLoadedNext(m0: Mem, m: Mem, p: Program, base: nat, page: nat, pages: nat)
    requires Sized(p) && Shaped(m0) && PagesLoaded(m0, m, p, base, page, pages) && page < pages
    requires LowestFree(m.bitmap, KERNEL_FRAMES).Some?
    ensures var f := LowestFree(m.bitmap, KERNEL_FRAMES).value;
            PagesLoaded(m0, LoadPage(m, base + page, f, PageImage(p, page)), p, base, page + 1, pages)
  {
    hide View, FramesExclusive, CountSet, ImageOf, PageImage, FramesTaken;
    var f := LowestFree(m.bitmap, KERNEL_FRAMES).value;
    FramesTakenNext(m0, m, base, page, PageImage(p, page));
    LoadPageIsPrivate(m, base + page, f, PageImage(p, page));
    LoadPageExtendsView(m, Table(base, page), f, PageImage(p, page));
    ImageNextPage(p, page);
  }

  /** A fresh page table disturbs nothing. */
  lemma TableIsEmpty(m: Mem, m': Mem, base: nat, pages: nat)
    requires Wf(m) && Accounted(m') && base == m.nextKernel && base + pages <= KERNEL_WORDS
    requires m' == m.(nextKernel := base + pages, ptes := m'.ptes)
    requires forall x :: 0 <= x < KERNEL_WORDS ==>
               m'.ptes[x] == if base <= x < base + pages then EMPTY_ENTRY else m.ptes[x]
    ensures Wf(m') && KeepsTables(m, m') && Backed(m', Table(base, 0))
  {
    forall u: Table | Owned(m, u) ensures Owned(m', u) && View(m', u) == View(m, u) {
    }
  }

  lemma NoPagesYet(m: Mem, m': Mem, p: Program, base: nat, pages: nat)
    requires Wf(m) && Accounted(m') && base == m.nextKernel && base + pages <= KERNEL_WORDS
    requires m' == m.(nextKernel := base + pages, ptes := m'.ptes)
    requires forall x :: 0 <= x < KERNEL_WORDS ==>
               m'.ptes[x] == if base <= x < base + pages then EMPTY_ENTRY else m.ptes[x]
    requires Sized(p)
    ensures PagesLoaded(m, m', p, base, 0, pages)
  {
    TableIsEmpty(m, m', base, pages);
  }
}
