/** The parts joined: what vmm_init leaves is what the heap and the first new address space need. */
module Boot {
  import opened Outcomes
  import opened Bits
  import opened Pte
  import opened PageTable
  import opened VirtualMemory
  import opened VmmInit
  import opened NextFit
  import opened KernelHeap

  /** The kernel's flat table is the one that vmm_init promises. */
  ghost predicate BootMap(s: State, kernel: nat, img: Image, hhdm: nat) {
    forall v :: IsVpn(v) ==> Slot(s.mem, kernel, v) == InitialEntry(img, hhdm, AddressOf(v))
  }

  /** The entry of a canonical page, by its address. */
  lemma InitialAt(s: State, kernel: nat, img: Image, hhdm: nat, a: nat)
    requires BootMap(s, kernel, img, hhdm) && CanonicalPage(a)
    ensures Slot(s.mem, kernel, PageOf(a)) == InitialEntry(img, hhdm, a)
  {
    AddressOfPage(a);
  }

  /** The kernel image lies outside the direct map of all frames. */
  ghost predicate ImageApart(img: Image, hhdm: nat, top: nat) {
    forall p :: 0 <= p < top ==> !InImage(img, hhdm + p * PAGE_SIZE)
  }

  lemma DirectFrame(s: State, kernel: nat, img: Image, hhdm: nat, p: nat)
    requires BootMap(s, kernel, img, hhdm) && ImageOk(img) && DirectMapOk(hhdm)
    requires DirectFits(hhdm, |s.mem|) && p < |s.mem| && !InImage(img, hhdm + p * PAGE_SIZE)
    ensures var e := Slot(s.mem, kernel, DirectPage(hhdm, p)); Present(e) ==> FrameOf(e) == p && Writable(e)
  {
    DirectCanonical(hhdm, |s.mem|, p);
    InitialAt(s, kernel, img, hhdm, hhdm + p * PAGE_SIZE);
    DirectEntry(img, hhdm, p);
  }

  lemma DirectEntry(img: Image, hhdm: nat, p: nat)
    requires ImageOk(img) && DirectMapOk(hhdm) && !InImage(img, hhdm + p * PAGE_SIZE)
    ensures var e := InitialEntry(img, hhdm, hhdm + p * PAGE_SIZE); Present(e) ==> FrameOf(e) == p && Writable(e)
  {
    if PAGE_SIZE <= p * PAGE_SIZE < LOW_TOP {
      LowFrames(img, hhdm, p * PAGE_SIZE);
      LowEntryRights(img, hhdm, p * PAGE_SIZE);
    } else {
      BoundExactly(img, hhdm, hhdm + p * PAGE_SIZE);
    }
  }

  /** So every bound page of the direct map leads to its own frame, which is where the heap starts from. */
  lemma DirectWindow(s: State, kernel: nat, img: Image, hhdm: nat)
    requires BootMap(s, kernel, img, hhdm) && ImageOk(img) && DirectMapOk(hhdm)
    requires DirectFits(hhdm, |s.mem|) && ImageApart(img, hhdm, |s.mem|)
    ensures WindowOk(Window(s, kernel, hhdm))
  {
    forall p | 0 <= p < |s.mem|
      ensures var e := Slot(s.mem, kernel, DirectPage(hhdm, p)); Present(e) ==> FrameOf(e) == p && Writable(e)
    {
      DirectFrame(s, kernel, img, hhdm, p);
    }
  }

  /** vmm_init, then an empty heap in a valid state. */
  method BootHeap(vm: Vmm, img: Image) returns (r: Outcome<Heap>)
    requires vm.Valid() && vm.shape == map[] && DirectMapOk(vm.hhdm) && ImageOk(img)
    requires DirectFits(vm.hhdm, vm.pmm.top) && ImageApart(img, vm.hhdm, vm.pmm.top)
    modifies vm`kernel, vm`shape, vm.pmm`prev, vm.pmm`ram, vm.pmm.bitmap
    ensures r.Done? ==> fresh(r.value) && r.value.vm == vm && r.value.Valid() && r.value.live == map[]
    ensures r.Done? ==> OnlyRoot(vm.shape, vm.kernel) && Coherent(vm.shape, vm.pmm.ram, vm.kernel)
    ensures r.Done? ==> BootMap(vm.Tables(), vm.kernel, img, vm.hhdm)
    ensures r.Halted? ==> Full(vm.pmm.Used())
  {
    var _ :- Init(vm, img);
    DirectWindow(vm.Tables(), vm.kernel, img, vm.hhdm);
    var heap := new Heap(vm);
    return Done(heap);
  }

  /** Whether vmm_init has bound that page. */
  ghost predicate FrameKept(img: Image, hhdm: nat, f: nat) {
    Present(InitialEntry(img, hhdm, AddressOf(DoubledPage(hhdm, f))))
  }

  lemma FrameKeptAt(s: State, kernel: nat, img: Image, hhdm: nat, f: nat)
    requires BootMap(s, kernel, img, hhdm)
    ensures Present(Slot(s.mem, kernel, DoubledPage(hhdm, f))) <==> FrameKept(img, hhdm, f)
  {
  }

  /** With the base at a multiple of 2^47 it has for exactly the frames below 4 GiB. */
  lemma FrameKeptIff(img: Image, hhdm: nat, f: nat)
    requires ImageOk(img) && DirectMapOk(hhdm) && hhdm % 0x8000_0000_0000 == 0 && 0 < f < 0x8_0000_0000
    ensures FrameKept(img, hhdm, f) <==> f < LOW_TOP / PAGE_SIZE
  {
    DoubledAddress(hhdm, f);
    LowBoundIff(img, hhdm, f * PAGE_SIZE);
  }

  lemma DoubledAddress(hhdm: nat, f: nat)
    requires hhdm % 0x8000_0000_0000 == 0 && f < 0x8_0000_0000
    ensures DoubledPage(hhdm, f) == PageOf(f * PAGE_SIZE) && AddressOf(DoubledPage(hhdm, f)) == f * PAGE_SIZE
  {
    DoubleOffset(f, hhdm);
    FramePage(f, f * PAGE_SIZE);
  }

  lemma FramePage(f: nat, a: nat)
    requires f < 0x8_0000_0000 && a == f * PAGE_SIZE
    ensures AddressOf(PageOf(a)) == a
  {
    AddressOfPage(a);
  }

  lemma LowBoundIff(img: Image, hhdm: nat, a: nat)
    requires ImageOk(img) && DirectMapOk(hhdm) && PAGE_SIZE <= a < 0x8000_0000_0000
    ensures Present(InitialEntry(img, hhdm, a)) <==> a < LOW_TOP
  {
    LowNotInImage(img, a);
    BoundExactly(img, hhdm, a);
  }

  lemma LowNotInImage(img: Image, a: nat)
    requires ImageOk(img) && a < 0x8000_0000_0000
    ensures !InImage(img, a)
  {
    LowNotInSegment(img.textStart, img.textEnd, a);
    LowNotInSegment(img.rodataStart, img.rodataEnd, a);
    LowNotInSegment(img.dataStart, img.dataEnd, a);
  }

  lemma LowNotInSegment(start: nat, end: nat, a: nat)
    requires SegmentOk(start, end) && a < 0x8000_0000_0000
    ensures !InSegment(a, start, end)
  {
    PagesSpan(start, end);
  }

  /** For a higher frame vmm_new binds the page to a frame that is not f: at this base it names one 2^40 - 2^35 on. */
  lemma FrameMisnamed(f: nat, hhdm: nat)
    requires hhdm == 0xffff_8000_0000_0000 && f < 0x8_0000_0000
    ensures var w := Doubled(hhdm, f).word;
      Present(w) && Writable(w) && FrameOf(w) == f + (FRAMES - 0x8_0000_0000) && FrameOf(w) != f
  {
    var x := f * PAGE_SIZE + hhdm;
    WrongFrame(x, f);
    assert x % TWO64 == x;
  }

  lemma {:induction false} WrongFrame(x: nat, f: nat)
    requires x == f * PAGE_SIZE + 0xffff_8000_0000_0000 && f < 0x8_0000_0000
    ensures Present(Or(x, RW)) && Writable(Or(x, RW)) && FrameOf(Or(x, RW)) == f + (FRAMES - 0x8_0000_0000)
  {
    FlagRights();
    OrRights(x, RW);
    PresentWord(x, RW);
    FrameOfOr(x, RW);
    assert x / PAGE_SIZE == f + 0xf_fff8_0000_0000;
    Quotient(x / PAGE_SIZE, FRAMES, 0xfff, f + (FRAMES - 0x8_0000_0000));
  }

  /** The new root translates as the kernel does. */
  ghost predicate Twin(s: State, kernel: nat, root: nat) {
    forall v :: IsVpn(v) ==> Slot(s.mem, root, v) == Slot(s.mem, kernel, v)
  }

  lemma AddedTwin(s: State, s': State, kernel: nat, page: nat, root: nat)
    requires SpaceAdded(s, s', kernel, page, root)
    ensures Twin(s', kernel, root)
  {
    forall v | IsVpn(v)
      ensures Slot(s'.mem, root, v) == Slot(s'.mem, kernel, v)
    {
      SpaceTranslates(s, s', kernel, page, root, v);
    }
  }

  lemma BootMapKeptIff(s: State, s': State, kernel: nat, page: nat, root: nat, img: Image, hhdm: nat)
    requires BootMap(s, kernel, img, hhdm) && OnlyRoot(s.shape, kernel)
    requires SpaceNew(s, s', kernel, page, root, Doubled(hhdm, page), Doubled(hhdm, root))
    ensures BootMap(s', kernel, img, hhdm) <==> FrameKept(img, hhdm, page) && FrameKept(img, hhdm, root)
  {
    FrameKeptAt(s, kernel, img, hhdm, page);
    FrameKeptAt(s, kernel, img, hhdm, root);
    NewUnchangedIff(s, s', kernel, hhdm, page, root);
    SameMapIff(s, s', kernel, img, hhdm);
  }

  lemma SameMapIff(s: State, s': State, kernel: nat, img: Image, hhdm: nat)
    requires BootMap(s, kernel, img, hhdm) && OnlyRoot(s.shape, kernel)
    ensures BootMap(s', kernel, img, hhdm) <==> SameSlots(s.shape, s.mem, s'.mem)
  {
    assert SameSlots(s.shape, s.mem, s'.mem) <==>
      forall v :: IsVpn(v) ==> Slot(s'.mem, kernel, v) == Slot(s.mem, kernel, v);
  }

  /**
   vmm_new in the state vmm_init leaves. The new space translates as the kernel does, and the kernel keeps the map of
   vmm_init exactly when both frames that the allocator chooses next are kept ones.
   */
  method FirstSpace(vm: Vmm, img: Image) returns (r: Outcome<(nat, nat)>)
    requires vm.Valid() && OnlyRoot(vm.shape, vm.kernel) && BootMap(vm.Tables(), vm.kernel, img, vm.hhdm)
    modifies vm`shape, vm.pmm`prev, vm.pmm`ram, vm.pmm.bitmap
    ensures vm.Valid()
    ensures r.Done? ==> NextPair(old(vm.pmm.Abs())) == Some(r.value)
    ensures r.Done? ==> IsRoot(vm.shape, r.value.1) && Twin(vm.Tables(), vm.kernel, r.value.1)
    ensures r.Done? ==>
      (BootMap(vm.Tables(), vm.kernel, img, vm.hhdm) <==>
        FrameKept(img, vm.hhdm, r.value.0) && FrameKept(img, vm.hhdm, r.value.1))
    ensures r.Halted? ==> Full(vm.pmm.Used())
  {
    ghost var s := vm.Tables();
    r := vm.NewSpace();
    if r.Done? {
      AddedTwin(s, vm.Tables(), vm.kernel, r.value.0, r.value.1);
      BootMapKeptIff(s, vm.Tables(), vm.kernel, r.value.0, r.value.1, img, vm.hhdm);
    }
  }

  /** Every address space translates every page as the kernel does. */
  ghost predicate Agree(s: State, kernel: nat) {
    forall r, v :: IsRoot(s.shape, r) && IsVpn(v) ==> Slot(s.mem, r, v) == Slot(s.mem, kernel, v)
  }

  /** All spaces share the kernel's table for the lowest 512 GiB. */
  ghost predicate LowShared(s: State, kernel: nat) {
    Present(Entry(s.mem, kernel, 0)) && forall r :: IsRoot(s.shape, r) ==> Entry(s.mem, r, 0) == Entry(s.mem, kernel, 0)
  }

  /** What all of the kernel's calls keep. */
  ghost predicate SpacesOk(s: State, kernel: nat, hhdm: nat) {
    && Sound(s) && IsRoot(s.shape, kernel) && DirectFits(hhdm, |s.mem|)
    && Coherent(s.shape, s.mem, kernel) && Agree(s, kernel) && LowShared(s, kernel)
  }

  /** vmm_init establishes it. */
  lemma BootSpaces(s: State, kernel: nat, img: Image, hhdm: nat)
    requires Sound(s) && OnlyRoot(s.shape, kernel) && Coherent(s.shape, s.mem, kernel) && BootMap(s, kernel, img, hhdm)
    requires ImageOk(img) && DirectMapOk(hhdm) && DirectFits(hhdm, |s.mem|)
    ensures SpacesOk(s, kernel, hhdm)
  {
    FirstEntryPresent(s, kernel, img, hhdm);
  }

  lemma FirstEntryPresent(s: State, kernel: nat, img: Image, hhdm: nat)
    requires BootMap(s, kernel, img, hhdm) && ImageOk(img) && DirectMapOk(hhdm)
    ensures Present(Entry(s.mem, kernel, 0))
  {
    InitialAt(s, kernel, img, hhdm, PAGE_SIZE);
    LowBoundIff(img, hhdm, PAGE_SIZE);
    LowRoot(PAGE_SIZE);
    BoundBelow(s.mem, kernel, PageOf(PAGE_SIZE));
  }

  lemma BoundBelow(mem: Memory, r: nat, v: Vpn)
    requires Present(Slot(mem, r, v))
    ensures Present(Entry(mem, r, v.i4))
  {
  }

  /** Addresses below 512 GiB are in the part of the first root entry. */
  lemma LowRoot(a: nat)
    requires a < 0x80_0000_0000
    ensures PageOf(a).i4 == 0
  {
  }

  /** The machine's frames, at this base, are named by pages below 512 GiB. */
  predicate LowMachine(hhdm: nat, top: nat) { hhdm % 0x8000_0000_0000 == 0 && top <= 0x800_0000 }

  lemma LowDoubled(hhdm: nat, top: nat, f: nat)
    requires LowMachine(hhdm, top) && f < top
    ensures DoubledPage(hhdm, f).i4 == 0
  {
    DoubledAddress(hhdm, f);
    LowRoot(f * PAGE_SIZE);
  }

  /** The direct map lies in the higher half. */
  lemma DirectHigh(hhdm: nat, top: nat, p: nat)
    requires DirectFits(hhdm, top) && p < top
    ensures DirectPage(hhdm, p).i4 >= 256
  {
    var q := (hhdm + p * PAGE_SIZE) / 0x80_0000_0000;
    assert 0x1ff_ff00 <= q < 0x200_0000;
    Quotient(q, 512, 0xffff, q - 0x1ff_fe00);
  }

  /** Calls confined to the direct map keep low pages, and the higher half goes on agreeing. */
  lemma ConfinedSlots(s: State, s': State, kernel: nat, hhdm: nat, b: nat, n: nat, r: nat, v: Vpn)
    requires IsRoot(s.shape, r) && IsVpn(v) && v.i4 < 256 && DirectFits(hhdm, |s.mem|) && b + n <= |s.mem|
    requires OthersKept(s, s', kernel, hhdm, b, n)
    ensures Slot(s'.mem, r, v) == Slot(s.mem, r, v)
  {
    if p: nat :| In(p, b, n) && v == DirectPage(hhdm, p) {
      DirectHigh(hhdm, |s.mem|, p);
    }
  }

  lemma HeapKeepsSpaces(s: State, s': State, kernel: nat, hhdm: nat, b: nat, n: nat)
    requires SpacesOk(s, kernel, hhdm) && Sound(s') && |s'.mem| == |s.mem| && b + n <= |s.mem|
    requires OthersKept(s, s', kernel, hhdm, b, n) && TablesKept(s, s')
    ensures SpacesOk(s', kernel, hhdm)
  {
    CoherenceKept(s, s', kernel);
    forall r, v | IsRoot(s'.shape, r) && IsVpn(v)
      ensures Slot(s'.mem, r, v) == Slot(s'.mem, kernel, v)
    {
      if v.i4 >= 256 {
        HigherHalfAgrees(s'.shape, s'.mem, kernel, r, v);
      } else {
        assert IsRoot(s.shape, r);
        ConfinedSlots(s, s', kernel, hhdm, b, n, r, v);
        ConfinedSlots(s, s', kernel, hhdm, b, n, kernel, v);
      }
    }
  }

  /** Writes to frames that are no tables change nothing of it. */
  lemma WriteKeepsSpaces(s: State, s': State, kernel: nat, hhdm: nat, p: nat, i: nat, w: nat)
    requires SpacesOk(s, kernel, hhdm) && p < |s.mem| && i < |s.mem[p]| && p !in s.shape
    requires s' == s.(mem := SetEntry(s.mem, p, i, w))
    ensures SpacesOk(s', kernel, hhdm)
  {
    TablesAlone(s, s');
    assert forall t, j :: t in s.shape ==> Entry(s'.mem, t, j) == Entry(s.mem, t, j);
  }

  /** vmm_new: old spaces see its pages through the table they share, and the new one is the kernel's twin. */
  lemma NewKeepsSpaces(s: State, s': State, kernel: nat, hhdm: nat, page: nat, root: nat)
    requires SpacesOk(s, kernel, hhdm) && Sound(s') && LowMachine(hhdm, |s.mem|)
    requires SpaceNew(s, s', kernel, page, root, Doubled(hhdm, page), Doubled(hhdm, root))
    ensures SpacesOk(s', kernel, hhdm)
  {
    SpaceCoherent(s, s', kernel, page, root);
    NewKeepsShared(s, s', kernel, page, root);
    forall r, v | IsRoot(s'.shape, r) && IsVpn(v)
      ensures Slot(s'.mem, r, v) == Slot(s'.mem, kernel, v)
    {
      if v.i4 == 0 {
        assert Entry(s'.mem, r, 0) == Entry(s'.mem, kernel, 0);
      } else if v.i4 >= 256 {
        HigherHalfAgrees(s'.shape, s'.mem, kernel, r, v);
      } else if r == root {
        SpaceTranslates(s, s', kernel, page, root, v);
      } else {
        NewChangesLow(s, s', kernel, hhdm, page, root, r, v);
        NewChangesLow(s, s', kernel, hhdm, page, root, kernel, v);
      }
    }
  }

  lemma NewKeepsShared(s: State, s': State, kernel: nat, page: nat, root: nat)
    requires IsRoot(s.shape, kernel) && LowShared(s, kernel) && SpaceAdded(s, s', kernel, page, root)
    ensures LowShared(s', kernel)
  {
  }

  /** Pages above 512 GiB keep their translation. */
  lemma NewChangesLow(s: State, s': State, kernel: nat, hhdm: nat, page: nat, root: nat, r: nat, v: Vpn)
    requires SpaceNew(s, s', kernel, page, root, Doubled(hhdm, page), Doubled(hhdm, root))
    requires LowMachine(hhdm, |s.mem|) && IsRoot(s.shape, r) && IsVpn(v) && v.i4 > 0
    ensures Slot(s'.mem, r, v) == Slot(s.mem, r, v)
  {
    LowDoubled(hhdm, |s.mem|, page);
    LowDoubled(hhdm, |s.mem|, root);
  }

  lemma NewKeepsWindow(s: State, s': State, kernel: nat, hhdm: nat, page: nat, root: nat)
    requires SpaceNew(s, s', kernel, page, root, Doubled(hhdm, page), Doubled(hhdm, root))
    requires LowMachine(hhdm, |s.mem|) && IsRoot(s.shape, kernel) && DirectFits(hhdm, |s.mem|)
    ensures Window(s', kernel, hhdm) == Window(s, kernel, hhdm)
  {
    forall p | 0 <= p < |s.mem|
      ensures Window(s', kernel, hhdm)[p] == Window(s, kernel, hhdm)[p]
    {
      DirectHigh(hhdm, |s.mem|, p);
      DirectDistinct(hhdm, |s.mem|, p, p);
      NewChangesLow(s, s', kernel, hhdm, page, root, kernel, DirectPage(hhdm, p));
    }
  }

  /** The heap does not notice a new address space. */
  lemma NewKeepsHeap(s: State, s': State, kernel: nat, hhdm: nat, page: nat, root: nat, live: map<nat, Block>)
    requires HeapOk(s, Window(s, kernel, hhdm), hhdm, live)
    requires SpaceAdded(s, s', kernel, page, root) && Window(s', kernel, hhdm) == Window(s, kernel, hhdm)
    ensures HeapOk(s', Window(s', kernel, hhdm), hhdm, live)
  {
    forall b | b in live
      ensures BlockOk(s', Window(s', kernel, hhdm), hhdm, b, live[b])
    {
      assert BlockOk(s, Window(s, kernel, hhdm), hhdm, b, live[b]) && In(b, b, live[b].pages);
      BlockKept(s, s', Window(s, kernel, hhdm), hhdm, b, live[b]);
    }
  }

  function Payload(hhdm: nat, b: nat): nat { Pointer(hhdm, b) + HEADER }

  /** The live blocks are exactly those behind the pointers handed out and not yet returned, with their sizes. */
  ghost predicate Held(live: map<nat, Block>, hhdm: nat, ptrs: map<nat, nat>) {
    && (forall b :: b in live ==> Payload(hhdm, b) in ptrs && ptrs[Payload(hhdm, b)] == live[b].size)
    && (forall x :: x in ptrs ==> exists b :: b in live && x == Payload(hhdm, b))
  }

  lemma HeldBlock(live: map<nat, Block>, hhdm: nat, ptrs: map<nat, nat>, ptr: nat) returns (b: nat)
    requires Held(live, hhdm, ptrs) && ptr in ptrs
    ensures b in live && ptr == Payload(hhdm, b) && live[b].size == ptrs[ptr]
  {
    b :| b in live && ptr == Payload(hhdm, b);
  }

  lemma HeldGet(live: map<nat, Block>, hhdm: nat, ptrs: map<nat, nat>, b: nat, blk: Block)
    requires Held(live, hhdm, ptrs) && b !in live
    ensures Held(live[b := blk], hhdm, ptrs[Payload(hhdm, b) := blk.size])
  {
    forall x | x in ptrs
      ensures exists c :: c in live[b := blk] && x == Payload(hhdm, c)
    {
      var c :| c in live && x == Payload(hhdm, c);
      assert c in live[b := blk];
    }
    assert b in live[b := blk];
  }

  lemma HeldPut(live: map<nat, Block>, hhdm: nat, ptrs: map<nat, nat>, b: nat)
    requires Held(live, hhdm, ptrs) && b in live
    ensures Held(live - {b}, hhdm, ptrs - {Payload(hhdm, b)})
  {
    forall x | x in ptrs && x != Payload(hhdm, b)
      ensures exists c :: c in live - {b} && x == Payload(hhdm, c)
    {
      var c :| c in live && x == Payload(hhdm, c);
      assert c in live - {b};
    }
  }

  /** A call of k_alloc, k_free or vmm_new, or a store to word j of a payload. */
  datatype Op = Get(size: nat) | Put(ptr: nat) | Poke(ptr: nat, j: nat, w: nat) | New

  /** What every call keeps: of the heap, of the pointers out, and of the address spaces. */
  ghost predicate StateOk(s: State, kernel: nat, hhdm: nat, live: map<nat, Block>, ptrs: map<nat, nat>) {
    && Sized(live) && HeapOk(s, Window(s, kernel, hhdm), hhdm, live) && Held(live, hhdm, ptrs)
    && SpacesOk(s, kernel, hhdm)
  }

  lemma GetStep(s: State, s': State, kernel: nat, hhdm: nat, live: map<nat, Block>, ptrs: map<nat, nat>, b: nat,
                blk: Block)
    requires StateOk(s, kernel, hhdm, live, ptrs) && Sound(s') && b !in live
    requires HeapOk(s', Window(s', kernel, hhdm), hhdm, live[b := blk]) && |s'.mem| == |s.mem|
    requires blk.size < TWO64 && blk.pages == PagesFor(blk.size) && Allocated(s, s', kernel, hhdm, b, blk.pages)
    ensures StateOk(s', kernel, hhdm, live[b := blk], ptrs[Payload(hhdm, b) := blk.size])
  {
    HeldGet(live, hhdm, ptrs, b, blk);
    SizedInsert(live, b, blk);
    AllocKeepsSpaces(s, s', kernel, hhdm, live[b := blk], b);
  }

  lemma SizedInsert(live: map<nat, Block>, b: nat, blk: Block)
    requires Sized(live) && blk.size < TWO64 && blk.pages == PagesFor(blk.size)
    ensures Sized(live[b := blk])
  {
  }

  lemma AllocKeepsSpaces(s: State, s': State, kernel: nat, hhdm: nat, live: map<nat, Block>, b: nat)
    requires SpacesOk(s, kernel, hhdm) && Sound(s') && |s'.mem| == |s.mem| && b in live
    requires HeapOk(s', Window(s', kernel, hhdm), hhdm, live) && Allocated(s, s', kernel, hhdm, b, live[b].pages)
    ensures SpacesOk(s', kernel, hhdm)
  {
    assert BlockOk(s', Window(s', kernel, hhdm), hhdm, b, live[b]);
    HeapKeepsSpaces(s, s', kernel, hhdm, b, live[b].pages);
  }

  lemma PutStep(s: State, s': State, kernel: nat, hhdm: nat, live: map<nat, Block>, ptrs: map<nat, nat>, b: nat)
    requires StateOk(s, kernel, hhdm, live, ptrs) && Sound(s') && b in live
    requires HeapOk(s', Window(s', kernel, hhdm), hhdm, live - {b}) && |s'.mem| == |s.mem|
    requires Freed(s, s', kernel, hhdm, b, live[b].pages)
    ensures StateOk(s', kernel, hhdm, live - {b}, ptrs - {Payload(hhdm, b)})
  {
    HeldPut(live, hhdm, ptrs, b);
    assert BlockOk(s, Window(s, kernel, hhdm), hhdm, b, live[b]);
    HeapKeepsSpaces(s, s', kernel, hhdm, b, live[b].pages);
  }

  lemma PokeStep(s: State, s': State, kernel: nat, hhdm: nat, live: map<nat, Block>, ptrs: map<nat, nat>, p: nat,
                 i: nat, w: nat)
    requires StateOk(s, kernel, hhdm, live, ptrs) && HeapOk(s', Window(s', kernel, hhdm), hhdm, live)
    requires p < |s.mem| && i < |s.mem[p]| && p !in s.shape && s' == s.(mem := SetEntry(s.mem, p, i, w))
    ensures StateOk(s', kernel, hhdm, live, ptrs)
  {
    WriteKeepsSpaces(s, s', kernel, hhdm, p, i, w);
  }

  lemma NewStep(s: State, s': State, kernel: nat, hhdm: nat, live: map<nat, Block>, ptrs: map<nat, nat>, page: nat,
                root: nat)
    requires StateOk(s, kernel, hhdm, live, ptrs) && Sound(s') && LowMachine(hhdm, |s.mem|)
    requires SpaceNew(s, s', kernel, page, root, Doubled(hhdm, page), Doubled(hhdm, root))
    ensures StateOk(s', kernel, hhdm, live, ptrs)
  {
    NewKeepsSpaces(s, s', kernel, hhdm, page, root);
    NewKeepsWindow(s, s', kernel, hhdm, page, root);
    NewKeepsHeap(s, s', kernel, hhdm, page, root, live);
  }

  ghost function Roots(shape: Shape): set<nat> { set r | r in shape && IsRoot(shape, r) }

  /** One address space more. */
  ghost predicate Founded(roots: set<nat>, roots': set<nat>) { exists r :: r !in roots && roots' == roots + {r} }

  /** One pointer more, with this size. */
  ghost predicate Handed(ptrs: map<nat, nat>, ptrs': map<nat, nat>, size: nat) {
    exists x: nat :: x !in ptrs && ptrs' == ptrs[x := size]
  }

  lemma SameRoots(s: State, s': State)
    requires TablesKept(s, s')
    ensures Roots(s'.shape) == Roots(s.shape)
  {
  }

  lemma SingleRoot(shape: Shape, kernel: nat)
    requires OnlyRoot(shape, kernel)
    ensures Roots(shape) == {kernel}
  {
    assert kernel in Roots(shape);
  }

  lemma TracedNext(trace: Trace, ops: seq<Op>, i: nat, ptrs: map<nat, nat>, roots: set<nat>)
    requires Traced(trace, ops, i) && i < |ops| && OpDone(ops[i], trace[i].0, ptrs, trace[i].1, roots)
    ensures Traced(trace + [(ptrs, roots)], ops, i + 1)
  {
  }

  lemma OneMoreRoot(s: State, s': State, kernel: nat, page: nat, root: nat)
    requires Sound(s) && SpaceAdded(s, s', kernel, page, root)
    ensures Founded(Roots(s.shape), Roots(s'.shape))
  {
    forall r
      ensures r in Roots(s'.shape) <==> r in Roots(s.shape) + {root}
    {
      assert IsRoot(s.shape, r) ==> IsRoot(s'.shape, r);
    }
    assert root !in Roots(s.shape);
  }

  lemma NewPointer(live: map<nat, Block>, hhdm: nat, ptrs: map<nat, nat>, b: nat, x: nat, size: nat)
    requires Held(live, hhdm, ptrs) && b !in live && x == Payload(hhdm, b)
    ensures Handed(ptrs, ptrs[x := size], size)
  {
    assert x !in ptrs;
  }

  ghost predicate KernelOk(heap: Heap, ptrs: map<nat, nat>)
    reads heap, heap.vm, heap.vm.pmm, heap.vm.pmm.bitmap
  {
    && heap.vm.Valid() && heap.arena == 0
    && StateOk(heap.vm.Tables(), heap.vm.kernel, heap.vm.hhdm, heap.live, ptrs)
  }

  method DoGet(heap: Heap, size: nat, ptrs: map<nat, nat>) returns (r: Outcome<map<nat, nat>>)
    requires KernelOk(heap, ptrs) && size < TWO64
    modifies heap`live, heap.vm`shape, heap.vm.pmm`prev, heap.vm.pmm`ram, heap.vm.pmm.bitmap
    ensures r.Done? ==> KernelOk(heap, r.value) && Handed(ptrs, r.value, size)
    ensures r.Done? ==> Roots(heap.vm.shape) == Roots(old(heap.vm.shape))
    ensures r.Halted? ==> OutOfMemory(old(heap.vm.pmm.Abs()), heap.vm.pmm.Abs(), PagesFor(size))
  {
    ghost var s, live, b := heap.vm.Tables(), heap.live, 0;
    var got: Outcome<nat>;
    got, b := heap.Alloc(size);
    if got.Halted? { return Halted; }
    ghost var blk := Block(size, PagesFor(size));
    assert got.value == Payload(heap.vm.hhdm, b) && heap.live == live[b := blk];
    GetStep(s, heap.vm.Tables(), heap.vm.kernel, heap.vm.hhdm, live, ptrs, b, blk);
    NewPointer(live, heap.vm.hhdm, ptrs, b, got.value, size);
    SameRoots(s, heap.vm.Tables());
    return Done(ptrs[got.value := size]);
  }

  method DoPut(heap: Heap, ptr: nat, ptrs: map<nat, nat>) returns (left: map<nat, nat>)
    requires KernelOk(heap, ptrs) && ptr in ptrs
    modifies heap`live, heap.vm`shape, heap.vm.pmm`prev, heap.vm.pmm`ram, heap.vm.pmm.bitmap
    ensures KernelOk(heap, left) && left == ptrs - {ptr} && Roots(heap.vm.shape) == Roots(old(heap.vm.shape))
  {
    ghost var b := HeldBlock(heap.live, heap.vm.hhdm, ptrs, ptr);
    ghost var s, live := heap.vm.Tables(), heap.live;
    heap.Free(ptr, b);
    PutStep(s, heap.vm.Tables(), heap.vm.kernel, heap.vm.hhdm, live, ptrs, b);
    SameRoots(s, heap.vm.Tables());
    left := ptrs - {ptr};
  }

  method DoPoke(heap: Heap, ptr: nat, j: nat, w: nat, ghost ptrs: map<nat, nat>)
    requires KernelOk(heap, ptrs) && ptr in ptrs && Fits(ptrs[ptr]) && 8 * j + 8 <= ptrs[ptr]
    modifies heap.vm.pmm`ram
    ensures KernelOk(heap, ptrs)
  {
    ghost var b := HeldBlock(heap.live, heap.vm.hhdm, ptrs, ptr);
    ghost var s := heap.vm.Tables();
    var p, i := heap.WriteWord(ptr, j, w, b);
    PokeStep(s, heap.vm.Tables(), heap.vm.kernel, heap.vm.hhdm, heap.live, ptrs, p, i, w);
  }

  method DoNew(heap: Heap, ghost ptrs: map<nat, nat>) returns (r: Outcome<nat>)
    requires KernelOk(heap, ptrs) && LowMachine(heap.vm.hhdm, heap.vm.pmm.top)
    modifies heap.vm`shape, heap.vm.pmm`prev, heap.vm.pmm`ram, heap.vm.pmm.bitmap
    ensures r.Done? ==> KernelOk(heap, ptrs)
    ensures r.Done? ==> Founded(Roots(old(heap.vm.shape)), Roots(heap.vm.shape))
    ensures r.Halted? ==> Full(heap.vm.pmm.Used())
  {
    ghost var s := heap.vm.Tables();
    var pair :- heap.vm.NewSpace();
    NewStep(s, heap.vm.Tables(), heap.vm.kernel, heap.vm.hhdm, heap.live, ptrs, pair.0, pair.1);
    OneMoreRoot(s, heap.vm.Tables(), heap.vm.kernel, pair.0, pair.1);
    return Done(pair.1);
  }

  /** What a call asks of its caller: a 64-bit size, and for vmm_new a machine below 512 GiB. */
  predicate Callable(op: Op, hhdm: nat, top: nat) {
    (op.Get? ==> op.size < TWO64) && (op.New? ==> LowMachine(hhdm, top))
  }

  /** The pointers out and the address spaces after a call. */
  ghost predicate OpDone(op: Op, ptrs: map<nat, nat>, ptrs': map<nat, nat>, roots: set<nat>, roots': set<nat>) {
    && (if op.Get? then Handed(ptrs, ptrs', op.size) else ptrs' == if op.Put? then ptrs - {op.ptr} else ptrs)
    && (if op.New? then Founded(roots, roots') else roots' == roots)
  }

  /** Why a call halts: its block does not exist, or there is no page left. */
  ghost predicate Refused(op: Op, pool: Pool) {
    (op.Get? && Choose(pool, PagesFor(op.size)).None?) || Full(pool.used)
  }

  lemma NotThere(ptrs: map<nat, nat>, x: nat)
    requires x !in ptrs
    ensures ptrs - {x} == ptrs
  {
  }

  lemma NewDone(op: Op, ptrs: map<nat, nat>, roots: set<nat>, roots': set<nat>)
    requires op.New? && Founded(roots, roots')
    ensures OpDone(op, ptrs, ptrs, roots, roots')
  {
  }

  lemma PokeDone(op: Op, ptrs: map<nat, nat>, roots: set<nat>)
    requires op.Poke?
    ensures OpDone(op, ptrs, ptrs, roots, roots)
  {
  }

  method PerformGet(heap: Heap, op: Op, ptrs: map<nat, nat>) returns (r: Outcome<map<nat, nat>>)
    requires KernelOk(heap, ptrs) && Callable(op, heap.vm.hhdm, heap.vm.pmm.top) && op.Get?
    modifies heap`live, heap.vm`shape, heap.vm.pmm`prev, heap.vm.pmm`ram, heap.vm.pmm.bitmap
    ensures r.Done? ==> KernelOk(heap, r.value)
    ensures r.Done? ==> OpDone(op, ptrs, r.value, Roots(old(heap.vm.shape)), Roots(heap.vm.shape))
    ensures r.Halted? ==> Refused(op, heap.vm.pmm.Abs())
  {
    r := DoGet(heap, op.size, ptrs);
  }

  method PerformNew(heap: Heap, op: Op, ptrs: map<nat, nat>) returns (r: Outcome<map<nat, nat>>)
    requires KernelOk(heap, ptrs) && Callable(op, heap.vm.hhdm, heap.vm.pmm.top) && op.New?
    modifies heap`live, heap.vm`shape, heap.vm.pmm`prev, heap.vm.pmm`ram, heap.vm.pmm.bitmap
    ensures r.Done? ==> KernelOk(heap, r.value)
    ensures r.Done? ==> OpDone(op, ptrs, r.value, Roots(old(heap.vm.shape)), Roots(heap.vm.shape))
    ensures r.Halted? ==> Refused(op, heap.vm.pmm.Abs())
  {
    ghost var roots := Roots(heap.vm.shape);
    var founded := DoNew(heap, ptrs);
    if founded.Halted? { return Halted; }
    NewDone(op, ptrs, roots, Roots(heap.vm.shape));
    r := Done(ptrs);
  }

  /** k_free; a pointer that is not out makes no step. */
  method PerformPut(heap: Heap, op: Op, ptrs: map<nat, nat>) returns (left: map<nat, nat>)
    requires KernelOk(heap, ptrs) && op.Put?
    modifies heap`live, heap.vm`shape, heap.vm.pmm`prev, heap.vm.pmm`ram, heap.vm.pmm.bitmap
    ensures KernelOk(heap, left) && OpDone(op, ptrs, left, Roots(old(heap.vm.shape)), Roots(heap.vm.shape))
  {
    if op.ptr in ptrs {
      left := DoPut(heap, op.ptr, ptrs);
    } else {
      NotThere(ptrs, op.ptr);
      left := ptrs;
    }
  }

  /** A store; one outside the live payloads makes no step. */
  method PerformPoke(heap: Heap, op: Op, ghost ptrs: map<nat, nat>, size: nat)
    requires KernelOk(heap, ptrs) && op.Poke? && (op.ptr in ptrs ==> size == ptrs[op.ptr])
    requires op.ptr !in ptrs ==> size == 0
    modifies heap.vm.pmm`ram
    ensures KernelOk(heap, ptrs)
  {
    if Fits(size) && 8 * op.j + 8 <= size {
      DoPoke(heap, op.ptr, op.j, op.w, ptrs);
    }
  }

  /** One call. */
  method Perform(heap: Heap, op: Op, ptrs: map<nat, nat>) returns (r: Outcome<map<nat, nat>>)
    requires KernelOk(heap, ptrs) && Callable(op, heap.vm.hhdm, heap.vm.pmm.top)
    modifies heap`live, heap.vm`shape, heap.vm.pmm`prev, heap.vm.pmm`ram, heap.vm.pmm.bitmap
    ensures r.Done? ==> KernelOk(heap, r.value)
    ensures r.Done? ==> OpDone(op, ptrs, r.value, Roots(old(heap.vm.shape)), Roots(heap.vm.shape))
    ensures r.Halted? ==> Refused(op, heap.vm.pmm.Abs())
  {
    if op.Get? {
      r := PerformGet(heap, op, ptrs);
    } else if op.New? {
      r := PerformNew(heap, op, ptrs);
    } else if op.Put? {
      var left := PerformPut(heap, op, ptrs);
      r := Done(left);
    } else {
      PokeDone(op, ptrs, Roots(heap.vm.shape));
      PerformPoke(heap, op, ptrs, if op.ptr in ptrs then ptrs[op.ptr] else 0);
      r := Done(ptrs);
    }
  }

  /** Pointers and address spaces before the run and after each call. */
  type Trace = seq<(map<nat, nat>, set<nat>)>

  ghost predicate Traced(trace: Trace, ops: seq<Op>, i: nat) {
    && |trace| == i + 1 && i <= |ops|
    && forall k :: 0 <= k < i ==> OpDone(ops[k], trace[k].0, trace[k + 1].0, trace[k].1, trace[k + 1].1)
  }

  method PerformAll(heap: Heap, ops: seq<Op>) returns (r: Outcome<map<nat, nat>>, ghost trace: Trace)
    requires KernelOk(heap, map[])
    requires forall i :: 0 <= i < |ops| ==> Callable(ops[i], heap.vm.hhdm, heap.vm.pmm.top)
    modifies heap`live, heap.vm`shape, heap.vm.pmm`prev, heap.vm.pmm`ram, heap.vm.pmm.bitmap
    ensures r.Done? ==> KernelOk(heap, r.value)
    ensures r.Done? ==> Traced(trace, ops, |ops|) && trace[0] == (map[], Roots(old(heap.vm.shape)))
    ensures r.Done? ==> trace[|ops|] == (r.value, Roots(heap.vm.shape))
    ensures r.Halted? ==> exists i :: 0 <= i < |ops| && Refused(ops[i], heap.vm.pmm.Abs())
  {
    var ptrs: map<nat, nat> := map[];
    ghost var first := Roots(heap.vm.shape);
    trace := [(ptrs, first)];
    for i := 0 to |ops|
      invariant KernelOk(heap, ptrs) && Traced(trace, ops, i)
      invariant trace[0] == (map[], first) && trace[i] == (ptrs, Roots(heap.vm.shape))
    {
      var next := Perform(heap, ops[i], ptrs);
      if next.Halted? { return Halted, trace; }
      ptrs := next.value;
      ghost var roots := Roots(heap.vm.shape);
      TracedNext(trace, ops, i, ptrs, roots);
      trace := trace + [(ptrs, roots)];
    }
    r := Done(ptrs);
  }

  /**
   vmm_init, then any mix of k_alloc, k_free, stores to live payloads and, where frames end below 512 GiB, vmm_new:
   the heap is well formed, its blocks are those behind the pointers still out, each with the pages for its size, and
   every address space translates all 2^36 pages as the kernel does. A halt means that memory is exhausted, or that a
   request cannot be served.
   */
  method KernelFromBoot(vm: Vmm, img: Image, ops: seq<Op>)
    returns (r: Outcome<map<nat, nat>>, heap: Heap?, ghost trace: Trace)
    requires vm.Valid() && vm.shape == map[] && DirectMapOk(vm.hhdm) && ImageOk(img)
    requires DirectFits(vm.hhdm, vm.pmm.top) && ImageApart(img, vm.hhdm, vm.pmm.top)
    requires forall i :: 0 <= i < |ops| ==> Callable(ops[i], vm.hhdm, vm.pmm.top)
    modifies vm`kernel, vm`shape, vm.pmm`prev, vm.pmm`ram, vm.pmm.bitmap
    ensures r.Done? ==> heap != null && heap.vm == vm && heap.Valid() && Held(heap.live, vm.hhdm, r.value)
    ensures r.Done? ==> Agree(vm.Tables(), vm.kernel)
    ensures r.Done? ==> Traced(trace, ops, |ops|) && trace[0] == (map[], {vm.kernel})
    ensures r.Done? ==> trace[|ops|] == (r.value, Roots(vm.shape))
    ensures r.Halted? ==>
      Full(vm.pmm.Used()) || exists i :: 0 <= i < |ops| && Refused(ops[i], vm.pmm.Abs())
  {
    var booted := BootHeap(vm, img);
    trace := [];
    if booted.Halted? { return Halted, null, trace; }
    heap := booted.value;
    BootSpaces(vm.Tables(), vm.kernel, img, vm.hhdm);
    SingleRoot(vm.shape, vm.kernel);
    r, trace := PerformAll(heap, ops);
  }
}
