/** vmm_init: the kernel's root, its higher half, and the complete map it ends with. */
module VmmInit {
  import opened Outcomes
  import opened Bits
  import opened Pte
  import opened PageTable
  import opened VirtualMemory

  /** Linker symbols of the kernel image, rounded to pages, and where the bootloader put it. */
  datatype Image = Image(
    textStart: nat, textEnd: nat, rodataStart: nat, rodataEnd: nat, dataStart: nat, dataEnd: nat,
    virtualBase: nat, physicalBase: nat)

  const LOW_TOP: nat := 0x1_0000_0000

  /** The vmm_map_page calls made so far on an empty table, each with its address and entry. */
  datatype Calls = Start | Call(before: Calls, addr: nat, word: nat)

  /** The entry of page a after those calls: the first call for a page wins. */
  function EntryAfter(calls: Calls, a: nat): nat {
    match calls
    case Start => 0
    case Call(before, i, w) =>
      var was := EntryAfter(before, a);
      if a == i && !Present(was) then w else was
  }

  ghost predicate Realizes(s: State, root: nat, calls: Calls) {
    forall a: nat {:trigger EntryAfter(calls, a)} ::
      CanonicalPage(a) ==> Slot(s.mem, root, PageOf(a)) == EntryAfter(calls, a)
  }

  lemma RealizesCall(s: State, s': State, root: nat, calls: Calls, i: nat, w: nat)
    requires IsRoot(s.shape, root) && CanonicalPage(i) && Mapped(s, s', root, PageOf(i), w) && Realizes(s, root, calls)
    ensures Realizes(s', root, Call(calls, i, w))
  {
    forall a: nat | CanonicalPage(a)
      ensures Slot(s'.mem, root, PageOf(a)) == EntryAfter(Call(calls, i, w), a)
    {
      Decode(a);
      if PageOf(a) == PageOf(i) {
        CanonicalUnique(a, i);
      }
    }
  }

  /** The kernel's tables while vmm_init fills them. */
  ghost predicate Booting(s: State, kernel: nat, calls: Calls) {
    OnlyRoot(s.shape, kernel) && Coherent(s.shape, s.mem, kernel) && Realizes(s, kernel, calls)
  }

  ghost predicate OnlyRoot(shape: Shape, kernel: nat) {
    IsRoot(shape, kernel) && forall r :: IsRoot(shape, r) ==> r == kernel
  }

  method MapAt(vm: Vmm, i: nat, physical: nat, flags: nat, ghost calls: Calls) returns (r: Outcome<()>)
    requires vm.Valid() && CanonicalPage(i) && Booting(vm.Tables(), vm.kernel, calls)
    modifies vm`shape, vm.pmm`prev, vm.pmm`ram, vm.pmm.bitmap
    ensures vm.Valid()
    ensures r.Done? ==> Booting(vm.Tables(), vm.kernel, Call(calls, i, Or(physical, flags)))
    ensures r.Halted? ==> Full(vm.pmm.Used())
  {
    var _ :- vm.MapPage(vm.kernel, i, physical, flags);
    CoherenceKept(old(vm.Tables()), vm.Tables(), vm.kernel);
    assert forall r :: IsRoot(vm.shape, r) ==> IsRoot(old(vm.shape), r);
    RealizesCall(old(vm.Tables()), vm.Tables(), vm.kernel, calls, i, Or(physical, flags));
    return Done(());
  }

  /** `i - virtual_base + physical_base` in 64-bit arithmetic. */
  function Physical(img: Image, a: nat): nat {
    (a + (TWO64 - img.virtualBase % TWO64) + img.physicalBase) % TWO64
  }

  /** The entry an image loop writes for address a. */
  function Segment(img: Image, flags: nat): nat -> nat {
    (a: nat) => Or(Physical(img, a), flags)
  }

  /** The calls of a loop over [start, end) that maps address a to entry w(a), made after `calls`. */
  ghost predicate Covers(calls: Calls, log: Calls, start: nat, end: nat, w: nat -> nat) {
    forall a: nat {:trigger EntryAfter(log, a)} :: CanonicalPage(a) ==>
      var was := EntryAfter(calls, a);
      EntryAfter(log, a) == if start <= a < end && !Present(was) then w(a) else was
  }

  lemma AlignedBelow(a: nat, i: nat)
    requires Aligned(a) && Aligned(i)
    ensures a < i + PAGE_SIZE <==> a <= i
  {
  }

  lemma CoversStep(calls: Calls, log: Calls, start: nat, i: nat, w: nat -> nat)
    requires Covers(calls, log, start, i, w) && Aligned(i) && start <= i
    ensures Covers(calls, Call(log, i, w(i)), start, i + PAGE_SIZE, w)
  {
  }

  /** [start, start + n pages) lies in the higher half. */
  ghost predicate RangeOk(start: nat, n: nat) {
    Aligned(start) && (n > 0 ==> 0xffff_8000_0000_0000 <= start && start + n * PAGE_SIZE <= TWO64 - PAGE_SIZE)
  }

  lemma NextPage(start: nat, k: nat, i: nat, n: nat)
    requires RangeOk(start, n) && i == start + k * PAGE_SIZE && k < n
    ensures CanonicalPage(i)
  {
  }

  /** One of the three image loops, over the n pages from start to end. */
  method MapSegment(vm: Vmm, img: Image, start: nat, end: nat, flags: nat, ghost n: nat, ghost calls: Calls)
    returns (r: Outcome<()>, ghost log: Calls)
    requires end == start + n * PAGE_SIZE && RangeOk(start, n)
    requires vm.Valid() && Booting(vm.Tables(), vm.kernel, calls)
    modifies vm`shape, vm.pmm`prev, vm.pmm`ram, vm.pmm.bitmap
    ensures vm.Valid()
    ensures r.Done? ==> Booting(vm.Tables(), vm.kernel, log) && Covers(calls, log, start, end, Segment(img, flags))
    ensures r.Halted? ==> Full(vm.pmm.Used())
  {
    var i := start;
    log := calls;
    ghost var k, w := 0, Segment(img, flags);
    while i < end
      invariant i == start + k * PAGE_SIZE && k <= n
      invariant Covers(calls, log, start, i, w)
      invariant vm.Valid() && Booting(vm.Tables(), vm.kernel, log)
    {
      NextPage(start, k, i, n);
      var mapped := MapAt(vm, i, Physical(img, i), flags, log);
      if mapped.Halted? {
        return Halted, log;
      }
      CoversStep(calls, log, start, i, w);
      log := Call(log, i, w(i));
      i, k := i + PAGE_SIZE, k + 1;
    }
    return Done(()), log;
  }

  ghost predicate DirectMapOk(hhdm: nat) {
    Aligned(hhdm) && 0xffff_8000_0000_0000 <= hhdm && hhdm + LOW_TOP <= TWO64
  }

  /** What the last loop, gone up to i, makes of an entry: an identity page, or the same frame hhdm above it. */
  function LowEntry(hhdm: nat, i: nat, a: nat, was: nat): nat {
    if Present(was) then was
    else if PAGE_SIZE <= a < i then Or(a, RW)
    else if hhdm + PAGE_SIZE <= a < hhdm + i then Or(a - hhdm, RW_NX)
    else was
  }

  ghost predicate LowCovers(calls: Calls, log: Calls, hhdm: nat, i: nat) {
    forall a: nat {:trigger EntryAfter(log, a)} ::
      CanonicalPage(a) ==> EntryAfter(log, a) == LowEntry(hhdm, i, a, EntryAfter(calls, a))
  }

  lemma {:induction false} LowCoversStep(calls: Calls, log: Calls, hhdm: nat, i: nat, virt: nat)
    requires LowCovers(calls, log, hhdm, i) && Aligned(i) && Aligned(virt) && virt == hhdm + i
    requires PAGE_SIZE <= i < LOW_TOP <= hhdm
    ensures LowCovers(calls, Call(Call(log, i, Or(i, RW)), virt, Or(i, RW_NX)), hhdm, i + PAGE_SIZE)
  {
    var log' := Call(Call(log, i, Or(i, RW)), virt, Or(i, RW_NX));
    forall a: nat | CanonicalPage(a)
      ensures EntryAfter(log', a) == LowEntry(hhdm, i + PAGE_SIZE, a, EntryAfter(calls, a))
    {
      AlignedBelow(a, i);
      AlignedBelow(a, virt);
      LowEntryStep(hhdm, i, a, EntryAfter(calls, a));
      assert EntryAfter(log, a) == LowEntry(hhdm, i, a, EntryAfter(calls, a));
    }
  }

  lemma LowCoversStart(calls: Calls, hhdm: nat)
    ensures LowCovers(calls, calls, hhdm, PAGE_SIZE)
  {
  }

  lemma LowEntryStep(hhdm: nat, i: nat, a: nat, was: nat)
    requires PAGE_SIZE <= i < LOW_TOP <= hhdm
    requires (a < i + PAGE_SIZE <==> a <= i) && (a < hhdm + i + PAGE_SIZE <==> a <= hhdm + i)
    ensures LowEntry(hhdm, i + PAGE_SIZE, a, was) ==
      if Present(was) then was
      else if a == i then Or(i, RW)
      else if a == hhdm + i then Or(i, RW_NX)
      else LowEntry(hhdm, i, a, was)
  {
  }

  lemma NextLowPage(hhdm: nat, k: nat, i: nat, virt: nat)
    requires DirectMapOk(hhdm) && i == k * PAGE_SIZE && i < LOW_TOP && virt == hhdm + i
    ensures CanonicalPage(i) && CanonicalPage(virt) && i + PAGE_SIZE <= LOW_TOP
  {
  }

  /** The two calls of one iteration of the last loop. */
  function LowCalls(log: Calls, i: nat, virt: nat): Calls { Call(Call(log, i, Or(i, RW)), virt, Or(i, RW_NX)) }

  lemma LowCoversNext(calls: Calls, log: Calls, hhdm: nat, i: nat, virt: nat, next: nat)
    requires LowCovers(calls, log, hhdm, i) && Aligned(i) && Aligned(hhdm) && virt == hhdm + i
    requires PAGE_SIZE <= i < LOW_TOP <= hhdm && next == i + PAGE_SIZE
    ensures LowCovers(calls, LowCalls(log, i, virt), hhdm, next)
  {
    LowCoversStep(calls, log, hhdm, i, virt);
  }

  method MapLowPage(vm: Vmm, i: nat, virt: nat, ghost log: Calls) returns (r: Outcome<()>)
    requires vm.Valid() && CanonicalPage(i) && CanonicalPage(virt) && Booting(vm.Tables(), vm.kernel, log)
    modifies vm`shape, vm.pmm`prev, vm.pmm`ram, vm.pmm.bitmap
    ensures vm.Valid()
    ensures r.Done? ==> Booting(vm.Tables(), vm.kernel, LowCalls(log, i, virt))
    ensures r.Halted? ==> Full(vm.pmm.Used())
  {
    r := MapAt(vm, i, i, RW, log);
    if r.Done? {
      r := MapAt(vm, virt, i, RW_NX, Call(log, i, Or(i, RW)));
    }
  }

  /** The last loop of vmm_init. */
  method MapLow(vm: Vmm, ghost calls: Calls) returns (r: Outcome<()>, ghost log: Calls)
    requires vm.Valid() && DirectMapOk(vm.hhdm) && Booting(vm.Tables(), vm.kernel, calls)
    modifies vm`shape, vm.pmm`prev, vm.pmm`ram, vm.pmm.bitmap
    ensures vm.Valid()
    ensures r.Done? ==> Booting(vm.Tables(), vm.kernel, log) && LowCovers(calls, log, vm.hhdm, LOW_TOP)
    ensures r.Halted? ==> Full(vm.pmm.Used())
  {
    var i := PAGE_SIZE;
    log := calls;
    ghost var k := 1;
    LowCoversStart(calls, vm.hhdm);
    while i < LOW_TOP
      invariant i == k * PAGE_SIZE && PAGE_SIZE <= i <= LOW_TOP
      invariant LowCovers(calls, log, vm.hhdm, i)
      invariant vm.Valid() && Booting(vm.Tables(), vm.kernel, log)
    {
      var virt, next := vm.hhdm + i, i + PAGE_SIZE;
      NextLowPage(vm.hhdm, k, i, virt);
      r := MapLowPage(vm, i, virt, log);
      if r.Halted? {
        return;
      }
      LowCoversNext(calls, log, vm.hhdm, i, virt, next);
      log := LowCalls(log, i, virt);
      i, k := next, k + 1;
    }
    r := Done(());
  }

  /** A single root whose flat table is empty, with the upper entries below i linked. */
  ghost predicate Blank(s: State, kernel: nat, i: nat) {
    && OnlyRoot(s.shape, kernel)
    && (forall j :: 256 <= j < i ==> Present(Entry(s.mem, kernel, j)))
    && (forall v :: IsVpn(v) ==> Slot(s.mem, kernel, v) == 0)
  }

  lemma BlankStart(s: State, kernel: nat)
    requires Sound(s) && s.shape == map[] && 0 < kernel < |s.mem| && s.used[kernel] && s.mem[kernel] == ZeroPage()
    ensures var s' := State(s.used, s.mem, map[kernel := ROOT]); Sound(s') && Blank(s', kernel, 256)
  {
  }

  lemma BlankExtends(s: State, s': State, kernel: nat, i: nat)
    requires Sound(s) && Extends(s, s') && Blank(s, kernel, i) && 256 <= i < ENTRIES && Child(s'.mem, kernel, i) != 0
    ensures Blank(s', kernel, i + 1)
  {
    forall j | 256 <= j < i
      ensures Present(Entry(s'.mem, kernel, j))
    {
      assert Entry(s'.mem, kernel, j) == Entry(s.mem, kernel, j);
    }
    forall r | IsRoot(s'.shape, r)
      ensures r == kernel
    {
      assert IsRoot(s.shape, r);
    }
  }

  lemma BlankBoots(s: State, kernel: nat)
    requires Blank(s, kernel, ENTRIES)
    ensures Booting(s, kernel, Start)
  {
  }

  /** The first lines of vmm_init: descriptor, root table, and a table below every upper root entry. */
  method NewKernelRoot(vm: Vmm) returns (r: Outcome<()>)
    requires vm.Valid() && vm.shape == map[]
    modifies vm`kernel, vm`shape, vm.pmm`prev, vm.pmm`ram, vm.pmm.bitmap
    ensures vm.Valid()
    ensures r.Done? ==> Booting(vm.Tables(), vm.kernel, Start)
    ensures r.Halted? ==> Full(vm.pmm.Used())
  {
    var pair :- vm.AllocPair();
    BlankStart(vm.Tables(), pair.1);
    vm.kernel := pair.1;
    vm.shape := map[vm.kernel := ROOT];
    for i := 256 to ENTRIES
      invariant vm.Valid() && Blank(vm.Tables(), vm.kernel, i)
    {
      ghost var s := vm.Tables();
      var _ :- vm.WalkPte(vm.kernel, i, true);
      BlankExtends(s, vm.Tables(), vm.kernel, i);
    }
    BlankBoots(vm.Tables(), vm.kernel);
    return Done(());
  }

  function AlignDown(a: nat): nat { a / PAGE_SIZE * PAGE_SIZE }
  function AlignUp(a: nat): nat { (a + (PAGE_SIZE - 1)) / PAGE_SIZE * PAGE_SIZE }

  /** Pages of a segment after rounding its ends outwards. */
  function PagesOf(start: nat, end: nat): int { AlignUp(end) / PAGE_SIZE - AlignDown(start) / PAGE_SIZE }

  ghost predicate SegmentOk(start: nat, end: nat) {
    start <= end && RangeOk(AlignDown(start), PagesOf(start, end))
  }

  lemma PagesSpan(start: nat, end: nat)
    requires start <= end
    ensures PagesOf(start, end) >= 0 && AlignUp(end) == AlignDown(start) + PagesOf(start, end) * PAGE_SIZE
    ensures Aligned(AlignDown(start))
  {
  }

  predicate InSegment(a: nat, start: nat, end: nat) { AlignDown(start) <= a < AlignUp(end) }

  /** The pages of a segment are exactly those that hold a byte of it. */
  lemma SegmentPages(a: nat, start: nat, end: nat)
    requires Aligned(a) && start < end
    ensures InSegment(a, start, end) <==> a < end && start < a + PAGE_SIZE
  {
  }

  /** The map vmm_init promises, by canonical page address. */
  function InitialEntry(img: Image, hhdm: nat, a: nat): nat {
    if InSegment(a, img.textStart, img.textEnd) then Or(Physical(img, a), PTE_PRESENT)
    else if InSegment(a, img.rodataStart, img.rodataEnd) then Or(Physical(img, a), RO_NX)
    else if InSegment(a, img.dataStart, img.dataEnd) then Or(Physical(img, a), RW_NX)
    else if PAGE_SIZE <= a < LOW_TOP then Or(a, RW)
    else if hhdm + PAGE_SIZE <= a < hhdm + LOW_TOP then Or(a - hhdm, RW_NX)
    else 0
  }

  ghost predicate ImageOk(img: Image) {
    && SegmentOk(img.textStart, img.textEnd) && SegmentOk(img.rodataStart, img.rodataEnd)
    && SegmentOk(img.dataStart, img.dataEnd)
  }

  lemma {:induction false} PresentFlags(x: nat)
    ensures Present(Or(x, PTE_PRESENT)) && Present(Or(x, RO_NX)) && Present(Or(x, RW)) && Present(Or(x, RW_NX))
  {
    PresentWord(x, PTE_PRESENT);
    PresentWord(x, RO_NX);
    PresentWord(x, RW);
    PresentWord(x, RW_NX);
  }

  /** The five loops together. */
  lemma {:induction false} LoopsCompose(img: Image, hhdm: nat, text: Calls, rodata: Calls, data: Calls, low: Calls,
                                        a: nat)
    requires CanonicalPage(a)
    requires Covers(Start, text, AlignDown(img.textStart), AlignUp(img.textEnd), Segment(img, PTE_PRESENT))
    requires Covers(text, rodata, AlignDown(img.rodataStart), AlignUp(img.rodataEnd), Segment(img, RO_NX))
    requires Covers(rodata, data, AlignDown(img.dataStart), AlignUp(img.dataEnd), Segment(img, RW_NX))
    requires LowCovers(data, low, hhdm, LOW_TOP)
    ensures EntryAfter(low, a) == InitialEntry(img, hhdm, a)
  {
    PresentFlags(Physical(img, a));
    var e0, e1, e2, e3 := EntryAfter(Start, a), EntryAfter(text, a), EntryAfter(rodata, a), EntryAfter(data, a);
    assert e0 == 0;
    assert e1 == if InSegment(a, img.textStart, img.textEnd) then Or(Physical(img, a), PTE_PRESENT) else 0;
  }

  /** vmm_init, up to the switch to the new root. */
  method Init(vm: Vmm, img: Image) returns (r: Outcome<()>)
    requires vm.Valid() && vm.shape == map[] && DirectMapOk(vm.hhdm) && ImageOk(img)
    modifies vm`kernel, vm`shape, vm.pmm`prev, vm.pmm`ram, vm.pmm.bitmap
    ensures vm.Valid()
    ensures r.Done? ==> OnlyRoot(vm.shape, vm.kernel) && Coherent(vm.shape, vm.pmm.ram, vm.kernel)
    ensures r.Done? ==> Tidy(vm.Tables())
    ensures r.Done? ==>
      forall v :: IsVpn(v) ==> Slot(vm.pmm.ram, vm.kernel, v) == InitialEntry(img, vm.hhdm, AddressOf(v))
    ensures r.Halted? ==> Full(vm.pmm.Used())
  {
    var _ :- NewKernelRoot(vm);
    PagesSpan(img.textStart, img.textEnd);
    PagesSpan(img.rodataStart, img.rodataEnd);
    PagesSpan(img.dataStart, img.dataEnd);
    ghost var text, rodata, data, low;
    r, text := MapSegment(vm, img, AlignDown(img.textStart), AlignUp(img.textEnd), PTE_PRESENT,
                          PagesOf(img.textStart, img.textEnd), Start);
    if r.Halted? { return; }
    r, rodata := MapSegment(vm, img, AlignDown(img.rodataStart), AlignUp(img.rodataEnd), RO_NX,
                            PagesOf(img.rodataStart, img.rodataEnd), text);
    if r.Halted? { return; }
    r, data := MapSegment(vm, img, AlignDown(img.dataStart), AlignUp(img.dataEnd), RW_NX,
                          PagesOf(img.dataStart, img.dataEnd), rodata);
    if r.Halted? { return; }
    r, low := MapLow(vm, data);
    if r.Halted? { return; }
    forall v | IsVpn(v)
      ensures Slot(vm.pmm.ram, vm.kernel, v) == InitialEntry(img, vm.hhdm, AddressOf(v))
      ensures Present(Slot(vm.pmm.ram, vm.kernel, v)) || Slot(vm.pmm.ram, vm.kernel, v) == 0
    {
      CanonicalOnto(v);
      LoopsCompose(img, vm.hhdm, text, rodata, data, low, AddressOf(v));
      BoundExactly(img, vm.hhdm, AddressOf(v));
    }
    TidyAlone(vm.Tables(), vm.kernel);
  }

  lemma TidyAlone(s: State, kernel: nat)
    requires OnlyRoot(s.shape, kernel)
    requires forall v :: IsVpn(v) ==> Present(Slot(s.mem, kernel, v)) || Slot(s.mem, kernel, v) == 0
    ensures Tidy(s)
  {
  }

  /** What linker.ld arranges: a gap of at least a page between segments. */
  ghost predicate Spaced(img: Image) {
    && img.textStart <= img.textEnd && img.textEnd + PAGE_SIZE <= img.rodataStart
    && img.rodataStart <= img.rodataEnd && img.rodataEnd + PAGE_SIZE <= img.dataStart && img.dataStart <= img.dataEnd
  }

  /** So the rounded segments do not meet. */
  lemma SegmentsDisjoint(img: Image)
    requires Spaced(img)
    ensures AlignUp(img.textEnd) <= AlignDown(img.rodataStart) && AlignUp(img.rodataEnd) <= AlignDown(img.dataStart)
  {
  }

  /** The image is loaded page-aligned, above its virtual base, within the 52-bit physical space. */
  ghost predicate Loaded(img: Image, a: nat) {
    && Aligned(img.virtualBase) && Aligned(img.physicalBase) && img.virtualBase <= a < TWO64
    && a - img.virtualBase + img.physicalBase < 0x10_0000_0000_0000
  }

  lemma AlignedDifference(a: nat, v: nat, b: nat, p: nat)
    requires Aligned(a) && Aligned(v) && Aligned(b) && p == a - v + b < FRAMES * PAGE_SIZE
    ensures p / PAGE_SIZE < FRAMES && p / PAGE_SIZE * PAGE_SIZE == p
  {
  }

  lemma PhysicalFrame(img: Image, a: nat)
    requires Loaded(img, a) && Aligned(a)
    ensures Physical(img, a) == a - img.virtualBase + img.physicalBase
    ensures Physical(img, a) / PAGE_SIZE < FRAMES && Physical(img, a) / PAGE_SIZE * PAGE_SIZE == Physical(img, a)
  {
    var p := a - img.virtualBase + img.physicalBase;
    assert a + (TWO64 - img.virtualBase) + img.physicalBase == p + TWO64;
    assert Physical(img, a) == p;
    AlignedDifference(a, img.virtualBase, img.physicalBase, p);
  }

  /** Every page of the kernel image has its own frame and its own segment's flags. */
  lemma ImageEntry(img: Image, hhdm: nat, a: nat)
    requires Spaced(img) && Loaded(img, a) && Aligned(a)
    ensures var e := InitialEntry(img, hhdm, a);
      && (InSegment(a, img.textStart, img.textEnd) ==> FlagsOf(e) == PTE_PRESENT)
      && (InSegment(a, img.rodataStart, img.rodataEnd) ==> FlagsOf(e) == RO_NX)
      && (InSegment(a, img.dataStart, img.dataEnd) ==> FlagsOf(e) == RW_NX)
      && (InImage(img, a) ==> Present(e) && FrameOf(e) * PAGE_SIZE == a - img.virtualBase + img.physicalBase)
  {
    OneSegment(img, a);
    if InSegment(a, img.textStart, img.textEnd) {
      SegmentEntry(img, a, PTE_PRESENT);
    } else if InSegment(a, img.rodataStart, img.rodataEnd) {
      SegmentEntry(img, a, RO_NX);
    } else if InSegment(a, img.dataStart, img.dataEnd) {
      SegmentEntry(img, a, RW_NX);
    }
  }

  lemma OneSegment(img: Image, a: nat)
    requires Spaced(img)
    ensures InSegment(a, img.textStart, img.textEnd) ==> !InSegment(a, img.rodataStart, img.rodataEnd)
    ensures InSegment(a, img.dataStart, img.dataEnd) ==>
      !InSegment(a, img.textStart, img.textEnd) && !InSegment(a, img.rodataStart, img.rodataEnd)
  {
  }

  lemma {:induction false} SegmentEntry(img: Image, a: nat, flags: nat)
    requires Loaded(img, a) && Aligned(a) && flags < TWO64 && FrameOf(flags) == 0 && Present(flags)
    ensures var e := Or(Physical(img, a), flags);
      FlagsOf(e) == flags && Present(e) && FrameOf(e) * PAGE_SIZE == a - img.virtualBase + img.physicalBase
  {
    PhysicalFrame(img, a);
    Pack(Physical(img, a) / PAGE_SIZE, flags);
  }

  predicate InImage(img: Image, a: nat) {
    InSegment(a, img.textStart, img.textEnd) || InSegment(a, img.rodataStart, img.rodataEnd)
    || InSegment(a, img.dataStart, img.dataEnd)
  }

  /** The rights of a frame mapped with flags. */
  lemma {:induction false} MappedRights(x: nat, flags: nat)
    requires x % PAGE_SIZE == 0 && x / PAGE_SIZE < FRAMES
    ensures Writable(Or(x, flags)) <==> Writable(flags)
    ensures NoExecute(Or(x, flags)) <==> NoExecute(flags)
  {
    AddressRights(x / PAGE_SIZE);
    OrRights(x, flags);
  }

  /** The state maps page a as vmm_init does. */
  ghost predicate MappedAt(s: State, kernel: nat, img: Image, hhdm: nat, a: nat) {
    Sound(s) && IsRoot(s.shape, kernel) && Slot(s.mem, kernel, PageOf(a)) == InitialEntry(img, hhdm, a)
  }

  /** The rights on each segment, all four levels taken together: text runs, data is written, rodata neither. */
  lemma ImageRights(s: State, kernel: nat, img: Image, hhdm: nat, a: nat)
    requires Spaced(img) && Loaded(img, a) && Aligned(a) && MappedAt(s, kernel, img, hhdm, a)
    ensures var v := PageOf(a);
      && (InSegment(a, img.textStart, img.textEnd) ==> !CanWrite(s.mem, kernel, v) && CanExecute(s.mem, kernel, v))
      && (InSegment(a, img.rodataStart, img.rodataEnd) ==>
            !CanWrite(s.mem, kernel, v) && !CanExecute(s.mem, kernel, v))
      && (InSegment(a, img.dataStart, img.dataEnd) ==> CanWrite(s.mem, kernel, v) && !CanExecute(s.mem, kernel, v))
  {
    Decode(a);
    RightsAreLeaf(s.mem, s.shape, kernel, PageOf(a));
    ImageEntry(img, hhdm, a);
    ImageEntryRights(img, hhdm, a);
  }

  lemma ImageEntryRights(img: Image, hhdm: nat, a: nat)
    requires Spaced(img) && Loaded(img, a) && Aligned(a)
    ensures var e := InitialEntry(img, hhdm, a);
      && (InSegment(a, img.textStart, img.textEnd) ==> !Writable(e) && !NoExecute(e))
      && (InSegment(a, img.rodataStart, img.rodataEnd) ==> !Writable(e) && NoExecute(e))
      && (InSegment(a, img.dataStart, img.dataEnd) ==> Writable(e) && NoExecute(e))
  {
    OneSegment(img, a);
    PhysicalFrame(img, a);
    FlagRights();
    MappedRights(Physical(img, a), PTE_PRESENT);
    MappedRights(Physical(img, a), RO_NX);
    MappedRights(Physical(img, a), RW_NX);
  }

  /** No page of the kernel image is both writable and executable. */
  lemma WriteXorExecute(s: State, kernel: nat, img: Image, hhdm: nat, a: nat)
    requires Spaced(img) && Loaded(img, a) && Aligned(a) && InImage(img, a) && MappedAt(s, kernel, img, hhdm, a)
    ensures !(CanWrite(s.mem, kernel, PageOf(a)) && CanExecute(s.mem, kernel, PageOf(a)))
  {
    ImageRights(s, kernel, img, hhdm, a);
  }

  /** Nothing is bound but the image, the low pages and their direct map. */
  lemma BoundExactly(img: Image, hhdm: nat, a: nat)
    ensures Present(InitialEntry(img, hhdm, a)) <==>
      InImage(img, a) || PAGE_SIZE <= a < LOW_TOP || hhdm + PAGE_SIZE <= a < hhdm + LOW_TOP
    ensures Present(InitialEntry(img, hhdm, a)) || InitialEntry(img, hhdm, a) == 0
  {
    PresentFlags(Physical(img, a));
    PresentFlags(a);
    if a >= hhdm {
      PresentFlags(a - hhdm);
    }
  }

  /** Every low page a leads to a, and so does hhdm + a unless the image lies there. */
  lemma LowFrames(img: Image, hhdm: nat, a: nat)
    requires ImageOk(img) && DirectMapOk(hhdm) && Aligned(a) && PAGE_SIZE <= a < LOW_TOP
    ensures var e := InitialEntry(img, hhdm, a);
      FrameOf(e) * PAGE_SIZE == a && FlagsOf(e) == RW
    ensures var e := InitialEntry(img, hhdm, hhdm + a);
      !InImage(img, hhdm + a) ==> FrameOf(e) * PAGE_SIZE == a && FlagsOf(e) == RW_NX
  {
    LowIdentity(img, hhdm, a);
    if !InImage(img, hhdm + a) {
      LowDirect(img, hhdm, a);
    }
  }

  /** Low pages may be written and executed; their direct map may be written only. */
  lemma LowRights(s: State, kernel: nat, img: Image, hhdm: nat, a: nat)
    requires ImageOk(img) && DirectMapOk(hhdm) && Aligned(a) && PAGE_SIZE <= a < LOW_TOP
    requires MappedAt(s, kernel, img, hhdm, a) && MappedAt(s, kernel, img, hhdm, hhdm + a)
    ensures CanWrite(s.mem, kernel, PageOf(a)) && CanExecute(s.mem, kernel, PageOf(a))
    ensures !InImage(img, hhdm + a) ==>
      CanWrite(s.mem, kernel, PageOf(hhdm + a)) && !CanExecute(s.mem, kernel, PageOf(hhdm + a))
  {
    Decode(a);
    Decode(hhdm + a);
    RightsAreLeaf(s.mem, s.shape, kernel, PageOf(a));
    RightsAreLeaf(s.mem, s.shape, kernel, PageOf(hhdm + a));
    LowEntryRights(img, hhdm, a);
  }

  lemma LowEntryRights(img: Image, hhdm: nat, a: nat)
    requires ImageOk(img) && DirectMapOk(hhdm) && Aligned(a) && PAGE_SIZE <= a < LOW_TOP
    ensures var e := InitialEntry(img, hhdm, a); Present(e) && Writable(e) && !NoExecute(e)
    ensures var e := InitialEntry(img, hhdm, hhdm + a);
      !InImage(img, hhdm + a) ==> Present(e) && Writable(e) && NoExecute(e)
  {
    NotInSegment(img.textStart, img.textEnd, a);
    NotInSegment(img.rodataStart, img.rodataEnd, a);
    NotInSegment(img.dataStart, img.dataEnd, a);
    PresentFlags(a);
    FlagRights();
    MappedRights(a, RW);
    MappedRights(a, RW_NX);
  }

  lemma LowIdentity(img: Image, hhdm: nat, a: nat)
    requires ImageOk(img) && Aligned(a) && PAGE_SIZE <= a < LOW_TOP
    ensures var e := InitialEntry(img, hhdm, a); FrameOf(e) * PAGE_SIZE == a && FlagsOf(e) == RW
  {
    NotInSegment(img.textStart, img.textEnd, a);
    NotInSegment(img.rodataStart, img.rodataEnd, a);
    NotInSegment(img.dataStart, img.dataEnd, a);
    Pack(a / PAGE_SIZE, RW);
  }

  lemma LowDirect(img: Image, hhdm: nat, a: nat)
    requires DirectMapOk(hhdm) && Aligned(a) && PAGE_SIZE <= a < LOW_TOP && !InImage(img, hhdm + a)
    ensures var e := InitialEntry(img, hhdm, hhdm + a); FrameOf(e) * PAGE_SIZE == a && FlagsOf(e) == RW_NX
  {
    Pack(a / PAGE_SIZE, RW_NX);
  }

  lemma NotInSegment(start: nat, end: nat, a: nat)
    requires SegmentOk(start, end) && a < LOW_TOP
    ensures !InSegment(a, start, end)
  {
  }

  /** Below 4 GiB every frame but the first is bound at its own address, so vmm_new's odd map calls find it bound. */
  lemma IdentityBound(img: Image, hhdm: nat, frame: nat)
    requires 0 < frame < LOW_TOP / PAGE_SIZE
    ensures Present(InitialEntry(img, hhdm, frame * PAGE_SIZE))
  {
  }
}
