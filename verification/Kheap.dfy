/** kheap.c: one arena per allocation, its pages bound in the direct map while it lives. */
module KernelHeap {
  import opened Outcomes
  import opened Bits
  import opened NextFit
  import opened Pte
  import opened PageTable
  import opened PhysicalMemory
  import opened VirtualMemory

  /** Bytes before the payload: sizeof(arena_t) + sizeof(arena_metadata). */
  const HEADER: nat := 48

  /** `DIV_ROUNDUP(size + 48, PAGE_SIZE)` in 64-bit arithmetic. */
  function PagesFor(size: nat): nat { ((size + HEADER) % TWO64 + (PAGE_SIZE - 1)) % TWO64 / PAGE_SIZE }

  /** The pages hold header and payload exactly when the sum does not wrap. */
  lemma PayloadFitsIff(size: nat)
    requires size < TWO64
    ensures HEADER + size <= PagesFor(size) * PAGE_SIZE <==> Fits(size)
    ensures Fits(size) ==> PagesFor(size) * PAGE_SIZE < HEADER + size + PAGE_SIZE
  {
  }

  /** The largest size gets a single page. */
  lemma HugeSizeWraps()
    ensures PagesFor(TWO64 - 1) == 1 && !Fits(TWO64 - 1)
  {
  }

  function DirectPage(hhdm: nat, p: nat): Vpn { PageOf(hhdm + p * PAGE_SIZE) }

  ghost predicate DirectFits(hhdm: nat, top: nat) {
    Aligned(hhdm) && 0xffff_8000_0000_0000 <= hhdm && hhdm + top * PAGE_SIZE <= TWO64
  }

  /** The kernel's entries for the direct map of frames 0, 1, .... */
  ghost function Window(s: State, kernel: nat, hhdm: nat): (win: seq<nat>)
    ensures |win| == |s.mem|
    ensures forall p :: 0 <= p < |win| ==> win[p] == Slot(s.mem, kernel, DirectPage(hhdm, p))
  {
    seq(|s.mem|, p requires 0 <= p < |s.mem| => Slot(s.mem, kernel, DirectPage(hhdm, p)))
  }

  lemma DirectDistinct(hhdm: nat, top: nat, p: nat, q: nat)
    requires DirectFits(hhdm, top) && p < top && q < top
    ensures IsVpn(DirectPage(hhdm, p))
    ensures DirectPage(hhdm, p) == DirectPage(hhdm, q) ==> p == q
  {
    var a, b := hhdm + p * PAGE_SIZE, hhdm + q * PAGE_SIZE;
    Decode(a);
    DirectCanonical(hhdm, top, p);
    DirectCanonical(hhdm, top, q);
    if PageOf(a) == PageOf(b) {
      CanonicalUnique(a, b);
    }
  }

  lemma DirectCanonical(hhdm: nat, top: nat, p: nat)
    requires DirectFits(hhdm, top) && p < top
    ensures CanonicalPage(hhdm + p * PAGE_SIZE)
  {
  }

  lemma WindowWritten(s: State, s': State, kernel: nat, hhdm: nat, p: nat, w: nat)
    requires DirectFits(hhdm, |s.mem|) && p < |s.mem| && IsRoot(s.shape, kernel)
    requires Written(s, s', kernel, DirectPage(hhdm, p), w)
    ensures Window(s', kernel, hhdm) == Window(s, kernel, hhdm)[p := w]
  {
    forall q | 0 <= q < |s.mem|
      ensures Slot(s'.mem, kernel, DirectPage(hhdm, q)) ==
        if q == p then w else Slot(s.mem, kernel, DirectPage(hhdm, q))
    {
      DirectDistinct(hhdm, |s.mem|, q, p);
    }
  }

  lemma WindowSame(s: State, s': State, kernel: nat, hhdm: nat)
    requires DirectFits(hhdm, |s.mem|) && IsRoot(s.shape, kernel) && |s'.mem| == |s.mem|
    requires SameSlots(s.shape, s.mem, s'.mem)
    ensures Window(s', kernel, hhdm) == Window(s, kernel, hhdm)
  {
  }

  datatype Block = Block(size: nat, pages: nat)

  function Pointer(hhdm: nat, frame: nat): nat { hhdm + frame * PAGE_SIZE }

  /** The arena header and the metadata word behind it: next, base, size, offset, allocated, arena_base. */
  function Header(hhdm: nat, frame: nat, b: Block): seq<nat> {
    [0, Pointer(hhdm, frame), b.pages * PAGE_SIZE, (HEADER + b.size) % TWO64, 1, Pointer(hhdm, frame)]
  }

  /**
   What the header says: no next arena, itself as base, whole pages as size, the end of the payload as offset, one
   allocation, and the way back from the payload.
   */
  lemma HeaderDescribes(hhdm: nat, frame: nat, b: Block)
    requires b.size < TWO64 && Fits(b.size) && b.pages == PagesFor(b.size)
    ensures var h, start := Header(hhdm, frame, b), Pointer(hhdm, frame);
      && |h| * 8 == HEADER && h[0] == 0 && h[1] == start && h[4] == 1 && h[5] == h[1]
      && h[1] + h[3] == start + HEADER + b.size && h[3] <= h[2] < h[3] + PAGE_SIZE && h[2] == b.pages * PAGE_SIZE
  {
    PayloadFitsIff(b.size);
  }

  /** A live block: its frames are taken, are no tables, are bound in the direct map, and start with its header. */
  ghost predicate BlockOk(s: State, win: seq<nat>, hhdm: nat, frame: nat, b: Block) {
    && 0 < frame && 0 < b.pages && frame + b.pages <= |s.mem| == |s.used| == |win|
    && (forall p: nat :: In(p, frame, b.pages) ==> s.used[p] && p !in s.shape && Present(win[p]))
    && |s.mem[frame]| == ENTRIES && s.mem[frame][..6] == Header(hhdm, frame, b)
  }

  /** Every bound page of the direct map leads to its own frame and may be written. */
  ghost predicate WindowOk(win: seq<nat>) {
    forall p :: 0 <= p < |win| && Present(win[p]) ==> FrameOf(win[p]) == p && Writable(win[p])
  }

  ghost predicate HeapOk(s: State, win: seq<nat>, hhdm: nat, live: map<nat, Block>) {
    && WindowOk(win)
    && (forall b :: b in live ==> BlockOk(s, win, hhdm, b, live[b]))
    && Disjoint(live)
  }

  ghost predicate Disjoint(live: map<nat, Block>) {
    forall b, b', p: nat :: b in live && b' in live && In(p, b, live[b].pages) && In(p, b', live[b'].pages) ==> b == b'
  }

  /** Header and payload of that size fit 64 bits. */
  predicate Fits(size: nat) { size + HEADER + (PAGE_SIZE - 1) < TWO64 }

  /** Every live block owns the pages k_alloc computes for its size. */
  ghost predicate Sized(live: map<nat, Block>) {
    forall b :: b in live ==> live[b].size < TWO64 && live[b].pages == PagesFor(live[b].size)
  }

  lemma PageWithin(b: nat, n: nat, x: nat)
    requires b * PAGE_SIZE <= x < b * PAGE_SIZE + n * PAGE_SIZE
    ensures In(x / PAGE_SIZE, b, n)
  {
    assert b <= x / PAGE_SIZE;
    assert x / PAGE_SIZE < b + n;
  }

  /**
   In a state of the heap a byte of one live payload lies in no other live payload or header, and its page is bound
   to its own frame.
   */
  lemma PayloadsApart(s: State, win: seq<nat>, hhdm: nat, live: map<nat, Block>, b: nat, b': nat, x: nat)
    requires HeapOk(s, win, hhdm, live) && Sized(live) && b in live && b' in live
    requires Fits(live[b].size) && Fits(live[b'].size)
    requires b * PAGE_SIZE + HEADER <= x < b * PAGE_SIZE + HEADER + live[b].size
    ensures b' * PAGE_SIZE <= x < b' * PAGE_SIZE + HEADER + live[b'].size ==> b == b'
    ensures x / PAGE_SIZE < |win| && Present(win[x / PAGE_SIZE]) && FrameOf(win[x / PAGE_SIZE]) == x / PAGE_SIZE
  {
    PayloadFitsIff(live[b].size);
    PageWithin(b, live[b].pages, x);
    assert BlockOk(s, win, hhdm, b, live[b]);
    if b' * PAGE_SIZE <= x < b' * PAGE_SIZE + HEADER + live[b'].size {
      PayloadFitsIff(live[b'].size);
      PageWithin(b', live[b'].pages, x);
    }
  }

  /** Such a byte may be written: the rights on its page, all four levels taken together. */
  lemma PayloadWritable(s: State, kernel: nat, hhdm: nat, live: map<nat, Block>, b: nat, x: nat)
    requires Sound(s) && IsRoot(s.shape, kernel) && DirectFits(hhdm, |s.mem|) && b in live && Fits(live[b].size)
    requires HeapOk(s, Window(s, kernel, hhdm), hhdm, live) && Sized(live)
    requires b * PAGE_SIZE + HEADER <= x < b * PAGE_SIZE + HEADER + live[b].size
    ensures CanWrite(s.mem, kernel, DirectPage(hhdm, x / PAGE_SIZE))
  {
    var p := x / PAGE_SIZE;
    PayloadsApart(s, Window(s, kernel, hhdm), hhdm, live, b, b, x);
    DirectDistinct(hhdm, |s.mem|, p, p);
    RightsAreLeaf(s.mem, s.shape, kernel, DirectPage(hhdm, p));
  }

  /** Map calls for n direct-map pages from `start` on. */
  function BindRange(win: seq<nat>, start: nat, n: nat): (r: seq<nat>)
    ensures |r| == |win|
    ensures forall p :: 0 <= p < |win| ==>
      r[p] == if In(p, start, n) && !Present(win[p]) then Or(p * PAGE_SIZE, RW) else win[p]
  {
    seq(|win|, p requires 0 <= p < |win| =>
      if In(p, start, n) && !Present(win[p]) then Or(p * PAGE_SIZE, RW) else win[p])
  }

  /** Unmap calls for the same pages. */
  function ClearRange(win: seq<nat>, start: nat, n: nat): (r: seq<nat>)
    ensures |r| == |win|
    ensures forall p :: 0 <= p < |win| ==> r[p] == if In(p, start, n) && Present(win[p]) then 0 else win[p]
  {
    seq(|win|, p requires 0 <= p < |win| => if In(p, start, n) && Present(win[p]) then 0 else win[p])
  }

  /** A block as pmm_alloc leaves it: n frames that were free, now taken and cleared. */
  ghost predicate Taken(s: State, s': State, b: nat, n: nat) {
    && 0 < n && 0 < b && b + n <= |s.used| == |s.mem| && s'.shape == s.shape && |s'.mem| == |s.mem|
    && s'.used == Fill(s.used, b, n, true)
    && (forall p: nat :: In(p, b, n) ==> !s.used[p])
    && (forall p :: 0 <= p < |s.mem| ==> s'.mem[p] == if In(p, b, n) then ZeroPage() else s.mem[p])
  }

  lemma TakenSound(s: State, s': State, b: nat, n: nat)
    requires Sound(s) && Taken(s, s', b, n)
    ensures Sound(s') && SameSlots(s.shape, s.mem, s'.mem)
    ensures forall p: nat :: In(p, b, n) ==> p !in s'.shape
  {
    TablesAlone(s, s');
  }

  /** The six words k_alloc writes at the start of the block. */
  function WithHeader(page: Page, words: seq<nat>): Page
    requires |page| == ENTRIES && |words| == 6
  {
    words + page[6..]
  }

  /** All of k_alloc on the tables: s0 as found, s1 with the frames taken, s2 with them bound, s3 with the header. */
  ghost predicate AllocSteps(s0: State, s1: State, s2: State, s3: State, hhdm: nat, b: nat, blk: Block) {
    && Sound(s0) && Sound(s2) && Taken(s0, s1, b, blk.pages) && Grows(s1, s2)
    && s3.used == s2.used && s3.shape == s2.shape && b < |s2.mem| && |s2.mem[b]| == ENTRIES
    && s3.mem == s2.mem[b := WithHeader(s2.mem[b], Header(hhdm, b, blk))]
  }

  lemma NewBlockOk(s0: State, s1: State, s2: State, s3: State, win: seq<nat>, hhdm: nat, b: nat, blk: Block)
    requires AllocSteps(s0, s1, s2, s3, hhdm, b, blk) && WindowOk(win) && |win| == |s0.mem|
    ensures BlockOk(s3, BindRange(win, b, blk.pages), hhdm, b, blk)
  {
    WindowBound(win, b, blk.pages);
    forall p: nat | In(p, b, blk.pages)
      ensures s3.used[p] && p !in s3.shape
    {
      assert s1.used[p];
    }
  }

  lemma OldBlockOk(s0: State, s1: State, s2: State, s3: State, win: seq<nat>, hhdm: nat, b: nat, blk: Block, c: nat,
                   old_: Block)
    requires AllocSteps(s0, s1, s2, s3, hhdm, b, blk) && BlockOk(s0, win, hhdm, c, old_)
    ensures BlockOk(s3, BindRange(win, b, blk.pages), hhdm, c, old_)
    ensures forall p: nat :: In(p, c, old_.pages) ==> !In(p, b, blk.pages)
  {
    assert In(c, c, old_.pages);
    BlockKept(s0, s1, win, hhdm, c, old_);
    BlockKept(s1, s2, win, hhdm, c, old_);
  }

  /** The old blocks are undisturbed and the new one joins them. */
  lemma HeapGrows(s0: State, s1: State, s2: State, s3: State, win: seq<nat>, hhdm: nat, live: map<nat, Block>, b: nat,
                  blk: Block)
    requires AllocSteps(s0, s1, s2, s3, hhdm, b, blk) && |win| == |s0.mem| && HeapOk(s0, win, hhdm, live)
    ensures b !in live && HeapOk(s3, BindRange(win, b, blk.pages), hhdm, live[b := blk])
  {
    forall c | c in live
      ensures BlockOk(s3, BindRange(win, b, blk.pages), hhdm, c, live[c])
      ensures forall p: nat :: In(p, c, live[c].pages) ==> !In(p, b, blk.pages)
    {
      assert BlockOk(s0, win, hhdm, c, live[c]);
      OldBlockOk(s0, s1, s2, s3, win, hhdm, b, blk, c, live[c]);
    }
    assert b !in live by {
      assert In(b, b, blk.pages);
      assert b in live ==> BlockOk(s0, win, hhdm, b, live[b]) && In(b, b, live[b].pages);
    }
    WindowBound(win, b, blk.pages);
    NewBlockOk(s0, s1, s2, s3, win, hhdm, b, blk);
    DisjointInsert(live, b, blk);
  }

  lemma DisjointInsert(live: map<nat, Block>, b: nat, blk: Block)
    requires Disjoint(live) && b !in live
    requires forall c, p: nat :: c in live && In(p, c, live[c].pages) ==> !In(p, b, blk.pages)
    ensures Disjoint(live[b := blk])
  {
  }

  /** A block none of whose frames changes hands or contents stays well formed. */
  lemma BlockKept(s: State, s': State, win: seq<nat>, hhdm: nat, c: nat, blk: Block)
    requires BlockOk(s, win, hhdm, c, blk) && |s'.used| == |s.used| && |s'.mem| == |s.mem|
    requires forall p: nat :: In(p, c, blk.pages) ==> s'.used[p] && p !in s'.shape && s'.mem[p] == s.mem[p]
    ensures BlockOk(s', win, hhdm, c, blk)
  {
  }

  lemma WindowBound(win: seq<nat>, b: nat, n: nat)
    requires WindowOk(win) && b + n <= |win| <= FRAMES
    ensures WindowOk(BindRange(win, b, n))
    ensures forall p: nat :: In(p, b, n) ==> Present(BindRange(win, b, n)[p])
  {
    forall p | 0 <= p < |win|
      ensures var w := Or(p * PAGE_SIZE, RW); FrameOf(w) == p && Present(w) && Writable(w)
    {
      Pack(p, RW);
      FlagRights();
      OrRights(p * PAGE_SIZE, RW);
    }
  }

  /** All of k_free on the tables: exactly the freed block leaves. */
  lemma HeapShrinks(s0: State, s1: State, s2: State, win: seq<nat>, hhdm: nat, live: map<nat, Block>, b: nat)
    requires HeapOk(s0, win, hhdm, live) && b in live && |win| == |s0.mem| == |s0.used|
    requires s1.shape == s0.shape && s1.used == Fill(s0.used, b, live[b].pages, false) && |s1.mem| == |s0.mem|
    requires forall p :: 0 <= p < |s0.mem| && p != b ==> s1.mem[p] == s0.mem[p]
    requires Grows(s1, s2) && s2.shape == s1.shape
    ensures HeapOk(s2, ClearRange(win, b, live[b].pages), hhdm, live - {b})
  {
    var win', live' := ClearRange(win, b, live[b].pages), live - {b};
    forall c | c in live'
      ensures BlockOk(s2, win', hhdm, c, live[c])
    {
      assert BlockOk(s0, win, hhdm, c, live[c]) && BlockOk(s0, win, hhdm, b, live[b]) && In(b, b, live[b].pages);
      BlockKept(s0, s1, win, hhdm, c, live[c]);
      BlockKept(s1, s2, win, hhdm, c, live[c]);
    }
  }

  /** Page v is in the direct map of frames b to b + n - 1. */
  ghost predicate InRange(hhdm: nat, b: nat, n: nat, v: Vpn) {
    exists p: nat :: In(p, b, n) && v == DirectPage(hhdm, p)
  }

  /** Nothing but those pages of the kernel, and of the roots that share their tables, has changed. */
  ghost predicate OthersKept(s: State, s': State, kernel: nat, hhdm: nat, b: nat, n: nat) {
    forall r, v :: IsRoot(s.shape, r) && IsVpn(v) ==>
      Slot(s'.mem, r, v) == Slot(s.mem, r, v)
      || (InRange(hhdm, b, n, v) && (r == kernel || Shared(s'.mem, kernel, r, v)))
  }

  /** All that the loop of k_alloc has done after n pages. */
  ghost predicate BlockBound(s: State, s': State, kernel: nat, hhdm: nat, b: nat, n: nat) {
    && Sound(s') && Grows(s, s') && Window(s', kernel, hhdm) == BindRange(Window(s, kernel, hhdm), b, n)
    && OthersKept(s, s', kernel, hhdm, b, n)
  }

  /** All that the loop of k_free has done after n pages. */
  ghost predicate BlockUnbound(s: State, s': State, kernel: nat, hhdm: nat, b: nat, n: nat) {
    && Sound(s') && Grows(s, s') && s'.shape == s.shape && s'.used == s.used
    && Window(s', kernel, hhdm) == ClearRange(Window(s, kernel, hhdm), b, n) && OthersKept(s, s', kernel, hhdm, b, n)
  }

  lemma NoneBound(s: State, kernel: nat, hhdm: nat, b: nat)
    requires Sound(s)
    ensures BlockBound(s, s, kernel, hhdm, b, 0)
  {
    BindRangeNone(Window(s, kernel, hhdm), b);
  }

  lemma NoneUnbound(s: State, kernel: nat, hhdm: nat, b: nat)
    requires Sound(s)
    ensures BlockUnbound(s, s, kernel, hhdm, b, 0)
  {
    ClearRangeNone(Window(s, kernel, hhdm), b);
  }

  /** One more page written. */
  lemma OthersStep(s: State, m: State, s': State, kernel: nat, hhdm: nat, b: nat, i: nat, p: nat, w: nat)
    requires Grows(s, m) && OthersKept(s, m, kernel, hhdm, b, i) && IsRoot(s.shape, kernel) && p == b + i
    requires Written(m, s', kernel, DirectPage(hhdm, p), w)
    ensures OthersKept(s, s', kernel, hhdm, b, i + 1)
  {
    forall r, v | IsRoot(s.shape, r) && IsVpn(v)
      && !(InRange(hhdm, b, i + 1, v) && (r == kernel || Shared(s'.mem, kernel, r, v)))
      ensures Slot(s'.mem, r, v) == Slot(s.mem, r, v)
    {
      RangeGrows(hhdm, b, i, v);
      assert IsRoot(m.shape, r) && IsRoot(m.shape, kernel);
      if Shared(m.mem, kernel, r, v) {
        SharedKept(m, s', kernel, r, v);
      }
    }
  }

  lemma RangeGrows(hhdm: nat, b: nat, i: nat, v: Vpn)
    ensures InRange(hhdm, b, i, v) ==> InRange(hhdm, b, i + 1, v)
    ensures v == DirectPage(hhdm, b + i) ==> InRange(hhdm, b, i + 1, v)
  {
    assert In(b + i, b, i + 1);
    if p: nat :| In(p, b, i) && v == DirectPage(hhdm, p) {
      assert In(p, b, i + 1);
    }
  }

  lemma OthersUnchanged(s: State, m: State, kernel: nat, hhdm: nat, b: nat, i: nat)
    requires OthersKept(s, m, kernel, hhdm, b, i)
    ensures OthersKept(s, m, kernel, hhdm, b, i + 1)
  {
    forall r, v | IsRoot(s.shape, r) && IsVpn(v)
      && !(InRange(hhdm, b, i + 1, v) && (r == kernel || Shared(m.mem, kernel, r, v)))
      ensures Slot(m.mem, r, v) == Slot(s.mem, r, v)
    {
      RangeGrows(hhdm, b, i, v);
    }
  }

  lemma {:induction false} BindsWindow(m: State, s': State, kernel: nat, hhdm: nat, b: nat, i: nat, p: nat,
                                       win: seq<nat>)
    requires DirectFits(hhdm, |m.mem|) && p == b + i < |m.mem| && IsRoot(m.shape, kernel)
    requires Window(m, kernel, hhdm) == BindRange(win, b, i)
    requires Mapped(m, s', kernel, DirectPage(hhdm, p), Or(p * PAGE_SIZE, RW))
    ensures Window(s', kernel, hhdm) == BindRange(win, b, i + 1)
  {
    MapStep(m, s', kernel, hhdm, p);
    RangeJoined(win, Window(m, kernel, hhdm), Window(s', kernel, hhdm), b, i);
  }

  lemma RangeJoined(win: seq<nat>, win': seq<nat>, win'': seq<nat>, b: nat, i: nat)
    requires win' == BindRange(win, b, i) && win'' == BindRange(win', b + i, 1)
    ensures win'' == BindRange(win, b, i + 1)
  {
    BindRangeStep(win, b, i);
  }

  lemma UnbindsWindow(m: State, s': State, kernel: nat, hhdm: nat, b: nat, i: nat, p: nat, win: seq<nat>, ok: bool)
    requires DirectFits(hhdm, |m.mem|) && p == b + i < |m.mem| && IsRoot(m.shape, kernel)
    requires Window(m, kernel, hhdm) == ClearRange(win, b, i)
    requires ok <==> Present(Slot(m.mem, kernel, DirectPage(hhdm, p)))
    requires if ok then Written(m, s', kernel, DirectPage(hhdm, p), 0) else s' == m
    ensures Window(s', kernel, hhdm) == ClearRange(win, b, i + 1)
  {
    UnmapStep(m, s', kernel, hhdm, p, ok);
    ClearRangeStep(win, b, i);
  }

  lemma {:induction false} BindsNext(s: State, m: State, s': State, kernel: nat, hhdm: nat, b: nat, i: nat, p: nat,
                                     next: nat)
    requires Sound(s) && IsRoot(s.shape, kernel) && DirectFits(hhdm, |s.mem|) && p == b + i < |s.mem| && next == i + 1
    requires BlockBound(s, m, kernel, hhdm, b, i) && Sound(s')
    requires Mapped(m, s', kernel, DirectPage(hhdm, p), Or(p * PAGE_SIZE, RW))
    ensures BlockBound(s, s', kernel, hhdm, b, next)
  {
    var was := Slot(m.mem, kernel, DirectPage(hhdm, p));
    GrowsTransitive(s, m, s');
    BindsWindow(m, s', kernel, hhdm, b, i, p, Window(s, kernel, hhdm));
    OthersStep(s, m, s', kernel, hhdm, b, i, p, if Present(was) then was else Or(p * PAGE_SIZE, RW));
  }

  lemma UnbindsNext(s: State, m: State, s': State, kernel: nat, hhdm: nat, b: nat, i: nat, p: nat, next: nat, ok: bool)
    requires Sound(s) && IsRoot(s.shape, kernel) && DirectFits(hhdm, |s.mem|) && p == b + i < |s.mem| && next == i + 1
    requires BlockUnbound(s, m, kernel, hhdm, b, i) && Sound(s') && s'.shape == m.shape && s'.used == m.used
    requires ok <==> Present(Slot(m.mem, kernel, DirectPage(hhdm, p)))
    requires if ok then Written(m, s', kernel, DirectPage(hhdm, p), 0) else s' == m
    ensures BlockUnbound(s, s', kernel, hhdm, b, next)
  {
    UnbindsWindow(m, s', kernel, hhdm, b, i, p, Window(s, kernel, hhdm), ok);
    if ok {
      GrowsTransitive(s, m, s');
      OthersStep(s, m, s', kernel, hhdm, b, i, p, 0);
    } else {
      OthersUnchanged(s, m, kernel, hhdm, b, i);
    }
  }

  /** Writes to frames that are no tables, before or after, change nothing further. */
  lemma OthersAfter(s0: State, s1: State, s2: State, kernel: nat, hhdm: nat, b: nat, n: nat)
    requires s1.shape == s0.shape && SameSlots(s0.shape, s0.mem, s1.mem) && OthersKept(s1, s2, kernel, hhdm, b, n)
    ensures OthersKept(s0, s2, kernel, hhdm, b, n)
  {
  }

  lemma OthersBefore(s0: State, s2: State, s3: State, kernel: nat, hhdm: nat, b: nat, n: nat)
    requires OthersKept(s0, s2, kernel, hhdm, b, n) && Sound(s2) && IsRoot(s2.shape, kernel)
    requires SameSlots(s2.shape, s2.mem, s3.mem) && |s3.mem| == |s2.mem|
    requires forall r :: IsRoot(s0.shape, r) ==> IsRoot(s2.shape, r)
    requires forall t :: t in s2.shape ==> s3.mem[t] == s2.mem[t]
    ensures OthersKept(s0, s3, kernel, hhdm, b, n)
  {
    forall r, v | IsRoot(s0.shape, r) && IsVpn(v)
      ensures Shared(s3.mem, kernel, r, v) == Shared(s2.mem, kernel, r, v)
    {
      assert IsRoot(s2.shape, r);
    }
  }

  /** The state with the header of block b written. */
  ghost function Headed(s: State, hhdm: nat, b: nat, blk: Block): State
    requires b < |s.mem| && |s.mem[b]| == ENTRIES
  {
    s.(mem := s.mem[b := WithHeader(s.mem[b], Header(hhdm, b, blk))])
  }

  /** k_alloc: s0 as found, s1 with the frames taken, s2 with them bound, s3 with the header. */
  ghost predicate ArenaSteps(s0: State, s1: State, s2: State, s3: State, kernel: nat, hhdm: nat, b: nat, blk: Block) {
    && Taken(s0, s1, b, blk.pages) && BlockBound(s1, s2, kernel, hhdm, b, blk.pages)
    && b !in s2.shape && b < |s2.mem| && |s2.mem[b]| == ENTRIES && s3 == Headed(s2, hhdm, b, blk)
  }

  lemma NotATable(s0: State, s1: State, s2: State, b: nat, n: nat)
    requires Sound(s0) && Taken(s0, s1, b, n) && Grows(s1, s2)
    ensures b !in s2.shape
  {
    assert In(b, b, n) && s1.used[b];
  }

  lemma TakenFrame(s0: State, s1: State, s2: State, kernel: nat, hhdm: nat, b: nat, n: nat)
    requires Sound(s0) && IsRoot(s0.shape, kernel) && DirectFits(hhdm, |s0.mem|)
    requires Taken(s0, s1, b, n) && BlockBound(s1, s2, kernel, hhdm, b, n)
    ensures Window(s2, kernel, hhdm) == BindRange(Window(s0, kernel, hhdm), b, n)
    ensures OthersKept(s0, s2, kernel, hhdm, b, n)
  {
    TakenSound(s0, s1, b, n);
    WindowSame(s0, s1, kernel, hhdm);
    OthersAfter(s0, s1, s2, kernel, hhdm, b, n);
  }

  lemma HeaderFrame(s0: State, s2: State, kernel: nat, hhdm: nat, b: nat, blk: Block)
    requires Sound(s2) && IsRoot(s2.shape, kernel) && DirectFits(hhdm, |s2.mem|)
    requires b < |s2.mem| && |s2.mem[b]| == ENTRIES && b !in s2.shape
    requires OthersKept(s0, s2, kernel, hhdm, b, blk.pages) && forall r :: IsRoot(s0.shape, r) ==> IsRoot(s2.shape, r)
    ensures Window(Headed(s2, hhdm, b, blk), kernel, hhdm) == Window(s2, kernel, hhdm)
    ensures OthersKept(s0, Headed(s2, hhdm, b, blk), kernel, hhdm, b, blk.pages)
  {
    var s3 := Headed(s2, hhdm, b, blk);
    TablesAlone(s2, s3);
    WindowSame(s2, s3, kernel, hhdm);
    OthersBefore(s0, s2, s3, kernel, hhdm, b, blk.pages);
  }

  /** What k_alloc does to the address spaces. */
  lemma ArenaFrame(s0: State, s1: State, s2: State, s3: State, kernel: nat, hhdm: nat, b: nat, blk: Block)
    requires Sound(s0) && IsRoot(s0.shape, kernel) && DirectFits(hhdm, |s0.mem|)
    requires ArenaSteps(s0, s1, s2, s3, kernel, hhdm, b, blk)
    ensures Window(s3, kernel, hhdm) == BindRange(Window(s0, kernel, hhdm), b, blk.pages)
    ensures OthersKept(s0, s3, kernel, hhdm, b, blk.pages)
  {
    TakenFrame(s0, s1, s2, kernel, hhdm, b, blk.pages);
    HeaderFrame(s0, s2, kernel, hhdm, b, blk);
  }

  lemma ArenaMade(s0: State, s1: State, s2: State, s3: State, kernel: nat, hhdm: nat, live: map<nat, Block>, b: nat,
                  blk: Block)
    requires Sound(s0) && IsRoot(s0.shape, kernel) && DirectFits(hhdm, |s0.mem|)
    requires HeapOk(s0, Window(s0, kernel, hhdm), hhdm, live)
    requires ArenaSteps(s0, s1, s2, s3, kernel, hhdm, b, blk)
    ensures b !in live && HeapOk(s3, Window(s3, kernel, hhdm), hhdm, live[b := blk])
  {
    ArenaFrame(s0, s1, s2, s3, kernel, hhdm, b, blk);
    HeapGrows(s0, s1, s2, s3, Window(s0, kernel, hhdm), hhdm, live, b, blk);
  }

  lemma ArenaEffect(s0: State, s1: State, s2: State, s3: State, kernel: nat, hhdm: nat, b: nat, blk: Block)
    requires Sound(s0) && IsRoot(s0.shape, kernel) && DirectFits(hhdm, |s0.mem|)
    requires ArenaSteps(s0, s1, s2, s3, kernel, hhdm, b, blk)
    ensures Allocated(s0, s3, kernel, hhdm, b, blk.pages)
  {
    ArenaFrame(s0, s1, s2, s3, kernel, hhdm, b, blk);
    TakenTables(s0, s1, s2, b, blk.pages);
    HeadedTables(s0, s2, hhdm, b, blk);
  }

  /** The frames of block b are taken, and none of them holds a table. */
  ghost predicate OwnFrames(s: State, b: nat, n: nat) {
    0 < b && 0 < n && b + n <= |s.used| && forall p: nat :: In(p, b, n) ==> s.used[p] && p !in s.shape
  }

  lemma BlockFrames(s: State, win: seq<nat>, hhdm: nat, live: map<nat, Block>, b: nat)
    requires HeapOk(s, win, hhdm, live) && b in live
    ensures OwnFrames(s, b, live[b].pages)
  {
    assert BlockOk(s, win, hhdm, b, live[b]);
  }

  /** The block with its count stored. */
  ghost predicate Recounted(s0: State, s1: State, b: nat, left: nat) {
    && b < |s0.mem| && |s0.mem[b]| == ENTRIES && b !in s0.shape
    && s1 == State(s0.used, SetEntry(s0.mem, b, 4, left), s0.shape)
  }

  /** The block with its count stored and its frames given back. */
  ghost predicate Returned(s0: State, s1: State, b: nat, n: nat, left: nat) {
    && b < |s0.mem| && |s0.mem[b]| == ENTRIES && b !in s0.shape && Sound(s1)
    && s1 == State(Fill(s0.used, b, n, false), SetEntry(s0.mem, b, 4, left), s0.shape)
  }

  lemma ReturnedSame(s0: State, s1: State, kernel: nat, hhdm: nat, b: nat, n: nat, left: nat)
    requires Sound(s0) && IsRoot(s0.shape, kernel) && DirectFits(hhdm, |s0.mem|) && Returned(s0, s1, b, n, left)
    ensures SameSlots(s0.shape, s0.mem, s1.mem) && Window(s1, kernel, hhdm) == Window(s0, kernel, hhdm)
  {
    TablesAlone(s0, s1);
    WindowSame(s0, s1, kernel, hhdm);
  }

  /** All of k_free: the block returned in some state s1, and then its pages unbound. */
  ghost predicate Dropped(s0: State, s2: State, kernel: nat, hhdm: nat, b: nat, n: nat, left: nat) {
    exists s1 :: Returned(s0, s1, b, n, left) && BlockUnbound(s1, s2, kernel, hhdm, b, n)
  }

  lemma ArenaGone(s0: State, s2: State, kernel: nat, hhdm: nat, live: map<nat, Block>, b: nat, left: nat)
    requires Sound(s0) && IsRoot(s0.shape, kernel) && DirectFits(hhdm, |s0.mem|) && b in live
    requires HeapOk(s0, Window(s0, kernel, hhdm), hhdm, live)
    requires Dropped(s0, s2, kernel, hhdm, b, live[b].pages, left)
    ensures HeapOk(s2, Window(s2, kernel, hhdm), hhdm, live - {b})
    ensures Freed(s0, s2, kernel, hhdm, b, live[b].pages)
  {
    var s1 :| Returned(s0, s1, b, live[b].pages, left) && BlockUnbound(s1, s2, kernel, hhdm, b, live[b].pages);
    ArenaShrinks(s0, s1, s2, kernel, hhdm, live, b, left);
    GoneEffect(s0, s1, s2, kernel, hhdm, b, live[b].pages, left);
  }

  lemma ArenaShrinks(s0: State, s1: State, s2: State, kernel: nat, hhdm: nat, live: map<nat, Block>, b: nat, left: nat)
    requires Sound(s0) && IsRoot(s0.shape, kernel) && DirectFits(hhdm, |s0.mem|) && b in live
    requires HeapOk(s0, Window(s0, kernel, hhdm), hhdm, live) && Returned(s0, s1, b, live[b].pages, left)
    requires BlockUnbound(s1, s2, kernel, hhdm, b, live[b].pages)
    ensures HeapOk(s2, Window(s2, kernel, hhdm), hhdm, live - {b})
  {
    ReturnedSame(s0, s1, kernel, hhdm, b, live[b].pages, left);
    HeapShrinks(s0, s1, s2, Window(s0, kernel, hhdm), hhdm, live, b);
  }

  lemma GoneEffect(s0: State, s1: State, s2: State, kernel: nat, hhdm: nat, b: nat, n: nat, left: nat)
    requires Sound(s0) && IsRoot(s0.shape, kernel) && DirectFits(hhdm, |s0.mem|) && Returned(s0, s1, b, n, left)
    requires BlockUnbound(s1, s2, kernel, hhdm, b, n)
    ensures Freed(s0, s2, kernel, hhdm, b, n)
  {
    ReturnedSame(s0, s1, kernel, hhdm, b, n, left);
    OthersAfter(s0, s1, s2, kernel, hhdm, b, n);
    GoneTables(s0, s1, s2, b);
  }

  /** What k_alloc does to memory and address spaces: n free frames taken and bound, and nothing else touched. */
  ghost predicate Allocated(s: State, s': State, kernel: nat, hhdm: nat, b: nat, n: nat) {
    && (forall p: nat :: In(p, b, n) ==> p < |s.used| && !s.used[p])
    && Window(s', kernel, hhdm) == BindRange(Window(s, kernel, hhdm), b, n)
    && OthersKept(s, s', kernel, hhdm, b, n) && TablesKept(s, s')
  }

  /** What k_free does: exactly those frames go back and exactly their pages are unbound. */
  ghost predicate Freed(s: State, s': State, kernel: nat, hhdm: nat, b: nat, n: nat) {
    && s'.used == Fill(s.used, b, n, false)
    && Window(s', kernel, hhdm) == ClearRange(Window(s, kernel, hhdm), b, n)
    && OthersKept(s, s', kernel, hhdm, b, n) && TablesKept(s, s')
  }

  /** k_alloc and k_free leave the tables there were in place. */
  lemma HeadedTables(s0: State, s2: State, hhdm: nat, b: nat, blk: Block)
    requires Sound(s0) && TablesKept(s0, s2) && b !in s2.shape && b < |s2.mem| && |s2.mem[b]| == ENTRIES
    ensures TablesKept(s0, Headed(s2, hhdm, b, blk))
  {
    var s3 := Headed(s2, hhdm, b, blk);
    forall t, i | t in s0.shape && s0.shape[t].level >= 2 && 0 <= i < ENTRIES && Present(Entry(s0.mem, t, i))
      ensures Entry(s3.mem, t, i) == Entry(s0.mem, t, i)
    {
      assert t in s2.shape && Entry(s2.mem, t, i) == Entry(s0.mem, t, i);
    }
  }

  lemma TakenTables(s0: State, s1: State, s2: State, b: nat, n: nat)
    requires Sound(s0) && Taken(s0, s1, b, n) && Grows(s1, s2)
    ensures TablesKept(s0, s2)
  {
    forall t, i | t in s0.shape && s0.shape[t].level >= 2 && 0 <= i < ENTRIES && Present(Entry(s0.mem, t, i))
      ensures Entry(s2.mem, t, i) == Entry(s0.mem, t, i)
    {
      assert s1.mem[t] == s0.mem[t];
    }
  }

  lemma GoneTables(s0: State, s1: State, s2: State, b: nat)
    requires Sound(s0) && b !in s0.shape && s1.shape == s0.shape && |s1.mem| == |s0.mem| && Grows(s1, s2)
    requires forall p :: 0 <= p < |s0.mem| && p != b ==> s1.mem[p] == s0.mem[p]
    ensures TablesKept(s0, s2)
  {
    forall t, i | t in s0.shape && s0.shape[t].level >= 2 && 0 <= i < ENTRIES && Present(Entry(s0.mem, t, i))
      ensures Entry(s2.mem, t, i) == Entry(s0.mem, t, i)
    {
      assert s1.mem[t] == s0.mem[t];
    }
  }

  /** Where word j of the payload of block b lies: in a frame of the block, and not in its header. */
  lemma PayloadWord(b: nat, size: nat, j: nat, p: nat, i: nat)
    requires size < TWO64 && Fits(size) && 8 * j + 8 <= size
    requires p * PAGE_SIZE + 8 * i == b * PAGE_SIZE + HEADER + 8 * j && i < ENTRIES
    ensures In(p, b, PagesFor(size)) && (p == b ==> i >= 6)
  {
    PayloadFitsIff(size);
  }

  lemma WordOffset(offset: nat, p: nat, i: nat)
    requires offset == p * PAGE_SIZE + 8 * i && i < ENTRIES
    ensures offset / PAGE_SIZE == p && offset % PAGE_SIZE == 8 * i
  {
  }

  /** The frame and the word of a physical address. */
  method Locate(offset: nat, ghost q: nat) returns (p: nat, i: nat)
    requires offset == 8 * q
    ensures p * PAGE_SIZE + 8 * i == offset && i < ENTRIES
  {
    WordOffset(offset, q / ENTRIES, q % ENTRIES);
    p, i := offset / PAGE_SIZE, offset % PAGE_SIZE / 8;
  }

  /** A word written into a live payload disturbs no block. */
  lemma PayloadWritten(s: State, s': State, win: seq<nat>, hhdm: nat, live: map<nat, Block>, b: nat, p: nat, i: nat,
                       w: nat)
    requires HeapOk(s, win, hhdm, live) && b in live && In(p, b, live[b].pages) && p < |s.mem|
    requires i < ENTRIES == |s.mem[p]| && (p == b ==> i >= 6) && s' == s.(mem := SetEntry(s.mem, p, i, w))
    ensures HeapOk(s', win, hhdm, live)
  {
    forall c | c in live
      ensures BlockOk(s', win, hhdm, c, live[c])
    {
      assert BlockOk(s, win, hhdm, c, live[c]) && In(c, c, live[c].pages);
      if p == c {
        assert s'.mem[c][..6] == s.mem[c][..6];
      }
    }
  }

  lemma PayloadStored(s: State, s': State, kernel: nat, hhdm: nat, live: map<nat, Block>, b: nat, p: nat, i: nat,
                      w: nat)
    requires Sound(s) && IsRoot(s.shape, kernel) && DirectFits(hhdm, |s.mem|) && b in live && In(p, b, live[b].pages)
    requires HeapOk(s, Window(s, kernel, hhdm), hhdm, live) && p < |s.mem| && p !in s.shape
    requires i < ENTRIES == |s.mem[p]| && (p == b ==> i >= 6) && s' == s.(mem := SetEntry(s.mem, p, i, w))
    ensures Sound(s') && SameSlots(s.shape, s.mem, s'.mem) && HeapOk(s', Window(s', kernel, hhdm), hhdm, live)
  {
    PayloadWritten(s, s', Window(s, kernel, hhdm), hhdm, live, b, p, i, w);
    TablesAlone(s, s');
    WindowSame(s, s', kernel, hhdm);
  }

  /** Why k_alloc halts: there is no block of n pages, or in the end no page for a table. */
  ghost predicate OutOfMemory(pool: Pool, pool': Pool, n: nat) {
    (pool' == pool && Choose(pool, n).None?) || Full(pool'.used)
  }

  class Heap {
    const vm: Vmm
    /** vmm_kernel->arena: the list that k_alloc searches first. */
    var arena: nat
    ghost var live: map<nat, Block>

    ghost function Win(): seq<nat>
      requires vm.pmm.top <= 8 * vm.pmm.bitmap.Length
      reads vm`shape, vm`kernel, vm.pmm`top, vm.pmm`bitmap, vm.pmm`ram, vm.pmm.bitmap
    {
      Window(vm.Tables(), vm.kernel, vm.hhdm)
    }

    ghost predicate Ready()
      reads this, vm, vm.pmm, vm.pmm.bitmap
    {
      vm.Valid() && IsRoot(vm.shape, vm.kernel) && DirectFits(vm.hhdm, vm.pmm.top)
    }

    ghost predicate Valid()
      reads this, vm, vm.pmm, vm.pmm.bitmap
    {
      Ready() && arena == 0 && Sized(live) && HeapOk(vm.Tables(), Win(), vm.hhdm, live)
    }

    constructor (vm: Vmm)
      requires vm.Valid() && IsRoot(vm.shape, vm.kernel) && DirectFits(vm.hhdm, vm.pmm.top)
      requires WindowOk(Window(vm.Tables(), vm.kernel, vm.hhdm))
      ensures Valid() && this.vm == vm && live == map[]
    {
      this.vm, arena, live := vm, 0, map[];
    }

    /** pmm_alloc, seen from the tables. */
    method AllocFrames(n: nat) returns (r: Outcome<nat>)
      requires Ready()
      modifies vm.pmm`prev, vm.pmm`ram, vm.pmm.bitmap
      ensures r.Done? ==> Ready() && Taken(old(vm.Tables()), vm.Tables(), r.value, n)
      ensures r.Halted? <==> Choose(old(vm.pmm.Abs()), n).None?
      ensures r.Halted? ==> vm.pmm.Abs() == old(vm.pmm.Abs())
    {
      ghost var s := vm.Tables();
      var addr :- vm.pmm.Alloc(n);
      ghost var c := Choose(old(vm.pmm.Abs()), n).value;
      ChosenIsFree(old(vm.pmm.Abs()), n);
      var b := addr / PAGE_SIZE;
      assert b == c;
      TakenSound(s, vm.Tables(), b, n);
      return Done(b);
    }

    method MapNext(b: nat, i: nat, next: nat, ghost s: State) returns (r: Outcome<()>)
      requires Ready() && b + i < vm.pmm.top && next == i + 1 && Sound(s) && IsRoot(s.shape, vm.kernel)
      requires BlockBound(s, vm.Tables(), vm.kernel, vm.hhdm, b, i)
      modifies vm`shape, vm.pmm`prev, vm.pmm`ram, vm.pmm.bitmap
      ensures r.Done? ==> Ready() && BlockBound(s, vm.Tables(), vm.kernel, vm.hhdm, b, next)
      ensures r.Halted? ==> Full(vm.pmm.Used())
    {
      ghost var m := vm.Tables();
      var p := b + i;
      var _ :- vm.MapPage(vm.kernel, vm.hhdm + p * PAGE_SIZE, p * PAGE_SIZE, RW);
      BindsNext(s, m, vm.Tables(), vm.kernel, vm.hhdm, b, i, p, next);
      return Done(());
    }

    /** The loop of k_alloc over the block's pages. */
    method MapBlock(b: nat, n: nat) returns (r: Outcome<()>)
      requires Ready() && b + n <= vm.pmm.top
      modifies vm`shape, vm.pmm`prev, vm.pmm`ram, vm.pmm.bitmap
      ensures r.Done? ==> Ready() && BlockBound(old(vm.Tables()), vm.Tables(), vm.kernel, vm.hhdm, b, n)
      ensures r.Halted? ==> Full(vm.pmm.Used())
    {
      ghost var s := vm.Tables();
      NoneBound(s, vm.kernel, vm.hhdm, b);
      var i := 0;
      while i < n
        invariant i <= n && Ready() && BlockBound(s, vm.Tables(), vm.kernel, vm.hhdm, b, i)
      {
        var next := i + 1;
        var _ :- MapNext(b, i, next, s);
        i := next;
      }
      return Done(());
    }

    method WriteHeader(b: nat, blk: Block)
      requires Ready() && b < vm.pmm.top && b !in vm.shape
      modifies vm.pmm`ram
      ensures Ready() && vm.Tables() == Headed(old(vm.Tables()), vm.hhdm, b, blk)
    {
      ghost var s := vm.Tables();
      StoreHeader(vm.pmm, vm.hhdm, b, blk);
      TablesAlone(s, vm.Tables());
    }

    /** The allocating path of k_alloc, with the states it goes through. */
    method NewArena(blk: Block) returns (r: Outcome<nat>, ghost s1: State, ghost s2: State)
      requires Ready()
      modifies vm`shape, vm.pmm`prev, vm.pmm`ram, vm.pmm.bitmap
      ensures r.Done? ==> Ready()
      ensures r.Done? ==> ArenaSteps(old(vm.Tables()), s1, s2, vm.Tables(), vm.kernel, vm.hhdm, r.value, blk)
      ensures r.Halted? ==> OutOfMemory(old(vm.pmm.Abs()), vm.pmm.Abs(), blk.pages)
    {
      s1, s2 := vm.Tables(), vm.Tables();
      r := AllocFrames(blk.pages);
      if r.Halted? { return; }
      s1 := vm.Tables();
      var mapped := MapBlock(r.value, blk.pages);
      if mapped.Halted? {
        r := Halted;
        return;
      }
      s2 := vm.Tables();
      NotATable(old(vm.Tables()), s1, s2, r.value, blk.pages);
      WriteHeader(r.value, blk);
    }

    method AllocBlock(blk: Block) returns (r: Outcome<nat>)
      requires Valid()
      modifies vm`shape, vm.pmm`prev, vm.pmm`ram, vm.pmm.bitmap
      ensures r.Done? ==> Ready() && r.value !in live
      ensures r.Done? ==> HeapOk(vm.Tables(), Win(), vm.hhdm, live[r.value := blk])
      ensures r.Done? ==> Allocated(old(vm.Tables()), vm.Tables(), vm.kernel, vm.hhdm, r.value, blk.pages)
      ensures r.Halted? ==> OutOfMemory(old(vm.pmm.Abs()), vm.pmm.Abs(), blk.pages)
    {
      ghost var s0 := vm.Tables();
      ghost var s1, s2;
      r, s1, s2 := NewArena(blk);
      if r.Done? {
        ArenaMade(s0, s1, s2, vm.Tables(), vm.kernel, vm.hhdm, live, r.value, blk);
        ArenaEffect(s0, s1, s2, vm.Tables(), vm.kernel, vm.hhdm, r.value, blk);
      }
    }

    ghost method Record(live': map<nat, Block>)
      requires Ready() && arena == 0 && Sized(live') && HeapOk(vm.Tables(), Win(), vm.hhdm, live')
      modifies `live
      ensures Valid() && live == live'
    {
      live := live';
    }

    /** k_alloc: a fresh arena for every request; the arena list stays empty. */
    method Alloc(size: nat) returns (r: Outcome<nat>, ghost b: nat)
      requires Valid() && size < TWO64
      modifies this`live, vm`shape, vm.pmm`prev, vm.pmm`ram, vm.pmm.bitmap
      ensures r.Done? ==> Valid() && r.value == Pointer(vm.hhdm, b) + HEADER
      ensures r.Done? ==> b !in old(live) && live == old(live)[b := Block(size, PagesFor(size))]
      ensures r.Done? ==> Allocated(old(vm.Tables()), vm.Tables(), vm.kernel, vm.hhdm, b, PagesFor(size))
      ensures r.Halted? ==> OutOfMemory(old(vm.pmm.Abs()), vm.pmm.Abs(), PagesFor(size))
    {
      if arena != 0 {
        assert false;
      }
      var blk := Block(size, PagesFor(size));
      var frame := AllocBlock(blk);
      if frame.Halted? {
        return Halted, 0;
      }
      b := frame.value;
      Record(live[b := blk]);
      r := Done(Pointer(vm.hhdm, frame.value) + HEADER);
    }

    method UnmapNext(b: nat, i: nat, next: nat, ghost s: State)
      requires Ready() && b + i < vm.pmm.top && next == i + 1 && Sound(s) && IsRoot(s.shape, vm.kernel)
      requires BlockUnbound(s, vm.Tables(), vm.kernel, vm.hhdm, b, i)
      modifies vm`shape, vm.pmm`prev, vm.pmm`ram, vm.pmm.bitmap
      ensures Ready() && BlockUnbound(s, vm.Tables(), vm.kernel, vm.hhdm, b, next)
    {
      ghost var m := vm.Tables();
      var p := b + i;
      var ok := vm.UnmapPage(vm.kernel, vm.hhdm + p * PAGE_SIZE);
      UnbindsNext(s, m, vm.Tables(), vm.kernel, vm.hhdm, b, i, p, next, ok);
    }

    /** The loop of k_free over the block's pages. */
    method UnmapBlock(b: nat, n: nat)
      requires Ready() && b + n <= vm.pmm.top
      modifies vm`shape, vm.pmm`prev, vm.pmm`ram, vm.pmm.bitmap
      ensures Ready() && BlockUnbound(old(vm.Tables()), vm.Tables(), vm.kernel, vm.hhdm, b, n)
    {
      ghost var s := vm.Tables();
      NoneUnbound(s, vm.kernel, vm.hhdm, b);
      var i := 0;
      while i < n
        invariant i <= n && Ready() && BlockUnbound(s, vm.Tables(), vm.kernel, vm.hhdm, b, i)
      {
        var next := i + 1;
        UnmapNext(b, i, next, s);
        i := next;
      }
    }

    /** `arena->allocated--`, through the direct map. */
    method SetCount(b: nat, left: nat, ghost n: nat)
      requires Ready() && OwnFrames(vm.Tables(), b, n)
      modifies vm.pmm`ram
      ensures Ready() && OwnFrames(vm.Tables(), b, n) && Recounted(old(vm.Tables()), vm.Tables(), b, left)
    {
      ghost var s := vm.Tables();
      assert In(b, b, n);
      vm.Store(b, 4, left);
      TablesAlone(s, vm.Tables());
    }

    /** The frames go back to the page allocator. */
    method Release(b: nat, n: nat)
      requires Ready() && OwnFrames(vm.Tables(), b, n)
      modifies vm.pmm.bitmap
      ensures Ready() && vm.Tables() == old(vm.Tables()).(used := Fill(old(vm.pmm.Used()), b, n, false))
    {
      ghost var s := vm.Tables();
      vm.pmm.FreeTaken(b, n);
      TablesAlone(s, vm.Tables());
    }

    /** k_free: exactly the frames of the block go back, and exactly its direct-map pages are unbound. */
    method Free(ptr: nat, ghost b: nat)
      requires Valid() && b in live && ptr == Pointer(vm.hhdm, b) + HEADER
      modifies this`live, vm`shape, vm.pmm`prev, vm.pmm`ram, vm.pmm.bitmap
      ensures Valid() && live == old(live) - {b}
      ensures Freed(old(vm.Tables()), vm.Tables(), vm.kernel, vm.hhdm, b, old(live)[b].pages)
    {
      var frame, pages, count := FindArena(ptr, b);
      FreeBlock(frame, pages, (count + (TWO64 - 1)) % TWO64);
      Record(live - {b});
    }

    /** The arena with count 0 goes: its frames, then its pages. */
    method DropArena(b: nat, n: nat, ghost s0: State, ghost left: nat)
      requires Ready() && OwnFrames(vm.Tables(), b, n)
      requires Sound(s0) && Recounted(s0, vm.Tables(), b, left)
      modifies vm`shape, vm.pmm`prev, vm.pmm`ram, vm.pmm.bitmap
      ensures Ready() && Dropped(s0, vm.Tables(), vm.kernel, vm.hhdm, b, n, left)
    {
      Release(b, n);
      ghost var s1 := vm.Tables();
      UnmapBlock(b, n);
      assert Returned(s0, s1, b, n, left);
    }

    /** The arena goes when its count is zero, as it is for the only block of an arena. */
    method LowerCount(b: nat, n: nat, left: nat)
      requires Ready() && OwnFrames(vm.Tables(), b, n) && left == 0
      modifies vm`shape, vm.pmm`prev, vm.pmm`ram, vm.pmm.bitmap
      ensures Ready() && Dropped(old(vm.Tables()), vm.Tables(), vm.kernel, vm.hhdm, b, n, left)
    {
      ghost var s0 := vm.Tables();
      SetCount(b, left, n);
      if left <= 0 {
        DropArena(b, n, s0, left);
      }
    }

    method FreeBlock(b: nat, n: nat, left: nat)
      requires Valid() && b in live && n == live[b].pages && left == 0
      modifies vm`shape, vm.pmm`prev, vm.pmm`ram, vm.pmm.bitmap
      ensures Ready() && HeapOk(vm.Tables(), Win(), vm.hhdm, live - {b})
      ensures Freed(old(vm.Tables()), vm.Tables(), vm.kernel, vm.hhdm, b, n)
    {
      ghost var s0 := vm.Tables();
      BlockFrames(s0, Win(), vm.hhdm, live, b);
      LowerCount(b, n, left);
      ArenaGone(s0, vm.Tables(), vm.kernel, vm.hhdm, live, b, left);
    }

    method StoreWord(p: nat, i: nat, w: nat, ghost b: nat)
      requires Valid() && b in live && In(p, b, live[b].pages) && i < ENTRIES && (p == b ==> i >= 6)
      modifies vm.pmm`ram
      ensures Valid() && p < vm.pmm.top && p !in vm.shape
      ensures vm.Tables() == old(vm.Tables()).(mem := SetEntry(old(vm.pmm.ram), p, i, w))
      ensures SameSlots(vm.shape, old(vm.pmm.ram), vm.pmm.ram)
    {
      ghost var s, win := vm.Tables(), Win();
      assert BlockOk(s, win, vm.hhdm, b, live[b]);
      vm.Store(p, i, w);
      PayloadStored(s, vm.Tables(), vm.kernel, vm.hhdm, live, b, p, i, w);
    }

    /** A client stores word j of a live payload; the heap stays as it is and no translation changes. */
    method WriteWord(ptr: nat, j: nat, w: nat, ghost b: nat) returns (p: nat, i: nat)
      requires Valid() && b in live && ptr == Pointer(vm.hhdm, b) + HEADER
      requires Fits(live[b].size) && 8 * j + 8 <= live[b].size
      modifies vm.pmm`ram
      ensures Valid() && SameSlots(vm.shape, old(vm.pmm.ram), vm.pmm.ram)
      ensures vm.hhdm + p * PAGE_SIZE + 8 * i == ptr + 8 * j && p < vm.pmm.top && p !in vm.shape && i < ENTRIES
      ensures vm.Tables() == old(vm.Tables()).(mem := SetEntry(old(vm.pmm.ram), p, i, w))
    {
      p, i := Locate(ptr + 8 * j - vm.hhdm, ENTRIES * b + 6 + j);
      PayloadWord(b, live[b].size, j, p, i);
      StoreWord(p, i, w, b);
    }

    /** From the payload pointer to the arena it belongs to, by way of the metadata word and the header. */
    method FindArena(ptr: nat, ghost b: nat) returns (frame: nat, pages: nat, count: nat)
      requires Valid() && b in live && ptr == Pointer(vm.hhdm, b) + HEADER
      ensures frame == b && pages == live[b].pages && count == 1
    {
      assert BlockOk(vm.Tables(), Win(), vm.hhdm, b, live[b]);
      ghost var head, page := Header(vm.hhdm, b, live[b]), vm.pmm.ram[b];
      var metadata := ptr - 8 - vm.hhdm;
      MetadataWord(b, metadata);
      assert page[5] == head[5] && page[1] == head[1] && page[2] == head[2] && page[4] == head[4];
      var base := vm.pmm.ram[metadata / PAGE_SIZE][metadata % PAGE_SIZE / 8];
      frame := (base - vm.hhdm) / PAGE_SIZE;
      pages := (vm.pmm.ram[frame][2] + (PAGE_SIZE - 1)) / PAGE_SIZE;
      count := vm.pmm.ram[frame][4];
    }
  }

  lemma MetadataWord(b: nat, offset: nat)
    requires offset == b * PAGE_SIZE + HEADER - 8
    ensures offset / PAGE_SIZE == b && offset % PAGE_SIZE / 8 == 5
  {
  }

  lemma UnmapStep(s: State, s': State, kernel: nat, hhdm: nat, p: nat, ok: bool)
    requires DirectFits(hhdm, |s.mem|) && p < |s.mem| && IsRoot(s.shape, kernel)
    requires ok <==> Present(Slot(s.mem, kernel, DirectPage(hhdm, p)))
    requires if ok then Written(s, s', kernel, DirectPage(hhdm, p), 0) else s' == s
    ensures Window(s', kernel, hhdm) == ClearRange(Window(s, kernel, hhdm), p, 1)
  {
    if ok {
      WindowWritten(s, s', kernel, hhdm, p, 0);
    }
  }

  lemma ClearRangeNone(win: seq<nat>, b: nat)
    ensures ClearRange(win, b, 0) == win
  {
  }

  lemma ClearRangeStep(win: seq<nat>, b: nat, i: nat)
    ensures ClearRange(ClearRange(win, b, i), b + i, 1) == ClearRange(win, b, i + 1)
  {
  }

  /** The six words k_alloc writes through the direct map. */
  method StoreHeader(pmm: Pmm, hhdm: nat, b: nat, blk: Block)
    requires pmm.Valid() && b < pmm.top
    modifies pmm`ram
    ensures pmm.Valid() && pmm.ram == old(pmm.ram)[b := WithHeader(old(pmm.ram)[b], Header(hhdm, b, blk))]
  {
    var base := Pointer(hhdm, b);
    pmm.ram := SetEntry(pmm.ram, b, 0, 0);
    pmm.ram := SetEntry(pmm.ram, b, 1, base);
    pmm.ram := SetEntry(pmm.ram, b, 2, blk.pages * PAGE_SIZE);
    pmm.ram := SetEntry(pmm.ram, b, 3, HEADER - 8);
    pmm.ram := SetEntry(pmm.ram, b, 4, 0);
    pmm.ram := SetEntry(pmm.ram, b, 5, base);
    pmm.ram := SetEntry(pmm.ram, b, 3, (HEADER + blk.size) % TWO64);
    pmm.ram := SetEntry(pmm.ram, b, 4, 1);
    assert pmm.ram[b] == WithHeader(old(pmm.ram)[b], Header(hhdm, b, blk));
  }

  lemma BindRangeNone(win: seq<nat>, b: nat)
    ensures BindRange(win, b, 0) == win
  {
  }

  lemma BindRangeStep(win: seq<nat>, b: nat, i: nat)
    ensures BindRange(BindRange(win, b, i), b + i, 1) == BindRange(win, b, i + 1)
  {
  }

  lemma {:induction false} MapStep(s: State, s': State, kernel: nat, hhdm: nat, p: nat)
    requires DirectFits(hhdm, |s.mem|) && p < |s.mem| && IsRoot(s.shape, kernel)
    requires Mapped(s, s', kernel, DirectPage(hhdm, p), Or(p * PAGE_SIZE, RW))
    ensures Window(s', kernel, hhdm) == BindRange(Window(s, kernel, hhdm), p, 1)
  {
    var was := Slot(s.mem, kernel, DirectPage(hhdm, p));
    WindowWritten(s, s', kernel, hhdm, p, if Present(was) then was else Or(p * PAGE_SIZE, RW));
  }
}
