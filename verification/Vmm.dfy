/** vmm.c: walking, mapping, unmapping and copying four-level tables in place. */
module VirtualMemory {
  import opened Outcomes
  import opened Bits
  import opened Pte
  import opened PageTable
  import opened PhysicalMemory
  import NextFit

  class Vmm {
    const pmm: Pmm
    /** Offset of the direct map (get_hhdm). */
    const hhdm: nat
    /** Frame of the kernel's root table (vmm_kernel->pml). */
    var kernel: nat
    ghost var shape: Shape

    constructor (pmm: Pmm, hhdm: nat)
      requires pmm.Valid() && pmm.top <= FRAMES
      ensures this.pmm == pmm && this.hhdm == hhdm && shape == map[] && Valid()
    {
      this.pmm, this.hhdm, kernel, shape := pmm, hhdm, 0, map[];
    }

    ghost function Tables(): State
      requires pmm.top <= 8 * pmm.bitmap.Length
      reads `shape, pmm`top, pmm`bitmap, pmm`ram, pmm.bitmap
    {
      State(pmm.Used(), pmm.ram, shape)
    }

    ghost predicate Valid()
      reads this, pmm, pmm.bitmap
    {
      pmm.Valid() && Sound(Tables())
    }

    /** The allocating branch of walk_pte. */
    method LinkFresh(t: nat, i: nat) returns (r: Outcome<nat>)
      requires Valid() && t in shape && shape[t].level >= 2 && i < ENTRIES
      modifies this`shape, pmm`prev, pmm`ram, pmm.bitmap
      ensures pmm.Valid()
      ensures r.Halted? ==> Tables() == old(Tables()) && Full(pmm.Used())
      ensures r.Done? ==> 0 < r.value < pmm.top && !old(pmm.Used())[r.value]
      ensures r.Done? ==> Tables() == Linked(old(Tables()), t, i, r.value)
    {
      var next :- pmm.AllocFrame();
      assert next != t;
      pmm.ram := SetEntry(pmm.ram, t, i, LinkWord(next));
      shape := shape[next := Below(shape[t], t, i)];
      return Done(next);
    }

    /** walk_pte: the table below entry i of table t, linked in if absent and `alloc`; 0 is NULL. */
    method WalkPte(t: nat, i: nat, alloc: bool) returns (r: Outcome<nat>)
      requires Valid() && t in shape && shape[t].level >= 2 && i < ENTRIES
      modifies this`shape, pmm`prev, pmm`ram, pmm.bitmap
      ensures Valid() && Extends(old(Tables()), Tables())
      ensures r.Done? ==> r.value == Child(pmm.ram, t, i) && (alloc ==> r.value != 0)
      ensures !alloc ==> r.Done? && Tables() == old(Tables())
      ensures r.Done? && alloc ==> Stepped(old(Tables()), Tables(), t, i)
      ensures r.Halted? ==> !Present(old(pmm.ram)[t][i]) && Tables() == old(Tables()) && Full(pmm.Used())
    {
      var w := pmm.ram[t][i];
      var present := IsPresent(w);
      if present {
        assert LinkOk(pmm.ram, shape, t, i);
        var addr := GetAddr(w);
        return Done(addr / PAGE_SIZE);
      }
      if !alloc {
        return Done(0);
      }
      ghost var s := Tables();
      var next :- LinkFresh(t, i);
      LinkGrows(s, t, i, next);
      return Done(next);
    }

    /** One step of the walk to page v that began in state s0. */
    method WalkStep(t: nat, i: nat, alloc: bool, ghost s0: State, ghost pml: nat, ghost v: Vpn)
      returns (r: Outcome<nat>)
      requires Valid() && t in shape && shape[t].level >= 2 && i < ENTRIES
      requires IsVpn(v) && OnWalk(pmm.ram, pml, v, t, i) && Underway(s0, Tables(), pml, v)
      modifies this`shape, pmm`prev, pmm`ram, pmm.bitmap
      ensures Valid() && (!alloc ==> r.Done? && Tables() == old(Tables()))
      ensures r.Done? ==> r.value == Child(pmm.ram, t, i) && (alloc ==> r.value != 0)
      ensures r.Done? ==> Underway(s0, Tables(), pml, v) && PathKept(old(pmm.ram), pmm.ram, pml, v)
      ensures r.Halted? ==> Paid(s0, Tables(), pml, v, true)
    {
      ghost var s := Tables();
      r := WalkPte(t, i, alloc);
      if r.Halted? {
        WalkPlaces(s.mem, s.shape, pml, v);
        FullHasNone(s.used);
      } else {
        UnderwayStep(s0, s, Tables(), pml, v, t, i, alloc);
      }
    }

    /** The first two steps: the level-2 table, or 0. */
    method WalkTop(pml: nat, i4: nat, i3: nat, alloc: bool, ghost s0: State, ghost v: Vpn) returns (r: Outcome<nat>)
      requires Valid() && IsVpn(v) && i4 == v.i4 && i3 == v.i3 && Underway(s0, Tables(), pml, v)
      modifies this`shape, pmm`prev, pmm`ram, pmm.bitmap
      ensures Valid() && (!alloc ==> r.Done? && Tables() == old(Tables()))
      ensures r.Done? ==> r.value == Table2(pmm.ram, pml, v) && (alloc ==> r.value != 0)
      ensures if r.Halted? then Paid(s0, Tables(), pml, v, true) else Underway(s0, Tables(), pml, v)
    {
      var t3 :- WalkStep(pml, i4, alloc, s0, pml, v);
      if t3 == 0 {
        return Done(0);
      }
      WalkPlaces(pmm.ram, shape, pml, v);
      r := WalkStep(t3, i3, alloc, s0, pml, v);
    }

    /** All three: the leaf table, or 0. */
    method WalkDown(pml: nat, i4: nat, i3: nat, i2: nat, alloc: bool, ghost v: Vpn) returns (r: Outcome<nat>)
      requires Valid() && IsRoot(shape, pml) && IsVpn(v) && i4 == v.i4 && i3 == v.i3 && i2 == v.i2
      modifies this`shape, pmm`prev, pmm`ram, pmm.bitmap
      ensures Valid() && (!alloc ==> r.Done? && Tables() == old(Tables()))
      ensures r.Done? ==> r.value == Table1(pmm.ram, pml, v) && (alloc ==> r.value != 0)
      ensures r.Done? ==> Underway(old(Tables()), Tables(), pml, v)
      ensures alloc ==> Paid(old(Tables()), Tables(), pml, v, r.Halted?)
    {
      ghost var s0 := Tables();
      var t2 :- WalkTop(pml, i4, i3, alloc, s0, v);
      if t2 == 0 {
        return Done(0);
      }
      WalkPlaces(pmm.ram, shape, pml, v);
      r := WalkStep(t2, i2, alloc, s0, pml, v);
    }

    /** The walk of every call in vmm.c: the leaf table of an address, or 0. */
    method Walk(pml: nat, virt: nat, alloc: bool) returns (r: Outcome<nat>)
      requires Valid() && IsRoot(shape, pml)
      modifies this`shape, pmm`prev, pmm`ram, pmm.bitmap
      ensures Valid() && (r.Done? ==> Extends(old(Tables()), Tables()))
      ensures r.Done? ==> r.value == Table1(pmm.ram, pml, PageOf(virt)) && (alloc ==> r.value != 0)
      ensures r.Done? ==> IsVpn(PageOf(virt))
      ensures r.Done? ==> Slot(pmm.ram, pml, PageOf(virt)) == Slot(old(pmm.ram), pml, PageOf(virt))
      ensures !alloc ==> r.Done? && Tables() == old(Tables())
      ensures alloc ==> Paid(old(Tables()), Tables(), pml, PageOf(virt), r.Halted?)
    {
      Decode(virt);
      r := WalkDown(pml, Offset(virt, 39), Offset(virt, 30), Offset(virt, 21), alloc, PageOf(virt));
    }

    method Store(t: nat, i: nat, w: nat)
      requires pmm.Valid() && t < pmm.top && i < ENTRIES
      modifies pmm`ram
      ensures pmm.Valid() && Tables() == old(Tables()).(mem := SetEntry(old(pmm.ram), t, i, w))
    {
      pmm.ram := SetEntry(pmm.ram, t, i, w);
    }

    /** Writes the leaf entry of `virt` that a walk from state s has reached. */
    method StoreLeaf(ghost s: State, pml: nat, t1: nat, virt: nat, w: nat)
      requires Valid() && Sound(s) && Extends(s, Tables()) && IsRoot(s.shape, pml)
      requires t1 == Table1(pmm.ram, pml, PageOf(virt)) != 0
      modifies pmm`ram
      ensures Valid() && Written(s, Tables(), pml, PageOf(virt), w) && pmm.Used() == old(pmm.Used())
    {
      Decode(virt);
      WalkThenWrite(s, Tables(), pml, PageOf(virt), w);
      Store(t1, Offset(virt, 12), w);
    }

    /** The leaf entry of `virt` that a walk has reached. */
    method LoadLeaf(pml: nat, t1: nat, virt: nat) returns (w: nat, present: bool)
      requires Valid() && IsRoot(shape, pml) && t1 == Table1(pmm.ram, pml, PageOf(virt)) != 0
      ensures w == Slot(pmm.ram, pml, PageOf(virt)) && (present <==> Present(w))
    {
      Decode(virt);
      WalkPlaces(pmm.ram, shape, pml, PageOf(virt));
      w := pmm.ram[t1][Offset(virt, 12)];
      present := IsPresent(w);
    }

    /**
     vmm_map_page: binds the page of `virt` unless it is bound; no other page of any address space changes. It halts
     exactly when the missing tables outnumber the free frames.
     */
    method MapPage(pml: nat, virt: nat, physical: nat, flags: nat) returns (r: Outcome<bool>)
      requires Valid() && IsRoot(shape, pml)
      modifies this`shape, pmm`prev, pmm`ram, pmm.bitmap
      ensures Valid() && (r.Done? ==> r.value)
      ensures r.Done? ==> Mapped(old(Tables()), Tables(), pml, PageOf(virt), Or(physical, flags))
      ensures Paid(old(Tables()), Tables(), pml, PageOf(virt), r.Halted?)
    {
      var t1 :- Walk(pml, virt, true);
      var w, present := LoadLeaf(pml, t1, virt);
      if present {
        WalkOnly(old(Tables()), Tables(), pml, PageOf(virt));
        return Done(true);
      }
      StoreLeaf(old(Tables()), pml, t1, virt, Or(physical, flags));
      return Done(true);
    }

    /** vmm_unmap_page: clears the entry of a bound page; allocates nothing. */
    method UnmapPage(pml: nat, virt: nat) returns (ok: bool)
      requires Valid() && IsRoot(shape, pml)
      modifies this`shape, pmm`prev, pmm`ram, pmm.bitmap
      ensures Valid() && pmm.Used() == old(pmm.Used()) && shape == old(shape)
      ensures ok <==> Present(Slot(old(pmm.ram), pml, PageOf(virt)))
      ensures if ok then Written(old(Tables()), Tables(), pml, PageOf(virt), 0) else Tables() == old(Tables())
    {
      var walk := Walk(pml, virt, false);
      var t1 := walk.value;
      if t1 == 0 {
        return false;
      }
      var w, present := LoadLeaf(pml, t1, virt);
      if !present {
        return false;
      }
      StoreLeaf(old(Tables()), pml, t1, virt, 0);
      return true;
    }

    /** vmm_change_flag: a bound page keeps its frame and gets `flags`; the walk may allocate tables. */
    method ChangeFlag(pml: nat, virt: nat, flags: nat) returns (r: Outcome<bool>)
      requires Valid() && IsRoot(shape, pml)
      modifies this`shape, pmm`prev, pmm`ram, pmm.bitmap
      ensures Valid()
      ensures r.Done? ==> (r.value <==> Present(Slot(old(pmm.ram), pml, PageOf(virt))))
      ensures r.Done? ==> Reflagged(old(Tables()), Tables(), pml, PageOf(virt), flags)
      ensures Paid(old(Tables()), Tables(), pml, PageOf(virt), r.Halted?)
    {
      var t1 :- Walk(pml, virt, true);
      var w, present := LoadLeaf(pml, t1, virt);
      if !present {
        WalkOnly(old(Tables()), Tables(), pml, PageOf(virt));
        return Done(false);
      }
      var addr := GetAddr(w);
      StoreLeaf(old(Tables()), pml, t1, virt, Or(addr, flags));
      return Done(true);
    }

    /** vmm_virt2phys: the frame address in the leaf entry; may allocate tables but changes no translation. */
    method VirtToPhys(pml: nat, virt: nat) returns (r: Outcome<nat>)
      requires Valid() && IsRoot(shape, pml)
      modifies this`shape, pmm`prev, pmm`ram, pmm.bitmap
      ensures Valid()
      ensures r.Done? ==> Extends(old(Tables()), Tables())
      ensures r.Done? ==> r.value == FrameOf(Slot(old(pmm.ram), pml, PageOf(virt))) * PAGE_SIZE
      ensures r.Done? && Tidy(old(Tables())) && PageOf(virt) !in Mapping(old(pmm.ram), pml) ==> r.value == 0
      ensures Paid(old(Tables()), Tables(), pml, PageOf(virt), r.Halted?)
    {
      var t1 :- Walk(pml, virt, true);
      var w, present := LoadLeaf(pml, t1, virt);
      var addr := GetAddr(w);
      return Done(addr);
    }

    /** vmm_new's copy of the kernel root, after which the frame is a root of its own. */
    method CopyRoot(root: nat)
      requires Valid() && IsRoot(shape, kernel) && 0 < root < pmm.top && root !in shape && pmm.Used()[root]
      modifies this`shape, pmm`ram
      ensures Valid() && Tables() == Copied(old(Tables()), kernel, root)
    {
      pmm.CopyWords(kernel, root);
      shape := shape[root := ROOT];
      CopySound(old(Tables()), kernel, root);
    }

    method AllocPair() returns (r: Outcome<(nat, nat)>)
      requires Valid()
      modifies pmm`prev, pmm`ram, pmm.bitmap
      ensures Valid()
      ensures r.Done? ==> PairTaken(old(Tables()), Tables(), r.value.0, r.value.1)
      ensures if r.Done? then NextFit.NextPair(old(pmm.Abs())) == Outcomes.Some(r.value)
        else NextFit.NextPair(old(pmm.Abs())).None? && Starved(old(pmm.Used()), pmm.Used(), 2)
    {
      ghost var s, pool := Tables(), pmm.Abs();
      FullHasNone(s.used);
      var page :- pmm.AllocFrame();
      ghost var pool' := pmm.Abs();
      TakeFrame(s.used, page);
      FullHasNone(pmm.Used());
      FreshFrame(s, page);
      assert Tables() == Fresh(s, page);
      var root :- pmm.AllocFrame();
      PairFresh(s, Tables(), page, root);
      PairChosen(pool, pool', page, root);
      return Done((page, root));
    }

    /** Two map calls. */
    method MapTwo(virt: nat, physical: nat, virt': nat, physical': nat) returns (r: Outcome<()>)
      requires Valid() && IsRoot(shape, kernel)
      modifies this`shape, pmm`prev, pmm`ram, pmm.bitmap
      ensures Valid()
      ensures r.Done? ==> BothDone(old(Tables()), Tables(), kernel, Bind(virt, physical), Bind(virt', physical'))
      ensures r.Halted? ==> Starved(old(pmm.Used()), pmm.Used(), 6)
    {
      ghost var s := Tables();
      var first := MapPage(kernel, virt, physical, RW);
      ghost var s' := Tables();
      PaidBound(s, s', kernel, PageOf(virt), first.Halted?);
      var _ :- first;
      var second := MapPage(kernel, virt', physical', RW);
      PaidBound(s', Tables(), kernel, PageOf(virt'), second.Halted?);
      var _ :- second;
      BindOk(virt, physical);
      BindOk(virt', physical');
      TwoMapped(s, s', Tables(), kernel, Bind(virt, physical), Bind(virt', physical'));
      return Done(());
    }

    /** The two map calls of vmm_new: direct-map base added twice to the address and once to the frame. */
    method MapBoth(page: nat, root: nat) returns (r: Outcome<()>)
      requires Valid() && IsRoot(shape, kernel) && page < pmm.top && root < pmm.top
      modifies this`shape, pmm`prev, pmm`ram, pmm.bitmap
      ensures Valid()
      ensures r.Done? ==> BothDone(old(Tables()), Tables(), kernel, Doubled(hhdm, page), Doubled(hhdm, root))
      ensures r.Halted? ==> Starved(old(pmm.Used()), pmm.Used(), 6)
    {
      r := MapTwo((page * PAGE_SIZE + hhdm + hhdm) % TWO64, (page * PAGE_SIZE + hhdm) % TWO64,
                  (root * PAGE_SIZE + hhdm + hhdm) % TWO64, (root * PAGE_SIZE + hhdm) % TWO64);
    }

    /** The map calls of vmm_new, after the two frames were taken in state s0. */
    method MapPair(page: nat, root: nat, ghost s0: State)
      returns (r: Outcome<()>)
      requires Valid() && Sound(s0) && IsRoot(s0.shape, kernel) && PairTaken(s0, Tables(), page, root)
      modifies this`shape, pmm`prev, pmm`ram, pmm.bitmap
      ensures Valid()
      ensures r.Done? ==> Prepared(s0, Tables(), kernel, page, root, Doubled(hhdm, page), Doubled(hhdm, root))
      ensures r.Halted? ==> Starved(s0.used, pmm.Used(), 8)
    {
      ghost var s1 := Tables();
      r := MapBoth(page, root);
      if r.Halted? {
        PairCost(s0, s1, page, root);
      } else {
        SpaceMade(s0, s1, Tables(), kernel, page, root, Doubled(hhdm, page), Doubled(hhdm, root));
      }
    }

    /** vmm_new up to the copy: frames for the descriptor and the root, and the two map calls. */
    method PrepareSpace() returns (r: Outcome<(nat, nat)>)
      requires Valid() && IsRoot(shape, kernel)
      modifies this`shape, pmm`prev, pmm`ram, pmm.bitmap
      ensures Valid()
      ensures r.Done? ==>
        Prepared(old(Tables()), Tables(), kernel, r.value.0, r.value.1, Doubled(hhdm, r.value.0),
                 Doubled(hhdm, r.value.1))
      ensures r.Done? ==> NextFit.NextPair(old(pmm.Abs())) == Outcomes.Some(r.value)
      ensures r.Halted? ==> Starved(old(pmm.Used()), pmm.Used(), 8)
    {
      ghost var s0 := Tables();
      var pair :- AllocPair();
      var _ :- MapPair(pair.0, pair.1, s0);
      return Done(pair);
    }

    /**
     vmm_new: a root that holds the kernel's entries, made of the two frames the allocator chooses next. Of all the
     translations there were, it changes those of the two pages that the frames name, where these were unbound. With
     eight free frames it does not halt.
     */
    method NewSpace() returns (r: Outcome<(nat, nat)>)
      requires Valid() && IsRoot(shape, kernel)
      modifies this`shape, pmm`prev, pmm`ram, pmm.bitmap
      ensures Valid()
      ensures r.Done? ==> NextFit.NextPair(old(pmm.Abs())) == Outcomes.Some(r.value)
      ensures r.Done? ==>
        SpaceNew(old(Tables()), Tables(), kernel, r.value.0, r.value.1, Doubled(hhdm, r.value.0),
                 Doubled(hhdm, r.value.1))
      ensures r.Halted? ==> Starved(old(pmm.Used()), pmm.Used(), 8)
    {
      var pair :- PrepareSpace();
      CopyRoot(pair.1);
      return Done(pair);
    }
  }

  /** The page vmm_new maps for a frame: the direct-map base is added twice to its address. */
  ghost function DoubledPage(hhdm: nat, frame: nat): (v: Vpn)
    ensures IsVpn(v)
  {
    PageOf((frame * PAGE_SIZE + hhdm + hhdm) % TWO64)
  }

  ghost function Bind(virt: nat, physical: nat): (b: Binding) { Binding(PageOf(virt), Or(physical, RW)) }

  lemma BindOk(virt: nat, physical: nat)
    ensures var b := Bind(virt, physical); IsVpn(b.page) && Present(b.word)
  {
    Decode(virt);
    PresentWord(physical, RW);
  }

  /** What vmm_new maps there: the base is added once to the frame's address. */
  ghost function Doubled(hhdm: nat, frame: nat): (b: Binding)
    ensures IsVpn(b.page)
  {
    Bind((frame * PAGE_SIZE + hhdm + hhdm) % TWO64, (frame * PAGE_SIZE + hhdm) % TWO64)
  }

  /** Two free frames taken and cleared. */
  ghost predicate PairTaken(s: State, s': State, page: nat, root: nat) {
    && 0 < page < |s.used| == |s.mem| && 0 < root < |s.used| && page != root && !s.used[page] && !s.used[root]
    && s' == Fresh(Fresh(s, page), root) && SameSlots(s.shape, s.mem, s'.mem)
  }

  lemma PairFresh(s: State, s': State, page: nat, root: nat)
    requires Sound(s) && 0 < page < |s.used| && !s.used[page]
    requires 0 < root < |s.used| && !Fresh(s, page).used[root] && s' == Fresh(Fresh(s, page), root)
    ensures Sound(s') && PairTaken(s, s', page, root)
  {
    FreshFrame(s, page);
    FreshFrame(Fresh(s, page), root);
  }

  lemma PairCost(s: State, s': State, page: nat, root: nat)
    requires PairTaken(s, s', page, root)
    ensures |FreeFrames(s'.used)| == |FreeFrames(s.used)| - 2
  {
    TakeFrame(s.used, page);
    TakeFrame(s.used[page := true], root);
  }

  lemma PairChosen(pool: NextFit.Pool, pool': NextFit.Pool, page: nat, root: nat)
    requires NextFit.Choose(pool, 1) == Outcomes.Some(page) && NextFit.Choose(pool', 1) == Outcomes.Some(root)
    requires pool' == NextFit.Pool(NextFit.Fill(pool.used, page, 1, true), page + 1)
    ensures NextFit.NextPair(pool) == Outcomes.Some((page, root))
  {
  }

  /** Two map calls with present entries. */
  ghost predicate BothDone(s: State, s': State, root: nat, b: Binding, b': Binding) {
    Grows(s, s') && (Tidy(s) ==> Tidy(s')) && BothMapped(s, s', root, b, b')
  }

  lemma TwoMapped(s: State, m: State, s': State, root: nat, b: Binding, b': Binding)
    requires Sound(s) && Sound(m) && IsRoot(s.shape, root) && IsVpn(b.page) && IsVpn(b'.page)
    requires Present(b.word) && Present(b'.word)
    requires Mapped(s, m, root, b.page, b.word) && Mapped(m, s', root, b'.page, b'.word)
    ensures BothDone(s, s', root, b, b')
  {
    GrowsTransitive(s, m, s');
    MappedTwice(s, m, s', root, b, b');
    if Tidy(s) {
      TidyMapped(s, m, root, b.page, b.word);
      TidyMapped(m, s', root, b'.page, b'.word);
    }
  }

  /** What vmm_new does: a space is added, and pages were mapped as b and b' say. */
  ghost predicate SpaceNew(s: State, s': State, kernel: nat, page: nat, root: nat, b: Binding, b': Binding) {
    && 0 < page < |s.mem| && 0 < root < |s.mem| && SpaceAdded(s, s', kernel, page, root) && (Tidy(s) ==> Tidy(s'))
    && BothMapped(s, s', kernel, b, b')
  }

  /** So it leaves all translations as they were exactly when the pages it names were bound. */
  lemma NewUnchangedIff(s: State, s': State, kernel: nat, hhdm: nat, page: nat, root: nat)
    requires IsRoot(s.shape, kernel) && SpaceNew(s, s', kernel, page, root, Doubled(hhdm, page), Doubled(hhdm, root))
    ensures SameSlots(s.shape, s.mem, s'.mem) <==>
      Present(Slot(s.mem, kernel, DoubledPage(hhdm, page))) && Present(Slot(s.mem, kernel, DoubledPage(hhdm, root)))
  {
    PresentWord((page * PAGE_SIZE + hhdm) % TWO64, RW);
    PresentWord((root * PAGE_SIZE + hhdm) % TWO64, RW);
    UnchangedIff(s, s', kernel, Doubled(hhdm, page), Doubled(hhdm, root));
  }

  /** Frame root of s2 is taken and no table, and copying the kernel's entries there completes vmm_new. */
  ghost predicate Prepared(s0: State, s2: State, kernel: nat, page: nat, root: nat, b: Binding, b': Binding) {
    && |s2.mem| == |s2.used| && IsRoot(s2.shape, kernel) && kernel < |s2.mem| && 0 < root < |s2.mem|
    && root !in s2.shape && s2.used[root]
    && SpaceNew(s0, Copied(s2, kernel, root), kernel, page, root, b, b')
  }

  /** vmm_new as its caller sees it: s1 with two frames taken, s2 after the map calls, then the copy. */
  lemma SpaceMade(s0: State, s1: State, s2: State, kernel: nat, page: nat, root: nat, b: Binding, b': Binding)
    requires Sound(s0) && Sound(s2) && IsRoot(s0.shape, kernel) && IsVpn(b.page) && IsVpn(b'.page)
    requires PairTaken(s0, s1, page, root) && BothDone(s1, s2, kernel, b, b')
    ensures Prepared(s0, s2, kernel, page, root, b, b')
  {
    SpaceComposed(s0, page, root, s2, kernel);
    SpaceMapped(s0, s1, s2, kernel, root, b, b');
  }

  lemma SpaceMapped(s0: State, s1: State, s2: State, kernel: nat, root: nat, b: Binding, b': Binding)
    requires Sound(s2) && IsRoot(s2.shape, kernel) && 0 < root < |s2.mem| && root !in s2.shape && s2.used[root]
    requires IsRoot(s0.shape, kernel) && s1.shape == s0.shape && SameSlots(s0.shape, s0.mem, s1.mem)
    requires BothDone(s1, s2, kernel, b, b')
    ensures var s3 := Copied(s2, kernel, root); BothMapped(s0, s3, kernel, b, b') && (Tidy(s0) ==> Tidy(s3))
  {
    var s3 := Copied(s2, kernel, root);
    CopySound(s2, kernel, root);
    BothMappedAround(s0, s1, s2, s3, kernel, b, b');
    if Tidy(s0) {
      TidySame(s0, s1);
      CopyTidy(s2, s3, kernel, root);
    }
  }

  lemma CopyTidy(s: State, s': State, kernel: nat, root: nat)
    requires Tidy(s) && IsRoot(s.shape, kernel) && s'.shape == s.shape[root := ROOT]
    requires forall r, v :: IsRoot(s.shape, r) && IsVpn(v) ==> Slot(s'.mem, r, v) == Slot(s.mem, r, v)
    requires forall v :: IsVpn(v) ==> Slot(s'.mem, root, v) == Slot(s.mem, kernel, v)
    ensures Tidy(s')
  {
    assert forall r :: IsRoot(s'.shape, r) ==> r == root || IsRoot(s.shape, r);
  }
}
