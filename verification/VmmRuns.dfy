/** Any sequence of vmm.c calls on any address spaces: what the spaces go on sharing. */
module VmmRuns {
  import opened Outcomes
  import opened Bits
  import opened Pte
  import opened PageTable
  import opened VirtualMemory
  import VmmInit

  datatype Op =
    | Map(space: nat, virt: nat, physical: nat, flags: nat)
    | Unmap(space: nat, virt: nat)
    | ChangeFlag(space: nat, virt: nat, flags: nat)
    | Lookup(space: nat, virt: nat)
    | New

  /** The call stores no entry without PTE_PRESENT. */
  predicate Marked(op: Op) {
    match op
    case Map(_, _, _, flags) => Present(flags)
    case ChangeFlag(_, _, flags) => Present(flags)
    case _ => true
  }

  predicate AllMarked(ops: seq<Op>) { forall i :: 0 <= i < |ops| ==> Marked(ops[i]) }

  /** Old tables stay where they were, and their present upper entries stay. */
  ghost predicate Evolves(s: State, s': State) {
    && (forall t :: t in s.shape ==> t in s'.shape && s'.shape[t] == s.shape[t])
    && Kept(s.shape, s.mem, s'.mem)
  }

  lemma EvolvesTransitive(a: State, b: State, c: State)
    requires Evolves(a, b) && Evolves(b, c)
    ensures Evolves(a, c)
  {
  }

  /** Once two roots hold the same present entry, every page below it translates alike in both for ever. */
  lemma SharedForEver(s: State, s': State, r: nat, r': nat, v: Vpn)
    requires Evolves(s, s') && IsRoot(s.shape, r) && IsRoot(s.shape, r') && IsVpn(v)
    requires Present(Entry(s.mem, r, v.i4)) && Entry(s.mem, r, v.i4) == Entry(s.mem, r', v.i4)
    ensures Slot(s'.mem, r, v) == Slot(s'.mem, r', v)
  {
  }

  ghost predicate AllRoots(shape: Shape, spaces: seq<nat>) {
    forall k :: 0 <= k < |spaces| ==> IsRoot(shape, spaces[k])
  }

  /** What each call does to every page of every space. */
  ghost predicate Effect(op: Op, s: State, s': State, pml: nat) {
    match op
    case Map(_, virt, physical, flags) => Mapped(s, s', pml, PageOf(virt), Or(physical, flags))
    case Unmap(_, virt) =>
      if Present(Slot(s.mem, pml, PageOf(virt))) then Written(s, s', pml, PageOf(virt), 0) else s' == s
    case ChangeFlag(_, virt, flags) => Reflagged(s, s', pml, PageOf(virt), flags)
    case Lookup(_, _) => Extends(s, s')
    case New => s' == s
  }

  /** One call on the space with root `pml`. */
  method PerformOn(vm: Vmm, op: Op, pml: nat) returns (r: Outcome<()>)
    requires vm.Valid() && IsRoot(vm.shape, pml)
    modifies vm`shape, vm.pmm`prev, vm.pmm`ram, vm.pmm.bitmap
    ensures vm.Valid()
    ensures r.Done? ==> Grows(old(vm.Tables()), vm.Tables())
    ensures r.Done? && Marked(op) && Tidy(old(vm.Tables())) ==> Tidy(vm.Tables())
    ensures r.Done? ==> Effect(op, old(vm.Tables()), vm.Tables(), pml)
    ensures r.Halted? ==> Full(vm.pmm.Used())
  {
    ghost var s := vm.Tables();
    match op {
      case Map(_, virt, physical, flags) =>
        var _ :- vm.MapPage(pml, virt, physical, flags);
        MapTidy(s, vm.Tables(), pml, virt, physical, flags);
      case Unmap(_, virt) =>
        var ok := vm.UnmapPage(pml, virt);
        UnmapTidy(s, vm.Tables(), pml, virt, ok);
      case ChangeFlag(_, virt, flags) =>
        var _ :- vm.ChangeFlag(pml, virt, flags);
        ChangeFlagTidy(s, vm.Tables(), pml, virt, flags);
      case Lookup(_, virt) =>
        var _ :- vm.VirtToPhys(pml, virt);
        if Tidy(s) { TidyExtended(s, vm.Tables()); }
      case New =>
    }
    return Done(());
  }

  lemma {:induction false} MapTidy(s: State, s': State, root: nat, virt: nat, physical: nat, flags: nat)
    requires IsRoot(s.shape, root) && Mapped(s, s', root, PageOf(virt), Or(physical, flags))
    ensures Present(flags) && Tidy(s) ==> Tidy(s')
  {
    Decode(virt);
    if Present(flags) && Tidy(s) {
      PresentWord(physical, flags);
      TidyMapped(s, s', root, PageOf(virt), Or(physical, flags));
    }
  }

  lemma UnmapTidy(s: State, s': State, root: nat, virt: nat, ok: bool)
    requires IsRoot(s.shape, root) && if ok then Written(s, s', root, PageOf(virt), 0) else s' == s
    ensures Tidy(s) ==> Tidy(s')
  {
    Decode(virt);
    if ok && Tidy(s) {
      TidyCleared(s, s', root, PageOf(virt));
    }
  }

  lemma ChangeFlagTidy(s: State, s': State, root: nat, virt: nat, flags: nat)
    requires IsRoot(s.shape, root) && Reflagged(s, s', root, PageOf(virt), flags)
    ensures Present(flags) && Tidy(s) ==> Tidy(s')
  {
    Decode(virt);
    if Present(flags) && Tidy(s) {
      TidyReflagged(s, s', root, PageOf(virt), flags);
    }
  }

  lemma GrownSpaces(s: State, s': State, kernel: nat, spaces: seq<nat>)
    requires Sound(s) && Grows(s, s') && IsRoot(s.shape, kernel) && AllRoots(s.shape, spaces)
    requires Coherent(s.shape, s.mem, kernel)
    ensures Evolves(s, s') && AllRoots(s'.shape, spaces) && Coherent(s'.shape, s'.mem, kernel)
  {
    CoherenceKept(s, s', kernel);
  }

  /** A new address space. */
  method PerformNew(vm: Vmm) returns (r: Outcome<nat>)
    requires vm.Valid() && IsRoot(vm.shape, vm.kernel) && Coherent(vm.shape, vm.pmm.ram, vm.kernel)
    modifies vm`shape, vm.pmm`prev, vm.pmm`ram, vm.pmm.bitmap
    ensures vm.Valid()
    ensures r.Done? ==> Evolves(old(vm.Tables()), vm.Tables()) && IsRoot(vm.shape, r.value)
    ensures r.Done? ==> r.value !in old(vm.shape)
    ensures r.Done? ==> Coherent(vm.shape, vm.pmm.ram, vm.kernel) && (Tidy(old(vm.Tables())) ==> Tidy(vm.Tables()))
    ensures r.Halted? ==> Full(vm.pmm.Used())
  {
    var pair :- vm.NewSpace();
    SpaceCoherent(old(vm.Tables()), vm.Tables(), vm.kernel, pair.0, pair.1);
    return Done(pair.1);
  }

  /** One call on an existing space. */
  method PerformIn(vm: Vmm, op: Op, spaces: seq<nat>, k: nat) returns (r: Outcome<()>)
    requires vm.Valid() && IsRoot(vm.shape, vm.kernel) && AllRoots(vm.shape, spaces) && k < |spaces|
    requires Coherent(vm.shape, vm.pmm.ram, vm.kernel)
    modifies vm`shape, vm.pmm`prev, vm.pmm`ram, vm.pmm.bitmap
    ensures vm.Valid()
    ensures r.Done? ==> Evolves(old(vm.Tables()), vm.Tables()) && AllRoots(vm.shape, spaces)
    ensures r.Done? ==> Coherent(vm.shape, vm.pmm.ram, vm.kernel)
    ensures r.Done? && Marked(op) && Tidy(old(vm.Tables())) ==> Tidy(vm.Tables())
    ensures r.Done? ==> Effect(op, old(vm.Tables()), vm.Tables(), spaces[k])
    ensures r.Halted? ==> Full(vm.pmm.Used())
  {
    ghost var s := vm.Tables();
    r := PerformOn(vm, op, spaces[k]);
    if r.Done? {
      GrownSpaces(s, vm.Tables(), vm.kernel, spaces);
    }
  }

  /** One call; an operation on a space that does not exist is not a step. */
  method Perform(vm: Vmm, op: Op, spaces: seq<nat>) returns (r: Outcome<seq<nat>>)
    requires vm.Valid() && IsRoot(vm.shape, vm.kernel) && AllRoots(vm.shape, spaces)
    requires Coherent(vm.shape, vm.pmm.ram, vm.kernel)
    modifies vm`shape, vm.pmm`prev, vm.pmm`ram, vm.pmm.bitmap
    ensures vm.Valid()
    ensures r.Done? ==> Evolves(old(vm.Tables()), vm.Tables()) && AllRoots(vm.shape, r.value) && spaces <= r.value
    ensures r.Done? ==> Coherent(vm.shape, vm.pmm.ram, vm.kernel)
    ensures r.Done? && Marked(op) && Tidy(old(vm.Tables())) ==> Tidy(vm.Tables())
    ensures r.Done? && op.New? ==>
      |r.value| == |spaces| + 1 && r.value[|spaces|] !in old(vm.shape) && IsRoot(vm.shape, r.value[|spaces|])
    ensures r.Done? && !op.New? ==> r.value == spaces
    ensures r.Done? && !op.New? && op.space < |spaces| ==>
      Effect(op, old(vm.Tables()), vm.Tables(), spaces[op.space])
    ensures r.Halted? ==> Full(vm.pmm.Used())
  {
    if op.New? {
      var root :- PerformNew(vm);
      return Done(spaces + [root]);
    } else if op.space < |spaces| {
      var _ :- PerformIn(vm, op, spaces, op.space);
    }
    return Done(spaces);
  }

  /** After any run, every address space translates every higher-half page as the kernel does. */
  method Run(vm: Vmm, ops: seq<Op>, spaces: seq<nat>) returns (r: Outcome<seq<nat>>)
    requires vm.Valid() && IsRoot(vm.shape, vm.kernel) && AllRoots(vm.shape, spaces)
    requires Coherent(vm.shape, vm.pmm.ram, vm.kernel)
    modifies vm`shape, vm.pmm`prev, vm.pmm`ram, vm.pmm.bitmap
    ensures vm.Valid()
    ensures r.Done? ==> Evolves(old(vm.Tables()), vm.Tables()) && AllRoots(vm.shape, r.value) && spaces <= r.value
    ensures r.Done? ==> forall k, v :: 0 <= k < |r.value| && IsVpn(v) && v.i4 >= 256 ==>
      Slot(vm.pmm.ram, r.value[k], v) == Slot(vm.pmm.ram, vm.kernel, v)
    ensures r.Done? && AllMarked(ops) && Tidy(old(vm.Tables())) ==> Tidy(vm.Tables())
    ensures r.Halted? ==> Full(vm.pmm.Used())
  {
    ghost var s := vm.Tables();
    var live := spaces;
    for i := 0 to |ops|
      invariant vm.Valid() && Evolves(s, vm.Tables()) && AllRoots(vm.shape, live) && spaces <= live
      invariant Coherent(vm.shape, vm.pmm.ram, vm.kernel)
      invariant AllMarked(ops) && Tidy(s) ==> Tidy(vm.Tables())
    {
      ghost var before := vm.Tables();
      live :- Perform(vm, ops[i], live);
      EvolvesTransitive(s, before, vm.Tables());
    }
    forall k, v | 0 <= k < |live| && IsVpn(v) && v.i4 >= 256
      ensures Slot(vm.pmm.ram, live[k], v) == Slot(vm.pmm.ram, vm.kernel, v)
    {
      HigherHalfAgrees(vm.shape, vm.pmm.ram, vm.kernel, live[k], v);
    }
    return Done(live);
  }

  /**
   From boot: vmm_init, then any run, starting with the kernel's own address space. If every map call and flag change
   has PTE_PRESENT, lookups are exact: 0 for every unbound page of every address space.
   */
  method FromBoot(vm: Vmm, img: VmmInit.Image, ops: seq<Op>) returns (r: Outcome<seq<nat>>)
    requires vm.Valid() && vm.shape == map[] && VmmInit.DirectMapOk(vm.hhdm) && VmmInit.ImageOk(img)
    modifies vm`kernel, vm`shape, vm.pmm`prev, vm.pmm`ram, vm.pmm.bitmap
    ensures vm.Valid()
    ensures r.Done? ==> AllRoots(vm.shape, r.value) && vm.kernel in r.value
    ensures r.Done? ==> forall k, v :: 0 <= k < |r.value| && IsVpn(v) && v.i4 >= 256 ==>
      Slot(vm.pmm.ram, r.value[k], v) == Slot(vm.pmm.ram, vm.kernel, v)
    ensures r.Done? && AllMarked(ops) ==> Tidy(vm.Tables())
    ensures r.Halted? ==> Full(vm.pmm.Used())
  {
    var _ :- VmmInit.Init(vm, img);
    r := Run(vm, ops, [vm.kernel]);
    if r.Done? {
      assert r.value[0] == [vm.kernel][0];
    }
  }
}
