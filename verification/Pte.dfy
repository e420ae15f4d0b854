/** Page-table entries and virtual addresses: the masks and shifts of vmm.h and vmm.c, and what they select. */
module Pte {
  import opened Bits

  const PAGE_SIZE: nat := 4096
  const ENTRIES: nat := 512
  const NINE_BITS: nat := 0x1ff
  const PTE_PRESENT: nat := 1
  const PTE_WRITABLE: nat := 2
  const PTE_USER: nat := 4
  const PTE_NO_EXECUTE: nat := 0x8000_0000_0000_0000
  /** The flag combinations the kernel maps with; the bits are disjoint, so `|` is a sum. */
  const RW: nat := PTE_PRESENT + PTE_WRITABLE
  const RO_NX: nat := PTE_PRESENT + PTE_NO_EXECUTE
  const RW_NX: nat := PTE_PRESENT + PTE_WRITABLE + PTE_NO_EXECUTE
  const PTE_ADDR: nat := 0x000f_ffff_ffff_f000
  const PTE_FLAGS: nat := 0xfff0_0000_0000_0fff

  /** Number of page frames an entry can name. */
  const FRAMES: nat := 0x100_0000_0000
  /** Number of virtual pages: four indices of nine bits. */
  const PAGES: nat := 0x10_0000_0000

  predicate Present(w: nat) { w % 2 == 1 }

  predicate Writable(w: nat) { And(w, PTE_WRITABLE) != 0 }
  predicate NoExecute(w: nat) { And(w, PTE_NO_EXECUTE) != 0 }
  predicate ForUser(w: nat) { And(w, PTE_USER) != 0 }

  function FrameOf(w: nat): nat { w / PAGE_SIZE % FRAMES }

  function FlagsOf(w: nat): nat { And(w, PTE_FLAGS) }

  /** A virtual page: its index at each of the four levels. Bits 48..63 of an address do not take part. */
  datatype Vpn = Vpn(i4: nat, i3: nat, i2: nat, i1: nat)

  predicate IsVpn(v: Vpn) { v.i4 < 512 && v.i3 < 512 && v.i2 < 512 && v.i1 < 512 }

  function PageOf(virt: nat): Vpn {
    Vpn(virt / 0x80_0000_0000 % 512, virt / 0x4000_0000 % 512, virt / 0x20_0000 % 512, virt / 0x1000 % 512)
  }

  /** The 36-bit number of a virtual page. */
  function Number(v: Vpn): nat { ((v.i4 * 512 + v.i3) * 512 + v.i2) * 512 + v.i1 }

  /** `(virt & (NINE_BITS << s)) >> s`, as vmm.c writes each index. */
  function Offset(virt: nat, s: nat): nat { Shr(And(virt, Shl(NINE_BITS, s)), s) }

  lemma {:induction false} PresentBit(w: nat)
    ensures And(w, PTE_PRESENT) != 0 <==> Present(w)
  {
    AndOnes(w, 1);
  }

  /** PTE_GET_ADDR yields the byte address of the frame. */
  lemma {:induction false} AddrBits(w: nat)
    ensures And(w, PTE_ADDR) == FrameOf(w) * PAGE_SIZE
  {
    ShlIsMul(0xff_ffff_ffff, 12);
    AndShl(w, 0xff_ffff_ffff, 12);
    Powers();
    AndOnes(Shr(w, 12), 40);
    ShrIsDiv(w, 12);
    ShlIsMul(FrameOf(w), 12);
  }

  method IsPresent(w: nat) returns (b: bool)
    ensures b <==> Present(w)
  {
    PresentBit(w);
    b := And(w, PTE_PRESENT) != 0;
  }

  /** PTE_GET_ADDR */
  method GetAddr(w: nat) returns (addr: nat)
    ensures addr == FrameOf(w) * PAGE_SIZE
  {
    AddrBits(w);
    addr := And(w, PTE_ADDR);
  }

  lemma {:induction false} OffsetIsDigit(virt: nat, s: nat)
    ensures Offset(virt, s) == virt / Pow2(s) % 512
  {
    ShrAndShl(virt, NINE_BITS, s);
    ShrIsDiv(virt, s);
    Powers();
    AndOnes(Shr(virt, s), 9);
  }

  /** The four masked shifts of the walk select the page of the address. */
  lemma Decode(virt: nat)
    ensures PageOf(virt) == Vpn(Offset(virt, 39), Offset(virt, 30), Offset(virt, 21), Offset(virt, 12))
    ensures IsVpn(PageOf(virt))
  {
    OffsetIsDigit(virt, 39);
    OffsetIsDigit(virt, 30);
    OffsetIsDigit(virt, 21);
    OffsetIsDigit(virt, 12);
    Powers();
  }

  /** Together the indices are the page number modulo 2^36. */
  lemma PageNumber(virt: nat)
    ensures Number(PageOf(virt)) == virt / PAGE_SIZE % PAGES
  {
    var n := virt / 4096;
    assert virt / 0x20_0000 == n / 512 && virt / 0x4000_0000 == n / 512 / 512;
    assert virt / 0x80_0000_0000 == n / 512 / 512 / 512;
    Quotient(n, PAGES, n / 512 / 512 / 512 / 512, Number(PageOf(virt)));
  }

  /** So two addresses are on the same page exactly when their page numbers agree modulo 2^36. */
  lemma SamePage(a: nat, b: nat)
    ensures PageOf(a) == PageOf(b) <==> a / PAGE_SIZE % PAGES == b / PAGE_SIZE % PAGES
  {
    PageNumber(a);
    PageNumber(b);
    Decode(a);
    Decode(b);
  }

  /** The 2^48 canonical addresses: bits 47..63 all equal. */
  predicate Canonical(a: nat) { a < 0x8000_0000_0000 || 0xffff_8000_0000_0000 <= a < TWO64 }

  predicate Aligned(a: nat) { a % 4096 == 0 }

  predicate CanonicalPage(a: nat) { Canonical(a) && Aligned(a) }

  /** A canonical page address is determined by its indices. */
  lemma CanonicalUnique(a: nat, b: nat)
    requires CanonicalPage(a) && CanonicalPage(b) && PageOf(a) == PageOf(b)
    ensures a == b
  {
    SamePage(a, b);
    PageNumberCanonical(a);
    PageNumberCanonical(b);
  }

  lemma PageNumberCanonical(a: nat)
    requires CanonicalPage(a)
    ensures a / PAGE_SIZE % PAGES ==
      if a < 0x8000_0000_0000 then a / PAGE_SIZE else a / PAGE_SIZE - 0xf_fff0_0000_0000
  {
  }

  /** The canonical address of a virtual page. */
  function AddressOf(v: Vpn): nat {
    Number(v) * PAGE_SIZE + (if v.i4 < 256 then 0 else 0xffff_0000_0000_0000)
  }

  /** Every virtual page is the page of its canonical address. */
  lemma CanonicalOnto(v: Vpn)
    requires IsVpn(v)
    ensures CanonicalPage(AddressOf(v)) && PageOf(AddressOf(v)) == v
  {
    var a := AddressOf(v);
    PageNumberCanonical(a);
    PageNumber(a);
    Decode(a);
    NumberUnique(v, PageOf(a));
  }

  lemma AddressOfPage(a: nat)
    requires CanonicalPage(a)
    ensures AddressOf(PageOf(a)) == a && IsVpn(PageOf(a))
  {
    Decode(a);
    CanonicalOnto(PageOf(a));
    CanonicalUnique(AddressOf(PageOf(a)), a);
  }

  lemma NumberUnique(v: Vpn, v': Vpn)
    requires IsVpn(v) && IsVpn(v') && Number(v) == Number(v')
    ensures v == v'
  {
    forall u: Vpn | IsVpn(u)
      ensures Number(u) % 512 == u.i1 && Number(u) / 512 % 512 == u.i2
      ensures Number(u) / 512 / 512 % 512 == u.i3 && Number(u) / 512 / 512 / 512 == u.i4
    {
      var n3, n2 := u.i4 * 512 + u.i3, (u.i4 * 512 + u.i3) * 512 + u.i2;
      Quotient(Number(u), 512, n2, u.i1);
      Quotient(n2, 512, n3, u.i2);
      Quotient(n3, 512, u.i4, u.i3);
    }
  }

  /** Twice a direct-map base that is a multiple of 2^47 vanishes from the walk. */
  lemma DoubleOffset(frame: nat, hhdm: nat)
    requires hhdm % 0x8000_0000_0000 == 0
    ensures PageOf((frame * PAGE_SIZE + hhdm + hhdm) % TWO64) == PageOf(frame * PAGE_SIZE)
  {
    var k := hhdm / 0x8000_0000_0000;
    var x := frame * PAGE_SIZE + hhdm + hhdm;
    var q := x / TWO64;
    assert x == frame * PAGE_SIZE + k * 0x1_0000_0000_0000;
    var y := x % TWO64;
    assert y == x - q * TWO64;
    var m: int := k - q * 0x1_0000;
    assert y / PAGE_SIZE == frame + m * PAGES;
    assert (frame + m * PAGES) % PAGES == frame % PAGES;
    SamePage(y, frame * PAGE_SIZE);
  }

  lemma {:induction false} PresentWord(physical: nat, flags: nat)
    requires Present(flags)
    ensures Present(Or(physical, flags))
  {
  }

  /** Whatever the operands, `physical | flags` is present if one of them is, and names no frame if neither does. */
  lemma {:induction false} OrDecodes(physical: nat, flags: nat)
    ensures Present(Or(physical, flags)) <==> Present(physical) || Present(flags)
    ensures FrameOf(Or(physical, flags)) == 0 <==> FrameOf(physical) == 0 && FrameOf(flags) == 0
  {
    OrUnfold(physical, flags);
    AddrBits(physical);
    AddrBits(flags);
    AddrBits(Or(physical, flags));
    AndOverOr(physical, flags, PTE_ADDR);
    OrIsZero(And(physical, PTE_ADDR), And(flags, PTE_ADDR));
  }

  lemma {:induction false} FrameOfOr(x: nat, flags: nat)
    requires FrameOf(flags) == 0
    ensures FrameOf(Or(x, flags)) == FrameOf(x)
  {
    AddrBits(x);
    AddrBits(flags);
    AddrBits(Or(x, flags));
    AndOverOr(x, flags, PTE_ADDR);
    OrZero(And(x, PTE_ADDR));
  }

  /** Packing `physical | flags` loses nothing when the flags have no address bits. */
  lemma {:induction false} Pack(frame: nat, flags: nat)
    requires frame < FRAMES && flags < TWO64 && FrameOf(flags) == 0
    ensures FrameOf(Or(frame * PAGE_SIZE, flags)) == frame
    ensures FlagsOf(Or(frame * PAGE_SIZE, flags)) == flags
    ensures Present(Or(frame * PAGE_SIZE, flags)) <==> Present(flags)
  {
    var p := frame * PAGE_SIZE;
    assert p % 2 == 0;
    OrUnfold(p, flags);
    AddrBits(flags);
    FrameMasked(frame);
    OrZero(p);
    OrZero(flags);
    AndOverOr(p, flags, PTE_ADDR);
    AddrBits(Or(p, flags));
    FlagsMasked(frame, flags);
    AndOverOr(p, flags, PTE_FLAGS);
  }

  lemma {:induction false} FrameMasked(frame: nat)
    requires frame < FRAMES
    ensures And(frame * PAGE_SIZE, PTE_ADDR) == frame * PAGE_SIZE
  {
    AddrBits(frame * PAGE_SIZE);
    FrameOfAddress(frame);
  }

  lemma FrameOfAddress(frame: nat)
    requires frame < FRAMES
    ensures FrameOf(frame * PAGE_SIZE) == frame
  {
  }

  lemma {:induction false} FlagsMasked(frame: nat, flags: nat)
    requires frame < FRAMES && flags < TWO64 && And(flags, PTE_ADDR) == 0
    ensures And(frame * PAGE_SIZE, PTE_FLAGS) == 0 && And(flags, PTE_FLAGS) == flags
  {
    Powers();
    FrameMasked(frame);
    AndComplement(frame * PAGE_SIZE, PTE_ADDR, 64);
    AndComplement(flags, PTE_ADDR, 64);
  }

  /** An entry has the rights of both its parts. */
  lemma {:induction false} OrRights(x: nat, y: nat)
    ensures Writable(Or(x, y)) <==> Writable(x) || Writable(y)
    ensures NoExecute(Or(x, y)) <==> NoExecute(x) || NoExecute(y)
    ensures ForUser(Or(x, y)) <==> ForUser(x) || ForUser(y)
  {
    OrMasked(x, y, PTE_WRITABLE);
    OrMasked(x, y, PTE_NO_EXECUTE);
    OrMasked(x, y, PTE_USER);
  }

  lemma {:induction false} OrMasked(x: nat, y: nat, m: nat)
    ensures And(Or(x, y), m) == 0 <==> And(x, m) == 0 && And(y, m) == 0
  {
    AndOverOr(x, y, m);
    OrIsZero(And(x, m), And(y, m));
  }

  lemma {:induction false} WritableBit(w: nat)
    ensures Writable(w) <==> w / 2 % 2 == 1
  {
    AndUnfold(w, PTE_WRITABLE);
    AndOnes(w / 2, 1);
    assert Pow2(1) == 2;
  }

  lemma {:induction false} UserBit(w: nat)
    ensures ForUser(w) <==> w / 2 / 2 % 2 == 1
  {
    AndUnfold(w, PTE_USER);
    AndUnfold(w / 2, PTE_USER / 2);
    AndOnes(w / 2 / 2, 1);
    assert Pow2(1) == 2;
  }

  lemma {:induction false} NoExecuteBit(w: nat)
    requires w < TWO64
    ensures NoExecute(w) <==> w >= PTE_NO_EXECUTE
  {
    Powers();
    assert Pow2(64) == 2 * Pow2(63);
    ShlIsMul(1, 63);
    AndShl(w, 1, 63);
    ShrIsDiv(w, 63);
    assert w / PTE_NO_EXECUTE == if w >= PTE_NO_EXECUTE then 1 else 0;
    AndOnes(w / PTE_NO_EXECUTE, 1);
    ShlIsMul(w / PTE_NO_EXECUTE, 63);
  }

  /** The address part gives no rights and takes none. */
  lemma {:induction false} AddressRights(frame: nat)
    requires frame < FRAMES
    ensures var a := frame * PAGE_SIZE; !Writable(a) && !NoExecute(a) && !ForUser(a)
  {
    var a := frame * PAGE_SIZE;
    WritableBit(a);
    UserBit(a);
    NoExecuteBit(a);
  }

  /** The flag combinations. */
  lemma {:induction false} FlagRights()
    ensures !Writable(PTE_PRESENT) && !NoExecute(PTE_PRESENT) && !ForUser(PTE_PRESENT)
    ensures Writable(PTE_WRITABLE) && !NoExecute(PTE_WRITABLE) && !ForUser(PTE_WRITABLE)
    ensures Writable(RW) && !NoExecute(RW)
    ensures !Writable(RO_NX) && NoExecute(RO_NX)
    ensures Writable(RW_NX) && NoExecute(RW_NX)
  {
    WritableBit(PTE_PRESENT);
    WritableBit(PTE_WRITABLE);
    WritableBit(RW);
    WritableBit(RO_NX);
    WritableBit(RW_NX);
    NoExecuteBit(PTE_PRESENT);
    NoExecuteBit(PTE_WRITABLE);
    NoExecuteBit(RW);
    NoExecuteBit(RO_NX);
    NoExecuteBit(RW_NX);
    UserBit(PTE_PRESENT);
    UserBit(PTE_WRITABLE);
  }

  /** The entry that links a fresh table: `next_lvl | PTE_PRESENT | PTE_WRITABLE`. */
  function LinkWord(frame: nat): nat { Or(Or(frame * PAGE_SIZE, PTE_PRESENT), PTE_WRITABLE) }

  /** It leads to the table, forbids neither writing nor execution below it, and does not admit user code. */
  lemma LinkWordDecodes(frame: nat)
    requires frame < FRAMES
    ensures var w := LinkWord(frame);
      Present(w) && FrameOf(w) == frame && Writable(w) && !NoExecute(w) && !ForUser(w)
  {
    LinkWordFrame(frame);
    AddressRights(frame);
    OrRights(frame * PAGE_SIZE, PTE_PRESENT);
    OrRights(Or(frame * PAGE_SIZE, PTE_PRESENT), PTE_WRITABLE);
    FlagRights();
  }

  lemma LinkWordFrame(frame: nat)
    requires frame < FRAMES
    ensures Present(LinkWord(frame)) && FrameOf(LinkWord(frame)) == frame
  {
    var p := frame * PAGE_SIZE;
    var w := Or(p, PTE_PRESENT);
    AddrBits(PTE_WRITABLE);
    Pack(frame, PTE_PRESENT);
    AddrBits(w);
    AndOverOr(w, PTE_WRITABLE, PTE_ADDR);
    OrZero(And(w, PTE_ADDR));
    AddrBits(LinkWord(frame));
    OrUnfold(w, PTE_WRITABLE);
  }
}
