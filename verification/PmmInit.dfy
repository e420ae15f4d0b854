/** pmm_init: from the bootloader's memory map to the first bitmap. */
module PmmInit {
  import opened Outcomes
  import opened NextFit
  import opened Pte
  import opened PageTable
  import opened PhysicalMemory
  import Bitmap

  /** An entry of the bootloader's memory map. */
  datatype Region = Region(base: nat, length: nat, usable: bool)

  /** Whether entry e makes page p available. */
  predicate Offers(e: Region, p: nat) { e.usable && e.base <= p * PAGE_SIZE < e.base + e.length }

  function EndPage(e: Region): nat { (e.base + e.length) / PAGE_SIZE }

  /** The end of the highest usable entry. */
  function HighestAddr(es: seq<Region>): nat {
    if es == [] then 0
    else
      var e, rest := es[|es| - 1], HighestAddr(es[..|es| - 1]);
      if e.usable && rest < e.base + e.length then e.base + e.length else rest
  }

  function Top(es: seq<Region>): nat { HighestAddr(es) / PAGE_SIZE }

  /** `ALIGN_UP(bitmap_top_index / 8, PAGE_SIZE)`: the quotient is rounded down before it is aligned. */
  function BitmapSize(top: nat): nat { (top / 8 + (PAGE_SIZE - 1)) / PAGE_SIZE * PAGE_SIZE }

  /** The bitmap has a bit for every page below top exactly when the rounding loses nothing. */
  lemma BitmapCoversIff(top: nat)
    requires top > 0
    ensures (top - 1) / 8 < BitmapSize(top) <==> top % 8 == 0 || top / 8 % PAGE_SIZE != 0
    ensures (top - 1) / 8 < BitmapSize(top) ==> top <= 8 * BitmapSize(top)
  {
  }

  /** What the boot protocol guarantees: usable entries are page-aligned, nonempty, disjoint, and leave page 0 alone. */
  ghost predicate MemoryMapOk(es: seq<Region>) {
    && (forall i :: 0 <= i < |es| && es[i].usable ==>
         Aligned(es[i].base) && Aligned(es[i].length) && es[i].length > 0 && es[i].base > 0)
    && (forall i, j, p: nat :: 0 <= i < |es| && 0 <= j < |es| && Offers(es[i], p) && Offers(es[j], p) ==> i == j)
  }

  /** The entry that gives its first pages to the bitmap. */
  function Host(es: seq<Region>, size: nat): (k: nat)
    ensures k <= |es|
    ensures forall i :: 0 <= i < k ==> !(es[i].usable && es[i].length >= size)
    ensures k < |es| ==> es[k].usable && es[k].length >= size
  {
    if es == [] then 0
    else if es[0].usable && es[0].length >= size then 0
    else 1 + Host(es[1..], size)
  }

  lemma {:induction false} HighestBounds(es: seq<Region>, i: nat)
    requires i < |es| && es[i].usable
    ensures es[i].base + es[i].length <= HighestAddr(es)
  {
    if i < |es| - 1 {
      HighestBounds(es[..|es| - 1], i);
    }
  }

  lemma OfferedBelowTop(es: seq<Region>, i: nat, p: nat)
    requires MemoryMapOk(es) && i < |es| && Offers(es[i], p)
    ensures 0 < p < Top(es)
  {
    HighestBounds(es, i);
    var e := es[i];
    assert p < (e.base + e.length) / PAGE_SIZE;
  }

  ghost predicate Offered(es: seq<Region>, p: nat) {
    exists i :: 0 <= i < |es| && Offers(es[i], p)
  }

  function Trim(e: Region, size: nat): Region
    requires size <= e.length
  {
    Region(e.base + size, e.length - size, e.usable)
  }

  /** Giving the host's first `size` bytes away removes exactly those pages from what is offered. */
  lemma TrimOffers(es: seq<Region>, k: nat, size: nat, p: nat)
    requires MemoryMapOk(es) && k < |es| && es[k].usable && size <= es[k].length
    ensures Offered(es[k := Trim(es[k], size)], p) <==>
      Offered(es, p) && !(es[k].base <= p * PAGE_SIZE < es[k].base + size)
  {
    var es' := es[k := Trim(es[k], size)];
    if Offered(es', p) {
      var i :| 0 <= i < |es'| && Offers(es'[i], p);
      assert Offers(es[i], p);
      assert i != k && es[k].base <= p * PAGE_SIZE < es[k].base + size ==> Offers(es[k], p);
    }
    if Offered(es, p) && !(es[k].base <= p * PAGE_SIZE < es[k].base + size) {
      var i :| 0 <= i < |es| && Offers(es[i], p);
      assert Offers(es'[i], p);
    }
  }

  /** The highest address is where some usable entry ends, if there is one. */
  lemma HighestReached(es: seq<Region>) returns (i: nat)
    requires exists j :: 0 <= j < |es| && es[j].usable && es[j].base + es[j].length > 0
    ensures i < |es| && es[i].usable && es[i].base + es[i].length == HighestAddr(es)
  {
    var n := |es| - 1;
    if es[n].usable && HighestAddr(es[..n]) < es[n].base + es[n].length {
      return n;
    }
    var j :| 0 <= j < |es| && es[j].usable && es[j].base + es[j].length > 0;
    if j == n {
      HighestPositive(es[..n]);
    } else {
      assert es[..n][j] == es[j];
    }
    i := HighestReached(es[..n]);
  }

  lemma {:induction false} HighestPositive(es: seq<Region>)
    requires HighestAddr(es) > 0
    ensures exists j :: 0 <= j < |es| && es[j].usable && es[j].base + es[j].length > 0
  {
    var n := |es| - 1;
    if !(es[n].usable && es[n].base + es[n].length > 0) {
      HighestPositive(es[..n]);
      var j :| 0 <= j < n && es[..n][j].usable && es[..n][j].base + es[..n][j].length > 0;
      assert es[j].usable;
    }
  }

  /** The first loop of pmm_init: the page where the highest usable entry ends. */
  method FindTop(entries: array<Region>) returns (top: nat)
    ensures top == Top(entries[..])
    ensures forall i :: 0 <= i < entries.Length && entries[i].usable ==> EndPage(entries[i]) <= top
    ensures top > 0 ==>
      exists i :: 0 <= i < entries.Length && entries[i].usable && EndPage(entries[i]) == top
  {
    var highest := 0;
    for i := 0 to entries.Length
      invariant highest == HighestAddr(entries[..i])
    {
      assert entries[..i + 1][..i] == entries[..i];
      if entries[i].usable && highest < entries[i].base + entries[i].length {
        highest := entries[i].base + entries[i].length;
      }
    }
    ghost var es := entries[..];
    assert entries[..entries.Length] == es;
    forall i | 0 <= i < entries.Length && entries[i].usable
      ensures EndPage(entries[i]) <= highest / PAGE_SIZE
    {
      HighestBounds(es, i);
      assert es[i] == entries[i];
    }
    if highest > 0 {
      HighestPositive(es);
      ghost var k := HighestReached(es);
      assert entries[k] == es[k];
    }
    return highest / PAGE_SIZE;
  }

  /** The second loop: finds the host and takes the bitmap's bytes from it. */
  method PlaceBitmap(entries: array<Region>, size: nat) returns (k: nat)
    modifies entries
    ensures k == Host(old(entries[..]), size)
    ensures k == entries.Length ==> entries[..] == old(entries[..])
    ensures k < entries.Length ==> entries[..] == old(entries[..])[k := Trim(old(entries[k]), size)]
  {
    k := 0;
    ghost var es := entries[..];
    while k < entries.Length && !(entries[k].usable && entries[k].length >= size)
      invariant k <= entries.Length && entries[..] == es && Host(es, size) == k + Host(es[k..], size)
    {
      k := k + 1;
    }
    if k < entries.Length {
      entries[k] := Trim(entries[k], size);
    }
  }

  /** The inner loop of the last pass: clears the bits of one usable entry. */
  method ClearEntry(bitmap: array<bv8>, e: Region)
    requires e.usable && Aligned(e.base) && Aligned(e.length)
    requires forall p: nat :: Offers(e, p) ==> p < 8 * bitmap.Length
    modifies bitmap
    ensures forall p :: 0 <= p < 8 * bitmap.Length ==>
      (Bitmap.Bits(bitmap[..])[p] <==> old(Bitmap.Bits(bitmap[..]))[p] && !Offers(e, p))
  {
    var j := 0;
    ghost var bits := Bitmap.Bits(bitmap[..]);
    while j < e.length
      invariant Aligned(j) && j <= e.length
      invariant forall p :: 0 <= p < 8 * bitmap.Length ==>
        (Bitmap.Bits(bitmap[..])[p] <==> bits[p] && !(e.base <= p * PAGE_SIZE < e.base + j))
    {
      var page := (e.base + j) / PAGE_SIZE;
      PageOfOffset(e.base, j, page);
      assert Offers(e, page);
      Bitmap.Clear(bitmap, page);
      j := j + PAGE_SIZE;
    }
  }

  lemma PageOfOffset(base: nat, j: nat, page: nat)
    requires Aligned(base) && Aligned(j) && page == (base + j) / PAGE_SIZE
    ensures page * PAGE_SIZE == base + j && Aligned(j + PAGE_SIZE)
    ensures forall p: nat :: p * PAGE_SIZE < base + (j + PAGE_SIZE) <==> p * PAGE_SIZE < base + j || p == page
  {
  }

  /** The last pass, over a bitmap that starts with every page taken. */
  method ClearAll(bitmap: array<bv8>, entries: array<Region>)
    requires bitmap as object != entries as object
    requires forall i :: 0 <= i < entries.Length && entries[i].usable ==>
      Aligned(entries[i].base) && Aligned(entries[i].length)
    requires forall p: nat :: Offered(entries[..], p) ==> p < 8 * bitmap.Length
    requires forall p :: 0 <= p < 8 * bitmap.Length ==> Bitmap.Bits(bitmap[..])[p]
    modifies bitmap
    ensures forall p :: 0 <= p < 8 * bitmap.Length ==> (Bitmap.Bits(bitmap[..])[p] <==> !Offered(entries[..], p))
  {
    ghost var es := entries[..];
    for i := 0 to entries.Length
      invariant entries[..] == es
      invariant forall p :: 0 <= p < 8 * bitmap.Length ==> (Bitmap.Bits(bitmap[..])[p] <==> !Offered(es[..i], p))
    {
      forall p: nat
        ensures Offered(es[..i + 1], p) <==> Offered(es[..i], p) || Offers(es[i], p)
      {
        OfferedSnoc(es, i, p);
      }
      if entries[i].usable {
        forall p: nat | Offers(entries[i], p)
          ensures p < 8 * bitmap.Length
        {
          assert Offers(es[i], p);
          assert Offered(es, p);
        }
        ClearEntry(bitmap, entries[i]);
      }
    }
    assert es[..entries.Length] == es;
  }

  lemma OfferedSnoc(es: seq<Region>, i: nat, p: nat)
    requires i < |es|
    ensures Offered(es[..i + 1], p) <==> Offered(es[..i], p) || Offers(es[i], p)
  {
  }

  lemma AllOnes(bytes: seq<bv8>)
    requires forall i :: 0 <= i < |bytes| ==> bytes[i] == 0xff
    ensures forall p :: 0 <= p < 8 * |bytes| ==> Bitmap.Bits(bytes)[p]
  {
  }

  /** The pages that hold the bitmap itself. */
  predicate HoldsBitmap(host: Region, size: nat, p: nat) { host.base <= p * PAGE_SIZE < host.base + size }

  /** The state pmm_init leaves: free are the pages the memory map offers, less those of the bitmap itself. */
  ghost predicate Booted(es: seq<Region>, pmm: Pmm)
    reads pmm, pmm.bitmap
  {
    pmm.Valid() && BootPool(es, pmm.Abs())
  }

  ghost predicate BootPool(es: seq<Region>, pool: Pool) {
    var size := BitmapSize(Top(es));
    var k := Host(es, size);
    && |pool.used| == Top(es) && pool.prev == 0 && k < |es|
    && forall p :: 0 <= p < |pool.used| ==> (!pool.used[p] <==> Offered(es, p) && !HoldsBitmap(es[k], size, p))
  }

  /** pmm_init: halts exactly when no usable entry can hold the bitmap. */
  method Init(entries: array<Region>, ram: Memory) returns (r: Outcome<Pmm>)
    requires entries.Length <= 255 && MemoryMapOk(entries[..])
    requires var top := Top(entries[..]); top % 8 == 0 || top / 8 % PAGE_SIZE != 0
    requires |ram| == Top(entries[..]) && forall p :: 0 <= p < |ram| ==> |ram[p]| == ENTRIES
    modifies entries
    ensures r.Halted? <==> Host(old(entries[..]), BitmapSize(Top(old(entries[..])))) == entries.Length
    ensures r.Done? ==> fresh(r.value) && fresh(r.value.bitmap) && r.value.ram == ram
    ensures r.Done? ==> Booted(old(entries[..]), r.value)
  {
    ghost var es := entries[..];
    var top := FindTop(entries);
    var size := BitmapSize(top);
    var k := PlaceBitmap(entries, size);
    if k == entries.Length {
      return Halted;
    }
    BitmapFits(es, k, size, top);
    TrimmedMap(es, k, size, top);
    var pmm := FillBitmap(entries, size, top, ram);
    return Done(pmm);
  }

  /** The bitmap starts full, and the last pass clears what the trimmed map offers. */
  method FillBitmap(entries: array<Region>, size: nat, top: nat, ram: Memory) returns (pmm: Pmm)
    requires forall i :: 0 <= i < entries.Length && entries[i].usable ==>
      Aligned(entries[i].base) && Aligned(entries[i].length)
    requires forall p: nat :: Offered(entries[..], p) ==> 0 < p < 8 * size
    requires 0 < top <= 8 * size && |ram| == top && forall p :: 0 <= p < |ram| ==> |ram[p]| == ENTRIES
    ensures fresh(pmm) && fresh(pmm.bitmap) && pmm.Valid() && pmm.top == top && pmm.prev == 0 && pmm.ram == ram
    ensures forall p :: 0 <= p < top ==> (!pmm.Used()[p] <==> Offered(entries[..], p))
  {
    var bitmap := new bv8[size](_ => 0xff);
    AllOnes(bitmap[..]);
    ClearAll(bitmap, entries);
    pmm := new Pmm(bitmap, top, ram);
  }

  lemma BitmapFits(es: seq<Region>, k: nat, size: nat, top: nat)
    requires MemoryMapOk(es) && k < |es| && es[k].usable && top == Top(es) && size == BitmapSize(top)
    requires top % 8 == 0 || top / 8 % PAGE_SIZE != 0
    ensures Aligned(size) && 0 < top <= 8 * size
  {
    HighestBounds(es, k);
    BitmapCoversIff(top);
  }

  /** The memory map once the bitmap has its place. */
  lemma TrimmedMap(es: seq<Region>, k: nat, size: nat, top: nat)
    requires MemoryMapOk(es) && k < |es| && es[k].usable && size <= es[k].length && Aligned(size)
    requires top == Top(es) <= 8 * size
    ensures var es' := es[k := Trim(es[k], size)];
      && (forall i :: 0 <= i < |es'| && es'[i].usable ==> Aligned(es'[i].base) && Aligned(es'[i].length))
      && (forall p: nat :: Offered(es', p) <==> Offered(es, p) && !HoldsBitmap(es[k], size, p))
      && (forall p: nat :: Offered(es', p) ==> 0 < p < 8 * size)
  {
    var es' := es[k := Trim(es[k], size)];
    forall p: nat
      ensures Offered(es', p) <==> Offered(es, p) && !HoldsBitmap(es[k], size, p)
      ensures Offered(es', p) ==> 0 < p < 8 * size
    {
      TrimOffers(es, k, size, p);
      if Offered(es, p) {
        var i :| 0 <= i < |es| && Offers(es[i], p);
        OfferedBelowTop(es, i, p);
      }
    }
  }

  /** In no run of requests after pmm_init does a live block contain a page of the bitmap. */
  lemma {:induction false} BitmapNeverHandedOut(es: seq<Region>, pmm: Pmm, qs: seq<Request>, p: nat, s: nat)
    requires Booted(es, pmm) && ServeAll(Ledger(pmm.Abs(), map[]), qs).Some?
    requires var size := BitmapSize(Top(es)); HoldsBitmap(es[Host(es, size)], size, p)
    requires s in ServeAll(Ledger(pmm.Abs(), map[]), qs).value.live
    ensures !In(p, s, ServeAll(Ledger(pmm.Abs(), map[]), qs).value.live[s])
  {
    var l := Ledger(pmm.Abs(), map[]);
    assert Accounted(pmm.Used(), l);
    Conservation(pmm.Used(), l, qs);
  }

  /**
   pmm_init and any run of requests on the real bitmap: its own pages are never handed out. It halts only where
   pmm_init finds no room or a request cannot be served.
   */
  method FromBoot(entries: array<Region>, ram: Memory, qs: seq<Request>)
    returns (r: Outcome<map<nat, nat>>, ghost pool: Pool)
    requires entries.Length <= 255 && MemoryMapOk(entries[..])
    requires var top := Top(entries[..]); top % 8 == 0 || top / 8 % PAGE_SIZE != 0
    requires |ram| == Top(entries[..]) && forall p :: 0 <= p < |ram| ==> |ram[p]| == ENTRIES
    modifies entries
    ensures var es := old(entries[..]);
      var size := BitmapSize(Top(es));
      var k := Host(es, size);
      r.Done? ==> k < |es| && forall s, p: nat :: s in r.value && HoldsBitmap(es[k], size, p) ==> !In(p, s, r.value[s])
    ensures var es := old(entries[..]);
      if Host(es, BitmapSize(Top(es))) == |es| then r == Halted
      else
        && BootPool(es, pool)
        && match ServeAll(Ledger(pool, map[]), qs)
           case None => r == Halted
           case Some(l) => r == Done(l.live)
  {
    ghost var es := entries[..];
    pool := Pool([], 0);
    var booted := Init(entries, ram);
    if booted.Halted? { return Halted, pool; }
    var pmm := booted.value;
    pool := pmm.Abs();
    forall p: nat, s | HoldsBitmap(es[Host(es, BitmapSize(Top(es)))], BitmapSize(Top(es)), p)
      && ServeAll(Ledger(pmm.Abs(), map[]), qs).Some? && s in ServeAll(Ledger(pmm.Abs(), map[]), qs).value.live
      ensures !In(p, s, ServeAll(Ledger(pmm.Abs(), map[]), qs).value.live[s])
    {
      BitmapNeverHandedOut(es, pmm, qs, p, s);
    }
    r := pmm.Run(qs);
  }

  /** 128 MiB and one page: the last usable page has no bit. */
  lemma BitmapTooShort() returns (es: seq<Region>)
    ensures MemoryMapOk(es) && Top(es) > 0 && Offered(es, Top(es) - 1) && (Top(es) - 1) / 8 == BitmapSize(Top(es))
  {
    var e := Region(0x1000, 0x800_0000, true);
    es := [e];
    assert es[..0] == [];
    assert HighestAddr(es) == 0x800_1000;
    assert Offers(es[0], 0x8000);
  }
}
