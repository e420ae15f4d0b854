/** pmm.c after boot: next-fit search over the bitmap, zeroed allocation, and release. */
module PhysicalMemory {
  import opened Outcomes
  import opened NextFit
  import opened Pte
  import opened PageTable
  import Bitmap

  class Pmm {
    var bitmap: array<bv8>
    var top: nat
    var prev: nat
    /** Physical memory, a page of 64-bit words per frame, as the kernel sees it through the direct map. */
    var ram: Memory

    constructor (bitmap: array<bv8>, top: nat, ram: Memory)
      requires 0 < top <= 8 * bitmap.Length && Bitmap.Bits(bitmap[..])[0]
      requires |ram| == top && forall p :: 0 <= p < top ==> |ram[p]| == ENTRIES
      ensures Valid() && this.bitmap == bitmap && this.top == top && prev == 0 && this.ram == ram
    {
      this.bitmap, this.top, prev, this.ram := bitmap, top, 0, ram;
    }

    ghost function Used(): (s: seq<bool>)
      requires top <= 8 * bitmap.Length
      reads `bitmap, `top, bitmap
    {
      Bitmap.Bits(bitmap[..])[..top]
    }

    ghost function Abs(): Pool
      requires top <= 8 * bitmap.Length
      reads this, bitmap
    {
      Pool(Used(), prev)
    }

    ghost predicate Valid()
      reads this, bitmap
    {
      && top <= 8 * bitmap.Length && ValidPool(Abs())
      && |ram| == top && forall p :: 0 <= p < top ==> |ram[p]| == ENTRIES
    }

    /** The loop of physical_alloc: moves the cursor past the lowest run of n free pages, or to `limit`. */
    method Scan(n: nat, limit: nat) returns (found: bool)
      requires prev <= top <= 8 * bitmap.Length && limit <= top
      modifies this`prev
      ensures var run := RunIn(Used(), old(prev), limit, n);
        if run.None? then !found && prev == if old(prev) < limit then limit else old(prev)
        else found && prev == run.value + n
    {
      var consecutive := 0;
      ghost var from, used := prev, Used();
      while prev < limit
        invariant Scanned(used, from, prev, consecutive, n)
        invariant prev == from || prev <= limit
      {
        var set_ := Bitmap.Get(bitmap, prev);
        assert set_ == used[prev];
        ScanStep(used, from, prev, consecutive, n, limit);
        if set_ {
          consecutive := 0;
          prev := prev + 1;
        } else {
          consecutive := consecutive + 1;
          prev := prev + 1;
          if consecutive == n {
            return true;
          }
        }
      }
      ScanEnd(used, from, consecutive, n, limit);
      return false;
    }

    /** physical_alloc: takes the run that the scan from the cursor to `limit` finds; 0 is NULL. */
    method PhysicalAlloc(n: nat, limit: nat) returns (addr: nat)
      requires Valid() && limit <= top
      modifies this`prev, bitmap
      ensures Valid()
      ensures var run := RunIn(old(Used()), old(prev), limit, n);
        if run.None? then
          addr == 0 && Used() == old(Used()) && prev == if old(prev) < limit then limit else old(prev)
        else
          addr == run.value * PAGE_SIZE && addr > 0
          && Used() == Fill(old(Used()), run.value, n, true) && prev == run.value + n
    {
      var found := Scan(n, limit);
      if found {
        MarkUsed(prev - n, n);
        return (prev - n) * PAGE_SIZE;
      }
      return 0;
    }

    method MarkUsed(start: nat, n: nat)
      requires Valid() && start + n <= top
      modifies bitmap
      ensures Valid() && Used() == Fill(old(Used()), start, n, true)
    {
      ghost var used := Used();
      for i := start to start + n
        invariant Valid() && Used() == Fill(used, start, i - start, true)
      {
        Bitmap.Set(bitmap, i);
      }
    }

    /** pmm_alloc_nozero: the block the next-fit choice names, or a halt that changes nothing. */
    method AllocNozero(n: nat) returns (r: Outcome<nat>)
      requires Valid()
      modifies this`prev, bitmap
      ensures Valid()
      ensures match Choose(old(Abs()), n)
        case None => r == Halted && Abs() == old(Abs())
        case Some(s) => r == Done(s * PAGE_SIZE) && s > 0 && Abs() == Pool(Fill(old(Used()), s, n, true), s + n)
    {
      var saved := prev;
      var addr := PhysicalAlloc(n, top);
      if addr == 0 {
        prev := 0;
        addr := PhysicalAlloc(n, saved);
        if addr == 0 {
          return Halted;
        }
      }
      return Done(addr);
    }

    /** pmm_alloc: as above, and every page of the block is cleared. */
    method Alloc(n: nat) returns (r: Outcome<nat>)
      requires Valid()
      modifies this`prev, this`ram, bitmap
      ensures Valid()
      ensures match Choose(old(Abs()), n)
        case None => r == Halted && Abs() == old(Abs()) && ram == old(ram)
        case Some(s) =>
          && r == Done(s * PAGE_SIZE) && s > 0 && Abs() == Pool(Fill(old(Used()), s, n, true), s + n)
          && forall p :: 0 <= p < top ==> ram[p] == if In(p, s, n) then ZeroPage() else old(ram)[p]
    {
      var addr :- AllocNozero(n);
      var start := addr / PAGE_SIZE;
      for i := start to start + n
        invariant Valid() && Abs() == Pool(Fill(old(Used()), start, n, true), start + n)
        invariant forall p :: 0 <= p < top ==> ram[p] == if start <= p < i then ZeroPage() else old(ram)[p]
      {
        ram := ram[i := ZeroPage()];
      }
      return Done(addr);
    }

    /** pmm_alloc(1): a frame that was free, now taken and cleared; nothing else changes. */
    method AllocFrame() returns (r: Outcome<nat>)
      requires Valid()
      modifies this`prev, this`ram, bitmap
      ensures Valid()
      ensures r.Halted? ==> Used() == old(Used()) && ram == old(ram)
      ensures r.Halted? <==> Choose(old(Abs()), 1).None?
      ensures r.Halted? ==> forall p :: 0 <= p < top ==> Used()[p]
      ensures r.Done? ==>
        Choose(old(Abs()), 1) == Some(r.value) && Abs() == Pool(Fill(old(Used()), r.value, 1, true), r.value + 1)
      ensures r.Done? ==> 0 < r.value < top && !old(Used())[r.value]
      ensures r.Done? ==> Used() == old(Used())[r.value := true] && ram == old(ram)[r.value := ZeroPage()]
    {
      ghost var pool := Abs();
      var addr := Alloc(1);
      if addr.Halted? {
        FailureBound(pool, 1, 0);
        return Halted;
      }
      return Done(addr.value / PAGE_SIZE);
    }

    /** Copies the 512 words of frame `src` to frame `dst` one by one. */
    method CopyWords(src: nat, dst: nat)
      requires Valid() && src < top && dst < top
      modifies `ram
      ensures Valid() && ram == old(ram)[dst := old(ram)[src]]
    {
      ghost var from, to := ram[src], ram[dst];
      for i := 0 to ENTRIES
        invariant Valid() && forall p :: 0 <= p < top && p != dst ==> ram[p] == old(ram)[p]
        invariant forall j :: 0 <= j < ENTRIES ==> ram[dst][j] == if j < i then from[j] else to[j]
      {
        ram := SetEntry(ram, dst, i, ram[src][i]);
      }
      assert ram[dst] == from;
    }

    /** pmm_free: gives back the n pages at addr; halts if one is free already. Only page 0 must not be freed. */
    method Free(addr: nat, n: nat) returns (r: Outcome<()>)
      requires Valid() && addr / PAGE_SIZE + n <= 8 * bitmap.Length
      modifies bitmap
      ensures Valid() <==> addr / PAGE_SIZE > 0 || n == 0
      ensures r.Done? <==> forall p: nat :: In(p, addr / PAGE_SIZE, n) ==> old(Bitmap.Bits(bitmap[..]))[p]
      ensures r.Done? ==>
        && Bitmap.Bits(bitmap[..]) == Fill(old(Bitmap.Bits(bitmap[..])), addr / PAGE_SIZE, n, false)
        && Used() == Fill(old(Used()), addr / PAGE_SIZE, n, false)
    {
      ghost var bits := Bitmap.Bits(bitmap[..]);
      var start := addr / PAGE_SIZE;
      for i := start to start + n
        invariant Bitmap.Bits(bitmap[..]) == Fill(bits, start, i - start, false)
        invariant forall p: nat :: In(p, start, i - start) ==> bits[p]
      {
        var set_ := Bitmap.Get(bitmap, i);
        assert set_ == bits[i];
        if !set_ {
          assert In(i, start, n);
          return Halted;
        }
        Bitmap.Clear(bitmap, i);
      }
      return Done(());
    }

    /** pmm_free of pages that are all taken. */
    method FreeTaken(start: nat, n: nat)
      requires Valid() && 0 < start && start + n <= top && forall p: nat :: In(p, start, n) ==> Used()[p]
      modifies bitmap
      ensures Valid() && Used() == Fill(old(Used()), start, n, false)
    {
      assert forall p: nat :: In(p, start, n) ==> Bitmap.Bits(bitmap[..])[p] == Used()[p];
      var freed := Free(start * PAGE_SIZE, n);
    }

    /** Blocks of the ledger are taken, above page 0 and below top, so freeing one succeeds. */
    lemma LiveBlock(reserved: seq<bool>, live: map<nat, nat>, s: nat)
      requires Valid() && Accounted(reserved, Ledger(Abs(), live)) && reserved[0] && s in live
      ensures s > 0 && s + live[s] <= top && forall p: nat :: In(p, s, live[s]) ==> Used()[p]
    {
      assert In(s, s, live[s]);
      forall p: nat | In(p, s, live[s])
        ensures Used()[p]
      {
        assert Covered(live, p);
      }
    }

    /** One request; the ledger's map says how long the live blocks are. */
    method Perform(q: Request, live: map<nat, nat>, ghost reserved: seq<bool>) returns (r: Outcome<map<nat, nat>>)
      requires Valid() && Accounted(reserved, Ledger(Abs(), live)) && reserved[0]
      modifies this`prev, bitmap
      ensures match Serve(Ledger(old(Abs()), live), q)
        case None => r == Halted
        case Some(l) => r == Done(l.live) && Valid() && Abs() == l.pool && Accounted(reserved, l)
    {
      match q
      case Alloc(n) =>
        ghost var pool := Abs();
        var addr :- AllocNozero(n);
        AllocKeepsAccount(reserved, Ledger(pool, live), n);
        r := Done(live[addr / PAGE_SIZE := n]);
      case Free(s) =>
        if s !in live {
          return Halted;
        }
        LiveBlock(reserved, live, s);
        FreeKeepsAccount(reserved, Ledger(Abs(), live), s);
        FreeTaken(s, live[s]);
        r := Done(live - {s});
    }

    /**
     Any run of requests on the bitmap itself: it follows ServeAll, so the set bits stay the initial ones plus the
     disjoint live blocks, and are the initial ones again once every block is returned.
     */
    method Run(qs: seq<Request>) returns (r: Outcome<map<nat, nat>>)
      requires Valid()
      modifies this`prev, bitmap
      ensures match ServeAll(Ledger(old(Abs()), map[]), qs)
        case None => r == Halted
        case Some(l) => r == Done(l.live) && Valid() && Abs() == l.pool && Accounted(old(Used()), l)
      ensures r == Done(map[]) ==> Used() == old(Used())
    {
      var live: map<nat, nat> := map[];
      ghost var start, reserved := Ledger(Abs(), map[]), Used();
      for i := 0 to |qs|
        invariant Valid() && Accounted(reserved, Ledger(Abs(), live))
        invariant ServeAll(start, qs) == ServeAll(Ledger(Abs(), live), qs[i..])
      {
        assert qs[i..][1..] == qs[i + 1..];
        live :- Perform(qs[i], live, reserved);
      }
      if live == map[] {
        assert Used() == reserved;
      }
      return Done(live);
    }
  }
}
