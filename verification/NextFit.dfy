/** The page allocator as a function: which block a request gets, and what runs of requests and frees conserve. */
module NextFit {
  import opened Outcomes

  /** `used[p]` is bit p of the bitmap; `prev` is the persistent cursor. */
  datatype Pool = Pool(used: seq<bool>, prev: nat)

  ghost predicate FreeRun(used: seq<bool>, s: nat, n: nat) {
    s + n <= |used| && forall p :: s <= p < s + n ==> !used[p]
  }

  /** The lowest free run of n pages that lies wholly in [lo, hi). */
  ghost function FirstRun(used: seq<bool>, lo: nat, hi: nat, n: nat): (r: Option<nat>)
    ensures r.Some? ==> lo <= r.value && r.value + n <= hi && FreeRun(used, r.value, n)
    ensures r.Some? ==> forall s :: lo <= s < r.value ==> !FreeRun(used, s, n)
    ensures r.None? ==> forall s :: lo <= s && s + n <= hi ==> !FreeRun(used, s, n)
    decreases hi - lo
  {
    if lo + n > hi then None
    else if FreeRun(used, lo, n) then Some(lo)
    else if lo == hi then None
    else FirstRun(used, lo + 1, hi, n)
  }

  /** A request for no pages is never met. */
  ghost function RunIn(used: seq<bool>, lo: nat, hi: nat, n: nat): Option<nat> {
    if n == 0 then None else FirstRun(used, lo, hi, n)
  }

  /** How many free pages lie just behind `at`, counting back to `from`. */
  ghost function Trailing(used: seq<bool>, from: nat, at: nat): (c: nat)
    requires from <= at <= |used|
    ensures c <= at - from && FreeRun(used, at - c, c)
    ensures at - c == from || used[at - c - 1]
  {
    if at == from || used[at - 1] then 0 else 1 + Trailing(used, from, at - 1)
  }

  /** What a left-to-right scan knows at page `at`. */
  ghost predicate Scanned(used: seq<bool>, from: nat, at: nat, c: nat, n: nat) {
    from <= at <= |used| && c == Trailing(used, from, at) && RunIn(used, from, at, n).None?
  }

  /** One more page: either the scan goes on, or the n-th free page in a row completes the lowest run. */
  lemma ScanStep(used: seq<bool>, from: nat, at: nat, c: nat, n: nat, hi: nat)
    requires Scanned(used, from, at, c, n) && at < hi <= |used|
    ensures used[at] ==> Scanned(used, from, at + 1, 0, n)
    ensures !used[at] && c + 1 != n ==> Scanned(used, from, at + 1, c + 1, n)
    ensures !used[at] && c + 1 == n ==> RunIn(used, from, hi, n) == Some(at + 1 - n)
  {
    assert n > 0 ==> c < n by {
      assert c >= n ==> FreeRun(used, at - c, n);
    }
    forall s: nat | from <= s && s + n == at + 1 && n > 0 && (used[at] || c + 1 != n)
      ensures !FreeRun(used, s, n)
    {
      assert s <= at - c - 1 || used[at];
    }
    if !used[at] && c + 1 == n {
      assert FreeRun(used, at + 1 - n, n);
    }
  }

  lemma ScanEnd(used: seq<bool>, from: nat, c: nat, n: nat, hi: nat)
    requires hi <= from || Scanned(used, from, hi, c, n)
    ensures RunIn(used, from, hi, n).None?
  {
  }

  /** Above the cursor first, then below it. */
  ghost function Choose(pool: Pool, n: nat): (r: Option<nat>) {
    var above := RunIn(pool.used, pool.prev, |pool.used|, n);
    if above.Some? then above else RunIn(pool.used, 0, pool.prev, n)
  }

  function Fill(used: seq<bool>, s: nat, n: nat, b: bool): (r: seq<bool>)
    ensures |r| == |used|
    ensures forall p :: 0 <= p < |used| ==> r[p] == if s <= p < s + n then b else used[p]
  {
    seq(|used|, p requires 0 <= p < |used| => if s <= p < s + n then b else used[p])
  }

  /** The frames that two requests for one page each are given. */
  ghost function NextPair(pool: Pool): Option<(nat, nat)> {
    var a := Choose(pool, 1);
    if a.None? then None
    else
      var b := Choose(Pool(Fill(pool.used, a.value, 1, true), a.value + 1), 1);
      if b.None? then None else Some((a.value, b.value))
  }

  ghost predicate ValidPool(pool: Pool) {
    pool.prev <= |pool.used| && |pool.used| > 0 && pool.used[0]
  }

  lemma ChosenIsFree(pool: Pool, n: nat)
    requires ValidPool(pool) && Choose(pool, n).Some?
    ensures var s := Choose(pool, n).value;
      0 < n && 0 < s && s + n <= |pool.used| && FreeRun(pool.used, s, n)
  {
  }

  /**
   Next fit, exactly: the lowest free run of n pages from the cursor on; where none starts there, the lowest one that
   lies below the cursor.
   */
  lemma ChooseIff(pool: Pool, n: nat, s: nat)
    ensures Choose(pool, n) == Some(s) <==>
      && n > 0 && FreeRun(pool.used, s, n)
      && if pool.prev <= s then forall q: nat :: pool.prev <= q < s ==> !FreeRun(pool.used, q, n)
         else
           && s + n <= pool.prev && (forall q: nat :: q < s ==> !FreeRun(pool.used, q, n))
           && (forall q: nat :: pool.prev <= q ==> !FreeRun(pool.used, q, n))
  {
  }

  /** Failure, exactly: every free run of n pages straddles the cursor. */
  lemma ChooseFailsIff(pool: Pool, n: nat)
    requires ValidPool(pool) && n > 0
    ensures Choose(pool, n).None? <==>
      forall s: nat :: FreeRun(pool.used, s, n) ==> s < pool.prev < s + n
  {
  }

  /** So a failed request for n pages leaves no free run of 2n - 1 pages, and one for a single page no free page. */
  lemma FailureBound(pool: Pool, n: nat, s: nat)
    requires ValidPool(pool) && n > 0 && Choose(pool, n).None?
    ensures !FreeRun(pool.used, s, 2 * n - 1)
    ensures n == 1 ==> forall p :: 0 <= p < |pool.used| ==> pool.used[p]
  {
    ChooseFailsIff(pool, n);
    assert FreeRun(pool.used, s, 2 * n - 1) ==> FreeRun(pool.used, s, n) && FreeRun(pool.used, s + (n - 1), n);
    if n == 1 {
      forall p | 0 <= p < |pool.used|
        ensures pool.used[p]
      {
        assert !FreeRun(pool.used, p, 1);
      }
    }
  }

  /** The bound is tight: a run of 2n - 2 free pages with the cursor in its middle is not found. */
  lemma FailureBoundTight(n: nat) returns (pool: Pool)
    requires n > 1
    ensures ValidPool(pool) && FreeRun(pool.used, 1, 2 * n - 2) && Choose(pool, n).None?
  {
    pool := Pool([true] + seq(2 * n - 2, _ => false), n);
    ChooseFailsIff(pool, n);
    forall s: nat | FreeRun(pool.used, s, n)
      ensures s < pool.prev < s + n
    {
      assert pool.used[0];
    }
  }

  datatype Request = Alloc(n: nat) | Free(start: nat)

  /** The pool together with the blocks handed out and not yet given back. */
  datatype Ledger = Ledger(pool: Pool, live: map<nat, nat>)

  /** One request; None when the kernel halts, or when the block to free is not live. */
  ghost function Serve(l: Ledger, q: Request): Option<Ledger> {
    match q
    case Alloc(n) =>
      var c := Choose(l.pool, n);
      if c.None? then None
      else Some(Ledger(Pool(Fill(l.pool.used, c.value, n, true), c.value + n), l.live[c.value := n]))
    case Free(s) =>
      if s !in l.live then None
      else Some(Ledger(l.pool.(used := Fill(l.pool.used, s, l.live[s], false)), l.live - {s}))
  }

  ghost function ServeAll(l: Ledger, qs: seq<Request>): Option<Ledger>
    decreases |qs|
  {
    if qs == [] then Some(l)
    else
      var l' := Serve(l, qs[0]);
      if l'.None? then None else ServeAll(l'.value, qs[1..])
  }

  predicate In(p: nat, s: nat, n: nat) { s <= p < s + n }

  ghost predicate Covered(live: map<nat, nat>, p: nat) {
    exists s :: s in live && In(p, s, live[s])
  }

  /** The set bits are the reserved pages plus the disjoint union of the live blocks. */
  ghost predicate Accounted(reserved: seq<bool>, l: Ledger) {
    && |reserved| == |l.pool.used| && l.pool.prev <= |reserved|
    && (forall s :: s in l.live ==> l.live[s] > 0 && s + l.live[s] <= |reserved|)
    && (forall s, p: nat :: s in l.live && In(p, s, l.live[s]) ==> !reserved[p])
    && (forall s, s', p: nat :: s in l.live && s' in l.live && In(p, s, l.live[s]) && In(p, s', l.live[s']) ==> s == s')
    && (forall p :: 0 <= p < |reserved| ==> (l.pool.used[p] <==> reserved[p] || Covered(l.live, p)))
  }

  lemma AllocKeepsAccount(reserved: seq<bool>, l: Ledger, n: nat)
    requires Accounted(reserved, l) && Choose(l.pool, n).Some?
    ensures Accounted(reserved, Serve(l, Alloc(n)).value)
  {
    var l', s := Serve(l, Alloc(n)).value, Choose(l.pool, n).value;
    forall t, p: nat | t in l.live && In(p, t, l.live[t])
      ensures !In(p, s, n)
    {
      assert Covered(l.live, p);
    }
    assert s !in l.live by {
      assert In(s, s, n);
      assert s in l.live ==> In(s, s, l.live[s]);
    }
    forall p: nat | p < |reserved|
      ensures l'.pool.used[p] <==> reserved[p] || Covered(l'.live, p)
    {
      assert Covered(l'.live, p) <==> Covered(l.live, p) || In(p, s, n) by {
        assert l'.live[s] == n;
        if t :| t in l.live && In(p, t, l.live[t]) {
          assert t in l'.live && l'.live[t] == l.live[t];
        }
      }
    }
  }

  lemma FreeKeepsAccount(reserved: seq<bool>, l: Ledger, s: nat)
    requires Accounted(reserved, l) && s in l.live
    ensures Accounted(reserved, Serve(l, Free(s)).value)
  {
    var l' := Serve(l, Free(s)).value;
    forall p: nat | p < |reserved|
      ensures l'.pool.used[p] <==> reserved[p] || Covered(l'.live, p)
    {
      assert Covered(l'.live, p) <==> Covered(l.live, p) && !In(p, s, l.live[s]) by {
        if t :| t in l.live && In(p, t, l.live[t]) {
          assert t != s ==> t in l'.live && In(p, t, l'.live[t]);
        }
      }
    }
  }

  /** Over whole runs: nothing is lost or handed out twice, and with every block returned the bitmap is as it began. */
  lemma {:induction false} Conservation(reserved: seq<bool>, l: Ledger, qs: seq<Request>)
    requires Accounted(reserved, l) && ServeAll(l, qs).Some?
    ensures var l' := ServeAll(l, qs).value;
      Accounted(reserved, l') && (l'.live == map[] ==> l'.pool.used == reserved)
    decreases |qs|
  {
    if qs != [] {
      match qs[0] {
        case Alloc(n) => AllocKeepsAccount(reserved, l, n);
        case Free(s) => FreeKeepsAccount(reserved, l, s);
      }
      Conservation(reserved, Serve(l, qs[0]).value, qs[1..]);
    }
  }

  /** An accounted pool with page 0 reserved never hands out page 0. */
  lemma NeverPageZero(reserved: seq<bool>, l: Ledger, n: nat)
    requires Accounted(reserved, l) && |reserved| > 0 && reserved[0]
    ensures ValidPool(l.pool)
    ensures Choose(l.pool, n).Some? ==> Choose(l.pool, n).value > 0
  {
  }
}
