/**
 pmm.c under interleaving: any number of threads, each step one compare-and-swap, one scan iteration, one bit
 update, one cleared page, or one store to an own page.
 */
module PmmThreads {
  import opened Outcomes
  import opened NextFit

  datatype Pc =
    | Idle
    | AllocSpin(n: nat)
    | Enter(n: nat)
    | Scan(n: nat, saved: nat, c: nat, wrapped: bool)
    | Mark(n: nat, saved: nat, start: nat, i: nat)
    | AllocRelease(n: nat, saved: nat, start: nat)
    | Zero(n: nat, start: nat, i: nat)
    | FreeSpin(n: nat, start: nat)
    | Freeing(n: nat, start: nat, i: nat)
    | FreeRelease
    | Stuck(n: nat, saved: nat)

  /** `held` are the pages a thread may use; a block it is acquiring or returning is part of its pc. */
  datatype Thread = Thread(pc: Pc, held: set<nat>)

  datatype System = System(lock: bool, used: seq<bool>, prev: nat, ram: seq<int>, threads: seq<Thread>)

  datatype Action = Go | Alloc(n: nat) | Free(start: nat, n: nat) | Write(page: nat, value: int)

  predicate Within(p: nat, lo: nat, hi: nat) { lo <= p < hi }

  function Range(lo: nat, hi: nat): set<nat> { set p: nat | p < hi && Within(p, lo, hi) }

  function Pending(pc: Pc): set<nat> {
    match pc
    case Mark(_, _, start, i) => Range(start, i)
    case AllocRelease(n, _, start) => Range(start, start + n)
    case Zero(n, start, _) => Range(start, start + n)
    case FreeSpin(n, start) => Range(start, start + n)
    case Freeing(n, start, i) => Range(i, start + n)
    case _ => {}
  }

  function Own(th: Thread): set<nat> { th.held + Pending(th.pc) }

  /** Between a successful compare-and-swap and the release; a panic never releases. */
  predicate Critical(pc: Pc) {
    pc.Enter? || pc.Scan? || pc.Mark? || pc.AllocRelease? || pc.Freeing? || pc.FreeRelease? || pc.Stuck?
  }

  function SetPc(s: System, t: nat, pc: Pc): System
    requires t < |s.threads|
  {
    s.(threads := s.threads[t := s.threads[t].(pc := pc)])
  }

  /** One iteration of the loop in physical_alloc, or the code around it when the loop is done: new cursor, new pc. */
  function ScanNext(used: seq<bool>, prev: nat, pc: Pc): (nat, Pc)
    requires pc.Scan?
  {
    var Scan(n, saved, c, wrapped) := pc;
    if prev < (if wrapped then saved else |used|) then
      if prev < |used| && used[prev] then (prev + 1, Scan(n, saved, 0, wrapped))
      else if c + 1 == n && n <= prev + 1 then (prev + 1, Mark(n, saved, prev + 1 - n, prev + 1 - n))
      else (prev + 1, Scan(n, saved, c + 1, wrapped))
    else if !wrapped then (0, Scan(n, saved, 0, true))
    else (prev, Stuck(n, saved))
  }

  /** What thread t does next; a step that is not possible leaves everything as it is. */
  function Step(s: System, t: nat, a: Action): System
    requires t < |s.threads|
  {
    var th := s.threads[t];
    match (th.pc, a)
    case (Idle, Alloc(n)) => SetPc(s, t, AllocSpin(n))
    case (Idle, Free(start, n)) =>
      if 0 < n && Range(start, start + n) <= th.held then
        s.(threads := s.threads[t := Thread(FreeSpin(n, start), th.held - Range(start, start + n))])
      else s
    case (Idle, Write(p, x)) =>
      if p in th.held && p < |s.ram| then s.(ram := s.ram[p := x]) else s
    case (AllocSpin(n), Go) => if s.lock then s else SetPc(s.(lock := true), t, Enter(n))
    case (Enter(n), Go) => SetPc(s, t, Scan(n, s.prev, 0, false))
    case (Scan(_, _, _, _), Go) =>
      var (prev, pc) := ScanNext(s.used, s.prev, th.pc);
      SetPc(s.(prev := prev), t, pc)
    case (Mark(n, saved, start, i), Go) =>
      if i < start + n && i < |s.used| then SetPc(s.(used := s.used[i := true]), t, Mark(n, saved, start, i + 1))
      else SetPc(s, t, AllocRelease(n, saved, start))
    case (AllocRelease(n, _, start), Go) => SetPc(s.(lock := false), t, Zero(n, start, start))
    case (Zero(n, start, i), Go) =>
      if i < start + n && i < |s.ram| then SetPc(s.(ram := s.ram[i := 0]), t, Zero(n, start, i + 1))
      else s.(threads := s.threads[t := Thread(Idle, th.held + Range(start, start + n))])
    case (FreeSpin(n, start), Go) => if s.lock then s else SetPc(s.(lock := true), t, Freeing(n, start, start))
    case (Freeing(n, start, i), Go) =>
      if i < start + n && i < |s.used| then
        if s.used[i] then SetPc(s.(used := s.used[i := false]), t, Freeing(n, start, i + 1))
        else SetPc(s, t, Stuck(0, s.prev))
      else SetPc(s, t, FreeRelease)
    case (FreeRelease, Go) => SetPc(s.(lock := false), t, Idle)
    case _ => s
  }

  /** At most one thread is inside, and the lock word says whether one is. */
  ghost predicate Exclusive(s: System) {
    && (forall t, u :: 0 <= t < |s.threads| && 0 <= u < |s.threads| ==>
          Critical(s.threads[t].pc) && Critical(s.threads[u].pc) ==> t == u)
    && (s.lock <==> exists t :: 0 <= t < |s.threads| && Critical(s.threads[t].pc))
  }

  predicate Owns(s: System, t: nat, p: nat) { t < |s.threads| && p in Own(s.threads[t]) }

  ghost predicate Someone(s: System, p: nat) { exists t: nat :: Owns(s, t, p) }

  /** The set bits are the reserved pages and the pages of the threads, all disjoint. */
  ghost predicate Partition(s: System, reserved: set<nat>) {
    && (forall t: nat, p: nat :: Owns(s, t, p) ==> p < |s.used| && p !in reserved)
    && (forall t: nat, u: nat, p: nat :: Owns(s, t, p) && Owns(s, u, p) ==> t == u)
    && (forall p: nat :: p < |s.used| ==> (s.used[p] <==> p in reserved || Someone(s, p)))
  }

  /** What a thread knows at its program point, about a bitmap and cursor that only it may now change. */
  ghost predicate Knows(used: seq<bool>, prev: nat, pc: Pc) {
    match pc
    case Scan(n, saved, c, wrapped) =>
      && saved <= |used| && Scanned(used, if wrapped then 0 else saved, prev, c, n)
      && (wrapped ==> prev <= saved && RunIn(used, saved, |used|, n).None?)
    case Mark(n, saved, start, i) =>
      && saved <= |used| && start <= i <= start + n == prev <= |used| && FreeRun(used, i, start + n - i)
      && Choose(Pool(Fill(used, start, n, false), saved), n) == Some(start)
    case AllocRelease(n, saved, start) =>
      && saved <= |used| && start + n == prev <= |used|
      && Choose(Pool(Fill(used, start, n, false), saved), n) == Some(start)
    case Zero(n, start, i) => start <= i <= start + n <= |used|
    case FreeSpin(n, start) => start + n <= |used|
    case Freeing(n, start, i) => start <= i <= start + n <= |used|
    case Stuck(n, saved) => saved <= |used| && Choose(Pool(used, saved), n).None?
    case _ => true
  }

  /** Page 0 is reserved, so that a block never starts there and NULL is unambiguous. */
  ghost predicate Inv(s: System, reserved: set<nat>) {
    && |s.ram| == |s.used| && s.prev <= |s.used| && 0 in reserved
    && Exclusive(s) && Partition(s, reserved)
    && forall t :: 0 <= t < |s.threads| ==>
         Knows(s.used, s.prev, s.threads[t].pc) && s.threads[t].held !! Pending(s.threads[t].pc)
  }

  /** Moving between program points without touching a bit or a page. */
  lemma SameOwners(s: System, s': System, reserved: set<nat>)
    requires Partition(s, reserved) && s'.used == s.used
    requires forall u: nat, p: nat :: Owns(s', u, p) <==> Owns(s, u, p)
    ensures Partition(s', reserved)
  {
  }

  /** Setting a bit that was clear makes its page this thread's. */
  lemma TakePage(s: System, s': System, t: nat, q: nat, reserved: set<nat>)
    requires Partition(s, reserved) && q < |s.used| && !s.used[q] && s'.used == s.used[q := true]
    requires forall u: nat, p: nat :: Owns(s', u, p) <==> Owns(s, u, p) || (u == t && p == q)
    ensures Partition(s', reserved)
  {
    assert !Someone(s, q) && q !in reserved;
    assert Owns(s', t, q);
    forall p: nat | p < |s.used|
      ensures Someone(s', p) <==> Someone(s, p) || p == q
    {
      if u: nat :| Owns(s, u, p) { assert Owns(s', u, p); }
      if u: nat :| Owns(s', u, p) { assert p == q || Owns(s, u, p); }
    }
  }

  /** Clearing the bit of an own page gives it up. */
  lemma DropPage(s: System, s': System, t: nat, q: nat, reserved: set<nat>)
    requires Partition(s, reserved) && Owns(s, t, q) && s'.used == s.used[q := false]
    requires forall u: nat, p: nat :: Owns(s', u, p) <==> Owns(s, u, p) && p != q
    ensures Partition(s', reserved)
  {
  }

  /** A scan step keeps what the scanner knows; the step that ends the scan knows the atomic allocator's choice. */
  lemma ScanKeeps(used: seq<bool>, prev: nat, pc: Pc)
    requires pc.Scan? && prev <= |used| && Knows(used, prev, pc)
    ensures var (prev', pc') := ScanNext(used, prev, pc); prev' <= |used| && Knows(used, prev', pc')
  {
    var Scan(n, saved, c, wrapped) := pc;
    if prev >= (if wrapped then saved else |used|) {
      ScanStops(used, prev, n, saved, c, wrapped);
    } else {
      ScanGoesOn(used, prev, n, saved, c, wrapped);
    }
  }

  lemma ScanGoesOn(used: seq<bool>, prev: nat, n: nat, saved: nat, c: nat, wrapped: bool)
    requires prev <= |used| && Knows(used, prev, Scan(n, saved, c, wrapped))
    requires prev < if wrapped then saved else |used|
    ensures var (prev', pc') := ScanNext(used, prev, Scan(n, saved, c, wrapped));
      prev' <= |used| && Knows(used, prev', pc')
  {
    ScanAdvances(used, prev, n, saved, c, wrapped);
    assert ScanNext(used, prev, Scan(n, saved, c, wrapped)) ==
      if used[prev] then (prev + 1, Scan(n, saved, 0, wrapped))
      else if c + 1 == n then (prev + 1, Mark(n, saved, prev + 1 - n, prev + 1 - n))
      else (prev + 1, Scan(n, saved, c + 1, wrapped));
  }

  lemma ScanAdvances(used: seq<bool>, prev: nat, n: nat, saved: nat, c: nat, wrapped: bool)
    requires prev <= |used| && Knows(used, prev, Scan(n, saved, c, wrapped))
    requires prev < if wrapped then saved else |used|
    ensures used[prev] ==> Knows(used, prev + 1, Scan(n, saved, 0, wrapped))
    ensures !used[prev] && c + 1 != n ==> Knows(used, prev + 1, Scan(n, saved, c + 1, wrapped))
    ensures !used[prev] && c + 1 == n ==>
      n <= prev + 1 && Knows(used, prev + 1, Mark(n, saved, prev + 1 - n, prev + 1 - n))
  {
    var from, limit := if wrapped then 0 else saved, if wrapped then saved else |used|;
    NextFit.ScanStep(used, from, prev, c, n, limit);
    if !used[prev] && c + 1 == n {
      RunFound(used, saved, wrapped, prev + 1 - n, n);
    }
  }

  lemma ScanStops(used: seq<bool>, prev: nat, n: nat, saved: nat, c: nat, wrapped: bool)
    requires prev <= |used| && Knows(used, prev, Scan(n, saved, c, wrapped))
    requires prev >= if wrapped then saved else |used|
    ensures !wrapped ==> Knows(used, 0, Scan(n, saved, 0, true))
    ensures wrapped ==> Knows(used, prev, Stuck(n, saved))
  {
  }

  lemma RunFound(used: seq<bool>, saved: nat, wrapped: bool, start: nat, n: nat)
    requires saved <= |used| && start + n <= |used| && n > 0
    requires RunIn(used, if wrapped then 0 else saved, if wrapped then saved else |used|, n) == Some(start)
    requires wrapped ==> RunIn(used, saved, |used|, n).None?
    ensures FreeRun(used, start, n) && Fill(used, start, n, false) == used
    ensures Choose(Pool(used, saved), n) == Some(start)
  {
  }

  lemma ExclusiveKept(s: System, t: nat, a: Action)
    requires t < |s.threads| && Exclusive(s)
    ensures Exclusive(Step(s, t, a))
  {
    var s' := Step(s, t, a);
    assert forall u :: 0 <= u < |s.threads| && u != t ==> s'.threads[u] == s.threads[u];
    if Critical(s'.threads[t].pc) {
      assert s'.lock;
    }
  }

  /** Only the thread inside changes the bitmap or the cursor; what the others know does not depend on them. */
  lemma OthersKnow(s: System, t: nat, a: Action, u: nat)
    requires t < |s.threads| && u < |s.threads| && u != t && Exclusive(s) && Knows(s.used, s.prev, s.threads[u].pc)
    ensures var s' := Step(s, t, a);
      s'.threads[u] == s.threads[u] && |s'.used| == |s.used| && Knows(s'.used, s'.prev, s'.threads[u].pc)
  {
    if Critical(s.threads[u].pc) {
      assert !Critical(s.threads[t].pc);
    }
  }

  lemma MarkKeeps(used: seq<bool>, prev: nat, pc: Pc)
    requires pc.Mark? && Knows(used, prev, pc)
    ensures pc.i < pc.start + pc.n ==>
      pc.i < |used| && !used[pc.i] && Knows(used[pc.i := true], prev, Mark(pc.n, pc.saved, pc.start, pc.i + 1))
    ensures pc.i >= pc.start + pc.n ==> Knows(used, prev, AllocRelease(pc.n, pc.saved, pc.start))
  {
    if pc.i < pc.start + pc.n {
      assert Fill(used[pc.i := true], pc.start, pc.n, false) == Fill(used, pc.start, pc.n, false);
    }
  }

  /** The new program point of t is known to be right. */
  ghost predicate Informed(s: System, t: nat)
    requires t < |s.threads|
  {
    s.prev <= |s.used| && Knows(s.used, s.prev, s.threads[t].pc)
  }

  lemma IdleKnows(s: System, t: nat, a: Action, reserved: set<nat>)
    requires Inv(s, reserved) && t < |s.threads| && s.threads[t].pc.Idle?
    ensures Informed(Step(s, t, a), t)
  {
    if a.Free? && 0 < a.n && Range(a.start, a.start + a.n) <= s.threads[t].held {
      assert Within(a.start + a.n - 1, a.start, a.start + a.n);
      assert Owns(s, t, a.start + a.n - 1);
    }
  }

  lemma SearchKnows(s: System, t: nat, reserved: set<nat>)
    requires Inv(s, reserved) && t < |s.threads|
    requires s.threads[t].pc.Enter? || s.threads[t].pc.Scan? || s.threads[t].pc.Mark?
    ensures Informed(Step(s, t, Go), t)
  {
    var pc := s.threads[t].pc;
    if pc.Enter? {
      ScanEnd(s.used, s.prev, 0, pc.n, s.prev);
    } else if pc.Scan? {
      ScanKeeps(s.used, s.prev, pc);
    } else {
      MarkKeeps(s.used, s.prev, pc);
    }
  }

  lemma FreeKnows(s: System, t: nat, reserved: set<nat>)
    requires Inv(s, reserved) && t < |s.threads| && s.threads[t].pc.Freeing?
    ensures Informed(Step(s, t, Go), t)
  {
  }

  lemma SelfKnows(s: System, t: nat, a: Action, reserved: set<nat>)
    requires Inv(s, reserved) && t < |s.threads|
    ensures Informed(Step(s, t, a), t)
  {
    var pc := s.threads[t].pc;
    if pc.Idle? {
      IdleKnows(s, t, a, reserved);
    } else if a.Go? && (pc.Enter? || pc.Scan? || pc.Mark?) {
      SearchKnows(s, t, reserved);
    } else if a.Go? && pc.Freeing? {
      FreeKnows(s, t, reserved);
    }
  }

  /** A step of t that leaves the bitmap alone hands no page over. */
  lemma KeepPages(s: System, s': System, t: nat, reserved: set<nat>)
    requires Partition(s, reserved) && t < |s.threads| == |s'.threads| && s'.used == s.used
    requires s'.threads == s.threads[t := s'.threads[t]] && Own(s'.threads[t]) == Own(s.threads[t])
    ensures Partition(s', reserved)
  {
    forall u: nat, p: nat
      ensures Owns(s', u, p) <==> Owns(s, u, p)
    {
    }
    SameOwners(s, s', reserved);
  }

  lemma MarkTakes(s: System, t: nat, reserved: set<nat>)
    requires Inv(s, reserved) && t < |s.threads|
    requires var pc := s.threads[t].pc; pc.Mark? && pc.i < pc.start + pc.n
    ensures var s' := Step(s, t, Go); Partition(s', reserved) && s'.threads[t].held !! Pending(s'.threads[t].pc)
  {
    var s', pc := Step(s, t, Go), s.threads[t].pc;
    MarkKeeps(s.used, s.prev, pc);
    assert !Owns(s, t, pc.i) by { assert Owns(s, t, pc.i) ==> Someone(s, pc.i); }
    assert Range(pc.start, pc.i + 1) == Range(pc.start, pc.i) + {pc.i};
    forall u: nat, p: nat
      ensures Owns(s', u, p) <==> Owns(s, u, p) || (u == t && p == pc.i)
    {
    }
    TakePage(s, s', t, pc.i, reserved);
  }

  lemma FreeDrops(s: System, t: nat, reserved: set<nat>)
    requires Inv(s, reserved) && t < |s.threads|
    requires var pc := s.threads[t].pc; pc.Freeing? && pc.i < pc.start + pc.n
    ensures var s' := Step(s, t, Go);
      s'.threads[t].pc.Freeing? && Partition(s', reserved) && s'.threads[t].held !! Pending(s'.threads[t].pc)
  {
    var s', pc := Step(s, t, Go), s.threads[t].pc;
    assert Owns(s, t, pc.i);
    assert Someone(s, pc.i);
    assert Range(pc.i + 1, pc.start + pc.n) == Range(pc.i, pc.start + pc.n) - {pc.i};
    forall u: nat, p: nat
      ensures Owns(s', u, p) <==> Owns(s, u, p) && p != pc.i
    {
      assert u != t ==> !Owns(s, u, pc.i);
    }
    DropPage(s, s', t, pc.i, reserved);
  }

  lemma EmptyRange(lo: nat, hi: nat)
    requires hi <= lo
    ensures Range(lo, hi) == {}
  {
  }

  /** Steps that neither set nor clear a bit move pages between held and pending, or not at all. */
  ghost predicate Quiet(th: Thread, th': Thread) {
    Own(th') == Own(th) && th'.held !! Pending(th'.pc)
  }

  lemma QuietIdle(s: System, t: nat, a: Action)
    requires t < |s.threads| && s.threads[t].pc.Idle?
    ensures Quiet(s.threads[t], Step(s, t, a).threads[t])
  {
  }

  lemma QuietScan(s: System, t: nat)
    requires t < |s.threads| && s.threads[t].pc.Scan?
    ensures Quiet(s.threads[t], Step(s, t, Go).threads[t])
  {
  }

  lemma QuietGo(s: System, t: nat)
    requires t < |s.threads| && Knows(s.used, s.prev, s.threads[t].pc) && |s.ram| == |s.used|
    requires s.threads[t].held !! Pending(s.threads[t].pc)
    requires var pc := s.threads[t].pc; !pc.Scan? && (pc.Mark? || pc.Freeing? ==> pc.i >= pc.start + pc.n)
    ensures Quiet(s.threads[t], Step(s, t, Go).threads[t])
  {
    var pc := s.threads[t].pc;
    if pc.Freeing? { EmptyRange(pc.i, pc.start + pc.n); }
  }

  lemma PagesKept(s: System, t: nat, a: Action, reserved: set<nat>)
    requires Inv(s, reserved) && t < |s.threads|
    ensures var s' := Step(s, t, a); Partition(s', reserved) && s'.threads[t].held !! Pending(s'.threads[t].pc)
  {
    var s', pc := Step(s, t, a), s.threads[t].pc;
    if a.Go? && pc.Mark? && pc.i < pc.start + pc.n {
      MarkTakes(s, t, reserved);
    } else if a.Go? && pc.Freeing? && pc.i < pc.start + pc.n {
      FreeDrops(s, t, reserved);
    } else {
      if pc.Idle? {
        QuietIdle(s, t, a);
      } else if a.Go? && pc.Scan? {
        QuietScan(s, t);
      } else if a.Go? {
        QuietGo(s, t);
      }
      KeepPages(s, s', t, reserved);
    }
  }

  /** Every step of every thread keeps the invariant. */
  lemma StepKeepsInv(s: System, t: nat, a: Action, reserved: set<nat>)
    requires Inv(s, reserved) && t < |s.threads|
    ensures Inv(Step(s, t, a), reserved)
  {
    ExclusiveKept(s, t, a);
    PagesKept(s, t, a, reserved);
    StepShape(s, t, a);
    SelfKnows(s, t, a, reserved);
    AllKnow(s, t, a, reserved);
  }

  lemma StepShape(s: System, t: nat, a: Action)
    requires t < |s.threads|
    ensures var s' := Step(s, t, a);
      |s'.threads| == |s.threads| && |s'.ram| == |s.ram| && |s'.used| == |s.used|
  {
  }

  lemma AllKnow(s: System, t: nat, a: Action, reserved: set<nat>)
    requires Inv(s, reserved) && t < |s.threads|
    ensures var s' := Step(s, t, a);
      forall u :: 0 <= u < |s'.threads| ==>
        Knows(s'.used, s'.prev, s'.threads[u].pc) && s'.threads[u].held !! Pending(s'.threads[u].pc)
  {
    var s' := Step(s, t, a);
    StepShape(s, t, a);
    PagesKept(s, t, a, reserved);
    SelfKnows(s, t, a, reserved);
    forall u | 0 <= u < |s'.threads|
      ensures Knows(s'.used, s'.prev, s'.threads[u].pc) && s'.threads[u].held !! Pending(s'.threads[u].pc)
    {
      if u != t {
        OthersKnow(s, t, a, u);
      }
    }
  }

  /** A schedule: which thread moves, and what it does when it has a choice. */
  function Run(s: System, schedule: seq<(nat, Action)>): System
    decreases |schedule|
  {
    if schedule == [] then s
    else
      var (t, a) := schedule[0];
      Run(if t < |s.threads| then Step(s, t, a) else s, schedule[1..])
  }

  /** Whatever the interleaving: one thread inside, disjoint blocks, and no page lost or handed out twice. */
  lemma {:induction false} RunKeepsInv(s: System, schedule: seq<(nat, Action)>, reserved: set<nat>)
    requires Inv(s, reserved)
    ensures Inv(Run(s, schedule), reserved)
    decreases |schedule|
  {
    if schedule != [] {
      var (t, a) := schedule[0];
      if t < |s.threads| {
        StepKeepsInv(s, t, a, reserved);
      }
      RunKeepsInv(if t < |s.threads| then Step(s, t, a) else s, schedule[1..], reserved);
    }
  }

  /** No step of one thread, zeroing included, changes or takes away a page of another. */
  lemma ForeignPagesSafe(s: System, t: nat, a: Action, u: nat, p: nat, reserved: set<nat>)
    requires Inv(s, reserved) && t < |s.threads| && u != t && Owns(s, u, p)
    ensures var s' := Step(s, t, a); Owns(s', u, p) && p < |s.ram| == |s'.ram| && s'.ram[p] == s.ram[p]
  {
    assert !Owns(s, t, p);
    var pc := s.threads[t].pc;
    assert pc.Zero? && pc.i < pc.start + pc.n ==> Owns(s, t, pc.i);
  }

  /**
   How far a thread inside has come since it entered at program point e with bitmap `used0` and cursor `prev0`.
   Nobody else has touched them.
   */
  ghost predicate Since(e: Pc, used0: seq<bool>, prev0: nat, used: seq<bool>, prev: nat, pc: Pc) {
    match pc
    case Enter(_) => e == pc && used == used0 && prev == prev0
    case Scan(n, saved, _, _) => e == Enter(n) && used == used0 && saved == prev0
    case Mark(n, saved, start, i) =>
      && e == Enter(n) && saved == prev0 && start <= i
      && used == Fill(used0, start, i - start, true) && used0 == Fill(used, start, n, false)
    case AllocRelease(n, saved, start) =>
      e == Enter(n) && saved == prev0 && used == Fill(used0, start, n, true) && used0 == Fill(used, start, n, false)
    case Stuck(n, saved) => e == Enter(n) && used == used0 && saved == prev0
    case Freeing(n, start, i) =>
      e == Freeing(n, start, start) && prev == prev0 && start <= i && used == Fill(used0, start, i - start, false)
    case FreeRelease => e.Freeing? && prev == prev0 && used == Fill(used0, e.start, e.n, false)
    case _ => false
  }

  ghost predicate SinceIn(e: Pc, s0: System, s: System, t: nat)
    requires t < |s.threads|
  {
    Since(e, s0.used, s0.prev, s.used, s.prev, s.threads[t].pc)
  }

  lemma SinceScan(e: Pc, used0: seq<bool>, prev0: nat, used: seq<bool>, prev: nat, pc: Pc)
    requires pc.Scan? && prev <= |used| && Knows(used, prev, pc) && Since(e, used0, prev0, used, prev, pc)
    ensures var (prev', pc') := ScanNext(used, prev, pc); Since(e, used0, prev0, used, prev', pc')
  {
    ScanKeeps(used, prev, pc);
    var pc' := ScanNext(used, prev, pc).1;
    if pc'.Mark? {
      assert Fill(used, pc'.start, pc'.n, false) == used && Fill(used, pc'.start, 0, true) == used;
    }
  }

  lemma SinceMark(e: Pc, used0: seq<bool>, prev0: nat, used: seq<bool>, prev: nat, n: nat, saved: nat, start: nat,
                  i: nat)
    requires Knows(used, prev, Mark(n, saved, start, i)) && i < start + n && i < |used|
    requires Since(e, used0, prev0, used, prev, Mark(n, saved, start, i))
    ensures Since(e, used0, prev0, used[i := true], prev, Mark(n, saved, start, i + 1))
  {
    assert used[i := true] == Fill(used0, start, i + 1 - start, true);
    assert Fill(used[i := true], start, n, false) == Fill(used, start, n, false);
  }

  lemma SinceFreeing(e: Pc, used0: seq<bool>, prev0: nat, used: seq<bool>, prev: nat, n: nat, start: nat, i: nat)
    requires i < start + n && i < |used| && Since(e, used0, prev0, used, prev, Freeing(n, start, i))
    ensures Since(e, used0, prev0, used[i := false], prev, Freeing(n, start, i + 1))
  {
    assert used[i := false] == Fill(used0, start, i + 1 - start, false);
  }

  /** A step of the thread itself, as long as it stays inside. */
  lemma SinceOwn(e: Pc, s0: System, s: System, t: nat, reserved: set<nat>)
    requires Inv(s, reserved) && t < |s.threads| && SinceIn(e, s0, s, t) && Critical(Step(s, t, Go).threads[t].pc)
    ensures SinceIn(e, s0, Step(s, t, Go), t)
  {
    var pc := s.threads[t].pc;
    if pc.Scan? {
      SinceScan(e, s0.used, s0.prev, s.used, s.prev, pc);
    } else if pc.Mark? {
      SinceOwnMark(e, s0, s, t);
    } else if pc.Freeing? {
      SinceOwnFree(e, s0, s, t, reserved);
    }
  }

  lemma SinceOwnMark(e: Pc, s0: System, s: System, t: nat)
    requires t < |s.threads| && s.threads[t].pc.Mark? && Knows(s.used, s.prev, s.threads[t].pc) && SinceIn(e, s0, s, t)
    ensures SinceIn(e, s0, Step(s, t, Go), t)
  {
    var Mark(n, saved, start, i) := s.threads[t].pc;
    if i < start + n {
      SinceMark(e, s0.used, s0.prev, s.used, s.prev, n, saved, start, i);
    }
  }

  lemma SinceOwnFree(e: Pc, s0: System, s: System, t: nat, reserved: set<nat>)
    requires Inv(s, reserved) && t < |s.threads| && s.threads[t].pc.Freeing? && SinceIn(e, s0, s, t)
    ensures SinceIn(e, s0, Step(s, t, Go), t)
  {
    var Freeing(n, start, i) := s.threads[t].pc;
    OwnFreeSucceeds(s, t, reserved);
    if i < start + n {
      SinceFreeing(e, s0.used, s0.prev, s.used, s.prev, n, start, i);
    }
  }

  /** A step of another thread, which is not inside. */
  lemma OthersOutside(s: System, t: nat, a: Action, u: nat)
    requires Exclusive(s) && t < |s.threads| && u < |s.threads| && u != t && Critical(s.threads[u].pc)
    ensures var s' := Step(s, t, a); s'.used == s.used && s'.prev == s.prev && s'.threads[u] == s.threads[u]
  {
    assert !Critical(s.threads[t].pc);
  }

  /** Thread t is inside now and after every step of the schedule. */
  ghost predicate StaysInside(s: System, schedule: seq<(nat, Action)>, t: nat)
    decreases |schedule|
  {
    && t < |s.threads| && Critical(s.threads[t].pc)
    && (schedule != [] ==>
          var (u, a) := schedule[0];
          StaysInside(if u < |s.threads| then Step(s, u, a) else s, schedule[1..], t))
  }

  lemma {:induction false} SinceRun(e: Pc, s0: System, s: System, schedule: seq<(nat, Action)>, t: nat,
                                    reserved: set<nat>)
    requires Inv(s, reserved) && StaysInside(s, schedule, t) && SinceIn(e, s0, s, t)
    ensures t < |Run(s, schedule).threads| && SinceIn(e, s0, Run(s, schedule), t)
    decreases |schedule|
  {
    if schedule != [] {
      var (u, a) := schedule[0];
      if u < |s.threads| {
        StepKeepsInv(s, u, a, reserved);
        if u != t {
          OthersOutside(s, u, a, t);
        } else if a.Go? {
          SinceOwn(e, s0, s, t, reserved);
        }
        SinceRun(e, s0, Step(s, u, a), schedule[1..], t, reserved);
      } else {
        SinceRun(e, s0, s, schedule[1..], t, reserved);
      }
    }
  }

  /**
   Whatever is interleaved: when a thread that entered in state s0 comes to release the lock, its block and the
   allocator's state are those of one atomic next-fit choice on s0; and it halts only if that choice fails.
   */
  lemma {:induction false} AllocIsAtomic(s0: System, schedule: seq<(nat, Action)>, t: nat, reserved: set<nat>)
    requires Inv(s0, reserved) && StaysInside(s0, schedule, t) && s0.threads[t].pc.Enter?
    ensures var s, n := Run(s0, schedule), s0.threads[t].pc.n;
      && t < |s.threads|
      && (s.threads[t].pc.AllocRelease? ==>
            var start := s.threads[t].pc.start;
            && s.threads[t].pc == AllocRelease(n, s0.prev, start) && start > 0
            && Choose(Pool(s0.used, s0.prev), n) == Some(start)
            && s.used == Fill(s0.used, start, n, true) && s.prev == start + n)
      && (s.threads[t].pc.Stuck? ==> Choose(Pool(s0.used, s0.prev), n).None? && s.used == s0.used)
  {
    SinceRun(s0.threads[t].pc, s0, s0, schedule, t, reserved);
    RunKeepsInv(s0, schedule, reserved);
    assert Knows(Run(s0, schedule).used, Run(s0, schedule).prev, Run(s0, schedule).threads[t].pc);
  }

  /** Likewise a release is one atomic clearing of the block. */
  lemma {:induction false} FreeIsAtomic(s0: System, schedule: seq<(nat, Action)>, t: nat, reserved: set<nat>)
    requires Inv(s0, reserved) && StaysInside(s0, schedule, t)
    requires s0.threads[t].pc.Freeing? && s0.threads[t].pc.i == s0.threads[t].pc.start
    ensures var s, pc := Run(s0, schedule), s0.threads[t].pc;
      && t < |s.threads| && !s.threads[t].pc.Stuck?
      && (s.threads[t].pc.FreeRelease? ==> s.used == Fill(s0.used, pc.start, pc.n, false) && s.prev == s0.prev)
  {
    assert s0.used == Fill(s0.used, s0.threads[t].pc.start, 0, false);
    SinceRun(s0.threads[t].pc, s0, s0, schedule, t, reserved);
  }

  /** Boot: no thread holds anything, and the set bits are the reserved pages. */
  ghost predicate Initial(s: System, reserved: set<nat>) {
    && !s.lock && |s.ram| == |s.used| && s.prev <= |s.used| && 0 in reserved
    && (forall p: nat :: p < |s.used| ==> (s.used[p] <==> p in reserved))
    && (forall t :: 0 <= t < |s.threads| ==> s.threads[t] == Thread(Idle, {}))
  }

  lemma InitialInv(s: System, reserved: set<nat>)
    requires Initial(s, reserved)
    ensures Inv(s, reserved) && Cleared(s)
  {
    assert forall p: nat :: !Someone(s, p);
  }

  /** Mutual exclusion and disjointness in every state that any schedule can reach from boot. */
  lemma {:induction false} InterleavingSafe(s: System, schedule: seq<(nat, Action)>, reserved: set<nat>, t: nat, u: nat)
    requires Initial(s, reserved) && t != u
    ensures var s' := Run(s, schedule);
      t < |s'.threads| && u < |s'.threads| ==>
        && !(Critical(s'.threads[t].pc) && Critical(s'.threads[u].pc))
        && forall p: nat :: Owns(s', t, p) ==> !Owns(s', u, p) && p !in reserved
  {
    InitialInv(s, reserved);
    RunKeepsInv(s, schedule, reserved);
  }

  /** A thread that frees its own pages finds every one of them taken, so the panic in pmm_free is never reached. */
  lemma OwnFreeSucceeds(s: System, t: nat, reserved: set<nat>)
    requires Inv(s, reserved) && t < |s.threads| && s.threads[t].pc.Freeing?
    ensures !Step(s, t, Go).threads[t].pc.Stuck?
  {
    var i := s.threads[t].pc.i;
    assert i < s.threads[t].pc.start + s.threads[t].pc.n ==> Owns(s, t, i) && Someone(s, i);
  }

  /** The pages of its block that a thread has been over are zero. */
  ghost predicate Cleared(s: System) {
    forall t, p :: 0 <= t < |s.threads| && 0 <= p < |s.ram| && ClearedTo(s.threads[t].pc, p) ==> s.ram[p] == 0
  }

  predicate ClearedTo(pc: Pc, p: nat) { pc.Zero? && pc.start <= p < pc.i }

  lemma ClearedKept(s: System, t: nat, a: Action, reserved: set<nat>)
    requires Inv(s, reserved) && Cleared(s) && t < |s.threads|
    ensures Cleared(Step(s, t, a))
  {
    var s' := Step(s, t, a);
    forall u, p | 0 <= u < |s'.threads| && 0 <= p < |s'.ram| && ClearedTo(s'.threads[u].pc, p)
      ensures s'.ram[p] == 0
    {
      if u == t {
        OwnCleared(s, t, a, p);
      } else {
        assert s'.threads[u] == s.threads[u];
        assert Owns(s, u, p);
        ForeignPagesSafe(s, t, a, u, p, reserved);
      }
    }
  }

  lemma OwnCleared(s: System, t: nat, a: Action, p: nat)
    requires t < |s.threads| && Cleared(s) && p < |s.ram| == |Step(s, t, a).ram|
    requires ClearedTo(Step(s, t, a).threads[t].pc, p)
    ensures Step(s, t, a).ram[p] == 0
  {
  }

  lemma {:induction false} RunKeepsCleared(s: System, schedule: seq<(nat, Action)>, reserved: set<nat>)
    requires Inv(s, reserved) && Cleared(s)
    ensures Cleared(Run(s, schedule))
    decreases |schedule|
  {
    if schedule != [] {
      var (t, a) := schedule[0];
      if t < |s.threads| {
        StepKeepsInv(s, t, a, reserved);
        ClearedKept(s, t, a, reserved);
        RunKeepsCleared(Step(s, t, a), schedule[1..], reserved);
      } else {
        RunKeepsCleared(s, schedule[1..], reserved);
      }
    }
  }

  /** Whatever the others did meanwhile, the block that pmm_alloc hands over holds only zeros. */
  lemma {:induction false} HandedOverZeroed(s: System, schedule: seq<(nat, Action)>, reserved: set<nat>, t: nat, p: nat)
    requires Initial(s, reserved) && t < |Run(s, schedule).threads|
    requires var pc := Run(s, schedule).threads[t].pc; pc.Zero? && pc.start <= p < pc.start + pc.n == pc.i
    ensures var s' := Step(Run(s, schedule), t, Go);
      s'.threads[t].pc.Idle? && p in s'.threads[t].held && p < |s'.ram| && s'.ram[p] == 0
  {
    InitialInv(s, reserved);
    RunKeepsInv(s, schedule, reserved);
    RunKeepsCleared(s, schedule, reserved);
    assert ClearedTo(Run(s, schedule).threads[t].pc, p);
  }

  /** A schedule in which t alone takes k steps. */
  function Alone(t: nat, k: nat): seq<(nat, Action)> {
    if k == 0 then [] else [(t, Go)] + Alone(t, k - 1)
  }

  lemma AloneStep(s: System, t: nat, k: nat)
    requires t < |s.threads| && k > 0
    ensures Run(s, Alone(t, k)) == Run(Step(s, t, Go), Alone(t, k - 1))
  {
    assert Alone(t, k)[1..] == Alone(t, k - 1);
  }

  lemma {:induction false} AloneMore(s: System, t: nat, j: nat, k: nat)
    ensures Run(s, Alone(t, j + k)) == Run(Run(s, Alone(t, j)), Alone(t, k))
  {
    AloneSplit(t, j, k);
    RunOn(s, Alone(t, j), Alone(t, k));
  }

  lemma {:induction false} AloneSplit(t: nat, j: nat, k: nat)
    ensures Alone(t, j + k) == Alone(t, j) + Alone(t, k)
  {
    if j > 0 {
      AloneSplit(t, j - 1, k);
    }
  }

  lemma {:induction false} RunOn(s: System, a: seq<(nat, Action)>, b: seq<(nat, Action)>)
    ensures Run(s, a + b) == Run(Run(s, a), b)
    decreases |a|
  {
    if a == [] {
      assert a + b == b;
    } else {
      var next := if a[0].0 < |s.threads| then Step(s, a[0].0, a[0].1) else s;
      assert (a + b)[1..] == a[1..] + b;
      RunOn(next, a[1..], b);
    }
  }

  /** While it searches, t changes nothing but bitmap, cursor and its own program point. */
  ghost predicate OnlySearched(s: System, s': System, t: nat) {
    && t < |s.threads| == |s'.threads| && s'.lock == s.lock && s'.ram == s.ram
    && s'.threads == s.threads[t := s.threads[t].(pc := s'.threads[t].pc)]
  }

  function Phase(pc: Pc): nat {
    if pc.Enter? then 3 else if pc.Scan? then (if pc.wrapped then 1 else 2) else 0
  }

  function Distance(s: System, pc: Pc): int {
    if pc.Scan? then |s.used| - s.prev else if pc.Mark? then pc.start + pc.n - pc.i else 0
  }

  lemma SearchStep(e: Pc, s0: System, s: System, t: nat, reserved: set<nat>) returns (s1: System)
    requires Inv(s, reserved) && t < |s.threads| && SinceIn(e, s0, s, t)
    requires var pc := s.threads[t].pc; pc.Enter? || pc.Scan? || pc.Mark?
    ensures Inv(s1, reserved) && OnlySearched(s, s1, t) && SinceIn(e, s0, s1, t) && Nearer(s, s1, t)
    ensures forall k: nat :: Run(s, Alone(t, k + 1)) == Run(s1, Alone(t, k))
  {
    s1 := Step(s, t, Go);
    forall k: nat
      ensures Run(s, Alone(t, k + 1)) == Run(s1, Alone(t, k))
    {
      AloneStep(s, t, k + 1);
    }
    StepKeepsInv(s, t, Go, reserved);
    NextPoint(s, s1, t, reserved);
    SinceOwn(e, s0, s, t, reserved);
  }

  /** The search goes on and has less to do, or it has ended. */
  ghost predicate Nearer(s: System, s': System, t: nat)
    requires t < |s.threads| == |s'.threads|
  {
    var pc, pc' := s.threads[t].pc, s'.threads[t].pc;
    || pc'.AllocRelease? || pc'.Stuck?
    || ((pc'.Scan? || pc'.Mark?)
        && (Phase(pc') < Phase(pc) || (Phase(pc') == Phase(pc) && 0 <= Distance(s', pc') < Distance(s, pc))))
  }

  lemma NextPoint(s: System, s': System, t: nat, reserved: set<nat>)
    requires Inv(s, reserved) && t < |s.threads| && s' == Step(s, t, Go)
    requires var pc := s.threads[t].pc; pc.Enter? || pc.Scan? || pc.Mark?
    ensures OnlySearched(s, s', t) && Nearer(s, s', t)
  {
    var pc := s.threads[t].pc;
    assert Knows(s.used, s.prev, pc);
    if pc.Scan? {
      NextScan(s.used, s.prev, pc);
    }
  }

  lemma NextScan(used: seq<bool>, prev: nat, pc: Pc)
    requires pc.Scan? && prev <= |used| && Knows(used, prev, pc)
    ensures var (prev', pc') := ScanNext(used, prev, pc);
      || pc'.Stuck? || (pc'.Mark? && pc'.i <= pc'.start + pc'.n)
      || (pc'.Scan? && prev' <= |used| && (Phase(pc') < Phase(pc) || (pc'.wrapped == pc.wrapped && prev < prev')))
  {
  }

  /** A thread inside, left alone, comes to the end of its search. */
  lemma {:induction false} SearchEnds(e: Pc, s0: System, s: System, t: nat, reserved: set<nat>) returns (k: nat)
    requires Inv(s, reserved) && t < |s.threads| && SinceIn(e, s0, s, t)
    requires var pc := s.threads[t].pc; pc.Enter? || pc.Scan? || pc.Mark?
    ensures var s' := Run(s, Alone(t, k));
      && Inv(s', reserved) && OnlySearched(s, s', t) && SinceIn(e, s0, s', t)
      && (s'.threads[t].pc.AllocRelease? || s'.threads[t].pc.Stuck?)
    decreases Phase(s.threads[t].pc), Distance(s, s.threads[t].pc)
  {
    var s1 := SearchStep(e, s0, s, t, reserved);
    var more := 0;
    if !s1.threads[t].pc.AllocRelease? && !s1.threads[t].pc.Stuck? {
      more := SearchEnds(e, s0, s1, t, reserved);
    }
    k := more + 1;
    assert Run(s, Alone(t, k)) == Run(s1, Alone(t, more));
  }

  function Zeroed(ram: seq<int>, lo: nat, hi: nat): seq<int> {
    seq(|ram|, p requires 0 <= p < |ram| => if lo <= p < hi then 0 else ram[p])
  }

  lemma {:induction false} ZeroingEnds(s: System, t: nat) returns (k: nat)
    requires t < |s.threads| && s.threads[t].pc.Zero?
    requires var Zero(n, start, i) := s.threads[t].pc; i <= start + n <= |s.ram|
    ensures var Zero(n, start, i) := s.threads[t].pc;
      Run(s, Alone(t, k)) == s.(ram := Zeroed(s.ram, i, start + n),
                                threads := s.threads[t := Thread(Idle, s.threads[t].held + Range(start, start + n))])
    decreases s.threads[t].pc.start + s.threads[t].pc.n - s.threads[t].pc.i
  {
    var Zero(n, start, i) := s.threads[t].pc;
    k := 1;
    if i < start + n {
      var more := ZeroingEnds(Step(s, t, Go), t);
      k := more + 1;
      assert Zeroed(s.ram[i := 0], i + 1, start + n) == Zeroed(s.ram, i, start + n);
    } else {
      assert Zeroed(s.ram, i, start + n) == s.ram;
    }
    AloneStep(s, t, k);
  }

  /**
   pmm_alloc alone: a thread at a free lock comes through, and the steps together are the sequential allocation: the
   block that next fit chooses, marked, cleared and held, cursor behind it, lock free. Without a choice it panics.
   */
  lemma {:induction false} AllocAlone(s: System, t: nat, n: nat, reserved: set<nat>) returns (k: nat)
    requires Inv(s, reserved) && t < |s.threads| && s.threads[t].pc.Idle? && !s.lock
    ensures var s' := Run(s, [(t, Action.Alloc(n))] + Alone(t, k));
      match Choose(Pool(s.used, s.prev), n)
      case None => t < |s'.threads| && s'.threads[t].pc.Stuck?
      case Some(start) =>
        s' == System(false, Fill(s.used, start, n, true), start + n, Zeroed(s.ram, start, start + n),
                     s.threads[t := Thread(Idle, s.threads[t].held + Range(start, start + n))])
  {
    StepKeepsInv(s, t, Action.Alloc(n), reserved);
    k := SpinAlone(Step(s, t, Action.Alloc(n)), t, reserved);
    assert ([(t, Action.Alloc(n))] + Alone(t, k))[1..] == Alone(t, k);
  }

  lemma SpinAlone(s: System, t: nat, reserved: set<nat>) returns (k: nat)
    requires Inv(s, reserved) && t < |s.threads| && s.threads[t].pc.AllocSpin? && !s.lock
    ensures var s', n := Run(s, Alone(t, k)), s.threads[t].pc.n;
      match Choose(Pool(s.used, s.prev), n)
      case None => t < |s'.threads| && s'.threads[t].pc.Stuck?
      case Some(start) =>
        s' == System(false, Fill(s.used, start, n, true), start + n, Zeroed(s.ram, start, start + n),
                     s.threads[t := Thread(Idle, s.threads[t].held + Range(start, start + n))])
  {
    k := InsideAlone(s, t, reserved);
    var s2 := Run(s, Alone(t, k));
    if s2.threads[t].pc.AllocRelease? {
      var rest := ReleaseEnds(s2, t, reserved);
      AloneMore(s, t, k, rest);
      k := k + rest;
    }
  }

  /** Up to the release. */
  lemma InsideAlone(s: System, t: nat, reserved: set<nat>) returns (k: nat)
    requires Inv(s, reserved) && t < |s.threads| && s.threads[t].pc.AllocSpin? && !s.lock
    ensures var s' := Run(s, Alone(t, k)); Inv(s', reserved) && Searched(s, s', t, s.threads[t].pc.n)
  {
    var n, s1 := s.threads[t].pc.n, Step(s, t, Go);
    StepKeepsInv(s, t, Go, reserved);
    var searched := SearchEnds(Enter(n), s1, s1, t, reserved);
    k := searched + 1;
    AloneStep(s, t, k);
    AtEnd(s1, Run(s1, Alone(t, searched)), t, reserved);
  }

  /** Thread t has gone from a free lock to the end of its search for n pages. */
  ghost predicate Searched(s: System, s': System, t: nat, n: nat) {
    && t < |s.threads| == |s'.threads| && s'.ram == s.ram
    && s'.threads == s.threads[t := s.threads[t].(pc := s'.threads[t].pc)]
    && match s'.threads[t].pc
       case Stuck(_, _) => Choose(Pool(s.used, s.prev), n).None?
       case AllocRelease(m, _, start) =>
         && m == n && Choose(Pool(s.used, s.prev), n) == Some(start)
         && s'.used == Fill(s.used, start, n, true) && s'.prev == start + n
       case _ => false
  }

  lemma ReleaseEnds(s: System, t: nat, reserved: set<nat>) returns (k: nat)
    requires Inv(s, reserved) && t < |s.threads| && s.threads[t].pc.AllocRelease?
    ensures var AllocRelease(n, _, start) := s.threads[t].pc;
      Run(s, Alone(t, k)) == System(false, s.used, s.prev, Zeroed(s.ram, start, start + n),
                                    s.threads[t := Thread(Idle, s.threads[t].held + Range(start, start + n))])
  {
    assert Knows(s.used, s.prev, s.threads[t].pc);
    var rest := ZeroingEnds(Step(s, t, Go), t);
    k := rest + 1;
    AloneStep(s, t, k);
  }

  lemma AtEnd(s0: System, s: System, t: nat, reserved: set<nat>)
    requires Inv(s, reserved) && t < |s.threads| == |s0.threads| && s0.threads[t].pc.Enter?
    requires SinceIn(s0.threads[t].pc, s0, s, t)
    ensures var n, pc := s0.threads[t].pc.n, s.threads[t].pc;
      && (pc.Stuck? ==> Choose(Pool(s0.used, s0.prev), n).None?)
      && (pc.AllocRelease? ==>
            && pc.n == n && Choose(Pool(s0.used, s0.prev), n) == Some(pc.start) && pc.start + n <= |s.used|
            && s.used == Fill(s0.used, pc.start, n, true) && s.prev == pc.start + n)
  {
    assert Knows(s.used, s.prev, s.threads[t].pc);
  }

  lemma {:induction false} FreeingEnds(s: System, t: nat, reserved: set<nat>) returns (k: nat)
    requires Inv(s, reserved) && t < |s.threads| && s.threads[t].pc.Freeing?
    ensures var Freeing(n, start, i) := s.threads[t].pc;
      i <= start + n
      && Run(s, Alone(t, k)) == s.(lock := false, used := Fill(s.used, i, start + n - i, false),
                                   threads := s.threads[t := Thread(Idle, s.threads[t].held)])
    decreases s.threads[t].pc.start + s.threads[t].pc.n - s.threads[t].pc.i
  {
    var Freeing(n, start, i) := s.threads[t].pc;
    var s1 := Step(s, t, Go);
    StepKeepsInv(s, t, Go, reserved);
    OwnFreeSucceeds(s, t, reserved);
    if i < start + n {
      var more := FreeingEnds(s1, t, reserved);
      k := more + 1;
      assert Fill(s.used[i := false], i + 1, start + n - (i + 1), false) == Fill(s.used, i, start + n - i, false);
    } else {
      k := 2;
      AloneStep(s1, t, 1);
      assert Fill(s.used, i, start + n - i, false) == s.used;
    }
    AloneStep(s, t, k);
  }

  lemma FreeSpinAlone(s: System, t: nat, reserved: set<nat>) returns (k: nat)
    requires Inv(s, reserved) && t < |s.threads| && s.threads[t].pc.FreeSpin? && !s.lock
    ensures var FreeSpin(n, start) := s.threads[t].pc;
      Run(s, Alone(t, k)) == s.(used := Fill(s.used, start, n, false),
                                threads := s.threads[t := Thread(Idle, s.threads[t].held)])
  {
    StepKeepsInv(s, t, Go, reserved);
    var rest := FreeingEnds(Step(s, t, Go), t, reserved);
    k := rest + 1;
    AloneStep(s, t, k);
  }

  /** pmm_free of held pages, alone: exactly the block is cleared and given up, and the lock is free again. */
  lemma {:induction false} FreeAlone(s: System, t: nat, start: nat, n: nat, reserved: set<nat>) returns (k: nat)
    requires Inv(s, reserved) && t < |s.threads| && s.threads[t].pc.Idle? && !s.lock
    requires 0 < n && Range(start, start + n) <= s.threads[t].held
    ensures Run(s, [(t, Action.Free(start, n))] + Alone(t, k)) ==
      s.(used := Fill(s.used, start, n, false),
         threads := s.threads[t := Thread(Idle, s.threads[t].held - Range(start, start + n))])
  {
    StepKeepsInv(s, t, Action.Free(start, n), reserved);
    k := FreeSpinAlone(Step(s, t, Action.Free(start, n)), t, reserved);
    assert ([(t, Action.Free(start, n))] + Alone(t, k))[1..] == Alone(t, k);
  }
}
