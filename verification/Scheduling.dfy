/** scheduler.c as a function on values: the loop of schedule(), when it ends, and what a tick leaves. */
module Scheduling {
  datatype Status = Spawned | Ready | Running | Sleeping | Dead

  const QUANTUM: int := 3

  /** A process control block; contexts, page tables and stacks are only passed along. */
  datatype Proc = Proc(pid: nat, status: Status, quantum: int, wake: nat, context: nat, vmm: nat, kstack: nat)

  /** `remaining_quantum--` on an int16_t. */
  function Decrement(q: int): int { if q == -0x8000 then 0x7fff else q - 1 }

  /**
   The state of the loop: the list, where the global current_process points, where the local one points, and
   whether a switch is due.
   */
  datatype Loop = Loop(procs: seq<Proc>, global_: nat, cur: nat, switched: bool)

  ghost predicate ValidLoop(l: Loop) {
    l.procs == [] || (l.global_ < |l.procs| && l.cur < |l.procs|)
  }

  datatype Turn = Again(next: Loop) | Picked(last: Loop) | NoProcess

  function After(procs: seq<Proc>, i: nat): nat { if i + 1 < |procs| then i + 1 else 0 }

  function Remove(procs: seq<Proc>, k: nat): (r: seq<Proc>)
    requires k < |procs|
    ensures |r| == |procs| - 1 && forall i :: 0 <= i < |r| ==> r[i] == procs[if i < k then i else i + 1]
  {
    procs[..k] + procs[k + 1..]
  }

  /** process_delete: unlinks process k and moves the global pointer one on, whether or not it pointed at k. */
  function Delete(l: Loop): Loop
    requires l.procs != [] && ValidLoop(l)
  {
    var procs := Remove(l.procs, l.cur);
    var g :=
      if l.global_ == l.cur then (if l.cur < |procs| then l.cur else 0)
      else After(procs, if l.global_ > l.cur then l.global_ - 1 else l.global_);
    Loop(procs, g, g, true)
  }

  /** Whom process_delete makes current: the process behind the current one, or behind the deleted one if that is it. */
  lemma DeleteMovesOn(l: Loop)
    requires ValidLoop(l) && |l.procs| > 1
    ensures var l', behind := Delete(l), After(l.procs, l.global_);
      && l'.global_ == l'.cur < |l'.procs|
      && l'.procs[l'.cur] == l.procs[if behind == l.cur then After(l.procs, l.cur) else behind]
  {
  }

  /** One iteration of the loop in schedule(). */
  function Iterate(l: Loop, context: nat, now: nat): Turn
    requires ValidLoop(l)
  {
    if l.procs == [] then NoProcess
    else
      var p := l.procs[l.cur];
      match p.status
      case Spawned => Picked(l.(procs := l.procs[l.cur := p.(status := Ready)], switched := true))
      case Ready => Picked(l.(switched := true))
      case Running =>
        var p' := p.(quantum := Decrement(p.quantum), context := context);
        if p'.quantum > 0 then Picked(l.(procs := l.procs[l.cur := p']))
        else
          Again(Loop(l.procs[l.cur := p'.(status := Ready)], l.global_, After(l.procs, l.cur), true))
      case Sleeping =>
        if now > p.wake then Picked(l.(procs := l.procs[l.cur := p.(wake := 0, status := Ready)]))
        else Again(l.(cur := After(l.procs, l.cur)))
      case Dead => Again(Delete(l))
  }

  predicate Asleep(p: Proc, now: nat) { p.status.Sleeping? && now <= p.wake }

  /** A process the loop can stop at, now or after one more visit. */
  predicate Candidate(p: Proc, now: nat) { !p.status.Dead? && !Asleep(p, now) }

  ghost predicate HasCandidate(procs: seq<Proc>, now: nat) {
    exists i :: 0 <= i < |procs| && Candidate(procs[i], now)
  }

  ghost predicate NoneAsleep(procs: seq<Proc>, now: nat) {
    forall i :: 0 <= i < |procs| ==> !Asleep(procs[i], now)
  }

  /** The loop ends exactly in these states: somebody can run, or nobody is left to wait for. */
  ghost predicate Ends(procs: seq<Proc>, now: nat) {
    HasCandidate(procs, now) || NoneAsleep(procs, now)
  }

  /** Dead and running processes: each visit to one makes this smaller. */
  function Weight(procs: seq<Proc>): nat {
    if procs == [] then 0
    else (if procs[0].status.Dead? || procs[0].status.Running? then 1 else 0) + Weight(procs[1..])
  }

  /** First index from i on whose process is not asleep. */
  function Stop(procs: seq<Proc>, i: nat, now: nat): (k: nat)
    requires i <= |procs|
    ensures i <= k <= |procs| && (k < |procs| ==> !Asleep(procs[k], now))
    ensures forall j :: i <= j < k ==> Asleep(procs[j], now)
    decreases |procs| - i
  {
    if i == |procs| || !Asleep(procs[i], now) then i else Stop(procs, i + 1, now)
  }

  /** Cyclic distance from the local pointer to the nearest process that is not asleep. */
  function Distance(l: Loop, now: nat): nat
    requires ValidLoop(l)
  {
    if l.procs == [] then 0
    else
      var k := Stop(l.procs, l.cur, now);
      if k < |l.procs| then k - l.cur else |l.procs| - l.cur + Stop(l.procs, 0, now)
  }

  lemma {:induction false} WeightConcat(a: seq<Proc>, b: seq<Proc>)
    ensures Weight(a + b) == Weight(a) + Weight(b)
  {
    if a == [] {
      assert a + b == b;
    } else {
      assert (a + b)[1..] == a[1..] + b;
      WeightConcat(a[1..], b);
    }
  }

  lemma WeightSplit(procs: seq<Proc>, k: nat, p: Proc)
    requires k < |procs|
    ensures Weight(procs[k := p]) == Weight(Remove(procs, k)) + Weight([p])
  {
    WeightConcat(procs[..k], procs[k + 1..]);
    WeightConcat(procs[..k] + [p], procs[k + 1..]);
    WeightConcat(procs[..k], [p]);
    assert procs[k := p] == procs[..k] + [p] + procs[k + 1..];
  }

  /** What an iteration that goes on must achieve: the condition stays, and (weight, distance) falls. */
  ghost predicate Descends(l: Loop, l': Loop, now: nat)
    requires ValidLoop(l)
  {
    && ValidLoop(l') && Ends(l'.procs, now)
    && (Weight(l'.procs) < Weight(l.procs) || (l'.procs == l.procs && Distance(l', now) < Distance(l, now)))
  }

  lemma RunningDescends(l: Loop, context: nat, now: nat)
    requires ValidLoop(l) && l.procs != [] && l.procs[l.cur].status.Running? && Iterate(l, context, now).Again?
    ensures Descends(l, Iterate(l, context, now).next, now)
  {
    var l' := Iterate(l, context, now).next;
    WeightSplit(l.procs, l.cur, l.procs[l.cur]);
    WeightSplit(l.procs, l.cur, l'.procs[l.cur]);
    assert l.procs[l.cur := l.procs[l.cur]] == l.procs;
    assert Candidate(l'.procs[l.cur], now);
  }

  lemma DeadDescends(l: Loop, now: nat)
    requires ValidLoop(l) && l.procs != [] && l.procs[l.cur].status.Dead? && Ends(l.procs, now)
    ensures Descends(l, Delete(l), now)
  {
    var l' := Delete(l);
    WeightSplit(l.procs, l.cur, l.procs[l.cur]);
    assert l.procs[l.cur := l.procs[l.cur]] == l.procs;
    if i :| 0 <= i < |l.procs| && Candidate(l.procs[i], now) {
      assert l'.procs[if i < l.cur then i else i - 1] == l.procs[i];
    }
  }

  lemma AsleepDescends(l: Loop, now: nat)
    requires ValidLoop(l) && l.procs != [] && Asleep(l.procs[l.cur], now) && Ends(l.procs, now)
    ensures Descends(l, l.(cur := After(l.procs, l.cur)), now)
  {
  }

  lemma IterateDescends(l: Loop, context: nat, now: nat)
    requires ValidLoop(l) && Ends(l.procs, now) && Iterate(l, context, now).Again?
    ensures Descends(l, Iterate(l, context, now).next, now)
  {
    match l.procs[l.cur].status {
      case Running => RunningDescends(l, context, now);
      case Dead => DeadDescends(l, now);
      case Sleeping => AsleepDescends(l, now);
    }
  }

  /** The loop of schedule(), run to its end. */
  function Settle(l: Loop, context: nat, now: nat): (t: Turn)
    requires ValidLoop(l) && Ends(l.procs, now)
    ensures !t.Again?
    decreases Weight(l.procs), Distance(l, now)
  {
    match Iterate(l, context, now)
    case Again(l') =>
      IterateDescends(l, context, now);
      Settle(l', context, now)
    case t => t
  }

  /** Whether the first n iterations all go on. */
  ghost predicate GoesOn(l: Loop, context: nat, now: nat, n: nat)
    requires ValidLoop(l)
    decreases n
  {
    n == 0 || (Iterate(l, context, now).Again? && GoesOn(Iterate(l, context, now).next, context, now, n - 1))
  }

  /** schedule() returns or panics exactly when somebody can run or nobody is asleep. */
  lemma TerminatesIff(l: Loop, context: nat, now: nat)
    requires ValidLoop(l)
    ensures Ends(l.procs, now) <==> exists n :: 0 <= n && !GoesOn(l, context, now, n)
  {
    if Ends(l.procs, now) {
      var n := StepsToEnd(l, context, now);
    } else {
      forall n | 0 <= n
        ensures GoesOn(l, context, now, n)
      {
        Diverges(l, context, now, n);
      }
    }
  }

  lemma {:induction false} StepsToEnd(l: Loop, context: nat, now: nat) returns (n: nat)
    requires ValidLoop(l) && Ends(l.procs, now)
    ensures !GoesOn(l, context, now, n)
    decreases Weight(l.procs), Distance(l, now)
  {
    n := 1;
    if Iterate(l, context, now).Again? {
      var l' := Iterate(l, context, now).next;
      IterateDescends(l, context, now);
      var m := StepsToEnd(l', context, now);
      n := m + 1;
      assert !GoesOn(l', context, now, n - 1);
    }
  }

  lemma StaysEndless(l: Loop, context: nat, now: nat)
    requires ValidLoop(l) && !Ends(l.procs, now)
    ensures Iterate(l, context, now).Again?
    ensures var l' := Iterate(l, context, now).next; ValidLoop(l') && !Ends(l'.procs, now)
  {
    var i :| 0 <= i < |l.procs| && Asleep(l.procs[i], now);
    assert !Candidate(l.procs[l.cur], now);
    var l' := Iterate(l, context, now).next;
    if l.procs[l.cur].status.Dead? {
      assert l'.procs[if i < l.cur then i else i - 1] == l.procs[i];
      forall j | 0 <= j < |l'.procs|
        ensures !Candidate(l'.procs[j], now)
      {
        assert l'.procs[j] == l.procs[if j < l.cur then j else j + 1];
      }
    }
  }

  lemma {:induction false} Diverges(l: Loop, context: nat, now: nat, n: nat)
    requires ValidLoop(l) && !Ends(l.procs, now)
    ensures GoesOn(l, context, now, n)
    decreases n
  {
    if n > 0 {
      StaysEndless(l, context, now);
      Diverges(Iterate(l, context, now).next, context, now, n - 1);
    }
  }

  /** after is before without some dead processes: the others keep their order, and no one newly dies. */
  ghost predicate Thinned(before: seq<Proc>, after: seq<Proc>) {
    if before == [] then after == []
    else
      || (before[0].status.Dead? && Thinned(before[1..], after))
      || (after != [] && after[0].pid == before[0].pid && (after[0].status.Dead? ==> before[0].status.Dead?)
          && Thinned(before[1..], after[1..]))
  }

  lemma {:induction false} ThinnedSelf(procs: seq<Proc>)
    ensures Thinned(procs, procs)
  {
    if procs != [] { ThinnedSelf(procs[1..]); }
  }

  lemma {:induction false} ThinnedUpdate(before: seq<Proc>, after: seq<Proc>, k: nat, p: Proc)
    requires Thinned(before, after) && k < |after| && p.pid == after[k].pid && !p.status.Dead?
    ensures Thinned(before, after[k := p])
  {
    if before[0].status.Dead? && Thinned(before[1..], after) {
      ThinnedUpdate(before[1..], after, k, p);
    } else if k > 0 {
      ThinnedUpdate(before[1..], after[1..], k - 1, p);
      assert after[k := p][1..] == after[1..][k - 1 := p];
    } else {
      assert after[k := p][1..] == after[1..];
    }
  }

  lemma {:induction false} ThinnedRemove(before: seq<Proc>, after: seq<Proc>, k: nat)
    requires Thinned(before, after) && k < |after| && after[k].status.Dead?
    ensures Thinned(before, Remove(after, k))
  {
    if before[0].status.Dead? && Thinned(before[1..], after) {
      ThinnedRemove(before[1..], after, k);
    } else if k > 0 {
      ThinnedRemove(before[1..], after[1..], k - 1);
      assert Remove(after, k)[1..] == Remove(after[1..], k - 1);
    } else {
      assert Remove(after, 0) == after[1..];
    }
  }

  /** For any mix of statuses: schedule() deletes only dead processes and keeps the others in order. */
  lemma {:induction false} SettleThins(before: seq<Proc>, l: Loop, context: nat, now: nat)
    requires ValidLoop(l) && Ends(l.procs, now) && Thinned(before, l.procs)
    ensures var t := Settle(l, context, now); t.Picked? ==> Thinned(before, t.last.procs)
    decreases Weight(l.procs), Distance(l, now)
  {
    if l.procs != [] {
      var t, p := Iterate(l, context, now), l.procs[l.cur];
      match p.status {
        case Spawned => ThinnedUpdate(before, l.procs, l.cur, p.(status := Ready));
        case Ready =>
        case Running =>
          var p' := p.(quantum := Decrement(p.quantum), context := context);
          ThinnedUpdate(before, l.procs, l.cur, if p'.quantum > 0 then p' else p'.(status := Ready));
        case Sleeping => ThinnedUpdate(before, l.procs, l.cur, p.(wake := 0, status := Ready));
        case Dead => ThinnedRemove(before, l.procs, l.cur);
      }
      if t.Again? {
        IterateDescends(l, context, now);
        SettleThins(before, t.next, context, now);
      }
    }
  }

  /** The first process the loop meets that is not asleep makes it switch, unless it wakes up or keeps its quantum. */
  predicate Switching(p: Proc) {
    p.status.Spawned? || p.status.Ready? || p.status.Dead? || (p.status.Running? && Decrement(p.quantum) <= 0)
  }

  lemma {:induction false} SwitchedStays(l: Loop, context: nat, now: nat)
    requires ValidLoop(l) && Ends(l.procs, now) && l.switched
    ensures var t := Settle(l, context, now); t.Picked? ==> t.last.switched
    decreases Weight(l.procs), Distance(l, now)
  {
    if Iterate(l, context, now).Again? {
      IterateDescends(l, context, now);
      SwitchedStays(Iterate(l, context, now).next, context, now);
    }
  }

  function FirstAwake(l: Loop, now: nat): nat
    requires ValidLoop(l) && l.procs != []
  {
    var k := Stop(l.procs, l.cur, now);
    if k < |l.procs| then k else Stop(l.procs, 0, now)
  }

  lemma CandidateKept(l: Loop, context: nat, now: nat)
    requires ValidLoop(l) && HasCandidate(l.procs, now) && Iterate(l, context, now).Again?
    ensures HasCandidate(Iterate(l, context, now).next.procs, now)
  {
    var i :| 0 <= i < |l.procs| && Candidate(l.procs[i], now);
    var l' := Iterate(l, context, now).next;
    if l.procs[l.cur].status.Dead? {
      assert l'.procs[if i < l.cur then i else i - 1] == l.procs[i];
    } else {
      assert Candidate(l'.procs[i], now);
    }
  }

  /** With somebody to run the loop picks a process of the list it leaves. */
  lemma {:induction false} PicksSomebody(l: Loop, context: nat, now: nat)
    requires ValidLoop(l) && HasCandidate(l.procs, now)
    ensures var t := Settle(l, context, now); t.Picked? && t.last.cur < |t.last.procs|
    decreases Weight(l.procs), Distance(l, now)
  {
    if Iterate(l, context, now).Again? {
      IterateDescends(l, context, now);
      CandidateKept(l, context, now);
      PicksSomebody(Iterate(l, context, now).next, context, now);
    }
  }

  lemma FirstAwakeFound(l: Loop, now: nat)
    requires ValidLoop(l) && HasCandidate(l.procs, now)
    ensures FirstAwake(l, now) < |l.procs| && !Asleep(l.procs[FirstAwake(l, now)], now)
  {
    var i :| 0 <= i < |l.procs| && Candidate(l.procs[i], now);
    assert Stop(l.procs, 0, now) <= i;
  }

  /** A context switch is due exactly when the first process the loop meets awake is a switching one. */
  lemma {:induction false} SwitchedIff(l: Loop, context: nat, now: nat)
    requires ValidLoop(l) && HasCandidate(l.procs, now) && !l.switched
    ensures FirstAwake(l, now) < |l.procs|
    ensures var t := Settle(l, context, now);
      t.Picked? && (t.last.switched <==> Switching(l.procs[FirstAwake(l, now)]))
    decreases Weight(l.procs), Distance(l, now)
  {
    FirstAwakeFound(l, now);
    PicksSomebody(l, context, now);
    if Iterate(l, context, now).Again? {
      var l' := Iterate(l, context, now).next;
      IterateDescends(l, context, now);
      if Asleep(l.procs[l.cur], now) {
        SwitchedIff(l', context, now);
      } else {
        SwitchedStays(l', context, now);
      }
    }
  }

  /** A process that goes on without a switch: woken up, or with its context saved and a tick of its quantum gone. */
  function Continued(p: Proc, context: nat): Proc {
    if p.status.Sleeping? then p.(status := Ready, wake := 0) 
    else p.(quantum := Decrement(p.quantum), context := context)
  }

  /** Without a switch it is that first process that is picked, and nothing else in the list has changed. */
  lemma {:induction false} UnswitchedPick(l: Loop, context: nat, now: nat)
    requires ValidLoop(l) && HasCandidate(l.procs, now)
    requires FirstAwake(l, now) < |l.procs| && !Switching(l.procs[FirstAwake(l, now)])
    ensures var t, f := Settle(l, context, now), FirstAwake(l, now);
      t.Picked? && t.last.cur == f && t.last.procs == l.procs[f := Continued(l.procs[f], context)]
    decreases Weight(l.procs), Distance(l, now)
  {
    FirstAwakeFound(l, now);
    if Iterate(l, context, now).Again? {
      IterateDescends(l, context, now);
      UnswitchedPick(Iterate(l, context, now).next, context, now);
    }
  }
}
