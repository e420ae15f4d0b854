/** process.c and scheduler.c on the linked list itself, proved against the functions on values. */
module ProcessList {
  import opened Outcomes
  import opened Scheduling
  import opened SchedulerRuns

  class Process {
    const pid: nat
    const vmm: nat
    const kstack: nat
    var status: Status
    var quantum: int
    var wake: nat
    var context: nat
    var next: Process?

    constructor (pid: nat, context: nat, vmm: nat, kstack: nat)
      ensures Value() == Proc(pid, Spawned, 0, 0, context, vmm, kstack) && next == null
    {
      this.pid, this.vmm, this.kstack := pid, vmm, kstack;
      status, quantum, wake, this.context, next := Spawned, 0, 0, context, null;
    }

    ghost function Value(): Proc
      reads this
    {
      Proc(pid, status, quantum, wake, context, vmm, kstack)
    }
  }

  ghost predicate LinkAt(list: seq<Process>, i: nat)
    requires i < |list|
    reads list
  {
    list[i].next == if i + 1 < |list| then list[i + 1] else null
  }

  ghost predicate Distinct(list: seq<Process>) {
    forall i, j :: 0 <= i < j < |list| ==> list[i] != list[j]
  }

  ghost function First(list: seq<Process>): Process? { if list == [] then null else list[0] }

  ghost function Without(list: seq<Process>, k: nat): (r: seq<Process>)
    requires k < |list|
    ensures |r| == |list| - 1 && forall i :: 0 <= i < |r| ==> r[i] == list[if i < k then i else i + 1]
  {
    list[..k] + list[k + 1..]
  }

  class Scheduler {
    var head: Process?
    var current: Process?
    var loaded: nat
    var rsp0: nat
    var nextPid: nat
    /** The processes of the list in order, their values, and where current is among them. */
    ghost var list: seq<Process>
    ghost var procs: seq<Proc>
    ghost var at: nat

    constructor ()
      ensures Valid() && fresh(this) && Abs() == Machine([], None, 0, 0, 1)
    {
      head, current, loaded, rsp0, nextPid, list, procs, at := null, null, 0, 0, 1, [], [], 0;
    }

    ghost predicate Chain()
      reads this, list
    {
      && Distinct(list) && head == First(list) && |procs| == |list|
      && (forall i :: 0 <= i < |list| ==> LinkAt(list, i))
      && (forall i :: 0 <= i < |list| ==> list[i].Value() == procs[i])
    }

    ghost predicate Valid()
      reads this, list
    {
      Chain() && (current != null ==> at < |list| && list[at] == current)
    }

    ghost function Abs(): Machine
      reads this
    {
      Machine(procs, if current == null then None else Some(at), loaded, rsp0, nextPid)
    }

    /** The walk of process_add to the last process. */
    method Tail() returns (it: Process)
      requires Chain() && list != []
      ensures it == list[|list| - 1]
    {
      it := head;
      ghost var k := 0;
      while it.next != null
        invariant k < |list| && it == list[k]
        decreases |list| - k
      {
        assert LinkAt(list, k);
        it := it.next;
        k := k + 1;
      }
      assert LinkAt(list, k);
    }

    /** process_add: links the process, now ready, behind the last one. */
    method Add(p: Process)
      requires Valid() && p !in list && p.next == null
      modifies this`head, this`list, this`procs, p`status, list`next
      ensures Valid() && list == old(list) + [p]
      ensures Abs() == old(Abs()).(procs := old(procs) + [old(p.Value()).(status := Ready)])
    {
      p.status := Ready;
      if head == null {
        head := p;
      } else {
        var last := Tail();
        last.next := p;
      }
      list, procs := list + [p], procs + [p.Value()];
      forall i | 0 <= i < |list|
        ensures LinkAt(list, i) && list[i].Value() == procs[i]
      {
        if i < |old(list)| {
          assert old(LinkAt(list, i)) && old(list[i].Value()) == old(procs[i]);
        }
      }
    }

    /** The search of process_delete for the process before p. */
    method Before(p: Process, ghost k: nat) returns (scan: Process)
      requires Chain() && 0 < k < |list| && p == list[k]
      ensures scan == list[k - 1]
    {
      scan := head;
      ghost var i := 0;
      while scan.next != p
        invariant i < k && scan == list[i]
        decreases |list| - i
      {
        assert LinkAt(list, i);
        scan := scan.next;
        i := i + 1;
      }
      assert LinkAt(list, i);
    }

    /** The first half of process_delete: unlinks p. */
    method Unlink(p: Process, ghost k: nat)
      requires Chain() && k < |list| && p == list[k]
      modifies this`head, this`list, this`procs, list`next
      ensures Chain() && list == Without(old(list), k) && procs == Remove(old(procs), k) && p.next == old(p.next)
    {
      assert LinkAt(list, k);
      if head == p {
        head := p.next;
      } else {
        var scan := Before(p, k);
        scan.next := p.next;
      }
      list, procs := Without(list, k), Remove(procs, k);
      forall i | 0 <= i < |list|
        ensures LinkAt(list, i) && list[i].Value() == procs[i]
      {
        var j := if i < k then i else i + 1;
        assert old(LinkAt(list, j)) && old(list[j].Value()) == old(procs[j]);
      }
    }

    /** The second half of process_delete: current moves to the process i that it points at, or to the head. */
    method MoveOn(ghost i: nat)
      requires Chain() && current != null && i <= |list|
      requires current.next == if i < |list| then list[i] else null
      modifies this`current, this`at
      ensures Valid() && (if list == [] then current == null else current != null && at == if i < |list| then i else 0)
    {
      if current.next != null {
        current := current.next;
      } else {
        current := head;
      }
      at := if i < |list| then i else 0;
    }

    /** process_delete: unlinks p, then moves current one on whether or not it was p. */
    method Delete(p: Process, ghost k: nat)
      requires Valid() && current != null && k < |list| && p == list[k]
      modifies this`head, this`current, this`list, this`procs, this`at, list`next
      ensures Valid() && list == Without(old(list), k)
      ensures var l := Scheduling.Delete(Loop(old(procs), old(at), k, false));
        procs == l.procs && (if procs == [] then current == null else current != null && at == l.global_)
    {
      assert LinkAt(list, k);
      Unlink(p, k);
      ghost var i := if at == k then k else if at > k then at else at + 1;
      assert at != k ==> LinkAt(list, i - 1);
      MoveOn(i);
    }

    /** Writes the fields of the k-th process. */
    method Write(p: Process, ghost k: nat, status: Status, quantum: int, wake: nat, context: nat)
      requires Valid() && k < |list| && p == list[k]
      modifies this`procs, p`status, p`quantum, p`wake, p`context
      ensures Valid()
      ensures procs ==
        old(procs)[k := old(procs)[k].(status := status, quantum := quantum, wake := wake, context := context)]
    {
      p.status, p.quantum, p.wake, p.context := status, quantum, wake, context;
      procs := procs[k := procs[k].(status := status, quantum := quantum, wake := wake, context := context)];
      forall i | 0 <= i < |list|
        ensures LinkAt(list, i) && list[i].Value() == procs[i]
      {
        assert old(LinkAt(list, i)) && old(list[i].Value()) == old(procs[i]);
      }
    }

    /** The local pointer moves to the next process, or back to the head. */
    method Next(cur: Process, ghost k: nat) returns (next: Process)
      requires Valid() && k < |list| && cur == list[k]
      ensures next == list[After(procs, k)]
    {
      assert LinkAt(list, k);
      if cur.next != null {
        next := cur.next;
      } else {
        next := head;
      }
    }

    ghost predicate InScope(scope: set<Process>)
      reads this
    {
      forall i :: 0 <= i < |list| ==> list[i] in scope
    }

    /** The loop stands where a turn on values has left it; cur is null only once the list is empty. */
    ghost predicate Follows(t: Turn, done: bool, cur: Process?, k: nat, switched: bool)
      reads this
    {
      && (cur != null ==> current != null && k < |list| && list[k] == cur)
      && match t
         case NoProcess => false
         case Picked(l) => done && cur != null && Loop(procs, at, k, switched) == l
         case Again(l) =>
           && !done && procs == l.procs && switched == l.switched
           && (if procs == [] then cur == null else cur != null && Loop(procs, at, k, switched) == l)
    }

    /** A running process: it stays, or goes back among the ready ones and the next is looked at. */
    method VisitRunning(cur: Process, ghost k: nat, switched: bool, context: nat, ghost now: nat)
      returns (done: bool, cur': Process, ghost k': nat, switched': bool)
      requires Valid() && current != null && k < |list| && cur == list[k] && cur.status.Running?
      modifies this`procs, cur
      ensures Valid()
      ensures Follows(Iterate(Loop(old(procs), at, k, switched), context, now), done, cur', k', switched')
    {
      done, cur', k', switched' := false, cur, k, switched;
      var q := Decrement(cur.quantum);
      if q > 0 {
        Write(cur, k, Running, q, cur.wake, context);
        done := true;
      } else {
        Write(cur, k, Ready, q, cur.wake, context);
        switched' := true;
        cur' := Next(cur, k);
        k' := After(procs, k);
      }
    }

    /** A sleeping process: it wakes up if it is due, otherwise the next is looked at. */
    method VisitSleeping(cur: Process, ghost k: nat, switched: bool, ghost context: nat, now: nat)
      returns (done: bool, cur': Process, ghost k': nat)
      requires Valid() && current != null && k < |list| && cur == list[k] && cur.status.Sleeping?
      modifies this`procs, cur
      ensures Valid()
      ensures Follows(Iterate(Loop(old(procs), at, k, switched), context, now), done, cur', k', switched)
    {
      done, cur', k' := false, cur, k;
      if now > cur.wake {
        Write(cur, k, Ready, cur.quantum, 0, cur.context);
        done := true;
      } else {
        cur' := Next(cur, k);
        k' := After(procs, k);
      }
    }

    /** One iteration of the loop in schedule(). */
    method Visit(cur: Process, ghost k: nat, switched: bool, context: nat, now: nat, ghost scope: set<Process>)
      returns (done: bool, cur': Process?, ghost k': nat, switched': bool)
      requires Valid() && current != null && k < |list| && cur == list[k] && InScope(scope)
      modifies this`head, this`current, this`list, this`procs, this`at, scope
      ensures Valid() && InScope(scope)
      ensures Follows(Iterate(Loop(old(procs), old(at), k, switched), context, now), done, cur', k', switched')
    {
      done, cur', k', switched' := false, cur, k, switched;
      match cur.status {
        case Spawned =>
          Write(cur, k, Ready, cur.quantum, cur.wake, cur.context);
          done, switched' := true, true;
        case Ready =>
          done, switched' := true, true;
        case Running =>
          done, cur', k', switched' := VisitRunning(cur, k, switched, context, now);
        case Sleeping =>
          done, cur', k' := VisitSleeping(cur, k, switched, context, now);
        case Dead =>
          Delete(cur, k);
          cur', k', switched' := current, at, true;
      }
    }

    /** The loop of schedule(): follows Settle to its end; cur is null when no process is left. */
    method Select(context: nat, now: nat, ghost scope: set<Process>)
      returns (cur: Process?, ghost k: nat, switched: bool)
      requires Valid() && current != null && Ends(procs, now) && InScope(scope)
      modifies this`head, this`current, this`list, this`procs, this`at, scope
      ensures Valid() && InScope(scope)
      ensures match Settle(Loop(old(procs), old(at), old(at), false), context, now)
        case Picked(l) => cur != null && k < |list| && list[k] == cur && Loop(procs, at, k, switched) == l
        case NoProcess => cur == null
        case Again(_) => false
    {
      cur, k, switched := current, at, false;
      var scheduling := true;
      ghost var goal := Settle(Loop(procs, at, at, false), context, now);
      while scheduling && cur != null
        invariant Valid() && InScope(scope) && (current == null ==> cur == null)
        invariant cur != null ==> k < |list| && list[k] == cur
        invariant scheduling && cur != null ==>
          Ends(procs, now) && Settle(Loop(procs, at, k, switched), context, now) == goal
        invariant scheduling && cur == null ==> goal == NoProcess
        invariant !scheduling ==> cur != null && goal == Picked(Loop(procs, at, k, switched))
        decreases scheduling, Weight(procs),
          if scheduling && cur != null then Distance(Loop(procs, at, k, switched), now) else 0
      {
        ghost var l := Loop(procs, at, k, switched);
        if Iterate(l, context, now).Again? {
          IterateDescends(l, context, now);
        }
        var done;
        done, cur, k, switched := Visit(cur, k, switched, context, now, scope);
        scheduling := !done;
      }
    }

    /** The end of schedule(), with scheduler_context_switch. */
    method Resume(cur: Process, ghost k: nat, switched: bool) returns (context: nat)
      requires Valid() && k < |list| && list[k] == cur
      modifies this`current, this`at, this`procs, this`loaded, this`rsp0, cur
      ensures Valid() && (Abs(), context) == Land(old(Abs()), Loop(old(procs), old(at), k, switched))
    {
      current := cur;
      at := k;
      var quantum := if switched then QUANTUM else cur.quantum;
      Write(cur, k, Running, quantum, cur.wake, cur.context);
      if switched {
        rsp0 := cur.kstack;
        loaded := cur.vmm;
      }
      return cur.context;
    }

    /** A first tick starts at the head. */
    method Begin()
      requires Valid() && head != null
      modifies this`current, this`at
      ensures Valid() && current != null && Loop(procs, at, at, false) == LoopStart(old(Abs()))
    {
      if current == null {
        current := head;
        at := 0;
      }
    }

    /** schedule(), proved against Tick: same list, same current process, same loaded tables, same returned context. */
    method Schedule(context: nat, now: nat) returns (r: Outcome<nat>)
      requires Valid() && Ends(procs, now)
      modifies this, list
      ensures Valid()
      ensures match Tick(old(Abs()), context, now)
        case None => r == Halted
        case Some(t) => r == Done(t.1) && Abs() == t.0
      ensures forall k :: 0 <= k < |list| ==> list[k] in old(list)
    {
      if head == null {
        return Halted;
      }
      Begin();
      var cur, k, switched := Select(context, now, set p | p in list);
      if cur == null {
        return Halted;
      }
      var returned := Resume(cur, k, switched);
      return Done(returned);
    }

    /** process_create, as far as the list is concerned. */
    method Create(context: nat, vmm: nat, kstack: nat)
      requires Valid()
      modifies this`head, this`list, this`procs, this`nextPid, list`next
      ensures Valid() && Abs() == SchedulerRuns.Create(old(Abs()), context, vmm, kstack)
      ensures forall k :: 0 <= k < |list| ==> list[k] in old(list) || fresh(list[k])
    {
      var p := new Process(nextPid, context, vmm, kstack);
      nextPid := nextPid + 1;
      Add(p);
    }

    /** process_exit, up to the yield. */
    method Exit()
      requires Valid() && current != null
      modifies this`procs, list
      ensures Valid() && Abs() == SchedulerRuns.Exit(old(Abs()))
    {
      Write(current, at, Dead, current.quantum, current.wake, current.context);
    }

    /** One event; without a current process nobody can exit. */
    method Handle(e: Event) returns (r: Outcome<()>)
      requires Valid() && RunOk(Abs())
      modifies this, list
      ensures Valid() && forall k :: 0 <= k < |list| ==> list[k] in old(list) || fresh(list[k])
      ensures match Apply(old(Abs()), e)
        case None => r == Halted
        case Some(m) => r == Done(()) && Abs() == m
    {
      match e
      case Ticked(context, now) =>
        RunEnds(Abs(), now);
        var returned := Schedule(context, now);
        r := if returned.Halted? then Halted else Done(());
      case Created(context, vmm, kstack) =>
        Create(context, vmm, kstack);
        r := Done(());
      case Exited =>
        if current != null {
          Exit();
        }
        r := Done(());
    }

    /** Any run of ticks, creations and exits on the linked list is the run on values, so it keeps what that keeps. */
    method Run(es: seq<Event>, ghost log: Log) returns (r: Outcome<()>)
      requires Valid() && RunOk(Abs()) && Agrees(Abs(), log)
      modifies this, list
      ensures Valid()
      ensures match RunAll(old(Abs()), log, es)
        case None => r == Halted
        case Some(end) => r == Done(()) && Abs() == end.0 && RunOk(Abs()) && Agrees(Abs(), end.1)
    {
      ghost var m0, kept := Abs(), log;
      for i := 0 to |es|
        invariant Valid() && RunOk(Abs()) && Agrees(Abs(), kept)
        invariant forall k :: 0 <= k < |list| ==> list[k] in old(list) || fresh(list[k])
        invariant RunAll(m0, log, es) == RunAll(Abs(), kept, es[i..])
      {
        ghost var m := Abs();
        assert es[i..][0] == es[i] && es[i..][1..] == es[i + 1..];
        r := Handle(es[i]);
        if r.Halted? { return; }
        ApplyKeepsRunOk(m, es[i]);
        EventsKept(m, kept, es[i]);
        kept := Noted(kept, m, es[i]);
      }
      r := Done(());
    }
  }
}
