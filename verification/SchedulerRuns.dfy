/** Ticks, creations and exits in any order: what the scheduler keeps, and how long a ready process can wait. */
module SchedulerRuns {
  import opened Outcomes
  import opened Scheduling

  /** The process list, the current process, and what the last context switch loaded. */
  datatype Machine = Machine(procs: seq<Proc>, current: Option<nat>, loaded: nat, rsp0: nat, nextPid: nat)

  ghost predicate ValidMachine(m: Machine) { m.current.Some? ==> m.current.value < |m.procs| }

  function LoopStart(m: Machine): Loop {
    var start := if m.current.Some? then m.current.value else 0;
    Loop(m.procs, start, start, false)
  }

  /** After the loop: the picked process is current and running, and loaded if a switch is due. */
  function Land(m: Machine, l: Loop): (Machine, nat)
    requires l.cur < |l.procs|
  {
    var p := l.procs[l.cur];
    var p' := p.(status := Running, quantum := if l.switched then QUANTUM else p.quantum);
    (Machine(l.procs[l.cur := p'], Some(l.cur), if l.switched then p.vmm else m.loaded,
             if l.switched then p.kstack else m.rsp0, m.nextPid), p.context)
  }

  /** schedule(): None is a panic; otherwise the new state and the context returned. */
  ghost function Tick(m: Machine, context: nat, now: nat): Option<(Machine, nat)>
    requires ValidMachine(m) && Ends(m.procs, now)
  {
    match Settle(LoopStart(m), context, now)
    case NoProcess => None
    case Picked(l) => if l.cur < |l.procs| then Some(Land(m, l)) else None
  }

  /** process_create and process_add. */
  function Create(m: Machine, context: nat, vmm: nat, kstack: nat): Machine {
    m.(procs := m.procs + [Proc(m.nextPid, Ready, 0, 0, context, vmm, kstack)], nextPid := m.nextPid + 1)
  }

  /** process_exit, up to the yield. */
  function Exit(m: Machine): Machine
    requires ValidMachine(m)
  {
    if m.current.None? then m
    else m.(procs := m.procs[m.current.value := m.procs[m.current.value].(status := Dead)])
  }

  /** Between ticks: distinct pids; the current process runs or has just died and is loaded; the rest are ready. */
  ghost predicate RunOk(m: Machine) {
    && ValidMachine(m)
    && (forall i :: 0 <= i < |m.procs| ==> m.procs[i].pid < m.nextPid)
    && (forall i, j :: 0 <= i < |m.procs| && 0 <= j < |m.procs| && m.procs[i].pid == m.procs[j].pid ==> i == j)
    && (forall i :: 0 <= i < |m.procs| && m.current != Some(i) ==> m.procs[i].status.Ready?)
    && (m.current.Some? ==>
          var p := m.procs[m.current.value];
          (p.status.Running? || p.status.Dead?) && 1 <= p.quantum <= QUANTUM && m.loaded == p.vmm && m.rsp0 == p.kstack)
  }

  function Dispatch(m: Machine, procs: seq<Proc>, i: nat): Machine
    requires i < |procs|
  {
    var p := procs[i];
    Machine(procs[i := p.(status := Running, quantum := QUANTUM)], Some(i), p.vmm, p.kstack, m.nextPid)
  }

  /** Plain round robin: count the quantum down, else hand over to the next in the list; the dead leave. */
  function RoundRobin(m: Machine, context: nat): Option<Machine>
    requires ValidMachine(m)
  {
    if m.procs == [] then None
    else if m.current.None? then Some(Dispatch(m, m.procs, 0))
    else
      var g := m.current.value;
      var p := m.procs[g];
      if p.status.Dead? then
        var procs := Remove(m.procs, g);
        if procs == [] then None else Some(Dispatch(m, procs, if g < |procs| then g else 0))
      else if p.quantum > 1 then
        Some(m.(procs := m.procs[g := p.(quantum := p.quantum - 1, context := context)]))
      else
        var procs := m.procs[g := p.(status := Ready, quantum := 0, context := context)];
        Some(Dispatch(m, procs, After(procs, g)))
  }

  lemma RunEnds(m: Machine, now: nat)
    requires RunOk(m)
    ensures Ends(m.procs, now)
  {
  }

  lemma {:induction false} SettleDead(m: Machine, context: nat, now: nat)
    requires RunOk(m) && m.current.Some? && m.procs[m.current.value].status.Dead? && Ends(m.procs, now)
    ensures Settle(LoopStart(m), context, now) ==
      var l := Delete(LoopStart(m)); if l.procs == [] then NoProcess else Picked(l.(switched := true))
  {
  }

  lemma {:induction false} SettleExpired(m: Machine, context: nat, now: nat)
    requires RunOk(m) && m.current.Some? && m.procs[m.current.value].status.Running? && Ends(m.procs, now)
    requires m.procs[m.current.value].quantum == 1
    ensures var g := m.current.value;
      var procs := m.procs[g := m.procs[g].(status := Ready, quantum := 0, context := context)];
      Settle(LoopStart(m), context, now) == Picked(Loop(procs, g, After(procs, g), true))
  {
  }

  /** schedule() is plain round robin on m, and returns the context of the process it leaves current. */
  ghost predicate TickRounds(m: Machine, context: nat, now: nat)
    requires ValidMachine(m) && Ends(m.procs, now)
  {
    var t := Tick(m, context, now);
    && (t.None? <==> RoundRobin(m, context).None?)
    && (t.Some? ==>
          && RoundRobin(m, context) == Some(t.value.0)
          && t.value.0.current.Some? && t.value.0.current.value < |t.value.0.procs|
          && t.value.1 == t.value.0.procs[t.value.0.current.value].context)
  }

  lemma TickDead(m: Machine, context: nat, now: nat)
    requires RunOk(m) && Ends(m.procs, now) && m.current.Some? && m.procs[m.current.value].status.Dead?
    ensures TickRounds(m, context, now)
  {
    SettleDead(m, context, now);
  }

  lemma TickExpired(m: Machine, context: nat, now: nat)
    requires RunOk(m) && Ends(m.procs, now) && m.current.Some? && m.procs[m.current.value].status.Running?
    requires m.procs[m.current.value].quantum == 1
    ensures TickRounds(m, context, now)
  {
    SettleExpired(m, context, now);
  }

  lemma TickContinues(m: Machine, context: nat, now: nat)
    requires RunOk(m) && Ends(m.procs, now) && m.current.Some? && m.procs[m.current.value].status.Running?
    requires m.procs[m.current.value].quantum > 1
    ensures TickRounds(m, context, now)
  {
    var g := m.current.value;
    var q := m.procs[g].(quantum := m.procs[g].quantum - 1, context := context);
    assert m.procs[g := q][g := q] == m.procs[g := q];
  }

  /** In every run state schedule() is round robin, and returns the context of the process it leaves current. */
  lemma TickIsRoundRobin(m: Machine, context: nat, now: nat)
    requires RunOk(m)
    ensures Ends(m.procs, now) && TickRounds(m, context, now)
  {
    RunEnds(m, now);
    if m.procs != [] && m.current.Some? {
      var p := m.procs[m.current.value];
      if p.status.Dead? {
        TickDead(m, context, now);
      } else if p.quantum == 1 {
        TickExpired(m, context, now);
      } else {
        TickContinues(m, context, now);
      }
    }
  }

  /** A tick, a creation or an exit. */
  datatype Event = Ticked(context: nat, now: nat) | Created(context: nat, vmm: nat, kstack: nat) | Exited

  /** What an event leads to; None once the kernel has panicked. */
  ghost function Apply(m: Machine, e: Event): Option<Machine>
    requires RunOk(m)
  {
    match e
    case Ticked(context, now) =>
      RunEnds(m, now);
      var t := Tick(m, context, now);
      if t.None? then None else Some(t.value.0)
    case Created(context, vmm, kstack) => Some(Create(m, context, vmm, kstack))
    case Exited => Some(Exit(m))
  }

  /** The run invariant, and after a tick one running process that is the current one. */
  lemma ApplyKeepsRunOk(m: Machine, e: Event)
    requires RunOk(m) && Apply(m, e).Some?
    ensures var m' := Apply(m, e).value;
      RunOk(m') && (e.Ticked? ==> m'.current.Some? && m'.procs[m'.current.value].status.Running?)
  {
    match e {
      case Ticked(context, now) =>
        TickIsRoundRobin(m, context, now);
        RoundRobinKeeps(m, context);
      case Created(_, _, _) =>
      case Exited =>
    }
  }

  /** Handing a list of ready processes to one of them. */
  lemma DispatchOk(m: Machine, procs: seq<Proc>, i: nat)
    requires i < |procs|
    requires forall k :: 0 <= k < |procs| ==> procs[k].status.Ready? && procs[k].pid < m.nextPid
    requires forall j, k :: 0 <= j < |procs| && 0 <= k < |procs| && procs[j].pid == procs[k].pid ==> j == k
    ensures RunOk(Dispatch(m, procs, i))
  {
  }

  lemma RoundRobinKeeps(m: Machine, context: nat)
    requires RunOk(m) && RoundRobin(m, context).Some?
    ensures var m' := RoundRobin(m, context).value;
      RunOk(m') && m'.current.Some? && m'.procs[m'.current.value].status.Running?
  {
    if m.current.None? {
      DispatchOk(m, m.procs, 0);
    } else {
      var g := m.current.value;
      var p := m.procs[g];
      if p.status.Dead? {
        var procs := Remove(m.procs, g);
        DispatchOk(m, procs, if g < |procs| then g else 0);
      } else if p.quantum == 1 {
        var procs := m.procs[g := p.(status := Ready, quantum := 0, context := context)];
        DispatchOk(m, procs, After(procs, g));
      }
    }
  }

  /** Ticks process i can still have to wait: full quanta of those before it, and what the current one has left. */
  function Rank(m: Machine, i: nat): int
    requires ValidMachine(m)
  {
    if m.current.None? then QUANTUM * i + 1
    else
      var g := m.current.value;
      QUANTUM * ((if i > g then i - g else i - g + |m.procs|) - 1) + m.procs[g].quantum
  }

  /** A tick brings a waiting process at least one closer or dispatches it. */
  lemma TickLowersRank(m: Machine, context: nat, i: nat) returns (i': nat)
    requires RunOk(m) && i < |m.procs| && m.current != Some(i)
    ensures RoundRobin(m, context).Some?
    ensures var m' := RoundRobin(m, context).value;
      && i' < |m'.procs| && m'.procs[i'].pid == m.procs[i].pid && ValidMachine(m')
      && (m'.current == Some(i') || Rank(m', i') <= Rank(m, i) - 1)
  {
    i' := i;
    if m.current.Some? && m.procs[m.current.value].status.Dead? {
      var g := m.current.value;
      i' := if i < g then i else i - 1;
    }
  }

  function Ticks(es: seq<Event>): nat {
    if es == [] then 0 else (if es[0].Ticked? then 1 else 0) + Ticks(es[1..])
  }

  function Creations(es: seq<Event>): nat {
    if es == [] then 0 else (if es[0].Created? then 1 else 0) + Creations(es[1..])
  }

  predicate IsCurrent(m: Machine, pid: nat) {
    m.current.Some? && m.current.value < |m.procs| && m.procs[m.current.value].pid == pid
  }

  /** Whether some event of the run makes the process current. */
  ghost predicate GetsToRun(m: Machine, es: seq<Event>, pid: nat)
    requires RunOk(m)
    decreases |es|
  {
    es != [] && Apply(m, es[0]).Some? &&
    (ApplyKeepsRunOk(m, es[0]); IsCurrent(Apply(m, es[0]).value, pid) || GetsToRun(Apply(m, es[0]).value, es[1..], pid))
  }

  /** Bounded waiting: enough ticks for its rank, three more per creation, and a ready process has run. */
  lemma {:induction false} BoundedWaiting(m: Machine, es: seq<Event>, i: nat)
    requires RunOk(m) && i < |m.procs| && m.current != Some(i)
    requires Ticks(es) >= Rank(m, i) + 3 * Creations(es)
    ensures GetsToRun(m, es, m.procs[i].pid)
    decreases |es|
  {
    var e := es[0];
    var i' := i;
    match e {
      case Ticked(context, now) =>
        TickIsRoundRobin(m, context, now);
        i' := TickLowersRank(m, context, i);
      case Created(_, _, _) =>
      case Exited =>
    }
    ApplyKeepsRunOk(m, e);
    var m' := Apply(m, e).value;
    if m'.current != Some(i') {
      BoundedWaiting(m', es[1..], i');
    }
  }

  /**
   What the run has asked for, by a definition of its own: the context last saved for each process, the page table and
   stack each was created with, and who has exited.
   */
  datatype Log = Log(contexts: map<nat, nat>, tables: map<nat, (nat, nat)>, exited: set<nat>)

  function Noted(log: Log, m: Machine, e: Event): Log
    requires ValidMachine(m)
  {
    match e
    case Ticked(context, _) =>
      if m.current.Some? && m.procs[m.current.value].status.Running? then
        log.(contexts := log.contexts[m.procs[m.current.value].pid := context])
      else log
    case Created(context, vmm, kstack) =>
      log.(contexts := log.contexts[m.nextPid := context], tables := log.tables[m.nextPid := (vmm, kstack)])
    case Exited =>
      if m.current.Some? then log.(exited := log.exited + {m.procs[m.current.value].pid}) else log
  }

  ghost predicate Listed(m: Machine, pid: nat) { exists i :: 0 <= i < |m.procs| && m.procs[i].pid == pid }

  /** The process is as the log says, and has exited exactly if it is the current one and dead. */
  ghost predicate Logged(m: Machine, log: Log, i: nat)
    requires i < |m.procs|
  {
    var p := m.procs[i];
    && p.pid in log.contexts && log.contexts[p.pid] == p.context
    && p.pid in log.tables && log.tables[p.pid] == (p.vmm, p.kstack)
    && (p.pid in log.exited <==> m.current == Some(i) && p.status.Dead?)
  }

  /** So it is for every process in the list, and whoever was created and has not exited is in the list. */
  ghost predicate Agrees(m: Machine, log: Log) {
    && (forall i :: 0 <= i < |m.procs| ==> Logged(m, log, i))
    && (forall pid :: pid in log.tables ==> pid < m.nextPid && (pid in log.exited || Listed(m, pid)))
    && (forall pid :: pid in log.exited ==> pid < m.nextPid)
  }

  /** Returned context and loaded page table and stack are those of the current process; nobody listed has exited. */
  ghost predicate Served(m: Machine, context: nat, log: Log) {
    && m.current.Some? && m.current.value < |m.procs|
    && (forall i :: 0 <= i < |m.procs| ==> m.procs[i].pid !in log.exited)
    && var pid := m.procs[m.current.value].pid;
       && pid in log.contexts && context == log.contexts[pid]
       && pid in log.tables && (m.loaded, m.rsp0) == log.tables[pid]
  }

  lemma RunningIsServed(m: Machine, log: Log)
    requires RunOk(m) && Agrees(m, log) && m.current.Some? && m.procs[m.current.value].status.Running?
    ensures Served(m, m.procs[m.current.value].context, log)
  {
    forall i | 0 <= i < |m.procs|
      ensures m.procs[i].pid !in log.exited
    {
      assert Logged(m, log, i);
    }
    assert Logged(m, log, m.current.value);
  }

  /**
   Every event keeps the agreement. So a tick returns the context last saved for the process it leaves current, has
   loaded the page table and stack that this process was created with, and leaves nobody in the list who has exited.
   */
  lemma EventsKept(m: Machine, log: Log, e: Event)
    requires RunOk(m) && Agrees(m, log) && Apply(m, e).Some?
    ensures Agrees(Apply(m, e).value, Noted(log, m, e))
    ensures e.Ticked? ==> Ends(m.procs, e.now)
    ensures e.Ticked? ==> var (m', context) := Tick(m, e.context, e.now).value; Served(m', context, Noted(log, m, e))
  {
    match e {
      case Ticked(context, now) =>
        TickIsRoundRobin(m, context, now);
        RoundRobinKeeps(m, context);
        TickKeeps(m, log, context);
        RunningIsServed(RoundRobin(m, context).value, Noted(log, m, e));
      case Created(context, vmm, kstack) => CreateKeeps(m, log, context, vmm, kstack);
      case Exited => ExitKeeps(m, log);
    }
  }

  /** Where process i of the list stands after a tick, unless it is the dead one. */
  function Position(m: Machine, i: nat): int
    requires ValidMachine(m)
  {
    if m.current.Some? && m.procs[m.current.value].status.Dead? && i > m.current.value then i - 1 else i
  }

  /** Process i of m is process j of m', with its own tables, and its context saved if it was the current one. */
  ghost predicate MovedTo(m: Machine, m': Machine, context: nat, i: nat, j: int)
    requires i < |m.procs|
  {
    && 0 <= j < |m'.procs|
    && var p, p' := m.procs[i], m'.procs[j];
       && p'.pid == p.pid && p'.vmm == p.vmm && p'.kstack == p.kstack && !p'.status.Dead?
       && p'.context == if m.current == Some(i) then context else p.context
  }

  lemma DispatchMoves(m: Machine, procs: seq<Proc>, k: nat, context: nat, i: nat, j: nat)
    requires i < |m.procs| && k < |procs| && MovedTo(m, m.(procs := procs), context, i, j)
    ensures MovedTo(m, Dispatch(m, procs, k), context, i, j)
  {
  }

  lemma TickMoves(m: Machine, context: nat, i: nat)
    requires RunOk(m) && RoundRobin(m, context).Some? && i < |m.procs|
    requires m.current == Some(i) ==> !m.procs[i].status.Dead?
    ensures MovedTo(m, RoundRobin(m, context).value, context, i, Position(m, i))
  {
    if m.current.None? {
      DispatchMoves(m, m.procs, 0, context, i, i);
    } else {
      var g := m.current.value;
      var p := m.procs[g];
      if p.status.Dead? {
        var procs := Remove(m.procs, g);
        DispatchMoves(m, procs, if g < |procs| then g else 0, context, i, Position(m, i));
      } else if p.quantum == 1 {
        var procs := m.procs[g := p.(status := Ready, quantum := 0, context := context)];
        DispatchMoves(m, procs, After(procs, g), context, i, i);
      }
    }
  }

  lemma TickKeeps(m: Machine, log: Log, context: nat)
    requires RunOk(m) && Agrees(m, log) && RoundRobin(m, context).Some?
    ensures Agrees(RoundRobin(m, context).value, Noted(log, m, Ticked(context, 0)))
  {
    var m', log' := RoundRobin(m, context).value, Noted(log, m, Ticked(context, 0));
    forall k | 0 <= k < |m'.procs|
      ensures Logged(m', log', k)
    {
      var i := Origin(m, context, k);
      TickMoves(m, context, i);
      assert Logged(m, log, i);
    }
    forall pid | pid in log'.tables
      ensures pid < m'.nextPid && (pid in log'.exited || Listed(m', pid))
    {
      if pid !in log'.exited {
        var i :| 0 <= i < |m.procs| && m.procs[i].pid == pid;
        assert Logged(m, log, i);
        TickMoves(m, context, i);
      }
    }
  }

  lemma Origin(m: Machine, context: nat, k: nat) returns (i: nat)
    requires RunOk(m) && RoundRobin(m, context).Some? && k < |RoundRobin(m, context).value.procs|
    ensures i < |m.procs| && (m.current == Some(i) ==> !m.procs[i].status.Dead?) && Position(m, i) == k
  {
    i := if m.current.Some? && m.procs[m.current.value].status.Dead? && k >= m.current.value then k + 1 else k;
  }

  lemma CreateKeeps(m: Machine, log: Log, context: nat, vmm: nat, kstack: nat)
    requires RunOk(m) && Agrees(m, log)
    ensures Agrees(Create(m, context, vmm, kstack), Noted(log, m, Created(context, vmm, kstack)))
  {
    var m', log' := Create(m, context, vmm, kstack), Noted(log, m, Created(context, vmm, kstack));
    forall i | 0 <= i < |m'.procs|
      ensures Logged(m', log', i)
    {
      assert i < |m.procs| ==> Logged(m, log, i);
    }
    forall pid | pid in log'.tables
      ensures pid < m'.nextPid && (pid in log'.exited || Listed(m', pid))
    {
      if pid == m.nextPid {
        assert m'.procs[|m.procs|].pid == pid;
      } else if pid !in log'.exited {
        var i :| 0 <= i < |m.procs| && m.procs[i].pid == pid;
        assert m'.procs[i].pid == pid;
      }
    }
  }

  lemma ExitKeeps(m: Machine, log: Log)
    requires RunOk(m) && Agrees(m, log)
    ensures Agrees(Exit(m), Noted(log, m, Exited))
  {
    var m', log' := Exit(m), Noted(log, m, Exited);
    forall i | 0 <= i < |m'.procs|
      ensures Logged(m', log', i)
    {
      assert Logged(m, log, i);
    }
    forall pid | pid in log'.tables
      ensures pid < m'.nextPid && (pid in log'.exited || Listed(m', pid))
    {
      if pid !in log'.exited {
        var i :| 0 <= i < |m.procs| && m.procs[i].pid == pid;
        assert m'.procs[i].pid == pid;
      }
    }
  }

  /**
   process_exit and the next tick: the exited process is no longer in the list and every other one is. The exit of the
   only process makes that tick panic.
   */
  lemma ExitThenTick(m: Machine, context: nat, now: nat)
    requires RunOk(m) && m.current.Some?
    ensures RunOk(Exit(m))
    ensures var t, pid := Apply(Exit(m), Ticked(context, now)), m.procs[m.current.value].pid;
      && (t.None? <==> |m.procs| == 1)
      && (t.Some? ==> forall q :: Listed(t.value, q) <==> Listed(m, q) && q != pid)
  {
    var m1, g := Exit(m), m.current.value;
    ApplyKeepsRunOk(m, Exited);
    TickIsRoundRobin(m1, context, now);
    if |m.procs| > 1 {
      var m2 := RoundRobin(m1, context).value;
      forall q
        ensures Listed(m2, q) <==> Listed(m, q) && q != m.procs[g].pid
      {
        RemovedListed(m, m2, g, q);
      }
    }
  }

  lemma RemovedListed(m: Machine, m': Machine, g: nat, q: nat)
    requires RunOk(m) && g < |m.procs| && |m'.procs| == |m.procs| - 1
    requires forall i :: 0 <= i < |m'.procs| ==> m'.procs[i].pid == m.procs[if i < g then i else i + 1].pid
    ensures Listed(m', q) <==> Listed(m, q) && q != m.procs[g].pid
  {
    if i :| 0 <= i < |m'.procs| && m'.procs[i].pid == q {
      assert m.procs[if i < g then i else i + 1].pid == q;
    }
    if i :| 0 <= i < |m.procs| && m.procs[i].pid == q && i != g {
      assert m'.procs[if i < g then i else i - 1].pid == q;
    }
  }

  /** A whole run: where it leads, or None if the kernel panicked on the way, with the log of it. */
  ghost function RunAll(m: Machine, log: Log, es: seq<Event>): Option<(Machine, Log)>
    requires RunOk(m)
    decreases |es|
  {
    if es == [] then Some((m, log))
    else if Apply(m, es[0]).None? then None
    else
      ApplyKeepsRunOk(m, es[0]);
      RunAll(Apply(m, es[0]).value, Noted(log, m, es[0]), es[1..])
  }

  lemma NextPid(m: Machine, e: Event)
    requires RunOk(m) && Apply(m, e).Some?
    ensures Apply(m, e).value.nextPid == m.nextPid + if e.Created? then 1 else 0
  {
    if e.Ticked? {
      TickIsRoundRobin(m, e.context, e.now);
    }
  }

  /** From boot on, the run invariant and the agreement with the log hold in every reachable state. */
  lemma {:induction false} RunsAreSafe(m: Machine, log: Log, es: seq<Event>)
    requires RunOk(m) && Agrees(m, log) && RunAll(m, log, es).Some?
    ensures var (m', log') := RunAll(m, log, es).value;
      RunOk(m') && Agrees(m', log') && log.exited <= log'.exited && m'.nextPid == m.nextPid + Creations(es)
    decreases |es|
  {
    if es != [] {
      ApplyKeepsRunOk(m, es[0]);
      EventsKept(m, log, es[0]);
      NextPid(m, es[0]);
      RunsAreSafe(Apply(m, es[0]).value, Noted(log, m, es[0]), es[1..]);
    }
  }

  /** Who has exited is never again seen running, whatever happens afterwards. */
  lemma {:induction false} ExitedNeverRuns(m: Machine, log: Log, es: seq<Event>, pid: nat)
    requires RunOk(m) && Agrees(m, log) && pid in log.exited && RunAll(m, log, es).Some?
    ensures var m' := RunAll(m, log, es).value.0;
      IsCurrent(m', pid) ==> m'.procs[m'.current.value].status.Dead?
  {
    RunsAreSafe(m, log, es);
    var (m', log') := RunAll(m, log, es).value;
    if IsCurrent(m', pid) {
      assert Logged(m', log', m'.current.value);
    }
  }

  /**
   For any mix of statuses: a tick leaves the current process on its own page table, and on its own stack, exactly
   when the first process met awake switches or is the one that was loaded.
   */
  lemma TickLoadsIff(m: Machine, context: nat, now: nat)
    requires ValidMachine(m) && HasCandidate(m.procs, now)
    ensures FirstAwake(LoopStart(m), now) < |m.procs|
    ensures var t, first := Tick(m, context, now), m.procs[FirstAwake(LoopStart(m), now)];
      && t.Some? && t.value.0.current.Some? && t.value.0.current.value < |t.value.0.procs|
      && var m' := t.value.0;
         var p := m'.procs[m'.current.value];
         && (m'.loaded == p.vmm <==> Switching(first) || m.loaded == first.vmm)
         && (m'.rsp0 == p.kstack <==> Switching(first) || m.rsp0 == first.kstack)
         && (!Switching(first) ==>
               var f := FirstAwake(LoopStart(m), now);
               m' == m.(current := Some(f), procs := m.procs[f := Continued(first, context).(status := Running)]))
  {
    var l := LoopStart(m);
    SwitchedIff(l, context, now);
    PicksSomebody(l, context, now);
    if !Switching(m.procs[FirstAwake(l, now)]) {
      UnswitchedPick(l, context, now);
    }
  }

  /** A tick panics exactly when there is nobody, or nobody but the dead. */
  lemma PanicsIff(m: Machine, context: nat, now: nat)
    requires ValidMachine(m) && Ends(m.procs, now)
    ensures Tick(m, context, now).None? <==> forall i :: 0 <= i < |m.procs| ==> m.procs[i].status.Dead?
  {
    if HasCandidate(m.procs, now) {
      PicksSomebody(LoopStart(m), context, now);
    } else {
      AllDead(LoopStart(m), context, now);
    }
  }

  lemma {:induction false} AllDead(l: Loop, context: nat, now: nat)
    requires ValidLoop(l) && NoneAsleep(l.procs, now) && !HasCandidate(l.procs, now)
    ensures Ends(l.procs, now) && Settle(l, context, now).NoProcess?
    decreases |l.procs|
  {
    if l.procs != [] {
      assert !Candidate(l.procs[l.cur], now);
      var l' := Iterate(l, context, now).next;
      forall i | 0 <= i < |l'.procs|
        ensures !Candidate(l'.procs[i], now) && !Asleep(l'.procs[i], now)
      {
        assert l'.procs[i] == l.procs[if i < l.cur then i else i + 1];
      }
      AllDead(l', context, now);
    }
  }

  /** The current process with its quantum at q, after a tick that does not end its turn. */
  ghost predicate Holds(m: Machine, pid: nat, q: nat) {
    RunOk(m) && IsCurrent(m, pid) && m.procs[m.current.value].status.Running? && m.procs[m.current.value].quantum == q
  }

  /** A turn is three ticks: whom a tick dispatches goes on at the next two. */
  lemma FullTurn(m: Machine, e1: Event, e2: Event, e3: Event)
    requires RunOk(m) && e1.Ticked? && e2.Ticked? && e3.Ticked? && Apply(m, e1).Some?
    requires m.current.Some? ==> var p := m.procs[m.current.value]; p.status.Dead? || p.quantum == 1
    ensures var m1 := Apply(m, e1).value;
      RunOk(m1) && m1.current.Some? && var pid := m1.procs[m1.current.value].pid;
      && Holds(m1, pid, 3)
      && Apply(m1, e2).Some? && Holds(Apply(m1, e2).value, pid, 2)
      && Apply(Apply(m1, e2).value, e3).Some? && Holds(Apply(Apply(m1, e2).value, e3).value, pid, 1)
  {
    ApplyKeepsRunOk(m, e1);
    TickIsRoundRobin(m, e1.context, e1.now);
    var m1 := Apply(m, e1).value;
    TickGoesOn(m1, e2);
    TickGoesOn(Apply(m1, e2).value, e3);
  }

  lemma TickGoesOn(m: Machine, e: Event)
    requires RunOk(m) && e.Ticked? && m.current.Some?
    requires var p := m.procs[m.current.value]; p.status.Running? && p.quantum > 1
    ensures Apply(m, e).Some?
    ensures var p := m.procs[m.current.value]; Holds(Apply(m, e).value, p.pid, p.quantum - 1)
  {
    TickIsRoundRobin(m, e.context, e.now);
    ApplyKeepsRunOk(m, e);
  }

  /** Then it hands over to the next in the list. */
  lemma TurnEnds(m: Machine, e: Event)
    requires RunOk(m) && e.Ticked? && m.current.Some?
    requires var p := m.procs[m.current.value]; p.status.Running? && p.quantum == 1
    ensures Apply(m, e).Some?
    ensures var g := m.current.value;
      IsCurrent(Apply(m, e).value, m.procs[if g + 1 < |m.procs| then g + 1 else 0].pid)
  {
    TickIsRoundRobin(m, e.context, e.now);
  }

  /** A due sleeper behind one that sleeps on: a tick leaves it running on the page table of the other. */
  lemma WakesOnForeignTables() returns (m: Machine)
    ensures ValidMachine(m) && Ends(m.procs, 5) && m.current == Some(0) && m.loaded == m.procs[0].vmm
    ensures var t := Tick(m, 0, 5);
      t.Some? && t.value.0.current == Some(1) && 1 < |t.value.0.procs| && t.value.0.loaded != t.value.0.procs[1].vmm
  {
    m := Machine([Proc(1, Sleeping, 0, 9, 100, 1, 10), Proc(2, Sleeping, 0, 0, 200, 2, 20)], Some(0), 1, 10, 3);
    assert Candidate(m.procs[1], 5);
    assert Stop(m.procs, 0, 5) == 1;
    TickLoadsIff(m, 0, 5);
  }
}
