/**
 The four-level tree as it lies in physical memory, against the flat table it stands for.
 `Slot` is that flat table: one raw entry per virtual page, 0 where a table is missing.
 */
module PageTable {
  import opened Bits
  import opened Pte

  type Page = seq<nat>
  type Memory = seq<Page>

  /** Where a table hangs: its level, the indices that lead to it, and (below level 3) its only parent. */
  datatype Place = Place(level: nat, i4: nat, i3: nat, i2: nat, parent: nat)
  type Shape = map<nat, Place>

  const ROOT := Place(4, 0, 0, 0, 0)

  /** The place below entry i of table t; root tables may be copied, so a level-3 table has no single parent. */
  function Below(p: Place, t: nat, i: nat): Place {
    if p.level == 4 then Place(3, i, 0, 0, 0)
    else if p.level == 3 then Place(2, p.i4, i, 0, t)
    else Place(1, p.i4, p.i3, i, t)
  }

  /** Frame 0 is never a table, so 0 plays NULL. */
  function Entry(mem: Memory, t: nat, i: nat): nat {
    if 0 < t < |mem| && i < |mem[t]| then mem[t][i] else 0
  }

  function Child(mem: Memory, t: nat, i: nat): nat {
    var w := Entry(mem, t, i);
    if Present(w) then FrameOf(w) else 0
  }

  function Table3(mem: Memory, root: nat, v: Vpn): nat { Child(mem, root, v.i4) }
  function Table2(mem: Memory, root: nat, v: Vpn): nat { Child(mem, Table3(mem, root, v), v.i3) }
  function Table1(mem: Memory, root: nat, v: Vpn): nat { Child(mem, Table2(mem, root, v), v.i2) }

  /** The flat table. */
  function Slot(mem: Memory, root: nat, v: Vpn): nat { Entry(mem, Table1(mem, root, v), v.i1) }

  ghost predicate IsTable(mem: Memory, shape: Shape, t: nat)
    requires t in shape
  {
    0 < t < |mem| && |mem[t]| == ENTRIES && 1 <= shape[t].level <= 4
  }

  /** Entry i of table t is a link as walk_pte writes it, and leads to the place below. */
  ghost predicate LinkOk(mem: Memory, shape: Shape, t: nat, i: nat)
    requires t in shape
  {
    var c := Child(mem, t, i);
    Present(Entry(mem, t, i)) ==> c in shape && shape[c] == Below(shape[t], t, i) && Entry(mem, t, i) == LinkWord(c)
  }

  /** The separation invariant. */
  ghost predicate Inv(mem: Memory, shape: Shape) {
    && (forall t :: t in shape ==> IsTable(mem, shape, t))
    && (forall t, i :: t in shape && shape[t].level >= 2 && 0 <= i < ENTRIES ==> LinkOk(mem, shape, t, i))
  }

  ghost predicate IsRoot(shape: Shape, r: nat) {
    r in shape && shape[r].level == 4
  }

  /** A walk meets only tables of the shape, each at the place its page leads to. */
  lemma WalkPlaces(mem: Memory, shape: Shape, r: nat, v: Vpn)
    requires Inv(mem, shape) && IsRoot(shape, r) && IsVpn(v)
    ensures var t := Table3(mem, r, v);
      t != 0 ==> t in shape && shape[t] == Place(3, v.i4, 0, 0, 0)
    ensures var t := Table2(mem, r, v);
      t != 0 ==> Table3(mem, r, v) != 0 && t in shape && shape[t] == Place(2, v.i4, v.i3, 0, Table3(mem, r, v))
    ensures var t := Table1(mem, r, v);
      t != 0 ==> Table2(mem, r, v) != 0 && t in shape && shape[t] == Place(1, v.i4, v.i3, v.i2, Table2(mem, r, v))
  {
    assert LinkOk(mem, shape, r, v.i4);
    var t3 := Table3(mem, r, v);
    if t3 != 0 {
      assert LinkOk(mem, shape, t3, v.i3);
      var t2 := Table2(mem, r, v);
      if t2 != 0 {
        assert LinkOk(mem, shape, t2, v.i2);
      }
    }
  }

  /** What the processor allows on a page: each right combined over the four entries of its walk. */
  ghost predicate CanWrite(mem: Memory, root: nat, v: Vpn) {
    && Present(Slot(mem, root, v)) && Writable(Slot(mem, root, v)) && Writable(Entry(mem, root, v.i4))
    && Writable(Entry(mem, Table3(mem, root, v), v.i3)) && Writable(Entry(mem, Table2(mem, root, v), v.i2))
  }

  ghost predicate CanExecute(mem: Memory, root: nat, v: Vpn) {
    && Present(Slot(mem, root, v)) && !NoExecute(Slot(mem, root, v)) && !NoExecute(Entry(mem, root, v.i4))
    && !NoExecute(Entry(mem, Table3(mem, root, v), v.i3)) && !NoExecute(Entry(mem, Table2(mem, root, v), v.i2))
  }

  ghost predicate CanUserAccess(mem: Memory, root: nat, v: Vpn) {
    && Present(Slot(mem, root, v)) && ForUser(Slot(mem, root, v)) && ForUser(Entry(mem, root, v.i4))
    && ForUser(Entry(mem, Table3(mem, root, v), v.i3)) && ForUser(Entry(mem, Table2(mem, root, v), v.i2))
  }

  /** A bound page may be written and executed as its leaf entry says; user code can access none, whatever it says. */
  lemma RightsAreLeaf(mem: Memory, shape: Shape, root: nat, v: Vpn)
    requires Inv(mem, shape) && |mem| <= FRAMES && IsRoot(shape, root) && IsVpn(v)
    ensures CanWrite(mem, root, v) <==> Present(Slot(mem, root, v)) && Writable(Slot(mem, root, v))
    ensures CanExecute(mem, root, v) <==> Present(Slot(mem, root, v)) && !NoExecute(Slot(mem, root, v))
    ensures !CanUserAccess(mem, root, v)
  {
    if Present(Slot(mem, root, v)) {
      WalkPlaces(mem, shape, root, v);
      LinkRights(mem, shape, root, v.i4);
      LinkRights(mem, shape, Table3(mem, root, v), v.i3);
      LinkRights(mem, shape, Table2(mem, root, v), v.i2);
    }
  }

  lemma LinkRights(mem: Memory, shape: Shape, t: nat, i: nat)
    requires Inv(mem, shape) && |mem| <= FRAMES && t in shape && shape[t].level >= 2 && i < ENTRIES
    requires Present(Entry(mem, t, i))
    ensures var w := Entry(mem, t, i); Writable(w) && !NoExecute(w) && !ForUser(w)
  {
    assert LinkOk(mem, shape, t, i);
    LinkWordDecodes(Child(mem, t, i));
  }

  /** Two walks that end in the same leaf cell are for the same page, and share the root entry. */
  lemma LeafCellUnique(mem: Memory, shape: Shape, r: nat, v: Vpn, r': nat, v': Vpn)
    requires Inv(mem, shape) && IsRoot(shape, r) && IsRoot(shape, r') && IsVpn(v) && IsVpn(v')
    requires Table1(mem, r, v) == Table1(mem, r', v') != 0 && v.i1 == v'.i1
    ensures v == v' && Table3(mem, r, v) == Table3(mem, r', v')
  {
    WalkPlaces(mem, shape, r, v);
    WalkPlaces(mem, shape, r', v');
  }

  ghost predicate SameSlots(shape: Shape, mem: Memory, mem': Memory) {
    forall r, v :: IsRoot(shape, r) && IsVpn(v) ==> Slot(mem', r, v) == Slot(mem, r, v)
  }

  function Put(page: Page, i: nat, w: nat): Page
    requires i < |page|
  {
    page[i := w]
  }

  function SetEntry(mem: Memory, t: nat, i: nat, w: nat): Memory
    requires t < |mem| && i < |mem[t]|
  {
    mem[t := Put(mem[t], i, w)]
  }

  /** Hanging a fresh zeroed table into an absent entry: the tree stays separated and no page translates differently. */
  lemma LinkTable(mem: Memory, shape: Shape, t: nat, i: nat, c: nat, w: nat)
    requires Inv(mem, shape) && t in shape && shape[t].level >= 2 && i < ENTRIES && !Present(mem[t][i])
    requires c !in shape && 0 < c < |mem| && mem[c] == seq(ENTRIES, _ => 0)
    requires Present(w) && FrameOf(w) == c && w == LinkWord(c)
    ensures Inv(SetEntry(mem, t, i, w), shape[c := Below(shape[t], t, i)])
    ensures SameSlots(shape, mem, SetEntry(mem, t, i, w))
  {
    var mem' := SetEntry(mem, t, i, w);
    var shape' := shape[c := Below(shape[t], t, i)];
    forall t', i' | t' in shape' && shape'[t'].level >= 2 && 0 <= i' < ENTRIES
      ensures LinkOk(mem', shape', t', i')
    {
      if t' == c {
        assert mem'[c][i'] == 0;
      } else {
        assert LinkOk(mem, shape, t', i');
      }
    }
    forall r, v | IsRoot(shape, r) && IsVpn(v)
      ensures Slot(mem', r, v) == Slot(mem, r, v)
    {
      WalkPlaces(mem, shape, r, v);
    }
  }

  /** Writing entry i of leaf table t changes the flat table of exactly the walks that end there. */
  lemma WriteLeaf(mem: Memory, shape: Shape, t: nat, i: nat, w: nat)
    requires Inv(mem, shape) && t in shape && shape[t].level == 1 && i < ENTRIES
    ensures Inv(SetEntry(mem, t, i, w), shape)
    ensures forall r, v :: IsRoot(shape, r) && IsVpn(v) ==>
      Slot(SetEntry(mem, t, i, w), r, v) == if Table1(mem, r, v) == t && v.i1 == i then w else Slot(mem, r, v)
  {
    var mem' := SetEntry(mem, t, i, w);
    forall t', i' | t' in shape && shape[t'].level >= 2 && 0 <= i' < ENTRIES
      ensures LinkOk(mem', shape, t', i')
    {
      assert LinkOk(mem, shape, t', i');
    }
    forall r, v | IsRoot(shape, r) && IsVpn(v)
      ensures Slot(mem', r, v) == if Table1(mem, r, v) == t && v.i1 == i then w else Slot(mem, r, v)
    {
      WalkPlaces(mem, shape, r, v);
    }
  }

  /** Whether page v is reached through one and the same root entry from both roots. */
  ghost predicate Shared(mem: Memory, r: nat, r': nat, v: Vpn) {
    Table3(mem, r, v) == Table3(mem, r', v) != 0
  }

  /** What writing page v of root r to w does to every page of every root. */
  ghost predicate SlotWritten(shape: Shape, mem: Memory, mem': Memory, root: nat, page: Vpn, w: nat) {
    forall r, v :: IsRoot(shape, r) && IsVpn(v) ==>
      Slot(mem', r, v) ==
        if v == page && (r == root || Shared(mem', root, r, page)) then w else Slot(mem, r, v)
  }

  lemma WritePage(mem: Memory, shape: Shape, root: nat, page: Vpn, w: nat)
    requires Inv(mem, shape) && IsRoot(shape, root) && IsVpn(page) && Table1(mem, root, page) != 0
    ensures var t := Table1(mem, root, page);
      && t in shape && t < |mem| && |mem[t]| == ENTRIES
      && Inv(SetEntry(mem, t, page.i1, w), shape)
      && SlotWritten(shape, mem, SetEntry(mem, t, page.i1, w), root, page, w)
  {
    WalkPlaces(mem, shape, root, page);
    var t := Table1(mem, root, page);
    WriteLeaf(mem, shape, t, page.i1, w);
    var mem' := SetEntry(mem, t, page.i1, w);
    forall r, v | IsRoot(shape, r) && IsVpn(v)
      ensures Slot(mem', r, v) == if v == page && (r == root || Shared(mem', root, r, page)) then w else Slot(mem, r, v)
    {
      WalkPlaces(mem, shape, r, v);
      assert Table3(mem', r, v) == Table3(mem, r, v) && Table3(mem', root, page) == Table3(mem, root, page);
      if Table1(mem, r, v) == t && v.i1 == page.i1 {
        LeafCellUnique(mem, shape, r, v, root, page);
      }
    }
  }

  /** Present entries of the upper tables survive. */
  ghost predicate Kept(shape: Shape, mem: Memory, mem': Memory) {
    forall t, i :: t in shape && shape[t].level >= 2 && 0 <= i < ENTRIES && Present(Entry(mem, t, i)) ==>
      Entry(mem', t, i) == Entry(mem, t, i)
  }

  /** The tables of one state: which frames are taken, what they hold, and which of them are tables. */
  datatype State = State(used: seq<bool>, mem: Memory, shape: Shape)

  ghost predicate Sound(s: State) {
    && |s.used| == |s.mem| <= FRAMES && Inv(s.mem, s.shape)
    && forall t :: t in s.shape ==> s.used[t]
  }

  /** All that lazy allocation may do: take free frames, as lower tables, and leave every other frame alone. */
  ghost predicate Grows(s: State, s': State) {
    && |s'.used| == |s.used| && |s'.mem| == |s.mem|
    && (forall t :: t in s.shape ==> t in s'.shape && s'.shape[t] == s.shape[t])
    && (forall t :: t in s'.shape && t !in s.shape ==> t < |s.used| && !s.used[t] && s'.shape[t].level < 4)
    && (forall p :: 0 <= p < |s.used| ==> (s'.used[p] <==> s.used[p] || p in s'.shape))
    && (forall p :: 0 <= p < |s.mem| && p !in s'.shape ==> s'.mem[p] == s.mem[p])
    && Kept(s.shape, s.mem, s'.mem) && LinksFresh(s, s')
  }

  /** What that means for the tables there were: each keeps its place and its present upper entries; no root is new. */
  ghost predicate TablesKept(s: State, s': State) {
    && (forall t :: t in s.shape ==> t in s'.shape && s'.shape[t] == s.shape[t])
    && (forall t :: t in s'.shape && t !in s.shape ==> s'.shape[t].level < 4)
    && Kept(s.shape, s.mem, s'.mem)
  }

  /** An entry that becomes present leads to a table that was none before. */
  ghost predicate LinksFresh(s: State, s': State) {
    forall t, i :: t in s.shape && s.shape[t].level >= 2 && 0 <= i < ENTRIES && !Present(Entry(s.mem, t, i)) ==>
      (Present(Entry(s'.mem, t, i)) ==> Child(s'.mem, t, i) !in s.shape)
  }

  function ZeroPage(): Page { seq(ENTRIES, _ => 0) }

  /** A free frame, taken and cleared. */
  function Fresh(s: State, c: nat): State
    requires c < |s.used| == |s.mem|
  {
    State(s.used[c := true], s.mem[c := ZeroPage()], s.shape)
  }

  lemma FreshFrame(s: State, c: nat)
    requires Sound(s) && 0 < c < |s.used| && !s.used[c]
    ensures Sound(Fresh(s, c)) && c !in s.shape
    ensures SameSlots(s.shape, s.mem, Fresh(s, c).mem)
  {
    TablesAlone(s, Fresh(s, c));
  }

  /** The state after walk_pte has linked the fresh frame c below entry i of table t. */
  ghost function Linked(s: State, t: nat, i: nat, c: nat): State
    requires Sound(s) && t in s.shape && s.shape[t].level >= 2 && i < ENTRIES && 0 < c < |s.used| && !s.used[c]
  {
    State(s.used[c := true], SetEntry(Fresh(s, c).mem, t, i, LinkWord(c)),
          s.shape[c := Below(s.shape[t], t, i)])
  }

  lemma LinkGrows(s: State, t: nat, i: nat, c: nat)
    requires Sound(s) && t in s.shape && s.shape[t].level >= 2 && i < ENTRIES && !Present(s.mem[t][i])
    requires 0 < c < |s.used| && !s.used[c]
    ensures var s' := Linked(s, t, i, c);
      Sound(s') && Grows(s, s') && SameSlots(s.shape, s.mem, s'.mem) && Child(s'.mem, t, i) == c
  {
    FreshFrame(s, c);
    LinkWordDecodes(c);
    LinkTable(Fresh(s, c).mem, s.shape, t, i, c, LinkWord(c));
  }

  ghost predicate Full(used: seq<bool>) { forall p :: 0 <= p < |used| ==> used[p] }

  ghost function FreeFrames(used: seq<bool>): set<nat> { set p: nat | p < |used| && !used[p] }

  /** How many tables a walk has to allocate. */
  ghost function Missing(mem: Memory, root: nat, v: Vpn): (n: nat)
    ensures n <= 3
  {
    if Table3(mem, root, v) == 0 then 3 else if Table2(mem, root, v) == 0 then 2
    else if Table1(mem, root, v) == 0 then 1 else 0
  }

  /** Free frames less the tables that a walk to v lacks. */
  ghost function Spare(s: State, root: nat, v: Vpn): int { |FreeFrames(s.used)| - Missing(s.mem, root, v) }

  lemma TakeFrame(used: seq<bool>, c: nat)
    requires c < |used| && !used[c]
    ensures |FreeFrames(used[c := true])| == |FreeFrames(used)| - 1
  {
    assert FreeFrames(used[c := true]) == FreeFrames(used) - {c};
  }

  lemma FullHasNone(used: seq<bool>)
    ensures Full(used) <==> |FreeFrames(used)| == 0
  {
    if !Full(used) {
      var p :| 0 <= p < |used| && !used[p];
      assert p in FreeFrames(used);
    }
  }

  /** Table t is reached on the walk to v, and i is the index the walk takes there. */
  ghost predicate OnWalk(mem: Memory, root: nat, v: Vpn, t: nat, i: nat) {
    || (t == root && i == v.i4) || (t == Table3(mem, root, v) != 0 && i == v.i3)
    || (t == Table2(mem, root, v) != 0 && i == v.i2)
  }

  /** A table linked on the walk is a frame less, and a missing table less. */
  lemma SpareKept(s: State, root: nat, v: Vpn, t: nat, i: nat, c: nat)
    requires Sound(s) && IsRoot(s.shape, root) && IsVpn(v) && OnWalk(s.mem, root, v, t, i)
    requires t in s.shape && s.shape[t].level >= 2 && i < ENTRIES && !Present(s.mem[t][i])
    requires 0 < c < |s.used| && !s.used[c]
    ensures Spare(Linked(s, t, i, c), root, v) == Spare(s, root, v)
  {
    TakeFrame(s.used, c);
    LinkWordDecodes(c);
    WalkPlaces(s.mem, s.shape, root, v);
    var mem' := Linked(s, t, i, c).mem;
    assert mem'[c] == ZeroPage();
    assert Child(mem', t, i) == c;
  }

  /** walk_pte with alloc, where it does not halt: nothing to do, or a free frame linked. */
  ghost predicate Stepped(s: State, s': State, t: nat, i: nat)
    requires Sound(s) && t in s.shape && s.shape[t].level >= 2 && i < ENTRIES
  {
    if Present(s.mem[t][i]) then s' == s
    else exists c: nat :: 0 < c < |s.used| && !s.used[c] && s' == Linked(s, t, i, c)
  }

  lemma SteppedSpare(s: State, s': State, root: nat, v: Vpn, t: nat, i: nat)
    requires Sound(s) && IsRoot(s.shape, root) && IsVpn(v) && OnWalk(s.mem, root, v, t, i)
    requires t in s.shape && s.shape[t].level >= 2 && i < ENTRIES && Stepped(s, s', t, i)
    ensures Spare(s', root, v) == Spare(s, root, v)
  {
    if !Present(s.mem[t][i]) {
      var c: nat :| 0 < c < |s.used| && !s.used[c] && s' == Linked(s, t, i, c);
      SpareKept(s, root, v, t, i, c);
    }
  }

  /** What a walk costs: it halts exactly when fewer frames are free than tables missing, else takes just these. */
  ghost predicate Paid(s: State, s': State, root: nat, v: Vpn, halted: bool) {
    if halted then Full(s'.used) && Spare(s, root, v) < 0 else |FreeFrames(s'.used)| == Spare(s, root, v)
  }

  /** A halt for want of memory: no frame is left, and there were fewer than n at the start. */
  ghost predicate Starved(used: seq<bool>, used': seq<bool>, n: nat) { Full(used') && |FreeFrames(used)| < n }

  lemma PaidBound(s: State, s': State, root: nat, v: Vpn, halted: bool)
    requires Paid(s, s', root, v, halted)
    ensures if halted then Starved(s.used, s'.used, 3) else |FreeFrames(s.used)| <= |FreeFrames(s'.used)| + 3
  {
  }

  lemma GrowsTransitive(a: State, b: State, c: State)
    requires Sound(a) && Sound(b) && Grows(a, b) && Grows(b, c)
    ensures Grows(a, c)
  {
    forall t, i | t in a.shape && a.shape[t].level >= 2 && 0 <= i < ENTRIES && Present(Entry(a.mem, t, i))
      ensures Entry(c.mem, t, i) == Entry(a.mem, t, i)
    {
      assert Entry(b.mem, t, i) == Entry(a.mem, t, i);
    }
  }

  /** Lazy allocation as the caller of a walk sees it. */
  ghost predicate Extends(s: State, s': State) {
    Sound(s') && Grows(s, s') && SameSlots(s.shape, s.mem, s'.mem)
  }

  lemma ExtendsTransitive(a: State, b: State, c: State)
    requires Sound(a) && Extends(a, b) && Extends(b, c)
    ensures Extends(a, c)
  {
    GrowsTransitive(a, b, c);
  }

  lemma ChildKept(s: State, s': State, t: nat, i: nat)
    requires Sound(s) && Grows(s, s') && t in s.shape && s.shape[t].level >= 2 && i < ENTRIES && Child(s.mem, t, i) != 0
    ensures Child(s'.mem, t, i) == Child(s.mem, t, i)
  {
  }

  /** The tables met so far stay on the walk. */
  ghost predicate PathKept(mem: Memory, mem': Memory, root: nat, v: Vpn) {
    && (Table3(mem, root, v) != 0 ==> Table3(mem', root, v) == Table3(mem, root, v))
    && (Table2(mem, root, v) != 0 ==> Table2(mem', root, v) == Table2(mem, root, v))
  }

  /** A walk to page v that began in s0 and has come to s. */
  ghost predicate Underway(s0: State, s: State, root: nat, v: Vpn) {
    && Sound(s0) && Extends(s0, s) && IsRoot(s0.shape, root) && Spare(s, root, v) == Spare(s0, root, v)
    && Slot(s.mem, root, v) == Slot(s0.mem, root, v)
  }

  lemma UnderwayStep(s0: State, s: State, s': State, root: nat, v: Vpn, t: nat, i: nat, alloc: bool)
    requires Underway(s0, s, root, v) && IsVpn(v) && OnWalk(s.mem, root, v, t, i) && Extends(s, s')
    requires t in s.shape && s.shape[t].level >= 2 && i < ENTRIES
    requires if alloc then Stepped(s, s', t, i) else s' == s
    ensures Underway(s0, s', root, v) && PathKept(s.mem, s'.mem, root, v)
  {
    ExtendsTransitive(s0, s, s');
    if alloc {
      SteppedSpare(s, s', root, v, t, i);
    }
    WalkPlaces(s.mem, s.shape, root, v);
    if Table3(s.mem, root, v) != 0 {
      ChildKept(s, s', root, v.i4);
      if Table2(s.mem, root, v) != 0 {
        ChildKept(s, s', Table3(s.mem, root, v), v.i3);
      }
    }
  }

  /** The whole effect of an operation that leaves page `page` of `root` with entry w. */
  ghost predicate Written(s: State, s': State, root: nat, page: Vpn, w: nat) {
    Grows(s, s') && SlotWritten(s.shape, s.mem, s'.mem, root, page, w)
  }

  /** A walk, then a write to the leaf entry it found. */
  lemma WalkThenWrite(s: State, s': State, root: nat, page: Vpn, w: nat)
    requires Sound(s) && Extends(s, s') && IsRoot(s.shape, root) && IsVpn(page) && Table1(s'.mem, root, page) != 0
    ensures Table1(s'.mem, root, page) in s'.shape && |s'.mem[Table1(s'.mem, root, page)]| == ENTRIES
    ensures var s'' := s'.(mem := SetEntry(s'.mem, Table1(s'.mem, root, page), page.i1, w));
      Sound(s'') && Written(s, s'', root, page, w)
  {
    WalkPlaces(s'.mem, s'.shape, root, page);
    WritePage(s'.mem, s'.shape, root, page, w);
    var t := Table1(s'.mem, root, page);
    var s'' := s'.(mem := SetEntry(s'.mem, t, page.i1, w));
    forall r, v | IsRoot(s.shape, r) && IsVpn(v)
      ensures Slot(s''.mem, r, v) ==
        if v == page && (r == root || Shared(s''.mem, root, r, page)) then w else Slot(s.mem, r, v)
    {
      assert IsRoot(s'.shape, r);
    }
  }

  /** A walk and no write: the page keeps the entry it had. */
  lemma WalkOnly(s: State, s': State, root: nat, page: Vpn)
    requires Extends(s, s') && IsRoot(s.shape, root) && IsVpn(page)
    ensures Written(s, s', root, page, Slot(s.mem, root, page))
  {
  }

  /** The present entries of a flat table, as a map from virtual pages. */
  ghost function Bound(f: Vpn -> nat): imap<Vpn, nat> {
    imap v | IsVpn(v) && Present(f(v)) :: f(v)
  }

  lemma BoundUpdate(f: Vpn -> nat, f': Vpn -> nat, page: Vpn, w: nat)
    requires IsVpn(page)
    requires forall v :: IsVpn(v) ==> f'(v) == if v == page then w else f(v)
    ensures Bound(f') == if Present(w) then Bound(f)[page := w] else Bound(f) - {page}
  {
  }

  /** The address space of a root. */
  ghost function Mapping(mem: Memory, root: nat): imap<Vpn, nat> {
    Bound((v: Vpn) => Slot(mem, root, v))
  }

  /** On that map, leaving `page` with entry w is an update, or a removal when w is not present. */
  lemma WrittenMapping(s: State, s': State, root: nat, page: Vpn, w: nat)
    requires Written(s, s', root, page, w) && IsRoot(s.shape, root) && IsVpn(page)
    ensures Mapping(s'.mem, root) ==
      if Present(w) then Mapping(s.mem, root)[page := w] else Mapping(s.mem, root) - {page}
  {
    BoundUpdate((v: Vpn) => Slot(s.mem, root, v), (v: Vpn) => Slot(s'.mem, root, v), page, w);
  }

  /** Mapping an unbound page and unmapping it again restores every address space. */
  lemma MapThenUnmap(s: State, s': State, s'': State, root: nat, page: Vpn, w: nat, r: nat)
    requires Sound(s) && Sound(s') && IsRoot(s.shape, root) && IsVpn(page) && !Present(Slot(s.mem, root, page))
    requires Written(s, s', root, page, w) && Written(s', s'', root, page, 0) && IsRoot(s.shape, r)
    ensures Mapping(s''.mem, r) == Mapping(s.mem, r)
  {
    MapThenUnmapPage(s, s', s'', root, page, w, r);
    assert IsRoot(s'.shape, r);
    SameBindings((v: Vpn) => Slot(s.mem, r, v), (v: Vpn) => Slot(s''.mem, r, v), page);
  }

  lemma MapThenUnmapPage(s: State, s': State, s'': State, root: nat, page: Vpn, w: nat, r: nat)
    requires Sound(s) && Sound(s') && IsRoot(s.shape, root) && IsVpn(page) && !Present(Slot(s.mem, root, page))
    requires Written(s, s', root, page, w) && Written(s', s'', root, page, 0) && IsRoot(s.shape, r)
    ensures var was, now := Slot(s.mem, r, page), Slot(s''.mem, r, page);
      if Present(was) then now == was else !Present(now)
  {
    WrittenAt(s, s', root, page, w, r);
    WrittenAt(s', s'', root, page, 0, r);
    if Present(Slot(s.mem, r, page)) {
      NotNewlyShared(s, s', root, r, page);
      NotNewlyShared(s', s'', root, r, page);
    } else if Shared(s'.mem, root, r, page) {
      SharedKept(s', s'', root, r, page);
    }
  }

  lemma WrittenAt(s: State, s': State, root: nat, page: Vpn, w: nat, r: nat)
    requires Written(s, s', root, page, w) && IsRoot(s.shape, root) && IsRoot(s.shape, r) && IsVpn(page)
    ensures IsRoot(s'.shape, root) && IsRoot(s'.shape, r)
    ensures Slot(s'.mem, r, page) == if r == root || Shared(s'.mem, root, r, page) then w else Slot(s.mem, r, page)
  {
  }

  /** Tables that two roots share they go on sharing. */
  lemma SharedKept(s: State, s': State, root: nat, r: nat, v: Vpn)
    requires Grows(s, s') && IsRoot(s.shape, root) && IsRoot(s.shape, r) && IsVpn(v) && Shared(s.mem, root, r, v)
    ensures Shared(s'.mem, root, r, v)
  {
    assert Entry(s'.mem, root, v.i4) == Entry(s.mem, root, v.i4);
    assert Entry(s'.mem, r, v.i4) == Entry(s.mem, r, v.i4);
  }

  /** A page bound in one root only does not come to be shared: new links lead to new tables. */
  lemma NotNewlyShared(s: State, s': State, root: nat, r: nat, v: Vpn)
    requires Sound(s) && Grows(s, s') && IsRoot(s.shape, root) && IsRoot(s.shape, r) && IsVpn(v)
    requires Present(Slot(s.mem, r, v)) && !Shared(s.mem, root, r, v)
    ensures !Shared(s'.mem, root, r, v)
  {
    WalkPlaces(s.mem, s.shape, r, v);
    assert Entry(s'.mem, r, v.i4) == Entry(s.mem, r, v.i4);
    assert Present(Entry(s.mem, root, v.i4)) ==> Entry(s'.mem, root, v.i4) == Entry(s.mem, root, v.i4);
  }

  lemma SameBindings(f: Vpn -> nat, f': Vpn -> nat, page: Vpn)
    requires forall v :: IsVpn(v) && v != page ==> f'(v) == f(v)
    requires if Present(f(page)) then f'(page) == f(page) else !Present(f'(page))
    ensures Bound(f') == Bound(f)
  {
  }

  /** For a page frame and flags that fit an entry, vmm_map_page is an insertion that keeps an existing binding. */
  lemma {:induction false} MapBinds(s: State, s': State, root: nat, page: Vpn, frame: nat, flags: nat)
    requires IsRoot(s.shape, root) && IsVpn(page)
    requires frame < FRAMES && flags < TWO64 && FrameOf(flags) == 0 && Present(flags)
    requires Mapped(s, s', root, page, Or(frame * PAGE_SIZE, flags))
    ensures var m, m', w := Mapping(s.mem, root), Mapping(s'.mem, root), Or(frame * PAGE_SIZE, flags);
      && FrameOf(w) == frame && FlagsOf(w) == flags
      && m' == if page in m then m else m[page := w]
  {
    var was, w := Slot(s.mem, root, page), Or(frame * PAGE_SIZE, flags);
    Pack(frame, flags);
    WrittenMapping(s, s', root, page, if Present(was) then was else w);
  }

  /** For flags that fit an entry, vmm_change_flag gives a bound page exactly these flags and keeps its frame. */
  lemma {:induction false} ChangeFlagBinds(s: State, s': State, root: nat, page: Vpn, flags: nat)
    requires IsRoot(s.shape, root) && IsVpn(page) && flags < TWO64 && FrameOf(flags) == 0 && Present(flags)
    requires Reflagged(s, s', root, page, flags)
    ensures var m, m' := Mapping(s.mem, root), Mapping(s'.mem, root);
      && m'.Keys == m.Keys && (forall v :: v in m && v != page ==> m'[v] == m[v])
      && (page in m ==> FrameOf(m'[page]) == FrameOf(m[page]) && FlagsOf(m'[page]) == flags)
  {
    var was := Slot(s.mem, root, page);
    Pack(FrameOf(was), flags);
    WrittenMapping(s, s', root, page, if Present(was) then Or(FrameOf(was) * PAGE_SIZE, flags) else was);
  }

  /** Unbound pages of every root name no frame, so that vmm_virt2phys answers 0 for them. */
  ghost predicate Tidy(s: State) {
    forall r, v :: IsRoot(s.shape, r) && IsVpn(v) && !Present(Slot(s.mem, r, v)) ==> FrameOf(Slot(s.mem, r, v)) == 0
  }

  lemma TidyKept(s: State, s': State, root: nat, page: Vpn, w: nat)
    requires Written(s, s', root, page, w) && IsRoot(s.shape, root) && Tidy(s) && IsVpn(page)
    ensures Tidy(s') <==> Present(w) || FrameOf(w) == 0
  {
    assert IsRoot(s'.shape, root) && Slot(s'.mem, root, page) == w;
    assert forall r :: IsRoot(s'.shape, r) ==> IsRoot(s.shape, r);
  }

  lemma TidySame(s: State, s': State)
    requires Tidy(s) && SameSlots(s.shape, s.mem, s'.mem) && forall r :: IsRoot(s'.shape, r) ==> IsRoot(s.shape, r)
    ensures Tidy(s')
  {
  }

  /** Map calls with PTE_PRESENT keep it, whatever the frame. */
  lemma TidyMapped(s: State, s': State, root: nat, page: Vpn, w: nat)
    requires IsRoot(s.shape, root) && IsVpn(page) && Tidy(s) && Present(w) && Mapped(s, s', root, page, w)
    ensures Tidy(s')
  {
    var was := Slot(s.mem, root, page);
    TidyKept(s, s', root, page, if Present(was) then was else w);
  }

  /** So do flag changes with PTE_PRESENT. */
  lemma TidyReflagged(s: State, s': State, root: nat, page: Vpn, flags: nat)
    requires IsRoot(s.shape, root) && IsVpn(page) && Tidy(s) && Present(flags) && Reflagged(s, s', root, page, flags)
    ensures Tidy(s')
  {
    var was := Slot(s.mem, root, page);
    PresentWord(FrameOf(was) * PAGE_SIZE, flags);
    TidyKept(s, s', root, page, if Present(was) then Or(FrameOf(was) * PAGE_SIZE, flags) else was);
  }

  lemma TidyCleared(s: State, s': State, root: nat, page: Vpn)
    requires IsRoot(s.shape, root) && IsVpn(page) && Tidy(s) && Written(s, s', root, page, 0)
    ensures Tidy(s')
  {
    var w := 0;
    assert FrameOf(w) == 0;
    TidyKept(s, s', root, page, w);
  }

  lemma TidyExtended(s: State, s': State)
    requires Tidy(s) && Extends(s, s')
    ensures Tidy(s')
  {
    assert forall r :: IsRoot(s'.shape, r) ==> IsRoot(s.shape, r);
    TidySame(s, s');
  }

  /** A map call keeps lookups of unbound pages at 0 exactly unless it stores a frame without PTE_PRESENT. */
  lemma {:induction false} TidyAfterMapIff(s: State, s': State, root: nat, page: Vpn, physical: nat, flags: nat)
    requires IsRoot(s.shape, root) && IsVpn(page) && Tidy(s) && Mapped(s, s', root, page, Or(physical, flags))
    ensures Tidy(s') <==>
      || Present(Slot(s.mem, root, page)) || Present(physical) || Present(flags)
      || (FrameOf(physical) == 0 && FrameOf(flags) == 0)
  {
    var was, w := Slot(s.mem, root, page), Or(physical, flags);
    OrDecodes(physical, flags);
    TidyKept(s, s', root, page, if Present(was) then was else w);
  }

  /** A flag change exactly unless it takes PTE_PRESENT from a bound page and leaves it a frame. */
  lemma TidyAfterChangeFlagIff(s: State, s': State, root: nat, page: Vpn, flags: nat)
    requires IsRoot(s.shape, root) && IsVpn(page) && Tidy(s) && Reflagged(s, s', root, page, flags)
    ensures var was := Slot(s.mem, root, page);
      Tidy(s') <==> !Present(was) || Present(flags) || (FrameOf(was) == 0 && FrameOf(flags) == 0)
  {
    var was := Slot(s.mem, root, page);
    var physical := FrameOf(was) * PAGE_SIZE;
    OrDecodes(physical, flags);
    FrameOfAddress(FrameOf(was));
    TidyKept(s, s', root, page, if Present(was) then Or(physical, flags) else was);
  }

  /** Such a map call leaves an unbound page whose lookup answers the frame; frame 1 with no flags is one. */
  lemma {:induction false} StaleLookup(s: State, s': State, root: nat, page: Vpn, frame: nat, flags: nat)
    requires IsRoot(s.shape, root) && IsVpn(page) && !Present(Slot(s.mem, root, page))
    requires 0 < frame < FRAMES && flags < TWO64 && FrameOf(flags) == 0 && !Present(flags)
    requires Mapped(s, s', root, page, Or(frame * PAGE_SIZE, flags))
    ensures page !in Mapping(s'.mem, root) && FrameOf(Slot(s'.mem, root, page)) == frame
  {
    Pack(frame, flags);
    assert Slot(s'.mem, root, page) == Or(frame * PAGE_SIZE, flags);
  }

  /** So does such a flag change: the page is unbound and its lookup answers the frame it had; flags 0 are such. */
  lemma StaleAfterChangeFlag(s: State, s': State, root: nat, page: Vpn, flags: nat)
    requires IsRoot(s.shape, root) && IsVpn(page) && flags < TWO64 && FrameOf(flags) == 0 && !Present(flags)
    requires Present(Slot(s.mem, root, page)) && FrameOf(Slot(s.mem, root, page)) > 0
    requires Reflagged(s, s', root, page, flags)
    ensures page !in Mapping(s'.mem, root) && FrameOf(Slot(s'.mem, root, page)) == FrameOf(Slot(s.mem, root, page))
  {
    var frame := FrameOf(Slot(s.mem, root, page));
    Pack(frame, flags);
    assert Slot(s'.mem, root, page) == Or(frame * PAGE_SIZE, flags);
  }

  /** In a tidy state a lookup is exact: the frame of a bound page, 0 for an unbound one. */
  lemma LookupExact(s: State, root: nat, v: Vpn)
    requires Tidy(s) && IsRoot(s.shape, root) && IsVpn(v)
    ensures var m := Mapping(s.mem, root);
      FrameOf(Slot(s.mem, root, v)) == if v in m then FrameOf(m[v]) else 0
  {
  }

  /** vmm_new's copy of every entry of the kernel root into a frame that is no table yet. */
  ghost function Copied(s: State, kernel: nat, root: nat): State
    requires |s.mem| == |s.used| && kernel < |s.mem| && root < |s.mem|
  {
    State(s.used, s.mem[root := s.mem[kernel]], s.shape[root := ROOT])
  }

  lemma CopySound(s: State, kernel: nat, root: nat)
    requires Sound(s) && IsRoot(s.shape, kernel) && 0 < root < |s.mem| && root !in s.shape && s.used[root]
    ensures var s' := Copied(s, kernel, root);
      && Sound(s') && SameSlots(s.shape, s.mem, s'.mem) && Kept(s.shape, s.mem, s'.mem)
      && forall v :: IsVpn(v) ==> Slot(s'.mem, root, v) == Slot(s.mem, kernel, v)
  {
    var s' := Copied(s, kernel, root);
    forall t, i | t in s'.shape && s'.shape[t].level >= 2 && 0 <= i < ENTRIES
      ensures LinkOk(s'.mem, s'.shape, t, i)
    {
      assert LinkOk(s.mem, s.shape, if t == root then kernel else t, i);
    }
    forall r, v | IsRoot(s.shape, r) && IsVpn(v)
      ensures Slot(s'.mem, r, v) == Slot(s.mem, r, v)
    {
      WalkPlaces(s.mem, s.shape, r, v);
    }
    forall v | IsVpn(v)
      ensures Slot(s'.mem, root, v) == Slot(s.mem, kernel, v)
    {
      WalkPlaces(s.mem, s.shape, kernel, v);
    }
  }

  /** A new address space: a fresh root holding the kernel's entries, and nothing taken from the old tables. */
  ghost predicate SpaceAdded(s: State, s': State, kernel: nat, page: nat, root: nat) {
    && |s'.used| == |s.used| == |s'.mem| == |s.mem| && page < |s.used| && root < |s.used| && page != root
    && !s.used[page] && !s.used[root] && page !in s'.shape && s'.used[page] && IsRoot(s'.shape, root)
    && (forall t :: t in s.shape ==> t in s'.shape && s'.shape[t] == s.shape[t])
    && (forall t :: IsRoot(s'.shape, t) ==> t == root || IsRoot(s.shape, t))
    && (forall p :: 0 <= p < |s.used| && s.used[p] ==>
          s'.used[p] && (p !in s.shape ==> p !in s'.shape && s'.mem[p] == s.mem[p]))
    && Kept(s.shape, s.mem, s'.mem)
    && (forall i :: 0 <= i < ENTRIES ==> Entry(s'.mem, root, i) == Entry(s'.mem, kernel, i))
  }

  /** vmm_new step by step: two fresh frames, tables grown by the map calls, then the copy. */
  lemma SpaceComposed(s: State, page: nat, root: nat, grown: State, kernel: nat)
    requires Sound(s) && Sound(grown) && IsRoot(s.shape, kernel)
    requires 0 < page < |s.used| && 0 < root < |s.used| && page != root && !s.used[page] && !s.used[root]
    requires Grows(Fresh(Fresh(s, page), root), grown)
    ensures root !in grown.shape && grown.used[root]
    ensures SpaceAdded(s, Copied(grown, kernel, root), kernel, page, root)
  {
    var f := Fresh(Fresh(s, page), root);
    var s' := Copied(grown, kernel, root);
    assert page !in grown.shape && root !in grown.shape;
    forall t, i | t in s.shape && s.shape[t].level >= 2 && 0 <= i < ENTRIES && Present(Entry(s.mem, t, i))
      ensures Entry(s'.mem, t, i) == Entry(s.mem, t, i)
    {
      assert Entry(f.mem, t, i) == Entry(s.mem, t, i);
    }
  }

  /** What vmm_map_page leaves behind when asked to bind `page` to the present entry w. */
  ghost predicate Mapped(s: State, s': State, root: nat, page: Vpn, w: nat) {
    var was := Slot(s.mem, root, page);
    Written(s, s', root, page, if Present(was) then was else w) && (Present(was) ==> Extends(s, s'))
  }

  /** What vmm_change_flag leaves behind. */
  ghost predicate Reflagged(s: State, s': State, root: nat, page: Vpn, flags: nat) {
    var was := Slot(s.mem, root, page);
    Written(s, s', root, page, if Present(was) then Or(FrameOf(was) * PAGE_SIZE, flags) else was)
  }

  /** A page and the word a map call offers for it. */
  datatype Binding = Binding(page: Vpn, word: nat)

  /** The calls offer a new word for page x of r: it was unbound in root, and r is root or shares its entry for x. */
  ghost predicate Offered(s: State, s': State, root: nat, b: Binding, b': Binding, r: nat, x: Vpn) {
    (x == b.page || x == b'.page) && !Present(Slot(s.mem, root, x)) && (r == root || Shared(s'.mem, root, r, x))
  }

  /** Every page of every root after two map calls for root: the first call wins where both name one page. */
  ghost predicate BothMapped(s: State, s': State, root: nat, b: Binding, b': Binding) {
    forall r, x :: IsRoot(s.shape, r) && IsVpn(x) ==>
      Slot(s'.mem, r, x) ==
        if Offered(s, s', root, b, b', r, x) then (if x == b.page then b.word else b'.word) else Slot(s.mem, r, x)
  }

  lemma SharedStays(s: State, s': State, root: nat, r: nat, v: Vpn)
    requires Sound(s) && Grows(s, s') && IsRoot(s.shape, root) && IsRoot(s.shape, r) && IsVpn(v)
    requires Present(Slot(s.mem, root, v))
    ensures Shared(s'.mem, root, r, v) <==> Shared(s.mem, root, r, v)
  {
    if !Shared(s.mem, root, r, v) {
      NotNewlyShared(s, s', r, root, v);
    } else {
      ChildKept(s, s', root, v.i4);
      ChildKept(s, s', r, v.i4);
    }
  }

  /** Two map calls in a row. */
  lemma MappedTwice(s: State, m: State, s': State, root: nat, b: Binding, b': Binding)
    requires Sound(m) && IsRoot(s.shape, root) && IsVpn(b.page) && IsVpn(b'.page) && Present(b.word)
    requires Mapped(s, m, root, b.page, b.word) && Mapped(m, s', root, b'.page, b'.word)
    ensures BothMapped(s, s', root, b, b')
  {
    forall r, x | IsRoot(s.shape, r) && IsVpn(x)
      ensures Slot(s'.mem, r, x) ==
        if Offered(s, s', root, b, b', r, x) then (if x == b.page then b.word else b'.word) else Slot(s.mem, r, x)
    {
      assert IsRoot(m.shape, root) && IsRoot(m.shape, r);
      if x == b.page {
        assert Present(Slot(m.mem, root, x));
        SharedStays(m, s', root, r, x);
      }
    }
  }

  /** They change no translation exactly when both pages were bound before. */
  lemma UnchangedIff(s: State, s': State, root: nat, b: Binding, b': Binding)
    requires IsRoot(s.shape, root) && IsVpn(b.page) && IsVpn(b'.page) && Present(b.word) && Present(b'.word)
    requires BothMapped(s, s', root, b, b')
    ensures SameSlots(s.shape, s.mem, s'.mem) <==>
      Present(Slot(s.mem, root, b.page)) && Present(Slot(s.mem, root, b'.page))
  {
    assert !Present(Slot(s.mem, root, b.page)) ==> Slot(s'.mem, root, b.page) == b.word;
    assert !Present(Slot(s.mem, root, b'.page)) ==> Present(Slot(s'.mem, root, b'.page));
  }

  /** The same seen across steps that change no translation before, and none of the old roots' entries after. */
  lemma BothMappedAround(s0: State, s: State, s': State, s1: State, root: nat, b: Binding, b': Binding)
    requires BothMapped(s, s', root, b, b') && IsRoot(s.shape, root) && s.shape == s0.shape
    requires SameSlots(s0.shape, s0.mem, s.mem) && Grows(s, s') && SameSlots(s'.shape, s'.mem, s1.mem)
    requires forall r, i :: IsRoot(s'.shape, r) && 0 <= i < ENTRIES ==> Entry(s1.mem, r, i) == Entry(s'.mem, r, i)
    ensures BothMapped(s0, s1, root, b, b')
  {
    forall r, x | IsRoot(s0.shape, r) && IsVpn(x)
      ensures Slot(s1.mem, r, x) == Slot(s'.mem, r, x) && Slot(s.mem, r, x) == Slot(s0.mem, r, x)
      ensures Offered(s0, s1, root, b, b', r, x) <==> Offered(s, s', root, b, b', r, x)
    {
      assert IsRoot(s'.shape, r) && IsRoot(s'.shape, root);
    }
  }

  lemma SpaceTranslates(s: State, s': State, kernel: nat, page: nat, root: nat, v: Vpn)
    requires SpaceAdded(s, s', kernel, page, root) && IsVpn(v)
    ensures Slot(s'.mem, root, v) == Slot(s'.mem, kernel, v)
  {
  }

  lemma SpaceCoherent(s: State, s': State, kernel: nat, page: nat, root: nat)
    requires SpaceAdded(s, s', kernel, page, root) && IsRoot(s.shape, kernel) && Coherent(s.shape, s.mem, kernel)
    ensures Coherent(s'.shape, s'.mem, kernel)
  {
  }

  /** Every root holds the kernel's upper 256 entries, all present. */
  ghost predicate Coherent(shape: Shape, mem: Memory, kernel: nat) {
    forall r, i :: IsRoot(shape, r) && 256 <= i < ENTRIES ==>
      Present(Entry(mem, kernel, i)) && Entry(mem, r, i) == Entry(mem, kernel, i)
  }

  /** Then all of them translate every higher-half page alike. */
  lemma HigherHalfAgrees(shape: Shape, mem: Memory, kernel: nat, r: nat, v: Vpn)
    requires Coherent(shape, mem, kernel) && IsRoot(shape, r) && IsVpn(v) && v.i4 >= 256
    ensures Slot(mem, r, v) == Slot(mem, kernel, v)
  {
  }

  lemma CoherenceKept(s: State, s': State, kernel: nat)
    requires Sound(s) && TablesKept(s, s') && IsRoot(s.shape, kernel) && Coherent(s.shape, s.mem, kernel)
    ensures Coherent(s'.shape, s'.mem, kernel)
  {
  }

  /** Frames that are no tables may change hands and contents without any effect on translation. */
  lemma TablesAlone(s: State, s': State)
    requires Sound(s) && s'.shape == s.shape && |s'.mem| == |s.mem| == |s'.used|
    requires forall t :: t in s.shape ==> s'.mem[t] == s.mem[t] && s'.used[t]
    ensures Sound(s') && SameSlots(s.shape, s.mem, s'.mem)
  {
    forall t, i | t in s.shape && s.shape[t].level >= 2 && 0 <= i < ENTRIES
      ensures LinkOk(s'.mem, s.shape, t, i)
    {
      assert LinkOk(s.mem, s.shape, t, i);
    }
    forall r, v | IsRoot(s.shape, r) && IsVpn(v)
      ensures Slot(s'.mem, r, v) == Slot(s.mem, r, v)
    {
      WalkPlaces(s.mem, s.shape, r, v);
    }
  }
}
