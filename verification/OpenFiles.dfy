/** The table of open files of ustar.c: open, read and close, and their reference counts. */
module OpenFiles {
  import opened Outcomes
  import opened Tar
  import opened Ustar

  const MAX_OPEN: nat := 512

  datatype Descriptor = Descriptor(header: nat, references: nat, size: nat)

  function Refs(slot: Option<Descriptor>): nat {
    if slot.Some? then slot.value.references else 0
  }

  function Total(s: seq<Option<Descriptor>>): nat {
    if s == [] then 0 else Total(s[..|s| - 1]) + Refs(s[|s| - 1])
  }

  /** A slot is NULL exactly when its count is zero, and every count fits sixteen bits. */
  ghost predicate Counted(s: seq<Option<Descriptor>>) {
    forall i :: 0 <= i < |s| && s[i].Some? ==> 1 <= s[i].value.references < 65536
  }

  lemma {:induction false} TotalUpdate(s: seq<Option<Descriptor>>, i: nat, d: Option<Descriptor>)
    requires i < |s|
    ensures Total(s[i := d]) == Total(s) - Refs(s[i]) + Refs(d) && Refs(s[i]) <= Total(s)
  {
    var n := |s| - 1;
    if i == n {
      assert s[i := d][..n] == s[..n];
    } else {
      TotalUpdate(s[..n], i, d);
      assert s[i := d][..n] == s[..n][i := d];
    }
  }

  function FirstOpen(s: seq<Option<Descriptor>>, from: nat): (i: nat)
    requires from <= |s|
    ensures from <= i <= |s| && (i < |s| ==> s[i].Some? && s[i].value.references > 0)
    ensures forall j :: from <= j < i ==> Refs(s[j]) == 0
    decreases |s| - from
  {
    if from == |s| || Refs(s[from]) > 0 then from else FirstOpen(s, from + 1)
  }

  function FirstFree(s: seq<Option<Descriptor>>, from: nat): (i: nat)
    requires from <= |s|
    ensures from <= i <= |s| && (i < |s| ==> s[i].None?) && forall j :: from <= j < i ==> s[j].Some?
    decreases |s| - from
  {
    if from == |s| || s[from].None? then from else FirstFree(s, from + 1)
  }

  /** The slot that is_already_open finds: the prefix fields it compares are empty, so only the empty path matches. */
  function Matching(s: seq<Option<Descriptor>>, path: string): (i: nat)
    ensures i <= |s|
  {
    if path == "" then FirstOpen(s, 0) else |s|
  }

  /** ustar_open: the new table and the id. */
  function AfterOpen(s: seq<Option<Descriptor>>, files: seq<File>, path: string):
    (r: (seq<Option<Descriptor>>, Option<nat>))
    ensures |r.0| == |s| && (r.1.Some? ==> r.1.value < |s|)
  {
    var i, k, free := Matching(s, path), FirstNamed(files, path), FirstFree(s, 0);
    if i < |s| then
      var d := s[i].value;
      (s[i := Some(Descriptor(d.header, (d.references + 1) % 65536, d.size))], Some(i))
    else if k == |files| || free == |s| then (s, None)
    else (s[free := Some(Descriptor(OffsetOf(files, k), 1, |files[k].data|))], Some(free))
  }

  ghost predicate HasPath(files: seq<File>, path: string) {
    exists k :: 0 <= k < |files| && Normal(files[k].name) == path
  }

  ghost predicate HasFree(s: seq<Option<Descriptor>>) { exists i :: 0 <= i < |s| && s[i].None? }

  ghost predicate HasOpen(s: seq<Option<Descriptor>>) { exists i :: 0 <= i < |s| && Refs(s[i]) > 0 }

  /** An open succeeds exactly when a file has the path and a slot is free, or for "" a slot is open; the rest stays. */
  lemma OpenSucceedsIff(s: seq<Option<Descriptor>>, files: seq<File>, path: string)
    ensures var r := AfterOpen(s, files, path);
      && (r.1.Some? <==> (path == "" && HasOpen(s)) || (HasPath(files, path) && HasFree(s)))
      && (forall j :: 0 <= j < |s| && r.1 != Some(j) ==> r.0[j] == s[j])
      && (r.1.Some? && !(path == "" && HasOpen(s)) ==>
            s[r.1.value].None? && Refs(r.0[r.1.value]) == 1 && forall j :: 0 <= j < r.1.value ==> s[j].Some?)
  {
  }

  /** ustar_close */
  function AfterClose(s: seq<Option<Descriptor>>, id: nat): (r: seq<Option<Descriptor>>)
    requires id < |s| && s[id].Some?
    ensures |r| == |s|
  {
    var left := (s[id].value.references + 65535) % 65536;
    s[id := if left < 1 then None else Some(Descriptor(s[id].value.header, left, s[id].value.size))]
  }

  lemma ClosedIs(s: seq<Option<Descriptor>>, id: nat, left: nat)
    requires id < |s| && s[id].Some? && left == (s[id].value.references + 65535) % 65536
    ensures var t := s[id := Some(Descriptor(s[id].value.header, left, s[id].value.size))];
      AfterClose(s, id) == if left < 1 then t[id := None] else t
  {
  }

  ghost predicate Wraps(s: seq<Option<Descriptor>>, path: string) {
    var i := Matching(s, path);
    i < |s| && s[i].value.references == 65535
  }

  /** An open accounts for one reference exactly when it wraps no count. */
  lemma {:induction false} OpenCountsIff(s: seq<Option<Descriptor>>, files: seq<File>, path: string)
    requires Counted(s)
    ensures var r := AfterOpen(s, files, path);
      && (Counted(r.0) <==> !Wraps(s, path))
      && (Total(r.0) == Total(s) + (if r.1.Some? then 1 else 0) <==> !Wraps(s, path))
  {
    var r := AfterOpen(s, files, path);
    if r.1.Some? {
      var i := r.1.value;
      TotalUpdate(s, i, r.0[i]);
      assert r.0 == s[i := r.0[i]];
      assert Wraps(s, path) ==> r.0[i].Some? && r.0[i].value.references == 0;
    }
  }

  function Fewer(d: Descriptor): Option<Descriptor>
    requires d.references > 0
  {
    if d.references == 1 then None else Some(Descriptor(d.header, d.references - 1, d.size))
  }

  lemma CloseDecrements(s: seq<Option<Descriptor>>, id: nat)
    requires id < |s| && s[id].Some? && 1 <= s[id].value.references < 65536
    ensures AfterClose(s, id) == s[id := Fewer(s[id].value)]
  {
  }

  lemma {:induction false} CloseCounts(s: seq<Option<Descriptor>>, id: nat)
    requires Counted(s) && id < |s| && s[id].Some?
    ensures Counted(AfterClose(s, id)) && Total(AfterClose(s, id)) == Total(s) - 1
  {
    CloseDecrements(s, id);
    TotalUpdate(s, id, Fewer(s[id].value));
  }

  /** A table with fewer than 65535 outstanding handles cannot wrap. */
  lemma {:induction false} FewHandlesFit(s: seq<Option<Descriptor>>, path: string)
    requires Total(s) < 65535
    ensures !Wraps(s, path)
  {
    if Wraps(s, path) {
      TotalUpdate(s, Matching(s, path), None);
    }
  }

  /** Two successive opens share a handle exactly for the empty path; every other open takes a slot of its own. */
  lemma SharedIff(s: seq<Option<Descriptor>>, files: seq<File>, path: string)
    requires Counted(s) && AllReadable(files) && !Wraps(s, path)
    requires AfterOpen(s, files, path).1.Some?
    requires AfterOpen(AfterOpen(s, files, path).0, files, path).1.Some?
    ensures AfterOpen(s, files, path).1 == AfterOpen(AfterOpen(s, files, path).0, files, path).1 <==> path == ""
  {
    var t := AfterOpen(s, files, path).0;
    if path == "" {
      var i, j := FirstOpen(s, 0), FirstOpen(t, 0);
      assert i < |s|;
      assert t[i].Some? && Refs(t[i]) > 0;
      assert forall x :: 0 <= x < i ==> Refs(t[x]) == Refs(s[x]);
    }
  }

  datatype Call = Open(path: string) | Close(id: nat)

  /** The call closes only an open id, and wraps no count. */
  ghost predicate Allowed(s: seq<Option<Descriptor>>, call: Call) {
    match call
    case Open(path) => !Wraps(s, path)
    case Close(id) => id < |s| && s[id].Some?
  }

  ghost function After(s: seq<Option<Descriptor>>, files: seq<File>, call: Call): (t: seq<Option<Descriptor>>)
    requires Allowed(s, call)
    ensures |t| == |s|
  {
    match call
    case Open(path) => AfterOpen(s, files, path).0
    case Close(id) => AfterClose(s, id)
  }

  ghost function Gained(s: seq<Option<Descriptor>>, files: seq<File>, call: Call): int {
    match call
    case Open(path) => if AfterOpen(s, files, path).1.Some? then 1 else 0
    case Close(id) => -1
  }

  ghost predicate AllAllowed(s: seq<Option<Descriptor>>, files: seq<File>, calls: seq<Call>)
    decreases |calls|
  {
    calls != [] ==> Allowed(s, calls[0]) && AllAllowed(After(s, files, calls[0]), files, calls[1..])
  }

  ghost function RunAll(s: seq<Option<Descriptor>>, files: seq<File>, calls: seq<Call>): seq<Option<Descriptor>>
    requires AllAllowed(s, files, calls)
    decreases |calls|
  {
    if calls == [] then s else RunAll(After(s, files, calls[0]), files, calls[1..])
  }

  /** Successful opens minus closes. */
  ghost function Balance(s: seq<Option<Descriptor>>, files: seq<File>, calls: seq<Call>): int
    requires AllAllowed(s, files, calls)
    decreases |calls|
  {
    if calls == [] then 0
    else Gained(s, files, calls[0]) + Balance(After(s, files, calls[0]), files, calls[1..])
  }

  lemma {:induction false} HandlesConserved(s: seq<Option<Descriptor>>, files: seq<File>, calls: seq<Call>)
    requires Counted(s) && AllAllowed(s, files, calls)
    ensures Counted(RunAll(s, files, calls))
    ensures Total(RunAll(s, files, calls)) == Total(s) + Balance(s, files, calls)
    decreases |calls|
  {
    if calls != [] {
      match calls[0] {
        case Open(path) => OpenCountsIff(s, files, path);
        case Close(id) => CloseCounts(s, id);
      }
      HandlesConserved(After(s, files, calls[0]), files, calls[1..]);
    }
  }

  function EmptyTable(): seq<Option<Descriptor>> { seq(MAX_OPEN, _ => None) }

  /** A readable file that is opened twice gets two slots. */
  lemma OpenedTwice() returns (files: seq<File>)
    ensures AllReadable(files)
    ensures var r := AfterOpen(EmptyTable(), files, "a");
      r.1 == Some(0) && AfterOpen(r.0, files, "a").1 == Some(1)
  {
    var f := File("a", "", Zeros(24), Zeros(376));
    files := [f];
    assert Normal(f.name) == "a";
    var t := AfterOpen(EmptyTable(), files, "a").0;
    assert FirstFree(t, 0) == 1;
  }

  /** Opens of "" count up the first slot. */
  lemma {:induction false} EmptyOpens(s: seq<Option<Descriptor>>, files: seq<File>, k: nat)
    requires s != [] && s[0].Some? && 1 <= s[0].value.references && s[0].value.references + k <= 65535
    ensures var calls, d := seq(k, _ => Open("")), s[0].value;
      && AllAllowed(s, files, calls)
      && RunAll(s, files, calls) == s[0 := Some(Descriptor(d.header, d.references + k, d.size))]
    decreases k
  {
    var calls, d := seq(k, _ => Open("")), s[0].value;
    if k == 0 {
      assert s == s[0 := Some(Descriptor(d.header, d.references, d.size))];
    } else {
      var t := s[0 := Some(Descriptor(d.header, d.references + 1, d.size))];
      assert FirstOpen(s, 0) == 0 && After(s, files, calls[0]) == t;
      assert calls[1..] == seq(k - 1, _ => Open(""));
      EmptyOpens(t, files, k - 1);
    }
  }

  /** The next open of "" wraps a full count to 0. */
  lemma {:induction false} FullWraps(s: seq<Option<Descriptor>>, files: seq<File>)
    requires s != [] && s[0].Some? && s[0].value.references == 65535
    ensures Wraps(s, "") && var t := AfterOpen(s, files, "").0; t[0].Some? && Refs(t[0]) == 0
  {
    assert FirstOpen(s, 0) == 0;
  }

  /** One open of a file and 65534 of "" from the empty table: the next open of "" wraps the count to 0. */
  lemma {:induction false} CountWraps(files: seq<File>, path: string)
    requires path != "" && FirstNamed(files, path) < |files|
    ensures var calls := [Open(path)] + seq(65534, _ => Open(""));
      && AllAllowed(EmptyTable(), files, calls)
      && var s := RunAll(EmptyTable(), files, calls);
         && Counted(s) && Wraps(s, "")
         && var t := AfterOpen(s, files, "").0; t[0].Some? && Refs(t[0]) == 0
  {
    var e, n := EmptyTable(), 65534;
    var tail := seq(n, _ => Open(""));
    var calls := [Open(path)] + tail;
    var t := AfterOpen(e, files, path).0;
    assert calls[1..] == tail && After(e, files, calls[0]) == t;
    EmptyOpens(t, files, n);
    FullWraps(RunAll(t, files, tail), files);
  }

  /** The bytes that a read of nbytes at offset delivers. */
  function Chunk(content: string, nbytes: nat, offset: nat): (r: string)
    ensures |r| <= nbytes && (r == "" <==> nbytes == 0 || |content| <= offset)
  {
    if offset >= |content| then ""
    else if nbytes <= |content| - offset then content[offset..offset + nbytes] else content[offset..]
  }

  class Files {
    const disk: string
    const slots: array<Option<Descriptor>>
    ghost const files: seq<File>
    ghost const rest: string
    /** The archive entry behind each open slot. */
    ghost var entry: seq<nat>

    ghost predicate Valid()
      reads this, slots
    {
      && disk == Archive(files) + rest && AllReadable(files)
      && slots.Length == MAX_OPEN == |entry|
      && forall i :: 0 <= i < MAX_OPEN && slots[i].Some? ==> Backed(slots[i].value, entry[i])
    }

    ghost predicate Backed(d: Descriptor, k: nat) {
      k < |files| && d.header == OffsetOf(files, k) && d.size == |files[k].data|
    }

    constructor (disk: string, ghost files: seq<File>, ghost rest: string)
      requires disk == Archive(files) + rest && AllReadable(files)
      ensures Valid() && fresh(slots) && this.disk == disk && this.files == files && this.rest == rest
      ensures slots[..] == seq(MAX_OPEN, _ => None)
    {
      this.disk, this.files, this.rest := disk, files, rest;
      slots := new Option<Descriptor>[MAX_OPEN](_ => None);
      entry := seq(MAX_OPEN, _ => 0);
    }

    /** The zeroed buffer of is_already_open, with the prefix field in either branch. */
    method OpenName(pos: nat) returns (name: array<char>)
      requires pos + 512 <= |disk|
      ensures fresh(name) && name.Length == 256
      ensures disk[pos + 345] == NUL ==> name[0] == NUL
    {
      name := new char[256](_ => NUL);
      if disk[pos + 345] != NUL {
        KStrCpy(name, 0, disk, pos + 345, 155);
        KStrCpy(name, 155, disk, pos, 100);
      } else {
        KStrCpy(name, 0, disk, pos + 345, 155);
      }
    }

    method Matches(i: nat, path: string, ghost wanted: string) returns (same: bool)
      requires Valid() && i < MAX_OPEN && slots[i].Some? && Terminated(path, wanted)
      ensures same <==> wanted == ""
    {
      var pos := slots[i].value.header;
      HeaderAt(files, entry[i], rest);
      NameAt(disk, pos, files[entry[i]]);
      var name := OpenName(pos);
      assert name[..][..0] == "";
      same := KStrCmp(name, path, 256, "", wanted);
    }

    /** is_already_open; MAX_OPEN stands for -1. */
    method IsAlreadyOpen(path: string, ghost wanted: string) returns (i: nat)
      requires Valid() && Terminated(path, wanted)
      ensures i == Matching(slots[..], wanted)
    {
      i := 0;
      ghost var s := slots[..];
      while i < MAX_OPEN
        invariant i <= MAX_OPEN
        invariant wanted == "" ==> FirstOpen(s, 0) == FirstOpen(s, i)
      {
        if slots[i].Some? && slots[i].value.references > 0 {
          var same := Matches(i, path, wanted);
          if same {
            return;
          }
        }
        i := i + 1;
      }
    }

    /** find_open_id; MAX_OPEN stands for -1. */
    method FindOpenId() returns (i: nat)
      requires Valid()
      ensures i == FirstFree(slots[..], 0)
    {
      i := 0;
      ghost var s := slots[..];
      while i < MAX_OPEN
        invariant i <= MAX_OPEN && FirstFree(s, 0) == FirstFree(s, i)
      {
        if slots[i].None? {
          return;
        }
        i := i + 1;
      }
    }

    /** ustar_open; `path` carries its terminator. */
    method Open(path: string) returns (id: Option<nat>)
      requires Valid() && path != "" && Terminated(path, path[..|path| - 1])
      modifies this`entry, slots
      ensures Valid()
      ensures (slots[..], id) == AfterOpen(old(slots[..]), files, path[..|path| - 1])
      ensures id.Some? && path[..|path| - 1] != "" ==>
        old(slots[id.value]).None? && entry[id.value] == FirstNamed(files, path[..|path| - 1])
      ensures forall i :: 0 <= i < MAX_OPEN && id != Some(i) ==> entry[i] == old(entry[i])
    {
      ghost var wanted := path[..|path| - 1];
      var i := IsAlreadyOpen(path, wanted);
      if i < MAX_OPEN {
        SetReferences(i, (slots[i].value.references + 1) % 65536);
        return Some(i);
      }
      id := OpenSlot(path, wanted);
    }

    /** The second half of ustar_open: looks the file up and takes a slot for it. */
    method OpenSlot(path: string, ghost wanted: string) returns (id: Option<nat>)
      requires Valid() && path != "" && wanted == path[..|path| - 1] && Terminated(path, wanted)
      requires Matching(slots[..], wanted) == MAX_OPEN
      modifies this`entry, slots
      ensures Valid()
      ensures (slots[..], id) == AfterOpen(old(slots[..]), files, wanted)
      ensures id.Some? ==> old(slots[id.value]).None? && entry[id.value] == FirstNamed(files, wanted)
      ensures forall i :: 0 <= i < MAX_OPEN && id != Some(i) ==> entry[i] == old(entry[i])
    {
      var header := FileLookup(disk, path, files, rest);
      if header.None? {
        return None;
      }
      var free := FindOpenId();
      if free == MAX_OPEN {
        return None;
      }
      Fill(free, header.value, FirstNamed(files, wanted));
      return Some(free);
    }

    method Fill(free: nat, header: nat, ghost k: nat)
      requires Valid() && free < MAX_OPEN && k < |files| && header == OffsetOf(files, k)
      modifies this`entry, slots
      ensures Valid() && entry == old(entry)[free := k]
      ensures slots[..] == old(slots[..])[free := Some(Descriptor(header, 1, |files[k].data|))]
    {
      HeaderAt(files, k, rest);
      var size := FileSize(disk, header, files[k]);
      slots[free] := Some(Descriptor(header, 1, size));
      entry := entry[free := k];
    }

    /** ustar_close */
    method Close(id: nat)
      requires Valid() && id < MAX_OPEN && slots[id].Some?
      modifies slots
      ensures Valid() && slots[..] == AfterClose(old(slots[..]), id)
    {
      ghost var s := slots[..];
      var left := (slots[id].value.references + 65535) % 65536;
      SetReferences(id, left);
      if left < 1 {
        ClearSlot(id);
      }
      ClosedIs(s, id, left);
    }

    method ClearSlot(id: nat)
      requires Valid() && id < MAX_OPEN
      modifies slots
      ensures Valid() && slots[..] == old(slots[..])[id := None]
    {
      slots[id] := None;
    }

    method SetReferences(id: nat, references: nat)
      requires Valid() && id < MAX_OPEN && slots[id].Some?
      modifies slots
      ensures Valid()
      ensures var d := old(slots[id]).value;
        slots[..] == old(slots[..])[id := Some(Descriptor(d.header, references, d.size))]
    {
      slots[id] := Some(slots[id].value.(references := references));
    }

    /** ustar_read: exactly the bytes of the entry behind the id. */
    method Read(id: nat, buffer: array<char>, nbytes: nat, offset: nat) returns (n: nat)
      requires Valid() && id < MAX_OPEN
      requires slots[id].Some? ==> |Chunk(files[entry[id]].data, nbytes, offset)| <= buffer.Length
      requires buffer as object != slots as object
      modifies buffer
      ensures Valid() && n <= buffer.Length
      ensures buffer[..n] == if slots[id].Some? then Chunk(files[entry[id]].data, nbytes, offset) else ""
      ensures buffer[n..] == old(buffer[n..])
    {
      if slots[id].None? {
        return 0;
      }
      var size := slots[id].value.size;
      if offset > size {
        return 0;
      }
      ghost var data := files[entry[id]].data;
      var content := slots[id].value.header + 512;
      SlotData(id, content, data);
      n := Copy(buffer, content, size, nbytes, offset, data);
    }

    lemma SlotData(id: nat, content: nat, data: string)
      requires Valid() && id < MAX_OPEN && slots[id].Some?
      requires content == slots[id].value.header + 512 && data == files[entry[id]].data
      ensures slots[id].value.size == |data| && content + |data| <= |disk| && disk[content..content + |data|] == data
    {
      DataAt(files, entry[id], rest);
    }

    /** The copying loop of ustar_read. */
    method Copy(buffer: array<char>, content: nat, size: nat, nbytes: nat, offset: nat, ghost data: string)
      returns (n: nat)
      requires |data| == size && content + size <= |disk| && disk[content..content + size] == data && offset <= size
      requires |Chunk(data, nbytes, offset)| <= buffer.Length
      modifies buffer
      ensures n <= buffer.Length && buffer[..n] == Chunk(data, nbytes, offset) && buffer[n..] == old(buffer[n..])
    {
      n := 0;
      ghost var chunk := Chunk(data, nbytes, offset);
      while n < nbytes && n + offset < size
        invariant n <= |chunk|
        invariant forall i :: 0 <= i < buffer.Length ==> buffer[i] == if i < n then chunk[i] else old(buffer[i])
        decreases nbytes - n
      {
        assert disk[content..content + size][offset + n] == chunk[n];
        buffer[n] := disk[content + offset + n];
        n := n + 1;
      }
    }
  }
}
