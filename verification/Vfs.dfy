/** vfs.c: the read cursor of an open descriptor. */
module Vfs {
  import opened OpenFiles

  /** fs_file_id of a closed descriptor, -1 as an unsigned 64-bit word. */
  const CLOSED: nat := 0xffff_ffff_ffff_ffff

  datatype Handle = Handle(fsFileId: nat, readPos: nat)

  class Table {
    const fs: Files
    const handles: array<Handle>

    ghost predicate Valid()
      reads this, handles, fs, fs.slots
    {
      && fs.Valid() && handles as object != fs.slots as object
      && forall i :: 0 <= i < handles.Length ==> handles[i].fsFileId < MAX_OPEN || handles[i].fsFileId == CLOSED
    }

    constructor (fs: Files, handles: array<Handle>)
      requires fs.Valid() && handles as object != fs.slots as object
      requires forall i :: 0 <= i < handles.Length ==> handles[i].fsFileId < MAX_OPEN || handles[i].fsFileId == CLOSED
      ensures Valid() && this.fs == fs && this.handles == handles
    {
      this.fs, this.handles := fs, handles;
    }

    /** What the descriptor reads from: nothing once it is closed. */
    ghost function Content(fd: nat): string
      requires Valid() && fd < handles.Length
      reads this, handles, fs, fs.slots
    {
      var id := handles[fd].fsFileId;
      if id < MAX_OPEN && fs.slots[id].Some? then fs.files[fs.entry[id]].data else ""
    }

    /** vfs_read: the next bytes from the cursor, which moves past them; no other descriptor changes. */
    method Read(fd: nat, buffer: array<char>, nbytes: nat) returns (n: nat)
      requires Valid() && fd < handles.Length
      requires buffer as object != fs.slots as object && buffer as object != handles as object
      requires |Chunk(Content(fd), nbytes, handles[fd].readPos)| <= buffer.Length
      modifies buffer, handles
      ensures Valid() && n <= buffer.Length && Content(fd) == old(Content(fd))
      ensures buffer[..n] == Chunk(Content(fd), nbytes, old(handles[fd]).readPos) && buffer[n..] == old(buffer[n..])
      ensures Moved(old(handles[..]), handles[..], fd, n)
    {
      if handles[fd].fsFileId == CLOSED {
        return 0;
      }
      n := fs.Read(handles[fd].fsFileId, buffer, nbytes, handles[fd].readPos);
      if n == 0 {
        return 0;
      }
      handles[fd] := Handle(handles[fd].fsFileId, handles[fd].readPos + n);
    }
  }

  ghost function Sum(sizes: seq<nat>): nat {
    if sizes == [] then 0 else sizes[0] + Sum(sizes[1..])
  }

  /** What successive reads of the given sizes deliver together, the cursor moving as Read moves it. */
  ghost function Stream(content: string, pos: nat, sizes: seq<nat>): string
    decreases |sizes|
  {
    if sizes == [] then ""
    else var chunk := Chunk(content, sizes[0], pos); chunk + Stream(content, pos + |chunk|, sizes[1..])
  }

  /** The cursor after one read, and after reads of the given sizes. */
  ghost function Advance(length: nat, pos: nat, nbytes: nat): (r: nat)
    requires pos <= length
    ensures pos <= r <= length
  {
    if pos + nbytes <= length then pos + nbytes else length
  }

  ghost function Cursor(length: nat, pos: nat, sizes: seq<nat>): (r: nat)
    requires pos <= length
    ensures pos <= r <= length
    decreases |sizes|
  {
    if sizes == [] then pos else Cursor(length, Advance(length, pos, sizes[0]), sizes[1..])
  }

  lemma ChunkIsSlice(content: string, nbytes: nat, pos: nat)
    requires pos <= |content|
    ensures Chunk(content, nbytes, pos) == content[pos..Advance(|content|, pos, nbytes)]
  {
  }

  lemma {:induction false} StreamIsSlice(content: string, pos: nat, sizes: seq<nat>)
    requires pos <= |content|
    ensures Stream(content, pos, sizes) == content[pos..Cursor(|content|, pos, sizes)]
    decreases |sizes|
  {
    if sizes != [] {
      var next, end := Advance(|content|, pos, sizes[0]), Cursor(|content|, pos, sizes);
      StreamStep(content, pos, sizes, next);
      StreamIsSlice(content, next, sizes[1..]);
      SliceJoin(content, pos, next, end);
    }
  }

  lemma {:induction false} StreamStep(content: string, pos: nat, sizes: seq<nat>, next: nat)
    requires sizes != [] && pos <= |content| && next == Advance(|content|, pos, sizes[0])
    ensures Stream(content, pos, sizes) == content[pos..next] + Stream(content, next, sizes[1..])
  {
    var chunk, tail := Chunk(content, sizes[0], pos), Stream(content, next, sizes[1..]);
    ChunkIsSlice(content, sizes[0], pos);
    StreamUnfold(content, pos, sizes, chunk, tail);
  }

  lemma {:induction false} StreamUnfold(content: string, pos: nat, sizes: seq<nat>, chunk: string, tail: string)
    requires sizes != [] && chunk == Chunk(content, sizes[0], pos)
    requires tail == Stream(content, pos + |chunk|, sizes[1..])
    ensures Stream(content, pos, sizes) == chunk + tail
  {
  }

  lemma SliceJoin(content: string, a: nat, b: nat, c: nat)
    requires a <= b <= c <= |content|
    ensures content[a..b] + content[b..c] == content[a..c]
  {
  }

  lemma {:induction false} CursorSum(length: nat, pos: nat, sizes: seq<nat>)
    requires pos <= length
    ensures Cursor(length, pos, sizes) == Advance(length, pos, Sum(sizes))
    decreases |sizes|
  {
    if sizes != [] {
      CursorSum(length, Advance(length, pos, sizes[0]), sizes[1..]);
    }
  }

  /** However a file is cut into reads, they deliver its contents in order, each byte once. */
  lemma {:induction false} ReadsConcatenate(content: string, pos: nat, sizes: seq<nat>)
    requires pos <= |content|
    ensures Stream(content, pos, sizes) == Chunk(content, Sum(sizes), pos)
  {
    StreamIsSlice(content, pos, sizes);
    CursorSum(|content|, pos, sizes);
    ChunkIsSlice(content, Sum(sizes), pos);
  }

  /** Reads that ask for at least the whole file deliver exactly the file. */
  lemma {:induction false} WholeFile(content: string, sizes: seq<nat>)
    requires |content| <= Sum(sizes)
    ensures Stream(content, 0, sizes) == content
  {
    ReadsConcatenate(content, 0, sizes);
  }

  /** The cursor of descriptor fd has moved n bytes on, and no other. */
  ghost predicate Moved(was: seq<Handle>, now: seq<Handle>, fd: nat, n: nat) {
    && |now| == |was| && fd < |was| && now[fd] == Handle(was[fd].fsFileId, was[fd].readPos + n)
    && forall i :: 0 <= i < |was| && i != fd ==> now[i] == was[i]
  }

  lemma MovedOn(a: seq<Handle>, b: seq<Handle>, c: seq<Handle>, fd: nat, m: nat, n: nat)
    requires Moved(a, b, fd, m) && Moved(b, c, fd, n)
    ensures Moved(a, c, fd, m + n)
  {
  }

  /** One vfs_read into a buffer of its own. */
  method ReadSome(t: Table, fd: nat, nbytes: nat) returns (chunk: string)
    requires t.Valid() && fd < t.handles.Length
    modifies t.handles
    ensures t.Valid() && t.Content(fd) == old(t.Content(fd))
    ensures chunk == Chunk(t.Content(fd), nbytes, old(t.handles[fd]).readPos)
    ensures Moved(old(t.handles[..]), t.handles[..], fd, |chunk|)
  {
    var buffer := new char[nbytes];
    var n := t.Read(fd, buffer, nbytes);
    chunk := buffer[..n];
  }

  /** One more of a series of reads. */
  method ReadNext(t: Table, fd: nat, sizes: seq<nat>, i: nat, so: string, ghost content: string, ghost was: seq<Handle>)
    returns (got: string)
    requires t.Valid() && fd < t.handles.Length && t.Content(fd) == content && i < |sizes|
    requires Moved(was, t.handles[..], fd, |so|) && Served(content, was[fd].readPos, sizes, i, so)
    modifies t.handles
    ensures t.Valid() && t.Content(fd) == content
    ensures Moved(was, t.handles[..], fd, |got|) && Served(content, was[fd].readPos, sizes, i + 1, got)
  {
    ghost var before := t.handles[..];
    assert before[fd].readPos == was[fd].readPos + |so|;
    var chunk := ReadSome(t, fd, sizes[i]);
    MovedOn(was, before, t.handles[..], fd, |so|, |chunk|);
    ServedNext(content, was[fd].readPos, sizes, i, so, chunk);
    got := so + chunk;
  }

  /** Successive vfs_read calls deliver together the next bytes of the file, as many as they ask for or it has left. */
  method ReadSeries(t: Table, fd: nat, sizes: seq<nat>) returns (got: string)
    requires t.Valid() && fd < t.handles.Length && t.handles[fd].readPos <= |t.Content(fd)|
    modifies t.handles
    ensures t.Valid() && t.Content(fd) == old(t.Content(fd))
    ensures got == Chunk(t.Content(fd), Sum(sizes), old(t.handles[fd]).readPos)
    ensures Moved(old(t.handles[..]), t.handles[..], fd, |got|)
  {
    got := "";
    ghost var content, start, was := t.Content(fd), t.handles[fd].readPos, t.handles[..];
    ServedNone(content, start, sizes);
    for i := 0 to |sizes|
      invariant t.Valid() && t.Content(fd) == content && Served(content, start, sizes, i, got)
      invariant Moved(was, t.handles[..], fd, |got|)
    {
      got := ReadNext(t, fd, sizes, i, got, content, was);
    }
    ServedAll(content, start, sizes, got);
  }

  /** The first i reads have delivered `got`, and the others will end where all of them should. */
  ghost predicate Served(content: string, start: nat, sizes: seq<nat>, i: nat, got: string) {
    && i <= |sizes| && start + |got| <= |content| && got == content[start..start + |got|]
    && Cursor(|content|, start + |got|, sizes[i..]) == Cursor(|content|, start, sizes)
  }

  lemma ServedNone(content: string, start: nat, sizes: seq<nat>)
    requires start <= |content|
    ensures Served(content, start, sizes, 0, "")
  {
    assert sizes[0..] == sizes;
  }

  lemma ServedNext(content: string, start: nat, sizes: seq<nat>, i: nat, got: string, chunk: string)
    requires Served(content, start, sizes, i, got) && i < |sizes|
    requires chunk == Chunk(content, sizes[i], start + |got|)
    ensures Served(content, start, sizes, i + 1, got + chunk)
  {
    var pos := start + |got|;
    var next := Advance(|content|, pos, sizes[i]);
    ChunkIsSlice(content, sizes[i], pos);
    SliceJoin(content, start, pos, next);
    assert sizes[i..][1..] == sizes[i + 1..];
    assert |got + chunk| == next - start;
  }

  lemma {:induction false} ServedAll(content: string, start: nat, sizes: seq<nat>, got: string)
    requires Served(content, start, sizes, |sizes|, got)
    ensures got == Chunk(content, Sum(sizes), start)
  {
    assert sizes[|sizes|..] == [];
    CursorSum(|content|, start, sizes);
    ChunkIsSlice(content, Sum(sizes), start);
  }
}
