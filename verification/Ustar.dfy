/** ustar.c and the string helpers of util.c, reading an archive in memory. */
module Ustar {
  import opened Outcomes
  import opened Tar

  function Power(x: int, y: nat): int { if y == 0 then 1 else x * Power(x, y - 1) }

  /** kpow */
  method KPow(x: int, y: nat) returns (result: int)
    ensures result == Power(x, y)
  {
    result := 1;
    var left: nat := y;
    while left != 0
      invariant left <= y && result * Power(x, left) == Power(x, y)
    {
      PowerStep(result, x, left);
      result := result * x;
      left := left - 1;
    }
  }

  lemma PowerStep(r: int, x: int, left: nat)
    requires left > 0
    ensures r * x * Power(x, left - 1) == r * Power(x, left)
  {
  }

  lemma {:induction false} PowerOfEight(k: nat)
    ensures Power(8, k) == Pow8(k)
  {
    if k > 0 { PowerOfEight(k - 1); }
  }

  /** oct_ascii_to_dec on a field of `size` bytes: the first digit and the last byte are skipped. */
  method OctAsciiToDec(number: string, size: nat) returns (result: nat)
    requires 4 <= size <= 23 && size - 1 <= |number| && forall i :: 1 <= i < size - 1 ==> IsOctal(number[i])
    ensures result == Value(number[1..size - 1])
  {
    result := 0;
    var at, left := 1, size - 3;
    while left != 0
      invariant 0 <= left && at + left == size - 2
      invariant result == Value(number[1..at]) * Pow8(left + 1)
    {
      result := AddDigit(number, size, at, left, result);
      at := at + 1;
      left := left - 1;
    }
    result := AddDigit(number, size, at, left, result);
  }

  /** One digit of oct_ascii_to_dec. */
  method AddDigit(number: string, ghost size: nat, at: nat, left: nat, so: nat) returns (result: nat)
    requires 1 <= at < size - 1 <= |number| && forall i :: 1 <= i < size - 1 ==> IsOctal(number[i])
    requires so == Value(number[1..at]) * Pow8(left + 1)
    ensures result == Value(number[1..at + 1]) * Pow8(left)
  {
    var power := KPow(8, left);
    PowerOfEight(left);
    ValueStep(number, size, at);
    var d := DigitValue(number[at]);
    Gather(Value(number[1..at]), d, power);
    result := so + d * power;
  }

  lemma Gather(v: nat, d: nat, p: nat)
    ensures v * (8 * p) + d * p == (8 * v + d) * p
  {
  }

  lemma ValueStep(number: string, size: nat, at: nat)
    requires 1 <= at < size - 1 <= |number| && forall i :: 1 <= i < size - 1 ==> IsOctal(number[i])
    ensures Value(number[1..at + 1]) == 8 * Value(number[1..at]) + DigitValue(number[at])
  {
    assert number[1..at + 1][..at - 1 + 1 - 1] == number[1..at];
  }

  /** The size field is read back modulo 8^10, so exactly when the size has at most ten octal digits. */
  lemma SizeRoundTripIff(n: nat)
    ensures Value(SizeField(n)[1..11]) == n % Pow8(10)
    ensures Value(SizeField(n)[1..11]) == n <==> n < Pow8(10)
  {
    assert SizeField(n)[1..11] == Digits(n, 11)[1..];
    LowDigits(n, 10, Pow8(10));
  }

  lemma LowDigits(n: nat, k: nat, p: nat)
    requires p == Pow8(k)
    ensures Value(Digits(n, k + 1)[1..]) == n % p
    ensures n % p == n <==> n < p
  {
    DigitsTail(n, k);
    ValueOfDigits(n, k);
    Small(n, p);
  }

  lemma Small(n: nat, p: nat)
    requires p > 0
    ensures n % p == n <==> n < p
  {
  }

  /** Position of the first NUL among the `size` characters from `from`, or size. */
  function StrLen(s: string, from: nat, size: nat): (n: nat)
    requires from + size <= |s|
    ensures n <= size && (n < size ==> s[from + n] == NUL) && forall j :: from <= j < from + n ==> s[j] != NUL
    decreases size
  {
    if size == 0 || s[from] == NUL then 0 else 1 + StrLen(s, from + 1, size - 1)
  }

  /** dest with the characters of src from `from` on, through the first NUL and at most `size`, put at `at`. */
  function Paste(dest: string, at: nat, src: string, from: nat, size: nat): (r: string)
    requires at + size <= |dest| && from + size <= |src|
    ensures |r| == |dest|
    ensures var n := StrLen(src, from, size);
      forall i :: 0 <= i < |dest| ==>
        r[i] == if at <= i <= at + n && i < at + size then src[from + i - at] else dest[i]
  {
    var n := StrLen(src, from, size);
    seq(|dest|, i requires 0 <= i < |dest| =>
      if at <= i <= at + n && i < at + size then src[from + i - at] else dest[i])
  }

  /** kstrcpy */
  method KStrCpy(dest: array<char>, at: nat, src: string, from: nat, size: nat)
    requires at + size <= dest.Length && from + size <= |src|
    modifies dest
    ensures dest[..] == Paste(old(dest[..]), at, src, from, size)
  {
    ghost var n := StrLen(src, from, size);
    var i := 0;
    while i < size
      invariant i <= size && i <= n
      invariant forall j :: 0 <= j < dest.Length ==>
        dest[j] == if at <= j < at + i then src[from + j - at] else old(dest[j])
    {
      dest[at + i] := src[from + i];
      if src[from + i] == NUL {
        return;
      }
      i := i + 1;
    }
  }

  /** str, terminated, starts s. */
  ghost predicate Terminated(s: string, str: string) {
    |str| < |s| && s[..|str|] == str && s[|str|] == NUL && forall i :: 0 <= i < |str| ==> str[i] != NUL
  }

  /** How many characters kstrcmp compares at most: a `len` of 0 wraps to 2^32. */
  function Limit(len: nat): nat { if len == 0 then 0x1_0000_0000 else len }

  /** kstrcmp: equal strings, or strings that agree as far as the comparison goes. */
  method KStrCmp(a: array<char>, b: string, len: nat, ghost x: string, ghost y: string) returns (r: bool)
    requires len < 0x1_0000_0000 && Terminated(a[..], x) && Terminated(b, y)
    ensures var limit := Limit(len);
      r <==> x == y || (limit <= |x| && limit <= |y| && x[..limit] == y[..limit])
  {
    var i, left := 0, len;
    ghost var limit := Limit(len);
    assert forall k :: 0 <= k < |x| ==> a[k] == x[k];
    assert forall k :: 0 <= k < |y| ==> b[k] == y[k];
    while a[i] != NUL && b[i] != NUL
      invariant i <= |x| && i <= |y| && i < limit && x[..i] == y[..i]
      invariant left == if i == 0 then len else limit - i
      decreases |x| - i
    {
      assert i < |x| && i < |y|;
      if a[i] != b[i] {
        assert x[i] != y[i];
        return false;
      }
      assert x[..i + 1] == y[..i + 1];
      i := i + 1;
      if left == 1 {
        return true;
      }
      left := if left == 0 then 0xffff_ffff else left - 1;
    }
    if a[i] == NUL && b[i] == NUL {
      assert i == |x| == |y| && x == x[..i] && y == y[..i];
      return true;
    }
    return false;
  }

  /** is_zeroed */
  method IsZeroed(disk: string, pos: nat) returns (zero: bool)
    requires pos + 512 <= |disk|
    ensures zero <==> forall i :: pos <= i < pos + 512 ==> disk[i] == NUL
  {
    for i := 0 to 512
      invariant forall j :: pos <= j < pos + i ==> disk[j] == NUL
    {
      if disk[pos + i] != NUL {
        return false;
      }
    }
    return true;
  }

  /** The loop of tar_file_lookup that turns backslashes round. */
  method TurnBackslashes(buffer: array<char>)
    requires buffer.Length == 256
    modifies buffer
    ensures forall i :: 0 <= i < 256 ==> buffer[i] == if i < 255 && old(buffer[i]) == '\\' then '/' else old(buffer[i])
  {
    for i := 0 to 255
      invariant forall j :: 0 <= j < 256 ==>
        buffer[j] == if j < i && old(buffer[j]) == '\\' then '/' else old(buffer[j])
    {
      if buffer[i] == '\\' {
        buffer[i] := '/';
      }
    }
  }

  /** The file name field, or the prefix field and after its 155 characters the file name field. */
  method CopyName(name: array<char>, disk: string, pos: nat)
    requires name.Length == 256 && pos + 512 <= |disk|
    modifies name
    ensures name[..] ==
      if disk[pos + 345] != NUL then Paste(Paste(old(name[..]), 0, disk, pos + 345, 155), 155, disk, pos, 100)
      else Paste(old(name[..]), 0, disk, pos, 155)
  {
    if disk[pos + 345] != NUL {
      KStrCpy(name, 0, disk, pos + 345, 155);
      KStrCpy(name, 155, disk, pos, 100);
    } else {
      KStrCpy(name, 0, disk, pos, 155);
    }
  }

  /** The name that tar_file_lookup compares: the terminated file name, backslashes turned round. */
  method ReadName(disk: string, pos: nat, ghost f: File) returns (name: array<char>)
    requires Readable(f) && pos + 512 <= |disk| && disk[pos..pos + 512] == Header(f)
    ensures fresh(name) && name.Length == 256 && Terminated(name[..], Normal(f.name))
  {
    name := new char[256];
    NameAt(disk, pos, f);
    NamePasted(name[..], disk, pos, f);
    CopyName(name, disk, pos);
    TurnBackslashes(name);
    NormalTerminated(name[..], f);
  }

  lemma NamePasted(buffer: string, disk: string, pos: nat, f: File)
    requires Readable(f) && pos + 512 <= |disk| && disk[pos..pos + 512] == Header(f) && |buffer| == 256
    ensures var r := Paste(buffer, 0, disk, pos, 155);
      r[|f.name|] == NUL && forall i :: 0 <= i < |f.name| ==> r[i] == f.name[i]
  {
    NameAt(disk, pos, f);
  }

  lemma NormalTerminated(s: string, f: File)
    requires Readable(f) && |s| == 256 && s[|f.name|] == NUL
    requires forall i :: 0 <= i < |f.name| ==> s[i] == if f.name[i] == '\\' then '/' else f.name[i]
    ensures Terminated(s, Normal(f.name))
  {
  }

  /** The comparison of tar_file_lookup. */
  method SameName(disk: string, pos: nat, path: string, ghost f: File, ghost wanted: string) returns (same: bool)
    requires Readable(f) && pos + 512 <= |disk| && disk[pos..pos + 512] == Header(f) && Terminated(path, wanted)
    ensures same <==> Normal(f.name) == wanted
  {
    var name := ReadName(disk, pos, f);
    same := KStrCmp(name, path, 256, Normal(f.name), wanted);
  }

  lemma {:induction false} NameAt(disk: string, pos: nat, f: File)
    requires Readable(f) && pos + 512 <= |disk| && disk[pos..pos + 512] == Header(f)
    ensures StrLen(disk, pos, 155) == |f.name| && disk[pos + |f.name|] == NUL && disk[pos + 345] == NUL
    ensures forall i :: 0 <= i < |f.name| ==> disk[pos + i] == f.name[i]
  {
    HeaderLayout(f);
    var header := disk[pos..pos + 512];
    assert disk[pos + 345] == header[345] && disk[pos + |f.name|] == header[|f.name|];
    forall i | 0 <= i < |f.name|
      ensures disk[pos + i] == f.name[i]
    {
      assert disk[pos + i] == header[i] == Header(f)[..|f.name|][i];
    }
    FirstNul(disk, pos, 155, f.name);
  }

  lemma {:induction false} FirstNul(s: string, from: nat, size: nat, name: string)
    requires from + size <= |s| && |name| < size && s[from + |name|] == NUL
    requires forall i :: 0 <= i < |name| ==> s[from + i] == name[i] != NUL
    ensures StrLen(s, from, size) == |name|
    decreases size
  {
    if name != "" {
      assert s[from + 0] == name[0];
      assert forall i :: 0 <= i < |name| - 1 ==> s[from + 1 + i] == name[1..][i];
      FirstNul(s, from + 1, size - 1, name[1..]);
    }
  }

  ghost predicate AllReadable(files: seq<File>) { forall i :: 0 <= i < |files| ==> Readable(files[i]) }

  /** Reads the size field of the record at pos and steps over the record. */
  method NextRecord(disk: string, pos: nat, ghost f: File) returns (next: nat)
    requires Readable(f) && pos + 512 <= |disk| && disk[pos..pos + 512] == Header(f)
    ensures next == pos + |Record(f)|
  {
    var size := FileSize(disk, pos, f);
    RecordLayout(f);
    Padded(size);
    if size % 512 != 0 {
      size := (size / 512 + 1) * 512;
    }
    next := pos + 512 + size;
  }

  method FileSize(disk: string, pos: nat, ghost f: File) returns (size: nat)
    requires Readable(f) && pos + 512 <= |disk| && disk[pos..pos + 512] == Header(f)
    ensures size == |f.data|
  {
    HeaderLayout(f);
    var header := disk[pos..pos + 512];
    size := OctAsciiToDec(header[124..136], 12);
    SizeRoundTripIff(|f.data|);
  }

  lemma HeaderAt(files: seq<File>, i: nat, rest: string)
    requires i < |files| && AllReadable(files)
    ensures var disk, pos := Archive(files) + rest, OffsetOf(files, i);
      && pos + 512 <= |disk| && disk[pos..pos + 512] == Header(files[i])
      && pos + |Record(files[i])| == OffsetOf(files, i + 1)
  {
    RecordAt(files, i, rest);
    RecordLayout(files[i]);
    Within(Archive(files) + rest, OffsetOf(files, i), Record(files[i]), 0, 512);
  }

  lemma EndAt(files: seq<File>, rest: string)
    ensures var disk, pos := Archive(files) + rest, OffsetOf(files, |files|);
      pos + 512 <= |disk| && forall i :: pos <= i < pos + 512 ==> disk[i] == NUL
  {
    assert files[..|files|] == files;
  }

  /** No header is taken for the end of the archive. */
  lemma NotZeroed(files: seq<File>, i: nat, rest: string)
    requires i < |files| && AllReadable(files)
    ensures var disk, pos := Archive(files) + rest, OffsetOf(files, i); pos < |disk| && disk[pos] != NUL
  {
    HeaderAt(files, i, rest);
    HeaderLayout(files[i]);
    var disk, pos := Archive(files) + rest, OffsetOf(files, i);
    assert disk[pos..pos + 512][0] == Header(files[i])[..|files[i].name|][0];
  }

  /** tar_file_lookup: the header of the first file with that path, or None. `path` carries its terminator. */
  method FileLookup(disk: string, path: string, ghost files: seq<File>, ghost rest: string) returns (r: Option<nat>)
    requires disk == Archive(files) + rest && AllReadable(files)
    requires path != "" && Terminated(path, path[..|path| - 1])
    ensures var k := FirstNamed(files, path[..|path| - 1]);
      r == if k < |files| then Some(OffsetOf(files, k)) else None
  {
    var pos, zeros := 0, 0;
    ghost var i, wanted := 0, path[..|path| - 1];
    assert files[..0] == [];
    while zeros < 2
      invariant i <= |files| && pos == OffsetOf(files, i) && 0 <= zeros && (zeros > 0 ==> i == |files|)
      invariant forall j :: 0 <= j < i ==> Normal(files[j].name) != wanted
      decreases |files| - i, 2 - zeros
    {
      var zero := AtEnd(disk, pos, files, i, rest);
      if zero {
        zeros := zeros + 1;
        continue;
      }
      zeros := 0;
      var same, next := CheckRecord(disk, pos, path, files, i, rest, wanted);
      if same {
        return Some(pos);
      }
      pos := next;
      i := i + 1;
    }
    return None;
  }

  /** is_zeroed tells the end of the archive from its records. */
  method AtEnd(disk: string, pos: nat, ghost files: seq<File>, ghost i: nat, ghost rest: string) returns (zero: bool)
    requires disk == Archive(files) + rest && AllReadable(files) && i <= |files| && pos == OffsetOf(files, i)
    ensures zero <==> i == |files|
  {
    if i < |files| {
      HeaderAt(files, i, rest);
      NotZeroed(files, i, rest);
    } else {
      EndAt(files, rest);
    }
    zero := IsZeroed(disk, pos);
  }

  /** The rest of one turn of tar_file_lookup: compares the name and finds the next record. */
  method CheckRecord(disk: string, pos: nat, path: string, ghost files: seq<File>, ghost i: nat, ghost rest: string,
                     ghost wanted: string)
    returns (same: bool, next: nat)
    requires disk == Archive(files) + rest && AllReadable(files) && i < |files| && pos == OffsetOf(files, i)
    requires Terminated(path, wanted)
    ensures (same <==> Normal(files[i].name) == wanted) && (!same ==> next == OffsetOf(files, i + 1))
  {
    HeaderAt(files, i, rest);
    same := SameName(disk, pos, path, files[i], wanted);
    next := pos;
    if !same {
      next := NextRecord(disk, pos, files[i]);
    }
  }

  /** The contents of record i follow its header. */
  lemma DataAt(files: seq<File>, i: nat, rest: string)
    requires i < |files| && AllReadable(files)
    ensures var disk, start, data := Archive(files) + rest, OffsetOf(files, i) + 512, files[i].data;
      start + |data| <= |disk| && disk[start..start + |data|] == data
  {
    RecordAt(files, i, rest);
    RecordLayout(files[i]);
    Within(Archive(files) + rest, OffsetOf(files, i), Record(files[i]), 512, |files[i].data|);
  }

  lemma Within(disk: string, pos: nat, record: string, from: nat, n: nat)
    requires pos + |record| <= |disk| && disk[pos..pos + |record|] == record && from + n <= |record|
    ensures disk[pos + from..pos + from + n] == record[from..from + n]
  {
    var slice, part := disk[pos + from..pos + from + n], record[from..from + n];
    forall i | 0 <= i < n
      ensures slice[i] == part[i]
    {
      assert disk[pos..pos + |record|][from + i] == disk[pos + (from + i)];
    }
    assert slice == part;
  }
}
