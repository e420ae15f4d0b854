/** The ustar interchange format as a pure serializer, and the octal size field. */
module Tar {

  const NUL: char := '\0'

  /** A regular file; owner and tail stand for the header fields that the kernel never reads. */
  datatype File = File(name: string, data: string, owner: string, tail: string)

  function Zeros(n: nat): (s: string)
    ensures |s| == n && forall i :: 0 <= i < n ==> s[i] == NUL
  {
    seq(n, _ => NUL)
  }

  function Pow8(k: nat): (r: nat)
    ensures r > 0
  {
    if k == 0 then 1 else 8 * Pow8(k - 1)
  }

  function OctalDigit(d: nat): char
    requires d < 8
  {
    ['0', '1', '2', '3', '4', '5', '6', '7'][d]
  }

  predicate IsOctal(c: char) { '0' <= c <= '7' }

  /** The k low octal digits of n, most significant first. */
  function Digits(n: nat, k: nat): (s: string)
    ensures |s| == k && forall i :: 0 <= i < k ==> IsOctal(s[i])
  {
    if k == 0 then "" else Digits(n / 8, k - 1) + [OctalDigit(n % 8)]
  }

  function DigitValue(c: char): (d: nat)
    requires IsOctal(c)
    ensures d < 8 && OctalDigit(d) == c
  {
    c as int - '0' as int
  }

  function Value(s: string): nat
    requires forall i :: 0 <= i < |s| ==> IsOctal(s[i])
  {
    if s == "" then 0 else 8 * Value(s[..|s| - 1]) + DigitValue(s[|s| - 1])
  }

  lemma {:induction false} ValueOfDigits(n: nat, k: nat)
    ensures Value(Digits(n, k)) == n % Pow8(k)
  {
    if k > 0 {
      ValueOfDigits(n / 8, k - 1);
      LastDigit(n, k);
      Combine(n, Pow8(k - 1), Value(Digits(n / 8, k - 1)), Value(Digits(n, k)));
    }
  }

  lemma LastDigit(n: nat, k: nat)
    requires k > 0
    ensures Value(Digits(n, k)) == 8 * Value(Digits(n / 8, k - 1)) + n % 8
  {
    var s := Digits(n, k);
    assert s[..k - 1] == Digits(n / 8, k - 1) && s[k - 1] == OctalDigit(n % 8);
  }

  lemma Combine(n: nat, p: nat, high: nat, all: nat)
    requires p > 0 && high == n / 8 % p && all == 8 * high + n % 8
    ensures all == n % (8 * p)
  {
    ModStep(n, p);
  }

  lemma ModStep(n: nat, p: nat)
    requires p > 0
    ensures 8 * (n / 8 % p) + n % 8 == n % (8 * p)
  {
    var q, r := n / 8 / p, n / 8 % p;
    assert n / 8 == q * p + r;
    var x := 8 * r + n % 8;
    assert n == q * (8 * p) + x && 0 <= x < 8 * p;
    var e := n / (8 * p) - q;
    assert n % (8 * p) == x - e * (8 * p);
    assert e >= 1 ==> e * (8 * p) >= 8 * p;
    assert e <= -1 ==> e * (8 * p) + 8 * p <= 0;
  }

  lemma {:induction false} DigitsTail(n: nat, k: nat)
    ensures Digits(n, k + 1)[1..] == Digits(n, k)
  {
    if k > 0 {
      DigitsTail(n / 8, k - 1);
      assert Digits(n, k + 1)[1..] == Digits(n / 8, k)[1..] + [OctalDigit(n % 8)];
    }
  }

  /** The size field: eleven digits and a terminator. */
  function SizeField(n: nat): (s: string)
    ensures |s| == 12
  {
    Digits(n, 11) + [NUL]
  }

  function Header(f: File): string {
    f.name + Zeros(if |f.name| <= 100 then 100 - |f.name| else 0) + f.owner + SizeField(|f.data|) + f.tail
  }

  /** Bytes of padding that bring n to a multiple of 512. */
  function Padding(n: nat): nat { (512 - n % 512) % 512 }

  function Record(f: File): string { Header(f) + f.data + Zeros(Padding(|f.data|)) }

  function Records(files: seq<File>): string {
    if files == [] then "" else Records(files[..|files| - 1]) + Record(files[|files| - 1])
  }

  /** An archive ends with two zero blocks. */
  function Archive(files: seq<File>): string { Records(files) + Zeros(1024) }

  /** What the reader expects of a file: a short name without NUL, no prefix field, and a size of at most ten digits. */
  ghost predicate Readable(f: File) {
    && 1 <= |f.name| <= 99 && (forall i :: 0 <= i < |f.name| ==> f.name[i] != NUL)
    && |f.owner| == 24 && |f.tail| == 376 && f.tail[209] == NUL
    && |f.data| < Pow8(10)
  }

  function OffsetOf(files: seq<File>, i: nat): nat
    requires i <= |files|
  {
    |Records(files[..i])|
  }

  /** The name as tar_file_lookup compares it. */
  function Normal(name: string): (r: string)
    ensures |r| == |name|
  {
    seq(|name|, i requires 0 <= i < |name| => if name[i] == '\\' then '/' else name[i])
  }

  /** The first file with the given path. */
  function FirstNamed(files: seq<File>, path: string): (k: nat)
    ensures k <= |files| && (k < |files| ==> Normal(files[k].name) == path)
    ensures forall i :: 0 <= i < k ==> Normal(files[i].name) != path
  {
    if files == [] then 0
    else if Normal(files[0].name) == path then 0
    else 1 + FirstNamed(files[1..], path)
  }

  lemma HeaderLayout(f: File)
    requires Readable(f)
    ensures |Header(f)| == 512
    ensures Header(f)[..|f.name|] == f.name && Header(f)[|f.name|] == NUL
    ensures Header(f)[124..136] == SizeField(|f.data|) && Header(f)[345] == NUL
  {
  }

  lemma RecordLayout(f: File)
    requires Readable(f)
    ensures |Record(f)| == 512 + |f.data| + Padding(|f.data|) && |Record(f)| % 512 == 0
    ensures Record(f)[..512] == Header(f) && Record(f)[512..512 + |f.data|] == f.data
  {
    HeaderLayout(f);
    RecordShape(Header(f), f.data);
  }

  lemma RecordShape(header: string, data: string)
    requires |header| == 512
    ensures var r := header + data + Zeros(Padding(|data|));
      && |r| == 512 + |data| + Padding(|data|) && |r| % 512 == 0
      && r[..512] == header && r[512..512 + |data|] == data
  {
    Padded(|data|);
    ThreeParts(header, data, Zeros(Padding(|data|)));
  }

  lemma ThreeParts(a: string, b: string, c: string)
    ensures (a + b + c)[..|a|] == a && (a + b + c)[|a|..|a| + |b|] == b
  {
  }

  lemma Padded(n: nat)
    ensures (n + Padding(n)) % 512 == 0
    ensures n + Padding(n) == if n % 512 != 0 then (n / 512 + 1) * 512 else n
  {
    PaddedAt(n, n / 512, n % 512);
  }

  lemma PaddedAt(n: nat, q: nat, r: nat)
    requires n == 512 * q + r && r < 512 && r == n % 512
    ensures n + Padding(n) == if r != 0 then 512 * (q + 1) else 512 * q
  {
  }

  /** Record i of an archive, whatever follows the archive. */
  lemma {:induction false} RecordAt(files: seq<File>, i: nat, rest: string)
    requires i < |files|
    ensures var disk := Archive(files) + rest;
      OffsetOf(files, i) + |Record(files[i])| == OffsetOf(files, i + 1) <= |Records(files)|
      && disk[OffsetOf(files, i)..OffsetOf(files, i + 1)] == Record(files[i])
  {
    PrefixRecords(files, i + 1);
    assert files[..i + 1][..i] == files[..i] && files[..i + 1][i] == files[i];
    assert Records(files[..i + 1]) == Records(files[..i]) + Record(files[i]);
    var disk := Archive(files) + rest;
    assert disk[..OffsetOf(files, i + 1)] == Records(files[..i + 1]);
    assert disk[OffsetOf(files, i)..OffsetOf(files, i + 1)] == Records(files[..i + 1])[OffsetOf(files, i)..];
  }

  lemma {:induction false} PrefixRecords(files: seq<File>, i: nat)
    requires i <= |files|
    ensures |Records(files[..i])| <= |Records(files)| && Records(files)[..|Records(files[..i])|] == Records(files[..i])
    decreases |files|
  {
    if i == |files| {
      assert files[..i] == files;
    } else {
      var init := files[..|files| - 1];
      PrefixRecords(init, i);
      assert init[..i] == files[..i];
    }
  }
}
