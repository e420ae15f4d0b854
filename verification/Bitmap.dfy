/** bitmap.h: one bit per page, eight to a byte, updated in place. */
module Bitmap {

  predicate Test(b: bv8, k: nat)
    requires k < 8
  {
    b & (1 << k) != 0
  }

  /** Setting or clearing bit j of a byte changes that bit and no other. */
  lemma ByteUpdate(b: bv8, j: nat, k: nat)
    requires j < 8 && k < 8
    ensures Test(b | (1 << j), k) <==> k == j || Test(b, k)
    ensures Test(b & !(1 << j), k) <==> k != j && Test(b, k)
  {
    Power(j);
    Power(k);
  }

  lemma Power(k: nat)
    requires k < 8
    ensures (1 as bv8) << k == match k
      case 0 => 1 case 1 => 2 case 2 => 4 case 3 => 8
      case 4 => 16 case 5 => 32 case 6 => 64 case _ => 128
  {
  }

  predicate BitAt(bytes: seq<bv8>, i: nat)
    requires i < 8 * |bytes|
  {
    Test(bytes[i / 8], i % 8)
  }

  /** The page set that the bytes stand for, as a bit sequence. */
  function Bits(bytes: seq<bv8>): (s: seq<bool>)
    ensures |s| == 8 * |bytes|
  {
    seq(8 * |bytes|, i requires 0 <= i < 8 * |bytes| => BitAt(bytes, i))
  }

  lemma SetRefines(bytes: seq<bv8>, bit: nat)
    requires bit < 8 * |bytes|
    ensures Bits(bytes[bit / 8 := bytes[bit / 8] | (1 << (bit % 8))]) == Bits(bytes)[bit := true]
  {
    var bytes' := bytes[bit / 8 := bytes[bit / 8] | (1 << (bit % 8))];
    forall i | 0 <= i < 8 * |bytes|
      ensures BitAt(bytes', i) <==> i == bit || BitAt(bytes, i)
    {
      if i / 8 == bit / 8 {
        ByteUpdate(bytes[bit / 8], bit % 8, i % 8);
      }
    }
  }

  lemma ClearRefines(bytes: seq<bv8>, bit: nat)
    requires bit < 8 * |bytes|
    ensures Bits(bytes[bit / 8 := bytes[bit / 8] & !(1 << (bit % 8))]) == Bits(bytes)[bit := false]
  {
    var bytes' := bytes[bit / 8 := bytes[bit / 8] & !(1 << (bit % 8))];
    forall i | 0 <= i < 8 * |bytes|
      ensures BitAt(bytes', i) <==> i != bit && BitAt(bytes, i)
    {
      if i / 8 == bit / 8 {
        ByteUpdate(bytes[bit / 8], bit % 8, i % 8);
      }
    }
  }

  method Set(a: array<bv8>, bit: nat)
    requires bit < 8 * a.Length
    modifies a
    ensures Bits(a[..]) == old(Bits(a[..]))[bit := true]
  {
    SetRefines(a[..], bit);
    a[bit / 8] := a[bit / 8] | (1 << (bit % 8));
  }

  method Clear(a: array<bv8>, bit: nat)
    requires bit < 8 * a.Length
    modifies a
    ensures Bits(a[..]) == old(Bits(a[..]))[bit := false]
  {
    ClearRefines(a[..], bit);
    a[bit / 8] := a[bit / 8] & !(1 << (bit % 8));
  }

  method Get(a: array<bv8>, bit: nat) returns (set_: bool)
    requires bit < 8 * a.Length
    ensures set_ == Bits(a[..])[bit]
  {
    set_ := a[bit / 8] & (1 << (bit % 8)) != 0;
  }
}
