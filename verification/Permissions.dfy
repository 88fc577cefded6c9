/** Permission bitmaps: six bits, compared bit by bit. */
module Permissions {

  const READ: bv8 := 0x01
  const ADD: bv8 := 0x02
  const INIT: bv8 := 0x04
  const WRITE: bv8 := 0x08
  const REMOVE: bv8 := 0x10
  const SHARE: bv8 := 0x20
  const ALL: bv8 := 0x3F

  predicate Has(permissions: bv8, required: bv8) {
    permissions & required == required
  }

  predicate IsSubset(subset: bv8, superset: bv8) {
    subset & superset == subset
  }

  /** The bit of value 2 to the power i is set. */
  predicate Bit(p: bv8, i: nat)
    requires i < 8
  {
    (if i == 0 then p & 1 else if i == 1 then p & 2 else if i == 2 then p & 4 else if i == 3 then p & 8
      else if i == 4 then p & 16 else if i == 5 then p & 32 else if i == 6 then p & 64 else p & 128) != 0
  }

  /** A bitmap is the sum of its bits. */
  lemma SumOfBits(p: bv8)
    ensures p == (if Bit(p, 0) then 1 else 0) + (if Bit(p, 1) then 2 else 0) + (if Bit(p, 2) then 4 else 0) + (if Bit(p, 3) then 8 else 0)
      + (if Bit(p, 4) then 16 else 0) + (if Bit(p, 5) then 32 else 0) + (if Bit(p, 6) then 64 else 0) + (if Bit(p, 7) then 128 else 0)
  {
  }

  /** Each bit of the first is set in the second. */
  predicate AllBits(a: bv8, b: bv8) {
    forall i: nat :: i < 8 && Bit(a, i) ==> Bit(b, i)
  }

  /** One bitmap is within another exactly when each bit of it is set in the other. */
  lemma SubsetIff(a: bv8, b: bv8)
    ensures IsSubset(a, b) <==> AllBits(a, b)
  {
    if AllBits(a, b) {
      assert (Bit(a, 0) ==> Bit(b, 0)) && (Bit(a, 1) ==> Bit(b, 1)) && (Bit(a, 2) ==> Bit(b, 2)) && (Bit(a, 3) ==> Bit(b, 3));
      assert (Bit(a, 4) ==> Bit(b, 4)) && (Bit(a, 5) ==> Bit(b, 5)) && (Bit(a, 6) ==> Bit(b, 6)) && (Bit(a, 7) ==> Bit(b, 7));
    }
  }

  lemma HasIff(permissions: bv8, required: bv8)
    ensures Has(permissions, required) <==> AllBits(required, permissions)
  {
    SubsetIff(required, permissions);
    assert permissions & required == required & permissions;
  }

  /** The six rights are the six lowest bits, and all of them are 0x3F. */
  lemma RightsAreBits(p: bv8)
    ensures Has(p, READ) <==> Bit(p, 0)
    ensures Has(p, ADD) <==> Bit(p, 1)
    ensures Has(p, INIT) <==> Bit(p, 2)
    ensures Has(p, WRITE) <==> Bit(p, 3)
    ensures Has(p, REMOVE) <==> Bit(p, 4)
    ensures Has(p, SHARE) <==> Bit(p, 5)
    ensures IsSubset(p, ALL) <==> !Bit(p, 6) && !Bit(p, 7)
  {
  }

  /** Below a meet means below both: requested rights and own rights each bound a new key. */
  lemma SubsetOfMeet(p: bv8, a: bv8, b: bv8)
    ensures IsSubset(p, a & b) <==> IsSubset(p, a) && IsSubset(p, b)
  {
    assert p & (a & b) == (p & a) & b;
    assert p & (a & b) == (p & b) & a;
    assert p & (a & b) == p ==> p & a == p;
  }

  /** The same bit by bit. */
  lemma BitsOfMeet(p: bv8, a: bv8, b: bv8)
    ensures IsSubset(p, a & b) <==> AllBits(p, a) && AllBits(p, b)
  {
    SubsetOfMeet(p, a, b);
    SubsetIff(p, a);
    SubsetIff(p, b);
    hide IsSubset, AllBits;
  }
}
