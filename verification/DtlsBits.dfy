/** Bits of one octet, and the mask helper of the DTLS reassembly bitmask. */
module DtlsBits {

  /** A bit position inside an octet (or its end), as an octet. */
  function Small(k: nat): bv8
    requires k <= 8
  {
    if k == 0 then 0 else if k == 1 then 1 else if k == 2 then 2 else if k == 3 then 3
    else if k == 4 then 4 else if k == 5 then 5 else if k == 6 then 6 else if k == 7 then 7 else 8
  }

  function RangeMask(start: bv8, end: bv8): bv8
    requires start <= 8 && end <= 8
  {
    (!(((1 as bv16) << start) - 1) & (((1 as bv16) << end) - 1) & 0xff) as bv8
  }

  /** bit_range: the octet whose bits from start, inclusive, to end, exclusive, are set. */
  function BitRange(start: nat, end: nat): bv8
    requires start <= 8 && end <= 8
  {
    RangeMask(Small(start), Small(end))
  }

  predicate TestBit(b: bv8, k: bv8)
    requires k < 8
  {
    (b >> k) & 1 == 1
  }

  predicate Bit(b: bv8, k: nat)
    requires k < 8
  {
    TestBit(b, Small(k))
  }

  lemma SmallIsMonotone(s: nat, k: nat)
    requires s <= 8 && k <= 8
    ensures s <= k <==> Small(s) <= Small(k)
    ensures s < k <==> Small(s) < Small(k)
  {}

  lemma RangeMaskBits(b: bv8, start: bv8, end: bv8, k: bv8)
    requires start <= 8 && end <= 8 && k < 8
    ensures TestBit(b | RangeMask(start, end), k) == (TestBit(b, k) || start <= k < end)
  {}

  /** Or-ing bit_range(start, end) into an octet sets exactly the bits in the range. */
  lemma BitRangeSets(b: bv8, start: nat, end: nat, k: nat)
    requires start <= 8 && end <= 8 && k < 8
    ensures Bit(b | BitRange(start, end), k) == (Bit(b, k) || start <= k < end)
  {
    SmallIsMonotone(start, k);
    SmallIsMonotone(k, end);
    RangeMaskBits(b, Small(start), Small(end), Small(k));
  }

  lemma ZeroOctet(k: nat)
    requires k < 8
    ensures !Bit(0, k) && Bit(0xff, k)
  {}

  lemma BitsDetermineOctet(a: bv8, b: bv8)
    requires forall k: nat | k < 8 :: Bit(a, k) == Bit(b, k)
    ensures a == b
  {
    assert Bit(a, 0) == Bit(b, 0);
    assert Bit(a, 1) == Bit(b, 1);
    assert Bit(a, 2) == Bit(b, 2);
    assert Bit(a, 3) == Bit(b, 3);
    assert Bit(a, 4) == Bit(b, 4);
    assert Bit(a, 5) == Bit(b, 5);
    assert Bit(a, 6) == Bit(b, 6);
    assert Bit(a, 7) == Bit(b, 7);
  }

  /** An octet equals bit_range(0, n) exactly when its first n bits, and no others, are set. */
  lemma PrefixOctet(b: bv8, n: nat)
    requires n <= 8
    ensures b == BitRange(0, n) <==> forall k: nat | k < 8 :: Bit(b, k) == (k < n)
  {
    forall k: nat | k < 8
      ensures Bit(BitRange(0, n), k) == (k < n)
    {
      BitRangeSets(0, 0, n, k);
      ZeroOctet(k);
      assert 0 | BitRange(0, n) == BitRange(0, n);
    }
    if forall k: nat | k < 8 :: Bit(b, k) == (k < n) {
      BitsDetermineOctet(b, BitRange(0, n));
    }
  }

  /** Bit p of a mask made of octets, least significant bit first. */
  predicate BitAt(mask: seq<bv8>, p: nat)
    requires p < 8 * |mask|
  {
    Bit(mask[p / 8], p % 8)
  }

  /** Which mask bits the bits [start, end) of octet j are. */
  lemma OctetRange(j: nat, start: nat, end: nat, p: nat)
    requires start <= 8 && end <= 8
    ensures p / 8 == j && start <= p % 8 < end <==> 8 * j + start <= p < 8 * j + end
  {
    assert p == 8 * (p / 8) + p % 8;
  }

  /** The effect on every bit of or-ing a range into octet j. */
  lemma OrOctet(mask: seq<bv8>, j: nat, start: nat, end: nat, p: nat)
    requires j < |mask| && start <= 8 && end <= 8 && p < 8 * |mask|
    ensures BitAt(mask[j := mask[j] | BitRange(start, end)], p)
         == (BitAt(mask, p) || 8 * j + start <= p < 8 * j + end)
  {
    BitRangeSets(mask[j], start, end, p % 8);
    OctetRange(j, start, end, p);
  }

  /** The effect on every bit of setting octet j to 0xff. */
  lemma FillOctet(mask: seq<bv8>, j: nat, p: nat)
    requires j < |mask| && p < 8 * |mask|
    ensures BitAt(mask[j := 0xff], p) == (BitAt(mask, p) || 8 * j <= p < 8 * j + 8)
  {
    ZeroOctet(p % 8);
    OctetRange(j, 0, 8, p);
  }

  /** Octet j is 0xff exactly when the eight mask bits it holds are set. */
  lemma FullOctet(mask: seq<bv8>, j: nat)
    requires j < |mask|
    ensures mask[j] == 0xff <==> forall p: nat | 8 * j <= p < 8 * j + 8 :: BitAt(mask, p)
  {
    PrefixOctet(mask[j], 8);
    assert BitRange(0, 8) == 0xff;
    if forall p: nat | 8 * j <= p < 8 * j + 8 :: BitAt(mask, p) {
      forall k: nat | k < 8
        ensures Bit(mask[j], k)
      {
        assert BitAt(mask, 8 * j + k);
      }
    }
  }
}
