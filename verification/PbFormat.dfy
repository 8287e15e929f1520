/** The octets on the wire, said in numbers: what any other reader of the Protocol Buffers format relies on. */
module PbFormat {
  import opened Prelude
  import opened PbWire
  import opened PbMessage
  import opened PbEncode
  import opened PbDecode

  // ---- Varints ----

  /** Groups of seven bits, the low ones first. */
  function Groups(s: seq<Byte>): nat {
    if s == [] then 0 else s[0] % 128 + 128 * Groups(s[1..])
  }

  /** The first octet without a top bit is at k. */
  predicate EndsAt(s: seq<Byte>, k: nat) {
    k < |s| && s[k] < 128 && forall i :: 0 <= i < k ==> s[i] >= 128
  }

  /** A varint without idle groups at its end. */
  predicate Shortest(s: seq<Byte>) {
    s != [] && EndsAt(s, |s| - 1) && (|s| > 1 ==> s[|s| - 1] != 0)
  }

  lemma {:induction false} ShortestIsPositive(s: seq<Byte>)
    requires s != [] && 0 < s[|s| - 1] < 128
    ensures Groups(s) > 0
  {
    if |s| > 1 { ShortestIsPositive(s[1..]); }
  }

  lemma {:induction false} VarintIsShortest(u: nat)
    ensures Shortest(EncVarint(u)) && Groups(EncVarint(u)) == u
    decreases u
  {
    if u >= 128 {
      var high := EncVarint(u / 128);
      VarintIsShortest(u / 128);
      assert EncVarint(u)[1..] == high;
      assert forall i :: 1 <= i < |EncVarint(u)| ==> EncVarint(u)[i] == high[i - 1];
      if |high| == 1 { assert Groups(high) == high[0] == u / 128; }
    }
  }

  lemma {:induction false} ShortestIsVarint(s: seq<Byte>)
    requires Shortest(s)
    ensures s == EncVarint(Groups(s))
    decreases |s|
  {
    if |s| > 1 {
      var high := s[1..];
      assert forall i :: 0 <= i < |high| ==> high[i] == s[i + 1];
      ShortestIsVarint(high);
      ShortestIsPositive(high);
      assert s[0] >= 128 && Groups(s) % 128 == s[0] % 128 && Groups(s) / 128 == Groups(high);
      assert s == [s[0]] + high;
    } else {
      assert Groups(s[1..]) == 0 && s == [s[0]];
    }
  }

  /** The encoding of a number is the one sequence of groups, closed by an octet below 128 and without idle
      groups, that adds up to it. */
  lemma VarintIsExact(u: nat, s: seq<Byte>)
    ensures s == EncVarint(u) <==> Shortest(s) && Groups(s) == u
  {
    VarintIsShortest(u);
    if Shortest(s) { ShortestIsVarint(s); }
  }

  lemma {:induction false} VarintSize(u: nat, n: nat)
    requires n > 0 && u < Pow128(n) && (n > 1 ==> Pow128(n - 1) <= u)
    ensures |EncVarint(u)| == n
    decreases n
  {
    if n > 1 {
      assert Pow128(n) == 128 * Pow128(n - 1) && Pow128(n - 1) == 128 * Pow128(n - 2) >= 128;
      VarintSize(u / 128, n - 1);
    }
  }

  lemma Pow128s()
    ensures Pow128(5) == 0x8_0000_0000 && Pow128(9) == 0x8000_0000_0000_0000 && Pow128(10) == 0x40_0000_0000_0000_0000
    ensures Pow128(4) == 0x1000_0000
  {
    assert Pow128(2) == 0x4000;
    assert Pow128(4) == 0x1000_0000;
    assert Pow128(6) == 128 * Pow128(5);
    assert Pow128(8) == 128 * (128 * Pow128(6));
  }

  // ---- Reading varints ----

  lemma ModTwice(x: nat, y: nat, limit: nat)
    requires limit > 0
    ensures (x % limit + y) % limit == (x + y) % limit
  {
    var q, t, r := x / limit, (x + y) / limit, (x + y) % limit;
    assert x == limit * q + x % limit && x + y == limit * t + r;
    assert x % limit + y == r + (t - q) * limit by {
      assert (t - q) * limit == t * limit - q * limit;
    }
    ModOfMultiple(limit, r, t - q);
  }

  /** A number in a place of that weight. */
  function Placed(weight: nat, x: nat): nat {
    weight * x
  }

  lemma OneGroup(weight: nat, d: nat, acc: nat, rest: nat, limit: nat)
    requires limit > 0
    ensures ((acc + d * weight) % limit + Placed(128 * weight, rest)) % limit == (acc + Placed(weight, d + 128 * rest)) % limit
  {
    assert weight * (d + 128 * rest) == d * weight + 128 * weight * rest;
    ModTwice(acc + d * weight, Placed(128 * weight, rest), limit);
  }

  lemma {:induction false} LoopReads(limit: nat, s: seq<Byte>, weight: nat, acc: nat, k: nat)
    requires weight > 0 && limit > 0 && acc < limit && EndsAt(s, k) && Placed(weight, Pow128(k)) < limit
    ensures DecVarintFrom(limit, s, weight, acc) == Got((acc + Placed(weight, Groups(s[..k + 1]))) % limit, s[k + 1..])
    decreases k
  {
    hide Placed, Pow128, EndsAt, Groups;
    GroupsOf(s, k);
    var d, high := s[0] % 128, s[1..k + 1];
    PowIsPositive(weight, k);
    if k == 0 {
      LastGroup(s, weight);
    } else {
      var acc1 := (acc + d * weight) % limit;
      assert DecVarintFrom(limit, s, weight, acc) == DecVarintFrom(limit, s[1..], 128 * weight, acc1);
      PowMoves(weight, k);
      LoopReads(limit, s[1..], 128 * weight, acc1, k - 1);
      assert s[1..][..k] == high && s[1..][k..] == s[k + 1..];
      OneGroup(weight, d, acc, Groups(high), limit);
    }
  }

  lemma LastGroup(s: seq<Byte>, weight: nat)
    requires EndsAt(s, 0)
    ensures s != [] && s[0] < 128 && Placed(weight, Groups(s[..1])) == s[0] % 128 * weight
  {
    assert s[..1][1..] == [];
  }

  lemma GroupsOf(s: seq<Byte>, k: nat)
    requires EndsAt(s, k)
    ensures Groups(s[..k + 1]) == s[0] % 128 + 128 * Groups(s[1..k + 1])
    ensures k > 0 ==> EndsAt(s[1..], k - 1) && s[0] >= 128
    ensures s != [] && k < |s|
  {
    assert s[..k + 1][1..] == s[1..k + 1] && s[..k + 1][0] == s[0];
    assert forall i :: 0 <= i < |s[1..]| ==> s[1..][i] == s[i + 1];
  }

  lemma PowMoves(weight: nat, k: nat)
    requires k > 0
    ensures Placed(weight, Pow128(k)) == Placed(128 * weight, Pow128(k - 1))
  {
    assert weight * (128 * Pow128(k - 1)) == 128 * weight * Pow128(k - 1);
  }

  lemma PowIsPositive(weight: nat, k: nat)
    ensures weight <= Placed(weight, Pow128(k))
  {
    assert weight * 1 <= weight * Pow128(k);
  }

  lemma {:induction false} LoopEnds(limit: nat, s: seq<Byte>, weight: nat, acc: nat) returns (k: nat)
    requires weight > 0 && limit > 0 && DecVarintFrom(limit, s, weight, acc).Got?
    ensures EndsAt(s, k) && weight * Pow128(k) < limit
    decreases |s|
  {
    if s[0] < 128 {
      k := 0;
    } else {
      k := LoopEnds(limit, s[1..], 128 * weight, (acc + s[0] % 128 * weight) % limit);
      assert 128 * weight * Pow128(k) == weight * Pow128(k + 1);
      k := k + 1;
      assert forall i :: 1 <= i <= k ==> s[i] == s[1..][i - 1];
    }
  }

  /** A 64-bit read succeeds exactly if one of the first ten octets has no top bit, and gives the groups up to
      it, as far as they fit into 64 bits. */
  lemma Read64IsExact(s: seq<Byte>)
    ensures DecVarint(TWO64, s).Got? <==> exists k :: 0 <= k < 10 && EndsAt(s, k)
    ensures forall k :: 0 <= k < 10 && EndsAt(s, k) ==>
              DecVarint(TWO64, s) == Got(Groups(s[..k + 1]) % 0x1_0000_0000_0000_0000, s[k + 1..])
  {
    ReadIsExact(TWO64, s, 10);
  }

  /** A 32-bit read likewise, with five octets. */
  lemma Read32IsExact(s: seq<Byte>)
    ensures DecVarint(TWO32, s).Got? <==> exists k :: 0 <= k < 5 && EndsAt(s, k)
    ensures forall k :: 0 <= k < 5 && EndsAt(s, k) ==> DecVarint(TWO32, s) == Got(Groups(s[..k + 1]) % 0x1_0000_0000, s[k + 1..])
  {
    ReadIsExact(TWO32, s, 5);
  }

  lemma ReadIsExact(limit: nat, s: seq<Byte>, n: nat)
    requires (limit == TWO64 && n == 10) || (limit == TWO32 && n == 5)
    ensures DecVarint(limit, s).Got? <==> exists k :: 0 <= k < n && EndsAt(s, k)
    ensures forall k :: 0 <= k < n && EndsAt(s, k) ==> DecVarint(limit, s) == Got(Groups(s[..k + 1]) % limit, s[k + 1..])
  {
    Pow128s();
    forall k | 0 <= k < n && EndsAt(s, k)
      ensures DecVarint(limit, s) == Got(Groups(s[..k + 1]) % limit, s[k + 1..])
    {
      PowGoesUp(k, n - 1);
      LoopReads(limit, s, 1, 0, k);
    }
    if DecVarint(limit, s).Got? {
      var k := LoopEnds(limit, s, 1, 0);
      if k >= n { PowGoesUp(n, k); }
    }
  }

  lemma {:induction false} PowGoesUp(j: nat, k: nat)
    requires j <= k
    ensures Pow128(j) <= Pow128(k)
  {
    if j < k { PowGoesUp(j, k - 1); }
  }

  // ---- Numbers ----

  /** A field read as any at least as wide one gives the same number: negative ones are written with all
      64 bits of their sign. */
  lemma WiderReads(f: Field, size: nat, n: int, tail: seq<Byte>)
    requires f.ltype.Varint? && IntSize(f.size) && Signed(f.size, n) && IntSize(size) && f.size <= size
    ensures EncValue(f, Num(n)).Some?
    ensures DecNumber(f.(size := size), EncValue(f, Num(n)).value + tail) == Got(Num(n), tail)
    ensures DecNumber(f.(size := 8), EncValue(f, Num(n)).value + tail) == Got(Num(n), tail)
  {
    VarintRoundTrip(TWO64, AsU64(n), tail);
    SignedRoundTrip(size, n);
    SignedRoundTrip(8, n);
  }

  /** A negative number takes ten octets, whatever the size of its field. */
  lemma NegativeTakesTen(f: Field, n: int)
    requires f.ltype.Varint? && IntSize(f.size) && Signed(f.size, n) && n < 0
    ensures EncValue(f, Num(n)).Some? && |EncValue(f, Num(n)).value| == 10
    ensures Groups(EncValue(f, Num(n)).value) == 0x1_0000_0000_0000_0000 + n
  {
    Pow128s();
    assert AsU64(n) == 0x1_0000_0000_0000_0000 + n;
    VarintSize(AsU64(n), 10);
    VarintIsShortest(AsU64(n));
  }

  /** A field of at most 32 bits also reads a negative number of which only 32 bits were written. */
  lemma ShortNegativeReads(f: Field, n: int, tail: seq<Byte>)
    requires f.ltype.Varint? && IntSize(f.size) && f.size < 8 && Signed(f.size, n) && n < 0
    ensures DecNumber(f, EncVarint(0x1_0000_0000 + n) + tail) == Got(Num(n), tail)
  {
    VarintRoundTrip(TWO64, 0x1_0000_0000 + n, tail);
    CastKeeps(TWO32, n, 1);
    CastKeeps(Range(f.size), n, 0);
  }

  /** What a number is on the wire. */
  predicate NumberFormat(f: Field, n: int, s: seq<Byte>) {
    match f.ltype
    case Varint => Shortest(s) && Groups(s) == if n < 0 then 0x1_0000_0000_0000_0000 + n else n
    case UVarint => Shortest(s) && Groups(s) == n
    case SVarint => Shortest(s) && Groups(s) == if n < 0 then -2 * n - 1 else 2 * n
    case Fixed32 => s == [n % 0x100, n / 0x100 % 0x100, n / 0x1_0000 % 0x100, n / 0x100_0000 % 0x100]
    case Fixed64 =>
      var high := n / 0x1_0000_0000;
      s == [n % 0x100, n / 0x100 % 0x100, n / 0x1_0000 % 0x100, n / 0x100_0000 % 0x100,
            high % 0x100, high / 0x100 % 0x100, high / 0x1_0000 % 0x100, high / 0x100_0000 % 0x100]
    case _ => false
  }

  /** The numbers of a field of that type and size. */
  predicate InRange(f: Field, n: int) {
    match f.ltype
    case Varint => if f.size == 1 then -0x80 <= n < 0x80 else if f.size == 2 then -0x8000 <= n < 0x8000
                   else if f.size == 4 then -0x8000_0000 <= n < 0x8000_0000
                   else f.size == 8 && -0x8000_0000_0000_0000 <= n < 0x8000_0000_0000_0000
    case SVarint => if f.size == 1 then -0x80 <= n < 0x80 else if f.size == 2 then -0x8000 <= n < 0x8000
                    else if f.size == 4 then -0x8000_0000 <= n < 0x8000_0000
                    else f.size == 8 && -0x8000_0000_0000_0000 <= n < 0x8000_0000_0000_0000
    case UVarint => 0 <= n && if f.size == 1 then n < 0x100 else if f.size == 2 then n < 0x1_0000
                              else if f.size == 4 then n < 0x1_0000_0000 else f.size == 8 && n < 0x1_0000_0000_0000_0000
    case Fixed32 => 0 <= n < 0x1_0000_0000
    case Fixed64 => 0 <= n < 0x1_0000_0000_0000_0000
    case _ => false
  }

  lemma FourDigits(n: nat)
    ensures EncFixed(4, n) == [n % 0x100, n / 0x100 % 0x100, n / 0x1_0000 % 0x100, n / 0x100_0000 % 0x100]
  {
    var b, c, d := n / 256, n / 256 / 256, n / 256 / 256 / 256;
    assert EncFixed(1, d) == [d % 256] + EncFixed(0, d / 256) == [d % 256];
    assert EncFixed(2, c) == [c % 256] + EncFixed(1, d) == [c % 256, d % 256];
    assert EncFixed(3, b) == [b % 256] + EncFixed(2, c) == [b % 256, c % 256, d % 256];
    assert EncFixed(4, n) == [n % 256] + EncFixed(3, b);
    assert c == n / 0x1_0000 && d == n / 0x100_0000;
  }

  lemma EightDigits(n: nat)
    ensures EncFixed(8, n) == EncFixed(4, n) + EncFixed(4, n / 0x1_0000_0000)
  {
    var b, c, d, e := n / 256, n / 256 / 256, n / 256 / 256 / 256, n / 256 / 256 / 256 / 256;
    FourDigits(n);
    assert EncFixed(5, d) == [d % 256] + EncFixed(4, e);
    assert EncFixed(6, c) == [c % 256] + EncFixed(5, d) == [c % 256, d % 256] + EncFixed(4, e);
    assert EncFixed(7, b) == [b % 256] + EncFixed(6, c) == [b % 256, c % 256, d % 256] + EncFixed(4, e);
    assert EncFixed(8, n) == [n % 256] + EncFixed(7, b) == [n % 256, b % 256, c % 256, d % 256] + EncFixed(4, e);
    assert c == n / 0x1_0000 && d == n / 0x100_0000 && e == n / 0x1_0000_0000;
  }

  lemma VarintFollows(f: Field, n: int)
    requires f.ltype.Varint? && InRange(f, n)
    ensures EncValue(f, Num(n)).Some? && NumberFormat(f, n, EncValue(f, Num(n)).value)
  {
    assert AsU64(n) == if n < 0 then 0x1_0000_0000_0000_0000 + n else n;
    VarintIsShortest(AsU64(n));
  }

  lemma UnsignedFollows(f: Field, n: int)
    requires f.ltype.UVarint? && InRange(f, n)
    ensures EncValue(f, Num(n)).Some? && NumberFormat(f, n, EncValue(f, Num(n)).value)
  {
    assert AsU64(n) == n;
    VarintIsShortest(n);
  }

  lemma ZigZagFollows(f: Field, n: int)
    requires f.ltype.SVarint? && InRange(f, n)
    ensures EncValue(f, Num(n)).Some? && NumberFormat(f, n, EncValue(f, Num(n)).value)
  {
    ZigZagIsSmall(n);
    VarintIsShortest(ZigZag(n));
  }

  lemma FourFollows(f: Field, n: int)
    requires f.ltype.Fixed32? && InRange(f, n)
    ensures EncValue(f, Num(n)).Some? && NumberFormat(f, n, EncValue(f, Num(n)).value)
  {
    assert AsU64(n) == n;
    FourDigits(n);
  }

  lemma EightFollows(f: Field, n: int)
    requires f.ltype.Fixed64? && InRange(f, n)
    ensures EncValue(f, Num(n)).Some? && NumberFormat(f, n, EncValue(f, Num(n)).value)
  {
    assert AsU64(n) == n;
    EightDigits(n);
    FourDigits(n);
    FourDigits(n / 0x1_0000_0000);
  }

  /** Every number of a field is written in the format of its type. */
  lemma NumbersFollowFormat(f: Field, n: int)
    requires f.ltype.Packable() && InRange(f, n)
    ensures EncValue(f, Num(n)).Some? && NumberFormat(f, n, EncValue(f, Num(n)).value)
  {
    hide InRange, NumberFormat, EncValue;
    match f.ltype
    case Varint => VarintFollows(f, n);
    case UVarint => UnsignedFollows(f, n);
    case SVarint => ZigZagFollows(f, n);
    case Fixed32 => FourFollows(f, n);
    case Fixed64 => EightFollows(f, n);
  }

  // ---- Tags and layout ----

  /** The wire type of a field, by its number in the format. */
  function WireNumber(ltype: LType): nat {
    match ltype
    case Varint => 0
    case UVarint => 0
    case SVarint => 0
    case Fixed64 => 1
    case Fixed32 => 5
    case _ => 2
  }

  /** A varint for the number of the field and its wire type, and then the rest. */
  predicate TaggedAs(s: seq<Byte>, tag: nat, wire: nat, rest: seq<Byte>) {
    |rest| <= |s| && var n := |s| - |rest|; s[n..] == rest && Shortest(s[..n]) && Groups(s[..n]) == 8 * tag + wire
  }

  /** A varint for the length, and then that many octets. */
  predicate Prefixed(s: seq<Byte>, body: seq<Byte>) {
    |body| <= |s| && var n := |s| - |body|; s[n..] == body && Shortest(s[..n]) && Groups(s[..n]) == |body|
  }

  lemma TagIsTagged(wire: nat, tag: nat, rest: seq<Byte>)
    ensures TaggedAs(EncTag(wire, tag) + rest, tag, wire, rest)
  {
    VarintIsShortest(8 * tag + wire);
    assert (EncTag(wire, tag) + rest)[..|EncTag(wire, tag)|] == EncTag(wire, tag);
  }

  lemma DelimitedIsPrefixed(body: seq<Byte>)
    ensures Prefixed(Delimited(body), body)
  {
    VarintIsShortest(|body|);
    assert Delimited(body)[..|EncVarint(|body|)|] == EncVarint(|body|);
  }

  lemma {:induction false} FirstOctet(u: nat)
    ensures EncVarint(u)[0] % 8 == u % 8
  {}

  /** The low three bits of a tag are the wire type, 0, 1, 2 or 5; the rest is the number of the field. */
  lemma TagFollowsFormat(f: Field)
    requires !f.ltype.Extension?
    ensures Shortest(EncTagFor(f)) && Groups(EncTagFor(f)) == 8 * f.tag + WireNumber(f.ltype)
    ensures EncTagFor(f)[0] % 8 == WireNumber(f.ltype)
  {
    var u := 8 * f.tag + WireNumber(f.ltype);
    VarintIsShortest(u);
    FirstOctet(u);
    assert u % 8 == WireNumber(f.ltype);
  }

  /** What a value with its tag is on the wire. */
  lemma ValueLayout(f: Field, v: Value)
    requires !f.ltype.Extension? && EncValue(f, v).Some?
    ensures EncTagged(f, v).Some? && TaggedAs(EncTagged(f, v).value, f.tag, WireNumber(f.ltype), EncValue(f, v).value)
    ensures f.ltype.Bytes? || f.ltype.FixedBytes? ==> Prefixed(EncValue(f, v).value, OctetsOf(v))
    ensures f.ltype.Str? ==> Prefixed(EncValue(f, v).value, Text(OctetsOf(v), f.size))
    ensures f.ltype.Submessage? ==> EncFields(f.sub, SlotsOf(v)).Some? && Prefixed(EncValue(f, v).value, EncFields(f.sub, SlotsOf(v)).value)
  {
    hide EncFields, Text, Prefixed, TaggedAs, Delimited, EncTag, EncVarint, Shortest, Groups;
    TagIsTagged(f.ltype.WireType(), f.tag, EncValue(f, v).value);
    if f.ltype.Bytes? || f.ltype.FixedBytes? {
      DelimitedIsPrefixed(OctetsOf(v));
    } else if f.ltype.Str? {
      DelimitedIsPrefixed(Text(OctetsOf(v), f.size));
    } else if f.ltype.Submessage? {
      assert EncValue(f, v) == EncSubmessage(f, v);
      DelimitedIsPrefixed(EncFields(f.sub, SlotsOf(v)).value);
    }
  }

  /** Numbers of an array are packed: one tag, one length, and the values after one another. */
  lemma PackedLayout(f: Field, items: seq<Value>)
    requires f.ltype.Packable() && items != [] && EncArray(f, items).Some?
    ensures |items| <= f.count && EncItems(f, items).Some?
    ensures exists rest :: TaggedAs(EncArray(f, items).value, f.tag, 2, rest) && Prefixed(rest, EncItems(f, items).value)
  {
    var body := EncItems(f, items).value;
    TagIsTagged(WT_STRING, f.tag, Delimited(body));
    DelimitedIsPrefixed(body);
  }

  // ---- What is refused ----

  /** The number a varint is for a field, before it is cast to the size of the field: fields of at most 32 bits
      look at 32 bits only. */
  function ReadAs(f: Field, u: nat): int {
    match f.ltype
    case UVarint => u
    case SVarint => if u % 2 == 0 then u / 2 else -(u / 2) - 1
    case _ =>
      if f.size == 8 then if u < 0x8000_0000_0000_0000 then u else u - 0x1_0000_0000_0000_0000
      else if u % 0x1_0000_0000 < 0x8000_0000 then u % 0x1_0000_0000 else u % 0x1_0000_0000 - 0x1_0000_0000
  }

  lemma CastFits(size: nat, n: int)
    requires IntSize(size) && Signed(8, n)
    ensures SignedCast(Range(size), n) == n <==> Signed(size, n)
  {
    NarrowingIsExact(size, n);
  }

  lemma SignedReads(f: Field, u: nat)
    requires f.ltype.Varint? && IntSize(f.size) && u < TWO64
    ensures Narrowed(f, u) == if InRange(f, ReadAs(f, u)) then Some(ReadAs(f, u)) else None
  {
    CastFits(f.size, ReadAs(f, u));
  }

  lemma ZigZagReads(f: Field, u: nat)
    requires f.ltype.SVarint? && IntSize(f.size) && u < TWO64
    ensures Narrowed(f, u) == if InRange(f, ReadAs(f, u)) then Some(ReadAs(f, u)) else None
  {
    assert UnZigZag(u) == ReadAs(f, u);
    CastFits(f.size, ReadAs(f, u));
  }

  lemma UnsignedReads(f: Field, u: nat)
    requires f.ltype.UVarint? && IntSize(f.size) && u < TWO64
    ensures Narrowed(f, u) == if InRange(f, ReadAs(f, u)) then Some(ReadAs(f, u)) else None
  {}

  /** A number is taken exactly if it is one of the field. */
  lemma NumbersThatFit(f: Field, u: nat, tail: seq<Byte>)
    requires f.ltype.Integer() && IntSize(f.size) && u < 0x1_0000_0000_0000_0000
    ensures DecNumber(f, EncVarint(u) + tail) == if InRange(f, ReadAs(f, u)) then Got(Num(ReadAs(f, u)), tail) else Broken(tail)
  {
    hide InRange, ReadAs, Narrowed;
    VarintRoundTrip(TWO64, u, tail);
    match f.ltype
    case Varint => SignedReads(f, u);
    case UVarint => UnsignedReads(f, u);
    case SVarint => ZigZagReads(f, u);
  }

  /** Bytes are taken if they fit behind their size, a string if it leaves room for a terminator, fixed-length
      bytes if they have that length or none, and nothing else is. */
  lemma BlobsThatFit(f: Field, body: seq<Byte>, tail: seq<Byte>)
    requires (f.ltype.Bytes? || f.ltype.Str? || f.ltype.FixedBytes?) && |body| < 0x1_0000_0000 && f.size < 0x1_0000_0000
    ensures DecBlob(f, Delimited(body) + tail).Got? <==>
              if f.ltype.Bytes? then |body| + 4 <= f.size
              else if f.ltype.Str? then |body| < f.size
              else body == [] || |body| == f.size
    ensures DecBlob(f, Delimited(body) + tail).Got? ==>
              var taken := if f.ltype.FixedBytes? && body == [] then seq(f.size, _ => 0) else body;
              DecBlob(f, Delimited(body) + tail) == Got(Blob(taken), tail)
  {
    Assoc(EncVarint(|body|), body, tail);
    VarintRoundTrip(TWO32, |body|, body + tail);
    OctetsRoundTrip(body, tail);
  }

  lemma {:induction false} ItemsGoOn(f: Field, items: seq<Value>, s: seq<Byte>)
    requires f.ltype.Packable() && DecItems(f, items, s).Some?
    ensures items <= DecItems(f, items, s).value
    ensures |items| <= f.count ==> |DecItems(f, items, s).value| <= f.count
    decreases |s|
  {
    if s != [] {
      var item := DecNumber(f, s);
      ItemsGoOn(f, items + [item.value], item.rest);
    }
  }

  /** An array is never filled beyond its count: it keeps what it has, and takes one item behind one tag, or
      those of a packed run. */
  lemma ArraysStayInBounds(f: Field, items: seq<Value>, wireType: nat, s: seq<Byte>)
    requires f.htype.Repeated? && |items| <= f.count && DecField(f, Many(items), wireType, s).Got?
    ensures var slot := DecField(f, Many(items), wireType, s).value;
            && slot.Many? && items <= slot.items && |slot.items| <= f.count
            && (wireType != 2 || !f.ltype.Packable() ==> |slot.items| == |items| + 1)
  {
    if wireType == WT_STRING && f.ltype.Packable() {
      ItemsGoOn(f, items, DecDelimited(s).value);
    }
  }
}
