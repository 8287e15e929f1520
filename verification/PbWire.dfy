/** The Protocol Buffers wire format of nanopb: varints, zig-zag, fixed-width integers, tags. */
module PbWire {
  import opened Prelude

  const TWO32 := 0x1_0000_0000
  const TWO64 := 0x1_0000_0000_0000_0000

  /** The outcome of a read: a value and the rest of the stream, or failure and what was left then. */
  datatype Read<+T> = Got(value: T, rest: seq<Byte>) | Broken(rest: seq<Byte>)

  // ---- Varints ----

  /** pb_encode_varint: seven bits an octet, low ones first, a set top bit on all but the last. */
  function EncVarint(u: nat): (s: seq<Byte>)
    ensures |s| >= 1
  {
    if u < 128 then [u] else [128 + u % 128] + EncVarint(u / 128)
  }

  /** The loop of pb_decode_varint (limit 2^64) and pb_decode_varint32 (limit 2^32). weight is two to
      the power of bitpos; bits that a last octet holds above the limit are dropped. */
  function DecVarintFrom(limit: nat, s: seq<Byte>, weight: nat, acc: nat): (r: Read<nat>)
    requires weight > 0 && limit > 0
    ensures r.Got? ==> r.value < limit && |r.rest| < |s|
    ensures |r.rest| <= |s|
    decreases |s|
  {
    if weight >= limit || s == [] then Broken(s)
    else
      var acc1 := (acc + s[0] % 128 * weight) % limit;
      if s[0] < 128 then Got(acc1, s[1..]) else DecVarintFrom(limit, s[1..], 128 * weight, acc1)
  }

  function DecVarint(limit: nat, s: seq<Byte>): (r: Read<nat>)
    requires limit > 0
    ensures r.Got? ==> r.value < limit && |r.rest| < |s|
    ensures |r.rest| <= |s|
  {
    DecVarintFrom(limit, s, 1, 0)
  }

  lemma SplitDigit(u: nat, weight: nat)
    ensures u % 128 * weight + u / 128 * (128 * weight) == u * weight
  {
    calc {
      u % 128 * weight + u / 128 * (128 * weight);
      u % 128 * weight + (u / 128 * 128) * weight;
      (u % 128 + u / 128 * 128) * weight;
      { assert u % 128 + u / 128 * 128 == u; }
      u * weight;
    }
  }

  lemma DigitFits(u: nat, weight: nat, limit: nat)
    requires weight > 0 && u * weight < limit
    ensures u % 128 * weight < limit && u / 128 * (128 * weight) < limit
    ensures u >= 128 ==> 128 * weight < limit
  {
    SplitDigit(u, weight);
    var high := u / 128;
    assert high * (128 * weight) >= 0 && u % 128 * weight >= 0;
    if u >= 128 {
      assert high >= 1;
      assert high * (128 * weight) >= 128 * weight;
    }
  }

  lemma SmallMod(x: nat, limit: nat)
    requires x < limit
    ensures x % limit == x
  {}

  lemma {:induction false} VarintFromRoundTrip(limit: nat, u: nat, weight: nat, acc: nat, tail: seq<Byte>)
    requires 0 < weight < limit && acc + u * weight < limit
    ensures DecVarintFrom(limit, EncVarint(u) + tail, weight, acc) == Got(acc + u * weight, tail)
    decreases u
  {
    var s := EncVarint(u) + tail;
    DigitFits(u, weight, limit);
    SplitDigit(u, weight);
    var high := u / 128;
    assert high * (128 * weight) >= 0;
    SmallMod(acc + u % 128 * weight, limit);
    if u < 128 {
      assert s[1..] == tail;
    } else {
      assert s[0] == 128 + u % 128 && s[0] % 128 == u % 128;
      assert s[1..] == EncVarint(u / 128) + tail;
      VarintFromRoundTrip(limit, u / 128, 128 * weight, acc + u % 128 * weight, tail);
      SplitDigit(u, weight);
    }
  }

  /** Decoding an encoded varint gives it back, whatever follows it. */
  lemma VarintRoundTrip(limit: nat, u: nat, tail: seq<Byte>)
    requires 1 < limit && u < limit
    ensures DecVarint(limit, EncVarint(u) + tail) == Got(u, tail)
  {
    assert u * 1 == u;
    VarintFromRoundTrip(limit, u, 1, 0, tail);
  }

  /** A successful read is not affected by what is appended to the stream. */
  lemma {:induction false} VarintFromIsLocal(limit: nat, s: seq<Byte>, weight: nat, acc: nat, more: seq<Byte>)
    requires weight > 0 && limit > 0 && DecVarintFrom(limit, s, weight, acc).Got?
    ensures DecVarintFrom(limit, s + more, weight, acc)
         == Got(DecVarintFrom(limit, s, weight, acc).value, DecVarintFrom(limit, s, weight, acc).rest + more)
    decreases |s|
  {
    assert (s + more)[1..] == s[1..] + more;
    if s[0] >= 128 {
      VarintFromIsLocal(limit, s[1..], 128 * weight, (acc + s[0] % 128 * weight) % limit, more);
    }
  }

  lemma VarintIsLocal(limit: nat, s: seq<Byte>, more: seq<Byte>)
    requires limit > 0 && DecVarint(limit, s).Got?
    ensures DecVarint(limit, s + more) == Got(DecVarint(limit, s).value, DecVarint(limit, s).rest + more)
  {
    VarintFromIsLocal(limit, s, 1, 0, more);
  }

  // ---- Integer representations ----

  /** How many values an integer of that many octets has. */
  function Range(size: nat): (r: nat)
    ensures r > 0
  {
    if size == 1 then 0x100 else if size == 2 then 0x1_0000 else if size == 4 then TWO32 else TWO64
  }

  predicate IntSize(size: nat) {
    size == 1 || size == 2 || size == 4 || size == 8
  }

  predicate Signed(size: nat, n: int) {
    -(Range(size) / 2) <= n < Range(size) / 2
  }

  /** A conversion to an unsigned 64-bit integer. */
  function AsU64(n: int): (u: nat)
    ensures u < TWO64
  {
    n % TWO64
  }

  /** A conversion to a two's complement integer with that many values. */
  function SignedCast(range: nat, n: int): int
    requires range > 0
  {
    if n % range < range / 2 then n % range else n % range - range
  }

  /** pb_dec_varint past the varint: at most 32-bit fields go through a 32-bit value, then the value
      has to survive the cast to the size of the field. */
  function DecSigned(size: nat, u: nat): Option<int> {
    var value := if size == 8 then SignedCast(TWO64, u) else SignedCast(TWO32, u);
    if IntSize(size) && SignedCast(Range(size), value) == value then Some(value) else None
  }

  /** A cast keeps a value of the target, and undoes a wrap around a multiple of its range. */
  lemma CastKeeps(range: nat, n: int, wraps: nat)
    requires range % 2 == 0 && -(range / 2) <= n < range / 2
    ensures SignedCast(range, n + wraps * range) == n
  {
    var residue := if n < 0 then n + range else n;
    var turns := if n < 0 then wraps - 1 else wraps;
    assert n + wraps * range == residue + turns * range;
    ModOfMultiple(range, residue, turns);
  }

  lemma ModOfMultiple(range: nat, residue: nat, turns: int)
    requires residue < range
    ensures (residue + turns * range) % range == residue
  {
    var n := residue + turns * range;
    var quotient := n / range;
    var extra := quotient - turns;
    assert n == range * quotient + n % range;
    assert extra * range == quotient * range - turns * range;
    assert extra >= 1 ==> extra * range >= range;
    assert extra <= -1 ==> extra * range <= 0 - range;
  }

  lemma SignedRoundTrip(size: nat, n: int)
    requires IntSize(size) && Signed(size, n)
    ensures DecSigned(size, AsU64(n)) == Some(n)
  {
    CastKeeps(Range(size), n, 0);
    assert AsU64(n) == if n < 0 then n + TWO64 else n;
    if size == 8 {
      CastKeeps(TWO64, n, if n < 0 then 1 else 0);
    } else {
      CastKeeps(TWO32, n, if n < 0 then TWO32 else 0);
    }
  }

  /** The cast to a narrower field lets exactly the values of that field through. */
  lemma NarrowingIsExact(size: nat, n: int)
    requires IntSize(size) && Signed(8, n)
    ensures SignedCast(Range(size), n) == n <==> Signed(size, n)
  {
    if Signed(size, n) && n < 0 { assert n % Range(size) == n + Range(size); }
  }

  /** pb_encode_svarint: shift left by one in 64 bits, complement when negative. */
  function ZigZag(n: int): (u: nat)
    ensures u < TWO64
  {
    var shifted := AsU64(n) * 2 % TWO64;
    if n < 0 then TWO64 - 1 - shifted else shifted
  }

  /** pb_decode_svarint past the varint. */
  function UnZigZag(u: nat): int
    requires u < TWO64
  {
    if u % 2 == 1 then SignedCast(TWO64, TWO64 - 1 - u / 2) else SignedCast(TWO64, u / 2)
  }

  lemma ZigZagIsSmall(n: int)
    requires Signed(8, n)
    ensures ZigZag(n) == if n < 0 then -2 * n - 1 else 2 * n
  {
    if n < 0 {
      assert AsU64(n) == n + TWO64;
      assert (n + TWO64) * 2 == 2 * n + TWO64 + TWO64;
      assert (2 * n + TWO64 + TWO64) % TWO64 == 2 * n + TWO64;
    } else {
      assert AsU64(n) == n;
    }
  }

  lemma ZigZagRoundTrip(n: int)
    requires Signed(8, n)
    ensures UnZigZag(ZigZag(n)) == n
  {
    ZigZagIsSmall(n);
    if n < 0 {
      assert ZigZag(n) % 2 == 1 && ZigZag(n) / 2 == -n - 1;
    } else {
      assert ZigZag(n) % 2 == 0 && ZigZag(n) / 2 == n;
    }
  }

  lemma UnZigZagRoundTrip(u: nat)
    requires u < TWO64
    ensures Signed(8, UnZigZag(u)) && ZigZag(UnZigZag(u)) == u
  {
    assert UnZigZag(u) == if u % 2 == 1 then -(u / 2) - 1 else u / 2;
    ZigZagIsSmall(UnZigZag(u));
  }

  // ---- Fixed-width integers ----

  function Pow256(k: nat): (p: nat)
    ensures p > 0
  {
    if k == 0 then 1 else 256 * Pow256(k - 1)
  }

  /** The k low octets of n, lowest first. */
  function EncFixed(k: nat, n: nat): (s: seq<Byte>)
    ensures |s| == k
  {
    if k == 0 then [] else [n % 256] + EncFixed(k - 1, n / 256)
  }

  function FixedValue(s: seq<Byte>): nat {
    if s == [] then 0 else s[0] + 256 * FixedValue(s[1..])
  }

  lemma {:induction false} FixedRoundTrip(k: nat, n: nat)
    requires n < Pow256(k)
    ensures FixedValue(EncFixed(k, n)) == n
  {
    if k > 0 {
      assert n / 256 < Pow256(k - 1);
      FixedRoundTrip(k - 1, n / 256);
      assert EncFixed(k, n)[1..] == EncFixed(k - 1, n / 256);
    }
  }

  lemma WidthsInOctets()
    ensures Pow256(4) == TWO32 && Pow256(8) == TWO64
  {
    assert Pow256(2) == 0x1_0000;
    assert Pow256(4) == TWO32;
    assert Pow256(6) == 0x1_0000_0000_0000;
  }

  // ---- Runs of octets and length prefixes ----

  /** pb_read of that many octets. */
  function ReadOctets(n: nat, s: seq<Byte>): (r: Read<seq<Byte>>)
    ensures r.Got? ==> |r.rest| == |s| - n && |r.value| == n
  {
    if |s| < n then Broken(s) else Got(s[..n], s[n..])
  }

  /** A 32-bit length and that many octets: strings, bytes, packed arrays, submessages. */
  function DecDelimited(s: seq<Byte>): (r: Read<seq<Byte>>)
    ensures r.Got? ==> |r.rest| + |r.value| < |s|
  {
    var length := DecVarint(TWO32, s);
    if length.Broken? then Broken(length.rest) else ReadOctets(length.value, length.rest)
  }

  function Delimited(body: seq<Byte>): (s: seq<Byte>)
    ensures |s| > |body|
  {
    EncVarint(|body|) + body
  }

  lemma OctetsRoundTrip(body: seq<Byte>, tail: seq<Byte>)
    ensures ReadOctets(|body|, body + tail) == Got(body, tail)
  {}

  lemma OctetsAreLocal(n: nat, s: seq<Byte>, more: seq<Byte>)
    requires ReadOctets(n, s).Got?
    ensures ReadOctets(n, s + more) == Got(ReadOctets(n, s).value, ReadOctets(n, s).rest + more)
  {
    assert (s + more)[n..] == s[n..] + more && (s + more)[..n] == s[..n];
  }

  lemma DelimitedRoundTrip(body: seq<Byte>, tail: seq<Byte>)
    requires |body| < TWO32
    ensures DecDelimited(Delimited(body) + tail) == Got(body, tail)
  {
    assert Delimited(body) + tail == EncVarint(|body|) + (body + tail);
    VarintRoundTrip(TWO32, |body|, body + tail);
    OctetsRoundTrip(body, tail);
  }

  lemma DelimitedIsLocal(s: seq<Byte>, more: seq<Byte>)
    requires DecDelimited(s).Got?
    ensures DecDelimited(s + more) == Got(DecDelimited(s).value, DecDelimited(s).rest + more)
  {
    VarintIsLocal(TWO32, s, more);
    var length := DecVarint(TWO32, s);
    OctetsAreLocal(length.value, length.rest, more);
  }

  // ---- Tags ----

  const WT_VARINT := 0
  const WT_64BIT := 1
  const WT_STRING := 2
  const WT_32BIT := 5

  function EncTag(wireType: nat, tag: nat): (s: seq<Byte>)
    ensures |s| >= 1
  {
    EncVarint(8 * tag + wireType)
  }

  /** What pb_decode_tag finds: a tag, the end of the message, or a broken stream. */
  datatype TagRead = Tag(wireType: nat, tag: nat, rest: seq<Byte>) | EndOfMessage(rest: seq<Byte>) | BadTag

  /** pb_decode_tag: running out of octets inside a tag ends the message, and so does a zero. */
  function DecTag(s: seq<Byte>): (r: TagRead)
    ensures r.Tag? ==> |r.rest| < |s| && r.wireType < 8
  {
    var u := DecVarint(TWO32, s);
    if u.Broken? then
      if u.rest == [] then EndOfMessage([]) else BadTag
    else if u.value == 0 then EndOfMessage(u.rest)
    else Tag(u.value % 8, u.value / 8, u.rest)
  }

  lemma TagRoundTrip(wireType: nat, tag: nat, tail: seq<Byte>)
    requires wireType < 8 && 0 < tag < 0x2000_0000
    ensures DecTag(EncTag(wireType, tag) + tail) == Tag(wireType, tag, tail)
  {
    VarintRoundTrip(TWO32, 8 * tag + wireType, tail);
    assert (8 * tag + wireType) % 8 == wireType;
  }

  lemma TagIsLocal(s: seq<Byte>, more: seq<Byte>)
    requires DecTag(s).Tag?
    ensures DecTag(s + more) == DecTag(s).(rest := DecTag(s).rest + more)
  {
    VarintIsLocal(TWO32, s, more);
  }

  function Pow128(n: nat): (p: nat)
    ensures p > 0
  {
    if n == 0 then 1 else 128 * Pow128(n - 1)
  }

  lemma {:induction false} VarintLength(u: nat, n: nat)
    requires n > 0 && u < Pow128(n)
    ensures |EncVarint(u)| <= n
    decreases n
  {
    if u >= 128 {
      assert Pow128(n) == 128 * Pow128(n - 1) && Pow128(0) == 1;
      VarintLength(u / 128, n - 1);
    }
  }

  /** A tag of 29 bits with its wire type takes at most five octets. */
  lemma TagIsShort(wireType: nat, tag: nat)
    requires wireType < 8 && tag < 0x2000_0000
    ensures |EncTag(wireType, tag)| <= 5
  {
    assert Pow128(2) == 0x4000 && Pow128(4) == 0x1000_0000 && Pow128(5) == 0x8_0000_0000;
    VarintLength(8 * tag + wireType, 5);
  }

  // ---- Skipping ----

  /** pb_skip_varint, of any length. */
  function SkipVarint(s: seq<Byte>): (r: Option<seq<Byte>>)
    ensures r.Some? ==> |r.value| < |s|
  {
    if s == [] then None else if s[0] < 128 then Some(s[1..]) else SkipVarint(s[1..])
  }

  /** pb_skip_field: what is left after the value. */
  function SkipField(wireType: nat, s: seq<Byte>): (r: Option<seq<Byte>>)
    ensures r.Some? ==> |r.value| < |s|
  {
    if wireType == WT_VARINT then SkipVarint(s)
    else if wireType == WT_64BIT then Remaining(ReadOctets(8, s))
    else if wireType == WT_STRING then Remaining(DecDelimited(s))
    else if wireType == WT_32BIT then Remaining(ReadOctets(4, s))
    else None
  }

  function Remaining<T>(r: Read<T>): (o: Option<seq<Byte>>)
    ensures o == if r.Got? then Some(r.rest) else None
  {
    if r.Got? then Some(r.rest) else None
  }

  lemma {:induction false} SkipVarintRoundTrip(u: nat, tail: seq<Byte>)
    ensures SkipVarint(EncVarint(u) + tail) == Some(tail)
    decreases u
  {
    var s := EncVarint(u) + tail;
    if u < 128 {
      assert s[1..] == tail;
    } else {
      assert s[1..] == EncVarint(u / 128) + tail;
      SkipVarintRoundTrip(u / 128, tail);
    }
  }

  lemma {:induction false} SkipVarintIsLocal(s: seq<Byte>, more: seq<Byte>)
    requires SkipVarint(s).Some?
    ensures SkipVarint(s + more) == Some(SkipVarint(s).value + more)
  {
    assert (s + more)[1..] == s[1..] + more;
    if s[0] >= 128 { SkipVarintIsLocal(s[1..], more); }
  }

  lemma SkipIsLocal(wireType: nat, s: seq<Byte>, more: seq<Byte>)
    requires SkipField(wireType, s).Some?
    ensures SkipField(wireType, s + more) == Some(SkipField(wireType, s).value + more)
  {
    if wireType == WT_VARINT { SkipVarintIsLocal(s, more); }
    else if wireType == WT_64BIT { OctetsAreLocal(8, s, more); }
    else if wireType == WT_STRING { DelimitedIsLocal(s, more); }
    else { OctetsAreLocal(4, s, more); }
  }
}
