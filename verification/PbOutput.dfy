/** The output stream of pb_encode.c and the encoders that write to it, in place. */
module PbOutput {
  import opened Prelude
  import opened PbWire
  import opened PbMessage
  import opened PbFieldIter
  import opened PbEncode

  /** What a stream has taken so far: its octets, if it keeps them, and their number. */
  datatype Taken = Taken(octets: seq<Byte>, count: nat)

  /** A sizing stream has no limit and keeps nothing; a buffer has room for so many octets. */
  datatype Room = Unlimited | AtMost(limit: nat)

  /** What an encoder does to a stream when enc is what there is to write: it succeeds exactly when there
      is something to write and room for it, and then all of it is taken; octets taken before stay. */
  ghost predicate Wrote(room: Room, before: Taken, after: Taken, enc: Option<seq<Byte>>, ok: bool) {
    && ok == (enc.Some? && (room.AtMost? ==> before.count + |enc.value| <= room.limit))
    && (ok ==> after == Taken(before.octets + if room.Unlimited? then [] else enc.value, before.count + |enc.value|))
    && before.octets <= after.octets
  }

  lemma WroteBoth(room: Room, s0: Taken, s1: Taken, s2: Taken, a: Option<seq<Byte>>, b: Option<seq<Byte>>, ok: bool)
    requires Wrote(room, s0, s1, a, true) && Wrote(room, s1, s2, b, ok)
    ensures Wrote(room, s0, s2, Join(a, b), ok)
  {
    assert ok && room.AtMost? ==> s0.octets + a.value + b.value == s0.octets + (a.value + b.value);
    assert ok && room.Unlimited? ==> s0.octets + [] + [] == s0.octets + [];
  }

  lemma WroteNotAll(room: Room, s0: Taken, s1: Taken, a: Option<seq<Byte>>, b: Option<seq<Byte>>)
    requires Wrote(room, s0, s1, a, false)
    ensures Wrote(room, s0, s1, Join(a, b), false)
  {}

  lemma WroteNothing(room: Room, s0: Taken)
    ensures Wrote(room, s0, s0, Some([]), s0.count <= s0.count && (room.AtMost? ==> s0.count <= room.limit))
  {
    assert s0.octets + [] == s0.octets;
  }

  // ---- Varint lengths ----

  lemma TenOctets(u: nat)
    requires u < TWO64
    ensures |EncVarint(u)| <= 10
  {
    assert Pow128(2) == 0x4000;
    assert Pow128(4) == 0x1000_0000;
    assert Pow128(6) == 0x400_0000_0000;
    assert Pow128(8) == 0x100_0000_0000_0000;
    assert Pow128(10) == 0x4000 * 0x100_0000_0000_0000;
    VarintLength(u, 10);
  }

  /** A pb_ostream_t over a memory buffer, or one that only counts. */
  class OStream {
    const sizing: bool
    const buf: array<Byte>
    const maxSize: nat
    var state: nat
    var bytesWritten: nat

    ghost predicate Valid()
      reads this
    {
      !sizing ==> bytesWritten <= maxSize && state + (maxSize - bytesWritten) <= buf.Length
    }

    ghost function Limit(): Room {
      if sizing then Unlimited else AtMost(maxSize)
    }

    ghost function Snap(): Taken
      requires Valid()
      reads this, buf
    {
      Taken(if sizing then [] else buf[..state], bytesWritten)
    }

    /** PB_OSTREAM_SIZING. */
    constructor Sizing()
      ensures Valid() && sizing && Snap() == Taken([], 0) && fresh(buf)
    {
      sizing, maxSize, state, bytesWritten := true, 0, 0, 0;
      buf := new Byte[0];
    }

    /** pb_ostream_from_buffer, at some place of a buffer. */
    constructor OfBuffer(buf: array<Byte>, state: nat, size: nat)
      requires state + size <= buf.Length
      ensures Valid() && !sizing && this.buf == buf && maxSize == size && this.state == state && bytesWritten == 0
    {
      sizing := false;
      this.buf, maxSize, this.state, bytesWritten := buf, size, state, 0;
    }

    /** buf_write. */
    method Copy(data: seq<Byte>)
      requires Valid() && !sizing && state + |data| <= buf.Length
      modifies `state, buf
      ensures state == old(state) + |data|
      ensures buf[..state] == old(buf[..state]) + data
    {
      var dest := state;
      state := dest + |data|;
      var i := 0;
      while i < |data|
        invariant i <= |data| && state == old(state) + |data|
        invariant buf[..dest] == old(buf[..state])
        invariant buf[dest..dest + i] == data[..i]
      {
        buf[dest + i] := data[i];
        i := i + 1;
      }
      assert buf[..state] == buf[..dest] + buf[dest..dest + i];
    }

    /** pb_write. */
    method Write(data: seq<Byte>) returns (ok: bool)
      requires Valid()
      modifies this, buf
      ensures Valid() && Wrote(Limit(), old(Snap()), Snap(), Some(data), ok)
    {
      if !sizing {
        if bytesWritten + |data| > maxSize {
          return false;
        }
        Copy(data);
      }
      bytesWritten := bytesWritten + |data|;
      return true;
    }

    /** pb_write without data, on a sizing stream. */
    method Count(count: nat)
      requires Valid() && sizing
      modifies `bytesWritten
      ensures Valid() && Snap() == Taken([], old(bytesWritten) + count)
    {
      bytesWritten := bytesWritten + count;
    }

    /** pb_encode_varint. */
    method EncodeVarint(u: nat) returns (ok: bool)
      requires Valid() && u < TWO64
      modifies this, buf
      ensures Valid() && Wrote(Limit(), old(Snap()), Snap(), Some(EncVarint(u)), ok)
    {
      if u <= 0x7f {
        ok := Write([u]);
        return;
      }
      var octets := VarintOctets(u);
      ok := Write(octets);
    }

    /** pb_encode_tag. */
    method EncodeTag(wireType: nat, tag: nat) returns (ok: bool)
      requires Valid() && wireType < 8 && tag < TWO32
      modifies this, buf
      ensures Valid() && Wrote(Limit(), old(Snap()), Snap(), Some(EncTag(wireType, tag)), ok)
    {
      ok := EncodeVarint(8 * tag + wireType);
    }

    /** pb_encode_string. */
    method EncodeString(data: seq<Byte>) returns (ok: bool)
      requires Valid() && |data| < TWO64
      modifies this, buf
      ensures Valid() && Wrote(Limit(), old(Snap()), Snap(), Some(Delimited(data)), ok)
    {
      ghost var s0 := Snap();
      ok := EncodeVarint(|data|);
      if !ok {
        WroteNotAll(Limit(), s0, Snap(), Some(EncVarint(|data|)), Some(data));
        return;
      }
      ghost var s1 := Snap();
      ok := Write(data);
      WroteBoth(Limit(), s0, s1, Snap(), Some(EncVarint(|data|)), Some(data), ok);
    }
  }

  /** Octets put out, all with their top bit set, and the value still to be put out. */
  ghost predicate Underway(u: nat, value: nat, done: seq<Byte>) {
    if value > 0 then EncVarint(u) == done + EncVarint(value)
    else done != [] && done[|done| - 1] >= 128 && EncVarint(u) == done[..|done| - 1] + [done[|done| - 1] - 128]
  }

  lemma OneMoreOctet(u: nat, value: nat, done: seq<Byte>)
    requires value > 0 && Underway(u, value, done)
    ensures |done| < |EncVarint(u)|
    ensures Underway(u, value / 128, done + [Group(value)])
  {
    var next := done + [Group(value)];
    if value < 128 {
      assert next[..|next| - 1] == done;
    } else {
      assert done + EncVarint(value) == next + EncVarint(value / 128);
    }
  }

  /** The low seven bits with the top bit set. */
  function Group(value: nat): (b: Byte)
    ensures b >= 128
  {
    128 + value % 128
  }

  /** The value without its low seven bits. */
  function Shifted(value: nat): (v: nat)
    ensures v == value / 128
    ensures value > 0 ==> v < value
  {
    value / 128
  }

  method PutOctet(buffer: array<Byte>, i: nat, b: Byte)
    requires i < buffer.Length
    modifies buffer
    ensures buffer[..i + 1] == old(buffer[..i]) + [b]
  {
    buffer[i] := b;
    assert buffer[..i + 1] == buffer[..i] + [b];
  }

  /** The multi-octet case of pb_encode_varint: seven bits an octet into a local buffer. */
  method VarintOctets(u: nat) returns (octets: seq<Byte>)
    requires 0x7f < u < TWO64
    ensures octets == EncVarint(u)
  {
    TenOctets(u);
    var buffer := new Byte[10];
    var i: nat, value: nat := 0, u;
    assert [] + EncVarint(u) == EncVarint(u);
    while value != 0
      invariant i <= 10 && Underway(u, value, buffer[..i])
      decreases value
    {
      OneMoreOctet(u, value, buffer[..i]);
      PutOctet(buffer, i, Group(value));
      value := Shifted(value);
      i := i + 1;
    }
    assert buffer[..i][..i - 1] == buffer[..i - 1];
    PutOctet(buffer, i - 1, buffer[i - 1] - 128);
    octets := buffer[..i];
  }
}
