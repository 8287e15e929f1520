/** The input stream of pb_decode.c: reads that advance it in place, and substreams of limited length. */
module PbInput {
  import opened Prelude
  import opened PbWire
  import opened PbDecode

  /** A pb_istream_t over a memory buffer. */
  class IStream {
    const buf: seq<Byte>
    var state: nat
    var bytesLeft: nat

    ghost predicate Valid()
      reads this
    {
      state + bytesLeft <= |buf|
    }

    /** What is left to read. */
    ghost function Rest(): seq<Byte>
      requires Valid()
      reads this
    {
      buf[state..state + bytesLeft]
    }

    /** The place in the buffer where the stream ends; reading never moves it. */
    ghost function End(): nat
      reads this
    {
      state + bytesLeft
    }

    /** pb_istream_from_buffer. */
    constructor (buf: seq<Byte>, state: nat, size: nat)
      requires state + size <= |buf|
      ensures Valid() && this.buf == buf && this.state == state && bytesLeft == size
    {
      this.buf, this.state, bytesLeft := buf, state, size;
    }

    /** pb_readbyte. */
    method ReadByte() returns (ok: bool, b: Byte)
      requires Valid()
      modifies this
      ensures Valid() && End() == old(End())
      ensures ok == (old(Rest()) != [])
      ensures if ok then b == old(Rest())[0] && Rest() == old(Rest())[1..] else Rest() == []
    {
      if bytesLeft == 0 {
        return false, 0;
      }
      ok, b := true, buf[state];
      state, bytesLeft := state + 1, bytesLeft - 1;
    }

    /** pb_read. */
    method Read(count: nat) returns (ok: bool, data: seq<Byte>)
      requires Valid()
      modifies this
      ensures Valid() && End() == old(End())
      ensures ok == ReadOctets(count, old(Rest())).Got?
      ensures if ok then ReadOctets(count, old(Rest())) == Got(data, Rest()) else Rest() == old(Rest())
    {
      if bytesLeft < count {
        return false, [];
      }
      ok, data := true, buf[state..state + count];
      ghost var s := Rest();
      assert s[..count] == data && s[count..] == buf[state + count..state + bytesLeft];
      state, bytesLeft := state + count, bytesLeft - count;
    }

    /** The loop of the two varint decoders; weight is two to the power of bitpos. */
    method VarintLoop(limit: nat, weight0: nat, result0: nat) returns (ok: bool, result: nat)
      requires Valid() && weight0 > 0 && limit > 0
      modifies this
      ensures Valid() && End() == old(End())
      ensures var r := DecVarintFrom(limit, old(Rest()), weight0, result0);
              if ok then r == Got(result, Rest()) else r == Broken(Rest())
    {
      var weight := weight0;
      result := result0;
      while true
        invariant Valid() && End() == old(End()) && weight > 0
        invariant DecVarintFrom(limit, Rest(), weight, result) == DecVarintFrom(limit, old(Rest()), weight0, result0)
        decreases bytesLeft
      {
        if weight >= limit {
          return false, 0;
        }
        var more, b := ReadByte();
        if !more {
          return false, 0;
        }
        result := (result + b % 128 * weight) % limit;
        weight := 128 * weight;
        if b < 128 {
          return true, result;
        }
      }
    }

    /** pb_decode_varint32, with its quick case for one octet. */
    method DecodeVarint32() returns (ok: bool, value: nat)
      requires Valid()
      modifies this
      ensures Valid() && End() == old(End())
      ensures var r := DecVarint(TWO32, old(Rest()));
              if ok then r == Got(value, Rest()) else r == Broken(Rest())
    {
      var more, b := ReadByte();
      if !more {
        return false, 0;
      }
      if b < 128 {
        return true, b;
      }
      ok, value := VarintLoop(TWO32, 128, b % 128);
    }

    /** pb_decode_varint. */
    method DecodeVarint() returns (ok: bool, value: nat)
      requires Valid()
      modifies this
      ensures Valid() && End() == old(End())
      ensures var r := DecVarint(TWO64, old(Rest()));
              if ok then r == Got(value, Rest()) else r == Broken(Rest())
    {
      ok, value := VarintLoop(TWO64, 1, 0);
    }

    /** pb_decode_tag. */
    method DecodeTag() returns (ok: bool, wireType: nat, tag: nat, eof: bool)
      requires Valid()
      modifies this
      ensures Valid() && End() == old(End())
      ensures match DecTag(old(Rest()))
              case Tag(w, t, rest) => ok && wireType == w && tag == t && Rest() == rest
              case EndOfMessage(rest) => !ok && eof && Rest() == rest
              case BadTag => !ok && !eof
    {
      var temp;
      wireType, tag, eof := 0, 0, false;
      ok, temp := DecodeVarint32();
      if !ok {
        eof := bytesLeft == 0;
        return;
      }
      if temp == 0 {
        return false, 0, 0, true;
      }
      tag, wireType := temp / 8, temp % 8;
    }

    /** pb_skip_varint. */
    method SkipVarintOctets() returns (ok: bool)
      requires Valid()
      modifies this
      ensures Valid() && End() == old(End())
      ensures ok == SkipVarint(old(Rest())).Some?
      ensures ok ==> SkipVarint(old(Rest())) == Some(Rest())
    {
      while true
        invariant Valid() && End() == old(End()) && SkipVarint(Rest()) == SkipVarint(old(Rest()))
        decreases bytesLeft
      {
        var more, b := ReadByte();
        if !more {
          return false;
        }
        if b < 128 {
          return true;
        }
      }
    }

    /** pb_skip_string. */
    method SkipString() returns (ok: bool)
      requires Valid()
      modifies this
      ensures Valid() && End() == old(End())
      ensures ok == DecDelimited(old(Rest())).Got?
      ensures ok ==> DecDelimited(old(Rest())).rest == Rest()
    {
      var length;
      ok, length := DecodeVarint32();
      if ok {
        var skipped;
        ok, skipped := Read(length);
      }
    }

    /** pb_skip_field. */
    method Skip(wireType: nat) returns (ok: bool)
      requires Valid()
      modifies this
      ensures Valid() && End() == old(End())
      ensures ok == SkipField(wireType, old(Rest())).Some?
      ensures ok ==> SkipField(wireType, old(Rest())) == Some(Rest())
    {
      if wireType == WT_VARINT {
        ok := SkipVarintOctets();
      } else if wireType == WT_STRING {
        ok := SkipString();
      } else if wireType == WT_64BIT || wireType == WT_32BIT {
        var skipped;
        ok, skipped := Read(if wireType == WT_64BIT then 8 else 4);
      } else {
        return false;
      }
    }

    // ---- Substreams ----

    /** While a substream is open, what this stream has left begins where the substream ends. */
    ghost predicate Lends(sub: IStream)
      reads this, sub
    {
      sub.Valid() && sub.buf == buf && sub.End() + bytesLeft <= |buf|
    }

    ghost function AfterLoan(sub: IStream): seq<Byte>
      requires Lends(sub)
      reads this, sub
    {
      buf[sub.End()..sub.End() + bytesLeft]
    }

    /** pb_make_string_substream. */
    method MakeSubstream() returns (ok: bool, sub: IStream)
      requires Valid()
      modifies this
      ensures fresh(sub) && sub.Valid() && Valid()
      ensures ok == DecDelimited(old(Rest())).Got?
      ensures ok ==> Lends(sub) && DecDelimited(old(Rest())) == Got(sub.Rest(), AfterLoan(sub))
      ensures if ok then sub.End() + bytesLeft == old(End()) else End() == old(End())
    {
      var size;
      ok, size := DecodeVarint32();
      if !ok || bytesLeft < size {
        sub := new IStream(buf, state, 0);
        return false, sub;
      }
      sub := new IStream(buf, state, size);
      ghost var s := Rest();
      assert s[..size] == buf[state..state + size] && s[size..] == buf[state + size..state + bytesLeft];
      bytesLeft := bytesLeft - size;
    }

    /** pb_close_string_substream: passes over what the substream has left. */
    method CloseSubstream(sub: IStream)
      requires sub != this && Lends(sub)
      modifies this, sub
      ensures Valid() && Rest() == old(AfterLoan(sub)) && End() == old(sub.End() + bytesLeft)
    {
      if sub.bytesLeft != 0 {
        var _, _ := sub.Read(sub.bytesLeft);
      }
      state := sub.state;
    }
  }
}
