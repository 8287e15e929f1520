/** SSLBuffer, a transport buffer with 16-bit bookkeeping, and the transport itself. */
module TlsBuffer {
  import opened Prelude

  const MAX_CAP := 0xffff
  const WRAP := 0x1_0000
  const ALIGN_PAYLOAD := 8

  /** The arithmetic of uint16_t. */
  function Wrap16(x: nat): nat {
    x % WRAP
  }

  /** Where in fresh memory at that address the contents start, so that what follows the header is aligned. */
  function AlignedOffset(header: nat, address: nat): nat {
    (0 - header - address) % ALIGN_PAYLOAD
  }

  /** What the bookkeeping takes for the contents after len of size octets at offset were consumed. */
  function AfterConsume(memory: seq<Byte>, offset: nat, size: nat, len: nat): seq<Byte>
    requires len <= size && offset + size <= |memory|
  {
    var at := Wrap16(offset + len);
    memory[at..at + (size - len)]
  }

  /** The offset wraps around while there is something left exactly when the contents reach beyond 2^16
      octets of memory; then there are contents of which the wrong octets are kept. */
  lemma ConsumeIsExact(offset: nat, size: nat)
    requires offset < WRAP && size <= MAX_CAP
    ensures offset + size <= 0x1_0000 <==>
            forall memory: seq<Byte>, len: nat :: offset + size <= |memory| && len < size ==>
              AfterConsume(memory, offset, size, len) == memory[offset + len..offset + size]
  {
    if offset + size > WRAP {
      var memory: seq<Byte> := seq(offset + size, i => if i < WRAP then 0 else 1);
      var len := WRAP - offset;
      assert AfterConsume(memory, offset, size, len)[0] == 0 && memory[offset + len..offset + size][0] == 1;
    }
  }

  /** What a transport is given that takes so many octets at a time. */
  function Given(memory: seq<Byte>, offset: nat, size: nat, takes: seq<nat>): (given: seq<Byte>)
    requires offset + size <= |memory| && offset < WRAP
    decreases |takes|
  {
    if takes == [] || takes[0] > size then []
    else memory[offset..offset + takes[0]] + Given(memory, Wrap16(offset + takes[0]), size - takes[0], takes[1..])
  }

  lemma {:induction false} GivenInOrder(memory: seq<Byte>, offset: nat, size: nat, takes: seq<nat>)
    requires offset + size <= |memory| && offset < WRAP && offset + size <= WRAP
    ensures Given(memory, offset, size, takes) <= memory[offset..offset + size]
    decreases |takes|
  {
    if takes != [] && takes[0] <= size {
      var n := takes[0];
      if n < size {
        GivenInOrder(memory, offset + n, size - n, takes[1..]);
        assert memory[offset..offset + n] + memory[offset + n..offset + size] == memory[offset..offset + size];
      } else {
        GivenNothing(memory, Wrap16(offset + n), takes[1..]);
      }
    }
  }

  lemma {:induction false} GivenNothing(memory: seq<Byte>, offset: nat, takes: seq<nat>)
    requires offset <= |memory| && offset < WRAP
    ensures Given(memory, offset, 0, takes) == []
    decreases |takes|
  {
    if takes != [] && takes[0] == 0 { GivenNothing(memory, offset, takes[1..]); }
  }

  /** What the transport is given is the contents, as far as it takes them. */
  predicate InOrder(memory: seq<Byte>, offset: nat, size: nat, takes: seq<nat>)
    requires offset + size <= |memory| && offset < WRAP
  {
    Given(memory, offset, size, takes) <= memory[offset..offset + size]
  }

  /** Whatever the contents are and however they are taken, the transport is given them in order, if and only
      if they end within 2^16 octets of memory. */
  lemma FlushIsExact(offset: nat, size: nat)
    requires offset < WRAP && size <= MAX_CAP
    ensures offset + size <= 0x1_0000 <==>
            forall memory: seq<Byte>, takes: seq<nat> :: offset + size <= |memory| ==> InOrder(memory, offset, size, takes)
  {
    if offset + size <= WRAP {
      forall memory: seq<Byte>, takes: seq<nat> | offset + size <= |memory|
        ensures InOrder(memory, offset, size, takes)
      {
        GivenInOrder(memory, offset, size, takes);
      }
    } else {
      var memory: seq<Byte> := seq(offset + size, i => if i < WRAP then 0 else 1);
      var len := WRAP - offset;
      var given := Given(memory, offset, size, [len, 1]);
      assert [len, 1][1..] == [1] && Wrap16(offset + len) == 0;
      assert Given(memory, 0, size - len, [1]) == memory[0..1] + Given(memory, Wrap16(1), size - len - 1, [1][1..]);
      assert given[len] == 0 && memory[offset..offset + size][len] == 1;
      assert !InOrder(memory, offset, size, [len, 1]);
    }
  }

  /** The contents lie in memory from offset on. */
  ghost predicate Holds(buf: array<Byte>, offset: nat, contents: seq<Byte>)
    reads buf
  {
    offset + |contents| <= buf.Length && forall i :: 0 <= i < |contents| ==> buf[offset + i] == contents[i]
  }

  lemma MoveFront(a: seq<Byte>, c: seq<Byte>, len: nat)
    requires len <= |c|
    ensures (a + c[..len]) + c[len..] == a + c
  {
    assert c == c[..len] + c[len..];
  }

  /** What a transport was asked, and its answer. */
  datatype Asked = Wrote(offered: seq<Byte>, ret: int) | Flushed(ret: int)

  /** It has since been asked nothing that it refused. */
  ghost predicate Took(asked0: seq<Asked>, asked1: seq<Asked>) {
    asked0 <= asked1 && forall k | |asked0| <= k < |asked1| :: asked1[k].ret > 0
  }

  /** It has since been offered all of that, and refused, and nothing before that. */
  ghost predicate Refused(asked0: seq<Asked>, asked1: seq<Asked>, left: seq<Byte>) {
    |asked0| < |asked1| && Took(asked0, asked1[..|asked1| - 1]) &&
    var last := asked1[|asked1| - 1]; last.Wrote? && last.offered == left && last.ret <= 0
  }

  lemma TookNothing(asked: seq<Asked>)
    ensures Took(asked, asked)
  {}

  lemma TookOn(asked0: seq<Asked>, asked1: seq<Asked>, asked2: seq<Asked>)
    requires Took(asked0, asked1) && Took(asked1, asked2)
    ensures Took(asked0, asked2)
  {}

  lemma RefusedOn(asked0: seq<Asked>, asked1: seq<Asked>, asked2: seq<Asked>, left: seq<Byte>)
    requires Took(asked0, asked1) && Refused(asked1, asked2, left)
    ensures Refused(asked0, asked2, left)
  {}

  lemma RefusedIsNot(asked0: seq<Asked>, asked1: seq<Asked>, left: seq<Byte>)
    requires Refused(asked0, asked1, left)
    ensures !Took(asked0, asked1)
  {}

  /** A stream transport: it takes some of what it is offered, or nothing. */
  class Bio {
    var accepted: seq<Byte>
    ghost var asked: seq<Asked>

    constructor ()
      ensures accepted == [] && asked == []
    {
      accepted, asked := [], [];
    }

    method Write(data: seq<Byte>) returns (ret: int)
      modifies this
      ensures ret <= |data|
      ensures accepted == if ret > 0 then old(accepted) + data[..ret] else old(accepted)
      ensures asked == old(asked) + [Wrote(data, ret)]
    {
      ret := *;
      if ret > |data| {
        ret := |data|;
      }
      if ret > 0 {
        accepted := accepted + data[..ret];
      }
      asked := asked + [Wrote(data, ret)];
    }

    method Flush() returns (ret: int)
      modifies `asked
      ensures asked == old(asked) + [Flushed(ret)]
    {
      ret := *;
      asked := asked + [Flushed(ret)];
    }
  }

  class SSLBuffer {
    var buf: array?<Byte>
    var offset: nat
    var size: nat
    var cap: nat
    /** The octets from offset on, as many as size. */
    ghost var contents: seq<Byte>

    ghost predicate Valid()
      reads this, buf
    {
      && |contents| == size <= cap
      && if buf == null then offset == 0 && cap == 0
         else cap <= MAX_CAP && offset < WRAP && offset + cap <= buf.Length && Holds(buf, offset, contents)
    }

    /** No consuming will make the offset wrap around with something left. */
    predicate Straight()
      reads this
    {
      offset + size <= WRAP
    }

    constructor ()
      ensures Valid() && Straight() && buf == null && contents == []
    {
      buf, offset, size, cap, contents := null, 0, 0, 0, [];
    }

    method Clear()
      modifies this
      ensures Valid() && Straight() && buf == null && contents == []
    {
      buf, offset, size, cap, contents := null, 0, 0, 0, [];
    }

    /** Memory for newCap octets, at whatever address it is given. */
    method EnsureCap(header: nat, newCap: nat, address: nat) returns (ok: bool)
      requires Valid()
      modifies this
      ensures Valid() && contents == old(contents)
      ensures ok <==> newCap <= 0xffff
      ensures ok ==> newCap <= cap
      ensures ok && old(cap) < newCap ==> offset < 8 && (address + header + offset) % 8 == 0
      ensures if ok && old(cap) < newCap then fresh(buf) && offset == AlignedOffset(header, address) && cap == newCap
              else buf == old(buf) && offset == old(offset) && cap == old(cap)
    {
      if newCap > MAX_CAP {
        return false;
      }
      if cap >= newCap {
        return true;
      }
      var newBuf := new Byte[newCap + ALIGN_PAYLOAD - 1];
      var newOffset := AlignedOffset(header, address);
      if buf != null {
        forall i | newOffset <= i < newOffset + size {
          newBuf[i] := buf[offset + (i - newOffset)];
        }
      }
      buf, offset, cap := newBuf, newOffset, newCap;
      ok := true;
    }

    /** Filling in part of what remains of the capacity, and DidWrite. */
    method Append(data: seq<Byte>)
      requires Valid() && |data| <= cap - size
      modifies `size, `contents, buf
      ensures Valid() && size == old(size) + |data| && contents == old(contents) + data
    {
      if buf != null {
        forall i | offset + size <= i < offset + size + |data| {
          buf[i] := data[i - (offset + size)];
        }
      }
      size := size + |data|;
      contents := contents + data;
    }

    /** Once the offset has wrapped around, the contents are what lies at the place it then names. */
    method Consume(len: nat)
      requires Valid() && len <= size
      modifies `offset, `size, `cap, `contents
      ensures Valid() && size == old(size) - len && cap == old(cap) - len && offset == Wrap16(old(offset) + len)
      ensures buf != null ==> contents == AfterConsume(buf[..], old(offset), old(size), len)
      ensures old(Straight()) ==> Straight() && contents == old(contents)[len..]
    {
      var at := Wrap16(offset + len);
      assert len < size && offset + size <= WRAP ==> at == offset + len;
      contents := if buf == null then [] else buf[at..at + (size - len)];
      offset, size, cap := at, size - len, cap - len;
    }

    method DiscardConsumed()
      requires Valid()
      modifies this
      ensures Valid() && contents == old(contents) && (old(Straight()) ==> Straight())
      ensures if old(size) == 0 then buf == null else buf == old(buf) && offset == old(offset) && cap == old(cap)
    {
      if size == 0 {
        Clear();
      }
    }

    /** One BIO_write of all there is, and what it took is consumed. */
    method Offer(bio: Bio) returns (ret: int)
      requires Valid() && size > 0
      modifies `offset, `size, `cap, `contents, bio
      ensures Valid() && ret <= old(size)
      ensures old(Straight()) ==> Straight() && bio.accepted + contents == old(bio.accepted) + old(contents)
      ensures if ret > 0 then size == old(size) - ret else size == old(size) && contents == old(contents)
      ensures bio.asked == old(bio.asked) + [Wrote(old(contents), ret)]
    {
      ghost var a, c := bio.accepted, contents;
      assert buf[offset..offset + size] == contents;
      ret := bio.Write(buf[offset..offset + size]);
      if ret > 0 {
        Consume(ret);
        MoveFront(a, c, ret);
      }
    }

    /** tls_write_buffer_flush: the transport takes what it will, from the front, in order unless the offset
        wraps around. */
    method FlushTo(bio: Bio) returns (ok: bool)
      requires Valid()
      modifies this, bio
      ensures Valid() && (buf == null || buf == old(buf))
      ensures old(Straight()) ==> Straight() && bio.accepted + contents == old(bio.accepted) + old(contents)
      ensures if ok then size == 0 && buf == null else size > 0
      ensures if ok then Took(old(bio.asked), bio.asked) else Refused(old(bio.asked), bio.asked, contents)
      ensures old(size) == 0 ==> bio.asked == old(bio.asked)
    {
      ghost var all := bio.accepted + contents;
      while size > 0
        invariant Valid() && buf == old(buf)
        invariant old(Straight()) ==> Straight() && bio.accepted + contents == all
        invariant Took(old(bio.asked), bio.asked) && (old(size) == 0 ==> bio.asked == old(bio.asked))
        decreases size
      {
        ghost var asked := bio.asked;
        var ret := Offer(bio);
        if ret <= 0 {
          assert bio.asked[..|bio.asked| - 1] == asked;
          return false;
        }
      }
      assert contents == [];
      Clear();
      ok := true;
    }
  }
}
