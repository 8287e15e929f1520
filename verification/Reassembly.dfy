/** Reassembly of one incoming handshake message (hm_fragment in d1_both.cc). */
module Reassembly {
  import opened Prelude
  import opened DtlsBits
  import opened DtlsWire

  /** Octet i of a body that starts at offset off. */
  function At(body: seq<Byte>, off: nat, i: nat): Byte
    requires off <= i < off + |body|
  {
    body[i - off]
  }

  /** An incoming message: its header fields and the body octets received so far. */
  datatype Frag = Frag(ty: Byte, seqNo: nat, msgLen: nat, got: map<nat, Byte>)
  {
    predicate Complete() {
      forall i: nat | i < msgLen :: i in got
    }

    function Body(): (s: seq<Byte>)
      requires Complete()
    {
      seq(msgLen, i requires 0 <= i < msgLen => got[i])
    }

    /** A fragment stored at an offset; a complete message ignores it. */
    function Receive(off: nat, body: seq<Byte>): Frag {
      if Complete() then this
      else this.(got := got + (map i: nat | off <= i < off + |body| :: At(body, off, i)))
    }
  }

  /** The bitmask octets needed for one bit a body octet. */
  function MaskLength(msgLen: nat): nat {
    (msgLen + 7) / 8
  }

  /** now is was with exactly the bits [start, end) added. */
  ghost predicate MarksExactly(was: seq<bv8>, now: seq<bv8>, start: nat, end: nat) {
    && |now| == |was|
    && forall p: nat | p < 8 * |was| :: BitAt(now, p) == (BitAt(was, p) || start <= p < end)
  }

  lemma MarkPartOfOctet(was: seq<bv8>, now: seq<bv8>, from: nat, j: nat, start: nat, end: nat)
    requires j < |was| && start <= end <= 8
    requires MarksExactly(was, now, from, 8 * j + start) && from <= 8 * j + start
    ensures MarksExactly(was, now[j := now[j] | BitRange(start, end)], from, 8 * j + end)
  {
    forall p: nat | p < 8 * |was|
      ensures BitAt(now[j := now[j] | BitRange(start, end)], p) == (BitAt(was, p) || from <= p < 8 * j + end)
    {
      OrOctet(now, j, start, end, p);
    }
  }

  lemma MarkWholeOctet(was: seq<bv8>, now: seq<bv8>, from: nat, j: nat)
    requires j < |was| && from <= 8 * j && MarksExactly(was, now, from, 8 * j)
    ensures MarksExactly(was, now[j := 0xff], from, 8 * (j + 1))
  {
    forall p: nat | p < 8 * |was|
      ensures BitAt(now[j := 0xff], p) == (BitAt(was, p) || from <= p < 8 * (j + 1))
    {
      FillOctet(now, j, p);
    }
  }

  /** No bit beyond the message is set. */
  ghost predicate CleanTail(mask: seq<bv8>, msgLen: nat) {
    && |mask| == MaskLength(msgLen)
    && forall p: nat | msgLen <= p < 8 * |mask| :: !BitAt(mask, p)
  }

  ghost predicate AllMarked(mask: seq<bv8>, msgLen: nat)
    requires |mask| == MaskLength(msgLen)
  {
    forall p: nat | p < msgLen :: BitAt(mask, p)
  }

  lemma LastOctet(mask: seq<bv8>, msgLen: nat)
    requires CleanTail(mask, msgLen) && msgLen % 8 != 0
    ensures mask[msgLen / 8] == BitRange(0, msgLen % 8)
       <==> forall p: nat | msgLen / 8 * 8 <= p < msgLen :: BitAt(mask, p)
  {
    var j, r := msgLen / 8, msgLen % 8;
    PrefixOctet(mask[j], r);
    forall k: nat | k < 8
      ensures Bit(mask[j], k) == BitAt(mask, j * 8 + k)
      ensures r <= k ==> !Bit(mask[j], k)
    {
      assert r <= k ==> msgLen <= j * 8 + k;
    }
    if mask[j] == BitRange(0, r) {
      forall p: nat | j * 8 <= p < msgLen
        ensures BitAt(mask, p)
      {
        assert Bit(mask[j], p - j * 8);
      }
    }
  }

  /** What the final loop of dtls1_hm_fragment_mark tests. */
  lemma MaskIsFull(mask: seq<bv8>, msgLen: nat)
    requires CleanTail(mask, msgLen)
    ensures (forall i: nat | i < msgLen / 8 :: mask[i] == 0xff)
         && (msgLen % 8 != 0 ==> mask[msgLen / 8] == BitRange(0, msgLen % 8))
       <==> AllMarked(mask, msgLen)
  {
    forall i: nat | i < msgLen / 8
      ensures mask[i] == 0xff <==> forall p: nat | 8 * i <= p < 8 * i + 8 :: BitAt(mask, p)
    {
      FullOctet(mask, i);
    }
    if msgLen % 8 != 0 {
      LastOctet(mask, msgLen);
    }
    if (forall i: nat | i < msgLen / 8 :: mask[i] == 0xff)
       && (msgLen % 8 != 0 ==> mask[msgLen / 8] == BitRange(0, msgLen % 8)) {
      forall p: nat | p < msgLen
        ensures BitAt(mask, p)
      {
        if p / 8 < msgLen / 8 {
          assert mask[p / 8] == 0xff;
        } else {
          assert msgLen / 8 * 8 <= p;
        }
      }
    }
  }

  class HmFragment {
    const ty: Byte
    const seqNo: nat
    const msgLen: nat
    const data: array<Byte>
    var reassembly: array?<bv8>

    ghost function Footprint(): set<object>
      reads this
    {
      if reassembly == null then {this, data} else {this, data, reassembly}
    }

    ghost predicate Valid()
      reads this, Footprint()
    {
      && msgLen < U24_LIMIT && seqNo < U16_LIMIT
      && data.Length == HM_HEADER_LENGTH + msgLen
      && data[..HM_HEADER_LENGTH] == WriteHeader(Header(ty, msgLen, seqNo, 0, msgLen))
      && (reassembly != null ==> CleanTail(reassembly[..], msgLen) && !AllMarked(reassembly[..], msgLen))
    }

    /** Has octet p of the body been received? */
    ghost predicate Marked(p: nat)
      requires Valid() && p < msgLen
      reads this, Footprint()
    {
      reassembly == null || BitAt(reassembly[..], p)
    }

    function BodyOctet(p: nat): Byte
      requires HM_HEADER_LENGTH + p < data.Length
      reads data
    {
      data[HM_HEADER_LENGTH + p]
    }

    /** The message this object represents. */
    ghost function View(): Frag
      requires Valid()
      reads this, Footprint()
    {
      Frag(ty, seqNo, msgLen, map p: nat | p < msgLen && Marked(p) :: BodyOctet(p))
    }

    /** dtls1_hm_fragment_new: nothing received yet, and complete only if the body is empty. */
    constructor (hdr: Header)
      requires hdr.Fits()
      ensures Valid() && fresh(Footprint())
      ensures View() == Frag(hdr.ty, hdr.seqNo, hdr.msgLen, map[])
      ensures reassembly == null <==> hdr.msgLen == 0
    {
      ty := hdr.ty;
      seqNo := hdr.seqNo;
      msgLen := hdr.msgLen;
      var header := WriteHeader(Header(hdr.ty, hdr.msgLen, hdr.seqNo, 0, hdr.msgLen));
      var d := new Byte[HM_HEADER_LENGTH + hdr.msgLen](i => if 0 <= i < HM_HEADER_LENGTH then header[i] else 0);
      data := d;
      var m: array?<bv8> := null;
      if hdr.msgLen > 0 {
        m := new bv8[MaskLength(hdr.msgLen)](_ => 0);
      }
      reassembly := m;
      new;
      assert data[..HM_HEADER_LENGTH] == header;
      if reassembly != null {
        forall p: nat | p < 8 * reassembly.Length
          ensures !BitAt(reassembly[..], p)
        {
          ZeroOctet(p % 8);
        }
        assert !BitAt(reassembly[..], 0);
      }
    }

    /** dtls1_hm_fragment_mark: marks exactly [start, end), and frees the mask exactly when
        every octet of the message is then marked. */
    method Mark(start: nat, end: nat)
      requires Valid() && reassembly != null && start <= end <= msgLen
      modifies this`reassembly, reassembly
      ensures Valid()
      ensures forall p: nat | p < msgLen :: Marked(p) <==> old(Marked(p)) || start <= p < end
      ensures reassembly == null || reassembly == old(reassembly)
      ensures reassembly == null <==> forall p: nat | p < msgLen :: old(Marked(p)) || start <= p < end
    {
      ghost var was := reassembly[..];
      assert forall p: nat | p < msgLen :: old(Marked(p)) == BitAt(was, p);
      if start == end {
        return;
      }
      var mask := reassembly;
      SetRange(mask, start, end);
      var full := IsFull(mask, msgLen);
      if full {
        reassembly := null;
      }
    }

    /** The body of dtls1_open_handshake's fragment loop for an existing message: copy and mark,
        unless the message is already assembled. */
    method Receive(off: nat, body: seq<Byte>)
      requires Valid() && off + |body| <= msgLen
      modifies this`reassembly, data, reassembly
      ensures Valid()
      ensures reassembly == null || reassembly == old(reassembly)
      ensures View() == old(View()).Receive(off, body)
    {
      ViewComplete();
      if reassembly == null {
        return;
      }
      ghost var before := View();
      ghost var was := data[..];
      CopyInto(data, HM_HEADER_LENGTH + off, body);
      assert data[..HM_HEADER_LENGTH] == was[..HM_HEADER_LENGTH];
      assert Valid();
      Mark(off, off + |body|);
      var next := before.Receive(off, body);
      forall p: nat | p < msgLen
        ensures p in View().got <==> p in next.got
        ensures p in View().got ==> View().got[p] == next.got[p]
      {
        assert BodyOctet(p) == if off <= p < off + |body| then At(body, off, p) else was[HM_HEADER_LENGTH + p];
      }
      assert View().got == next.got;
    }

    /** The mask is gone exactly when the represented message is complete, and then data holds the
        whole message with its header as if it had arrived unfragmented. */
    lemma ViewComplete()
      requires Valid()
      ensures reassembly == null <==> View().Complete()
      ensures reassembly == null ==> data[..] == WholeMessage(ty, seqNo, View().Body())
    {
      if reassembly != null {
        var p: nat :| p < msgLen && !BitAt(reassembly[..], p);
        assert p !in View().got;
      } else {
        assert forall p: nat | p < msgLen :: Marked(p) && p in View().got && View().got[p] == BodyOctet(p);
        assert data[HM_HEADER_LENGTH..] == View().Body();
        assert data[..] == data[..HM_HEADER_LENGTH] + data[HM_HEADER_LENGTH..];
      }
    }
  }

  /** The octet a bit lives in, and its position there (p >> 3 and p & 7). */
  method Locate(p: nat) returns (octet: nat, bit: nat)
    ensures p == 8 * octet + bit && bit < 8
  {
    octet, bit := p / 8, p % 8;
  }

  /** One or-assignment, which extends a marked range up to bit end of octet j. */
  method OrInto(mask: array<bv8>, j: nat, start: nat, end: nat, ghost was: seq<bv8>, ghost from: nat)
    requires j < mask.Length && start <= end <= 8
    requires MarksExactly(was, mask[..], from, 8 * j + start) && from <= 8 * j + start
    modifies mask
    ensures MarksExactly(was, mask[..], from, 8 * j + end)
  {
    MarkPartOfOctet(was, mask[..], from, j, start, end);
    mask[j] := mask[j] | BitRange(start, end);
  }

  /** The loop over whole octets. */
  method FillOctets(mask: array<bv8>, lo: nat, hi: nat, ghost was: seq<bv8>, ghost from: nat)
    requires lo <= hi <= mask.Length
    requires MarksExactly(was, mask[..], from, 8 * lo) && from <= 8 * lo
    modifies mask
    ensures MarksExactly(was, mask[..], from, 8 * hi)
  {
    var i := lo;
    while i < hi
      invariant lo <= i <= hi
      invariant MarksExactly(was, mask[..], from, 8 * i)
    {
      MarkWholeOctet(was, mask[..], from, i);
      mask[i] := 0xff;
      i := i + 1;
    }
  }

  /** The three phases of marking a range: its first octet, whole octets, its last octet. */
  method SetRange(mask: array<bv8>, start: nat, end: nat)
    requires start < end <= 8 * mask.Length
    modifies mask
    ensures MarksExactly(old(mask[..]), mask[..], start, end)
  {
    ghost var was := mask[..];
    var lo, lowBit := Locate(start);
    var hi, highBit := Locate(end);
    if lo == hi {
      OrInto(mask, lo, lowBit, highBit, was, start);
    } else {
      OrInto(mask, lo, lowBit, 8, was, start);
      FillOctets(mask, lo + 1, hi, was, start);
      if highBit != 0 {
        OrInto(mask, hi, 0, highBit, was, start);
      }
    }
  }

  /** The completeness test that ends dtls1_hm_fragment_mark. */
  method IsFull(mask: array<bv8>, msgLen: nat) returns (full: bool)
    requires CleanTail(mask[..], msgLen)
    ensures full <==> AllMarked(mask[..], msgLen)
  {
    MaskIsFull(mask[..], msgLen);
    var k := 0;
    while k < msgLen / 8
      invariant 0 <= k <= msgLen / 8
      invariant forall i: nat | i < k :: mask[..][i] == 0xff
    {
      if mask[k] != 0xff {
        assert mask[..][k] != 0xff;
        return false;
      }
      k := k + 1;
    }
    return msgLen % 8 == 0 || mask[msgLen / 8] == BitRange(0, msgLen % 8);
  }

  /** memcpy into a buffer. */
  method CopyInto(data: array<Byte>, at: nat, body: seq<Byte>)
    requires at + |body| <= data.Length
    modifies data
    ensures forall p: nat | p < data.Length ::
              data[p] == if at <= p < at + |body| then At(body, at, p) else old(data[p])
  {
    var i := 0;
    while i < |body|
      invariant 0 <= i <= |body|
      invariant forall p: nat | p < data.Length ::
                  data[p] == if at <= p < at + i then At(body, at, p) else old(data[p])
    {
      data[at + i] := body[i];
      i := i + 1;
    }
  }

  /** A piece of a message: where it starts and the octets it carries. */
  datatype Piece = Piece(off: nat, body: seq<Byte>)
  {
    predicate Covers(i: nat) {
      off <= i < off + |body|
    }
  }

  predicate SliceOf(p: Piece, msg: seq<Byte>) {
    p.off + |p.body| <= |msg| && p.body == msg[p.off..p.off + |p.body|]
  }

  /** Everything stored so far agrees with msg. */
  ghost predicate Agrees(f: Frag, msg: seq<Byte>) {
    f.msgLen == |msg| && forall i | i in f.got :: i < |msg| && f.got[i] == msg[i]
  }

  function ReceiveAll(f: Frag, pieces: seq<Piece>): Frag
    decreases |pieces|
  {
    if pieces == [] then f
    else ReceiveAll(f.Receive(pieces[0].off, pieces[0].body), pieces[1..])
  }

  ghost predicate Covered(pieces: seq<Piece>, i: nat) {
    exists p :: p in pieces && p.Covers(i)
  }

  lemma ReceiveAgrees(f: Frag, p: Piece, msg: seq<Byte>)
    requires Agrees(f, msg) && SliceOf(p, msg)
    ensures Agrees(f.Receive(p.off, p.body), msg)
  {}

  lemma CompleteBody(f: Frag, msg: seq<Byte>)
    requires Agrees(f, msg) && f.Complete()
    ensures f.Body() == msg
  {}

  /** Overlapping, repeated and unordered pieces of one message: the buffer is complete exactly
      when the pieces cover the message, and then it holds the message and never changes. */
  lemma {:induction false} PiecesReassemble(f: Frag, pieces: seq<Piece>, msg: seq<Byte>)
    requires Agrees(f, msg)
    requires forall p | p in pieces :: SliceOf(p, msg)
    ensures Agrees(ReceiveAll(f, pieces), msg)
    ensures ReceiveAll(f, pieces).Complete() <==> forall i: nat | i < |msg| :: i in f.got || Covered(pieces, i)
    ensures ReceiveAll(f, pieces).Complete() ==> ReceiveAll(f, pieces).Body() == msg
    ensures f.Complete() ==> ReceiveAll(f, pieces) == f
    decreases |pieces|
  {
    if pieces != [] {
      var p := pieces[0];
      assert p in pieces;
      assert forall q | q in pieces[1..] :: q in pieces;
      var g := f.Receive(p.off, p.body);
      ReceiveAgrees(f, p, msg);
      PiecesReassemble(g, pieces[1..], msg);
      forall i: nat | i < |msg|
        ensures i in g.got || Covered(pieces[1..], i) <==> i in f.got || Covered(pieces, i)
      {
        assert pieces == [p] + pieces[1..];
        assert !f.Complete() ==> (i in g.got <==> i in f.got || p.Covers(i));
      }
    }
    if ReceiveAll(f, pieces).Complete() {
      CompleteBody(ReceiveAll(f, pieces), msg);
    }
  }
}
