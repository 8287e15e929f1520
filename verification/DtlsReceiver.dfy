/** Receiving DTLS handshake messages: the incoming ring of d1_both.cc and the record filter of
    dtls_record.cc, on values. DtlsIncoming has the same operations in place. */
module DtlsReceiver {
  import opened Prelude
  import opened DtlsWire
  import opened Reassembly
  import ReplayWindow

  datatype AlertCode = UnexpectedMessage | IllegalParameter | DecodeError | InternalError | RecordOverflow

  datatype OpenResult = Success | Discarded | AlertReceived | Failed(alert: AlertCode)

  /** A ring entry: the message, and the read epochs its header and octets came from. */
  datatype Slot = Slot(frag: Frag, sources: set<nat>)

  datatype State = State(
    readSeq: nat,
    readEpoch: nat,
    nullCipher: bool,
    slots: seq<Option<Slot>>,
    hasMessage: bool,
    hasCcs: bool,
    accepted: set<nat>)
  {
    function Current(): Option<Slot>
      requires |slots| == MAX_FLIGHT
    {
      slots[readSeq % MAX_FLIGHT]
    }

    predicate CurrentComplete()
      requires |slots| == MAX_FLIGHT
    {
      Current().Some? && Current().value.frag.Complete()
    }

    function PutSlot(i: nat, s: Slot): State
      requires i < |slots|
    {
      this.(slots := slots[i := Some(s)])
    }

    /** What every reachable receiver satisfies about entry i of its ring. */
    ghost predicate SlotOk(i: nat)
      requires i < |slots|
    {
      slots[i].Some? ==>
        var s := slots[i].value;
        && s.frag.seqNo % MAX_FLIGHT == i
        && readSeq <= s.frag.seqNo < readSeq + MAX_FLIGHT
        && s.frag.seqNo < U16_LIMIT && s.frag.msgLen < U24_LIMIT
        && (forall k | k in s.frag.got :: k < s.frag.msgLen)
        && (exists e :: s.sources == {e})
        && (!s.frag.Complete() ==> s.sources == {readEpoch})
    }

    ghost predicate Valid() {
      && |slots| == MAX_FLIGHT
      && readSeq < U16_LIMIT && readEpoch < U16_LIMIT
      && (forall i: nat | i < MAX_FLIGHT :: SlotOk(i))
      && (hasMessage ==> CurrentComplete())
    }
  }

  function Start(): State {
    State(0, 0, true, seq(MAX_FLIGHT, _ => None), false, false, {})
  }

  lemma StartIsValid()
    ensures Start().Valid()
  {}

  datatype Handled = Continue(st: State) | Stop(st: State, alert: AlertCode)

  predicate BadBounds(hdr: Header, maxLen: nat) {
    hdr.fragOff > hdr.msgLen || hdr.fragOff + hdr.fragLen > hdr.msgLen || hdr.msgLen > maxLen
  }

  /** dtls1_get_incoming_message: the state with an entry for the message, created if needed. */
  function GetIncoming(st: State, hdr: Header): Handled
    requires |st.slots| == MAX_FLIGHT
  {
    if hdr.seqNo < st.readSeq || hdr.seqNo - st.readSeq >= MAX_FLIGHT then Stop(st, InternalError)
    else
      match st.slots[hdr.seqNo % MAX_FLIGHT]
      case Some(s) =>
        if s.frag.ty != hdr.ty || s.frag.msgLen != hdr.msgLen then Stop(st, IllegalParameter) else Continue(st)
      case None =>
        Continue(st.PutSlot(hdr.seqNo % MAX_FLIGHT, Slot(Frag(hdr.ty, hdr.seqNo, hdr.msgLen, map[]), {st.readEpoch})))
  }

  /** Copying a body into a ring entry and marking it. */
  function Store(s: Slot, epoch: nat, off: nat, body: seq<Byte>): Slot {
    Slot(s.frag.Receive(off, body), if s.frag.Complete() then s.sources else s.sources + {epoch})
  }

  /** One turn of dtls1_open_handshake's fragment loop. */
  function HandleFragment(st: State, hdr: Header, body: seq<Byte>, maxLen: nat): Handled
    requires |st.slots| == MAX_FLIGHT
  {
    if BadBounds(hdr, maxLen) then Stop(st, IllegalParameter)
    else if st.readEpoch == 1 && hdr.seqNo != st.readSeq then Stop(st, UnexpectedMessage)
    else if hdr.seqNo < st.readSeq || hdr.seqNo > st.readSeq + MAX_FLIGHT then Continue(st)
    else
      match GetIncoming(st, hdr)
      case Stop(st1, alert) => Stop(st1, alert)
      case Continue(st1) =>
        var i := hdr.seqNo % MAX_FLIGHT;
        Continue(st1.PutSlot(i, Store(st1.slots[i].value, st1.readEpoch, hdr.fragOff, body)))
  }

  /** The fragment loop over the payload of one record. */
  function HandlePayload(st: State, payload: seq<Byte>, maxLen: nat): (r: (State, OpenResult))
    requires |st.slots| == MAX_FLIGHT
    decreases |payload|
  {
    if payload == [] then (st, Success)
    else
      var p := ParseFragment(payload);
      if p.None? then (st, Failed(DecodeError))
      else
        match HandleFragment(st, p.value.hdr, p.value.body, maxLen)
        case Stop(st1, alert) => (st1, Failed(alert))
        case Continue(st1) => HandlePayload(st1, p.value.rest, maxLen)
  }

  /** The 64-bit value of the epoch and number octets of a record header. */
  function SequenceNumber(epoch: nat, number: nat): nat {
    epoch * U48_LIMIT + number
  }

  /** dtls1_open_handshake on one record. opens is the outcome of the AEAD. */
  ghost function OpenHandshake(st: State, rec: Record, opens: bool, maxLen: nat): (r: (State, OpenResult))
    requires |st.slots| == MAX_FLIGHT
  {
    var n := SequenceNumber(rec.epoch, rec.number);
    if rec.epoch != st.readEpoch || ReplayWindow.Discards(st.accepted, n) || !opens then (st, Discarded)
    else if |rec.payload| > MAX_PLAIN_LENGTH then (st, Failed(RecordOverflow))
    else
      var st1 := st.(accepted := st.accepted + {n});
      match rec.ctype
      case Alert => (st1, AlertReceived)
      case ApplicationData => (st1, if st.nullCipher then Failed(UnexpectedMessage) else Discarded)
      case ChangeCipherSpec =>
        if !st.nullCipher then (st1, Failed(UnexpectedMessage))
        else if rec.payload != CCS_PAYLOAD then (st1, Failed(IllegalParameter))
        else (st1.(hasCcs := true), Success)
      case Unknown => (st1, Failed(UnexpectedMessage))
      case Handshake => HandlePayload(st1, rec.payload, maxLen)
  }

  /** dtls1_open_change_cipher_spec. */
  ghost function OpenChangeCipherSpec(st: State, rec: Record, opens: bool, maxLen: nat): (r: (State, OpenResult))
    requires |st.slots| == MAX_FLIGHT
  {
    var (st1, result) := if st.hasCcs then (st, Success) else OpenHandshake(st, rec, opens, maxLen);
    if result != Success then (st1, result)
    else if st1.hasCcs then (st1.(hasCcs := false), Success)
    else (st1, Discarded)
  }

  datatype Message = Message(ty: Byte, body: seq<Byte>, raw: seq<Byte>)

  /** dtls1_get_message. */
  function GetMessage(st: State): (r: (State, Option<Message>))
    requires st.Valid()
  {
    if st.CurrentComplete() then
      var f := st.Current().value.frag;
      assert st.SlotOk(st.readSeq % MAX_FLIGHT);
      (st.(hasMessage := true), Some(Message(f.ty, f.Body(), WholeMessage(f.ty, f.seqNo, f.Body()))))
    else (st, None)
  }

  /** dtls1_next_message, on the message number's 16 bits. */
  function NextMessage(st: State): State
    requires st.Valid() && st.hasMessage
  {
    st.(slots := st.slots[st.readSeq % MAX_FLIGHT := None],
        readSeq := (st.readSeq + 1) % U16_LIMIT,
        hasMessage := false)
  }

  /** dtls_has_unprocessed_handshake_data. */
  predicate HasUnprocessedData(st: State)
    requires |st.slots| == MAX_FLIGHT
  {
    st.hasCcs || exists i: nat :: i < MAX_FLIGHT && st.slots[i].Some? && !(st.hasMessage && i == st.readSeq % MAX_FLIGHT)
  }

  /** dtls1_set_read_state, on the epoch's 16 bits. The new context is never the null cipher. */
  function SetReadState(st: State): Option<State>
    requires |st.slots| == MAX_FLIGHT
  {
    if HasUnprocessedData(st) then None
    else Some(st.(readEpoch := (st.readEpoch + 1) % U16_LIMIT, accepted := {}, nullCipher := false))
  }

  /** The assertion in dtls1_get_incoming_message: a message number in the window names its slot. */
  lemma SlotSeqIsExact(st: State, seqNo: nat)
    requires st.Valid() && st.readSeq <= seqNo < st.readSeq + MAX_FLIGHT
    ensures var s := st.slots[seqNo % MAX_FLIGHT]; s.Some? ==> s.value.frag.seqNo == seqNo
  {
    assert st.SlotOk(seqNo % MAX_FLIGHT);
  }

  /** Replacing an entry by one that satisfies the ring invariant keeps it, if a completed message
      stays complete. */
  lemma PutSlotKeepsValid(st: State, i: nat, s: Slot)
    requires st.Valid() && i < MAX_FLIGHT && st.PutSlot(i, s).SlotOk(i)
    requires st.slots[i].Some? && st.slots[i].value.frag.Complete() ==> s.frag.Complete()
    ensures st.PutSlot(i, s).Valid()
  {
    var st1 := st.PutSlot(i, s);
    forall j: nat | j < MAX_FLIGHT
      ensures st1.SlotOk(j)
    {
      assert st.SlotOk(j);
    }
  }

  lemma GetIncomingKeepsValid(st: State, hdr: Header)
    requires st.Valid() && hdr.Fits()
    ensures GetIncoming(st, hdr).st.Valid()
    ensures GetIncoming(st, hdr).Continue? ==>
              var s := GetIncoming(st, hdr).st.slots[hdr.seqNo % MAX_FLIGHT];
              && st.readSeq <= hdr.seqNo < st.readSeq + MAX_FLIGHT
              && s.Some? && s.value.frag.seqNo == hdr.seqNo
              && s.value.frag.ty == hdr.ty && s.value.frag.msgLen == hdr.msgLen
  {
    var i := hdr.seqNo % MAX_FLIGHT;
    if st.readSeq <= hdr.seqNo < st.readSeq + MAX_FLIGHT {
      SlotSeqIsExact(st, hdr.seqNo);
      if st.slots[i].None? {
        PutSlotKeepsValid(st, i, Slot(Frag(hdr.ty, hdr.seqNo, hdr.msgLen, map[]), {st.readEpoch}));
      }
    }
  }

  lemma StoreKeepsValid(st: State, i: nat, off: nat, body: seq<Byte>)
    requires st.Valid() && i < MAX_FLIGHT && st.slots[i].Some? && off + |body| <= st.slots[i].value.frag.msgLen
    ensures st.PutSlot(i, Store(st.slots[i].value, st.readEpoch, off, body)).Valid()
  {
    assert st.SlotOk(i);
    var s := st.slots[i].value;
    assert Store(s, st.readEpoch, off, body).sources == s.sources;
    PutSlotKeepsValid(st, i, Store(s, st.readEpoch, off, body));
  }

  lemma HandleFragmentKeepsValid(st: State, hdr: Header, body: seq<Byte>, maxLen: nat)
    requires st.Valid() && hdr.Fits() && |body| == hdr.fragLen
    ensures HandleFragment(st, hdr, body, maxLen).st.Valid()
  {
    GetIncomingKeepsValid(st, hdr);
    if !BadBounds(hdr, maxLen) && GetIncoming(st, hdr).Continue? {
      StoreKeepsValid(GetIncoming(st, hdr).st, hdr.seqNo % MAX_FLIGHT, hdr.fragOff, body);
    }
  }

  lemma HandlePayloadKeepsValid(st: State, payload: seq<Byte>, maxLen: nat)
    requires st.Valid()
    ensures HandlePayload(st, payload, maxLen).0.Valid()
    decreases |payload|
  {
    if payload != [] && ParseFragment(payload).Some? {
      var p := ParseFragment(payload).value;
      HandleFragmentKeepsValid(st, p.hdr, p.body, maxLen);
      HandlePayloadKeepsValid(HandleFragment(st, p.hdr, p.body, maxLen).st, p.rest, maxLen);
    }
  }

  /** Fields that do not appear in the ring invariant may change freely. */
  lemma SameRingIsValid(st: State, st1: State)
    requires st.Valid()
    requires st1.slots == st.slots && st1.readSeq == st.readSeq && st1.readEpoch == st.readEpoch
    requires st1.hasMessage ==> st.CurrentComplete()
    ensures st1.Valid()
  {
    forall i: nat | i < MAX_FLIGHT
      ensures st1.SlotOk(i)
    {
      assert st.SlotOk(i);
    }
  }

  lemma OpenHandshakeKeepsValid(st: State, rec: Record, opens: bool, maxLen: nat)
    requires st.Valid()
    ensures OpenHandshake(st, rec, opens, maxLen).0.Valid()
  {
    var st1 := st.(accepted := st.accepted + {SequenceNumber(rec.epoch, rec.number)});
    SameRingIsValid(st, st1);
    SameRingIsValid(st1, st1.(hasCcs := true));
    HandlePayloadKeepsValid(st1, rec.payload, maxLen);
  }

  lemma OpenChangeCipherSpecKeepsValid(st: State, rec: Record, opens: bool, maxLen: nat)
    requires st.Valid()
    ensures OpenChangeCipherSpec(st, rec, opens, maxLen).0.Valid()
  {
    OpenHandshakeKeepsValid(st, rec, opens, maxLen);
    SameRingIsValid(st, st.(hasCcs := false));
    var st1 := OpenHandshake(st, rec, opens, maxLen).0;
    SameRingIsValid(st1, st1.(hasCcs := false));
  }

  lemma GetMessageKeepsValid(st: State)
    requires st.Valid()
    ensures GetMessage(st).0.Valid()
  {
    SameRingIsValid(st, GetMessage(st).0);
  }

  lemma NextMessageKeepsValid(st: State)
    requires st.Valid() && st.hasMessage
    ensures NextMessage(st).Valid()
  {
    var st1 := NextMessage(st);
    forall i: nat | i < MAX_FLIGHT
      ensures st1.SlotOk(i)
    {
      assert st.SlotOk(i);
    }
  }

  /** The read state only changes when every other slot is empty, so the one message that may
      survive the change is complete and keeps its old sources. */
  lemma SetReadStateKeepsValid(st: State)
    requires st.Valid() && SetReadState(st).Some?
    ensures SetReadState(st).value.Valid()
  {
    var st1 := SetReadState(st).value;
    forall i: nat | i < MAX_FLIGHT
      ensures st1.SlotOk(i)
    {
      assert st.SlotOk(i);
      if st.slots[i].Some? {
        assert st.hasMessage && i == st.readSeq % MAX_FLIGHT;
      }
    }
  }

  /** The loop's comment says fragments too far in the future are ignored. The code ignores a
      well-formed fragment outside the window exactly when its number is not readSeq + 7: that one
      number ends the connection with an internal error. */
  lemma FutureFragments(st: State, hdr: Header, body: seq<Byte>, maxLen: nat)
    requires st.Valid() && !BadBounds(hdr, maxLen) && st.readEpoch != 1
    requires !(st.readSeq <= hdr.seqNo < st.readSeq + 7)
    ensures HandleFragment(st, hdr, body, maxLen) == Continue(st) <==> hdr.seqNo != st.readSeq + 7
    ensures HandleFragment(st, hdr, body, maxLen) == Stop(st, InternalError) <==> hdr.seqNo == st.readSeq + 7
  {}

  /** Already a receiver that has just started fails on the first fragment of message 7. */
  lemma FutureFragmentAtStart(body: seq<Byte>)
    requires |body| <= MAX_PLAIN_LENGTH - HM_HEADER_LENGTH
    ensures var hdr := Header(1, |body|, 7, 0, |body|);
            && OpenHandshake(Start(), Record(Handshake, 0, 0, WriteHeader(hdr) + body), true, MAX_PLAIN_LENGTH).1
               == Failed(InternalError)
            && HandleFragment(Start(), hdr.(seqNo := 8), body, MAX_PLAIN_LENGTH) == Continue(Start())
  {
    var hdr := Header(1, |body|, 7, 0, |body|);
    ParseWritten(hdr, body, []);
    assert WriteHeader(hdr) + body + [] == WriteHeader(hdr) + body;
    FutureFragments(Start(), hdr, body, MAX_PLAIN_LENGTH);
  }
}
