/** The receive half of DTLS1_STATE, updated in place and proved to follow DtlsReceiver. */
module DtlsIncoming {
  import opened Prelude
  import opened DtlsWire
  import opened Reassembly
  import opened DtlsReceiver
  import ReplayWindow

  class Receiver {
    const incoming: array<HmFragment?>
    const bitmap: ReplayWindow.Bitmap
    var readSeq: nat
    var readEpoch: nat
    var nullCipher: bool
    var hasMessage: bool
    var hasCcs: bool
    ghost var sources: seq<set<nat>>
    ghost var Repr: set<object>

    /** The slots' objects are valid, belong to Repr, and share nothing. */
    ghost predicate RingOk()
      reads this, Repr
    {
      && {this, incoming, bitmap} <= Repr
      && incoming.Length == MAX_FLIGHT && |sources| == MAX_FLIGHT
      && (forall i | 0 <= i < MAX_FLIGHT && incoming[i] != null ::
            && incoming[i] in Repr && incoming[i].Footprint() <= Repr
            && incoming[i].Footprint() !! {this, incoming, bitmap}
            && incoming[i].Valid())
      && (forall i, j | 0 <= i < j < MAX_FLIGHT && incoming[i] != null && incoming[j] != null ::
            incoming[i].Footprint() !! incoming[j].Footprint())
    }

    ghost function SlotView(i: nat): Option<Slot>
      requires RingOk() && i < MAX_FLIGHT
      reads this, Repr
    {
      if incoming[i] == null then None else Some(Slot(incoming[i].View(), sources[i]))
    }

    ghost function View(): State
      requires RingOk()
      reads this, Repr
    {
      State(readSeq, readEpoch, nullCipher,
            seq(MAX_FLIGHT, i requires 0 <= i < MAX_FLIGHT && RingOk() reads this, Repr => SlotView(i)),
            hasMessage, hasCcs, bitmap.accepted)
    }

    ghost predicate Valid()
      reads this, Repr
    {
      RingOk() && bitmap.Valid() && View().Valid()
    }

    constructor ()
      ensures Valid() && fresh(Repr) && View() == Start()
    {
      incoming := new HmFragment?[MAX_FLIGHT](_ => null);
      bitmap := new ReplayWindow.Bitmap();
      readSeq, readEpoch, nullCipher, hasMessage, hasCcs := 0, 0, true, false, false;
      sources := seq(MAX_FLIGHT, _ => {});
      new;
      Repr := {this, incoming, bitmap};
      StartIsValid();
      assert View().slots == Start().slots;
    }

    /** dtls1_is_current_message_complete. */
    method IsCurrentMessageComplete() returns (complete: bool)
      requires Valid()
      ensures complete <==> View().CurrentComplete()
    {
      var frag := incoming[readSeq % MAX_FLIGHT];
      if frag == null {
        return false;
      }
      frag.ViewComplete();
      return frag.reassembly == null;
    }

    /** The ring with one slot replaced by a fresh, disjoint object. */
    method Install(idx: nat, frag: HmFragment, ghost epochs: set<nat>)
      requires RingOk() && idx < MAX_FLIGHT && frag.Valid() && frag.Footprint() !! Repr
      modifies this`sources, this`Repr, incoming
      ensures RingOk() && Repr == old(Repr) + frag.Footprint()
      ensures incoming[idx] == frag
      ensures View() == old(View()).(slots := old(View()).slots[idx := Some(Slot(frag.View(), epochs))])
    {
      incoming[idx] := frag;
      sources := sources[idx := epochs];
      Repr := Repr + frag.Footprint();
    }

    /** Nothing that the ring is made of changed. */
    twostate lemma RingUntouched()
      requires old(RingOk()) && unchanged(this`sources, this`Repr) && unchanged(old(Repr) - {this, bitmap})
      ensures RingOk() && View().slots == old(View()).slots
    {
      forall j: nat | j < MAX_FLIGHT
        ensures incoming[j] != null ==> incoming[j].Footprint() == old(incoming[j].Footprint()) && incoming[j].Valid()
        ensures incoming[j] != null ==> incoming[j].View() == old(incoming[j].View())
      {
        SlotKept(j);
      }
    }

    /** A slot whose objects are left alone keeps its meaning. */
    twostate lemma SlotKept(j: nat)
      requires old(RingOk()) && j < MAX_FLIGHT && unchanged(incoming)
      requires incoming[j] != null ==> unchanged(old(incoming[j].Footprint()))
      ensures incoming[j] != null ==>
                && incoming[j].Footprint() == old(incoming[j].Footprint())
                && incoming[j].Valid()
                && incoming[j].View() == old(incoming[j].View())
    {}

    /** Only slot idx changed, and its footprint did not grow. */
    twostate lemma RingKept(idx: nat)
      requires old(RingOk()) && idx < MAX_FLIGHT && unchanged(incoming) && unchanged(this`Repr)
      requires |sources| == MAX_FLIGHT
      requires incoming[idx] != null && incoming[idx].Footprint() <= old(incoming[idx].Footprint())
      requires incoming[idx].Valid()
      requires forall j | 0 <= j < MAX_FLIGHT && j != idx && incoming[j] != null ::
                 incoming[j].Footprint() == old(incoming[j].Footprint()) && incoming[j].Valid()
      ensures RingOk()
    {}

    twostate lemma ViewKept(idx: nat)
      requires old(RingOk()) && RingOk() && idx < MAX_FLIGHT && old(SlotView(idx)).Some? && SlotView(idx).Some?
      requires unchanged(this`readSeq, this`readEpoch, this`nullCipher, this`hasMessage, this`hasCcs) && unchanged(bitmap)
      requires forall j: nat | j < MAX_FLIGHT && j != idx :: SlotView(j) == old(SlotView(j))
      ensures View() == old(View()).PutSlot(idx, SlotView(idx).value)
    {}

    /** Copy and mark in the slot's own object; the other slots are untouched. */
    method ReceiveInto(idx: nat, off: nat, body: seq<Byte>)
      requires RingOk() && idx < MAX_FLIGHT && incoming[idx] != null && off + |body| <= incoming[idx].msgLen
      modifies this`sources, incoming[idx].Footprint()
      ensures RingOk()
      ensures View() == old(View()).PutSlot(idx, Store(old(SlotView(idx)).value, readEpoch, off, body))
    {
      var frag := incoming[idx];
      ghost var was := SlotView(idx).value;
      frag.Receive(off, body);
      sources := sources[idx := Store(was, readEpoch, off, body).sources];
      forall j | 0 <= j < MAX_FLIGHT && j != idx
        ensures incoming[j] != null ==> incoming[j].Footprint() == old(incoming[j].Footprint()) && incoming[j].Valid()
        ensures incoming[j] != null ==> incoming[j].View() == old(incoming[j].View())
      {
        SlotKept(j);
      }
      RingKept(idx);
      ViewKept(idx);
    }

    method AddEntry(idx: nat, hdr: Header)
      requires RingOk() && idx < MAX_FLIGHT && hdr.Fits()
      modifies this`sources, this`Repr, incoming
      ensures RingOk() && fresh(Repr - old(Repr)) && bitmap.accepted == old(bitmap.accepted)
      ensures View() == old(View()).PutSlot(idx, Slot(Frag(hdr.ty, hdr.seqNo, hdr.msgLen, map[]), {readEpoch}))
    {
      var frag := new HmFragment(hdr);
      Install(idx, frag, {readEpoch});
    }

    /** dtls1_get_incoming_message. */
    method GetIncomingMessage(hdr: Header) returns (alert: Option<AlertCode>)
      requires Valid() && hdr.Fits()
      modifies this`sources, this`Repr, incoming
      ensures Valid() && fresh(Repr - old(Repr))
      ensures match GetIncoming(old(View()), hdr)
              case Stop(st, a) => View() == st && alert == Some(a)
              case Continue(st) => View() == st && alert == None
    {
      GetIncomingKeepsValid(View(), hdr);
      if hdr.seqNo < readSeq || hdr.seqNo - readSeq >= MAX_FLIGHT {
        return Some(InternalError);
      }
      var idx := hdr.seqNo % MAX_FLIGHT;
      assert View().slots[idx] == SlotView(idx);
      if incoming[idx] == null {
        AddEntry(idx, hdr);
        return None;
      }
      SlotSeqIsExact(View(), hdr.seqNo);
      assert incoming[idx].seqNo == hdr.seqNo;
      if incoming[idx].ty != hdr.ty || incoming[idx].msgLen != hdr.msgLen {
        return Some(IllegalParameter);
      }
      return None;
    }

    /** One turn of the fragment loop. */
    method HandleOne(hdr: Header, body: seq<Byte>, maxLen: nat) returns (alert: Option<AlertCode>)
      requires Valid() && hdr.Fits() && |body| == hdr.fragLen
      modifies Repr
      ensures Valid() && fresh(Repr - old(Repr))
      ensures match HandleFragment(old(View()), hdr, body, maxLen)
              case Stop(st, a) => View() == st && alert == Some(a)
              case Continue(st) => View() == st && alert == None
    {
      HandleFragmentKeepsValid(View(), hdr, body, maxLen);
      GetIncomingKeepsValid(View(), hdr);
      if BadBounds(hdr, maxLen) {
        return Some(IllegalParameter);
      }
      if readEpoch == 1 && hdr.seqNo != readSeq {
        return Some(UnexpectedMessage);
      }
      if hdr.seqNo < readSeq || hdr.seqNo > readSeq + MAX_FLIGHT {
        return None;
      }
      alert := GetIncomingMessage(hdr);
      if alert.None? {
        var idx := hdr.seqNo % MAX_FLIGHT;
        assert View().slots[idx] == SlotView(idx);
        ReceiveInto(idx, hdr.fragOff, body);
      }
    }

    /** The fragment loop of dtls1_open_handshake. */
    method HandleAll(payload: seq<Byte>, maxLen: nat) returns (result: OpenResult)
      requires Valid()
      modifies Repr
      ensures Valid() && fresh(Repr - old(Repr))
      ensures (View(), result) == HandlePayload(old(View()), payload, maxLen)
    {
      var rest := payload;
      while rest != []
        invariant Valid() && fresh(Repr - old(Repr))
        invariant HandlePayload(View(), rest, maxLen) == HandlePayload(old(View()), payload, maxLen)
        decreases |rest|
      {
        var p := ParseFragment(rest);
        if p.None? {
          return Failed(DecodeError);
        }
        var alert := HandleOne(p.value.hdr, p.value.body, maxLen);
        if alert.Some? {
          return Failed(alert.value);
        }
        rest := p.value.rest;
      }
      return Success;
    }

    /** dtls_open_record, as far as it concerns a whole record: Some means the record is dropped
        or fatal, None that its payload is to be processed. */
    method FilterRecord(rec: Record, opens: bool) returns (result: Option<OpenResult>)
      requires Valid()
      modifies bitmap
      ensures RingOk() && bitmap.Valid() && View().Valid()
      ensures var n := SequenceNumber(rec.epoch, rec.number);
              if rec.epoch != readEpoch || ReplayWindow.Discards(old(bitmap.accepted), n) || !opens
              then View() == old(View()) && result == Some(Discarded)
              else if |rec.payload| > MAX_PLAIN_LENGTH
              then View() == old(View()) && result == Some(Failed(RecordOverflow))
              else View() == old(View()).(accepted := old(bitmap.accepted) + {n}) && result == None
    {
      if rec.epoch != readEpoch {
        return Some(Discarded);
      }
      var n := SequenceNumber(rec.epoch, rec.number);
      var stale := bitmap.ShouldDiscard(n);
      if stale || !opens {
        return Some(Discarded);
      }
      if |rec.payload| > MAX_PLAIN_LENGTH {
        return Some(Failed(RecordOverflow));
      }
      SameRingIsValid(View(), View().(accepted := View().accepted + {n}));
      bitmap.Record(n);
      RingUntouched();
      return None;
    }

    /** dtls1_open_handshake. */
    method Open(rec: Record, opens: bool, maxLen: nat) returns (result: OpenResult)
      requires Valid()
      modifies Repr
      ensures Valid() && fresh(Repr - old(Repr))
      ensures (View(), result) == OpenHandshake(old(View()), rec, opens, maxLen)
    {
      OpenHandshakeKeepsValid(View(), rec, opens, maxLen);
      var filtered := FilterRecord(rec, opens);
      if filtered.Some? {
        return filtered.value;
      }
      match rec.ctype {
        case Alert => return AlertReceived;
        case ApplicationData => return if nullCipher then Failed(UnexpectedMessage) else Discarded;
        case ChangeCipherSpec =>
          if !nullCipher {
            return Failed(UnexpectedMessage);
          }
          if rec.payload != CCS_PAYLOAD {
            return Failed(IllegalParameter);
          }
          SetCcs(true);
          return Success;
        case Unknown => return Failed(UnexpectedMessage);
        case Handshake =>
          result := HandleAll(rec.payload, maxLen);
      }
    }

    method SetCcs(value: bool)
      requires Valid()
      modifies this`hasCcs
      ensures Valid() && View() == old(View()).(hasCcs := value)
    {
      SameRingIsValid(View(), View().(hasCcs := value));
      hasCcs := value;
      RingUntouched();
    }

    /** dtls1_open_change_cipher_spec. */
    method OpenCcs(rec: Record, opens: bool, maxLen: nat) returns (result: OpenResult)
      requires Valid()
      modifies Repr
      ensures Valid() && fresh(Repr - old(Repr))
      ensures (View(), result) == OpenChangeCipherSpec(old(View()), rec, opens, maxLen)
    {
      if !hasCcs {
        result := Open(rec, opens, maxLen);
        if result != Success {
          return;
        }
      }
      if hasCcs {
        SetCcs(false);
        return Success;
      }
      return Discarded;
    }

    /** dtls1_get_message: the message, and its octets with the header as if unfragmented. */
    method Get() returns (msg: Option<Message>)
      requires Valid()
      modifies this`hasMessage
      ensures Valid() && (View(), msg) == GetMessage(old(View()))
    {
      var complete := IsCurrentMessageComplete();
      if !complete {
        return None;
      }
      GetMessageKeepsValid(View());
      var frag := incoming[readSeq % MAX_FLIGHT];
      frag.ViewComplete();
      msg := Some(Message(frag.ty, frag.data[HM_HEADER_LENGTH..], frag.data[..]));
      hasMessage := true;
      RingUntouched();
    }

    method DropSlot(idx: nat)
      requires RingOk() && idx < MAX_FLIGHT
      modifies incoming
      ensures RingOk() && View() == old(View()).(slots := old(View()).slots[idx := None])
    {
      ghost var before := View();
      incoming[idx] := null;
      assert forall j: nat | j < MAX_FLIGHT && j != idx :: SlotView(j) == before.slots[j];
    }

    /** dtls1_next_message. */
    method Next()
      requires Valid() && hasMessage
      modifies this, incoming
      ensures Valid() && Repr == old(Repr) && View() == NextMessage(old(View()))
    {
      ghost var before := View();
      NextMessageKeepsValid(before);
      DropSlot(readSeq % MAX_FLIGHT);
      Advance();
      assert View() == NextMessage(before);
    }

    method Advance()
      requires RingOk()
      modifies this`readSeq, this`hasMessage
      ensures RingOk() && View() == old(View()).(readSeq := (old(readSeq) + 1) % U16_LIMIT, hasMessage := false)
    {
      readSeq := (readSeq + 1) % U16_LIMIT;
      hasMessage := false;
      RingUntouched();
    }

    /** dtls_has_unprocessed_handshake_data. */
    method HasUnprocessed() returns (has: bool)
      requires Valid()
      ensures has <==> HasUnprocessedData(View())
    {
      if hasCcs {
        return true;
      }
      var current := readSeq % MAX_FLIGHT;
      var i := 0;
      while i < MAX_FLIGHT
        invariant 0 <= i <= MAX_FLIGHT
        invariant forall j: nat | j < i && View().slots[j].Some? :: hasMessage && j == current
      {
        assert View().slots[i] == SlotView(i);
        if !(hasMessage && i == current) && incoming[i] != null {
          return true;
        }
        i := i + 1;
      }
      return false;
    }

    /** dtls1_set_read_state. */
    method ChangeReadState() returns (ok: bool)
      requires Valid()
      modifies this, bitmap
      ensures Valid() && Repr == old(Repr)
      ensures ok <==> DtlsReceiver.SetReadState(old(View())).Some?
      ensures View() == if ok then DtlsReceiver.SetReadState(old(View())).value else old(View())
    {
      var unprocessed := HasUnprocessed();
      if unprocessed {
        return false;
      }
      SetReadStateKeepsValid(View());
      readEpoch := (readEpoch + 1) % U16_LIMIT;
      bitmap.Clear();
      nullCipher := false;
      RingUntouched();
      return true;
    }
  }
}
