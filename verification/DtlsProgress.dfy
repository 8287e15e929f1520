/** What a receiver has when the records of one whole retransmission have reached it. */
module DtlsProgress {
  import opened Prelude
  import opened DtlsWire
  import opened DtlsFlight
  import opened DtlsRun
  import R = Reassembly
  import D = DtlsReceiver

  // ---- Records on their way ----

  /** One record at the receiver. */
  ghost function Arrival(st: D.State, rec: Record, maxLen: nat): D.State
    requires st.Valid()
    ensures Arrival(st, rec, maxLen).Valid()
  {
    D.OpenHandshakeKeepsValid(st, rec, true, maxLen);
    D.OpenHandshake(st, rec, true, maxLen).0
  }

  /** The receiver after records have arrived one after the other. */
  ghost function Arrived(st: D.State, arrivals: seq<Record>, maxLen: nat): D.State
    requires st.Valid()
    ensures Arrived(st, arrivals, maxLen).Valid()
    decreases |arrivals|
  {
    if arrivals == [] then st else Arrived(Arrival(st, arrivals[0], maxLen), arrivals[1..], maxLen)
  }

  /** The record is of the read epoch, not too long, and neither a replay nor too old for the window. */
  ghost predicate Lands(st: D.State, rec: Record) {
    && rec.epoch == st.readEpoch && |rec.payload| <= MAX_PLAIN_LENGTH
    && !D.ReplayWindow.Discards(st.accepted, D.SequenceNumber(rec.epoch, rec.number))
  }

  /** Some time during the arrivals, the record comes and is not dropped. */
  ghost predicate LandsIn(st: D.State, arrivals: seq<Record>, rec: Record, maxLen: nat)
    requires st.Valid()
    decreases |arrivals|
  {
    arrivals != [] &&
      ((arrivals[0] == rec && Lands(st, rec)) || LandsIn(Arrival(st, arrivals[0], maxLen), arrivals[1..], rec, maxLen))
  }

  /** Records of the sender's, and what was queued. */
  ghost predicate Honest(arrivals: seq<Record>, queued: seq<Queued>) {
    && |queued| < U16_LIMIT && (forall i: nat | i < |queued| :: |queued[i].body| < U24_LIMIT)
    && forall rec | rec in arrivals && rec.ctype == Handshake :: IsFragment(rec, queued)
  }

  // ---- What an arrival adds ----

  /** The ring has an entry for message n. */
  predicate Begun(st: D.State, n: nat)
    requires |st.slots| == MAX_FLIGHT
  {
    st.slots[n % MAX_FLIGHT].Some? && st.slots[n % MAX_FLIGHT].value.frag.seqNo == n
  }

  /** The ring has octet p of message n. */
  predicate Holds(st: D.State, n: nat, p: nat)
    requires |st.slots| == MAX_FLIGHT
  {
    Begun(st, n) && p in st.slots[n % MAX_FLIGHT].value.frag.got
  }

  lemma FragmentKeeps(st: D.State, hdr: Header, body: seq<Byte>, maxLen: nat, n: nat, p: nat)
    requires st.Valid() && hdr.Fits() && |body| == hdr.fragLen
    ensures var st1 := D.HandleFragment(st, hdr, body, maxLen).st;
            && |st1.slots| == MAX_FLIGHT
            && (Begun(st, n) ==> Begun(st1, n))
            && (Holds(st, n, p) ==> Holds(st1, n, p))
  {
    D.HandleFragmentKeepsValid(st, hdr, body, maxLen);
    D.GetIncomingKeepsValid(st, hdr);
    if hdr.seqNo % MAX_FLIGHT == n % MAX_FLIGHT && Begun(st, n) && D.GetIncoming(st, hdr).Continue? {
      D.SlotSeqIsExact(st, hdr.seqNo);
    }
  }

  lemma FragmentAdds(st: D.State, hdr: Header, body: seq<Byte>, maxLen: nat, p: nat)
    requires st.Valid() && hdr.Fits() && |body| == hdr.fragLen
    requires !D.BadBounds(hdr, maxLen) && st.readSeq <= hdr.seqNo < st.readSeq + MAX_FLIGHT
    requires st.readEpoch == 1 ==> hdr.seqNo == st.readSeq
    requires var s := st.slots[hdr.seqNo % MAX_FLIGHT]; s.Some? ==> s.value.frag.ty == hdr.ty && s.value.frag.msgLen == hdr.msgLen
    ensures var h := D.HandleFragment(st, hdr, body, maxLen);
            h.Continue? && Begun(h.st, hdr.seqNo) && (hdr.fragOff <= p < hdr.fragOff + |body| ==> Holds(h.st, hdr.seqNo, p))
  {
    D.GetIncomingKeepsValid(st, hdr);
    D.SlotSeqIsExact(st, hdr.seqNo);
  }

  lemma {:induction false} PayloadKeeps(st: D.State, payload: seq<Byte>, maxLen: nat, n: nat, p: nat)
    requires st.Valid()
    ensures var st1 := D.HandlePayload(st, payload, maxLen).0;
            && |st1.slots| == MAX_FLIGHT
            && (Begun(st, n) ==> Begun(st1, n))
            && (Holds(st, n, p) ==> Holds(st1, n, p))
    decreases |payload|
  {
    if payload != [] && ParseFragment(payload).Some? {
      var q := ParseFragment(payload).value;
      FragmentKeeps(st, q.hdr, q.body, maxLen, n, p);
      D.HandleFragmentKeepsValid(st, q.hdr, q.body, maxLen);
      PayloadKeeps(D.HandleFragment(st, q.hdr, q.body, maxLen).st, q.rest, maxLen, n, p);
    }
  }

  /** No arrival takes anything away. */
  lemma ArrivalKeeps(st: D.State, rec: Record, maxLen: nat, n: nat, p: nat)
    requires st.Valid()
    ensures var st1 := Arrival(st, rec, maxLen);
            && (Begun(st, n) ==> Begun(st1, n)) && (Holds(st, n, p) ==> Holds(st1, n, p))
            && st1.readSeq == st.readSeq && st1.readEpoch == st.readEpoch
  {
    var st1 := st.(accepted := st.accepted + {D.SequenceNumber(rec.epoch, rec.number)});
    D.SameRingIsValid(st, st1);
    PayloadKeeps(st1, rec.payload, maxLen, n, p);
    ArrivalWindow(st, rec, true, maxLen);
    PayloadKeepsSeq(st1, rec.payload, maxLen);
  }

  lemma {:induction false} PayloadKeepsSeq(st: D.State, payload: seq<Byte>, maxLen: nat)
    requires st.Valid()
    ensures D.HandlePayload(st, payload, maxLen).0.readSeq == st.readSeq
    decreases |payload|
  {
    if payload != [] && ParseFragment(payload).Some? {
      var q := ParseFragment(payload).value;
      D.HandleFragmentKeepsValid(st, q.hdr, q.body, maxLen);
      PayloadKeepsSeq(D.HandleFragment(st, q.hdr, q.body, maxLen).st, q.rest, maxLen);
    }
  }

  /** The receiver is at message n: it is in the window and, after the handshake, the next one. */
  predicate Awaits(st: D.State, n: nat) {
    st.readSeq <= n < st.readSeq + MAX_FLIGHT && (st.readEpoch == 1 ==> n == st.readSeq)
  }

  /** A record that lands adds the octets it carries. */
  lemma LandingAdds(st: D.State, rec: Record, maxLen: nat, queued: seq<Queued>, p: nat)
    requires RingMatches(st, queued) && Honest([rec], queued) && rec.ctype == Handshake && IsFragment(rec, queued) && Lands(st, rec)
    requires var q := ParseFragment(rec.payload).value; Awaits(st, q.hdr.seqNo) && q.hdr.msgLen <= maxLen
    ensures var q := ParseFragment(rec.payload).value;
            && Begun(Arrival(st, rec, maxLen), q.hdr.seqNo)
            && (q.hdr.fragOff <= p < q.hdr.fragOff + |q.body| ==> Holds(Arrival(st, rec, maxLen), q.hdr.seqNo, p))
  {
    var q := ParseFragment(rec.payload).value;
    var st1 := st.(accepted := st.accepted + {D.SequenceNumber(rec.epoch, rec.number)});
    D.SameRingIsValid(st, st1);
    D.SlotSeqIsExact(st, q.hdr.seqNo);
    if st.slots[q.hdr.seqNo % MAX_FLIGHT].Some? { assert SlotMatches(st.slots[q.hdr.seqNo % MAX_FLIGHT].value, queued); }
    FragmentAdds(st1, q.hdr, q.body, maxLen, p);
    var h := D.HandleFragment(st1, q.hdr, q.body, maxLen);
    assert D.HandlePayload(h.st, [], maxLen).0 == h.st;
  }

  /** What the receiver makes of a record the sender sealed: it is taken without complaint, but for the message
      seven ahead, and for one that is not the next under the first keys. */
  lemma HonestRecordResult(run: seq<World>, events: seq<Event>, rec: Record, maxLen: nat)
    requires IsRun(run, events) && rec in run[|events|].net && rec.ctype == Handshake
    requires ParseFragment(rec.payload).Some? ==> ParseFragment(rec.payload).value.hdr.msgLen <= maxLen
    requires var st := run[|events|].rcv; st.Valid() && Lands(st, rec)
    ensures var st := run[|events|].rcv;
            && ParseFragment(rec.payload).Some?
            && var n := ParseFragment(rec.payload).value.hdr.seqNo;
               D.OpenHandshake(st, rec, true, maxLen).1
               == if st.readEpoch == 1 && n != st.readSeq then D.Failed(D.UnexpectedMessage)
                  else if n == st.readSeq + 7 then D.Failed(D.InternalError)
                  else D.Success
  {
    RunInv(run, events, |events|);
    var w := run[|events|];
    var st := w.rcv.(accepted := w.rcv.accepted + {D.SequenceNumber(rec.epoch, rec.number)});
    D.SameRingIsValid(w.rcv, st);
    var q := ParseFragment(rec.payload).value;
    assert IsFragment(rec, w.queued);
    if st.readSeq <= q.hdr.seqNo < st.readSeq + MAX_FLIGHT {
      D.SlotSeqIsExact(st, q.hdr.seqNo);
      if st.slots[q.hdr.seqNo % MAX_FLIGHT].Some? { assert SlotMatches(st.slots[q.hdr.seqNo % MAX_FLIGHT].value, w.queued); }
    }
    var h := D.HandleFragment(st, q.hdr, q.body, maxLen);
    assert h.Continue? ==> D.HandlePayload(h.st, q.rest, maxLen) == (h.st, D.Success);
  }

  // ---- What no sender can make the receiver do ----

  /** No entry is for a message beyond the limit. */
  predicate Bounded(st: D.State, limit: nat) {
    forall i: nat | i < |st.slots| && st.slots[i].Some? :: st.slots[i].value.frag.msgLen <= limit
  }

  lemma {:induction false} PayloadIsBounded(st: D.State, payload: seq<Byte>, maxLen: nat, limit: nat)
    requires st.Valid() && Bounded(st, limit) && maxLen <= limit
    ensures Bounded(D.HandlePayload(st, payload, maxLen).0, limit)
    decreases |payload|
  {
    if payload != [] && ParseFragment(payload).Some? {
      var q := ParseFragment(payload).value;
      D.HandleFragmentKeepsValid(st, q.hdr, q.body, maxLen);
      D.GetIncomingKeepsValid(st, q.hdr);
      PayloadIsBounded(D.HandleFragment(st, q.hdr, q.body, maxLen).st, q.rest, maxLen, limit);
    }
  }

  lemma RecordIsBounded(st: D.State, rec: Record, opens: bool, maxLen: nat, limit: nat)
    requires st.Valid() && Bounded(st, limit) && maxLen <= limit
    ensures Bounded(D.OpenHandshake(st, rec, opens, maxLen).0, limit)
  {
    var st1 := st.(accepted := st.accepted + {D.SequenceNumber(rec.epoch, rec.number)});
    D.SameRingIsValid(st, st1);
    PayloadIsBounded(st1, rec.payload, maxLen, limit);
  }

  /** Whatever records come, from whomever, memory is set aside for messages within the limit only. */
  lemma {:induction false} MemoryIsBounded(st: D.State, recs: seq<Record>, maxLen: nat)
    requires st.Valid() && Bounded(st, maxLen)
    ensures Bounded(Arrived(st, recs, maxLen), maxLen)
    decreases |recs|
  {
    if recs != [] {
      RecordIsBounded(st, recs[0], true, maxLen, maxLen);
      MemoryIsBounded(Arrival(st, recs[0], maxLen), recs[1..], maxLen);
    }
  }

  /** A fragment that does not agree with the message begun under its number is refused, and changes nothing. */
  lemma DisagreementIsRefused(st: D.State, hdr: Header, body: seq<Byte>, maxLen: nat)
    requires st.Valid() && st.readSeq <= hdr.seqNo < st.readSeq + 7 && Begun(st, hdr.seqNo)
    requires var f := st.slots[hdr.seqNo % 7].value.frag; hdr.ty != f.ty || hdr.msgLen != f.msgLen
    ensures D.HandleFragment(st, hdr, body, maxLen).Stop? && D.HandleFragment(st, hdr, body, maxLen).st == st
  {}

  lemma {:induction false} ArrivalsKeep(st: D.State, arrivals: seq<Record>, maxLen: nat, n: nat, p: nat)
    requires st.Valid()
    ensures var st1 := Arrived(st, arrivals, maxLen);
            && (Begun(st, n) ==> Begun(st1, n)) && (Holds(st, n, p) ==> Holds(st1, n, p)) && st1.readSeq == st.readSeq
    decreases |arrivals|
  {
    if arrivals != [] {
      ArrivalKeeps(st, arrivals[0], maxLen, n, p);
      ArrivalsKeep(Arrival(st, arrivals[0], maxLen), arrivals[1..], maxLen, n, p);
    }
  }

  lemma {:induction false} ArrivalsMatch(st: D.State, arrivals: seq<Record>, maxLen: nat, queued: seq<Queued>)
    requires RingMatches(st, queued) && Honest(arrivals, queued)
    ensures RingMatches(Arrived(st, arrivals, maxLen), queued)
    decreases |arrivals|
  {
    if arrivals != [] {
      OpenHandshakeMatches(st, arrivals[0], true, maxLen, queued);
      ArrivalsMatch(Arrival(st, arrivals[0], maxLen), arrivals[1..], maxLen, queued);
    }
  }

  /** What a record carries is there once it has landed. */
  lemma {:induction false} LandedIsHeld(st: D.State, arrivals: seq<Record>, rec: Record, maxLen: nat, queued: seq<Queued>, p: nat)
    requires RingMatches(st, queued) && Honest(arrivals, queued) && rec.ctype == Handshake && IsFragment(rec, queued)
    requires LandsIn(st, arrivals, rec, maxLen)
    requires var q := ParseFragment(rec.payload).value; Awaits(st, q.hdr.seqNo) && q.hdr.msgLen <= maxLen
    ensures var q, st1 := ParseFragment(rec.payload).value, Arrived(st, arrivals, maxLen);
            && Begun(st1, q.hdr.seqNo)
            && (q.hdr.fragOff <= p < q.hdr.fragOff + |q.body| ==> Holds(st1, q.hdr.seqNo, p))
    decreases |arrivals|
  {
    var n := ParseFragment(rec.payload).value.hdr.seqNo;
    var next := Arrival(st, arrivals[0], maxLen);
    if arrivals[0] == rec && Lands(st, rec) {
      LandingAdds(st, rec, maxLen, queued, p);
      ArrivalsKeep(next, arrivals[1..], maxLen, n, p);
    } else {
      OpenHandshakeMatches(st, arrivals[0], true, maxLen, queued);
      ArrivalKeeps(st, arrivals[0], maxLen, n, p);
      LandedIsHeld(next, arrivals[1..], rec, maxLen, queued, p);
    }
  }

  // ---- Whole flights ----

  /** A fragment of message n. */
  predicate IsOf(rec: Record, n: nat) {
    rec.ctype == Handshake && ParseFragment(rec.payload).Some? && ParseFragment(rec.payload).value.hdr.seqNo == n
  }

  /** Records that carry a stretch of a message in order have one for each octet of it. */
  lemma {:induction false} OctetIsCarried(recs: seq<Record>, n: nat, at: nat, p: nat) returns (rec: Record)
    requires InOrderFrom(recs, n, at) && at <= p < at + |Carried(recs, n)|
    ensures rec in recs && IsOf(rec, n)
    ensures var q := ParseFragment(rec.payload).value; q.hdr.fragOff <= p < q.hdr.fragOff + |q.body|
    decreases |recs|
  {
    var k := |CarriedBy(recs[0], n)|;
    if p < at + k {
      rec := recs[0];
    } else {
      rec := OctetIsCarried(recs[1..], n, at + k, p);
    }
  }

  /** Every message that the cursor passes has a record, even one without a body. */
  lemma {:induction false} MessageHasRecord(flight: seq<OutMsg>, cur: Cursor, recs: seq<Record>, i: nat) returns (rec: Record)
    requires ValidFlight(flight) && ValidCursor(flight, cur) && AfterAll(flight, cur, recs).Some?
    requires cur.written <= i < AfterAll(flight, cur, recs).value.written && !flight[i].isCcs
    ensures rec in recs && IsOf(rec, flight[i].Hdr().seqNo)
    decreases |recs|
  {
    AfterIsValid(flight, cur, recs[0]);
    if cur.written == i {
      rec := recs[0];
      FragmentParses(flight[i], cur.offset, |rec.payload| - HM_HEADER_LENGTH);
    } else {
      rec := MessageHasRecord(flight, After(flight, cur, recs[0]).value, recs[1..], i);
    }
  }

  /** If the records of one whole retransmission, those for message i of the flight, reach a receiver that
      awaits the message in its epoch, in whatever order, however often, and among whatever else was sent,
      then the message is complete there; and if it is the next one, it is available. */
  lemma FlightArrives(run: seq<World>, events: seq<Event>, w: World, recs: seq<Record>, arrivals: seq<Record>, maxLen: nat, i: nat)
    requires IsRun(run, events) && w == run[|events|]
    requires ValidFlight(w.flight) && i < |w.flight| && !w.flight[i].isCcs && w.rcv.Valid()
    requires AfterAll(w.flight, START, recs) == Some(Cursor(|w.flight|, 0))
    requires (forall rec | rec in recs :: rec in w.net) && (forall rec | rec in arrivals :: rec in w.net)
    requires Awaits(w.rcv, w.flight[i].Hdr().seqNo) && |w.flight[i].Body()| <= maxLen
    requires forall rec | rec in recs && IsOf(rec, w.flight[i].Hdr().seqNo) :: LandsIn(w.rcv, arrivals, rec, maxLen)
    ensures var n, st1 := w.flight[i].Hdr().seqNo, Arrived(w.rcv, arrivals, maxLen);
            && SenderInv(w) && n < |w.queued| && Begun(st1, n)
            && st1.slots[n % MAX_FLIGHT].value.frag.Complete()
            && st1.slots[n % MAX_FLIGHT].value.frag.Body() == w.flight[i].Body()
            && (n == w.rcv.readSeq ==> D.GetMessage(st1).1 == Some(Expected(w.queued, n)))
  {
    RunInv(run, events, |events|);
    var m := w.flight[i];
    var n, st1 := m.Hdr().seqNo, Arrived(w.rcv, arrivals, maxLen);
    assert m in w.flight && IsQueued(m, w.queued);
    WholeFlightCarriesEverything(w.flight, recs, i);
    var some := MessageHasRecord(w.flight, START, recs, i);
    LandedIsHeld(w.rcv, arrivals, some, maxLen, w.queued, 0);
    ArrivalsMatch(w.rcv, arrivals, maxLen, w.queued);
    ArrivalsKeep(w.rcv, arrivals, maxLen, n, 0);
    var s := st1.slots[n % MAX_FLIGHT].value;
    assert SlotMatches(s, w.queued);
    forall p: nat | p < s.frag.msgLen
      ensures p in s.frag.got
    {
      var rec := OctetIsCarried(recs, n, 0, p);
      LandedIsHeld(w.rcv, arrivals, rec, maxLen, w.queued, p);
    }
    R.CompleteBody(s.frag, w.queued[n].body);
  }
}
