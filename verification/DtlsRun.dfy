/** Whole runs of a DTLS sender and a receiver over a network that drops, duplicates and reorders
    records. The sender's steps are the effects proved for DtlsOutgoing.Sender, one record at a
    time; the receiver's are the functions DtlsIncoming.Receiver follows. */
module DtlsRun {
  import opened Prelude
  import opened DtlsWire
  import opened DtlsFlight
  import DtlsOutgoing
  import R = Reassembly
  import D = DtlsReceiver

  /** A handshake message as the sender queued it, and the write epoch it was queued under. */
  datatype Queued = Queued(ty: Byte, body: seq<Byte>, epoch: nat)

  datatype World = World(
    flight: seq<OutMsg>,
    complete: bool,
    cur: Cursor,
    counters: Counters,
    wrapped: bool,
    queued: seq<Queued>,
    net: seq<Record>,
    rcv: D.State,
    delivered: seq<D.Message>)

  /** What can happen next. Sealing covers first sends and retransmissions, and records whose packet
      the transport then refuses; Reposition covers the rollback of a refused packet and the
      rewind of a retransmission. */
  datatype Event =
    | QueueMessage(ty: Byte, body: seq<Byte>)
    | QueueCcs
    | MarkComplete
    | DropFlight
    | ChangeWriteState
    | SealNext(rec: Record)
    | SealOther(rec: Record)
    | SealFails(counters: Counters)
    | Reposition(cur: Cursor)
    | Arrive(rec: Record, opens: bool, maxLen: nat)
    | ArriveForCcs(rec: Record, opens: bool, maxLen: nat)
    | Get
    | Next
    | ChangeReadState

  /** add_outgoing discards a flight that was already complete. */
  function Kept(w: World): World {
    if w.complete then w.(flight := [], cur := START, complete := false) else w
  }

  predicate Wraps(before: Counters, after: Counters) {
    after.next < before.next || after.lastNext < before.lastNext
  }

  /** Message numbers and epochs are 16 bits, so a run has fewer than 2^16 of each. */
  ghost predicate Enabled(w: World, e: Event) {
    match e
    case QueueMessage(ty, body) =>
      |body| < U24_LIMIT && |Kept(w).flight| < MAX_FLIGHT && |w.queued| + 1 < U16_LIMIT
    case QueueCcs => |Kept(w).flight| < MAX_FLIGHT
    case ChangeWriteState => w.counters.epoch + 1 < U16_LIMIT
    case SealNext(rec) =>
      && ValidFlight(w.flight) && ValidCursor(w.flight, w.cur)
      && After(w.flight, w.cur, rec).Some? && Emit(w.counters, rec).Some?
    case SealOther(rec) => rec.ctype != Handshake && Emit(w.counters, rec).Some?
    case SealFails(counters) => DtlsOutgoing.Abandoned(w.counters, counters)
    case Reposition(cur) => ValidFlight(w.flight) && ValidCursor(w.flight, cur)
    case Arrive(rec, opens, _) => opens ==> rec in w.net
    case ArriveForCcs(rec, opens, _) => opens ==> rec in w.net
    case Next => w.rcv.hasMessage
    case ChangeReadState =>
      |w.rcv.slots| == MAX_FLIGHT && D.SetReadState(w.rcv).Some? && w.rcv.readEpoch + 1 < U16_LIMIT
    case _ => true
  }

  ghost function Step(w: World, e: Event): World
    requires w.rcv.Valid() && Enabled(w, e)
  {
    match e
    case QueueMessage(ty, body) =>
      var k := Kept(w);
      k.(flight := k.flight + [OutMsg(if |w.queued| < U16_LIMIT then WholeMessage(ty, |w.queued|, body) else [],
                                      w.counters.epoch, false)],
         queued := w.queued + [Queued(ty, body, w.counters.epoch)])
    case QueueCcs =>
      var k := Kept(w);
      k.(flight := k.flight + [OutMsg([], w.counters.epoch, true)])
    case MarkComplete => w.(complete := true)
    case DropFlight => w.(flight := [], cur := START, complete := false)
    case ChangeWriteState => w.(counters := DtlsOutgoing.NewEpoch(w.counters))
    case SealNext(rec) =>
      w.(net := w.net + [rec], cur := After(w.flight, w.cur, rec).value, counters := Emit(w.counters, rec).value)
    case SealOther(rec) => w.(net := w.net + [rec], counters := Emit(w.counters, rec).value)
    case SealFails(counters) => w.(counters := counters, wrapped := w.wrapped || Wraps(w.counters, counters))
    case Reposition(cur) => w.(cur := cur)
    case Arrive(rec, opens, maxLen) => w.(rcv := D.OpenHandshake(w.rcv, rec, opens, maxLen).0)
    case ArriveForCcs(rec, opens, maxLen) => w.(rcv := D.OpenChangeCipherSpec(w.rcv, rec, opens, maxLen).0)
    case Get => w.(rcv := D.GetMessage(w.rcv).0)
    case Next =>
      w.(rcv := D.NextMessage(w.rcv), delivered := w.delivered + [D.GetMessage(w.rcv).1.value])
    case ChangeReadState => w.(rcv := D.SetReadState(w.rcv).value)
  }

  predicate Initial(w: World) {
    w == World([], false, START, Counters(0, 0, 0), false, [], [], D.Start(), [])
  }

  /** A run: worlds from an initial one, each reached from the one before by an enabled event. */
  ghost predicate IsRun(run: seq<World>, events: seq<Event>) {
    && |run| == |events| + 1 && Initial(run[0])
    && forall i: nat | i < |events| :: Moves(run, events, i)
  }

  ghost predicate Moves(run: seq<World>, events: seq<Event>, i: nat)
    requires i < |events| && |run| == |events| + 1
  {
    run[i].rcv.Valid() && Enabled(run[i], events[i]) && run[i + 1] == Step(run[i], events[i])
  }

  // ---- What every reachable world satisfies ----

  /** The message of the flight is one of those queued, with its number and epoch. */
  ghost predicate IsQueued(m: OutMsg, queued: seq<Queued>) {
    && m.Valid()
    && (!m.isCcs ==>
         var i := m.Hdr().seqNo;
         && i < |queued|
         && m.Hdr().ty == queued[i].ty && m.Body() == queued[i].body && m.epoch == queued[i].epoch)
  }

  /** A handshake record carries one fragment of a queued message, under that message's epoch. */
  ghost predicate IsFragment(rec: Record, queued: seq<Queued>) {
    && ParseFragment(rec.payload).Some?
    && var p := ParseFragment(rec.payload).value;
       && p.rest == []
       && p.hdr.seqNo < |queued|
       && var q := queued[p.hdr.seqNo];
          && rec.epoch == q.epoch && p.hdr.ty == q.ty && p.hdr.msgLen == |q.body|
          && R.SliceOf(R.Piece(p.hdr.fragOff, p.body), q.body)
  }

  ghost predicate SenderInv(w: World) {
    && |w.queued| < U16_LIMIT
    && (forall i: nat | i < |w.queued| :: |w.queued[i].body| < U24_LIMIT)
    && w.counters.Valid()
    && ValidFlight(w.flight) && DistinctNumbers(w.flight) && ValidCursor(w.flight, w.cur)
    && (forall m | m in w.flight :: IsQueued(m, w.queued))
    && (forall rec | rec in w.net && rec.ctype == Handshake :: IsFragment(rec, w.queued))
  }

  /** A ring entry holds octets of the queued message with its number, all of that message's epoch. */
  ghost predicate SlotMatches(s: D.Slot, queued: seq<Queued>) {
    && s.frag.seqNo < |queued|
    && s.frag.ty == queued[s.frag.seqNo].ty
    && R.Agrees(s.frag, queued[s.frag.seqNo].body)
    && s.sources == {queued[s.frag.seqNo].epoch}
  }

  ghost predicate RingMatches(rcv: D.State, queued: seq<Queued>) {
    rcv.Valid() && forall i: nat | i < MAX_FLIGHT && rcv.slots[i].Some? :: SlotMatches(rcv.slots[i].value, queued)
  }

  /** Message number i as the receiver should hand it out: with the header of an unfragmented one. */
  function Expected(queued: seq<Queued>, i: nat): D.Message
    requires i < |queued| && i < U16_LIMIT && |queued[i].body| < U24_LIMIT
  {
    D.Message(queued[i].ty, queued[i].body, WholeMessage(queued[i].ty, i, queued[i].body))
  }

  ghost predicate DeliveredInv(w: World)
    requires SenderInv(w)
  {
    && w.rcv.readSeq == |w.delivered| <= |w.queued|
    && forall i: nat | i < |w.delivered| :: w.delivered[i] == Expected(w.queued, i)
  }

  predicate NumberUsed(c: Counters, rec: Record) {
    || rec.epoch + 1 < c.epoch
    || (rec.epoch == c.epoch && rec.number < c.next)
    || (rec.epoch + 1 == c.epoch && rec.number < c.lastNext)
  }

  predicate SameNumber(a: Record, b: Record) {
    a.epoch == b.epoch && a.number == b.number
  }

  ghost predicate NumbersInv(w: World) {
    !w.wrapped ==>
      && (forall rec | rec in w.net :: NumberUsed(w.counters, rec))
      && (forall i, j | 0 <= i < j < |w.net| :: !SameNumber(w.net[i], w.net[j]))
  }

  ghost predicate Inv(w: World) {
    SenderInv(w) && RingMatches(w.rcv, w.queued) && DeliveredInv(w) && NumbersInv(w)
  }

  lemma InitialInv(w: World)
    requires Initial(w)
    ensures Inv(w)
  {
    D.StartIsValid();
  }

  // ---- Sender steps ----

  lemma MoreQueued(w: World, q: Queued)
    requires Inv(w) && |q.body| < U24_LIMIT && |w.queued| + 1 < U16_LIMIT
    ensures Inv(w.(queued := w.queued + [q]))
  {
    assert forall i: nat | i < |w.delivered| :: Expected(w.queued + [q], i) == Expected(w.queued, i);
  }

  lemma MoreFlight(w: World, m: OutMsg)
    requires Inv(w) && IsQueued(m, w.queued)
    requires !m.isCcs ==> forall x | x in w.flight && !x.isCcs :: x.Hdr().seqNo != m.Hdr().seqNo
    ensures Inv(w.(flight := w.flight + [m]))
  {
    DtlsOutgoing.QueueMore(w.flight, m, w.cur);
    assert forall x | x in w.flight + [m] :: x in w.flight || x == m;
  }

  lemma QueueMessageKeeps(w: World, ty: Byte, body: seq<Byte>)
    requires Inv(w) && Enabled(w, QueueMessage(ty, body))
    ensures Inv(Step(w, QueueMessage(ty, body)))
  {
    var q := Queued(ty, body, w.counters.epoch);
    var k := Kept(w).(queued := w.queued + [q]);
    MoreQueued(w, q);
    DtlsOutgoing.WholeMessageIsValid(ty, |w.queued|, body, w.counters.epoch);
    forall x | x in k.flight && !x.isCcs ensures x.Hdr().seqNo < |w.queued| { assert IsQueued(x, w.queued); }
    MoreFlight(k, OutMsg(WholeMessage(ty, |w.queued|, body), w.counters.epoch, false));
  }

  lemma QueueCcsKeeps(w: World)
    requires Inv(w) && Enabled(w, QueueCcs)
    ensures Inv(Step(w, QueueCcs))
  {
    MoreFlight(Kept(w), OutMsg([], w.counters.epoch, true));
  }

  lemma FreshNumber(w: World, rec: Record)
    requires NumbersInv(w) && Emit(w.counters, rec).Some?
    ensures NumbersInv(w.(net := w.net + [rec], counters := Emit(w.counters, rec).value))
  {
    if !w.wrapped {
      forall i | 0 <= i < |w.net|
        ensures !SameNumber(w.net[i], rec)
      {
        assert w.net[i] in w.net;
      }
      assert forall x | x in w.net + [rec] :: x in w.net || x == rec;
    }
  }

  lemma NextRecordIsFragment(w: World, rec: Record)
    requires SenderInv(w) && Enabled(w, SealNext(rec))
    ensures rec.ctype == Handshake ==> IsFragment(rec, w.queued)
    ensures ValidCursor(w.flight, After(w.flight, w.cur, rec).value)
  {
    AfterIsValid(w.flight, w.cur, rec);
    var m := w.flight[w.cur.written];
    assert m in w.flight;
    if !m.isCcs {
      FragmentParses(m, w.cur.offset, |rec.payload| - HM_HEADER_LENGTH);
    }
  }

  lemma SealNextKeeps(w: World, rec: Record)
    requires Inv(w) && Enabled(w, SealNext(rec))
    ensures Inv(Step(w, SealNext(rec)))
  {
    FreshNumber(w, rec);
    NextRecordIsFragment(w, rec);
    assert forall x | x in w.net + [rec] :: x in w.net || x == rec;
  }

  lemma SealOtherKeeps(w: World, rec: Record)
    requires Inv(w) && Enabled(w, SealOther(rec))
    ensures Inv(Step(w, SealOther(rec)))
  {
    FreshNumber(w, rec);
    assert forall x | x in w.net + [rec] :: x in w.net || x == rec;
  }

  lemma OtherSenderStepsKeep(w: World, e: Event)
    requires Inv(w) && Enabled(w, e)
    requires e.MarkComplete? || e.DropFlight? || e.ChangeWriteState? || e.SealFails? || e.Reposition?
    ensures Inv(Step(w, e))
  {}

  // ---- Receiver steps ----

  lemma HandleFragmentMatches(st: D.State, rec: Record, queued: seq<Queued>, maxLen: nat)
    requires RingMatches(st, queued) && IsFragment(rec, queued) && rec.epoch == st.readEpoch
    requires |queued| < U16_LIMIT && forall i: nat | i < |queued| :: |queued[i].body| < U24_LIMIT
    ensures var p := ParseFragment(rec.payload).value;
            var h := D.HandleFragment(st, p.hdr, p.body, maxLen);
            RingMatches(h.st, queued) && h.st.readSeq == st.readSeq
  {
    var p := ParseFragment(rec.payload).value;
    var h := D.HandleFragment(st, p.hdr, p.body, maxLen);
    D.HandleFragmentKeepsValid(st, p.hdr, p.body, maxLen);
    D.GetIncomingKeepsValid(st, p.hdr);
    if D.GetIncoming(st, p.hdr).Continue? && h.Continue? && h.st != st {
      var i := p.hdr.seqNo % MAX_FLIGHT;
      var s := D.GetIncoming(st, p.hdr).st.slots[i].value;
      assert SlotMatches(s, queued);
      R.ReceiveAgrees(s.frag, R.Piece(p.hdr.fragOff, p.body), queued[p.hdr.seqNo].body);
    }
  }

  lemma OpenHandshakeMatches(st: D.State, rec: Record, opens: bool, maxLen: nat, queued: seq<Queued>)
    requires RingMatches(st, queued)
    requires |queued| < U16_LIMIT && forall i: nat | i < |queued| :: |queued[i].body| < U24_LIMIT
    requires opens && rec.ctype == Handshake ==> IsFragment(rec, queued)
    ensures RingMatches(D.OpenHandshake(st, rec, opens, maxLen).0, queued)
    ensures D.OpenHandshake(st, rec, opens, maxLen).0.readSeq == st.readSeq
  {
    D.OpenHandshakeKeepsValid(st, rec, opens, maxLen);
    var st1 := st.(accepted := st.accepted + {D.SequenceNumber(rec.epoch, rec.number)});
    D.SameRingIsValid(st, st1);
    if opens && rec.ctype == Handshake && rec.epoch == st.readEpoch {
      HandleFragmentMatches(st1, rec, queued, maxLen);
      var p := ParseFragment(rec.payload).value;
      assert D.HandlePayload(D.HandleFragment(st1, p.hdr, p.body, maxLen).st, [], maxLen).0
          == D.HandleFragment(st1, p.hdr, p.body, maxLen).st;
    }
  }

  lemma ArriveKeeps(w: World, e: Event)
    requires Inv(w) && Enabled(w, e) && (e.Arrive? || e.ArriveForCcs?)
    ensures Inv(Step(w, e))
  {
    OpenHandshakeMatches(w.rcv, e.rec, e.opens, e.maxLen, w.queued);
    D.OpenChangeCipherSpecKeepsValid(w.rcv, e.rec, e.opens, e.maxLen);
  }

  /** The message handed out is the next one queued, octet for octet, and it was assembled only from
      records of the epoch it was queued under. */
  lemma GetIsNext(w: World)
    requires Inv(w) && D.GetMessage(w.rcv).1.Some?
    ensures |w.delivered| < |w.queued|
    ensures D.GetMessage(w.rcv).1.value == Expected(w.queued, |w.delivered|)
    ensures w.rcv.Current().value.sources == {w.queued[|w.delivered|].epoch}
  {
    var i := w.rcv.readSeq % MAX_FLIGHT;
    D.SlotSeqIsExact(w.rcv, w.rcv.readSeq);
    var s := w.rcv.slots[i].value;
    assert SlotMatches(s, w.queued);
    R.CompleteBody(s.frag, w.queued[s.frag.seqNo].body);
  }

  lemma GetKeeps(w: World)
    requires Inv(w)
    ensures Inv(Step(w, Get))
  {
    D.GetMessageKeepsValid(w.rcv);
  }

  lemma NextKeeps(w: World)
    requires Inv(w) && Enabled(w, Next)
    ensures Inv(Step(w, Next))
  {
    D.NextMessageKeepsValid(w.rcv);
    GetIsNext(w);
  }

  lemma ChangeReadStateKeeps(w: World)
    requires Inv(w) && Enabled(w, ChangeReadState)
    ensures Inv(Step(w, ChangeReadState))
  {
    D.SetReadStateKeepsValid(w.rcv);
  }

  lemma StepKeepsInv(w: World, e: Event)
    requires Inv(w) && Enabled(w, e)
    ensures Inv(Step(w, e))
  {
    match e
    case QueueMessage(ty, body) => QueueMessageKeeps(w, ty, body);
    case QueueCcs => QueueCcsKeeps(w);
    case SealNext(rec) => SealNextKeeps(w, rec);
    case SealOther(rec) => SealOtherKeeps(w, rec);
    case Arrive(_, _, _) => ArriveKeeps(w, e);
    case ArriveForCcs(_, _, _) => ArriveKeeps(w, e);
    case Get => GetKeeps(w);
    case Next => NextKeeps(w);
    case ChangeReadState => ChangeReadStateKeeps(w);
    case _ => OtherSenderStepsKeep(w, e);
  }

  lemma {:induction false} RunInv(run: seq<World>, events: seq<Event>, i: nat)
    requires IsRun(run, events) && i < |run|
    ensures Inv(run[i])
  {
    if i == 0 {
      InitialInv(run[0]);
    } else {
      RunInv(run, events, i - 1);
      assert Moves(run, events, i - 1);
      StepKeepsInv(run[i - 1], events[i - 1]);
    }
  }

  // ---- What this means for runs ----

  /** In every run, the messages handed out are a prefix of the messages queued: in order, each
      once, with the sender's octets and the header of an unfragmented message. A message that is
      available now is the next one, and all its records were of the epoch it was queued under. */
  lemma DeliversInOrder(run: seq<World>, events: seq<Event>, i: nat)
    requires IsRun(run, events) && i < |run|
    ensures var w := run[i];
            && SenderInv(w) && |w.delivered| <= |w.queued|
            && (forall j: nat | j < |w.delivered| :: w.delivered[j] == Expected(w.queued, j))
            && w.rcv.Valid()
            && (D.GetMessage(w.rcv).1.Some? ==>
                  && |w.delivered| < |w.queued|
                  && D.GetMessage(w.rcv).1.value == Expected(w.queued, |w.delivered|)
                  && w.rcv.Current().value.sources == {w.queued[|w.delivered|].epoch})
  {
    RunInv(run, events, i);
    if D.GetMessage(run[i].rcv).1.Some? {
      GetIsNext(run[i]);
    }
  }

  /** In every run, and whatever was retransmitted, no two records ever sealed share an epoch and a
      number unless a counter has reported a wrap; and a handshake record is always under the epoch
      its message was queued under. */
  lemma NumbersAreUnique(run: seq<World>, events: seq<Event>, i: nat)
    requires IsRun(run, events) && i < |run|
    ensures var w := run[i];
            && (!w.wrapped ==> forall j, k | 0 <= j < k < |w.net| :: !SameNumber(w.net[j], w.net[k]))
            && (forall rec | rec in w.net && rec.ctype == Handshake ::
                  && ParseFragment(rec.payload).Some?
                  && ParseFragment(rec.payload).value.hdr.seqNo < |w.queued|
                  && rec.epoch == w.queued[ParseFragment(rec.payload).value.hdr.seqNo].epoch)
  {
    RunInv(run, events, i);
  }

  /** The proviso is needed: the seal that reports the wrap leaves the counter at zero, so a caller
      that seals again reuses number 0 of the epoch. */
  lemma AfterWrapNumbersRepeat(w: World, used: Record)
    requires Inv(w) && w.counters.next == U48_LIMIT - 1
    requires used in w.net && used.epoch == w.counters.epoch && used.number == 0
    ensures var wrap := SealFails(w.counters.(next := 0));
            && Enabled(w, wrap) && Wraps(w.counters, wrap.counters)
            && var w1 := Step(w, wrap);
               var again := SealOther(Record(ApplicationData, used.epoch, 0, []));
               && w1.wrapped
               && Enabled(w1, again)
               && exists j, k :: 0 <= j < k < |Step(w1, again).net| && SameNumber(Step(w1, again).net[j], Step(w1, again).net[k])
  {
    var j :| 0 <= j < |w.net| && w.net[j] == used;
    var w1 := Step(w, SealFails(w.counters.(next := 0)));
    var w2 := Step(w1, SealOther(Record(ApplicationData, used.epoch, 0, [])));
    assert SameNumber(w2.net[j], w2.net[|w.net|]);
  }

  /** A counter can be brought to any number, and the first record is still out there. */
  lemma {:induction false} SealMany(k: nat) returns (run: seq<World>, events: seq<Event>)
    requires k < U48_LIMIT
    ensures IsRun(run, events)
    ensures var w := run[|events|];
            && w.counters == Counters(0, k, 0) && !w.wrapped
            && (k > 0 ==> Record(ApplicationData, 0, 0, []) in w.net)
  {
    if k == 0 {
      run, events := [World([], false, START, Counters(0, 0, 0), false, [], [], D.Start(), [])], [];
    } else {
      run, events := SealMany(k - 1);
      RunInv(run, events, |events|);
      var w := run[|events|];
      var e := SealOther(Record(ApplicationData, 0, k - 1, []));
      var w1 := Step(w, e);
      assert [e][1..] == [] && Leads(w, [e], w1);
      assert w.net[..] == w.net && w1.net[|w.net|] == e.rec;
      assert forall rec | rec in w.net :: rec in w1.net;
      run := RunGoesOn(run, events, [e], w1);
      events := events + [e];
    }
  }

  /** So there is a run in which a caller goes on after the wrap was reported, and a number repeats. */
  lemma NumbersCanRepeat() returns (run: seq<World>, events: seq<Event>)
    ensures IsRun(run, events) && run[|events|].wrapped
    ensures exists j, k :: 0 <= j < k < |run[|events|].net| && SameNumber(run[|events|].net[j], run[|events|].net[k])
  {
    run, events := SealMany(U48_LIMIT - 1);
    RunInv(run, events, |events|);
    var w := run[|events|];
    var used := Record(ApplicationData, 0, 0, []);
    AfterWrapNumbersRepeat(w, used);
    var wrap, again := SealFails(w.counters.(next := 0)), SealOther(used);
    var w1 := Step(w, wrap);
    assert [wrap, again][1..] == [again] && [again][1..] == [];
    assert Leads(w1, [again], Step(w1, again)) && Leads(w, [wrap, again], Step(w1, again));
    run := RunGoesOn(run, events, [wrap, again], Step(w1, again));
    events := events + [wrap, again];
  }

  /** Is this the arrival of a record that gets past the epoch check, the window and the AEAD? */
  ghost predicate Accepts(w: World, e: Event) {
    && (e.Arrive? || (e.ArriveForCcs? && !w.rcv.hasCcs))
    && e.opens && e.rec.epoch == w.rcv.readEpoch && |e.rec.payload| <= MAX_PLAIN_LENGTH
    && !D.ReplayWindow.Discards(w.rcv.accepted, D.SequenceNumber(e.rec.epoch, e.rec.number))
  }

  /** The fragment loop does not touch the window or the epoch. */
  lemma {:induction false} PayloadKeepsWindow(st: D.State, payload: seq<Byte>, maxLen: nat)
    requires st.Valid()
    ensures D.HandlePayload(st, payload, maxLen).0.accepted == st.accepted
    ensures D.HandlePayload(st, payload, maxLen).0.readEpoch == st.readEpoch
    decreases |payload|
  {
    if payload != [] && ParseFragment(payload).Some? {
      var p := ParseFragment(payload).value;
      D.HandleFragmentKeepsValid(st, p.hdr, p.body, maxLen);
      PayloadKeepsWindow(D.HandleFragment(st, p.hdr, p.body, maxLen).st, p.rest, maxLen);
    }
  }

  lemma ArrivalWindow(st: D.State, rec: Record, opens: bool, maxLen: nat)
    requires st.Valid()
    ensures var st1 := D.OpenHandshake(st, rec, opens, maxLen).0;
            && st1.readEpoch == st.readEpoch && st.accepted <= st1.accepted
            && (opens && rec.epoch == st.readEpoch && |rec.payload| <= MAX_PLAIN_LENGTH
                ==> D.SequenceNumber(rec.epoch, rec.number) in st1.accepted
                    || D.ReplayWindow.Discards(st.accepted, D.SequenceNumber(rec.epoch, rec.number)))
  {
    var st1 := st.(accepted := st.accepted + {D.SequenceNumber(rec.epoch, rec.number)});
    D.SameRingIsValid(st, st1);
    PayloadKeepsWindow(st1, rec.payload, maxLen);
  }

  lemma StepWindow(w: World, e: Event)
    requires Inv(w) && Enabled(w, e)
    ensures Step(w, e).rcv.readEpoch == w.rcv.readEpoch ==> w.rcv.accepted <= Step(w, e).rcv.accepted
    ensures w.rcv.readEpoch <= Step(w, e).rcv.readEpoch
    ensures Accepts(w, e) ==> D.SequenceNumber(e.rec.epoch, e.rec.number) in Step(w, e).rcv.accepted
    ensures Accepts(w, e) ==> Step(w, e).rcv.readEpoch == w.rcv.readEpoch
  {
    if e.Arrive? || e.ArriveForCcs? {
      ArrivalWindow(w.rcv, e.rec, e.opens, e.maxLen);
    }
  }

  lemma {:induction false} WindowGrows(run: seq<World>, events: seq<Event>, i: nat, j: nat)
    requires IsRun(run, events) && i <= j < |run|
    ensures run[i].rcv.readEpoch <= run[j].rcv.readEpoch
    ensures run[i].rcv.readEpoch == run[j].rcv.readEpoch ==> run[i].rcv.accepted <= run[j].rcv.accepted
    decreases j - i
  {
    if i < j {
      WindowGrows(run, events, i, j - 1);
      RunInv(run, events, j - 1);
      assert Moves(run, events, j - 1);
      StepWindow(run[j - 1], events[j - 1]);
    }
  }

  /** In every run, no record number is accepted twice. */
  lemma NoReplay(run: seq<World>, events: seq<Event>, i: nat, j: nat)
    requires IsRun(run, events) && i < j < |events|
    requires Accepts(run[i], events[i]) && Accepts(run[j], events[j])
    ensures !SameNumber(events[i].rec, events[j].rec)
  {
    RunInv(run, events, i);
    assert Moves(run, events, i);
    StepWindow(run[i], events[i]);
    WindowGrows(run, events, i + 1, j);
  }

  // ---- The sender's calls are runs ----

  /** The events lead from one world to another. */
  ghost predicate Leads(w: World, events: seq<Event>, w1: World)
    decreases |events|
  {
    if events == [] then w1 == w
    else w.rcv.Valid() && Enabled(w, events[0]) && Leads(Step(w, events[0]), events[1..], w1)
  }

  lemma {:induction false} LeadsOn(w: World, a: seq<Event>, w1: World, b: seq<Event>, w2: World)
    requires Leads(w, a, w1) && Leads(w1, b, w2)
    ensures Leads(w, a + b, w2)
    decreases |a|
  {
    hide Enabled, Step;
    if a == [] {
      assert a + b == b;
    } else {
      assert (a + b)[1..] == a[1..] + b;
      LeadsOn(Step(w, a[0]), a[1..], w1, b, w2);
    }
  }

  lemma SealStep(w: World, rec: Record)
    requires w.rcv.Valid() && ValidFlight(w.flight) && ValidCursor(w.flight, w.cur)
    requires After(w.flight, w.cur, rec).Some? && Emit(w.counters, rec).Some?
    ensures Enabled(w, SealNext(rec))
    ensures Step(w, SealNext(rec))
         == w.(net := w.net + [rec], cur := After(w.flight, w.cur, rec).value, counters := Emit(w.counters, rec).value)
  {}

  /** Records that follow the cursor and the counters are sealed one after the other. */
  lemma {:induction false} SealsLead(w: World, recs: seq<Record>) returns (events: seq<Event>)
    requires w.rcv.Valid() && ValidFlight(w.flight) && ValidCursor(w.flight, w.cur)
    requires AfterAll(w.flight, w.cur, recs).Some? && EmitAll(w.counters, recs).Some?
    ensures Leads(w, events, w.(net := w.net + recs, cur := AfterAll(w.flight, w.cur, recs).value,
                                counters := EmitAll(w.counters, recs).value))
    decreases |recs|
  {
    hide After, Emit, Enabled, Step;
    if recs == [] {
      events := [];
      assert w.net + [] == w.net;
    } else {
      AfterIsValid(w.flight, w.cur, recs[0]);
      SealStep(w, recs[0]);
      var w1 := Step(w, SealNext(recs[0]));
      var more := SealsLead(w1, recs[1..]);
      events := [SealNext(recs[0])] + more;
      assert events[1..] == more && w.net + [recs[0]] + recs[1..] == w.net + recs;
    }
  }

  /** What send_flight did, with the rollback of a refused packet, is a sequence of events. */
  lemma AttemptLeads(w: World, sent: seq<Record>, unsent: seq<Record>, sealFailed: bool, cur1: Cursor, c1: Counters)
    returns (events: seq<Event>, w1: World)
    requires w.rcv.Valid() && ValidFlight(w.flight) && ValidCursor(w.flight, w.cur)
    requires DtlsOutgoing.Attempt(w.flight, w.cur, w.counters, sent, unsent, sealFailed, cur1, c1)
    ensures Leads(w, events, w1) && w1.cur == cur1 && w1.counters == c1 && w1.net == w.net + (sent + unsent)
    ensures w1 == w.(net := w1.net, cur := w1.cur, counters := w1.counters, wrapped := w1.wrapped)
  {
    var recs := sent + unsent;
    var sealing := SealsLead(w, recs);
    var a := w.(net := w.net + recs, cur := AfterAll(w.flight, w.cur, recs).value, counters := EmitAll(w.counters, recs).value);
    var b := Step(a, SealFails(c1));
    var c := b.(cur := cur1);
    assert ValidCursor(w.flight, cur1);
    var rest := [SealFails(c1), Reposition(cur1)];
    assert rest[1..] == [Reposition(cur1)] && rest[1..][1..] == [] && Leads(b, rest[1..], c) && Leads(a, rest, c);
    LeadsOn(w, sealing, a, rest, c);
    events, w1 := sealing + rest, c;
  }

  lemma {:induction false} RunGoesOn(run: seq<World>, events: seq<Event>, more: seq<Event>, w1: World) returns (run1: seq<World>)
    requires IsRun(run, events) && Leads(run[|events|], more, w1)
    ensures IsRun(run1, events + more) && run1[|events + more|] == w1
    decreases |more|
  {
    if more == [] {
      assert events + more == events;
      run1 := run;
    } else {
      var w := Step(run[|events|], more[0]);
      var longer, events1 := run + [w], events + [more[0]];
      forall i: nat | i < |events1|
        ensures Moves(longer, events1, i)
      {
        assert i < |events| ==> Moves(run, events, i);
      }
      run1 := RunGoesOn(longer, events1, more[1..], w1);
      assert events1 + more[1..] == events + more;
    }
  }

  /** A call of dtls1_flush_flight on the sender object, from a world of a run that has its flight, cursor and
      counters, goes on with the run; so the theorems about runs are about the object. It marks the flight
      complete first; a call of dtls1_retransmit_outgoing_messages rewinds instead. */
  lemma CallsAreRuns(run: seq<World>, events: seq<Event>, rewind: bool, sent: seq<Record>, unsent: seq<Record>,
                     sealFailed: bool, cur1: Cursor, c1: Counters)
    returns (run1: seq<World>, events1: seq<Event>)
    requires IsRun(run, events)
    requires var w := run[|events|];
             && ValidFlight(w.flight) && ValidCursor(w.flight, w.cur)
             && DtlsOutgoing.Attempt(w.flight, if rewind then START else w.cur, w.counters, sent, unsent, sealFailed, cur1, c1)
    ensures IsRun(run1, events1)
    ensures var w, w1 := run[|events|], run1[|events1|];
            && w1.cur == cur1 && w1.counters == c1 && w1.net == w.net + (sent + unsent)
            && w1 == w.(net := w1.net, cur := w1.cur, counters := w1.counters, wrapped := w1.wrapped, complete := w1.complete)
            && w1.complete == (!rewind || w.complete)
  {
    hide DtlsOutgoing.Attempt;
    var w := run[|events|];
    RunInv(run, events, |events|);
    var start := if rewind then w.(cur := START) else w.(complete := true);
    var back := [if rewind then Reposition(START) else MarkComplete];
    assert Leads(w, back, start) by {
      assert back[1..] == [] && Leads(start, [], start);
    }
    var more, w1 := AttemptLeads(start, sent, unsent, sealFailed, cur1, c1);
    LeadsOn(w, back, start, more, w1);
    run1 := RunGoesOn(run, events, back + more, w1);
    events1 := events + (back + more);
  }
}
