/** ChangeCipherSpec in runs of the DTLS receiver: a record that lands is taken, once, before the keys change. */
module DtlsCcs {
  import opened Prelude
  import opened DtlsWire
  import opened DtlsFlight
  import opened DtlsRun
  import D = DtlsReceiver

  /** The record gets past the epoch check, the window and the AEAD. */
  ghost predicate Passes(st: D.State, rec: Record, opens: bool) {
    var n := rec.epoch * 0x1_0000_0000_0000 + rec.number;
    && opens && rec.epoch == st.readEpoch && |rec.payload| <= 16384
    && n !in st.accepted && forall m | m in st.accepted :: m < n + 64
  }

  /** A ChangeCipherSpec that can be taken: the octet 1, before any keys. */
  ghost predicate IsCcs(st: D.State, rec: Record, opens: bool) {
    Passes(st, rec, opens) && rec.ctype == ChangeCipherSpec && rec.payload == [1] && st.nullCipher
  }

  /** Such a record arrives. With one at hand already, a read for a ChangeCipherSpec takes no record. */
  ghost predicate Lands(w: World, e: Event) {
    (e.Arrive? || (e.ArriveForCcs? && !w.rcv.hasCcs)) && IsCcs(w.rcv, e.rec, e.opens)
  }

  /** dtls1_open_change_cipher_spec returns success. */
  ghost predicate Taken(w: World, e: Event)
    requires w.rcv.Valid()
  {
    e.ArriveForCcs? && D.OpenChangeCipherSpec(w.rcv, e.rec, e.opens, e.maxLen).1 == D.Success
  }

  lemma {:induction false} PayloadKeepsCcs(st: D.State, payload: seq<Byte>, maxLen: nat)
    requires st.Valid()
    ensures D.HandlePayload(st, payload, maxLen).0.hasCcs == st.hasCcs
    decreases |payload|
  {
    if payload != [] && ParseFragment(payload).Some? {
      var p := ParseFragment(payload).value;
      D.HandleFragmentKeepsValid(st, p.hdr, p.body, maxLen);
      PayloadKeepsCcs(D.HandleFragment(st, p.hdr, p.body, maxLen).st, p.rest, maxLen);
    }
  }

  /** One record at the receiver: it holds a ChangeCipherSpec afterwards exactly if it did before or this is one,
      and then the record was a success. */
  lemma RecordAndCcs(st: D.State, rec: Record, opens: bool, maxLen: nat)
    requires st.Valid()
    ensures var (st1, result) := D.OpenHandshake(st, rec, opens, maxLen);
            && (st1.hasCcs <==> st.hasCcs || IsCcs(st, rec, opens))
            && (IsCcs(st, rec, opens) ==> result == D.Success)
  {
    var st1 := st.(accepted := st.accepted + {D.SequenceNumber(rec.epoch, rec.number)});
    D.SameRingIsValid(st, st1);
    PayloadKeepsCcs(st1, rec.payload, maxLen);
    assert Passes(st, rec, opens) <==>
      rec.epoch == st.readEpoch && !D.ReplayWindow.Discards(st.accepted, D.SequenceNumber(rec.epoch, rec.number))
      && opens && |rec.payload| <= MAX_PLAIN_LENGTH;
  }

  /** A read for a ChangeCipherSpec succeeds exactly if one is held or this is one; after it none is held. */
  lemma ReadForCcs(st: D.State, rec: Record, opens: bool, maxLen: nat)
    requires st.Valid()
    ensures var (st1, result) := D.OpenChangeCipherSpec(st, rec, opens, maxLen);
            && (result == D.Success <==> st.hasCcs || IsCcs(st, rec, opens))
            && !st1.hasCcs
  {
    RecordAndCcs(st, rec, opens, maxLen);
  }

  lemma StepAndCcs(w: World, e: Event)
    requires Inv(w) && Enabled(w, e)
    ensures e.ArriveForCcs? ==> (Taken(w, e) <==> w.rcv.hasCcs || Lands(w, e)) && !Step(w, e).rcv.hasCcs
    ensures !e.ArriveForCcs? ==> (Step(w, e).rcv.hasCcs <==> w.rcv.hasCcs || Lands(w, e))
    ensures e.ChangeReadState? ==> !w.rcv.hasCcs
  {
    match e {
      case Arrive(rec, opens, maxLen) => RecordAndCcs(w.rcv, rec, opens, maxLen);
      case ArriveForCcs(rec, opens, maxLen) => ReadForCcs(w.rcv, rec, opens, maxLen);
      case _ =>
    }
  }

  /** A ChangeCipherSpec that landed before event n waits to be taken. */
  ghost predicate Waits(run: seq<World>, events: seq<Event>, i: nat, n: nat)
    requires n <= |events| && |run| == |events| + 1
  {
    i < n && events[i].Arrive? && Lands(run[i], events[i]) && forall k | i < k < n :: !events[k].ArriveForCcs?
  }

  /** The receiver holds a ChangeCipherSpec exactly if one landed and no read for one came since. */
  lemma {:induction false} HeldIsExact(run: seq<World>, events: seq<Event>, n: nat)
    requires IsRun(run, events) && n <= |events|
    ensures run[n].rcv.hasCcs <==> exists i: nat :: Waits(run, events, i, n)
    decreases n
  {
    if n > 0 {
      HeldIsExact(run, events, n - 1);
      RunInv(run, events, n - 1);
      assert Moves(run, events, n - 1);
      StepAndCcs(run[n - 1], events[n - 1]);
      if i: nat :| Waits(run, events, i, n) {
        assert i < n - 1 ==> Waits(run, events, i, n - 1);
      }
      if run[n].rcv.hasCcs {
        if Lands(run[n - 1], events[n - 1]) {
          assert Waits(run, events, n - 1, n);
        } else {
          var i: nat :| Waits(run, events, i, n - 1);
          assert Waits(run, events, i, n);
        }
      }
    }
  }

  /** In every run a ChangeCipherSpec that lands is taken: by the read it lands in, or else by the next read for
      one, whatever record comes with that; and until then the read keys cannot change. */
  lemma CcsIsTaken(run: seq<World>, events: seq<Event>, i: nat, j: nat)
    requires IsRun(run, events) && i <= j < |events| && Lands(run[i], events[i])
    requires events[j].ArriveForCcs? && forall k | i <= k < j :: !events[k].ArriveForCcs?
    ensures run[j].rcv.Valid() && Taken(run[j], events[j])
    ensures forall k | i < k <= j :: |run[k].rcv.slots| == 7 && D.SetReadState(run[k].rcv).None?
  {
    RunInv(run, events, j);
    assert Moves(run, events, j);
    StepAndCcs(run[j], events[j]);
    forall k | i < k <= j
      ensures |run[k].rcv.slots| == 7 && run[k].rcv.hasCcs
    {
      RunInv(run, events, k);
      HeldIsExact(run, events, k);
      assert Waits(run, events, i, k);
    }
  }

  /** How many of the first n events landed a ChangeCipherSpec, and how many took one. */
  ghost function Landed(run: seq<World>, events: seq<Event>, n: nat): nat
    requires n <= |events| && |run| == |events| + 1
  {
    if n == 0 then 0 else Landed(run, events, n - 1) + if Lands(run[n - 1], events[n - 1]) then 1 else 0
  }

  ghost function TakenCount(run: seq<World>, events: seq<Event>, n: nat): nat
    requires n <= |events| && |run| == |events| + 1 && IsRun(run, events)
  {
    if n == 0 then 0
    else
      assert Moves(run, events, n - 1);
      TakenCount(run, events, n - 1) + if Taken(run[n - 1], events[n - 1]) then 1 else 0
  }

  /** No more are taken than landed: nothing else lets a machine change its keys. */
  lemma {:induction false} CcsIsCounted(run: seq<World>, events: seq<Event>, n: nat)
    requires IsRun(run, events) && n <= |events|
    ensures TakenCount(run, events, n) + (if run[n].rcv.hasCcs then 1 else 0) <= Landed(run, events, n)
    decreases n
  {
    if n > 0 {
      CcsIsCounted(run, events, n - 1);
      RunInv(run, events, n - 1);
      assert Moves(run, events, n - 1);
      StepAndCcs(run[n - 1], events[n - 1]);
    }
  }

  /** The ChangeCipherSpec of a flight is a record that can be taken. */
  lemma FlightCcsCanBeTaken(flight: seq<OutMsg>, cur: Cursor, rec: Record, st: D.State)
    requires ValidFlight(flight) && ValidCursor(flight, cur) && After(flight, cur, rec).Some? && flight[cur.written].isCcs
    requires st.Valid() && st.nullCipher && Passes(st, rec, true)
    ensures IsCcs(st, rec, true) && rec.epoch == flight[cur.written].epoch
  {}
}
