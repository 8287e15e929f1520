/** What it means to have sent part of a DTLS flight: cursors, the records that follow a cursor,
    and record numbers. Independent of how DtlsOutgoing cuts fragments and packets. */
module DtlsFlight {
  import opened Prelude
  import opened DtlsWire

  /** An entry of outgoing_messages: a ChangeCipherSpec, or a whole serialised handshake message. */
  datatype OutMsg = OutMsg(data: seq<Byte>, epoch: nat, isCcs: bool)
  {
    /** dtls1_add_message's input: header and body as one fragment. */
    predicate Valid() {
      epoch < U16_LIMIT &&
      (!isCcs ==>
         && ParseFragment(data).Some?
         && Parse().rest == []
         && Parse().hdr.fragOff == 0
         && Parse().hdr.fragLen == Parse().hdr.msgLen)
    }

    function Parse(): Parsed
      requires ParseFragment(data).Some?
    {
      ParseFragment(data).value
    }

    function Body(): seq<Byte>
      requires Valid() && !isCcs
    {
      Parse().body
    }

    function Hdr(): Header
      requires Valid() && !isCcs
    {
      Parse().hdr
    }
  }

  predicate ValidFlight(flight: seq<OutMsg>) {
    forall m | m in flight :: m.Valid()
  }

  /** outgoing_written and outgoing_offset. */
  datatype Cursor = Cursor(written: nat, offset: nat)

  const START := Cursor(0, 0)

  predicate ValidCursor(flight: seq<OutMsg>, cur: Cursor)
    requires ValidFlight(flight)
  {
    && cur.written <= |flight|
    && (cur.offset > 0 ==> cur.written < |flight| && !flight[cur.written].isCcs && cur.offset < |flight[cur.written].Body()|)
  }

  /** The fragment of message m that starts at an offset and carries len body octets. */
  function FragmentAt(m: OutMsg, offset: nat, len: nat): seq<Byte>
    requires m.Valid() && !m.isCcs && offset + len <= |m.Body()|
  {
    WriteHeader(m.Hdr().(fragOff := offset, fragLen := len)) + m.Body()[offset..offset + len]
  }

  /** Where the cursor is after a record, if the record is a legitimate next one: it belongs to the
      message at the cursor, carries that message's epoch, and holds the next octets of its body. */
  function After(flight: seq<OutMsg>, cur: Cursor, rec: Record): Option<Cursor>
    requires ValidFlight(flight) && ValidCursor(flight, cur)
  {
    if cur.written == |flight| then None
    else
      var m := flight[cur.written];
      if rec.epoch != m.epoch then None
      else if m.isCcs then
        if rec.ctype == ChangeCipherSpec && rec.payload == CCS_PAYLOAD then Some(Cursor(cur.written + 1, 0)) else None
      else if rec.ctype != Handshake || |rec.payload| < HM_HEADER_LENGTH then None
      else
        var len := |rec.payload| - HM_HEADER_LENGTH;
        if cur.offset + len > |m.Body()| || rec.payload != FragmentAt(m, cur.offset, len) then None
        else if cur.offset + len == |m.Body()| then Some(Cursor(cur.written + 1, 0))
        else if len == 0 then None
        else Some(Cursor(cur.written, cur.offset + len))
  }

  lemma AfterIsValid(flight: seq<OutMsg>, cur: Cursor, rec: Record)
    requires ValidFlight(flight) && ValidCursor(flight, cur) && After(flight, cur, rec).Some?
    ensures ValidCursor(flight, After(flight, cur, rec).value)
  {}

  function AfterAll(flight: seq<OutMsg>, cur: Cursor, recs: seq<Record>): (r: Option<Cursor>)
    requires ValidFlight(flight) && ValidCursor(flight, cur)
    ensures r.Some? ==> ValidCursor(flight, r.value)
    decreases |recs|
  {
    if recs == [] then Some(cur)
    else
      match After(flight, cur, recs[0])
      case None => None
      case Some(mid) =>
        AfterIsValid(flight, cur, recs[0]);
        AfterAll(flight, mid, recs[1..])
  }

  lemma {:induction false} AfterAllAppends(flight: seq<OutMsg>, cur: Cursor, a: seq<Record>, b: seq<Record>)
    requires ValidFlight(flight) && ValidCursor(flight, cur)
    requires AfterAll(flight, cur, a).Some?
    ensures AfterAll(flight, cur, a + b) == AfterAll(flight, AfterAll(flight, cur, a).value, b)
    decreases |a|
  {
    if a == [] {
      assert a + b == b;
    } else {
      AfterIsValid(flight, cur, a[0]);
      assert (a + b)[1..] == a[1..] + b;
      AfterAllAppends(flight, After(flight, cur, a[0]).value, a[1..], b);
    }
  }

  /** The measure by which send_flight terminates: messages left, then octets left of the current one. */
  function MessagesLeft(flight: seq<OutMsg>, cur: Cursor): nat
    requires ValidFlight(flight) && ValidCursor(flight, cur)
  {
    |flight| - cur.written
  }

  function OctetsLeft(flight: seq<OutMsg>, cur: Cursor): nat
    requires ValidFlight(flight) && ValidCursor(flight, cur)
  {
    if cur.written == |flight| || flight[cur.written].isCcs then 0 else |flight[cur.written].Body()| - cur.offset
  }

  predicate Further(flight: seq<OutMsg>, a: Cursor, b: Cursor)
    requires ValidFlight(flight) && ValidCursor(flight, a) && ValidCursor(flight, b)
  {
    || MessagesLeft(flight, b) < MessagesLeft(flight, a)
    || (MessagesLeft(flight, b) == MessagesLeft(flight, a) && OctetsLeft(flight, b) < OctetsLeft(flight, a))
  }

  /** Every record makes progress. */
  lemma {:induction false} RecordsMoveOn(flight: seq<OutMsg>, cur: Cursor, recs: seq<Record>)
    requires ValidFlight(flight) && ValidCursor(flight, cur)
    requires recs != [] && AfterAll(flight, cur, recs).Some?
    ensures Further(flight, cur, AfterAll(flight, cur, recs).value)
    decreases |recs|
  {
    AfterIsValid(flight, cur, recs[0]);
    var mid := After(flight, cur, recs[0]).value;
    assert Further(flight, cur, mid);
    if |recs| > 1 {
      RecordsMoveOn(flight, mid, recs[1..]);
    }
  }

  /** The body octets a record carries for the message with a given number, as a receiver sees them. */
  function CarriedBy(rec: Record, seqNo: nat): seq<Byte> {
    if rec.ctype == Handshake && ParseFragment(rec.payload).Some? && ParseFragment(rec.payload).value.hdr.seqNo == seqNo
    then ParseFragment(rec.payload).value.body
    else []
  }

  function Carried(recs: seq<Record>, seqNo: nat): seq<Byte> {
    if recs == [] then [] else CarriedBy(recs[0], seqNo) + Carried(recs[1..], seqNo)
  }

  /** If the record is a fragment of message seqNo, it starts at a given offset. */
  predicate StartsAt(rec: Record, seqNo: nat, at: nat) {
    rec.ctype == Handshake && ParseFragment(rec.payload).Some? && ParseFragment(rec.payload).value.hdr.seqNo == seqNo
    ==> ParseFragment(rec.payload).value.hdr.fragOff == at
  }

  /** Every fragment among recs for message seqNo starts where the previous ones ended. */
  predicate InOrderFrom(recs: seq<Record>, seqNo: nat, at: nat)
    decreases |recs|
  {
    recs != [] ==>
      StartsAt(recs[0], seqNo, at) && InOrderFrom(recs[1..], seqNo, at + |CarriedBy(recs[0], seqNo)|)
  }

  predicate DistinctNumbers(flight: seq<OutMsg>)
    requires ValidFlight(flight)
  {
    forall i, j | 0 <= i < j < |flight| && !flight[i].isCcs && !flight[j].isCcs ::
      flight[i].Hdr().seqNo != flight[j].Hdr().seqNo
  }

  /** How much of message i's body lies before a cursor. */
  function Before(flight: seq<OutMsg>, i: nat, cur: Cursor): nat
    requires ValidFlight(flight) && ValidCursor(flight, cur) && i < |flight| && !flight[i].isCcs
  {
    if i < cur.written then |flight[i].Body()| else if i == cur.written then cur.offset else 0
  }

  lemma FragmentParses(m: OutMsg, offset: nat, len: nat)
    requires m.Valid() && !m.isCcs && offset + len <= |m.Body()|
    ensures ParseFragment(FragmentAt(m, offset, len))
         == Some(Parsed(m.Hdr().(fragOff := offset, fragLen := len), m.Body()[offset..offset + len], []))
  {
    var h := m.Hdr().(fragOff := offset, fragLen := len);
    ParseWritten(h, m.Body()[offset..offset + len], []);
    assert FragmentAt(m, offset, len) + [] == FragmentAt(m, offset, len);
  }

  lemma FragmentCarries(m: OutMsg, rec: Record, offset: nat, seqNo: nat)
    requires m.Valid() && !m.isCcs && rec.ctype == Handshake && |rec.payload| >= HM_HEADER_LENGTH
    requires var len := |rec.payload| - HM_HEADER_LENGTH;
             offset + len <= |m.Body()| && rec.payload == FragmentAt(m, offset, len)
    ensures CarriedBy(rec, seqNo)
         == if m.Hdr().seqNo == seqNo then m.Body()[offset..offset + |rec.payload| - HM_HEADER_LENGTH] else []
    ensures m.Hdr().seqNo == seqNo ==> StartsAt(rec, seqNo, offset)
    ensures m.Hdr().seqNo != seqNo ==> forall at :: StartsAt(rec, seqNo, at)
  {
    FragmentParses(m, offset, |rec.payload| - HM_HEADER_LENGTH);
  }

  lemma OneRecordCarries(flight: seq<OutMsg>, cur: Cursor, rec: Record, i: nat)
    requires ValidFlight(flight) && ValidCursor(flight, cur) && DistinctNumbers(flight)
    requires After(flight, cur, rec).Some? && i < |flight| && !flight[i].isCcs
    ensures ValidCursor(flight, After(flight, cur, rec).value)
    ensures var a, b := Before(flight, i, cur), Before(flight, i, After(flight, cur, rec).value);
            && a <= b <= |flight[i].Body()|
            && CarriedBy(rec, flight[i].Hdr().seqNo) == flight[i].Body()[a..b]
            && StartsAt(rec, flight[i].Hdr().seqNo, a)
  {
    var m := flight[cur.written];
    AfterIsValid(flight, cur, rec);
    if !m.isCcs {
      FragmentCarries(m, rec, cur.offset, flight[i].Hdr().seqNo);
    }
  }

  lemma JoinSlices(s: seq<Byte>, a: nat, b: nat, c: nat)
    requires a <= b <= c <= |s|
    ensures s[a..b] + s[b..c] == s[a..c]
  {}

  lemma CarriedJoins(recs: seq<Record>, n: nat, body: seq<Byte>, a: nat, b: nat, c: nat)
    requires recs != [] && a <= b <= c <= |body|
    requires CarriedBy(recs[0], n) == body[a..b] && Carried(recs[1..], n) == body[b..c]
    requires StartsAt(recs[0], n, a) && InOrderFrom(recs[1..], n, b)
    ensures Carried(recs, n) == body[a..b] + body[b..c]
    ensures InOrderFrom(recs, n, a)
  {}

  /** The records from one cursor to another carry, for every message of the flight, exactly the
      octets of its body between the two cursors, in order and each once. */
  lemma {:induction false} FragmentsPartition(flight: seq<OutMsg>, cur: Cursor, recs: seq<Record>, i: nat)
    requires ValidFlight(flight) && ValidCursor(flight, cur) && DistinctNumbers(flight)
    requires AfterAll(flight, cur, recs).Some? && i < |flight| && !flight[i].isCcs
    ensures var a, b := Before(flight, i, cur), Before(flight, i, AfterAll(flight, cur, recs).value);
            && a <= b <= |flight[i].Body()|
            && Carried(recs, flight[i].Hdr().seqNo) == flight[i].Body()[a..b]
            && InOrderFrom(recs, flight[i].Hdr().seqNo, a)
    decreases |recs|
  {
    if recs != [] {
      OneRecordCarries(flight, cur, recs[0], i);
      var mid := After(flight, cur, recs[0]).value;
      FragmentsPartition(flight, mid, recs[1..], i);
      var n, body := flight[i].Hdr().seqNo, flight[i].Body();
      var a, b := Before(flight, i, cur), Before(flight, i, mid);
      var c := Before(flight, i, AfterAll(flight, cur, recs).value);
      JoinSlices(body, a, b, c);
      CarriedJoins(recs, n, body, a, b, c);
    }
  }

  /** A whole flight, sent from its start to its end, carries every message whole. */
  lemma WholeFlightCarriesEverything(flight: seq<OutMsg>, recs: seq<Record>, i: nat)
    requires ValidFlight(flight) && DistinctNumbers(flight) && i < |flight| && !flight[i].isCcs
    requires AfterAll(flight, START, recs) == Some(Cursor(|flight|, 0))
    ensures Carried(recs, flight[i].Hdr().seqNo) == flight[i].Body()
    ensures InOrderFrom(recs, flight[i].Hdr().seqNo, 0)
  {
    FragmentsPartition(flight, START, recs, i);
  }

  /** w_epoch, the counter of that epoch, and the counter of the epoch before it. */
  datatype Counters = Counters(epoch: nat, next: nat, lastNext: nat)
  {
    predicate Valid() {
      epoch < U16_LIMIT && next < U48_LIMIT && lastNext < U48_LIMIT
    }
  }

  /** The counters after a record was sealed and its number incremented, if that is a record they
      allow: the number is the counter of its epoch, which is the current or the previous one, and
      the counter did not wrap. */
  function Emit(c: Counters, rec: Record): Option<Counters> {
    if rec.epoch == c.epoch && rec.number == c.next && c.next + 1 < U48_LIMIT then Some(c.(next := c.next + 1))
    else if rec.epoch + 1 == c.epoch && rec.number == c.lastNext && c.lastNext + 1 < U48_LIMIT
    then Some(c.(lastNext := c.lastNext + 1))
    else None
  }

  function EmitAll(c: Counters, recs: seq<Record>): Option<Counters>
    decreases |recs|
  {
    if recs == [] then Some(c)
    else
      match Emit(c, recs[0])
      case None => None
      case Some(c1) => EmitAll(c1, recs[1..])
  }

  lemma {:induction false} EmitAllAppends(c: Counters, a: seq<Record>, b: seq<Record>)
    requires EmitAll(c, a).Some?
    ensures EmitAll(c, a + b) == EmitAll(EmitAll(c, a).value, b)
    decreases |a|
  {
    if a == [] {
      assert a + b == b;
    } else {
      assert (a + b)[1..] == a[1..] + b;
      EmitAllAppends(Emit(c, a[0]).value, a[1..], b);
    }
  }

  /** A message number d before n, on 16 bits. */
  function NumberBack(n: nat, d: nat): nat
    requires n < U16_LIMIT && d < U16_LIMIT
  {
    (n + U16_LIMIT - d) % U16_LIMIT
  }

  /** The handshake messages of a flight carry consecutive numbers that end just before n, where
      d messages have already been counted off. */
  predicate NumberedBelow(flight: seq<OutMsg>, n: nat, d: nat)
    requires ValidFlight(flight) && n < U16_LIMIT && d + |flight| < U16_LIMIT
    decreases |flight|
  {
    flight != [] ==>
      var m := flight[|flight| - 1];
      var rest := flight[..|flight| - 1];
      if m.isCcs then NumberedBelow(rest, n, d)
      else m.Hdr().seqNo == NumberBack(n, d + 1) && NumberedBelow(rest, n, d + 1)
  }

  lemma {:induction false} NumberOf(flight: seq<OutMsg>, n: nat, d: nat, i: nat) returns (k: nat)
    requires ValidFlight(flight) && n < U16_LIMIT && d + |flight| < U16_LIMIT && NumberedBelow(flight, n, d)
    requires i < |flight| && !flight[i].isCcs
    ensures d < k <= d + |flight| && flight[i].Hdr().seqNo == NumberBack(n, k)
    decreases |flight|
  {
    var last := |flight| - 1;
    var d1 := if flight[last].isCcs then d else d + 1;
    if i == last {
      k := d1;
    } else {
      k := NumberOf(flight[..last], n, d1, i);
    }
  }

  /** The last message of a flight shares its number with no earlier one. */
  lemma LastIsNew(flight: seq<OutMsg>, n: nat, d: nat, i: nat)
    requires ValidFlight(flight) && n < U16_LIMIT && d + |flight| < U16_LIMIT && NumberedBelow(flight, n, d)
    requires i < |flight| - 1 && !flight[i].isCcs && !flight[|flight| - 1].isCcs
    ensures flight[i].Hdr().seqNo != flight[|flight| - 1].Hdr().seqNo
  {
    var k := NumberOf(flight[..|flight| - 1], n, d + 1, i);
  }

  lemma {:induction false} NumberedIsDistinct(flight: seq<OutMsg>, n: nat, d: nat)
    requires ValidFlight(flight) && n < U16_LIMIT && d + |flight| < U16_LIMIT && NumberedBelow(flight, n, d)
    ensures DistinctNumbers(flight)
    decreases |flight|
  {
    if flight != [] {
      var last := |flight| - 1;
      NumberedIsDistinct(flight[..last], n, if flight[last].isCcs then d else d + 1);
      forall i, j | 0 <= i < j < |flight| && !flight[i].isCcs && !flight[j].isCcs
        ensures flight[i].Hdr().seqNo != flight[j].Hdr().seqNo
      {
        if j == last {
          LastIsNew(flight, n, d, i);
        } else {
          assert flight[..last][i] == flight[i] && flight[..last][j] == flight[j];
        }
      }
    }
  }
}
