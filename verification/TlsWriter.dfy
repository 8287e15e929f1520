/** The TLS write path: records sealed into a flight or a write buffer, and a transport that takes them bit by bit. */
module TlsWriter {
  import opened Prelude
  import opened TlsBuffer

  const MAX_PLAIN := 16384
  const MAX_INT := 0x7fff_ffff
  const MAX_OVERHEAD := 24570
  const MIN_FRAGMENT := 512
  const RECORD_HEADER := 5

  datatype ContentType = ChangeCipher | Alert | Handshake | Application

  /** A record as it was sealed: its octets on the wire and what they carry. */
  datatype Rec = Rec(kind: ContentType, plain: seq<Byte>, wire: seq<Byte>)

  /** tls_seal_record under some keys: by sequence number, type and plaintext; it may fail. */
  type Sealer = (nat, ContentType, seq<Byte>) -> Option<seq<Byte>>

  datatype WriteError = Shutdown | BadLength | BadRetry | Internal

  /** What a write returned: a number of octets, zero, what the transport returned, or an error. */
  datatype Outcome = Done(n: nat) | Nothing | Blocked | Failed(why: WriteError)

  // ---- What was sealed ----

  /** All octets of the records. */
  function Wire(rs: seq<Rec>): seq<Byte> {
    if rs == [] then [] else Wire(rs[..|rs| - 1]) + rs[|rs| - 1].wire
  }

  /** All plaintext of one type. */
  function Plain(kind: ContentType, rs: seq<Rec>): seq<Byte> {
    if rs == [] then []
    else Plain(kind, rs[..|rs| - 1]) + if rs[|rs| - 1].kind == kind then rs[|rs| - 1].plain else []
  }

  lemma SealedOne(rs: seq<Rec>, r: Rec)
    ensures Wire(rs + [r]) == Wire(rs) + r.wire
    ensures forall kind :: Plain(kind, rs + [r]) == Plain(kind, rs) + if r.kind == kind then r.plain else []
  {
    assert (rs + [r])[..|rs|] == rs;
  }

  lemma PutBehind(a: seq<Byte>, b: seq<Byte>, c: seq<Byte>)
    ensures a + b + [] + c == a + (b + c) + []
  {}

  /** One more record, of that type and plaintext. */
  predicate OneMore(rs: seq<Rec>, rs1: seq<Rec>, kind: ContentType, plain: seq<Byte>) {
    |rs1| == |rs| + 1 && rs1[..|rs|] == rs && rs1[|rs|].kind == kind && rs1[|rs|].plain == plain
  }

  /** ssl3_add_message's split of a message: full chunks and then the rest, one empty chunk for nothing. */
  function Chunks(msg: seq<Byte>, max: nat): seq<seq<Byte>>
    requires max > 0
  {
    if |msg| <= max then [msg] else [msg[..max]] + Chunks(msg[max..], max)
  }

  /** What was sealed went on with the data, from its octet h on. */
  predicate Grew(p0: seq<Byte>, p1: seq<Byte>, h: nat, data: seq<Byte>) {
    p1 == p0 || (|p0| <= |p1| && h + |p1| - |p0| <= |data| && p1 == p0 + data[h..h + |p1| - |p0|])
  }

  lemma SealedMore(kind: ContentType, rs: seq<Rec>, rs1: seq<Rec>, plain: seq<Byte>)
    requires OneMore(rs, rs1, kind, plain)
    ensures Plain(kind, rs1) == Plain(kind, rs) + plain
  {
    assert rs1 == rs + [rs1[|rs|]];
    SealedOne(rs, rs1[|rs|]);
  }

  lemma GrewNot(p: seq<Byte>, h: nat, data: seq<Byte>)
    ensures Grew(p, p, h, data)
  {}

  lemma GrewOn(p0: seq<Byte>, p1: seq<Byte>, p2: seq<Byte>, h: nat, data: seq<Byte>)
    requires Grew(p0, p1, h, data) && Grew(p1, p2, h + |p1| - |p0|, data)
    ensures Grew(p0, p2, h, data)
  {
    var h1, h2 := h + |p1| - |p0|, h + |p2| - |p0|;
    if p1 != p0 && p2 != p1 {
      assert data[h..h1] + data[h1..h2] == data[h..h2];
      assert p0 + data[h..h1] + data[h1..h2] == p0 + (data[h..h1] + data[h1..h2]);
    }
  }

  /** Sealing more of the rest of the data is sealing more of the data. */
  lemma GrewWithin(app: seq<Byte>, p0: seq<Byte>, p1: seq<Byte>, done: nat, data: seq<Byte>)
    requires |app| + done <= |p0| <= |app| + |data| && p0 == app + data[..|p0| - |app|]
    requires Grew(p0, p1, |p0| - |app| - done, data[done..])
    ensures |p0| <= |p1| <= |app| + |data| && p1 == app + data[..|p1| - |app|]
  {
    var h, n := |p0| - |app|, |p1| - |app|;
    if p1 != p0 {
      assert data[done..][h - done..n - done] == data[h..n];
      assert data[..h] + data[h..n] == data[..n];
    }
  }

  /** A caller who gives the same data again has each octet of it sealed once, and in order. */
  lemma SealedOnce(p0: seq<Byte>, p1: seq<Byte>, base: nat, data: seq<Byte>)
    requires base <= |p0| && p0[base..] <= data && Grew(p0, p1, |p0| - base, data)
    ensures p1[..base] == p0[..base] && p1[base..] <= data
  {
    var h, h1 := |p0| - base, |p1| - base;
    if p1 != p0 {
      assert p1[base..] == p0[base..] + data[h..h1] == data[..h] + data[h..h1] == data[..h1];
    }
  }

  /** The chunks are the message, and only the last is short. */
  lemma {:induction false} ChunksJoin(msg: seq<Byte>, max: nat)
    requires max > 0
    ensures var cs := Chunks(msg, max);
      && cs != [] && Joined(cs) == msg && |cs[|cs| - 1]| <= max
      && (msg != [] ==> cs[|cs| - 1] != [])
      && forall i :: 0 <= i < |cs| - 1 ==> |cs[i]| == max
    decreases |msg|
  {
    if |msg| > max {
      ChunksJoin(msg[max..], max);
      var tail := Chunks(msg[max..], max);
      assert Chunks(msg, max)[1..] == tail && msg[..max] + msg[max..] == msg;
    } else {
      assert Joined([msg]) == msg + [] == msg;
    }
  }

  /** What was sealed of one type grows by the chunks. */
  lemma {:induction false} CarriesPlain(rs: seq<Rec>, rs1: seq<Rec>, kind: ContentType, chunks: seq<seq<Byte>>, n: nat)
    requires n <= |chunks| && Carries(rs, rs1, kind, chunks, n)
    ensures Plain(kind, rs1) == Plain(kind, rs) + Joined(chunks[..n])
    decreases n
  {
    if n == 0 {
      assert Plain(kind, rs) + [] == Plain(kind, rs);
    } else {
      CarriesPlain(rs, rs1[..|rs1| - 1], kind, chunks, n - 1);
      JoinedOn(chunks, n - 1);
      assert Plain(kind, rs) + Joined(chunks[..n - 1]) + chunks[n - 1] == Plain(kind, rs) + (Joined(chunks[..n - 1]) + chunks[n - 1]);
    }
  }

  /** The first n of the chunks were sealed, one record each. */
  predicate Carries(rs: seq<Rec>, rs1: seq<Rec>, kind: ContentType, chunks: seq<seq<Byte>>, n: nat)
    requires n <= |chunks|
    decreases n
  {
    if n == 0 then rs1 == rs
    else rs1 != [] && OneMore(rs1[..|rs1| - 1], rs1, kind, chunks[n - 1]) && Carries(rs, rs1[..|rs1| - 1], kind, chunks, n - 1)
  }

  lemma OtherKind(kind: ContentType, rs: seq<Rec>, rs1: seq<Rec>)
    requires |rs1| == |rs| + 1 && rs1[..|rs|] == rs && rs1[|rs|].kind != kind
    ensures Plain(kind, rs1) == Plain(kind, rs)
  {
    assert Plain(kind, rs) + [] == Plain(kind, rs);
  }

  /** What a user of the connection does next. */
  datatype Call = Write | Message(msg: seq<Byte>) | CipherSpec | Flush | Warn(level: Byte, desc: Byte) | Dispatch
                | Limit(max: nat) | Keys(seal: Sealer, overhead: nat)

  class Writer {
    const bio: Bio
    const buffer: SSLBuffer
    var flight: Option<seq<Byte>>
    var flightOffset: nat
    var wnum: nat
    var wpendPending: bool
    var wpendTot: nat
    var wpendKind: ContentType
    var wpendRet: nat
    var wpendBuf: nat
    var partialWrite: bool
    var movingBuffer: bool
    var maxFragment: nat
    var shutdown: bool
    var alertDispatch: bool
    var sendAlert: (Byte, Byte)
    var seal: Sealer
    var overhead: nat
    var writeSeq: nat
    /** Every record sealed, in order. */
    ghost var records: seq<Rec>
    /** How much application data writes before the one in hand had sealed. */
    ghost var base: nat
    /** The write buffer has never been filled beyond 2^16 octets of memory. */
    ghost var intact: bool

    function FlightRest(): seq<Byte>
      requires flight.Some? ==> flightOffset <= |flight.value|
      reads `flight, `flightOffset
    {
      if flight.None? then [] else flight.value[flightOffset..]
    }

    /** As long as the buffer was not filled too far, the transport has taken a prefix of all sealed records, in
        the order of sealing; the write buffer holds what follows, and the pending flight the rest. */
    ghost predicate Ordered()
      reads `flight, `flightOffset, `records, `intact, bio, buffer, buffer.buf
    {
      && buffer.Valid()
      && (flight.None? ==> flightOffset == 0)
      && (flight.Some? ==> flightOffset <= |flight.value|)
      && (intact ==> buffer.Straight() && Wire(records) == bio.accepted + buffer.contents + FlightRest())
    }

    predicate Sane()
      reads `wpendPending, `wpendTot, `wpendRet, `maxFragment, `overhead
    {
      0 < maxFragment <= MAX_PLAIN && overhead <= MAX_OVERHEAD && (wpendPending ==> wpendTot == wpendRet > 0)
    }

    ghost predicate Valid()
      reads `flight, `flightOffset, `wpendPending, `wpendTot, `wpendRet, `maxFragment, `overhead, `records, `intact
      reads bio, buffer, buffer.buf
    {
      Ordered() && Sane() && Slim()
    }

    /** An empty buffer was not given memory for more than a record. */
    predicate Slim()
      reads buffer
    {
      buffer.size == 0 ==> buffer.offset + buffer.cap <= WRAP
    }

    function InFlight(): nat
      reads `wpendPending, `wpendKind, `wpendRet
    {
      if wpendPending && wpendKind.Application? then wpendRet else 0
    }

    ghost function App(): seq<Byte>
      reads `records
    {
      Plain(Application, records)
    }

    /** Application data is sealed once: beyond that of earlier writes there are the wnum octets of the write
        in hand and those of its pending record. */
    ghost predicate Tallied()
      reads `records, `base, `wnum, `wpendPending, `wpendKind, `wpendRet
    {
      |App()| == base + wnum + InFlight()
    }

    function FlightLen(): nat
      requires flight.Some? ==> flightOffset <= |flight.value|
      reads this
    {
      if flight.None? then 0 else |flight.value| - flightOffset
    }

    /** With a fragment of that length the write buffer stays clear of the sizes at which its 16-bit
        offset could wrap around. */
    predicate Roomy(len: nat)
      requires flight.Some? ==> flightOffset <= |flight.value|
      reads this
    {
      var max := FlightLen() + len + overhead;
      max + 7 <= 0x1_0000 || max > 0xffff
    }

    constructor (seal: Sealer, overhead: nat, maxFragment: nat)
      requires 0 < maxFragment <= MAX_PLAIN && overhead <= MAX_OVERHEAD
      ensures Valid() && Tallied() && fresh(bio) && fresh(buffer) && buffer.buf == null
      ensures records == [] && base == 0 && bio.accepted == [] && intact
    {
      this.seal, this.overhead, this.maxFragment := seal, overhead, maxFragment;
      bio := new Bio();
      buffer := new SSLBuffer();
      flight, flightOffset, wnum, wpendPending, shutdown, alertDispatch, writeSeq := None, 0, 0, false, false, false, 0;
      records, base, intact := [], 0, true;
    }

    /** Sealing works, and makes a record longer than the plaintext by no more than the overhead. */
    ghost predicate Seals(kind: ContentType)
      reads `seal, `overhead
    {
      forall n: nat, plain: seq<Byte> :: seal(n, kind, plain).Some? && |seal(n, kind, plain).value| <= |plain| + overhead
    }

    /** Nothing keeps a record of that length from being sealed into the write buffer, now or behind the write
        that is pending. */
    ghost predicate Ready(kind: ContentType, len: nat)
      requires flight.Some? ==> flightOffset <= |flight.value|
      reads this, buffer
    {
      Seals(kind) && (wpendPending || buffer.size == 0) && len <= 16384 && FlightLen() + len + overhead <= 0xffff
    }

    /** tls_seal_record into that much room. */
    method Seal(kind: ContentType, plain: seq<Byte>, room: nat) returns (rec: Option<seq<Byte>>)
      modifies `writeSeq, `records
      ensures rec.None? ==> records == old(records) && writeSeq == old(writeSeq)
      ensures Seals(kind) && |plain| + overhead <= room ==> rec.Some?
      ensures rec.Some? ==> |rec.value| <= room && records == old(records) + [Rec(kind, plain, rec.value)]
      ensures rec.Some? ==> writeSeq == old(writeSeq) + 1 && rec == seal(old(writeSeq), kind, plain)
    {
      rec := seal(writeSeq, kind, plain);
      if rec.Some? {
        if |rec.value| > room {
          return None;
        }
        records := records + [Rec(kind, plain, rec.value)];
        writeSeq := writeSeq + 1;
      }
    }

    // ---- The write buffer ----

    /** tls_write_buffer_flush. */
    method FlushBuffer() returns (ok: bool)
      requires Valid()
      modifies bio, buffer
      ensures Valid() && (buffer.buf == null || buffer.buf == old(buffer.buf))
      ensures if ok then buffer.contents == [] && buffer.size == 0 else buffer.size > 0
      ensures if ok then Took(old(bio.asked), bio.asked) else Refused(old(bio.asked), bio.asked, buffer.contents)
    {
      ok := buffer.FlushTo(bio);
    }

    /** The arguments are not those of the write that is pending. */
    predicate Mismatch(kind: ContentType, len: nat, at: nat)
      reads this
    {
      wpendTot > len || (!movingBuffer && wpendBuf != at) || wpendKind != kind
    }

    /** ssl3_write_pending. */
    method WritePending(kind: ContentType, len: nat, at: nat) returns (out: Outcome)
      requires Valid() && wpendPending
      modifies `wpendPending, bio, buffer
      ensures Valid() && (buffer.buf == null || buffer.buf == old(buffer.buf))
      ensures out == Failed(BadRetry) <==> Mismatch(kind, len, at)
      ensures out == Failed(BadRetry) ==> bio.asked == old(bio.asked)
      ensures out == Done(wpendRet) || out.Blocked? || out == Failed(BadRetry)
      ensures wpendPending <==> !out.Done?
      ensures out.Done? ==> buffer.size == 0 && Took(old(bio.asked), bio.asked)
      ensures out.Blocked? ==> Refused(old(bio.asked), bio.asked, buffer.contents)
    {
      if Mismatch(kind, len, at) {
        return Failed(BadRetry);
      }
      var ok := FlushBuffer();
      if !ok {
        return Blocked;
      }
      wpendPending := false;
      out := Done(wpendRet);
    }

    /** What is left of the pending flight goes into the write buffer, ahead of the next record. */
    method TakeFlight()
      requires Ordered() && Sane() && buffer.size == 0 && FlightLen() <= buffer.cap
      requires FlightLen() == 0 ==> Slim()
      modifies `flight, `flightOffset, `intact, buffer`size, buffer`contents, buffer.buf
      ensures Valid() && flight.None? && buffer.size == old(FlightLen())
      ensures intact == (old(intact) && buffer.Straight())
    {
      if flight.Some? {
        var rest := FlightRest();
        assert bio.accepted + buffer.contents + rest == bio.accepted + (buffer.contents + rest) + [];
        flight, flightOffset := None, 0;
        buffer.Append(rest);
        intact := intact && buffer.Straight();
      }
    }

    /** A record sealed into the write buffer, behind what is left of the pending flight. */
    method SealIntoBuffer(kind: ContentType, data: seq<Byte>) returns (ok: bool)
      requires Valid() && !wpendPending && buffer.size == 0 && |data| <= MAX_PLAIN
      modifies `flight, `flightOffset, `writeSeq, `records, `intact, buffer, buffer.buf
      ensures intact <==> old(intact) && buffer.Straight()
      ensures old(intact) && old(Roomy(|data|)) ==> intact
      ensures Valid() && (buffer.buf == null || buffer.buf == old(buffer.buf) || fresh(buffer.buf))
      ensures flight.None? || (flight == old(flight) && flightOffset == old(flightOffset))
      ensures if ok then OneMore(old(records), records, kind, data) else records == old(records)
      ensures old(Ready(kind, |data|)) ==> ok
    {
      var address: nat := *;
      var max := FlightLen() + |data| + overhead;
      ok := buffer.EnsureCap(FlightLen() + RECORD_HEADER, max, address);
      if !ok {
        return;
      }
      TakeFlight();
      ok := SealBehind(kind, data);
    }

    /** tls_seal_record at the end of the write buffer. */
    method SealBehind(kind: ContentType, data: seq<Byte>) returns (ok: bool)
      requires Valid() && flight.None? && !wpendPending
      modifies `writeSeq, `records, `intact, buffer`size, buffer`contents, buffer.buf
      ensures Valid() && if ok then OneMore(old(records), records, kind, data) else records == old(records)
      ensures intact == (old(intact) && buffer.Straight()) && buffer.size >= old(buffer.size)
      ensures Seals(kind) && |data| + overhead <= old(buffer.cap - buffer.size) ==> ok
    {
      hide Plain, Wire;
      var rec := Seal(kind, data, buffer.cap - buffer.size);
      if rec.None? {
        return false;
      }
      ghost var a, b := bio.accepted, buffer.contents;
      SealedOne(old(records), Rec(kind, data, rec.value));
      PutBehind(a, b, rec.value);
      buffer.Append(rec.value);
      assert buffer.contents == b + rec.value;
      intact := intact && buffer.Straight();
      ok := true;
    }

    /** do_ssl3_write. */
    method DoWrite(kind: ContentType, data: seq<Byte>, at: nat) returns (out: Outcome)
      requires Valid()
      modifies `flight, `flightOffset, `wpendPending, `wpendTot, `wpendKind, `wpendRet, `wpendBuf, `writeSeq, `records
      modifies `intact, bio, buffer, buffer.buf
      ensures old(intact) && (old(wpendPending) || old(Roomy(|data|))) ==> intact
      ensures Valid() && (buffer.buf == null || buffer.buf == old(buffer.buf) || fresh(buffer.buf))
      ensures flight.None? || (flight == old(flight) && flightOffset == old(flightOffset))
      ensures if old(wpendPending) then WentOn(out, kind, |data|, at) else Began(out, kind, data, at)
      ensures out.Blocked? ==> Refused(old(bio.asked), bio.asked, buffer.contents)
      ensures out.Done? ==> buffer.size == 0 && Took(old(bio.asked), bio.asked)
      ensures out.Failed? || out.Nothing? ==> bio.asked == old(bio.asked)
      ensures out == Failed(Internal) ==> !old(Ready(kind, |data|))
    {
      hide Ordered;
      if wpendPending {
        out := WritePending(kind, |data|, at);
        return;
      }
      if |data| > MAX_PLAIN || buffer.size > 0 {
        return Failed(Internal);
      }
      if |data| == 0 {
        return Nothing;
      }
      var ok := SealIntoBuffer(kind, data);
      if !ok {
        return Failed(Internal);
      }
      wpendTot, wpendBuf, wpendKind, wpendRet, wpendPending := |data|, at, kind, |data|, true;
      out := WritePending(kind, |data|, at);
    }

    /** A call that found a write pending: nothing new is sealed, and the arguments are compared with the
        pending ones. */
    twostate predicate WentOn(out: Outcome, kind: ContentType, len: nat, at: nat)
      reads this
    {
      && records == old(records) && (out.Failed? <==> old(Mismatch(kind, len, at)))
      && wpendTot == old(wpendTot) && wpendKind == old(wpendKind) && wpendRet == old(wpendRet) && wpendBuf == old(wpendBuf)
      && match out
         case Done(n) => n == old(wpendRet) && !wpendPending
         case Blocked => wpendPending
         case Failed(why) => why.BadRetry? && wpendPending
         case Nothing => false
    }

    /** A call that found none: the data is sealed once and is pending until all of it is taken. */
    twostate predicate Began(out: Outcome, kind: ContentType, data: seq<Byte>, at: nat)
      reads this
    {
      match out
      case Done(n) => n == |data| > 0 && !wpendPending && OneMore(old(records), records, kind, data)
      case Blocked =>
        && |data| > 0 && wpendPending && OneMore(old(records), records, kind, data)
        && wpendKind == kind && wpendRet == |data| && wpendBuf == at
      case Nothing => |data| == 0 && !wpendPending && records == old(records)
      case Failed(why) => why.Internal? && !wpendPending && records == old(records)
    }

    // ---- Application data ----

    /** The pending flight leaves room in the write buffer, or so little that no record fits. */
    predicate FlightFits()
      requires flight.Some? ==> flightOffset <= |flight.value|
      reads this
    {
      FlightLen() + maxFragment + overhead + 7 <= 0x1_0000 || FlightLen() + overhead > 0xffff
    }

    /** The length of the next record of a write. */
    function NextLen(len: nat): nat
      reads this
    {
      if len > maxFragment then maxFragment else len
    }

    /** The write goes on from a write that is pending with other arguments. */
    predicate BadRetryAhead(len: nat, at: nat)
      reads this
    {
      !shutdown && wnum <= len && wpendPending && Mismatch(Application, NextLen(len - wnum), at + wnum)
    }

    /** One record's worth of ssl3_write_app_data, after tot octets. */
    method WriteChunk(data: seq<Byte>, tot: nat, at: nat) returns (out: Outcome)
      requires Valid() && tot <= |data| && |App()| == base + tot + InFlight()
      modifies `flight, `flightOffset, `wpendPending, `wpendTot, `wpendKind, `wpendRet, `wpendBuf, `writeSeq, `records
      modifies `intact, bio, buffer, buffer.buf
      ensures Valid() && (buffer.buf == null || buffer.buf == old(buffer.buf) || fresh(buffer.buf))
      ensures old(intact) && old(FlightFits()) ==> intact && FlightFits()
      ensures flight.None? || (flight == old(flight) && flightOffset == old(flightOffset))
      ensures Grew(old(App()), App(), |old(App())| - base, data)
      ensures |App()| == base + tot + InFlight() + if out.Done? then out.n else 0
      ensures out.Done? ==> 0 < out.n <= |data| - tot && !wpendPending
      ensures out == Failed(BadRetry) <==> old(wpendPending) && old(Mismatch(Application, NextLen(|data| - tot), at))
      ensures out.Blocked? ==> wpendPending
      ensures out.Failed? ==> out.why.BadRetry? || out.why.Internal?
      ensures out.Blocked? ==> Refused(old(bio.asked), bio.asked, buffer.contents)
      ensures out.Done? ==> buffer.size == 0 && Took(old(bio.asked), bio.asked)
      ensures out.Failed? || out.Nothing? ==> bio.asked == old(bio.asked)
      ensures out.Nothing? ==> tot == |data|
      ensures old(Ready(Application, maxFragment)) ==> out != Failed(Internal) && (out.Done? ==> Ready(Application, maxFragment))
    {
      hide Ordered;
      var nw := NextLen(|data| - tot);
      var had := wpendPending;
      ghost var before := records;
      out := DoWrite(Application, data[tot..tot + nw], at);
      if !had && (out.Done? || out.Blocked?) {
        SealedMore(Application, before, records, data[tot..tot + nw]);
      }
    }

    lemma GoesOn(asked0: seq<Asked>, asked1: seq<Asked>, asked2: seq<Asked>, out: Outcome, left: seq<Byte>)
      requires Took(asked0, asked1)
      requires if out.Blocked? then Refused(asked1, asked2, left) else if out.Done? then Took(asked1, asked2) else asked2 == asked1
      ensures out.Blocked? <==> !Took(asked0, asked2)
      ensures out.Blocked? ==> Refused(asked0, asked2, left)
    {}

    /** The loop of ssl3_write_app_data, after tot0 octets: how many are written at the end of it. */
    method WriteRecords(data: seq<Byte>, tot0: nat, at: nat) returns (out: Outcome, tot: nat)
      requires Valid() && tot0 <= |data| && |App()| == base + tot0 + InFlight()
      modifies `flight, `flightOffset, `wpendPending, `wpendTot, `wpendKind, `wpendRet, `wpendBuf, `writeSeq, `records
      modifies `intact, bio, buffer, buffer.buf
      ensures Valid() && (buffer.buf == null || buffer.buf == old(buffer.buf) || fresh(buffer.buf))
      ensures old(intact) && old(FlightFits()) ==> intact && FlightFits()
      ensures flight.None? || (flight == old(flight) && flightOffset == old(flightOffset))
      ensures Grew(old(App()), App(), |old(App())| - base, data)
      ensures tot0 <= tot <= |data| && |App()| == base + tot + InFlight()
      ensures out.Done? ==> out.n == tot > tot0 && !wpendPending && (tot == |data| || partialWrite)
      ensures out == Failed(BadRetry) <==> old(wpendPending) && old(Mismatch(Application, NextLen(|data| - tot0), at + tot0))
      ensures out.Blocked? ==> wpendPending
      ensures out.Failed? ==> out.why.BadRetry? || out.why.Internal?
      ensures out.Blocked? ==> Refused(old(bio.asked), bio.asked, buffer.contents)
      ensures out.Blocked? <==> !Took(old(bio.asked), bio.asked)
      ensures out.Done? ==> buffer.size == 0
      ensures out.Nothing? ==> tot0 == |data|
      ensures old(Ready(Application, maxFragment)) ==> out != Failed(Internal)
    {
      hide Plain, Wire, Mismatch, Grew, Seals, Took, Refused, Sane, Ready;
      TookNothing(bio.asked);
      GrewNot(App(), |App()| - base, data);
      tot := tot0;
      ghost var bad := wpendPending && Mismatch(Application, NextLen(|data| - tot), at + tot);
      while true
        invariant Valid() && (old(intact) && old(FlightFits()) ==> intact && FlightFits())
        invariant (buffer.buf == null || buffer.buf == old(buffer.buf) || fresh(buffer.buf))
        invariant flight.None? || (flight == old(flight) && flightOffset == old(flightOffset))
        invariant Grew(old(App()), App(), |old(App())| - base, data)
        invariant tot0 <= tot <= |data| && |App()| == base + tot + InFlight()
        invariant Took(old(bio.asked), bio.asked) && (tot == tot0 || tot < |data|)
        invariant old(Ready(Application, maxFragment)) ==> Ready(Application, maxFragment)
        invariant bad <==> wpendPending && Mismatch(Application, NextLen(|data| - tot), at + tot)
        decreases |data| - tot
      {
        ghost var app, asked := App(), bio.asked;
        out := WriteChunk(data, tot, at + tot);
        GoesOn(old(bio.asked), asked, bio.asked, out, buffer.contents);
        GrewOn(old(App()), app, App(), |old(App())| - base, data);
        if !out.Done? {
          return;
        }
        tot := tot + out.n;
        if tot == |data| || partialWrite {
          out := Done(tot);
          return;
        }
      }
    }

    /** ssl3_write_app_data. The address of the data is what a retry is told by. */
    method WriteAppData(data: seq<Byte>, at: nat) returns (out: Outcome)
      requires Valid() && Tallied()
      modifies `flight, `flightOffset, `wpendPending, `wpendTot, `wpendKind, `wpendRet, `wpendBuf, `writeSeq, `records
      modifies `intact, `wnum, `base, bio, buffer, buffer.buf
      ensures old(intact) && old(FlightFits()) ==> intact
      ensures Valid() && Tallied() && (buffer.buf == null || buffer.buf == old(buffer.buf) || fresh(buffer.buf))
      ensures flight.None? || (flight == old(flight) && flightOffset == old(flightOffset))
      ensures Grew(old(App()), App(), |old(App())| - old(base), data)
      ensures out == Failed(Shutdown) <==> shutdown
      ensures out == Failed(BadLength) <==> !shutdown && |data| < old(wnum)
      ensures out == Failed(BadRetry) <==> old(BadRetryAhead(|data|, at))
      ensures out.Done? ==> 0 < out.n <= |data| && (out.n == |data| || partialWrite) && wnum == 0 && !wpendPending && base == old(base) + out.n
      ensures out.Blocked? ==> wpendPending
      ensures out == Failed(BadLength) ==> wnum == 0 && records == old(records) && base == old(base) + old(wnum)
      ensures !out.Done? && out != Failed(BadLength) ==> base == old(base) && old(wnum) <= wnum <= |data| + old(wnum)
      ensures out.Blocked? ==> Refused(old(bio.asked), bio.asked, buffer.contents)
      ensures out.Done? ==> buffer.size == 0 && Took(old(bio.asked), bio.asked)
      ensures out.Done? && intact && flight.None? ==> bio.accepted == Wire(records)
      ensures !shutdown && old(wnum) < |data| && old(Ready(Application, maxFragment)) && !old(BadRetryAhead(|data|, at))
              && Took(old(bio.asked), bio.asked) ==>
                out.Done? && (partialWrite || out == Done(|data|))
    {
      hide Valid, Grew, Plain, Took, Refused, Seals, Wire;
      GrewNot(App(), |App()| - base, data);
      if shutdown {
        out := Failed(Shutdown);
      } else {
        var tot := wnum;
        wnum := 0;
        if |data| < tot {
          base := base + tot;
          out := Failed(BadLength);
        } else {
          out, tot := WriteRecords(data, tot, at);
          if out.Done? {
            AllWritten();
            base := base + tot;
          } else {
            wnum := tot;
          }
        }
      }
    }

    /** With an empty write buffer and no pending flight the transport has everything. */
    lemma AllWritten()
      requires Valid() && buffer.size == 0
      ensures flight.None? && intact ==> bio.accepted == Wire(records)
    {
      assert buffer.contents == [] && (flight.None? ==> FlightRest() == []) && bio.accepted + [] + [] == bio.accepted;
    }

    // ---- Flights ----

    /** add_record_to_flight. A flight that is being written out takes no more records. */
    method AddRecord(kind: ContentType, data: seq<Byte>) returns (ok: bool)
      requires Valid() && flightOffset == 0
      modifies `flight, `writeSeq, `records
      ensures Valid() && flight.Some?
      ensures if ok then OneMore(old(records), records, kind, data) else records == old(records)
      ensures kind != Application ==> App() == old(App())
      ensures Seals(kind) ==> ok
    {
      hide Wire, Plain;
      if flight.None? {
        flight := Some([]);
      }
      assert FlightRest() == flight.value;
      ghost var a, b, c := bio.accepted, buffer.contents, flight.value;
      var rec := Seal(kind, data, |data| + overhead);
      if rec.None? {
        return false;
      }
      SealedOne(old(records), Rec(kind, data, rec.value));
      if kind != Application { OtherKind(Application, old(records), records); }
      assert a + b + (c + rec.value) == a + b + c + rec.value;
      flight := Some(flight.value + rec.value);
      assert FlightRest() == flight.value;
      ok := true;
    }

    /** ssl3_add_message: the message in records of at most maxFragment octets. */
    method AddMessage(msg: seq<Byte>) returns (ok: bool)
      requires Valid() && flightOffset == 0
      modifies `flight, `writeSeq, `records
      ensures Valid() && flight.Some? && App() == old(App())
      ensures ok ==> Carries(old(records), records, Handshake, Chunks(msg, maxFragment), |Chunks(msg, maxFragment)|)
      ensures ok ==> Plain(Handshake, records) == old(Plain(Handshake, records)) + msg
      ensures !ok ==> exists n: nat :: n < |Chunks(msg, maxFragment)| && Carries(old(records), records, Handshake, Chunks(msg, maxFragment), n)
      ensures Seals(Handshake) ==> ok
    {
      hide Ordered, Plain, Seals;
      var rest, first := msg, true;
      ghost var all, n := Chunks(msg, maxFragment), 0;
      while first || rest != []
        invariant Valid() && flightOffset == 0 && (!first ==> flight.Some?) && App() == old(App())
        invariant first ==> rest == msg && n == 0
        invariant n <= |all| && Carries(old(records), records, Handshake, all, n)
        invariant if first || rest != [] then n < |all| && Chunks(rest, maxFragment) == all[n..] else n == |all|
        decreases |rest|, first
      {
        var chunk := rest[..NextLen(|rest|)];
        ghost var before := records;
        ok := AddRecord(Handshake, chunk);
        if !ok {
          return;
        }
        assert all[n] == all[n..][0] == chunk;
        assert records[..|records| - 1] == before;
        rest, first, n := rest[|chunk|..], false, n + 1;
      }
      CarriesPlain(old(records), records, Handshake, all, |all|);
      ChunksJoin(msg, maxFragment);
      assert all[..|all|] == all;
      ok := true;
    }

    /** ssl3_add_change_cipher_spec. */
    method AddChangeCipherSpec() returns (ok: bool)
      requires Valid() && flightOffset == 0
      modifies `flight, `writeSeq, `records
      ensures Valid() && flight.Some? && App() == old(App())
      ensures if ok then OneMore(old(records), records, ChangeCipher, [1]) else records == old(records)
      ensures Seals(ChangeCipher) ==> ok
    {
      ok := AddRecord(ChangeCipher, [1]);
    }

    /** Changing the keys: later records are sealed under the new ones. */
    method SetWriteState(seal: Sealer, overhead: nat)
      requires Valid() && overhead <= MAX_OVERHEAD
      modifies `seal, `overhead, `writeSeq
      ensures Valid() && writeSeq == 0
    {
      this.seal, this.overhead, writeSeq := seal, overhead, 0;
    }

    /** One BIO_write of the pending flight. */
    method OfferFlight() returns (ret: int)
      requires Valid() && buffer.size == 0 && flight.Some? && flightOffset < |flight.value|
      modifies `flightOffset, bio
      ensures Valid() && ret <= old(FlightLen())
      ensures flightOffset == old(flightOffset) + if ret > 0 then ret else 0
      ensures bio.asked == old(bio.asked) + [Wrote(old(FlightRest()), ret)]
    {
      hide Wire, Plain;
      ghost var a, c := bio.accepted, FlightRest();
      assert buffer.contents == [] && a + [] + c == a + c;
      ret := bio.Write(FlightRest());
      if ret > 0 {
        MoveFront(a, c, ret);
        flightOffset := flightOffset + ret;
        assert FlightRest() == c[ret..];
        assert bio.accepted + [] + c[ret..] == bio.accepted + c[ret..];
      }
    }

    /** The loop of ssl3_flush_flight over the pending flight. */
    method OfferAll() returns (ok: bool)
      requires Valid() && buffer.size == 0 && flight.Some?
      modifies `flightOffset, bio
      ensures Valid() && flightOffset >= old(flightOffset)
      ensures if ok then FlightLen() == 0 && Took(old(bio.asked), bio.asked)
              else FlightLen() > 0 && Refused(old(bio.asked), bio.asked, FlightRest())
    {
      while flightOffset < |flight.value|
        invariant Valid() && Took(old(bio.asked), bio.asked) && flightOffset >= old(flightOffset)
        decreases |flight.value| - flightOffset
      {
        ghost var asked := bio.asked;
        var ret := OfferFlight();
        if ret <= 0 {
          assert bio.asked[..|bio.asked| - 1] == asked;
          return false;
        }
      }
      ok := true;
    }

    /** ssl3_flush_flight: the write buffer first, then the flight. */
    method FlushFlight() returns (out: Outcome)
      requires Valid()
      modifies `flight, `flightOffset, bio, buffer
      ensures Valid() && (buffer.buf == null || buffer.buf == old(buffer.buf))
      ensures out == Done(1) || out.Blocked? || out == Failed(Shutdown) || out == Failed(Internal)
      ensures out == Failed(Shutdown) <==> shutdown && old(flight).Some?
      ensures out == Failed(Internal) <==> !shutdown && old(flight).Some? && |old(flight).value| > 0x7fff_ffff
      ensures out.Done? ==> flight.None?
      ensures out.Done? && old(flight).Some? ==> buffer.size == 0 && (intact ==> bio.accepted == Wire(records))
      ensures !out.Done? ==> flight == old(flight) && flightOffset >= old(flightOffset)
      ensures out.Done? ==> Took(old(bio.asked), bio.asked)
      ensures out.Failed? ==> bio.asked == old(bio.asked)
      ensures out.Blocked? ==>
                || (buffer.size > 0 && Refused(old(bio.asked), bio.asked, buffer.contents))
                || (buffer.size == 0 && FlightLen() > 0 && Refused(old(bio.asked), bio.asked, FlightRest()))
                || (buffer.size == 0 && FlightLen() == 0 && FlushRefused(old(bio.asked), bio.asked))
    {
      hide Wire, Plain, Took, Refused, FlushRefused;
      TookNothing(bio.asked);
      if flight.None? {
        out := Done(1);
      } else if shutdown {
        out := Failed(Shutdown);
      } else if |flight.value| > MAX_INT {
        out := Failed(Internal);
      } else {
        out := FlushBoth();
      }
    }

    /** The write buffer, the flight, and the transport itself. */
    method FlushBoth() returns (out: Outcome)
      requires Valid() && flight.Some?
      modifies `flight, `flightOffset, bio, buffer
      ensures Valid() && (buffer.buf == null || buffer.buf == old(buffer.buf))
      ensures out == Done(1) || out.Blocked?
      ensures out.Done? ==> flight.None? && buffer.size == 0 && (intact ==> bio.accepted == Wire(records))
      ensures !out.Done? ==> flight == old(flight) && flightOffset >= old(flightOffset)
      ensures out.Done? ==> Took(old(bio.asked), bio.asked)
      ensures out.Blocked? ==>
                || (buffer.size > 0 && Refused(old(bio.asked), bio.asked, buffer.contents))
                || (buffer.size == 0 && FlightLen() > 0 && Refused(old(bio.asked), bio.asked, FlightRest()))
                || (buffer.size == 0 && FlightLen() == 0 && FlushRefused(old(bio.asked), bio.asked))
    {
      hide Wire, Plain, Took, Refused, FlushRefused, Sane;
      ghost var asked0 := bio.asked;
      TookNothing(asked0);
      if buffer.size > 0 {
        var emptied := FlushBuffer();
        if !emptied {
          return Blocked;
        }
      }
      ghost var asked1 := bio.asked;
      var ok := OfferAll();
      if !ok {
        RefusedOn(asked0, asked1, bio.asked, FlightRest());
        return Blocked;
      }
      TookOn(asked0, asked1, bio.asked);
      ghost var asked2 := bio.asked;
      var flushed := bio.Flush();
      FlushEnds(asked0, asked2, flushed);
      if flushed <= 0 {
        return Blocked;
      }
      AllTaken();
      flight, flightOffset := None, 0;
      out := Done(1);
    }

    /** With nothing left, the transport has taken everything. */
    lemma AllTaken()
      requires Valid() && buffer.size == 0 && FlightLen() == 0
      ensures intact ==> bio.accepted == Wire(records)
      ensures FlightRest() == []
    {
      assert buffer.contents == [] && FlightRest() == [] && bio.accepted + [] + [] == bio.accepted;
    }

    /** Everything was taken, and then the transport could not be flushed. */
    ghost predicate FlushRefused(asked0: seq<Asked>, asked1: seq<Asked>) {
      |asked0| < |asked1| && Took(asked0, asked1[..|asked1| - 1])
      && asked1[|asked1| - 1].Flushed? && asked1[|asked1| - 1].ret <= 0
    }

    lemma FlushEnds(asked0: seq<Asked>, asked1: seq<Asked>, ret: int)
      requires Took(asked0, asked1)
      ensures if ret > 0 then Took(asked0, asked1 + [Flushed(ret)]) else FlushRefused(asked0, asked1 + [Flushed(ret)])
    {
      assert (asked1 + [Flushed(ret)])[..|asked1|] == asked1;
    }

    // ---- Alerts ----

    /** ssl3_dispatch_alert. */
    method DispatchAlert(at: nat) returns (out: Outcome)
      requires Valid() && Tallied()
      modifies `flight, `flightOffset, `wpendPending, `wpendTot, `wpendKind, `wpendRet, `wpendBuf, `writeSeq, `records
      modifies `intact, `alertDispatch, bio, buffer, buffer.buf
      ensures old(intact) && (old(wpendPending) || old(Roomy(2))) ==> intact
      ensures Valid() && Tallied() && (buffer.buf == null || buffer.buf == old(buffer.buf) || fresh(buffer.buf))
      ensures flight.None? || (flight == old(flight) && flightOffset == old(flightOffset))
      ensures App() == old(App()) && alertDispatch == (old(alertDispatch) && !out.Done?)
      ensures out.Failed? ==> out.why.BadRetry? || out.why.Internal?
      ensures old(wpendPending) && old(wpendKind) != Alert ==> out == Failed(BadRetry)
      ensures !old(wpendPending) && (out.Done? || out.Blocked?) ==> OneMore(old(records), records, Alert, [sendAlert.0, sendAlert.1])
      ensures !out.Nothing?
      ensures out.Done? ==> buffer.size == 0 && Took(old(bio.asked), bio.asked)
      ensures out.Blocked? ==> Refused(old(bio.asked), bio.asked, buffer.contents)
      ensures old(Ready(Alert, 2)) && !old(wpendPending) && Took(old(bio.asked), bio.asked) ==> out.Done? && buffer.size == 0
    {
      hide Ordered;
      ghost var before := records;
      out := DoWrite(Alert, [sendAlert.0, sendAlert.1], at);
      if out.Blocked? { RefusedIsNot(old(bio.asked), bio.asked, buffer.contents); }
      if records != before {
        OtherKind(Application, before, records);
      }
      if out.Done? {
        alertDispatch := false;
      }
    }

    /** ssl_send_alert. With something in the write buffer the alert is left for later. */
    method SendAlert(level: Byte, desc: Byte, at: nat) returns (out: Outcome)
      requires Valid() && Tallied()
      modifies `flight, `flightOffset, `wpendPending, `wpendTot, `wpendKind, `wpendRet, `wpendBuf, `writeSeq, `records
      modifies `intact, `alertDispatch, `sendAlert, `shutdown, bio, buffer, buffer.buf
      ensures old(intact) && (old(wpendPending) || old(Roomy(2))) ==> intact
      ensures Valid() && Tallied() && (buffer.buf == null || buffer.buf == old(buffer.buf) || fresh(buffer.buf))
      ensures flight.None? || (flight == old(flight) && flightOffset == old(flightOffset))
      ensures App() == old(App()) && shutdown && (out == Failed(Shutdown) <==> old(shutdown))
      ensures !old(shutdown) ==> sendAlert == (level, desc) && alertDispatch == !out.Done?
      ensures old(shutdown) ==> records == old(records) && sendAlert == old(sendAlert) && alertDispatch == old(alertDispatch)
      ensures !old(shutdown) && old(buffer.size) > 0 ==> out.Blocked? && records == old(records) && bio.asked == old(bio.asked)
      ensures !old(shutdown) && old(buffer.size) == 0 && !old(wpendPending) && (out.Done? || out.Blocked?) ==>
                OneMore(old(records), records, Alert, [level, desc])
      ensures out.Done? ==> buffer.size == 0 && Took(old(bio.asked), bio.asked)
      ensures out.Blocked? ==> old(buffer.size) > 0 || Refused(old(bio.asked), bio.asked, buffer.contents)
      ensures !old(shutdown) && old(Ready(Alert, 2)) && !old(wpendPending) && Took(old(bio.asked), bio.asked) ==> out.Done?
    {
      hide Ordered;
      if shutdown {
        return Failed(Shutdown);
      }
      shutdown, alertDispatch, sendAlert := true, true, (level, desc);
      if buffer.size == 0 {
        out := DispatchAlert(at);
      } else {
        out := Blocked;
      }
    }

    /** SSL_set_max_send_fragment clamps to what a record can hold. */
    method SetMaxSendFragment(max: nat)
      requires Valid()
      modifies `maxFragment
      ensures Valid() && maxFragment == if max > 16384 then 16384 else if max < 512 then 512 else max
    {
      maxFragment := if max > MAX_PLAIN then MAX_PLAIN else if max < MIN_FRAGMENT then MIN_FRAGMENT else max;
    }

    // ---- Runs ----

    /** A write of what is not yet written. */
    method RunWrite(data: seq<Byte>, done0: nat, at: nat, ghost app: seq<Byte>) returns (done: nat)
      requires Valid() && Tallied() && done0 + wnum + InFlight() <= |data| && base == |app| + done0
      requires App() == app + data[..done0 + wnum + InFlight()]
      modifies this, bio, buffer, buffer.buf
      ensures (old(intact) && old(FlightFits()) ==> intact) && (old(flight).None? ==> flight.None?)
      ensures Valid() && Tallied() && (buffer.buf == null || buffer.buf == old(buffer.buf) || fresh(buffer.buf))
      ensures done + wnum + InFlight() <= |data| && base == |app| + done
      ensures App() == app + data[..done + wnum + InFlight()]
    {
      hide Ordered, Plain;
      done := done0;
      var rest := data[done..];
      ghost var app0 := App();
      var out := WriteAppData(rest, at + done);
      GrewWithin(app, app0, App(), done0, data);
      if out.Done? {
        done := done + out.n;
      }
    }

    /** The call leaves the write buffer clear of the sizes at which its offset could wrap around. */
    predicate Fits(c: Call)
      requires flight.Some? ==> flightOffset <= |flight.value|
      reads this
    {
      match c
      case Write => FlightFits()
      case Warn(_, _) => wpendPending || Roomy(2)
      case Dispatch => wpendPending || Roomy(2)
      case _ => true
    }

    /** Without a pending flight every call fits. */
    lemma FitsAlone(c: Call)
      requires Valid() && flight.None?
      ensures Fits(c)
    {}

    /** One call. */
    method Take(c: Call, data: seq<Byte>, done0: nat, at: nat, alertAt: nat, ghost app: seq<Byte>) returns (done: nat)
      requires Valid() && Tallied() && done0 + wnum + InFlight() <= |data| && base == |app| + done0
      requires App() == app + data[..done0 + wnum + InFlight()]
      modifies this, bio, buffer, buffer.buf
      ensures Valid() && Tallied() && (buffer.buf == null || buffer.buf == old(buffer.buf) || fresh(buffer.buf))
      ensures done + wnum + InFlight() <= |data| && base == |app| + done
      ensures App() == app + data[..done + wnum + InFlight()]
      ensures old(intact) && old(Fits(c)) ==> intact
      ensures old(flight).None? && !c.Message? && !c.CipherSpec? ==> flight.None?
    {
      hide Plain, Wire, Roomy, FlightFits;
      done := done0;
      match c {
        case Write =>
          done := RunWrite(data, done, at, app);
        case Message(msg) =>
          if flightOffset == 0 {
            var _ := AddMessage(msg);
          }
        case CipherSpec =>
          if flightOffset == 0 {
            var _ := AddChangeCipherSpec();
          }
        case Flush =>
          var _ := FlushFlight();
        case Warn(level, desc) =>
          var _ := SendAlert(level, desc, alertAt);
        case Dispatch =>
          if alertDispatch {
            var _ := DispatchAlert(alertAt);
          }
        case Limit(max) =>
          SetMaxSendFragment(max);
        case Keys(seal, overhead) =>
          if overhead <= MAX_OVERHEAD {
            SetWriteState(seal, overhead);
          }
      }
    }

    /** Any calls in any order, over a transport that takes what it will, by a caller who gives data once and
        repeats a write until it is done: the data is sealed once, in order, as far as it is, and the transport
        has taken a prefix of the sealed records unless the write buffer was filled beyond 2^16 octets of
        memory; which it never was if all calls fit, as they do without handshake messages. */
    method Run(calls: seq<Call>, data: seq<Byte>, at: nat, alertAt: nat) returns (done: nat, ghost allFit: bool)
      requires Valid() && Tallied() && base == |App()| && intact
      modifies this, bio, buffer, buffer.buf
      ensures Valid() && Tallied()
      ensures done + wnum + InFlight() <= |data|
      ensures App() == old(App()) + data[..done + wnum + InFlight()]
      ensures intact ==> bio.accepted <= Wire(records)
      ensures allFit ==> intact
      ensures (forall c <- calls :: !c.Message? && !c.CipherSpec?) && old(flight).None? ==> allFit
    {
      hide Plain, Wire, Fits;
      done, allFit := 0, true;
      assert data[..0] == [] && App() + [] == App();
      for k := 0 to |calls|
        invariant Valid() && Tallied() && (buffer.buf == null || buffer.buf == old(buffer.buf) || fresh(buffer.buf))
        invariant allFit ==> intact
        invariant (forall c <- calls :: !c.Message? && !c.CipherSpec?) && old(flight).None? ==> allFit && flight.None?
        invariant done + wnum + InFlight() <= |data| && base == old(base) + done
        invariant App() == old(App()) + data[..done + wnum + InFlight()]
      {
        if flight.None? {
          FitsAlone(calls[k]);
        }
        allFit := allFit && Fits(calls[k]);
        assert calls[k] in calls;
        done := Take(calls[k], data, done, at, alertAt, old(App()));
      }
    }
  }
}
