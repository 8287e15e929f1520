/** Handshake messages over TLS records: any cut of the sender's bytes into records gives back the messages. */
module TlsFraming {
  import opened Prelude
  import TlsWriter

  datatype HsMessage = HsMessage(kind: Byte, body: seq<Byte>)

  /** What parse_message finds: a message and how long it is with its header, or how much it needs. */
  datatype Parsed = Whole(msg: HsMessage, len: nat) | Needs(bytes: nat)

  const HEADER := 4
  const MAX_U24 := 0xff_ffff

  function U24(b: seq<Byte>): nat
    requires |b| == 3
  {
    b[0] as int * 0x1_0000 + b[1] as int * 0x100 + b[2]
  }

  function PutU24(n: nat): (b: seq<Byte>)
    requires n <= MAX_U24
    ensures |b| == 3
  {
    [n / 0x1_0000, n / 0x100 % 0x100, n % 0x100]
  }

  lemma U24RoundTrip(n: nat, b: seq<Byte>)
    requires n <= MAX_U24 && |b| == 3
    ensures U24(PutU24(n)) == n && U24(b) <= MAX_U24 && PutU24(U24(b)) == b
  {
    assert U24(b) / 0x1_0000 == b[0] && U24(b) / 0x100 == b[0] as int * 0x100 + b[1];
  }

  /** ssl3_init_message and ssl3_finish_message: the type, the length in 24 bits and the body. */
  function Frame(m: HsMessage): seq<Byte>
    requires |m.body| <= MAX_U24
  {
    [m.kind] + PutU24(|m.body|) + m.body
  }

  /** The frame octet by octet. */
  lemma FrameLayout(m: HsMessage)
    requires |m.body| < 0x100_0000
    ensures var f := Frame(m);
            && |f| == 4 + |m.body| && f[0] == m.kind && f[4..] == m.body
            && |m.body| == f[1] as int * 65536 + f[2] as int * 256 + f[3] as int
  {
    U24RoundTrip(|m.body|, PutU24(|m.body|));
  }

  /** parse_message. */
  function ParseMessage(buf: seq<Byte>): Parsed {
    if |buf| < HEADER then Needs(HEADER)
    else if |buf| < HEADER + U24(buf[1..HEADER]) then Needs(HEADER + U24(buf[1..HEADER]))
    else Whole(HsMessage(buf[0], buf[HEADER..HEADER + U24(buf[1..HEADER])]), HEADER + U24(buf[1..HEADER]))
  }

  /** A frame, whatever follows it, parses as its message. */
  lemma ParseFrame(m: HsMessage, tail: seq<Byte>)
    requires |m.body| <= MAX_U24
    ensures ParseMessage(Frame(m) + tail) == Whole(m, |Frame(m)|)
  {
    var buf := Frame(m) + tail;
    assert buf[1..HEADER] == PutU24(|m.body|);
    U24RoundTrip(|m.body|, PutU24(|m.body|));
    assert buf[HEADER..HEADER + |m.body|] == m.body;
  }

  /** And what parses as a message starts with its frame. */
  lemma FrameParsed(buf: seq<Byte>)
    requires ParseMessage(buf).Whole?
    ensures var p := ParseMessage(buf); HEADER <= p.len <= |buf| && |p.msg.body| <= MAX_U24 && buf[..p.len] == Frame(p.msg)
  {
    U24RoundTrip(0, buf[1..HEADER]);
  }

  /** More bytes do not change a message that is there. */
  lemma ParseIsLocal(buf: seq<Byte>, tail: seq<Byte>)
    requires ParseMessage(buf).Whole?
    ensures ParseMessage(buf + tail) == ParseMessage(buf)
  {
    FrameParsed(buf);
    var p := ParseMessage(buf);
    ParseFrame(p.msg, buf[p.len..] + tail);
    assert buf + tail == Frame(p.msg) + (buf[p.len..] + tail);
  }

  // ---- All messages of a stretch of bytes ----

  /** The messages taken from the front until none is whole. */
  function Messages(buf: seq<Byte>): seq<HsMessage>
    decreases |buf|
  {
    match ParseMessage(buf)
    case Needs(_) => []
    case Whole(m, len) => [m] + Messages(buf[len..])
  }

  /** What is left of them. */
  function Left(buf: seq<Byte>): seq<Byte>
    decreases |buf|
  {
    match ParseMessage(buf)
    case Needs(_) => buf
    case Whole(_, len) => Left(buf[len..])
  }

  /** Taking what there is and then going on with more is taking all of it. */
  lemma {:induction false} MessagesJoin(a: seq<Byte>, b: seq<Byte>)
    ensures Messages(a + b) == Messages(a) + Messages(Left(a) + b)
    ensures Left(a + b) == Left(Left(a) + b)
    decreases |a|
  {
    match ParseMessage(a)
    case Needs(_) =>
    case Whole(m, len) =>
      FrameParsed(a);
      ParseIsLocal(a, b);
      assert (a + b)[len..] == a[len..] + b;
      MessagesJoin(a[len..], b);
      assert [m] + (Messages(a[len..]) + Messages(Left(a[len..]) + b)) == [m] + Messages(a[len..]) + Messages(Left(a[len..]) + b);
  }

  predicate Framable(ms: seq<HsMessage>) {
    forall m <- ms :: |m.body| <= MAX_U24
  }

  function Frames(ms: seq<HsMessage>): seq<Byte>
    requires Framable(ms)
  {
    if ms == [] then [] else Frame(ms[0]) + Frames(ms[1..])
  }

  lemma {:induction false} MessagesOfFrames(ms: seq<HsMessage>)
    requires Framable(ms)
    ensures Messages(Frames(ms)) == ms && Left(Frames(ms)) == []
  {
    if ms != [] {
      ParseFrame(ms[0], Frames(ms[1..]));
      assert Frames(ms)[|Frame(ms[0])|..] == Frames(ms[1..]);
      MessagesOfFrames(ms[1..]);
    }
  }

  /** However much of the frames has arrived, the messages so far are the first ones. */
  lemma FramesArrive(ms: seq<HsMessage>, a: seq<Byte>, b: seq<Byte>)
    requires Framable(ms) && a + b == Frames(ms)
    ensures Messages(a) <= ms && (b == [] ==> Messages(a) == ms && Left(a) == [])
  {
    MessagesOfFrames(ms);
    MessagesJoin(a, b);
    if b == [] {
      assert a + b == a;
    }
  }

  lemma TakeFront(a: seq<Byte>, b: seq<Byte>, f: seq<Byte>, g: seq<Byte>)
    requires a + b == f + g && |f| <= |a|
    ensures a[..|f|] == f && a[|f|..] + b == g
  {
    assert a[..|f|] == (a + b)[..|f|] && f == (f + g)[..|f|];
    assert a[|f|..] + b == (a + b)[|f|..] && g == (f + g)[|f|..];
  }

  lemma NothingWhole(buf: seq<Byte>)
    requires ParseMessage(buf).Needs?
    ensures Messages(buf) == [] && Left(buf) == buf
  {}

  /** What is left asks for no more than the longest message. */
  lemma {:induction false} LeftIsShort(ms: seq<HsMessage>, a: seq<Byte>, b: seq<Byte>, max: nat)
    requires Framable(ms) && a + b == Frames(ms) && forall m <- ms :: |m.body| <= max
    ensures ParseMessage(Left(a)).Needs? && ParseMessage(Left(a)).bytes <= HEADER + max
    decreases |a|
  {
    if ms == [] {
      assert a == [];
    } else if |a| < |Frame(ms[0])| {
      ParseFrame(ms[0], Frames(ms[1..]));
      assert |a| >= HEADER ==> a[1..HEADER] == Frames(ms)[1..HEADER];
    } else {
      var f := Frame(ms[0]);
      TakeFront(a, b, f, Frames(ms[1..]));
      ParseFrame(ms[0], a[|f|..]);
      assert a == f + a[|f|..];
      LeftIsShort(ms[1..], a[|f|..], b, max);
    }
  }

  // ---- The buffer of handshake data ----

  datatype OpenResult = Opened | ExcessData | Excessive

  class HandshakeBuffer {
    var hsBuf: Option<seq<Byte>>
    var hasMessage: bool
    /** ssl_max_handshake_message_len. */
    const maxLen: nat
    /** Everything that came in records, and the messages released. */
    ghost var arrived: seq<Byte>
    ghost var released: seq<HsMessage>

    function Contents(): seq<Byte>
      reads `hsBuf
    {
      if hsBuf.Some? then hsBuf.value else []
    }

    /** What was released and what the buffer holds are what arrived. */
    ghost predicate Valid()
      reads this
    {
      && Messages(arrived) == released + Messages(Contents())
      && Left(arrived) == Left(Contents())
      && (hasMessage ==> ParseMessage(Contents()).Whole?)
    }

    constructor (maxLen: nat)
      ensures Valid() && arrived == [] && released == [] && this.maxLen == maxLen && hsBuf == None
    {
      this.maxLen, hsBuf, hasMessage, arrived, released := maxLen, None, false, [], [];
    }

    /** tls_can_accept_handshake_data and, for the body of a handshake record, the append of
        ssl3_open_handshake. */
    method Open(body: seq<Byte>) returns (r: OpenResult)
      requires Valid()
      modifies `hsBuf, `arrived
      ensures Valid()
      ensures r == match ParseMessage(old(Contents()))
                   case Whole(_, _) => ExcessData
                   case Needs(bytes) => if bytes > HEADER + maxLen then Excessive else Opened
      ensures r.Opened? ==> arrived == old(arrived) + body && Contents() == old(Contents()) + body
      ensures !r.Opened? ==> arrived == old(arrived) && hsBuf == old(hsBuf)
    {
      hide Messages, Left;
      match ParseMessage(Contents()) {
        case Whole(_, _) =>
          return ExcessData;
        case Needs(bytes) =>
          if bytes > HEADER + maxLen {
            return Excessive;
          }
      }
      NothingWhole(Contents());
      MessagesJoin(arrived, body);
      hsBuf := Some(Contents() + body);
      arrived := arrived + body;
      r := Opened;
    }

    /** ssl3_get_message. */
    method GetMessage() returns (r: Option<HsMessage>)
      requires Valid()
      modifies `hasMessage
      ensures Valid() && hasMessage == (old(hasMessage) || r.Some?)
      ensures r == match ParseMessage(Contents())
                   case Whole(m, _) => Some(m)
                   case Needs(_) => None
    {
      match ParseMessage(Contents())
      case Whole(m, _) =>
        hasMessage := true;
        r := Some(m);
      case Needs(_) =>
        r := None;
    }

    /** ssl3_next_message. */
    method NextMessage(inInit: bool)
      requires Valid() && ParseMessage(Contents()).Whole?
      modifies this
      ensures Valid() && arrived == old(arrived) && !hasMessage
      ensures released == old(released) + [ParseMessage(old(Contents())).msg]
      ensures Contents() == old(Contents())[ParseMessage(old(Contents())).len..]
    {
      var p := ParseMessage(Contents());
      assert released + ([p.msg] + Messages(Contents()[p.len..])) == released + [p.msg] + Messages(Contents()[p.len..]);
      released := released + [p.msg];
      hsBuf, hasMessage := Some(Contents()[p.len..]), false;
      if !inInit && hsBuf.value == [] {
        hsBuf := None;
      }
    }

    /** tls_has_unprocessed_handshake_data: whether there is more than the message at hand. */
    method HasUnprocessedData() returns (more: bool)
      requires Valid()
      ensures more <==> if hasMessage then Contents()[ParseMessage(Contents()).len..] != [] else Contents() != []
    {
      var len := 0;
      if hasMessage {
        match ParseMessage(Contents())
        case Whole(_, n) => len := n;
        case Needs(_) =>
      }
      more := hsBuf.Some? && |hsBuf.value| > len;
    }

    /** Every message there is, taken and released. */
    method TakeAll() returns (got: seq<HsMessage>)
      requires Valid()
      modifies this
      ensures Valid() && arrived == old(arrived) && released == old(released) + got && ParseMessage(Contents()).Needs?
    {
      hide Messages, Left;
      got := [];
      while ParseMessage(Contents()).Whole?
        invariant Valid() && arrived == old(arrived) && released == old(released) + got
        decreases |Contents()|
      {
        FrameParsed(Contents());
        var m := GetMessage();
        got := got + [m.value];
        NextMessage(true);
      }
    }

    /** A reader that opens records one after the other and takes every message: in whatever way the frames
        of the messages are cut into records, it gets just these messages, and rejects none of the records. */
    method ReadAll(records: seq<seq<Byte>>, ghost ms: seq<HsMessage>, ghost rest: seq<Byte>) returns (got: seq<HsMessage>)
      requires Valid() && arrived == [] && released == [] && Contents() == []
      requires Framable(ms) && (forall m <- ms :: |m.body| <= maxLen) && Joined(records) + rest == Frames(ms)
      modifies this
      ensures got <= ms && (rest == [] ==> got == ms && Contents() == [])
    {
      assert ParseMessage([]).Needs? && Joined(records[..0]) == [];
      hide Messages, Left, ParseMessage, Frames, Joined;
      got := [];
      for k := 0 to |records|
        invariant Valid() && arrived == Joined(records[..k]) && released == got && ParseMessage(Contents()).Needs?
      {
        Splits(records, k, rest);
        NothingWhole(Contents());
        LeftIsShort(ms, arrived, Joined(records[k..]) + rest, maxLen);
        JoinedOn(records, k);
        var r := Open(records[k]);
        assert r.Opened?;
        var more := TakeAll();
        got := got + more;
      }
      assert records[..|records|] == records && got + [] == got;
      NothingWhole(Contents());
      FramesArrive(ms, arrived, rest);
    }
  }

  lemma Splits(chunks: seq<seq<Byte>>, n: nat, rest: seq<Byte>)
    requires n <= |chunks|
    ensures Joined(chunks[..n]) + (Joined(chunks[n..]) + rest) == Joined(chunks) + rest
  {
    JoinedSplit(chunks, n);
    Assoc(Joined(chunks[..n]), Joined(chunks[n..]), rest);
  }

  // ---- From the sender's split to the reader ----

  /** A max_send_fragment. */
  type Limit = max: nat | max > 0 witness 1

  /** The records of messages as ssl3_add_message splits them, each under the limit of its time. */
  function CutAll(ms: seq<HsMessage>, limits: seq<Limit>): seq<seq<Byte>>
    requires Framable(ms) && |limits| == |ms|
  {
    if ms == [] then [] else TlsWriter.Chunks(Frame(ms[0]), limits[0]) + CutAll(ms[1..], limits[1..])
  }

  lemma {:induction false} CutsAreFrames(ms: seq<HsMessage>, limits: seq<Limit>)
    requires Framable(ms) && |limits| == |ms|
    ensures Joined(CutAll(ms, limits)) == Frames(ms)
  {
    if ms != [] {
      var first, others := TlsWriter.Chunks(Frame(ms[0]), limits[0]), CutAll(ms[1..], limits[1..]);
      TlsWriter.ChunksJoin(Frame(ms[0]), limits[0]);
      CutsAreFrames(ms[1..], limits[1..]);
      JoinedSplit(first + others, |first|);
      assert (first + others)[..|first|] == first && (first + others)[|first|..] == others;
    }
  }

  /** Messages added to a flight by ssl3_add_message and read record by record are the messages read. */
  method Cross(reader: HandshakeBuffer, ms: seq<HsMessage>, limits: seq<Limit>) returns (got: seq<HsMessage>)
    requires Framable(ms) && |limits| == |ms|
    requires reader.Valid() && reader.arrived == [] && reader.released == [] && reader.Contents() == []
    requires forall m <- ms :: |m.body| <= reader.maxLen
    modifies reader
    ensures got == ms && reader.Contents() == []
  {
    CutsAreFrames(ms, limits);
    assert Joined(CutAll(ms, limits)) + [] == Frames(ms);
    got := reader.ReadAll(CutAll(ms, limits), ms, []);
  }
}
