/** The message flows of RFC 5246 section 7.3, and why each state of the two machines follows them. */
module TlsScript {
  import opened Prelude
  import opened TlsHandshake

  // ---- The flows ----

  datatype What = ChangeCipherSpec | Of(kind: Kind)

  /** One thing to be sent, and by whom. */
  datatype Entry = Entry(server: bool, what: What)

  type Flow = seq<Entry>

  /** The places of a handshake, in order. Places 10 to 16 hold the last flight of either side: the
      client's first in a full handshake, the server's first in an abbreviated one. */
  const END := 17

  function ClientLast(p: Plan): nat {
    if p.resumed then 13 else 10
  }

  function ServerLast(p: Plan): nat {
    if p.resumed then 10 else 14
  }

  function EntryAt(p: Plan, k: nat): Entry {
    if k == 0 then Entry(false, Of(ClientHello))
    else if k == 1 then Entry(true, Of(ServerHello))
    else if k == 2 then Entry(true, Of(Certificate))
    else if k == 3 then Entry(true, Of(CertificateStatus))
    else if k == 4 then Entry(true, Of(ServerKeyExchange))
    else if k == 5 then Entry(true, Of(CertificateRequest))
    else if k == 6 then Entry(true, Of(ServerHelloDone))
    else if k == 7 then Entry(false, Of(Certificate))
    else if k == 8 then Entry(false, Of(ClientKeyExchange))
    else if k == 9 then Entry(false, Of(CertificateVerify))
    else if ClientLast(p) <= k < ClientLast(p) + 4 then
      Entry(false, if k == ClientLast(p) then ChangeCipherSpec
                   else if k == ClientLast(p) + 1 then Of(NextProto)
                   else if k == ClientLast(p) + 2 then Of(ChannelId)
                   else Of(Finished))
    else
      Entry(true, if k == ServerLast(p) then Of(NewSessionTicket)
                  else if k == ServerLast(p) + 1 then ChangeCipherSpec
                  else Of(Finished))
  }

  /** Whether the handshake uses the place. */
  predicate Used(p: Plan, k: nat) {
    if k == 2 then !p.resumed && p.certAuth
    else if k == 3 then !p.resumed && p.certAuth && p.status
    else if k == 4 then !p.resumed && p.SendsKeyExchange()
    else if k == 5 || k == 7 then p.CertRequest()
    else if k == 6 || k == 8 then !p.resumed
    else if k == 9 then p.CertRequest() && p.hasCert
    else if k == ClientLast(p) + 1 then p.nextProto
    else if k == ClientLast(p) + 2 then p.UsesChannelId()
    else if k == ServerLast(p) then p.ticket
    else true
  }

  /** The flow from a place on; from place 0 it is the whole handshake. */
  function From(p: Plan, k: nat): Flow
    decreases END - k
  {
    if k >= END then []
    else if Used(p, k) then [EntryAt(p, k)] + From(p, k + 1)
    else From(p, k + 1)
  }

  lemma {:induction false} SkipUnused(p: Plan, k: nat, j: nat)
    requires k <= j <= END && forall i :: k <= i < j ==> !Used(p, i)
    ensures From(p, k) == From(p, j)
    decreases j - k
  {
    if k < j { SkipUnused(p, k + 1, j); }
  }

  /** Nothing of the flow lies between two places. */
  predicate Joins(p: Plan, k: nat, j: nat) {
    k == j || From(p, k) == From(p, j)
  }

  // ---- Where a machine stands ----

  /** What there is to know about a state: its place (all that comes from there on is still to be
      exchanged), whose it is, whether it sends, whether the hellos are behind it, so that the parameters
      are settled and the hash runs, and whether a signature may still need the handshake buffer. */
  datatype Spot = Spot(place: nat, server: bool, sends: bool, settled: bool, needsBuffer: bool)

  function At(p: Plan, s: Stage): Spot {
    match s
    case StartConnect => Spot(0, false, true, false, true)
    case EnterEarlyData => Spot(1, false, false, false, true)
    case ReadServerHello => Spot(1, false, false, false, true)
    case ReadServerCertificate => Spot(2, false, false, true, p.certAuth)
    case ReadCertificateStatus => Spot(3, false, false, true, p.certAuth)
    case VerifyServerCertificate => Spot(4, false, false, true, p.certAuth)
    case ReadServerKeyExchange => Spot(4, false, false, true, p.certAuth)
    case ReadCertificateRequest => Spot(5, false, false, true, p.certAuth)
    case ReadServerHelloDone => Spot(6, false, false, true, p.CertRequest())
    case SendClientCertificate => Spot(7, false, true, true, p.CertRequest())
    case SendClientKeyExchange => Spot(8, false, true, true, p.CertRequest() && p.hasCert)
    case SendClientCertificateVerify => Spot(9, false, true, true, p.CertRequest() && p.hasCert)
    case SendClientFinished => Spot(ClientLast(p), false, true, true, false)
    case FinishFlight => Spot(ClientLast(p) + 4, false, false, true, false)
    case ReadSessionTicket => Spot(ServerLast(p), false, false, true, false)
    case ProcessServerChangeCipherSpec => Spot(ServerLast(p) + 1, false, false, true, false)
    case ReadServerFinished => Spot(ServerLast(p) + 2, false, false, true, false)
    case FinishClientHandshake => Spot(END, false, false, true, false)
    case StartAccept => Spot(0, true, false, false, true)
    case ReadClientHello => Spot(0, true, false, false, true)
    case SelectCertificate => Spot(0, true, false, false, true)
    case SelectParameters => Spot(0, true, false, false, true)
    case SendServerHello => Spot(1, true, true, true, p.CertRequest())
    case SendServerCertificate => Spot(2, true, true, true, p.CertRequest())
    case SendServerKeyExchange => Spot(4, true, true, true, p.CertRequest())
    case SendServerHelloDone => Spot(5, true, true, true, p.CertRequest())
    case ReadClientCertificate => Spot(7, true, false, true, p.CertRequest())
    case VerifyClientCertificate => Spot(8, true, false, true, p.CertRequest() && p.hasCert)
    case ReadClientKeyExchange => Spot(8, true, false, true, p.CertRequest() && p.hasCert)
    case ReadClientCertificateVerify => Spot(9, true, false, true, p.CertRequest() && p.hasCert)
    case ReadChangeCipherSpec => Spot(ClientLast(p), true, false, true, false)
    case ProcessClientChangeCipherSpec => Spot(ClientLast(p), true, false, true, false)
    case ReadNextProto => Spot(ClientLast(p) + 1, true, false, true, false)
    case ReadChannelId => Spot(ClientLast(p) + 2, true, false, true, false)
    case ReadClientFinished => Spot(ClientLast(p) + 3, true, false, true, false)
    case SendServerFinished => Spot(ServerLast(p), true, true, true, false)
    case FinishServerHandshake => Spot(END, true, false, true, false)
    case Done => Spot(END, false, false, true, false)
  }

  predicate IsProcess(s: Stage) {
    s.ProcessServerChangeCipherSpec? || s.ProcessClientChangeCipherSpec?
  }

  /** The place of a machine: past the ChangeCipherSpec once that is in. */
  function Place(p: Plan, h: Hs): nat {
    At(p, h.stage).place + if IsProcess(h.stage) && !h.wait.NeedCcs? then 1 else 0
  }

  function Rest(p: Plan, h: Hs): Flow {
    From(p, Place(p, h))
  }

  // ---- What a machine knows ----

  predicate KnowsPlan(p: Plan, h: Hs, spot: Spot) {
    && (spot.settled ==>
          h.neg == p.Outcome().(channelId := if h.stage.SendServerHello? then p.channelIdOffered else p.UsesChannelId()))
    && (2 <= spot.place < 10 ==> !p.resumed)
    && h.certRequest == ((if h.server then spot.settled else spot.place >= 6) && p.CertRequest())
    && h.peerKey == (h.server && spot.place >= 8 && p.CertRequest() && p.hasCert)
    && (h.stage.SendServerKeyExchange? ==> h.serverParams == p.SendsKeyExchange())
  }

  predicate TranscriptOk(t: Transcript, spot: Spot) {
    && (t.hash.Some? <==> spot.settled)
    && (spot.needsBuffer ==> t.buffer.Some?)
    && (t.buffer.Some? && t.hash.Some? ==> t.buffer == t.hash)
  }

  predicate WaitOk(h: Hs, spot: Spot) {
    && (h.wait.Error? ==> h.wait.why.Refused?)
    && (h.wait.NeedCcs? ==> IsProcess(h.stage))
    && (IsProcess(h.stage) ==> h.wait.NeedCcs? || h.wait.Ok?)
    && (!spot.sends ==> h.flight == [] || h.wait.Flush?)
    && (h.wait.Flush? || h.wait.NeedMessage? || h.wait.NeedServerHello? ==> !spot.sends)
    && (h.stage.Done? ==> h.wait.Ok?)
  }

  /** A side of a handshake that goes by the plan. */
  predicate SideOk(p: Plan, h: Hs) {
    var spot := At(p, h.stage);
    && (h.stage.Done? || h.server == spot.server)
    && KnowsPlan(p, h, spot) && TranscriptOk(h.transcript, spot) && WaitOk(h, spot)
  }

  /** All messages of the handshake so far, as this side has them. */
  function Log(h: Hs): seq<Message> {
    if h.transcript.hash.Some? then h.transcript.hash.value
    else if h.transcript.buffer.Some? then h.transcript.buffer.value
    else []
  }

  // ---- Steps ----

  function WhatIs(c: Content): What {
    match c
    case Hand(m) => Of(m.kind)
    case Ccs => ChangeCipherSpec
  }

  function Entries(server: bool, cs: seq<Content>): Flow {
    if cs == [] then [] else [Entry(server, WhatIs(cs[0]))] + Entries(server, cs[1..])
  }

  function Messages(cs: seq<Content>): seq<Message> {
    if cs == [] then [] else (if cs[0].Hand? then [cs[0].msg] else []) + Messages(cs[1..])
  }

  function Contents(items: seq<Item>): seq<Content> {
    if items == [] then [] else [items[0].content] + Contents(items[1..])
  }

  function Hands(ms: seq<Message>): seq<Content> {
    if ms == [] then [] else [Hand(ms[0])] + Hands(ms[1..])
  }

  /** A message as an honest sender writes it after that log. */
  predicate Honest(p: Plan, server: bool, log: seq<Message>, m: Message) {
    match m.kind
    case ServerHello => m.body == Hello(p.Outcome())
    case Certificate => m.body.Text? && (m.body.n > 0 <==> (server || p.hasCert))
    case CertificateVerify => m.body == Signature(log)
    case ChannelId => m.body == Signature(log)
    case Finished => m.body == Mac(server, log)
    case _ => true
  }

  predicate AllHonest(p: Plan, server: bool, log: seq<Message>, cs: seq<Content>)
    decreases |cs|
  {
    if cs == [] then true
    else if cs[0].Ccs? then AllHonest(p, server, log, cs[1..])
    else Honest(p, server, log, cs[0].msg) && AllHonest(p, server, log + [cs[0].msg], cs[1..])
  }

  /** Records sealed under the keys they will be opened with: the epoch moves on with each ChangeCipherSpec. */
  predicate Epochs(items: seq<Item>, from: nat, to: nat)
    decreases |items|
  {
    if items == [] then from == to
    else items[0].epoch == from && Epochs(items[1..], if items[0].content.Ccs? then from + 1 else from, to)
  }

  /** The epoch of the next record to be read: one more when the ChangeCipherSpec is in but not acted on. */
  function NextEpoch(h: Hs): nat {
    if IsProcess(h.stage) && h.wait.Ok? then h.readEpoch + 1 else h.readEpoch
  }

  /** The message at hand, if any, is the one the flow has next, and honest. */
  predicate Expected(p: Plan, h: Hs) {
    h.inbox != [] ==>
      && Rest(p, h) != [] && Rest(p, h)[0] == Entry(!h.server, Of(h.inbox[0].kind))
      && Honest(p, !h.server, Log(h), h.inbox[0])
  }

  /** A step, without what it left behind if it failed. */
  function Clean(h: Hs, h1: Hs): Hs {
    if h1.wait.Error? then Fail(h, h1.wait.why) else h1
  }

  /** How a step moves one side along the flow: it reads at most one message, or sends some. */
  predicate Moves(p: Plan, h: Hs, h1: Hs, got: seq<Message>, sent: seq<Item>, rest: Flow, rest1: Flow) {
    && h1.server == h.server && h.inbox == got + h1.inbox && h1.flight == h.flight + sent
    && (got == [] || sent == []) && |got| <= 1
    && rest == Entries(!h.server, Hands(got)) + Entries(h.server, Contents(sent)) + rest1
    && Log(h1) == Log(h) + got + Messages(Contents(sent))
    && AllHonest(p, h.server, Log(h), Contents(sent))
    && Epochs(sent, h.writeEpoch, h1.writeEpoch)
    && NextEpoch(h1) == NextEpoch(h)
  }

  /** A side waits for a message only when it has none, and when one of the peer's comes next. */
  predicate WaitsWell(p: Plan, h: Hs) {
    h.wait.NeedMessage? || h.wait.NeedServerHello? ==>
      h.inbox == [] && Rest(p, h) != [] && Rest(p, h)[0].what.Of? && Rest(p, h)[0].server != h.server
  }

  /** A side right after a step: a state that processes a ChangeCipherSpec has not got it yet. */
  predicate Lands(p: Plan, h: Hs) {
    SideOk(p, h) && WaitsWell(p, h) && (IsProcess(h.stage) ==> h.wait.NeedCcs?)
  }

  predicate Follows(p: Plan, h: Hs, h1: Hs, got: seq<Message>, sent: seq<Item>) {
    Lands(p, h1) && Moves(p, h, h1, got, sent, Rest(p, h), Rest(p, h1))
  }

  ghost predicate Advances(p: Plan, h: Hs, h1: Hs) {
    exists got, sent :: Follows(p, h, h1, got, sent)
  }

  // ---- Ways to advance ----

  /** Nothing read, nothing sent. */
  predicate Stays(p: Plan, h: Hs, h1: Hs) {
    && Lands(p, h1) && h1.server == h.server && h1.inbox == h.inbox && h1.flight == h.flight
    && Joins(p, Place(p, h), Place(p, h1)) && Log(h1) == Log(h)
    && h1.writeEpoch == h.writeEpoch && NextEpoch(h1) == NextEpoch(h)
  }

  /** One message read. */
  predicate Reads(p: Plan, h: Hs, h1: Hs) {
    && Lands(p, h1) && h1.server == h.server && h.inbox != [] && h1.inbox == h.inbox[1..] && h1.flight == h.flight
    && Rest(p, h) == [Entry(!h.server, Of(h.inbox[0].kind))] + Rest(p, h1)
    && Log(h1) == Log(h) + [h.inbox[0]]
    && h1.writeEpoch == h.writeEpoch && NextEpoch(h1) == NextEpoch(h)
  }

  /** One message sent. */
  predicate Writes(p: Plan, h: Hs, h1: Hs, m: Message) {
    && Lands(p, h1) && h1.server == h.server && h1.inbox == h.inbox
    && h1.flight == h.flight + [Item(h.writeEpoch, Hand(m))]
    && Rest(p, h) == [Entry(h.server, Of(m.kind))] + Rest(p, h1)
    && Log(h1) == Log(h) + [m] && Honest(p, h.server, Log(h), m)
    && h1.writeEpoch == h.writeEpoch && NextEpoch(h1) == NextEpoch(h)
  }

  /** A state that waits for a callback, or that was refused, stays where it is. */
  lemma Pauses(p: Plan, h: Hs, h1: Hs)
    requires SideOk(p, h) && h.wait.Ok? && !IsProcess(h.stage) && !h.stage.Done?
    requires h1 == Await(h, h1.wait) && (h1.wait == Error(Refused) || h1.wait.Pending?)
    ensures Advances(p, h, h1)
  {
    WaitIsOk(p, h, h1);
    StaysAdvances(p, h, h1);
  }

  /** A state that waits for the message of place k, the next one in use. */
  lemma Awaits(p: Plan, h: Hs, h1: Hs, k: nat)
    requires SideOk(p, h) && h.wait.Ok? && !IsProcess(h.stage) && !h.stage.Done? && !At(p, h.stage).sends
    requires h1 == Await(h, h1.wait) && (h1.wait.NeedMessage? || h1.wait.NeedServerHello?) && h.inbox == []
    requires Place(p, h) <= k < END && Used(p, k) && EntryAt(p, k).what.Of? && EntryAt(p, k).server != h.server
    requires forall i :: Place(p, h) <= i < k ==> !Used(p, i)
    ensures Advances(p, h, h1)
  {
    WaitIsOk(p, h, h1);
    SkipUnused(p, Place(p, h), k);
    FromUsed(p, k);
    StaysAdvances(p, h, h1);
  }

  lemma WaitIsOk(p: Plan, h: Hs, h1: Hs)
    requires SideOk(p, h) && h.wait.Ok? && !IsProcess(h.stage) && !h.stage.Done?
    requires h1 == Await(h, h1.wait)
    requires h1.wait == Error(Refused) || h1.wait.Pending? || ((h1.wait.NeedMessage? || h1.wait.NeedServerHello?) && !At(p, h.stage).sends)
    ensures SideOk(p, h1) && Place(p, h1) == Place(p, h)
  {}

  /** The message at hand is the one of the place. */
  lemma KindIs(p: Plan, h: Hs, k: nat, kind: Kind)
    requires Place(p, h) == k < END && Used(p, k) && Expected(p, h) && h.inbox != []
    requires EntryAt(p, k) == Entry(!h.server, Of(kind))
    ensures h.inbox[0].kind == kind && Honest(p, !h.server, Log(h), h.inbox[0])
  {
    FromUsed(p, k);
  }

  /** The message at hand is the one of the next place in use. */
  lemma KindAfter(p: Plan, h: Hs, k: nat, kind: Kind)
    requires Place(p, h) <= k < END && Used(p, k) && Expected(p, h) && h.inbox != []
    requires forall i :: Place(p, h) <= i < k ==> !Used(p, i)
    requires EntryAt(p, k) == Entry(!h.server, Of(kind))
    ensures h.inbox[0].kind == kind && Honest(p, !h.server, Log(h), h.inbox[0])
  {
    SkipUnused(p, Place(p, h), k);
    FromUsed(p, k);
  }

  lemma TookAdvances(p: Plan, h: Hs, h1: Hs, k: nat)
    requires Place(p, h) == k < END && Used(p, k) && Expected(p, h) && h.inbox != []
    requires Lands(p, h1) && Joins(p, k + 1, Place(p, h1))
    requires h1.server == h.server && h1.inbox == h.inbox[1..] && h1.flight == h.flight
    requires Log(h1) == Log(h) + [h.inbox[0]] && h1.writeEpoch == h.writeEpoch && NextEpoch(h1) == NextEpoch(h)
    ensures Advances(p, h, h1)
  {
    FromUsed(p, k);
    ReadsAdvances(p, h, h1);
  }

  lemma StaysMoves(p: Plan, h: Hs, h1: Hs, rest: Flow)
    requires h1.server == h.server && h1.inbox == h.inbox && h1.flight == h.flight && Log(h1) == Log(h)
    requires h1.writeEpoch == h.writeEpoch && NextEpoch(h1) == NextEpoch(h)
    ensures Moves(p, h, h1, [], [], rest, rest)
  {
    assert [] + h1.inbox == h.inbox && h.flight + [] == h.flight;
    assert [] + [] + rest == rest && Log(h) + [] + [] == Log(h);
  }

  lemma StaysAdvances(p: Plan, h: Hs, h1: Hs)
    requires Stays(p, h, h1)
    ensures Advances(p, h, h1)
  {
    StaysMoves(p, h, h1, Rest(p, h));
    assert Follows(p, h, h1, [], []);
  }

  lemma ReadsMoves(p: Plan, h: Hs, h1: Hs, rest: Flow)
    requires h.inbox != [] && h1.server == h.server && h1.inbox == h.inbox[1..] && h1.flight == h.flight
    requires Log(h1) == Log(h) + [h.inbox[0]] && h1.writeEpoch == h.writeEpoch && NextEpoch(h1) == NextEpoch(h)
    ensures Moves(p, h, h1, [h.inbox[0]], [], [Entry(!h.server, Of(h.inbox[0].kind))] + rest, rest)
  {
    var got := [h.inbox[0]];
    assert got + h1.inbox == h.inbox && h.flight + [] == h.flight;
    assert Hands(got) == [Hand(h.inbox[0])];
    assert Entries(!h.server, Hands(got)) == [Entry(!h.server, Of(h.inbox[0].kind))];
    assert Entries(!h.server, Hands(got)) + [] + rest == [Entry(!h.server, Of(h.inbox[0].kind))] + rest;
    assert Log(h) + got + [] == Log(h) + got;
  }

  lemma ReadsAdvances(p: Plan, h: Hs, h1: Hs)
    requires Reads(p, h, h1)
    ensures Advances(p, h, h1)
  {
    ReadsMoves(p, h, h1, Rest(p, h1));
    assert Follows(p, h, h1, [h.inbox[0]], []);
  }

  lemma WritesMoves(p: Plan, h: Hs, h1: Hs, sent: seq<Item>, rest: Flow)
    requires h1.server == h.server && h1.inbox == h.inbox && h1.flight == h.flight + sent
    requires Log(h1) == Log(h) + Messages(Contents(sent)) && AllHonest(p, h.server, Log(h), Contents(sent))
    requires Epochs(sent, h.writeEpoch, h1.writeEpoch) && NextEpoch(h1) == NextEpoch(h)
    ensures Moves(p, h, h1, [], sent, Entries(h.server, Contents(sent)) + rest, rest)
  {
    assert [] + h1.inbox == h.inbox;
    assert [] + Entries(h.server, Contents(sent)) + rest == Entries(h.server, Contents(sent)) + rest;
    assert Log(h) + [] + Messages(Contents(sent)) == Log(h) + Messages(Contents(sent));
  }

  /** Any number of messages and ChangeCipherSpecs sent. */
  lemma WritesMany(p: Plan, h: Hs, h1: Hs, sent: seq<Item>)
    requires Lands(p, h1) && h1.server == h.server && h1.inbox == h.inbox && h1.flight == h.flight + sent
    requires Rest(p, h) == Entries(h.server, Contents(sent)) + Rest(p, h1)
    requires Log(h1) == Log(h) + Messages(Contents(sent)) && AllHonest(p, h.server, Log(h), Contents(sent))
    requires Epochs(sent, h.writeEpoch, h1.writeEpoch) && NextEpoch(h1) == NextEpoch(h)
    ensures Advances(p, h, h1)
  {
    WritesMoves(p, h, h1, sent, Rest(p, h1));
    assert Follows(p, h, h1, [], sent);
  }

  lemma WritesAdvances(p: Plan, h: Hs, h1: Hs, m: Message)
    requires Writes(p, h, h1, m)
    ensures Advances(p, h, h1)
  {
    var item := Item(h.writeEpoch, Hand(m));
    OneItem(p, h.server, Log(h), item, m);
    WritesMany(p, h, h1, [item]);
  }

  lemma OneItem(p: Plan, server: bool, log: seq<Message>, item: Item, m: Message)
    requires item.content == Hand(m) && Honest(p, server, log, m)
    ensures Contents([item]) == [Hand(m)] && Messages([Hand(m)]) == [m]
    ensures Entries(server, [Hand(m)]) == [Entry(server, Of(m.kind))]
    ensures AllHonest(p, server, log, [Hand(m)]) && Epochs([item], item.epoch, item.epoch)
  {}

  lemma {:induction false} ContentsAppend(items: seq<Item>, i: Item)
    ensures Contents(items + [i]) == Contents(items) + [i.content]
  {
    if items != [] {
      assert (items + [i])[1..] == items[1..] + [i];
      ContentsAppend(items[1..], i);
    }
  }

  lemma {:induction false} EntriesAppend(server: bool, cs: seq<Content>, ds: seq<Content>)
    ensures Entries(server, cs + ds) == Entries(server, cs) + Entries(server, ds)
  {
    if cs == [] {
      assert cs + ds == ds;
    } else {
      assert (cs + ds)[1..] == cs[1..] + ds;
      EntriesAppend(server, cs[1..], ds);
    }
  }

  lemma {:induction false} MessagesAppend(cs: seq<Content>, ds: seq<Content>)
    ensures Messages(cs + ds) == Messages(cs) + Messages(ds)
  {
    if cs == [] {
      assert cs + ds == ds;
    } else {
      var first := if cs[0].Hand? then [cs[0].msg] else [];
      assert (cs + ds)[1..] == cs[1..] + ds;
      MessagesAppend(cs[1..], ds);
      assert first + (Messages(cs[1..]) + Messages(ds)) == first + Messages(cs[1..]) + Messages(ds);
    }
  }

  lemma {:induction false} HonestAppend(p: Plan, server: bool, log: seq<Message>, cs: seq<Content>, ds: seq<Content>)
    ensures AllHonest(p, server, log, cs + ds)
       <==> AllHonest(p, server, log, cs) && AllHonest(p, server, log + Messages(cs), ds)
    decreases |cs|
  {
    if cs == [] {
      assert cs + ds == ds && log + [] == log;
    } else {
      assert (cs + ds)[1..] == cs[1..] + ds;
      var log1 := if cs[0].Hand? then log + [cs[0].msg] else log;
      assert log1 + Messages(cs[1..]) == log + Messages(cs);
      HonestAppend(p, server, log1, cs[1..], ds);
    }
  }

  lemma {:induction false} EpochsAppend(items: seq<Item>, more: seq<Item>, from: nat, mid: nat, to: nat)
    requires Epochs(items, from, mid) && Epochs(more, mid, to)
    ensures Epochs(items + more, from, to)
    decreases |items|
  {
    if items == [] {
      assert items + more == more;
    } else {
      assert (items + more)[1..] == items[1..] + more;
      EpochsAppend(items[1..], more, if items[0].content.Ccs? then from + 1 else from, mid, to);
    }
  }

  /** The flow from place k up to place j, as contents sent by one side. */
  predicate Covers(p: Plan, server: bool, log: seq<Message>, cs: seq<Content>, k: nat, j: nat) {
    From(p, k) == Entries(server, cs) + From(p, j) && AllHonest(p, server, log, cs)
  }

  lemma FromUsed(p: Plan, j: nat)
    requires j < END && Used(p, j)
    ensures From(p, j) == [EntryAt(p, j)] + From(p, j + 1)
  {}

  lemma EntriesMore(server: bool, cs: seq<Content>, c: Content, flow: Flow, tail: Flow, rest: Flow)
    requires flow == Entries(server, cs) + tail && tail == [Entry(server, WhatIs(c))] + rest
    ensures flow == Entries(server, cs + [c]) + rest
  {
    EntriesAppend(server, cs, [c]);
    assert Entries(server, [c]) == [Entry(server, WhatIs(c))];
  }

  lemma CoversMore(p: Plan, server: bool, log: seq<Message>, cs: seq<Content>, c: Content, k: nat, j: nat)
    requires Covers(p, server, log, cs, k, j) && j < END && Used(p, j) && EntryAt(p, j) == Entry(server, WhatIs(c))
    requires c.Hand? ==> Honest(p, server, log + Messages(cs), c.msg)
    ensures Covers(p, server, log, cs + [c], k, j + 1)
  {
    HonestAppend(p, server, log, cs, [c]);
    FromUsed(p, j);
    EntriesMore(server, cs, c, From(p, k), From(p, j), From(p, j + 1));
  }

  /** Records put into the flight so far in a step. */
  predicate Sending(h: Hs, h1: Hs, sent: seq<Item>) {
    && h1 == h.(flight := h.flight + sent, transcript := h1.transcript, writeEpoch := h1.writeEpoch)
    && h1.transcript.hash.Some? && h.transcript.hash.Some? && h1.transcript.buffer.Some? == h.transcript.buffer.Some?
    && (h.transcript.buffer == h.transcript.hash ==> h1.transcript.buffer == h1.transcript.hash)
    && Log(h1) == Log(h) + Messages(Contents(sent))
    && Epochs(sent, h.writeEpoch, h1.writeEpoch)
  }

  lemma SendingMessage(h: Hs, h1: Hs, sent: seq<Item>, m: Message)
    requires Sending(h, h1, sent)
    ensures Sending(h, Put(h1, m), sent + [Item(h1.writeEpoch, Hand(m))])
  {
    var item := Item(h1.writeEpoch, Hand(m));
    ContentsAppend(sent, item);
    MessagesAppend(Contents(sent), [Hand(m)]);
    EpochsAppend(sent, [item], h.writeEpoch, h1.writeEpoch, h1.writeEpoch);
    assert Messages([Hand(m)]) == [m];
    assert Log(h) + Messages(Contents(sent)) + [m] == Log(h) + (Messages(Contents(sent)) + [m]);
    assert h.flight + sent + [item] == h.flight + (sent + [item]);
  }

  lemma SendingCcs(h: Hs, h1: Hs, sent: seq<Item>)
    requires Sending(h, h1, sent)
    ensures Sending(h, PutCcs(h1), sent + [Item(h1.writeEpoch, Ccs)])
  {
    var item := Item(h1.writeEpoch, Ccs);
    ContentsAppend(sent, item);
    MessagesAppend(Contents(sent), [Ccs]);
    EpochsAppend(sent, [item], h.writeEpoch, h1.writeEpoch, h1.writeEpoch + 1);
    assert Messages([Ccs]) == [] && Messages(Contents(sent)) + [] == Messages(Contents(sent));
    assert h.flight + sent + [item] == h.flight + (sent + [item]);
  }

  // ---- Moves to a next state ----

  /** Entering the next state needs no news about the plan. */
  predicate MayEnter(p: Plan, s: Stage, next: Stage) {
    var here, there := At(p, s), At(p, next);
    && here.place <= there.place && here.settled && there.settled && here.server == there.server
    && !s.Done? && !next.Done? && !IsProcess(s) && !IsProcess(next)
    && !s.SendServerHello? && !next.SendServerHello? && !next.SendServerKeyExchange?
    && (here.sends ==> there.sends) && (there.needsBuffer ==> here.needsBuffer)
    && 2 <= here.place
    && (!here.server ==> here.place >= 6 || there.place < 6 || !p.CertRequest())
    && (here.server ==> here.place >= 8 || there.place < 8 || !(p.CertRequest() && p.hasCert))
  }

  /** A state before the hellos are done goes on to the next at the same place. */
  lemma EnterSame(p: Plan, h: Hs, h1: Hs, next: Stage)
    requires SideOk(p, h) && h.wait.Ok? && !h.stage.Done? && !IsProcess(h.stage) && !h.stage.SendServerKeyExchange?
    requires At(p, next) == At(p, h.stage) && !At(p, next).settled
    requires !IsProcess(next) && !next.Done? && h1 == Enter(h, next)
    ensures Advances(p, h, h1)
  {
    assert SideOk(p, h1);
    StaysAdvances(p, h, h1);
  }

  /** The transcript goes on, with or without its buffer. */
  predicate Kept(p: Plan, t: Transcript, t1: Transcript, next: Stage) {
    t1.hash == t.hash && (t1.buffer == t.buffer || (t1.buffer.None? && !At(p, next).needsBuffer))
  }

  lemma EnterFollows(p: Plan, h: Hs, h1: Hs, next: Stage)
    requires SideOk(p, h) && h.wait.Ok? && MayEnter(p, h.stage, next)
    requires Joins(p, At(p, h.stage).place, At(p, next).place)
    requires h1 == h.(stage := next, transcript := h1.transcript, serverParams := h1.serverParams) && Kept(p, h.transcript, h1.transcript, next)
    ensures Advances(p, h, h1)
  {
    assert SideOk(p, h1);
    StaysAdvances(p, h, h1);
  }

  lemma TookFollows(p: Plan, h: Hs, h1: Hs, next: Stage, k: nat)
    requires SideOk(p, h) && h.wait.Ok? && Expected(p, h) && h.inbox != [] && MayEnter(p, h.stage, next) && !At(p, h.stage).sends
    requires Place(p, h) == k < END && Used(p, k) && Joins(p, k + 1, At(p, next).place)
    requires h1 == h.(stage := next, inbox := h.inbox[1..], transcript := h1.transcript)
    requires Kept(p, h.transcript.Update(h.inbox[0]), h1.transcript, next)
    ensures Advances(p, h, h1)
  {
    assert SideOk(p, h1);
    TookAdvances(p, h, h1, k);
  }

  lemma PutFollows(p: Plan, h: Hs, h1: Hs, next: Stage, k: nat, m: Message)
    requires SideOk(p, h) && h.wait.Ok? && MayEnter(p, h.stage, next) && At(p, h.stage).sends
    requires Place(p, h) == k < END && Used(p, k) && Joins(p, k + 1, At(p, next).place)
    requires EntryAt(p, k) == Entry(h.server, Of(m.kind)) && Honest(p, h.server, Log(h), m)
    requires h1 == h.(stage := next, flight := h.flight + [Item(h.writeEpoch, Hand(m))], transcript := h1.transcript,
                      serverParams := h1.serverParams)
    requires Kept(p, h.transcript.Update(m), h1.transcript, next)
    ensures Advances(p, h, h1)
  {
    assert SideOk(p, h1);
    FromUsed(p, k);
    WritesAdvances(p, h, h1, m);
  }

  /** Taking the message of place k, into a state known to be right. */
  lemma TakesTo(p: Plan, h: Hs, h1: Hs, next: Stage, k: nat)
    requires SideOk(p, h1) && h1.stage == next && (if IsProcess(next) then h1.wait.NeedCcs? else h1.wait.Ok?)
    requires Place(p, h) == k < END && Used(p, k) && Expected(p, h) && h.inbox != [] && Joins(p, k + 1, At(p, next).place)
    requires !IsProcess(h.stage) && h1.server == h.server && h1.inbox == h.inbox[1..] && h1.flight == h.flight
    requires Log(h1) == Log(h) + [h.inbox[0]] && h1.writeEpoch == h.writeEpoch && h1.readEpoch == h.readEpoch
    ensures Advances(p, h, h1)
  {
    TookAdvances(p, h, h1, k);
  }

  /** Records in the flight for the places from k up to j. */
  ghost predicate Building(p: Plan, h: Hs, h1: Hs, k: nat, j: nat) {
    exists sent :: Sending(h, h1, sent) && Covers(p, h.server, Log(h), Contents(sent), k, j)
  }

  lemma BuildStart(p: Plan, h: Hs, k: nat)
    requires h.transcript.hash.Some?
    ensures Building(p, h, h, k, k)
  {
    assert h.flight + [] == h.flight && Log(h) + [] == Log(h) && [] + From(p, k) == From(p, k);
    assert Sending(h, h, []) && Covers(p, h.server, Log(h), Contents([]), k, k);
  }

  lemma BuildMessage(p: Plan, h: Hs, h1: Hs, k: nat, j: nat, m: Message)
    requires Building(p, h, h1, k, j) && j < END && Used(p, j)
    requires EntryAt(p, j) == Entry(h.server, Of(m.kind)) && Honest(p, h.server, Log(h1), m)
    ensures Building(p, h, Put(h1, m), k, j + 1)
  {
    var sent :| Sending(h, h1, sent) && Covers(p, h.server, Log(h), Contents(sent), k, j);
    var item := Item(h1.writeEpoch, Hand(m));
    SendingMessage(h, h1, sent, m);
    CoversMore(p, h.server, Log(h), Contents(sent), Hand(m), k, j);
    ContentsAppend(sent, item);
    assert Sending(h, Put(h1, m), sent + [item]) && Covers(p, h.server, Log(h), Contents(sent + [item]), k, j + 1);
  }

  lemma BuildCcs(p: Plan, h: Hs, h1: Hs, k: nat, j: nat)
    requires Building(p, h, h1, k, j) && j < END && Used(p, j) && EntryAt(p, j) == Entry(h.server, ChangeCipherSpec)
    ensures Building(p, h, PutCcs(h1), k, j + 1)
  {
    var sent :| Sending(h, h1, sent) && Covers(p, h.server, Log(h), Contents(sent), k, j);
    var item := Item(h1.writeEpoch, Ccs);
    SendingCcs(h, h1, sent);
    CoversMore(p, h.server, Log(h), Contents(sent), Ccs, k, j);
    ContentsAppend(sent, item);
    assert Sending(h, PutCcs(h1), sent + [item]) && Covers(p, h.server, Log(h), Contents(sent + [item]), k, j + 1);
  }

  lemma BuildIf(p: Plan, h: Hs, h1: Hs, k: nat, j: nat, b: bool, m: Message)
    requires Building(p, h, h1, k, j) && j < END && b == Used(p, j)
    requires b ==> EntryAt(p, j) == Entry(h.server, Of(m.kind)) && Honest(p, h.server, Log(h1), m)
    ensures Building(p, h, PutIf(b, h1, m), k, j + 1)
  {
    if b {
      BuildMessage(p, h, h1, k, j, m);
    } else {
      var sent :| Sending(h, h1, sent) && Covers(p, h.server, Log(h), Contents(sent), k, j);
      assert Covers(p, h.server, Log(h), Contents(sent), k, j + 1);
    }
  }

  /** Several records sent, from place k up to place j. */
  lemma SendsAll(p: Plan, h: Hs, h1: Hs, h2: Hs, k: nat, j: nat)
    requires Building(p, h, h1, k, j) && Place(p, h) == k && Joins(p, j, Place(p, h2))
    requires Lands(p, h2) && h2.server == h.server && h2.inbox == h1.inbox && h2.flight == h1.flight
    requires h2.writeEpoch == h1.writeEpoch && Log(h2) == Log(h1) && NextEpoch(h2) == NextEpoch(h)
    ensures Advances(p, h, h2)
  {
    var sent :| Sending(h, h1, sent) && Covers(p, h.server, Log(h), Contents(sent), k, j);
    SendsThese(p, h, h1, h2, sent, k, j);
  }

  /** Sending all that, into a state known to be right. */
  lemma SendsTo(p: Plan, h: Hs, h1: Hs, h2: Hs, next: Stage, k: nat, j: nat)
    requires Building(p, h, h1, k, j) && SideOk(p, h2) && Place(p, h) == k && Joins(p, j, At(p, next).place)
    requires !IsProcess(h.stage) && !IsProcess(next) && (h2.wait.Ok? || h2.wait.Flush?)
    requires h2 == h1.(stage := next, wait := h2.wait, serverParams := h2.serverParams)
    ensures Advances(p, h, h2)
  {
    var sent :| Sending(h, h1, sent) && Covers(p, h.server, Log(h), Contents(sent), k, j);
    SendsAll(p, h, h1, h2, k, j);
  }

  lemma SendsThese(p: Plan, h: Hs, h1: Hs, h2: Hs, sent: seq<Item>, k: nat, j: nat)
    requires Sending(h, h1, sent) && Covers(p, h.server, Log(h), Contents(sent), k, j)
    requires Place(p, h) == k && Joins(p, j, Place(p, h2))
    requires Lands(p, h2) && h2.server == h.server && h2.inbox == h1.inbox && h2.flight == h1.flight
    requires h2.writeEpoch == h1.writeEpoch && Log(h2) == Log(h1) && NextEpoch(h2) == NextEpoch(h)
    ensures Advances(p, h, h2)
  {
    WritesMany(p, h, h2, sent);
  }
}
