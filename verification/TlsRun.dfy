/** A client and a server over a reliable connection: no run of the two leaves the flow. */
module TlsRun {
  import opened Prelude
  import opened TlsHandshake
  import opened TlsScript
  import opened TlsFollows
  import opened TlsFailures
  import R = TlsRetry

  // ---- Every state advances ----

  lemma ServerStage(p: Plan, s: Stage)
    requires At(p, s).server
    ensures R.IsServer(s)
  {
    hide ServerLast, ClientLast;
  }

  lemma ClientStage(p: Plan, s: Stage)
    requires !At(p, s).server && !s.Done?
    ensures R.IsClient(s)
  {
    hide ServerLast, ClientLast;
  }

  lemma StageIsOwn(p: Plan, h: Hs)
    requires SideOk(p, h) && !h.stage.Done?
    ensures if h.server then R.IsServer(h.stage) else R.IsClient(h.stage)
  {
    hide KnowsPlan, TranscriptOk, WaitOk, R.IsServer, R.IsClient, At;
    if h.server { ServerStage(p, h.stage); } else { ClientStage(p, h.stage); }
  }

  lemma ClientAdvances(p: Plan, h: Hs, h1: Hs, answer: Answer, n: nat)
    requires SideOk(p, h) && !h.server && h.wait.Ok? && !h.stage.Done? && Expected(p, h)
    requires IsProcess(h.stage) ==> h.inbox == []
    requires h1 == Clean(h, ClientDo(h, p.hasCert, answer, n))
    ensures Advances(p, h, h1)
  {
    hide SideOk, Advances, Expected, ReadOne, GetFinished, DoStartConnect, DoReadServerHello,
         DoReadServerCertificate, DoReadCertificateStatus, DoVerifyServerCertificate, DoReadServerKeyExchange, DoReadCertificateRequest,
         DoSendClientCertificate, DoSendClientKeyExchange, DoSendClientCertificateVerify, DoSendClientFinished, DoReadSessionTicket;
    StageIsOwn(p, h);
    match h.stage
    case StartConnect => StartConnectAdvances(p, h, h1, answer, n);
    case EnterEarlyData => EnterEarlyDataAdvances(p, h, h1);
    case ReadServerHello => ReadServerHelloAdvances(p, h, h1, answer);
    case ReadServerCertificate => ReadServerCertificateAdvances(p, h, h1, answer);
    case ReadCertificateStatus => ReadCertificateStatusAdvances(p, h, h1, answer);
    case VerifyServerCertificate => VerifyServerCertificateAdvances(p, h, h1, answer);
    case ReadServerKeyExchange => ReadServerKeyExchangeAdvances(p, h, h1, answer);
    case ReadCertificateRequest => ReadCertificateRequestAdvances(p, h, h1, answer);
    case ReadServerHelloDone => ReadServerHelloDoneAdvances(p, h, h1, answer);
    case SendClientCertificate => SendClientCertificateAdvances(p, h, h1, answer, n);
    case SendClientKeyExchange => SendClientKeyExchangeAdvances(p, h, h1, answer, n);
    case SendClientCertificateVerify => SendClientCertificateVerifyAdvances(p, h, h1, answer);
    case SendClientFinished => SendClientFinishedAdvances(p, h, h1, answer, n);
    case FinishFlight => FinishFlightAdvances(p, h, h1);
    case ReadSessionTicket => ReadSessionTicketAdvances(p, h, h1, answer);
    case ProcessServerChangeCipherSpec => ProcessServerChangeCipherSpecAdvances(p, h, h1);
    case ReadServerFinished => ReadServerFinishedAdvances(p, h, h1);
    case FinishClientHandshake => FinishClientHandshakeAdvances(p, h, h1);
  }

  lemma ServerAdvances(p: Plan, h: Hs, h1: Hs, answer: Answer, n: nat)
    requires SideOk(p, h) && h.server && h.wait.Ok? && !h.stage.Done? && Expected(p, h)
    requires IsProcess(h.stage) ==> h.inbox == []
    requires h1 == Clean(h, ServerDo(h, p, answer, n))
    ensures Advances(p, h, h1)
  {
    hide SideOk, Advances, Expected, GetFinished, DoReadClientHello, DoSelectCertificate,
         DoSelectParameters, DoSendServerHello, DoSendServerCertificate, DoSendServerKeyExchange, DoSendServerHelloDone,
         DoReadClientCertificate, DoVerifyClientCertificate, DoReadClientKeyExchange, DoReadClientCertificateVerify, DoReadNextProto,
         DoReadChannelId, DoSendServerFinished;
    StageIsOwn(p, h);
    match h.stage
    case StartAccept => StartAcceptAdvances(p, h, h1);
    case ReadClientHello => ReadClientHelloAdvances(p, h, h1, answer);
    case SelectCertificate => SelectCertificateAdvances(p, h, h1, answer);
    case SelectParameters => SelectParametersAdvances(p, h, h1, answer);
    case SendServerHello => SendServerHelloAdvances(p, h, h1, answer);
    case SendServerCertificate => SendServerCertificateAdvances(p, h, h1, answer, n);
    case SendServerKeyExchange => SendServerKeyExchangeAdvances(p, h, h1, answer, n);
    case SendServerHelloDone => SendServerHelloDoneAdvances(p, h, h1, answer, n);
    case ReadClientCertificate => ReadClientCertificateAdvances(p, h, h1, answer);
    case VerifyClientCertificate => VerifyClientCertificateAdvances(p, h, h1, answer);
    case ReadClientKeyExchange => ReadClientKeyExchangeAdvances(p, h, h1, answer);
    case ReadClientCertificateVerify => ReadClientCertificateVerifyAdvances(p, h, h1, answer);
    case ReadChangeCipherSpec => ReadChangeCipherSpecAdvances(p, h, h1);
    case ProcessClientChangeCipherSpec => ProcessClientChangeCipherSpecAdvances(p, h, h1);
    case ReadNextProto => ReadNextProtoAdvances(p, h, h1, answer);
    case ReadChannelId => ReadChannelIdAdvances(p, h, h1, answer);
    case ReadClientFinished => ReadClientFinishedAdvances(p, h, h1);
    case SendServerFinished => SendServerFinishedAdvances(p, h, h1, answer, n);
    case FinishServerHandshake => FinishServerHandshakeAdvances(p, h, h1);
  }

  lemma DoAdvances(p: Plan, h: Hs, answer: Answer, n: nat)
    requires SideOk(p, h) && h.wait.Ok? && !h.stage.Done? && Expected(p, h)
    requires IsProcess(h.stage) ==> h.inbox == []
    ensures Advances(p, h, Clean(h, Do(p, h, answer, n)))
  {
    hide Advances, Expected, SideOk;
    if h.server {
      ServerAdvances(p, h, Clean(h, Do(p, h, answer, n)), answer, n);
    } else {
      ClientAdvances(p, h, Clean(h, Do(p, h, answer, n)), answer, n);
    }
  }

  // ---- The two sides together ----

  /** What is on the way to a side: read but not processed, on the wire, or still in the sender's flight. */
  function Pend(a: Hs, toA: seq<Item>, b: Hs): seq<Content> {
    Hands(a.inbox) + Contents(toA + b.flight)
  }

  /** a lags behind b by what is on the way to it. */
  predicate Behind(p: Plan, a: Hs, b: Hs, pend: seq<Content>) {
    Lags(p, b.server, Rest(p, a), Rest(p, b), Log(a), Log(b), pend)
  }

  predicate Lags(p: Plan, server: bool, restA: Flow, restB: Flow, logA: seq<Message>, logB: seq<Message>, pend: seq<Content>) {
    && restA == Entries(server, pend) + restB
    && logB == logA + Messages(pend)
    && AllHonest(p, server, logA, pend)
  }

  predicate AloneOk(p: Plan, h: Hs) {
    SideOk(p, h) && WaitsWell(p, h) && (IsProcess(h.stage) ==> h.inbox == [])
  }

  /** Both sides are on the flow; never is anything on the way in both directions; and the side with
      something on the way to it lags behind by just that. */
  predicate PairOk(p: Plan, a: Hs, b: Hs, toA: seq<Item>, toB: seq<Item>) {
    && AloneOk(p, a) && AloneOk(p, b) && a.server != b.server
    && (Pend(a, toA, b) == [] || Pend(b, toB, a) == [])
    && (Pend(b, toB, a) == [] ==> Behind(p, a, b, Pend(a, toA, b)))
    && (Pend(a, toA, b) == [] ==> Behind(p, b, a, Pend(b, toB, a)))
    && Epochs(toA + b.flight, NextEpoch(a), b.writeEpoch)
    && Epochs(toB + a.flight, NextEpoch(b), a.writeEpoch)
  }

  lemma HandsAre(ms: seq<Message>)
    requires ms != []
    ensures Hands(ms) != [] && Hands(ms)[0] == Hand(ms[0]) && Hands(ms)[1..] == Hands(ms[1..])
  {}

  lemma HeadOf(p: Plan, server: bool, log: seq<Message>, pend: seq<Content>, rest: Flow)
    requires pend != [] && AllHonest(p, server, log, pend)
    ensures Entries(server, pend) + rest != [] && (Entries(server, pend) + rest)[0] == Entry(server, WhatIs(pend[0]))
    ensures pend[0].Hand? ==> Honest(p, server, log, pend[0].msg)
  {}

  /** A message at hand is what the flow has next. */
  lemma PairExpects(p: Plan, a: Hs, b: Hs, toA: seq<Item>, toB: seq<Item>)
    requires PairOk(p, a, b, toA, toB)
    ensures Expected(p, a)
  {
    if a.inbox != [] {
      HandsAre(a.inbox);
      var pend := Pend(a, toA, b);
      assert pend[0] == Hand(a.inbox[0]);
      HeadOf(p, b.server, Log(a), pend, Rest(p, b));
    }
  }

  // ---- A step of a state machine keeps the two sides together ----

  lemma {:induction false} HandsAppend(ms: seq<Message>, ns: seq<Message>)
    ensures Hands(ms + ns) == Hands(ms) + Hands(ns)
  {
    if ms == [] {
      assert ms + ns == ns;
    } else {
      assert (ms + ns)[1..] == ms[1..] + ns;
      HandsAppend(ms[1..], ns);
    }
  }

  lemma {:induction false} ContentsJoin(xs: seq<Item>, ys: seq<Item>)
    ensures Contents(xs + ys) == Contents(xs) + Contents(ys)
  {
    if xs == [] {
      assert xs + ys == ys;
    } else {
      assert (xs + ys)[1..] == xs[1..] + ys;
      ContentsJoin(xs[1..], ys);
    }
  }

  /** Reading a message: it comes off the front of what is on the way. */
  lemma ReadLags(p: Plan, server: bool, restA: Flow, restA1: Flow, restB: Flow, logA: seq<Message>, logB: seq<Message>,
                 m: Message, pend: seq<Content>)
    requires Lags(p, server, restA, restB, logA, logB, [Hand(m)] + pend)
    requires restA == [Entry(server, Of(m.kind))] + restA1
    ensures Lags(p, server, restA1, restB, logA + [m], logB, pend)
  {
    var all := [Hand(m)] + pend;
    assert all[1..] == pend;
    var e := Entry(server, Of(m.kind));
    assert Entries(server, all) + restB == [e] + (Entries(server, pend) + restB);
    assert ([e] + restA1)[1..] == restA1;
    assert ([e] + (Entries(server, pend) + restB))[1..] == Entries(server, pend) + restB;
    assert logA + ([m] + Messages(pend)) == logA + [m] + Messages(pend);
  }

  /** Sending: what goes out is put behind what is on the way. */
  lemma SendLags(p: Plan, server: bool, restB: Flow, restA: Flow, restA1: Flow, logB: seq<Message>, logA: seq<Message>,
                 pend: seq<Content>, sent: seq<Content>)
    requires Lags(p, server, restB, restA, logB, logA, pend)
    requires restA == Entries(server, sent) + restA1 && AllHonest(p, server, logA, sent)
    ensures Lags(p, server, restB, restA1, logB, logA + Messages(sent), pend + sent)
  {
    EntriesAppend(server, pend, sent);
    MessagesAppend(pend, sent);
    HonestAppend(p, server, logB, pend, sent);
    assert Entries(server, pend) + (Entries(server, sent) + restA1) == Entries(server, pend) + Entries(server, sent) + restA1;
    assert logB + Messages(pend) + Messages(sent) == logB + (Messages(pend) + Messages(sent));
  }

  lemma PendAfterRead(a: Hs, a1: Hs, toA: seq<Item>, b: Hs, m: Message)
    requires a.inbox == [m] + a1.inbox
    ensures Pend(a, toA, b) == [Hand(m)] + Pend(a1, toA, b)
  {
    HandsAppend([m], a1.inbox);
    assert Hands([m]) == [Hand(m)];
    assert [Hand(m)] + Hands(a1.inbox) + Contents(toA + b.flight) == [Hand(m)] + (Hands(a1.inbox) + Contents(toA + b.flight));
  }

  lemma PendAfterSend(a: Hs, a1: Hs, toB: seq<Item>, b: Hs, sent: seq<Item>)
    requires a1.flight == a.flight + sent
    ensures Pend(b, toB, a1) == Pend(b, toB, a) + Contents(sent)
  {
    assert toB + (a.flight + sent) == toB + a.flight + sent;
    ContentsJoin(toB + a.flight, sent);
    assert Hands(b.inbox) + (Contents(toB + a.flight) + Contents(sent)) == Hands(b.inbox) + Contents(toB + a.flight) + Contents(sent);
  }

  /** Nothing is on the way to a side that sends. */
  lemma SenderIsAhead(p: Plan, a: Hs, b: Hs, toA: seq<Item>, toB: seq<Item>, sent: seq<Content>, rest: Flow)
    requires PairOk(p, a, b, toA, toB) && sent != []
    requires Rest(p, a) == Entries(a.server, sent) + rest
    ensures Pend(a, toA, b) == []
  {
    OneSender(p, a.server, Rest(p, a), Rest(p, b), Log(a), Log(b), Pend(a, toA, b), sent, rest);
  }

  lemma OneSender(p: Plan, server: bool, restA: Flow, restB: Flow, logA: seq<Message>, logB: seq<Message>, pend: seq<Content>,
                  sent: seq<Content>, rest: Flow)
    requires pend != [] ==> Lags(p, !server, restA, restB, logA, logB, pend)
    requires sent != [] && restA == Entries(server, sent) + rest
    ensures pend == []
  {
    assert restA[0].server == server;
    if pend != [] { HeadOf(p, !server, logA, pend, restB); }
  }

  /** At a ChangeCipherSpec nothing is in the inbox. */
  lemma CcsHead(p: Plan, a: Hs, b: Hs, toA: seq<Item>)
    requires SideOk(p, a) && IsProcess(a.stage) && a.wait.NeedCcs? && Behind(p, a, b, Pend(a, toA, b))
    ensures a.inbox == []
  {
    CcsNext(p, a);
    if a.inbox != [] {
      HandsAre(a.inbox);
      HeadOf(p, b.server, Log(a), Pend(a, toA, b), Rest(p, b));
    }
  }

  lemma CcsNext(p: Plan, a: Hs)
    requires IsProcess(a.stage) && a.wait.NeedCcs?
    ensures Rest(p, a) != [] && Rest(p, a)[0].what == ChangeCipherSpec
  {
    hide From;
    FromUsed(p, Place(p, a));
  }

  /** The inbox is empty at a ChangeCipherSpec, also after a step. */
  lemma StepIsAlone(p: Plan, a: Hs, a1: Hs, b: Hs, toA: seq<Item>)
    requires Lands(p, a1) && Behind(p, a1, b, Pend(a1, toA, b)) && NextEpoch(a1) == NextEpoch(a)
    ensures AloneOk(p, a1)
  {
    if IsProcess(a1.stage) && a1.wait.NeedCcs? { CcsHead(p, a1, b, toA); }
  }

  lemma PairReads(p: Plan, a: Hs, a1: Hs, b: Hs, toA: seq<Item>, toB: seq<Item>, m: Message)
    requires PairOk(p, a, b, toA, toB) && Follows(p, a, a1, [m], [])
    ensures PairOk(p, a1, b, toA, toB)
  {
    PendAfterRead(a, a1, toA, b, m);
    assert a1.flight == a.flight && Pend(b, toB, a1) == Pend(b, toB, a) == [];
    assert Entries(!a.server, Hands([m])) == [Entry(!a.server, Of(m.kind))];
    assert Rest(p, a) == [Entry(!a.server, Of(m.kind))] + Rest(p, a1);
    assert Log(a1) == Log(a) + [m];
    ReadLags(p, b.server, Rest(p, a), Rest(p, a1), Rest(p, b), Log(a), Log(b), m, Pend(a1, toA, b));
    StepIsAlone(p, a, a1, b, toA);
    BothWays(p, a1, b, Pend(a1, toA, b));
  }

  /** With nothing on the way in either direction, neither side lags. */
  lemma BothWays(p: Plan, a: Hs, b: Hs, pend: seq<Content>)
    requires Behind(p, a, b, pend)
    ensures pend == [] ==> Behind(p, b, a, [])
  {
    if pend == [] {
      assert [] + Rest(p, b) == Rest(p, b) && [] + Rest(p, a) == Rest(p, a);
      assert Log(a) + [] == Log(a) && Log(b) + [] == Log(b);
    }
  }

  lemma SendBehind(p: Plan, a: Hs, a1: Hs, b: Hs, toB: seq<Item>, sent: seq<Item>, restB: Flow, restA: Flow, restA1: Flow)
    requires Lags(p, a.server, restB, restA, Log(b), Log(a), Pend(b, toB, a)) && Moves(p, a, a1, [], sent, restA, restA1)
    ensures Lags(p, a1.server, restB, restA1, Log(b), Log(a1), Pend(b, toB, a1))
  {
    var cs := Contents(sent);
    assert [] + Entries(a.server, cs) + restA1 == Entries(a.server, cs) + restA1;
    assert Log(a) + [] + Messages(cs) == Log(a) + Messages(cs);
    PendAfterSend(a, a1, toB, b, sent);
    SendLags(p, a.server, restB, restA, restA1, Log(b), Log(a), Pend(b, toB, a), cs);
  }

  lemma SendEpochs(p: Plan, a: Hs, a1: Hs, b: Hs, toB: seq<Item>, sent: seq<Item>)
    requires Epochs(toB + a.flight, NextEpoch(b), a.writeEpoch) && a1.flight == a.flight + sent
    requires Epochs(sent, a.writeEpoch, a1.writeEpoch)
    ensures Epochs(toB + a1.flight, NextEpoch(b), a1.writeEpoch)
  {
    EpochsAppend(toB + a.flight, sent, NextEpoch(b), a.writeEpoch, a1.writeEpoch);
    assert toB + a1.flight == toB + a.flight + sent;
  }

  lemma PairSends(p: Plan, a: Hs, a1: Hs, b: Hs, toA: seq<Item>, toB: seq<Item>, sent: seq<Item>)
    requires PairOk(p, a, b, toA, toB) && Follows(p, a, a1, [], sent) && sent != []
    ensures PairOk(p, a1, b, toA, toB)
  {
    FlowAhead(p, a, a1, sent);
    SenderIsAhead(p, a, b, toA, toB, Contents(sent), Rest(p, a1));
    EmptyPend(a, toA, b);
    assert a1.inbox == [];
    assert Pend(a1, toA, b) == [];
    SendBehind(p, a, a1, b, toB, sent, Rest(p, b), Rest(p, a), Rest(p, a1));
    SendEpochs(p, a, a1, b, toB, sent);
    FlightPends(b, toB, a1);
  }

  lemma FlowAhead(p: Plan, a: Hs, a1: Hs, sent: seq<Item>)
    requires Moves(p, a, a1, [], sent, Rest(p, a), Rest(p, a1)) && sent != []
    ensures Contents(sent) != [] && Rest(p, a) == Entries(a.server, Contents(sent)) + Rest(p, a1)
    ensures a1.inbox == a.inbox && a1.flight != []
  {
    hide From, Messages, AllHonest, Epochs, Log, NextEpoch, Rest;
    assert [] + Entries(a.server, Contents(sent)) + Rest(p, a1) == Entries(a.server, Contents(sent)) + Rest(p, a1);
  }

  lemma EmptyPend(a: Hs, toA: seq<Item>, b: Hs)
    requires Pend(a, toA, b) == []
    ensures a.inbox == [] && toA == [] && b.flight == []
  {
    assert Hands(a.inbox) == [] && Contents(toA + b.flight) == [];
  }

  lemma FlightPends(b: Hs, toB: seq<Item>, a: Hs)
    requires a.flight != []
    ensures Pend(b, toB, a) != []
  {
    assert toB + a.flight != [];
    assert Contents(toB + a.flight) != [];
  }

  lemma PairStays(p: Plan, a: Hs, a1: Hs, b: Hs, toA: seq<Item>, toB: seq<Item>)
    requires PairOk(p, a, b, toA, toB) && Follows(p, a, a1, [], [])
    ensures PairOk(p, a1, b, toA, toB)
  {
    assert a1.inbox == a.inbox && a1.flight == a.flight;
    assert Log(a1) == Log(a) && Rest(p, a1) == Rest(p, a);
    assert Pend(a1, toA, b) == Pend(a, toA, b) && Pend(b, toB, a1) == Pend(b, toB, a);
    if Pend(b, toB, a) == [] {
      StepIsAlone(p, a, a1, b, toA);
    } else {
      assert a.inbox == [];
    }
  }

  lemma PairDo(p: Plan, a: Hs, b: Hs, toA: seq<Item>, toB: seq<Item>, answer: Answer, n: nat)
    requires PairOk(p, a, b, toA, toB) && a.wait.Ok? && !a.stage.Done?
    ensures PairOk(p, Clean(a, Do(p, a, answer, n)), b, toA, toB)
  {
    hide From, Entries, Messages, Contents, Hands, AllHonest, Epochs;
    var a1 := Clean(a, Do(p, a, answer, n));
    PairExpects(p, a, b, toA, toB);
    DoAdvances(p, a, answer, n);
    var got, sent :| Follows(p, a, a1, got, sent);
    if got != [] {
      assert got == [got[0]] && sent == [];
      PairReads(p, a, a1, b, toA, toB, got[0]);
    } else if sent != [] {
      PairSends(p, a, a1, b, toA, toB, sent);
    } else {
      PairStays(p, a, a1, b, toA, toB);
    }
  }

  // ---- What the driver does keeps them together ----

  /** A turn of one side, but a state that fails leaves nothing behind. */
  function ActedCleanly(p: Plan, h: Hs, incoming: seq<Item>, action: Action): Hs
    requires Enabled(h, incoming, action)
  {
    if action.Run? then Clean(h, Acted(p, h, incoming, action)) else Acted(p, h, incoming, action)
  }

  lemma SameSpot(p: Plan, h: Hs, h1: Hs)
    requires h1.stage == h.stage && (h1.wait.NeedCcs? == h.wait.NeedCcs? || !IsProcess(h.stage))
    ensures Place(p, h1) == Place(p, h)
  {}

  lemma FlushIsOk(p: Plan, a: Hs, a1: Hs, k: nat)
    requires AloneOk(p, a) && a.wait.Flush? && k <= |a.flight| && a1 == Flushed(a, k)
    ensures AloneOk(p, a1) && NextEpoch(a1) == NextEpoch(a) && Log(a1) == Log(a)
  {}

  lemma PairFlush(p: Plan, a: Hs, b: Hs, toA: seq<Item>, toB: seq<Item>, k: nat)
    requires PairOk(p, a, b, toA, toB) && a.wait.Flush? && k <= |a.flight|
    ensures PairOk(p, Flushed(a, k), b, toA, toB + a.flight[..k])
  {
    hide From, Entries, Messages, Contents, Hands, AllHonest, Epochs;
    var a1, toB1 := Flushed(a, k), toB + a.flight[..k];
    assert toB1 + a1.flight == toB + a.flight;
    FlushIsOk(p, a, a1, k);
    SameSpot(p, a, a1);
    assert Pend(b, toB1, a1) == Pend(b, toB, a) && Pend(a1, toA, b) == Pend(a, toA, b);
  }

  lemma ResumeIsOk(p: Plan, a: Hs, a1: Hs)
    requires AloneOk(p, a) && a.wait.Pending? && a1 == a.(wait := Ok)
    ensures AloneOk(p, a1) && NextEpoch(a1) == NextEpoch(a) && Log(a1) == Log(a)
  {}

  lemma PairResume(p: Plan, a: Hs, b: Hs, toA: seq<Item>, toB: seq<Item>)
    requires PairOk(p, a, b, toA, toB) && a.wait.Pending?
    ensures PairOk(p, a.(wait := Ok), b, toA, toB)
  {
    var a1 := a.(wait := Ok);
    ResumeIsOk(p, a, a1);
    SameSpot(p, a, a1);
    assert Pend(b, toB, a1) == Pend(b, toB, a) && Pend(a1, toA, b) == Pend(a, toA, b);
  }

  /** The record at the front is sealed under the keys it is read with. */
  lemma FrontEpoch(items: seq<Item>, more: seq<Item>, from: nat, to: nat)
    requires items != [] && Epochs(items + more, from, to)
    ensures items[0].epoch == from
    ensures Epochs(items[1..] + more, if items[0].content.Ccs? then from + 1 else from, to)
  {
    assert (items + more)[1..] == items[1..] + more;
  }

  lemma PendFront(a: Hs, toA: seq<Item>, b: Hs)
    requires toA != [] && a.inbox == []
    ensures Pend(a, toA, b) == [toA[0].content] + Contents(toA[1..] + b.flight)
  {
    assert (toA + b.flight)[1..] == toA[1..] + b.flight;
  }

  /** The front of what is on the way fits what the side waits for. */
  lemma FrontFits(p: Plan, a: Hs, b: Hs, toA: seq<Item>, toB: seq<Item>)
    requires PairOk(p, a, b, toA, toB) && Enabled(a, toA, Receive)
    ensures a.inbox == [] && toA[0].content.Ccs? == a.wait.NeedCcs? && Pend(b, toB, a) == []
  {
    var pend := Pend(a, toA, b);
    if a.wait.NeedCcs? { CcsNext(p, a); }
    PendFront(a, toA, b);
    HeadOf(p, b.server, Log(a), pend, Rest(p, b));
  }

  lemma MessageIsOk(p: Plan, a: Hs, a1: Hs, m: Message)
    requires AloneOk(p, a) && (a.wait.NeedMessage? || a.wait.NeedServerHello?) && a1 == a.(inbox := [m], wait := Ok)
    ensures AloneOk(p, a1) && NextEpoch(a1) == NextEpoch(a) && Log(a1) == Log(a)
  {}

  lemma PairMessage(p: Plan, a: Hs, b: Hs, toA: seq<Item>, toB: seq<Item>)
    requires PairOk(p, a, b, toA, toB) && Enabled(a, toA, Receive) && !a.wait.NeedCcs?
    ensures PairOk(p, Opened(a, toA[0]), b, toA[1..], toB)
  {
    FrontFits(p, a, b, toA, toB);
    FrontEpoch(toA, b.flight, NextEpoch(a), b.writeEpoch);
    var m := toA[0].content.msg;
    var a1 := Opened(a, toA[0]);
    assert [] + [m] == [m];
    MessageIsOk(p, a, a1, m);
    SameSpot(p, a, a1);
    PendFront(a, toA, b);
    assert Hands([m]) == [Hand(m)];
    assert Pend(a1, toA[1..], b) == Pend(a, toA, b) && Pend(b, toB, a1) == Pend(b, toB, a);
  }

  /** The ChangeCipherSpec is in: it takes its place in the flow with it. */
  lemma CcsIsOk(p: Plan, a: Hs, a1: Hs)
    requires AloneOk(p, a) && a.wait.NeedCcs? && a1 == a.(wait := Ok)
    ensures AloneOk(p, a1) && NextEpoch(a1) == NextEpoch(a) + 1 && Log(a1) == Log(a)
    ensures Place(p, a1) == Place(p, a) + 1 && Place(p, a) < END && Used(p, Place(p, a))
    ensures EntryAt(p, Place(p, a)) == Entry(!a.server, ChangeCipherSpec)
  {}

  lemma CcsLags(p: Plan, server: bool, restA: Flow, restA1: Flow, restB: Flow, logA: seq<Message>, logB: seq<Message>, pend: seq<Content>)
    requires Lags(p, server, restA, restB, logA, logB, [Ccs] + pend) && restA == [Entry(server, ChangeCipherSpec)] + restA1
    ensures Lags(p, server, restA1, restB, logA, logB, pend)
  {
    var all := [Ccs] + pend;
    assert all[1..] == pend;
    var e := Entry(server, ChangeCipherSpec);
    assert Entries(server, all) + restB == [e] + (Entries(server, pend) + restB);
    assert ([e] + restA1)[1..] == restA1;
    assert ([e] + (Entries(server, pend) + restB))[1..] == Entries(server, pend) + restB;
  }

  lemma PairCcs(p: Plan, a: Hs, b: Hs, toA: seq<Item>, toB: seq<Item>)
    requires PairOk(p, a, b, toA, toB) && Enabled(a, toA, Receive) && a.wait.NeedCcs?
    ensures PairOk(p, Opened(a, toA[0]), b, toA[1..], toB)
  {
    FrontFits(p, a, b, toA, toB);
    FrontEpoch(toA, b.flight, NextEpoch(a), b.writeEpoch);
    var a1 := Opened(a, toA[0]);
    CcsIsOk(p, a, a1);
    FromUsed(p, Place(p, a));
    PendFront(a, toA, b);
    var pend := Contents(toA[1..] + b.flight);
    assert Pend(a1, toA[1..], b) == pend && Pend(b, toB, a1) == Pend(b, toB, a) == [];
    CcsLags(p, b.server, Rest(p, a), Rest(p, a1), Rest(p, b), Log(a), Log(b), pend);
    BothWays(p, a1, b, pend);
  }

  /** Whatever a side does, the two stay together. */
  lemma PairActs(p: Plan, a: Hs, b: Hs, toA: seq<Item>, toB: seq<Item>, action: Action)
    requires PairOk(p, a, b, toA, toB) && Enabled(a, toA, action)
    ensures PairOk(p, ActedCleanly(p, a, toA, action), b, Incoming(toA, action), Outgoing(a, toB, action))
  {
    hide PairOk;
    match action
    case Run(answer, n) => PairDo(p, a, b, toA, toB, answer, n);
    case FlushSome(k) => PairFlush(p, a, b, toA, toB, k);
    case Receive => if a.wait.NeedCcs? { PairCcs(p, a, b, toA, toB); } else { PairMessage(p, a, b, toA, toB); }
    case Resume => PairResume(p, a, b, toA, toB);
  }

  // ---- Whole runs ----

  datatype World = World(client: Hs, server: Hs, toClient: seq<Item>, toServer: seq<Item>)

  /** One side acting. */
  datatype Event = Event(server: bool, action: Action)

  predicate CanHappen(w: World, e: Event) {
    if e.server then Enabled(w.server, w.toServer, e.action) else Enabled(w.client, w.toClient, e.action)
  }

  function Happen(p: Plan, w: World, e: Event): World
    requires CanHappen(w, e)
  {
    if e.server then
      World(w.client, Acted(p, w.server, w.toServer, e.action), Outgoing(w.server, w.toClient, e.action), Incoming(w.toServer, e.action))
    else
      World(Acted(p, w.client, w.toClient, e.action), w.server, Incoming(w.toClient, e.action), Outgoing(w.client, w.toServer, e.action))
  }

  const BEGIN := World(Start(false), Start(true), [], [])

  /** The world after a schedule of events; what cannot happen when its turn comes does not. */
  function After(p: Plan, events: seq<Event>): World {
    if events == [] then BEGIN
    else
      var w := After(p, events[..|events| - 1]);
      var e := events[|events| - 1];
      if CanHappen(w, e) then Happen(p, w, e) else w
  }

  function HappenCleanly(p: Plan, w: World, e: Event): World
    requires CanHappen(w, e)
  {
    if e.server then
      Happen(p, w, e).(server := ActedCleanly(p, w.server, w.toServer, e.action))
    else
      Happen(p, w, e).(client := ActedCleanly(p, w.client, w.toClient, e.action))
  }

  /** The world after the schedule if failures left nothing behind. */
  function CleanAfter(p: Plan, events: seq<Event>): World {
    if events == [] then BEGIN
    else
      var w := CleanAfter(p, events[..|events| - 1]);
      var e := events[|events| - 1];
      if CanHappen(w, e) then HappenCleanly(p, w, e) else w
  }

  predicate WorldOk(p: Plan, w: World) {
    PairOk(p, w.client, w.server, w.toClient, w.toServer) && !w.client.server && w.server.server
  }

  lemma StartIsOk(p: Plan, h: Hs)
    requires h == Start(h.server)
    ensures AloneOk(p, h) && Place(p, h) == 0 && NextEpoch(h) == h.writeEpoch == 0 && Log(h) == []
    ensures h.inbox == [] && h.flight == []
  {
    hide From;
  }

  /** Nothing on the way. */
  lemma QuietPair(p: Plan, a: Hs, b: Hs)
    requires AloneOk(p, a) && AloneOk(p, b) && a.server != b.server && a.inbox == [] && b.inbox == [] && a.flight == [] && b.flight == []
    requires Place(p, a) == Place(p, b) && Log(a) == Log(b) && NextEpoch(a) == b.writeEpoch && NextEpoch(b) == a.writeEpoch
    ensures PairOk(p, a, b, [], [])
  {
    hide From, AloneOk, NextEpoch, Log, Place;
    assert Pend(a, [], b) == [] && Pend(b, [], a) == [];
    assert [] + Rest(p, a) == Rest(p, a) && Log(a) + [] == Log(a);
    assert Behind(p, a, b, []) && Behind(p, b, a, []);
  }

  lemma BeginIsOk(p: Plan)
    ensures WorldOk(p, BEGIN)
  {
    hide PairOk, AloneOk, NextEpoch, Place, Log;
    var c, s := BEGIN.client, BEGIN.server;
    StartIsOk(p, c);
    StartIsOk(p, s);
    QuietPair(p, c, s);
  }

  lemma HappenIsOk(p: Plan, w: World, e: Event)
    requires WorldOk(p, w) && CanHappen(w, e)
    ensures WorldOk(p, HappenCleanly(p, w, e))
  {
    if e.server {
      PairActs(p, w.server, w.client, w.toServer, w.toClient, e.action);
    } else {
      PairActs(p, w.client, w.server, w.toClient, w.toServer, e.action);
    }
  }

  // ---- What a failure leaves behind ----

  /** The same side, but for what a failure left behind. */
  predicate Alike(p: Plan, h0: Hs, h: Hs) {
    h0 == h || (h0.wait == h.wait && h.wait.Error? && h0.server == h.server && h0.stage == h.stage && Overran(p, h0, h))
  }

  predicate AlikeWorlds(p: Plan, w0: World, w: World) {
    && Alike(p, w0.client, w.client) && Alike(p, w0.server, w.server)
    && w0.toClient == w.toClient && w0.toServer == w.toServer
  }

  lemma DoAlike(p: Plan, h: Hs, answer: Answer, n: nat)
    requires SideOk(p, h) && h.wait.Ok? && !h.stage.Done?
    ensures Alike(p, Clean(h, Do(p, h, answer, n)), Do(p, h, answer, n))
  {
    hide SideOk, ClientDo, ServerDo;
    StageIsOwn(p, h);
    if h.server {
      ServerFailureLeaves(p, h, answer, n);
    } else {
      ClientFailureLeaves(p, h, answer, n);
    }
  }

  lemma ActAlike(p: Plan, h0: Hs, h: Hs, incoming: seq<Item>, action: Action)
    requires Alike(p, h0, h) && SideOk(p, h0)
    ensures Enabled(h, incoming, action) <==> Enabled(h0, incoming, action)
    ensures Enabled(h, incoming, action) ==> h0 == h && Alike(p, ActedCleanly(p, h0, incoming, action), Acted(p, h, incoming, action))
  {
    hide SideOk, Do, Overran;
    if Enabled(h, incoming, action) && action.Run? { DoAlike(p, h, action.answer, action.n); }
  }

  lemma {:induction false} RunIsOk(p: Plan, events: seq<Event>)
    ensures WorldOk(p, CleanAfter(p, events)) && AlikeWorlds(p, CleanAfter(p, events), After(p, events))
  {
    if events == [] {
      BeginIsOk(p);
    } else {
      var before, e := events[..|events| - 1], events[|events| - 1];
      RunIsOk(p, before);
      var w0, w := CleanAfter(p, before), After(p, before);
      ActAlike(p, w0.client, w.client, w.toClient, e.action);
      ActAlike(p, w0.server, w.server, w.toServer, e.action);
      if CanHappen(w, e) { HappenIsOk(p, w0, e); }
    }
  }

  /** In no run does a side meet an unexpected message or record, a digest or a signature over another
      transcript than its own, or a handshake buffer it has freed: the only failure there is comes from a
      callback or a configuration that refuses. */
  lemma NothingUnexpected(p: Plan, events: seq<Event>)
    ensures After(p, events).client.wait.Error? ==> After(p, events).client.wait.why == Refused
    ensures After(p, events).server.wait.Error? ==> After(p, events).server.wait.why == Refused
  {
    RunIsOk(p, events);
  }

  /** A Finished or CertificateVerify about to be read was made over the transcript of the side reading it. */
  lemma DigestsAgree(p: Plan, events: seq<Event>)
    ensures var w := After(p, events);
            w.server.inbox != [] && !w.server.wait.Error? ==> Honest(p, false, Log(w.server), w.server.inbox[0])
    ensures var w := After(p, events);
            w.client.inbox != [] && !w.client.wait.Error? ==> Honest(p, true, Log(w.client), w.client.inbox[0])
  {
    RunIsOk(p, events);
    var w := CleanAfter(p, events);
    PairExpects(p, w.client, w.server, w.toClient, w.toServer);
    PairExpects(p, w.server, w.client, w.toServer, w.toClient);
  }

  /** Up to a place in use everything is sent by the same side. */
  lemma {:induction false} NextIsOwn(p: Plan, k: nat, j: nat, server: bool)
    requires k <= j < END && Used(p, j) && forall i :: k <= i <= j ==> EntryAt(p, i).server == server
    ensures From(p, k) != [] && From(p, k)[0].server == server
    decreases j - k
  {
    if !Used(p, k) { NextIsOwn(p, k + 1, j, server); }
  }

  lemma PlaceIsOwn(p: Plan, k: nat, server: bool)
    requires if server then k == 1 || k == ServerLast(p) || (!p.resumed && (k == 2 || k == 4 || k == 5))
             else k == 0 || k == ClientLast(p) || (!p.resumed && 7 <= k <= 9)
    ensures From(p, k) != [] && From(p, k)[0].server == server
  {
    hide From;
    NextIsOwn(p, k, if k <= 1 then k else if k <= 6 then 6 else if k <= 9 then 10 else if server then k + 1 else k, server);
  }

  lemma ServerSendsAt(p: Plan, h: Hs)
    requires SideOk(p, h) && At(p, h.stage).sends && h.server
    ensures var k := Place(p, h); k == 1 || k == ServerLast(p) || (!p.resumed && (k == 2 || k == 4 || k == 5))
  {
    hide ServerLast, ClientLast, TranscriptOk, WaitOk;
  }

  lemma ClientSendsAt(p: Plan, h: Hs)
    requires SideOk(p, h) && At(p, h.stage).sends && !h.server
    ensures var k := Place(p, h); k == 0 || k == ClientLast(p) || (!p.resumed && 7 <= k <= 9)
  {
    hide ServerLast, ClientLast, TranscriptOk, WaitOk;
  }

  /** A side that sends has the next word. */
  lemma SenderIsNext(p: Plan, h: Hs)
    requires SideOk(p, h) && At(p, h.stage).sends
    ensures Rest(p, h) != [] && Rest(p, h)[0].server == h.server
  {
    hide From, SideOk, At, Place;
    if h.server { ServerSendsAt(p, h); } else { ClientSendsAt(p, h); }
    PlaceIsOwn(p, Place(p, h), h.server);
  }

  lemma LogsAreOrdered(p: Plan, a0: Hs, b0: Hs, a: Hs, b: Hs, toA: seq<Item>, toB: seq<Item>)
    requires PairOk(p, a0, b0, toA, toB) && Pend(b0, toB, a0) == [] && Alike(p, a0, a) && Alike(p, b0, b)
    ensures Log(a) <= Log(b) || Log(b) <= Log(a)
  {
    var pend := Pend(a0, toA, b0);
    EmptyPend(b0, toB, a0);
    if At(p, a0.stage).sends && pend != [] {
      SenderIsNext(p, a0);
      HeadOf(p, b0.server, Log(a0), pend, Rest(p, b0));
    }
    if At(p, a0.stage).sends && At(p, b0.stage).sends {
      SenderIsNext(p, a0);
      SenderIsNext(p, b0);
      SameRest(p, b0.server, Rest(p, a0), Rest(p, b0), Log(a0), Log(b0));
    }
    if a0.inbox != [] {
      HandsAre(a0.inbox);
      assert pend[0] == Hand(a0.inbox[0]);
      assert Messages(pend) == [a0.inbox[0]] + Messages(pend[1..]);
    }
  }

  /** At every moment the transcript of one side is a prefix of the other's. */
  lemma TranscriptsAgree(p: Plan, events: seq<Event>)
    ensures var w := After(p, events); Log(w.client) <= Log(w.server) || Log(w.server) <= Log(w.client)
  {
    RunIsOk(p, events);
    var w0, w := CleanAfter(p, events), After(p, events);
    if Pend(w0.server, w0.toServer, w0.client) == [] {
      LogsAreOrdered(p, w0.client, w0.server, w.client, w.server, w0.toClient, w0.toServer);
    } else {
      Swap(p, w0.client, w0.server, w0.toClient, w0.toServer);
      LogsAreOrdered(p, w0.server, w0.client, w.server, w.client, w0.toServer, w0.toClient);
    }
  }

  lemma EmptyRest(p: Plan, server: bool, restA: Flow, restB: Flow, logA: seq<Message>, logB: seq<Message>, pend: seq<Content>)
    requires Lags(p, server, restA, restB, logA, logB, pend) && restA == []
    ensures pend == [] && restB == [] && logA == logB
  {
    if pend != [] { HeadOf(p, server, logA, pend, restB); }
  }

  lemma DoneRest(p: Plan, a: Hs)
    requires a.stage.Done?
    ensures Rest(p, a) == []
  {}

  lemma DoneLags(p: Plan, a: Hs, b: Hs, pend: seq<Content>)
    requires a.stage.Done? && Behind(p, a, b, pend)
    ensures pend == [] && Rest(p, b) == [] && Log(a) == Log(b)
  {
    DoneRest(p, a);
    EmptyRest(p, b.server, Rest(p, a), Rest(p, b), Log(a), Log(b), pend);
  }

  lemma DonePends(p: Plan, a: Hs, b: Hs, toA: seq<Item>, toB: seq<Item>)
    requires PairOk(p, a, b, toA, toB) && a.stage.Done? && b.stage.Done?
    ensures Pend(a, toA, b) == [] && Pend(b, toB, a) == [] && Log(a) == Log(b)
  {
    if Pend(b, toB, a) == [] {
      DoneLags(p, a, b, Pend(a, toA, b));
    } else {
      DoneLags(p, b, a, Pend(b, toB, a));
    }
  }

  lemma DoneTogether(p: Plan, a: Hs, b: Hs, toA: seq<Item>, toB: seq<Item>)
    requires PairOk(p, a, b, toA, toB) && a.stage.Done? && b.stage.Done?
    ensures Log(a) == Log(b) && toA == [] && toB == [] && a.readEpoch == b.writeEpoch && b.readEpoch == a.writeEpoch
  {
    DonePends(p, a, b, toA, toB);
    EmptyPend(a, toA, b);
    EmptyPend(b, toB, a);
    assert NextEpoch(a) == a.readEpoch && NextEpoch(b) == b.readEpoch;
    assert toA + b.flight == [] && toB + a.flight == [];
  }

  /** When both sides are done they have the same transcript and matching keys, and nothing is left over. */
  lemma DoneAgree(p: Plan, events: seq<Event>)
    requires After(p, events).client.stage.Done? && After(p, events).server.stage.Done?
    ensures var w := After(p, events);
            Log(w.client) == Log(w.server) && w.toClient == [] && w.toServer == []
            && w.client.readEpoch == w.server.writeEpoch && w.server.readEpoch == w.client.writeEpoch
  {
    RunIsOk(p, events);
    var w := CleanAfter(p, events);
    DoneTogether(p, w.client, w.server, w.toClient, w.toServer);
  }

  // ---- No run gets stuck ----

  /** An event that does more than flush nothing. */
  predicate Productive(w: World, e: Event) {
    CanHappen(w, e) && (e.action.FlushSome? ==> e.action.k == |(if e.server then w.server else w.client).flight|)
  }

  /** A productive event in which no callback refuses or asks for a retry. */
  predicate Eager(w: World, e: Event) {
    Productive(w, e) && (e.action.Run? ==> e.action.answer.Go?)
  }

  /** A side that can do nothing by itself is done or waits for a record. */
  lemma IdleWaits(p: Plan, h: Hs, incoming: seq<Item>)
    requires AloneOk(p, h) && !h.wait.Error?
    requires !Enabled(h, incoming, Run(Go, 0)) && !Enabled(h, incoming, FlushSome(|h.flight|)) && !Enabled(h, incoming, Resume)
    ensures h.stage.Done? || (h.wait.NeedMessage? || h.wait.NeedServerHello? || h.wait.NeedCcs?)
    ensures h.flight == []
  {}

  predicate Waits(h: Hs) {
    h.wait.NeedMessage? || h.wait.NeedServerHello? || h.wait.NeedCcs?
  }

  /** What a waiting side waits for is the peer's to send. */
  lemma WaitsForPeer(p: Plan, h: Hs)
    requires AloneOk(p, h) && Waits(h)
    ensures h.inbox == [] && Rest(p, h) != [] && Rest(p, h)[0].server != h.server
  {
    if h.wait.NeedCcs? { CcsAwaited(p, h); }
  }

  lemma CcsPlace(p: Plan, h: Hs)
    requires SideOk(p, h) && h.wait.NeedCcs?
    ensures Place(p, h) == if h.server then ClientLast(p) else ServerLast(p) + 1
  {
    hide ServerLast, ClientLast, KnowsPlan, TranscriptOk;
  }

  lemma CcsAwaited(p: Plan, h: Hs)
    requires SideOk(p, h) && h.wait.NeedCcs?
    ensures Rest(p, h) != [] && Rest(p, h)[0].server != h.server
  {
    hide SideOk, From, Used, EntryAt, ServerLast, ClientLast;
    CcsPlace(p, h);
    ServerLastPlaces(p);
    ClientLastPlaces(p);
    FromUsed(p, Place(p, h));
  }

  lemma SameRest(p: Plan, server: bool, restA: Flow, restB: Flow, logA: seq<Message>, logB: seq<Message>)
    requires Lags(p, server, restA, restB, logA, logB, [])
    ensures restA == restB
  {
    assert [] + restB == restB;
  }

  lemma RestsMeet(p: Plan, a: Hs, b: Hs, toA: seq<Item>, toB: seq<Item>)
    requires PairOk(p, a, b, toA, toB) && a.inbox == [] && b.inbox == [] && a.flight == [] && b.flight == []
    requires toA == [] && toB == []
    ensures Rest(p, a) == Rest(p, b)
  {
    assert Pend(a, toA, b) == [] && Pend(b, toB, a) == [];
    SameRest(p, a.server, Rest(p, b), Rest(p, a), Log(b), Log(a));
  }

  /** A side with nothing on the way to it does not wait for a peer that is done or waits as well. */
  lemma IdlePeer(p: Plan, a: Hs, b: Hs, toA: seq<Item>, toB: seq<Item>)
    requires PairOk(p, a, b, toA, toB) && b.flight == [] && (Waits(a) ==> toA == [])
    requires b.stage.Done? || (Waits(b) && toB == [] && a.flight == [])
    ensures !Waits(a)
  {
    if Waits(a) {
      WaitsForPeer(p, a);
      assert Pend(a, toA, b) == [];
      if b.stage.Done? {
        DoneLags(p, b, a, Pend(b, toB, a));
      } else {
        WaitsForPeer(p, b);
        RestsMeet(p, a, b, toA, toB);
      }
    }
  }

  /** As long as no callback refuses, some side can always do something until both are done. */
  lemma NeverStuck(p: Plan, events: seq<Event>)
    requires var w := After(p, events);
             !w.client.wait.Error? && !w.server.wait.Error? && !(w.client.stage.Done? && w.server.stage.Done?)
    ensures exists e :: Eager(After(p, events), e)
  {
    RunIsOk(p, events);
    var w := After(p, events);
    if forall e :: !Eager(w, e) {
      NothingToDo(p, w);
    }
  }

  lemma NothingToDo(p: Plan, w: World)
    requires WorldOk(p, w) && !w.client.wait.Error? && !w.server.wait.Error?
    requires forall e :: !Eager(w, e)
    ensures w.client.stage.Done? && w.server.stage.Done?
  {
    IdleSide(p, w, w.client, w.toClient, false);
    IdleSide(p, w, w.server, w.toServer, true);
    IdlePeer(p, w.client, w.server, w.toClient, w.toServer);
    Swap(p, w.client, w.server, w.toClient, w.toServer);
    IdlePeer(p, w.server, w.client, w.toServer, w.toClient);
  }

  lemma Swap(p: Plan, a: Hs, b: Hs, toA: seq<Item>, toB: seq<Item>)
    requires PairOk(p, a, b, toA, toB)
    ensures PairOk(p, b, a, toB, toA)
  {}

  lemma IdleSide(p: Plan, w: World, h: Hs, incoming: seq<Item>, server: bool)
    requires AloneOk(p, h) && !h.wait.Error? && (forall e :: !Eager(w, e))
    requires h == (if server then w.server else w.client) && incoming == if server then w.toServer else w.toClient
    ensures h.stage.Done? || Waits(h)
    ensures h.flight == [] && (Waits(h) ==> incoming == [])
  {
    assert !Eager(w, Event(server, Run(Go, 0))) && !Eager(w, Event(server, Resume));
    assert !Eager(w, Event(server, FlushSome(|h.flight|))) && !Eager(w, Event(server, Receive));
    IdleWaits(p, h, incoming);
  }
}
