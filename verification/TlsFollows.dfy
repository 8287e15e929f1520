/** Every state of the two machines, for every answer of a callback, moves its side along the flow. */
module TlsFollows {
  import opened Prelude
  import opened TlsHandshake
  import opened TlsScript

  // ---- States that take or send the message of one place ----

  /** A state at place k that goes on to next, past the message of its place if the handshake has it. */
  predicate Stands(p: Plan, h: Hs, k: nat, next: Stage) {
    && SideOk(p, h) && h.wait.Ok? && MayEnter(p, h.stage, next)
    && Place(p, h) == k < END && Joins(p, if Used(p, k) then k + 1 else k, At(p, next).place)
  }

  predicate Takes(p: Plan, h: Hs, k: nat, kind: Kind, next: Stage) {
    Stands(p, h, k, next) && !At(p, h.stage).sends && EntryAt(p, k) == Entry(!h.server, Of(kind))
  }

  predicate Sends(p: Plan, h: Hs, k: nat, kind: Kind, next: Stage) {
    Stands(p, h, k, next) && At(p, h.stage).sends && EntryAt(p, k) == Entry(h.server, Of(kind))
  }

  /** The handshake does not have the message. */
  lemma PassesBy(p: Plan, h: Hs, h1: Hs, k: nat, next: Stage)
    requires Stands(p, h, k, next) && !Used(p, k)
    requires h1 == h.(stage := next, transcript := h1.transcript) && Kept(p, h.transcript, h1.transcript, next)
    ensures Advances(p, h, h1)
  {
    hide SideOk, KnowsPlan, WaitOk, From, Advances;
    EnterFollows(p, h, h1, next);
  }

  lemma Halts(p: Plan, h: Hs, h1: Hs, k: nat, next: Stage)
    requires Stands(p, h, k, next)
    requires h1 == Await(h, h1.wait) && (h1.wait == Error(Refused) || h1.wait.Pending?)
    ensures Advances(p, h, h1)
  {
    hide SideOk, From, Advances;
    Pauses(p, h, h1);
  }

  lemma Misses(p: Plan, h: Hs, h1: Hs, k: nat, kind: Kind, next: Stage)
    requires Takes(p, h, k, kind, next) && Used(p, k) && h.inbox == [] && h1 == Await(h, NeedMessage)
    ensures Advances(p, h, h1)
  {
    hide SideOk, From, Advances;
    Awaits(p, h, h1, k);
  }

  lemma Comes(p: Plan, h: Hs, k: nat, kind: Kind, next: Stage)
    requires Takes(p, h, k, kind, next) && Used(p, k) && Expected(p, h) && h.inbox != []
    ensures h.inbox[0].kind == kind && Honest(p, !h.server, Log(h), h.inbox[0])
  {
    hide SideOk, From, Expected, Honest;
    KindIs(p, h, k, kind);
  }

  lemma TakesIt(p: Plan, h: Hs, h1: Hs, k: nat, kind: Kind, next: Stage)
    requires Takes(p, h, k, kind, next) && Used(p, k) && Expected(p, h) && h.inbox != []
    requires h1 == h.(stage := next, inbox := h.inbox[1..], transcript := h1.transcript)
    requires Kept(p, h.transcript.Update(h.inbox[0]), h1.transcript, next)
    ensures Advances(p, h, h1)
  {
    hide SideOk, KnowsPlan, WaitOk, From, Expected, Advances;
    TookFollows(p, h, h1, next, k);
  }

  lemma SendsIt(p: Plan, h: Hs, h1: Hs, k: nat, m: Message, next: Stage)
    requires Sends(p, h, k, m.kind, next) && Used(p, k) && Honest(p, h.server, Log(h), m)
    requires h1 == h.(stage := next, flight := h.flight + [Item(h.writeEpoch, Hand(m))], transcript := h1.transcript,
                      serverParams := h1.serverParams)
    requires Kept(p, h.transcript.Update(m), h1.transcript, next)
    ensures Advances(p, h, h1)
  {
    hide SideOk, KnowsPlan, WaitOk, From, Advances, Honest;
    PutFollows(p, h, h1, next, k, m);
  }

  /** The part most states share, ReadOne. */
  lemma TakesOne(p: Plan, h: Hs, h1: Hs, answer: Answer, k: nat, kind: Kind, next: Stage)
    requires Takes(p, h, k, kind, next) && Used(p, k) && Expected(p, h) && h.wait.Ok?
    requires h1 == Clean(h, ReadOne(h, kind, answer, next))
    ensures Advances(p, h, h1)
  {
    hide Stands, SideOk, At, Used, EntryAt, Place, Expected, Advances, Honest;
    if h.inbox == [] {
      Misses(p, h, h1, k, kind, next);
    } else {
      Comes(p, h, k, kind, next);
      if answer.Refuse? { Halts(p, h, h1, k, next); } else { TakesIt(p, h, h1, k, kind, next); }
    }
  }

  // ---- The client ----

  lemma ClientHelloSent(p: Plan, h: Hs, h1: Hs, n: nat)
    requires SideOk(p, h) && h.stage.StartConnect? && h.wait.Ok?
    requires h1 == Enter(Put(h, Message(ClientHello, Text(n))), EnterEarlyData).(wait := Flush)
    ensures Advances(p, h, h1)
  {
    FromUsed(p, 0);
    WritesAdvances(p, h, h1, Message(ClientHello, Text(n)));
  }

  lemma StartConnectAdvances(p: Plan, h: Hs, h1: Hs, answer: Answer, n: nat)
    requires SideOk(p, h) && h.stage.StartConnect? && h.wait.Ok?
    requires h1 == Clean(h, DoStartConnect(h, answer, n))
    ensures Advances(p, h, h1)
  {
    hide SideOk, Advances;
    if answer.Refuse? {
      assert h1 == Await(h, h1.wait);
      Pauses(p, h, h1);
    } else {
      ClientHelloSent(p, h, h1, n);
    }
  }

  lemma EnterEarlyDataAdvances(p: Plan, h: Hs, h1: Hs)
    requires SideOk(p, h) && h.stage.EnterEarlyData? && h.wait.Ok?
    requires h1 == Enter(h, ReadServerHello)
    ensures Advances(p, h, h1)
  {
    EnterSame(p, h, h1, ReadServerHello);
  }

  lemma ServerHelloKnown(p: Plan, h: Hs, h1: Hs)
    requires SideOk(p, h) && h.stage.ReadServerHello? && h.wait.Ok?
    requires h1 == h.(stage := if p.resumed then ReadSessionTicket else ReadServerCertificate, neg := p.Outcome(),
                      inbox := h1.inbox, transcript := h1.transcript)
    ensures KnowsPlan(p, h1, At(p, h1.stage)) && WaitOk(h1, At(p, h1.stage)) && !h1.server && !At(p, h1.stage).server
    ensures h.flight == [] && Place(p, h) == 1 && Place(p, h1) == if p.resumed then 10 else 2
  {}

  lemma ServerHelloTaken(p: Plan, h: Hs, h1: Hs)
    requires SideOk(p, h) && h.stage.ReadServerHello? && h.wait.Ok? && Expected(p, h) && h.inbox != []
    requires h1 == h.(stage := if p.resumed then ReadSessionTicket else ReadServerCertificate, neg := p.Outcome(),
                      inbox := h.inbox[1..], transcript := h1.transcript)
    requires h1.transcript.hash == Some(h.transcript.buffer.value + [h.inbox[0]])
    requires h1.transcript.buffer == if p.resumed || !p.certAuth then None else h1.transcript.hash
    ensures Advances(p, h, h1)
  {
    ServerHelloKnown(p, h, h1);
    assert TranscriptOk(h1.transcript, At(p, h1.stage));
    if p.resumed { SkipUnused(p, 2, 10); }
    TookAdvances(p, h, h1, 1);
  }

  lemma ServerHelloResult(p: Plan, h: Hs, h1: Hs, answer: Answer)
    requires h.inbox != [] && h.inbox[0].kind == ServerHello && h.inbox[0].body == Hello(p.Outcome())
    requires h.transcript.buffer.Some? && !answer.Refuse? && h1 == DoReadServerHello(h, answer)
    ensures h1 == h.(stage := if p.resumed then ReadSessionTicket else ReadServerCertificate, neg := p.Outcome(), wait := Ok,
                     inbox := h.inbox[1..], transcript := h1.transcript)
    ensures h1.transcript.hash == Some(h.transcript.buffer.value + [h.inbox[0]])
    ensures h1.transcript.buffer == if p.resumed || !p.certAuth then None else h1.transcript.hash
  {}

  lemma AwaitsServerHello(p: Plan, h: Hs, h1: Hs)
    requires SideOk(p, h) && h.stage.ReadServerHello? && h.wait.Ok? && h.inbox == [] && h1 == Await(h, NeedServerHello)
    ensures Advances(p, h, h1)
  {
    Awaits(p, h, h1, 1);
  }

  lemma ServerHelloComes(p: Plan, h: Hs)
    requires SideOk(p, h) && h.stage.ReadServerHello? && h.wait.Ok? && h.inbox != [] && Expected(p, h)
    ensures h.inbox[0].kind == ServerHello && h.inbox[0].body == Hello(p.Outcome()) && h.transcript.buffer.Some?
  {
    KindIs(p, h, 1, ServerHello);
  }

  lemma ReadServerHelloAdvances(p: Plan, h: Hs, h1: Hs, answer: Answer)
    requires SideOk(p, h) && h.stage.ReadServerHello? && h.wait.Ok? && Expected(p, h)
    requires h1 == Clean(h, DoReadServerHello(h, answer))
    ensures Advances(p, h, h1)
  {
    hide SideOk, Expected, Advances;
    if h.inbox == [] {
      AwaitsServerHello(p, h, h1);
    } else {
      ServerHelloComes(p, h);
      if answer.Refuse? {
        assert h1 == Fail(h, Refused);
        Pauses(p, h, h1);
      } else {
        ServerHelloResult(p, h, h1, answer);
        ServerHelloTaken(p, h, h1);
      }
    }
  }

  lemma ReadServerCertificateStands(p: Plan, h: Hs)
    requires SideOk(p, h) && h.stage.ReadServerCertificate? && h.wait.Ok?
    ensures Takes(p, h, 2, Certificate, ReadCertificateStatus)
    ensures Used(p, 2) == h.neg.certAuth && !h.server
  {}

  lemma ReadServerCertificateAdvances(p: Plan, h: Hs, h1: Hs, answer: Answer)
    requires SideOk(p, h) && h.stage.ReadServerCertificate? && h.wait.Ok? && Expected(p, h)
    requires h1 == Clean(h, DoReadServerCertificate(h, answer))
    ensures Advances(p, h, h1)
  {
    hide Stands, SideOk, At, Used, EntryAt, Place, Expected, Advances;
    ReadServerCertificateStands(p, h);
    if !h.neg.certAuth {
      PassesBy(p, h, h1, 2, ReadCertificateStatus);
    } else {
      if h.inbox != [] { Comes(p, h, 2, Certificate, ReadCertificateStatus); }
      TakesOne(p, h, h1, answer, 2, Certificate, ReadCertificateStatus);
    }
  }

  lemma NoCertificateStatus(p: Plan, h: Hs)
    requires h.stage.ReadCertificateStatus? && !h.server && Expected(p, h) && h.inbox != [] && !p.resumed && !p.certAuth
    ensures h.inbox[0].kind != CertificateStatus
  {
    if p.SendsKeyExchange() {
      KindAfter(p, h, 4, ServerKeyExchange);
    } else {
      KindAfter(p, h, 6, ServerHelloDone);
    }
  }

  /** The client waits for whatever message the server sends next. */
  lemma AwaitsStatus(p: Plan, h: Hs, h1: Hs)
    requires SideOk(p, h) && h.stage.ReadCertificateStatus? && h.wait.Ok? && h.inbox == [] && p.status
    requires h1 == Await(h, NeedMessage)
    ensures Advances(p, h, h1)
  {
    Awaits(p, h, h1, if p.certAuth then 3 else if p.SendsKeyExchange() then 4 else 6);
  }

  lemma ReadCertificateStatusStands(p: Plan, h: Hs)
    requires SideOk(p, h) && h.stage.ReadCertificateStatus? && h.wait.Ok?
    ensures Takes(p, h, 3, CertificateStatus, VerifyServerCertificate)
    ensures Used(p, 3) == (p.certAuth && p.status) && h.neg.status == p.status && !p.resumed && !h.server
  {}

  lemma ReadCertificateStatusAdvances(p: Plan, h: Hs, h1: Hs, answer: Answer)
    requires SideOk(p, h) && h.stage.ReadCertificateStatus? && h.wait.Ok? && Expected(p, h)
    requires h1 == Clean(h, DoReadCertificateStatus(h, answer))
    ensures Advances(p, h, h1)
  {
    hide Stands, SideOk, At, Used, EntryAt, Place, Expected, Advances;
    ReadCertificateStatusStands(p, h);
    if !p.status {
      PassesBy(p, h, h1, 3, VerifyServerCertificate);
    } else if h.inbox == [] {
      AwaitsStatus(p, h, h1);
    } else if !p.certAuth {
      NoCertificateStatus(p, h);
      PassesBy(p, h, h1, 3, VerifyServerCertificate);
    } else {
      Comes(p, h, 3, CertificateStatus, VerifyServerCertificate);
      if answer.Refuse? {
        Halts(p, h, h1, 3, VerifyServerCertificate);
      } else {
        TakesIt(p, h, h1, 3, CertificateStatus, VerifyServerCertificate);
      }
    }
  }

  lemma VerifyIs(p: Plan, h: Hs)
    requires SideOk(p, h) && h.stage.VerifyServerCertificate? && h.wait.Ok?
    ensures h.neg.certAuth == p.certAuth
  {}

  lemma EnteredServerVerify(p: Plan, h: Hs, h1: Hs)
    requires SideOk(p, h) && h.stage.VerifyServerCertificate? && h.wait.Ok? && h1 == Enter(h, ReadServerKeyExchange)
    ensures Advances(p, h, h1)
  {
    EnterFollows(p, h, h1, ReadServerKeyExchange);
  }

  lemma VerifyServerCertificateAdvances(p: Plan, h: Hs, h1: Hs, answer: Answer)
    requires SideOk(p, h) && h.stage.VerifyServerCertificate? && h.wait.Ok?
    requires h1 == Clean(h, DoVerifyServerCertificate(h, answer))
    ensures Advances(p, h, h1)
  {
    hide SideOk, Advances;
    VerifyIs(p, h);
    if !p.certAuth || answer.Go? {
      EnteredServerVerify(p, h, h1);
    } else {
      assert h1 == Await(h, h1.wait);
      Pauses(p, h, h1);
    }
  }

  lemma NoServerKeyExchange(p: Plan, h: Hs)
    requires h.stage.ReadServerKeyExchange? && !h.server && Expected(p, h) && h.inbox != [] && !p.resumed
    requires !p.SendsKeyExchange()
    ensures h.inbox[0].kind != ServerKeyExchange
  {
    if p.CertRequest() {
      KindAfter(p, h, 5, CertificateRequest);
    } else {
      KindAfter(p, h, 6, ServerHelloDone);
    }
  }

  lemma AwaitsKeyExchange(p: Plan, h: Hs, h1: Hs)
    requires SideOk(p, h) && h.stage.ReadServerKeyExchange? && h.wait.Ok? && h.inbox == [] && h1 == Await(h, NeedMessage)
    ensures Advances(p, h, h1)
  {
    Awaits(p, h, h1, if p.SendsKeyExchange() then 4 else if p.CertRequest() then 5 else 6);
  }

  lemma ReadServerKeyExchangeStands(p: Plan, h: Hs)
    requires SideOk(p, h) && h.stage.ReadServerKeyExchange? && h.wait.Ok?
    ensures Takes(p, h, 4, ServerKeyExchange, ReadCertificateRequest)
    ensures Used(p, 4) == p.SendsKeyExchange() && !p.resumed && !h.server && h.neg.ecdhe == p.ecdhe && h.neg.certAuth == p.certAuth
  {}

  lemma ReadServerKeyExchangeAdvances(p: Plan, h: Hs, h1: Hs, answer: Answer)
    requires SideOk(p, h) && h.stage.ReadServerKeyExchange? && h.wait.Ok? && Expected(p, h)
    requires h1 == Clean(h, DoReadServerKeyExchange(h, answer))
    ensures Advances(p, h, h1)
  {
    hide Stands, SideOk, At, Used, EntryAt, Place, Expected, Advances;
    ReadServerKeyExchangeStands(p, h);
    if h.inbox == [] {
      AwaitsKeyExchange(p, h, h1);
    } else if !p.SendsKeyExchange() {
      NoServerKeyExchange(p, h);
      PassesBy(p, h, h1, 4, ReadCertificateRequest);
    } else {
      Comes(p, h, 4, ServerKeyExchange, ReadCertificateRequest);
      if answer.Refuse? {
        Halts(p, h, h1, 4, ReadCertificateRequest);
      } else {
        TakesIt(p, h, h1, 4, ServerKeyExchange, ReadCertificateRequest);
      }
    }
  }

  lemma CertificateRequestTakenOk(p: Plan, h: Hs, h1: Hs)
    requires SideOk(p, h) && h.stage.ReadCertificateRequest? && h.wait.Ok? && h.inbox != []
    requires p.CertRequest() && h1 == Took(h, ReadServerHelloDone).(certRequest := true)
    ensures SideOk(p, h1)
  {
    assert At(p, h.stage) == Spot(5, false, false, true, p.certAuth);
    assert At(p, h1.stage) == Spot(6, false, false, true, p.CertRequest());
  }

  lemma CertificateRequestTaken(p: Plan, h: Hs, h1: Hs)
    requires SideOk(p, h) && h.stage.ReadCertificateRequest? && h.wait.Ok? && Expected(p, h) && h.inbox != []
    requires p.CertRequest() && h1 == Took(h, ReadServerHelloDone).(certRequest := true)
    ensures Advances(p, h, h1)
  {
    CertificateRequestTakenOk(p, h, h1);
    TakesTo(p, h, h1, ReadServerHelloDone, 5);
  }

  lemma NoCertificateRequest(p: Plan, h: Hs, h1: Hs)
    requires SideOk(p, h) && h.stage.ReadCertificateRequest? && h.wait.Ok? && !p.CertRequest()
    requires h1 == Enter(h, ReadServerHelloDone) || h1 == Enter(FreeBuffer(h), ReadServerHelloDone)
    ensures Advances(p, h, h1)
  {
    EnterFollows(p, h, h1, ReadServerHelloDone);
  }

  lemma ReadCertificateRequestAdvances(p: Plan, h: Hs, h1: Hs, answer: Answer)
    requires SideOk(p, h) && h.stage.ReadCertificateRequest? && h.wait.Ok? && Expected(p, h)
    requires h1 == Clean(h, DoReadCertificateRequest(h, answer))
    ensures Advances(p, h, h1)
  {
    if p.certAuth && h.inbox == [] {
      assert h1 == Await(h, NeedMessage);
      Awaits(p, h, h1, if p.CertRequest() then 5 else 6);
    } else if p.CertRequest() {
      KindIs(p, h, 5, CertificateRequest);
      if answer.Refuse? {
        assert h1 == Fail(h, Refused);
        Pauses(p, h, h1);
      } else {
        CertificateRequestTaken(p, h, h1);
      }
    } else {
      if h.inbox != [] { KindAfter(p, h, 6, ServerHelloDone); }
      NoCertificateRequest(p, h, h1);
    }
  }

  lemma ReadServerHelloDoneStands(p: Plan, h: Hs)
    requires SideOk(p, h) && h.stage.ReadServerHelloDone? && h.wait.Ok?
    ensures Takes(p, h, 6, ServerHelloDone, SendClientCertificate)
    ensures Used(p, 6)
  {}

  lemma ReadServerHelloDoneAdvances(p: Plan, h: Hs, h1: Hs, answer: Answer)
    requires SideOk(p, h) && h.stage.ReadServerHelloDone? && h.wait.Ok? && Expected(p, h)
    requires h1 == Clean(h, ReadOne(h, ServerHelloDone, answer, SendClientCertificate))
    ensures Advances(p, h, h1)
  {
    hide Stands, SideOk, At, Used, EntryAt, Place, Expected, Advances;
    ReadServerHelloDoneStands(p, h);
    TakesOne(p, h, h1, answer, 6, ServerHelloDone, SendClientCertificate);
  }

  lemma SendClientCertificateStands(p: Plan, h: Hs)
    requires SideOk(p, h) && h.stage.SendClientCertificate? && h.wait.Ok?
    ensures Sends(p, h, 7, Certificate, SendClientKeyExchange)
    ensures Used(p, 7) == h.certRequest == p.CertRequest() && !h.server && (!p.hasCert ==> !At(p, SendClientKeyExchange).needsBuffer)
  {}

  lemma SendClientCertificateAdvances(p: Plan, h: Hs, h1: Hs, answer: Answer, n: nat)
    requires SideOk(p, h) && h.stage.SendClientCertificate? && h.wait.Ok?
    requires h1 == Clean(h, DoSendClientCertificate(h, p.hasCert, answer, n))
    ensures Advances(p, h, h1)
  {
    hide Stands, SideOk, At, Used, EntryAt, Place, Expected, Advances;
    SendClientCertificateStands(p, h);
    if !h.certRequest {
      PassesBy(p, h, h1, 7, SendClientKeyExchange);
    } else if !answer.Go? {
      Halts(p, h, h1, 7, SendClientKeyExchange);
    } else {
      SendsIt(p, h, h1, 7, Message(Certificate, Text(if p.hasCert then n + 1 else 0)), SendClientKeyExchange);
    }
  }

  lemma SendClientKeyExchangeStands(p: Plan, h: Hs)
    requires SideOk(p, h) && h.stage.SendClientKeyExchange? && h.wait.Ok?
    ensures Sends(p, h, 8, ClientKeyExchange, SendClientCertificateVerify)
    ensures Used(p, 8)
  {}

  lemma SendClientKeyExchangeAdvances(p: Plan, h: Hs, h1: Hs, answer: Answer, n: nat)
    requires SideOk(p, h) && h.stage.SendClientKeyExchange? && h.wait.Ok?
    requires h1 == Clean(h, DoSendClientKeyExchange(h, answer, n))
    ensures Advances(p, h, h1)
  {
    hide Stands, SideOk, At, Used, EntryAt, Place, Expected, Advances;
    SendClientKeyExchangeStands(p, h);
    if answer.Refuse? {
      Halts(p, h, h1, 8, SendClientCertificateVerify);
    } else {
      SendsIt(p, h, h1, 8, Message(ClientKeyExchange, Text(n)), SendClientCertificateVerify);
    }
  }

  lemma SendClientCertificateVerifyStands(p: Plan, h: Hs)
    requires SideOk(p, h) && h.stage.SendClientCertificateVerify? && h.wait.Ok?
    ensures Sends(p, h, 9, CertificateVerify, SendClientFinished)
    ensures Used(p, 9) == (h.certRequest && p.hasCert) && !h.server && !At(p, SendClientFinished).needsBuffer
    ensures h.transcript.hash.Some? && (Used(p, 9) ==> h.transcript.buffer == h.transcript.hash)
  {}

  lemma SendClientCertificateVerifyAdvances(p: Plan, h: Hs, h1: Hs, answer: Answer)
    requires SideOk(p, h) && h.stage.SendClientCertificateVerify? && h.wait.Ok?
    requires h1 == Clean(h, DoSendClientCertificateVerify(h, p.hasCert, answer))
    ensures Advances(p, h, h1)
  {
    hide Stands, SideOk, At, Used, EntryAt, Place, Expected, Advances;
    SendClientCertificateVerifyStands(p, h);
    if !h.certRequest || !p.hasCert {
      PassesBy(p, h, h1, 9, SendClientFinished);
    } else if !answer.Go? {
      Halts(p, h, h1, 9, SendClientFinished);
    } else {
      SendsIt(p, h, h1, 9, Message(CertificateVerify, Signature(Log(h))), SendClientFinished);
    }
  }

  // ---- The last flights ----

  lemma FinishFlightAdvances(p: Plan, h: Hs, h1: Hs)
    requires SideOk(p, h) && h.stage.FinishFlight? && h.wait.Ok?
    requires h1 == Clean(h, DoFinishFlight(h))
    ensures Advances(p, h, h1)
  {
    EnterFollows(p, h, h1, if p.resumed then FinishClientHandshake else ReadSessionTicket);
  }

  lemma AwaitsServerCcs(p: Plan, h: Hs, h1: Hs)
    requires SideOk(p, h) && h.wait.Ok? && h.stage.ReadSessionTicket?
    requires h1 == h.(stage := ProcessServerChangeCipherSpec, wait := NeedCcs, inbox := h1.inbox, transcript := h1.transcript)
    requires h1.transcript.hash.Some? && (h1.transcript.buffer.Some? ==> h1.transcript.buffer == h1.transcript.hash)
    ensures SideOk(p, h1) && NextEpoch(h1) == NextEpoch(h) && h.flight == []
    ensures Place(p, h) == ServerLast(p) && Place(p, h1) == ServerLast(p) + 1
  {
    assert At(p, h.stage) == Spot(ServerLast(p), false, false, true, false);
    assert At(p, h1.stage) == Spot(ServerLast(p) + 1, false, false, true, false);
  }

  lemma TicketTaken(p: Plan, h: Hs, h1: Hs)
    requires SideOk(p, h) && h.stage.ReadSessionTicket? && h.wait.Ok? && Expected(p, h) && h.inbox != [] && p.ticket
    requires h1 == Took(h, ProcessServerChangeCipherSpec).(wait := NeedCcs)
    ensures Advances(p, h, h1)
  {
    hide From, Advances, Expected;
    AwaitsServerCcs(p, h, h1);
    TakesTo(p, h, h1, ProcessServerChangeCipherSpec, ServerLast(p));
  }

  lemma NoTicket(p: Plan, h: Hs, h1: Hs)
    requires SideOk(p, h) && h.stage.ReadSessionTicket? && h.wait.Ok? && !p.ticket
    requires h1 == Enter(h, ProcessServerChangeCipherSpec).(wait := NeedCcs)
    ensures Advances(p, h, h1)
  {
    AwaitsServerCcs(p, h, h1);
    StaysAdvances(p, h, h1);
  }

  lemma TicketIs(p: Plan, h: Hs)
    requires SideOk(p, h) && h.stage.ReadSessionTicket? && h.wait.Ok?
    ensures h.neg.ticket == p.ticket
  {}

  lemma AwaitsTicket(p: Plan, h: Hs, h1: Hs)
    requires SideOk(p, h) && h.stage.ReadSessionTicket? && h.wait.Ok? && p.ticket && h.inbox == [] && h1 == Await(h, NeedMessage)
    ensures Advances(p, h, h1)
  {
    Awaits(p, h, h1, ServerLast(p));
  }

  lemma TicketComes(p: Plan, h: Hs)
    requires SideOk(p, h) && h.stage.ReadSessionTicket? && h.wait.Ok? && p.ticket && h.inbox != [] && Expected(p, h)
    ensures h.inbox[0].kind == NewSessionTicket
  {
    KindIs(p, h, ServerLast(p), NewSessionTicket);
  }

  lemma ReadSessionTicketAdvances(p: Plan, h: Hs, h1: Hs, answer: Answer)
    requires SideOk(p, h) && h.stage.ReadSessionTicket? && h.wait.Ok? && Expected(p, h)
    requires h1 == Clean(h, DoReadSessionTicket(h, answer))
    ensures Advances(p, h, h1)
  {
    hide SideOk, Expected, Advances;
    TicketIs(p, h);
    if !p.ticket {
      NoTicket(p, h, h1);
    } else if h.inbox == [] {
      AwaitsTicket(p, h, h1);
    } else {
      TicketComes(p, h);
      if answer.Refuse? {
        assert h1 == Fail(h, Refused);
        Pauses(p, h, h1);
      } else {
        TicketTaken(p, h, h1);
      }
    }
  }

  lemma ReadChangeCipherSpecOk(p: Plan, h: Hs, h1: Hs)
    requires SideOk(p, h) && h.stage.ReadChangeCipherSpec? && h.wait.Ok?
    requires h1 == Enter(h, ProcessClientChangeCipherSpec).(wait := NeedCcs)
    ensures SideOk(p, h1) && Place(p, h1) == Place(p, h) && NextEpoch(h1) == NextEpoch(h)
  {
    assert At(p, h.stage) == Spot(ClientLast(p), true, false, true, false);
    assert At(p, h1.stage) == Spot(ClientLast(p), true, false, true, false);
  }

  lemma ReadChangeCipherSpecAdvances(p: Plan, h: Hs, h1: Hs)
    requires SideOk(p, h) && h.stage.ReadChangeCipherSpec? && h.wait.Ok?
    requires h1 == Enter(h, ProcessClientChangeCipherSpec).(wait := NeedCcs)
    ensures Advances(p, h, h1)
  {
    ReadChangeCipherSpecOk(p, h, h1);
    StaysAdvances(p, h, h1);
  }

  lemma ProcessServerChangeCipherSpecOk(p: Plan, h: Hs, h1: Hs)
    requires SideOk(p, h) && h.stage.ProcessServerChangeCipherSpec? && h.wait.Ok? && h.inbox == []
    requires h1 == ChangeRead(h, ReadServerFinished)
    ensures SideOk(p, h1) && Place(p, h1) == Place(p, h) && NextEpoch(h1) == NextEpoch(h)
  {
    assert At(p, h.stage) == Spot(ServerLast(p) + 1, false, false, true, false);
    assert At(p, h1.stage) == Spot(ServerLast(p) + 2, false, false, true, false);
  }

  lemma ProcessServerChangeCipherSpecAdvances(p: Plan, h: Hs, h1: Hs)
    requires SideOk(p, h) && h.stage.ProcessServerChangeCipherSpec? && h.wait.Ok? && h.inbox == []
    requires h1 == ChangeRead(h, ReadServerFinished)
    ensures Advances(p, h, h1)
  {
    ProcessServerChangeCipherSpecOk(p, h, h1);
    StaysAdvances(p, h, h1);
  }

  lemma ProcessClientChangeCipherSpecOk(p: Plan, h: Hs, h1: Hs)
    requires SideOk(p, h) && h.stage.ProcessClientChangeCipherSpec? && h.wait.Ok? && h.inbox == []
    requires h1 == ChangeRead(h, ReadNextProto)
    ensures SideOk(p, h1) && Place(p, h1) == Place(p, h) && NextEpoch(h1) == NextEpoch(h)
  {
    assert At(p, h.stage) == Spot(ClientLast(p), true, false, true, false);
    assert At(p, h1.stage) == Spot(ClientLast(p) + 1, true, false, true, false);
  }

  lemma ProcessClientChangeCipherSpecAdvances(p: Plan, h: Hs, h1: Hs)
    requires SideOk(p, h) && h.stage.ProcessClientChangeCipherSpec? && h.wait.Ok? && h.inbox == []
    requires h1 == ChangeRead(h, ReadNextProto)
    ensures Advances(p, h, h1)
  {
    ProcessClientChangeCipherSpecOk(p, h, h1);
    StaysAdvances(p, h, h1);
  }

  lemma ReadServerFinishedStands(p: Plan, h: Hs)
    requires SideOk(p, h) && h.stage.ReadServerFinished? && h.wait.Ok?
    ensures Takes(p, h, ServerLast(p) + 2, Finished, if p.resumed then SendClientFinished else FinishClientHandshake)
    ensures Used(p, ServerLast(p) + 2) && h.neg.resumed == p.resumed && !h.server && h.transcript.hash.Some?
  {}

  lemma ReadServerFinishedAdvances(p: Plan, h: Hs, h1: Hs)
    requires SideOk(p, h) && h.stage.ReadServerFinished? && h.wait.Ok? && Expected(p, h)
    requires h1 == Clean(h, GetFinished(h, if h.neg.resumed then SendClientFinished else FinishClientHandshake))
    ensures Advances(p, h, h1)
  {
    hide Stands, SideOk, At, Used, EntryAt, Place, Expected, Advances;
    ReadServerFinishedStands(p, h);
    var next := if p.resumed then SendClientFinished else FinishClientHandshake;
    if h.inbox == [] {
      Misses(p, h, h1, ServerLast(p) + 2, Finished, next);
    } else {
      Comes(p, h, ServerLast(p) + 2, Finished, next);
      TakesIt(p, h, h1, ServerLast(p) + 2, Finished, next);
    }
  }

  lemma ReadClientFinishedFullStands(p: Plan, h: Hs)
    requires SideOk(p, h) && h.stage.ReadClientFinished? && h.wait.Ok? && !p.resumed
    ensures Takes(p, h, ClientLast(p) + 3, Finished, SendServerFinished)
    ensures Used(p, ClientLast(p) + 3) && h.neg.resumed == p.resumed && h.server && h.transcript.hash.Some?
  {}

  lemma ReadClientFinishedResumedStands(p: Plan, h: Hs)
    requires SideOk(p, h) && h.stage.ReadClientFinished? && h.wait.Ok? && p.resumed
    ensures Takes(p, h, ClientLast(p) + 3, Finished, FinishServerHandshake)
    ensures Used(p, ClientLast(p) + 3) && h.neg.resumed == p.resumed && h.server && h.transcript.hash.Some?
  {}

  lemma ReadClientFinishedStands(p: Plan, h: Hs)
    requires SideOk(p, h) && h.stage.ReadClientFinished? && h.wait.Ok?
    ensures Takes(p, h, ClientLast(p) + 3, Finished, if p.resumed then FinishServerHandshake else SendServerFinished)
    ensures Used(p, ClientLast(p) + 3) && h.neg.resumed == p.resumed && h.server && h.transcript.hash.Some?
  {
    hide SideOk, Takes, Used;
    if p.resumed { ReadClientFinishedResumedStands(p, h); } else { ReadClientFinishedFullStands(p, h); }
  }

  lemma ReadClientFinishedAdvances(p: Plan, h: Hs, h1: Hs)
    requires SideOk(p, h) && h.stage.ReadClientFinished? && h.wait.Ok? && Expected(p, h)
    requires h1 == Clean(h, GetFinished(h, if h.neg.resumed then FinishServerHandshake else SendServerFinished))
    ensures Advances(p, h, h1)
  {
    hide Stands, SideOk, At, Used, EntryAt, Place, Expected, Advances;
    ReadClientFinishedStands(p, h);
    var next := if p.resumed then FinishServerHandshake else SendServerFinished;
    if h.inbox == [] {
      Misses(p, h, h1, ClientLast(p) + 3, Finished, next);
    } else {
      Comes(p, h, ClientLast(p) + 3, Finished, next);
      TakesIt(p, h, h1, ClientLast(p) + 3, Finished, next);
    }
  }

  lemma FinishClientHandshakeOk(p: Plan, h: Hs, h1: Hs)
    requires SideOk(p, h) && h.stage.FinishClientHandshake? && h.wait.Ok?
    requires h1 == Enter(h, Done)
    ensures SideOk(p, h1) && Place(p, h1) == Place(p, h) && NextEpoch(h1) == NextEpoch(h)
  {
    assert At(p, h.stage) == Spot(END, false, false, true, false);
    assert At(p, h1.stage) == Spot(END, false, false, true, false);
  }

  lemma FinishClientHandshakeAdvances(p: Plan, h: Hs, h1: Hs)
    requires SideOk(p, h) && h.stage.FinishClientHandshake? && h.wait.Ok?
    requires h1 == Enter(h, Done)
    ensures Advances(p, h, h1)
  {
    FinishClientHandshakeOk(p, h, h1);
    StaysAdvances(p, h, h1);
  }

  lemma FinishServerHandshakeOk(p: Plan, h: Hs, h1: Hs)
    requires SideOk(p, h) && h.stage.FinishServerHandshake? && h.wait.Ok?
    requires h1 == Enter(h, Done)
    ensures SideOk(p, h1) && Place(p, h1) == Place(p, h) && NextEpoch(h1) == NextEpoch(h)
  {
    assert At(p, h.stage) == Spot(END, true, false, true, false);
    assert At(p, h1.stage) == Spot(END, false, false, true, false);
  }

  lemma FinishServerHandshakeAdvances(p: Plan, h: Hs, h1: Hs)
    requires SideOk(p, h) && h.stage.FinishServerHandshake? && h.wait.Ok?
    requires h1 == Enter(h, Done)
    ensures Advances(p, h, h1)
  {
    FinishServerHandshakeOk(p, h, h1);
    StaysAdvances(p, h, h1);
  }

  // ---- The server ----

  lemma StartAcceptAdvances(p: Plan, h: Hs, h1: Hs)
    requires SideOk(p, h) && h.stage.StartAccept? && h.wait.Ok?
    requires h1 == Enter(h, ReadClientHello)
    ensures Advances(p, h, h1)
  {
    EnterSame(p, h, h1, ReadClientHello);
  }

  lemma AwaitsClientHello(p: Plan, h: Hs, h1: Hs)
    requires SideOk(p, h) && (h.stage.ReadClientHello? || h.stage.SelectCertificate? || h.stage.SelectParameters?)
    requires h.wait.Ok? && h.inbox == [] && h1 == Await(h, NeedMessage)
    ensures Advances(p, h, h1)
  {
    Awaits(p, h, h1, 0);
  }

  lemma ClientHelloComes(p: Plan, h: Hs)
    requires SideOk(p, h) && h.stage.ReadClientHello? && h.wait.Ok? && h.inbox != [] && Expected(p, h)
    ensures h.inbox[0].kind == ClientHello
  {
    KindIs(p, h, 0, ClientHello);
  }

  lemma ClientHelloGoes(p: Plan, h: Hs, h1: Hs, next: Stage)
    requires SideOk(p, h) && (h.stage.ReadClientHello? || h.stage.SelectCertificate?) && h.wait.Ok?
    requires h1 == Enter(h, next) && (next == SelectCertificate || next == SelectParameters)
    ensures Advances(p, h, h1)
  {
    hide SideOk, Advances;
    EnterSame(p, h, h1, next);
  }

  lemma ReadClientHelloAdvances(p: Plan, h: Hs, h1: Hs, answer: Answer)
    requires SideOk(p, h) && h.stage.ReadClientHello? && h.wait.Ok? && Expected(p, h)
    requires h1 == Clean(h, DoReadClientHello(h, answer))
    ensures Advances(p, h, h1)
  {
    hide SideOk, Expected, Advances;
    if h.inbox == [] {
      AwaitsClientHello(p, h, h1);
    } else {
      ClientHelloComes(p, h);
      if answer.Go? {
        assert h1 == Enter(h, SelectCertificate);
        ClientHelloGoes(p, h, h1, SelectCertificate);
      } else {
        assert h1 == Await(h, h1.wait);
        Pauses(p, h, h1);
      }
    }
  }

  lemma SelectCertificateAdvances(p: Plan, h: Hs, h1: Hs, answer: Answer)
    requires SideOk(p, h) && h.stage.SelectCertificate? && h.wait.Ok?
    requires h1 == Clean(h, DoSelectCertificate(h, answer))
    ensures Advances(p, h, h1)
  {
    hide SideOk, Advances;
    if h.inbox == [] {
      AwaitsClientHello(p, h, h1);
    } else if !answer.Go? {
      assert h1 == Await(h, h1.wait);
      Pauses(p, h, h1);
    } else {
      assert h1 == Enter(h, SelectParameters);
      ClientHelloGoes(p, h, h1, SelectParameters);
    }
  }

  lemma EnteredClientVerify(p: Plan, h: Hs, h1: Hs)
    requires SideOk(p, h) && h.stage.VerifyClientCertificate? && h.wait.Ok? && h1 == Enter(h, ReadClientKeyExchange)
    ensures Advances(p, h, h1)
  {
    EnterFollows(p, h, h1, ReadClientKeyExchange);
  }

  lemma VerifyClientCertificateAdvances(p: Plan, h: Hs, h1: Hs, answer: Answer)
    requires SideOk(p, h) && h.stage.VerifyClientCertificate? && h.wait.Ok?
    requires h1 == Clean(h, DoVerifyClientCertificate(h, answer))
    ensures Advances(p, h, h1)
  {
    hide SideOk, Advances;
    if !h.peerKey || answer.Go? {
      EnteredClientVerify(p, h, h1);
    } else {
      assert h1 == Await(h, h1.wait);
      Pauses(p, h, h1);
    }
  }

  lemma ReadClientKeyExchangeStands(p: Plan, h: Hs)
    requires SideOk(p, h) && h.stage.ReadClientKeyExchange? && h.wait.Ok?
    ensures Takes(p, h, 8, ClientKeyExchange, ReadClientCertificateVerify)
    ensures Used(p, 8)
  {}

  lemma ReadClientKeyExchangeAdvances(p: Plan, h: Hs, h1: Hs, answer: Answer)
    requires SideOk(p, h) && h.stage.ReadClientKeyExchange? && h.wait.Ok? && Expected(p, h)
    requires h1 == Clean(h, DoReadClientKeyExchange(h, answer))
    ensures Advances(p, h, h1)
  {
    hide Stands, SideOk, At, Used, EntryAt, Place, Expected, Advances;
    ReadClientKeyExchangeStands(p, h);
    if h.inbox == [] {
      Misses(p, h, h1, 8, ClientKeyExchange, ReadClientCertificateVerify);
    } else {
      Comes(p, h, 8, ClientKeyExchange, ReadClientCertificateVerify);
      if answer.Refuse? || (h.neg.certAuth && !h.neg.ecdhe && answer.Retry?) {
        Halts(p, h, h1, 8, ReadClientCertificateVerify);
      } else {
        TakesIt(p, h, h1, 8, ClientKeyExchange, ReadClientCertificateVerify);
      }
    }
  }

  lemma ReadClientCertificateVerifyStands(p: Plan, h: Hs)
    requires SideOk(p, h) && h.stage.ReadClientCertificateVerify? && h.wait.Ok?
    ensures Takes(p, h, 9, CertificateVerify, ReadChangeCipherSpec)
    ensures Used(p, 9) == h.peerKey && h.server && !At(p, ReadChangeCipherSpec).needsBuffer
    ensures h.transcript.hash.Some? && (h.peerKey ==> h.transcript.buffer == h.transcript.hash)
  {}

  lemma ReadClientCertificateVerifyAdvances(p: Plan, h: Hs, h1: Hs, answer: Answer)
    requires SideOk(p, h) && h.stage.ReadClientCertificateVerify? && h.wait.Ok? && Expected(p, h)
    requires h1 == Clean(h, DoReadClientCertificateVerify(h, answer))
    ensures Advances(p, h, h1)
  {
    hide Stands, SideOk, At, Used, EntryAt, Place, Expected, Advances;
    ReadClientCertificateVerifyStands(p, h);
    if !h.peerKey {
      PassesBy(p, h, h1, 9, ReadChangeCipherSpec);
    } else if h.inbox == [] {
      Misses(p, h, h1, 9, CertificateVerify, ReadChangeCipherSpec);
    } else {
      Comes(p, h, 9, CertificateVerify, ReadChangeCipherSpec);
      if answer.Refuse? {
        Halts(p, h, h1, 9, ReadChangeCipherSpec);
      } else {
        TakesIt(p, h, h1, 9, CertificateVerify, ReadChangeCipherSpec);
      }
    }
  }

  lemma ReadNextProtoStands(p: Plan, h: Hs)
    requires SideOk(p, h) && h.stage.ReadNextProto? && h.wait.Ok?
    ensures Takes(p, h, ClientLast(p) + 1, NextProto, ReadChannelId)
    ensures Used(p, ClientLast(p) + 1) == h.neg.nextProto
  {}

  lemma ReadNextProtoAdvances(p: Plan, h: Hs, h1: Hs, answer: Answer)
    requires SideOk(p, h) && h.stage.ReadNextProto? && h.wait.Ok? && Expected(p, h)
    requires h1 == Clean(h, DoReadNextProto(h, answer))
    ensures Advances(p, h, h1)
  {
    hide Stands, SideOk, At, Used, EntryAt, Place, Expected, Advances;
    ReadNextProtoStands(p, h);
    if h.neg.nextProto {
      TakesOne(p, h, h1, answer, ClientLast(p) + 1, NextProto, ReadChannelId);
    } else {
      PassesBy(p, h, h1, ClientLast(p) + 1, ReadChannelId);
    }
  }

  lemma ReadChannelIdStands(p: Plan, h: Hs)
    requires SideOk(p, h) && h.stage.ReadChannelId? && h.wait.Ok?
    ensures Takes(p, h, ClientLast(p) + 2, ChannelId, ReadClientFinished)
    ensures Used(p, ClientLast(p) + 2) == h.neg.channelId && h.server && h.transcript.hash.Some?
  {}

  lemma ReadChannelIdAdvances(p: Plan, h: Hs, h1: Hs, answer: Answer)
    requires SideOk(p, h) && h.stage.ReadChannelId? && h.wait.Ok? && Expected(p, h)
    requires h1 == Clean(h, DoReadChannelId(h, answer))
    ensures Advances(p, h, h1)
  {
    hide Stands, SideOk, At, Used, EntryAt, Place, Expected, Advances;
    ReadChannelIdStands(p, h);
    var k := ClientLast(p) + 2;
    if !h.neg.channelId {
      PassesBy(p, h, h1, k, ReadClientFinished);
    } else if h.inbox == [] {
      Misses(p, h, h1, k, ChannelId, ReadClientFinished);
    } else {
      Comes(p, h, k, ChannelId, ReadClientFinished);
      if answer.Refuse? { Halts(p, h, h1, k, ReadClientFinished); } else { TakesIt(p, h, h1, k, ChannelId, ReadClientFinished); }
    }
  }

  /** The message that decides the server's parameters. */
  lemma ClientHelloTakenOk(p: Plan, h: Hs, h1: Hs)
    requires SideOk(p, h) && h.stage.SelectParameters? && h.wait.Ok? && h.inbox != []
    requires h1 == h.(stage := SendServerHello, neg := p.Outcome().(channelId := p.channelIdOffered), certRequest := p.CertRequest(),
                      inbox := h.inbox[1..], transcript := h1.transcript)
    requires h1.transcript.hash == Some(h.transcript.buffer.value + [h.inbox[0]])
    requires h1.transcript.buffer == if p.CertRequest() then h1.transcript.hash else None
    ensures SideOk(p, h1)
  {
    assert At(p, h.stage) == Spot(0, true, false, false, true);
    assert At(p, h1.stage) == Spot(1, true, true, true, p.CertRequest());
  }

  lemma ClientHelloTaken(p: Plan, h: Hs, h1: Hs)
    requires SideOk(p, h) && h.stage.SelectParameters? && h.wait.Ok? && Expected(p, h) && h.inbox != []
    requires h1 == h.(stage := SendServerHello, neg := p.Outcome().(channelId := p.channelIdOffered), certRequest := p.CertRequest(),
                      inbox := h.inbox[1..], transcript := h1.transcript)
    requires h1.transcript.hash == Some(h.transcript.buffer.value + [h.inbox[0]])
    requires h1.transcript.buffer == if p.CertRequest() then h1.transcript.hash else None
    ensures Advances(p, h, h1)
  {
    hide From, Advances, Expected;
    ClientHelloTakenOk(p, h, h1);
    TakesTo(p, h, h1, SendServerHello, 0);
  }

  lemma SelectParametersIs(p: Plan, h: Hs)
    requires SideOk(p, h) && h.stage.SelectParameters? && h.wait.Ok?
    ensures h.transcript.buffer.Some?
  {}

  lemma SelectParametersAdvances(p: Plan, h: Hs, h1: Hs, answer: Answer)
    requires SideOk(p, h) && h.stage.SelectParameters? && h.wait.Ok? && Expected(p, h)
    requires h1 == Clean(h, DoSelectParameters(h, p, answer))
    ensures Advances(p, h, h1)
  {
    hide SideOk, Expected, Advances;
    SelectParametersIs(p, h);
    if h.inbox == [] {
      AwaitsClientHello(p, h, h1);
    } else if !answer.Go? {
      assert h1 == Await(h, h1.wait);
      Pauses(p, h, h1);
    } else {
      ClientHelloTaken(p, h, h1);
    }
  }

  lemma ServerHelloSentOk(p: Plan, h: Hs, h1: Hs, m: Message)
    requires SideOk(p, h) && h.stage.SendServerHello? && h.wait.Ok? && m == Message(ServerHello, Hello(p.Outcome()))
    requires h1 == h.(stage := if p.resumed then SendServerFinished else SendServerCertificate, neg := p.Outcome(),
                      flight := h.flight + [Item(h.writeEpoch, Hand(m))], transcript := h.transcript.Update(m))
    ensures SideOk(p, h1)
  {
    assert At(p, h.stage) == Spot(1, true, true, true, p.CertRequest());
    assert At(p, h1.stage) == if p.resumed then Spot(ServerLast(p), true, true, true, false) else Spot(2, true, true, true, p.CertRequest());
  }

  lemma ServerHelloSent(p: Plan, h: Hs, h1: Hs, m: Message)
    requires SideOk(p, h) && h.stage.SendServerHello? && h.wait.Ok? && m == Message(ServerHello, Hello(p.Outcome()))
    requires h1 == h.(stage := if p.resumed then SendServerFinished else SendServerCertificate, neg := p.Outcome(),
                      flight := h.flight + [Item(h.writeEpoch, Hand(m))], transcript := h.transcript.Update(m))
    ensures Advances(p, h, h1)
  {
    hide From, WaitOk, KnowsPlan;
    ServerHelloSentOk(p, h, h1, m);
    assert At(p, h.stage) == Spot(1, true, true, true, p.CertRequest());
    if p.resumed { SkipUnused(p, 2, 10); }
    FromUsed(p, 1);
    WritesAdvances(p, h, h1, m);
  }

  lemma ServerHelloIs(p: Plan, h: Hs)
    requires SideOk(p, h) && h.stage.SendServerHello? && h.wait.Ok?
    ensures h.neg == p.Outcome().(channelId := p.channelIdOffered)
  {}

  lemma SendServerHelloAdvances(p: Plan, h: Hs, h1: Hs, answer: Answer)
    requires SideOk(p, h) && h.stage.SendServerHello? && h.wait.Ok?
    requires h1 == Clean(h, DoSendServerHello(h, p, answer))
    ensures Advances(p, h, h1)
  {
    hide SideOk, Advances;
    ServerHelloIs(p, h);
    if answer.Refuse? {
      assert h1 == Fail(h, Refused);
      Pauses(p, h, h1);
    } else {
      ServerHelloSent(p, h, h1, Message(ServerHello, Hello(p.Outcome())));
    }
  }

  lemma ServerCertificateSentOk(p: Plan, h: Hs, h2: Hs, h3: Hs)
    requires SideOk(p, h) && h.stage.SendServerCertificate? && h.wait.Ok?
    requires h2 == h.(flight := h2.flight, transcript := h2.transcript, writeEpoch := h2.writeEpoch)
    requires h2.transcript.hash.Some? && (h.transcript.buffer.Some? ==> h2.transcript.buffer == h2.transcript.hash)
    requires h2.transcript.buffer.Some? == h.transcript.buffer.Some?
    requires h3 == h2.(stage := SendServerKeyExchange, serverParams := p.SendsKeyExchange())
    ensures SideOk(p, h3)
  {
    assert At(p, h.stage) == Spot(2, true, true, true, p.CertRequest());
    assert At(p, h3.stage) == Spot(4, true, true, true, p.CertRequest());
  }

  lemma ServerCertificateSent(p: Plan, h: Hs, h2: Hs, h3: Hs)
    requires SideOk(p, h) && h.stage.SendServerCertificate? && h.wait.Ok?
    requires Building(p, h, h2, 2, 4)
    requires h3 == h2.(stage := SendServerKeyExchange, serverParams := p.SendsKeyExchange())
    ensures Advances(p, h, h3)
  {
    hide From, WaitOk, KnowsPlan;
    ServerCertificateSentOk(p, h, h2, h3);
    assert At(p, h.stage) == Spot(2, true, true, true, p.CertRequest());
    SendsTo(p, h, h2, h3, SendServerKeyExchange, 2, 4);
  }

  lemma ServerCertificateBuilt(p: Plan, h: Hs, n: nat) returns (h1: Hs, h2: Hs)
    requires h.transcript.hash.Some? && h.server && !p.resumed
    ensures h1 == PutIf(p.certAuth, h, Message(Certificate, Text(n + 1)))
    ensures h2 == PutIf(p.certAuth && p.status, h1, Message(CertificateStatus, Text(n))) && Building(p, h, h2, 2, 4)
  {
    var certificate, status := Message(Certificate, Text(n + 1)), Message(CertificateStatus, Text(n));
    assert Used(p, 2) == p.certAuth && EntryAt(p, 2) == Entry(true, Of(Certificate));
    assert Used(p, 3) == (p.certAuth && p.status) && EntryAt(p, 3) == Entry(true, Of(CertificateStatus));
    BuildStart(p, h, 2);
    BuildIf(p, h, h, 2, 2, p.certAuth, certificate);
    h1 := PutIf(p.certAuth, h, certificate);
    BuildIf(p, h, h1, 2, 3, p.certAuth && p.status, status);
    h2 := PutIf(p.certAuth && p.status, h1, status);
  }

  lemma ServerCertificateGoes(p: Plan, h: Hs, h1: Hs, answer: Answer, n: nat)
    requires SideOk(p, h) && h.stage.SendServerCertificate? && h.wait.Ok? && !answer.Refuse?
    requires h1 == Clean(h, DoSendServerCertificate(h, p, answer, n))
    ensures Advances(p, h, h1)
  {
    var _, h2 := ServerCertificateBuilt(p, h, n);
    ServerCertificateSent(p, h, h2, h1);
  }

  lemma SendServerCertificateAdvances(p: Plan, h: Hs, h1: Hs, answer: Answer, n: nat)
    requires SideOk(p, h) && h.stage.SendServerCertificate? && h.wait.Ok?
    requires h1 == Clean(h, DoSendServerCertificate(h, p, answer, n))
    ensures Advances(p, h, h1)
  {
    if answer.Refuse? {
      assert h1 == Await(h, h1.wait);
      Pauses(p, h, h1);
    } else {
      ServerCertificateGoes(p, h, h1, answer, n);
    }
  }

  lemma SendServerKeyExchangeStands(p: Plan, h: Hs)
    requires SideOk(p, h) && h.stage.SendServerKeyExchange? && h.wait.Ok?
    ensures Sends(p, h, 4, ServerKeyExchange, SendServerHelloDone)
    ensures Used(p, 4) == h.serverParams
  {}

  lemma SendServerKeyExchangeAdvances(p: Plan, h: Hs, h1: Hs, answer: Answer, n: nat)
    requires SideOk(p, h) && h.stage.SendServerKeyExchange? && h.wait.Ok?
    requires h1 == Clean(h, DoSendServerKeyExchange(h, answer, n))
    ensures Advances(p, h, h1)
  {
    hide Stands, SideOk, At, Used, EntryAt, Place, Expected, Advances;
    SendServerKeyExchangeStands(p, h);
    if !h.serverParams {
      PassesBy(p, h, h1, 4, SendServerHelloDone);
    } else if answer.Refuse? || (h.neg.certAuth && answer.Retry?) {
      Halts(p, h, h1, 4, SendServerHelloDone);
    } else {
      SendsIt(p, h, h1, 4, Message(ServerKeyExchange, Text(n)), SendServerHelloDone);
    }
  }

  lemma ServerHelloDoneSentOk(p: Plan, h: Hs, h2: Hs, h3: Hs)
    requires SideOk(p, h) && h.stage.SendServerHelloDone? && h.wait.Ok?
    requires h2 == h.(flight := h2.flight, transcript := h2.transcript, writeEpoch := h2.writeEpoch)
    requires h2.transcript.hash.Some? && (h.transcript.buffer.Some? ==> h2.transcript.buffer == h2.transcript.hash)
    requires h2.transcript.buffer.Some? == h.transcript.buffer.Some?
    requires h3 == h2.(stage := ReadClientCertificate, wait := Flush)
    ensures SideOk(p, h3)
  {
    assert At(p, h.stage) == Spot(5, true, true, true, p.CertRequest());
    assert At(p, h3.stage) == Spot(7, true, false, true, p.CertRequest());
  }

  lemma ServerHelloDoneSent(p: Plan, h: Hs, h2: Hs, h3: Hs)
    requires SideOk(p, h) && h.stage.SendServerHelloDone? && h.wait.Ok?
    requires Building(p, h, h2, 5, 7)
    requires h3 == h2.(stage := ReadClientCertificate, wait := Flush)
    ensures Advances(p, h, h3)
  {
    hide From, WaitOk, KnowsPlan;
    ServerHelloDoneSentOk(p, h, h2, h3);
    assert At(p, h.stage) == Spot(5, true, true, true, p.CertRequest());
    SendsTo(p, h, h2, h3, ReadClientCertificate, 5, 7);
  }

  lemma ServerHelloDoneBuilt(p: Plan, h: Hs, n: nat) returns (h1: Hs, h2: Hs)
    requires h.transcript.hash.Some? && h.server && !p.resumed
    ensures h1 == PutIf(p.CertRequest(), h, Message(CertificateRequest, Text(n)))
    ensures h2 == Put(h1, Message(ServerHelloDone, Text(0))) && Building(p, h, h2, 5, 7)
  {
    hide From, Advances, Expected;
    var request, done := Message(CertificateRequest, Text(n)), Message(ServerHelloDone, Text(0));
    assert Used(p, 5) == p.CertRequest() && EntryAt(p, 5) == Entry(true, Of(CertificateRequest));
    assert Used(p, 6) && EntryAt(p, 6) == Entry(true, Of(ServerHelloDone));
    BuildStart(p, h, 5);
    BuildIf(p, h, h, 5, 5, p.CertRequest(), request);
    h1 := PutIf(p.CertRequest(), h, request);
    BuildMessage(p, h, h1, 5, 6, done);
    h2 := Put(h1, done);
  }

  lemma ServerHelloDoneGoes(p: Plan, h: Hs, h1: Hs, answer: Answer, n: nat)
    requires SideOk(p, h) && h.stage.SendServerHelloDone? && h.wait.Ok? && !answer.Refuse?
    requires h1 == Clean(h, DoSendServerHelloDone(h, answer, n))
    ensures Advances(p, h, h1)
  {
    assert At(p, h.stage) == Spot(5, true, true, true, p.CertRequest());
    assert h.certRequest == p.CertRequest();
    var _, h2 := ServerHelloDoneBuilt(p, h, n);
    assert h1 == h2.(stage := ReadClientCertificate, wait := Flush);
    ServerHelloDoneSent(p, h, h2, h1);
  }

  lemma SendServerHelloDoneAdvances(p: Plan, h: Hs, h1: Hs, answer: Answer, n: nat)
    requires SideOk(p, h) && h.stage.SendServerHelloDone? && h.wait.Ok?
    requires h1 == Clean(h, DoSendServerHelloDone(h, answer, n))
    ensures Advances(p, h, h1)
  {
    if answer.Refuse? {
      assert h1 == Await(h, h1.wait);
      Pauses(p, h, h1);
    } else {
      ServerHelloDoneGoes(p, h, h1, answer, n);
    }
  }

  lemma ClientCertificateTakenOk(p: Plan, h: Hs, h1: Hs)
    requires SideOk(p, h) && h.stage.ReadClientCertificate? && h.wait.Ok? && h.inbox != [] && p.CertRequest()
    requires h1 == h.(stage := VerifyClientCertificate, peerKey := p.hasCert, inbox := h.inbox[1..], transcript := h1.transcript)
    requires Kept(p, h.transcript.Update(h.inbox[0]), h1.transcript, VerifyClientCertificate)
    ensures SideOk(p, h1)
  {
    assert At(p, h.stage) == Spot(7, true, false, true, p.CertRequest());
    assert At(p, h1.stage) == Spot(8, true, false, true, p.CertRequest() && p.hasCert);
  }

  lemma ClientCertificateTaken(p: Plan, h: Hs, h1: Hs)
    requires SideOk(p, h) && h.stage.ReadClientCertificate? && h.wait.Ok? && Expected(p, h) && h.inbox != [] && p.CertRequest()
    requires h1 == h.(stage := VerifyClientCertificate, peerKey := p.hasCert, inbox := h.inbox[1..], transcript := h1.transcript)
    requires Kept(p, h.transcript.Update(h.inbox[0]), h1.transcript, VerifyClientCertificate)
    ensures Advances(p, h, h1)
  {
    hide From, Advances, Expected;
    ClientCertificateTakenOk(p, h, h1);
    TakesTo(p, h, h1, VerifyClientCertificate, 7);
  }

  lemma ClientCertificateResult(p: Plan, h: Hs, h1: Hs, answer: Answer)
    requires h.inbox != [] && h.inbox[0].kind == Certificate && Honest(p, false, Log(h), h.inbox[0])
    requires h.certRequest && !answer.Refuse? && h1 == DoReadClientCertificate(h, answer)
    ensures h1 == h.(stage := VerifyClientCertificate, wait := Ok, peerKey := p.hasCert, inbox := h.inbox[1..], transcript := h1.transcript)
    ensures h1.transcript == if p.hasCert then h.transcript.Update(h.inbox[0]) else h.transcript.Update(h.inbox[0]).FreeBuffer()
  {}

  lemma ReadClientCertificateIs(p: Plan, h: Hs)
    requires SideOk(p, h) && h.stage.ReadClientCertificate? && h.wait.Ok?
    ensures h.certRequest == p.CertRequest() && h.server && h.transcript.hash.Some?
    ensures !p.hasCert ==> !At(p, VerifyClientCertificate).needsBuffer
  {}

  lemma NoClientCertificate(p: Plan, h: Hs, h1: Hs)
    requires SideOk(p, h) && h.stage.ReadClientCertificate? && h.wait.Ok? && !p.CertRequest() && h1 == Enter(h, VerifyClientCertificate)
    ensures Advances(p, h, h1)
  {
    EnterFollows(p, h, h1, VerifyClientCertificate);
  }

  lemma AwaitsClientCertificate(p: Plan, h: Hs, h1: Hs)
    requires SideOk(p, h) && h.stage.ReadClientCertificate? && h.wait.Ok? && p.CertRequest() && h.inbox == [] && h1 == Await(h, NeedMessage)
    ensures Advances(p, h, h1)
  {
    Awaits(p, h, h1, 7);
  }

  lemma ClientCertificateComes(p: Plan, h: Hs)
    requires SideOk(p, h) && h.stage.ReadClientCertificate? && h.wait.Ok? && p.CertRequest() && h.inbox != [] && Expected(p, h)
    ensures h.inbox[0].kind == Certificate && Honest(p, false, Log(h), h.inbox[0])
  {
    KindIs(p, h, 7, Certificate);
  }

  lemma ReadClientCertificateAdvances(p: Plan, h: Hs, h1: Hs, answer: Answer)
    requires SideOk(p, h) && h.stage.ReadClientCertificate? && h.wait.Ok? && Expected(p, h)
    requires h1 == Clean(h, DoReadClientCertificate(h, answer))
    ensures Advances(p, h, h1)
  {
    hide SideOk, Expected, Advances, Honest, At, Log;
    ReadClientCertificateIs(p, h);
    if !h.certRequest {
      NoClientCertificate(p, h, h1);
    } else if h.inbox == [] {
      AwaitsClientCertificate(p, h, h1);
    } else {
      ClientCertificateComes(p, h);
      if answer.Refuse? {
        assert h1 == Fail(h, Refused);
        Pauses(p, h, h1);
      } else {
        ClientCertificateResult(p, h, h1, answer);
        ClientCertificateTaken(p, h, h1);
      }
    }
  }

  lemma ClientFinishedSentOk(p: Plan, h: Hs, h2: Hs, h3: Hs)
    requires SideOk(p, h) && h.stage.SendClientFinished? && h.wait.Ok?
    requires h2 == h.(flight := h2.flight, transcript := h2.transcript, writeEpoch := h2.writeEpoch)
    requires h2.transcript.hash.Some? && (h.transcript.buffer.Some? ==> h2.transcript.buffer == h2.transcript.hash)
    requires h2.transcript.buffer.Some? == h.transcript.buffer.Some?
    requires h3 == h2.(stage := FinishFlight, wait := Flush)
    ensures SideOk(p, h3)
  {
    assert At(p, h.stage) == Spot(ClientLast(p), false, true, true, false);
    assert At(p, h3.stage) == Spot(ClientLast(p) + 4, false, false, true, false);
  }

  lemma ClientFinishedSent(p: Plan, h: Hs, h2: Hs, h3: Hs)
    requires SideOk(p, h) && h.stage.SendClientFinished? && h.wait.Ok?
    requires Building(p, h, h2, ClientLast(p), ClientLast(p) + 4)
    requires h3 == h2.(stage := FinishFlight, wait := Flush)
    ensures Advances(p, h, h3)
  {
    ClientFinishedSentOk(p, h, h2, h3);
    SendsTo(p, h, h2, h3, FinishFlight, ClientLast(p), ClientLast(p) + 4);
  }

  lemma ClientLastPlaces(p: Plan)
    ensures var k := ClientLast(p);
            && Used(p, k) && EntryAt(p, k) == Entry(false, ChangeCipherSpec)
            && Used(p, k + 1) == p.nextProto && EntryAt(p, k + 1) == Entry(false, Of(NextProto))
            && Used(p, k + 2) == p.UsesChannelId() && EntryAt(p, k + 2) == Entry(false, Of(ChannelId))
            && Used(p, k + 3) && EntryAt(p, k + 3) == Entry(false, Of(Finished)) && k + 4 <= END
  {}

  lemma ClientFinishedBuilt(p: Plan, h: Hs, n: nat) returns (h1: Hs, h2: Hs, h3: Hs)
    requires h.transcript.hash.Some? && !h.server
    ensures h1 == PutIf(p.nextProto, PutCcs(h), Message(NextProto, Text(n)))
    ensures h2 == PutIf(p.UsesChannelId(), h1, Message(ChannelId, Signature(h1.transcript.HashOf())))
    ensures h3 == PutFinished(h2) && Building(p, h, h3, ClientLast(p), ClientLast(p) + 4)
  {
    hide Used, EntryAt, ClientLast, Building;
    ClientLastPlaces(p);
    var k := ClientLast(p);
    h1 := PutIf(p.nextProto, PutCcs(h), Message(NextProto, Text(n)));
    h2 := PutIf(p.UsesChannelId(), h1, Message(ChannelId, Signature(h1.transcript.HashOf())));
    h3 := PutFinished(h2);
    BuildStart(p, h, k);
    BuildCcs(p, h, h, k, k);
    BuildIf(p, h, PutCcs(h), k, k + 1, p.nextProto, Message(NextProto, Text(n)));
    BuildIf(p, h, h1, k, k + 2, p.UsesChannelId(), Message(ChannelId, Signature(h1.transcript.HashOf())));
    BuildMessage(p, h, h2, k, k + 3, Message(Finished, Mac(false, h2.transcript.HashOf())));
  }

  lemma ClientFinishedGoes(p: Plan, h: Hs, h1: Hs, answer: Answer, n: nat)
    requires SideOk(p, h) && h.stage.SendClientFinished? && h.wait.Ok? && !answer.Refuse? && !(p.UsesChannelId() && answer.Retry?)
    requires h1 == Clean(h, DoSendClientFinished(h, answer, n))
    ensures Advances(p, h, h1)
  {
    hide From, Advances, Expected;
    var _, _, h3 := ClientFinishedBuilt(p, h, n);
    ClientFinishedSent(p, h, h3, h1);
  }

  lemma SendClientFinishedAdvances(p: Plan, h: Hs, h1: Hs, answer: Answer, n: nat)
    requires SideOk(p, h) && h.stage.SendClientFinished? && h.wait.Ok?
    requires h1 == Clean(h, DoSendClientFinished(h, answer, n))
    ensures Advances(p, h, h1)
  {
    if answer.Refuse? || (p.UsesChannelId() && answer.Retry?) {
      assert h1 == Await(h, h1.wait);
      Pauses(p, h, h1);
    } else {
      ClientFinishedGoes(p, h, h1, answer, n);
    }
  }

  lemma ServerFinishedKnown(p: Plan, h: Hs)
    requires SideOk(p, h) && h.stage.SendServerFinished? && h.wait.Ok?
    ensures h.transcript.hash.Some? && (h.transcript.buffer.Some? ==> h.transcript.buffer == h.transcript.hash)
    ensures h.server && h.neg.ticket == p.ticket && h.neg.resumed == p.resumed && Place(p, h) == ServerLast(p)
  {}

  lemma ServerFinishedFullOk(p: Plan, h: Hs, h2: Hs, h3: Hs)
    requires SideOk(p, h) && h.stage.SendServerFinished? && h.wait.Ok? && !p.resumed
    requires h2 == h.(flight := h2.flight, transcript := h2.transcript, writeEpoch := h2.writeEpoch)
    requires h2.transcript.hash.Some? && (h.transcript.buffer.Some? ==> h2.transcript.buffer == h2.transcript.hash)
    requires h2.transcript.buffer.Some? == h.transcript.buffer.Some?
    requires h3 == h2.(stage := FinishServerHandshake, wait := Flush)
    ensures SideOk(p, h3)
  {
    assert At(p, h.stage) == Spot(14, true, true, true, false);
    assert At(p, h3.stage) == Spot(END, true, false, true, false);
  }

  lemma ServerFinishedResumedOk(p: Plan, h: Hs, h2: Hs, h3: Hs)
    requires SideOk(p, h) && h.stage.SendServerFinished? && h.wait.Ok? && p.resumed
    requires h2 == h.(flight := h2.flight, transcript := h2.transcript, writeEpoch := h2.writeEpoch)
    requires h2.transcript.hash.Some? && (h.transcript.buffer.Some? ==> h2.transcript.buffer == h2.transcript.hash)
    requires h2.transcript.buffer.Some? == h.transcript.buffer.Some?
    requires h3 == h2.(stage := ReadChangeCipherSpec, wait := Flush)
    ensures SideOk(p, h3)
  {
    assert At(p, h.stage) == Spot(10, true, true, true, false);
    assert At(p, h3.stage) == Spot(13, true, false, true, false);
  }

  lemma ServerFinishedSentOk(p: Plan, h: Hs, h2: Hs, h3: Hs)
    requires SideOk(p, h) && h.stage.SendServerFinished? && h.wait.Ok?
    requires h2 == h.(flight := h2.flight, transcript := h2.transcript, writeEpoch := h2.writeEpoch)
    requires h2.transcript.hash.Some? && (h.transcript.buffer.Some? ==> h2.transcript.buffer == h2.transcript.hash)
    requires h2.transcript.buffer.Some? == h.transcript.buffer.Some?
    requires h3 == h2.(stage := if p.resumed then ReadChangeCipherSpec else FinishServerHandshake, wait := Flush)
    ensures SideOk(p, h3)
  {
    hide SideOk;
    if p.resumed { ServerFinishedResumedOk(p, h, h2, h3); } else { ServerFinishedFullOk(p, h, h2, h3); }
  }

  lemma ServerFinishedJoins(p: Plan)
    ensures Joins(p, ServerLast(p) + 3, At(p, if p.resumed then ReadChangeCipherSpec else FinishServerHandshake).place)
  {}

  lemma ServerFinishedSent(p: Plan, h: Hs, h2: Hs, h3: Hs)
    requires SideOk(p, h) && h.stage.SendServerFinished? && h.wait.Ok?
    requires Building(p, h, h2, ServerLast(p), ServerLast(p) + 3)
    requires h3 == h2.(stage := if p.resumed then ReadChangeCipherSpec else FinishServerHandshake, wait := Flush)
    ensures Advances(p, h, h3)
  {
    hide SideOk, Advances, ServerLast, At, Place;
    ServerFinishedKnown(p, h);
    ServerFinishedJoins(p);
    ServerFinishedSentOk(p, h, h2, h3);
    SendsTo(p, h, h2, h3, if p.resumed then ReadChangeCipherSpec else FinishServerHandshake, ServerLast(p), ServerLast(p) + 3);
  }

  lemma ServerLastPlaces(p: Plan)
    ensures var k := ServerLast(p);
            && Used(p, k) == p.ticket && EntryAt(p, k) == Entry(true, Of(NewSessionTicket))
            && Used(p, k + 1) && EntryAt(p, k + 1) == Entry(true, ChangeCipherSpec)
            && Used(p, k + 2) && EntryAt(p, k + 2) == Entry(true, Of(Finished)) && k + 3 <= END
  {}

  lemma ServerFinishedBuilt(p: Plan, h: Hs, n: nat) returns (h1: Hs, h2: Hs)
    requires h.transcript.hash.Some? && h.server
    ensures h1 == PutCcs(PutIf(p.ticket, h, Message(NewSessionTicket, Text(n + 1))))
    ensures h2 == PutFinished(h1) && Building(p, h, h2, ServerLast(p), ServerLast(p) + 3)
  {
    hide Used, EntryAt, ServerLast, Building;
    ServerLastPlaces(p);
    var k := ServerLast(p);
    var ticket := Message(NewSessionTicket, Text(n + 1));
    BuildStart(p, h, k);
    BuildIf(p, h, h, k, k, p.ticket, ticket);
    BuildCcs(p, h, PutIf(p.ticket, h, ticket), k, k + 1);
    h1 := PutCcs(PutIf(p.ticket, h, ticket));
    BuildMessage(p, h, h1, k, k + 2, Message(Finished, Mac(true, h1.transcript.HashOf())));
    h2 := PutFinished(h1);
  }

  lemma ServerFinishedIs(p: Plan, h: Hs, h1: Hs, answer: Answer, n: nat) returns (h2: Hs)
    requires h.transcript.hash.Some? && h.server && h.neg.ticket == p.ticket && h.neg.resumed == p.resumed
    requires !answer.Refuse? && h1 == DoSendServerFinished(h, answer, n)
    ensures h1 == h2.(stage := if p.resumed then ReadChangeCipherSpec else FinishServerHandshake, wait := Flush)
    ensures Building(p, h, h2, ServerLast(p), ServerLast(p) + 3)
  {
    var _, h2' := ServerFinishedBuilt(p, h, n);
    h2 := h2';
  }

  lemma ServerFinishedClean(h: Hs, h1: Hs, answer: Answer, n: nat)
    requires !answer.Refuse? && h1 == Clean(h, DoSendServerFinished(h, answer, n))
    ensures h1 == DoSendServerFinished(h, answer, n)
  {}

  lemma ServerFinishedGoes(p: Plan, h: Hs, h1: Hs, answer: Answer, n: nat)
    requires SideOk(p, h) && h.stage.SendServerFinished? && h.wait.Ok? && !answer.Refuse?
    requires h1 == Clean(h, DoSendServerFinished(h, answer, n))
    ensures Advances(p, h, h1)
  {
    hide SideOk, Advances, Building, ServerLast, DoSendServerFinished;
    ServerFinishedKnown(p, h);
    ServerFinishedClean(h, h1, answer, n);
    var h2 := ServerFinishedIs(p, h, h1, answer, n);
    ServerFinishedSent(p, h, h2, h1);
  }

  lemma SendServerFinishedAdvances(p: Plan, h: Hs, h1: Hs, answer: Answer, n: nat)
    requires SideOk(p, h) && h.stage.SendServerFinished? && h.wait.Ok?
    requires h1 == Clean(h, DoSendServerFinished(h, answer, n))
    ensures Advances(p, h, h1)
  {
    if answer.Refuse? {
      assert h1 == Await(h, h1.wait);
      Pauses(p, h, h1);
    } else {
      ServerFinishedGoes(p, h, h1, answer, n);
    }
  }
}
