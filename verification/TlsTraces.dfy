/** Every state of a lone machine says and hears the right things. */
module TlsTraces {
  import opened Prelude
  import opened TlsHandshake
  import opened TlsAlone
  import opened TlsHistory
  import R = TlsRetry

  /** What a state settles comes after the places before it. */
  lemma SettlesFacts(h: Hs, h1: Hs, hasCert: bool, n: nat, status: bool, keys: bool, status1: bool, keys1: bool)
    requires Reached(h.stage, h.neg.resumed) == n && Reached(h.stage, h1.neg.resumed) == n && h1.server == h.server
    requires n >= 1 ==> h1.neg == h.neg.(channelId := h1.neg.channelId) || n == 1
    requires n >= 2 ==> h1.neg == h.neg && InPlace(h) && n <= 9
    requires n >= 4 ==> status1 == status
    requires n >= 5 ==> keys1 == keys
    requires n >= 6 ==> h1.certRequest == h.certRequest && n <= 9
    ensures Agree(h, FactsOf(h, hasCert, status, keys), FactsOf(h1, hasCert, status1, keys1))
  {
    hide UpTo, Reached;
    SameUpTo(FactsOf(h, hasCert, status, keys), FactsOf(h1, hasCert, status1, keys1), n);
  }

  lemma OptionalSettles(h: Hs, h1: Hs, status: bool, keys: bool, status1: bool, keys1: bool)
    requires h1.server == h.server && h1.neg == h.neg && Optional(h, status, keys)
    requires
      || (h.stage.ReadCertificateStatus? && h1.stage.VerifyServerCertificate? && (status1 ==> h.neg.status) && keys1 == keys)
      || (h.stage.ReadServerKeyExchange? && h1.stage.ReadCertificateRequest? && status1 == status
          && (h.neg.ecdhe ==> keys1) && (keys1 ==> h.neg.ecdhe || !h.neg.certAuth))
      || (h.stage.ReadCertificateRequest? && h1.stage.ReadServerHelloDone? && status1 == status && keys1 == keys)
    ensures Optional(h1, status1, keys1)
  {}

  lemma EarlyOptional(h: Hs, status: bool, keys: bool)
    requires h.stage.ReadServerCertificate? || (h.stage.ReadSessionTicket? && h.neg.resumed)
    ensures Optional(h, status, keys)
  {}

  lemma ServersOptional(h: Hs, status: bool, keys: bool)
    requires h.server
    ensures Optional(h, status, keys)
  {}

  lemma FailsTraced(h: Hs, h1: Hs, server: bool, hasCert: bool, log: seq<Said>, status: bool, keys: bool)
    requires h1.wait.Error?
    ensures Traced(h1, server, hasCert, log + Exchanged(h, h1), status, keys)
  {}

  lemma FactsAre(h: Hs, hasCert: bool, status: bool, keys: bool)
    ensures FactsOf(h, hasCert, status, keys).certAuth == h.neg.certAuth
             && FactsOf(h, hasCert, status, keys).status == status
  {}

  lemma SameFacts(h: Hs, h1: Hs, hasCert: bool, status: bool, keys: bool)
    requires Same(h, h1)
    ensures FactsOf(h1, hasCert, status, keys) == FactsOf(h, hasCert, status, keys)
  {}

  lemma BuiltKeeps(h: Hs, hx: Hs, said: seq<Said>)
    requires Built(h, hx, said)
    ensures hx.stage == h.stage && Same(h, hx)
  {}

  // ---- The client ----

  lemma StartConnectTraced(h: Hs, h1: Hs, server: bool, hasCert: bool, log: seq<Said>, status: bool, keys: bool,
                           answer: Answer,
                           n: nat)
    requires h.stage.StartConnect? && h.wait.Ok? && !h.server && Traced(h, server, hasCert, log, status, keys)
    requires Transcribes(h, Over(h))
    requires h1 == DoStartConnect(h, answer, n)
    ensures Traced(h1, server, hasCert, log + Exchanged(h, h1), status, keys)
  {
    hide UpTo, Part, Lines, Messages, AllRight, Keyed, InPlace, Optional, Exchanged, Reached, RightBehind, Traced,
         Moves, SentBy;
    var m := Message(ClientHello, Text(n));
    if !answer.Refuse? {
      SendsOne(h, h1, m, EnterEarlyData);
    }
    SaysTraced(h, h1, [Said(h.server, m)], server, hasCert, log, status, keys);
  }

  lemma EnterEarlyDataTraced(h: Hs, h1: Hs, server: bool, hasCert: bool, log: seq<Said>, status: bool, keys: bool)
    requires h.stage.EnterEarlyData? && h.wait.Ok? && !h.server && Traced(h, server, hasCert, log, status, keys)
    requires Transcribes(h, Over(h))
    requires h1 == Enter(h, ReadServerHello)
    ensures Traced(h1, server, hasCert, log + Exchanged(h, h1), status, keys)
  {
    hide UpTo, Part, Lines, Messages, AllRight, Keyed, InPlace, Optional, Exchanged, Reached, RightBehind, Traced,
         Moves, SentBy;
    EnterMoves(h, h1, ReadServerHello);
    SaysNothing([]);
    SaysTraced(h, h1, [], server, hasCert, log, status, keys);
  }

  lemma ReadServerHelloPlace(h: Hs, f: Facts)
    requires h.stage.ReadServerHello? && !h.server
    ensures forall resumed :: Reached(h.stage, resumed) == 1
    ensures Passing(f, h.stage) == [Line(true, ServerHello)]
  {}

  lemma ReadServerHelloSteps(h: Hs, h1: Hs, answer: Answer)
    requires h.stage.ReadServerHello? && h.wait.Ok? && !h.server && Transcribes(h, Over(h))
    requires h1 == DoReadServerHello(h, answer)
    ensures Reads(h, h1, true, ServerHello)
    ensures !h1.wait.Error? && h1 != Await(h, h1.wait) ==> (h1.server == h.server
             && (h1.stage.ReadServerCertificate? || h1.stage.ReadSessionTicket?)
            && (h1.neg.resumed <==> h1.stage.ReadSessionTicket?))
  {
    hide Moves;
    if h.inbox != [] && h.inbox[0].kind == ServerHello && !answer.Refuse? && h.inbox[0].body.Hello?
       && h.transcript.buffer.Some? {
      Takes(h, h1);
    }
  }

  lemma ReadServerHelloTraced(h: Hs, h1: Hs, server: bool, hasCert: bool, log: seq<Said>, status: bool, keys: bool,
                              answer: Answer)
    requires h.stage.ReadServerHello? && h.wait.Ok? && !h.server && Traced(h, server, hasCert, log, status, keys)
    requires Transcribes(h, Over(h))
    requires h1 == DoReadServerHello(h, answer)
    ensures Traced(h1, server, hasCert, log + Exchanged(h, h1), status, keys)
  {
    hide UpTo, Part, Lines, Messages, AllRight, Keyed, InPlace, Optional, Exchanged, Reached, RightBehind, Traced,
         Moves, Transcribes, Over, Kept, Passing, Leads, DoReadServerHello;
    ReadServerHelloPlace(h, FactsOf(h1, hasCert, status, keys));
    ReadServerHelloSteps(h, h1, answer);
    if h1.wait.Error? {
      FailsTraced(h, h1, server, hasCert, log, status, keys);
    } else if h1 == Await(h, h1.wait) {
      Waits(h, h1, server, hasCert, log, status, keys);
    } else {
      SettlesFacts(h, h1, hasCert, 1, status, keys, status, keys);
      EarlyOptional(h1, status, keys);
      HeardLine(h, ServerHello);
      Moved(h, h1, server, hasCert, log, [Said(!h.server, h.inbox[0])], status, keys, status, keys);
    }
  }

  lemma ReadServerCertificateSteps(h: Hs, h1: Hs, answer: Answer)
    requires h.stage.ReadServerCertificate? && h.wait.Ok? && !h.server && Transcribes(h, Over(h))
    requires Leads(h, ReadCertificateStatus)
    requires h1 == DoReadServerCertificate(h, answer)
    ensures Reads(h, h1, h.neg.certAuth, Certificate)
    ensures h1.wait.Error? || Same(h, h1)
  {
    hide Moves, Leads;
    if !h.neg.certAuth {
      EnterMoves(h, h1, ReadCertificateStatus);
    } else if h.inbox != [] && h.inbox[0].kind == Certificate && !answer.Refuse? && h.inbox[0].body != Text(0) {
      TookMoves(h, h1, ReadCertificateStatus);
    }
  }

  lemma ReadServerCertificateTraced(h: Hs, h1: Hs, server: bool, hasCert: bool, log: seq<Said>, status: bool, keys: bool,
                                    answer: Answer)
    requires h.stage.ReadServerCertificate? && h.wait.Ok? && !h.server && Traced(h, server, hasCert, log, status, keys)
    requires Transcribes(h, Over(h))
    requires h1 == DoReadServerCertificate(h, answer)
    ensures Traced(h1, server, hasCert, log + Exchanged(h, h1), status, keys)
  {
    hide Traced, Transcribes, Exchanged, Reads, Same, Over, Kept, DoReadServerCertificate;
    ReadServerCertificateSteps(h, h1, answer);
    ReadsTraced(h, h1, h.neg.certAuth, Certificate, server, hasCert, log, status, keys);
  }

  lemma ReadCertificateStatusPlace(h: Hs, f: Facts)
    requires h.stage.ReadCertificateStatus? && !h.server
    ensures Leads(h, VerifyServerCertificate)
    ensures forall resumed :: Reached(h.stage, resumed) == 3
    ensures Passing(f, h.stage) == One(f.status, true, CertificateStatus)
  {}

  lemma ReadCertificateStatusSteps(h: Hs, h1: Hs, answer: Answer)
    requires h.stage.ReadCertificateStatus? && h.wait.Ok? && !h.server && Transcribes(h, Over(h))
    requires Leads(h, VerifyServerCertificate)
    requires h1 == DoReadCertificateStatus(h, answer)
    ensures Reads(h, h1, |h1.inbox| < |h.inbox|, CertificateStatus)
    ensures !h1.wait.Error? && h1 != Await(h, h1.wait) ==> (Same(h, h1) && h1.stage.VerifyServerCertificate?
            && (|h1.inbox| < |h.inbox| ==> h.neg.status))
  {
    hide Moves, Leads;
    if !h.neg.status || (h.inbox != [] && h.inbox[0].kind != CertificateStatus) {
      EnterMoves(h, h1, VerifyServerCertificate);
    } else if h.inbox != [] && !answer.Refuse? {
      TookMoves(h, h1, VerifyServerCertificate);
    }
  }

  lemma ReadCertificateStatusTraced(h: Hs, h1: Hs, server: bool, hasCert: bool, log: seq<Said>, status: bool, keys: bool,
                                    answer: Answer) returns (status1: bool)
    requires h.stage.ReadCertificateStatus? && h.wait.Ok? && !h.server && Traced(h, server, hasCert, log, status, keys)
    requires Transcribes(h, Over(h))
    requires InPlace(h) && Optional(h, status, keys)
    requires h1 == DoReadCertificateStatus(h, answer)
    ensures Traced(h1, server, hasCert, log + Exchanged(h, h1), status1, keys)
  {
    hide UpTo, Part, Lines, Messages, AllRight, Keyed, InPlace, Optional, Exchanged, Reached, RightBehind, Traced,
         Moves, Transcribes, Over, Kept, Passing, Leads, DoReadCertificateStatus;
    status1 := if h1 == Await(h, h1.wait) then status else |h1.inbox| < |h.inbox|;
    ReadCertificateStatusPlace(h, FactsOf(h1, hasCert, status1, keys));
    ReadCertificateStatusSteps(h, h1, answer);
    if h1.wait.Error? {
      FailsTraced(h, h1, server, hasCert, log, status1, keys);
    } else if h1 == Await(h, h1.wait) {
      Waits(h, h1, server, hasCert, log, status, keys);
    } else {
      SettlesFacts(h, h1, hasCert, 3, status, keys, status1, keys);
      OptionalSettles(h, h1, status, keys, status1, keys);
      if |h1.inbox| < |h.inbox| {
        HeardLine(h, CertificateStatus);
        Moved(h, h1, server, hasCert, log, [Said(!h.server, h.inbox[0])], status, keys, status1, keys);
      } else {
        SaysNothing([]);
        Moved(h, h1, server, hasCert, log, [], status, keys, status1, keys);
      }
    }
  }

  lemma VerifyServerCertificateTraced(h: Hs, h1: Hs, server: bool, hasCert: bool, log: seq<Said>, status: bool, keys: bool,
                                      answer: Answer)
    requires h.stage.VerifyServerCertificate? && h.wait.Ok? && !h.server && Traced(h, server, hasCert, log, status, keys)
    requires Transcribes(h, Over(h))
    requires h1 == DoVerifyServerCertificate(h, answer)
    ensures Traced(h1, server, hasCert, log + Exchanged(h, h1), status, keys)
  {
    hide UpTo, Part, Lines, Messages, AllRight, Keyed, InPlace, Optional, Exchanged, Reached, RightBehind, Traced,
         Moves, SentBy;
    if !h.neg.certAuth || answer.Go? {
      EnterMoves(h, h1, ReadServerKeyExchange);
    }
    SaysNothing([]);
    SaysTraced(h, h1, [], server, hasCert, log, status, keys);
  }

  lemma ReadServerKeyExchangePlace(h: Hs, f: Facts)
    requires h.stage.ReadServerKeyExchange? && !h.server
    ensures Leads(h, ReadCertificateRequest)
    ensures forall resumed :: Reached(h.stage, resumed) == 4
    ensures Passing(f, h.stage) == One(f.keys, true, ServerKeyExchange)
  {}

  lemma ReadServerKeyExchangeSteps(h: Hs, h1: Hs, answer: Answer)
    requires h.stage.ReadServerKeyExchange? && h.wait.Ok? && !h.server && Transcribes(h, Over(h))
    requires Leads(h, ReadCertificateRequest)
    requires h1 == DoReadServerKeyExchange(h, answer)
    ensures Reads(h, h1, |h1.inbox| < |h.inbox|, ServerKeyExchange)
    ensures !h1.wait.Error? && h1 != Await(h, h1.wait) ==> (Same(h, h1) && h1.stage.ReadCertificateRequest?
            && (h.neg.ecdhe ==> |h1.inbox| < |h.inbox|) && (|h1.inbox| < |h.inbox| ==> h.neg.ecdhe || !h.neg.certAuth))
  {
    hide Moves, Leads;
    if h.inbox != [] && h.inbox[0].kind != ServerKeyExchange && !h.neg.ecdhe {
      EnterMoves(h, h1, ReadCertificateRequest);
    } else if h.inbox != [] && h.inbox[0].kind == ServerKeyExchange && !answer.Refuse?
               && (h.neg.ecdhe || !h.neg.certAuth) {
      TookMoves(h, h1, ReadCertificateRequest);
    }
  }

  lemma ReadServerKeyExchangeTraced(h: Hs, h1: Hs, server: bool, hasCert: bool, log: seq<Said>, status: bool, keys: bool,
                                    answer: Answer) returns (keys1: bool)
    requires h.stage.ReadServerKeyExchange? && h.wait.Ok? && !h.server && Traced(h, server, hasCert, log, status, keys)
    requires Transcribes(h, Over(h))
    requires InPlace(h) && Optional(h, status, keys)
    requires h1 == DoReadServerKeyExchange(h, answer)
    ensures Traced(h1, server, hasCert, log + Exchanged(h, h1), status, keys1)
  {
    hide UpTo, Part, Lines, Messages, AllRight, Keyed, InPlace, Optional, Exchanged, Reached, RightBehind, Traced,
         Moves, Transcribes, Over, Kept, Passing, Leads, DoReadServerKeyExchange;
    keys1 := if h1 == Await(h, h1.wait) then keys else |h1.inbox| < |h.inbox|;
    ReadServerKeyExchangePlace(h, FactsOf(h1, hasCert, status, keys1));
    ReadServerKeyExchangeSteps(h, h1, answer);
    if h1.wait.Error? {
      FailsTraced(h, h1, server, hasCert, log, status, keys1);
    } else if h1 == Await(h, h1.wait) {
      Waits(h, h1, server, hasCert, log, status, keys);
    } else {
      SettlesFacts(h, h1, hasCert, 4, status, keys, status, keys1);
      OptionalSettles(h, h1, status, keys, status, keys1);
      if |h1.inbox| < |h.inbox| {
        HeardLine(h, ServerKeyExchange);
        Moved(h, h1, server, hasCert, log, [Said(!h.server, h.inbox[0])], status, keys, status, keys1);
      } else {
        SaysNothing([]);
        Moved(h, h1, server, hasCert, log, [], status, keys, status, keys1);
      }
    }
  }

  lemma ReadCertificateRequestPlace(h: Hs, f: Facts)
    requires h.stage.ReadCertificateRequest? && !h.server
    ensures Leads(h, ReadServerHelloDone)
    ensures forall resumed :: Reached(h.stage, resumed) == 5
    ensures Passing(f, h.stage) == One(f.request, true, CertificateRequest)
  {}

  lemma ReadCertificateRequestSteps(h: Hs, h1: Hs, answer: Answer)
    requires h.stage.ReadCertificateRequest? && h.wait.Ok? && !h.server && Transcribes(h, Over(h))
    requires Leads(h, ReadServerHelloDone)
    requires !h.certRequest
    requires h1 == DoReadCertificateRequest(h, answer)
    ensures Reads(h, h1, h1.certRequest, CertificateRequest)
    ensures !h1.wait.Error? && h1 != Await(h, h1.wait) ==> (h1.server == h.server && h1.neg == h.neg
             && h1.stage.ReadServerHelloDone?)
  {
    hide Moves, Leads;
    if !h.neg.certAuth || (h.inbox != [] && h.inbox[0].kind == ServerHelloDone) {
      EnterMoves(h, h1, ReadServerHelloDone);
    } else if h.inbox != [] && h.inbox[0].kind == CertificateRequest && !answer.Refuse? {
      TookMoves(h, h1, ReadServerHelloDone);
    }
  }

  lemma ReadCertificateRequestTraced(h: Hs, h1: Hs, server: bool, hasCert: bool, log: seq<Said>, status: bool, keys: bool,
                                     answer: Answer)
    requires h.stage.ReadCertificateRequest? && h.wait.Ok? && !h.server && Traced(h, server, hasCert, log, status, keys)
    requires Transcribes(h, Over(h))
    requires !h.certRequest && InPlace(h) && Optional(h, status, keys)
    requires h1 == DoReadCertificateRequest(h, answer)
    ensures Traced(h1, server, hasCert, log + Exchanged(h, h1), status, keys)
  {
    hide UpTo, Part, Lines, Messages, AllRight, Keyed, InPlace, Optional, Exchanged, Reached, RightBehind, Traced,
         Moves, Transcribes, Over, Kept, Passing, Leads, DoReadCertificateRequest;
    ReadCertificateRequestPlace(h, FactsOf(h1, hasCert, status, keys));
    ReadCertificateRequestSteps(h, h1, answer);
    if h1.wait.Error? {
      FailsTraced(h, h1, server, hasCert, log, status, keys);
    } else if h1 == Await(h, h1.wait) {
      Waits(h, h1, server, hasCert, log, status, keys);
    } else {
      SettlesFacts(h, h1, hasCert, 5, status, keys, status, keys);
      OptionalSettles(h, h1, status, keys, status, keys);
      if h1.certRequest {
        HeardLine(h, CertificateRequest);
        Moved(h, h1, server, hasCert, log, [Said(!h.server, h.inbox[0])], status, keys, status, keys);
      } else {
        SaysNothing([]);
        Moved(h, h1, server, hasCert, log, [], status, keys, status, keys);
      }
    }
  }

  lemma ReadServerHelloDoneSteps(h: Hs, h1: Hs, answer: Answer)
    requires h.stage.ReadServerHelloDone? && h.wait.Ok? && !h.server && Transcribes(h, Over(h))
    requires Leads(h, SendClientCertificate)
    requires h1 == ReadOne(h, ServerHelloDone, answer, SendClientCertificate)
    ensures Reads(h, h1, true, ServerHelloDone)
    ensures h1.wait.Error? || Same(h, h1)
  {
    hide Moves, Leads;
    if h.inbox != [] && h.inbox[0].kind == ServerHelloDone && !answer.Refuse? {
      TookMoves(h, h1, SendClientCertificate);
    }
  }

  lemma ReadServerHelloDoneTraced(h: Hs, h1: Hs, server: bool, hasCert: bool, log: seq<Said>, status: bool, keys: bool,
                                  answer: Answer)
    requires h.stage.ReadServerHelloDone? && h.wait.Ok? && !h.server && Traced(h, server, hasCert, log, status, keys)
    requires Transcribes(h, Over(h))
    requires h1 == ReadOne(h, ServerHelloDone, answer, SendClientCertificate)
    ensures Traced(h1, server, hasCert, log + Exchanged(h, h1), status, keys)
  {
    hide Traced, Transcribes, Exchanged, Reads, Same, Over, Kept, ReadOne;
    ReadServerHelloDoneSteps(h, h1, answer);
    ReadsTraced(h, h1, true, ServerHelloDone, server, hasCert, log, status, keys);
  }

  lemma SendClientCertificateTraced(h: Hs, h1: Hs, server: bool, hasCert: bool, log: seq<Said>, status: bool, keys: bool,
                                    answer: Answer, n: nat)
    requires h.stage.SendClientCertificate? && h.wait.Ok? && !h.server && Traced(h, server, hasCert, log, status, keys)
    requires Transcribes(h, Over(h))
    requires h1 == DoSendClientCertificate(h, hasCert, answer, n)
    ensures Traced(h1, server, hasCert, log + Exchanged(h, h1), status, keys)
  {
    hide UpTo, Part, Lines, Messages, AllRight, Keyed, InPlace, Optional, Exchanged, Reached, RightBehind, Traced,
         Moves, SentBy;
    var m := Message(Certificate, Text(if hasCert then n + 1 else 0));
    if !h.certRequest {
      EnterMoves(h, h1, SendClientKeyExchange);
    } else if answer.Go? {
      SendsOne(h, h1, m, SendClientKeyExchange);
    }
    SaysNothing([]);
    SaysTraced(h, h1, if h.certRequest then [Said(h.server, m)] else [], server, hasCert, log, status, keys);
  }

  lemma SendClientKeyExchangeTraced(h: Hs, h1: Hs, server: bool, hasCert: bool, log: seq<Said>, status: bool, keys: bool,
                                    answer: Answer, n: nat)
    requires h.stage.SendClientKeyExchange? && h.wait.Ok? && !h.server && Traced(h, server, hasCert, log, status, keys)
    requires Transcribes(h, Over(h))
    requires h1 == DoSendClientKeyExchange(h, answer, n)
    ensures Traced(h1, server, hasCert, log + Exchanged(h, h1), status, keys)
  {
    hide UpTo, Part, Lines, Messages, AllRight, Keyed, InPlace, Optional, Exchanged, Reached, RightBehind, Traced,
         Moves, SentBy;
    var m := Message(ClientKeyExchange, Text(n));
    if !answer.Refuse? {
      SendsOne(h, h1, m, SendClientCertificateVerify);
    }
    SaysTraced(h, h1, [Said(h.server, m)], server, hasCert, log, status, keys);
  }

  lemma SendClientCertificateVerifyTraced(h: Hs, h1: Hs, server: bool, hasCert: bool, log: seq<Said>, status: bool,
                                          keys: bool,
                                          answer: Answer)
    requires h.stage.SendClientCertificateVerify? && h.wait.Ok? && !h.server && Traced(h, server, hasCert, log, status, keys)
    requires Transcribes(h, Over(h))
    requires h1 == DoSendClientCertificateVerify(h, hasCert, answer)
    ensures Traced(h1, server, hasCert, log + Exchanged(h, h1), status, keys)
  {
    hide UpTo, Part, Lines, Messages, AllRight, Keyed, InPlace, Optional, Exchanged, Reached, RightBehind, Traced,
         Moves, SentBy;
    var m := Message(CertificateVerify, Signature(Over(h)));
    if !h.certRequest || !hasCert {
      EnterMoves(h, h1, SendClientFinished);
    } else if h.transcript.buffer.Some? && answer.Go? {
      SendsOne(h, h1, m, SendClientFinished);
    }
    SaysNothing([]);
    SaysTraced(h, h1, if h.certRequest && hasCert then [Said(h.server, m)] else [], server, hasCert, log, status, keys);
  }

  lemma ClientFinishedSays(f: Facts, np: Message, id: Message, fin: Message)
    requires np.kind == NextProto && id.kind == ChannelId && fin.kind == Finished
    ensures var said1 := [] + if f.nextProto then [Said(false, np)] else [];
            var said2 := said1 + if f.channelId then [Said(false, id)] else [];
            Lines(said2 + [Said(false, fin)]) == Passing(f, SendClientFinished)
  {}

  lemma ClientFinishedBuilt(h: Hs, f: Facts, np: Message, id: Message) returns (said: seq<Said>)
    requires id == Message(ChannelId, Signature(PutIf(h.neg.nextProto, PutCcs(h), np).transcript.HashOf()))
    requires np.kind == NextProto && h.transcript.hash.Some? && !h.server && f.nextProto == h.neg.nextProto
    requires f.channelId == h.neg.channelId
    ensures var b := PutIf(h.neg.channelId, PutIf(h.neg.nextProto, PutCcs(h), np), id);
            Built(h, PutFinished(b), said) && PutFinished(b).writeEpoch == h.writeEpoch + 1
    ensures RightBehind(Over(h), said) && Lines(said) == Passing(f, SendClientFinished)
  {
    hide Lines, Messages, Passing, RightBehind, SentBy;
    var ms := Over(h);
    var a := PutIf(h.neg.nextProto, PutCcs(h), np);
    var b := PutIf(h.neg.channelId, a, id);
    var fin := Message(Finished, Mac(false, b.transcript.HashOf()));
    var said1 := [] + if h.neg.nextProto then [Said(false, np)] else [];
    var said2 := said1 + if h.neg.channelId then [Said(false, id)] else [];
    said := said2 + [Said(false, fin)];
    BuildsNothing(h);
    BuildsCcs(h, h, []);
    BuildsIf(h.neg.nextProto, h, PutCcs(h), [], np);
    BuildsIf(h.neg.channelId, h, a, said1, id);
    BuildsMessage(h, b, said2, fin);
    SaysNothing(ms);
    RightIf(h.neg.nextProto, ms, [], Said(false, np));
    RightIf(h.neg.channelId, ms, said1, Said(false, id));
    RightOn(ms, said2, Said(false, fin));
    ClientFinishedSays(f, np, id, fin);
  }

  lemma SendClientFinishedSteps(h: Hs, h1: Hs, f: Facts, answer: Answer, n: nat) returns (said: seq<Said>)
    requires h.stage.SendClientFinished? && h.wait.Ok? && !h.server && Transcribes(h, Over(h))
    requires f.nextProto == h.neg.nextProto && f.channelId == h.neg.channelId
    requires Leads(h, FinishFlight)
    requires h1 == DoSendClientFinished(h, answer, n)
    ensures Says(h, h1, said) && Lines(said) == Passing(f, h.stage)
    ensures h1.wait.Error? || (Same(h, h1) && (h1 == Await(h, h1.wait) || h1.stage != h.stage))
  {
    hide Messages, Lines, Exchanged, RightBehind, Moves, Built, Leads, Over, PutFinished, PutIf, PutCcs, Transcript.HashOf;
    var np := Message(NextProto, Text(n));
    var a := PutIf(h.neg.nextProto, PutCcs(h), np);
    var id := Message(ChannelId, Signature(a.transcript.HashOf()));
    said := ClientFinishedBuilt(h, f, np, id);
    BuiltKeeps(h, PutFinished(PutIf(h.neg.channelId, a, id)), said);
    if answer.Go? || (answer.Retry? && !h.neg.channelId) {
      Sends(h, PutFinished(PutIf(h.neg.channelId, a, id)), h1, FinishFlight, said);
    }
  }

  lemma SendClientFinishedTraced(h: Hs, h1: Hs, server: bool, hasCert: bool, log: seq<Said>, status: bool, keys: bool,
                                 answer: Answer, n: nat)
    requires h.stage.SendClientFinished? && h.wait.Ok? && !h.server && Traced(h, server, hasCert, log, status, keys)
    requires Transcribes(h, Over(h))
    requires h1 == DoSendClientFinished(h, answer, n)
    ensures Traced(h1, server, hasCert, log + Exchanged(h, h1), status, keys)
  {
    hide Traced, Transcribes, Exchanged, Says, Same, Over, Kept, Lines, Passing, DoSendClientFinished;
    var said := SendClientFinishedSteps(h, h1, FactsOf(h, hasCert, status, keys), answer, n);
    SaysTraced(h, h1, said, server, hasCert, log, status, keys);
  }

  lemma FinishFlightTraced(h: Hs, h1: Hs, server: bool, hasCert: bool, log: seq<Said>, status: bool, keys: bool)
    requires h.stage.FinishFlight? && h.wait.Ok? && !h.server && Traced(h, server, hasCert, log, status, keys)
    requires Transcribes(h, Over(h))
    requires h1 == DoFinishFlight(h)
    ensures Traced(h1, server, hasCert, log + Exchanged(h, h1), status, keys)
  {
    hide UpTo, Part, Lines, Messages, AllRight, Keyed, InPlace, Optional, Exchanged, Reached, RightBehind, Traced,
         Moves, SentBy;
    EnterMoves(h, h1, if h.neg.resumed then FinishClientHandshake else ReadSessionTicket);
    SaysNothing([]);
    SaysTraced(h, h1, [], server, hasCert, log, status, keys);
  }

  lemma ReadSessionTicketSteps(h: Hs, h1: Hs, answer: Answer)
    requires h.stage.ReadSessionTicket? && h.wait.Ok? && !h.server && Transcribes(h, Over(h))
    requires Leads(h, ProcessServerChangeCipherSpec)
    requires h1 == DoReadSessionTicket(h, answer)
    ensures Reads(h, h1, h.neg.ticket, NewSessionTicket)
    ensures h1.wait.Error? || Same(h, h1)
  {
    hide Moves, Leads;
    if !h.neg.ticket {
      EnterMoves(h, h1, ProcessServerChangeCipherSpec);
    } else if h.inbox != [] && h.inbox[0].kind == NewSessionTicket && !answer.Refuse? {
      TookMoves(h, h1, ProcessServerChangeCipherSpec);
    }
  }

  lemma ReadSessionTicketTraced(h: Hs, h1: Hs, server: bool, hasCert: bool, log: seq<Said>, status: bool, keys: bool,
                                answer: Answer)
    requires h.stage.ReadSessionTicket? && h.wait.Ok? && !h.server && Traced(h, server, hasCert, log, status, keys)
    requires Transcribes(h, Over(h))
    requires h1 == DoReadSessionTicket(h, answer)
    ensures Traced(h1, server, hasCert, log + Exchanged(h, h1), status, keys)
  {
    hide Traced, Transcribes, Exchanged, Reads, Same, Over, Kept, DoReadSessionTicket;
    ReadSessionTicketSteps(h, h1, answer);
    ReadsTraced(h, h1, h.neg.ticket, NewSessionTicket, server, hasCert, log, status, keys);
  }

  lemma ProcessServerChangeCipherSpecTraced(h: Hs, h1: Hs, server: bool, hasCert: bool, log: seq<Said>, status: bool,
                                            keys: bool)
    requires h.stage.ProcessServerChangeCipherSpec? && h.wait.Ok? && !h.server
             && Traced(h, server, hasCert, log, status, keys)
    requires Transcribes(h, Over(h))
    requires h1 == ChangeRead(h, ReadServerFinished)
    ensures Traced(h1, server, hasCert, log + Exchanged(h, h1), status, keys)
  {
    hide UpTo, Part, Lines, Messages, AllRight, Keyed, InPlace, Optional, Exchanged, Reached, RightBehind, Traced,
         Moves, SentBy;
    if h.inbox == [] {
      Idles(h, h1);
    }
    SaysNothing([]);
    SaysTraced(h, h1, [], server, hasCert, log, status, keys);
  }

  lemma ReadServerFinishedSteps(h: Hs, h1: Hs)
    requires h.stage.ReadServerFinished? && h.wait.Ok? && !h.server && Transcribes(h, Over(h))
    requires Leads(h, if h.neg.resumed then SendClientFinished else FinishClientHandshake)
    requires h1 == GetFinished(h, if h.neg.resumed then SendClientFinished else FinishClientHandshake)
    ensures Reads(h, h1, true, Finished)
    ensures h1.wait.Error? || Same(h, h1)
  {
    hide Moves, Leads;
    if h.inbox != [] && h.inbox[0].kind == Finished && GoodDigest(h) {
      TookMoves(h, h1, if h.neg.resumed then SendClientFinished else FinishClientHandshake);
    }
  }

  lemma ReadServerFinishedTraced(h: Hs, h1: Hs, server: bool, hasCert: bool, log: seq<Said>, status: bool, keys: bool)
    requires h.stage.ReadServerFinished? && h.wait.Ok? && !h.server && Traced(h, server, hasCert, log, status, keys)
    requires Transcribes(h, Over(h))
    requires h1 == GetFinished(h, if h.neg.resumed then SendClientFinished else FinishClientHandshake)
    ensures Traced(h1, server, hasCert, log + Exchanged(h, h1), status, keys)
  {
    hide Traced, Transcribes, Exchanged, Reads, Same, Over, Kept, GetFinished;
    ReadServerFinishedSteps(h, h1);
    ReadsTraced(h, h1, true, Finished, server, hasCert, log, status, keys);
  }

  lemma FinishClientHandshakeTraced(h: Hs, h1: Hs, server: bool, hasCert: bool, log: seq<Said>, status: bool, keys: bool)
    requires h.stage.FinishClientHandshake? && h.wait.Ok? && !h.server && Traced(h, server, hasCert, log, status, keys)
    requires Transcribes(h, Over(h))
    requires h1 == Enter(h, Done)
    ensures Traced(h1, server, hasCert, log + Exchanged(h, h1), status, keys)
  {
    hide UpTo, Part, Lines, Messages, AllRight, Keyed, InPlace, Optional, Exchanged, Reached, RightBehind, Traced,
         Moves, SentBy;
    EnterMoves(h, h1, Done);
    SaysNothing([]);
    SaysTraced(h, h1, [], server, hasCert, log, status, keys);
  }

  // ---- The server ----

  lemma StartAcceptTraced(h: Hs, h1: Hs, server: bool, hasCert: bool, log: seq<Said>, status: bool, keys: bool)
    requires h.stage.StartAccept? && h.wait.Ok? && h.server && Traced(h, server, hasCert, log, status, keys)
    requires Transcribes(h, Over(h))
    requires h1 == Enter(h, ReadClientHello)
    ensures Traced(h1, server, hasCert, log + Exchanged(h, h1), status, keys)
  {
    hide UpTo, Part, Lines, Messages, AllRight, Keyed, InPlace, Optional, Exchanged, Reached, RightBehind, Traced,
         Moves, SentBy;
    EnterMoves(h, h1, ReadClientHello);
    SaysNothing([]);
    SaysTraced(h, h1, [], server, hasCert, log, status, keys);
  }

  lemma ReadClientHelloTraced(h: Hs, h1: Hs, server: bool, hasCert: bool, log: seq<Said>, status: bool, keys: bool,
                              answer: Answer)
    requires h.stage.ReadClientHello? && h.wait.Ok? && h.server && Traced(h, server, hasCert, log, status, keys)
    requires Transcribes(h, Over(h))
    requires h1 == DoReadClientHello(h, answer)
    ensures Traced(h1, server, hasCert, log + Exchanged(h, h1), status, keys)
  {
    hide UpTo, Part, Lines, Messages, AllRight, Keyed, InPlace, Optional, Exchanged, Reached, RightBehind, Traced,
         Moves, SentBy;
    if h.inbox != [] && h.inbox[0].kind == ClientHello && answer.Go? {
      EnterMoves(h, h1, SelectCertificate);
    }
    SaysNothing([]);
    SaysTraced(h, h1, [], server, hasCert, log, status, keys);
  }

  lemma SelectCertificateTraced(h: Hs, h1: Hs, server: bool, hasCert: bool, log: seq<Said>, status: bool, keys: bool,
                                answer: Answer)
    requires h.stage.SelectCertificate? && h.wait.Ok? && h.server && Traced(h, server, hasCert, log, status, keys)
    requires Transcribes(h, Over(h))
    requires InPlace(h)
    requires h1 == DoSelectCertificate(h, answer)
    ensures Traced(h1, server, hasCert, log + Exchanged(h, h1), status, keys)
  {
    hide UpTo, Part, Lines, Messages, AllRight, Keyed, Optional, Exchanged, Reached, RightBehind, Traced, Moves, SentBy;
    if answer.Go? {
      EnterMoves(h, h1, SelectParameters);
    }
    SaysNothing([]);
    SaysTraced(h, h1, [], server, hasCert, log, status, keys);
  }

  lemma SelectParametersPlace(h: Hs, f: Facts)
    requires h.stage.SelectParameters? && h.server
    ensures forall resumed :: Reached(h.stage, resumed) == 0
    ensures Passing(f, h.stage) == [Line(false, ClientHello)]
  {}

  lemma SelectParametersSteps(h: Hs, h1: Hs, answer: Answer, plan: Plan)
    requires h.stage.SelectParameters? && h.wait.Ok? && h.server && Transcribes(h, Over(h))
    requires InPlace(h)
    requires h1 == DoSelectParameters(h, plan, answer)
    ensures Reads(h, h1, true, ClientHello)
    ensures !h1.wait.Error? && h1 != Await(h, h1.wait) ==> (h1.server == h.server)
  {
    hide Moves, Over, R.ClientNext;
    if answer.Go? && h.transcript.buffer.Some? {
      Takes(h, h1);
    }
  }

  lemma SelectParametersTraced(h: Hs, h1: Hs, server: bool, hasCert: bool, log: seq<Said>, status: bool, keys: bool,
                               answer: Answer, plan: Plan)
    requires h.stage.SelectParameters? && h.wait.Ok? && h.server && Traced(h, server, hasCert, log, status, keys)
    requires Transcribes(h, Over(h))
    requires InPlace(h)
    requires h1 == DoSelectParameters(h, plan, answer)
    ensures Traced(h1, server, hasCert, log + Exchanged(h, h1), status, keys)
  {
    hide UpTo, Part, Lines, Messages, AllRight, Keyed, InPlace, Optional, Exchanged, Reached, RightBehind, Traced,
         Moves, Transcribes, Over, Kept, Passing, Leads, DoSelectParameters;
    SelectParametersPlace(h, FactsOf(h1, hasCert, status, keys));
    SelectParametersSteps(h, h1, answer, plan);
    if h1.wait.Error? {
      FailsTraced(h, h1, server, hasCert, log, status, keys);
    } else if h1 == Await(h, h1.wait) {
      Waits(h, h1, server, hasCert, log, status, keys);
    } else {
      SettlesFacts(h, h1, hasCert, 0, status, keys, status, keys);
      ServersOptional(h1, status, keys);
      HeardLine(h, ClientHello);
      Moved(h, h1, server, hasCert, log, [Said(!h.server, h.inbox[0])], status, keys, status, keys);
    }
  }

  lemma SendServerHelloPlace(h: Hs, f: Facts)
    requires h.stage.SendServerHello? && h.server
    ensures Leads(h, if h.neg.resumed then SendServerFinished else SendServerCertificate)
    ensures forall resumed :: Reached(h.stage, resumed) == 1
    ensures Passing(f, h.stage) == [Line(true, ServerHello)]
  {}

  lemma SendServerHelloTraced(h: Hs, h1: Hs, server: bool, hasCert: bool, log: seq<Said>, status: bool, keys: bool,
                              answer: Answer,
                              plan: Plan)
    requires h.stage.SendServerHello? && h.wait.Ok? && h.server && Traced(h, server, hasCert, log, status, keys)
    requires Transcribes(h, Over(h))
    requires h1 == DoSendServerHello(h, plan, answer)
    ensures Traced(h1, server, hasCert, log + Exchanged(h, h1), status, keys)
  {
    hide UpTo, Part, Lines, Messages, AllRight, Keyed, InPlace, Optional, Exchanged, Reached, RightBehind, Traced,
         Moves, Passing, Leads;
    SendServerHelloPlace(h, FactsOf(h1, hasCert, status, keys));
    if answer.Refuse? {
      FailsTraced(h, h1, server, hasCert, log, status, keys);
    } else {
      var m := Message(ServerHello, Hello(h1.neg));
      ServersOptional(h1, status, keys);
      SendsOne(h, h1, m, if h.neg.resumed then SendServerFinished else SendServerCertificate);
      SettlesFacts(h, h1, hasCert, 1, status, keys, status, keys);
      Moved(h, h1, server, hasCert, log, [Said(true, m)], status, keys, status, keys);
    }
  }

  lemma CertificateSays(f: Facts, c: Message, s: Message)
    requires c.kind == Certificate && s.kind == CertificateStatus
    ensures var said1 := [] + if f.certAuth then [Said(true, c)] else [];
            Lines(said1 + if f.status then [Said(true, s)] else []) == Passing(f, SendServerCertificate)
  {}

  lemma CertificateBuilt(h: Hs, f: Facts, c: Message, s: Message) returns (said: seq<Said>)
    requires c.kind == Certificate && c.body != Text(0) && s.kind == CertificateStatus && h.server
    requires f.certAuth == h.neg.certAuth && f.status == (h.neg.certAuth && h.neg.status)
    ensures Built(h, PutIf(h.neg.certAuth && h.neg.status, PutIf(h.neg.certAuth, h, c), s), said)
    ensures PutIf(h.neg.certAuth && h.neg.status, PutIf(h.neg.certAuth, h, c), s).writeEpoch == h.writeEpoch
    ensures RightBehind(Over(h), said) && Lines(said) == Passing(f, SendServerCertificate)
  {
    hide Lines, Messages, Passing, RightBehind, SentBy;
    var ms := Over(h);
    var said1 := [] + if h.neg.certAuth then [Said(true, c)] else [];
    said := said1 + if f.status then [Said(true, s)] else [];
    BuildsNothing(h);
    BuildsIf(h.neg.certAuth, h, h, [], c);
    BuildsIf(f.status, h, PutIf(h.neg.certAuth, h, c), said1, s);
    SaysNothing(ms);
    RightIf(h.neg.certAuth, ms, [], Said(true, c));
    RightIf(f.status, ms, said1, Said(true, s));
    CertificateSays(f, c, s);
  }

  lemma SendServerCertificatePlace(h: Hs, f: Facts)
    requires h.stage.SendServerCertificate? && h.server
    ensures Leads(h, SendServerKeyExchange)
    ensures forall resumed :: Reached(h.stage, resumed) == 2
  {}

  lemma SendServerCertificateSteps(h: Hs, h1: Hs, f: Facts, answer: Answer, n: nat,
                                   plan: Plan) returns (said: seq<Said>)
    requires h.stage.SendServerCertificate? && h.wait.Ok? && h.server && Transcribes(h, Over(h))
    requires f.certAuth == h.neg.certAuth && f.status == (h.neg.certAuth && h.neg.status)
    requires Leads(h, SendServerKeyExchange)
    requires h1 == DoSendServerCertificate(h, plan, answer, n)
    ensures Says(h, h1, said) && Lines(said) == Passing(f, h.stage)
    ensures h1.wait.Error? || (Same(h, h1) && (h1 == Await(h, h1.wait) || h1.stage != h.stage))
  {
    hide Messages, Lines, Exchanged, RightBehind, Moves, Built, Leads, Over, PutFinished, PutIf, PutCcs, Transcript.HashOf;
    var c, s := Message(Certificate, Text(n + 1)), Message(CertificateStatus, Text(n));
    said := CertificateBuilt(h, f, c, s);
    BuiltKeeps(h, PutIf(h.neg.certAuth && h.neg.status, PutIf(h.neg.certAuth, h, c), s), said);
    if !answer.Refuse? {
      Sends(h, PutIf(h.neg.certAuth && h.neg.status, PutIf(h.neg.certAuth, h, c), s), h1, SendServerKeyExchange, said);
    }
  }

  lemma SendServerCertificateGoes(h: Hs, h1: Hs, answer: Answer, n: nat, plan: Plan)
    requires h.stage.SendServerCertificate? && h1 == DoSendServerCertificate(h, plan, answer, n)
    ensures h1.wait.Error? || h1.stage.SendServerKeyExchange?
  {}

  lemma SendServerCertificateTraced(h: Hs, h1: Hs, server: bool, hasCert: bool, log: seq<Said>, status: bool, keys: bool,
                                    answer: Answer, n: nat, plan: Plan) returns (status1: bool)
    requires h.stage.SendServerCertificate? && h.wait.Ok? && h.server && Traced(h, server, hasCert, log, status, keys)
    requires Transcribes(h, Over(h))
    requires InPlace(h)
    requires h1 == DoSendServerCertificate(h, plan, answer, n)
    ensures Traced(h1, server, hasCert, log + Exchanged(h, h1), status1, keys)
  {
    hide UpTo, Part, Lines, Messages, AllRight, Keyed, InPlace, Optional, Exchanged, Reached, RightBehind, Traced,
         Moves, Transcribes, Over, Kept, Passing, Leads, FactsOf, DoSendServerCertificate;
    status1 := h.neg.certAuth && h.neg.status;
    var f1 := FactsOf(h, hasCert, status1, keys);
    FactsAre(h, hasCert, status1, keys);
    SendServerCertificatePlace(h, f1);
    var said := SendServerCertificateSteps(h, h1, f1, answer, n, plan);
    SendServerCertificateGoes(h, h1, answer, n, plan);
    if h1.wait.Error? {
      FailsTraced(h, h1, server, hasCert, log, status1, keys);
    } else {
      SameFacts(h, h1, hasCert, status1, keys);
      SettlesFacts(h, h1, hasCert, 2, status, keys, status1, keys);
      ServersOptional(h1, status1, keys);
      Moved(h, h1, server, hasCert, log, said, status, keys, status1, keys);
    }
  }

  lemma SendServerKeyExchangePlace(h: Hs, f: Facts)
    requires h.stage.SendServerKeyExchange? && h.server
    ensures Leads(h, SendServerHelloDone)
    ensures forall resumed :: Reached(h.stage, resumed) == 4
    ensures Passing(f, h.stage) == One(f.keys, true, ServerKeyExchange)
  {}

  lemma SendServerKeyExchangeTraced(h: Hs, h1: Hs, server: bool, hasCert: bool, log: seq<Said>, status: bool, keys: bool,
                                    answer: Answer, n: nat) returns (keys1: bool)
    requires h.stage.SendServerKeyExchange? && h.wait.Ok? && h.server && Traced(h, server, hasCert, log, status, keys)
    requires Transcribes(h, Over(h))
    requires InPlace(h)
    requires h1 == DoSendServerKeyExchange(h, answer, n)
    ensures Traced(h1, server, hasCert, log + Exchanged(h, h1), status, keys1)
  {
    hide UpTo, Part, Lines, Messages, AllRight, Keyed, InPlace, Optional, Exchanged, Reached, RightBehind, Traced,
         Moves, Passing, Leads;
    var m := Message(ServerKeyExchange, Text(n));
    keys1 := if h1.stage == h.stage then keys else h.serverParams;
    SendServerKeyExchangePlace(h, FactsOf(h1, hasCert, status, keys1));
    ServersOptional(h1, status, keys1);
    if !h.serverParams {
      EnterMoves(h, h1, SendServerHelloDone);
      SettlesFacts(h, h1, hasCert, 4, status, keys, status, keys1);
      SaysNothing([]);
      Moved(h, h1, server, hasCert, log, [], status, keys, status, keys1);
    } else if answer.Refuse? {
      FailsTraced(h, h1, server, hasCert, log, status, keys1);
    } else if h.neg.certAuth && answer.Retry? {
      Waits(h, h1, server, hasCert, log, status, keys);
    } else {
      SendsOne(h, h1, m, SendServerHelloDone);
      SettlesFacts(h, h1, hasCert, 4, status, keys, status, keys1);
      Moved(h, h1, server, hasCert, log, [Said(true, m)], status, keys, status, keys1);
    }
  }

  lemma HelloDoneSays(f: Facts, q: Message, d: Message)
    requires q.kind == CertificateRequest && d.kind == ServerHelloDone
    ensures var said1 := [] + if f.request then [Said(true, q)] else [];
            Lines(said1 + [Said(true, d)]) == Passing(f, SendServerHelloDone)
  {}

  lemma HelloDoneBuilt(h: Hs, f: Facts, q: Message, d: Message) returns (said: seq<Said>)
    requires q.kind == CertificateRequest && d.kind == ServerHelloDone && h.server && f.request == h.certRequest
    ensures Built(h, Put(PutIf(h.certRequest, h, q), d), said)
    ensures Put(PutIf(h.certRequest, h, q), d).writeEpoch == h.writeEpoch
    ensures RightBehind(Over(h), said) && Lines(said) == Passing(f, SendServerHelloDone)
  {
    hide Lines, Messages, Passing, RightBehind, SentBy;
    var ms := Over(h);
    var said1 := [] + if h.certRequest then [Said(true, q)] else [];
    said := said1 + [Said(true, d)];
    BuildsNothing(h);
    BuildsIf(h.certRequest, h, h, [], q);
    BuildsMessage(h, PutIf(h.certRequest, h, q), said1, d);
    SaysNothing(ms);
    RightIf(h.certRequest, ms, [], Said(true, q));
    RightOn(ms, said1, Said(true, d));
    HelloDoneSays(f, q, d);
  }

  lemma SendServerHelloDoneSteps(h: Hs, h1: Hs, f: Facts, answer: Answer, n: nat) returns (said: seq<Said>)
    requires h.stage.SendServerHelloDone? && h.wait.Ok? && h.server && Transcribes(h, Over(h))
    requires f.request == h.certRequest
    requires Leads(h, ReadClientCertificate)
    requires h1 == DoSendServerHelloDone(h, answer, n)
    ensures Says(h, h1, said) && Lines(said) == Passing(f, h.stage)
    ensures h1.wait.Error? || (Same(h, h1) && (h1 == Await(h, h1.wait) || h1.stage != h.stage))
  {
    hide Messages, Lines, Exchanged, RightBehind, Moves, Built, Leads, Over, PutFinished, PutIf, PutCcs, Transcript.HashOf;
    var q, d := Message(CertificateRequest, Text(n)), Message(ServerHelloDone, Text(0));
    said := HelloDoneBuilt(h, f, q, d);
    BuiltKeeps(h, Put(PutIf(h.certRequest, h, q), d), said);
    if !answer.Refuse? {
      Sends(h, Put(PutIf(h.certRequest, h, q), d), h1, ReadClientCertificate, said);
    }
  }

  lemma SendServerHelloDoneTraced(h: Hs, h1: Hs, server: bool, hasCert: bool, log: seq<Said>, status: bool, keys: bool,
                                  answer: Answer, n: nat)
    requires h.stage.SendServerHelloDone? && h.wait.Ok? && h.server && Traced(h, server, hasCert, log, status, keys)
    requires Transcribes(h, Over(h))
    requires h1 == DoSendServerHelloDone(h, answer, n)
    ensures Traced(h1, server, hasCert, log + Exchanged(h, h1), status, keys)
  {
    hide Traced, Transcribes, Exchanged, Says, Same, Over, Kept, Lines, Passing, DoSendServerHelloDone;
    var said := SendServerHelloDoneSteps(h, h1, FactsOf(h, hasCert, status, keys), answer, n);
    SaysTraced(h, h1, said, server, hasCert, log, status, keys);
  }

  lemma ReadClientCertificatePlace(h: Hs, f: Facts)
    requires h.stage.ReadClientCertificate? && h.server
    ensures Leads(h, VerifyClientCertificate)
    ensures forall resumed :: Reached(h.stage, resumed) == 7
    ensures Passing(f, h.stage) == One(f.request, false, Certificate)
  {}

  lemma ReadClientCertificateSteps(h: Hs, h1: Hs, answer: Answer)
    requires h.stage.ReadClientCertificate? && h.wait.Ok? && h.server && Transcribes(h, Over(h))
    requires Leads(h, VerifyClientCertificate)
    requires h1 == DoReadClientCertificate(h, answer)
    ensures Reads(h, h1, h.certRequest, Certificate)
    ensures !h1.wait.Error? && h1 != Await(h, h1.wait) ==> (h1.server == h.server && h1.neg == h.neg
             && h1.certRequest == h.certRequest)
  {
    hide Moves, Leads;
    if !h.certRequest {
      EnterMoves(h, h1, VerifyClientCertificate);
    } else if h.inbox != [] && h.inbox[0].kind == Certificate && !answer.Refuse? {
      TookMoves(h, h1, VerifyClientCertificate);
    }
  }

  lemma ReadClientCertificateTraced(h: Hs, h1: Hs, server: bool, hasCert: bool, log: seq<Said>, status: bool, keys: bool,
                                    answer: Answer)
    requires h.stage.ReadClientCertificate? && h.wait.Ok? && h.server && Traced(h, server, hasCert, log, status, keys)
    requires Transcribes(h, Over(h))
    requires InPlace(h)
    requires h1 == DoReadClientCertificate(h, answer)
    ensures Traced(h1, server, hasCert, log + Exchanged(h, h1), status, keys)
  {
    hide UpTo, Part, Lines, Messages, AllRight, Keyed, InPlace, Optional, Exchanged, Reached, RightBehind, Traced,
         Moves, Transcribes, Over, Kept, Passing, Leads, DoReadClientCertificate;
    ReadClientCertificatePlace(h, FactsOf(h1, hasCert, status, keys));
    ReadClientCertificateSteps(h, h1, answer);
    if h1.wait.Error? {
      FailsTraced(h, h1, server, hasCert, log, status, keys);
    } else if h1 == Await(h, h1.wait) {
      Waits(h, h1, server, hasCert, log, status, keys);
    } else {
      SettlesFacts(h, h1, hasCert, 7, status, keys, status, keys);
      ServersOptional(h1, status, keys);
      if h.certRequest {
        HeardLine(h, Certificate);
        Moved(h, h1, server, hasCert, log, [Said(!h.server, h.inbox[0])], status, keys, status, keys);
      } else {
        SaysNothing([]);
        Moved(h, h1, server, hasCert, log, [], status, keys, status, keys);
      }
    }
  }

  lemma VerifyClientCertificateTraced(h: Hs, h1: Hs, server: bool, hasCert: bool, log: seq<Said>, status: bool, keys: bool,
                                      answer: Answer)
    requires h.stage.VerifyClientCertificate? && h.wait.Ok? && h.server && Traced(h, server, hasCert, log, status, keys)
    requires Transcribes(h, Over(h))
    requires h1 == DoVerifyClientCertificate(h, answer)
    ensures Traced(h1, server, hasCert, log + Exchanged(h, h1), status, keys)
  {
    hide UpTo, Part, Lines, Messages, AllRight, Keyed, InPlace, Optional, Exchanged, Reached, RightBehind, Traced,
         Moves, SentBy;
    if !h.peerKey || answer.Go? {
      EnterMoves(h, h1, ReadClientKeyExchange);
    }
    SaysNothing([]);
    SaysTraced(h, h1, [], server, hasCert, log, status, keys);
  }

  lemma ReadClientKeyExchangeSteps(h: Hs, h1: Hs, answer: Answer)
    requires h.stage.ReadClientKeyExchange? && h.wait.Ok? && h.server && Transcribes(h, Over(h))
    requires Leads(h, ReadClientCertificateVerify)
    requires h1 == DoReadClientKeyExchange(h, answer)
    ensures Reads(h, h1, true, ClientKeyExchange)
    ensures h1.wait.Error? || Same(h, h1)
  {
    hide Moves, Leads;
    if h.inbox != [] && h.inbox[0].kind == ClientKeyExchange && !answer.Refuse?
       && !(h.neg.certAuth && !h.neg.ecdhe && answer.Retry?) {
      TookMoves(h, h1, ReadClientCertificateVerify);
    }
  }

  lemma ReadClientKeyExchangeTraced(h: Hs, h1: Hs, server: bool, hasCert: bool, log: seq<Said>, status: bool, keys: bool,
                                    answer: Answer)
    requires h.stage.ReadClientKeyExchange? && h.wait.Ok? && h.server && Traced(h, server, hasCert, log, status, keys)
    requires Transcribes(h, Over(h))
    requires h1 == DoReadClientKeyExchange(h, answer)
    ensures Traced(h1, server, hasCert, log + Exchanged(h, h1), status, keys)
  {
    hide Traced, Transcribes, Exchanged, Reads, Same, Over, Kept, DoReadClientKeyExchange;
    ReadClientKeyExchangeSteps(h, h1, answer);
    ReadsTraced(h, h1, true, ClientKeyExchange, server, hasCert, log, status, keys);
  }

  lemma ReadClientCertificateVerifySteps(h: Hs, h1: Hs, answer: Answer)
    requires h.stage.ReadClientCertificateVerify? && h.wait.Ok? && h.server && Transcribes(h, Over(h))
    requires Leads(h, ReadChangeCipherSpec)
    requires h1 == DoReadClientCertificateVerify(h, answer)
    ensures Reads(h, h1, h.peerKey, CertificateVerify)
    ensures h1.wait.Error? || Same(h, h1)
  {
    hide Moves, Leads;
    if !h.peerKey {
      EnterMoves(h, h1, ReadChangeCipherSpec);
    } else if h.inbox != [] && h.inbox[0].kind == CertificateVerify && !answer.Refuse? && h.transcript.buffer.Some?
               && h.inbox[0].body == Signature(h.transcript.buffer.value) {
      TookMoves(h, h1, ReadChangeCipherSpec);
    }
  }

  lemma ReadClientCertificateVerifyTraced(h: Hs, h1: Hs, server: bool, hasCert: bool, log: seq<Said>, status: bool,
                                          keys: bool,
                                          answer: Answer)
    requires h.stage.ReadClientCertificateVerify? && h.wait.Ok? && h.server && Traced(h, server, hasCert, log, status, keys)
    requires Transcribes(h, Over(h))
    requires h1 == DoReadClientCertificateVerify(h, answer)
    ensures Traced(h1, server, hasCert, log + Exchanged(h, h1), status, keys)
  {
    hide Traced, Transcribes, Exchanged, Reads, Same, Over, Kept, DoReadClientCertificateVerify;
    ReadClientCertificateVerifySteps(h, h1, answer);
    ReadsTraced(h, h1, h.peerKey, CertificateVerify, server, hasCert, log, status, keys);
  }

  lemma ReadChangeCipherSpecTraced(h: Hs, h1: Hs, server: bool, hasCert: bool, log: seq<Said>, status: bool, keys: bool)
    requires h.stage.ReadChangeCipherSpec? && h.wait.Ok? && h.server && Traced(h, server, hasCert, log, status, keys)
    requires Transcribes(h, Over(h))
    requires h1 == Enter(h, ProcessClientChangeCipherSpec).(wait := NeedCcs)
    ensures Traced(h1, server, hasCert, log + Exchanged(h, h1), status, keys)
  {
    hide UpTo, Part, Lines, Messages, AllRight, Keyed, InPlace, Optional, Exchanged, Reached, RightBehind, Traced,
         Moves, SentBy;
    EnterMoves(h, h1, ProcessClientChangeCipherSpec);
    SaysNothing([]);
    SaysTraced(h, h1, [], server, hasCert, log, status, keys);
  }

  lemma ProcessClientChangeCipherSpecTraced(h: Hs, h1: Hs, server: bool, hasCert: bool, log: seq<Said>, status: bool,
                                            keys: bool)
    requires h.stage.ProcessClientChangeCipherSpec? && h.wait.Ok? && h.server
             && Traced(h, server, hasCert, log, status, keys)
    requires Transcribes(h, Over(h))
    requires h1 == ChangeRead(h, ReadNextProto)
    ensures Traced(h1, server, hasCert, log + Exchanged(h, h1), status, keys)
  {
    hide UpTo, Part, Lines, Messages, AllRight, Keyed, InPlace, Optional, Exchanged, Reached, RightBehind, Traced,
         Moves, SentBy;
    if h.inbox == [] {
      Idles(h, h1);
    }
    SaysNothing([]);
    SaysTraced(h, h1, [], server, hasCert, log, status, keys);
  }

  lemma ReadNextProtoSteps(h: Hs, h1: Hs, answer: Answer)
    requires h.stage.ReadNextProto? && h.wait.Ok? && h.server && Transcribes(h, Over(h))
    requires Leads(h, ReadChannelId)
    requires h1 == DoReadNextProto(h, answer)
    ensures Reads(h, h1, h.neg.nextProto, NextProto)
    ensures h1.wait.Error? || Same(h, h1)
  {
    hide Moves, Leads;
    if !h.neg.nextProto {
      EnterMoves(h, h1, ReadChannelId);
    } else if h.inbox != [] && h.inbox[0].kind == NextProto && !answer.Refuse? {
      TookMoves(h, h1, ReadChannelId);
    }
  }

  lemma ReadNextProtoTraced(h: Hs, h1: Hs, server: bool, hasCert: bool, log: seq<Said>, status: bool, keys: bool,
                            answer: Answer)
    requires h.stage.ReadNextProto? && h.wait.Ok? && h.server && Traced(h, server, hasCert, log, status, keys)
    requires Transcribes(h, Over(h))
    requires h1 == DoReadNextProto(h, answer)
    ensures Traced(h1, server, hasCert, log + Exchanged(h, h1), status, keys)
  {
    hide Traced, Transcribes, Exchanged, Reads, Same, Over, Kept, DoReadNextProto;
    ReadNextProtoSteps(h, h1, answer);
    ReadsTraced(h, h1, h.neg.nextProto, NextProto, server, hasCert, log, status, keys);
  }

  lemma ReadChannelIdSteps(h: Hs, h1: Hs, answer: Answer)
    requires h.stage.ReadChannelId? && h.wait.Ok? && h.server && Transcribes(h, Over(h))
    requires Leads(h, ReadClientFinished)
    requires h1 == DoReadChannelId(h, answer)
    ensures Reads(h, h1, h.neg.channelId, ChannelId)
    ensures h1.wait.Error? || Same(h, h1)
  {
    hide Moves, Leads;
    if !h.neg.channelId {
      EnterMoves(h, h1, ReadClientFinished);
    } else if h.inbox != [] && h.inbox[0].kind == ChannelId && !answer.Refuse?
               && h.inbox[0].body == Signature(h.transcript.HashOf()) {
      TookMoves(h, h1, ReadClientFinished);
    }
  }

  lemma ReadChannelIdTraced(h: Hs, h1: Hs, server: bool, hasCert: bool, log: seq<Said>, status: bool, keys: bool,
                            answer: Answer)
    requires h.stage.ReadChannelId? && h.wait.Ok? && h.server && Traced(h, server, hasCert, log, status, keys)
    requires Transcribes(h, Over(h))
    requires h1 == DoReadChannelId(h, answer)
    ensures Traced(h1, server, hasCert, log + Exchanged(h, h1), status, keys)
  {
    hide Traced, Transcribes, Exchanged, Reads, Same, Over, Kept, DoReadChannelId;
    ReadChannelIdSteps(h, h1, answer);
    ReadsTraced(h, h1, h.neg.channelId, ChannelId, server, hasCert, log, status, keys);
  }

  lemma ReadClientFinishedSteps(h: Hs, h1: Hs)
    requires h.stage.ReadClientFinished? && h.wait.Ok? && h.server && Transcribes(h, Over(h))
    requires Leads(h, if h.neg.resumed then FinishServerHandshake else SendServerFinished)
    requires h1 == GetFinished(h, if h.neg.resumed then FinishServerHandshake else SendServerFinished)
    ensures Reads(h, h1, true, Finished)
    ensures h1.wait.Error? || Same(h, h1)
  {
    hide Moves, Leads;
    if h.inbox != [] && h.inbox[0].kind == Finished && GoodDigest(h) {
      TookMoves(h, h1, if h.neg.resumed then FinishServerHandshake else SendServerFinished);
    }
  }

  lemma ReadClientFinishedTraced(h: Hs, h1: Hs, server: bool, hasCert: bool, log: seq<Said>, status: bool, keys: bool)
    requires h.stage.ReadClientFinished? && h.wait.Ok? && h.server && Traced(h, server, hasCert, log, status, keys)
    requires Transcribes(h, Over(h))
    requires h1 == GetFinished(h, if h.neg.resumed then FinishServerHandshake else SendServerFinished)
    ensures Traced(h1, server, hasCert, log + Exchanged(h, h1), status, keys)
  {
    hide Traced, Transcribes, Exchanged, Reads, Same, Over, Kept, GetFinished;
    ReadClientFinishedSteps(h, h1);
    ReadsTraced(h, h1, true, Finished, server, hasCert, log, status, keys);
  }

  lemma ServerFinishedSays(f: Facts, t: Message, fin: Message)
    requires t.kind == NewSessionTicket && fin.kind == Finished
    ensures var said1 := [] + if f.ticket then [Said(true, t)] else [];
            Lines(said1 + [Said(true, fin)]) == Passing(f, SendServerFinished)
  {}

  lemma ServerFinishedBuilt(h: Hs, f: Facts, t: Message) returns (said: seq<Said>)
    requires t.kind == NewSessionTicket && h.server && f.ticket == h.neg.ticket && h.transcript.hash.Some?
    ensures var b := PutFinished(PutCcs(PutIf(h.neg.ticket, h, t)));
            Built(h, b, said) && b.writeEpoch == h.writeEpoch + 1
    ensures RightBehind(Over(h), said) && Lines(said) == Passing(f, SendServerFinished)
  {
    hide Lines, Messages, Passing, RightBehind, SentBy;
    var ms := Over(h);
    var a := PutIf(h.neg.ticket, h, t);
    var fin := Message(Finished, Mac(true, PutCcs(a).transcript.HashOf()));
    var said1 := [] + if h.neg.ticket then [Said(true, t)] else [];
    said := said1 + [Said(true, fin)];
    BuildsNothing(h);
    BuildsIf(h.neg.ticket, h, h, [], t);
    BuildsCcs(h, a, said1);
    BuildsMessage(h, PutCcs(a), said1, fin);
    SaysNothing(ms);
    RightIf(h.neg.ticket, ms, [], Said(true, t));
    RightOn(ms, said1, Said(true, fin));
    ServerFinishedSays(f, t, fin);
  }

  lemma SendServerFinishedSteps(h: Hs, h1: Hs, f: Facts, answer: Answer, n: nat) returns (said: seq<Said>)
    requires h.stage.SendServerFinished? && h.wait.Ok? && h.server && Transcribes(h, Over(h))
    requires f.ticket == h.neg.ticket
    requires Leads(h, if h.neg.resumed then ReadChangeCipherSpec else FinishServerHandshake)
    requires h1 == DoSendServerFinished(h, answer, n)
    ensures Says(h, h1, said) && Lines(said) == Passing(f, h.stage)
    ensures h1.wait.Error? || (Same(h, h1) && (h1 == Await(h, h1.wait) || h1.stage != h.stage))
  {
    hide Messages, Lines, Exchanged, RightBehind, Moves, Built, Leads, Over, PutFinished, PutIf, PutCcs, Transcript.HashOf;
    var t := Message(NewSessionTicket, Text(n + 1));
    said := ServerFinishedBuilt(h, f, t);
    BuiltKeeps(h, PutFinished(PutCcs(PutIf(h.neg.ticket, h, t))), said);
    if !answer.Refuse? {
      Sends(h, PutFinished(PutCcs(PutIf(h.neg.ticket, h, t))), h1, if h.neg.resumed then ReadChangeCipherSpec else FinishServerHandshake, said);
    }
  }

  lemma SendServerFinishedTraced(h: Hs, h1: Hs, server: bool, hasCert: bool, log: seq<Said>, status: bool, keys: bool,
                                 answer: Answer, n: nat)
    requires h.stage.SendServerFinished? && h.wait.Ok? && h.server && Traced(h, server, hasCert, log, status, keys)
    requires Transcribes(h, Over(h))
    requires h1 == DoSendServerFinished(h, answer, n)
    ensures Traced(h1, server, hasCert, log + Exchanged(h, h1), status, keys)
  {
    hide Traced, Transcribes, Exchanged, Says, Same, Over, Kept, Lines, Passing, DoSendServerFinished;
    var said := SendServerFinishedSteps(h, h1, FactsOf(h, hasCert, status, keys), answer, n);
    SaysTraced(h, h1, said, server, hasCert, log, status, keys);
  }

  lemma FinishServerHandshakeTraced(h: Hs, h1: Hs, server: bool, hasCert: bool, log: seq<Said>, status: bool, keys: bool)
    requires h.stage.FinishServerHandshake? && h.wait.Ok? && h.server && Traced(h, server, hasCert, log, status, keys)
    requires Transcribes(h, Over(h))
    requires h1 == Enter(h, Done)
    ensures Traced(h1, server, hasCert, log + Exchanged(h, h1), status, keys)
  {
    hide UpTo, Part, Lines, Messages, AllRight, Keyed, InPlace, Optional, Exchanged, Reached, RightBehind, Traced,
         Moves, SentBy;
    EnterMoves(h, h1, Done);
    SaysNothing([]);
    SaysTraced(h, h1, [], server, hasCert, log, status, keys);
  }
}
