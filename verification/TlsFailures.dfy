/** What a state that fails has done by then. */
module TlsFailures {
  import opened Prelude
  import opened TlsHandshake
  import opened TlsScript
  import R = TlsRetry

  /** A failure may have hashed the message at hand, or queued a part of what is sent. */
  predicate Overran(p: Plan, h0: Hs, h: Hs) {
    || Log(h) == Log(h0)
    || (h0.inbox != [] && Log(h) == Log(h0) + [h0.inbox[0]])
    || (At(p, h0.stage).sends && Log(h0) <= Log(h))
  }

  /** If the step failed, what it left behind is part of a step. */
  predicate Leaves(p: Plan, h: Hs, h1: Hs) {
    h1.wait.Error? ==> h1.server == h.server && h1.stage == h.stage && Overran(p, h, h1)
  }

  /** Most failures leave nothing behind, or the message at hand in the transcript. */
  lemma ReadLeaves(p: Plan, h: Hs, h1: Hs, why: Reason)
    requires h1 == Fail(h, why) || (h.inbox != [] && h1 == Fail(Hashed(h), why))
    ensures Leaves(p, h, h1)
  {}

  /** Messages or a ChangeCipherSpec queued, and nothing else done. */
  predicate Queued(h: Hs, h1: Hs) {
    h1.server == h.server && h1.stage == h.stage && Log(h) <= Log(h1)
  }

  lemma PutQueues(b: bool, h: Hs, h1: Hs, m: Message)
    requires Queued(h, h1)
    ensures Queued(h, PutIf(b, h1, m))
  {}

  lemma CcsQueues(h: Hs, h1: Hs)
    requires Queued(h, h1)
    ensures Queued(h, QueueCcs(h1)) && Queued(h, PutCcs(h1))
  {}

  lemma NothingQueued(h: Hs)
    ensures Queued(h, h)
  {}

  lemma QueuedLeaves(p: Plan, h: Hs, h1: Hs, why: Reason)
    requires Queued(h, h1) && At(p, h.stage).sends
    ensures Leaves(p, h, Fail(h1, why))
  {}

  lemma ServerHelloLeaves(p: Plan, h: Hs, answer: Answer)
    requires SideOk(p, h) && h.stage.ReadServerHello?
    ensures Leaves(p, h, DoReadServerHello(h, answer))
  {
    assert h.transcript.hash.None? && h.transcript.buffer.Some?;
  }

  lemma ClientCertificateLeaves(p: Plan, h: Hs, answer: Answer, n: nat)
    requires SideOk(p, h) && h.stage.SendClientCertificate?
    ensures Leaves(p, h, DoSendClientCertificate(h, p.hasCert, answer, n))
  {
    assert Log(FreeBuffer(h)) == Log(h);
  }

  lemma ClientKeyExchangeLeaves(p: Plan, h: Hs, answer: Answer, n: nat)
    requires h.stage.SendClientKeyExchange?
    ensures Leaves(p, h, DoSendClientKeyExchange(h, answer, n))
  {
    NothingQueued(h);
    PutQueues(true, h, h, Message(ClientKeyExchange, Text(n)));
    assert At(p, h.stage).sends;
  }

  lemma ClientFinishedLeaves(p: Plan, h: Hs, answer: Answer, n: nat)
    requires h.stage.SendClientFinished?
    ensures Leaves(p, h, DoSendClientFinished(h, answer, n))
  {
    hide Put, PutIf, PutFinished, PutCcs, QueueCcs, Queued, Log, Overran;
    var h1 := PutIf(h.neg.nextProto, PutCcs(h), Message(NextProto, Text(n)));
    var h2 := PutIf(h.neg.channelId, h1, Message(ChannelId, Signature(h1.transcript.HashOf())));
    NothingQueued(h);
    CcsQueues(h, h);
    PutQueues(h.neg.nextProto, h, PutCcs(h), Message(NextProto, Text(n)));
    PutQueues(h.neg.channelId, h, h1, Message(ChannelId, Signature(h1.transcript.HashOf())));
    if answer == Refuse(0) {
      QueuedLeaves(p, h, h, Refused);
    } else if answer.Refuse? {
      QueuedLeaves(p, h, ClientFinishedPart(h, h1, h2, answer.at), Refused);
    }
  }

  lemma ReadOneLeaves(p: Plan, h: Hs, kind: Kind, answer: Answer, next: Stage)
    requires h.wait.Ok?
    ensures Leaves(p, h, ReadOne(h, kind, answer, next))
  {
    hide Overran, Hashed, Log;
    var h1 := ReadOne(h, kind, answer, next);
    if h1.wait.Error? { ReadLeaves(p, h, h1, h1.wait.why); }
  }

  lemma FinishedLeaves(p: Plan, h: Hs, next: Stage)
    requires h.wait.Ok?
    ensures Leaves(p, h, GetFinished(h, next))
  {
    hide Overran, Hashed, Log;
    var h1 := GetFinished(h, next);
    if h1.wait.Error? { ReadLeaves(p, h, h1, h1.wait.why); }
  }

  lemma ChangeReadLeaves(p: Plan, h: Hs, next: Stage)
    requires h.wait.Ok?
    ensures Leaves(p, h, ChangeRead(h, next))
  {
    hide Overran, Hashed, Log;
    var h1 := ChangeRead(h, next);
    if h1.wait.Error? { ReadLeaves(p, h, h1, h1.wait.why); }
  }
  lemma ServerCertificateReadLeaves(p: Plan, h: Hs, answer: Answer)
    requires h.wait.Ok?
    ensures Leaves(p, h, DoReadServerCertificate(h, answer))
  {
    hide Overran, Hashed, Log;
    var h1 := DoReadServerCertificate(h, answer);
    if h1.wait.Error? { ReadLeaves(p, h, h1, h1.wait.why); }
  }

  lemma CertificateStatusLeaves(p: Plan, h: Hs, answer: Answer)
    requires h.wait.Ok?
    ensures Leaves(p, h, DoReadCertificateStatus(h, answer))
  {
    hide Overran, Hashed, Log;
    var h1 := DoReadCertificateStatus(h, answer);
    if h1.wait.Error? { ReadLeaves(p, h, h1, h1.wait.why); }
  }
  lemma KeyExchangeLeaves(p: Plan, h: Hs, answer: Answer)
    requires h.wait.Ok?
    ensures Leaves(p, h, DoReadServerKeyExchange(h, answer))
  {
    hide Overran, Hashed, Log;
    var h1 := DoReadServerKeyExchange(h, answer);
    if h1.wait.Error? { ReadLeaves(p, h, h1, h1.wait.why); }
  }

  lemma RequestLeaves(p: Plan, h: Hs, answer: Answer)
    requires h.wait.Ok?
    ensures Leaves(p, h, DoReadCertificateRequest(h, answer))
  {
    hide Overran, Hashed, Log;
    var h1 := DoReadCertificateRequest(h, answer);
    if h1.wait.Error? { ReadLeaves(p, h, h1, h1.wait.why); }
  }

  lemma TicketLeaves(p: Plan, h: Hs, answer: Answer)
    requires h.wait.Ok?
    ensures Leaves(p, h, DoReadSessionTicket(h, answer))
  {
    hide Overran, Hashed, Log;
    var h1 := DoReadSessionTicket(h, answer);
    if h1.wait.Error? { ReadLeaves(p, h, h1, h1.wait.why); }
  }
  lemma ClientAsksLeave(p: Plan, h: Hs, hasCert: bool, answer: Answer, n: nat)
    requires h.wait.Ok?
    ensures Leaves(p, h, DoStartConnect(h, answer, n))
    ensures Leaves(p, h, DoVerifyServerCertificate(h, answer))
    ensures Leaves(p, h, DoSendClientCertificateVerify(h, hasCert, answer))
  {
    hide Overran, Hashed, Log;
    var h1 := DoStartConnect(h, answer, n);
    if h1.wait.Error? { ReadLeaves(p, h, h1, h1.wait.why); }
    var h2 := DoVerifyServerCertificate(h, answer);
    if h2.wait.Error? { ReadLeaves(p, h, h2, h2.wait.why); }
    var h3 := DoSendClientCertificateVerify(h, hasCert, answer);
    if h3.wait.Error? { ReadLeaves(p, h, h3, h3.wait.why); }
  }

  lemma ClientFailureLeaves(p: Plan, h: Hs, answer: Answer, n: nat)
    requires SideOk(p, h) && !h.server && h.wait.Ok? && !h.stage.Done? && R.IsClient(h.stage)
    ensures Leaves(p, h, ClientDo(h, p.hasCert, answer, n))
  {
    hide DoStartConnect, DoReadServerHello, DoReadServerCertificate, DoReadCertificateStatus, DoVerifyServerCertificate, DoReadServerKeyExchange,
         DoReadCertificateRequest, DoSendClientCertificate, DoSendClientKeyExchange, DoSendClientCertificateVerify, DoSendClientFinished,
         DoReadSessionTicket, ReadOne, GetFinished, ChangeRead, Leaves, SideOk;
    match h.stage {
      case StartConnect => ClientAsksLeave(p, h, p.hasCert, answer, n);
      case EnterEarlyData => EnterLeaves(p, h, ReadServerHello);
      case ReadServerHello => ServerHelloLeaves(p, h, answer);
      case ReadServerCertificate => ServerCertificateReadLeaves(p, h, answer);
      case ReadCertificateStatus => CertificateStatusLeaves(p, h, answer);
      case VerifyServerCertificate => ClientAsksLeave(p, h, p.hasCert, answer, n);
      case ReadServerKeyExchange => KeyExchangeLeaves(p, h, answer);
      case ReadCertificateRequest => RequestLeaves(p, h, answer);
      case ReadServerHelloDone => ReadOneLeaves(p, h, ServerHelloDone, answer, SendClientCertificate);
      case SendClientCertificate => ClientCertificateLeaves(p, h, answer, n);
      case SendClientKeyExchange => ClientKeyExchangeLeaves(p, h, answer, n);
      case SendClientCertificateVerify => ClientAsksLeave(p, h, p.hasCert, answer, n);
      case SendClientFinished => ClientFinishedLeaves(p, h, answer, n);
      case FinishFlight => EnterLeaves(p, h, if h.neg.resumed then FinishClientHandshake else ReadSessionTicket);
      case ReadSessionTicket => TicketLeaves(p, h, answer);
      case ProcessServerChangeCipherSpec => ChangeReadLeaves(p, h, ReadServerFinished);
      case ReadServerFinished => FinishedLeaves(p, h, if h.neg.resumed then SendClientFinished else FinishClientHandshake);
      case FinishClientHandshake => EnterLeaves(p, h, Done);
    }
  }

  lemma EnterLeaves(p: Plan, h: Hs, next: Stage)
    ensures Leaves(p, h, Enter(h, next)) && Leaves(p, h, Enter(h, next).(wait := NeedCcs))
  {}

  lemma SelectLeaves(p: Plan, h: Hs, answer: Answer)
    ensures Leaves(p, h, DoSelectParameters(h, p, answer))
  {}

  lemma ServerHelloSentLeaves(p: Plan, h: Hs, answer: Answer)
    ensures Leaves(p, h, DoSendServerHello(h, p, answer))
  {}
  lemma ServerCertificateLeaves(p: Plan, h: Hs, answer: Answer, n: nat)
    requires h.stage.SendServerCertificate?
    ensures Leaves(p, h, DoSendServerCertificate(h, p, answer, n))
  {
    hide Put, PutIf, Queued, Log, Overran;
    var h1 := PutIf(h.neg.certAuth, h, Message(Certificate, Text(n + 1)));
    var h2 := PutIf(h.neg.certAuth && h.neg.status, h1, Message(CertificateStatus, Text(n)));
    NothingQueued(h);
    PutQueues(h.neg.certAuth, h, h, Message(Certificate, Text(n + 1)));
    PutQueues(h.neg.certAuth && h.neg.status, h, h1, Message(CertificateStatus, Text(n)));
    if answer.Refuse? {
      QueuedLeaves(p, h, if answer.at == 0 then h else if answer.at == 1 then h1 else h2, Refused);
    }
  }

  lemma ServerHelloDoneLeaves(p: Plan, h: Hs, answer: Answer, n: nat)
    requires h.stage.SendServerHelloDone?
    ensures Leaves(p, h, DoSendServerHelloDone(h, answer, n))
  {
    hide Put, PutIf, Queued, Log, Overran;
    var h1 := PutIf(h.certRequest, h, Message(CertificateRequest, Text(n)));
    NothingQueued(h);
    PutQueues(h.certRequest, h, h, Message(CertificateRequest, Text(n)));
    if answer.Refuse? {
      QueuedLeaves(p, h, if answer.at == 0 then h else h1, Refused);
    }
  }

  lemma ReadCertificateLeaves(p: Plan, h: Hs, answer: Answer)
    requires SideOk(p, h) && h.stage.ReadClientCertificate?
    ensures Leaves(p, h, DoReadClientCertificate(h, answer))
  {
    hide PutIf, WaitOk;
    assert h.transcript.hash.Some?;
  }

  lemma ServerFinishedLeaves(p: Plan, h: Hs, answer: Answer, n: nat)
    requires h.stage.SendServerFinished?
    ensures Leaves(p, h, DoSendServerFinished(h, answer, n))
  {
    hide Put, PutIf, PutFinished, PutCcs, QueueCcs, Queued, Log, Overran;
    var h1 := PutIf(h.neg.ticket, h, Message(NewSessionTicket, Text(n + 1)));
    NothingQueued(h);
    PutQueues(h.neg.ticket, h, h, Message(NewSessionTicket, Text(n + 1)));
    CcsQueues(h, h1);
    if answer.Refuse? {
      QueuedLeaves(p, h, ServerFinishedPart(h, h1, answer.at), Refused);
    }
  }

  lemma ClientHelloLeaves(p: Plan, h: Hs, answer: Answer)
    requires h.wait.Ok?
    ensures Leaves(p, h, DoReadClientHello(h, answer))
  {
    hide Overran, Hashed, Log;
    var h1 := DoReadClientHello(h, answer);
    if h1.wait.Error? { ReadLeaves(p, h, h1, h1.wait.why); }
  }

  lemma SelectCertificateLeaves(p: Plan, h: Hs, answer: Answer)
    requires h.wait.Ok?
    ensures Leaves(p, h, DoSelectCertificate(h, answer))
  {
    hide Overran, Hashed, Log;
    var h1 := DoSelectCertificate(h, answer);
    if h1.wait.Error? { ReadLeaves(p, h, h1, h1.wait.why); }
  }

  lemma VerifyLeaves(p: Plan, h: Hs, answer: Answer)
    requires h.wait.Ok?
    ensures Leaves(p, h, DoVerifyClientCertificate(h, answer))
  {
    hide Overran, Hashed, Log;
    var h1 := DoVerifyClientCertificate(h, answer);
    if h1.wait.Error? { ReadLeaves(p, h, h1, h1.wait.why); }
  }

  lemma SendKeyExchangeLeaves(p: Plan, h: Hs, answer: Answer, n: nat)
    requires h.wait.Ok?
    ensures Leaves(p, h, DoSendServerKeyExchange(h, answer, n))
  {
    hide Overran, Hashed, Log;
    var h1 := DoSendServerKeyExchange(h, answer, n);
    if h1.wait.Error? { ReadLeaves(p, h, h1, h1.wait.why); }
  }
  lemma ReadKeyExchangeLeaves(p: Plan, h: Hs, answer: Answer)
    requires h.wait.Ok?
    ensures Leaves(p, h, DoReadClientKeyExchange(h, answer))
  {
    hide Overran, Hashed, Log;
    var h1 := DoReadClientKeyExchange(h, answer);
    if h1.wait.Error? { ReadLeaves(p, h, h1, h1.wait.why); }
  }

  lemma CertificateVerifyLeaves(p: Plan, h: Hs, answer: Answer)
    requires h.wait.Ok?
    ensures Leaves(p, h, DoReadClientCertificateVerify(h, answer))
  {
    hide Overran, Hashed, Log;
    var h1 := DoReadClientCertificateVerify(h, answer);
    if h1.wait.Error? { ReadLeaves(p, h, h1, h1.wait.why); }
  }
  lemma NextProtoLeaves(p: Plan, h: Hs, answer: Answer)
    requires h.wait.Ok?
    ensures Leaves(p, h, DoReadNextProto(h, answer))
  {
    hide Overran, Hashed, Log;
    var h1 := DoReadNextProto(h, answer);
    if h1.wait.Error? { ReadLeaves(p, h, h1, h1.wait.why); }
  }

  lemma ChannelIdLeaves(p: Plan, h: Hs, answer: Answer)
    requires h.wait.Ok?
    ensures Leaves(p, h, DoReadChannelId(h, answer))
  {
    hide Overran, Hashed, Log;
    var h1 := DoReadChannelId(h, answer);
    if h1.wait.Error? {
      assert h1 == Fail(h, h1.wait.why);
      ReadLeaves(p, h, h1, h1.wait.why);
    }
  }
  lemma ServerFailureLeaves(p: Plan, h: Hs, answer: Answer, n: nat)
    requires SideOk(p, h) && h.server && h.wait.Ok? && !h.stage.Done? && R.IsServer(h.stage)
    ensures Leaves(p, h, ServerDo(h, p, answer, n))
  {
    hide DoReadClientHello, DoSelectCertificate, DoSelectParameters, DoSendServerHello, DoSendServerCertificate, DoSendServerKeyExchange,
         DoSendServerHelloDone, DoReadClientCertificate, DoVerifyClientCertificate, DoReadClientKeyExchange,
         DoReadClientCertificateVerify, DoReadNextProto, DoReadChannelId, DoSendServerFinished, GetFinished, ChangeRead, Leaves, SideOk;
    match h.stage {
      case StartAccept => EnterLeaves(p, h, ReadClientHello);
      case ReadClientHello => ClientHelloLeaves(p, h, answer);
      case SelectCertificate => SelectCertificateLeaves(p, h, answer);
      case SelectParameters => SelectLeaves(p, h, answer);
      case SendServerHello => ServerHelloSentLeaves(p, h, answer);
      case SendServerCertificate => ServerCertificateLeaves(p, h, answer, n);
      case SendServerKeyExchange => SendKeyExchangeLeaves(p, h, answer, n);
      case SendServerHelloDone => ServerHelloDoneLeaves(p, h, answer, n);
      case ReadClientCertificate => ReadCertificateLeaves(p, h, answer);
      case VerifyClientCertificate => VerifyLeaves(p, h, answer);
      case ReadClientKeyExchange => ReadKeyExchangeLeaves(p, h, answer);
      case ReadClientCertificateVerify => CertificateVerifyLeaves(p, h, answer);
      case ReadChangeCipherSpec => EnterLeaves(p, h, ProcessClientChangeCipherSpec);
      case ProcessClientChangeCipherSpec => ChangeReadLeaves(p, h, ReadNextProto);
      case ReadNextProto => NextProtoLeaves(p, h, answer);
      case ReadChannelId => ChannelIdLeaves(p, h, answer);
      case ReadClientFinished => FinishedLeaves(p, h, if h.neg.resumed then FinishServerHandshake else SendServerFinished);
      case SendServerFinished => ServerFinishedLeaves(p, h, answer, n);
      case FinishServerHandshake => EnterLeaves(p, h, Done);
    }
  }
}
