/** One handshake machine against any peer: the handshake buffer is never read after it was freed. */
module TlsAlone {
  import opened TlsHandshake

  /** What can happen to a machine: an action of its driver, under any plan and with any record at hand, or any
      messages more to read. */
  datatype Turn = Acts(plan: Plan, action: Action, item: Item) | Hears(messages: seq<Message>)

  /** Whether a client has a certificate is settled for the connection; what a server decides is not. */
  function Faces(h: Hs, hasCert: bool, t: Turn): Hs {
    match t
    case Hears(ms) => h.(inbox := h.inbox + ms)
    case Acts(plan, action, item) =>
      if Enabled(h, [item], action) then Acted(plan.(hasCert := hasCert), h, [item], action) else h
  }

  /** The machine after such turns. */
  function After(server: bool, hasCert: bool, turns: seq<Turn>): Hs {
    if turns == [] then Start(server) else Faces(After(server, hasCert, turns[..|turns| - 1]), hasCert, turns[|turns| - 1])
  }

  /** What is known of the buffer in each state of the client. */
  predicate ClientKeeps(h: Hs, hasCert: bool) {
    match h.stage
    case StartConnect => h.transcript.buffer.Some? && !h.certRequest
    case EnterEarlyData => h.transcript.buffer.Some? && !h.certRequest
    case ReadServerHello => h.transcript.buffer.Some? && !h.certRequest
    case ReadServerCertificate => !h.certRequest && (h.neg.certAuth ==> h.transcript.buffer.Some?)
    case ReadCertificateStatus => !h.certRequest && (h.neg.certAuth ==> h.transcript.buffer.Some?)
    case VerifyServerCertificate => !h.certRequest && (h.neg.certAuth ==> h.transcript.buffer.Some?)
    case ReadServerKeyExchange => !h.certRequest && (h.neg.certAuth ==> h.transcript.buffer.Some?)
    case ReadCertificateRequest => !h.certRequest && (h.neg.certAuth ==> h.transcript.buffer.Some?)
    case ReadServerHelloDone => h.certRequest ==> h.transcript.buffer.Some?
    case SendClientCertificate => h.certRequest ==> h.transcript.buffer.Some?
    case SendClientKeyExchange => h.certRequest && hasCert ==> h.transcript.buffer.Some?
    case SendClientCertificateVerify => h.certRequest && hasCert ==> h.transcript.buffer.Some?
    case _ => true
  }

  /** And of the server. */
  predicate ServerKeeps(h: Hs) {
    match h.stage
    case StartAccept => h.transcript.buffer.Some? && !h.peerKey
    case ReadClientHello => h.transcript.buffer.Some? && !h.peerKey
    case SelectCertificate => h.transcript.buffer.Some? && !h.peerKey
    case SelectParameters => h.transcript.buffer.Some? && !h.peerKey
    case SendServerHello => !h.peerKey && (h.certRequest ==> h.transcript.buffer.Some?)
    case SendServerCertificate => !h.peerKey && (h.certRequest ==> h.transcript.buffer.Some?)
    case SendServerKeyExchange => !h.peerKey && (h.certRequest ==> h.transcript.buffer.Some?)
    case SendServerHelloDone => !h.peerKey && (h.certRequest ==> h.transcript.buffer.Some?)
    case ReadClientCertificate => !h.peerKey && (h.certRequest ==> h.transcript.buffer.Some?)
    case VerifyClientCertificate => h.peerKey ==> h.transcript.buffer.Some?
    case ReadClientKeyExchange => h.peerKey ==> h.transcript.buffer.Some?
    case ReadClientCertificateVerify => h.peerKey ==> h.transcript.buffer.Some?
    case _ => true
  }

  /** The machine has the buffer as long as it may need it, or it has failed for another reason. */
  predicate Keeps(h: Hs, hasCert: bool) {
    if h.wait.Error? then h.wait.why != FreedBuffer else if h.server then ServerKeeps(h) else ClientKeeps(h, hasCert)
  }

  // ---- Every state keeps it, group by group ----

  lemma HelloKeeps(h: Hs, hasCert: bool, answer: Answer, n: nat)
    requires !h.server && h.wait.Ok? && ClientKeeps(h, hasCert)
    requires h.stage.StartConnect? || h.stage.EnterEarlyData? || h.stage.ReadServerHello?
    ensures Keeps(ClientDo(h, hasCert, answer, n), hasCert)
  {
    hide DoReadServerCertificate, DoReadCertificateStatus, DoVerifyServerCertificate, DoReadServerKeyExchange,
         DoReadCertificateRequest, DoSendClientCertificate, DoSendClientKeyExchange,
         DoSendClientCertificateVerify, DoSendClientFinished, DoReadSessionTicket, ReadOne, GetFinished,
         ChangeRead;
  }

  lemma ServerCertificateKeeps(h: Hs, hasCert: bool, answer: Answer, n: nat)
    requires !h.server && h.wait.Ok? && ClientKeeps(h, hasCert)
    requires h.stage.ReadServerCertificate? || h.stage.ReadCertificateStatus? || h.stage.VerifyServerCertificate?
    ensures Keeps(ClientDo(h, hasCert, answer, n), hasCert)
  {
    hide DoStartConnect, DoReadServerHello, DoReadServerKeyExchange, DoReadCertificateRequest,
         DoSendClientCertificate, DoSendClientKeyExchange, DoSendClientCertificateVerify, DoSendClientFinished,
         DoReadSessionTicket, GetFinished, ChangeRead;
  }

  lemma ServerKeysKeep(h: Hs, hasCert: bool, answer: Answer, n: nat)
    requires !h.server && h.wait.Ok? && ClientKeeps(h, hasCert)
    requires h.stage.ReadServerKeyExchange? || h.stage.ReadCertificateRequest?
    ensures Keeps(ClientDo(h, hasCert, answer, n), hasCert)
  {
    hide DoStartConnect, DoReadServerHello, DoReadServerCertificate, DoReadCertificateStatus,
         DoVerifyServerCertificate, DoSendClientCertificate, DoSendClientKeyExchange,
         DoSendClientCertificateVerify, DoSendClientFinished, DoReadSessionTicket, ReadOne, GetFinished,
         ChangeRead;
  }

  lemma ClientKeysKeep(h: Hs, hasCert: bool, answer: Answer, n: nat)
    requires !h.server && h.wait.Ok? && ClientKeeps(h, hasCert)
    requires h.stage.ReadServerHelloDone? || h.stage.SendClientCertificate? || h.stage.SendClientKeyExchange?
             || h.stage.SendClientCertificateVerify?
    ensures Keeps(ClientDo(h, hasCert, answer, n), hasCert)
  {
    hide DoStartConnect, DoReadServerHello, DoReadServerCertificate, DoReadCertificateStatus,
         DoVerifyServerCertificate, DoReadServerKeyExchange, DoReadCertificateRequest, DoSendClientFinished,
         DoReadSessionTicket, GetFinished, ChangeRead;
  }

  lemma ClientLastKeeps(h: Hs, hasCert: bool, answer: Answer, n: nat)
    requires !h.server && h.wait.Ok? && ClientKeeps(h, hasCert)
    requires h.stage.SendClientFinished? || h.stage.FinishFlight? || h.stage.FinishClientHandshake?
             || h.stage.ProcessServerChangeCipherSpec?
    ensures Keeps(ClientDo(h, hasCert, answer, n), hasCert)
  {
    hide DoStartConnect, DoReadServerHello, DoReadServerCertificate, DoReadCertificateStatus,
         DoVerifyServerCertificate, DoReadServerKeyExchange, DoReadCertificateRequest, DoSendClientCertificate,
         DoSendClientKeyExchange, DoSendClientCertificateVerify, DoReadSessionTicket, ReadOne, GetFinished;
  }

  lemma ServerLastKeeps(h: Hs, hasCert: bool, answer: Answer, n: nat)
    requires !h.server && h.wait.Ok? && ClientKeeps(h, hasCert)
    requires h.stage.ReadSessionTicket?
    ensures Keeps(ClientDo(h, hasCert, answer, n), hasCert)
  {
    hide GetFinished, DoStartConnect, DoReadServerHello, DoReadServerCertificate, DoReadCertificateStatus,
         DoVerifyServerCertificate, DoReadServerKeyExchange, DoReadCertificateRequest, DoSendClientCertificate,
         DoSendClientKeyExchange, DoSendClientCertificateVerify, DoSendClientFinished, ChangeRead;
  }

  lemma ServerFinishedKeeps(h: Hs, hasCert: bool, answer: Answer, n: nat)
    requires !h.server && h.wait.Ok? && ClientKeeps(h, hasCert)
    requires h.stage.ReadServerFinished?
    ensures Keeps(ClientDo(h, hasCert, answer, n), hasCert)
  {
    hide DoReadSessionTicket, DoStartConnect, DoReadServerHello, DoReadServerCertificate, DoReadCertificateStatus,
         DoVerifyServerCertificate, DoReadServerKeyExchange, DoReadCertificateRequest, DoSendClientCertificate,
         DoSendClientKeyExchange, DoSendClientCertificateVerify, DoSendClientFinished, ChangeRead;
  }

  lemma ClientStepKeeps(h: Hs, hasCert: bool, answer: Answer, n: nat)
    requires !h.server && h.wait.Ok? && ClientKeeps(h, hasCert)
    ensures Keeps(ClientDo(h, hasCert, answer, n), hasCert)
  {
    hide DoStartConnect, DoReadServerHello, DoReadServerCertificate, DoReadCertificateStatus,
         DoVerifyServerCertificate, DoReadServerKeyExchange, DoReadCertificateRequest, DoSendClientCertificate,
         DoSendClientKeyExchange, DoSendClientCertificateVerify, DoSendClientFinished, DoReadSessionTicket,
         ReadOne, GetFinished, ChangeRead;
    if h.stage.StartConnect? || h.stage.EnterEarlyData? || h.stage.ReadServerHello? {
      HelloKeeps(h, hasCert, answer, n);
    } else if h.stage.ReadServerCertificate? || h.stage.ReadCertificateStatus? || h.stage.VerifyServerCertificate? {
      ServerCertificateKeeps(h, hasCert, answer, n);
    } else if h.stage.ReadServerKeyExchange? || h.stage.ReadCertificateRequest? {
      ServerKeysKeep(h, hasCert, answer, n);
    } else if h.stage.ReadServerHelloDone? || h.stage.SendClientCertificate? || h.stage.SendClientKeyExchange?
              || h.stage.SendClientCertificateVerify? {
      ClientKeysKeep(h, hasCert, answer, n);
    } else if h.stage.SendClientFinished? || h.stage.FinishFlight? || h.stage.FinishClientHandshake?
              || h.stage.ProcessServerChangeCipherSpec? {
      ClientLastKeeps(h, hasCert, answer, n);
    } else if h.stage.ReadSessionTicket? {
      ServerLastKeeps(h, hasCert, answer, n);
    } else if h.stage.ReadServerFinished? {
      ServerFinishedKeeps(h, hasCert, answer, n);
    }
  }

  lemma AcceptKeeps(h: Hs, plan: Plan, answer: Answer, n: nat)
    requires h.server && h.wait.Ok? && ServerKeeps(h)
    requires h.stage.StartAccept? || h.stage.FinishServerHandshake? || h.stage.ReadClientHello? || h.stage.SelectCertificate?
    ensures Keeps(ServerDo(h, plan, answer, n), plan.hasCert)
  {
    hide DoSelectParameters, DoSendServerHello, DoSendServerCertificate, DoSendServerKeyExchange,
         DoSendServerHelloDone, DoReadClientCertificate, DoVerifyClientCertificate, DoReadClientKeyExchange,
         DoReadClientCertificateVerify, DoReadNextProto, DoReadChannelId, DoSendServerFinished, GetFinished,
         ChangeRead, ReadOne;
  }

  lemma ParametersKeep(h: Hs, plan: Plan, answer: Answer, n: nat)
    requires h.server && h.wait.Ok? && ServerKeeps(h)
    requires h.stage.SelectParameters? || h.stage.SendServerHello?
    ensures Keeps(ServerDo(h, plan, answer, n), plan.hasCert)
  {
    hide DoReadClientHello, DoSelectCertificate, DoSendServerCertificate, DoSendServerKeyExchange,
         DoSendServerHelloDone, DoReadClientCertificate, DoVerifyClientCertificate, DoReadClientKeyExchange,
         DoReadClientCertificateVerify, DoReadNextProto, DoReadChannelId, DoSendServerFinished, GetFinished,
         ChangeRead, ReadOne;
  }

  lemma FlightKeeps(h: Hs, plan: Plan, answer: Answer, n: nat)
    requires h.server && h.wait.Ok? && ServerKeeps(h)
    requires h.stage.SendServerCertificate? || h.stage.SendServerKeyExchange? || h.stage.SendServerHelloDone?
    ensures Keeps(ServerDo(h, plan, answer, n), plan.hasCert)
  {
    hide DoReadClientHello, DoSelectCertificate, DoSelectParameters, DoSendServerHello,
         DoReadClientCertificate, DoVerifyClientCertificate, DoReadClientKeyExchange,
         DoReadClientCertificateVerify, DoReadNextProto, DoReadChannelId, DoSendServerFinished, GetFinished,
         ChangeRead, ReadOne;
  }

  lemma ClientCertificateKeeps(h: Hs, plan: Plan, answer: Answer, n: nat)
    requires h.server && h.wait.Ok? && ServerKeeps(h)
    requires h.stage.ReadClientCertificate? || h.stage.VerifyClientCertificate?
    ensures Keeps(ServerDo(h, plan, answer, n), plan.hasCert)
  {
    hide DoReadClientHello, DoSelectCertificate, DoSelectParameters, DoSendServerHello,
         DoSendServerCertificate, DoSendServerKeyExchange, DoSendServerHelloDone, DoReadClientKeyExchange,
         DoReadClientCertificateVerify, DoReadNextProto, DoReadChannelId, DoSendServerFinished, GetFinished,
         ChangeRead, ReadOne;
  }

  lemma ClientKeyKeeps(h: Hs, plan: Plan, answer: Answer, n: nat)
    requires h.server && h.wait.Ok? && ServerKeeps(h)
    requires h.stage.ReadClientKeyExchange? || h.stage.ReadChangeCipherSpec?
    ensures Keeps(ServerDo(h, plan, answer, n), plan.hasCert)
  {
    hide DoReadClientCertificateVerify, DoReadClientHello, DoSelectCertificate, DoSelectParameters, DoSendServerHello,
         DoSendServerCertificate, DoSendServerKeyExchange, DoSendServerHelloDone, DoReadClientCertificate,
         DoVerifyClientCertificate, DoReadNextProto, DoReadChannelId, DoSendServerFinished, GetFinished,
         ChangeRead, ReadOne;
  }

  lemma CertificateVerifyKeeps(h: Hs, plan: Plan, answer: Answer, n: nat)
    requires h.server && h.wait.Ok? && ServerKeeps(h)
    requires h.stage.ReadClientCertificateVerify?
    ensures Keeps(ServerDo(h, plan, answer, n), plan.hasCert)
  {
    hide DoReadClientKeyExchange, DoReadClientHello, DoSelectCertificate, DoSelectParameters, DoSendServerHello,
         DoSendServerCertificate, DoSendServerKeyExchange, DoSendServerHelloDone, DoReadClientCertificate,
         DoVerifyClientCertificate, DoReadNextProto, DoReadChannelId, DoSendServerFinished, GetFinished,
         ChangeRead, ReadOne;
  }

  lemma ClientLastReadKeeps(h: Hs, plan: Plan, answer: Answer, n: nat)
    requires h.server && h.wait.Ok? && ServerKeeps(h)
    requires h.stage.ProcessClientChangeCipherSpec? || h.stage.ReadNextProto?
    ensures Keeps(ServerDo(h, plan, answer, n), plan.hasCert)
  {
    hide GetFinished, DoReadClientHello, DoSelectCertificate, DoSelectParameters, DoSendServerHello,
         DoSendServerCertificate, DoSendServerKeyExchange, DoSendServerHelloDone, DoReadClientCertificate,
         DoVerifyClientCertificate, DoReadClientKeyExchange, DoReadClientCertificateVerify, DoReadChannelId,
         DoSendServerFinished;
  }

  lemma ClientFinishedKeeps(h: Hs, plan: Plan, answer: Answer, n: nat)
    requires h.server && h.wait.Ok? && ServerKeeps(h)
    requires h.stage.ReadClientFinished?
    ensures Keeps(ServerDo(h, plan, answer, n), plan.hasCert)
  {
    hide DoReadNextProto, ChangeRead, DoReadClientHello, DoSelectCertificate, DoSelectParameters, DoSendServerHello,
         DoSendServerCertificate, DoSendServerKeyExchange, DoSendServerHelloDone, DoReadClientCertificate,
         DoVerifyClientCertificate, DoReadClientKeyExchange, DoReadClientCertificateVerify, DoReadChannelId,
         DoSendServerFinished;
  }

  lemma ChannelIdKeeps(h: Hs, plan: Plan, answer: Answer, n: nat)
    requires h.server && h.wait.Ok? && ServerKeeps(h)
    requires h.stage.ReadChannelId?
    ensures Keeps(ServerDo(h, plan, answer, n), plan.hasCert)
  {
    hide DoSendServerFinished, DoReadClientHello, DoSelectCertificate, DoSelectParameters, DoSendServerHello,
         DoSendServerCertificate, DoSendServerKeyExchange, DoSendServerHelloDone, DoReadClientCertificate,
         DoVerifyClientCertificate, DoReadClientKeyExchange, DoReadClientCertificateVerify, DoReadNextProto,
         GetFinished, ChangeRead, ReadOne;
  }

  lemma ServerEndKeeps(h: Hs, plan: Plan, answer: Answer, n: nat)
    requires h.server && h.wait.Ok? && ServerKeeps(h)
    requires h.stage.SendServerFinished?
    ensures Keeps(ServerDo(h, plan, answer, n), plan.hasCert)
  {
    hide DoReadChannelId, DoReadClientHello, DoSelectCertificate, DoSelectParameters, DoSendServerHello,
         DoSendServerCertificate, DoSendServerKeyExchange, DoSendServerHelloDone, DoReadClientCertificate,
         DoVerifyClientCertificate, DoReadClientKeyExchange, DoReadClientCertificateVerify, DoReadNextProto,
         GetFinished, ChangeRead, ReadOne;
  }

  lemma ServerStepKeeps(h: Hs, plan: Plan, answer: Answer, n: nat)
    requires h.server && h.wait.Ok? && ServerKeeps(h)
    ensures Keeps(ServerDo(h, plan, answer, n), plan.hasCert)
  {
    hide DoReadClientHello, DoSelectCertificate, DoSelectParameters, DoSendServerHello,
         DoSendServerCertificate, DoSendServerKeyExchange, DoSendServerHelloDone, DoReadClientCertificate,
         DoVerifyClientCertificate, DoReadClientKeyExchange, DoReadClientCertificateVerify, DoReadNextProto,
         DoReadChannelId, DoSendServerFinished, GetFinished, ChangeRead, ReadOne;
    if h.stage.StartAccept? || h.stage.FinishServerHandshake? || h.stage.ReadClientHello? || h.stage.SelectCertificate? {
      AcceptKeeps(h, plan, answer, n);
    } else if h.stage.SelectParameters? || h.stage.SendServerHello? {
      ParametersKeep(h, plan, answer, n);
    } else if h.stage.SendServerCertificate? || h.stage.SendServerKeyExchange? || h.stage.SendServerHelloDone? {
      FlightKeeps(h, plan, answer, n);
    } else if h.stage.ReadClientCertificate? || h.stage.VerifyClientCertificate? {
      ClientCertificateKeeps(h, plan, answer, n);
    } else if h.stage.ReadClientCertificateVerify? {
      CertificateVerifyKeeps(h, plan, answer, n);
    } else if h.stage.ReadClientKeyExchange? || h.stage.ReadChangeCipherSpec? {
      ClientKeyKeeps(h, plan, answer, n);
    } else if h.stage.ProcessClientChangeCipherSpec? || h.stage.ReadNextProto? {
      ClientLastReadKeeps(h, plan, answer, n);
    } else if h.stage.ReadClientFinished? {
      ClientFinishedKeeps(h, plan, answer, n);
    } else if h.stage.ReadChannelId? {
      ChannelIdKeeps(h, plan, answer, n);
    } else if h.stage.SendServerFinished? {
      ServerEndKeeps(h, plan, answer, n);
    }
  }

  // ---- Runs ----

  /** Flushes, records and more messages leave the buffer alone. */
  lemma OthersKeep(h: Hs, h1: Hs, hasCert: bool)
    requires Keeps(h, hasCert) && h1 == h.(inbox := h1.inbox, flight := h1.flight, wait := h1.wait)
    requires if h.wait.Error? then h1.wait == h.wait else h1.wait.Error? ==> h1.wait.why != FreedBuffer
    ensures Keeps(h1, hasCert)
  {}

  lemma DoKeeps(h: Hs, hasCert: bool, plan: Plan, answer: Answer, n: nat)
    requires Keeps(h, hasCert) && h.wait.Ok? && plan.hasCert == hasCert
    ensures Keeps(Do(plan, h, answer, n), hasCert)
  {
    hide ClientDo, ServerDo, ClientKeeps, ServerKeeps;
    if h.server {
      ServerStepKeeps(h, plan, answer, n);
    } else {
      ClientStepKeeps(h, hasCert, answer, n);
    }
  }

  lemma ActKeeps(h: Hs, hasCert: bool, plan: Plan, action: Action, item: Item)
    requires Keeps(h, hasCert) && plan.hasCert == hasCert && Enabled(h, [item], action)
    ensures Keeps(Acted(plan, h, [item], action), hasCert)
  {
    hide Keeps, Do, Opened, Flushed;
    match action {
      case Run(answer, n) => DoKeeps(h, hasCert, plan, answer, n);
      case FlushSome(k) => FlushKeeps(h, hasCert, k);
      case Receive => ReceiveKeeps(h, hasCert, item);
      case Resume => OthersKeep(h, h.(wait := Ok), hasCert);
    }
  }

  lemma FlushKeeps(h: Hs, hasCert: bool, k: nat)
    requires Keeps(h, hasCert) && h.wait.Flush? && k <= |h.flight|
    ensures Keeps(Flushed(h, k), hasCert)
  {
    hide Keeps;
    OthersKeep(h, Flushed(h, k), hasCert);
  }

  lemma ReceiveKeeps(h: Hs, hasCert: bool, item: Item)
    requires Keeps(h, hasCert) && !h.wait.Error?
    ensures Keeps(Opened(h, item), hasCert)
  {
    hide Keeps;
    OthersKeep(h, Opened(h, item), hasCert);
  }

  lemma TurnKeeps(h: Hs, hasCert: bool, t: Turn)
    requires Keeps(h, hasCert)
    ensures Keeps(Faces(h, hasCert, t), hasCert)
  {
    hide Keeps, Acted;
    match t {
      case Hears(messages) => OthersKeep(h, h.(inbox := h.inbox + messages), hasCert);
      case Acts(plan, action, item) =>
        if Enabled(h, [item], action) { ActKeeps(h, hasCert, plan.(hasCert := hasCert), action, item); }
    }
  }

  /** Whatever the peer sends, whatever callbacks answer, however often states are retried: no run of a machine
      asks for the handshake buffer after it was freed. */
  lemma {:induction false} BufferOutlivesItsUse(server: bool, hasCert: bool, turns: seq<Turn>)
    ensures Keeps(After(server, hasCert, turns), hasCert)
    ensures After(server, hasCert, turns).wait != Error(FreedBuffer)
  {
    if turns != [] {
      BufferOutlivesItsUse(server, hasCert, turns[..|turns| - 1]);
      TurnKeeps(After(server, hasCert, turns[..|turns| - 1]), hasCert, turns[|turns| - 1]);
    }
  }
}
