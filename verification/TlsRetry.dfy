/** Single steps of the handshake machines: retries change nothing, and completed steps go one way. */
module TlsRetry {
  import opened Prelude
  import opened TlsHandshake

  /** A step that has only set what it waits for, a callback only if one has to be asked again. */
  predicate Paused(h: Hs, h1: Hs, answer: Answer) {
    && h1 == Await(h, h1.wait) && !h1.wait.Ok? && !h1.wait.Flush? && !h1.wait.Error?
    && (h1.wait.Pending? ==> answer.Retry?)
  }

  /** A step that failed; it may have hashed, freed or queued something by then. */
  predicate Failed(h: Hs, h1: Hs, answer: Answer) {
    h1.stage == h.stage && h1.wait.Error? && SameKind(h, h1) && (h1.wait == Error(Refused) ==> answer.Refuse?)
  }

  /** Only the two states that settle the negotiation can change whether a session is resumed. */
  predicate SameKind(h: Hs, h1: Hs) {
    h1.neg.resumed == h.neg.resumed || h.stage.ReadServerHello? || h.stage.SelectParameters?
  }

  /** A step that asks for a retry has only set what it waits for; one that moves on gets closer to the end. */
  predicate OneWay(h: Hs, h1: Hs, answer: Answer, rank: nat, rank1: nat) {
    || Paused(h, h1, answer)
    || (Failed(h, h1, answer) && rank1 <= rank)
    || (h1.stage != h.stage && !h1.wait.Error? && !h1.wait.Pending? && rank1 < rank)
  }

  /** The state asks for a retry, fails or goes on to next. */
  predicate Settles(h: Hs, h1: Hs, answer: Answer, next: Stage) {
    Paused(h, h1, answer) || Failed(h, h1, answer) || Moved(h, h1, next)
  }

  predicate Moved(h: Hs, h1: Hs, next: Stage) {
    h1.stage == next && !h1.wait.Error? && !h1.wait.Pending? && SameKind(h, h1)
  }

  /** How far a client state is from the end. In an abbreviated handshake the server's last flight comes
      before the client's, so that read_server_finished is followed by send_client_finished. */
  function ClientRank(s: Stage, resumed: bool): nat {
    match s
    case StartConnect => 18
    case EnterEarlyData => 17
    case ReadServerHello => 16
    case ReadServerCertificate => 15
    case ReadCertificateStatus => 14
    case VerifyServerCertificate => 13
    case ReadServerKeyExchange => 12
    case ReadCertificateRequest => 11
    case ReadServerHelloDone => 10
    case SendClientCertificate => 9
    case SendClientKeyExchange => 8
    case SendClientCertificateVerify => 7
    case SendClientFinished => if resumed then 3 else 6
    case FinishFlight => if resumed then 2 else 5
    case ReadSessionTicket => if resumed then 6 else 4
    case ProcessServerChangeCipherSpec => if resumed then 5 else 3
    case ReadServerFinished => if resumed then 4 else 2
    case FinishClientHandshake => 1
    case _ => 0
  }

  /** The server's likewise: send_server_finished is followed by read_change_cipher_spec when resuming. */
  function ServerRank(s: Stage, resumed: bool): nat {
    match s
    case StartAccept => 19
    case ReadClientHello => 18
    case SelectCertificate => 17
    case SelectParameters => 16
    case SendServerHello => 15
    case SendServerCertificate => 14
    case SendServerKeyExchange => 13
    case SendServerHelloDone => 12
    case ReadClientCertificate => 11
    case VerifyClientCertificate => 10
    case ReadClientKeyExchange => 9
    case ReadClientCertificateVerify => 8
    case SendServerFinished => if resumed then 7 else 2
    case ReadChangeCipherSpec => if resumed then 6 else 7
    case ProcessClientChangeCipherSpec => if resumed then 5 else 6
    case ReadNextProto => if resumed then 4 else 5
    case ReadChannelId => if resumed then 3 else 4
    case ReadClientFinished => if resumed then 2 else 3
    case FinishServerHandshake => 1
    case _ => 0
  }

  /** The order of the client's states. */
  function ClientNext(s: Stage, resumed: bool): Stage {
    match s
    case StartConnect => EnterEarlyData
    case EnterEarlyData => ReadServerHello
    case ReadServerHello => if resumed then ReadSessionTicket else ReadServerCertificate
    case ReadServerCertificate => ReadCertificateStatus
    case ReadCertificateStatus => VerifyServerCertificate
    case VerifyServerCertificate => ReadServerKeyExchange
    case ReadServerKeyExchange => ReadCertificateRequest
    case ReadCertificateRequest => ReadServerHelloDone
    case ReadServerHelloDone => SendClientCertificate
    case SendClientCertificate => SendClientKeyExchange
    case SendClientKeyExchange => SendClientCertificateVerify
    case SendClientCertificateVerify => SendClientFinished
    case SendClientFinished => FinishFlight
    case FinishFlight => if resumed then FinishClientHandshake else ReadSessionTicket
    case ReadSessionTicket => ProcessServerChangeCipherSpec
    case ProcessServerChangeCipherSpec => ReadServerFinished
    case ReadServerFinished => if resumed then SendClientFinished else FinishClientHandshake
    case FinishClientHandshake => Done
    case _ => Done
  }

  /** The order of the server's states. */
  function ServerNext(s: Stage, resumed: bool): Stage {
    match s
    case StartAccept => ReadClientHello
    case ReadClientHello => SelectCertificate
    case SelectCertificate => SelectParameters
    case SelectParameters => SendServerHello
    case SendServerHello => if resumed then SendServerFinished else SendServerCertificate
    case SendServerCertificate => SendServerKeyExchange
    case SendServerKeyExchange => SendServerHelloDone
    case SendServerHelloDone => ReadClientCertificate
    case ReadClientCertificate => VerifyClientCertificate
    case VerifyClientCertificate => ReadClientKeyExchange
    case ReadClientKeyExchange => ReadClientCertificateVerify
    case ReadClientCertificateVerify => ReadChangeCipherSpec
    case ReadChangeCipherSpec => ProcessClientChangeCipherSpec
    case ProcessClientChangeCipherSpec => ReadNextProto
    case ReadNextProto => ReadChannelId
    case ReadChannelId => ReadClientFinished
    case ReadClientFinished => if resumed then FinishServerHandshake else SendServerFinished
    case SendServerFinished => if resumed then ReadChangeCipherSpec else FinishServerHandshake
    case FinishServerHandshake => Done
    case _ => Done
  }

  predicate IsClient(s: Stage) {
    || s.StartConnect? || s.EnterEarlyData? || s.ReadServerHello? || s.ReadServerCertificate?
    || s.ReadCertificateStatus? || s.VerifyServerCertificate? || s.ReadServerKeyExchange? || s.ReadCertificateRequest?
    || s.ReadServerHelloDone? || s.SendClientCertificate? || s.SendClientKeyExchange? || s.SendClientCertificateVerify?
    || s.SendClientFinished? || s.FinishFlight? || s.ReadSessionTicket? || s.ProcessServerChangeCipherSpec?
    || s.ReadServerFinished? || s.FinishClientHandshake?
  }

  predicate IsServer(s: Stage) {
    || s.StartAccept? || s.ReadClientHello? || s.SelectCertificate? || s.SelectParameters?
    || s.SendServerHello? || s.SendServerCertificate? || s.SendServerKeyExchange? || s.SendServerHelloDone?
    || s.ReadClientCertificate? || s.VerifyClientCertificate? || s.ReadClientKeyExchange? || s.ReadClientCertificateVerify?
    || s.ReadChangeCipherSpec? || s.ProcessClientChangeCipherSpec? || s.ReadNextProto? || s.ReadChannelId?
    || s.ReadClientFinished? || s.SendServerFinished? || s.FinishServerHandshake?
  }

  predicate ClientOneWay(h: Hs, h1: Hs, answer: Answer) {
    && (h1.stage.Done? || IsClient(h1.stage))
    && OneWay(h, h1, answer, ClientRank(h.stage, h.neg.resumed), ClientRank(h1.stage, h1.neg.resumed))
  }

  predicate ServerOneWay(h: Hs, h1: Hs, answer: Answer) {
    && (h1.stage.Done? || IsServer(h1.stage))
    && OneWay(h, h1, answer, ServerRank(h.stage, h.neg.resumed), ServerRank(h1.stage, h1.neg.resumed))
  }

  lemma ClientNextIsLower(s: Stage, resumed: bool)
    requires IsClient(s)
    ensures ClientNext(s, resumed).Done? || IsClient(ClientNext(s, resumed))
    ensures ClientNext(s, resumed) != s && ClientRank(ClientNext(s, resumed), resumed) < ClientRank(s, resumed)
  {
  }

  lemma ClientSameRank(h: Hs, h1: Hs)
    requires SameKind(h, h1)
    ensures ClientRank(h.stage, h.neg.resumed) == ClientRank(h.stage, h1.neg.resumed)
  {
  }

  lemma ClientSettled(h: Hs, h1: Hs, answer: Answer)
    requires IsClient(h.stage) && Settles(h, h1, answer, ClientNext(h.stage, h1.neg.resumed))
    ensures ClientOneWay(h, h1, answer)
  {
    hide IsClient, ClientRank, ClientNext;
    if Paused(h, h1, answer) {
      assert h1.stage == h.stage;
    } else if Failed(h, h1, answer) {
      ClientSameRank(h, h1);
    } else {
      ClientSameRank(h, h1);
      ClientNextIsLower(h.stage, h1.neg.resumed);
    }
  }

  lemma ServerNextIsLower(s: Stage, resumed: bool)
    requires IsServer(s)
    ensures ServerNext(s, resumed).Done? || IsServer(ServerNext(s, resumed))
    ensures ServerNext(s, resumed) != s && ServerRank(ServerNext(s, resumed), resumed) < ServerRank(s, resumed)
  {
  }

  lemma ServerSameRank(h: Hs, h1: Hs)
    requires SameKind(h, h1)
    ensures ServerRank(h.stage, h.neg.resumed) == ServerRank(h.stage, h1.neg.resumed)
  {
  }

  lemma ServerSettled(h: Hs, h1: Hs, answer: Answer)
    requires IsServer(h.stage) && Settles(h, h1, answer, ServerNext(h.stage, h1.neg.resumed))
    ensures ServerOneWay(h, h1, answer)
  {
    hide IsServer, ServerRank, ServerNext;
    if Paused(h, h1, answer) {
      assert h1.stage == h.stage;
    } else if Failed(h, h1, answer) {
      ServerSameRank(h, h1);
    } else {
      ServerSameRank(h, h1);
      ServerNextIsLower(h.stage, h1.neg.resumed);
    }
  }

  // ---- Every state settles ----

  lemma ReadsOne(h: Hs, h1: Hs, kind: Kind, answer: Answer, next: Stage)
    requires h1 == ReadOne(h, kind, answer, next)
    ensures Settles(h, h1, answer, next)
  {
    if h.inbox == [] {
      assert Paused(h, h1, answer);
    } else if h.inbox[0].kind != kind {
      assert Failed(h, h1, answer);
    } else if answer.Refuse? {
      assert Failed(h, h1, answer);
    } else {
      assert Moved(h, h1, next);
    }
  }

  lemma SettlesAs(h: Hs, h1: Hs, answer: Answer, next: Stage)
    requires Paused(h, h1, answer) || Failed(h, h1, answer) || Moved(h, h1, next)
    ensures Settles(h, h1, answer, next)
  {}

  lemma ReadsFinished(h: Hs, h1: Hs, answer: Answer, next: Stage)
    requires h1 == GetFinished(h, next)
    ensures Settles(h, h1, answer, next)
  {
    hide Settles;
    if h.inbox == [] {
      assert Paused(h, h1, answer);
    } else if h.inbox[0].kind != Finished {
      assert Failed(h, h1, answer);
    } else if !GoodDigest(h) {
      assert Failed(h, h1, answer);
    } else {
      assert Moved(h, h1, next);
    }
    SettlesAs(h, h1, answer, next);
  }

  lemma Asks(h: Hs, h1: Hs, answer: Answer, on: Callback, next: Stage)
    requires h1 == match answer case Go => Enter(h, next) case Retry => Await(h, Pending(on)) case Refuse(_) => Fail(h, Refused)
    ensures Settles(h, h1, answer, next)
  {
    if answer.Retry? {
      assert Paused(h, h1, answer);
    } else if answer.Refuse? {
      assert Failed(h, h1, answer);
    } else {
      assert Moved(h, h1, next);
    }
  }

  lemma StartConnectSettles(h: Hs, h1: Hs, answer: Answer, n: nat)
    requires h1 == DoStartConnect(h, answer, n)
    ensures Settles(h, h1, answer, EnterEarlyData)
  {
    if answer.Refuse? {
      assert Failed(h, h1, answer);
    } else {
      assert Moved(h, h1, EnterEarlyData);
    }
  }

  lemma ReadServerHelloSettles(h: Hs, h1: Hs, answer: Answer)
    requires h.stage.ReadServerHello? && h1 == DoReadServerHello(h, answer)
    ensures Settles(h, h1, answer, if h1.neg.resumed then ReadSessionTicket else ReadServerCertificate)
  {
    if h.inbox == [] {
      assert Paused(h, h1, answer);
    } else if h.inbox[0].kind != ServerHello || !h.inbox[0].body.Hello? || answer.Refuse? || h.transcript.buffer.None? {
      assert Failed(h, h1, answer);
    } else {
      assert Moved(h, h1, if h1.neg.resumed then ReadSessionTicket else ReadServerCertificate);
    }
  }

  lemma ReadServerCertificateSettles(h: Hs, h1: Hs, answer: Answer)
    requires h1 == DoReadServerCertificate(h, answer)
    ensures Settles(h, h1, answer, ReadCertificateStatus)
  {
    if !h.neg.certAuth {
      assert Moved(h, h1, ReadCertificateStatus);
    } else if h.inbox != [] && h.inbox[0] == Message(Certificate, Text(0)) {
      assert Failed(h, h1, answer);
    } else {
      ReadsOne(h, h1, Certificate, answer, ReadCertificateStatus);
    }
  }

  lemma ReadCertificateStatusSettles(h: Hs, h1: Hs, answer: Answer)
    requires h1 == DoReadCertificateStatus(h, answer)
    ensures Settles(h, h1, answer, VerifyServerCertificate)
  {
    if h.neg.status && h.inbox == [] {
      assert Paused(h, h1, answer);
    } else if h.neg.status && h.inbox[0].kind == CertificateStatus && answer.Refuse? {
      assert Failed(h, h1, answer);
    } else {
      assert Moved(h, h1, VerifyServerCertificate);
    }
  }

  lemma VerifyServerCertificateSettles(h: Hs, h1: Hs, answer: Answer)
    requires h1 == DoVerifyServerCertificate(h, answer)
    ensures Settles(h, h1, answer, ReadServerKeyExchange)
  {
    if !h.neg.certAuth {
      assert Moved(h, h1, ReadServerKeyExchange);
    } else {
      Asks(h, h1, answer, PeerCertificate, ReadServerKeyExchange);
    }
  }

  lemma ReadServerKeyExchangeSettles(h: Hs, h1: Hs, answer: Answer)
    requires h1 == DoReadServerKeyExchange(h, answer)
    ensures Settles(h, h1, answer, ReadCertificateRequest)
  {
    hide Settles;
    if h.inbox == [] {
      assert Paused(h, h1, answer);
    } else if h.inbox[0].kind != ServerKeyExchange && h.neg.ecdhe {
      assert Failed(h, h1, answer);
    } else if h.inbox[0].kind == ServerKeyExchange && (answer.Refuse? || (!h.neg.ecdhe && h.neg.certAuth)) {
      assert Failed(h, h1, answer);
    } else {
      assert Moved(h, h1, ReadCertificateRequest);
    }
    SettlesAs(h, h1, answer, ReadCertificateRequest);
  }

  lemma ReadCertificateRequestSettles(h: Hs, h1: Hs, answer: Answer)
    requires h1 == DoReadCertificateRequest(h, answer)
    ensures Settles(h, h1, answer, ReadServerHelloDone)
  {
    if h.neg.certAuth && h.inbox == [] {
      assert Paused(h, h1, answer);
    } else if h1.wait.Error? {
      assert Failed(h, h1, answer);
    } else {
      assert Moved(h, h1, ReadServerHelloDone);
    }
  }

  lemma SendClientCertificateSettles(h: Hs, h1: Hs, hasCert: bool, answer: Answer, n: nat)
    requires h1 == DoSendClientCertificate(h, hasCert, answer, n)
    ensures Settles(h, h1, answer, SendClientKeyExchange)
  {
    if h.certRequest && answer.Retry? {
      assert Paused(h, h1, answer);
    } else if h.certRequest && answer.Refuse? {
      assert Failed(h, h1, answer);
    } else {
      assert Moved(h, h1, SendClientKeyExchange);
    }
  }

  lemma SendClientKeyExchangeSettles(h: Hs, h1: Hs, answer: Answer, n: nat)
    requires h1 == DoSendClientKeyExchange(h, answer, n)
    ensures Settles(h, h1, answer, SendClientCertificateVerify)
  {
    if answer.Refuse? {
      assert Failed(h, h1, answer);
    } else {
      assert Moved(h, h1, SendClientCertificateVerify);
    }
  }

  lemma SendClientCertificateVerifySettles(h: Hs, h1: Hs, hasCert: bool, answer: Answer)
    requires h1 == DoSendClientCertificateVerify(h, hasCert, answer)
    ensures Settles(h, h1, answer, SendClientFinished)
  {
    if !h.certRequest || !hasCert {
      assert Moved(h, h1, SendClientFinished);
    } else if h.transcript.buffer.None? || answer.Refuse? {
      assert Failed(h, h1, answer);
    } else if answer.Retry? {
      assert Paused(h, h1, answer);
    } else {
      assert Moved(h, h1, SendClientFinished);
    }
  }

  /** Queueing changes neither the state nor what was negotiated. */
  lemma QueueingKeeps(b: bool, h: Hs, m: Message)
    ensures PutIf(b, h, m).stage == h.stage && PutIf(b, h, m).neg == h.neg
    ensures QueueCcs(h).stage == PutCcs(h).stage == h.stage && QueueCcs(h).neg == PutCcs(h).neg == h.neg
    ensures PutFinished(h).stage == h.stage && PutFinished(h).neg == h.neg
  {}

  lemma SendClientFinishedSettles(h: Hs, h1: Hs, answer: Answer, n: nat)
    requires h1 == DoSendClientFinished(h, answer, n)
    ensures Settles(h, h1, answer, FinishFlight)
  {
    hide PutIf, QueueCcs, PutCcs, PutFinished;
    var a := PutIf(h.neg.nextProto, PutCcs(h), Message(NextProto, Text(n)));
    var signed := Message(ChannelId, Signature(a.transcript.HashOf()));
    QueueingKeeps(h.neg.nextProto, h, signed);
    QueueingKeeps(h.neg.nextProto, PutCcs(h), Message(NextProto, Text(n)));
    QueueingKeeps(h.neg.channelId, a, signed);
    QueueingKeeps(true, PutIf(h.neg.channelId, a, signed), signed);
    if answer.Refuse? {
      assert Failed(h, h1, answer);
    } else if h.neg.channelId && answer.Retry? {
      assert Paused(h, h1, answer);
    } else {
      assert Moved(h, h1, FinishFlight);
    }
  }

  lemma ReadSessionTicketSettles(h: Hs, h1: Hs, answer: Answer)
    requires h1 == DoReadSessionTicket(h, answer)
    ensures Settles(h, h1, answer, ProcessServerChangeCipherSpec)
  {
    if h.neg.ticket && h.inbox == [] {
      assert Paused(h, h1, answer);
    } else if h.neg.ticket && (h.inbox[0].kind != NewSessionTicket || answer.Refuse?) {
      assert Failed(h, h1, answer);
    } else {
      assert Moved(h, h1, ProcessServerChangeCipherSpec);
    }
  }

  lemma Passes(h: Hs, h1: Hs, answer: Answer, next: Stage)
    requires h1 == Enter(h, next) || h1 == ChangeRead(h, next)
    ensures Settles(h, h1, answer, next)
  {
    if h1.wait.Error? { assert Failed(h, h1, answer); } else { assert Moved(h, h1, next); }
  }

  /** In the client a retry changes neither transcript nor flight nor anything else but what is waited for, and
      every completed step lowers the rank. */
  lemma ClientStepsOneWay(h: Hs, h1: Hs, hasCert: bool, answer: Answer, n: nat)
    requires IsClient(h.stage) && h1 == ClientDo(h, hasCert, answer, n)
    ensures ClientOneWay(h, h1, answer)
  {
    hide DoStartConnect, DoSendClientCertificate, DoSendClientKeyExchange, DoSendClientCertificateVerify, DoSendClientFinished,
         DoReadServerHello, DoReadServerCertificate, DoReadCertificateStatus, DoVerifyServerCertificate, DoReadServerKeyExchange,
         DoReadCertificateRequest, DoReadSessionTicket, ReadOne, GetFinished, ChangeRead, Paused, Failed, ClientOneWay;
    var last := if h.neg.resumed then SendClientFinished else FinishClientHandshake;
    match h.stage {
      case StartConnect => StartConnectSettles(h, h1, answer, n);
      case EnterEarlyData => Passes(h, h1, answer, ReadServerHello);
      case ReadServerHello => ReadServerHelloSettles(h, h1, answer);
      case ReadServerCertificate => ReadServerCertificateSettles(h, h1, answer);
      case ReadCertificateStatus => ReadCertificateStatusSettles(h, h1, answer);
      case VerifyServerCertificate => VerifyServerCertificateSettles(h, h1, answer);
      case ReadServerKeyExchange => ReadServerKeyExchangeSettles(h, h1, answer);
      case ReadCertificateRequest => ReadCertificateRequestSettles(h, h1, answer);
      case ReadServerHelloDone => ReadsOne(h, h1, ServerHelloDone, answer, SendClientCertificate);
      case SendClientCertificate => SendClientCertificateSettles(h, h1, hasCert, answer, n);
      case SendClientKeyExchange => SendClientKeyExchangeSettles(h, h1, answer, n);
      case SendClientCertificateVerify => SendClientCertificateVerifySettles(h, h1, hasCert, answer);
      case SendClientFinished => SendClientFinishedSettles(h, h1, answer, n);
      case FinishFlight => Passes(h, h1, answer, if h.neg.resumed then FinishClientHandshake else ReadSessionTicket);
      case ReadSessionTicket => ReadSessionTicketSettles(h, h1, answer);
      case ProcessServerChangeCipherSpec => Passes(h, h1, answer, ReadServerFinished);
      case ReadServerFinished => ReadsFinished(h, h1, answer, last);
      case FinishClientHandshake => Passes(h, h1, answer, Done);
    }
    ClientSettled(h, h1, answer);
  }

  lemma ReadClientHelloSettles(h: Hs, h1: Hs, answer: Answer)
    requires h1 == DoReadClientHello(h, answer)
    ensures Settles(h, h1, answer, SelectCertificate)
  {
    if h.inbox == [] {
      assert Paused(h, h1, answer);
    } else if h.inbox[0].kind != ClientHello {
      assert Failed(h, h1, answer);
    } else {
      Asks(h, h1, answer, CertificateSelection, SelectCertificate);
    }
  }

  lemma SelectCertificateSettles(h: Hs, h1: Hs, answer: Answer)
    requires h1 == DoSelectCertificate(h, answer)
    ensures Settles(h, h1, answer, SelectParameters)
  {
    if h.inbox == [] {
      assert Paused(h, h1, answer);
    } else {
      Asks(h, h1, answer, X509Lookup, SelectParameters);
    }
  }

  lemma SelectParametersSettles(h: Hs, h1: Hs, plan: Plan, answer: Answer)
    requires h.stage.SelectParameters? && h1 == DoSelectParameters(h, plan, answer)
    ensures Settles(h, h1, answer, SendServerHello)
  {
    if h.inbox == [] || answer.Retry? {
      assert Paused(h, h1, answer);
    } else if answer.Refuse? || h.transcript.buffer.None? {
      assert Failed(h, h1, answer);
    } else {
      assert Moved(h, h1, SendServerHello);
    }
  }

  lemma SendServerHelloSettles(h: Hs, h1: Hs, plan: Plan, answer: Answer)
    requires h1 == DoSendServerHello(h, plan, answer)
    ensures Settles(h, h1, answer, if h.neg.resumed then SendServerFinished else SendServerCertificate)
  {
    if answer.Refuse? {
      assert Failed(h, h1, answer);
    } else {
      assert Moved(h, h1, if h.neg.resumed then SendServerFinished else SendServerCertificate);
    }
  }

  lemma SendServerCertificateSettles(h: Hs, h1: Hs, plan: Plan, answer: Answer, n: nat)
    requires h1 == DoSendServerCertificate(h, plan, answer, n)
    ensures Settles(h, h1, answer, SendServerKeyExchange)
  {
    if answer.Refuse? {
      assert Failed(h, h1, answer);
    } else {
      assert Moved(h, h1, SendServerKeyExchange);
    }
  }

  lemma SendServerKeyExchangeSettles(h: Hs, h1: Hs, answer: Answer, n: nat)
    requires h1 == DoSendServerKeyExchange(h, answer, n)
    ensures Settles(h, h1, answer, SendServerHelloDone)
  {
    if !h.serverParams {
      assert Moved(h, h1, SendServerHelloDone);
    } else if answer.Refuse? {
      assert Failed(h, h1, answer);
    } else if h.neg.certAuth && answer.Retry? {
      assert Paused(h, h1, answer);
    } else {
      assert Moved(h, h1, SendServerHelloDone);
    }
  }

  lemma SendServerHelloDoneSettles(h: Hs, h1: Hs, answer: Answer, n: nat)
    requires h1 == DoSendServerHelloDone(h, answer, n)
    ensures Settles(h, h1, answer, ReadClientCertificate)
  {
    if answer.Refuse? {
      assert Failed(h, h1, answer);
    } else {
      assert Moved(h, h1, ReadClientCertificate);
    }
  }

  lemma ReadClientCertificateSettles(h: Hs, h1: Hs, answer: Answer)
    requires h1 == DoReadClientCertificate(h, answer)
    ensures Settles(h, h1, answer, VerifyClientCertificate)
  {
    if !h.certRequest {
      assert Moved(h, h1, VerifyClientCertificate);
    } else if h.inbox == [] {
      assert Paused(h, h1, answer);
    } else if h.inbox[0].kind != Certificate || answer.Refuse? {
      assert Failed(h, h1, answer);
    } else {
      assert Moved(h, h1, VerifyClientCertificate);
    }
  }

  lemma VerifyClientCertificateSettles(h: Hs, h1: Hs, answer: Answer)
    requires h1 == DoVerifyClientCertificate(h, answer)
    ensures Settles(h, h1, answer, ReadClientKeyExchange)
  {
    if !h.peerKey {
      assert Moved(h, h1, ReadClientKeyExchange);
    } else {
      Asks(h, h1, answer, PeerCertificate, ReadClientKeyExchange);
    }
  }

  lemma ReadClientKeyExchangeSettles(h: Hs, h1: Hs, answer: Answer)
    requires h1 == DoReadClientKeyExchange(h, answer)
    ensures Settles(h, h1, answer, ReadClientCertificateVerify)
  {
    if h.inbox == [] {
      assert Paused(h, h1, answer);
    } else if h.inbox[0].kind != ClientKeyExchange || answer.Refuse? {
      assert Failed(h, h1, answer);
    } else if h.neg.certAuth && !h.neg.ecdhe && answer.Retry? {
      assert Paused(h, h1, answer);
    } else {
      assert Moved(h, h1, ReadClientCertificateVerify);
    }
  }

  lemma ReadClientCertificateVerifySettles(h: Hs, h1: Hs, answer: Answer)
    requires h1 == DoReadClientCertificateVerify(h, answer)
    ensures Settles(h, h1, answer, ReadChangeCipherSpec)
  {
    if !h.peerKey {
      assert Moved(h, h1, ReadChangeCipherSpec);
    } else if h.inbox == [] {
      assert Paused(h, h1, answer);
    } else if h1.wait.Error? {
      assert Failed(h, h1, answer);
    } else {
      assert Moved(h, h1, ReadChangeCipherSpec);
    }
  }

  lemma ReadNextProtoSettles(h: Hs, h1: Hs, answer: Answer)
    requires h1 == DoReadNextProto(h, answer)
    ensures Settles(h, h1, answer, ReadChannelId)
  {
    if !h.neg.nextProto {
      assert Moved(h, h1, ReadChannelId);
    } else {
      ReadsOne(h, h1, NextProto, answer, ReadChannelId);
    }
  }

  lemma ReadChannelIdSettles(h: Hs, h1: Hs, answer: Answer)
    requires h1 == DoReadChannelId(h, answer)
    ensures Settles(h, h1, answer, ReadClientFinished)
  {
    hide Settles;
    if !h.neg.channelId {
      assert Moved(h, h1, ReadClientFinished);
    } else if h.inbox == [] {
      assert Paused(h, h1, answer);
    } else if h1.wait.Error? {
      assert Failed(h, h1, answer);
    } else {
      assert Moved(h, h1, ReadClientFinished);
    }
    SettlesAs(h, h1, answer, ReadClientFinished);
  }

  lemma SendServerFinishedSettles(h: Hs, h1: Hs, answer: Answer, n: nat)
    requires h1 == DoSendServerFinished(h, answer, n)
    ensures Settles(h, h1, answer, if h.neg.resumed then ReadChangeCipherSpec else FinishServerHandshake)
  {
    if answer.Refuse? {
      assert Failed(h, h1, answer);
    } else {
      assert Moved(h, h1, if h.neg.resumed then ReadChangeCipherSpec else FinishServerHandshake);
    }
  }

  /** In the server likewise. */
  lemma ServerStepsOneWay(h: Hs, h1: Hs, plan: Plan, answer: Answer, n: nat)
    requires IsServer(h.stage) && h1 == ServerDo(h, plan, answer, n)
    ensures ServerOneWay(h, h1, answer)
  {
    hide DoSendServerHello, DoSendServerCertificate, DoSendServerKeyExchange, DoSendServerHelloDone, DoSendServerFinished,
         DoReadClientHello, DoSelectCertificate, DoSelectParameters, DoReadClientCertificate, DoVerifyClientCertificate,
         DoReadClientKeyExchange, DoReadClientCertificateVerify, DoReadNextProto, DoReadChannelId, GetFinished, ChangeRead,
         Paused, Failed, ServerOneWay;
    match h.stage {
      case StartAccept => Passes(h, h1, answer, ReadClientHello);
      case ReadClientHello => ReadClientHelloSettles(h, h1, answer);
      case SelectCertificate => SelectCertificateSettles(h, h1, answer);
      case SelectParameters => SelectParametersSettles(h, h1, plan, answer);
      case SendServerHello => SendServerHelloSettles(h, h1, plan, answer);
      case SendServerCertificate => SendServerCertificateSettles(h, h1, plan, answer, n);
      case SendServerKeyExchange => SendServerKeyExchangeSettles(h, h1, answer, n);
      case SendServerHelloDone => SendServerHelloDoneSettles(h, h1, answer, n);
      case ReadClientCertificate => ReadClientCertificateSettles(h, h1, answer);
      case VerifyClientCertificate => VerifyClientCertificateSettles(h, h1, answer);
      case ReadClientKeyExchange => ReadClientKeyExchangeSettles(h, h1, answer);
      case ReadClientCertificateVerify => ReadClientCertificateVerifySettles(h, h1, answer);
      case ReadChangeCipherSpec => assert Moved(h, h1, ProcessClientChangeCipherSpec);
      case ProcessClientChangeCipherSpec => Passes(h, h1, answer, ReadNextProto);
      case ReadNextProto => ReadNextProtoSettles(h, h1, answer);
      case ReadChannelId => ReadChannelIdSettles(h, h1, answer);
      case ReadClientFinished => ReadsFinished(h, h1, answer, if h.neg.resumed then FinishServerHandshake else SendServerFinished);
      case SendServerFinished => SendServerFinishedSettles(h, h1, answer, n);
      case FinishServerHandshake => Passes(h, h1, answer, Done);
    }
    ServerSettled(h, h1, answer);
  }
}
