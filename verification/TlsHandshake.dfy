/** The TLS 1.0 to 1.2 handshake machines of the client and the server, one function for each state. */
module TlsHandshake {
  import opened Prelude

  // ---- Messages ----

  datatype Kind = ClientHello | ServerHello | Certificate | CertificateStatus | ServerKeyExchange | CertificateRequest
    | ServerHelloDone | ClientKeyExchange | CertificateVerify | NextProto | ChannelId | NewSessionTicket | Finished

  /** What ServerHello settles: resumption, the kind of cipher suite, and which extensions are in use. */
  datatype Negotiated = Negotiated(resumed: bool, certAuth: bool, ecdhe: bool, status: bool, ticket: bool,
                                   nextProto: bool, channelId: bool)

  /** Contents that matter: a text (0 for an empty certificate chain), what ServerHello negotiates, and a
      MAC or a signature, represented by the transcript it was made over. */
  datatype Body = Text(n: nat) | Hello(neg: Negotiated) | Mac(fromServer: bool, over: seq<Message>) | Signature(over: seq<Message>)

  datatype Message = Message(kind: Kind, body: Body)

  /** What travels in a record: a handshake message, or a ChangeCipherSpec. */
  datatype Content = Hand(msg: Message) | Ccs

  /** A record, sealed under the keys of an epoch: the number of cipher changes of its sender so far. */
  datatype Item = Item(epoch: nat, content: Content)

  // ---- The transcript ----

  /** SSLTranscript: the buffered messages, and the messages put into the running hash. */
  datatype Transcript = Transcript(buffer: Option<seq<Message>>, hash: Option<seq<Message>>) {

    function Update(m: Message): Transcript {
      Transcript(if buffer.Some? then Some(buffer.value + [m]) else None, if hash.Some? then Some(hash.value + [m]) else None)
    }

    function InitHash(): Transcript {
      Transcript(buffer, buffer)
    }

    function FreeBuffer(): Transcript {
      Transcript(None, hash)
    }

    function HashOf(): seq<Message> {
      if hash.Some? then hash.value else []
    }
  }

  // ---- One side of a handshake ----

  datatype Stage =
      // the client's
    | StartConnect | EnterEarlyData | ReadServerHello | ReadServerCertificate | ReadCertificateStatus
    | VerifyServerCertificate | ReadServerKeyExchange | ReadCertificateRequest | ReadServerHelloDone
    | SendClientCertificate | SendClientKeyExchange | SendClientCertificateVerify | SendClientFinished | FinishFlight
    | ReadSessionTicket | ProcessServerChangeCipherSpec | ReadServerFinished | FinishClientHandshake
      // the server's
    | StartAccept | ReadClientHello | SelectCertificate | SelectParameters | SendServerHello | SendServerCertificate
    | SendServerKeyExchange | SendServerHelloDone | ReadClientCertificate | VerifyClientCertificate
    | ReadClientKeyExchange | ReadClientCertificateVerify | ReadChangeCipherSpec | ProcessClientChangeCipherSpec
    | ReadNextProto | ReadChannelId | ReadClientFinished | SendServerFinished | FinishServerHandshake
      // either's
    | Done

  datatype Reason = Refused | Unexpected | Decode | BadDigest | BadSignature | BadRecord | ExcessData | FreedBuffer

  /** ssl_hs_wait_t: what the machine returned and the driver has to resolve. */
  datatype Wait = Ok | Error(why: Reason) | Flush | NeedServerHello | NeedMessage | NeedCcs | Pending(on: Callback)

  datatype Callback = CertificateSelection | X509Lookup | ChannelIdLookup | PrivateKey | Session | PeerCertificate

  /** SSL_HANDSHAKE and the parts of the connection it works on. */
  datatype Hs = Hs(server: bool, stage: Stage, wait: Wait, transcript: Transcript, flight: seq<Item>, inbox: seq<Message>,
                   readEpoch: nat, writeEpoch: nat, neg: Negotiated, certRequest: bool, peerKey: bool, serverParams: bool)

  /** What a state meets when it asks a callback or a private key, parses a body, or builds a message: it goes
      on, has to try again, or fails, at the first or at a later of the points where it may. */
  datatype Answer = Go | Retry | Refuse(at: nat)

  const NOTHING_NEGOTIATED := Negotiated(false, false, false, false, false, false, false)

  function Start(server: bool): Hs {
    Hs(server, if server then StartAccept else StartConnect, Ok, Transcript(Some([]), None), [], [], 0, 0,
       NOTHING_NEGOTIATED, false, false, false)
  }

  // ---- Moves ----

  function Fail(h: Hs, why: Reason): Hs {
    h.(wait := Error(why))
  }

  function Await(h: Hs, w: Wait): Hs {
    h.(wait := w)
  }

  function Enter(h: Hs, stage: Stage): Hs {
    h.(stage := stage, wait := Ok)
  }

  /** ssl_hash_message. */
  function Hashed(h: Hs): (h1: Hs)
    requires h.inbox != []
    ensures h1.inbox == h.inbox
  {
    h.(transcript := h.transcript.Update(h.inbox[0]))
  }

  /** next_message, into the next state. */
  function Passed(h: Hs, stage: Stage): Hs
    requires h.inbox != []
  {
    h.(inbox := h.inbox[1..], stage := stage, wait := Ok)
  }

  /** ssl_hash_message and next_message. */
  function Took(h: Hs, stage: Stage): Hs
    requires h.inbox != []
  {
    Passed(Hashed(h), stage)
  }

  function FreeBuffer(h: Hs): Hs {
    h.(transcript := h.transcript.FreeBuffer())
  }

  /** add_message: into the outgoing flight, under the current keys, and into the transcript. */
  function Put(h: Hs, m: Message): Hs {
    h.(flight := h.flight + [Item(h.writeEpoch, Hand(m))], transcript := h.transcript.Update(m))
  }

  function PutIf(b: bool, h: Hs, m: Message): Hs {
    if b then Put(h, m) else h
  }

  /** add_change_cipher_spec. */
  function QueueCcs(h: Hs): Hs {
    h.(flight := h.flight + [Item(h.writeEpoch, Ccs)])
  }

  /** add_change_cipher_spec and tls1_change_cipher_state for writing. */
  function PutCcs(h: Hs): Hs {
    QueueCcs(h).(writeEpoch := h.writeEpoch + 1)
  }

  /** ssl_send_finished. */
  function PutFinished(h: Hs): Hs {
    Put(h, Message(Finished, Mac(h.server, h.transcript.HashOf())))
  }

  /** The Finished message at hand has the MAC over the transcript so far. */
  predicate GoodDigest(h: Hs)
    requires h.inbox != []
  {
    h.inbox[0].body == Mac(!h.server, h.transcript.HashOf())
  }

  /** ssl_get_finished, up to entering the next stage. */
  function GetFinished(h: Hs, next: Stage): Hs {
    if h.inbox == [] then Await(h, NeedMessage)
    else if h.inbox[0].kind != Finished then Fail(h, Unexpected)
    else if !GoodDigest(h) then Fail(Hashed(h), BadDigest)
    else Took(h, next)
  }

  /** tls1_change_cipher_state for reading, which no unprocessed handshake data may precede. */
  function ChangeRead(h: Hs, next: Stage): Hs {
    if h.inbox != [] then Fail(h, ExcessData) else Enter(h, next).(readEpoch := h.readEpoch + 1)
  }

  /** A message that has to be of one kind; it is hashed before its body is parsed. */
  function ReadOne(h: Hs, kind: Kind, answer: Answer, next: Stage): Hs {
    if h.inbox == [] then Await(h, NeedMessage)
    else if h.inbox[0].kind != kind then Fail(h, Unexpected)
    else if answer.Refuse? then Fail(Hashed(h), Refused)
    else Took(h, next)
  }

  // ---- The client ----

  function DoStartConnect(h: Hs, answer: Answer, n: nat): Hs {
    if answer.Refuse? then Fail(h, Refused)
    else Enter(Put(h, Message(ClientHello, Text(n))), EnterEarlyData).(wait := Flush)
  }

  function DoReadServerHello(h: Hs, answer: Answer): Hs {
    if h.inbox == [] then Await(h, NeedServerHello)
    else if h.inbox[0].kind != ServerHello then Fail(h, Unexpected)
    else if !h.inbox[0].body.Hello? then Fail(h, Decode)
    else if answer == Refuse(0) then Fail(h, Refused)
    else if h.transcript.buffer.None? then Fail(h, FreedBuffer)
    else
      var neg := h.inbox[0].body.neg;
      var h1 := Hashed(h.(transcript := h.transcript.InitHash(), neg := neg));
      var h2 := if neg.resumed || !neg.certAuth then FreeBuffer(h1) else h1;
      if answer.Refuse? then Fail(h2, Refused)
      else Passed(h2, if neg.resumed then ReadSessionTicket else ReadServerCertificate)
  }

  function DoReadServerCertificate(h: Hs, answer: Answer): Hs {
    if !h.neg.certAuth then Enter(h, ReadCertificateStatus)
    else if h.inbox != [] && h.inbox[0] == Message(Certificate, Text(0)) then Fail(Hashed(h), Decode)
    else ReadOne(h, Certificate, answer, ReadCertificateStatus)
  }

  function DoReadCertificateStatus(h: Hs, answer: Answer): Hs {
    if !h.neg.status then Enter(h, VerifyServerCertificate)
    else if h.inbox == [] then Await(h, NeedMessage)
    else if h.inbox[0].kind != CertificateStatus then Enter(h, VerifyServerCertificate)
    else if answer.Refuse? then Fail(Hashed(h), Refused)
    else Took(h, VerifyServerCertificate)
  }

  function DoVerifyServerCertificate(h: Hs, answer: Answer): Hs {
    if !h.neg.certAuth then Enter(h, ReadServerKeyExchange)
    else
      match answer
      case Go => Enter(h, ReadServerKeyExchange)
      case Retry => Await(h, Pending(PeerCertificate))
      case Refuse(_) => Fail(h, Refused)
  }

  function DoReadServerKeyExchange(h: Hs, answer: Answer): Hs {
    if h.inbox == [] then Await(h, NeedMessage)
    else if h.inbox[0].kind != ServerKeyExchange then
      if h.neg.ecdhe then Fail(h, Unexpected) else Enter(h, ReadCertificateRequest)
    else if answer.Refuse? then Fail(Hashed(h), Refused)
    else if !h.neg.ecdhe && h.neg.certAuth then Fail(Hashed(h), Unexpected)
    else Took(h, ReadCertificateRequest)
  }

  function DoReadCertificateRequest(h: Hs, answer: Answer): Hs {
    if !h.neg.certAuth then Enter(h, ReadServerHelloDone)
    else if h.inbox == [] then Await(h, NeedMessage)
    else if h.inbox[0].kind == ServerHelloDone then Enter(FreeBuffer(h), ReadServerHelloDone)
    else if h.inbox[0].kind != CertificateRequest then Fail(h, Unexpected)
    else if answer.Refuse? then Fail(Hashed(h), Refused)
    else Took(h, ReadServerHelloDone).(certRequest := true)
  }

  function DoSendClientCertificate(h: Hs, hasCert: bool, answer: Answer, n: nat): Hs {
    if !h.certRequest then Enter(h, SendClientKeyExchange)
    else if answer.Retry? then Await(h, Pending(X509Lookup))
    else if answer == Refuse(0) then Fail(h, Refused)
    else
      var h1 := if hasCert then h else FreeBuffer(h);
      if answer.Refuse? then Fail(h1, Refused)
      else Enter(Put(h1, Message(Certificate, Text(if hasCert then n + 1 else 0))), SendClientKeyExchange)
  }

  function DoSendClientKeyExchange(h: Hs, answer: Answer, n: nat): Hs {
    if answer == Refuse(0) then Fail(h, Refused)
    else
      var h1 := Put(h, Message(ClientKeyExchange, Text(n)));
      if answer.Refuse? then Fail(h1, Refused) else Enter(h1, SendClientCertificateVerify)
  }

  function DoSendClientCertificateVerify(h: Hs, hasCert: bool, answer: Answer): Hs {
    if !h.certRequest || !hasCert then Enter(h, SendClientFinished)
    else if h.transcript.buffer.None? then Fail(h, FreedBuffer)
    else
      match answer
      case Retry => Await(h, Pending(PrivateKey))
      case Refuse(_) => Fail(h, Refused)
      case Go =>
        Enter(FreeBuffer(Put(h, Message(CertificateVerify, Signature(h.transcript.buffer.value)))), SendClientFinished)
  }

  /** What do_send_client_finished has queued when it fails. */
  function ClientFinishedPart(h: Hs, h1: Hs, h2: Hs, at: nat): Hs {
    if at <= 1 then QueueCcs(h) else if at == 2 then PutCcs(h) else if at == 3 then h1 else h2
  }

  function DoSendClientFinished(h: Hs, answer: Answer, n: nat): Hs {
    if answer == Refuse(0) then Fail(h, Refused)
    else if h.neg.channelId && answer.Retry? then Await(h, Pending(ChannelIdLookup))
    else
      var h1 := PutIf(h.neg.nextProto, PutCcs(h), Message(NextProto, Text(n)));
      var h2 := PutIf(h.neg.channelId, h1, Message(ChannelId, Signature(h1.transcript.HashOf())));
      if answer.Refuse? then Fail(ClientFinishedPart(h, h1, h2, answer.at), Refused)
      else Enter(PutFinished(h2), FinishFlight).(wait := Flush)
  }

  function DoFinishFlight(h: Hs): Hs {
    Enter(h, if h.neg.resumed then FinishClientHandshake else ReadSessionTicket)
  }

  function DoReadSessionTicket(h: Hs, answer: Answer): Hs {
    if !h.neg.ticket then Enter(h, ProcessServerChangeCipherSpec).(wait := NeedCcs)
    else
      var h1 := ReadOne(h, NewSessionTicket, answer, ProcessServerChangeCipherSpec);
      if h1.wait.Ok? then h1.(wait := NeedCcs) else h1
  }

  /** The switch of ssl_client_handshake. */
  function ClientDo(h: Hs, hasCert: bool, answer: Answer, n: nat): Hs {
    match h.stage
    case StartConnect => DoStartConnect(h, answer, n)
    case EnterEarlyData => Enter(h, ReadServerHello)
    case ReadServerHello => DoReadServerHello(h, answer)
    case ReadServerCertificate => DoReadServerCertificate(h, answer)
    case ReadCertificateStatus => DoReadCertificateStatus(h, answer)
    case VerifyServerCertificate => DoVerifyServerCertificate(h, answer)
    case ReadServerKeyExchange => DoReadServerKeyExchange(h, answer)
    case ReadCertificateRequest => DoReadCertificateRequest(h, answer)
    case ReadServerHelloDone => ReadOne(h, ServerHelloDone, answer, SendClientCertificate)
    case SendClientCertificate => DoSendClientCertificate(h, hasCert, answer, n)
    case SendClientKeyExchange => DoSendClientKeyExchange(h, answer, n)
    case SendClientCertificateVerify => DoSendClientCertificateVerify(h, hasCert, answer)
    case SendClientFinished => DoSendClientFinished(h, answer, n)
    case FinishFlight => DoFinishFlight(h)
    case ReadSessionTicket => DoReadSessionTicket(h, answer)
    case ProcessServerChangeCipherSpec => ChangeRead(h, ReadServerFinished)
    case ReadServerFinished => GetFinished(h, if h.neg.resumed then SendClientFinished else FinishClientHandshake)
    case FinishClientHandshake => Enter(h, Done)
    case _ => h
  }

  // ---- The server ----

  /** What decides the course of a handshake: whether the server resumes, the suite it chose, what the two
      sides are configured for and what they offered. */
  datatype Plan = Plan(resumed: bool, certAuth: bool, ecdhe: bool, pskHint: bool, status: bool, verifyPeer: bool,
                       ifNoChannelId: bool, ticket: bool, nextProto: bool, channelIdOffered: bool, originalHash: bool,
                       hasCert: bool) {

    predicate CertRequest() {
      !resumed && verifyPeer && !(ifNoChannelId && channelIdOffered) && certAuth
    }

    predicate SendsKeyExchange() {
      ecdhe || (!certAuth && pskHint)
    }

    /** do_send_server_hello drops Channel ID without ECDHE, and in a resumption of a session without
        recorded hashes. */
    predicate UsesChannelId() {
      channelIdOffered && ecdhe && (resumed ==> originalHash)
    }

    function Outcome(): Negotiated {
      Negotiated(resumed, certAuth, ecdhe, status, ticket, nextProto, UsesChannelId())
    }
  }

  function DoReadClientHello(h: Hs, answer: Answer): Hs {
    if h.inbox == [] then Await(h, NeedMessage)
    else if h.inbox[0].kind != ClientHello then Fail(h, Unexpected)
    else
      match answer
      case Go => Enter(h, SelectCertificate)
      case Retry => Await(h, Pending(CertificateSelection))
      case Refuse(_) => Fail(h, Refused)
  }

  function DoSelectCertificate(h: Hs, answer: Answer): Hs {
    if h.inbox == [] then Await(h, NeedMessage)
    else
      match answer
      case Go => Enter(h, SelectParameters)
      case Retry => Await(h, Pending(X509Lookup))
      case Refuse(_) => Fail(h, Refused)
  }

  /** Session, suite and what to ask the client for. */
  function Settled(h: Hs, plan: Plan): Hs {
    h.(neg := plan.Outcome().(channelId := plan.channelIdOffered), certRequest := plan.CertRequest())
  }

  function DoSelectParameters(h: Hs, plan: Plan, answer: Answer): Hs {
    if h.inbox == [] then Await(h, NeedMessage)
    else
      match answer
      case Retry => Await(h, Pending(Session))
      case Refuse(at) => Fail(if at == 0 then h else Settled(h, plan), Refused)
      case Go =>
        if h.transcript.buffer.None? then Fail(h, FreedBuffer)
        else
          var h1 := Took(Settled(h, plan).(transcript := h.transcript.InitHash()), SendServerHello);
          if h1.certRequest then h1 else FreeBuffer(h1)
  }

  function DoSendServerHello(h: Hs, plan: Plan, answer: Answer): Hs {
    var channelId := h.neg.channelId && h.neg.ecdhe && (h.neg.resumed ==> plan.originalHash);
    var h1 := h.(neg := h.neg.(channelId := channelId));
    if answer.Refuse? then Fail(h1, Refused)
    else Enter(Put(h1, Message(ServerHello, Hello(h1.neg))), if h.neg.resumed then SendServerFinished else SendServerCertificate)
  }

  function DoSendServerCertificate(h: Hs, plan: Plan, answer: Answer, n: nat): Hs {
    var h1 := PutIf(h.neg.certAuth, h, Message(Certificate, Text(n + 1)));
    var h2 := PutIf(h.neg.certAuth && h.neg.status, h1, Message(CertificateStatus, Text(n)));
    if answer.Refuse? then Fail(if answer.at == 0 then h else if answer.at == 1 then h1 else h2, Refused)
    else Enter(h2, SendServerKeyExchange).(serverParams := plan.SendsKeyExchange())
  }

  function DoSendServerKeyExchange(h: Hs, answer: Answer, n: nat): Hs {
    if !h.serverParams then Enter(h, SendServerHelloDone)
    else if answer.Refuse? then Fail(h, Refused)
    else if h.neg.certAuth && answer.Retry? then Await(h, Pending(PrivateKey))
    else Enter(Put(h, Message(ServerKeyExchange, Text(n))), SendServerHelloDone).(serverParams := false)
  }

  function DoSendServerHelloDone(h: Hs, answer: Answer, n: nat): Hs {
    var h1 := PutIf(h.certRequest, h, Message(CertificateRequest, Text(n)));
    if answer.Refuse? then Fail(if answer.at == 0 then h else h1, Refused)
    else Enter(Put(h1, Message(ServerHelloDone, Text(0))), ReadClientCertificate).(wait := Flush)
  }

  function DoReadClientCertificate(h: Hs, answer: Answer): Hs {
    if !h.certRequest then Enter(h, VerifyClientCertificate)
    else if h.inbox == [] then Await(h, NeedMessage)
    else if h.inbox[0].kind != Certificate then Fail(h, Unexpected)
    else if answer == Refuse(0) then Fail(Hashed(h), Refused)
    else
      var empty := h.inbox[0].body == Text(0);
      var h1 := Hashed(h).(peerKey := !empty);
      var h2 := if empty then FreeBuffer(h1) else h1;
      if answer.Refuse? then Fail(h2, Refused)
      else Passed(h2, VerifyClientCertificate)
  }

  function DoVerifyClientCertificate(h: Hs, answer: Answer): Hs {
    if !h.peerKey then Enter(h, ReadClientKeyExchange)
    else
      match answer
      case Go => Enter(h, ReadClientKeyExchange)
      case Retry => Await(h, Pending(PeerCertificate))
      case Refuse(_) => Fail(h, Refused)
  }

  function DoReadClientKeyExchange(h: Hs, answer: Answer): Hs {
    if h.inbox == [] then Await(h, NeedMessage)
    else if h.inbox[0].kind != ClientKeyExchange then Fail(h, Unexpected)
    else if answer.Refuse? then Fail(if answer.at == 0 then h else Hashed(h), Refused)
    else if h.neg.certAuth && !h.neg.ecdhe && answer.Retry? then Await(h, Pending(PrivateKey))
    else Took(h, ReadClientCertificateVerify)
  }

  function DoReadClientCertificateVerify(h: Hs, answer: Answer): Hs {
    if !h.peerKey then Enter(FreeBuffer(h), ReadChangeCipherSpec)
    else if h.inbox == [] then Await(h, NeedMessage)
    else if h.inbox[0].kind != CertificateVerify then Fail(h, Unexpected)
    else if answer.Refuse? then Fail(h, Refused)
    else if h.transcript.buffer.None? then Fail(h, FreedBuffer)
    else if h.inbox[0].body != Signature(h.transcript.buffer.value) then Fail(h, BadSignature)
    else Took(FreeBuffer(h), ReadChangeCipherSpec)
  }

  function DoReadNextProto(h: Hs, answer: Answer): Hs {
    if !h.neg.nextProto then Enter(h, ReadChannelId) else ReadOne(h, NextProto, answer, ReadChannelId)
  }

  /** tls1_verify_channel_id, which parses and verifies, comes before the message is hashed. */
  function DoReadChannelId(h: Hs, answer: Answer): Hs {
    if !h.neg.channelId then Enter(h, ReadClientFinished)
    else if h.inbox == [] then Await(h, NeedMessage)
    else if h.inbox[0].kind != ChannelId then Fail(h, Unexpected)
    else if answer.Refuse? then Fail(h, Refused)
    else if h.inbox[0].body != Signature(h.transcript.HashOf()) then Fail(h, BadSignature)
    else Took(h, ReadClientFinished)
  }

  /** What do_send_server_finished has queued when it fails: the ticket, the ChangeCipherSpec. */
  function ServerFinishedPart(h: Hs, h1: Hs, at: nat): Hs {
    if at == 0 then h else if at == 1 then h1 else if at == 2 then QueueCcs(h1) else PutCcs(h1)
  }

  function DoSendServerFinished(h: Hs, answer: Answer, n: nat): Hs {
    var h1 := PutIf(h.neg.ticket, h, Message(NewSessionTicket, Text(n + 1)));
    if answer.Refuse? then Fail(ServerFinishedPart(h, h1, answer.at), Refused)
    else Enter(PutFinished(PutCcs(h1)), if h.neg.resumed then ReadChangeCipherSpec else FinishServerHandshake).(wait := Flush)
  }

  /** The switch of ssl_server_handshake. */
  function ServerDo(h: Hs, plan: Plan, answer: Answer, n: nat): Hs {
    match h.stage
    case StartAccept => Enter(h, ReadClientHello)
    case ReadClientHello => DoReadClientHello(h, answer)
    case SelectCertificate => DoSelectCertificate(h, answer)
    case SelectParameters => DoSelectParameters(h, plan, answer)
    case SendServerHello => DoSendServerHello(h, plan, answer)
    case SendServerCertificate => DoSendServerCertificate(h, plan, answer, n)
    case SendServerKeyExchange => DoSendServerKeyExchange(h, answer, n)
    case SendServerHelloDone => DoSendServerHelloDone(h, answer, n)
    case ReadClientCertificate => DoReadClientCertificate(h, answer)
    case VerifyClientCertificate => DoVerifyClientCertificate(h, answer)
    case ReadClientKeyExchange => DoReadClientKeyExchange(h, answer)
    case ReadClientCertificateVerify => DoReadClientCertificateVerify(h, answer)
    case ReadChangeCipherSpec => Enter(h, ProcessClientChangeCipherSpec).(wait := NeedCcs)
    case ProcessClientChangeCipherSpec => ChangeRead(h, ReadNextProto)
    case ReadNextProto => DoReadNextProto(h, answer)
    case ReadChannelId => DoReadChannelId(h, answer)
    case ReadClientFinished => GetFinished(h, if h.neg.resumed then FinishServerHandshake else SendServerFinished)
    case SendServerFinished => DoSendServerFinished(h, answer, n)
    case FinishServerHandshake => Enter(h, Done)
    case _ => h
  }

  /** One call of a do_ function, on either side. */
  function Do(p: Plan, h: Hs, answer: Answer, n: nat): Hs {
    if h.server then ServerDo(h, p, answer, n) else ClientDo(h, p.hasCert, answer, n)
  }

  // ---- The driver: ssl_run_handshake resolves what the machine waits for ----

  /** A turn of one side: a step of its machine with what a callback answers and the contents of what it
      sends; a flush that gets so many records out; the next record read; or a retry after a callback. */
  datatype Action = Run(answer: Answer, n: nat) | FlushSome(k: nat) | Receive | Resume

  predicate Enabled(h: Hs, incoming: seq<Item>, action: Action) {
    match action
    case Run(_, _) => h.wait.Ok? && !h.stage.Done?
    case FlushSome(k) => h.wait.Flush? && k <= |h.flight|
    case Receive => (h.wait.NeedMessage? || h.wait.NeedServerHello? || h.wait.NeedCcs?) && incoming != []
    case Resume => h.wait.Pending?
  }

  /** ssl_open_handshake or ssl_open_change_cipher_spec with the next record. */
  function Opened(h: Hs, item: Item): Hs {
    if item.epoch != h.readEpoch then Fail(h, BadRecord)
    else if h.wait.NeedCcs? then if item.content.Ccs? then h.(wait := Ok) else Fail(h, Unexpected)
    else if item.content.Ccs? then Fail(h, Unexpected)
    else h.(inbox := h.inbox + [item.content.msg], wait := Ok)
  }

  /** flush_flight: records leave in order, and the wait is over when all have left. */
  function Flushed(h: Hs, k: nat): Hs
    requires k <= |h.flight|
  {
    h.(flight := h.flight[k..], wait := if k == |h.flight| then Ok else Flush)
  }

  function Acted(p: Plan, h: Hs, incoming: seq<Item>, action: Action): Hs
    requires Enabled(h, incoming, action)
  {
    match action
    case Run(answer, n) => Do(p, h, answer, n)
    case FlushSome(k) => Flushed(h, k)
    case Receive => Opened(h, incoming[0])
    case Resume => h.(wait := Ok)
  }

  /** What the action takes off the wire, and puts on it. */
  function Incoming(incoming: seq<Item>, action: Action): seq<Item> {
    if action.Receive? && incoming != [] then incoming[1..] else incoming
  }

  function Outgoing(h: Hs, outgoing: seq<Item>, action: Action): seq<Item> {
    if action.FlushSome? && action.k <= |h.flight| then outgoing + h.flight[..action.k] else outgoing
  }
}
