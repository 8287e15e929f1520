/** SSL_HANDSHAKE as an object that the do_ functions update in place, and the loop that drives them. */
module TlsMachine {
  import opened Prelude
  import opened TlsHandshake
  import opened TlsRetry

  /** What callbacks and keys answer in a state, and the contents of what the state sends. */
  datatype Reply = Reply(answer: Answer, n: nat)

  class Handshake {
    const server: bool
    var stage: Stage
    var wait: Wait
    var buffer: Option<seq<Message>>
    var hash: Option<seq<Message>>
    var flight: seq<Item>
    var inbox: seq<Message>
    var readEpoch: nat
    var writeEpoch: nat
    var neg: Negotiated
    var certRequest: bool
    var peerKey: bool
    var serverParams: bool

    ghost function Snap(): Hs
      reads this
    {
      Hs(server, stage, wait, Transcript(buffer, hash), flight, inbox, readEpoch, writeEpoch, neg, certRequest, peerKey,
         serverParams)
    }

    constructor (server: bool)
      ensures Snap() == Start(server)
    {
      this.server, stage, wait := server, if server then Stage.StartAccept else Stage.StartConnect, Ok;
      buffer, hash, flight, inbox := Some([]), None, [], [];
      readEpoch, writeEpoch, neg := 0, 0, NOTHING_NEGOTIATED;
      certRequest, peerKey, serverParams := false, false, false;
    }

    // ---- What the states do ----

    /** SSLTranscript::Update. */
    method Update(m: Message)
      modifies `buffer, `hash
      ensures Transcript(buffer, hash) == old(Transcript(buffer, hash)).Update(m)
    {
      if buffer.Some? {
        buffer := Some(buffer.value + [m]);
      }
      if hash.Some? {
        hash := Some(hash.value + [m]);
      }
    }

    /** ssl_hash_message. */
    method Hash()
      requires inbox != []
      modifies `buffer, `hash
      ensures Snap() == Hashed(old(Snap()))
    {
      Update(inbox[0]);
    }

    /** next_message, into the next state. */
    method Pass(next: Stage)
      requires inbox != []
      modifies `inbox, `stage, `wait
      ensures Snap() == Passed(old(Snap()), next)
    {
      inbox, stage, wait := inbox[1..], next, Ok;
    }

    /** ssl_hash_message and next_message. */
    method Take(next: Stage)
      requires inbox != []
      modifies this
      ensures Snap() == Took(old(Snap()), next)
    {
      Hash();
      Pass(next);
    }

    method Fails(why: Reason)
      modifies `wait
      ensures Snap() == Fail(old(Snap()), why)
    {
      wait := Error(why);
    }

    method MoveTo(next: Stage)
      modifies `stage, `wait
      ensures Snap() == Enter(old(Snap()), next)
    {
      stage, wait := next, Ok;
    }

    /** add_message. */
    method Send(m: Message)
      modifies `flight, `buffer, `hash
      ensures Snap() == Put(old(Snap()), m)
    {
      flight := flight + [Item(writeEpoch, Hand(m))];
      Update(m);
    }

    /** add_change_cipher_spec. */
    method AddCcs()
      modifies `flight
      ensures Snap() == QueueCcs(old(Snap()))
    {
      flight := flight + [Item(writeEpoch, Ccs)];
    }

    /** add_change_cipher_spec and tls1_change_cipher_state for writing. */
    method SendCcs()
      modifies `flight, `writeEpoch
      ensures Snap() == PutCcs(old(Snap()))
    {
      AddCcs();
      writeEpoch := writeEpoch + 1;
    }

    /** ssl_send_finished. */
    method SendFinished()
      modifies `flight, `buffer, `hash
      ensures Snap() == PutFinished(old(Snap()))
    {
      Send(Message(Finished, Mac(server, if hash.Some? then hash.value else [])));
    }

    /** A message that has to be of one kind. */
    method Expect(kind: Kind, answer: Answer, next: Stage)
      modifies this
      ensures Snap() == ReadOne(old(Snap()), kind, answer, next)
    {
      ghost var h := Snap();
      ghost var h1 := ReadOne(h, kind, answer, next);
      if inbox == [] {
        assert h1 == Await(h, NeedMessage);
        wait := NeedMessage;
      } else if inbox[0].kind != kind {
        assert h1 == Fail(h, Unexpected);
        wait := Error(Unexpected);
      } else if answer.Refuse? {
        assert h1 == Fail(Hashed(h), Refused);
        Hash();
        wait := Error(Refused);
      } else {
        assert h1 == Took(h, next);
        Take(next);
      }
    }

    /** ssl_get_finished. */
    method DigestIsGood() returns (ok: bool)
      requires inbox != []
      ensures ok == GoodDigest(Snap())
    {
      ok := inbox[0].body == Mac(!server, if hash.Some? then hash.value else []);
    }

    method ReadFinished(next: Stage)
      modifies this
      ensures Snap() == GetFinished(old(Snap()), next)
    {
      hide GoodDigest;
      ghost var h := Snap();
      ghost var h1 := GetFinished(h, next);
      if inbox == [] {
        assert h1 == Await(h, NeedMessage);
        wait := NeedMessage;
      } else if inbox[0].kind != Finished {
        assert h1 == Fail(h, Unexpected);
        wait := Error(Unexpected);
      } else {
        var ok := DigestIsGood();
        if ok {
          assert h1 == Took(h, next);
          Take(next);
        } else {
          assert h1 == Fail(Hashed(h), BadDigest);
          Hash();
          wait := Error(BadDigest);
        }
      }
    }

    /** tls1_change_cipher_state for reading. */
    method ChangeReadState(next: Stage)
      modifies this
      ensures Snap() == ChangeRead(old(Snap()), next)
    {
      if inbox != [] {
        wait := Error(ExcessData);
      } else {
        stage, wait := next, Ok;
        readEpoch := readEpoch + 1;
      }
    }

    /** A callback that may ask to be called again. */
    method Ask(answer: Answer, on: Callback, next: Stage)
      modifies `stage, `wait
      ensures Snap() == match answer
                        case Go => Enter(old(Snap()), next)
                        case Retry => Await(old(Snap()), Pending(on))
                        case Refuse(_) => Fail(old(Snap()), Refused)
    {
      match answer
      case Go => MoveTo(next);
      case Retry => wait := Pending(on);
      case Refuse(_) => wait := Error(Refused);
    }

    // ---- The client ----

    method StartConnect(answer: Answer, n: nat)
      modifies this
      ensures Snap() == DoStartConnect(old(Snap()), answer, n)
    {
      if answer.Refuse? {
        wait := Error(Refused);
        return;
      }
      Send(Message(ClientHello, Text(n)));
      stage, wait := EnterEarlyData, Flush;
    }

    method ReadServerHello(answer: Answer)
      modifies this
      ensures Snap() == DoReadServerHello(old(Snap()), answer)
    {
      if inbox == [] {
        wait := NeedServerHello;
        return;
      }
      if inbox[0].kind != ServerHello {
        wait := Error(Unexpected);
        return;
      }
      if !inbox[0].body.Hello? {
        wait := Error(Decode);
        return;
      }
      if answer == Refuse(0) {
        wait := Error(Refused);
        return;
      }
      if buffer.None? {
        wait := Error(FreedBuffer);
        return;
      }
      neg := inbox[0].body.neg;
      hash := buffer;
      Hash();
      if neg.resumed || !neg.certAuth {
        buffer := None;
      }
      if answer.Refuse? {
        wait := Error(Refused);
        return;
      }
      Pass(if neg.resumed then Stage.ReadSessionTicket else Stage.ReadServerCertificate);
    }

    method ReadServerCertificate(answer: Answer)
      modifies this
      ensures Snap() == DoReadServerCertificate(old(Snap()), answer)
    {
      if !neg.certAuth {
        MoveTo(Stage.ReadCertificateStatus);
      } else if inbox != [] && inbox[0] == Message(Certificate, Text(0)) {
        Hash();
        wait := Error(Decode);
      } else {
        Expect(Certificate, answer, Stage.ReadCertificateStatus);
      }
    }

    method ReadCertificateStatus(answer: Answer)
      modifies this
      ensures Snap() == DoReadCertificateStatus(old(Snap()), answer)
    {
      if !neg.status {
        MoveTo(Stage.VerifyServerCertificate);
      } else if inbox == [] {
        wait := NeedMessage;
      } else if inbox[0].kind != CertificateStatus {
        MoveTo(Stage.VerifyServerCertificate);
      } else {
        Expect(CertificateStatus, answer, Stage.VerifyServerCertificate);
      }
    }

    method VerifyServerCertificate(answer: Answer)
      modifies this
      ensures Snap() == DoVerifyServerCertificate(old(Snap()), answer)
    {
      if !neg.certAuth {
        MoveTo(Stage.ReadServerKeyExchange);
      } else {
        Ask(answer, PeerCertificate, Stage.ReadServerKeyExchange);
      }
    }

    method ReadServerKeyExchange(answer: Answer)
      modifies this
      ensures Snap() == DoReadServerKeyExchange(old(Snap()), answer)
    {
      if inbox == [] {
        wait := NeedMessage;
      } else if inbox[0].kind != ServerKeyExchange {
        if neg.ecdhe {
          wait := Error(Unexpected);
        } else {
          MoveTo(Stage.ReadCertificateRequest);
        }
      } else if !answer.Refuse? && !neg.ecdhe && neg.certAuth {
        Hash();
        wait := Error(Unexpected);
      } else {
        Expect(ServerKeyExchange, answer, Stage.ReadCertificateRequest);
      }
    }

    method ReadCertificateRequest(answer: Answer)
      modifies this
      ensures Snap() == DoReadCertificateRequest(old(Snap()), answer)
    {
      if !neg.certAuth {
        MoveTo(Stage.ReadServerHelloDone);
      } else if inbox == [] {
        wait := NeedMessage;
      } else if inbox[0].kind == ServerHelloDone {
        buffer := None;
        MoveTo(Stage.ReadServerHelloDone);
      } else {
        Expect(CertificateRequest, answer, Stage.ReadServerHelloDone);
        if wait.Ok? {
          certRequest := true;
        }
      }
    }

    method SendClientCertificate(hasCert: bool, answer: Answer, n: nat)
      modifies this
      ensures Snap() == DoSendClientCertificate(old(Snap()), hasCert, answer, n)
    {
      if !certRequest {
        MoveTo(Stage.SendClientKeyExchange);
        return;
      }
      if answer.Retry? {
        wait := Pending(X509Lookup);
        return;
      }
      if answer == Refuse(0) {
        wait := Error(Refused);
        return;
      }
      if !hasCert {
        buffer := None;
      }
      if answer.Refuse? {
        wait := Error(Refused);
        return;
      }
      Send(Message(Certificate, Text(if hasCert then n + 1 else 0)));
      MoveTo(Stage.SendClientKeyExchange);
    }

    method SendClientKeyExchange(answer: Answer, n: nat)
      modifies this
      ensures Snap() == DoSendClientKeyExchange(old(Snap()), answer, n)
    {
      if answer == Refuse(0) {
        wait := Error(Refused);
        return;
      }
      Send(Message(ClientKeyExchange, Text(n)));
      if answer.Refuse? {
        wait := Error(Refused);
        return;
      }
      MoveTo(Stage.SendClientCertificateVerify);
    }

    method SendClientCertificateVerify(hasCert: bool, answer: Answer)
      modifies this
      ensures Snap() == DoSendClientCertificateVerify(old(Snap()), hasCert, answer)
    {
      if !certRequest || !hasCert {
        MoveTo(Stage.SendClientFinished);
        return;
      }
      if buffer.None? {
        wait := Error(FreedBuffer);
        return;
      }
      Ask(answer, PrivateKey, Stage.SendClientFinished);
      if answer.Go? {
        Send(Message(CertificateVerify, Signature(buffer.value)));
        buffer := None;
      }
    }

    method SendClientFinished(answer: Answer, n: nat)
      modifies this
      ensures Snap() == DoSendClientFinished(old(Snap()), answer, n)
    {
      if answer == Refuse(0) {
        Fails(Refused);
        return;
      }
      if neg.channelId && answer.Retry? {
        wait := Pending(ChannelIdLookup);
        return;
      }
      if answer == Refuse(1) {
        AddCcs();
        Fails(Refused);
        return;
      }
      SendCcs();
      if answer == Refuse(2) {
        Fails(Refused);
        return;
      }
      if neg.nextProto {
        Send(Message(NextProto, Text(n)));
      }
      if answer == Refuse(3) {
        Fails(Refused);
        return;
      }
      if neg.channelId {
        Send(Message(ChannelId, Signature(if hash.Some? then hash.value else [])));
      }
      if answer.Refuse? {
        Fails(Refused);
        return;
      }
      SendFinished();
      stage, wait := Stage.FinishFlight, Flush;
    }

    method ReadSessionTicket(answer: Answer)
      modifies this
      ensures Snap() == DoReadSessionTicket(old(Snap()), answer)
    {
      if !neg.ticket {
        stage, wait := ProcessServerChangeCipherSpec, NeedCcs;
        return;
      }
      Expect(NewSessionTicket, answer, ProcessServerChangeCipherSpec);
      if wait.Ok? {
        wait := NeedCcs;
      }
    }

    /** One turn of ssl_client_handshake. */
    method ClientTurn(hasCert: bool, answer: Answer, n: nat)
      modifies this
      ensures Snap() == ClientDo(old(Snap()), hasCert, answer, n)
    {
      hide ReadOne, GetFinished, ChangeRead, DoStartConnect, DoReadServerHello, DoReadServerCertificate, DoReadCertificateStatus,
           DoVerifyServerCertificate, DoReadServerKeyExchange, DoReadCertificateRequest, DoSendClientCertificate,
           DoSendClientKeyExchange, DoSendClientCertificateVerify, DoSendClientFinished, DoReadSessionTicket;
      ghost var h := Snap();
      match stage
      case StartConnect => StartConnect(answer, n);
      case EnterEarlyData => MoveTo(Stage.ReadServerHello);
      case ReadServerHello => ReadServerHello(answer);
      case ReadServerCertificate => ReadServerCertificate(answer);
      case ReadCertificateStatus => ReadCertificateStatus(answer);
      case VerifyServerCertificate => VerifyServerCertificate(answer);
      case ReadServerKeyExchange => ReadServerKeyExchange(answer);
      case ReadCertificateRequest => ReadCertificateRequest(answer);
      case ReadServerHelloDone => Expect(ServerHelloDone, answer, Stage.SendClientCertificate);
      case SendClientCertificate => SendClientCertificate(hasCert, answer, n);
      case SendClientKeyExchange => SendClientKeyExchange(answer, n);
      case SendClientCertificateVerify => SendClientCertificateVerify(hasCert, answer);
      case SendClientFinished => SendClientFinished(answer, n);
      case FinishFlight => MoveTo(if neg.resumed then FinishClientHandshake else Stage.ReadSessionTicket);
      case ReadSessionTicket => ReadSessionTicket(answer);
      case ProcessServerChangeCipherSpec => ChangeReadState(ReadServerFinished);
      case ReadServerFinished => ReadFinished(if neg.resumed then Stage.SendClientFinished else FinishClientHandshake);
      case FinishClientHandshake => MoveTo(Done);
      case _ =>
    }

    // ---- The server ----

    method ReadClientHello(answer: Answer)
      modifies this
      ensures Snap() == DoReadClientHello(old(Snap()), answer)
    {
      if inbox == [] {
        wait := NeedMessage;
      } else if inbox[0].kind != ClientHello {
        wait := Error(Unexpected);
      } else {
        Ask(answer, CertificateSelection, Stage.SelectCertificate);
      }
    }

    method SelectCertificate(answer: Answer)
      modifies this
      ensures Snap() == DoSelectCertificate(old(Snap()), answer)
    {
      if inbox == [] {
        wait := NeedMessage;
      } else {
        Ask(answer, X509Lookup, Stage.SelectParameters);
      }
    }

    method SelectParameters(plan: Plan, answer: Answer)
      modifies this
      ensures Snap() == DoSelectParameters(old(Snap()), plan, answer)
    {
      hide Took;
      if inbox == [] {
        wait := NeedMessage;
        return;
      }
      if answer.Retry? {
        wait := Pending(Session);
        return;
      }
      if answer == Refuse(0) {
        wait := Error(Refused);
        return;
      }
      if answer.Go? && buffer.None? {
        wait := Error(FreedBuffer);
        return;
      }
      neg := plan.Outcome().(channelId := plan.channelIdOffered);
      certRequest := plan.CertRequest();
      if answer.Refuse? {
        wait := Error(Refused);
        return;
      }
      hash := buffer;
      Take(Stage.SendServerHello);
      if !certRequest {
        buffer := None;
      }
    }

    method SettleChannelId(plan: Plan)
      modifies `neg
      ensures neg == old(neg).(channelId := old(neg).channelId && old(neg).ecdhe && (old(neg).resumed ==> plan.originalHash))
    {
      if neg.channelId && !neg.ecdhe {
        neg := neg.(channelId := false);
      }
      if neg.resumed && !plan.originalHash {
        neg := neg.(channelId := false);
      }
    }

    method SendServerHello(plan: Plan, answer: Answer)
      modifies this
      ensures Snap() == DoSendServerHello(old(Snap()), plan, answer)
    {
      SettleChannelId(plan);
      if answer.Refuse? {
        wait := Error(Refused);
        return;
      }
      Send(Message(ServerHello, Hello(neg)));
      MoveTo(if neg.resumed then Stage.SendServerFinished else Stage.SendServerCertificate);
    }

    method SendServerCertificate(plan: Plan, answer: Answer, n: nat)
      modifies this
      ensures Snap() == DoSendServerCertificate(old(Snap()), plan, answer, n)
    {
      if answer == Refuse(0) {
        Fails(Refused);
        return;
      }
      if neg.certAuth {
        Send(Message(Certificate, Text(n + 1)));
      }
      if answer == Refuse(1) {
        Fails(Refused);
        return;
      }
      if neg.certAuth && neg.status {
        Send(Message(CertificateStatus, Text(n)));
      }
      if answer.Refuse? {
        Fails(Refused);
        return;
      }
      serverParams := plan.SendsKeyExchange();
      MoveTo(Stage.SendServerKeyExchange);
    }

    method SendServerKeyExchange(answer: Answer, n: nat)
      modifies this
      ensures Snap() == DoSendServerKeyExchange(old(Snap()), answer, n)
    {
      if !serverParams {
        MoveTo(Stage.SendServerHelloDone);
        return;
      }
      if answer.Refuse? {
        wait := Error(Refused);
        return;
      }
      if neg.certAuth && answer.Retry? {
        wait := Pending(PrivateKey);
        return;
      }
      Send(Message(ServerKeyExchange, Text(n)));
      serverParams := false;
      MoveTo(Stage.SendServerHelloDone);
    }

    method SendServerHelloDone(answer: Answer, n: nat)
      modifies this
      ensures Snap() == DoSendServerHelloDone(old(Snap()), answer, n)
    {
      if answer == Refuse(0) {
        Fails(Refused);
        return;
      }
      if certRequest {
        Send(Message(CertificateRequest, Text(n)));
      }
      if answer.Refuse? {
        Fails(Refused);
        return;
      }
      Send(Message(ServerHelloDone, Text(0)));
      stage, wait := Stage.ReadClientCertificate, Flush;
    }

    method ReadClientCertificate(answer: Answer)
      modifies this
      ensures Snap() == DoReadClientCertificate(old(Snap()), answer)
    {
      if !certRequest {
        MoveTo(Stage.VerifyClientCertificate);
        return;
      }
      if inbox == [] {
        wait := NeedMessage;
        return;
      }
      if inbox[0].kind != Certificate {
        wait := Error(Unexpected);
        return;
      }
      Hash();
      if answer == Refuse(0) {
        wait := Error(Refused);
        return;
      }
      peerKey := inbox[0].body != Text(0);
      if !peerKey {
        buffer := None;
      }
      if answer.Refuse? {
        wait := Error(Refused);
        return;
      }
      Pass(Stage.VerifyClientCertificate);
    }

    method VerifyClientCertificate(answer: Answer)
      modifies this
      ensures Snap() == DoVerifyClientCertificate(old(Snap()), answer)
    {
      if !peerKey {
        MoveTo(Stage.ReadClientKeyExchange);
      } else {
        Ask(answer, PeerCertificate, Stage.ReadClientKeyExchange);
      }
    }

    method ReadClientKeyExchange(answer: Answer)
      modifies this
      ensures Snap() == DoReadClientKeyExchange(old(Snap()), answer)
    {
      if inbox == [] {
        wait := NeedMessage;
        return;
      }
      if inbox[0].kind != ClientKeyExchange {
        wait := Error(Unexpected);
        return;
      }
      if answer == Refuse(0) {
        wait := Error(Refused);
        return;
      }
      if neg.certAuth && !neg.ecdhe && answer.Retry? {
        wait := Pending(PrivateKey);
        return;
      }
      Expect(ClientKeyExchange, answer, Stage.ReadClientCertificateVerify);
    }

    method ReadClientCertificateVerify(answer: Answer)
      modifies this
      ensures Snap() == DoReadClientCertificateVerify(old(Snap()), answer)
    {
      if !peerKey {
        buffer := None;
        MoveTo(Stage.ReadChangeCipherSpec);
      } else if inbox == [] {
        wait := NeedMessage;
      } else if inbox[0].kind != CertificateVerify {
        wait := Error(Unexpected);
      } else if answer.Refuse? {
        wait := Error(Refused);
      } else if buffer.None? {
        wait := Error(FreedBuffer);
      } else if inbox[0].body != Signature(buffer.value) {
        wait := Error(BadSignature);
      } else {
        buffer := None;
        Take(Stage.ReadChangeCipherSpec);
      }
    }

    method ReadNextProto(answer: Answer)
      modifies this
      ensures Snap() == DoReadNextProto(old(Snap()), answer)
    {
      if !neg.nextProto {
        MoveTo(Stage.ReadChannelId);
      } else {
        Expect(NextProto, answer, Stage.ReadChannelId);
      }
    }

    method ReadChannelId(answer: Answer)
      modifies this
      ensures Snap() == DoReadChannelId(old(Snap()), answer)
    {
      if !neg.channelId {
        MoveTo(Stage.ReadClientFinished);
      } else if inbox == [] {
        wait := NeedMessage;
      } else if inbox[0].kind != ChannelId {
        wait := Error(Unexpected);
      } else if answer.Refuse? {
        wait := Error(Refused);
      } else if inbox[0].body != Signature(if hash.Some? then hash.value else []) {
        wait := Error(BadSignature);
      } else {
        Take(Stage.ReadClientFinished);
      }
    }

    method SendServerFinished(answer: Answer, n: nat)
      modifies this
      ensures Snap() == DoSendServerFinished(old(Snap()), answer, n)
    {
      if answer == Refuse(0) {
        Fails(Refused);
        return;
      }
      if neg.ticket {
        Send(Message(NewSessionTicket, Text(n + 1)));
      }
      if answer == Refuse(1) {
        Fails(Refused);
        return;
      }
      if answer == Refuse(2) {
        AddCcs();
        Fails(Refused);
        return;
      }
      SendCcs();
      if answer.Refuse? {
        Fails(Refused);
        return;
      }
      SendFinished();
      stage, wait := if neg.resumed then Stage.ReadChangeCipherSpec else FinishServerHandshake, Flush;
    }

    /** One turn of ssl_server_handshake. */
    method ServerTurn(plan: Plan, answer: Answer, n: nat)
      modifies this
      ensures Snap() == ServerDo(old(Snap()), plan, answer, n)
    {
      hide GetFinished, ChangeRead, DoReadClientHello, DoSelectCertificate, DoSelectParameters, DoSendServerHello,
           DoSendServerCertificate, DoSendServerKeyExchange, DoSendServerHelloDone, DoReadClientCertificate,
           DoVerifyClientCertificate, DoReadClientKeyExchange, DoReadClientCertificateVerify, DoReadNextProto,
           DoReadChannelId, DoSendServerFinished;
      ghost var h := Snap();
      match stage
      case StartAccept => MoveTo(Stage.ReadClientHello);
      case ReadClientHello => ReadClientHello(answer);
      case SelectCertificate => SelectCertificate(answer);
      case SelectParameters => SelectParameters(plan, answer);
      case SendServerHello => SendServerHello(plan, answer);
      case SendServerCertificate => SendServerCertificate(plan, answer, n);
      case SendServerKeyExchange => SendServerKeyExchange(answer, n);
      case SendServerHelloDone => SendServerHelloDone(answer, n);
      case ReadClientCertificate => ReadClientCertificate(answer);
      case VerifyClientCertificate => VerifyClientCertificate(answer);
      case ReadClientKeyExchange => ReadClientKeyExchange(answer);
      case ReadClientCertificateVerify => ReadClientCertificateVerify(answer);
      case ReadChangeCipherSpec => stage, wait := ProcessClientChangeCipherSpec, NeedCcs;
      case ProcessClientChangeCipherSpec => ChangeReadState(Stage.ReadNextProto);
      case ReadNextProto => ReadNextProto(answer);
      case ReadChannelId => ReadChannelId(answer);
      case ReadClientFinished => ReadFinished(if neg.resumed then FinishServerHandshake else Stage.SendServerFinished);
      case SendServerFinished => SendServerFinished(answer, n);
      case FinishServerHandshake => MoveTo(Done);
      case _ =>
    }

    // ---- The driving loops ----

    /** ssl_client_handshake: turns until one does not return ok. It ends because every completed state
        lowers the rank and a state that stays does not return ok. */
    method RunClient(hasCert: bool, reply: Stage -> Reply)
      requires wait.Ok? && (stage.Done? || IsClient(stage))
      modifies this
      ensures Snap() == ClientLoop(old(Snap()), hasCert, reply)
      ensures !wait.Ok? || stage.Done?
    {
      while wait.Ok? && !stage.Done?
        invariant stage.Done? || IsClient(stage)
        invariant ClientLoop(Snap(), hasCert, reply) == ClientLoop(old(Snap()), hasCert, reply)
        decreases ClientRank(stage, neg.resumed), if wait.Ok? then 1 else 0
      {
        ClientLoopStep(Snap(), hasCert, reply);
        ClientTurn(hasCert, reply(stage).answer, reply(stage).n);
      }
    }

    /** ssl_server_handshake. */
    method RunServer(plan: Plan, reply: Stage -> Reply)
      requires wait.Ok? && (stage.Done? || IsServer(stage))
      modifies this
      ensures Snap() == ServerLoop(old(Snap()), plan, reply)
      ensures !wait.Ok? || stage.Done?
    {
      while wait.Ok? && !stage.Done?
        invariant stage.Done? || IsServer(stage)
        invariant ServerLoop(Snap(), plan, reply) == ServerLoop(old(Snap()), plan, reply)
        decreases ServerRank(stage, neg.resumed), if wait.Ok? then 1 else 0
      {
        ServerLoopStep(Snap(), plan, reply);
        ServerTurn(plan, reply(stage).answer, reply(stage).n);
      }
    }
  }

  /** Turns of the client until it waits for something, fails or is done. */
  function ClientLoop(h: Hs, hasCert: bool, reply: Stage -> Reply): Hs
    decreases ClientRank(h.stage, h.neg.resumed), if h.wait.Ok? then 1 else 0
  {
    if h.stage.Done? || !h.wait.Ok? || !IsClient(h.stage) then h
    else
      var h1 := ClientDo(h, hasCert, reply(h.stage).answer, reply(h.stage).n);
      ClientStepsOneWay(h, h1, hasCert, reply(h.stage).answer, reply(h.stage).n);
      ClientLoop(h1, hasCert, reply)
  }

  /** Turns of the server until it waits for something, fails or is done. */
  function ServerLoop(h: Hs, plan: Plan, reply: Stage -> Reply): Hs
    decreases ServerRank(h.stage, h.neg.resumed), if h.wait.Ok? then 1 else 0
  {
    if h.stage.Done? || !h.wait.Ok? || !IsServer(h.stage) then h
    else
      var h1 := ServerDo(h, plan, reply(h.stage).answer, reply(h.stage).n);
      ServerStepsOneWay(h, h1, plan, reply(h.stage).answer, reply(h.stage).n);
      ServerLoop(h1, plan, reply)
  }

  /** A turn makes the loop shorter. */
  lemma ClientLoopStep(h: Hs, hasCert: bool, reply: Stage -> Reply)
    requires h.wait.Ok? && IsClient(h.stage)
    ensures var h1 := ClientDo(h, hasCert, reply(h.stage).answer, reply(h.stage).n);
            && ClientLoop(h1, hasCert, reply) == ClientLoop(h, hasCert, reply)
            && (h1.stage.Done? || IsClient(h1.stage))
            && ClientRank(h1.stage, h1.neg.resumed) <= ClientRank(h.stage, h.neg.resumed)
            && (ClientRank(h1.stage, h1.neg.resumed) == ClientRank(h.stage, h.neg.resumed) ==> !h1.wait.Ok?)
  {
    hide ClientDo;
    ClientStepsOneWay(h, ClientDo(h, hasCert, reply(h.stage).answer, reply(h.stage).n), hasCert, reply(h.stage).answer, reply(h.stage).n);
  }

  lemma ServerLoopStep(h: Hs, plan: Plan, reply: Stage -> Reply)
    requires h.wait.Ok? && IsServer(h.stage)
    ensures var h1 := ServerDo(h, plan, reply(h.stage).answer, reply(h.stage).n);
            && ServerLoop(h1, plan, reply) == ServerLoop(h, plan, reply)
            && (h1.stage.Done? || IsServer(h1.stage))
            && ServerRank(h1.stage, h1.neg.resumed) <= ServerRank(h.stage, h.neg.resumed)
            && (ServerRank(h1.stage, h1.neg.resumed) == ServerRank(h.stage, h.neg.resumed) ==> !h1.wait.Ok?)
  {
    hide ServerDo;
    ServerStepsOneWay(h, ServerDo(h, plan, reply(h.stage).answer, reply(h.stage).n), plan, reply(h.stage).answer, reply(h.stage).n);
  }
}
