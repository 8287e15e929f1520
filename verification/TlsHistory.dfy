/** Everything one machine has said and heard: what it made sure of by the time it is done, whatever its peer does. */
module TlsHistory {
  import opened Prelude
  import opened TlsHandshake
  import opened TlsAlone
  import R = TlsRetry

  // ---- What was said ----

  /** A message, and the side it came from. */
  datatype Said = Said(server: bool, msg: Message)

  function Messages(log: seq<Said>): seq<Message> {
    seq(|log|, i requires 0 <= i < |log| => log[i].msg)
  }

  function SentBy(server: bool, items: seq<Item>): seq<Said> {
    if items == [] then []
    else (if items[0].content.Hand? then [Said(server, items[0].content.msg)] else []) + SentBy(server, items[1..])
  }

  /** The handshake messages a step has taken from the peer, and put into the flight. */
  function Exchanged(h: Hs, h1: Hs): seq<Said> {
    (if |h1.inbox| < |h.inbox| then [Said(!h.server, h.inbox[0])] else [])
    + (if |h.flight| <= |h1.flight| then SentBy(h.server, h1.flight[|h.flight|..]) else [])
  }

  /** Only a step of the machine takes or sends messages; what a failing one does is not counted. */
  function SaidIn(h: Hs, hasCert: bool, t: Turn): seq<Said> {
    if t.Acts? && t.action.Run? && Enabled(h, [t.item], t.action) && !Faces(h, hasCert, t).wait.Error?
    then Exchanged(h, Faces(h, hasCert, t)) else []
  }

  /** All handshake messages of a run, in order. */
  function History(server: bool, hasCert: bool, turns: seq<Turn>): seq<Said> {
    if turns == [] then []
    else
      var before := turns[..|turns| - 1];
      History(server, hasCert, before) + SaidIn(After(server, hasCert, before), hasCert, turns[|turns| - 1])
  }

  // ---- What ought to be said ----

  datatype Line = Line(server: bool, kind: Kind)

  function Lines(log: seq<Said>): seq<Line> {
    seq(|log|, i requires 0 <= i < |log| => Line(log[i].server, log[i].msg.kind))
  }

  /** What decides the course of a handshake. status and keys tell whether the two messages come that a server
      may leave out. */
  datatype Facts = Facts(resumed: bool, certAuth: bool, status: bool, keys: bool, request: bool, verify: bool,
                         nextProto: bool, channelId: bool, ticket: bool)

  function One(b: bool, server: bool, kind: Kind): seq<Line> {
    if b then [Line(server, kind)] else []
  }

  /** The messages of RFC 5246 section 7.3, with those of the extensions: the k-th place of a handshake. */
  function Part(f: Facts, k: nat): seq<Line> {
    if k == 0 then [Line(false, ClientHello)]
    else if k == 1 then [Line(true, ServerHello)]
    else if f.resumed then
      if k == 10 then One(f.ticket, true, NewSessionTicket)
      else if k == 11 then [Line(true, Finished)]
      else if k == 12 then One(f.nextProto, false, NextProto)
      else if k == 13 then One(f.channelId, false, ChannelId)
      else if k == 14 then [Line(false, Finished)]
      else []
    else
      if k == 2 then One(f.certAuth, true, Certificate)
      else if k == 3 then One(f.status, true, CertificateStatus)
      else if k == 4 then One(f.keys, true, ServerKeyExchange)
      else if k == 5 then One(f.request, true, CertificateRequest)
      else if k == 6 then [Line(true, ServerHelloDone)]
      else if k == 7 then One(f.request, false, Certificate)
      else if k == 8 then [Line(false, ClientKeyExchange)]
      else if k == 9 then One(f.verify, false, CertificateVerify)
      else if k == 10 then One(f.nextProto, false, NextProto)
      else if k == 11 then One(f.channelId, false, ChannelId)
      else if k == 12 then [Line(false, Finished)]
      else if k == 13 then One(f.ticket, true, NewSessionTicket)
      else if k == 14 then [Line(true, Finished)]
      else []
  }

  /** The messages before place n; before place 15 they are the whole handshake. */
  function UpTo(f: Facts, n: nat): seq<Line> {
    if n == 0 then [] else UpTo(f, n - 1) + Part(f, n - 1)
  }

  lemma {:induction false} SameUpTo(f: Facts, f1: Facts, n: nat)
    requires forall k | 0 <= k < n :: Part(f, k) == Part(f1, k)
    ensures UpTo(f, n) == UpTo(f1, n)
  {
    if n > 0 { SameUpTo(f, f1, n - 1); }
  }

  lemma {:induction false} NothingBetween(f: Facts, n: nat, m: nat)
    requires n <= m && forall k | n <= k < m :: Part(f, k) == []
    ensures UpTo(f, m) == UpTo(f, n)
    decreases m
  {
    if n < m { NothingBetween(f, n, m - 1); }
  }

  /** How many places a machine is past in each state. */
  function Reached(s: Stage, resumed: bool): nat {
    match s
    case StartConnect => 0
    case EnterEarlyData => 1
    case ReadServerHello => 1
    case ReadServerCertificate => 2
    case ReadCertificateStatus => 3
    case VerifyServerCertificate => 4
    case ReadServerKeyExchange => 4
    case ReadCertificateRequest => 5
    case ReadServerHelloDone => 6
    case SendClientCertificate => 7
    case SendClientKeyExchange => 8
    case SendClientCertificateVerify => 9
    case SendClientFinished => if resumed then 12 else 10
    case FinishFlight => if resumed then 15 else 13
    case ReadSessionTicket => if resumed then 10 else 13
    case ProcessServerChangeCipherSpec => if resumed then 11 else 14
    case ReadServerFinished => if resumed then 11 else 14
    case StartAccept => 0
    case ReadClientHello => 0
    case SelectCertificate => 0
    case SelectParameters => 0
    case SendServerHello => 1
    case SendServerCertificate => 2
    case SendServerKeyExchange => 4
    case SendServerHelloDone => 5
    case ReadClientCertificate => 7
    case VerifyClientCertificate => 8
    case ReadClientKeyExchange => 8
    case ReadClientCertificateVerify => 9
    case ReadChangeCipherSpec => if resumed then 12 else 10
    case ProcessClientChangeCipherSpec => if resumed then 12 else 10
    case ReadNextProto => if resumed then 12 else 10
    case ReadChannelId => if resumed then 13 else 11
    case ReadClientFinished => if resumed then 14 else 12
    case SendServerFinished => if resumed then 10 else 13
    case _ => 15
  }

  function FactsOf(h: Hs, hasCert: bool, status: bool, keys: bool): Facts {
    Facts(h.neg.resumed, h.neg.certAuth, status, keys, h.certRequest, if h.server then h.peerKey else h.certRequest && hasCert,
          h.neg.nextProto, h.neg.channelId, h.neg.ticket)
  }

  // ---- What a machine makes sure of ----

  /** A Finished is the MAC, and a CertificateVerify or Channel ID the signature, over all messages before it. A
      server's chain is not empty. */
  predicate RightAfter(before: seq<Message>, s: Said) {
    match s.msg.kind
    case Finished => s.msg.body == Mac(s.server, before)
    case CertificateVerify => s.msg.body == Signature(before)
    case ChannelId => s.msg.body == Signature(before)
    case Certificate => s.server ==> s.msg.body != Text(0)
    case _ => true
  }

  predicate AllRight(log: seq<Said>) {
    forall k | 0 <= k < |log| :: RightAfter(Messages(log[..k]), log[k])
  }

  /** The states before the hellos have settled what is hashed. */
  predicate Unsettled(s: Stage) {
    s.StartConnect? || s.EnterEarlyData? || s.ReadServerHello? || s.StartAccept? || s.ReadClientHello? || s.SelectCertificate?
    || s.SelectParameters?
  }

  /** The running hash, and the buffer as long as there is one, are over just the messages said. */
  predicate Transcribes(h: Hs, ms: seq<Message>) {
    && (h.transcript.hash.Some? <==> !Unsettled(h.stage))
    && (h.transcript.hash.Some? ==> h.transcript.hash.value == ms)
    && (h.transcript.buffer.Some? ==> h.transcript.buffer.value == ms)
    && (h.transcript.buffer.None? ==> h.transcript.hash.Some?)
  }

  /** The messages of the running hash, or of the buffer as long as there is no hash. */
  function Over(h: Hs): seq<Message> {
    if h.transcript.hash.Some? then h.transcript.hash.value
    else if h.transcript.buffer.Some? then h.transcript.buffer.value else []
  }

  function FinishedPlace(server: bool, resumed: bool): nat {
    if server then if resumed then 11 else 14 else if resumed then 14 else 12
  }

  /** A machine writes under new keys from its own Finished on, and reads under new keys from before the peer's. */
  predicate Keyed(h: Hs) {
    var at := Reached(h.stage, h.neg.resumed);
    && h.writeEpoch == (if at > FinishedPlace(h.server, h.neg.resumed) then 1 else 0)
    && h.readEpoch == (if at > FinishedPlace(!h.server, h.neg.resumed) || h.stage.ReadServerFinished? || h.stage.ReadNextProto?
                          || h.stage.ReadChannelId? || h.stage.ReadClientFinished? then 1 else 0)
  }

  /** A client gets a certificate status only if it was announced, and a key exchange just when the suite has one. */
  predicate Optional(h: Hs, status: bool, keys: bool) {
    !h.server && !h.neg.resumed ==>
      && (Reached(h.stage, false) >= 4 && status ==> h.neg.status)
      && (Reached(h.stage, false) >= 5 ==> (h.neg.ecdhe ==> keys) && (keys ==> h.neg.ecdhe || !h.neg.certAuth))
  }

  /** The state is one of its side, and one of a full handshake only in such; once read, a ClientHello stays at hand
      until it is answered. */
  predicate InPlace(h: Hs) {
    && (h.stage.Done? || if h.server then R.IsServer(h.stage) else R.IsClient(h.stage))
    && (2 <= Reached(h.stage, h.neg.resumed) <= 9 ==> !h.neg.resumed)
    && (h.stage.SelectCertificate? || h.stage.SelectParameters? ==> h.inbox != [] && h.inbox[0].kind == ClientHello)
  }

  /** The machine has failed, or all it said and heard is right and the beginning of one handshake. */
  predicate Traced(h: Hs, server: bool, hasCert: bool, log: seq<Said>, status: bool, keys: bool) {
    h.wait.Error? || (
      && h.server == server && Lines(log) == UpTo(FactsOf(h, hasCert, status, keys), Reached(h.stage, h.neg.resumed))
      && Transcribes(h, Messages(log)) && AllRight(log) && Keyed(h) && Optional(h, status, keys) && InPlace(h))
  }

  // ---- Steps ----

  lemma Joins(a: seq<Said>, b: seq<Said>)
    ensures Messages(a + b) == Messages(a) + Messages(b) && Lines(a + b) == Lines(a) + Lines(b)
  {}

  predicate RightBehind(before: seq<Message>, said: seq<Said>) {
    forall k | 0 <= k < |said| :: RightAfter(before + Messages(said[..k]), said[k])
  }

  lemma RightJoins(log: seq<Said>, said: seq<Said>)
    requires AllRight(log) && RightBehind(Messages(log), said)
    ensures AllRight(log + said)
  {
    var all := log + said;
    forall k | 0 <= k < |all|
      ensures RightAfter(Messages(all[..k]), all[k])
    {
      if k < |log| {
        assert all[..k] == log[..k];
      } else {
        assert all[..k] == log + said[..k - |log|];
        Joins(log, said[..k - |log|]);
      }
    }
  }

  function Next(server: bool, s: Stage, resumed: bool): Stage {
    if server then R.ServerNext(s, resumed) else R.ClientNext(s, resumed)
  }

  predicate Leads(h: Hs, next: Stage) {
    next == Next(h.server, h.stage, h.neg.resumed)
  }

  /** What a state passes of the handshake. */
  function Passing(f: Facts, s: Stage): seq<Line> {
    match s
    case StartConnect => [Line(false, ClientHello)]
    case ReadServerHello => [Line(true, ServerHello)]
    case ReadServerCertificate => One(f.certAuth, true, Certificate)
    case ReadCertificateStatus => One(f.status, true, CertificateStatus)
    case ReadServerKeyExchange => One(f.keys, true, ServerKeyExchange)
    case ReadCertificateRequest => One(f.request, true, CertificateRequest)
    case ReadServerHelloDone => [Line(true, ServerHelloDone)]
    case SendClientCertificate => One(f.request, false, Certificate)
    case SendClientKeyExchange => [Line(false, ClientKeyExchange)]
    case SendClientCertificateVerify => One(f.verify, false, CertificateVerify)
    case SendClientFinished => One(f.nextProto, false, NextProto) + One(f.channelId, false, ChannelId) + [Line(false, Finished)]
    case ReadSessionTicket => One(f.ticket, true, NewSessionTicket)
    case ReadServerFinished => [Line(true, Finished)]
    case SelectParameters => [Line(false, ClientHello)]
    case SendServerHello => [Line(true, ServerHello)]
    case SendServerCertificate => One(f.certAuth, true, Certificate) + One(f.status, true, CertificateStatus)
    case SendServerKeyExchange => One(f.keys, true, ServerKeyExchange)
    case SendServerHelloDone => One(f.request, true, CertificateRequest) + [Line(true, ServerHelloDone)]
    case ReadClientCertificate => One(f.request, false, Certificate)
    case ReadClientKeyExchange => [Line(false, ClientKeyExchange)]
    case ReadClientCertificateVerify => One(f.verify, false, CertificateVerify)
    case ReadNextProto => One(f.nextProto, false, NextProto)
    case ReadChannelId => One(f.channelId, false, ChannelId)
    case ReadClientFinished => [Line(false, Finished)]
    case SendServerFinished => One(f.ticket, true, NewSessionTicket) + [Line(true, Finished)]
    case _ => []
  }

  lemma OnePlace(f: Facts, k: nat, k1: nat, ls: seq<Line>)
    requires k1 == k + 1 && ls == Part(f, k)
    ensures UpTo(f, k1) == UpTo(f, k) + ls
  {
    hide Part;
  }

  lemma TwoPlaces(f: Facts, k: nat, k1: nat, ls: seq<Line>, ls1: seq<Line>)
    requires k1 == k + 2 && ls == Part(f, k) && ls1 == Part(f, k + 1)
    ensures UpTo(f, k1) == UpTo(f, k) + (ls + ls1)
  {
    hide UpTo;
    OnePlace(f, k, k + 1, ls);
    OnePlace(f, k + 1, k1, ls1);
  }

  lemma ThreePlaces(f: Facts, k: nat, k1: nat, ls: seq<Line>, ls1: seq<Line>, ls2: seq<Line>)
    requires k1 == k + 3 && ls == Part(f, k) && ls1 == Part(f, k + 1) && ls2 == Part(f, k + 2)
    ensures UpTo(f, k1) == UpTo(f, k) + (ls + ls1 + ls2)
  {
    hide UpTo, Part;
    TwoPlaces(f, k, k + 2, ls, ls1);
    OnePlace(f, k + 2, k1, ls2);
  }

  lemma ClientHellos(f: Facts, s: Stage)
    requires s.StartConnect? || s.EnterEarlyData? || (s.ReadServerHello? && !f.resumed)
    requires 2 <= Reached(s, f.resumed) <= 9 ==> !f.resumed
    ensures UpTo(f, Reached(R.ClientNext(s, f.resumed), f.resumed)) == UpTo(f, Reached(s, f.resumed)) + Passing(f, s)
  {
    hide UpTo;
    if Passing(f, s) == [] && Reached(R.ClientNext(s, f.resumed), f.resumed) == Reached(s, f.resumed) {
    } else {
      OnePlace(f, Reached(s, f.resumed), Reached(s, f.resumed) + 1, Passing(f, s));
    }
  }

  lemma ClientResumes(f: Facts, s: Stage)
    requires s.ReadServerHello? && f.resumed
    requires 2 <= Reached(s, f.resumed) <= 9 ==> !f.resumed
    ensures UpTo(f, Reached(R.ClientNext(s, f.resumed), f.resumed)) == UpTo(f, Reached(s, f.resumed)) + Passing(f, s)
  {
    hide UpTo;
    OnePlace(f, 1, 2, Part(f, 1));
    NothingBetween(f, 2, 10);
  }

  lemma ClientReads(f: Facts, s: Stage)
    requires s.ReadServerCertificate? || s.ReadCertificateStatus? || s.VerifyServerCertificate? || s.ReadServerKeyExchange?
             || s.ReadCertificateRequest? || s.ReadServerHelloDone?
    requires 2 <= Reached(s, f.resumed) <= 9 ==> !f.resumed
    ensures UpTo(f, Reached(R.ClientNext(s, f.resumed), f.resumed)) == UpTo(f, Reached(s, f.resumed)) + Passing(f, s)
  {
    hide UpTo;
    if Passing(f, s) == [] && Reached(R.ClientNext(s, f.resumed), f.resumed) == Reached(s, f.resumed) {
    } else {
      OnePlace(f, Reached(s, f.resumed), Reached(s, f.resumed) + 1, Passing(f, s));
    }
  }

  lemma ClientSends(f: Facts, s: Stage)
    requires s.SendClientCertificate? || s.SendClientKeyExchange? || s.SendClientCertificateVerify?
    requires 2 <= Reached(s, f.resumed) <= 9 ==> !f.resumed
    ensures UpTo(f, Reached(R.ClientNext(s, f.resumed), f.resumed)) == UpTo(f, Reached(s, f.resumed)) + Passing(f, s)
  {
    hide UpTo;
    if Passing(f, s) == [] && Reached(R.ClientNext(s, f.resumed), f.resumed) == Reached(s, f.resumed) {
    } else {
      OnePlace(f, Reached(s, f.resumed), Reached(s, f.resumed) + 1, Passing(f, s));
    }
  }

  lemma ClientFinishes(f: Facts, s: Stage)
    requires s.SendClientFinished?
    requires 2 <= Reached(s, f.resumed) <= 9 ==> !f.resumed
    ensures UpTo(f, Reached(R.ClientNext(s, f.resumed), f.resumed)) == UpTo(f, Reached(s, f.resumed)) + Passing(f, s)
  {
    hide UpTo;
    var k := Reached(s, f.resumed);
    ThreePlaces(f, k, k + 3, Part(f, k), Part(f, k + 1), Part(f, k + 2));
  }

  lemma ClientLastReads(f: Facts, s: Stage)
    requires s.FinishFlight? || s.ReadSessionTicket? || s.ProcessServerChangeCipherSpec? || s.ReadServerFinished?
             || s.FinishClientHandshake?
    requires 2 <= Reached(s, f.resumed) <= 9 ==> !f.resumed
    ensures UpTo(f, Reached(R.ClientNext(s, f.resumed), f.resumed)) == UpTo(f, Reached(s, f.resumed)) + Passing(f, s)
  {
    hide UpTo;
    if Passing(f, s) == [] && Reached(R.ClientNext(s, f.resumed), f.resumed) == Reached(s, f.resumed) {
    } else {
      OnePlace(f, Reached(s, f.resumed), Reached(s, f.resumed) + 1, Passing(f, s));
    }
  }

  /** Between two states lies what the first passes. */
  lemma ClientPlaces(f: Facts, s: Stage)
    requires R.IsClient(s)
    requires 2 <= Reached(s, f.resumed) <= 9 ==> !f.resumed
    ensures UpTo(f, Reached(R.ClientNext(s, f.resumed), f.resumed)) == UpTo(f, Reached(s, f.resumed)) + Passing(f, s)
  {
    hide UpTo, Reached, Passing, Part, R.ClientNext;
    if s.StartConnect? || s.EnterEarlyData? || (s.ReadServerHello? && !f.resumed) {
      ClientHellos(f, s);
    } else if s.ReadServerHello? && f.resumed {
      ClientResumes(f, s);
    } else if s.ReadServerCertificate? || s.ReadCertificateStatus? || s.VerifyServerCertificate? || s.ReadServerKeyExchange?
              || s.ReadCertificateRequest? || s.ReadServerHelloDone? {
      ClientReads(f, s);
    } else if s.SendClientCertificate? || s.SendClientKeyExchange? || s.SendClientCertificateVerify? {
      ClientSends(f, s);
    } else if s.SendClientFinished? {
      ClientFinishes(f, s);
    } else if s.FinishFlight? || s.ReadSessionTicket? || s.ProcessServerChangeCipherSpec? || s.ReadServerFinished?
              || s.FinishClientHandshake? {
      ClientLastReads(f, s);
    }
  }

  lemma ServerHellos(f: Facts, s: Stage)
    requires s.StartAccept? || s.ReadClientHello? || s.SelectCertificate? || s.SelectParameters? || s.SendServerKeyExchange?
             || (s.SendServerHello? && !f.resumed)
    requires 2 <= Reached(s, f.resumed) <= 9 ==> !f.resumed
    ensures UpTo(f, Reached(R.ServerNext(s, f.resumed), f.resumed)) == UpTo(f, Reached(s, f.resumed)) + Passing(f, s)
  {
    hide UpTo;
    if Passing(f, s) == [] && Reached(R.ServerNext(s, f.resumed), f.resumed) == Reached(s, f.resumed) {
    } else {
      OnePlace(f, Reached(s, f.resumed), Reached(s, f.resumed) + 1, Passing(f, s));
    }
  }

  lemma ServerResumes(f: Facts, s: Stage)
    requires s.SendServerHello? && f.resumed
    requires 2 <= Reached(s, f.resumed) <= 9 ==> !f.resumed
    ensures UpTo(f, Reached(R.ServerNext(s, f.resumed), f.resumed)) == UpTo(f, Reached(s, f.resumed)) + Passing(f, s)
  {
    hide UpTo;
    OnePlace(f, 1, 2, Part(f, 1));
    NothingBetween(f, 2, 10);
  }

  lemma ServerSends(f: Facts, s: Stage)
    requires s.SendServerCertificate? || s.SendServerHelloDone? || s.SendServerFinished?
    requires 2 <= Reached(s, f.resumed) <= 9 ==> !f.resumed
    ensures UpTo(f, Reached(R.ServerNext(s, f.resumed), f.resumed)) == UpTo(f, Reached(s, f.resumed)) + Passing(f, s)
  {
    hide UpTo;
    var k := Reached(s, f.resumed);
    TwoPlaces(f, k, k + 2, Part(f, k), Part(f, k + 1));
  }

  lemma ServerReads(f: Facts, s: Stage)
    requires s.ReadClientCertificate? || s.ReadClientKeyExchange? || s.ReadClientCertificateVerify?
    requires 2 <= Reached(s, f.resumed) <= 9 ==> !f.resumed
    ensures UpTo(f, Reached(R.ServerNext(s, f.resumed), f.resumed)) == UpTo(f, Reached(s, f.resumed)) + Passing(f, s)
  {
    hide UpTo, One;
    OnePlace(f, Reached(s, f.resumed), Reached(s, f.resumed) + 1, Passing(f, s));
  }

  lemma ServerLastReads(f: Facts, s: Stage)
    requires s.ReadNextProto? || s.ReadChannelId? || s.ReadClientFinished?
    requires 2 <= Reached(s, f.resumed) <= 9 ==> !f.resumed
    ensures UpTo(f, Reached(R.ServerNext(s, f.resumed), f.resumed)) == UpTo(f, Reached(s, f.resumed)) + Passing(f, s)
  {
    hide UpTo, One;
    OnePlace(f, Reached(s, f.resumed), Reached(s, f.resumed) + 1, Passing(f, s));
  }

  lemma ServerIdles(f: Facts, s: Stage)
    requires s.VerifyClientCertificate? || s.ReadChangeCipherSpec? || s.ProcessClientChangeCipherSpec? || s.FinishServerHandshake?
    requires 2 <= Reached(s, f.resumed) <= 9 ==> !f.resumed
    ensures UpTo(f, Reached(R.ServerNext(s, f.resumed), f.resumed)) == UpTo(f, Reached(s, f.resumed)) + Passing(f, s)
  {
    hide UpTo;
  }

  lemma ServerPlaces(f: Facts, s: Stage)
    requires R.IsServer(s)
    requires 2 <= Reached(s, f.resumed) <= 9 ==> !f.resumed
    ensures UpTo(f, Reached(R.ServerNext(s, f.resumed), f.resumed)) == UpTo(f, Reached(s, f.resumed)) + Passing(f, s)
  {
    hide UpTo, Reached, Passing, Part, R.ServerNext;
    if s.StartAccept? || s.ReadClientHello? || s.SelectCertificate? || s.SelectParameters? || s.SendServerKeyExchange?
       || (s.SendServerHello? && !f.resumed) {
      ServerHellos(f, s);
    } else if s.SendServerHello? && f.resumed {
      ServerResumes(f, s);
    } else if s.SendServerCertificate? || s.SendServerHelloDone? || s.SendServerFinished? {
      ServerSends(f, s);
    } else if s.ReadClientCertificate? || s.ReadClientKeyExchange? || s.ReadClientCertificateVerify? {
      ServerReads(f, s);
    } else if s.ReadNextProto? || s.ReadChannelId? || s.ReadClientFinished? {
      ServerLastReads(f, s);
    } else if s.VerifyClientCertificate? || s.ReadChangeCipherSpec? || s.ProcessClientChangeCipherSpec? || s.FinishServerHandshake? {
      ServerIdles(f, s);
    }
  }

  /** A step into the next state; two of them settle whether a session is resumed, and four change keys. */
  predicate Goes(h: Hs, h1: Hs) {
    && h1.server == h.server && h1.stage == Next(h.server, h.stage, h1.neg.resumed)
    && (h1.neg.resumed == h.neg.resumed || h.stage.ReadServerHello? || h.stage.SelectParameters?)
    && h1.writeEpoch == h.writeEpoch + (if h.stage.SendClientFinished? || h.stage.SendServerFinished? then 1 else 0)
    && h1.readEpoch
       == h.readEpoch + (if h.stage.ProcessServerChangeCipherSpec? || h.stage.ProcessClientChangeCipherSpec? then 1 else 0)
    && (h1.stage.SelectCertificate? || h1.stage.SelectParameters? ==> h1.inbox != [] && h1.inbox[0].kind == ClientHello)
  }

  lemma ClientGoes(h: Hs, h1: Hs)
    requires Goes(h, h1) && !h.server && Keyed(h) && InPlace(h) && !h.stage.Done?
    ensures Keyed(h1) && InPlace(h1)
  {}

  lemma ServerKeysGo(h: Hs, h1: Hs)
    requires Goes(h, h1) && h.server && Keyed(h) && InPlace(h) && !h.stage.Done?
    ensures Keyed(h1)
  {}

  lemma ServerGoes(h: Hs, h1: Hs)
    requires Goes(h, h1) && h.server && Keyed(h) && InPlace(h) && !h.stage.Done?
    ensures Keyed(h1) && InPlace(h1)
  {
    hide Keyed;
    ServerKeysGo(h, h1);
  }

  /** What is settled for a state when it is reached is not changed by the step. */
  predicate Agree(h: Hs, f: Facts, f1: Facts) {
    UpTo(f1, Reached(h.stage, f1.resumed)) == UpTo(f, Reached(h.stage, f.resumed))
  }

  /** A step that goes on: what it took and sent is right, and goes into the transcript. */
  predicate Moves(h: Hs, h1: Hs, said: seq<Said>) {
    && Goes(h, h1) && Exchanged(h, h1) == said && RightBehind(Over(h), said) && Transcribes(h1, Over(h) + Messages(said))
  }

  lemma Moved(h: Hs, h1: Hs, server: bool, hasCert: bool, log: seq<Said>, said: seq<Said>, status: bool, keys: bool,
              status1: bool, keys1: bool)
    requires Traced(h, server, hasCert, log, status, keys) && !h.wait.Error? && !h.stage.Done? && Moves(h, h1, said)
    requires Agree(h, FactsOf(h, hasCert, status, keys), FactsOf(h1, hasCert, status1, keys1))
    requires Lines(said) == Passing(FactsOf(h1, hasCert, status1, keys1), h.stage)
    requires Optional(h1, status1, keys1)
    ensures Traced(h1, server, hasCert, log + Exchanged(h, h1), status1, keys1)
  {
    hide UpTo, Part, Lines, Messages, AllRight, RightBehind, Transcribes, Keyed, Optional, Passing, Exchanged;
    assert Over(h) == Messages(log) by { OverIsLog(h, Messages(log)); }
    Joins(log, said);
    RightJoins(log, said);
    var f1 := FactsOf(h1, hasCert, status1, keys1);
    assert 2 <= Reached(h.stage, f1.resumed) <= 9 ==> !f1.resumed;
    if h.server {
      ServerGoes(h, h1);
      ServerPlaces(f1, h.stage);
    } else {
      ClientGoes(h, h1);
      ClientPlaces(f1, h.stage);
    }
  }

  lemma OverIsLog(h: Hs, ms: seq<Message>)
    requires Transcribes(h, ms)
    ensures Over(h) == ms
  {}

  /** A step that leaves what was settled before. */
  predicate Same(h: Hs, h1: Hs) {
    h1.server == h.server && h1.neg == h.neg && h1.certRequest == h.certRequest && h1.peerKey == h.peerKey
  }

  lemma SameOptional(h: Hs, h1: Hs, status: bool, keys: bool)
    requires Goes(h, h1) && Same(h, h1) && Optional(h, status, keys) && InPlace(h) && !h.stage.Done?
    requires !h.stage.ReadCertificateStatus? && !h.stage.ReadServerKeyExchange?
    ensures Optional(h1, status, keys)
  {}

  /** A step that only waits. */
  lemma Waits(h: Hs, h1: Hs, server: bool, hasCert: bool, log: seq<Said>, status: bool, keys: bool)
    requires Traced(h, server, hasCert, log, status, keys) && !h.wait.Error? && h1 == Await(h, h1.wait)
    ensures Traced(h1, server, hasCert, log + Exchanged(h, h1), status, keys)
  {
    hide UpTo, Lines, Messages, AllRight, Reached;
    assert Exchanged(h, h1) == [];
    assert log + [] == log;
  }

  // ---- What a state does, whatever was said before ----

  lemma SaysNothing(before: seq<Message>)
    ensures Messages([]) == [] && Lines([]) == [] && RightBehind(before, []) && before + [] == before
  {}

  lemma SaysOne(before: seq<Message>, s: Said)
    requires RightAfter(before, s)
    ensures Messages([s]) == [s.msg] && Lines([s]) == [Line(s.server, s.msg.kind)] && RightBehind(before, [s])
  {
    hide RightAfter;
    SaysNothing(before);
    assert [s][..0] == [];
  }

  /** A state that waits for nothing and says nothing. */
  lemma Idles(h: Hs, h1: Hs)
    requires Goes(h, h1) && h1.inbox == h.inbox && h1.flight == h.flight && Transcribes(h1, Over(h))
    ensures Moves(h, h1, [])
  {
    hide Goes, Transcribes, RightBehind, Messages, Over;
    SaysNothing(Over(h));
  }

  /** The message at hand, taken. */
  lemma Takes(h: Hs, h1: Hs)
    requires Goes(h, h1) && h.inbox != [] && h1.inbox == h.inbox[1..] && h1.flight == h.flight
    requires RightAfter(Over(h), Said(!h.server, h.inbox[0])) && Transcribes(h1, Over(h) + [h.inbox[0]])
    ensures Moves(h, h1, [Said(!h.server, h.inbox[0])])
  {
    hide Goes, Transcribes, RightBehind, RightAfter, Messages, Over;
    SaysOne(Over(h), Said(!h.server, h.inbox[0]));
  }

  /** The transcript as it was; after the hellos it may lose its buffer. */
  predicate Kept(h: Hs, h1: Hs) {
    && Unsettled(h.stage) == Unsettled(h1.stage) && h1.transcript.hash == h.transcript.hash
    && (h1.transcript.buffer == h.transcript.buffer || (h1.transcript.buffer.None? && !Unsettled(h.stage)))
  }

  /** h1 is x in what matters to a next step. */
  predicate Like(h1: Hs, x: Hs) {
    && h1.server == x.server && h1.stage == x.stage && h1.inbox == x.inbox && h1.flight == x.flight
    && h1.neg.resumed == x.neg.resumed && h1.readEpoch == x.readEpoch && h1.writeEpoch == x.writeEpoch
  }

  predicate ChangesKeys(s: Stage) {
    s.SendClientFinished? || s.SendServerFinished? || s.ProcessServerChangeCipherSpec? || s.ProcessClientChangeCipherSpec?
  }

  predicate NeedsHello(s: Stage) {
    s.SelectCertificate? || s.SelectParameters?
  }

  /** The message at hand, hashed and taken. */
  lemma TookMoves(h: Hs, h1: Hs, next: Stage)
    requires h.inbox != [] && Like(h1, Took(h, next)) && Kept(Hashed(h), h1) && Transcribes(h, Over(h))
             && !Unsettled(h.stage)
    requires Leads(h, next) && !ChangesKeys(h.stage) && !NeedsHello(next)
    requires RightAfter(Over(h), Said(!h.server, h.inbox[0]))
    ensures Moves(h, h1, [Said(!h.server, h.inbox[0])])
  {
    hide Moves, RightAfter, Next;
    Takes(h, h1);
  }

  lemma EnterMoves(h: Hs, h1: Hs, next: Stage)
    requires Like(h1, Enter(h, next)) && Kept(h, h1) && Transcribes(h, Over(h))
    requires Leads(h, next) && !ChangesKeys(h.stage)
    requires NeedsHello(next) ==> h.inbox != [] && h.inbox[0].kind == ClientHello
    ensures Moves(h, h1, [])
  {
    hide Moves, Next;
    Idles(h, h1);
  }

  /** The state fails, waits, or goes on; and then has read a message of the kind just if it is used. */
  predicate Reads(h: Hs, h1: Hs, used: bool, kind: Kind) {
    || h1.wait.Error? || h1 == Await(h, h1.wait)
    || if used then h.inbox != [] && h.inbox[0].kind == kind && Moves(h, h1, [Said(!h.server, h.inbox[0])])
       else Moves(h, h1, [])
  }

  /** The state fails, waits, or says something. */
  predicate Says(h: Hs, h1: Hs, said: seq<Said>) {
    h1.wait.Error? || h1 == Await(h, h1.wait) || Moves(h, h1, said)
  }

  lemma SaysTraced(h: Hs, h1: Hs, said: seq<Said>, server: bool, hasCert: bool, log: seq<Said>, status: bool, keys: bool)
    requires Traced(h, server, hasCert, log, status, keys) && !h.wait.Error? && !h.stage.Done?
    requires Says(h, h1, said) && (h1.wait.Error? || Same(h, h1))
    requires !h.stage.ReadCertificateStatus? && !h.stage.ReadServerKeyExchange?
    requires h1.wait.Error? || h1 == Await(h, h1.wait) || Lines(said) == Passing(FactsOf(h, hasCert, status, keys), h.stage)
    ensures Traced(h1, server, hasCert, log + Exchanged(h, h1), status, keys)
  {
    hide UpTo, Lines, Messages, Goes, Passing, Transcribes, Optional, InPlace, Keyed, AllRight, Reached, Exchanged,
         RightBehind;
    if h1.wait.Error? {
    } else if h1 == Await(h, h1.wait) {
      Waits(h, h1, server, hasCert, log, status, keys);
    } else {
      SameOptional(h, h1, status, keys);
      Moved(h, h1, server, hasCert, log, said, status, keys, status, keys);
    }
  }

  lemma HeardLine(h: Hs, kind: Kind)
    requires h.inbox != [] && h.inbox[0].kind == kind
    ensures Lines([Said(!h.server, h.inbox[0])]) == One(true, !h.server, kind)
  {}

  lemma ReadsTraced(h: Hs, h1: Hs, used: bool, kind: Kind, server: bool, hasCert: bool, log: seq<Said>, status: bool,
                    keys: bool)
    requires Traced(h, server, hasCert, log, status, keys) && !h.wait.Error? && !h.stage.Done?
    requires Reads(h, h1, used, kind) && (h1.wait.Error? || Same(h, h1))
    requires !h.stage.ReadCertificateStatus? && !h.stage.ReadServerKeyExchange?
    requires Passing(FactsOf(h, hasCert, status, keys), h.stage) == One(used, !h.server, kind)
    ensures Traced(h1, server, hasCert, log + Exchanged(h, h1), status, keys)
  {
    hide Traced, Lines, Messages, Passing, Same, Moves, Exchanged;
    if h1.wait.Error? || h1 == Await(h, h1.wait) || !used {
      SaysNothing([]);
      SaysTraced(h, h1, [], server, hasCert, log, status, keys);
    } else {
      HeardLine(h, kind);
      SaysTraced(h, h1, [Said(!h.server, h.inbox[0])], server, hasCert, log, status, keys);
    }
  }

  // ---- Queueing ----

  /** hx is h with a part of a flight built. */
  predicate Built(h: Hs, hx: Hs, said: seq<Said>) {
    && hx == h.(flight := hx.flight, transcript := hx.transcript, writeEpoch := hx.writeEpoch)
    && h.flight <= hx.flight && SentBy(h.server, hx.flight[|h.flight|..]) == said
    && (hx.transcript.hash == if h.transcript.hash.Some? then Some(h.transcript.hash.value + Messages(said)) else None)
    && (hx.transcript.buffer == if h.transcript.buffer.Some? then Some(h.transcript.buffer.value + Messages(said)) else None)
  }

  lemma BuildsNothing(h: Hs)
    ensures Built(h, h, [])
  {
    assert forall ms: seq<Message> :: ms + Messages([]) == ms;
  }

  lemma {:induction false} SentAppends(server: bool, items: seq<Item>, item: Item)
    ensures SentBy(server, items + [item]) == SentBy(server, items) + SentBy(server, [item])
    decreases |items|
  {
    if items == [] {
      assert items + [item] == [item];
    } else {
      assert (items + [item])[1..] == items[1..] + [item];
      SentAppends(server, items[1..], item);
    }
  }

  lemma BuildsMessage(h: Hs, hx: Hs, said: seq<Said>, m: Message)
    requires Built(h, hx, said)
    ensures Built(h, Put(hx, m), said + [Said(h.server, m)])
  {
    var item := Item(hx.writeEpoch, Hand(m));
    var more := said + [Said(h.server, m)];
    assert Put(hx, m).flight[|h.flight|..] == hx.flight[|h.flight|..] + [item];
    SentAppends(h.server, hx.flight[|h.flight|..], item);
    assert SentBy(h.server, [item]) == [Said(h.server, m)] + SentBy(h.server, [item][1..]);
    assert Messages(more) == Messages(said) + [m];
    assert forall ms: seq<Message> :: ms + Messages(said) + [m] == ms + Messages(more);
  }

  lemma BuildsIf(b: bool, h: Hs, hx: Hs, said: seq<Said>, m: Message)
    requires Built(h, hx, said)
    ensures Built(h, PutIf(b, hx, m), said + if b then [Said(h.server, m)] else [])
  {
    if b { BuildsMessage(h, hx, said, m); } else { assert said + [] == said; }
  }

  lemma BuildsCcs(h: Hs, hx: Hs, said: seq<Said>)
    requires Built(h, hx, said)
    ensures Built(h, PutCcs(hx), said) && PutCcs(hx).writeEpoch == hx.writeEpoch + 1
  {
    var item := Item(hx.writeEpoch, Ccs);
    assert PutCcs(hx).flight[|h.flight|..] == hx.flight[|h.flight|..] + [item];
    SentAppends(h.server, hx.flight[|h.flight|..], item);
    assert SentBy(h.server, [item]) == [] + SentBy(h.server, [item][1..]);
    assert said + [] == said;
  }

  /** The state sends what was built. */
  lemma Sends(h: Hs, hx: Hs, h1: Hs, next: Stage, said: seq<Said>)
    requires Built(h, hx, said) && Like(h1, Enter(hx, next)) && Kept(hx, h1) && RightBehind(Over(h), said)
    requires Transcribes(h, Over(h)) && Leads(h, next) && !NeedsHello(next)
    requires !h.stage.ProcessServerChangeCipherSpec? && !h.stage.ProcessClientChangeCipherSpec?
    requires hx.writeEpoch == h.writeEpoch + (if h.stage.SendClientFinished? || h.stage.SendServerFinished? then 1 else 0)
    ensures Moves(h, h1, said)
  {
    hide Messages, Next, RightBehind, SentBy;
  }

  lemma SendsOne(h: Hs, h1: Hs, m: Message, next: Stage)
    requires Like(h1, Enter(Put(h, m), next)) && Kept(Put(h, m), h1) && RightAfter(Over(h), Said(h.server, m))
    requires Transcribes(h, Over(h)) && Leads(h, next) && !NeedsHello(next) && !ChangesKeys(h.stage)
    ensures Moves(h, h1, [Said(h.server, m)]) && Lines([Said(h.server, m)]) == [Line(h.server, m.kind)]
  {
    hide Next, RightBehind, Messages, Lines, RightAfter, Built, Moves, Over, Transcribes, Kept;
    BuildsNothing(h);
    BuildsMessage(h, h, [], m);
    SaysOne(Over(h), Said(h.server, m));
    assert [] + [Said(h.server, m)] == [Said(h.server, m)];
    Sends(h, Put(h, m), h1, next, [Said(h.server, m)]);
  }

  lemma RightOn(before: seq<Message>, said: seq<Said>, s: Said)
    requires RightBehind(before, said) && RightAfter(before + Messages(said), s)
    ensures RightBehind(before, said + [s])
  {
    assert (said + [s])[..|said|] == said;
    assert forall k | 0 <= k < |said| :: (said + [s])[..k] == said[..k];
  }

  lemma RightIf(b: bool, before: seq<Message>, said: seq<Said>, s: Said)
    requires RightBehind(before, said) && (b ==> RightAfter(before + Messages(said), s))
    ensures RightBehind(before, said + if b then [s] else [])
  {
    if b { RightOn(before, said, s); } else { assert said + [] == said; }
  }
}
