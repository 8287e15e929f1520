/** One handshake machine against any peer: it is done only after a whole handshake, whose Finished messages, signatures
    and certificate it has checked. */
module TlsIntegrity {
  import opened Prelude
  import opened TlsHandshake
  import opened TlsAlone
  import opened TlsHistory
  import opened TlsTraces
  import R = TlsRetry

  // ---- Every turn ----

  lemma Unfolds(h: Hs, server: bool, hasCert: bool, log: seq<Said>, status: bool, keys: bool)
    requires Traced(h, server, hasCert, log, status, keys) && !h.wait.Error?
    ensures Transcribes(h, Over(h)) && Over(h) == Messages(log) && InPlace(h) && Optional(h, status, keys)
  {
    hide UpTo, Lines, Messages, AllRight, Keyed, Reached;
  }

  lemma ClientTraced(h: Hs, h1: Hs, server: bool, hasCert: bool, log: seq<Said>, status: bool, keys: bool,
                     answer: Answer, n: nat)
    returns (status1: bool, keys1: bool)
    requires h.wait.Ok? && !h.server && !h.stage.Done? && Traced(h, server, hasCert, log, status, keys)
             && ClientKeeps(h, hasCert)
    requires h1 == ClientDo(h, hasCert, answer, n)
    ensures Traced(h1, server, hasCert, log + Exchanged(h, h1), status1, keys1)
  {
    hide Traced, Transcribes, Over, Optional, Exchanged, Messages, Reached,
         DoStartConnect, DoReadServerHello, DoReadServerCertificate, DoReadCertificateStatus, DoVerifyServerCertificate,
         DoReadServerKeyExchange, DoReadCertificateRequest, DoSendClientCertificate, DoSendClientKeyExchange,
         DoSendClientCertificateVerify, DoSendClientFinished, DoFinishFlight, DoReadSessionTicket, ReadOne,
         GetFinished, ChangeRead;
    Unfolds(h, server, hasCert, log, status, keys);
    status1, keys1 := status, keys;
    match h.stage {
      case StartConnect => StartConnectTraced(h, h1, server, hasCert, log, status, keys, answer, n);
      case EnterEarlyData => EnterEarlyDataTraced(h, h1, server, hasCert, log, status, keys);
      case ReadServerHello => ReadServerHelloTraced(h, h1, server, hasCert, log, status, keys, answer);
      case ReadServerCertificate => ReadServerCertificateTraced(h, h1, server, hasCert, log, status, keys, answer);
      case ReadCertificateStatus => status1 := ReadCertificateStatusTraced(h, h1, server, hasCert, log, status, keys, answer);
      case VerifyServerCertificate => VerifyServerCertificateTraced(h, h1, server, hasCert, log, status, keys, answer);
      case ReadServerKeyExchange => keys1 := ReadServerKeyExchangeTraced(h, h1, server, hasCert, log, status, keys, answer);
      case ReadCertificateRequest => ReadCertificateRequestTraced(h, h1, server, hasCert, log, status, keys, answer);
      case ReadServerHelloDone => ReadServerHelloDoneTraced(h, h1, server, hasCert, log, status, keys, answer);
      case SendClientCertificate => SendClientCertificateTraced(h, h1, server, hasCert, log, status, keys, answer, n);
      case SendClientKeyExchange => SendClientKeyExchangeTraced(h, h1, server, hasCert, log, status, keys, answer, n);
      case SendClientCertificateVerify => SendClientCertificateVerifyTraced(h, h1, server, hasCert, log, status, keys, answer);
      case SendClientFinished => SendClientFinishedTraced(h, h1, server, hasCert, log, status, keys, answer, n);
      case FinishFlight => FinishFlightTraced(h, h1, server, hasCert, log, status, keys);
      case ReadSessionTicket => ReadSessionTicketTraced(h, h1, server, hasCert, log, status, keys, answer);
      case ProcessServerChangeCipherSpec => ProcessServerChangeCipherSpecTraced(h, h1, server, hasCert, log, status, keys);
      case ReadServerFinished => ReadServerFinishedTraced(h, h1, server, hasCert, log, status, keys);
      case FinishClientHandshake => FinishClientHandshakeTraced(h, h1, server, hasCert, log, status, keys);
    }
  }

  lemma ServerTraced(h: Hs, h1: Hs, plan: Plan, server: bool, hasCert: bool, log: seq<Said>, status: bool,
                     keys: bool, answer: Answer, n: nat)
    returns (status1: bool, keys1: bool)
    requires h.wait.Ok? && h.server && !h.stage.Done? && Traced(h, server, hasCert, log, status, keys)
    requires h1 == ServerDo(h, plan, answer, n)
    ensures Traced(h1, server, hasCert, log + Exchanged(h, h1), status1, keys1)
  {
    hide Traced, Transcribes, Over, Optional, Exchanged, Messages, Reached,
         DoReadClientHello, DoSelectCertificate, DoSelectParameters, DoSendServerHello, DoSendServerCertificate,
         DoSendServerKeyExchange, DoSendServerHelloDone, DoReadClientCertificate, DoVerifyClientCertificate,
         DoReadClientKeyExchange, DoReadClientCertificateVerify, DoReadNextProto, DoReadChannelId, DoSendServerFinished,
         GetFinished, ChangeRead, ReadOne;
    Unfolds(h, server, hasCert, log, status, keys);
    status1, keys1 := status, keys;
    match h.stage {
      case StartAccept => StartAcceptTraced(h, h1, server, hasCert, log, status, keys);
      case ReadClientHello => ReadClientHelloTraced(h, h1, server, hasCert, log, status, keys, answer);
      case SelectCertificate => SelectCertificateTraced(h, h1, server, hasCert, log, status, keys, answer);
      case SelectParameters => SelectParametersTraced(h, h1, server, hasCert, log, status, keys, answer, plan);
      case SendServerHello => SendServerHelloTraced(h, h1, server, hasCert, log, status, keys, answer, plan);
      case SendServerCertificate => status1 := SendServerCertificateTraced(h, h1, server, hasCert, log, status, keys, answer, n, plan);
      case SendServerKeyExchange => keys1 := SendServerKeyExchangeTraced(h, h1, server, hasCert, log, status, keys, answer, n);
      case SendServerHelloDone => SendServerHelloDoneTraced(h, h1, server, hasCert, log, status, keys, answer, n);
      case ReadClientCertificate => ReadClientCertificateTraced(h, h1, server, hasCert, log, status, keys, answer);
      case VerifyClientCertificate => VerifyClientCertificateTraced(h, h1, server, hasCert, log, status, keys, answer);
      case ReadClientKeyExchange => ReadClientKeyExchangeTraced(h, h1, server, hasCert, log, status, keys, answer);
      case ReadClientCertificateVerify => ReadClientCertificateVerifyTraced(h, h1, server, hasCert, log, status, keys, answer);
      case ReadChangeCipherSpec => ReadChangeCipherSpecTraced(h, h1, server, hasCert, log, status, keys);
      case ProcessClientChangeCipherSpec => ProcessClientChangeCipherSpecTraced(h, h1, server, hasCert, log, status, keys);
      case ReadNextProto => ReadNextProtoTraced(h, h1, server, hasCert, log, status, keys, answer);
      case ReadChannelId => ReadChannelIdTraced(h, h1, server, hasCert, log, status, keys, answer);
      case ReadClientFinished => ReadClientFinishedTraced(h, h1, server, hasCert, log, status, keys);
      case SendServerFinished => SendServerFinishedTraced(h, h1, server, hasCert, log, status, keys, answer, n);
      case FinishServerHandshake => FinishServerHandshakeTraced(h, h1, server, hasCert, log, status, keys);
    }
  }

  /** Flushes, records and more messages change nothing of what was said. */
  lemma OthersTraced(h: Hs, h1: Hs, server: bool, hasCert: bool, log: seq<Said>, status: bool, keys: bool)
    requires Traced(h, server, hasCert, log, status, keys) && h.inbox <= h1.inbox && (h.wait.Error? ==> h1.wait.Error?)
    requires h1 == h.(inbox := h1.inbox, flight := h1.flight, wait := h1.wait)
    ensures Traced(h1, server, hasCert, log, status, keys)
  {
    hide UpTo, Lines, Messages, AllRight, Reached, R.IsClient, R.IsServer;
  }

  lemma StepTraced(h: Hs, h1: Hs, server: bool, hasCert: bool, plan: Plan, log: seq<Said>, status: bool, keys: bool,
                   answer: Answer, n: nat)
    returns (status1: bool, keys1: bool)
    requires h.wait.Ok? && !h.stage.Done? && Traced(h, server, hasCert, log, status, keys) && Keeps(h, hasCert)
    requires plan.hasCert == hasCert && h1 == Do(plan, h, answer, n)
    ensures Traced(h1, server, hasCert, log + Exchanged(h, h1), status1, keys1)
  {
    hide Traced, ClientDo, ServerDo, ClientKeeps, ServerKeeps;
    if h.server {
      status1, keys1 := ServerTraced(h, h1, plan, server, hasCert, log, status, keys, answer, n);
    } else {
      status1, keys1 := ClientTraced(h, h1, server, hasCert, log, status, keys, answer, n);
    }
  }

  lemma OpenedStays(h: Hs, item: Item)
    ensures var h1 := Opened(h, item); h1 == h.(inbox := h1.inbox, wait := h1.wait) && h.inbox <= h1.inbox
  {}

  lemma OthersStay(h: Hs, hasCert: bool, t: Turn)
    requires !t.Acts? || !t.action.Run?
    ensures var h1 := Faces(h, hasCert, t);
            && h1 == h.(inbox := h1.inbox, flight := h1.flight, wait := h1.wait) && h.inbox <= h1.inbox
            && (h.wait.Error? ==> h1.wait.Error?)
  {
    hide Do, Opened;
    if t.Acts? && t.action.Receive? {
      OpenedStays(h, t.item);
    }
  }

  lemma TurnTraced(h: Hs, server: bool, hasCert: bool, t: Turn, log: seq<Said>, status: bool,
                   keys: bool) returns (status1: bool, keys1: bool)
    requires Traced(h, server, hasCert, log, status, keys) && Keeps(h, hasCert)
    ensures Traced(Faces(h, hasCert, t), server, hasCert, log + SaidIn(h, hasCert, t), status1, keys1)
  {
    hide Traced, Keeps, Do, Exchanged;
    var h1 := Faces(h, hasCert, t);
    status1, keys1 := status, keys;
    assert log + [] == log;
    if t.Acts? && Enabled(h, [t.item], t.action) && t.action.Run? {
      status1, keys1 := StepTraced(h, h1, server, hasCert, t.plan.(hasCert := hasCert), log, status, keys, t.action.answer, t.action.n);
      if h1.wait.Error? { FailedTraced(h1, server, hasCert, log, status1, keys1); }
    } else if t.Acts? && !Enabled(h, [t.item], t.action) {
    } else {
      OthersStay(h, hasCert, t);
      OthersTraced(h, h1, server, hasCert, log, status, keys);
    }
  }

  lemma FailedTraced(h: Hs, server: bool, hasCert: bool, log: seq<Said>, status: bool, keys: bool)
    requires h.wait.Error?
    ensures Traced(h, server, hasCert, log, status, keys)
  {}

  lemma StartTraced(server: bool, hasCert: bool)
    ensures Traced(Start(server), server, hasCert, [], false, false)
  {
    hide Part;
  }

  /** Whatever the peer sends and callbacks answer: as long as a machine has not failed, what it said and heard is the
      beginning of one handshake. */
  lemma {:induction false} RunIsTraced(server: bool, hasCert: bool, turns: seq<Turn>) returns (status: bool, keys: bool)
    ensures Traced(After(server, hasCert, turns), server, hasCert, History(server, hasCert, turns), status, keys)
  {
    hide Traced, Keeps, Faces, SaidIn;
    if turns == [] {
      StartTraced(server, hasCert);
      status, keys := false, false;
    } else {
      var before := turns[..|turns| - 1];
      status, keys := RunIsTraced(server, hasCert, before);
      BufferOutlivesItsUse(server, hasCert, before);
      status, keys := TurnTraced(After(server, hasCert, before), server, hasCert, turns[|turns| - 1],
                                 History(server, hasCert, before), status, keys);
    }
  }

  // ---- Failure is for good ----

  lemma {:induction false} ErrorStays(server: bool, hasCert: bool, turns: seq<Turn>, more: seq<Turn>)
    requires After(server, hasCert, turns).wait.Error?
    ensures After(server, hasCert, turns + more).wait == After(server, hasCert, turns).wait
    ensures After(server, hasCert, turns + more).stage == After(server, hasCert, turns).stage
    decreases |more|
  {
    hide Acted;
    if more == [] {
      assert turns + more == turns;
    } else {
      ErrorStays(server, hasCert, turns, more[..|more| - 1]);
      assert (turns + more)[..|turns + more| - 1] == turns + more[..|more| - 1];
    }
  }

  /** One more turn that runs the machine. */
  lemma RunOnce(server: bool, hasCert: bool, turns: seq<Turn>, plan: Plan, answer: Answer, n: nat, item: Item)
    requires After(server, hasCert, turns).wait.Ok? && !After(server, hasCert, turns).stage.Done?
    ensures var h, h1 := After(server, hasCert, turns), After(server, hasCert, turns + [Acts(plan, Run(answer, n), item)]);
            && h1 == Do(plan.(hasCert := hasCert), h, answer, n)
            && History(server, hasCert, turns + [Acts(plan, Run(answer, n), item)])
               == History(server, hasCert, turns) + if h1.wait.Error? then [] else Exchanged(h, h1)
  {
    hide Do, Exchanged;
    var t := Acts(plan, Run(answer, n), item);
    assert (turns + [t])[..|turns + [t]| - 1] == turns;
  }

  predicate EndsIn(server: bool, hasCert: bool, turns: seq<Turn>, why: Reason) {
    After(server, hasCert, turns).wait == Error(why) && !After(server, hasCert, turns).stage.Done?
  }

  // ---- What is read is checked ----

  /** What a machine has hashed is what it said and heard, and its states are those of its side. */
  lemma HashIsHistory(server: bool, hasCert: bool, turns: seq<Turn>)
    requires !After(server, hasCert, turns).wait.Error? && !Unsettled(After(server, hasCert, turns).stage)
    ensures var h, ms := After(server, hasCert, turns), Messages(History(server, hasCert, turns));
            && h.server == server && InPlace(h) && h.transcript.HashOf() == ms
            && (h.transcript.buffer.Some? ==> h.transcript.buffer.value == ms)
            && (h.transcript.buffer.None? ==> !(h.stage.ReadClientCertificateVerify? && h.peerKey))
  {
    hide UpTo, Lines, Messages, AllRight, Keyed, Optional, InPlace, After, History, FactsOf, Reached;
    var status, keys := RunIsTraced(server, hasCert, turns);
    BufferOutlivesItsUse(server, hasCert, turns);
    BufferIsThere(After(server, hasCert, turns), hasCert);
  }

  lemma BufferIsThere(h: Hs, hasCert: bool)
    requires Keeps(h, hasCert) && InPlace(h) && !h.wait.Error?
    ensures h.transcript.buffer.None? ==> !(h.stage.ReadClientCertificateVerify? && h.peerKey)
  {
    hide ClientKeeps, Reached;
  }

  /** A machine goes on from its read-Finished state exactly if the message there is a Finished with the MAC over all
      messages it sent and took before, in order. Anything else ends the handshake. */
  lemma FinishedIsExact(server: bool, hasCert: bool, turns: seq<Turn>, plan: Plan, answer: Answer, n: nat, item: Item,
                        more: seq<Turn>)
    requires var h := After(server, hasCert, turns);
             h.wait.Ok? && (h.stage.ReadServerFinished? || h.stage.ReadClientFinished?) && h.inbox != []
    ensures var h, next := After(server, hasCert, turns), turns + [Acts(plan, Run(answer, n), item)];
            var h1, log := After(server, hasCert, next), History(server, hasCert, turns);
            if h.inbox[0] == Message(Finished, Mac(!server, Messages(log))) then
              && h1.wait.Ok? && History(server, hasCert, next) == log + [Said(!server, h.inbox[0])]
              && h1.stage == (if server then if h.neg.resumed then FinishServerHandshake else SendServerFinished
                              else if h.neg.resumed then SendClientFinished else FinishClientHandshake)
            else
              EndsIn(server, hasCert, next + more, if h.inbox[0].kind == Finished then BadDigest else Unexpected)
  {
    hide After, History, Messages, ClientDo, ServerDo;
    var h, t := After(server, hasCert, turns), Acts(plan, Run(answer, n), item);
    HashIsHistory(server, hasCert, turns);
    RunOnce(server, hasCert, turns, plan, answer, n, item);
    var h1 := After(server, hasCert, turns + [t]);
    FinishedStep(h, plan.(hasCert := hasCert), answer, n);
    if h1.wait.Error? { ErrorStays(server, hasCert, turns + [t], more); }
  }

  lemma FinishedStep(h: Hs, plan: Plan, answer: Answer, n: nat)
    requires h.wait.Ok? && (h.stage.ReadServerFinished? || h.stage.ReadClientFinished?) && h.inbox != [] && InPlace(h)
    ensures var h1 := Do(plan, h, answer, n);
            if h.inbox[0] == Message(Finished, Mac(!h.server, h.transcript.HashOf())) then
              && h1.wait.Ok? && Exchanged(h, h1) == [Said(!h.server, h.inbox[0])]
              && h1.stage == (if h.server then if h.neg.resumed then FinishServerHandshake else SendServerFinished
                              else if h.neg.resumed then SendClientFinished else FinishClientHandshake)
            else
              h1.stage == h.stage && h1.wait == Error(if h.inbox[0].kind == Finished then BadDigest else Unexpected)
  {}

  /** A server that has the client's key goes on from its CertificateVerify state exactly if the message there is a
      signature over all messages before, and nothing else refused it. */
  lemma CertificateVerifyIsExact(server: bool, hasCert: bool, turns: seq<Turn>, plan: Plan, answer: Answer, n: nat,
                                 item: Item,
                                 more: seq<Turn>)
    requires var h := After(server, hasCert, turns);
             h.wait.Ok? && h.stage.ReadClientCertificateVerify? && h.peerKey && h.inbox != []
    ensures var h, next := After(server, hasCert, turns), turns + [Acts(plan, Run(answer, n), item)];
            var h1, log := After(server, hasCert, next), History(server, hasCert, turns);
            if h.inbox[0].kind != CertificateVerify then EndsIn(server, hasCert, next + more, Unexpected)
            else if answer.Refuse? then EndsIn(server, hasCert, next + more, Refused)
            else if h.inbox[0].body != Signature(Messages(log)) then EndsIn(server, hasCert, next + more, BadSignature)
            else h1.wait.Ok? && h1.stage.ReadChangeCipherSpec? && History(server, hasCert,
            next) == log + [Said(!server, h.inbox[0])]
  {
    hide After, History, Messages, ClientDo, ServerDo;
    var h, t := After(server, hasCert, turns), Acts(plan, Run(answer, n), item);
    HashIsHistory(server, hasCert, turns);
    RunOnce(server, hasCert, turns, plan, answer, n, item);
    var h1 := After(server, hasCert, turns + [t]);
    CertificateVerifyStep(h, plan.(hasCert := hasCert), answer, n);
    if h1.wait.Error? { ErrorStays(server, hasCert, turns + [t], more); }
  }

  lemma CertificateVerifyStep(h: Hs, plan: Plan, answer: Answer, n: nat)
    requires h.wait.Ok? && h.stage.ReadClientCertificateVerify? && h.peerKey && h.inbox != [] && InPlace(h)
    requires h.transcript.buffer == Some(h.transcript.HashOf())
    ensures var h1 := Do(plan, h, answer, n);
            if h.inbox[0].kind != CertificateVerify then h1.stage == h.stage && h1.wait == Error(Unexpected)
            else if answer.Refuse? then h1.stage == h.stage && h1.wait == Error(Refused)
            else if h.inbox[0].body != Signature(h.transcript.HashOf()) then h1.stage == h.stage && h1.wait == Error(BadSignature)
            else h1.wait.Ok? && h1.stage.ReadChangeCipherSpec? && Exchanged(h, h1) == [Said(!h.server, h.inbox[0])]
  {}

  /** The same of Channel ID, whose signature is over the running hash. */
  lemma ChannelIdIsExact(server: bool, hasCert: bool, turns: seq<Turn>, plan: Plan, answer: Answer, n: nat, item: Item,
                         more: seq<Turn>)
    requires var h := After(server, hasCert, turns);
             h.wait.Ok? && h.stage.ReadChannelId? && h.neg.channelId && h.inbox != []
    ensures var h, next := After(server, hasCert, turns), turns + [Acts(plan, Run(answer, n), item)];
            var h1, log := After(server, hasCert, next), History(server, hasCert, turns);
            if h.inbox[0].kind != ChannelId then EndsIn(server, hasCert, next + more, Unexpected)
            else if answer.Refuse? then EndsIn(server, hasCert, next + more, Refused)
            else if h.inbox[0].body != Signature(Messages(log)) then EndsIn(server, hasCert, next + more, BadSignature)
            else h1.wait.Ok? && h1.stage.ReadClientFinished? && History(server, hasCert,
            next) == log + [Said(!server, h.inbox[0])]
  {
    hide After, History, Messages, ClientDo, ServerDo;
    var h, t := After(server, hasCert, turns), Acts(plan, Run(answer, n), item);
    HashIsHistory(server, hasCert, turns);
    RunOnce(server, hasCert, turns, plan, answer, n, item);
    var h1 := After(server, hasCert, turns + [t]);
    ChannelIdStep(h, plan.(hasCert := hasCert), answer, n);
    if h1.wait.Error? { ErrorStays(server, hasCert, turns + [t], more); }
  }

  lemma ChannelIdStep(h: Hs, plan: Plan, answer: Answer, n: nat)
    requires h.wait.Ok? && h.stage.ReadChannelId? && h.neg.channelId && h.inbox != [] && InPlace(h)
    ensures var h1 := Do(plan, h, answer, n);
            if h.inbox[0].kind != ChannelId then h1.stage == h.stage && h1.wait == Error(Unexpected)
            else if answer.Refuse? then h1.stage == h.stage && h1.wait == Error(Refused)
            else if h.inbox[0].body != Signature(h.transcript.HashOf()) then h1.stage == h.stage && h1.wait == Error(BadSignature)
            else h1.wait.Ok? && h1.stage.ReadClientFinished? && Exchanged(h, h1) == [Said(!h.server, h.inbox[0])]
  {}

  // ---- Records ----

  /** A record has to be under the keys of the moment, and of the type that is waited for: anything else ends the
      handshake. */
  lemma RecordsAreChecked(server: bool, hasCert: bool, turns: seq<Turn>, plan: Plan, item: Item, more: seq<Turn>)
    requires var w := After(server, hasCert, turns).wait; w.NeedMessage? || w.NeedServerHello? || w.NeedCcs?
    requires !After(server, hasCert, turns).stage.Done?
    ensures var h, next := After(server, hasCert, turns), turns + [Acts(plan, Receive, item)];
            var h1 := After(server, hasCert, next);
            if item.epoch != h.readEpoch then EndsIn(server, hasCert, next + more, BadRecord)
            else if item.content.Ccs? != h.wait.NeedCcs? then EndsIn(server, hasCert, next + more, Unexpected)
            else h1 == h.(wait := Ok, inbox := h.inbox + if item.content.Ccs? then [] else [item.content.msg])
  {
    hide After;
    var h, t := After(server, hasCert, turns), Acts(plan, Receive, item);
    LastTurn(server, hasCert, turns, t);
    if After(server, hasCert, turns + [t]).wait.Error? { ErrorStays(server, hasCert, turns + [t], more); }
  }

  lemma LastTurn(server: bool, hasCert: bool, turns: seq<Turn>, t: Turn)
    ensures After(server, hasCert, turns + [t]) == Faces(After(server, hasCert, turns), hasCert, t)
  {
    assert (turns + [t])[..|turns + [t]| - 1] == turns;
  }

  /** The read keys change exactly if no message is left that came under the old ones; one that is ends the
      handshake. */
  lemma KeyChangeIsExact(server: bool, hasCert: bool, turns: seq<Turn>, plan: Plan, answer: Answer, n: nat, item: Item,
                         more: seq<Turn>)
    requires var h := After(server, hasCert, turns);
             h.wait.Ok? && (h.stage.ProcessServerChangeCipherSpec? || h.stage.ProcessClientChangeCipherSpec?)
    ensures var h, next := After(server, hasCert, turns), turns + [Acts(plan, Run(answer, n), item)];
            if h.inbox != [] then EndsIn(server, hasCert, next + more, ExcessData)
            else After(server, hasCert, next)
                 == h.(readEpoch := 1, stage := if server then ReadNextProto else ReadServerFinished) && h.readEpoch == 0
  {
    hide After, History, Messages, ClientDo, ServerDo;
    var h, t := After(server, hasCert, turns), Acts(plan, Run(answer, n), item);
    HashIsHistory(server, hasCert, turns);
    RunOnce(server, hasCert, turns, plan, answer, n, item);
    OldKeysYet(server, hasCert, turns);
    KeyChangeStep(h, plan.(hasCert := hasCert), answer, n);
    if After(server, hasCert, turns + [t]).wait.Error? { ErrorStays(server, hasCert, turns + [t], more); }
  }

  lemma OldKeysYet(server: bool, hasCert: bool, turns: seq<Turn>)
    requires var h := After(server, hasCert, turns);
             !h.wait.Error? && (h.stage.ProcessServerChangeCipherSpec? || h.stage.ProcessClientChangeCipherSpec?)
    ensures After(server, hasCert, turns).readEpoch == 0
  {
    hide After, History, UpTo, Lines, Messages, AllRight, Optional, FactsOf;
    var status, keys := RunIsTraced(server, hasCert, turns);
  }

  lemma KeyChangeStep(h: Hs, plan: Plan, answer: Answer, n: nat)
    requires h.wait.Ok? && (h.stage.ProcessServerChangeCipherSpec? || h.stage.ProcessClientChangeCipherSpec?) && InPlace(h)
    ensures var h1 := Do(plan, h, answer, n);
            if h.inbox != [] then h1.stage == h.stage && h1.wait == Error(ExcessData)
            else h1 == h.(readEpoch := h.readEpoch + 1, stage := if h.server then ReadNextProto else ReadServerFinished)
  {}

  // ---- Certificates are accepted by the callback ----

  predicate AsksForCertificate(h: Hs) {
    (h.stage.VerifyServerCertificate? && h.neg.certAuth) || (h.stage.VerifyClientCertificate? && h.peerKey)
  }

  /** Only what the callback accepts goes on; it may be asked again, and a refusal ends the handshake. */
  lemma CertificateIsChecked(server: bool, hasCert: bool, turns: seq<Turn>, plan: Plan, answer: Answer, n: nat, item: Item,
                             more: seq<Turn>)
    requires After(server, hasCert, turns).wait.Ok? && AsksForCertificate(After(server, hasCert, turns))
    ensures var h, next := After(server, hasCert, turns), turns + [Acts(plan, Run(answer, n), item)];
            var h1 := After(server, hasCert, next);
            match answer
            case Go => h1 == h.(stage := if server then ReadClientKeyExchange else ReadServerKeyExchange)
            case Retry => h1 == h.(wait := Pending(PeerCertificate))
            case Refuse(_) => EndsIn(server, hasCert, next + more, Refused)
  {
    hide After, History, Messages, ClientDo, ServerDo;
    var h, t := After(server, hasCert, turns), Acts(plan, Run(answer, n), item);
    HashIsHistory(server, hasCert, turns);
    RunOnce(server, hasCert, turns, plan, answer, n, item);
    var h1 := After(server, hasCert, turns + [t]);
    CertificateStep(h, plan.(hasCert := hasCert), answer, n);
    if h1.wait.Error? { ErrorStays(server, hasCert, turns + [t], more); }
  }

  lemma CertificateStep(h: Hs, plan: Plan, answer: Answer, n: nat)
    requires h.wait.Ok? && AsksForCertificate(h) && InPlace(h)
    ensures var h1 := Do(plan, h, answer, n);
            match answer
            case Go => h1 == h.(stage := if h.server then ReadClientKeyExchange else ReadServerKeyExchange)
            case Retry => h1 == h.(wait := Pending(PeerCertificate))
            case Refuse(_) => h1.stage == h.stage && h1.wait == Error(Refused)
  {}

  /** The turns in which the callback accepts a certificate. */
  predicate Accepts(h: Hs, t: Turn) {
    h.wait.Ok? && AsksForCertificate(h) && t.Acts? && t.action.Run? && t.action.answer.Go?
  }

  /** The states behind the check of a certificate, in a handshake that has one. */
  predicate PastCheck(h: Hs) {
    if h.server then
      && h.peerKey && !Unsettled(h.stage) && !h.stage.SendServerHello? && !h.stage.SendServerCertificate?
      && !h.stage.SendServerKeyExchange? && !h.stage.SendServerHelloDone? && !h.stage.ReadClientCertificate?
      && !h.stage.VerifyClientCertificate?
    else
      && h.neg.certAuth && !h.neg.resumed && !Unsettled(h.stage) && !h.stage.ReadServerCertificate?
      && !h.stage.ReadCertificateStatus? && !h.stage.VerifyServerCertificate?
  }

  /** A step gets behind the check only by an answer that accepts. */
  predicate Gates(h: Hs, h1: Hs, answer: Answer) {
    h1.wait.Error? || !PastCheck(h1) || PastCheck(h) || (AsksForCertificate(h) && answer.Go?)
  }

  /** The states that need no answer: nothing is parsed, built or asked for in them. */
  predicate AsksNothing(h: Hs, hasCert: bool) {
    || h.stage.EnterEarlyData? || h.stage.FinishFlight? || h.stage.ProcessServerChangeCipherSpec?
    || h.stage.ReadServerFinished? || h.stage.FinishClientHandshake? || h.stage.StartAccept? || h.stage.ReadChangeCipherSpec?
    || h.stage.ProcessClientChangeCipherSpec? || h.stage.ReadClientFinished? || h.stage.FinishServerHandshake?
    || h.stage.Done?
    || (!h.neg.certAuth
        && (h.stage.ReadServerCertificate? || h.stage.VerifyServerCertificate? || h.stage.ReadCertificateRequest?))
    || (!h.certRequest && (h.stage.SendClientCertificate? || h.stage.ReadClientCertificate?))
    || (!(h.certRequest && hasCert) && h.stage.SendClientCertificateVerify?)
    || (!h.peerKey && (h.stage.VerifyClientCertificate? || h.stage.ReadClientCertificateVerify?))
    || (!h.neg.status && h.stage.ReadCertificateStatus?) || (!h.neg.ticket && h.stage.ReadSessionTicket?)
    || (!h.neg.nextProto && h.stage.ReadNextProto?) || (!h.neg.channelId && h.stage.ReadChannelId?)
    || (!h.serverParams && h.stage.SendServerKeyExchange?)
    || (h.inbox != [] && h.inbox[0].kind != CertificateStatus && h.stage.ReadCertificateStatus?)
    || (h.inbox != [] && h.inbox[0].kind != ServerKeyExchange && h.stage.ReadServerKeyExchange?)
    || (h.inbox != [] && h.inbox[0].kind == ServerHelloDone && h.stage.ReadCertificateRequest?)
  }

  /** What a state asks that may have to be asked again later. */
  function Asks(h: Hs, hasCert: bool): Option<Callback> {
    if h.stage.ReadClientHello? then Some(CertificateSelection)
    else if h.stage.SelectCertificate? then Some(X509Lookup)
    else if h.stage.SelectParameters? then Some(Session)
    else if AsksForCertificate(h) then Some(PeerCertificate)
    else if h.stage.SendClientCertificate? && h.certRequest then Some(X509Lookup)
    else if h.stage.SendClientCertificateVerify? && h.certRequest && hasCert then Some(PrivateKey)
    else if h.stage.SendClientFinished? && h.neg.channelId then Some(ChannelIdLookup)
    else if h.stage.SendServerKeyExchange? && h.serverParams && h.neg.certAuth then Some(PrivateKey)
    else if h.stage.ReadClientKeyExchange? && h.neg.certAuth && !h.neg.ecdhe then Some(PrivateKey)
    else None
  }

  /** A step without its answer: it failed, or waits with nothing changed. */
  predicate Heeds(h: Hs, h1: Hs, hasCert: bool, answer: Answer) {
    && (answer.Refuse? && !AsksNothing(h, hasCert) ==> h1.wait.Error? || h1 == Await(h, NeedMessage) || h1 == Await(h, NeedServerHello))
    && (answer.Retry? && Asks(h, hasCert).Some? ==>
          h1.wait.Error? || h1 == Await(h, NeedMessage) || h1 == Await(h, Pending(Asks(h, hasCert).value)))
  }

  lemma StaysGates(h: Hs, hasCert: bool, answer: Answer)
    requires h.stage.Done? || h.stage.FinishServerHandshake?
    ensures Gates(h, h, answer) && Gates(h, Enter(h, Done), answer)
    ensures Heeds(h, h, hasCert, answer) && Heeds(h, Enter(h, Done), hasCert, answer)
  {}

  lemma HelloGate(h: Hs, hasCert: bool, answer: Answer, n: nat)
    requires !h.server && (h.stage.StartConnect? || h.stage.EnterEarlyData? || h.stage.ReadServerHello?)
    ensures Gates(h, ClientDo(h, hasCert, answer, n), answer) && Heeds(h, ClientDo(h, hasCert, answer, n), hasCert, answer)
  {
    hide DoReadServerCertificate, DoReadCertificateStatus, DoVerifyServerCertificate, DoReadServerKeyExchange,
         DoReadCertificateRequest, DoSendClientCertificate, DoSendClientKeyExchange,
         DoSendClientCertificateVerify, DoSendClientFinished, DoReadSessionTicket, ReadOne, GetFinished,
         ChangeRead;
  }

  lemma ServerCertificateGate(h: Hs, hasCert: bool, answer: Answer, n: nat)
    requires !h.server
             && (h.stage.ReadServerCertificate? || h.stage.ReadCertificateStatus? || h.stage.VerifyServerCertificate?)
    ensures Gates(h, ClientDo(h, hasCert, answer, n), answer) && Heeds(h, ClientDo(h, hasCert, answer, n), hasCert, answer)
  {
    hide DoStartConnect, DoReadServerHello, DoReadServerKeyExchange, DoReadCertificateRequest,
         DoSendClientCertificate, DoSendClientKeyExchange, DoSendClientCertificateVerify, DoSendClientFinished,
         DoReadSessionTicket, GetFinished, ChangeRead;
  }

  lemma ServerKeysGate(h: Hs, hasCert: bool, answer: Answer, n: nat)
    requires !h.server && (h.stage.ReadServerKeyExchange? || h.stage.ReadCertificateRequest?)
    ensures Gates(h, ClientDo(h, hasCert, answer, n), answer) && Heeds(h, ClientDo(h, hasCert, answer, n), hasCert, answer)
  {
    hide DoStartConnect, DoReadServerHello, DoReadServerCertificate, DoReadCertificateStatus,
         DoVerifyServerCertificate, DoSendClientCertificate, DoSendClientKeyExchange,
         DoSendClientCertificateVerify, DoSendClientFinished, DoReadSessionTicket, ReadOne, GetFinished,
         ChangeRead;
  }

  lemma ClientKeysGate(h: Hs, hasCert: bool, answer: Answer, n: nat)
    requires !h.server && (h.stage.ReadServerHelloDone? || h.stage.SendClientCertificate? || h.stage.SendClientKeyExchange?
             || h.stage.SendClientCertificateVerify?)
    ensures Gates(h, ClientDo(h, hasCert, answer, n), answer) && Heeds(h, ClientDo(h, hasCert, answer, n), hasCert, answer)
  {
    hide DoStartConnect, DoReadServerHello, DoReadServerCertificate, DoReadCertificateStatus,
         DoVerifyServerCertificate, DoReadServerKeyExchange, DoReadCertificateRequest, DoSendClientFinished,
         DoReadSessionTicket, GetFinished, ChangeRead;
  }

  lemma ClientLastGate(h: Hs, hasCert: bool, answer: Answer, n: nat)
    requires !h.server && (h.stage.SendClientFinished? || h.stage.FinishFlight? || h.stage.FinishClientHandshake?
             || h.stage.ProcessServerChangeCipherSpec?)
    ensures Gates(h, ClientDo(h, hasCert, answer, n), answer) && Heeds(h, ClientDo(h, hasCert, answer, n), hasCert, answer)
  {
    hide DoStartConnect, DoReadServerHello, DoReadServerCertificate, DoReadCertificateStatus,
         DoVerifyServerCertificate, DoReadServerKeyExchange, DoReadCertificateRequest, DoSendClientCertificate,
         DoSendClientKeyExchange, DoSendClientCertificateVerify, DoReadSessionTicket, ReadOne, GetFinished;
  }

  lemma ServerLastGate(h: Hs, hasCert: bool, answer: Answer, n: nat)
    requires !h.server && h.stage.ReadSessionTicket?
    ensures Gates(h, ClientDo(h, hasCert, answer, n), answer) && Heeds(h, ClientDo(h, hasCert, answer, n), hasCert, answer)
  {
    hide GetFinished, DoStartConnect, DoReadServerHello, DoReadServerCertificate, DoReadCertificateStatus,
         DoVerifyServerCertificate, DoReadServerKeyExchange, DoReadCertificateRequest, DoSendClientCertificate,
         DoSendClientKeyExchange, DoSendClientCertificateVerify, DoSendClientFinished, ChangeRead;
  }

  lemma ServerFinishedGate(h: Hs, hasCert: bool, answer: Answer, n: nat)
    requires !h.server && h.stage.ReadServerFinished?
    ensures Gates(h, ClientDo(h, hasCert, answer, n), answer) && Heeds(h, ClientDo(h, hasCert, answer, n), hasCert, answer)
  {
    hide DoReadSessionTicket, DoStartConnect, DoReadServerHello, DoReadServerCertificate, DoReadCertificateStatus,
         DoVerifyServerCertificate, DoReadServerKeyExchange, DoReadCertificateRequest, DoSendClientCertificate,
         DoSendClientKeyExchange, DoSendClientCertificateVerify, DoSendClientFinished, ChangeRead;
  }

  lemma AcceptGate(h: Hs, plan: Plan, answer: Answer, n: nat)
    requires h.server && ServerKeeps(h)
             && (h.stage.StartAccept? || h.stage.FinishServerHandshake? || h.stage.ReadClientHello? || h.stage.SelectCertificate?)
    ensures Gates(h, ServerDo(h, plan, answer, n), answer) && Heeds(h, ServerDo(h, plan, answer, n), plan.hasCert, answer)
  {
    hide DoSelectParameters, DoSendServerHello, DoSendServerCertificate, DoSendServerKeyExchange,
         DoSendServerHelloDone, DoReadClientCertificate, DoVerifyClientCertificate, DoReadClientKeyExchange,
         DoReadClientCertificateVerify, DoReadNextProto, DoReadChannelId, DoSendServerFinished, GetFinished,
         ChangeRead, ReadOne;
  }

  lemma ParametersGate(h: Hs, plan: Plan, answer: Answer, n: nat)
    requires h.server && ServerKeeps(h) && (h.stage.SelectParameters? || h.stage.SendServerHello?)
    ensures Gates(h, ServerDo(h, plan, answer, n), answer) && Heeds(h, ServerDo(h, plan, answer, n), plan.hasCert, answer)
  {
    hide DoReadClientHello, DoSelectCertificate, DoSendServerCertificate, DoSendServerKeyExchange,
         DoSendServerHelloDone, DoReadClientCertificate, DoVerifyClientCertificate, DoReadClientKeyExchange,
         DoReadClientCertificateVerify, DoReadNextProto, DoReadChannelId, DoSendServerFinished, GetFinished,
         ChangeRead, ReadOne;
  }

  lemma FlightGate(h: Hs, plan: Plan, answer: Answer, n: nat)
    requires h.server && ServerKeeps(h)
             && (h.stage.SendServerCertificate? || h.stage.SendServerKeyExchange? || h.stage.SendServerHelloDone?)
    ensures Gates(h, ServerDo(h, plan, answer, n), answer) && Heeds(h, ServerDo(h, plan, answer, n), plan.hasCert, answer)
  {
    hide DoReadClientHello, DoSelectCertificate, DoSelectParameters, DoSendServerHello,
         DoReadClientCertificate, DoVerifyClientCertificate, DoReadClientKeyExchange,
         DoReadClientCertificateVerify, DoReadNextProto, DoReadChannelId, DoSendServerFinished, GetFinished,
         ChangeRead, ReadOne;
  }

  lemma ClientCertificateGate(h: Hs, plan: Plan, answer: Answer, n: nat)
    requires h.server && ServerKeeps(h) && (h.stage.ReadClientCertificate? || h.stage.VerifyClientCertificate?)
    ensures Gates(h, ServerDo(h, plan, answer, n), answer) && Heeds(h, ServerDo(h, plan, answer, n), plan.hasCert, answer)
  {
    hide DoReadClientHello, DoSelectCertificate, DoSelectParameters, DoSendServerHello,
         DoSendServerCertificate, DoSendServerKeyExchange, DoSendServerHelloDone, DoReadClientKeyExchange,
         DoReadClientCertificateVerify, DoReadNextProto, DoReadChannelId, DoSendServerFinished, GetFinished,
         ChangeRead, ReadOne;
  }

  lemma ClientKeyGate(h: Hs, plan: Plan, answer: Answer, n: nat)
    requires h.server && ServerKeeps(h) && (h.stage.ReadClientKeyExchange? || h.stage.ReadChangeCipherSpec?)
    ensures Gates(h, ServerDo(h, plan, answer, n), answer) && Heeds(h, ServerDo(h, plan, answer, n), plan.hasCert, answer)
  {
    hide DoReadClientCertificateVerify, DoReadClientHello, DoSelectCertificate, DoSelectParameters, DoSendServerHello,
         DoSendServerCertificate, DoSendServerKeyExchange, DoSendServerHelloDone, DoReadClientCertificate,
         DoVerifyClientCertificate, DoReadNextProto, DoReadChannelId, DoSendServerFinished, GetFinished,
         ChangeRead, ReadOne;
  }

  lemma CertificateVerifyGate(h: Hs, plan: Plan, answer: Answer, n: nat)
    requires h.server && ServerKeeps(h) && h.stage.ReadClientCertificateVerify?
    ensures Gates(h, ServerDo(h, plan, answer, n), answer) && Heeds(h, ServerDo(h, plan, answer, n), plan.hasCert, answer)
  {
    hide DoReadClientKeyExchange, DoReadClientHello, DoSelectCertificate, DoSelectParameters, DoSendServerHello,
         DoSendServerCertificate, DoSendServerKeyExchange, DoSendServerHelloDone, DoReadClientCertificate,
         DoVerifyClientCertificate, DoReadNextProto, DoReadChannelId, DoSendServerFinished, GetFinished,
         ChangeRead, ReadOne;
  }

  lemma ClientLastReadGate(h: Hs, plan: Plan, answer: Answer, n: nat)
    requires h.server && ServerKeeps(h) && (h.stage.ProcessClientChangeCipherSpec? || h.stage.ReadNextProto?)
    ensures Gates(h, ServerDo(h, plan, answer, n), answer) && Heeds(h, ServerDo(h, plan, answer, n), plan.hasCert, answer)
  {
    hide GetFinished, DoReadClientHello, DoSelectCertificate, DoSelectParameters, DoSendServerHello,
         DoSendServerCertificate, DoSendServerKeyExchange, DoSendServerHelloDone, DoReadClientCertificate,
         DoVerifyClientCertificate, DoReadClientKeyExchange, DoReadClientCertificateVerify, DoReadChannelId,
         DoSendServerFinished;
  }

  lemma ClientFinishedGate(h: Hs, plan: Plan, answer: Answer, n: nat)
    requires h.server && ServerKeeps(h) && h.stage.ReadClientFinished?
    ensures Gates(h, ServerDo(h, plan, answer, n), answer) && Heeds(h, ServerDo(h, plan, answer, n), plan.hasCert, answer)
  {
    hide DoReadNextProto, ChangeRead, DoReadClientHello, DoSelectCertificate, DoSelectParameters, DoSendServerHello,
         DoSendServerCertificate, DoSendServerKeyExchange, DoSendServerHelloDone, DoReadClientCertificate,
         DoVerifyClientCertificate, DoReadClientKeyExchange, DoReadClientCertificateVerify, DoReadChannelId,
         DoSendServerFinished;
  }

  lemma ChannelIdGate(h: Hs, plan: Plan, answer: Answer, n: nat)
    requires h.server && ServerKeeps(h) && h.stage.ReadChannelId?
    ensures Gates(h, ServerDo(h, plan, answer, n), answer) && Heeds(h, ServerDo(h, plan, answer, n), plan.hasCert, answer)
  {
    hide DoSendServerFinished, DoReadClientHello, DoSelectCertificate, DoSelectParameters, DoSendServerHello,
         DoSendServerCertificate, DoSendServerKeyExchange, DoSendServerHelloDone, DoReadClientCertificate,
         DoVerifyClientCertificate, DoReadClientKeyExchange, DoReadClientCertificateVerify, DoReadNextProto,
         GetFinished, ChangeRead, ReadOne;
  }

  lemma ServerEndGate(h: Hs, plan: Plan, answer: Answer, n: nat)
    requires h.server && ServerKeeps(h) && h.stage.SendServerFinished?
    ensures Gates(h, ServerDo(h, plan, answer, n), answer) && Heeds(h, ServerDo(h, plan, answer, n), plan.hasCert, answer)
  {
    hide DoReadChannelId, DoReadClientHello, DoSelectCertificate, DoSelectParameters, DoSendServerHello,
         DoSendServerCertificate, DoSendServerKeyExchange, DoSendServerHelloDone, DoReadClientCertificate,
         DoVerifyClientCertificate, DoReadClientKeyExchange, DoReadClientCertificateVerify, DoReadNextProto,
         GetFinished, ChangeRead, ReadOne;
  }

  lemma ClientGates(h: Hs, hasCert: bool, answer: Answer, n: nat)
    requires !h.server && (h.stage.Done? || R.IsClient(h.stage))
    ensures Gates(h, ClientDo(h, hasCert, answer, n), answer) && Heeds(h, ClientDo(h, hasCert, answer, n), hasCert, answer)
  {
    hide Gates, Heeds, DoStartConnect, DoReadServerHello, DoReadServerCertificate, DoReadCertificateStatus,
         DoVerifyServerCertificate, DoReadServerKeyExchange, DoReadCertificateRequest, DoSendClientCertificate,
         DoSendClientKeyExchange, DoSendClientCertificateVerify, DoSendClientFinished, DoReadSessionTicket,
         ReadOne, GetFinished, ChangeRead;
    if h.stage.StartConnect? || h.stage.EnterEarlyData? || h.stage.ReadServerHello? {
      HelloGate(h, hasCert, answer, n);
    } else if h.stage.ReadServerCertificate? || h.stage.ReadCertificateStatus? || h.stage.VerifyServerCertificate? {
      ServerCertificateGate(h, hasCert, answer, n);
    } else if h.stage.ReadServerKeyExchange? || h.stage.ReadCertificateRequest? {
      ServerKeysGate(h, hasCert, answer, n);
    } else if h.stage.ReadServerHelloDone? || h.stage.SendClientCertificate? || h.stage.SendClientKeyExchange?
              || h.stage.SendClientCertificateVerify? {
      ClientKeysGate(h, hasCert, answer, n);
    } else if h.stage.SendClientFinished? || h.stage.FinishFlight? || h.stage.FinishClientHandshake?
              || h.stage.ProcessServerChangeCipherSpec? {
      ClientLastGate(h, hasCert, answer, n);
    } else if h.stage.ReadSessionTicket? {
      ServerLastGate(h, hasCert, answer, n);
    } else if h.stage.ReadServerFinished? {
      ServerFinishedGate(h, hasCert, answer, n);
    }
    if h.stage.Done? {
      StaysGates(h, hasCert, answer);
    }
  }

  lemma ServerGates(h: Hs, plan: Plan, answer: Answer, n: nat)
    requires h.server && ServerKeeps(h) && (h.stage.Done? || R.IsServer(h.stage))
    ensures Gates(h, ServerDo(h, plan, answer, n), answer) && Heeds(h, ServerDo(h, plan, answer, n), plan.hasCert, answer)
  {
    hide Gates, Heeds, ServerKeeps, DoReadClientHello, DoSelectCertificate, DoSelectParameters, DoSendServerHello,
         DoSendServerCertificate, DoSendServerKeyExchange, DoSendServerHelloDone, DoReadClientCertificate,
         DoVerifyClientCertificate, DoReadClientKeyExchange, DoReadClientCertificateVerify, DoReadNextProto,
         DoReadChannelId, DoSendServerFinished, GetFinished, ChangeRead, ReadOne;
    if h.stage.StartAccept? || h.stage.FinishServerHandshake? || h.stage.ReadClientHello? || h.stage.SelectCertificate? {
      AcceptGate(h, plan, answer, n);
    } else if h.stage.SelectParameters? || h.stage.SendServerHello? {
      ParametersGate(h, plan, answer, n);
    } else if h.stage.SendServerCertificate? || h.stage.SendServerKeyExchange? || h.stage.SendServerHelloDone? {
      FlightGate(h, plan, answer, n);
    } else if h.stage.ReadClientCertificate? || h.stage.VerifyClientCertificate? {
      ClientCertificateGate(h, plan, answer, n);
    } else if h.stage.ReadClientKeyExchange? || h.stage.ReadChangeCipherSpec? {
      ClientKeyGate(h, plan, answer, n);
    } else if h.stage.ReadClientCertificateVerify? {
      CertificateVerifyGate(h, plan, answer, n);
    } else if h.stage.ProcessClientChangeCipherSpec? || h.stage.ReadNextProto? {
      ClientLastReadGate(h, plan, answer, n);
    } else if h.stage.ReadClientFinished? {
      ClientFinishedGate(h, plan, answer, n);
    } else if h.stage.ReadChannelId? {
      ChannelIdGate(h, plan, answer, n);
    } else if h.stage.SendServerFinished? {
      ServerEndGate(h, plan, answer, n);
    }
    if h.stage.Done? || h.stage.FinishServerHandshake? {
      StaysGates(h, plan.hasCert, answer);
    }
  }
  lemma DoGates(h: Hs, plan: Plan, hasCert: bool, answer: Answer, n: nat)
    requires h.wait.Ok? && InPlace(h) && Keeps(h, hasCert) && plan.hasCert == hasCert
    ensures Gates(h, Do(plan, h, answer, n), answer) && Heeds(h, Do(plan, h, answer, n), hasCert, answer)
  {
    hide Gates, Heeds, ClientDo, ServerDo, ClientKeeps, ServerKeeps, R.IsClient, R.IsServer, Reached;
    if h.server {
      ServerGates(h, plan, answer, n);
    } else {
      ClientGates(h, hasCert, answer, n);
    }
  }

  /** No refusal is passed over: a state that asks for an answer and is refused has failed for good or waits for
      the message it is about; and one told to try again waits for just that, with nothing changed. */
  lemma RefusalsEnd(server: bool, hasCert: bool, turns: seq<Turn>, plan: Plan, answer: Answer, n: nat, item: Item,
                    more: seq<Turn>)
    requires After(server, hasCert, turns).wait.Ok? && !After(server, hasCert, turns).stage.Done?
    ensures var h, next := After(server, hasCert, turns), turns + [Acts(plan, Run(answer, n), item)];
            var h1 := After(server, hasCert, next);
            && (answer.Refuse? && !AsksNothing(h, hasCert) ==>
                  || (h1.wait.Error? && After(server, hasCert, next + more).wait == h1.wait)
                  || h1 == h.(wait := NeedMessage) || h1 == h.(wait := NeedServerHello))
            && (answer.Retry? && Asks(h, hasCert).Some? ==>
                  || (h1.wait.Error? && After(server, hasCert, next + more).wait == h1.wait)
                  || h1 == h.(wait := NeedMessage) || h1 == h.(wait := Pending(Asks(h, hasCert).value)))
  {
    hide After, History, Do, InPlace, Keeps, AsksNothing, Asks;
    PlaceIsKept(server, hasCert, turns);
    BufferOutlivesItsUse(server, hasCert, turns);
    RunOnce(server, hasCert, turns, plan, answer, n, item);
    DoGates(After(server, hasCert, turns), plan.(hasCert := hasCert), hasCert, answer, n);
    var next := turns + [Acts(plan, Run(answer, n), item)];
    if After(server, hasCert, next).wait.Error? { ErrorStays(server, hasCert, next, more); }
  }

  /** What a server decides, in the terms of its configuration and of what the client offers: to ask for a
      certificate, to use Channel ID, and to send a key exchange. */
  lemma ServerDecides(h: Hs, plan: Plan, n: nat)
    requires h.server && h.wait.Ok? && InPlace(h) && Keeps(h, plan.hasCert)
    ensures var h1 := Do(plan, h, Go, n);
            && (h.stage.SelectParameters? ==>
                  && h1.stage.SendServerHello? && h1.neg.resumed == plan.resumed
                  && (h1.certRequest <==> !plan.resumed && plan.verifyPeer && plan.certAuth
                                          && !(plan.ifNoChannelId && plan.channelIdOffered)))
            && (h.stage.SendServerHello? ==>
                  (h1.neg.channelId <==> h.neg.channelId && h.neg.ecdhe && (h.neg.resumed ==> plan.originalHash)))
            && (h.stage.SendServerCertificate? ==> (h1.serverParams <==> plan.ecdhe || (!plan.certAuth && plan.pskHint)))
  {
    hide Reached, R.IsServer, R.IsClient, ClientKeeps;
  }

  lemma OthersGate(h: Hs, h1: Hs)
    requires h1 == h.(inbox := h1.inbox, flight := h1.flight, wait := h1.wait)
    ensures PastCheck(h1) == PastCheck(h)
  {}

  /** A machine gets behind the check of the peer's certificate only if the callback accepted it in some turn. */
  lemma {:induction false} CertificateWasAccepted(server: bool, hasCert: bool, turns: seq<Turn>)
    requires !After(server, hasCert, turns).wait.Error? && PastCheck(After(server, hasCert, turns))
    ensures exists i | 0 <= i < |turns| :: Accepts(After(server, hasCert, turns[..i]), turns[i])
  {
    hide PastCheck, Keeps, Do, InPlace;
    if turns == [] {
      StartIsBefore(server);
    } else {
      var before, t := turns[..|turns| - 1], turns[|turns| - 1];
      var h := After(server, hasCert, before);
      BufferOutlivesItsUse(server, hasCert, before);
      PlaceIsKept(server, hasCert, before);
      assert before + [t] == turns;
      if h.wait.Error? { ErrorStays(server, hasCert, before, [t]); }
      if PastCheck(h) {
        CertificateWasAccepted(server, hasCert, before);
        var i :| 0 <= i < |before| && Accepts(After(server, hasCert, before[..i]), before[i]);
        assert before[..i] == turns[..i];
      } else if t.Acts? && t.action.Run? && Enabled(h, [t.item], t.action) {
        DoGates(h, t.plan.(hasCert := hasCert), hasCert, t.action.answer, t.action.n);
      } else {
        OthersStay(h, hasCert, t);
        OthersGate(h, Faces(h, hasCert, t));
      }
    }
  }

  lemma StartIsBefore(server: bool)
    ensures !PastCheck(Start(server))
  {}

  lemma PlaceIsKept(server: bool, hasCert: bool, turns: seq<Turn>)
    ensures After(server, hasCert, turns).wait.Error? || InPlace(After(server, hasCert, turns))
  {
    hide After, History, InPlace, UpTo, Lines, AllRight, Keyed, Optional, Reached, FactsOf;
    var status, keys := RunIsTraced(server, hasCert, turns);
  }

  // ---- Done ----

  lemma {:induction false} PartIsThere(f: Facts, k: nat, n: nat, line: Line)
    requires k < n && Part(f, k) == [line]
    ensures line in UpTo(f, n)
    decreases n
  {
    hide Part;
    if k < n - 1 { PartIsThere(f, k, n - 1, line); }
  }

  lemma FinishedIsThere(f: Facts, server: bool)
    ensures Line(server, Finished) in UpTo(f, 15)
  {
    hide UpTo;
    PartIsThere(f, FinishedPlace(server, f.resumed), 15, Line(server, Finished));
  }

  /** What is checked in a handshake: each Finished is the MAC, and each signature is made, over all before it; and
      a server's certificate chain is not empty. */
  predicate Checked(log: seq<Said>) {
    forall k | 0 <= k < |log| ::
      && (log[k].msg.kind == Finished ==> log[k].msg.body == Mac(log[k].server, Messages(log[..k])))
      && (log[k].msg.kind == Certificate && log[k].server ==> log[k].msg.body != Text(0))
      && (log[k].msg.kind == CertificateVerify || log[k].msg.kind == ChannelId ==> log[k].msg.body == Signature(Messages(log[..k])))
  }

  predicate HasFinished(log: seq<Said>, side: bool) {
    exists k | 0 <= k < |log| :: log[k] == Said(side, Message(Finished, Mac(side, Messages(log[..k]))))
  }

  /** A machine that is done has said and heard just the messages of one whole handshake, the peer's Finished
      among them, over all before it, and has changed its keys once each way. */
  lemma DoneIsWhole(server: bool, hasCert: bool, turns: seq<Turn>)
    requires After(server, hasCert, turns).stage.Done? && !After(server, hasCert, turns).wait.Error?
    ensures var h, log := After(server, hasCert, turns), History(server, hasCert, turns);
            && (exists status, keys ::
                  && Lines(log) == UpTo(FactsOf(h, hasCert, status, keys), 15)
                  && (!server && !h.neg.resumed ==>
                        (status ==> h.neg.status) && (h.neg.ecdhe ==> keys) && (keys ==> h.neg.ecdhe || !h.neg.certAuth)))
            && Checked(log) && h.transcript.hash == Some(Messages(log)) && h.readEpoch == 1 && h.writeEpoch == 1
    ensures HasFinished(History(server, hasCert, turns), server) && HasFinished(History(server, hasCert, turns), !server)
  {
    hide After, History, InPlace, UpTo, Lines, Messages, FactsOf;
    var h, log := After(server, hasCert, turns), History(server, hasCert, turns);
    var status, keys := RunIsTraced(server, hasCert, turns);
    var f := FactsOf(h, hasCert, status, keys);
    FinishedIsThere(f, server);
    FinishedIsThere(f, !server);
    FinishedIsSaid(log, server);
    FinishedIsSaid(log, !server);
  }

  lemma FinishedIsSaid(log: seq<Said>, side: bool)
    requires AllRight(log) && Line(side, Finished) in Lines(log)
    ensures HasFinished(log, side)
  {
    hide Messages;
    var k :| 0 <= k < |Lines(log)| && Lines(log)[k] == Line(side, Finished);
    assert RightAfter(Messages(log[..k]), log[k]);
  }
}
