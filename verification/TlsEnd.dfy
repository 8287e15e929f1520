/** A handshake comes to an end: how many turns a run can take, and that every run can be completed. */
module TlsEnd {
  import opened TlsHandshake
  import opened TlsScript
  import opened TlsRun
  import R = TlsRetry

  // ---- What is left to do ----

  /** How many states a side still has to go through, at most. */
  function StatesLeft(h: Hs): nat {
    if h.server then R.ServerRank(h.stage, h.neg.resumed) else R.ClientRank(h.stage, h.neg.resumed)
  }

  function WaitLeft(wait: Wait): nat {
    match wait
    case Flush => 2
    case Ok => 1
    case _ => 0
  }

  /** What a side has left to do: the rest of the flow, its flight, and its states. */
  function Left(p: Plan, h: Hs): nat {
    2 * |Rest(p, h)| + 2 * |h.flight| + WaitLeft(h.wait) + 2 * StatesLeft(h)
  }

  /** What the two have left to do, with what is on the wire. */
  function Work(p: Plan, w: World): nat {
    Left(p, w.client) + Left(p, w.server) + 2 * |w.toClient| + 2 * |w.toServer|
  }

  lemma {:induction false} EntriesSize(server: bool, cs: seq<Content>)
    ensures |Entries(server, cs)| == |cs|
  {
    if cs != [] { EntriesSize(server, cs[1..]); }
  }

  lemma {:induction false} ContentsSize(items: seq<Item>)
    ensures |Contents(items)| == |items|
  {
    if items != [] { ContentsSize(items[1..]); }
  }

  lemma {:induction false} FromSize(p: Plan, k: nat)
    ensures |From(p, k)| <= if k < END then END - k else 0
    decreases END - k
  {
    if k < END { FromSize(p, k + 1); }
  }

  /** What is read or sent is no longer in the rest of the flow. */
  lemma MovesOn(p: Plan, h: Hs, h1: Hs, got: seq<Message>, sent: seq<Item>, rest: Flow, rest1: Flow)
    requires Moves(p, h, h1, got, sent, rest, rest1)
    ensures |rest1| + |h1.flight| <= |rest| + |h.flight| && h1.server == h.server
  {
    EntriesSize(h.server, Contents(sent));
    ContentsSize(sent);
  }

  lemma StatesOneWay(p: Plan, h: Hs, answer: Answer, n: nat)
    requires SideOk(p, h) && !h.stage.Done?
    ensures var h1 := Do(p, h, answer, n);
            R.OneWay(h, h1, answer, StatesLeft(h), if h.server then R.ServerRank(h1.stage, h1.neg.resumed)
                                           else R.ClientRank(h1.stage, h1.neg.resumed))
  {
    if h.server {
      R.ServerStepsOneWay(h, Do(p, h, answer, n), p, answer, n);
    } else {
      R.ClientStepsOneWay(h, Do(p, h, answer, n), p.hasCert, answer, n);
    }
  }

  /** Every call of a do_ function leaves less to do, not counting what a failure leaves behind. */
  lemma DoLowers(p: Plan, h: Hs, answer: Answer, n: nat)
    requires SideOk(p, h) && h.wait.Ok? && !h.stage.Done? && Expected(p, h)
    requires IsProcess(h.stage) ==> h.inbox == []
    ensures Left(p, Clean(h, Do(p, h, answer, n))) < Left(p, h)
  {
    hide From, SideOk, ClientDo, ServerDo, Do, Moves;
    var h1 := Clean(h, Do(p, h, answer, n));
    DoAdvances(p, h, answer, n);
    var got, sent :| Follows(p, h, h1, got, sent);
    MovesOn(p, h, h1, got, sent, Rest(p, h), Rest(p, h1));
    StatesOneWay(p, h, answer, n);
  }

  lemma OpenedLowers(p: Plan, h: Hs, item: Item)
    requires h.wait.NeedMessage? || h.wait.NeedServerHello? || h.wait.NeedCcs?
    ensures Left(p, Opened(h, item)) <= Left(p, h) + 1
  {
    hide At, EntryAt;
    var h1 := Opened(h, item);
    assert h1.stage == h.stage && h1.server == h.server && h1.neg == h.neg && h1.flight == h.flight;
    assert Place(p, h1) == Place(p, h) || Place(p, h1) == Place(p, h) + 1;
    assert |Rest(p, h1)| <= |Rest(p, h)|;
  }

  /** An action that is no retry leaves less to do, unless it flushes only a part of a flight. */
  lemma ActLowers(p: Plan, a: Hs, b: Hs, toA: seq<Item>, toB: seq<Item>, action: Action)
    requires PairOk(p, a, b, toA, toB) && Enabled(a, toA, action)
    ensures var left1 := Left(p, ActedCleanly(p, a, toA, action)) + 2 * |Incoming(toA, action)| + 2 * |Outgoing(a, toB, action)|;
            var left := Left(p, a) + 2 * |toA| + 2 * |toB|;
            && left1 <= left + (if action.Resume? then 1 else 0)
            && (!action.Resume? && (action.FlushSome? ==> action.k == |a.flight|) ==> left1 < left)
  {
    hide From, Do, At, Expected, SideOk, WaitsWell, Behind, Epochs, Pend;
    match action
    case Run(answer, n) =>
      PairExpects(p, a, b, toA, toB);
      DoLowers(p, a, answer, n);
    case FlushSome(k) => SameSpot(p, a, Flushed(a, k));
    case Receive => OpenedLowers(p, a, toA[0]);
    case Resume => SameSpot(p, a, a.(wait := Ok));
  }

  lemma HappenLowers(p: Plan, w: World, e: Event)
    requires WorldOk(p, w) && CanHappen(w, e)
    ensures Work(p, HappenCleanly(p, w, e)) <= Work(p, w) + if e.action.Resume? then 1 else 0
    ensures Productive(w, e) && !e.action.Resume? ==> Work(p, HappenCleanly(p, w, e)) < Work(p, w)
  {
    hide Left;
    if e.server {
      Swap(p, w.client, w.server, w.toClient, w.toServer);
      ActLowers(p, w.server, w.client, w.toServer, w.toClient, e.action);
    } else {
      ActLowers(p, w.client, w.server, w.toClient, w.toServer, e.action);
    }
  }

  // ---- How long a run can be ----

  /** How many events of the schedule brought the handshake further. */
  function Turns(p: Plan, events: seq<Event>): nat {
    if events == [] then 0
    else
      var w := After(p, events[..|events| - 1]);
      var e := events[|events| - 1];
      Turns(p, events[..|events| - 1]) + if Productive(w, e) && !e.action.Resume? then 1 else 0
  }

  /** How many resumed a side that waited for a callback. */
  function Retries(p: Plan, events: seq<Event>): nat {
    if events == [] then 0
    else
      var w := After(p, events[..|events| - 1]);
      var e := events[|events| - 1];
      Retries(p, events[..|events| - 1]) + if CanHappen(w, e) && e.action.Resume? then 1 else 0
  }

  /** What can happen does not depend on what failures left behind. */
  lemma SameEvents(p: Plan, w0: World, w: World, e: Event)
    requires AlikeWorlds(p, w0, w) && WorldOk(p, w0)
    ensures CanHappen(w, e) <==> CanHappen(w0, e)
    ensures Productive(w, e) <==> Productive(w0, e)
  {
    hide SideOk, From;
  }

  lemma {:induction false} WorkDone(p: Plan, events: seq<Event>)
    ensures Turns(p, events) + Work(p, CleanAfter(p, events)) <= Work(p, BEGIN) + Retries(p, events)
  {
    if events != [] {
      var before := events[..|events| - 1];
      WorkDone(p, before);
      RunIsOk(p, before);
      SameEvents(p, CleanAfter(p, before), After(p, before), events[|events| - 1]);
      if CanHappen(After(p, before), events[|events| - 1]) { HappenLowers(p, CleanAfter(p, before), events[|events| - 1]); }
    }
  }

  /** No schedule takes a handshake through more turns than four for each record of its flow and 76 more,
      and one for each retry of a callback. */
  lemma RunsEnd(p: Plan, events: seq<Event>)
    ensures Turns(p, events) <= 4 * |From(p, 0)| + 76 + Retries(p, events)
    ensures |From(p, 0)| <= END
  {
    WorkDone(p, events);
    FromSize(p, 0);
    assert Place(p, BEGIN.client) == 0 && Place(p, BEGIN.server) == 0;
  }

  // ---- Every run can be completed ----

  predicate NoError(w: World) {
    !w.client.wait.Error? && !w.server.wait.Error?
  }

  predicate BothDone(w: World) {
    w.client.stage.Done? && w.server.stage.Done?
  }

  /** Only a callback that refuses stops a state, and only one that asks for a retry holds it up. */
  lemma GoGoesOn(p: Plan, h: Hs, n: nat)
    requires SideOk(p, h) && !h.stage.Done?
    ensures !Do(p, h, Go, n).wait.Pending? && Do(p, h, Go, n).wait != Error(Refused)
  {
    hide ClientDo, ServerDo;
    StatesOneWay(p, h, Go, n);
  }

  function Held(h: Hs): nat {
    if h.wait.Pending? then 2 else 0
  }

  /** What is left to do when no callback asks for a retry any more. */
  function Effort(p: Plan, w: World): nat {
    Work(p, w) + Held(w.client) + Held(w.server)
  }

  lemma ActHeld(p: Plan, a: Hs, toA: seq<Item>, action: Action)
    requires SideOk(p, a) && Enabled(a, toA, action) && (action.Run? ==> action.answer.Go?) && !a.wait.Error?
    requires SideOk(p, ActedCleanly(p, a, toA, action))
    ensures !Acted(p, a, toA, action).wait.Error?
    ensures Held(Acted(p, a, toA, action)) + (if action.Resume? then 2 else 0) <= Held(a)
  {
    hide KnowsPlan, TranscriptOk;
    if action.Run? { GoGoesOn(p, a, action.n); }
  }

  lemma EagerLowers(p: Plan, w: World, e: Event)
    requires WorldOk(p, w) && NoError(w) && Eager(w, e)
    ensures NoError(Happen(p, w, e))
    ensures Effort(p, Happen(p, w, e)) < Effort(p, w)
  {
    HappenIsOk(p, w, e);
    HappenLowers(p, w, e);
    if e.server {
      ActHeld(p, w.server, w.toServer, e.action);
    } else {
      ActHeld(p, w.client, w.toClient, e.action);
    }
    assert HappenCleanly(p, w, e) == Happen(p, w, e);
  }

  /** More events take the run to where both sides are done, and they are no more than there is left to do. */
  predicate Completes(p: Plan, events: seq<Event>, more: seq<Event>) {
    BothDone(After(p, events + more)) && |more| <= Effort(p, After(p, events))
  }

  /** Whatever has happened, as long as nothing was refused, the handshake can still be completed. */
  lemma {:induction false} CanFinish(p: Plan, events: seq<Event>)
    requires NoError(After(p, events))
    ensures exists more :: Completes(p, events, more)
    decreases Effort(p, After(p, events))
  {
    hide Effort, WorldOk, Happen, Enabled;
    var w := After(p, events);
    if BothDone(w) {
      assert events + [] == events;
      assert Completes(p, events, []);
    } else {
      NeverStuck(p, events);
      var e :| Eager(w, e);
      RunIsOk(p, events);
      assert CleanAfter(p, events) == w;
      EagerLowers(p, w, e);
      var events1 := events + [e];
      assert events1[..|events1| - 1] == events && After(p, events1) == Happen(p, w, e);
      CanFinish(p, events1);
      var more :| Completes(p, events1, more);
      assert events1 + more == events + ([e] + more);
      assert Completes(p, events, [e] + more);
    }
  }
}
