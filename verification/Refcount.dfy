/** Reference counts: the compare-and-swap form against the locked one, for any number of threads. */
module Refcount {
  import opened Prelude

  const MAX := 0xffff_ffff

  type Count = c: nat | c <= MAX

  datatype Op = Inc | Dec

  /** What a call gives back; an increment gives back nothing, which is Returned(false). */
  datatype Result = Returned(zero: bool) | Aborted

  // ---- refcount_lock.c: one call at a time ----

  function LockedCount(count: Count, op: Op): Count {
    match op
    case Inc => if count < MAX then count + 1 else count
    case Dec => if 0 < count < MAX then count - 1 else count
  }

  function LockedResult(count: Count, op: Op): Result {
    match op
    case Inc => Returned(false)
    case Dec => if count == 0 then Aborted else Returned(LockedCount(count, op) == 0)
  }

  /** The counter under g_refcount_lock. */
  class LockedCounter {
    var count: Count

    method Increment()
      modifies this
      ensures count == LockedCount(old(count), Inc)
    {
      if count < MAX {
        count := count + 1;
      }
    }

    method DecrementAndTestZero() returns (ret: Result)
      modifies this
      ensures count == LockedCount(old(count), Dec) && ret == LockedResult(old(count), Dec)
    {
      if count == 0 {
        return Aborted;
      }
      if count < MAX {
        count := count - 1;
      }
      ret := Returned(count == 0);
    }
  }

  // ---- refcount_c11.c: threads that take turns at the shared counter ----

  /** Where a thread is: about to load the counter, about to try an exchange of the value it last saw, or
      done with its call. */
  datatype Pc = Idle | Loading(op: Op) | Trying(op: Op, expected: Count) | Finished(op: Op, result: Result)

  /** One access to the shared counter, or the start or end of a call. A weak exchange may fail spuriously. */
  datatype Event = Call(t: nat, op: Op) | Load(t: nat) | Exchange(t: nat, spurious: bool) | Return(t: nat)

  /** A call that took effect, and what it gives back. */
  datatype Entry = Entry(t: nat, op: Op, result: Result)

  /** The counter, the threads, and the calls in the order in which they took effect. */
  datatype System = System(count: Count, pcs: map<nat, Pc>, log: seq<Entry>) {
    function At(t: nat): Pc {
      if t in pcs then pcs[t] else Idle
    }

    /** The process is gone once a thread has aborted. */
    predicate Dead() {
      exists t :: t in pcs && pcs[t].Finished? && pcs[t].result.Aborted?
    }
  }

  function Start(count: Count): System {
    System(count, map[], [])
  }

  predicate Enabled(s: System, e: Event) {
    && !s.Dead()
    && match e
       case Call(t, op) => s.At(t).Idle?
       case Load(t) => s.At(t).Loading?
       case Exchange(t, spurious) => s.At(t).Trying?
       case Return(t) => s.At(t).Finished?
  }

  /** What a thread does with the value it has seen: give up on a saturated or dead counter, or try. */
  function Saw(op: Op, value: Count): Pc {
    match op
    case Inc => if value == MAX then Finished(op, Returned(false)) else Trying(op, value)
    case Dec =>
      if value == 0 then Finished(op, Aborted)
      else if value == MAX then Finished(op, Returned(false))
      else Trying(op, value)
  }

  /** The value the exchange would store, in 32 bits. */
  function NewValue(op: Op, expected: Count): Count {
    match op
    case Inc => (expected + 1) % 0x1_0000_0000
    case Dec => (expected + 0xffff_ffff) % 0x1_0000_0000
  }

  predicate Swaps(s: System, e: Event)
    requires e.Exchange? && s.At(e.t).Trying?
  {
    !e.spurious && s.count == s.At(e.t).expected
  }

  function Moved(s: System, t: nat, pc: Pc): System {
    var log := if pc.Finished? && !s.At(t).Finished? then s.log + [Entry(t, pc.op, pc.result)] else s.log;
    s.(pcs := s.pcs[t := pc], log := log)
  }

  function Step(s: System, e: Event): System
    requires Enabled(s, e)
  {
    match e
    case Call(t, op) => Moved(s, t, Loading(op))
    case Load(t) => Moved(s, t, Saw(s.At(t).op, s.count))
    case Exchange(t, spurious) =>
      if Swaps(s, e) then
        var value := NewValue(s.At(t).op, s.count);
        Moved(s, t, Finished(s.At(t).op, Returned(s.At(t).op.Dec? && value == 0))).(count := value)
      else Moved(s, t, Saw(s.At(t).op, s.count))
    case Return(t) => Moved(s, t, Idle)
  }

  predicate Possible(s: System, es: seq<Event>)
    decreases |es|
  {
    es == [] || (Enabled(s, es[0]) && Possible(Step(s, es[0]), es[1..]))
  }

  function Run(s: System, es: seq<Event>): System
    requires Possible(s, es)
    decreases |es|
  {
    if es == [] then s else Run(Step(s, es[0]), es[1..])
  }

  // ---- The atomic form refines the locked one ----

  /** The locked counter after the same calls. */
  function Replay(count: Count, log: seq<Entry>): Count {
    if log == [] then count else LockedCount(Replay(count, log[..|log| - 1]), log[|log| - 1].op)
  }

  /** Every call gives back what the locked form does at its turn. */
  predicate Agrees(count: Count, log: seq<Entry>) {
    forall k :: 0 <= k < |log| ==> log[k].result == LockedResult(Replay(count, log[..k]), log[k].op)
  }

  lemma ReplayOn(count: Count, log: seq<Entry>, e: Entry)
    requires Agrees(count, log) && e.result == LockedResult(Replay(count, log), e.op)
    ensures Agrees(count, log + [e]) && Replay(count, log + [e]) == LockedCount(Replay(count, log), e.op)
  {
    var log1 := log + [e];
    assert log1[..|log|] == log;
    forall k | 0 <= k < |log1|
      ensures log1[k].result == LockedResult(Replay(count, log1[..k]), log1[k].op)
    {
      assert k < |log| ==> log1[..k] == log[..k];
    }
  }

  /** A thread tries only values that an exchange can be made of. */
  predicate Sensible(s: System) {
    forall t :: t in s.pcs && s.pcs[t].Trying? ==>
      s.pcs[t].expected < MAX && (s.pcs[t].op.Dec? ==> s.pcs[t].expected > 0)
  }

  predicate Refines(count: Count, s: System) {
    s.count == Replay(count, s.log) && Agrees(count, s.log) && Sensible(s)
  }

  /** A step in which no call takes effect. */
  lemma NoEffect(count: Count, s: System, t: nat, pc: Pc)
    requires Refines(count, s) && (!pc.Finished? || s.At(t).Finished?)
    requires pc.Trying? ==> pc.expected < MAX && (pc.op.Dec? ==> pc.expected > 0)
    ensures Refines(count, Moved(s, t, pc))
  {}

  /** A step in which one does. */
  lemma Effect(count: Count, s: System, t: nat, op: Op, result: Result, value: Count)
    requires Refines(count, s) && !s.At(t).Finished?
    requires value == LockedCount(s.count, op) && result == LockedResult(s.count, op)
    ensures Refines(count, Moved(s, t, Finished(op, result)).(count := value))
  {
    ReplayOn(count, s.log, Entry(t, op, result));
  }

  lemma StepRefines(count: Count, s: System, e: Event)
    requires Refines(count, s) && Enabled(s, e)
    ensures Refines(count, Step(s, e))
  {
    hide Refines;
    if e.Call? || e.Return? {
      NoEffect(count, s, e.t, if e.Call? then Loading(e.op) else Idle);
    } else {
      var op := s.At(e.t).op;
      if e.Exchange? && Swaps(s, e) {
        SwapIsLocked(count, s, e.t);
        Effect(count, s, e.t, op, Returned(op.Dec? && NewValue(op, s.count) == 0), NewValue(op, s.count));
      } else if Saw(op, s.count).Finished? {
        Effect(count, s, e.t, op, Saw(op, s.count).result, s.count);
        assert Moved(s, e.t, Saw(op, s.count)).(count := s.count) == Moved(s, e.t, Saw(op, s.count));
      } else {
        NoEffect(count, s, e.t, Saw(op, s.count));
      }
    }
  }

  /** An exchange of a sensible value does what the locked form does. */
  lemma SwapIsLocked(count: Count, s: System, t: nat)
    requires Refines(count, s) && s.At(t).Trying? && s.At(t).expected == s.count
    ensures var op := s.At(t).op;
      && NewValue(op, s.count) == LockedCount(s.count, op)
      && Returned(op.Dec? && NewValue(op, s.count) == 0) == LockedResult(s.count, op)
  {
    assert t in s.pcs && s.pcs[t].Trying?;
  }

  /** In every run, of any number of threads, the calls take effect as if made one after the other on the
      locked counter: with the same count and the same results. */
  lemma {:induction false} RunRefines(count: Count, s: System, es: seq<Event>)
    requires Refines(count, s) && Possible(s, es)
    ensures Refines(count, Run(s, es))
    decreases |es|
  {
    if es != [] {
      StepRefines(count, s, es[0]);
      RunRefines(count, Step(s, es[0]), es[1..]);
    }
  }

  // ---- Every call takes effect once, while it is being made ----

  function CallsOf(t: nat, es: seq<Event>): nat {
    if es == [] then 0 else (if es[0].Call? && es[0].t == t then 1 else 0) + CallsOf(t, es[1..])
  }

  /** What the thread's calls were and gave back. */
  function EntriesOf(t: nat, log: seq<Entry>): seq<Entry> {
    if log == [] then []
    else EntriesOf(t, log[..|log| - 1]) + if log[|log| - 1].t == t then [log[|log| - 1]] else []
  }

  /** A call that was made and has not taken effect. */
  predicate Busy(pc: Pc) {
    pc.Loading? || pc.Trying?
  }

  predicate Accounted(s: System, t: nat, calls: nat) {
    && |EntriesOf(t, s.log)| + (if Busy(s.At(t)) then 1 else 0) == calls
    && (s.At(t).Finished? ==>
          EntriesOf(t, s.log) != [] && EntriesOf(t, s.log)[|EntriesOf(t, s.log)| - 1] == Entry(t, s.At(t).op, s.At(t).result))
  }

  lemma MovedAccounts(s: System, u: nat, pc: Pc, t: nat, calls: nat)
    requires Accounted(s, t, calls)
    requires pc.Finished? ==> Busy(s.At(u))
    requires Busy(pc) && u == t ==> Busy(s.At(u)) || (s.At(u).Idle? && pc.Loading?)
    requires pc.Idle? ==> s.At(u).Finished?
    ensures Accounted(Moved(s, u, pc), t, calls + if pc.Loading? && s.At(u).Idle? && u == t then 1 else 0)
  {
    AtMoved(s, u, pc, t);
    var s1 := Moved(s, u, pc);
    hide Moved, System.At;
    if pc.Finished? {
      EntriesOn(t, s.log, Entry(u, pc.op, pc.result));
    } else {
      assert s1.log == s.log;
    }
  }

  lemma AtMoved(s: System, u: nat, pc: Pc, t: nat)
    ensures var s1 := Moved(s, u, pc);
      && s1.At(t) == (if t == u then pc else s.At(t))
      && s1.log == if pc.Finished? && !s.At(u).Finished? then s.log + [Entry(u, pc.op, pc.result)] else s.log
  {}

  lemma EntriesOn(t: nat, log: seq<Entry>, e: Entry)
    ensures EntriesOf(t, log + [e]) == EntriesOf(t, log) + if e.t == t then [e] else []
  {
    assert (log + [e])[..|log|] == log;
  }

  lemma CountDoesNotMatter(s: System, value: Count, t: nat, calls: nat)
    requires Accounted(s, t, calls)
    ensures Accounted(s.(count := value), t, calls)
  {}

  /** A thread's calls that took effect are all it made but the one it is making, if that has not; and a call
      that is about to return gives back what it gave back then. */
  lemma {:induction false} OneEntryPerCall(s: System, es: seq<Event>, t: nat, calls: nat)
    requires Possible(s, es) && Accounted(s, t, calls)
    ensures Accounted(Run(s, es), t, calls + CallsOf(t, es))
    decreases |es|
  {
    hide Accounted;
    if es != [] {
      var e := es[0];
      var u := e.t;
      match e {
        case Call(_, op) => MovedAccounts(s, u, Loading(op), t, calls);
        case Return(_) => MovedAccounts(s, u, Idle, t, calls);
        case Load(_) => MovedAccounts(s, u, Saw(s.At(u).op, s.count), t, calls);
        case Exchange(_, _) =>
          if Swaps(s, e) {
            var value := NewValue(s.At(u).op, s.count);
            var pc := Finished(s.At(u).op, Returned(s.At(u).op.Dec? && value == 0));
            MovedAccounts(s, u, pc, t, calls);
            CountDoesNotMatter(Moved(s, u, pc), value, t, calls);
          } else {
            MovedAccounts(s, u, Saw(s.At(u).op, s.count), t, calls);
          }
      }
      OneEntryPerCall(Step(s, e), es[1..], t, calls + if e.Call? && u == t then 1 else 0);
    }
  }

  // ---- What the count means ----

  /** References taken and not given up, if none was lost. */
  function Live(count: int, log: seq<Entry>): int {
    if log == [] then count else Live(count, log[..|log| - 1]) + if log[|log| - 1].op.Inc? then 1 else -1
  }

  /** Every call is made by the holder of a reference, and there are never too many to count in 32 bits. */
  predicate Honest(count: Count, log: seq<Entry>) {
    && (forall k :: 0 <= k < |log| ==> Live(count, log[..k]) >= 1)
    && (forall k :: 0 <= k <= |log| ==> Live(count, log[..k]) < 0xffff_ffff)
  }

  lemma {:induction false} CountIsLive(count: Count, log: seq<Entry>, n: nat)
    requires Honest(count, log) && n <= |log|
    ensures Replay(count, log[..n]) == Live(count, log[..n])
  {
    if n > 0 {
      CountIsLive(count, log, n - 1);
      assert log[..n][..n - 1] == log[..n - 1];
      assert Live(count, log[..n - 1]) >= 1 && Live(count, log[..n]) < 0xffff_ffff;
    }
  }

  /** While the count is not saturated it is the number of live references; only the last release gives back
      one, and it does. */
  lemma LastRelease(count: Count, log: seq<Entry>)
    requires Agrees(count, log) && Honest(count, log)
    ensures forall k :: 0 <= k < |log| ==>
              log[k].result == Returned(k == |log| - 1 && Live(count, log) == 0)
    ensures Replay(count, log) == Live(count, log)
  {
    forall k | 0 <= k < |log|
      ensures log[k].result == Returned(k == |log| - 1 && Live(count, log) == 0)
    {
      CountIsLive(count, log, k);
      CountIsLive(count, log, k + 1);
      assert log[..k + 1][..k] == log[..k];
      if k == |log| - 1 {
        assert log[..k + 1] == log;
      } else {
        assert Live(count, log[..k + 1]) >= 1;
      }
    }
    CountIsLive(count, log, |log|);
    assert log[..|log|] == log;
  }

  /** A saturated count stays, and no release gives back one any more. */
  lemma {:induction false} Saturated(count: Count, log: seq<Entry>, k: nat, j: nat)
    requires Agrees(count, log) && k <= j <= |log| && Replay(count, log[..k]) == 0xffff_ffff
    ensures Replay(count, log[..j]) == 0xffff_ffff
    ensures j < |log| ==> log[j].result == Returned(false)
  {
    if k < j {
      Saturated(count, log, k, j - 1);
      assert log[..j][..j - 1] == log[..j - 1];
    }
  }

  /** The same of every run of the atomic form. */
  lemma RunCounts(count: Count, es: seq<Event>)
    requires Possible(Start(count), es) && Honest(count, Run(Start(count), es).log)
    ensures var s := Run(Start(count), es);
      && s.count == Live(count, s.log) && !s.Dead()
      && forall k :: 0 <= k < |s.log| ==> s.log[k].result == Returned(k == |s.log| - 1 && s.count == 0)
  {
    var s := Run(Start(count), es);
    RunRefines(count, Start(count), es);
    LastRelease(count, s.log);
    forall t | t in s.pcs && s.pcs[t].Finished?
      ensures !s.pcs[t].result.Aborted?
    {
      OneEntryPerCall(Start(count), es, t, 0);
      LastEntryIsOne(t, s.log);
      var mine := EntriesOf(t, s.log);
      assert Accounted(s, t, CallsOf(t, es));
      assert mine[|mine| - 1] in mine;
    }
  }

  lemma {:induction false} LastEntryIsOne(t: nat, log: seq<Entry>)
    ensures forall e <- EntriesOf(t, log) :: e in log
  {
    if log != [] {
      LastEntryIsOne(t, log[..|log| - 1]);
    }
  }

  // ---- Some thread gets on ----

  /** The value a thread tries was the count when n calls had taken effect, none of its own since. */
  predicate SeenAt(count: Count, s: System, t: nat, n: nat)
    requires s.At(t).Trying?
  {
    && n <= |s.log| && Replay(count, s.log[..n]) == s.At(t).expected
    && forall k :: n <= k < |s.log| ==> s.log[k].t != t
  }

  predicate Fresh(count: Count, s: System) {
    forall t :: t in s.pcs && s.pcs[t].Trying? ==> exists n :: 0 <= n <= |s.log| && SeenAt(count, s, t, n)
  }

  lemma MovedIsFresh(count: Count, s: System, u: nat, pc: Pc, value: Count)
    requires Refines(count, s) && Fresh(count, s)
    requires pc.Trying? ==> pc.expected == s.count
    ensures Fresh(count, Moved(s, u, pc).(count := value))
  {
    var s1 := Moved(s, u, pc).(count := value);
    forall t | t in s1.pcs && s1.pcs[t].Trying?
      ensures exists n :: 0 <= n <= |s1.log| && SeenAt(count, s1, t, n)
    {
      if t == u {
        assert s1.log == s.log && s.log[..|s.log|] == s.log;
        assert SeenAt(count, s1, t, |s.log|);
      } else {
        var n :| 0 <= n <= |s.log| && SeenAt(count, s, t, n);
        assert s1.log[..n] == s.log[..n];
        assert SeenAt(count, s1, t, n);
      }
    }
  }

  lemma {:induction false} RunIsFresh(count: Count, s: System, es: seq<Event>)
    requires Refines(count, s) && Fresh(count, s) && Possible(s, es)
    ensures Fresh(count, Run(s, es))
    decreases |es|
  {
    hide Refines, Fresh;
    if es != [] {
      var e := es[0];
      match e {
        case Call(t, op) => MovedIsFresh(count, s, t, Loading(op), s.count);
        case Return(t) => MovedIsFresh(count, s, t, Idle, s.count);
        case Load(t) => MovedIsFresh(count, s, t, Saw(s.At(t).op, s.count), s.count);
        case Exchange(t, spurious) =>
          if Swaps(s, e) {
            var value := NewValue(s.At(t).op, s.count);
            MovedIsFresh(count, s, t, Finished(s.At(t).op, Returned(s.At(t).op.Dec? && value == 0)), value);
          } else {
            MovedIsFresh(count, s, t, Saw(s.At(t).op, s.count), s.count);
          }
      }
      assert e.Exchange? || Step(s, e).(count := s.count) == Step(s, e);
      StepRefines(count, s, e);
      RunIsFresh(count, Step(s, e), es[1..]);
    }
  }

  lemma {:induction false} SomethingChanged(count: Count, log: seq<Entry>, n: nat) returns (k: nat)
    requires n <= |log| && Replay(count, log[..n]) != Replay(count, log)
    ensures n <= k < |log| && Replay(count, log[..k]) != Replay(count, log[..k + 1])
  {
    assert log[..|log|] == log;
    var less := log[..|log| - 1];
    if Replay(count, less) != Replay(count, log) {
      k := |log| - 1;
    } else {
      assert less[..n] == log[..n];
      k := SomethingChanged(count, less, n);
      assert less[..k] == log[..k] && less[..k + 1] == log[..k + 1];
    }
  }

  lemma StartIsFresh(count: Count)
    ensures Refines(count, Start(count)) && Fresh(count, Start(count))
  {}

  lemma FailureSeen(count: Count, s: System, t: nat) returns (k: nat)
    requires Refines(count, s) && Fresh(count, s) && s.At(t).Trying? && s.At(t).expected != s.count
    ensures k < |s.log| && s.log[k].t != t && Replay(count, s.log[..k]) != Replay(count, s.log[..k + 1])
    ensures exists n: nat :: n <= k && SeenAt(count, s, t, n)
  {
    var n: nat :| n <= |s.log| && SeenAt(count, s, t, n);
    k := SomethingChanged(count, s.log, n);
  }

  /** An exchange that fails though not spuriously fails because a call of another thread has taken effect, and
      changed the count, since the value was seen: the loops cannot keep each other from getting on. */
  lemma FailureIsProgress(count: Count, es: seq<Event>, t: nat) returns (k: nat)
    requires Possible(Start(count), es)
    requires Enabled(Run(Start(count), es), Exchange(t, false)) && !Swaps(Run(Start(count), es), Exchange(t, false))
    ensures var s := Run(Start(count), es);
      && k < |s.log| && s.log[k].t != t && Replay(count, s.log[..k]) != Replay(count, s.log[..k + 1])
      && exists n: nat :: n <= k && SeenAt(count, s, t, n)
  {
    StartIsFresh(count);
    hide Refines, Fresh, Replay;
    RunRefines(count, Start(count), es);
    RunIsFresh(count, Start(count), es);
    k := FailureSeen(count, Run(Start(count), es), t);
  }
}
