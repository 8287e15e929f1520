/** Laws of the decoder on any stream: packed arrays, repeated submessages, cut-off tags, long strings. */
module PbLaws {
  import opened Prelude
  import opened PbWire
  import opened PbMessage
  import opened PbEncode
  import opened PbDecode
  import opened PbRoundTrip

  // ---- A packed array is its items one by one ----

  /** Octets that are one item of the field and nothing else. */
  predicate IsItem(f: Field, part: seq<Byte>)
    requires f.ltype.Packable()
  {
    DecNumber(f, part).Got? && DecNumber(f, part).rest == []
  }

  predicate AreItems(f: Field, parts: seq<seq<Byte>>)
    requires f.ltype.Packable()
  {
    forall i :: 0 <= i < |parts| ==> IsItem(f, parts[i])
  }

  function Values(f: Field, parts: seq<seq<Byte>>): (vs: seq<Value>)
    requires f.ltype.Packable() && AreItems(f, parts)
    ensures |vs| == |parts|
  {
    if parts == [] then [] else [DecNumber(f, parts[0]).value] + Values(f, parts[1..])
  }

  /** Each item behind a tag of its own. */
  function EachTagged(wireType: nat, tag: nat, parts: seq<seq<Byte>>): seq<Byte> {
    if parts == [] then [] else EncTag(wireType, tag) + parts[0] + EachTagged(wireType, tag, parts[1..])
  }

  lemma ItemThen(f: Field, part: seq<Byte>, rest: seq<Byte>)
    requires f.ltype.Packable() && IsItem(f, part)
    ensures part + rest != [] && DecNumber(f, part + rest) == Got(DecNumber(f, part).value, rest)
  {
    NumberIsLocal(f, part, rest);
    assert [] + rest == rest;
  }

  lemma {:induction false} PackedItems(f: Field, before: seq<Value>, parts: seq<seq<Byte>>)
    requires f.ltype.Packable() && AreItems(f, parts)
    ensures DecItems(f, before, Joined(parts))
         == if parts == [] || |before| + |parts| <= f.count then Some(before + Values(f, parts)) else None
    decreases |parts|
  {
    if parts == [] {
      assert before + [] == before;
    } else {
      assert IsItem(f, parts[0]);
      ItemThen(f, parts[0], Joined(parts[1..]));
      if |before| < f.count {
        var v := DecNumber(f, parts[0]).value;
        PackedItems(f, before + [v], parts[1..]);
        assert before + [v] + Values(f, parts[1..]) == before + ([v] + Values(f, parts[1..]));
      }
    }
  }

  /** What a number of items does to a repeated field, or nothing when the array overflows. */
  function Grown(f: Field, st: State, before: seq<Value>, items: seq<Value>): Option<State> {
    if items == [] then Some(st)
    else if |before| + |items| <= f.count then Some(Extended(f, st, before, items))
    else None
  }

  function RunFrom(fields: seq<Field>, st: Option<State>, s: seq<Byte>): Outcome {
    if st.Some? then Run(fields, st.value, s) else Failed
  }

  predicate RepeatedNumber(fields: seq<Field>, f: Field) {
    && f.htype.Repeated? && f.ltype.Packable() && 0 < f.tag < 0x2000_0000
    && Find(fields, f.tag) < |fields| && fields[Find(fields, f.tag)] == f
  }

  lemma RunTake(fields: seq<Field>, st: State, wireType: nat, tag: nat, s: seq<Byte>)
    requires wireType < 8 && 0 < tag < 0x2000_0000
    ensures var turn := Take(fields, st, tag, wireType, s);
            Run(fields, st, EncTag(wireType, tag) + s) == if turn.Next? then Run(fields, turn.st, turn.rest) else Failed
  {
    if Take(fields, st, tag, wireType, s).Next? {
      RunTag(fields, st, wireType, tag, s);
    } else {
      FailTag(fields, st, wireType, tag, s);
    }
  }

  lemma RunPacked(fields: seq<Field>, f: Field, st: State, parts: seq<seq<Byte>>, tail: seq<Byte>)
    requires RepeatedNumber(fields, f) && AreItems(f, parts) && parts != [] && |Joined(parts)| < TWO32
    ensures Run(fields, st, EncTag(WT_STRING, f.tag) + Delimited(Joined(parts)) + tail)
         == RunFrom(fields, Grown(f, st, ItemsOf(SlotAt(st.slots, f)), Values(f, parts)), tail)
  {
    var body := Joined(parts);
    PackedItems(f, ItemsOf(SlotAt(st.slots, f)), parts);
    DelimitedRoundTrip(body, tail);
    Assoc(EncTag(WT_STRING, f.tag), Delimited(body), tail);
    RunTake(fields, st, WT_STRING, f.tag, Delimited(body) + tail);
  }

  lemma TakeItem(fields: seq<Field>, f: Field, st: State, wireType: nat, s: seq<Byte>, v: Value, tail: seq<Byte>)
    requires RepeatedNumber(fields, f) && DecNumber(f, s) == Got(v, tail) && wireType != WT_STRING
    ensures var items := ItemsOf(SlotAt(st.slots, f));
            Take(fields, st, f.tag, wireType, s)
            == if |items| < f.count then Next(Update(f, st, Many(items + [v])), tail) else Bad
  {
    var slot := SlotAt(st.slots, f);
    assert DecValue(f, slot, s) == Got(v, tail);
    assert DecField(f, slot, wireType, s)
        == if |ItemsOf(slot)| < f.count then Got(Many(ItemsOf(slot) + [v]), tail) else Broken(s);
  }

  lemma RunItem(fields: seq<Field>, f: Field, st: State, wireType: nat, part: seq<Byte>, tail: seq<Byte>)
    requires RepeatedNumber(fields, f) && IsItem(f, part) && wireType < 8 && wireType != WT_STRING
    ensures Run(fields, st, EncTag(wireType, f.tag) + part + tail)
         == RunFrom(fields, Grown(f, st, ItemsOf(SlotAt(st.slots, f)), [DecNumber(f, part).value]), tail)
  {
    ItemThen(f, part, tail);
    Assoc(EncTag(wireType, f.tag), part, tail);
    TakeItem(fields, f, st, wireType, part + tail, DecNumber(f, part).value, tail);
    RunTake(fields, st, wireType, f.tag, part + tail);
  }

  lemma GrownTwice(f: Field, st: State, before: seq<Value>, v: Value, items: seq<Value>)
    requires |before| < f.count
    ensures Grown(f, Extended(f, st, before, [v]), before + [v], items) == Grown(f, st, before, [v] + items)
  {
    ExtendedJoins(f, st, before, v, items);
    if items == [] { assert [v] + items == [v]; }
  }

  lemma {:induction false} RunEach(fields: seq<Field>, f: Field, st: State, wireType: nat, parts: seq<seq<Byte>>, tail: seq<Byte>)
    requires RepeatedNumber(fields, f) && AreItems(f, parts) && wireType < 8 && wireType != WT_STRING
    ensures Run(fields, st, EachTagged(wireType, f.tag, parts) + tail)
         == RunFrom(fields, Grown(f, st, ItemsOf(SlotAt(st.slots, f)), Values(f, parts)), tail)
    decreases |parts|
  {
    if parts == [] {
      assert [] + tail == tail;
    } else {
      assert IsItem(f, parts[0]);
      var before := ItemsOf(SlotAt(st.slots, f));
      var v := DecNumber(f, parts[0]).value;
      var rest := EachTagged(wireType, f.tag, parts[1..]);
      Assoc(EncTag(wireType, f.tag) + parts[0], rest, tail);
      RunItem(fields, f, st, wireType, parts[0], rest + tail);
      if |before| < f.count {
        RunEach(fields, f, Extended(f, st, before, [v]), wireType, parts[1..], tail);
        GrownTwice(f, st, before, v, Values(f, parts[1..]));
      }
    }
  }

  /** A packed array decodes like the same items sent one per tag, with any other wire type on the tags;
      the two overflow together. */
  lemma PackedLikeUnpacked(fields: seq<Field>, f: Field, st: State, wireType: nat, parts: seq<seq<Byte>>, tail: seq<Byte>)
    requires RepeatedNumber(fields, f) && AreItems(f, parts) && parts != [] && |Joined(parts)| < TWO32
    requires wireType < 8 && wireType != WT_STRING
    ensures Run(fields, st, EncTag(WT_STRING, f.tag) + Delimited(Joined(parts)) + tail)
         == Run(fields, st, EachTagged(wireType, f.tag, parts) + tail)
  {
    RunPacked(fields, f, st, parts, tail);
    RunEach(fields, f, st, wireType, parts, tail);
  }

  // ---- Submessages sent in parts ----

  function WithSeen(o: Outcome, seen: set<nat>): Outcome {
    match o
    case Clean(st) => Clean(State(st.slots, seen + st.seen))
    case Stopped(st, rest) => Stopped(State(st.slots, seen + st.seen), rest)
    case Failed => Failed
  }

  function TurnWithSeen(t: Turn, seen: set<nat>): Turn {
    if t.Next? then Next(State(t.st.slots, seen + t.st.seen), t.rest) else t
  }

  lemma StepSeen(fields: seq<Field>, st: State, seen: set<nat>, s: seq<Byte>)
    ensures Step(fields, State(st.slots, seen + st.seen), s) == TurnWithSeen(Step(fields, st, s), seen)
  {
    match DecTag(s)
    case Tag(wireType, tag, rest) =>
      var i := Find(fields, tag);
      if i < |fields| {
        assert seen + (st.seen + {fields[i].tag}) == seen + st.seen + {fields[i].tag};
      }
    case EndOfMessage(_) =>
    case BadTag =>
  }

  /** Which required fields were met before plays no part in the struct. */
  lemma {:induction false} RunSeen(fields: seq<Field>, st: State, seen: set<nat>, s: seq<Byte>)
    ensures Run(fields, State(st.slots, seen + st.seen), s) == WithSeen(Run(fields, st, s), seen)
    decreases |s|
  {
    if s != [] {
      StepSeen(fields, st, seen, s);
      var t := Step(fields, st, s);
      if t.Next? {
        RunSeen(fields, t.st, seen, t.rest);
      }
    }
  }

  /** A message whose octets end after a whole field and which has its required fields. */
  predicate Whole(fields: seq<Field>, slots: Slots, s: seq<Byte>) {
    var o := Run(fields, State(slots, {}), s);
    o.Clean? && Complete(fields, o.st.seen)
  }

  /** Two messages decoded one over the other are their concatenation decoded at once. */
  lemma DecodeMerges(fields: seq<Field>, slots: Slots, a: seq<Byte>, b: seq<Byte>)
    requires Whole(fields, slots, a) && Decode(fields, Run(fields, State(slots, {}), a).st.slots, b).Some?
    ensures Decode(fields, slots, a).Some?
    ensures Decode(fields, slots, a + b) == Decode(fields, Decode(fields, slots, a).value, b)
  {
    var st := Run(fields, State(slots, {}), a).st;
    RunIsAFold(fields, State(slots, {}), a, b);
    RunSeen(fields, State(st.slots, {}), st.seen, b);
    assert st.seen + {} == st.seen;
  }

  /** A submessage field sent twice. The value is merged into the one before, except in a union: there it
      replaces it. */
  lemma SubmessageTwice(f: Field, slot: Slot, a: seq<Byte>, b: seq<Byte>, tail: seq<Byte>)
    requires f.ltype.Submessage? && !f.htype.Repeated? && |a| + |b| < TWO32
    requires Whole(f.sub, Base(f, slot), a)
    requires DecValue(f, Refilled(f, slot, Msg(Run(f.sub, State(Base(f, slot), {}), a).st.slots)), Delimited(b) + tail).Got?
    ensures var first := DecValue(f, slot, Delimited(a) + tail);
            first.Got?
            && DecValue(f, Refilled(f, slot, first.value), Delimited(b) + tail)
            == if f.htype.OneOf? then DecValue(f, slot, Delimited(b) + tail) else DecValue(f, slot, Delimited(a + b) + tail)
  {
    DelimitedRoundTrip(a, tail);
    DelimitedRoundTrip(b, tail);
    DelimitedRoundTrip(a + b, tail);
    if !f.htype.OneOf? {
      DecodeMerges(f.sub, Base(f, slot), a, b);
    }
  }

  // ---- Where the decoder is lenient, and where it is not ----

  predicate AllContinue(s: seq<Byte>) {
    forall i :: 0 <= i < |s| ==> s[i] >= 128
  }

  /** The weight of the last of n octets of a varint. */
  function LastWeight(weight: nat, n: nat): nat
    decreases n
  {
    if n <= 1 then weight else LastWeight(128 * weight, n - 1)
  }

  lemma {:induction false} CutVarint(limit: nat, s: seq<Byte>, weight: nat, acc: nat)
    requires weight > 0 && limit > 0 && AllContinue(s)
    requires s != [] ==> LastWeight(weight, |s|) < limit
    ensures DecVarintFrom(limit, s, weight, acc) == Broken([])
    decreases |s|
  {
    if s != [] {
      Grows(weight, |s|);
      CutVarint(limit, s[1..], 128 * weight, (acc + s[0] % 128 * weight) % limit);
    }
  }

  lemma {:induction false} Grows(weight: nat, n: nat)
    ensures weight <= LastWeight(weight, n)
    decreases n
  {
    if n > 1 { Grows(128 * weight, n - 1); }
  }

  /** A message cut off inside the tag of its last field, after at most five octets of the tag, decodes
      like the message without that tag. */
  lemma CutTagIsTheEnd(fields: seq<Field>, slots: Slots, a: seq<Byte>, cut: seq<Byte>)
    requires Run(fields, State(slots, {}), a).Clean?
    requires 1 <= |cut| <= 5 && AllContinue(cut)
    ensures Decode(fields, slots, a + cut) == Decode(fields, slots, a)
  {
    RunIsAFold(fields, State(slots, {}), a, cut);
    CutTag(cut);
  }

  lemma CutTag(cut: seq<Byte>)
    requires 1 <= |cut| <= 5 && AllContinue(cut)
    ensures DecTag(cut) == EndOfMessage([])
  {
    assert LastWeight(1, 1) <= LastWeight(1, 5) == LastWeight(128 * 128, 3) == 0x1000_0000;
    assert LastWeight(1, 2) == 128 && LastWeight(1, 3) == LastWeight(128, 2) == 0x4000;
    assert LastWeight(1, 4) == LastWeight(128 * 128, 2) == 0x20_0000;
    CutVarint(TWO32, cut, 1, 0);
  }

  /** A string field that fills its array leaves no room for the terminator: the encoder writes it, and the
      decoder takes it back exactly when it is shorter than the array. */
  lemma StringNeedsATerminator(f: Field, octets: seq<Byte>, slot: Slot, tail: seq<Byte>)
    requires f.ltype.Str? && f.size < TWO32
    ensures EncValue(f, Blob(octets)).Some?
    ensures DecValue(f, slot, EncValue(f, Blob(octets)).value + tail).Got? <==> |Text(octets, f.size)| < f.size
  {
    var text := Text(octets, f.size);
    Assoc(EncVarint(|text|), text, tail);
    VarintRoundTrip(TWO32, |text|, text + tail);
    OctetsRoundTrip(text, tail);
    RoomForText(f, |text|);
  }

  lemma RoomForText(f: Field, length: nat)
    requires f.ltype.Str? && length <= f.size < TWO32
    ensures RoomFor(f, length) <==> length < f.size
  {}
}
