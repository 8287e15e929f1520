/** Decoding what was encoded, with the same descriptor or with one that has lost fields. */
module PbRoundTrip {
  import opened Prelude
  import opened PbWire
  import opened PbMessage
  import opened PbFieldIter
  import opened PbEncode
  import opened PbDecode

  // ---- Messages that fit their descriptor ----

  /** A value of the type of the field: numbers in the range of their size, strings with a terminator. */
  predicate FitsValue(f: Field, v: Value)
    decreases f, 0
  {
    match f.ltype
    case Varint => v.Num? && Signed(f.size, v.n)
    case UVarint => v.Num? && 0 <= v.n < Range(f.size)
    case SVarint => v.Num? && Signed(f.size, v.n)
    case Fixed32 => v.Num? && 0 <= v.n < TWO32
    case Fixed64 => v.Num? && 0 <= v.n < TWO64
    case Bytes => v.Blob?
    case Str => v.Blob? && |v.octets| < f.size && 0 !in v.octets
    case FixedBytes => v.Blob? && |v.octets| == f.size
    case Submessage => v.Msg? && FitsMessage(f.sub, v.slots)
    case Extension => true
  }

  predicate Shaped(f: Field, slot: Slot) {
    match f.htype
    case Required => slot.One?
    case Singular => slot.One?
    case Optional => slot.Maybe?
    case Repeated => slot.Many?
    case OneOf => slot.Choice?
  }

  predicate FitsItems(f: Field, items: seq<Value>)
    decreases f, 1, |items|
  {
    items != [] ==> FitsValue(f, items[0]) && FitsItems(f, items[1..])
  }

  predicate FitsSlot(f: Field, slot: Slot)
    decreases f, 2
  {
    && Shaped(f, slot)
    && FitsItems(f, ItemsOf(slot))
    && (Present(f, slot) ==> FitsValue(f, Held(slot)))
  }

  predicate FitsMessage(fields: seq<Field>, slots: Slots)
    decreases fields
  {
    fields != [] ==>
      && fields[0].slot in slots
      && FitsSlot(fields[0], slots[fields[0].slot])
      && FitsMessage(fields[1..], slots)
  }

  // ---- Descriptors ----

  predicate WellFormedField(f: Field)
    decreases f
  {
    && 0 < f.tag < 0x2000_0000
    && (f.ltype.Extension? ==> f.htype.Optional?)
    && (f.ltype.Submessage? ==> WellFormed(f.sub))
  }

  /** Tags are unique, and two fields share a slot only inside a union. */
  predicate Distinct(f: Field, g: Field) {
    f.tag != g.tag && (f.slot == g.slot ==> f.htype.OneOf? && g.htype.OneOf?)
  }

  predicate WellFormed(fields: seq<Field>)
    decreases fields
  {
    && (forall i :: 0 <= i < |fields| ==> WellFormedField(fields[i]))
    && (forall i, j :: 0 <= i < j < |fields| ==> Distinct(fields[i], fields[j]))
  }

  /** g is f, except that fields may be missing from the descriptor of its submessage. */
  predicate PrunedField(g: Field, f: Field)
    decreases f
  {
    && g.tag == f.tag && g.slot == f.slot && g.ltype == f.ltype && g.htype == f.htype
    && g.size == f.size && g.count == f.count && g.init == f.init
    && (f.ltype.Submessage? ==> Pruned(g.sub, f.sub))
  }

  /** small is big with fields removed, at any depth. */
  predicate Pruned(small: seq<Field>, big: seq<Field>)
    decreases big
  {
    if small == [] then true
    else if big == [] then false
    else if small[0].tag == big[0].tag then PrunedField(small[0], big[0]) && Pruned(small[1..], big[1..])
    else Pruned(small, big[1..])
  }

  // ---- What is read back ----

  /** A value as a decoder with descriptor g leaves it that was encoded with f: submessages start from their
      defaults. */
  function ReadValue(g: Field, f: Field, v: Value): Value
    decreases f, 0
  {
    if f.ltype.Submessage? then Msg(ReadMessage(g.sub, f.sub, SlotsOf(v))) else v
  }

  function ReadItems(g: Field, f: Field, items: seq<Value>): (r: seq<Value>)
    ensures |r| == |items|
    decreases f, 1, |items|
  {
    if items == [] then [] else [ReadValue(g, f, items[0])] + ReadItems(g, f, items[1..])
  }

  /** Whether the encoder writes anything for the field. */
  predicate Written(f: Field, slot: Slot) {
    !f.ltype.Extension? && (Present(f, slot) || (f.htype.Repeated? && ItemsOf(slot) != []))
  }

  function ReadSlot(g: Field, f: Field, slot: Slot): Slot
    decreases f, 2
  {
    match g.htype
    case Required => One(ReadValue(g, f, Held(slot)))
    case Singular => One(ReadValue(g, f, Held(slot)))
    case Optional => Maybe(true, ReadValue(g, f, Held(slot)))
    case Repeated => Many(ReadItems(g, f, ItemsOf(slot)))
    case OneOf => Choice(Some(Pick(g.tag, ReadValue(g, f, Held(slot)))))
  }

  /** What one field of a message puts into a struct. */
  function Filled(g: Field, f: Field, slot: Slot, over: Slots): Slots
    decreases f, 3
  {
    if Written(f, slot) then over[g.slot := ReadSlot(g, f, slot)] else over
  }

  /** The fields of a message encoded with big, as far as small has them, put over a struct one after the
      other. */
  function ReadOver(small: seq<Field>, big: seq<Field>, message: Slots, over: Slots): Slots
    decreases big, 0
  {
    if small == [] || big == [] then over
    else if small[0].tag == big[0].tag then
      ReadOver(small[1..], big[1..], message, Filled(small[0], big[0], SlotAt(message, big[0]), over))
    else ReadOver(small, big[1..], message, over)
  }

  /** The message that small finds in one encoded with big: fields that were written, at any depth, and
      defaults elsewhere. */
  function ReadMessage(small: seq<Field>, big: seq<Field>, message: Slots): Slots
    decreases big, 1
  {
    ReadOver(small, big, message, Defaults(small))
  }

  // ---- One value ----

  lemma NumberRoundTrip(g: Field, v: Value, tail: seq<Byte>)
    requires g.ltype.Packable() && FitsValue(g, v) && EncValue(g, v).Some?
    ensures DecNumber(g, EncValue(g, v).value + tail) == Got(v, tail)
  {
    match g.ltype
    case Varint => VarintRoundTrip(TWO64, AsU64(v.n), tail); SignedRoundTrip(g.size, v.n);
    case UVarint => VarintRoundTrip(TWO64, AsU64(v.n), tail); UnsignedFits(g.size, v.n);
    case SVarint => SignedNumber(g, v.n, tail);
    case Fixed32 => FixedNumber(4, v.n, tail);
    case Fixed64 => FixedNumber(8, v.n, tail);
  }

  lemma UnsignedFits(size: nat, n: nat)
    requires n < Range(size)
    ensures AsU64(n) == n && n % Range(size) == n
  {
    assert Range(size) <= TWO64;
  }

  lemma SignedNumber(g: Field, n: int, tail: seq<Byte>)
    requires g.ltype.SVarint? && IntSize(g.size) && Signed(g.size, n)
    ensures DecNumber(g, EncVarint(ZigZag(n)) + tail) == Got(Num(n), tail)
  {
    assert Signed(8, n);
    VarintRoundTrip(TWO64, ZigZag(n), tail);
    ZigZagRoundTrip(n);
    NarrowingIsExact(g.size, n);
  }

  lemma FixedNumber(k: nat, n: nat, tail: seq<Byte>)
    requires (k == 4 && n < TWO32) || (k == 8 && n < TWO64)
    ensures ReadOctets(k, EncFixed(k, AsU64(n)) + tail) == Got(EncFixed(k, n), tail)
    ensures FixedValue(EncFixed(k, n)) == n
  {
    assert AsU64(n) == n;
    WidthsInOctets();
    FixedRoundTrip(k, n);
    OctetsRoundTrip(EncFixed(k, n), tail);
  }

  lemma {:induction false} TextIsWhole(octets: seq<Byte>, size: nat)
    requires |octets| < size && 0 !in octets
    ensures Text(octets, size) == octets
  {
    if octets != [] {
      assert octets[0] in octets;
      TextIsWhole(octets[1..], size - 1);
    }
  }

  lemma BlobRoundTrip(g: Field, v: Value, tail: seq<Byte>)
    requires g.ltype.Bytes? || g.ltype.Str? || g.ltype.FixedBytes?
    requires FitsValue(g, v) && EncValue(g, v).Some? && |EncValue(g, v).value| < TWO32
    ensures DecBlob(g, EncValue(g, v).value + tail) == Got(v, tail)
  {
    var octets := v.octets;
    if g.ltype.Str? { TextIsWhole(octets, g.size); }
    assert EncValue(g, v).value == Delimited(octets);
    assert Delimited(octets) + tail == EncVarint(|octets|) + (octets + tail);
    VarintRoundTrip(TWO32, |octets|, octets + tail);
    RoomForBlob(g, octets);
    OctetsRoundTrip(octets, tail);
  }

  lemma RoomForBlob(g: Field, octets: seq<Byte>)
    requires g.ltype.Bytes? || g.ltype.Str? || g.ltype.FixedBytes?
    requires |octets| + 1 < TWO32 && FitsValue(g, Blob(octets)) && EncValue(g, Blob(octets)).Some?
    ensures RoomFor(g, |octets|)
    ensures g.ltype.FixedBytes? && |octets| == 0 ==> Zeros(g.size) == octets
  {
    assert |EncVarint(|octets|)| >= 1;
  }

  // ---- Skipping consumes exactly what was written ----

  lemma SkipValue(f: Field, v: Value, tail: seq<Byte>)
    requires EncValue(f, v).Some? && |EncValue(f, v).value| < TWO32
    ensures SkipField(f.ltype.WireType(), EncValue(f, v).value + tail) == Some(tail)
  {
    var e := EncValue(f, v).value;
    if f.ltype.Integer() {
      SkipVarintRoundTrip(if f.ltype.SVarint? then ZigZag(NumOf(v)) else AsU64(NumOf(v)), tail);
    } else if f.ltype.Fixed32? || f.ltype.Fixed64? {
      OctetsRoundTrip(e, tail);
    } else {
      var body := BodyOf(f, v);
      DelimitedRoundTrip(body, tail);
    }
  }

  /** What a length-prefixed value has behind its length. */
  function BodyOf(f: Field, v: Value): (body: seq<Byte>)
    requires f.ltype.WireType() == WT_STRING && EncValue(f, v).Some?
    ensures EncValue(f, v).value == Delimited(body)
  {
    match f.ltype
    case Str => Text(OctetsOf(v), f.size)
    case Submessage =>
      assert EncValue(f, v) == EncSubmessage(f, v);
      EncFields(f.sub, SlotsOf(v)).value
    case _ => OctetsOf(v)
  }

  // ---- One field ----

  lemma RunTag(all: seq<Field>, st: State, wireType: nat, tag: nat, s: seq<Byte>)
    requires wireType < 8 && 0 < tag < 0x2000_0000 && Take(all, st, tag, wireType, s).Next?
    ensures var turn := Take(all, st, tag, wireType, s);
            Run(all, st, EncTag(wireType, tag) + s) == Run(all, turn.st, turn.rest)
  {
    TagRoundTrip(wireType, tag, s);
  }

  lemma SkipUnknown(all: seq<Field>, st: State, wireType: nat, tag: nat, s: seq<Byte>, tail: seq<Byte>)
    requires wireType < 8 && 0 < tag < 0x2000_0000
    requires Find(all, tag) == |all| && SkipField(wireType, s) == Some(tail)
    ensures Run(all, st, EncTag(wireType, tag) + s) == Run(all, st, tail)
  {
    RunTag(all, st, wireType, tag, s);
  }

  lemma TaggedParts(f: Field, v: Value)
    requires EncTagged(f, v).Some?
    ensures EncValue(f, v).Some? && EncTagged(f, v).value == EncTagFor(f) + EncValue(f, v).value
  {}

  lemma FailTag(all: seq<Field>, st: State, wireType: nat, tag: nat, s: seq<Byte>)
    requires wireType < 8 && 0 < tag < 0x2000_0000 && Take(all, st, tag, wireType, s).Bad?
    ensures Run(all, st, EncTag(wireType, tag) + s) == Failed
  {
    TagRoundTrip(wireType, tag, s);
  }

  /** A tag that the descriptor does not have is passed over together with its value. */
  lemma SkipTagged(all: seq<Field>, st: State, f: Field, v: Value, tail: seq<Byte>)
    requires WellFormedField(f) && Find(all, f.tag) == |all|
    requires EncTagged(f, v).Some? && |EncTagged(f, v).value| < TWO32
    ensures Run(all, st, EncTagged(f, v).value + tail) == Run(all, st, tail)
  {
    TaggedParts(f, v);
    SkipValue(f, v, tail);
    SkipFrom(all, st, f, EncValue(f, v).value, tail);
  }

  lemma SkipFrom(all: seq<Field>, st: State, f: Field, e: seq<Byte>, tail: seq<Byte>)
    requires 0 < f.tag < 0x2000_0000 && Find(all, f.tag) == |all|
    requires SkipField(f.ltype.WireType(), e + tail) == Some(tail)
    ensures Run(all, st, EncTagFor(f) + e + tail) == Run(all, st, tail)
  {
    Assoc(EncTagFor(f), e, tail);
    SkipUnknown(all, st, f.ltype.WireType(), f.tag, e + tail, tail);
  }

  lemma {:induction false} SkipEach(all: seq<Field>, st: State, f: Field, items: seq<Value>, tail: seq<Byte>)
    requires WellFormedField(f) && Find(all, f.tag) == |all|
    requires EncEach(f, items).Some? && |EncEach(f, items).value| < TWO32
    ensures Run(all, st, EncEach(f, items).value + tail) == Run(all, st, tail)
    decreases |items|
  {
    if items == [] {
      assert [] + tail == tail;
    } else {
      var first, others := EncTagged(f, items[0]).value, EncEach(f, items[1..]).value;
      assert EncEach(f, items).value + tail == first + (others + tail);
      SkipTagged(all, st, f, items[0], others + tail);
      SkipEach(all, st, f, items[1..], tail);
    }
  }

  lemma SkipPacked(all: seq<Field>, st: State, f: Field, body: seq<Byte>, tail: seq<Byte>)
    requires WellFormedField(f) && Find(all, f.tag) == |all| && |body| < TWO32
    ensures Run(all, st, EncTag(WT_STRING, f.tag) + Delimited(body) + tail) == Run(all, st, tail)
  {
    DelimitedRoundTrip(body, tail);
    SkipUnknown(all, st, WT_STRING, f.tag, Delimited(body) + tail, tail);
    assert EncTag(WT_STRING, f.tag) + Delimited(body) + tail == EncTag(WT_STRING, f.tag) + (Delimited(body) + tail);
  }

  /** What the encoder wrote for a field that the descriptor has lost is passed over whole. */
  lemma SkipEncoded(all: seq<Field>, st: State, f: Field, slot: Slot, tail: seq<Byte>)
    requires WellFormedField(f) && Find(all, f.tag) == |all|
    requires EncField(f, slot).Some? && |EncField(f, slot).value| < TWO32
    ensures Run(all, st, EncField(f, slot).value + tail) == Run(all, st, tail)
  {
    assert [] + tail == tail;
    if f.ltype.Extension? {
    } else if f.htype.Repeated? {
      var items := ItemsOf(slot);
      if items == [] {
      } else if f.ltype.Packable() {
        SkipPacked(all, st, f, EncItems(f, items).value, tail);
      } else {
        SkipEach(all, st, f, items, tail);
      }
    } else if Present(f, slot) {
      SkipTagged(all, st, f, Held(slot), tail);
    }
  }

  /** A field that the descriptor has: the item lands in its slot. */
  lemma TakeTagged(all: seq<Field>, st: State, g: Field, wireType: nat, s: seq<Byte>, v: Value, tail: seq<Byte>)
    requires 0 < g.tag < 0x2000_0000 && wireType < 8
    requires Find(all, g.tag) < |all| && all[Find(all, g.tag)] == g
    requires DecValue(g, SlotAt(st.slots, g), s) == Got(v, tail)
    requires g.htype.Repeated? ==> |ItemsOf(SlotAt(st.slots, g))| < g.count
    requires g.htype.Repeated? && g.ltype.Packable() ==> wireType != WT_STRING
    ensures Run(all, st, EncTag(wireType, g.tag) + s) == Run(all, Update(g, st, Refilled(g, SlotAt(st.slots, g), v)), tail)
  {
    RunTag(all, st, wireType, g.tag, s);
  }

  lemma {:induction false} ItemsRoundTrip(g: Field, before: seq<Value>, items: seq<Value>)
    requires g.ltype.Packable() && FitsItems(g, items) && EncItems(g, items).Some?
    requires |before| + |items| <= g.count
    ensures DecItems(g, before, EncItems(g, items).value) == Some(before + items)
    ensures ReadItems(g, g, items) == items
    decreases |items|
  {
    if items == [] {
      assert before + items == before;
    } else {
      var others := EncItems(g, items[1..]).value;
      NumberRoundTrip(g, items[0], others);
      ItemsRoundTrip(g, before + [items[0]], items[1..]);
      assert before + [items[0]] + items[1..] == before + items;
      assert [items[0]] + items[1..] == items;
    }
  }

  lemma TakePacked(all: seq<Field>, st: State, g: Field, items: seq<Value>, tail: seq<Byte>)
    requires WellFormedField(g) && g.htype.Repeated? && g.ltype.Packable()
    requires Find(all, g.tag) < |all| && all[Find(all, g.tag)] == g
    requires FitsItems(g, items) && |items| <= g.count
    requires EncItems(g, items).Some? && |EncItems(g, items).value| < TWO32
    requires SlotAt(st.slots, g) == Many([])
    ensures Run(all, st, EncTag(WT_STRING, g.tag) + Delimited(EncItems(g, items).value) + tail)
         == Run(all, Update(g, st, Many(ReadItems(g, g, items))), tail)
  {
    var body := EncItems(g, items).value;
    ItemsRoundTrip(g, [], items);
    assert [] + items == items;
    DelimitedRoundTrip(body, tail);
    RunTag(all, st, WT_STRING, g.tag, Delimited(body) + tail);
    assert EncTag(WT_STRING, g.tag) + Delimited(body) + tail == EncTag(WT_STRING, g.tag) + (Delimited(body) + tail);
  }

  // ---- Whole messages ----

  /** The two descriptors of one field. */
  predicate Twins(g: Field, f: Field) {
    WellFormedField(g) && WellFormedField(f) && PrunedField(g, f)
  }

  /** The state after a field of an encoded message. */
  function Absorbed(g: Field, f: Field, st: State, slot: Slot): State {
    if Written(f, slot) then Update(g, st, ReadSlot(g, f, slot)) else st
  }

  lemma {:induction false} ValueRoundTrip(g: Field, f: Field, slot: Slot, v: Value, tail: seq<Byte>)
    requires Twins(g, f) && FitsValue(f, v) && !f.ltype.Extension?
    requires EncValue(f, v).Some? && |EncValue(f, v).value| < TWO32
    requires f.ltype.Submessage? ==> Base(g, slot) == Defaults(g.sub)
    ensures DecValue(g, slot, EncValue(f, v).value + tail) == Got(ReadValue(g, f, v), tail)
    decreases f, 0
  {
    if f.ltype.Submessage? {
      var body := EncFields(f.sub, v.slots).value;
      MessageRoundTrip(g.sub, f.sub, v.slots);
      DelimitedRoundTrip(body, tail);
    } else {
      PlainRoundTrip(g, f, slot, v, tail);
    }
  }

  lemma PlainRoundTrip(g: Field, f: Field, slot: Slot, v: Value, tail: seq<Byte>)
    requires g.ltype == f.ltype && g.size == f.size
    requires FitsValue(f, v) && !f.ltype.Extension? && !f.ltype.Submessage?
    requires EncValue(f, v).Some? && |EncValue(f, v).value| < TWO32
    ensures DecValue(g, slot, EncValue(f, v).value + tail) == Got(v, tail)
  {
    assert EncValue(g, v) == EncValue(f, v) && FitsValue(g, v);
    if f.ltype.Packable() {
      NumberRoundTrip(g, v, tail);
    } else {
      BlobRoundTrip(g, v, tail);
    }
  }

  lemma TakeFrom(all: seq<Field>, st: State, g: Field, e: seq<Byte>, v: Value, tail: seq<Byte>)
    requires 0 < g.tag < 0x2000_0000
    requires Find(all, g.tag) < |all| && all[Find(all, g.tag)] == g
    requires DecValue(g, SlotAt(st.slots, g), e + tail) == Got(v, tail)
    requires g.htype.Repeated? ==> !g.ltype.Packable() && |ItemsOf(SlotAt(st.slots, g))| < g.count
    ensures Run(all, st, EncTagFor(g) + e + tail) == Run(all, Update(g, st, Refilled(g, SlotAt(st.slots, g), v)), tail)
  {
    Assoc(EncTagFor(g), e, tail);
    TakeTagged(all, st, g, g.ltype.WireType(), e + tail, v, tail);
  }

  /** One item behind its tag. */
  lemma {:induction false} TaggedRoundTrip(all: seq<Field>, st: State, g: Field, f: Field, v: Value, tail: seq<Byte>)
    requires Twins(g, f) && FitsValue(f, v) && !f.ltype.Extension?
    requires EncTagged(f, v).Some? && |EncTagged(f, v).value| < TWO32
    requires Find(all, g.tag) < |all| && all[Find(all, g.tag)] == g
    requires f.ltype.Submessage? ==> Base(g, SlotAt(st.slots, g)) == Defaults(g.sub)
    requires g.htype.Repeated? ==> !g.ltype.Packable() && |ItemsOf(SlotAt(st.slots, g))| < g.count
    ensures Run(all, st, EncTagged(f, v).value + tail)
         == Run(all, Update(g, st, Refilled(g, SlotAt(st.slots, g), ReadValue(g, f, v))), tail)
    decreases f, 1
  {
    var e := EncValue(f, v).value;
    TaggedParts(f, v);
    assert EncTagFor(f) == EncTagFor(g);
    ValueRoundTrip(g, f, SlotAt(st.slots, g), v, tail);
    TakeFrom(all, st, g, e, ReadValue(g, f, v), tail);
  }

  /** More items at the end of an array. */
  function Extended(g: Field, st: State, before: seq<Value>, items: seq<Value>): State {
    if items == [] then st else Update(g, st, Many(before + items))
  }

  lemma ExtendedJoins(g: Field, st: State, before: seq<Value>, v: Value, items: seq<Value>)
    ensures Extended(g, Extended(g, st, before, [v]), before + [v], items) == Extended(g, st, before, [v] + items)
  {
    UpdateTwice(g, st, Many(before + [v]), Many(before + [v] + items));
    assert before + ([v] + items) == before + [v] + items;
    if items == [] { assert before + [v] + items == before + [v]; }
  }

  lemma {:induction false} EachRoundTrip(all: seq<Field>, st: State, g: Field, f: Field, before: seq<Value>,
                                         items: seq<Value>, tail: seq<Byte>)
    requires Twins(g, f) && FitsItems(f, items) && f.htype.Repeated? && !f.ltype.Packable() && !f.ltype.Extension?
    requires EncEach(f, items).Some? && |EncEach(f, items).value| < TWO32
    requires Find(all, g.tag) < |all| && all[Find(all, g.tag)] == g
    requires SlotAt(st.slots, g) == Many(before) && |before| + |items| <= g.count
    ensures Run(all, st, EncEach(f, items).value + tail) == Run(all, Extended(g, st, before, ReadItems(g, f, items)), tail)
    decreases f, 2, |items|
  {
    if items == [] {
      assert [] + tail == tail;
    } else {
      var others := EncEach(f, items[1..]).value;
      var v := ReadValue(g, f, items[0]);
      assert EncEach(f, items).value + tail == EncTagged(f, items[0]).value + (others + tail);
      TaggedRoundTrip(all, st, g, f, items[0], others + tail);
      EachRoundTrip(all, Extended(g, st, before, [v]), g, f, before + [v], items[1..], tail);
      ExtendedJoins(g, st, before, v, ReadItems(g, f, items[1..]));
    }
  }

  lemma UpdateTwice(g: Field, st: State, first: Slot, second: Slot)
    ensures Update(g, Update(g, st, first), second) == Update(g, st, second)
  {
    assert st.slots[g.slot := first][g.slot := second] == st.slots[g.slot := second];
    assert st.seen + {g.tag} + {g.tag} == st.seen + {g.tag};
  }

  /** A slot that no field has been read into yet. */
  predicate Fresh(g: Field, slots: Slots) {
    g.slot in slots && (!g.htype.OneOf? ==> slots[g.slot] == InitSlot(g))
  }

  lemma FreshBase(g: Field, slots: Slots)
    requires Fresh(g, slots) && g.ltype.Submessage?
    ensures Base(g, SlotAt(slots, g)) == Defaults(g.sub)
  {
    assert InitValue(g) == Msg(Defaults(g.sub));
  }

  lemma AbsorbedArray(g: Field, f: Field, st: State, slot: Slot)
    requires g.htype == f.htype && f.htype.Repeated? && !f.ltype.Extension?
    ensures Absorbed(g, f, st, slot) == Extended(g, st, [], ReadItems(g, f, ItemsOf(slot)))
  {
    assert [] + ReadItems(g, f, ItemsOf(slot)) == ReadItems(g, f, ItemsOf(slot));
  }

  lemma AbsorbedOne(g: Field, f: Field, st: State, slot: Slot, before: Slot)
    requires g.htype == f.htype && !f.htype.Repeated? && !f.ltype.Extension? && Present(f, slot)
    ensures Absorbed(g, f, st, slot) == Update(g, st, Refilled(g, before, ReadValue(g, f, Held(slot))))
  {}

  /** Everything written for a field that the descriptor has. */
  lemma {:induction false} FieldRoundTrip(all: seq<Field>, st: State, g: Field, f: Field, slot: Slot, tail: seq<Byte>)
    requires Twins(g, f) && FitsSlot(f, slot)
    requires EncField(f, slot).Some? && |EncField(f, slot).value| < TWO32
    requires Find(all, g.tag) <= |all| && (!g.ltype.Extension? ==> Find(all, g.tag) < |all| && all[Find(all, g.tag)] == g)
    requires Fresh(g, st.slots)
    ensures Run(all, st, EncField(f, slot).value + tail) == Run(all, Absorbed(g, f, st, slot), tail)
    decreases f, 3
  {
    assert [] + tail == tail;
    if f.ltype.Extension? {
    } else if f.htype.Repeated? {
      AbsorbedArray(g, f, st, slot);
      ArrayRoundTrip(all, st, g, f, ItemsOf(slot), tail);
    } else if Present(f, slot) {
      if f.ltype.Submessage? { FreshBase(g, st.slots); }
      AbsorbedOne(g, f, st, slot, SlotAt(st.slots, g));
      TaggedRoundTrip(all, st, g, f, Held(slot), tail);
    }
  }

  lemma {:induction false} ArrayRoundTrip(all: seq<Field>, st: State, g: Field, f: Field, items: seq<Value>, tail: seq<Byte>)
    requires Twins(g, f) && FitsItems(f, items) && f.htype.Repeated? && !f.ltype.Extension?
    requires EncArray(f, items).Some? && |EncArray(f, items).value| < TWO32
    requires Find(all, g.tag) < |all| && all[Find(all, g.tag)] == g
    requires SlotAt(st.slots, g) == Many([])
    ensures Run(all, st, EncArray(f, items).value + tail) == Run(all, Extended(g, st, [], ReadItems(g, f, items)), tail)
    decreases f, 2, |items| + 1
  {
    if items == [] {
      assert [] + tail == tail;
    } else if f.ltype.Packable() {
      SameItems(g, f, items);
      assert [] + ReadItems(g, f, items) == ReadItems(g, f, items);
      TakePacked(all, st, g, items, tail);
    } else {
      EachRoundTrip(all, st, g, f, [], items, tail);
    }
  }

  /** Numbers are encoded without looking at the rest of the descriptor. */
  lemma {:induction false} SameItems(g: Field, f: Field, items: seq<Value>)
    requires f.ltype.Packable() && g.ltype == f.ltype && g.size == f.size
    ensures EncItems(g, items) == EncItems(f, items)
    ensures FitsItems(g, items) == FitsItems(f, items)
    ensures ReadItems(g, g, items) == ReadItems(g, f, items)
    decreases |items|
  {
    if items != [] { SameItems(g, f, items[1..]); }
  }

  predicate Separate(done: seq<Field>, big: seq<Field>) {
    forall i, j :: 0 <= i < |done| && 0 <= j < |big| ==> done[i].tag != big[j].tag
  }

  function RequiredTags(fields: seq<Field>): set<nat> {
    if fields == [] then {}
    else (if fields[0].htype.Required? then {fields[0].tag} else {}) + RequiredTags(fields[1..])
  }

  lemma {:induction false} AllRequired(fields: seq<Field>)
    ensures Complete(fields, RequiredTags(fields))
  {
    if fields != [] { AllRequired(fields[1..]); }
  }

  /** A field of a pruned descriptor is one of the full descriptor, but for fields missing further down. */
  lemma {:induction false} PrunedKind(small: seq<Field>, big: seq<Field>, i: nat) returns (j: nat)
    requires Pruned(small, big) && i < |small|
    ensures j < |big| && PrunedField(small[i], big[j])
    decreases big
  {
    if small[0].tag == big[0].tag {
      if i == 0 { return 0; }
      j := PrunedKind(small[1..], big[1..], i - 1);
    } else {
      j := PrunedKind(small, big[1..], i);
    }
    j := j + 1;
  }

  lemma TailIsWellFormed(fields: seq<Field>)
    requires fields != [] && WellFormed(fields)
    ensures WellFormed(fields[1..]) && WellFormedField(fields[0])
    ensures forall i :: 0 <= i < |fields[1..]| ==> Distinct(fields[0], fields[1..][i])
  {
    assert forall i :: 0 <= i < |fields[1..]| ==> fields[1..][i] == fields[i + 1];
  }

  /** A field that was removed is found nowhere in the pruned descriptor. */
  lemma RemovedTag(all: seq<Field>, done: seq<Field>, small: seq<Field>, big: seq<Field>)
    requires all == done + small && big != [] && WellFormed(big) && Separate(done, big)
    requires Pruned(small, big[1..])
    ensures Find(all, big[0].tag) == |all|
  {
    var tag := big[0].tag;
    TailIsWellFormed(big);
    forall i | 0 <= i < |small| ensures small[i].tag != tag {
      var j := PrunedKind(small, big[1..], i);
    }
    assert forall i :: 0 <= i < |all| ==> all[i].tag != tag;
  }

  lemma KeptTag(all: seq<Field>, done: seq<Field>, small: seq<Field>, big: seq<Field>)
    requires all == done + small && big != [] && small != [] && Separate(done, big) && small[0].tag == big[0].tag
    requires !small[0].ltype.Extension?
    ensures Find(all, small[0].tag) == |done| && all[|done|] == small[0]
  {
    assert all[|done|] == small[0];
    assert forall i :: 0 <= i < |done| ==> all[i] == done[i] && all[i].tag != big[0].tag;
  }

  predicate AllFresh(fields: seq<Field>, slots: Slots) {
    forall i :: 0 <= i < |fields| ==> Fresh(fields[i], slots)
  }

  lemma AbsorbedStaysFresh(small: seq<Field>, f: Field, st: State, slot: Slot)
    requires small != [] && WellFormed(small) && AllFresh(small, st.slots)
    ensures AllFresh(small[1..], Absorbed(small[0], f, st, slot).slots)
  {
    TailIsWellFormed(small);
    var slots := Absorbed(small[0], f, st, slot).slots;
    forall i | 0 <= i < |small[1..]| ensures Fresh(small[1..][i], slots) {
      assert small[1..][i] == small[i + 1];
      assert Fresh(small[i + 1], st.slots) && Distinct(small[0], small[1..][i]);
    }
  }

  /** A field whose value is required is always written. */
  lemma AbsorbedIsSeen(g: Field, f: Field, st: State, slot: Slot)
    requires Twins(g, f)
    ensures Absorbed(g, f, st, slot).seen == st.seen + if g.htype.Required? then {g.tag} else {}
  {}

  lemma MessageParts(big: seq<Field>, m: Slots)
    requires big != [] && FitsMessage(big, m) && EncFields(big, m).Some?
    ensures FitsMessage(big[1..], m) && FitsSlot(big[0], SlotAt(m, big[0]))
    ensures EncField(big[0], SlotAt(m, big[0])).Some? && EncFields(big[1..], m).Some?
    ensures EncFields(big, m).value == EncField(big[0], SlotAt(m, big[0])).value + EncFields(big[1..], m).value
  {}

  lemma RunNothing(all: seq<Field>, m: Slots, st: State, tail: seq<Byte>)
    ensures Run(all, st, EncFields([], m).value + tail)
         == Run(all, State(ReadOver([], [], m, st.slots), st.seen + RequiredTags([])), tail)
  {
    assert [] + tail == tail && st.seen + {} == st.seen;
  }

  /** The octets of the fields still to come, decoded over what the fields before them left. */
  lemma {:induction false} RunMessage(all: seq<Field>, done: seq<Field>, small: seq<Field>, big: seq<Field>, m: Slots,
                                      st: State, tail: seq<Byte>)
    requires all == done + small && WellFormed(small) && WellFormed(big)
    requires Separate(done, big) && Pruned(small, big)
    requires FitsMessage(big, m) && EncFields(big, m).Some? && |EncFields(big, m).value| < TWO32
    requires AllFresh(small, st.slots)
    ensures Run(all, st, EncFields(big, m).value + tail)
         == Run(all, State(ReadOver(small, big, m, st.slots), st.seen + RequiredTags(small)), tail)
    decreases big, 0
  {
    if big == [] {
      RunNothing(all, m, st, tail);
    } else {
      MessageParts(big, m);
      var e0, e1 := EncField(big[0], SlotAt(m, big[0])).value, EncFields(big[1..], m).value;
      assert e0 + e1 + tail == e0 + (e1 + tail);
      if small == [] || small[0].tag != big[0].tag {
        RunRemoved(all, done, small, big, m, st, e1, tail);
      } else {
        RunKept(all, done, small, big, m, st, e1, tail);
      }
    }
  }

  lemma {:induction false} RunRemoved(all: seq<Field>, done: seq<Field>, small: seq<Field>, big: seq<Field>, m: Slots,
                                      st: State, e1: seq<Byte>, tail: seq<Byte>)
    requires all == done + small && WellFormed(small) && WellFormed(big)
    requires big != [] && Separate(done, big) && Pruned(small, big[1..]) && (small == [] || small[0].tag != big[0].tag)
    requires FitsMessage(big, m) && EncFields(big, m).Some? && |EncFields(big, m).value| < TWO32
    requires AllFresh(small, st.slots)
    requires EncFields(big[1..], m) == Some(e1)
    ensures Run(all, st, EncField(big[0], SlotAt(m, big[0])).value + (e1 + tail))
         == Run(all, State(ReadOver(small, big, m, st.slots), st.seen + RequiredTags(small)), tail)
    decreases big, 0, 0
  {
    MessageParts(big, m);
    TailIsWellFormed(big);
    RemovedTag(all, done, small, big);
    SkipEncoded(all, st, big[0], SlotAt(m, big[0]), e1 + tail);
    assert Separate(done, big[1..]);
    RunMessage(all, done, small, big[1..], m, st, tail);
  }

  lemma {:induction false} RunKept(all: seq<Field>, done: seq<Field>, small: seq<Field>, big: seq<Field>, m: Slots,
                                   st: State, e1: seq<Byte>, tail: seq<Byte>)
    requires all == done + small && WellFormed(small) && WellFormed(big)
    requires big != [] && small != [] && small[0].tag == big[0].tag
    requires Separate(done, big) && Pruned(small, big)
    requires FitsMessage(big, m) && EncFields(big, m).Some? && |EncFields(big, m).value| < TWO32
    requires AllFresh(small, st.slots)
    requires EncFields(big[1..], m) == Some(e1)
    ensures Run(all, st, EncField(big[0], SlotAt(m, big[0])).value + (e1 + tail))
         == Run(all, State(ReadOver(small, big, m, st.slots), st.seen + RequiredTags(small)), tail)
    decreases big, 0, 0
  {
    var g, f := small[0], big[0];
    var slot := SlotAt(m, f);
    MessageParts(big, m);
    TailIsWellFormed(big);
    TailIsWellFormed(small);
    if !g.ltype.Extension? { KeptTag(all, done, small, big); }
    assert Fresh(g, st.slots);
    FieldRoundTrip(all, st, g, f, slot, e1 + tail);
    var st1 := Absorbed(g, f, st, slot);
    AbsorbedStaysFresh(small, f, st, slot);
    SeparateNext(done, small, big);
    RunMessage(all, done + [g], small[1..], big[1..], m, st1, tail);
    AbsorbedIsSeen(g, f, st, slot);
    assert st1.seen + RequiredTags(small[1..]) == st.seen + RequiredTags(small);
  }

  lemma SeparateNext(done: seq<Field>, small: seq<Field>, big: seq<Field>)
    requires small != [] && big != [] && WellFormed(big) && Separate(done, big) && small[0].tag == big[0].tag
    ensures Separate(done + [small[0]], big[1..])
    ensures done + small == done + [small[0]] + small[1..]
  {
    TailIsWellFormed(big);
    assert forall j :: 0 <= j < |big[1..]| ==> big[1..][j] == big[j + 1];
  }

  lemma {:induction false} DefaultsAreFresh(fields: seq<Field>)
    requires WellFormed(fields)
    ensures AllFresh(fields, Defaults(fields))
  {
    if fields != [] {
      var n := |fields| - 1;
      var front := fields[..n];
      assert forall i :: 0 <= i < n ==> front[i] == fields[i];
      DefaultsAreFresh(front);
      forall i | 0 <= i < |fields| ensures Fresh(fields[i], Defaults(fields)) {
        if i < n {
          assert Fresh(front[i], Defaults(front)) && Distinct(fields[i], fields[n]);
        }
      }
    }
  }

  /** Decoding an encoded message with the descriptor it was encoded with, or with one that has lost
      fields at any depth, reads back the message as that descriptor sees it. */
  lemma {:induction false} MessageRoundTrip(small: seq<Field>, big: seq<Field>, m: Slots)
    requires WellFormed(small) && WellFormed(big) && Pruned(small, big)
    requires FitsMessage(big, m) && EncFields(big, m).Some? && |EncFields(big, m).value| < TWO32
    ensures Decode(small, Defaults(small), EncFields(big, m).value) == Some(ReadMessage(small, big, m))
    decreases big, 1
  {
    var e := EncFields(big, m).value;
    var st := State(Defaults(small), {});
    DefaultsAreFresh(small);
    assert [] + small == small && e + [] == e;
    RunMessage(small, [], small, big, m, st, []);
    assert {} + RequiredTags(small) == RequiredTags(small);
    AllRequired(small);
  }
}
