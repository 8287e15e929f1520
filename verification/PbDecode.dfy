/** What pb_decode.c makes of a stream of octets, as a fold over the fields found in it. */
module PbDecode {
  import opened Prelude
  import opened PbWire
  import opened PbMessage
  import opened PbEncode

  // ---- Values ----

  /** pb_dec_varint, pb_dec_uvarint, pb_dec_svarint, pb_dec_fixed32, pb_dec_fixed64. */
  function DecNumber(f: Field, s: seq<Byte>): (r: Read<Value>)
    requires f.ltype.Packable()
    ensures r.Got? ==> |r.rest| < |s|
  {
    if f.ltype.Integer() then
      var u := DecVarint(TWO64, s);
      if u.Broken? then Broken(u.rest)
      else
        var n := Narrowed(f, u.value);
        if n.Some? then Got(Num(n.value), u.rest) else Broken(u.rest)
    else
      var octets := ReadOctets(if f.ltype.Fixed32? then 4 else 8, s);
      if octets.Got? then Got(Num(FixedValue(octets.value)), octets.rest) else Broken(s)
  }

  /** The cast of a varint to a field: nothing when its value does not survive. */
  function Narrowed(f: Field, u: nat): Option<int>
    requires f.ltype.Integer() && u < TWO64
  {
    if !IntSize(f.size) then None
    else if f.ltype.Varint? then DecSigned(f.size, u)
    else if f.ltype.UVarint? then if u % Range(f.size) == u then Some(u) else None
    else if SignedCast(Range(f.size), UnZigZag(u)) == UnZigZag(u) then Some(UnZigZag(u))
    else None
  }

  /** The checks of pb_dec_bytes, pb_dec_string and pb_dec_fixed_length_bytes on a length. The string
      check computes length + 1 in 32 bits. */
  predicate RoomFor(f: Field, length: nat) {
    if f.ltype.Bytes? then length + BYTES_HEADER <= f.size
    else if f.ltype.Str? then var room := (length + 1) % TWO32; length <= room <= f.size
    else length == 0 || length == f.size
  }

  function DecBlob(f: Field, s: seq<Byte>): (r: Read<Value>)
    ensures r.Got? ==> |r.rest| < |s|
  {
    var length := DecVarint(TWO32, s);
    if length.Broken? || !RoomFor(f, length.value) then Broken(length.rest)
    else if f.ltype.FixedBytes? && length.value == 0 then Got(Blob(Zeros(f.size)), length.rest)
    else
      var octets := ReadOctets(length.value, length.rest);
      if octets.Got? then Got(Blob(octets.value), octets.rest) else Broken(length.rest)
  }

  function Zeros(n: nat): (s: seq<Byte>)
    ensures |s| == n && forall k :: 0 <= k < n ==> s[k] == 0
  {
    seq(n, _ => 0)
  }

  /** The state of the struct that a submessage is read over: new array entries and union members start
      from the defaults, everything else merges. */
  function Base(f: Field, slot: Slot): Slots {
    if f.htype.Repeated? || f.htype.OneOf? then Defaults(f.sub) else SlotsOf(Held(slot))
  }

  /** A field decoder reading one item. */
  function DecValue(f: Field, slot: Slot, s: seq<Byte>): (r: Read<Value>)
    ensures r.Got? ==> |r.rest| < |s|
    decreases f, 0
  {
    if f.ltype.Packable() then DecNumber(f, s)
    else if f.ltype.Submessage? then
      var body := DecDelimited(s);
      if body.Broken? then Broken(s)
      else
        var slots := Decode(f.sub, Base(f, slot), body.value);
        if slots.Some? then Got(Msg(slots.value), body.rest) else Broken(s)
    else if f.ltype.Extension? then Broken(s)
    else DecBlob(f, s)
  }

  // ---- Fields ----

  /** The items of a packed array, appended until its octets are used up. */
  function DecItems(f: Field, items: seq<Value>, s: seq<Byte>): Option<seq<Value>>
    requires f.ltype.Packable()
    decreases |s|
  {
    if s == [] then Some(items)
    else if |items| >= f.count then None
    else
      var item := DecNumber(f, s);
      if item.Broken? then None else DecItems(f, items + [item.value], item.rest)
  }

  function DecPacked(f: Field, items: seq<Value>, s: seq<Byte>): (r: Read<Slot>)
    requires f.ltype.Packable()
    ensures r.Got? ==> |r.rest| < |s|
  {
    var body := DecDelimited(s);
    if body.Broken? then Broken(s)
    else
      var all := DecItems(f, items, body.value);
      if all.Some? then Got(Many(all.value), body.rest) else Broken(s)
  }

  /** decode_static_field: the new contents of the field's slot. */
  function DecField(f: Field, slot: Slot, wireType: nat, s: seq<Byte>): (r: Read<Slot>)
    ensures r.Got? ==> |r.rest| < |s|
    decreases f, 1
  {
    if f.htype.Repeated? && wireType == WT_STRING && f.ltype.Packable() then DecPacked(f, ItemsOf(slot), s)
    else if f.htype.Repeated? && |ItemsOf(slot)| >= f.count then Broken(s)
    else
      var v := DecValue(f, slot, s);
      if v.Got? then Got(Refilled(f, slot, v.value), v.rest) else Broken(s)
  }

  function Refilled(f: Field, slot: Slot, v: Value): Slot {
    match f.htype
    case Required => One(v)
    case Singular => One(v)
    case Optional => Maybe(true, v)
    case Repeated => Many(ItemsOf(slot) + [v])
    case OneOf => Choice(Some(Pick(f.tag, v)))
  }

  // ---- Messages ----

  /** A message being decoded: the struct, and the tags of the required fields met so far. */
  datatype State = State(slots: Slots, seen: set<nat>)

  /** One turn of the main loop: a field taken, the end of the message, or an error. */
  datatype Turn = Next(st: State, rest: seq<Byte>) | End(rest: seq<Byte>) | Bad

  function Update(f: Field, st: State, slot: Slot): State {
    State(st.slots[f.slot := slot], if f.htype.Required? then st.seen + {f.tag} else st.seen)
  }

  /** A tag that names no field is skipped, except that tag 0 hits the terminator of an empty descriptor,
      which no decoder accepts. Wire types are not held against the field. */
  function Take(fields: seq<Field>, st: State, tag: nat, wireType: nat, s: seq<Byte>): (t: Turn)
    ensures t.Next? ==> |t.rest| < |s|
    ensures !t.End?
    decreases fields, 0
  {
    var i := Find(fields, tag);
    if i < |fields| then
      var slot := DecField(fields[i], SlotAt(st.slots, fields[i]), wireType, s);
      if slot.Got? then Next(Update(fields[i], st, slot.value), slot.rest) else Bad
    else if fields == [] && tag == 0 then Bad
    else
      var rest := SkipField(wireType, s);
      if rest.Some? then Next(st, rest.value) else Bad
  }

  function Step(fields: seq<Field>, st: State, s: seq<Byte>): (t: Turn)
    ensures t.Next? ==> |t.rest| < |s|
    decreases fields, 1
  {
    match DecTag(s)
    case Tag(wireType, tag, rest) => Take(fields, st, tag, wireType, rest)
    case EndOfMessage(rest) => End(rest)
    case BadTag => Bad
  }

  /** How the main loop ends: octets used up after a whole field, a stop inside a tag or at a zero, or
      an error. */
  datatype Outcome = Clean(st: State) | Stopped(st: State, rest: seq<Byte>) | Failed

  function Run(fields: seq<Field>, st: State, s: seq<Byte>): Outcome
    decreases fields, 2, |s|
  {
    if s == [] then Clean(st)
    else
      match Step(fields, st, s)
      case Next(st1, rest) => Run(fields, st1, rest)
      case End(rest) => Stopped(st, rest)
      case Bad => Failed
  }

  /** Every required field has occurred. */
  predicate Complete(fields: seq<Field>, seen: set<nat>) {
    forall i :: 0 <= i < |fields| && fields[i].htype.Required? ==> fields[i].tag in seen
  }

  function Checked(fields: seq<Field>, o: Outcome): Option<Slots> {
    if !o.Failed? && Complete(fields, o.st.seen) then Some(o.st.slots) else None
  }

  /** pb_decode_noinit: over a struct that has contents already. */
  function Decode(fields: seq<Field>, slots: Slots, s: seq<Byte>): Option<Slots>
    decreases fields, 3
  {
    Checked(fields, Run(fields, State(slots, {}), s))
  }

  /** pb_decode. */
  function DecodeNew(fields: seq<Field>, s: seq<Byte>): Option<Slots> {
    Decode(fields, Defaults(fields), s)
  }

  // ---- Every read is local: what follows does not matter ----

  lemma NumberIsLocal(f: Field, s: seq<Byte>, more: seq<Byte>)
    requires f.ltype.Packable() && DecNumber(f, s).Got?
    ensures DecNumber(f, s + more) == Got(DecNumber(f, s).value, DecNumber(f, s).rest + more)
  {
    if f.ltype.Integer() {
      VarintIsLocal(TWO64, s, more);
    } else {
      OctetsAreLocal(if f.ltype.Fixed32? then 4 else 8, s, more);
    }
  }

  lemma BlobIsLocal(f: Field, s: seq<Byte>, more: seq<Byte>)
    requires DecBlob(f, s).Got?
    ensures DecBlob(f, s + more) == Got(DecBlob(f, s).value, DecBlob(f, s).rest + more)
  {
    VarintIsLocal(TWO32, s, more);
    var length := DecVarint(TWO32, s);
    if !(f.ltype.FixedBytes? && length.value == 0) {
      OctetsAreLocal(length.value, length.rest, more);
    }
  }

  lemma ValueIsLocal(f: Field, slot: Slot, s: seq<Byte>, more: seq<Byte>)
    requires DecValue(f, slot, s).Got?
    ensures DecValue(f, slot, s + more) == Got(DecValue(f, slot, s).value, DecValue(f, slot, s).rest + more)
  {
    if f.ltype.Packable() {
      NumberIsLocal(f, s, more);
    } else if f.ltype.Submessage? {
      DelimitedIsLocal(s, more);
    } else {
      BlobIsLocal(f, s, more);
    }
  }

  lemma FieldIsLocal(f: Field, slot: Slot, wireType: nat, s: seq<Byte>, more: seq<Byte>)
    requires DecField(f, slot, wireType, s).Got?
    ensures DecField(f, slot, wireType, s + more)
         == Got(DecField(f, slot, wireType, s).value, DecField(f, slot, wireType, s).rest + more)
  {
    if f.htype.Repeated? && wireType == WT_STRING && f.ltype.Packable() {
      DelimitedIsLocal(s, more);
    } else {
      ValueIsLocal(f, slot, s, more);
    }
  }

  lemma TakeIsLocal(fields: seq<Field>, st: State, tag: nat, wireType: nat, s: seq<Byte>, more: seq<Byte>)
    requires Take(fields, st, tag, wireType, s).Next?
    ensures Take(fields, st, tag, wireType, s + more)
         == Next(Take(fields, st, tag, wireType, s).st, Take(fields, st, tag, wireType, s).rest + more)
  {
    var i := Find(fields, tag);
    if i < |fields| {
      FieldIsLocal(fields[i], SlotAt(st.slots, fields[i]), wireType, s, more);
    } else {
      SkipIsLocal(wireType, s, more);
    }
  }

  lemma StepIsLocal(fields: seq<Field>, st: State, s: seq<Byte>, more: seq<Byte>)
    requires Step(fields, st, s).Next?
    ensures Step(fields, st, s + more) == Next(Step(fields, st, s).st, Step(fields, st, s).rest + more)
  {
    TagIsLocal(s, more);
    var t := DecTag(s);
    TakeIsLocal(fields, st, t.tag, t.wireType, t.rest, more);
  }

  // ---- The main loop is a fold ----

  /** A stream cut after a whole field: the second part is decoded from where the first part led. */
  lemma {:induction false} RunIsAFold(fields: seq<Field>, st: State, a: seq<Byte>, b: seq<Byte>)
    requires Run(fields, st, a).Clean?
    ensures Run(fields, st, a + b) == Run(fields, Run(fields, st, a).st, b)
    decreases |a|
  {
    if a == [] {
      assert a + b == b;
    } else {
      StepIsLocal(fields, st, a, b);
      var turn := Step(fields, st, a);
      RunIsAFold(fields, turn.st, turn.rest, b);
    }
  }

  /** One field and nothing else. */
  predicate OneField(fields: seq<Field>, st: State, s: seq<Byte>) {
    Step(fields, st, s).Next? && Step(fields, st, s).rest == []
  }

  lemma OneFieldThen(fields: seq<Field>, st: State, a: seq<Byte>, b: seq<Byte>)
    requires OneField(fields, st, a)
    ensures Run(fields, st, a + b) == Run(fields, Step(fields, st, a).st, b)
  {
    StepIsLocal(fields, st, a, b);
    assert [] + b == b;
  }

  /** The position of the field that a stream starts with; past the end for an unknown one. */
  function FieldOf(fields: seq<Field>, s: seq<Byte>): (i: nat)
    requires DecTag(s).Tag?
    ensures i <= |fields|
  {
    Find(fields, DecTag(s).tag)
  }

  /** The fields of two streams do not live in the same place of the struct. */
  predicate Apart(fields: seq<Field>, a: seq<Byte>, b: seq<Byte>)
    requires DecTag(a).Tag? && DecTag(b).Tag?
  {
    var i, j := FieldOf(fields, a), FieldOf(fields, b);
    i == |fields| || j == |fields| || fields[i].slot != fields[j].slot
  }

  /** What the field at position i reads from a stream that starts with its tag. */
  function ReadAs(fields: seq<Field>, st: State, i: nat, s: seq<Byte>): Read<Slot>
    requires i < |fields| && DecTag(s).Tag?
  {
    DecField(fields[i], SlotAt(st.slots, fields[i]), DecTag(s).wireType, DecTag(s).rest)
  }

  lemma KnownField(fields: seq<Field>, st: State, s: seq<Byte>)
    requires DecTag(s).Tag? && FieldOf(fields, s) < |fields|
    ensures var i := FieldOf(fields, s);
            var slot := ReadAs(fields, st, i, s);
            Step(fields, st, s) == if slot.Got? then Next(Update(fields[i], st, slot.value), slot.rest) else Bad
  {}

  lemma UnknownField(fields: seq<Field>, st: State, s: seq<Byte>)
    requires DecTag(s).Tag? && FieldOf(fields, s) == |fields|
    ensures var rest := SkipField(DecTag(s).wireType, DecTag(s).rest);
            Step(fields, st, s) == if (fields == [] && DecTag(s).tag == 0) || rest.None? then Bad else Next(st, rest.value)
  {}

  /** A field read elsewhere in the struct does not change what a field decodes to. */
  lemma StepCommutes(fields: seq<Field>, st: State, a: seq<Byte>, b: seq<Byte>)
    requires OneField(fields, st, a) && OneField(fields, st, b) && Apart(fields, a, b)
    ensures OneField(fields, Step(fields, st, a).st, b) && OneField(fields, Step(fields, st, b).st, a)
    ensures Step(fields, Step(fields, st, a).st, b).st == Step(fields, Step(fields, st, b).st, a).st
  {
    var i, j := FieldOf(fields, a), FieldOf(fields, b);
    if i == |fields| {
      UnknownField(fields, st, a);
      UnknownField(fields, Step(fields, st, b).st, a);
    } else if j == |fields| {
      UnknownField(fields, st, b);
      UnknownField(fields, Step(fields, st, a).st, b);
    } else {
      KnownField(fields, st, a);
      KnownField(fields, st, b);
      KnownField(fields, Step(fields, st, a).st, b);
      KnownField(fields, Step(fields, st, b).st, a);
      UpdatesCommute(fields[i], fields[j], st, ReadAs(fields, st, i, a).value, ReadAs(fields, st, j, b).value);
    }
  }

  lemma UpdatesCommute(f: Field, g: Field, st: State, s1: Slot, s2: Slot)
    requires f.slot != g.slot
    ensures Update(g, Update(f, st, s1), s2) == Update(f, Update(g, st, s2), s1)
  {
    assert st.slots[f.slot := s1][g.slot := s2] == st.slots[g.slot := s2][f.slot := s1];
  }

  /** Swapping two fields that are not in one slot (two tags outside a common union) changes nothing. */
  lemma SwapFields(fields: seq<Field>, st: State, a: seq<Byte>, b: seq<Byte>, c: seq<Byte>)
    requires OneField(fields, st, a) && OneField(fields, st, b) && Apart(fields, a, b)
    ensures Run(fields, st, a + b + c) == Run(fields, st, b + a + c)
  {
    StepCommutes(fields, st, a, b);
    assert a + b + c == a + (b + c) && b + a + c == b + (a + c);
    OneFieldThen(fields, st, a, b + c);
    OneFieldThen(fields, Step(fields, st, a).st, b, c);
    OneFieldThen(fields, st, b, a + c);
    OneFieldThen(fields, Step(fields, st, b).st, a, c);
  }
}
