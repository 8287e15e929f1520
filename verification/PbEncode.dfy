/** What pb_encode.c writes for a message, as a function of the descriptor and the message. */
module PbEncode {
  import opened Prelude
  import opened PbWire
  import opened PbMessage

  /** Two encoders in a row; a failure of either is a failure. */
  function Join(a: Option<seq<Byte>>, b: Option<seq<Byte>>): (s: Option<seq<Byte>>)
    ensures s.Some? <==> a.Some? && b.Some?
    ensures s.Some? ==> s.value == a.value + b.value
  {
    if a.Some? && b.Some? then Some(a.value + b.value) else None
  }

  /** The characters of a string: up to the first NUL, and at most the size of the array. */
  function Text(octets: seq<Byte>, size: nat): (text: seq<Byte>)
    ensures |text| <= size && text <= octets
    ensures forall k :: 0 <= k < |text| ==> octets[k] != 0
    ensures |text| == size || |text| == |octets| || octets[|text|] == 0
  {
    if octets == [] || size == 0 || octets[0] == 0 then []
    else [octets[0]] + Text(octets[1..], size - 1)
  }

  /** A field encoder, without the tag. */
  function EncValue(f: Field, v: Value): Option<seq<Byte>>
    decreases f, 1
  {
    match f.ltype
    case Varint => if IntSize(f.size) then Some(EncVarint(AsU64(NumOf(v)))) else None
    case UVarint => if IntSize(f.size) then Some(EncVarint(AsU64(NumOf(v)))) else None
    case SVarint => if IntSize(f.size) then Some(EncVarint(ZigZag(NumOf(v)))) else None
    case Fixed32 => Some(EncFixed(4, AsU64(NumOf(v))))
    case Fixed64 => Some(EncFixed(8, AsU64(NumOf(v))))
    case Bytes => if |OctetsOf(v)| + BYTES_HEADER > f.size then None else Some(Delimited(OctetsOf(v)))
    case Str => Some(Delimited(Text(OctetsOf(v), f.size)))
    case FixedBytes => Some(Delimited(OctetsOf(v)))
    case Submessage => EncSubmessage(f, v)
    case Extension => None
  }

  function EncSubmessage(f: Field, v: Value): Option<seq<Byte>>
    decreases f, 0
  {
    var body := EncFields(f.sub, SlotsOf(v));
    if body.Some? then Some(Delimited(body.value)) else None
  }

  function EncTagFor(f: Field): seq<Byte> {
    EncTag(f.ltype.WireType(), f.tag)
  }

  function EncTagged(f: Field, v: Value): Option<seq<Byte>>
    decreases f, 2
  {
    Join(Some(EncTagFor(f)), EncValue(f, v))
  }

  /** The items of a packed array, without tag and length. */
  function EncItems(f: Field, items: seq<Value>): Option<seq<Byte>>
    decreases f, 2, |items|
  {
    if items == [] then Some([]) else Join(EncValue(f, items[0]), EncItems(f, items[1..]))
  }

  /** The items of an array, each behind its tag. */
  function EncEach(f: Field, items: seq<Value>): Option<seq<Byte>>
    decreases f, 3, |items|
  {
    if items == [] then Some([]) else Join(EncTagged(f, items[0]), EncEach(f, items[1..]))
  }

  /** encode_array: numbers are always packed. */
  function EncArray(f: Field, items: seq<Value>): Option<seq<Byte>>
    decreases f, 4
  {
    if items == [] then Some([])
    else if |items| > f.count then None
    else if f.ltype.Packable() then
      var body := EncItems(f, items);
      if body.Some? then Some(EncTag(WT_STRING, f.tag) + Delimited(body.value)) else None
    else EncEach(f, items)
  }

  /** pb_check_proto3_default_value. A struct is zero if all its members are, whether or not they are in use:
      a value counts whatever its has_ flag says, and an array by its first entry. */
  predicate IsZero(f: Field, v: Value)
    decreases f, 0
  {
    match f.ltype
    case Bytes => OctetsOf(v) == []
    case Str => OctetsOf(v) == [] || OctetsOf(v)[0] == 0
    case FixedBytes => f.size == 0
    case Submessage => AllZero(f.sub, SlotsOf(v))
    case Extension => true
    case _ => NumOf(v) == 0
  }

  predicate AllZero(fields: seq<Field>, slots: Slots)
    decreases fields
  {
    fields != [] ==> ZeroSlot(fields[0], SlotAt(slots, fields[0])) && AllZero(fields[1..], slots)
  }

  /** Memory that no value uses is zero, and so is that of a union for all members but the one in use: an unused
      field counts as zero unless it has fixed-length bytes in it. */
  predicate ZeroSlot(f: Field, slot: Slot)
    decreases f, 1
  {
    match slot
    case One(v) => IsZero(f, v)
    case Maybe(_, v) => IsZero(f, v)
    case Many(items) => if items == [] then Blank(f) else IsZero(f, items[0])
    case Choice(pick) => if pick.None? || pick.value.tag != f.tag then Blank(f) else IsZero(f, pick.value.value)
  }

  predicate Blank(f: Field)
    decreases f
  {
    && (f.ltype.FixedBytes? ==> f.size == 0)
    && (f.ltype.Submessage? ==> AllBlank(f.sub))
  }

  predicate AllBlank(fields: seq<Field>)
    decreases fields
  {
    fields != [] ==> Blank(fields[0]) && AllBlank(fields[1..])
  }

  /** Whether a field that is not repeated is written. */
  predicate Present(f: Field, slot: Slot) {
    match f.htype
    case Required => true
    case Optional => slot.Maybe? && slot.has
    case Singular => slot.One? && !IsZero(f, slot.value)
    case Repeated => false
    case OneOf => slot.Choice? && slot.pick.Some? && slot.pick.value.tag == f.tag
  }

  /** The value in a slot that holds one. */
  function Held(slot: Slot): Value {
    match slot
    case One(v) => v
    case Maybe(_, v) => v
    case Choice(Some(pick)) => pick.value
    case _ => Num(0)
  }

  function ItemsOf(slot: Slot): seq<Value> {
    if slot.Many? then slot.items else []
  }

  /** encode_field; the extension placeholder, with nothing registered, writes nothing. */
  function EncField(f: Field, slot: Slot): Option<seq<Byte>>
    decreases f, 5
  {
    if f.ltype.Extension? then Some([])
    else if f.htype.Repeated? then EncArray(f, ItemsOf(slot))
    else if Present(f, slot) then EncTagged(f, Held(slot))
    else Some([])
  }

  /** pb_encode. */
  function EncFields(fields: seq<Field>, slots: Slots): Option<seq<Byte>>
    decreases fields
  {
    if fields == [] then Some([])
    else Join(EncField(fields[0], SlotAt(slots, fields[0])), EncFields(fields[1..], slots))
  }

  /** offsetof(pb_bytes_array_t, bytes) with 32-bit sizes. */
  const BYTES_HEADER := 4

  /** Fixed-width items make a packed array of a size that needs no sizing pass. */
  lemma {:induction false} FixedItemsSize(f: Field, items: seq<Value>)
    requires f.ltype.Fixed32? || f.ltype.Fixed64?
    ensures EncItems(f, items).Some?
    ensures |EncItems(f, items).value| == (if f.ltype.Fixed32? then 4 else 8) * |items|
  {
    if items != [] { FixedItemsSize(f, items[1..]); }
  }
}
