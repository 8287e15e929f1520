/** Message descriptors and message values of nanopb, for static allocation. */
module PbMessage {
  import opened Prelude
  import opened PbWire

  /** PB_LTYPE, in the order of its numbering: the first five can be packed. */
  datatype LType = Varint | UVarint | SVarint | Fixed32 | Fixed64 | Bytes | Str | Submessage | Extension | FixedBytes {
    predicate Packable() {
      Varint? || UVarint? || SVarint? || Fixed32? || Fixed64?
    }

    predicate Integer() {
      Varint? || UVarint? || SVarint?
    }

    /** The wire type of pb_encode_tag_for_field. */
    function WireType(): (w: nat)
      ensures w < 8
    {
      if Integer() then WT_VARINT
      else if Fixed32? then WT_32BIT
      else if Fixed64? then WT_64BIT
      else WT_STRING
    }
  }

  /** PB_HTYPE. Singular is an optional field without a has_ flag, the proto3 style. */
  datatype HType = Required | Optional | Singular | Repeated | OneOf

  /** A pb_field_t. slot names the place in the struct: the members of one union share it. size is
      data_size, count is array_size, sub the descriptor of a submessage, init the default value.
      The two offsets matter to the field iterator alone. */
  datatype Field = Field(tag: nat, slot: nat, ltype: LType, htype: HType, size: nat, count: nat,
                         sub: seq<Field>, init: Value, dataOffset: nat, sizeOffset: int)

  /** One item: a number, a run of octets (for a string, those before the terminator) or a struct. */
  datatype Value = Num(n: int) | Blob(octets: seq<Byte>) | Msg(slots: map<nat, Slot>)

  /** A union holds the tag of the member in use and its value. */
  datatype Pick = Pick(tag: nat, value: Value)

  /** A place in a struct. */
  datatype Slot = One(value: Value) | Maybe(has: bool, value: Value) | Many(items: seq<Value>) | Choice(pick: Option<Pick>)

  type Slots = map<nat, Slot>

  function NumOf(v: Value): int {
    if v.Num? then v.n else 0
  }

  function OctetsOf(v: Value): seq<Byte> {
    if v.Blob? then v.octets else []
  }

  function SlotsOf(v: Value): Slots {
    if v.Msg? then v.slots else map[]
  }

  // ---- Defaults ----

  /** pb_field_set_to_default: has flags cleared, arrays emptied, unions unset, data initialised. */
  function InitSlot(f: Field): Slot
    decreases f, 1
  {
    match f.htype
    case Required => One(InitValue(f))
    case Singular => One(InitValue(f))
    case Optional => Maybe(false, InitValue(f))
    case Repeated => Many([])
    case OneOf => Choice(None)
  }

  function InitValue(f: Field): Value
    decreases f, 0
  {
    if f.ltype.Submessage? then Msg(Defaults(f.sub)) else f.init
  }

  /** pb_message_set_to_defaults. */
  function Defaults(fields: seq<Field>): Slots
    decreases fields, 0
  {
    if fields == [] then map[]
    else Defaults(fields[..|fields| - 1])[fields[|fields| - 1].slot := InitSlot(fields[|fields| - 1])]
  }

  function SlotAt(slots: Slots, f: Field): Slot {
    if f.slot in slots then slots[f.slot] else InitSlot(f)
  }

  // ---- Looking up a field ----

  /** The position of the field a tag names, passing over the extension placeholder. */
  function Find(fields: seq<Field>, tag: nat): (i: nat)
    ensures i <= |fields|
    ensures i < |fields| ==> fields[i].tag == tag && !fields[i].ltype.Extension?
    ensures forall k :: 0 <= k < i ==> fields[k].tag != tag || fields[k].ltype.Extension?
  {
    if fields == [] then 0
    else if fields[0].tag == tag && !fields[0].ltype.Extension? then 0
    else
      var i := Find(fields[1..], tag);
      assert forall k :: 1 <= k < 1 + i ==> fields[k] == fields[1..][k - 1];
      1 + i
  }
}
