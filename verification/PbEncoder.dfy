/** pb_encode and its field encoders, writing to a stream, against the octets PbEncode prescribes. */
module PbEncoder {
  import opened Prelude
  import opened PbWire
  import opened PbMessage
  import opened PbFieldIter
  import opened PbEncode
  import opened PbOutput

  // ---- Sizes a machine can hold ----

  predicate SizedValue(f: Field, v: Value)
    decreases f, 0
  {
    && (EncValue(f, v).Some? ==> |EncValue(f, v).value| < TWO64)
    && |OctetsOf(v)| < TWO64
    && (f.ltype.Submessage? ==> Sized(f.sub, SlotsOf(v)))
  }

  predicate SizedSlot(f: Field, slot: Slot)
    decreases f, 2
  {
    && f.tag < TWO32
    && (!f.htype.Repeated? ==> SizedValue(f, Held(slot)))
    && SizedItems(f, ItemsOf(slot))
  }

  predicate SizedItems(f: Field, items: seq<Value>)
    decreases f, 1
  {
    && (forall i :: 0 <= i < |items| ==> SizedValue(f, items[i]))
    && (EncItems(f, items).Some? ==> |EncItems(f, items).value| < TWO64)
  }

  /** Tags have 32 bits, and no encoding at any depth has 2^64 octets. */
  predicate Sized(fields: seq<Field>, slots: Slots)
    decreases fields
  {
    forall i :: 0 <= i < |fields| ==> SizedSlot(fields[i], SlotAt(slots, fields[i]))
  }

  // ---- Scalars ----

  method EncodeNumber(s: OStream, f: Field, v: Value) returns (ok: bool)
    requires s.Valid() && f.ltype.Packable()
    modifies s, s.buf
    ensures s.Valid() && Wrote(s.Limit(), old(s.Snap()), s.Snap(), EncValue(f, v), ok)
  {
    if f.ltype.Integer() && !IntSize(f.size) {
      return false;
    }
    if f.ltype.SVarint? {
      ok := s.EncodeVarint(ZigZag(NumOf(v)));
    } else if f.ltype.Integer() {
      ok := s.EncodeVarint(AsU64(NumOf(v)));
    } else {
      ok := s.Write(EncFixed(if f.ltype.Fixed32? then 4 else 8, AsU64(NumOf(v))));
    }
  }

  method EncodeBlob(s: OStream, f: Field, v: Value) returns (ok: bool)
    requires s.Valid() && (f.ltype.Bytes? || f.ltype.Str? || f.ltype.FixedBytes?) && |OctetsOf(v)| < TWO64
    modifies s, s.buf
    ensures s.Valid() && Wrote(s.Limit(), old(s.Snap()), s.Snap(), EncValue(f, v), ok)
  {
    if f.ltype.Bytes? && |OctetsOf(v)| + BYTES_HEADER > f.size {
      return false;
    }
    var octets := OctetsOf(v);
    if f.ltype.Str? {
      octets := StringText(octets, f.size);
    }
    ok := s.EncodeString(octets);
  }

  /** The length loop of pb_enc_string. */
  method StringText(octets: seq<Byte>, maxSize: nat) returns (text: seq<Byte>)
    ensures text == Text(octets, maxSize)
  {
    var size := 0;
    while size < maxSize && size < |octets| && octets[size] != 0
      invariant size <= maxSize && size <= |octets|
      invariant forall k :: 0 <= k < size ==> octets[k] != 0
    {
      size := size + 1;
    }
    TextIsPrefix(octets, maxSize, size);
    return octets[..size];
  }

  lemma TextIsPrefix(octets: seq<Byte>, maxSize: nat, size: nat)
    requires size <= |octets| && size <= maxSize && forall k :: 0 <= k < size ==> octets[k] != 0
    requires size == maxSize || size == |octets| || octets[size] == 0
    ensures Text(octets, maxSize) == octets[..size]
  {
    var text := Text(octets, maxSize);
    assert text == octets[..|text|];
    assert |text| == size;
  }

  method EncodeTagFor(s: OStream, f: Field) returns (ok: bool)
    requires s.Valid() && f.tag < TWO32
    modifies s, s.buf
    ensures s.Valid() && Wrote(s.Limit(), old(s.Snap()), s.Snap(), Some(EncTagFor(f)), ok)
  {
    ok := s.EncodeTag(f.ltype.WireType(), f.tag);
  }

  // ---- Messages ----

  /** Field by field, with the octets done and those to come. */
  ghost predicate Progress(all: Option<seq<Byte>>, done: seq<Byte>, rest: Option<seq<Byte>>) {
    all == Join(Some(done), rest)
  }

  lemma Advance(all: Option<seq<Byte>>, done: seq<Byte>, next: seq<Byte>, rest: Option<seq<Byte>>)
    requires Progress(all, done, Join(Some(next), rest))
    ensures Progress(all, done + next, rest)
  {
    assert rest.Some? ==> done + (next + rest.value) == done + next + rest.value;
  }

  lemma FieldsFrom(fields: seq<Field>, slots: Slots, i: nat)
    requires i < |fields|
    ensures EncFields(fields[i..], slots)
         == Join(EncField(fields[i], SlotAt(slots, fields[i])), EncFields(fields[i + 1..], slots))
  {
    assert fields[i..][1..] == fields[i + 1..];
  }

  /** One more part written, or the whole abandoned. */
  lemma WroteNext(room: Room, s0: Taken, s1: Taken, s2: Taken, all: Option<seq<Byte>>, done: seq<Byte>,
                  next: Option<seq<Byte>>, rest: Option<seq<Byte>>, ok: bool)
    requires Wrote(room, s0, s1, Some(done), true) && Wrote(room, s1, s2, next, ok)
    requires Progress(all, done, Join(next, rest))
    ensures !ok ==> Wrote(room, s0, s2, all, false)
    ensures ok ==> Wrote(room, s0, s2, Some(done + next.value), true) && Progress(all, done + next.value, rest)
  {
    WroteBoth(room, s0, s1, s2, Some(done), next, ok);
    if ok { Advance(all, done, next.value, rest); }
  }

  /** pb_encode. */
  method EncodeFields(s: OStream, fields: seq<Field>, slots: Slots) returns (ok: bool)
    requires s.Valid() && Sized(fields, slots)
    modifies s, s.buf
    ensures s.Valid() && Wrote(s.Limit(), old(s.Snap()), s.Snap(), EncFields(fields, slots), ok)
    decreases fields, 1
  {
    hide Wrote, Progress;
    ghost var s0 := s.Snap();
    ghost var done: seq<Byte> := [];
    ghost var i := 0;
    NothingYet(s.Limit(), s0, EncFields(fields, slots));
    assert fields[0..] == fields;
    var iter := new FieldIter(fields);
    var more := iter.Begin();
    while more
      invariant s.Valid() && fresh(iter) && iter.Valid() && iter.fields == fields
      invariant i <= |fields| && UpTo(s.Limit(), s0, s.Snap(), fields, slots, i, done)
      invariant more == (i < |fields|) && (more ==> i == iter.pos)
      decreases |fields| - i
    {
      ok := EncodeNext(s, fields, slots, iter.pos, s0, done);
      if !ok {
        return;
      }
      done := done + EncField(fields[i], SlotAt(slots, fields[i])).value;
      i := i + 1;
      more := iter.Next();
    }
    Finished(s.Limit(), s0, s.Snap(), fields, slots, done);
    return true;
  }

  /** The stream has taken the octets of the first i fields. */
  ghost predicate UpTo(room: Room, s0: Taken, s1: Taken, fields: seq<Field>, slots: Slots, i: nat, done: seq<Byte>)
    requires i <= |fields|
  {
    && Wrote(room, s0, s1, Some(done), true)
    && Progress(EncFields(fields, slots), done, EncFields(fields[i..], slots))
  }

  /** One turn of pb_encode's loop. */
  method EncodeNext(s: OStream, fields: seq<Field>, slots: Slots, i: nat, ghost s0: Taken, ghost done: seq<Byte>)
    returns (ok: bool)
    requires s.Valid() && Sized(fields, slots) && i < |fields|
    requires UpTo(s.Limit(), s0, s.Snap(), fields, slots, i, done)
    modifies s, s.buf
    ensures s.Valid()
    ensures !ok ==> Wrote(s.Limit(), s0, s.Snap(), EncFields(fields, slots), false)
    ensures ok ==> EncField(fields[i], SlotAt(slots, fields[i])).Some?
    ensures ok ==> UpTo(s.Limit(), s0, s.Snap(), fields, slots, i + 1,
                        done + EncField(fields[i], SlotAt(slots, fields[i])).value)
    decreases fields, 0
  {
    ghost var s1 := s.Snap();
    var f := fields[i];
    ok := EncodeField(s, f, SlotAt(slots, f));
    FieldsFrom(fields, slots, i);
    WroteNext(s.Limit(), s0, s1, s.Snap(), EncFields(fields, slots), done, EncField(f, SlotAt(slots, f)),
      EncFields(fields[i + 1..], slots), ok);
  }

  lemma Finished(room: Room, s0: Taken, s1: Taken, fields: seq<Field>, slots: Slots, done: seq<Byte>)
    requires UpTo(room, s0, s1, fields, slots, |fields|, done)
    ensures Wrote(room, s0, s1, EncFields(fields, slots), true)
  {
    assert fields[|fields|..] == [];
    NothingLeft(EncFields(fields, slots), done);
  }

  /** encode_field and encode_basic_field. */
  method EncodeField(s: OStream, f: Field, slot: Slot) returns (ok: bool)
    requires s.Valid() && SizedSlot(f, slot)
    modifies s, s.buf
    ensures s.Valid() && Wrote(s.Limit(), old(s.Snap()), s.Snap(), EncField(f, slot), ok)
    decreases f, 5
  {
    WroteNothing(s.Limit(), s.Snap());
    if f.ltype.Extension? {
      return true;
    }
    if f.htype.Repeated? {
      ok := EncodeArray(s, f, ItemsOf(slot));
    } else if Present(f, slot) {
      ok := EncodeTagged(s, f, Held(slot));
    } else {
      return true;
    }
  }

  method EncodeTagged(s: OStream, f: Field, v: Value) returns (ok: bool)
    requires s.Valid() && f.tag < TWO32 && SizedValue(f, v)
    modifies s, s.buf
    ensures s.Valid() && Wrote(s.Limit(), old(s.Snap()), s.Snap(), EncTagged(f, v), ok)
    decreases f, 2
  {
    ghost var s0 := s.Snap();
    ok := EncodeTagFor(s, f);
    if !ok {
      WroteNotAll(s.Limit(), s0, s.Snap(), Some(EncTagFor(f)), EncValue(f, v));
      return;
    }
    ghost var s1 := s.Snap();
    ok := EncodeValue(s, f, v);
    WroteBoth(s.Limit(), s0, s1, s.Snap(), Some(EncTagFor(f)), EncValue(f, v), ok);
  }

  /** The field encoders. */
  method EncodeValue(s: OStream, f: Field, v: Value) returns (ok: bool)
    requires s.Valid() && SizedValue(f, v)
    modifies s, s.buf
    ensures s.Valid() && Wrote(s.Limit(), old(s.Snap()), s.Snap(), EncValue(f, v), ok)
    decreases f, 1
  {
    if f.ltype.Packable() {
      ok := EncodeNumber(s, f, v);
    } else if f.ltype.Submessage? {
      SizedBody(f, v);
      ok := EncodeSubmessage(s, f.sub, SlotsOf(v));
    } else if f.ltype.Extension? {
      return false;
    } else {
      ok := EncodeBlob(s, f, v);
    }
  }

  /** The octets of a submessage with its length, or nothing when its encoder refuses. */
  function EncBody(fields: seq<Field>, slots: Slots): Option<seq<Byte>> {
    var body := EncFields(fields, slots);
    if body.Some? then Some(Delimited(body.value)) else None
  }

  lemma SizedBody(f: Field, v: Value)
    requires f.ltype.Submessage? && SizedValue(f, v)
    ensures EncValue(f, v) == EncBody(f.sub, SlotsOf(v)) && Sized(f.sub, SlotsOf(v))
    ensures EncFields(f.sub, SlotsOf(v)).Some? ==> |EncFields(f.sub, SlotsOf(v)).value| < TWO64
  {
    assert EncValue(f, v) == EncSubmessage(f, v);
  }

  /** pb_encode_submessage: size first, then write through a stream with room for just that size. The
      octets written in the second pass are always those counted in the first. */
  method EncodeSubmessage(s: OStream, fields: seq<Field>, slots: Slots) returns (ok: bool)
    requires s.Valid() && Sized(fields, slots)
    requires EncFields(fields, slots).Some? ==> |EncFields(fields, slots).value| < TWO64
    modifies s, s.buf
    ensures s.Valid() && Wrote(s.Limit(), old(s.Snap()), s.Snap(), EncBody(fields, slots), ok)
    decreases fields, 3
  {
    ghost var s0 := s.Snap();
    var size;
    ok, size := EncodedSize(fields, slots);
    if !ok {
      return;
    }
    ghost var body := EncFields(fields, slots).value;
    ok := s.EncodeVarint(size);
    if !ok {
      WroteNotAll(s.Limit(), s0, s.Snap(), Some(EncVarint(size)), Some(body));
      return;
    }
    ghost var s1 := s.Snap();
    if s.sizing {
      s.Count(size);
      ok := true;
    } else {
      ok := WriteBody(s, fields, slots, size);
    }
    WroteBoth(s.Limit(), s0, s1, s.Snap(), Some(EncVarint(size)), Some(body), ok);
  }

  /** The second pass of pb_encode_submessage. */
  method WriteBody(s: OStream, fields: seq<Field>, slots: Slots, size: nat) returns (ok: bool)
    requires s.Valid() && !s.sizing && Sized(fields, slots)
    requires EncFields(fields, slots).Some? && size == |EncFields(fields, slots).value|
    modifies s, s.buf
    ensures s.Valid() && Wrote(s.Limit(), old(s.Snap()), s.Snap(), EncFields(fields, slots), ok)
    decreases fields, 2
  {
    if s.bytesWritten + size > s.maxSize {
      return false;
    }
    var substream := new OStream.OfBuffer(s.buf, s.state, size);
    assert substream.Snap() == Taken(s.buf[..s.state], 0);
    var status := EncodeFields(substream, fields, slots);
    assert status && substream.bytesWritten == size;
    s.bytesWritten := s.bytesWritten + substream.bytesWritten;
    s.state := substream.state;
    return status && substream.bytesWritten == size;
  }

  /** pb_get_encoded_size: the number of octets that pb_encode writes, when it can encode at all. */
  method EncodedSize(fields: seq<Field>, slots: Slots) returns (ok: bool, size: nat)
    requires Sized(fields, slots)
    ensures ok == EncFields(fields, slots).Some?
    ensures ok ==> size == |EncFields(fields, slots).value|
    decreases fields, 2
  {
    var sizer := new OStream.Sizing();
    ok := EncodeFields(sizer, fields, slots);
    size := sizer.bytesWritten;
  }

  /** encode_array. */
  method EncodeArray(s: OStream, f: Field, items: seq<Value>) returns (ok: bool)
    requires s.Valid() && f.tag < TWO32 && SizedItems(f, items)
    modifies s, s.buf
    ensures s.Valid() && Wrote(s.Limit(), old(s.Snap()), s.Snap(), EncArray(f, items), ok)
    decreases f, 4
  {
    WroteNothing(s.Limit(), s.Snap());
    if |items| == 0 {
      return true;
    }
    if |items| > f.count {
      return false;
    }
    if f.ltype.Packable() {
      ok := EncodePacked(s, f, items);
    } else {
      ok := EncodeEach(s, f, items);
    }
  }

  function EncPacked(f: Field, items: seq<Value>): Option<seq<Byte>> {
    var body := EncItems(f, items);
    if body.Some? then Some(EncTag(WT_STRING, f.tag) + Delimited(body.value)) else None
  }

  method EncodePacked(s: OStream, f: Field, items: seq<Value>) returns (ok: bool)
    requires s.Valid() && f.tag < TWO32 && SizedItems(f, items) && f.ltype.Packable()
    modifies s, s.buf
    ensures s.Valid() && Wrote(s.Limit(), old(s.Snap()), s.Snap(), EncPacked(f, items), ok)
  {
    ghost var s0 := s.Snap();
    ok := s.EncodeTag(WT_STRING, f.tag);
    if !ok {
      PackedNotWritten(s.Limit(), s0, s.Snap(), f, items);
      return;
    }
    ghost var s1 := s.Snap();
    var size;
    ok, size := ItemsSize(f, items);
    if !ok {
      return;
    }
    ok := EncodeSizedItems(s, f, items, size);
    WroteBoth(s.Limit(), s0, s1, s.Snap(), Some(EncTag(WT_STRING, f.tag)), Some(Delimited(EncItems(f, items).value)), ok);
  }

  lemma PackedNotWritten(room: Room, s0: Taken, s1: Taken, f: Field, items: seq<Value>)
    requires Wrote(room, s0, s1, Some(EncTag(WT_STRING, f.tag)), false)
    ensures Wrote(room, s0, s1, EncPacked(f, items), false)
  {}

  /** The size of a packed array: computed for fixed-width items, counted for varints. */
  method ItemsSize(f: Field, items: seq<Value>) returns (ok: bool, size: nat)
    requires f.ltype.Packable()
    ensures ok == EncItems(f, items).Some?
    ensures ok ==> size == |EncItems(f, items).value|
  {
    if f.ltype.Fixed32? || f.ltype.Fixed64? {
      FixedItemsSize(f, items);
      return true, (if f.ltype.Fixed32? then 4 else 8) * |items|;
    }
    var sizer := new OStream.Sizing();
    ok := WriteItems(sizer, f, items);
    size := sizer.bytesWritten;
  }

  /** The length of a packed array and its items; a sizing stream only adds the size up. */
  method EncodeSizedItems(s: OStream, f: Field, items: seq<Value>, size: nat) returns (ok: bool)
    requires s.Valid() && f.ltype.Packable()
    requires EncItems(f, items).Some? && size == |EncItems(f, items).value| < TWO64
    modifies s, s.buf
    ensures s.Valid() && Wrote(s.Limit(), old(s.Snap()), s.Snap(), Some(Delimited(EncItems(f, items).value)), ok)
  {
    ghost var s0 := s.Snap();
    ghost var body := EncItems(f, items).value;
    ok := s.EncodeVarint(size);
    if !ok {
      WroteNotAll(s.Limit(), s0, s.Snap(), Some(EncVarint(size)), Some(body));
      return;
    }
    ghost var s1 := s.Snap();
    if s.sizing {
      s.Count(size);
      ok := true;
    } else {
      ok := WriteItems(s, f, items);
    }
    WroteBoth(s.Limit(), s0, s1, s.Snap(), Some(EncVarint(size)), Some(body), ok);
  }

  lemma ItemsFrom(f: Field, items: seq<Value>, i: nat)
    requires i < |items|
    ensures EncItems(f, items[i..]) == Join(EncValue(f, items[i]), EncItems(f, items[i + 1..]))
    ensures EncEach(f, items[i..]) == Join(EncTagged(f, items[i]), EncEach(f, items[i + 1..]))
  {
    assert items[i..][1..] == items[i + 1..];
  }

  lemma NothingYet(room: Room, s0: Taken, all: Option<seq<Byte>>)
    requires room.AtMost? ==> s0.count <= room.limit
    ensures Wrote(room, s0, s0, Some([]), true) && Progress(all, [], all)
  {
    assert s0.octets + [] == s0.octets;
    assert all.Some? ==> [] + all.value == all.value;
  }

  lemma NothingLeft(all: Option<seq<Byte>>, done: seq<Byte>)
    requires Progress(all, done, Some([]))
    ensures all == Some(done)
  {
    assert done + [] == done;
  }

  method WriteItems(s: OStream, f: Field, items: seq<Value>) returns (ok: bool)
    requires s.Valid() && f.ltype.Packable()
    modifies s, s.buf
    ensures s.Valid() && Wrote(s.Limit(), old(s.Snap()), s.Snap(), EncItems(f, items), ok)
  {
    ghost var all := EncItems(f, items);
    ghost var done: seq<Byte> := [];
    NothingYet(s.Limit(), s.Snap(), all);
    assert items[0..] == items;
    var i := 0;
    while i < |items|
      invariant s.Valid() && i <= |items|
      invariant Wrote(s.Limit(), old(s.Snap()), s.Snap(), Some(done), true)
      invariant Progress(all, done, EncItems(f, items[i..]))
    {
      ghost var s1 := s.Snap();
      ok := EncodeNumber(s, f, items[i]);
      ItemsFrom(f, items, i);
      WroteNext(s.Limit(), old(s.Snap()), s1, s.Snap(), all, done, EncValue(f, items[i]), EncItems(f, items[i + 1..]), ok);
      if !ok {
        return;
      }
      done := done + EncValue(f, items[i]).value;
      i := i + 1;
    }
    NothingLeft(all, done);
    return true;
  }

  method EncodeEach(s: OStream, f: Field, items: seq<Value>) returns (ok: bool)
    requires s.Valid() && f.tag < TWO32 && forall i :: 0 <= i < |items| ==> SizedValue(f, items[i])
    modifies s, s.buf
    ensures s.Valid() && Wrote(s.Limit(), old(s.Snap()), s.Snap(), EncEach(f, items), ok)
    decreases f, 3
  {
    ghost var all := EncEach(f, items);
    ghost var done: seq<Byte> := [];
    NothingYet(s.Limit(), s.Snap(), all);
    assert items[0..] == items;
    var i := 0;
    while i < |items|
      invariant s.Valid() && i <= |items|
      invariant Wrote(s.Limit(), old(s.Snap()), s.Snap(), Some(done), true)
      invariant Progress(all, done, EncEach(f, items[i..]))
    {
      ghost var s1 := s.Snap();
      ok := EncodeTagged(s, f, items[i]);
      ItemsFrom(f, items, i);
      WroteNext(s.Limit(), old(s.Snap()), s1, s.Snap(), all, done, EncTagged(f, items[i]), EncEach(f, items[i + 1..]), ok);
      if !ok {
        return;
      }
      done := done + EncTagged(f, items[i]).value;
      i := i + 1;
    }
    NothingLeft(all, done);
    return true;
  }
}
