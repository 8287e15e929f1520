/** pb_decode and its field decoders, reading a stream into a struct, against what PbDecode prescribes. */
module PbDecoder {
  import opened Prelude
  import opened PbWire
  import opened PbMessage
  import opened PbFieldIter
  import opened PbEncode
  import opened PbDecode
  import opened PbRoundTrip
  import opened PbRequired
  import opened PbInput

  /** The final check of required fields is defined at every depth. */
  predicate Checkable(fields: seq<Field>)
    decreases fields
  {
    && CheckDefined(CountRequired(fields))
    && forall i :: 0 <= i < |fields| ==> CheckableField(fields[i])
  }

  predicate CheckableField(f: Field)
    decreases f
  {
    f.ltype.Submessage? ==> Checkable(f.sub)
  }

  /** A message struct being filled in. */
  class Struct {
    var slots: Slots

    constructor (slots: Slots)
      ensures this.slots == slots
    {
      this.slots := slots;
    }

    /** pb_message_set_to_defaults. */
    method SetToDefaults(fields: seq<Field>)
      modifies this
      ensures slots == Defaults(fields)
    {
      slots := map[];
      var i := 0;
      while i < |fields|
        invariant i <= |fields| && slots == Defaults(fields[..i])
      {
        slots := slots[fields[i].slot := InitSlot(fields[i])];
        i := i + 1;
        assert fields[..i][..i - 1] == fields[..i - 1];
      }
      assert fields[..|fields|] == fields;
    }
  }

  /** A reader took from the stream what the specification takes from its rest. */
  ghost predicate Agrees<T>(r: Read<T>, ok: bool, value: T, rest: seq<Byte>) {
    if ok then r == Got(value, rest) else r.Broken?
  }

  // ---- Single values ----

  method DecodeNumber(s: IStream, f: Field) returns (ok: bool, v: Value)
    requires s.Valid() && f.ltype.Packable()
    modifies s
    ensures s.Valid() && s.End() == old(s.End())
    ensures Agrees(DecNumber(f, old(s.Rest())), ok, v, s.Rest())
  {
    v := Num(0);
    if f.ltype.Integer() {
      var u;
      ok, u := s.DecodeVarint();
      if !ok {
        return;
      }
      var n := Narrowed(f, u);
      if n.None? {
        return false, v;
      }
      return true, Num(n.value);
    }
    var octets;
    ok, octets := s.Read(if f.ltype.Fixed32? then 4 else 8);
    if ok {
      v := Num(FixedValue(octets));
    }
  }

  method DecodeBlob(s: IStream, f: Field) returns (ok: bool, v: Value)
    requires s.Valid()
    modifies s
    ensures s.Valid() && s.End() == old(s.End())
    ensures Agrees(DecBlob(f, old(s.Rest())), ok, v, s.Rest())
  {
    v := Num(0);
    var size;
    ok, size := s.DecodeVarint32();
    if !ok || !RoomFor(f, size) {
      return false, v;
    }
    if f.ltype.FixedBytes? && size == 0 {
      return true, Blob(Zeros(f.size));
    }
    var octets;
    ok, octets := s.Read(size);
    if ok {
      v := Blob(octets);
    }
  }

  // ---- Arrays ----

  /** The loop over a packed array in decode_static_field. */
  method DecodeItems(s: IStream, f: Field, before: seq<Value>) returns (ok: bool, items: seq<Value>)
    requires s.Valid() && f.ltype.Packable()
    modifies s
    ensures s.Valid() && s.End() == old(s.End())
    ensures ok == DecItems(f, before, old(s.Rest())).Some?
    ensures ok ==> DecItems(f, before, old(s.Rest())) == Some(items)
  {
    items := before;
    while s.bytesLeft > 0 && |items| < f.count
      invariant s.Valid() && s.End() == old(s.End())
      invariant DecItems(f, items, s.Rest()) == DecItems(f, before, old(s.Rest()))
      decreases s.bytesLeft
    {
      ghost var rest := s.Rest();
      var more, v := DecodeNumber(s, f);
      if !more {
        return false, items;
      }
      assert |s.Rest()| < |rest|;
      items := items + [v];
    }
    ok := s.bytesLeft == 0;
  }

  method DecodePacked(s: IStream, f: Field, before: seq<Value>) returns (ok: bool, slot: Slot)
    requires s.Valid() && f.ltype.Packable()
    modifies s
    ensures s.Valid() && s.End() <= old(s.End()) && (ok ==> s.End() == old(s.End()))
    ensures Agrees(DecPacked(f, before, old(s.Rest())), ok, slot, s.Rest())
  {
    slot := Many(before);
    var sub;
    ok, sub := s.MakeSubstream();
    if !ok {
      return;
    }
    var items;
    ok, items := DecodeItems(sub, f, before);
    s.CloseSubstream(sub);
    if ok {
      slot := Many(items);
    }
  }

  // ---- Fields ----

  method DecodeValue(s: IStream, f: Field, slot: Slot) returns (ok: bool, v: Value)
    requires s.Valid() && WellFormedField(f) && CheckableField(f)
    modifies s
    ensures s.Valid() && s.End() <= old(s.End()) && (ok ==> s.End() == old(s.End()))
    ensures Agrees(DecValue(f, slot, old(s.Rest())), ok, v, s.Rest())
    decreases f, 0
  {
    if f.ltype.Packable() {
      ok, v := DecodeNumber(s, f);
    } else if f.ltype.Submessage? {
      ok, v := DecodeSubmessage(s, f, slot);
    } else if f.ltype.Extension? {
      return false, Num(0);
    } else {
      ok, v := DecodeBlob(s, f);
    }
  }

  /** pb_dec_submessage. */
  method DecodeSubmessage(s: IStream, f: Field, slot: Slot) returns (ok: bool, v: Value)
    requires s.Valid() && f.ltype.Submessage? && WellFormed(f.sub) && Checkable(f.sub)
    modifies s
    ensures s.Valid() && s.End() <= old(s.End()) && (ok ==> s.End() == old(s.End()))
    ensures Agrees(DecValue(f, slot, old(s.Rest())), ok, v, s.Rest())
    decreases f.sub, 3
  {
    v := Num(0);
    var sub;
    ok, sub := s.MakeSubstream();
    if !ok {
      return;
    }
    var dest := new Struct(Base(f, slot));
    ok := DecodeFields(sub, f.sub, dest);
    s.CloseSubstream(sub);
    if ok {
      v := Msg(dest.slots);
    }
  }

  /** decode_static_field. */
  method DecodeField(s: IStream, f: Field, slot: Slot, wireType: nat) returns (ok: bool, filled: Slot)
    requires s.Valid() && WellFormedField(f) && CheckableField(f)
    modifies s
    ensures s.Valid() && s.End() <= old(s.End()) && (ok ==> s.End() == old(s.End()))
    ensures Agrees(DecField(f, slot, wireType, old(s.Rest())), ok, filled, s.Rest())
    decreases f, 1
  {
    filled := slot;
    if f.htype.Repeated? && wireType == WT_STRING && f.ltype.Packable() {
      ok, filled := DecodePacked(s, f, ItemsOf(slot));
      return;
    }
    if f.htype.Repeated? && |ItemsOf(slot)| >= f.count {
      return false, slot;
    }
    var v;
    ok, v := DecodeValue(s, f, slot);
    if ok {
      filled := Refilled(f, slot, v);
    }
  }

  /** A tag has one position in a well-formed descriptor, wherever the search for it began. */
  lemma UniquePosition(fields: seq<Field>, tag: nat, i: nat)
    requires WellFormed(fields) && i < |fields| && Matches(fields[i], tag)
    ensures PbMessage.Find(fields, tag) == i
  {
    var j := PbMessage.Find(fields, tag);
    assert j < i ==> Distinct(fields[j], fields[i]);
  }

  /** pb_field_iter_find, then the bitset, then decode_field; or the field is passed over. */
  method TakeField(s: IStream, iter: FieldIter, dest: Struct, words: array<Word>, tag: nat, wireType: nat, ghost seen: set<nat>)
    returns (ok: bool, ghost now: set<nat>)
    requires s.Valid() && iter.Valid() && words.Length == 2
    requires WellFormed(iter.fields) && Checkable(iter.fields) && Tracks(iter.fields, words[..], seen)
    modifies s, iter, dest, words
    ensures s.Valid() && iter.Valid() && s.End() <= old(s.End()) && (ok ==> s.End() == old(s.End()))
    ensures var turn := Take(iter.fields, State(old(dest.slots), seen), tag, wireType, old(s.Rest()));
            ok == turn.Next? && (ok ==> turn == Next(State(dest.slots, now), s.Rest()))
    ensures ok ==> Tracks(iter.fields, words[..], now)
    decreases iter.fields, 0
  {
    now := seen;
    var fields := iter.fields;
    var found := iter.Find(tag);
    if !found {
      NotFound(fields, tag);
      ok := s.Skip(wireType);
      return;
    }
    if fields == [] {
      return false, seen;
    }
    var i := iter.pos;
    UniquePosition(fields, tag, i);
    now := MarkSeen(iter, words, seen);
    var slot;
    ok, slot := DecodeField(s, fields[i], SlotAt(dest.slots, fields[i]), wireType);
    if ok {
      dest.slots := dest.slots[fields[i].slot := slot];
    }
  }

  lemma NotFound(fields: seq<Field>, tag: nat)
    requires forall i :: 0 <= i < |fields| ==> !Matches(fields[i], tag)
    ensures PbMessage.Find(fields, tag) == |fields|
  {
    var i := PbMessage.Find(fields, tag);
    assert i < |fields| ==> Matches(fields[i], tag);
  }

  /** The bit of the field the iterator stands on, when it is a required one. */
  method MarkSeen(iter: FieldIter, words: array<Word>, ghost seen: set<nat>) returns (ghost now: set<nat>)
    requires iter.Valid() && iter.pos < |iter.fields| && words.Length == 2
    requires WellFormed(iter.fields) && Tracks(iter.fields, words[..], seen)
    modifies words
    ensures Tracks(iter.fields, words[..], now)
    ensures now == if iter.fields[iter.pos].htype.Required? then seen + {iter.fields[iter.pos].tag} else seen
  {
    now := seen;
    RequiredIndexCounts(iter.fields, iter.pos);
    assert iter.requiredIndex == IndexOf(iter.fields, iter.pos);
    if iter.fields[iter.pos].htype.Required? && iter.requiredIndex < 64 {
      ghost var before := words[..];
      Mark(words, iter.requiredIndex);
      MarkTracks(iter.fields, before, words[..], seen, iter.pos);
      now := seen + {iter.fields[iter.pos].tag};
    }
  }

  /** pb_decode_noinit. */
  method DecodeFields(s: IStream, fields: seq<Field>, dest: Struct) returns (ok: bool)
    requires s.Valid() && WellFormed(fields) && Checkable(fields)
    modifies s, dest
    ensures s.Valid() && s.End() <= old(s.End()) && (ok ==> s.End() == old(s.End()))
    ensures ok == Decode(fields, old(dest.slots), old(s.Rest())).Some?
    ensures ok ==> Decode(fields, old(dest.slots), old(s.Rest())) == Some(dest.slots)
    decreases fields, 2
  {
    ghost var all := Run(fields, State(dest.slots, {}), s.Rest());
    var words := new Word[2](_ => LowBits(0));
    var iter := new FieldIter(fields);
    ghost var seen;
    ok, seen := DecodeLoop(s, iter, dest, words);
    if !ok {
      return;
    }
    var count := iter.CountRequiredFields();
    ok := AllMarked(words, count);
    AllBitsMeanComplete(fields, words[..], seen);
  }

  /** The main loop of pb_decode_noinit. */
  method DecodeLoop(s: IStream, iter: FieldIter, dest: Struct, words: array<Word>) returns (ok: bool, ghost seen: set<nat>)
    requires s.Valid() && iter.Valid() && words.Length == 2
    requires WellFormed(iter.fields) && Checkable(iter.fields)
    requires forall k :: 0 <= k < 64 ==> !Bit(words[..], k)
    modifies s, iter, dest, words
    ensures s.Valid() && iter.Valid() && s.End() <= old(s.End()) && (ok ==> s.End() == old(s.End()))
    ensures var all := Run(iter.fields, State(old(dest.slots), {}), old(s.Rest()));
            ok == !all.Failed? && (ok ==> all.st == State(dest.slots, seen))
    ensures ok ==> Tracks(iter.fields, words[..], seen)
    decreases iter.fields, 1
  {
    seen := {};
    NothingSeen(iter.fields, words[..]);
    while s.bytesLeft != 0
      invariant s.Valid() && iter.Valid() && s.End() == old(s.End())
      invariant Tracks(iter.fields, words[..], seen)
      invariant Run(iter.fields, State(dest.slots, seen), s.Rest())
             == Run(iter.fields, State(old(dest.slots), {}), old(s.Rest()))
      decreases s.bytesLeft
    {
      var wireType, tag, eof;
      ok, wireType, tag, eof := s.DecodeTag();
      if !ok {
        return eof, seen;
      }
      ok, seen := TakeField(s, iter, dest, words, tag, wireType, seen);
      if !ok {
        return;
      }
    }
    return true, seen;
  }

  /** pb_decode. */
  method DecodeMessage(s: IStream, fields: seq<Field>, dest: Struct) returns (ok: bool)
    requires s.Valid() && WellFormed(fields) && Checkable(fields)
    modifies s, dest
    ensures s.Valid() && s.End() <= old(s.End()) && (ok ==> s.End() == old(s.End()))
    ensures ok == DecodeNew(fields, old(s.Rest())).Some?
    ensures ok ==> DecodeNew(fields, old(s.Rest())) == Some(dest.slots)
  {
    dest.SetToDefaults(fields);
    ok := DecodeFields(s, fields, dest);
  }

  /** pb_decode_delimited. */
  method DecodeDelimited(s: IStream, fields: seq<Field>, dest: Struct) returns (ok: bool)
    requires s.Valid() && WellFormed(fields) && Checkable(fields)
    modifies s, dest
    ensures s.Valid()
    ensures var body := DecDelimited(old(s.Rest()));
            ok == (body.Got? && DecodeNew(fields, body.value).Some?)
            && (ok ==> DecodeNew(fields, body.value) == Some(dest.slots) && s.Rest() == body.rest)
  {
    var sub;
    ok, sub := s.MakeSubstream();
    if !ok {
      return;
    }
    ok := DecodeMessage(sub, fields, dest);
    s.CloseSubstream(sub);
  }
}
