/** What reading back amounts to: the message exactly if it is canonical, the same octets when encoded again,
    and a projection when the descriptor has lost fields. */
module PbReadBack {
  import opened Prelude
  import opened PbWire
  import opened PbMessage
  import opened PbEncode
  import opened PbDecode
  import opened PbRoundTrip

  // ---- Slot by slot ----

  predicate WritesTo(f: Field, message: Slots, k: nat) {
    f.slot == k && Written(f, SlotAt(message, f))
  }

  predicate HasTag(fields: seq<Field>, tag: nat) {
    exists i :: 0 <= i < |fields| && fields[i].tag == tag
  }

  /** Nothing that small has and the message wrote goes to the slot. */
  predicate Untouched(small: seq<Field>, big: seq<Field>, message: Slots, k: nat) {
    forall i :: 0 <= i < |big| && HasTag(small, big[i].tag) ==> !WritesTo(big[i], message, k)
  }

  lemma TailUntouched(small: seq<Field>, big: seq<Field>, message: Slots, k: nat)
    requires big != [] && Untouched(small, big, message, k)
    ensures Untouched(small, big[1..], message, k)
    ensures small != [] ==> Untouched(small[1..], big[1..], message, k)
  {
    assert forall i :: 0 <= i < |big[1..]| ==> big[1..][i] == big[i + 1];
    forall i | 0 <= i < |big[1..]| && small != [] && HasTag(small[1..], big[1..][i].tag)
      ensures HasTag(small, big[1..][i].tag)
    {
      var j :| 0 <= j < |small[1..]| && small[1..][j].tag == big[1..][i].tag;
      assert small[j + 1].tag == big[1..][i].tag;
    }
  }

  lemma {:induction false} ReadOverUntouched(small: seq<Field>, big: seq<Field>, message: Slots, over: Slots, k: nat)
    requires Pruned(small, big) && Untouched(small, big, message, k)
    ensures k in ReadOver(small, big, message, over) <==> k in over
    ensures k in over ==> ReadOver(small, big, message, over)[k] == over[k]
    decreases |big|
  {
    if small != [] && big != [] {
      TailUntouched(small, big, message, k);
      if small[0].tag == big[0].tag {
        assert HasTag(small, big[0].tag) && !WritesTo(big[0], message, k);
        ReadOverUntouched(small[1..], big[1..], message, Filled(small[0], big[0], SlotAt(message, big[0]), over), k);
      } else {
        ReadOverUntouched(small, big[1..], message, over, k);
      }
    }
  }

  /** No other field of the descriptor writes the slot that field i has. */
  predicate Alone(fields: seq<Field>, message: Slots, i: nat)
    requires i < |fields|
  {
    forall w :: 0 <= w < |fields| && w != i ==> !WritesTo(fields[w], message, fields[i].slot)
  }

  lemma {:induction false} ReadOverTouched(small: seq<Field>, big: seq<Field>, message: Slots, over: Slots, j: nat, i: nat)
    requires WellFormed(small) && WellFormed(big) && Pruned(small, big) && j < |small| && i < |big|
    requires small[j].tag == big[i].tag && Written(big[i], SlotAt(message, big[i])) && Alone(big, message, i)
    ensures big[i].slot in ReadOver(small, big, message, over)
    ensures ReadOver(small, big, message, over)[big[i].slot] == ReadSlot(small[j], big[i], SlotAt(message, big[i]))
    decreases |big|
  {
    TailIsWellFormed(big);
    TailIsWellFormed(small);
    assert forall w :: 0 <= w < |big[1..]| ==> big[1..][w] == big[w + 1];
    assert (i > 0 ==> Distinct(big[0], big[i])) && (j > 0 ==> Distinct(small[0], small[j]) && small[1..][j - 1] == small[j]);
    if small[0].tag == big[0].tag {
      var next := Filled(small[0], big[0], SlotAt(message, big[0]), over);
      if i == 0 {
        ReadOverUntouched(small[1..], big[1..], message, next, big[0].slot);
      } else {
        ReadOverTouched(small[1..], big[1..], message, next, j - 1, i - 1);
      }
    } else {
      var w := PrunedKind(small, big[1..], j);
      ReadOverTouched(small, big[1..], message, over, j, i - 1);
    }
  }

  /** Two fields of one descriptor never both write a slot: in a union at most one member is in use. */
  lemma WritersAreAlone(fields: seq<Field>, message: Slots, i: nat, j: nat)
    requires WellFormed(fields) && i < |fields| && j < |fields| && i != j
    requires fields[i].slot == fields[j].slot && fields[i].slot in message
    requires Written(fields[i], SlotAt(message, fields[i]))
    ensures !Written(fields[j], SlotAt(message, fields[j]))
  {
    assert Distinct(fields[if i < j then i else j], fields[if i < j then j else i]);
  }

  lemma WriterIsAlone(fields: seq<Field>, message: Slots, i: nat)
    requires WellFormed(fields) && i < |fields| && fields[i].slot in message && Written(fields[i], SlotAt(message, fields[i]))
    ensures Alone(fields, message, i)
  {
    forall w | 0 <= w < |fields| && w != i && fields[w].slot == fields[i].slot
      ensures !Written(fields[w], SlotAt(message, fields[w]))
    {
      WritersAreAlone(fields, message, i, w);
    }
  }

  /** A field that was written is read back. */
  lemma WrittenIsRead(small: seq<Field>, big: seq<Field>, message: Slots, j: nat, i: nat)
    requires WellFormed(small) && WellFormed(big) && Pruned(small, big) && j < |small| && i < |big| && small[j].tag == big[i].tag
    requires big[i].slot in message && Written(big[i], SlotAt(message, big[i]))
    ensures big[i].slot in ReadMessage(small, big, message)
    ensures ReadMessage(small, big, message)[big[i].slot] == ReadSlot(small[j], big[i], message[big[i].slot])
  {
    WriterIsAlone(big, message, i);
    ReadOverTouched(small, big, message, Defaults(small), j, i);
  }

  /** A slot that nothing was written from holds its default. */
  lemma UnwrittenIsDefault(small: seq<Field>, big: seq<Field>, message: Slots, n: nat)
    requires WellFormed(small) && Pruned(small, big) && n < |small| && Untouched(small, big, message, small[n].slot)
    ensures small[n].slot in ReadMessage(small, big, message)
    ensures ReadMessage(small, big, message)[small[n].slot] == InitSlot(small[n])
  {
    ReadOverUntouched(small, big, message, Defaults(small), small[n].slot);
    DefaultsAt(small, n);
  }

  lemma {:induction false} DefaultsAt(fields: seq<Field>, n: nat)
    requires WellFormed(fields) && n < |fields|
    ensures fields[n].slot in Defaults(fields) && Defaults(fields)[fields[n].slot] == InitSlot(fields[n])
  {
    var last := |fields| - 1;
    if n < last {
      var front := fields[..last];
      assert forall i :: 0 <= i < last ==> front[i] == fields[i];
      DefaultsAt(front, n);
      assert Distinct(fields[n], fields[last]);
    }
  }

  predicate HasSlot(fields: seq<Field>, k: nat) {
    exists i :: 0 <= i < |fields| && fields[i].slot == k
  }

  lemma {:induction false} DefaultsKeys(fields: seq<Field>, k: nat)
    ensures k in Defaults(fields) <==> HasSlot(fields, k)
  {
    if fields != [] {
      var last := |fields| - 1;
      var front := fields[..last];
      DefaultsKeys(front, k);
      if HasSlot(front, k) {
        var i :| 0 <= i < |front| && front[i].slot == k;
        assert fields[i].slot == k;
      }
      if i :| 0 <= i < |fields| && fields[i].slot == k && i < last {
        assert front[i].slot == k;
      }
    }
  }

  lemma {:induction false} ReadOverKeys(small: seq<Field>, big: seq<Field>, message: Slots, over: Slots, k: nat)
    requires Pruned(small, big)
    ensures k in ReadOver(small, big, message, over) ==> k in over || HasSlot(small, k)
    ensures k in over ==> k in ReadOver(small, big, message, over)
    decreases |big|
  {
    if small != [] && big != [] {
      if small[0].tag == big[0].tag {
        ReadOverKeys(small[1..], big[1..], message, Filled(small[0], big[0], SlotAt(message, big[0]), over), k);
        if HasSlot(small[1..], k) {
          var i :| 0 <= i < |small[1..]| && small[1..][i].slot == k;
          assert small[i + 1].slot == k;
        }
      } else {
        ReadOverKeys(small, big[1..], message, over, k);
      }
    }
  }

  /** What is read has the slots of the descriptor. */
  lemma ReadKeys(small: seq<Field>, big: seq<Field>, message: Slots, k: nat)
    requires Pruned(small, big)
    ensures k in ReadMessage(small, big, message) <==> HasSlot(small, k)
  {
    DefaultsKeys(small, k);
    ReadOverKeys(small, big, message, Defaults(small), k);
  }

  /** The message that a descriptor finds in one it has itself encoded. */
  function Read(fields: seq<Field>, message: Slots): Slots {
    ReadMessage(fields, fields, message)
  }

  lemma {:induction false} PrunedFromItself(fields: seq<Field>)
    ensures Pruned(fields, fields)
    decreases fields
  {
    if fields != [] {
      PrunedFromItself(fields[0].sub);
      PrunedFromItself(fields[1..]);
    }
  }

  /** A slot of a message read with its own descriptor: from the field that wrote it, or a default. */
  lemma ReadAt(fields: seq<Field>, m: Slots, n: nat)
    requires WellFormed(fields) && n < |fields| && fields[n].slot in m
    ensures fields[n].slot in Read(fields, m)
    ensures (forall i :: 0 <= i < |fields| ==> !WritesTo(fields[i], m, fields[n].slot)) ==>
              Read(fields, m)[fields[n].slot] == InitSlot(fields[n])
    ensures forall i :: 0 <= i < |fields| && WritesTo(fields[i], m, fields[n].slot) ==>
              Read(fields, m)[fields[n].slot] == ReadSlot(fields[i], fields[i], m[fields[n].slot])
  {
    PrunedFromItself(fields);
    if w :| 0 <= w < |fields| && WritesTo(fields[w], m, fields[n].slot) {
      WrittenIsRead(fields, fields, m, w, w);
      WriterIsAlone(fields, m, w);
    } else {
      UnwrittenIsDefault(fields, fields, m, n);
    }
  }

  // ---- Canonical messages ----

  ghost predicate CanonicalValue(f: Field, v: Value)
    decreases f, 0
  {
    f.ltype.Submessage? ==> v.Msg? && Canonical(f.sub, v.slots)
  }

  ghost predicate CanonicalItems(f: Field, items: seq<Value>)
    decreases f, 1
  {
    forall i :: 0 <= i < |items| ==> CanonicalValue(f, items[i])
  }

  predicate HasWriter(fields: seq<Field>, slot: Slot, k: nat) {
    exists i :: 0 <= i < |fields| && fields[i].slot == k && Written(fields[i], slot)
  }

  /** A slot that is not written is as the defaults have it; a union names a member or nothing. */
  ghost predicate CanonicalSlot(f: Field, slot: Slot)
    decreases f, 2
  {
    && Shaped(f, slot)
    && if Written(f, slot) then CanonicalItems(f, ItemsOf(slot)) && (!f.htype.Repeated? ==> CanonicalValue(f, Held(slot)))
       else !f.htype.OneOf? ==> slot == InitSlot(f)
  }

  /** A message without leftovers: nothing but its fields, unset ones at their defaults, at any depth. */
  ghost predicate Canonical(fields: seq<Field>, m: Slots)
    decreases fields
  {
    && (forall k :: k in m ==> HasSlot(fields, k))
    && (forall i :: 0 <= i < |fields| ==> fields[i].slot in m && CanonicalSlot(fields[i], m[fields[i].slot]))
    && (forall i :: 0 <= i < |fields| && m[fields[i].slot].Choice? ==>
          m[fields[i].slot].pick.None? || HasWriter(fields, m[fields[i].slot], fields[i].slot))
  }

  lemma {:induction false} FitsAt(fields: seq<Field>, m: Slots, i: nat)
    requires FitsMessage(fields, m) && i < |fields|
    ensures fields[i].slot in m && FitsSlot(fields[i], m[fields[i].slot])
    decreases |fields|
  {
    if i > 0 { FitsAt(fields[1..], m, i - 1); }
  }

  lemma {:induction false} CanonicalValueReads(f: Field, v: Value)
    requires WellFormedField(f) && CanonicalValue(f, v)
    ensures ReadValue(f, f, v) == v
    decreases f, 0
  {
    if f.ltype.Submessage? { CanonicalReads(f.sub, v.slots); }
  }

  lemma {:induction false} CanonicalItemsRead(f: Field, items: seq<Value>)
    requires WellFormedField(f) && CanonicalItems(f, items)
    ensures ReadItems(f, f, items) == items
    decreases f, 1, |items|
  {
    if items != [] {
      CanonicalValueReads(f, items[0]);
      assert forall i :: 0 <= i < |items[1..]| ==> items[1..][i] == items[i + 1];
      CanonicalItemsRead(f, items[1..]);
      assert [items[0]] + items[1..] == items;
    }
  }

  lemma {:induction false} CanonicalSlotReads(f: Field, slot: Slot)
    requires WellFormedField(f) && CanonicalSlot(f, slot) && Written(f, slot)
    ensures ReadSlot(f, f, slot) == slot
    decreases f, 2
  {
    if f.htype.Repeated? {
      CanonicalItemsRead(f, slot.items);
    } else {
      CanonicalValueReads(f, Held(slot));
    }
  }

  lemma {:induction false} CanonicalSlotAt(fields: seq<Field>, m: Slots, n: nat)
    requires WellFormed(fields) && Canonical(fields, m) && n < |fields|
    ensures fields[n].slot in Read(fields, m) && Read(fields, m)[fields[n].slot] == m[fields[n].slot]
    decreases fields, 0
  {
    var k := fields[n].slot;
    ReadAt(fields, m, n);
    if j :| 0 <= j < |fields| && WritesTo(fields[j], m, k) {
      assert fields[j].slot in m && WellFormedField(fields[j]);
      CanonicalSlotReads(fields[j], m[k]);
    } else {
      UnwrittenCanonical(fields, m, n);
    }
  }

  lemma UnwrittenCanonical(fields: seq<Field>, m: Slots, n: nat)
    requires Canonical(fields, m) && n < |fields|
    requires forall j :: 0 <= j < |fields| ==> !WritesTo(fields[j], m, fields[n].slot)
    ensures m[fields[n].slot] == InitSlot(fields[n])
  {
    var k := fields[n].slot;
    assert !WritesTo(fields[n], m, k);
    assert forall i :: 0 <= i < |fields| && fields[i].slot == k ==> !WritesTo(fields[i], m, k);
    assert !HasWriter(fields, m[k], k);
  }

  /** A canonical message is read back as it is. */
  lemma {:induction false} CanonicalReads(fields: seq<Field>, m: Slots)
    requires WellFormed(fields) && Canonical(fields, m)
    ensures Read(fields, m) == m
    decreases fields, 1
  {
    PrunedFromItself(fields);
    forall k | k in m ensures k in Read(fields, m) && Read(fields, m)[k] == m[k] {
      var i :| 0 <= i < |fields| && fields[i].slot == k;
      CanonicalSlotAt(fields, m, i);
    }
    forall k | k in Read(fields, m) ensures k in m {
      ReadKeys(fields, fields, m, k);
      var i :| 0 <= i < |fields| && fields[i].slot == k;
    }
  }

  lemma {:induction false} ReadValueIsCanonical(f: Field, v: Value)
    requires WellFormedField(f) && FitsValue(f, v) && ReadValue(f, f, v) == v
    ensures CanonicalValue(f, v)
    decreases f, 0
  {
    if f.ltype.Submessage? { ReadsCanonical(f.sub, v.slots); }
  }

  lemma {:induction false} ReadItemsAreCanonical(f: Field, items: seq<Value>)
    requires WellFormedField(f) && FitsItems(f, items) && ReadItems(f, f, items) == items
    ensures CanonicalItems(f, items)
    decreases f, 1, |items|
  {
    if items != [] {
      assert ReadItems(f, f, items)[1..] == ReadItems(f, f, items[1..]);
      ReadValueIsCanonical(f, items[0]);
      ReadItemsAreCanonical(f, items[1..]);
      assert forall i :: 1 <= i < |items| ==> items[i] == items[1..][i - 1];
    }
  }

  lemma {:induction false} ReadSlotIsCanonical(f: Field, slot: Slot)
    requires WellFormedField(f) && FitsSlot(f, slot) && Written(f, slot) && ReadSlot(f, f, slot) == slot
    ensures CanonicalSlot(f, slot)
    decreases f, 2
  {
    if f.htype.Repeated? {
      ReadItemsAreCanonical(f, slot.items);
    } else {
      ReadValueIsCanonical(f, Held(slot));
    }
  }

  /** Only a canonical message is read back as it is. */
  lemma {:induction false} ReadsCanonical(fields: seq<Field>, m: Slots)
    requires WellFormed(fields) && FitsMessage(fields, m) && Read(fields, m) == m
    ensures Canonical(fields, m)
    decreases fields, 1
  {
    PrunedFromItself(fields);
    forall k | k in m ensures HasSlot(fields, k) { ReadKeys(fields, fields, m, k); }
    forall i | 0 <= i < |fields|
      ensures fields[i].slot in m && CanonicalSlot(fields[i], m[fields[i].slot])
      ensures m[fields[i].slot].Choice? ==> m[fields[i].slot].pick.None? || HasWriter(fields, m[fields[i].slot], fields[i].slot)
    {
      var f, k := fields[i], fields[i].slot;
      FitsAt(fields, m, i);
      ReadAt(fields, m, i);
      if Written(f, m[k]) {
        assert WritesTo(f, m, k) && WellFormedField(f);
        ReadSlotIsCanonical(f, m[k]);
      } else if w :| 0 <= w < |fields| && WritesTo(fields[w], m, k) {
        assert Distinct(fields[if w < i then w else i], fields[if w < i then i else w]);
        assert HasWriter(fields, m[k], k);
      }
    }
  }

  /** Decoding the encoding of a message gives the message if and only if the message is canonical: for every
      descriptor tree, and every message that fits it and that the encoder accepts. */
  lemma RoundTrip(fields: seq<Field>, m: Slots)
    requires WellFormed(fields) && FitsMessage(fields, m)
    requires EncFields(fields, m).Some? && |EncFields(fields, m).value| < TWO32
    ensures DecodeNew(fields, EncFields(fields, m).value) == Some(m) <==> Canonical(fields, m)
  {
    PrunedFromItself(fields);
    MessageRoundTrip(fields, fields, m);
    if Canonical(fields, m) { CanonicalReads(fields, m); }
    if Read(fields, m) == m { ReadsCanonical(fields, m); }
  }

  // ---- Submessages without a has_ flag ----

  lemma SingularIsCanonical(f: Field, sub: Slots)
    requires f.htype.Singular? && f.ltype.Submessage? && Canonical(f.sub, sub)
    ensures Canonical([f], map[f.slot := One(Msg(sub))]) <==> sub == Defaults(f.sub) || !AllZero(f.sub, sub)
  {
    var slot := One(Msg(sub));
    var m: Slots := map[f.slot := slot];
    assert forall k :: k in m ==> [f][0].slot == k;
    assert [f][0] == f && m[f.slot] == slot;
    assert Canonical([f], m) <==> CanonicalSlot(f, slot);
    assert Written(f, slot) <==> !AllZero(f.sub, sub);
    assert CanonicalItems(f, ItemsOf(slot)) && CanonicalValue(f, Held(slot)) && Shaped(f, slot);
    assert InitSlot(f) == One(Msg(Defaults(f.sub)));
  }

  /** A submessage without a has_ flag and without leftovers comes back exactly if it is the default or does
      not count as zero. */
  lemma SingularSubmessage(f: Field, sub: Slots)
    requires WellFormedField(f) && f.htype.Singular? && f.ltype.Submessage?
    requires FitsMessage(f.sub, sub) && Canonical(f.sub, sub)
    requires EncFields([f], map[f.slot := One(Msg(sub))]).Some? && |EncFields([f], map[f.slot := One(Msg(sub))]).value| < TWO32
    ensures DecodeNew([f], EncFields([f], map[f.slot := One(Msg(sub))]).value) == Some(map[f.slot := One(Msg(sub))])
       <==> sub == Defaults(f.sub) || !AllZero(f.sub, sub)
  {
    var m: Slots := map[f.slot := One(Msg(sub))];
    assert FitsValue(f, Msg(sub)) && FitsSlot(f, m[f.slot]) && FitsMessage([f][1..], m);
    RoundTrip([f], m);
    SingularIsCanonical(f, sub);
  }

  lemma OneField(f: Field, m: Slots)
    requires f.slot in m
    ensures AllZero([f], m) == ZeroSlot(f, m[f.slot])
    ensures EncFields([f], m) == EncField(f, m[f.slot])
    ensures Defaults([f]) == map[f.slot := InitSlot(f)]
  {
    assert [f][1..] == [] && [f][..0] == [];
    assert AllZero([f][1..], m) && EncFields([f][1..], m) == Some([]);
    var e := EncField(f, m[f.slot]);
    assert (e.Some? ==> e.value + [] == e.value) && Join(e, Some([])) == e;
  }

  /** So a submessage with the array [0, 5], or with a has_ flag set on a zero, is not written at all. */
  lemma SubmessagesAreLost(inner: Field, v: Slot)
    requires inner.ltype.Varint? && 0 < inner.tag < 0x2000_0000
    requires (inner.htype.Repeated? && v == Many([Num(0), Num(5)])) || (inner.htype.Optional? && v == Maybe(true, Num(0)))
    ensures var f := Field(1, 0, Submessage, Singular, 0, 0, [inner], Num(0), 0, 0);
            var m: Slots := map[0 := One(Msg(map[inner.slot := v]))];
            && EncFields([f], m) == Some([])
            && DecodeNew([f], []) == Some(map[0 := One(Msg(map[inner.slot := InitSlot(inner)]))]) != Some(m)
  {
    var f := Field(1, 0, Submessage, Singular, 0, 0, [inner], Num(0), 0, 0);
    var m: Slots := map[0 := One(Msg(map[inner.slot := v]))];
    OneField(inner, map[inner.slot := v]);
    OneField(inner, map[inner.slot := InitSlot(inner)]);
    OneField(f, m);
    assert ZeroSlot(inner, v) && IsZero(f, Msg(map[inner.slot := v]));
    assert Run([f], State(Defaults([f]), {}), []) == Clean(State(Defaults([f]), {}));
    assert [f][0] == f && Complete([f], {});
    assert DecodeNew([f], []) == Some(Defaults([f]));
  }

  // ---- Encoding again ----

  /** Values with a zero default, at any depth. */
  predicate ZeroInside(fields: seq<Field>)
    decreases fields
  {
    fields != [] ==>
      && (if fields[0].ltype.Submessage? then ZeroInside(fields[0].sub)
          else fields[0].ltype.FixedBytes? || IsZero(fields[0], fields[0].init))
      && ZeroInside(fields[1..])
  }

  /** Fields without a has flag have a zero default, as proto3 prescribes. */
  predicate ZeroDefaults(fields: seq<Field>)
    decreases fields
  {
    fields != [] ==> Plain(fields[0]) && ZeroDefaults(fields[1..])
  }

  predicate Plain(f: Field)
    decreases f
  {
    && (f.htype.Singular? && !f.ltype.Submessage? ==> f.ltype.FixedBytes? || IsZero(f, f.init))
    && (f.htype.Singular? && f.ltype.Submessage? ==> ZeroInside(f.sub))
    && (f.ltype.Submessage? ==> ZeroDefaults(f.sub))
  }

  /** No leftovers where the test for zero looks: a value whose has_ flag is cleared is the default. */
  predicate Swept(fields: seq<Field>, m: Slots)
    decreases fields
  {
    fields != [] ==>
      fields[0].slot in m && SweptSlot(fields[0], m[fields[0].slot]) && Swept(fields[1..], m)
  }

  predicate SweptValue(f: Field, v: Value)
    decreases f, 0
  {
    f.ltype.Submessage? ==> v.Msg? && Swept(f.sub, v.slots)
  }

  predicate SweptSlot(f: Field, slot: Slot)
    decreases f, 1
  {
    && Shaped(f, slot)
    && match slot
       case One(v) => SweptValue(f, v)
       case Maybe(has, v) => SweptValue(f, v) && (!has ==> v == InitValue(f))
       case Many(items) => items != [] ==> SweptValue(f, items[0])
       case Choice(pick) => pick.Some? && pick.value.tag == f.tag ==> SweptValue(f, pick.value.value)
  }

  /** Submessages without a has_ flag have no leftovers. */
  predicate Tidy(fields: seq<Field>, m: Slots)
    decreases fields
  {
    fields != [] ==>
      && TidySlot(fields[0], SlotAt(m, fields[0]))
      && Tidy(fields[1..], m)
  }

  predicate TidyValue(f: Field, v: Value)
    decreases f, 0
  {
    f.ltype.Submessage? ==> Tidy(f.sub, SlotsOf(v)) && (f.htype.Singular? ==> SweptValue(f, v))
  }

  predicate TidyItems(f: Field, items: seq<Value>)
    decreases f, 1, |items|
  {
    items != [] ==> TidyValue(f, items[0]) && TidyItems(f, items[1..])
  }

  predicate TidySlot(f: Field, slot: Slot)
    decreases f, 2
  {
    TidyItems(f, ItemsOf(slot)) && (Present(f, slot) || f.htype.Singular? ==> TidyValue(f, Held(slot)))
  }

  lemma {:induction false} PlainAt(fields: seq<Field>, i: nat)
    requires WellFormed(fields) && ZeroDefaults(fields) && i < |fields|
    ensures Plain(fields[i]) && WellFormedField(fields[i])
    decreases |fields|
  {
    TailIsWellFormed(fields);
    if i > 0 { PlainAt(fields[1..], i - 1); }
  }

  lemma {:induction false} TidyAt(fields: seq<Field>, m: Slots, i: nat)
    requires Tidy(fields, m) && i < |fields|
    ensures TidySlot(fields[i], SlotAt(m, fields[i]))
    decreases |fields|
  {
    if i > 0 { TidyAt(fields[1..], m, i - 1); }
  }

  // ---- Zero or not, before and after ----

  lemma {:induction false} SweptAt(fields: seq<Field>, m: Slots, i: nat)
    requires Swept(fields, m) && i < |fields|
    ensures fields[i].slot in m && SweptSlot(fields[i], m[fields[i].slot])
    decreases |fields|
  {
    if i > 0 { SweptAt(fields[1..], m, i - 1); }
  }

  lemma {:induction false} InsideAt(fields: seq<Field>, i: nat)
    requires ZeroInside(fields) && i < |fields|
    ensures var f := fields[i]; if f.ltype.Submessage? then ZeroInside(f.sub) else f.ltype.FixedBytes? || IsZero(f, f.init)
    decreases |fields|
  {
    if i > 0 { InsideAt(fields[1..], i - 1); }
  }

  lemma {:induction false} AllZeroIs(fields: seq<Field>, m: Slots)
    ensures AllZero(fields, m) <==> forall i :: 0 <= i < |fields| ==> ZeroSlot(fields[i], SlotAt(m, fields[i]))
    decreases |fields|
  {
    if fields != [] {
      AllZeroIs(fields[1..], m);
      assert forall i :: 1 <= i < |fields| ==> fields[i] == fields[1..][i - 1];
    }
  }

  lemma {:induction false} ZeroIsBlank(f: Field, v: Value)
    requires IsZero(f, v)
    ensures Blank(f)
    decreases f, 0
  {
    if f.ltype.Submessage? { ZerosAreBlank(f.sub, SlotsOf(v)); }
  }

  lemma {:induction false} ZerosAreBlank(fields: seq<Field>, m: Slots)
    requires AllZero(fields, m)
    ensures AllBlank(fields)
    decreases fields, 0
  {
    if fields != [] {
      ZeroSlotIsBlank(fields[0], SlotAt(m, fields[0]));
      ZerosAreBlank(fields[1..], m);
    }
  }

  lemma {:induction false} ZeroSlotIsBlank(f: Field, slot: Slot)
    requires ZeroSlot(f, slot)
    ensures Blank(f)
    decreases f, 1
  {
    match slot
    case One(v) => ZeroIsBlank(f, v);
    case Maybe(_, v) => ZeroIsBlank(f, v);
    case Many(items) => if items != [] { ZeroIsBlank(f, items[0]); }
    case Choice(pick) => if pick.Some? && pick.value.tag == f.tag { ZeroIsBlank(f, pick.value.value); }
  }

  /** If anything of that type is zero, its default is. */
  lemma {:induction false} ZeroInit(f: Field, v: Value)
    requires if f.ltype.Submessage? then ZeroInside(f.sub) else f.ltype.FixedBytes? || IsZero(f, f.init)
    requires WellFormedField(f) && SweptValue(f, v) && IsZero(f, v)
    ensures IsZero(f, InitValue(f))
    decreases f, 0
  {
    if f.ltype.Submessage? { ZeroInits(f.sub, v.slots); }
  }

  lemma {:induction false} ZeroInits(fields: seq<Field>, m: Slots)
    requires ZeroInside(fields) && WellFormed(fields) && Swept(fields, m) && AllZero(fields, m)
    ensures AllZero(fields, Defaults(fields))
    decreases fields, 0
  {
    AllZeroIs(fields, m);
    AllZeroIs(fields, Defaults(fields));
    forall i | 0 <= i < |fields| ensures ZeroSlot(fields[i], SlotAt(Defaults(fields), fields[i])) {
      DefaultsAt(fields, i);
      InsideAt(fields, i);
      SweptAt(fields, m, i);
      assert WellFormedField(fields[i]) && ZeroSlot(fields[i], SlotAt(m, fields[i]));
      ZeroSlotIsBlank(fields[i], SlotAt(m, fields[i]));
      match m[fields[i].slot]
      case One(v) => ZeroInit(fields[i], v);
      case Maybe(_, v) => ZeroInit(fields[i], v);
      case _ =>
    }
  }

  lemma {:induction false} ReadZeroValue(f: Field, v: Value)
    requires if f.ltype.Submessage? then ZeroInside(f.sub) else f.ltype.FixedBytes? || IsZero(f, f.init)
    requires WellFormedField(f) && SweptValue(f, v)
    ensures IsZero(f, ReadValue(f, f, v)) == IsZero(f, v)
    decreases f, 0
  {
    if f.ltype.Submessage? { ReadZero(f.sub, v.slots); }
  }

  lemma {:induction false} ReadZeroSlot(f: Field, slot: Slot)
    requires if f.ltype.Submessage? then ZeroInside(f.sub) else f.ltype.FixedBytes? || IsZero(f, f.init)
    requires WellFormedField(f) && SweptSlot(f, slot) && Written(f, slot)
    ensures ZeroSlot(f, ReadSlot(f, f, slot)) == ZeroSlot(f, slot)
    decreases f, 1
  {
    if f.htype.Repeated? { ReadZeroValue(f, slot.items[0]); } else { ReadZeroValue(f, Held(slot)); }
  }

  /** Without leftovers, a struct counts as zero exactly if it does after it was read back. */
  lemma {:induction false} ReadZero(fields: seq<Field>, m: Slots)
    requires ZeroInside(fields) && WellFormed(fields) && Swept(fields, m)
    ensures AllZero(fields, Read(fields, m)) == AllZero(fields, m)
    decreases fields, 2
  {
    AllZeroIs(fields, m);
    AllZeroIs(fields, Read(fields, m));
    forall i | 0 <= i < |fields|
      ensures ZeroSlot(fields[i], SlotAt(Read(fields, m), fields[i])) == ZeroSlot(fields[i], SlotAt(m, fields[i]))
    {
      ReadZeroAt(fields, m, i);
    }
  }

  lemma {:induction false} ReadZeroAt(fields: seq<Field>, m: Slots, i: nat)
    requires ZeroInside(fields) && WellFormed(fields) && Swept(fields, m) && i < |fields|
    ensures fields[i].slot in m && fields[i].slot in Read(fields, m)
    ensures ZeroSlot(fields[i], Read(fields, m)[fields[i].slot]) == ZeroSlot(fields[i], m[fields[i].slot])
    decreases fields, 1
  {
    var f, k := fields[i], fields[i].slot;
    SweptAt(fields, m, i);
    InsideAt(fields, i);
    ReadAt(fields, m, i);
    assert WellFormedField(f);
    if Written(f, m[k]) {
      assert WritesTo(f, m, k);
      ReadZeroSlot(f, m[k]);
    } else if w :| 0 <= w < |fields| && WritesTo(fields[w], m, k) {
      assert Distinct(fields[if w < i then w else i], fields[if w < i then i else w]);
    } else {
      UnwrittenZero(f, m[k]);
    }
  }

  lemma UnwrittenZero(f: Field, slot: Slot)
    requires if f.ltype.Submessage? then ZeroInside(f.sub) else f.ltype.FixedBytes? || IsZero(f, f.init)
    requires WellFormedField(f) && SweptSlot(f, slot) && !Written(f, slot)
    requires f.htype.OneOf? ==> slot.pick.None? || slot.pick.value.tag != f.tag
    ensures ZeroSlot(f, InitSlot(f)) == ZeroSlot(f, slot)
  {
    if f.htype.Singular? { ZeroInit(f, slot.value); }
  }

  /** Two messages that agree to the encoder, field by field. */
  ghost predicate SameToEncoder(f: Field, m1: Slots, m2: Slots) {
    && f.slot in m1 && f.slot in m2
    && EncField(f, m1[f.slot]) == EncField(f, m2[f.slot])
    && FitsSlot(f, m2[f.slot])
  }

  lemma {:induction false} SameFields(fields: seq<Field>, m1: Slots, m2: Slots)
    requires forall i :: 0 <= i < |fields| ==> SameToEncoder(fields[i], m1, m2)
    ensures EncFields(fields, m1) == EncFields(fields, m2) && FitsMessage(fields, m2)
    decreases |fields|
  {
    if fields != [] {
      assert SameToEncoder(fields[0], m1, m2);
      assert forall i :: 0 <= i < |fields[1..]| ==> fields[1..][i] == fields[i + 1];
      SameFields(fields[1..], m1, m2);
    }
  }

  lemma {:induction false} ReencodeValue(f: Field, v: Value)
    requires WellFormedField(f) && Plain(f) && FitsValue(f, v) && TidyValue(f, v)
    ensures EncValue(f, ReadValue(f, f, v)) == EncValue(f, v) && FitsValue(f, ReadValue(f, f, v))
    decreases f, 0
  {
    if f.ltype.Submessage? {
      ReencodeMessage(f.sub, v.slots);
      assert EncValue(f, v) == EncSubmessage(f, v) && EncValue(f, ReadValue(f, f, v)) == EncSubmessage(f, ReadValue(f, f, v));
    }
  }

  lemma {:induction false} ReencodeItems(f: Field, items: seq<Value>)
    requires WellFormedField(f) && Plain(f) && FitsItems(f, items) && TidyItems(f, items)
    ensures EncItems(f, ReadItems(f, f, items)) == EncItems(f, items)
    ensures EncEach(f, ReadItems(f, f, items)) == EncEach(f, items)
    ensures FitsItems(f, ReadItems(f, f, items))
    decreases f, 1, |items|
  {
    if items != [] {
      ReencodeValue(f, items[0]);
      ReencodeItems(f, items[1..]);
      assert ReadItems(f, f, items)[1..] == ReadItems(f, f, items[1..]);
    }
  }

  lemma {:induction false} ReencodeSlot(f: Field, slot: Slot)
    requires WellFormedField(f) && Plain(f) && FitsSlot(f, slot) && Written(f, slot) && TidySlot(f, slot)
    ensures EncField(f, ReadSlot(f, f, slot)) == EncField(f, slot) && FitsSlot(f, ReadSlot(f, f, slot))
    decreases f, 2
  {
    if f.htype.Repeated? {
      ReencodeItems(f, slot.items);
    } else {
      ReencodeValue(f, Held(slot));
      StillPresent(f, slot);
    }
  }

  lemma StillPresent(f: Field, slot: Slot)
    requires WellFormedField(f) && Plain(f) && Shaped(f, slot) && Present(f, slot) && TidySlot(f, slot)
    ensures Present(f, ReadSlot(f, f, slot)) && Held(ReadSlot(f, f, slot)) == ReadValue(f, f, Held(slot))
    ensures Shaped(f, ReadSlot(f, f, slot)) && ItemsOf(ReadSlot(f, f, slot)) == []
  {
    if f.htype.Singular? { ReadZeroValue(f, Held(slot)); }
  }

  /** Neither a default nor another member of the union makes the encoder write. */
  lemma SilentSlot(f: Field, slot: Slot, read: Slot)
    requires WellFormedField(f) && Plain(f) && FitsSlot(f, slot) && !Written(f, slot) && TidySlot(f, slot)
    requires read == InitSlot(f) || (f.htype.OneOf? && read.Choice? && read.pick.Some? && read.pick.value.tag != f.tag)
    ensures EncField(f, read) == EncField(f, slot) && FitsSlot(f, read)
  {
    if f.htype.Singular? { ZeroInit(f, slot.value); }
  }

  lemma {:induction false} ReencodeAt(fields: seq<Field>, m: Slots, n: nat)
    requires WellFormed(fields) && ZeroDefaults(fields) && FitsMessage(fields, m) && Tidy(fields, m) && n < |fields|
    ensures SameToEncoder(fields[n], m, Read(fields, m))
    decreases fields, 0
  {
    var f, k := fields[n], fields[n].slot;
    PlainAt(fields, n);
    TidyAt(fields, m, n);
    FitsAt(fields, m, n);
    ReadAt(fields, m, n);
    if Written(f, m[k]) {
      assert WritesTo(f, m, k);
      ReencodeSlot(f, m[k]);
    } else if j :| 0 <= j < |fields| && WritesTo(fields[j], m, k) {
      assert Distinct(fields[if n < j then n else j], fields[if n < j then j else n]);
      SilentSlot(f, m[k], Read(fields, m)[k]);
    } else {
      SilentSlot(f, m[k], InitSlot(f));
    }
  }

  /** What was read back encodes to the octets it was read from. */
  lemma {:induction false} ReencodeMessage(fields: seq<Field>, m: Slots)
    requires WellFormed(fields) && ZeroDefaults(fields) && FitsMessage(fields, m) && Tidy(fields, m)
    ensures EncFields(fields, Read(fields, m)) == EncFields(fields, m)
    ensures FitsMessage(fields, Read(fields, m))
    decreases fields, 1
  {
    forall i | 0 <= i < |fields| ensures SameToEncoder(fields[i], m, Read(fields, m)) {
      ReencodeAt(fields, m, i);
    }
    SameFields(fields, m, Read(fields, m));
  }

  /** A default that is not zero shows why it has to be: the zero is not written, and the default read for it is. */
  lemma DefaultsAreWritten()
    ensures var f := Field(1, 0, UVarint, Singular, 4, 0, [], Num(5), 0, 0);
            var m: Slots := map[0 := One(Num(0))];
            && EncFields([f], m) == Some([])
            && EncFields([f], Read([f], m)).Some? && EncFields([f], Read([f], m)).value != []
  {
    var f := Field(1, 0, UVarint, Singular, 4, 0, [], Num(5), 0, 0);
    var m: Slots := map[0 := One(Num(0))];
    OneField(f, m);
    assert WellFormedField(f);
    ReadAt([f], m, 0);
    assert [f][0] == f && !WritesTo([f][0], m, 0);
    OneField(f, Read([f], m));
    assert EncTagFor(f) != [];
  }

  /** A leftover shows why it has to be tidy: a cleared value that is not zero makes the encoder write an empty
      submessage, which is read as zero, and then not written. */
  lemma LeftoversAreWritten()
    ensures var inner := Field(1, 0, UVarint, Optional, 4, 0, [], Num(0), 0, 0);
            var f := Field(1, 0, Submessage, Singular, 0, 0, [inner], Num(0), 0, 0);
            var m: Slots := map[0 := One(Msg(map[0 := Maybe(false, Num(1))]))];
            && EncFields([f], m).Some? && EncFields([f], m).value != []
            && EncFields([f], Read([f], m)) == Some([])
  {
    var inner := Field(1, 0, UVarint, Optional, 4, 0, [], Num(0), 0, 0);
    var f := Field(1, 0, Submessage, Singular, 0, 0, [inner], Num(0), 0, 0);
    var sub: Slots := map[0 := Maybe(false, Num(1))];
    var m: Slots := map[0 := One(Msg(sub))];
    OneField(inner, sub);
    OneField(f, m);
    assert WellFormedField(inner) && WellFormedField(f);
    assert EncValue(f, Msg(sub)) == EncSubmessage(f, Msg(sub)) == Some(Delimited([]));
    ReadAt([inner], sub, 0);
    assert [inner][0] == inner && !WritesTo([inner][0], sub, 0);
    ReadAt([f], m, 0);
    assert [f][0] == f && WritesTo([f][0], m, 0);
    OneField(inner, Read([inner], sub));
    OneField(f, Read([f], m));
    assert Read([f], m)[0] == ReadSlot(f, f, m[0]) == One(Msg(Read([inner], sub)));
    assert IsZero(f, Msg(Read([inner], sub)));
  }

  // ---- Projection ----

  /** A value as a descriptor with fewer fields has it. */
  function ViewValue(g: Field, v: Value): Value
    decreases g, 0
  {
    if g.ltype.Submessage? then Msg(View(g.sub, SlotsOf(v))) else v
  }

  function ViewItems(g: Field, items: seq<Value>): (r: seq<Value>)
    ensures |r| == |items|
    decreases g, 1, |items|
  {
    if items == [] then [] else [ViewValue(g, items[0])] + ViewItems(g, items[1..])
  }

  /** Whether the slot has something for the field: a union only for the member in use. */
  predicate Shows(g: Field, slot: Slot) {
    !g.ltype.Extension? && (g.htype.OneOf? ==> slot.Choice? && slot.pick.Some? && slot.pick.value.tag == g.tag)
  }

  function ViewSlot(g: Field, slot: Slot): Slot
    decreases g, 2
  {
    match slot
    case One(v) => One(ViewValue(g, v))
    case Maybe(has, v) => Maybe(has, ViewValue(g, v))
    case Many(items) => Many(ViewItems(g, items))
    case Choice(pick) => if pick.None? then slot else Choice(Some(Pick(g.tag, ViewValue(g, pick.value.value))))
  }

  /** The slot as the field that shows it has it, if there is one. */
  function Shown(fields: seq<Field>, k: nat, slot: Slot): Option<Slot>
    decreases fields, 0
  {
    if fields == [] then None
    else if fields[0].slot == k && Shows(fields[0], slot) then Some(ViewSlot(fields[0], slot))
    else Shown(fields[1..], k, slot)
  }

  /** A message with the fields of the descriptor and no others, at any depth. */
  function View(fields: seq<Field>, m: Slots): Slots
    decreases fields, 1
  {
    map k | k in Defaults(fields) ::
      if k in m && Shown(fields, k, m[k]).Some? then Shown(fields, k, m[k]).value else Defaults(fields)[k]
  }

  lemma {:induction false} ShownIs(fields: seq<Field>, j: nat, slot: Slot)
    requires WellFormed(fields) && j < |fields| && Shows(fields[j], slot)
    ensures Shown(fields, fields[j].slot, slot) == Some(ViewSlot(fields[j], slot))
    decreases |fields|
  {
    TailIsWellFormed(fields);
    if j > 0 {
      assert Distinct(fields[0], fields[j]) && fields[1..][j - 1] == fields[j];
      ShownIs(fields[1..], j - 1, slot);
    }
  }

  lemma {:induction false} NotShown(fields: seq<Field>, k: nat, slot: Slot)
    requires forall j :: 0 <= j < |fields| && fields[j].slot == k ==> !Shows(fields[j], slot)
    ensures Shown(fields, k, slot).None?
    decreases |fields|
  {
    if fields != [] {
      assert forall j :: 0 <= j < |fields[1..]| ==> fields[1..][j] == fields[j + 1];
      NotShown(fields[1..], k, slot);
    }
  }

  lemma {:induction false} ViewReadValue(g: Field, f: Field, v: Value)
    requires Twins(g, f) && FitsValue(f, v)
    ensures ViewValue(g, ReadValue(f, f, v)) == ReadValue(g, f, v)
    decreases f, 0
  {
    if f.ltype.Submessage? { ViewOfRead(g.sub, f.sub, v.slots); }
  }

  lemma {:induction false} ViewReadItems(g: Field, f: Field, items: seq<Value>)
    requires Twins(g, f) && FitsItems(f, items)
    ensures ViewItems(g, ReadItems(f, f, items)) == ReadItems(g, f, items)
    decreases f, 1, |items|
  {
    if items != [] {
      ViewReadValue(g, f, items[0]);
      ViewReadItems(g, f, items[1..]);
      assert ReadItems(f, f, items)[1..] == ReadItems(f, f, items[1..]);
    }
  }

  lemma {:induction false} ViewReadSlot(g: Field, f: Field, slot: Slot)
    requires Twins(g, f) && FitsSlot(f, slot) && Written(f, slot)
    ensures Shows(g, ReadSlot(f, f, slot)) && ViewSlot(g, ReadSlot(f, f, slot)) == ReadSlot(g, f, slot)
    decreases f, 2
  {
    if f.htype.Repeated? {
      ViewReadItems(g, f, slot.items);
    } else {
      ViewReadValue(g, f, Held(slot));
    }
  }

  lemma {:induction false} ViewInit(g: Field, f: Field)
    requires Twins(g, f)
    ensures Shows(g, InitSlot(f)) ==> ViewSlot(g, InitSlot(f)) == InitSlot(g)
    decreases f, 0
  {
    if f.ltype.Submessage? { ViewDefaults(g.sub, f.sub); }
  }

  lemma {:induction false} ViewDefaultAt(small: seq<Field>, big: seq<Field>, n: nat, m: Slots)
    requires WellFormed(small) && WellFormed(big) && Pruned(small, big) && n < |small| && small[n].slot in m
    requires forall i :: 0 <= i < |big| && big[i].slot == small[n].slot ==> m[small[n].slot] == InitSlot(big[i])
    ensures small[n].slot in Defaults(small) && Defaults(small)[small[n].slot] == InitSlot(small[n])
    ensures View(small, m)[small[n].slot] == InitSlot(small[n])
    decreases big, 0, 0
  {
    var k := small[n].slot;
    DefaultsAt(small, n);
    var i := PrunedKind(small, big, n);
    assert WellFormedField(small[n]) && WellFormedField(big[i]);
    ViewInit(small[n], big[i]);
    if Shows(small[n], m[k]) {
      ShownIs(small, n, m[k]);
    } else {
      forall j | 0 <= j < |small| && small[j].slot == k ensures !Shows(small[j], m[k]) {
        if j != n { assert Distinct(small[if n < j then n else j], small[if n < j then j else n]); }
      }
      NotShown(small, k, m[k]);
    }
  }

  lemma {:induction false} ViewDefaults(small: seq<Field>, big: seq<Field>)
    requires WellFormed(small) && WellFormed(big) && Pruned(small, big)
    ensures View(small, Defaults(big)) == Defaults(small)
    decreases big, 1
  {
    forall k | k in Defaults(small)
      ensures View(small, Defaults(big))[k] == Defaults(small)[k]
    {
      DefaultsKeys(small, k);
      var n :| 0 <= n < |small| && small[n].slot == k;
      var i := PrunedKind(small, big, n);
      DefaultsAt(big, i);
      forall w | 0 <= w < |big| && big[w].slot == k ensures Defaults(big)[k] == InitSlot(big[w]) { DefaultsAt(big, w); }
      ViewDefaultAt(small, big, n, Defaults(big));
    }
  }

  /** What the smaller descriptor sees in a slot of what the larger one read, and what it reads itself. */
  lemma {:induction false} ViewOfReadAt(small: seq<Field>, big: seq<Field>, m: Slots, n: nat)
    requires WellFormed(small) && WellFormed(big) && Pruned(small, big) && FitsMessage(big, m) && n < |small|
    ensures var k := small[n].slot;
            && k in Defaults(small) && k in ReadMessage(small, big, m)
            && View(small, Read(big, m))[k] == ReadMessage(small, big, m)[k]
    decreases big, 1
  {
    var k, full := small[n].slot, Read(big, m);
    var i := PrunedKind(small, big, n);
    DefaultsAt(small, n);
    FitsAt(big, m, i);
    ReadAt(big, m, i);
    if w :| 0 <= w < |big| && WritesTo(big[w], m, k) {
      FitsAt(big, m, w);
      WriterIsAlone(big, m, w);
      if HasTag(small, big[w].tag) {
        var j :| 0 <= j < |small| && small[j].tag == big[w].tag;
        TwinTags(small, big, j, w);
        assert WellFormedField(small[j]) && WellFormedField(big[w]);
        ViewReadSlot(small[j], big[w], m[k]);
        ShownIs(small, j, full[k]);
        WrittenIsRead(small, big, m, j, w);
      } else {
        assert w != i && Distinct(big[if w < i then w else i], big[if w < i then i else w]);
        forall j | 0 <= j < |small| && small[j].slot == k ensures !Shows(small[j], full[k]) {
          var x := PrunedKind(small, big, j);
          if x != w { assert Distinct(big[if w < x then w else x], big[if w < x then x else w]); }
        }
        NotShown(small, k, full[k]);
        UnwrittenIsDefault(small, big, m, n);
      }
    } else {
      UnwrittenIsDefault(small, big, m, n);
      forall x | 0 <= x < |big| && big[x].slot == k ensures full[k] == InitSlot(big[x]) { FitsAt(big, m, x); ReadAt(big, m, x); }
      ViewDefaultAt(small, big, n, full);
    }
  }

  /** Fields of two descriptors with one tag are twins. */
  lemma TwinTags(small: seq<Field>, big: seq<Field>, j: nat, i: nat)
    requires WellFormed(big) && Pruned(small, big) && j < |small| && i < |big| && small[j].tag == big[i].tag
    ensures PrunedField(small[j], big[i])
  {
    forall x | 0 <= x < |big| && x != i ensures big[x].tag != big[i].tag {
      assert Distinct(big[if x < i then x else i], big[if x < i then i else x]);
    }
    var n := PrunedKind(small, big, j);
  }

  /** What the smaller descriptor sees of what the larger one read is what it reads itself. */
  lemma {:induction false} ViewOfRead(small: seq<Field>, big: seq<Field>, m: Slots)
    requires WellFormed(small) && WellFormed(big) && Pruned(small, big) && FitsMessage(big, m)
    ensures View(small, Read(big, m)) == ReadMessage(small, big, m)
    decreases big, 2
  {
    var view, once := View(small, Read(big, m)), ReadMessage(small, big, m);
    forall k | k in view || k in once
      ensures k in view && k in once && view[k] == once[k]
    {
      ReadKeys(small, big, m, k);
      DefaultsKeys(small, k);
      var n :| 0 <= n < |small| && small[n].slot == k;
      ViewOfReadAt(small, big, m, n);
    }
  }

  /** Decoding an encoded message with a descriptor that has lost fields gives the message decoded with the
      full one, without those fields. */
  lemma PrunedIsProjection(small: seq<Field>, big: seq<Field>, m: Slots)
    requires WellFormed(small) && WellFormed(big) && Pruned(small, big)
    requires FitsMessage(big, m) && EncFields(big, m).Some? && |EncFields(big, m).value| < TWO32
    ensures var e := EncFields(big, m).value;
            var full := DecodeNew(big, e);
            full.Some? && DecodeNew(small, e) == Some(View(small, full.value))
  {
    PrunedFromItself(big);
    MessageRoundTrip(big, big, m);
    MessageRoundTrip(small, big, m);
    ViewOfRead(small, big, m);
  }
}
