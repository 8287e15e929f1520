/** Messages that are cut off: where the decoder notices, and where it does not. */
module PbCuts {
  import opened Prelude
  import opened PbWire
  import opened PbMessage
  import opened PbEncode
  import opened PbDecode
  import opened PbRoundTrip
  import opened PbLaws

  // ---- A read does not look beyond what it takes ----

  lemma {:induction false} VarintFromIsTight(limit: nat, s: seq<Byte>, tail: seq<Byte>, weight: nat, acc: nat)
    requires weight > 0 && limit > 0
    requires DecVarintFrom(limit, s + tail, weight, acc).Got? && DecVarintFrom(limit, s + tail, weight, acc).rest == tail
    ensures DecVarintFrom(limit, s, weight, acc) == Got(DecVarintFrom(limit, s + tail, weight, acc).value, [])
    decreases |s|
  {
    assert s != [] && (s + tail)[1..] == s[1..] + tail;
    if s[0] < 128 {
      assert |s[1..]| == 0;
    } else {
      VarintFromIsTight(limit, s[1..], tail, 128 * weight, (acc + s[0] % 128 * weight) % limit);
    }
  }

  lemma OctetsAreTight(n: nat, s: seq<Byte>, tail: seq<Byte>)
    requires ReadOctets(n, s + tail).Got? && ReadOctets(n, s + tail).rest == tail
    ensures ReadOctets(n, s) == Got(ReadOctets(n, s + tail).value, [])
  {
    assert n == |s| && (s + tail)[..n] == s && s[..n] == s && s[n..] == [];
  }

  /** Where a varint ends inside the octets taken, with what is read after it. */
  lemma PrefixIsTight(limit: nat, s: seq<Byte>, tail: seq<Byte>)
    requires limit > 0 && DecVarint(limit, s + tail).Got? && |DecVarint(limit, s + tail).rest| >= |tail|
    ensures DecVarint(limit, s).Got? && DecVarint(limit, s).value == DecVarint(limit, s + tail).value
    ensures DecVarint(limit, s + tail).rest == DecVarint(limit, s).rest + tail
  {
    var rest := DecVarint(limit, s + tail).rest;
    VarintRest(limit, s + tail, 1, 0);
    var n := |s + tail| - |rest|;
    assert s + tail == s[..n] + rest && rest == s[n..] + tail;
    VarintFromIsTight(limit, s[..n], rest, 1, 0);
    VarintIsLocal(limit, s[..n], s[n..]);
    assert s[..n] + s[n..] == s && [] + s[n..] == s[n..];
  }

  /** What is left is the end of what there was. */
  lemma {:induction false} VarintRest(limit: nat, s: seq<Byte>, weight: nat, acc: nat)
    requires weight > 0 && limit > 0
    ensures var rest := DecVarintFrom(limit, s, weight, acc).rest; rest == s[|s| - |rest|..]
    decreases |s|
  {
    if weight < limit && s != [] && s[0] >= 128 {
      VarintRest(limit, s[1..], 128 * weight, (acc + s[0] % 128 * weight) % limit);
    }
  }

  lemma DelimitedIsTight(s: seq<Byte>, tail: seq<Byte>)
    requires DecDelimited(s + tail).Got? && DecDelimited(s + tail).rest == tail
    ensures DecDelimited(s) == Got(DecDelimited(s + tail).value, [])
  {
    PrefixIsTight(TWO32, s, tail);
    var length := DecVarint(TWO32, s);
    OctetsAreTight(length.value, length.rest, tail);
  }

  lemma BlobIsTight(f: Field, s: seq<Byte>, tail: seq<Byte>)
    requires DecBlob(f, s + tail).Got? && DecBlob(f, s + tail).rest == tail
    ensures DecBlob(f, s) == Got(DecBlob(f, s + tail).value, [])
  {
    PrefixIsTight(TWO32, s, tail);
    var length := DecVarint(TWO32, s);
    if f.ltype.FixedBytes? && length.value == 0 {
      assert |length.rest + tail| == |tail|;
    } else {
      OctetsAreTight(length.value, length.rest, tail);
    }
  }

  lemma NumberIsTight(f: Field, s: seq<Byte>, tail: seq<Byte>)
    requires f.ltype.Packable() && DecNumber(f, s + tail).Got? && DecNumber(f, s + tail).rest == tail
    ensures DecNumber(f, s) == Got(DecNumber(f, s + tail).value, [])
  {
    if f.ltype.Integer() {
      VarintFromIsTight(TWO64, s, tail, 1, 0);
    } else {
      OctetsAreTight(if f.ltype.Fixed32? then 4 else 8, s, tail);
    }
  }

  lemma FieldIsTight(f: Field, slot: Slot, wireType: nat, s: seq<Byte>, tail: seq<Byte>)
    requires DecField(f, slot, wireType, s + tail).Got? && DecField(f, slot, wireType, s + tail).rest == tail
    ensures DecField(f, slot, wireType, s) == Got(DecField(f, slot, wireType, s + tail).value, [])
  {
    if f.htype.Repeated? && wireType == WT_STRING && f.ltype.Packable() {
      DelimitedIsTight(s, tail);
    } else if f.ltype.Packable() {
      NumberIsTight(f, s, tail);
    } else if f.ltype.Submessage? {
      DelimitedIsTight(s, tail);
    } else {
      BlobIsTight(f, s, tail);
    }
  }

  lemma {:induction false} SkipVarintIsTight(s: seq<Byte>, tail: seq<Byte>)
    requires SkipVarint(s + tail) == Some(tail)
    ensures SkipVarint(s) == Some([])
    decreases |s|
  {
    assert s != [] && (s + tail)[1..] == s[1..] + tail;
    if s[0] < 128 {
      assert |s[1..]| == 0;
    } else {
      SkipVarintIsTight(s[1..], tail);
    }
  }

  lemma SkipIsTight(wireType: nat, s: seq<Byte>, tail: seq<Byte>)
    requires SkipField(wireType, s + tail) == Some(tail)
    ensures SkipField(wireType, s) == Some([])
  {
    if wireType == WT_VARINT { SkipVarintIsTight(s, tail); }
    else if wireType == WT_64BIT { OctetsAreTight(8, s, tail); }
    else if wireType == WT_STRING { DelimitedIsTight(s, tail); }
    else { OctetsAreTight(4, s, tail); }
  }

  lemma TakeIsTight(fields: seq<Field>, st: State, tag: nat, wireType: nat, s: seq<Byte>, tail: seq<Byte>)
    requires Take(fields, st, tag, wireType, s + tail).Next? && Take(fields, st, tag, wireType, s + tail).rest == tail
    ensures Take(fields, st, tag, wireType, s) == Next(Take(fields, st, tag, wireType, s + tail).st, [])
  {
    var i := Find(fields, tag);
    if i < |fields| {
      FieldIsTight(fields[i], SlotAt(st.slots, fields[i]), wireType, s, tail);
    } else {
      SkipIsTight(wireType, s, tail);
    }
  }

  // ---- Pieces: a tag and its value ----

  datatype Piece = Piece(wireType: nat, tag: nat, value: seq<Byte>) {
    predicate Sound() {
      wireType < 8 && 0 < tag < 0x2000_0000 && SkipField(wireType, value) == Some([])
    }

    function Tag(): seq<Byte> {
      EncTag(wireType, tag)
    }

    function Octets(): seq<Byte> {
      Tag() + value
    }
  }

  function Octets(pieces: seq<Piece>): seq<Byte> {
    if pieces == [] then [] else pieces[0].Octets() + Octets(pieces[1..])
  }

  /** The wire type that the encoder gives a field; numbers in arrays are packed. */
  function NaturalType(f: Field): nat {
    if f.htype.Repeated? && f.ltype.Packable() then WT_STRING else f.ltype.WireType()
  }

  /** A field that has the tag expects the wire type. */
  predicate Suits(fields: seq<Field>, p: Piece) {
    Find(fields, p.tag) < |fields| ==> p.wireType == NaturalType(fields[Find(fields, p.tag)])
  }

  predicate AllSuit(fields: seq<Field>, pieces: seq<Piece>) {
    forall i :: 0 <= i < |pieces| ==> pieces[i].Sound() && Suits(fields, pieces[i])
  }

  lemma {:induction false} SameEnd(limit: nat, s: seq<Byte>, weight: nat, acc: nat)
    requires weight > 0 && limit > 0 && DecVarintFrom(limit, s, weight, acc).Got?
    ensures SkipVarint(s) == Some(DecVarintFrom(limit, s, weight, acc).rest)
    decreases |s|
  {
    if s[0] >= 128 {
      SameEnd(limit, s[1..], 128 * weight, (acc + s[0] % 128 * weight) % limit);
    }
  }

  /** A field that reads a value of its wire type takes just what skipping it would. */
  lemma ReadsWhatSkipSkips(f: Field, slot: Slot, s: seq<Byte>)
    requires DecField(f, slot, NaturalType(f), s).Got?
    ensures SkipField(NaturalType(f), s) == Some(DecField(f, slot, NaturalType(f), s).rest)
  {
    if !f.htype.Repeated? && f.ltype.Integer() {
      SameEnd(TWO64, s, 1, 0);
    }
  }

  /** A step over a piece takes the piece, whatever follows, or fails. */
  lemma StepTakesPiece(fields: seq<Field>, st: State, p: Piece, tail: seq<Byte>)
    requires p.Sound() && Suits(fields, p)
    ensures var turn := Step(fields, st, p.Octets() + tail);
            turn == Bad || (turn.Next? && turn.rest == tail && Step(fields, st, p.Octets()) == Next(turn.st, []))
    ensures Step(fields, st, p.Octets() + tail).Next? ==>
              Step(fields, st, p.Octets() + tail).st.seen == st.seen + Needed(fields, p)
  {
    Assoc(p.Tag(), p.value, tail);
    TagRoundTrip(p.wireType, p.tag, p.value + tail);
    TagRoundTrip(p.wireType, p.tag, p.value);
    SkipIsLocal(p.wireType, p.value, tail);
    assert [] + tail == tail;
    var i := Find(fields, p.tag);
    var turn := Take(fields, st, p.tag, p.wireType, p.value + tail);
    if turn.Next? {
      if i < |fields| { ReadsWhatSkipSkips(fields[i], SlotAt(st.slots, fields[i]), p.value + tail); }
      TakeIsTight(fields, st, p.tag, p.wireType, p.value, tail);
    }
  }

  /** The tag, if a required field has it. */
  function Needed(fields: seq<Field>, p: Piece): set<nat> {
    var i := Find(fields, p.tag);
    if i < |fields| && fields[i].htype.Required? then {p.tag} else {}
  }

  function NeededBy(fields: seq<Field>, pieces: seq<Piece>): set<nat> {
    if pieces == [] then {} else Needed(fields, pieces[0]) + NeededBy(fields, pieces[1..])
  }

  // ---- A cut inside a piece ----

  /** Part of an encoded tag is octets that all announce more. */
  lemma {:induction false} PartOfVarint(u: nat, j: nat)
    requires j < |EncVarint(u)|
    ensures AllContinue(EncVarint(u)[..j])
    decreases u
  {
    if u >= 128 && j > 0 {
      PartOfVarint(u / 128, j - 1);
      assert EncVarint(u)[..j] == [EncVarint(u)[0]] + EncVarint(u / 128)[..j - 1];
    }
  }

  /** A cut inside the tag, not at its start, stops the decoder where the tag began. */
  lemma CutInTag(fields: seq<Field>, st: State, p: Piece, j: nat)
    requires p.Sound() && 0 < j < |p.Tag()|
    ensures Run(fields, st, p.Octets()[..j]) == Stopped(st, [])
  {
    assert p.Octets()[..j] == p.Tag()[..j];
    PartOfVarint(8 * p.tag + p.wireType, j);
    TagIsShort(p.wireType, p.tag);
    CutTag(p.Tag()[..j]);
  }

  /** A proper prefix of one field that has its whole tag does not decode: varint, fixed, length-prefixed,
      packed, submessage or skipped. */
  lemma CutInValue(fields: seq<Field>, st: State, p: Piece, j: nat)
    requires p.Sound() && Suits(fields, p) && |p.Tag()| <= j < |p.Octets()|
    ensures Run(fields, st, p.Octets()[..j]) == Failed
  {
    var part := p.Octets()[..j];
    var v := p.value[..j - |p.Tag()|];
    var more := p.value[j - |p.Tag()|..];
    assert part == p.Tag() + v && p.value == v + more && p.Octets() == part + more;
    TagRoundTrip(p.wireType, p.tag, v);
    if Step(fields, st, part).Next? {
      StepIsLocal(fields, st, part, more);
      assert p.Octets() + [] == p.Octets();
      StepTakesPiece(fields, st, p, []);
    }
  }

  // ---- A cut anywhere ----

  /** How many pieces are whole in the first k octets. */
  function WholePieces(pieces: seq<Piece>, k: nat): (n: nat)
    ensures n <= |pieces|
  {
    if pieces == [] || k < |pieces[0].Octets()| then 0 else 1 + WholePieces(pieces[1..], k - |pieces[0].Octets()|)
  }

  /** The cut is between two pieces, or inside a tag. */
  predicate CutUnnoticed(pieces: seq<Piece>, k: nat) {
    if pieces == [] then k == 0
    else if k < |pieces[0].Octets()| then k < |pieces[0].Tag()|
    else CutUnnoticed(pieces[1..], k - |pieces[0].Octets()|)
  }

  /** Between two pieces or inside a tag, said with positions. */
  lemma {:induction false} CutPosition(pieces: seq<Piece>, k: nat)
    requires k <= |Octets(pieces)|
    ensures var n := WholePieces(pieces, k);
            && |Octets(pieces[..n])| <= k
            && (n < |pieces| ==> k < |Octets(pieces[..n])| + |pieces[n].Octets()|)
            && (CutUnnoticed(pieces, k) <==>
                  k == |Octets(pieces[..n])| || (n < |pieces| && k < |Octets(pieces[..n])| + |pieces[n].Tag()|))
  {
    if pieces != [] && k >= |pieces[0].Octets()| {
      CutPosition(pieces[1..], k - |pieces[0].Octets()|);
      var n := WholePieces(pieces, k);
      assert pieces[..n][1..] == pieces[1..][..n - 1] && pieces[..n][0] == pieces[0];
    }
  }

  /** Of a stream of pieces that decodes, the first k octets decode exactly when the cut goes unnoticed, and
      then the pieces before the cut were taken. */
  lemma {:induction false} CutStream(fields: seq<Field>, st: State, pieces: seq<Piece>, k: nat)
    requires AllSuit(fields, pieces) && Run(fields, st, Octets(pieces)).Clean? && k <= |Octets(pieces)|
    ensures var o := Run(fields, st, Octets(pieces)[..k]);
            && (o.Failed? <==> !CutUnnoticed(pieces, k))
            && (!o.Failed? ==> o.st.seen == st.seen + NeededBy(fields, pieces[..WholePieces(pieces, k)]))
    decreases |pieces|
  {
    hide Step, EncTag, Needed;
    if pieces == [] {
      assert st.seen + {} == st.seen;
    } else {
      var p, tail := pieces[0], Octets(pieces[1..]);
      var n := |p.Octets()|;
      StepTakesPiece(fields, st, p, tail);
      if k < n {
        assert Octets(pieces)[..k] == p.Octets()[..k] && st.seen + {} == st.seen;
        if k >= |p.Tag()| {
          CutInValue(fields, st, p, k);
        } else if k > 0 {
          CutInTag(fields, st, p, k);
        }
      } else {
        var st1 := Step(fields, st, p.Octets()).st;
        assert Octets(pieces)[..k] == p.Octets() + tail[..k - n];
        StepIsLocal(fields, st, p.Octets(), tail[..k - n]);
        assert [] + tail[..k - n] == tail[..k - n];
        CutStream(fields, st1, pieces[1..], k - n);
        var m := WholePieces(pieces, k);
        assert pieces[..m][1..] == pieces[1..][..m - 1] && pieces[..m][0] == p;
      }
    }
  }

  // ---- The pieces of an encoded message ----

  function PiecesOfItems(f: Field, items: seq<Value>): seq<Piece>
    requires EncEach(f, items).Some?
  {
    if items == [] then []
    else
      assert EncTagged(f, items[0]).Some? && EncValue(f, items[0]).Some?;
      [Piece(f.ltype.WireType(), f.tag, EncValue(f, items[0]).value)] + PiecesOfItems(f, items[1..])
  }

  function PiecesOfField(f: Field, slot: Slot): seq<Piece>
    requires EncField(f, slot).Some?
  {
    if f.ltype.Extension? then []
    else if f.htype.Repeated? then
      var items := ItemsOf(slot);
      assert EncArray(f, items).Some?;
      if items == [] then []
      else if f.ltype.Packable() then [Piece(WT_STRING, f.tag, Delimited(EncItems(f, items).value))]
      else PiecesOfItems(f, items)
    else if Present(f, slot) then
      assert EncTagged(f, Held(slot)).Some?;
      [Piece(f.ltype.WireType(), f.tag, EncValue(f, Held(slot)).value)]
    else []
  }

  /** What pb_encode writes, tag by tag. */
  function PiecesOf(fields: seq<Field>, m: Slots): seq<Piece>
    requires EncFields(fields, m).Some?
  {
    if fields == [] then []
    else PiecesOfField(fields[0], SlotAt(m, fields[0])) + PiecesOf(fields[1..], m)
  }

  lemma {:induction false} OctetsJoin(a: seq<Piece>, b: seq<Piece>)
    ensures Octets(a + b) == Octets(a) + Octets(b)
    decreases |a|
  {
    if a == [] {
      assert a + b == b;
    } else {
      assert (a + b)[1..] == a[1..] + b;
      OctetsJoin(a[1..], b);
      Assoc(a[0].Octets(), Octets(a[1..]), Octets(b));
    }
  }

  lemma {:induction false} ItemPieces(f: Field, items: seq<Value>)
    requires EncEach(f, items).Some?
    ensures Octets(PiecesOfItems(f, items)) == EncEach(f, items).value
    decreases |items|
  {
    if items != [] { ItemPieces(f, items[1..]); }
  }

  lemma FieldPieces(f: Field, slot: Slot)
    requires EncField(f, slot).Some?
    ensures Octets(PiecesOfField(f, slot)) == EncField(f, slot).value
  {
    var ps := PiecesOfField(f, slot);
    if f.htype.Repeated? && !f.ltype.Packable() && !f.ltype.Extension? {
      ItemPieces(f, ItemsOf(slot));
    } else if ps != [] {
      assert Octets(ps[1..]) == [] && ps[0].Octets() + [] == ps[0].Octets();
    }
  }

  /** The pieces are the encoding. */
  lemma {:induction false} PiecesAreEncoding(fields: seq<Field>, m: Slots)
    requires EncFields(fields, m).Some?
    ensures Octets(PiecesOf(fields, m)) == EncFields(fields, m).value
    decreases |fields|
  {
    if fields != [] {
      FieldPieces(fields[0], SlotAt(m, fields[0]));
      PiecesAreEncoding(fields[1..], m);
      OctetsJoin(PiecesOfField(fields[0], SlotAt(m, fields[0])), PiecesOf(fields[1..], m));
    }
  }

  /** A piece of a field: with its tag, of its wire type, and whole. */
  predicate PieceOf(f: Field, p: Piece) {
    p.Sound() && p.tag == f.tag && p.wireType == NaturalType(f) && !f.ltype.Extension?
  }

  lemma {:induction false} ItemPiecesAre(f: Field, items: seq<Value>)
    requires WellFormedField(f) && f.htype.Repeated? && !f.ltype.Packable() && !f.ltype.Extension?
    requires EncEach(f, items).Some? && |EncEach(f, items).value| < TWO32
    ensures forall p <- PiecesOfItems(f, items) :: PieceOf(f, p)
    decreases |items|
  {
    if items != [] {
      ValuePiece(f, items[0]);
      ItemPiecesAre(f, items[1..]);
    }
  }

  lemma ValuePiece(f: Field, v: Value)
    requires EncValue(f, v).Some? && |EncValue(f, v).value| < TWO32
    ensures SkipField(f.ltype.WireType(), EncValue(f, v).value) == Some([])
  {
    SkipValue(f, v, []);
    assert EncValue(f, v).value + [] == EncValue(f, v).value;
  }

  lemma FieldPiecesAre(f: Field, slot: Slot)
    requires WellFormedField(f) && EncField(f, slot).Some? && |EncField(f, slot).value| < TWO32
    ensures forall p <- PiecesOfField(f, slot) :: PieceOf(f, p)
    ensures f.htype.Required? ==> PiecesOfField(f, slot) != []
  {
    if f.ltype.Extension? {
    } else if f.htype.Repeated? {
      var items := ItemsOf(slot);
      if items != [] && f.ltype.Packable() {
        var body := EncItems(f, items).value;
        DelimitedRoundTrip(body, []);
        assert Delimited(body) + [] == Delimited(body);
      } else if items != [] {
        ItemPiecesAre(f, items);
      }
    } else if Present(f, slot) {
      ValuePiece(f, Held(slot));
    }
  }

  /** Every piece is of one of the fields. */
  lemma {:induction false} EveryPiece(fields: seq<Field>, m: Slots)
    requires WellFormed(fields) && EncFields(fields, m).Some? && |EncFields(fields, m).value| < TWO32
    ensures forall p <- PiecesOf(fields, m) :: exists i :: 0 <= i < |fields| && PieceOf(fields[i], p)
    decreases |fields|
  {
    if fields != [] {
      TailIsWellFormed(fields);
      FieldPiecesAre(fields[0], SlotAt(m, fields[0]));
      EveryPiece(fields[1..], m);
      forall p | p in PiecesOf(fields, m)
        ensures exists i :: 0 <= i < |fields| && PieceOf(fields[i], p)
      {
        if p in PiecesOf(fields[1..], m) {
          var i :| 0 <= i < |fields[1..]| && PieceOf(fields[1..][i], p);
          assert PieceOf(fields[i + 1], p);
        } else {
          assert PieceOf(fields[0], p);
        }
      }
    }
  }

  lemma PiecesSuit(small: seq<Field>, big: seq<Field>, m: Slots)
    requires WellFormed(big) && Pruned(small, big) && EncFields(big, m).Some? && |EncFields(big, m).value| < TWO32
    ensures AllSuit(small, PiecesOf(big, m))
  {
    var ps := PiecesOf(big, m);
    EveryPiece(big, m);
    hide PiecesOf, EncFields;
    forall n | 0 <= n < |ps|
      ensures ps[n].Sound() && Suits(small, ps[n])
    {
      assert ps[n] in ps;
      var i :| 0 <= i < |big| && PieceOf(big[i], ps[n]);
      var k := Find(small, ps[n].tag);
      if k < |small| {
        var j := PrunedKind(small, big, k);
        assert i == j;
      }
    }
  }

  /** The tags needed of the pieces are those of required fields. */
  lemma {:induction false} NeededTags(fields: seq<Field>, pieces: seq<Piece>, f: Field)
    requires f in fields && f.htype.Required? && !f.ltype.Extension? && WellFormed(fields)
    ensures f.tag in NeededBy(fields, pieces) <==> exists n :: 0 <= n < |pieces| && pieces[n].tag == f.tag
    decreases |pieces|
  {
    if pieces != [] {
      NeededTags(fields, pieces[1..], f);
      FoundField(fields, f);
      if exists n :: 0 <= n < |pieces| && pieces[n].tag == f.tag {
        var n :| 0 <= n < |pieces| && pieces[n].tag == f.tag;
        assert n > 0 ==> pieces[1..][n - 1].tag == f.tag;
      }
      if f.tag in NeededBy(fields, pieces[1..]) {
        var n :| 0 <= n < |pieces[1..]| && pieces[1..][n].tag == f.tag;
        assert pieces[n + 1].tag == f.tag;
      }
    }
  }

  lemma FoundField(fields: seq<Field>, f: Field)
    requires f in fields && !f.ltype.Extension? && WellFormed(fields)
    ensures Find(fields, f.tag) < |fields| && fields[Find(fields, f.tag)] == f
  {
    var i :| 0 <= i < |fields| && fields[i] == f;
    var k := Find(fields, f.tag);
    assert k <= i;
  }

  /** Every required field is among the pieces. */
  predicate HasRequired(fields: seq<Field>, pieces: seq<Piece>) {
    forall f <- fields :: f.htype.Required? ==> exists n :: 0 <= n < |pieces| && pieces[n].tag == f.tag
  }

  /** Of an encoded message the first k octets decode, with the descriptor it was encoded with or one that
      has lost fields, if and only if the cut is between two fields or inside a tag, and every required field
      lies before it. */
  lemma CutMessage(small: seq<Field>, big: seq<Field>, m: Slots, k: nat)
    requires WellFormed(small) && WellFormed(big) && Pruned(small, big)
    requires FitsMessage(big, m) && EncFields(big, m).Some? && |EncFields(big, m).value| < TWO32
    requires k <= |EncFields(big, m).value|
    ensures var pieces := PiecesOf(big, m);
            DecodeNew(small, EncFields(big, m).value[..k]).Some?
            <==> CutUnnoticed(pieces, k) && HasRequired(small, pieces[..WholePieces(pieces, k)])
  {
    hide PiecesOf, CutUnnoticed, HasRequired, WholePieces, ReadOver;
    var e, pieces := EncFields(big, m).value, PiecesOf(big, m);
    var st := State(Defaults(small), {});
    DefaultsAreFresh(small);
    assert [] + small == small && e + [] == e;
    RunMessage(small, [], small, big, m, st, []);
    PiecesAreEncoding(big, m);
    PiecesSuit(small, big, m);
    CutStream(small, st, pieces, k);
    NeededMeansRequired(small, pieces[..WholePieces(pieces, k)]);
    assert {} + NeededBy(small, pieces[..WholePieces(pieces, k)]) == NeededBy(small, pieces[..WholePieces(pieces, k)]);
  }

  lemma NeededMeansRequired(fields: seq<Field>, pieces: seq<Piece>)
    requires WellFormed(fields)
    ensures Complete(fields, NeededBy(fields, pieces)) <==> HasRequired(fields, pieces)
  {
    forall i | 0 <= i < |fields| && fields[i].htype.Required?
      ensures fields[i].tag in NeededBy(fields, pieces) <==> exists n :: 0 <= n < |pieces| && pieces[n].tag == fields[i].tag
    {
      NeededTags(fields, pieces, fields[i]);
    }
  }
}
