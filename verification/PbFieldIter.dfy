/** The wrapping field iterator of pb_common.c, with its running offsets. */
module PbFieldIter {
  import opened PbMessage

  /** PB_SIZE_MAX as a data_offset: this member shares the storage of the one before it. */
  const SAME_UNION := 0xffff_ffff

  /** What an iterator knows at a position: the offsets of the data and of the count or has flag from
      the start of the struct, and how many required fields come before. */
  datatype Spot = Spot(data: int, size: int, required: nat)

  /** How far the data pointer moves past a field. */
  function Extent(f: Field): nat {
    if f.htype.Repeated? then f.size * f.count else f.size
  }

  predicate SharesStorage(prev: Field, f: Field) {
    prev.htype.OneOf? && f.htype.OneOf? && f.dataOffset == SAME_UNION
  }

  /** What a scan from the first field knows on reaching field i. */
  function SpotAt(fields: seq<Field>, i: nat): Spot
    requires i < |fields|
  {
    if i == 0 then Spot(fields[0].dataOffset, fields[0].dataOffset + fields[0].sizeOffset, 0)
    else
      var before := SpotAt(fields, i - 1);
      if SharesStorage(fields[i - 1], fields[i]) then before
      else
        var data := before.data + Extent(fields[i - 1]) + fields[i].dataOffset;
        Spot(data, data + fields[i].sizeOffset, before.required + if fields[i - 1].htype.Required? then 1 else 0)
  }

  function CountRequired(fields: seq<Field>): (n: nat)
    ensures n <= |fields|
  {
    if fields == [] then 0
    else CountRequired(fields[..|fields| - 1]) + if fields[|fields| - 1].htype.Required? then 1 else 0
  }

  /** The required index is the number of required fields before the position, unions or not. */
  lemma {:induction false} RequiredIndexCounts(fields: seq<Field>, i: nat)
    requires i < |fields|
    ensures SpotAt(fields, i).required == CountRequired(fields[..i])
  {
    if i > 0 {
      RequiredIndexCounts(fields, i - 1);
      assert fields[..i][..i - 1] == fields[..i - 1];
    }
  }

  /** All members of a union have one data pointer and one pointer to the which_ field. */
  lemma {:induction false} UnionMembersShareStorage(fields: seq<Field>, i: nat, j: nat)
    requires i <= j < |fields|
    requires forall k :: i < k <= j ==> SharesStorage(fields[k - 1], fields[k])
    ensures SpotAt(fields, j) == SpotAt(fields, i)
  {
    if i < j { UnionMembersShareStorage(fields, i, j - 1); }
  }

  predicate Matches(f: Field, tag: nat) {
    f.tag == tag && !f.ltype.Extension?
  }

  /** The position that many steps after another, going round. */
  function Ahead(n: nat, start: nat, steps: nat): (i: nat)
    requires start < n && steps <= n
    ensures i < n
  {
    if start + steps < n then start + steps else start + steps - n
  }

  /** Every position is a unique number of steps ahead of the start. */
  lemma AheadReachesAll(n: nat, start: nat, i: nat)
    requires start < n && i < n
    ensures var steps := if start <= i then i - start else i + n - start;
            steps < n && Ahead(n, start, steps) == i
  {}

  /** Going round from start, the tag matches after that many steps and not before. */
  ghost predicate MatchesAfter(fields: seq<Field>, start: nat, tag: nat, steps: nat)
    requires start < |fields|
  {
    && steps < |fields|
    && Matches(fields[Ahead(|fields|, start, steps)], tag)
    && forall k :: 0 <= k < steps ==> !Matches(fields[Ahead(|fields|, start, k)], tag)
  }

  class FieldIter {
    const fields: seq<Field>
    var pos: nat
    var requiredIndex: nat
    var data: int
    var size: int

    ghost predicate Valid()
      reads this
    {
      if fields == [] then pos == 0 && data == 0 && size == 0 && requiredIndex == 0
      else pos < |fields| && Spot(data, size, requiredIndex) == SpotAt(fields, pos)
    }

    constructor (fields: seq<Field>)
      ensures Valid() && this.fields == fields && pos == 0
    {
      this.fields := fields;
      pos, requiredIndex := 0, 0;
      data := if fields == [] then 0 else fields[0].dataOffset;
      size := if fields == [] then 0 else fields[0].dataOffset + fields[0].sizeOffset;
    }

    /** pb_field_iter_begin. The terminator of an empty descriptor is all zeros. */
    method Begin() returns (more: bool)
      modifies this
      ensures Valid() && pos == 0 && more == (fields != [])
    {
      pos, requiredIndex := 0, 0;
      data := if fields == [] then 0 else fields[0].dataOffset;
      size := if fields == [] then 0 else data + fields[0].sizeOffset;
      more := fields != [];
    }

    /** pb_field_iter_next: false on wrapping back to the first field. */
    method Next() returns (more: bool)
      requires Valid()
      modifies this
      ensures Valid()
      ensures more == (old(pos) + 1 < |fields|)
      ensures pos == if more then old(pos) + 1 else 0
    {
      if fields == [] {
        return false;
      }
      var prev := fields[pos];
      pos := pos + 1;
      if pos == |fields| {
        var _ := Begin();
        return false;
      }
      if SharesStorage(prev, fields[pos]) {
        return true;
      }
      if prev.htype.Required? {
        requiredIndex := requiredIndex + 1;
      }
      data := data + Extent(prev) + fields[pos].dataOffset;
      size := data + fields[pos].sizeOffset;
      return true;
    }

    /** pb_field_iter_find: the first match at or after the position, going round; on failure the
        iterator is back where it began. The terminator of an empty descriptor has tag 0. */
    method Find(tag: nat) returns (found: bool)
      requires Valid()
      modifies this
      ensures Valid()
      ensures fields == [] ==> found == (tag == 0)
      ensures fields != [] ==> found == exists i :: 0 <= i < |fields| && Matches(fields[i], tag)
      ensures fields != [] && found ==>
        exists steps :: MatchesAfter(fields, old(pos), tag, steps) && pos == Ahead(|fields|, old(pos), steps)
      ensures !found ==> pos == old(pos)
    {
      if fields == [] {
        return tag == 0;
      }
      var start, n := pos, |fields|;
      ghost var steps := 0;
      while true
        invariant Valid() && steps < n && pos == Ahead(n, start, steps)
        invariant forall k :: 0 <= k < steps ==> !Matches(fields[Ahead(n, start, k)], tag)
        decreases n - steps
      {
        if Matches(fields[pos], tag) {
          assert MatchesAfter(fields, start, tag, steps);
          return true;
        }
        var _ := Next();
        steps := steps + 1;
        if pos == start {
          NoneMatches(fields, start, tag);
          return false;
        }
      }
    }

    /** pb_decode_noinit's last scan: how many required fields the descriptor has, found by running the
        iterator on to the end of the array. */
    method CountRequiredFields() returns (count: nat)
      requires Valid()
      modifies this
      ensures Valid() && count == CountRequired(fields)
    {
      if fields == [] {
        return 0;
      }
      var more := true;
      count := requiredIndex;
      ghost var last := pos;
      var lastType := fields[pos].htype;
      while more
        invariant Valid()
        invariant last < |fields| && lastType == fields[last].htype && count == SpotAt(fields, last).required
        invariant if more then pos == last || pos == last + 1 else last == |fields| - 1
        decreases |fields| - last, if more && pos == last then 1 else 0, more
      {
        count, lastType := requiredIndex, fields[pos].htype;
        last := pos;
        more := Next();
      }
      RequiredIndexCounts(fields, last);
      assert fields[..last + 1] == fields;
      if lastType.Required? {
        count := count + 1;
      }
    }
  }

  lemma NoneMatches(fields: seq<Field>, start: nat, tag: nat)
    requires start < |fields|
    requires forall k :: 0 <= k < |fields| ==> !Matches(fields[Ahead(|fields|, start, k)], tag)
    ensures forall i :: 0 <= i < |fields| ==> !Matches(fields[i], tag)
  {
    forall i | 0 <= i < |fields| ensures !Matches(fields[i], tag) {
      AheadReachesAll(|fields|, start, i);
    }
  }
}
