/** The bitset of required fields that pb_decode_noinit keeps, two 32-bit words of it. */
module PbRequired {
  import opened PbMessage
  import opened PbFieldIter
  import opened PbDecode
  import opened PbRoundTrip

  /** A 32-bit word, lowest bit first. */
  type Word = w: seq<bool> | |w| == 32 witness seq(32, _ => false)

  predicate Bit(words: seq<Word>, k: nat)
    requires |words| == 2 && k < 64
  {
    words[k / 32][k % 32]
  }

  /** The descriptors for which the final check is defined C: the mask is made by a shift of less than the
      width of a word, and taken from one of the two words. */
  predicate CheckDefined(count: nat) {
    count == 0 || (32 - count % 32 < 32 && count / 32 < 2)
  }

  /** allbits shifted so that the given number of low bits is left. */
  function LowBits(n: nat): Word {
    seq(32, j => j < n)
  }

  method Mark(words: array<Word>, k: nat)
    requires words.Length == 2 && k < 64
    modifies words
    ensures forall j :: 0 <= j < 64 ==> Bit(words[..], j) == (j == k || old(Bit(words[..], j)))
  {
    words[k / 32] := words[k / 32][k % 32 := true];
    forall j | 0 <= j < 64 ensures Bit(words[..], j) == (j == k || old(Bit(words[..], j))) {
      SamePlace(j, k);
    }
  }

  lemma SamePlace(j: nat, k: nat)
    ensures j / 32 == k / 32 && j % 32 == k % 32 <==> j == k
  {}

  /** The check at the end of pb_decode_noinit: whole words, then the bits left over. */
  method AllMarked(words: array<Word>, count: nat) returns (ok: bool)
    requires words.Length == 2 && CheckDefined(count)
    requires forall j :: count <= j < 64 ==> !Bit(words[..], j)
    ensures ok == forall j :: 0 <= j < count ==> Bit(words[..], j)
  {
    if count == 0 {
      return true;
    }
    if count / 32 == 1 && words[0] != LowBits(32) {
      FirstWord(words[..], count);
      return false;
    }
    ok := words[count / 32] == LowBits(count % 32);
    LastWord(words[..], count);
  }

  lemma FirstWord(words: seq<Word>, count: nat)
    requires |words| == 2 && 32 < count < 64 && words[0] != LowBits(32)
    ensures exists j :: 0 <= j < count && !Bit(words, j)
  {
    var j :| 0 <= j < 32 && !words[0][j];
    assert !Bit(words, j);
  }

  lemma LastWord(words: seq<Word>, count: nat)
    requires |words| == 2 && 0 < count < 64 && count % 32 != 0
    requires count / 32 == 1 ==> words[0] == LowBits(32)
    requires forall j :: count <= j < 64 ==> !Bit(words, j)
    ensures words[count / 32] == LowBits(count % 32) <==> forall j :: 0 <= j < count ==> Bit(words, j)
  {
    var base := if count < 32 then 0 else 32;
    assert count / 32 == base / 32 && count % 32 == count - base;
    forall j | 0 <= j < 32 ensures Bit(words, base + j) == words[count / 32][j] {
      assert (base + j) / 32 == base / 32 && (base + j) % 32 == j;
    }
    if words[count / 32] == LowBits(count % 32) {
      forall j | 0 <= j < count ensures Bit(words, j) {
        if j >= base {
          assert Bit(words, base + (j - base)) == words[count / 32][j - base];
        } else {
          assert j / 32 == 0;
        }
      }
    } else {
      var j :| 0 <= j < 32 && words[count / 32][j] != LowBits(count % 32)[j];
      assert !Bit(words, base + j) && base + j < count;
    }
  }

  // ---- Bits and required fields ----

  lemma {:induction false} IndexBelow(fields: seq<Field>, i: nat)
    requires i < |fields| && fields[i].htype.Required?
    ensures CountRequired(fields[..i]) < CountRequired(fields)
    decreases |fields|
  {
    var last := |fields| - 1;
    if i < last {
      assert fields[..last][..i] == fields[..i];
      IndexBelow(fields[..last], i);
    }
  }

  lemma IndexGrows(fields: seq<Field>, i: nat, j: nat)
    requires i < j < |fields| && fields[i].htype.Required?
    ensures CountRequired(fields[..i]) < CountRequired(fields[..j])
  {
    assert fields[..j][..i] == fields[..i];
    IndexBelow(fields[..j], i);
  }

  /** Every index below the count belongs to a required field. */
  lemma {:induction false} FieldWithIndex(fields: seq<Field>, k: nat) returns (i: nat)
    requires k < CountRequired(fields)
    ensures i < |fields| && fields[i].htype.Required? && CountRequired(fields[..i]) == k
    decreases |fields|
  {
    var last := |fields| - 1;
    if k < CountRequired(fields[..last]) {
      i := FieldWithIndex(fields[..last], k);
      assert fields[..last][..i] == fields[..i];
    } else {
      i := last;
    }
  }

  /** The bits at the indices of the required fields that were met, and no others. */
  ghost predicate Tracks(fields: seq<Field>, words: seq<Word>, seen: set<nat>)
    requires |words| == 2
  {
    && CountRequired(fields) < 64
    && (forall i :: 0 <= i < |fields| && fields[i].htype.Required? ==>
          IndexOf(fields, i) < 64 && Bit(words, IndexOf(fields, i)) == (fields[i].tag in seen))
    && (forall k :: CountRequired(fields) <= k < 64 ==> !Bit(words, k))
  }

  function IndexOf(fields: seq<Field>, i: nat): nat
    requires i < |fields|
  {
    CountRequired(fields[..i])
  }

  lemma NothingSeen(fields: seq<Field>, words: seq<Word>)
    requires |words| == 2 && CountRequired(fields) < 64 && forall k :: 0 <= k < 64 ==> !Bit(words, k)
    ensures Tracks(fields, words, {})
  {
    forall i | 0 <= i < |fields| && fields[i].htype.Required? ensures IndexOf(fields, i) < 64 {
      IndexBelow(fields, i);
    }
  }

  /** Marking the index of a required field is adding its tag. */
  lemma MarkTracks(fields: seq<Field>, before: seq<Word>, after: seq<Word>, seen: set<nat>, i: nat)
    requires WellFormed(fields) && i < |fields| && fields[i].htype.Required?
    requires |before| == 2 && |after| == 2 && Tracks(fields, before, seen)
    requires forall j :: 0 <= j < 64 ==> Bit(after, j) == (j == IndexOf(fields, i) || Bit(before, j))
    ensures Tracks(fields, after, seen + {fields[i].tag})
  {
    IndexBelow(fields, i);
    forall n | 0 <= n < |fields| && fields[n].htype.Required?
      ensures Bit(after, IndexOf(fields, n)) == (fields[n].tag in seen + {fields[i].tag})
    {
      if n < i {
        IndexGrows(fields, n, i);
        assert Distinct(fields[n], fields[i]);
      } else if i < n {
        IndexGrows(fields, i, n);
        assert Distinct(fields[i], fields[n]);
      }
    }
  }

  /** The bitset check passes exactly when every required field has occurred. */
  lemma AllBitsMeanComplete(fields: seq<Field>, words: seq<Word>, seen: set<nat>)
    requires |words| == 2 && Tracks(fields, words, seen)
    ensures (forall k :: 0 <= k < CountRequired(fields) ==> Bit(words, k)) <==> Complete(fields, seen)
  {
    if Complete(fields, seen) {
      forall k | 0 <= k < CountRequired(fields) ensures Bit(words, k) {
        var i := FieldWithIndex(fields, k);
        assert IndexOf(fields, i) == k;
      }
    } else {
      var i :| 0 <= i < |fields| && fields[i].htype.Required? && fields[i].tag !in seen;
      IndexBelow(fields, i);
      assert !Bit(words, IndexOf(fields, i));
    }
  }
}
