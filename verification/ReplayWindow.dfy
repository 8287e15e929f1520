/** The DTLS anti-replay window (section 4.1.2.6 of RFC 6347; DTLS1_BITMAP in BoringSSL).
    Sequence numbers are the 64-bit big-endian values of the record header: epoch, then number. */
module ReplayWindow {

  const WINDOW_SIZE := 64

  /** A 64-bit word as its bits, least significant first. */
  type Word = w: seq<bool> | |w| == WINDOW_SIZE witness seq(WINDOW_SIZE, _ => false)

  const ZERO: Word := seq(WINDOW_SIZE, _ => false)

  /** w << shift, for a shift below the word size. */
  function ShiftLeft(w: Word, shift: nat): Word
    requires shift < WINDOW_SIZE
  {
    seq(shift, _ => false) + w[..WINDOW_SIZE - shift]
  }

  /** Reference definition: drop a number that was accepted before, or that is at least 64
      below an accepted one. */
  ghost predicate Discards(accepted: set<nat>, n: nat) {
    n in accepted || exists m :: m in accepted && m >= n + 64
  }

  ghost predicate Represents(bits: Word, max: nat, accepted: set<nat>) {
    && (forall m | m in accepted :: m <= max)
    && (if accepted == {} then max == 0 else max in accepted)
    && (forall i: nat | i < WINDOW_SIZE :: bits[i] <==> i <= max && max - i in accepted)
  }

  class Bitmap {
    var bits: Word
    var maxSeqNum: nat
    ghost var accepted: set<nat>

    ghost predicate Valid()
      reads this
    {
      Represents(bits, maxSeqNum, accepted)
    }

    /** A zeroed bitmap: no record of the epoch accepted yet. */
    constructor ()
      ensures Valid() && accepted == {}
    {
      bits, maxSeqNum, accepted := ZERO, 0, {};
    }

    /** Zeroing every field. */
    method Clear()
      modifies this
      ensures Valid() && accepted == {}
    {
      bits, maxSeqNum, accepted := ZERO, 0, {};
    }

    /** dtls1_bitmap_should_discard refines the reference definition. */
    method ShouldDiscard(n: nat) returns (discard: bool)
      requires Valid()
      ensures discard <==> Discards(accepted, n)
    {
      if n > maxSeqNum {
        return false;
      }
      var idx := maxSeqNum - n;
      if idx >= WINDOW_SIZE {
        return true;
      }
      assert maxSeqNum - idx == n;
      return bits[idx];
    }

    /** dtls1_bitmap_record. */
    method Record(n: nat)
      requires Valid() && !Discards(accepted, n)
      modifies this
      ensures Valid() && accepted == old(accepted) + {n}
    {
      if n > maxSeqNum {
        var shift := n - maxSeqNum;
        bits := if shift >= WINDOW_SIZE then ZERO else ShiftLeft(bits, shift);
        maxSeqNum := n;
      }
      var idx := maxSeqNum - n;
      if idx < WINDOW_SIZE {
        bits := bits[idx := true];
      }
      accepted := accepted + {n};
    }
  }
}
