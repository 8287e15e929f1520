/** Small types shared by every component: octets, optional values, octets in parts. */
module Prelude {

  /** One octet of a buffer. */
  type Byte = x: int | 0 <= x < 256

  datatype Option<+T> = None | Some(value: T)

  lemma Assoc(a: seq<Byte>, b: seq<Byte>, c: seq<Byte>)
    ensures a + b + c == a + (b + c)
  {}

  /** The parts of a stretch of octets, put together. */
  function Joined(parts: seq<seq<Byte>>): seq<Byte> {
    if parts == [] then [] else parts[0] + Joined(parts[1..])
  }

  lemma {:induction false} JoinedOn(parts: seq<seq<Byte>>, n: nat)
    requires n < |parts|
    ensures Joined(parts[..n + 1]) == Joined(parts[..n]) + parts[n]
    decreases n
  {
    if n == 0 {
      assert parts[..1] == [parts[0]] && Joined(parts[..1][1..]) == [];
    } else {
      JoinedOn(parts[1..], n - 1);
      assert parts[..n + 1][1..] == parts[1..][..n] && parts[..n][1..] == parts[1..][..n - 1];
      assert parts[0] + (Joined(parts[1..][..n - 1]) + parts[n]) == parts[0] + Joined(parts[1..][..n - 1]) + parts[n];
    }
  }

  lemma {:induction false} JoinedSplit(parts: seq<seq<Byte>>, n: nat)
    requires n <= |parts|
    ensures Joined(parts[..n]) + Joined(parts[n..]) == Joined(parts)
    decreases n
  {
    if n == 0 {
      assert parts[0..] == parts && [] + Joined(parts) == Joined(parts);
    } else {
      JoinedSplit(parts[1..], n - 1);
      assert parts[..n][1..] == parts[1..][..n - 1] && parts[1..][n - 1..] == parts[n..];
      Assoc(parts[0], Joined(parts[1..][..n - 1]), Joined(parts[n..]));
    }
  }
}
