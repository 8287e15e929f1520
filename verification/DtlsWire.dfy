/** Constants and byte formats of DTLS 1.2 handshake fragments and records. */
module DtlsWire {
  import opened Prelude

  const HM_HEADER_LENGTH := 12
  const RT_HEADER_LENGTH := 13
  const MAX_FLIGHT := 7
  const MAX_PLAIN_LENGTH := 16384

  const U16_LIMIT := 0x1_0000
  const U24_LIMIT := 0x100_0000
  const U32_LIMIT := 0x1_0000_0000
  const U48_LIMIT := 0x1_0000_0000_0000

  /** The header of one handshake fragment (section 4.2.2 of RFC 6347). */
  datatype Header = Header(ty: Byte, msgLen: nat, seqNo: nat, fragOff: nat, fragLen: nat)
  {
    predicate Fits() {
      msgLen < U24_LIMIT && seqNo < U16_LIMIT && fragOff < U24_LIMIT && fragLen < U24_LIMIT
    }
  }

  function U16(n: nat): seq<Byte>
    requires n < U16_LIMIT
  {
    [n / 0x100, n % 0x100]
  }

  function U24(n: nat): seq<Byte>
    requires n < U24_LIMIT
  {
    [n / 0x1_0000, n / 0x100 % 0x100, n % 0x100]
  }

  function GetU16(s: seq<Byte>, i: nat): (n: nat)
    requires i + 2 <= |s|
    ensures n < U16_LIMIT
  {
    s[i] as int * 0x100 + s[i + 1] as int
  }

  function GetU24(s: seq<Byte>, i: nat): (n: nat)
    requires i + 3 <= |s|
    ensures n < U24_LIMIT
  {
    s[i] as int * 0x1_0000 + s[i + 1] as int * 0x100 + s[i + 2] as int
  }

  function WriteHeader(h: Header): (s: seq<Byte>)
    requires h.Fits()
    ensures |s| == HM_HEADER_LENGTH
  {
    [h.ty] + U24(h.msgLen) + U16(h.seqNo) + U24(h.fragOff) + U24(h.fragLen)
  }

  /** The header octet by octet. */
  lemma HeaderLayout(h: Header)
    requires h.Fits()
    ensures var s := WriteHeader(h);
            && |s| == 12 && s[0] == h.ty
            && h.msgLen == s[1] as int * 65536 + s[2] as int * 256 + s[3] as int
            && h.seqNo == s[4] as int * 256 + s[5] as int
            && h.fragOff == s[6] as int * 65536 + s[7] as int * 256 + s[8] as int
            && h.fragLen == s[9] as int * 65536 + s[10] as int * 256 + s[11] as int
  {
    assert forall n: nat | n < U24_LIMIT :: n == n / 0x1_0000 * 65536 + n / 0x100 % 0x100 * 256 + n % 0x100;
  }

  /** The result of dtls1_parse_fragment: header, body, and what follows the fragment. */
  datatype Parsed = Parsed(hdr: Header, body: seq<Byte>, rest: seq<Byte>)

  function ParseFragment(s: seq<Byte>): (r: Option<Parsed>)
    ensures r.Some? ==> r.value.hdr.Fits() && |r.value.rest| < |s| && |r.value.body| == r.value.hdr.fragLen
  {
    if |s| < HM_HEADER_LENGTH then None
    else
      var h := Header(s[0], GetU24(s, 1), GetU16(s, 4), GetU24(s, 6), GetU24(s, 9));
      if |s| < HM_HEADER_LENGTH + h.fragLen then None
      else Some(Parsed(h, s[HM_HEADER_LENGTH..HM_HEADER_LENGTH + h.fragLen], s[HM_HEADER_LENGTH + h.fragLen..]))
  }

  /** Parsing a written fragment gives it back, whatever follows it. */
  lemma ParseWritten(h: Header, body: seq<Byte>, rest: seq<Byte>)
    requires h.Fits() && |body| == h.fragLen
    ensures ParseFragment(WriteHeader(h) + body + rest) == Some(Parsed(h, body, rest))
  {
    var s := WriteHeader(h) + body + rest;
    assert s[..HM_HEADER_LENGTH] == WriteHeader(h);
    assert s[0] == h.ty;
    assert GetU24(s, 1) == h.msgLen && GetU16(s, 4) == h.seqNo;
    assert GetU24(s, 6) == h.fragOff && GetU24(s, 9) == h.fragLen;
    assert s[HM_HEADER_LENGTH..HM_HEADER_LENGTH + h.fragLen] == body;
    assert s[HM_HEADER_LENGTH + h.fragLen..] == rest;
  }

  lemma Digits(a: nat, b: nat, c: nat)
    requires a < 0x100 && b < 0x100 && c < 0x100
    ensures var n := a * 0x1_0000 + b * 0x100 + c;
            n / 0x1_0000 == a && n / 0x100 % 0x100 == b && n % 0x100 == c
  {
    assert (a * 0x1_0000 + b * 0x100 + c) / 0x100 == a * 0x100 + b;
  }

  lemma GetThenPut16(s: seq<Byte>, i: nat)
    requires i + 2 <= |s|
    ensures U16(GetU16(s, i)) == s[i..i + 2]
  {}

  lemma GetThenPut24(s: seq<Byte>, i: nat)
    requires i + 3 <= |s|
    ensures U24(GetU24(s, i)) == s[i..i + 3]
  {
    Digits(s[i], s[i + 1], s[i + 2]);
  }

  /** Only a written fragment parses. */
  lemma ParsedWasWritten(s: seq<Byte>)
    requires ParseFragment(s).Some?
    ensures var p := ParseFragment(s).value; s == WriteHeader(p.hdr) + p.body + p.rest
  {
    var p := ParseFragment(s).value;
    GetThenPut24(s, 1);
    GetThenPut16(s, 4);
    GetThenPut24(s, 6);
    GetThenPut24(s, 9);
    assert WriteHeader(p.hdr) == [s[0]] + s[1..4] + s[4..6] + s[6..9] + s[9..12];
    assert WriteHeader(p.hdr) == s[..HM_HEADER_LENGTH];
  }

  /** A handshake message as it is queued, hashed and delivered: one unfragmented fragment. */
  function WholeMessage(ty: Byte, seqNo: nat, body: seq<Byte>): (s: seq<Byte>)
    requires seqNo < U16_LIMIT && |body| < U24_LIMIT
  {
    WriteHeader(Header(ty, |body|, seqNo, 0, |body|)) + body
  }

  /** Record content types. */
  datatype ContentType = Handshake | ChangeCipherSpec | ApplicationData | Alert | Unknown

  /** A sealed record: the epoch and 48-bit number of its header, and the plaintext it opens to. */
  datatype Record = Record(ctype: ContentType, epoch: nat, number: nat, payload: seq<Byte>)

  const CCS_PAYLOAD: seq<Byte> := [1]
}
