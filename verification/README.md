# Proofs about the protocol code under SocialServiceApp/Pods

Dafny models of four parts of the vendored C and C++ libraries, with proofs of what those parts are for:
BoringSSL's DTLS 1.2 handshake transport, the nanopb codec for Protocol Buffers, BoringSSL's TLS 1.0 to 1.2
handshake machines with the TLS framing and write path, and BoringSSL's reference counts. The Swift application
around them has no logic that is modelled here. Source files named without a directory are in
`SocialServiceApp/Pods/BoringSSL/ssl` or `SocialServiceApp/Pods/nanopb`. `dafny verify dfyconfig.toml` checks all
files.

## What is modelled

**DTLS handshake transport** (RFC 6347 sections 4.1.2.6 and 4.2). `DtlsBits`, `Reassembly`: the bitmask over a
message's octets, as an object that marks ranges in place, against the set of octets received. `ReplayWindow`: the
64-bit sliding window against the set of accepted numbers. `DtlsWire`: fragment headers. `DtlsReceiver`: the ring of
seven messages as a value, with its invariants; `DtlsIncoming`: the object that updates it. `DtlsFlight`: what a
legitimate sequence of records is, for the cursor of a flight and for the record counters; `DtlsOutgoing`: the object
that seals, packs, sends, rolls back and retransmits. `DtlsRun`: sender, receiver and a network that drops,
duplicates and reorders, and the theorems about every run; a call on the sending object is shown to be such events.
`DtlsCcs`: that every ChangeCipherSpec that lands is taken. `DtlsProgress`: what a receiver has once the records of a
whole retransmission have reached it, and what no record can make it do.

**nanopb.** `PbWire` and `PbMessage`: varints, tags, descriptors and structs. `PbEncode` and `PbDecode`: the codec as
functions. `PbFormat`: the octets of numbers, tags and lengths, said without those functions, and which octets are
taken. `PbRoundTrip`, `PbReadBack`, `PbLaws`: exactly which messages come back as they were, pruned descriptors,
the decode loop as a fold, packed and merged fields. `PbCuts`: exactly which prefixes of an encoded message decode.
`PbOutput`, `PbEncoder`, `PbInput`, `PbFieldIter`, `PbRequired`, `PbDecoder`: streams, field iterator, required-field
bitset and the loops themselves, as objects and methods proved against those functions.

**TLS handshake and write path.** `TlsHandshake`: the two machines as functions of a state; `TlsMachine`: the object
with one method for each `do_` function of handshake_client.cc and handshake_server.cc, each of which leaves the object
in the state that function of `TlsHandshake` says, effects of a failing call included, and the driving loops. `TlsAlone`:
one machine against any peer. `TlsHistory`, `TlsTraces`, `TlsIntegrity`: all that such a machine has said and heard, and
what it has checked of it by the time it is done. `TlsScript`, `TlsFollows`, `TlsRun`: the message flows of
RFC 5246 section 7.3, that every state follows them, and what that means for a client and a server together.
`TlsFailures`: what a failing state leaves behind. `TlsRetry`: retries change nothing and completed states go one way.
`TlsEnd`: how many turns a run can take, and that
every run without a refusal can be completed. `TlsFraming`: handshake messages across records.
`TlsBuffer`, `TlsWriter`: `SSLBuffer` with its 16-bit bookkeeping, the pending flight and the resumable write.
`TlsCipher`: `ssl3_choose_cipher`.

**Reference counts.** `Refcount`: threads that take turns at a shared counter by loads and weak exchanges, against
the counter under a lock.

`Prelude` has what they share.

## What the source does that its comments do not say

- A handshake fragment numbered exactly `read_seq + 7` ends a DTLS connection with an internal error, because the
  loop ignores only numbers beyond it (d1_both.cc:382) and the ring holds seven (d1_both.cc:268):
  `DtlsReceiver.FutureFragments` says when, and `DtlsReceiver.FutureFragmentAtStart` gives the shortest case.
- When sealing fails in the middle of a packet, the cursor of the flight has passed the records sealed before it,
  which are then never written (d1_both.cc:758-777): the contracts of `SealNextPacket` and `SendFlight` name them.
- After the record counter reports its wrap it reads zero, so a caller that seals again reuses number 0 of the epoch:
  `DtlsRun.NumbersCanRepeat`.
- The required-field check shifts a word by 32 when the number of required fields is a positive multiple of 32, which
  C leaves undefined (pb_decode.c:947), and has words for 64 fields: `PbRequired.CheckDefined` is the condition.
- A message that ends inside a tag decodes as if the tag were not there (pb_decode.c:258-264), and one that ends
  between two fields as a shorter message; no other cut goes unnoticed: `PbCuts.CutMessage`.
- A submessage without a has_ flag is written only if some member of its struct is not zero, whatever the has_ flags
  and array counts say (pb_encode.c:205-267), so some messages are not written at all: `PbReadBack.SingularSubmessage`
  is the exact condition, `PbReadBack.SubmessagesAreLost` shows two.
- A string that fills its array is written and then not read back: `PbLaws.StringNeedsATerminator`.
- `SSLBuffer::offset_` has 16 bits, but memory is allocated with up to seven octets of slack in front: a buffer whose
  contents end beyond 2^16 octets keeps the wrong ones after a partial write. `TlsBuffer.FlushIsExact` is the exact
  condition, and `TlsWriter.Writer.SealIntoBuffer` says when the writer meets it; `FlightFits` is what a caller can check.
- A write retried with less data than was already written fails and forgets what was written, so a further retry
  with the old data would seal it again (s3_pkt.cc:143-157): `TlsWriter.Writer.WriteAppData` says so in its last but
  one clause.
- A cipher list whose last flag is 1 makes a candidate in its last group unfindable (handshake_server.cc:412-424):
  `TlsCipher.NullChoice`.

## Model

| member | source | states |
|---|---|---|
| DtlsRun.DeliversInOrder | SocialServiceApp/Pods/BoringSSL/ssl/d1_both.cc:265-438 | in every run over a network that drops, duplicates and reorders, with any cuts and retransmissions, the messages handed out are a prefix of those queued, in order, each once, octet for octet with the header of an unfragmented message, and each was assembled from records of the one epoch it was queued under |
| DtlsRun.NumbersAreUnique | SocialServiceApp/Pods/BoringSSL/ssl/dtls_record.cc:294-351 | in every run no two sealed records share an epoch and a number until a counter has reported a wrap, and every handshake record is under the epoch its message was queued under |
| DtlsRun.NumbersCanRepeat | SocialServiceApp/Pods/BoringSSL/ssl/dtls_record.cc:319-348 | the proviso is needed: a run from the start that seals all 2^48 numbers of an epoch, is told of the wrap and goes on repeats a pair of epoch and number |
| DtlsRun.NoReplay | SocialServiceApp/Pods/BoringSSL/ssl/dtls_record.cc:225-259 | in every run no epoch and number pair gets past the epoch check, the window and the AEAD twice |
| DtlsRun.CallsAreRuns | SocialServiceApp/Pods/BoringSSL/ssl/d1_both.cc:829-845 | a flush or a retransmission by the sender object, from the sender of any world of a run, goes on with that run by events of the model, the mark that the flight is complete included, so that the theorems about runs are about the object |
| DtlsRun.AttemptLeads | SocialServiceApp/Pods/BoringSSL/ssl/d1_both.cc:782-827 | what one call of send_flight does, failures and the rollback of the last packet included, is a sequence of seals, failed seals and cursor moves |
| DtlsRun.GetIsNext | SocialServiceApp/Pods/BoringSSL/ssl/d1_both.cc:408-424 | the message handed out is the next one queued, and its octets came from records of a single epoch |
| DtlsRun.StepKeepsInv | SocialServiceApp/Pods/BoringSSL/ssl/d1_both.cc:265-438 | every step of sender, network and receiver keeps the invariant that ties flight, records, ring and deliveries to what was queued |
| DtlsReceiver.SlotSeqIsExact | SocialServiceApp/Pods/BoringSSL/ssl/d1_both.cc:265-275 | in a reachable receiver a slot in the window of seven holds only the message with that very number, as the code asserts |
| DtlsReceiver.OpenHandshakeKeepsValid | SocialServiceApp/Pods/BoringSSL/ssl/d1_both.cc:297-406 | any record, honest or not, keeps the ring invariants: slot i holds a number congruent to i in [read_seq, read_seq+7), a message reported as available is complete, incomplete messages have octets of the current epoch only |
| DtlsReceiver.SetReadStateKeepsValid | SocialServiceApp/Pods/BoringSSL/ssl/dtls_method.cc:81-95 | a change of read state is allowed only when no other slot is filled, so the invariants survive it |
| DtlsReceiver.NextMessageKeepsValid | SocialServiceApp/Pods/BoringSSL/ssl/d1_both.cc:426-438 | moving on to the next message number keeps the ring invariants |
| DtlsReceiver.FutureFragments | SocialServiceApp/Pods/BoringSSL/ssl/d1_both.cc:372-388 | contrary to the comment, a well-formed fragment outside the window is ignored exactly when it is not numbered read_seq + 7; that one gives an internal error |
| DtlsReceiver.FutureFragmentAtStart | SocialServiceApp/Pods/BoringSSL/ssl/d1_both.cc:372-388 | a receiver that has just started fails on a fragment of message 7 and ignores one of message 8 |
| DtlsCcs.CcsIsTaken | SocialServiceApp/Pods/BoringSSL/ssl/d1_both.cc:297-406 | in every run a ChangeCipherSpec that lands (payload 1, the read epoch, the null cipher, not discarded) is taken by the read it lands in or else by the next read for one, whatever record comes with that, and the read keys cannot change in between |
| DtlsCcs.CcsIsCounted | SocialServiceApp/Pods/BoringSSL/ssl/d1_both.cc:475-493 | in every run the reads that take a ChangeCipherSpec are no more than those that landed |
| DtlsCcs.HeldIsExact | SocialServiceApp/Pods/BoringSSL/ssl/d1_both.cc:475-493 | the receiver holds a ChangeCipherSpec exactly if one landed and no read for one has come since |
| DtlsCcs.FlightCcsCanBeTaken | SocialServiceApp/Pods/BoringSSL/ssl/d1_both.cc:661-676 | the ChangeCipherSpec record of a flight is one that the receiver takes, under the epoch it was queued in |
| Reassembly.PiecesReassemble | SocialServiceApp/Pods/BoringSSL/ssl/d1_both.cc:203-251 | overlapping, repeated, unordered pieces of one message: complete exactly when they cover it, then equal to it, and never changed again |
| Reassembly.HmFragment.Mark | SocialServiceApp/Pods/BoringSSL/ssl/d1_both.cc:211-251 | marks exactly the range asked for, and the mask becomes null exactly when every octet is then marked |
| Reassembly.MaskIsFull | SocialServiceApp/Pods/BoringSSL/ssl/d1_both.cc:236-250 | the test on whole octets and the last partial one is the test that all bits of the message are set |
| Reassembly.HmFragment.Receive | SocialServiceApp/Pods/BoringSSL/ssl/d1_both.cc:390-402 | copy and mark in the object is storing the piece in the abstract message, and nothing once it is complete |
| Reassembly.HmFragment.ViewComplete | SocialServiceApp/Pods/BoringSSL/ssl/d1_both.cc:152-199 | the mask is null exactly when the message is complete, and then the buffer is the whole message with the normalised header |
| Reassembly.HmFragment.constructor | SocialServiceApp/Pods/BoringSSL/ssl/d1_both.cc:152-199 | a new message has received nothing, and needs no mask exactly when its body is empty |
| Reassembly.SetRange | SocialServiceApp/Pods/BoringSSL/ssl/d1_both.cc:211-234 | the three phases set exactly the bits of the range |
| DtlsBits.BitRangeSets | SocialServiceApp/Pods/BoringSSL/ssl/d1_both.cc:203-207 | or-ing bit_range(start, end) into an octet sets exactly the bits from start to end |
| ReplayWindow.Bitmap.ShouldDiscard | SocialServiceApp/Pods/BoringSSL/ssl/dtls_record.cc:140-153 | the sliding word discards a number exactly when it was accepted before or is 64 or more below an accepted one |
| ReplayWindow.Bitmap.Record | SocialServiceApp/Pods/BoringSSL/ssl/dtls_record.cc:155-175 | recording an accepted number, ahead of the window or in it, is adding it to the set of accepted ones |
| DtlsWire.ParseWritten | SocialServiceApp/Pods/BoringSSL/ssl/d1_both.cc:459-473 | a written fragment parses back, whatever follows it |
| DtlsWire.ParsedWasWritten | SocialServiceApp/Pods/BoringSSL/ssl/d1_both.cc:459-473 | what parses is a written header and body |
| DtlsWire.HeaderLayout | SocialServiceApp/Pods/BoringSSL/ssl/d1_both.cc:152-199 | the twelve octets of a fragment header, one by one: type, length, message number, offset and fragment length, each big-endian |
| DtlsIncoming.Receiver.Open | SocialServiceApp/Pods/BoringSSL/ssl/d1_both.cc:297-406 | the object does what the value model of dtls1_open_handshake does, with every branch and alert; by DtlsCcs.CcsIsTaken a ChangeCipherSpec it takes is held until the next read for one |
| DtlsIncoming.Receiver.FilterRecord | SocialServiceApp/Pods/BoringSSL/ssl/dtls_record.cc:177-272 | a record of another epoch, a replayed one or one that does not open changes nothing; an oversized one fails before the window moves; any other moves the window by its number |
| DtlsIncoming.Receiver.GetIncomingMessage | SocialServiceApp/Pods/BoringSSL/ssl/d1_both.cc:265-295 | an existing entry has to agree in type and length, otherwise illegal_parameter; a new one is created empty |
| DtlsIncoming.Receiver.HandleAll | SocialServiceApp/Pods/BoringSSL/ssl/d1_both.cc:336-402 | the loop over the fragments of a record is the value model's |
| DtlsIncoming.Receiver.OpenCcs | SocialServiceApp/Pods/BoringSSL/ssl/d1_both.cc:475-493 | ChangeCipherSpec: only a record of the current epoch with the one-octet payload 1 is taken, and by DtlsCcs.CcsIsTaken every such record that lands is |
| DtlsIncoming.Receiver.Get | SocialServiceApp/Pods/BoringSSL/ssl/d1_both.cc:408-424 | the current message when complete, body and raw octets |
| DtlsIncoming.Receiver.Next | SocialServiceApp/Pods/BoringSSL/ssl/d1_both.cc:426-438 | frees the current slot and advances the number on 16 bits |
| DtlsIncoming.Receiver.HasUnprocessed | SocialServiceApp/Pods/BoringSSL/ssl/d1_both.cc:440-457 | true exactly when a slot other than a message already reported is filled, or a ChangeCipherSpec is held |
| DtlsIncoming.Receiver.ChangeReadState | SocialServiceApp/Pods/BoringSSL/ssl/dtls_method.cc:81-95 | refuses with unprocessed handshake data, otherwise next epoch with an empty window |
| DtlsIncoming.Receiver.IsCurrentMessageComplete | SocialServiceApp/Pods/BoringSSL/ssl/d1_both.cc:255-263 | true exactly when the current slot holds a complete message |
| DtlsFlight.FragmentsPartition | SocialServiceApp/Pods/BoringSSL/ssl/d1_both.cc:644-737 | the records from one cursor to another carry, for every message of the flight, exactly the octets of its body between the two, in order and each once |
| DtlsFlight.WholeFlightCarriesEverything | SocialServiceApp/Pods/BoringSSL/ssl/d1_both.cc:782-845 | a flight sent from start to end carries every message whole |
| DtlsFlight.RecordsMoveOn | SocialServiceApp/Pods/BoringSSL/ssl/d1_both.cc:782-827 | messages left, then octets left of the current one, decrease with every packet |
| DtlsFlight.NumberedIsDistinct | SocialServiceApp/Pods/BoringSSL/ssl/d1_both.cc:511-523 | the messages of a flight have distinct numbers, also across the 16-bit wrap |
| DtlsOutgoing.Sender.SealRecord | SocialServiceApp/Pods/BoringSSL/ssl/dtls_record.cc:294-351 | current or previous epoch, the number of that epoch's counter, 13 octets more than were sealed, an increment, and failure with the counter at zero on wrap; with an AEAD that seals and room enough there is no other failure |
| DtlsOutgoing.Sender.SealNextMessage | SocialServiceApp/Pods/BoringSSL/ssl/d1_both.cc:644-737 | the record is the next one of the flight under the message's own epoch, the fragment as long as room allows; a message two epochs old fails; no room means no progress and no change |
| DtlsOutgoing.Sender.SealNextPacket | SocialServiceApp/Pods/BoringSSL/ssl/d1_both.cc:739-780 | a packet within the room, whose records follow the cursor without a gap, filled until nothing more fits; on a failed seal the cursor has passed records that are lost |
| DtlsOutgoing.Sender.SendPacket | SocialServiceApp/Pods/BoringSSL/ssl/d1_both.cc:795-815 | a packet goes out whole, or the cursor is rolled back to where it was; only a failed seal leaves it further on |
| DtlsOutgoing.Sender.SendFlight | SocialServiceApp/Pods/BoringSSL/ssl/d1_both.cc:782-827 | nothing after a shutdown; otherwise the MTU is brought up to the minimum first, and it terminates with packets of at most that size which carry exactly what lies between the old and the new cursor; on success everything is sent, and each way to stop has its cause: the transport did not take a packet, the MTU has no room for a message, or, with an AEAD that seals, a counter is at its last number |
| DtlsOutgoing.Sender.FlushFlight | SocialServiceApp/Pods/BoringSSL/ssl/d1_both.cc:829-834 | marks the flight complete and sends what lies beyond the cursor, with the same causes of stopping; success means that the transport took every packet and its flush |
| DtlsOutgoing.Sender.Retransmit | SocialServiceApp/Pods/BoringSSL/ssl/d1_both.cc:836-845 | on success the packets written carry every message of the flight whole; it stops for the same causes only |
| DtlsOutgoing.Sender.AddMessage | SocialServiceApp/Pods/BoringSSL/ssl/d1_both.cc:511-598 | a message is queued whole with the next number and the current epoch, after dropping a complete flight; refused when too long or the flight is full |
| DtlsOutgoing.Sender.AddChangeCipherSpec | SocialServiceApp/Pods/BoringSSL/ssl/d1_both.cc:555-602 | queues a ChangeCipherSpec under the current epoch, same limits |
| DtlsOutgoing.Sender.UpdateMtu | SocialServiceApp/Pods/BoringSSL/ssl/d1_both.cc:615-636 | the MTU stays if it is at least 228 or queries are off, and is else the transport's answer from 228 to 2^30, or 1472 |
| DtlsOutgoing.Sender.SetWriteState | SocialServiceApp/Pods/BoringSSL/ssl/dtls_method.cc:97-109 | the current counter and keys become the previous epoch's, the new counter starts at zero |
| DtlsOutgoing.Sender.OnHandshakeComplete | SocialServiceApp/Pods/BoringSSL/ssl/dtls_method.cc:71-79 | a flight that had a reply is dropped, an unanswered one is kept for retransmission |
| DtlsOutgoing.Sender.MessageProcessed | SocialServiceApp/Pods/BoringSSL/ssl/d1_both.cc:426-438 | the next message of the peer after a complete flight is the reply to it, and only then |
| DtlsProgress.FlightArrives | SocialServiceApp/Pods/BoringSSL/ssl/d1_both.cc:297-438 | in any run, when a receiver that waits for a message of the flight has been reached, in any order and any number of times, by every record that one whole retransmission has for it, it has that message complete, and hands it out if it is the next |
| DtlsProgress.HonestRecordResult | SocialServiceApp/Pods/BoringSSL/ssl/d1_both.cc:297-406 | in every run, a record of the sender that lands ends the connection in just two cases: it is of another message than the next one after the keys have changed, or of the one numbered read_seq + 7; otherwise it is a success |
| DtlsProgress.MemoryIsBounded | SocialServiceApp/Pods/BoringSSL/ssl/d1_both.cc:362-388 | whatever records come, from whomever, there is an entry only for messages of at most the length allowed |
| DtlsProgress.DisagreementIsRefused | SocialServiceApp/Pods/BoringSSL/ssl/d1_both.cc:273-286 | a fragment whose type or length is not that of the message begun under its number is refused and changes nothing |
| PbReadBack.RoundTrip | SocialServiceApp/Pods/nanopb/pb_decode.c:852-967 | decoding the encoding of a message gives the message if and only if it has no leftovers, that is, only its fields, and what is not written at its default; for every descriptor tree and every message that fits it and that the encoder accepts |
| PbRoundTrip.MessageRoundTrip | SocialServiceApp/Pods/nanopb/pb_decode.c:852-967 | decoding with the full descriptor, or one that lost fields at any depth, reads of every field what was written for it, submessages without a has_ flag included |
| PbReadBack.PrunedIsProjection | SocialServiceApp/Pods/nanopb/pb_decode.c:231-287 | decoding an encoded message with fields removed from the descriptor, at any depth, is decoding it with all of them and then keeping what the smaller descriptor sees; nothing has to be at its default |
| PbReadBack.SingularSubmessage | SocialServiceApp/Pods/nanopb/pb_encode.c:205-267 | a submessage without a has_ flag, itself without leftovers, comes back if and only if it is the default or does not count as zero |
| PbReadBack.SubmessagesAreLost | SocialServiceApp/Pods/nanopb/pb_encode.c:205-267 | such a submessage with the array 0, 5, or with a has_ flag set on a zero, is not written at all |
| PbRoundTrip.SkipEncoded | SocialServiceApp/Pods/nanopb/pb_decode.c:277-290 | skipping an unknown field consumes exactly what the encoder wrote for it |
| PbReadBack.ReencodeMessage | SocialServiceApp/Pods/nanopb/pb_encode.c:451-473 | what was read back encodes to the octets it was read from, if fields without a has_ flag have zero defaults and submessages without one have no leftovers |
| PbReadBack.DefaultsAreWritten | SocialServiceApp/Pods/nanopb/pb_encode.c:205-267 | with a default that is not zero they are other octets: the zero is not written, and the default read for it is |
| PbReadBack.LeftoversAreWritten | SocialServiceApp/Pods/nanopb/pb_encode.c:205-267 | with a leftover they are other octets: a cleared value that is not zero has an empty submessage written, which is read as zero and not written again |
| PbReadBack.ReadZero | SocialServiceApp/Pods/nanopb/pb_encode.c:205-267 | with zero defaults and without leftovers, a struct counts as zero exactly if what is read back for it does |
| PbReadBack.WrittenIsRead | SocialServiceApp/Pods/nanopb/pb_decode.c:356-429 | every field that was written is read back |
| PbReadBack.UnwrittenIsDefault | SocialServiceApp/Pods/nanopb/pb_decode.c:763-850 | a slot nothing was written for reads as its default |
| PbReadBack.CanonicalReads | SocialServiceApp/Pods/nanopb/pb_decode.c:763-850 | a message without leftovers is read back as it is |
| PbRoundTrip.FieldRoundTrip | SocialServiceApp/Pods/nanopb/pb_decode.c:356-429 | everything written for one field lands in its slot, packed, repeated, submessage or union |
| PbRoundTrip.ValueRoundTrip | SocialServiceApp/Pods/nanopb/pb_decode.c:1165-1379 | one value of any type decodes to itself, whatever follows |
| PbWire.VarintRoundTrip | SocialServiceApp/Pods/nanopb/pb_decode.c:209-229 | an encoded varint decodes to itself under the 32- and the 64-bit decoder |
| PbWire.SignedRoundTrip | SocialServiceApp/Pods/nanopb/pb_decode.c:1165-1200 | a signed integer of any field size survives sign extension to 64 bits and the narrowing cast |
| PbWire.NarrowingIsExact | SocialServiceApp/Pods/nanopb/pb_decode.c:1165-1200 | the cast to a narrower field lets exactly that field's values through |
| PbWire.ZigZagRoundTrip | SocialServiceApp/Pods/nanopb/pb_decode.c:1118-1130 | zig-zag decoding undoes encoding |
| PbWire.UnZigZagRoundTrip | SocialServiceApp/Pods/nanopb/pb_encode.c:516-525 | zig-zag encoding undoes decoding, on all of 64 bits |
| PbWire.FixedRoundTrip | SocialServiceApp/Pods/nanopb/pb_decode.c:1132-1163 | little-endian fixed-width values decode to themselves |
| PbWire.TagRoundTrip | SocialServiceApp/Pods/nanopb/pb_decode.c:251-275 | a tag with its wire type decodes to itself |
| PbWire.DelimitedRoundTrip | SocialServiceApp/Pods/nanopb/pb_decode.c:322-335 | a length and that many octets come back, and nothing else |
| PbWire.SkipIsLocal | SocialServiceApp/Pods/nanopb/pb_decode.c:277-290 | skipping does not depend on what follows |
| PbFormat.VarintIsExact | SocialServiceApp/Pods/nanopb/pb_encode.c:494-515 | an encoding of a number is a varint of it just if it is the shortest: every octet but the last is 128 or more, the last is not 0 unless alone, and its groups of seven bits, lowest first, are the number |
| PbFormat.VarintSize | SocialServiceApp/Pods/nanopb/pb_encode.c:494-515 | a number below 128^n and, for n above 1, not below 128^(n-1) takes n octets |
| PbFormat.Read64IsExact | SocialServiceApp/Pods/nanopb/pb_decode.c:209-237 | a varint is read exactly if it ends within ten octets, as its groups of seven bits modulo 2^64 |
| PbFormat.Read32IsExact | SocialServiceApp/Pods/nanopb/pb_decode.c:173-207 | and into 32 bits exactly if within five, modulo 2^32 |
| PbFormat.NumbersFollowFormat | SocialServiceApp/Pods/nanopb/pb_encode.c:652-716 | every number in the range of its field is written in the format of its type: a varint of its two's complement in 64 bits, of itself, or of its zigzag value, or four or eight octets, lowest first |
| PbFormat.NegativeTakesTen | SocialServiceApp/Pods/nanopb/pb_encode.c:652-668 | a negative integer of any field size takes exactly ten octets, the varint of 2^64 plus it |
| PbFormat.WiderReads | SocialServiceApp/Pods/nanopb/pb_encode.c:652-668 | what was written for a signed field of any size is read as the same number by a field of eight octets, or of any size between |
| PbFormat.ShortNegativeReads | SocialServiceApp/Pods/nanopb/pb_decode.c:1165-1200 | a field below eight octets takes a negative number from five octets too, as older encoders wrote it |
| PbFormat.NumbersThatFit | SocialServiceApp/Pods/nanopb/pb_decode.c:1165-1250 | a varint is taken exactly if the number it is for the field is in the range of the field, and is that number then |
| PbFormat.BlobsThatFit | SocialServiceApp/Pods/nanopb/pb_decode.c:1262-1379 | bytes are taken exactly if they fit with four octets of size, a string exactly if shorter than its array, fixed-length bytes exactly with that length or none; and the octets are then those read |
| PbFormat.ArraysStayInBounds | SocialServiceApp/Pods/nanopb/pb_decode.c:356-420 | no array grows beyond its capacity, packed or not |
| PbFormat.TagFollowsFormat | SocialServiceApp/Pods/nanopb/pb_encode.c:553-590 | a tag is the varint of eight times the field number plus 0 for integers, 1 for eight octets, 5 for four, 2 for all that has a length |
| PbFormat.ValueLayout | SocialServiceApp/Pods/nanopb/pb_encode.c:592-648 | a value is its tag and then its octets; bytes, strings and submessages have a varint of their length and then just that many octets |
| PbFormat.PackedLayout | SocialServiceApp/Pods/nanopb/pb_encode.c:121-170 | an array of numbers is one tag of wire type 2, one length and the values after one another |
| PbDecode.RunIsAFold | SocialServiceApp/Pods/nanopb/pb_decode.c:852-917 | the decode loop on a stream cut after a whole field is the loop on the second part from where the first led |
| PbDecode.StepIsLocal | SocialServiceApp/Pods/nanopb/pb_decode.c:860-917 | one field decodes the same whatever follows it |
| PbDecode.StepCommutes | SocialServiceApp/Pods/nanopb/pb_decode.c:874-917 | two fields in different slots can be taken in either order |
| PbDecode.SwapFields | SocialServiceApp/Pods/nanopb/pb_decode.c:852-917 | swapping fields outside a common union does not change the struct |
| PbLaws.PackedLikeUnpacked | SocialServiceApp/Pods/nanopb/pb_decode.c:374-413 | a packed array decodes like the same items one per tag; both overflow together |
| PbLaws.DecodeMerges | SocialServiceApp/Pods/nanopb/pb_decode.c:852-917 | decoding two messages one over the other is decoding their concatenation |
| PbLaws.SubmessageTwice | SocialServiceApp/Pods/nanopb/pb_decode.c:417-423 | a submessage sent twice is merged, except in a union, where it is replaced |
| PbCuts.CutMessage | SocialServiceApp/Pods/nanopb/pb_decode.c:852-953 | of the encoding of any message, read with the descriptor it was written with or one that has lost fields, the first k octets decode if and only if the cut is between two fields or inside a tag and every required field lies before it; for every k |
| PbCuts.CutStream | SocialServiceApp/Pods/nanopb/pb_decode.c:852-917 | of a stream of fields that decodes, the first k octets fail exactly when the cut is inside a value; otherwise the required fields before the cut are those seen |
| PbCuts.CutPosition | SocialServiceApp/Pods/nanopb/pb_decode.c:251-275 | a cut goes unnoticed exactly when it is at the end of a field or less than a tag behind one |
| PbCuts.CutInValue | SocialServiceApp/Pods/nanopb/pb_decode.c:874-917 | a proper prefix of one field that has its whole tag fails, be it varint, fixed-width, length-prefixed, packed, a submessage or skipped |
| PbCuts.CutInTag | SocialServiceApp/Pods/nanopb/pb_decode.c:251-275 | a proper prefix of a tag stops the loop as the end of the message does, with nothing changed |
| PbCuts.PiecesAreEncoding | SocialServiceApp/Pods/nanopb/pb_encode.c:451-473 | what pb_encode writes is a sequence of fields, each a tag and a value of the wire type of that field |
| PbReadBack.ViewOfRead | SocialServiceApp/Pods/nanopb/pb_decode.c:763-850 | what the smaller descriptor sees of what the larger one read is what it reads itself |
| PbLaws.CutTagIsTheEnd | SocialServiceApp/Pods/nanopb/pb_decode.c:251-275 | a message cut inside the tag of a last field decodes like the message without it |
| PbLaws.StringNeedsATerminator | SocialServiceApp/Pods/nanopb/pb_decode.c:1299-1332 | a written string decodes exactly when it is shorter than its array |
| PbEncode.FixedItemsSize | SocialServiceApp/Pods/nanopb/pb_encode.c:135-160 | the shortcut size of a packed array of fixed-width items is the size written |
| PbFieldIter.FieldIter.Find | SocialServiceApp/Pods/nanopb/pb_common.c:78-95 | terminates; succeeds exactly when a non-extension field has the tag, at the first match going round; on failure the iterator is where it began |
| PbFieldIter.FieldIter.Next | SocialServiceApp/Pods/nanopb/pb_common.c:20-76 | after a step the pointers and the required index are those of a fresh scan, and it wraps to the first field |
| PbFieldIter.FieldIter.Begin | SocialServiceApp/Pods/nanopb/pb_common.c:8-18 | begins at the first field; an empty descriptor has none |
| PbFieldIter.RequiredIndexCounts | SocialServiceApp/Pods/nanopb/pb_common.c:34-41 | the required index is the number of required fields before the position |
| PbFieldIter.UnionMembersShareStorage | SocialServiceApp/Pods/nanopb/pb_common.c:43-66 | all members of a union have one data pointer and one which_ pointer |
| PbFieldIter.FieldIter.CountRequiredFields | SocialServiceApp/Pods/nanopb/pb_decode.c:919-936 | the scan to the end counts the required fields, from any position |
| PbRequired.AllMarked | SocialServiceApp/Pods/nanopb/pb_decode.c:938-950 | where its shift is defined, the check passes exactly when the bits of all required fields are set |
| PbRequired.MarkTracks | SocialServiceApp/Pods/nanopb/pb_decode.c:907-913 | marking the index of a required field is adding its tag to those seen |
| PbRequired.AllBitsMeanComplete | SocialServiceApp/Pods/nanopb/pb_decode.c:919-950 | all bits set means every required field occurred |
| PbDecoder.DecodeFields | SocialServiceApp/Pods/nanopb/pb_decode.c:852-953 | pb_decode_noinit succeeds exactly when the specification does, and then leaves that struct |
| PbDecoder.DecodeMessage | SocialServiceApp/Pods/nanopb/pb_decode.c:955-967 | defaults first, then the fields |
| PbDecoder.DecodeDelimited | SocialServiceApp/Pods/nanopb/pb_decode.c:969-985 | decodes within the length prefix, and leaves the stream after it |
| PbDecoder.DecodeLoop | SocialServiceApp/Pods/nanopb/pb_decode.c:860-917 | the loop keeps struct, bitset and stream in step with the specification |
| PbDecoder.TakeField | SocialServiceApp/Pods/nanopb/pb_decode.c:874-917 | find, mark and decode a known field, skip an unknown one |
| PbDecoder.DecodeField | SocialServiceApp/Pods/nanopb/pb_decode.c:356-429 | decode_static_field: slot contents and stream as specified, or failure |
| PbDecoder.DecodePacked | SocialServiceApp/Pods/nanopb/pb_decode.c:374-402 | a packed array within its length, appended until used up or full |
| PbDecoder.DecodeSubmessage | SocialServiceApp/Pods/nanopb/pb_decode.c:1334-1356 | a submessage through a substream, over defaults where the code resets it |
| PbDecoder.DecodeBlob | SocialServiceApp/Pods/nanopb/pb_decode.c:1262-1332 | bytes, strings and fixed-length bytes with their size checks |
| PbInput.IStream.DecodeVarint | SocialServiceApp/Pods/nanopb/pb_decode.c:209-229 | the 64-bit varint loop against its specification, success and failure |
| PbInput.IStream.DecodeVarint32 | SocialServiceApp/Pods/nanopb/pb_decode.c:173-207 | the 32-bit one with its quick case; high bits of a fifth octet are dropped |
| PbInput.IStream.DecodeTag | SocialServiceApp/Pods/nanopb/pb_decode.c:251-275 | tag, end of message or error; running out inside a tag is the end |
| PbInput.IStream.Skip | SocialServiceApp/Pods/nanopb/pb_decode.c:277-290 | skips what the specification skips, for each wire type |
| PbInput.IStream.MakeSubstream | SocialServiceApp/Pods/nanopb/pb_decode.c:322-335 | the substream has the prefixed octets, the stream the rest |
| PbInput.IStream.CloseSubstream | SocialServiceApp/Pods/nanopb/pb_decode.c:337-353 | afterwards the stream is behind the substream, read to the end or not |
| PbEncoder.EncodeFields | SocialServiceApp/Pods/nanopb/pb_encode.c:451-473 | pb_encode on a buffer or a sizing stream writes, or counts, exactly the specified octets, and fails exactly when there are none or no room |
| PbEncoder.EncodeSubmessage | SocialServiceApp/Pods/nanopb/pb_encode.c:600-648 | size first, then write: the second pass always writes the octets counted in the first, so the mismatch error cannot occur |
| PbEncoder.EncodedSize | SocialServiceApp/Pods/nanopb/pb_encode.c:480-489 | pb_get_encoded_size is the number of octets pb_encode writes |
| PbEncoder.EncodeArray | SocialServiceApp/Pods/nanopb/pb_encode.c:116-201 | packed and unpacked arrays, with the sizing shortcuts |
| PbEncoder.EncodeSizedItems | SocialServiceApp/Pods/nanopb/pb_encode.c:162-180 | a sizing stream adds up exactly what writing the items would |
| PbEncoder.ItemsSize | SocialServiceApp/Pods/nanopb/pb_encode.c:135-160 | computed for fixed-width items, counted for varints: the size of the items |
| PbEncoder.EncodeField | SocialServiceApp/Pods/nanopb/pb_encode.c:271-390 | presence by has flag, count or union tag, then the tagged value |
| PbEncoder.EncodeValue | SocialServiceApp/Pods/nanopb/pb_encode.c:652-776 | each field encoder against its specification, which PbFormat.NumbersFollowFormat, PbFormat.NegativeTakesTen and PbFormat.ValueLayout give in octets |
| PbEncoder.StringText | SocialServiceApp/Pods/nanopb/pb_encode.c:739-763 | the length loop finds the first NUL or the end of the array |
| PbOutput.OStream.Write | SocialServiceApp/Pods/nanopb/pb_encode.c:91-109 | pb_write: all of the octets or none, within the limit; a sizing stream only counts |
| PbOutput.OStream.EncodeVarint | SocialServiceApp/Pods/nanopb/pb_encode.c:494-514 | the octet loop writes the specified varint |
| PbOutput.OStream.EncodeTag | SocialServiceApp/Pods/nanopb/pb_encode.c:553-557 | wire type and number in one varint |
| PbOutput.OStream.EncodeString | SocialServiceApp/Pods/nanopb/pb_encode.c:592-598 | length, then octets |
| TlsRun.NothingUnexpected | SocialServiceApp/Pods/BoringSSL/ssl/handshake.cc:491-628 | for any contents, answers and retries, an honest client and server never meet an unexpected message or record, a wrong digest or signature, or a freed handshake buffer: the only failure is a refusing callback or configuration |
| TlsRun.DigestsAgree | SocialServiceApp/Pods/BoringSSL/ssl/handshake.cc:380-476 | a Finished, CertificateVerify or Channel ID about to be read by a side that has not failed was made over the transcript of that side |
| TlsRun.TranscriptsAgree | SocialServiceApp/Pods/BoringSSL/ssl/handshake.cc:215-222 | at every moment one side's transcript is a prefix of the other's |
| TlsRun.DoneAgree | SocialServiceApp/Pods/BoringSSL/ssl/handshake.cc:491-628 | when both are done: equal transcripts, matching epochs of keys, nothing left on the wire |
| TlsRun.NeverStuck | SocialServiceApp/Pods/BoringSSL/ssl/handshake.cc:491-628 | until both are done or one was refused, some side can act by something other than an empty flush, and no callback has to refuse or ask for a retry |
| TlsEnd.RunsEnd | SocialServiceApp/Pods/BoringSSL/ssl/handshake.cc:491-628 | no schedule takes a handshake through more productive turns than four for each record of its flow and 76, and one for each retry of a callback |
| TlsEnd.CanFinish | SocialServiceApp/Pods/BoringSSL/ssl/handshake.cc:491-628 | from wherever a run has come without a refusal, some further events, no more than a measure of what is left, lead to both sides being done |
| TlsEnd.HappenLowers | SocialServiceApp/Pods/BoringSSL/ssl/handshake.cc:491-628 | every productive event but a retry lowers what the two sides, their flights and the wire have left to do, what a failure leaves behind not counted, and a retry adds one |
| TlsRun.PairActs | SocialServiceApp/Pods/BoringSSL/ssl/handshake.cc:491-628 | every step, flush, record read or resumption keeps the two sides together on the flow |
| TlsRun.ClientAdvances | SocialServiceApp/Pods/BoringSSL/ssl/handshake_client.cc:1707-1789 | every client state, for every answer, moves along the message flow of its kind of handshake |
| TlsRun.ServerAdvances | SocialServiceApp/Pods/BoringSSL/ssl/handshake_server.cc:1539-1621 | every server state likewise |
| TlsRetry.ClientStepsOneWay | SocialServiceApp/Pods/BoringSSL/ssl/handshake_client.cc:1707-1789 | a client state that asks for a retry has changed nothing but what it waits for; one that fails stays where it is, with what it had hashed, freed or queued by then; a completed one lowers a rank that depends on resumption |
| TlsRetry.ServerStepsOneWay | SocialServiceApp/Pods/BoringSSL/ssl/handshake_server.cc:1539-1621 | the same of the server |
| TlsRetry.ClientSettled | SocialServiceApp/Pods/BoringSSL/ssl/handshake_client.cc:1538-1672 | the order of states, read_server_finished before send_client_finished when resuming, goes down the rank |
| TlsRetry.ServerSettled | SocialServiceApp/Pods/BoringSSL/ssl/handshake_server.cc:1439-1509 | the order of states, send_server_finished before read_change_cipher_spec when resuming, goes down the rank |
| TlsAlone.BufferOutlivesItsUse | SocialServiceApp/Pods/BoringSSL/ssl/ssl_transcript.cc:181-252 | whatever the peer sends, and whatever callbacks, plans and records a machine meets, it never reads the handshake buffer after freeing it; each of its states still has the buffer if a later one can need it |
| TlsIntegrity.FinishedIsExact | SocialServiceApp/Pods/BoringSSL/ssl/handshake.cc:380-429 | one machine against any peer: it goes on from its read-Finished state exactly if the message there is a Finished whose body is the MAC, by the other side, over every handshake message it sent or took before, in order; any other Finished ends in a bad digest, any other message in an unexpected one, and no further turns bring it to the done state |
| TlsIntegrity.CertificateVerifyIsExact | SocialServiceApp/Pods/BoringSSL/ssl/handshake_server.cc:1269-1351 | a server with a client key goes on from its CertificateVerify state exactly on a signature over all messages before that was not refused otherwise; a wrong signature, a refusal and another message end the handshake for good, each with its error |
| TlsIntegrity.ChannelIdIsExact | SocialServiceApp/Pods/BoringSSL/ssl/handshake_server.cc:1415-1434 | the same of Channel ID |
| TlsIntegrity.CertificateIsChecked | SocialServiceApp/Pods/BoringSSL/ssl/handshake.cc:285-362 | where a peer certificate is to be checked only an acceptance goes on: a retry waits with nothing else changed, and a refusal ends the handshake for good |
| TlsIntegrity.CertificateWasAccepted | SocialServiceApp/Pods/BoringSSL/ssl/handshake_client.cc:871-891 | in any run, a machine that is past the check of a certificate (a client in a full handshake with a certificate suite, a server that has a client key) has in some turn had it accepted |
| TlsIntegrity.DoneIsWhole | SocialServiceApp/Pods/BoringSSL/ssl/handshake_client.cc:1707-1789 | in any run against any peer, a machine that is done has said and heard just the messages of one whole handshake of RFC 5246 section 7.3, in order, each Finished and signature right over all messages before it, the Finished of both sides among them; its hash is over just these, and its keys have changed once each way. A client had a key exchange exactly where the suite demands one, and a certificate status only if announced |
| TlsIntegrity.RunIsTraced | SocialServiceApp/Pods/BoringSSL/ssl/handshake.cc:491-628 | in any run against any peer, as long as a machine has not failed, what it said and heard is the beginning of one such handshake, and hash and buffer are over just that |
| TlsIntegrity.RecordsAreChecked | SocialServiceApp/Pods/BoringSSL/ssl/handshake.cc:491-628 | while a record is awaited, one that is not under the current read keys, or not of the type awaited, ends the handshake for good; any other is taken |
| TlsIntegrity.KeyChangeIsExact | SocialServiceApp/Pods/BoringSSL/ssl/tls_method.cc:80-96 | the read keys change exactly if no handshake message is left that came under the old ones; one that is ends the handshake for good |
| TlsIntegrity.RefusalsEnd | SocialServiceApp/Pods/BoringSSL/ssl/handshake_client.cc:1707-1789 | in any run no refusal is passed over: a state that asks for an answer and gets a refusal has failed for good or waits for the message it is about, and one told to try again waits for just that callback with nothing changed |
| TlsIntegrity.ServerDecides | SocialServiceApp/Pods/BoringSSL/ssl/handshake_server.cc:572-800 | a server asks for a certificate exactly if it verifies peers in a full handshake with a certificate suite and is not content with a Channel ID offered; it uses Channel ID exactly if offered, with ECDHE and, when resuming, recorded hashes; and it sends a key exchange exactly with ECDHE or, without certificates, a PSK hint |
| TlsIntegrity.ErrorStays | SocialServiceApp/Pods/BoringSSL/ssl/handshake.cc:491-628 | after an error no turn changes the state or the error |
| TlsFailures.ClientFailureLeaves | SocialServiceApp/Pods/BoringSSL/ssl/handshake_client.cc:1707-1789 | a client state that fails has left its transcript as it was, with the message at hand behind it, or, if it sends, with messages of its own behind it |
| TlsFailures.ServerFailureLeaves | SocialServiceApp/Pods/BoringSSL/ssl/handshake_server.cc:1539-1621 | the same of the server |
| TlsMachine.Handshake.RunClient | SocialServiceApp/Pods/BoringSSL/ssl/handshake_client.cc:1707-1789 | the loop ends, with a wait to resolve or in the done state, as the sequence of its states says |
| TlsMachine.Handshake.RunServer | SocialServiceApp/Pods/BoringSSL/ssl/handshake_server.cc:1539-1621 | the loop ends, with a wait to resolve or in the done state, as the sequence of its states says |
| TlsMachine.Handshake.ReadFinished | SocialServiceApp/Pods/BoringSSL/ssl/handshake.cc:380-429 | type first; then the digest of the transcript so far is taken and the message hashed, so that a wrong digest leaves it in the transcript; by TlsIntegrity.FinishedIsExact only the right MAC goes on |
| TlsMachine.Handshake.Update | SocialServiceApp/Pods/BoringSSL/ssl/handshake.cc:215-222 | the message is added to the buffer if there is one and to the hash if it runs |
| TlsFraming.HandshakeBuffer.ReadAll | SocialServiceApp/Pods/BoringSSL/ssl/s3_both.cc:399-583 | however the frames of messages are cut into records, the reader gets just these messages, in order, and no record is rejected |
| TlsFraming.Cross | SocialServiceApp/Pods/BoringSSL/ssl/s3_both.cc:184-205 | messages that ssl3_add_message cuts into records, for any fragment limits, and the reader takes record by record, come out as they went in |
| TlsFraming.CutsAreFrames | SocialServiceApp/Pods/BoringSSL/ssl/s3_both.cc:184-205 | the records of the sender join to the frames the reader expects |
| TlsFraming.FramesArrive | SocialServiceApp/Pods/BoringSSL/ssl/s3_both.cc:399-425 | after any prefix of the frames the messages so far are a prefix of the messages |
| TlsFraming.MessagesJoin | SocialServiceApp/Pods/BoringSSL/ssl/s3_both.cc:399-425 | taking what is whole and going on with more octets is taking all of it |
| TlsFraming.ParseFrame | SocialServiceApp/Pods/BoringSSL/ssl/s3_both.cc:167-182 | a frame parses as its message, whatever follows |
| TlsFraming.FrameParsed | SocialServiceApp/Pods/BoringSSL/ssl/s3_both.cc:399-425 | what parses starts with the frame of its message |
| TlsFraming.FrameLayout | SocialServiceApp/Pods/BoringSSL/ssl/s3_both.cc:167-182 | the type, three octets of length, big-endian, and the body |
| TlsFraming.LeftIsShort | SocialServiceApp/Pods/BoringSSL/ssl/s3_both.cc:441-459 | what is left over never asks for more than the longest message |
| TlsFraming.HandshakeBuffer.Open | SocialServiceApp/Pods/BoringSSL/ssl/s3_both.cc:441-560 | refused with a whole message waiting or too much asked for, otherwise appended |
| TlsFraming.HandshakeBuffer.GetMessage | SocialServiceApp/Pods/BoringSSL/ssl/s3_both.cc:427-439 | the first message when whole |
| TlsFraming.HandshakeBuffer.NextMessage | SocialServiceApp/Pods/BoringSSL/ssl/s3_both.cc:562-583 | removes exactly that message |
| TlsFraming.HandshakeBuffer.HasUnprocessedData | SocialServiceApp/Pods/BoringSSL/ssl/s3_both.cc:461-472 | true exactly when there is more than the message at hand |
| TlsWriter.Writer.Run | SocialServiceApp/Pods/BoringSSL/ssl/s3_pkt.cc:129-289 | over any sequence of writes, messages, flushes, alerts, limits and keys, with any short or failed transport writes: the data is sealed once and in order, as far as it is, and the transport has a prefix of all sealed records in sealing order as long as no buffer has ended beyond 2^16 octets of its memory, which only a flight together with a record can bring about |
| TlsWriter.Writer.WriteAppData | SocialServiceApp/Pods/BoringSSL/ssl/s3_pkt.cc:129-200 | what is sealed goes on with the data where the last call left it; a bad retry, a shutdown and a bad length are told apart exactly, and a bad length forgets what was written; blocked means that the transport was offered all that was left and did not take it. With sealing that succeeds and a transport that takes something each time the call is done, with all of the data unless partial writes are on, and the transport has everything sealed |
| TlsWriter.SealedOnce | SocialServiceApp/Pods/BoringSSL/ssl/s3_pkt.cc:129-200 | a caller who gives the same data again has each octet of it sealed once, in order |
| TlsWriter.Writer.WriteRecords | SocialServiceApp/Pods/BoringSSL/ssl/s3_pkt.cc:162-199 | the loop seals record after record and stops at the first that is not taken whole, or after one in partial mode; blocked means that the transport refused |
| TlsWriter.Writer.DoWrite | SocialServiceApp/Pods/BoringSSL/ssl/s3_pkt.cc:221-289 | with a write pending nothing new is sealed; otherwise one record, behind what is left of the flight, which is pending until taken; done means that the transport took all of it, blocked that it was offered what was left and refused |
| TlsWriter.Writer.WritePending | SocialServiceApp/Pods/BoringSSL/ssl/s3_pkt.cc:202-218 | a mismatch of length, address or type is a bad retry; otherwise the buffer is offered to the transport until it is empty, and the write returns its length, or until the transport refuses, and only then is it blocked |
| TlsWriter.Writer.SealIntoBuffer | SocialServiceApp/Pods/BoringSSL/ssl/s3_pkt.cc:237-273 | the rest of the flight moves into the buffer ahead of the record; the order of octets is safe exactly if the two end within 2^16 octets of the memory |
| TlsWriter.Writer.SendAlert | SocialServiceApp/Pods/BoringSSL/ssl/s3_pkt.cc:377-403 | one closing alert only; sealed as a record of its level and description and offered now, or left for later behind a pending buffer, with nothing sealed or offered; blocked only then or if the transport refused |
| TlsWriter.Writer.DispatchAlert | SocialServiceApp/Pods/BoringSSL/ssl/s3_pkt.cc:405-425 | the alert as a record of its own, all of it taken by the transport on success and refused by it when blocked; application data is untouched |
| TlsWriter.Writer.AddRecord | SocialServiceApp/Pods/BoringSSL/ssl/s3_both.cc:135-165 | one more record behind the flight, or nothing |
| TlsWriter.Writer.AddMessage | SocialServiceApp/Pods/BoringSSL/ssl/s3_both.cc:184-205 | the message in full records and a rest, one empty record for nothing; what was sealed of handshake data grows by the message |
| TlsWriter.ChunksJoin | SocialServiceApp/Pods/BoringSSL/ssl/s3_both.cc:187-195 | the pieces join to the message, and only the last is short |
| TlsWriter.Writer.FlushFlight | SocialServiceApp/Pods/BoringSSL/ssl/s3_both.cc:231-279 | the write buffer first, then the flight from where it stopped; on success the transport has everything sealed, in order unless a buffer had ended too far, and without it the transport refused what it was offered last |
| TlsWriter.Writer.AddChangeCipherSpec | SocialServiceApp/Pods/BoringSSL/ssl/s3_both.cc:207-218 | one ChangeCipherSpec record |
| TlsWriter.Writer.SetMaxSendFragment | SocialServiceApp/Pods/BoringSSL/ssl/ssl_lib.cc:1664-1674 | clamped to 512 to 16384 |
| TlsBuffer.FlushIsExact | SocialServiceApp/Pods/BoringSSL/ssl/ssl_buffer.cc:239-252 | a flush gives the transport the contents in order, however little it takes at a time and whatever they are, if and only if they end within 2^16 octets of the memory |
| TlsBuffer.ConsumeIsExact | SocialServiceApp/Pods/BoringSSL/ssl/ssl_buffer.cc:90-97 | consuming keeps the right octets for all contents exactly when the contents end within 2^16 octets of memory, because the offset has 16 bits |
| TlsBuffer.SSLBuffer.Consume | SocialServiceApp/Pods/BoringSSL/ssl/ssl_buffer.cc:90-97 | the front is dropped; once the offset has wrapped, the contents are what lies at the wrapped place |
| TlsBuffer.SSLBuffer.EnsureCap | SocialServiceApp/Pods/BoringSSL/ssl/ssl_buffer.cc:47-81 | at least that capacity with the contents kept, new memory used from an offset below 8 that puts what follows a header at a multiple of 8, or refusal above 0xffff |
| TlsBuffer.SSLBuffer.Append | SocialServiceApp/Pods/BoringSSL/ssl/ssl_buffer.cc:83-88 | octets filled in behind the contents |
| TlsBuffer.SSLBuffer.FlushTo | SocialServiceApp/Pods/BoringSSL/ssl/ssl_buffer.cc:239-252 | what the transport took and what is left make up what was there, unless the contents end beyond 2^16 octets of memory; success means empty in any case, and no success that the transport was offered all that was left and took none of it |
| TlsBuffer.SSLBuffer.DiscardConsumed | SocialServiceApp/Pods/BoringSSL/ssl/ssl_buffer.cc:99-103 | memory is released exactly when nothing is left |
| TlsCipher.ChooseCipher | SocialServiceApp/Pods/BoringSSL/ssl/handshake_server.cc:357-424 | by server preference the best of the first group with a candidate, by client preference the first usable; a cipher chosen is in both lists, allows the version and has a key exchange and an authentication the server can do, and with a well-formed list null means that no cipher of both lists does |
| TlsCipher.Scan | SocialServiceApp/Pods/BoringSSL/ssl/handshake_server.cc:390-421 | the loop finds the candidate of the first group that has one, first in the other list, if that group ends; otherwise null |
| TlsCipher.BestIsOne | SocialServiceApp/Pods/BoringSSL/ssl/handshake_server.cc:357-424 | there is only one best cipher |
| TlsCipher.NullChoice | SocialServiceApp/Pods/BoringSSL/ssl/handshake_server.cc:412-424 | null exactly if there is no candidate or the best one's group runs off the end of the list |
| TlsCipher.FirstIsBest | SocialServiceApp/Pods/BoringSSL/ssl/handshake_server.cc:381-385 | without groups the best is the first usable |
| TlsCipher.BestInFlags | SocialServiceApp/Pods/BoringSSL/ssl/handshake_server.cc:390-421 | the best cipher said of the flags: no flag between an earlier usable cipher and it is 0, and none of its group is ahead of it in the other list |
| TlsCipher.GroupsEnd | SocialServiceApp/Pods/BoringSSL/ssl/internal.h:1866-1889 | in a list whose last flag is 0 every group ends |
| Refcount.RunRefines | SocialServiceApp/Pods/BoringSSL/crypto/refcount_c11.c:37-65 | in every interleaving of any number of threads, with spurious failures, the calls take effect as if made one after the other on the locked counter, with the same count and results |
| Refcount.OneEntryPerCall | SocialServiceApp/Pods/BoringSSL/crypto/refcount_c11.c:37-65 | every call takes effect at most once, between its start and its return, and returns what it gave then |
| Refcount.RunCounts | SocialServiceApp/Pods/BoringSSL/crypto/refcount_c11.c:48-65 | with fewer than 2^32 - 1 live references at a time the count is their number, no thread aborts, and only the last release gives one |
| Refcount.LastRelease | SocialServiceApp/Pods/BoringSSL/crypto/refcount_lock.c:29-51 | of the calls in order: the count is live references, only the last release gives one, and it does |
| Refcount.Saturated | SocialServiceApp/Pods/BoringSSL/crypto/refcount_c11.c:41-57 | once at 0xffffffff the count stays and no release gives one |
| Refcount.FailureIsProgress | SocialServiceApp/Pods/BoringSSL/crypto/refcount_c11.c:41-61 | an exchange that fails but not spuriously does so because another thread's call changed the count meanwhile |
| Refcount.LockedCounter.Increment | SocialServiceApp/Pods/BoringSSL/crypto/refcount_lock.c:29-35 | one more unless saturated |
| Refcount.LockedCounter.DecrementAndTestZero | SocialServiceApp/Pods/BoringSSL/crypto/refcount_lock.c:37-51 | aborts at zero, one less unless saturated, tells zero |

## Left out

DTLS:
- Timers, MTU discovery and the BIO controls behind it: a timeout is a retransmission at any moment, the MTU any value from the minimum up.
- The AEAD: a sealed record opens to its plaintext and is at most its overhead longer; opening an altered record fails. Record headers are epoch, number and type, not octets.
- The outgoing array of seven messages is a sequence of at most seven; memory exhaustion is left out everywhere.
- Runs have fewer than 2^16 messages and epochs, as the 16-bit numbers demand.
- ReplayWindow.Bitmap.Record: the 64-bit map is its 64 bits, shifted as a sequence, not a machine word.
- DtlsOutgoing.Sender.SealRecord: sealing is any function of epoch, number and plaintext that may fail; its octets are not modelled, only how many there are.
- DtlsOutgoing.Sender.SendFlight: a refused packet keeps its numbers, so numbers have gaps; nothing is said about how many.
- DtlsOutgoing.Sender.UpdateMtu: with queries off the MTU has to be at least the minimum, as the source asserts.
- DtlsIncoming.Receiver.Open: an alert record has the one outcome that an alert came, where ssl_process_alert goes on to tell closing, warnings and fatal alerts apart.
- DtlsIncoming.Receiver.FilterRecord: read shutdown, parsing of record headers and the version check are not in the model.
- DtlsProgress.FlightArrives: the records have to be of the receiver's read epoch, within its limits and not yet discarded as old; when the network delivers is not part of it.

nanopb:
- Callback fields, extensions with anything registered, pointer fields and pb_release, custom streams: user code or compiled out by default.
- PbReadBack.RoundTrip: unused memory is taken to be zero: an array beyond its count, a union nothing is in, and, of a union in use, what a member reads that is not the one in use. The encoder's test for zero looks at these (pb_encode.c:205-267); with other contents there a submessage without a has_ flag may be written that the model has as zero.
- PbReadBack.ReencodeMessage: supposes zero defaults and no leftovers where the test for zero looks; both are shown to be needed, by PbReadBack.DefaultsAreWritten and PbReadBack.LeftoversAreWritten, but the condition is not an equivalence.
- PbReadBack.RoundTrip: encodings of 2^32 octets or more are not read back, because lengths are read into 32 bits.
- PbEncoder.EncodeFields: supposes that no encoding at any depth has 2^64 octets, the width of size_t.
- PbDecoder.DecodeFields: supposes PbRequired.CheckDefined at every depth, as the check of required fields is not defined C otherwise; the contents of the struct after a failure are not specified.
- PbDecoder.DecodeSubmessage: a nested struct is a value that is read, filled and put back, so aliasing of its memory is not modelled.
- The struct's memory layout: offsets are modelled for the field iterator alone.
- Fixed-length bytes have values of just that length.

TLS handshake:
- TLS 1.3, SSL 3.0, renegotiation, V2ClientHello, early data, False Start, handoff and DTLS's HelloVerifyRequest: they add branches and no part of the results.
- Parsing and building of message bodies: what matters of them to the course of the handshake is in Plan, the rest is an answer that may refuse.
- MACs and signatures are the transcripts they are made over; agreement of keys is agreement of epochs.
- TlsRun.NothingUnexpected: both sides are honest and have equal negotiated flags; what a hostile peer can do is not its subject. One handshake message is one record on the wire there; TlsFraming.Cross is about the cuts.
- TlsIntegrity.DoneIsWhole: a MAC or signature is what it is made over, so that only forging one is not in the model; whom a certificate names is for the callback.
- TlsIntegrity.CertificateIsChecked: an answer to go on is ssl_verify_ok from ssl_verify_peer_cert, which with SSL_VERIFY_NONE stands for a failed check too.
- TlsMachine.Handshake.ReadSessionTicket: an empty ticket differs only in what goes to the session cache.
- TlsMachine.Handshake.ReadServerHello: memory exhaustion and failing hash computations are left out, here and in the other states.
- Reading the peer's alerts during the handshake.
- TlsFraming.HandshakeBuffer.Open: the check of the record type and the V2ClientHello path.

TLS write path:
- TlsWriter.Writer.Run: once a buffer has ended beyond 2^16 octets of its memory, nothing is said about the octets the transport gets, only about what was sealed.
- TlsBuffer.SSLBuffer.FlushTo: likewise says nothing about the octets when the contents end beyond 2^16.
- TlsWriter.Writer.DispatchAlert: the flush of the transport after a fatal alert.
- Early data, a negative length, a missing transport, and the error queue.
- Sealing is any function of number, type and plaintext that may fail; splitting of one record in two under TLS 1.0 is inside it.
- tls_read_buffer_extend_to and the read half of SSLBuffer.

Reference counts:
- Refcount.RunRefines: the retry loops are steps of a state machine, one for each access to the counter, not methods with loops: an unbounded number of spurious failures has no place in a loop that has to terminate. Memory order is sequential consistency, the default of the C11 operations used.

Elsewhere:
- The Swift application, the other Pods, and the rest of BoringSSL: foreign calls, tables, or easy members only.
