/** Sending DTLS handshake flights: the send half of DTLS1_STATE in d1_both.cc, dtls_record.cc and
    dtls_method.cc, updated in place. */
module DtlsOutgoing {
  import opened Prelude
  import opened DtlsWire
  import opened DtlsFlight

  const MIN_MTU := 256 - 28
  const DEFAULT_MTU := 1500 - 28

  /** What the sending code knows of an AEAD: the explicit nonce is part of the overhead. */
  datatype Aead = Aead(explicitNonceLen: nat, maxOverhead: nat)

  type Context = a: Aead | a.explicitNonceLen <= a.maxOverhead witness Aead(0, 0)

  /** Sealing under the keys of an epoch, by number and plaintext: it may fail, or give that many octets. */
  type Sealing = (nat, nat, seq<Byte>) -> Option<nat>

  datatype Packet = Packet(records: seq<Record>, length: nat)

  function RecordsOf(packets: seq<Packet>): seq<Record> {
    if packets == [] then [] else packets[0].records + RecordsOf(packets[1..])
  }

  lemma RecordsOfAppends(packets: seq<Packet>, p: Packet)
    ensures RecordsOf(packets + [p]) == RecordsOf(packets) + p.records
  {
    if packets == [] {
      assert packets + [p] == [p];
    } else {
      assert (packets + [p])[1..] == packets[1..] + [p];
    }
  }

  /** What a transport was asked, and its answer. */
  datatype Asked = Wrote(packet: Packet, ret: int) | Flushed(ret: int)

  /** A datagram transport: a write takes the whole packet or nothing. */
  class Transport {
    var packets: seq<Packet>
    ghost var asked: seq<Asked>

    method Write(p: Packet) returns (ret: int)
      modifies this
      ensures packets == if ret > 0 then old(packets) + [p] else old(packets)
      ensures asked == old(asked) + [Wrote(p, ret)]
    {
      ret := *;
      if ret > 0 {
        packets := packets + [p];
      }
      asked := asked + [Wrote(p, ret)];
    }

    method Flush() returns (ret: int)
      modifies this`asked
      ensures asked == old(asked) + [Flushed(ret)]
    {
      ret := *;
      asked := asked + [Flushed(ret)];
    }
  }

  datatype SealResult = SealError | NoProgress | Partial | Complete

  class Sender {
    var outgoing: seq<OutMsg>
    var written: nat
    var offset: nat
    var messagesComplete: bool
    var flightHasReply: bool
    var writeSeq: nat
    var epoch: nat
    var next: nat
    var lastNext: nat
    var aead: Context
    var lastAead: Context
    var mtu: nat
    const transport: Transport
    const sealing: Sealing

    function Cur(): Cursor
      reads this
    {
      Cursor(written, offset)
    }

    function Count(): Counters
      reads this
    {
      Counters(epoch, next, lastNext)
    }

    ghost predicate Valid()
      reads this
    {
      && ValidFlight(outgoing) && |outgoing| <= MAX_FLIGHT
      && ValidCursor(outgoing, Cur())
      && Count().Valid()
      && writeSeq < U16_LIMIT
      && NumberedBelow(outgoing, writeSeq, 0)
    }

    constructor (aead: Context, mtu: nat, transport: Transport, sealing: Sealing)
      ensures Valid() && outgoing == [] && Cur() == START && writeSeq == 0 && Count() == Counters(0, 0, 0)
      ensures !messagesComplete && !flightHasReply && this.transport == transport && this.mtu == mtu && this.sealing == sealing
    {
      outgoing, written, offset := [], 0, 0;
      messagesComplete, flightHasReply := false, false;
      writeSeq, epoch, next, lastNext := 0, 0, 0, 0;
      this.aead, lastAead, this.mtu, this.transport, this.sealing := aead, aead, mtu, transport, sealing;
    }

    function WriteAead(usePrevious: bool): Context
      reads this`aead, this`lastAead
    {
      if usePrevious then lastAead else aead
    }

    /** dtls_max_seal_overhead. */
    function Overhead(usePrevious: bool): nat
      reads this
    {
      RT_HEADER_LENGTH + WriteAead(usePrevious).maxOverhead
    }

    /** The AEAD does what it is for: it seals, with at most its overhead. */
    ghost predicate Reliable()
      reads this`aead, this`lastAead, this`epoch
    {
      forall e: nat, n: nat, plain | e == epoch || e + 1 == epoch ::
        sealing(e, n, plain).Some? && sealing(e, n, plain).value <= |plain| + WriteAead(e != epoch).maxOverhead
    }

    /** Every message of the flight is of the current epoch or the one before. */
    ghost predicate Recent()
      reads this`outgoing, this`epoch
    {
      forall m | m in outgoing :: m.epoch == epoch || m.epoch + 1 == epoch
    }

    /** dtls_seal_record with ssl_record_sequence_update on the 48-bit counter, which reads zero
        after it reports a wrap. */
    method SealRecord(room: nat, ctype: ContentType, payload: seq<Byte>, usePrevious: bool)
      returns (ok: bool, rec: Record, outLen: nat)
      requires Valid() && (usePrevious ==> epoch >= 1)
      modifies this`next, this`lastNext
      ensures Valid()
      ensures rec.ctype == ctype && rec.payload == payload
      ensures rec.epoch == if usePrevious then epoch - 1 else epoch
      ensures ok ==> Emit(old(Count()), rec) == Some(Count())
      ensures ok ==> outLen <= room && sealing(rec.epoch, rec.number, payload) == Some(outLen - 13)
      ensures ok ==> outLen <= |payload| + Overhead(usePrevious)
      ensures !ok ==> Abandoned(old(Count()), Count())
      ensures !ok && Reliable() && |payload| + Overhead(usePrevious) <= room <= 0xffff ==>
                (if usePrevious then old(lastNext) else old(next)) == 0xffff_ffff_ffff
    {
      var number := if usePrevious then lastNext else next;
      rec := Record(ctype, if usePrevious then epoch - 1 else epoch, number, payload);
      outLen := 0;
      if room < RT_HEADER_LENGTH {
        return false, rec, outLen;
      }
      var sealed := sealing(rec.epoch, number, payload);
      if sealed.None? || sealed.value > room - RT_HEADER_LENGTH || sealed.value > |payload| + WriteAead(usePrevious).maxOverhead {
        return false, rec, outLen;
      }
      var cipherLen := sealed.value;
      if usePrevious {
        lastNext := (lastNext + 1) % U48_LIMIT;
      } else {
        next := (next + 1) % U48_LIMIT;
      }
      if number + 1 == U48_LIMIT || cipherLen >= U16_LIMIT {
        return false, rec, outLen;
      }
      ok, outLen := true, RT_HEADER_LENGTH + cipherLen;
    }

    /** The largest fragment body that fits a given room, or less if less is left. */
    function Todo(room: nat, usePrevious: bool): int
      requires Valid() && written < |outgoing| && !outgoing[written].isCcs
      reads this
    {
      var left := |outgoing[written].Body()| - offset;
      if left > room - HM_HEADER_LENGTH - Overhead(usePrevious) then room - HM_HEADER_LENGTH - Overhead(usePrevious)
      else left
    }

    predicate UsesPrevious()
      requires written < |outgoing|
      reads this
    {
      outgoing[written].epoch != epoch
    }

    /** Is there room for a ChangeCipherSpec, or for at least one body octet? */
    predicate HasRoom(room: nat)
      requires written < |outgoing|
      reads this
    {
      if outgoing[written].isCcs then room >= 1 + Overhead(UsesPrevious())
      else room >= HM_HEADER_LENGTH + 1 + Overhead(UsesPrevious())
    }

    /** seal_next_message. The record it seals is the next one of the flight, under the message's
        own epoch whatever epoch is current by now, and as long as the room allows. */
    method SealNextMessage(room: nat) returns (result: SealResult, rec: Record, outLen: nat)
      requires Valid() && written < |outgoing|
      modifies this`offset, this`next, this`lastNext
      ensures ValidFlight(outgoing) && Count().Valid()
      ensures result == SealError ==> offset == old(offset) && Abandoned(old(Count()), Count())
      ensures result == SealError && Reliable() && Recent() && room <= 0xffff ==> AtLast(old(Count()))
      ensures result == NoProgress ==> offset == old(offset) && Count() == old(Count()) && !HasRoom(room)
      ensures result in {Partial, Complete} ==>
                && After(outgoing, old(Cur()), rec)
                   == Some(if result == Complete then Cursor(written + 1, 0) else Cursor(written, offset))
                && (result == Complete ==> offset == 0)
                && Emit(old(Count()), rec) == Some(Count())
                && outLen <= room
                && HasRoom(room)
                && (!outgoing[written].isCcs ==> |rec.payload| == HM_HEADER_LENGTH + old(Todo(room, UsesPrevious())))
      ensures epoch != outgoing[written].epoch && epoch != outgoing[written].epoch + 1 ==> result == SealError
    {
      hide Attempt, ValidFlight, Emit;
      var msg := outgoing[written];
      rec, outLen := Record(Handshake, 0, 0, []), 0;
      var usePrevious := false;
      if epoch >= 1 && msg.epoch == epoch - 1 {
        usePrevious := true;
      } else if msg.epoch != epoch {
        return SealError, rec, outLen;
      }
      var overhead := Overhead(usePrevious);
      if msg.isCcs {
        if room < |CCS_PAYLOAD| + overhead {
          return NoProgress, rec, outLen;
        }
        var ok;
        ok, rec, outLen := SealRecord(room, ChangeCipherSpec, CCS_PAYLOAD, usePrevious);
        return if ok then Complete else SealError, rec, outLen;
      }
      if room < HM_HEADER_LENGTH + 1 + overhead || room < Prefix(usePrevious) {
        return NoProgress, rec, outLen;
      }
      result, rec, outLen := SealFragment(room, usePrevious);
    }

    /** dtls_seal_prefix_len. */
    function Prefix(usePrevious: bool): nat
      reads this
    {
      RT_HEADER_LENGTH + WriteAead(usePrevious).explicitNonceLen
    }

    /** The handshake half of seal_next_message, once there is room for an octet. */
    method SealFragment(room: nat, usePrevious: bool) returns (result: SealResult, rec: Record, outLen: nat)
      requires Valid() && written < |outgoing| && !outgoing[written].isCcs
      requires if usePrevious then outgoing[written].epoch + 1 == epoch else outgoing[written].epoch == epoch
      requires HasRoom(room)
      modifies this`offset, this`next, this`lastNext
      ensures ValidFlight(outgoing) && Count().Valid()
      ensures result in {SealError, Partial, Complete}
      ensures result == SealError ==> offset == old(offset) && Abandoned(old(Count()), Count())
      ensures result == SealError && Reliable() && Recent() && room <= 0xffff ==> AtLast(old(Count()))
      ensures result in {Partial, Complete} ==>
                && After(outgoing, old(Cur()), rec)
                   == Some(if result == Complete then Cursor(written + 1, 0) else Cursor(written, offset))
                && (result == Complete ==> offset == 0)
                && Emit(old(Count()), rec) == Some(Count())
                && outLen <= room
                && |rec.payload| == HM_HEADER_LENGTH + old(Todo(room, UsesPrevious()))
    {
      hide Abandoned, After, Emit, NumberedBelow;
      var msg := outgoing[written];
      var rest := msg.Body()[offset..];
      var todo := |rest|;
      if todo > room - HM_HEADER_LENGTH - Overhead(usePrevious) {
        todo := room - HM_HEADER_LENGTH - Overhead(usePrevious);
      }
      // The fixed-size builder after the record prefix has room for the fragment.
      assert HM_HEADER_LENGTH + todo <= room - Prefix(usePrevious);
      var fragment := WriteHeader(msg.Hdr().(fragOff := offset, fragLen := todo)) + rest[..todo];
      FragmentFollows(outgoing, Cur(), todo, fragment);
      var ok;
      ok, rec, outLen := SealRecord(room, Handshake, fragment, usePrevious);
      if !ok {
        return SealError, rec, outLen;
      }
      if todo == |rest| {
        offset := 0;
        return Complete, rec, outLen;
      }
      offset := offset + todo;
      return Partial, rec, outLen;
    }

    /** seal_next_message and the loop's increment of outgoing_written. */
    method SealAndCount(room: nat) returns (result: SealResult, rec: Record, outLen: nat)
      requires Valid() && written < |outgoing|
      modifies this`written, this`offset, this`next, this`lastNext
      ensures Valid()
      ensures result == SealError ==> Cur() == old(Cur()) && Abandoned(old(Count()), Count())
      ensures result == SealError && Reliable() && Recent() && room <= 0xffff ==> AtLast(old(Count()))
      ensures result == NoProgress ==> Cur() == old(Cur()) && Count() == old(Count()) && !HasRoom(room)
      ensures result in {Partial, Complete} ==>
                && After(outgoing, old(Cur()), rec) == Some(Cur())
                && Emit(old(Count()), rec) == Some(Count())
                && outLen <= room
      ensures result == Partial ==> offset > 0
      ensures result == Complete ==> written == old(written) + 1
    {
      result, rec, outLen := SealNextMessage(room);
      if result in {Partial, Complete} {
        AfterIsValid(outgoing, old(Cur()), rec);
        if result == Complete {
          written := written + 1;
        }
      }
    }

    /** seal_next_packet: as many records as fit, which follow the cursor without a gap. If a seal
        fails, lost holds the records sealed before it, which will not be written. */
    method SealNextPacket(room: nat) returns (result: PacketResult, ghost lost: seq<Record>)
      requires Valid() && written < |outgoing|
      modifies this`written, this`offset, this`next, this`lastNext
      ensures Valid()
      ensures result.Packed? ==>
                && result.packet.records != [] && result.packet.length <= room && lost == []
                && AfterAll(outgoing, old(Cur()), result.packet.records) == Some(Cur())
                && EmitAll(old(Count()), result.packet.records) == Some(Count())
                && (written < |outgoing| ==> offset > 0 || !HasRoom(room - result.packet.length))
      ensures result.MtuTooSmall? ==> !old(HasRoom(room)) && Cur() == old(Cur()) && Count() == old(Count()) && lost == []
      ensures result.SealFailed? ==>
                && AfterAll(outgoing, old(Cur()), lost) == Some(Cur())
                && EmitAll(old(Count()), lost).Some? && Abandoned(EmitAll(old(Count()), lost).value, Count())
                && (Reliable() && Recent() && room <= 0xffff ==> AtLast(EmitAll(old(Count()), lost).value))
    {
      var left: nat := room;
      var records: seq<Record> := [];
      lost := [];
      while written < |outgoing|
        invariant Valid() && left <= room && written <= |outgoing|
        invariant AfterAll(outgoing, old(Cur()), records) == Some(Cur())
        invariant EmitAll(old(Count()), records) == Some(Count())
        invariant records == [] ==> left == room
        decreases |outgoing| - written
      {
        var result, rec, len := SealAndCount(left);
        if result == SealError {
          return SealFailed, records;
        }
        if result == NoProgress {
          break;
        }
        Extend(outgoing, old(Cur()), old(Count()), records, rec);
        records, left := records + [rec], left - len;
        if result == Partial {
          break;
        }
      }
      result := if records == [] then MtuTooSmall else Packed(Packet(records, room - left));
    }

    /** send_flight. The packets written carry exactly what lies between the old and the new cursor,
        and each fits the MTU. A packet that the transport refuses is rolled back, so the next
        call starts with it. unsent holds what was sealed and not written. A failed seal is the one
        case in which the cursor has passed records that were never written. Without MTU queries the MTU
        has to be above the minimum already. */
    method SendFlight(shutDown: bool, noQuery: bool, answer: int) returns (result: FlightResult, ghost unsent: seq<Record>)
      requires Valid() && (noQuery ==> mtu >= MIN_MTU)
      modifies this`written, this`offset, this`next, this`lastNext, this`mtu, transport
      ensures Valid()
      ensures old(transport.packets) <= transport.packets
      ensures shutDown <==> result == Closed
      ensures shutDown ==> transport.packets == old(transport.packets) && unsent == [] && Count() == old(Count()) && mtu == old(mtu)
      ensures !shutDown ==> mtu >= MIN_MTU && (old(mtu) >= MIN_MTU ==> mtu == old(mtu))
      ensures var sent := transport.packets[|old(transport.packets)|..];
              && (forall p | p in sent :: p.records != [] && p.length <= mtu)
              && Attempt(outgoing, old(Cur()), old(Count()), RecordsOf(sent), unsent, result == SealFailure, Cur(), Count())
      ensures result in {Done, FlushBlocked} ==> Cur() == Cursor(|outgoing|, 0) && unsent == []
      ensures result == TooSmall ==> written < |outgoing| && !HasRoom(mtu) && unsent == []
      ensures old(transport.asked) <= transport.asked
      ensures Explained(result, transport.asked[|old(transport.asked)|..], unsent)
      ensures result == SealFailure && Reliable() && Recent() && mtu <= 0xffff ==>
                var all := RecordsOf(transport.packets[|old(transport.packets)|..]) + unsent;
                EmitAll(old(Count()), all).Some? && AtLast(EmitAll(old(Count()), all).value)
    {
      hide AtLast, After, Emit, Explained, Took;
      NothingAsked(transport.asked);
      unsent := [];
      ghost var sent: seq<Packet> := [];
      ghost var asked0 := transport.asked;
      if shutDown {
        AskedOn(asked0, asked0, asked0, Some(Closed), Packet([], 0), []);
        return Closed, [];
      }
      UpdateMtu(noQuery, answer);
      while written < |outgoing|
        invariant Valid() && mtu >= MIN_MTU && (old(mtu) >= MIN_MTU ==> mtu == old(mtu))
        invariant transport.packets == old(transport.packets) + sent
        invariant forall p | p in sent :: p.records != [] && p.length <= mtu
        invariant Reaches(outgoing, old(Cur()), old(Count()), RecordsOf(sent), Cur(), Count())
        invariant Took(asked0, transport.asked)
        decreases MessagesLeft(outgoing, Cur()), OctetsLeft(outgoing, Cur())
      {
        ghost var at, before, asked := Cur(), Count(), transport.asked;
        var stopped, packet, rest := SendPacket();
        ReachesAppend(outgoing, old(Cur()), old(Count()), RecordsOf(sent), at, before, rest);
        AskedOn(asked0, asked, transport.asked, stopped, packet, rest);
        if stopped.Some? {
          return stopped.value, rest;
        }
        RecordsOfAppends(sent, packet);
        RecordsMoveOn(outgoing, at, rest);
        sent := sent + [packet];
      }
      assert RecordsOf(sent) + [] == RecordsOf(sent);
      ghost var asked := transport.asked;
      var ret := transport.Flush();
      AskedLast(asked0, asked, ret);
      result := if ret <= 0 then FlushBlocked else Done;
    }

    /** One turn of send_flight's loop: a packet goes out whole, or the result that stops the loop. */
    method SendPacket() returns (stopped: Option<FlightResult>, packet: Packet, ghost recs: seq<Record>)
      requires Valid() && written < |outgoing|
      modifies this`written, this`offset, this`next, this`lastNext, transport
      ensures Valid()
      ensures stopped.None? ==>
                && packet.records == recs != [] && packet.length <= mtu
                && transport.packets == old(transport.packets) + [packet]
                && Reaches(outgoing, old(Cur()), old(Count()), recs, Cur(), Count())
      ensures stopped.None? ==> exists ret :: ret > 0 && transport.asked == old(transport.asked) + [Wrote(packet, ret)]
      ensures stopped.Some? ==>
                if stopped.value.WriteBlocked? then
                  && stopped.value.ret <= 0 && recs != []
                  && transport.asked == old(transport.asked) + [Wrote(packet, stopped.value.ret)] && packet.records == recs
                else transport.asked == old(transport.asked)
      ensures stopped == Some(SealFailure) && Reliable() && Recent() && mtu <= 0xffff ==>
                EmitAll(old(Count()), recs).Some? && AtLast(EmitAll(old(Count()), recs).value)
      ensures stopped.Some? ==>
                && transport.packets == old(transport.packets)
                && EmitAll(old(Count()), recs).Some? && Abandoned(EmitAll(old(Count()), recs).value, Count())
                && (stopped.value.WriteBlocked? || stopped.value == TooSmall || stopped.value == SealFailure)
                && AfterAll(outgoing, old(Cur()), recs).Some?
                && Cur() == (if stopped.value == SealFailure then AfterAll(outgoing, old(Cur()), recs).value else old(Cur()))
                && (stopped.value == TooSmall ==> !HasRoom(mtu) && recs == [])
    {
      var oldWritten, oldOffset := written, offset;
      packet, recs := Packet([], 0), [];
      var packed, lost := SealNextPacket(mtu);
      if packed.MtuTooSmall? {
        return Some(TooSmall), packet, [];
      }
      if packed.SealFailed? {
        return Some(SealFailure), packet, lost;
      }
      packet, recs := packed.packet, packed.packet.records;
      var ret := transport.Write(packet);
      if ret <= 0 {
        written, offset := oldWritten, oldOffset;
        return Some(WriteBlocked(ret)), packet, recs;
      }
      stopped := None;
    }

    /** dtls1_update_mtu: answer is what the transport reports. */
    method UpdateMtu(noQuery: bool, answer: int)
      requires Valid()
      modifies this`mtu
      ensures Valid()
      ensures old(mtu) >= 228 || noQuery ==> mtu == old(mtu)
      ensures old(mtu) < 228 && !noQuery ==> mtu == if 228 <= answer <= 0x4000_0000 then answer else 1472
    {
      if mtu < MIN_MTU && !noQuery {
        mtu := if MIN_MTU <= answer <= 0x4000_0000 then answer else DEFAULT_MTU;
      }
    }

    /** dtls_clear_outgoing_messages. */
    method ClearOutgoing()
      requires Valid()
      modifies this`outgoing, this`written, this`offset, this`messagesComplete, this`flightHasReply
      ensures Valid() && outgoing == [] && Cur() == START && !messagesComplete && !flightHasReply
    {
      outgoing, written, offset, messagesComplete, flightHasReply := [], 0, 0, false, false;
    }

    /** The part of add_outgoing before a message is queued: a flight already complete is dropped. */
    method BeginAdding() returns (room: bool)
      requires Valid()
      modifies this`outgoing, this`written, this`offset, this`messagesComplete, this`flightHasReply
      ensures Valid() && room == (|outgoing| < MAX_FLIGHT)
      ensures outgoing == if old(messagesComplete) then [] else old(outgoing)
      ensures Cur() == if old(messagesComplete) then START else old(Cur())
    {
      if messagesComplete {
        ClearOutgoing();
      }
      return |outgoing| < MAX_FLIGHT;
    }

    /** dtls1_init_message, dtls1_finish_message and dtls1_add_message: the message is queued whole
        with the next number, unless its length does not fit 24 bits or the flight is full. */
    method AddMessage(ty: Byte, body: seq<Byte>) returns (ok: bool)
      requires Valid()
      modifies this`outgoing, this`written, this`offset, this`messagesComplete, this`flightHasReply, this`writeSeq
      ensures Valid()
      ensures |body| >= U24_LIMIT ==> !ok && outgoing == old(outgoing) && Cur() == old(Cur())
      ensures |body| < U24_LIMIT ==>
                var kept := if old(messagesComplete) then [] else old(outgoing);
                && (ok <==> |kept| < MAX_FLIGHT)
                && outgoing == (if ok then kept + [OutMsg(WholeMessage(ty, old(writeSeq), body), epoch, false)] else kept)
                && Cur() == (if old(messagesComplete) then START else old(Cur()))
      ensures writeSeq == if ok then (old(writeSeq) + 1) % U16_LIMIT else old(writeSeq)
    {
      if |body| >= U24_LIMIT {
        return false;
      }
      ok := BeginAdding();
      if ok {
        var msg := OutMsg(WholeMessage(ty, writeSeq, body), epoch, false);
        WholeMessageIsValid(ty, writeSeq, body, epoch);
        Push(msg);
      }
    }

    /** Storing a handshake message in outgoing_messages, with its number counted. */
    method Push(msg: OutMsg)
      requires Valid() && |outgoing| < MAX_FLIGHT && msg.Valid() && !msg.isCcs && msg.Hdr().seqNo == writeSeq
      modifies this`outgoing, this`writeSeq
      ensures Valid() && outgoing == old(outgoing) + [msg] && writeSeq == (old(writeSeq) + 1) % U16_LIMIT
    {
      CountOne(outgoing, msg, writeSeq);
      QueueMore(outgoing, msg, Cur());
      outgoing, writeSeq := outgoing + [msg], (writeSeq + 1) % U16_LIMIT;
    }

    /** dtls1_add_change_cipher_spec. */
    method AddChangeCipherSpec() returns (ok: bool)
      requires Valid()
      modifies this`outgoing, this`written, this`offset, this`messagesComplete, this`flightHasReply
      ensures Valid()
      ensures var kept := if old(messagesComplete) then [] else old(outgoing);
              && (ok <==> |kept| < MAX_FLIGHT)
              && outgoing == (if ok then kept + [OutMsg([], epoch, true)] else kept)
              && Cur() == (if old(messagesComplete) then START else old(Cur()))
    {
      ok := BeginAdding();
      if ok {
        QueueMore(outgoing, OutMsg([], epoch, true), Cur());
        assert (outgoing + [OutMsg([], epoch, true)])[..|outgoing|] == outgoing;
        outgoing := outgoing + [OutMsg([], epoch, true)];
      }
    }

    /** dtls1_set_write_state: the current counter becomes the previous epoch's. */
    method SetWriteState(newAead: Context)
      requires Valid()
      modifies this`epoch, this`next, this`lastNext, this`aead, this`lastAead
      ensures Valid() && Count() == NewEpoch(old(Count()))
      ensures lastAead == old(aead) && aead == newAead
    {
      epoch := (epoch + 1) % U16_LIMIT;
      lastNext := next;
      next := 0;
      lastAead := aead;
      aead := newAead;
    }

    /** The sending side of dtls1_next_message. */
    method MessageProcessed()
      requires Valid()
      modifies this`flightHasReply
      ensures Valid() && flightHasReply == (old(flightHasReply) || messagesComplete)
    {
      if messagesComplete {
        flightHasReply := true;
      }
    }

    /** dtls1_on_handshake_complete: a flight with a reply is dropped, and an unanswered final flight
        stays for retransmission. */
    method OnHandshakeComplete()
      requires Valid()
      modifies this`outgoing, this`written, this`offset, this`messagesComplete, this`flightHasReply
      ensures Valid()
      ensures outgoing == if old(flightHasReply) then [] else old(outgoing)
      ensures Cur() == if old(flightHasReply) then START else old(Cur())
    {
      if flightHasReply {
        ClearOutgoing();
      }
    }

    /** dtls1_flush_flight. */
    method FlushFlight(shutDown: bool, noQuery: bool, answer: int) returns (result: FlightResult, ghost unsent: seq<Record>)
      requires Valid() && (noQuery ==> mtu >= MIN_MTU)
      modifies this`messagesComplete, this`written, this`offset, this`next, this`lastNext, this`mtu, transport
      ensures Valid() && messagesComplete
      ensures old(transport.packets) <= transport.packets
      ensures var sent := transport.packets[|old(transport.packets)|..];
              Attempt(outgoing, old(Cur()), old(Count()), RecordsOf(sent), unsent, result == SealFailure, Cur(), Count())
      ensures result in {Done, FlushBlocked} ==> Cur() == Cursor(|outgoing|, 0) && unsent == []
      ensures result == TooSmall ==> written < |outgoing| && !HasRoom(mtu)
      ensures result == Closed <==> shutDown
      ensures old(transport.asked) <= transport.asked
      ensures Explained(result, transport.asked[|old(transport.asked)|..], unsent)
      ensures result == SealFailure && Reliable() && Recent() && mtu <= 0xffff ==>
                var all := RecordsOf(transport.packets[|old(transport.packets)|..]) + unsent;
                EmitAll(old(Count()), all).Some? && AtLast(EmitAll(old(Count()), all).value)
    {
      messagesComplete := true;
      result, unsent := SendFlight(shutDown, noQuery, answer);
    }

    /** dtls1_retransmit_outgoing_messages: the whole flight again, from its first octet. If it
        succeeds, the packets written carry every message of the flight whole. */
    method Retransmit(shutDown: bool, noQuery: bool, answer: int) returns (result: FlightResult, ghost unsent: seq<Record>)
      requires Valid() && (noQuery ==> mtu >= MIN_MTU)
      modifies this`written, this`offset, this`next, this`lastNext, this`mtu, transport
      ensures Valid()
      ensures old(transport.packets) <= transport.packets
      ensures var sent := transport.packets[|old(transport.packets)|..];
              Attempt(outgoing, START, old(Count()), RecordsOf(sent), unsent, result == SealFailure, Cur(), Count())
      ensures result in {Done, FlushBlocked} ==>
                var recs := RecordsOf(transport.packets[|old(transport.packets)|..]);
                forall i: nat | i < |outgoing| && !outgoing[i].isCcs :: Carried(recs, outgoing[i].Hdr().seqNo) == outgoing[i].Body()
      ensures result == TooSmall ==> written < |outgoing| && !HasRoom(mtu)
      ensures result == Closed <==> shutDown
      ensures old(transport.asked) <= transport.asked
      ensures Explained(result, transport.asked[|old(transport.asked)|..], unsent)
      ensures result == SealFailure && Reliable() && Recent() && mtu <= 0xffff ==>
                var all := RecordsOf(transport.packets[|old(transport.packets)|..]) + unsent;
                EmitAll(old(Count()), all).Some? && AtLast(EmitAll(old(Count()), all).value)
    {
      written, offset := 0, 0;
      result, unsent := SendFlight(shutDown, noQuery, answer);
      if result in {Done, FlushBlocked} {
        ghost var recs := RecordsOf(transport.packets[|old(transport.packets)|..]);
        assert recs + [] == recs;
        NumberedIsDistinct(outgoing, writeSeq, 0);
        forall i: nat | i < |outgoing| && !outgoing[i].isCcs
          ensures Carried(recs, outgoing[i].Hdr().seqNo) == outgoing[i].Body()
        {
          WholeFlightCarriesEverything(outgoing, recs, i);
        }
      }
    }
  }

  /** What a call that sends a flight did: it sealed the records of packets that went out and then some that
      did not, each the next one of the flight. The cursor is behind what went out, unless a seal failed. */
  ghost predicate Attempt(flight: seq<OutMsg>, cur: Cursor, c: Counters, sent: seq<Record>, unsent: seq<Record>,
                          sealFailed: bool, cur1: Cursor, c1: Counters)
    requires ValidFlight(flight) && ValidCursor(flight, cur)
  {
    && AfterAll(flight, cur, sent).Some? && AfterAll(flight, cur, sent + unsent).Some?
    && cur1 == (if sealFailed then AfterAll(flight, cur, sent + unsent).value else AfterAll(flight, cur, sent).value)
    && EmitAll(c, sent + unsent).Some? && Abandoned(EmitAll(c, sent + unsent).value, c1)
  }

  /** recs lead from one cursor and counter state to another. */
  ghost predicate Reaches(flight: seq<OutMsg>, cur: Cursor, c: Counters, recs: seq<Record>, cur1: Cursor, c1: Counters)
    requires ValidFlight(flight) && ValidCursor(flight, cur)
  {
    AfterAll(flight, cur, recs) == Some(cur1) && EmitAll(c, recs) == Some(c1)
  }

  lemma ReachesAppend(flight: seq<OutMsg>, cur: Cursor, c: Counters, a: seq<Record>, cur1: Cursor, c1: Counters,
                      b: seq<Record>)
    requires ValidFlight(flight) && ValidCursor(flight, cur) && Reaches(flight, cur, c, a, cur1, c1)
    ensures ValidCursor(flight, cur1)
    ensures AfterAll(flight, cur, a + b) == AfterAll(flight, cur1, b)
    ensures EmitAll(c, a + b) == EmitAll(c1, b)
  {
    AfterAllAppends(flight, cur, a, b);
    EmitAllAppends(c, a, b);
  }

  /** The counters after a change of write epoch, on its 16 bits. */
  function NewEpoch(c: Counters): Counters {
    Counters((c.epoch + 1) % U16_LIMIT, 0, c.next)
  }

  lemma WholeMessageIsValid(ty: Byte, seqNo: nat, body: seq<Byte>, epoch: nat)
    requires seqNo < U16_LIMIT && |body| < U24_LIMIT && epoch < U16_LIMIT
    ensures var m := OutMsg(WholeMessage(ty, seqNo, body), epoch, false);
            m.Valid() && m.Body() == body && m.Hdr() == Header(ty, |body|, seqNo, 0, |body|)
  {
    ParseWritten(Header(ty, |body|, seqNo, 0, |body|), body, []);
    assert WholeMessage(ty, seqNo, body) + [] == WholeMessage(ty, seqNo, body);
  }

  /** Queueing a message does not disturb the cursor. */
  lemma QueueMore(flight: seq<OutMsg>, m: OutMsg, cur: Cursor)
    requires ValidFlight(flight) && m.Valid() && ValidCursor(flight, cur)
    ensures ValidFlight(flight + [m]) && ValidCursor(flight + [m], cur)
  {}

  lemma BackOfNext(n: nat, d: nat)
    requires n < U16_LIMIT && d + 1 < U16_LIMIT
    ensures NumberBack((n + 1) % U16_LIMIT, d + 1) == NumberBack(n, d)
    ensures d == 0 ==> NumberBack(n, d) == n
  {}

  /** A message queued with the next number keeps the numbers of the flight consecutive. */
  lemma CountOne(flight: seq<OutMsg>, m: OutMsg, n: nat)
    requires ValidFlight(flight) && m.Valid() && !m.isCcs && n < U16_LIMIT && |flight| < MAX_FLIGHT
    requires NumberedBelow(flight, n, 0) && m.Hdr().seqNo == n
    ensures ValidFlight(flight + [m]) && NumberedBelow(flight + [m], (n + 1) % U16_LIMIT, 0)
  {
    assert (flight + [m])[..|flight|] == flight;
    BackOfNext(n, 0);
    Renumber(flight, n, 0);
  }

  lemma {:induction false} Renumber(flight: seq<OutMsg>, n: nat, d: nat)
    requires ValidFlight(flight) && n < U16_LIMIT && d + |flight| + 1 < U16_LIMIT && NumberedBelow(flight, n, d)
    ensures NumberedBelow(flight, (n + 1) % U16_LIMIT, d + 1)
    decreases |flight|
  {
    if flight != [] {
      var last := |flight| - 1;
      BackOfNext(n, d + 1);
      Renumber(flight[..last], n, if flight[last].isCcs then d else d + 1);
    }
  }

  /** A counter has only its last number left. */
  predicate AtLast(c: Counters) {
    c.next == 0xffff_ffff_ffff || c.lastNext == 0xffff_ffff_ffff
  }

  /** Nothing but packets that the transport took. */
  ghost predicate AllTook(asked: seq<Asked>) {
    forall k | 0 <= k < |asked| :: asked[k].Wrote? && asked[k].ret > 0
  }

  ghost predicate Took(asked0: seq<Asked>, asked1: seq<Asked>) {
    asked0 <= asked1 && AllTook(asked1[|asked0|..])
  }

  lemma NothingAsked(asked: seq<Asked>)
    ensures Took(asked, asked)
  {}

  lemma AskedOn(asked0: seq<Asked>, asked1: seq<Asked>, asked2: seq<Asked>, stopped: Option<FlightResult>, packet: Packet, recs: seq<Record>)
    requires Took(asked0, asked1)
    requires if stopped.None? then exists ret :: ret > 0 && asked2 == asked1 + [Wrote(packet, ret)]
             else if stopped.value.WriteBlocked?
             then stopped.value.ret <= 0 && recs != [] && packet.records == recs && asked2 == asked1 + [Wrote(packet, stopped.value.ret)]
             else asked2 == asked1 && !stopped.value.Done? && !stopped.value.FlushBlocked?
    ensures stopped.None? ==> Took(asked0, asked2)
    ensures asked0 <= asked2 && (stopped.Some? ==> Explained(stopped.value, asked2[|asked0|..], recs))
  {
    var n := |asked0|;
    if asked2 != asked1 {
      assert asked2[n..] == asked1[n..] + [asked2[|asked1|]] && asked2[n..][..|asked2| - n - 1] == asked1[n..];
    }
  }

  lemma AskedLast(asked0: seq<Asked>, asked1: seq<Asked>, ret: int)
    requires Took(asked0, asked1)
    ensures asked0 <= asked1 + [Flushed(ret)]
    ensures Explained(if ret <= 0 then FlushBlocked else Done, (asked1 + [Flushed(ret)])[|asked0|..], [])
  {
    var n := |asked0|;
    assert (asked1 + [Flushed(ret)])[n..] == asked1[n..] + [Flushed(ret)];
    assert (asked1[n..] + [Flushed(ret)])[..|asked1| - n] == asked1[n..];
  }

  /** A call stops early only on an answer of the transport: it was asked to take the packet that was not sent,
      or to flush after all packets, and refused. */
  ghost predicate Explained(result: FlightResult, asked: seq<Asked>, unsent: seq<Record>) {
    match result
    case Done => asked != [] && AllTook(asked[..|asked| - 1]) && asked[|asked| - 1].Flushed? && asked[|asked| - 1].ret > 0
    case FlushBlocked => asked != [] && AllTook(asked[..|asked| - 1]) && asked[|asked| - 1].Flushed? && asked[|asked| - 1].ret <= 0
    case WriteBlocked(ret) =>
      && asked != [] && AllTook(asked[..|asked| - 1]) && ret <= 0
      && unsent != [] && asked[|asked| - 1].Wrote? && asked[|asked| - 1].packet.records == unsent && asked[|asked| - 1].ret == ret
    case _ => AllTook(asked)
  }

  datatype PacketResult = Packed(packet: Packet) | MtuTooSmall | SealFailed

  datatype FlightResult = Done | FlushBlocked | WriteBlocked(ret: int) | TooSmall | SealFailure | Closed

  /** The next octets of the message at the cursor, behind its header, are a legitimate next record. */
  lemma FragmentFollows(flight: seq<OutMsg>, cur: Cursor, todo: nat, fragment: seq<Byte>)
    requires ValidFlight(flight) && ValidCursor(flight, cur) && cur.written < |flight| && !flight[cur.written].isCcs
    requires var m := flight[cur.written];
             && cur.offset + todo <= |m.Body()| && (todo == 0 ==> cur.offset == |m.Body()|)
             && fragment == WriteHeader(m.Hdr().(fragOff := cur.offset, fragLen := todo)) + m.Body()[cur.offset..][..todo]
    ensures |fragment| == HM_HEADER_LENGTH + todo
    ensures var m := flight[cur.written];
            forall rec: Record | rec.ctype == Handshake && rec.epoch == m.epoch && rec.payload == fragment ::
              After(flight, cur, rec) == Some(if cur.offset + todo == |m.Body()| then Cursor(cur.written + 1, 0)
                                              else Cursor(cur.written, cur.offset + todo))
  {
    var m := flight[cur.written];
    assert m.Body()[cur.offset..][..todo] == m.Body()[cur.offset..cur.offset + todo];
    assert fragment == FragmentAt(m, cur.offset, todo);
  }

  /** One more record extends both what the flight's cursor and what the counters allow. */
  lemma Extend(flight: seq<OutMsg>, cur: Cursor, c: Counters, recs: seq<Record>, rec: Record)
    requires ValidFlight(flight) && ValidCursor(flight, cur)
    requires AfterAll(flight, cur, recs).Some? && EmitAll(c, recs).Some?
    ensures EmitAll(c, recs + [rec]) == Emit(EmitAll(c, recs).value, rec)
    ensures AfterAll(flight, cur, recs + [rec]) == After(flight, AfterAll(flight, cur, recs).value, rec)
  {
    AfterAllAppends(flight, cur, recs, [rec]);
    EmitAllAppends(c, recs, [rec]);
  }

  /** What a seal that emits nothing may have done to the counters: nothing, or one number spent,
      to zero if that was the last. */
  predicate Abandoned(before: Counters, after: Counters) {
    || after == before
    || after == before.(next := (before.next + 1) % U48_LIMIT)
    || after == before.(lastNext := (before.lastNext + 1) % U48_LIMIT)
  }
}
