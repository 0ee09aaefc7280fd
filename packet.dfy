/**
 * Model of packet.hh and packet.cc: the Packet record, its wire codec and
 * the sentinel that tells an ACK from a DATA packet.
 *
 * Wire layout: four Integer64 fields at offsets 0, 8, 16 and 24
 * (sequence number, send timestamp, ack sequence number, ack send
 * timestamp), then payload_len filler bytes 'x'.
 */
module Packets {
  import opened Wrappers
  import Int64
  import Timestamp

  type uint64 = Int64.uint64
  type uint32 = Int64.uint32
  type byte = Int64.byte

  /** Four Integer64 fields. */
  const HEADER_SIZE: nat := Int64.WIDTH * 4
  /** The size of every DATA datagram and the most str() may produce. */
  const DATA_PACKET_SIZE: nat := 1472
  /** The filler byte of the payload, the character 'x'. */
  const FILLER: byte := 'x' as int

  datatype Error = DatagramTooShort

  /** The value held by a Packet object: its four header fields and its payload length. */
  datatype PacketFields = PacketFields(
    sequenceNumber: uint64,
    sendTimestamp: uint64,
    ackSequenceNumber: uint64,
    ackSendTimestamp: uint64,
    payloadLen: uint32)

  /** What is_ack asserts of every packet it classifies. */
  predicate Classifiable(p: PacketFields)
  {
    p.ackSequenceNumber == Int64.MAX_UINT64 || p.payloadLen == 0
  }

  /** is_ack: a packet is an ACK exactly when its ack sequence number is below 2^64 - 1. */
  predicate IsAck(p: PacketFields)
    requires Classifiable(p)
    ensures IsAck(p) <==> p.ackSequenceNumber < Int64.MAX_UINT64
    ensures IsAck(p) ==> p.payloadLen == 0
  {
    p.ackSequenceNumber != Int64.MAX_UINT64
  }

  /** The outgoing DATA packet numbered n, before its send timestamp is filled in. */
  function DataPacket(n: uint64): (p: PacketFields)
    ensures Classifiable(p) && !IsAck(p)
    ensures p.sequenceNumber == n && p.sendTimestamp == 0 && p.ackSendTimestamp == 0
    ensures HEADER_SIZE + p.payloadLen == DATA_PACKET_SIZE
  {
    PacketFields(n, 0, Int64.MAX_UINT64, 0, DATA_PACKET_SIZE - HEADER_SIZE)
  }

  /** The ACK numbered n that acknowledges `other`, which must not carry the sentinel as its number. */
  function AckPacket(n: uint64, other: PacketFields): (p: PacketFields)
    requires other.sequenceNumber != Int64.MAX_UINT64
    ensures Classifiable(p) && IsAck(p)
    ensures p.sequenceNumber == n && p.sendTimestamp == 0
    ensures p.ackSequenceNumber == other.sequenceNumber
    ensures p.ackSendTimestamp == other.sendTimestamp
    ensures p.payloadLen == 0
  {
    PacketFields(n, 0, other.sequenceNumber, other.sendTimestamp, 0)
  }

  /** str(): the wire representation, which may not exceed DATA_PACKET_SIZE bytes. */
  function Encode(p: PacketFields): (s: seq<byte>)
    requires HEADER_SIZE + p.payloadLen <= DATA_PACKET_SIZE
    ensures |s| == HEADER_SIZE + p.payloadLen <= DATA_PACKET_SIZE
    ensures s[0..8] == Int64.Encode(p.sequenceNumber)
    ensures s[8..16] == Int64.Encode(p.sendTimestamp)
    ensures s[16..24] == Int64.Encode(p.ackSequenceNumber)
    ensures s[24..32] == Int64.Encode(p.ackSendTimestamp)
    ensures forall i :: HEADER_SIZE <= i < |s| ==> s[i] == FILLER
  {
    Int64.Encode(p.sequenceNumber) + Int64.Encode(p.sendTimestamp)
    + Int64.Encode(p.ackSequenceNumber) + Int64.Encode(p.ackSendTimestamp)
    + seq(p.payloadLen, _ => FILLER)
  }

  /**
   * Packet( const std::string & ): fails on fewer than HEADER_SIZE bytes; otherwise
   * reads the four fields at their offsets and keeps the rest as payload length
   * (truncated to unsigned int).
   */
  function Decode(s: seq<byte>): (r: Result<PacketFields, Error>)
    ensures r.Failure? <==> |s| < HEADER_SIZE
    ensures r.Success? ==> r.value.payloadLen == Int64.Truncate32(|s| - HEADER_SIZE)
  {
    if |s| < HEADER_SIZE then Failure(DatagramTooShort)
    else
      Success(PacketFields(
        Int64.Decode(s[0..8]).value,
        Int64.Decode(s[8..16]).value,
        Int64.Decode(s[16..24]).value,
        Int64.Decode(s[24..32]).value,
        Int64.Truncate32(|s| - HEADER_SIZE)))
  }

  /** A decoded packet's fields are the numbers whose encodings sit at offsets 0, 8, 16 and 24. */
  lemma DecodeFields(s: seq<byte>)
    requires HEADER_SIZE <= |s|
    ensures Int64.Encode(Decode(s).value.sequenceNumber) == s[0..8]
    ensures Int64.Encode(Decode(s).value.sendTimestamp) == s[8..16]
    ensures Int64.Encode(Decode(s).value.ackSequenceNumber) == s[16..24]
    ensures Int64.Encode(Decode(s).value.ackSendTimestamp) == s[24..32]
  {
    Int64.EncodeDecode(s[0..8]);
    Int64.EncodeDecode(s[8..16]);
    Int64.EncodeDecode(s[16..24]);
    Int64.EncodeDecode(s[24..32]);
  }

  /** Every packet str() accepts decodes back to itself. */
  lemma DecodeEncode(p: PacketFields)
    requires HEADER_SIZE + p.payloadLen <= DATA_PACKET_SIZE
    ensures Decode(Encode(p)) == Success(p)
  {
    var s := Encode(p);
    Int64.DecodeEncode(p.sequenceNumber);
    Int64.DecodeEncode(p.sendTimestamp);
    Int64.DecodeEncode(p.ackSequenceNumber);
    Int64.DecodeEncode(p.ackSendTimestamp);
  }

  /** A datagram of legal size whose payload is all filler is the encoding of what it decodes to. */
  lemma EncodeDecode(s: seq<byte>)
    requires HEADER_SIZE <= |s| <= DATA_PACKET_SIZE
    requires forall i :: HEADER_SIZE <= i < |s| ==> s[i] == FILLER
    ensures Decode(s).Success?
    ensures Encode(Decode(s).value) == s
  {
    DecodeFields(s);
    var e := Encode(Decode(s).value);
    assert s == s[0..8] + s[8..16] + s[16..24] + s[24..32] + s[32..];
    assert e == e[0..8] + e[8..16] + e[16..24] + e[24..32] + e[32..];
  }

  /** A DATA packet stamped with t is 1472 bytes on the wire and decodes to a non-ACK with the same number and stamp. */
  lemma DataRoundTrip(n: uint64, t: uint64)
    ensures |Encode(DataPacket(n).(sendTimestamp := t))| == DATA_PACKET_SIZE
    ensures Decode(Encode(DataPacket(n).(sendTimestamp := t))) == Success(DataPacket(n).(sendTimestamp := t))
  {
    DecodeEncode(DataPacket(n).(sendTimestamp := t));
  }

  /** An ACK is 32 bytes on the wire and decodes to an ACK echoing the acknowledged number and stamp. */
  lemma AckRoundTrip(n: uint64, other: PacketFields)
    requires other.sequenceNumber != Int64.MAX_UINT64
    ensures |Encode(AckPacket(n, other))| == HEADER_SIZE
    ensures Decode(Encode(AckPacket(n, other))) == Success(AckPacket(n, other))
  {
    DecodeEncode(AckPacket(n, other));
  }

  /** A datagram whose ack sequence number bytes are all 0xFF decodes to a non-ACK. */
  lemma SentinelIsData(s: seq<byte>)
    requires HEADER_SIZE <= |s|
    requires forall i :: 16 <= i < 24 ==> s[i] == 0xFF
    ensures Decode(s).Success? && Decode(s).value.ackSequenceNumber == Int64.MAX_UINT64
  {
    var field := s[16..24];
    DecodeFields(s);
    Int64.ValueOfAllOnes(field);
    Int64.Pow256Eight();
    assert Int64.ValueOf(Int64.Encode(Decode(s).value.ackSequenceNumber)) == Int64.ValueOf(field);
  }

  /** The Packet object of packet.hh: five fields, all but one fixed at construction. */
  class Packet {
    var sequenceNumber: uint64
    var sendTimestamp: uint64
    var ackSequenceNumber: uint64
    var ackSendTimestamp: uint64
    var payloadLen: uint32

    /** The getters, taken together: each returns its own field. */
    function Fields(): (r: PacketFields)
      reads this
      ensures r.sequenceNumber == sequenceNumber && r.sendTimestamp == sendTimestamp
      ensures r.ackSequenceNumber == ackSequenceNumber && r.ackSendTimestamp == ackSendTimestamp
      ensures r.payloadLen == payloadLen
    {
      PacketFields(sequenceNumber, sendTimestamp, ackSequenceNumber, ackSendTimestamp, payloadLen)
    }

    /** Packet( sequence_number ): an outgoing DATA packet. */
    constructor Data(n: uint64)
      ensures Fields() == DataPacket(n)
      ensures !IsAck(Fields())
    {
      sequenceNumber := n;
      sendTimestamp := 0;
      ackSequenceNumber := Int64.MAX_UINT64;
      ackSendTimestamp := 0;
      payloadLen := DATA_PACKET_SIZE - HEADER_SIZE;
    }

    /** Packet( sequence_number, other ): the ACK of `other`. */
    constructor Ack(n: uint64, other: Packet)
      requires other.sequenceNumber != Int64.MAX_UINT64
      ensures Fields() == AckPacket(n, other.Fields())
      ensures IsAck(Fields())
    {
      sequenceNumber := n;
      sendTimestamp := 0;
      ackSequenceNumber := other.sequenceNumber;
      ackSendTimestamp := other.sendTimestamp;
      payloadLen := 0;
    }

    /** The member initialisers that run before the decoding constructor's body. */
    constructor Blank()
      ensures Fields() == PacketFields(0, 0, 0, 0, 0)
    {
      sequenceNumber, sendTimestamp, ackSequenceNumber, ackSendTimestamp, payloadLen := 0, 0, 0, 0, 0;
    }

    /** Packet( const std::string & ): an incoming packet, or the error it throws. */
    static method FromWire(s: seq<byte>) returns (r: Result<Packet, Error>)
      ensures r.Failure? <==> |s| < HEADER_SIZE
      ensures r.Success? ==> fresh(r.value) && Decode(s) == Success(r.value.Fields())
      ensures r.Failure? ==> Decode(s) == Failure(r.error)
    {
      var p := new Packet.Blank();
      if |s| < HEADER_SIZE {
        return Failure(DatagramTooShort);
      }
      p.sequenceNumber := Int64.Decode(s[0..8]).value;
      p.sendTimestamp := Int64.Decode(s[8..16]).value;
      p.ackSequenceNumber := Int64.Decode(s[16..24]).value;
      p.ackSendTimestamp := Int64.Decode(s[24..32]).value;
      p.payloadLen := Int64.Truncate32(|s| - HEADER_SIZE);
      return Success(p);
    }

    /** set_send_timestamp: stamp the packet with the supplied clock reading; nothing else changes. */
    method SetSendTimestamp(clock: Timestamp.Timespec)
      modifies this
      ensures Fields() == old(Fields()).(sendTimestamp := Timestamp.Convert(clock))
    {
      sendTimestamp := Timestamp.Convert(clock);
    }
  }
}
