# colette / linguini: a Dafny model

colette and linguini are the two halves of a UDP round-trip-time prober.
linguini (the receiver) answers every datagram with a 32-byte ACK that echoes
the datagram's sequence number and send timestamp and carries its own running
ACK number. colette (the sender) sends a 1472-byte DATA packet every 1000 ms.
Each packet is numbered and stamped with the milliseconds elapsed since a fixed
epoch. For every ACK it reads back, colette reports the round-trip time.

The model has five modules. Four follow the source files of the core; the
first is a helper:

- `Wrappers` (wrappers.dfy): the `Option` and `Result` datatypes that the
  other modules use for optional reports and for errors.
- `Int64` (int64.dfy): `Integer64` as a `uint64` value with its 8-byte
  big-endian encoding and decoding, plus the `uint64_t` wrap-around (`Wrap64`).
- `Timestamp` (timestamp.dfy): the conversion of a `timespec` reading to
  milliseconds since the epoch (1397448000000 ms), in wrapping `uint64_t`
  arithmetic.
- `Packets` (packet.dfy, covering both packet.hh and packet.cc):
  - the `Packet` class, with its five fields, three constructors,
    `set_send_timestamp`, and the getters as `Fields()`;
  - beside it, the value functions for the wire codec (`str` and the decoding
    constructor) and for `is_ack`.
- `Transport` (transport.dfy):
  - the argument checks;
  - one pass of each role's loop (`ReceiverStep`, `SenderStep`) and the read
    callback (`OnReadable`);
  - both loops run over a finite trace of inputs (`RunReceiver`, `RunSender`);
  - `Replay`, a pass-by-pass reference for the sender's loop built from
    `NextProgress`, which `RunSender` is proved to follow.

`Integer64` integers are unbounded Dafny integers restricted to range.

- Every C++ `uint64_t` addition, subtraction or multiplication that can leave
  that range goes through `Wrap64`, which reduces modulo 2^64.
- The `size_t` to `unsigned int` conversion of the payload length goes
  through `Truncate32`, which reduces modulo 2^32.

The asserts of packet.cc become preconditions on the packet-level members:

- the ACK constructor's `assert( is_ack() )`;
- `is_ack`'s `assert( payload_len_ == 0 )`;
- `str`'s size assert.

In the loops, these asserts can be reached by bytes arriving from the network.
There a failed assert is an explicit `AssertionFailure` outcome, and the
decoding constructor's exception is a `MalformedPacket` outcome.

The decoding constructor signals a short datagram by throwing a `std::string`
(packet.cc:34). The `main` functions of colette.cc and linguini.cc catch only `Exception`
(colette.cc:8-13, linguini.cc:8-13). So a short datagram ends the sender, in
its read callback, just as it ends the receiver. In the model, a
`MalformedPacket` outcome is fatal in both loops.

## Model

| member | source | states |
|---|---|---|
| Int64.Encode | int64.hh:32-36 | the encoding of x is exactly 8 bytes whose big-endian value is x |
| Int64.EncodeByte | int64.hh:34-35 | byte i of the encoding is the i-th most significant base-256 digit of x (network byte order) |
| Int64.Decode | int64.hh:22-29 | decoding fails exactly when the string is not 8 bytes long |
| Int64.DecodeEncode | int64.hh:22-36 | decoding the encoding of any uint64 gives it back |
| Int64.EncodeDecode | int64.hh:22-36 | encoding the decoded value of any 8-byte string gives the same bytes |
| Int64.ValueOfAllOnes | packet.cc:12 | bytes that are all 0xFF denote 256^n - 1, so eight of them denote uint64_t( -1 ) |
| Int64.Wrap64Add | transport.cc:89 | reducing a partial sum modulo 2^64 before adding more does not change the reduced total |
| Int64.Wrap64InRange | packet.cc:12 | reducing modulo 2^64 leaves a value already in uint64_t range unchanged (`Wrap64` itself carries no ensures; its meaning is stated here and by Wrap64Add) |
| Int64.Truncate32 | packet.cc:41 | a payload length below 2^32 is kept as is by the conversion to unsigned int |
| Int64.Truncate32IsModulo | packet.cc:41 | converting a size to unsigned int keeps its value modulo 2^32 |
| Timestamp.Constants | timestamp.cc:9-15 | THOUSAND, MILLION and BILLION are 10^3, 10^6 and 10^9 |
| Timestamp.ConvertMillis | timestamp.cc:28-32 | the contract of `Convert`, which carries no ensures of its own: for a reading between the epoch and 2^64 ns, the converted value is the number of whole milliseconds elapsed since the epoch |
| Timestamp.WholeMillis | timestamp.cc:30-31 | that millisecond count is the only one that brackets the reading |
| Timestamp.SubMillisecond | timestamp.cc:31 | readings that differ only below the millisecond convert to the same value (the division truncates) |
| Timestamp.AtEpoch | timestamp.cc:18 | a reading exactly at the epoch converts to 0 |
| Timestamp.Monotone | timestamp.cc:28-32 | on readings in range, a later reading never converts to a smaller value |
| Timestamp.OneSecondLater | timestamp.cc:30-31 | adding one second to a reading in range adds exactly THOUSAND to its conversion |
| Packets.IsAck | packet.cc:66-75 | a packet is an ACK exactly when its ack sequence number is below 2^64 - 1, and an ACK has an empty payload |
| Packets.DataPacket | packet.cc:10-16 | a new DATA packet carries its number, is not an ACK, has zero timestamps and is HEADER_SIZE + payload = 1472 bytes |
| Packets.AckPacket | packet.cc:19-26 | an ACK carries its own number, echoes the other packet's number and send timestamp, has no payload and is an ACK |
| Packets.Encode | packet.cc:52-63 | the wire form is the four fields' 8-byte encodings at offsets 0, 8, 16 and 24, then payload_len 'x' bytes, at most 1472 in all |
| Packets.Decode | packet.cc:29-42 | decoding fails exactly on fewer than 32 bytes; otherwise the payload length is the remainder truncated to unsigned int |
| Packets.DecodeFields | packet.cc:37-40 | each decoded field is the number whose encoding sits at its offset |
| Packets.DecodeEncode | packet.cc:29-63 | every packet str() accepts decodes back to itself |
| Packets.EncodeDecode | packet.cc:29-63 | a datagram of 32 to 1472 bytes with an all-'x' payload is the encoding of what it decodes to |
| Packets.DataRoundTrip | transport.cc:86-88 | a stamped DATA packet is 1472 bytes on the wire and decodes to itself |
| Packets.AckRoundTrip | transport.cc:38-39 | an ACK is 32 bytes on the wire and decodes to itself |
| Packets.SentinelIsData | packet.cc:65-70 | any datagram whose ack-sequence-number bytes are all 0xFF decodes to a non-ACK |
| Packets.Packet.Fields | packet.hh:42-47 | each of the five getters returns its own field |
| Packets.Packet.Data | packet.cc:10-16 | the constructed object holds DataPacket(n) and is not an ACK |
| Packets.Packet.Ack | packet.cc:19-26 | the constructed object holds AckPacket(n, other) and is an ACK |
| Packets.Packet.Blank | packet.hh:12-16 | before the decoding constructor's body runs, every field is 0 |
| Packets.Packet.FromWire | packet.cc:29-42 | the decoding constructor yields a fresh object holding Decode(s), or the error Decode(s) reports, exactly when s is shorter than 32 bytes |
| Packets.Packet.SetSendTimestamp | packet.cc:45-49 | only the send timestamp changes, to the converted clock reading |
| Transport.ReceiverArguments | transport.cc:17-23 | only argc == 2 passes; argc <= 0 is reported as an invalid command line and any other count as a usage error |
| Transport.SenderArguments | transport.cc:48-54 | only argc == 3 passes; argc <= 0 is reported as an invalid command line and any other count as a usage error |
| Transport.ReceiverStep | transport.cc:33-39 | on a decodable datagram not numbered 2^64 - 1, the reply is the 32-byte ACK numbered by the counter; otherwise the step fails as Rejects says. The counter advances by one (mod 2^64) whenever the datagram decodes |
| Transport.RunReceiver | transport.cc:30-42 | the i-th reply is the ACK numbered i (mod 2^64) of the i-th datagram; the loop consumes every datagram, or stops at the first one it rejects, for the reason Rejects gives |
| Transport.OnReadable | transport.cc:63-73 | for an ACK, reports the acknowledged number and an RTT that added to the echoed send timestamp gives the current reading (mod 2^64); for a non-ACK, reports its number; a short datagram or an ACK with a payload is fatal; every other datagram returns Continue, with an RTT report exactly when it is an ACK |
| Transport.SenderStep | transport.cc:80-91 | sends exactly when the send time has come. A send emits the 1472-byte DATA packet numbered by the counter and stamped with the clock, then advances the counter by 1 and the send time by 1000 (mod 2^64). Otherwise the counters are unchanged, and the step polls for the remaining time with a positive timeout, exits on Exit, or passes on the callback's report or failure |
| Transport.AdvancedIs | transport.cc:89 | k wrapping additions of a step are one addition of k times the step, modulo 2^64 |
| Transport.ReplayNumbered | transport.cc:86-88 | the j-th packet colette writes is a 1472-byte DATA packet numbered j (mod 2^64) |
| Transport.ReplayAllNumbered | transport.cc:86-89 | the packets written in the first n passes are numbered 0, 1, 2, ... in order (mod 2^64) |
| Transport.ReplayCounts | transport.cc:80-91 | n passes write packets and gather reports at most n in all: a pass does one or the other, or neither |
| Transport.ReplayStopped | transport.cc:82-83 | once the loop has stopped, on Exit or on a failure, later inputs change nothing |
| Transport.SenderPass | transport.cc:80-91 | one pass adds to what the loop has done exactly what NextProgress says (the packet numbered by the count of sends and stamped with the clock once the send time has come; otherwise the callback's report, Exit, or the callback's failure), and the counter and send time stay k and start + 1000 k after k sends |
| Transport.RunSender | transport.cc:75-92 | the loop does pass by pass what Replay says of the trace: its packets, reports and ending are those of the first `consumed` passes; it stops only on the pass that stops it (Exit during a wait, or the callback's failure) or at the end of the trace; after k sends the counter is k and the next send time is the start reading plus 1000 k (mod 2^64) |

## Left out

- Sockets, addresses and the poller are not part of this model.
  - Datagrams received and the bytes written are trace inputs and outputs.
  - What a poll did is an input: a timeout, a readable socket with the datagram and clock reading the callback sees, or Exit.
  - Socket errors, the receive MTU check and the peer address are not modelled.
- Clock reads are inputs. `timestamp( void )` is a `Timespec` parameter, and a failing `clock_gettime` is not modelled.
- The log lines written to `cerr` are not modelled. The sender's per-ACK log line is the `Report` value.
- Host byte order is not modelled. `htobe64` and `be64toh` are stated as big-endian arithmetic on byte values.
- `Integer64`'s default and `uint64_t` constructors and its conversion operators are not modelled separately. An `Integer64` is its `uint64` value.
- Both loops are infinite in the source. The model runs them over a finite trace and returns the state reached.
- Process exit status is not modelled. Exceptions that end a role are `Failure` values. Whether the process then exits with `EXIT_FAILURE` (an `Exception`) or aborts (an uncaught `std::string` or a failed assert) is not distinguished.
- Timestamp.ConvertMillis: the millisecond meaning is stated only for readings at or after the epoch and below 2^64 ns. Outside that range, Convert still computes the wrapped value the C++ code computes, but no property is stated about it.
- Packets.Decode: the contract gives the failure case and the payload length. The four header fields are given by Packets.DecodeFields and the round-trip lemmas.
