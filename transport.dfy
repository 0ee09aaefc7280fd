/**
 * Model of transport.cc: the loop bodies of the receiver (linguini), which
 * answers every datagram with an ACK, and of the sender (colette), which
 * sends a DATA packet every 1000 ms and reports the round-trip time of
 * every ACK it reads.
 *
 * Everything the loops take from the operating system is an input here:
 * argc, each received datagram, each clock reading, and what each poll
 * did. The infinite loops run over a finite trace of such inputs.
 */
module Transport {
  import opened Wrappers
  import Int64
  import opened Timestamp
  import opened Packets

  /** Why a role stops with an error. */
  datatype Failure =
    | InvalidCommandLine  // argc <= 0
    | Usage               // wrong number of arguments
    | MalformedPacket     // the decoding constructor threw
    | AssertionFailure    // an assert of packet.cc fired

  /** linguini takes its name and PORT. */
  const RECEIVER_ARGC: nat := 2
  /** colette takes its name, HOSTNAME and PORT. */
  const SENDER_ARGC: nat := 3
  /** Milliseconds between two DATA packets. */
  const INTERSEND_TIME: uint64 := 1000

  function CheckArgc(argc: int, expected: nat): Option<Failure>
  {
    if argc <= 0 then Some(InvalidCommandLine)
    else if argc != expected then Some(Usage)
    else None
  }

  /** The receiver's argument check: only argc == 2 passes; argc <= 0 is reported apart. */
  function ReceiverArguments(argc: int): (r: Option<Failure>)
    ensures r.None? <==> argc == RECEIVER_ARGC
    ensures r == Some(InvalidCommandLine) <==> argc <= 0
    ensures r.Some? ==> r.value in {InvalidCommandLine, Usage}
  {
    CheckArgc(argc, RECEIVER_ARGC)
  }

  /** The sender's argument check: only argc == 3 passes; argc <= 0 is reported apart. */
  function SenderArguments(argc: int): (r: Option<Failure>)
    ensures r.None? <==> argc == SENDER_ARGC
    ensures r == Some(InvalidCommandLine) <==> argc <= 0
    ensures r.Some? ==> r.value in {InvalidCommandLine, Usage}
  {
    CheckArgc(argc, SENDER_ARGC)
  }

  // ---------------------------------------------------------------- receiver

  datatype ReceiveOutcome = Acked(reply: seq<byte>) | Fatal(failure: Failure)

  /** How the receiver's loop body fails on a datagram, if it does. */
  predicate Rejects(datagram: seq<byte>, failure: Failure)
  {
    match Decode(datagram)
    case Failure(_) => failure == MalformedPacket
    case Success(p) => p.sequenceNumber == Int64.MAX_UINT64 && failure == AssertionFailure
  }

  /** `reply` is the 32-byte ACK numbered n of the DATA packet `datagram` carries. */
  predicate AckOf(reply: seq<byte>, datagram: seq<byte>, n: uint64)
  {
    && |reply| == HEADER_SIZE
    && Decode(datagram).Success?
    && Decode(datagram).value.sequenceNumber != Int64.MAX_UINT64
    && Decode(reply) == Success(AckPacket(n, Decode(datagram).value))
  }

  /**
   * One pass of linguini's loop: decode the datagram and answer with an ACK
   * numbered by the counter, which advances. A short datagram throws; a
   * datagram numbered 2^64 - 1 makes the ACK constructor's assert fire.
   */
  method ReceiverStep(counter: uint64, datagram: seq<byte>) returns (next: uint64, outcome: ReceiveOutcome)
    ensures outcome.Fatal? ==> Rejects(datagram, outcome.failure)
    ensures outcome.Acked? ==> AckOf(outcome.reply, datagram, counter)
    ensures outcome.Acked? <==>
      Decode(datagram).Success? && Decode(datagram).value.sequenceNumber != Int64.MAX_UINT64
    ensures Decode(datagram).Failure? ==> next == counter
    ensures Decode(datagram).Success? ==> next == Int64.Wrap64(counter + 1)
  {
    var r := Packet.FromWire(datagram);
    if r.Failure? {
      return counter, Fatal(MalformedPacket);
    }
    var received := r.value;
    next := Int64.Wrap64(counter + 1);
    if received.sequenceNumber == Int64.MAX_UINT64 {
      return next, Fatal(AssertionFailure);
    }
    var ack := new Packet.Ack(counter, received);
    AckRoundTrip(counter, received.Fields());
    outcome := Acked(Encode(ack.Fields()));
  }

  /** replies[i] is the ACK numbered i (modulo 2^64) of datagrams[i], for every i. */
  predicate AcksInOrder(replies: seq<seq<byte>>, datagrams: seq<seq<byte>>)
    requires |replies| <= |datagrams|
    decreases |replies|
  {
    replies == [] ||
    (AcksInOrder(replies[..|replies| - 1], datagrams)
     && AckOf(replies[|replies| - 1], datagrams[|replies| - 1], Int64.Wrap64(|replies| - 1)))
  }

  /** Appending the ACK numbered |replies| of the next datagram keeps the replies in order. */
  lemma AcksInOrderExtend(replies: seq<seq<byte>>, datagrams: seq<seq<byte>>, reply: seq<byte>)
    requires |replies| < |datagrams| && AcksInOrder(replies, datagrams)
    requires AckOf(reply, datagrams[|replies|], Int64.Wrap64(|replies|))
    ensures AcksInOrder(replies + [reply], datagrams)
  {
    assert (replies + [reply])[..|replies|] == replies;
  }

  lemma {:induction false} AcksInOrderAt(replies: seq<seq<byte>>, datagrams: seq<seq<byte>>, j: nat)
    requires |replies| <= |datagrams| && AcksInOrder(replies, datagrams) && j < |replies|
    ensures AckOf(replies[j], datagrams[j], Int64.Wrap64(j))
  {
    if j < |replies| - 1 {
      AcksInOrderAt(replies[..|replies| - 1], datagrams, j);
    }
  }

  datatype ReceiverEnding = Listening | Stopped(failure: Failure)

  /**
   * linguini's loop over a trace of datagrams: the i-th ACK (from 0) carries
   * sequence number i and echoes the i-th datagram's sequence number and send
   * timestamp. The loop stops at the first datagram it cannot answer.
   */
  method RunReceiver(datagrams: seq<seq<byte>>) returns (replies: seq<seq<byte>>, ending: ReceiverEnding)
    ensures |replies| <= |datagrams|
    ensures ending.Listening? <==> |replies| == |datagrams|
    ensures ending.Stopped? ==> Rejects(datagrams[|replies|], ending.failure)
    ensures forall i :: 0 <= i < |replies| ==>
      AckOf(replies[i], datagrams[i], Int64.Wrap64(i))
  {
    var counter: uint64 := 0;
    replies, ending := [], Listening;
    while |replies| < |datagrams| && ending.Listening?
      invariant |replies| <= |datagrams|
      invariant ending.Stopped? ==> |replies| < |datagrams| && Rejects(datagrams[|replies|], ending.failure)
      invariant counter == Int64.Wrap64(|replies|)
      invariant AcksInOrder(replies, datagrams)
      decreases |datagrams| - |replies|, ending.Listening?
    {
      var outcome;
      var next;
      next, outcome := ReceiverStep(counter, datagrams[|replies|]);
      match outcome
      case Fatal(failure) =>
        ending := Stopped(failure);
      case Acked(reply) =>
        Int64.Wrap64Add(|replies|, 1);
        AcksInOrderExtend(replies, datagrams, reply);
        replies := replies + [reply];
        counter := next;
    }
    forall i | 0 <= i < |replies|
      ensures AckOf(replies[i], datagrams[i], Int64.Wrap64(i))
    {
      AcksInOrderAt(replies, datagrams, i);
    }
  }

  // ---------------------------------------------------------------- sender

  datatype Control = Continue | Exit

  /** What the sender prints for a datagram it reads. */
  datatype Report =
    | Rtt(ackSequenceNumber: uint64, rtt: uint64)
    | NonAck(sequenceNumber: uint64)

  datatype CallbackOutcome = Returned(report: Report, control: Control) | Raised(failure: Failure)

  /**
   * The read callback colette registers with its poller, given the datagram it
   * reads and the clock reading it takes. For an ACK it reports the
   * acknowledged number and now - ack_send_timestamp (modulo 2^64); a non-ACK
   * is reported as an error. When it returns, it returns Continue. A short
   * datagram throws, and an ACK with a payload makes is_ack's assert fire.
   */
  function OnReadable(datagram: seq<byte>, clock: Timespec): (outcome: CallbackOutcome)
    ensures outcome.Returned? ==> outcome.control == Continue
    ensures outcome == Raised(MalformedPacket) <==> Decode(datagram).Failure?
    ensures outcome == Raised(AssertionFailure) <==>
      Decode(datagram).Success? && !Classifiable(Decode(datagram).value)
    ensures Decode(datagram).Success? && Classifiable(Decode(datagram).value) ==>
      && outcome.Returned?
      && (outcome.report.Rtt? <==> IsAck(Decode(datagram).value))
    ensures outcome.Returned? && outcome.report.Rtt? ==>
      && Decode(datagram).Success?
      && Classifiable(Decode(datagram).value) && IsAck(Decode(datagram).value)
      && outcome.report.ackSequenceNumber == Decode(datagram).value.ackSequenceNumber
      && Int64.Wrap64(Decode(datagram).value.ackSendTimestamp + outcome.report.rtt) == Convert(clock)
    ensures outcome.Returned? && outcome.report.NonAck? ==>
      && Decode(datagram).Success?
      && Decode(datagram).value.ackSequenceNumber == Int64.MAX_UINT64
      && outcome.report.sequenceNumber == Decode(datagram).value.sequenceNumber
  {
    match Decode(datagram)
    case Failure(_) => Raised(MalformedPacket)
    case Success(ack) =>
      var now := Convert(clock);
      if !Classifiable(ack) then Raised(AssertionFailure)
      else if IsAck(ack) then
        var rtt := Int64.Wrap64(now - ack.ackSendTimestamp);
        Int64.Wrap64Add(now - ack.ackSendTimestamp, ack.ackSendTimestamp);
        Returned(Rtt(ack.ackSequenceNumber, rtt), Continue)
      else Returned(NonAck(ack.sequenceNumber), Continue)
  }

  /** What the poller did during one wait. */
  datatype PollOutcome =
    | TimedOut                                     // nothing arrived before the timeout
    | Readable(datagram: seq<byte>, clock: Timespec) // the socket became readable; the callback ran
    | ExitRequested                                // the poller returned Exit

  /**
   * What one pass of colette's loop takes from the world: the clock reading at
   * its top, what the poll did if it waits, and the reading that
   * set_send_timestamp takes if it sends.
   */
  datatype Iteration = Iteration(now: Timespec, poll: PollOutcome, stamp: Timespec)

  datatype SenderAction =
    | Sent(datagram: seq<byte>)
    | Waited(timeout: uint64, report: Option<Report>)
    | Exited
    | Crashed(failure: Failure)

  /**
   * One pass of colette's loop. Before the next send time it waits for the
   * time left and leaves the counters alone; otherwise it sends the DATA
   * packet numbered with the counter, stamped with the clock, and advances the
   * send time by exactly 1000 ms whatever the clock said.
   */
  method SenderStep(sequenceNumber: uint64, nextSendTime: uint64, it: Iteration)
    returns (sequenceNumber': uint64, nextSendTime': uint64, action: SenderAction)
    ensures action.Sent? <==> nextSendTime <= Convert(it.now)
    ensures !action.Sent? ==>
      && sequenceNumber' == sequenceNumber
      && nextSendTime' == nextSendTime
      && (action.Exited? <==> it.poll.ExitRequested?)
      && (action.Waited? ==> action.timeout == nextSendTime - Convert(it.now) > 0)
      && (it.poll.TimedOut? ==> action.Waited? && action.report.None?)
      && (it.poll.Readable? ==>
            match OnReadable(it.poll.datagram, it.poll.clock)
            case Returned(report, _) => action.Waited? && action.report == Some(report)
            case Raised(failure) => action == Crashed(failure))
    ensures action.Sent? ==>
      && sequenceNumber' == Int64.Wrap64(sequenceNumber + 1)
      && nextSendTime' == Int64.Wrap64(nextSendTime + INTERSEND_TIME)
      && action.datagram == Encode(DataPacket(sequenceNumber).(sendTimestamp := Convert(it.stamp)))
  {
    var now := Convert(it.now);
    if now < nextSendTime {
      var timeout := nextSendTime - now;
      sequenceNumber', nextSendTime' := sequenceNumber, nextSendTime;
      match it.poll
      case ExitRequested =>
        action := Exited;
      case TimedOut =>
        action := Waited(timeout, None);
      case Readable(datagram, clock) =>
        match OnReadable(datagram, clock)
        case Returned(report, _) =>
          action := Waited(timeout, Some(report));
        case Raised(failure) =>
          action := Crashed(failure);
    } else {
      var outgoing := new Packet.Data(sequenceNumber);
      sequenceNumber' := Int64.Wrap64(sequenceNumber + 1);
      outgoing.SetSendTimestamp(it.stamp);
      DataRoundTrip(sequenceNumber, Convert(it.stamp));
      action := Sent(Encode(outgoing.Fields()));
      nextSendTime' := Int64.Wrap64(nextSendTime + INTERSEND_TIME);
    }
  }

  /** `datagram` is a 1472-byte DATA packet numbered n. */
  predicate DataNumbered(datagram: seq<byte>, n: uint64)
  {
    && |datagram| == DATA_PACKET_SIZE
    && Decode(datagram).Success?
    && Decode(datagram).value.sequenceNumber == n
    && Classifiable(Decode(datagram).value) && !IsAck(Decode(datagram).value)
  }

  /** `start` after k additions of `step` in uint64_t arithmetic, one at a time. */
  function Advanced(start: uint64, step: uint64, k: nat): uint64
  {
    if k == 0 then start else Int64.Wrap64(Advanced(start, step, k - 1) + step)
  }

  /** k wrapping additions of `step` are one addition of k * step, modulo 2^64. */
  lemma {:induction false} AdvancedIs(start: uint64, step: uint64, k: nat)
    ensures Advanced(start, step, k) == Int64.Wrap64(start + step * k)
  {
    if k > 0 {
      AdvancedIs(start, step, k - 1);
      Int64.Wrap64Add(start + step * (k - 1), step);
    }
  }

  /** After k sends from the start reading `startTime`, the counter is k and the send time k steps on. */
  predicate Counted(startTime: uint64, k: nat, sequenceNumber: uint64, nextSendTime: uint64)
  {
    sequenceNumber == Int64.Wrap64(k) && nextSendTime == Advanced(startTime, INTERSEND_TIME, k)
  }

  lemma CountedNext(startTime: uint64, k: nat, sequenceNumber: uint64, nextSendTime: uint64)
    requires Counted(startTime, k, sequenceNumber, nextSendTime)
    ensures Counted(startTime, k + 1, Int64.Wrap64(sequenceNumber + 1), Int64.Wrap64(nextSendTime + INTERSEND_TIME))
  {
    Int64.Wrap64Add(k, 1);
  }

  lemma CountedIs(startTime: uint64, k: nat, sequenceNumber: uint64, nextSendTime: uint64)
    requires Counted(startTime, k, sequenceNumber, nextSendTime)
    ensures nextSendTime == Int64.Wrap64(startTime + INTERSEND_TIME * k)
  {
    AdvancedIs(startTime, INTERSEND_TIME, k);
  }

  datatype SenderEnding = Running | ExitedLoop | Aborted(failure: Failure)

  /** What colette's loop has done so far: the datagrams written, the reports, and whether it has stopped. */
  datatype Progress = Progress(sent: seq<seq<byte>>, reports: seq<Report>, ending: SenderEnding)

  /**
   * One pass of colette's loop, told by what the loop has done so far. A
   * stopped loop does nothing more. With k packets sent from the start reading
   * `startTime`, the next send time is start + 1000 k: a pass at or after it
   * writes the DATA packet numbered k, stamped with the pass's second reading;
   * an earlier pass waits and acts on what the poll did.
   */
  function NextProgress(startTime: uint64, p: Progress, it: Iteration): Progress
  {
    if !p.ending.Running? then p
    else if Advanced(startTime, INTERSEND_TIME, |p.sent|) <= Convert(it.now) then
      p.(sent := p.sent + [Encode(DataPacket(Int64.Wrap64(|p.sent|)).(sendTimestamp := Convert(it.stamp)))])
    else
      match it.poll
      case ExitRequested => p.(ending := ExitedLoop)
      case TimedOut => p
      case Readable(datagram, clock) =>
        match OnReadable(datagram, clock)
        case Returned(report, _) => p.(reports := p.reports + [report])
        case Raised(failure) => p.(ending := Aborted(failure))
  }

  /** What colette's loop has done after its first n passes over `iterations`, from the start reading `startTime`. */
  function Replay(startTime: uint64, iterations: seq<Iteration>, n: nat): Progress
    requires n <= |iterations|
  {
    if n == 0 then Progress([], [], Running)
    else NextProgress(startTime, Replay(startTime, iterations, n - 1), iterations[n - 1])
  }

  /** Packet j written by colette is the DATA packet numbered j (modulo 2^64). */
  lemma {:induction false} ReplayNumbered(startTime: uint64, iterations: seq<Iteration>, n: nat, j: nat)
    requires n <= |iterations|
    requires j < |Replay(startTime, iterations, n).sent|
    ensures DataNumbered(Replay(startTime, iterations, n).sent[j], Int64.Wrap64(j))
  {
    var before := Replay(startTime, iterations, n - 1);
    if j < |before.sent| {
      ReplayNumbered(startTime, iterations, n - 1, j);
    } else {
      DataRoundTrip(Int64.Wrap64(j), Convert(iterations[n - 1].stamp));
    }
  }

  lemma ReplayAllNumbered(startTime: uint64, iterations: seq<Iteration>, n: nat)
    requires n <= |iterations|
    ensures forall j :: 0 <= j < |Replay(startTime, iterations, n).sent| ==>
      DataNumbered(Replay(startTime, iterations, n).sent[j], Int64.Wrap64(j))
  {
    forall j | 0 <= j < |Replay(startTime, iterations, n).sent|
      ensures DataNumbered(Replay(startTime, iterations, n).sent[j], Int64.Wrap64(j))
    {
      ReplayNumbered(startTime, iterations, n, j);
    }
  }

  /** Each pass writes a packet, records a report, or neither. */
  lemma {:induction false} ReplayCounts(startTime: uint64, iterations: seq<Iteration>, n: nat)
    requires n <= |iterations|
    ensures |Replay(startTime, iterations, n).sent| + |Replay(startTime, iterations, n).reports| <= n
  {
    if n > 0 {
      ReplayCounts(startTime, iterations, n - 1);
    }
  }

  /** Once the loop has stopped, later passes change nothing. */
  lemma {:induction false} ReplayStopped(startTime: uint64, iterations: seq<Iteration>, n: nat, m: nat)
    requires n <= m <= |iterations|
    requires !Replay(startTime, iterations, n).ending.Running?
    ensures Replay(startTime, iterations, m) == Replay(startTime, iterations, n)
  {
    if n < m {
      ReplayStopped(startTime, iterations, n, m - 1);
    }
  }

  /**
   * One pass of colette's loop, recorded: the datagram it writes, the report it
   * gathers or the way it stops the loop is added to what the loop has done so
   * far, as NextProgress says, and the counters move on with the sends.
   */
  method SenderPass(startTime: uint64, progress: Progress, sequenceNumber: uint64, nextSendTime: uint64, it: Iteration)
    returns (progress': Progress, sequenceNumber': uint64, nextSendTime': uint64)
    requires progress.ending.Running?
    requires Counted(startTime, |progress.sent|, sequenceNumber, nextSendTime)
    ensures progress' == NextProgress(startTime, progress, it)
    ensures Counted(startTime, |progress'.sent|, sequenceNumber', nextSendTime')
  {
    var action;
    sequenceNumber', nextSendTime', action := SenderStep(sequenceNumber, nextSendTime, it);
    match action
    case Sent(datagram) =>
      CountedNext(startTime, |progress.sent|, sequenceNumber, nextSendTime);
      progress' := progress.(sent := progress.sent + [datagram]);
    case Waited(_, report) =>
      progress' := if report.Some? then progress.(reports := progress.reports + [report.value]) else progress;
    case Exited =>
      progress' := progress.(ending := ExitedLoop);
    case Crashed(failure) =>
      progress' := progress.(ending := Aborted(failure));
  }

  /**
   * colette's loop over a trace of iterations, starting from the clock reading
   * `start`: it does what Replay says, pass by pass, and stops on the pass that
   * stops it. After k sends the counter is k and the next send time is start +
   * 1000 k (both modulo 2^64), and the packets sent are DATA packets numbered
   * 0 to k - 1 in order.
   */
  method RunSender(start: Timespec, iterations: seq<Iteration>)
    returns (sequenceNumber: uint64, nextSendTime: uint64, sent: seq<seq<byte>>,
             reports: seq<Report>, consumed: nat, ending: SenderEnding)
    ensures consumed <= |iterations|
    ensures Replay(Convert(start), iterations, consumed) == Progress(sent, reports, ending)
    ensures ending.Running? ==> consumed == |iterations|
    ensures !ending.Running? ==> 0 < consumed && Replay(Convert(start), iterations, consumed - 1).ending.Running?
    ensures sequenceNumber == Int64.Wrap64(|sent|)
    ensures nextSendTime == Int64.Wrap64(Convert(start) + INTERSEND_TIME * |sent|)
  {
    var startTime := Convert(start);
    var progress := Progress([], [], Running);
    sequenceNumber, nextSendTime, consumed := 0, startTime, 0;
    while consumed < |iterations| && progress.ending.Running?
      invariant consumed <= |iterations|
      invariant Replay(startTime, iterations, consumed) == progress
      invariant !progress.ending.Running? ==> 0 < consumed && Replay(startTime, iterations, consumed - 1).ending.Running?
      invariant Counted(startTime, |progress.sent|, sequenceNumber, nextSendTime)
    {
      progress, sequenceNumber, nextSendTime := SenderPass(startTime, progress, sequenceNumber, nextSendTime, iterations[consumed]);
      consumed := consumed + 1;
    }
    sent, reports, ending := progress.sent, progress.reports, progress.ending;
    CountedIs(startTime, |sent|, sequenceNumber, nextSendTime);
    if !ending.Running? {
      ghost var before := Replay(startTime, iterations, consumed - 1);
      assert before.ending.Running?;
    }
  }
}
