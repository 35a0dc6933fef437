/** The go-back-N sender and receiver objects, proved to take the steps of module GoBackN. */
module GbnEndpoints {
  import opened Chunking
  import opened PacketFormat
  import opened SequenceNumbers
  import opened GoBackN

  class MutableVariable<T> {
    var value: T

    constructor (value: T)
      ensures this.value == value
    {
      this.value := value;
    }
  }

  datatype Received = Got(packet: PacketGbn, duration: real) | Timeout | Shutdown

  /** The datagram socket: `inbox` is what it will hear, and once that is used up the socket is shut down. */
  class SocketGbn {
    var inbox: seq<Event>
    var outbox: seq<PacketGbn>

    constructor (inbox: seq<Event>)
      ensures this.inbox == inbox && outbox == []
    {
      this.inbox := inbox;
      outbox := [];
    }

    method Sendto(p: PacketGbn)
      modifies this`outbox
      ensures outbox == old(outbox) + [p]
    {
      outbox := outbox + [p];
    }

    method Recvfrom() returns (r: Received)
      modifies this`inbox
      ensures old(inbox) == [] ==> r == Shutdown && inbox == []
      ensures old(inbox) != [] ==>
                && inbox == old(inbox)[1..]
                && r == (match old(inbox)[0] case TimesOut => Timeout case Arrives(p, d) => Got(p, d))
    {
      if inbox == [] {
        return Shutdown;
      }
      r := match inbox[0] case TimesOut => Timeout case Arrives(p, d) => Got(p, d);
      inbox := inbox[1..];
    }
  }

  /** What has been read off an inbox. */
  function ReadOff(before: seq<Event>, after: seq<Event>): seq<Event> {
    if |after| <= |before| then before[..|before| - |after|] else []
  }

  predicate IsRest(after: seq<Event>, before: seq<Event>) {
    |after| <= |before| && after == before[|before| - |after|..]
  }

  lemma ReadOffConcat(a: seq<Event>, b: seq<Event>, c: seq<Event>)
    requires IsRest(b, a) && IsRest(c, b)
    ensures IsRest(c, a) && ReadOff(a, c) == ReadOff(a, b) + ReadOff(b, c)
  {
  }

  lemma ReadOneOff(inbox: seq<Event>)
    requires inbox != []
    ensures IsRest(inbox[1..], inbox) && (FinAmong(ReadOff(inbox, inbox[1..])) <==> IsFin(inbox[0]))
  {
    assert ReadOff(inbox, inbox[1..]) == [inbox[0]];
  }

  datatype AwaitResult = Returned(pending: bool) | NeedsRetransmission | Raised(error: Error)

  datatype SendResult =
    | Sent(sqn: SequenceNumber, ack: SequenceNumber, lastRaw: Option<PacketGbn>, finBack: bool)
    | SendFailed(error: Error)

  /** Where the send loop continues after one wait, given the state the wait left behind. */
  function AfterAwait(t: Transfer, now: Sender, r: AwaitResult): Sender {
    match r
    case Returned(pending) => LoopHead(t, now, pending)
    case NeedsRetransmission => LoopHead(t, now.(w := Reset(now.w)), false)
    case Raised(error) => now.(phase := Failed(error))
  }

  class GoBackNSender {
    const side: Side
    const port: int
    const socket: SocketGbn
    const base: SequenceNumber
    const nextSeqNum: SequenceNumber
    const sqnNumber: SequenceNumber
    const offsetInitialSeqNumber: SequenceNumber
    var ackNumber: SequenceNumber
    var spentInReception: real

    ghost predicate Valid()
      reads this
    {
      && offsetInitialSeqNumber == sqnNumber
      && nextSeqNum.protocol == GoBackN
      && base != nextSeqNum && base != sqnNumber && nextSeqNum != sqnNumber
      && ackNumber !in {base, nextSeqNum, sqnNumber}
    }

    /** The fields as one value. */
    ghost function View(): Window
      reads this, base, nextSeqNum, ackNumber
    {
      Window(base.value, nextSeqNum.value, ackNumber.value, spentInReception)
    }

    ghost function State(phase: SenderPhase, finBack: bool, lastRaw: Option<PacketGbn>): Sender
      reads this, base, nextSeqNum, ackNumber, socket
    {
      Sender(View(), phase, finBack, lastRaw, socket.outbox)
    }

    /** This object is sending the chunks of `t`. */
    ghost predicate Sends(t: Transfer)
      reads this, offsetInitialSeqNumber
    {
      t.side == side && t.port == port && t.offset == offsetInitialSeqNumber.value
    }

    /**
     * Both counters come from the caller and are stepped in place: the offset is the very object passed as
     * sequence number, so the client, which steps it, starts its labels one later than the server, which does not.
     */
    constructor (side: Side, socket: SocketGbn, sequenceNumber: SequenceNumber, ackNumber: SequenceNumber, port: int)
      requires sequenceNumber != ackNumber
      requires sequenceNumber.protocol == ackNumber.protocol == GoBackN
      modifies sequenceNumber, ackNumber
      ensures Valid() && fresh(base) && fresh(nextSeqNum)
      ensures this.side == side && this.socket == socket && this.port == port
      ensures offsetInitialSeqNumber == sequenceNumber && this.ackNumber == ackNumber
      ensures var first := if side == Client then 0 else 1;
              View() == Window(first, first, StepGbn(old(ackNumber.value)), 0.0)
      ensures sequenceNumber.value
              == if side == Client then StepGbn(old(sequenceNumber.value)) else old(sequenceNumber.value)
    {
      var first := if side == Client then 0 else 1;
      this.side := side;
      this.port := port;
      this.socket := socket;
      base := new SequenceNumber(first, GoBackN);
      nextSeqNum := new SequenceNumber(first, GoBackN);
      sqnNumber := sequenceNumber;
      offsetInitialSeqNumber := sequenceNumber;
      this.ackNumber := ackNumber;
      spentInReception := 0.0;
      new;
      if side == Client {
        sequenceNumber.Step();
      }
      ackNumber.Step();
    }

    method ResetWindow()
      requires Valid()
      modifies nextSeqNum, this`spentInReception
      ensures Valid() && View() == Reset(old(View()))
    {
      nextSeqNum.value := base.value;
      spentInReception := 0.0;
    }

    method SendPacketsInWindow(chunks: seq<Bytes>, ghost t: Transfer, ghost finBack: bool)
      returns (lastRaw: Option<PacketGbn>)
      requires Valid() && Sends(t) && t.chunks == chunks && NoWrap(t) && 0 <= nextSeqNum.value
      modifies nextSeqNum, socket`outbox
      ensures Valid() && 0 <= nextSeqNum.value
      ensures State(Sending, finBack, lastRaw) == Burst(t, old(State(Sending, finBack, None)))
    {
      lastRaw := None;
      ghost var start := State(Sending, finBack, None);
      while nextSeqNum.value < base.value + WINDOW_SIZE && nextSeqNum.value < |chunks|
        invariant 0 <= nextSeqNum.value
        invariant Burst(t, State(Sending, finBack, lastRaw)) == Burst(t, start)
        decreases |chunks| - nextSeqNum.value
      {
        var isLastChunk := nextSeqNum.value == |chunks| - 1;
        var chunk := chunks[nextSeqNum.value];
        var packet := PacketGbn(
          nextSeqNum.value + offsetInitialSeqNumber.value, ackNumber.value, false, false, isLastChunk, port,
          |chunk|, chunk);
        ghost var before := State(Sending, finBack, lastRaw);
        socket.Sendto(packet);
        lastRaw := Some(packet);
        nextSeqNum.Step();
        assert State(Sending, finBack, lastRaw) == SendOne(t, before);
      }
    }

    method TakeAck(packet: PacketGbn)
      requires Valid()
      modifies base, this`ackNumber, this`spentInReception
      ensures Valid() && fresh(ackNumber) && View() == Advance(old(View()), packet)
    {
      base.value := base.value + (packet.ackNumber - ackNumber.value);
      ackNumber := new SequenceNumber(packet.ackNumber, GoBackN);
      spentInReception := 0.0;
    }

    method CountLostTime(receptionDuration: real) returns (needsRetransmission: bool)
      modifies this`spentInReception
      ensures spentInReception == old(spentInReception) + receptionDuration
      ensures needsRetransmission == (spentInReception >= SOCKET_RETRANSMIT_WINDOW_TIMEOUT)
    {
      spentInReception := spentInReception + receptionDuration;
      needsRetransmission := spentInReception >= SOCKET_RETRANSMIT_WINDOW_TIMEOUT;
    }

    /** What a received packet does: the part of the wait after the socket has answered. */
    method ProcessPacket(packet: PacketGbn, receptionDuration: real, totalChunks: nat, finBack: bool,
                         ghost t: Transfer, ghost lastRaw: Option<PacketGbn>)
      returns (r: AwaitResult, finBack': bool)
      requires Valid() && Sends(t) && |t.chunks| == totalChunks
      modifies base, this`ackNumber, this`spentInReception
      ensures Valid() && Sends(t) && (fresh(ackNumber) || ackNumber == old(ackNumber))
      ensures OnEvent(t, old(State(Awaiting, finBack, lastRaw)), Arrives(packet, receptionDuration))
              == AfterAwait(t, State(Awaiting, finBack', lastRaw), r)
      ensures finBack' <==> finBack || (packet.isFin && !packet.isAck)
    {
      finBack' := finBack;
      if side == Server && !packet.isAck && !packet.isFin {
        return Raised(NotAckMessage), finBack';
      }
      if side == Server && packet.isAck && packet.ackNumber < ackNumber.value {
        var again := CountLostTime(receptionDuration);
        return if again then NeedsRetransmission else Returned(false), finBack';
      }
      var isLastChunkAcked := false;
      if packet.isFin && !packet.isAck {
        finBack' := true;
        isLastChunkAcked := true;
      }
      if packet.ackNumber >= ackNumber.value {
        TakeAck(packet);
        if side == Server {
          isLastChunkAcked := base.value + 1 == totalChunks;
        }
      } else if side == Server {
        return Raised(UnboundReceptionDuration), finBack';
      } else {
        var again := CountLostTime(receptionDuration);
        if again {
          return NeedsRetransmission, finBack';
        }
      }
      return Returned(isLastChunkAcked), finBack';
    }

    /** One wait for an acknowledgement: `Returned` goes back to the loop test, the rest are exceptions. */
    method AwaitAckPhase(totalChunks: nat, alreadyReceivedFinBack: MutableVariable<bool>,
                         ghost t: Transfer, ghost lastRaw: Option<PacketGbn>)
      returns (r: AwaitResult)
      requires Valid() && Sends(t) && |t.chunks| == totalChunks
      modifies base, this`ackNumber, this`spentInReception, socket`inbox, alreadyReceivedFinBack
      ensures Valid() && Sends(t) && (fresh(ackNumber) || ackNumber == old(ackNumber))
      ensures old(base.value) + 1 == totalChunks ==>
                r == Returned(true) && socket.inbox == old(socket.inbox)
      ensures old(base.value) + 1 != totalChunks && old(socket.inbox) == [] ==>
                r == Raised(SocketWasShutdown) && socket.inbox == []
      ensures old(base.value) + 1 == totalChunks || old(socket.inbox) == [] ==>
                && View() == old(View())
                && alreadyReceivedFinBack.value == old(alreadyReceivedFinBack.value)
      ensures old(base.value) + 1 != totalChunks && old(socket.inbox) != [] ==>
                && socket.inbox == old(socket.inbox)[1..]
                && OnEvent(t, old(State(Awaiting, alreadyReceivedFinBack.value, lastRaw)), old(socket.inbox)[0])
                   == AfterAwait(t, State(Awaiting, alreadyReceivedFinBack.value, lastRaw), r)
      ensures IsRest(socket.inbox, old(socket.inbox))
      ensures alreadyReceivedFinBack.value <==>
                old(alreadyReceivedFinBack.value) || FinAmong(ReadOff(old(socket.inbox), socket.inbox))
    {
      ghost var inbox := socket.inbox;
      assert ReadOff(inbox, inbox) == [];
      if inbox != [] { ReadOneOff(inbox); }
      if base.value + 1 == totalChunks {
        return Returned(true);
      }
      var received := socket.Recvfrom();
      match received {
        case Shutdown =>
          r := Raised(SocketWasShutdown);
        case Timeout =>
          r := NeedsRetransmission;
        case Got(packet, receptionDuration) =>
          var finBack;
          r, finBack := ProcessPacket(packet, receptionDuration, totalChunks, alreadyReceivedFinBack.value, t, lastRaw);
          alreadyReceivedFinBack.value := finBack;
      }
    }

    /** What a wait leads to: an error stops the loop, and a needed retransmission goes back by N. */
    method GoBackIfNeeded(r: AwaitResult, ghost t: Transfer, ghost finBack: bool, ghost lastRaw: Option<PacketGbn>)
      returns (pending: bool, error: Option<Error>)
      requires Valid() && Sends(t)
      modifies nextSeqNum, this`spentInReception
      ensures Valid() && Sends(t) && error == if r.Raised? then Some(r.error) else None
      ensures var before, now := old(State(Sending, finBack, lastRaw)), State(Sending, finBack, lastRaw);
              if r.Raised? then now == before else LoopHead(t, now, pending) == AfterAwait(t, before, r)
      ensures !r.Raised? ==> View() == AfterAwait(t, old(State(Sending, finBack, lastRaw)), r).w
    {
      pending, error := false, None;
      match r {
        case Returned(p) =>
          pending := p;
        case NeedsRetransmission =>
          ResetWindow();
        case Raised(e) =>
          error := Some(e);
      }
    }

    /** The second half of a turn: wait once, and go back by N when told to. */
    method AwaitOrGoBack(totalChunks: nat, finBack: MutableVariable<bool>, ghost t: Transfer,
                         ghost lastRaw: Option<PacketGbn>)
      returns (pending: bool, error: Option<Error>)
      requires Valid() && Sends(t) && |t.chunks| == totalChunks && NoWrap(t) && Counts(View())
      modifies this`ackNumber, this`spentInReception, base, nextSeqNum, socket`inbox, finBack
      ensures Valid() && Sends(t) && Counts(View()) && (fresh(ackNumber) || ackNumber == old(ackNumber))
      ensures |socket.inbox| < |old(socket.inbox)|
              || (socket.inbox == old(socket.inbox) && (pending || error.Some?))
      ensures IsRest(socket.inbox, old(socket.inbox))
      ensures finBack.value <==> old(finBack.value) || FinAmong(ReadOff(old(socket.inbox), socket.inbox))
      ensures var folded := FoldEvents(t, EndWindow(t, old(State(Sending, finBack.value, lastRaw))), old(socket.inbox));
              var now := State(Sending, finBack.value, lastRaw);
              match error
              case None => folded == FoldEvents(t, Settle(t, LoopHead(t, now, pending)), socket.inbox)
              case Some(e) => folded == now.(phase := if e == SocketWasShutdown then Awaiting else Failed(e))
    {
      ghost var before, inbox := State(Sending, finBack.value, lastRaw), socket.inbox;
      var r := AwaitAckPhase(totalChunks, finBack, t, lastRaw);
      ghost var waited := State(Sending, finBack.value, lastRaw);
      WaitFolds(t, before, inbox, waited, socket.inbox, r);
      pending, error := GoBackIfNeeded(r, t, finBack.value, lastRaw);
    }

    /** One turn of the send loop: fill the window, then wait. */
    method SendRound(chunks: seq<Bytes>, finBack: MutableVariable<bool>, ghost t: Transfer)
      returns (pending: bool, error: Option<Error>, lastRaw: Option<PacketGbn>)
      requires Valid() && Sends(t) && t.chunks == chunks && NoWrap(t) && Counts(View())
      modifies this`ackNumber, this`spentInReception, base, nextSeqNum, socket, finBack
      ensures Valid() && Sends(t) && Counts(View()) && (fresh(ackNumber) || ackNumber == old(ackNumber))
      ensures |socket.inbox| < |old(socket.inbox)|
              || (socket.inbox == old(socket.inbox) && (pending || error.Some?))
      ensures IsRest(socket.inbox, old(socket.inbox))
      ensures finBack.value <==> old(finBack.value) || FinAmong(ReadOff(old(socket.inbox), socket.inbox))
      ensures var folded := FoldEvents(t, Settle(t, old(State(Sending, finBack.value, None))), old(socket.inbox));
              var now := State(Sending, finBack.value, lastRaw);
              match error
              case None => folded == FoldEvents(t, Settle(t, LoopHead(t, now, pending)), socket.inbox)
              case Some(e) => folded == now.(phase := if e == SocketWasShutdown then Awaiting else Failed(e))
    {
      lastRaw := SendPacketsInWindow(chunks, t, finBack.value);
      pending, error := AwaitOrGoBack(|chunks|, finBack, t, lastRaw);
    }

    /**
     * The whole send loop. It ends in the state that folding the socket's events over the step functions gives:
     * normally when that state is `Finished`, otherwise with the error that stopped it.
     */
    method SendFile(chunks: seq<Bytes>, ghost t: Transfer) returns (result: SendResult)
      requires Valid() && Sends(t) && t.chunks == chunks && NoWrap(t)
      requires base.value == nextSeqNum.value >= 0
      modifies this`ackNumber, this`spentInReception, base, nextSeqNum, socket
      ensures Valid()
      ensures var start := LoopHead(t, old(State(Sending, false, None)), false);
              var final := FoldEvents(t, Settle(t, start), old(socket.inbox));
              && View() == final.w && socket.outbox == final.outbox
              && match result
                 case Sent(sqn, ack, lastRaw, finBack) =>
                   && final.phase == Finished && finBack == final.finBack && lastRaw == final.lastRaw
                   && sqn.value == final.w.next + t.offset - 1 && ack.value == final.w.ack
                 case SendFailed(error) =>
                   final.phase == if error == SocketWasShutdown then Awaiting else Failed(error)
      ensures IsRest(socket.inbox, old(socket.inbox))
      ensures result.Sent? ==> (result.finBack <==> FinAmong(ReadOff(old(socket.inbox), socket.inbox)))
    {
      var pending := false;
      var lastRaw: Option<PacketGbn> := None;
      var finBack := new MutableVariable<bool>(false);
      ghost var inbox := socket.inbox;
      assert ReadOff(inbox, inbox) == [];
      ghost var goal := FoldEvents(t, Settle(t, LoopHead(t, State(Sending, false, None), false)), socket.inbox);

      while base.value < |chunks| && !pending
        invariant Valid() && Sends(t) && Counts(View())
        invariant fresh(ackNumber) || ackNumber == old(ackNumber)
        invariant FoldEvents(t, Settle(t, LoopHead(t, State(Sending, finBack.value, lastRaw), pending)), socket.inbox)
                  == goal
        invariant IsRest(socket.inbox, inbox) && (finBack.value <==> FinAmong(ReadOff(inbox, socket.inbox)))
        decreases |socket.inbox|, if pending then 0 else 1
      {
        var error;
        ghost var before := socket.inbox;
        pending, error, lastRaw := SendRound(chunks, finBack, t);
        ReadOffConcat(inbox, before, socket.inbox);
        if error.Some? {
          return SendFailed(error.value);
        }
      }

      var sqn := new SequenceNumber(nextSeqNum.value + offsetInitialSeqNumber.value - 1, GoBackN);
      var ack := new SequenceNumber(ackNumber.value, GoBackN);
      return Sent(sqn, ack, lastRaw, finBack.value);
    }
  }

  /** One wait is one step of the fold. */
  lemma WaitFolds(t: Transfer, before: Sender, inbox: seq<Event>, now: Sender, rest: seq<Event>, r: AwaitResult)
    requires NoWrap(t) && Counts(before.w) && before.phase == Sending && now.phase == Sending
    requires before.w.base + 1 == |t.chunks| ==> r == Returned(true) && rest == inbox && now == before
    requires before.w.base + 1 != |t.chunks| && inbox == [] ==>
               r == Raised(SocketWasShutdown) && rest == [] && now == before
    requires before.w.base + 1 != |t.chunks| && inbox != [] ==>
               && rest == inbox[1..]
               && OnEvent(t, before.(phase := Awaiting), inbox[0]) == AfterAwait(t, now.(phase := Awaiting), r)
    ensures !r.Raised? ==>
              var next := AfterAwait(t, now, r);
              Counts(next.w) && FoldEvents(t, EndWindow(t, before), inbox) == FoldEvents(t, Settle(t, next), rest)
    ensures r.Raised? ==>
              FoldEvents(t, EndWindow(t, before), inbox)
              == now.(phase := if inbox == [] then Awaiting else Failed(r.error))
  {
    AwaitingStep(t, EndWindow(t, before), inbox);
  }

  /** Folding over a state that has just filled its window, one step at a time. */
  lemma AwaitingStep(t: Transfer, settled: Sender, events: seq<Event>)
    requires NoWrap(t) && Counts(settled.w)
    ensures settled.phase != Awaiting || events == [] ==> FoldEvents(t, settled, events) == settled
    ensures settled.phase == Awaiting && events != [] ==>
              FoldEvents(t, settled, events)
              == FoldEvents(t, Settle(t, OnEvent(t, settled, events[0])), events[1..])
  {
  }

  /** The file being written. */
  class FileSink {
    var content: Bytes

    constructor ()
      ensures content == []
    {
      content := [];
    }

    method Append(data: Bytes)
      modifies this
      ensures content == old(content) + data
    {
      content := content + data;
    }
  }

  datatype ChunkResult =
    | InSequence(packet: PacketGbn)
    | InvalidSequenceNumber(packet: PacketGbn)
    | NoChunk(error: Error)

  datatype ReceiveResult = ReceivedFile(sqn: SequenceNumber, ack: SequenceNumber) | ReceiveFailed(error: Error)

  class GoBackNReceiver {
    const port: int
    const socket: SocketGbn
    const sqnNumber: SequenceNumber
    const ackNumber: SequenceNumber

    ghost predicate Valid()
      reads this
    {
      sqnNumber != ackNumber && sqnNumber.protocol == ackNumber.protocol == GoBackN
    }

    ghost function State(phase: ReceiverPhase, file: FileSink): Receiver
      reads sqnNumber, ackNumber, socket, file
    {
      Receiver(sqnNumber.value, ackNumber.value, file.content, phase, socket.outbox)
    }

    /** The counters are the caller's own objects; neither is stepped here. */
    constructor (socket: SocketGbn, sequenceNumber: SequenceNumber, ackNumber: SequenceNumber, port: int)
      requires sequenceNumber != ackNumber && sequenceNumber.protocol == ackNumber.protocol == GoBackN
      ensures Valid() && this.socket == socket && this.port == port
      ensures sqnNumber == sequenceNumber && this.ackNumber == ackNumber
    {
      this.socket := socket;
      this.port := port;
      sqnNumber := sequenceNumber;
      this.ackNumber := ackNumber;
    }

    method SendAck()
      modifies socket`outbox
      ensures socket.outbox == old(socket.outbox)
                               + [PacketGbn(sqnNumber.value, ackNumber.value, true, false, false, port, 0, [])]
    {
      socket.Sendto(PacketGbn(sqnNumber.value, ackNumber.value, true, false, false, port, 0, []));
    }

    /** One packet off the socket; one with the expected number is acknowledged unless it is the FIN. */
    method ReceiveSingleChunk() returns (r: ChunkResult)
      modifies socket
      ensures old(socket.inbox) == [] ==>
                r == NoChunk(SocketWasShutdown) && socket.inbox == [] && socket.outbox == old(socket.outbox)
      ensures old(socket.inbox) != [] ==> socket.inbox == old(socket.inbox)[1..]
      ensures old(socket.inbox) != [] && old(socket.inbox)[0].TimesOut? ==>
                r == NoChunk(RetransmissionNeeded) && socket.outbox == old(socket.outbox)
      ensures old(socket.inbox) != [] && old(socket.inbox)[0].Arrives? ==>
                var p := old(socket.inbox)[0].packet;
                && r == (if p.sequenceNumber == sqnNumber.value then InSequence(p) else InvalidSequenceNumber(p))
                && var ack := PacketGbn(sqnNumber.value, ackNumber.value, true, false, false, port, 0, []);
                   socket.outbox == old(socket.outbox) + if r.InSequence? && !p.isFin then [ack] else []
    {
      var received := socket.Recvfrom();
      match received {
        case Shutdown => r := NoChunk(SocketWasShutdown);
        case Timeout => r := NoChunk(RetransmissionNeeded);
        case Got(packet, _) =>
          if packet.sequenceNumber != sqnNumber.value {
            return InvalidSequenceNumber(packet);
          }
          if !packet.isFin {
            SendAck();
          }
          r := InSequence(packet);
      }
    }

    /** Waits for the first chunk, repeating the last configuration packet for everything else. */
    method ReceiveFirstChunk(lastTransmittedPacket: PacketGbn, ghost t: Transfer, file: FileSink)
      returns (packet: PacketGbn, error: Option<Error>)
      requires Valid() && t.receiverPort == port && t.resend == lastTransmittedPacket
      modifies socket
      ensures var start := old(State(FirstChunk, file));
              var final := ReceiveEvents(t, start, old(socket.inbox));
              match error
              case None =>
                && packet.sequenceNumber == start.ack + 1
                && final == ReceiveEvents(t, Accept(State(FirstChunk, file), packet), socket.inbox)
              case Some(e) => final == State(FirstChunk, file) && (e == SocketWasShutdown || e == RetransmissionNeeded)
    {
      ghost var goal := ReceiveEvents(t, State(FirstChunk, file), socket.inbox);
      while true
        invariant ReceiveEvents(t, State(FirstChunk, file), socket.inbox) == goal
        decreases |socket.inbox|
      {
        ghost var before, events := State(FirstChunk, file), socket.inbox;
        var r := ReceiveSingleChunk();
        if r.NoChunk? {
          return *, Some(r.error);
        }
        packet := r.packet;
        ghost var heard := State(FirstChunk, file);
        if packet.sequenceNumber == ackNumber.value + 1 {
          error := None;
          assert heard.outbox == before.outbox + Replies(t, before, packet);
          assert Accept(heard, packet) == Deliver(t, before, events[0].packet);
          return;
        }
        socket.Sendto(lastTransmittedPacket);
        assert State(FirstChunk, file).outbox == before.outbox + Replies(t, before, packet);
      }
    }

    /** The receive loop: it ends in the state that delivering the socket's packets one by one gives. */
    method ReceiveFile(file: FileSink, lastTransmittedPacket: PacketGbn, ghost t: Transfer)
      returns (result: ReceiveResult)
      requires Valid() && t.receiverPort == port && t.resend == lastTransmittedPacket
      modifies sqnNumber, ackNumber, socket, file
      ensures var final := ReceiveEvents(t, old(State(FirstChunk, file)), old(socket.inbox));
              && final == State(final.phase, file)
              && match result
                 case ReceivedFile(sqn, ack) => final.phase == Done && sqn == sqnNumber && ack == ackNumber
                 case ReceiveFailed(error) =>
                   final.phase != Done && (error == SocketWasShutdown || error == RetransmissionNeeded)
    {
      var packet, error := ReceiveFirstChunk(lastTransmittedPacket, t, file);
      if error.Some? {
        return ReceiveFailed(error.value);
      }
      var shouldContinueReception := !packet.isFin;
      sqnNumber.Step();
      ackNumber.Step();
      if !shouldContinueReception && packet.payloadLength > 0 {
        file.Append(packet.data);
      }
      ghost var goal := ReceiveEvents(t, old(State(FirstChunk, file)), old(socket.inbox));
      while shouldContinueReception
        invariant ReceiveEvents(
                    t, State(if shouldContinueReception then Receiving else Done, file), socket.inbox) == goal
        decreases |socket.inbox|, if shouldContinueReception then 1 else 0
      {
        ghost var before, events := State(Receiving, file), socket.inbox;
        var r := ReceiveSingleChunk();
        match r {
          case NoChunk(e) =>
            return ReceiveFailed(e);
          case InvalidSequenceNumber(_) =>
            SendAck();
            assert State(Receiving, file) == Deliver(t, before, events[0].packet);
          case InSequence(p) =>
            file.Append(p.data);
            shouldContinueReception := !p.isFin;
            if shouldContinueReception {
              sqnNumber.Step();
              ackNumber.Step();
            }
            assert State(if shouldContinueReception then Receiving else Done, file)
                == Deliver(t, before, events[0].packet);
        }
      }
      return ReceivedFile(sqnNumber, ackNumber);
    }
  }
}
