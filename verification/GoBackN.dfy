/**
 * The two go-back-N endpoints as step functions on values.
 *
 * An upload pairs the client's sender with the server's receiver, a download the server's sender with the
 * client's receiver. The two receivers run the same steps; the two senders differ where `Side` is inspected.
 */
module GoBackN {
  import opened Chunking
  import opened PacketFormat
  import opened SequenceNumbers

  const WINDOW_SIZE: nat := 10
  const SOCKET_RETRANSMIT_WINDOW_TIMEOUT: real := 0.01

  /** The side of the connection that sends the file. */
  datatype Side = Client | Server

  /**
   * What stays fixed during one data phase: chunk `i` travels with sequence number `offset + i`; chunks before
   * `first` are already stored when it begins; `resend` is the last packet of the configuration phase, which the
   * receiver repeats until it has seen the first chunk.
   */
  datatype Transfer = Transfer(
    side: Side, chunks: seq<Bytes>, first: nat, offset: int, port: int, receiverPort: int, resend: PacketGbn)

  // ----- the sender

  /** The fields of the sender object. */
  datatype Window = Window(base: int, next: int, ack: int, spent: real)

  datatype Error = NotAckMessage | UnboundReceptionDuration | SocketWasShutdown | RetransmissionNeeded

  datatype SenderPhase = Sending | Awaiting | Finished | Failed(error: Error)

  /** The window, where the send loop stands, and its local variables. */
  datatype Sender = Sender(
    w: Window, phase: SenderPhase, finBack: bool, lastRaw: Option<PacketGbn>, outbox: seq<PacketGbn>)

  /** What one wait on the socket brings: a packet after some time, or a timeout. */
  datatype Event = Arrives(packet: PacketGbn, duration: real) | TimesOut

  /** A FIN that is no acknowledgement: the receiver's own FIN. */
  predicate IsFin(e: Event) {
    e.Arrives? && e.packet.isFin && !e.packet.isAck
  }

  ghost predicate FinAmong(events: seq<Event>) {
    exists e :: e in events && IsFin(e)
  }

  function ChunkPacket(t: Transfer, i: int, ack: int): PacketGbn
    requires 0 <= i < |t.chunks|
  {
    PacketGbn(i + t.offset, ack, false, false, i == |t.chunks| - 1, t.port, |t.chunks[i]|, t.chunks[i])
  }

  /** The test of the outer loop. A new round forgets the last packet of the previous one. */
  function LoopHead(t: Transfer, s: Sender, pending: bool): Sender {
    if s.w.base < |t.chunks| && !pending then s.(phase := Sending, lastRaw := None) else s.(phase := Finished)
  }

  predicate CanSend(t: Transfer, w: Window) {
    w.next < w.base + WINDOW_SIZE && w.next < |t.chunks|
  }

  function SendOne(t: Transfer, s: Sender): Sender
    requires 0 <= s.w.next < |t.chunks|
  {
    var p := ChunkPacket(t, s.w.next, s.w.ack);
    s.(w := s.w.(next := StepGbn(s.w.next)), lastRaw := Some(p), outbox := s.outbox + [p])
  }

  /** With the window exhausted: leave at once if only the last chunk is outstanding, otherwise listen. */
  function EndWindow(t: Transfer, s: Sender): Sender {
    if s.w.base + 1 == |t.chunks| then LoopHead(t, s, true) else s.(phase := Awaiting)
  }

  /** No counter of this transfer passes the maximum sequence number. */
  predicate NoWrap(t: Transfer) {
    |t.chunks| <= MAX_SEQUENCE_NUMBER + 1
  }

  /**
   * Beyond that, sending a window need not end: with the window past the maximum, the next number wraps round to 1
   * and never gets out of it.
   */
  lemma {:induction false} WrappedWindowNeverFills(t: Transfer, w: Window, n: nat)
    requires |t.chunks| > MAX_SEQUENCE_NUMBER + 1 && w.base + WINDOW_SIZE > MAX_SEQUENCE_NUMBER + 1
    requires 0 <= w.next <= MAX_SEQUENCE_NUMBER + 1
    ensures CanSend(t, w.(next := StepTimes(ProtocolType.GoBackN, w.next, n)))
  {
    GbnStaysInRange(w.next, n);
  }

  function Burst(t: Transfer, s: Sender): (s': Sender)
    requires NoWrap(t) && 0 <= s.w.next
    ensures 0 <= s'.w.next
    decreases |t.chunks| - s.w.next
  {
    if CanSend(t, s.w) then Burst(t, SendOne(t, s)) else s
  }

  lemma BurstMovesOnlyNext(t: Transfer, s: Sender)
    requires NoWrap(t) && 0 <= s.w.next
    ensures var s' := Burst(t, s);
            s' == s.(w := s.w.(next := s'.w.next), lastRaw := s'.lastRaw, outbox := s'.outbox)
    decreases |t.chunks| - s.w.next
  {
    if !CanSend(t, s.w) {
    } else {
      BurstMovesOnlyNext(t, SendOne(t, s));
    }
  }

  /** Everything the sender does on its own until it listens or stops. */
  function Settle(t: Transfer, s: Sender): (s': Sender)
    requires NoWrap(t) && 0 <= s.w.next
    ensures Counts(s.w) ==> Counts(s'.w)
  {
    BurstMovesOnlyNext(t, s);
    if s.phase == Sending then EndWindow(t, Burst(t, s)) else s
  }

  function Reset(w: Window): Window {
    w.(next := w.base, spent := 0.0)
  }

  function Advance(w: Window, p: PacketGbn): Window {
    w.(base := w.base + (p.ackNumber - w.ack), ack := p.ackNumber, spent := 0.0)
  }

  /** An old acknowledgement only counts the time lost on it, and past the timeout the window is sent again. */
  function Linger(t: Transfer, s: Sender, duration: real, pending: bool): Sender {
    var w := s.w.(spent := s.w.spent + duration);
    if w.spent >= SOCKET_RETRANSMIT_WINDOW_TIMEOUT
    then LoopHead(t, s.(w := Reset(w)), false)
    else LoopHead(t, s.(w := w), pending)
  }

  function ClientGets(t: Transfer, s: Sender, p: PacketGbn, duration: real): Sender {
    var fin := p.isFin && !p.isAck;
    var s' := s.(finBack := s.finBack || fin);
    if p.ackNumber >= s.w.ack
    then LoopHead(t, s'.(w := Advance(s.w, p)), fin)
    else Linger(t, s', duration, fin)
  }

  /** The server insists on acknowledgements, and tests for the last chunk again after each new one. */
  function ServerGets(t: Transfer, s: Sender, p: PacketGbn, duration: real): Sender {
    if !p.isAck && !p.isFin then s.(phase := Failed(NotAckMessage))
    else if p.isAck && p.ackNumber < s.w.ack then Linger(t, s, duration, false)
    else
      var s' := s.(finBack := s.finBack || (p.isFin && !p.isAck));
      if p.ackNumber >= s.w.ack then
        var w := Advance(s.w, p);
        LoopHead(t, s'.(w := w), w.base + 1 == |t.chunks|)
      else s'.(phase := Failed(UnboundReceptionDuration))
  }

  predicate Counts(w: Window) {
    0 <= w.base && 0 <= w.next
  }

  function OnEvent(t: Transfer, s: Sender, e: Event): (s': Sender)
    ensures Counts(s.w) ==> Counts(s'.w)
  {
    match e
    case TimesOut => LoopHead(t, s.(w := Reset(s.w)), false)
    case Arrives(p, duration) =>
      if t.side == Client then ClientGets(t, s, p, duration) else ServerGets(t, s, p, duration)
  }

  /** The sender after a list of events; it reads them only while it listens. */
  function FoldEvents(t: Transfer, s: Sender, events: seq<Event>): (s': Sender)
    requires NoWrap(t) && Counts(s.w)
    ensures Counts(s'.w)
    decreases |events|
  {
    if s.phase != Awaiting || events == [] then s
    else FoldEvents(t, Settle(t, OnEvent(t, s, events[0])), events[1..])
  }

  // ----- the receiver

  datatype ReceiverPhase = FirstChunk | Receiving | Done

  datatype Receiver = Receiver(sqn: int, ack: int, file: Bytes, phase: ReceiverPhase, outbox: seq<PacketGbn>)

  function AckPacket(t: Transfer, sqn: int, ack: int): PacketGbn {
    PacketGbn(sqn, ack, true, false, false, t.receiverPort, 0, [])
  }

  /** A FIN without data names the server's port, whichever end sends it. */
  function FinPacket(t: Transfer, sqn: int, ack: int): PacketGbn {
    PacketGbn(sqn, ack, false, false, true, if t.side == Client then t.receiverPort else t.port, 0, [])
  }

  /** What the receiver sends back for one packet. */
  function Replies(t: Transfer, r: Receiver, p: PacketGbn): seq<PacketGbn> {
    var ackReply := [AckPacket(t, r.sqn, r.ack)];
    match r.phase
    case FirstChunk =>
      (if p.sequenceNumber == r.sqn && !p.isFin then ackReply else [])
      + (if p.sequenceNumber == r.ack + 1 then [] else [t.resend])
    case Receiving =>
      if p.sequenceNumber == r.sqn && p.isFin then [] else ackReply
    case Done => []
  }

  /** What one packet changes apart from the replies: peek at the first chunk, then store what is expected. */
  function Accept(r: Receiver, p: PacketGbn): Receiver {
    match r.phase
    case FirstChunk =>
      if p.sequenceNumber == r.ack + 1 then
        r.(sqn := StepGbn(r.sqn), ack := StepGbn(r.ack),
           phase := if p.isFin then Done else Receiving,
           file := if p.isFin && p.payloadLength > 0 then r.file + p.data else r.file)
      else r
    case Receiving =>
      if p.sequenceNumber != r.sqn then r
      else if p.isFin then r.(file := r.file + p.data, phase := Done)
      else r.(file := r.file + p.data, sqn := StepGbn(r.sqn), ack := StepGbn(r.ack))
    case Done => r
  }

  /** The receiver after one packet. */
  function Deliver(t: Transfer, r: Receiver, p: PacketGbn): Receiver {
    Accept(r.(outbox := r.outbox + Replies(t, r, p)), p)
  }

  function DeliverAll(t: Transfer, r: Receiver, ps: seq<PacketGbn>): Receiver
    decreases |ps|
  {
    if ps == [] then r else DeliverAll(t, Deliver(t, r, ps[0]), ps[1..])
  }

  /** The receive loop on a list of events: it stops when done, and a timeout ends it early. */
  function ReceiveEvents(t: Transfer, r: Receiver, events: seq<Event>): Receiver
    decreases |events|
  {
    if r.phase == Done || events == [] || events[0].TimesOut? then r
    else ReceiveEvents(t, Deliver(t, r, events[0].packet), events[1..])
  }

  /** A finished receiver acknowledges the last chunk and sends its own FIN; it may repeat the FIN. */
  function Closing(t: Transfer, r: Receiver): seq<PacketGbn> {
    [AckPacket(t, r.sqn, r.ack), FinPacket(t, r.sqn, r.ack)]
  }

  /** The states both endpoints are in when the data phase begins. */
  function StartSender(t: Transfer): Sender {
    LoopHead(t, Sender(Window(t.first, t.first, t.offset + t.first, 0.0), Sending, false, None, []), false)
  }

  function StartReceiver(t: Transfer): Receiver
    requires t.first <= |t.chunks|
  {
    Receiver(t.offset + t.first - 1, t.offset + t.first - 1, Flatten(t.chunks[..t.first]), FirstChunk, [])
  }
}
