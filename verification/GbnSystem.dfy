/**
 * Both go-back-N endpoints and the network between them as one transition system.
 *
 * The network is the set of all datagrams ever sent: any of them may be heard at any time, any number of times,
 * or never, which is loss, duplication and reordering at once. Timeouts happen whenever a sender listens.
 */
module GbnSystem {
  import opened Chunking
  import opened PacketFormat
  import opened SequenceNumbers
  import opened GoBackN

  /** `high` counts the chunks ever sent: it is history, no endpoint reads it. */
  datatype Sys = Sys(
    s: Sender, r: Receiver, high: int, toReceiver: set<PacketGbn>, toSender: set<PacketGbn>)

  datatype Action =
    | SendsChunk
    | EndsWindow
    | SenderHears(packet: PacketGbn, duration: real)
    | SenderTimesOut
    | ReceiverHears(packet: PacketGbn)
    | ReceiverCloses
    | SenderCloses(answer: PacketGbn)
    | SenderGivesUp

  /**
   * The packet a finished sender takes for the confirmation of its last chunk: one that carries the number it
   * returned and is an acknowledgement or a FIN. Only the client also compares acknowledgement numbers.
   */
  predicate CloseAccepts(t: Transfer, s: Sender, p: PacketGbn) {
    && p.sequenceNumber == s.w.next + t.offset - 1
    && (p.isAck || p.isFin)
    && (t.side == Client ==> p.ackNumber == s.w.ack)
  }

  ghost predicate Enabled(t: Transfer, sys: Sys, a: Action) {
    match a
    case SendsChunk => sys.s.phase == Sending && 0 <= sys.s.w.next && CanSend(t, sys.s.w)
    case EndsWindow => sys.s.phase == Sending && !CanSend(t, sys.s.w)
    case SenderHears(p, _) => sys.s.phase == Awaiting && p in sys.toSender
    case SenderTimesOut => sys.s.phase == Awaiting
    case ReceiverHears(p) => p in sys.toReceiver
    case ReceiverCloses => sys.r.phase == Done
    case SenderCloses(p) =>
      sys.s.phase == Finished && (sys.s.finBack || (p in sys.toSender && CloseAccepts(t, sys.s, p)))
    case SenderGivesUp => sys.s.phase == Finished && t.side == Client
  }

  /** The acknowledgement a sender that has finished closes with: its number is one past the last it returned. */
  function ClosingAck(t: Transfer, s: Sender): PacketGbn {
    PacketGbn(s.w.next + t.offset, s.w.ack, true, false, false, t.port, 0, [])
  }

  /** What a client sends when nothing ever answered its last chunk. */
  function GiveUpPackets(t: Transfer, s: Sender): set<PacketGbn> {
    {PacketGbn(s.w.next + t.offset, s.w.ack + 1, true, false, false, t.port, 0, []),
     FinPacket(t, s.w.next + t.offset, s.w.ack + 1)}
  }

  function Elements(ps: seq<PacketGbn>): set<PacketGbn> {
    set p | p in ps
  }

  ghost function Step(t: Transfer, sys: Sys, a: Action): Sys
    requires Enabled(t, sys, a)
  {
    match a
    case SendsChunk =>
      var p := ChunkPacket(t, sys.s.w.next, sys.s.w.ack);
      sys.(s := SendOne(t, sys.s),
           high := if sys.s.w.next >= sys.high then sys.s.w.next + 1 else sys.high,
           toReceiver := sys.toReceiver + {p})
    case EndsWindow => sys.(s := EndWindow(t, sys.s))
    case SenderHears(p, duration) => sys.(s := OnEvent(t, sys.s, Arrives(p, duration)))
    case SenderTimesOut => sys.(s := OnEvent(t, sys.s, TimesOut))
    case ReceiverHears(p) =>
      sys.(r := Deliver(t, sys.r, p), toSender := sys.toSender + Elements(Replies(t, sys.r, p)))
    case ReceiverCloses => sys.(toSender := sys.toSender + Elements(Closing(t, sys.r)))
    case SenderCloses(_) => sys.(toReceiver := sys.toReceiver + {ClosingAck(t, sys.s)})
    case SenderGivesUp => sys.(toReceiver := sys.toReceiver + GiveUpPackets(t, sys.s))
  }

  ghost predicate Runs(t: Transfer, from: Sys, actions: seq<Action>, to: Sys)
    decreases |actions|
  {
    if actions == [] then from == to
    else Enabled(t, from, actions[0]) && Runs(t, Step(t, from, actions[0]), actions[1..], to)
  }

  // ----- where runs begin

  /** Left over from the configuration phase: older numbers, and never a FIN. */
  predicate Stale(t: Transfer, p: PacketGbn) {
    p.sequenceNumber < t.offset + t.first && p.ackNumber < t.offset + t.first && !p.isFin
  }

  ghost predicate TransferOk(t: Transfer) {
    && t.first == (if t.side == Client then 0 else 1)
    && t.first < |t.chunks|
    && 0 <= t.offset && t.offset + |t.chunks| <= MAX_SEQUENCE_NUMBER
    && (forall i :: 0 <= i < |t.chunks| ==> t.chunks[i] != [])
    && Stale(t, t.resend)
  }

  ghost predicate Init(t: Transfer, sys: Sys) {
    && TransferOk(t)
    && sys.s == StartSender(t) && sys.r == StartReceiver(t) && sys.high == t.first
    && (forall p :: p in sys.toReceiver ==> Stale(t, p))
    && (forall p :: p in sys.toSender ==> Stale(t, p))
  }

  ghost predicate Reachable(t: Transfer, sys: Sys) {
    exists start: Sys, actions: seq<Action> :: Init(t, start) && Runs(t, start, actions, sys)
  }

  // ----- the invariant

  function Total(t: Transfer): nat { |t.chunks| }

  predicate IsChunk(t: Transfer, high: int, p: PacketGbn) {
    var i := p.sequenceNumber - t.offset;
    t.first <= i < high && 0 <= i < |t.chunks| && p == ChunkPacket(t, i, p.ackNumber)
  }

  predicate IsClosing(t: Transfer, high: int, p: PacketGbn) {
    && p.sequenceNumber == t.offset + high
    && p.data == [] && p.payloadLength == 0
    && (p.isFin ==> high == Total(t))
  }

  ghost predicate WasSent(t: Transfer, toReceiver: set<PacketGbn>, i: int)
    requires 0 <= i < |t.chunks|
  {
    exists ack :: ChunkPacket(t, i, ack) in toReceiver
  }

  predicate SenderInv(t: Transfer, s: Sender, high: int) {
    && t.first <= s.w.base < Total(t)
    && s.w.ack == t.offset + s.w.base
    && s.w.base <= s.w.next <= high <= Total(t) && high <= s.w.base + WINDOW_SIZE
    && (s.phase == Awaiting ==> s.w.next == Min(s.w.base + WINDOW_SIZE, Total(t)) && s.w.base + 1 < Total(t))
    && (s.phase == Finished ==>
          && s.w.base == Total(t) - 1 && s.w.next == high && high > t.first
          && (t.side == Client ==> high == Total(t)))
    && s.w.spent < SOCKET_RETRANSMIT_WINDOW_TIMEOUT
    && s.phase != Failed(UnboundReceptionDuration)
    && (t.side == Client ==> !s.phase.Failed?)
  }

  /** The server's closing acknowledgement, sent without the last chunk, was taken for the last chunk. */
  predicate Derailed(t: Transfer, s: Sender, r: Receiver, high: int)
    requires t.first < |t.chunks|
  {
    && t.side == Server && s.phase == Finished && high == Total(t) - 1
    && r.phase == Receiving && r.sqn == t.offset + Total(t)
    && r.file == Flatten(t.chunks[..Total(t) - 1])
  }

  predicate ReceiverInv(t: Transfer, s: Sender, r: Receiver, high: int)
    requires t.first < |t.chunks|
  {
    && r.ack == r.sqn
    && match r.phase
       case FirstChunk => r.sqn == t.offset + t.first - 1 && r.file == Flatten(t.chunks[..t.first])
       case Receiving =>
         || Derailed(t, s, r, high)
         || (&& t.first <= r.sqn - t.offset < Total(t) && r.sqn - t.offset <= high
             && r.file == Flatten(t.chunks[..r.sqn - t.offset]))
       case Done => r.sqn == t.offset + Total(t) - 1 && high == Total(t) && r.file == Flatten(t.chunks)
  }

  /** The sender never runs ahead of what the receiver holds, and believes in a FIN only when there is one. */
  predicate CrossInv(t: Transfer, s: Sender, r: Receiver) {
    && (s.w.base == t.first || s.w.base <= r.ack - t.offset)
    && (s.finBack ==> r.phase == Done)
  }

  ghost predicate ToReceiverInv(t: Transfer, s: Sender, high: int, toReceiver: set<PacketGbn>) {
    && (forall p :: p in toReceiver ==>
          Stale(t, p) || IsChunk(t, high, p) || (s.phase == Finished && IsClosing(t, high, p)))
    && (forall i :: t.first <= i < high && i < |t.chunks| ==> WasSent(t, toReceiver, i))
  }

  predicate AckSound(t: Transfer, r: Receiver, p: PacketGbn) {
    && p.ackNumber <= r.ack
    && (p.isFin ==> !p.isAck && r.phase == Done && p.ackNumber == t.offset + Total(t) - 1)
  }

  ghost predicate ToSenderInv(t: Transfer, r: Receiver, toSender: set<PacketGbn>) {
    forall p :: p in toSender ==> AckSound(t, r, p)
  }

  /** What the closing handshake would repeat, if anything, is the newest chunk of the last round. */
  predicate LastRawInv(t: Transfer, s: Sender) {
    s.lastRaw.Some? && !s.phase.Failed? ==>
      && t.first < s.w.next <= |t.chunks|
      && s.lastRaw.value == ChunkPacket(t, s.w.next - 1, s.lastRaw.value.ackNumber)
  }

  ghost predicate Inv(t: Transfer, sys: Sys) {
    && TransferOk(t)
    && SenderInv(t, sys.s, sys.high)
    && ReceiverInv(t, sys.s, sys.r, sys.high)
    && CrossInv(t, sys.s, sys.r)
    && ToReceiverInv(t, sys.s, sys.high, sys.toReceiver)
    && ToSenderInv(t, sys.r, sys.toSender)
    && LastRawInv(t, sys.s)
  }

  lemma InitInv(t: Transfer, sys: Sys)
    requires Init(t, sys)
    ensures Inv(t, sys)
  {
  }

  lemma SendsChunkInv(t: Transfer, sys: Sys)
    requires Inv(t, sys) && Enabled(t, sys, SendsChunk)
    ensures Inv(t, Step(t, sys, SendsChunk))
  {
    var sys' := Step(t, sys, SendsChunk);
    var p := ChunkPacket(t, sys.s.w.next, sys.s.w.ack);
    assert IsChunk(t, sys'.high, p);
    forall i | t.first <= i < sys'.high && i < |t.chunks| ensures WasSent(t, sys'.toReceiver, i) {
      if i == sys.s.w.next {
        assert ChunkPacket(t, i, sys.s.w.ack) in sys'.toReceiver;
      } else {
        assert WasSent(t, sys.toReceiver, i);
        var ack :| ChunkPacket(t, i, ack) in sys.toReceiver;
        assert ChunkPacket(t, i, ack) in sys'.toReceiver;
      }
    }
  }

  lemma EndsWindowInv(t: Transfer, sys: Sys)
    requires Inv(t, sys) && Enabled(t, sys, EndsWindow)
    ensures Inv(t, Step(t, sys, EndsWindow))
  {
  }

  lemma SenderTimesOutInv(t: Transfer, sys: Sys)
    requires Inv(t, sys) && Enabled(t, sys, SenderTimesOut)
    ensures Inv(t, Step(t, sys, SenderTimesOut))
  {
  }

  /** What hearing a sound packet does to the window. */
  lemma SenderHearsWindow(t: Transfer, sys: Sys, p: PacketGbn, duration: real)
    requires Inv(t, sys) && Enabled(t, sys, SenderHears(p, duration)) && AckSound(t, sys.r, p)
    ensures var s' := OnEvent(t, sys.s, Arrives(p, duration));
            SenderInv(t, s', sys.high) && CrossInv(t, s', sys.r)
  {
  }

  /** Soundness of acknowledgements in flight is exactly what moving the window needs. */
  lemma SenderHearsInv(t: Transfer, sys: Sys, p: PacketGbn, duration: real)
    requires Inv(t, sys) && Enabled(t, sys, SenderHears(p, duration))
    ensures Inv(t, Step(t, sys, SenderHears(p, duration)))
  {
    assert AckSound(t, sys.r, p);
    SenderHearsWindow(t, sys, p, duration);
  }

  lemma {:induction false} FirstChunkInv(t: Transfer, sys: Sys, p: PacketGbn)
    requires Inv(t, sys) && p in sys.toReceiver && sys.r.phase == FirstChunk
    ensures ReceiverInv(t, sys.s, Deliver(t, sys.r, p), sys.high)
    ensures Deliver(t, sys.r, p).ack >= sys.r.ack
  {
    if p.sequenceNumber == sys.r.ack + 1 {
      assert IsChunk(t, sys.high, p);
      if p.isFin {
        FlattenStep(t.chunks, t.first);
        assert t.chunks[..t.first + 1] == t.chunks;
      }
    }
  }

  lemma {:induction false} ReceivingInv(t: Transfer, sys: Sys, p: PacketGbn)
    requires Inv(t, sys) && p in sys.toReceiver && sys.r.phase == Receiving
    ensures ReceiverInv(t, sys.s, Deliver(t, sys.r, p), sys.high)
    ensures Deliver(t, sys.r, p).ack >= sys.r.ack
  {
    if p.sequenceNumber == sys.r.sqn {
      if IsChunk(t, sys.high, p) {
        var k := sys.r.sqn - t.offset;
        FlattenStep(t.chunks, k);
        assert k == |t.chunks| - 1 ==> t.chunks[..k + 1] == t.chunks;
      } else {
        assert IsClosing(t, sys.high, p);
      }
    }
  }

  lemma ReceiverHearsInv(t: Transfer, sys: Sys, p: PacketGbn)
    requires Inv(t, sys) && Enabled(t, sys, ReceiverHears(p))
    ensures Inv(t, Step(t, sys, ReceiverHears(p)))
  {
    match sys.r.phase {
      case FirstChunk => FirstChunkInv(t, sys, p);
      case Receiving => ReceivingInv(t, sys, p);
      case Done =>
    }
  }

  lemma ClosingInv(t: Transfer, sys: Sys, a: Action)
    requires Inv(t, sys) && Enabled(t, sys, a)
    requires a == ReceiverCloses || a.SenderCloses? || a == SenderGivesUp
    ensures Inv(t, Step(t, sys, a))
  {
    var sys' := Step(t, sys, a);
    forall i | t.first <= i < sys'.high && i < |t.chunks| ensures WasSent(t, sys'.toReceiver, i) {
      assert WasSent(t, sys.toReceiver, i);
      var ack :| ChunkPacket(t, i, ack) in sys.toReceiver;
      assert ChunkPacket(t, i, ack) in sys'.toReceiver;
    }
  }

  /** Every single step, whichever endpoint takes it, keeps the invariant. */
  lemma StepInv(t: Transfer, sys: Sys, a: Action)
    requires Inv(t, sys) && Enabled(t, sys, a)
    ensures Inv(t, Step(t, sys, a))
  {
    match a {
      case SendsChunk => SendsChunkInv(t, sys);
      case EndsWindow => EndsWindowInv(t, sys);
      case SenderHears(p, duration) => SenderHearsInv(t, sys, p, duration);
      case SenderTimesOut => SenderTimesOutInv(t, sys);
      case ReceiverHears(p) => ReceiverHearsInv(t, sys, p);
      case ReceiverCloses => ClosingInv(t, sys, a);
      case SenderCloses(_) => ClosingInv(t, sys, a);
      case SenderGivesUp => ClosingInv(t, sys, a);
    }
  }

  lemma {:induction false} RunInv(t: Transfer, from: Sys, actions: seq<Action>, to: Sys)
    requires Inv(t, from) && Runs(t, from, actions, to)
    ensures Inv(t, to)
    decreases |actions|
  {
    if actions == [] {
    } else {
      StepInv(t, from, actions[0]);
      RunInv(t, Step(t, from, actions[0]), actions[1..], to);
    }
  }

  lemma ReachableInv(t: Transfer, sys: Sys)
    requires Reachable(t, sys)
    ensures Inv(t, sys)
  {
    var start: Sys, actions: seq<Action> :| Init(t, start) && Runs(t, start, actions, sys);
    InitInv(t, start);
    RunInv(t, start, actions, sys);
  }

  // ----- runs can be put one after the other

  lemma {:induction false} RunsConcat(t: Transfer, a: Sys, xs: seq<Action>, b: Sys, ys: seq<Action>, c: Sys)
    requires Runs(t, a, xs, b) && Runs(t, b, ys, c)
    ensures Runs(t, a, xs + ys, c)
    decreases |xs|
  {
    if xs == [] {
      assert xs + ys == ys;
    } else {
      RunsConcat(t, Step(t, a, xs[0]), xs[1..], b, ys, c);
      assert (xs + ys)[1..] == xs[1..] + ys;
    }
  }

  ghost predicate Leads(t: Transfer, a: Sys, b: Sys) {
    exists actions: seq<Action> :: Runs(t, a, actions, b)
  }

  lemma LeadsHere(t: Transfer, a: Sys)
    ensures Leads(t, a, a)
  {
    assert Runs(t, a, [], a);
  }

  lemma LeadsStep(t: Transfer, a: Sys, act: Action)
    requires Enabled(t, a, act)
    ensures Leads(t, a, Step(t, a, act))
  {
    var b := Step(t, a, act);
    assert Runs(t, b, [], b);
    assert [act][1..] == [];
    assert Runs(t, a, [act], b);
  }

  lemma LeadsTrans(t: Transfer, a: Sys, b: Sys, c: Sys)
    requires Leads(t, a, b) && Leads(t, b, c)
    ensures Leads(t, a, c)
  {
    var xs: seq<Action> :| Runs(t, a, xs, b);
    var ys: seq<Action> :| Runs(t, b, ys, c);
    RunsConcat(t, a, xs, b, ys, c);
  }

  lemma ReachableLeads(t: Transfer, a: Sys, b: Sys)
    requires Reachable(t, a) && Leads(t, a, b)
    ensures Reachable(t, b)
  {
    var start: Sys, xs: seq<Action> :| Init(t, start) && Runs(t, start, xs, a);
    var ys: seq<Action> :| Runs(t, a, ys, b);
    RunsConcat(t, start, xs, a, ys, b);
  }

  // ----- each endpoint of a run behaves as its own loop does on what it heard

  function HeardBySender(actions: seq<Action>): seq<Event> {
    if actions == [] then []
    else
      (match actions[0]
       case SenderHears(p, duration) => [Arrives(p, duration)]
       case SenderTimesOut => [TimesOut]
       case _ => []) + HeardBySender(actions[1..])
  }

  function HeardByReceiver(actions: seq<Action>): seq<PacketGbn> {
    if actions == [] then []
    else
      (match actions[0] case ReceiverHears(p) => [p] case _ => []) + HeardByReceiver(actions[1..])
  }

  /** In any run the sender, once it has filled its window, is where its own loop takes it on the events it heard. */
  lemma {:induction false} SenderFollowsItsLoop(t: Transfer, from: Sys, actions: seq<Action>, to: Sys)
    requires NoWrap(t) && Counts(from.s.w) && Runs(t, from, actions, to)
    ensures Counts(to.s.w)
    ensures Settle(t, to.s) == FoldEvents(t, Settle(t, from.s), HeardBySender(actions))
    decreases |actions|
  {
    if actions == [] {
    } else {
      var mid := Step(t, from, actions[0]);
      SenderFollowsItsLoop(t, mid, actions[1..], to);
      match actions[0] {
        case SenderHears(p, duration) =>
          assert HeardBySender(actions)[1..] == HeardBySender(actions[1..]);
        case SenderTimesOut =>
          assert HeardBySender(actions)[1..] == HeardBySender(actions[1..]);
        case _ =>
          assert HeardBySender(actions) == HeardBySender(actions[1..]);
      }
    }
  }

  lemma {:induction false} ReceiverFollowsItsLoop(t: Transfer, from: Sys, actions: seq<Action>, to: Sys)
    requires Runs(t, from, actions, to)
    ensures to.r == DeliverAll(t, from.r, HeardByReceiver(actions))
    decreases |actions|
  {
    if actions == [] {
    } else {
      ReceiverFollowsItsLoop(t, Step(t, from, actions[0]), actions[1..], to);
      match actions[0] {
        case ReceiverHears(p) =>
          assert HeardByReceiver(actions)[1..] == HeardByReceiver(actions[1..]);
        case _ =>
          assert HeardByReceiver(actions) == HeardByReceiver(actions[1..]);
      }
    }
  }
}
