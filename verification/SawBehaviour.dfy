/**
 * What an observer of the two stop-and-wait ends sees: every packet in flight fits the wire format and comes back from
 * it with its data, and every packet heard is answered, with fields written out here.
 */
module SawBehaviour {
  import opened Chunking
  import opened PacketFormat
  import opened StopAndWait
  import opened SawResults

  // ----- every packet fits the wire format

  function ServerPort(p: Plan): int {
    if p.direction == Upload then p.receiverPort else p.senderPort
  }

  /** One bit, a length that fits and is that of the data, no SYN, and the port of its end, or the server's on a FIN. */
  predicate PacketFits(q: PacketSaw, from: int, server: int) {
    && (q.sequenceNumber == 0 || q.sequenceNumber == 1)
    && |q.data| == q.payloadLength < MAX_USHORT && !q.isSyn
    && 0 <= q.port < MAX_USHORT && q.port == if q.isFin && q.data == [] then server else from
  }

  predicate FitsForReceiver(p: Plan, q: PacketSaw) {
    PacketFits(q, p.senderPort, ServerPort(p))
  }

  predicate FitsForSender(p: Plan, q: PacketSaw) {
    PacketFits(q, p.receiverPort, ServerPort(p))
  }

  /** Items, ports and the two packets left over fit. */
  ghost predicate PlanFits(p: Plan) {
    && PlanOk(p)
    && (forall i :: 0 <= i < |p.items| ==> |p.items[i]| < MAX_USHORT)
    && 0 <= p.senderPort < MAX_USHORT && 0 <= p.receiverPort < MAX_USHORT
    && FitsForReceiver(p, p.oldData) && FitsForSender(p, p.oldAck)
  }

  ghost predicate AllFit(p: Plan, sys: Sys) {
    && 0 <= sys.s.item < |p.items|
    && (sys.s.bit == 0 || sys.s.bit == 1) && (sys.r.bit == 0 || sys.r.bit == 1)
    && FitsForReceiver(p, sys.s.lastRaw) && FitsForSender(p, sys.r.lastRaw)
    && (forall q :: q in sys.toReceiver ==> FitsForReceiver(p, q))
    && (forall q :: q in sys.toSender ==> FitsForSender(p, q))
  }

  lemma SenderStepFits(p: Plan, sys: Sys, a: Action)
    requires PlanFits(p) && AllFit(p, sys) && Enabled(p, sys, a)
    requires a == SenderHears || a == SenderRepeats || a == SenderGivesUp
    ensures AllFit(p, Step(p, sys, a))
  {
    var sys' := Step(p, sys, a);
    if a != SenderRepeats {
      var more := Sent(sys.s.outbox, sys'.s.outbox);
      assert sys'.toReceiver == sys.toReceiver + more;
      assert forall q :: q in more ==> FitsForReceiver(p, q);
    }
  }

  /** What a receiver sends while it becomes `r'` fits, and so does what it would repeat. */
  ghost predicate RepliesFit(p: Plan, r: Receiver, r': Receiver) {
    && (r'.bit == 0 || r'.bit == 1) && FitsForSender(p, r'.lastRaw)
    && forall q :: q in Sent(r.outbox, r'.outbox) ==> FitsForSender(p, q)
  }

  lemma RepliesOfReceiverFit(p: Plan, r: Receiver, heard: PacketSaw)
    requires PlanFits(p) && (r.bit == 0 || r.bit == 1) && FitsForSender(p, r.lastRaw)
    ensures RepliesFit(p, r, ReceiverGets(p, r, heard)) && RepliesFit(p, r, Leave(p, r))
    ensures RepliesFit(p, r, Reply(r, r.lastRaw))
  {
  }

  lemma ReceiverStepFits(p: Plan, sys: Sys, a: Action)
    requires PlanFits(p) && AllFit(p, sys) && Enabled(p, sys, a)
    requires a == ReceiverHears || a == ReceiverRepeats || a == ReceiverGivesUp
    ensures AllFit(p, Step(p, sys, a))
  {
    RepliesOfReceiverFit(p, sys.r, if a == ReceiverHears then sys.toReceiver[0] else sys.r.lastRaw);
    assert RepliesFit(p, sys.r, Step(p, sys, a).r);
  }

  /** Also when packets overtake. */
  lemma StepFits(p: Plan, sys: Sys, a: Action)
    requires PlanFits(p) && AllFit(p, sys) && Enabled(p, sys, a)
    ensures AllFit(p, Step(p, sys, a))
  {
    match a {
      case SenderHears => SenderStepFits(p, sys, a);
      case SenderRepeats => SenderStepFits(p, sys, a);
      case SenderGivesUp => SenderStepFits(p, sys, a);
      case ReceiverHears => ReceiverStepFits(p, sys, a);
      case ReceiverRepeats => ReceiverStepFits(p, sys, a);
      case ReceiverGivesUp => ReceiverStepFits(p, sys, a);
      case _ =>
    }
  }

  lemma {:induction false} RunFits(p: Plan, from: Sys, actions: seq<Action>, to: Sys)
    requires PlanFits(p) && AllFit(p, from) && Runs(p, from, actions, to)
    ensures AllFit(p, to)
    decreases |actions|
  {
    if actions == [] {
    } else {
      StepFits(p, from, actions[0]);
      RunFits(p, Step(p, from, actions[0]), actions[1..], to);
    }
  }

  lemma InitFits(p: Plan, sys: Sys)
    requires PlanFits(p) && Init(p, sys)
    ensures AllFit(p, sys)
  {
    var m :| Boundary(sys.toReceiver, m, p.oldData, {DataOf(p, 0)});
    assert forall j :: 0 <= j < |sys.toReceiver| ==>
      sys.toReceiver[j] == p.oldData || sys.toReceiver[j] == DataOf(p, 0);
  }

  /**
   * In every reachable state, ordered or not, whether or not a client gives up, each packet in either channel can be
   * composed, and the other end parses exactly what was sent; none is a SYN, and the port is the sending end's, except
   * that a FIN without data names the server's.
   */
  lemma PacketsFitTheWire(p: Plan, sys: Sys, ordered: bool, patient: bool, q: PacketSaw)
    requires PlanFits(p) && ReachableOver(p, sys, ordered, patient)
    requires q in sys.toReceiver || q in sys.toSender
    ensures ComposeSaw(q).Some? && Parse(ComposeSaw(q).value) == Saw(q) && !q.isSyn
    ensures q in sys.toReceiver ==> q.port == if q.isFin && q.data == [] then ServerPort(p) else p.senderPort
    ensures q in sys.toSender ==> q.port == if q.isFin && q.data == [] then ServerPort(p) else p.receiverPort
  {
    var start: Sys, actions: seq<Action> :|
      && Init(p, start) && (ordered ==> KeepsOrder(actions)) && (patient ==> Patient(actions))
      && Runs(p, start, actions, sys);
    InitFits(p, start);
    RunFits(p, start, actions, sys);
    ComposedPacketParsesBack(Saw(q));
  }

  /** What arrives of item `i`: its whole data, its length, its bit, and the FIN mark on the last chunk. */
  lemma ItemOnTheWire(p: Plan, i: int)
    requires PlanFits(p) && 0 <= i < |p.items|
    ensures var raw := ComposeSaw(DataOf(p, i));
            && raw.Some?
            && Parse(raw.value)
               == Saw(PacketSaw(i % 2, p.direction == Download && i == 0, false,
                                i + 1 == |p.items| && (p.direction == Upload ==> |p.items| > 2), p.senderPort,
                                |p.items[i]|, p.items[i]))
  {
    ComposedPacketParsesBack(Saw(DataOf(p, i)));
  }

  /** A name that fits is all an upload needs for its items to fit, and a download nothing. */
  lemma ItemsFit(p: Plan, name: Bytes, source: Bytes)
    requires (UploadPlan(p, name, source) && |name| < MAX_USHORT) || DownloadPlan(p, source)
    ensures forall i :: 0 <= i < |p.items| ==> |p.items[i]| < MAX_USHORT
  {
    SplitIsLossless(source, FILE_CHUNK_SIZE_SAW);
  }

  // ----- what the receiver answers

  /**
   * Every packet the receiver hears is answered. If it is the one expected, by an acknowledgement with its bit, and
   * after the last chunk by a FIN with the same bit as well; if not, by whatever it said last.
   */
  lemma ReceiverAnswers(p: Plan, sys: Sys)
    requires Reachable(p, sys) && BothStay(sys) && Enabled(p, sys, ReceiverHears)
    ensures 0 <= sys.s.item < |p.items|
    ensures var q, r' := sys.toReceiver[0], Step(p, sys, ReceiverHears).r;
            var bit := sys.r.bit;
            var ack := PacketSaw(bit, true, false, false, p.receiverPort, 0, []);
            var fin := PacketSaw(bit, false, false, true, ServerPort(p), 0, []);
            if r'.accepted == sys.r.accepted then
              r'.outbox == sys.r.outbox + [sys.r.lastRaw] && r'.lastRaw == sys.r.lastRaw && r'.bit == bit
            else
              && !sys.r.done && q.sequenceNumber == bit && r'.accepted == sys.r.accepted + [q.data]
              && r'.outbox == sys.r.outbox + [ack] + (if r'.done then [fin] else [])
              && r'.lastRaw == (if r'.done then fin else ack)
              && (r'.done <==> q.isFin && (p.direction == Upload ==> |sys.r.accepted| >= 2))
              && (!r'.done ==> r'.bit == 1 - bit)
  {
    ReachableInv(p, sys);
  }

  // ----- what the sender answers

  /** The confirmation the sender waits for: a plain acknowledgement with its bit, or in the last wait a FIN as well. */
  predicate Confirms(p: Plan, s: Sender, q: PacketSaw) {
    && q.sequenceNumber == s.bit
    && if s.item + 1 == |p.items| && (s.phase == LastWait || p.direction == Download || |p.items| > 2)
       then q.isAck || q.isFin
       else q.isAck && !q.isFin
  }

  /**
   * A sender that waits goes on exactly when it hears the confirmation: it sends the next item with the other bit, or,
   * after the last, an acknowledgement with the other bit; without chunks it first waits once more. Every other packet
   * it answers with its item again.
   */
  lemma SenderAnswers(p: Plan, sys: Sys)
    requires Reachable(p, sys) && BothStay(sys) && Enabled(p, sys, SenderHears) && sys.s.phase != Closed
    ensures 0 <= sys.s.item < |p.items|
    ensures var s, s' := sys.s, Step(p, sys, SenderHears).s;
            var q, i := sys.toSender[0], s.item;
            && s.bit == i % 2 && s.lastRaw == DataOf(p, i)
            && if !Confirms(p, s, q) then
                 s'.outbox == s.outbox + [s.lastRaw] && s'.item == i && s'.phase == s.phase && s'.bit == s.bit
               else if i + 1 < |p.items| then
                 && s'.item == i + 1 && s'.bit == 1 - s.bit && s'.phase == Waiting
                 && s'.outbox == s.outbox + [DataOf(p, i + 1)] && s'.lastRaw == DataOf(p, i + 1)
               else if s.phase == Waiting && p.direction == Upload && |p.items| == 2 then
                 s'.phase == LastWait && s'.outbox == s.outbox && s'.bit == s.bit && s'.lastRaw == s.lastRaw
               else
                 var bye := PacketSaw(1 - s.bit, true, false, false, p.senderPort, 0, []);
                 s'.phase == Closed && s'.outbox == s.outbox + [bye] && s'.lastRaw == bye && s'.bit == 1 - s.bit
  {
    ReachableInv(p, sys);
  }

  /** A timeout sends again what was sent last; the goodbye is an acknowledgement and a FIN with the other bit. */
  lemma RepetitionsAndGoodbyes(p: Plan, sys: Sys)
    requires Reachable(p, sys) && BothStay(sys)
    ensures 0 <= sys.s.item < |p.items|
    ensures Step(p, sys, SenderRepeats).toReceiver == sys.toReceiver + [sys.s.lastRaw]
    ensures Step(p, sys, ReceiverRepeats).toSender == sys.toSender + [sys.r.lastRaw]
    ensures Enabled(p, sys, SenderGivesUp) ==>
              var bit := 1 - sys.s.bit;
              Step(p, sys, SenderGivesUp).toReceiver
              == sys.toReceiver
                 + [PacketSaw(bit, true, false, false, p.senderPort, 0, []),
                    PacketSaw(bit, false, false, true, p.receiverPort, 0, [])]
    ensures Enabled(p, sys, ReceiverGivesUp) ==>
              var bit := 1 - sys.r.bit;
              Step(p, sys, ReceiverGivesUp).toSender
              == sys.toSender
                 + [PacketSaw(bit, true, false, false, p.receiverPort, 0, []),
                    PacketSaw(bit, false, false, true, p.senderPort, 0, [])]
  {
    ReachableInv(p, sys);
  }
}
