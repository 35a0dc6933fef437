/**
 * What an observer of the two go-back-N endpoints sees: which packet is sent when, with which fields, what every packet
 * heard moves and how it is answered. Fields are written out here, and times and logs are counted.
 */
module GbnBehaviour {
  import opened Chunking
  import opened PacketFormat
  import opened SequenceNumbers
  import opened GoBackN
  import opened GbnSystem

  // ----- the FIN flag of the sender

  lemma FinAmongCons(events: seq<Event>, more: seq<Event>)
    ensures FinAmong(events + more) <==> FinAmong(events) || FinAmong(more)
  {
    if FinAmong(events) {
      var e :| e in events && IsFin(e);
      assert e in events + more;
    } else if FinAmong(more) {
      var e :| e in more && IsFin(e);
      assert e in events + more;
    }
  }

  lemma FinAmongOne(e: Event)
    ensures FinAmong([e]) <==> e.Arrives? && e.packet.isFin && !e.packet.isAck
  {
    if IsFin(e) { assert e in [e]; }
  }

  /** What one step of the system lets the sender hear. */
  function HeardNow(a: Action): seq<Event> {
    match a
    case SenderHears(p, duration) => [Arrives(p, duration)]
    case SenderTimesOut => [TimesOut]
    case _ => []
  }

  lemma StepFinBack(t: Transfer, sys: Sys, a: Action)
    requires Enabled(t, sys, a)
    ensures Step(t, sys, a).s.finBack <==> sys.s.finBack || FinAmong(HeardNow(a))
  {
    match a {
      case SenderHears(p, duration) => FinAmongOne(Arrives(p, duration));
      case SenderTimesOut => FinAmongOne(TimesOut);
      case _ =>
    }
  }

  lemma {:induction false} RunFinBack(t: Transfer, from: Sys, actions: seq<Action>, to: Sys)
    requires Runs(t, from, actions, to)
    ensures to.s.finBack <==> from.s.finBack || FinAmong(HeardBySender(actions))
    decreases |actions|
  {
    if actions == [] {
    } else {
      StepFinBack(t, from, actions[0]);
      RunFinBack(t, Step(t, from, actions[0]), actions[1..], to);
      FinAmongCons(HeardNow(actions[0]), HeardBySender(actions[1..]));
      assert HeardBySender(actions) == HeardNow(actions[0]) + HeardBySender(actions[1..]);
    }
  }

  /** On both sides and in every run, the flag is set if and only if a FIN that is no acknowledgement was heard. */
  lemma FinBackMeansFinHeard(t: Transfer, start: Sys, actions: seq<Action>, sys: Sys)
    requires Init(t, start) && Runs(t, start, actions, sys)
    ensures sys.s.finBack <==>
              exists e :: e in HeardBySender(actions) && e.Arrives? && e.packet.isFin && !e.packet.isAck
  {
    RunFinBack(t, start, actions, sys);
    if sys.s.finBack {
      var e :| e in HeardBySender(actions) && IsFin(e);
    }
  }

  /** A FIN ends the loop: it carries the last number, so a sender that hears it is past its loop. */
  lemma {:induction false} FinEndsLoop(t: Transfer, from: Sys, actions: seq<Action>, to: Sys)
    requires Inv(t, from) && Runs(t, from, actions, to) && (from.s.finBack ==> from.s.phase == Finished)
    ensures to.s.finBack ==> to.s.phase == Finished
    decreases |actions|
  {
    if actions == [] {
    } else {
      var a := actions[0];
      StepInv(t, from, a);
      if a.SenderHears? { assert AckSound(t, from.r, a.packet); }
      FinEndsLoop(t, Step(t, from, a), actions[1..], to);
    }
  }

  lemma FinBackIsPastLoop(t: Transfer, sys: Sys)
    requires Reachable(t, sys) && sys.s.finBack
    ensures sys.s.phase == Finished
  {
    var start: Sys, actions: seq<Action> :| Init(t, start) && Runs(t, start, actions, sys);
    InitInv(t, start);
    FinEndsLoop(t, start, actions, sys);
  }

  // ----- what the sender sends

  /**
   * A chunk on its way: numbered by its place, acknowledging everything before the base, marked FIN if it is the last,
   * with its own data and length, and kept for retransmission.
   */
  lemma ChunkOnItsWay(t: Transfer, sys: Sys)
    requires Reachable(t, sys) && Enabled(t, sys, SendsChunk)
    ensures var i := sys.s.w.next;
            && 0 <= i < |t.chunks|
            && var p := PacketGbn(t.offset + i, t.offset + sys.s.w.base, false, false, i + 1 == |t.chunks|, t.port,
                                  |t.chunks[i]|, t.chunks[i]);
               var sys' := Step(t, sys, SendsChunk);
               && sys'.s.outbox == sys.s.outbox + [p] && p in sys'.toReceiver && sys'.s.lastRaw == Some(p)
               && sys'.s.w.next == i + 1 && sys'.s.w.base == sys.s.w.base && sys'.s.phase == Sending
  {
    ReachableInv(t, sys);
  }

  /** With its window of ten out the sender listens, or leaves if only the last chunk is outstanding. */
  lemma WindowIsOut(t: Transfer, sys: Sys)
    requires Reachable(t, sys) && Enabled(t, sys, EndsWindow)
    ensures var s := Step(t, sys, EndsWindow).s;
            && s.w == sys.s.w && s.lastRaw == sys.s.lastRaw && s.outbox == sys.s.outbox
            && s.w.next == Min(s.w.base + 10, |t.chunks|)
            && s.phase == if sys.s.w.base + 1 == |t.chunks| then Finished else Awaiting
  {
    ReachableInv(t, sys);
  }

  predicate KeepsLast(s: Sender) {
    s.lastRaw.Some? ==> s.outbox != [] && s.lastRaw.value == s.outbox[|s.outbox| - 1]
  }

  lemma StepKeepsLast(t: Transfer, sys: Sys, a: Action)
    requires Enabled(t, sys, a) && KeepsLast(sys.s)
    ensures KeepsLast(Step(t, sys, a).s)
  {
  }

  lemma {:induction false} RunKeepsLast(t: Transfer, from: Sys, actions: seq<Action>, to: Sys)
    requires Runs(t, from, actions, to) && KeepsLast(from.s)
    ensures KeepsLast(to.s)
    decreases |actions|
  {
    if actions == [] {
    } else {
      StepKeepsLast(t, from, actions[0]);
      RunKeepsLast(t, Step(t, from, actions[0]), actions[1..], to);
    }
  }

  /** What is kept for retransmission is the last packet sent. */
  lemma KeptIsLastSent(t: Transfer, sys: Sys)
    requires Reachable(t, sys)
    ensures sys.s.lastRaw.Some? ==> sys.s.outbox != [] && sys.s.lastRaw.value == sys.s.outbox[|sys.s.outbox| - 1]
  {
    var start: Sys, actions: seq<Action> :| Init(t, start) && Runs(t, start, actions, sys);
    RunKeepsLast(t, start, actions, sys);
  }

  /** A new round begins with nothing kept. */
  lemma NewRoundKeepsNothing(t: Transfer, sys: Sys, a: Action)
    requires Enabled(t, sys, a) && sys.s.phase == Awaiting && Step(t, sys, a).s.phase == Sending
    ensures Step(t, sys, a).s.lastRaw == None
  {
  }

  // ----- what a packet does to the sender

  /** The packet is one the sender goes on from. */
  predicate Bearable(t: Transfer, p: PacketGbn) {
    t.side == Client || p.isAck || p.isFin
  }

  /**
   * An acknowledgement that is not old moves the base exactly to it and forgets the lost time; the loop then goes on
   * unless this was a FIN, or on the server's side the number of the last chunk.
   */
  lemma NewAckMovesBase(t: Transfer, sys: Sys, p: PacketGbn, duration: real)
    requires Reachable(t, sys) && Enabled(t, sys, SenderHears(p, duration)) && Bearable(t, p)
    requires p.ackNumber >= t.offset + sys.s.w.base
    ensures var s := Step(t, sys, SenderHears(p, duration)).s;
            && s.w == Window(p.ackNumber - t.offset, sys.s.w.next, p.ackNumber, 0.0) && s.outbox == sys.s.outbox
            && s.phase == (if (if t.side == Client then p.isFin && !p.isAck
                               else p.ackNumber == t.offset + |t.chunks| - 1)
                           then Finished else Sending)
  {
    ReachableInv(t, sys);
    assert AckSound(t, sys.r, p);
  }

  /**
   * An old one costs the time it took. As long as the time lost stays below a hundredth of a second nothing else
   * changes; once it does not the window is sent again from the base.
   */
  lemma OldAckCostsTime(t: Transfer, sys: Sys, p: PacketGbn, duration: real)
    requires Reachable(t, sys) && Enabled(t, sys, SenderHears(p, duration)) && Bearable(t, p)
    requires p.ackNumber < t.offset + sys.s.w.base
    ensures var s, lost := Step(t, sys, SenderHears(p, duration)).s, sys.s.w.spent + duration;
            && s.phase == Sending && s.outbox == sys.s.outbox
            && s.w == if lost < 0.01 then sys.s.w.(spent := lost)
                      else sys.s.w.(next := sys.s.w.base, spent := 0.0)
  {
    ReachableInv(t, sys);
    assert AckSound(t, sys.r, p);
  }

  /** A timeout sends the window again from the base. */
  lemma TimeoutSendsAgain(t: Transfer, sys: Sys)
    requires Reachable(t, sys) && Enabled(t, sys, SenderTimesOut)
    ensures var s := Step(t, sys, SenderTimesOut).s;
            && s.phase == Sending && s.outbox == sys.s.outbox
            && s.w == Window(sys.s.w.base, sys.s.w.base, t.offset + sys.s.w.base, 0.0)
  {
    ReachableInv(t, sys);
  }

  // ----- how the receiver answers

  /** The acknowledgement a receiver sends where it stands. */
  function AckAt(t: Transfer, r: Receiver): PacketGbn {
    PacketGbn(r.sqn, r.ack, true, false, false, t.receiverPort, 0, [])
  }

  /** How often a packet is on a log. */
  ghost function Times(log: seq<PacketGbn>, p: PacketGbn): nat {
    multiset(log)[p]
  }

  /** How many of these carry the receiver's own number and no FIN. */
  function Asking(ps: seq<PacketGbn>, sqn: int): nat {
    if ps == [] then 0
    else (if ps[0].sequenceNumber == sqn && !ps[0].isFin then 1 else 0) + Asking(ps[1..], sqn)
  }

  /** One packet that is not the first chunk: the last configuration packet again, after an acknowledgement if asked. */
  lemma NotFirstIsAnswered(t: Transfer, r: Receiver, p: PacketGbn)
    requires r.phase == FirstChunk && p.sequenceNumber != r.ack + 1
    ensures Deliver(t, r, p)
            == r.(outbox := r.outbox
                            + (if p.sequenceNumber == r.sqn && !p.isFin then [AckAt(t, r)] else []) + [t.resend])
  {
  }

  /**
   * While the first chunk is awaited every packet heard is answered with one copy of the last configuration packet, and
   * those that carry the receiver's own number with an acknowledgement as well; nothing else changes.
   */
  lemma {:induction false} FirstChunkWaitAnswers(t: Transfer, r: Receiver, ps: seq<PacketGbn>)
    requires r.phase == FirstChunk && forall p :: p in ps ==> p.sequenceNumber != r.ack + 1
    ensures var r' := DeliverAll(t, r, ps);
            && r' == r.(outbox := r'.outbox)
            && |r'.outbox| == |r.outbox| + |ps| + Asking(ps, r.sqn)
            && Times(r'.outbox, t.resend)
               == Times(r.outbox, t.resend) + |ps| + (if t.resend == AckAt(t, r) then Asking(ps, r.sqn) else 0)
            && Times(r'.outbox, AckAt(t, r))
               == Times(r.outbox, AckAt(t, r)) + Asking(ps, r.sqn) + (if t.resend == AckAt(t, r) then |ps| else 0)
    decreases |ps|
  {
    if ps == [] {
    } else {
      NotFirstIsAnswered(t, r, ps[0]);
      FirstChunkWaitAnswers(t, Deliver(t, r, ps[0]), ps[1..]);
    }
  }

  lemma LoopStep(t: Transfer, r: Receiver, events: seq<Event>)
    requires r.phase == FirstChunk && events != [] && events[0].Arrives?
    ensures ReceiveEvents(t, r, events) == ReceiveEvents(t, Deliver(t, r, events[0].packet), events[1..])
  {
  }

  /** The same on what a socket brings: before the first chunk, or the end, every packet has had its answer. */
  lemma {:induction false} FirstChunkLoopAnswers(t: Transfer, r: Receiver, events: seq<Event>, k: nat)
    returns (r': Receiver)
    requires r.phase == FirstChunk && k <= |events|
    requires forall i :: 0 <= i < k ==> events[i].Arrives? && events[i].packet.sequenceNumber != r.ack + 1
    ensures ReceiveEvents(t, r, events) == ReceiveEvents(t, r', events[k..])
    ensures r' == r.(outbox := r'.outbox) && Times(r'.outbox, t.resend) >= Times(r.outbox, t.resend) + k
    decreases k
  {
    if k == 0 {
      assert events[0..] == events;
      r' := r;
    } else {
      var r1 := Deliver(t, r, events[0].packet);
      NotFirstIsAnswered(t, r, events[0].packet);
      r' := FirstChunkLoopAnswers(t, r1, events[1..], k - 1);
      assert events[1..][k - 1..] == events[k..];
      LoopStep(t, r, events);
    }
  }

  /** The first chunk itself is only looked at, whatever it is answered with later; a FIN with data is stored. */
  lemma FirstChunkIsPeekedAt(t: Transfer, r: Receiver, p: PacketGbn)
    requires r.phase == FirstChunk && p.sequenceNumber == r.ack + 1 && r.ack == r.sqn
    ensures Deliver(t, r, p).outbox == r.outbox
    ensures !p.isFin ==> Deliver(t, r, p).phase == Receiving && Deliver(t, r, p).file == r.file
  {
  }

  /** After that every packet is acknowledged with the numbers held before it, but for the FIN that ends the file. */
  lemma ReceiverAnswers(t: Transfer, sys: Sys, p: PacketGbn)
    requires Reachable(t, sys) && p in sys.toReceiver && sys.r.phase == Receiving
    ensures var r' := Deliver(t, sys.r, p);
            && r'.outbox == sys.r.outbox + (if r'.phase == Done then [] else [AckAt(t, sys.r)])
            && (r'.phase == Done <==> p.sequenceNumber == sys.r.sqn && p.isFin)
            && sys.r.ack == sys.r.sqn
  {
    ReachableInv(t, sys);
  }

  // ----- the closing packets

  /** A finished receiver closes with an acknowledgement and a FIN, both with the last chunk's number. */
  lemma ReceiverClosingPackets(t: Transfer, sys: Sys)
    requires Reachable(t, sys) && sys.r.phase == Done
    ensures var n := t.offset + |t.chunks| - 1;
            Step(t, sys, ReceiverCloses).toSender
            == sys.toSender
               + {PacketGbn(n, n, true, false, false, t.receiverPort, 0, []),
                  PacketGbn(n, n, false, false, true, if t.side == Client then t.receiverPort else t.port, 0, [])}
  {
    ReachableInv(t, sys);
    assert Elements(Closing(t, sys.r)) == {Closing(t, sys.r)[0], Closing(t, sys.r)[1]};
  }

  /**
   * A sender that is answered closes with one acknowledgement, numbered one past the last it sent. A client that is not
   * sends an acknowledgement and a FIN, both with one more than that in both numbers.
   */
  lemma SenderClosingPackets(t: Transfer, sys: Sys, p: PacketGbn)
    requires Reachable(t, sys) && sys.s.phase == Finished
    ensures Enabled(t, sys, SenderCloses(p)) ==>
              Step(t, sys, SenderCloses(p)).toReceiver
              == sys.toReceiver
                 + {PacketGbn(t.offset + sys.high, t.offset + |t.chunks| - 1, true, false, false, t.port, 0, [])}
    ensures t.side == Client ==>
              var n := t.offset + |t.chunks|;
              && Enabled(t, sys, SenderGivesUp)
              && Step(t, sys, SenderGivesUp).toReceiver
                 == sys.toReceiver
                    + {PacketGbn(n, n, true, false, false, t.port, 0, []),
                       PacketGbn(n, n, false, false, true, t.receiverPort, 0, [])}
  {
    ReachableInv(t, sys);
  }
}
