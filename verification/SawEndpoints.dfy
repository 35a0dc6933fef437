/** The stop-and-wait upload as the client and the server run it, on top of the retry engine. */
module SawEndpoints {
  import opened Chunking
  import opened PacketFormat
  import opened SequenceNumbers
  import opened StopAndWait
  import opened SawResults
  import R = RetryEngine

  // ----- the endpoint steps of module StopAndWait, folded over what a socket went through

  function Replay(p: Plan, s: Sender, events: seq<R.Event<PacketSaw>>): (s': Sender)
    requires 0 <= s.item < |p.items|
    ensures 0 <= s'.item < |p.items|
    decreases |events|
  {
    if events == [] then s
    else
      var s1 := match events[0]
                case Heard(q) => SenderGets(p, s, q)
                case Repeated => Transmit(s, s.lastRaw);
      Replay(p, s1, events[1..])
  }

  lemma {:induction false} ReplayConcat(p: Plan, s: Sender, xs: seq<R.Event<PacketSaw>>, ys: seq<R.Event<PacketSaw>>)
    requires 0 <= s.item < |p.items|
    ensures Replay(p, s, xs + ys) == Replay(p, Replay(p, s, xs), ys)
    decreases |xs|
  {
    if xs == [] {
      assert xs + ys == ys;
    } else {
      var s1 := match xs[0] case Heard(q) => SenderGets(p, s, q) case Repeated => Transmit(s, s.lastRaw);
      ReplayConcat(p, s1, xs[1..], ys);
      assert (xs + ys)[1..] == xs[1..] + ys;
    }
  }

  /** A packet the sender rejects is answered exactly as a timeout is: with its last packet. */
  lemma {:induction false} ReplayUnwanted(p: Plan, s: Sender, events: seq<R.Event<PacketSaw>>)
    requires 0 <= s.item < |p.items| && s.phase != Closed
    requires forall i :: 0 <= i < |events| && events[i].Heard? ==> !SenderAccepts(p, s, events[i].packet)
    ensures Replay(p, s, events) == s.(outbox := s.outbox + R.Copies(s.lastRaw, |events|))
    decreases |events|
  {
    if events != [] {
      var s1 := Transmit(s, s.lastRaw);
      ReplayUnwanted(p, s1, events[1..]);
      assert [s.lastRaw] + R.Copies(s.lastRaw, |events| - 1) == R.Copies(s.lastRaw, |events|);
    } else {
      assert R.Copies(s.lastRaw, 0) == [];
    }
  }

  function ReplayReceiver(p: Plan, r: Receiver, events: seq<R.Event<PacketSaw>>): Receiver
    decreases |events|
  {
    if events == [] then r
    else
      var r1 := match events[0]
                case Heard(q) => ReceiverGets(p, r, q)
                case Repeated => Reply(r, r.lastRaw);
      ReplayReceiver(p, r1, events[1..])
  }

  lemma {:induction false} ReplayReceiverConcat(
    p: Plan, r: Receiver, xs: seq<R.Event<PacketSaw>>, ys: seq<R.Event<PacketSaw>>)
    ensures ReplayReceiver(p, r, xs + ys) == ReplayReceiver(p, ReplayReceiver(p, r, xs), ys)
    decreases |xs|
  {
    if xs == [] {
      assert xs + ys == ys;
    } else {
      var r1 := match xs[0] case Heard(q) => ReceiverGets(p, r, q) case Repeated => Reply(r, r.lastRaw);
      ReplayReceiverConcat(p, r1, xs[1..], ys);
      assert (xs + ys)[1..] == xs[1..] + ys;
    }
  }

  lemma {:induction false} ReplayReceiverUnwanted(p: Plan, r: Receiver, events: seq<R.Event<PacketSaw>>)
    requires forall i :: 0 <= i < |events| && events[i].Heard? ==> r.done || !ReceiverAccepts(p, r, events[i].packet)
    ensures ReplayReceiver(p, r, events) == r.(outbox := r.outbox + R.Copies(r.lastRaw, |events|))
    decreases |events|
  {
    if events != [] {
      ReplayReceiverUnwanted(p, Reply(r, r.lastRaw), events[1..]);
      assert [r.lastRaw] + R.Copies(r.lastRaw, |events| - 1) == R.Copies(r.lastRaw, |events|);
    } else {
      assert R.Copies(r.lastRaw, 0) == [];
    }
  }

  /** What the sender goes through in a run of the two endpoints and their channels. */
  function SenderEvents(p: Plan, from: Sys, actions: seq<Action>): seq<R.Event<PacketSaw>>
    decreases |actions|
  {
    if actions == [] || !Enabled(p, from, actions[0]) || !(0 <= from.s.item < |p.items|) then []
    else
      (match actions[0]
       case SenderHears => [R.Heard(from.toSender[0])]
       case SenderRepeats => [R.Repeated]
       case _ => []) + SenderEvents(p, Step(p, from, actions[0]), actions[1..])
  }

  lemma {:induction false} SenderFollowsReplay(p: Plan, from: Sys, actions: seq<Action>, to: Sys)
    requires Runs(p, from, actions, to) && Patient(actions) && 0 <= from.s.item < |p.items|
    ensures to.s == Replay(p, from.s, SenderEvents(p, from, actions))
    decreases |actions|
  {
    if actions == [] {
    } else {
      var next := Step(p, from, actions[0]);
      var rest := SenderEvents(p, next, actions[1..]);
      SenderFollowsReplay(p, next, actions[1..], to);
      if actions[0] == SenderHears {
        assert ([R.Heard(from.toSender[0])] + rest)[1..] == rest;
      } else if actions[0] == SenderRepeats {
        assert ([R.Repeated] + rest)[1..] == rest;
      } else {
        assert SenderEvents(p, from, actions) == rest;
      }
    }
  }

  /** What the receiver goes through in a run. */
  function ReceiverEvents(p: Plan, from: Sys, actions: seq<Action>): seq<R.Event<PacketSaw>>
    decreases |actions|
  {
    if actions == [] || !Enabled(p, from, actions[0]) || !(0 <= from.s.item < |p.items|) then []
    else
      (match actions[0]
       case ReceiverHears => [R.Heard(from.toReceiver[0])]
       case ReceiverRepeats => [R.Repeated]
       case _ => []) + ReceiverEvents(p, Step(p, from, actions[0]), actions[1..])
  }

  lemma {:induction false} ReceiverFollowsReplay(p: Plan, from: Sys, actions: seq<Action>, to: Sys)
    requires Runs(p, from, actions, to) && p.direction == Upload && !from.left
    ensures to.r == ReplayReceiver(p, from.r, ReceiverEvents(p, from, actions))
    decreases |actions|
  {
    if actions == [] {
    } else {
      var next := Step(p, from, actions[0]);
      var rest := ReceiverEvents(p, next, actions[1..]);
      ReceiverFollowsReplay(p, next, actions[1..], to);
      if actions[0] == ReceiverHears {
        assert ([R.Heard(from.toReceiver[0])] + rest)[1..] == rest;
      } else if actions[0] == ReceiverRepeats {
        assert ([R.Repeated] + rest)[1..] == rest;
      } else {
        assert ReceiverEvents(p, from, actions) == rest;
      }
    }
  }

  /**
   * What a completed `PerformUpload` is worth: if the client's socket went through the events of some run over
   * order-preserving channels and its loop ended past the last wait, the server in that run has everything, and has
   * finished exactly if the file is not empty.
   */
  lemma CompletedUploadIsDelivered(p: Plan, name: Bytes, source: Bytes, start: Sys, actions: seq<Action>, to: Sys)
    requires UploadPlan(p, name, source) && StopAndWait.Init(p, start) && Runs(p, start, actions, to)
    requires KeepsOrder(actions) && Patient(actions)
    requires Replay(p, start.s, SenderEvents(p, start, actions)).phase == Closed
    ensures FileOf(p, to.r) == source && (to.r.done <==> source != [])
  {
    SenderFollowsReplay(p, start, actions, to);
    assert Reachable(p, to);
    SawUploadSafety(p, name, source, to);
  }

  /**
   * And of the server's `PerformUpload`, when it has closed: its file is a prefix of the client's, and the whole of it
   * unless the client gave up.
   */
  lemma FinishedReception(p: Plan, name: Bytes, source: Bytes, start: Sys, actions: seq<Action>, to: Sys)
    requires UploadPlan(p, name, source) && StopAndWait.Init(p, start) && Runs(p, start, actions, to)
    requires KeepsOrder(actions) && ReplayReceiver(p, start.r, ReceiverEvents(p, start, actions)).done
    ensures FileOf(p, to.r) <= source
    ensures Patient(actions) ==> FileOf(p, to.r) == source
  {
    ReceiverFollowsReplay(p, start, actions, to);
    assert Reachable(p, to);
    SawUploadSafety(p, name, source, to);
    if Patient(actions) { PatientRun(p, start, actions, to); }
  }

  // ----- the acceptance tests, in the order in which they raise

  function CheckAck(bit: int): PacketSaw -> R.Verdict<()> {
    (q: PacketSaw) =>
      if !q.isAck then R.Reject(R.MessageIsNotAck)
      else if q.isFin then R.Reject(R.UnexpectedFinMessage)
      else if q.sequenceNumber != bit then R.Reject(R.InvalidSequenceNumber)
      else R.Accept(())
  }

  function CheckFinOrAck(bit: int): PacketSaw -> R.Verdict<()> {
    (q: PacketSaw) =>
      if q.sequenceNumber != bit then R.Reject(R.InvalidSequenceNumber)
      else if !q.isAck && !q.isFin then R.Reject(R.MessageNotFinNorAck)
      else R.Accept(())
  }

  function CheckChunk(bit: int): PacketSaw -> R.Verdict<PacketSaw> {
    (q: PacketSaw) => if q.sequenceNumber != bit then R.Reject(R.InvalidSequenceNumber) else R.Accept(q)
  }

  /** Which exception each test raises for which packet: what it wants, every other has one, and never the socket's. */
  lemma Verdicts(bit: int, q: PacketSaw)
    ensures CheckAck(bit)(q) == R.Accept(()) <==> q.isAck && !q.isFin && q.sequenceNumber == bit
    ensures CheckAck(bit)(q) == R.Reject(R.MessageIsNotAck) <==> !q.isAck
    ensures CheckAck(bit)(q) == R.Reject(R.UnexpectedFinMessage) <==> q.isAck && q.isFin
    ensures CheckAck(bit)(q) == R.Reject(R.InvalidSequenceNumber) <==> q.isAck && !q.isFin && q.sequenceNumber != bit
    ensures CheckFinOrAck(bit)(q) == R.Accept(()) <==> q.sequenceNumber == bit && (q.isAck || q.isFin)
    ensures CheckFinOrAck(bit)(q) == R.Reject(R.InvalidSequenceNumber) <==> q.sequenceNumber != bit
    ensures CheckFinOrAck(bit)(q) == R.Reject(R.MessageNotFinNorAck) <==>
              q.sequenceNumber == bit && !q.isAck && !q.isFin
    ensures CheckChunk(bit)(q) == R.Accept(q) <==> q.sequenceNumber == bit
    ensures CheckChunk(bit)(q) == R.Reject(R.InvalidSequenceNumber) <==> q.sequenceNumber != bit
  {
  }

  /**
   * Why a wait for an acknowledgement with this bit stopped: the socket failed; or the last packet heard was not the
   * one awaited, and either the attempts or the 30 s were used up, or it was a refusal where one is possible.
   */
  ghost predicate StopReason(e: R.Exception, bit: int, events: seq<R.Event<PacketSaw>>, refusable: bool, timeIsUp: bool)
  {
    || R.OfSocket(e)
    || (&& events != [] && events[|events| - 1].Heard?
        && var q := events[|events| - 1].packet;
           && !(q.isAck && !q.isFin && q.sequenceNumber == bit)
           && (|events| >= 300 || timeIsUp || (refusable && (!q.isAck || q.isFin))))
  }

  lemma StopReasonLater(e: R.Exception, bit: int, before: seq<R.Event<PacketSaw>>, events: seq<R.Event<PacketSaw>>,
                        refusable: bool, timeIsUp: bool)
    requires StopReason(e, bit, events, refusable, timeIsUp)
    ensures StopReason(e, bit, before + events, refusable, timeIsUp)
  {
  }

  /** The events so far, with the reason of a stop carried over. */
  lemma Append(before: seq<R.Event<PacketSaw>>, more: seq<R.Event<PacketSaw>>, failure: Option<R.Exception>, bit: int,
               refusable: bool, timeIsUp: bool) returns (events: seq<R.Event<PacketSaw>>)
    requires failure.Some? ==> StopReason(failure.value, bit, more, refusable, timeIsUp)
    ensures events == before + more
    ensures failure.Some? ==> StopReason(failure.value, bit, events, refusable, timeIsUp)
  {
    events := before + more;
  }

  lemma FlattenAfter(accepted: seq<Bytes>, from: nat, data: Bytes)
    requires from <= |accepted|
    ensures Flatten((accepted + [data])[from..]) == Flatten(accepted[from..]) + data
  {
    FlattenSnoc(accepted[from..], data);
    assert (accepted + [data])[from..] == accepted[from..] + [data];
  }

  type Socket = R.SocketSaw<PacketSaw>

  /** How an upload ends for the client. `Stopped` covers every exception after which it says nothing more. */
  datatype UploadEnd = Completed | SaidGoodbye | Stopped

  /** The client's side of an upload. */
  class SawUploader {
    const port: int
    const serverPort: int
    const socket: Socket
    const sequenceNumber: SequenceNumber

    constructor (socket: Socket, sequenceNumber: SequenceNumber, port: int, serverPort: int)
      ensures this.socket == socket && this.sequenceNumber == sequenceNumber
      ensures this.port == port && this.serverPort == serverPort
    {
      this.socket := socket;
      this.sequenceNumber := sequenceNumber;
      this.port := port;
      this.serverPort := serverPort;
    }

    /** The sender as a value, when `item` is the last item sent. */
    ghost function State(item: int, phase: SenderPhase): Sender
      requires socket.lastRawPacket.Some?
      reads socket, sequenceNumber
    {
      Sender(item, sequenceNumber.value, phase, socket.lastRawPacket.value, socket.sent)
    }

    ghost predicate Sends(p: Plan)
      reads sequenceNumber
    {
      && p.direction == Upload && p.senderPort == port && p.receiverPort == serverPort && p.items != []
      && sequenceNumber.protocol == StopAndWait
    }

    /** Step the bit and send one item; an error means that the socket is gone. */
    method SendItem(data: Bytes, isFin: bool, ghost p: Plan, ghost item: int) returns (ok: bool)
      requires Sends(p) && 0 <= item < |p.items| && p.items[item] == data
      requires isFin == (item == |p.items| - 1 && HasChunks(p)) && socket.lastRawPacket.Some?
      modifies socket, socket.world`timeline, sequenceNumber
      ensures Sends(p) && socket.lastRawPacket.Some? && socket.history == old(socket.history)
      ensures ok ==> State(item, Waiting) == NextItem(p, old(State(item - 1, Waiting)))
    {
      sequenceNumber.Step();
      var packet := PacketSaw(sequenceNumber.value, false, false, isFin, port, |data|, data);
      assert packet == DataPacket(p, item, sequenceNumber.value);
      ok := socket.Sendto(packet);
    }

    /**
     * Wait for the plain acknowledgement of an item that is not the last chunk. If the connection is lost meanwhile,
     * nothing has moved.
     */
    method WaitForAck(refusable: bool, ghost p: Plan, ghost item: int)
      returns (o: R.Outcome<()>, ghost events: seq<R.Event<PacketSaw>>)
      requires Sends(p) && 0 <= item < |p.items| && (item < |p.items| - 1 || !HasChunks(p))
      requires socket.lastRawPacket.Some?
      modifies socket, socket.world
      ensures Sends(p) && socket.lastRawPacket.Some? && socket.history == old(socket.history) + events
      ensures o.Returned? ==>
                Replay(p, old(State(item, Waiting)), events) == MoveOn(p, State(item, Waiting))
      ensures o == R.Threw(R.ConnectionLost) ==>
                Replay(p, old(State(item, Waiting)), events) == State(item, Waiting)
      ensures socket.world.now >= old(socket.world.now)
      ensures o.Threw? ==>
                StopReason(o.error, sequenceNumber.value, events, refusable,
                           socket.world.now >= old(socket.world.now) + 30.0)
    {
      var listens;
      forall q: PacketSaw { Verdicts(sequenceNumber.value, q); }
      ghost var s := State(item, Waiting);
      o, listens, events := socket.ReListenIfFailed(
        CheckAck(sequenceNumber.value), if refusable then Some([R.UnexpectedFinMessage, R.MessageIsNotAck]) else None);
      if o.Returned? {
        ghost var unwanted, last := events[..|events| - 1], events[|events| - 1];
        ReplayUnwanted(p, s, unwanted);
        ReplayConcat(p, s, unwanted, [last]);
        assert unwanted + [last] == events;
      } else {
        ReplayUnwanted(p, s, events);
      }
    }

    /** Send one item and wait until it is confirmed. */
    method SendAndWait(data: Bytes, refusable: bool, ghost p: Plan, ghost item: int)
      returns (failure: Option<R.Exception>, ghost events: seq<R.Event<PacketSaw>>)
      requires Sends(p) && 0 <= item < |p.items| && (item < |p.items| - 1 || !HasChunks(p))
      requires p.items[item] == data && socket.lastRawPacket.Some?
      modifies socket, socket.world, sequenceNumber
      ensures Sends(p) && socket.lastRawPacket.Some?
      ensures socket.history == old(socket.history) + events
      ensures failure == None ==>
                Replay(p, NextItem(p, old(State(item - 1, Waiting))), events) == MoveOn(p, State(item, Waiting))
      ensures failure == Some(R.ConnectionLost) ==>
                Replay(p, NextItem(p, old(State(item - 1, Waiting))), events) == State(item, Waiting)
      ensures socket.world.now >= old(socket.world.now)
      ensures failure.Some? ==>
                StopReason(failure.value, sequenceNumber.value, events, refusable,
                           socket.world.now >= old(socket.world.now) + 30.0)
    {
      events := [];
      var ok := SendItem(data, false, p, item);
      if !ok {
        return Some(R.SocketShutdown), events;
      }
      var o;
      o, events := WaitForAck(refusable, p, item);
      failure := if o.Returned? then None else Some(o.error);
    }

    /** Where the sender stands when it begins its last wait. */
    ghost function AllSent(p: Plan): Sender
      requires socket.lastRawPacket.Some?
      reads socket, sequenceNumber
    {
      State(|p.items| - 1, if HasChunks(p) then Waiting else LastWait)
    }

    /** The chunk loop: every chunk but the last is confirmed before the next is sent. An empty file sends nothing. */
    method SendFile(chunks: seq<Bytes>, ghost p: Plan)
      returns (failure: Option<R.Exception>, ghost item: int, ghost events: seq<R.Event<PacketSaw>>)
      requires Sends(p) && |p.items| == |chunks| + 2 && p.items[2..] == chunks
      requires socket.lastRawPacket.Some?
      modifies socket, socket.world, sequenceNumber
      ensures Sends(p) && socket.lastRawPacket.Some? && socket.history == old(socket.history) + events
      ensures failure == None ==> Replay(p, MoveOn(p, old(State(1, Waiting))), events) == AllSent(p)
      ensures failure == Some(R.ConnectionLost) ==>
                Replay(p, MoveOn(p, old(State(1, Waiting))), events) == State(item, Waiting)
      ensures socket.world.now >= old(socket.world.now)
      ensures failure.Some? ==>
                StopReason(failure.value, sequenceNumber.value, events, false,
                           socket.world.now >= old(socket.world.now) + 30.0)
    {
      failure := None;
      item := 1;
      events := [];
      ghost var start := MoveOn(p, State(1, Waiting));
      for i := 0 to |chunks|
        invariant Sends(p) && socket.lastRawPacket.Some?
        invariant socket.history == old(socket.history) + events && failure == None
        invariant socket.world.now >= old(socket.world.now)
        invariant Replay(p, start, events)
                  == if i == |chunks| then AllSent(p) else MoveOn(p, State(i + 1, Waiting))
      {
        assert p.items[i + 2] == chunks[i];
        item := i + 2;
        if i == |chunks| - 1 {
          var ok := SendItem(chunks[i], true, p, i + 2);
          failure := if ok then None else Some(R.SocketShutdown);
        } else {
          ghost var more;
          failure, more := SendAndWait(chunks[i], false, p, i + 2);
          ReplayConcat(p, start, events, more);
          if failure.Some? {
            StopReasonLater(failure.value, sequenceNumber.value, events, more, false,
                            socket.world.now >= old(socket.world.now) + 30.0);
          }
          events := events + more;
        }
        if failure.Some? {
          return;
        }
      }
    }

    /** The last wait, for an acknowledgement or a FIN, and then the closing acknowledgement. */
    method InitiateCloseConnection(ghost p: Plan)
      returns (failure: Option<R.Exception>, ghost events: seq<R.Event<PacketSaw>>)
      requires Sends(p) && socket.lastRawPacket.Some?
      modifies socket, socket.world, sequenceNumber
      ensures Sends(p) && socket.lastRawPacket.Some? && socket.history == old(socket.history) + events
      ensures failure == None ==> Replay(p, old(AllSent(p)), events) == State(|p.items| - 1, Closed)
      ensures failure == Some(R.ConnectionLost) ==> Replay(p, old(AllSent(p)), events) == AllSent(p)
      ensures socket.world.now >= old(socket.world.now)
      ensures failure.Some? ==>
                StopReason(failure.value, sequenceNumber.value, events, false,
                           socket.world.now >= old(socket.world.now) + 30.0)
    {
      var o, listens;
      forall q: PacketSaw { Verdicts(sequenceNumber.value, q); }
      ghost var s := AllSent(p);
      o, listens, events := socket.ReListenIfFailed(CheckFinOrAck(sequenceNumber.value), None);
      if o.Threw? {
        ReplayUnwanted(p, s, events);
        return Some(o.error), events;
      }
      ghost var unwanted, last := events[..|events| - 1], events[|events| - 1];
      ReplayUnwanted(p, s, unwanted);
      ReplayConcat(p, s, unwanted, [last]);
      assert unwanted + [last] == events;
      sequenceNumber.Step();
      var ok := socket.Sendto(PacketSaw(sequenceNumber.value, true, false, false, port, 0, []));
      failure := if ok then None else Some(R.SocketShutdown);
    }

    /** After a lost connection: an acknowledgement and a FIN, with the next bit. */
    method SayGoodbye(ghost p: Plan, ghost item: int, ghost phase: SenderPhase) returns (ok: bool)
      requires Sends(p) && socket.lastRawPacket.Some?
      modifies socket`lastRawPacket, socket`sent, socket.world`timeline, sequenceNumber
      ensures socket.lastRawPacket.Some?
      ensures ok ==> State(item, GaveUp) == GiveUp(p, old(State(item, phase)))
    {
      sequenceNumber.Step();
      ok := socket.Sendto(PacketSaw(sequenceNumber.value, true, false, false, port, 0, []));
      if !ok { return; }
      ok := socket.Sendto(PacketSaw(sequenceNumber.value, false, false, true, serverPort, 0, []));
      if !ok { return; }
      sequenceNumber.Step();
    }

    /** The name and the size, which the server may refuse. */
    method InformSizeAndName(name: Bytes, filesize: nat, ghost p: Plan)
      returns (failure: Option<R.Exception>, ghost item: int, ghost events: seq<R.Event<PacketSaw>>)
      requires Sends(p) && filesize < MAX_UINT && |p.items| >= 2 && p.items[0] == name && p.items[1] == UInt(filesize)
      requires socket.lastRawPacket.Some?
      modifies socket, socket.world, sequenceNumber
      ensures Sends(p) && socket.lastRawPacket.Some? && socket.history == old(socket.history) + events
      ensures failure == None ==>
                Replay(p, NextItem(p, old(State(-1, Waiting))), events) == MoveOn(p, State(1, Waiting))
      ensures failure == Some(R.ConnectionLost) ==>
                Replay(p, NextItem(p, old(State(-1, Waiting))), events) == State(item, Waiting)
      ensures socket.world.now >= old(socket.world.now)
      ensures failure.Some? ==>
                StopReason(failure.value, sequenceNumber.value, events, true,
                           socket.world.now >= old(socket.world.now) + 30.0)
    {
      ghost var start := NextItem(p, State(-1, Waiting));
      ghost var begin := socket.world.now;
      ghost var more;
      item := 0;
      failure, events := SendAndWait(name, true, p, 0);
      if failure.Some? { return; }
      item := 1;
      failure, more := SendAndWait(UInt(filesize), true, p, 1);
      ReplayConcat(p, start, events, more);
      events := Append(events, more, failure, sequenceNumber.value, true, socket.world.now >= begin + 30.0);
    }

    /** Name, size, chunks and the last wait. */
    method TryUpload(name: Bytes, filesize: nat, chunks: seq<Bytes>, ghost p: Plan)
      returns (failure: Option<R.Exception>, ghost item: int, ghost phase: SenderPhase,
               ghost events: seq<R.Event<PacketSaw>>, ghost informed: bool)
      requires Sends(p) && filesize < MAX_UINT && p.items == [name, UInt(filesize)] + chunks
      requires socket.lastRawPacket.Some?
      modifies socket, socket.world, sequenceNumber
      ensures Sends(p) && socket.lastRawPacket.Some? && socket.history == old(socket.history) + events
      ensures failure == None ==>
                Replay(p, NextItem(p, old(State(-1, Waiting))), events) == State(|p.items| - 1, Closed)
      ensures failure == Some(R.ConnectionLost) ==>
                && (phase == Waiting || phase == LastWait)
                && Replay(p, NextItem(p, old(State(-1, Waiting))), events) == State(item, phase)
      ensures failure.Some? ==>
                StopReason(failure.value, sequenceNumber.value, events, !informed,
                           socket.world.now >= old(socket.world.now) + 30.0)
    {
      ghost var start := NextItem(p, State(-1, Waiting));
      ghost var begin := socket.world.now;
      ghost var more;
      phase := Waiting;
      informed := false;
      failure, item, events := InformSizeAndName(name, filesize, p);
      if failure.Some? { return; }
      informed := true;
      failure, item, more := SendFile(chunks, p);
      ReplayConcat(p, start, events, more);
      events := Append(events, more, failure, sequenceNumber.value, false, socket.world.now >= begin + 30.0);
      if failure.Some? { return; }
      item, phase := |p.items| - 1, if HasChunks(p) then Waiting else LastWait;
      failure, more := InitiateCloseConnection(p);
      ReplayConcat(p, start, events, more);
      events := Append(events, more, failure, sequenceNumber.value, false, socket.world.now >= begin + 30.0);
    }

    /**
     * The whole upload. If it completes, the client is exactly where the protocol's sender is after the same packets
     * and timeouts, past its last wait; and if it says goodbye, exactly where that sender is when it then gives up. It
     * stops for no other reason than those of its waits; `bit` is the one it was waiting for.
     */
    method PerformUpload(name: Bytes, filesize: nat, chunks: seq<Bytes>, ghost p: Plan)
      returns (end: UploadEnd, failure: Option<R.Exception>, ghost item: int, ghost events: seq<R.Event<PacketSaw>>,
               ghost informed: bool, ghost bit: int)
      requires Sends(p) && filesize < MAX_UINT && p.items == [name, UInt(filesize)] + chunks
      requires socket.lastRawPacket.Some?
      modifies socket, socket.world, sequenceNumber
      ensures socket.lastRawPacket.Some? && socket.history == old(socket.history) + events
      ensures var s := Replay(p, NextItem(p, old(State(-1, Waiting))), events);
              match end
              case Completed => s == State(|p.items| - 1, Closed)
              case SaidGoodbye => (s.phase == Waiting || s.phase == LastWait) && GiveUp(p, s) == State(item, GaveUp)
              case Stopped => true
      ensures end == Completed <==> failure == None
      ensures end == SaidGoodbye ==> failure == Some(R.ConnectionLost)
      ensures failure.Some? ==>
                StopReason(failure.value, bit, events, !informed, socket.world.now >= old(socket.world.now) + 30.0)
    {
      ghost var phase;
      failure, item, phase, events, informed := TryUpload(name, filesize, chunks, p);
      bit := sequenceNumber.value;
      end := if failure == None then Completed else Stopped;
      if failure == Some(R.ConnectionLost) {
        var ok := SayGoodbye(p, item, phase);
        if ok {
          end := SaidGoodbye;
        }
      }
    }
  }

  /** The server's side of an upload, once the filename and the size are accepted. */
  class SawFileReceiver {
    const port: int
    const socket: Socket
    const sequenceNumber: SequenceNumber
    var file: Bytes

    constructor (socket: Socket, sequenceNumber: SequenceNumber, port: int)
      ensures this.socket == socket && this.sequenceNumber == sequenceNumber && this.port == port && file == []
    {
      this.socket := socket;
      this.sequenceNumber := sequenceNumber;
      this.port := port;
      file := [];
    }

    ghost function State(bit: int, accepted: seq<Bytes>, done: bool): Receiver
      requires socket.lastRawPacket.Some?
      reads socket
    {
      Receiver(bit, accepted, done, socket.lastRawPacket.value, socket.sent)
    }

    ghost predicate Receives(p: Plan)
      reads sequenceNumber
    {
      p.direction == Upload && p.receiverPort == port && sequenceNumber.protocol == StopAndWait
    }

    /** The exceptions that end a reception: a packet with the wrong bit, or what the socket itself raises. */
    static predicate EndsReception(e: R.Exception) {
      e == R.InvalidSequenceNumber || R.OfSocket(e)
    }

    /** And a wrong bit only when it was the last thing heard and the attempts or the 30 s were used up. */
    static ghost predicate StopsReception(e: R.Exception, bit: int, events: seq<R.Event<PacketSaw>>, timeIsUp: bool) {
      && EndsReception(e)
      && (e == R.InvalidSequenceNumber ==>
            && events != [] && events[|events| - 1].Heard? && events[|events| - 1].packet.sequenceNumber != bit
            && (|events| >= 300 || timeIsUp))
    }

    /** One chunk: acknowledged unless it is the FIN, and appended to the file. */
    method ReceiveSingleChunk(ghost p: Plan, ghost accepted: seq<Bytes>)
      returns (packet: PacketSaw, failure: Option<R.Exception>, ghost events: seq<R.Event<PacketSaw>>)
      requires Receives(p) && |accepted| >= 2 && socket.lastRawPacket.Some?
      modifies this`file, socket, socket.world
      ensures socket.lastRawPacket.Some? && socket.history == old(socket.history) + events
      ensures failure == None ==> file == old(file) + packet.data && socket.world.supply < old(socket.world.supply)
      ensures failure == None ==>
                var r := State(sequenceNumber.value, accepted + [packet.data], packet.isFin);
                ReplayReceiver(p, old(State(sequenceNumber.value, accepted, false)), events)
                == if packet.isFin
                   then Reply(Reply(r, AckPacket(p, r.bit)), FinPacket(p, r.bit))
                   else r.(bit := StepSaw(r.bit))
      ensures socket.world.now >= old(socket.world.now)
      ensures failure.Some? ==>
                && file == old(file)
                && StopsReception(failure.value, sequenceNumber.value, events,
                                  socket.world.now >= old(socket.world.now) + 30.0)
    {
      var o, listens;
      forall q: PacketSaw { Verdicts(sequenceNumber.value, q); }
      ghost var r := State(sequenceNumber.value, accepted, false);
      o, listens, events := socket.ReListenIfFailed(CheckChunk(sequenceNumber.value), None);
      if o.Threw? {
        return *, Some(o.error), events;
      }
      packet := o.value;
      ghost var unwanted, last := events[..|events| - 1], events[|events| - 1];
      ReplayReceiverUnwanted(p, r, unwanted);
      ReplayReceiverConcat(p, r, unwanted, [last]);
      assert unwanted + [last] == events;
      if !packet.isFin {
        var ok := socket.Sendto(PacketSaw(sequenceNumber.value, true, false, false, port, 0, []));
        if !ok {
          return packet, Some(R.SocketShutdown), events;
        }
      }
      file := file + packet.data;
      failure := None;
    }

    /**
     * The receive loop, which ends on the FIN chunk: the server is then where the protocol's receiver is after the
     * same packets and timeouts, but for the two packets it closes with.
     */
    method ReceiveFile(ghost p: Plan, ghost before: seq<Bytes>)
      returns (failure: Option<R.Exception>, ghost accepted: seq<Bytes>, ghost events: seq<R.Event<PacketSaw>>)
      requires Receives(p) && |before| >= 2 && socket.lastRawPacket.Some?
      modifies this`file, socket, socket.world, sequenceNumber
      ensures Receives(p) && socket.lastRawPacket.Some? && socket.history == old(socket.history) + events
      ensures before <= accepted && file == old(file) + Flatten(accepted[|before|..])
      ensures failure == None ==>
                ReplayReceiver(p, old(State(StepSaw(sequenceNumber.value), before, false)), events)
                == var r := State(sequenceNumber.value, accepted, true);
                   Reply(Reply(r, AckPacket(p, r.bit)), FinPacket(p, r.bit))
      ensures failure == None ==> sequenceNumber.value == 0 || sequenceNumber.value == 1
      ensures socket.world.now >= old(socket.world.now)
      ensures failure.Some? ==>
                StopsReception(failure.value, sequenceNumber.value, events,
                               socket.world.now >= old(socket.world.now) + 30.0)
    {
      failure := None;
      accepted := before;
      events := [];
      ghost var start := State(StepSaw(sequenceNumber.value), before, false);
      var finished := false;
      while !finished
        invariant Receives(p) && socket.lastRawPacket.Some? && failure == None
        invariant socket.world.now >= old(socket.world.now)
        invariant socket.history == old(socket.history) + events
        invariant before <= accepted && file == old(file) + Flatten(accepted[|before|..])
        invariant ReplayReceiver(p, start, events)
                  == if finished then
                       var r := State(sequenceNumber.value, accepted, true);
                       Reply(Reply(r, AckPacket(p, r.bit)), FinPacket(p, r.bit))
                     else State(StepSaw(sequenceNumber.value), accepted, false)
        invariant finished ==> sequenceNumber.value == 0 || sequenceNumber.value == 1
        decreases socket.world.supply
      {
        sequenceNumber.Step();
        ghost var more;
        var packet;
        packet, failure, more := ReceiveSingleChunk(p, accepted);
        ReplayReceiverConcat(p, start, events, more);
        events := events + more;
        if failure.Some? {
          return;
        }
        FlattenAfter(accepted, |before|, packet.data);
        accepted := accepted + [packet.data];
        finished := packet.isFin;
      }
    }

    /** The acknowledgement of the FIN chunk and the server's own FIN; only after both is the bit stepped. */
    method SendClosingPackets(ghost p: Plan, ghost accepted: seq<Bytes>) returns (ok: bool)
      requires Receives(p) && socket.lastRawPacket.Some?
      modifies socket`lastRawPacket, socket`sent, socket.world`timeline, sequenceNumber
      ensures socket.lastRawPacket.Some?
      ensures ok ==>
                var r := old(State(sequenceNumber.value, accepted, true));
                && State(r.bit, accepted, true) == Reply(Reply(r, AckPacket(p, r.bit)), FinPacket(p, r.bit))
                && sequenceNumber.value == StepSaw(r.bit)
    {
      ok := socket.Sendto(PacketSaw(sequenceNumber.value, true, false, false, port, 0, []));
      if !ok { return; }
      ok := socket.Sendto(PacketSaw(sequenceNumber.value, false, false, true, port, 0, []));
      if !ok { return; }
      sequenceNumber.Step();
    }

    /**
     * The chunks and the closing packets. If both are done, the server is exactly where the protocol's receiver is
     * after the same packets and timeouts, finished, and has appended everything that receiver accepted. Closing
     * packets that cannot be sent are no failure of the upload.
     */
    method PerformUpload(ghost p: Plan, ghost before: seq<Bytes>)
      returns (failure: Option<R.Exception>, closed: bool,
               ghost accepted: seq<Bytes>, ghost events: seq<R.Event<PacketSaw>>)
      requires Receives(p) && |before| >= 2 && socket.lastRawPacket.Some?
      modifies this`file, socket, socket.world, sequenceNumber
      ensures socket.lastRawPacket.Some? && socket.history == old(socket.history) + events
      ensures before <= accepted && file == old(file) + Flatten(accepted[|before|..])
      ensures closed ==>
                && failure == None
                && ReplayReceiver(p, old(State(StepSaw(sequenceNumber.value), before, false)), events)
                   == State(StepSaw(sequenceNumber.value), accepted, true)
      ensures failure.Some? ==>
                StopsReception(failure.value, sequenceNumber.value, events,
                               socket.world.now >= old(socket.world.now) + 30.0)
    {
      closed := false;
      failure, accepted, events := ReceiveFile(p, before);
      if failure == None {
        closed := SendClosingPackets(p, accepted);
      }
    }
  }
}
