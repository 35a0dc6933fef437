/**
 * What the go-back-N data phase does not guarantee, and exactly when it does: whether the server's sender always sends
 * its last chunk, whether an answered closing wait proves that the last chunk arrived, and whether an old datagram can
 * stop a download all depend on the number of chunks alone.
 */
module GbnCounterexamples {
  import opened Chunking
  import opened PacketFormat
  import opened SequenceNumbers
  import opened GoBackN
  import opened GbnSystem
  import opened GbnProgress
  import opened GbnResults
  import GbnConfiguration
  import GbnDownloadStart

  // ----- small runs

  /** The first window of a transfer, sent from the start. */
  lemma FirstWindow(t: Transfer, start: Sys) returns (sys: Sys)
    requires Init(t, start)
    ensures Inv(t, sys) && Reachable(t, sys)
    ensures sys.s.phase == if t.first + 1 == |t.chunks| then Finished else Awaiting
    ensures sys.s.w.base == t.first && sys.s.w.next == sys.high == Limit(t, sys.s.w)
    ensures sys.r == start.r && sys.toSender == start.toSender && !sys.s.finBack
  {
    InitInv(t, start);
    BurstEffect(t, start.s);
    sys := SettleLeads(t, start);
    assert Runs(t, start, [], start);
    ReachableLeads(t, start, sys);
  }

  /** Of every chunk that was ever sent, some copy can be heard. */
  lemma SomeCopy(t: Transfer, sys: Sys, i: int) returns (p: PacketGbn)
    requires Inv(t, sys) && t.first <= i < sys.high
    ensures p in sys.toReceiver && i < |t.chunks| && p == ChunkPacket(t, i, p.ackNumber)
  {
    assert WasSent(t, sys.toReceiver, i);
    var ack :| ChunkPacket(t, i, ack) in sys.toReceiver;
    p := ChunkPacket(t, i, ack);
  }

  /** Chunk `i` is heard; nothing but the receiver and what it answers changes. */
  lemma HearChunk(t: Transfer, sys: Sys, i: int) returns (sys': Sys, p: PacketGbn)
    requires Inv(t, sys) && t.first <= i < sys.high
    ensures i < |t.chunks| && p == ChunkPacket(t, i, p.ackNumber) && sys'.r == Deliver(t, sys.r, p)
    ensures Leads(t, sys, sys') && Inv(t, sys') && sys'.s == sys.s && sys'.high == sys.high
    ensures forall q :: q in Replies(t, sys.r, p) ==> q in sys'.toSender
  {
    p := SomeCopy(t, sys, i);
    sys' := Hear(t, sys, p);
  }

  /** The first chunk is heard twice: once to be peeked at and once to be stored. */
  lemma PeekAndStoreFirst(t: Transfer, sys: Sys) returns (sys': Sys)
    requires Inv(t, sys) && sys.r.phase == FirstChunk && t.first < sys.high && t.first + 1 < |t.chunks|
    ensures Leads(t, sys, sys') && Inv(t, sys') && sys'.s == sys.s && sys'.high == sys.high
    ensures InOrder(t, sys'.r) && sys'.r.sqn == t.offset + t.first + 1
  {
    var peeked, p := HearChunk(t, sys, t.first);
    var q;
    sys', q := HearChunk(t, peeked, t.first);
    LeadsTrans(t, sys, peeked, sys');
  }

  /** The expected chunk, not the last one, is stored and acknowledged with its own number. */
  lemma StoreNext(t: Transfer, sys: Sys) returns (sys': Sys)
    requires Inv(t, sys) && InOrder(t, sys.r) && sys.r.sqn - t.offset < sys.high
    requires sys.r.sqn - t.offset + 1 < |t.chunks|
    ensures Leads(t, sys, sys') && Inv(t, sys') && sys'.s == sys.s && sys'.high == sys.high
    ensures InOrder(t, sys'.r) && sys'.r.sqn == sys.r.sqn + 1
    ensures AckPacket(t, sys.r.sqn, sys.r.sqn) in sys'.toSender
  {
    var p;
    sys', p := HearChunk(t, sys, sys.r.sqn - t.offset);
    assert Replies(t, sys.r, p) == [AckPacket(t, sys.r.sqn, sys.r.sqn)];
  }

  /** Chunks up to `hi` are stored, and the last of them acknowledged, while the sender does nothing. */
  ghost predicate StoredUpTo(t: Transfer, from: Sys, to: Sys, hi: int) {
    && Leads(t, from, to) && Inv(t, to) && to.s == from.s && to.high == from.high
    && InOrder(t, to.r) && to.r.sqn - t.offset == hi
    && AckPacket(t, t.offset + hi - 1, t.offset + hi - 1) in to.toSender
  }

  lemma StoreOneMore(t: Transfer, from: Sys, sys: Sys, hi: int) returns (sys': Sys)
    requires StoredUpTo(t, from, sys, hi) && hi < sys.high && hi + 1 < |t.chunks|
    ensures StoredUpTo(t, from, sys', hi + 1)
  {
    sys' := StoreNext(t, sys);
    LeadsTrans(t, from, sys, sys');
  }

  /** Chunks in their order, none of them the last. */
  lemma StoreInOrder(t: Transfer, sys: Sys, hi: int) returns (sys': Sys)
    requires Inv(t, sys) && InOrder(t, sys.r) && sys.r.sqn - t.offset < hi <= sys.high && hi < |t.chunks|
    ensures StoredUpTo(t, sys, sys', hi)
  {
    sys' := StoreNext(t, sys);
    for k := sys.r.sqn - t.offset + 1 to hi
      invariant StoredUpTo(t, sys, sys', k) && sys'.high == sys.high
    {
      sys' := StoreOneMore(t, sys, sys', k);
    }
  }

  /** A copy of a chunk already stored is answered with the number still expected. */
  lemma HearCopy(t: Transfer, sys: Sys, i: int) returns (sys': Sys)
    requires Inv(t, sys) && InOrder(t, sys.r) && t.first <= i < sys.r.sqn - t.offset
    ensures Leads(t, sys, sys') && Inv(t, sys') && sys'.s == sys.s && sys'.high == sys.high
    ensures sys'.r.(outbox := sys.r.outbox) == sys.r && sys.toSender <= sys'.toSender
    ensures AckPacket(t, sys.r.sqn, sys.r.sqn) in sys'.toSender
  {
    var p := SomeCopy(t, sys, i);
    sys' := Hear(t, sys, p);
    assert Replies(t, sys.r, p) == [AckPacket(t, sys.r.sqn, sys.r.sqn)];
  }

  /** The sender listens with its base at `b` and its window out; the receiver has stored chunk `b`, and no more. */
  ghost predicate SlidTo(t: Transfer, sys: Sys, b: int) {
    && Inv(t, sys) && sys.s.phase == Awaiting && !sys.s.finBack
    && sys.s.w.base == b && sys.s.w.next == sys.high == Limit(t, sys.s.w)
    && InOrder(t, sys.r) && sys.r.sqn - t.offset == b + 1
  }

  /** A repeated acknowledgement moves the base by one, the next chunk is sent, and the one expected is stored. */
  lemma SlideByOne(t: Transfer, sys: Sys, b: int) returns (sys': Sys)
    requires SlidTo(t, sys, b) && b + 2 < |t.chunks|
    ensures Leads(t, sys, sys') && SlidTo(t, sys', b + 1)
  {
    var repeated := HearCopy(t, sys, b);
    var p := AckPacket(t, t.offset + b + 1, t.offset + b + 1);
    BurstEffect(t, OnEvent(t, repeated.s, Arrives(p, 0.0)));
    var moved := SenderHearsLeads(t, repeated, p, 0.0);
    sys' := StoreNext(t, moved);
    LeadsTrans(t, sys, repeated, moved);
    LeadsTrans(t, sys, moved, sys');
  }

  lemma Slide(t: Transfer, start: Sys, b: int) returns (sys: Sys)
    requires Init(t, start) && t.first <= b && b + 1 < |t.chunks|
    ensures Reachable(t, sys) && SlidTo(t, sys, b)
  {
    var sent := FirstWindow(t, start);
    sys := PeekAndStoreFirst(t, sent);
    ReachableLeads(t, sent, sys);
    for k := t.first to b
      invariant Reachable(t, sys) && SlidTo(t, sys, k)
    {
      var before := sys;
      sys := SlideByOne(t, before, k);
      ReachableLeads(t, before, sys);
    }
  }

  // ----- the server's sender leaves before its last chunk is sent

  /** The base jumps to the last chunk over a whole window, and the loop ends without another send phase. */
  lemma JumpToLast(t: Transfer, sys: Sys) returns (exit: Sys)
    requires Inv(t, sys) && t.side == Server && sys.s.phase == Awaiting && !sys.s.finBack
    requires sys.s.w.next == |t.chunks| - 1
    requires AckPacket(t, t.offset + |t.chunks| - 1, t.offset + |t.chunks| - 1) in sys.toSender
    ensures Leads(t, sys, exit) && Inv(t, exit) && exit.r == sys.r && exit.toSender == sys.toSender
    ensures exit.s.phase == Finished && !exit.s.finBack && exit.s.w.next == |t.chunks| - 1
  {
    var p := AckPacket(t, t.offset + |t.chunks| - 1, t.offset + |t.chunks| - 1);
    var a := SenderHears(p, 0.0);
    exit := Step(t, sys, a);
    LeadsStep(t, sys, a);
    StepInv(t, sys, a);
  }

  /** Everything sent, which is all but the last chunk, is stored; and one copy is heard again. */
  lemma StoreAllAndRepeat(t: Transfer, sys: Sys, b: int) returns (sys': Sys)
    requires SlidTo(t, sys, b) && b + WINDOW_SIZE == |t.chunks| - 1
    ensures Leads(t, sys, sys') && Inv(t, sys') && sys'.s == sys.s
    ensures InOrder(t, sys'.r) && sys'.r.sqn == t.offset + |t.chunks| - 1
    ensures AckPacket(t, t.offset + |t.chunks| - 2, t.offset + |t.chunks| - 2) in sys'.toSender
    ensures AckPacket(t, t.offset + |t.chunks| - 1, t.offset + |t.chunks| - 1) in sys'.toSender
  {
    var stored := StoreInOrder(t, sys, |t.chunks| - 1);
    sys' := HearCopy(t, stored, t.first);
    LeadsTrans(t, sys, stored, sys');
  }

  /** Once the base is a window short of the last chunk, everything sent is stored and one copy is heard again. */
  lemma WindowStored(t: Transfer, start: Sys) returns (sys: Sys)
    requires Init(t, start) && t.side == Server && |t.chunks| >= WINDOW_SIZE + 2
    ensures Reachable(t, sys) && Inv(t, sys) && sys.s.phase == Awaiting && !sys.s.finBack
    ensures sys.s.w.next == |t.chunks| - 1
    ensures InOrder(t, sys.r) && sys.r.sqn == t.offset + |t.chunks| - 1
    ensures AckPacket(t, t.offset + |t.chunks| - 2, t.offset + |t.chunks| - 2) in sys.toSender
    ensures AckPacket(t, t.offset + |t.chunks| - 1, t.offset + |t.chunks| - 1) in sys.toSender
  {
    var b := |t.chunks| - 1 - WINDOW_SIZE;
    var slid := Slide(t, start, b);
    sys := StoreAllAndRepeat(t, slid, b);
    ReachableLeads(t, slid, sys);
  }

  /**
   * For every file of more than one window plus one chunk: once the base is a window short of the last chunk, let only
   * the acknowledgement repeated after that window get through, and the sender leaves before its last chunk is sent.
   */
  lemma EarlyExit(t: Transfer, start: Sys) returns (exit: Sys)
    requires Init(t, start) && t.side == Server && |t.chunks| >= WINDOW_SIZE + 2
    ensures Reachable(t, exit) && exit.s.phase == Finished && !exit.s.finBack
    ensures exit.s.w.next == |t.chunks| - 1 && !WasSent(t, exit.toReceiver, |t.chunks| - 1)
    ensures InOrder(t, exit.r) && exit.r.sqn == t.offset + |t.chunks| - 1
    ensures AckPacket(t, t.offset + |t.chunks| - 2, t.offset + |t.chunks| - 2) in exit.toSender
  {
    var stored := WindowStored(t, start);
    exit := JumpToLast(t, stored);
    ReachableLeads(t, stored, exit);
    LastChunkCounted(t, exit);
  }

  /** The last chunk was sent exactly if the count of chunks sent includes it. */
  lemma LastChunkCounted(t: Transfer, sys: Sys)
    requires Inv(t, sys)
    ensures WasSent(t, sys.toReceiver, |t.chunks| - 1) <==> sys.high == |t.chunks|
  {
    var last := |t.chunks| - 1;
    if WasSent(t, sys.toReceiver, last) {
      var ack :| ChunkPacket(t, last, ack) in sys.toReceiver;
      assert t.chunks[last] != [];
    }
  }

  /** Whatever happens, the last chunk has been sent when the sender leaves its loop. */
  ghost predicate AlwaysSendsLastChunk(t: Transfer) {
    forall sys: Sys :: Reachable(t, sys) && sys.s.phase == Finished ==> SentLastChunk(t, sys)
  }

  ghost predicate SentLastChunk(t: Transfer, sys: Sys) {
    |t.chunks| > 0 && WasSent(t, sys.toReceiver, |t.chunks| - 1)
  }

  /**
   * The exact boundary: the client's sender always sends its last chunk, the server's exactly for files of at most a
   * window plus the chunk that was delivered before it began.
   */
  lemma LastChunkIsSent(t: Transfer, start: Sys)
    requires Init(t, start)
    ensures AlwaysSendsLastChunk(t) <==> t.side == Client || |t.chunks| <= 11
  {
    if t.side == Client || |t.chunks| <= WINDOW_SIZE + 1 {
      forall sys: Sys | Reachable(t, sys) && sys.s.phase == Finished ensures SentLastChunk(t, sys) {
        ReachableInv(t, sys);
        FinishedAfterFirstWindow(t, sys);
        LastChunkCounted(t, sys);
      }
    } else {
      var exit := EarlyExit(t, start);
      assert !SentLastChunk(t, exit);
    }
  }

  /**
   * What then happens: the old acknowledgement of the last chunk sent ends the closing wait, so the server reports
   * the transfer complete; and its closing acknowledgement carries the number of the missing chunk, so the client
   * takes it for that chunk, writes nothing, and moves on.
   */
  lemma EarlyExitDerails(t: Transfer, start: Sys) returns (reported: Sys, derailed: Sys)
    requires Init(t, start) && t.side == Server && |t.chunks| >= WINDOW_SIZE + 2
    ensures Reachable(t, reported) && Reachable(t, derailed)
    ensures exists p :: Enabled(t, reported, SenderCloses(p)) && p.isAck
    ensures reported.r.phase != Done && Derailed(t, derailed.s, derailed.r, derailed.high)
  {
    reported := EarlyExit(t, start);
    ReachableInv(t, reported);
    var p := AckPacket(t, t.offset + |t.chunks| - 2, t.offset + |t.chunks| - 2);
    var a := SenderCloses(p);
    assert Enabled(t, reported, a);
    var closed := Step(t, reported, a);
    LeadsStep(t, reported, a);
    StepInv(t, reported, a);
    derailed := Hear(t, closed, ClosingAck(t, closed.s));
    LeadsTrans(t, reported, closed, derailed);
    ReachableLeads(t, reported, derailed);
  }

  /** A derailed download never recovers: no run from there completes the client's file. */
  lemma {:induction false} DerailedForever(t: Transfer, from: Sys, actions: seq<Action>, to: Sys)
    requires Inv(t, from) && Derailed(t, from.s, from.r, from.high) && Runs(t, from, actions, to)
    ensures Derailed(t, to.s, to.r, to.high)
    decreases |actions|
  {
    if actions == [] {
    } else {
      StepInv(t, from, actions[0]);
      DerailedForever(t, Step(t, from, actions[0]), actions[1..], to);
    }
  }

  // ----- an acknowledgement does not prove delivery

  /**
   * For every transfer of at least two chunks in the window: the sender can leave its loop and have its closing wait
   * answered while the receiver lacks the last chunk; and a client has then kept no packet to retransmit.
   */
  lemma AckCompletionWithoutDelivery(t: Transfer, start: Sys) returns (sys: Sys, answer: PacketGbn)
    requires Init(t, start) && t.first + 2 <= |t.chunks|
    ensures Reachable(t, sys) && Enabled(t, sys, SenderCloses(answer)) && answer.isAck && !answer.isFin
    ensures sys.r.phase == Receiving && sys.r.file == Flatten(t.chunks[..|t.chunks| - 1])
    ensures !sys.s.finBack && (t.side == Client ==> sys.s.lastRaw == None)
  {
    var last := |t.chunks| - 1;
    var slid := Slide(t, start, last - 1);
    var repeated := HearCopy(t, slid, t.first);
    answer := AckPacket(t, t.offset + last, t.offset + last);
    BurstEffect(t, OnEvent(t, repeated.s, Arrives(answer, 0.0)));
    sys := SenderHearsLeads(t, repeated, answer, 0.0);
    LeadsTrans(t, slid, repeated, sys);
    ReachableLeads(t, slid, sys);
  }

  /** The other way round: when only the FIN gets through, the sender ends with the FIN back and the file is there. */
  lemma FinCanComeBack(t: Transfer, start: Sys) returns (sys: Sys)
    requires Init(t, start) && t.first + 2 <= |t.chunks|
    ensures Reachable(t, sys) && sys.s.finBack && sys.s.phase == Finished && sys.r.phase == Done
  {
    var slid := Slide(t, start, |t.chunks| - 2);
    var done, p := HearChunk(t, slid, |t.chunks| - 1);
    var closed := CloseIfDone(t, done);
    var fin := FinPacket(t, done.r.sqn, done.r.ack);
    assert fin == Closing(t, done.r)[1];
    LeadsTrans(t, slid, done, closed);
    sys := SenderHearsLeads(t, closed, fin, 0.0);
    LeadsTrans(t, slid, closed, sys);
    ReachableLeads(t, slid, sys);
  }

  /** The closing wait answered by a packet with this FIN flag means that the receiver has the whole file. */
  ghost predicate AnswerProvesDelivery(t: Transfer, fin: bool) {
    forall sys: Sys, p: PacketGbn ::
      Reachable(t, sys) && !sys.s.finBack && Enabled(t, sys, SenderCloses(p)) && p.isFin == fin ==>
        sys.r.file == Flatten(t.chunks)
  }

  /**
   * The exact boundary, for uploads and downloads alike: of the two answers the closing wait takes, the FIN always
   * proves delivery, and the acknowledgement exactly if there was only one chunk to send.
   */
  lemma OnlyFinProvesDelivery(t: Transfer, start: Sys, fin: bool)
    requires Init(t, start)
    ensures AnswerProvesDelivery(t, fin) <==> fin || |t.chunks| == t.first + 1
  {
    if fin || |t.chunks| == t.first + 1 {
      forall sys: Sys, p: PacketGbn
        | Reachable(t, sys) && !sys.s.finBack && Enabled(t, sys, SenderCloses(p)) && p.isFin == fin
        ensures sys.r.file == Flatten(t.chunks)
      {
        if fin { FinCompletionIsSound(t, sys, p); } else { OneChunkAnswered(t, sys, p); }
      }
    } else {
      var sys, answer := AckCompletionWithoutDelivery(t, start);
      FlattenPrefix(t.chunks, |t.chunks| - 1);
    }
  }

  /** With one chunk to send the receiver is done as soon as it hears it, and says nothing with its number before. */
  ghost predicate OneChunkInv(t: Transfer, sys: Sys) {
    && sys.r.phase != Receiving
    && (sys.r.phase == FirstChunk ==> forall p :: p in sys.toSender ==> p.sequenceNumber < t.offset + t.first)
  }

  lemma OneChunkStep(t: Transfer, sys: Sys, a: Action)
    requires Inv(t, sys) && |t.chunks| == t.first + 1 && OneChunkInv(t, sys) && Enabled(t, sys, a)
    ensures OneChunkInv(t, Step(t, sys, a))
  {
    if a.ReceiverHears? && sys.r.phase == FirstChunk && a.packet.sequenceNumber == sys.r.ack + 1 {
      assert IsChunk(t, sys.high, a.packet);
    }
  }

  lemma {:induction false} OneChunkRun(t: Transfer, from: Sys, actions: seq<Action>, to: Sys)
    requires Inv(t, from) && |t.chunks| == t.first + 1 && OneChunkInv(t, from) && Runs(t, from, actions, to)
    ensures OneChunkInv(t, to)
    decreases |actions|
  {
    if actions == [] {
    } else {
      StepInv(t, from, actions[0]);
      OneChunkStep(t, from, actions[0]);
      OneChunkRun(t, Step(t, from, actions[0]), actions[1..], to);
    }
  }

  lemma OneChunkAnswered(t: Transfer, sys: Sys, p: PacketGbn)
    requires Reachable(t, sys) && |t.chunks| == t.first + 1 && !sys.s.finBack && Enabled(t, sys, SenderCloses(p))
    ensures sys.r.file == Flatten(t.chunks)
  {
    ReachableInv(t, sys);
    var start: Sys, actions: seq<Action> :| Init(t, start) && Runs(t, start, actions, sys);
    InitInv(t, start);
    OneChunkRun(t, start, actions, sys);
  }

  // ----- a late copy of the request stops the server's sender

  /** Some run ends with the sender stopped on a packet that is neither acknowledgement nor FIN. */
  ghost predicate CanBeStopped(t: Transfer, start: Sys) {
    exists actions: seq<Action>, sys: Sys ::
      Runs(t, start, actions, sys) && sys.s.phase == Failed(NotAckMessage)
  }

  lemma {:induction false} StopsOnlyFromWaiting(t: Transfer, from: Sys, actions: seq<Action>, to: Sys)
    requires Inv(t, from) && Runs(t, from, actions, to) && |t.chunks| == t.first + 1 && !from.s.phase.Failed?
    ensures !to.s.phase.Failed?
    decreases |actions|
  {
    if actions == [] {
    } else {
      StepInv(t, from, actions[0]);
      StopsOnlyFromWaiting(t, Step(t, from, actions[0]), actions[1..], to);
    }
  }

  /**
   * One old datagram in flight that is neither acknowledgement nor FIN can end a download exactly if the window has
   * more than one chunk to send: with only one, the sender never listens.
   */
  lemma LateRequestStopsDownload(t: Transfer, start: Sys, p: PacketGbn)
    requires Init(t, start) && t.side == Server
    requires p in start.toSender && !p.isAck && !p.isFin
    ensures CanBeStopped(t, start) <==> |t.chunks| > 2
  {
    InitInv(t, start);
    if |t.chunks| > 2 {
      BurstEffect(t, start.s);
      var sent := SettleLeads(t, start);
      var a := SenderHears(p, 0.0);
      var stopped := Step(t, sent, a);
      LeadsStep(t, sent, a);
      LeadsTrans(t, start, sent, stopped);
      var actions: seq<Action> :| Runs(t, start, actions, stopped);
    } else if CanBeStopped(t, start) {
      var actions: seq<Action>, sys: Sys :| Runs(t, start, actions, sys) && sys.s.phase == Failed(NotAckMessage);
      StopsOnlyFromWaiting(t, start, actions, sys);
    }
  }

  /** The datagram is there: in every download the filename is still in flight when the window takes over. */
  lemma FilenameStopsDownload(q: GbnDownloadStart.Request, begin: GbnDownloadStart.Hand,
                              hand: seq<GbnDownloadStart.Action>, h: GbnDownloadStart.Hand)
    requires GbnDownloadStart.Init(q, begin) && GbnDownloadStart.Runs(q, begin, hand, h) && h.server.Started?
    requires |q.source| > FILE_CHUNK_SIZE_GBN
    requires |Split(q.source, FILE_CHUNK_SIZE_GBN)| + 2 <= MAX_SEQUENCE_NUMBER
    ensures var t := GbnDownloadStart.DownloadOf(q);
            CanBeStopped(t, GbnDownloadStart.DataPhase(q, h)) <==> |t.chunks| > 2
  {
    GbnDownloadStart.FirstChunkStartsDownload(q, begin, hand, h);
    LateRequestStopsDownload(GbnDownloadStart.DownloadOf(q), GbnDownloadStart.DataPhase(q, h),
                             GbnDownloadStart.NamePacket(q));
  }

  // ----- an empty file

  lemma {:induction false} FoldKeepsOutbox(t: Transfer, s: Sender, events: seq<Event>)
    requires NoWrap(t) && Counts(s.w)
    ensures s.outbox <= FoldEvents(t, s, events).outbox
    decreases |events|
  {
    if s.phase != Awaiting || events == [] {
    } else {
      var s1 := OnEvent(t, s, events[0]);
      OnEventEffect(t, s, events[0]);
      BurstEffect(t, s1);
      FoldKeepsOutbox(t, Settle(t, s1), events[1..]);
    }
  }

  /**
   * The client's send loop sends anything at all, and so a FIN, exactly when the file is not empty. For an empty
   * file it ends at once with numbers that differ by one.
   */
  lemma OnlyEmptyFilesSendNothing(t: Transfer, events: seq<Event>)
    requires NoWrap(t) && t.side == Client && t.first == 0
    ensures var s := FoldEvents(t, Settle(t, StartSender(t)), events);
            && (s.outbox == [] <==> t.chunks == [])
            && (t.chunks == [] ==> s.phase == Finished && s.w.next + t.offset - 1 == s.w.ack - 1)
  {
    var s := StartSender(t);
    BurstEffect(t, s);
    FoldKeepsOutbox(t, Settle(t, s), events);
  }

  /**
   * Those numbers are answered by nothing: when the client of an empty file starts its closing wait, no datagram the
   * server has sent ends it, and until the client gives up there will be no other.
   */
  lemma EmptyUploadIsNeverAnswered(o: GbnConfiguration.Offer, begin: GbnConfiguration.Cfg,
                                   actions: seq<GbnConfiguration.Action>, c: GbnConfiguration.Cfg, p: PacketGbn)
    requires o.source == [] && GbnConfiguration.Init(o, begin) && GbnConfiguration.Runs(o, begin, actions, c)
    requires c.client.Started? && p in c.toClient
    ensures var t := GbnConfiguration.UploadOf(o);
            !CloseAccepts(t, FoldEvents(t, Settle(t, StartSender(t)), []), p)
  {
    GbnConfiguration.RunInv(o, begin, actions, c);
  }
}
