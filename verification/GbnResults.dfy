/** What the go-back-N data phase guarantees in every reachable state, for uploads and for downloads. */
module GbnResults {
  import opened Chunking
  import opened PacketFormat
  import opened SequenceNumbers
  import opened GoBackN
  import opened GbnSystem

  /** An upload of `source`: the configuration phase has used numbers up to 3, and the size fits its 4-byte field. */
  ghost predicate IsUpload(t: Transfer, source: Bytes) {
    && t.side == Client && t.first == 0 && t.offset == 4
    && 0 < |source| < MAX_UINT && t.chunks == Split(source, FILE_CHUNK_SIZE_GBN)
    && Stale(t, t.resend)
  }

  /** A download of `source`, longer than one chunk: chunk 0 has been delivered with sequence number 2. */
  ghost predicate IsDownload(t: Transfer, source: Bytes) {
    && t.side == Server && t.first == 1 && t.offset == 2
    && |source| > FILE_CHUNK_SIZE_GBN && t.chunks == Split(source, FILE_CHUNK_SIZE_GBN)
    && |t.chunks| + 2 <= MAX_SEQUENCE_NUMBER
    && Stale(t, t.resend)
  }

  lemma UploadOk(t: Transfer, source: Bytes)
    requires IsUpload(t, source)
    ensures TransferOk(t) && Flatten(t.chunks) == source
    ensures t.offset + |t.chunks| <= 3_033_174
  {
    ChunkCountOfUpload(source);
    SplitIsLossless(source, FILE_CHUNK_SIZE_GBN);
  }

  lemma DownloadOk(t: Transfer, source: Bytes)
    requires IsDownload(t, source)
    ensures TransferOk(t) && Flatten(t.chunks) == source
  {
    SplitIsLossless(source, FILE_CHUNK_SIZE_GBN);
    SplitIsLossless(source[FILE_CHUNK_SIZE_GBN..], FILE_CHUNK_SIZE_GBN);
  }

  // ----- no counter wraps

  /** No number anywhere, in an endpoint or in a datagram, is above `bound`. */
  ghost predicate NumbersUpTo(sys: Sys, bound: int) {
    && sys.s.w.base <= bound && sys.s.w.next <= bound && sys.s.w.ack <= bound
    && sys.r.sqn <= bound && sys.r.ack <= bound
    && (forall p :: p in sys.toReceiver ==> p.sequenceNumber <= bound && p.ackNumber <= bound)
    && (forall p :: p in sys.toSender ==> p.sequenceNumber <= bound && p.ackNumber <= bound)
  }

  lemma StepNumbers(t: Transfer, sys: Sys, a: Action)
    requires Inv(t, sys) && Enabled(t, sys, a) && NumbersUpTo(sys, t.offset + |t.chunks| + 1)
    ensures NumbersUpTo(Step(t, sys, a), t.offset + |t.chunks| + 1)
  {
    StepInv(t, sys, a);
  }

  lemma {:induction false} RunNumbers(t: Transfer, from: Sys, actions: seq<Action>, to: Sys)
    requires Inv(t, from) && Runs(t, from, actions, to) && NumbersUpTo(from, t.offset + |t.chunks| + 1)
    ensures NumbersUpTo(to, t.offset + |t.chunks| + 1)
    decreases |actions|
  {
    if actions == [] {
    } else {
      StepInv(t, from, actions[0]);
      StepNumbers(t, from, actions[0]);
      RunNumbers(t, Step(t, from, actions[0]), actions[1..], to);
    }
  }

  /** No number of a transfer goes more than one beyond the label that would follow its last chunk. */
  lemma NumbersStayBounded(t: Transfer, sys: Sys)
    requires Reachable(t, sys)
    ensures NumbersUpTo(sys, t.offset + |t.chunks| + 1)
  {
    var start: Sys, actions: seq<Action> :| Init(t, start) && Runs(t, start, actions, sys);
    InitInv(t, start);
    RunNumbers(t, start, actions, sys);
  }

  /**
   * In every reachable state of an upload whose size fits its field, all counters of both ends and all numbers in
   * flight are far below the maximum sequence number, so that stepping any counter is adding one.
   */
  lemma UploadNeverWraps(t: Transfer, source: Bytes, sys: Sys)
    requires IsUpload(t, source) && Reachable(t, sys)
    ensures NumbersUpTo(sys, 3_033_175) && 3_033_175 < MAX_SEQUENCE_NUMBER
    ensures StepGbn(sys.s.w.next) == sys.s.w.next + 1
    ensures StepGbn(sys.r.sqn) == sys.r.sqn + 1 && StepGbn(sys.r.ack) == sys.r.ack + 1
  {
    UploadOk(t, source);
    NumbersStayBounded(t, sys);
  }

  /** How many chunks the receiver has written. */
  function Stored(t: Transfer, r: Receiver): int {
    match r.phase
    case FirstChunk => t.first
    case Receiving => Min(r.sqn - t.offset, |t.chunks| - 1)
    case Done => |t.chunks|
  }

  lemma StoredIsFile(t: Transfer, sys: Sys)
    requires Inv(t, sys)
    ensures t.first <= Stored(t, sys.r) <= |t.chunks|
    ensures sys.r.file == Flatten(t.chunks[..Stored(t, sys.r)])
    ensures Stored(t, sys.r) == |t.chunks| <==> sys.r.phase == Done
    ensures sys.s.w.base <= Stored(t, sys.r)
  {
    assert t.chunks[..|t.chunks|] == t.chunks;
  }

  lemma FlattenMonotone(chunks: seq<Bytes>, j: nat, k: nat)
    requires j <= k <= |chunks|
    ensures Flatten(chunks[..j]) <= Flatten(chunks[..k])
  {
    FlattenPrefix(chunks[..k], j);
    assert chunks[..k][..j] == chunks[..j];
  }

  /** A receiver's file is whole exactly when the receiver is done, and a prefix of the source at all times. */
  lemma FileIsPrefix(t: Transfer, sys: Sys)
    requires Inv(t, sys)
    ensures sys.r.file <= Flatten(t.chunks)
    ensures sys.r.file == Flatten(t.chunks) <==> sys.r.phase == Done
  {
    StoredIsFile(t, sys);
    FlattenPrefix(t.chunks, Stored(t, sys.r));
  }

  /**
   * Upload safety. Whatever the network loses, repeats or reorders, the server's file is the concatenation of the
   * first k chunks: none while it waits for the first one, as many as its sequence number counts while it
   * receives, all of them once the FIN chunk is accepted, and the whole file only then.
   */
  lemma UploadSafety(t: Transfer, source: Bytes, sys: Sys)
    requires IsUpload(t, source) && Reachable(t, sys)
    ensures sys.r.file <= source
    ensures sys.r.phase == FirstChunk ==> sys.r.file == []
    ensures sys.r.phase == Receiving ==>
              && 0 <= sys.r.sqn - t.offset < |t.chunks|
              && sys.r.file == Flatten(t.chunks[..sys.r.sqn - t.offset])
    ensures sys.r.file == source <==> sys.r.phase == Done
  {
    UploadOk(t, source);
    ReachableInv(t, sys);
    FileIsPrefix(t, sys);
  }

  /**
   * Download safety. The client's file is chunk 0 followed by the in-order prefix of the others, although copies
   * of chunk 0 keep arriving; chunk i always travels with sequence number 2 + i.
   */
  lemma DownloadSafety(t: Transfer, source: Bytes, sys: Sys)
    requires IsDownload(t, source) && Reachable(t, sys)
    ensures source[..FILE_CHUNK_SIZE_GBN] <= sys.r.file <= source
    ensures sys.r.phase == FirstChunk ==> sys.r.file == source[..FILE_CHUNK_SIZE_GBN]
    ensures exists k :: 1 <= k <= |t.chunks| && sys.r.file == Flatten(t.chunks[..k])
    ensures sys.r.file == source <==> sys.r.phase == Done
    ensures forall p :: p in sys.s.outbox ==>
              exists i :: 1 <= i < |t.chunks| && p.sequenceNumber == 2 + i && p.data == t.chunks[i]
  {
    DownloadOk(t, source);
    ReachableInv(t, sys);
    FileIsPrefix(t, sys);
    StoredIsFile(t, sys);
    FlattenMonotone(t.chunks, 1, Stored(t, sys.r));
    assert t.chunks[..1] == [source[..FILE_CHUNK_SIZE_GBN]];
    assert [source[..FILE_CHUNK_SIZE_GBN]][1..] == [];
    var start: Sys, actions: seq<Action> :| Init(t, start) && Runs(t, start, actions, sys);
    InitInv(t, start);
    OutboxIsChunks(t, start, actions, sys);
    forall p | p in sys.s.outbox
      ensures exists i :: 1 <= i < |t.chunks| && p.sequenceNumber == 2 + i && p.data == t.chunks[i]
    {
      assert IsChunk(t, |t.chunks|, p);
      var i := p.sequenceNumber - 2;
      assert p.data == t.chunks[i];
    }
  }

  lemma StepOutbox(t: Transfer, sys: Sys, a: Action)
    requires Inv(t, sys) && Enabled(t, sys, a)
    ensures var s' := Step(t, sys, a).s;
            || s'.outbox == sys.s.outbox
            || (a == SendsChunk && s'.outbox == sys.s.outbox + [ChunkPacket(t, sys.s.w.next, sys.s.w.ack)])
  {
  }

  lemma {:induction false} OutboxIsChunks(t: Transfer, from: Sys, actions: seq<Action>, to: Sys)
    requires Inv(t, from) && Runs(t, from, actions, to)
    requires forall p :: p in from.s.outbox ==> IsChunk(t, |t.chunks|, p)
    ensures forall p :: p in to.s.outbox ==> IsChunk(t, |t.chunks|, p)
    decreases |actions|
  {
    if actions == [] {
    } else {
      var next := Step(t, from, actions[0]);
      StepInv(t, from, actions[0]);
      StepOutbox(t, from, actions[0]);
      assert forall p :: p in next.s.outbox ==> IsChunk(t, |t.chunks|, p);
      OutboxIsChunks(t, next, actions[1..], to);
    }
  }

  /**
   * The window across both endpoints, in every reachable state: the base and the acknowledgement number move
   * together, nothing is sent beyond the window, no acknowledgement in flight claims more than the receiver has,
   * everything before the base is in the receiver's file, and the time lost on old acknowledgements never adds up
   * to the timeout without the window being sent again.
   */
  lemma WindowSafety(t: Transfer, sys: Sys)
    requires Reachable(t, sys)
    ensures sys.s.w.base + t.offset == sys.s.w.ack
    ensures 0 <= sys.s.w.base <= |t.chunks| - 1
    ensures sys.s.w.base <= sys.s.w.next <= Min(sys.s.w.base + WINDOW_SIZE, |t.chunks|)
    ensures Flatten(t.chunks[..sys.s.w.base]) <= sys.r.file
    ensures forall p :: p in sys.toSender ==>
              && p.ackNumber <= sys.r.ack
              && (p.isFin ==> p.ackNumber == t.offset + |t.chunks| - 1 && sys.r.file == Flatten(t.chunks))
    ensures sys.r.ack - t.offset <= sys.high + (if Derailed(t, sys.s, sys.r, sys.high) then 1 else 0)
    ensures sys.high <= Min(sys.s.w.base + WINDOW_SIZE, |t.chunks|)
    ensures sys.s.w.spent < SOCKET_RETRANSMIT_WINDOW_TIMEOUT
  {
    ReachableInv(t, sys);
    StoredIsFile(t, sys);
    FlattenMonotone(t.chunks, sys.s.w.base, Stored(t, sys.r));
    forall p | p in sys.toSender
      ensures p.ackNumber <= sys.r.ack
      ensures p.isFin ==> p.ackNumber == t.offset + |t.chunks| - 1 && sys.r.file == Flatten(t.chunks)
    {
      assert AckSound(t, sys.r, p);
    }
  }

  /**
   * The client's sender at its exit: the FIN chunk has been sent, the receiver lacks at most the last chunk, the
   * returned numbers are those a finished receiver closes with, and the packet kept for retransmission, if any,
   * is the FIN chunk.
   */
  lemma ClientExit(t: Transfer, sys: Sys)
    requires Reachable(t, sys) && t.side == Client && sys.s.phase == Finished
    ensures |t.chunks| > 0 && WasSent(t, sys.toReceiver, |t.chunks| - 1)
    ensures Flatten(t.chunks[..|t.chunks| - 1]) <= sys.r.file
    ensures sys.s.w.next + t.offset - 1 == t.offset + |t.chunks| - 1 == sys.s.w.ack
    ensures sys.r.phase == Done ==>
              forall p :: p in Closing(t, sys.r) ==>
                            p.sequenceNumber == sys.s.w.next + t.offset - 1 && p.ackNumber == sys.s.w.ack
    ensures sys.s.lastRaw.Some? ==>
              sys.s.lastRaw.value.isFin && sys.s.lastRaw.value.data == t.chunks[|t.chunks| - 1]
  {
    ReachableInv(t, sys);
    WindowSafety(t, sys);
  }

  /**
   * The server's sender at its exit may not have sent the last chunk at all, and then the sequence number it returns
   * is one short. Either way the receiver lacks at most that chunk.
   */
  lemma ServerExit(t: Transfer, sys: Sys)
    requires Reachable(t, sys) && t.side == Server && sys.s.phase == Finished
    ensures |t.chunks| > 0 && (WasSent(t, sys.toReceiver, |t.chunks| - 1) <==> sys.s.w.next == |t.chunks|)
    ensures sys.s.w.next == |t.chunks| || sys.s.w.next == |t.chunks| - 1
    ensures Flatten(t.chunks[..|t.chunks| - 1]) <= sys.r.file
    ensures sys.s.w.ack == t.offset + |t.chunks| - 1
  {
    ReachableInv(t, sys);
    WindowSafety(t, sys);
    var last := |t.chunks| - 1;
    if WasSent(t, sys.toReceiver, last) {
      var ack :| ChunkPacket(t, last, ack) in sys.toReceiver;
      assert t.chunks[last] != [];
    }
  }

  /** Until the first window is out, the sender has done nothing but send it. */
  predicate FirstWindowOut(t: Transfer, sys: Sys) {
    || sys.high >= Min(t.first + WINDOW_SIZE, |t.chunks|)
    || (sys.s.phase == Sending && sys.s.w.base == t.first && sys.s.w.next == sys.high)
  }

  lemma {:induction false} RunFirstWindow(t: Transfer, from: Sys, actions: seq<Action>, to: Sys)
    requires Inv(t, from) && Runs(t, from, actions, to) && FirstWindowOut(t, from)
    ensures FirstWindowOut(t, to)
    decreases |actions|
  {
    if actions == [] {
    } else {
      StepInv(t, from, actions[0]);
      RunFirstWindow(t, Step(t, from, actions[0]), actions[1..], to);
    }
  }

  /** A sender that has finished has had its whole first window out. */
  lemma FinishedAfterFirstWindow(t: Transfer, sys: Sys)
    requires Reachable(t, sys) && sys.s.phase == Finished
    ensures sys.high >= Min(t.first + WINDOW_SIZE, |t.chunks|)
  {
    var start: Sys, actions: seq<Action> :| Init(t, start) && Runs(t, start, actions, sys);
    InitInv(t, start);
    RunFirstWindow(t, start, actions, sys);
  }

  /** A FIN believed to answer the last chunk proves the whole file is there, on both sides. */
  lemma FinBackIsSound(t: Transfer, sys: Sys)
    requires Reachable(t, sys) && sys.s.finBack
    ensures sys.r.phase == Done && sys.r.file == Flatten(t.chunks)
  {
    ReachableInv(t, sys);
  }

  /** When the closing wait ends on a FIN, or was not needed, the transfer is complete. */
  lemma FinCompletionIsSound(t: Transfer, sys: Sys, p: PacketGbn)
    requires Reachable(t, sys) && Enabled(t, sys, SenderCloses(p)) && (sys.s.finBack || p.isFin)
    ensures sys.r.file == Flatten(t.chunks)
  {
    ReachableInv(t, sys);
    if !sys.s.finBack { assert AckSound(t, sys.r, p); }
  }

  /**
   * The branch that would read an unset duration cannot be reached: the server's sender stops early only on a
   * packet that is neither acknowledgement nor FIN, and then always. The client's sender never stops early.
   */
  lemma SenderStopsOnlyOnNeither(t: Transfer, sys: Sys, p: PacketGbn, duration: real)
    requires Reachable(t, sys) && Enabled(t, sys, SenderHears(p, duration))
    ensures var s := Step(t, sys, SenderHears(p, duration)).s;
            && (s.phase.Failed? <==> t.side == Server && !p.isAck && !p.isFin)
            && s.phase != Failed(UnboundReceptionDuration)
  {
    ReachableInv(t, sys);
    StepInv(t, sys, SenderHears(p, duration));
    assert AckSound(t, sys.r, p);
  }
}
