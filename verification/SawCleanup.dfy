/** What an upload in stop-and-wait mode leaves on the server's disk. */
module SawCleanup {
  import opened Chunking
  import opened PacketFormat
  import opened Cleanup
  import R = RetryEngine
  import S = StopAndWait
  import SawEndpoints
  import W = SawResults
  import X = SawCounterexamples

  /** In one wait the server hears `n` packets in a row and accepts none of them. */
  ghost predicate HearsInVain(p: S.Plan, from: S.Sys, n: nat, to: S.Sys)
    requires 0 <= from.s.item < |p.items|
    decreases n
  {
    if n == 0 then from == to
    else
      && S.Enabled(p, from, S.ReceiverHears) && !S.ReceiverAccepts(p, from.r, from.toReceiver[0])
      && HearsInVain(p, S.Step(p, from, S.ReceiverHears), n - 1, to)
  }

  /** The wait has used up its attempts, each on a packet that was heard. */
  ghost predicate WaitedInVain(p: S.Plan, sys: S.Sys, patient: bool) {
    exists from: S.Sys ::
      && 0 <= from.s.item < |p.items| && S.ReachableOver(p, from, true, patient)
      && HearsInVain(p, from, R.MAX_RETRANSMISSION_ATTEMPTS, sys)
  }

  /** What can end the wait for a chunk where the server stands. */
  ghost predicate RaisedInWait(p: S.Plan, sys: S.Sys, e: Failure, patient: bool) {
    && |sys.r.accepted| >= 2 && !sys.r.done && EndsWait(e)
    && (e == InvalidSequenceNumber ==> WaitedInVain(p, sys, patient))
  }

  /** A packet that is not accepted changes nothing but the log. */
  lemma {:induction false} VainRun(p: S.Plan, from: S.Sys, n: nat, d: PacketSaw, patient: bool) returns (to: S.Sys)
    requires S.ReachableOver(p, from, true, patient) && 0 <= from.s.item < |p.items| && !from.r.done && !from.left
    requires !S.ReceiverAccepts(p, from.r, d)
    requires |from.toReceiver| >= n && forall j :: 0 <= j < n ==> from.toReceiver[j] == d
    ensures S.ReachableOver(p, to, true, patient) && HearsInVain(p, from, n, to)
    ensures to.r.accepted == from.r.accepted && !to.r.done
    decreases n
  {
    if n == 0 {
      to := from;
    } else {
      var next := X.Extend(p, from, S.ReceiverHears, true, patient);
      to := VainRun(p, next, n - 1, d, patient);
    }
  }

  /** The sender, waiting for an acknowledgement that is lost, repeats its item `n` times. */
  lemma Repeats(p: S.Plan, sys: S.Sys, n: nat, patient: bool) returns (sys': S.Sys)
    requires S.ReachableOver(p, sys, true, patient) && 0 <= sys.s.item < |p.items| && !sys.left
    requires sys.toReceiver == []
    ensures S.ReachableOver(p, sys', true, patient) && sys'.s.item == sys.s.item && sys'.r == sys.r && !sys'.left
    ensures |sys'.toReceiver| == n && forall j :: 0 <= j < n ==> sys'.toReceiver[j] == sys.s.lastRaw
  {
    sys' := sys;
    for k := 0 to n
      invariant S.ReachableOver(p, sys', true, patient) && sys'.s.item == sys.s.item && sys'.r == sys.r && !sys'.left
      invariant sys'.s.lastRaw == sys.s.lastRaw
      invariant |sys'.toReceiver| == k && forall j :: 0 <= j < k ==> sys'.toReceiver[j] == sys.s.lastRaw
    {
      sys' := X.Extend(p, sys', S.SenderRepeats, true, patient);
    }
  }

  /**
   * With any number of chunks stored short of all, a wait can end on a packet with the wrong bit: the acknowledgement
   * of the last stored chunk is lost, and copies of that chunk use up the attempts.
   */
  lemma SequenceNumberEscapes(p: S.Plan, name: Bytes, source: Bytes, stored: nat, patient: bool) returns (sys: S.Sys)
    requires W.UploadPlan(p, name, source) && stored < |Split(source, FILE_CHUNK_SIZE_SAW)|
    ensures S.ReachableOver(p, sys, true, patient) && RaisedInWait(p, sys, InvalidSequenceNumber, patient)
    ensures sys.r.accepted == p.items[..stored + 2]
  {
    var sent := X.ReachItem(p, stored + 1);
    var accepted := X.AcceptItem(p, sent, stored + 1);
    X.Relax(p, accepted, true, patient);
    var repeated := Repeats(p, accepted, R.MAX_RETRANSMISSION_ATTEMPTS, patient);
    sys := VainRun(p, repeated, R.MAX_RETRANSMISSION_ATTEMPTS, accepted.s.lastRaw, patient);
  }

  /** An upload ends where the server stands: it is finished, or a wait fails with part of its bytes on disk. */
  ghost predicate StopsAt(p: S.Plan, sys: S.Sys, patient: bool, e: Option<Failure>, flushed: Bytes) {
    match e
    case None => sys.r.done && flushed == W.FileOf(p, sys.r)
    case Some(x) => RaisedInWait(p, sys, x, patient) && flushed <= W.FileOf(p, sys.r)
  }

  predicate LeftDamaged(before: map<Bytes, Bytes>, name: Bytes, source: Bytes, e: Option<Failure>, flushed: Bytes,
                        size: Option<nat>)
  {
    LeavesDamage(before, Left(before, name, flushed, size, e), name, source)
  }

  lemma PartIsLeft(before: map<Bytes, Bytes>, name: Bytes, source: Bytes, flushed: Bytes, size: Option<nat>)
    requires name !in before && |flushed| < |source|
    ensures LeftDamaged(before, name, source, Some(InvalidSequenceNumber), flushed, size)
  {
    PartIsDamage(before, name, flushed, source, InvalidSequenceNumber, Some(name), size);
  }

  ghost predicate StopsWithDamage(p: S.Plan, name: Bytes, source: Bytes, before: map<Bytes, Bytes>, patient: bool,
                                  e: Option<Failure>, sys: S.Sys, flushed: Bytes)
  {
    && S.ReachableOver(p, sys, true, patient) && StopsAt(p, sys, patient, e, flushed)
    && LeftDamaged(before, name, source, e, flushed, W.SizeOf(sys.r))
  }

  ghost predicate StopAndWaitCanDamage(p: S.Plan, name: Bytes, source: Bytes, before: map<Bytes, Bytes>, patient: bool,
                                       e: Option<Failure>)
  {
    exists sys: S.Sys, flushed: Bytes :: StopsWithDamage(p, name, source, before, patient, e, sys, flushed)
  }

  lemma OnlyTheseDamage(p: S.Plan, name: Bytes, source: Bytes, before: map<Bytes, Bytes>, patient: bool,
                        e: Option<Failure>, sys: S.Sys, flushed: Bytes)
    requires W.UploadPlan(p, name, source) && name !in before
    requires StopsWithDamage(p, name, source, before, patient, e, sys, flushed)
    ensures source != []
    ensures if patient then e == Some(InvalidSequenceNumber) else e == None || EndsWait(e.value)
  {
    W.SawUploadSafety(p, name, source, sys);
    if patient { S.PatientlyReached(p, sys); }
    if e.Some? && RunsCleanup(e.value) && W.SizeOf(sys.r) == Some(|source|) {
      KeepsOnlyTheWhole(before, name, flushed, source, e.value);
    }
  }

  lemma PartIsShorter(source: Bytes, stored: nat)
    requires stored < |Split(source, FILE_CHUNK_SIZE_SAW)|
    ensures |Flatten(Split(source, FILE_CHUNK_SIZE_SAW)[..stored])| < |source|
  {
    SplitIsLossless(source, FILE_CHUNK_SIZE_SAW);
    FlattenPrefix(Split(source, FILE_CHUNK_SIZE_SAW), stored);
  }

  /** A wrong sequence number does damage with any number of chunks on disk, short of all. */
  lemma SequenceNumberDamages(p: S.Plan, name: Bytes, source: Bytes, before: map<Bytes, Bytes>, stored: nat,
                              patient: bool) returns (sys: S.Sys)
    requires W.UploadPlan(p, name, source) && name !in before && stored < |Split(source, FILE_CHUNK_SIZE_SAW)|
    ensures StopsWithDamage(p, name, source, before, patient, Some(InvalidSequenceNumber), sys,
                            Flatten(Split(source, FILE_CHUNK_SIZE_SAW)[..stored]))
  {
    sys := SequenceNumberEscapes(p, name, source, stored, patient);
    W.FileOfItems(p, name, source, sys.r, stored + 2);
    PartIsShorter(source, stored);
    PartIsLeft(before, name, source, Flatten(Split(source, FILE_CHUNK_SIZE_SAW)[..stored]), W.SizeOf(sys.r));
  }

  /** After a goodbye taken for a size of zero, every failure of the wait keeps the empty file. */
  lemma ZeroSizeDamages(p: S.Plan, name: Bytes, source: Bytes, before: map<Bytes, Bytes>, e: Failure)
    returns (sys: S.Sys)
    requires W.UploadPlan(p, name, source) && name !in before && source != []
    requires EndsWait(e) && e != InvalidSequenceNumber
    ensures StopsWithDamage(p, name, source, before, false, Some(e), sys, [])
  {
    sys := X.GoodbyeZeroesSize(p);
    EmptyIsDamage(before, name, source, Some(e), Some(0));
  }

  /** After a goodbye taken for the last chunk, the upload ends without any failure. */
  lemma TruncationDamages(p: S.Plan, name: Bytes, source: Bytes, before: map<Bytes, Bytes>) returns (sys: S.Sys)
    requires W.UploadPlan(p, name, source) && name !in before && source != []
    ensures StopsWithDamage(p, name, source, before, false, None, sys, [])
  {
    SplitIsLossless(source, FILE_CHUNK_SIZE_SAW);
    sys := X.GoodbyeTruncates(p, 1);
    W.FileOfItems(p, name, source, sys.r, 2);
    EmptyIsDamage(before, name, source, None, W.SizeOf(sys.r));
  }

  /**
   * The exact boundary in stop-and-wait mode, for every way in which an upload of a file that is not empty can end. If
   * the client does not give up, only a wrong sequence number leaves a damaged file, because its handler takes the
   * state for recoverable. If it may give up, every failure of the wait can, and so can an upload that ends well.
   */
  lemma StopAndWaitDamage(p: S.Plan, name: Bytes, source: Bytes, before: map<Bytes, Bytes>, patient: bool,
                          e: Option<Failure>)
    requires W.UploadPlan(p, name, source) && name !in before
    ensures StopAndWaitCanDamage(p, name, source, before, patient, e) <==>
            source != [] && if patient then e == Some(InvalidSequenceNumber) else e == None || EndsWait(e.value)
  {
    if StopAndWaitCanDamage(p, name, source, before, patient, e) {
      var sys: S.Sys, flushed: Bytes :| StopsWithDamage(p, name, source, before, patient, e, sys, flushed);
      OnlyTheseDamage(p, name, source, before, patient, e, sys, flushed);
    } else if source != [] {
      if e == Some(InvalidSequenceNumber) {
        SplitIsLossless(source, FILE_CHUNK_SIZE_SAW);
        var sys := SequenceNumberDamages(p, name, source, before, 0, patient);
      } else if !patient && e == None {
        var sys := TruncationDamages(p, name, source, before);
      } else if !patient && EndsWait(e.value) {
        var sys := ZeroSizeDamages(p, name, source, before, e.value);
      }
    }
  }

  /** Closing the file flushes part of it, and the handler of the failure decides whether it stays. */
  method CloseAndHandle(handler: FileHandler, name: Bytes, flushed: Bytes, filesize: nat, failure: Failure)
    modifies handler
    ensures handler.files == if |flushed| == filesize || !RunsCleanup(failure)
                             then old(handler.files)[name := flushed] else old(handler.files) - {name}
  {
    handler.files := handler.files[name := flushed];
    handler.HandleFailure(failure, Some(name), Some(filesize));
    assert old(handler.files)[name := flushed] - {name} == old(handler.files) - {name};
  }

  /**
   * One upload in stop-and-wait mode as the server runs it once name and size are recorded: the chunks, and what the
   * handlers make of a failure. Closing the file flushes all of it; before that any part may have reached the disk.
   */
  method RunUpload(receiver: SawEndpoints.SawFileReceiver, handler: FileHandler, name: Bytes, filesize: nat,
                   ghost p: S.Plan, ghost before: seq<Bytes>)
    returns (raised: Option<R.Exception>, failure: Option<Failure>, flushed: Bytes,
             ghost events: seq<R.Event<PacketSaw>>)
    requires receiver.Receives(p) && |before| >= 2 && receiver.socket.lastRawPacket.Some?
    modifies receiver`file, receiver.socket, receiver.socket.world, receiver.sequenceNumber, handler
    ensures flushed <= receiver.file && receiver.socket.history == old(receiver.socket.history) + events
    ensures raised == None ==>
              failure == None && flushed == receiver.file && handler.files == old(handler.files)[name := flushed]
    ensures raised.Some? ==>
              && SawEndpoints.SawFileReceiver.StopsReception(
                   raised.value, receiver.sequenceNumber.value, events,
                   receiver.socket.world.now >= old(receiver.socket.world.now) + 30.0)
              && failure == Some(FailureOfWait(raised.value))
              && var kept := raised == Some(R.InvalidSequenceNumber) || |flushed| == filesize;
                 handler.files == if kept then old(handler.files)[name := flushed] else old(handler.files) - {name}
  {
    ghost var accepted;
    var closed;
    raised, closed, accepted, events := receiver.PerformUpload(p, before);
    if raised == None {
      flushed := receiver.file;
      handler.files := handler.files[name := flushed];
      return None, None, flushed, events;
    }
    var length: int := *;
    flushed := if 0 <= length <= |receiver.file| then receiver.file[..length] else receiver.file;
    failure := Some(FailureOfWait(raised.value));
    CloseAndHandle(handler, name, flushed, filesize, failure.value);
  }
}
