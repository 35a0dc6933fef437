/** What an upload in go-back-N mode leaves on the server's disk, in the configuration and in the data phase. */
module GbnCleanup {
  import opened Chunking
  import opened PacketFormat
  import opened GoBackN
  import opened Cleanup
  import C = GbnConfiguration
  import R = RetryEngine
  import U = GbnUpload

  // ----- the configuration

  function HeardOften(p: PacketGbn, n: nat): seq<C.Action> {
    seq(n, _ => C.ServerHears(p))
  }

  /** The wait can use up its attempts on copies of one packet with the wrong number, none of which changes anything. */
  ghost predicate WaitsInVain(o: C.Offer, c: C.Cfg)
    requires |o.source| < MAX_UINT
  {
    exists p: PacketGbn ::
      p.sequenceNumber != c.serverSqn && C.Runs(o, c, HeardOften(p, R.MAX_RETRANSMISSION_ATTEMPTS), c)
  }

  lemma {:induction false} StaleIsIgnored(o: C.Offer, c: C.Cfg, p: PacketGbn, n: nat)
    requires |o.source| < MAX_UINT && c.server == C.AwaitsSize && p in c.toServer && p.sequenceNumber != c.serverSqn
    ensures C.Runs(o, c, HeardOften(p, n), c)
    decreases n
  {
    if n == 0 {
    } else {
      StaleIsIgnored(o, c, p, n - 1);
      assert HeardOften(p, n)[1..] == HeardOften(p, n - 1);
    }
  }

  /** What can end the connection where the server stands: a failure of its wait, or its own refusal. */
  ghost predicate RaisedAt(o: C.Offer, c: C.Cfg, e: Failure)
    requires |o.source| < MAX_UINT
  {
    match c.server
    case AwaitsName => EndsWait(e) && (e == InvalidSequenceNumber ==> WaitsInVain(o, c))
    case AwaitsSize => EndsWait(e) && (e == InvalidSequenceNumber ==> WaitsInVain(o, c))
    case Rejected => e == ConnectionClosingNeeded
    case Ready(_) => false
  }

  /** Accepting the filename opens the file for writing, and so creates it. */
  function DirectoryAt(before: map<Bytes, Bytes>, c: C.Cfg, name: Bytes): map<Bytes, Bytes> {
    if c.name == None then before else before[name := []]
  }

  ghost predicate ConfigurationCanDamage(o: C.Offer, start: C.Cfg, before: map<Bytes, Bytes>, e: Failure, patient: bool)
    requires |o.source| < MAX_UINT
  {
    exists c: C.Cfg ::
      C.Reaches(o, start, c, patient) && RaisedAt(o, c, e)
      && LeavesDamage(before, AfterFailure(DirectoryAt(before, c, o.name), e, None, None), o.name, o.source)
  }

  /** A failure during the configuration does damage only to a valid name and a file with data. */
  lemma DamageNeedsName(o: C.Offer, start: C.Cfg, c: C.Cfg, before: map<Bytes, Bytes>, e: Failure, patient: bool)
    requires |o.source| < MAX_UINT && C.Init(o, start) && (o.nameIsValid ==> o.name !in before)
    requires C.Reaches(o, start, c, patient) && RaisedAt(o, c, e)
    requires LeavesDamage(before, AfterFailure(DirectoryAt(before, c, o.name), e, None, None), o.name, o.source)
    ensures o.nameIsValid && o.source != []
    ensures EndsWait(e) || (e == ConnectionClosingNeeded && !C.LeavesGap(o, |o.source|))
  {
    C.ReachesInv(o, start, c, patient);
  }

  /**
   * The exact boundary in the configuration: the name and the size are recorded only after both are accepted, so no
   * handler can clean up before. Once the filename is accepted every failure leaves an empty file behind; the refusal
   * among them needs a size that does not fit. Whether the client gives up makes no difference.
   */
  lemma ConfigurationDamage(o: C.Offer, start: C.Cfg, before: map<Bytes, Bytes>, e: Failure, patient: bool)
    requires |o.source| < MAX_UINT && C.Init(o, start) && (o.nameIsValid ==> o.name !in before)
    ensures ConfigurationCanDamage(o, start, before, e, patient) <==>
            && o.nameIsValid && o.source != []
            && (EndsWait(e) || (e == ConnectionClosingNeeded && !C.LeavesGap(o, |o.source|)))
  {
    if ConfigurationCanDamage(o, start, before, e, patient) {
      var c: C.Cfg :|
        C.Reaches(o, start, c, patient) && RaisedAt(o, c, e)
        && LeavesDamage(before, AfterFailure(DirectoryAt(before, c, o.name), e, None, None), o.name, o.source);
      DamageNeedsName(o, start, c, before, e, patient);
    } else if o.nameIsValid && o.source != [] {
      PartIsDamage(before, o.name, [], o.source, e, None, None);
      if EndsWait(e) {
        var c := C.NameAccepted(o, start, patient);
        StaleIsIgnored(o, c, C.NamePacket(o, 2, 2), R.MAX_RETRANSMISSION_ATTEMPTS);
      } else if e == ConnectionClosingNeeded && !C.LeavesGap(o, |o.source|) {
        var c := C.SizeArrives(o, start, patient);
      }
    }
  }

  // ----- the data phase

  /** How the connection names what its receiver raises: a timeout is a lost connection. */
  function FailureOfReceiver(error: Error): Failure {
    match error
    case SocketWasShutdown => SocketShutdown
    case RetransmissionNeeded => ConnectionLost
    case NotAckMessage => MessageIsNotAck
    case UnboundReceptionDuration => OtherFailure
  }

  /** What ends the data phase early: the two errors of the receiver, or a failure of the program itself. */
  predicate RaisedByReceiver(e: Failure) {
    e == FailureOfReceiver(SocketWasShutdown) || e == FailureOfReceiver(RetransmissionNeeded) || e == OtherFailure
  }

  /** The data phase ends where the receiver stands: it is done, or fails with part of its bytes on disk. */
  predicate EndsAt(r: Receiver, e: Option<Failure>, flushed: Bytes) {
    match e
    case None => r.phase == Done && flushed == r.file
    case Some(x) => r.phase != Done && flushed <= r.file && RaisedByReceiver(x)
  }

  /**
   * If the client has not given up, a data phase that ends, early or not, leaves the directory as it was before the
   * upload or with the client's whole file in it, no matter when a failure strikes and how much was flushed; and the
   * file is there exactly if all of it was.
   */
  lemma SurvivingFileIsWhole(o: C.Offer, start: C.Cfg, before: map<Bytes, Bytes>, r: Receiver, size: Option<nat>,
                             e: Option<Failure>, flushed: Bytes)
    requires |o.source| < MAX_UINT && C.Init(o, start) && (o.nameIsValid ==> o.name !in before)
    requires U.ServerAt(o, start, true, r, size) && EndsAt(r, e, flushed)
    ensures var after := Left(before, o.name, flushed, size, e);
            && after == (if flushed == o.source then before[o.name := o.source] else before)
            && !LeavesDamage(before, after, o.name, o.source)
  {
    U.UploadServerSafety(o, start, true, r, size);
    if e.Some? { KeepsOnlyTheWhole(before, o.name, flushed, o.source, e.value); }
  }

  ghost predicate EndsWithDamage(o: C.Offer, start: C.Cfg, before: map<Bytes, Bytes>, patient: bool, e: Option<Failure>,
                                 r: Receiver, size: Option<nat>, flushed: Bytes)
    requires |o.source| < MAX_UINT
  {
    && U.ServerAt(o, start, patient, r, size) && EndsAt(r, e, flushed)
    && LeavesDamage(before, Left(before, o.name, flushed, size, e), o.name, o.source)
  }

  ghost predicate UploadCanDamage(o: C.Offer, start: C.Cfg, before: map<Bytes, Bytes>, patient: bool,
                                  e: Option<Failure>)
    requires |o.source| < MAX_UINT
  {
    exists r: Receiver, size: Option<nat>, flushed: Bytes ::
      EndsWithDamage(o, start, before, patient, e, r, size, flushed)
  }

  /** With the right size recorded only a finished server can do damage, and then with an empty file. */
  lemma OnlyGivingUpDamages(o: C.Offer, start: C.Cfg, before: map<Bytes, Bytes>, patient: bool, e: Option<Failure>,
                            r: Receiver, size: Option<nat>, flushed: Bytes)
    requires |o.source| < MAX_UINT && C.Init(o, start) && (o.nameIsValid ==> o.name !in before)
    requires EndsWithDamage(o, start, before, patient, e, r, size, flushed)
    ensures !patient && o.source != [] && o.nameIsValid
    ensures if e == None then C.LeavesGap(o, |o.source|) else RaisedByReceiver(e.value) && C.LeavesGap(o, 0)
  {
    U.UploadServerSafety(o, start, patient, r, size);
    if patient { SurvivingFileIsWhole(o, start, before, r, size, e, flushed); }
    if e.Some? && size == Some(|o.source|) { KeepsOnlyTheWhole(before, o.name, flushed, o.source, e.value); }
  }

  /**
   * The exact boundary of the data phase, over all runs of an upload: it can leave a damaged file exactly if the client
   * gives up while configuring it, the file is not empty, and the name is valid. A server that finishes needs room for
   * the file, since the client gave up on its size; one that fails needs room for an empty one.
   */
  lemma UploadDamage(o: C.Offer, start: C.Cfg, before: map<Bytes, Bytes>, patient: bool, e: Option<Failure>)
    requires |o.source| < MAX_UINT && C.Init(o, start) && (o.nameIsValid ==> o.name !in before)
    ensures UploadCanDamage(o, start, before, patient, e) <==>
            && !patient && o.source != [] && o.nameIsValid
            && if e == None then C.LeavesGap(o, |o.source|) else RaisedByReceiver(e.value) && C.LeavesGap(o, 0)
  {
    if UploadCanDamage(o, start, before, patient, e) {
      var r: Receiver, size: Option<nat>, flushed: Bytes :|
        EndsWithDamage(o, start, before, patient, e, r, size, flushed);
      OnlyGivingUpDamages(o, start, before, patient, e, r, size, flushed);
    } else if !patient && o.source != [] && o.nameIsValid {
      if e == None && C.LeavesGap(o, |o.source|) {
        U.GoodbyeEndsFile(o, start);
        EmptyIsDamage(before, o.name, o.source, e, Some(|o.source|));
        assert EndsWithDamage(o, start, before, patient, e, Receiver(4, 4, [], Done, []), Some(|o.source|), []);
      } else if e.Some? && RaisedByReceiver(e.value) && C.LeavesGap(o, 0) {
        U.GoodbyeZeroesSize(o, start);
        EmptyIsDamage(before, o.name, o.source, e, Some(0));
        assert EndsWithDamage(o, start, before, patient, e, Receiver(3, 3, [], FirstChunk, []), Some(0), []);
      }
    }
  }
}
