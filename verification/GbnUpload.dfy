/**
 * A whole upload in go-back-N mode as the server sees it: the configuration, and either the data phase of a client that
 * started it, or the goodbye of one that gave up before. What the server holds is always a prefix of the client's file;
 * that it is the whole file, and of the recorded size, is sure exactly if the client does not give up.
 */
module GbnUpload {
  import opened Chunking
  import opened PacketFormat
  import opened GoBackN
  import opened GbnConfiguration
  import GbnSystem
  import GbnResults

  /** A ready server, while its client is being configured, has started with an empty file, or has given up. */
  ghost predicate ServerAlone(o: Offer, start: Cfg, patient: bool, r: Receiver, size: Option<nat>)
    requires |o.source| < MAX_UINT
  {
    exists c: Cfg :: Reaches(o, start, c, patient) && c.server == Ready(r) && c.size == size
  }

  /** A server in the data phase of a client that has started sending. */
  ghost predicate ServerInTransfer(o: Offer, start: Cfg, r: Receiver, size: Option<nat>)
    requires |o.source| < MAX_UINT
  {
    exists c: Cfg, actions: seq<GbnSystem.Action>, sys: GbnSystem.Sys ::
      && o.source != [] && Reaches(o, start, c, true) && c.client == Started && c.server.Ready?
      && GbnSystem.Runs(UploadOf(o), DataPhase(o, c), actions, sys) && sys.r == r && c.size == size
  }

  /** Where the server's receiver can stand once name and size are accepted, and the size it has recorded. */
  ghost predicate ServerAt(o: Offer, start: Cfg, patient: bool, r: Receiver, size: Option<nat>)
    requires |o.source| < MAX_UINT
  {
    ServerAlone(o, start, patient, r, size) || ServerInTransfer(o, start, r, size)
  }

  lemma TransferIsSafe(o: Offer, start: Cfg, r: Receiver, size: Option<nat>)
    requires |o.source| < MAX_UINT && Init(o, start) && ServerInTransfer(o, start, r, size)
    ensures size == Some(|o.source|) && r.file <= o.source && (r.file == o.source <==> r.phase == Done)
  {
    var c: Cfg, moves: seq<GbnSystem.Action>, sys: GbnSystem.Sys :|
      && o.source != [] && Reaches(o, start, c, true) && c.client == Started && c.server.Ready?
      && GbnSystem.Runs(UploadOf(o), DataPhase(o, c), moves, sys) && sys.r == r && c.size == size;
    var actions: seq<Action> :| Runs(o, start, actions, c) && Patient(actions);
    ConfigurationLockstep(o, start, actions, c);
    ConfigurationStartsUpload(o, start, actions, c);
    assert GbnSystem.Reachable(UploadOf(o), sys);
    GbnResults.UploadSafety(UploadOf(o), o.source, sys);
  }

  /**
   * In every run the server's file is a prefix of the client's. While the client has not given up, the recorded size
   * is the client's, and a server that has finished has the whole file. Otherwise the file is empty, and so is the
   * file that the recorded size stands for, or the size is right.
   */
  lemma UploadServerSafety(o: Offer, start: Cfg, patient: bool, r: Receiver, size: Option<nat>)
    requires |o.source| < MAX_UINT && Init(o, start) && ServerAt(o, start, patient, r, size)
    ensures r.file <= o.source
    ensures patient ==> size == Some(|o.source|) && (r.phase == Done ==> r.file == o.source)
    ensures size == Some(|o.source|) || (size == Some(0) && r.file == [] && r.phase == FirstChunk && LeavesGap(o, 0))
    ensures r.phase == Done && r.file != o.source ==> r.file == [] && LeavesGap(o, |o.source|)
    ensures o.nameIsValid
  {
    if ServerInTransfer(o, start, r, size) {
      TransferIsSafe(o, start, r, size);
      NameWasValid(o, start, r, size);
    } else {
      var c: Cfg :| Reaches(o, start, c, patient) && c.server == Ready(r) && c.size == size;
      ReachesInv(o, start, c, patient);
    }
  }

  lemma NameWasValid(o: Offer, start: Cfg, r: Receiver, size: Option<nat>)
    requires |o.source| < MAX_UINT && Init(o, start) && ServerInTransfer(o, start, r, size)
    ensures o.nameIsValid
  {
    var c: Cfg, moves: seq<GbnSystem.Action>, sys: GbnSystem.Sys :|
      && o.source != [] && Reaches(o, start, c, true) && c.client == Started && c.server.Ready?
      && GbnSystem.Runs(UploadOf(o), DataPhase(o, c), moves, sys) && sys.r == r && c.size == size;
    ReachesInv(o, start, c, true);
  }

  // ----- the two runs of a client that gives up

  /** Waiting for the acknowledgement of the filename: its goodbye is taken for a size of zero. */
  lemma GoodbyeZeroesSize(o: Offer, start: Cfg)
    requires |o.source| < MAX_UINT && Init(o, start) && o.nameIsValid && LeavesGap(o, 0)
    ensures ServerAt(o, start, false, Receiver(3, 3, [], FirstChunk, []), Some(0))
  {
    var named := NameAccepted(o, start, false);
    var gone := Extend(o, start, named, ClientGivesUp, false);
    var p := Fin(o, 3, 3);
    assert p in gone.toServer && FromBytes(p.data) == 0;
    var c := Extend(o, start, gone, ServerHears(p), false);
  }

  /** Waiting for the acknowledgement of the size: its FIN ends the file before it has begun. */
  lemma GoodbyeEndsFile(o: Offer, start: Cfg)
    requires |o.source| < MAX_UINT && Init(o, start) && o.nameIsValid && LeavesGap(o, |o.source|)
    ensures ServerAt(o, start, false, Receiver(4, 4, [], Done, []), Some(|o.source|))
  {
    var ready := SizeArrives(o, start, false);
    var gone := Extend(o, start, ready, ClientGivesUp, false);
    var p := Fin(o, 4, 4);
    assert p in gone.toServer;
    var c := Extend(o, start, gone, ServerHears(p), false);
    assert c.server == Ready(Receiver(4, 4, [], Done, []));
  }

  /** For an empty file the goodbye after the start is the FIN that no chunk carried: the server finishes rightly. */
  lemma GoodbyeEndsEmptyUpload(o: Offer, start: Cfg)
    requires o.source == [] && Init(o, start) && o.nameIsValid && LeavesGap(o, 0)
    ensures ServerAt(o, start, false, Receiver(4, 4, [], Done, []), Some(0))
  {
    var ready := SizeArrives(o, start, false);
    var started := Extend(o, start, ready, ClientHears(Ack(o, 3, 3)), false);
    var gone := Extend(o, start, started, ClientGivesUp, false);
    var p := Fin(o, 4, 5);
    assert p in gone.toServer;
    var c := Extend(o, start, gone, ServerHears(p), false);
    assert c.server == Ready(Receiver(4, 4, [], Done, []));
  }

  ghost predicate FinishedMeansWhole(o: Offer, start: Cfg, patient: bool)
    requires |o.source| < MAX_UINT
  {
    forall r: Receiver, size: Option<nat> ::
      ServerAt(o, start, patient, r, size) && r.phase == Done ==> r.file == o.source
  }

  ghost predicate RecordedMeansSent(o: Offer, start: Cfg, patient: bool)
    requires |o.source| < MAX_UINT
  {
    forall r: Receiver, size: Option<nat> :: ServerAt(o, start, patient, r, size) ==> size == Some(|o.source|)
  }

  /**
   * The exact boundary: a finished server has the whole file, and the recorded size is the client's, in all runs of an
   * offer exactly if the client does not give up, the file is empty, or the offer is refused.
   */
  lemma GivingUpIsUnsafe(o: Offer, start: Cfg, patient: bool)
    requires |o.source| < MAX_UINT && Init(o, start)
    ensures FinishedMeansWhole(o, start, patient) <==>
            patient || o.source == [] || !o.nameIsValid || !LeavesGap(o, |o.source|)
    ensures RecordedMeansSent(o, start, patient) <==>
            patient || o.source == [] || !o.nameIsValid || !LeavesGap(o, 0)
  {
    forall r: Receiver, size: Option<nat> | ServerAt(o, start, patient, r, size)
      ensures r.file <= o.source && o.nameIsValid
      ensures patient ==> size == Some(|o.source|) && (r.phase == Done ==> r.file == o.source)
      ensures size == Some(|o.source|) || (size == Some(0) && LeavesGap(o, 0))
      ensures r.phase == Done && r.file != o.source ==> LeavesGap(o, |o.source|)
    {
      UploadServerSafety(o, start, patient, r, size);
    }
    if !patient && o.source != [] && o.nameIsValid {
      if LeavesGap(o, |o.source|) { GoodbyeEndsFile(o, start); }
      if LeavesGap(o, 0) { GoodbyeZeroesSize(o, start); }
    }
  }
}
