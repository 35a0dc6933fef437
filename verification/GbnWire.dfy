/**
 * Every go-back-N datagram of a run fits the wire format: it can be composed, and the other side parses exactly what
 * was sent. None of them is a SYN, and each carries the port of the end that sent it, except a FIN without data.
 */
module GbnWire {
  import opened Chunking
  import opened PacketFormat
  import opened SequenceNumbers
  import opened GoBackN
  import opened GbnSystem
  import opened GbnResults
  import C = GbnConfiguration
  import D = GbnDownloadStart

  function ServerPort(t: Transfer): int {
    if t.side == Client then t.receiverPort else t.port
  }

  /** Numbers and length fit their fields, the length is that of the data, and the port is as it should be. */
  predicate PacketFits(p: PacketGbn, from: int, server: int) {
    && 0 <= p.sequenceNumber < MAX_UINT && 0 <= p.ackNumber < MAX_UINT
    && |p.data| == p.payloadLength < MAX_UINT && !p.isSyn
    && 0 <= p.port < MAX_USHORT && p.port == if p.isFin && p.data == [] then server else from
  }

  ghost predicate AllFit(t: Transfer, toReceiver: set<PacketGbn>, toSender: set<PacketGbn>) {
    && (forall p :: p in toReceiver ==> PacketFits(p, t.port, ServerPort(t)))
    && (forall p :: p in toSender ==> PacketFits(p, t.receiverPort, ServerPort(t)))
  }

  ghost predicate FieldsFit(t: Transfer) {
    && 0 <= t.port < MAX_USHORT && 0 <= t.receiverPort < MAX_USHORT
    && PacketFits(t.resend, t.receiverPort, ServerPort(t)) && t.offset + t.first >= 1
    && forall i :: 0 <= i < |t.chunks| ==> |t.chunks[i]| < MAX_UINT
  }

  lemma StepFits(t: Transfer, sys: Sys, a: Action)
    requires Inv(t, sys) && FieldsFit(t) && AllFit(t, sys.toReceiver, sys.toSender) && Enabled(t, sys, a)
    ensures var sys' := Step(t, sys, a); AllFit(t, sys'.toReceiver, sys'.toSender)
  {
  }

  lemma {:induction false} RunFits(t: Transfer, from: Sys, actions: seq<Action>, to: Sys)
    requires Inv(t, from) && FieldsFit(t) && AllFit(t, from.toReceiver, from.toSender) && Runs(t, from, actions, to)
    ensures AllFit(t, to.toReceiver, to.toSender)
    decreases |actions|
  {
    if actions == [] {
    } else {
      StepInv(t, from, actions[0]);
      StepFits(t, from, actions[0]);
      RunFits(t, Step(t, from, actions[0]), actions[1..], to);
    }
  }

  /** The packet comes back from the wire as it was sent. */
  ghost predicate Survives(p: PacketGbn) {
    ComposeGbn(p).Some? && Parse(ComposeGbn(p).value) == Gbn(p)
  }

  lemma FittingSurvives(p: PacketGbn, from: int, server: int)
    requires PacketFits(p, from, server)
    ensures Survives(p)
  {
    ComposedPacketParsesBack(Gbn(p));
  }

  /** In every run of a data phase, if the datagrams left over fit. */
  lemma DatagramsFitTheWire(t: Transfer, source: Bytes, start: Sys, actions: seq<Action>, sys: Sys, p: PacketGbn)
    requires IsUpload(t, source) || IsDownload(t, source)
    requires Init(t, start) && Runs(t, start, actions, sys)
    requires AllFit(t, start.toReceiver, start.toSender) && PacketFits(t.resend, t.receiverPort, ServerPort(t))
    requires 0 <= t.port < MAX_USHORT && 0 <= t.receiverPort < MAX_USHORT
    requires p in sys.toReceiver || p in sys.toSender
    ensures Survives(p) && !p.isSyn
    ensures p in sys.toReceiver ==> p.port == if p.isFin && p.data == [] then ServerPort(t) else t.port
    ensures p in sys.toSender ==> p.port == if p.isFin && p.data == [] then ServerPort(t) else t.receiverPort
  {
    InitInv(t, start);
    SplitIsLossless(source, FILE_CHUNK_SIZE_GBN);
    RunFits(t, start, actions, sys);
    FittingSurvives(p, if p in sys.toReceiver then t.port else t.receiverPort, ServerPort(t));
  }

  ghost predicate AllSurvive(toReceiver: set<PacketGbn>, toSender: set<PacketGbn>) {
    forall p :: p in toReceiver || p in toSender ==> Survives(p) && !p.isSyn
  }

  lemma FittingAllSurvive(t: Transfer, toReceiver: set<PacketGbn>, toSender: set<PacketGbn>)
    requires AllFit(t, toReceiver, toSender)
    ensures AllSurvive(toReceiver, toSender)
  {
    forall p | p in toReceiver || p in toSender ensures Survives(p) && !p.isSyn {
      FittingSurvives(p, if p in toReceiver then t.port else t.receiverPort, ServerPort(t));
    }
  }

  /** Everything in flight in any state that can be reached from here. */
  ghost predicate RunsSurvive(t: Transfer, start: Sys) {
    forall actions: seq<Action>, sys: Sys ::
      Runs(t, start, actions, sys) ==> AllSurvive(sys.toReceiver, sys.toSender)
  }

  lemma DataPhaseSurvives(t: Transfer, source: Bytes, start: Sys)
    requires (IsUpload(t, source) || IsDownload(t, source)) && Init(t, start)
    requires AllFit(t, start.toReceiver, start.toSender) && PacketFits(t.resend, t.receiverPort, ServerPort(t))
    requires 0 <= t.port < MAX_USHORT && 0 <= t.receiverPort < MAX_USHORT
    ensures RunsSurvive(t, start)
  {
    forall actions: seq<Action>, sys: Sys | Runs(t, start, actions, sys)
      ensures AllSurvive(sys.toReceiver, sys.toSender)
    {
      InitInv(t, start);
      SplitIsLossless(source, FILE_CHUNK_SIZE_GBN);
      RunFits(t, start, actions, sys);
      FittingAllSurvive(t, sys.toReceiver, sys.toSender);
    }
  }

  // ----- before the data phase

  predicate OfferFits(o: C.Offer) {
    |o.source| < MAX_UINT && |o.name| < MAX_UINT && 0 <= o.port < MAX_USHORT && 0 <= o.serverPort < MAX_USHORT
  }

  lemma ConfigurationStepFits(o: C.Offer, c: C.Cfg, a: C.Action)
    requires OfferFits(o) && C.Inv(o, c) && C.Enabled(o, c, a) && AllFit(C.UploadOf(o), c.toServer, c.toClient)
    ensures var c' := C.Step(o, c, a); AllFit(C.UploadOf(o), c'.toServer, c'.toClient)
  {
  }

  lemma {:induction false} ConfigurationFits(o: C.Offer, from: C.Cfg, actions: seq<C.Action>, to: C.Cfg)
    requires OfferFits(o) && C.Inv(o, from) && C.Runs(o, from, actions, to)
    requires AllFit(C.UploadOf(o), from.toServer, from.toClient)
    ensures AllFit(C.UploadOf(o), to.toServer, to.toClient) && C.Inv(o, to)
    decreases |actions|
  {
    if actions == [] {
    } else {
      var next := C.Step(o, from, actions[0]);
      C.RunInv(o, from, [actions[0]], next);
      ConfigurationStepFits(o, from, actions[0]);
      ConfigurationFits(o, next, actions[1..], to);
    }
  }

  /** A whole upload: if the datagrams of the handshake fit, all of the configuration and of the data phase do. */
  lemma UploadFitsTheWire(o: C.Offer, begin: C.Cfg, config: seq<C.Action>, c: C.Cfg)
    requires OfferFits(o) && C.Init(o, begin) && C.Runs(o, begin, config, c)
    requires AllFit(C.UploadOf(o), begin.toServer, begin.toClient)
    ensures AllSurvive(c.toServer, c.toClient)
    ensures o.source != [] && c.client == C.Started ==>
              c.server.Ready? && RunsSurvive(C.UploadOf(o), C.DataPhase(o, c))
  {
    C.InitInv(o, begin);
    ConfigurationFits(o, begin, config, c);
    FittingAllSurvive(C.UploadOf(o), c.toServer, c.toClient);
    if o.source != [] && c.client == C.Started {
      C.ConfigurationStartsUpload(o, begin, config, c);
      DataPhaseSurvives(C.UploadOf(o), o.source, C.DataPhase(o, c));
    }
  }

  predicate RequestFits(q: D.Request) {
    |q.name| < MAX_UINT && 0 <= q.clientPort < MAX_USHORT && 0 <= q.serverPort < MAX_USHORT
  }

  lemma {:induction false} HandFits(q: D.Request, from: D.Hand, actions: seq<D.Action>, to: D.Hand)
    requires RequestFits(q) && D.Inv(q, from) && D.Runs(q, from, actions, to)
    requires AllFit(D.DownloadOf(q), from.toClient, from.toServer)
    ensures AllFit(D.DownloadOf(q), to.toClient, to.toServer)
    decreases |actions|
  {
    if actions == [] {
    } else {
      var next := match actions[0]
                  case ClientHears(p) => D.ClientStep(q, from, p)
                  case ServerHears(p) => D.ServerStep(q, from, p)
                  case ClientGivesUp => D.GiveUp(q, from);
      D.RunGoesOn(q, from, actions[0], next);
      D.RunInv(q, from, [actions[0]], next);
      HandFits(q, next, actions[1..], to);
    }
  }

  /** A whole download, likewise. */
  lemma DownloadFitsTheWire(q: D.Request, begin: D.Hand, hand: seq<D.Action>, h: D.Hand)
    requires RequestFits(q) && D.Init(q, begin) && D.Runs(q, begin, hand, h)
    requires AllFit(D.DownloadOf(q), begin.toClient, begin.toServer)
    ensures AllSurvive(h.toClient, h.toServer)
    ensures h.server == D.Started && |q.source| > FILE_CHUNK_SIZE_GBN
            && |Split(q.source, FILE_CHUNK_SIZE_GBN)| + 2 <= MAX_SEQUENCE_NUMBER ==>
              RunsSurvive(D.DownloadOf(q), D.DataPhase(q, h))
  {
    D.InitInv(q, begin);
    HandFits(q, begin, hand, h);
    FittingAllSurvive(D.DownloadOf(q), h.toClient, h.toServer);
    if h.server == D.Started && |q.source| > FILE_CHUNK_SIZE_GBN
       && |Split(q.source, FILE_CHUNK_SIZE_GBN)| + 2 <= MAX_SEQUENCE_NUMBER {
      D.FirstChunkStartsDownload(q, begin, hand, h);
      DataPhaseSurvives(D.DownloadOf(q), q.source, D.DataPhase(q, h));
    }
  }
}
