/**
 * How a download in go-back-N mode begins: the filename is answered with chunk 0 itself, and the acknowledgement of
 * that chunk is the last thing exchanged before the window takes over.
 */
module GbnDownloadStart {
  import opened Chunking
  import opened PacketFormat
  import opened SequenceNumbers
  import opened GoBackN
  import GbnSystem
  import GbnResults

  datatype Request = Request(name: Bytes, source: Bytes, clientPort: int, serverPort: int)

  datatype ClientStage = InformsName | HasFirstChunk | Aborted | GaveUp

  datatype ServerStage = AwaitsName | AwaitsAck | Started

  /** Both counters of an end are equal throughout; `file` is what the client has written. */
  datatype Hand = Hand(
    client: ClientStage, clientNumber: int, file: Bytes,
    server: ServerStage, serverSqn: int, serverAck: int,
    toServer: set<PacketGbn>, toClient: set<PacketGbn>)

  datatype Action = ClientHears(packet: PacketGbn) | ServerHears(packet: PacketGbn) | ClientGivesUp

  function NamePacket(q: Request): PacketGbn {
    PacketGbn(2, 2, false, false, false, q.clientPort, |q.name|, q.name)
  }

  function FirstAck(q: Request, number: int): PacketGbn {
    PacketGbn(number, number, true, false, false, q.clientPort, 0, [])
  }

  /** Chunk 0 doubles as the acknowledgement of the filename, and is not the last one here. */
  function FirstChunkPacket(q: Request, sqn: int, ack: int): PacketGbn {
    var chunk := q.source[..Min(FILE_CHUNK_SIZE_GBN, |q.source|)];
    PacketGbn(sqn, ack, true, false, false, q.serverPort, |chunk|, chunk)
  }

  function DownloadOf(q: Request): Transfer {
    Transfer(Server, Split(q.source, FILE_CHUNK_SIZE_GBN), 1, 2, q.serverPort, q.clientPort, FirstAck(q, 2))
  }

  function ClientReceiver(h: Hand): Receiver {
    Receiver(h.clientNumber, h.clientNumber, h.file, FirstChunk, [])
  }

  /** The data phase that follows, with everything still in flight. */
  function DataPhase(q: Request, h: Hand): GbnSystem.Sys {
    GbnSystem.Sys(StartSender(DownloadOf(q)), ClientReceiver(h), 1, h.toClient, h.toServer)
  }

  function ClientStep(q: Request, h: Hand, p: PacketGbn): Hand {
    match h.client
    case InformsName =>
      if !p.isAck then h.(client := Aborted)
      else if p.ackNumber != h.clientNumber then h
      else if p.isFin then h.(client := Aborted)
      else if p.sequenceNumber != h.clientNumber then h
      else h.(client := HasFirstChunk, file := h.file + p.data,
              toServer := h.toServer + {FirstAck(q, h.clientNumber)})
    case HasFirstChunk =>
      h.(toServer := h.toServer + GbnSystem.Elements(Replies(DownloadOf(q), ClientReceiver(h), p)))
    case Aborted => h
    case GaveUp => h
  }

  /** A client that loses the connection acknowledges and sends its own FIN, both with the next numbers. */
  function Goodbye(q: Request, number: int): set<PacketGbn> {
    {FirstAck(q, number), PacketGbn(number, number, false, false, true, q.serverPort, 0, [])}
  }

  function GiveUp(q: Request, h: Hand): Hand {
    var number := StepGbn(h.clientNumber);
    h.(client := GaveUp, clientNumber := number, toServer := h.toServer + Goodbye(q, number))
  }

  /** The server accepts the filename by its number, and the acknowledgement by its flags and sequence number. */
  function ServerStep(q: Request, h: Hand, p: PacketGbn): Hand {
    match h.server
    case AwaitsName =>
      if p.sequenceNumber != h.serverSqn then h
      else
        var ack := StepGbn(h.serverAck);
        h.(server := AwaitsAck, serverAck := ack, toClient := h.toClient + {FirstChunkPacket(q, h.serverSqn, ack)})
    case AwaitsAck =>
      if p.isAck && !p.isFin && p.sequenceNumber == h.serverSqn then h.(server := Started) else h
    case Started => h
  }

  ghost predicate Runs(q: Request, from: Hand, actions: seq<Action>, to: Hand)
    decreases |actions|
  {
    if actions == [] then from == to
    else
      match actions[0]
      case ClientHears(p) => p in from.toClient && Runs(q, ClientStep(q, from, p), actions[1..], to)
      case ServerHears(p) => p in from.toServer && Runs(q, ServerStep(q, from, p), actions[1..], to)
      case ClientGivesUp => from.client == InformsName && Runs(q, GiveUp(q, from), actions[1..], to)
  }

  /** The operation is agreed at numbers 1 and 1, and the filename, numbered 2, has just been sent. */
  ghost predicate Init(q: Request, h: Hand) {
    && h.client == InformsName && h.clientNumber == 2 && h.file == []
    && h.server == AwaitsName && h.serverSqn == 2 && h.serverAck == 1
    && NamePacket(q) in h.toServer
    && (forall p :: p in h.toServer ==> p == NamePacket(q) || (p.sequenceNumber <= 1 && p.ackNumber <= 1 && !p.isFin))
    && (forall p :: p in h.toClient ==> p.isAck && !p.isFin && p.sequenceNumber <= 1 && p.ackNumber <= 1)
  }

  ghost predicate Inv(q: Request, h: Hand) {
    && h.clientNumber == (if h.client == GaveUp then 3 else 2) && h.serverSqn == 2 && h.client != Aborted
    && h.serverAck == (if h.server == AwaitsName then 1 else 2)
    && h.file == (if h.client == HasFirstChunk then q.source[..Min(FILE_CHUNK_SIZE_GBN, |q.source|)] else [])
    && (h.server == Started ==> h.client == HasFirstChunk)
    && NamePacket(q) in h.toServer
    && (h.client == HasFirstChunk ==> FirstAck(q, 2) in h.toServer)
    && (h.server != AwaitsName ==> FirstChunkPacket(q, 2, 2) in h.toClient)
    && (forall p :: p in h.toServer ==>
          || p == NamePacket(q)
          || (p.sequenceNumber <= 1 && p.ackNumber <= 1 && !p.isFin)
          || (p == FirstAck(q, 2) && h.client == HasFirstChunk)
          || (p in Goodbye(q, 3) && h.client == GaveUp))
    && (forall p :: p in h.toClient ==>
          && !p.isFin && p.isAck
          && ((p.sequenceNumber <= 1 && p.ackNumber <= 1) || p == FirstChunkPacket(q, 2, 2)))
  }

  lemma {:induction false} RunInv(q: Request, from: Hand, actions: seq<Action>, to: Hand)
    requires Inv(q, from) && Runs(q, from, actions, to)
    ensures Inv(q, to)
    decreases |actions|
  {
    if actions == [] {
    } else {
      match actions[0] {
        case ClientHears(p) => RunInv(q, ClientStep(q, from, p), actions[1..], to);
        case ServerHears(p) => RunInv(q, ServerStep(q, from, p), actions[1..], to);
        case ClientGivesUp => RunInv(q, GiveUp(q, from), actions[1..], to);
      }
    }
  }

  lemma InitInv(q: Request, h: Hand)
    requires Init(q, h)
    ensures Inv(q, h)
  {
  }

  /**
   * When the server's sender starts at chunk 1, the client has written exactly chunk 0, the counters of both ends
   * agree, and the data phase of the download begins where module GbnSystem lets it begin. The filename is still in
   * flight then.
   */
  lemma FirstChunkStartsDownload(q: Request, start: Hand, actions: seq<Action>, h: Hand)
    requires Init(q, start) && Runs(q, start, actions, h) && h.server == Started
    requires |q.source| > FILE_CHUNK_SIZE_GBN
    requires |Split(q.source, FILE_CHUNK_SIZE_GBN)| + 2 <= MAX_SEQUENCE_NUMBER
    ensures h.clientNumber == h.serverSqn == h.serverAck == 2
    ensures h.file == q.source[..FILE_CHUNK_SIZE_GBN] && NamePacket(q) in h.toServer
    ensures var t := DownloadOf(q);
            && GbnResults.IsDownload(t, q.source)
            && GbnSystem.Init(t, DataPhase(q, h))
  {
    RunInv(q, start, actions, h);
    var t := DownloadOf(q);
    GbnResults.DownloadOk(t, q.source);
    FlattenStep(t.chunks, 0);
    assert t.chunks[0] == q.source[..FILE_CHUNK_SIZE_GBN];
  }

  // ----- that it begins at all

  /** What is sent on the way, field by field. */
  lemma PacketsOnTheWay(q: Request, start: Hand, actions: seq<Action>, h: Hand)
    requires Init(q, start) && Runs(q, start, actions, h)
    ensures PacketGbn(2, 2, false, false, false, q.clientPort, |q.name|, q.name) in h.toServer
    ensures h.server != AwaitsName ==>
              var chunk := if |q.source| <= FILE_CHUNK_SIZE_GBN then q.source else q.source[..FILE_CHUNK_SIZE_GBN];
              PacketGbn(2, 2, true, false, false, q.serverPort, |chunk|, chunk) in h.toClient
    ensures h.client == HasFirstChunk ==> PacketGbn(2, 2, true, false, false, q.clientPort, 0, []) in h.toServer
    ensures h.client == GaveUp ==> h.server != Started
  {
    InitInv(q, start);
    assert q.source[..|q.source|] == q.source;
    RunInv(q, start, actions, h);
  }

  lemma RunGoesOn(q: Request, h: Hand, a: Action, h': Hand)
    requires match a
             case ClientHears(p) => p in h.toClient && h' == ClientStep(q, h, p)
             case ServerHears(p) => p in h.toServer && h' == ServerStep(q, h, p)
             case ClientGivesUp => h.client == InformsName && h' == GiveUp(q, h)
    ensures Runs(q, h, [a], h')
  {
    assert [a][1..] == [] && Runs(q, h', [], h');
  }

  lemma {:induction false} RunsConcat(q: Request, a: Hand, xs: seq<Action>, b: Hand, ys: seq<Action>, c: Hand)
    requires Runs(q, a, xs, b) && Runs(q, b, ys, c)
    ensures Runs(q, a, xs + ys, c)
    decreases |xs|
  {
    if xs == [] {
      assert xs + ys == ys;
    } else {
      var next := match xs[0]
                  case ClientHears(p) => ClientStep(q, a, p)
                  case ServerHears(p) => ServerStep(q, a, p)
                  case ClientGivesUp => GiveUp(q, a);
      RunsConcat(q, next, xs[1..], b, ys, c);
      assert (xs + ys)[1..] == xs[1..] + ys;
    }
  }

  /** From every start three packets, none of them lost, start the server's sender. */
  lemma DownloadCanStart(q: Request, start: Hand) returns (actions: seq<Action>, h: Hand)
    requires Init(q, start)
    ensures Runs(q, start, actions, h) && |actions| == 3 && h.server == Started && h.client == HasFirstChunk
  {
    var a0, a1, a2 := ServerHears(NamePacket(q)), ClientHears(FirstChunkPacket(q, 2, 2)), ServerHears(FirstAck(q, 2));
    var h0 := ServerStep(q, start, NamePacket(q));
    var h1 := ClientStep(q, h0, FirstChunkPacket(q, 2, 2));
    h := ServerStep(q, h1, FirstAck(q, 2));
    RunGoesOn(q, start, a0, h0);
    RunGoesOn(q, h0, a1, h1);
    RunGoesOn(q, h1, a2, h);
    RunsConcat(q, start, [a0], h0, [a1], h1);
    RunsConcat(q, start, [a0] + [a1], h1, [a2], h);
    actions := [a0] + [a1] + [a2];
  }

  /** Whatever happened before, a waiting server can be started if and only if the client has written chunk 0. */
  lemma StartsOnFirstChunkWritten(q: Request, start: Hand, actions: seq<Action>, h: Hand)
    requires Init(q, start) && Runs(q, start, actions, h) && h.server == AwaitsAck
    ensures (exists p :: p in h.toServer && ServerStep(q, h, p).server == Started) <==> h.client == HasFirstChunk
    ensures h.client == HasFirstChunk <==> PacketGbn(2, 2, true, false, false, q.clientPort, 0, []) in h.toServer
  {
    InitInv(q, start);
    RunInv(q, start, actions, h);
    if h.client == HasFirstChunk {
      assert ServerStep(q, h, FirstAck(q, 2)).server == Started;
    }
  }
}
