/**
 * How an upload in go-back-N mode is configured: the client tells the filename, then the size, each repeated until
 * it is acknowledged, over a network that loses, duplicates and reorders. Repeating a datagram adds nothing to the
 * set of datagrams ever sent, so retransmissions are invisible here.
 */
module GbnConfiguration {
  import opened Chunking
  import opened PacketFormat
  import opened SequenceNumbers
  import opened GoBackN
  import GbnSystem
  import GbnResults

  const MINIMUM_FREE_GAP: int := 104_857_600

  /** The file offered, whether the server can create it, and how much space is free on its disk. */
  datatype Offer = Offer(name: Bytes, source: Bytes, nameIsValid: bool, freeSpace: int, port: int, serverPort: int)

  predicate Fits(o: Offer, size: nat) {
    o.freeSpace - MINIMUM_FREE_GAP > size
  }

  /** After a file of this size is stored, more than the minimum gap is still free. */
  predicate LeavesGap(o: Offer, size: nat) {
    o.freeSpace >= size + 104_857_601
  }

  datatype ClientStage = InformsName | InformsSize | Started | Aborted | GaveUp

  /** Once it is ready the server is a go-back-N receiver. */
  datatype ServerStage = AwaitsName | AwaitsSize | Ready(r: Receiver) | Rejected

  datatype Cfg = Cfg(
    client: ClientStage, clientSqn: int, clientAck: int,
    server: ServerStage, serverSqn: int, serverAck: int,
    name: Option<Bytes>, size: Option<nat>,
    toServer: set<PacketGbn>, toClient: set<PacketGbn>)

  datatype Action = ClientHears(packet: PacketGbn) | ServerHears(packet: PacketGbn) | ClientGivesUp

  function NamePacket(o: Offer, sqn: int, ack: int): PacketGbn {
    PacketGbn(sqn, ack, false, false, false, o.port, |o.name|, o.name)
  }

  function SizePacket(o: Offer, sqn: int, ack: int): PacketGbn
    requires |o.source| < MAX_UINT
  {
    PacketGbn(sqn, ack, false, false, false, o.port, 4, UInt(|o.source|))
  }

  function Ack(o: Offer, sqn: int, ack: int): PacketGbn {
    PacketGbn(sqn, ack, true, false, false, o.serverPort, 0, [])
  }

  function Fin(o: Offer, sqn: int, ack: int): PacketGbn {
    PacketGbn(sqn, ack, false, false, true, o.serverPort, 0, [])
  }

  /** The upload that follows. */
  function UploadOf(o: Offer): Transfer {
    Transfer(Client, Split(o.source, FILE_CHUNK_SIZE_GBN), 0, 4, o.port, o.serverPort, Ack(o, 3, 3))
  }

  /** Its data phase, with everything still in flight. */
  function DataPhase(o: Offer, c: Cfg): GbnSystem.Sys
    requires c.server.Ready?
  {
    GbnSystem.Sys(StartSender(UploadOf(o)), c.server.r.(outbox := []), 0, c.toServer, c.toClient)
  }

  /** What `wait_for_ack` lets through: the very numbers the client stands at, on a plain acknowledgement. */
  predicate ClientAccepts(c: Cfg, p: PacketGbn) {
    p.isAck && !p.isFin && p.ackNumber == c.clientAck && p.sequenceNumber == c.clientSqn
  }

  /** The client after one packet: no acknowledgement, or a FIN, means that the server refused. */
  function ClientStep(o: Offer, c: Cfg, p: PacketGbn): Cfg
    requires |o.source| < MAX_UINT
  {
    if c.client == Started || c.client == Aborted || c.client == GaveUp then c
    else if !p.isAck || (p.isFin && p.ackNumber == c.clientAck) then c.(client := Aborted)
    else if !ClientAccepts(c, p) then c
    else if c.client == InformsName then
      var sqn, ack := StepGbn(c.clientSqn), StepGbn(c.clientAck);
      c.(client := InformsSize, clientSqn := sqn, clientAck := ack,
         toServer := c.toServer + {SizePacket(o, sqn, ack)})
    else c.(client := Started)
  }

  /**
   * A client that loses the connection acknowledges and sends its own FIN, both with the next numbers. After the
   * start that can only be the client of an empty file: its send loop, which sends nothing, returns numbers that differ
   * by one.
   */
  predicate CanGiveUp(o: Offer, c: Cfg) {
    c.client == InformsName || c.client == InformsSize || (c.client == Started && o.source == [])
  }

  function Goodbye(o: Offer, sqn: int, ack: int): set<PacketGbn> {
    {PacketGbn(sqn, ack, true, false, false, o.port, 0, []), Fin(o, sqn, ack)}
  }

  function GiveUp(o: Offer, c: Cfg): Cfg {
    var sqn := StepGbn(c.clientSqn);
    var ack := if c.client == Started then StepGbn(StepGbn(c.clientAck)) else StepGbn(c.clientAck);
    c.(client := GaveUp, clientSqn := sqn, clientAck := ack, toServer := c.toServer + Goodbye(o, sqn, ack))
  }

  /** The server after one packet: it looks at sequence numbers only. Once ready it is a go-back-N receiver. */
  function ServerStep(o: Offer, c: Cfg, p: PacketGbn): Cfg {
    match c.server
    case AwaitsName =>
      if p.sequenceNumber != c.serverSqn then c
      else if !o.nameIsValid then Refuse(o, c)
      else c.(server := AwaitsSize, name := Some(p.data), serverSqn := StepGbn(c.serverSqn),
              toClient := c.toClient + {Ack(o, c.serverSqn, c.serverAck)})
    case AwaitsSize =>
      if p.sequenceNumber != c.serverSqn then c
      else
        var c' := c.(size := Some(FromBytes(p.data)), serverAck := StepGbn(c.serverAck));
        if !Fits(o, FromBytes(p.data)) then Refuse(o, c')
        else
          c'.(server := Ready(Receiver(c'.serverSqn, c'.serverAck, [], FirstChunk, [])),
              toClient := c.toClient + {Ack(o, c'.serverSqn, c'.serverAck)})
    case Ready(r) =>
      c.(server := Ready(Deliver(UploadOf(o), r, p)),
         toClient := c.toClient + GbnSystem.Elements(Replies(UploadOf(o), r, p)))
    case Rejected => c
  }

  function Refuse(o: Offer, c: Cfg): Cfg {
    var sqn, ack := StepGbn(c.serverSqn), StepGbn(c.serverAck);
    c.(server := Rejected, serverSqn := sqn, serverAck := ack, toClient := c.toClient + {Fin(o, sqn, ack)})
  }

  ghost predicate Enabled(o: Offer, c: Cfg, a: Action) {
    match a
    case ClientHears(p) => p in c.toClient
    case ServerHears(p) => p in c.toServer
    case ClientGivesUp => CanGiveUp(o, c)
  }

  ghost function Step(o: Offer, c: Cfg, a: Action): Cfg
    requires |o.source| < MAX_UINT
  {
    match a
    case ClientHears(p) => ClientStep(o, c, p)
    case ServerHears(p) => ServerStep(o, c, p)
    case ClientGivesUp => GiveUp(o, c)
  }

  ghost predicate Runs(o: Offer, from: Cfg, actions: seq<Action>, to: Cfg)
    requires |o.source| < MAX_UINT
    decreases |actions|
  {
    if actions == [] then from == to
    else Enabled(o, from, actions[0]) && Runs(o, Step(o, from, actions[0]), actions[1..], to)
  }

  /** Both ends have agreed on the operation, at numbers 1 and 1; the filename, numbered 2, has just been sent. */
  ghost predicate Init(o: Offer, c: Cfg) {
    && c.client == InformsName && c.clientSqn == 2 && c.clientAck == 2
    && c.server == AwaitsName && c.serverSqn == 2 && c.serverAck == 2
    && c.name == None && c.size == None
    && NamePacket(o, 2, 2) in c.toServer
    && (forall p :: p in c.toServer ==>
          p == NamePacket(o, 2, 2) || (p.sequenceNumber <= 1 && p.ackNumber <= 1 && !p.isFin))
    && (forall p :: p in c.toClient ==> p.isAck && !p.isFin && p.ackNumber <= 1 && p.sequenceNumber <= 1)
  }

  ghost predicate StagesInv(o: Offer, c: Cfg) {
    && (c.client == InformsName ==> c.clientSqn == c.clientAck == 2)
    && (c.client == InformsSize || c.client == Started ==>
          c.clientSqn == c.clientAck == 3 && c.name == Some(o.name))
    && (c.client == Started ==> c.server.Ready?)
    && (c.client == Aborted ==> c.server == Rejected)
    && (c.client == GaveUp ==>
          || c.clientSqn == c.clientAck == 3
          || (c.clientSqn == 4 && 4 <= c.clientAck <= 5 && c.name == Some(o.name)))
    && (c.name.Some? ==> o.nameIsValid && c.name == Some(o.name) && c.server != AwaitsName)
    && (c.server == AwaitsName ==> c.serverSqn == c.serverAck == 2)
    && (c.server == AwaitsSize ==> c.serverSqn == 3 && c.serverAck == 2 && c.name == Some(o.name))
    && (c.server.Ready? ==> c.serverSqn == c.serverAck == 3 && c.name == Some(o.name) && c.size.Some?)
    && (c.server == Rejected ==>
          if c.name == None then !o.nameIsValid && c.serverSqn == c.serverAck == 3
          else !LeavesGap(o, |o.source|) && c.serverSqn == c.serverAck == 4)
  }

  /** The client has given up waiting for the acknowledgement of the filename, or later. */
  predicate GaveUpOnName(c: Cfg) {
    c.client == GaveUp && c.clientSqn == 3
  }

  predicate GaveUpLater(c: Cfg) {
    c.client == GaveUp && c.clientSqn == 4
  }

  /** Only a goodbye gives the server a wrong size, or moves its receiver; and it never brings data. */
  predicate ReceiverInv(o: Offer, c: Cfg) {
    c.server.Ready? ==>
      var r := c.server.r;
      && c.size.Some? && LeavesGap(o, c.size.value)
      && (c.size == Some(|o.source|) || (c.size == Some(0) && GaveUpOnName(c)))
      && r.file == [] && r.ack == r.sqn
      && (r.phase == FirstChunk ==> r.sqn == 3)
      && (r.phase != FirstChunk ==> GaveUpLater(c) && 4 <= r.sqn <= 5)
  }

  /** What the ends have sent stays in flight, up to the step each has reached. */
  ghost predicate SentInv(o: Offer, c: Cfg)
    requires |o.source| < MAX_UINT
  {
    && NamePacket(o, 2, 2) in c.toServer
    && (c.client == InformsSize || c.client == Started ==> SizePacket(o, 3, 3) in c.toServer)
    && (c.client == GaveUp ==> Goodbye(o, c.clientSqn, c.clientAck) <= c.toServer)
    && (c.name.Some? ==> Ack(o, 2, 2) in c.toClient)
    && (c.server.Ready? ==> Ack(o, 3, 3) in c.toClient)
    && (c.server == Rejected ==> Fin(o, c.serverSqn, c.serverAck) in c.toClient)
  }

  ghost predicate ToServerInv(o: Offer, c: Cfg)
    requires |o.source| < MAX_UINT
  {
    forall p :: p in c.toServer ==>
      || (p.sequenceNumber <= 1 && p.ackNumber <= 1 && !p.isFin)
      || p == NamePacket(o, 2, 2)
      || (p == SizePacket(o, 3, 3) && c.client != InformsName && !GaveUpOnName(c))
      || (c.client == GaveUp && p in Goodbye(o, c.clientSqn, c.clientAck))
  }

  ghost predicate ToClientInv(o: Offer, c: Cfg) {
    forall p :: p in c.toClient ==>
      && (p.isFin ==> c.server == Rejected)
      && (!p.isFin ==>
            && p.isAck && p.ackNumber <= 3 && p.sequenceNumber <= 3
            && (p.sequenceNumber == 2 && p.ackNumber == 2 ==> c.name == Some(o.name))
            && (p.sequenceNumber == 3 && p.ackNumber == 3 ==> c.server.Ready?))
  }

  ghost predicate Inv(o: Offer, c: Cfg)
    requires |o.source| < MAX_UINT
  {
    && StagesInv(o, c) && ReceiverInv(o, c) && SentInv(o, c) && ToServerInv(o, c)
    && (c.client != GaveUp ==> ToClientInv(o, c))
  }

  /** Where the size is expected, only the size and the goodbye of a client that never sent it have its number. */
  lemma SizeArrivesInv(o: Offer, c: Cfg, p: PacketGbn)
    requires |o.source| < MAX_UINT && Inv(o, c) && p in c.toServer && c.server == AwaitsSize
    ensures Inv(o, ServerStep(o, c, p))
  {
    UIntRoundTrip(|o.source|);
    if p.sequenceNumber == 3 {
      assert p == SizePacket(o, 3, 3) || (GaveUpOnName(c) && p.data == []);
    }
  }

  lemma ReadyServerInv(o: Offer, c: Cfg, p: PacketGbn)
    requires |o.source| < MAX_UINT && Inv(o, c) && p in c.toServer && c.server.Ready?
    ensures Inv(o, ServerStep(o, c, p))
  {
    var r := c.server.r;
    if p.sequenceNumber >= 4 {
      assert GaveUpLater(c) && p.data == [];
    }
  }

  lemma ServerStepInv(o: Offer, c: Cfg, p: PacketGbn)
    requires |o.source| < MAX_UINT && Inv(o, c) && p in c.toServer
    ensures Inv(o, ServerStep(o, c, p))
  {
    match c.server {
      case AwaitsName =>
      case AwaitsSize => SizeArrivesInv(o, c, p);
      case Ready(_) => ReadyServerInv(o, c, p);
      case Rejected =>
    }
  }

  lemma ClientStepInv(o: Offer, c: Cfg, p: PacketGbn)
    requires |o.source| < MAX_UINT && Inv(o, c) && p in c.toClient
    ensures Inv(o, ClientStep(o, c, p))
  {
  }

  lemma GiveUpInv(o: Offer, c: Cfg)
    requires |o.source| < MAX_UINT && Inv(o, c) && CanGiveUp(o, c)
    ensures Inv(o, GiveUp(o, c))
  {
  }

  lemma {:induction false} RunInv(o: Offer, from: Cfg, actions: seq<Action>, to: Cfg)
    requires |o.source| < MAX_UINT && Inv(o, from) && Runs(o, from, actions, to)
    ensures Inv(o, to)
    decreases |actions|
  {
    if actions == [] {
    } else {
      match actions[0] {
        case ClientHears(p) => ClientStepInv(o, from, p);
        case ServerHears(p) => ServerStepInv(o, from, p);
        case ClientGivesUp => GiveUpInv(o, from);
      }
      RunInv(o, Step(o, from, actions[0]), actions[1..], to);
    }
  }

  lemma InitInv(o: Offer, c: Cfg)
    requires |o.source| < MAX_UINT && Init(o, c)
    ensures Inv(o, c)
  {
  }

  /** The client does not give up. */
  predicate Patient(actions: seq<Action>) {
    forall a :: a in actions ==> !a.ClientGivesUp?
  }

  lemma {:induction false} PatientRun(o: Offer, from: Cfg, actions: seq<Action>, to: Cfg)
    requires |o.source| < MAX_UINT && Runs(o, from, actions, to) && Patient(actions) && from.client != GaveUp
    ensures to.client != GaveUp
    decreases |actions|
  {
    if actions == [] {
    } else {
      PatientRun(o, Step(o, from, actions[0]), actions[1..], to);
    }
  }

  /**
   * Lockstep: when the client starts sending chunks, the server has accepted exactly the filename and the size
   * that were sent, and all four counters are equal. A client that aborts was refused.
   */
  lemma ConfigurationLockstep(o: Offer, start: Cfg, actions: seq<Action>, c: Cfg)
    requires |o.source| < MAX_UINT && Init(o, start) && Runs(o, start, actions, c)
    ensures c.client == Started ==>
              && c.server.Ready? && c.name == Some(o.name) && c.size == Some(|o.source|)
              && c.clientSqn == c.clientAck == c.serverSqn == c.serverAck == 3
    ensures c.client == Aborted ==> !o.nameIsValid || !LeavesGap(o, |o.source|)
  {
    InitInv(o, start);
    RunInv(o, start, actions, c);
  }

  /** What is sent on the way, field by field; a datagram once sent stays in flight. */
  lemma PacketsOnTheWay(o: Offer, start: Cfg, c: Cfg, patient: bool)
    requires |o.source| < MAX_UINT && Init(o, start) && Reaches(o, start, c, patient)
    ensures PacketGbn(2, 2, false, false, false, o.port, |o.name|, o.name) in c.toServer
    ensures c.client == InformsSize || c.client == Started ==>
              exists size: Bytes ::
                && |size| == 4 && FromBytes(size) == |o.source|
                && PacketGbn(3, 3, false, false, false, o.port, 4, size) in c.toServer
    ensures c.name.Some? ==> PacketGbn(2, 2, true, false, false, o.serverPort, 0, []) in c.toClient
    ensures c.server.Ready? ==> PacketGbn(3, 3, true, false, false, o.serverPort, 0, []) in c.toClient
    ensures c.server == Rejected ==>
              var n := if o.nameIsValid then 4 else 3;
              PacketGbn(n, n, false, false, true, o.serverPort, 0, []) in c.toClient
    ensures c.client == GaveUp ==>
              var n, m := c.clientSqn, c.clientAck;
              && 3 <= n <= 4 && n <= m <= n + 1
              && PacketGbn(n, m, true, false, false, o.port, 0, []) in c.toServer
              && PacketGbn(n, m, false, false, true, o.serverPort, 0, []) in c.toServer
  {
    ReachesInv(o, start, c, patient);
    UIntRoundTrip(|o.source|);
    if c.client == InformsSize || c.client == Started {
      assert PacketGbn(3, 3, false, false, false, o.port, 4, UInt(|o.source|)) in c.toServer;
    }
    if c.client == GaveUp {
      var n, m := c.clientSqn, c.clientAck;
      assert PacketGbn(n, m, true, false, false, o.port, 0, []) in Goodbye(o, n, m);
      assert PacketGbn(n, m, false, false, true, o.serverPort, 0, []) in Goodbye(o, n, m);
    }
  }

  /** A size heard again while the first chunk is awaited is acknowledged again. */
  lemma RepeatedSizeIsAnswered(o: Offer, start: Cfg, c: Cfg, patient: bool)
    requires |o.source| < MAX_UINT && Init(o, start) && Reaches(o, start, c, patient)
    requires c.server.Ready? && c.server.r.phase == FirstChunk
    ensures var c' := ServerStep(o, c, SizePacket(o, 3, 3));
            var again := PacketGbn(3, 3, true, false, false, o.serverPort, 0, []);
            && c'.server.Ready? && c'.server.r.(outbox := c.server.r.outbox) == c.server.r
            && multiset(c'.server.r.outbox)[again] >= multiset(c.server.r.outbox)[again] + 1
            && c'.server.r.outbox != [] && c'.server.r.outbox[|c'.server.r.outbox| - 1] == again
            && again in c'.toClient
  {
    ReachesInv(o, start, c, patient);
  }

  /** The two phases meet: what a finished configuration leaves behind is where the upload's data phase begins. */
  lemma ConfigurationStartsUpload(o: Offer, start: Cfg, actions: seq<Action>, c: Cfg)
    requires 0 < |o.source| < MAX_UINT && Init(o, start) && Runs(o, start, actions, c) && c.client == Started
    ensures c.server.Ready? && GbnResults.IsUpload(UploadOf(o), o.source)
    ensures GbnSystem.Init(UploadOf(o), DataPhase(o, c))
  {
    InitInv(o, start);
    RunInv(o, start, actions, c);
    GbnResults.UploadOk(UploadOf(o), o.source);
  }

  // ----- runs, one step at a time

  ghost predicate Reaches(o: Offer, start: Cfg, c: Cfg, patient: bool)
    requires |o.source| < MAX_UINT
  {
    exists actions: seq<Action> :: Runs(o, start, actions, c) && (patient ==> Patient(actions))
  }

  lemma ReachesInv(o: Offer, start: Cfg, c: Cfg, patient: bool)
    requires |o.source| < MAX_UINT && Init(o, start) && Reaches(o, start, c, patient)
    ensures Inv(o, c) && (patient ==> c.client != GaveUp)
  {
    var actions: seq<Action> :| Runs(o, start, actions, c) && (patient ==> Patient(actions));
    InitInv(o, start);
    RunInv(o, start, actions, c);
    if patient { PatientRun(o, start, actions, c); }
  }

  lemma {:induction false} RunsSnoc(o: Offer, from: Cfg, actions: seq<Action>, c: Cfg, a: Action)
    requires |o.source| < MAX_UINT && Runs(o, from, actions, c) && Enabled(o, c, a)
    ensures Runs(o, from, actions + [a], Step(o, c, a))
    decreases |actions|
  {
    if actions == [] {
      assert [a][1..] == [];
    } else {
      RunsSnoc(o, Step(o, from, actions[0]), actions[1..], c, a);
      assert (actions + [a])[1..] == actions[1..] + [a];
    }
  }

  lemma Extend(o: Offer, start: Cfg, c: Cfg, a: Action, patient: bool) returns (c': Cfg)
    requires |o.source| < MAX_UINT && Reaches(o, start, c, patient) && Enabled(o, c, a)
    requires patient ==> !a.ClientGivesUp?
    ensures c' == Step(o, c, a) && Reaches(o, start, c', patient)
  {
    c' := Step(o, c, a);
    var actions: seq<Action> :| Runs(o, start, actions, c) && (patient ==> Patient(actions));
    RunsSnoc(o, start, actions, c, a);
  }

  /** The filename arrives and is accepted. */
  lemma NameAccepted(o: Offer, start: Cfg, patient: bool) returns (c: Cfg)
    requires |o.source| < MAX_UINT && Init(o, start) && o.nameIsValid
    ensures Reaches(o, start, c, patient)
    ensures c.server == AwaitsSize && c.serverSqn == 3 && c.serverAck == 2 && c.name == Some(o.name)
    ensures c.client == InformsName && c.clientSqn == c.clientAck == 2
    ensures Ack(o, 2, 2) in c.toClient && NamePacket(o, 2, 2) in c.toServer
  {
    assert Runs(o, start, [], start) && Patient([]);
    c := Extend(o, start, start, ServerHears(NamePacket(o, 2, 2)), patient);
  }

  /** And the size arrives; the server is ready, or refuses. */
  lemma SizeArrives(o: Offer, start: Cfg, patient: bool) returns (c: Cfg)
    requires |o.source| < MAX_UINT && Init(o, start) && o.nameIsValid
    ensures Reaches(o, start, c, patient) && c.name == Some(o.name)
    ensures c.client == InformsSize && c.clientSqn == c.clientAck == 3
    ensures if LeavesGap(o, |o.source|) then c.server == Ready(Receiver(3, 3, [], FirstChunk, []))
            else c.server == Rejected
    ensures c.size == Some(|o.source|) && (LeavesGap(o, |o.source|) ==> Ack(o, 3, 3) in c.toClient)
  {
    var named := NameAccepted(o, start, patient);
    var told := Extend(o, start, named, ClientHears(Ack(o, 2, 2)), patient);
    c := Extend(o, start, told, ServerHears(SizePacket(o, 3, 3)), patient);
    UIntRoundTrip(|o.source|);
  }

  // ----- how the configuration can end

  ghost predicate CanStart(o: Offer, start: Cfg, patient: bool)
    requires |o.source| < MAX_UINT
  {
    exists c: Cfg :: Reaches(o, start, c, patient) && c.client == Started
  }

  ghost predicate CanBeRefused(o: Offer, start: Cfg, patient: bool)
    requires |o.source| < MAX_UINT
  {
    exists c: Cfg :: Reaches(o, start, c, patient) && c.client == Aborted
  }

  lemma RefusedName(o: Offer, start: Cfg, patient: bool) returns (c: Cfg)
    requires |o.source| < MAX_UINT && Init(o, start) && !o.nameIsValid
    ensures Reaches(o, start, c, patient) && c.client == Aborted
  {
    assert Runs(o, start, [], start) && Patient([]);
    var refused := Extend(o, start, start, ServerHears(NamePacket(o, 2, 2)), patient);
    c := Extend(o, start, refused, ClientHears(Fin(o, 3, 3)), patient);
  }

  lemma RefusedSize(o: Offer, start: Cfg, patient: bool) returns (c: Cfg)
    requires |o.source| < MAX_UINT && Init(o, start) && o.nameIsValid && !LeavesGap(o, |o.source|)
    ensures Reaches(o, start, c, patient) && c.client == Aborted
  {
    var refused := SizeArrives(o, start, patient);
    ReachesInv(o, start, refused, patient);
    c := Extend(o, start, refused, ClientHears(Fin(o, 4, 4)), patient);
  }

  lemma AcceptedOffer(o: Offer, start: Cfg, patient: bool) returns (c: Cfg)
    requires |o.source| < MAX_UINT && Init(o, start) && o.nameIsValid && LeavesGap(o, |o.source|)
    ensures Reaches(o, start, c, patient) && c.client == Started
  {
    var ready := SizeArrives(o, start, patient);
    c := Extend(o, start, ready, ClientHears(Ack(o, 3, 3)), patient);
  }

  /**
   * From every start the client can get to sending chunks exactly if the server can create the file and keeps its gap
   * free, and is refused in some run exactly if not.
   */
  lemma ConfigurationOutcome(o: Offer, start: Cfg, patient: bool)
    requires |o.source| < MAX_UINT && Init(o, start)
    ensures CanStart(o, start, patient) <==> o.nameIsValid && LeavesGap(o, |o.source|)
    ensures CanBeRefused(o, start, patient) <==> !o.nameIsValid || !LeavesGap(o, |o.source|)
  {
    forall c: Cfg | Reaches(o, start, c, patient)
      ensures c.client == Started ==> o.nameIsValid && LeavesGap(o, |o.source|)
      ensures c.client == Aborted ==> !o.nameIsValid || !LeavesGap(o, |o.source|)
    {
      ReachesInv(o, start, c, patient);
    }
    if !o.nameIsValid {
      var c := RefusedName(o, start, patient);
    } else if LeavesGap(o, |o.source|) {
      var c := AcceptedOffer(o, start, patient);
    } else {
      var c := RefusedSize(o, start, patient);
    }
  }
}
