/**
 * The stop-and-wait protocol: one-bit sequence numbers, and both ends repeat their last packet on a timeout and on
 * every packet they do not want. Channels may lose and duplicate any packet. The guarantees assume that they are
 * first-in first-out; a packet that overtakes others is a step of its own, and such runs are kept apart.
 *
 * An upload transfers the filename, the size and the chunks as one sequence of items, a download the chunks alone,
 * the first of which answers the request.
 */
module StopAndWait {
  import opened Chunking
  import opened PacketFormat
  import opened SequenceNumbers

  datatype Direction = Upload | Download

  /**
   * `oldData` and `oldAck` are the last packets of the exchange before the first item: the request and its
   * confirmation in an upload, the confirmation and the filename in a download.
   */
  datatype Plan = Plan(
    direction: Direction, items: seq<Bytes>, senderPort: int, receiverPort: int, oldData: PacketSaw, oldAck: PacketSaw)

  ghost predicate PlanOk(p: Plan) {
    && p.items != [] && (p.direction == Upload ==> |p.items| >= 2)
    && (forall i :: 0 <= i < |p.items| ==> p.items[i] != [])
    && p.oldData.sequenceNumber == 1 && !p.oldData.isFin
    && !p.oldAck.isFin
    && (match p.direction
        case Upload => p.oldAck.sequenceNumber == 1
        case Download => p.oldAck.sequenceNumber == 0 && !p.oldAck.isAck)
  }

  /** Whether there is a chunk at all. In the upload of an empty file the size comes last, and nothing is a FIN. */
  predicate HasChunks(p: Plan) {
    p.direction == Download || |p.items| > 2
  }

  /**
   * `LastWait` is the second wait for the same bit that follows when no chunk was sent. `GaveUp` is a client that has
   * lost the connection and said goodbye.
   */
  datatype SenderPhase = Waiting | LastWait | Closed | GaveUp

  /** `item` counts what has been sent; the bit is all that travels. */
  datatype Sender = Sender(item: int, bit: int, phase: SenderPhase, lastRaw: PacketSaw, outbox: seq<PacketSaw>)

  datatype Receiver = Receiver(bit: int, accepted: seq<Bytes>, done: bool, lastRaw: PacketSaw, outbox: seq<PacketSaw>)

  function DataPacket(p: Plan, item: int, bit: int): PacketSaw
    requires 0 <= item < |p.items|
  {
    PacketSaw(bit, p.direction == Download && item == 0, false, item == |p.items| - 1 && HasChunks(p), p.senderPort,
              |p.items[item]|, p.items[item])
  }

  function AckPacket(p: Plan, bit: int): PacketSaw {
    PacketSaw(bit, true, false, false, p.receiverPort, 0, [])
  }

  /** A FIN without data names the server's port, whichever end sends it. */
  function FinPacket(p: Plan, bit: int): PacketSaw {
    PacketSaw(bit, false, false, true, if p.direction == Upload then p.receiverPort else p.senderPort, 0, [])
  }

  // ----- the sender

  function Transmit(s: Sender, q: PacketSaw): Sender {
    s.(lastRaw := q, outbox := s.outbox + [q])
  }

  function SendItem(p: Plan, s: Sender): Sender
    requires 0 <= s.item < |p.items|
  {
    Transmit(s, DataPacket(p, s.item, s.bit))
  }

  /** Every item is confirmed by a plain acknowledgement, except the last chunk. */
  predicate WantsPlainAck(p: Plan, s: Sender) {
    s.phase == Waiting && (s.item < |p.items| - 1 || !HasChunks(p))
  }

  /** The wait for an acknowledgement; in the last one a FIN will do as well. */
  predicate SenderAccepts(p: Plan, s: Sender, q: PacketSaw) {
    && q.sequenceNumber == s.bit
    && if WantsPlainAck(p, s) then q.isAck && !q.isFin else q.isAck || q.isFin
  }

  function NextItem(p: Plan, s: Sender): Sender
    requires -1 <= s.item < |p.items| - 1
  {
    SendItem(p, s.(item := s.item + 1, bit := StepSaw(s.bit)))
  }

  function ClosingAck(p: Plan, bit: int): PacketSaw {
    PacketSaw(bit, true, false, false, p.senderPort, 0, [])
  }

  function CloseSender(p: Plan, s: Sender): Sender {
    var bit := StepSaw(s.bit);
    Transmit(s.(bit := bit, phase := Closed), ClosingAck(p, bit))
  }

  /** What an accepted packet leads to. */
  function MoveOn(p: Plan, s: Sender): Sender
    requires 0 <= s.item < |p.items|
  {
    if s.item < |p.items| - 1 then NextItem(p, s)
    else if WantsPlainAck(p, s) then s.(phase := LastWait)
    else CloseSender(p, s)
  }

  /** What the sender does with one packet: move on, or repeat itself. */
  function SenderGets(p: Plan, s: Sender, q: PacketSaw): Sender
    requires 0 <= s.item < |p.items|
  {
    if s.phase == Closed then s
    else if !SenderAccepts(p, s, q) then Transmit(s, s.lastRaw)
    else if s.phase == GaveUp then s
    else MoveOn(p, s)
  }

  /** A client that loses the connection still acknowledges and sends its own FIN, both with the next bit. */
  function GiveUp(p: Plan, s: Sender): Sender {
    var bit := StepSaw(s.bit);
    Transmit(Transmit(s.(phase := GaveUp, bit := StepSaw(bit)), ClosingAck(p, bit)), FinPacket(p, bit))
  }

  // ----- the receiver

  /** Items are told by their bit alone, except that the first chunk of a download must acknowledge the request. */
  predicate ReceiverAccepts(p: Plan, r: Receiver, q: PacketSaw) {
    && q.sequenceNumber == r.bit
    && (p.direction == Download && r.accepted == [] ==> q.isAck && (q.isFin ==> q.payloadLength > 0))
  }

  function Reply(r: Receiver, q: PacketSaw): Receiver {
    r.(lastRaw := q, outbox := r.outbox + [q])
  }

  /** A FIN ends the file, but nobody looks for one where a filename or a size is expected. */
  predicate Ends(p: Plan, r: Receiver, q: PacketSaw) {
    q.isFin && (p.direction == Upload ==> |r.accepted| >= 2)
  }

  function ReceiverGets(p: Plan, r: Receiver, q: PacketSaw): Receiver {
    if r.done || !ReceiverAccepts(p, r, q) then Reply(r, r.lastRaw)
    else
      var r' := Reply(r, AckPacket(p, r.bit));
      if Ends(p, r, q) then Reply(r'.(accepted := r.accepted + [q.data], done := true), FinPacket(p, r.bit))
      else r'.(accepted := r.accepted + [q.data], bit := StepSaw(r.bit))
  }

  /** The client of a download that loses the connection says goodbye in the same way. */
  function Leave(p: Plan, r: Receiver): Receiver {
    var bit := StepSaw(r.bit);
    Reply(Reply(r, AckPacket(p, bit)), FinPacket(p, bit))
  }

  // ----- both ends and the two channels

  /** `left` tells that the receiver, the client of a download, has given up. */
  datatype Sys = Sys(s: Sender, r: Receiver, left: bool, toReceiver: seq<PacketSaw>, toSender: seq<PacketSaw>)

  datatype Action =
    | SenderHears
    | ReceiverHears
    | SenderRepeats
    | ReceiverRepeats
    | SenderGivesUp
    | ReceiverGivesUp
    | LosesToReceiver(at: nat)
    | LosesToSender(at: nat)
    | DuplicatesToReceiver(at: nat)
    | DuplicatesToSender(at: nat)
    | OvertakesToReceiver(at: nat)

  predicate Enabled(p: Plan, sys: Sys, a: Action) {
    match a
    case SenderHears => sys.toSender != []
    case ReceiverHears => sys.toReceiver != []
    case SenderRepeats => true
    case ReceiverRepeats => true
    case SenderGivesUp => p.direction == Upload && (sys.s.phase == Waiting || sys.s.phase == LastWait)
    case ReceiverGivesUp => p.direction == Download && !sys.r.done && !sys.left
    case LosesToReceiver(at) => at < |sys.toReceiver|
    case LosesToSender(at) => at < |sys.toSender|
    case DuplicatesToReceiver(at) => at < |sys.toReceiver|
    case DuplicatesToSender(at) => at < |sys.toSender|
    case OvertakesToReceiver(at) => at < |sys.toReceiver|
  }

  function Drop(ch: seq<PacketSaw>, at: nat): seq<PacketSaw>
    requires at < |ch|
  {
    ch[..at] + ch[at + 1..]
  }

  function Double(ch: seq<PacketSaw>, at: nat): seq<PacketSaw>
    requires at < |ch|
  {
    ch[..at + 1] + ch[at..]
  }

  /** What an endpoint has put on its log since, which is what goes into its channel. */
  function Sent(before: seq<PacketSaw>, after: seq<PacketSaw>): seq<PacketSaw> {
    if |before| <= |after| then after[|before|..] else []
  }

  function Step(p: Plan, sys: Sys, a: Action): Sys
    requires Enabled(p, sys, a) && 0 <= sys.s.item < |p.items|
  {
    match a
    case SenderHears =>
      var s' := SenderGets(p, sys.s, sys.toSender[0]);
      sys.(s := s', toSender := sys.toSender[1..], toReceiver := sys.toReceiver + Sent(sys.s.outbox, s'.outbox))
    case ReceiverHears =>
      var r' := if sys.left then Reply(sys.r, sys.r.lastRaw) else ReceiverGets(p, sys.r, sys.toReceiver[0]);
      sys.(r := r', toReceiver := sys.toReceiver[1..], toSender := sys.toSender + Sent(sys.r.outbox, r'.outbox))
    case SenderRepeats =>
      sys.(s := Transmit(sys.s, sys.s.lastRaw), toReceiver := sys.toReceiver + [sys.s.lastRaw])
    case ReceiverRepeats =>
      sys.(r := Reply(sys.r, sys.r.lastRaw), toSender := sys.toSender + [sys.r.lastRaw])
    case SenderGivesUp =>
      var s' := GiveUp(p, sys.s);
      sys.(s := s', toReceiver := sys.toReceiver + Sent(sys.s.outbox, s'.outbox))
    case ReceiverGivesUp =>
      var r' := Leave(p, sys.r);
      sys.(r := r', left := true, toSender := sys.toSender + Sent(sys.r.outbox, r'.outbox))
    case LosesToReceiver(at) => sys.(toReceiver := Drop(sys.toReceiver, at))
    case LosesToSender(at) => sys.(toSender := Drop(sys.toSender, at))
    case DuplicatesToReceiver(at) => sys.(toReceiver := Double(sys.toReceiver, at))
    case DuplicatesToSender(at) => sys.(toSender := Double(sys.toSender, at))
    case OvertakesToReceiver(at) => sys.(toReceiver := [sys.toReceiver[at]] + Drop(sys.toReceiver, at))
  }

  ghost predicate Runs(p: Plan, from: Sys, actions: seq<Action>, to: Sys)
    decreases |actions|
  {
    if actions == [] then from == to
    else
      && Enabled(p, from, actions[0]) && 0 <= from.s.item < |p.items|
      && Runs(p, Step(p, from, actions[0]), actions[1..], to)
  }

  // ----- old copies, then new copies

  /** Everything in the channel is `stale` up to some place and `recent` from there on. */
  ghost predicate OldThenNew(ch: seq<PacketSaw>, stale: PacketSaw, recent: set<PacketSaw>) {
    exists m :: Boundary(ch, m, stale, recent)
  }

  ghost predicate Boundary(ch: seq<PacketSaw>, m: int, stale: PacketSaw, recent: set<PacketSaw>) {
    && 0 <= m <= |ch|
    && (forall j :: 0 <= j < m ==> ch[j] == stale)
    && (forall j :: m <= j < |ch| ==> ch[j] in recent)
  }

  ghost predicate AllIn(ch: seq<PacketSaw>, recent: set<PacketSaw>) {
    forall j :: 0 <= j < |ch| ==> ch[j] in recent
  }

  function Label(i: int): int { i % 2 }

  /** The data packet of item `i`; the one before the first item is left over from the exchange before. */
  function DataOf(p: Plan, i: int): PacketSaw
    requires -1 <= i < |p.items|
  {
    if i == -1 then p.oldData else DataPacket(p, i, Label(i))
  }

  function AckOf(p: Plan, i: int): PacketSaw
    requires -1 <= i < |p.items|
  {
    if i == -1 then p.oldAck else AckPacket(p, Label(i))
  }

  /** What the receiver sends once it has accepted item `i`: after the last chunk a FIN too. */
  function RepliesTo(p: Plan, i: int): set<PacketSaw>
    requires -1 <= i < |p.items|
  {
    if i == |p.items| - 1 && HasChunks(p) then {AckOf(p, i), FinPacket(p, Label(i))} else {AckOf(p, i)}
  }

  ghost predicate Init(p: Plan, sys: Sys) {
    && PlanOk(p)
    && sys.s == Sender(0, 0, Waiting, DataOf(p, 0), [DataOf(p, 0)])
    && sys.r == Receiver(0, [], false, p.oldAck, [])
    && !sys.left
    && OldThenNew(sys.toReceiver, p.oldData, {DataOf(p, 0)})
    && AllIn(sys.toSender, {p.oldAck})
  }

  /** No packet overtakes another. */
  predicate KeepsOrder(actions: seq<Action>) {
    forall a :: a in actions ==> !a.OvertakesToReceiver?
  }

  /** The client of an upload does not give up. */
  predicate Patient(actions: seq<Action>) {
    forall a :: a in actions ==> !a.SenderGivesUp?
  }

  ghost predicate ReachableOver(p: Plan, sys: Sys, ordered: bool, patient: bool) {
    exists start: Sys, actions: seq<Action> ::
      && Init(p, start) && (ordered ==> KeepsOrder(actions)) && (patient ==> Patient(actions))
      && Runs(p, start, actions, sys)
  }

  /** The channels keep their order, which is what the protocol relies on. */
  ghost predicate Reachable(p: Plan, sys: Sys) {
    ReachableOver(p, sys, true, false)
  }

  /** And no client of an upload has given up on the way. */
  ghost predicate ReachablePatiently(p: Plan, sys: Sys) {
    ReachableOver(p, sys, true, true)
  }

  // ----- the invariant

  ghost predicate EndpointsInv(p: Plan, s: Sender, r: Receiver) {
    var n, k := |p.items|, |r.accepted|;
    && 0 <= s.item < n && k <= n
    && (k == s.item || k == s.item + 1)
    && r.accepted == p.items[..k]
    && (r.done <==> k == n && HasChunks(p))
    && (!r.done ==> r.bit == Label(k))
    && r.lastRaw == (if r.done then FinPacket(p, Label(n - 1)) else AckOf(p, k - 1))
    && (s.phase != Closed ==> s.bit == Label(s.item) && s.lastRaw == DataOf(p, s.item))
    && (s.phase != Waiting ==> s.item == n - 1 && k == n)
    && (s.phase == LastWait ==> !HasChunks(p))
  }

  ghost predicate ChannelsInv(p: Plan, sys: Sys)
    requires 0 <= sys.s.item < |p.items|
  {
    var i, k := sys.s.item, |sys.r.accepted|;
    sys.s.phase != Closed ==>
      if k == i then
        && OldThenNew(sys.toReceiver, DataOf(p, i - 1), {DataOf(p, i)})
        && AllIn(sys.toSender, {AckOf(p, i - 1)})
      else
        && AllIn(sys.toReceiver, {DataOf(p, i)})
        && OldThenNew(sys.toSender, AckOf(p, i - 1), RepliesTo(p, i))
  }

  /**
   * The client of an empty file has closed. Its closing acknowledgement has the bit the server waits for, and the
   * server looks at nothing else: it takes the first copy for an empty chunk.
   */
  ghost predicate ClosedWithoutFin(p: Plan, sys: Sys)
    requires |p.items| == 2
  {
    var late := ClosingAck(p, 0);
    && sys.s.item == 1 && sys.s.lastRaw == late && !sys.r.done
    && (|| (&& sys.r.accepted == p.items && sys.r.bit == 0
            && OldThenNew(sys.toReceiver, DataOf(p, 1), {late}))
        || (sys.r.accepted == p.items + [[]] && sys.r.bit == 1 && AllIn(sys.toReceiver, {late})))
  }

  /** What a client that gives up on item `i` puts into the channel. */
  function Goodbye(p: Plan, i: int): set<PacketSaw> {
    {ClosingAck(p, Label(i + 1)), FinPacket(p, Label(i + 1))}
  }

  /** Everything is `stale`, then `recent`, then in `late`. */
  ghost predicate ThreeParts(ch: seq<PacketSaw>, stale: PacketSaw, recent: set<PacketSaw>, late: set<PacketSaw>) {
    exists m :: 0 <= m <= |ch| && OldThenNew(ch[..m], stale, recent) && AllIn(ch[m..], late)
  }

  /**
   * The client of an upload has given up on item `i`. A server that has accepted the item waits for the very bit of
   * the goodbye, and takes the first of the two packets that reaches it for the next item.
   */
  ghost predicate GaveUpInv(p: Plan, s: Sender, r: Receiver, toReceiver: seq<PacketSaw>)
    requires 0 <= s.item < |p.items|
  {
    var i, n := s.item, |p.items|;
    && s.lastRaw == FinPacket(p, Label(i + 1))
    && if |r.accepted| <= i then
         && r.accepted == p.items[..i] && !r.done && r.bit == Label(i)
         && ThreeParts(toReceiver, DataOf(p, i - 1), {DataOf(p, i)}, Goodbye(p, i))
       else if |r.accepted| == i + 1 then
         && r.accepted == p.items[..i + 1] && (r.done <==> i + 1 == n && HasChunks(p))
         && (!r.done ==> r.bit == Label(i + 1))
         && OldThenNew(toReceiver, DataOf(p, i), Goodbye(p, i))
       else
         && r.accepted == p.items[..i + 1] + [[]]
         && (r.done ==> i >= 1) && (!r.done ==> r.bit == Label(i))
         && (i + 1 < n || !HasChunks(p))
         && AllIn(toReceiver, Goodbye(p, i))
  }

  /** The sender of a download, at item `i`, takes this for no answer. */
  predicate NoAnswer(i: int, q: PacketSaw) {
    q.sequenceNumber != Label(i) || (!q.isAck && !q.isFin)
  }

  ghost predicate NoneAnswers(ch: seq<PacketSaw>, i: int) {
    forall j :: 0 <= j < |ch| ==> NoAnswer(i, ch[j])
  }

  /** The client of a download has given up: its goodbye only repeats the truth about the last chunk it accepted. */
  ghost predicate LeftInv(p: Plan, sys: Sys) {
    var i, n, k := sys.s.item, |p.items|, |sys.r.accepted|;
    && 0 <= i < n && k < n && (k == i || k == i + 1) && sys.r.accepted == p.items[..k] && !sys.r.done
    && sys.s.phase == Waiting && sys.s.bit == Label(i) && sys.s.lastRaw == DataOf(p, i)
    && sys.r.lastRaw == FinPacket(p, Label(k + 1))
    && if k == i then NoneAnswers(sys.toSender, i)
       else OldThenNew(sys.toSender, AckOf(p, i - 1), {AckOf(p, i), FinPacket(p, Label(i))})
  }

  ghost predicate Inv(p: Plan, sys: Sys) {
    && PlanOk(p) && 0 <= sys.s.item < |p.items|
    && (sys.left ==> p.direction == Download) && (sys.s.phase == GaveUp ==> p.direction == Upload)
    && if sys.s.phase == GaveUp then GaveUpInv(p, sys.s, sys.r, sys.toReceiver)
       else if sys.left then LeftInv(p, sys)
       else if sys.s.phase == Closed && !HasChunks(p) then ClosedWithoutFin(p, sys)
       else EndpointsInv(p, sys.s, sys.r) && ChannelsInv(p, sys)
  }

  // ----- channels keep their shape

  lemma AppendNew(ch: seq<PacketSaw>, stale: PacketSaw, recent: set<PacketSaw>, more: seq<PacketSaw>)
    requires OldThenNew(ch, stale, recent) && AllIn(more, recent)
    ensures OldThenNew(ch + more, stale, recent)
  {
    var m :| Boundary(ch, m, stale, recent);
    assert Boundary(ch + more, m, stale, recent);
  }

  lemma BecomesOld(ch: seq<PacketSaw>, stale: PacketSaw, recent: set<PacketSaw>, more: seq<PacketSaw>)
    requires AllIn(ch, {stale}) && AllIn(more, recent)
    ensures OldThenNew(ch + more, stale, recent)
  {
    assert Boundary(ch + more, |ch|, stale, recent);
  }

  lemma WiderNew(ch: seq<PacketSaw>, stale: PacketSaw, recent: set<PacketSaw>, wider: set<PacketSaw>)
    requires OldThenNew(ch, stale, recent) && recent <= wider
    ensures OldThenNew(ch, stale, wider)
  {
    var m :| Boundary(ch, m, stale, recent);
    assert Boundary(ch, m, stale, wider);
  }

  /** Taking the head: if it is already a new one, only new ones are left. */
  lemma TakeHead(ch: seq<PacketSaw>, stale: PacketSaw, recent: set<PacketSaw>)
    requires ch != [] && OldThenNew(ch, stale, recent)
    ensures OldThenNew(ch[1..], stale, recent)
    ensures ch[0] == stale || ch[0] in recent
    ensures ch[0] != stale ==> AllIn(ch[1..], recent)
  {
    var m :| Boundary(ch, m, stale, recent);
    assert Boundary(ch[1..], if m > 0 then m - 1 else 0, stale, recent);
  }

  lemma ChannelFaults(ch: seq<PacketSaw>, at: nat, stale: PacketSaw, recent: set<PacketSaw>)
    requires at < |ch|
    ensures OldThenNew(ch, stale, recent) ==>
              OldThenNew(Drop(ch, at), stale, recent) && OldThenNew(Double(ch, at), stale, recent)
    ensures AllIn(ch, recent) ==> AllIn(Drop(ch, at), recent) && AllIn(Double(ch, at), recent)
  {
    if OldThenNew(ch, stale, recent) {
      var m :| Boundary(ch, m, stale, recent);
      assert Boundary(Drop(ch, at), if at < m then m - 1 else m, stale, recent);
      assert Boundary(Double(ch, at), if at < m then m + 1 else m, stale, recent);
    }
  }

  /** A fault before place `m` shifts what follows; one after it leaves what precedes. */
  lemma FaultSplits(ch: seq<PacketSaw>, at: nat, m: nat)
    requires at < |ch| && m <= |ch|
    ensures at < m ==>
              && Drop(ch, at)[..m - 1] == Drop(ch[..m], at) && Drop(ch, at)[m - 1..] == ch[m..]
              && Double(ch, at)[..m + 1] == Double(ch[..m], at) && Double(ch, at)[m + 1..] == ch[m..]
    ensures at >= m ==>
              && Drop(ch, at)[..m] == ch[..m] && Drop(ch, at)[m..] == Drop(ch[m..], at - m)
              && Double(ch, at)[..m] == ch[..m] && Double(ch, at)[m..] == Double(ch[m..], at - m)
  {
  }

  lemma ThreePartsFaults(ch: seq<PacketSaw>, at: nat, stale: PacketSaw, recent: set<PacketSaw>, late: set<PacketSaw>)
    requires at < |ch| && ThreeParts(ch, stale, recent, late)
    ensures ThreeParts(Drop(ch, at), stale, recent, late) && ThreeParts(Double(ch, at), stale, recent, late)
  {
    var m :| 0 <= m <= |ch| && OldThenNew(ch[..m], stale, recent) && AllIn(ch[m..], late);
    FaultSplits(ch, at, m);
    if at < m {
      ChannelFaults(ch[..m], at, stale, recent);
    } else {
      ChannelFaults(ch[m..], at - m, stale, late);
    }
  }

  lemma ThreePartsAppend(ch: seq<PacketSaw>, stale: PacketSaw, recent: set<PacketSaw>, late: set<PacketSaw>,
                         more: seq<PacketSaw>)
    requires ThreeParts(ch, stale, recent, late) && AllIn(more, late)
    ensures ThreeParts(ch + more, stale, recent, late)
  {
    var m :| 0 <= m <= |ch| && OldThenNew(ch[..m], stale, recent) && AllIn(ch[m..], late);
    assert (ch + more)[..m] == ch[..m] && (ch + more)[m..] == ch[m..] + more;
  }

  lemma ThreePartsBegin(ch: seq<PacketSaw>, stale: PacketSaw, recent: set<PacketSaw>, late: set<PacketSaw>,
                        more: seq<PacketSaw>)
    requires OldThenNew(ch, stale, recent) && AllIn(more, late)
    ensures ThreeParts(ch + more, stale, recent, late)
  {
    assert (ch + more)[..|ch|] == ch && (ch + more)[|ch|..] == more;
  }

  /** Taking the head: it is old, or new and then nothing old is left, or late and then only late ones are left. */
  lemma ThreePartsHead(ch: seq<PacketSaw>, stale: PacketSaw, recent: PacketSaw, late: set<PacketSaw>)
    requires ch != [] && ThreeParts(ch, stale, {recent}, late)
    ensures ThreeParts(ch[1..], stale, {recent}, late)
    ensures ch[0] == stale || ch[0] == recent || ch[0] in late
    ensures ch[0] == recent != stale && recent !in late ==> OldThenNew(ch[1..], recent, late)
  {
    var m :| 0 <= m <= |ch| && OldThenNew(ch[..m], stale, {recent}) && AllIn(ch[m..], late);
    if m == 0 {
      assert Boundary([], 0, stale, {recent});
      assert ch[1..][..0] == [] && AllIn(ch[1..][0..], late);
    } else {
      TakeHead(ch[..m], stale, {recent});
      assert ch[1..][..m - 1] == ch[..m][1..] && ch[1..][m - 1..] == ch[m..];
      if ch[0] == recent != stale {
        assert AllIn(ch[..m][1..], {recent});
        assert forall j :: 0 <= j < m - 1 ==> ch[1..][j] == ch[..m][1..][j];
        assert forall j :: m - 1 <= j < |ch| - 1 ==> ch[1..][j] == ch[m..][j - (m - 1)];
        assert Boundary(ch[1..], m - 1, recent, late);
      }
    }
  }

  // ----- each step keeps the invariant

  /** Neither client has given up. */
  predicate BothStay(sys: Sys) {
    sys.s.phase != GaveUp && !sys.left
  }

  lemma InitInv(p: Plan, sys: Sys)
    requires Init(p, sys)
    ensures Inv(p, sys)
  {
    assert p.items[..0] == [];
  }

  predicate IsFault(a: Action) {
    a.LosesToReceiver? || a.LosesToSender? || a.DuplicatesToReceiver? || a.DuplicatesToSender?
  }

  lemma FaultInv(p: Plan, sys: Sys, a: Action)
    requires Inv(p, sys) && Enabled(p, sys, a)
    requires IsFault(a) && BothStay(sys)
    ensures Inv(p, Step(p, sys, a))
  {
    var i := sys.s.item;
    if a.LosesToReceiver? || a.DuplicatesToReceiver? {
      ChannelFaults(sys.toReceiver, a.at, DataOf(p, i - 1), {DataOf(p, i)});
      if !HasChunks(p) { ChannelFaults(sys.toReceiver, a.at, DataOf(p, 1), {ClosingAck(p, 0)}); }
    } else {
      ChannelFaults(sys.toSender, a.at, AckOf(p, i - 1), {AckOf(p, i - 1)});
      ChannelFaults(sys.toSender, a.at, AckOf(p, i - 1), RepliesTo(p, i));
    }
  }

  lemma RepeatInv(p: Plan, sys: Sys, a: Action)
    requires Inv(p, sys) && Enabled(p, sys, a) && (a == SenderRepeats || a == ReceiverRepeats) && BothStay(sys)
    ensures Inv(p, Step(p, sys, a))
  {
    var i, k := sys.s.item, |sys.r.accepted|;
    if sys.s.phase == Closed {
      if a == SenderRepeats && !HasChunks(p) && sys.r.accepted == p.items {
        AppendNew(sys.toReceiver, DataOf(p, 1), {ClosingAck(p, 0)}, [sys.s.lastRaw]);
      }
    } else if a == SenderRepeats && k == i {
      AppendNew(sys.toReceiver, DataOf(p, i - 1), {DataOf(p, i)}, [sys.s.lastRaw]);
    } else if a == ReceiverRepeats && k != i {
      AppendNew(sys.toSender, AckOf(p, i - 1), RepliesTo(p, i), [sys.r.lastRaw]);
    }
  }

  lemma ReceiverAcceptsInv(p: Plan, sys: Sys)
    requires Inv(p, sys) && BothStay(sys) && sys.s.phase != Closed && |sys.r.accepted| == sys.s.item
    requires sys.toReceiver != [] && sys.toReceiver[0] == DataOf(p, sys.s.item)
    requires AllIn(sys.toReceiver[1..], {DataOf(p, sys.s.item)})
    ensures Inv(p, Step(p, sys, ReceiverHears))
  {
    var i := sys.s.item;
    var sys' := Step(p, sys, ReceiverHears);
    assert sys'.r.accepted == p.items[..i + 1];
    BecomesOld(sys.toSender, AckOf(p, i - 1), RepliesTo(p, i), Sent(sys.r.outbox, sys'.r.outbox));
  }

  lemma ReceiverHearsInv(p: Plan, sys: Sys)
    requires Inv(p, sys) && BothStay(sys) && Enabled(p, sys, ReceiverHears) && sys.s.phase != Closed
    ensures Inv(p, Step(p, sys, ReceiverHears))
  {
    var i, k, q := sys.s.item, |sys.r.accepted|, sys.toReceiver[0];
    var sys' := Step(p, sys, ReceiverHears);
    if k == i {
      TakeHead(sys.toReceiver, DataOf(p, i - 1), {DataOf(p, i)});
      if q == DataOf(p, i) {
        assert DataOf(p, i - 1).sequenceNumber != q.sequenceNumber;
        ReceiverAcceptsInv(p, sys);
      } else {
        assert Sent(sys.r.outbox, sys'.r.outbox) == [sys.r.lastRaw];
      }
    } else {
      assert q == DataOf(p, i);
      assert Sent(sys.r.outbox, sys'.r.outbox) == [sys.r.lastRaw];
      AppendNew(sys.toSender, AckOf(p, i - 1), RepliesTo(p, i), [sys.r.lastRaw]);
    }
  }

  lemma HearsAfterCloseInv(p: Plan, sys: Sys, a: Action)
    requires Inv(p, sys) && Enabled(p, sys, a) && (a == SenderHears || a == ReceiverHears)
    requires BothStay(sys) && sys.s.phase == Closed
    ensures Inv(p, Step(p, sys, a))
  {
    if a == SenderHears {
      assert Step(p, sys, a).toReceiver == sys.toReceiver;
    } else if !HasChunks(p) && sys.r.accepted == p.items {
      TakeHead(sys.toReceiver, DataOf(p, 1), {ClosingAck(p, 0)});
    }
  }

  lemma SenderHearsInv(p: Plan, sys: Sys)
    requires Inv(p, sys) && BothStay(sys) && Enabled(p, sys, SenderHears) && sys.s.phase != Closed
    ensures Inv(p, Step(p, sys, SenderHears))
  {
    var i, k, q := sys.s.item, |sys.r.accepted|, sys.toSender[0];
    var sys' := Step(p, sys, SenderHears);
    if k == i {
      assert q == AckOf(p, i - 1);
      assert Sent(sys.s.outbox, sys'.s.outbox) == [sys.s.lastRaw];
      AppendNew(sys.toReceiver, DataOf(p, i - 1), {DataOf(p, i)}, [sys.s.lastRaw]);
    } else {
      TakeHead(sys.toSender, AckOf(p, i - 1), RepliesTo(p, i));
      if SenderAccepts(p, sys.s, q) {
        SenderMovesOnInv(p, sys);
      } else {
        assert Sent(sys.s.outbox, sys'.s.outbox) == [sys.s.lastRaw];
      }
    }
  }

  lemma SenderMovesOnInv(p: Plan, sys: Sys)
    requires Inv(p, sys) && BothStay(sys) && Enabled(p, sys, SenderHears) && sys.s.phase != Closed
    requires |sys.r.accepted| == sys.s.item + 1 && SenderAccepts(p, sys.s, sys.toSender[0])
    requires OldThenNew(sys.toSender[1..], AckOf(p, sys.s.item - 1), RepliesTo(p, sys.s.item))
    requires sys.toSender[0] != AckOf(p, sys.s.item - 1) ==> AllIn(sys.toSender[1..], RepliesTo(p, sys.s.item))
    requires sys.toSender[0] == AckOf(p, sys.s.item - 1) || sys.toSender[0] in RepliesTo(p, sys.s.item)
    ensures Inv(p, Step(p, sys, SenderHears))
  {
    var i := sys.s.item;
    var sys' := Step(p, sys, SenderHears);
    assert sys.toSender[0] != AckOf(p, i - 1);
    if i < |p.items| - 1 {
      BecomesOld(sys.toReceiver, DataOf(p, i), {DataOf(p, i + 1)}, Sent(sys.s.outbox, sys'.s.outbox));
    } else if sys.s.phase == LastWait {
      assert p.items[..2] == p.items;
      BecomesOld(sys.toReceiver, DataOf(p, 1), {ClosingAck(p, 0)}, Sent(sys.s.outbox, sys'.s.outbox));
    } else if !HasChunks(p) {
      assert Sent(sys.s.outbox, sys'.s.outbox) == [];
      assert sys'.toReceiver == sys.toReceiver;
    }
  }

  /** The client of an upload gives up: its goodbye is behind everything else in the channel. */
  lemma SenderGivesUpInv(p: Plan, sys: Sys)
    requires Inv(p, sys) && Enabled(p, sys, SenderGivesUp)
    ensures Inv(p, Step(p, sys, SenderGivesUp))
  {
    var i := sys.s.item;
    var sys' := Step(p, sys, SenderGivesUp);
    var more := Sent(sys.s.outbox, sys'.s.outbox);
    assert more == [ClosingAck(p, Label(i + 1)), FinPacket(p, Label(i + 1))];
    assert AllIn(more, Goodbye(p, i));
    if |sys.r.accepted| == i {
      ThreePartsBegin(sys.toReceiver, DataOf(p, i - 1), {DataOf(p, i)}, Goodbye(p, i), more);
    } else {
      BecomesOld(sys.toReceiver, DataOf(p, i), Goodbye(p, i), more);
    }
  }

  lemma GaveUpFaultInv(p: Plan, sys: Sys, a: Action)
    requires Inv(p, sys) && Enabled(p, sys, a) && IsFault(a) && sys.s.phase == GaveUp
    ensures Inv(p, Step(p, sys, a))
  {
    var i := sys.s.item;
    if a.LosesToReceiver? || a.DuplicatesToReceiver? {
      if |sys.r.accepted| <= i {
        ThreePartsFaults(sys.toReceiver, a.at, DataOf(p, i - 1), {DataOf(p, i)}, Goodbye(p, i));
      } else {
        ChannelFaults(sys.toReceiver, a.at, DataOf(p, i), Goodbye(p, i));
      }
    }
  }

  /** A client that has given up repeats its FIN, or nothing. */
  lemma GaveUpSenderInv(p: Plan, sys: Sys, a: Action)
    requires Inv(p, sys) && Enabled(p, sys, a) && (a == SenderHears || a == SenderRepeats) && sys.s.phase == GaveUp
    ensures Inv(p, Step(p, sys, a))
  {
    var i := sys.s.item;
    var sys' := Step(p, sys, a);
    var more := Sent(sys.s.outbox, sys'.s.outbox);
    assert AllIn(more, Goodbye(p, i)) && sys'.toReceiver == sys.toReceiver + more;
    if |sys.r.accepted| <= i {
      ThreePartsAppend(sys.toReceiver, DataOf(p, i - 1), {DataOf(p, i)}, Goodbye(p, i), more);
    } else if |sys.r.accepted| == i + 1 {
      AppendNew(sys.toReceiver, DataOf(p, i), Goodbye(p, i), more);
    }
  }

  lemma GoneWithItem(p: Plan, sys: Sys)
    requires Inv(p, sys) && Enabled(p, sys, ReceiverHears) && sys.s.phase == GaveUp && |sys.r.accepted| <= sys.s.item
    ensures Inv(p, Step(p, sys, ReceiverHears))
  {
    var i, q := sys.s.item, sys.toReceiver[0];
    var sys' := Step(p, sys, ReceiverHears);
    assert DataOf(p, i) !in Goodbye(p, i) && DataOf(p, i - 1).sequenceNumber != DataOf(p, i).sequenceNumber;
    ThreePartsHead(sys.toReceiver, DataOf(p, i - 1), DataOf(p, i), Goodbye(p, i));
    if q == DataOf(p, i) { assert sys'.r.accepted == p.items[..i + 1]; }
  }

  lemma GaveUpReceiverInv(p: Plan, sys: Sys)
    requires Inv(p, sys) && Enabled(p, sys, ReceiverHears) && sys.s.phase == GaveUp
    ensures Inv(p, Step(p, sys, ReceiverHears))
  {
    var i := sys.s.item;
    if |sys.r.accepted| <= i {
      GoneWithItem(p, sys);
    } else if |sys.r.accepted| == i + 1 {
      TakeHead(sys.toReceiver, DataOf(p, i), Goodbye(p, i));
      assert i + 1 == |p.items| ==> p.items[..i + 1] == p.items;
    }
  }

  /** The client of a download leaves. */
  lemma ReceiverGivesUpInv(p: Plan, sys: Sys)
    requires Inv(p, sys) && Enabled(p, sys, ReceiverGivesUp)
    ensures Inv(p, Step(p, sys, ReceiverGivesUp))
  {
    var i, k := sys.s.item, |sys.r.accepted|;
    var sys' := Step(p, sys, ReceiverGivesUp);
    var more := Sent(sys.r.outbox, sys'.r.outbox);
    assert more == [AckPacket(p, Label(k + 1)), FinPacket(p, Label(k + 1))];
    if k == i {
      assert forall j :: 0 <= j < |sys.toSender| ==> sys.toSender[j] == AckOf(p, i - 1);
    } else {
      WiderNew(sys.toSender, AckOf(p, i - 1), RepliesTo(p, i), {AckOf(p, i), FinPacket(p, Label(i))});
      AppendNew(sys.toSender, AckOf(p, i - 1), {AckOf(p, i), FinPacket(p, Label(i))}, more);
    }
  }

  lemma LeftFaultInv(p: Plan, sys: Sys, a: Action)
    requires Inv(p, sys) && Enabled(p, sys, a) && IsFault(a) && sys.left
    ensures Inv(p, Step(p, sys, a))
  {
    var i := sys.s.item;
    if (a.LosesToSender? || a.DuplicatesToSender?) && |sys.r.accepted| != i {
      ChannelFaults(sys.toSender, a.at, AckOf(p, i - 1), {AckOf(p, i), FinPacket(p, Label(i))});
    }
  }

  /** A client that has left repeats its FIN, whatever it hears. */
  lemma LeftReceiverInv(p: Plan, sys: Sys, a: Action)
    requires Inv(p, sys) && Enabled(p, sys, a) && (a == ReceiverHears || a == ReceiverRepeats) && sys.left
    ensures Inv(p, Step(p, sys, a))
  {
    var i := sys.s.item;
    assert Step(p, sys, a).toSender == sys.toSender + [sys.r.lastRaw];
    if |sys.r.accepted| != i {
      AppendNew(sys.toSender, AckOf(p, i - 1), {AckOf(p, i), FinPacket(p, Label(i))}, [sys.r.lastRaw]);
    }
  }

  lemma LeftSenderInv(p: Plan, sys: Sys)
    requires Inv(p, sys) && Enabled(p, sys, SenderHears) && sys.left
    ensures Inv(p, Step(p, sys, SenderHears))
  {
    var i := sys.s.item;
    if |sys.r.accepted| != i {
      TakeHead(sys.toSender, AckOf(p, i - 1), {AckOf(p, i), FinPacket(p, Label(i))});
    }
  }

  /** The steps of the two ends while both stay. */
  lemma EndpointStepInv(p: Plan, sys: Sys, a: Action)
    requires Inv(p, sys) && Enabled(p, sys, a) && BothStay(sys)
    requires a == SenderHears || a == ReceiverHears || a == SenderRepeats || a == ReceiverRepeats
    ensures Inv(p, Step(p, sys, a))
  {
    if a == SenderRepeats || a == ReceiverRepeats {
      RepeatInv(p, sys, a);
    } else if sys.s.phase == Closed {
      HearsAfterCloseInv(p, sys, a);
    } else if a == SenderHears {
      SenderHearsInv(p, sys);
    } else {
      ReceiverHearsInv(p, sys);
    }
  }

  lemma StepInv(p: Plan, sys: Sys, a: Action)
    requires Inv(p, sys) && Enabled(p, sys, a) && !a.OvertakesToReceiver?
    ensures Inv(p, Step(p, sys, a))
  {
    match a {
      case SenderHears =>
        if sys.s.phase == GaveUp { GaveUpSenderInv(p, sys, a); }
        else if sys.left { LeftSenderInv(p, sys); }
        else { EndpointStepInv(p, sys, a); }
      case ReceiverHears =>
        if sys.s.phase == GaveUp { GaveUpReceiverInv(p, sys); }
        else if sys.left { LeftReceiverInv(p, sys, a); }
        else { EndpointStepInv(p, sys, a); }
      case SenderRepeats =>
        if sys.s.phase == GaveUp { GaveUpSenderInv(p, sys, a); }
        else if BothStay(sys) { EndpointStepInv(p, sys, a); }
      case ReceiverRepeats =>
        if sys.left { LeftReceiverInv(p, sys, a); }
        else if BothStay(sys) { EndpointStepInv(p, sys, a); }
      case SenderGivesUp => SenderGivesUpInv(p, sys);
      case ReceiverGivesUp => ReceiverGivesUpInv(p, sys);
      case _ =>
        if sys.s.phase == GaveUp { GaveUpFaultInv(p, sys, a); }
        else if sys.left { LeftFaultInv(p, sys, a); }
        else { FaultInv(p, sys, a); }
    }
  }

  lemma {:induction false} RunInv(p: Plan, from: Sys, actions: seq<Action>, to: Sys)
    requires Inv(p, from) && KeepsOrder(actions) && Runs(p, from, actions, to)
    ensures Inv(p, to)
    decreases |actions|
  {
    if actions == [] {
    } else {
      StepInv(p, from, actions[0]);
      RunInv(p, Step(p, from, actions[0]), actions[1..], to);
    }
  }

  lemma ReachableInv(p: Plan, sys: Sys)
    requires Reachable(p, sys)
    ensures Inv(p, sys)
  {
    var start: Sys, actions: seq<Action> :| Init(p, start) && KeepsOrder(actions) && Runs(p, start, actions, sys);
    InitInv(p, start);
    RunInv(p, start, actions, sys);
  }

  lemma {:induction false} PatientRun(p: Plan, from: Sys, actions: seq<Action>, to: Sys)
    requires from.s.phase != GaveUp && Patient(actions) && Runs(p, from, actions, to)
    ensures to.s.phase != GaveUp
    decreases |actions|
  {
    if actions == [] {
    } else {
      PatientRun(p, Step(p, from, actions[0]), actions[1..], to);
    }
  }

  lemma PatientlyReached(p: Plan, sys: Sys)
    requires ReachablePatiently(p, sys)
    ensures Reachable(p, sys) && Inv(p, sys) && sys.s.phase != GaveUp
  {
    var start: Sys, actions: seq<Action> :|
      Init(p, start) && KeepsOrder(actions) && Patient(actions) && Runs(p, start, actions, sys);
    PatientRun(p, start, actions, sys);
    assert Reachable(p, sys);
    ReachableInv(p, sys);
  }
}
