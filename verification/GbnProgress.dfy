/** Loss-free rounds: how far one takes both endpoints, and how many of them finish an upload. */
module GbnProgress {
  import opened Chunking
  import opened PacketFormat
  import opened GoBackN
  import opened GbnSystem

  /** What was appended to a log since it was `before`. */
  function New(before: seq<PacketGbn>, now: seq<PacketGbn>): seq<PacketGbn> {
    if |before| <= |now| then now[|before|..] else []
  }

  function Arrivals(ps: seq<PacketGbn>, duration: real): seq<Event> {
    if ps == [] then [] else [Arrives(ps[0], duration)] + Arrivals(ps[1..], duration)
  }

  /** The two endpoints without the network. */
  datatype Ends = Ends(s: Sender, r: Receiver)

  /**
   * One round in which nothing is lost: a listening sender times out and sends its window again, the receiver
   * hears all of it in order, the sender hears every reply in order, and what it sends meanwhile arrives too.
   */
  function Round(t: Transfer, e: Ends, duration: real): (e': Ends)
    requires NoWrap(t) && Counts(e.s.w)
    ensures Counts(e'.s.w)
  {
    var s1 := Settle(t, if e.s.phase == Awaiting then OnEvent(t, e.s, TimesOut) else e.s);
    var r1 := DeliverAll(t, e.r, New(e.s.outbox, s1.outbox));
    var s2 := FoldEvents(t, s1, Arrivals(RepliesOf(t, e.r, r1), duration));
    Ends(s2, DeliverAll(t, r1, New(s1.outbox, s2.outbox)))
  }

  /** What a receiver has answered on its way from `r` to `r'`, with the closing packets if it is done. */
  function RepliesOf(t: Transfer, r: Receiver, r': Receiver): seq<PacketGbn> {
    New(r.outbox, r'.outbox) + if r'.phase == Done then Closing(t, r') else []
  }

  function Rounds(t: Transfer, e: Ends, duration: real, n: nat): (e': Ends)
    requires NoWrap(t) && Counts(e.s.w)
    ensures Counts(e'.s.w)
    decreases n
  {
    if n == 0 then e else Round(t, Rounds(t, e, duration, n - 1), duration)
  }

  // ----- what sending a window does

  function ChunkRun(t: Transfer, lo: int, hi: int, ack: int): seq<PacketGbn>
    requires 0 <= lo && hi <= |t.chunks|
    decreases hi - lo
  {
    if lo >= hi then [] else [ChunkPacket(t, lo, ack)] + ChunkRun(t, lo + 1, hi, ack)
  }

  function Limit(t: Transfer, w: Window): int { Min(w.base + WINDOW_SIZE, |t.chunks|) }

  lemma {:induction false} BurstEffect(t: Transfer, s: Sender)
    requires NoWrap(t) && 0 <= s.w.next
    ensures var s' := Burst(t, s);
            && s'.w == s.w.(next := if s.w.next < Limit(t, s.w) then Limit(t, s.w) else s.w.next)
            && s'.outbox == s.outbox + ChunkRun(t, s.w.next, Limit(t, s.w), s.w.ack)
            && s'.phase == s.phase && s'.finBack == s.finBack
    decreases |t.chunks| - s.w.next
  {
    if !CanSend(t, s.w) {
    } else {
      BurstEffect(t, SendOne(t, s));
    }
  }

  ghost predicate SentIn(t: Transfer, ps: seq<PacketGbn>, i: int) {
    0 <= i < |t.chunks| && exists ack :: ChunkPacket(t, i, ack) in ps
  }

  ghost predicate SendsRange(t: Transfer, ps: seq<PacketGbn>, lo: int, hi: int) {
    forall i | lo <= i < hi :: SentIn(t, ps, i)
  }

  lemma SendsRangeConcat(t: Transfer, xs: seq<PacketGbn>, ys: seq<PacketGbn>, lo: int, mid: int, hi: int)
    requires SendsRange(t, xs, lo, mid) && SendsRange(t, ys, mid, hi)
    ensures SendsRange(t, xs + ys, lo, hi)
  {
    forall i | lo <= i < hi ensures SentIn(t, xs + ys, i) {
      assert if i < mid then SentIn(t, xs, i) else SentIn(t, ys, i);
      var ack :| ChunkPacket(t, i, ack) in (if i < mid then xs else ys);
      assert ChunkPacket(t, i, ack) in xs + ys;
    }
  }

  lemma ChunkRunSendsRange(t: Transfer, lo: int, hi: int, ack: int, from: int)
    requires 0 <= lo <= from && hi <= |t.chunks|
    ensures SendsRange(t, ChunkRun(t, lo, hi, ack), from, hi)
  {
    forall i | from <= i < hi ensures SentIn(t, ChunkRun(t, lo, hi, ack), i) {
      ChunkRunSends(t, lo, hi, ack, i);
    }
  }

  lemma {:induction false} ChunkRunSends(t: Transfer, lo: int, hi: int, ack: int, i: int)
    requires 0 <= lo <= i < hi <= |t.chunks|
    ensures ChunkPacket(t, i, ack) in ChunkRun(t, lo, hi, ack)
    decreases hi - lo
  {
    if lo == i {
    } else {
      ChunkRunSends(t, lo + 1, hi, ack, i);
    }
  }

  // ----- each part of a round is a run of the system

  /** The sender sends one chunk of its window. */
  lemma SendNext(t: Transfer, sys: Sys) returns (sys': Sys)
    requires Inv(t, sys) && sys.s.phase == Sending && CanSend(t, sys.s.w)
    ensures Leads(t, sys, sys') && Inv(t, sys')
    ensures sys'.s == SendOne(t, sys.s) && sys'.r == sys.r && sys'.toSender == sys.toSender
    ensures sys.toReceiver <= sys'.toReceiver
    ensures sys'.s.outbox == sys.s.outbox + [sys'.s.outbox[|sys.s.outbox|]]
            && sys'.s.outbox[|sys.s.outbox|] in sys'.toReceiver
    ensures sys'.s.w.next == sys.s.w.next + 1 && sys'.high >= sys.high
  {
    sys' := Step(t, sys, SendsChunk);
    LeadsStep(t, sys, SendsChunk);
    StepInv(t, sys, SendsChunk);
  }

  lemma {:induction false} SettleLeads(t: Transfer, sys: Sys) returns (sys': Sys)
    requires Inv(t, sys) && sys.s.phase == Sending
    ensures Leads(t, sys, sys') && Inv(t, sys')
    ensures sys'.s == Settle(t, sys.s) && sys'.r == sys.r && sys'.toSender == sys.toSender
    ensures sys.toReceiver <= sys'.toReceiver && sys.s.outbox <= sys'.s.outbox
    ensures forall p :: p in New(sys.s.outbox, sys'.s.outbox) ==> p in sys'.toReceiver
    ensures sys'.high >= sys.high
    decreases |t.chunks| - sys.s.w.next
  {
    if CanSend(t, sys.s.w) {
      var mid := SendNext(t, sys);
      sys' := SettleLeads(t, mid);
      LeadsTrans(t, sys, mid, sys');
      NewConcat(sys.s.outbox, mid.s.outbox, sys'.s.outbox);
      assert New(sys.s.outbox, mid.s.outbox) == [mid.s.outbox[|sys.s.outbox|]];
    } else {
      sys' := Step(t, sys, EndsWindow);
      LeadsStep(t, sys, EndsWindow);
      StepInv(t, sys, EndsWindow);
      assert New(sys.s.outbox, sys'.s.outbox) == [];
    }
  }

  /** The receiver hears one packet. */
  lemma Hear(t: Transfer, sys: Sys, p: PacketGbn) returns (sys': Sys)
    requires Inv(t, sys) && p in sys.toReceiver
    ensures sys' == Step(t, sys, ReceiverHears(p)) && Leads(t, sys, sys') && Inv(t, sys')
    ensures sys'.r == Deliver(t, sys.r, p) && sys.r.outbox <= sys'.r.outbox && sys'.s == sys.s && sys'.high == sys.high
    ensures sys'.toReceiver == sys.toReceiver && sys.toSender <= sys'.toSender
    ensures forall q :: q in Replies(t, sys.r, p) ==> q in sys'.toSender
    ensures New(sys.r.outbox, sys'.r.outbox) == Replies(t, sys.r, p)
  {
    var a := ReceiverHears(p);
    sys' := Step(t, sys, a);
    LeadsStep(t, sys, a);
    StepInv(t, sys, a);
  }

  lemma {:induction false} DeliverAllLeads(t: Transfer, sys: Sys, ps: seq<PacketGbn>) returns (sys': Sys)
    requires Inv(t, sys) && forall p :: p in ps ==> p in sys.toReceiver
    ensures Leads(t, sys, sys') && Inv(t, sys')
    ensures sys'.r == DeliverAll(t, sys.r, ps) && sys'.s == sys.s && sys'.toReceiver == sys.toReceiver
    ensures sys.toSender <= sys'.toSender && sys.r.outbox <= sys'.r.outbox
    ensures forall p :: p in New(sys.r.outbox, sys'.r.outbox) ==> p in sys'.toSender
    ensures sys'.high == sys.high
    decreases |ps|
  {
    if ps == [] {
      sys' := sys;
      LeadsHere(t, sys);
    } else {
      var mid := Hear(t, sys, ps[0]);
      sys' := DeliverAllLeads(t, mid, ps[1..]);
      assert sys'.r == DeliverAll(t, sys.r, ps);
      LeadsTrans(t, sys, mid, sys');
      NewConcat(sys.r.outbox, mid.r.outbox, sys'.r.outbox);
    }
  }

  lemma NewConcat(a: seq<PacketGbn>, b: seq<PacketGbn>, c: seq<PacketGbn>)
    requires a <= b <= c
    ensures New(a, c) == New(a, b) + New(b, c)
  {
  }

  /** The sender's place is at least where this acknowledgement puts it. */
  predicate Reached(t: Transfer, s: Sender, p: PacketGbn) {
    s.phase == Awaiting ==> s.w.base >= p.ackNumber - t.offset
  }

  lemma OnEventEffect(t: Transfer, s: Sender, e: Event)
    ensures var s' := OnEvent(t, s, e);
            s'.outbox == s.outbox && (s'.w.next == s.w.next || s'.w.next == s.w.base) && s'.w.base >= s.w.base
  {
  }

  lemma SenderHearsLeads(t: Transfer, sys: Sys, p: PacketGbn, duration: real) returns (sys': Sys)
    requires Inv(t, sys) && sys.s.phase == Awaiting && p in sys.toSender
    ensures Leads(t, sys, sys') && Inv(t, sys')
    ensures sys'.s == Settle(t, OnEvent(t, sys.s, Arrives(p, duration)))
    ensures sys'.r == sys.r && sys'.toSender == sys.toSender
    ensures sys.toReceiver <= sys'.toReceiver && sys.s.outbox <= sys'.s.outbox
    ensures forall q :: q in New(sys.s.outbox, sys'.s.outbox) ==> q in sys'.toReceiver
    ensures SendsRange(t, New(sys.s.outbox, sys'.s.outbox), sys.s.w.next, sys'.s.w.next)
    ensures sys'.s.w.base >= sys.s.w.base && Reached(t, sys'.s, p) && sys'.high >= sys.high
    ensures (t.side == Client || p.isAck || p.isFin) ==> !sys'.s.phase.Failed?
  {
    var a := SenderHears(p, duration);
    var mid := Step(t, sys, a);
    LeadsStep(t, sys, a);
    StepInv(t, sys, a);
    OnEventEffect(t, sys.s, Arrives(p, duration));
    assert AckSound(t, sys.r, p);
    sys' := SettledLeads(t, mid, sys.s.w.next);
    LeadsTrans(t, sys, mid, sys');
  }

  /** Settling from any state, with the chunks it sends from `lo` on. */
  lemma SettledLeads(t: Transfer, sys: Sys, lo: int) returns (sys': Sys)
    requires Inv(t, sys) && sys.s.w.next <= lo
    ensures Leads(t, sys, sys') && Inv(t, sys')
    ensures sys'.s == Settle(t, sys.s) && sys'.r == sys.r && sys'.toSender == sys.toSender
    ensures sys.toReceiver <= sys'.toReceiver && sys.s.outbox <= sys'.s.outbox
    ensures forall p :: p in New(sys.s.outbox, sys'.s.outbox) ==> p in sys'.toReceiver
    ensures SendsRange(t, New(sys.s.outbox, sys'.s.outbox), lo, sys'.s.w.next)
    ensures sys'.s.w.base == sys.s.w.base && (sys'.s.phase == Awaiting ==> sys.s.phase == Sending || sys'.s == sys.s)
    ensures sys'.high >= sys.high && (sys'.s.phase.Failed? ==> sys.s.phase.Failed?)
  {
    if sys.s.phase != Sending {
      LeadsHere(t, sys);
      return sys;
    }
    sys' := SettleLeads(t, sys);
    BurstEffect(t, sys.s);
    assert New(sys.s.outbox, sys'.s.outbox) == ChunkRun(t, sys.s.w.next, Limit(t, sys.s.w), sys.s.w.ack);
    ChunkRunSendsRange(t, sys.s.w.next, Limit(t, sys.s.w), sys.s.w.ack, lo);
  }

  /** The server's sender stops at a packet that is neither acknowledgement nor FIN. */
  predicate Bearable(t: Transfer, ps: seq<PacketGbn>) {
    t.side == Client || forall p :: p in ps ==> p.isAck || p.isFin
  }

  /** Hearing a list of replies, with everything the sender does in between. */
  lemma {:induction false} FoldLeads(t: Transfer, sys: Sys, ps: seq<PacketGbn>, duration: real) returns (sys': Sys)
    requires Inv(t, sys) && forall p :: p in ps ==> p in sys.toSender
    ensures Leads(t, sys, sys') && Inv(t, sys')
    ensures sys'.s == FoldEvents(t, sys.s, Arrivals(ps, duration))
    ensures sys'.r == sys.r && sys.toReceiver <= sys'.toReceiver && sys.s.outbox <= sys'.s.outbox
    ensures forall q :: q in New(sys.s.outbox, sys'.s.outbox) ==> q in sys'.toReceiver
    ensures SendsRange(t, New(sys.s.outbox, sys'.s.outbox), sys.s.w.next, sys'.s.w.next)
    ensures sys'.s.w.base >= sys.s.w.base && forall p :: p in ps ==> Reached(t, sys'.s, p)
    ensures sys.s.phase != Awaiting ==> sys'.s == sys.s
    ensures sys.s.phase == Awaiting ==> sys'.s.phase != Sending
    ensures sys'.high >= sys.high
    ensures !sys.s.phase.Failed? && Bearable(t, ps) ==> !sys'.s.phase.Failed?
    decreases |ps|
  {
    if ps == [] || sys.s.phase != Awaiting {
      sys' := sys;
      LeadsHere(t, sys);
      assert New(sys.s.outbox, sys.s.outbox) == [];
    } else {
      var mid := SenderHearsLeads(t, sys, ps[0], duration);
      sys' := FoldLeads(t, mid, ps[1..], duration);
      LeadsTrans(t, sys, mid, sys');
      NewConcat(sys.s.outbox, mid.s.outbox, sys'.s.outbox);
      SendsRangeConcat(t, New(sys.s.outbox, mid.s.outbox), New(mid.s.outbox, sys'.s.outbox),
                       sys.s.w.next, mid.s.w.next, sys'.s.w.next);
      assert Arrivals(ps, duration)[1..] == Arrivals(ps[1..], duration);
    }
  }

  // ----- what a window delivered in order does to the receiver

  predicate InOrder(t: Transfer, r: Receiver) {
    && r.phase == Receiving && r.ack == r.sqn
    && t.first <= r.sqn - t.offset < |t.chunks|
  }

  lemma {:induction false} DeliverChunks(t: Transfer, r: Receiver, lo: int, hi: int, ack: int)
    requires TransferOk(t) && InOrder(t, r)
    requires 0 <= lo <= r.sqn - t.offset && lo < hi <= |t.chunks|
    ensures var r' := DeliverAll(t, r, ChunkRun(t, lo, hi, ack));
            && (r'.phase == Done || (InOrder(t, r') && r'.sqn - t.offset >= hi))
            && r.outbox <= r'.outbox
            && (r'.phase != Done ==>
                  |r.outbox| < |r'.outbox| && r'.outbox[|r'.outbox| - 1].ackNumber >= t.offset + hi - 1)
    decreases hi - lo
  {
    var p := ChunkPacket(t, lo, ack);
    var r1 := Deliver(t, r, p);
    assert ChunkRun(t, lo, hi, ack)[1..] == ChunkRun(t, lo + 1, hi, ack);
    if r1.phase == Done {
      DeliverDone(t, r1, ChunkRun(t, lo + 1, hi, ack));
    } else if lo + 1 < hi {
      DeliverChunks(t, r1, lo + 1, hi, ack);
    }
  }

  lemma {:induction false} DeliverDone(t: Transfer, r: Receiver, ps: seq<PacketGbn>)
    requires r.phase == Done
    ensures DeliverAll(t, r, ps) == r
    decreases |ps|
  {
    if ps == [] {
    } else {
      assert Deliver(t, r, ps[0]) == r;
      DeliverDone(t, r, ps[1..]);
    }
  }

  /** The receive loop on packets alone is plain delivery: once done it would ignore the rest anyway. */
  lemma {:induction false} LoopDeliversAll(t: Transfer, r: Receiver, ps: seq<PacketGbn>, duration: real)
    ensures ReceiveEvents(t, r, Arrivals(ps, duration)) == DeliverAll(t, r, ps)
    decreases |ps|
  {
    if r.phase == Done {
      DeliverDone(t, r, ps);
    } else if ps == [] {
    } else {
      LoopDeliversAll(t, Deliver(t, r, ps[0]), ps[1..], duration);
      assert Arrivals(ps, duration)[1..] == Arrivals(ps[1..], duration);
    }
  }

  /**
   * Transfers whose sender cannot leave before its last chunk is sent: every upload, and the downloads whose first
   * window reaches the last chunk. A server's sender must also be able to bear what the receiver repeats.
   */
  predicate Steady(t: Transfer) {
    t.side == Client || (|t.chunks| <= WINDOW_SIZE + 1 && t.resend.isAck)
  }

  /** The last chunk has been sent, or the sender is one that always sends it. */
  predicate OnCourse(t: Transfer, sys: Sys) {
    t.side == Client || sys.high == |t.chunks|
  }

  lemma {:induction false} DeliverKeepsOrder(t: Transfer, sys: Sys, ps: seq<PacketGbn>)
    requires Inv(t, sys) && OnCourse(t, sys) && forall p :: p in ps ==> p in sys.toReceiver
    ensures sys.r.phase != FirstChunk ==> DeliverAll(t, sys.r, ps).phase != FirstChunk
    decreases |ps|
  {
    if ps == [] {
    } else {
      var a := ReceiverHears(ps[0]);
      StepInv(t, sys, a);
      DeliverKeepsOrder(t, Step(t, sys, a), ps[1..]);
    }
  }

  /** A receiver that lacks only the last chunk is finished by any list of packets that contains it. */
  lemma {:induction false} DeliverLastChunk(t: Transfer, sys: Sys, ps: seq<PacketGbn>, ack: int)
    requires Inv(t, sys) && OnCourse(t, sys) && forall p :: p in ps ==> p in sys.toReceiver
    requires sys.r.phase == Done || (sys.r.phase == Receiving && sys.r.sqn == t.offset + |t.chunks| - 1)
    requires ChunkPacket(t, |t.chunks| - 1, ack) in ps
    ensures DeliverAll(t, sys.r, ps).phase == Done
    decreases |ps|
  {
    if sys.r.phase == Done {
      DeliverDone(t, sys.r, ps);
    } else {
      var a := ReceiverHears(ps[0]);
      StepInv(t, sys, a);
      var next := Step(t, sys, a);
      if ps[0] == ChunkPacket(t, |t.chunks| - 1, ack) {
        DeliverDone(t, next.r, ps[1..]);
      } else {
        DeliverLastChunk(t, next, ps[1..], ack);
      }
    }
  }

  // ----- one round

  /** The sender is about to send its window from the base: it listens, or has just begun. */
  predicate Ready(s: Sender) {
    s.phase == Awaiting || (s.phase == Sending && s.w.next == s.w.base)
  }

  lemma {:induction false} DeliverAhead(t: Transfer, r: Receiver, lo: int, hi: int, ack: int)
    requires r.phase == Receiving && 0 <= lo && hi <= |t.chunks| && r.sqn < t.offset + lo
    ensures var r' := DeliverAll(t, r, ChunkRun(t, lo, hi, ack)); r'.phase == Receiving && r'.sqn == r.sqn
    decreases hi - lo
  {
    if lo >= hi {
    } else {
      DeliverAhead(t, Deliver(t, r, ChunkPacket(t, lo, ack)), lo + 1, hi, ack);
      assert ChunkRun(t, lo, hi, ack)[1..] == ChunkRun(t, lo + 1, hi, ack);
    }
  }

  /** Where the receiver stands after hearing the window from `lo` up to `hi`. */
  predicate HasWindow(t: Transfer, r: Receiver, r': Receiver, hi: int) {
    match r.phase
    case FirstChunk =>
      || r'.phase == Done
      || (r'.phase == Receiving && r'.sqn == t.offset + t.first && t.first + 1 < |t.chunks|)
    case Receiving =>
      || r'.phase == Done
      || (&& r'.phase == Receiving && hi <= r'.sqn - t.offset && hi < |t.chunks|
          && |r.outbox| < |r'.outbox| && r'.outbox[|r'.outbox| - 1].ackNumber >= t.offset + hi - 1)
    case Done => r' == r
  }

  lemma WindowHeard(t: Transfer, sys: Sys, ack: int)
    requires Inv(t, sys) && OnCourse(t, sys)
    ensures var r' := DeliverAll(t, sys.r, ChunkRun(t, sys.s.w.base, Limit(t, sys.s.w), ack));
            HasWindow(t, sys.r, r', Limit(t, sys.s.w))
  {
    var lo, hi := sys.s.w.base, Limit(t, sys.s.w);
    var ps := ChunkRun(t, lo, hi, ack);
    match sys.r.phase {
      case FirstChunk =>
        var r1 := Deliver(t, sys.r, ps[0]);
        assert ps[1..] == ChunkRun(t, lo + 1, hi, ack);
        if r1.phase == Done { DeliverDone(t, r1, ps[1..]); } else { DeliverAhead(t, r1, lo + 1, hi, ack); }
      case Receiving =>
        DeliverChunks(t, sys.r, lo, hi, ack);
      case Done =>
        DeliverDone(t, sys.r, ps);
    }
  }

  /** The sender's part of the first half: after a timeout, if it was listening, the whole window is on its way. */
  lemma WindowLeaves(t: Transfer, sys: Sys) returns (sys': Sys, ack: int)
    requires Inv(t, sys) && Ready(sys.s)
    ensures Leads(t, sys, sys') && Inv(t, sys')
    ensures sys'.s == Settle(t, if sys.s.phase == Awaiting then OnEvent(t, sys.s, TimesOut) else sys.s)
    ensures sys'.s.phase == Awaiting || sys'.s.phase == Finished
    ensures sys'.s.w.base == sys.s.w.base && sys'.s.w.next == Limit(t, sys.s.w)
    ensures New(sys.s.outbox, sys'.s.outbox) == ChunkRun(t, sys.s.w.base, Limit(t, sys.s.w), ack)
    ensures forall p :: p in New(sys.s.outbox, sys'.s.outbox) ==> p in sys'.toReceiver
    ensures sys'.r == sys.r
  {
    var ready := sys;
    if sys.s.phase == Awaiting {
      ready := Step(t, sys, SenderTimesOut);
      LeadsStep(t, sys, SenderTimesOut);
      StepInv(t, sys, SenderTimesOut);
    } else {
      LeadsHere(t, sys);
    }
    BurstEffect(t, ready.s);
    sys' := SettleLeads(t, ready);
    LeadsTrans(t, sys, ready, sys');
    ack := ready.s.w.ack;
  }

  /** A receiver that is done closes; any other does nothing. */
  lemma CloseIfDone(t: Transfer, sys: Sys) returns (sys': Sys)
    requires Inv(t, sys)
    ensures Leads(t, sys, sys') && Inv(t, sys') && sys'.s == sys.s && sys'.r == sys.r && sys'.high == sys.high
    ensures sys.toSender <= sys'.toSender
    ensures sys.r.phase == Done ==> forall p :: p in Closing(t, sys.r) ==> p in sys'.toSender
  {
    if sys.r.phase == Done {
      sys' := Step(t, sys, ReceiverCloses);
      LeadsStep(t, sys, ReceiverCloses);
      StepInv(t, sys, ReceiverCloses);
    } else {
      sys' := sys;
      LeadsHere(t, sys);
    }
  }

  /** After the whole window has left, all that is outstanding of a steady transfer is in flight. */
  lemma WindowReachesLast(t: Transfer, sys: Sys)
    requires Inv(t, sys) && Steady(t) && sys.s.w.next == Limit(t, sys.s.w)
    ensures OnCourse(t, sys)
  {
  }

  /** The first half of a round: the whole window from the base has arrived and is answered. */
  lemma WindowArrives(t: Transfer, sys: Sys) returns (sys': Sys)
    requires Inv(t, sys) && Steady(t) && Ready(sys.s)
    ensures Leads(t, sys, sys') && Inv(t, sys') && OnCourse(t, sys')
    ensures sys'.s == Settle(t, if sys.s.phase == Awaiting then OnEvent(t, sys.s, TimesOut) else sys.s)
    ensures sys'.s.phase == Awaiting || sys'.s.phase == Finished
    ensures sys'.s.w.base == sys.s.w.base && sys'.s.w.next == Limit(t, sys.s.w)
    ensures sys'.r == DeliverAll(t, sys.r, New(sys.s.outbox, sys'.s.outbox))
    ensures HasWindow(t, sys.r, sys'.r, Limit(t, sys.s.w))
    ensures forall p :: p in RepliesOf(t, sys.r, sys'.r) ==> p in sys'.toSender
    ensures Bearable(t, RepliesOf(t, sys.r, sys'.r))
  {
    var left, ack := WindowLeaves(t, sys);
    WindowReachesLast(t, left);
    var ps := New(sys.s.outbox, left.s.outbox);
    var arrived := DeliverAllLeads(t, left, ps);
    WindowHeard(t, left, ack);
    sys' := CloseIfDone(t, arrived);
    LeadsTrans(t, sys, left, arrived);
    LeadsTrans(t, sys, arrived, sys');
    RepliesAreBearable(t, sys.r, ps);
  }

  /** Receivers answer with acknowledgements, with what they repeat, and in the end with a FIN. */
  lemma RepliesAreBearable(t: Transfer, r: Receiver, ps: seq<PacketGbn>)
    requires Steady(t)
    ensures Bearable(t, RepliesOf(t, r, DeliverAll(t, r, ps)))
  {
    if t.side == Server { RepliesAreAcks(t, r, ps); }
  }

  lemma {:induction false} RepliesAreAcks(t: Transfer, r: Receiver, ps: seq<PacketGbn>)
    requires t.resend.isAck
    ensures var r' := DeliverAll(t, r, ps);
            r.outbox <= r'.outbox && forall p :: p in New(r.outbox, r'.outbox) ==> p.isAck
    decreases |ps|
  {
    if ps == [] {
    } else {
      var mid := Deliver(t, r, ps[0]);
      var end := DeliverAll(t, mid, ps[1..]);
      RepliesAreAcks(t, mid, ps[1..]);
      assert New(r.outbox, mid.outbox) == Replies(t, r, ps[0]);
      NewConcat(r.outbox, mid.outbox, end.outbox);
    }
  }

  /** The replies to a window bring the base to at least one less than its end, or end the sender's loop. */
  lemma RepliesMoveBase(t: Transfer, sys: Sys, arrived: Sys, heard: Sys)
    requires Inv(t, sys) && Inv(t, arrived) && Inv(t, heard)
    requires HasWindow(t, sys.r, arrived.r, Limit(t, sys.s.w)) && sys.r.phase != FirstChunk
    requires heard.s.phase == Awaiting || heard.s.phase == Finished
    requires forall p :: p in RepliesOf(t, sys.r, arrived.r) ==> Reached(t, heard.s, p)
    ensures heard.s.w.base >= Limit(t, sys.s.w) - 1
    ensures arrived.r.phase == Done ==> heard.s.phase == Finished
  {
    var s := heard.s;
    var replies := RepliesOf(t, sys.r, arrived.r);
    if arrived.r.phase == Done {
      var p := AckPacket(t, arrived.r.sqn, arrived.r.ack);
      assert Closing(t, arrived.r)[0] == p;
      assert p in replies;
      assert Reached(t, s, p);
    } else {
      var p := arrived.r.outbox[|arrived.r.outbox| - 1];
      assert New(sys.r.outbox, arrived.r.outbox)[|arrived.r.outbox| - |sys.r.outbox| - 1] == p;
      assert p in replies;
      assert Reached(t, s, p);
    }
  }

  /**
   * One loss-free round as a run of the system, and what it achieves: past the first-chunk phase the receiver has
   * the whole window and the sender's base is at most one chunk behind the end of it; and a sender that finishes
   * leaves a receiver that has everything.
   */
  lemma RoundLeads(t: Transfer, sys: Sys, duration: real) returns (sys': Sys)
    requires Inv(t, sys) && Steady(t) && Ready(sys.s)
    ensures Leads(t, sys, sys') && Inv(t, sys')
    ensures Ends(sys'.s, sys'.r) == Round(t, Ends(sys.s, sys.r), duration)
    ensures sys'.s.phase == Awaiting || sys'.s.phase == Finished
    ensures sys'.s.phase == Finished ==> sys'.r.phase == Done
    ensures sys'.r.phase != FirstChunk
    ensures sys.r.phase != FirstChunk ==>
              && sys'.s.w.base >= Limit(t, sys.s.w) - 1
              && (sys'.r.phase == Done || sys'.r.sqn - t.offset >= Limit(t, sys.s.w))
              && (sys.r.phase == Done || Limit(t, sys.s.w) == |t.chunks| ==> sys'.s.phase == Finished)
  {
    var arrived := WindowArrives(t, sys);
    var heard := FoldLeads(t, arrived, RepliesOf(t, sys.r, arrived.r), duration);
    LeadsTrans(t, sys, arrived, heard);
    if sys.r.phase != FirstChunk {
      RepliesMoveBase(t, sys, arrived, heard);
    }
    var ps := New(arrived.s.outbox, heard.s.outbox);
    sys' := DeliverAllLeads(t, heard, ps);
    LeadsTrans(t, sys, heard, sys');
    DeliverKeepsOrder(t, heard, ps);
    if heard.s.phase == Finished {
      FinishedRoundIsComplete(t, sys, arrived, heard, ps);
    }
    DeliverOnlyGrows(t, heard, ps);
  }

  lemma {:induction false} DeliverOnlyGrows(t: Transfer, sys: Sys, ps: seq<PacketGbn>)
    requires Inv(t, sys) && forall p :: p in ps ==> p in sys.toReceiver
    ensures DeliverAll(t, sys.r, ps).sqn >= sys.r.sqn
    decreases |ps|
  {
    if ps == [] {
    } else {
      var a := ReceiverHears(ps[0]);
      StepInv(t, sys, a);
      DeliverOnlyGrows(t, Step(t, sys, a), ps[1..]);
    }
  }

  lemma FinishedRoundIsComplete(t: Transfer, sys: Sys, arrived: Sys, heard: Sys, ps: seq<PacketGbn>)
    requires Inv(t, sys) && Inv(t, arrived) && Inv(t, heard) && OnCourse(t, heard)
    requires arrived.s.w.next == Limit(t, sys.s.w) && heard.r == arrived.r
    requires HasWindow(t, sys.r, arrived.r, Limit(t, sys.s.w))
    requires sys.r.phase == FirstChunk ==> arrived.r.phase != FirstChunk
    requires heard.s.phase == Finished
    requires forall p :: p in ps ==> p in heard.toReceiver
    requires SendsRange(t, ps, arrived.s.w.next, heard.s.w.next)
    ensures DeliverAll(t, heard.r, ps).phase == Done
  {
    var last := |t.chunks| - 1;
    if arrived.r.phase == Done {
      DeliverDone(t, heard.r, ps);
    } else {
      assert SentIn(t, ps, last);
      var ack :| ChunkPacket(t, last, ack) in ps;
      DeliverLastChunk(t, heard, ps, ack);
    }
  }

  // ----- how many rounds

  ghost predicate Complete(t: Transfer, sys: Sys) {
    Inv(t, sys) && sys.s.phase == Finished && sys.r.phase == Done
  }

  ghost predicate Progressing(t: Transfer, sys: Sys, base: int) {
    Inv(t, sys) && sys.s.phase == Awaiting && sys.r.phase != FirstChunk && sys.s.w.base >= base
  }

  lemma CompleteStays(t: Transfer, sys: Sys, duration: real)
    requires Complete(t, sys) && NoWrap(t) && Counts(sys.s.w)
    ensures Round(t, Ends(sys.s, sys.r), duration) == Ends(sys.s, sys.r)
  {
    assert New(sys.s.outbox, sys.s.outbox) == [];
  }

  /** One more round: a complete transfer stays complete, any other moves on by a window less one. */
  lemma RoundGains(t: Transfer, sys: Sys, duration: real, base: int) returns (sys': Sys)
    requires Steady(t) && (Complete(t, sys) || Progressing(t, sys, base))
    ensures NoWrap(t) && Counts(sys.s.w) && Round(t, Ends(sys.s, sys.r), duration) == Ends(sys'.s, sys'.r)
    ensures Complete(t, sys') || Progressing(t, sys', base + WINDOW_SIZE - 1)
    ensures Leads(t, sys, sys')
  {
    if Complete(t, sys) {
      CompleteStays(t, sys, duration);
      LeadsHere(t, sys);
      sys' := sys;
    } else {
      sys' := RoundLeads(t, sys, duration);
    }
  }

  /** Complete, or past the first chunk with the base this far. */
  ghost predicate Advanced(t: Transfer, sys: Sys, base: int) {
    Steady(t) && (Complete(t, sys) || Progressing(t, sys, base))
  }

  lemma RoundOne(t: Transfer, sys: Sys, duration: real, earlier: Ends, e: Ends) returns (sys': Sys)
    requires Inv(t, sys) && Steady(t) && Ready(sys.s) && earlier == Ends(sys.s, sys.r)
    requires NoWrap(t) && Counts(earlier.s.w) && e == Round(t, earlier, duration)
    ensures e == Ends(sys'.s, sys'.r) && Advanced(t, sys', 0) && Leads(t, sys, sys')
  {
    sys' := RoundLeads(t, sys, duration);
  }

  /** One more round of a run that began at `sys`. */
  lemma OneMoreRound(t: Transfer, sys: Sys, duration: real, before: Sys, earlier: Ends, e: Ends, base: int)
    returns (sys': Sys)
    requires Advanced(t, before, base) && Leads(t, sys, before) && earlier == Ends(before.s, before.r)
    requires NoWrap(t) && Counts(earlier.s.w) && e == Round(t, earlier, duration)
    ensures e == Ends(sys'.s, sys'.r) && Advanced(t, sys', base + WINDOW_SIZE - 1) && Leads(t, sys, sys')
  {
    sys' := RoundGains(t, before, duration, base);
    LeadsTrans(t, sys, before, sys');
  }

  /** A lower bound on the base after `n` rounds: the first pays for the peek, each other is worth a window less one. */
  function BaseAfter(n: nat): int
    requires n >= 1
  {
    if n == 1 then 0 else BaseAfter(n - 1) + WINDOW_SIZE - 1
  }

  lemma {:induction false} BaseAfterClosed(n: nat)
    requires n >= 1
    ensures BaseAfter(n) == (n - 1) * (WINDOW_SIZE - 1)
  {
    if n == 1 {
    } else {
      BaseAfterClosed(n - 1);
    }
  }

  lemma RoundsUnfold(t: Transfer, e: Ends, duration: real, n: nat)
    requires NoWrap(t) && Counts(e.s.w) && n >= 1
    ensures Rounds(t, e, duration, n) == Round(t, Rounds(t, e, duration, n - 1), duration)
  {
  }

  /** `n` rounds from any listening state bring the base at least to `BaseAfter(n)`, or complete the transfer. */
  lemma RoundsGain(t: Transfer, sys: Sys, duration: real, n: nat, start: Ends, e: Ends) returns (sys': Sys)
    requires Inv(t, sys) && Steady(t) && Ready(sys.s) && n >= 1 && start == Ends(sys.s, sys.r)
    requires NoWrap(t) && Counts(start.s.w) && e == Rounds(t, start, duration, n)
    ensures e == Ends(sys'.s, sys'.r) && Advanced(t, sys', BaseAfter(n)) && Leads(t, sys, sys')
  {
    RoundsUnfold(t, start, duration, 1);
    var now := Rounds(t, start, duration, 1);
    sys' := RoundOne(t, sys, duration, start, now);
    for i := 1 to n
      invariant now == Rounds(t, start, duration, i) == Ends(sys'.s, sys'.r)
      invariant Advanced(t, sys', BaseAfter(i)) && Leads(t, sys, sys')
    {
      RoundsUnfold(t, start, duration, i + 1);
      var before := now;
      now := Rounds(t, start, duration, i + 1);
      sys' := OneMoreRound(t, sys, duration, sys', before, now, BaseAfter(i));
    }
  }

  /** `ceil((total - 1) / (WINDOW_SIZE - 1))` */
  function RoundsNeeded(total: nat): nat
    requires total >= 1
  {
    NumberOfChunks(total - 1, WINDOW_SIZE - 1)
  }

  /**
   * The bound: from any reachable state in which the sender of a steady transfer listens, or is about to begin, that
   * many loss-free rounds are a run of the system after which the receiver has the whole file and the sender is past
   * its send loop. The extra round pays for the first chunk, which is only peeked at.
   */
  lemma TransferFinishesInBoundedRounds(t: Transfer, sys: Sys, duration: real, n: nat) returns (final: Sys)
    requires Reachable(t, sys) && Steady(t) && Ready(sys.s)
    requires NoWrap(t) && Counts(sys.s.w)
    requires n >= 1 + RoundsNeeded(|t.chunks|)
    ensures Reachable(t, final) && Ends(final.s, final.r) == Rounds(t, Ends(sys.s, sys.r), duration, n)
    ensures final.s.phase == Finished && final.r.phase == Done && final.r.file == Flatten(t.chunks)
  {
    ReachableInv(t, sys);
    var e := Rounds(t, Ends(sys.s, sys.r), duration, n);
    final := RoundsGain(t, sys, duration, n, Ends(sys.s, sys.r), e);
    ReachableLeads(t, sys, final);
    EnoughRounds(t, final, n);
  }

  /** For a steady download two rounds do: its first window already reaches the last chunk. */
  lemma DownloadFinishesInTwoRounds(t: Transfer, sys: Sys, duration: real) returns (final: Sys)
    requires Reachable(t, sys) && Steady(t) && t.side == Server && Ready(sys.s)
    requires NoWrap(t) && Counts(sys.s.w)
    ensures Reachable(t, final) && Ends(final.s, final.r) == Rounds(t, Ends(sys.s, sys.r), duration, 2)
    ensures final.s.phase == Finished && final.r.phase == Done && final.r.file == Flatten(t.chunks)
  {
    ReachableInv(t, sys);
    RoundsUnfold(t, Ends(sys.s, sys.r), duration, 1);
    RoundsUnfold(t, Ends(sys.s, sys.r), duration, 2);
    var one := RoundLeads(t, sys, duration);
    if one.s.phase == Finished {
      CompleteStays(t, one, duration);
      final := one;
    } else {
      final := RoundLeads(t, one, duration);
      LeadsTrans(t, sys, one, final);
    }
    ReachableLeads(t, sys, final);
  }

  lemma EnoughRounds(t: Transfer, sys: Sys, n: nat)
    requires |t.chunks| >= 1 && n >= 1 + RoundsNeeded(|t.chunks|) && Advanced(t, sys, BaseAfter(n))
    ensures Complete(t, sys) && sys.r.file == Flatten(t.chunks)
  {
    BaseAfterClosed(n);
    RoundsNeededSuffice(|t.chunks|);
  }

  lemma RoundsNeededSuffice(total: nat)
    requires total >= 1
    ensures RoundsNeeded(total) * (WINDOW_SIZE - 1) >= total - 1
  {
  }
}
