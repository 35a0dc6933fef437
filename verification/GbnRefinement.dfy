/** The two-phase receiver does what a plain in-order receiver does, except that it looks at the first chunk twice. */
module GbnRefinement {
  import opened Chunking
  import opened PacketFormat
  import opened SequenceNumbers
  import opened GoBackN

  /** The textbook receiver: store a packet exactly when it carries the expected number. */
  datatype Plain = Plain(expected: int, file: Bytes, done: bool)

  function PlainStep(q: Plain, p: PacketGbn): Plain {
    if q.done || p.sequenceNumber != q.expected then q
    else Plain(if p.isFin then q.expected else q.expected + 1, q.file + p.data, p.isFin)
  }

  function PlainAll(q: Plain, ps: seq<PacketGbn>): Plain
    decreases |ps|
  {
    if ps == [] then q else PlainAll(PlainStep(q, ps[0]), ps[1..])
  }

  /** The plain receiver that a two-phase receiver stands for. */
  function Abstract(r: Receiver): Plain {
    match r.phase
    case FirstChunk => Plain(r.ack + 1, r.file, false)
    case Receiving => Plain(r.sqn, r.file, false)
    case Done => Plain(r.sqn, r.file, true)
  }

  predicate Consistent(r: Receiver, budget: nat) {
    r.ack == r.sqn && r.sqn + budget <= MAX_SEQUENCE_NUMBER
  }

  predicate WellFormed(p: PacketGbn) {
    p.payloadLength == |p.data|
  }

  /** This packet is the first chunk, seen for the first time, and not the only one. */
  predicate Peeks(r: Receiver, p: PacketGbn) {
    r.phase == FirstChunk && p.sequenceNumber == r.ack + 1 && !p.isFin
  }

  /** Step by step: a peek changes nothing the plain receiver has, every other packet is a plain step. */
  lemma StepRefines(t: Transfer, r: Receiver, p: PacketGbn)
    requires Consistent(r, 1) && WellFormed(p)
    ensures var r' := Deliver(t, r, p);
            && Consistent(r', 0)
            && Abstract(r') == (if Peeks(r, p) then Abstract(r) else PlainStep(Abstract(r), p))
            && (r'.phase == FirstChunk <==> r.phase == FirstChunk && p.sequenceNumber != r.ack + 1)
  {
  }

  /** The packets without the first one that carries `expected`, if that one is not a FIN. */
  function DropPeek(expected: int, ps: seq<PacketGbn>): seq<PacketGbn> {
    if ps == [] then []
    else if ps[0].sequenceNumber == expected then (if ps[0].isFin then ps else ps[1..])
    else [ps[0]] + DropPeek(expected, ps[1..])
  }

  /**
   * Whole runs: on any packets whatever, the two-phase receiver ends with the file, the expected number and the
   * completion of a plain receiver that was never shown the first appearance of the first chunk. A FIN as first
   * chunk is the one case that loses nothing.
   */
  lemma {:induction false} TwoPhaseReceiverRefinesPlain(t: Transfer, r: Receiver, ps: seq<PacketGbn>)
    requires Consistent(r, |ps|) && forall p :: p in ps ==> WellFormed(p)
    ensures Abstract(DeliverAll(t, r, ps))
            == PlainAll(Abstract(r), if r.phase == FirstChunk then DropPeek(r.ack + 1, ps) else ps)
    decreases |ps|
  {
    if ps == [] {
    } else {
      var r' := Deliver(t, r, ps[0]);
      StepRefines(t, r, ps[0]);
      TwoPhaseReceiverRefinesPlain(t, r', ps[1..]);
      if r.phase == FirstChunk && ps[0].sequenceNumber != r.ack + 1 {
        assert DropPeek(r.ack + 1, ps)[1..] == DropPeek(r.ack + 1, ps[1..]);
      }
    }
  }

  /** The numbers a plain receiver stores are consecutive, so no chunk is stored twice, skipped or reordered. */
  function PlainStored(q: Plain, ps: seq<PacketGbn>): seq<int>
    decreases |ps|
  {
    if ps == [] then []
    else
      (if q.done || ps[0].sequenceNumber != q.expected then [] else [q.expected])
      + PlainStored(PlainStep(q, ps[0]), ps[1..])
  }

  lemma {:induction false} PlainStoresConsecutively(q: Plain, ps: seq<PacketGbn>)
    ensures forall i :: 0 <= i < |PlainStored(q, ps)| ==> PlainStored(q, ps)[i] == q.expected + i
    ensures q.done ==> PlainStored(q, ps) == []
    decreases |ps|
  {
    if ps == [] {
    } else {
      PlainStoresConsecutively(PlainStep(q, ps[0]), ps[1..]);
    }
  }
}
