/**
 * Where the guarantees of stop-and-wait end, each with a run that shows it: when packets overtake one another, when
 * the client of an upload gives up, and when the file is empty.
 */
module SawCounterexamples {
  import opened Chunking
  import opened PacketFormat
  import opened StopAndWait
  import opened SawResults

  // ----- building runs

  lemma {:induction false} RunsSnoc(p: Plan, from: Sys, actions: seq<Action>, sys: Sys, a: Action)
    requires Runs(p, from, actions, sys) && Enabled(p, sys, a) && 0 <= sys.s.item < |p.items|
    ensures Runs(p, from, actions + [a], Step(p, sys, a))
    decreases |actions|
  {
    if actions == [] {
      assert [a][1..] == [];
    } else {
      RunsSnoc(p, Step(p, from, actions[0]), actions[1..], sys, a);
      assert (actions + [a])[1..] == actions[1..] + [a];
    }
  }

  /** One more step of a run. */
  lemma Extend(p: Plan, sys: Sys, a: Action, ordered: bool, patient: bool) returns (sys': Sys)
    requires ReachableOver(p, sys, ordered, patient) && Enabled(p, sys, a) && 0 <= sys.s.item < |p.items|
    requires (ordered ==> !a.OvertakesToReceiver?) && (patient ==> !a.SenderGivesUp?)
    ensures sys' == Step(p, sys, a) && ReachableOver(p, sys', ordered, patient)
  {
    sys' := Step(p, sys, a);
    var start: Sys, actions: seq<Action> :|
      && Init(p, start) && (ordered ==> KeepsOrder(actions)) && (patient ==> Patient(actions))
      && Runs(p, start, actions, sys);
    RunsSnoc(p, start, actions, sys, a);
  }

  /** A step of a run that keeps order and patience. */
  lemma Proceed(p: Plan, sys: Sys, a: Action) returns (sys': Sys)
    requires ReachablePatiently(p, sys) && Inv(p, sys) && Enabled(p, sys, a)
    requires !a.OvertakesToReceiver? && !a.SenderGivesUp?
    ensures sys' == Step(p, sys, a) && ReachablePatiently(p, sys') && Inv(p, sys')
  {
    sys' := Extend(p, sys, a, true, true);
    StepInv(p, sys, a);
  }

  lemma Relax(p: Plan, sys: Sys, ordered: bool, patient: bool)
    requires ReachablePatiently(p, sys)
    ensures ReachableOver(p, sys, ordered, patient)
  {
    var start: Sys, actions: seq<Action> :|
      Init(p, start) && KeepsOrder(actions) && Patient(actions) && Runs(p, start, actions, sys);
  }

  /** Item `i` has just been sent, and nothing else is in either channel. */
  ghost predicate AtItem(p: Plan, sys: Sys, i: int) {
    && Inv(p, sys) && BothStay(sys) && sys.s.phase == Waiting && sys.s.item == i && |sys.r.accepted| == i
    && sys.toReceiver == [DataOf(p, i)] && sys.toSender == []
  }

  /** The receiver hears the item and accepts it. */
  lemma AcceptItem(p: Plan, sys: Sys, i: int) returns (sys': Sys)
    requires ReachablePatiently(p, sys) && AtItem(p, sys, i) && (i + 1 < |p.items| || !HasChunks(p))
    ensures ReachablePatiently(p, sys') && Inv(p, sys') && BothStay(sys') && sys'.s == sys.s
    ensures sys'.r.accepted == p.items[..i + 1] && !sys'.r.done
    ensures sys'.toReceiver == [] && sys'.toSender == [AckOf(p, i)]
  {
    sys' := Proceed(p, sys, ReceiverHears);
  }

  lemma NextItemSent(p: Plan, sys: Sys, i: int) returns (sys': Sys)
    requires ReachablePatiently(p, sys) && AtItem(p, sys, i) && i + 1 < |p.items|
    ensures ReachablePatiently(p, sys') && AtItem(p, sys', i + 1)
  {
    var accepted := AcceptItem(p, sys, i);
    sys' := Proceed(p, accepted, SenderHears);
  }

  lemma Begin(p: Plan) returns (sys: Sys)
    requires PlanOk(p)
    ensures Init(p, sys) && ReachablePatiently(p, sys) && AtItem(p, sys, 0)
  {
    sys := Sys(Sender(0, 0, Waiting, DataOf(p, 0), [DataOf(p, 0)]), Receiver(0, [], false, p.oldAck, []), false,
               [DataOf(p, 0)], []);
    assert Boundary(sys.toReceiver, 0, p.oldData, {DataOf(p, 0)});
    assert Init(p, sys) && KeepsOrder([]) && Patient([]) && Runs(p, sys, [], sys);
    InitInv(p, sys);
  }

  lemma ReachItem(p: Plan, i: int) returns (sys: Sys)
    requires PlanOk(p) && 0 <= i < |p.items|
    ensures ReachablePatiently(p, sys) && AtItem(p, sys, i)
  {
    sys := Begin(p);
    for k := 0 to i
      invariant ReachablePatiently(p, sys) && AtItem(p, sys, k)
    {
      sys := NextItemSent(p, sys, k);
    }
  }

  // ----- when packets overtake

  /** Item `i` has been accepted, while a second copy of it is still on its way. */
  lemma AcceptDoubled(p: Plan, i: int) returns (sys: Sys)
    requires PlanOk(p) && 0 <= i && i + 2 < |p.items|
    ensures ReachablePatiently(p, sys) && Inv(p, sys) && BothStay(sys) && sys.s.item == i && sys.s.phase == Waiting
    ensures sys.r.accepted == p.items[..i + 1] && sys.toReceiver == [DataOf(p, i)] && sys.toSender == [AckOf(p, i)]
  {
    var sent := ReachItem(p, i);
    var doubled := Proceed(p, sent, DuplicatesToReceiver(0));
    assert doubled.toReceiver == [DataOf(p, i), DataOf(p, i)];
    sys := Proceed(p, doubled, ReceiverHears);
  }

  /** And the next one is sent after it. */
  lemma CopyLeftBehind(p: Plan, i: int) returns (sys: Sys)
    requires PlanOk(p) && 0 <= i && i + 2 < |p.items|
    ensures ReachablePatiently(p, sys) && Inv(p, sys) && BothStay(sys) && sys.s.item == i + 1 && sys.s.phase == Waiting
    ensures sys.r.accepted == p.items[..i + 1] && sys.toReceiver == [DataOf(p, i), DataOf(p, i + 1)]
  {
    var accepted := AcceptDoubled(p, i);
    sys := Proceed(p, accepted, SenderHears);
  }

  /** The next item overtakes the copy, and is accepted. */
  lemma AcceptOvertaking(p: Plan, i: int) returns (sys: Sys)
    requires PlanOk(p) && 0 <= i && i + 2 < |p.items|
    ensures ReachableOver(p, sys, false, true) && 0 <= sys.s.item < |p.items| && !sys.left
    ensures sys.r.accepted == p.items[..i + 2] && sys.r.bit == Label(i) && !sys.r.done
    ensures sys.toReceiver == [DataOf(p, i)]
  {
    var behind := CopyLeftBehind(p, i);
    Relax(p, behind, false, true);
    var overtaken := Extend(p, behind, OvertakesToReceiver(1), false, true);
    assert overtaken.toReceiver == [DataOf(p, i + 1), DataOf(p, i)];
    sys := Extend(p, overtaken, ReceiverHears, false, true);
  }

  /**
   * Why the channels must keep their order: for every two items that share a bit and differ, let one packet overtake a
   * copy of the older one, and the receiver has stored the older one in the place of the newer.
   */
  lemma OrderIsNeeded(p: Plan, i: int) returns (sys: Sys)
    requires PlanOk(p) && 0 <= i && i + 2 < |p.items| && p.items[i] != p.items[i + 2]
    ensures ReachableOver(p, sys, false, true)
    ensures sys.r.accepted == p.items[..i + 2] + [p.items[i]] && !(sys.r.accepted <= p.items)
  {
    var accepted := AcceptOvertaking(p, i);
    sys := Extend(p, accepted, ReceiverHears, false, true);
    assert sys.r.accepted[i + 2] == p.items[i];
  }

  // ----- when the client of an upload gives up

  /** Item `i` is accepted, its acknowledgement lost, and the client says goodbye. */
  lemma GivesUpOn(p: Plan, i: int) returns (sys: Sys)
    requires PlanOk(p) && p.direction == Upload && 0 <= i && i + 1 < |p.items|
    ensures Reachable(p, sys) && Inv(p, sys) && sys.s.phase == GaveUp && sys.s.item == i
    ensures sys.r.accepted == p.items[..i + 1] && !sys.r.done && sys.r.bit == Label(i + 1)
    ensures sys.toReceiver == [ClosingAck(p, Label(i + 1)), FinPacket(p, Label(i + 1))]
  {
    var sent := ReachItem(p, i);
    var accepted := AcceptItem(p, sent, i);
    Relax(p, accepted, true, false);
    sys := Extend(p, accepted, SenderGivesUp, true, false);
    StepInv(p, accepted, SenderGivesUp);
    assert accepted.toReceiver == [] && sys.toReceiver == Sent(accepted.s.outbox, sys.s.outbox);
  }

  /** Where the size was expected, the goodbye is taken for a size of zero. */
  lemma GoodbyeZeroesSize(p: Plan) returns (sys: Sys)
    requires PlanOk(p) && p.direction == Upload
    ensures Reachable(p, sys) && sys.s.phase == GaveUp && !sys.r.done && sys.r.accepted == [p.items[0], []]
    ensures SizeOf(sys.r) == Some(0)
  {
    var gone := GivesUpOn(p, 0);
    sys := Extend(p, gone, ReceiverHears, true, false);
    assert sys.r.accepted == p.items[..1] + [[]];
  }

  /**
   * Where a chunk was expected, and the acknowledgement of the goodbye is lost, its FIN is taken for the last chunk:
   * the server finishes with whatever it had.
   */
  lemma GoodbyeTruncates(p: Plan, i: int) returns (sys: Sys)
    requires PlanOk(p) && p.direction == Upload && 1 <= i && i + 1 < |p.items|
    ensures Reachable(p, sys) && sys.s.phase == GaveUp && sys.r.done && sys.r.accepted == p.items[..i + 1] + [[]]
  {
    var gone := GivesUpOn(p, i);
    var late := Extend(p, gone, LosesToReceiver(0), true, false);
    assert late.toReceiver == [FinPacket(p, Label(i + 1))];
    sys := Extend(p, late, ReceiverHears, true, false);
  }

  ghost predicate FinishedMeansWhole(p: Plan, source: Bytes, patient: bool) {
    forall sys: Sys :: ReachableOver(p, sys, true, patient) && sys.r.done ==> FileOf(p, sys.r) == source
  }

  ghost predicate RecordedMeansSent(p: Plan, source: Bytes, patient: bool) {
    forall sys: Sys :: ReachableOver(p, sys, true, patient) && SizeOf(sys.r).Some? ==> SizeOf(sys.r) == Some(|source|)
  }

  /**
   * The exact boundary: a server that has finished is sure to have the whole file, and one that has recorded a size
   * the right one, if the client does not give up or the file is empty, and not otherwise.
   */
  lemma GivingUpIsUnsafe(p: Plan, name: Bytes, source: Bytes, patient: bool)
    requires UploadPlan(p, name, source)
    ensures FinishedMeansWhole(p, source, patient) <==> patient || source == []
    ensures RecordedMeansSent(p, source, patient) <==> patient || source == []
  {
    if patient || source == [] {
      forall sys: Sys | ReachableOver(p, sys, true, patient)
        ensures sys.r.done ==> FileOf(p, sys.r) == source
        ensures SizeOf(sys.r).Some? ==> SizeOf(sys.r) == Some(|source|)
      {
        if patient { PatientlyReached(p, sys); }
        SawUploadSafety(p, name, source, sys);
      }
    } else {
      var cut := GoodbyeTruncates(p, 1);
      FileOfItems(p, name, source, cut.r, 2);
      assert ReachableOver(p, cut, true, patient) && cut.r.done && FileOf(p, cut.r) != source;
      var zero := GoodbyeZeroesSize(p);
      assert ReachableOver(p, zero, true, patient) && SizeOf(zero.r) != Some(|source|);
    }
  }

  // ----- when the file is empty

  /** When the client reports completion the server has finished too. */
  ghost predicate CompletionMeansFinished(p: Plan) {
    forall sys: Sys :: Reachable(p, sys) && sys.s.phase == Closed ==> sys.r.done
  }

  /**
   * The upload of an empty file: its size is acknowledged, nothing else is sent, and the size, repeated, is answered
   * with its old acknowledgement. The client reports completion and the server waits on for a chunk.
   */
  lemma EmptyUploadCompletesAlone(p: Plan) returns (sys: Sys)
    requires PlanOk(p) && !HasChunks(p)
    ensures ReachablePatiently(p, sys) && sys.s.phase == Closed && !sys.r.done && sys.r.accepted == p.items
  {
    var sent := ReachItem(p, 1);
    var accepted := AcceptItem(p, sent, 1);
    var confirmed := Proceed(p, accepted, SenderHears);
    var repeated := Proceed(p, confirmed, SenderRepeats);
    var answered := Proceed(p, repeated, ReceiverHears);
    assert answered.toSender == [AckOf(p, 1)];
    sys := Proceed(p, answered, SenderHears);
    assert p.items[..2] == p.items;
  }

  /** The exact boundary of completion: the client's report means a finished server exactly if the file is not empty. */
  lemma CompletionNeedsAChunk(p: Plan, name: Bytes, source: Bytes)
    requires UploadPlan(p, name, source)
    ensures CompletionMeansFinished(p) <==> source != []
  {
    ChunksOfUpload(p, name, source);
    if source != [] {
      forall sys: Sys | Reachable(p, sys) && sys.s.phase == Closed ensures sys.r.done {
        CompletionIsSound(p, sys);
      }
    } else {
      var sys := EmptyUploadCompletesAlone(p);
      PatientlyReached(p, sys);
    }
  }
}
