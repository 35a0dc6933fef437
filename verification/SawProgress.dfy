/** Loss-free exchanges in stop-and-wait: each moves both ends by one item, and no reachable state is a dead end. */
module SawProgress {
  import opened Chunking
  import opened PacketFormat
  import opened StopAndWait

  lemma {:induction false} RunsConcat(p: Plan, a: Sys, xs: seq<Action>, b: Sys, ys: seq<Action>, c: Sys)
    requires Runs(p, a, xs, b) && Runs(p, b, ys, c)
    ensures Runs(p, a, xs + ys, c)
    decreases |xs|
  {
    if xs == [] {
      assert xs + ys == ys;
    } else {
      RunsConcat(p, Step(p, a, xs[0]), xs[1..], b, ys, c);
      assert (xs + ys)[1..] == xs[1..] + ys;
    }
  }

  lemma RunsOne(p: Plan, sys: Sys, a: Action)
    requires Enabled(p, sys, a) && 0 <= sys.s.item < |p.items|
    ensures Runs(p, sys, [a], Step(p, sys, a))
  {
    assert [a][1..] == [];
  }

  /** The sender waits, and one copy of its item is all that is in flight. */
  ghost predicate Lone(p: Plan, sys: Sys) {
    && Inv(p, sys) && BothStay(sys) && sys.s.phase == Waiting && 0 <= sys.s.item < |p.items|
    && sys.toReceiver == [DataOf(p, sys.s.item)] && sys.toSender == []
  }

  /** Both ends are past the last item. */
  predicate Finished(p: Plan, sys: Sys) {
    sys.s.phase == Closed && sys.r.done && sys.r.accepted == p.items
  }

  /** The receiver hears the item, whether it is new to it or not, and its answer is what the sender waits for. */
  lemma ItemIsAnswered(p: Plan, sys: Sys) returns (sys': Sys)
    requires Lone(p, sys) && HasChunks(p)
    ensures Runs(p, sys, [ReceiverHears], sys') && Inv(p, sys') && BothStay(sys') && sys'.s == sys.s
    ensures sys'.toReceiver == [] && |sys'.r.accepted| == sys.s.item + 1
    ensures sys'.toSender != [] && SenderAccepts(p, sys.s, sys'.toSender[0])
    ensures sys.s.item < |p.items| - 1 ==> |sys'.toSender| == 1
  {
    RunsOne(p, sys, ReceiverHears);
    StepInv(p, sys, ReceiverHears);
    sys' := Step(p, sys, ReceiverHears);
  }

  /** One exchange: the next item is on its way, or both ends are finished. */
  lemma ExchangeMovesOn(p: Plan, sys: Sys) returns (sys': Sys)
    requires Lone(p, sys) && HasChunks(p)
    ensures Runs(p, sys, [ReceiverHears, SenderHears], sys')
    ensures if sys.s.item < |p.items| - 1 then Lone(p, sys') && sys'.s.item == sys.s.item + 1 else Finished(p, sys')
  {
    var answered := ItemIsAnswered(p, sys);
    RunsOne(p, answered, SenderHears);
    StepInv(p, answered, SenderHears);
    sys' := Step(p, answered, SenderHears);
    RunsConcat(p, sys, [ReceiverHears], answered, [SenderHears], sys');
    assert [ReceiverHears] + [SenderHears] == [ReceiverHears, SenderHears];
    assert p.items[..|p.items|] == p.items;
  }

  function Exchanges(n: nat): seq<Action> {
    if n == 0 then [] else [ReceiverHears, SenderHears] + Exchanges(n - 1)
  }

  /** As many exchanges as there are items left finish the transfer, in both directions. */
  lemma {:induction false} ExchangesFinish(p: Plan, sys: Sys) returns (final: Sys)
    requires Lone(p, sys) && HasChunks(p)
    ensures Runs(p, sys, Exchanges(|p.items| - sys.s.item), final) && Finished(p, final)
    decreases |p.items| - sys.s.item
  {
    var left := |p.items| - sys.s.item;
    var next := ExchangeMovesOn(p, sys);
    if left == 1 {
      final := next;
      assert Exchanges(1) == [ReceiverHears, SenderHears];
    } else {
      final := ExchangesFinish(p, next);
      RunsConcat(p, sys, [ReceiverHears, SenderHears], next, Exchanges(left - 1), final);
    }
  }

  /** Nothing but losses and timeouts of the sender. */
  predicate OnlyLosses(actions: seq<Action>) {
    forall a :: a in actions ==> a.LosesToReceiver? || a.LosesToSender? || a.SenderRepeats?
  }

  /** Everything in flight is lost. */
  lemma {:induction false} AllLost(p: Plan, sys: Sys) returns (actions: seq<Action>, sys': Sys)
    requires Inv(p, sys)
    ensures Runs(p, sys, actions, sys') && Inv(p, sys') && OnlyLosses(actions)
    ensures sys' == sys.(toReceiver := [], toSender := [])
    decreases |sys.toReceiver| + |sys.toSender|
  {
    if sys.toReceiver == [] && sys.toSender == [] {
      actions, sys' := [], sys;
    } else {
      var a := if sys.toReceiver != [] then LosesToReceiver(0) else LosesToSender(0);
      var next := Step(p, sys, a);
      RunsOne(p, sys, a);
      StepInv(p, sys, a);
      var rest;
      rest, sys' := AllLost(p, next);
      actions := [a] + rest;
      RunsConcat(p, sys, [a], next, rest, sys');
    }
  }

  /** Whatever has been lost, one timeout puts the sender's item back on its way. */
  lemma RecoversFromLoss(p: Plan, sys: Sys) returns (actions: seq<Action>, sys': Sys)
    requires Inv(p, sys) && BothStay(sys) && sys.s.phase == Waiting
    ensures Runs(p, sys, actions, sys') && Lone(p, sys') && sys'.s.item == sys.s.item && sys'.r == sys.r
    ensures OnlyLosses(actions)
  {
    var losses, quiet := AllLost(p, sys);
    RunsOne(p, quiet, SenderRepeats);
    StepInv(p, quiet, SenderRepeats);
    sys' := Step(p, quiet, SenderRepeats);
    actions := losses + [SenderRepeats];
    RunsConcat(p, sys, losses, quiet, [SenderRepeats], sys');
  }

  lemma {:induction false} ExchangesAreOrdinary(n: nat)
    ensures KeepsOrder(Exchanges(n)) && Patient(Exchanges(n))
  {
    if n == 0 {
    } else {
      ExchangesAreOrdinary(n - 1);
    }
  }

  /** A reachable state leads to reachable states. */
  lemma ReachableOn(p: Plan, sys: Sys, actions: seq<Action>, sys': Sys, patient: bool)
    requires ReachableOver(p, sys, true, patient) && Runs(p, sys, actions, sys')
    requires KeepsOrder(actions) && Patient(actions)
    ensures ReachableOver(p, sys', true, patient)
  {
    var start: Sys, before: seq<Action> :|
      Init(p, start) && KeepsOrder(before) && (patient ==> Patient(before)) && Runs(p, start, before, sys);
    RunsConcat(p, start, before, sys, actions, sys');
    assert KeepsOrder(before + actions) && (patient ==> Patient(before + actions));
  }

  /** From every state of the invariant in which the sender still waits. */
  lemma CanFinish(p: Plan, sys: Sys) returns (losses: seq<Action>, final: Sys)
    requires Inv(p, sys) && BothStay(sys) && sys.s.phase == Waiting && HasChunks(p)
    ensures OnlyLosses(losses) && Finished(p, final)
    ensures Runs(p, sys, losses + Exchanges(|p.items| - sys.s.item), final)
  {
    var lone;
    losses, lone := RecoversFromLoss(p, sys);
    final := ExchangesFinish(p, lone);
    RunsConcat(p, sys, losses, lone, Exchanges(|p.items| - sys.s.item), final);
  }

  /**
   * No dead end: from every reachable state in which the sender still waits, even if everything in flight is lost, one
   * timeout and as many loss-free exchanges as there are items left finish the transfer.
   */
  lemma TransferCanFinish(p: Plan, sys: Sys, patient: bool) returns (losses: seq<Action>, final: Sys)
    requires ReachableOver(p, sys, true, patient) && BothStay(sys) && sys.s.phase == Waiting && HasChunks(p)
    ensures 0 <= sys.s.item < |p.items| && OnlyLosses(losses)
    ensures Runs(p, sys, losses + Exchanges(|p.items| - sys.s.item), final) && Finished(p, final)
    ensures ReachableOver(p, final, true, patient)
  {
    assert Reachable(p, sys);
    ReachableInv(p, sys);
    losses, final := CanFinish(p, sys);
    ExchangesAreOrdinary(|p.items| - sys.s.item);
    ReachableOn(p, sys, losses + Exchanges(|p.items| - sys.s.item), final, patient);
  }
}
