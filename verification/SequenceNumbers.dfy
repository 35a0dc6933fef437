/** Sequence and acknowledgement counters: one bit in stop-and-wait, a wide wrapping counter in go-back-N. */
module SequenceNumbers {

  const MAX_SEQUENCE_NUMBER: int := 2_000_000_000

  datatype ProtocolType = StopAndWait | GoBackN

  function StepSaw(value: int): int {
    if value == 0 then 1 else 0
  }

  function StepGbn(value: int): int {
    if value <= MAX_SEQUENCE_NUMBER then value + 1 else 1
  }

  function StepValue(protocol: ProtocolType, value: int): int {
    if protocol == StopAndWait then StepSaw(value) else StepGbn(value)
  }

  function StepTimes(protocol: ProtocolType, value: int, n: nat): int {
    if n == 0 then value else StepValue(protocol, StepTimes(protocol, value, n - 1))
  }

  class SequenceNumber {
    var value: int
    const protocol: ProtocolType

    constructor (first: int, protocol: ProtocolType)
      ensures value == first && this.protocol == protocol
    {
      value := first;
      this.protocol := protocol;
    }

    method Step()
      modifies this
      ensures value == StepValue(protocol, old(value))
    {
      if protocol == StopAndWait {
        if value == 0 { value := 1; } else { value := 0; }
      } else {
        if value <= MAX_SEQUENCE_NUMBER { value := value + 1; } else { value := 1; }
      }
    }
  }

  /** Stepping a go-back-N counter is plain counting exactly as long as it does not pass the maximum. */
  lemma {:induction false} GbnCountsUntilMaximum(value: int, n: nat)
    requires 0 <= value <= MAX_SEQUENCE_NUMBER + 1
    ensures StepTimes(GoBackN, value, n) == value + n <==> value + n <= MAX_SEQUENCE_NUMBER + 1
  {
    GbnStaysInRange(value, n);
    if n == 0 {
    } else {
      GbnCountsUntilMaximum(value, n - 1);
    }
  }

  lemma {:induction false} GbnStaysInRange(value: int, n: nat)
    requires 0 <= value <= MAX_SEQUENCE_NUMBER + 1
    ensures 0 <= StepTimes(GoBackN, value, n) <= MAX_SEQUENCE_NUMBER + 1
  {
    if n == 0 {
    } else {
      GbnStaysInRange(value, n - 1);
    }
  }

  /** Stepping a stop-and-wait counter is counting modulo two. */
  lemma {:induction false} SawCountsModuloTwo(value: int, n: nat)
    requires value == 0 || value == 1
    ensures StepTimes(StopAndWait, value, n) == (value + n) % 2
  {
    if n == 0 {
    } else {
      SawCountsModuloTwo(value, n - 1);
    }
  }
}
