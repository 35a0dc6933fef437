/**
 * How stop-and-wait waits: a socket that repeats its last packet on every timeout, inside a loop that listens again
 * after every unwanted packet. Two nested bounds and a deadline stop it.
 */
module RetryEngine {
  import opened PacketFormat

  const SOCKET_CONNECTION_LOST_TIMEOUT: real := 30.0
  const SOCKET_RETRANSMISSION_TIMEOUT: real := 0.015
  const MAX_RETRANSMISSION_ATTEMPTS: nat := 300

  datatype Exception =
    | InvalidSequenceNumber | InvalidAckNumber | MessageIsNotAck | MessageIsNotFin | MessageIsNotFinAck
    | MessageIsNotSyn | MessageNotFinNorAck | UnexpectedFinMessage | ConnectionLost | ConnectionRefused
    | SocketShutdown | OtherException

  const WANT_TO_CATCH_ALL: seq<Exception> :=
    [InvalidSequenceNumber, InvalidAckNumber, MessageIsNotAck, MessageIsNotFin, MessageIsNotFinAck, MessageIsNotSyn,
     MessageNotFinNorAck, UnexpectedFinMessage, MessageNotFinNorAck, ConnectionLost, ConnectionRefused]

  /** The exceptions the wrapper catches: all of its list except those the caller wants to see. */
  method ConfigureWantedExceptionsToCatch(letThrough: Option<seq<Exception>>) returns (wanted: seq<Exception>)
    ensures forall e :: e in wanted <==> Catches(letThrough, e)
  {
    if letThrough == None {
      return WANT_TO_CATCH_ALL;
    }
    wanted := [];
    for i := 0 to |WANT_TO_CATCH_ALL|
      invariant forall e :: e in wanted <==> e in WANT_TO_CATCH_ALL[..i] && e !in letThrough.value
    {
      var element := WANT_TO_CATCH_ALL[i];
      if element !in letThrough.value {
        wanted := wanted + [element];
      }
    }
    assert WANT_TO_CATCH_ALL[..|WANT_TO_CATCH_ALL|] == WANT_TO_CATCH_ALL;
  }

  predicate Catches(letThrough: Option<seq<Exception>>, e: Exception) {
    e != SocketShutdown && e != OtherException && (letThrough.Some? ==> e !in letThrough.value)
  }

  /** The exceptions that no packet causes. */
  predicate OfSocket(e: Exception) {
    e == ConnectionLost || e == SocketShutdown || e == OtherException
  }

  /** What the operating system's socket answers. */
  datatype Answer<T> = Datagram(packet: T) | SocketTimeout | OsError

  /** What an observer of the socket sees: it was asked to wait, and how that ended; or it sent something. */
  datatype Happening<T> = Waited(timeout: real, answer: Answer<T>) | Transmitted(packet: T)

  /**
   * The clock and the network. The clock never goes back, and a wait that times out has lasted at least as long as
   * it was told to. The network delivers any datagrams, but no more than `supply` of them; everything else is
   * arbitrary.
   */
  class World<T(0)> {
    var now: real
    var supply: nat
    ghost var timeline: seq<Happening<T>>

    constructor (supply: nat)
      ensures now == 0.0 && this.supply == supply && timeline == []
    {
      now := 0.0;
      this.supply := supply;
      timeline := [];
    }

    method Time() returns (t: real)
      modifies this`now
      ensures now >= old(now) && t == now
    {
      var elapsed: real := *;
      if elapsed > 0.0 {
        now := now + elapsed;
      }
      t := now;
    }

    method Receive(timeout: real) returns (a: Answer<T>)
      requires timeout > 0.0
      modifies this
      ensures now >= old(now)
      ensures a == SocketTimeout ==> now >= old(now) + timeout
      ensures supply == if a.Datagram? then old(supply) - 1 else old(supply)
      ensures timeline == old(timeline) + [Waited(timeout, a)]
    {
      var t := Time();
      var packet: T := *;
      var heard: bool := *;
      var broken: bool := *;
      if heard && supply > 0 {
        supply := supply - 1;
        a := Datagram(packet);
      } else if broken {
        a := OsError;
      } else {
        now := now + timeout;
        a := SocketTimeout;
      }
      timeline := timeline + [Waited(timeout, a)];
    }

    method Send(packet: T) returns (ok: bool)
      modifies this`timeline
      ensures timeline == if ok then old(timeline) + [Transmitted(packet)] else old(timeline)
    {
      ok := *;
      if ok {
        timeline := timeline + [Transmitted(packet)];
      }
    }
  }

  /** What happened at a socket: a packet was heard, or its last packet was repeated without hearing one. */
  datatype Event<T> = Heard(packet: T) | Repeated

  datatype Received<T> = Got(packet: T) | Nothing | Raised(error: Exception)

  datatype Verdict<A> = Accept(value: A) | Reject(error: Exception)

  datatype Outcome<A> = Returned(value: A) | Threw(error: Exception)

  function Copies<T>(x: T, n: nat): seq<T> {
    seq(n, _ => x)
  }

  function Silence<T>(n: nat): seq<Event<T>> {
    seq(n, _ => Repeated)
  }

  /** How often something was sent. */
  function Transmissions<T>(line: seq<Happening<T>>): nat {
    if line == [] then 0 else (if line[0].Transmitted? then 1 else 0) + Transmissions(line[1..])
  }

  lemma {:induction false} TransmissionsConcat<T>(xs: seq<Happening<T>>, ys: seq<Happening<T>>)
    ensures Transmissions(xs + ys) == Transmissions(xs) + Transmissions(ys)
    decreases |xs|
  {
    if xs == [] {
      assert xs + ys == ys;
    } else {
      TransmissionsConcat(xs[1..], ys);
      assert (xs + ys)[1..] == xs[1..] + ys;
    }
  }

  /** A wait of at most one retransmission interval. */
  ghost predicate ShortWait<T>(h: Happening<T>) {
    h.Waited? ==> 0.0 < h.timeout <= 0.015
  }

  /** Nothing was heard, and every wait that timed out was followed by the last packet at once. */
  ghost predicate AllRepeated<T>(line: seq<Happening<T>>, last: T, repeats: nat) {
    && (forall i :: 0 <= i < |line| ==> ShortWait(line[i]))
    && (forall i :: 0 <= i < |line| && line[i].Waited? ==>
          line[i].answer == SocketTimeout && i + 1 < |line| && line[i + 1] == Transmitted(last))
    && (forall i :: 0 <= i < |line| && line[i].Transmitted? ==> line[i].packet == last)
    && Transmissions(line) == repeats
  }

  /**
   * What a wait with a packet to repeat looks like: no wait is longer than the retransmission interval, each that timed
   * out was followed by the last packet at once, unless the call raised then, and nothing else was sent. A packet heard
   * ends it.
   */
  ghost predicate KeepsRepeating<T>(line: seq<Happening<T>>, last: T, r: Received<T>, repeats: nat) {
    && (forall i :: 0 <= i < |line| ==> ShortWait(line[i]))
    && (forall i :: 0 <= i < |line| && line[i].Waited? && i + 1 < |line| ==>
          line[i].answer == SocketTimeout && line[i + 1] == Transmitted(last))
    && (forall i :: 0 <= i < |line| && line[i].Transmitted? ==> line[i].packet == last)
    && Transmissions(line) == repeats
    && (line != [] && line[|line| - 1].Waited? ==>
          match line[|line| - 1].answer
          case Datagram(packet) => r == Got(packet)
          case SocketTimeout => r.Raised?
          case OsError => r == Raised(SocketShutdown))
    && (r.Got? ==> line != [] && line[|line| - 1].Waited? && line[|line| - 1].answer == Datagram(r.packet))
  }

  /** Without a packet to repeat: one wait of 30 s. */
  ghost predicate OneLongWait<T>(line: seq<Happening<T>>, r: Received<T>) {
    && |line| == 1 && line[0].Waited? && line[0].timeout == 30.0
    && r == (if line[0].answer.Datagram? then Got(line[0].answer.packet) else Raised(ConnectionLost))
  }

  /** What an interval that expires contains: one wait that timed out, or none if the clock ran past it. */
  ghost predicate SilentWait<T>(waits: seq<Happening<T>>) {
    waits == [] || (|waits| == 1 && waits[0].Waited? && ShortWait(waits[0]) && waits[0].answer == SocketTimeout)
  }

  lemma OneMoreInterval<T>(line: seq<Happening<T>>, waits: seq<Happening<T>>, last: T, repeats: nat)
    requires AllRepeated(line, last, repeats) && SilentWait(waits)
    ensures AllRepeated(line + waits + [Transmitted(last)], last, repeats + 1)
  {
    TransmissionsConcat(line, waits);
    TransmissionsConcat(line + waits, [Transmitted(last)]);
    assert waits != [] ==> waits[1..] == [];
    assert [Transmitted(last)][1..] == [];
  }

  lemma LastInterval<T>(line: seq<Happening<T>>, waits: seq<Happening<T>>, last: T, r: Received<T>, repeats: nat)
    requires AllRepeated(line, last, repeats) && SilentWait(waits) && r.Raised?
    ensures KeepsRepeating(line + waits, last, r, repeats)
  {
    TransmissionsConcat(line, waits);
    assert waits != [] ==> waits[1..] == [];
  }

  /** One short wait, ended in this way. */
  ghost predicate EndingWait<T>(waits: seq<Happening<T>>, answer: Answer<T>) {
    |waits| == 1 && waits[0].Waited? && ShortWait(waits[0]) && waits[0].answer == answer
  }

  lemma AnsweredInterval<T>(line: seq<Happening<T>>, waits: seq<Happening<T>>, last: T, r: Received<T>, repeats: nat)
    requires AllRepeated(line, last, repeats)
    requires match r
             case Nothing => false
             case Got(packet) => EndingWait(waits, Datagram(packet))
             case Raised(e) => e == SocketShutdown && EndingWait(waits, OsError)
    ensures KeepsRepeating(line + waits, last, r, repeats)
  {
    TransmissionsConcat(line, waits);
    assert waits[1..] == [];
  }

  class SocketSaw<T(0)> {
    const world: World<T>
    var lastRawPacket: Option<T>
    var sent: seq<T>
    ghost var history: seq<Event<T>>

    constructor (world: World<T>)
      ensures this.world == world && lastRawPacket == None && sent == [] && history == []
    {
      this.world := world;
      lastRawPacket := None;
      sent := [];
      history := [];
    }

    /** Sending remembers the packet first, so a failed send still becomes the one to repeat. */
    method Sendto(packet: T) returns (ok: bool)
      modifies this`lastRawPacket, this`sent, world`timeline
      ensures lastRawPacket == Some(packet)
      ensures sent == if ok then old(sent) + [packet] else old(sent)
      ensures world.timeline == if ok then old(world.timeline) + [Transmitted(packet)] else old(world.timeline)
    {
      lastRawPacket := Some(packet);
      ok := world.Send(packet);
      if ok {
        sent := sent + [packet];
      }
    }

    method RetransmitLastPacket() returns (ok: bool)
      modifies this`lastRawPacket, this`sent, world`timeline
      ensures lastRawPacket == old(lastRawPacket)
      ensures world.timeline == old(world.timeline)
                                + if ok && lastRawPacket.Some? then [Transmitted(lastRawPacket.value)] else []
      ensures sent == if ok && lastRawPacket.Some? then old(sent) + [lastRawPacket.value] else old(sent)
      ensures lastRawPacket == None ==> ok
    {
      if lastRawPacket == None {
        return true;
      }
      ok := Sendto(lastRawPacket.value);
    }

    /** The inner loop: waits until something happens or the retransmission interval is over, which is `Nothing`. */
    method WaitForInterval(retransmissionDeadline: real) returns (r: Received<T>, ghost waits: seq<Happening<T>>)
      requires world.now >= retransmissionDeadline - SOCKET_RETRANSMISSION_TIMEOUT
      modifies this`history, world
      ensures world.now >= old(world.now) && world.timeline == old(world.timeline) + waits
      ensures history == old(history) + if r.Got? then [Heard(r.packet)] else []
      ensures world.supply == if r.Got? then old(world.supply) - 1 else old(world.supply)
      ensures match r
              case Nothing => SilentWait(waits) && world.now >= retransmissionDeadline
              case Got(packet) => EndingWait(waits, Datagram(packet))
              case Raised(e) => e == SocketShutdown && EndingWait(waits, OsError)
    {
      waits := [];
      while true
        invariant world.now >= old(world.now) && world.timeline == old(world.timeline) + waits
        invariant history == old(history) && world.supply == old(world.supply)
        invariant world.now >= retransmissionDeadline - SOCKET_RETRANSMISSION_TIMEOUT
        invariant SilentWait(waits) && (waits != [] ==> world.now >= retransmissionDeadline)
        decreases if world.now >= retransmissionDeadline then 0 else 1
      {
        var t := world.Time();
        var remaining := retransmissionDeadline - t;
        if remaining <= 0.0 {
          return Nothing, waits;
        }
        var answer := world.Receive(remaining);
        waits := [Waited(remaining, answer)];
        match answer {
          case Datagram(packet) =>
            history := history + [Heard(packet)];
            return Got(packet), waits;
          case SocketTimeout =>
          case OsError =>
            return Raised(SocketShutdown), waits;
        }
      }
    }

    /**
     * One turn of the outer loop, the `attempt`-th: an interval that ends without a packet is followed by the last
     * packet again, unless the attempts or the time are used up.
     */
    method AttemptOnce(attempt: nat, connectionLostDeadline: real, ghost line: seq<Happening<T>>)
      returns (r: Received<T>, ghost more: seq<Happening<T>>)
      requires lastRawPacket.Some? && 1 <= attempt <= MAX_RETRANSMISSION_ATTEMPTS
      requires AllRepeated(line, lastRawPacket.value, attempt - 1)
      modifies this, world
      ensures lastRawPacket == old(lastRawPacket) && world.now >= old(world.now)
      ensures world.timeline == old(world.timeline) + more
      ensures world.supply == if r.Got? then old(world.supply) - 1 else old(world.supply)
      ensures r == Nothing ==>
                && attempt < MAX_RETRANSMISSION_ATTEMPTS && world.now >= old(world.now) + 0.015
                && AllRepeated(line + more, lastRawPacket.value, attempt)
                && sent == old(sent) + [lastRawPacket.value] && history == old(history) + [Repeated]
      ensures r != Nothing ==>
                && KeepsRepeating(line + more, lastRawPacket.value, r, attempt - 1)
                && sent == old(sent) && history == old(history) + if r.Got? then [Heard(r.packet)] else []
      ensures r.Raised? ==> r.error == ConnectionLost || r.error == SocketShutdown
      ensures r == Raised(ConnectionLost) ==>
                attempt == MAX_RETRANSMISSION_ATTEMPTS || world.now > connectionLostDeadline
    {
      var t := world.Time();
      ghost var waits;
      r, waits := WaitForInterval(t + SOCKET_RETRANSMISSION_TIMEOUT);
      more := waits;
      if r != Nothing {
        AnsweredInterval(line, waits, lastRawPacket.value, r, attempt - 1);
        return;
      }
      t := world.Time();
      if !(attempt + 1 <= MAX_RETRANSMISSION_ATTEMPTS && t <= connectionLostDeadline) {
        r := Raised(ConnectionLost);
        LastInterval(line, waits, lastRawPacket.value, r, attempt - 1);
        return;
      }
      var ok := RetransmitLastPacket();
      if !ok {
        r := Raised(SocketShutdown);
        LastInterval(line, waits, lastRawPacket.value, r, attempt - 1);
        return;
      }
      OneMoreInterval(line, waits, lastRawPacket.value, attempt - 1);
      more := waits + [Transmitted(lastRawPacket.value)];
      assert line + more == line + waits + [Transmitted(lastRawPacket.value)];
      history := history + [Repeated];
    }

    /**
     * Waits for a packet, repeating the last one after every silent 15 ms: at most 299 times, and not past the
     * 30 s deadline. `repeats` counts the repetitions.
     */
    method RecvfromWithRetransmission() returns (r: Received<T>, repeats: nat, ghost line: seq<Happening<T>>)
      requires lastRawPacket.Some?
      modifies this, world
      ensures lastRawPacket == old(lastRawPacket) && world.now >= old(world.now)
      ensures repeats <= MAX_RETRANSMISSION_ATTEMPTS - 1
      ensures sent == old(sent) + Copies(lastRawPacket.value, repeats)
      ensures history == old(history) + Silence(repeats) + if r.Got? then [Heard(r.packet)] else []
      ensures world.supply == if r.Got? then old(world.supply) - 1 else old(world.supply)
      ensures r.Raised? ==> r.error == ConnectionLost || r.error == SocketShutdown
      ensures r == Raised(ConnectionLost) ==>
                || repeats == MAX_RETRANSMISSION_ATTEMPTS - 1
                || world.now > old(world.now) + SOCKET_CONNECTION_LOST_TIMEOUT
      ensures r == Nothing ==> world.now > old(world.now) + SOCKET_CONNECTION_LOST_TIMEOUT
      ensures world.timeline == old(world.timeline) + line && KeepsRepeating(line, lastRawPacket.value, r, repeats)
      ensures world.now >= old(world.now) + repeats as real * 0.015
    {
      line := [];
      ghost var before := world.timeline;
      var transmissionAttempt := 1;
      repeats := 0;
      var t := world.Time();
      var connectionLostDeadline := t + SOCKET_CONNECTION_LOST_TIMEOUT;
      t := world.Time();
      var canStillRetransmit := transmissionAttempt <= MAX_RETRANSMISSION_ATTEMPTS && t <= connectionLostDeadline;
      while canStillRetransmit
        invariant canStillRetransmit ==> 1 <= transmissionAttempt <= MAX_RETRANSMISSION_ATTEMPTS
        invariant canStillRetransmit || world.now > connectionLostDeadline
        invariant repeats == transmissionAttempt - 1 && transmissionAttempt <= MAX_RETRANSMISSION_ATTEMPTS
        invariant lastRawPacket == old(lastRawPacket)
        invariant world.now >= old(world.now) && world.supply == old(world.supply)
        invariant sent == old(sent) + Copies(lastRawPacket.value, repeats)
        invariant history == old(history) + Silence(repeats)
        invariant world.timeline == before + line && AllRepeated(line, lastRawPacket.value, repeats)
        invariant world.now >= old(world.now) + repeats as real * 0.015
        decreases MAX_RETRANSMISSION_ATTEMPTS - transmissionAttempt, canStillRetransmit
      {
        ghost var more;
        r, more := AttemptOnce(transmissionAttempt, connectionLostDeadline, line);
        line := line + more;
        assert world.timeline == before + line;
        if r != Nothing {
          return r, repeats, line;
        }
        transmissionAttempt := transmissionAttempt + 1;
        repeats := repeats + 1;
      }
      return Nothing, repeats, line;
    }

    /** Without a packet to repeat it is one plain wait, and every failure of that counts as a lost connection. */
    method Recvfrom() returns (r: Received<T>, repeats: nat, ghost line: seq<Happening<T>>)
      modifies this, world
      ensures lastRawPacket == old(lastRawPacket) && world.now >= old(world.now)
      ensures repeats <= MAX_RETRANSMISSION_ATTEMPTS - 1
      ensures sent == old(sent) + if lastRawPacket.Some? then Copies(lastRawPacket.value, repeats) else []
      ensures history == old(history) + Silence(repeats) + if r.Got? then [Heard(r.packet)] else []
      ensures world.supply == if r.Got? then old(world.supply) - 1 else old(world.supply)
      ensures r.Raised? ==> r.error == ConnectionLost || r.error == SocketShutdown
      ensures world.timeline == old(world.timeline) + line
      ensures match lastRawPacket
              case Some(last) => KeepsRepeating(line, last, r, repeats)
              case None => OneLongWait(line, r)
    {
      if lastRawPacket == None {
        repeats := 0;
        var answer := world.Receive(SOCKET_CONNECTION_LOST_TIMEOUT);
        line := [Waited(SOCKET_CONNECTION_LOST_TIMEOUT, answer)];
        if answer.Datagram? {
          history := history + [Heard(answer.packet)];
          return Got(answer.packet), repeats, line;
        }
        return Raised(ConnectionLost), repeats, line;
      }
      r, repeats, line := RecvfromWithRetransmission();
    }

    /** One call of a decorated function: one packet off the socket, if any, and its acceptance test. */
    method Listen<A>(check: T -> Verdict<A>) returns (o: Outcome<A>, repeats: nat, heard: Option<T>)
      modifies this, world
      ensures lastRawPacket == old(lastRawPacket) && world.now >= old(world.now)
      ensures repeats <= MAX_RETRANSMISSION_ATTEMPTS - 1
      ensures sent == old(sent) + if lastRawPacket.Some? then Copies(lastRawPacket.value, repeats) else []
      ensures history == old(history) + Silence(repeats) + if heard.Some? then [Heard(heard.value)] else []
      ensures world.supply == if heard.Some? then old(world.supply) - 1 else old(world.supply)
      ensures match heard
              case Some(packet) => o == (match check(packet) case Accept(v) => Returned(v) case Reject(e) => Threw(e))
              case None => o.Threw? && OfSocket(o.error)
    {
      var r;
      ghost var line;
      r, repeats, line := Recvfrom();
      heard := None;
      match r {
        case Got(packet) =>
          heard := Some(packet);
          o := match check(packet) case Accept(v) => Returned(v) case Reject(e) => Threw(e);
        case Nothing => o := Threw(OtherException);
        case Raised(e) => o := Threw(e);
      }
    }

    /** One turn of the wrapper's loop: a caught exception is answered with the last packet, and `again` is set. */
    method Attempt<A>(check: T -> Verdict<A>, wantToCatch: seq<Exception>)
      returns (o: Outcome<A>, again: bool, ghost events: seq<Event<T>>)
      requires SocketShutdown !in wantToCatch
      modifies this, world
      ensures lastRawPacket == old(lastRawPacket) && world.now >= old(world.now)
      ensures history == old(history) + events && |events| <= MAX_RETRANSMISSION_ATTEMPTS
      ensures world.supply <= old(world.supply) && (o.Returned? ==> world.supply < old(world.supply))
      ensures |sent| <= |old(sent)| + |events|
      ensures match o
              case Returned(v) =>
                && !again
                && |events| > 0 && events[|events| - 1].Heard? && check(events[|events| - 1].packet) == Accept(v)
                && Unwanted(events[..|events| - 1], check)
                && sent == Repeating(old(sent), lastRawPacket, |events| - 1)
              case Threw(e) =>
                && Unwanted(events, check) && Explained(e, check, events)
                && again == (e in wantToCatch)
                && (again ==> |events| > 0)
                && (again ==> sent == Repeating(old(sent), lastRawPacket, |events|))
    {
      var repeats, heard;
      o, repeats, heard := Listen(check);
      ghost var silent := Silence(repeats);
      events := silent + if heard.Some? then [Heard(heard.value)] else [];
      again := false;
      assert Unwanted(silent, check) && (o.Threw? ==> Unwanted(events, check) && Explained(o.error, check, events));
      if o.Returned? {
        assert events[..|events| - 1] == silent;
        return;
      }
      if o.error in wantToCatch {
        var ok := RetransmitLastPacket();
        if !ok {
          o := Threw(SocketShutdown);
          return;
        }
        again := true;
        if heard == None {
          history := history + [Repeated];
          events := events + [Repeated];
        }
        assert |events| == repeats + 1;
      }
    }

    /** The same turn, told in terms of everything since `before` was the log and `earlier` had happened. */
    method NextAttempt<A>(check: T -> Verdict<A>, wantToCatch: seq<Exception>,
                          ghost before: seq<T>, ghost earlier: seq<Event<T>>)
      returns (o: Outcome<A>, again: bool, ghost events: seq<Event<T>>)
      requires SocketShutdown !in wantToCatch
      requires Unwanted(earlier, check) && sent == Repeating(before, lastRawPacket, |earlier|)
      modifies this, world
      ensures lastRawPacket == old(lastRawPacket) && world.now >= old(world.now)
      ensures earlier <= events && |events| <= |earlier| + MAX_RETRANSMISSION_ATTEMPTS
      ensures history == old(history) + events[|earlier|..]
      ensures world.supply <= old(world.supply) && (o.Returned? ==> world.supply < old(world.supply))
      ensures |sent| <= |before| + |events|
      ensures Answered(o, check, events, before, sent, lastRawPacket)
      ensures o.Returned? ==> !again
      ensures o.Threw? ==>
                Unwanted(events, check) && Explained(o.error, check, events) && again == (o.error in wantToCatch)
      ensures again ==> sent == Repeating(before, lastRawPacket, |events|) && |events| > |earlier|
    {
      ghost var more;
      ghost var n, m := |before|, |sent|;
      o, again, more := Attempt(check, wantToCatch);
      events := earlier + more;
      RepeatingAdd(before, lastRawPacket, |earlier|, |more|);
      if o.Returned? {
        RepeatingAdd(before, lastRawPacket, |earlier|, |more| - 1);
        assert events[..|events| - 1] == earlier + more[..|more| - 1];
      }
    }

    /**
     * The retry wrapper. At most 300 calls of the wrapped function, and at most 300 repetitions of the last packet
     * for each; a value is returned only if the wrapped function accepted a packet with it; an exception comes out
     * only if it is not caught, or the attempts or the time are used up, and it is the socket's own or the verdict on
     * the last packet heard. The events between say what was heard: every packet but an accepted last one was
     * rejected, and each event was answered with the last packet.
     */
    method ReListenIfFailed<A>(check: T -> Verdict<A>, letThrough: Option<seq<Exception>>)
      returns (o: Outcome<A>, listens: nat, ghost events: seq<Event<T>>)
      modifies this, world
      ensures lastRawPacket == old(lastRawPacket) && world.now >= old(world.now)
      ensures 1 <= listens <= MAX_RETRANSMISSION_ATTEMPTS
      ensures |sent| <= |old(sent)| + listens * MAX_RETRANSMISSION_ATTEMPTS
      ensures history == old(history) + events
      ensures world.supply <= old(world.supply) && (o.Returned? ==> world.supply < old(world.supply))
      ensures match o
              case Returned(v) => Answered(o, check, events, old(sent), sent, lastRawPacket)
              case Threw(e) =>
                && Unwanted(events, check) && Explained(e, check, events)
                && (Catches(letThrough, e) ==>
                      && sent == Repeating(old(sent), lastRawPacket, |events|) && |events| >= listens
                      && (listens == MAX_RETRANSMISSION_ATTEMPTS
                          || world.now >= old(world.now) + SOCKET_CONNECTION_LOST_TIMEOUT))
    {
      var wantToCatch := ConfigureWantedExceptionsToCatch(letThrough);
      var listeningAttempts := 0;
      var exceptionGot: Option<Exception> := None;
      var startTime := world.Time();
      var timeOfAccumulation := startTime;
      var accumulatedTime := 0.0;
      listens := 0;
      events := [];
      ghost var before, last := sent, lastRawPacket;

      while listeningAttempts < MAX_RETRANSMISSION_ATTEMPTS && accumulatedTime < SOCKET_CONNECTION_LOST_TIMEOUT
        invariant listens == listeningAttempts <= MAX_RETRANSMISSION_ATTEMPTS
        invariant lastRawPacket == last
        invariant if listeningAttempts == 0 then accumulatedTime == 0.0
                  else exceptionGot.Some? && Catches(letThrough, exceptionGot.value)
                       && Explained(exceptionGot.value, check, events)
        invariant startTime >= old(world.now) && world.now >= startTime && world.supply <= old(world.supply)
        invariant world.now >= timeOfAccumulation && accumulatedTime == timeOfAccumulation - startTime
        invariant history == old(history) + events && Unwanted(events, check)
        invariant sent == Repeating(before, last, |events|)
        invariant listens <= |events| <= listens * MAX_RETRANSMISSION_ATTEMPTS
      {
        var again;
        ghost var earlier := events;
        o, again, events := NextAttempt(check, wantToCatch, before, earlier);
        assert earlier + events[|earlier|..] == events;
        listens := listens + 1;
        if !again {
          return;
        }
        exceptionGot := Some(o.error);
        listeningAttempts := listeningAttempts + 1;
        var currentTime := world.Time();
        accumulatedTime := accumulatedTime + (currentTime - timeOfAccumulation);
        timeOfAccumulation := currentTime;
      }

      o := Threw(exceptionGot.value);
    }
  }

  /** An exception is the socket's own, or the verdict on the last packet heard. */
  ghost predicate Explained<T, A>(e: Exception, check: T -> Verdict<A>, events: seq<Event<T>>) {
    || OfSocket(e)
    || (|events| > 0 && events[|events| - 1].Heard? && check(events[|events| - 1].packet) == Reject(e))
  }

  /** The last of these events brought the value; all before it were unwanted and answered with the last packet. */
  ghost predicate Answered<T, A>(o: Outcome<A>, check: T -> Verdict<A>, events: seq<Event<T>>,
                                 before: seq<T>, now: seq<T>, last: Option<T>)
  {
    o.Returned? ==>
      && |events| > 0 && events[|events| - 1].Heard? && check(events[|events| - 1].packet) == Accept(o.value)
      && Unwanted(events[..|events| - 1], check)
      && now == Repeating(before, last, |events| - 1)
  }

  lemma RepeatingAdd<T>(sent: seq<T>, last: Option<T>, a: nat, b: nat)
    ensures Repeating(Repeating(sent, last, a), last, b) == Repeating(sent, last, a + b)
  {
  }

  /** No packet among these events is one the test accepts. */
  ghost predicate Unwanted<T, A>(events: seq<Event<T>>, check: T -> Verdict<A>) {
    forall i :: 0 <= i < |events| && events[i].Heard? ==> check(events[i].packet).Reject?
  }

  /** The log after repeating the last packet `n` times, if there is one. */
  function Repeating<T>(sent: seq<T>, last: Option<T>, n: nat): seq<T> {
    if last == None then sent else sent + Copies(last.value, n)
  }
}
