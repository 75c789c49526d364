/** The receive loop over the queue's socket: when it ends, and how long it waits after errors. */
module QueueLoop {
  import opened Wrappers
  import opened NfQueue
  import opened RawSend
  import opened Numerals

  const MAX_PACKET_ERRORS := 20

  /** One round of the loop, by what poll, recv and the handling of the datagram give. */
  datatype Event =
    | Exit                             // the exit flag is seen
    | PollInterrupted | PollFails | TimedOut
    | InvalidSocket                    // POLLNVAL
    | NotReadable
    | ReceiveInterrupted
    | TransientError                   // EAGAIN, ETIMEDOUT, ENOBUFS
    | ReceiveFails | Closed
    | Received(m: Message, taken: bool)

  datatype End = Normal | Fatal | PacketErrors

  type ErrorCount = n: nat | n < MAX_PACKET_ERRORS

  /** Unsigned 32-bit addition of one. */
  function Increment(n: uint32): uint32
  {
    if n == 0xFFFF_FFFF then 0 else n + 1
  }

  /** The loop between two events: its two error counters, or how it ended. */
  datatype State =
    | Looping(packetErrors: ErrorCount, transientErrors: uint32)
    | Ended(how: End)

  predicate Handles(e: Event)
  {
    e.Received? && e.m.header.Some? && e.taken
  }

  /** An event that ends the loop at once. */
  predicate Stops(e: Event)
  {
    e.Exit? || e.PollFails? || e.InvalidSocket? || e.ReceiveFails? || e.Closed?
  }

  /** The delay after an error, in milliseconds: 10 shifted left by the count, at most 1000. */
  function Backoff(count: uint32): nat
  {
    var shift := if count > 7 then 7 else count;
    var delay := Shifted(10, shift);
    if delay > 1000 then 1000 else delay
  }

  function Shifted(x: nat, shift: nat): nat
  {
    if shift == 0 then x else 2 * Shifted(x, shift - 1)
  }

  function Next(s: State, e: Event): State
  {
    if s.Ended? then s
    else
      match e
      case Exit => Ended(Normal)
      case PollFails | InvalidSocket | ReceiveFails | Closed => Ended(Fatal)
      case PollInterrupted | TimedOut | NotReadable | ReceiveInterrupted => s
      case TransientError => Looping(s.packetErrors, Increment(s.transientErrors))
      case Received(_, _) =>
        if Handles(e) then Looping(0, 0)
        else if s.packetErrors + 1 >= MAX_PACKET_ERRORS then Ended(PacketErrors)
        else Looping(s.packetErrors + 1, 0)
  }

  /** The delay that an event causes, if any. */
  function Delay(s: State, e: Event): Option<nat>
  {
    var s' := Next(s, e);
    if s.Ended? || s'.Ended? then None
    else if e.TransientError? then Some(Backoff(s'.transientErrors))
    else if e.Received? && !Handles(e) then Some(Backoff(s'.packetErrors))
    else None
  }

  /** The loop's local variables as a state. */
  function Current(how: Option<End>, packetErrors: ErrorCount, transientErrors: uint32): State
  {
    if how.Some? then Ended(how.value) else Looping(packetErrors, transientErrors)
  }

  /** What the loop has gone through: its state, the messages it received, and its waits. */
  datatype Trail = Trail(state: State, ms: seq<Message>, delays: seq<nat>)

  function Extend(t: Trail, e: Event): Trail
  {
    var d := Delay(t.state, e);
    Trail(Next(t.state, e),
          if t.state.Looping? && e.Received? then t.ms + [e.m] else t.ms,
          if d.Some? then t.delays + [d.value] else t.delays)
  }

  function Fold(events: seq<Event>): Trail
  {
    if events == [] then Trail(Looping(0, 0), [], [])
    else Extend(Fold(events[..|events| - 1]), events[|events| - 1])
  }

  /** How the loop stands after the events. */
  function StateAfter(events: seq<Event>): State
  {
    Fold(events).state
  }

  lemma OneMoreEvent(events: seq<Event>, i: nat)
    requires i < |events|
    ensures Fold(events[..i + 1]) == Extend(Fold(events[..i]), events[i])
  {
    assert events[..i + 1][..i] == events[..i];
  }

  lemma {:induction false} StaysEnded(events: seq<Event>, i: nat)
    requires i <= |events| && StateAfter(events[..i]).Ended?
    ensures Fold(events) == Fold(events[..i])
    decreases |events|
  {
    if i == |events| {
      assert events[..i] == events;
    } else {
      assert events[..|events| - 1][..i] == events[..i];
      StaysEnded(events[..|events| - 1], i);
    }
  }

  /** After `ms` was handled: the verdicts it got beyond `earlier`, and the states it went through. */
  ghost predicate HasHandled(q: Queue, earlier: seq<Verdict>, ms: seq<Message>, states: seq<Snapshot>)
    reads q, q.handler.sockets, q.handler.cache, q.handler.cache.srci, q.handler.ring
  {
    && q.handler.Valid()
    && q.verdicts == earlier + AllVerdicts(ms)
    && Run(q.handler.cfg, ms, states)
    && states[|ms|] == q.handler.Now()
  }

  /** One datagram, and with it one message. */
  method Receive(q: Queue, e: Event, ghost earlier: seq<Verdict>, ghost ms: seq<Message>, ghost states: seq<Snapshot>)
    returns (handled: bool, ghost states': seq<Snapshot>)
    requires e.Received? && HasHandled(q, earlier, ms, states)
    modifies q`verdicts, q.handler.sockets, q.handler.cache, q.handler.cache.srci, q.handler.ring
    ensures q.handler.cache.srci == old(q.handler.cache.srci)
    ensures HasHandled(q, earlier, ms + [e.m], states') && states'[0] == states[0]
    ensures handled == Handles(e)
  {
    handled := q.Callback(e.m, e.taken);
    RunSnoc(q.handler.cfg, ms, states, e.m, q.handler.Now());
    states' := states + [q.handler.Now()];
  }

  /** A round that receives no datagram. */
  method Idle(e: Event, packetErrors: ErrorCount, transientErrors: uint32, delays: seq<nat>, ghost ms: seq<Message>)
    returns (how: Option<End>, transientErrors': uint32, delays': seq<nat>)
    requires !e.Received?
    ensures Trail(Current(how, packetErrors, transientErrors'), ms, delays') ==
            Extend(Trail(Looping(packetErrors, transientErrors), ms, delays), e)
  {
    how, transientErrors', delays' := None, transientErrors, delays;
    if Stops(e) {
      how := Some(if e.Exit? then Normal else Fatal);
    } else if e.TransientError? {
      transientErrors' := Increment(transientErrors);
      delays' := delays + [Backoff(transientErrors')];
    }
  }

  /** What a datagram does to the counters. */
  method Count(e: Event, handled: bool, packetErrors: ErrorCount, transientErrors: uint32, delays: seq<nat>,
               ghost ms: seq<Message>)
    returns (how: Option<End>, packetErrors': ErrorCount, delays': seq<nat>)
    requires e.Received? && handled == Handles(e)
    ensures Trail(Current(how, packetErrors', 0), ms + [e.m], delays') ==
            Extend(Trail(Looping(packetErrors, transientErrors), ms, delays), e)
  {
    how, packetErrors', delays' := None, 0, delays;
    if !handled {
      if packetErrors + 1 >= MAX_PACKET_ERRORS {
        how := Some(PacketErrors);
      } else {
        packetErrors' := packetErrors + 1;
        delays' := delays + [Backoff(packetErrors')];
      }
    }
  }

  /** One round: the counters, the waits, and what was handled. */
  method Round(q: Queue, e: Event, packetErrors: ErrorCount, transientErrors: uint32, delays: seq<nat>,
               ghost earlier: seq<Verdict>, ghost ms: seq<Message>, ghost states: seq<Snapshot>)
    returns (how: Option<End>, packetErrors': ErrorCount, transientErrors': uint32, delays': seq<nat>,
             ghost ms': seq<Message>, ghost states': seq<Snapshot>)
    requires HasHandled(q, earlier, ms, states)
    modifies q`verdicts, q.handler.sockets, q.handler.cache, q.handler.cache.srci, q.handler.ring
    ensures q.handler.cache.srci == old(q.handler.cache.srci)
    ensures HasHandled(q, earlier, ms', states') && states'[0] == states[0]
    ensures Trail(Current(how, packetErrors', transientErrors'), ms', delays') ==
            Extend(Trail(Looping(packetErrors, transientErrors), ms, delays), e)
  {
    if e.Received? {
      var handled;
      handled, states' := Receive(q, e, earlier, ms, states);
      how, packetErrors', delays' := Count(e, handled, packetErrors, transientErrors, delays, ms);
      transientErrors', ms' := 0, ms + [e.m];
    } else {
      how, transientErrors', delays' := Idle(e, packetErrors, transientErrors, delays, ms);
      packetErrors', ms', states' := packetErrors, ms, states;
    }
  }

  /**
   The loop on any sequence of events. When it has not ended by the last of them it is still
   running, with its counters as `end` gives them. `delays` are the waits in between, one as due for
   every error before the end.
   */
  method Loop(q: Queue, events: seq<Event>) returns (end: State, delays: seq<nat>, ghost states: seq<Snapshot>)
    requires q.handler.Valid()
    modifies q`verdicts, q.handler.sockets, q.handler.cache, q.handler.cache.srci, q.handler.ring
    ensures q.handler.cache.srci == old(q.handler.cache.srci)
    ensures end == Fold(events).state && delays == Fold(events).delays
    ensures WaitsUntilTheEnd(events, delays)
    ensures HasHandled(q, old(q.verdicts), Fold(events).ms, states) && states[0] == old(q.handler.Now())
  {
    var packetErrors: ErrorCount, transientErrors: uint32, how: Option<End> := 0, 0, None;
    delays, states := [], [q.handler.Now()];
    var i := 0;
    ghost var ms: seq<Message> := [];
    while i < |events| && how.None?
      invariant 0 <= i <= |events|
      invariant Fold(events[..i]) == Trail(Current(how, packetErrors, transientErrors), ms, delays)
      invariant q.handler.cache.srci == old(q.handler.cache.srci)
      invariant HasHandled(q, old(q.verdicts), ms, states) && states[0] == old(q.handler.Now())
    {
      OneMoreEvent(events, i);
      how, packetErrors, transientErrors, delays, ms, states :=
        Round(q, events[i], packetErrors, transientErrors, delays, old(q.verdicts), ms, states);
      i := i + 1;
    }
    if how.Some? {
      StaysEnded(events, i);
    } else {
      assert events[..i] == events;
    }
    end := Current(how, packetErrors, transientErrors);
    LoopWaits(events);
  }

  // ---- when the loop ends

  /** How handling each received datagram went, in order; all other events left out. */
  function Results(events: seq<Event>): seq<bool>
  {
    if events == [] then []
    else
      var e := events[|events| - 1];
      Results(events[..|events| - 1]) + if e.Received? then [Handles(e)] else []
  }

  predicate NoneStops(events: seq<Event>)
  {
    forall i | 0 <= i < |events| :: !Stops(events[i])
  }

  /** Somewhere there are 20 failures in a row. */
  predicate TwentyFailures(results: seq<bool>)
  {
    exists i | 0 <= i < |results| :: TwentyFrom(results, i)
  }

  predicate TwentyFrom(results: seq<bool>, i: nat)
  {
    i + 20 <= |results| && forall j | i <= j < i + 20 :: !results[j]
  }

  /** The failures at the end, back to the last success. */
  function Streak(results: seq<bool>): nat
  {
    if results == [] || results[|results| - 1] then 0 else 1 + Streak(results[..|results| - 1])
  }

  lemma {:induction false} StreakMeans(results: seq<bool>)
    ensures Streak(results) <= |results| && forall j | |results| - Streak(results) <= j < |results| :: !results[j]
    ensures Streak(results) < |results| ==> results[|results| - 1 - Streak(results)]
  {
    if results != [] && !results[|results| - 1] {
      StreakMeans(results[..|results| - 1]);
    }
  }

  /** One more result makes a first row of 20 failures exactly when it extends a streak of 19. */
  lemma OneMoreResult(results: seq<bool>, r: bool)
    ensures Streak(results + [r]) == if r then 0 else Streak(results) + 1
    ensures !TwentyFailures(results) ==> Streak(results) < MAX_PACKET_ERRORS
    ensures TwentyFailures(results + [r]) <==>
            TwentyFailures(results) || (!r && Streak(results) + 1 == MAX_PACKET_ERRORS)
  {
    var more := results + [r];
    assert more[..|results|] == results;
    StreakMeans(results);
    StreakMeans(more);
    if Streak(results) >= MAX_PACKET_ERRORS {
      assert TwentyFrom(results, |results| - MAX_PACKET_ERRORS);
    }
    if i :| 0 <= i < |results| && TwentyFrom(results, i) {
      assert TwentyFrom(more, i);
    } else if i :| 0 <= i < |more| && TwentyFrom(more, i) {
      assert i + MAX_PACKET_ERRORS <= |results| ==> TwentyFrom(results, i);
    }
    if !r && Streak(results) + 1 == MAX_PACKET_ERRORS {
      assert TwentyFrom(more, |more| - MAX_PACKET_ERRORS);
    }
  }

  /**
   The packet-error end: the loop stops this way exactly when, before any other end, handling
   failed 20 times with no success in between. What lies between the failures does not matter.
   */
  predicate ManyFailures(events: seq<Event>, n: nat)
    requires n <= |events|
  {
    NoneStops(events[..n]) && TwentyFailures(Results(events[..n]))
  }

  lemma {:induction false} WhenItEnds(events: seq<Event>)
    ensures StateAfter(events).Looping? <==> NoneStops(events) && !TwentyFailures(Results(events))
    ensures StateAfter(events).Looping? ==> StateAfter(events).packetErrors == Streak(Results(events))
    ensures StateAfter(events) == Ended(PacketErrors) <==> exists n | 0 <= n <= |events| :: ManyFailures(events, n)
  {
    if events == [] {
      assert forall n | 0 <= n <= |events| :: !ManyFailures(events, n) by { assert Results(events[..0]) == []; }
    } else {
      var front, e := events[..|events| - 1], events[|events| - 1];
      WhenItEnds(front);
      assert events == front + [e];
      assert NoneStops(events) <==> NoneStops(front) && !Stops(e);
      assert Results(events) == if e.Received? then Results(front) + [Handles(e)] else Results(front);
      if e.Received? {
        OneMoreResult(Results(front), Handles(e));
      }
      MoreEvents(front, e);
      WholeSequence(front);
      WholeSequence(events);
    }
  }

  lemma SamePrefix(front: seq<Event>, e: Event, n: nat)
    requires n <= |front|
    ensures ManyFailures(front + [e], n) == ManyFailures(front, n)
  {
    assert (front + [e])[..n] == front[..n];
  }

  lemma WholeSequence(events: seq<Event>)
    ensures ManyFailures(events, |events|) <==> NoneStops(events) && TwentyFailures(Results(events))
  {
    assert events[..|events|] == events;
  }

  /** What one more event does to the declarative condition. */
  lemma MoreEvents(front: seq<Event>, e: Event)
    ensures (exists n | 0 <= n <= |front| + 1 :: ManyFailures(front + [e], n)) <==>
            (exists n | 0 <= n <= |front| :: ManyFailures(front, n)) || ManyFailures(front + [e], |front| + 1)
  {
    forall n | 0 <= n <= |front|
      ensures ManyFailures(front + [e], n) == ManyFailures(front, n)
    {
      SamePrefix(front, e, n);
    }
  }

  /** Two states that differ at most in the count of transient errors. */
  predicate Alike(s: State, t: State)
  {
    if s.Ended? then s == t else t.Looping? && s.packetErrors == t.packetErrors
  }

  /** Transient receive errors, however many and wherever they come, never change how the loop ends. */
  lemma {:induction false} TransientErrorsNeverEnd(a: seq<Event>, errors: seq<Event>, b: seq<Event>)
    requires forall i | 0 <= i < |errors| :: errors[i].TransientError?
    ensures Alike(StateAfter(a + errors + b), StateAfter(a + b))
    decreases |errors| + |b|
  {
    if b != [] {
      TransientErrorsNeverEnd(a, errors, b[..|b| - 1]);
      assert (a + errors + b)[..|a + errors + b| - 1] == a + errors + b[..|b| - 1];
      assert (a + b)[..|a + b| - 1] == a + b[..|b| - 1];
    } else {
      assert a + b == a && a + errors + b == a + errors;
      if errors != [] {
        var front := errors[..|errors| - 1];
        TransientErrorsNeverEnd(a, front, []);
        assert a + front + [] == a + front && a + [] == a;
        assert (a + errors)[..|a + errors| - 1] == a + front;
      } else {
        assert a + errors == a;
      }
    }
  }

  // ---- the delays

  lemma BackoffRange(count: uint32)
    ensures 10 <= Backoff(count) <= 1000
    ensures count >= 1 ==> Backoff(count) >= 20
  {
    ShiftedTens();
  }

  lemma ShiftedTens()
    ensures Shifted(10, 0) == 10 && Shifted(10, 1) == 20 && Shifted(10, 2) == 40 && Shifted(10, 3) == 80
    ensures Shifted(10, 4) == 160 && Shifted(10, 5) == 320 && Shifted(10, 6) == 640 && Shifted(10, 7) == 1280
  {
    assert Shifted(10, 2) == 40;
    assert Shifted(10, 4) == 160;
    assert Shifted(10, 6) == 640;
  }

  lemma BackoffGrows(c: uint32, d: uint32)
    requires c <= d
    ensures Backoff(c) <= Backoff(d)
  {
    ShiftedTens();
  }

  /** Every wait of every run lies between 10 ms and a second. */
  lemma {:induction false} DelaysAreBounded(events: seq<Event>)
    ensures forall i | 0 <= i < |Fold(events).delays| :: 10 <= Fold(events).delays[i] <= 1000
  {
    if events != [] {
      var front, e := events[..|events| - 1], events[|events| - 1];
      DelaysAreBounded(front);
      var s := Next(StateAfter(front), e);
      if s.Looping? {
        BackoffRange(s.transientErrors);
        BackoffRange(s.packetErrors);
      }
    }
  }

  /** The transient errors since the last datagram. */
  function Unanswered(events: seq<Event>): nat
  {
    if events == [] || events[|events| - 1].Received? then 0
    else Unanswered(events[..|events| - 1]) + if events[|events| - 1].TransientError? then 1 else 0
  }

  lemma {:induction false} CountsUnanswered(events: seq<Event>)
    requires StateAfter(events).Looping?
    ensures StateAfter(events).transientErrors == Unanswered(events) % 0x1_0000_0000
  {
    if events != [] {
      CountsUnanswered(events[..|events| - 1]);
      NextRemainder(Unanswered(events[..|events| - 1]), 0x1_0000_0000);
    }
  }

  // ---- the events alone decide which waits there are, and which messages are handled

  /** A transient error, or a datagram that is not handled. */
  predicate CausesWait(e: Event)
  {
    e.TransientError? || (e.Received? && !(e.m.header.Some? && e.taken))
  }

  function WaitCount(events: seq<Event>): nat
  {
    if events == [] then 0
    else WaitCount(events[..|events| - 1]) + if CausesWait(events[|events| - 1]) then 1 else 0
  }

  /** The messages of the datagrams. */
  function Datagrams(events: seq<Event>): seq<Message>
  {
    if events == [] then []
    else
      var e := events[|events| - 1];
      Datagrams(events[..|events| - 1]) + if e.Received? then [e.m] else []
  }

  /** The place of the last error among its kind: since the last datagram, or since the last success. */
  function Place(events: seq<Event>): nat
    requires events != []
  {
    if events[|events| - 1].TransientError? then Unanswered(events) % 0x1_0000_0000 else Streak(Results(events))
  }

  /** The wait for the k-th error in a row: doubled from 10 ms with each of the first seven, at most a second. */
  function WaitFor(k: nat): nat
  {
    var ms := 10 * Power(2, if k < 7 then k else 7);
    if ms < 1000 then ms else 1000
  }

  lemma {:induction false} ShiftedByPower(x: nat, shift: nat)
    ensures Shifted(x, shift) == x * Power(2, shift)
  {
    if shift > 0 {
      ShiftedByPower(x, shift - 1);
      TwiceTheProduct(x, Power(2, shift - 1));
    }
  }

  lemma TwiceTheProduct(x: nat, y: nat)
    ensures 2 * (x * y) == x * (2 * y)
  {
  }

  lemma BackoffMeans(count: uint32)
    ensures Backoff(count) == WaitFor(count)
  {
    ShiftedByPower(10, if count < 7 then count else 7);
  }

  /** The loop takes the first n events, and ends with the next one if there is one. */
  predicate EndsAfter(events: seq<Event>, n: nat)
  {
    && n <= |events| && NoneStops(events[..n]) && !TwentyFailures(Results(events[..n]))
    && (n < |events| ==> Stops(events[n]) || TwentyFailures(Results(events[..n + 1])))
  }

  /** One wait for every error, in order, each as long as its place says. */
  predicate WaitsAsDue(events: seq<Event>, delays: seq<nat>)
  {
    && |delays| == WaitCount(events)
    && forall i | 0 <= i < |events| && CausesWait(events[i]) :: WaitIsDue(events, delays, i)
  }

  predicate WaitIsDue(events: seq<Event>, delays: seq<nat>, i: nat)
    requires i < |events|
  {
    var k := WaitCount(events[..i]);
    k < |delays| && delays[k] == WaitFor(Place(events[..i + 1]))
  }

  lemma WaitsOneMore(front: seq<Event>, e: Event, delays: seq<nat>)
    requires WaitsAsDue(front, delays)
    ensures !CausesWait(e) ==> WaitsAsDue(front + [e], delays)
    ensures CausesWait(e) ==> WaitsAsDue(front + [e], delays + [WaitFor(Place(front + [e]))])
  {
    var events := front + [e];
    var delays' := if CausesWait(e) then delays + [WaitFor(Place(events))] else delays;
    assert events[..|front|] == front && events[..|front| + 1] == events;
    forall i | 0 <= i < |front| && CausesWait(events[i])
      ensures WaitIsDue(events, delays', i)
    {
      assert WaitIsDue(front, delays, i);
      assert events[..i] == front[..i] && events[..i + 1] == front[..i + 1];
    }
  }

  /** As long as the loop runs it has waited for every error so far, and handled every datagram. */
  lemma {:induction false} WaitsWhileLooping(events: seq<Event>)
    requires StateAfter(events).Looping?
    ensures WaitsAsDue(events, Fold(events).delays) && Fold(events).ms == Datagrams(events)
  {
    if events != [] {
      var front, e := events[..|events| - 1], events[|events| - 1];
      assert events == front + [e];
      WaitsWhileLooping(front);
      WaitsOneMore(front, e, Fold(front).delays);
      CountsUnanswered(events);
      WhenItEnds(events);
      var s := StateAfter(events);
      BackoffMeans(s.transientErrors);
      BackoffMeans(s.packetErrors);
    }
  }

  /**
   The waits of every run of the loop, read off the events: one for each transient error and each failed
   datagram before the end, the twentieth failure in a row excluded, and no others. It lasts 10 ms
   doubled up to seven times, at most a second. Every datagram is handled, the one that ends the loop included.
   */
  lemma WaitsAreExact(events: seq<Event>, n: nat)
    requires EndsAfter(events, n)
    ensures WaitsAsDue(events[..n], Fold(events).delays)
    ensures Fold(events).ms == Datagrams(if n < |events| then events[..n + 1] else events)
  {
    WhenItEnds(events[..n]);
    WaitsWhileLooping(events[..n]);
    if n < |events| {
      TheEndAddsNoWait(events, n);
      assert events[..n + 1][..n] == events[..n];
    } else {
      assert events[..n] == events;
    }
  }

  lemma TheEndAddsNoWait(events: seq<Event>, n: nat)
    requires EndsAfter(events, n) && n < |events|
    ensures Fold(events).delays == Fold(events[..n]).delays
    ensures Fold(events).ms == Fold(events[..n]).ms + if events[n].Received? then [events[n].m] else []
  {
    WhenItEnds(events[..n]);
    NextEnds(events, n);
    OneMoreEvent(events, n);
    StaysEnded(events, n + 1);
  }

  /** How the loop stands in the end: still looping, or ended by the next event, as that event says. */
  lemma EndIsExact(events: seq<Event>, n: nat)
    requires EndsAfter(events, n)
    ensures if n == |events| then StateAfter(events).Looping?
            else StateAfter(events) ==
                 match events[n] {
                   case Exit => Ended(Normal)
                   case Received(_, _) => Ended(PacketErrors)
                   case _ => Ended(Fatal)
                 }
  {
    WhenItEnds(events[..n]);
    if n < |events| {
      NextEnds(events, n);
      OneMoreEvent(events, n);
      StaysEnded(events, n + 1);
    } else {
      assert events[..n] == events;
    }
  }

  ghost predicate WaitsUntilTheEnd(events: seq<Event>, delays: seq<nat>)
  {
    forall n: nat | EndsAfter(events, n) :: WaitsAsDue(events[..n], delays)
  }

  lemma LoopWaits(events: seq<Event>)
    ensures WaitsUntilTheEnd(events, Fold(events).delays)
  {
    forall n: nat | EndsAfter(events, n)
      ensures WaitsAsDue(events[..n], Fold(events).delays)
    {
      WaitsAreExact(events, n);
    }
  }

  lemma NextEnds(events: seq<Event>, n: nat)
    requires EndsAfter(events, n) && n < |events|
    ensures StateAfter(events[..n + 1]).Ended?
  {
    WhenItEnds(events[..n + 1]);
    assert events[..n + 1][n] == events[n];
  }

  /** There is exactly one such number of events. */
  lemma {:induction false} TheLoopHasAnEnd(events: seq<Event>) returns (n: nat)
    ensures EndsAfter(events, n)
  {
    if StateAfter(events).Looping? {
      n := |events|;
      assert events[..n] == events;
      WhenItEnds(events);
    } else {
      var front := events[..|events| - 1];
      n := TheLoopHasAnEnd(front);
      assert events[..n] == front[..n];
      if n < |front| {
        assert events[..n + 1] == front[..n + 1];
      } else {
        assert events[..n] == front && events[..n + 1] == events;
        WhenItEnds(events);
        assert NoneStops(events) <==> NoneStops(front) && !Stops(events[n]);
      }
    }
  }

  lemma EndIsUnique(events: seq<Event>, n: nat, n': nat)
    requires EndsAfter(events, n) && EndsAfter(events, n')
    ensures n == n'
  {
    if n < n' {
      NotBothEnds(events, n, n');
    } else if n' < n {
      NotBothEnds(events, n', n);
    }
  }

  /** What has stopped the loop before n keeps it stopped. */
  lemma NotBothEnds(events: seq<Event>, n: nat, n': nat)
    requires EndsAfter(events, n) && n < n' <= |events|
    ensures !EndsAfter(events, n')
  {
    NextEnds(events, n);
    WhenItEnds(events[..n']);
    assert events[..n'][..n + 1] == events[..n + 1];
    StaysEnded(events[..n'], n + 1);
  }

  /**
   While no datagram comes in between, a later wait for a transient error is shorter than an
   earlier one exactly when the 32-bit counter has wrapped in between to a count that small.
   */
  lemma BackoffFalls(streak: nat, later: nat)
    requires 1 <= streak < later
    ensures later < 0x1_0000_0000 ==> Backoff(streak) <= Backoff(later)
    ensures var l, s := later % 0x1_0000_0000, streak % 0x1_0000_0000;
            Backoff(l) < Backoff(s) <==> l < 7 && l < s
  {
    ShiftedTens();
  }
}
