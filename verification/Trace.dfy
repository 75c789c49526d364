/**
 Whole runs of the packet handler. What a message causes is a function of the messages up to it:
 `PlanAt` and `Turns` look at no state, and every run follows them.
 */
module Trace {
  import opened Wrappers
  import opened Context
  import opened Packets
  import opened SrcInfo
  import opened PayloadList
  import opened Sockets
  import opened Decoys
  import opened RawSend
  import opened NfQueue

  /** What the handler reads in a message, if it gets that far. */
  ghost function Seen(cfg: Config, m: Message): Option<Parsed>
  {
    if Reaches(m) then ParseOf(cfg, LinkOf(m).value.ethertype, m.payload.value) else None
  }

  /** What a message shows about its sender, if it is incoming. */
  ghost function Shown(cfg: Config, m: Message): seq<Observation>
  {
    var p := Seen(cfg, m);
    if p.Some? && LinkOf(m).value.direction == Incoming
    then [Observation(p.value.saddr, LinkOf(m).value.ifindex, p.value.ttl, LinkOf(m).value.hwaddr)]
    else []
  }

  /** The senders that the incoming messages show, oldest first. */
  ghost function Observations(cfg: Config, ms: seq<Message>): seq<Observation>
  {
    if ms == [] then [] else Observations(cfg, ms[..|ms| - 1]) + Shown(cfg, ms[|ms| - 1])
  }

  ghost function ObservedBefore(cfg: Config, ms: seq<Message>, i: nat): seq<Observation>
    requires i <= |ms|
  {
    Observations(cfg, ms[..i])
  }

  /** What is known about the destination of an outgoing message i when it comes. */
  ghost function FoundAt(cfg: Config, ms: seq<Message>, i: nat): Lookup
    requires i < |ms| && Seen(cfg, ms[i]).Some?
  {
    FindFor(Log(ObservedBefore(cfg, ms, i), false), LinkOf(ms[i]).value, Seen(cfg, ms[i]).value)
  }

  ghost function PlanAt(cfg: Config, ms: seq<Message>, i: nat): Plan
    requires i < |ms|
  {
    var p := Seen(cfg, ms[i]);
    if p.None? then Pass else PlanFor(cfg, LinkOf(ms[i]).value, p.value, FoundAt(cfg, ms, i))
  }

  /** Which messages get a payload. */
  ghost function Sends(cfg: Config, ms: seq<Message>): seq<bool>
  {
    seq(|ms|, i requires 0 <= i < |ms| => PlanAt(cfg, ms, i).Send?)
  }

  function Count(flags: seq<bool>, i: nat): nat
    requires i <= |flags|
  {
    if i == 0 then 0 else Count(flags, i - 1) + if flags[i - 1] then 1 else 0
  }

  /** Which flags are set from number j on and before number i. */
  function Between(flags: seq<bool>, j: nat, i: nat): set<nat>
    requires i <= |flags|
  {
    set k: nat | k < i && j <= k && flags[k]
  }

  lemma OneMoreFlag(flags: seq<bool>, j: nat, i: nat)
    requires j < i <= |flags|
    ensures |Between(flags, j, i)| == |Between(flags, j, i - 1)| + if flags[i - 1] then 1 else 0
  {
    var before := Between(flags, j, i - 1);
    assert Between(flags, j, i) == before + if flags[i - 1] then {i - 1} else {};
  }

  /** How many of the first i messages got a payload. */
  ghost function Turns(cfg: Config, ms: seq<Message>, i: nat): nat
    requires i <= |ms|
  {
    Count(Sends(cfg, ms), i)
  }

  lemma {:induction false} RotateCounted(lists: seq<seq<seq<byte>>>, flags: seq<bool>, i: nat)
    requires i <= |flags| < |lists|
    requires forall j | 0 <= j < i :: lists[j + 1] == if flags[j] then Rotate(lists[j]) else lists[j]
    ensures lists[i] == RotateTimes(lists[0], Count(flags, i))
  {
    if i > 0 {
      RotateCounted(lists, flags, i - 1);
    }
  }

  lemma {:induction false} SumCounted(sizes: seq<nat>, flags: seq<bool>, most: nat, i: nat)
    requires i <= |flags| < |sizes|
    requires forall j | 0 <= j < i :: sizes[j + 1] <= sizes[j] + if flags[j] then most else 0
    ensures sizes[i] <= sizes[0] + most * Count(flags, i)
    ensures (forall j | 0 <= j < i :: sizes[j + 1] == sizes[j] + if flags[j] then most else 0) ==>
              sizes[i] == sizes[0] + most * Count(flags, i)
  {
    if i > 0 {
      SumCounted(sizes, flags, most, i - 1);
      assert most * (Count(flags, i - 1) + 1) == most * Count(flags, i - 1) + most;
    }
  }

  /** What a step adds to the log. */
  lemma StepLogs(cfg: Config, m: Message, before: Snapshot, after: Snapshot)
    requires Step(cfg, m, before, after) && !before.log.oldestCleared
    ensures after.log == Log(before.log.entries + Shown(cfg, m), false)
  {
    if Seen(cfg, m).Some? {
      ParsedFamilies(cfg, LinkOf(m).value.ethertype, m.payload.value);
    } else {
      assert before.log.entries + [] == before.log.entries;
    }
  }

  lemma LogOverStep(cfg: Config, ms: seq<Message>, states: seq<Snapshot>, i: nat)
    requires Run(cfg, ms, states) && i < |ms| && !states[i].log.oldestCleared
    ensures states[i + 1].log == Log(states[i].log.entries + Shown(cfg, ms[i]), false)
  {
    StepAt(cfg, ms, states, i);
    StepLogs(cfg, ms[i], states[i], states[i + 1]);
  }

  lemma ObservedGrows(cfg: Config, ms: seq<Message>, i: nat)
    requires 0 < i <= |ms|
    ensures ObservedBefore(cfg, ms, i) == ObservedBefore(cfg, ms, i - 1) + Shown(cfg, ms[i - 1])
  {
    assert ms[..i][..i - 1] == ms[..i - 1];
  }

  /** In a run the cache holds exactly the observations; the hole of an unknown family never opens. */
  lemma {:induction false} CacheOverRun(cfg: Config, ms: seq<Message>, states: seq<Snapshot>, i: nat)
    requires Run(cfg, ms, states) && states[0].log == Log([], false) && i <= |ms|
    ensures states[i].log == Log(ObservedBefore(cfg, ms, i), false)
  {
    if i > 0 {
      CacheOverRun(cfg, ms, states, i - 1);
      LogOverStep(cfg, ms, states, i - 1);
      ObservedGrows(cfg, ms, i);
    }
  }

  /** How many of n observations are remembered. */
  function Remembered(n: nat): (m: nat)
    ensures m <= n
  {
    if n < 500 then n else 500
  }

  /**
   The estimate for an outgoing message comes from the newest of the last 500 observations of its
   destination on its interface, and without one the lookup misses.
   */
  lemma NewestObservation(cfg: Config, ms: seq<Message>, i: nat)
    requires i < |ms| && Seen(cfg, ms[i]).Some? && LinkOf(ms[i]).value.direction == Outgoing
    ensures var es := ObservedBefore(cfg, ms, i);
            var window := Remembered(|es|);
            var dst, ifindex := Seen(cfg, ms[i]).value.daddr, LinkOf(ms[i]).value.ifindex;
            && (forall k | NewestAt(es, window, dst, ifindex, k) ::
                  FoundAt(cfg, ms, i) == Hit(es[k].ttl, es[k].hwaddr))
            && ((forall k :: !NewestAt(es, window, dst, ifindex, k)) ==> FoundAt(cfg, ms, i) == Miss)
  {
    var es := ObservedBefore(cfg, ms, i);
    var window := Depth(Log(es, false));
    var dst, ifindex := Seen(cfg, ms[i]).value.daddr, LinkOf(ms[i]).value.ifindex;
    ParsedFamilies(cfg, LinkOf(ms[i]).value.ethertype, ms[i].payload.value);
    NewestMeans(es, window, dst, ifindex);
    forall k | NewestAt(es, window, dst, ifindex, k)
      ensures FoundAt(cfg, ms, i) == Hit(es[k].ttl, es[k].hwaddr)
    {
      NewestIsUnique(es, window, dst, ifindex, k);
    }
  }

  // ---- the same in terms of the messages alone

  /** A readable incoming packet. */
  ghost predicate Observed(cfg: Config, m: Message)
  {
    Seen(cfg, m).Some? && m.outdev == 0
  }

  ghost predicate CameFrom(cfg: Config, m: Message, addr: SockAddr, ifindex: nat)
  {
    Observed(cfg, m) && Seen(cfg, m).value.saddr == addr && m.indev == ifindex
  }

  /** The messages from j on and before i that were observed. */
  ghost function Since(cfg: Config, ms: seq<Message>, j: nat, i: nat): set<nat>
    requires i <= |ms|
  {
    set k: nat | k < i && j <= k && Observed(cfg, ms[k])
  }

  /** Message j is the last before i from that end on that interface, and among the last 500 observed ones. */
  ghost predicate LastFrom(cfg: Config, ms: seq<Message>, i: nat, addr: SockAddr, ifindex: nat, j: nat)
    requires i <= |ms|
  {
    && j < i && CameFrom(cfg, ms[j], addr, ifindex)
    && (forall k | j < k < i :: !CameFrom(cfg, ms[k], addr, ifindex))
    && |Since(cfg, ms, j, i)| <= 500
  }

  lemma {:induction false} GrowsByFlags<T>(lists: seq<seq<T>>, flags: seq<bool>, j: nat, i: nat)
    requires j <= i <= |flags| < |lists|
    requires forall k | 0 <= k < |flags| ::
               lists[k] <= lists[k + 1] && |lists[k + 1]| == |lists[k]| + if flags[k] then 1 else 0
    ensures lists[j] <= lists[i] && |lists[i]| == |lists[j]| + |Between(flags, j, i)|
    decreases i
  {
    if j == i {
      assert Between(flags, j, i) == {};
    } else {
      GrowsByFlags(lists, flags, j, i - 1);
      OneMoreFlag(flags, j, i);
    }
  }

  lemma ShownIsOne(cfg: Config, m: Message)
    ensures |Shown(cfg, m)| == if Observed(cfg, m) then 1 else 0
  {
  }

  /** Where message j is among the observations. */
  lemma Placed(cfg: Config, ms: seq<Message>, j: nat, i: nat)
    requires j <= i <= |ms|
    ensures |ObservedBefore(cfg, ms, i)| == |ObservedBefore(cfg, ms, j)| + |Since(cfg, ms, j, i)|
    ensures ObservedBefore(cfg, ms, j) <= ObservedBefore(cfg, ms, i)
  {
    var lists := seq(|ms| + 1, k requires 0 <= k <= |ms| => ObservedBefore(cfg, ms, k));
    var flags := seq(|ms|, k requires 0 <= k < |ms| => Observed(cfg, ms[k]));
    forall k | 0 <= k < |flags|
      ensures lists[k] <= lists[k + 1] && |lists[k + 1]| == |lists[k]| + if flags[k] then 1 else 0
    {
      ObservedGrows(cfg, ms, k + 1);
      ShownIsOne(cfg, ms[k]);
    }
    GrowsByFlags(lists, flags, j, i);
    assert Since(cfg, ms, j, i) == Between(flags, j, i);
  }

  lemma PlacedAt(cfg: Config, ms: seq<Message>, j: nat, i: nat)
    requires j < i <= |ms| && Observed(cfg, ms[j])
    ensures var k := |ObservedBefore(cfg, ms, j)|;
            && k < |ObservedBefore(cfg, ms, i)| && ObservedBefore(cfg, ms, i)[k] == Shown(cfg, ms[j])[0]
            && |ObservedBefore(cfg, ms, i)| == k + |Since(cfg, ms, j, i)|
  {
    Placed(cfg, ms, j, i);
    Placed(cfg, ms, j + 1, i);
    assert ms[..j + 1][..j] == ms[..j];
  }

  /** Every observation is of a message. */
  lemma {:induction false} MessageAt(cfg: Config, ms: seq<Message>, i: nat, k: nat) returns (j: nat)
    requires i <= |ms| && k < |ObservedBefore(cfg, ms, i)|
    ensures j < i && Observed(cfg, ms[j]) && |ObservedBefore(cfg, ms, j)| == k
    decreases i
  {
    assert ms[..i][..i - 1] == ms[..i - 1];
    if k < |ObservedBefore(cfg, ms, i - 1)| {
      j := MessageAt(cfg, ms, i - 1, k);
    } else {
      j := i - 1;
    }
  }

  /** The newest remembered observation is of the last message from there. */
  lemma LastIsNewest(cfg: Config, ms: seq<Message>, i: nat, addr: SockAddr, ifindex: nat, j: nat)
    requires i <= |ms| && LastFrom(cfg, ms, i, addr, ifindex, j)
    ensures var es, k := ObservedBefore(cfg, ms, i), |ObservedBefore(cfg, ms, j)|;
            NewestAt(es, Remembered(|es|), addr, ifindex, k) && es[k].ttl == Seen(cfg, ms[j]).value.ttl
  {
    var es, k := ObservedBefore(cfg, ms, i), |ObservedBefore(cfg, ms, j)|;
    PlacedAt(cfg, ms, j, i);
    forall k' | k < k' < |es|
      ensures !Matches(es[k'], addr, ifindex)
    {
      var j' := MessageAt(cfg, ms, i, k');
      PlacedAt(cfg, ms, j', i);
      if j' < j {
        PlacedAt(cfg, ms, j', j);
      }
    }
  }

  lemma NewestIsLast(cfg: Config, ms: seq<Message>, i: nat, addr: SockAddr, ifindex: nat, k: nat) returns (j: nat)
    requires i <= |ms| && var es := ObservedBefore(cfg, ms, i); NewestAt(es, Remembered(|es|), addr, ifindex, k)
    ensures LastFrom(cfg, ms, i, addr, ifindex, j)
    ensures ObservedBefore(cfg, ms, i)[k].ttl == Seen(cfg, ms[j]).value.ttl
  {
    j := MessageAt(cfg, ms, i, k);
    PlacedAt(cfg, ms, j, i);
    forall j' | j < j' < i
      ensures !CameFrom(cfg, ms[j'], addr, ifindex)
    {
      if CameFrom(cfg, ms[j'], addr, ifindex) {
        PlacedAt(cfg, ms, j', i);
        PlacedAt(cfg, ms, j, j');
      }
    }
  }

  /**
   The TTL that the other end of message i was last seen with: in the message itself if it is
   incoming, and otherwise in the last message from that end on that interface, if that is among the
   last 500 observed ones; 0 if there is none.
   */
  ghost predicate SeenWith(cfg: Config, ms: seq<Message>, i: nat, ttl: byte)
    requires i < |ms| && Seen(cfg, ms[i]).Some?
  {
    var p := Seen(cfg, ms[i]).value;
    if ms[i].outdev == 0 then ttl == p.ttl
    else
      || (exists j: nat :: LastFrom(cfg, ms, i, p.daddr, ms[i].outdev, j) && ttl == Seen(cfg, ms[j]).value.ttl)
      || ((forall j: nat :: !LastFrom(cfg, ms, i, p.daddr, ms[i].outdev, j)) && ttl == 0)
  }

  lemma LastSeen(cfg: Config, ms: seq<Message>, i: nat)
    requires i < |ms| && Seen(cfg, ms[i]).Some?
    ensures forall ttl: byte :: SeenWith(cfg, ms, i, ttl) <==> ttl == RemoteTtlAt(cfg, ms, i)
  {
    if ms[i].outdev != 0 {
      LastSeenOutgoing(cfg, ms, i);
    }
  }

  lemma LastSeenOutgoing(cfg: Config, ms: seq<Message>, i: nat)
    requires i < |ms| && Seen(cfg, ms[i]).Some? && ms[i].outdev != 0
    ensures var dst, ifindex := Seen(cfg, ms[i]).value.daddr, ms[i].outdev;
            && (forall j: nat | LastFrom(cfg, ms, i, dst, ifindex, j) ::
                  RemoteTtlAt(cfg, ms, i) == Seen(cfg, ms[j]).value.ttl)
            && ((forall j: nat :: !LastFrom(cfg, ms, i, dst, ifindex, j)) ==> RemoteTtlAt(cfg, ms, i) == 0)
  {
    var es, dst, ifindex := ObservedBefore(cfg, ms, i), Seen(cfg, ms[i]).value.daddr, ms[i].outdev;
    NewestObservation(cfg, ms, i);
    forall j: nat | LastFrom(cfg, ms, i, dst, ifindex, j)
      ensures RemoteTtlAt(cfg, ms, i) == Seen(cfg, ms[j]).value.ttl
    {
      LastIsNewest(cfg, ms, i, dst, ifindex, j);
    }
    if k :| NewestAt(es, Remembered(|es|), dst, ifindex, k) {
      var _ := NewestIsLast(cfg, ms, i, dst, ifindex, k);
    }
  }

  /**
   Message i gets decoys: it is a readable packet of a direction in use, and its other end is out of
   reach for the configured TTL, or -g is given.
   */
  ghost predicate GetsDecoys(cfg: Config, ms: seq<Message>, i: nat)
    requires i < |ms|
  {
    && Seen(cfg, ms[i]).Some? && InUse(cfg.flags, LinkOf(ms[i]).value.direction)
    && (cfg.flags.nohopest || exists ttl: byte :: SeenWith(cfg, ms, i, ttl) && Beyond(ttl, cfg.numbers.ttl))
  }

  lemma PlansAreForThem(cfg: Config, ms: seq<Message>, i: nat)
    requires i < |ms|
    ensures PlanAt(cfg, ms, i).Send? <==> GetsDecoys(cfg, ms, i)
  {
    if Seen(cfg, ms[i]).Some? {
      WhoGetsDecoys(cfg, LinkOf(ms[i]).value, Seen(cfg, ms[i]).value, FoundAt(cfg, ms, i));
      LastSeen(cfg, ms, i);
      assert SeenWith(cfg, ms, i, RemoteTtlAt(cfg, ms, i));
    }
  }

  /** The earlier messages that got decoys. */
  ghost function Earlier(cfg: Config, ms: seq<Message>, i: nat): set<nat>
    requires i <= |ms|
  {
    set j: nat | j < i && GetsDecoys(cfg, ms, j)
  }

  lemma {:induction false} CountIsSize(flags: seq<bool>, i: nat)
    requires i <= |flags|
    ensures Count(flags, i) == |Between(flags, 0, i)|
  {
    if i > 0 {
      CountIsSize(flags, i - 1);
      OneMoreFlag(flags, 0, i);
    } else {
      assert Between(flags, 0, 0) == {};
    }
  }

  /** The turns are the number of these messages. */
  lemma TurnsAreCounted(cfg: Config, ms: seq<Message>, i: nat)
    requires i <= |ms|
    ensures Turns(cfg, ms, i) == |Earlier(cfg, ms, i)|
  {
    CountIsSize(Sends(cfg, ms), i);
    forall j: nat | j < i
      ensures Sends(cfg, ms)[j] <==> GetsDecoys(cfg, ms, j)
    {
      PlansAreForThem(cfg, ms, j);
    }
    assert Earlier(cfg, ms, i) == Between(Sends(cfg, ms), 0, i);
  }

  /** The decoys that message i causes, if it comes in the state `before`. */
  ghost function CopiesAt(cfg: Config, ms: seq<Message>, i: nat, before: Snapshot): nat
    requires i < |ms|
  {
    if PlanAt(cfg, ms, i).Pass? then 0
    else CopiesFor(cfg, LinkOf(ms[i]).value, PlanAt(cfg, ms, i), ms[i].sends, before)
  }

  /** One message of a run, in terms of its plan. */
  lemma StepOfRun(cfg: Config, ms: seq<Message>, states: seq<Snapshot>, i: nat)
    requires Run(cfg, ms, states) && states[0].log == Log([], false) && i < |ms|
    ensures states[i + 1].payloads ==
            if PlanAt(cfg, ms, i).Send? then Rotate(states[i].payloads) else states[i].payloads
    ensures states[i].sent <= states[i + 1].sent
    ensures |states[i + 1].sent| == |states[i].sent| + CopiesAt(cfg, ms, i, states[i])
    ensures CopiesAt(cfg, ms, i, states[i]) <= cfg.numbers.repeat
    ensures PlanAt(cfg, ms, i).Pass? ==> states[i + 1].sent == states[i].sent && states[i + 1].binds == states[i].binds
  {
    StepAt(cfg, ms, states, i);
    CacheOverRun(cfg, ms, states, i);
  }

  /** The rotation moves once for every message that gets a payload, and for no other. */
  lemma RotationOverRun(cfg: Config, ms: seq<Message>, states: seq<Snapshot>, i: nat)
    requires Run(cfg, ms, states) && states[0].log == Log([], false) && i <= |ms|
    ensures states[i].payloads == RotateTimes(states[0].payloads, Turns(cfg, ms, i))
  {
    var flags := Sends(cfg, ms);
    var lists := seq(|states|, j requires 0 <= j < |states| => states[j].payloads);
    forall j | 0 <= j < i
      ensures lists[j + 1] == if flags[j] then Rotate(lists[j]) else lists[j]
    {
      assert flags[j] == PlanAt(cfg, ms, j).Send?;
      StepOfRun(cfg, ms, states, j);
    }
    RotateCounted(lists, flags, i);
  }

  /** The payload of message i: that of option t mod n, where t messages had a payload before. */
  ghost function TurnPayload(cfg: Config, ms: seq<Message>, payloads: seq<seq<byte>>, i: nat): seq<byte>
    requires i < |ms| && payloads != []
  {
    payloads[Turns(cfg, ms, i) % |payloads|]
  }

  function OnTheWire(t: Transmission): seq<byte>
  {
    if t.ViaIp? then t.packet else t.frame
  }

  /**
   A marked transmission that carries `payload` from the local end of the message's flow to the remote
   end, on the message's own interface: back to the neighbour that the message came from, or beside
   an outgoing one to the destination itself.
   */
  ghost predicate AnswersTheFlow(cfg: Config, m: Message, t: Transmission, payload: seq<byte>)
    requires Seen(cfg, m).Some?
  {
    var link, p := LinkOf(m).value, Seen(cfg, m).value;
    var d := ParseOf(cfg, link.ethertype, OnTheWire(t));
    && d.Some?
    && (d.value.daddr, d.value.dport) == RemoteEnd(link, p)
    && (d.value.saddr, d.value.sport) == LocalEnd(link, p)
    && d.value.payloadLen == |payload| <= |OnTheWire(t)| && OnTheWire(t)[|OnTheWire(t)| - |payload|..] == payload
    && t.mark == cfg.numbers.fwmark
    && if link.direction == Outgoing then t.ViaIp? && t.boundTo == link.ifindex && t.dst == p.daddr
       else t.ViaLink? && t.ifindex == link.ifindex && t.station == link.Station()
  }

  ghost predicate LeavesWith(cfg: Config, m: Message, t: Transmission, ttl: nat)
    requires Seen(cfg, m).Some?
  {
    var d := ParseOf(cfg, LinkOf(m).value.ethertype, OnTheWire(t));
    d.Some? && d.value.ttl == ttl
  }

  /** The sends for message i that go out before one fails. */
  ghost function SentAt(cfg: Config, ms: seq<Message>, states: seq<Snapshot>, i: nat): nat
    requires i < |ms| && i < |states| && PlanAt(cfg, ms, i).Send?
  {
    CopiesSent(states[i].binds, PlanAt(cfg, ms, i), LinkOf(ms[i]).value, ms[i].sends, 0, cfg.numbers.repeat)
  }

  /** There are `repeat` decoys for a planned message exactly if the kernel lets all its sends go. */
  lemma AllDecoysOverRun(cfg: Config, ms: seq<Message>, states: seq<Snapshot>, i: nat)
    requires Run(cfg, ms, states) && states[0].log == Log([], false) && states[0].payloads != [] && i < |ms|
    requires PlanAt(cfg, ms, i).Send?
    ensures |states[i + 1].sent| - |states[i].sent| == cfg.numbers.repeat <==>
            AllGo(states[i].binds, PlanAt(cfg, ms, i), LinkOf(ms[i]).value, ms[i].sends, cfg.numbers.repeat)
  {
    DecoysOverRun(cfg, ms, states, i);
    AllCopiesSent(states[i].binds, PlanAt(cfg, ms, i), LinkOf(ms[i]).value, ms[i].sends, cfg.numbers.repeat);
  }

  /**
   Every message of every run. It causes decoys only as planned, all `repeat` of them unless one
   fails, all with the payload whose turn it is and the planned TTL, from the local end of the message's flow
   to the remote end, on the message's own interface.
   */
  lemma DecoysOverRun(cfg: Config, ms: seq<Message>, states: seq<Snapshot>, i: nat)
    requires Run(cfg, ms, states) && states[0].log == Log([], false) && states[0].payloads != [] && i < |ms|
    ensures states[i].sent <= states[i + 1].sent
    ensures |states[i + 1].sent| - |states[i].sent| ==
            if PlanAt(cfg, ms, i).Pass? then 0 else SentAt(cfg, ms, states, i)
    ensures forall t | t in states[i + 1].sent[|states[i].sent|..] ::
              && AnswersTheFlow(cfg, ms[i], t, TurnPayload(cfg, ms, states[0].payloads, i))
              && LeavesWith(cfg, ms[i], t, PlanAt(cfg, ms, i).ttl)
  {
    StepAt(cfg, ms, states, i);
    CacheOverRun(cfg, ms, states, i);
    RotationOverRun(cfg, ms, states, i);
    HeadAfter(states[0].payloads, Turns(cfg, ms, i));
    forall t | t in states[i + 1].sent[|states[i].sent|..]
      ensures AnswersTheFlow(cfg, ms[i], t, TurnPayload(cfg, ms, states[0].payloads, i))
      ensures LeavesWith(cfg, ms[i], t, PlanAt(cfg, ms, i).ttl)
    {
      PlanFollowsTheFlow(cfg, LinkOf(ms[i]).value, ms[i].payload.value, FoundAt(cfg, ms, i));
      PlannedDecoyAnswers(cfg, ms[i], PlanAt(cfg, ms, i), states[i].payloads[0], t);
    }
  }

  lemma PlannedDecoyAnswers(cfg: Config, m: Message, plan: Plan, payload: seq<byte>, t: Transmission)
    requires Seen(cfg, m).Some? && FollowsTheFlow(cfg, LinkOf(m).value, Seen(cfg, m).value, plan)
    requires |payload| <= BUFFLEN && IsDecoy(cfg, t, plan, LinkOf(m).value, payload)
    ensures AnswersTheFlow(cfg, m, t, payload) && LeavesWith(cfg, m, t, plan.ttl)
  {
    DatagramReads(cfg, LinkOf(m).value.ethertype, plan, payload);
  }

  /** The TTL that the estimate for message i starts from. */
  ghost function RemoteTtlAt(cfg: Config, ms: seq<Message>, i: nat): byte
    requires i < |ms| && Seen(cfg, ms[i]).Some?
  {
    RemoteTtl(LinkOf(ms[i]).value, Seen(cfg, ms[i]).value, FoundAt(cfg, ms, i))
  }

  /** A transmission whose TTL suits the end that message i comes from or goes to. */
  ghost predicate TtlIsDue(cfg: Config, ms: seq<Message>, i: nat, t: Transmission)
    requires i < |ms| && Seen(cfg, ms[i]).Some?
  {
    var d := ParseOf(cfg, LinkOf(ms[i]).value.ethertype, OnTheWire(t));
    d.Some? && exists seen: byte :: SeenWith(cfg, ms, i, seen) && TtlFor(cfg, seen, d.value.ttl)
  }

  /** The TTL of every decoy of every run, with hop estimation or without. */
  lemma TtlOverRun(cfg: Config, ms: seq<Message>, states: seq<Snapshot>, i: nat, t: Transmission)
    requires Run(cfg, ms, states) && states[0].log == Log([], false) && states[0].payloads != [] && i < |ms|
    requires cfg.numbers.dynamicPct < 100
    requires states[i].sent <= states[i + 1].sent && t in states[i + 1].sent[|states[i].sent|..]
    ensures Seen(cfg, ms[i]).Some? && TtlIsDue(cfg, ms, i, t)
  {
    StepOfRun(cfg, ms, states, i);
    DecoysOverRun(cfg, ms, states, i);
    assert LeavesWith(cfg, ms[i], t, PlanAt(cfg, ms, i).ttl);
    DecoyTtlBounds(cfg, LinkOf(ms[i]).value, Seen(cfg, ms[i]).value, FoundAt(cfg, ms, i));
    LastSeen(cfg, ms, i);
    assert SeenWith(cfg, ms, i, RemoteTtlAt(cfg, ms, i));
  }

  /** The same facts about a single decoy. */
  lemma DecoyOverRun(cfg: Config, ms: seq<Message>, states: seq<Snapshot>, i: nat, t: Transmission)
    requires Run(cfg, ms, states) && states[0].log == Log([], false) && states[0].payloads != [] && i < |ms|
    requires |states[i].sent| <= |states[i + 1].sent| && t in states[i + 1].sent[|states[i].sent|..]
    ensures Seen(cfg, ms[i]).Some? && PlanAt(cfg, ms, i).Send?
    ensures AnswersTheFlow(cfg, ms[i], t, TurnPayload(cfg, ms, states[0].payloads, i))
    ensures cfg.numbers.dynamicPct < 100 ==> TtlIsDue(cfg, ms, i, t)
  {
    StepOfRun(cfg, ms, states, i);
    DecoysOverRun(cfg, ms, states, i);
    if cfg.numbers.dynamicPct < 100 {
      TtlOverRun(cfg, ms, states, i, t);
    }
  }

  /** No send for the message meets an obstacle. */
  predicate SmoothSends(cfg: Config, m: Message)
  {
    forall k | 0 <= k < cfg.numbers.repeat :: Smooth(m.sends(k))
  }

  /** Under these circumstances a planned message gets all its decoys, whatever was bound before. */
  lemma SmoothMessage(cfg: Config, ms: seq<Message>, states: seq<Snapshot>, i: nat)
    requires Run(cfg, ms, states) && states[0].log == Log([], false) && states[0].payloads != [] && i < |ms|
    requires SmoothSends(cfg, ms[i])
    ensures |states[i + 1].sent| == |states[i].sent| + if PlanAt(cfg, ms, i).Send? then cfg.numbers.repeat else 0
  {
    StepOfRun(cfg, ms, states, i);
    if PlanAt(cfg, ms, i).Send? {
      PlanFollowsTheFlow(cfg, LinkOf(ms[i]).value, ms[i].payload.value, FoundAt(cfg, ms, i));
      SmoothSendsGo(states[i].binds, PlanAt(cfg, ms, i), LinkOf(ms[i]).value, ms[i].sends, cfg.numbers.repeat);
      AllDecoysOverRun(cfg, ms, states, i);
    }
  }

  /**
   All decoys of a run: at most `repeat` for every turn of the rotation, and exactly that many if no
   send meets an obstacle.
   */
  lemma DecoyTotal(cfg: Config, ms: seq<Message>, states: seq<Snapshot>, i: nat)
    requires Run(cfg, ms, states) && states[0].log == Log([], false) && states[0].payloads != [] && i <= |ms|
    ensures |states[i].sent| <= |states[0].sent| + cfg.numbers.repeat * Turns(cfg, ms, i)
    ensures (forall j | 0 <= j < i :: SmoothSends(cfg, ms[j])) ==>
              |states[i].sent| == |states[0].sent| + cfg.numbers.repeat * Turns(cfg, ms, i)
  {
    var flags := Sends(cfg, ms);
    var sizes: seq<nat> := seq(|states|, j requires 0 <= j < |states| => |states[j].sent|);
    forall j | 0 <= j < i
      ensures sizes[j + 1] <= sizes[j] + if flags[j] then cfg.numbers.repeat else 0
      ensures SmoothSends(cfg, ms[j]) ==> sizes[j + 1] == sizes[j] + if flags[j] then cfg.numbers.repeat else 0
    {
      StepOfRun(cfg, ms, states, j);
      if SmoothSends(cfg, ms[j]) {
        SmoothMessage(cfg, ms, states, j);
      }
    }
    SumCounted(sizes, flags, cfg.numbers.repeat, i);
    assert sizes[0] == |states[0].sent| && sizes[i] == |states[i].sent|;
  }
}
