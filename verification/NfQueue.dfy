/** The queue callback: what becomes of one message that the kernel puts on the queue. */
module NfQueue {
  import opened Wrappers
  import opened Context
  import opened SrcInfo
  import opened Decoys
  import opened RawSend

  const NF_DROP := 0

  datatype PacketHeader = PacketHeader(id: uint32, hwProtocol: uint16)

  datatype HardwareAddress = HardwareAddress(len: uint16, octets: Octets8)

  /**
   One queued packet; 0 stands for an interface that the message does not name. `sends` is what the
   kernel will do with the sends that the packet causes.
   */
  datatype Message = Message(
    header: Option<PacketHeader>,
    indev: nat,
    outdev: nat,
    payload: Option<seq<byte>>,
    hw: Option<HardwareAddress>,
    sends: nat -> SendOutcome)

  /** A call of nfq_set_verdict; `replacement` is None when the packet stays as it is. */
  datatype Verdict = Verdict(id: uint32, action: int, replacement: Option<seq<byte>>)

  /** The link of a message, or None when the packet is let through without being handled. */
  function LinkOf(m: Message): Option<Link>
    requires m.header.Some?
  {
    if m.payload.None? || (m.outdev == 0 && m.indev == 0) then None
    else if m.hw.Some? && m.hw.value.len > 8 then None
    else
      var halen := if m.hw.None? then 0 else m.hw.value.len;
      var octets := if m.hw.None? then [] else m.hw.value.octets;
      Some(Link(m.header.value.hwProtocol,
                if m.outdev != 0 then Outgoing else Incoming,
                if m.outdev != 0 then m.outdev else m.indev,
                halen, ZeroPadded(octets, halen)))
  }

  /** The first `n` octets of `s`, in a field of eight. */
  function ZeroPadded(s: seq<byte>, n: nat): Octets8
    requires n <= 8 && n <= |s|
  {
    s[..n] + seq(8 - n, _ => 0)
  }

  /**
   What the packet handler may rely on. There is no link exactly without a payload, without any
   device, or with an address of more than eight octets; otherwise the outgoing device wins, and the
   neighbour's address is the given octets with zeros behind them.
   */
  ghost predicate Describes(m: Message, link: Option<Link>)
    requires m.header.Some?
  {
    && (link.None? <==> m.payload.None? || (m.outdev == 0 && m.indev == 0) || (m.hw.Some? && m.hw.value.len > 8))
    && (link.Some? ==>
          var l := link.value;
          && l.ethertype == m.header.value.hwProtocol
          && (if m.outdev != 0 then l.direction == Outgoing && l.ifindex == m.outdev
              else l.direction == Incoming && l.ifindex == m.indev)
          && l.ifindex != 0
          && l.Station() == (if m.hw.None? then [] else m.hw.value.octets[..m.hw.value.len])
          && forall i | l.halen <= i < 8 :: l.hwaddr[i] == 0)
  }

  lemma LinkMeans(m: Message)
    requires m.header.Some?
    ensures Describes(m, LinkOf(m))
  {
  }

  predicate Fits(s: Snapshot)
  {
    forall x | x in s.payloads :: |x| <= BUFFLEN
  }

  /** The message is handed to the packet handler. */
  predicate Reaches(m: Message)
  {
    m.header.Some? && LinkOf(m).Some?
  }

  /** What one message does to the state: nothing, or what the packet handler does. */
  ghost predicate Step(cfg: Config, m: Message, before: Snapshot, after: Snapshot)
  {
    && Fits(before) && Fits(after)
    && if !Reaches(m) then after == before
       else Handled(cfg, LinkOf(m).value, m.payload.value, m.sends, before, after)
  }

  /** The verdicts that a message gets: exactly one, to let the packet through as it is. */
  function VerdictsFor(m: Message): seq<Verdict>
  {
    if m.header.None? then [] else [Verdict(m.header.value.id, NF_ACCEPT, None)]
  }

  function AllVerdicts(ms: seq<Message>): seq<Verdict>
  {
    if ms == [] then [] else AllVerdicts(ms[..|ms| - 1]) + VerdictsFor(ms[|ms| - 1])
  }

  /** `states[i]` is the state before message i, and `states[|ms|]` the one after all of them. */
  ghost predicate Run(cfg: Config, ms: seq<Message>, states: seq<Snapshot>)
    decreases |ms|
  {
    && |states| == |ms| + 1
    && (ms != [] ==>
          var n := |ms| - 1;
          Run(cfg, ms[..n], states[..n + 1]) && Step(cfg, ms[n], states[n], states[n + 1]))
  }

  lemma RunEnds(cfg: Config, ms: seq<Message>, states: seq<Snapshot>, n: nat)
    requires |ms| == n + 1 && |states| == n + 2
    requires Run(cfg, ms[..n], states[..n + 1]) && Step(cfg, ms[n], states[n], states[n + 1])
    ensures Run(cfg, ms, states) && AllVerdicts(ms) == AllVerdicts(ms[..n]) + VerdictsFor(ms[n])
  {
  }

  lemma RunSnoc(cfg: Config, ms: seq<Message>, states: seq<Snapshot>, m: Message, s: Snapshot)
    requires Run(cfg, ms, states) && Step(cfg, m, states[|ms|], s)
    ensures Run(cfg, ms + [m], states + [s])
    ensures AllVerdicts(ms + [m]) == AllVerdicts(ms) + VerdictsFor(m)
  {
    var n := |ms|;
    assert (ms + [m])[..n] == ms && (states + [s])[..n + 1] == states;
    assert (ms + [m])[n] == m && (states + [s])[n] == states[n] && (states + [s])[n + 1] == s;
    RunEnds(cfg, ms + [m], states + [s], n);
  }

  /** Every message of a run is a step. */
  lemma {:induction false} StepAt(cfg: Config, ms: seq<Message>, states: seq<Snapshot>, i: nat)
    requires Run(cfg, ms, states) && i < |ms|
    ensures |states| == |ms| + 1 && Step(cfg, ms[i], states[i], states[i + 1])
    decreases |ms|
  {
    var n := |ms| - 1;
    if i == n {
      RunSplits(cfg, ms, states, n);
    } else {
      RunShortened(cfg, ms, states, n);
      StepAt(cfg, ms[..n], states[..n + 1], i);
      SameStep(cfg, ms, states, n, i);
    }
  }

  lemma RunShortened(cfg: Config, ms: seq<Message>, states: seq<Snapshot>, n: nat)
    requires Run(cfg, ms, states) && |ms| == n + 1
    ensures |states| == n + 2 && Run(cfg, ms[..n], states[..n + 1])
  {
  }

  lemma SameStep(cfg: Config, ms: seq<Message>, states: seq<Snapshot>, n: nat, i: nat)
    requires i < n <= |ms| && n < |states|
    ensures Step(cfg, ms[..n][i], states[..n + 1][i], states[..n + 1][i + 1]) ==
            Step(cfg, ms[i], states[i], states[i + 1])
  {
    assert ms[..n][i] == ms[i] && states[..n + 1][i] == states[i] && states[..n + 1][i + 1] == states[i + 1];
  }

  lemma RunSplits(cfg: Config, ms: seq<Message>, states: seq<Snapshot>, n: nat)
    requires Run(cfg, ms, states) && |ms| == n + 1
    ensures |states| == n + 2
    ensures Run(cfg, ms[..n], states[..n + 1]) && Step(cfg, ms[n], states[n], states[n + 1])
  {
  }

  /** How opening the queue goes: nfq_open fails, nfq_create_queue fails, an option fails, or none of them. */
  datatype QueueOutcome = NoLibrary | NoQueue | NoOptions | Ready

  class Queue {
    const handler: Handler
    var library: bool                    // the library handle h is open
    var queue: bool                      // the queue handle qh exists
    var verdicts: seq<Verdict>           // the calls so far

    constructor (handler: Handler)
      ensures this.handler == handler && verdicts == [] && !library && !queue
    {
      this.handler, library, queue, verdicts := handler, false, false, [];
    }

    /** Both handles, or none. */
    method Setup(o: QueueOutcome) returns (ok: bool)
      requires !library && !queue
      modifies this`library, this`queue
      ensures ok <==> o == Ready
      ensures library == queue == ok
    {
      if o == NoLibrary {
        return false;
      }
      library := true;
      if o != NoQueue {
        queue := true;
        if o == Ready {
          return true;
        }
        queue := false;
      }
      library := false;
      ok := false;
    }

    method Cleanup()
      modifies this`library, this`queue
      ensures !library && !queue
    {
      if queue {
        queue := false;
      }
      if library {
        library := false;
      }
    }

    method SetVerdict(id: uint32, action: int, replacement: Option<seq<byte>>, taken: bool) returns (ok: bool)
      modifies this`verdicts
      ensures ok == taken && verdicts == old(verdicts) + [Verdict(id, action, replacement)]
    {
      verdicts := verdicts + [Verdict(id, action, replacement)];
      ok := taken;
    }

    /** The link address that the packet handler gets. */
    method FillLink(m: Message) returns (link: Option<Link>)
      requires m.header.Some?
      ensures Describes(m, link) && link == LinkOf(m)
    {
      LinkMeans(m);
      if m.payload.None? {
        return None;
      }
      var direction, ifindex := Neither, 0;
      if m.outdev != 0 {
        direction, ifindex := Outgoing, m.outdev;
      } else if m.indev != 0 {
        direction, ifindex := Incoming, m.indev;
      } else {
        return None;
      }
      var halen, hwaddr := 0, ZeroPadded([], 0);
      if m.hw.Some? {
        if m.hw.value.len > 8 {
          return None;
        }
        halen := m.hw.value.len;
        hwaddr := ZeroPadded(m.hw.value.octets, halen);
      }
      link := Some(Link(m.header.value.hwProtocol, direction, ifindex, halen, hwaddr));
    }

    /**
     Whatever fails inside, a packet with a header gets exactly one verdict, to accept it with
     unmodified bytes. The result is false only for a missing header or a verdict that the kernel
     does not take.
     */
    method Callback(m: Message, taken: bool) returns (ok: bool)
      requires handler.Valid()
      modifies this`verdicts, handler.sockets, handler.cache, handler.cache.srci, handler.ring
      ensures handler.Valid() && handler.cache.srci == old(handler.cache.srci)
      ensures verdicts == old(verdicts) + VerdictsFor(m)
      ensures ok <==> m.header.Some? && taken
      ensures Step(handler.cfg, m, old(handler.Now()), handler.Now())
    {
      if m.header.None? {
        return false;
      }
      var id := m.header.value.id;
      var link := FillLink(m);
      if link.None? {
        ok := SetVerdict(id, NF_ACCEPT, None, taken);
        return;
      }
      var verdict, modified := handler.Handle(link.value, m.payload.value, m.sends);
      if verdict < 0 {
        ok := SetVerdict(id, NF_ACCEPT, None, taken);
      } else {
        ok := SetVerdict(id, verdict, if modified && verdict != NF_DROP then m.payload else None, taken);
      }
    }
  }
}
