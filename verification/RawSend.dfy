/** fs_rawsend_handle: one queued packet, its cache update, its payload and its decoys. */
module RawSend {
  import opened Wrappers
  import opened Context
  import opened Packets
  import opened SrcInfo
  import opened PayloadList
  import opened Sockets
  import opened Decoys
  import Ipv4Pkt
  import Ipv6Pkt
  import Ipv6Make

  const NF_ACCEPT := 1

  /** What the kernel does with the i-th send for a packet. */
  datatype SendOutcome = SendOutcome(bind: BindOutcome, accepted: bool)

  /**
   A decoy that went out for `plan` with the program's mark, on the packet's own interface: back to
   the neighbour that the packet came from, or through a raw IP socket.
   */
  predicate IsDecoy(cfg: Config, t: Transmission, plan: Plan, link: Link, payload: seq<byte>)
    requires plan.Send? && SameFamily(plan) && |payload| <= BUFFLEN
  {
    var d := Datagram(plan, payload);
    && t.mark == cfg.numbers.fwmark
    && if plan.snat then t.ViaIp? && t.boundTo == link.ifindex && t.dst == plan.daddr && t.packet == d
       else t.ViaLink? && t.ifindex == link.ifindex && t.station == link.Station() && t.frame == d
  }

  /** The cache entry that an incoming packet leaves. */
  function PutFor(link: Link, p: Parsed): PutCall
  {
    PutCall(Some(p.saddr), link.ifindex, p.ttl, Some(link.hwaddr))
  }

  function LogAfter(log: Log, link: Link, p: Parsed): Log
  {
    if link.direction == Incoming then AfterPut(log, PutFor(link, p)) else log
  }

  /** What the cache knows about the destination of an outgoing packet. */
  function FindFor(log: Log, link: Link, p: Parsed): Lookup
  {
    if link.direction != Outgoing then Miss
    else if link.ifindex == 0 || p.daddr.OtherFamily? then Invalid
    else Find(log, p.daddr, link.ifindex)
  }

  // ---- which of the sends for a packet go out

  /** One send, with the bindings as they are. */
  predicate Goes(b: BindState, plan: Plan, link: Link, o: SendOutcome)
    requires plan.Send?
  {
    (plan.snat ==> CanBind(b, plan.daddr, link.ifindex, o.bind)) && o.accepted
  }

  function AfterSend(b: BindState, plan: Plan, link: Link, o: SendOutcome): BindState
    requires plan.Send?
  {
    if plan.snat then AfterBind(b, plan.daddr, link.ifindex, o.bind) else b
  }

  /** The sends from number `from` on that go out before one fails. */
  function CopiesSent(b: BindState, plan: Plan, link: Link, sends: nat -> SendOutcome, from: nat, repeat: nat): (n: nat)
    requires plan.Send? && from <= repeat
    ensures n <= repeat - from
    decreases repeat - from
  {
    if from == repeat || !Goes(b, plan, link, sends(from)) then 0
    else 1 + CopiesSent(AfterSend(b, plan, link, sends(from)), plan, link, sends, from + 1, repeat)
  }

  function AfterBurst(b: BindState, plan: Plan, link: Link, sends: nat -> SendOutcome, from: nat, repeat: nat)
    : BindState
    requires plan.Send? && from <= repeat
    decreases repeat - from
  {
    if from == repeat then b
    else
      var b' := AfterSend(b, plan, link, sends(from));
      if Goes(b, plan, link, sends(from)) then AfterBurst(b', plan, link, sends, from + 1, repeat) else b'
  }

  /**
   How many go out: none if the first one needs a binding that fails, and otherwise all before the
   first that the kernel does not take. Later sends are bound already.
   */
  lemma {:induction false} CopiesSentMeans(b: BindState, plan: Plan, link: Link, sends: nat -> SendOutcome,
                                           from: nat, repeat: nat)
    requires plan.Send? && from <= repeat
    ensures var n := CopiesSent(b, plan, link, sends, from, repeat);
            if from < repeat && plan.snat && !CanBind(b, plan.daddr, link.ifindex, sends(from).bind) then n == 0
            else
              && (forall i | from <= i < from + n :: sends(i).accepted)
              && (n < repeat - from ==> !sends(from + n).accepted)
    decreases repeat - from
  {
    if from < repeat && Goes(b, plan, link, sends(from)) {
      var b' := AfterSend(b, plan, link, sends(from));
      CopiesSentMeans(b', plan, link, sends, from + 1, repeat);
      assert plan.snat && from + 1 < repeat ==> CanBind(b', plan.daddr, link.ifindex, sends(from + 1).bind);
    }
  }

  /** The kernel takes all sends for a packet, and the first finds or gets its binding. */
  predicate AllGo(b: BindState, plan: Plan, link: Link, sends: nat -> SendOutcome, repeat: nat)
    requires plan.Send?
  {
    && (plan.snat && repeat > 0 ==> CanBind(b, plan.daddr, link.ifindex, sends(0).bind))
    && forall i | 0 <= i < repeat :: sends(i).accepted
  }

  lemma AllCopiesSent(b: BindState, plan: Plan, link: Link, sends: nat -> SendOutcome, repeat: nat)
    requires plan.Send?
    ensures CopiesSent(b, plan, link, sends, 0, repeat) == repeat <==> AllGo(b, plan, link, sends, repeat)
  {
    CopiesSentMeans(b, plan, link, sends, 0, repeat);
  }

  /** A send that no binding and no full buffer stands in the way of, whatever was bound before. */
  predicate Smooth(o: SendOutcome)
  {
    o.accepted && o.bind.byIndex != Refused && o.bind.nameFound && o.bind.byName
  }

  lemma SmoothSendsGo(b: BindState, plan: Plan, link: Link, sends: nat -> SendOutcome, repeat: nat)
    requires plan.Send? && SameFamily(plan) && forall i | 0 <= i < repeat :: Smooth(sends(i))
    ensures AllGo(b, plan, link, sends, repeat)
  {
  }

  // ---- what one packet does

  /** Exactly `count` copies of one decoy were added. */
  predicate Burst(cfg: Config, before: seq<Transmission>, after: seq<Transmission>, plan: Plan, link: Link,
                  payload: seq<byte>, count: nat)
    requires plan.Send? && SameFamily(plan) && |payload| <= BUFFLEN
  {
    && before <= after && |after| == |before| + count
    && forall i | |before| <= i < |after| :: IsDecoy(cfg, after[i], plan, link, payload)
  }

  /** The state that outlives a packet: what is remembered, whose turn it is, what was sent, and the bindings. */
  datatype Snapshot = Snapshot(log: Log, payloads: seq<seq<byte>>, sent: seq<Transmission>, binds: BindState)

  /** What a packet that parses as `p` calls for. */
  ghost function PlanOf(cfg: Config, link: Link, p: Parsed, before: Snapshot): Plan
  {
    PlanFor(cfg, link, p, FindFor(before.log, link, p))
  }

  /** The copies that go out for a plan; none without a payload. */
  function CopiesFor(cfg: Config, link: Link, plan: Plan, sends: nat -> SendOutcome, before: Snapshot): (n: nat)
    requires plan.Send?
  {
    if before.payloads == [] then 0 else CopiesSent(before.binds, plan, link, sends, 0, cfg.numbers.repeat)
  }

  /**
   One packet, where `sends` is what the kernel does with the sends for it. A packet that does not
   parse changes nothing. Any other is remembered if it is incoming, and causes decoys exactly when
   its plan says so: all alike, with the payload whose turn it is, and all `repeat` of them unless
   one fails. The rotation moves exactly when there is such a plan.
   */
  ghost predicate Handled(cfg: Config, link: Link, pkt: seq<byte>, sends: nat -> SendOutcome,
                          before: Snapshot, after: Snapshot)
    requires forall x | x in before.payloads :: |x| <= BUFFLEN
  {
    var parsed := ParseOf(cfg, link.ethertype, pkt);
    if parsed.None? then
      after == before
    else
      && after.log == LogAfter(before.log, link, parsed.value)
      && var plan := PlanOf(cfg, link, parsed.value, before);
         if plan.Pass? then
           after == before.(log := after.log)
         else
           && SameFamily(plan)
           && after.payloads == Rotate(before.payloads)
           && if before.payloads == [] then
                after.sent == before.sent && after.binds == before.binds
              else
                && Burst(cfg, before.sent, after.sent, plan, link, before.payloads[0],
                         CopiesFor(cfg, link, plan, sends, before))
                && after.binds == AfterBurst(before.binds, plan, link, sends, 0, cfg.numbers.repeat)
  }

  /** The verdict on it: not to accept exactly if it does not parse or does not get all its decoys. */
  ghost function VerdictOn(cfg: Config, link: Link, pkt: seq<byte>, sends: nat -> SendOutcome, before: Snapshot): int
  {
    var parsed := ParseOf(cfg, link.ethertype, pkt);
    if parsed.None? then -1
    else
      var plan := PlanOf(cfg, link, parsed.value, before);
      if plan.Pass? then NF_ACCEPT
      else if before.payloads == [] || CopiesFor(cfg, link, plan, sends, before) < cfg.numbers.repeat then -1
      else NF_ACCEPT
  }

  class Handler {
    const cfg: Config
    const sockets: SocketSet
    const cache: Cache
    const ring: PayloadRing

    constructor (cfg: Config, sockets: SocketSet, cache: Cache, ring: PayloadRing)
      ensures this.cfg == cfg && this.sockets == sockets && this.cache == cache && this.ring == ring
    {
      this.cfg, this.sockets, this.cache, this.ring := cfg, sockets, cache, ring;
    }

    /** Everything that set-up left, and that handling packets keeps. */
    ghost predicate Valid()
      reads sockets, cache, cache.srci, ring
    {
      && sockets.cfg == cfg && sockets.Valid() && sockets.Ready()
      && cache.srci != null && cache.Valid()
      && ring.Valid() && forall x | x in ring.payloads :: |x| <= BUFFLEN
    }

    /** What a plan needs from the sockets. */
    ghost predicate CanSend(plan: Plan)
      requires plan.Send?
      reads sockets
    {
      && SameFamily(plan)
      && (if plan.snat then (plan.daddr.Inet? ==> sockets.IsOpen(sockets.sock4fd))
                         && (plan.daddr.Inet6? ==> sockets.IsOpen(sockets.sock6fd))
          else sockets.IsOpen(sockets.sockfd))
    }

    /** Builds one decoy and sends it. */
    method SendPayload(plan: Plan, link: Link, payload: seq<byte>, o: SendOutcome) returns (ok: bool)
      requires sockets.Valid() && sockets.cfg == cfg && plan.Send? && CanSend(plan) && |payload| <= BUFFLEN
      modifies sockets`bound, sockets`useBindToIfindex, sockets`sock4if, sockets`sock6if, sockets`sent
      ensures sockets.Valid() && sockets.bound.Keys == old(sockets.bound).Keys
      ensures ok <==> Goes(old(sockets.Binds()), plan, link, o)
      ensures sockets.Binds() == AfterSend(old(sockets.Binds()), plan, link, o)
      ensures !ok ==> sockets.sent == old(sockets.sent)
      ensures ok ==> |sockets.sent| == |old(sockets.sent)| + 1 && old(sockets.sent) <= sockets.sent
                     && IsDecoy(cfg, sockets.sent[|old(sockets.sent)|], plan, link, payload)
    {
      var packet := Build(plan, payload);
      if plan.snat {
        ok := sockets.SendtoSnat(link.ifindex, plan.daddr, packet, o.bind, o.accepted);
      } else {
        ok := sockets.SendtoLink(link.ifindex, link.Station(), packet, o.accepted);
      }
    }

    /** The datagram for a plan; any payload fits the 1600-byte buffer. */
    method Build(plan: Plan, payload: seq<byte>) returns (packet: seq<byte>)
      requires plan.Send? && SameFamily(plan) && |payload| <= BUFFLEN
      ensures packet == Datagram(plan, payload)
    {
      var buffer := new byte[1600];
      var n;
      if plan.daddr.Inet? {
        n := Ipv4Pkt.Make(buffer, plan.saddr, plan.daddr, plan.ttl, plan.sport, plan.dport, payload);
      } else {
        n := Ipv6Make.Make(buffer, plan.saddr, plan.daddr, plan.ttl, plan.sport, plan.dport, payload);
      }
      packet := buffer[..n];
    }

    /** All copies of a decoy; the first failure ends the burst. */
    method SendAll(plan: Plan, link: Link, payload: seq<byte>, sends: nat -> SendOutcome) returns (ok: bool)
      requires sockets.Valid() && sockets.cfg == cfg && plan.Send? && CanSend(plan) && |payload| <= BUFFLEN
      modifies sockets`bound, sockets`useBindToIfindex, sockets`sock4if, sockets`sock6if, sockets`sent
      ensures sockets.Valid() && sockets.bound.Keys == old(sockets.bound).Keys
      ensures var count := CopiesSent(old(sockets.Binds()), plan, link, sends, 0, cfg.numbers.repeat);
              && Burst(cfg, old(sockets.sent), sockets.sent, plan, link, payload, count)
              && (ok <==> count == cfg.numbers.repeat)
      ensures sockets.Binds() == AfterBurst(old(sockets.Binds()), plan, link, sends, 0, cfg.numbers.repeat)
    {
      ghost var n, before := cfg.numbers.repeat, sockets.Binds();
      var i := 0;
      while i < cfg.numbers.repeat
        invariant 0 <= i <= cfg.numbers.repeat
        invariant sockets.Valid() && sockets.bound.Keys == old(sockets.bound).Keys
        invariant Burst(cfg, old(sockets.sent), sockets.sent, plan, link, payload, i)
        invariant CopiesSent(before, plan, link, sends, 0, n) ==
                  i + CopiesSent(sockets.Binds(), plan, link, sends, i, n)
        invariant AfterBurst(before, plan, link, sends, 0, n) == AfterBurst(sockets.Binds(), plan, link, sends, i, n)
      {
        ok := SendPayload(plan, link, payload, sends(i));
        if !ok {
          return false;
        }
        i := i + 1;
      }
      ok := true;
    }

    method Parse(link: Link, pkt: seq<byte>) returns (r: Option<Parsed>)
      ensures r == ParseOf(cfg, link.ethertype, pkt)
    {
      if cfg.flags.useIpv4 && link.ethertype == ETHERTYPE_IP {
        r := Ipv4Pkt.Parse(pkt);
      } else if cfg.flags.useIpv6 && link.ethertype == ETHERTYPE_IPV6 {
        r := Ipv6Pkt.Parse(pkt);
      } else {
        r := None;
      }
    }

    /** The cache side of a packet: an incoming one is remembered, an outgoing one is looked up. */
    method Remember(link: Link, p: Parsed) returns (found: Lookup)
      requires cache.srci != null && cache.Valid()
      modifies cache, cache.srci
      ensures cache.Valid() && cache.srci == old(cache.srci)
      ensures cache.log == LogAfter(old(cache.log), link, p)
      ensures found == FindFor(old(cache.log), link, p)
    {
      found := Miss;
      if link.direction == Incoming {
        var _ := cache.Put(PutFor(link, p));
      } else if link.direction == Outgoing {
        found := cache.Get(Some(p.daddr), link.ifindex);
      }
    }

    ghost function Now(): Snapshot
      reads sockets, cache, ring
    {
      Snapshot(cache.log, ring.payloads, sockets.sent, sockets.Binds())
    }

    /** Takes the next payload, even if sending it then fails, and sends its decoys. */
    method Respond(plan: Plan, link: Link, sends: nat -> SendOutcome) returns (ok: bool)
      requires Valid() && plan.Send? && CanSend(plan)
      modifies sockets, ring
      ensures Valid()
      ensures ring.payloads == Rotate(old(ring.payloads))
      ensures if old(ring.payloads) == [] then
                !ok && sockets.sent == old(sockets.sent) && sockets.Binds() == old(sockets.Binds())
              else
                var count := CopiesSent(old(sockets.Binds()), plan, link, sends, 0, cfg.numbers.repeat);
                && Burst(cfg, old(sockets.sent), sockets.sent, plan, link, old(ring.payloads)[0], count)
                && (ok <==> count == cfg.numbers.repeat)
                && sockets.Binds() == AfterBurst(old(sockets.Binds()), plan, link, sends, 0, cfg.numbers.repeat)
    {
      var payload := ring.Get();
      if payload.None? {
        return false;
      }
      ok := SendAll(plan, link, payload.value, sends);
    }

    /** One queued packet; nothing is ever modified in it. */
    method Handle(link: Link, pkt: seq<byte>, sends: nat -> SendOutcome)
      returns (verdict: int, modified: bool)
      requires Valid()
      modifies sockets, cache, cache.srci, ring
      ensures Valid() && cache.srci == old(cache.srci)
      ensures !modified && Handled(cfg, link, pkt, sends, old(Now()), Now())
      ensures verdict == VerdictOn(cfg, link, pkt, sends, old(Now()))
    {
      modified := false;
      var parsed := Parse(link, pkt);
      if parsed.None? {
        return -1, modified;
      }
      var p := parsed.value;
      ParsedFamilies(cfg, link.ethertype, pkt);
      var found := Remember(link, p);
      var plan := PlanFor(cfg, link, p, found);
      if plan.Pass? {
        return NF_ACCEPT, modified;
      }
      var ok := Respond(plan, link, sends);
      verdict := if ok then NF_ACCEPT else -1;
    }
  }
}
