/**
 What the packet handler decides: whether a packet gets decoys, with which TTL, and between which
 ends. These are the pure parts of rawsend.c.
 */
module Decoys {
  import opened Wrappers
  import opened Context
  import opened Packets
  import opened SrcInfo
  import Ipv4Pkt
  import Ipv6Pkt
  import Ipv6Make

  /** Hops to a sender, if its system started from 64, 128 or 255. */
  function HopEstimate(ttl: byte): int
  {
    if ttl <= 64 then 64 - ttl
    else if ttl <= 128 then 128 - ttl
    else 255 - ttl
  }

  /** The TTLs that systems start from. */
  predicate InitialTtl(n: nat)
  {
    n == 64 || n == 128 || n == 255
  }

  /** The estimate is the shortest distance that explains the TTL. */
  lemma HopEstimateIsLeast(ttl: byte)
    ensures HopEstimate(ttl) >= 0 && InitialTtl(ttl + HopEstimate(ttl))
    ensures forall n: nat | InitialTtl(n) && ttl <= n :: HopEstimate(ttl) <= n - ttl
  {
  }

  /** The least distance from which a packet can arrive with this TTL. */
  ghost predicate Distance(ttl: byte, hops: nat)
  {
    InitialTtl(ttl + hops) && forall n: nat | InitialTtl(n) && ttl <= n :: hops <= n - ttl
  }

  /** Every system whose packets can arrive with this TTL is more than `reach` hops away. */
  ghost predicate Beyond(ttl: byte, reach: nat)
  {
    forall n: nat | InitialTtl(n) && ttl <= n :: n - ttl > reach
  }

  lemma EstimateIsDistance(ttl: byte)
    ensures forall hops: nat :: Distance(ttl, hops) <==> hops == HopEstimate(ttl)
    ensures forall reach: nat :: Beyond(ttl, reach) <==> HopEstimate(ttl) > reach
  {
    HopEstimateIsLeast(ttl);
  }

  /** The TTL of a decoy; the result is stored in eight bits. */
  function CalcSndTtl(cfg: Config, hops: nat): byte
  {
    if cfg.numbers.dynamicPct == 0 then cfg.numbers.ttl
    else
      var raised := hops * cfg.numbers.dynamicPct / 100;
      if raised > cfg.numbers.ttl then raised % 0x100 else cfg.numbers.ttl
  }

  datatype Direction = Incoming | Outgoing | Neither      // PACKET_HOST, PACKET_OUTGOING, any other

  const ETHERTYPE_IP := 0x0800
  const ETHERTYPE_IPV6 := 0x86DD

  type AddressLength = n: nat | n <= 8

  /** What the queue says about a packet's link: only the first `halen` octets of `hwaddr` are in use. */
  datatype Link = Link(ethertype: nat, direction: Direction, ifindex: nat, halen: AddressLength, hwaddr: Octets8)
  {
    /** The neighbour that the packet came from. */
    function Station(): seq<byte>
    {
      hwaddr[..halen]
    }
  }

  /** No decoys, or decoys between two ends; `snat` ones leave through a raw IP socket. */
  datatype Plan =
    | Pass
    | Send(saddr: SockAddr, daddr: SockAddr, ttl: byte, sport: uint16, dport: uint16, snat: bool)

  /** The IPv4 layout's reading of a packet, if it has one. */
  ghost function Read4(pkt: seq<byte>): Option<Parsed>
  {
    if exists d :: Ipv4Pkt.Derives(pkt, d) then
      var d :| Ipv4Pkt.Derives(pkt, d);
      Some(Ipv4Pkt.Reading(pkt, d))
    else None
  }

  /** The IPv6 grammar's reading of a packet, if it has one. */
  ghost function Read6(pkt: seq<byte>): Option<Parsed>
  {
    if exists d :: Ipv6Pkt.Derives(pkt, d) then
      var d :| Ipv6Pkt.Derives(pkt, d);
      Some(Ipv6Pkt.Reading(pkt, d))
    else None
  }

  ghost function ParseOf(cfg: Config, ethertype: nat, pkt: seq<byte>): Option<Parsed>
  {
    if cfg.flags.useIpv4 && ethertype == ETHERTYPE_IP then Read4(pkt)
    else if cfg.flags.useIpv6 && ethertype == ETHERTYPE_IPV6 then Read6(pkt)
    else None
  }

  /** The TTL that the estimate for an outgoing packet starts from; 0 when nothing is remembered. */
  function RememberedTtl(found: Lookup): byte
  {
    if found.Hit? then found.ttl else 0
  }

  /** The TTL of the other end as last seen: in the packet itself, or in the cache. */
  function RemoteTtl(link: Link, p: Parsed, found: Lookup): byte
  {
    if link.direction == Incoming then p.ttl else RememberedTtl(found)
  }

  /** The -1 option (`outbound`) answers incoming packets; -0 (`inbound`) accompanies outgoing ones. */
  function PlanFor(cfg: Config, link: Link, p: Parsed, found: Lookup): Plan
  {
    if link.direction == Neither then Pass
    else if link.direction == Incoming && !cfg.flags.outbound then Pass
    else if link.direction == Outgoing && !cfg.flags.inbound then Pass
    else
      var hops := HopEstimate(RemoteTtl(link, p, found));
      if !cfg.flags.nohopest && hops <= cfg.numbers.ttl then Pass
      else
        var ttl := if cfg.flags.nohopest then cfg.numbers.ttl else CalcSndTtl(cfg, hops);
        if link.direction == Incoming then Send(p.daddr, p.saddr, ttl, p.dport, p.sport, false)
        else Send(p.saddr, p.daddr, ttl, p.sport, p.dport, true)
  }

  /** The end of the flow that is not this host. */
  function RemoteEnd(link: Link, p: Parsed): (SockAddr, uint16)
  {
    if link.direction == Incoming then (p.saddr, p.sport) else (p.daddr, p.dport)
  }

  function LocalEnd(link: Link, p: Parsed): (SockAddr, uint16)
  {
    if link.direction == Incoming then (p.daddr, p.dport) else (p.saddr, p.sport)
  }

  predicate SameFamily(plan: Plan)
  {
    plan.Send? ==> (plan.saddr.Inet? && plan.daddr.Inet?) || (plan.saddr.Inet6? && plan.daddr.Inet6?)
  }

  /** The decoy as it goes on the wire. */
  function Datagram(plan: Plan, payload: seq<byte>): seq<byte>
    requires plan.Send? && SameFamily(plan) && |payload| <= BUFFLEN
  {
    match plan.daddr
    case Inet(dst) => Ipv4Pkt.Datagram(plan.saddr.ip4, dst, plan.ttl, plan.sport, plan.dport, payload)
    case Inet6(dst) => Ipv6Make.Datagram(plan.saddr.ip6, dst, plan.ttl, plan.sport, plan.dport, payload)
  }

  /** The direction's own option was given, or neither was. */
  predicate InUse(flags: Flags, direction: Direction)
  {
    (direction == Incoming && flags.outbound) || (direction == Outgoing && flags.inbound)
  }

  /**
   Who gets decoys: the packets of a direction in use whose other end is, as far as its TTL tells,
   out of reach for the configured TTL; with -g all packets of that direction.
   */
  lemma WhoGetsDecoys(cfg: Config, link: Link, p: Parsed, found: Lookup)
    ensures PlanFor(cfg, link, p, found).Send? <==>
            && InUse(cfg.flags, link.direction)
            && (cfg.flags.nohopest || Beyond(RemoteTtl(link, p, found), cfg.numbers.ttl))
  {
    EstimateIsDistance(RemoteTtl(link, p, found));
  }

  /** The share of the distance that -y gives, but at least the -t value. */
  function RaisedTtl(numbers: Numbers, hops: nat): nat
  {
    var share := hops * numbers.dynamicPct / 100;
    if share > numbers.ttl then share else numbers.ttl
  }

  /**
   What a decoy may leave with, for an end last seen with a TTL: with -g the -t value; otherwise the
   raised one, which is strictly less than the distance, so that the decoy never arrives.
   */
  ghost predicate TtlFor(cfg: Config, remoteTtl: byte, ttl: byte)
  {
    if cfg.flags.nohopest then ttl == cfg.numbers.ttl
    else exists hops: nat :: Distance(remoteTtl, hops) && ttl == RaisedTtl(cfg.numbers, hops) && ttl < hops
  }

  /** The TTL of every plan. Eight bits always suffice: no distance is above 126. */
  lemma DecoyTtlBounds(cfg: Config, link: Link, p: Parsed, found: Lookup)
    requires cfg.numbers.dynamicPct < 100 && PlanFor(cfg, link, p, found).Send?
    ensures TtlFor(cfg, RemoteTtl(link, p, found), PlanFor(cfg, link, p, found).ttl)
    ensures cfg.numbers.ttl <= PlanFor(cfg, link, p, found).ttl
    ensures forall hops: nat | Distance(RemoteTtl(link, p, found), hops) :: hops <= 126
  {
    var hops := HopEstimate(RemoteTtl(link, p, found));
    EstimateIsDistance(RemoteTtl(link, p, found));
    if !cfg.flags.nohopest {
      ShareIsLess(hops, cfg.numbers.dynamicPct);
      assert Distance(RemoteTtl(link, p, found), hops);
    }
  }

  lemma ShareIsLess(hops: nat, pct: nat)
    requires hops > 0 && pct < 100
    ensures hops * pct / 100 < hops
  {
    assert hops * pct <= hops * 99;
  }

  lemma ParsedFamilies(cfg: Config, ethertype: nat, pkt: seq<byte>)
    requires ParseOf(cfg, ethertype, pkt).Some?
    ensures var p := ParseOf(cfg, ethertype, pkt).value;
            || (p.saddr.Inet? && p.daddr.Inet? && cfg.flags.useIpv4)
            || (p.saddr.Inet6? && p.daddr.Inet6? && cfg.flags.useIpv6)
  {
  }

  /** The plan is for the family that the packet came with. */
  predicate Served(cfg: Config, ethertype: nat, plan: Plan)
    requires plan.Send?
  {
    && SameFamily(plan)
    && if plan.daddr.Inet? then cfg.flags.useIpv4 && ethertype == ETHERTYPE_IP
       else cfg.flags.useIpv6 && ethertype == ETHERTYPE_IPV6
  }

  /** Reading back a decoy of either family. */
  lemma DatagramReads(cfg: Config, ethertype: nat, plan: Plan, payload: seq<byte>)
    requires plan.Send? && Served(cfg, ethertype, plan) && |payload| <= BUFFLEN
    ensures var d := ParseOf(cfg, ethertype, Datagram(plan, payload));
            && d.Some? && (d.value.saddr, d.value.sport) == (plan.saddr, plan.sport)
            && (d.value.daddr, d.value.dport) == (plan.daddr, plan.dport)
            && d.value.ttl == plan.ttl && d.value.payloadLen == |payload|
            && payload == Datagram(plan, payload)[|Datagram(plan, payload)| - |payload|..]
  {
    if plan.daddr.Inet? {
      Ipv4Pkt.MakeThenParse(plan.saddr.ip4, plan.daddr.ip4, plan.ttl, plan.sport, plan.dport, payload);
    } else {
      Ipv6Make.MakeThenParse(plan.saddr.ip6, plan.daddr.ip6, plan.ttl, plan.sport, plan.dport, payload, []);
      assert Datagram(plan, payload) + [] == Datagram(plan, payload);
    }
  }

  /** A plan runs from the local end to the remote end of the very flow that caused it, in its own family. */
  predicate FollowsTheFlow(cfg: Config, link: Link, p: Parsed, plan: Plan)
  {
    && plan.Send? && Served(cfg, link.ethertype, plan)
    && (plan.daddr, plan.dport) == RemoteEnd(link, p) && (plan.saddr, plan.sport) == LocalEnd(link, p)
    && (plan.snat <==> link.direction == Outgoing)
  }

  lemma PlanFollowsTheFlow(cfg: Config, link: Link, pkt: seq<byte>, found: Lookup)
    requires ParseOf(cfg, link.ethertype, pkt).Some?
    ensures var p := ParseOf(cfg, link.ethertype, pkt).value;
            var plan := PlanFor(cfg, link, p, found);
            plan.Send? ==> FollowsTheFlow(cfg, link, p, plan)
  {
    ParsedFamilies(cfg, link.ethertype, pkt);
  }
}
