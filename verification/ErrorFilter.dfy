/**
 Time-exceeded messages caused by decoys. Decoys are built to expire on the way; the routers' error
 messages quote them, and the nft ruleset drops exactly those messages on the selected interfaces.
 */
module ErrorFilter {
  import opened Wrappers
  import opened Context
  import opened Netfilter
  import opened Packets
  import opened Backends
  import Ipv4Pkt
  import Ipv6Make
  import Nft = Nftables

  /** The positions of an IP header that a router rewrites: TTL and header checksum, or hop limit. */
  predicate Rewritten(fam: Family, i: nat)
  {
    match fam
    case V4 => i == 8 || i == 10 || i == 11
    case V6 => i == 7
  }

  /** Two forms of one datagram that routers can turn into each other. */
  predicate SameOnTheWire(fam: Family, a: seq<byte>, b: seq<byte>)
  {
    |a| == |b| && forall i | 0 <= i < |a| && !Rewritten(fam, i) :: a[i] == b[i]
  }

  /** The forms a datagram takes from hop to hop. */
  predicate Path(fam: Family, forms: seq<seq<byte>>)
  {
    forms != [] && forall k | 0 <= k < |forms| - 1 :: SameOnTheWire(fam, forms[k], forms[k + 1])
  }

  lemma {:induction false} PathKeeps(fam: Family, forms: seq<seq<byte>>)
    requires Path(fam, forms)
    ensures SameOnTheWire(fam, forms[0], forms[|forms| - 1])
  {
    if |forms| > 1 {
      var front := forms[..|forms| - 1];
      assert forall k | 0 <= k < |front| :: front[k] == forms[k];
      PathKeeps(fam, front);
      assert SameOnTheWire(fam, forms[|forms| - 2], forms[|forms| - 1]);
    }
  }

  /** Protocol number and type of a time-exceeded message. */
  function ErrorProtocol(fam: Family): nat { if fam == V4 then 1 else 58 }
  function ErrorType(fam: Family): byte { if fam == V4 then 11 else 3 }

  /** The message: type, seven more header bytes, and the beginning of the expired datagram. */
  predicate IsTimeExceeded(fam: Family, p: Packet, quoted: seq<byte>)
  {
    && p.l4proto == ErrorProtocol(fam)
    && |p.transport| >= 8 && p.transport[0] == ErrorType(fam) && p.transport[8..] == quoted
  }

  /** Where the mark of a decoy is in its IP header, and what it is. */
  function TagOffset(fam: Family): nat { if fam == V4 then 4 else 0 }

  function Tag(fam: Family): seq<byte>
  {
    if fam == V4 then [Hi(FAKE_IPV4_ID), Lo(FAKE_IPV4_ID)] else FAKE_IPV6_FLOW_WORD
  }

  predicate CarriesTag(fam: Family, datagram: seq<byte>)
  {
    TagOffset(fam) + |Tag(fam)| <= |datagram|
    && datagram[TagOffset(fam)..TagOffset(fam) + |Tag(fam)|] == Tag(fam)
  }

  /** The two matches of the drop rule look at the message type and at the tag in the quote. */
  lemma DropRuleMeans(fam: Family, p: Packet, quoted: seq<byte>)
    requires IsTimeExceeded(fam, p, quoted)
    ensures QuotesTag(fam, p) <==> CarriesTag(fam, quoted)
  {
    var ms := Nft.TaggedError(fam);
    var start := 8 + TagOffset(fam);
    assert ms[0] in ms && ms[1] in ms;
    assert ms[1] == TransportBytes(start, Tag(fam));
    if start + |Tag(fam)| <= |p.transport| {
      assert p.transport[start..start + |Tag(fam)|] == quoted[TagOffset(fam)..TagOffset(fam) + |Tag(fam)|];
    }
  }

  /**
   What becomes of a time-exceeded message that comes in: it is dropped exactly when it arrives on
   a selected interface and quotes the tag. Messages about other packets, truncated quotes
   included, are never dropped.
   */
  lemma ErrorVerdict(fam: Family, cfg: Config, p: Packet, quoted: seq<byte>, stack: nat)
    requires stack >= 1 && IsTimeExceeded(fam, p, quoted)
    ensures var t := Nft.Installed(fam, cfg);
            Traverse(t, t[FsPrerouting], p, stack) ==
            if NftOnInterface(cfg, Prerouting, p) && CarriesTag(fam, quoted) then Dropped else Fallthrough
  {
    NftVerdict(fam, cfg, Prerouting, p, stack);
    DropRuleMeans(fam, p, quoted);
  }

  /** Every decoy carries the tag, and no router removes it. */
  lemma DecoysKeepTheTag(fam: Family, decoy: seq<byte>, forms: seq<seq<byte>>, quoted: seq<byte>)
    requires CarriesTag(fam, decoy) && Path(fam, forms) && forms[0] == decoy
    requires quoted <= forms[|forms| - 1] && TagOffset(fam) + |Tag(fam)| <= |quoted|
    ensures CarriesTag(fam, quoted)
  {
    PathKeeps(fam, forms);
    var last := forms[|forms| - 1];
    forall i | TagOffset(fam) <= i < TagOffset(fam) + |Tag(fam)|
      ensures quoted[i] == decoy[i]
    {
      assert !Rewritten(fam, i);
      assert last[i] == decoy[i];
    }
  }

  /** Every built datagram carries the tag of its family. */
  lemma Tagged4(src: Octets4, dst: Octets4, ttl: byte, sport: uint16, dport: uint16, payload: seq<byte>)
    requires 28 + |payload| <= 0xFFFF
    ensures CarriesTag(V4, Ipv4Pkt.Datagram(src, dst, ttl, sport, dport, payload))
  {
    var d := Ipv4Pkt.Datagram(src, dst, ttl, sport, dport, payload);
    Ipv4Pkt.DatagramParts(src, dst, ttl, sport, dport, payload);
    assert d[4] == d[..20][4] == Hi(FAKE_IPV4_ID) && d[5] == d[..20][5] == Lo(FAKE_IPV4_ID);
    assert d[4..6] == Tag(V4);
  }

  lemma Tagged6(src: Octets16, dst: Octets16, hops: byte, sport: uint16, dport: uint16, payload: seq<byte>)
    requires 48 + |payload| <= 0xFFFF
    ensures CarriesTag(V6, Ipv6Make.Datagram(src, dst, hops, sport, dport, payload))
  {
    var d := Ipv6Make.Datagram(src, dst, hops, sport, dport, payload);
    Ipv6Make.DatagramParts(src, dst, hops, sport, dport, payload);
    assert d[..4] == d[..40][..4];
    assert d[0..4] == Tag(V6);
  }

  /** IPv4: the error about a decoy never reaches the host, after any number of hops. */
  lemma DecoyErrorDropped4(src: Octets4, dst: Octets4, ttl: byte, sport: uint16, dport: uint16, payload: seq<byte>,
                           forms: seq<seq<byte>>, quoted: seq<byte>, cfg: Config, p: Packet, stack: nat)
    requires stack >= 1 && 28 + |payload| <= 0xFFFF
    requires Path(V4, forms) && forms[0] == Ipv4Pkt.Datagram(src, dst, ttl, sport, dport, payload)
    requires quoted <= forms[|forms| - 1] && |quoted| >= 20
    requires IsTimeExceeded(V4, p, quoted) && NftOnInterface(cfg, Prerouting, p)
    ensures var t := Nft.Installed(V4, cfg); Traverse(t, t[FsPrerouting], p, stack) == Dropped
  {
    Tagged4(src, dst, ttl, sport, dport, payload);
    DecoysKeepTheTag(V4, forms[0], forms, quoted);
    ErrorVerdict(V4, cfg, p, quoted, stack);
  }

  /** IPv6: the same with the flow word. */
  lemma DecoyErrorDropped6(src: Octets16, dst: Octets16, hops: byte, sport: uint16, dport: uint16, payload: seq<byte>,
                           forms: seq<seq<byte>>, quoted: seq<byte>, cfg: Config, p: Packet, stack: nat)
    requires stack >= 1 && 48 + |payload| <= 0xFFFF
    requires Path(V6, forms) && forms[0] == Ipv6Make.Datagram(src, dst, hops, sport, dport, payload)
    requires quoted <= forms[|forms| - 1] && |quoted| >= 40
    requires IsTimeExceeded(V6, p, quoted) && NftOnInterface(cfg, Prerouting, p)
    ensures var t := Nft.Installed(V6, cfg); Traverse(t, t[FsPrerouting], p, stack) == Dropped
  {
    Tagged6(src, dst, hops, sport, dport, payload);
    DecoysKeepTheTag(V6, forms[0], forms, quoted);
    ErrorVerdict(V6, cfg, p, quoted, stack);
  }
}
