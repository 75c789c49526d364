/** fs_pkt4_parse with the layout that it decides, and fs_pkt4_make. */
module Ipv4Pkt {
  import opened Wrappers
  import opened Checksum
  import opened Packets

  const UDP := 17

  // ---- what the parser should accept

  /** A reading of a captured packet: fixed header, options, UDP header, and all that was captured behind it. */
  datatype Derivation = Derivation(fixed: seq<byte>, options: seq<byte>, udp: seq<byte>, data: seq<byte>)

  /** The low four bits of the first byte count the header's 32-bit words (section 3.1 of RFC 791). */
  predicate Derives(pkt: seq<byte>, d: Derivation)
  {
    && pkt == d.fixed + d.options + d.udp + d.data
    && |d.fixed| == 20 && |d.udp| == 8
    && d.fixed[0] % 16 * 4 == 20 + |d.options|
    && d.fixed[9] == UDP
  }

  /** What the parser should return for a derivation. */
  function Reading(pkt: seq<byte>, d: Derivation): Parsed
    requires Derives(pkt, d)
  {
    Parsed(Inet(d.fixed[12..16]), Inet(d.fixed[16..20]), d.fixed[8], Word(d.udp[0], d.udp[1]), Word(d.udp[2], d.udp[3]),
           20 + |d.options|, |d.data|)
  }

  lemma DerivationIsUnique(pkt: seq<byte>, d: Derivation, d': Derivation)
    requires Derives(pkt, d) && Derives(pkt, d')
    ensures d == d'
  {
    CutAt(pkt, d);
    CutAt(pkt, d');
  }

  /** Where a derivation's parts lie in the packet. */
  lemma CutAt(pkt: seq<byte>, d: Derivation)
    requires Derives(pkt, d)
    ensures |pkt| >= 28 && var n := pkt[0] % 16 * 4;
            && 20 <= n <= |pkt| - 8 && pkt[9] == UDP
            && d == Derivation(pkt[..20], pkt[20..n], pkt[n..n + 8], pkt[n + 8..])
  {
    assert pkt[0] == d.fixed[0] && pkt[9] == d.fixed[9];
  }

  lemma ReadingAt(pkt: seq<byte>, d: Derivation)
    requires Derives(pkt, d)
    ensures |pkt| >= 28 && var n := pkt[0] % 16 * 4;
            && 20 <= n <= |pkt| - 8
            && Reading(pkt, d) == ParsedAt(pkt, Inet(pkt[12..16]), Inet(pkt[16..20]), pkt[8], n, |pkt| - n - 8)
  {
    CutAt(pkt, d);
    var n := pkt[0] % 16 * 4;
    assert d.udp == pkt[n..n + 8] && pkt[n..n + 8][0] == pkt[n] && pkt[n..n + 8][1] == pkt[n + 1];
    assert pkt[n..n + 8][2] == pkt[n + 2] && pkt[n..n + 8][3] == pkt[n + 3];
    assert d.fixed[8] == pkt[8] && d.fixed[12..16] == pkt[12..16] && d.fixed[16..20] == pkt[16..20];
  }

  /** And these parts are a derivation wherever the parser's tests hold. */
  lemma PartsDerive(pkt: seq<byte>, n: nat)
    requires 20 <= n <= |pkt| - 8 && n == pkt[0] % 16 * 4 && pkt[9] == UDP
    ensures Derives(pkt, Derivation(pkt[..20], pkt[20..n], pkt[n..n + 8], pkt[n + 8..]))
  {
    assert pkt == pkt[..20] + pkt[20..n] + pkt[n..n + 8] + pkt[n + 8..];
  }

  // ---- the parser

  /** Accepts exactly the packets that have such a layout, with or without options, and reads them that way. */
  method Parse(pkt: seq<byte>) returns (res: Option<Parsed>)
    ensures res.Some? <==> exists d :: Derives(pkt, d)
    ensures forall d | Derives(pkt, d) :: res == Some(Reading(pkt, d))
  {
    forall d | Derives(pkt, d)
      ensures |pkt| >= 28 && 20 <= pkt[0] % 16 * 4 <= |pkt| - 8 && pkt[9] == UDP
    {
      CutAt(pkt, d);
    }
    if |pkt| < 20 {
      return None;
    }
    var headerLen := pkt[0] % 16 * 4;
    if headerLen < 20 || pkt[9] != UDP || |pkt| < headerLen + 8 {
      return None;
    }
    res := Some(ParsedAt(pkt, Inet(pkt[12..16]), Inet(pkt[16..20]), pkt[8], headerLen, |pkt| - headerLen - 8));
    PartsDerive(pkt, headerLen);
    forall d | Derives(pkt, d)
      ensures res == Some(Reading(pkt, d))
    {
      ReadingAt(pkt, d);
    }
  }

  // ---- the builder

  function Header(src: Octets4, dst: Octets4, ttl: byte, total: uint16, check: uint16): seq<byte>
  {
    [0x45, 0, Hi(total), Lo(total), Hi(FAKE_IPV4_ID), Lo(FAKE_IPV4_ID), 0x40, 0, ttl, 17, Hi(check), Lo(check)]
    + src + dst
  }

  function HeaderCheck(src: Octets4, dst: Octets4, ttl: byte, total: uint16): uint16
  {
    Field(Header(src, dst, ttl, total, 0), 0, false)
  }

  /** The datagram that the builder leaves in its buffer. */
  function Datagram(src: Octets4, dst: Octets4, ttl: byte, sport: uint16, dport: uint16, payload: seq<byte>)
    : (d: seq<byte>)
    requires 28 + |payload| <= 0xFFFF
    ensures |d| == 28 + |payload|
  {
    var total := 28 + |payload|;
    var length := 8 + |payload|;
    Header(src, dst, ttl, total, HeaderCheck(src, dst, ttl, total))
    + UdpHeader(sport, dport, length, UdpCheck(src + dst, sport, dport, length, payload))
    + payload
  }

  /**
   The receiver's checks on an IPv4 header without options, and what lets routers pass it on whole
   and without preference: the first and only fragment of its datagram, not to be fragmented, with
   routine service (section 3.1 of RFC 791).
   */
  predicate HeaderAcceptable(d: seq<byte>)
  {
    && |d| >= 28
    && d[0] == 0x45 && d[1] == 0 && Word(d[2], d[3]) == |d| && d[9] == UDP && Verifies(WordSum(d[..20]))
    && DontFragment(d[6]) && !MoreFragments(d[6]) && FragmentOffset(d[6], d[7]) == 0
  }

  predicate DontFragment(flags: byte) { flags / 0x40 % 2 == 1 }
  predicate MoreFragments(flags: byte) { flags / 0x20 % 2 == 1 }
  function FragmentOffset(hi: byte, lo: byte): nat { Word(hi, lo) % 0x2000 }

  lemma DatagramParts(src: Octets4, dst: Octets4, ttl: byte, sport: uint16, dport: uint16, payload: seq<byte>)
    requires 28 + |payload| <= 0xFFFF
    ensures var d := Datagram(src, dst, ttl, sport, dport, payload);
            var total := 28 + |payload|;
            var length := 8 + |payload|;
            && d[..20] == Header(src, dst, ttl, total, HeaderCheck(src, dst, ttl, total))
            && d[12..20] == src + dst && d[12..16] == src && d[16..20] == dst
            && d[20..28] == UdpHeader(sport, dport, length, UdpCheck(src + dst, sport, dport, length, payload))
            && d[20..] == d[20..28] + payload
            && d[28..] == payload
  {
  }

  lemma HeaderVerifies(src: Octets4, dst: Octets4, ttl: byte, total: uint16)
    ensures Verifies(WordSum(Header(src, dst, ttl, total, HeaderCheck(src, dst, ttl, total))))
  {
    var a := [0x45, 0, Hi(total), Lo(total), Hi(FAKE_IPV4_ID), Lo(FAKE_IPV4_ID), 0x40, 0, ttl, 17];
    var c := HeaderCheck(src, dst, ttl, total);
    assert Header(src, dst, ttl, total, c) == a + [Hi(c), Lo(c)] + (src + dst);
    assert Header(src, dst, ttl, total, 0) == a + [0, 0] + (src + dst);
    SumWithField(a, c, src + dst);
    FieldMeans(Header(src, dst, ttl, total, 0), 0, false);
    ComplementVerifies(WordSum(Header(src, dst, ttl, total, 0)));
  }

  /** The receiver takes the header of every datagram. */
  lemma ReceiverTakesHeader(src: Octets4, dst: Octets4, ttl: byte, sport: uint16, dport: uint16, payload: seq<byte>)
    requires 28 + |payload| <= 0xFFFF
    ensures HeaderAcceptable(Datagram(src, dst, ttl, sport, dport, payload))
  {
    DatagramParts(src, dst, ttl, sport, dport, payload);
    HeaderVerifies(src, dst, ttl, 28 + |payload|);
    var d := Datagram(src, dst, ttl, sport, dport, payload);
    assert d[..20][1] == 0 && d[..20][6] == 0x40 && d[..20][7] == 0 && d[..20][9] == UDP;
  }

  /** And the UDP datagram, for all addresses, ports and payloads of either parity that fit. */
  lemma ReceiverAccepts(src: Octets4, dst: Octets4, ttl: byte, sport: uint16, dport: uint16, payload: seq<byte>)
    requires 28 + |payload| <= 0xFFFF
    ensures var d := Datagram(src, dst, ttl, sport, dport, payload); UdpAcceptable(d[12..20], d[20..])
  {
    DatagramParts(src, dst, ttl, sport, dport, payload);
    UdpAccepted(src + dst, sport, dport, payload);
  }

  /** Making and then parsing gives back every input, and the payload lies where the parser points. */
  lemma MakeThenParse(src: Octets4, dst: Octets4, ttl: byte, sport: uint16, dport: uint16, payload: seq<byte>)
    requires 28 + |payload| <= 0xFFFF
    ensures var pkt := Datagram(src, dst, ttl, sport, dport, payload);
            && (exists d :: Derives(pkt, d))
            && (forall d | Derives(pkt, d) ::
                  Reading(pkt, d) == Parsed(Inet(src), Inet(dst), ttl, sport, dport, 20, |payload|))
            && pkt[20 + 8..] == payload
  {
    var pkt := Datagram(src, dst, ttl, sport, dport, payload);
    DatagramParts(src, dst, ttl, sport, dport, payload);
    var d := Derivation(pkt[..20], [], pkt[20..28], payload);
    assert pkt == d.fixed + d.options + d.udp + d.data;
    assert Derives(pkt, d);
    assert d.fixed[12..16] == src && d.fixed[16..20] == dst;
    forall d' | Derives(pkt, d')
      ensures d' == d
    {
      DerivationIsUnique(pkt, d, d');
    }
  }

  /** A packet too long for its length fields, which keep the low 16 bits. */
  ghost predicate Truncates(d: seq<byte>, src: Octets4, dst: Octets4, ttl: byte, sport: uint16, dport: uint16,
                            payload: seq<byte>)
  {
    var total, length := (28 + |payload|) % 0x1_0000, (8 + |payload|) % 0x1_0000;
    exists check, udpCheck ::
      d == Header(src, dst, ttl, total, check) + UdpHeader(sport, dport, length, udpCheck) + payload
  }

  /**
   Fills the buffer field by field, checksum fields last. On an error the buffer is untouched; on
   success the bytes after the packet are.
   */
  method Make(buffer: array<byte>, saddr: SockAddr, daddr: SockAddr, ttl: byte, sport: uint16, dport: uint16,
              payload: seq<byte>)
    returns (pktLen: int)
    modifies buffer
    ensures pktLen == if saddr.Inet? && daddr.Inet? && 28 + |payload| + 1 <= buffer.Length then 28 + |payload| else -1
    ensures pktLen < 0 ==> buffer[..] == old(buffer[..])
    ensures pktLen >= 0 ==> buffer[pktLen..] == old(buffer[pktLen..])
    ensures 0 <= pktLen <= 0xFFFF ==>
              buffer[..pktLen] == Datagram(saddr.ip4, daddr.ip4, ttl, sport, dport, payload)
    ensures pktLen > 0xFFFF ==>
              Truncates(buffer[..pktLen], saddr.ip4, daddr.ip4, ttl, sport, dport, payload)
  {
    if !saddr.Inet? || !daddr.Inet? {
      return -1;
    }
    pktLen := 20 + 8 + |payload|;
    if buffer.Length < pktLen + 1 {
      return -1;
    }
    var total: uint16 := pktLen % 0x1_0000;
    var length: uint16 := (8 + |payload|) % 0x1_0000;
    FillPacket(buffer, saddr.ip4, daddr.ip4, ttl, total, sport, dport, length, payload);
  }

  /** All fields and the payload, then the two checksums. */
  method FillPacket(buffer: array<byte>, src: Octets4, dst: Octets4, ttl: byte, total: uint16,
                    sport: uint16, dport: uint16, length: uint16, payload: seq<byte>)
    requires 28 + |payload| <= buffer.Length
    modifies buffer
    ensures buffer[..28 + |payload|] ==
            Header(src, dst, ttl, total, HeaderCheck(src, dst, ttl, total))
            + UdpHeader(sport, dport, length, UdpCheck(src + dst, sport, dport, length, payload)) + payload
    ensures buffer[28 + |payload|..] == old(buffer[28 + |payload|..])
  {
    ghost var tail := buffer[28 + |payload|..];
    FillHeader(buffer, src, dst, ttl, total);
    FillUdp(buffer, sport, dport, length, payload, Header(src, dst, ttl, total, 0));
    SetHeaderCheck(buffer, src, dst, ttl, total, UdpHeader(sport, dport, length, 0) + payload, tail);
    ghost var header := Header(src, dst, ttl, total, HeaderCheck(src, dst, ttl, total));
    SetUdpCheck(buffer, 12, 20, sport, dport, length, payload, header, src + dst, tail);
  }

  /** The IP header, its checksum field zero. */
  method FillHeader(buffer: array<byte>, src: Octets4, dst: Octets4, ttl: byte, total: uint16)
    requires buffer.Length >= 20
    modifies buffer
    ensures buffer[..] == Header(src, dst, ttl, total, 0) + old(buffer[20..])
  {
    var fields := [0x45, 0, Hi(total), Lo(total), Hi(FAKE_IPV4_ID), Lo(FAKE_IPV4_ID), 0x40, 0, ttl, 17, 0, 0];
    SpliceThree(buffer[..], fields, src, dst);
    Put(buffer, 0, fields);
    Put(buffer, 12, src);
    Put(buffer, 16, dst);
  }

  /** The UDP header, its checksum field zero, and the payload. */
  method FillUdp(buffer: array<byte>, sport: uint16, dport: uint16, length: uint16, payload: seq<byte>,
                 ghost header: seq<byte>)
    requires 28 + |payload| <= buffer.Length && |header| == 20 && buffer[..20] == header
    modifies buffer
    ensures buffer[..] == header + (UdpHeader(sport, dport, length, 0) + payload) + old(buffer[28 + |payload|..])
  {
    Put(buffer, 20, UdpHeader(sport, dport, length, 0));
    Put(buffer, 28, payload);
  }

  /** nfq_ip_set_checksum, over the header as it stands in the buffer. */
  method SetHeaderCheck(buffer: array<byte>, src: Octets4, dst: Octets4, ttl: byte, total: uint16,
                        ghost udp: seq<byte>, ghost tail: seq<byte>)
    requires buffer[..] == Header(src, dst, ttl, total, 0) + udp + tail
    modifies buffer
    ensures buffer[..] == Header(src, dst, ttl, total, HeaderCheck(src, dst, ttl, total)) + udp + tail
  {
    assert buffer[..20] == Header(src, dst, ttl, total, 0);
    var check := Field(buffer[..20], 0, false);
    ghost var front := [0x45, 0, Hi(total), Lo(total), Hi(FAKE_IPV4_ID), Lo(FAKE_IPV4_ID), 0x40, 0, ttl, 17];
    ghost var rest := src + dst + udp + tail;
    assert buffer[..] == front + [0, 0] + rest;
    PatchField(buffer, 10, check, front, rest);
    assert buffer[..] == front + [Hi(check), Lo(check)] + rest;
  }
}
