/** fs_pkt6_make: the IPv6 datagram builder, its receiver's checks and its round trip. */
module Ipv6Make {
  import opened Wrappers
  import opened Checksum
  import opened Packets
  import Parser = Ipv6Pkt

  /** Version 6, traffic class 0 and flow label 0x46553. */
  function Header(src: Octets16, dst: Octets16, hops: byte, length: uint16): (h: seq<byte>)
    ensures |h| == 40
  {
    FAKE_IPV6_FLOW_WORD + [Hi(length), Lo(length), 17, hops] + src + dst
  }

  /** The datagram that the builder leaves in its buffer. */
  function Datagram(src: Octets16, dst: Octets16, hops: byte, sport: uint16, dport: uint16, payload: seq<byte>)
    : (d: seq<byte>)
    requires 48 + |payload| <= 0xFFFF
    ensures |d| == 48 + |payload|
  {
    var length := 8 + |payload|;
    Header(src, dst, hops, length)
    + UdpHeader(sport, dport, length, UdpCheck(src + dst, sport, dport, length, payload))
    + payload
  }

  /** The receiver's checks on an IPv6 UDP datagram without extension headers. */
  predicate Acceptable(d: seq<byte>)
  {
    && |d| >= 48
    && d[0] / 16 == 6 && d[6] == 17 && Word(d[4], d[5]) == |d| - 40
    && UdpAcceptable(d[8..40], d[40..])
  }

  lemma DatagramParts(src: Octets16, dst: Octets16, hops: byte, sport: uint16, dport: uint16, payload: seq<byte>)
    requires 48 + |payload| <= 0xFFFF
    ensures var d := Datagram(src, dst, hops, sport, dport, payload);
            var length := 8 + |payload|;
            && d[..40] == Header(src, dst, hops, length)
            && d[8..40] == src + dst && d[8..24] == src && d[24..40] == dst
            && d[40..48] == UdpHeader(sport, dport, length, UdpCheck(src + dst, sport, dport, length, payload))
            && d[40..] == d[40..48] + payload
            && d[48..] == payload
  {
  }

  /** Receiver acceptance, for all addresses, ports and payloads of either parity that fit. */
  lemma ReceiverAccepts(src: Octets16, dst: Octets16, hops: byte, sport: uint16, dport: uint16, payload: seq<byte>)
    requires 48 + |payload| <= 0xFFFF
    ensures Acceptable(Datagram(src, dst, hops, sport, dport, payload))
  {
    var d := Datagram(src, dst, hops, sport, dport, payload);
    DatagramParts(src, dst, hops, sport, dport, payload);
    UdpAccepted(src + dst, sport, dport, payload);
    assert d[4] == d[..40][4] && d[5] == d[..40][5] && d[6] == d[..40][6] && d[0] == d[..40][0];
  }

  /**
   Making and then parsing gives back every input, whatever was captured after the datagram: the
   grammar has one derivation, and its reading is the flow that was built.
   */
  lemma MakeThenParse(src: Octets16, dst: Octets16, hops: byte, sport: uint16, dport: uint16, payload: seq<byte>,
                      captured: seq<byte>)
    requires 48 + |payload| <= 0xFFFF
    ensures var pkt := Datagram(src, dst, hops, sport, dport, payload) + captured;
            && (exists d :: Parser.Derives(pkt, d))
            && (forall d | Parser.Derives(pkt, d) ::
                  Parser.Reading(pkt, d) == Parsed(Inet6(src), Inet6(dst), hops, sport, dport, 40, |payload|))
            && pkt[40 + 8..40 + 8 + |payload|] == payload
  {
    var datagram := Datagram(src, dst, hops, sport, dport, payload);
    var pkt := datagram + captured;
    DatagramParts(src, dst, hops, sport, dport, payload);
    var length := 8 + |payload|;
    var header := Header(src, dst, hops, length);
    var d := Parser.Derivation(header, [], datagram[40..], captured);
    assert pkt == header + Parser.Concat([]) + datagram[40..] + captured;
    assert datagram[40..][4] == datagram[40..48][4] && datagram[40..][5] == datagram[40..48][5];
    assert Parser.Derives(pkt, d);
    assert pkt[40] == Hi(sport) && pkt[41] == Lo(sport) && pkt[42] == Hi(dport) && pkt[43] == Lo(dport) by {
      assert pkt[40] == datagram[40..48][0] && pkt[41] == datagram[40..48][1]
          && pkt[42] == datagram[40..48][2] && pkt[43] == datagram[40..48][3];
    }
    assert header[8..24] == src && header[24..40] == dst;
    assert Parser.Reading(pkt, d) == Parsed(Inet6(src), Inet6(dst), hops, sport, dport, 40, |payload|);
    forall d' | Parser.Derives(pkt, d')
      ensures d' == d
    {
      Parser.DerivationIsUnique(pkt, d, d');
    }
  }

  /** A packet too long for its length fields, which keep the low 16 bits. */
  ghost predicate Truncates(d: seq<byte>, src: Octets16, dst: Octets16, hops: byte, sport: uint16, dport: uint16,
                            payload: seq<byte>)
  {
    var length := (8 + |payload|) % 0x1_0000;
    exists udpCheck :: d == Header(src, dst, hops, length) + UdpHeader(sport, dport, length, udpCheck) + payload
  }

  /**
   Fills the buffer field by field, the checksum last. On an error the buffer is untouched; on
   success the bytes after the packet are.
   */
  method Make(buffer: array<byte>, saddr: SockAddr, daddr: SockAddr, hops: byte, sport: uint16, dport: uint16,
              payload: seq<byte>)
    returns (pktLen: int)
    modifies buffer
    ensures pktLen == if saddr.Inet6? && daddr.Inet6? && 48 + |payload| + 1 <= buffer.Length then 48 + |payload| else -1
    ensures pktLen < 0 ==> buffer[..] == old(buffer[..])
    ensures pktLen >= 0 ==> buffer[pktLen..] == old(buffer[pktLen..])
    ensures 0 <= pktLen <= 0xFFFF ==>
              buffer[..pktLen] == Datagram(saddr.ip6, daddr.ip6, hops, sport, dport, payload)
    ensures pktLen > 0xFFFF ==>
              Truncates(buffer[..pktLen], saddr.ip6, daddr.ip6, hops, sport, dport, payload)
  {
    if !saddr.Inet6? || !daddr.Inet6? {
      return -1;
    }
    pktLen := 40 + 8 + |payload|;
    if buffer.Length < pktLen + 1 {
      return -1;
    }
    var length: uint16 := (8 + |payload|) % 0x1_0000;
    ghost var tail := buffer[pktLen..];
    FillHeader(buffer, saddr.ip6, daddr.ip6, hops, length);
    FillUdp(buffer, sport, dport, length, payload, Header(saddr.ip6, daddr.ip6, hops, length));
    ghost var header := Header(saddr.ip6, daddr.ip6, hops, length);
    SetUdpCheck(buffer, 8, 40, sport, dport, length, payload, header, saddr.ip6 + daddr.ip6, tail);
    ghost var udp := UdpHeader(sport, dport, length, UdpCheck(saddr.ip6 + daddr.ip6, sport, dport, length, payload));
    assert buffer[..pktLen] == header + udp + payload && buffer[pktLen..] == tail;
  }

  method FillHeader(buffer: array<byte>, src: Octets16, dst: Octets16, hops: byte, length: uint16)
    requires buffer.Length >= 40
    modifies buffer
    ensures buffer[..] == Header(src, dst, hops, length) + old(buffer[40..])
  {
    Put(buffer, 0, FAKE_IPV6_FLOW_WORD + [Hi(length), Lo(length), 17, hops]);
    Put(buffer, 8, src);
    Put(buffer, 24, dst);
  }

  /** The UDP header, its checksum field zero, and the payload. */
  method FillUdp(buffer: array<byte>, sport: uint16, dport: uint16, length: uint16, payload: seq<byte>,
                 ghost header: seq<byte>)
    requires 48 + |payload| <= buffer.Length && |header| == 40 && buffer[..40] == header
    modifies buffer
    ensures buffer[..] == header + (UdpHeader(sport, dport, length, 0) + payload) + old(buffer[48 + |payload|..])
  {
    Put(buffer, 40, UdpHeader(sport, dport, length, 0));
    Put(buffer, 48, payload);
  }
}
