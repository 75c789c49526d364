/** Addresses, 16-bit fields and the UDP header, shared by both IP families. */
module Packets {
  import opened Wrappers
  import opened Checksum

  type Octets4 = s: seq<byte> | |s| == 4 witness [0, 0, 0, 0]
  type Octets16 = s: seq<byte> | |s| == 16 witness [0, 0, 0, 0, 0, 0, 0, 0, 0, 0, 0, 0, 0, 0, 0, 0]

  /** The IP identification of every IPv4 decoy: "FS". */
  const FAKE_IPV4_ID: uint16 := 0x4653

  /** The first four bytes of every IPv6 decoy: version 6, traffic class 0, flow label 0x46553. */
  const FAKE_IPV6_FLOW_WORD: seq<byte> := [0x60, 0x04, 0x65, 0x53]

  /** A socket address without its port. */
  datatype SockAddr =
    | Inet(ip4: Octets4)
    | Inet6(ip6: Octets16)
    | OtherFamily(number: nat)

  function Hi(n: uint16): byte { n / 0x100 }
  function Lo(n: uint16): byte { n % 0x100 }

  function Word(hi: byte, lo: byte): uint16
  {
    hi * 0x100 + lo
  }

  function UdpHeader(sport: uint16, dport: uint16, length: uint16, check: uint16): seq<byte>
  {
    [Hi(sport), Lo(sport), Hi(dport), Lo(dport), Hi(length), Lo(length), Hi(check), Lo(check)]
  }

  /** What a parser hands on: the flow, the TTL, where the UDP header is and how much follows it. */
  datatype Parsed = Parsed(
    saddr: SockAddr, daddr: SockAddr, ttl: byte, sport: uint16, dport: uint16, udpOffset: nat, payloadLen: nat)

  function ParsedAt(pkt: seq<byte>, saddr: SockAddr, daddr: SockAddr, ttl: byte, off: nat, payloadLen: nat): Parsed
    requires off + 4 <= |pkt|
  {
    Parsed(saddr, daddr, ttl, Word(pkt[off], pkt[off + 1]), Word(pkt[off + 2], pkt[off + 3]), off, payloadLen)
  }

  /** A checksum field counts with its own value wherever it sits at an even offset. */
  lemma SumWithField(a: seq<byte>, field: uint16, b: seq<byte>)
    requires |a| % 2 == 0
    ensures WordSum(a + [Hi(field), Lo(field)] + b) == WordSum(a + [0, 0] + b) + field
  {
    assert WordSum([Hi(field), Lo(field)]) == field + WordSum([Hi(field), Lo(field)][2..]);
    assert WordSum([0, 0]) == WordSum([0, 0][2..]);
    WordSumConcat(a, [Hi(field), Lo(field)]);
    WordSumConcat(a, [0, 0]);
    WordSumConcat(a + [Hi(field), Lo(field)], b);
    WordSumConcat(a + [0, 0], b);
  }

  // ---- the UDP checksum, over the addresses of either family

  /**
   The pseudo-header: addresses, protocol and UDP length are summed along with the UDP datagram
   (RFC 768, and section 8.1 of RFC 8200 for IPv6).
   */
  function PseudoSum(addresses: seq<byte>, length: uint16): nat
  {
    WordSum(addresses) + 17 + length
  }

  function UdpCheck(addresses: seq<byte>, sport: uint16, dport: uint16, length: uint16, payload: seq<byte>): uint16
  {
    Field(UdpHeader(sport, dport, length, 0) + payload, PseudoSum(addresses, length), true)
  }

  /** The UDP checksum of a datagram is never zero, and the only non-zero one that verifies. */
  lemma UdpVerifies(addresses: seq<byte>, sport: uint16, dport: uint16, length: uint16, payload: seq<byte>, c: uint16)
    ensures c != 0 ==> (Verifies(PseudoSum(addresses, length) + WordSum(UdpHeader(sport, dport, length, c) + payload))
                       <==> c == UdpCheck(addresses, sport, dport, length, payload))
    ensures UdpCheck(addresses, sport, dport, length, payload) != 0
  {
    var a := [Hi(sport), Lo(sport), Hi(dport), Lo(dport), Hi(length), Lo(length)];
    assert UdpHeader(sport, dport, length, c) == a + [Hi(c), Lo(c)];
    assert UdpHeader(sport, dport, length, 0) == a + [0, 0];
    SumWithField(a, c, payload);
    FieldMeans(UdpHeader(sport, dport, length, 0) + payload, PseudoSum(addresses, length), true);
    if c != 0 {
      UdpComplementIsUnique(PseudoSum(addresses, length) + WordSum(UdpHeader(sport, dport, length, 0) + payload), c);
    }
  }

  /** A receiver's checks on a UDP datagram: exact length, and a checksum that is present and correct. */
  predicate UdpAcceptable(addresses: seq<byte>, udp: seq<byte>)
  {
    && 8 <= |udp| <= 0xFFFF
    && Word(udp[4], udp[5]) == |udp| && Word(udp[6], udp[7]) != 0
    && Verifies(PseudoSum(addresses, |udp|) + WordSum(udp))
  }

  lemma UdpAccepted(addresses: seq<byte>, sport: uint16, dport: uint16, payload: seq<byte>)
    requires 8 + |payload| <= 0xFFFF
    ensures var length := 8 + |payload|;
            var check := UdpCheck(addresses, sport, dport, length, payload);
            UdpAcceptable(addresses, UdpHeader(sport, dport, length, check) + payload)
  {
    var length: uint16 := 8 + |payload|;
    var check := UdpCheck(addresses, sport, dport, length, payload);
    UdpVerifies(addresses, sport, dport, length, payload, check);
    HeaderWords(sport, dport, length, check, payload);
  }

  lemma HeaderWords(sport: uint16, dport: uint16, length: uint16, check: uint16, payload: seq<byte>)
    ensures var udp := UdpHeader(sport, dport, length, check) + payload;
            |udp| == 8 + |payload| && Word(udp[4], udp[5]) == length && Word(udp[6], udp[7]) == check
  {
  }

  /** A sequence with `bytes` written over the part that starts at `off`. */
  function Splice(s: seq<byte>, off: nat, bytes: seq<byte>): seq<byte>
    requires off + |bytes| <= |s|
  {
    s[..off] + bytes + s[off + |bytes|..]
  }

  lemma SpliceMiddle(a: seq<byte>, b: seq<byte>, c: seq<byte>, b': seq<byte>)
    requires |b'| == |b|
    ensures Splice(a + b + c, |a|, b') == a + b' + c
  {
  }

  /** Three parts written one after another from the start. */
  lemma SpliceThree(s: seq<byte>, a: seq<byte>, b: seq<byte>, c: seq<byte>)
    requires |a| + |b| + |c| <= |s|
    ensures Splice(Splice(Splice(s, 0, a), |a|, b), |a| + |b|, c) == a + b + c + s[|a| + |b| + |c|..]
  {
    assert Splice(s, 0, a) == a + s[|a|..];
    assert Splice(a + s[|a|..], |a|, b) == a + b + s[|a| + |b|..];
  }

  /** Copies bytes into the buffer, as memcpy does. */
  method Put(buffer: array<byte>, off: nat, bytes: seq<byte>)
    requires off + |bytes| <= buffer.Length
    modifies buffer
    ensures buffer[..] == Splice(old(buffer[..]), off, bytes)
  {
    var i := 0;
    while i < |bytes|
      invariant 0 <= i <= |bytes|
      invariant buffer[..off + i] == old(buffer[..off]) + bytes[..i]
      invariant buffer[off + i..] == old(buffer[off + i..])
    {
      buffer[off + i] := bytes[i];
      i := i + 1;
    }
    assert buffer[..] == buffer[..off + i] + buffer[off + i..];
  }

  /** Patches a checksum field, which is zero so far. */
  method PatchField(buffer: array<byte>, at: nat, check: uint16, ghost front: seq<byte>, ghost rest: seq<byte>)
    requires |front| == at && buffer[..] == front + [0, 0] + rest
    modifies buffer
    ensures buffer[..] == front + [Hi(check), Lo(check)] + rest
  {
    Put(buffer, at, [Hi(check), Lo(check)]);
    SpliceMiddle(front, [0, 0], rest, [Hi(check), Lo(check)]);
  }

  /** The library's UDP checksum, and the all-ones form of a computed zero. */
  method UdpField(udp: seq<byte>, addresses: seq<byte>, length: uint16) returns (check: uint16)
    ensures check == Field(udp, PseudoSum(addresses, length), true)
  {
    FieldMeans(udp, PseudoSum(addresses, length), false);
    FieldMeans(udp, PseudoSum(addresses, length), true);
    check := Field(udp, PseudoSum(addresses, length), false);
    if check == 0 {
      check := 0xFFFF;
    }
  }

  lemma HeaderSplits(header: seq<byte>, sport: uint16, dport: uint16, length: uint16, check: uint16,
                     payload: seq<byte>, tail: seq<byte>)
    ensures header + UdpHeader(sport, dport, length, check) + payload + tail ==
            header + (UdpHeader(sport, dport, length, check) + payload) + tail ==
            (header + [Hi(sport), Lo(sport), Hi(dport), Lo(dport), Hi(length), Lo(length)])
            + [Hi(check), Lo(check)] + (payload + tail)
  {
  }

  /**
   Sets the UDP checksum in a buffer whose IP header has its addresses from `addressesAt` up to the
   UDP header at `udpAt`.
   */
  method SetUdpCheck(buffer: array<byte>, addressesAt: nat, udpAt: nat, sport: uint16, dport: uint16, length: uint16,
                     payload: seq<byte>, ghost header: seq<byte>, ghost addresses: seq<byte>, ghost tail: seq<byte>)
    requires addressesAt <= udpAt == |header| && header[addressesAt..] == addresses
    requires buffer[..] == header + (UdpHeader(sport, dport, length, 0) + payload) + tail
    modifies buffer
    ensures buffer[..] == header
                          + UdpHeader(sport, dport, length, UdpCheck(addresses, sport, dport, length, payload))
                          + payload + tail
  {
    var n := udpAt + 8 + |payload|;
    assert buffer[udpAt..n] == UdpHeader(sport, dport, length, 0) + payload;
    assert buffer[addressesAt..udpAt] == addresses;
    var check := UdpField(buffer[udpAt..n], buffer[addressesAt..udpAt], length);
    ghost var front := header + [Hi(sport), Lo(sport), Hi(dport), Lo(dport), Hi(length), Lo(length)];
    HeaderSplits(header, sport, dport, length, 0, payload, tail);
    HeaderSplits(header, sport, dport, length, check, payload, tail);
    PatchField(buffer, udpAt + 6, check, front, payload + tail);
  }
}
