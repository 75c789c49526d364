/**
 make_sip_invite: the INVITE decoy. Characters stand for bytes. The random draws are inputs; an
 unsigned long has at most 64 bits.
 */
module SipMessage {
  import opened Wrappers
  import opened Context
  import opened Numerals
  import SipUri

  const SIP_URI_MAXLEN := 120
  const CRLF := "\r\n"

  type Ulong = n: int | 0 <= n <= ULLONG_MAX

  datatype Draws = Draws(
    originId: Ulong, originVersion: Ulong, branch: Ulong, tag: Ulong, callId: Ulong,
    octet1: nat, octet2: nat, octet3: nat)

  /** Text lines, each ended by CR LF. */
  function Join(lines: seq<string>): string
  {
    if lines == [] then "" else lines[0] + CRLF + Join(lines[1..])
  }

  /** A private-looking address in 100.64.0.0/10. */
  function Local(d: Draws): string
  {
    "100." + Dec(64 + d.octet1 % 64) + "." + Dec(1 + d.octet2 % 254) + "." + Dec(1 + d.octet3 % 254)
  }

  function OriginLine(d: Draws): string
  {
    "o=- " + Dec(d.originId % 0x1_0000_0000) + " " + Dec(d.originVersion % 0x1_0000_0000) + " IN IP4 " + Local(d)
  }

  function SdpHead(d: Draws): seq<string>
  {
    ["v=0", OriginLine(d), "s=-", "c=IN IP4 " + Local(d)]
  }

  function PlainMedia(): seq<string>
  {
    ["t=0 0", "m=audio 6000 RTP/AVP 0", "a=rtpmap:0 PCMU/8000"]
  }

  function ImsMedia(): seq<string>
  {
    ["b=AS:41", "t=0 0", "m=audio 49152 RTP/AVP 97 96 101", "b=RS:0", "b=RR:2000"]
  }

  function ImsCodecs(): seq<string>
  {
    ["a=rtpmap:97 AMR-WB/16000/1", "a=fmtp:97 mode-change-capability=2;max-red=0",
     "a=rtpmap:96 AMR/8000/1", "a=fmtp:96 mode-change-capability=2;max-red=0"]
  }

  function ImsEnd(): seq<string>
  {
    ["a=rtpmap:101 telephone-event/8000", "a=fmtp:101 0-15", "a=ptime:20", "a=maxptime:240", "a=sendrecv"]
  }

  function SdpLines(ims: bool, d: Draws): seq<string>
  {
    if ims then SdpHead(d) + ImsMedia() + ImsCodecs() + ImsEnd() else SdpHead(d) + PlainMedia()
  }

  function Sdp(ims: bool, d: Draws): string
  {
    Join(SdpLines(ims, d))
  }

  function UserAgentLine(): string
  {
    "User-Agent: PRD-IR92/18 " + "term-Generic/IMS-UE " + "device-type/smart-phone " + "mno-custom/none"
  }

  function ImsHeaders(ims: bool): seq<string>
  {
    if ims then
      ["Supported: 199, timer", "Session-Expires: 1800", UserAgentLine()]
    else []
  }

  function InviteLine(uri: string): string { "INVITE " + uri + " SIP/2.0" }
  function ViaLine(d: Draws): string { "Via: SIP/2.0/UDP " + Local(d) + ";branch=z9hG4bK" + Hex(d.branch) }
  function FromLine(d: Draws): string { "From: <sip:user@" + Local(d) + ">;tag=" + Hex(d.tag) }
  function ToLine(user: string, uri: string): string { "To: \"" + user + "\" <" + uri + ">" }
  function CallIdLine(d: Draws): string { "Call-ID: " + Hex(d.callId) + "@" + Local(d) }
  function ContactLine(d: Draws): string { "Contact: <sip:user@" + Local(d) + ">" }

  function RequestTop(uri: string, d: Draws): seq<string>
  {
    [InviteLine(uri), ViaLine(d), "Max-Forwards: 70", FromLine(d)]
  }

  function RequestRest(uri: string, d: Draws): seq<string>
    requires |uri| >= 4
  {
    [ToLine(uri[4..], uri), CallIdLine(d), "CSeq: 1 INVITE", ContactLine(d)]
  }

  function ContentLines(contentLength: nat): seq<string>
  {
    ["Content-Type: application/sdp", "Content-Length: " + Dec(contentLength)]
  }

  function HeaderLines(uri: string, ims: bool, d: Draws, contentLength: nat): seq<string>
    requires |uri| >= 4
  {
    RequestTop(uri, d) + RequestRest(uri, d) + ImsHeaders(ims) + ContentLines(contentLength)
  }

  function Body(uri: string, d: Draws): string
  {
    Sdp(SipUri.IsImsSipUri(uri), d)
  }

  function Headers(uri: string, d: Draws): seq<string>
    requires |uri| >= 4
  {
    HeaderLines(uri, SipUri.IsImsSipUri(uri), d, |Body(uri, d)|)
  }

  /** The whole message, before any buffer limits it. */
  function Message(uri: string, d: Draws): string
    requires |uri| >= 4
  {
    Join(Headers(uri, d)) + CRLF + Body(uri, d)
  }

  predicate NoWhitespace(s: string)
  {
    forall c | c in s :: !IsAsciiSpace(c)
  }

  /** The URIs that -u accepts. */
  predicate AcceptedUri(uri: string)
  {
    "sip:" <= uri && |uri| > 4 && NoWhitespace(uri) && |uri| <= SIP_URI_MAXLEN
  }

  function UriFor(given: Option<string>, d: Draws): string
  {
    if given.Some? then given.value else "sip:user@" + Local(d)
  }

  /** Formatting the description and the message, each checked against its buffer. */
  function Format(uri: string, d: Draws, bufferSize: nat): Option<string>
    requires |uri| >= 4
  {
    if |Body(uri, d)| >= 640 then None
    else if |Message(uri, d)| >= bufferSize then None
    else Some(Message(uri, d))
  }

  /** The function itself; None is its error return. */
  function MakeSipInvite(given: Option<string>, d: Draws, bufferSize: nat): Option<string>
  {
    if |Local(d)| >= 64 then None
    else if given.Some? && !AcceptedUri(given.value) then None
    else if given.None? && |UriFor(given, d)| >= 96 then None
    else Format(UriFor(given, d), d, bufferSize)
  }

  // ---- lengths

  lemma {:induction false} JoinConcat(a: seq<string>, b: seq<string>)
    ensures Join(a + b) == Join(a) + Join(b)
  {
    if a == [] {
      assert a + b == b;
    } else {
      assert (a + b)[1..] == a[1..] + b;
      JoinConcat(a[1..], b);
      assert a[0] + CRLF + (Join(a[1..]) + Join(b)) == (a[0] + CRLF + Join(a[1..])) + Join(b);
    }
  }

  lemma Join1(a: string)
    ensures |Join([a])| == |a| + 2
  {
    assert [a][1..] == [];
  }

  lemma Join2(a: string, b: string)
    ensures |Join([a, b])| == |a| + |b| + 4
  {
    assert [a, b][1..] == [b];
    Join1(b);
  }

  lemma Join4(a: string, b: string, c: string, d: string)
    ensures |Join([a, b, c, d])| == |a| + |b| + |c| + |d| + 8
  {
    assert [a, b, c, d] == [a, b] + [c, d];
    JoinConcat([a, b], [c, d]);
    Join2(a, b);
    Join2(c, d);
  }

  lemma Powers()
    ensures Power(10, 1) == 10 && Power(10, 2) == 100 && Power(10, 3) == 1000
    ensures Power(10, 10) == 100_0000_0000
    ensures Power(16, 16) == 0x1_0000_0000_0000_0000
  {
    assert Power(16, 2) == 256 by { assert Power(16, 1) == 16; }
    PowerSum(16, 2, 2);
    PowerSum(16, 4, 4);
    PowerSum(16, 8, 8);
  }

  lemma {:induction false} PowerSum(b: nat, j: nat, k: nat)
    ensures Power(b, j + k) == Power(b, j) * Power(b, k)
  {
    if j > 0 {
      PowerSum(b, j - 1, k);
      assert Power(b, j + k) == b * Power(b, (j - 1) + k);
      Regroup(b, Power(b, j - 1), Power(b, k));
    }
  }

  lemma Regroup(x: nat, y: nat, z: nat)
    ensures x * (y * z) == (x * y) * z
  {
  }

  /** Dotted decimal octets in the ranges drawn. */
  lemma LocalLength(d: Draws)
    ensures |Local(d)| <= 15
  {
    Powers();
    NumeralLength(10, 64 + d.octet1 % 64, 3);
    NumeralLength(10, 1 + d.octet2 % 254, 3);
    NumeralLength(10, 1 + d.octet3 % 254, 3);
  }

  lemma HexLength(n: Ulong)
    ensures |Hex(n)| <= 16
  {
    Powers();
    NumeralLength(16, n, 16);
  }

  lemma Dec32Length(n: nat)
    ensures |Dec(n % 0x1_0000_0000)| <= 10
  {
    Powers();
    NumeralLength(10, n % 0x1_0000_0000, 10);
  }

  lemma Join3(a: string, b: string, c: string)
    ensures |Join([a, b, c])| == |a| + |b| + |c| + 6
  {
    assert [a, b, c] == [a, b] + [c];
    JoinConcat([a, b], [c]);
    Join2(a, b);
    Join1(c);
  }

  lemma Join5(a: string, b: string, c: string, d: string, e: string)
    ensures |Join([a, b, c, d, e])| == |a| + |b| + |c| + |d| + |e| + 10
  {
    assert [a, b, c, d, e] == [a, b] + [c, d, e];
    JoinConcat([a, b], [c, d, e]);
    Join2(a, b);
    Join3(c, d, e);
  }

  lemma JoinFour(a: seq<string>, b: seq<string>, c: seq<string>, d: seq<string>)
    ensures |Join(a + b + c + d)| == |Join(a)| + |Join(b)| + |Join(c)| + |Join(d)|
  {
    JoinConcat(a, b);
    JoinConcat(a + b, c);
    JoinConcat(a + b + c, d);
  }

  lemma OriginLength(d: Draws)
    ensures |OriginLine(d)| <= 48
  {
    LocalLength(d);
    Dec32Length(d.originId);
    Dec32Length(d.originVersion);
  }

  lemma SdpHeadLength(d: Draws)
    ensures |Join(SdpHead(d))| <= 86
  {
    OriginLength(d);
    LocalLength(d);
    Join4("v=0", OriginLine(d), "s=-", "c=IN IP4 " + Local(d));
  }

  lemma PlainMediaLength()
    ensures |Join(PlainMedia())| == 53
  {
    Join3("t=0 0", "m=audio 6000 RTP/AVP 0", "a=rtpmap:0 PCMU/8000");
  }

  lemma ImsMediaLength()
    ensures |Join(ImsMedia())| == 68
  {
    Join5("b=AS:41", "t=0 0", "m=audio 49152 RTP/AVP 97 96 101", "b=RS:0", "b=RR:2000");
  }

  lemma ImsCodecsLength()
    ensures |Join(ImsCodecs())| == 144
  {
    Join4("a=rtpmap:97 AMR-WB/16000/1", "a=fmtp:97 mode-change-capability=2;max-red=0",
          "a=rtpmap:96 AMR/8000/1", "a=fmtp:96 mode-change-capability=2;max-red=0");
  }

  lemma ImsEndLength()
    ensures |Join(ImsEnd())| == 92
  {
    Join5("a=rtpmap:101 telephone-event/8000", "a=fmtp:101 0-15", "a=ptime:20", "a=maxptime:240", "a=sendrecv");
  }

  /** The session description fits its 640-byte buffer with room to spare. */
  lemma SdpLength(ims: bool, d: Draws)
    ensures |Sdp(ims, d)| <= 390
  {
    SdpHeadLength(d);
    if ims {
      ImsMediaLength();
      ImsCodecsLength();
      ImsEndLength();
      JoinFour(SdpHead(d), ImsMedia(), ImsCodecs(), ImsEnd());
    } else {
      PlainMediaLength();
      JoinConcat(SdpHead(d), PlainMedia());
    }
  }

  lemma RequestTopLength(uri: string, d: Draws)
    ensures |Join(RequestTop(uri, d))| <= 155 + |uri|
  {
    LocalLength(d);
    HexLength(d.branch);
    HexLength(d.tag);
    Join4(InviteLine(uri), ViaLine(d), "Max-Forwards: 70", FromLine(d));
  }

  lemma RequestRestLength(uri: string, d: Draws)
    requires |uri| >= 4
    ensures |Join(RequestRest(uri, d))| <= 103 + 2 * |uri|
  {
    LocalLength(d);
    HexLength(d.callId);
    Join4(ToLine(uri[4..], uri), CallIdLine(d), "CSeq: 1 INVITE", ContactLine(d));
  }

  lemma ImsHeadersLength(ims: bool)
    ensures |Join(ImsHeaders(ims))| <= 131
  {
    if ims {
      Join3("Supported: 199, timer", "Session-Expires: 1800", UserAgentLine());
    }
  }

  lemma ContentLinesLength(contentLength: nat)
    requires contentLength < 1000
    ensures |Join(ContentLines(contentLength))| <= 52
  {
    Powers();
    NumeralLength(10, contentLength, 3);
    Join2("Content-Type: application/sdp", "Content-Length: " + Dec(contentLength));
  }

  /** The whole message: 833 bytes besides the three copies of the URI, so 1193 for the longest one. */
  lemma MessageLength(uri: string, d: Draws)
    requires |uri| >= 4
    ensures |Message(uri, d)| <= 833 + 3 * |uri|
  {
    var ims := SipUri.IsImsSipUri(uri);
    var n := |Sdp(ims, d)|;
    SdpLength(ims, d);
    RequestTopLength(uri, d);
    RequestRestLength(uri, d);
    ImsHeadersLength(ims);
    ContentLinesLength(n);
    JoinFour(RequestTop(uri, d), RequestRest(uri, d), ImsHeaders(ims), ContentLines(n));
  }

  lemma FormatFits(uri: string, d: Draws)
    requires 4 <= |uri| <= SIP_URI_MAXLEN
    ensures Format(uri, d, BUFFLEN) == Some(Message(uri, d)) && |Message(uri, d)| <= 1193
  {
    SdpLength(SipUri.IsImsSipUri(uri), d);
    MessageLength(uri, d);
  }

  /**
   No buffer ever truncates: the function fails exactly on a URI that its own test rejects, and
   otherwise returns the whole message, at most 1193 bytes long.
   */
  lemma FailsOnlyOnRejectedUri(given: Option<string>, d: Draws)
    ensures var r := MakeSipInvite(given, d, BUFFLEN);
            if given.Some? && !AcceptedUri(given.value) then r == None
            else |UriFor(given, d)| >= 4 && r == Some(Message(UriFor(given, d), d)) && |r.value| <= 1193
  {
    LocalLength(d);
    if given.None? || AcceptedUri(given.value) {
      FormatFits(UriFor(given, d), d);
    }
  }
}
