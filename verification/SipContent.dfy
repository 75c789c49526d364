/** What the finished INVITE says, read back from its text as a SIP peer reads it (RFC 3261, RFC 4566). */
module SipContent {
  import opened Wrappers
  import opened Context
  import opened Numerals
  import opened SipUri
  import opened SipMessage
  import opened SipFraming

  // ---- reading a text

  /** Where the first CR LF is, or the length of the text. */
  function LineEnd(s: string): (n: nat)
    ensures n == |s| || (n + 2 <= |s| && s[n..n + 2] == CRLF)
  {
    if |s| < 2 then |s| else if s[..2] == CRLF then 0 else 1 + LineEnd(s[1..])
  }

  function Lines(s: string): seq<string>
    decreases |s|
  {
    if s == "" then []
    else if LineEnd(s) == |s| then [s]
    else [s[..LineEnd(s)]] + Lines(s[LineEnd(s) + 2..])
  }

  /** The lines before the first empty one. */
  function Top(lines: seq<string>): seq<string>
  {
    if lines == [] || lines[0] == "" then [] else [lines[0]] + Top(lines[1..])
  }

  /** The lines behind the first empty one. */
  function Behind(lines: seq<string>): seq<string>
  {
    if lines == [] then [] else if lines[0] == "" then lines[1..] else Behind(lines[1..])
  }

  /** A line cut at its spaces. */
  function Words(s: string): seq<string>
    decreases |s|
  {
    var n := FirstOf(s, {' '});
    if n == |s| then [s] else [s[..n]] + Words(s[n + 1..])
  }

  datatype Field = Field(name: string, value: string)

  /** A header field: its name up to the colon, its value behind the space after it. */
  function FieldOf(line: string): Field
  {
    var n := FirstOf(line, {':'});
    Field(line[..n], if n + 2 <= |line| then line[n + 2..] else "")
  }

  function Fields(lines: seq<string>): seq<Field>
  {
    seq(|lines|, i requires 0 <= i < |lines| => FieldOf(lines[i]))
  }

  // ---- what a message should say

  /** An address in 100.64.0.0/10 whose last two octets are neither 0 nor 255. */
  ghost predicate IsLocal(local: string)
  {
    exists a: nat, b: nat, c: nat ::
      && 64 <= a < 128 && 1 <= b <= 254 && 1 <= c <= 254
      && local == "100." + Dec(a) + "." + Dec(b) + "." + Dec(c)
  }

  function RoutingFields(uri: string, local: string, branch: string, tag: string, callId: string): seq<Field>
    requires |uri| >= 4
  {
    [Field("Via", "SIP/2.0/UDP " + local + ";branch=z9hG4bK" + branch),
     Field("Max-Forwards", "70"),
     Field("From", "<sip:user@" + local + ">;tag=" + tag),
     Field("To", "\"" + uri[4..] + "\" <" + uri + ">"),
     Field("Call-ID", callId + "@" + local),
     Field("CSeq", "1 INVITE"),
     Field("Contact", "<sip:user@" + local + ">")]
  }

  function ImsFields(): seq<Field>
  {
    [Field("Supported", "199, timer"),
     Field("Session-Expires", "1800"),
     Field("User-Agent", "PRD-IR92/18 " + "term-Generic/IMS-UE " + "device-type/smart-phone " + "mno-custom/none")]
  }

  function BodyFields(length: nat): seq<Field>
  {
    [Field("Content-Type", "application/sdp"), Field("Content-Length", Dec(length))]
  }

  /** The tokens drawn are hexadecimal. */
  predicate Tokens(branch: string, tag: string, callId: string)
  {
    AllDigits(16, branch) && AllDigits(16, tag) && AllDigits(16, callId)
  }

  ghost predicate HasFields(fields: seq<Field>, uri: string, local: string, ims: bool, length: nat)
    requires |uri| >= 4
  {
    exists branch, tag, callId | Tokens(branch, tag, callId) ::
      fields == RoutingFields(uri, local, branch, tag, callId) + (if ims then ImsFields() else []) + BodyFields(length)
  }

  /** One audio stream in G.711 mu-law. */
  const PLAIN_OFFER := ["t=0 0", "m=audio 6000 RTP/AVP 0", "a=rtpmap:0 PCMU/8000"]

  /** One audio stream in wideband or narrowband AMR, with tones. */
  const IMS_OFFER := [
    "b=AS:41", "t=0 0", "m=audio 49152 RTP/AVP 97 96 101", "b=RS:0", "b=RR:2000",
    "a=rtpmap:97 AMR-WB/16000/1", "a=fmtp:97 mode-change-capability=2;max-red=0",
    "a=rtpmap:96 AMR/8000/1", "a=fmtp:96 mode-change-capability=2;max-red=0",
    "a=rtpmap:101 telephone-event/8000", "a=fmtp:101 0-15", "a=ptime:20", "a=maxptime:240", "a=sendrecv"]

  ghost predicate HasOffer(lines: seq<string>, local: string, ims: bool)
  {
    exists id, version | AllDigits(10, id) && AllDigits(10, version) ::
      lines == ["v=0", "o=- " + id + " " + version + " IN IP4 " + local, "s=-", "c=IN IP4 " + local]
               + (if ims then IMS_OFFER else PLAIN_OFFER)
  }

  /** The grammar reads the URI, and its host is one of an IMS network. */
  ghost predicate IsImsUri(uri: string)
  {
    exists p :: Spells(p, uri) && ImsHost(p.host)
  }

  /**
   The text reads as an INVITE for the URI from one local address, with the IMS header fields and the
   IMS offer exactly for an IMS host, and with `length` bytes of body.
   */
  ghost predicate Says(text: string, uri: string, local: string, length: nat)
    requires |uri| >= 4
  {
    var top, body := Top(Lines(text)), Behind(Lines(text));
    && top != [] && Words(top[0]) == ["INVITE", uri, "SIP/2.0"]
    && HasFields(Fields(top[1..]), uri, local, IsImsUri(uri), length)
    && HasOffer(body, local, IsImsUri(uri))
  }

  // ---- reading back what was joined

  lemma {:induction false} LineEndAt(line: string, rest: string)
    requires NoLineBreak(line)
    ensures LineEnd(line + CRLF + rest) == |line|
  {
    var s := line + CRLF + rest;
    if line == "" {
      assert s[..2] == CRLF;
    } else {
      assert s[0] == line[0] && line[0] in line;
      assert s[1..] == line[1..] + CRLF + rest;
      LineEndAt(line[1..], rest);
      assert s[..2][0] == s[0] && CRLF[0] == '\r';
    }
  }

  lemma LinesOfOne(line: string, rest: string)
    requires NoLineBreak(line)
    ensures Lines(line + CRLF + rest) == [line] + Lines(rest)
  {
    var s := line + CRLF + rest;
    LineEndAt(line, rest);
    assert s[..|line|] == line && s[|line| + 2..] == rest;
  }

  lemma {:induction false} LinesOfJoin(lines: seq<string>, rest: string)
    requires AllClean(lines)
    ensures Lines(Join(lines) + rest) == lines + Lines(rest)
  {
    if lines == [] {
      assert Join(lines) + rest == rest;
    } else {
      var first, later := lines[0], lines[1..];
      JoinRegroups(first, Join(later), rest);
      LinesOfOne(first, Join(later) + rest);
      LinesOfJoin(later, rest);
      FirstAndLater(lines, Lines(rest));
    }
  }

  lemma FirstAndLater(lines: seq<string>, rest: seq<string>)
    requires lines != []
    ensures lines + rest == [lines[0]] + (lines[1..] + rest)
  {
  }

  lemma JoinRegroups(first: string, later: string, rest: string)
    ensures (first + CRLF + later) + rest == first + CRLF + (later + rest)
  {
  }

  lemma {:induction false} CutAtBlank(top: seq<string>, body: seq<string>)
    requires forall i | 0 <= i < |top| :: top[i] != ""
    ensures Top(top + [""] + body) == top && Behind(top + [""] + body) == body
  {
    var lines := top + [""] + body;
    if top == [] {
      assert lines[1..] == body;
    } else {
      assert lines[1..] == top[1..] + [""] + body;
      CutAtBlank(top[1..], body);
    }
  }

  lemma FieldReads(name: string, value: string)
    requires Free(name, {':'})
    ensures FieldOf(name + ": " + value) == Field(name, value)
  {
    assert name + ": " + value == name + (": " + value);
    FirstOfConcat(name, ": " + value, {':'});
  }

  lemma Associates<T>(a: seq<T>, b: seq<T>, c: seq<T>)
    ensures a + b + c == a + (b + c)
  {
  }

  lemma WordsOfOne(word: string, rest: string)
    requires Free(word, {' '})
    ensures Words(word + " " + rest) == [word] + Words(rest)
  {
    assert word + " " + rest == word + (" " + rest);
    FirstOfConcat(word, " " + rest, {' '});
    assert (word + " " + rest)[|word| + 1..] == rest;
  }

  lemma LastWord(word: string)
    requires Free(word, {' '})
    ensures Words(word) == [word]
  {
    assert word + "" == word;
    FirstOfConcat(word, "", {' '});
  }

  lemma ThreeWords(a: string, b: string, c: string)
    requires Free(a, {' '}) && Free(b, {' '}) && Free(c, {' '})
    ensures Words((a + " ") + b + (" " + c)) == [a, b, c]
  {
    Associates(b, " ", c);
    Associates(a + " ", b, " " + c);
    WordsOfOne(a, b + " " + c);
    WordsOfOne(b, c);
    LastWord(c);
  }

  lemma RequestLineReads(uri: string)
    requires Free(uri, {' '})
    ensures Words(InviteLine(uri)) == ["INVITE", uri, "SIP/2.0"]
  {
    ThreeWords("INVITE", uri, "SIP/2.0");
    assert "INVITE" + " " == "INVITE " && " " + "SIP/2.0" == " SIP/2.0";
  }

  // ---- the header fields of a message

  /** What a line reads as, when it is the name and the value up to grouping. */
  lemma LineReads(line: string, name: string, value: string)
    requires Free(name, {':'}) && line == name + ": " + value
    ensures FieldOf(line) == Field(name, value)
  {
    FieldReads(name, value);
  }

  lemma ViaReads(d: Draws)
    ensures FieldOf(ViaLine(d)) == Field("Via", "SIP/2.0/UDP " + Local(d) + ";branch=z9hG4bK" + Hex(d.branch))
  {
    assert "Via: SIP/2.0/UDP " == "Via" + ": " + "SIP/2.0/UDP ";
    Behind3("Via" + ": ", "SIP/2.0/UDP ", Local(d), ";branch=z9hG4bK", Hex(d.branch));
    LineReads(ViaLine(d), "Via", "SIP/2.0/UDP " + Local(d) + ";branch=z9hG4bK" + Hex(d.branch));
  }

  lemma Behind3(name: string, a: string, b: string, c: string, e: string)
    ensures (name + a) + b + c + e == name + (a + b + c + e) && (name + a) + b + c == name + (a + b + c)
  {
  }

  lemma FromReads(d: Draws)
    ensures FieldOf(FromLine(d)) == Field("From", "<sip:user@" + Local(d) + ">;tag=" + Hex(d.tag))
  {
    assert "From: <sip:user@" == "From" + ": " + "<sip:user@";
    Behind3("From" + ": ", "<sip:user@", Local(d), ">;tag=", Hex(d.tag));
    LineReads(FromLine(d), "From", "<sip:user@" + Local(d) + ">;tag=" + Hex(d.tag));
  }

  lemma ToReads(user: string, uri: string)
    ensures FieldOf(ToLine(user, uri)) == Field("To", "\"" + user + "\" <" + uri + ">")
  {
    assert "To: \"" == "To" + ": " + "\"";
    Behind3("To" + ": ", "\"", user, "\" <", uri);
    assert ToLine(user, uri) == (("To" + ": " + "\"") + user + "\" <" + uri) + ">";
    assert ToLine(user, uri) == "To" + ": " + ("\"" + user + "\" <" + uri + ">");
    LineReads(ToLine(user, uri), "To", "\"" + user + "\" <" + uri + ">");
  }

  lemma CallIdReads(d: Draws)
    ensures FieldOf(CallIdLine(d)) == Field("Call-ID", Hex(d.callId) + "@" + Local(d))
  {
    assert "Call-ID: " == "Call-ID" + ": ";
    Behind3("Call-ID" + ": ", "", Hex(d.callId), "@", Local(d));
    assert CallIdLine(d) == "Call-ID" + ": " + (Hex(d.callId) + "@" + Local(d));
    LineReads(CallIdLine(d), "Call-ID", Hex(d.callId) + "@" + Local(d));
  }

  lemma ContactReads(d: Draws)
    ensures FieldOf(ContactLine(d)) == Field("Contact", "<sip:user@" + Local(d) + ">")
  {
    assert "Contact: <sip:user@" == "Contact" + ": " + "<sip:user@";
    Behind3("Contact" + ": ", "<sip:user@", Local(d), ">", "");
    LineReads(ContactLine(d), "Contact", "<sip:user@" + Local(d) + ">");
  }

  lemma NamedRead(line: string, name: string, value: string)
    requires Free(name, {':'}) && name + ": " + value == line
    ensures FieldOf(line) == Field(name, value)
  {
    FieldReads(name, value);
  }

  lemma MaxForwardsReads()
    ensures FieldOf("Max-Forwards: 70") == Field("Max-Forwards", "70")
  {
    NamedRead("Max-Forwards: 70", "Max-Forwards", "70");
  }

  lemma CSeqReads()
    ensures FieldOf("CSeq: 1 INVITE") == Field("CSeq", "1 INVITE")
  {
    NamedRead("CSeq: 1 INVITE", "CSeq", "1 INVITE");
  }

  lemma SupportedReads()
    ensures FieldOf("Supported: 199, timer") == Field("Supported", "199, timer")
  {
    NamedRead("Supported: 199, timer", "Supported", "199, timer");
  }

  lemma SessionExpiresReads()
    ensures FieldOf("Session-Expires: 1800") == Field("Session-Expires", "1800")
  {
    NamedRead("Session-Expires: 1800", "Session-Expires", "1800");
  }

  lemma UserAgentReads()
    ensures FieldOf(UserAgentLine()) == ImsFields()[2]
  {
    assert "User-Agent: PRD-IR92/18 " == "User-Agent" + ": " + "PRD-IR92/18 ";
    Behind3("User-Agent" + ": ", "PRD-IR92/18 ", "term-Generic/IMS-UE ", "device-type/smart-phone ", "mno-custom/none");
    LineReads(UserAgentLine(), "User-Agent", ImsFields()[2].value);
  }

  lemma ContentTypeReads()
    ensures FieldOf("Content-Type: application/sdp") == Field("Content-Type", "application/sdp")
  {
    NamedRead("Content-Type: application/sdp", "Content-Type", "application/sdp");
  }

  lemma ContentLengthReads(n: nat)
    ensures FieldOf("Content-Length: " + Dec(n)) == Field("Content-Length", Dec(n))
  {
    assert "Content-Length: " == "Content-Length" + ": ";
    NamedRead("Content-Length: " + Dec(n), "Content-Length", Dec(n));
  }

  lemma ImsHeadersRead(ims: bool)
    ensures Fields(ImsHeaders(ims)) == if ims then ImsFields() else []
  {
    if ims {
      SupportedReads();
      SessionExpiresReads();
      UserAgentReads();
      FieldsOf3("Supported: 199, timer", "Session-Expires: 1800", UserAgentLine());
    }
  }

  lemma ContentLinesRead(n: nat)
    ensures Fields(ContentLines(n)) == BodyFields(n)
  {
    ContentTypeReads();
    ContentLengthReads(n);
    FieldsOf2("Content-Type: application/sdp", "Content-Length: " + Dec(n));
  }

  lemma FieldsOf2(a: string, b: string)
    ensures Fields([a, b]) == [FieldOf(a), FieldOf(b)]
  {
  }

  lemma FieldsOf3(a: string, b: string, c: string)
    ensures Fields([a, b, c]) == [FieldOf(a), FieldOf(b), FieldOf(c)]
  {
  }

  lemma FieldsOf4(a: string, b: string, c: string, d: string)
    ensures Fields([a, b, c, d]) == [FieldOf(a), FieldOf(b), FieldOf(c), FieldOf(d)]
  {
  }

  lemma FieldsConcat(a: seq<string>, b: seq<string>)
    ensures Fields(a + b) == Fields(a) + Fields(b)
  {
  }

  lemma RequestTopReads(uri: string, d: Draws)
    ensures Fields(RequestTop(uri, d)[1..]) ==
            [Field("Via", "SIP/2.0/UDP " + Local(d) + ";branch=z9hG4bK" + Hex(d.branch)),
             Field("Max-Forwards", "70"),
             Field("From", "<sip:user@" + Local(d) + ">;tag=" + Hex(d.tag))]
  {
    ViaReads(d);
    MaxForwardsReads();
    FromReads(d);
    FieldsOf3(ViaLine(d), "Max-Forwards: 70", FromLine(d));
    assert RequestTop(uri, d)[1..] == [ViaLine(d), "Max-Forwards: 70", FromLine(d)];
  }

  lemma RequestRestReads(uri: string, d: Draws)
    requires |uri| >= 4
    ensures Fields(RequestRest(uri, d)) ==
            [Field("To", "\"" + uri[4..] + "\" <" + uri + ">"), Field("Call-ID", Hex(d.callId) + "@" + Local(d)),
             Field("CSeq", "1 INVITE"), Field("Contact", "<sip:user@" + Local(d) + ">")]
  {
    ToReads(uri[4..], uri);
    CallIdReads(d);
    CSeqReads();
    ContactReads(d);
    FieldsOf4(ToLine(uri[4..], uri), CallIdLine(d), "CSeq: 1 INVITE", ContactLine(d));
  }

  lemma RequestReads(uri: string, d: Draws)
    requires |uri| >= 4
    ensures Fields(RequestTop(uri, d)[1..] + RequestRest(uri, d)) ==
            RoutingFields(uri, Local(d), Hex(d.branch), Hex(d.tag), Hex(d.callId))
  {
    RequestTopReads(uri, d);
    RequestRestReads(uri, d);
    FieldsConcat(RequestTop(uri, d)[1..], RequestRest(uri, d));
  }

  lemma FieldsOfParts(first: string, top: seq<string>, rest: seq<string>, ims: seq<string>, content: seq<string>)
    requires top != [] && top[0] == first
    ensures top + rest + ims + content != []
    ensures (top + rest + ims + content)[0] == first
    ensures Fields((top + rest + ims + content)[1..]) == Fields(top[1..] + rest) + Fields(ims) + Fields(content)
  {
    FieldsConcat(top[1..] + rest, ims);
    FieldsConcat(top[1..] + rest + ims, content);
    assert (top + rest + ims + content)[1..] == top[1..] + rest + ims + content;
  }

  lemma HexTokens(d: Draws)
    ensures Tokens(Hex(d.branch), Hex(d.tag), Hex(d.callId))
  {
    PrintThenRead(16, d.branch);
    PrintThenRead(16, d.tag);
    PrintThenRead(16, d.callId);
  }

  /** All header fields of a message. */
  lemma HeadersRead(uri: string, d: Draws)
    requires |uri| >= 4
    ensures Headers(uri, d) != [] && Headers(uri, d)[0] == InviteLine(uri)
    ensures Fields(Headers(uri, d)[1..]) ==
            RoutingFields(uri, Local(d), Hex(d.branch), Hex(d.tag), Hex(d.callId))
            + (if IsImsSipUri(uri) then ImsFields() else []) + BodyFields(|Body(uri, d)|)
  {
    RequestReads(uri, d);
    ImsHeadersRead(IsImsSipUri(uri));
    ContentLinesRead(|Body(uri, d)|);
    FieldsOfParts(InviteLine(uri), RequestTop(uri, d), RequestRest(uri, d), ImsHeaders(IsImsSipUri(uri)),
                  ContentLines(|Body(uri, d)|));
  }

  // ---- the body

  lemma OfferReads(ims: bool, d: Draws)
    ensures HasOffer(SdpLines(ims, d), Local(d), ims)
  {
    var id, version := Dec(d.originId % 0x1_0000_0000), Dec(d.originVersion % 0x1_0000_0000);
    PrintThenRead(10, d.originId % 0x1_0000_0000);
    PrintThenRead(10, d.originVersion % 0x1_0000_0000);
    assert ImsMedia() + ImsCodecs() + ImsEnd() == IMS_OFFER;
    assert SdpLines(ims, d) ==
           ["v=0", "o=- " + id + " " + version + " IN IP4 " + Local(d), "s=-", "c=IN IP4 " + Local(d)]
           + (if ims then IMS_OFFER else PLAIN_OFFER);
  }

  predicate AllClean(lines: seq<string>)
  {
    forall i | 0 <= i < |lines| :: NoLineBreak(lines[i])
  }

  lemma CleanLists(a: seq<string>, b: seq<string>)
    requires AllClean(a) && AllClean(b)
    ensures AllClean(a + b)
  {
  }

  lemma CleanHead(d: Draws)
    ensures AllClean(SdpHead(d))
  {
    CleanLocal(d);
    CleanNumeral(10, d.originId % 0x1_0000_0000);
    CleanNumeral(10, d.originVersion % 0x1_0000_0000);
    var id, version := Dec(d.originId % 0x1_0000_0000), Dec(d.originVersion % 0x1_0000_0000);
    CleanParts("o=- ", id, " ", version);
    CleanParts("o=- " + id + " " + version, " IN IP4 ", Local(d), "");
    CleanConcat("c=IN IP4 ", Local(d));
  }

  lemma CleanPlainMedia()
    ensures AllClean(PlainMedia())
  {
  }

  lemma CleanImsMedia()
    ensures AllClean(ImsMedia())
  {
  }

  lemma CleanWideband()
    ensures NoLineBreak("a=rtpmap:97 AMR-WB/16000/1")
  {
  }

  lemma CleanWidebandModes()
    ensures NoLineBreak("a=fmtp:97 mode-change-capability=2;max-red=0")
  {
  }

  lemma CleanNarrowband()
    ensures NoLineBreak("a=rtpmap:96 AMR/8000/1")
  {
  }

  lemma CleanNarrowbandModes()
    ensures NoLineBreak("a=fmtp:96 mode-change-capability=2;max-red=0")
  {
  }

  lemma CleanImsCodecs()
    ensures AllClean(ImsCodecs())
  {
    CleanWideband();
    CleanWidebandModes();
    CleanNarrowband();
    CleanNarrowbandModes();
  }

  lemma CleanImsEnd()
    ensures AllClean(ImsEnd())
  {
  }

  lemma BodyLines(ims: bool, d: Draws)
    ensures AllClean(SdpLines(ims, d))
  {
    CleanHead(d);
    if ims {
      CleanImsMedia();
      CleanImsCodecs();
      CleanImsEnd();
      CleanLists(SdpHead(d), ImsMedia());
      CleanLists(SdpHead(d) + ImsMedia(), ImsCodecs());
      CleanLists(SdpHead(d) + ImsMedia() + ImsCodecs(), ImsEnd());
    } else {
      CleanPlainMedia();
      CleanLists(SdpHead(d), PlainMedia());
    }
  }

  /** Every message is such a text, with as many bytes behind its first blank line as it says. */
  lemma MessageSays(uri: string, d: Draws)
    requires |uri| >= 4 && NoWhitespace(uri)
    ensures Says(Message(uri, d), uri, Local(d), |Body(uri, d)|)
  {
    MessageLines(uri, d);
    HeadersSay(uri, d);
    BodySays(uri, d);
    PartsSay(Message(uri, d), Headers(uri, d), SdpLines(IsImsSipUri(uri), d), uri, Local(d), |Body(uri, d)|);
  }

  lemma PartsSay(text: string, top: seq<string>, body: seq<string>, uri: string, local: string, length: nat)
    requires |uri| >= 4 && Top(Lines(text)) == top && Behind(Lines(text)) == body
    requires top != [] && Words(top[0]) == ["INVITE", uri, "SIP/2.0"]
    requires HasFields(Fields(top[1..]), uri, local, IsImsUri(uri), length) && HasOffer(body, local, IsImsUri(uri))
    ensures Says(text, uri, local, length)
  {
  }

  lemma HeadersSay(uri: string, d: Draws)
    requires |uri| >= 4 && NoWhitespace(uri)
    ensures Headers(uri, d) != [] && Words(Headers(uri, d)[0]) == ["INVITE", uri, "SIP/2.0"]
    ensures HasFields(Fields(Headers(uri, d)[1..]), uri, Local(d), IsImsUri(uri), |Body(uri, d)|)
  {
    ClassifierIsTheGrammar(uri);
    RequestLineReads(uri);
    HeadersRead(uri, d);
    HexTokens(d);
  }

  lemma BodySays(uri: string, d: Draws)
    ensures HasOffer(SdpLines(IsImsSipUri(uri), d), Local(d), IsImsUri(uri))
  {
    ClassifierIsTheGrammar(uri);
    OfferReads(IsImsSipUri(uri), d);
  }

  lemma MessageLines(uri: string, d: Draws)
    requires |uri| >= 4 && NoWhitespace(uri)
    ensures Top(Lines(Message(uri, d))) == Headers(uri, d)
    ensures Behind(Lines(Message(uri, d))) == SdpLines(IsImsSipUri(uri), d)
  {
    var top, body := Headers(uri, d), SdpLines(IsImsSipUri(uri), d);
    AllHeaderLines(uri, d);
    LinesAreClean(top);
    BodyLines(IsImsSipUri(uri), d);
    TextLines(top, body);
    CutAtBlank(top, body);
  }

  lemma TextLines(top: seq<string>, body: seq<string>)
    requires AllClean(top) && AllClean(body)
    ensures Lines(Join(top) + CRLF + Join(body)) == top + [""] + body
  {
    LinesOfJoin(top, CRLF + Join(body));
    BlankThenBody(body);
    Associates(Join(top), CRLF, Join(body));
    Associates(top, [""], body);
  }

  lemma BlankThenBody(body: seq<string>)
    requires AllClean(body)
    ensures Lines(CRLF + Join(body)) == [""] + body
  {
    LinesOfOne("", Join(body));
    assert "" + CRLF + Join(body) == CRLF + Join(body);
    LinesOfJoin(body, "");
    assert Join(body) + "" == Join(body);
    assert body + [] == body;
  }

  lemma LinesAreClean(lines: seq<string>)
    requires forall l | l in lines :: HeaderLine(l)
    ensures AllClean(lines) && forall i | 0 <= i < |lines| :: lines[i] != ""
  {
    forall i | 0 <= i < |lines|
      ensures lines[i] != "" && NoLineBreak(lines[i])
    {
      assert lines[i] in lines;
    }
  }

  lemma DrawnAddress(d: Draws)
    ensures IsLocal(Local(d))
  {
    var a, b, c := 64 + d.octet1 % 64, 1 + d.octet2 % 254, 1 + d.octet3 % 254;
    assert Local(d) == "100." + Dec(a) + "." + Dec(b) + "." + Dec(c);
  }

  /** What is asked for, or an invented user at the local address. */
  function AskedUri(given: Option<string>, local: string): string
  {
    if given.Some? then given.value else "sip:user@" + local
  }

  /** A text that says all this with the URI that was given or invented, and has as many bytes of body as it says. */
  ghost predicate SaysFor(text: string, given: Option<string>, local: string)
  {
    && IsLocal(local) && |AskedUri(given, local)| >= 4
    && exists headers :: WellFramed(text, headers)
                         && Says(text, AskedUri(given, local), local, |text| - (|Join(headers)| + |CRLF|))
  }

  ghost predicate IsInvite(text: string, given: Option<string>)
  {
    exists local :: SaysFor(text, given, local)
  }

  /** Every message that make_sip_invite returns. */
  lemma EveryInviteSays(given: Option<string>, d: Draws)
    requires MakeSipInvite(given, d, BUFFLEN).Some?
    ensures SaysFor(MakeSipInvite(given, d, BUFFLEN).value, given, Local(d))
    ensures IsInvite(MakeSipInvite(given, d, BUFFLEN).value, given)
  {
    var uri := UriFor(given, d);
    FailsOnlyOnRejectedUri(given, d);
    DrawnAddress(d);
    UriHasNoSpace(given, d);
    MessageSays(uri, d);
    EveryDecoyIsFramed(given, d);
    var text, headers := Message(uri, d), Headers(uri, d);
    assert |text| - (|Join(headers)| + |CRLF|) == |Body(uri, d)|;
    assert WellFramed(text, headers) && Says(text, uri, Local(d), |text| - (|Join(headers)| + |CRLF|));
  }

  lemma UriHasNoSpace(given: Option<string>, d: Draws)
    requires given.None? || AcceptedUri(given.value)
    ensures NoWhitespace(UriFor(given, d))
  {
    if given.None? {
      var a, b, c := 64 + d.octet1 % 64, 1 + d.octet2 % 254, 1 + d.octet3 % 254;
      NumeralChars(10, a);
      NumeralChars(10, b);
      NumeralChars(10, c);
      assert forall c | c in DIGITS :: !IsAsciiSpace(c);
      NoSpaceParts(Dec(a), Dec(b), Dec(c));
    }
  }

  lemma NoSpaceParts(a: string, b: string, c: string)
    requires NoWhitespace(a) && NoWhitespace(b) && NoWhitespace(c)
    ensures NoWhitespace("sip:user@" + ("100." + a + "." + b + "." + c))
  {
  }
}
