/**
 Where the body of the INVITE starts and how long it says it is: Content-Length is the number of
 bytes after the first blank line (section 20.14 of RFC 3261).
 */
module SipFraming {
  import opened Wrappers
  import opened Context
  import opened Numerals
  import opened SipMessage
  import SipUri

  predicate NoLineBreak(s: string)
  {
    '\r' !in s && '\n' !in s
  }

  predicate BlankLineAt(m: string, i: nat)
  {
    i + 4 <= |m| && m[i] == '\r' && m[i + 1] == '\n' && m[i + 2] == '\r' && m[i + 3] == '\n'
  }

  lemma {:induction false} JoinEnds(lines: seq<string>)
    requires lines != []
    ensures |Join(lines)| >= 2 && Join(lines)[|Join(lines)| - 2..] == CRLF
  {
    if |lines| == 1 {
      assert lines[1..] == [];
      assert Join(lines) == lines[0] + CRLF;
    } else {
      JoinEnds(lines[1..]);
      var rest := Join(lines[1..]);
      assert Join(lines)[|Join(lines)| - 2..] == rest[|rest| - 2..];
    }
  }

  /** Non-empty header lines, an empty line and a body: the first blank line is the one that was put there. */
  lemma {:induction false} FirstBlankLine(lines: seq<string>, body: string)
    requires lines != [] && forall l | l in lines :: l != "" && NoLineBreak(l)
    ensures var m := Join(lines) + CRLF + body;
            BlankLineAt(m, |Join(lines)| - 2) && forall i | 0 <= i < |Join(lines)| - 2 :: !BlankLineAt(m, i)
    decreases |lines|
  {
    LineByLine(lines);
    if lines[1..] != [] {
      FirstBlankLine(lines[1..], body);
      NextLineIsText(lines[1..], body);
    }
    OneLineBefore(lines[0], lines[1..], body);
    JoinEnds(lines);
    LastBlankLine(Join(lines), body);
  }

  lemma LineByLine(lines: seq<string>)
    requires lines != [] && forall l | l in lines :: l != "" && NoLineBreak(l)
    ensures NoLineBreak(lines[0])
    ensures forall l | l in lines[1..] :: l != "" && NoLineBreak(l)
    ensures lines[1..] != [] ==> lines[1..][0] != "" && NoLineBreak(lines[1..][0])
  {
    assert lines[0] in lines;
    forall l | l in lines[1..]
      ensures l != "" && NoLineBreak(l)
    {
      assert l in lines;
    }
    if lines[1..] != [] {
      assert lines[1..][0] in lines[1..];
    }
  }

  /** A line in front of others brings no earlier blank line. */
  lemma OneLineBefore(first: string, later: seq<string>, body: string)
    requires NoLineBreak(first)
    requires var tail := Join(later) + CRLF + body;
             later != [] ==> |tail| > 0 && tail[0] != '\r'
                             && forall j | 0 <= j < |Join(later)| - 2 :: !BlankLineAt(tail, j)
    ensures forall i | 0 <= i < |first + CRLF + Join(later)| - 2 ::
              !BlankLineAt(first + CRLF + Join(later) + CRLF + body, i)
  {
    var tail := Join(later) + CRLF + body;
    assert first + CRLF + Join(later) + CRLF + body == first + (CRLF + tail);
    forall i | 0 <= i < |first + CRLF + Join(later)| - 2
      ensures !BlankLineAt(first + (CRLF + tail), i)
    {
      NotInside(first, tail, i, later != [], |Join(later)|);
    }
  }

  lemma LastBlankLine(text: string, body: string)
    requires |text| >= 2 && text[|text| - 2..] == CRLF
    ensures BlankLineAt(text + CRLF + body, |text| - 2)
  {
    var m := text + CRLF + body;
    assert m[|text| - 2..|text|] == text[|text| - 2..];
    assert m[|text|..|text| + 2] == CRLF;
  }

  lemma NextLineIsText(later: seq<string>, body: string)
    requires later != [] && later[0] != "" && NoLineBreak(later[0])
    ensures var tail := Join(later) + CRLF + body; |tail| > 0 && tail[0] != '\r'
  {
    assert (Join(later) + CRLF + body)[0] == later[0][0];
    assert later[0][0] in later[0];
  }

  /** No blank line starts in the first line or across its end. */
  lemma NotInside(first: string, tail: string, i: nat, more: bool, laterLength: nat)
    requires NoLineBreak(first) && (more ==> |tail| > 0 && tail[0] != '\r')
    requires if more then i < |first| + laterLength else i < |first|
    requires more ==> forall j | 0 <= j < laterLength - 2 :: !BlankLineAt(tail, j)
    ensures !BlankLineAt(first + (CRLF + tail), i)
  {
    var m := first + (CRLF + tail);
    if i < |first| {
      assert m[i] == first[i] && first[i] in first;
    } else if i == |first| {
      assert |m| > i + 2 ==> m[i + 2] == tail[0];
    } else if i == |first| + 1 {
      assert m[i] == '\n';
    } else {
      assert m == (first + CRLF) + tail;
      BlankLineShift(first + CRLF, tail, i - |first| - 2);
    }
  }

  lemma BlankLineShift(a: string, b: string, j: nat)
    ensures BlankLineAt(a + b, |a| + j) == BlankLineAt(b, j)
  {
  }

  // ---- every header line is one line

  lemma CleanConcat(a: string, b: string)
    ensures NoLineBreak(a + b) <==> NoLineBreak(a) && NoLineBreak(b)
  {
  }

  lemma CleanNumeral(b: nat, n: nat)
    requires 2 <= b <= 16
    ensures NoLineBreak(Numeral(b, n))
  {
    NumeralChars(b, n);
    assert '\r' !in DIGITS && '\n' !in DIGITS;
  }

  lemma CleanLocal(d: Draws)
    ensures NoLineBreak(Local(d))
  {
    CleanNumeral(10, 64 + d.octet1 % 64);
    CleanNumeral(10, 1 + d.octet2 % 254);
    CleanNumeral(10, 1 + d.octet3 % 254);
    CleanDotted(Dec(64 + d.octet1 % 64), Dec(1 + d.octet2 % 254), Dec(1 + d.octet3 % 254));
  }

  lemma CleanDotted(a: string, b: string, c: string)
    requires NoLineBreak(a) && NoLineBreak(b) && NoLineBreak(c)
    ensures NoLineBreak("100." + a + "." + b + "." + c)
  {
    CleanConcat("100.", a);
    CleanConcat("100." + a, ".");
    CleanConcat("100." + a + ".", b);
    CleanConcat("100." + a + "." + b, ".");
    CleanConcat("100." + a + "." + b + ".", c);
  }

  predicate HeaderLine(l: string)
  {
    l != "" && NoLineBreak(l)
  }

  lemma CleanParts(a: string, b: string, c: string, d: string)
    requires a != "" && NoLineBreak(a) && NoLineBreak(b) && NoLineBreak(c) && NoLineBreak(d)
    ensures HeaderLine(a + b + c + d) && HeaderLine(a + b + c)
  {
  }

  lemma FourLines(a: string, b: string, c: string, d: string)
    requires HeaderLine(a) && HeaderLine(b) && HeaderLine(c) && HeaderLine(d)
    ensures forall l | l in [a, b, c, d] :: HeaderLine(l)
  {
  }

  lemma CleanInviteLine(uri: string)
    requires NoLineBreak(uri)
    ensures HeaderLine(InviteLine(uri))
  {
    CleanParts("INVITE ", uri, " SIP/2.0", "");
  }

  lemma CleanViaLine(d: Draws)
    ensures HeaderLine(ViaLine(d))
  {
    CleanLocal(d);
    CleanNumeral(16, d.branch);
    CleanParts("Via: SIP/2.0/UDP ", Local(d), ";branch=z9hG4bK", Hex(d.branch));
  }

  lemma CleanFromLine(d: Draws)
    ensures HeaderLine(FromLine(d))
  {
    CleanLocal(d);
    CleanNumeral(16, d.tag);
    CleanParts("From: <sip:user@", Local(d), ">;tag=", Hex(d.tag));
  }

  lemma RequestTopLines(uri: string, d: Draws)
    requires NoLineBreak(uri)
    ensures forall l | l in RequestTop(uri, d) :: HeaderLine(l)
  {
    CleanInviteLine(uri);
    CleanViaLine(d);
    CleanFromLine(d);
    FourLines(InviteLine(uri), ViaLine(d), "Max-Forwards: 70", FromLine(d));
  }

  lemma CleanToLine(user: string, uri: string)
    requires NoLineBreak(user) && NoLineBreak(uri)
    ensures HeaderLine(ToLine(user, uri))
  {
    CleanParts("To: \"", user, "\" <", uri);
    CleanConcat("To: \"" + user + "\" <" + uri, ">");
  }

  lemma CleanCallIdLine(d: Draws)
    ensures HeaderLine(CallIdLine(d))
  {
    CleanLocal(d);
    CleanNumeral(16, d.callId);
    CleanParts("Call-ID: ", Hex(d.callId), "@", Local(d));
  }

  lemma CleanContactLine(d: Draws)
    ensures HeaderLine(ContactLine(d))
  {
    CleanLocal(d);
    CleanParts("Contact: <sip:user@", Local(d), ">", "");
  }

  lemma RequestRestLines(uri: string, d: Draws)
    requires NoLineBreak(uri) && |uri| >= 4
    ensures forall l | l in RequestRest(uri, d) :: HeaderLine(l)
  {
    CleanToLine(uri[4..], uri);
    CleanCallIdLine(d);
    CleanContactLine(d);
    FourLines(ToLine(uri[4..], uri), CallIdLine(d), "CSeq: 1 INVITE", ContactLine(d));
  }

  lemma CleanUserAgentLine()
    ensures HeaderLine(UserAgentLine())
  {
    CleanParts("User-Agent: PRD-IR92/18 ", "term-Generic/IMS-UE ", "device-type/smart-phone ", "mno-custom/none");
  }

  lemma ThreeLines(a: string, b: string, c: string)
    requires HeaderLine(a) && HeaderLine(b) && HeaderLine(c)
    ensures forall l | l in [a, b, c] :: HeaderLine(l)
  {
  }

  lemma ImsHeaderLines(ims: bool)
    ensures forall l | l in ImsHeaders(ims) :: HeaderLine(l)
  {
    if ims {
      CleanUserAgentLine();
      ThreeLines("Supported: 199, timer", "Session-Expires: 1800", UserAgentLine());
    }
  }

  lemma ContentHeaderLines(n: nat)
    ensures forall l | l in ContentLines(n) :: HeaderLine(l)
  {
    CleanNumeral(10, n);
    CleanConcat("Content-Length: ", Dec(n));
    assert HeaderLine("Content-Type: application/sdp");
  }

  lemma AllHeaderLines(uri: string, d: Draws)
    requires NoLineBreak(uri) && |uri| >= 4
    ensures forall l | l in Headers(uri, d) :: HeaderLine(l)
  {
    RequestTopLines(uri, d);
    RequestRestLines(uri, d);
    ImsHeaderLines(SipUri.IsImsSipUri(uri));
    ContentHeaderLines(|Body(uri, d)|);
  }

  predicate DeclaresLength(header: string, n: nat)
  {
    "Content-Length: " <= header && ParseUll(header[16..]) == Some(n)
  }

  /**
   The message starts with the header lines; its first blank line is the one after them; the last
   header is Content-Length, and the number there, read back, is the number of bytes that follow.
   */
  predicate WellFramed(m: string, headers: seq<string>)
  {
    && StartsWithHeaders(m, headers)
    && DeclaresLength(headers[|headers| - 1], |m| - (|Join(headers)| + |CRLF|))
  }

  predicate StartsWithHeaders(m: string, headers: seq<string>)
  {
    && headers != [] && Join(headers) + CRLF <= m && |Join(headers)| >= 2
    && BlankLineAt(m, |Join(headers)| - 2)
    && forall i | 0 <= i < |Join(headers)| - 2 :: !BlankLineAt(m, i)
  }

  lemma HeadersFirst(headers: seq<string>, body: string)
    requires headers != [] && forall l | l in headers :: l != "" && NoLineBreak(l)
    ensures StartsWithHeaders(Join(headers) + CRLF + body, headers)
    ensures |Join(headers) + CRLF + body| - (|Join(headers)| + |CRLF|) == |body|
  {
    JoinEnds(headers);
    FirstBlankLine(headers, body);
  }

  lemma Framed(headers: seq<string>, body: string)
    requires headers != [] && forall l | l in headers :: HeaderLine(l)
    requires DeclaresLength(headers[|headers| - 1], |body|)
    ensures WellFramed(Join(headers) + CRLF + body, headers)
  {
    HeadersFirst(headers, body);
  }

  lemma LengthReadsBack(n: nat)
    requires n <= ULLONG_MAX
    ensures DeclaresLength(ContentLines(n)[1], n)
  {
    EveryNumberHasNumerals(n);
    assert ("Content-Length: " + Dec(n))[16..] == Dec(n);
  }

  /** Content-Length is exact in every message, whatever the URI and the draws. */
  lemma ContentLengthIsExact(uri: string, d: Draws)
    requires NoLineBreak(uri) && |uri| >= 4
    ensures WellFramed(Message(uri, d), Headers(uri, d))
  {
    AllHeaderLines(uri, d);
    LastHeader(uri, d);
    Framed(Headers(uri, d), Body(uri, d));
  }

  lemma LastHeader(uri: string, d: Draws)
    requires |uri| >= 4
    ensures var headers := Headers(uri, d);
            headers != [] && DeclaresLength(headers[|headers| - 1], |Body(uri, d)|)
  {
    var n := |Body(uri, d)|;
    SdpLength(SipUri.IsImsSipUri(uri), d);
    LengthReadsBack(n);
    LastOfConcat(RequestTop(uri, d) + RequestRest(uri, d) + ImsHeaders(SipUri.IsImsSipUri(uri)), ContentLines(n));
  }

  lemma LastOfConcat(a: seq<string>, b: seq<string>)
    requires |b| == 2
    ensures (a + b)[|a + b| - 1] == b[1]
  {
  }

  /** Every message that make_sip_invite returns is framed that way, from a given URI or its own. */
  lemma EveryDecoyIsFramed(given: Option<string>, d: Draws)
    requires MakeSipInvite(given, d, BUFFLEN).Some?
    ensures |UriFor(given, d)| >= 4 && WellFramed(MakeSipInvite(given, d, BUFFLEN).value, Headers(UriFor(given, d), d))
  {
    FailsOnlyOnRejectedUri(given, d);
    UriIsOneLine(given, d);
    ContentLengthIsExact(UriFor(given, d), d);
  }

  lemma UriIsOneLine(given: Option<string>, d: Draws)
    requires given.None? || AcceptedUri(given.value)
    ensures NoLineBreak(UriFor(given, d))
  {
    if given.None? {
      CleanLocal(d);
      CleanConcat("sip:user@", Local(d));
    }
  }
}
