/** Which SIP URIs get the IMS form of the message: is_ims_sip_uri, and a grammar it agrees with. */
module SipUri {
  import opened Wrappers

  const SUFFIX := ".3gppnetwork.org"
  const CARRIER_HOST_A := "sipcq16.xnq.r.10086.cn"
  const CARRIER_HOST_B := "sipsc109.r01.rcs.189.cn"

  function LowerChar(c: char): char
  {
    if 'A' <= c <= 'Z' then (c as int + 32) as char else c
  }

  function Lower(s: string): string
  {
    seq(|s|, i requires 0 <= i < |s| => LowerChar(s[i]))
  }

  /** The position of the first character of `s` that is in `cs`, or the length of `s`. */
  function FirstOf(s: string, cs: set<char>): (n: nat)
    ensures n <= |s|
    ensures n < |s| ==> s[n] in cs
    ensures forall i | 0 <= i < n :: s[i] !in cs
  {
    if s == "" || s[0] in cs then 0 else 1 + FirstOf(s[1..], cs)
  }

  function HostEquals(host: string, expected: string): bool
  {
    |host| == |expected| && Lower(host) == Lower(expected)
  }

  /** A host without its one trailing dot. */
  function WithoutDot(host: string): string
  {
    if host != "" && host[|host| - 1] == '.' then host[..|host| - 1] else host
  }

  /** The text before parameters and headers. */
  function Authority(rest: string): string
  {
    rest[..FirstOf(rest, {';', '?'})]
  }

  function AfterUser(authority: string): string
  {
    var at := FirstOf(authority, {'@'});
    if at < |authority| then authority[at + 1..] else authority
  }

  function BeforePort(hostPort: string): string
  {
    hostPort[..FirstOf(hostPort, {':'})]
  }

  predicate ImsName(host: string)
  {
    || HostEquals(host, CARRIER_HOST_A) || HostEquals(host, CARRIER_HOST_B)
    || (|host| > |SUFFIX| && Lower(host[|host| - |SUFFIX|..]) == Lower(SUFFIX))
  }

  predicate IsImsSipUri(uri: string)
  {
    "sip:" <= uri &&
    var hostPort := AfterUser(Authority(uri[4..]));
    hostPort != "" && hostPort[0] != '[' && ImsName(WithoutDot(BeforePort(hostPort)))
  }

  // ---- the grammar

  /** sip:[user@]host[:port][;parameters or ?headers] */
  datatype Parts = Parts(user: Option<string>, host: string, port: string, tail: string)

  predicate Free(s: string, cs: set<char>)
  {
    forall c | c in s :: c !in cs
  }

  function UserPart(p: Parts): string
  {
    if p.user.Some? then p.user.value + "@" else ""
  }

  function Text(p: Parts): string
  {
    "sip:" + (UserPart(p) + (p.host + p.port) + p.tail)
  }

  predicate WellFormed(p: Parts)
  {
    && (p.user.Some? ==> Free(p.user.value, {'@', ';', '?'}))
    && Free(p.host, {':', ';', '?'}) && (p.user.None? ==> Free(p.host, {'@'}))
    && (p.port != "" ==> p.port[0] == ':') && Free(p.port, {';', '?'}) && (p.user.None? ==> Free(p.port, {'@'}))
    && (p.tail != "" ==> p.tail[0] == ';' || p.tail[0] == '?')
  }

  /** One of the two carrier hosts, or something under 3gppnetwork.org, in either case. */
  ghost predicate ImsHost(host: string)
  {
    var h := Lower(WithoutDot(host));
    || h == Lower(CARRIER_HOST_A)
    || h == Lower(CARRIER_HOST_B)
    || (exists front: string :: front != "" && h == front + Lower(SUFFIX))
  }

  lemma ImsNameIsImsHost(host: string)
    ensures ImsName(WithoutDot(host)) <==> ImsHost(host)
  {
    var d := WithoutDot(host);
    var h := Lower(d);
    var suffix := Lower(SUFFIX);
    assert |h| == |d| && |suffix| == |SUFFIX|;
    if |d| > |SUFFIX| {
      assert Lower(d[|d| - |SUFFIX|..]) == h[|d| - |SUFFIX|..];
      assert h == h[..|d| - |SUFFIX|] + h[|d| - |SUFFIX|..];
    }
    if front: string :| front != "" && h == front + suffix {
      assert h[|front|..] == suffix;
    }
  }

  lemma FirstOfConcat(a: string, b: string, cs: set<char>)
    requires Free(a, cs) && (b != "" ==> b[0] in cs)
    ensures FirstOf(a + b, cs) == |a|
  {
    forall i | 0 <= i < |a|
      ensures (a + b)[i] !in cs
    {
      assert a[i] in a;
    }
    assert b != "" ==> (a + b)[|a|] == b[0];
  }

  lemma FreeConcat(a: string, b: string, cs: set<char>)
    ensures Free(a + b, cs) <==> Free(a, cs) && Free(b, cs)
  {
    assert forall c :: c in a + b <==> c in a || c in b;
  }

  lemma CutTail(authority: string, tail: string)
    requires Free(authority, {';', '?'}) && (tail != "" ==> tail[0] == ';' || tail[0] == '?')
    ensures Authority(authority + tail) == authority
  {
    FirstOfConcat(authority, tail, {';', '?'});
  }

  lemma CutUser(user: string, hostPort: string)
    requires Free(user, {'@'})
    ensures AfterUser(user + "@" + hostPort) == hostPort
  {
    assert user + "@" + hostPort == user + ("@" + hostPort);
    FirstOfConcat(user, "@" + hostPort, {'@'});
  }

  lemma CutNoUser(hostPort: string)
    requires Free(hostPort, {'@'})
    ensures AfterUser(hostPort) == hostPort
  {
    assert hostPort + "" == hostPort;
    FirstOfConcat(hostPort, "", {'@'});
  }

  lemma CutPort(host: string, port: string)
    requires Free(host, {':'}) && (port != "" ==> port[0] == ':')
    ensures BeforePort(host + port) == host
  {
    FirstOfConcat(host, port, {':'});
  }

  lemma FewerForbidden(s: string, cs: set<char>, ds: set<char>)
    requires Free(s, cs) && ds <= cs
    ensures Free(s, ds)
  {
  }

  /** The classifier cuts a well-formed URI exactly into its parts. */
  lemma CutsIntoParts(p: Parts)
    requires WellFormed(p)
    ensures "sip:" <= Text(p) && AfterUser(Authority(Text(p)[4..])) == p.host + p.port
    ensures BeforePort(p.host + p.port) == p.host
  {
    var hostPort := p.host + p.port;
    var authority := UserPart(p) + hostPort;
    assert Text(p)[4..] == authority + p.tail;
    FewerForbidden(p.host, {':', ';', '?'}, {';', '?'});
    FewerForbidden(p.host, {':', ';', '?'}, {':'});
    FreeConcat(p.host, p.port, {';', '?'});
    FreeConcat(UserPart(p), hostPort, {';', '?'});
    if p.user.Some? {
      FewerForbidden(p.user.value, {'@', ';', '?'}, {';', '?'});
      FewerForbidden(p.user.value, {'@', ';', '?'}, {'@'});
      FreeConcat(p.user.value, "@", {';', '?'});
      CutUser(p.user.value, hostPort);
    } else {
      FreeConcat(p.host, p.port, {'@'});
      CutNoUser(hostPort);
      assert authority == hostPort;
    }
    CutTail(authority, p.tail);
    CutPort(p.host, p.port);
  }

  /** On a well-formed URI the classifier looks at nothing but the host. */
  lemma OnlyTheHostMatters(p: Parts)
    requires WellFormed(p)
    ensures IsImsSipUri(Text(p)) <==>
            p.host + p.port != "" && (p.host + p.port)[0] != '[' && ImsHost(p.host)
  {
    CutsIntoParts(p);
    ImsNameIsImsHost(p.host);
  }

  /** Host, port and tail of the text behind the user. */
  function SplitRest(user: Option<string>, hostPort: string, tail: string): Parts
  {
    var colon := FirstOf(hostPort, {':'});
    Parts(user, hostPort[..colon], hostPort[colon..], tail)
  }

  lemma SplitRestMeans(user: Option<string>, hostPort: string, tail: string)
    requires Free(hostPort, {';', '?'}) && (user.None? ==> Free(hostPort, {'@'}))
    requires user.Some? ==> Free(user.value, {'@', ';', '?'})
    requires tail != "" ==> tail[0] == ';' || tail[0] == '?'
    ensures var p := SplitRest(user, hostPort, tail);
            WellFormed(p) && p.host + p.port == hostPort
  {
    var colon := FirstOf(hostPort, {':'});
    assert hostPort == hostPort[..colon] + hostPort[colon..];
    FreeConcat(hostPort[..colon], hostPort[colon..], {';', '?'});
    FreeConcat(hostPort[..colon], hostPort[colon..], {'@'});
  }

  lemma AuthorityParts(authority: string, tail: string) returns (p: Parts)
    requires Free(authority, {';', '?'}) && (tail != "" ==> tail[0] == ';' || tail[0] == '?')
    ensures WellFormed(p) && Text(p) == "sip:" + (authority + tail)
  {
    var at := FirstOf(authority, {'@'});
    if at < |authority| {
      var user, hostPort := authority[..at], authority[at + 1..];
      assert authority == user + "@" + hostPort;
      FreeConcat(user + "@", hostPort, {';', '?'});
      FreeConcat(user, "@", {';', '?'});
      SplitRestMeans(Some(user), hostPort, tail);
      p := SplitRest(Some(user), hostPort, tail);
    } else {
      SplitRestMeans(None, authority, tail);
      p := SplitRest(None, authority, tail);
    }
  }

  /** Every text that starts with sip: has parts. */
  lemma EveryUriHasParts(uri: string) returns (p: Parts)
    requires "sip:" <= uri
    ensures WellFormed(p) && Text(p) == uri
  {
    var rest := uri[4..];
    var end := FirstOf(rest, {';', '?'});
    p := AuthorityParts(rest[..end], rest[end..]);
    assert rest == rest[..end] + rest[end..];
    assert uri == "sip:" + rest;
  }

  /** The parts of a URI whose host is not an IPv6 literal. */
  predicate Spells(p: Parts, uri: string)
  {
    WellFormed(p) && Text(p) == uri && (p.host + p.port != "" ==> (p.host + p.port)[0] != '[')
  }

  /** The classifier decides exactly the grammar. */
  lemma ClassifierIsTheGrammar(uri: string)
    ensures IsImsSipUri(uri) <==> exists p :: Spells(p, uri) && ImsHost(p.host)
  {
    if IsImsSipUri(uri) {
      var p := EveryUriHasParts(uri);
      OnlyTheHostMatters(p);
      assert Spells(p, uri);
    }
    if p :| Spells(p, uri) && ImsHost(p.host) {
      ImsHostIsNotEmpty(p.host);
      OnlyTheHostMatters(p);
    }
  }

  lemma ImsHostIsNotEmpty(host: string)
    ensures ImsHost(host) ==> host != ""
  {
    assert |Lower(WithoutDot(host))| <= |host|;
    assert |Lower(CARRIER_HOST_A)| > 0 && |Lower(CARRIER_HOST_B)| > 0;
  }

  lemma NoPrefixAcrossTail(uri: string, more: string)
    requires more != "" && more[0] !in "sip:" && "sip:" <= uri + more
    ensures "sip:" <= uri
  {
    assert (uri + more)[|uri|] == more[0];
    assert forall i | 0 <= i < 4 :: "sip:"[i] in "sip:";
  }

  /** Parameters or headers put behind a URI do not change its class. */
  lemma AppendedTailIsIgnored(uri: string, more: string)
    requires more != "" && (more[0] == ';' || more[0] == '?')
    ensures IsImsSipUri(uri + more) == IsImsSipUri(uri)
  {
    if "sip:" <= uri {
      var p := EveryUriHasParts(uri);
      var p' := p.(tail := p.tail + more);
      assert Text(p') == uri + more;
      OnlyTheHostMatters(p);
      OnlyTheHostMatters(p');
    } else if "sip:" <= uri + more {
      NoPrefixAcrossTail(uri, more);
    }
  }

  /** Nor does another user, as long as it has no character that would end it. */
  lemma UserIsIgnored(u: string, v: string, rest: string)
    requires Free(u, {'@', ';', '?'}) && Free(v, {'@', ';', '?'})
    ensures IsImsSipUri("sip:" + u + "@" + rest) == IsImsSipUri("sip:" + v + "@" + rest)
  {
    var end := FirstOf(rest, {';', '?'});
    assert rest == rest[..end] + rest[end..];
    SplitRestMeans(Some(u), rest[..end], rest[end..]);
    SplitRestMeans(Some(v), rest[..end], rest[end..]);
    var p := SplitRest(Some(u), rest[..end], rest[end..]);
    var q := p.(user := Some(v));
    TextWithUser(p, u, rest);
    TextWithUser(q, v, rest);
    OnlyTheHostMatters(p);
    OnlyTheHostMatters(q);
  }

  lemma TextWithUser(p: Parts, u: string, rest: string)
    requires p.user == Some(u) && rest == (p.host + p.port) + p.tail
    ensures Text(p) == "sip:" + u + "@" + rest
  {
  }
}
