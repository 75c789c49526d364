/** fs_pkt6_parse: the walk over extension headers, and the grammar that it decides. */
module Ipv6Pkt {
  import opened Wrappers
  import opened Packets

  const HOP_BY_HOP := 0
  const DESTINATION_OPTIONS := 60
  const UDP := 17
  const MAX_EXTENSIONS := 16

  // ---- what the parser should accept, as a grammar

  /** A reading of a captured packet: fixed header, extension headers, UDP datagram, captured trailer. */
  datatype Derivation = Derivation(fixed: seq<byte>, exts: seq<seq<byte>>, udp: seq<byte>, trailing: seq<byte>)

  function Concat(exts: seq<seq<byte>>): seq<byte>
  {
    if exts == [] then [] else Concat(exts[..|exts| - 1]) + exts[|exts| - 1]
  }

  /** The next-header value that announces the header number `i`, or UDP after the last one. */
  function Announced(fixed: seq<byte>, exts: seq<seq<byte>>, i: nat): byte
    requires |fixed| == 40 && i <= |exts| && (i > 0 ==> exts[i - 1] != [])
  {
    if i == 0 then fixed[6] else exts[i - 1][0]
  }

  /** The length in bytes that a header's second byte stands for. */
  function HeaderLength(code: byte): nat
  {
    8 * (code as int + 1)
  }

  /** An options header is as long as its second byte says (section 4.3 of RFC 8200). */
  predicate OptionsHeader(e: seq<byte>)
  {
    |e| >= 2 && |e| == HeaderLength(e[1])
  }

  /** Only options headers, at most sixteen, and Hop-by-Hop only directly after the fixed header. */
  predicate ExtensionChain(fixed: seq<byte>, exts: seq<seq<byte>>)
    requires |fixed| == 40
  {
    && |exts| <= 16
    && (forall i | 0 <= i < |exts| :: OptionsHeader(exts[i]))
    && (forall i | 0 <= i < |exts| ::
          || Announced(fixed, exts, i) == DESTINATION_OPTIONS
          || (Announced(fixed, exts, i) == HOP_BY_HOP && i == 0))
  }

  predicate Derives(pkt: seq<byte>, d: Derivation)
  {
    && |d.fixed| == 40
    && pkt == d.fixed + Concat(d.exts) + d.udp + d.trailing
    && d.fixed[0] / 16 == 6
    && Word(d.fixed[4], d.fixed[5]) == |Concat(d.exts)| + |d.udp|
    && ExtensionChain(d.fixed, d.exts)
    && Announced(d.fixed, d.exts, |d.exts|) == UDP
    && |d.udp| >= 8
    && Word(d.udp[4], d.udp[5]) == |d.udp|
  }

  /** What the parser should return for a derivation. */
  function Reading(pkt: seq<byte>, d: Derivation): Parsed
    requires Derives(pkt, d)
  {
    ParsedAt(pkt, Inet6(d.fixed[8..24]), Inet6(d.fixed[24..40]), d.fixed[7], 40 + |Concat(d.exts)|, |d.udp| - 8)
  }

  // ---- facts about derivations

  lemma ConcatSnoc(exts: seq<seq<byte>>, e: seq<byte>)
    ensures Concat(exts + [e]) == Concat(exts) + e
  {
    assert (exts + [e])[..|exts|] == exts;
  }

  lemma {:induction false} ConcatGrows(exts: seq<seq<byte>>)
    requires forall i | 0 <= i < |exts| :: OptionsHeader(exts[i])
    ensures |Concat(exts)| >= 8 * |exts|
  {
    if exts != [] {
      ConcatGrows(exts[..|exts| - 1]);
    }
  }

  lemma {:induction false} ConcatPrefix(exts: seq<seq<byte>>, k: nat)
    requires k <= |exts|
    ensures Concat(exts[..k]) <= Concat(exts)
  {
    if k == |exts| {
      assert exts[..k] == exts;
    } else {
      var front := exts[..|exts| - 1];
      assert front[..k] == exts[..k];
      ConcatPrefix(front, k);
    }
  }

  /** Where the k-th header lies among the headers. */
  lemma HeaderAt(exts: seq<seq<byte>>, k: nat)
    requires k < |exts|
    ensures var start := |Concat(exts[..k])|;
            start + |exts[k]| <= |Concat(exts)| && Concat(exts)[start..start + |exts[k]|] == exts[k]
  {
    assert exts[..k + 1] == exts[..k] + [exts[k]];
    ConcatSnoc(exts[..k], exts[k]);
    ConcatPrefix(exts, k + 1);
    var start := |Concat(exts[..k])|;
    var upTo := Concat(exts[..k + 1]);
    assert upTo[start..start + |exts[k]|] == exts[k];
    assert upTo == Concat(exts)[..|upTo|];
  }

  /** Where a derivation's parts lie in the packet. */
  lemma PartsAt(pkt: seq<byte>, d: Derivation)
    requires Derives(pkt, d)
    ensures var n := |Concat(d.exts)|;
            && pkt[..40] == d.fixed && Word(pkt[4], pkt[5]) == n + |d.udp|
            && 40 + n + |d.udp| <= |pkt| && pkt[40..40 + n] == Concat(d.exts)
  {
  }

  lemma HeaderInPacket(pkt: seq<byte>, d: Derivation, k: nat)
    requires Derives(pkt, d) && k < |d.exts|
    ensures var e := d.exts[k];
            var off := 40 + |Concat(d.exts[..k])|;
            && off + |e| <= 40 + Word(pkt[4], pkt[5]) <= |pkt|
            && e == pkt[off..off + |e|]
  {
    PartsAt(pkt, d);
    HeaderAt(d.exts, k);
    var n := |Concat(d.exts)|;
    var start := |Concat(d.exts[..k])|;
    assert pkt[40..40 + n][start..start + |d.exts[k]|] == pkt[40 + start..40 + start + |d.exts[k]|];
  }

  /** A prefix of the headers announces the same thing next. */
  lemma KindAt(pkt: seq<byte>, d: Derivation, done: seq<seq<byte>>)
    requires Derives(pkt, d) && done <= d.exts
    ensures forall i | 0 <= i < |done| :: OptionsHeader(done[i])
    ensures Announced(pkt[..40], done, |done|) == Announced(d.fixed, d.exts, |done|)
  {
    PartsAt(pkt, d);
    assert forall i | 0 <= i < |done| :: done[i] == d.exts[i];
  }

  /** After `done` of a derivation's headers, the packet's own bytes determine the next one. */
  lemma NextHeader(pkt: seq<byte>, d: Derivation, done: seq<seq<byte>>)
    requires Derives(pkt, d) && done <= d.exts && |done| < |d.exts|
    ensures var e := d.exts[|done|];
            var off := 40 + |Concat(done)|;
            && off + 2 <= off + |e| <= 40 + Word(pkt[4], pkt[5]) <= |pkt|
            && e == pkt[off..off + |e|] && |e| == HeaderLength(pkt[off + 1])
  {
    var k := |done|;
    assert done == d.exts[..k];
    HeaderInPacket(pkt, d, k);
    var e := d.exts[k];
    assert OptionsHeader(e);
    var off := 40 + |Concat(done)|;
    assert pkt[off..off + |e|][1] == pkt[off + 1];
  }

  lemma NextKind(pkt: seq<byte>, d: Derivation, done: seq<seq<byte>>)
    requires Derives(pkt, d) && done <= d.exts && |done| < |d.exts|
    ensures forall i | 0 <= i < |done| :: OptionsHeader(done[i])
    ensures |done| < MAX_EXTENSIONS
    ensures var kind := Announced(pkt[..40], done, |done|);
            kind == DESTINATION_OPTIONS || (kind == HOP_BY_HOP && done == [])
  {
    KindAt(pkt, d, done);
  }

  /** The headers end where UDP is announced, never earlier. */
  lemma ChainEnds(pkt: seq<byte>, d: Derivation, done: seq<seq<byte>>)
    requires Derives(pkt, d) && done <= d.exts
    ensures forall i | 0 <= i < |done| :: OptionsHeader(done[i])
    ensures d.exts == done <==> Announced(pkt[..40], done, |done|) == UDP
  {
    KindAt(pkt, d, done);
    if |done| < |d.exts| {
      NextKind(pkt, d, done);
    }
  }

  /** A packet has at most one derivation. */
  lemma DerivationIsUnique(pkt: seq<byte>, a: Derivation, b: Derivation)
    requires Derives(pkt, a) && Derives(pkt, b)
    ensures a == b
  {
    SameHeaders(pkt, a, b, 0);
    SameEnd(pkt, a, a.exts);
    SameEnd(pkt, b, a.exts);
  }

  lemma {:induction false} SameHeaders(pkt: seq<byte>, a: Derivation, b: Derivation, k: nat)
    requires Derives(pkt, a) && Derives(pkt, b)
    requires k <= |a.exts| && k <= |b.exts| && a.exts[..k] == b.exts[..k]
    ensures a.exts == b.exts
    decreases |a.exts| - k
  {
    var done := a.exts[..k];
    ChainEnds(pkt, a, done);
    ChainEnds(pkt, b, done);
    if k < |a.exts| {
      NextHeader(pkt, a, done);
      NextHeader(pkt, b, done);
      assert a.exts[..k + 1] == done + [a.exts[k]];
      assert b.exts[..k + 1] == done + [b.exts[k]];
      SameHeaders(pkt, a, b, k + 1);
    }
  }

  lemma SameEnd(pkt: seq<byte>, d: Derivation, exts: seq<seq<byte>>)
    requires Derives(pkt, d) && d.exts == exts
    ensures var end := 40 + Word(pkt[4], pkt[5]);
            && 40 + |Concat(exts)| <= end <= |pkt|
            && d == Derivation(pkt[..40], exts, pkt[40 + |Concat(exts)|..end], pkt[end..])
  {
    assert pkt[..40] == d.fixed;
  }

  /** Captured bytes after the declared length change nothing. */
  lemma TrailingIsIgnored(pkt: seq<byte>, d: Derivation, more: seq<byte>)
    requires Derives(pkt, d)
    ensures var d' := d.(trailing := d.trailing + more);
            Derives(pkt + more, d') && Reading(pkt + more, d') == Reading(pkt, d)
  {
    assert pkt + more == d.fixed + Concat(d.exts) + d.udp + (d.trailing + more);
  }

  /** Nor do they make an unacceptable packet acceptable, once the declared length was captured. */
  lemma TrailingAddsNothing(pkt: seq<byte>, more: seq<byte>, d: Derivation)
    requires |pkt| >= 40 && 40 + Word(pkt[4], pkt[5]) <= |pkt|
    requires Derives(pkt + more, d)
    ensures exists d' :: Derives(pkt, d')
  {
    SameEnd(pkt + more, d, d.exts);
    var n := |d.trailing| - |more|;
    var d' := d.(trailing := d.trailing[..n]);
    assert pkt == d.fixed + Concat(d.exts) + d.udp + d.trailing[..n];
    assert Derives(pkt, d');
  }

  // ---- the parser

  /**
   The walk accepts exactly the packets that the grammar derives, and returns what the derivation
   says. Every byte is read within the declared length.
   */
  method Parse(pkt: seq<byte>) returns (res: Option<Parsed>)
    ensures res.Some? <==> exists d :: Derives(pkt, d)
    ensures forall d | Derives(pkt, d) :: res == Some(Reading(pkt, d))
  {
    if |pkt| < 40 {
      return None;
    }
    var remaining: nat := Word(pkt[4], pkt[5]);
    var offset: nat := 40;
    if pkt[0] / 16 != 6 || remaining == 0 || remaining > |pkt| - offset {
      NoneIfShort(pkt);
      return None;
    }
    var ok;
    ghost var done;
    ok, offset, done := WalkHeaders(pkt);
    if !ok {
      return None;
    }
    remaining := 40 + Word(pkt[4], pkt[5]) - offset;
    if remaining < 8 {
      Rejected(pkt, done);
      return None;
    }
    var udpLen := Word(pkt[offset + 4], pkt[offset + 5]);
    if udpLen < 8 || udpLen != remaining {
      Rejected(pkt, done);
      return None;
    }
    res := Some(ParsedAt(pkt, Inet6(pkt[8..24]), Inet6(pkt[24..40]), pkt[7], offset, udpLen - 8));
    Accepted(pkt, done);
  }

  /** Skips the options headers; `offset` is where UDP starts. */
  method WalkHeaders(pkt: seq<byte>) returns (ok: bool, offset: nat, ghost done: seq<seq<byte>>)
    requires |pkt| >= 40 && 40 + Word(pkt[4], pkt[5]) <= |pkt|
    ensures !ok ==> forall d :: !Derives(pkt, d)
    ensures ok ==>
              && 40 <= offset <= 40 + Word(pkt[4], pkt[5])
              && Walked(pkt, done, offset) && Announced(pkt[..40], done, |done|) == UDP
  {
    offset := 40;
    var remaining := Word(pkt[4], pkt[5]);
    var nextHeader := pkt[6];
    var extensions := 0;
    done := [];
    while nextHeader != UDP
      invariant 40 <= offset && offset + remaining == 40 + Word(pkt[4], pkt[5])
      invariant extensions == |done| && Walked(pkt, done, offset)
      invariant nextHeader == Announced(pkt[..40], done, |done|)
      decreases remaining
    {
      extensions := extensions + 1;
      if || (nextHeader != HOP_BY_HOP && nextHeader != DESTINATION_OPTIONS)
         || (nextHeader == HOP_BY_HOP && offset != 40)
         || extensions > MAX_EXTENSIONS || remaining < 2 {
        NoneIfNoNext(pkt, done, offset);
        return false, offset, done;
      }
      var extLen := HeaderLength(pkt[offset + 1]);
      if extLen > remaining {
        NoneIfNoNext(pkt, done, offset);
        return false, offset, done;
      }
      OneMore(pkt, done, offset, offset + extLen);
      done := done + [pkt[offset..offset + extLen]];
      nextHeader := pkt[offset];
      offset := offset + extLen;
      remaining := remaining - extLen;
    }
    ok := true;
  }

  /** Whether the UDP header at the end of the walk is there and declares exactly what is left. */
  predicate UdpFits(pkt: seq<byte>, off: nat, end: nat)
  {
    off + 8 <= end <= |pkt| && Word(pkt[off + 4], pkt[off + 5]) == end - off
  }

  lemma Accepted(pkt: seq<byte>, done: seq<seq<byte>>)
    requires |pkt| >= 40 && pkt[0] / 16 == 6 && 40 + Word(pkt[4], pkt[5]) <= |pkt|
    requires ExtensionChain(pkt[..40], done) && Announced(pkt[..40], done, |done|) == UDP
    requires 40 + |Concat(done)| <= |pkt| && pkt[40..40 + |Concat(done)|] == Concat(done)
    requires UdpFits(pkt, 40 + |Concat(done)|, 40 + Word(pkt[4], pkt[5]))
    ensures exists d :: Derives(pkt, d)
    ensures forall d | Derives(pkt, d) ::
              var off, end := 40 + |Concat(done)|, 40 + Word(pkt[4], pkt[5]);
              Reading(pkt, d) == ParsedAt(pkt, Inet6(pkt[8..24]), Inet6(pkt[24..40]), pkt[7], off, end - off - 8)
  {
    var d := Witness(pkt, done);
    forall d' | Derives(pkt, d')
      ensures d' == d
    {
      DerivationIsUnique(pkt, d, d');
    }
    assert pkt[..40][8..24] == pkt[8..24] && pkt[..40][24..40] == pkt[24..40];
  }

  lemma Witness(pkt: seq<byte>, done: seq<seq<byte>>) returns (d: Derivation)
    requires |pkt| >= 40 && pkt[0] / 16 == 6 && 40 + Word(pkt[4], pkt[5]) <= |pkt|
    requires ExtensionChain(pkt[..40], done) && Announced(pkt[..40], done, |done|) == UDP
    requires 40 + |Concat(done)| <= |pkt| && pkt[40..40 + |Concat(done)|] == Concat(done)
    requires UdpFits(pkt, 40 + |Concat(done)|, 40 + Word(pkt[4], pkt[5]))
    ensures Derives(pkt, d) && d.fixed == pkt[..40] && d.exts == done
    ensures |d.udp| == Word(pkt[4], pkt[5]) - |Concat(done)|
  {
    var off, end := 40 + |Concat(done)|, 40 + Word(pkt[4], pkt[5]);
    d := Derivation(pkt[..40], done, pkt[off..end], pkt[end..]);
    assert pkt == pkt[..40] + pkt[40..off] + pkt[off..end] + pkt[end..];
    assert pkt[off..end][4] == pkt[off + 4] && pkt[off..end][5] == pkt[off + 5];
  }

  lemma DerivedUdpFits(pkt: seq<byte>, d: Derivation)
    requires Derives(pkt, d)
    ensures UdpFits(pkt, 40 + |Concat(d.exts)|, 40 + Word(pkt[4], pkt[5]))
  {
    PartsAt(pkt, d);
    var off := 40 + |Concat(d.exts)|;
    assert d.udp == pkt[off..off + |d.udp|];
    assert d.udp[4] == pkt[off + 4] && d.udp[5] == pkt[off + 5];
  }

  lemma Rejected(pkt: seq<byte>, done: seq<seq<byte>>)
    requires |pkt| >= 40 && forall d | Derives(pkt, d) :: done <= d.exts
    requires ExtensionChain(pkt[..40], done) && Announced(pkt[..40], done, |done|) == UDP
    requires !UdpFits(pkt, 40 + |Concat(done)|, 40 + Word(pkt[4], pkt[5]))
    ensures forall d :: !Derives(pkt, d)
  {
    forall d | Derives(pkt, d)
      ensures false
    {
      ChainEnds(pkt, d, done);
      DerivedUdpFits(pkt, d);
    }
  }

  lemma NoneIfShort(pkt: seq<byte>)
    requires |pkt| >= 40
    requires pkt[0] / 16 != 6 || Word(pkt[4], pkt[5]) == 0 || 40 + Word(pkt[4], pkt[5]) > |pkt|
    ensures forall d :: !Derives(pkt, d)
  {
    forall d | Derives(pkt, d)
      ensures false
    {
      SameEnd(pkt, d, d.exts);
    }
  }

  /** The walk can go on: a next header of an allowed kind, complete within the declared length. */
  predicate CanGoOn(pkt: seq<byte>, kind: byte, count: nat, off: nat)
    requires |pkt| >= 40 && 40 + Word(pkt[4], pkt[5]) <= |pkt|
  {
    var end := 40 + Word(pkt[4], pkt[5]);
    && (kind == DESTINATION_OPTIONS || (kind == HOP_BY_HOP && off == 40))
    && count < MAX_EXTENSIONS
    && off + 2 <= end && off + HeaderLength(pkt[off + 1]) <= end
  }

  /** No derivation continues past `done` when the walk cannot. */
  lemma NoneIfNoNext(pkt: seq<byte>, done: seq<seq<byte>>, off: nat)
    requires |pkt| >= 40 && 40 + Word(pkt[4], pkt[5]) <= |pkt|
    requires Walked(pkt, done, off) && Announced(pkt[..40], done, |done|) != UDP
    requires !CanGoOn(pkt, Announced(pkt[..40], done, |done|), |done|, off)
    ensures forall d :: !Derives(pkt, d)
  {
    forall d | Derives(pkt, d)
      ensures false
    {
      ChainEnds(pkt, d, done);
      NextKind(pkt, d, done);
      NextHeader(pkt, d, done);
    }
  }

  /** The bytes of one more header. */
  lemma ConcatAdvances(pkt: seq<byte>, done: seq<seq<byte>>, off: nat, end: nat)
    requires 40 <= off <= end <= |pkt| && pkt[40..off] == Concat(done)
    ensures Concat(done + [pkt[off..end]]) == pkt[40..end]
  {
    ConcatSnoc(done, pkt[off..end]);
    assert pkt[40..off] + pkt[off..end] == pkt[40..end];
  }

  /** One more header is a prefix of every derivation still. */
  lemma PrefixesGrow(pkt: seq<byte>, done: seq<seq<byte>>, off: nat, end: nat)
    requires 40 <= off && off + 2 <= end <= |pkt|
    requires off == 40 + |Concat(done)| && end == off + HeaderLength(pkt[off + 1])
    requires ExtensionChain(pkt[..40], done) && Announced(pkt[..40], done, |done|) != UDP
    requires forall d | Derives(pkt, d) :: done <= d.exts
    ensures forall d | Derives(pkt, d) :: done + [pkt[off..end]] <= d.exts
  {
    var e := pkt[off..off + HeaderLength(pkt[off + 1])];
    assert forall i | 0 <= i < |done| :: OptionsHeader(done[i]);
    forall d | Derives(pkt, d)
      ensures done + [e] <= d.exts
    {
      PrefixGrows(pkt, d, done, e);
    }
  }

  /** The loop's step: the walk covers one more header. */
  lemma OneMore(pkt: seq<byte>, done: seq<seq<byte>>, off: nat, end: nat)
    requires 40 <= off && off + 2 <= end <= |pkt|
    requires Walked(pkt, done, off) && end == off + HeaderLength(pkt[off + 1])
    requires 40 + Word(pkt[4], pkt[5]) <= |pkt| && CanGoOn(pkt, Announced(pkt[..40], done, |done|), |done|, off)
    ensures var next := done + [pkt[off..end]];
            Walked(pkt, next, end) && Announced(pkt[..40], next, |next|) == pkt[off]
  {
    var e := pkt[off..end];
    var next := done + [e];
    HeaderBytes(pkt, off, end);
    assert ExtensionChain(pkt[..40], next) by {
      ConcatGrows(done);
      ChainGrows(pkt[..40], done, e);
    }
    assert end == 40 + |Concat(next)| && pkt[40..end] == Concat(next) by {
      ConcatAdvances(pkt, done, off, end);
    }
    assert forall d | Derives(pkt, d) :: next <= d.exts by {
      PrefixesGrow(pkt, done, off, end);
    }
  }

  /** The header that the walk skips is an options header, and names the next one. */
  lemma HeaderBytes(pkt: seq<byte>, off: nat, end: nat)
    requires off + 2 <= end <= |pkt| && end == off + HeaderLength(pkt[off + 1])
    ensures OptionsHeader(pkt[off..end]) && pkt[off..end][0] == pkt[off]
  {
    assert pkt[off..end][1] == pkt[off + 1];
  }

  /** The headers before `off` form a chain, and every derivation starts with them. */
  ghost predicate Walked(pkt: seq<byte>, done: seq<seq<byte>>, off: nat)
    requires |pkt| >= 40
  {
    && ExtensionChain(pkt[..40], done)
    && 40 <= off <= |pkt| && off == 40 + |Concat(done)| && pkt[40..off] == Concat(done)
    && forall d | Derives(pkt, d) :: done <= d.exts
  }

  lemma PrefixGrows(pkt: seq<byte>, d: Derivation, done: seq<seq<byte>>, e: seq<byte>)
    requires Derives(pkt, d) && done <= d.exts
    requires forall i | 0 <= i < |done| :: OptionsHeader(done[i])
    requires Announced(pkt[..40], done, |done|) != UDP
    requires var off := 40 + |Concat(done)|;
             && off + 2 <= |pkt| && off + HeaderLength(pkt[off + 1]) <= |pkt|
             && e == pkt[off..off + HeaderLength(pkt[off + 1])]
    ensures done + [e] <= d.exts
  {
    ChainEnds(pkt, d, done);
    NextHeader(pkt, d, done);
    assert d.exts[..|done| + 1] == done + [e];
  }

  lemma ChainGrows(fixed: seq<byte>, done: seq<seq<byte>>, e: seq<byte>)
    requires |fixed| == 40 && ExtensionChain(fixed, done) && |done| < MAX_EXTENSIONS && OptionsHeader(e)
    requires || Announced(fixed, done, |done|) == DESTINATION_OPTIONS
             || (Announced(fixed, done, |done|) == HOP_BY_HOP && done == [])
    ensures ExtensionChain(fixed, done + [e])
  {
    forall i | 0 <= i <= |done|
      ensures Announced(fixed, done + [e], i) == Announced(fixed, done, i)
    {
    }
  }
}
