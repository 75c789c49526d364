/** What holds for every command line that the program accepts. */
module Guarantees {
  import opened Wrappers
  import opened Netfilter
  import opened Packets
  import opened PayloadList
  import opened Decoys
  import opened Options
  import opened Sockets
  import opened RawSend
  import opened NfQueue
  import opened Trace
  import opened Program
  import Context
  import Ipv4Pkt
  import Ipv6Pkt
  import Payload
  import Sip = SipMessage
  import SipContent
  import Ipt = Iptables
  import Nft = Nftables
  import Backends

  /** t was sent for message i. */
  predicate SentFor(states: seq<Snapshot>, i: nat, t: Transmission)
    requires i + 1 < |states|
  {
    |states[i].sent| <= |states[i + 1].sent| && t in states[i + 1].sent[|states[i].sent|..]
  }

  // ---- which messages get decoys, read off the command line

  /** A direction or family that is given alone is the only one. */
  predicate ServesDirection(opts: seq<Opt>, outgoing: bool)
  {
    if outgoing then Flag(Inbound) in opts || Flag(Outbound) !in opts
    else Flag(Outbound) in opts || Flag(Inbound) !in opts
  }

  predicate ServesFamily(opts: seq<Opt>, fam: Family)
  {
    if fam == V4 then Flag(Ipv4) in opts || Flag(Ipv6) !in opts
    else Flag(Ipv6) in opts || Flag(Ipv4) !in opts
  }

  /** A message that reaches the handler whole, and whose packet the grammar of a served family reads as p. */
  ghost predicate ReadsAs(opts: seq<Opt>, m: Message, p: Parsed)
  {
    && m.header.Some? && m.payload.Some? && (m.outdev != 0 || m.indev != 0) && (m.hw.Some? ==> m.hw.value.len <= 8)
    && var pkt := m.payload.value;
       match m.header.value.hwProtocol
       case 0x0800 => ServesFamily(opts, V4) && exists d :: Ipv4Pkt.Derives(pkt, d) && p == Ipv4Pkt.Reading(pkt, d)
       case 0x86DD => ServesFamily(opts, V6) && exists d :: Ipv6Pkt.Derives(pkt, d) && p == Ipv6Pkt.Reading(pkt, d)
       case _ => false
  }

  lemma Read4Means(pkt: seq<byte>, p: Parsed)
    ensures Read4(pkt) == Some(p) <==> exists d :: Ipv4Pkt.Derives(pkt, d) && p == Ipv4Pkt.Reading(pkt, d)
  {
    forall d, d' | Ipv4Pkt.Derives(pkt, d) && Ipv4Pkt.Derives(pkt, d')
      ensures d == d'
    {
      Ipv4Pkt.DerivationIsUnique(pkt, d, d');
    }
  }

  lemma Read6Means(pkt: seq<byte>, p: Parsed)
    ensures Read6(pkt) == Some(p) <==> exists d :: Ipv6Pkt.Derives(pkt, d) && p == Ipv6Pkt.Reading(pkt, d)
  {
    forall d, d' | Ipv6Pkt.Derives(pkt, d) && Ipv6Pkt.Derives(pkt, d')
      ensures d == d'
    {
      Ipv6Pkt.DerivationIsUnique(pkt, d, d');
    }
  }

  /** What the handler reads in a message is what the grammars say. */
  lemma HandlerReads(opts: seq<Opt>, m: Message, p: Parsed)
    requires Outcome(opts).Some?
    ensures Seen(Outcome(opts).value.config, m) == Some(p) <==> ReadsAs(opts, m, p)
  {
    FlagsMean(opts);
    if m.header.Some? && m.payload.Some? {
      LinkMeans(m);
      Read4Means(m.payload.value, p);
      Read6Means(m.payload.value, p);
    }
  }

  /**
   Message i is due to get decoys: it is readable, its direction is served, and with -g or else as
   far as the TTL last seen from its other end tells, that end is more than the last -t away.
   */
  ghost predicate Due(opts: seq<Opt>, ms: seq<Message>, i: nat)
    requires Outcome(opts).Some? && i < |ms|
  {
    var cfg := Outcome(opts).value.config;
    && (exists p :: ReadsAs(opts, ms[i], p))
    && ServesDirection(opts, ms[i].outdev != 0)
    && (|| Flag(NoHopEstimate) in opts
        || exists ttl: byte ::
             Seen(cfg, ms[i]).Some? && SeenWith(cfg, ms, i, ttl) && Beyond(ttl, LastNumber(opts, Ttl)))
  }

  lemma ReadableMeans(opts: seq<Opt>, m: Message)
    requires Outcome(opts).Some?
    ensures Seen(Outcome(opts).value.config, m).Some? <==> exists p :: ReadsAs(opts, m, p)
  {
    var cfg := Outcome(opts).value.config;
    if p :| ReadsAs(opts, m, p) {
      HandlerReads(opts, m, p);
    }
    if Seen(cfg, m).Some? {
      HandlerReads(opts, m, Seen(cfg, m).value);
    }
  }

  lemma DirectionMeans(opts: seq<Opt>, m: Message)
    requires Outcome(opts).Some? && Seen(Outcome(opts).value.config, m).Some?
    ensures InUse(Outcome(opts).value.config.flags, LinkOf(m).value.direction) <==>
            ServesDirection(opts, m.outdev != 0)
  {
    FlagsMean(opts);
    LinkMeans(m);
  }

  lemma ReachMeans(opts: seq<Opt>)
    requires Outcome(opts).Some?
    ensures var cfg := Outcome(opts).value.config;
            (cfg.flags.nohopest <==> Flag(NoHopEstimate) in opts) && cfg.numbers.ttl == LastNumber(opts, Ttl)
  {
    FlagsMean(opts);
    assert IsSet(Outcome(opts).value.config.flags, NoHopEstimate) == Outcome(opts).value.config.flags.nohopest;
    CommandLineMeans(opts, Ttl);
  }

  lemma DueMeans(opts: seq<Opt>, ms: seq<Message>, i: nat)
    requires Outcome(opts).Some? && i < |ms|
    ensures Due(opts, ms, i) <==> GetsDecoys(Outcome(opts).value.config, ms, i)
    ensures Due(opts, ms, i) <==> PlanAt(Outcome(opts).value.config, ms, i).Send?
  {
    var cfg := Outcome(opts).value.config;
    ReachMeans(opts);
    PlansAreForThem(cfg, ms, i);
    ReadableMeans(opts, ms[i]);
    if Seen(cfg, ms[i]).Some? {
      DirectionMeans(opts, ms[i]);
    }
  }

  /** The messages before i that were due. */
  ghost function DueBefore(opts: seq<Opt>, ms: seq<Message>, i: nat): set<nat>
    requires Outcome(opts).Some? && i <= |ms|
  {
    set j: nat | j < i && Due(opts, ms, j)
  }

  /**
   Who gets a payload: in every run of every accepted command line the rotation moves for the due
   messages and for no others, so that before message i it has moved once for each that was due.
   */
  lemma PayloadsGoToTheDue(opts: seq<Opt>, w: World, ms: seq<Message>, states: seq<Snapshot>, i: nat)
    requires Outcome(opts).Some? && FreshRun(Outcome(opts).value, w, ms, states) && i < |ms|
    ensures states[i + 1].payloads == if Due(opts, ms, i) then Rotate(states[i].payloads) else states[i].payloads
    ensures states[i].payloads == RotateTimes(states[0].payloads, |DueBefore(opts, ms, i)|)
  {
    var cfg := Outcome(opts).value.config;
    DueMeans(opts, ms, i);
    StepOfRun(cfg, ms, states, i);
    RotationOverRun(cfg, ms, states, i);
    TurnsOfTheDue(opts, ms, i);
  }

  lemma TurnsOfTheDue(opts: seq<Opt>, ms: seq<Message>, i: nat)
    requires Outcome(opts).Some? && i <= |ms|
    ensures Turns(Outcome(opts).value.config, ms, i) == |DueBefore(opts, ms, i)|
  {
    var cfg := Outcome(opts).value.config;
    TurnsAreCounted(cfg, ms, i);
    forall j: nat | j < i
      ensures Due(opts, ms, j) <==> GetsDecoys(cfg, ms, j)
    {
      DueMeans(opts, ms, j);
    }
    assert DueBefore(opts, ms, i) == Earlier(cfg, ms, i);
  }

  // ---- what every decoy is

  /** The option whose payload message i gets. */
  ghost function TurnOf(opts: seq<Opt>, ms: seq<Message>, i: nat): nat
    requires Outcome(opts).Some? && Outcome(opts).value.plinfo != [] && i <= |ms|
  {
    |DueBefore(opts, ms, i)| % |Outcome(opts).value.plinfo|
  }

  /** A decoy for message i: whose payload, where to, and with which TTL. */
  ghost predicate IsDue(opts: seq<Opt>, w: World, ms: seq<Message>, i: nat, t: Transmission, payload: seq<byte>)
    requires Outcome(opts).Some? && i < |ms|
  {
    var cfg, plinfo := Outcome(opts).value.config, Outcome(opts).value.plinfo;
    && Due(opts, ms, i) && Seen(cfg, ms[i]).Some? && plinfo != []
    && PayloadOf(plinfo, w, TurnOf(opts, ms, i)) == Some(payload)
    && AnswersTheFlow(cfg, ms[i], t, payload) && t.mark == LastNumber(opts, Mark)
    && TtlIsDue(cfg, ms, i, t)
    && (Flag(NoHopEstimate) in opts ==> LeavesWith(cfg, ms[i], t, LastNumber(opts, Ttl)))
  }

  lemma TurnIsOption(plinfo: seq<Chosen>, w: World, payloads: seq<seq<byte>>, k: nat)
    requires plinfo != [] && InOptionOrder(plinfo, w, payloads)
    ensures payloads != [] && PayloadOf(plinfo, w, k % |plinfo|) == Some(payloads[k % |payloads|])
  {
  }

  /**
   Every decoy of every run. It goes out for a due message and carries the payload of option k mod n,
   where k messages were due before; it goes to the remote end of the flow that caused it, with the
   mark of the command line, and its TTL is the last -t, raised with -y but kept below the distance.
   */
  lemma EveryDecoy(opts: seq<Opt>, w: World, ms: seq<Message>, states: seq<Snapshot>, i: nat, t: Transmission)
    requires Outcome(opts).Some? && FreshRun(Outcome(opts).value, w, ms, states)
    requires i < |ms| && SentFor(states, i, t)
    ensures states[0].payloads != []
    ensures IsDue(opts, w, ms, i, t, TurnPayload(Outcome(opts).value.config, ms, states[0].payloads, i))
  {
    var cfg, plinfo := Outcome(opts).value.config, Outcome(opts).value.plinfo;
    AcceptedCommandLine(opts);
    TurnIsOption(plinfo, w, states[0].payloads, Turns(cfg, ms, i));
    DecoyOverRun(cfg, ms, states, i, t);
    DueMeans(opts, ms, i);
    TurnsOfTheDue(opts, ms, i);
    CommandLineMeans(opts, Mark);
    if Flag(NoHopEstimate) in opts {
      PlainTtl(opts, ms, i, t);
    }
  }

  /** With -g the TTL is the last -t. */
  lemma PlainTtl(opts: seq<Opt>, ms: seq<Message>, i: nat, t: Transmission)
    requires Outcome(opts).Some? && i < |ms| && Seen(Outcome(opts).value.config, ms[i]).Some?
    requires TtlIsDue(Outcome(opts).value.config, ms, i, t) && Flag(NoHopEstimate) in opts
    ensures LeavesWith(Outcome(opts).value.config, ms[i], t, LastNumber(opts, Ttl))
  {
    ReachMeans(opts);
  }

  predicate EndsIn(t: Transmission, bytes: seq<byte>)
  {
    |bytes| <= |OnTheWire(t)| && OnTheWire(t)[|OnTheWire(t)| - |bytes|..] == bytes
  }

  /** The option whose turn it is was prepared, and its payload is what the decoy ends in. */
  lemma PayloadOnTheWire(opts: seq<Opt>, w: World, ms: seq<Message>, states: seq<Snapshot>, i: nat, t: Transmission)
    returns (payload: seq<byte>)
    requires Outcome(opts).Some? && FreshRun(Outcome(opts).value, w, ms, states)
    requires i < |ms| && SentFor(states, i, t)
    ensures var plinfo := Outcome(opts).value.plinfo;
            && plinfo != [] && PayloadOf(plinfo, w, TurnOf(opts, ms, i)) == Some(payload)
    ensures EndsIn(t, payload)
  {
    EveryDecoy(opts, w, ms, states, i, t);
    payload := TurnPayload(Outcome(opts).value.config, ms, states[0].payloads, i);
  }

  /** A transmission that ends in the bytes of a file, unchanged and whole. */
  predicate CarriesFile(t: Transmission, file: Option<seq<byte>>)
  {
    file.Some? && EndsIn(t, file.value)
  }

  /** The custom payloads on the wire: every decoy whose option is a file ends in exactly that file's bytes. */
  lemma EveryFileDecoy(opts: seq<Opt>, w: World, ms: seq<Message>, states: seq<Snapshot>, i: nat, t: Transmission)
    requires Outcome(opts).Some? && FreshRun(Outcome(opts).value, w, ms, states)
    requires i < |ms| && SentFor(states, i, t)
    ensures var plinfo := Outcome(opts).value.plinfo;
            && plinfo != []
            && var k := TurnOf(opts, ms, i); plinfo[k].FileOption? ==> CarriesFile(t, w.files(k, plinfo[k].path))
  {
    var payload := PayloadOnTheWire(opts, w, ms, states, i, t);
    FilePayload(Outcome(opts).value.plinfo, w, TurnOf(opts, ms, i), payload);
  }

  lemma FilePayload(plinfo: seq<Chosen>, w: World, k: nat, payload: seq<byte>)
    requires k < |plinfo| && PayloadOf(plinfo, w, k) == Some(payload)
    ensures plinfo[k].FileOption? ==> w.files(k, plinfo[k].path) == Some(payload)
  {
  }

  /** The URI that an option gives to the INVITE, if it is not made up. */
  function GivenUri(o: Chosen): Option<string>
    requires !o.FileOption?
  {
    if o.SipUriOption? then Some(o.uri) else None
  }

  /**
   A transmission that ends in the bytes of a whole INVITE: read back, it asks for the given or the
   invented URI, offers what suits that URI's host, and has the body length that it says.
   */
  ghost predicate CarriesInvite(t: Transmission, given: Option<string>)
  {
    exists text | SipContent.IsInvite(text, given) :: EndsInText(t, text)
  }

  predicate EndsInText(t: Transmission, text: string)
  {
    |text| <= |OnTheWire(t)| && Payload.IsTextOf(OnTheWire(t)[|OnTheWire(t)| - |text|..], text)
  }

  /** The SIP messages on the wire: every decoy whose option is a URI or the default ends in such an INVITE. */
  lemma EverySipDecoySays(opts: seq<Opt>, w: World, ms: seq<Message>, states: seq<Snapshot>, i: nat, t: Transmission)
    requires Outcome(opts).Some? && FreshRun(Outcome(opts).value, w, ms, states)
    requires i < |ms| && SentFor(states, i, t)
    ensures var plinfo := Outcome(opts).value.plinfo;
            && plinfo != []
            && var k := TurnOf(opts, ms, i);
               plinfo[k].FileOption? || CarriesInvite(t, GivenUri(plinfo[k]))
  {
    var payload := PayloadOnTheWire(opts, w, ms, states, i, t);
    SipPayload(Outcome(opts).value.plinfo, w, TurnOf(opts, ms, i), t, payload);
  }

  lemma SipPayload(plinfo: seq<Chosen>, w: World, k: nat, t: Transmission, payload: seq<byte>)
    requires k < |plinfo| && PayloadOf(plinfo, w, k) == Some(payload) && EndsIn(t, payload)
    ensures plinfo[k].FileOption? || CarriesInvite(t, GivenUri(plinfo[k]))
  {
    if !plinfo[k].FileOption? {
      InviteOnTheWire(t, GivenUri(plinfo[k]), w.draws(k), payload);
    }
  }

  lemma InviteOnTheWire(t: Transmission, given: Option<string>, d: Sip.Draws, payload: seq<byte>)
    requires Payload.Prepare(Payload.Sip(given, d)) == Some(payload) && EndsIn(t, payload)
    ensures CarriesInvite(t, given)
  {
    var text := PreparedText(t, given, d, payload);
    SipContent.EveryInviteSays(given, d);
  }

  lemma PreparedText(t: Transmission, given: Option<string>, d: Sip.Draws, payload: seq<byte>) returns (text: string)
    requires Payload.Prepare(Payload.Sip(given, d)) == Some(payload) && EndsIn(t, payload)
    ensures Sip.MakeSipInvite(given, d, Context.BUFFLEN) == Some(text) && EndsInText(t, text)
  {
    text := Sip.MakeSipInvite(given, d, Context.BUFFLEN).value;
    Payload.BytesCarryText(text);
  }

  /** The kernel takes all sends for a message; beside an outgoing one the raw socket finds or gets its binding. */
  ghost predicate KernelTakes(opts: seq<Opt>, m: Message, p: Parsed, binds: BindState)
  {
    && (m.outdev != 0 ==> CanBind(binds, p.daddr, m.outdev, m.sends(0).bind))
    && forall k | 0 <= k < LastNumber(opts, Repeat) :: m.sends(k).accepted
  }

  lemma PlanIsTaken(opts: seq<Opt>, ms: seq<Message>, i: nat, binds: BindState)
    requires Outcome(opts).Some? && i < |ms| && Due(opts, ms, i)
    ensures var cfg := Outcome(opts).value.config;
            && PlanAt(cfg, ms, i).Send? && Seen(cfg, ms[i]).Some? && cfg.numbers.repeat == LastNumber(opts, Repeat)
            && (AllGo(binds, PlanAt(cfg, ms, i), LinkOf(ms[i]).value, ms[i].sends, cfg.numbers.repeat) <==>
                KernelTakes(opts, ms[i], Seen(cfg, ms[i]).value, binds))
  {
    var cfg := Outcome(opts).value.config;
    AcceptedCommandLine(opts);
    DueMeans(opts, ms, i);
    CommandLineMeans(opts, Repeat);
    PlanFollowsTheFlow(cfg, LinkOf(ms[i]).value, ms[i].payload.value, FoundAt(cfg, ms, i));
  }

  /**
   None for a message that is not due; for a due one at most the last -r of them, at most ten, and all
   exactly if the kernel takes its sends.
   */
  lemma DecoysPerMessage(opts: seq<Opt>, w: World, ms: seq<Message>, states: seq<Snapshot>, i: nat)
    requires Outcome(opts).Some? && FreshRun(Outcome(opts).value, w, ms, states) && i < |ms|
    ensures var cfg, repeat := Outcome(opts).value.config, LastNumber(opts, Repeat);
            var count := |states[i + 1].sent| - |states[i].sent|;
            && states[i].sent <= states[i + 1].sent
            && if !Due(opts, ms, i) then count == 0
               else
                 && count <= repeat && 1 <= repeat <= 10 && Seen(cfg, ms[i]).Some?
                 && (count == repeat <==> KernelTakes(opts, ms[i], Seen(cfg, ms[i]).value, states[i].binds))
  {
    AcceptedCommandLine(opts);
    var cfg := Outcome(opts).value.config;
    StepOfRun(cfg, ms, states, i);
    TurnIsOption(Outcome(opts).value.plinfo, w, states[0].payloads, 0);
    DueMeans(opts, ms, i);
    if Due(opts, ms, i) {
      AllDecoysOverRun(cfg, ms, states, i);
      PlanIsTaken(opts, ms, i, states[i].binds);
    }
  }

  // ---- when the program gets to serve at all

  /** A -b option whose file can be read and fits, or a -u option with a SIP URI of at most 120 bytes. */
  predicate Usable(o: Chosen, w: World, i: nat)
  {
    match o
    case FileOption(path) => var file := w.files(i, path); file.Some? && |file.value| <= 1200
    case SipUriOption(uri) =>
      && "sip:" <= uri && 5 <= |uri| <= 120
      && forall c | c in [' ', '\t', '\r', '\n', '\U{C}', '\U{B}'] :: c !in uri
    case DefaultSip => true
  }

  lemma UsableIsPrepared(plinfo: seq<Chosen>, w: World, i: nat)
    requires i < |plinfo|
    ensures PayloadOf(plinfo, w, i).Some? <==> Usable(plinfo[i], w, i)
  {
    match plinfo[i] {
      case FileOption(_) =>
      case SipUriOption(uri) =>
        Sip.FailsOnlyOnRejectedUri(Some(uri), w.draws(i));
        UriTest(uri);
      case DefaultSip =>
        Sip.FailsOnlyOnRejectedUri(None, w.draws(i));
    }
  }

  lemma UriTest(uri: string)
    ensures Sip.NoWhitespace(uri) <==> forall c | c in [' ', '\t', '\r', '\n', '\U{C}', '\U{B}'] :: c !in uri
  {
  }

  predicate AllUsable(plinfo: seq<Chosen>, w: World)
  {
    forall i | 0 <= i < |plinfo| :: w.memory(i) && Usable(plinfo[i], w, i)
  }

  lemma PayloadsExactly(plinfo: seq<Chosen>, w: World)
    ensures PayloadsSucceed(plinfo, w) <==> plinfo != [] && AllUsable(plinfo, w)
  {
    forall i | 0 <= i < |plinfo|
      ensures PayloadOf(plinfo, w, i).Some? <==> Usable(plinfo[i], w, i)
    {
      UsableIsPrepared(plinfo, w, i);
    }
  }

  predicate SocketsOpen(opts: seq<Opt>, w: World)
  {
    && (ServesDirection(opts, false) ==> w.link == Opens)
    && (ServesDirection(opts, true) && ServesFamily(opts, V4) ==> w.raw4 == Opens)
    && (ServesDirection(opts, true) && ServesFamily(opts, V6) ==> w.raw6 == Opens)
  }

  lemma SocketsExactly(opts: seq<Opt>, w: World)
    requires Outcome(opts).Some?
    ensures SocketsSucceed(Outcome(opts).value.config, w) <==> SocketsOpen(opts, w)
  {
    FlagsMean(opts);
  }

  /**
   The program opens its queue exactly if every payload option is usable and gets its memory, the cache
   gets its memory, and the sockets for the served directions and families open, and the queue too.
   */
  lemma StartsExactly(opts: seq<Opt>, w: World)
    requires Outcome(opts).Some?
    ensures ReachesTheRules(Outcome(opts).value, w) <==>
            AllUsable(Outcome(opts).value.plinfo, w) && w.cacheMemory && SocketsOpen(opts, w) && w.queue == Ready
  {
    AcceptedCommandLine(opts);
    PayloadsExactly(Outcome(opts).value.plinfo, w);
    SocketsExactly(opts, w);
  }

  /**
   No decoy for a decoy. Every decoy leaves with the program's mark (EveryDecoy), and with the mark
   of any accepted command line neither back end queues such a packet.
   */
  lemma NoDecoyForADecoy(opts: seq<Opt>, f: Chains, fam: Family, hook: Hook, p: Packet, stack: nat)
    requires Outcome(opts).Some? && Ipt.Clean(f) && Backends.NoBuiltinJumps(f) && stack >= 2
    requires p.mark == Outcome(opts).value.config.numbers.fwmark && p.l4proto == 17
    ensures var cfg := Outcome(opts).value.config;
            var ipt := Ipt.Installed(f, fam, cfg);
            var nft := Nft.Installed(fam, cfg);
            && Traverse(ipt, ipt[Builtin(hook)], p, stack) == Traverse(f, f[Builtin(hook)], p, stack)
            && Traverse(nft, nft[Backends.NftChain(hook)], p, stack) == Fallthrough
  {
    AcceptedCommandLine(opts);
    Backends.DecoysAreNotQueued(f, fam, Outcome(opts).value.config, hook, p, stack);
  }
}
