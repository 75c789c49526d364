/**
 What the two installed rulesets do to a packet. Each is proved against one declarative
 predicate, `Selected`, and so they agree with each other.
 */
module Backends {
  import opened Wrappers
  import opened Context
  import opened Netfilter
  import Ipt = Iptables
  import IptRecovery = IptablesRecovery
  import Nft = Nftables

  function RemoteAddress(hook: Hook, p: Packet): nat
  {
    match hook
    case Prerouting => p.src
    case Postrouting => p.dst
  }

  function InterfaceName(hook: Hook, p: Packet): string
  {
    match hook
    case Prerouting => p.inIface
    case Postrouting => p.outIface
  }

  predicate OnSelectedInterface(cfg: Config, hook: Hook, p: Packet)
  {
    cfg.flags.alliface || InterfaceName(hook, p) in cfg.ifaces
  }

  /** The first five packets of a tracked UDP connection, unless they carry the program's mark. */
  predicate Eligible(cfg: Config, p: Packet)
  {
    && And(p.mark, cfg.numbers.fwmask) != cfg.numbers.fwmark
    && p.l4proto == 17
    && p.connPackets.Some? && 1 <= p.connPackets.value <= 5
  }

  /** The packets that the program wants to see, said once for both back ends. */
  predicate Selected(fam: Family, cfg: Config, hook: Hook, p: Packet)
  {
    Eligible(cfg, p) && OnSelectedInterface(cfg, hook, p) && !Excluded(fam, RemoteAddress(hook, p))
  }

  /** A name that neither tool reads as a pattern. */
  predicate PlainName(name: string)
  {
    name != "" ==> name[|name| - 1] != '+' && name[|name| - 1] != '*'
  }

  predicate PlainNames(cfg: Config)
  {
    forall n | n in cfg.ifaces :: PlainName(n)
  }

  predicate AnyIptMatch(ifaces: seq<string>, name: string)
  {
    exists n :: n in ifaces && IptNameMatches(n, name)
  }

  predicate AnyNftMatch(ifaces: seq<string>, name: string)
  {
    exists n :: n in ifaces && NftNameMatches(n, name)
  }

  /** The same as iptables sees it, for any names, patterns included. */
  predicate IptOnInterface(cfg: Config, hook: Hook, p: Packet)
  {
    cfg.flags.alliface || AnyIptMatch(cfg.ifaces, InterfaceName(hook, p))
  }

  predicate IptSelected(fam: Family, cfg: Config, hook: Hook, p: Packet)
  {
    Eligible(cfg, p) && IptOnInterface(cfg, hook, p) && !Excluded(fam, RemoteAddress(hook, p))
  }

  /** And as nft sees it. */
  predicate NftOnInterface(cfg: Config, hook: Hook, p: Packet)
  {
    cfg.flags.alliface || AnyNftMatch(cfg.ifaces, InterfaceName(hook, p))
  }

  predicate NftSelected(fam: Family, cfg: Config, hook: Hook, p: Packet)
  {
    Eligible(cfg, p) && NftOnInterface(cfg, hook, p) && !Excluded(fam, RemoteAddress(hook, p))
  }

  lemma PlainNamesSelect(cfg: Config, hook: Hook, p: Packet)
    requires PlainNames(cfg)
    ensures IptOnInterface(cfg, hook, p) == NftOnInterface(cfg, hook, p) == OnSelectedInterface(cfg, hook, p)
  {
    forall n | n in cfg.ifaces
      ensures IptNameMatches(n, InterfaceName(hook, p)) == (n == InterfaceName(hook, p))
      ensures NftNameMatches(n, InterfaceName(hook, p)) == (n == InterfaceName(hook, p))
    {
      assert PlainName(n);
    }
  }

  // ---- address blocks

  lemma Pow2Values()
    ensures Pow2(16) == 0x1_0000 && Pow2(20) == 0x10_0000 && Pow2(22) == 0x40_0000 && Pow2(24) == 0x100_0000
    ensures Pow2(29) == 0x2000_0000
  {
    assert Pow2(2) == 4 && Pow2(3) == 8 && Pow2(4) == 16 by { assert Pow2(1) == 2; }
    assert Pow2(5) == 32;
    Pow2Sum(4, 4);
    Pow2Sum(8, 8);
    Pow2Sum(16, 4);
    Pow2Sum(20, 2);
    Pow2Sum(20, 4);
    Pow2Sum(24, 5);
  }

  lemma Pow2Of125()
    ensures Pow2(125) == 0x2000_0000_0000_0000_0000_0000_0000_0000
  {
    Pow2Values();
    Pow2Sum(16, 16);
    Pow2Sum(32, 32);
    Pow2Sum(64, 32);
    Pow2Sum(96, 29);
  }

  lemma {:induction false} Pow2Sum(a: nat, b: nat)
    ensures Pow2(a + b) == Pow2(a) * Pow2(b)
  {
    if a > 0 {
      Pow2Sum(a - 1, b);
      assert Pow2(a + b) == 2 * Pow2((a - 1) + b);
      DoubleProduct(Pow2(a - 1), Pow2(b));
    }
  }

  lemma DoubleProduct(x: nat, y: nat)
    ensures 2 * (x * y) == (2 * x) * y
  {
  }

  lemma BlockRange(a: nat, base: nat, hostBits: nat, quotient: nat)
    requires base == quotient * Pow2(hostBits)
    ensures InBlock(a, Prefix(base, hostBits)) <==> base <= a < base + Pow2(hostBits)
  {
    BlockIsRange(a, quotient, hostBits);
  }

  lemma GlobalUnicastRange(a: nat)
    ensures InBlock(a, Ipt.GLOBAL_UNICAST_6) == InBlock(a, Nft.GLOBAL_UNICAST) == !Excluded(V6, a)
  {
    Pow2Of125();
    BlockRange(a, 0x2000_0000_0000_0000_0000_0000_0000_0000, 125, 1);
  }

  /** The eight IPv4 blocks as both files write them cover exactly the excluded ranges. */
  lemma LocalRanges(a: nat)
    ensures Excluded(V4, a) <==> exists i | 0 <= i < 8 :: InBlock(a, Nft.LocalBlocks()[i])
  {
    BlocksAsRanges(a);
    var b := Nft.LocalBlocks();
    if Excluded(V4, a) {
      assert InBlock(a, b[0]) || InBlock(a, b[1]) || InBlock(a, b[2]) || InBlock(a, b[3])
          || InBlock(a, b[4]) || InBlock(a, b[5]) || InBlock(a, b[6]) || InBlock(a, b[7]);
    }
  }

  lemma BlocksAsRanges(a: nat)
    ensures var b := Nft.LocalBlocks();
            && (InBlock(a, b[0]) <==> 0 <= a < 0x0100_0000)
            && (InBlock(a, b[1]) <==> 0x0A00_0000 <= a < 0x0B00_0000)
            && (InBlock(a, b[2]) <==> 0x6440_0000 <= a < 0x6480_0000)
            && (InBlock(a, b[3]) <==> 0x7F00_0000 <= a < 0x8000_0000)
            && (InBlock(a, b[4]) <==> 0xA9FE_0000 <= a < 0xA9FF_0000)
            && (InBlock(a, b[5]) <==> 0xAC10_0000 <= a < 0xAC20_0000)
            && (InBlock(a, b[6]) <==> 0xC0A8_0000 <= a < 0xC0A9_0000)
            && (InBlock(a, b[7]) <==> 0xE000_0000 <= a < 0x1_0000_0000)
  {
    Pow2Values();
    BlockRange(a, 0, 24, 0);
    BlockRange(a, 0x0A00_0000, 24, 10);
    BlockRange(a, 0x6440_0000, 22, 0x191);
    BlockRange(a, 0x7F00_0000, 24, 0x7F);
    BlockRange(a, 0xA9FE_0000, 16, 0xA9FE);
    BlockRange(a, 0xAC10_0000, 20, 0xAC1);
    BlockRange(a, 0xC0A8_0000, 16, 0xC0A8);
    BlockRange(a, 0xE000_0000, 29, 7);
  }

  lemma SameBlocks()
    ensures Ipt.LocalBlocks4() == Nft.LocalBlocks()
  {
    assert Ipt.Cidr4(0, 0, 0, 0, 8) == Prefix(0, 24);
    assert Ipt.Cidr4(10, 0, 0, 0, 8) == Prefix(0x0A00_0000, 24);
    assert Ipt.Cidr4(100, 64, 0, 0, 10) == Prefix(0x6440_0000, 22);
    assert Ipt.Cidr4(127, 0, 0, 0, 8) == Prefix(0x7F00_0000, 24);
    assert Ipt.Cidr4(169, 254, 0, 0, 16) == Prefix(0xA9FE_0000, 16);
    assert Ipt.Cidr4(172, 16, 0, 0, 12) == Prefix(0xAC10_0000, 20);
    assert Ipt.Cidr4(192, 168, 0, 0, 16) == Prefix(0xC0A8_0000, 16);
    assert Ipt.Cidr4(224, 0, 0, 0, 3) == Prefix(0xE000_0000, 29);
  }

  /** The address rules of a chain, as either back end makes them. */
  function AddressRules(fam: Family, hook: Hook): seq<Rule>
  {
    match hook
    case Prerouting => Nft.SourceReturns(fam)
    case Postrouting => Nft.DestinationReturns(fam)
  }

  lemma SameAddressRules(fam: Family)
    ensures Ipt.SourceExclusions(fam) == AddressRules(fam, Prerouting)
    ensures Ipt.DestinationExclusions(fam) == AddressRules(fam, Postrouting)
  {
    SameBlocks();
  }

  lemma AddressRulesReturn(fam: Family, hook: Hook, p: Packet)
    ensures forall r | r in AddressRules(fam, hook) :: r.target == Return
    ensures Excluded(fam, RemoteAddress(hook, p)) <==>
            exists r | r in AddressRules(fam, hook) :: AllHold(r.matches, p)
  {
    var a := RemoteAddress(hook, p);
    var rules := AddressRules(fam, hook);
    match fam {
      case V4 =>
        LocalRanges(a);
        forall i | 0 <= i < 8
          ensures AllHold(rules[i].matches, p) <==> InBlock(a, Nft.LocalBlocks()[i])
        {
          SingleMatch(rules[i], p);
        }
        if i :| 0 <= i < 8 && InBlock(a, Nft.LocalBlocks()[i]) {
          assert rules[i] in rules;
        }
      case V6 =>
        GlobalUnicastRange(a);
        SingleMatch(rules[0], p);
        assert rules[0] in rules;
    }
  }

  lemma SingleMatch(r: Rule, p: Packet)
    requires |r.matches| == 1
    ensures AllHold(r.matches, p) == Holds(r.matches[0], p)
  {
    assert r.matches[0] in r.matches;
  }

  // ---- the queue rules

  /** A list of one return rule and one queue rule. */
  lemma ReturnThenQueue(t: Chains, a: Rule, b: Rule, p: Packet, stack: nat)
    requires a.target == Return && b.target.Enqueue?
    ensures Traverse(t, [a, b], p, stack) ==
            if !AllHold(a.matches, p) && AllHold(b.matches, p) then Queued(b.target.queue) else Fallthrough
  {
    assert [a, b][1..] == [b] && [b][1..] == [];
    assert Traverse(t, [b], p, stack) == if AllHold(b.matches, p) then Queued(b.target.queue) else Fallthrough;
  }

  lemma MarkRuleHolds(cfg: Config, p: Packet)
    ensures AllHold([MaskedMark(cfg.numbers.fwmask, cfg.numbers.fwmark)], p) ==
            (And(p.mark, cfg.numbers.fwmask) == cfg.numbers.fwmark)
  {
    var m := MaskedMark(cfg.numbers.fwmask, cfg.numbers.fwmark);
    assert m in [m];
  }

  lemma FirstPacketsRuleHolds(p: Packet)
    ensures AllHold([Protocol(17), ConnectionPackets(1, 5)], p) ==
            (p.l4proto == 17 && p.connPackets.Some? && 1 <= p.connPackets.value <= 5)
  {
    assert Protocol(17) in [Protocol(17), ConnectionPackets(1, 5)];
    assert ConnectionPackets(1, 5) in [Protocol(17), ConnectionPackets(1, 5)];
  }

  lemma QueueRulesVerdict(t: Chains, cfg: Config, p: Packet, stack: nat)
    ensures Traverse(t, Nft.QueueRules(cfg), p, stack) ==
            if Eligible(cfg, p) then Queued(cfg.numbers.nfqnum) else Fallthrough
  {
    MarkRuleHolds(cfg, p);
    FirstPacketsRuleHolds(p);
    ReturnThenQueue(t, Rule([MaskedMark(cfg.numbers.fwmask, cfg.numbers.fwmark)], Return),
                    Rule([Protocol(17), ConnectionPackets(1, 5)], Enqueue(cfg.numbers.nfqnum)), p, stack);
  }

  lemma SameQueueRules(cfg: Config)
    ensures Ipt.QueueRules(cfg) == Nft.QueueRules(cfg)
  {
  }

  // ---- the iptables ruleset

  /** Nobody can jump to a built-in chain: iptables refuses such a rule. */
  predicate NoBuiltinJumps(t: Chains)
  {
    forall c, r | c in t && r in t[c] :: r.target.Jump? ==> !r.target.chain.Builtin?
  }

  /** Foreign rules decide the same with the program's rules present. */
  lemma {:induction false} ForeignUndisturbed(f: Chains, t: Chains, rules: seq<Rule>, p: Packet, stack: nat)
    requires NoBuiltinJumps(f)
    requires forall c, r | c in f && r in f[c] :: !Ipt.JumpsToOwn(r)
    requires forall r | r in rules :: !Ipt.JumpsToOwn(r) && (r.target.Jump? ==> !r.target.chain.Builtin?)
    requires forall c | !Ipt.Own(c) && !c.Builtin? :: (c in t <==> c in f) && (c in f ==> t[c] == f[c])
    ensures Traverse(t, rules, p, stack) == Traverse(f, rules, p, stack)
    decreases stack, |rules|
  {
    if rules != [] {
      ForeignUndisturbed(f, t, rules[1..], p, stack);
      var r := rules[0];
      if r.target.Jump? && stack > 0 && r.target.chain in f {
        ForeignUndisturbed(f, t, f[r.target.chain], p, stack - 1);
      }
    }
  }

  function HookChain(hook: Hook): ChainId
  {
    match hook
    case Prerouting => FakesipS
    case Postrouting => FakesipD
  }

  function OwnJumps(cfg: Config, hook: Hook): seq<Rule>
  {
    match hook
    case Prerouting => Ipt.InputJumps(cfg)
    case Postrouting => Ipt.OutputJumps(cfg)
  }

  /** One of the interface jumps applies exactly on a selected interface. */
  lemma IptJumpApplies(cfg: Config, hook: Hook, p: Packet)
    ensures forall r | r in OwnJumps(cfg, hook) :: r.target == Jump(FakesipR)
    ensures IptOnInterface(cfg, hook, p) <==> exists r | r in OwnJumps(cfg, hook) :: AllHold(r.matches, p)
  {
    var jumps := OwnJumps(cfg, hook);
    if cfg.flags.alliface {
      assert jumps[0] in jumps && AllHold(jumps[0].matches, p);
    } else {
      forall i | 0 <= i < |cfg.ifaces|
        ensures jumps[i] in jumps
        ensures AllHold(jumps[i].matches, p) == IptNameMatches(cfg.ifaces[i], InterfaceName(hook, p))
      {
        SingleMatch(jumps[i], p);
      }
    }
  }

  /** A chain of returns followed by jumps to the queue rules. */
  lemma GuardedQueue(t: Chains, guards: seq<Rule>, jumps: seq<Rule>, c: ChainId, cfg: Config,
                     excluded: bool, onInterface: bool, p: Packet, stack: nat)
    requires stack > 0 && c in t && t[c] == Nft.QueueRules(cfg)
    requires forall r | r in guards :: r.target == Return
    requires forall r | r in jumps :: r.target == Jump(c)
    requires excluded <==> exists r | r in guards :: AllHold(r.matches, p)
    requires onInterface <==> exists r | r in jumps :: AllHold(r.matches, p)
    ensures Traverse(t, guards + jumps, p, stack) ==
            if !excluded && onInterface && Eligible(cfg, p) then Queued(cfg.numbers.nfqnum) else Fallthrough
  {
    TraverseReturns(t, guards, jumps, p, stack);
    TraverseJumps(t, jumps, c, p, stack);
    QueueRulesVerdict(t, cfg, p, stack - 1);
  }

  /** The chain FAKESIP_S or FAKESIP_D as a whole. */
  lemma IptChainVerdict(t: Chains, fam: Family, cfg: Config, hook: Hook, p: Packet, stack: nat)
    requires stack > 0
    requires FakesipR in t && t[FakesipR] == Ipt.QueueRules(cfg)
    ensures Traverse(t, AddressRules(fam, hook) + OwnJumps(cfg, hook), p, stack) ==
            if IptSelected(fam, cfg, hook, p) then Queued(cfg.numbers.nfqnum) else Fallthrough
  {
    AddressRulesReturn(fam, hook, p);
    IptJumpApplies(cfg, hook, p);
    SameQueueRules(cfg);
    GuardedQueue(t, AddressRules(fam, hook), OwnJumps(cfg, hook), FakesipR, cfg,
                 Excluded(fam, RemoteAddress(hook, p)), IptOnInterface(cfg, hook, p), p, stack);
  }

  lemma InstalledChains(f: Chains, fam: Family, cfg: Config, hook: Hook)
    requires Builtin(Prerouting) in f && Builtin(Postrouting) in f
    ensures var t := Ipt.Installed(f, fam, cfg);
            && Builtin(hook) in t && t[Builtin(hook)] == [Rule([], Jump(HookChain(hook)))] + f[Builtin(hook)]
            && HookChain(hook) in t && t[HookChain(hook)] == AddressRules(fam, hook) + OwnJumps(cfg, hook)
            && FakesipR in t && t[FakesipR] == Ipt.QueueRules(cfg)
            && forall c | !Ipt.Own(c) && !c.Builtin? :: (c in t <==> c in f) && (c in f ==> t[c] == f[c])
  {
    SameAddressRules(fam);
  }

  /**
   The iptables ruleset on top of any foreign rules: a packet goes to the queue exactly when it is
   selected, and every other packet gets what the foreign rules alone give it.
   */
  lemma IptVerdict(f: Chains, fam: Family, cfg: Config, hook: Hook, p: Packet, stack: nat)
    requires Ipt.Clean(f) && NoBuiltinJumps(f) && stack >= 2
    ensures var t := Ipt.Installed(f, fam, cfg);
            Traverse(t, t[Builtin(hook)], p, stack) ==
            if IptSelected(fam, cfg, hook, p) then Queued(cfg.numbers.nfqnum)
            else Traverse(f, f[Builtin(hook)], p, stack)
  {
    InstalledChains(f, fam, cfg, hook);
    IptRecovery.CleanHasNoHooks(f);
    IptVerdictOn(f, Ipt.Installed(f, fam, cfg), fam, cfg, hook, p, stack);
  }

  lemma IptVerdictOn(f: Chains, t: Chains, fam: Family, cfg: Config, hook: Hook, p: Packet, stack: nat)
    requires Builtin(hook) in f && NoBuiltinJumps(f) && stack >= 2
    requires forall c, r | c in f && r in f[c] :: !Ipt.JumpsToOwn(r)
    requires Builtin(hook) in t && t[Builtin(hook)] == [Rule([], Jump(HookChain(hook)))] + f[Builtin(hook)]
    requires HookChain(hook) in t && t[HookChain(hook)] == AddressRules(fam, hook) + OwnJumps(cfg, hook)
    requires FakesipR in t && t[FakesipR] == Ipt.QueueRules(cfg)
    requires forall c | !Ipt.Own(c) && !c.Builtin? :: (c in t <==> c in f) && (c in f ==> t[c] == f[c])
    ensures Traverse(t, t[Builtin(hook)], p, stack) ==
            if IptSelected(fam, cfg, hook, p) then Queued(cfg.numbers.nfqnum)
            else Traverse(f, f[Builtin(hook)], p, stack)
  {
    IptChainVerdict(t, fam, cfg, hook, p, stack - 1);
    HeadJump(t, Rule([], Jump(HookChain(hook))), f[Builtin(hook)], p, stack);
    ForeignUndisturbed(f, t, f[Builtin(hook)], p, stack);
  }

  lemma HeadJump(t: Chains, first: Rule, rest: seq<Rule>, p: Packet, stack: nat)
    requires first.matches == [] && first.target.Jump? && first.target.chain in t && stack > 0
    ensures Traverse(t, [first] + rest, p, stack) ==
            var inner := Traverse(t, t[first.target.chain], p, stack - 1);
            if inner == Fallthrough then Traverse(t, rest, p, stack) else inner
  {
    assert ([first] + rest)[1..] == rest;
  }

  // ---- the nft ruleset

  function NftJumps(cfg: Config, hook: Hook): seq<Rule>
  {
    match hook
    case Prerouting => Nft.InputJumps(Nft.InterfaceNames(cfg))
    case Postrouting => Nft.OutputJumps(Nft.InterfaceNames(cfg))
  }

  lemma NftJumpApplies(cfg: Config, hook: Hook, p: Packet)
    ensures forall r | r in NftJumps(cfg, hook) :: r.target == Jump(FsRules)
    ensures NftOnInterface(cfg, hook, p) <==> exists r | r in NftJumps(cfg, hook) :: AllHold(r.matches, p)
  {
    var jumps := NftJumps(cfg, hook);
    if cfg.flags.alliface {
      assert jumps[0] in jumps && AllHold(jumps[0].matches, p);
    } else {
      forall i | 0 <= i < |cfg.ifaces|
        ensures jumps[i] in jumps
        ensures AllHold(jumps[i].matches, p) == NftNameMatches(cfg.ifaces[i], InterfaceName(hook, p))
      {
        SingleMatch(jumps[i], p);
      }
    }
  }

  /** A time-exceeded message that quotes a packet with the decoys' tag. */
  predicate QuotesTag(fam: Family, p: Packet)
  {
    AllHold(Nft.TaggedError(fam), p)
  }

  lemma {:induction false} DropRulesApply(fam: Family, names: seq<Option<string>>, p: Packet)
    ensures forall r | r in Nft.DropRules(fam, names) :: r.target == DropPacket
    ensures (exists r | r in Nft.DropRules(fam, names) :: AllHold(r.matches, p)) <==>
            QuotesTag(fam, p) && exists n | n in names :: AllHold(Nft.InputMatch(n), p)
  {
    if names != [] {
      DropRulesApply(fam, names[1..], p);
      var last := Nft.DropRule(fam, names[0]);
      AllHoldConcat(Nft.InputMatch(names[0]), Nft.TaggedError(fam), p);
      assert last in Nft.DropRules(fam, names);
      assert forall r | r in Nft.DropRules(fam, names) :: r in Nft.DropRules(fam, names[1..]) || r == last;
      assert forall n | n in names :: n == names[0] || n in names[1..];
      assert names[0] in names;
      if n :| n in names[1..] && AllHold(Nft.InputMatch(n), p) {
        assert n in names;
      }
    }
  }

  lemma AllHoldConcat(a: seq<Match>, b: seq<Match>, p: Packet)
    ensures AllHold(a + b, p) <==> AllHold(a, p) && AllHold(b, p)
  {
    assert forall m :: m in a + b <==> m in a || m in b;
  }

  function NftChain(hook: Hook): ChainId
  {
    match hook
    case Prerouting => FsPrerouting
    case Postrouting => FsPostrouting
  }

  /** The address rules and jumps of a base chain, which follow the drop rules. */
  lemma NftChainVerdict(t: Chains, fam: Family, cfg: Config, hook: Hook, p: Packet, stack: nat)
    requires stack > 0
    requires FsRules in t && t[FsRules] == Nft.QueueRules(cfg)
    ensures Traverse(t, AddressRules(fam, hook) + NftJumps(cfg, hook), p, stack) ==
            if NftSelected(fam, cfg, hook, p) then Queued(cfg.numbers.nfqnum) else Fallthrough
  {
    AddressRulesReturn(fam, hook, p);
    NftJumpApplies(cfg, hook, p);
    GuardedQueue(t, AddressRules(fam, hook), NftJumps(cfg, hook), FsRules, cfg,
                 Excluded(fam, RemoteAddress(hook, p)), NftOnInterface(cfg, hook, p), p, stack);
  }

  lemma NamesSelect(cfg: Config, p: Packet)
    ensures (exists n | n in Nft.InterfaceNames(cfg) :: AllHold(Nft.InputMatch(n), p))
       <==> NftOnInterface(cfg, Prerouting, p)
  {
    var names := Nft.InterfaceNames(cfg);
    if cfg.flags.alliface {
      assert None in names && AllHold(Nft.InputMatch(None), p);
    } else {
      forall i | 0 <= i < |cfg.ifaces|
        ensures names[i] in names && AllHold(Nft.InputMatch(names[i]), p) == NftNameMatches(cfg.ifaces[i], p.inIface)
      {
        assert NftInput(cfg.ifaces[i]) in Nft.InputMatch(names[i]);
      }
      if n :| n in cfg.ifaces && NftNameMatches(n, p.inIface) {
        var i :| 0 <= i < |cfg.ifaces| && cfg.ifaces[i] == n;
        assert names[i] in names && AllHold(Nft.InputMatch(names[i]), p);
      }
    }
  }

  /**
   The nft ruleset: before routing, a time-exceeded message that quotes a tagged packet and comes
   in on a selected interface is dropped; otherwise a packet goes to the queue exactly when it is
   selected, and any other packet is left to the chains of others.
   */
  lemma NftVerdict(fam: Family, cfg: Config, hook: Hook, p: Packet, stack: nat)
    requires stack >= 1
    ensures var t := Nft.Installed(fam, cfg);
            Traverse(t, t[NftChain(hook)], p, stack) ==
            if hook == Prerouting && QuotesTag(fam, p) && NftOnInterface(cfg, hook, p) then Dropped
            else if NftSelected(fam, cfg, hook, p) then Queued(cfg.numbers.nfqnum)
            else Fallthrough
  {
    var t := Nft.Installed(fam, cfg);
    NftChainVerdict(t, fam, cfg, hook, p, stack);
    if hook == Prerouting {
      DropsComeFirst(t, fam, cfg, p, stack);
      NamesSelect(cfg, p);
    }
  }

  lemma DropsComeFirst(t: Chains, fam: Family, cfg: Config, p: Packet, stack: nat)
    requires t == Nft.Installed(fam, cfg)
    ensures Traverse(t, t[FsPrerouting], p, stack) ==
            if QuotesTag(fam, p) && (exists name | name in Nft.InterfaceNames(cfg) :: AllHold(Nft.InputMatch(name), p))
            then Dropped
            else Traverse(t, AddressRules(fam, Prerouting) + NftJumps(cfg, Prerouting), p, stack)
  {
    var drops := Nft.DropRules(fam, Nft.InterfaceNames(cfg));
    var rest := AddressRules(fam, Prerouting) + NftJumps(cfg, Prerouting);
    assert t[FsPrerouting] == drops + rest;
    DropRulesApply(fam, Nft.InterfaceNames(cfg), p);
    TraverseDrops(t, drops, rest, p, stack);
  }

  // ---- the two back ends together

  /** Both tools select the same interfaces with the -i list as a whole. */
  ghost predicate ListReadAlike(cfg: Config)
  {
    cfg.flags.alliface || forall name: string :: AnyIptMatch(cfg.ifaces, name) <==> AnyNftMatch(cfg.ifaces, name)
  }

  /**
   A form of this that can be checked: every '+' prefix extends some '*' prefix of the list, and the
   other way round. Lists of plain names, which have no prefixes, are the usual case.
   */
  predicate PrefixesCovered(ifaces: seq<string>)
  {
    Covered(ifaces, '+', '*') && Covered(ifaces, '*', '+')
  }

  predicate Covered(ifaces: seq<string>, c: char, d: char)
  {
    forall n | n in ifaces && EndsIn(n, c) :: exists m :: m in ifaces && EndsIn(m, d) && Stem(m) <= Stem(n)
  }

  predicate EndsIn(name: string, c: char)
  {
    name != "" && name[|name| - 1] == c
  }

  function Stem(name: string): string
    requires name != ""
  {
    name[..|name| - 1]
  }

  lemma PlainIsCovered(cfg: Config)
    requires PlainNames(cfg)
    ensures PrefixesCovered(cfg.ifaces)
  {
    forall n | n in cfg.ifaces
      ensures !EndsIn(n, '+') && !EndsIn(n, '*')
    {
      assert PlainName(n);
    }
  }

  lemma CoveredReadsAlike(cfg: Config)
    requires cfg.flags.alliface || PlainNames(cfg) || PrefixesCovered(cfg.ifaces)
    ensures ListReadAlike(cfg)
  {
    if PlainNames(cfg) {
      PlainIsCovered(cfg);
    }
    if !cfg.flags.alliface {
      forall name: string
        ensures AnyIptMatch(cfg.ifaces, name) <==> AnyNftMatch(cfg.ifaces, name)
      {
        CoveredMatches(cfg.ifaces, name);
      }
    }
  }

  /** The character c occurs in no name, as '/' never does in the name of an interface. */
  predicate Absent(ifaces: seq<string>, c: char)
  {
    forall n | n in ifaces :: c !in n
  }

  /** For all real names the checkable form is exact. */
  lemma CoveredIsExact(cfg: Config, c: char)
    requires Absent(cfg.ifaces, c)
    ensures ListReadAlike(cfg) <==> cfg.flags.alliface || PrefixesCovered(cfg.ifaces)
  {
    if cfg.flags.alliface || PrefixesCovered(cfg.ifaces) {
      CoveredReadsAlike(cfg);
    } else if ListReadAlike(cfg) {
      forall n | n in cfg.ifaces && EndsIn(n, '+')
        ensures exists m :: m in cfg.ifaces && EndsIn(m, '*') && Stem(m) <= Stem(n)
      {
        assert AnyIptMatch(cfg.ifaces, Stem(n) + [c]) by {
          assert IptNameMatches(n, Stem(n) + [c]);
        }
        var m :| m in cfg.ifaces && NftNameMatches(m, Stem(n) + [c]);
        PrefixWithout(m, Stem(n), c);
      }
      forall n | n in cfg.ifaces && EndsIn(n, '*')
        ensures exists m :: m in cfg.ifaces && EndsIn(m, '+') && Stem(m) <= Stem(n)
      {
        assert AnyNftMatch(cfg.ifaces, Stem(n) + [c]) by {
          assert NftNameMatches(n, Stem(n) + [c]);
        }
        var m :| m in cfg.ifaces && IptNameMatches(m, Stem(n) + [c]);
        PrefixWithout(m, Stem(n), c);
      }
    }
  }

  /** A name without c that is, or is a pattern for, `stem` and a c behind it is a pattern for `stem`. */
  lemma PrefixWithout(m: string, stem: string, c: char)
    requires c !in m
    ensures m != stem + [c]
    ensures m != "" && Stem(m) <= stem + [c] ==> Stem(m) <= stem
  {
    assert (stem + [c])[|stem|] == c;
  }

  lemma CoveredMatches(ifaces: seq<string>, name: string)
    requires PrefixesCovered(ifaces)
    ensures AnyIptMatch(ifaces, name) <==> AnyNftMatch(ifaces, name)
  {
    if n :| n in ifaces && IptNameMatches(n, name) {
      IptMatchCovered(ifaces, n, name);
    }
    if n :| n in ifaces && NftNameMatches(n, name) {
      NftMatchCovered(ifaces, n, name);
    }
  }

  lemma IptMatchCovered(ifaces: seq<string>, n: string, name: string)
    requires Covered(ifaces, '+', '*') && n in ifaces && IptNameMatches(n, name)
    ensures AnyNftMatch(ifaces, name)
  {
    if EndsIn(n, '+') {
      var m :| m in ifaces && EndsIn(m, '*') && Stem(m) <= Stem(n);
      PrefixTransitive(Stem(m), Stem(n), name);
      assert NftNameMatches(m, name);
    } else {
      LiteralMatches(name);
    }
  }

  lemma NftMatchCovered(ifaces: seq<string>, n: string, name: string)
    requires Covered(ifaces, '*', '+') && n in ifaces && NftNameMatches(n, name)
    ensures AnyIptMatch(ifaces, name)
  {
    if EndsIn(n, '*') {
      var m :| m in ifaces && EndsIn(m, '+') && Stem(m) <= Stem(n);
      PrefixTransitive(Stem(m), Stem(n), name);
      assert IptNameMatches(m, name);
    } else {
      LiteralMatches(name);
    }
  }

  lemma PrefixTransitive(a: string, b: string, c: string)
    requires a <= b <= c
    ensures a <= c
  {
  }

  /** As a pattern, every name matches itself. */
  lemma LiteralMatches(name: string)
    ensures IptNameMatches(name, name) && NftNameMatches(name, name)
  {
  }

  /**
   Backend equivalence. For every UDP packet, at either hook and for either family, iptables sends
   the packet to the program's queue exactly when nft does; when they do not, nft lets it pass and
   iptables leaves it to the foreign rules. The interface names only matter without -a, and plain
   ones select literally.
   */
  lemma BackendsAgree(f: Chains, fam: Family, cfg: Config, hook: Hook, p: Packet, stack: nat)
    requires Ipt.Clean(f) && NoBuiltinJumps(f) && ListReadAlike(cfg) && stack >= 2
    requires p.l4proto == 17
    ensures var ipt := Ipt.Installed(f, fam, cfg);
            var nft := Nft.Installed(fam, cfg);
            var viaIpt := Traverse(ipt, ipt[Builtin(hook)], p, stack);
            var viaNft := Traverse(nft, nft[NftChain(hook)], p, stack);
            var alone := Traverse(f, f[Builtin(hook)], p, stack);
            if IptSelected(fam, cfg, hook, p)
            then viaIpt == viaNft == Queued(cfg.numbers.nfqnum)
            else viaNft == Fallthrough && viaIpt == alone
    ensures cfg.flags.alliface || PlainNames(cfg) ==>
              (IptSelected(fam, cfg, hook, p) <==> Selected(fam, cfg, hook, p))
  {
    IptVerdict(f, fam, cfg, hook, p, stack);
    NftVerdict(fam, cfg, hook, p, stack);
    TaggedErrorsAreIcmp(fam, p);
    SelectedAlike(fam, cfg, hook, p);
    if PlainNames(cfg) {
      PlainNamesSelect(cfg, hook, p);
    }
  }

  lemma SelectedAlike(fam: Family, cfg: Config, hook: Hook, p: Packet)
    requires ListReadAlike(cfg)
    ensures IptSelected(fam, cfg, hook, p) <==> NftSelected(fam, cfg, hook, p)
  {
    if !cfg.flags.alliface {
      var name := InterfaceName(hook, p);
      assert AnyIptMatch(cfg.ifaces, name) <==> AnyNftMatch(cfg.ifaces, name);
    }
  }

  /** Rules of others that do not use the program's queue. */
  predicate QueueUnused(t: Chains, queue: nat)
  {
    forall c, r | c in t && r in t[c] :: r.target != Enqueue(queue)
  }

  lemma {:induction false} NeverQueues(t: Chains, rules: seq<Rule>, queue: nat, p: Packet, stack: nat)
    requires QueueUnused(t, queue) && forall r | r in rules :: r.target != Enqueue(queue)
    ensures Traverse(t, rules, p, stack) != Queued(queue)
    decreases stack, |rules|
  {
    if rules != [] {
      NeverQueues(t, rules[1..], queue, p, stack);
      if rules[0].target.Jump? && stack > 0 && rules[0].target.chain in t {
        NeverQueues(t, t[rules[0].target.chain], queue, p, stack - 1);
      }
    }
  }

  ghost predicate QueuedAlike(f: Chains, fam: Family, cfg: Config, hook: Hook, p: Packet, stack: nat)
    requires Ipt.Clean(f)
  {
    var ipt := Ipt.Installed(f, fam, cfg);
    var nft := Nft.Installed(fam, cfg);
    var viaNft := Traverse(nft, nft[NftChain(hook)], p, stack);
    var viaIpt := Traverse(ipt, ipt[Builtin(hook)], p, stack);
    viaIpt == Queued(cfg.numbers.nfqnum) <==> viaNft == Queued(cfg.numbers.nfqnum)
  }

  lemma QueuedMeans(f: Chains, fam: Family, cfg: Config, hook: Hook, p: Packet, stack: nat)
    requires Ipt.Clean(f) && NoBuiltinJumps(f) && stack >= 2 && p.l4proto == 17
    requires QueueUnused(f, cfg.numbers.nfqnum)
    ensures QueuedAlike(f, fam, cfg, hook, p, stack) <==>
            (IptSelected(fam, cfg, hook, p) <==> NftSelected(fam, cfg, hook, p))
  {
    IptRecovery.CleanMeans(f);
    IptVerdict(f, fam, cfg, hook, p, stack);
    NftVerdict(fam, cfg, hook, p, stack);
    TaggedErrorsAreIcmp(fam, p);
    NeverQueues(f, f[Builtin(hook)], cfg.numbers.nfqnum, p, stack);
  }

  /** An unmarked packet of a new UDP connection on the interface `name`, between public addresses. */
  function NewPacket(fam: Family, name: string, mark: uint32): Packet
  {
    var address := if fam == V4 then 0x0808_0808 else 0x2000_0000_0000_0000_0000_0000_0000_0000;
    Packet(address, address, mark, name, name, 17, [], Some(1), {})
  }

  /**
   When the two back ends are interchangeable: over rules of others that do not use the program's
   queue, they queue the same UDP packets if and only if both read the -i list alike.
   */
  lemma AgreementIsExact(f: Chains, fam: Family, cfg: Config, stack: nat)
    requires Ipt.Clean(f) && NoBuiltinJumps(f) && stack >= 2 && QueueUnused(f, cfg.numbers.nfqnum)
    requires cfg.numbers.fwmark != 0
    ensures (forall hook, p: Packet | p.l4proto == 17 :: QueuedAlike(f, fam, cfg, hook, p, stack))
       <==> ListReadAlike(cfg)
  {
    if ListReadAlike(cfg) {
      forall hook, p: Packet | p.l4proto == 17
        ensures QueuedAlike(f, fam, cfg, hook, p, stack)
      {
        QueuedMeans(f, fam, cfg, hook, p, stack);
        SelectedAlike(fam, cfg, hook, p);
      }
    } else {
      var name: string :| AnyIptMatch(cfg.ifaces, name) != AnyNftMatch(cfg.ifaces, name);
      DifferOnPacket(f, fam, cfg, name, stack);
    }
  }

  /** The same as a condition on the options alone, for names in which some character does not occur. */
  lemma AgreementIsCheckable(f: Chains, fam: Family, cfg: Config, stack: nat, c: char)
    requires Ipt.Clean(f) && NoBuiltinJumps(f) && stack >= 2 && QueueUnused(f, cfg.numbers.nfqnum)
    requires cfg.numbers.fwmark != 0 && Absent(cfg.ifaces, c)
    ensures (forall hook, p: Packet | p.l4proto == 17 :: QueuedAlike(f, fam, cfg, hook, p, stack))
       <==> cfg.flags.alliface || PrefixesCovered(cfg.ifaces)
  {
    AgreementIsExact(f, fam, cfg, stack);
    CoveredIsExact(cfg, c);
  }

  /** A packet on which they differ. */
  lemma DifferOnPacket(f: Chains, fam: Family, cfg: Config, name: string, stack: nat)
    requires Ipt.Clean(f) && NoBuiltinJumps(f) && stack >= 2 && QueueUnused(f, cfg.numbers.nfqnum)
    requires cfg.numbers.fwmark != 0 && !cfg.flags.alliface
    requires AnyIptMatch(cfg.ifaces, name) != AnyNftMatch(cfg.ifaces, name)
    ensures var p := NewPacket(fam, name, 0); p.l4proto == 17 && !QueuedAlike(f, fam, cfg, Prerouting, p, stack)
  {
    QueuedMeans(f, fam, cfg, Prerouting, NewPacket(fam, name, 0), stack);
    NewPacketSelected(fam, cfg, name);
  }

  lemma NewPacketSelected(fam: Family, cfg: Config, name: string)
    requires cfg.numbers.fwmark != 0 && !cfg.flags.alliface
    ensures var p := NewPacket(fam, name, 0);
            && (IptSelected(fam, cfg, Prerouting, p) <==> AnyIptMatch(cfg.ifaces, name))
            && (NftSelected(fam, cfg, Prerouting, p) <==> AnyNftMatch(cfg.ifaces, name))
  {
  }

  lemma TaggedErrorsAreIcmp(fam: Family, p: Packet)
    ensures QuotesTag(fam, p) ==> p.l4proto == if fam == V4 then 1 else 58
  {
    assert Nft.TaggedError(fam)[0] in Nft.TaggedError(fam);
  }

  /** A single name is read alike by both tools exactly when neither reads it as a pattern. */
  lemma NamesReadAlike(name: string)
    ensures (forall n: string :: IptNameMatches(name, n) == NftNameMatches(name, n)) <==> PlainName(name)
  {
    if name != "" && (name[|name| - 1] == '+' || name[|name| - 1] == '*') {
      var shorter := name[..|name| - 1];
      assert IptNameMatches(name, shorter) != NftNameMatches(name, shorter);
    }
  }

  /**
   Decoys are never queued again. With a mark that lies within the mask (the test of the option
   parser), a packet that carries the mark passes both rulesets as if they were not there, at
   either hook and on any interface, whatever the -i names are and whatever else it looks like.
   */
  lemma DecoysAreNotQueued(f: Chains, fam: Family, cfg: Config, hook: Hook, p: Packet, stack: nat)
    requires Ipt.Clean(f) && NoBuiltinJumps(f) && stack >= 2
    requires And(cfg.numbers.fwmark, cfg.numbers.fwmask) == cfg.numbers.fwmark
    requires p.mark == cfg.numbers.fwmark && p.l4proto == 17
    ensures var ipt := Ipt.Installed(f, fam, cfg);
            var nft := Nft.Installed(fam, cfg);
            && Traverse(ipt, ipt[Builtin(hook)], p, stack) == Traverse(f, f[Builtin(hook)], p, stack)
            && Traverse(nft, nft[NftChain(hook)], p, stack) == Fallthrough
  {
    IptVerdict(f, fam, cfg, hook, p, stack);
    NftVerdict(fam, cfg, hook, p, stack);
    TaggedErrorsAreIcmp(fam, p);
  }

  /** The option parser's test is exactly what keeps marked packets out, with either back end. */
  lemma MarkTestIsExact(fam: Family, cfg: Config)
    requires cfg.flags.alliface || cfg.ifaces != []
    ensures And(cfg.numbers.fwmark, cfg.numbers.fwmask) == cfg.numbers.fwmark <==>
            forall hook, p: Packet | p.mark == cfg.numbers.fwmark :: !IptSelected(fam, cfg, hook, p)
    ensures And(cfg.numbers.fwmark, cfg.numbers.fwmask) == cfg.numbers.fwmark <==>
            forall hook, p: Packet | p.mark == cfg.numbers.fwmark :: !NftSelected(fam, cfg, hook, p)
  {
    var name := if cfg.ifaces == [] then "" else cfg.ifaces[0];
    var p := NewPacket(fam, name, cfg.numbers.fwmark);
    LiteralMatches(name);
    var fits := And(cfg.numbers.fwmark, cfg.numbers.fwmask) == cfg.numbers.fwmark;
    assert IptSelected(fam, cfg, Prerouting, p) == NftSelected(fam, cfg, Prerouting, p) == !fits;
  }
}
