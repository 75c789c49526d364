/**
 The nft back end: the ruleset of ipv4nft.c and ipv6nft.c, what each nft command does to the
 kernel's tables, and the set-up and clean-up functions.
 */
module Nftables {
  import opened Wrappers
  import opened Context
  import opened Netfilter
  import opened Packets
  import opened Process

  /** The table "fakesip" of either family, or a table of somebody else. */
  datatype TableId = Fakesip(family: Family) | ForeignTable(name: string)

  type Tables = map<TableId, Chains>

  datatype Command =
    | DeleteTable(table: TableId)
    | Load(table: TableId, content: Chains)                        // nft -f -
    | InsertRule(table: TableId, chain: ChainId, rule: Rule)       // at the head
    | AddRule(table: TableId, chain: ChainId, rule: Rule)          // at the tail

  predicate TargetKnown(t: Chains, r: Rule)
  {
    r.target.Jump? ==> r.target.chain in t
  }

  /** Loading into a table that exists adds to its chains. */
  function Merge(old_: Chains, added: Chains): Chains
  {
    map c | c in old_.Keys + added.Keys ::
      (if c in old_ then old_[c] else []) + (if c in added then added[c] else [])
  }

  /** The tables after a command that succeeds, or None for one that the kernel refuses. */
  function Apply(ts: Tables, cmd: Command): Option<Tables>
  {
    match cmd
    case DeleteTable(n) =>
      if n in ts then Some(ts - {n}) else None
    case Load(n, content) =>
      Some(ts[n := Merge(if n in ts then ts[n] else map[], content)])
    case InsertRule(n, c, r) =>
      if n in ts && c in ts[n] && TargetKnown(ts[n], r) then Some(ts[n := ts[n][c := [r] + ts[n][c]]]) else None
    case AddRule(n, c, r) =>
      if n in ts && c in ts[n] && TargetKnown(ts[n], r) then Some(ts[n := ts[n][c := ts[n][c] + [r]]]) else None
  }

  function After(ts: Tables, cmd: Command): Tables
  {
    match Apply(ts, cmd)
    case Some(ts') => ts'
    case None => ts
  }

  // ---- the ruleset

  function ReturnRule(m: Match): Rule
  {
    Rule([m], Return)
  }

  /** The IPv4 blocks of the ruleset text, as base address and host bits. */
  function LocalBlocks(): seq<Prefix>
  {
    [Prefix(0x0000_0000, 24), Prefix(0x0A00_0000, 24), Prefix(0x6440_0000, 22), Prefix(0x7F00_0000, 24),
     Prefix(0xA9FE_0000, 16), Prefix(0xAC10_0000, 20), Prefix(0xC0A8_0000, 16), Prefix(0xE000_0000, 29)]
  }

  const GLOBAL_UNICAST := Prefix(0x2000_0000_0000_0000_0000_0000_0000_0000, 125)

  function SourceReturns(fam: Family): seq<Rule>
  {
    match fam
    case V4 => seq(8, i requires 0 <= i < 8 => ReturnRule(Source(true, LocalBlocks()[i])))
    case V6 => [ReturnRule(Source(false, GLOBAL_UNICAST))]
  }

  function DestinationReturns(fam: Family): seq<Rule>
  {
    match fam
    case V4 => seq(8, i requires 0 <= i < 8 => ReturnRule(Destination(true, LocalBlocks()[i])))
    case V6 => [ReturnRule(Destination(false, GLOBAL_UNICAST))]
  }

  function QueueRules(cfg: Config): seq<Rule>
  {
    [Rule([MaskedMark(cfg.numbers.fwmask, cfg.numbers.fwmark)], Return),
     Rule([Protocol(17), ConnectionPackets(1, 5)], Enqueue(cfg.numbers.nfqnum))]
  }

  function Ruleset(fam: Family, cfg: Config): Chains
  {
    map[FsPrerouting := SourceReturns(fam), FsPostrouting := DestinationReturns(fam), FsRules := QueueRules(cfg)]
  }

  /**
   A time-exceeded message that quotes a decoy. The quoted IP header starts 8 bytes into the ICMP
   message, so its identification is at bit 96 and its first word at bit 64.
   */
  function TaggedError(fam: Family): seq<Match>
  {
    match fam
    case V4 => [IcmpType(1, 11), TransportBytes(12, [Hi(FAKE_IPV4_ID), Lo(FAKE_IPV4_ID)])]
    case V6 => [IcmpType(58, 3), TransportBytes(8, FAKE_IPV6_FLOW_WORD)]
  }

  function InputMatch(name: Option<string>): seq<Match>
  {
    if name.None? then [] else [NftInput(name.value)]
  }

  function OutputMatch(name: Option<string>): seq<Match>
  {
    if name.None? then [] else [NftOutput(name.value)]
  }

  function DropRule(fam: Family, name: Option<string>): Rule
  {
    Rule(InputMatch(name) + TaggedError(fam), DropPacket)
  }

  function InputJump(name: Option<string>): Rule
  {
    Rule(InputMatch(name), Jump(FsRules))
  }

  function OutputJump(name: Option<string>): Rule
  {
    Rule(OutputMatch(name), Jump(FsRules))
  }

  /** The interface arguments that rules are made for, in order; None stands for all interfaces. */
  function InterfaceNames(cfg: Config): seq<Option<string>>
  {
    if cfg.flags.alliface then [None] else seq(|cfg.ifaces|, i requires 0 <= i < |cfg.ifaces| => Some(cfg.ifaces[i]))
  }

  /** Rules inserted at the head end up in reverse. */
  function DropRules(fam: Family, names: seq<Option<string>>): seq<Rule>
  {
    if names == [] then [] else DropRules(fam, names[1..]) + [DropRule(fam, names[0])]
  }

  function InputJumps(names: seq<Option<string>>): seq<Rule>
  {
    seq(|names|, i requires 0 <= i < |names| => InputJump(names[i]))
  }

  function OutputJumps(names: seq<Option<string>>): seq<Rule>
  {
    seq(|names|, i requires 0 <= i < |names| => OutputJump(names[i]))
  }

  /** The table with the rules for `names` added. */
  function WithInterfaces(fam: Family, cfg: Config, names: seq<Option<string>>): Chains
  {
    map[FsPrerouting := DropRules(fam, names) + SourceReturns(fam) + InputJumps(names),
        FsPostrouting := DestinationReturns(fam) + OutputJumps(names),
        FsRules := QueueRules(cfg)]
  }

  /** What a finished set-up leaves in the table "fakesip" of its family. */
  function Installed(fam: Family, cfg: Config): Chains
  {
    WithInterfaces(fam, cfg, InterfaceNames(cfg))
  }

  lemma {:induction false} DropRulesSnoc(fam: Family, names: seq<Option<string>>, name: Option<string>)
    ensures DropRules(fam, names + [name]) == [DropRule(fam, name)] + DropRules(fam, names)
  {
    if names == [] {
      assert names + [name] == [name];
      assert [name][1..] == [];
    } else {
      assert (names + [name])[1..] == names[1..] + [name];
      DropRulesSnoc(fam, names[1..], name);
    }
  }

  lemma LoadFresh(ts: Tables, n: TableId, content: Chains)
    requires n !in ts
    ensures After(ts, Load(n, content)) == ts[n := content]
  {
    var empty: Chains := map[];
    var merged := Merge(empty, content);
    forall c | c in content
      ensures merged[c] == content[c]
    {
      assert [] + content[c] == content[c];
    }
    assert merged == content;
  }

  /** The three commands for one interface, on any table that has the three chains. */
  lemma TripleRuns(ts: Tables, n: TableId, drop: Rule, input: Rule, output: Rule)
    requires n in ts && FsPrerouting in ts[n] && FsPostrouting in ts[n] && FsRules in ts[n]
    requires !drop.target.Jump? && input.target == output.target == Jump(FsRules)
    ensures var a := Apply(ts, InsertRule(n, FsPrerouting, drop));
            && a.Some?
            && var b := Apply(a.value, AddRule(n, FsPrerouting, input));
            && b.Some?
            && var c := Apply(b.value, AddRule(n, FsPostrouting, output));
            && c == Some(ts[n := ts[n][FsPrerouting := [drop] + ts[n][FsPrerouting] + [input]]
                                      [FsPostrouting := ts[n][FsPostrouting] + [output]]])
  {
    var a := Apply(ts, InsertRule(n, FsPrerouting, drop));
    var t1 := ts[n][FsPrerouting := [drop] + ts[n][FsPrerouting]];
    assert a == Some(ts[n := t1]);
    var t2 := ts[n][FsPrerouting := [drop] + ts[n][FsPrerouting] + [input]];
    assert t1[FsPrerouting := t1[FsPrerouting] + [input]] == t2;
    var b := Apply(a.value, AddRule(n, FsPrerouting, input));
    assert TargetKnown(t1, input);
    assert b == Some(ts[n := t1][n := t2]);
    assert ts[n := t1][n := t2] == ts[n := t2];
    assert TargetKnown(t2, output);
    var t3 := t2[FsPostrouting := ts[n][FsPostrouting] + [output]];
    assert Apply(b.value, AddRule(n, FsPostrouting, output)) == Some(ts[n := t2][n := t3]);
    assert ts[n := t2][n := t3] == ts[n := t3];
  }

  /** Each chain with one interface more. */
  lemma InputOneMore(fam: Family, names: seq<Option<string>>, name: Option<string>, body: seq<Rule>)
    ensures DropRules(fam, names + [name]) + body + InputJumps(names + [name]) ==
            [DropRule(fam, name)] + (DropRules(fam, names) + body + InputJumps(names)) + [InputJump(name)]
  {
    DropRulesSnoc(fam, names, name);
    assert InputJumps(names + [name]) == InputJumps(names) + [InputJump(name)];
    var drops, jumps := DropRules(fam, names), InputJumps(names);
    assert ([DropRule(fam, name)] + drops) + body + (jumps + [InputJump(name)]) ==
           [DropRule(fam, name)] + (drops + body + jumps) + [InputJump(name)];
  }

  lemma OutputOneMore(names: seq<Option<string>>, name: Option<string>, body: seq<Rule>)
    ensures body + OutputJumps(names + [name]) == (body + OutputJumps(names)) + [OutputJump(name)]
  {
    assert OutputJumps(names + [name]) == OutputJumps(names) + [OutputJump(name)];
    assert body + (OutputJumps(names) + [OutputJump(name)]) == (body + OutputJumps(names)) + [OutputJump(name)];
  }

  /** One interface more in the description of the table. */
  lemma WithOneMore(fam: Family, cfg: Config, names: seq<Option<string>>, name: Option<string>)
    ensures var t := WithInterfaces(fam, cfg, names);
            WithInterfaces(fam, cfg, names + [name]) ==
            t[FsPrerouting := [DropRule(fam, name)] + t[FsPrerouting] + [InputJump(name)]]
             [FsPostrouting := t[FsPostrouting] + [OutputJump(name)]]
  {
    InputOneMore(fam, names, name, SourceReturns(fam));
    OutputOneMore(names, name, DestinationReturns(fam));
  }

  lemma WithNone(fam: Family, cfg: Config)
    ensures WithInterfaces(fam, cfg, []) == Ruleset(fam, cfg)
  {
    var t := WithInterfaces(fam, cfg, []);
    assert t[FsPrerouting] == SourceReturns(fam);
    assert t[FsPostrouting] == DestinationReturns(fam);
  }

  lemma HasChains(fam: Family, cfg: Config, names: seq<Option<string>>)
    ensures var t := WithInterfaces(fam, cfg, names); FsPrerouting in t && FsPostrouting in t && FsRules in t
  {
  }

  // ---- the programs

  function Run(ts: Tables, cmds: seq<Command>): Tables
    decreases |cmds|
  {
    if cmds == [] then ts else After(Run(ts, cmds[..|cmds| - 1]), cmds[|cmds| - 1])
  }

  /** `t` is what some prefix of the commands makes of `ts`. */
  ghost predicate CutOff(ts: Tables, cmds: seq<Command>, t: Tables)
  {
    exists k | 0 <= k <= |cmds| :: t == Run(ts, cmds[..k])
  }

  function TripleCommands(fam: Family, name: Option<string>): seq<Command>
  {
    [InsertRule(Fakesip(fam), FsPrerouting, DropRule(fam, name)),
     AddRule(Fakesip(fam), FsPrerouting, InputJump(name)),
     AddRule(Fakesip(fam), FsPostrouting, OutputJump(name))]
  }

  function InterfaceCommands(fam: Family, names: seq<Option<string>>): seq<Command>
  {
    if names == [] then []
    else InterfaceCommands(fam, names[..|names| - 1]) + TripleCommands(fam, names[|names| - 1])
  }

  function CleanupProgram(fam: Family): seq<Command>
  {
    [DeleteTable(Fakesip(fam))]
  }

  function LoadCommands(fam: Family, cfg: Config): seq<Command>
  {
    CleanupProgram(fam) + [Load(Fakesip(fam), Ruleset(fam, cfg))]
  }

  function SetupProgram(fam: Family, cfg: Config): seq<Command>
  {
    LoadCommands(fam, cfg) + InterfaceCommands(fam, InterfaceNames(cfg))
  }

  lemma {:induction false} RunConcat(ts: Tables, a: seq<Command>, b: seq<Command>)
    ensures Run(ts, a + b) == Run(Run(ts, a), b)
    decreases |b|
  {
    if b == [] {
      assert a + b == a;
    } else {
      RunConcat(ts, a, b[..|b| - 1]);
      assert (a + b)[..|a + b| - 1] == a + b[..|b| - 1];
    }
  }

  /** Commands about the program's own table change no other table. */
  lemma {:induction false} RunKeepsOthers(ts: Tables, n: TableId, cmds: seq<Command>)
    requires forall c | c in cmds :: c.table == n
    ensures Run(ts, cmds) - {n} == ts - {n}
    decreases |cmds|
  {
    if cmds != [] {
      RunKeepsOthers(ts, n, cmds[..|cmds| - 1]);
      assert cmds[|cmds| - 1] in cmds;
    }
  }

  lemma {:induction false} InterfacesConcernOwn(fam: Family, names: seq<Option<string>>)
    ensures forall c | c in InterfaceCommands(fam, names) :: c.table == Fakesip(fam)
  {
    if names != [] {
      InterfacesConcernOwn(fam, names[..|names| - 1]);
    }
  }

  /** A set-up cut off after any command has touched no table but its own. */
  lemma SetupPrefix(ts: Tables, fam: Family, cfg: Config, k: nat)
    requires k <= |SetupProgram(fam, cfg)|
    ensures Run(ts, SetupProgram(fam, cfg)[..k]) - {Fakesip(fam)} == ts - {Fakesip(fam)}
  {
    InterfacesConcernOwn(fam, InterfaceNames(cfg));
    RunKeepsOthers(ts, Fakesip(fam), SetupProgram(fam, cfg)[..k]);
  }

  lemma RunTriple(ts: Tables, fam: Family, name: Option<string>)
    ensures var cmds := TripleCommands(fam, name);
            Run(ts, cmds) == After(After(After(ts, cmds[0]), cmds[1]), cmds[2])
    ensures var cmds := TripleCommands(fam, name);
            && Run(ts, cmds[..0]) == ts && Run(ts, cmds[..1]) == After(ts, cmds[0])
            && Run(ts, cmds[..2]) == After(After(ts, cmds[0]), cmds[1])
  {
    var cmds := TripleCommands(fam, name);
    assert cmds[..3] == cmds && cmds[..3][..2] == cmds[..2] && cmds[..2][..1] == cmds[..1] && cmds[..1][..0] == [];
    assert Run(ts, cmds[..1]) == After(ts, cmds[0]);
    assert Run(ts, cmds[..2]) == After(Run(ts, cmds[..1]), cmds[1]);
  }

  lemma Overwrite(ts: Tables, n: TableId, a: Chains, b: Chains)
    ensures ts[n := a][n := b] == ts[n := b] && (ts - {n})[n := b] == ts[n := b]
    ensures n in ts ==> ts[n := ts[n]] == ts
  {
  }

  /** The three commands for one more interface. */
  lemma RunOneMore(ts: Tables, fam: Family, cfg: Config, names: seq<Option<string>>, name: Option<string>)
    requires Fakesip(fam) in ts && ts[Fakesip(fam)] == WithInterfaces(fam, cfg, names)
    ensures Run(ts, TripleCommands(fam, name)) == ts[Fakesip(fam) := WithInterfaces(fam, cfg, names + [name])]
  {
    HasChains(fam, cfg, names);
    TripleRuns(ts, Fakesip(fam), DropRule(fam, name), InputJump(name), OutputJump(name));
    RunTriple(ts, fam, name);
    WithOneMore(fam, cfg, names, name);
  }

  /** The commands of any number of interfaces, on the loaded ruleset. */
  lemma {:induction false} RunInterfaces(ts: Tables, fam: Family, cfg: Config, names: seq<Option<string>>)
    requires Fakesip(fam) in ts && ts[Fakesip(fam)] == WithInterfaces(fam, cfg, [])
    ensures Run(ts, InterfaceCommands(fam, names)) == ts[Fakesip(fam) := WithInterfaces(fam, cfg, names)]
  {
    var n := Fakesip(fam);
    Overwrite(ts, n, ts[n], ts[n]);
    if names != [] {
      var front, name := names[..|names| - 1], names[|names| - 1];
      var t, t' := WithInterfaces(fam, cfg, front), WithInterfaces(fam, cfg, front + [name]);
      RunInterfaces(ts, fam, cfg, front);
      RunConcat(ts, InterfaceCommands(fam, front), TripleCommands(fam, name));
      RunOneMore(ts[n := t], fam, cfg, front, name);
      Overwrite(ts, n, t, t');
      assert front + [name] == names;
    }
  }

  lemma RunLoad(ts: Tables, fam: Family, cfg: Config)
    ensures Run(ts, LoadCommands(fam, cfg)) == ts[Fakesip(fam) := WithInterfaces(fam, cfg, [])]
    ensures Run(ts, CleanupProgram(fam)) == ts - {Fakesip(fam)}
  {
    var n := Fakesip(fam);
    var cmds := LoadCommands(fam, cfg);
    assert cmds[..1] == CleanupProgram(fam) && CleanupProgram(fam)[..0] == [];
    assert Run(ts, CleanupProgram(fam)) == After(ts, DeleteTable(n));
    assert Run(ts, cmds) == After(Run(ts, cmds[..1]), Load(n, Ruleset(fam, cfg)));
    LoadFresh(ts - {n}, n, Ruleset(fam, cfg));
    WithNone(fam, cfg);
    Overwrite(ts, n, Ruleset(fam, cfg), Ruleset(fam, cfg));
    assert cmds[|cmds| - 1] == Load(n, Ruleset(fam, cfg)) && cmds[..|cmds| - 1] == CleanupProgram(fam);
  }

  /** From any tables whatever, the whole program leaves exactly the described ruleset. */
  lemma SetupInstalls(ts: Tables, fam: Family, cfg: Config)
    ensures Run(ts, SetupProgram(fam, cfg)) == ts[Fakesip(fam) := Installed(fam, cfg)]
  {
    RunLoad(ts, fam, cfg);
    RunConcat(ts, LoadCommands(fam, cfg), InterfaceCommands(fam, InterfaceNames(cfg)));
    RunInterfaces(Run(ts, LoadCommands(fam, cfg)), fam, cfg, InterfaceNames(cfg));
  }

  lemma {:induction false} InterfacesPrefix(fam: Family, names: seq<Option<string>>, i: nat)
    requires i <= |names|
    ensures InterfaceCommands(fam, names[..i]) <= InterfaceCommands(fam, names)
    decreases |names|
  {
    if i == |names| {
      assert names[..i] == names;
    } else {
      InterfacesPrefix(fam, names[..|names| - 1], i);
      assert names[..|names| - 1][..i] == names[..i];
    }
  }

  lemma NextTriple(fam: Family, names: seq<Option<string>>, i: nat)
    requires i < |names|
    ensures InterfaceCommands(fam, names[..i + 1]) == InterfaceCommands(fam, names[..i]) + TripleCommands(fam, names[i])
  {
    assert names[..i + 1][..i] == names[..i];
  }

  /** A cut within the commands of one interface is a cut of all of them. */
  lemma CutOffWithin(ts: Tables, a: seq<Command>, b: seq<Command>, all: seq<Command>, t: Tables)
    requires a + b <= all && CutOff(Run(ts, a), b, t)
    ensures CutOff(ts, all, t)
  {
    var k :| 0 <= k <= |b| && t == Run(Run(ts, a), b[..k]);
    RunConcat(ts, a, b[..k]);
    assert all[..|a| + k] == a + b[..k];
  }

  /** The three commands are accepted one after another; each state on the way is a cut-off. */
  lemma TripleStages(ts: Tables, fam: Family, name: Option<string>)
    requires Fakesip(fam) in ts
    requires var t := ts[Fakesip(fam)]; FsPrerouting in t && FsPostrouting in t && FsRules in t
    ensures var cmds := TripleCommands(fam, name);
            && CutOff(ts, cmds, ts) && Apply(ts, cmds[0]).Some?
            && var a := After(ts, cmds[0]);
            && CutOff(ts, cmds, a) && Apply(a, cmds[1]).Some?
            && var b := After(a, cmds[1]);
            && CutOff(ts, cmds, b) && Apply(b, cmds[2]).Some?
            && After(b, cmds[2]) == Run(ts, cmds) && CutOff(ts, cmds, Run(ts, cmds))
  {
    TripleRuns(ts, Fakesip(fam), DropRule(fam, name), InputJump(name), OutputJump(name));
    RunTriple(ts, fam, name);
    WholeRun(ts, TripleCommands(fam, name));
  }

  /** What one round of the loop over the interfaces relies on. */
  lemma BeforeInterface(ts: Tables, fam: Family, cfg: Config, names: seq<Option<string>>, i: nat)
    requires Fakesip(fam) in ts && ts[Fakesip(fam)] == WithInterfaces(fam, cfg, []) && i < |names|
    ensures var now, n := Run(ts, InterfaceCommands(fam, names[..i])), Fakesip(fam);
            && n in now && FsPrerouting in now[n] && FsPostrouting in now[n] && FsRules in now[n]
            && Run(now, TripleCommands(fam, names[i])) == Run(ts, InterfaceCommands(fam, names[..i + 1]))
            && forall t | CutOff(now, TripleCommands(fam, names[i]), t) :: CutOff(ts, InterfaceCommands(fam, names), t)
  {
    var done, triple := InterfaceCommands(fam, names[..i]), TripleCommands(fam, names[i]);
    RunInterfaces(ts, fam, cfg, names[..i]);
    NextTriple(fam, names, i);
    RunConcat(ts, done, triple);
    InterfacesPrefix(fam, names, i + 1);
    forall t | CutOff(Run(ts, done), triple, t)
      ensures CutOff(ts, InterfaceCommands(fam, names), t)
    {
      CutOffWithin(ts, done, triple, InterfaceCommands(fam, names), t);
    }
  }

  lemma AllInterfacesRun(ts: Tables, fam: Family, cfg: Config, names: seq<Option<string>>)
    requires Fakesip(fam) in ts && ts[Fakesip(fam)] == WithInterfaces(fam, cfg, [])
    ensures var t := Run(ts, InterfaceCommands(fam, names));
            t == ts[Fakesip(fam) := WithInterfaces(fam, cfg, names)] && CutOff(ts, InterfaceCommands(fam, names), t)
  {
    RunInterfaces(ts, fam, cfg, names);
    WholeRun(ts, InterfaceCommands(fam, names));
  }

  /** After the clean-up, the load either takes place or not. */
  lemma LoadKeepsOrLoads(ts: Tables, fam: Family, cfg: Config)
    ensures CutOff(ts, SetupProgram(fam, cfg), Run(ts, CleanupProgram(fam)))
    ensures CutOff(ts, SetupProgram(fam, cfg), Run(ts, LoadCommands(fam, cfg)))
    ensures Run(ts, LoadCommands(fam, cfg)) ==
            After(Run(ts, CleanupProgram(fam)), Load(Fakesip(fam), Ruleset(fam, cfg)))
  {
    var program := SetupProgram(fam, cfg);
    assert program[..1] == CleanupProgram(fam) && program[..2] == LoadCommands(fam, cfg);
    assert LoadCommands(fam, cfg)[..1] == CleanupProgram(fam);
  }

  lemma CutOffKeepsOthers(ts: Tables, fam: Family, cfg: Config, t: Tables)
    requires CutOff(ts, SetupProgram(fam, cfg), t)
    ensures t - {Fakesip(fam)} == ts - {Fakesip(fam)}
  {
    var k :| 0 <= k <= |SetupProgram(fam, cfg)| && t == Run(ts, SetupProgram(fam, cfg)[..k]);
    SetupPrefix(ts, fam, cfg, k);
  }

  lemma WholeRun(ts: Tables, cmds: seq<Command>)
    ensures CutOff(ts, cmds, Run(ts, cmds)) && CutOff(ts, cmds, ts)
  {
    assert cmds[..|cmds|] == cmds && cmds[..0] == [];
    assert Run(ts, cmds[..0]) == ts;
  }

  // ---- the functions that issue the commands

  class Ruletables {
    var tables: Tables

    constructor (initial: Tables)
      ensures tables == initial
    {
      tables := initial;
    }

    method Execute(cmd: Command, fault: Fault) returns (ok: bool)
      modifies this
      ensures tables == if fault == NotRun then old(tables) else After(old(tables), cmd)
      ensures ok <==> fault == NoFault && Apply(old(tables), cmd).Some?
    {
      var result := Apply(tables, cmd);
      if fault != NotRun && result.Some? {
        tables := result.value;
      }
      ok := fault == NoFault && result.Some?;
    }

    /** Deleting the table removes everything the program put there; no other table changes. */
    method Cleanup(fam: Family)
      modifies this
      ensures tables == old(tables) - {Fakesip(fam)}
    {
      var _ := Execute(DeleteTable(Fakesip(fam)), NoFault);
    }

    /**
     From any state whatever, finished or cut-off earlier runs included: success leaves exactly
     the ruleset; failure, which happens exactly when a fault strikes, leaves what a cut-off
     program leaves. No other table is touched.
     */
    method Setup(fam: Family, cfg: Config, faults: nat -> Fault) returns (ok: bool)
      modifies this
      ensures ok <==> Faultless(faults, 0, 1 + 3 * |InterfaceNames(cfg)|)
      ensures ok ==> tables == old(tables)[Fakesip(fam) := Installed(fam, cfg)]
      ensures CutOff(old(tables), SetupProgram(fam, cfg), tables)
      ensures tables - {Fakesip(fam)} == old(tables) - {Fakesip(fam)}
    {
      ghost var before := tables;
      ghost var program := SetupProgram(fam, cfg);
      Cleanup(fam);
      LoadKeepsOrLoads(before, fam, cfg);
      RunLoad(before, fam, cfg);
      Overwrite(before, Fakesip(fam), WithInterfaces(fam, cfg, []), Installed(fam, cfg));
      ok := Execute(Load(Fakesip(fam), Ruleset(fam, cfg)), faults(0));
      if ok {
        ok := InterfacesSetup(fam, cfg, faults);
        CutOffWithin(before, LoadCommands(fam, cfg), InterfaceCommands(fam, InterfaceNames(cfg)), program, tables);
      }
      CutOffKeepsOthers(before, fam, cfg, tables);
    }

    method InterfacesSetup(fam: Family, cfg: Config, faults: nat -> Fault) returns (ok: bool)
      requires Fakesip(fam) in tables && tables[Fakesip(fam)] == WithInterfaces(fam, cfg, [])
      requires faults(0) == NoFault
      modifies this
      ensures ok <==> Faultless(faults, 0, 1 + 3 * |InterfaceNames(cfg)|)
      ensures ok ==> tables == old(tables)[Fakesip(fam) := Installed(fam, cfg)]
      ensures CutOff(old(tables), InterfaceCommands(fam, InterfaceNames(cfg)), tables)
    {
      var names := InterfaceNames(cfg);
      var i := 0;
      ghost var done: seq<Command> := [];
      while i < |names|
        invariant 0 <= i <= |names|
        invariant done == InterfaceCommands(fam, names[..i]) && tables == Run(old(tables), done)
        invariant Faultless(faults, 0, 1 + 3 * i)
      {
        ok := InterfaceRound(fam, names, faults, i, cfg, old(tables));
        if !ok {
          return;
        }
        i := i + 1;
        done := InterfaceCommands(fam, names[..i]);
      }
      assert names[..i] == names;
      AllInterfacesRun(old(tables), fam, cfg, names);
      ok := true;
    }

    /** One round of that loop, where `start` is what it began with. */
    method InterfaceRound(fam: Family, names: seq<Option<string>>, faults: nat -> Fault, i: nat,
                          ghost cfg: Config, ghost start: Tables)
      returns (ok: bool)
      requires Fakesip(fam) in start && start[Fakesip(fam)] == WithInterfaces(fam, cfg, [])
      requires i < |names| && tables == Run(start, InterfaceCommands(fam, names[..i]))
      requires Faultless(faults, 0, 1 + 3 * i)
      modifies this
      ensures if ok then Faultless(faults, 0, 1 + 3 * (i + 1)) else !Faultless(faults, 0, 1 + 3 * |names|)
      ensures ok ==> tables == Run(start, InterfaceCommands(fam, names[..i + 1]))
      ensures CutOff(start, InterfaceCommands(fam, names), tables)
    {
      BeforeInterface(start, fam, cfg, names, i);
      FaultlessSplit(faults, 1 + 3 * i, 1 + 3 * (i + 1), 1 + 3 * |names|);
      ok := InterfaceSetup(fam, names[i], faults, 1 + 3 * i);
    }

    /** The tagged drop and the two jumps for one interface, or for all of them. */
    method InterfaceSetup(fam: Family, name: Option<string>, faults: nat -> Fault, base: nat) returns (ok: bool)
      requires Fakesip(fam) in tables
      requires var t := tables[Fakesip(fam)]; FsPrerouting in t && FsPostrouting in t && FsRules in t
      modifies this
      ensures ok <==> Faultless(faults, base, base + 3)
      ensures ok ==> tables == Run(old(tables), TripleCommands(fam, name))
      ensures CutOff(old(tables), TripleCommands(fam, name), tables)
    {
      var n := Fakesip(fam);
      TripleStages(tables, fam, name);
      FaultlessTriple(faults, base);
      ok := Execute(InsertRule(n, FsPrerouting, DropRule(fam, name)), faults(base));
      if ok {
        ok := Execute(AddRule(n, FsPrerouting, InputJump(name)), faults(base + 1));
      }
      if ok {
        ok := Execute(AddRule(n, FsPostrouting, OutputJump(name)), faults(base + 2));
      }
    }
  }
}
