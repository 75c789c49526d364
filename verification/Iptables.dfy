/**
 The iptables back end: the commands of ipv4ipt.c and ipv6ipt.c, what each command does to the
 mangle table, and the set-up and clean-up programs.
 */
module Iptables {
  import opened Wrappers
  import opened Context
  import opened Netfilter

  datatype Command =
    | NewChain(chain: ChainId)                    // -N
    | InsertRule(chain: ChainId, rule: Rule)      // -I
    | AppendRule(chain: ChainId, rule: Rule)      // -A
    | Flush(chain: ChainId)                       // -F
    | DeleteRule(chain: ChainId, rule: Rule)      // -D
    | DeleteChain(chain: ChainId)                 // -X

  // ---- what one command does

  predicate Referenced(t: Chains, c: ChainId)
  {
    exists k | k in t :: exists r | r in t[k] :: r.target == Jump(c)
  }

  predicate TargetKnown(t: Chains, r: Rule)
  {
    r.target.Jump? ==> r.target.chain in t
  }

  function RemoveFirst(rules: seq<Rule>, r: Rule): seq<Rule>
  {
    if rules == [] then []
    else if rules[0] == r then rules[1..]
    else [rules[0]] + RemoveFirst(rules[1..], r)
  }

  /** The table after a command that succeeds, or None for one that the kernel refuses. */
  function Apply(t: Chains, cmd: Command): Option<Chains>
  {
    match cmd
    case NewChain(c) =>
      if c in t then None else Some(t[c := []])
    case InsertRule(c, r) =>
      if c in t && TargetKnown(t, r) then Some(t[c := [r] + t[c]]) else None
    case AppendRule(c, r) =>
      if c in t && TargetKnown(t, r) then Some(t[c := t[c] + [r]]) else None
    case Flush(c) =>
      if c in t then Some(t[c := []]) else None
    case DeleteRule(c, r) =>
      if c in t && TargetKnown(t, r) && r in t[c] then Some(t[c := RemoveFirst(t[c], r)]) else None
    case DeleteChain(c) =>
      if c in t && !c.Builtin? && t[c] == [] && !Referenced(t, c) then Some(t - {c}) else None
  }

  /** The table after a command, which a refused command leaves alone. */
  function After(t: Chains, cmd: Command): Chains
  {
    match Apply(t, cmd)
    case Some(t') => t'
    case None => t
  }

  function Run(t: Chains, cmds: seq<Command>): Chains
    decreases |cmds|
  {
    if cmds == [] then t else Run(After(t, cmds[0]), cmds[1..])
  }

  /** No command of the list is refused. */
  predicate AllAccepted(t: Chains, cmds: seq<Command>)
    decreases |cmds|
  {
    cmds == [] || (Apply(t, cmds[0]).Some? && AllAccepted(After(t, cmds[0]), cmds[1..]))
  }

  // ---- the programs

  function Cidr4(a: byte, b: byte, c: byte, d: byte, len: nat): Prefix
    requires len <= 32
  {
    Prefix(((a * 256 + b) * 256 + c) * 256 + d, 32 - len)
  }

  function LocalBlocks4(): seq<Prefix>
  {
    [Cidr4(0, 0, 0, 0, 8), Cidr4(10, 0, 0, 0, 8), Cidr4(100, 64, 0, 0, 10), Cidr4(127, 0, 0, 0, 8),
     Cidr4(169, 254, 0, 0, 16), Cidr4(172, 16, 0, 0, 12), Cidr4(192, 168, 0, 0, 16), Cidr4(224, 0, 0, 0, 3)]
  }

  /** The block 2000::/3. */
  const GLOBAL_UNICAST_6 := Prefix(0x2000_0000_0000_0000_0000_0000_0000_0000, 125)

  const HOOK_S := Rule([], Jump(FakesipS))
  const HOOK_D := Rule([], Jump(FakesipD))

  function ReturnRule(m: Match): Rule
  {
    Rule([m], Return)
  }

  function SourceExclusions(fam: Family): seq<Rule>
  {
    match fam
    case V4 => seq(8, i requires 0 <= i < 8 => ReturnRule(Source(true, LocalBlocks4()[i])))
    case V6 => [ReturnRule(Source(false, GLOBAL_UNICAST_6))]
  }

  function DestinationExclusions(fam: Family): seq<Rule>
  {
    match fam
    case V4 => seq(8, i requires 0 <= i < 8 => ReturnRule(Destination(true, LocalBlocks4()[i])))
    case V6 => [ReturnRule(Destination(false, GLOBAL_UNICAST_6))]
  }

  function QueueRules(cfg: Config): seq<Rule>
  {
    [ReturnRule(MaskedMark(cfg.numbers.fwmask, cfg.numbers.fwmark)),
     Rule([Protocol(17), ConnectionPackets(1, 5)], Enqueue(cfg.numbers.nfqnum))]
  }

  function Appends(c: ChainId, rules: seq<Rule>): seq<Command>
  {
    seq(|rules|, i requires 0 <= i < |rules| => AppendRule(c, rules[i]))
  }

  const FRAME_COMMANDS: seq<Command> :=
    [NewChain(FakesipS), NewChain(FakesipD),
     InsertRule(Builtin(Prerouting), HOOK_S), InsertRule(Builtin(Postrouting), HOOK_D),
     NewChain(FakesipR)]

  function InputJump(name: string): Rule
  {
    Rule([IptInput(name)], Jump(FakesipR))
  }

  function OutputJump(name: string): Rule
  {
    Rule([IptOutput(name)], Jump(FakesipR))
  }

  /** For each interface, one rule in FAKESIP_S and one in FAKESIP_D. */
  function PairCommands(names: seq<string>): seq<Command>
  {
    if names == [] then []
    else [AppendRule(FakesipS, InputJump(names[0])), AppendRule(FakesipD, OutputJump(names[0]))]
         + PairCommands(names[1..])
  }

  function InterfaceCommands(cfg: Config): seq<Command>
  {
    if cfg.flags.alliface then
      [AppendRule(FakesipS, Rule([], Jump(FakesipR))), AppendRule(FakesipD, Rule([], Jump(FakesipR)))]
    else
      PairCommands(cfg.ifaces)
  }

  function RuleCommands(fam: Family, cfg: Config): seq<Command>
  {
    FRAME_COMMANDS + Appends(FakesipS, SourceExclusions(fam)) + Appends(FakesipD, DestinationExclusions(fam))
    + Appends(FakesipR, QueueRules(cfg))
  }

  /** What set-up issues after its own clean-up. */
  function InstallCommands(fam: Family, cfg: Config): seq<Command>
  {
    RuleCommands(fam, cfg) + InterfaceCommands(cfg)
  }

  const CLEANUP_COMMANDS: seq<Command> :=
    [Flush(FakesipR), Flush(FakesipS), Flush(FakesipD),
     DeleteRule(Builtin(Prerouting), HOOK_S), DeleteRule(Builtin(Postrouting), HOOK_D),
     DeleteChain(FakesipR), DeleteChain(FakesipS), DeleteChain(FakesipD)]

  function SetupProgram(fam: Family, cfg: Config): seq<Command>
  {
    CLEANUP_COMMANDS + InstallCommands(fam, cfg)
  }

  // ---- the table that a completed set-up leaves

  function InputRules(names: seq<string>): seq<Rule>
  {
    seq(|names|, i requires 0 <= i < |names| => InputJump(names[i]))
  }

  function OutputRules(names: seq<string>): seq<Rule>
  {
    seq(|names|, i requires 0 <= i < |names| => OutputJump(names[i]))
  }

  function InputJumps(cfg: Config): seq<Rule>
  {
    if cfg.flags.alliface then [Rule([], Jump(FakesipR))] else InputRules(cfg.ifaces)
  }

  function OutputJumps(cfg: Config): seq<Rule>
  {
    if cfg.flags.alliface then [Rule([], Jump(FakesipR))] else OutputRules(cfg.ifaces)
  }

  function Installed(foreign: Chains, fam: Family, cfg: Config): Chains
    requires Builtin(Prerouting) in foreign && Builtin(Postrouting) in foreign
  {
    foreign[Builtin(Prerouting) := [HOOK_S] + foreign[Builtin(Prerouting)]]
           [Builtin(Postrouting) := [HOOK_D] + foreign[Builtin(Postrouting)]]
           [FakesipS := SourceExclusions(fam) + InputJumps(cfg)]
           [FakesipD := DestinationExclusions(fam) + OutputJumps(cfg)]
           [FakesipR := QueueRules(cfg)]
  }

  // ---- the part of a table that belongs to others, and the invariant of every run

  predicate Own(c: ChainId)
  {
    c == FakesipS || c == FakesipD || c == FakesipR
  }

  predicate JumpsToOwn(r: Rule)
  {
    r.target.Jump? && Own(r.target.chain)
  }

  /** A rule list without the jumps into the program's own chains. */
  function Others(rules: seq<Rule>): seq<Rule>
  {
    if rules == [] then []
    else if JumpsToOwn(rules[0]) then Others(rules[1..])
    else [rules[0]] + Others(rules[1..])
  }

  /** The table as it would be had the program never run: same foreign rules, same order. */
  function Foreign(t: Chains): Chains
  {
    map c | c in t && !Own(c) :: Others(t[c])
  }

  predicate RuleAllowed(c: ChainId, r: Rule)
  {
    JumpsToOwn(r) ==>
      || (c == Builtin(Prerouting) && r == HOOK_S)
      || (c == Builtin(Postrouting) && r == HOOK_D)
      || ((c == FakesipS || c == FakesipD) && r.target.chain == FakesipR)
  }

  predicate HookOnce(t: Chains, c: ChainId, hook: Rule)
    requires hook.target.Jump?
  {
    && c in t
    && RemoveFirst(t[c], hook) == Others(t[c])
    && (hook in t[c] ==> hook.target.chain in t)
  }

  /**
   What holds between any two commands of any set-up or clean-up, finished or cut short: at most
   one hook per built-in chain, pointing at a chain that exists, and no other way into the
   program's chains.
   */
  ghost predicate Inv(t: Chains)
  {
    && (forall c, r | c in t && r in t[c] :: RuleAllowed(c, r))
    && HookOnce(t, Builtin(Prerouting), HOOK_S)
    && HookOnce(t, Builtin(Postrouting), HOOK_D)
  }

  ghost predicate Clean(t: Chains)
  {
    Inv(t) && Foreign(t) == t
  }
}
