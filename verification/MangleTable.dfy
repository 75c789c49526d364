/** The iptables set-up and clean-up functions as they change the kernel's mangle table. */
module MangleTable {
  import opened Wrappers
  import opened Context
  import opened Netfilter
  import opened Process
  import opened Iptables
  import R = IptablesRecovery

  class Mangle {
    const family: Family
    var chains: Chains

    constructor (family: Family, initial: Chains)
      ensures this.family == family && chains == initial
    {
      this.family := family;
      chains := initial;
    }

    /** One iptables invocation; the result is what fs_execute_command reports. */
    method Execute(cmd: Command, fault: Fault) returns (ok: bool)
      modifies this
      ensures chains == if fault == NotRun then old(chains) else After(old(chains), cmd)
      ensures ok <==> fault == NoFault && Apply(old(chains), cmd).Some?
    {
      var result := Apply(chains, cmd);
      if fault != NotRun && result.Some? {
        chains := result.value;
      }
      ok := fault == NoFault && result.Some?;
    }

    method Cleanup()
      modifies this
      ensures chains == Run(old(chains), CLEANUP_COMMANDS)
      ensures old(Inv(chains)) ==> chains == Foreign(old(chains)) && Clean(chains)
    {
      var i := 0;
      while i < |CLEANUP_COMMANDS|
        invariant 0 <= i <= |CLEANUP_COMMANDS|
        invariant chains == Run(old(chains), CLEANUP_COMMANDS[..i])
      {
        assert CLEANUP_COMMANDS[..i + 1] == CLEANUP_COMMANDS[..i] + [CLEANUP_COMMANDS[i]];
        R.RunSnoc(old(chains), CLEANUP_COMMANDS[..i], CLEANUP_COMMANDS[i]);
        var _ := Execute(CLEANUP_COMMANDS[i], NoFault);
        i := i + 1;
      }
      assert CLEANUP_COMMANDS[..i] == CLEANUP_COMMANDS;
      if old(Inv(chains)) {
        R.CleanupRestores(old(chains));
      }
    }

    /**
     Installs the rules, one command after another. `faults(i)` strikes the i-th installing
     command. The function reports success exactly when no fault struck; otherwise it stops at
     the first fault, and the table is what a cut-off program leaves.
     */
    method Setup(cfg: Config, faults: nat -> Fault) returns (ok: bool)
      requires Inv(chains)
      modifies this
      ensures ok <==> Faultless(faults, 0, |InstallCommands(family, cfg)|)
      ensures ok ==> chains == Installed(Foreign(old(chains)), family, cfg)
      ensures !ok ==> CutOff(Foreign(old(chains)), InstallCommands(family, cfg), chains)
      ensures Inv(chains) && Foreign(chains) == Foreign(old(chains))
    {
      Cleanup();
      ghost var f := chains;
      ghost var all := InstallCommands(family, cfg);
      R.InstallFromClean(f, family, cfg);
      ok := RuleSetup(RuleCommands(family, cfg), faults, f, all);
      if ok {
        assert all[|RuleCommands(family, cfg)|..] == InterfaceCommands(cfg);
        ok := InterfaceSetup(cfg, faults, f, all, |RuleCommands(family, cfg)|);
      }
      CutOffKeeps(f, family, cfg, chains);
    }

    method RuleSetup(cmds: seq<Command>, faults: nat -> Fault, ghost f: Chains, ghost all: seq<Command>)
      returns (ok: bool)
      requires AllAccepted(f, all) && chains == f && cmds <= all
      modifies this
      ensures ok <==> Faultless(faults, 0, |cmds|)
      ensures ok ==> chains == Run(f, all[..|cmds|])
      ensures CutOff(f, all, chains)
    {
      var i := 0;
      while i < |cmds|
        invariant 0 <= i <= |cmds|
        invariant chains == Run(f, all[..i])
        invariant Faultless(faults, 0, i)
      {
        ok := Step(cmds[i], faults, f, all, i);
        if !ok {
          return false;
        }
        i := i + 1;
      }
      ok := true;
    }

    /** The jumps into FAKESIP_R: one pair of commands in all, or one pair per interface. */
    method InterfaceSetup(cfg: Config, faults: nat -> Fault, ghost f: Chains, ghost all: seq<Command>, base: nat)
      returns (ok: bool)
      requires AllAccepted(f, all) && base <= |all| && all[base..] == InterfaceCommands(cfg)
      requires chains == Run(f, all[..base]) && Faultless(faults, 0, base)
      modifies this
      ensures ok <==> Faultless(faults, 0, |all|)
      ensures ok ==> chains == Run(f, all)
      ensures CutOff(f, all, chains)
    {
      assert all[..|all|] == all;
      if cfg.flags.alliface {
        assert all[base] == all[base..][0] && all[base + 1] == all[base..][1];
        var jump := Rule([], Jump(FakesipR));
        ok := StepPair(AppendRule(FakesipS, jump), AppendRule(FakesipD, jump), faults, f, all, base);
      } else {
        ok := InterfaceLoop(cfg.ifaces, faults, f, all, base);
      }
    }

    method InterfaceLoop(names: seq<string>, faults: nat -> Fault, ghost f: Chains, ghost all: seq<Command>, base: nat)
      returns (ok: bool)
      requires AllAccepted(f, all) && base <= |all| && all[base..] == PairCommands(names)
      requires chains == Run(f, all[..base]) && Faultless(faults, 0, base)
      modifies this
      ensures ok <==> Faultless(faults, 0, |all|)
      ensures ok ==> chains == Run(f, all[..|all|])
      ensures CutOff(f, all, chains)
    {
      PairCount(names);
      var i := 0;
      while i < |names|
        invariant 0 <= i <= |names|
        invariant base + 2 * |names| == |all|
        invariant chains == Run(f, all[..base + 2 * i])
        invariant Faultless(faults, 0, base + 2 * i)
      {
        var k := base + 2 * i;
        PairAt(names, i);
        assert all[k] == all[base..][2 * i] && all[k + 1] == all[base..][2 * i + 1];
        ok := StepPair(AppendRule(FakesipS, InputJump(names[i])), AppendRule(FakesipD, OutputJump(names[i])),
                       faults, f, all, k);
        if !ok {
          return false;
        }
        i := i + 1;
      }
      ok := true;
    }

    method StepPair(a: Command, b: Command, faults: nat -> Fault, ghost f: Chains, ghost all: seq<Command>, i: nat)
      returns (ok: bool)
      requires AllAccepted(f, all) && i + 1 < |all| && a == all[i] && b == all[i + 1]
      requires chains == Run(f, all[..i])
      modifies this
      ensures ok <==> faults(i) == NoFault && faults(i + 1) == NoFault
      ensures ok ==> chains == Run(f, all[..i + 2])
      ensures CutOff(f, all, chains)
    {
      ok := Step(a, faults, f, all, i);
      if ok {
        ok := Step(b, faults, f, all, i + 1);
      }
    }

    /** The command at position `i` of the program, run on the state that its predecessors left. */
    method Step(cmd: Command, faults: nat -> Fault, ghost f: Chains, ghost all: seq<Command>, i: nat)
      returns (ok: bool)
      requires AllAccepted(f, all) && i < |all| && cmd == all[i]
      requires chains == Run(f, all[..i])
      modifies this
      ensures ok <==> faults(i) == NoFault
      ensures chains == Run(f, all[..if faults(i) == NotRun then i else i + 1])
      ensures CutOff(f, all, chains)
    {
      R.AcceptedAt(f, all, i);
      ok := Execute(cmd, faults(i));
      ghost var k := if faults(i) == NotRun then i else i + 1;
      assert chains == Run(f, all[..k]);
    }
  }

  /** `t` is what some prefix of the commands makes of `f`. */
  ghost predicate CutOff(f: Chains, cmds: seq<Command>, t: Chains)
  {
    exists k | 0 <= k <= |cmds| :: t == Run(f, cmds[..k])
  }

  lemma CutOffKeeps(f: Chains, fam: Family, cfg: Config, t: Chains)
    requires Clean(f) && CutOff(f, InstallCommands(fam, cfg), t)
    ensures Inv(t) && Foreign(t) == f
  {
    var k :| 0 <= k <= |InstallCommands(fam, cfg)| && t == Run(f, InstallCommands(fam, cfg)[..k]);
    R.InstallPrefix(f, fam, cfg, k);
  }

  lemma {:induction false} PairCount(names: seq<string>)
    ensures |PairCommands(names)| == 2 * |names|
  {
    if names != [] {
      PairCount(names[1..]);
    }
  }

  lemma {:induction false} PairAt(names: seq<string>, i: nat)
    requires i < |names|
    ensures 2 * i + 1 < |PairCommands(names)|
    ensures PairCommands(names)[2 * i] == AppendRule(FakesipS, InputJump(names[i]))
    ensures PairCommands(names)[2 * i + 1] == AppendRule(FakesipD, OutputJump(names[i]))
  {
    if i > 0 {
      PairAt(names[1..], i - 1);
    }
  }
}
