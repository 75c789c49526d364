/**
 Crash recovery for the iptables back end. Set-ups and clean-ups may be cut short after any
 command, any number of times, with foreign edits in between; a later clean-up still leaves
 exactly the foreign rules and a later set-up leaves exactly what a first set-up leaves.
 */
module IptablesRecovery {
  import opened Wrappers
  import opened Context
  import opened Netfilter
  import opened Iptables

  // ---- sequences of commands

  lemma {:induction false} RunConcat(t: Chains, a: seq<Command>, b: seq<Command>)
    ensures Run(t, a + b) == Run(Run(t, a), b)
    ensures AllAccepted(t, a + b) <==> AllAccepted(t, a) && AllAccepted(Run(t, a), b)
    decreases |a|
  {
    if a == [] {
      assert a + b == b;
    } else {
      assert (a + b)[0] == a[0] && (a + b)[1..] == a[1..] + b;
      RunConcat(After(t, a[0]), a[1..], b);
    }
  }

  lemma RunSnoc(t: Chains, a: seq<Command>, c: Command)
    ensures Run(t, a + [c]) == After(Run(t, a), c)
    ensures AllAccepted(t, a + [c]) <==> AllAccepted(t, a) && Apply(Run(t, a), c).Some?
  {
    RunConcat(t, a, [c]);
    var u := Run(t, a);
    assert Run(After(u, c), []) == After(u, c);
    assert [c][1..] == [];
  }

  // ---- rule lists

  lemma {:induction false} OthersOfOthers(a: seq<Rule>)
    ensures Others(Others(a)) == Others(a)
    ensures forall r | r in Others(a) :: r in a && !JumpsToOwn(r)
  {
    if a != [] {
      OthersOfOthers(a[1..]);
    }
  }

  lemma {:induction false} NothingToRemove(a: seq<Rule>, r: Rule)
    requires r !in a
    ensures RemoveFirst(a, r) == a
  {
    if a != [] {
      NothingToRemove(a[1..], r);
    }
  }

  lemma {:induction false} NoOwnJumps(a: seq<Rule>)
    requires forall r | r in a :: !JumpsToOwn(r)
    ensures Others(a) == a
  {
    if a != [] {
      NoOwnJumps(a[1..]);
    }
  }

  // ---- every command of a clean-up keeps the invariant and the foreign part

  lemma CleanupStep(t: Chains, cmd: Command)
    requires Inv(t)
    requires cmd in CLEANUP_COMMANDS
    ensures Inv(After(t, cmd)) && Foreign(After(t, cmd)) == Foreign(t)
  {
    match cmd {
      case Flush(c) =>
      case DeleteRule(c, r) => UnhookStep(t, c, r);
      case DeleteChain(c) => DeleteStep(t, c);
    }
  }

  lemma UnhookStep(t: Chains, c: ChainId, hook: Rule)
    requires Inv(t)
    requires (c == Builtin(Prerouting) && hook == HOOK_S) || (c == Builtin(Postrouting) && hook == HOOK_D)
    ensures var u := After(t, DeleteRule(c, hook)); Inv(u) && Foreign(u) == Foreign(t)
  {
    var u := After(t, DeleteRule(c, hook));
    OthersOfOthers(t[c]);
    if u != t {
      assert u[c] == Others(t[c]);
      NothingToRemove(u[c], hook);
    }
  }

  lemma DeleteStep(t: Chains, c: ChainId)
    requires Inv(t) && Own(c)
    ensures var u := After(t, DeleteChain(c)); Inv(u) && Foreign(u) == Foreign(t)
  {
    if Apply(t, DeleteChain(c)).Some? {
      assert c == FakesipS ==> HOOK_S.target == Jump(c);
      assert c == FakesipD ==> HOOK_D.target == Jump(c);
    }
  }

  lemma {:induction false} CleanupPrefix(t: Chains, cmds: seq<Command>)
    requires Inv(t)
    requires forall c | c in cmds :: c in CLEANUP_COMMANDS
    ensures Inv(Run(t, cmds)) && Foreign(Run(t, cmds)) == Foreign(t)
    decreases |cmds|
  {
    if cmds != [] {
      CleanupStep(t, cmds[0]);
      CleanupPrefix(After(t, cmds[0]), cmds[1..]);
    }
  }

  // ---- a finished clean-up

  lemma RunPair(t: Chains, a: Command, b: Command)
    ensures Run(t, [a, b]) == After(After(t, a), b)
  {
    RunSnoc(t, [a], b);
    RunSnoc(t, [], a);
    assert [a] + [b] == [a, b] && [] + [a] == [a];
  }

  lemma RunTriple(t: Chains, a: Command, b: Command, c: Command)
    ensures Run(t, [a, b, c]) == After(After(After(t, a), b), c)
  {
    RunPair(t, a, b);
    RunSnoc(t, [a, b], c);
    assert [a, b] + [c] == [a, b, c];
  }

  predicate EmptyIfPresent(t: Chains, c: ChainId)
  {
    c in t ==> t[c] == []
  }

  /** The three flushes empty the program's chains. */
  lemma AfterFlushes(t: Chains)
    requires Inv(t)
    ensures var u := Run(t, CLEANUP_COMMANDS[..3]);
            Inv(u) && Foreign(u) == Foreign(t)
            && EmptyIfPresent(u, FakesipS) && EmptyIfPresent(u, FakesipD) && EmptyIfPresent(u, FakesipR)
  {
    assert CLEANUP_COMMANDS[..3] == [Flush(FakesipR), Flush(FakesipS), Flush(FakesipD)];
    RunTriple(t, Flush(FakesipR), Flush(FakesipS), Flush(FakesipD));
    CleanupPrefix(t, CLEANUP_COMMANDS[..3]);
  }

  /** The two deletions remove the hooks from the built-in chains. */
  lemma AfterUnhook(t: Chains)
    requires Inv(t)
    requires EmptyIfPresent(t, FakesipS) && EmptyIfPresent(t, FakesipD) && EmptyIfPresent(t, FakesipR)
    ensures var u := Run(t, CLEANUP_COMMANDS[3..5]);
            Inv(u) && Foreign(u) == Foreign(t)
            && EmptyIfPresent(u, FakesipS) && EmptyIfPresent(u, FakesipD) && EmptyIfPresent(u, FakesipR)
            && u[Builtin(Prerouting)] == Others(t[Builtin(Prerouting)])
            && u[Builtin(Postrouting)] == Others(t[Builtin(Postrouting)])
  {
    var del1 := DeleteRule(Builtin(Prerouting), HOOK_S);
    var del2 := DeleteRule(Builtin(Postrouting), HOOK_D);
    assert CLEANUP_COMMANDS[3..5] == [del1, del2];
    RunPair(t, del1, del2);
    CleanupPrefix(t, [del1, del2]);
    NoHook(t[Builtin(Prerouting)], HOOK_S);
    NoHook(t[Builtin(Postrouting)], HOOK_D);
  }

  lemma NoHook(rules: seq<Rule>, hook: Rule)
    ensures hook !in rules ==> RemoveFirst(rules, hook) == rules
  {
    if hook !in rules {
      NothingToRemove(rules, hook);
    }
  }

  /** A chain that is empty and unreferenced goes away. */
  lemma DropChain(t: Chains, c: ChainId)
    requires EmptyIfPresent(t, c) && Own(c)
    requires forall k, r | k in t && r in t[k] :: !JumpsToOwn(r)
    ensures After(t, DeleteChain(c)) == t - {c}
  {
    forall k, r | k in t && r in t[k]
      ensures r.target != Jump(c)
    {
      assert !JumpsToOwn(r);
    }
    assert !Referenced(t, c);
    if c !in t {
      assert t - {c} == t;
    }
  }

  lemma CleanupInStages(t: Chains)
    ensures Run(t, CLEANUP_COMMANDS) ==
            Run(Run(Run(t, CLEANUP_COMMANDS[..3]), CLEANUP_COMMANDS[3..5]), CLEANUP_COMMANDS[5..])
  {
    RunConcat(t, CLEANUP_COMMANDS[..3], CLEANUP_COMMANDS[3..5]);
    RunConcat(t, CLEANUP_COMMANDS[..5], CLEANUP_COMMANDS[5..]);
    assert CLEANUP_COMMANDS[..3] + CLEANUP_COMMANDS[3..5] == CLEANUP_COMMANDS[..5];
    assert CLEANUP_COMMANDS[..5] + CLEANUP_COMMANDS[5..] == CLEANUP_COMMANDS;
  }

  /** The last three commands delete the program's chains. */
  lemma AfterDeletes(b: Chains)
    requires EmptyIfPresent(b, FakesipS) && EmptyIfPresent(b, FakesipD) && EmptyIfPresent(b, FakesipR)
    requires forall k, r | k in b && r in b[k] :: !JumpsToOwn(r)
    ensures Run(b, CLEANUP_COMMANDS[5..]) == b - {FakesipR} - {FakesipS} - {FakesipD}
  {
    assert CLEANUP_COMMANDS[5..] == [DeleteChain(FakesipR), DeleteChain(FakesipS), DeleteChain(FakesipD)];
    RunTriple(b, DeleteChain(FakesipR), DeleteChain(FakesipS), DeleteChain(FakesipD));
    DropChain(b, FakesipR);
    DropChain(b - {FakesipR}, FakesipS);
    DropChain(b - {FakesipR} - {FakesipS}, FakesipD);
  }

  /** A finished clean-up leaves exactly the foreign rules, in their original order. */
  lemma CleanupRestores(t: Chains)
    requires Inv(t)
    ensures Run(t, CLEANUP_COMMANDS) == Foreign(t)
    ensures Clean(Foreign(t))
  {
    CleanupInStages(t);
    AfterFlushes(t);
    var a := Run(t, CLEANUP_COMMANDS[..3]);
    AfterUnhook(a);
    var b := Run(a, CLEANUP_COMMANDS[3..5]);
    UnhookedHasNoOwnJumps(b, a);
    AfterDeletes(b);
    WithoutOwnIsForeign(b - {FakesipR} - {FakesipS} - {FakesipD}, b);
    CleanupPrefix(t, CLEANUP_COMMANDS);
  }

  lemma UnhookedHasNoOwnJumps(b: Chains, a: Chains)
    requires Inv(b) && Builtin(Prerouting) in a && Builtin(Postrouting) in a
    requires EmptyIfPresent(b, FakesipS) && EmptyIfPresent(b, FakesipD) && EmptyIfPresent(b, FakesipR)
    requires b[Builtin(Prerouting)] == Others(a[Builtin(Prerouting)])
    requires b[Builtin(Postrouting)] == Others(a[Builtin(Postrouting)])
    ensures forall k, r | k in b && r in b[k] :: !JumpsToOwn(r)
  {
    OthersOfOthers(a[Builtin(Prerouting)]);
    OthersOfOthers(a[Builtin(Postrouting)]);
  }

  lemma WithoutOwnIsForeign(c: Chains, b: Chains)
    requires c == b - {FakesipR} - {FakesipS} - {FakesipD}
    requires forall k, r | k in b && r in b[k] :: !JumpsToOwn(r)
    ensures Foreign(c) == c
  {
    forall k | k in c
      ensures Others(c[k]) == c[k]
    {
      NoOwnJumps(c[k]);
    }
  }

  // ---- the commands of a set-up, cut short anywhere

  predicate Grows(cmd: Command)
  {
    match cmd
    case NewChain(c) => Own(c)
    case AppendRule(c, r) => Own(c) && RuleAllowed(c, r)
    case _ => false
  }

  lemma GrowStep(t: Chains, cmd: Command)
    requires Inv(t) && Grows(cmd)
    ensures Inv(After(t, cmd)) && Foreign(After(t, cmd)) == Foreign(t)
  {
    var u := After(t, cmd);
    assert u[Builtin(Prerouting)] == t[Builtin(Prerouting)];
    assert u[Builtin(Postrouting)] == t[Builtin(Postrouting)];
  }

  lemma {:induction false} GrowPrefix(t: Chains, cmds: seq<Command>)
    requires Inv(t)
    requires forall c | c in cmds :: Grows(c)
    ensures Inv(Run(t, cmds)) && Foreign(Run(t, cmds)) == Foreign(t)
    decreases |cmds|
  {
    if cmds != [] {
      GrowStep(t, cmds[0]);
      GrowPrefix(After(t, cmds[0]), cmds[1..]);
    }
  }

  /** A hook goes in only where there is none. */
  lemma HookStep(t: Chains, c: ChainId, hook: Rule)
    requires Inv(t)
    requires (c == Builtin(Prerouting) && hook == HOOK_S) || (c == Builtin(Postrouting) && hook == HOOK_D)
    requires hook !in t[c]
    ensures Inv(After(t, InsertRule(c, hook))) && Foreign(After(t, InsertRule(c, hook))) == Foreign(t)
  {
    NothingToRemove(t[c], hook);
    assert ([hook] + t[c])[1..] == t[c];
  }

  lemma CleanHasNoHooks(f: Chains)
    requires Clean(f)
    ensures forall c, r | c in f && r in f[c] :: !JumpsToOwn(r)
    ensures FakesipS !in f && FakesipD !in f && FakesipR !in f
  {
    forall c | c in f
      ensures forall r | r in f[c] :: !JumpsToOwn(r)
    {
      assert Foreign(f)[c] == Others(f[c]);
      OthersOfOthers(f[c]);
    }
    assert forall c | c in Foreign(f) :: !Own(c);
  }

  /** The table after the first `k` installing commands, started on the clean table `f`. */
  function FrameState(f: Chains, k: nat): Chains
    requires Builtin(Prerouting) in f && Builtin(Postrouting) in f && k <= 5
  {
    if k == 0 then f
    else
      var t := FrameState(f, k - 1);
      if k == 1 then t[FakesipS := []]
      else if k == 2 then t[FakesipD := []]
      else if k == 3 then t[Builtin(Prerouting) := [HOOK_S] + f[Builtin(Prerouting)]]
      else if k == 4 then t[Builtin(Postrouting) := [HOOK_D] + f[Builtin(Postrouting)]]
      else t[FakesipR := []]
  }

  lemma {:induction false} FrameStateShape(f: Chains, k: nat)
    requires Clean(f) && k <= 5
    ensures var t := FrameState(f, k);
            && (FakesipS in t <==> k >= 1) && (FakesipD in t <==> k >= 2) && (FakesipR in t <==> k >= 5)
            && Builtin(Prerouting) in t && Builtin(Postrouting) in t
            && (k < 3 ==> t[Builtin(Prerouting)] == f[Builtin(Prerouting)])
            && (k < 4 ==> t[Builtin(Postrouting)] == f[Builtin(Postrouting)])
  {
    CleanHasNoHooks(f);
    if k > 0 {
      FrameStateShape(f, k - 1);
    }
  }

  lemma FrameStep(f: Chains, k: nat)
    requires Clean(f) && k < 5
    requires Inv(FrameState(f, k)) && Foreign(FrameState(f, k)) == f
    ensures Apply(FrameState(f, k), FRAME_COMMANDS[k]) == Some(FrameState(f, k + 1))
    ensures Inv(FrameState(f, k + 1)) && Foreign(FrameState(f, k + 1)) == f
  {
    CleanHasNoHooks(f);
    FrameStateShape(f, k);
    var t := FrameState(f, k);
    if k == 2 {
      HookStep(t, Builtin(Prerouting), HOOK_S);
    } else if k == 3 {
      HookStep(t, Builtin(Postrouting), HOOK_D);
    } else {
      GrowStep(t, FRAME_COMMANDS[k]);
    }
  }

  /** The first five commands, cut after any of them. */
  lemma {:induction false} FramePrefix(f: Chains, k: nat)
    requires Clean(f) && k <= 5
    ensures var u := Run(f, FRAME_COMMANDS[..k]);
            Inv(u) && Foreign(u) == f && AllAccepted(f, FRAME_COMMANDS[..k]) && u == FrameState(f, k)
  {
    if k > 0 {
      FramePrefix(f, k - 1);
      assert FRAME_COMMANDS[..k - 1] + [FRAME_COMMANDS[k - 1]] == FRAME_COMMANDS[..k];
      RunSnoc(f, FRAME_COMMANDS[..k - 1], FRAME_COMMANDS[k - 1]);
      FrameStep(f, k - 1);
    }
  }

  /** What it takes for a table to be clean: no chain of the program, no way into one. */
  lemma CleanMeans(t: Chains)
    ensures Clean(t) <==>
            && Builtin(Prerouting) in t && Builtin(Postrouting) in t
            && FakesipS !in t && FakesipD !in t && FakesipR !in t
            && forall c, r | c in t && r in t[c] :: !JumpsToOwn(r)
  {
    if Clean(t) {
      CleanHasNoHooks(t);
    } else if && Builtin(Prerouting) in t && Builtin(Postrouting) in t
              && FakesipS !in t && FakesipD !in t && FakesipR !in t
              && forall c, r | c in t && r in t[c] :: !JumpsToOwn(r) {
      assert JumpsToOwn(HOOK_S) && JumpsToOwn(HOOK_D);
      NoHook(t[Builtin(Prerouting)], HOOK_S);
      NoHook(t[Builtin(Postrouting)], HOOK_D);
      forall c | c in t
        ensures Others(t[c]) == t[c]
      {
        NoOwnJumps(t[c]);
      }
      assert Foreign(t) == t;
    }
  }

  function GrowCommands(fam: Family, cfg: Config): seq<Command>
  {
    Appends(FakesipS, SourceExclusions(fam)) + Appends(FakesipD, DestinationExclusions(fam))
    + Appends(FakesipR, QueueRules(cfg)) + InterfaceCommands(cfg)
  }

  lemma InstallSplit(fam: Family, cfg: Config)
    ensures InstallCommands(fam, cfg) == FRAME_COMMANDS + GrowCommands(fam, cfg)
  {
  }

  lemma {:induction false} PairsGrow(names: seq<string>)
    ensures forall c | c in PairCommands(names) :: Grows(c)
  {
    if names != [] {
      PairsGrow(names[1..]);
    }
  }

  lemma GrowCommandsGrow(fam: Family, cfg: Config)
    ensures forall c | c in GrowCommands(fam, cfg) :: Grows(c)
  {
    PairsGrow(cfg.ifaces);
  }

  /** A set-up cut after any of its installing commands. */
  lemma InstallPrefix(f: Chains, fam: Family, cfg: Config, k: nat)
    requires Clean(f) && k <= |InstallCommands(fam, cfg)|
    ensures var u := Run(f, InstallCommands(fam, cfg)[..k]); Inv(u) && Foreign(u) == f
  {
    var p := InstallCommands(fam, cfg);
    InstallSplit(fam, cfg);
    if k <= 5 {
      assert p[..k] == FRAME_COMMANDS[..k];
      FramePrefix(f, k);
    } else {
      var g := GrowCommands(fam, cfg)[..k - 5];
      assert p[..k] == FRAME_COMMANDS[..5] + g;
      FramePrefix(f, 5);
      RunConcat(f, FRAME_COMMANDS[..5], g);
      GrowCommandsGrow(fam, cfg);
      GrowPrefix(Run(f, FRAME_COMMANDS[..5]), g);
    }
  }

  // ---- what a finished set-up leaves

  lemma {:induction false} RunAppends(t: Chains, c: ChainId, rules: seq<Rule>)
    requires c in t && forall r | r in rules :: TargetKnown(t, r)
    ensures Run(t, Appends(c, rules)) == t[c := t[c] + rules]
    ensures AllAccepted(t, Appends(c, rules))
    decreases |rules|
  {
    if rules == [] {
      assert t[c] + rules == t[c];
      assert t[c := t[c]] == t;
    } else {
      var u := After(t, AppendRule(c, rules[0]));
      assert Appends(c, rules)[0] == AppendRule(c, rules[0]);
      assert Appends(c, rules)[1..] == Appends(c, rules[1..]);
      forall r | r in rules
        ensures TargetKnown(u, r)
      {
        assert TargetKnown(t, r);
      }
      RunAppends(u, c, rules[1..]);
      assert u[c] + rules[1..] == t[c] + rules;
      assert u[c := u[c] + rules[1..]] == t[c := t[c] + rules];
    }
  }

  lemma {:induction false} RunPairs(t: Chains, names: seq<string>)
    requires FakesipS in t && FakesipD in t && FakesipR in t
    ensures Run(t, PairCommands(names)) ==
            t[FakesipS := t[FakesipS] + InputRules(names)][FakesipD := t[FakesipD] + OutputRules(names)]
    ensures AllAccepted(t, PairCommands(names))
    decreases |names|
  {
    if names == [] {
      assert t[FakesipS] + InputRules(names) == t[FakesipS];
      assert t[FakesipD] + OutputRules(names) == t[FakesipD];
      assert t[FakesipS := t[FakesipS]][FakesipD := t[FakesipD]] == t;
    } else {
      var pair := [AppendRule(FakesipS, InputJump(names[0])), AppendRule(FakesipD, OutputJump(names[0]))];
      var u := t[FakesipS := t[FakesipS] + [InputJump(names[0])]][FakesipD := t[FakesipD] + [OutputJump(names[0])]];
      RunConcat(t, pair, PairCommands(names[1..]));
      RunPair(t, pair[0], pair[1]);
      RunPairs(u, names[1..]);
      assert u[FakesipS] + InputRules(names[1..]) == t[FakesipS] + InputRules(names);
      assert u[FakesipD] + OutputRules(names[1..]) == t[FakesipD] + OutputRules(names);
      assert pair[1..] == [pair[1]];
      assert AllAccepted(t, pair);
    }
  }

  lemma RunInterfaces(t: Chains, cfg: Config)
    requires FakesipS in t && FakesipD in t && FakesipR in t
    ensures Run(t, InterfaceCommands(cfg)) ==
            t[FakesipS := t[FakesipS] + InputJumps(cfg)][FakesipD := t[FakesipD] + OutputJumps(cfg)]
    ensures AllAccepted(t, InterfaceCommands(cfg))
  {
    if cfg.flags.alliface {
      var jump := Rule([], Jump(FakesipR));
      RunPair(t, AppendRule(FakesipS, jump), AppendRule(FakesipD, jump));
      assert InterfaceCommands(cfg)[1..] == [AppendRule(FakesipD, jump)];
    } else {
      RunPairs(t, cfg.ifaces);
    }
  }

  /** One more block of appended rules, into a chain that was empty. */
  lemma AppendBlock(f: Chains, done: seq<Command>, c: ChainId, rules: seq<Rule>)
    requires AllAccepted(f, done)
    requires c in Run(f, done) && Run(f, done)[c] == []
    requires forall r | r in rules :: !r.target.Jump?
    ensures Run(f, done + Appends(c, rules)) == Run(f, done)[c := rules]
    ensures AllAccepted(f, done + Appends(c, rules))
  {
    RunConcat(f, done, Appends(c, rules));
    RunAppends(Run(f, done), c, rules);
    assert [] + rules == rules;
  }

  lemma FrameUnfolded(f: Chains)
    requires Builtin(Prerouting) in f && Builtin(Postrouting) in f
    ensures FrameState(f, 5) ==
            f[FakesipS := []][FakesipD := []][Builtin(Prerouting) := [HOOK_S] + f[Builtin(Prerouting)]]
             [Builtin(Postrouting) := [HOOK_D] + f[Builtin(Postrouting)]][FakesipR := []]
  {
    assert FrameState(f, 1) == FrameState(f, 0)[FakesipS := []];
    assert FrameState(f, 2) == f[FakesipS := []][FakesipD := []];
    assert FrameState(f, 3) == FrameState(f, 2)[Builtin(Prerouting) := [HOOK_S] + f[Builtin(Prerouting)]];
    assert FrameState(f, 4) == FrameState(f, 3)[Builtin(Postrouting) := [HOOK_D] + f[Builtin(Postrouting)]];
  }

  lemma ThreeBlocks(f: Chains, done: seq<Command>, s: seq<Rule>, d: seq<Rule>, r: seq<Rule>)
    requires AllAccepted(f, done)
    requires forall c | Own(c) :: c in Run(f, done) && Run(f, done)[c] == []
    requires forall x | x in s + d + r :: !x.target.Jump?
    ensures var p := done + Appends(FakesipS, s) + Appends(FakesipD, d) + Appends(FakesipR, r);
            AllAccepted(f, p) && Run(f, p) == Run(f, done)[FakesipS := s][FakesipD := d][FakesipR := r]
  {
    forall x | x in s || x in d || x in r
      ensures !x.target.Jump?
    {
      assert x in s + d + r;
    }
    assert Own(FakesipS) && Own(FakesipD) && Own(FakesipR);
    AppendBlock(f, done, FakesipS, s);
    AppendBlock(f, done + Appends(FakesipS, s), FakesipD, d);
    AppendBlock(f, done + Appends(FakesipS, s) + Appends(FakesipD, d), FakesipR, r);
  }

  lemma PlainRulesDoNotJump(fam: Family, cfg: Config)
    ensures forall x | x in SourceExclusions(fam) + DestinationExclusions(fam) + QueueRules(cfg) :: !x.target.Jump?
  {
  }

  lemma FrameLeavesEmptyChains(f: Chains)
    requires Clean(f)
    ensures AllAccepted(f, FRAME_COMMANDS) && Run(f, FRAME_COMMANDS) == FrameState(f, 5)
    ensures forall c | Own(c) :: c in FrameState(f, 5) && FrameState(f, 5)[c] == []
  {
    FramePrefix(f, 5);
    FrameUnfolded(f);
    assert FRAME_COMMANDS[..5] == FRAME_COMMANDS;
  }

  lemma RulesFromClean(f: Chains, fam: Family, cfg: Config)
    requires Clean(f)
    ensures Run(f, RuleCommands(fam, cfg)) ==
            FrameState(f, 5)[FakesipS := SourceExclusions(fam)][FakesipD := DestinationExclusions(fam)]
                            [FakesipR := QueueRules(cfg)]
    ensures AllAccepted(f, RuleCommands(fam, cfg))
  {
    FrameLeavesEmptyChains(f);
    PlainRulesDoNotJump(fam, cfg);
    ThreeBlocks(f, FRAME_COMMANDS, SourceExclusions(fam), DestinationExclusions(fam), QueueRules(cfg));
  }

  /** From a clean table every installing command is accepted, and the result is `Installed`. */
  lemma InstallFromClean(f: Chains, fam: Family, cfg: Config)
    requires Clean(f)
    ensures Run(f, InstallCommands(fam, cfg)) == Installed(f, fam, cfg)
    ensures AllAccepted(f, InstallCommands(fam, cfg))
  {
    RulesFromClean(f, fam, cfg);
    var t := Run(f, RuleCommands(fam, cfg));
    RunConcat(f, RuleCommands(fam, cfg), InterfaceCommands(cfg));
    RunInterfaces(t, cfg);
    FrameUnfolded(f);
    UpdatesCommute(f, [HOOK_S] + f[Builtin(Prerouting)], [HOOK_D] + f[Builtin(Postrouting)],
                   SourceExclusions(fam), DestinationExclusions(fam), QueueRules(cfg),
                   InputJumps(cfg), OutputJumps(cfg));
  }

  lemma UpdatesCommute(f: Chains, pre: seq<Rule>, post: seq<Rule>, s: seq<Rule>, d: seq<Rule>, r: seq<Rule>,
                       input: seq<Rule>, output: seq<Rule>)
    ensures var t := f[FakesipS := []][FakesipD := []][Builtin(Prerouting) := pre][Builtin(Postrouting) := post]
                      [FakesipR := []][FakesipS := s][FakesipD := d][FakesipR := r];
            t[FakesipS := t[FakesipS] + input][FakesipD := t[FakesipD] + output] ==
            f[Builtin(Prerouting) := pre][Builtin(Postrouting) := post]
             [FakesipS := s + input][FakesipD := d + output][FakesipR := r]
  {
  }

  // ---- whole programs and whole histories

  /** A set-up cut after any command, its own clean-up included. */
  lemma SetupPrefix(t: Chains, fam: Family, cfg: Config, k: nat)
    requires Inv(t) && k <= |SetupProgram(fam, cfg)|
    ensures var u := Run(t, SetupProgram(fam, cfg)[..k]); Inv(u) && Foreign(u) == Foreign(t)
  {
    var p := SetupProgram(fam, cfg);
    if k <= |CLEANUP_COMMANDS| {
      assert p[..k] == CLEANUP_COMMANDS[..k];
      CleanupPrefix(t, CLEANUP_COMMANDS[..k]);
    } else {
      var rest := InstallCommands(fam, cfg)[..k - |CLEANUP_COMMANDS|];
      assert p[..k] == CLEANUP_COMMANDS + rest;
      RunConcat(t, CLEANUP_COMMANDS, rest);
      CleanupRestores(t);
      InstallPrefix(Foreign(t), fam, cfg, k - |CLEANUP_COMMANDS|);
    }
  }

  /** A set-up that runs to the end, whatever state earlier runs left. */
  lemma SetupInstalls(t: Chains, fam: Family, cfg: Config)
    requires Inv(t)
    ensures Run(t, SetupProgram(fam, cfg)) == Installed(Foreign(t), fam, cfg)
    ensures AllAccepted(Run(t, CLEANUP_COMMANDS), InstallCommands(fam, cfg))
  {
    RunConcat(t, CLEANUP_COMMANDS, InstallCommands(fam, cfg));
    CleanupRestores(t);
    InstallFromClean(Foreign(t), fam, cfg);
  }

  /**
   What may happen to the table over time: a set-up or a clean-up of this program that stops
   after `cut` commands (a large `cut` means it finishes), or somebody else's edit.
   */
  datatype Event =
    | SetupRun(cfg: Config, cut: nat)
    | CleanupRun(cut: nat)
    | ForeignEdit(next: Chains)

  /** Others leave the program's chains and the hooks into them alone. */
  ghost predicate LeavesOursAlone(t: Chains, next: Chains)
  {
    && Inv(next)
    && (forall c | Own(c) :: (c in t <==> c in next) && (c in t ==> t[c] == next[c]))
    && (Hooked(t, Builtin(Prerouting), HOOK_S) <==> Hooked(next, Builtin(Prerouting), HOOK_S))
    && (Hooked(t, Builtin(Postrouting), HOOK_D) <==> Hooked(next, Builtin(Postrouting), HOOK_D))
  }

  predicate Hooked(t: Chains, c: ChainId, hook: Rule)
  {
    c in t && hook in t[c]
  }

  function Cut(cmds: seq<Command>, k: nat): seq<Command>
  {
    if k <= |cmds| then cmds[..k] else cmds
  }

  function StateAfter(t: Chains, fam: Family, e: Event): Chains
  {
    match e
    case SetupRun(cfg, cut) => Run(t, Cut(SetupProgram(fam, cfg), cut))
    case CleanupRun(cut) => Run(t, Cut(CLEANUP_COMMANDS, cut))
    case ForeignEdit(next) => next
  }

  function Replay(t: Chains, fam: Family, es: seq<Event>): Chains
    decreases |es|
  {
    if es == [] then t else Replay(StateAfter(t, fam, es[0]), fam, es[1..])
  }

  ghost predicate Possible(t: Chains, fam: Family, es: seq<Event>)
    decreases |es|
  {
    es == [] ||
    (&& (es[0].ForeignEdit? ==> LeavesOursAlone(t, es[0].next))
     && Possible(StateAfter(t, fam, es[0]), fam, es[1..]))
  }

  /** The foreign rules after a history: only the edits of others count. */
  function ForeignAfter(f: Chains, es: seq<Event>): Chains
    decreases |es|
  {
    if es == [] then f
    else ForeignAfter(if es[0].ForeignEdit? then Foreign(es[0].next) else f, es[1..])
  }

  lemma EventKeeps(t: Chains, fam: Family, e: Event)
    requires Inv(t)
    requires e.ForeignEdit? ==> LeavesOursAlone(t, e.next)
    ensures Inv(StateAfter(t, fam, e))
    ensures Foreign(StateAfter(t, fam, e)) == if e.ForeignEdit? then Foreign(e.next) else Foreign(t)
  {
    match e {
      case SetupRun(cfg, cut) =>
        var p := SetupProgram(fam, cfg);
        var k := if cut <= |p| then cut else |p|;
        assert p[..|p|] == p;
        SetupPrefix(t, fam, cfg, k);
      case CleanupRun(cut) =>
        CleanupPrefix(t, Cut(CLEANUP_COMMANDS, cut));
      case ForeignEdit(next) =>
    }
  }

  /** The invariant holds after every history, and the program never disturbs foreign rules. */
  lemma {:induction false} HistoryKeeps(t: Chains, fam: Family, es: seq<Event>)
    requires Inv(t) && Possible(t, fam, es)
    ensures Inv(Replay(t, fam, es))
    ensures Foreign(Replay(t, fam, es)) == ForeignAfter(Foreign(t), es)
    decreases |es|
  {
    if es != [] {
      EventKeeps(t, fam, es[0]);
      HistoryKeeps(StateAfter(t, fam, es[0]), fam, es[1..]);
    }
  }

  /**
   Crash recovery. From a table the program never touched, through any history: a clean-up that
   finishes leaves the foreign rules and nothing else, and a set-up that finishes leaves what a
   first set-up on those foreign rules leaves, with no installing command refused.
   */
  lemma CrashRecovery(t: Chains, fam: Family, es: seq<Event>, cfg: Config)
    requires Clean(t) && Possible(t, fam, es)
    ensures var now := Replay(t, fam, es);
            var f := ForeignAfter(t, es);
            && Run(now, CLEANUP_COMMANDS) == f && Clean(f)
            && Run(now, SetupProgram(fam, cfg)) == Installed(f, fam, cfg) == Run(f, SetupProgram(fam, cfg))
            && AllAccepted(Run(now, CLEANUP_COMMANDS), InstallCommands(fam, cfg))
  {
    HistoryKeeps(t, fam, es);
    var now := Replay(t, fam, es);
    CleanupRestores(now);
    SetupInstalls(now, fam, cfg);
    var f := Foreign(now);
    SetupInstalls(f, fam, cfg);
    CleanupRestores(f);
    ForeignTwice(now);
  }

  lemma ForeignTwice(t: Chains)
    ensures Foreign(Foreign(t)) == Foreign(t)
  {
    forall c | c in Foreign(t)
      ensures Others(Others(t[c])) == Others(t[c])
    {
      OthersOfOthers(t[c]);
    }
  }

  // ---- facts for the loops that issue the commands

  lemma {:induction false} AcceptedAt(t: Chains, cmds: seq<Command>, i: nat)
    requires AllAccepted(t, cmds) && i < |cmds|
    ensures Apply(Run(t, cmds[..i]), cmds[i]).Some?
    ensures Run(t, cmds[..i + 1]) == After(Run(t, cmds[..i]), cmds[i])
  {
    assert cmds[..i + 1] == cmds[..i] + [cmds[i]];
    RunSnoc(t, cmds[..i], cmds[i]);
    assert cmds == cmds[..i + 1] + cmds[i + 1..];
    RunConcat(t, cmds[..i + 1], cmds[i + 1..]);
  }
}
