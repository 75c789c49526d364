/**
 Crash recovery over all tables of both back ends and both families: what fs_nfrules_setup and
 fs_nfrules_cleanup make of any history of runs, finished or cut off.
 */
module RulesRecovery {
  import opened Wrappers
  import opened Context
  import opened Netfilter
  import opened NfRules
  import opened Process
  import Ipt = Iptables
  import Mangle = IptablesRecovery
  import Nft = Nftables

  // ---- which tables a run serves, and which are free of the program

  predicate Uses(cfg: Config, fam: Family)
  {
    match fam
    case V4 => cfg.flags.useIpv4
    case V6 => cfg.flags.useIpv6
  }

  predicate ServesMangle(cfg: Config, useIptables: bool, fam: Family)
  {
    !cfg.flags.skipfw && useIptables && Uses(cfg, fam)
  }

  predicate ServesNft(cfg: Config, useIptables: bool, fam: Family)
  {
    !cfg.flags.skipfw && !useIptables && Uses(cfg, fam)
  }

  function MangleOf(r: Rules, fam: Family): Chains
  {
    match fam
    case V4 => r.mangle4
    case V6 => r.mangle6
  }

  ghost predicate TablesUntouched(r: Rules, fam: Family)
  {
    Ipt.Clean(MangleOf(r, fam)) && Nft.Fakesip(fam) !in r.nft
  }

  /** No trace of the program, in any table. */
  ghost predicate Untouched(r: Rules)
  {
    TablesUntouched(r, V4) && TablesUntouched(r, V6)
  }

  ghost predicate UnservedClean(r: Rules, cfg: Config, useIptables: bool, fam: Family)
  {
    && (ServesMangle(cfg, useIptables, fam) || Ipt.Clean(MangleOf(r, fam)))
    && (ServesNft(cfg, useIptables, fam) || Nft.Fakesip(fam) !in r.nft)
  }

  /** No trace of it in any table that a run with these settings does not serve. */
  ghost predicate UnservedUntouched(r: Rules, cfg: Config, useIptables: bool)
  {
    UnservedClean(r, cfg, useIptables, V4) && UnservedClean(r, cfg, useIptables, V6)
  }

  lemma ClearedTables(r: Rules, cfg: Config, useIptables: bool, fam: Family)
    ensures MangleOf(Cleared(r, cfg, useIptables), fam) ==
            if ServesMangle(cfg, useIptables, fam) then Ipt.Foreign(MangleOf(r, fam)) else MangleOf(r, fam)
    ensures Nft.Fakesip(fam) in Cleared(r, cfg, useIptables).nft <==>
            !ServesNft(cfg, useIptables, fam) && Nft.Fakesip(fam) in r.nft
  {
  }

  /**
   What clean-up can do: it leaves no trace of the program if and only if there was none in the
   tables that it does not serve, which are those of the other back end and of a family not in use.
   */
  lemma ClearingIsComplete(r: Rules, cfg: Config, useIptables: bool)
    requires Sound(r)
    ensures Untouched(Cleared(r, cfg, useIptables)) <==> UnservedUntouched(r, cfg, useIptables)
  {
    ClearedTables(r, cfg, useIptables, V4);
    ClearedTables(r, cfg, useIptables, V6);
    Mangle.CleanupRestores(r.mangle4);
    Mangle.CleanupRestores(r.mangle6);
  }

  // ---- histories

  /**
   One event. A run of set-up or clean-up goes through the programs of the families it serves; each
   may be cut off after any command (`cut4`, `cut6`), by a crash or by a command that fails.
   */
  datatype Event =
    | SetupRun(cfg: Config, useIptables: bool, cut4: nat, cut6: nat)
    | CleanupRun(cfg: Config, useIptables: bool, cut4: nat, cut6: nat)
    | ForeignEdit(next: Rules)

  function NftCut(ts: Nft.Tables, used: bool, program: seq<Nft.Command>, cut: nat): Nft.Tables
  {
    if !used then ts
    else if cut <= |program| then Nft.Run(ts, program[..cut])
    else Nft.Run(ts, program)
  }

  function MangleCut(t: Chains, used: bool, fam: Family, e: Mangle.Event): Chains
  {
    if used then Mangle.StateAfter(t, fam, e) else t
  }

  function CutOf(e: Event, fam: Family): nat
    requires !e.ForeignEdit?
  {
    match fam
    case V4 => e.cut4
    case V6 => e.cut6
  }

  function MangleEvent(e: Event, fam: Family): Mangle.Event
    requires !e.ForeignEdit?
  {
    if e.SetupRun? then Mangle.SetupRun(e.cfg, CutOf(e, fam)) else Mangle.CleanupRun(CutOf(e, fam))
  }

  function NftProgram(e: Event, fam: Family): seq<Nft.Command>
    requires !e.ForeignEdit?
  {
    if e.SetupRun? then Nft.SetupProgram(fam, e.cfg) else Nft.CleanupProgram(fam)
  }

  function MangleAfter(t: Chains, e: Event, fam: Family): Chains
    requires !e.ForeignEdit?
  {
    MangleCut(t, ServesMangle(e.cfg, e.useIptables, fam), fam, MangleEvent(e, fam))
  }

  function NftAfter(ts: Nft.Tables, e: Event, fam: Family): Nft.Tables
    requires !e.ForeignEdit?
  {
    NftCut(ts, ServesNft(e.cfg, e.useIptables, fam), NftProgram(e, fam), CutOf(e, fam))
  }

  function StateAfter(r: Rules, e: Event): Rules
  {
    if e.ForeignEdit? then e.next
    else Rules(MangleAfter(r.mangle4, e, V4), MangleAfter(r.mangle6, e, V6), NftAfter(NftAfter(r.nft, e, V4), e, V6))
  }

  /** Others leave the program's tables, its chains, and the hooks into them alone. */
  ghost predicate LeavesOursAlone(r: Rules, next: Rules)
  {
    && Mangle.LeavesOursAlone(r.mangle4, next.mangle4)
    && Mangle.LeavesOursAlone(r.mangle6, next.mangle6)
    && (forall fam :: Nft.Fakesip(fam) in r.nft <==> Nft.Fakesip(fam) in next.nft)
    && (forall fam | Nft.Fakesip(fam) in r.nft :: next.nft[Nft.Fakesip(fam)] == r.nft[Nft.Fakesip(fam)])
  }

  function Replay(r: Rules, es: seq<Event>): Rules
    decreases |es|
  {
    if es == [] then r else Replay(StateAfter(r, es[0]), es[1..])
  }

  ghost predicate Possible(r: Rules, es: seq<Event>)
    decreases |es|
  {
    es == [] ||
    ((es[0].ForeignEdit? ==> LeavesOursAlone(r, es[0].next)) && Possible(StateAfter(r, es[0]), es[1..]))
  }

  const OURS := {Nft.Fakesip(V4), Nft.Fakesip(V6)}

  /** All tables as they would be without the program. */
  function OthersOf(r: Rules): Rules
  {
    Rules(Ipt.Foreign(r.mangle4), Ipt.Foreign(r.mangle6), r.nft - OURS)
  }

  /** The rules of others after a history: only their own edits count. */
  function OthersAfter(others: Rules, es: seq<Event>): Rules
    decreases |es|
  {
    if es == [] then others
    else OthersAfter(if es[0].ForeignEdit? then OthersOf(es[0].next) else others, es[1..])
  }

  // ---- what one event keeps

  lemma MangleAfterKeeps(t: Chains, e: Event, fam: Family)
    requires Ipt.Inv(t) && !e.ForeignEdit?
    ensures Ipt.Inv(MangleAfter(t, e, fam)) && Ipt.Foreign(MangleAfter(t, e, fam)) == Ipt.Foreign(t)
    ensures !ServesMangle(e.cfg, e.useIptables, fam) ==> MangleAfter(t, e, fam) == t
  {
    if ServesMangle(e.cfg, e.useIptables, fam) {
      Mangle.EventKeeps(t, fam, MangleEvent(e, fam));
    }
  }

  lemma NftAfterKeeps(ts: Nft.Tables, e: Event, fam: Family)
    requires !e.ForeignEdit?
    ensures NftAfter(ts, e, fam) - {Nft.Fakesip(fam)} == ts - {Nft.Fakesip(fam)}
    ensures !ServesNft(e.cfg, e.useIptables, fam) ==> NftAfter(ts, e, fam) == ts
  {
    ProgramConcernsOwn(e, fam);
    NftCutKeeps(ts, ServesNft(e.cfg, e.useIptables, fam), Nft.Fakesip(fam), NftProgram(e, fam), CutOf(e, fam));
  }

  lemma ProgramConcernsOwn(e: Event, fam: Family)
    requires !e.ForeignEdit?
    ensures forall c | c in NftProgram(e, fam) :: c.table == Nft.Fakesip(fam)
  {
    if e.SetupRun? {
      Nft.InterfacesConcernOwn(fam, Nft.InterfaceNames(e.cfg));
      forall c | c in Nft.SetupProgram(fam, e.cfg)
        ensures c.table == Nft.Fakesip(fam)
      {
        assert c in Nft.LoadCommands(fam, e.cfg) || c in Nft.InterfaceCommands(fam, Nft.InterfaceNames(e.cfg));
      }
    }
  }

  lemma NftCutKeeps(ts: Nft.Tables, used: bool, n: Nft.TableId, program: seq<Nft.Command>, cut: nat)
    requires forall c | c in program :: c.table == n
    ensures NftCut(ts, used, program, cut) - {n} == ts - {n}
  {
    if used {
      Nft.RunKeepsOthers(ts, n, if cut <= |program| then program[..cut] else program);
    }
  }

  /** Changes to the table of one family, then to that of the other. */
  lemma TwoTables(a: Nft.Tables, b: Nft.Tables, c: Nft.Tables)
    requires a - {Nft.Fakesip(V4)} == b - {Nft.Fakesip(V4)} && b - {Nft.Fakesip(V6)} == c - {Nft.Fakesip(V6)}
    ensures a - OURS == c - OURS
    ensures a == b ==> (Nft.Fakesip(V4) in c <==> Nft.Fakesip(V4) in a)
    ensures b == c ==> (Nft.Fakesip(V6) in c <==> Nft.Fakesip(V6) in a)
  {
    AgreeOutside(a, b, {Nft.Fakesip(V4)}, OURS);
    AgreeOutside(b, c, {Nft.Fakesip(V6)}, OURS);
    assert forall n | n != Nft.Fakesip(V6) :: n in c <==> n in c - {Nft.Fakesip(V6)};
    assert forall n | n != Nft.Fakesip(V6) :: n in b <==> n in b - {Nft.Fakesip(V6)};
    assert forall n | n != Nft.Fakesip(V4) :: n in a <==> n in a - {Nft.Fakesip(V4)};
    assert forall n | n != Nft.Fakesip(V4) :: n in b <==> n in b - {Nft.Fakesip(V4)};
  }

  /** A run keeps the invariant and the rules of others, and changes only the tables it serves. */
  lemma RunKeeps(r: Rules, e: Event)
    requires Sound(r) && !e.ForeignEdit?
    ensures Sound(StateAfter(r, e)) && OthersOf(StateAfter(r, e)) == OthersOf(r)
    ensures SameUnserved(r, e, V4) && SameUnserved(r, e, V6)
  {
    MangleAfterKeeps(r.mangle4, e, V4);
    MangleAfterKeeps(r.mangle6, e, V6);
    var between := NftAfter(r.nft, e, V4);
    NftAfterKeeps(r.nft, e, V4);
    NftAfterKeeps(between, e, V6);
    TwoTables(r.nft, between, NftAfter(between, e, V6));
  }

  predicate SameUnserved(r: Rules, e: Event, fam: Family)
    requires !e.ForeignEdit?
  {
    var after := StateAfter(r, e);
    && (ServesMangle(e.cfg, e.useIptables, fam) || MangleOf(after, fam) == MangleOf(r, fam))
    && (ServesNft(e.cfg, e.useIptables, fam) || (Nft.Fakesip(fam) in after.nft <==> Nft.Fakesip(fam) in r.nft))
  }

  /** The runs of a history serve no table that a run with these settings does not serve. */
  predicate Within(e: Event, cfg: Config, useIptables: bool)
  {
    e.ForeignEdit? || (Covers(cfg, useIptables, e, V4) && Covers(cfg, useIptables, e, V6))
  }

  predicate Covers(cfg: Config, useIptables: bool, e: Event, fam: Family)
    requires !e.ForeignEdit?
  {
    && (ServesMangle(e.cfg, e.useIptables, fam) ==> ServesMangle(cfg, useIptables, fam))
    && (ServesNft(e.cfg, e.useIptables, fam) ==> ServesNft(cfg, useIptables, fam))
  }

  lemma EditKeepsClean(t: Chains, next: Chains)
    requires Ipt.Clean(t) && Mangle.LeavesOursAlone(t, next)
    ensures Ipt.Clean(next)
  {
    Mangle.CleanMeans(t);
    Mangle.CleanMeans(next);
  }

  lemma EventKeepsUnserved(r: Rules, e: Event, cfg: Config, useIptables: bool)
    requires Sound(r) && UnservedUntouched(r, cfg, useIptables) && Within(e, cfg, useIptables)
    requires e.ForeignEdit? ==> LeavesOursAlone(r, e.next)
    ensures UnservedUntouched(StateAfter(r, e), cfg, useIptables)
  {
    if e.ForeignEdit? {
      if Ipt.Clean(r.mangle4) {
        EditKeepsClean(r.mangle4, e.next.mangle4);
      }
      if Ipt.Clean(r.mangle6) {
        EditKeepsClean(r.mangle6, e.next.mangle6);
      }
    } else {
      RunKeeps(r, e);
    }
  }

  /** After every history the invariant holds, and no rule of others was lost, moved or added. */
  lemma {:induction false} HistoryKeeps(r: Rules, es: seq<Event>)
    requires Sound(r) && Possible(r, es)
    ensures Sound(Replay(r, es)) && OthersOf(Replay(r, es)) == OthersAfter(OthersOf(r), es)
    decreases |es|
  {
    if es != [] {
      if !es[0].ForeignEdit? {
        RunKeeps(r, es[0]);
      }
      HistoryKeeps(StateAfter(r, es[0]), es[1..]);
    }
  }

  lemma {:induction false} HistoryKeepsUnserved(r: Rules, es: seq<Event>, cfg: Config, useIptables: bool)
    requires Sound(r) && Possible(r, es) && UnservedUntouched(r, cfg, useIptables)
    requires forall e | e in es :: Within(e, cfg, useIptables)
    ensures UnservedUntouched(Replay(r, es), cfg, useIptables)
    decreases |es|
  {
    if es != [] {
      if !es[0].ForeignEdit? {
        RunKeeps(r, es[0]);
      }
      assert es[0] in es;
      EventKeepsUnserved(r, es[0], cfg, useIptables);
      HistoryKeepsUnserved(StateAfter(r, es[0]), es[1..], cfg, useIptables);
    }
  }

  // ---- runs that finish

  /** A set-up whose programs run to their ends leaves what Firewall.Setup leaves on success. */
  lemma FinishedSetup(r: Rules, cfg: Config, useIptables: bool, cut4: nat, cut6: nat)
    requires Sound(r)
    requires cut4 > |Ipt.SetupProgram(V4, cfg)| && cut4 > |Nft.SetupProgram(V4, cfg)|
    requires cut6 > |Ipt.SetupProgram(V6, cfg)| && cut6 > |Nft.SetupProgram(V6, cfg)|
    ensures StateAfter(r, SetupRun(cfg, useIptables, cut4, cut6)) == Installed(r, cfg, useIptables)
  {
    Mangle.SetupInstalls(r.mangle4, V4, cfg);
    Mangle.SetupInstalls(r.mangle6, V6, cfg);
    Nft.SetupInstalls(r.nft, V4, cfg);
    Nft.SetupInstalls(r.nft, V6, cfg);
    Nft.SetupInstalls(r.nft[Nft.Fakesip(V4) := Nft.Installed(V4, cfg)], V6, cfg);
  }

  /** And such a clean-up leaves what Firewall.Cleanup leaves. */
  lemma FinishedCleanup(r: Rules, cfg: Config, useIptables: bool, cut4: nat, cut6: nat)
    requires Sound(r) && cut4 > |Ipt.CLEANUP_COMMANDS| && cut6 > |Ipt.CLEANUP_COMMANDS|
    ensures StateAfter(r, CleanupRun(cfg, useIptables, cut4, cut6)) == Cleared(r, cfg, useIptables)
  {
    var e := CleanupRun(cfg, useIptables, cut4, cut6);
    FinishedMangleCleanup(r.mangle4, e, V4);
    FinishedMangleCleanup(r.mangle6, e, V6);
    FinishedNftCleanup(r.nft, e, V4);
    FinishedNftCleanup(NftAfter(r.nft, e, V4), e, V6);
    ClearedInSteps(r.nft, cfg);
  }

  lemma FinishedMangleCleanup(t: Chains, e: Event, fam: Family)
    requires Ipt.Inv(t) && e.CleanupRun? && CutOf(e, fam) > |Ipt.CLEANUP_COMMANDS|
    ensures MangleAfter(t, e, fam) == MangleCleared(t, ServesMangle(e.cfg, e.useIptables, fam))
  {
    Mangle.CleanupRestores(t);
  }

  lemma FinishedNftCleanup(ts: Nft.Tables, e: Event, fam: Family)
    requires e.CleanupRun? && CutOf(e, fam) > 1
    ensures NftAfter(ts, e, fam) == if ServesNft(e.cfg, e.useIptables, fam) then ts - {Nft.Fakesip(fam)} else ts
  {
    Nft.RunLoad(ts, fam, e.cfg);
  }

  /** A set-up that fails leaves what a run of the history leaves that was cut off somewhere. */
  lemma FailedSetupIsACut(before: Chains, fam: Family, cfg: Config, faults: nat -> Fault, after: Chains)
    requires Ipt.Inv(before) && MangleSetUp(before, true, fam, cfg, faults, after)
    ensures exists cut :: after == Mangle.StateAfter(before, fam, Mangle.SetupRun(cfg, cut))
  {
    var install := Ipt.InstallCommands(fam, cfg);
    var program := Ipt.SetupProgram(fam, cfg);
    Mangle.CleanupRestores(before);
    Mangle.SetupInstalls(before, fam, cfg);
    if Faultless(faults, 0, |install|) {
      assert program[..|program|] == program;
      assert after == Mangle.StateAfter(before, fam, Mangle.SetupRun(cfg, |program|));
    } else {
      var k :| 0 <= k <= |install| && after == Ipt.Run(Ipt.Foreign(before), install[..k]);
      var cut := |Ipt.CLEANUP_COMMANDS| + k;
      assert program[..cut] == Ipt.CLEANUP_COMMANDS + install[..k];
      Mangle.RunConcat(before, Ipt.CLEANUP_COMMANDS, install[..k]);
      assert after == Mangle.StateAfter(before, fam, Mangle.SetupRun(cfg, cut));
    }
  }

  lemma FailedNftSetupIsACut(before: Nft.Tables, fam: Family, cfg: Config, faults: nat -> Fault, after: Nft.Tables)
    requires NftSetUp(before, true, fam, cfg, faults, after)
    ensures exists cut :: after == NftCut(before, true, Nft.SetupProgram(fam, cfg), cut)
  {
    var program := Nft.SetupProgram(fam, cfg);
    if Faultless(faults, 0, NftCommandCount(cfg)) {
      Nft.SetupInstalls(before, fam, cfg);
      assert program[..|program|] == program;
      assert after == NftCut(before, true, program, |program|);
    } else {
      var k :| 0 <= k <= |program| && after == Nft.Run(before, program[..k]);
      assert after == NftCut(before, true, program, k);
    }
  }

  // ---- recovery

  lemma UntouchedIsOthers(r: Rules)
    requires Untouched(r)
    ensures OthersOf(r) == r && Sound(r)
  {
    assert r.nft - OURS == r.nft;
  }

  lemma OthersAreUntouched(r: Rules)
    requires Sound(r)
    ensures Untouched(OthersOf(r))
  {
    Mangle.CleanupRestores(r.mangle4);
    Mangle.CleanupRestores(r.mangle6);
  }

  /** With nothing in the unserved tables, clean-up and set-up do exactly what they would on a first run. */
  lemma RecoversIfUnserved(r: Rules, cfg: Config, useIptables: bool)
    requires Sound(r) && UnservedUntouched(r, cfg, useIptables)
    ensures Cleared(r, cfg, useIptables) == OthersOf(r)
    ensures Sound(OthersOf(r)) && Installed(r, cfg, useIptables) == Installed(OthersOf(r), cfg, useIptables)
  {
    var f := OthersOf(r);
    OthersAreUntouched(r);
    Mangle.ForeignTwice(r.mangle4);
    Mangle.ForeignTwice(r.mangle6);
    NftRecovers(r.nft, cfg, !cfg.flags.skipfw && !useIptables);
  }

  lemma NftRecovers(ts: Nft.Tables, cfg: Config, used: bool)
    requires (used && Uses(cfg, V4)) || Nft.Fakesip(V4) !in ts
    requires (used && Uses(cfg, V6)) || Nft.Fakesip(V6) !in ts
    ensures (if used then NftCleared(ts, cfg) else ts) == ts - OURS
    ensures used ==> NftInstalled(ts, cfg) == NftInstalled(ts - OURS, cfg)
  {
  }

  /**
   Recovery of everything. From tables that the program never touched, through any history: the
   invariant holds, and others keep exactly their rules. A clean-up that finishes leaves no trace of
   the program if and only if the tables it does not serve hold none; it then leaves exactly the
   rules of others, and a set-up that finishes leaves what a first one leaves. That is the case
   whenever the runs so far served no other tables.
   */
  lemma RulesRecovery(r: Rules, es: seq<Event>, cfg: Config, useIptables: bool)
    requires Untouched(r) && Possible(r, es)
    ensures var now, f := Replay(r, es), OthersAfter(r, es);
            && Sound(now) && Untouched(f) && Sound(f)
            && (Untouched(Cleared(now, cfg, useIptables)) <==> UnservedUntouched(now, cfg, useIptables))
            && (UnservedUntouched(now, cfg, useIptables) ==>
                  && Cleared(now, cfg, useIptables) == f
                  && Installed(now, cfg, useIptables) == Installed(f, cfg, useIptables))
            && ((forall e | e in es :: Within(e, cfg, useIptables)) ==> UnservedUntouched(now, cfg, useIptables))
  {
    UntouchedIsOthers(r);
    HistoryKeeps(r, es);
    var now := Replay(r, es);
    OthersAreUntouched(now);
    UntouchedIsOthers(OthersOf(now));
    ClearingIsComplete(now, cfg, useIptables);
    if UnservedUntouched(now, cfg, useIptables) {
      RecoversIfUnserved(now, cfg, useIptables);
    }
    if forall e | e in es :: Within(e, cfg, useIptables) {
      HistoryKeepsUnserved(r, es, cfg, useIptables);
    }
  }

  // ---- and where it ends

  const BUILTINS: Chains := map[Builtin(Prerouting) := [], Builtin(Postrouting) := []]
  const BARE := Rules(BUILTINS, BUILTINS, map[])

  /**
   A run that falls back to iptables does not recover what an nft run left: cut the nft set-up off
   right after the load, and the table "fakesip" stays, whatever iptables runs follow.
   */
  lemma FallbackLeavesATable(cfg: Config)
    requires cfg.flags.useIpv4 && !cfg.flags.skipfw
    ensures Untouched(BARE)
    ensures var left := StateAfter(BARE, SetupRun(cfg, false, 2, 0));
            && Sound(left) && Ipt.Clean(left.mangle4) && Ipt.Clean(left.mangle6)
            && Nft.Fakesip(V4) in Cleared(left, cfg, true).nft && !Untouched(Cleared(left, cfg, true))
  {
    Mangle.CleanMeans(BUILTINS);
    UntouchedIsOthers(BARE);
    var e := SetupRun(cfg, false, 2, 0);
    RunKeeps(BARE, e);
    assert Nft.SetupProgram(V4, cfg)[..2] == Nft.LoadCommands(V4, cfg);
    Nft.RunLoad(BARE.nft, V4, cfg);
    NftAfterKeeps(NftAfter(BARE.nft, e, V4), e, V6);
    TwoTables(NftAfter(BARE.nft, e, V4), NftAfter(BARE.nft, e, V4), NftAfter(NftAfter(BARE.nft, e, V4), e, V6));
    ClearedTables(StateAfter(BARE, e), cfg, true, V4);
  }

  /** What a finished set-up leaves in the tables that it serves. */
  lemma InstalledLeavesTraces(r: Rules, cfg: Config, useIptables: bool, fam: Family)
    requires Sound(r)
    ensures ServesMangle(cfg, useIptables, fam) ==> !Ipt.Clean(MangleOf(Installed(r, cfg, useIptables), fam))
    ensures ServesNft(cfg, useIptables, fam) ==> Nft.Fakesip(fam) in Installed(r, cfg, useIptables).nft
  {
    if ServesMangle(cfg, useIptables, fam) {
      Mangle.CleanMeans(MangleOf(Installed(r, cfg, useIptables), fam));
    }
  }

  predicate IsRun(e: Event, cfg: Config, useIptables: bool)
  {
    !e.ForeignEdit? && e.cfg == cfg && e.useIptables == useIptables
  }

  /**
   Exactly when one run can recover from another: a clean-up with the settings (cfg, useIptables)
   undoes every run with the settings (other, otherIptables), wherever that was cut off, if and only
   if it serves every table that the other one serves.
   */
  lemma RecoveryIsExact(r: Rules, cfg: Config, useIptables: bool, other: Config, otherIptables: bool)
    requires Untouched(r)
    ensures (forall e | IsRun(e, other, otherIptables) :: Untouched(Cleared(StateAfter(r, e), cfg, useIptables)))
       <==> Within(SetupRun(other, otherIptables, 0, 0), cfg, useIptables)
  {
    if Within(SetupRun(other, otherIptables, 0, 0), cfg, useIptables) {
      forall e | IsRun(e, other, otherIptables)
        ensures Untouched(Cleared(StateAfter(r, e), cfg, useIptables))
      {
        RunIsRecovered(r, e, cfg, useIptables);
      }
    } else {
      UnservedKeepsTraces(r, cfg, useIptables, other, otherIptables);
      assert IsRun(FinishedRun(other, otherIptables), other, otherIptables);
    }
  }

  lemma RunIsRecovered(r: Rules, e: Event, cfg: Config, useIptables: bool)
    requires Untouched(r) && !e.ForeignEdit? && Within(e, cfg, useIptables)
    ensures Untouched(Cleared(StateAfter(r, e), cfg, useIptables))
  {
    assert [e][1..] == [] && Replay(r, [e]) == StateAfter(r, e);
    RulesRecovery(r, [e], cfg, useIptables);
  }

  lemma UnservedKeepsTraces(r: Rules, cfg: Config, useIptables: bool, other: Config, otherIptables: bool)
    requires Untouched(r) && !Within(SetupRun(other, otherIptables, 0, 0), cfg, useIptables)
    ensures !Untouched(Cleared(StateAfter(r, FinishedRun(other, otherIptables)), cfg, useIptables))
  {
    var e := FinishedRun(other, otherIptables);
    UntouchedIsOthers(r);
    FinishedSetup(r, other, otherIptables, e.cut4, e.cut6);
    var fam := if !Covers(cfg, useIptables, e, V4) then V4 else V6;
    InstalledLeavesTraces(r, other, otherIptables, fam);
    ClearedTables(StateAfter(r, e), cfg, useIptables, fam);
    assert !TablesUntouched(Cleared(StateAfter(r, e), cfg, useIptables), fam);
  }

  function FinishedRun(cfg: Config, useIptables: bool): Event
  {
    SetupRun(cfg, useIptables,
             |Ipt.SetupProgram(V4, cfg)| + |Nft.SetupProgram(V4, cfg)| + 1,
             |Ipt.SetupProgram(V6, cfg)| + |Nft.SetupProgram(V6, cfg)| + 1)
  }
}
