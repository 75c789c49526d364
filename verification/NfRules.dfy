/** Choice of back end, set-up with rollback, and clean-up: fs_nfrules_setup and fs_nfrules_cleanup. */
module NfRules {
  import opened Wrappers
  import opened Context
  import opened Netfilter
  import opened Process
  import Ipt = Iptables
  import Recovery = IptablesRecovery
  import Nft = Nftables
  import opened MangleTable

  /** The mangle table of a family after a set-up that succeeded. */
  ghost function MangleInstalled(before: Chains, used: bool, fam: Family, cfg: Config): Chains
    requires Ipt.Inv(before)
  {
    if used then Ipt.Installed(Ipt.Foreign(before), fam, cfg) else before
  }

  /** The mangle table of a family once the program is out of it. */
  ghost function MangleCleared(before: Chains, used: bool): Chains
  {
    if used then Ipt.Foreign(before) else before
  }

  ghost function NftInstalled(before: Nft.Tables, cfg: Config): Nft.Tables
  {
    var t := if cfg.flags.useIpv4 then before[Nft.Fakesip(V4) := Nft.Installed(V4, cfg)] else before;
    if cfg.flags.useIpv6 then t[Nft.Fakesip(V6) := Nft.Installed(V6, cfg)] else t
  }

  function Served(cfg: Config): set<Nft.TableId>
  {
    (if cfg.flags.useIpv4 then {Nft.Fakesip(V4)} else {}) + (if cfg.flags.useIpv6 then {Nft.Fakesip(V6)} else {})
  }

  ghost function NftCleared(before: Nft.Tables, cfg: Config): Nft.Tables
  {
    before - Served(cfg)
  }

  lemma ClearedInSteps(before: Nft.Tables, cfg: Config)
    ensures cfg.flags.useIpv4 && cfg.flags.useIpv6 ==>
              before - {Nft.Fakesip(V4)} - {Nft.Fakesip(V6)} == NftCleared(before, cfg)
    ensures !cfg.flags.useIpv4 && !cfg.flags.useIpv6 ==> NftCleared(before, cfg) == before
  {
    assert before - {} == before;
    assert before - {Nft.Fakesip(V4)} - {Nft.Fakesip(V6)} == before - ({Nft.Fakesip(V4)} + {Nft.Fakesip(V6)});
  }

  /** Tables that agree outside `s` agree outside anything larger. */
  lemma AgreeOutside(a: Nft.Tables, b: Nft.Tables, s: set<Nft.TableId>, t: set<Nft.TableId>)
    requires a - s == b - s && s <= t
    ensures a - t == b - t
  {
    assert a - t == (a - s) - t;
    assert b - t == (b - s) - t;
  }

  lemma NftInstalledThenCleared(before: Nft.Tables, cfg: Config)
    ensures NftCleared(NftInstalled(before, cfg), cfg) == NftCleared(before, cfg)
  {
  }

  /** All tables that either back end may touch. */
  datatype Rules = Rules(mangle4: Chains, mangle6: Chains, nft: Nft.Tables)

  ghost predicate Sound(r: Rules)
  {
    Ipt.Inv(r.mangle4) && Ipt.Inv(r.mangle6)
  }

  /** The whole ruleset of the chosen back end, for the chosen families; the other back end is not touched. */
  ghost function Installed(before: Rules, cfg: Config, useIptables: bool): Rules
    requires Sound(before)
  {
    if cfg.flags.skipfw then before
    else if useIptables then
      Rules(MangleInstalled(before.mangle4, cfg.flags.useIpv4, V4, cfg),
            MangleInstalled(before.mangle6, cfg.flags.useIpv6, V6, cfg),
            before.nft)
    else before.(nft := NftInstalled(before.nft, cfg))
  }

  /** The served tables as if the program had never run; the others as they are. */
  ghost function Cleared(before: Rules, cfg: Config, useIptables: bool): Rules
  {
    if cfg.flags.skipfw then before
    else if useIptables then
      Rules(MangleCleared(before.mangle4, cfg.flags.useIpv4),
            MangleCleared(before.mangle6, cfg.flags.useIpv6),
            before.nft)
    else before.(nft := NftCleared(before.nft, cfg))
  }

  /** What set-up installed, clean-up removes: no other rule is lost or moved. */
  lemma InstalledThenCleared(before: Rules, cfg: Config, useIptables: bool)
    requires Sound(before)
    ensures Cleared(Installed(before, cfg, useIptables), cfg, useIptables) == Cleared(before, cfg, useIptables)
    ensures Sound(Installed(before, cfg, useIptables))
  {
    MangleInstalledThenCleared(before.mangle4, cfg.flags.useIpv4, V4, cfg);
    MangleInstalledThenCleared(before.mangle6, cfg.flags.useIpv6, V6, cfg);
    NftInstalledThenCleared(before.nft, cfg);
  }

  lemma MangleInstalledThenCleared(before: Chains, used: bool, fam: Family, cfg: Config)
    requires Ipt.Inv(before)
    ensures Ipt.Inv(MangleInstalled(before, used, fam, cfg))
    ensures MangleCleared(MangleInstalled(before, used, fam, cfg), used) == MangleCleared(before, used)
  {
    var program := Ipt.SetupProgram(fam, cfg);
    Recovery.SetupPrefix(before, fam, cfg, |program|);
    Recovery.SetupInstalls(before, fam, cfg);
    assert program[..|program|] == program;
  }

  /** Clearing twice is clearing once. */
  lemma ClearedTwice(r: Rules, cfg: Config, useIptables: bool)
    ensures Cleared(Cleared(r, cfg, useIptables), cfg, useIptables) == Cleared(r, cfg, useIptables)
  {
    Recovery.ForeignTwice(r.mangle4);
    Recovery.ForeignTwice(r.mangle6);
  }

  predicate IptablesSucceeds(cfg: Config, faults4: nat -> Fault, faults6: nat -> Fault)
  {
    && (cfg.flags.useIpv4 ==> Faultless(faults4, 0, |Ipt.InstallCommands(V4, cfg)|))
    && (cfg.flags.useIpv6 ==> Faultless(faults6, 0, |Ipt.InstallCommands(V6, cfg)|))
  }

  /** The load, and three commands for each interface. */
  function NftCommandCount(cfg: Config): nat
  {
    1 + 3 * |Nft.InterfaceNames(cfg)|
  }

  predicate NftSucceeds(cfg: Config, faults4: nat -> Fault, faults6: nat -> Fault)
  {
    && (cfg.flags.useIpv4 ==> Faultless(faults4, 0, NftCommandCount(cfg)))
    && (cfg.flags.useIpv6 ==> Faultless(faults6, 0, NftCommandCount(cfg)))
  }

  /** Nothing goes wrong with any command of the back end in use. */
  predicate RulesSucceed(cfg: Config, nftWorks: bool, faults4: nat -> Fault, faults6: nat -> Fault)
  {
    || cfg.flags.skipfw
    || (if UsesIptables(cfg, nftWorks) then IptablesSucceeds(cfg, faults4, faults6)
        else NftSucceeds(cfg, faults4, faults6))
  }

  /**
   What issuing the set-up of one family's mangle table leaves: everything, or what a program cut
   off at the first fault leaves.
   */
  ghost predicate MangleSetUp(before: Chains, used: bool, fam: Family, cfg: Config, faults: nat -> Fault, after: Chains)
    requires Ipt.Inv(before)
  {
    var program := Ipt.InstallCommands(fam, cfg);
    if !used || Faultless(faults, 0, |program|) then after == MangleInstalled(before, used, fam, cfg)
    else CutOff(Ipt.Foreign(before), program, after)
  }

  /** The same for one family's nft table. */
  ghost predicate NftSetUp(before: Nft.Tables, used: bool, fam: Family, cfg: Config, faults: nat -> Fault,
                           after: Nft.Tables)
  {
    if !used then after == before
    else if Faultless(faults, 0, NftCommandCount(cfg)) then after == before[Nft.Fakesip(fam) := Nft.Installed(fam, cfg)]
    else Nft.CutOff(before, Nft.SetupProgram(fam, cfg), after)
  }

  class Firewall {
    const cfg: Config
    var useIptables: bool          // g_ctx.use_iptables, which a fallback may set
    const mangle4: Mangle
    const mangle6: Mangle
    const nft: Nft.Ruletables

    constructor (cfg: Config, mangle4: Mangle, mangle6: Mangle, nft: Nft.Ruletables)
      ensures this.cfg == cfg && this.mangle4 == mangle4 && this.mangle6 == mangle6 && this.nft == nft
      ensures useIptables == cfg.flags.useIptables
    {
      this.cfg, useIptables := cfg, cfg.flags.useIptables;
      this.mangle4, this.mangle6, this.nft := mangle4, mangle6, nft;
    }

    ghost predicate Valid()
      reads this, mangle4, mangle6
    {
      && mangle4 != mangle6 && mangle4.family == V4 && mangle6.family == V6
      && Ipt.Inv(mangle4.chains) && Ipt.Inv(mangle6.chains)
    }

    ghost function Now(): Rules
      reads mangle4, mangle6, nft
    {
      Rules(mangle4.chains, mangle6.chains, nft.tables)
    }

    /** Exactly the served tables of the chosen back end are cleared. */
    method Cleanup()
      requires Valid()
      modifies mangle4, mangle6, nft
      ensures Valid() && Now() == Cleared(old(Now()), cfg, useIptables)
    {
      if cfg.flags.skipfw {
        return;
      }
      if useIptables {
        if cfg.flags.useIpv4 {
          mangle4.Cleanup();
        }
        if cfg.flags.useIpv6 {
          mangle6.Cleanup();
        }
      } else {
        CleanupNft();
      }
    }

    method CleanupNft()
      modifies nft
      ensures nft.tables == NftCleared(old(nft.tables), cfg)
    {
      if cfg.flags.useIpv4 {
        nft.Cleanup(V4);
      }
      if cfg.flags.useIpv6 {
        nft.Cleanup(V6);
      }
      ClearedInSteps(old(nft.tables), cfg);
    }

    /**
     All or nothing: success leaves the whole ruleset of the chosen back end, any failure leaves
     every served table as if the program had never run. Without a working nft it falls back to
     iptables. (The other back end's tables stay as they are.)
     */
    method Setup(nftWorks: bool, faults4: nat -> Fault, faults6: nat -> Fault) returns (ok: bool)
      requires Valid()
      modifies this, mangle4, mangle6, nft
      ensures Valid()
      ensures useIptables == (old(useIptables) || (!cfg.flags.skipfw && !nftWorks))
      ensures ok <==> cfg.flags.skipfw || (if useIptables then IptablesSucceeds(cfg, faults4, faults6)
                                     else NftSucceeds(cfg, faults4, faults6))
      ensures Now() == if ok then Installed(old(Now()), cfg, useIptables) else Cleared(old(Now()), cfg, useIptables)
      ensures Cleared(Now(), cfg, useIptables) == Cleared(old(Now()), cfg, useIptables)
    {
      ghost var before := Now();
      if cfg.flags.skipfw {
        return true;
      }
      if !useIptables && !nftWorks {
        useIptables := true;
      }
      if useIptables {
        ok := SetupIptables(faults4, faults6);
      } else {
        ghost var between;
        ok, between := SetupNft(faults4, faults6);
      }
      if !ok {
        Cleanup();
      }
      InstalledThenCleared(before, cfg, useIptables);
      ClearedTwice(before, cfg, useIptables);
    }

    /** IPv4 first; IPv6 only if nothing went wrong before. */
    method SetupIptables(faults4: nat -> Fault, faults6: nat -> Fault) returns (ok: bool)
      requires Valid()
      modifies mangle4, mangle6
      ensures Valid()
      ensures ok <==> IptablesSucceeds(cfg, faults4, faults6)
      ensures MangleSetUp(old(mangle4.chains), cfg.flags.useIpv4, V4, cfg, faults4, mangle4.chains)
      ensures if cfg.flags.useIpv4 && !Faultless(faults4, 0, |Ipt.InstallCommands(V4, cfg)|)
              then mangle6.chains == old(mangle6.chains)
              else MangleSetUp(old(mangle6.chains), cfg.flags.useIpv6, V6, cfg, faults6, mangle6.chains)
      ensures Ipt.Foreign(mangle4.chains) == Ipt.Foreign(old(mangle4.chains))
      ensures Ipt.Foreign(mangle6.chains) == Ipt.Foreign(old(mangle6.chains))
    {
      ok := true;
      if cfg.flags.useIpv4 {
        ok := mangle4.Setup(cfg, faults4);
      }
      if ok && cfg.flags.useIpv6 {
        ok := mangle6.Setup(cfg, faults6);
      }
    }

    /** The same with nft. */
    method SetupNft(faults4: nat -> Fault, faults6: nat -> Fault) returns (ok: bool, ghost between: Nft.Tables)
      modifies nft
      ensures ok <==> NftSucceeds(cfg, faults4, faults6)
      ensures NftSetUp(old(nft.tables), cfg.flags.useIpv4, V4, cfg, faults4, between)
      ensures if cfg.flags.useIpv4 && !Faultless(faults4, 0, NftCommandCount(cfg)) then nft.tables == between
              else NftSetUp(between, cfg.flags.useIpv6, V6, cfg, faults6, nft.tables)
      ensures NftCleared(nft.tables, cfg) == NftCleared(old(nft.tables), cfg)
    {
      ok := true;
      if cfg.flags.useIpv4 {
        ok := nft.Setup(V4, cfg, faults4);
        AgreeOutside(nft.tables, old(nft.tables), {Nft.Fakesip(V4)}, Served(cfg));
      }
      between := nft.tables;
      if ok && cfg.flags.useIpv6 {
        ok := nft.Setup(V6, cfg, faults6);
        AgreeOutside(nft.tables, between, {Nft.Fakesip(V6)}, Served(cfg));
      }
    }

    /**
     The rules over one run of the program: set-up, the queue loop if that succeeds, clean-up. However
     the set-up goes, and whether or not it falls back to iptables, the tables that the run serves
     keep none of the program's rules, and no other rule is lost or moved. Tables that it does not
     serve keep what earlier runs left there (RulesRecovery).
     */
    method Session(nftWorks: bool, faults4: nat -> Fault, faults6: nat -> Fault) returns (ok: bool)
      requires Valid()
      modifies this, mangle4, mangle6, nft
      ensures Valid() && Now() == Cleared(old(Now()), cfg, useIptables)
      ensures useIptables == (old(useIptables) || (!cfg.flags.skipfw && !nftWorks))
    {
      ok := Setup(nftWorks, faults4, faults6);
      if ok {
        Cleanup();
      }
    }
  }

  /** The back end after a fallback, if there is one. */
  predicate UsesIptables(cfg: Config, nftWorks: bool)
  {
    cfg.flags.useIptables || (!cfg.flags.skipfw && !nftWorks)
  }

  /** The program's set-up on the kernel's tables `before`; `after` is what it makes of them. */
  method SetupRules(before: Rules, cfg: Config, nftWorks: bool, faults4: nat -> Fault, faults6: nat -> Fault)
    returns (ok: bool, after: Rules)
    requires Sound(before)
    ensures Sound(after)
    ensures ok <==> RulesSucceed(cfg, nftWorks, faults4, faults6)
    ensures after == if ok then Installed(before, cfg, UsesIptables(cfg, nftWorks))
                     else Cleared(before, cfg, UsesIptables(cfg, nftWorks))
    ensures Cleared(after, cfg, UsesIptables(cfg, nftWorks)) == Cleared(before, cfg, UsesIptables(cfg, nftWorks))
  {
    var m4, m6, nft := NewTables(before);
    var fw := new Firewall(cfg, m4, m6, nft);
    ok := fw.Setup(nftWorks, faults4, faults6);
    after := Rules(m4.chains, m6.chains, nft.tables);
  }

  /** Its clean-up, with the back end that set-up ended up with. */
  method CleanupRules(before: Rules, cfg: Config, nftWorks: bool) returns (after: Rules)
    requires Sound(before)
    ensures Sound(after) && after == Cleared(before, cfg, UsesIptables(cfg, nftWorks))
  {
    var m4, m6, nft := NewTables(before);
    var fw := new Firewall(cfg, m4, m6, nft);
    fw.useIptables := UsesIptables(cfg, nftWorks);
    fw.Cleanup();
    after := Rules(m4.chains, m6.chains, nft.tables);
  }

  method NewTables(r: Rules) returns (m4: Mangle, m6: Mangle, nft: Nft.Ruletables)
    ensures fresh(m4) && fresh(m6) && fresh(nft) && m4 != m6
    ensures m4.family == V4 && m6.family == V6 && Rules(m4.chains, m6.chains, nft.tables) == r
  {
    m4 := new Mangle(V4, r.mangle4);
    m6 := new Mangle(V6, r.mangle6);
    nft := new Nft.Ruletables(r.nft);
  }
}
