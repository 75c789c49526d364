/** The validated settings of one run of the program (the fields of `g_ctx` that the core reads). */
module Context {
  import opened Wrappers

  /** The size of a payload buffer. */
  const BUFFLEN := 1200

  datatype Flags = Flags(
    inbound: bool,
    outbound: bool,
    useIpv4: bool,
    useIpv6: bool,
    alliface: bool,
    skipfw: bool,
    nohopest: bool,
    useIptables: bool)

  datatype Numbers = Numbers(
    fwmark: uint32,
    fwmask: uint32,
    nfqnum: nat,
    repeat: nat,
    ttl: byte,
    dynamicPct: nat)

  datatype Config = Config(flags: Flags, numbers: Numbers, ifaces: seq<string>)

  /**
   The address ranges that decoys stay away from, family by family: local, private, loopback,
   link-local, multicast and reserved IPv4 addresses, and every IPv6 address that is not global
   unicast.
   */
  predicate Excluded(fam: Family, a: nat)
  {
    match fam
    case V4 =>
      || a < 0x0100_0000                          // 0.x.x.x
      || 0x0A00_0000 <= a < 0x0B00_0000           // 10.x.x.x
      || 0x6440_0000 <= a < 0x6480_0000           // 100.64.x.x to 100.127.x.x
      || 0x7F00_0000 <= a < 0x8000_0000           // 127.x.x.x
      || 0xA9FE_0000 <= a < 0xA9FF_0000           // 169.254.x.x
      || 0xAC10_0000 <= a < 0xAC20_0000           // 172.16.x.x to 172.31.x.x
      || 0xC0A8_0000 <= a < 0xC0A9_0000           // 192.168.x.x
      || 0xE000_0000 <= a < 0x1_0000_0000         // 224.x.x.x and above
    case V6 =>
      !(0x2000_0000_0000_0000_0000_0000_0000_0000 <= a < 0x4000_0000_0000_0000_0000_0000_0000_0000)
  }

  /** What the option parser guarantees about every run. */
  predicate Accepted(cfg: Config)
  {
    && (cfg.flags.inbound || cfg.flags.outbound)
    && (cfg.flags.useIpv4 || cfg.flags.useIpv6)
    && (cfg.flags.alliface || cfg.ifaces != [])
    && (forall n | n in cfg.ifaces :: 1 <= |n| <= 15)
    && cfg.numbers.fwmark != 0 && And(cfg.numbers.fwmark, cfg.numbers.fwmask) == cfg.numbers.fwmark
    && 1 <= cfg.numbers.nfqnum <= 0xFFFF
    && 1 <= cfg.numbers.repeat <= 10
    && 1 <= cfg.numbers.ttl
    && cfg.numbers.dynamicPct < 100 && (cfg.numbers.dynamicPct != 0 ==> !cfg.flags.nohopest)
  }
}
