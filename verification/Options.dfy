/** The option loop of main: numbers, checks between options, and the two growing option arrays. */
module Options {
  import opened Wrappers
  import opened Context
  import opened Numerals

  // ---- the arrays behind -b/-u and -i

  const FIRST_CAPACITY := 32

  /**
   A zero-terminated array that doubles before it is full. `zero` is the value that calloc and
   memset leave, which ends the array for its readers.
   */
  class OptionArray<T(==)> {
    const zero: T
    var slots: array<T>
    var cnt: nat

    ghost predicate Valid()
      reads this, slots
    {
      && FIRST_CAPACITY <= slots.Length && cnt < slots.Length - 1
      && (forall i | 0 <= i < cnt :: slots[i] != zero)
      && forall i | cnt <= i < slots.Length :: slots[i] == zero
    }

    /** The options stored so far, in command-line order. */
    function Contents(): (s: seq<T>)
      requires Valid()
      reads this, slots
      ensures |s| == cnt && zero !in s
    {
      slots[..cnt]
    }

    /** One more option fits, growing the array first if it must. */
    predicate HasRoom(memory: bool, maxCapacity: nat)
      reads this
    {
      cnt + 1 < slots.Length - 1 || (memory && slots.Length <= maxCapacity / 2)
    }

    constructor (zero: T)
      ensures Valid() && fresh(slots) && this.zero == zero && Contents() == []
    {
      this.zero := zero;
      slots := new T[FIRST_CAPACITY](_ => zero);
      cnt := 0;
    }

    /**
     Stores one option. It fails only when the array must grow and cannot. There is always room
     for the terminator behind the options.
     */
    method Append(x: T, memory: bool, maxCapacity: nat) returns (ok: bool)
      requires Valid() && x != zero
      modifies this, slots
      ensures ok <==> old(HasRoom(memory, maxCapacity))
      ensures ok ==> Valid() && cnt == old(cnt) + 1 && Contents() == old(Contents()) + [x] && slots[cnt] == zero
      ensures slots == old(slots) || fresh(slots)
    {
      cnt := cnt + 1;
      if cnt >= slots.Length - 1 {
        if slots.Length > maxCapacity / 2 || !memory {
          return false;
        }
        Grow();
      }
      slots[cnt - 1] := x;
      ok := true;
    }

    /** realloc to twice the size, the new half zeroed. */
    method Grow()
      requires FIRST_CAPACITY <= slots.Length && cnt <= slots.Length
      modifies this`slots
      ensures fresh(slots) && slots.Length == 2 * old(slots.Length)
      ensures slots[..old(slots.Length)] == old(slots[..])
      ensures forall i | old(slots.Length) <= i < slots.Length :: slots[i] == zero
    {
      var bigger := new T[2 * slots.Length](_ => zero);
      var i := 0;
      while i < slots.Length
        invariant 0 <= i <= slots.Length && bigger.Length == 2 * slots.Length && fresh(bigger)
        invariant bigger[..i] == slots[..i]
        invariant forall j | i <= j < bigger.Length :: bigger[j] == zero
        invariant slots == old(slots) && slots[..] == old(slots[..])
      {
        bigger[i] := slots[i];
        i := i + 1;
      }
      slots := bigger;
    }
  }

  // ---- one option after another

  datatype FlagOption =
    | Inbound | Outbound               // -0 -1
    | Ipv4 | Ipv6                      // -4 -6
    | AllInterfaces                    // -a
    | SkipFirewall                     // -f
    | NoHopEstimate                    // -g
    | Iptables                         // -z

  datatype NumberOption = Mark | Mask | QueueNumber | Repeat | Ttl | DynamicPct   // -m -x -n -r -t -y

  /** One option as getopt returns it. */
  datatype Opt =
    | Flag(flag: FlagOption)
    | PayloadFile(path: string)        // -b
    | PayloadUri(uri: string)          // -u
    | Interface(name: string)          // -i
    | Number(which: NumberOption, arg: string)
    | Unknown

  /** `NoOption` is the zeroed entry that ends the array. */
  datatype PayloadOption = NoOption | SipUriOption(uri: string) | FileOption(path: string) | DefaultSip

  /** An entry that does not end the array. */
  type Chosen = o: PayloadOption | o != NoOption witness DefaultSip

  datatype Settings = Settings(config: Config, plinfo: seq<Chosen>)

  const NO_FLAGS := Flags(false, false, false, false, false, false, false, false)
  const DEFAULT_NUMBERS := Numbers(0x1_0000, 0, 513, 2, 3, 0)

  function IsSet(flags: Flags, f: FlagOption): bool
  {
    match f
    case Inbound => flags.inbound
    case Outbound => flags.outbound
    case Ipv4 => flags.useIpv4
    case Ipv6 => flags.useIpv6
    case AllInterfaces => flags.alliface
    case SkipFirewall => flags.skipfw
    case NoHopEstimate => flags.nohopest
    case Iptables => flags.useIptables
  }

  function SetFlag(flags: Flags, f: FlagOption): Flags
  {
    match f
    case Inbound => flags.(inbound := true)
    case Outbound => flags.(outbound := true)
    case Ipv4 => flags.(useIpv4 := true)
    case Ipv6 => flags.(useIpv6 := true)
    case AllInterfaces => flags.(alliface := true)
    case SkipFirewall => flags.(skipfw := true)
    case NoHopEstimate => flags.(nohopest := true)
    case Iptables => flags.(useIptables := true)
  }

  /** A number between 1 and `max`. */
  function NumberUpTo(arg: string, max: nat): Option<nat>
  {
    var r := ParseUll(arg);
    if r.None? || r.value == 0 || r.value > max then None else r
  }

  /** The largest value of a numeric option. */
  function Limit(which: NumberOption): nat
  {
    match which
    case Mark | Mask => 0xFFFF_FFFF
    case QueueNumber => 0xFFFF
    case Repeat => 10
    case Ttl => 0xFF
    case DynamicPct => 99
  }

  function NumberOf(n: Numbers, which: NumberOption): nat
  {
    match which
    case Mark => n.fwmark
    case Mask => n.fwmask
    case QueueNumber => n.nfqnum
    case Repeat => n.repeat
    case Ttl => n.ttl
    case DynamicPct => n.dynamicPct
  }

  function StoreNumber(n: Numbers, which: NumberOption, v: nat): Numbers
    requires 1 <= v <= Limit(which)
  {
    match which
    case Mark => n.(fwmark := v)
    case Mask => n.(fwmask := v)
    case QueueNumber => n.(nfqnum := v)
    case Repeat => n.(repeat := v)
    case Ttl => n.(ttl := v)
    case DynamicPct => n.(dynamicPct := v)
  }

  /** One round of the option loop; None is the exit with a usage message. */
  function ApplyOption(s: Settings, o: Opt): Option<Settings>
  {
    var Config(flags, numbers, ifaces) := s.config;
    match o
    case Flag(f) => Some(Settings(Config(SetFlag(flags, f), numbers, ifaces), s.plinfo))
    case PayloadFile(path) => if path == "" then None else Some(Settings(s.config, s.plinfo + [FileOption(path)]))
    case PayloadUri(uri) => if uri == "" then None else Some(Settings(s.config, s.plinfo + [SipUriOption(uri)]))
    case Interface(name) =>
      if name == "" || |name| > 15 then None
      else Some(Settings(Config(flags, numbers, ifaces + [name]), s.plinfo))
    case Number(which, arg) =>
      var v := NumberUpTo(arg, Limit(which));
      if v.None? then None else Some(Settings(Config(flags, StoreNumber(numbers, which, v.value), ifaces), s.plinfo))
    case Unknown => None
  }

  /** Neither direction or neither family given means both. */
  function WithDefaults(f: Flags): Flags
  {
    f.(inbound := f.inbound || !f.outbound, outbound := f.outbound || !f.inbound,
       useIpv4 := f.useIpv4 || !f.useIpv6, useIpv6 := f.useIpv6 || !f.useIpv4)
  }

  /** The mask defaults to the mark; a mark with bits outside a given mask is refused. */
  function WithMask(n: Numbers): Option<Numbers>
  {
    if n.fwmask == 0 then Some(n.(fwmask := n.fwmark))
    else if And(n.fwmark, n.fwmask) != n.fwmark then None
    else Some(n)
  }

  /** The checks and defaults after the loop. */
  function Finish(s: Settings): Option<Settings>
  {
    var flags := WithDefaults(s.config.flags);
    var numbers := WithMask(s.config.numbers);
    if numbers.None? then None
    else if !flags.alliface && s.config.ifaces == [] then None
    else if numbers.value.dynamicPct != 0 && flags.nohopest then None
    else
      Some(Settings(Config(flags, numbers.value, s.config.ifaces), if s.plinfo == [] then [DefaultSip] else s.plinfo))
  }

  function ApplyAll(opts: seq<Opt>): Option<Settings>
  {
    if opts == [] then Some(Settings(Config(NO_FLAGS, DEFAULT_NUMBERS, []), []))
    else
      var before := ApplyAll(opts[..|opts| - 1]);
      if before.None? then None else ApplyOption(before.value, opts[|opts| - 1])
  }

  /** What the whole command line amounts to. */
  function Outcome(opts: seq<Opt>): Option<Settings>
  {
    var s := ApplyAll(opts);
    if s.None? then None else Finish(s.value)
  }

  datatype Taken = Stored | Refused | NoMemory

  /** A payload option that the loop does not refuse. */
  predicate IsPayload(o: Opt)
  {
    (o.PayloadFile? && o.path != "") || (o.PayloadUri? && o.uri != "")
  }

  /** An interface option that the loop does not refuse. */
  predicate IsInterface(o: Opt)
  {
    o.Interface? && 1 <= |o.name| <= 15
  }

  /** One round of the loop: the array that the option goes to grows, or the settings change. */
  method TakeOption(o: Opt, flags: Flags, numbers: Numbers, plinfo: OptionArray<PayloadOption>,
                    ifaces: OptionArray<string>, memory: bool, limit: nat)
    returns (result: Taken, flags': Flags, numbers': Numbers)
    requires plinfo.Valid() && ifaces.Valid() && plinfo.zero == NoOption && ifaces.zero == ""
    modifies plinfo, plinfo.slots, ifaces, ifaces.slots
    ensures plinfo.slots == old(plinfo.slots) || fresh(plinfo.slots)
    ensures ifaces.slots == old(ifaces.slots) || fresh(ifaces.slots)
    ensures var before := Settings(Config(flags, numbers, old(ifaces.Contents())), old(plinfo.Contents()));
            var next := ApplyOption(before, o);
            && (result.Refused? <==> next.None?)
            && (result.Stored? ==>
                  && plinfo.Valid() && ifaces.Valid()
                  && next == Some(Settings(Config(flags', numbers', ifaces.Contents()), plinfo.Contents())))
    ensures result.Stored? ==> plinfo.cnt <= old(plinfo.cnt) + 1 && ifaces.cnt <= old(ifaces.cnt) + 1
    ensures result.NoMemory? <==>
              || (IsPayload(o) && !old(plinfo.HasRoom(memory, limit)))
              || (IsInterface(o) && !old(ifaces.HasRoom(memory, limit)))
  {
    flags', numbers' := flags, numbers;
    result := Refused;
    var ok := true;
    match o {
      case Flag(f) =>
        flags' := SetFlag(flags, f);
      case PayloadFile(path) =>
        if path == "" {
          return;
        }
        ok := plinfo.Append(FileOption(path), memory, limit);
      case PayloadUri(uri) =>
        if uri == "" {
          return;
        }
        ok := plinfo.Append(SipUriOption(uri), memory, limit);
      case Interface(name) =>
        if name == "" || |name| > 15 {
          return;
        }
        ok := ifaces.Append(name, memory, limit);
      case Number(which, arg) =>
        var v := NumberUpTo(arg, Limit(which));
        if v.None? {
          return;
        }
        numbers' := StoreNumber(numbers, which, v.value);
      case Unknown =>
        return;
    }
    result := if ok then Stored else NoMemory;
  }

  /**
   The loop, with its two growing arrays, and the checks after it. `memory(i)` says whether option i
   gets memory if its array must grow, to at most `limit` entries. Only a lack of memory can reject
   what the options alone would not, and no array grows for thirty options.
   */
  method ParseOptions(opts: seq<Opt>, memory: nat -> bool, limit: nat) returns (r: Option<Settings>)
    ensures r.Some? ==> r == Outcome(opts)
    ensures (forall i | 0 <= i < |opts| :: memory(i)) && limit >= 2 * |opts| + 8 ==> r == Outcome(opts)
    ensures |opts| <= 30 ==> r == Outcome(opts)
  {
    var flags, numbers := NO_FLAGS, DEFAULT_NUMBERS;
    var plinfo := new OptionArray<PayloadOption>(NoOption);
    var ifaces := new OptionArray<string>("");
    var i := 0;
    while i < |opts|
      invariant 0 <= i <= |opts| && fresh(plinfo) && fresh(plinfo.slots) && fresh(ifaces) && fresh(ifaces.slots)
      invariant plinfo.Valid() && ifaces.Valid() && plinfo.cnt <= i && ifaces.cnt <= i
      invariant ApplyAll(opts[..i]) == Some(Settings(Config(flags, numbers, ifaces.Contents()), plinfo.Contents()))
    {
      var result;
      NextOption(opts, i);
      result, flags, numbers := TakeOption(opts[i], flags, numbers, plinfo, ifaces, memory(i), limit);
      if result.Refused? {
        RefusedForGood(opts, i + 1);
        return None;
      }
      if result.NoMemory? {
        assert i >= 30 && (!memory(i) || limit < 2 * i + 10);
        return None;
      }
      assert ApplyAll(opts[..i + 1]) == Some(Settings(Config(flags, numbers, ifaces.Contents()), plinfo.Contents()));
      i := i + 1;
    }
    assert opts[..i] == opts;
    r := Finish(Settings(Config(flags, numbers, ifaces.Contents()), plinfo.Contents()));
  }

  lemma RefusedForGood(opts: seq<Opt>, i: nat)
    requires i <= |opts| && ApplyAll(opts[..i]).None?
    ensures Outcome(opts).None?
  {
    NeverRecovers(opts, i);
  }

  lemma NextOption(opts: seq<Opt>, i: nat)
    requires i < |opts| && ApplyAll(opts[..i]).Some?
    ensures ApplyAll(opts[..i + 1]) == ApplyOption(ApplyAll(opts[..i]).value, opts[i])
  {
    assert opts[..i + 1][..i] == opts[..i];
  }

  lemma {:induction false} NeverRecovers(opts: seq<Opt>, i: nat)
    requires i <= |opts| && ApplyAll(opts[..i]).None?
    ensures ApplyAll(opts).None?
    decreases |opts|
  {
    if i == |opts| {
      assert opts[..i] == opts;
    } else {
      assert opts[..|opts| - 1][..i] == opts[..i];
      NeverRecovers(opts[..|opts| - 1], i);
    }
  }

  // ---- what every accepted command line keeps

  predicate NumbersInRange(n: Numbers)
  {
    n.fwmark != 0 && 1 <= n.nfqnum <= 0xFFFF && 1 <= n.repeat <= 10 && 1 <= n.ttl && n.dynamicPct < 100
  }

  predicate InRange(c: Config)
  {
    NumbersInRange(c.numbers) && forall n | n in c.ifaces :: 1 <= |n| <= 15
  }

  lemma NumberKeeps(n: Numbers, which: NumberOption, v: nat)
    requires NumbersInRange(n) && 1 <= v <= Limit(which)
    ensures NumbersInRange(StoreNumber(n, which, v))
  {
  }

  lemma {:induction false} LoopKeeps(opts: seq<Opt>)
    requires ApplyAll(opts).Some?
    ensures InRange(ApplyAll(opts).value.config)
  {
    if opts != [] {
      var before, o := ApplyAll(opts[..|opts| - 1]).value, opts[|opts| - 1];
      LoopKeeps(opts[..|opts| - 1]);
      if o.Number? {
        NumberKeeps(before.config.numbers, o.which, NumberUpTo(o.arg, Limit(o.which)).value);
      }
    }
  }

  lemma MaskCovers(n: Numbers)
    ensures var m := WithMask(n);
            m.Some? ==> And(m.value.fwmark, m.value.fwmask) == m.value.fwmark && m.value == n.(fwmask := m.value.fwmask)
  {
    AndSelf(n.fwmark);
  }

  lemma FinishAccepts(s: Settings)
    requires InRange(s.config)
    ensures Finish(s).Some? ==> Accepted(Finish(s).value.config) && Finish(s).value.plinfo != []
  {
    MaskCovers(s.config.numbers);
  }

  /** Every command line that is accepted gives settings that the rest of the program relies on. */
  lemma AcceptedCommandLine(opts: seq<Opt>)
    requires Outcome(opts).Some?
    ensures Accepted(Outcome(opts).value.config) && Outcome(opts).value.plinfo != []
  {
    LoopKeeps(opts);
    FinishAccepts(ApplyAll(opts).value);
  }

  // ---- what a command line means

  /** The values of the -i options, in order. */
  function InterfacesIn(opts: seq<Opt>): seq<string>
  {
    if opts == [] then []
    else
      var o := opts[|opts| - 1];
      InterfacesIn(opts[..|opts| - 1]) + if o.Interface? then [o.name] else []
  }

  /** The -b and -u options, in order. */
  function PayloadsIn(opts: seq<Opt>): seq<Chosen>
  {
    if opts == [] then []
    else
      var o := opts[|opts| - 1];
      PayloadsIn(opts[..|opts| - 1])
      + if o.PayloadFile? then [FileOption(o.path)] else if o.PayloadUri? then [SipUriOption(o.uri)] else []
  }

  /** The last value given for a number, or what holds without one. */
  function LastNumber(opts: seq<Opt>, which: NumberOption): nat
  {
    if opts == [] then NumberOf(DEFAULT_NUMBERS, which)
    else
      var o := opts[|opts| - 1];
      if o.Number? && o.which == which && ParseUll(o.arg).Some? then ParseUll(o.arg).value
      else LastNumber(opts[..|opts| - 1], which)
  }

  lemma SetOneFlag(flags: Flags, f: FlagOption, g: FlagOption)
    ensures IsSet(SetFlag(flags, f), g) <==> IsSet(flags, g) || f == g
  {
  }

  lemma StoreOneNumber(n: Numbers, which: NumberOption, v: nat, other: NumberOption)
    requires 1 <= v <= Limit(which)
    ensures NumberOf(StoreNumber(n, which, v), other) == if other == which then v else NumberOf(n, other)
  {
  }

  lemma {:induction false} FlagsOfLoop(opts: seq<Opt>, f: FlagOption)
    requires ApplyAll(opts).Some?
    ensures IsSet(ApplyAll(opts).value.config.flags, f) <==> Flag(f) in opts
  {
    if opts != [] {
      var front, o := opts[..|opts| - 1], opts[|opts| - 1];
      FlagsOfLoop(front, f);
      assert opts == front + [o];
      if o.Flag? {
        SetOneFlag(ApplyAll(front).value.config.flags, o.flag, f);
      }
    }
  }

  lemma {:induction false} NumbersOfLoop(opts: seq<Opt>, which: NumberOption)
    requires ApplyAll(opts).Some?
    ensures NumberOf(ApplyAll(opts).value.config.numbers, which) == LastNumber(opts, which)
  {
    if opts != [] {
      var front, o := opts[..|opts| - 1], opts[|opts| - 1];
      NumbersOfLoop(front, which);
      if o.Number? {
        StoreOneNumber(ApplyAll(front).value.config.numbers, o.which, ParseUll(o.arg).value, which);
      }
    }
  }

  lemma {:induction false} ListsOfLoop(opts: seq<Opt>)
    requires ApplyAll(opts).Some?
    ensures ApplyAll(opts).value.config.ifaces == InterfacesIn(opts)
    ensures ApplyAll(opts).value.plinfo == PayloadsIn(opts)
  {
    if opts != [] {
      ListsOfLoop(opts[..|opts| - 1]);
    }
  }

  /** A direction or family that is given alone is the only one; every other flag is set when it is given. */
  lemma FlagsMean(opts: seq<Opt>)
    requires Outcome(opts).Some?
    ensures var flags := Outcome(opts).value.config.flags;
            && (flags.inbound <==> Flag(Inbound) in opts || Flag(Outbound) !in opts)
            && (flags.outbound <==> Flag(Outbound) in opts || Flag(Inbound) !in opts)
            && (flags.useIpv4 <==> Flag(Ipv4) in opts || Flag(Ipv6) !in opts)
            && (flags.useIpv6 <==> Flag(Ipv6) in opts || Flag(Ipv4) !in opts)
            && forall f | f in {AllInterfaces, SkipFirewall, NoHopEstimate, Iptables} ::
                 IsSet(flags, f) <==> Flag(f) in opts
  {
    FlagsOfLoop(opts, Inbound);
    FlagsOfLoop(opts, Outbound);
    FlagsOfLoop(opts, Ipv4);
    FlagsOfLoop(opts, Ipv6);
    forall f | f in {AllInterfaces, SkipFirewall, NoHopEstimate, Iptables}
      ensures IsSet(Outcome(opts).value.config.flags, f) <==> Flag(f) in opts
    {
      FlagsOfLoop(opts, f);
    }
  }

  /**
   An accepted command line means what it says: interfaces and payloads come in order, the last of
   several numbers counts, and the mask defaults to the mark.
   */
  lemma CommandLineMeans(opts: seq<Opt>, which: NumberOption)
    requires Outcome(opts).Some?
    ensures var c, plinfo := Outcome(opts).value.config, Outcome(opts).value.plinfo;
            && c.ifaces == InterfacesIn(opts)
            && plinfo == (if PayloadsIn(opts) == [] then [DefaultSip] else PayloadsIn(opts))
            && NumberOf(c.numbers, which) ==
               if which == Mask && LastNumber(opts, Mask) == 0 then LastNumber(opts, Mark) else LastNumber(opts, which)
  {
    NumbersOfLoop(opts, Mark);
    NumbersOfLoop(opts, Mask);
    NumbersOfLoop(opts, which);
    ListsOfLoop(opts);
  }

  // ---- which command lines are accepted

  /** The largest value that the usage text allows for a numeric option. */
  function UpTo(which: NumberOption): nat
  {
    match which
    case Mark => 4294967295
    case Mask => 4294967295
    case QueueNumber => 65535
    case Repeat => 10
    case Ttl => 255
    case DynamicPct => 99
  }

  /** What holds for a number that is not given; 0 for a mask is "the mark itself", for -y "off". */
  function Preset(which: NumberOption): nat
  {
    match which
    case Mark => 65536
    case Mask => 0
    case QueueNumber => 513
    case Repeat => 2
    case Ttl => 3
    case DynamicPct => 0
  }

  /** A known option with a value that it may have. */
  ghost predicate Proper(o: Opt)
  {
    match o
    case Flag(_) => true
    case PayloadFile(path) => |path| > 0
    case PayloadUri(uri) => |uri| > 0
    case Interface(name) => 1 <= |name| <= 15
    case Number(which, arg) => exists v :: 1 <= v <= UpTo(which) && Denotes(arg, v)
    case Unknown => false
  }

  lemma NumberIsProper(which: NumberOption, arg: string)
    ensures NumberUpTo(arg, Limit(which)).Some? <==> Proper(Number(which, arg))
  {
    forall v: nat
      ensures ParseUll(arg) == Some(v) <==> Denotes(arg, v)
    {
      ParseUllMeans(arg, v);
    }
    if ParseUll(arg).Some? {
      ParseUllMeans(arg, ParseUll(arg).value);
    }
  }

  lemma OptionIsProper(s: Settings, o: Opt)
    ensures ApplyOption(s, o).Some? <==> Proper(o)
  {
    if o.Number? {
      NumberIsProper(o.which, o.arg);
    }
  }

  lemma {:induction false} LoopAccepts(opts: seq<Opt>)
    ensures ApplyAll(opts).Some? <==> forall o | o in opts :: Proper(o)
  {
    if opts != [] {
      var front, o := opts[..|opts| - 1], opts[|opts| - 1];
      assert opts == front + [o];
      LoopAccepts(front);
      if ApplyAll(front).Some? {
        OptionIsProper(ApplyAll(front).value, o);
      }
    }
  }

  /** A number is given. */
  predicate Given(opts: seq<Opt>, which: NumberOption)
  {
    exists i | 0 <= i < |opts| :: opts[i].Number? && opts[i].which == which
  }

  /** The value of a number is that of its last option, or the preset one without any. */
  ghost predicate HasValue(opts: seq<Opt>, which: NumberOption, v: nat)
  {
    if Given(opts, which) then exists i: nat :: IsLast(opts, which, i) && Denotes(opts[i].arg, v)
    else v == Preset(which)
  }

  predicate IsLast(opts: seq<Opt>, which: NumberOption, i: nat)
  {
    && i < |opts| && opts[i].Number? && opts[i].which == which
    && forall j | i < j < |opts| :: !(opts[j].Number? && opts[j].which == which)
  }

  lemma DenotedOnce(arg: string, v: nat, v': nat)
    requires Denotes(arg, v) && Denotes(arg, v')
    ensures v == v'
  {
    ParseUllMeans(arg, v);
    ParseUllMeans(arg, v');
  }

  /** One option more does not change which of the earlier ones is the last of its kind, unless it is of that kind. */
  lemma LastStays(front: seq<Opt>, o: Opt, which: NumberOption)
    requires !(o.Number? && o.which == which)
    ensures Given(front + [o], which) <==> Given(front, which)
    ensures forall i: nat :: IsLast(front + [o], which, i) <==> IsLast(front, which, i)
  {
    var opts := front + [o];
    forall i | 0 <= i < |front|
      ensures opts[i] == front[i]
    {
    }
    if i :| 0 <= i < |opts| && opts[i].Number? && opts[i].which == which {
      assert front[i].Number?;
    }
  }

  lemma ValueStays(front: seq<Opt>, o: Opt, which: NumberOption, v: nat)
    requires !(o.Number? && o.which == which)
    ensures HasValue(front + [o], which, v) <==> HasValue(front, which, v)
  {
    LastStays(front, o, which);
    var opts := front + [o];
    if i: nat :| IsLast(opts, which, i) && Denotes(opts[i].arg, v) {
      assert opts[i] == front[i];
    }
    forall i: nat | IsLast(front, which, i)
      ensures opts[i] == front[i]
    {
    }
  }

  lemma {:induction false} LastNumberMeans(opts: seq<Opt>, which: NumberOption, v: nat)
    requires forall o | o in opts :: Proper(o)
    ensures HasValue(opts, which, v) <==> v == LastNumber(opts, which)
  {
    if opts != [] {
      var front, o := opts[..|opts| - 1], opts[|opts| - 1];
      assert opts == front + [o] && o in opts;
      if o.Number? && o.which == which {
        LastIsGiven(opts, which, v);
      } else {
        LastNumberMeans(front, which, v);
        ValueStays(front, o, which, v);
      }
    }
  }

  lemma LastIsGiven(opts: seq<Opt>, which: NumberOption, v: nat)
    requires opts != [] && var o := opts[|opts| - 1]; Proper(o) && o.Number? && o.which == which
    ensures HasValue(opts, which, v) <==> v == LastNumber(opts, which)
  {
    var n := |opts| - 1;
    var arg := opts[n].arg;
    var given :| 1 <= given <= UpTo(which) && Denotes(arg, given);
    ParseUllMeans(arg, given);
    ParseUllMeans(arg, v);
    assert IsLast(opts, which, n);
  }

  /** A value that is not given is the preset one; a given one is at least 1. */
  lemma GivenIsPositive(opts: seq<Opt>, which: NumberOption)
    requires forall o | o in opts :: Proper(o)
    ensures if Given(opts, which) then LastNumber(opts, which) >= 1 else LastNumber(opts, which) == Preset(which)
  {
    var v := LastNumber(opts, which);
    LastNumberMeans(opts, which, v);
    if Given(opts, which) {
      var i: nat :| IsLast(opts, which, i) && Denotes(opts[i].arg, v);
      assert opts[i] in opts;
      var given :| 1 <= given <= UpTo(which) && Denotes(opts[i].arg, given);
      DenotedOnce(opts[i].arg, v, given);
    }
  }

  lemma {:induction false} InterfacesGiven(opts: seq<Opt>)
    ensures InterfacesIn(opts) != [] <==> exists name :: Interface(name) in opts
  {
    if opts != [] {
      var front, o := opts[..|opts| - 1], opts[|opts| - 1];
      assert opts == front + [o];
      InterfacesGiven(front);
      if o.Interface? {
        assert Interface(o.name) in opts;
      }
    }
  }

  lemma FinishTests(s: Settings)
    ensures var c := s.config;
            Finish(s).Some? <==>
            && (c.flags.alliface || c.ifaces != [])
            && (c.numbers.fwmask != 0 ==> Within(c.numbers.fwmark, c.numbers.fwmask))
            && !(c.numbers.dynamicPct != 0 && c.flags.nohopest)
  {
    AndKeepsAll(s.config.numbers.fwmark, s.config.numbers.fwmask);
  }

  /** What the checks after the loop look at. */
  lemma LoopStores(opts: seq<Opt>)
    requires ApplyAll(opts).Some?
    ensures var c := ApplyAll(opts).value.config;
            && (c.flags.alliface <==> Flag(AllInterfaces) in opts)
            && (c.flags.nohopest <==> Flag(NoHopEstimate) in opts)
            && (c.ifaces != [] <==> InterfacesIn(opts) != [])
            && c.numbers.fwmark == LastNumber(opts, Mark) && c.numbers.fwmask == LastNumber(opts, Mask)
            && (c.numbers.fwmask != 0 <==> Given(opts, Mask))
            && (c.numbers.dynamicPct != 0 <==> Given(opts, DynamicPct))
  {
    FlagsOfLoop(opts, AllInterfaces);
    FlagsOfLoop(opts, NoHopEstimate);
    ListsOfLoop(opts);
    LoopNumbersMean(opts, Mark);
    LoopNumbersMean(opts, Mask);
    LoopNumbersMean(opts, DynamicPct);
  }

  lemma LoopNumbersMean(opts: seq<Opt>, which: NumberOption)
    requires ApplyAll(opts).Some?
    ensures NumberOf(ApplyAll(opts).value.config.numbers, which) == LastNumber(opts, which)
    ensures LastNumber(opts, which) == 0 <==> !Given(opts, which) && Preset(which) == 0
  {
    LoopAccepts(opts);
    NumbersOfLoop(opts, which);
    GivenIsPositive(opts, which);
  }

  /**
   The accepted command lines: every option is known and proper; -a or some -i is given; a mask, if
   given, has all bits of the mark; and -y and -g are not given together.
   */
  lemma AcceptedExactly(opts: seq<Opt>)
    ensures Outcome(opts).Some? <==>
            && (forall o | o in opts :: Proper(o))
            && (Flag(AllInterfaces) in opts || exists name :: Interface(name) in opts)
            && (Given(opts, Mask) ==> Within(LastNumber(opts, Mark), LastNumber(opts, Mask)))
            && !(Given(opts, DynamicPct) && Flag(NoHopEstimate) in opts)
  {
    LoopAccepts(opts);
    if ApplyAll(opts).Some? {
      LoopStores(opts);
      InterfacesGiven(opts);
      FinishTests(ApplyAll(opts).value);
    }
  }
}
