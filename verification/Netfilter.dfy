/**
 Chains of rules as the kernel keeps them, and the verdict a packet gets from them.
 Both back ends (iptables and nft) put their rules in this form.
 */
module Netfilter {
  import opened Wrappers

  datatype Hook = Prerouting | Postrouting

  datatype ChainId =
    | Builtin(hook: Hook)                        // a built-in chain of the mangle table
    | FakesipS | FakesipD | FakesipR             // the chains made with iptables
    | FsPrerouting | FsPostrouting | FsRules     // the chains of the nft table "fakesip"
    | ForeignChain(name: string)                 // a chain made by somebody else

  /** A block of addresses: those that agree with `base` above the lowest `hostBits` bits. */
  datatype Prefix = Prefix(base: nat, hostBits: nat)

  datatype Match =
    | Source(inside: bool, block: Prefix)
    | Destination(inside: bool, block: Prefix)
    | MaskedMark(mask: uint32, mark: uint32)
    | IptInput(pattern: string) | IptOutput(pattern: string)
    | NftInput(pattern: string) | NftOutput(pattern: string)
    | Protocol(number: nat)
    | ConnectionPackets(low: nat, high: nat)
    | IcmpType(protocol: nat, kind: byte)
    | TransportBytes(offset: nat, content: seq<byte>)
    | ForeignMatch(id: nat)                      // a condition used only by others

  datatype Target =
    | Return
    | Jump(chain: ChainId)
    | Enqueue(queue: nat)
    | DropPacket
    | AcceptPacket
    | NonTerminating                             // such as a log or counter target

  datatype Rule = Rule(matches: seq<Match>, target: Target)

  type Chains = map<ChainId, seq<Rule>>

  /**
   What the rules can see of a packet. `connPackets` is the packet count of its connection in
   both directions, None when it is not tracked. `foreign` says which foreign conditions hold.
   */
  datatype Packet = Packet(
    src: nat,
    dst: nat,
    mark: uint32,
    inIface: string,
    outIface: string,
    l4proto: nat,
    transport: seq<byte>,
    connPackets: Option<nat>,
    foreign: set<nat>)

  datatype Verdict = Accepted | Dropped | Queued(queue: nat) | Fallthrough

  function Pow2(n: nat): nat
  {
    if n == 0 then 1 else 2 * Pow2(n - 1)
  }

  lemma Pow2Positive(n: nat)
    ensures Pow2(n) > 0
  {
  }

  predicate InBlock(address: nat, block: Prefix)
  {
    Pow2Positive(block.hostBits);
    address / Pow2(block.hostBits) == block.base / Pow2(block.hostBits)
  }

  /** iptables: a trailing '+' stands for any rest of the interface name. */
  predicate IptNameMatches(pattern: string, name: string)
  {
    if pattern != "" && pattern[|pattern| - 1] == '+'
    then pattern[..|pattern| - 1] <= name
    else pattern == name
  }

  /** nft: a trailing '*' stands for any rest of the interface name. */
  predicate NftNameMatches(pattern: string, name: string)
  {
    if pattern != "" && pattern[|pattern| - 1] == '*'
    then pattern[..|pattern| - 1] <= name
    else pattern == name
  }

  predicate Holds(m: Match, p: Packet)
  {
    match m
    case Source(inside, block) => InBlock(p.src, block) == inside
    case Destination(inside, block) => InBlock(p.dst, block) == inside
    case MaskedMark(mask, mark) => And(p.mark, mask) == mark
    case IptInput(pattern) => IptNameMatches(pattern, p.inIface)
    case IptOutput(pattern) => IptNameMatches(pattern, p.outIface)
    case NftInput(pattern) => NftNameMatches(pattern, p.inIface)
    case NftOutput(pattern) => NftNameMatches(pattern, p.outIface)
    case Protocol(number) => p.l4proto == number
    case ConnectionPackets(low, high) => p.connPackets.Some? && low <= p.connPackets.value <= high
    case IcmpType(protocol, kind) =>
      p.l4proto == protocol && |p.transport| > 0 && p.transport[0] == kind
    case TransportBytes(offset, content) =>
      offset + |content| <= |p.transport| && p.transport[offset..offset + |content|] == content
    case ForeignMatch(id) => id in p.foreign
  }

  predicate AllHold(ms: seq<Match>, p: Packet)
  {
    forall m | m in ms :: Holds(m, p)
  }

  /**
   The verdict of a rule list. `stack` is how many nested jumps the kernel still has room for;
   a packet that needs more is dropped, as is one that meets a jump to a missing chain.
   */
  function Traverse(t: Chains, rules: seq<Rule>, p: Packet, stack: nat): Verdict
    decreases stack, |rules|
  {
    if rules == [] then
      Fallthrough
    else if !AllHold(rules[0].matches, p) then
      Traverse(t, rules[1..], p, stack)
    else
      match rules[0].target
      case Return => Fallthrough
      case Enqueue(n) => Queued(n)
      case DropPacket => Dropped
      case AcceptPacket => Accepted
      case NonTerminating => Traverse(t, rules[1..], p, stack)
      case Jump(c) =>
        if stack == 0 || c !in t then
          Dropped
        else
          var inner := Traverse(t, t[c], p, stack - 1);
          if inner == Fallthrough then Traverse(t, rules[1..], p, stack) else inner
  }

  // ---- properties of the evaluator that both back ends use

  /** A list of return rules ends the chain exactly when one of them applies. */
  lemma {:induction false} TraverseReturns(t: Chains, a: seq<Rule>, b: seq<Rule>, p: Packet, stack: nat)
    requires forall r | r in a :: r.target == Return
    ensures Traverse(t, a + b, p, stack) ==
            if exists r | r in a :: AllHold(r.matches, p) then Fallthrough else Traverse(t, b, p, stack)
  {
    if a == [] {
      assert a + b == b;
    } else {
      assert (a + b)[0] == a[0] && (a + b)[1..] == a[1..] + b;
      assert a == [a[0]] + a[1..];
      TraverseReturns(t, a[1..], b, p, stack);
    }
  }

  /**
   Jumps to one chain, taken one after another: the chain decides if any jump applies. A chain
   entered twice gives the same answer twice.
   */
  lemma {:induction false} TraverseJumps(t: Chains, a: seq<Rule>, c: ChainId, p: Packet, stack: nat)
    requires stack > 0 && c in t
    requires forall r | r in a :: r.target == Jump(c)
    ensures Traverse(t, a, p, stack) ==
            if exists r | r in a :: AllHold(r.matches, p) then Traverse(t, t[c], p, stack - 1) else Fallthrough
  {
    if a != [] {
      assert a == [a[0]] + a[1..];
      TraverseJumps(t, a[1..], c, p, stack);
    }
  }

  /** Drop rules at the head of a chain. */
  lemma {:induction false} TraverseDrops(t: Chains, a: seq<Rule>, b: seq<Rule>, p: Packet, stack: nat)
    requires forall r | r in a :: r.target == DropPacket
    ensures Traverse(t, a + b, p, stack) ==
            if exists r | r in a :: AllHold(r.matches, p) then Dropped else Traverse(t, b, p, stack)
  {
    if a == [] {
      assert a + b == b;
    } else {
      assert (a + b)[0] == a[0] && (a + b)[1..] == a[1..] + b;
      assert a == [a[0]] + a[1..];
      TraverseDrops(t, a[1..], b, p, stack);
    }
  }

  /** A prefix whose base is aligned is a half-open range of addresses. */
  lemma BlockIsRange(address: nat, quotient: nat, hostBits: nat)
    ensures InBlock(address, Prefix(quotient * Pow2(hostBits), hostBits))
       <==> quotient * Pow2(hostBits) <= address < quotient * Pow2(hostBits) + Pow2(hostBits)
  {
    Pow2Positive(hostBits);
    DivisionRange(quotient * Pow2(hostBits), quotient, Pow2(hostBits));
    DivisionRange(address, quotient, Pow2(hostBits));
  }
}
