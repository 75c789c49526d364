/**
 The source-info cache: a ring of the last 500 observations of a sender's TTL and hardware
 address. It refines a plain log of the accepted puts.
 */
module SrcInfo {
  import opened Wrappers
  import opened Packets

  const CAPACITY := 500

  type Octets8 = s: seq<byte> | |s| == 8 witness [0, 0, 0, 0, 0, 0, 0, 0]

  /** One accepted put. The address is of a known family. */
  datatype Observation = Observation(addr: SockAddr, ifindex: nat, ttl: byte, hwaddr: Octets8)

  /** One slot of the ring; a slot cleared with memset is `Blank`. */
  datatype Slot = Blank | Filled(info: Observation)

  /** One call of fs_srcinfo_put on a cache that is set up; None stands for a null pointer. */
  datatype PutCall = PutCall(addr: Option<SockAddr>, ifindex: nat, ttl: byte, hwaddr: Option<Octets8>)

  datatype Lookup = Hit(ttl: byte, hwaddr: Octets8) | Miss | Invalid

  predicate SameIp(a: SockAddr, b: SockAddr)
  {
    match (a, b)
    case (Inet(x), Inet(y)) => x == y
    case (Inet6(x), Inet6(y)) => x == y
    case _ => false
  }

  // ---- the log that the ring stands for

  /** A put gets past the first guard: no null pointer, and an interface. */
  predicate WellFormed(c: PutCall)
  {
    c.addr.Some? && c.ifindex != 0 && c.hwaddr.Some?
  }

  predicate Accepts(c: PutCall)
  {
    WellFormed(c) && !c.addr.value.OtherFamily?
  }

  /** A put that clears the next slot and then gives up on the address family. */
  predicate UnknownFamily(c: PutCall)
  {
    WellFormed(c) && c.addr.value.OtherFamily?
  }

  function Observed(c: PutCall): Observation
    requires Accepts(c)
  {
    Observation(c.addr.value, c.ifindex, c.ttl, c.hwaddr.value)
  }

  /**
   The abstract cache: every accepted put so far, and whether the oldest one of a full ring has
   been cleared by a put of an unknown family since the last accepted put.
   */
  datatype Log = Log(entries: seq<Observation>, oldestCleared: bool)

  function AfterPut(log: Log, c: PutCall): Log
  {
    if Accepts(c) then Log(log.entries + [Observed(c)], false)
    else if UnknownFamily(c) && |log.entries| >= CAPACITY then log.(oldestCleared := true)
    else log
  }

  /** How many of the newest entries a lookup can still find. */
  function Depth(log: Log): nat
  {
    if |log.entries| < CAPACITY then |log.entries|
    else if log.oldestCleared then CAPACITY - 1
    else CAPACITY
  }

  predicate Matches(o: Observation, addr: SockAddr, ifindex: nat)
  {
    o.ifindex == ifindex && SameIp(addr, o.addr)
  }

  /** The number of the newest match among the last `depth` entries, or -1. */
  function NewestIndex(entries: seq<Observation>, depth: nat, addr: SockAddr, ifindex: nat): int
    requires depth <= |entries|
    decreases depth
  {
    if depth == 0 then -1
    else if Matches(entries[|entries| - 1], addr, ifindex) then |entries| - 1
    else NewestIndex(entries[..|entries| - 1], depth - 1, addr, ifindex)
  }

  function Answer(entries: seq<Observation>, i: int): Lookup
    requires -1 <= i < |entries|
  {
    if i < 0 then Miss else Hit(entries[i].ttl, entries[i].hwaddr)
  }

  function Find(log: Log, addr: SockAddr, ifindex: nat): Lookup
  {
    NewestMeans(log.entries, Depth(log), addr, ifindex);
    Answer(log.entries, NewestIndex(log.entries, Depth(log), addr, ifindex))
  }

  /** `i` is the newest match among the last `depth` entries. */
  predicate NewestAt(entries: seq<Observation>, depth: nat, addr: SockAddr, ifindex: nat, i: int)
    requires depth <= |entries|
  {
    && |entries| - depth <= i < |entries|
    && Matches(entries[i], addr, ifindex)
    && forall j | i < j < |entries| :: !Matches(entries[j], addr, ifindex)
  }

  lemma {:induction false} NewestMeans(entries: seq<Observation>, depth: nat, addr: SockAddr, ifindex: nat)
    requires depth <= |entries|
    ensures var r := NewestIndex(entries, depth, addr, ifindex);
            if r < 0 then
              r == -1 && forall i | |entries| - depth <= i < |entries| :: !Matches(entries[i], addr, ifindex)
            else NewestAt(entries, depth, addr, ifindex, r)
  {
    if depth > 0 && !Matches(entries[|entries| - 1], addr, ifindex) {
      var front := entries[..|entries| - 1];
      NewestMeans(front, depth - 1, addr, ifindex);
      assert forall i | 0 <= i < |front| :: front[i] == entries[i];
    }
  }

  // ---- whole histories of puts

  function Replay(calls: seq<PutCall>): Log
  {
    if calls == [] then Log([], false) else AfterPut(Replay(calls[..|calls| - 1]), calls[|calls| - 1])
  }

  /** The observations of the accepted puts, oldest first. */
  function Accepted(calls: seq<PutCall>): seq<Observation>
  {
    if calls == [] then []
    else
      var front := Accepted(calls[..|calls| - 1]);
      var last := calls[|calls| - 1];
      if Accepts(last) then front + [Observed(last)] else front
  }

  /** A put of an unknown family came after the last accepted put. */
  predicate UnknownSince(calls: seq<PutCall>)
  {
    calls != [] && !Accepts(calls[|calls| - 1])
    && (UnknownFamily(calls[|calls| - 1]) || UnknownSince(calls[..|calls| - 1]))
  }

  lemma {:induction false} ReplayMeans(calls: seq<PutCall>)
    ensures Replay(calls).entries == Accepted(calls)
    ensures Replay(calls).oldestCleared <==> |Accepted(calls)| >= CAPACITY && UnknownSince(calls)
  {
    if calls != [] {
      ReplayMeans(calls[..|calls| - 1]);
    }
  }

  /**
   What a lookup finds after any sequence of puts: the newest matching one of the last 500 accepted
   observations. The only exception is the very oldest of a full 500, which a put of an unknown
   family clears; no newer observation is ever affected.
   */
  lemma LookupAfter(calls: seq<PutCall>, addr: SockAddr, ifindex: nat)
    ensures var es := Accepted(calls);
            var window := if |es| < CAPACITY then |es| else CAPACITY;
            var r := Find(Replay(calls), addr, ifindex);
            && (forall i | NewestAt(es, window, addr, ifindex, i) ::
                  r == if i == |es| - CAPACITY && UnknownSince(calls) then Miss else Hit(es[i].ttl, es[i].hwaddr))
            && ((forall i :: !NewestAt(es, window, addr, ifindex, i)) ==> r == Miss)
  {
    ReplayMeans(calls);
    var log := Replay(calls);
    var es := Accepted(calls);
    var window := if |es| < CAPACITY then |es| else CAPACITY;
    NewestMeans(es, Depth(log), addr, ifindex);
    forall i | NewestAt(es, window, addr, ifindex, i)
      ensures Find(log, addr, ifindex) ==
              if i == |es| - CAPACITY && UnknownSince(calls) then Miss else Hit(es[i].ttl, es[i].hwaddr)
    {
      NewestIsUnique(es, Depth(log), addr, ifindex, i);
    }
  }

  /** At most one entry is the newest match, and it is the one that the search returns. */
  lemma NewestIsUnique(es: seq<Observation>, depth: nat, addr: SockAddr, ifindex: nat, i: int)
    requires depth <= |es| && 0 <= i < |es| && Matches(es[i], addr, ifindex)
    requires forall j | i < j < |es| :: !Matches(es[j], addr, ifindex)
    ensures NewestIndex(es, depth, addr, ifindex) == if |es| - depth <= i then i else -1
  {
    NewestMeans(es, depth, addr, ifindex);
  }

  // ---- the ring

  /** The ring's slots, write position and count stand for the log. */
  ghost predicate Holds(slots: seq<Slot>, end: nat, count: nat, log: Log)
  {
    var n := |log.entries|;
    && |slots| == CAPACITY
    && count == (if n < CAPACITY then n else CAPACITY)
    && end == n % CAPACITY
    && (log.oldestCleared ==> n >= CAPACITY && slots[end] == Blank)
    && forall k | n - Depth(log) <= k < n :: slots[k % CAPACITY] == Filled(log.entries[k])
  }

  /** The next slot to write is not the slot of any of the last 499 entries. */
  lemma NoAlias(n: nat, k: nat)
    requires k < n && n - k < CAPACITY
    ensures k % CAPACITY != n % CAPACITY
  {
  }

  lemma PutHolds(slots: seq<Slot>, end: nat, count: nat, log: Log, c: PutCall)
    requires Holds(slots, end, count, log) && WellFormed(c)
    ensures var log' := AfterPut(log, c);
            if Accepts(c)
            then Holds(slots[end := Filled(Observed(c))], (end + 1) % CAPACITY,
                       if count < CAPACITY then count + 1 else count, log')
            else Holds(slots[end := Blank], end, count, log')
  {
    if Accepts(c) {
      AppendHolds(slots, end, count, log, Observed(c));
    } else {
      BlankHolds(slots, end, count, log);
    }
  }

  /** Writing the next slot and moving on appends an entry, and overwrites none of the last 499. */
  lemma AppendHolds(slots: seq<Slot>, end: nat, count: nat, log: Log, o: Observation)
    requires Holds(slots, end, count, log)
    ensures Holds(slots[end := Filled(o)], (end + 1) % CAPACITY, if count < CAPACITY then count + 1 else count,
                  Log(log.entries + [o], false))
  {
    var n := |log.entries|;
    forall k | n + 1 - Depth(Log(log.entries + [o], false)) <= k < n + 1
      ensures slots[end := Filled(o)][k % CAPACITY] == Filled((log.entries + [o])[k])
    {
      if k < n {
        NoAlias(n, k);
      }
    }
  }

  /** Clearing the next slot loses the oldest entry of a full ring, and nothing else. */
  lemma BlankHolds(slots: seq<Slot>, end: nat, count: nat, log: Log)
    requires Holds(slots, end, count, log)
    ensures Holds(slots[end := Blank], end, count,
                  if |log.entries| >= CAPACITY then log.(oldestCleared := true) else log)
  {
    var n := |log.entries|;
    var log' := if n >= CAPACITY then log.(oldestCleared := true) else log;
    forall k | n - Depth(log') <= k < n
      ensures slots[end := Blank][k % CAPACITY] == Filled(log.entries[k])
    {
      NoAlias(n, k);
    }
  }

  /** Counting back from the write position visits the entries from the newest to the oldest. */
  lemma LookBack(slots: seq<Slot>, end: nat, count: nat, log: Log, i: nat)
    requires Holds(slots, end, count, log) && i < count
    ensures var index := (end + CAPACITY - i - 1) % CAPACITY;
            && 0 <= index < CAPACITY
            && slots[index] == if i < Depth(log) then Filled(log.entries[|log.entries| - i - 1]) else Blank
  {
    var n := |log.entries|;
    assert (end + CAPACITY - i - 1) % CAPACITY == (n - i - 1) % CAPACITY;
  }

  class Cache {
    var srci: array?<Slot>
    var srciEnd: nat
    var srciCount: nat
    ghost var log: Log

    constructor ()
      ensures Valid() && srci == null
    {
      srci, srciEnd, srciCount := null, 0, 0;
      log := Log([], false);
    }

    ghost predicate Valid()
      reads this, srci
    {
      if srci == null then srciEnd == srciCount == 0 && log == Log([], false)
      else Holds(srci[..], srciEnd, srciCount, log)
    }

    method Setup(memory: bool) returns (ok: bool)
      requires Valid()
      modifies this
      ensures Valid()
      ensures ok <==> old(srci) == null && memory
      ensures ok ==> srci != null && fresh(srci) && log == Log([], false)
      ensures !ok ==> srci == old(srci) && log == old(log)
    {
      if srci != null || !memory {
        return false;
      }
      srci := new Slot[CAPACITY](_ => Blank);
      srciEnd, srciCount := 0, 0;
      ok := true;
    }

    method Cleanup()
      requires Valid()
      modifies this
      ensures Valid() && srci == null
    {
      srci, srciEnd, srciCount := null, 0, 0;
      log := Log([], false);
    }

    method Put(c: PutCall) returns (ok: bool)
      requires Valid()
      modifies this, srci
      ensures Valid() && srci == old(srci)
      ensures ok <==> srci != null && Accepts(c)
      ensures log == if srci == null then old(log) else AfterPut(old(log), c)
    {
      if srci == null || c.addr.None? || c.ifindex == 0 || c.hwaddr.None? || srciEnd >= CAPACITY {
        return false;
      }
      ghost var before := srci[..];
      PutHolds(before, srciEnd, srciCount, log, c);
      srci[srciEnd] := Blank;
      if c.addr.value.OtherFamily? {
        assert srci[..] == before[srciEnd := Blank];
        log := AfterPut(log, c);
        return false;
      }
      srci[srciEnd] := Filled(Observed(c));
      assert srci[..] == before[srciEnd := Filled(Observed(c))];
      log := AfterPut(log, c);
      srciEnd := (srciEnd + 1) % CAPACITY;
      if srciCount < CAPACITY {
        srciCount := srciCount + 1;
      }
      ok := true;
    }

    method Get(addr: Option<SockAddr>, ifindex: nat) returns (r: Lookup)
      requires Valid()
      ensures r == if srci == null || addr.None? || ifindex == 0 || addr.value.OtherFamily? then Invalid
                   else Find(log, addr.value, ifindex)
    {
      if srci == null || addr.None? || ifindex == 0 || srciEnd >= CAPACITY || srciCount > CAPACITY {
        return Invalid;
      }
      if addr.value.OtherFamily? {
        return Invalid;
      }
      ghost var entries := log.entries;
      var i := 0;
      while i < srciCount
        invariant 0 <= i <= srciCount
        invariant forall j | 0 <= j < |entries| && |entries| - i <= j && |entries| - Depth(log) <= j ::
                    !Matches(entries[j], addr.value, ifindex)
      {
        LookBack(srci[..], srciEnd, srciCount, log, i);
        var info := srci[(srciEnd + CAPACITY - i - 1) % CAPACITY];
        if info.Filled? && Matches(info.info, addr.value, ifindex) {
          NewestIsUnique(entries, Depth(log), addr.value, ifindex, |entries| - i - 1);
          return Hit(info.info.ttl, info.info.hwaddr);
        }
        i := i + 1;
      }
      NewestMeans(entries, Depth(log), addr.value, ifindex);
      r := Miss;
    }
  }
}
