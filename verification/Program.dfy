/** The program as a whole: set-up in order with rollback, the queue loop, and clean-up. */
module Program {
  import opened Wrappers
  import opened Context
  import opened Options
  import opened Payload
  import opened PayloadList
  import opened SipMessage
  import opened SrcInfo
  import opened Sockets
  import opened RawSend
  import opened NfQueue
  import opened NfRules
  import opened Process
  import opened QueueLoop

  /** How everything outside the program behaves in one run of it. */
  datatype World = World(
    draws: nat -> Draws,                        // random numbers for payload option i
    files: (nat, string) -> Option<seq<byte>>,  // what the file of that path gives payload option i
    memory: nat -> bool,
    cacheMemory: bool,
    link: OpenOutcome, raw4: OpenOutcome, raw6: OpenOutcome,
    queue: QueueOutcome,
    nftWorks: bool,
    faults4: nat -> Fault, faults6: nat -> Fault,   // for the commands of the two families
    events: seq<Event>)

  function InfoOf(o: Chosen, w: World, i: nat): PayloadInfo
  {
    match o
    case SipUriOption(uri) => Sip(Some(uri), w.draws(i))
    case DefaultSip => Sip(None, w.draws(i))
    case FileOption(path) => Custom(w.files(i, path))
  }

  /** What payload option i becomes. */
  function PayloadOf(plinfo: seq<Chosen>, w: World, i: nat): Option<seq<byte>>
    requires i < |plinfo|
  {
    Prepare(InfoOf(plinfo[i], w, i))
  }

  /** `payloads` are those of the options, in the order of the command line. */
  predicate InOptionOrder(plinfo: seq<Chosen>, w: World, payloads: seq<seq<byte>>)
  {
    |payloads| == |plinfo| && forall i | 0 <= i < |plinfo| :: PayloadOf(plinfo, w, i) == Some(payloads[i])
  }

  /** Every option gets its memory and can be prepared. */
  predicate PayloadsSucceed(plinfo: seq<Chosen>, w: World)
  {
    plinfo != [] && forall i | 0 <= i < |plinfo| :: w.memory(i) && PayloadOf(plinfo, w, i).Some?
  }

  predicate SocketsSucceed(cfg: Config, w: World)
  {
    && (cfg.flags.outbound ==> w.link == Opens)
    && (cfg.flags.inbound && cfg.flags.useIpv4 ==> w.raw4 == Opens)
    && (cfg.flags.inbound && cfg.flags.useIpv6 ==> w.raw6 == Opens)
  }

  /** Nothing fails before the firewall rules. */
  predicate ReachesTheRules(settings: Settings, w: World)
  {
    PayloadsSucceed(settings.plinfo, w) && w.cacheMemory && SocketsSucceed(settings.config, w) && w.queue == Ready
  }

  /** Nothing fails before the queue loop. */
  predicate ReachesTheLoop(settings: Settings, w: World)
  {
    ReachesTheRules(settings, w) && RulesSucceed(settings.config, w.nftWorks, w.faults4, w.faults6)
  }

  function Entries(plinfo: seq<Chosen>, w: World): seq<Entry>
  {
    seq(|plinfo|, i requires 0 <= i < |plinfo| => Entry(PayloadOf(plinfo, w, i))) + [End]
  }

  lemma {:induction false} OutcomesBeforeEnd(entries: seq<Entry>)
    requires forall i | 0 <= i < |entries| :: entries[i].Entry?
    ensures |Outcomes(entries + [End])| == |entries|
    ensures forall i | 0 <= i < |entries| :: Outcomes(entries + [End])[i] == entries[i].prepared
  {
    if entries != [] {
      assert (entries + [End])[1..] == entries[1..] + [End];
      OutcomesBeforeEnd(entries[1..]);
    }
  }

  lemma EntriesPrepared(plinfo: seq<Chosen>, w: World)
    ensures var es := Outcomes(Entries(plinfo, w));
            AllPrepared(es, w.memory) && es != [] <==> PayloadsSucceed(plinfo, w)
  {
    var entries := Entries(plinfo, w)[..|plinfo|];
    assert Entries(plinfo, w) == entries + [End];
    OutcomesBeforeEnd(entries);
    var es := Outcomes(Entries(plinfo, w));
    assert forall i | 0 <= i < |plinfo| :: es[i] == PayloadOf(plinfo, w, i);
  }

  lemma PayloadsFit(plinfo: seq<Chosen>, w: World, payloads: seq<seq<byte>>)
    requires AreThePayloads(payloads, Outcomes(Entries(plinfo, w)))
    ensures InOptionOrder(plinfo, w, payloads)
    ensures forall x | x in payloads :: |x| <= BUFFLEN
  {
    var entries := Entries(plinfo, w)[..|plinfo|];
    assert Entries(plinfo, w) == entries + [End];
    OutcomesBeforeEnd(entries);
    forall i | 0 <= i < |plinfo|
      ensures |payloads| == |plinfo| && PayloadOf(plinfo, w, i) == Some(payloads[i]) && |payloads[i]| <= BUFFLEN
    {
      assert Outcomes(Entries(plinfo, w))[i] == entries[i].prepared == PayloadOf(plinfo, w, i);
      PreparedFits(InfoOf(plinfo[i], w, i));
    }
  }

  /** A run of the packet handler on `ms` from the state that set-up leaves. */
  ghost predicate FreshRun(settings: Settings, w: World, ms: seq<Message>, states: seq<Snapshot>)
  {
    && NfQueue.Run(settings.config, ms, states)
    && states[0].log == Log([], false) && states[0].sent == [] && InOptionOrder(settings.plinfo, w, states[0].payloads)
  }

  class Program {
    const settings: Settings
    const ring: PayloadRing
    const cache: Cache
    const sockets: SocketSet
    const handler: Handler
    const queue: Queue

    constructor (settings: Settings)
      ensures this.settings == settings && AtRest() && NothingDone()
      ensures fresh(ring) && fresh(cache) && fresh(sockets) && fresh(queue)
    {
      this.settings := settings;
      var r := new PayloadRing();
      var c := new Cache();
      var s := new SocketSet(settings.config);
      var h := new Handler(settings.config, s, c, r);
      queue := new Queue(h);
      ring, cache, sockets, handler := r, c, s, h;
    }

    ghost predicate Wired()
    {
      && sockets.cfg == handler.cfg == settings.config && queue.handler == handler
      && handler.sockets == sockets && handler.cache == cache && handler.ring == ring
    }

    /** Nothing is held: no payload node, no cache, no socket, no queue. */
    ghost predicate AtRest()
      reads ring, cache, cache.srci, sockets, queue`queue, queue`library
    {
      HandlerAtRest() && !queue.queue && !queue.library
    }

    ghost predicate HandlerAtRest()
      reads ring, cache, cache.srci, sockets
    {
      && Wired()
      && ring.Valid() && ring.payloads == [] && ring.heap == map[]
      && cache.Valid() && cache.srci == null
      && sockets.Valid() && sockets.AllClosed()
    }

    /** What the queue loop starts from. */
    ghost predicate ReadyToServe(w: World)
      reads ring, cache, cache.srci, sockets
    {
      && Wired() && handler.Valid()
      && cache.log == Log([], false)
      && InOptionOrder(settings.plinfo, w, ring.payloads)
    }

    method SetupPayloads(w: World) returns (ok: bool)
      requires HandlerAtRest()
      modifies ring
      ensures ok <==> PayloadsSucceed(settings.plinfo, w)
      ensures ok ==> ring.Valid() && InOptionOrder(settings.plinfo, w, ring.payloads)
                     && forall x | x in ring.payloads :: |x| <= BUFFLEN
      ensures !ok ==> HandlerAtRest()
    {
      var entries := Entries(settings.plinfo, w);
      var plinfo := new Entry[|entries|](i requires 0 <= i < |entries| => entries[i]);
      assert plinfo[..] == entries && plinfo[plinfo.Length - 1].End?;
      EntriesPrepared(settings.plinfo, w);
      ghost var gone, built;
      ok, gone, built := ring.Setup(plinfo, w.memory);
      if ok {
        assert ring.payloads == built;
        PayloadsFit(settings.plinfo, w, built);
      }
    }

    /** Payloads, cache and sockets, in this order; a failure releases what came before it. */
    method SetupHandler(w: World) returns (ok: bool)
      requires HandlerAtRest()
      modifies ring, cache, sockets
      ensures ok <==> PayloadsSucceed(settings.plinfo, w) && w.cacheMemory && SocketsSucceed(settings.config, w)
      ensures ok ==> ReadyToServe(w) && fresh(cache.srci)
      ensures !ok ==> HandlerAtRest()
      ensures sockets.sent == old(sockets.sent)
    {
      ok := SetupPayloads(w);
      if !ok {
        return;
      }
      ok := cache.Setup(w.cacheMemory);
      if !ok {
        ring.Cleanup();
        return;
      }
      ok := sockets.Setup(w.link, w.raw4, w.raw6);
      if !ok {
        cache.Cleanup();
        ring.Cleanup();
      }
    }

    /** And then the queue, with the same roll-back. */
    method Setup(w: World) returns (ok: bool)
      requires AtRest()
      modifies ring, cache, sockets, queue`queue, queue`library
      ensures ok <==> ReachesTheRules(settings, w)
      ensures ok ==> ReadyToServe(w) && queue.queue && fresh(cache.srci)
      ensures !ok ==> AtRest()
      ensures sockets.sent == old(sockets.sent)
    {
      ok := SetupHandler(w);
      if ok {
        ok := queue.Setup(w.queue);
        if !ok {
          CleanupHandler();
        }
      }
    }

    /** What clean-up needs. */
    ghost predicate Consistent()
      reads ring, cache, cache.srci, sockets
    {
      Wired() && ring.Valid() && cache.Valid() && sockets.Valid()
    }

    method Cleanup()
      requires Consistent()
      modifies ring, cache, sockets, queue`queue, queue`library
      ensures AtRest() && sockets.sent == old(sockets.sent)
    {
      queue.Cleanup();
      CleanupHandler();
    }

    method CleanupHandler()
      requires Consistent()
      modifies ring, cache, sockets
      ensures HandlerAtRest() && sockets.sent == old(sockets.sent)
    {
      sockets.Cleanup();
      cache.Cleanup();
      ring.Cleanup();
    }

    /** Every message up to the end of the loop was handled; the handler went through `states`. */
    ghost predicate HasServed(w: World, states: seq<Snapshot>)
      reads sockets`sent, queue`verdicts
    {
      var ms := Fold(w.events).ms;
      && FreshRun(settings, w, ms, states)
      && sockets.sent == states[|ms|].sent
      && queue.verdicts == AllVerdicts(ms)
    }

    ghost predicate NothingDone()
      reads sockets`sent, queue`verdicts
    {
      sockets.sent == [] && queue.verdicts == []
    }

    /** The queue loop, which leaves the rules alone. */
    method Listen(w: World) returns (end: State, ghost states: seq<Snapshot>)
      requires ReadyToServe(w) && NothingDone() && queue.queue
      modifies ring, cache, cache.srci, sockets, queue`verdicts
      ensures Consistent() && HasServed(w, states)
      ensures end == StateAfter(w.events)
    {
      var delays;
      end, delays, states := Loop(queue, w.events);
    }

    /** The loop with the rules in place, which are cleared however it ends. */
    method ListenThenClear(w: World, installed: Rules)
      returns (end: State, during: Rules, after: Rules, ghost states: seq<Snapshot>)
      requires ReadyToServe(w) && NothingDone() && queue.queue && Sound(installed)
      modifies ring, cache, cache.srci, sockets, queue`verdicts
      ensures Consistent() && HasServed(w, states)
      ensures end == StateAfter(w.events)
      ensures during == installed
      ensures after == Cleared(installed, settings.config, UsesIptables(settings.config, w.nftWorks))
    {
      during := installed;
      end, states := Listen(w);
      after := CleanupRules(installed, settings.config, w.nftWorks);
    }

    /**
     The rules around the loop, on the kernel's tables `before`: they are there only while the queue
     is, and are cleared however the loop ends. A rule set-up that fails has cleared them itself.
     `during` are the tables that the loop runs with, if it does.
     */
    method Serve(w: World, before: Rules)
      returns (end: Option<State>, during: Rules, after: Rules, ghost states: seq<Snapshot>)
      requires ReadyToServe(w) && NothingDone() && queue.queue && Sound(before)
      modifies ring, cache, cache.srci, sockets, queue`verdicts
      ensures Consistent() && if end.None? then NothingDone() else HasServed(w, states)
      ensures end == if RulesSucceed(settings.config, w.nftWorks, w.faults4, w.faults6)
                     then Some(StateAfter(w.events)) else None
      ensures end.Some? ==> during == Installed(before, settings.config, UsesIptables(settings.config, w.nftWorks))
      ensures after == Cleared(before, settings.config, UsesIptables(settings.config, w.nftWorks))
    {
      end, states := None, [];
      var ok;
      ok, after := SetupRules(before, settings.config, w.nftWorks, w.faults4, w.faults6);
      during := after;
      assert ReadyToServe(w) && NothingDone() && queue.queue;
      if ok {
        var how;
        how, during, after, states := ListenThenClear(w, after);
        end := Some(how);
      }
    }

    /**
     One run of the program on the kernel's tables `before`. However it ends, every resource is
     released, the queue included, and the tables that it serves hold none of its rules. If nothing
     fails before the queue loop (`end` is how that ended), every queued packet with a header got its
     verdict, and the packet handler made a run, as described in Trace, with the payloads in option
     order, under the whole ruleset; otherwise nothing was sent.
     */
    method Execute(w: World, before: Rules)
      returns (end: Option<State>, during: Rules, after: Rules, ghost states: seq<Snapshot>)
      requires AtRest() && NothingDone() && Sound(before)
      modifies ring, cache, sockets, queue
      ensures AtRest()
      ensures if end.None? then NothingDone() else HasServed(w, states)
      ensures end == if ReachesTheLoop(settings, w) then Some(StateAfter(w.events)) else None
      ensures end.Some? ==> during == Installed(before, settings.config, UsesIptables(settings.config, w.nftWorks))
      ensures after == if ReachesTheRules(settings, w)
                       then Cleared(before, settings.config, UsesIptables(settings.config, w.nftWorks)) else before
    {
      end, during, after, states := None, before, before, [];
      var ok := Setup(w);
      if !ok {
        return;
      }
      end, during, after, states := Serve(w, before);
      Cleanup();
    }
  }
}
