/**
 The circular list of prepared payloads: fs_payload_setup, th_payload_get and fs_payload_cleanup.
 The heap is modelled by the set of nodes that were allocated and not yet freed.
 */
module PayloadList {
  import opened Wrappers

  /** One entry of the option array, with what preparing it gives; None is a failure. */
  datatype Entry = End | Entry(prepared: Option<seq<byte>>)

  /** The outcomes of the entries before the terminator. */
  function Outcomes(entries: seq<Entry>): seq<Option<seq<byte>>>
  {
    if entries == [] || entries[0].End? then [] else [entries[0].prepared] + Outcomes(entries[1..])
  }

  /** Every entry gets its memory and can be prepared. */
  predicate AllPrepared(es: seq<Option<seq<byte>>>, memory: nat -> bool)
  {
    forall i | 0 <= i < |es| :: memory(i) && es[i].Some?
  }

  /** `ps` holds the prepared payloads, in order. */
  predicate AreThePayloads(ps: seq<seq<byte>>, es: seq<Option<seq<byte>>>)
  {
    |ps| == |es| && forall i | 0 <= i < |es| :: es[i] == Some(ps[i])
  }

  /** One step of the rotation: the head goes to the end. */
  function Rotate<T>(s: seq<T>): seq<T>
  {
    if s == [] then [] else s[1..] + [s[0]]
  }

  function RotateTimes<T>(s: seq<T>, k: nat): seq<T>
  {
    if k == 0 then s else Rotate(RotateTimes(s, k - 1))
  }

  /** Rotation order: what is at the head after k steps is entry k mod n. */
  lemma {:induction false} HeadAfter<T>(s: seq<T>, k: nat)
    requires s != []
    ensures |RotateTimes(s, k)| == |s| && RotateTimes(s, k)[0] == s[k % |s|]
  {
    RotatedBy(s, k);
  }

  lemma {:induction false} RotatedBy<T>(s: seq<T>, k: nat)
    requires s != []
    ensures RotateTimes(s, k) == s[k % |s|..] + s[..k % |s|]
  {
    if k > 0 {
      RotatedBy(s, k - 1);
      NextRemainder(k - 1, |s|);
      RotateCut(s, (k - 1) % |s|);
    }
  }

  lemma RotateCut<T>(s: seq<T>, j: nat)
    requires j < |s|
    ensures Rotate(s[j..] + s[..j]) == s[j + 1..] + s[..j + 1]
    ensures j + 1 == |s| ==> Rotate(s[j..] + s[..j]) == s
  {
  }

  predicate Distinct<T(==)>(s: seq<T>)
  {
    forall i, j | 0 <= i < j < |s| :: s[i] != s[j]
  }

  /** After `i` entries without the terminator, the next one is the next outcome, or the end. */
  lemma {:induction false} OutcomeAt(entries: seq<Entry>, i: nat)
    requires i < |entries| && forall j | 0 <= j < i :: !entries[j].End?
    ensures i <= |Outcomes(entries)|
    ensures entries[i].End? ==> |Outcomes(entries)| == i
    ensures !entries[i].End? ==> i < |Outcomes(entries)| && Outcomes(entries)[i] == entries[i].prepared
  {
    if i > 0 {
      OutcomeAt(entries[1..], i - 1);
    }
  }

  /** After i entries: the payloads built so far, and the ring as its next rotation shows it. */
  ghost predicate Built(built: seq<seq<byte>>, es: seq<Option<seq<byte>>>, i: nat, memory: nat -> bool,
                        order: seq<seq<byte>>, rotated: seq<seq<byte>>)
  {
    && |built| == i <= |es| && rotated == order + built
    && forall j | 0 <= j < i :: memory(j) && es[j] == Some(built[j])
  }

  lemma OneMorePayload(built: seq<seq<byte>>, es: seq<Option<seq<byte>>>, i: nat, memory: nat -> bool,
                       order: seq<seq<byte>>, rotated: seq<seq<byte>>)
    requires Built(built, es, i, memory, order, rotated) && i < |es| && es[i].Some? && memory(i)
    ensures Built(built + [es[i].value], es, i + 1, memory, order, rotated + [es[i].value])
  {
  }

  lemma AllBuilt(built: seq<seq<byte>>, es: seq<Option<seq<byte>>>, memory: nat -> bool,
                 order: seq<seq<byte>>, rotated: seq<seq<byte>>)
    requires Built(built, es, |es|, memory, order, rotated)
    ensures AllPrepared(es, memory) && AreThePayloads(built, es)
  {
  }

  lemma OneFailure(es: seq<Option<seq<byte>>>, i: nat, memory: nat -> bool)
    requires i < |es| && (es[i].None? || !memory(i))
    ensures !AllPrepared(es, memory)
  {
  }

  // ---- nodes on the heap

  type Address = nat

  datatype Node = Node(payload: seq<byte>, next: Address)

  /** The allocated nodes: malloc adds an address, free takes it away. */
  type Heap = map<Address, Node>

  /**
   Following the links from `a` leads through the nodes `ns`, all different and holding the
   payloads `ps`, and then to `end`.
   */
  predicate Chain(heap: Heap, a: Address, ns: seq<Address>, ps: seq<seq<byte>>, end: Address)
    decreases |ns|
  {
    if ns == [] then ps == [] && a == end
    else
      && ps != [] && ns[0] == a && a in heap && a !in ns[1..] && heap[a].payload == ps[0]
      && Chain(heap, heap[a].next, ns[1..], ps[1..], end)
  }

  /** The first node of a chain is not needed by the rest. */
  lemma FreeHead(heap: Heap, a: Address, ns: seq<Address>, ps: seq<seq<byte>>, end: Address)
    requires Chain(heap, a, ns, ps, end) && ns != [] && forall x :: x in heap <==> x in ns
    ensures a == ns[0] && a in heap
    ensures Chain(heap - {a}, heap[a].next, ns[1..], ps[1..], end)
    ensures forall x :: x in heap - {a} <==> x in ns[1..]
  {
    assert forall x :: x in ns <==> x == a || x in ns[1..];
    ChainFrame(heap, heap - {a}, heap[a].next, ns[1..], ps[1..], end);
  }

  /** A closed ring, listed from its current node. */
  predicate Ring(heap: Heap, ring: seq<Address>, ps: seq<seq<byte>>)
  {
    if ring == [] then ps == [] else Chain(heap, ring[0], ring, ps, ring[0])
  }

  lemma {:induction false} ChainLength(heap: Heap, a: Address, ns: seq<Address>, ps: seq<seq<byte>>, end: Address)
    requires Chain(heap, a, ns, ps, end)
    ensures |ns| == |ps| && Distinct(ns) && forall x | x in ns :: x in heap
    decreases |ns|
  {
    if ns != [] {
      ChainLength(heap, heap[a].next, ns[1..], ps[1..], end);
      assert ns == [ns[0]] + ns[1..];
    }
  }

  /** A chain does not depend on nodes that are not on it. */
  lemma {:induction false} ChainFrame(heap: Heap, heap': Heap, a: Address, ns: seq<Address>, ps: seq<seq<byte>>,
                                      end: Address)
    requires Chain(heap, a, ns, ps, end)
    requires forall x | x in ns && x in heap :: x in heap' && heap'[x] == heap[x]
    ensures Chain(heap', a, ns, ps, end)
    decreases |ns|
  {
    if ns != [] {
      assert ns[0] in ns;
      assert forall x | x in ns[1..] :: x in ns;
      ChainFrame(heap, heap', heap[a].next, ns[1..], ps[1..], end);
    }
  }

  /** Two chains that meet and share no node are one chain. */
  lemma {:induction false} ChainAppend(heap: Heap, a: Address, ns: seq<Address>, ps: seq<seq<byte>>, mid: Address,
                                       ms: seq<Address>, qs: seq<seq<byte>>, end: Address)
    requires Chain(heap, a, ns, ps, mid) && Chain(heap, mid, ms, qs, end)
    requires forall x | x in ns :: x !in ms
    ensures Chain(heap, a, ns + ms, ps + qs, end)
    decreases |ns|
  {
    if ns == [] {
      assert ns + ms == ms && ps + qs == qs;
    } else {
      assert ns[0] in ns;
      assert forall x | x in ns[1..] :: x in ns;
      ChainAppend(heap, heap[a].next, ns[1..], ps[1..], mid, ms, qs, end);
      assert (ns + ms)[1..] == ns[1..] + ms && (ps + qs)[1..] == ps[1..] + qs;
    }
  }

  lemma SingleChain(heap: Heap, a: Address)
    requires a in heap
    ensures Chain(heap, a, [a], [heap[a].payload], heap[a].next)
  {
    assert [a][1..] == [] && [heap[a].payload][1..] == [];
    assert Chain(heap, heap[a].next, [], [], heap[a].next);
  }

  /** The ring seen from the next node. */
  lemma RotateRing(heap: Heap, ring: seq<Address>, ps: seq<seq<byte>>)
    requires Ring(heap, ring, ps) && ring != []
    ensures ps != [] && ring[0] in heap && heap[ring[0]].payload == ps[0]
    ensures Ring(heap, Rotate(ring), Rotate(ps)) && Rotate(ring)[0] == heap[ring[0]].next
  {
    var c := ring[0];
    SingleChain(heap, c);
    ChainAppend(heap, heap[c].next, ring[1..], ps[1..], c, [c], [ps[0]], heap[c].next);
    if ring[1..] == [] {
      assert Chain(heap, heap[c].next, [], ps[1..], c);
    }
  }

  /** Putting a new node behind the current one, which it replaces as the current one. */
  lemma InsertRing(heap: Heap, ring: seq<Address>, ps: seq<seq<byte>>, node: Address, content: seq<byte>)
    requires Ring(heap, ring, ps) && ring != [] && node !in heap && ring[0] in heap
    ensures var c := ring[0];
            var heap' := heap[node := Node(content, heap[c].next)][c := Node(heap[c].payload, node)];
            Ring(heap', [node] + Rotate(ring), [content] + Rotate(ps))
  {
    var c := ring[0];
    var heap' := heap[node := Node(content, heap[c].next)][c := Node(heap[c].payload, node)];
    ChainLength(heap, c, ring, ps, c);
    var rest, qs := ring[1..], ps[1..];
    assert forall x | x in rest :: x in ring;
    ChainFrame(heap, heap', heap[c].next, rest, qs, c);
    SingleChain(heap', c);
    ChainAppend(heap', heap[c].next, rest, qs, c, [c], [ps[0]], node);
    SingleChain(heap', node);
    assert node !in rest + [c];
    ChainAppend(heap', node, [node], [content], heap[c].next, rest + [c], qs + [ps[0]], node);
  }

  /** A first node, linked to itself. */
  lemma FirstRing(heap: Heap, node: Address)
    requires node in heap && heap[node].next == node
    ensures Ring(heap, [node], [heap[node].payload])
  {
    SingleChain(heap, node);
  }

  /** Filling in the payload of the current node. */
  lemma FillRing(heap: Heap, ring: seq<Address>, ps: seq<seq<byte>>, content: seq<byte>)
    requires Ring(heap, ring, ps) && ring != [] && ps != [] && ring[0] in heap
    ensures Ring(heap[ring[0] := Node(content, heap[ring[0]].next)], ring, [content] + ps[1..])
  {
    var c := ring[0];
    var heap' := heap[c := Node(content, heap[c].next)];
    ChainFrame(heap, heap', heap[c].next, ring[1..], ps[1..], c);
  }

  class PayloadRing {
    var heap: Heap
    var top: Address                      // every allocated address is below it
    var currentNode: Option<Address>      // None is the null pointer
    ghost var ring: seq<Address>          // the nodes from the current one, in the order of the links
    ghost var payloads: seq<seq<byte>>    // what they hold; empty for one not yet filled in
    ghost var freed: seq<Address>         // in the order of the calls to free

    /** A closed ring, the current node on it, and no allocated node off it. */
    ghost predicate Valid()
      reads this
    {
      && Ring(heap, ring, payloads)
      && currentNode == (if ring == [] then None else Some(ring[0]))
      && (forall a :: a in heap <==> a in ring)
      && (forall a | a in heap :: a < top)
    }

    constructor ()
      ensures Valid() && ring == [] && payloads == [] && freed == []
    {
      heap, top, currentNode, ring, payloads, freed := map[], 0, None, [], [], [];
    }

    method Malloc() returns (node: Address)
      requires forall a | a in heap :: a < top
      modifies this`heap, this`top
      ensures node !in old(heap) && heap == old(heap)[node := Node([], 0)]
      ensures forall a | a in heap :: a < top
    {
      node := top;
      heap := heap[node := Node([], 0)];
      top := top + 1;
    }

    /** A node can be given back only while it is allocated. */
    method Free(node: Address)
      requires node in heap
      modifies this`heap, this`freed
      ensures heap == old(heap) - {node} && freed == old(freed) + [node]
    {
      heap := heap - {node};
      freed := freed + [node];
    }

    /**
     Walks once around the ring. Every node is freed exactly once, none is read after it was freed,
     and none is left.
     */
    method Cleanup()
      requires Valid()
      modifies this
      ensures Valid() && currentNode == None && payloads == [] && heap == map[]
      ensures freed == old(freed) + old(ring)
    {
      var node := currentNode;
      ghost var todo, held := ring, payloads;
      while node.Some?
        invariant node == None ==> todo == []
        invariant node.Some? ==> todo != [] && ring != [] && Chain(heap, node.value, todo, held, ring[0])
        invariant node.Some? ==> todo == ring || ring[0] !in todo
        invariant forall a :: a in heap <==> a in todo
        invariant freed + todo == old(freed) + old(ring)
        invariant unchanged(this`ring) && unchanged(this`currentNode) && unchanged(this`top)
        decreases |todo|
      {
        var nextNode := heap[node.value].next;
        FreeHead(heap, node.value, todo, held, ring[0]);
        assert freed + todo == (freed + [node.value]) + todo[1..];
        Free(node.value);
        todo, held := todo[1..], held[1..];
        if currentNode == Some(nextNode) {
          assert todo == [];
          break;
        }
        node := Some(nextNode);
      }
      currentNode, ring, payloads := None, [], [];
    }

    /** malloc, and the new node put behind the current one, which it replaces. */
    method Insert() returns (node: Address)
      requires Valid()
      modifies this
      ensures Valid() && ring == [node] + Rotate(old(ring)) && payloads == [[]] + Rotate(old(payloads))
      ensures freed == old(freed)
    {
      node := Malloc();
      if currentNode.Some? {
        var c := currentNode.value;
        RotateRing(old(heap), ring, payloads);
        var next := heap[c].next;
        heap := heap[c := heap[c].(next := node)];
        heap := heap[node := heap[node].(next := next)];
        InsertRing(old(heap), ring, payloads, node, []);
        assert heap == old(heap)[node := Node([], next)][c := Node(old(heap)[c].payload, node)];
      } else {
        heap := heap[node := heap[node].(next := node)];
        FirstRing(heap, node);
      }
      currentNode := Some(node);
      ring, payloads := [node] + Rotate(ring), [[]] + Rotate(payloads);
    }

    /**
     Builds the ring from the option array, up to its terminator. `memory(i)` says whether the
     allocation for entry i succeeds. After success the payloads (`built`) come in the order of the
     entries, starting with the first. After a failure at any entry, every node of the ring (`gone`)
     has been freed, exactly once.
     */
    method Setup(plinfo: array<Entry>, memory: nat -> bool)
      returns (ok: bool, ghost gone: seq<Address>, ghost built: seq<seq<byte>>)
      requires Valid()
      requires exists i | 0 <= i < plinfo.Length :: plinfo[i].End?
      modifies this
      ensures Valid()
      ensures var es := Outcomes(plinfo[..]); ok <==> AllPrepared(es, memory) && (es != [] || old(payloads) != [])
      ensures ok ==> AreThePayloads(built, Outcomes(plinfo[..]))
      ensures ok ==> payloads == Rotate(old(payloads)) + built && freed == old(freed)
      ensures !ok ==> currentNode == None && payloads == [] && heap == map[]
      ensures !ok ==> freed == old(freed) + gone && Distinct(gone) && forall a | a in old(heap) :: a in gone
    {
      ok, built := Fill(plinfo, memory);
      gone := [];
      assert ok && currentNode == None ==> |Rotate(payloads)| == 0;
      if !ok || currentNode == None {
        gone := Abandon();
        ok := false;
      } else {
        RotateRing(heap, ring, payloads);
        currentNode := Some(heap[currentNode.value].next);
        ring, payloads := Rotate(ring), Rotate(payloads);
      }
    }

    /** What set-up does when it fails: every node is freed, exactly once. */
    method Abandon() returns (ghost gone: seq<Address>)
      requires Valid()
      modifies this
      ensures Valid() && currentNode == None && payloads == [] && heap == map[]
      ensures freed == old(freed) + gone && Distinct(gone) && forall a | a in old(heap) :: a in gone
    {
      gone := ring;
      if ring != [] {
        ChainLength(heap, ring[0], ring, payloads, ring[0]);
      }
      Cleanup();
    }

    /** The set-up loop. It leaves a closed ring, whose newest node may have no payload yet. */
    method Fill(plinfo: array<Entry>, memory: nat -> bool) returns (ok: bool, ghost built: seq<seq<byte>>)
      requires Valid()
      requires exists i | 0 <= i < plinfo.Length :: plinfo[i].End?
      modifies this
      ensures Valid() && freed == old(freed) && old(heap).Keys <= heap.Keys
      ensures ok <==> AllPrepared(Outcomes(plinfo[..]), memory)
      ensures ok ==> AreThePayloads(built, Outcomes(plinfo[..]))
      ensures ok ==> Rotate(payloads) == Rotate(old(payloads)) + built
    {
      ghost var entries := plinfo[..];
      ghost var es := Outcomes(entries);
      ghost var order := Rotate(payloads);
      ghost var last :| 0 <= last < plinfo.Length && plinfo[last].End?;
      built := [];
      var i := 0;
      while !plinfo[i].End?
        invariant 0 <= i <= last && plinfo[..] == entries
        invariant forall j | 0 <= j < i :: !entries[j].End?
        invariant Valid() && freed == old(freed) && old(heap).Keys <= heap.Keys
        invariant Built(built, es, i, memory, order, Rotate(payloads))
        decreases last - i
      {
        OutcomeAt(entries, i);
        ok := Round(plinfo[i].prepared, memory, i, built, es, order);
        if !ok {
          return;
        }
        built := built + [es[i].value];
        i := i + 1;
      }
      OutcomeAt(entries, i);
      AllBuilt(built, es, memory, order, Rotate(payloads));
      ok := true;
    }

    /** One round of the set-up loop, for entry i of `es`. */
    method Round(prepared: Option<seq<byte>>, memory: nat -> bool, i: nat,
                 ghost built: seq<seq<byte>>, ghost es: seq<Option<seq<byte>>>, ghost order: seq<seq<byte>>)
      returns (ok: bool)
      requires Valid() && Built(built, es, i, memory, order, Rotate(payloads)) && i < |es| && es[i] == prepared
      modifies this
      ensures Valid() && freed == old(freed) && old(heap).Keys <= heap.Keys
      ensures if ok then prepared.Some? && Built(built + [prepared.value], es, i + 1, memory, order, Rotate(payloads))
              else !AllPrepared(es, memory)
    {
      ghost var rotated := Rotate(payloads);
      ok := Add(prepared, memory(i));
      if ok {
        OneMorePayload(built, es, i, memory, order, rotated);
      } else {
        OneFailure(es, i, memory);
      }
    }

    /** A node for an entry, then its payload. */
    method Add(prepared: Option<seq<byte>>, memory: bool) returns (ok: bool)
      requires Valid()
      modifies this
      ensures Valid() && freed == old(freed) && old(heap).Keys <= heap.Keys
      ensures ok <==> memory && prepared.Some?
      ensures ok ==> Rotate(payloads) == Rotate(old(payloads)) + [prepared.value]
    {
      if !memory {
        return false;
      }
      var node := Insert();
      assert forall a | a in old(ring) :: a in ring;
      if prepared.None? {
        return false;
      }
      FillRing(heap, ring, payloads, prepared.value);
      heap := heap[node := heap[node].(payload := prepared.value)];
      payloads := [prepared.value] + payloads[1..];
      ok := true;
    }

    /** Hands out the current payload and moves on; None when there is no payload. */
    method Get() returns (r: Option<seq<byte>>)
      requires Valid()
      modifies this
      ensures Valid()
      ensures r == if old(payloads) == [] then None else Some(old(payloads)[0])
      ensures payloads == Rotate(old(payloads)) && freed == old(freed) && heap == old(heap)
    {
      if currentNode == None {
        return None;
      }
      RotateRing(heap, ring, payloads);
      r := Some(heap[currentNode.value].payload);
      currentNode := Some(heap[currentNode.value].next);
      ring, payloads := Rotate(ring), Rotate(payloads);
    }

    /**
     Any number of gets in a row, as the packet handler makes them over a run: the k-th one returns
     entry k mod n.
     */
    method TakeMany(count: nat) returns (taken: seq<seq<byte>>)
      requires Valid() && payloads != []
      modifies this
      ensures Valid() && payloads == RotateTimes(old(payloads), count)
      ensures |taken| == count
      ensures forall k | 0 <= k < count :: taken[k] == old(payloads)[k % |old(payloads)|]
    {
      taken := [];
      while |taken| < count
        invariant Valid() && |taken| <= count && payloads == RotateTimes(old(payloads), |taken|)
        invariant forall k | 0 <= k < |taken| :: taken[k] == old(payloads)[k % |old(payloads)|]
      {
        HeadAfter(old(payloads), |taken|);
        assert payloads[0] == old(payloads)[|taken| % |old(payloads)|];
        var r := Get();
        assert payloads == RotateTimes(old(payloads), |taken| + 1);
        taken := taken + [r.value];
      }
    }
  }
}
