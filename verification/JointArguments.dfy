/** What a call leaves of the references passed in it, whatever calls are nested in it. */
module JointArguments {
  import opened TwoParty
  import SyncProtocol
  import NpObjects
  import opened Ownership
  import opened Joint
  import opened JointTheorems
  import opened JointCalls

  // No reference and no Deallocate call is on its way.
  predicate AtPause(j: State) {
    Load(j.cargo, j.s.toV) == [] && Load(j.cargo, j.s.toW) == [] && j.w.packed == [] && j.v.packed == []
  }

  /** Every message is sent at such a moment: all arguments and all results are. */
  lemma MessagesPause(j: State, x: Side, a: Action, objects: seq<Passed>)
    requires Reachable(j) && CanDo(j, Message(x, a, objects)) && !SendsCall(j, x, a)
    ensures AtPause(j)
  {
    hide SyncProtocol.Inv, Ownership.Inv, View, Load;
    ReachableInv(j);
    MessagePacking(j, x, a);
    MessageLoads(j, x, a, []);
  }

  // A proxy in use on the other side, and nothing else, keeps a stub.
  lemma StubsAreLiveProxies(j: State, x: Side, id: NpObjects.StubId)
    requires JointInv(j) && AtPause(j)
    ensures id in j.Of(x).bridge.stubs <==> StandingOf(j.Of(Other(x)).bridge, id).Alive?
    ensures id in j.Of(x).bridge.stubs ==> id <= j.Of(x).bridge.nextId
  {
    hide SyncProtocol.Inv, Load, Half, NpObjects.Sound;
    EitherView(j, x);
    var w := View(j, x);
    assert AccountedFor(w.a, w.b, w.toB, w.toA, id) by { HalfAt(w, id); }
    NothingSaid(j, x, id);
    NothingSaid(j, Other(x), id);
  }

  lemma HalfAt(w: World, id: NpObjects.StubId)
    requires Half(w.a, w.b, w.toB, w.toA)
    ensures AccountedFor(w.a, w.b, w.toB, w.toA, id)
  {
  }

  // Owed replies carry and release nothing.
  lemma NothingSaid(j: State, x: Side, id: NpObjects.StubId)
    requires JointInv(j) && AtPause(j)
    ensures Carried(Out(j, x), id) == 0 && Released(Out(j, x), id) == 0
  {
    hide SyncProtocol.Inv, Ownership.Inv, Load;
    var owed := Items(j.Of(x).owed);
    assert [] + [] + owed == owed && Out(j, x) == owed;
    forall item | item in owed ensures item.DeallocateDone? {}
  }

  ghost predicate SameLive(b: Bridge, b': Bridge) {
    forall id :: StandingOf(b, id).Alive? <==> StandingOf(b', id).Alive?
  }

  lemma {:induction false} RunRetires(j: State, acts: seq<Act>, x: Side)
    requires Joint.Legal(j, acts)
    ensures Retires(j.Of(x).bridge, Joint.Run(j, acts).Of(x).bridge)
    decreases |acts|
  {
    hide CanDo, Do;
    if acts != [] {
      DoRetires(j, acts[0], x);
      RunRetires(Do(j, acts[0]), acts[1..], x);
    }
  }

  // The stubs that pin an object.
  ghost function Pins(b: Bridge, p: Ptr): nat {
    NpObjects.StubCount(b.stubs, p)
  }

  /** Whatever is passed, in whatever calls, nested in each other and in the handlers of Deallocate calls: if in
      the end the receiver has the proxies in use that it had, so that it has kept nothing of what it was passed,
      the sender has exactly the stubs that it had; and the count of each of its objects exceeds the references
      of its own application by what it did, so that an object whose application references are the same has
      the same count, and one that was kept by those stubs alone is still there. */
  lemma NothingKeptOverCalls(j: State, x: Side, acts: seq<Act>)
    requires Reachable(j) && AtPause(j) && Joint.Legal(j, acts) && AtPause(Joint.Run(j, acts))
    requires SameLive(j.Of(Other(x)).bridge, Joint.Run(j, acts).Of(Other(x)).bridge)
    ensures var b, b' := j.Of(x).bridge, Joint.Run(j, acts).Of(x).bridge;
      && b'.stubs == b.stubs
      && (forall p :: p in b.heap && b.heap[p].kind.Native? && Pins(b, p) > 0 ==> p in b'.heap)
      && (forall p :: p in b.heap && p in b'.heap && b.heap[p].kind.Native? && b'.heap[p].kind.Native? ==>
            b'.heap[p].referenceCount - b'.heap[p].held == b.heap[p].referenceCount - b.heap[p].held)
  {
    hide JointInv, AtPause, CanDo, Do, NpObjects.StubCount, StandingOf;
    ReachableInv(j);
    JointTheorems.RunKeepsInv(j, acts);
    var j' := Joint.Run(j, acts);
    var b, b' := j.Of(x).bridge, j'.Of(x).bridge;
    RunRetires(j, acts, x);
    forall id ensures id in b'.stubs <==> id in b.stubs {
      StubsAreLiveProxies(j, x, id);
      StubsAreLiveProxies(j', x, id);
    }
    forall id | id in b.stubs ensures b'.stubs[id] == b.stubs[id] {
      StubsAreLiveProxies(j, x, id);
    }
    assert b'.stubs == b.stubs;
    CountsConserved(j, x);
    CountsConserved(j', x);
    forall p | p in b.heap && b.heap[p].kind.Native? && Pins(b, p) > 0 ensures p in b'.heap { PinsKeep(j', x, p); }
  }

  lemma CountsConserved(j: State, x: Side)
    requires JointInv(j)
    ensures forall p :: p in j.Of(x).bridge.heap && j.Of(x).bridge.heap[p].kind.Native? ==>
      j.Of(x).bridge.heap[p].referenceCount == j.Of(x).bridge.heap[p].held + Pins(j.Of(x).bridge, p)
  {
    hide SyncProtocol.Inv, Half, Load;
    EitherView(j, x);
    SameBridge(j, x);
  }

  lemma PinsKeep(j: State, x: Side, p: Ptr)
    requires JointInv(j) && Pins(j.Of(x).bridge, p) > 0
    ensures p in j.Of(x).bridge.heap
  {
    hide SyncProtocol.Inv, Half, Load;
    EitherView(j, x);
    SameBridge(j, x);
    var ids := NpObjects.StubsOf(j.Of(x).bridge.stubs, p);
    assert ids != {};
    var id :| id in ids;
  }
}
