/** What npruntime_deactivate() leaves of the wrapper's objects once the viewer is dead. */
module ViewerDeath {
  import opened NpObjects

  function Invalid(obj: NPObject): NPObject
    requires obj.kind.Proxy?
  {
    obj.(kind := Proxy(obj.kind.id, false))
  }

  // All proxies invalid but those for the given ids.
  function InvalidExcept(heap: Heap, ids: set<StubId>): Heap {
    map p | p in heap :: if heap[p].kind.Proxy? && heap[p].kind.id !in ids then Invalid(heap[p]) else heap[p]
  }

  function WithoutValidProxies(heap: Heap): Heap {
    InvalidExcept(heap, {})
  }

  lemma AllStillValid(heap: Heap, proxies: map<StubId, Ptr>)
    requires ProxiesRegistered(heap, proxies)
    ensures InvalidExcept(heap, proxies.Keys) == heap
  {
    forall p | p in heap ensures IsRegistered(heap, p, proxies) {}
  }

  lemma OneMoreInvalid(heap: Heap, proxies: map<StubId, Ptr>, ids: set<StubId>, id: StubId)
    requires ProxiesRegistered(heap, proxies) && id in ids && id in proxies
    ensures proxies[id] in heap && heap[proxies[id]].kind.Proxy? && heap[proxies[id]].kind.id == id
    ensures InvalidExcept(heap, ids - {id}) == InvalidExcept(heap, ids)[proxies[id] := Invalid(heap[proxies[id]])]
  {
    assert IsProxyFor(heap, proxies[id], id);
    forall p | p in heap ensures IsRegistered(heap, p, proxies) {}
  }

  lemma InvalidProxiesKeepSound(b: Bridge)
    requires Sound(b)
    ensures Sound(b.(heap := WithoutValidProxies(b.heap)))
  {
    var heap := WithoutValidProxies(b.heap);
    forall p | p in heap ensures IsRegistered(heap, p, b.proxies) && Conserved(heap[p], StubCount(b.stubs, p)) {
      assert IsRegistered(b.heap, p, b.proxies) && Conserved(b.heap[p], StubCount(b.stubs, p));
    }
    forall id | id in b.proxies ensures IsProxyFor(heap, b.proxies[id], id) {
      assert IsProxyFor(b.heap, b.proxies[id], id);
    }
  }

  // The objects that the application still holds, with just its references.
  function OnlyHeld(heap: Heap): Heap {
    map p | p in heap && (heap[p].kind.Proxy? || heap[p].held > 0) ::
      if heap[p].kind.Proxy? then heap[p] else heap[p].(referenceCount := heap[p].held)
  }

  // npruntime_deactivate()
  function Deactivated(b: Bridge): Bridge {
    Bridge(OnlyHeld(WithoutValidProxies(b.heap)), map[], map[], b.nextId)
  }

  lemma DestroyStubKeepsHeld(b: Bridge, id: StubId, canInvoke: bool)
    requires Sound(b) && StubIsSound(b, id)
    ensures var b' := DestroyStub(b, id, canInvoke).bridge;
      b'.heap.Keys <= b.heap.Keys && OnlyHeld(b'.heap) == OnlyHeld(b.heap)
    ensures DestroyStub(b, id, canInvoke).bridge.stubs == b.stubs - {id}
    ensures DestroyStub(b, id, canInvoke).bridge.proxies == b.proxies
    ensures DestroyStub(b, id, canInvoke).bridge.nextId == b.nextId
    ensures DestroyStub(b, id, canInvoke).sent == []
  {
    var p := b.stubs[id];
    StubKeepsAlive(b, id);
    ReleaseOfNative(b.(stubs := b.stubs - {id}), p, canInvoke);
  }

  // Without stubs, the application's references are all there are.
  lemma OnlyHeldIsAll(b: Bridge)
    requires Sound(b) && b.stubs == map[]
    ensures OnlyHeld(b.heap) == b.heap
  {
    forall p | p in b.heap ensures Conserved(b.heap[p], StubCount(b.stubs, p)) && StubCount(b.stubs, p) == 0 {
      assert StubsOf(b.stubs, p) == {};
    }
  }

  // What is left of one object: a proxy, invalid, or what its application's references are of a native one.
  ghost predicate IsLeft(b: Bridge, p: Ptr)
    requires p in b.heap
  {
    var obj, heap := b.heap[p], Deactivated(b).heap;
    if obj.kind.Proxy? then p in heap && heap[p] == Invalid(obj)
    else
      && (p in heap <==> obj.referenceCount > StubCount(b.stubs, p))
      && (p in heap ==> heap[p] == obj.(referenceCount := obj.referenceCount - StubCount(b.stubs, p)))
  }

  lemma DeactivatedObject(b: Bridge, p: Ptr)
    requires Sound(b) && p in b.heap
    ensures IsLeft(b, p)
  {
    assert Conserved(b.heap[p], StubCount(b.stubs, p));
  }

  /** After the death of the viewer no proxy is valid, though the application still has them all, no stub is
      left, and each object has lost exactly one reference for each stub on it (and is freed if those were all
      it had). */
  lemma DeactivationReleasesStubs(b: Bridge)
    requires Sound(b)
    ensures var b' := Deactivated(b);
      && b'.stubs == map[] && b'.proxies == map[] && b'.nextId == b.nextId
      && (forall p :: p in b.heap && b.heap[p].kind.Native? ==>
            (p in b'.heap <==> b.heap[p].referenceCount > StubCount(b.stubs, p)))
      && (forall p :: p in b'.heap ==> p in b.heap && SameKind(b'.heap[p], b.heap[p]))
      && (forall p :: p in b.heap && b.heap[p].kind.Proxy? ==> p in b'.heap)
      && (forall p :: p in b'.heap && b.heap[p].kind.Native? ==>
            b'.heap[p].referenceCount == b.heap[p].referenceCount - StubCount(b.stubs, p))
      && (forall p :: p in b'.heap ==> b'.heap[p].held == b.heap[p].held)
      && (forall p :: p in b'.heap && b'.heap[p].kind.Proxy? ==>
            !b'.heap[p].kind.isValid && b'.heap[p].referenceCount == b.heap[p].referenceCount)
  {
    hide Sound, OnlyHeld, WithoutValidProxies, Conserved;
    assert Deactivated(b).heap.Keys <= b.heap.Keys by { OnlyTheseAreLeft(b); }
    forall p | p in b.heap ensures IsLeft(b, p) { DeactivatedObject(b, p); }
  }

  lemma OnlyTheseAreLeft(b: Bridge)
    ensures Deactivated(b).heap.Keys <= b.heap.Keys
  {
  }

  // No proxy is valid, as after the death of the viewer.
  predicate AllInvalid(b: Bridge) {
    forall p :: p in b.heap && b.heap[p].kind.Proxy? ==> !b.heap[p].kind.isValid
  }

  datatype Use = UseRelease(p: Ptr) | UseInvalidate(p: Ptr)

  function UseOne(b: Bridge, use: Use): Effect {
    match use
    case UseRelease(p) => if p in b.heap && b.heap[p].referenceCount > 0 then Release(b, p, true) else Effect(b, [])
    case UseInvalidate(p) => if p in b.heap then Invalidate(b, p, true) else Effect(b, [])
  }

  // Application code dropping references and invalidating proxies, one after the other; what is sent.
  function UseAll(b: Bridge, uses: seq<Use>): Effect
    decreases |uses|
  {
    if uses == [] then Effect(b, [])
    else
      var out := UseOne(b, uses[0]);
      var rest := UseAll(out.bridge, uses[1..]);
      Effect(rest.bridge, out.sent + rest.sent)
  }

  /** Proxies left over from a dead viewer never make a Deallocate call. */
  lemma {:induction false} DeadProxiesAreSilent(b: Bridge, uses: seq<Use>)
    requires AllInvalid(b)
    ensures UseAll(b, uses).sent == [] && AllInvalid(UseAll(b, uses).bridge)
    decreases |uses|
  {
    if uses != [] {
      assert UseOne(b, uses[0]).sent == [] && AllInvalid(UseOne(b, uses[0]).bridge);
      DeadProxiesAreSilent(UseOne(b, uses[0]).bridge, uses[1..]);
    }
  }

  /** Whatever the application does with its references after the death of the viewer, no call is made. */
  lemma SilentAfterDeath(b: Bridge, uses: seq<Use>)
    requires Sound(b)
    ensures UseAll(Deactivated(b), uses).sent == []
  {
    hide UseAll, Deactivated;
    DeactivationReleasesStubs(b);
    DeadProxiesAreSilent(Deactivated(b), uses);
  }

  /** Each such release drops one reference, and the last one frees a proxy and its entry in the table; a proxy that is
      invalidated again stays as it is. */
  lemma LeftoversAreReleased(b: Bridge, p: Ptr)
    requires AllInvalid(b) && p in b.heap && b.heap[p].kind.Proxy? && b.heap[p].referenceCount > 0
    ensures var count, out := b.heap[p].referenceCount, UseAll(b, [UseRelease(p)]).bridge;
      out == if count > 1 then b.(heap := b.heap[p := b.heap[p].(referenceCount := count - 1)])
             else b.(heap := b.heap - {p}, proxies := b.proxies - {b.heap[p].kind.id})
    ensures UseAll(b, [UseInvalidate(p)]).bridge == b
  {
    assert [UseRelease(p)][1..] == [] && [UseInvalidate(p)][1..] == [];
    assert b.heap[p := b.heap[p].(referenceCount := 0)] - {p} == b.heap - {p};
  }
}
