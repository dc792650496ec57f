/** What holds of stubs, proxies and reference counts on any run of the two sides. */
module OwnershipTheorems {
  import opened NpObjects
  import opened Ownership

  ghost predicate Reachable(w: World) {
    exists steps :: Legal(START, steps) && Run(START, steps) == w
  }

  lemma ReachableInv(w: World)
    requires Reachable(w)
    ensures Inv(w)
  {
    var steps :| Legal(START, steps) && Run(START, steps) == w;
    InitiallyInv();
    RunKeepsInv(START, steps);
  }

  lemma ReachableFlips(w: World)
    requires Reachable(w)
    ensures Reachable(Flip(w))
  {
    var steps :| Legal(START, steps) && Run(START, steps) == w;
    var flipped := RunFlips(START, steps);
    assert Flip(START) == START;
  }

  lemma {:induction false} RunFlips(w: World, steps: seq<Step>) returns (flipped: seq<Step>)
    requires Legal(w, steps)
    ensures Legal(Flip(w), flipped) && Run(Flip(w), flipped) == Flip(Run(w, steps))
    decreases |steps|
  {
    flipped := [];
    if steps != [] {
      var rest := RunFlips(Next(w, steps[0]), steps[1..]);
      var first := match steps[0] case ByA(m) => ByB(m) case ByB(m) => ByA(m);
      assert Flip(Flip(w)) == w;
      assert Next(Flip(w), first) == Flip(Next(w, steps[0]));
      flipped := [first] + rest;
      assert flipped[1..] == rest;
    }
  }

  /** In every reachable state, a stub id of side a is live exactly if one of these holds: side b has a
      valid proxy for it that still has references, a reference to it is on its way to b, or its release
      is on its way back; never two of them. (By `ReachableFlips` the same holds for side b's stubs.) */
  lemma StubsMatchProxies(w: World, id: StubId)
    requires Reachable(w)
    ensures (if StandingOf(w.b, id).Alive? then 1 else 0) + Carried(w.toB, id) + Released(w.toA, id)
      == (if id in w.a.stubs then 1 else 0)
    ensures (if StandingOf(w.b, id).Dying? then 1 else 0)
      == multiset(w.toA)[Deallocate(id, true)] + multiset(w.toB)[DeallocateDone(id, true)]
  {
    ReachableInv(w);
    assert AccountedFor(w.a, w.b, w.toB, w.toA, id);
  }

  /** No assert() of the marshalers and of npobject_destroy_stub() fails: an item that names a stub of its
      receiver finds it, with its object alive, and a new proxy never takes the place of another. */
  lemma AssertsHold(w: World)
    requires Reachable(w)
    ensures !w.failed
    ensures w.toA != [] && (w.toA[0].ReceiverOwned? || w.toA[0].Deallocate?) ==> StubIsSound(w.a, w.toA[0].id)
    ensures w.toA != [] && w.toA[0].SenderOwned? ==> w.toA[0].id !in w.a.proxies
  {
    ReachableInv(w);
    if w.toA != [] {
      if w.toA[0].ReceiverOwned? || w.toA[0].Deallocate? {
        NamedStubExists(w);
        StubKeepsAlive(w.a, w.toA[0].id);
      } else if w.toA[0].SenderOwned? {
        CarriedIsAbsent(w);
      }
    }
  }

  /** A native object's count is its application references plus its stubs; it lives while that is not
      zero, and no stub points to freed memory. */
  lemma ReferencesAreConserved(w: World)
    requires Reachable(w)
    ensures forall p :: p in w.a.heap && w.a.heap[p].kind.Native? ==>
      w.a.heap[p].referenceCount == w.a.heap[p].held + StubCount(w.a.stubs, p) > 0
    ensures forall id :: id in w.a.stubs ==> w.a.stubs[id] in w.a.heap && w.a.heap[w.a.stubs[id]].kind.Native?
  {
    ReachableInv(w);
  }

  // --- Nothing leaks ---

  predicate NothingHeld(b: Bridge) {
    forall p :: p in b.heap ==> b.heap[p].held == 0
  }

  predicate IsEmpty(b: Bridge) {
    b.heap == map[] && b.stubs == map[] && b.proxies == map[]
  }

  lemma ProxiesAreGone(owner: Bridge, user: Bridge)
    requires Sound(user) && Half(owner, user, [], []) && NothingHeld(user)
    ensures user.proxies == map[] && forall p :: p in user.heap ==> user.heap[p].kind.Native?
  {
    forall p | p in user.heap ensures user.heap[p].kind.Native? {
      assert IsRegistered(user.heap, p, user.proxies) && Conserved(user.heap[p], StubCount(user.stubs, p));
      if user.heap[p].kind.Proxy? { assert AccountedFor(owner, user, [], [], user.heap[p].kind.id); }
    }
    assert user.proxies.Keys == {};
  }

  lemma StubsAreGone(owner: Bridge, user: Bridge)
    requires Sound(owner) && Half(owner, user, [], []) && NothingHeld(owner) && user.proxies == map[]
    requires forall p :: p in owner.heap ==> owner.heap[p].kind.Native?
    ensures owner.heap == map[] && owner.stubs == map[]
  {
    forall id ensures id !in owner.stubs {
      assert AccountedFor(owner, user, [], [], id);
    }
    assert owner.stubs.Keys == {};
    ObjectsAreGone(owner);
  }

  lemma ObjectsAreGone(b: Bridge)
    requires AllConserved(b.heap, b.stubs) && NothingHeld(b) && b.stubs == map[]
    requires forall p :: p in b.heap ==> b.heap[p].kind.Native?
    ensures b.heap == map[]
  {
    forall p ensures StubCount(b.stubs, p) == 0 { assert StubsOf(b.stubs, p) == {}; }
    assert b.heap.Keys == {};
  }

  lemma EmptyFromInv(w: World)
    requires Inv(w) && w.toA == [] && w.toB == [] && NothingHeld(w.a) && NothingHeld(w.b)
    ensures IsEmpty(w.a) && IsEmpty(w.b)
  {
    ProxiesAreGone(w.b, w.a);
    ProxiesAreGone(w.a, w.b);
    StubsAreGone(w.a, w.b);
    StubsAreGone(w.b, w.a);
  }

  /** Nothing leaks: when nothing is on its way and neither application holds a reference, no object, no stub
      and no proxy is left on either side. */
  lemma NothingLeaks(w: World)
    requires Reachable(w) && w.toA == [] && w.toB == []
    requires forall p :: p in w.a.heap ==> w.a.heap[p].held == 0
    requires forall p :: p in w.b.heap ==> w.b.heap[p].held == 0
    ensures w.a.heap == map[] && w.a.stubs == map[] && w.a.proxies == map[]
    ensures w.b.heap == map[] && w.b.stubs == map[] && w.b.proxies == map[]
  {
    ReachableInv(w);
    EmptyFromInv(w);
  }

  // --- Every stub is released at most once ---

  predicate IsReleaseOf(w: World, step: Step, id: StubId)
    requires Possible(w, step)
  {
    step.ByA? && step.m.MDeliver? && Releases(w.toA[0]) && w.toA[0].id == id
  }

  // How often a run delivers the release of side a's stub `id`.
  function TimesReleased(w: World, steps: seq<Step>, id: StubId): nat
    requires Legal(w, steps)
    decreases |steps|
  {
    if steps == [] then 0
    else (if IsReleaseOf(w, steps[0], id) then 1 else 0) + TimesReleased(Next(w, steps[0]), steps[1..], id)
  }

  // Receiving changes side a's stubs only by removing the one that a release names.
  lemma DeliveryOfStubs(w: World, at: Ptr)
    requires Inv(w) && Allowed(w, MDeliver(at))
    ensures var a' := Deliver(w, at).a;
      && a'.nextId == w.a.nextId
      && (Releases(w.toA[0]) ==> w.toA[0].id in w.a.stubs)
      && a'.stubs == if Releases(w.toA[0]) then w.a.stubs - {w.toA[0].id} else w.a.stubs
  {
    if w.toA[0].ReceiverOwned? || w.toA[0].Deallocate? {
      NamedStubExists(w);
      DestroyStubEffect(w.a, w.toA[0].id);
      RetainThenDestroy(w.a, w.toA[0].id);
    }
  }

  // Stub ids are not used twice: one that was given out and is not live stays so, and a release makes it so.
  lemma RetiredStaysRetired(w: World, step: Step, id: StubId)
    requires Inv(w) && Possible(w, step)
    ensures w.a.nextId <= Next(w, step).a.nextId
    ensures IsReleaseOf(w, step, id) ==> id in w.a.stubs && id !in Next(w, step).a.stubs
    ensures var a' := Next(w, step).a;
      id <= a'.nextId && id !in a'.stubs <==> (id <= w.a.nextId && id !in w.a.stubs) || IsReleaseOf(w, step, id)
  {
    hide Inv, Next, Deliver;
    StubIdsAreGivenOut(w);
    match step
    case ByA(m) =>
      if m.MDeliver? {
        DeliveryOfStubs(w, m.at);
        DeliverIsNext(w, m.at);
      } else {
        MoveOfStubs(w, m);
      }
    case ByB(m) => OtherSideStays(w, m);
  }

  lemma StubIdsAreGivenOut(w: World)
    requires Inv(w)
    ensures forall id :: id in w.a.stubs ==> id <= w.a.nextId
  {
  }

  lemma DeliverIsNext(w: World, at: Ptr)
    requires Allowed(w, MDeliver(at))
    ensures Next(w, ByA(MDeliver(at))) == Deliver(w, at)
  {
    hide Deliver;
  }

  lemma OtherSideStays(w: World, m: Move)
    requires Possible(w, ByB(m))
    ensures Next(w, ByB(m)).a == w.a
  {
    hide NpObjects.SendObject, NpObjects.Release;
  }

  // No other move takes a stub away, and sending may add one with the next id.
  lemma MoveOfStubs(w: World, m: Move)
    requires Inv(w) && Allowed(w, m) && !m.MDeliver?
    ensures var a' := Next(w, ByA(m)).a;
      || (a'.stubs == w.a.stubs && a'.nextId == w.a.nextId)
      || (a'.nextId == w.a.nextId + 1 && a'.stubs.Keys == w.a.stubs.Keys + {a'.nextId})
  {
    match m
    case MSend(p, passRef) =>
      if w.a.heap[p].kind.Native? { SendNativeEffect(w.a, p, passRef); } else { SendProxyEffect(w.a, p, passRef); }
    case MRelease(p) => ReleaseEffect(w.a, p);
    case _ =>
  }

  /** No stub is released twice, whether by a Deallocate call, by an invalidation or by a fused release; and the ids
      given out that are no longer live are those that were released. */
  lemma {:induction false} ReleasedAtMostOnce(w: World, steps: seq<Step>, id: StubId)
    requires Inv(w) && Legal(w, steps)
    ensures var a' := Run(w, steps).a;
      TimesReleased(w, steps, id) == (if id <= a'.nextId && id !in a'.stubs then 1 else 0)
                                   - (if id <= w.a.nextId && id !in w.a.stubs then 1 else 0)
    decreases |steps|
  {
    if steps != [] {
      RetiredStaysRetired(w, steps[0], id);
      StepKeepsInv(w, steps[0]);
      ReleasedAtMostOnce(Next(w, steps[0]), steps[1..], id);
    }
  }

  // --- What does not come up in a run ---

  /** A Deallocate call is answered whether its stub still exists or not, and leaves none. */
  lemma DeallocateIsAnswered(b: Bridge, id: StubId, destroying: bool)
    requires Sound(b)
    ensures var out := HandleDeallocate(b, id, destroying, true);
      out.sent == [DeallocateDone(id, destroying)] && out.bridge.stubs == b.stubs - {id}
    ensures id !in b.stubs ==> HandleDeallocate(b, id, destroying, true).bridge == b
  {
    if id in b.stubs { DestroyStubEffect(b, id); }
  }

  /** The assert() of the receiver fails exactly if the stub it is named is not there; otherwise the object it
      receives is the stub's, with one reference more, and the stub goes if its release was asked for. */
  lemma NamedStubsAreReceived(b: Bridge, id: StubId, releaseStub: bool, at: Ptr)
    requires Sound(b)
    ensures RecvObject(b, ReceiverOwned(id, releaseStub), at, true).None? <==> id !in b.stubs
    ensures id in b.stubs ==>
      var (out, p) := RecvObject(b, ReceiverOwned(id, releaseStub), at, true).value;
      && p == b.stubs[id] && out.sent == []
      && out.bridge.stubs == (if releaseStub then b.stubs - {id} else b.stubs)
      && p in b.heap && p in out.bridge.heap
      && out.bridge.heap[p].referenceCount == b.heap[p].referenceCount + (if releaseStub then 0 else 1)
  {
    if id in b.stubs {
      StubKeepsAlive(b, id);
      RetainThenDestroy(b, id);
    }
  }

  // --- When a call cannot be made ---

  // Dropping the last reference to a valid proxy is the one release that has to make a call.
  predicate NeedsCall(b: Bridge, p: Ptr)
    requires p in b.heap
  {
    b.heap[p].kind.Proxy? && b.heap[p].kind.isValid && b.heap[p].referenceCount == 1
  }

  /** A release made where rpc_method_invoke_possible() fails keeps stubs and proxies matched if and only
      if it is not the last one of a valid proxy: npclass_invoke_Deallocate() then returns silently, the
      proxy is freed, and its stub stays on the other side for good. */
  lemma ReleaseWithoutCall(w: World, p: Ptr, canInvoke: bool)
    requires Inv(w) && Allowed(w, MRelease(p))
    ensures Inv(Sending(w, Release(Give(w.a, p), p, canInvoke))) <==> canInvoke || !NeedsCall(w.a, p)
    ensures !canInvoke && NeedsCall(w.a, p) ==>
      var out := Release(Give(w.a, p), p, false);
      && out.sent == [] && out.bridge.heap == w.a.heap - {p}
      && out.bridge.proxies == w.a.proxies - {w.a.heap[p].kind.id}
      && out.bridge.stubs == w.a.stubs && out.bridge.nextId == w.a.nextId
  {
    if canInvoke || !NeedsCall(w.a, p) {
      KeepsRelease(w, p);
      assert Release(Give(w.a, p), p, canInvoke) == Release(Give(w.a, p), p, true);
    } else {
      var out, id := Release(Give(w.a, p), p, false), w.a.heap[p].kind.id;
      assert IsRegistered(w.a.heap, p, w.a.proxies);
      assert AccountedFor(w.b, w.a, w.toA, w.toB, id);
      assert w.toB + out.sent == w.toB;
      assert !AccountedFor(w.b, out.bridge, w.toA, w.toB, id);
    }
  }

  /** Likewise, invalidating a proxy where no call can be made loses its stub. */
  lemma InvalidateWithoutCall(w: World, p: Ptr, canInvoke: bool)
    requires Inv(w) && Allowed(w, MInvalidate(p))
    ensures Inv(Sending(w, Invalidate(w.a, p, canInvoke)))
      <==> canInvoke || !(w.a.heap[p].kind.Proxy? && w.a.heap[p].kind.isValid)
    ensures !canInvoke && w.a.heap[p].kind.Proxy? ==>
      var out, obj := Invalidate(w.a, p, false), w.a.heap[p];
      out.sent == [] && out.bridge == w.a.(heap := w.a.heap[p := obj.(kind := Proxy(obj.kind.id, false))])
  {
    if canInvoke || !(w.a.heap[p].kind.Proxy? && w.a.heap[p].kind.isValid) {
      KeepsInvalidate(w, p);
    } else {
      var out, id := Invalidate(w.a, p, false), w.a.heap[p].kind.id;
      assert Conserved(w.a.heap[p], StubCount(w.a.stubs, p));
      assert IsRegistered(w.a.heap, p, w.a.proxies);
      assert AccountedFor(w.b, w.a, w.toA, w.toB, id);
      assert w.toB + out.sent == w.toB;
      assert !AccountedFor(w.b, out.bridge, w.toA, w.toB, id);
    }
  }

  /** Such a release can come up: side b creates an object and sends it, and side a drops its only reference
      to the proxy where it cannot make a call. */
  lemma StubCanBeLost() returns (w: World)
    ensures Reachable(w) && Allowed(w, MRelease(2)) && NeedsCall(w.a, 2)
    ensures !Inv(Sending(w, Release(Give(w.a, 2), 2, false)))
  {
    var w1 := Next(START, ByB(MCreate(1)));
    var w2 := Next(w1, ByB(MSend(1, false)));
    w := Next(w2, ByA(MDeliver(2)));
    var steps := [ByB(MCreate(1)), ByB(MSend(1, false)), ByA(MDeliver(2))];
    assert steps[1..] == [ByB(MSend(1, false)), ByA(MDeliver(2))] && steps[1..][1..] == [ByA(MDeliver(2))];
    assert Legal(w2, [ByA(MDeliver(2))]) && Run(w2, [ByA(MDeliver(2))]) == w;
    assert Legal(w1, steps[1..]) && Run(w1, steps[1..]) == w;
    assert Legal(START, steps) && Run(START, steps) == w;
    ReachableInv(w);
    ReleaseWithoutCall(w, 2, false);
  }
}
