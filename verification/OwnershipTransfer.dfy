/** Handing a reference over in one message ("pass ref") against sending it plainly and releasing it
    afterwards. */
module OwnershipTransfer {
  import opened NpObjects
  import opened Ownership

  // Nothing concerning references is under way.
  predicate Still(w: World) {
    w.toA == [] && w.toB == []
  }

  // Nothing is under way but replies to Deallocate calls whose handlers have not returned: da are those of
  // side a, db those of side b.
  ghost predicate Quiet(w: World, da: seq<Item>, db: seq<Item>) {
    && Still(w)
    && (forall i :: 0 <= i < |da| ==> da[i].DeallocateDone?)
    && (forall i :: 0 <= i < |db| ==> db[i].DeallocateDone?)
    && Inv(w.(toB := da, toA := db))
  }

  // Side a can marshal the object at p, and side b can allocate at `at`.
  predicate CanTransfer(w: World, p: Ptr, at: Ptr) {
    Still(w) && Allowed(w, MSend(p, true)) && at !in w.b.heap
  }

  // One more step of a run that has come to `now`.
  lemma {:induction false} Extend(w: World, run: seq<Step>, now: World, s: Step, after: World)
    requires Legal(w, run) && Run(w, run) == now && Possible(now, s) && Next(now, s) == after
    ensures Legal(w, run + [s]) && Run(w, run + [s]) == after
    decreases |run|
  {
    hide Next, Possible;
    if run == [] {
      assert run + [s] == [s] && [s][1..] == [];
    } else {
      Extend(Next(w, run[0]), run[1..], now, s, after);
      assert (run + [s])[0] == run[0] && (run + [s])[1..] == run[1..] + [s];
    }
  }

  // One run after another.
  lemma {:induction false} Continue(w: World, first: seq<Step>, second: seq<Step>)
    requires Legal(w, first) && Legal(Run(w, first), second)
    ensures Legal(w, first + second) && Run(w, first + second) == Run(Run(w, first), second)
    decreases |first|
  {
    hide Next, Possible;
    if first == [] {
      assert first + second == second;
    } else {
      Continue(Next(w, first[0]), first[1..], second);
      assert (first + second)[0] == first[0] && (first + second)[1..] == first[1..] + second;
    }
  }

  // What the wrapper or viewer on side b makes of one item, when nothing else is under way.
  lemma DeliverToB(w: World, item: Item, at: Ptr)
    requires w.toB == [item] && w.toA == [] && at !in w.b.heap
    ensures Possible(w, ByB(MDeliver(at)))
    ensures var w' := Next(w, ByB(MDeliver(at)));
      match item
      case SenderOwned(id) =>
        w' == World(w.a, Gain(CreateProxy(w.b, at, id), at), [], [], w.failed)
      case ReceiverOwned(id, release) =>
        StubIsSound(w.b, id) && StubIsSound(Retain(w.b, w.b.stubs[id]), id) ==>
          var q, retained := w.b.stubs[id], Retain(w.b, w.b.stubs[id]);
          if !release then w' == World(w.a, Gain(retained, q), [], [], w.failed)
          else q in DestroyStub(retained, id, true).bridge.heap && DestroyStub(retained, id, true).sent == [] ==>
            w' == World(w.a, Gain(DestroyStub(retained, id, true).bridge, q), [], [], w.failed)
      case Deallocate(id, destroying) =>
        StubIsSound(w.b, id) && DestroyStub(w.b, id, true).sent == [] ==>
          w' == World(w.a, DestroyStub(w.b, id, true).bridge, [], [DeallocateDone(id, destroying)], w.failed)
      case DeallocateDone(_, _) => true
  {
    assert [item][1..] == [];
  }

  // Side a sends one reference, side b receives it, and becomes b'.
  lemma SendAndReceive(w: World, p: Ptr, passRef: bool, at: Ptr, out: Effect, item: Item, b': Bridge)
    requires CanTransfer(w, p, at)
    requires out == SendObject(if passRef then Give(w.a, p) else w.a, p, passRef, true) && out.sent == [item]
    requires Possible(Sending(w, out), ByB(MDeliver(at)))
    requires Next(Sending(w, out), ByB(MDeliver(at))) == World(out.bridge, b', [], [], w.failed)
    ensures var run := [ByA(MSend(p, passRef)), ByB(MDeliver(at))];
      Legal(w, run) && Run(w, run) == World(out.bridge, b', [], [], w.failed)
  {
    var sent := Sending(w, out);
    Extend(w, [], w, ByA(MSend(p, passRef)), sent);
    assert [] + [ByA(MSend(p, passRef))] == [ByA(MSend(p, passRef))];
    Extend(w, [ByA(MSend(p, passRef))], sent, ByB(MDeliver(at)), World(out.bridge, b', [], [], w.failed));
    assert [ByA(MSend(p, passRef))] + [ByB(MDeliver(at))] == [ByA(MSend(p, passRef)), ByB(MDeliver(at))];
  }

  lemma ReleaseAfterwards(w: World, p: Ptr, at: Ptr, now: World, a': Bridge, sent: seq<Item>)
    requires var run := [ByA(MSend(p, false)), ByB(MDeliver(at))]; Legal(w, run) && Run(w, run) == now
    requires Allowed(now, MRelease(p)) && Release(Give(now.a, p), p, true) == Effect(a', sent) && now.toB == []
    ensures var run := [ByA(MSend(p, false)), ByB(MDeliver(at)), ByA(MRelease(p))];
      Legal(w, run) && Run(w, run) == now.(a := a', toB := sent)
  {
    var run := [ByA(MSend(p, false)), ByB(MDeliver(at))];
    assert now.toB + sent == sent;
    Extend(w, run, now, ByA(MRelease(p)), now.(a := a', toB := sent));
    assert run + [ByA(MRelease(p))] == [ByA(MSend(p, false)), ByB(MDeliver(at)), ByA(MRelease(p))];
  }

  function Fused(p: Ptr, at: Ptr): seq<Step> {
    [ByA(MSend(p, true)), ByB(MDeliver(at))]
  }

  function Plain(p: Ptr, at: Ptr): seq<Step> {
    [ByA(MSend(p, false)), ByB(MDeliver(at)), ByA(MRelease(p))]
  }

  lemma FusedNative(w: World, p: Ptr, at: Ptr)
    requires CanTransfer(w, p, at) && w.a.heap[p].kind.Native?
    ensures Legal(w, Fused(p, at)) && Legal(w, Plain(p, at))
    ensures Run(w, Fused(p, at)) == Run(w, Plain(p, at)) && Still(Run(w, Plain(p, at)))
  {
    var item, b' := SenderOwned(w.a.nextId + 1), Gain(CreateProxy(w.b, at, w.a.nextId + 1), at);
    var fused, plain := SendObject(Give(w.a, p), p, true, true), SendObject(w.a, p, false, true);
    SendNativeWithReference(w.a, p, true);
    DeliverToB(Sending(w, fused), item, at);
    SendAndReceive(w, p, true, at, fused, item, b');
    DeliverToB(Sending(w, plain), item, at);
    SendAndReceive(w, p, false, at, plain, item, b');
    NativeReleasedAfterwards(w.a, p);
    ReleaseAfterwards(w, p, at, World(plain.bridge, b', [], [], w.failed), fused.bridge, []);
  }

  lemma NativeReleasedAfterwards(b: Bridge, p: Ptr)
    requires p in b.heap && b.heap[p].kind.Native? && b.heap[p].held > 0 && b.heap[p].referenceCount > 0
    ensures Release(Give(CreateStub(b, p), p), p, true) == Effect(SendObject(Give(b, p), p, true, true).bridge, [])
  {
    var stubbed := CreateStub(b, p);
    SendNativeWithReference(b, p, true);
    ReleaseOfNative(Give(stubbed, p), p, true);
    assert Give(stubbed, p).heap[p := OneLess(Give(stubbed, p).heap[p])]
      == stubbed.heap[p := OneHandedOver(stubbed.heap[p])];
  }

  lemma FusedSharedProxy(w: World, da: seq<Item>, db: seq<Item>, p: Ptr, at: Ptr)
    requires Quiet(w, da, db) && CanTransfer(w, p, at) && w.a.heap[p].kind.Proxy? && w.a.heap[p].referenceCount > 1
    ensures Legal(w, Fused(p, at)) && Legal(w, Plain(p, at))
    ensures Run(w, Fused(p, at)) == Run(w, Plain(p, at)) && Still(Run(w, Plain(p, at)))
  {
    ProxyHasStub(w.(toB := da, toA := db), p);
    var item, q := ReceiverOwned(w.a.heap[p].kind.id, false), w.b.stubs[w.a.heap[p].kind.id];
    var b' := Gain(Retain(w.b, q), q);
    var fused, plain := SendObject(Give(w.a, p), p, true, true), SendObject(w.a, p, false, true);
    assert fused.sent == [item] && plain.sent == [item];
    DeliverToB(Sending(w, fused), item, at);
    SendAndReceive(w, p, true, at, fused, item, b');
    DeliverToB(Sending(w, plain), item, at);
    SendAndReceive(w, p, false, at, plain, item, b');
    ReleaseAfterwards(w, p, at, World(plain.bridge, b', [], [], w.failed), fused.bridge, []);
  }

  // A valid proxy in use has its stub on the other side.
  lemma ProxyHasStub(w: World, p: Ptr)
    requires Inv(w) && p in w.a.heap
    requires w.a.heap[p].kind.Proxy? && w.a.heap[p].kind.isValid && w.a.heap[p].referenceCount > 0
    ensures var id := w.a.heap[p].kind.id;
      && id in w.a.proxies && w.a.proxies[id] == p
      && id in w.b.stubs && StubIsSound(w.b, id) && StubIsSound(Retain(w.b, w.b.stubs[id]), id)
      && StubIsSound(Gain(Retain(w.b, w.b.stubs[id]), w.b.stubs[id]), id)
      && var q, retained := w.b.stubs[id], Retain(w.b, w.b.stubs[id]);
        && q in DestroyStub(retained, id, true).bridge.heap && DestroyStub(retained, id, true).sent == []
        && Gain(DestroyStub(retained, id, true).bridge, q) == DestroyStub(Gain(retained, q), id, true).bridge
        && DestroyStub(Gain(retained, q), id, true).sent == []
  {
    var id := w.a.heap[p].kind.id;
    assert IsRegistered(w.a.heap, p, w.a.proxies);
    assert AccountedFor(w.b, w.a, w.toA, w.toB, id);
    RetainThenDestroy(w.b, id);
    GainAfterRetain(w.b, id);
    DestroyStubEffect(Gain(Retain(w.b, w.b.stubs[id]), w.b.stubs[id]), id);
  }

  function PlainWithCall(p: Ptr, at: Ptr, spareB: Ptr, spareA: Ptr): seq<Step> {
    Plain(p, at) + [ByB(MDeliver(spareB)), ByA(MDeliver(spareA))]
  }

  lemma LastProxyFreed(b: Bridge, p: Ptr)
    requires Sound(b) && p in b.heap && b.heap[p].kind.Proxy? && b.heap[p].kind.isValid
    requires b.heap[p].held == b.heap[p].referenceCount == 1
    ensures var id, dying := b.heap[p].kind.id, WithCount(Give(b, p), p, 0);
      && SendObject(Give(b, p), p, true, true) == Effect(FreeProxy(dying, p), [ReceiverOwned(id, true)])
      && Release(Give(b, p), p, true) == Effect(dying, [Deallocate(id, true)])
      && id in dying.proxies && dying.proxies[id] == p && p in dying.heap && dying.heap[p].kind.Proxy?
  {
    assert IsRegistered(b.heap, p, b.proxies);
    assert FreeProxy(WithCount(Give(b, p), p, 0), p).heap == FreeProxy(Give(b, p), p).heap;
  }

  // The Deallocate call that a release started: its handler on side b and its return to side a.
  lemma CallAndReturn(w: World, run: seq<Step>, now: World, id: StubId, spareB: Ptr, spareA: Ptr)
    requires Legal(w, run) && Run(w, run) == now && now.toA == [] && now.toB == [Deallocate(id, true)]
    requires spareB !in now.b.heap && spareA !in now.a.heap
    requires StubIsSound(now.b, id) && DestroyStub(now.b, id, true).sent == []
    requires id in now.a.proxies && now.a.proxies[id] in now.a.heap && now.a.heap[now.a.proxies[id]].kind.Proxy?
    ensures var run' := run + [ByB(MDeliver(spareB)), ByA(MDeliver(spareA))];
      Legal(w, run') && Run(w, run') ==
        World(FreeProxy(now.a, now.a.proxies[id]), DestroyStub(now.b, id, true).bridge, [], [], now.failed)
  {
    DeliverToB(now, Deallocate(id, true), spareB);
    var called := World(now.a, DestroyStub(now.b, id, true).bridge, [], [DeallocateDone(id, true)], now.failed);
    Extend(w, run, now, ByB(MDeliver(spareB)), called);
    var returned := World(FreeProxy(now.a, now.a.proxies[id]), called.b, [], [], now.failed);
    assert [DeallocateDone(id, true)][1..] == [];
    Extend(w, run + [ByB(MDeliver(spareB))], called, ByA(MDeliver(spareA)), returned);
    assert run + [ByB(MDeliver(spareB))] + [ByA(MDeliver(spareA))]
        == run + [ByB(MDeliver(spareB)), ByA(MDeliver(spareA))];
  }

  // The state that handing over the last reference to the proxy at p leads to.
  function HandedOver(w: World, p: Ptr): World
    requires p in w.a.heap && w.a.heap[p].kind.Proxy? && w.a.heap[p].held > 0 && w.a.heap[p].kind.id in w.b.stubs
    requires var q := w.b.stubs[w.a.heap[p].kind.id];
      q in w.b.heap && StubIsSound(Gain(Retain(w.b, q), q), w.a.heap[p].kind.id)
  {
    var id, q := w.a.heap[p].kind.id, w.b.stubs[w.a.heap[p].kind.id];
    World(FreeProxy(WithCount(Give(w.a, p), p, 0), p),
          DestroyStub(Gain(Retain(w.b, q), q), id, true).bridge, [], [], w.failed)
  }

  lemma LastProxyFused(w: World, da: seq<Item>, db: seq<Item>, p: Ptr, at: Ptr)
    requires Quiet(w, da, db) && CanTransfer(w, p, at) && w.a.heap[p].kind.Proxy? && w.a.heap[p].referenceCount == 1
    ensures HandedOver.requires(w, p) && Legal(w, Fused(p, at)) && Run(w, Fused(p, at)) == HandedOver(w, p)
  {
    assert Conserved(w.a.heap[p], StubCount(w.a.stubs, p));
    ProxyHasStub(w.(toB := da, toA := db), p);
    LastProxyFreed(w.a, p);
    var item, fused := ReceiverOwned(w.a.heap[p].kind.id, true), SendObject(Give(w.a, p), p, true, true);
    DeliverToB(Sending(w, fused), item, at);
    SendAndReceive(w, p, true, at, fused, item, HandedOver(w, p).b);
  }

  lemma LastProxyPlain(w: World, da: seq<Item>, db: seq<Item>, p: Ptr, at: Ptr, spareB: Ptr, spareA: Ptr)
    requires Quiet(w, da, db) && CanTransfer(w, p, at) && w.a.heap[p].kind.Proxy? && w.a.heap[p].referenceCount == 1
    requires spareB !in w.b.heap && spareA !in w.a.heap
    ensures HandedOver.requires(w, p)
    ensures Legal(w, PlainWithCall(p, at, spareB, spareA))
      && Run(w, PlainWithCall(p, at, spareB, spareA)) == HandedOver(w, p)
  {
    assert Conserved(w.a.heap[p], StubCount(w.a.stubs, p));
    ProxyHasStub(w.(toB := da, toA := db), p);
    LastProxyFreed(w.a, p);
    var id := w.a.heap[p].kind.id;
    var kept, dying := Gain(Retain(w.b, w.b.stubs[id]), w.b.stubs[id]), WithCount(Give(w.a, p), p, 0);
    var plain := SendObject(w.a, p, false, true);
    DeliverToB(Sending(w, plain), ReceiverOwned(id, false), at);
    SendAndReceive(w, p, false, at, plain, ReceiverOwned(id, false), kept);
    ReleaseAfterwards(w, p, at, World(w.a, kept, [], [], w.failed), dying, [Deallocate(id, true)]);
    CallAndReturn(w, Plain(p, at), World(dying, kept, [Deallocate(id, true)], [], w.failed), id, spareB, spareA);
  }

  /** Sending an object with its reference leaves both sides' objects, counts, stubs and proxies exactly as
      sending it and releasing it afterwards would. When the sender gives up its last reference to a proxy,
      the one fused message also does the work of the Deallocate call that the release would have made. */
  lemma FusedTransferRefinesPlain(w: World, da: seq<Item>, db: seq<Item>, p: Ptr, at: Ptr, spareB: Ptr, spareA: Ptr)
    returns (plain: seq<Step>)
    requires Quiet(w, da, db) && CanTransfer(w, p, at) && spareB !in w.b.heap && spareA !in w.a.heap
    ensures plain == if w.a.heap[p].kind.Proxy? && w.a.heap[p].referenceCount == 1
                     then PlainWithCall(p, at, spareB, spareA) else Plain(p, at)
    ensures Legal(w, Fused(p, at)) && Legal(w, plain) && Run(w, Fused(p, at)) == Run(w, plain)
    ensures Still(Run(w, plain))
  {
    if w.a.heap[p].kind.Native? {
      FusedNative(w, p, at);
      plain := Plain(p, at);
    } else if w.a.heap[p].referenceCount > 1 {
      FusedSharedProxy(w, da, db, p, at);
      plain := Plain(p, at);
    } else {
      LastProxyFused(w, da, db, p, at);
      LastProxyPlain(w, da, db, p, at, spareB, spareA);
      plain := PlainWithCall(p, at, spareB, spareA);
    }
  }
}
