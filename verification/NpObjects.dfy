/** NPObjects, stubs and proxies on one side of the connection, as values (src/npruntime.c and the
    NPObject marshalers of src/npw-rpc.c).

    `heap` maps pointers to the NPObjects allocated on this side. `stubs` and `proxies` are the tables
    g_stubs and g_proxies. `held` is for specification only: the number of references to the object that
    the application on this side (the browser or the plugin) owns. */
module NpObjects {
  import opened Wrappers

  type Ptr = nat
  type StubId = nat

  datatype Kind = Native | Proxy(id: StubId, isValid: bool)

  datatype NPObject = NPObject(referenceCount: nat, kind: Kind, held: nat)

  datatype Bridge = Bridge(
    heap: map<Ptr, NPObject>,
    stubs: map<StubId, Ptr>,
    proxies: map<StubId, Ptr>,
    nextId: nat)

  // What reaches the other side that concerns references: an object reference inside an argument list
  // or a reply, a call of NPClass::Deallocate, and the reply to one. `destroying` says which function
  // made the call, npobject_destroy_proxy() or g_NPClass_Invalidate(); the reply returns to it.
  datatype Item =
    | SenderOwned(id: StubId)
    | ReceiverOwned(id: StubId, releaseStub: bool)
    | Deallocate(id: StubId, destroying: bool)
    | DeallocateDone(id: StubId, destroying: bool)

  datatype Effect = Effect(bridge: Bridge, sent: seq<Item>)

  const EMPTY := Bridge(map[], map[], map[], 0)

  function WithCount(b: Bridge, p: Ptr, count: nat): Bridge
    requires p in b.heap
  {
    b.(heap := b.heap[p := b.heap[p].(referenceCount := count)])
  }

  // NPN_RetainObject()
  function Retain(b: Bridge, p: Ptr): Bridge
    requires p in b.heap
  {
    WithCount(b, p, b.heap[p].referenceCount + 1)
  }

  // The end of npobject_destroy_proxy(): unregister the proxy and free it.
  function FreeProxy(b: Bridge, p: Ptr): Bridge
    requires p in b.heap && b.heap[p].kind.Proxy?
  {
    b.(heap := b.heap - {p}, proxies := b.proxies - {b.heap[p].kind.id})
  }

  // npobject_destroy_proxy(). A Deallocate call that can be made blocks; FreeProxy follows its reply.
  // `canInvoke` is rpc_method_invoke_possible().
  function DestroyProxy(b: Bridge, p: Ptr, releaseStub: bool, canInvoke: bool): Effect
    requires p in b.heap && b.heap[p].kind.Proxy?
  {
    if releaseStub && b.heap[p].kind.isValid && canInvoke then Effect(b, [Deallocate(b.heap[p].kind.id, true)])
    else Effect(FreeProxy(b, p), [])
  }

  // NPN_ReleaseObject()
  function Release(b: Bridge, p: Ptr, canInvoke: bool): Effect
    requires p in b.heap && b.heap[p].referenceCount > 0
  {
    var b' := WithCount(b, p, b.heap[p].referenceCount - 1);
    if b'.heap[p].referenceCount > 0 then Effect(b', [])
    else if b'.heap[p].kind.Native? then Effect(b'.(heap := b'.heap - {p}), [])
    else DestroyProxy(b', p, true, canInvoke)
  }

  // npobject_create_stub(): the stub takes a reference, under the next id.
  function CreateStub(b: Bridge, p: Ptr): Bridge
    requires p in b.heap
  {
    Retain(b, p).(stubs := b.stubs[b.nextId + 1 := p], nextId := b.nextId + 1)
  }

  predicate StubIsSound(b: Bridge, id: StubId) {
    id in b.stubs && b.stubs[id] in b.heap && b.heap[b.stubs[id]].referenceCount > 0
  }

  // npobject_destroy_stub_obj()
  function DestroyStub(b: Bridge, id: StubId, canInvoke: bool): Effect
    requires StubIsSound(b, id)
  {
    Release(b.(stubs := b.stubs - {id}), b.stubs[id], canInvoke)
  }

  // npobject_create_proxy(), at a freshly allocated pointer
  function CreateProxy(b: Bridge, p: Ptr, id: StubId): Bridge {
    b.(heap := b.heap[p := NPObject(1, Proxy(id, true), 0)], proxies := b.proxies[id := p])
  }

  // g_NPClass_Invalidate()
  function Invalidate(b: Bridge, p: Ptr, canInvoke: bool): Effect
    requires p in b.heap
  {
    var obj := b.heap[p];
    if obj.kind.Proxy? && obj.kind.isValid then
      Effect(b.(heap := b.heap[p := obj.(kind := Proxy(obj.kind.id, false))]),
             if canInvoke then [Deallocate(obj.kind.id, false)] else [])
    else Effect(b, [])
  }

  // do_send_NPObject_helper() for an object other than NULL. With passRef the caller's reference goes
  // along. The last of the sent items is the reference itself; any item before it would be a call made
  // in the middle of the message.
  function SendObject(b: Bridge, p: Ptr, passRef: bool, canInvoke: bool): Effect
    requires p in b.heap && b.heap[p].referenceCount > 0
  {
    match b.heap[p].kind
    case Native =>
      var id := b.nextId + 1;
      if passRef then
        var released := Release(CreateStub(b, p), p, canInvoke);
        Effect(released.bridge, released.sent + [SenderOwned(id)])
      else Effect(CreateStub(b, p), [SenderOwned(id)])
    case Proxy(id, _) =>
      if !passRef then Effect(b, [ReceiverOwned(id, false)])
      else if b.heap[p].referenceCount == 1 then
        var destroyed := DestroyProxy(b, p, false, canInvoke);
        Effect(destroyed.bridge, destroyed.sent + [ReceiverOwned(id, true)])
      else
        var released := Release(b, p, canInvoke);
        Effect(released.bridge, released.sent + [ReceiverOwned(id, false)])
  }

  // do_recv_NPObject_helper(): the new state and the object received, or None if an assert() fails.
  function RecvObject(b: Bridge, item: Item, at: Ptr, canInvoke: bool): Option<(Effect, Ptr)> {
    match item
    case SenderOwned(id) => Some((Effect(CreateProxy(b, at, id), []), at))
    case ReceiverOwned(id, releaseStub) =>
      if !StubIsSound(b, id) then None
      else
        var retained := Retain(b, b.stubs[id]);
        Some((if releaseStub then DestroyStub(retained, id, canInvoke) else Effect(retained, []), b.stubs[id]))
    case _ => None
  }

  // npclass_handle_Deallocate()
  function HandleDeallocate(b: Bridge, id: StubId, destroying: bool, canInvoke: bool): Effect {
    if !StubIsSound(b, id) then Effect(b, [DeallocateDone(id, destroying)])
    else
      var destroyed := DestroyStub(b, id, canInvoke);
      Effect(destroyed.bridge, destroyed.sent + [DeallocateDone(id, destroying)])
  }

  // The application comes to own one reference more, or one less.
  function Gain(b: Bridge, p: Ptr): Bridge
    requires p in b.heap
  {
    b.(heap := b.heap[p := b.heap[p].(held := b.heap[p].held + 1)])
  }

  function Give(b: Bridge, p: Ptr): Bridge
    requires p in b.heap && b.heap[p].held > 0
  {
    b.(heap := b.heap[p := b.heap[p].(held := b.heap[p].held - 1)])
  }

  function OneLess(obj: NPObject): NPObject
    requires obj.referenceCount > 0
  {
    obj.(referenceCount := obj.referenceCount - 1)
  }

  // The state after the last but one reference, or the last one, to a native object is dropped.
  lemma ReleaseOfNative(b: Bridge, p: Ptr, canInvoke: bool)
    requires p in b.heap && b.heap[p].kind.Native? && b.heap[p].referenceCount > 0
    ensures Release(b, p, canInvoke) ==
      Effect(b.(heap := if b.heap[p].referenceCount > 1 then b.heap[p := OneLess(b.heap[p])] else b.heap - {p}), [])
  {
    assert b.heap[p := OneLess(b.heap[p])] - {p} == b.heap - {p};
  }

  // --- What a sound side looks like ---

  ghost function StubsOf(stubs: map<StubId, Ptr>, p: Ptr): set<StubId> {
    set id | id in stubs && stubs[id] == p
  }

  ghost function StubCount(stubs: map<StubId, Ptr>, p: Ptr): nat {
    |StubsOf(stubs, p)|
  }

  // Reference conservation: the application's references and one for each stub, and nothing else. (A
  // proxy without references waits for the reply to its Deallocate call.)
  predicate Conserved(obj: NPObject, stubCount: nat) {
    match obj.kind
    case Native => obj.referenceCount == obj.held + stubCount && obj.referenceCount > 0
    case Proxy(_, _) => obj.referenceCount == obj.held
  }

  type Heap = map<Ptr, NPObject>

  ghost predicate AllConserved(heap: Heap, stubs: map<StubId, Ptr>) {
    forall p :: p in heap ==> Conserved(heap[p], StubCount(stubs, p))
  }

  predicate StubsPinNatives(heap: Heap, stubs: map<StubId, Ptr>, nextId: nat) {
    forall id :: id in stubs ==> 0 < id <= nextId && stubs[id] in heap && heap[stubs[id]].kind.Native?
  }

  predicate IsProxyFor(heap: Heap, p: Ptr, id: StubId) {
    p in heap && heap[p].kind.Proxy? && heap[p].kind.id == id
  }

  predicate IsRegistered(heap: Heap, p: Ptr, proxies: map<StubId, Ptr>)
    requires p in heap
  {
    heap[p].kind.Proxy? ==> heap[p].kind.id in proxies && proxies[heap[p].kind.id] == p
  }

  predicate ProxiesRegistered(heap: Heap, proxies: map<StubId, Ptr>) {
    && (forall id :: id in proxies ==> IsProxyFor(heap, proxies[id], id))
    && (forall p :: p in heap ==> IsRegistered(heap, p, proxies))
  }

  ghost predicate Sound(b: Bridge) {
    AllConserved(b.heap, b.stubs) && StubsPinNatives(b.heap, b.stubs, b.nextId) && ProxiesRegistered(b.heap, b.proxies)
  }

  lemma StubCountAfterCreate(stubs: map<StubId, Ptr>, id: StubId, p: Ptr, q: Ptr)
    requires id !in stubs
    ensures StubCount(stubs[id := p], q) == StubCount(stubs, q) + (if p == q then 1 else 0)
  {
    if p == q {
      assert StubsOf(stubs[id := p], q) == StubsOf(stubs, q) + {id};
    } else {
      assert StubsOf(stubs[id := p], q) == StubsOf(stubs, q);
    }
  }

  lemma StubCountAfterDestroy(stubs: map<StubId, Ptr>, id: StubId, q: Ptr)
    requires id in stubs
    ensures StubCount(stubs, q) == StubCount(stubs - {id}, q) + (if stubs[id] == q then 1 else 0)
  {
    if stubs[id] == q {
      assert StubsOf(stubs, q) == StubsOf(stubs - {id}, q) + {id};
    } else {
      assert StubsOf(stubs, q) == StubsOf(stubs - {id}, q);
    }
  }

  lemma StubCountPositive(stubs: map<StubId, Ptr>, id: StubId)
    requires id in stubs
    ensures StubCount(stubs, stubs[id]) > 0
  {
    assert id in StubsOf(stubs, stubs[id]);
  }

  // A reference held by a stub keeps the object alive.
  lemma StubKeepsAlive(b: Bridge, id: StubId)
    requires Sound(b) && id in b.stubs
    ensures StubIsSound(b, id)
    ensures b.heap[b.stubs[id]].referenceCount > b.heap[b.stubs[id]].held
  {
    StubCountPositive(b.stubs, id);
  }

  // --- Each operation keeps its side sound ---

  predicate SameKind(a: NPObject, b: NPObject) {
    a.kind.Native? == b.kind.Native? && (a.kind.Proxy? ==> a.kind.id == b.kind.id)
  }

  lemma UpdateKeepsRegistered(heap: Heap, proxies: map<StubId, Ptr>, p: Ptr, obj: NPObject)
    requires ProxiesRegistered(heap, proxies) && p in heap && SameKind(obj, heap[p])
    ensures ProxiesRegistered(heap[p := obj], proxies)
  {
    var heap' := heap[p := obj];
    forall q | q in heap' ensures IsRegistered(heap', q, proxies) {
      assert IsRegistered(heap, q, proxies);
    }
  }

  lemma RemovalKeepsRegistered(heap: Heap, proxies: map<StubId, Ptr>, p: Ptr)
    requires ProxiesRegistered(heap, proxies) && p in heap
    ensures heap[p].kind.Native? ==> ProxiesRegistered(heap - {p}, proxies)
    ensures heap[p].kind.Proxy? ==> ProxiesRegistered(heap - {p}, proxies - {heap[p].kind.id})
  {
    forall q | q in heap ensures IsRegistered(heap, q, proxies) {}
  }

  lemma NewProxyIsRegistered(heap: Heap, proxies: map<StubId, Ptr>, p: Ptr, obj: NPObject)
    requires ProxiesRegistered(heap, proxies) && p !in heap && obj.kind.Proxy? && obj.kind.id !in proxies
    ensures ProxiesRegistered(heap[p := obj], proxies[obj.kind.id := p])
  {
    var heap', proxies' := heap[p := obj], proxies[obj.kind.id := p];
    forall i | i in proxies' ensures IsProxyFor(heap', proxies'[i], i) {
      if i != obj.kind.id { assert IsProxyFor(heap, proxies[i], i); }
    }
    forall q | q in heap' ensures IsRegistered(heap', q, proxies') {
      if q != p { assert IsRegistered(heap, q, proxies); }
    }
  }

  lemma NewNativeIsRegistered(heap: Heap, proxies: map<StubId, Ptr>, p: Ptr, obj: NPObject)
    requires ProxiesRegistered(heap, proxies) && p !in heap && obj.kind.Native?
    ensures ProxiesRegistered(heap[p := obj], proxies)
  {
    var heap' := heap[p := obj];
    forall q | q in heap' ensures IsRegistered(heap', q, proxies) {
      if q != p { assert IsRegistered(heap, q, proxies); }
    }
  }

  lemma UpdateConserves(heap: Heap, stubs: map<StubId, Ptr>, nextId: nat, p: Ptr, obj: NPObject)
    requires AllConserved(heap, stubs) && StubsPinNatives(heap, stubs, nextId)
    requires Conserved(obj, StubCount(stubs, p)) && (p in heap ==> SameKind(obj, heap[p]))
    ensures AllConserved(heap[p := obj], stubs) && StubsPinNatives(heap[p := obj], stubs, nextId)
  {
  }

  lemma UpdateKeepsSound(b: Bridge, p: Ptr, obj: NPObject)
    requires Sound(b) && p in b.heap && Conserved(obj, StubCount(b.stubs, p)) && SameKind(obj, b.heap[p])
    ensures Sound(b.(heap := b.heap[p := obj]))
  {
    UpdateKeepsRegistered(b.heap, b.proxies, p, obj);
    UpdateConserves(b.heap, b.stubs, b.nextId, p, obj);
  }

  lemma FreeKeepsSound(b: Bridge, p: Ptr)
    requires Sound(b) && p in b.heap && b.heap[p].kind.Native? && StubCount(b.stubs, p) == 0
    ensures Sound(b.(heap := b.heap - {p}))
  {
    RemovalKeepsRegistered(b.heap, b.proxies, p);
    forall id | id in b.stubs ensures b.stubs[id] != p {
      StubCountPositive(b.stubs, id);
    }
  }

  lemma RetainKeepsSound(b: Bridge, p: Ptr)
    requires Sound(b) && p in b.heap && b.heap[p].referenceCount > 0
    ensures Sound(Gain(Retain(b, p), p))
  {
    var b' := Gain(Retain(b, p), p);
    assert b'.heap == b.heap[p := b'.heap[p]];
    UpdateKeepsSound(b, p, b'.heap[p]);
  }

  lemma CreateKeepsSound(b: Bridge, p: Ptr)
    requires Sound(b) && p !in b.heap
    ensures Sound(b.(heap := b.heap[p := NPObject(1, Native, 1)]))
  {
    assert StubsOf(b.stubs, p) == {};
    NewNativeIsRegistered(b.heap, b.proxies, p, NPObject(1, Native, 1));
    UpdateConserves(b.heap, b.stubs, b.nextId, p, NPObject(1, Native, 1));
  }

  lemma ReleaseKeepsSound(b: Bridge, p: Ptr, canInvoke: bool)
    requires Sound(b) && p in b.heap && b.heap[p].held > 0
    ensures b.heap[p].referenceCount > 0
    ensures Sound(Release(Give(b, p), p, canInvoke).bridge)
  {
    assert Conserved(b.heap[p], StubCount(b.stubs, p));
    if b.heap[p].kind.Native? {
      ReleaseOfNativeKeepsSound(b, p, canInvoke);
    } else {
      ReleaseOfProxyKeepsSound(b, p, canInvoke);
    }
  }

  lemma ReleaseOfNativeKeepsSound(b: Bridge, p: Ptr, canInvoke: bool)
    requires Sound(b) && p in b.heap && b.heap[p].kind.Native? && b.heap[p].held > 0 && b.heap[p].referenceCount > 0
    ensures Sound(Release(Give(b, p), p, canInvoke).bridge)
  {
    var given := Give(b, p);
    ReleaseOfNative(given, p, canInvoke);
    if b.heap[p].referenceCount > 1 {
      var obj := OneLess(given.heap[p]);
      assert given.heap[p := obj] == b.heap[p := obj];
      UpdateKeepsSound(b, p, obj);
    } else {
      assert given.heap - {p} == b.heap - {p};
      FreeKeepsSound(b, p);
    }
  }

  lemma ReleaseOfProxyKeepsSound(b: Bridge, p: Ptr, canInvoke: bool)
    requires Sound(b) && p in b.heap && b.heap[p].kind.Proxy? && b.heap[p].held > 0 && b.heap[p].referenceCount > 0
    ensures Sound(Release(Give(b, p), p, canInvoke).bridge)
  {
    var obj, b' := OneLess(b.heap[p]).(held := b.heap[p].held - 1), Release(Give(b, p), p, canInvoke).bridge;
    if p in b'.heap {
      assert b'.heap == b.heap[p := obj];
      UpdateKeepsSound(b, p, obj);
    } else {
      assert b' == FreeProxy(b, p);
      FreeProxyKeepsSound(b, p);
    }
  }

  lemma CreateStubConserves(heap: Heap, stubs: map<StubId, Ptr>, id: StubId, p: Ptr)
    requires AllConserved(heap, stubs) && p in heap && heap[p].kind.Native? && id !in stubs
    ensures AllConserved(heap[p := heap[p].(referenceCount := heap[p].referenceCount + 1)], stubs[id := p])
  {
    forall q ensures StubCount(stubs[id := p], q) == StubCount(stubs, q) + (if p == q then 1 else 0) {
      StubCountAfterCreate(stubs, id, p, q);
    }
  }

  lemma CreateStubKeepsSound(b: Bridge, p: Ptr)
    requires Sound(b) && p in b.heap && b.heap[p].kind.Native?
    ensures Sound(CreateStub(b, p))
  {
    assert b.nextId + 1 !in b.stubs;
    var b' := CreateStub(b, p);
    assert b'.heap == b.heap[p := b.heap[p].(referenceCount := b.heap[p].referenceCount + 1)];
    assert b'.stubs == b.stubs[b.nextId + 1 := p] && b'.proxies == b.proxies;
    assert StubsPinNatives(b'.heap, b'.stubs, b'.nextId);
    CreateStubConserves(b.heap, b.stubs, b.nextId + 1, p);
    UpdateKeepsRegistered(b.heap, b.proxies, p, b.heap[p].(referenceCount := b.heap[p].referenceCount + 1));
  }

  lemma DestroyStubOfMany(heap: Heap, stubs: map<StubId, Ptr>, id: StubId, obj: NPObject)
    requires AllConserved(heap, stubs) && id in stubs && stubs[id] in heap && heap[stubs[id]].kind.Native?
    requires heap[stubs[id]].referenceCount > 1
    requires obj == heap[stubs[id]].(referenceCount := heap[stubs[id]].referenceCount - 1)
    ensures AllConserved(heap[stubs[id] := obj], stubs - {id})
  {
    var heap', stubs' := heap[stubs[id] := obj], stubs - {id};
    forall q | q in heap' ensures Conserved(heap'[q], StubCount(stubs', q)) {
      StubCountAfterDestroy(stubs, id, q);
    }
  }

  lemma OnlyStubIsAlone(heap: Heap, stubs: map<StubId, Ptr>, id: StubId)
    requires AllConserved(heap, stubs) && id in stubs && stubs[id] in heap && heap[stubs[id]].kind.Native?
    requires heap[stubs[id]].referenceCount == 1
    ensures StubCount(stubs - {id}, stubs[id]) == 0
  {
    StubCountAfterDestroy(stubs, id, stubs[id]);
    assert Conserved(heap[stubs[id]], StubCount(stubs, stubs[id]));
  }

  lemma DestroyOnlyStub(heap: Heap, stubs: map<StubId, Ptr>, nextId: nat, id: StubId)
    requires AllConserved(heap, stubs) && StubsPinNatives(heap, stubs, nextId)
    requires id in stubs && heap[stubs[id]].referenceCount == 1
    ensures AllConserved(heap - {stubs[id]}, stubs - {id})
    ensures StubsPinNatives(heap - {stubs[id]}, stubs - {id}, nextId)
  {
    var p, stubs' := stubs[id], stubs - {id};
    OnlyStubIsAlone(heap, stubs, id);
    forall q | q in heap - {p} ensures Conserved((heap - {p})[q], StubCount(stubs', q)) {
      StubCountAfterDestroy(stubs, id, q);
      assert Conserved(heap[q], StubCount(stubs, q));
    }
    forall i | i in stubs' ensures stubs'[i] != p {
      StubCountPositive(stubs', i);
    }
  }

  lemma DestroyStubKeepsSound(b: Bridge, id: StubId, canInvoke: bool)
    requires Sound(b) && id in b.stubs
    ensures StubIsSound(b, id)
    ensures Sound(DestroyStub(b, id, canInvoke).bridge) && DestroyStub(b, id, canInvoke).sent == []
  {
    StubKeepsAlive(b, id);
    var p := b.stubs[id];
    ReleaseOfNative(b.(stubs := b.stubs - {id}), p, canInvoke);
    if b.heap[p].referenceCount > 1 {
      DestroyStubOfMany(b.heap, b.stubs, id, OneLess(b.heap[p]));
      UpdateKeepsRegistered(b.heap, b.proxies, p, OneLess(b.heap[p]));
      assert Sound(b.(heap := b.heap[p := OneLess(b.heap[p])], stubs := b.stubs - {id}));
    } else {
      DestroyOnlyStub(b.heap, b.stubs, b.nextId, id);
      RemovalKeepsRegistered(b.heap, b.proxies, p);
      assert Sound(b.(heap := b.heap - {p}, stubs := b.stubs - {id}));
    }
  }

  lemma CreateProxyKeepsSound(b: Bridge, p: Ptr, id: StubId)
    requires Sound(b) && p !in b.heap && id !in b.proxies
    ensures Sound(Gain(CreateProxy(b, p, id), p))
  {
    var obj, b' := NPObject(1, Proxy(id, true), 1), Gain(CreateProxy(b, p, id), p);
    assert b'.heap == b.heap[p := obj] && b'.stubs == b.stubs && b'.nextId == b.nextId;
    assert b'.proxies == b.proxies[id := p];
    NewProxyIsRegistered(b.heap, b.proxies, p, obj);
    UpdateConserves(b.heap, b.stubs, b.nextId, p, obj);
  }

  lemma FreeProxyKeepsSound(b: Bridge, p: Ptr)
    requires Sound(b) && p in b.heap && b.heap[p].kind.Proxy?
    ensures Sound(FreeProxy(b, p))
  {
    RemovalKeepsRegistered(b.heap, b.proxies, p);
  }

  lemma InvalidateKeepsSound(b: Bridge, p: Ptr, canInvoke: bool)
    requires Sound(b) && p in b.heap && b.heap[p].held > 0
    ensures Sound(Invalidate(b, p, canInvoke).bridge)
  {
    var b' := Invalidate(b, p, canInvoke).bridge;
    if b' != b {
      UpdateKeepsSound(b, p, b'.heap[p]);
    }
  }

  /** Marshalling a reference keeps its side sound, and puts nothing but the reference itself on the wire:
      no last reference is dropped on a path that would start a Deallocate call inside the message. */
  lemma SendKeepsSound(b: Bridge, p: Ptr, passRef: bool, canInvoke: bool)
    requires Sound(b) && p in b.heap && b.heap[p].held > 0
    ensures b.heap[p].referenceCount > 0
    ensures var out := SendObject(if passRef then Give(b, p) else b, p, passRef, canInvoke);
      && Sound(out.bridge)
      && |out.sent| == 1 && (out.sent[0].SenderOwned? || out.sent[0].ReceiverOwned?)
      && out.sent[0] == match b.heap[p].kind
         case Native => SenderOwned(b.nextId + 1)
         case Proxy(id, _) => ReceiverOwned(id, passRef && b.heap[p].referenceCount == 1)
  {
    assert Conserved(b.heap[p], StubCount(b.stubs, p));
    if b.heap[p].kind.Native? {
      SendNativeKeepsSound(b, p, passRef, canInvoke);
    } else if passRef {
      SendLastProxyKeepsSound(b, p, canInvoke);
    }
  }

  function OneHandedOver(obj: NPObject): NPObject
    requires obj.referenceCount > 0 && obj.held > 0
  {
    OneLess(obj).(held := obj.held - 1)
  }

  // A native object sent with its reference: its stub's reference replaces the sender's.
  lemma SendNativeWithReference(b: Bridge, p: Ptr, canInvoke: bool)
    requires p in b.heap && b.heap[p].kind.Native? && b.heap[p].held > 0 && b.heap[p].referenceCount > 0
    ensures var stubbed := CreateStub(b, p);
      SendObject(Give(b, p), p, true, canInvoke) ==
      Effect(stubbed.(heap := stubbed.heap[p := OneHandedOver(stubbed.heap[p])]), [SenderOwned(b.nextId + 1)])
  {
    var given, stubbed := CreateStub(Give(b, p), p), CreateStub(b, p);
    ReleaseOfNative(given, p, canInvoke);
    assert given.heap[p := OneLess(given.heap[p])] == stubbed.heap[p := OneHandedOver(stubbed.heap[p])];
  }

  lemma SendNativeKeepsSound(b: Bridge, p: Ptr, passRef: bool, canInvoke: bool)
    requires Sound(b) && p in b.heap && b.heap[p].kind.Native? && b.heap[p].held > 0 && b.heap[p].referenceCount > 0
    ensures var out := SendObject(if passRef then Give(b, p) else b, p, passRef, canInvoke);
      Sound(out.bridge) && out.sent == [SenderOwned(b.nextId + 1)]
  {
    CreateStubKeepsSound(b, p);
    if passRef {
      SendNativeWithReference(b, p, canInvoke);
      var stubbed := CreateStub(b, p);
      UpdateKeepsSound(stubbed, p, OneHandedOver(stubbed.heap[p]));
    }
  }

  lemma SendLastProxyKeepsSound(b: Bridge, p: Ptr, canInvoke: bool)
    requires Sound(b) && p in b.heap && b.heap[p].kind.Proxy? && b.heap[p].held > 0 && b.heap[p].referenceCount > 0
    ensures var out := SendObject(Give(b, p), p, true, canInvoke);
      Sound(out.bridge) && out.sent == [ReceiverOwned(b.heap[p].kind.id, b.heap[p].referenceCount == 1)]
  {
    if b.heap[p].referenceCount == 1 {
      assert FreeProxy(Give(b, p), p) == FreeProxy(b, p);
      FreeProxyKeepsSound(b, p);
    } else {
      ReleaseOfProxyKeepsSound(b, p, canInvoke);
    }
  }

  // --- Whole messages ---

  // One NPObject or object-typed NPVariant among the arguments or results of a call.
  datatype Passed = Passed(p: Ptr, passRef: bool)

  // Before each object is marshalled the sender still owns a reference to it.
  predicate CanSendAll(b: Bridge, objects: seq<Passed>, canInvoke: bool)
    decreases |objects|
  {
    objects != [] ==>
      var o := objects[0];
      && o.p in b.heap && b.heap[o.p].held > 0 && b.heap[o.p].referenceCount > 0
      && CanSendAll(SendOne(b, o, canInvoke).bridge, objects[1..], canInvoke)
  }

  function SendOne(b: Bridge, o: Passed, canInvoke: bool): Effect
    requires o.p in b.heap && b.heap[o.p].held > 0 && b.heap[o.p].referenceCount > 0
  {
    SendObject(if o.passRef then Give(b, o.p) else b, o.p, o.passRef, canInvoke)
  }

  function SendAll(b: Bridge, objects: seq<Passed>, canInvoke: bool): Effect
    requires CanSendAll(b, objects, canInvoke)
    decreases |objects|
  {
    if objects == [] then Effect(b, [])
    else
      var first := SendOne(b, objects[0], canInvoke);
      var others := SendAll(first.bridge, objects[1..], canInvoke);
      Effect(others.bridge, first.sent + others.sent)
  }

  /** Between the first and the last byte of a message no call is made: marshalling its objects, whatever
      references go along with them, sends one reference for each of them and nothing else. */
  lemma {:induction false} MessagesAreAtomic(b: Bridge, objects: seq<Passed>, canInvoke: bool)
    requires Sound(b) && CanSendAll(b, objects, canInvoke)
    ensures var out := SendAll(b, objects, canInvoke);
      && Sound(out.bridge)
      && |out.sent| == |objects|
      && forall i :: 0 <= i < |out.sent| ==> out.sent[i].SenderOwned? || out.sent[i].ReceiverOwned?
    decreases |objects|
  {
    hide Sound, SendObject;
    if objects != [] {
      SendKeepsSound(b, objects[0].p, objects[0].passRef, canInvoke);
      MessagesAreAtomic(SendOne(b, objects[0], canInvoke).bridge, objects[1..], canInvoke);
    }
  }
}
