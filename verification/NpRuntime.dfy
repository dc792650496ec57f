/** The tables and counters of src/npruntime.c, updated in place. Each method leaves the state that the
    function of the same operation in `NpObjects` describes. */
module NpRuntime {
  import opened NpObjects
  import opened ViewerDeath
  import opened Wrappers

  class Runtime {
    // The NPObjects allocated on this side, with how many references the application owns.
    var heap: map<Ptr, NPObject>
    var stubs: map<StubId, Ptr>     // g_stubs
    var proxies: map<StubId, Ptr>   // g_proxies
    var nextId: nat
    var sent: seq<Item>             // what went out over the connection
    var canInvoke: bool             // what rpc_method_invoke_possible() answers

    constructor ()
      ensures State() == EMPTY && sent == [] && canInvoke
    {
      heap, stubs, proxies := map[], map[], map[];
      nextId, sent, canInvoke := 0, [], true;
    }

    function State(): Bridge
      reads this
    {
      Bridge(heap, stubs, proxies, nextId)
    }

    twostate predicate Became(out: Effect)
      reads this
    {
      State() == out.bridge && sent == old(sent) + out.sent && canInvoke == old(canInvoke)
    }

    // NPN_RetainObject()
    method RetainObject(p: Ptr)
      requires p in heap
      modifies this
      ensures Became(Effect(Retain(old(State()), p), []))
    {
      heap := heap[p := heap[p].(referenceCount := heap[p].referenceCount + 1)];
    }

    // npclass_invoke_Deallocate() up to its wait for the reply
    method InvokeDeallocate(id: StubId, destroying: bool) returns (called: bool)
      modifies this
      ensures called == canInvoke
      ensures Became(Effect(old(State()), if called then [Deallocate(id, destroying)] else []))
    {
      called := canInvoke;
      if called {
        sent := sent + [Deallocate(id, destroying)];
      }
    }

    // npobject_destroy_proxy(), up to the wait if it has to make a call
    method DestroyProxy(p: Ptr, releaseStub: bool)
      requires p in heap && heap[p].kind.Proxy?
      modifies this
      ensures Became(NpObjects.DestroyProxy(old(State()), p, releaseStub, old(canInvoke)))
    {
      if releaseStub && heap[p].kind.isValid {
        var called := InvokeDeallocate(heap[p].kind.id, true);
        if called {
          return;
        }
      }
      FinishDestroyProxy(p);
    }

    // The rest of npobject_destroy_proxy().
    method FinishDestroyProxy(p: Ptr)
      requires p in heap && heap[p].kind.Proxy?
      modifies this
      ensures Became(Effect(FreeProxy(old(State()), p), []))
    {
      proxies := proxies - {heap[p].kind.id};
      heap := heap - {p};
    }

    // NPN_ReleaseObject()
    method ReleaseObject(p: Ptr)
      requires p in heap && heap[p].referenceCount > 0
      modifies this
      ensures Became(Release(old(State()), p, old(canInvoke)))
    {
      heap := heap[p := heap[p].(referenceCount := heap[p].referenceCount - 1)];
      if heap[p].referenceCount == 0 {
        match heap[p].kind {
          case Native => heap := heap - {p};
          case Proxy(_, _) => DestroyProxy(p, true);
        }
      }
    }

    // npobject_create_stub()
    method CreateStub(p: Ptr) returns (id: StubId)
      requires p in heap
      modifies this
      ensures Became(Effect(NpObjects.CreateStub(old(State()), p), []))
      ensures id == old(nextId) + 1
    {
      nextId := nextId + 1;
      id := nextId;
      RetainObject(p);
      stubs := stubs[id := p];
    }

    // npobject_destroy_stub_obj()
    method DestroyStub(id: StubId)
      requires StubIsSound(State(), id)
      modifies this
      ensures Became(NpObjects.DestroyStub(old(State()), id, old(canInvoke)))
    {
      var p := stubs[id];
      stubs := stubs - {id};
      ReleaseObject(p);
    }

    // npobject_create_proxy()
    method CreateProxy(p: Ptr, id: StubId)
      requires p !in heap
      modifies this
      ensures Became(Effect(NpObjects.CreateProxy(old(State()), p, id), []))
    {
      heap := heap[p := NPObject(1, Proxy(id, true), 0)];
      proxies := proxies[id := p];
    }

    // g_NPClass_Invalidate(), up to the wait of its call
    method Invalidate(p: Ptr)
      requires p in heap
      modifies this
      ensures Became(NpObjects.Invalidate(old(State()), p, old(canInvoke)))
    {
      if !(heap[p].kind.Proxy? && heap[p].kind.isValid) {
        return;
      }
      var id := heap[p].kind.id;
      heap := heap[p := heap[p].(kind := Proxy(id, false))];
      var called := InvokeDeallocate(id, false);
    }

    // npclass_handle_Deallocate()
    method HandleDeallocate(id: StubId, destroying: bool)
      requires id in stubs ==> StubIsSound(State(), id)
      modifies this
      ensures Became(NpObjects.HandleDeallocate(old(State()), id, destroying, old(canInvoke)))
    {
      if id in stubs {
        DestroyStub(id);
      }
      sent := sent + [DeallocateDone(id, destroying)];
    }

    // do_send_NPObject_helper()
    method SendObject(p: Ptr, passRef: bool)
      requires p in heap && heap[p].referenceCount > 0
      modifies this
      ensures Became(NpObjects.SendObject(old(State()), p, passRef, old(canInvoke)))
    {
      match heap[p].kind {
        case Native =>
          var id := CreateStub(p);
          if passRef {
            ReleaseObject(p);
          }
          sent := sent + [SenderOwned(id)];
        case Proxy(id, _) =>
          var releaseStub := false;
          if passRef {
            if heap[p].referenceCount == 1 {
              DestroyProxy(p, false);
              releaseStub := true;
            } else {
              ReleaseObject(p);
            }
          }
          sent := sent + [ReceiverOwned(id, releaseStub)];
      }
    }

    // do_recv_NPObject_helper(); None stands for a failed assert().
    method RecvObject(item: Item, at: Ptr) returns (received: Option<Ptr>)
      requires item.SenderOwned? || item.ReceiverOwned?
      requires at !in heap
      modifies this
      ensures match NpObjects.RecvObject(old(State()), item, at, old(canInvoke))
        case None => received == None && Became(Effect(old(State()), []))
        case Some((out, p)) => received == Some(p) && Became(out)
    {
      match item {
        case SenderOwned(id) =>
          CreateProxy(at, id);
          received := Some(at);
        case ReceiverOwned(id, releaseStub) =>
          if !(id in stubs && stubs[id] in heap && heap[stubs[id]].referenceCount > 0) {
            return None;
          }
          var p := stubs[id];
          RetainObject(p);
          if releaseStub {
            DestroyStub(id);
          }
          received := Some(p);
      }
    }

    // npruntime_deactivate(), in the wrapper once the viewer is dead
    method Deactivate()
      requires Sound(State())
      modifies this
      ensures Became(Effect(Deactivated(old(State())), []))
    {
      DeactivateProxies();
      DestroyStubs();
      stubs, proxies := map[], map[];
    }

    method DeactivateProxies()
      requires Sound(State())
      modifies this
      ensures Sound(State()) && Became(Effect(old(State()).(heap := WithoutValidProxies(old(heap))), []))
    {
      var ids := proxies.Keys;
      AllStillValid(heap, proxies);
      while ids != {}
        invariant ids <= proxies.Keys && heap == InvalidExcept(old(heap), ids)
        invariant stubs == old(stubs) && proxies == old(proxies) && nextId == old(nextId)
        invariant sent == old(sent) && canInvoke == old(canInvoke)
        decreases ids
      {
        var id :| id in ids;
        OneMoreInvalid(old(heap), proxies, ids, id);
        var p := proxies[id];
        heap := heap[p := heap[p].(kind := Proxy(id, false))];
        ids := ids - {id};
      }
      InvalidProxiesKeepSound(old(State()));
    }

    method DestroyStubs()
      requires Sound(State())
      modifies this
      ensures Sound(State()) && stubs == map[] && proxies == old(proxies)
      ensures nextId == old(nextId) && sent == old(sent) && canInvoke == old(canInvoke)
      ensures heap == OnlyHeld(old(heap))
    {
      while stubs != map[]
        invariant Sound(State())
        invariant proxies == old(proxies) && nextId == old(nextId) && sent == old(sent) && canInvoke == old(canInvoke)
        invariant heap.Keys <= old(heap).Keys && OnlyHeld(heap) == OnlyHeld(old(heap))
        decreases stubs
      {
        var id :| id in stubs;
        DestroyStubKeepsSound(State(), id, canInvoke);
        DestroyStubKeepsHeld(State(), id, canInvoke);
        DestroyStub(id);
      }
      OnlyHeldIsAll(State());
    }
  }
}
