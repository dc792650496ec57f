/** Both sides' NPObjects and the references on their way between them.

    The two streams are first-in first-out and are read item by item, which is all that is assumed about
    the interleaving: either side may move at any time. (The RPC protocol allows fewer interleavings.)
    `canInvoke` is true in every move: that calls can be made wherever objects are handled is
    `JointTheorems.CallsAreNeverSkipped`. */
module Ownership {
  import opened NpObjects
  import opened Wrappers

  // `failed` records a failed assert() in do_recv_NPObject_helper().
  datatype World = World(a: Bridge, b: Bridge, toB: seq<Item>, toA: seq<Item>, failed: bool)

  const START := World(EMPTY, EMPTY, [], [], false)

  function Flip(w: World): World {
    World(w.b, w.a, w.toA, w.toB, w.failed)
  }

  // What side a can do next.
  datatype Move =
    | MCreate(p: Ptr)                 // the application creates an object
    | MRetain(p: Ptr)                 // ... takes another reference
    | MRelease(p: Ptr)                // ... drops one
    | MInvalidate(p: Ptr)             // ... invalidates an object
    | MSend(p: Ptr, passRef: bool)    // an object is marshalled, with or without the sender's reference
    | MDeliver(at: Ptr)               // the next item is received; a new proxy would be allocated at `at`

  // Applications follow the NPAPI rules: they use objects they hold a reference to, and an invalidated
  // proxy is not marshalled any more.
  predicate Allowed(w: World, m: Move) {
    match m
    case MCreate(p) => p !in w.a.heap
    case MRetain(p) => p in w.a.heap && w.a.heap[p].held > 0
    case MRelease(p) => p in w.a.heap && w.a.heap[p].held > 0 && w.a.heap[p].referenceCount > 0
    case MInvalidate(p) => p in w.a.heap && w.a.heap[p].held > 0
    case MSend(p, _) =>
      && p in w.a.heap && w.a.heap[p].held > 0 && w.a.heap[p].referenceCount > 0
      && (w.a.heap[p].kind.Proxy? ==> w.a.heap[p].kind.isValid)
    case MDeliver(at) => w.toA != [] && at !in w.a.heap
  }

  function Sending(w: World, out: Effect): World {
    w.(a := out.bridge, toB := w.toB + out.sent)
  }

  function Deliver(w: World, at: Ptr): World
    requires w.toA != [] && at !in w.a.heap
  {
    var w' := w.(toA := w.toA[1..]);
    match w.toA[0]
    case Deallocate(id, destroying) => Sending(w', HandleDeallocate(w.a, id, destroying, true))
    case DeallocateDone(id, destroying) =>
      if destroying && id in w.a.proxies && w.a.proxies[id] in w.a.heap && w.a.heap[w.a.proxies[id]].kind.Proxy?
      then w'.(a := FreeProxy(w.a, w.a.proxies[id])) else w'
    case item =>
      match RecvObject(w.a, item, at, true)
      case None => w'.(failed := true)
      case Some((out, p)) =>
        if p in out.bridge.heap then Sending(w', out).(a := Gain(out.bridge, p)) else w'.(failed := true)
  }

  function Perform(w: World, m: Move): World
    requires Allowed(w, m)
  {
    match m
    case MCreate(p) => w.(a := w.a.(heap := w.a.heap[p := NPObject(1, Native, 1)]))
    case MRetain(p) => w.(a := Gain(Retain(w.a, p), p))
    case MRelease(p) => Sending(w, Release(Give(w.a, p), p, true))
    case MInvalidate(p) => Sending(w, Invalidate(w.a, p, true))
    case MSend(p, passRef) => Sending(w, SendObject(if passRef then Give(w.a, p) else w.a, p, passRef, true))
    case MDeliver(at) => Deliver(w, at)
  }

  // One step of the pair: side a moves, or side b does.
  datatype Step = ByA(m: Move) | ByB(m: Move)

  predicate Possible(w: World, step: Step) {
    match step
    case ByA(m) => Allowed(w, m)
    case ByB(m) => Allowed(Flip(w), m)
  }

  function Next(w: World, step: Step): World
    requires Possible(w, step)
  {
    match step
    case ByA(m) => Perform(w, m)
    case ByB(m) => Flip(Perform(Flip(w), m))
  }

  predicate Legal(w: World, steps: seq<Step>)
    decreases |steps|
  {
    steps == [] || (Possible(w, steps[0]) && Legal(Next(w, steps[0]), steps[1..]))
  }

  function Run(w: World, steps: seq<Step>): World
    requires Legal(w, steps)
    decreases |steps|
  {
    if steps == [] then w else Run(Next(w, steps[0]), steps[1..])
  }

  // --- The correspondence between one side's stubs and the other side's proxies ---

  datatype Standing = Absent | Alive | Invalidated | Dying

  // Where the proxy for stub `id` stands on the side that uses it. Dying: its last reference is gone and
  // its Deallocate call has not returned.
  function StandingOf(user: Bridge, id: StubId): Standing {
    if id !in user.proxies || user.proxies[id] !in user.heap then Absent
    else
      var obj := user.heap[user.proxies[id]];
      if obj.kind.Native? then Absent
      else if obj.referenceCount == 0 then Dying
      else if obj.kind.isValid then Alive
      else Invalidated
  }

  function Carried(down: seq<Item>, id: StubId): nat {
    multiset(down)[SenderOwned(id)]
  }

  function Released(up: seq<Item>, id: StubId): nat {
    multiset(up)[Deallocate(id, true)] + multiset(up)[Deallocate(id, false)] + multiset(up)[ReceiverOwned(id, true)]
  }

  // A live stub is accounted for by exactly one of a live proxy, a reference on its way to become one,
  // and a release on its way back. A dying proxy has exactly one Deallocate call out.
  predicate Balanced(stub: bool, standing: Standing, carried: nat, released: nat,
                     mentioned: nat, calls: nat, replies: nat) {
    && (if standing.Alive? then 1 else 0) + carried + released == (if stub then 1 else 0)
    && (if standing.Dying? then 1 else 0) == calls + replies
    && (carried > 0 ==> standing.Absent?)
    && (mentioned > 0 ==> stub)
  }

  predicate AccountedFor(owner: Bridge, user: Bridge, down: seq<Item>, up: seq<Item>, id: StubId) {
    && Balanced(id in owner.stubs, StandingOf(user, id), Carried(down, id), Released(up, id),
                multiset(up)[ReceiverOwned(id, false)],
                multiset(up)[Deallocate(id, true)], multiset(down)[DeallocateDone(id, true)])
    && (id > owner.nextId ==> id !in owner.stubs && Carried(down, id) == 0 && StandingOf(user, id).Absent?)
  }

  predicate Names(item: Item, id: StubId) {
    (item.ReceiverOwned? || item.Deallocate?) && item.id == id
  }

  predicate Releases(item: Item) {
    item.Deallocate? || (item.ReceiverOwned? && item.releaseStub)
  }

  // Nothing is said about a stub after its release.
  predicate ReleasesComeLast(up: seq<Item>) {
    forall i, j :: 0 <= i < j < |up| && Releases(up[i]) ==> !Names(up[j], up[i].id)
  }

  ghost predicate Half(owner: Bridge, user: Bridge, down: seq<Item>, up: seq<Item>) {
    && (forall id :: AccountedFor(owner, user, down, up, id))
    && ReleasesComeLast(up)
  }

  ghost predicate Inv(w: World) {
    && Sound(w.a) && Sound(w.b)
    && Half(w.a, w.b, w.toB, w.toA)
    && Half(w.b, w.a, w.toA, w.toB)
    && !w.failed
  }

  // --- Frames ---

  lemma AppendFrame(s: seq<Item>, sent: seq<Item>)
    ensures multiset(s + sent) == multiset(s) + multiset(sent)
  {
  }

  lemma HeadFrame(s: seq<Item>)
    requires s != []
    ensures multiset(s) == multiset{s[0]} + multiset(s[1..])
  {
    assert s == [s[0]] + s[1..];
  }

  lemma TailKeepsOrder(up: seq<Item>)
    requires up != [] && ReleasesComeLast(up)
    ensures ReleasesComeLast(up[1..])
  {
    var rest := up[1..];
    forall i, j | 0 <= i < j < |rest| && Releases(rest[i]) ensures !Names(rest[j], rest[i].id) {
      assert rest[i] == up[i + 1] && rest[j] == up[j + 1];
    }
  }

  lemma AppendKeepsOrder(up: seq<Item>, item: Item)
    requires ReleasesComeLast(up)
    requires (item.ReceiverOwned? || item.Deallocate?) ==> Released(up, item.id) == 0
    ensures ReleasesComeLast(up + [item])
  {
    var up' := up + [item];
    forall i, j | 0 <= i < j < |up'| && Releases(up'[i]) ensures !Names(up'[j], up'[i].id) {
      if j == |up| {
        assert up[i] in multiset(up);
      }
    }
  }

  predicate SameStanding(a': Bridge, a: Bridge, id: StubId) {
    StandingOf(a', id) == StandingOf(a, id) || (StandingOf(a, id).Invalidated? && StandingOf(a', id).Absent?)
  }

  // Side a changed, but neither its stubs nor what its proxies stand for did, and nothing was sent.
  lemma HalvesUnchanged(w: World, a': Bridge)
    requires Half(w.a, w.b, w.toB, w.toA) && Half(w.b, w.a, w.toA, w.toB)
    requires a'.stubs == w.a.stubs && a'.nextId == w.a.nextId
    requires forall id :: SameStanding(a', w.a, id)
    ensures Half(a', w.b, w.toB, w.toA) && Half(w.b, a', w.toA, w.toB)
  {
    forall id ensures AccountedFor(a', w.b, w.toB, w.toA, id) && AccountedFor(w.b, a', w.toA, w.toB, id) {
      assert AccountedFor(w.a, w.b, w.toB, w.toA, id) && AccountedFor(w.b, w.a, w.toA, w.toB, id);
      assert SameStanding(a', w.a, id);
    }
  }

  // As above, and side a sent one item about the other side's stub `id`, whose proxy changed standing.
  lemma UserSends(w: World, a': Bridge, item: Item)
    requires Half(w.a, w.b, w.toB, w.toA) && Half(w.b, w.a, w.toA, w.toB)
    requires a'.stubs == w.a.stubs && a'.nextId == w.a.nextId
    requires item.ReceiverOwned? || item.Deallocate?
    requires forall id :: id != item.id ==> StandingOf(a', id) == StandingOf(w.a, id)
    requires StandingOf(w.a, item.id).Alive?
    requires match item
      case ReceiverOwned(id, release) => StandingOf(a', id) == if release then Absent else Alive
      case Deallocate(id, destroying) => StandingOf(a', id) == if destroying then Dying else Invalidated
      case _ => true
    ensures Half(a', w.b, w.toB + [item], w.toA) && Half(w.b, a', w.toA, w.toB + [item])
  {
    AppendFrame(w.toB, [item]);
    forall id ensures AccountedFor(a', w.b, w.toB + [item], w.toA, id) {
      assert AccountedFor(w.a, w.b, w.toB, w.toA, id);
    }
    forall id ensures AccountedFor(w.b, a', w.toA, w.toB + [item], id) {
      assert AccountedFor(w.b, w.a, w.toA, w.toB, id);
    }
    assert AccountedFor(w.b, w.a, w.toA, w.toB, item.id);
    AppendKeepsOrder(w.toB, item);
  }

  // Side a made a stub under its next id and sent the reference.
  lemma OwnerSends(w: World, a': Bridge, p: Ptr)
    requires Half(w.a, w.b, w.toB, w.toA) && Half(w.b, w.a, w.toA, w.toB)
    requires a'.stubs == w.a.stubs[w.a.nextId + 1 := p] && a'.nextId == w.a.nextId + 1
    requires forall id :: StandingOf(a', id) == StandingOf(w.a, id)
    ensures var item := SenderOwned(w.a.nextId + 1);
      Half(a', w.b, w.toB + [item], w.toA) && Half(w.b, a', w.toA, w.toB + [item])
  {
    var item := SenderOwned(w.a.nextId + 1);
    AppendFrame(w.toB, [item]);
    forall id ensures AccountedFor(a', w.b, w.toB + [item], w.toA, id) {
      assert AccountedFor(w.a, w.b, w.toB, w.toA, id);
    }
    forall id ensures AccountedFor(w.b, a', w.toA, w.toB + [item], id) {
      assert AccountedFor(w.b, w.a, w.toA, w.toB, id);
    }
    AppendKeepsOrder(w.toB, item);
  }

  // Side a took the first item of its stream; a reference to the other side's stub became a proxy.
  lemma UserReceives(w: World, a': Bridge)
    requires Half(w.a, w.b, w.toB, w.toA) && Half(w.b, w.a, w.toA, w.toB)
    requires w.toA != [] && w.toA[0].SenderOwned?
    requires a'.stubs == w.a.stubs && a'.nextId == w.a.nextId
    requires forall id :: StandingOf(a', id) == (if id == w.toA[0].id then Alive else StandingOf(w.a, id))
    ensures Half(a', w.b, w.toB, w.toA[1..]) && Half(w.b, a', w.toA[1..], w.toB)
  {
    HeadFrame(w.toA);
    forall id ensures AccountedFor(a', w.b, w.toB, w.toA[1..], id) {
      assert AccountedFor(w.a, w.b, w.toB, w.toA, id);
    }
    forall id ensures AccountedFor(w.b, a', w.toA[1..], w.toB, id) {
      assert AccountedFor(w.b, w.a, w.toA, w.toB, id);
    }
    TailKeepsOrder(w.toA);
  }

  // The stub that the first item names is there.
  lemma NamedStubExists(w: World)
    requires Half(w.a, w.b, w.toB, w.toA) && w.toA != []
    requires w.toA[0].ReceiverOwned? || w.toA[0].Deallocate?
    ensures w.toA[0].id in w.a.stubs
  {
    HeadFrame(w.toA);
    assert AccountedFor(w.a, w.b, w.toB, w.toA, w.toA[0].id);
  }

  // Side a received a mere mention of one of its objects.
  lemma OwnerIsNamed(w: World, a': Bridge)
    requires Half(w.a, w.b, w.toB, w.toA) && Half(w.b, w.a, w.toA, w.toB)
    requires w.toA != [] && w.toA[0].ReceiverOwned? && !w.toA[0].releaseStub
    requires a'.stubs == w.a.stubs && a'.nextId == w.a.nextId
    requires forall id :: StandingOf(a', id) == StandingOf(w.a, id)
    ensures Half(a', w.b, w.toB, w.toA[1..]) && Half(w.b, a', w.toA[1..], w.toB)
  {
    HeadFrame(w.toA);
    forall id ensures AccountedFor(a', w.b, w.toB, w.toA[1..], id) {
      assert AccountedFor(w.a, w.b, w.toB, w.toA, id);
    }
    forall id ensures AccountedFor(w.b, a', w.toA[1..], w.toB, id) {
      assert AccountedFor(w.b, w.a, w.toA, w.toB, id);
    }
    TailKeepsOrder(w.toA);
  }

  function Answer(item: Item): seq<Item> {
    if item.Deallocate? then [DeallocateDone(item.id, item.destroying)] else []
  }

  // Side a received the release of one of its stubs, destroyed it and, if asked by a call, replied.
  lemma OwnerReleases(w: World, a': Bridge)
    requires Half(w.a, w.b, w.toB, w.toA) && Half(w.b, w.a, w.toA, w.toB)
    requires w.toA != [] && Releases(w.toA[0])
    requires a'.stubs == w.a.stubs - {w.toA[0].id} && a'.nextId == w.a.nextId
    requires forall id :: StandingOf(a', id) == StandingOf(w.a, id)
    ensures Half(a', w.b, w.toB + Answer(w.toA[0]), w.toA[1..]) && Half(w.b, a', w.toA[1..], w.toB + Answer(w.toA[0]))
  {
    OwnStubReleased(w, a');
    OtherStubsUntouched(w, a');
  }

  lemma OwnStubReleased(w: World, a': Bridge)
    requires Half(w.a, w.b, w.toB, w.toA) && w.toA != [] && Releases(w.toA[0])
    requires a'.stubs == w.a.stubs - {w.toA[0].id} && a'.nextId == w.a.nextId
    ensures Half(a', w.b, w.toB + Answer(w.toA[0]), w.toA[1..])
  {
    HeadFrame(w.toA);
    AppendFrame(w.toB, Answer(w.toA[0]));
    NoMoreMentions(w.toA);
    forall id ensures AccountedFor(a', w.b, w.toB + Answer(w.toA[0]), w.toA[1..], id) {
      assert AccountedFor(w.a, w.b, w.toB, w.toA, id);
    }
    TailKeepsOrder(w.toA);
  }

  lemma OtherStubsUntouched(w: World, a': Bridge)
    requires Half(w.b, w.a, w.toA, w.toB) && w.toA != [] && Releases(w.toA[0])
    requires forall id :: StandingOf(a', id) == StandingOf(w.a, id)
    ensures Half(w.b, a', w.toA[1..], w.toB + Answer(w.toA[0]))
  {
    HeadFrame(w.toA);
    AppendFrame(w.toB, Answer(w.toA[0]));
    forall id ensures AccountedFor(w.b, a', w.toA[1..], w.toB + Answer(w.toA[0]), id) {
      assert AccountedFor(w.b, w.a, w.toA, w.toB, id);
    }
    if w.toA[0].Deallocate? {
      AppendKeepsOrder(w.toB, Answer(w.toA[0])[0]);
    } else {
      assert w.toB + Answer(w.toA[0]) == w.toB;
    }
  }

  lemma NoMoreMentions(up: seq<Item>)
    requires up != [] && Releases(up[0]) && ReleasesComeLast(up)
    ensures multiset(up[1..])[ReceiverOwned(up[0].id, false)] == 0
  {
    forall j | 0 <= j < |up[1..]| ensures up[1..][j] != ReceiverOwned(up[0].id, false) {
      assert !Names(up[j + 1], up[0].id);
    }
  }

  // The reply to a Deallocate call returned.
  lemma CallReturns(w: World, a': Bridge)
    requires Half(w.a, w.b, w.toB, w.toA) && Half(w.b, w.a, w.toA, w.toB)
    requires w.toA != [] && w.toA[0].DeallocateDone?
    requires a'.stubs == w.a.stubs && a'.nextId == w.a.nextId
    requires forall id ::
      StandingOf(a', id) == (if w.toA[0] == DeallocateDone(id, true) then Absent else StandingOf(w.a, id))
    requires w.toA[0].destroying ==> StandingOf(w.a, w.toA[0].id).Dying?
    ensures Half(a', w.b, w.toB, w.toA[1..]) && Half(w.b, a', w.toA[1..], w.toB)
  {
    HeadFrame(w.toA);
    forall id ensures AccountedFor(a', w.b, w.toB, w.toA[1..], id) {
      assert AccountedFor(w.a, w.b, w.toB, w.toA, id);
    }
    forall id ensures AccountedFor(w.b, a', w.toA[1..], w.toB, id) {
      assert AccountedFor(w.b, w.a, w.toA, w.toB, id);
    }
    TailKeepsOrder(w.toA);
  }

  // --- Every move keeps the invariant ---

  // The stub that the object at p stands for, if it is a proxy.
  predicate StandsFor(b: Bridge, p: Ptr, id: StubId)
    requires p in b.heap
  {
    b.heap[p].kind.Proxy? && b.heap[p].kind.id == id
  }

  // b' differs from b only at p, which may have been freed.
  ghost predicate DiffersAt(b': Bridge, b: Bridge, p: Ptr)
    requires p in b.heap
  {
    && (forall q :: q != p ==> (q in b'.heap <==> q in b.heap))
    && (forall q :: q != p && q in b.heap ==> b'.heap[q] == b.heap[q])
    && b'.proxies == if p !in b'.heap && b.heap[p].kind.Proxy? then b.proxies - {b.heap[p].kind.id} else b.proxies
  }

  // On a sound side, what happens to the object at p only concerns the stub it stands for.
  lemma StandingElsewhere(b: Bridge, b': Bridge, p: Ptr)
    requires Sound(b) && p in b.heap && DiffersAt(b', b, p)
    ensures forall id :: !StandsFor(b, p, id) ==> StandingOf(b', id) == StandingOf(b, id)
    ensures b.heap[p].kind.Proxy? ==> b.heap[p].kind.id in b.proxies && b.proxies[b.heap[p].kind.id] == p
  {
    assert IsRegistered(b.heap, p, b.proxies);
    forall id | !StandsFor(b, p, id) ensures StandingOf(b', id) == StandingOf(b, id) {
      if id in b.proxies {
        assert IsProxyFor(b.heap, b.proxies[id], id);
        assert b.proxies[id] != p;
      }
    }
  }

  lemma ReleaseEffect(b: Bridge, p: Ptr)
    requires Sound(b) && p in b.heap && b.heap[p].held > 0 && b.heap[p].referenceCount > 0
    ensures var out := Release(Give(b, p), p, true);
      && out.bridge.stubs == b.stubs && out.bridge.nextId == b.nextId
      && (forall id :: !StandsFor(b, p, id) ==> StandingOf(out.bridge, id) == StandingOf(b, id))
      && (if b.heap[p].kind.Proxy? && b.heap[p].referenceCount == 1 && b.heap[p].kind.isValid
          then out.sent == [Deallocate(b.heap[p].kind.id, true)]
            && StandingOf(b, b.heap[p].kind.id).Alive? && StandingOf(out.bridge, b.heap[p].kind.id).Dying?
          else out.sent == [] && forall id :: SameStanding(out.bridge, b, id))
  {
    StandingElsewhere(b, Release(Give(b, p), p, true).bridge, p);
  }

  lemma InvalidateEffect(b: Bridge, p: Ptr)
    requires Sound(b) && p in b.heap && b.heap[p].held > 0 && b.heap[p].referenceCount > 0
    ensures var out := Invalidate(b, p, true);
      && out.bridge.stubs == b.stubs && out.bridge.nextId == b.nextId
      && (forall id :: !StandsFor(b, p, id) ==> StandingOf(out.bridge, id) == StandingOf(b, id))
      && (if b.heap[p].kind.Proxy? && b.heap[p].kind.isValid
          then out.sent == [Deallocate(b.heap[p].kind.id, false)]
            && StandingOf(b, b.heap[p].kind.id).Alive? && StandingOf(out.bridge, b.heap[p].kind.id).Invalidated?
          else out.sent == [] && forall id :: SameStanding(out.bridge, b, id))
  {
    StandingElsewhere(b, Invalidate(b, p, true).bridge, p);
  }

  lemma SendProxyEffect(b: Bridge, p: Ptr, passRef: bool)
    requires Sound(b) && p in b.heap && b.heap[p].held > 0 && b.heap[p].referenceCount > 0
    requires b.heap[p].kind.Proxy? && b.heap[p].kind.isValid
    ensures var out, release := SendObject(if passRef then Give(b, p) else b, p, passRef, true),
                                passRef && b.heap[p].referenceCount == 1;
      && out.bridge.stubs == b.stubs && out.bridge.nextId == b.nextId
      && out.sent == [ReceiverOwned(b.heap[p].kind.id, release)]
      && (forall id :: id != b.heap[p].kind.id ==> StandingOf(out.bridge, id) == StandingOf(b, id))
      && StandingOf(b, b.heap[p].kind.id).Alive?
      && StandingOf(out.bridge, b.heap[p].kind.id) == (if release then Absent else Alive)
  {
    StandingElsewhere(b, SendObject(if passRef then Give(b, p) else b, p, passRef, true).bridge, p);
    forall id | id != b.heap[p].kind.id ensures !StandsFor(b, p, id) {}
  }

  lemma SendNativeEffect(b: Bridge, p: Ptr, passRef: bool)
    requires Sound(b) && p in b.heap && b.heap[p].held > 0 && b.heap[p].referenceCount > 0 && b.heap[p].kind.Native?
    ensures var out := SendObject(if passRef then Give(b, p) else b, p, passRef, true);
      && out.bridge.stubs == b.stubs[b.nextId + 1 := p] && out.bridge.nextId == b.nextId + 1
      && out.sent == [SenderOwned(b.nextId + 1)]
      && (forall id :: StandingOf(out.bridge, id) == StandingOf(b, id))
  {
    if passRef {
      SendNativeWithReference(b, p, true);
    }
    StandingElsewhere(b, SendObject(if passRef then Give(b, p) else b, p, passRef, true).bridge, p);
    forall id ensures !StandsFor(b, p, id) {}
  }

  lemma KeepsCreate(w: World, p: Ptr)
    requires Inv(w) && Allowed(w, MCreate(p))
    ensures Inv(Perform(w, MCreate(p)))
  {
    var a' := Perform(w, MCreate(p)).a;
    CreateKeepsSound(w.a, p);
    forall id ensures SameStanding(a', w.a, id) {
      if id in w.a.proxies { assert IsProxyFor(w.a.heap, w.a.proxies[id], id); }
    }
    HalvesUnchanged(w, a');
  }

  lemma RetainEffect(b: Bridge, p: Ptr)
    requires p in b.heap && b.heap[p].referenceCount > 0
    ensures forall id :: SameStanding(Gain(Retain(b, p), p), b, id)
  {
  }

  lemma KeepsRetain(w: World, p: Ptr)
    requires Inv(w) && Allowed(w, MRetain(p))
    ensures Inv(Perform(w, MRetain(p)))
  {
    hide Half, SameStanding;
    assert Conserved(w.a.heap[p], StubCount(w.a.stubs, p));
    RetainKeepsSound(w.a, p);
    RetainEffect(w.a, p);
    HalvesUnchanged(w, Gain(Retain(w.a, p), p));
  }

  lemma KeepsRelease(w: World, p: Ptr)
    requires Inv(w) && Allowed(w, MRelease(p))
    ensures Inv(Perform(w, MRelease(p)))
  {
    var out := Release(Give(w.a, p), p, true);
    ReleaseKeepsSound(w.a, p, true);
    ReleaseEffect(w.a, p);
    if out.sent == [] {
      assert w.toB + out.sent == w.toB;
      HalvesUnchanged(w, out.bridge);
    } else {
      forall id | id != out.sent[0].id ensures !StandsFor(w.a, p, id) {}
      UserSends(w, out.bridge, out.sent[0]);
    }
  }

  lemma KeepsInvalidate(w: World, p: Ptr)
    requires Inv(w) && Allowed(w, MInvalidate(p))
    ensures Inv(Perform(w, MInvalidate(p)))
  {
    var out := Invalidate(w.a, p, true);
    assert Conserved(w.a.heap[p], StubCount(w.a.stubs, p));
    InvalidateKeepsSound(w.a, p, true);
    InvalidateEffect(w.a, p);
    if out.sent == [] {
      assert w.toB + out.sent == w.toB;
      HalvesUnchanged(w, out.bridge);
    } else {
      forall id | id != out.sent[0].id ensures !StandsFor(w.a, p, id) {}
      UserSends(w, out.bridge, out.sent[0]);
    }
  }

  lemma KeepsSend(w: World, p: Ptr, passRef: bool)
    requires Inv(w) && Allowed(w, MSend(p, passRef))
    ensures Inv(Perform(w, MSend(p, passRef)))
  {
    var out := SendObject(if passRef then Give(w.a, p) else w.a, p, passRef, true);
    SendKeepsSound(w.a, p, passRef, true);
    if w.a.heap[p].kind.Native? {
      SendNativeEffect(w.a, p, passRef);
      OwnerSends(w, out.bridge, p);
    } else {
      SendProxyEffect(w.a, p, passRef);
      UserSends(w, out.bridge, out.sent[0]);
    }
  }

  lemma DestroyStubEffect(b: Bridge, id: StubId)
    requires Sound(b) && id in b.stubs
    ensures StubIsSound(b, id)
    ensures var out := DestroyStub(b, id, true);
      && Sound(out.bridge) && out.sent == []
      && out.bridge.stubs == b.stubs - {id} && out.bridge.nextId == b.nextId
      && (forall i :: StandingOf(out.bridge, i) == StandingOf(b, i))
  {
    DestroyStubKeepsSound(b, id, true);
    var p := b.stubs[id];
    ReleaseOfNative(b.(stubs := b.stubs - {id}), p, true);
    StandingElsewhere(b, DestroyStub(b, id, true).bridge, p);
    forall i ensures !StandsFor(b, p, i) {}
  }

  lemma GainAfterRetain(b: Bridge, id: StubId)
    requires Sound(b) && id in b.stubs
    ensures StubIsSound(b, id) && Sound(Gain(Retain(b, b.stubs[id]), b.stubs[id]))
    ensures forall i :: StandingOf(Gain(Retain(b, b.stubs[id]), b.stubs[id]), i) == StandingOf(b, i)
  {
    StubKeepsAlive(b, id);
    RetainKeepsSound(b, b.stubs[id]);
    StandingElsewhere(b, Gain(Retain(b, b.stubs[id]), b.stubs[id]), b.stubs[id]);
    forall i ensures !StandsFor(b, b.stubs[id], i) {}
  }

  // Retaining, destroying the stub and handing the reference to the application comes to the same in
  // either order, because the object stays alive throughout.
  lemma RetainThenDestroy(b: Bridge, id: StubId)
    requires Sound(b) && id in b.stubs
    ensures StubIsSound(b, id)
    ensures var p, retained := b.stubs[id], Retain(b, b.stubs[id]);
      && StubIsSound(retained, id) && StubIsSound(Gain(retained, p), id)
      && p in DestroyStub(retained, id, true).bridge.heap
      && Gain(DestroyStub(retained, id, true).bridge, p) == DestroyStub(Gain(retained, p), id, true).bridge
      && DestroyStub(retained, id, true).sent == []
  {
    StubKeepsAlive(b, id);
    var p, retained := b.stubs[id], Retain(b, b.stubs[id]);
    ReleaseOfNative(retained.(stubs := b.stubs - {id}), p, true);
    ReleaseOfNative(Gain(retained, p).(stubs := b.stubs - {id}), p, true);
    assert Gain(DestroyStub(retained, id, true).bridge, p).heap == DestroyStub(Gain(retained, p), id, true).bridge.heap;
  }

  lemma KeepsDeliverRelease(w: World, at: Ptr)
    requires Inv(w) && Allowed(w, MDeliver(at)) && Releases(w.toA[0])
    ensures Inv(Deliver(w, at))
  {
    var id := w.toA[0].id;
    NamedStubExists(w);
    if w.toA[0].Deallocate? {
      DestroyStubEffect(w.a, id);
      var out := DestroyStub(w.a, id, true);
      assert out.sent + Answer(w.toA[0]) == Answer(w.toA[0]);
      OwnerReleases(w, out.bridge);
    } else {
      GainAfterRetain(w.a, id);
      RetainThenDestroy(w.a, id);
      var gained := Gain(Retain(w.a, w.a.stubs[id]), w.a.stubs[id]);
      DestroyStubEffect(gained, id);
      assert w.toB + [] == w.toB;
      OwnerReleases(w, DestroyStub(gained, id, true).bridge);
    }
  }

  lemma KeepsDeliverMention(w: World, at: Ptr)
    requires Inv(w) && Allowed(w, MDeliver(at)) && w.toA[0].ReceiverOwned? && !w.toA[0].releaseStub
    ensures Inv(Deliver(w, at))
  {
    NamedStubExists(w);
    var p := w.a.stubs[w.toA[0].id];
    GainAfterRetain(w.a, w.toA[0].id);
    assert w.toB + [] == w.toB;
    OwnerIsNamed(w, Gain(Retain(w.a, p), p));
  }

  lemma AbsentIsUnregistered(b: Bridge, id: StubId)
    requires Sound(b)
    ensures StandingOf(b, id).Absent? ==> id !in b.proxies
  {
    if id in b.proxies { assert IsProxyFor(b.heap, b.proxies[id], id); }
  }

  lemma CarrierEffect(b: Bridge, at: Ptr, id: StubId)
    requires Sound(b) && at !in b.heap && id !in b.proxies
    ensures forall i :: StandingOf(Gain(CreateProxy(b, at, id), at), i) == (if i == id then Alive else StandingOf(b, i))
  {
    var b' := Gain(CreateProxy(b, at, id), at);
    forall i ensures StandingOf(b', i) == (if i == id then Alive else StandingOf(b, i)) {
      if i in b.proxies { assert IsProxyFor(b.heap, b.proxies[i], i); }
    }
  }

  // The stub that a reference in flight names has no proxy yet.
  lemma CarriedIsAbsent(w: World)
    requires Sound(w.a) && Half(w.b, w.a, w.toA, w.toB) && w.toA != [] && w.toA[0].SenderOwned?
    ensures w.toA[0].id !in w.a.proxies
  {
    HeadFrame(w.toA);
    assert AccountedFor(w.b, w.a, w.toA, w.toB, w.toA[0].id);
    AbsentIsUnregistered(w.a, w.toA[0].id);
  }

  lemma KeepsDeliverCarrier(w: World, at: Ptr)
    requires Inv(w) && Allowed(w, MDeliver(at)) && w.toA[0].SenderOwned?
    ensures Inv(Deliver(w, at))
  {
    hide Half, StandingOf, Sound;
    var id := w.toA[0].id;
    CarriedIsAbsent(w);
    CreateProxyKeepsSound(w.a, at, id);
    CarrierEffect(w.a, at, id);
    assert w.toB + [] == w.toB;
    UserReceives(w, Gain(CreateProxy(w.a, at, id), at));
  }

  lemma KeepsDeliverReply(w: World, at: Ptr)
    requires Inv(w) && Allowed(w, MDeliver(at)) && w.toA[0].DeallocateDone?
    ensures Inv(Deliver(w, at))
  {
    var id := w.toA[0].id;
    HeadFrame(w.toA);
    assert AccountedFor(w.b, w.a, w.toA, w.toB, id);
    if w.toA[0].destroying {
      assert StandingOf(w.a, id).Dying?;
      var p := w.a.proxies[id];
      assert IsProxyFor(w.a.heap, p, id);
      FreeProxyKeepsSound(w.a, p);
      StandingElsewhere(w.a, FreeProxy(w.a, p), p);
      forall i | i != id ensures !StandsFor(w.a, p, i) {}
      CallReturns(w, FreeProxy(w.a, p));
    } else {
      CallReturns(w, w.a);
    }
  }

  lemma MoveKeepsInv(w: World, m: Move)
    requires Inv(w) && Allowed(w, m)
    ensures Inv(Perform(w, m))
  {
    match m
    case MCreate(p) => KeepsCreate(w, p);
    case MRetain(p) => KeepsRetain(w, p);
    case MRelease(p) => KeepsRelease(w, p);
    case MInvalidate(p) => KeepsInvalidate(w, p);
    case MSend(p, passRef) => KeepsSend(w, p, passRef);
    case MDeliver(at) =>
      if Releases(w.toA[0]) {
        KeepsDeliverRelease(w, at);
      } else {
        match w.toA[0]
        case SenderOwned(_) => KeepsDeliverCarrier(w, at);
        case ReceiverOwned(_, _) => KeepsDeliverMention(w, at);
        case DeallocateDone(_, _) => KeepsDeliverReply(w, at);
      }
  }

  /** Every step of either side keeps the invariant. */
  lemma StepKeepsInv(w: World, step: Step)
    requires Inv(w) && Possible(w, step)
    ensures Inv(Next(w, step))
  {
    match step
    case ByA(m) => MoveKeepsInv(w, m);
    case ByB(m) => MoveKeepsInv(Flip(w), m);
  }

  lemma {:induction false} RunKeepsInv(w: World, steps: seq<Step>)
    requires Inv(w) && Legal(w, steps)
    ensures Inv(Run(w, steps))
    decreases |steps|
  {
    if steps != [] {
      StepKeepsInv(w, steps[0]);
      RunKeepsInv(Next(w, steps[0]), steps[1..]);
    }
  }

  lemma InitiallyInv()
    ensures Inv(START)
  {
    forall id ensures AccountedFor(EMPTY, EMPTY, [], [], id) {}
  }
}
