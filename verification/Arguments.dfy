/** The plain arguments of a whole message: any number of references, to objects of either side, the same
    object among them any number of times; and their release by the receiver in any order. */
module Arguments {
  import opened NpObjects
  import opened Ownership
  import opened OwnershipTransfer
  import opened Loans

  predicate CanLend(a: Bridge, b: Bridge, p: Ptr) {
    && p in a.heap && a.heap[p].referenceCount > 0 && a.heap[p].held > 0
    && (a.heap[p].kind.Proxy? ==> a.heap[p].kind.isValid && StubIsSound(b, a.heap[p].kind.id))
  }

  ghost predicate Lendable(a: Bridge, b: Bridge, objects: seq<Ptr>, ats: seq<Ptr>) {
    && |objects| == |ats|
    && (forall i :: 0 <= i < |objects| ==> CanLend(a, b, objects[i]) && ats[i] !in b.heap)
    && (forall i, j :: 0 <= i < j < |ats| ==> ats[i] != ats[j])
    && (forall id :: id > a.nextId ==> id !in a.stubs && id !in b.proxies)
  }

  // The sender holds what it passes, and the receiver has memory for the proxies.
  predicate CanPass(w: World, objects: seq<Ptr>, ats: seq<Ptr>) {
    && |objects| == |ats|
    && (forall i :: 0 <= i < |objects| ==> Allowed(w, MSend(objects[i], false)) && ats[i] !in w.b.heap)
    && (forall i, j :: 0 <= i < j < |ats| ==> ats[i] != ats[j])
  }

  lemma QuietIsLendable(w: World, da: seq<Item>, db: seq<Item>, objects: seq<Ptr>, ats: seq<Ptr>)
    requires Quiet(w, da, db) && CanPass(w, objects, ats)
    ensures Lendable(w.a, w.b, objects, ats)
  {
    var v := w.(toB := da, toA := db);
    forall i | 0 <= i < |objects| ensures CanLend(w.a, w.b, objects[i]) {
      assert Allowed(w, MSend(objects[i], false));
      if w.a.heap[objects[i]].kind.Proxy? { ProxyHasStub(v, objects[i]); }
    }
    forall id | id > w.a.nextId ensures id !in w.a.stubs && id !in w.b.proxies {
      assert AccountedFor(v.a, v.b, v.toB, v.toA, id);
      AbsentIsUnregistered(v.b, id);
    }
  }

  function NativeCount(a: Bridge, objects: seq<Ptr>): nat {
    if objects == [] then 0
    else
      var n := |objects| - 1;
      NativeCount(a, objects[..n]) + (if objects[n] in a.heap && a.heap[objects[n]].kind.Native? then 1 else 0)
  }

  function LoanOf(a: Bridge, b: Bridge, p: Ptr, at: Ptr, id: StubId): Loan {
    if p in a.heap && a.heap[p].kind.Proxy? && a.heap[p].kind.id in b.stubs
    then ToOwner(a.heap[p].kind.id, b.stubs[a.heap[p].kind.id])
    else ToProxy(p, at, id)
  }

  function LoansOf(a: Bridge, b: Bridge, objects: seq<Ptr>, ats: seq<Ptr>): (loans: seq<Loan>)
    requires |objects| == |ats|
    ensures |loans| == |objects|
  {
    if objects == [] then []
    else
      var n := |objects| - 1;
      LoansOf(a, b, objects[..n], ats[..n])
      + [LoanOf(a, b, objects[n], ats[n], a.nextId + NativeCount(a, objects[..n]) + 1)]
  }

  lemma FewerLendable(a: Bridge, b: Bridge, objects: seq<Ptr>, ats: seq<Ptr>)
    requires Lendable(a, b, objects, ats) && objects != []
    ensures var n := |objects| - 1; Lendable(a, b, objects[..n], ats[..n])
  {
  }

  lemma LoanOfIsLoan(a: Bridge, b: Bridge, objects: seq<Ptr>, ats: seq<Ptr>, i: nat, id: StubId)
    requires Lendable(a, b, objects, ats) && i < |objects| && id > a.nextId
    ensures var l := LoanOf(a, b, objects[i], ats[i], id);
      && IsLoan(a, b, l) && (l.ToProxy? ==> l.at == ats[i] && l.id == id)
      && objects[i] in a.heap && (l.ToProxy? <==> a.heap[objects[i]].kind.Native?)
  {
    assert CanLend(a, b, objects[i]);
  }

  // The loans use the given pointers and the ids from a.nextId to last.
  predicate Within(a: Bridge, last: nat, ats: seq<Ptr>, loans: seq<Loan>) {
    |loans| == |ats|
    && forall i :: 0 <= i < |loans| && loans[i].ToProxy? ==> loans[i].at == ats[i] && a.nextId < loans[i].id <= last
  }

  lemma NextIsApart(a: Bridge, last: nat, ats: seq<Ptr>, loans: seq<Loan>, l: Loan)
    requires ats != [] && (forall i, j :: 0 <= i < j < |ats| ==> ats[i] != ats[j])
    requires Within(a, last, ats[..|ats| - 1], loans) && last >= a.nextId
    requires l.ToProxy? ==> l.at == ats[|ats| - 1] && l.id == last + 1
    ensures forall i :: 0 <= i < |loans| ==> Apart(loans[i], l)
    ensures Within(a, if l.ToProxy? then last + 1 else last, ats, loans + [l])
  {
    var n := |ats| - 1;
    forall i | 0 <= i < n ensures ats[..n][i] == ats[i] {}
    forall i | 0 <= i < |loans| ensures (loans + [l])[i] == loans[i] {}
  }

  lemma NoLoans(a: Bridge, b: Bridge)
    ensures AreLoans(a, b, []) && Within(a, a.nextId, [], [])
  {
  }

  lemma {:induction false} LoansAreNew(a: Bridge, b: Bridge, objects: seq<Ptr>, ats: seq<Ptr>)
    requires Lendable(a, b, objects, ats)
    ensures AreLoans(a, b, LoansOf(a, b, objects, ats))
    ensures Within(a, a.nextId + NativeCount(a, objects), ats, LoansOf(a, b, objects, ats))
    decreases |objects|
  {
    hide AreLoans, IsLoan, LoanOf, Within, Apart, CanLend;
    NoLoans(a, b);
    if objects != [] {
      var n := |objects| - 1;
      FewerLendable(a, b, objects, ats);
      LoansAreNew(a, b, objects[..n], ats[..n]);
      var before, last := LoansOf(a, b, objects[..n], ats[..n]), a.nextId + NativeCount(a, objects[..n]);
      LoanOfIsLoan(a, b, objects, ats, n, last + 1);
      var l := LoanOf(a, b, objects[n], ats[n], last + 1);
      NextIsApart(a, last, ats, before, l);
      OneMoreLoan(a, b, before, l);
    }
  }

  // --- The run ---

  function Sends(objects: seq<Ptr>): seq<Step> {
    if objects == [] then [] else Sends(objects[..|objects| - 1]) + [ByA(MSend(objects[|objects| - 1], false))]
  }

  function Delivers(ats: seq<Ptr>): seq<Step> {
    if ats == [] then [] else Delivers(ats[..|ats| - 1]) + [ByB(MDeliver(ats[|ats| - 1]))]
  }

  function ItemOf(l: Loan): Item {
    match l
    case ToProxy(_, _, id) => SenderOwned(id)
    case ToOwner(id, _) => ReceiverOwned(id, false)
  }

  function ItemsOf(loans: seq<Loan>): (items: seq<Item>)
    ensures |items| == |loans| && forall i :: 0 <= i < |loans| ==> items[i] == ItemOf(loans[i])
  {
    if loans == [] then [] else ItemsOf(loans[..|loans| - 1]) + [ItemOf(loans[|loans| - 1])]
  }

  function Numbered(a: Bridge, nextId: nat): Bridge {
    a.(nextId := nextId)
  }

  lemma {:induction false} NumberedLentA(a: Bridge, nextId: nat, loans: seq<Loan>)
    ensures Numbered(LentA(a, loans), nextId) == LentA(Numbered(a, nextId), loans)
    decreases |loans|
  {
    if loans != [] { NumberedLentA(a, nextId, loans[..|loans| - 1]); }
  }

  function AfterSends(w: World, objects: seq<Ptr>, ats: seq<Ptr>): World
    requires |objects| == |ats|
  {
    var loans := LoansOf(w.a, w.b, objects, ats);
    World(Numbered(LentA(w.a, loans), w.a.nextId + NativeCount(w.a, objects)), w.b, ItemsOf(loans), [], w.failed)
  }

  // Marshalling one more object, after the loans of the objects before it.
  lemma SendOneMore(w: World, loans: seq<Loan>, nextId: nat, p: Ptr, at: Ptr)
    requires w.toA == [] && CanLend(w.a, w.b, p)
    ensures var now := World(Numbered(LentA(w.a, loans), nextId), w.b, ItemsOf(loans), [], w.failed);
      var l := LoanOf(w.a, w.b, p, at, nextId + 1);
      && Possible(now, ByA(MSend(p, false)))
      && Next(now, ByA(MSend(p, false))) ==
           World(Numbered(LendA(LentA(w.a, loans), l), if l.ToProxy? then nextId + 1 else nextId), w.b,
                 ItemsOf(loans) + [ItemOf(l)], [], w.failed)
  {
    hide LentA;
    LentAFrame(w.a, loans);
  }

  lemma OneMoreLent(a: Bridge, b: Bridge, loans: seq<Loan>, l: Loan)
    ensures LentA(a, loans + [l]) == LendA(LentA(a, loans), l)
    ensures LentB(b, loans + [l]) == LendB(LentB(b, loans), l)
    ensures ItemsOf(loans + [l]) == ItemsOf(loans) + [ItemOf(l)]
  {
    hide LendA, LendB, ItemOf;
    assert (loans + [l])[..|loans|] == loans;
  }

  lemma {:induction false} SendAllOfThem(w: World, objects: seq<Ptr>, ats: seq<Ptr>)
    requires Still(w) && Lendable(w.a, w.b, objects, ats)
    ensures Legal(w, Sends(objects)) && Run(w, Sends(objects)) == AfterSends(w, objects, ats)
    decreases |objects|
  {
    hide LendA, LentA, LoanOf, ItemOf, ItemsOf, CanLend, IsLoan, Next, Possible, Legal, Run;
    if objects == [] {
      NothingSent(w);
    } else {
      var n := |objects| - 1;
      FewerLendable(w.a, w.b, objects, ats);
      SendAllOfThem(w, objects[..n], ats[..n]);
      var before, last := LoansOf(w.a, w.b, objects[..n], ats[..n]), w.a.nextId + NativeCount(w.a, objects[..n]);
      LoanOfIsLoan(w.a, w.b, objects, ats, n, last + 1);
      var l := LoanOf(w.a, w.b, objects[n], ats[n], last + 1);
      assert LoansOf(w.a, w.b, objects, ats) == before + [l];
      OneMoreLent(w.a, w.b, before, l);
      SendOneMore(w, before, last, objects[n], ats[n]);
      Extend(w, Sends(objects[..n]), AfterSends(w, objects[..n], ats[..n]),
             ByA(MSend(objects[n], false)), AfterSends(w, objects, ats));
    }
  }

  lemma NothingSent(w: World)
    requires Still(w)
    ensures Legal(w, Sends([])) && Run(w, Sends([])) == AfterSends(w, [], [])
  {
  }

  // Receiving one reference.
  lemma ReceiveLends(b: Bridge, l: Loan, at: Ptr)
    requires at !in b.heap && (l.ToProxy? ==> l.at == at)
    requires l.ToOwner? ==> StubIsSound(b, l.id) && b.stubs[l.id] == l.q
    ensures var r := RecvObject(b, ItemOf(l), at, true);
      r.Some? && r.value.0.sent == [] && r.value.1 in r.value.0.bridge.heap
      && Gain(r.value.0.bridge, r.value.1) == LendB(b, l)
  {
    match l
    case ToProxy(_, _, id) => assert Gain(CreateProxy(b, at, id), at).heap == LendB(b, l).heap;
    case ToOwner(id, q) => assert Gain(Retain(b, q), q).heap == LendB(b, l).heap;
  }

  lemma DeliverOneMore(now: World, l: Loan, at: Ptr)
    requires now.toA == [] && now.toB != [] && now.toB[0] == ItemOf(l)
    requires at !in now.b.heap && (l.ToProxy? ==> l.at == at)
    requires l.ToOwner? ==> StubIsSound(now.b, l.id) && now.b.stubs[l.id] == l.q
    ensures Possible(now, ByB(MDeliver(at)))
    ensures Next(now, ByB(MDeliver(at))) == World(now.a, LendB(now.b, l), now.toB[1..], [], now.failed)
  {
    hide LendB;
    ReceiveLends(now.b, l, at);
    assert now.toA + [] == [];
  }

  function AfterDelivers(w: World, objects: seq<Ptr>, ats: seq<Ptr>, k: nat): World
    requires |objects| == |ats| && k <= |ats|
  {
    var sent, loans := AfterSends(w, objects, ats), LoansOf(w.a, w.b, objects, ats);
    World(sent.a, LentB(w.b, loans[..k]), ItemsOf(loans)[k..], [], w.failed)
  }

  // What the receipt of the loan at k relies on, whatever has been received before.
  lemma ReadyForLoan(a: Bridge, b: Bridge, last: nat, ats: seq<Ptr>, loans: seq<Loan>, k: nat)
    requires AreLoans(a, b, loans) && Within(a, last, ats, loans) && k < |ats| && ats[k] !in b.heap
    requires forall i, j :: 0 <= i < j < |ats| ==> ats[i] != ats[j]
    ensures var b', l := LentB(b, loans[..k]), loans[k];
      && ats[k] !in b'.heap && (l.ToProxy? ==> l.at == ats[k])
      && (l.ToOwner? ==> StubIsSound(b', l.id) && b'.stubs[l.id] == l.q)
  {
    hide LendB, LentB;
    FewerLoans(a, b, loans, k);
    LentBFrame(a, b, loans[..k]);
    LentBHeap(b, loans[..k], ats[k]);
    assert IsLoan(a, b, loans[k]);
  }

  lemma {:induction false} SentAndDelivered(w: World, objects: seq<Ptr>, ats: seq<Ptr>, k: nat)
    requires Still(w) && Lendable(w.a, w.b, objects, ats) && k <= |ats|
    ensures Legal(w, Sends(objects) + Delivers(ats[..k]))
    ensures Run(w, Sends(objects) + Delivers(ats[..k])) == AfterDelivers(w, objects, ats, k)
    decreases k
  {
    hide LendB, LentB, LentA, LoansOf, ItemOf, Next, Possible, Legal, Run, AreLoans, Within, NativeCount, Lendable;
    FreshPointers(w.a, w.b, objects, ats);
    var loans := LoansOf(w.a, w.b, objects, ats);
    if k == 0 {
      SendAllOfThem(w, objects, ats);
      assert Sends(objects) + Delivers(ats[..0]) == Sends(objects);
      NothingDelivered(w, objects, ats);
    } else {
      SentAndDelivered(w, objects, ats, k - 1);
      LoansAreNew(w.a, w.b, objects, ats);
      ReadyForLoan(w.a, w.b, w.a.nextId + NativeCount(w.a, objects), ats, loans, k - 1);
      var now := AfterDelivers(w, objects, ats, k - 1);
      DeliverOneMore(now, loans[k - 1], ats[k - 1]);
      assert loans[..k] == loans[..k - 1] + [loans[k - 1]];
      OneMoreLent(w.a, w.b, loans[..k - 1], loans[k - 1]);
      Extend(w, Sends(objects) + Delivers(ats[..k - 1]), now, ByB(MDeliver(ats[k - 1])),
             AfterDelivers(w, objects, ats, k));
      OneMoreDelivered(objects, ats, k);
    }
  }

  lemma FreshPointers(a: Bridge, b: Bridge, objects: seq<Ptr>, ats: seq<Ptr>)
    requires Lendable(a, b, objects, ats)
    ensures |objects| == |ats| && forall i :: 0 <= i < |ats| ==> ats[i] !in b.heap
    ensures forall i, j :: 0 <= i < j < |ats| ==> ats[i] != ats[j]
  {
  }

  lemma OneMoreDelivered(objects: seq<Ptr>, ats: seq<Ptr>, k: nat)
    requires 0 < k <= |ats|
    ensures Sends(objects) + Delivers(ats[..k - 1]) + [ByB(MDeliver(ats[k - 1]))] == Sends(objects) + Delivers(ats[..k])
  {
    assert ats[..k][..k - 1] == ats[..k - 1];
  }

  lemma NothingDelivered(w: World, objects: seq<Ptr>, ats: seq<Ptr>)
    requires |objects| == |ats|
    ensures AfterDelivers(w, objects, ats, 0) == AfterSends(w, objects, ats)
  {
    assert LoansOf(w.a, w.b, objects, ats)[..0] == [];
  }

  // --- Giving back ---

  // The two sides with the given loans out, and nothing under way.
  function Lent(w: World, nextId: nat, loans: seq<Loan>): World {
    World(LentA(Numbered(w.a, nextId), loans), LentB(w.b, loans), [], [], w.failed)
  }

  // The handler on side b releases what it was lent; the last reference to a proxy is given up by a call.
  function GiveBack(l: Loan, spareA: Ptr, spareB: Ptr): seq<Step> {
    match l
    case ToProxy(_, at, _) => [ByB(MRelease(at)), ByA(MDeliver(spareA)), ByB(MDeliver(spareB))]
    case ToOwner(_, q) => [ByB(MRelease(q))]
  }

  // The indices, each into the loans still out, of the loans to give back.
  predicate IsOrder(n: nat, order: seq<nat>) {
    order != [] ==> order[0] < n && IsOrder(n - 1, order[1..])
  }

  function Kept(loans: seq<Loan>, order: seq<nat>): seq<Loan>
    requires IsOrder(|loans|, order)
    decreases |order|
  {
    if order == [] then loans else Kept(Without(loans, order[0]), order[1..])
  }

  function Releases(loans: seq<Loan>, order: seq<nat>, spareA: Ptr, spareB: Ptr): seq<Step>
    requires IsOrder(|loans|, order)
    decreases |order|
  {
    if order == [] then []
    else GiveBack(loans[order[0]], spareA, spareB) + Releases(Without(loans, order[0]), order[1..], spareA, spareB)
  }

  lemma GiveBackOwn(now: World, l: Loan)
    requires Still(now) && l.ToOwner? && l.q in now.b.heap
    requires now.b.heap[l.q].referenceCount > 1 && now.b.heap[l.q].held > 0
    ensures Possible(now, ByB(MRelease(l.q)))
    ensures Next(now, ByB(MRelease(l.q))) == now.(b := ReturnB(now.b, l))
  {
    assert Release(Give(now.b, l.q), l.q, true).bridge.heap == ReturnB(now.b, l).heap;
    assert now.toA + [] == [];
  }

  // The proxy's release starts a call.
  lemma GiveBackProxy(now: World, l: Loan, dying: Bridge)
    requires Still(now) && l.ToProxy? && l.at in now.b.heap && now.b.heap[l.at] == NPObject(1, Proxy(l.id, true), 1)
    requires dying == now.b.(heap := now.b.heap[l.at := NPObject(0, Proxy(l.id, true), 0)])
    ensures Possible(now, ByB(MRelease(l.at)))
    ensures Next(now, ByB(MRelease(l.at))) == now.(b := dying, toA := [Deallocate(l.id, true)])
  {
    assert Release(Give(now.b, l.at), l.at, true).bridge.heap == dying.heap;
    assert now.toA + [Deallocate(l.id, true)] == [Deallocate(l.id, true)];
  }

  // Its handler destroys the stub, and replies.
  lemma StubGivenBack(now: World, l: Loan, spareA: Ptr)
    requires now.toB == [] && now.toA == [Deallocate(l.id, true)] && spareA !in now.a.heap
    requires l.ToProxy? && l.id in now.a.stubs && now.a.stubs[l.id] == l.p
    requires l.p in now.a.heap && now.a.heap[l.p].referenceCount > 1
    ensures Possible(now, ByA(MDeliver(spareA)))
    ensures Next(now, ByA(MDeliver(spareA)))
      == World(ReturnA(now.a, l), now.b, [DeallocateDone(l.id, true)], [], now.failed)
  {
    var freed := now.a.(stubs := now.a.stubs - {l.id});
    assert Release(freed, l.p, true) == Effect(ReturnA(now.a, l), []);
    assert now.toB + ([] + [DeallocateDone(l.id, true)]) == [DeallocateDone(l.id, true)];
    assert [Deallocate(l.id, true)][1..] == [];
  }

  // The call returns, and the proxy is freed.
  lemma ProxyFreed(now: World, l: Loan, b: Bridge, spareB: Ptr)
    requires now.toA == [] && now.toB == [DeallocateDone(l.id, true)] && l.ToProxy? && spareB !in now.b.heap
    requires l.id in b.proxies && b.proxies[l.id] == l.at
    requires now.b == b.(heap := b.heap[l.at := NPObject(0, Proxy(l.id, true), 0)])
    ensures Possible(now, ByB(MDeliver(spareB)))
    ensures Next(now, ByB(MDeliver(spareB))) == World(now.a, ReturnB(b, l), [], [], now.failed)
  {
    assert FreeProxy(now.b, l.at).heap == ReturnB(b, l).heap;
    assert [DeallocateDone(l.id, true)][1..] == [];
  }

  lemma OneStep(w: World, s: Step, after: World)
    requires Possible(w, s) && Next(w, s) == after
    ensures Legal(w, [s]) && Run(w, [s]) == after
  {
    assert [s][1..] == [];
  }

  lemma GiveBackOne(now: World, l: Loan, spareA: Ptr, spareB: Ptr)
    requires Still(now) && spareA !in now.a.heap && spareB !in now.b.heap
    requires match l
      case ToProxy(p, at, id) =>
        && at in now.b.heap && now.b.heap[at] == NPObject(1, Proxy(id, true), 1)
        && id in now.b.proxies && now.b.proxies[id] == at
        && id in now.a.stubs && now.a.stubs[id] == p && p in now.a.heap && now.a.heap[p].referenceCount > 1
      case ToOwner(_, q) => q in now.b.heap && now.b.heap[q].referenceCount > 1 && now.b.heap[q].held > 0
    ensures var run := GiveBack(l, spareA, spareB);
      Legal(now, run) && Run(now, run) == now.(a := ReturnA(now.a, l), b := ReturnB(now.b, l))
  {
    hide Possible, Next, ReturnB, Legal, Run;
    match l
    case ToOwner(_, q) =>
      GiveBackOwn(now, l);
      OneStep(now, ByB(MRelease(q)), now.(b := ReturnB(now.b, l)));
    case ToProxy(p, at, id) =>
      var dying := now.b.(heap := now.b.heap[at := NPObject(0, Proxy(id, true), 0)]);
      GiveBackProxy(now, l, dying);
      var called := now.(b := dying, toA := [Deallocate(id, true)]);
      OneStep(now, ByB(MRelease(at)), called);
      StubGivenBack(called, l, spareA);
      var replied := World(ReturnA(now.a, l), dying, [DeallocateDone(id, true)], [], now.failed);
      Extend(now, [ByB(MRelease(at))], called, ByA(MDeliver(spareA)), replied);
      assert spareB !in dying.heap;
      ProxyFreed(replied, l, now.b, spareB);
      assert [ByB(MRelease(at))] + [ByA(MDeliver(spareA))] == [ByB(MRelease(at)), ByA(MDeliver(spareA))];
      var run := [ByB(MRelease(at)), ByA(MDeliver(spareA))];
      Extend(now, run, replied, ByB(MDeliver(spareB)), now.(a := ReturnA(now.a, l), b := ReturnB(now.b, l)));
      assert run + [ByB(MDeliver(spareB))] == GiveBack(l, spareA, spareB);
  }

  predicate NotLent(loans: seq<Loan>, at: Ptr) {
    forall i :: 0 <= i < |loans| && loans[i].ToProxy? ==> loans[i].at != at
  }

  lemma OneGivenBack(w: World, nextId: nat, loans: seq<Loan>, k: nat, spareA: Ptr, spareB: Ptr)
    requires AreLoans(w.a, w.b, loans) && k < |loans|
    requires spareA !in w.a.heap && spareB !in w.b.heap && NotLent(loans, spareB)
    ensures var now, run := Lent(w, nextId, loans), GiveBack(loans[k], spareA, spareB);
      Legal(now, run) && Run(now, run) == Lent(w, nextId, Without(loans, k))
  {
    hide LendA, LendB, LentA, LentB, ReturnA, ReturnB, Legal, Run, GiveBack;
    var a := Numbered(w.a, nextId);
    assert forall i :: 0 <= i < |loans| ==> (IsLoan(w.a, w.b, loans[i]) ==> IsLoan(a, w.b, loans[i]));
    assert AreLoans(a, w.b, loans) && IsLoan(w.a, w.b, loans[k]);
    LentAFrame(a, loans);
    if loans[k].ToProxy? { LentAPins(a, w.b, loans, k); }
    LentBHolds(w.a, w.b, loans, k);
    LentBHeap(w.b, loans, spareB);
    GiveBackOne(Lent(w, nextId, loans), loans[k], spareA, spareB);
    GivenBackA(a, w.b, loans, k);
    GivenBackB(w.a, w.b, loans, k);
  }

  lemma StillLoans(w: World, loans: seq<Loan>, k: nat, at: Ptr)
    requires AreLoans(w.a, w.b, loans) && k < |loans| && NotLent(loans, at)
    ensures |Without(loans, k)| == |loans| - 1
    ensures AreLoans(w.a, w.b, Without(loans, k)) && NotLent(Without(loans, k), at)
  {
    hide IsLoan, Apart;
  }

  lemma {:induction false} ManyGivenBack(w: World, nextId: nat, loans: seq<Loan>, order: seq<nat>,
                                         spareA: Ptr, spareB: Ptr)
    requires AreLoans(w.a, w.b, loans) && IsOrder(|loans|, order)
    requires spareA !in w.a.heap && spareB !in w.b.heap && NotLent(loans, spareB)
    ensures var now, run := Lent(w, nextId, loans), Releases(loans, order, spareA, spareB);
      Legal(now, run) && Run(now, run) == Lent(w, nextId, Kept(loans, order))
    decreases |order|
  {
    hide AreLoans, Lent, GiveBack, Without, NotLent, Next, Possible;
    if order != [] {
      var k := order[0];
      StillLoans(w, loans, k, spareB);
      OneGivenBack(w, nextId, loans, k, spareA, spareB);
      ManyGivenBack(w, nextId, Without(loans, k), order[1..], spareA, spareB);
      Continue(Lent(w, nextId, loans), GiveBack(loans[k], spareA, spareB),
               Releases(Without(loans, k), order[1..], spareA, spareB));
    }
  }

  function MessageRun(w: World, objects: seq<Ptr>, ats: seq<Ptr>, order: seq<nat>, spareA: Ptr, spareB: Ptr): seq<Step>
    requires |objects| == |ats| && IsOrder(|objects|, order)
  {
    Sends(objects) + Delivers(ats) + Releases(LoansOf(w.a, w.b, objects, ats), order, spareA, spareB)
  }

  // All references received, none given back.
  lemma AllDelivered(w: World, objects: seq<Ptr>, ats: seq<Ptr>)
    requires Still(w) && Lendable(w.a, w.b, objects, ats)
    ensures var loans, nextId := LoansOf(w.a, w.b, objects, ats), w.a.nextId + NativeCount(w.a, objects);
      && Legal(w, Sends(objects) + Delivers(ats))
      && Run(w, Sends(objects) + Delivers(ats)) == Lent(w, nextId, loans)
  {
    hide LendA, LendB, LentA, LentB, Legal, Run, Lendable, NativeCount, Sends, Delivers;
    FreshPointers(w.a, w.b, objects, ats);
    SentAndDelivered(w, objects, ats, |ats|);
    var loans := LoansOf(w.a, w.b, objects, ats);
    assert ats[..|ats|] == ats && loans[..|ats|] == loans && ItemsOf(loans)[|ats|..] == [];
    NumberedLentA(w.a, w.a.nextId + NativeCount(w.a, objects), loans);
  }

  /** Side a passes any references, its own objects and proxies mixed and repeated, in one message; side b's
      handler gives back any of them in any order. What is left depends only on what was kept: each kept
      object is pinned by its stub, or retained by its owner, and nothing else has changed on either side but
      that the stub ids given out will not be used again. */
  lemma ArgumentsGivenBack(w: World, da: seq<Item>, db: seq<Item>, objects: seq<Ptr>, ats: seq<Ptr>, order: seq<nat>,
                           spareA: Ptr, spareB: Ptr)
    requires Quiet(w, da, db) && CanPass(w, objects, ats) && IsOrder(|objects|, order)
    requires spareA !in w.a.heap && spareB !in w.b.heap && spareB !in ats
    ensures var run, loans := MessageRun(w, objects, ats, order, spareA, spareB), LoansOf(w.a, w.b, objects, ats);
      && Legal(w, run)
      && Run(w, run) == Lent(w, w.a.nextId + NativeCount(w.a, objects), Kept(loans, order))
  {
    hide Quiet, CanPass, Lendable, AreLoans, Sends, Delivers, NativeCount, Legal, Run, Releases, Kept, Lent, LoanOf;
    MessagePremises(w, da, db, objects, ats, spareB);
    var loans, nextId := LoansOf(w.a, w.b, objects, ats), w.a.nextId + NativeCount(w.a, objects);
    AllDelivered(w, objects, ats);
    ManyGivenBack(w, nextId, loans, order, spareA, spareB);
    Continue(w, Sends(objects) + Delivers(ats), Releases(loans, order, spareA, spareB));
  }

  lemma MessagePremises(w: World, da: seq<Item>, db: seq<Item>, objects: seq<Ptr>, ats: seq<Ptr>, spareB: Ptr)
    requires Quiet(w, da, db) && CanPass(w, objects, ats) && spareB !in ats
    ensures Still(w) && Lendable(w.a, w.b, objects, ats) && |objects| == |ats|
    ensures var loans := LoansOf(w.a, w.b, objects, ats); AreLoans(w.a, w.b, loans) && NotLent(loans, spareB)
  {
    hide AreLoans, LoanOf, LoansOf, NativeCount, Inv, CanLend, Allowed;
    QuietIsLendable(w, da, db, objects, ats);
    LoansAreNew(w.a, w.b, objects, ats);
  }

  lemma {:induction false} AllKeptIsNone(loans: seq<Loan>, order: seq<nat>)
    requires IsOrder(|loans|, order) && |order| == |loans|
    ensures Kept(loans, order) == []
    decreases |order|
  {
    if order != [] { AllKeptIsNone(Without(loans, order[0]), order[1..]); }
  }

  lemma NothingLent(w: World, da: seq<Item>, db: seq<Item>, nextId: nat)
    requires Quiet(w, da, db)
    ensures Lent(w, nextId, []) == w.(a := w.a.(nextId := nextId))
  {
    hide Inv;
  }

  /** Plain arguments that the receiver does not keep, however many and in whatever order it releases them,
      leave nothing but stub ids that will not be used again. */
  lemma ArgumentsNotKept(w: World, da: seq<Item>, db: seq<Item>, objects: seq<Ptr>, ats: seq<Ptr>, order: seq<nat>,
                         spareA: Ptr, spareB: Ptr)
    requires Quiet(w, da, db) && CanPass(w, objects, ats) && IsOrder(|objects|, order) && |order| == |objects|
    requires spareA !in w.a.heap && spareB !in w.b.heap && spareB !in ats
    ensures var run := MessageRun(w, objects, ats, order, spareA, spareB);
      Legal(w, run) && Run(w, run) == w.(a := w.a.(nextId := w.a.nextId + NativeCount(w.a, objects)))
  {
    hide Quiet, MessageRun, Legal, Run, NativeCount, LoanOf, LoansOf, Lent, IsOrder, Kept, Allowed;
    ArgumentsGivenBack(w, da, db, objects, ats, order, spareA, spareB);
    AllKeptIsNone(LoansOf(w.a, w.b, objects, ats), order);
    NothingLent(w, da, db, w.a.nextId + NativeCount(w.a, objects));
  }
}
