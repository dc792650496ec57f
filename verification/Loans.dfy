/** References lent by one side to the other, and given back in any order. */
module Loans {
  import opened NpObjects

  // A reference that side b was lent by a message of side a. ToProxy: to side a's object p, by way of stub id
  // and the proxy at `at`. ToOwner: to side b's own object q, which stub id is for.
  datatype Loan = ToProxy(p: Ptr, at: Ptr, id: StubId) | ToOwner(id: StubId, q: Ptr)

  function LendA(a: Bridge, l: Loan): Bridge {
    if l.ToProxy? && l.p in a.heap
    then a.(heap := a.heap[l.p := a.heap[l.p].(referenceCount := a.heap[l.p].referenceCount + 1)],
            stubs := a.stubs[l.id := l.p])
    else a
  }

  function LendB(b: Bridge, l: Loan): Bridge {
    match l
    case ToProxy(_, at, id) => b.(heap := b.heap[at := NPObject(1, Proxy(id, true), 1)], proxies := b.proxies[id := at])
    case ToOwner(_, q) => if q in b.heap then b.(heap := b.heap[q := OneMore(b.heap[q])]) else b
  }

  function OneMore(obj: NPObject): NPObject {
    obj.(referenceCount := obj.referenceCount + 1, held := obj.held + 1)
  }

  // The two sides with the given loans out.
  function LentA(a: Bridge, loans: seq<Loan>): Bridge {
    if loans == [] then a else LendA(LentA(a, loans[..|loans| - 1]), loans[|loans| - 1])
  }

  function LentB(b: Bridge, loans: seq<Loan>): Bridge {
    if loans == [] then b else LendB(LentB(b, loans[..|loans| - 1]), loans[|loans| - 1])
  }

  // A loan given back.
  function ReturnA(a: Bridge, l: Loan): Bridge {
    if l.ToProxy? && l.p in a.heap && a.heap[l.p].referenceCount > 0
    then a.(heap := a.heap[l.p := OneLess(a.heap[l.p])], stubs := a.stubs - {l.id})
    else a
  }

  function ReturnB(b: Bridge, l: Loan): Bridge {
    match l
    case ToProxy(_, at, id) => b.(heap := b.heap - {at}, proxies := b.proxies - {id})
    case ToOwner(_, q) =>
      if q in b.heap && b.heap[q].referenceCount > 0 && b.heap[q].held > 0
      then b.(heap := b.heap[q := OneHandedOver(b.heap[q])]) else b
  }

  predicate IsLoan(a: Bridge, b: Bridge, l: Loan) {
    match l
    case ToProxy(p, at, id) =>
      p in a.heap && a.heap[p].referenceCount > 0 && at !in b.heap && id !in a.stubs && id !in b.proxies
    case ToOwner(id, q) => id in b.stubs && b.stubs[id] == q && q in b.heap && b.heap[q].referenceCount > 0
  }

  predicate Apart(l: Loan, m: Loan) {
    l.ToProxy? && m.ToProxy? ==> l.at != m.at && l.id != m.id
  }

  predicate AreLoans(a: Bridge, b: Bridge, loans: seq<Loan>) {
    && (forall i :: 0 <= i < |loans| ==> IsLoan(a, b, loans[i]))
    && (forall i, j :: 0 <= i < j < |loans| ==> Apart(loans[i], loans[j]))
  }

  function Without(loans: seq<Loan>, k: nat): seq<Loan>
    requires k < |loans|
  {
    loans[..k] + loans[k + 1..]
  }

  lemma FewerLoans(a: Bridge, b: Bridge, loans: seq<Loan>, k: nat)
    requires AreLoans(a, b, loans) && k < |loans|
    ensures AreLoans(a, b, Without(loans, k))
    ensures AreLoans(a, b, loans[..k])
  {
  }

  lemma OneMoreLoan(a: Bridge, b: Bridge, loans: seq<Loan>, l: Loan)
    requires AreLoans(a, b, loans) && IsLoan(a, b, l)
    requires forall i :: 0 <= i < |loans| ==> Apart(loans[i], l)
    ensures AreLoans(a, b, loans + [l])
  {
    var all := loans + [l];
    forall i | 0 <= i < |all| ensures IsLoan(a, b, all[i]) {
      if i < |loans| { assert all[i] == loans[i]; }
    }
    forall i, j | 0 <= i < j < |all| ensures Apart(all[i], all[j]) {
      if j < |loans| { assert all[i] == loans[i] && all[j] == loans[j]; }
    }
  }

  // --- What loans leave alone ---

  lemma {:induction false} LentAFrame(a: Bridge, loans: seq<Loan>)
    ensures var a' := LentA(a, loans);
      && a'.heap.Keys == a.heap.Keys && a'.proxies == a.proxies && a'.nextId == a.nextId
      && forall p :: p in a.heap ==>
           && a'.heap[p] == a.heap[p].(referenceCount := a'.heap[p].referenceCount)
           && a'.heap[p].referenceCount >= a.heap[p].referenceCount
    decreases |loans|
  {
    if loans != [] { LentAFrame(a, loans[..|loans| - 1]); }
  }

  // A stub made for a loan pins its object.
  lemma {:induction false} LentAPins(a: Bridge, b: Bridge, loans: seq<Loan>, i: nat)
    requires AreLoans(a, b, loans) && i < |loans| && loans[i].ToProxy?
    ensures var a', p, id := LentA(a, loans), loans[i].p, loans[i].id;
      && p in a'.heap && a'.heap[p].referenceCount > a.heap[p].referenceCount
      && id in a'.stubs && a'.stubs[id] == p
    decreases |loans|
  {
    var n := |loans| - 1;
    LentAFrame(a, loans[..n]);
    if i < n {
      FewerLoans(a, b, loans, n);
      LentAPins(a, b, loans[..n], i);
      assert loans[..n][i] == loans[i] && Apart(loans[i], loans[n]);
    }
  }

  // Pointers and stub ids that no loan uses.
  predicate Unused(loans: seq<Loan>, at: Ptr, id: StubId) {
    forall i :: 0 <= i < |loans| && loans[i].ToProxy? ==> loans[i].at != at && loans[i].id != id
  }

  lemma {:induction false} LentAFree(a: Bridge, loans: seq<Loan>, at: Ptr, id: StubId)
    requires Unused(loans, at, id) && id !in a.stubs
    ensures id !in LentA(a, loans).stubs
    decreases |loans|
  {
    if loans != [] {
      var n := |loans| - 1;
      forall i | 0 <= i < n ensures loans[..n][i] == loans[i] {}
      LentAFree(a, loans[..n], at, id);
    }
  }

  lemma {:induction false} LentBFrame(a: Bridge, b: Bridge, loans: seq<Loan>)
    requires AreLoans(a, b, loans)
    ensures var b' := LentB(b, loans); b'.stubs == b.stubs && b'.nextId == b.nextId
    ensures forall q :: q in b.heap ==>
      var b' := LentB(b, loans);
      && q in b'.heap
      && b'.heap[q] == b.heap[q].(referenceCount := b'.heap[q].referenceCount, held := b'.heap[q].held)
      && b'.heap[q].referenceCount >= b.heap[q].referenceCount && b'.heap[q].held >= b.heap[q].held
    decreases |loans|
  {
    if loans != [] {
      var n := |loans| - 1;
      FewerLoans(a, b, loans, n);
      LentBFrame(a, b, loans[..n]);
    }
  }

  lemma {:induction false} LentBFree(b: Bridge, loans: seq<Loan>, at: Ptr, id: StubId)
    requires Unused(loans, at, id) && at !in b.heap && id !in b.proxies
    ensures at !in LentB(b, loans).heap && id !in LentB(b, loans).proxies
    decreases |loans|
  {
    if loans != [] {
      var n := |loans| - 1;
      forall i | 0 <= i < n ensures loans[..n][i] == loans[i] {}
      LentBFree(b, loans[..n], at, id);
    }
  }

  lemma {:induction false} LentBHeap(b: Bridge, loans: seq<Loan>, at: Ptr)
    requires at !in b.heap && forall i :: 0 <= i < |loans| && loans[i].ToProxy? ==> loans[i].at != at
    ensures at !in LentB(b, loans).heap
    decreases |loans|
  {
    if loans != [] {
      var n := |loans| - 1;
      forall i | 0 <= i < n ensures loans[..n][i] == loans[i] {}
      LentBHeap(b, loans[..n], at);
    }
  }

  // A lent proxy is as new, and a lent object has one reference more, held by the application.
  lemma {:induction false} LentBHolds(a: Bridge, b: Bridge, loans: seq<Loan>, i: nat)
    requires AreLoans(a, b, loans) && i < |loans|
    ensures var b' := LentB(b, loans);
      match loans[i]
      case ToProxy(_, at, id) =>
        at in b'.heap && b'.heap[at] == NPObject(1, Proxy(id, true), 1) && id in b'.proxies && b'.proxies[id] == at
      case ToOwner(_, q) =>
        q in b'.heap && b'.heap[q].referenceCount > b.heap[q].referenceCount && b'.heap[q].held > b.heap[q].held
    decreases |loans|
  {
    var n := |loans| - 1;
    FewerLoans(a, b, loans, n);
    LentBFrame(a, b, loans[..n]);
    if i < n {
      LentBHolds(a, b, loans[..n], i);
      assert loans[..n][i] == loans[i] && Apart(loans[i], loans[n]);
      assert IsLoan(a, b, loans[i]) && IsLoan(a, b, loans[n]);
    }
  }

  // --- Giving back one of many ---

  lemma LastUnused(a: Bridge, b: Bridge, loans: seq<Loan>)
    requires AreLoans(a, b, loans) && loans != [] && loans[|loans| - 1].ToProxy?
    ensures var n := |loans| - 1; Unused(loans[..n], loans[n].at, loans[n].id)
  {
    var n := |loans| - 1;
    forall i | 0 <= i < n && loans[..n][i].ToProxy?
      ensures loans[..n][i].at != loans[n].at && loans[..n][i].id != loans[n].id
    {
      assert loans[..n][i] == loans[i] && Apart(loans[i], loans[n]);
    }
  }

  lemma WithoutLast(loans: seq<Loan>, k: nat)
    requires k < |loans|
    ensures var n, rest := |loans| - 1, Without(loans, k);
      if k == n then rest == loans[..n]
      else rest != [] && rest[..n - 1] == Without(loans[..n], k) && rest[n - 1] == loans[n] && loans[..n][k] == loans[k]
  {
  }

  lemma ReturnUndoesA(a: Bridge, l: Loan)
    requires l.ToProxy? ==> l.p in a.heap && l.id !in a.stubs
    ensures ReturnA(LendA(a, l), l) == a
  {
    if l.ToProxy? {
      assert ReturnA(LendA(a, l), l).heap == a.heap;
      assert ReturnA(LendA(a, l), l).stubs == a.stubs;
    }
  }

  lemma ReturnsCommuteA(a: Bridge, l: Loan, m: Loan)
    requires Apart(l, m) && (l.ToProxy? ==> l.p in a.heap && a.heap[l.p].referenceCount > 0)
    ensures ReturnA(LendA(a, m), l) == LendA(ReturnA(a, l), m)
  {
    if l.ToProxy? && m.ToProxy? {
      var x, y := ReturnA(LendA(a, m), l), LendA(ReturnA(a, l), m);
      assert x.heap == y.heap;
      assert x.stubs == y.stubs;
    }
  }

  /** Whatever the order: giving back the loan at k leaves side a as if it had not been made. */
  lemma {:induction false} GivenBackA(a: Bridge, b: Bridge, loans: seq<Loan>, k: nat)
    requires AreLoans(a, b, loans) && k < |loans|
    ensures ReturnA(LentA(a, loans), loans[k]) == LentA(a, Without(loans, k))
    decreases |loans|
  {
    hide LendA, ReturnA;
    var n := |loans| - 1;
    LentAFrame(a, loans[..n]);
    FewerLoans(a, b, loans, n);
    WithoutLast(loans, k);
    assert IsLoan(a, b, loans[k]);
    if k == n {
      if loans[n].ToProxy? {
        LastUnused(a, b, loans);
        LentAFree(a, loans[..n], loans[n].at, loans[n].id);
      }
      ReturnUndoesA(LentA(a, loans[..n]), loans[n]);
    } else {
      assert Apart(loans[k], loans[n]);
      GivenBackA(a, b, loans[..n], k);
      ReturnsCommuteA(LentA(a, loans[..n]), loans[k], loans[n]);
    }
  }

  lemma ReturnUndoesB(b: Bridge, l: Loan)
    requires if l.ToProxy? then l.at !in b.heap && l.id !in b.proxies else l.q in b.heap
    ensures ReturnB(LendB(b, l), l) == b
  {
    assert ReturnB(LendB(b, l), l).heap == b.heap;
    if l.ToProxy? { assert ReturnB(LendB(b, l), l).proxies == b.proxies; }
  }

  // Loans that do not concern the same object, or the same one twice.
  predicate ApartB(b: Bridge, l: Loan, m: Loan) {
    match (l, m)
    case (ToProxy(_, at, id), ToProxy(_, at', id')) => at != at' && id != id'
    case (ToProxy(_, at, _), ToOwner(_, q)) => at != q
    case (ToOwner(_, q), ToProxy(_, at, _)) => q != at && q in b.heap
    case (ToOwner(_, q), ToOwner(_, _)) => q in b.heap && b.heap[q].referenceCount > 0 && b.heap[q].held > 0
  }

  lemma ReturnsCommuteHeap(b: Bridge, l: Loan, m: Loan)
    requires ApartB(b, l, m)
    ensures ReturnB(LendB(b, m), l).heap == LendB(ReturnB(b, l), m).heap
  {
  }

  lemma ReturnsCommuteB(b: Bridge, l: Loan, m: Loan)
    requires ApartB(b, l, m)
    ensures ReturnB(LendB(b, m), l) == LendB(ReturnB(b, l), m)
  {
    ReturnsCommuteHeap(b, l, m);
    assert ReturnB(LendB(b, m), l).proxies == LendB(ReturnB(b, l), m).proxies;
  }

  lemma LastApartB(a: Bridge, b: Bridge, loans: seq<Loan>, k: nat)
    requires AreLoans(a, b, loans) && k < |loans| - 1
    ensures ApartB(LentB(b, loans[..|loans| - 1]), loans[k], loans[|loans| - 1])
  {
    var n := |loans| - 1;
    FewerLoans(a, b, loans, n);
    assert IsLoan(a, b, loans[k]) && IsLoan(a, b, loans[n]) && Apart(loans[k], loans[n]);
    assert loans[..n][k] == loans[k];
    LentBHolds(a, b, loans[..n], k);
    hide LendB, LentB;
  }

  lemma {:induction false} GivenBackB(a: Bridge, b: Bridge, loans: seq<Loan>, k: nat)
    requires AreLoans(a, b, loans) && k < |loans|
    ensures ReturnB(LentB(b, loans), loans[k]) == LentB(b, Without(loans, k))
    decreases |loans|
  {
    hide LendB, ReturnB, ApartB;
    var n := |loans| - 1;
    FewerLoans(a, b, loans, n);
    WithoutLast(loans, k);
    if k == n {
      LentBFrame(a, b, loans[..n]);
      assert IsLoan(a, b, loans[n]);
      if loans[n].ToProxy? {
        LastUnused(a, b, loans);
        LentBFree(b, loans[..n], loans[n].at, loans[n].id);
      }
      ReturnUndoesB(LentB(b, loans[..n]), loans[n]);
    } else {
      LastApartB(a, b, loans, k);
      GivenBackB(a, b, loans[..n], k);
      ReturnsCommuteB(LentB(b, loans[..n]), loans[k], loans[n]);
    }
  }
}
