/** The id table (src/utils.c) and the NPIdentifiers that travel as its ids (src/npw-rpc.c). */
module Identifiers {
  type Ptr = nat
  const NULL: Ptr := 0

  type Id = nat

  // g_ids, and the static counter of id_create().
  datatype Ids = Ids(table: map<Id, Ptr>, last: nat)

  const EMPTY := Ids(map[], 0)

  function Link(ids: Ids, id: Id, p: Ptr): Ids {
    ids.(table := ids.table[id := p])
  }

  function Create(ids: Ids, p: Ptr): Ids {
    Link(ids, ids.last + 1, p).(last := ids.last + 1)
  }

  function Remove(ids: Ids, id: Id): Ids {
    ids.(table := ids.table - {id})
  }

  function Lookup(ids: Ids, id: int): Ptr {
    if id in ids.table then ids.table[id] else NULL
  }

  // What id_lookup_value() may answer: any of the ids of p, or -1 if it has none.
  predicate IsLookupValue(ids: Ids, p: Ptr, id: int) {
    if id == -1 then (forall k :: k in ids.table ==> ids.table[k] != p) else id in ids.table && ids.table[id] == p
  }

  // --- NPIdentifiers on the wrapper's side ---

  // The id that do_send_NPIdentifier() writes when id_lookup_value() answers found, and the table after it.
  function SendIdentifier(ids: Ids, ident: Ptr, found: int): (int, Ids) {
    if ident == NULL then (0, ids)
    else if found < 0 then (ids.last + 1, Create(ids, ident))
    else (found, ids)
  }

  // do_recv_NPIdentifier()
  function RecvIdentifier(ids: Ids, id: int): Ptr {
    if id == 0 then NULL else Lookup(ids, id)
  }

  // The viewer keeps an id in the place of the pointer, and sends it back as it is.
  function ViewerRecv(id: int): Ptr
    requires id >= 0
  {
    if id == 0 then NULL else id
  }

  function ViewerSend(ident: Ptr): int {
    if ident == NULL then 0 else ident
  }

  // --- Runs ---

  // Send: the browser's identifier is sent, id_lookup_value() having answered found. Register: some other
  // object gets an id. Forget: the id of such an object is removed.
  datatype Op = Send(ident: Ptr, found: int) | Register(p: Ptr) | Forget(id: Id)

  function Next(ids: Ids, op: Op): Ids {
    match op
    case Send(ident, found) => SendIdentifier(ids, ident, found).1
    case Register(p) => Create(ids, p)
    case Forget(id) => Remove(ids, id)
  }

  // Identifiers and other objects have different addresses, and what is removed is the id of an object.
  predicate Enabled(idents: set<Ptr>, ids: Ids, op: Op) {
    match op
    case Send(ident, found) => ident == NULL || (ident in idents && IsLookupValue(ids, ident, found))
    case Register(p) => p !in idents && p != NULL
    case Forget(id) => Lookup(ids, id) !in idents
  }

  function Run(ids: Ids, ops: seq<Op>): Ids
    decreases |ops|
  {
    if ops == [] then ids else Run(Next(ids, ops[0]), ops[1..])
  }

  predicate Legal(idents: set<Ptr>, ids: Ids, ops: seq<Op>)
    decreases |ops|
  {
    ops != [] ==> Enabled(idents, ids, ops[0]) && Legal(idents, Next(ids, ops[0]), ops[1..])
  }

  /** Any object can get an id and lose it, in any state; and the browser can send any identifier. */
  lemma RunsOfIds(idents: set<Ptr>, ids: Ids, p: Ptr, id: Id) returns (found: int)
    ensures p != 0 && p !in idents ==> Legal(idents, ids, [Register(p)])
    ensures id in ids.table && ids.table[id] !in idents ==> Legal(idents, ids, [Forget(id)])
    ensures p == 0 || p in idents ==> Legal(idents, ids, [Send(p, found)])
    ensures found == -1 ==> p !in ids.table.Values
    ensures found != -1 ==> found in ids.table && ids.table[found] == p
  {
    if i: Id :| i in ids.table && ids.table[i] == p { found := i; } else { found := -1; }
    assert forall op: Op :: [op][1..] == [];
  }

  // Ids are positive and below the counter, and an identifier has at most one.
  ghost predicate Inv(idents: set<Ptr>, ids: Ids) {
    && (forall id :: id in ids.table ==> 0 < id <= ids.last && ids.table[id] != NULL)
    && (forall a, b :: a in ids.table && b in ids.table && ids.table[a] == ids.table[b] && ids.table[a] in idents ==>
          a == b)
  }

  lemma StepKeepsInv(idents: set<Ptr>, ids: Ids, op: Op)
    requires Inv(idents, ids) && Enabled(idents, ids, op) && NULL !in idents
    ensures Inv(idents, Next(ids, op))
    ensures forall id :: id in ids.table && ids.table[id] in idents ==>
              id in Next(ids, op).table && Next(ids, op).table[id] == ids.table[id]
  {
  }

  lemma {:induction false} RunKeepsInv(idents: set<Ptr>, ids: Ids, ops: seq<Op>)
    requires Inv(idents, ids) && Legal(idents, ids, ops) && NULL !in idents
    ensures Inv(idents, Run(ids, ops))
    ensures forall id :: id in ids.table && ids.table[id] in idents ==>
              id in Run(ids, ops).table && Run(ids, ops).table[id] == ids.table[id]
    decreases |ops|
  {
    if ops != [] {
      StepKeepsInv(idents, ids, ops[0]);
      RunKeepsInv(idents, Next(ids, ops[0]), ops[1..]);
    }
  }

  lemma {:induction false} LegalParts(idents: set<Ptr>, ids: Ids, front: seq<Op>, back: seq<Op>)
    requires Legal(idents, ids, front + back)
    ensures Legal(idents, ids, front) && Legal(idents, Run(ids, front), back)
    ensures Run(ids, front + back) == Run(Run(ids, front), back)
    decreases |front|
  {
    if front == [] {
      assert front + back == back;
    } else {
      assert (front + back)[1..] == front[1..] + back;
      LegalParts(idents, Next(ids, front[0]), front[1..], back);
    }
  }

  // The id written by the operation at i.
  function SentId(ids: Ids, ops: seq<Op>, i: nat): int
    requires i < |ops| && ops[i].Send?
  {
    SendIdentifier(Run(ids, ops[..i]), ops[i].ident, ops[i].found).0
  }

  // The run up to j, seen from the operation at i.
  lemma RunThrough(idents: set<Ptr>, ids: Ids, ops: seq<Op>, i: nat, j: nat)
    requires Legal(idents, ids, ops) && i < j <= |ops|
    ensures Legal(idents, ids, ops[..i]) && Enabled(idents, Run(ids, ops[..i]), ops[i])
    ensures Legal(idents, Next(Run(ids, ops[..i]), ops[i]), ops[i + 1..j])
    ensures Run(ids, ops[..j]) == Run(Next(Run(ids, ops[..i]), ops[i]), ops[i + 1..j])
  {
    hide Enabled, Next;
    assert ops == ops[..j] + ops[j..];
    LegalParts(idents, ids, ops[..j], ops[j..]);
    assert ops[..j] == ops[..i] + ops[i..j];
    LegalParts(idents, ids, ops[..i], ops[i..j]);
    assert ops[i..j][0] == ops[i] && ops[i..j][1..] == ops[i + 1..j];
  }

  // Once sent, an identifier keeps the id it was sent as.
  lemma SentIdStays(idents: set<Ptr>, ops: seq<Op>, i: nat, j: nat)
    requires Legal(idents, EMPTY, ops) && NULL !in idents && i < j <= |ops| && ops[i].Send?
    ensures ops[i].ident == NULL ==> SentId(EMPTY, ops, i) == 0
    ensures Inv(idents, Run(EMPTY, ops[..j]))
    ensures ops[i].ident != NULL ==>
              var id, table := SentId(EMPTY, ops, i), Run(EMPTY, ops[..j]).table;
              id > 0 && ops[i].ident in idents && id in table && table[id] == ops[i].ident
  {
    RunThrough(idents, EMPTY, ops, i, j);
    RunKeepsInv(idents, EMPTY, ops[..i]);
    var before := Run(EMPTY, ops[..i]);
    StepKeepsInv(idents, before, ops[i]);
    RunKeepsInv(idents, Next(before, ops[i]), ops[i + 1..j]);
  }

  /** Over any run of the wrapper, in which other objects come and go, the ids that stand for identifiers are
      stable and faithful: two identifiers are sent as the same id if and only if they are the same. */
  lemma IdsAreFaithful(idents: set<Ptr>, ops: seq<Op>, i: nat, j: nat)
    requires Legal(idents, EMPTY, ops) && NULL !in idents
    requires i < j < |ops| && ops[i].Send? && ops[j].Send?
    ensures SentId(EMPTY, ops, i) == SentId(EMPTY, ops, j) <==> ops[i].ident == ops[j].ident
  {
    SentIdStays(idents, ops, i, j + 1);
    SentIdStays(idents, ops, j, j + 1);
  }

  /** An identifier that the viewer sends back, at any time after it received it, is the one it was sent. */
  lemma IdentifierReturns(idents: set<Ptr>, ops: seq<Op>, i: nat)
    requires Legal(idents, EMPTY, ops) && NULL !in idents && i < |ops| && ops[i].Send?
    ensures SentId(EMPTY, ops, i) >= 0
    ensures RecvIdentifier(Run(EMPTY, ops), ViewerSend(ViewerRecv(SentId(EMPTY, ops, i)))) == ops[i].ident
  {
    SentIdStays(idents, ops, i, |ops|);
    assert ops[..|ops|] == ops;
  }

  // --- Objects ---

  // An id that has been given out and removed.
  predicate Retired(ids: Ids, id: Id) {
    id <= ids.last && id !in ids.table
  }

  lemma {:induction false} RetiredStays(ids: Ids, ops: seq<Op>, id: Id)
    requires Retired(ids, id)
    ensures Retired(Run(ids, ops), id)
    decreases |ops|
  {
    if ops != [] { RetiredStays(Next(ids, ops[0]), ops[1..], id); }
  }

  lemma {:induction false} BoundStays(ids: Ids, ops: seq<Op>, id: Id, p: Ptr)
    requires id in ids.table && ids.table[id] == p && id <= ids.last && Forget(id) !in ops
    ensures id in Run(ids, ops).table && Run(ids, ops).table[id] == p
    decreases |ops|
  {
    if ops != [] {
      assert ops[0] != Forget(id);
      BoundStays(Next(ids, ops[0]), ops[1..], id, p);
    }
  }

  /** An object that is given an id is looked up by it at any later time, until the id is removed ... */
  lemma ObjectsAreFound(idents: set<Ptr>, ops: seq<Op>, i: nat, j: nat)
    requires Legal(idents, EMPTY, ops) && i < j <= |ops| && ops[i].Register?
    requires Forget(Run(EMPTY, ops[..i]).last + 1) !in ops[i + 1..j]
    ensures Lookup(Run(EMPTY, ops[..j]), Run(EMPTY, ops[..i]).last + 1) == ops[i].p
  {
    RunThrough(idents, EMPTY, ops, i, j);
    var before := Run(EMPTY, ops[..i]);
    BoundStays(Next(before, ops[i]), ops[i + 1..j], before.last + 1, ops[i].p);
  }

  /** ... and an id that has been removed, whichever it is, is never looked up as anything again. */
  lemma RemovedIdsAreGone(idents: set<Ptr>, ops: seq<Op>, i: nat, j: nat)
    requires Legal(idents, EMPTY, ops) && NULL !in idents && i < j <= |ops| && ops[i].Forget?
    requires Lookup(Run(EMPTY, ops[..i]), ops[i].id) != NULL
    ensures Lookup(Run(EMPTY, ops[..j]), ops[i].id) == NULL
    ensures RecvIdentifier(Run(EMPTY, ops[..j]), ops[i].id) == NULL
  {
    RunThrough(idents, EMPTY, ops, i, j);
    RunKeepsInv(idents, EMPTY, ops[..i]);
    var before := Run(EMPTY, ops[..i]);
    RetiredStays(Next(before, ops[i]), ops[i + 1..j], ops[i].id);
  }

  /** The addresses have to differ: if another object with an id has an identifier's address, the identifier
      is sent as that id, and as another one once the object is gone. */
  lemma SharedAddressChangesId(p: Ptr)
    requires p != NULL
    ensures var ops := [Register(p), Send(p, 1), Forget(1), Send(p, -1)];
            && IsLookupValue(Run(EMPTY, ops[..1]), p, 1) && IsLookupValue(Run(EMPTY, ops[..3]), p, -1)
            && SentId(EMPTY, ops, 1) == 1 && SentId(EMPTY, ops, 3) == 2
  {
    var ops := [Register(p), Send(p, 1), Forget(1), Send(p, -1)];
    assert ops[..1] == [Register(p)] && [Register(p)][1..] == [];
    var three := [Register(p), Send(p, 1), Forget(1)];
    assert ops[..3] == three && three[1..] == [Send(p, 1), Forget(1)];
    assert three[1..][1..] == [Forget(1)] && [Forget(1)][1..] == [];
    var one := Create(EMPTY, p);
    assert Run(EMPTY, [Register(p)]) == one;
    assert Run(one, [Send(p, 1), Forget(1)]) == Run(one, [Forget(1)]) == Remove(one, 1);
    assert Run(EMPTY, three) == Remove(one, 1);
  }
}
