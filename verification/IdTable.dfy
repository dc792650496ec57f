/** g_ids and the functions on it, as they change it in place (src/utils.c, src/npw-rpc.c). */
module IdTable {
  import opened Identifiers

  // g_ids as src/utils.c changes it
  class Table {
    var table: map<Id, Ptr>
    var last: nat

    constructor ()
      ensures Valid() && State() == EMPTY
    {
      table, last := map[], 0;
    }

    predicate Valid()
      reads this
    {
      forall k :: k in table ==> k > 0
    }

    function State(): Ids
      reads this
    {
      Ids(table, last)
    }

    method Link(id: Id, p: Ptr)
      requires Valid() && id > 0
      modifies `table
      ensures Valid() && State() == Identifiers.Link(old(State()), id, p) && table == old(table)[id := p]
    {
      table := table[id := p];
    }

    method Create(p: Ptr) returns (id: int)
      requires Valid()
      modifies this
      ensures Valid() && id == last == old(last) + 1 && State() == Identifiers.Create(old(State()), p)
      ensures table == old(table)[id := p]
    {
      last := last + 1;
      Link(last, p);
      id := last;
    }

    method Remove(id: Id) returns (removed: bool)
      requires Valid()
      modifies `table
      ensures Valid() && removed == (id in old(table)) && State() == Identifiers.Remove(old(State()), id)
      ensures table == old(table) - {id} && last == old(last)
    {
      removed := id in table;
      table := table - {id};
    }

    // g_hash_table_find(): the entries in some order, up to the first that matches
    method LookupValue(p: Ptr) returns (id: int)
      requires Valid()
      ensures IsLookupValue(State(), p, id) && id != 0
    {
      var todo := table;
      while todo != map[]
        invariant forall k :: k in todo ==> k in table && todo[k] == table[k]
        invariant forall k :: k in table && k !in todo ==> table[k] != p
        decreases todo
      {
        var k :| k in todo;
        if todo[k] == p { return k; }
        todo := todo - {k};
      }
      id := -1;
    }

    // do_send_NPIdentifier() in the wrapper
    method SendIdentifier(ident: Ptr) returns (id: int, ghost found: int)
      requires Valid()
      modifies this
      ensures Valid()
      ensures ident != NULL ==> IsLookupValue(old(State()), ident, found) && id != 0
      ensures (id, State()) == Identifiers.SendIdentifier(old(State()), ident, found)
    {
      id, found := 0, 0;
      if ident != NULL {
        id := LookupValue(ident);
        found := id;
        if id < 0 { id := Create(ident); }
      }
    }

    // do_recv_NPIdentifier() in the wrapper
    method RecvIdentifier(id: int) returns (ident: Ptr)
      ensures ident == Identifiers.RecvIdentifier(State(), id)
    {
      ident := NULL;
      if id != 0 && id in table { ident := table[id]; }
    }
  }
}
