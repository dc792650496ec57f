/** The viewer's cache of NPIdentifiers and the queries that go through it (src/npw-viewer.c).

    The browser names every string and every 32-bit integer by one identifier, and answers all calls from
    that naming. */
module IdentifierCache {
  import opened Wrappers
  import opened Wire

  type Ident = nat

  // NPIdentifierInfo: string_len > 0 is a text.
  datatype Info = Text(chars: Bytes) | Number(value: i32)

  datatype Naming = Naming(identOf: Info -> Ident, infoOf: Ident -> Option<Info>) {
    // identOf and infoOf are inverses of each other.
    ghost predicate IsOneToOne() {
      && (forall info :: infoOf(identOf(info)) == Some(info))
      && (forall ident :: infoOf(ident).Some? ==> identOf(infoOf(ident).value) == ident)
    }

    predicate Names(ident: Ident) { infoOf(ident).Some? }
  }

  type Table = map<Ident, Info>

  const SIZE := 256 // NPIDENTIFIER_CACHE_SIZE

  // What the cache may hold: true facts, and no more of them than it has room for.
  predicate Agrees(table: Table, naming: Naming) {
    |table| <= SIZE && forall ident <- table :: naming.infoOf(ident) == Some(table[ident])
  }

  lemma InsertAgrees(table: Table, naming: Naming, ident: Ident, info: Info)
    requires Agrees(table, naming) && naming.infoOf(ident) == Some(info) && |table| < SIZE
    ensures Agrees(table[ident := info], naming)
  {
    var keys := table[ident := info].Keys;
    assert keys == table.Keys + {ident};
    assert |keys| == |table[ident := info]|;
  }

  // Since no two identifiers have one name, the entry of a name is its identifier's.
  lemma FoundIsTheName(table: Table, naming: Naming, ident: Ident)
    requires naming.IsOneToOne() && Agrees(table, naming) && ident in table
    ensures naming.identOf(table[ident]) == ident
  {
    assert naming.infoOf(ident).Some?;
  }

  lemma NameOfIdentifier(naming: Naming, info: Info)
    requires naming.IsOneToOne()
    ensures naming.infoOf(naming.identOf(info)) == Some(info)
  {
  }

  class Cache {
    const naming: Naming
    const enabled: bool          // use_npidentifier_cache()
    var table: Option<Table>     // g_npidentifier_cache
    var calls: nat               // how often the browser has been asked

    constructor (naming: Naming, enabled: bool)
      requires naming.IsOneToOne()
      ensures this.naming == naming && this.enabled == enabled && Valid()
    {
      this.naming, this.enabled := naming, enabled;
      table, calls := None, 0;
    }

    ghost predicate Valid()
      reads this
    {
      naming.IsOneToOne() && (table.Some? ==> Agrees(table.value, naming))
    }

    // The calls of the plugin that come in while this side waits for a reply: they leave any valid cache.
    method CallsMeanwhile()
      requires Valid()
      modifies this`table
      ensures Valid()
    {
      var other: Table := *;
      if Agrees(other, naming) { table := Some(other); }
    }

    // invoke_NPN_GetStringIdentifier(), invoke_NPN_GetIntIdentifier()
    method InvokeGetIdentifier(info: Info) returns (ident: Ident)
      requires Valid()
      modifies this`table, this`calls
      ensures Valid() && ident == naming.identOf(info) && calls == old(calls) + 1
    {
      calls := calls + 1;
      CallsMeanwhile();
      ident := naming.identOf(info);
    }

    // invoke_NPN_IdentifierIsString(), invoke_NPN_UTF8FromIdentifier(), invoke_NPN_IntFromIdentifier()
    method InvokeDescribe(ident: Ident) returns (info: Info)
      requires Valid() && naming.Names(ident)
      modifies this`table, this`calls
      ensures Valid() && naming.infoOf(ident) == Some(info) && calls == old(calls) + 1
    {
      calls := calls + 1;
      CallsMeanwhile();
      info := naming.infoOf(ident).value;
    }

    // npidentifier_cache_reserve()
    method Reserve(entries: nat)
      requires Valid() && entries <= SIZE
      modifies this`table
      ensures Valid() && table.Some? && |table.value| + entries <= 256
      ensures table == if old(table).Some? && |old(table).value| + entries <= 256 then old(table) else Some(map[])
    {
      if table.None? { table := Some(map[]); }
      if |table.value| + entries > SIZE { table := Some(map[]); }
    }

    // npidentifier_cache_lookup()
    method Lookup(ident: Ident) returns (info: Option<Info>)
      ensures info == if table.Some? && ident in table.value then Some(table.value[ident]) else None
    {
      if table.None? || ident !in table.value { return None; }
      info := Some(table.value[ident]);
    }

    // npidentifier_cache_has_string(), npidentifier_cache_has_int(): the entries in some order, up to the
    // first that matches
    method Find(info: Info) returns (ident: Option<Ident>)
      requires Valid()
      ensures ident.Some? <==> table.Some? && naming.identOf(info) in table.value
      ensures ident.Some? ==> ident.value == naming.identOf(info)
    {
      if table.None? { return None; }
      var todo := table.value;
      while todo != map[]
        invariant todo.Keys <= table.value.Keys && forall k <- todo :: todo[k] == table.value[k]
        invariant forall k <- table.value :: k !in todo ==> table.value[k] != info
        decreases todo
      {
        var k :| k in todo;
        if todo[k] == info {
          FoundIsTheName(table.value, naming, k);
          return Some(k);
        }
        todo := todo - {k};
      }
      ident := None;
    }

    // npidentifier_cache_add_string(), npidentifier_cache_add_int()
    method Add(ident: Ident, info: Info)
      requires Valid() && naming.infoOf(ident) == Some(info) && (table.Some? ==> |table.value| < SIZE)
      modifies this`table
      ensures Valid()
      ensures table == if old(table).Some? then Some(old(table).value[ident := info]) else None
    {
      if table.None? { return; }
      InsertAgrees(table.value, naming, ident, info);
      table := Some(table.value[ident := info]);
    }

    predicate Caches(ident: Ident)
      reads this
    {
      table.Some? && ident in table.value
    }

    // Whether a query about this name would be answered from the cache.
    predicate Knows(info: Info)
      reads this
    {
      Caches(naming.identOf(info))
    }

    // cached_NPN_GetStringIdentifier() and cached_NPN_GetIntIdentifier()
    method GetIdentifier(info: Info) returns (ident: Ident)
      requires Valid()
      modifies this`table, this`calls
      ensures Valid() && ident == naming.identOf(info)
      ensures enabled ==> Knows(info)
      ensures if enabled && old(Knows(info)) then table == old(table) && calls == old(calls)
              else calls == old(calls) + 1
    {
      if !enabled {
        ident := InvokeGetIdentifier(info);
        return;
      }
      var found := Find(info);
      if found.Some? { return found.value; }
      ident := InvokeGetIdentifier(info);
      Reserve(1);
      Add(ident, info);
    }

    // One of the names that cached_NPN_GetStringIdentifiers() has asked for
    method CacheName(ident: Ident, info: Info)
      requires Valid() && naming.infoOf(ident) == Some(info)
      modifies this`table
      ensures Valid() && Knows(info)
      ensures old(table).Some? && ident in old(table).value ==> table == old(table)
    {
      var known := Lookup(ident);
      if known.None? {
        Reserve(1);
        Add(ident, info);
      }
    }

    // cached_NPN_GetStringIdentifiers()
    method GetStringIdentifiers(names: seq<Bytes>, identifiers: array<Ident>)
      requires Valid() && |names| <= identifiers.Length
      modifies this`table, this`calls, identifiers
      ensures Valid() && calls == old(calls) + 1
      ensures enabled && names != [] ==> Knows(Text(names[|names| - 1]))
      ensures forall i :: 0 <= i < |names| ==> identifiers[i] == naming.identOf(Text(names[i]))
      ensures forall i :: |names| <= i < identifiers.Length ==> identifiers[i] == old(identifiers[i])
    {
      hide Naming.IsOneToOne, Agrees;
      calls := calls + 1;
      CallsMeanwhile();
      forall i | 0 <= i < |names| { identifiers[i] := naming.identOf(Text(names[i])); }
      if enabled {
        for i := 0 to |names|
          invariant Valid() && (i > 0 ==> Knows(Text(names[i - 1])))
          modifies this`table
        {
          NameOfIdentifier(naming, Text(names[i]));
          CacheName(identifiers[i], Text(names[i]));
        }
      }
    }

    // cached_NPN_IdentifierIsString()
    method IdentifierIsString(ident: Ident) returns (isString: bool)
      requires Valid() && naming.Names(ident)
      modifies this`table, this`calls
      ensures Valid() && isString == naming.infoOf(ident).value.Text?
      ensures if enabled && old(Caches(ident)) then table == old(table) && calls == old(calls)
              else calls == old(calls) + 1
    {
      if enabled {
        var known := Lookup(ident);
        if known.Some? { return known.value.Text?; }
      }
      var info := InvokeDescribe(ident);
      isString := info.Text?;
    }

    // cached_NPN_UTF8FromIdentifier()
    method UTF8FromIdentifier(ident: Ident) returns (chars: Bytes)
      requires Valid() && naming.Names(ident) && naming.infoOf(ident).value.Text?
      modifies this`table, this`calls
      ensures Valid() && naming.infoOf(ident) == Some(Text(chars))
      ensures if enabled && old(Caches(ident)) then table == old(table) && calls == old(calls)
              else calls == old(calls) + 1
      ensures enabled ==> Knows(Text(chars))
    {
      if !enabled {
        var info := InvokeDescribe(ident);
        return info.chars;
      }
      var known := Lookup(ident);
      if known.Some? && known.value.Text? { return known.value.chars; }
      var info := InvokeDescribe(ident);
      chars := info.chars;
      Reserve(1);
      Add(ident, info);
    }

    // cached_NPN_IntFromIdentifier()
    method IntFromIdentifier(ident: Ident) returns (value: i32)
      requires Valid() && naming.Names(ident) && naming.infoOf(ident).value.Number?
      modifies this`table, this`calls
      ensures Valid() && naming.infoOf(ident) == Some(Number(value))
      ensures if enabled && old(Caches(ident)) then table == old(table) && calls == old(calls)
              else calls == old(calls) + 1
      ensures enabled ==> Knows(Number(value))
    {
      if !enabled {
        var info := InvokeDescribe(ident);
        return info.value;
      }
      var known := Lookup(ident);
      if known.Some? {
        assert known.value.Number?;
        return known.value.value;
      }
      var info := InvokeDescribe(ident);
      value := info.value;
      Reserve(1);
      Add(ident, info);
    }
  }
}
