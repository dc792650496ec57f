/** What arguments of each type are received as. */
module ArgValues {
  import opened Wrappers
  import opened Wire
  import opened NpValues
  import opened NpRoundTrips
  import opened RpcArgs

  // --- Values of the built-in types ---

  predicate IsBuiltIn(kind: i32, v: Value) {
    || (kind == -2000 && v.CharV?)
    || ((kind == -2001 || kind == -2002) && v.IntV?)
    || (kind == -2003 && v.UintV?)
    || (kind == -2004 && v.Uint64V?)
    || (kind == -2005 && v.DoubleV?)
    || (kind == -2006 && v.StringV? && (v.str.Some? ==> |v.str.value| < 0x8000_0000 && 0 !in v.str.value))
  }

  /** Chars, booleans, numbers, doubles and strings are received as they were sent. */
  lemma BuiltInArrives(kind: i32, v: Value, rest: Bytes)
    requires IsBuiltIn(kind, v)
    ensures Known(kind) && HasKind(v, kind)
    ensures RecvValue(kind, SendValue(kind, v) + rest) == Ok((v, rest))
  {
    ValueRoundTrip(kind, v, rest);
  }

  /** So are the values of the NPAPI but for records, saved areas and strings of length 0. */
  lemma PlainValueArrives(h: u32, ranges: seq<(i32, u32)>, p: u64, o: ObjectRef, s: NpString, chars: Bytes, rest: Bytes)
    requires 0 < |chars| < 0x7fff_ffff && 0 !in chars && 0 < s.length < 0x7fff_ffff
    requires s.chars.Some? && |s.chars.value| == s.length
    ensures forall id: i32 <- [1, 2, 14, 20] ::
      HasType(Handle(h), id) && RecvNpValue(id, SendNpValue(id, Handle(h)) + rest) == Ok((Handle(h), rest))
    ensures HasType(ByteRange(ranges), 3)
    ensures RecvNpValue(3, SendNpValue(3, ByteRange(ranges)) + rest) == Ok((ByteRange(ranges), rest))
    ensures HasType(SavedData(Some(chars)), 4)
    ensures RecvNpValue(4, SendNpValue(4, SavedData(Some(chars))) + rest) == Ok((SavedData(Some(chars)), rest))
    ensures HasType(SavedData(None), 4)
    ensures RecvNpValue(4, SendNpValue(4, SavedData(None)) + rest) == Ok((SavedData(None), rest))
    ensures HasType(NotifyData(p), 5)
    ensures RecvNpValue(5, SendNpValue(5, NotifyData(p)) + rest) == Ok((NotifyData(p), rest))
    ensures HasType(Window(None), 7)
    ensures RecvNpValue(7, SendNpValue(7, Window(None)) + rest) == Ok((Window(None), rest))
    ensures HasType(Object(o), 18)
    ensures RecvNpValue(18, SendNpValue(18, Object(o)) + rest) == Ok((Object(o), rest))
    ensures HasType(Str(s), 15)
    ensures RecvNpValue(15, SendNpValue(15, Str(s)) + rest) == Ok((Str(s), rest))
    ensures HasType(Utf8(chars), 17)
    ensures RecvNpValue(17, SendNpValue(17, Utf8(chars)) + rest) == Ok((Utf8(chars), rest))
  {
    hide SendNpValue, RecvNpValue;
    forall id: i32 | id == 1 || id == 2 || id == 14 || id == 20
      ensures HasType(Handle(h), id) && RecvNpValue(id, SendNpValue(id, Handle(h)) + rest) == Ok((Handle(h), rest))
    {
      ArrivesIffTransmittable(id, Handle(h), rest);
    }
    ArrivesIffTransmittable(3, ByteRange(ranges), rest);
    ArrivesIffTransmittable(4, SavedData(Some(chars)), rest);
    ArrivesIffTransmittable(4, SavedData(None), rest);
    ArrivesIffTransmittable(5, NotifyData(p), rest);
    ArrivesIffTransmittable(7, Window(None), rest);
    ArrivesIffTransmittable(18, Object(o), rest);
    ArrivesIffTransmittable(15, Str(s), rest);
    ArrivesIffTransmittable(17, Utf8(chars), rest);
  }

  /** Print data is received as it was sent, in pieces of up to 4096 bytes. */
  lemma PrintDataArrives(bytes: Bytes, rest: Bytes)
    requires 0 < |bytes| <= 4096
    ensures HasType(PrintData(bytes), 12)
    ensures RecvNpValue(12, SendNpValue(12, PrintData(bytes)) + rest) == Ok((PrintData(bytes), rest))
  {
    hide SendNpValue, RecvNpValue;
    ArrivesIffTransmittable(12, PrintData(bytes), rest);
  }

  /** A reference that does not hand anything over can also be sent without the flag; a variant of any type but
      an empty string is received as it was sent, with the flag or without. */
  lemma VariantArrives(v: Variant, passRef: bool, rest: Bytes)
    requires v.VString? ==> 0 < v.s.length < 0x7fff_ffff && v.s.chars.Some? && |v.s.chars.value| == v.s.length
    requires v.VObject? && v.o.ReceiverOwned? && v.o.releaseStub ==> passRef
    requires v.VOther? ==> v.kind > 6
    ensures var id: i32 := if passRef then 19 else 16;
      HasType(Var(v), id) && RecvNpValue(id, SendNpValue(id, Var(v)) + rest) == Ok((Var(v), rest))
    ensures v.VObject? ==>
      var id: i32 := if passRef then 18 else 13;
      HasType(Object(v.o), id) && RecvNpValue(id, SendNpValue(id, Object(v.o)) + rest) == Ok((Object(v.o), rest))
  {
    hide SendNpValue, RecvNpValue;
    var id: i32 := if passRef then 19 else 16;
    ArrivesIffTransmittable(id, Var(v), rest);
    if v.VObject? { ArrivesIffTransmittable(if passRef then 18 else 13, Object(v.o), rest); }
  }

  /** A string of length 0 is received as the empty string, with characters or without, and an empty saved area
      as NULL. */
  lemma EmptyValuesArrive(chars: Option<Bytes>, rest: Bytes)
    requires chars.None? || chars.value == []
    ensures HasType(Str(NpString(0, chars)), 15)
    ensures RecvNpValue(15, SendNpValue(15, Str(NpString(0, chars))) + rest) == Ok((Str(NpString(0, Some([]))), rest))
    ensures HasType(SavedData(chars), 4)
    ensures RecvNpValue(4, SendNpValue(4, SavedData(chars)) + rest) == Ok((SavedData(None), rest))
  {
    hide SendNpValue, RecvNpValue;
    ArrivesIffTransmittable(15, Str(NpString(0, chars)), rest);
    ArrivesIffTransmittable(4, SavedData(chars), rest);
  }

  // --- Arguments ---

  // What a value is received as, when nothing follows it.
  predicate ElementReceived(got: Value, kind: i32, sent: Value) {
    Known(kind) && HasKind(sent, kind) && RecvValue(kind, SendValue(kind, sent)) == Ok((got, []))
  }

  predicate ElementsReceived(got: seq<Value>, kind: i32, sent: seq<Value>) {
    |got| == |sent| && forall i :: 0 <= i < |sent| ==> ElementReceived(got[i], kind, sent[i])
  }

  // A value is received as such; an array with its type, its size and all its elements, chars as they are; an array
  // that is NULL or empty as NULL.
  predicate ReceivedAs(got: Arg, sent: Arg) {
    match sent
    case One(kind, v) => got.One? && got.kind == kind && ElementReceived(got.value, kind, v)
    case Array(elemKind, size, contents) =>
      && got.Array? && got.elemKind == elemKind && got.size == size
      && if size == 0 || contents.None? then got.contents == None
         else if contents.value.Chars? then got.contents == contents
         else && got.contents.Some? && got.contents.value.Items?
              && ElementsReceived(got.contents.value.items, elemKind, contents.value.items)
  }

  lemma ElementArrives(kind: i32, v: Value)
    requires Known(kind) && HasKind(v, kind) && ValueError(v).None? && GoodValue(v)
    ensures ElementReceived(NormalValue(kind, v), kind, v)
  {
    hide SendValue, RecvValue, NormalValue, Known, HasKind, GoodValue;
    ValueRoundTrip(kind, v, []);
    assert SendValue(kind, v) + [] == SendValue(kind, v);
  }

  lemma {:induction false} ElementsArrive(kind: i32, vs: seq<Value>)
    requires Known(kind) && HasKinds(vs, kind) && ValuesError(vs).None? && GoodValues(vs)
    ensures ElementsReceived(NormalValues(kind, vs), kind, vs)
  {
    hide NormalValue, Known, HasKind, GoodValue, ValueError, ElementReceived;
    if vs != [] {
      ElementArrives(kind, vs[0]);
      ElementsArrive(kind, vs[1..]);
      var got, others := NormalValues(kind, vs), NormalValues(kind, vs[1..]);
      assert got == [NormalValue(kind, vs[0])] + others;
      forall i | 0 <= i < |vs| ensures ElementReceived(got[i], kind, vs[i]) {
        if i > 0 { assert got[i] == others[i - 1] && vs[i] == vs[1..][i - 1]; }
      }
    }
  }

  lemma ArgArrives(a: Arg)
    requires IsArg(a) && ArgError(a).None? && GoodArg(a)
    ensures ReceivedAs(NormalArg(a), a)
  {
    hide NormalValue, NormalValues, Known, HasKind, GoodValue, ElementReceived, ElementsReceived;
    match a
    case One(kind, v) => ElementArrives(kind, v);
    case Array(elemKind, size, contents) =>
      if size > 0 && contents.Some? && contents.value.Items? { ElementsArrive(elemKind, contents.value.items); }
  }

  lemma {:induction false} AllArrive(args: seq<Arg>)
    requires AreArgs(args) && ArgsError(args).None? && GoodArgs(args)
    ensures |NormalArgs(args)| == |args| && forall i :: 0 <= i < |args| ==> ReceivedAs(NormalArgs(args)[i], args[i])
  {
    hide IsArg, ArgError, GoodArg, NormalArg, ReceivedAs;
    if args != [] {
      ArgArrives(args[0]);
      AllArrive(args[1..]);
      var got, others := NormalArgs(args), NormalArgs(args[1..]);
      assert got == [NormalArg(args[0])] + others;
      forall i | 0 <= i < |args| ensures ReceivedAs(got[i], args[i]) {
        if i > 0 { assert got[i] == others[i - 1] && args[i] == args[1..][i - 1]; }
      }
    }
  }

  /** Every argument of a list that can be sent and transmitted is received: arrays with elements as arrays with
      all of them, whatever their size, and only those without as NULL. */
  lemma ArgumentsArrive(args: seq<Arg>, rest: Bytes)
    requires AreArgs(args) && ArgsError(args).None? && GoodArgs(args)
    ensures var got := RecvArgs(Kinds(args), SendArgs(args).bytes + rest);
      && SendArgs(args).error == None
      && got.Ok? && got.value.1 == rest && |got.value.0| == |args|
      && forall i :: 0 <= i < |args| ==> ReceivedAs(got.value.0[i], args[i])
  {
    hide AreArgs, ArgsError, GoodArgs, SendArgs, RecvArgs, NormalArgs, ReceivedAs, Kinds;
    ArgsRoundTrip(args, rest);
    AllArrive(args);
  }

  /** An array of a built-in type is received as it was sent. */
  lemma BuiltInArrayArrives(elemKind: i32, items: seq<Value>, rest: Bytes)
    requires 0 < |items| < 0x8000_0000 && elemKind != -2000
    requires forall i :: 0 <= i < |items| ==> IsBuiltIn(elemKind, items[i])
    ensures var a := Array(elemKind, |items|, Some(Items(items)));
      AreArgs([a]) && RecvArgs([-2007], SendArgs([a]).bytes + rest) == Ok(([a], rest))
  {
    hide SendArgs, RecvArgs, ReceivedAs, IsBuiltIn, HasKind, Known, GoodValue, ValueError;
    var a := Array(elemKind, |items|, Some(Items(items)));
    BuiltInItems(elemKind, items);
    SingleArray(a);
    ArgumentsArrive([a], rest);
    var got := RecvArgs([-2007], SendArgs([a]).bytes + rest);
    assert ReceivedAs(got.value.0[0], [a][0]);
    SameElements(got.value.0[0], a);
    assert got.value.0 == [a];
  }

  lemma {:induction false} BuiltInItems(elemKind: i32, items: seq<Value>)
    requires items != [] ==> elemKind != -2000
    requires forall i :: 0 <= i < |items| ==> IsBuiltIn(elemKind, items[i])
    ensures HasKinds(items, elemKind) && ValuesError(items).None? && GoodValues(items)
    ensures forall i :: 0 <= i < |items| ==> items[i] != UserV(Missing)
    ensures items != [] ==> -2006 <= elemKind < -2000
  {
    if items != [] { BuiltInItems(elemKind, items[1..]); }
  }

  lemma SingleArray(a: Arg)
    requires a.Array? && a.size > 0 && a.contents.Some? && a.contents.value.Items? && -2006 <= a.elemKind < -2000
    requires |a.contents.value.items| == a.size < 0x8000_0000 && HasKinds(a.contents.value.items, a.elemKind)
    requires ValuesError(a.contents.value.items).None? && GoodValues(a.contents.value.items)
    requires UserV(Missing) !in a.contents.value.items
    ensures AreArgs([a]) && ArgsError([a]).None? && GoodArgs([a]) && Kinds([a]) == [-2007]
  {
    hide HasKinds, ValuesError, GoodValues;
    assert [a][1..] == [];
  }

  lemma SameElements(got: Arg, a: Arg)
    requires a.Array? && a.size > 0 && a.contents.Some? && a.contents.value.Items? && ReceivedAs(got, a)
    requires forall i :: 0 <= i < |a.contents.value.items| ==> IsBuiltIn(a.elemKind, a.contents.value.items[i])
    ensures got == a
  {
    hide IsBuiltIn, RecvValue, SendValue, HasKind, Known;
    var items, was := got.contents.value.items, a.contents.value.items;
    forall i | 0 <= i < |was| ensures items[i] == was[i] {
      BuiltInArrives(a.elemKind, was[i], []);
      assert SendValue(a.elemKind, was[i]) + [] == SendValue(a.elemKind, was[i]);
      assert ElementReceived(items[i], a.elemKind, was[i]);
    }
    assert items == was;
  }

  // --- Errors of the sender ---

  /** Nothing that has a type and a value the sender takes is refused: among the built-in types, nothing; of the
      values of the NPAPI, missing ones, events and print modes of unknown kind. */
  lemma ValuesRefused(v: Value)
    ensures ValueError(v).Some? <==>
      v.UserV? && (v.user.Missing? || (v.user.Event? && !(2 <= v.user.kind <= 10) && v.user.kind != 13)
                   || (v.user.PrintInfo? && v.user.job.OtherPrint?))
    ensures ValueError(v).Some? ==> ValueError(v).value == if v.user.PrintInfo? then Generic else ArgumentInvalid
  {
  }

  /** Sending a list ends with the first argument whose type is unknown: its type has been sent, and nothing
      after that. */
  lemma UnknownTypeEndsSending(front: seq<Arg>, kind: i32, v: Value, back: seq<Arg>)
    requires AreArgs(front) && ArgsError(front).None? && !(-2007 <= kind <= -2000) && !(0 <= kind <= 20)
    requires AreArgs(front + [One(kind, v)] + back)
    ensures var sent := SendArgs(front + [One(kind, v)] + back);
      sent.error == Some(ArgumentUnknown) && sent.bytes == SendI32(-3001) + SendEach(front).bytes + SendI32(kind)
  {
    hide SendI32, SendEach, AreArgs;
    EachUntilUnknown(front, kind, v, back);
    var before := SendEach(front).bytes;
    assert SendI32(-3001) + (before + SendI32(kind)) == SendI32(-3001) + before + SendI32(kind);
  }

  lemma {:induction false} EachUntilUnknown(front: seq<Arg>, kind: i32, v: Value, back: seq<Arg>)
    requires AreArgs(front) && ArgsError(front).None? && !(-2007 <= kind <= -2000) && !(0 <= kind <= 20)
    requires AreArgs(front + [One(kind, v)] + back)
    ensures var sent := SendEach(front + [One(kind, v)] + back);
      sent.error == Some(ArgumentUnknown) && sent.bytes == SendEach(front).bytes + SendI32(kind)
  {
    hide SendI32, SendArg, IsArg, ArgError;
    var all := front + [One(kind, v)] + back;
    if front == [] {
      assert all[0] == One(kind, v);
      UnknownArg(kind, v);
      assert [] + SendI32(kind) == SendI32(kind);
    } else {
      assert all[0] == front[0] && all[1..] == front[1..] + [One(kind, v)] + back;
      FirstArg(front);
      EachUntilUnknown(front[1..], kind, v, back);
      var first, others := SendArg(front[0]).bytes, SendEach(front[1..]).bytes;
      assert SendEach(front).bytes + SendI32(kind) == first + (others + SendI32(kind));
    }
  }

  lemma UnknownArg(kind: i32, v: Value)
    requires IsArg(One(kind, v)) && !(-2007 <= kind <= -2000) && !(0 <= kind <= 20)
    ensures SendArg(One(kind, v)) == Sent(SendI32(kind), Some(ArgumentUnknown))
  {
  }

  lemma FirstArg(front: seq<Arg>)
    requires AreArgs(front) && ArgsError(front).None? && front != []
    ensures SendArg(front[0]).error.None?
  {
    ArgRoundTrip(front[0], []);
  }
}
