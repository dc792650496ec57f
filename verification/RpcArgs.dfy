/** Argument lists: rpc_message_send_args() and rpc_message_recv_args() (src/rpc.c). */
module RpcArgs {
  import opened Wrappers
  import opened Wire
  import opened NpValues
  import opened NpRoundTrips

  const TYPE_INVALID: i32 := 0
  const TYPE_CHAR: i32 := -2000
  const TYPE_BOOLEAN: i32 := -2001
  const TYPE_INT32: i32 := -2002
  const TYPE_UINT32: i32 := -2003
  const TYPE_UINT64: i32 := -2004
  const TYPE_DOUBLE: i32 := -2005
  const TYPE_STRING: i32 := -2006
  const TYPE_ARRAY: i32 := -2007

  const MESSAGE_ARGS: i32 := -3001
  const MESSAGE_END: i32 := -3002

  datatype Value =
    | CharV(c: byte) | IntV(i: i32) | UintV(u: u32) | Uint64V(w: u64) | DoubleV(bits: u64) | StringV(str: Option<Bytes>)
    | UserV(user: NpValue)

  // An array of chars is moved in one piece, any other one element at a time.
  datatype Contents = Chars(chars: Bytes) | Items(items: seq<Value>)

  // contents is None for a NULL pointer.
  datatype Arg = One(kind: i32, value: Value) | Array(elemKind: i32, size: u32, contents: Option<Contents>) {
    function Kind(): i32 { if One? then kind else TYPE_ARRAY }

    // is_valid_array
    predicate IsFilled() { Array? && size > 0 && contents.Some? }

    // The type that decides how the argument is written.
    function DataKind(): i32 { if One? then kind else elemKind }
  }

  // Types that have a marshaler: the built-in ones and those of src/npw-rpc.c.
  predicate Known(kind: i32) {
    TYPE_STRING <= kind <= TYPE_CHAR || IsNpType(kind)
  }

  // Types whose marshaler takes the address of the value, and so can be elements of an array.
  predicate TakesAddress(kind: i32) {
    kind == NP_RECT || kind == NP_EVENT || NP_PRINT <= kind <= NP_PRINT_DATA
    || kind == NP_IDENTIFIER || kind == NP_STRING || kind == NP_VARIANT || kind == NP_VARIANT_PASS_REF
  }

  predicate HasKind(v: Value, kind: i32) {
    match v
    case CharV(_) => kind == TYPE_CHAR
    case IntV(_) => kind == TYPE_BOOLEAN || kind == TYPE_INT32
    case UintV(_) => kind == TYPE_UINT32
    case Uint64V(_) => kind == TYPE_UINT64
    case DoubleV(_) => kind == TYPE_DOUBLE
    case StringV(str) => kind == TYPE_STRING && IsCString(str)
    case UserV(user) => IsNpType(kind) && HasType(user, kind)
  }

  predicate HasKinds(vs: seq<Value>, kind: i32) {
    vs != [] ==> HasKind(vs[0], kind) && HasKinds(vs[1..], kind)
  }

  // What a caller can pass: where the type has a marshaler, a value of that type.
  predicate IsArg(a: Arg) {
    match a
    case One(kind, v) => kind != TYPE_INVALID && kind != TYPE_ARRAY && (Known(kind) ==> HasKind(v, kind))
    case Array(elemKind, size, contents) =>
      a.IsFilled() && Known(elemKind) ==>
        && size < TWO_31
        && (IsNpType(elemKind) ==> TakesAddress(elemKind))
        && match contents.value
           case Chars(chars) => elemKind == TYPE_CHAR && |chars| == size
           case Items(items) =>
             elemKind != TYPE_CHAR && |items| == size && HasKinds(items, elemKind) && UserV(Missing) !in items
  }

  predicate AreArgs(args: seq<Arg>) {
    args != [] ==> IsArg(args[0]) && AreArgs(args[1..])
  }

  // --- Sending ---

  // What has been appended when the function returns, and the error it returns.
  datatype Sent = Sent(bytes: Bytes, error: Option<RpcError>)

  function SendValue(kind: i32, v: Value): Bytes
    requires Known(kind) && HasKind(v, kind)
  {
    match v
    case CharV(c) => SendChar(c)
    case IntV(i) => SendI32(i)
    case UintV(u) => SendU32(u)
    case Uint64V(w) => SendU64(w)
    case DoubleV(bits) => SendDouble(bits)
    case StringV(str) => SendString(str)
    case UserV(user) => SendNpValue(kind, user)
  }

  // The error that sending a value ends with, if any.
  function ValueError(v: Value): Option<RpcError> {
    if v.UserV? then SendError(v.user) else None
  }

  function SendValues(kind: i32, vs: seq<Value>): Sent
    requires Known(kind) && HasKinds(vs, kind)
  {
    if vs == [] then Sent([], None)
    else if ValueError(vs[0]).Some? then Sent(SendValue(kind, vs[0]), ValueError(vs[0]))
    else
      var others := SendValues(kind, vs[1..]);
      Sent(SendValue(kind, vs[0]) + others.bytes, others.error)
  }

  function SendHeader(a: Arg): Bytes {
    match a
    case One(kind, _) => SendI32(kind)
    case Array(elemKind, size, _) =>
      SendI32(TYPE_ARRAY) + SendI32(elemKind) + SendU32(size) + SendChar(if a.IsFilled() then 1 else 0)
  }

  // A NULL or empty array has no data, whatever the type of its elements.
  predicate HasData(a: Arg) {
    a.One? || a.IsFilled()
  }

  function SendData(a: Arg): Sent
    requires IsArg(a) && HasData(a) && Known(a.DataKind())
  {
    match a
    case One(kind, v) => Sent(SendValue(kind, v), ValueError(v))
    case Array(_, _, Some(Chars(chars))) => Sent(chars, None)
    case Array(elemKind, _, Some(Items(items))) => SendValues(elemKind, items)
  }

  function SendArg(a: Arg): Sent
    requires IsArg(a)
  {
    if !HasData(a) then Sent(SendHeader(a), None)
    else if !Known(a.DataKind()) then Sent(SendHeader(a), Some(ArgumentUnknown))
    else
      var data := SendData(a);
      Sent(SendHeader(a) + data.bytes, data.error)
  }

  function SendEach(args: seq<Arg>): Sent
    requires AreArgs(args)
  {
    if args == [] then Sent([], None)
    else
      var first := SendArg(args[0]);
      if first.error.Some? then first
      else
        var others := SendEach(args[1..]);
        Sent(first.bytes + others.bytes, others.error)
  }

  // An empty list sends nothing at all.
  function SendArgs(args: seq<Arg>): Sent
    requires AreArgs(args)
  {
    if args == [] then Sent([], None)
    else
      var each := SendEach(args);
      if each.error.Some? then Sent(SendI32(MESSAGE_ARGS) + each.bytes, each.error)
      else Sent(SendI32(MESSAGE_ARGS) + each.bytes + SendI32(MESSAGE_END), None)
  }

  // --- Receiving ---

  function RecvValue(kind: i32, s: Bytes): Decoded<Value> {
    if kind == TYPE_CHAR then var (c, r) :- RecvChar(s); Ok((CharV(c), r))
    else if kind == TYPE_BOOLEAN || kind == TYPE_INT32 then var (i, r) :- RecvI32(s); Ok((IntV(i), r))
    else if kind == TYPE_UINT32 then var (u, r) :- RecvU32(s); Ok((UintV(u), r))
    else if kind == TYPE_UINT64 then var (w, r) :- RecvU64(s); Ok((Uint64V(w), r))
    else if kind == TYPE_DOUBLE then var (bits, r) :- RecvDouble(s); Ok((DoubleV(bits), r))
    else if kind == TYPE_STRING then var (str, r) :- RecvString(s); Ok((StringV(str), r))
    else if IsNpType(kind) then var (user, r) :- RecvNpValue(kind, s); Ok((UserV(user), r))
    else Err(ArgumentUnknown)
  }

  function RecvValues(kind: i32, count: nat, s: Bytes): Decoded<seq<Value>> {
    if count == 0 then Ok(([], s))
    else
      var (first, s1) :- RecvValue(kind, s);
      var (others, s2) :- RecvValues(kind, count - 1, s1);
      Ok(([first] + others, s2))
  }

  function RecvArrayData(elemKind: i32, size: u32, s: Bytes): Decoded<Arg> {
    if size == 0 then Err(AssertionFailed)
    else if elemKind == TYPE_CHAR then
      var (chars, rest) :- RecvBytes(s, size);
      Ok((Array(elemKind, size, Some(Chars(chars))), rest))
    else
      var (items, rest) :- RecvValues(elemKind, size, s);
      Ok((Array(elemKind, size, Some(Items(items))), rest))
  }

  // The type of the elements is taken from the message; what the caller expects is not compared with it.
  function RecvArray(s: Bytes): Decoded<Arg> {
    var (elemKind, s1) :- RecvI32(s);
    var (size, s2) :- RecvU32(s1);
    var (valid, s3) :- RecvChar(s2);
    if valid == 0 then Ok((Array(elemKind, size, None), s3)) else RecvArrayData(elemKind, size, s3)
  }

  function RecvArg(expected: i32, s: Bytes): Decoded<Arg> {
    var (kind, s1) :- RecvI32(s);
    if kind != expected then Err(ArgumentMismatch)
    else if kind == TYPE_ARRAY then RecvArray(s1)
    else
      var (v, s2) :- RecvValue(kind, s1);
      Ok((One(kind, v), s2))
  }

  function RecvEach(expected: seq<i32>, s: Bytes): Decoded<seq<Arg>> {
    if expected == [] then Ok(([], s))
    else
      var (first, s1) :- RecvArg(expected[0], s);
      var (others, s2) :- RecvEach(expected[1..], s1);
      Ok(([first] + others, s2))
  }

  // Nothing is read when nothing is expected.
  function RecvArgs(expected: seq<i32>, s: Bytes): Decoded<seq<Arg>> {
    if expected == [] then Ok(([], s))
    else
      var (start, s1) :- RecvI32(s);
      if start != MESSAGE_ARGS then Err(Truncated)
      else
        var (args, s2) :- RecvEach(expected, s1);
        var (end, s3) :- RecvI32(s2);
        if end != MESSAGE_END then Err(Truncated) else Ok((args, s3))
  }

  // --- What can be sent ---

  // The error of the first element that has one.
  function ValuesError(vs: seq<Value>): Option<RpcError> {
    if vs == [] then None
    else if ValueError(vs[0]).Some? then ValueError(vs[0])
    else ValuesError(vs[1..])
  }

  function ArgError(a: Arg): Option<RpcError> {
    if !HasData(a) then None
    else if !Known(a.DataKind()) then Some(ArgumentUnknown)
    else match a
      case One(_, v) => ValueError(v)
      case Array(_, _, contents) => if contents.value.Items? then ValuesError(contents.value.items) else None
  }

  function ArgsError(args: seq<Arg>): Option<RpcError> {
    if args == [] then None
    else if ArgError(args[0]).Some? then ArgError(args[0])
    else ArgsError(args[1..])
  }

  // --- What arguments are received as ---

  function NormalValue(kind: i32, v: Value): Value
    requires HasKind(v, kind) && ValueError(v).None?
  {
    if v.UserV? then UserV(Normal(kind, v.user)) else v
  }

  function NormalValues(kind: i32, vs: seq<Value>): seq<Value>
    requires HasKinds(vs, kind) && ValuesError(vs).None?
  {
    if vs == [] then [] else [NormalValue(kind, vs[0])] + NormalValues(kind, vs[1..])
  }

  // A NULL or empty array keeps its size and becomes NULL.
  function NormalArg(a: Arg): Arg
    requires IsArg(a) && ArgError(a).None?
  {
    match a
    case One(kind, v) => One(kind, NormalValue(kind, v))
    case Array(elemKind, size, contents) =>
      if !a.IsFilled() then Array(elemKind, size, None)
      else if contents.value.Chars? then a
      else Array(elemKind, size, Some(Items(NormalValues(elemKind, contents.value.items))))
  }

  function NormalArgs(args: seq<Arg>): seq<Arg>
    requires AreArgs(args) && ArgsError(args).None?
  {
    if args == [] then [] else [NormalArg(args[0])] + NormalArgs(args[1..])
  }

  predicate GoodValue(v: Value) {
    v.UserV? ==> Transmittable(v.user)
  }

  predicate GoodValues(vs: seq<Value>) {
    vs != [] ==> GoodValue(vs[0]) && GoodValues(vs[1..])
  }

  // The argument's values can be transmitted.
  predicate GoodArg(a: Arg) {
    HasData(a) ==>
      match a
      case One(_, v) => GoodValue(v)
      case Array(_, _, contents) => contents.value.Items? ==> GoodValues(contents.value.items)
  }

  predicate GoodArgs(args: seq<Arg>) {
    args != [] ==> GoodArg(args[0]) && GoodArgs(args[1..])
  }

  function Kinds(args: seq<Arg>): seq<i32> {
    if args == [] then [] else [args[0].Kind()] + Kinds(args[1..])
  }

  // --- Round trips ---

  lemma ValueRoundTrip(kind: i32, v: Value, rest: Bytes)
    requires Known(kind) && HasKind(v, kind) && ValueError(v).None?
    ensures RecvValue(kind, SendValue(kind, v) + rest) == Ok((NormalValue(kind, v), rest)) <==> GoodValue(v)
    ensures !GoodValue(v) ==>
              var r := RecvValue(kind, SendValue(kind, v) + rest); r.Ok? ==> r.value.0 != NormalValue(kind, v)
  {
    match v
    case CharV(c) => CharRoundTrip(c, rest);
    case IntV(i) => I32RoundTrip(i, rest);
    case UintV(u) => U32RoundTrip(u, rest);
    case Uint64V(w) => U64RoundTrip(w, rest);
    case DoubleV(bits) => DoubleRoundTrip(bits, rest);
    case StringV(str) => StringRoundTrip(str, rest);
    case UserV(user) =>
      if Transmittable(user) { TransmittableArrives(kind, user, rest); } else { OthersDoNot(kind, user, rest); }
  }

  lemma {:induction false} ValuesRoundTrip(kind: i32, vs: seq<Value>, rest: Bytes)
    requires Known(kind) && HasKinds(vs, kind) && ValuesError(vs).None?
    ensures SendValues(kind, vs).error.None?
    ensures RecvValues(kind, |vs|, SendValues(kind, vs).bytes + rest) == Ok((NormalValues(kind, vs), rest))
      <==> GoodValues(vs)
    ensures !GoodValues(vs) ==>
              var r := RecvValues(kind, |vs|, SendValues(kind, vs).bytes + rest);
              r.Ok? ==> r.value.0 != NormalValues(kind, vs)
  {
    hide SendValue, RecvValue, GoodValue, NormalValue;
    if vs == [] {
      assert SendValues(kind, vs).bytes + rest == rest;
    } else {
      var others := SendValues(kind, vs[1..]).bytes;
      ValuesRoundTrip(kind, vs[1..], rest);
      assert SendValues(kind, vs).bytes + rest == SendValue(kind, vs[0]) + (others + rest);
      ValueRoundTrip(kind, vs[0], others + rest);
      var r := RecvValues(kind, |vs|, SendValues(kind, vs).bytes + rest);
      if r.Ok? {
        assert r.value.0[0] == RecvValue(kind, SendValue(kind, vs[0]) + (others + rest)).value.0;
        if GoodValue(vs[0]) {
          assert r.value.0[1..] == RecvValues(kind, |vs| - 1, others + rest).value.0;
          assert NormalValues(kind, vs)[1..] == NormalValues(kind, vs[1..]);
        }
      }
    }
  }

  lemma ArrayHeaderRoundTrip(a: Arg, data: Bytes)
    requires a.Array?
    ensures RecvArg(TYPE_ARRAY, SendHeader(a) + data)
         == if a.IsFilled() then RecvArrayData(a.elemKind, a.size, data)
            else Ok((Array(a.elemKind, a.size, None), data))
  {
    var valid := if a.IsFilled() then 1 else 0;
    var size := SendU32(a.size) + (SendChar(valid) + data);
    assert SendHeader(a) + data == SendI32(TYPE_ARRAY) + (SendI32(a.elemKind) + size);
    I32RoundTrip(TYPE_ARRAY, SendI32(a.elemKind) + size);
    I32RoundTrip(a.elemKind, size);
    U32RoundTrip(a.size, SendChar(valid) + data);
    CharRoundTrip(valid, data);
  }

  lemma ArrayDataRoundTrip(a: Arg, rest: Bytes)
    requires IsArg(a) && a.IsFilled() && ArgError(a).None?
    ensures SendData(a).error.None?
    ensures RecvArrayData(a.elemKind, a.size, SendData(a).bytes + rest) == Ok((NormalArg(a), rest)) <==> GoodArg(a)
    ensures !GoodArg(a) ==>
              var r := RecvArrayData(a.elemKind, a.size, SendData(a).bytes + rest); r.Ok? ==> r.value.0 != NormalArg(a)
  {
    match a.contents.value
    case Chars(chars) => BytesRoundTrip(chars, rest);
    case Items(items) => ValuesRoundTrip(a.elemKind, items, rest);
  }

  lemma ArrayRoundTrip(a: Arg, rest: Bytes)
    requires IsArg(a) && a.Array? && ArgError(a).None?
    ensures SendArg(a).error.None?
    ensures RecvArg(TYPE_ARRAY, SendArg(a).bytes + rest) == Ok((NormalArg(a), rest)) <==> GoodArg(a)
    ensures !GoodArg(a) ==> var r := RecvArg(TYPE_ARRAY, SendArg(a).bytes + rest); r.Ok? ==> r.value.0 != NormalArg(a)
  {
    hide RecvArg, SendHeader, SendData, RecvArrayData;
    if a.IsFilled() {
      ArrayDataRoundTrip(a, rest);
      assert SendArg(a).bytes + rest == SendHeader(a) + (SendData(a).bytes + rest);
      ArrayHeaderRoundTrip(a, SendData(a).bytes + rest);
    } else {
      ArrayHeaderRoundTrip(a, rest);
    }
  }

  lemma ArgRoundTrip(a: Arg, rest: Bytes)
    requires IsArg(a) && ArgError(a).None?
    ensures SendArg(a).error.None?
    ensures RecvArg(a.Kind(), SendArg(a).bytes + rest) == Ok((NormalArg(a), rest)) <==> GoodArg(a)
    ensures !GoodArg(a) ==> var r := RecvArg(a.Kind(), SendArg(a).bytes + rest); r.Ok? ==> r.value.0 != NormalArg(a)
  {
    match a
    case One(kind, v) =>
      hide SendValue, RecvValue, GoodValue, NormalValue;
      assert SendArg(a).bytes + rest == SendI32(kind) + (SendValue(kind, v) + rest);
      I32RoundTrip(kind, SendValue(kind, v) + rest);
      ValueRoundTrip(kind, v, rest);
    case Array(_, _, _) => ArrayRoundTrip(a, rest);
  }

  lemma {:induction false} EachRoundTrip(args: seq<Arg>, rest: Bytes)
    requires AreArgs(args) && ArgsError(args).None?
    ensures SendEach(args).error.None?
    ensures RecvEach(Kinds(args), SendEach(args).bytes + rest) == Ok((NormalArgs(args), rest)) <==> GoodArgs(args)
    ensures !GoodArgs(args) ==>
              var r := RecvEach(Kinds(args), SendEach(args).bytes + rest); r.Ok? ==> r.value.0 != NormalArgs(args)
  {
    hide RecvArg, SendArg, GoodArg, NormalArg, ArgError;
    if args == [] {
      assert SendEach(args).bytes + rest == rest;
    } else {
      var first, others := SendArg(args[0]).bytes, SendEach(args[1..]).bytes;
      EachRoundTrip(args[1..], rest);
      ArgRoundTrip(args[0], others + rest);
      assert SendEach(args).bytes + rest == first + (others + rest);
      assert Kinds(args)[1..] == Kinds(args[1..]);
      var r := RecvEach(Kinds(args), SendEach(args).bytes + rest);
      if r.Ok? {
        assert r.value.0[0] == RecvArg(args[0].Kind(), first + (others + rest)).value.0;
        if GoodArg(args[0]) {
          assert r.value.0[1..] == RecvEach(Kinds(args[1..]), others + rest).value.0;
          assert NormalArgs(args)[1..] == NormalArgs(args[1..]);
        }
      }
    }
  }

  lemma {:induction false} ValuesStopAtError(kind: i32, vs: seq<Value>)
    requires Known(kind) && HasKinds(vs, kind)
    ensures SendValues(kind, vs).error == ValuesError(vs)
  {
    if vs != [] { ValuesStopAtError(kind, vs[1..]); }
  }

  lemma {:induction false} SendingStopsAtError(args: seq<Arg>)
    requires AreArgs(args)
    ensures SendEach(args).error == ArgsError(args)
  {
    if args != [] {
      var a := args[0];
      if a.IsFilled() && Known(a.elemKind) && a.contents.value.Items? {
        ValuesStopAtError(a.elemKind, a.contents.value.items);
      }
      SendingStopsAtError(args[1..]);
    }
  }

  /** An argument list is sent without error if and only if all its types have marshalers and none of these
      refuses its value; it is then received in its normal form, leaving exactly the bytes after it, if and
      only if all its values can be transmitted. */
  lemma ArgsRoundTrip(args: seq<Arg>, rest: Bytes)
    requires AreArgs(args)
    ensures SendArgs(args).error == ArgsError(args)
    ensures ArgsError(args).None? ==>
              (RecvArgs(Kinds(args), SendArgs(args).bytes + rest) == Ok((NormalArgs(args), rest)) <==> GoodArgs(args))
  {
    hide RecvArg, SendArg, GoodArg, NormalArg, HasData, IsArg, ArgError, SendI32, RecvI32;
    SendingStopsAtError(args);
    if args == [] {
      assert SendArgs(args).bytes + rest == rest;
    } else if ArgsError(args).None? {
      ListRoundTrip(args, rest);
    }
  }

  lemma ListRoundTrip(args: seq<Arg>, rest: Bytes)
    requires args != [] && AreArgs(args) && ArgsError(args).None?
    ensures RecvArgs(Kinds(args), SendArgs(args).bytes + rest) == Ok((NormalArgs(args), rest)) <==> GoodArgs(args)
  {
    hide SendI32, RecvI32, SendEach, RecvEach, AreArgs, ArgsError, GoodArgs, NormalArgs;
    SendingStopsAtError(args);
    var each, end := SendEach(args).bytes, SendI32(MESSAGE_END);
    assert SendArgs(args).bytes + rest == SendI32(MESSAGE_ARGS) + (each + (end + rest));
    I32RoundTrip(MESSAGE_ARGS, each + (end + rest));
    EachRoundTrip(args, end + rest);
    I32RoundTrip(MESSAGE_END, rest);
  }

  // The type of the first argument, or the end marker, is what can be read next.
  lemma NextKind(args: seq<Arg>, rest: Bytes)
    requires AreArgs(args) && ArgsError(args).None?
    ensures var next := if args == [] then MESSAGE_END else args[0].Kind();
            var r := RecvI32(SendEach(args).bytes + (SendI32(MESSAGE_END) + rest));
            r.Ok? && r.value.0 == next && (args != [] ==> next != MESSAGE_END)
  {
    hide SendData, RecvI32;
    SendingStopsAtError(args);
    if args == [] {
      assert SendEach(args).bytes + (SendI32(MESSAGE_END) + rest) == SendI32(MESSAGE_END) + rest;
      I32RoundTrip(MESSAGE_END, rest);
    } else {
      var kind, sent := args[0].Kind(), SendEach(args).bytes + (SendI32(MESSAGE_END) + rest);
      assert sent[..4] == SendI32(kind);
      assert sent == SendI32(kind) + sent[4..];
      I32RoundTrip(kind, sent[4..]);
    }
  }

  lemma {:induction false} OtherKindsFail(expected: seq<i32>, args: seq<Arg>, rest: Bytes)
    requires AreArgs(args) && ArgsError(args).None? && GoodArgs(args) && expected != Kinds(args)
    ensures var r := RecvEach(expected, SendEach(args).bytes + (SendI32(MESSAGE_END) + rest));
            r.Ok? ==> RecvI32(r.value.1).Ok? && RecvI32(r.value.1).value.0 != MESSAGE_END
    decreases args
  {
    hide SendArg, GoodArg, NormalArg, RecvI32, RecvArray, ArgError;
    NextKind(args, rest);
    if expected != [] && args != [] && expected[0] == args[0].Kind() {
      assert expected == [expected[0]] + expected[1..];
      OtherKindsFail(expected[1..], args[1..], rest);
      var first, others := SendArg(args[0]).bytes, SendEach(args[1..]).bytes + (SendI32(MESSAGE_END) + rest);
      ArgRoundTrip(args[0], others);
      assert SendEach(args).bytes + (SendI32(MESSAGE_END) + rest) == first + others;
    }
  }

  /** The receiver takes a list for another one of the types it expects in no case: asked for any types at
      all, it returns without an error if and only if they are the types of what was sent. Asked for nothing it
      reads nothing; and of an empty list nothing is sent, so it is the bytes after it that are read. */
  lemma TypesAreChecked(expected: seq<i32>, args: seq<Arg>, rest: Bytes)
    requires AreArgs(args) && ArgsError(args).None? && GoodArgs(args)
    ensures var r := RecvArgs(expected, SendArgs(args).bytes + rest);
      if expected == [] then r == Ok(([], SendArgs(args).bytes + rest))
      else if args == [] then r == RecvArgs(expected, rest)
      else r.Ok? <==> expected == Kinds(args)
  {
    if expected != [] && args == [] { assert SendArgs(args).bytes + rest == rest; }
    if expected != [] && args != [] { FilledTypesAreChecked(expected, args, rest); }
  }

  lemma FilledTypesAreChecked(expected: seq<i32>, args: seq<Arg>, rest: Bytes)
    requires AreArgs(args) && ArgsError(args).None? && GoodArgs(args) && args != [] && expected != []
    ensures RecvArgs(expected, SendArgs(args).bytes + rest).Ok? <==> expected == Kinds(args)
  {
    hide SendArg, GoodArg, NormalArg, RecvI32, RecvArg, ArgError;
    ArgsRoundTrip(args, rest);
    SendingStopsAtError(args);
    var each := SendEach(args).bytes + (SendI32(MESSAGE_END) + rest);
    assert SendArgs(args).bytes + rest == SendI32(MESSAGE_ARGS) + each;
    I32RoundTrip(MESSAGE_ARGS, each);
    if expected != Kinds(args) { OtherKindsFail(expected, args, rest); }
  }
}
