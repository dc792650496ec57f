/** rpc_message_send_args() and rpc_message_recv_args() as loops over a message (src/rpc.c). */
module RpcArgsTransfer {
  import opened Wrappers
  import opened Wire
  import opened RpcMessage
  import opened NpMarshalers
  import opened RpcArgs

  method SendValue(message: Message, kind: i32, v: Value) returns (error: Option<RpcError>)
    requires message.Valid() && Known(kind) && HasKind(v, kind)
    modifies message.socket`wire, message.socket`failed, message`offset, message.buffer
    ensures Outcome(message, error, old(message.View().Sent()), old(message.socket.failed),
                    RpcArgs.SendValue(kind, v), ValueError(v))
  {
    hide NpValues.SendNpValue;
    match v
    case CharV(c) => error := message.SendChar(c);
    case IntV(i) => error := message.SendI32(i);
    case UintV(u) => error := message.SendU32(u);
    case Uint64V(w) => error := message.SendU64(w);
    case DoubleV(bits) => error := message.SendDouble(bits);
    case StringV(str) => error := message.SendString(str);
    case UserV(user) => error := SendNpValue(message, kind, user);
  }

  method SendValues(message: Message, kind: i32, vs: seq<Value>) returns (error: Option<RpcError>)
    requires message.Valid() && Known(kind) && HasKinds(vs, kind)
    modifies message.socket`wire, message.socket`failed, message`offset, message.buffer
    ensures var spec := RpcArgs.SendValues(kind, vs);
            Outcome(message, error, old(message.View().Sent()), old(message.socket.failed), spec.bytes, spec.error)
  {
    hide RpcArgs.SendValue, Known, HasKind, ValueError;
    ghost var was, all := message.View().Sent(), RpcArgs.SendValues(kind, vs);
    for i := 0 to |vs|
      invariant message.Valid() && HasKinds(vs[i..], kind)
      invariant old(message.socket.failed) ==> message.socket.failed
      invariant !message.socket.failed ==>
                  && RpcArgs.SendValues(kind, vs[i..]).error == all.error
                  && message.View().Sent() + RpcArgs.SendValues(kind, vs[i..]).bytes == was + all.bytes
    {
      assert vs[i..][1..] == vs[i + 1..];
      ghost var before := message.View().Sent();
      error := SendValue(message, kind, vs[i]);
      if error.Some? { return; }
      Joined(before, RpcArgs.SendValue(kind, vs[i]), RpcArgs.SendValues(kind, vs[i + 1..]).bytes);
    }
    assert message.View().Sent() + [] == message.View().Sent();
    error := None;
  }

  method SendHeader(message: Message, a: Arg) returns (error: Option<RpcError>)
    requires message.Valid()
    modifies message.socket`wire, message.socket`failed, message`offset, message.buffer
    ensures message.Appended(error, old(message.View().Sent()), old(message.socket.failed), RpcArgs.SendHeader(a))
  {
    hide Wire.SendI32, Wire.SendU32;
    ghost var was := message.View().Sent();
    error := message.SendI32(a.Kind());
    if error.Some? || a.One? { return; }
    error := message.SendI32(a.elemKind);
    if error.Some? { return; }
    Joined(was, Wire.SendI32(TYPE_ARRAY), Wire.SendI32(a.elemKind));
    error := message.SendU32(a.size);
    if error.Some? { return; }
    Joined(was, Wire.SendI32(TYPE_ARRAY) + Wire.SendI32(a.elemKind), Wire.SendU32(a.size));
    error := message.SendChar(if a.IsFilled() then 1 else 0);
    Joined(was, Wire.SendI32(TYPE_ARRAY) + Wire.SendI32(a.elemKind) + Wire.SendU32(a.size),
           Wire.SendChar(if a.IsFilled() then 1 else 0));
  }

  method SendData(message: Message, a: Arg) returns (error: Option<RpcError>)
    requires message.Valid() && IsArg(a) && HasData(a) && Known(a.DataKind())
    modifies message.socket`wire, message.socket`failed, message`offset, message.buffer
    ensures Outcome(message, error, old(message.View().Sent()), old(message.socket.failed),
                    RpcArgs.SendData(a).bytes, RpcArgs.SendData(a).error)
  {
    hide RpcArgs.SendValue, RpcArgs.SendValues, ValueError;
    match a
    case One(kind, v) => error := SendValue(message, kind, v);
    case Array(_, _, Some(Chars(chars))) => error := message.SendBytes(chars);
    case Array(elemKind, _, Some(Items(items))) => error := SendValues(message, elemKind, items);
  }

  method SendArg(message: Message, a: Arg) returns (error: Option<RpcError>)
    requires message.Valid() && IsArg(a)
    modifies message.socket`wire, message.socket`failed, message`offset, message.buffer
    ensures Outcome(message, error, old(message.View().Sent()), old(message.socket.failed),
                    RpcArgs.SendArg(a).bytes, RpcArgs.SendArg(a).error)
  {
    hide RpcArgs.SendHeader, RpcArgs.SendData, IsArg;
    ghost var was := message.View().Sent();
    error := SendHeader(message, a);
    if error.Some? || !HasData(a) { return; }
    if !Known(a.DataKind()) { return Some(ArgumentUnknown); }
    error := SendData(message, a);
    Joined(was, RpcArgs.SendHeader(a), RpcArgs.SendData(a).bytes);
  }

  method SendEach(message: Message, args: seq<Arg>) returns (error: Option<RpcError>)
    requires message.Valid() && AreArgs(args)
    modifies message.socket`wire, message.socket`failed, message`offset, message.buffer
    ensures Outcome(message, error, old(message.View().Sent()), old(message.socket.failed),
                    RpcArgs.SendEach(args).bytes, RpcArgs.SendEach(args).error)
  {
    hide RpcArgs.SendArg, IsArg;
    ghost var was, all := message.View().Sent(), RpcArgs.SendEach(args);
    for i := 0 to |args|
      invariant message.Valid() && AreArgs(args[i..])
      invariant old(message.socket.failed) ==> message.socket.failed
      invariant !message.socket.failed ==>
                  && RpcArgs.SendEach(args[i..]).error == all.error
                  && message.View().Sent() + RpcArgs.SendEach(args[i..]).bytes == was + all.bytes
    {
      assert args[i..][1..] == args[i + 1..];
      ghost var before := message.View().Sent();
      error := SendArg(message, args[i]);
      if error.Some? { return; }
      Joined(before, RpcArgs.SendArg(args[i]).bytes, RpcArgs.SendEach(args[i + 1..]).bytes);
    }
    assert message.View().Sent() + [] == message.View().Sent();
    error := None;
  }

  method SendArgs(message: Message, args: seq<Arg>) returns (error: Option<RpcError>)
    requires message.Valid() && AreArgs(args)
    modifies message.socket`wire, message.socket`failed, message`offset, message.buffer
    ensures Outcome(message, error, old(message.View().Sent()), old(message.socket.failed),
                    RpcArgs.SendArgs(args).bytes, RpcArgs.SendArgs(args).error)
  {
    hide RpcArgs.SendEach, Wire.SendI32;
    ghost var was, each := message.View().Sent(), RpcArgs.SendEach(args);
    if args == [] {
      assert was + [] == was;
      return None;
    }
    error := message.SendI32(MESSAGE_ARGS);
    if error.Some? { return; }
    error := SendEach(message, args);
    Joined(was, Wire.SendI32(MESSAGE_ARGS), each.bytes);
    if error.Some? { return; }
    error := message.SendI32(MESSAGE_END);
    Joined(was, Wire.SendI32(MESSAGE_ARGS) + each.bytes, Wire.SendI32(MESSAGE_END));
  }

  // --- Receiving ---

  method RecvValue(message: Message, kind: i32) returns (r: Result<Value, RpcError>)
    modifies message.socket`incoming
    ensures Received(r, RpcArgs.RecvValue(kind, old(message.socket.incoming)), message.socket.incoming)
  {
    hide Wire.RecvU32, Wire.RecvI32, Wire.RecvU64, Wire.RecvDouble, Wire.RecvString, NpValues.RecvNpValue;
    if kind == TYPE_CHAR { var c :- message.RecvChar(); return Ok(CharV(c)); }
    if kind == TYPE_BOOLEAN || kind == TYPE_INT32 { var i :- message.RecvI32(); return Ok(IntV(i)); }
    if kind == TYPE_UINT32 { var u :- message.RecvU32(); return Ok(UintV(u)); }
    if kind == TYPE_UINT64 { var w :- message.RecvU64(); return Ok(Uint64V(w)); }
    if kind == TYPE_DOUBLE { var bits :- message.RecvDouble(); return Ok(DoubleV(bits)); }
    if kind == TYPE_STRING { var str :- message.RecvString(); return Ok(StringV(str)); }
    if NpValues.IsNpType(kind) { var user :- RecvNpValue(message, kind); return Ok(UserV(user)); }
    return Err(ArgumentUnknown);
  }

  method RecvValues(message: Message, kind: i32, count: nat) returns (r: Result<seq<Value>, RpcError>)
    modifies message.socket`incoming
    ensures Received(r, RpcArgs.RecvValues(kind, count, old(message.socket.incoming)), message.socket.incoming)
  {
    hide RpcArgs.RecvValue;
    var values: seq<Value> := [];
    ghost var all := RpcArgs.RecvValues(kind, count, message.socket.incoming);
    AfterNothing(all);
    for i := 0 to count
      invariant all == After(values, RpcArgs.RecvValues(kind, count - i, message.socket.incoming))
    {
      var v :- RecvValue(message, kind);
      AfterOneMore(values, v, RpcArgs.RecvValues(kind, count - i - 1, message.socket.incoming));
      values := values + [v];
    }
    assert values + [] == values;
    return Ok(values);
  }

  method RecvArrayData(message: Message, elemKind: i32, size: u32) returns (r: Result<Arg, RpcError>)
    modifies message.socket`incoming
    ensures Received(r, RpcArgs.RecvArrayData(elemKind, size, old(message.socket.incoming)), message.socket.incoming)
  {
    hide RpcArgs.RecvValues;
    if size == 0 { return Err(AssertionFailed); }
    if elemKind == TYPE_CHAR {
      var chars :- message.RecvBytes(size);
      return Ok(Array(elemKind, size, Some(Chars(chars))));
    }
    var items :- RecvValues(message, elemKind, size);
    return Ok(Array(elemKind, size, Some(Items(items))));
  }

  method RecvArg(message: Message, expected: i32) returns (r: Result<Arg, RpcError>)
    modifies message.socket`incoming
    ensures Received(r, RpcArgs.RecvArg(expected, old(message.socket.incoming)), message.socket.incoming)
  {
    hide Wire.RecvI32, Wire.RecvU32, RpcArgs.RecvArrayData, RpcArgs.RecvValue;
    var kind :- message.RecvI32();
    if kind != expected { return Err(ArgumentMismatch); }
    if kind == TYPE_ARRAY {
      var elemKind :- message.RecvI32();
      var size :- message.RecvU32();
      var valid :- message.RecvChar();
      if valid == 0 { return Ok(Array(elemKind, size, None)); }
      r := RecvArrayData(message, elemKind, size);
    } else {
      var v :- RecvValue(message, kind);
      return Ok(One(kind, v));
    }
  }

  method RecvEach(message: Message, expected: seq<i32>) returns (r: Result<seq<Arg>, RpcError>)
    modifies message.socket`incoming
    ensures Received(r, RpcArgs.RecvEach(expected, old(message.socket.incoming)), message.socket.incoming)
  {
    hide RpcArgs.RecvArg;
    var args: seq<Arg> := [];
    ghost var all := RpcArgs.RecvEach(expected, message.socket.incoming);
    AfterNothing(all);
    for i := 0 to |expected|
      invariant all == After(args, RpcArgs.RecvEach(expected[i..], message.socket.incoming))
    {
      assert expected[i..][1..] == expected[i + 1..];
      var a :- RecvArg(message, expected[i]);
      AfterOneMore(args, a, RpcArgs.RecvEach(expected[i + 1..], message.socket.incoming));
      args := args + [a];
    }
    assert args + [] == args;
    return Ok(args);
  }

  method RecvArgs(message: Message, expected: seq<i32>) returns (r: Result<seq<Arg>, RpcError>)
    modifies message.socket`incoming
    ensures Received(r, RpcArgs.RecvArgs(expected, old(message.socket.incoming)), message.socket.incoming)
  {
    hide RpcArgs.RecvEach, Wire.RecvI32;
    if expected == [] { return Ok([]); }
    var start :- message.RecvI32();
    if start != MESSAGE_ARGS { return Err(Truncated); }
    var args :- RecvEach(message, expected);
    var end :- message.RecvI32();
    if end != MESSAGE_END { return Err(Truncated); }
    return Ok(args);
  }
}
