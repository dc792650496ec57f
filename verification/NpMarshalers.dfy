/** The marshalers of the NPAPI types, as they use a message (src/npw-rpc.c). */
module NpMarshalers {
  import opened Wrappers
  import opened Wire
  import opened RpcMessage
  import opened NpValues

  // --- Sending ---

  // A marshaler has returned error: unless some send() has failed so far, it appended spec and returned
  // specError.
  ghost predicate Outcome(message: Message, error: Option<RpcError>, was: Bytes, hadFailed: bool,
                          spec: Bytes, specError: Option<RpcError>)
    reads message, message.socket, message.buffer
  {
    && message.Valid()
    && (hadFailed ==> message.socket.failed)
    && (!message.socket.failed ==> error == specError && message.View().Sent() == was + spec)
  }

  method SendMember(message: Message, f: Format, v: int) returns (error: Option<RpcError>)
    requires message.Valid() && Fits(f, v)
    modifies message.socket`wire, message.socket`failed, message`offset, message.buffer
    ensures message.Appended(error, old(message.View().Sent()), old(message.socket.failed), NpValues.SendMember(f, v))
  {
    match f
    case AsChar => error := message.SendChar(v);
    case AsI32 => error := message.SendI32(v);
    case _ => error := message.SendU32(v);
  }

  method SendMembers(message: Message, layout: Layout, r: Record) returns (error: Option<RpcError>)
    requires message.Valid() && HasMembers(layout, r)
    modifies message.socket`wire, message.socket`failed, message`offset, message.buffer
    ensures message.Appended(error, old(message.View().Sent()), old(message.socket.failed),
                             NpValues.SendMembers(layout, r))
  {
    hide NpValues.SendMember;
    ghost var was := message.View().Sent();
    for i := 0 to |layout|
      invariant message.Valid() && HasMembers(layout[i..], r)
      invariant old(message.socket.failed) ==> message.socket.failed
      invariant !message.socket.failed ==>
                  message.View().Sent() + NpValues.SendMembers(layout[i..], r) == was + NpValues.SendMembers(layout, r)
    {
      assert layout[i..][1..] == layout[i + 1..];
      ghost var before := message.View().Sent();
      error := SendMember(message, layout[i].1, r[layout[i].0]);
      if error.Some? { return; }
      Joined(before, NpValues.SendMember(layout[i].1, r[layout[i].0]), NpValues.SendMembers(layout[i + 1..], r));
    }
    assert message.View().Sent() + [] == message.View().Sent();
    error := None;
  }

  // do_send_NPByteRange(): one list node after the other.
  method SendByteRanges(message: Message, ranges: seq<(i32, u32)>) returns (error: Option<RpcError>)
    requires message.Valid()
    modifies message.socket`wire, message.socket`failed, message`offset, message.buffer
    ensures message.Appended(error, old(message.View().Sent()), old(message.socket.failed),
                             NpValues.SendByteRanges(ranges))
  {
    hide Wire.SendU32, Wire.SendI32;
    ghost var was := message.View().Sent();
    for i := 0 to |ranges|
      invariant message.Valid()
      invariant old(message.socket.failed) ==> message.socket.failed
      invariant !message.socket.failed ==>
                  message.View().Sent() + NpValues.SendByteRanges(ranges[i..]) == was + NpValues.SendByteRanges(ranges)
    {
      assert ranges[i..][1..] == ranges[i + 1..];
      ghost var before := message.View().Sent();
      error := message.SendU32(1);
      if error.Some? { return; }
      error := message.SendI32(ranges[i].0);
      if error.Some? { return; }
      error := message.SendU32(ranges[i].1);
      if error.Some? { return; }
      var node := Wire.SendU32(1) + Wire.SendI32(ranges[i].0) + Wire.SendU32(ranges[i].1);
      Joined(before, Wire.SendU32(1), Wire.SendI32(ranges[i].0));
      Joined(before, Wire.SendU32(1) + Wire.SendI32(ranges[i].0), Wire.SendU32(ranges[i].1));
      Joined(before, node, NpValues.SendByteRanges(ranges[i + 1..]));
    }
    error := message.SendU32(0);
  }

  method SendNpString(message: Message, str: NpString) returns (error: Option<RpcError>)
    requires message.Valid()
    modifies message.socket`wire, message.socket`failed, message`offset, message.buffer
    ensures message.Appended(error, old(message.View().Sent()), old(message.socket.failed), NpValues.SendNpString(str))
  {
    ghost var was := message.View().Sent();
    error := message.SendU32(str.length);
    if error.Some? { return; }
    if str.length > 0 && str.chars.Some? {
      error := message.SendBytes(str.chars.value);
      Joined(was, Wire.SendU32(str.length), str.chars.value);
    } else {
      Joined(was, Wire.SendU32(str.length), []);
    }
  }

  method SendObjectRef(message: Message, o: ObjectRef, passRef: bool) returns (error: Option<RpcError>)
    requires message.Valid()
    modifies message.socket`wire, message.socket`failed, message`offset, message.buffer
    ensures message.Appended(error, old(message.View().Sent()), old(message.socket.failed),
                             NpValues.SendObjectRef(o, passRef))
  {
    hide Wire.SendU32;
    ghost var was := message.View().Sent();
    var (kind, plugin, id, release) := match o
      case NullObject => (0, 0, 0, 0)
      case SenderOwned(plugin, id) => (1, plugin, id, 0)
      case ReceiverOwned(id, release) => (2, 0, id, if release then 1 else 0);
    error := message.SendU32(kind);
    if error.Some? { return; }
    error := message.SendU32(plugin);
    if error.Some? { return; }
    Joined(was, Wire.SendU32(kind), Wire.SendU32(plugin));
    error := message.SendU32(id);
    if error.Some? { return; }
    Joined(was, Wire.SendU32(kind) + Wire.SendU32(plugin), Wire.SendU32(id));
    var last := if passRef then Wire.SendU32(release) else [];
    Joined(was, Wire.SendU32(kind) + Wire.SendU32(plugin) + Wire.SendU32(id), last);
    if passRef {
      error := message.SendU32(release);
    }
  }

  method SendVariant(message: Message, v: Variant, passRef: bool) returns (error: Option<RpcError>)
    requires message.Valid()
    modifies message.socket`wire, message.socket`failed, message`offset, message.buffer
    ensures message.Appended(error, old(message.View().Sent()), old(message.socket.failed),
                             NpValues.SendVariant(v, passRef))
  {
    hide Wire.SendU32, Wire.SendDouble, NpValues.SendNpString, NpValues.SendObjectRef;
    ghost var was := message.View().Sent();
    error := message.SendU32(VariantKind(v));
    if error.Some? { return; }
    Joined(was, Wire.SendU32(VariantKind(v)), VariantPayload(v, passRef));
    match v
    case VBool(b) => error := message.SendU32(if b then 1 else 0);
    case VInt32(i) => error := message.SendI32(i);
    case VDouble(bits) => error := message.SendDouble(bits);
    case VString(str) => error := SendNpString(message, str);
    case VObject(o) => error := SendObjectRef(message, o, passRef);
    case _ => // nothing but the type
  }

  // do_send_NPSetWindowCallbackStruct()
  method SendWsInfo(message: Message, wsInfo: Option<Record>) returns (error: Option<RpcError>)
    requires message.Valid() && (wsInfo.Some? ==> HasMembers(SEND_WS_INFO, wsInfo.value))
    modifies message.socket`wire, message.socket`failed, message`offset, message.buffer
    ensures message.Appended(error, old(message.View().Sent()), old(message.socket.failed), NpValues.SendWsInfo(wsInfo))
  {
    hide Wire.SendU32, NpValues.SendMembers, HasMembers;
    ghost var was := message.View().Sent();
    match wsInfo
    case None => error := message.SendU32(0);
    case Some(info) =>
      error := message.SendU32(1);
      if error.Some? { return; }
      error := SendMembers(message, SEND_WS_INFO, info);
      Joined(was, Wire.SendU32(1), NpValues.SendMembers(SEND_WS_INFO, info));
  }

  // An error in the window-system information is not reported.
  method SendWindowData(message: Message, w: WindowData) returns (error: Option<RpcError>)
    requires message.Valid() && IsWindowData(w)
    modifies message.socket`wire, message.socket`failed, message`offset, message.buffer
    ensures message.Appended(error, old(message.View().Sent()), old(message.socket.failed), NpValues.SendWindowData(w))
  {
    hide NpValues.SendWsInfo, NpValues.SendMembers, HasMembers;
    ghost var was := message.View().Sent();
    error := SendMembers(message, SEND_WINDOW, w.members);
    if error.Some? { return; }
    var ignored := SendWsInfo(message, w.wsInfo);
    error := None;
    Joined(was, NpValues.SendMembers(SEND_WINDOW, w.members), NpValues.SendWsInfo(w.wsInfo));
  }

  method SendCounted(message: Message, count: u32, bytes: Bytes) returns (error: Option<RpcError>)
    requires message.Valid()
    modifies message.socket`wire, message.socket`failed, message`offset, message.buffer
    ensures message.Appended(error, old(message.View().Sent()), old(message.socket.failed), Wire.SendU32(count) + bytes)
  {
    ghost var was := message.View().Sent();
    error := message.SendU32(count);
    if error.Some? { return; }
    error := message.SendBytes(bytes);
    Joined(was, Wire.SendU32(count), bytes);
  }

  // The mode is sent before it is looked at.
  method SendPrint(message: Message, job: Print) returns (error: Option<RpcError>)
    requires message.Valid() && HasType(PrintInfo(job), NP_PRINT)
    modifies message.socket`wire, message.socket`failed, message`offset, message.buffer
    ensures Outcome(message, error, old(message.View().Sent()), old(message.socket.failed),
                    NpValues.SendNpValue(NP_PRINT, PrintInfo(job)), SendError(PrintInfo(job)))
  {
    hide Wire.SendU32, NpValues.SendMembers, NpValues.SendWindowData, HasMembers;
    ghost var was := message.View().Sent();
    var mode := match job
      case FullPrint(_) => PRINT_FULL
      case EmbedPrint(_) => PRINT_EMBED
      case OtherPrint(mode) => mode;
    error := message.SendU32(mode);
    if error.Some? { return; }
    match job
    case FullPrint(r) =>
      error := SendMembers(message, SEND_FULL_PRINT, r);
      Joined(was, Wire.SendU32(PRINT_FULL), NpValues.SendMembers(SEND_FULL_PRINT, r));
    case EmbedPrint(w) =>
      error := SendWindowData(message, w);
      Joined(was, Wire.SendU32(PRINT_EMBED), NpValues.SendWindowData(w));
    case OtherPrint(_) => error := Some(Generic);
  }

  method SendEvent(message: Message, kind: i32, r: Record) returns (error: Option<RpcError>)
    requires message.Valid() && HasType(Event(kind, r), NP_EVENT)
    modifies message.socket`wire, message.socket`failed, message`offset, message.buffer
    ensures Outcome(message, error, old(message.View().Sent()), old(message.socket.failed),
                    NpValues.SendNpValue(NP_EVENT, Event(kind, r)), SendError(Event(kind, r)))
  {
    hide Wire.SendI32, NpValues.SendMembers;
    ghost var was := message.View().Sent();
    var layout := SendEventLayout(kind);
    if layout.None? {
      assert was + [] == was;
      return Some(ArgumentInvalid);
    }
    error := message.SendI32(kind);
    if error.Some? { return; }
    error := SendMembers(message, layout.value, r);
    Joined(was, Wire.SendI32(kind), NpValues.SendMembers(layout.value, r));
  }

  method SendWindow(message: Message, window: Option<WindowData>) returns (error: Option<RpcError>)
    requires message.Valid() && HasType(Window(window), NP_WINDOW)
    modifies message.socket`wire, message.socket`failed, message`offset, message.buffer
    ensures message.Appended(error, old(message.View().Sent()), old(message.socket.failed),
                             NpValues.SendNpValue(NP_WINDOW, Window(window)))
  {
    hide Wire.SendU32, NpValues.SendWindowData;
    ghost var was := message.View().Sent();
    match window
    case None => error := message.SendU32(0);
    case Some(w) =>
      error := message.SendU32(1);
      if error.Some? { return; }
      error := SendWindowData(message, w);
      Joined(was, Wire.SendU32(1), NpValues.SendWindowData(w));
  }

  method SendNpValue(message: Message, id: i32, v: NpValue) returns (error: Option<RpcError>)
    requires message.Valid() && HasType(v, id)
    modifies message.socket`wire, message.socket`failed, message`offset, message.buffer
    ensures Outcome(message, error, old(message.View().Sent()), old(message.socket.failed),
                    NpValues.SendNpValue(id, v), SendError(v))
  {
    hide Wire.SendU32, NpValues.SendMembers, NpValues.SendWindowData, NpValues.SendVariant;
    hide NpValues.SendNpString, NpValues.SendObjectRef, HasMembers;
    match v
    case Handle(h) => error := message.SendU32(h);
    case ByteRange(ranges) => error := SendByteRanges(message, ranges);
    case SavedData(None) => error := message.SendI32(0);
    case SavedData(Some(bytes)) => error := SendCounted(message, |bytes|, bytes);
    case NotifyData(p) => error := message.SendU64(p);
    case Rect(r) => error := SendMembers(message, SEND_RECT, r);
    case Window(w) => error := SendWindow(message, w);
    case Event(kind, r) => error := SendEvent(message, kind, r);
    case PrintInfo(job) => error := SendPrint(message, job);
    case FullPrintInfo(r) => error := SendMembers(message, SEND_FULL_PRINT, r);
    case EmbedPrintInfo(w) => error := SendWindowData(message, w);
    case PrintData(bytes) => error := SendCounted(message, |bytes|, bytes);
    case Object(o) => error := SendObjectRef(message, o, id == NP_OBJECT_PASS_REF);
    case Str(str) => error := SendNpString(message, str);
    case Var(x) => error := SendVariant(message, x, id == NP_VARIANT_PASS_REF);
    case Utf8(chars) => error := SendCounted(message, |chars| + 1, chars + [0]);
    case Missing =>
      assert message.View().Sent() + [] == message.View().Sent();
      error := Some(ArgumentInvalid);
  }

  // --- Receiving ---

  // What a receiving loop that has got some elements returns in the end, if `others` is what it makes of the
  // rest of the stream.
  function After<T>(got: seq<T>, others: Decoded<seq<T>>): Decoded<seq<T>> {
    match others
    case Ok((ts, rest)) => Ok((got + ts, rest))
    case Err(e) => Err(e)
  }

  lemma AfterNothing<T>(others: Decoded<seq<T>>)
    ensures After([], others) == others
  {
    if others.Ok? { assert [] + others.value.0 == others.value.0; }
  }

  lemma AfterOneMore<T>(got: seq<T>, t: T, others: Decoded<seq<T>>)
    ensures After(got, After([t], others)) == After(got + [t], others)
  {
    if others.Ok? { assert got + ([t] + others.value.0) == got + [t] + others.value.0; }
  }

  function AfterRecord(got: Record, others: Decoded<Record>): Decoded<Record> {
    match others
    case Ok((r, rest)) => Ok((got + r, rest))
    case Err(e) => Err(e)
  }

  lemma AfterMember(got: Record, m: Member, v: int, others: Decoded<Record>)
    ensures AfterRecord(got, AfterRecord(map[m := v], others)) == AfterRecord(got[m := v], others)
  {
    if others.Ok? { assert got + (map[m := v] + others.value.0) == got[m := v] + others.value.0; }
  }

  method RecvMember(message: Message, f: Format) returns (r: Result<int, RpcError>)
    modifies message.socket`incoming
    ensures Received(r, NpValues.RecvMember(f, old(message.socket.incoming)), message.socket.incoming)
  {
    match f
    case AsChar => var v :- message.RecvChar(); return Ok(v);
    case AsI32 => var v :- message.RecvI32(); return Ok(v);
    case AsU32 => var v :- message.RecvU32(); return Ok(v);
    case AsU16 => var v :- message.RecvU32(); return Ok(v % TWO_16);
    case AsU8 => var v :- message.RecvU32(); return Ok(v % 0x100);
  }

  method RecvMembers(message: Message, layout: Layout) returns (r: Result<Record, RpcError>)
    modifies message.socket`incoming
    ensures Received(r, NpValues.RecvMembers(layout, old(message.socket.incoming)), message.socket.incoming)
  {
    hide NpValues.RecvMember;
    var record: Record := map[];
    ghost var all := NpValues.RecvMembers(layout, message.socket.incoming);
    if all.Ok? { assert map[] + all.value.0 == all.value.0; }
    for i := 0 to |layout|
      invariant all == AfterRecord(record, NpValues.RecvMembers(layout[i..], message.socket.incoming))
    {
      assert layout[i..][1..] == layout[i + 1..];
      var v :- RecvMember(message, layout[i].1);
      AfterMember(record, layout[i].0, v, NpValues.RecvMembers(layout[i + 1..], message.socket.incoming));
      record := record[layout[i].0 := v];
    }
    assert record + map[] == record;
    return Ok(record);
  }

  method RecvByteRanges(message: Message) returns (r: Result<seq<(i32, u32)>, RpcError>)
    modifies message.socket`incoming
    ensures Received(r, NpValues.RecvByteRanges(old(message.socket.incoming)), message.socket.incoming)
  {
    var ranges: seq<(i32, u32)> := [];
    ghost var all := NpValues.RecvByteRanges(message.socket.incoming);
    AfterNothing(all);
    while true
      invariant all == After(ranges, NpValues.RecvByteRanges(message.socket.incoming))
      decreases |message.socket.incoming|
    {
      var cont :- message.RecvU32();
      if cont == 0 {
        assert ranges + [] == ranges;
        return Ok(ranges);
      }
      var offset :- message.RecvI32();
      var length :- message.RecvU32();
      AfterOneMore(ranges, (offset, length), NpValues.RecvByteRanges(message.socket.incoming));
      ranges := ranges + [(offset, length)];
    }
  }

  method RecvNpString(message: Message) returns (r: Result<NpString, RpcError>)
    modifies message.socket`incoming
    ensures Received(r, NpValues.RecvNpString(old(message.socket.incoming)), message.socket.incoming)
  {
    hide Wire.RecvU32;
    var length :- message.RecvU32();
    if length == 0 { return Ok(NpString(0, Some([]))); }
    var chars :- message.RecvBytes(length);
    return Ok(NpString(length, Some(chars)));
  }

  method RecvObjectRef(message: Message, passRef: bool) returns (r: Result<ObjectRef, RpcError>)
    modifies message.socket`incoming
    ensures Received(r, NpValues.RecvObjectRef(old(message.socket.incoming), passRef), message.socket.incoming)
  {
    hide Wire.RecvU32;
    var kind :- message.RecvU32();
    var plugin :- message.RecvU32();
    var id :- message.RecvU32();
    var release: u32 := 0;
    if passRef { release :- message.RecvU32(); }
    if kind == 0 { return Ok(NullObject); }
    if kind == 1 {
      if release != 0 { return Err(Generic); }
      return Ok(SenderOwned(plugin, id));
    }
    if kind == 2 { return Ok(ReceiverOwned(id, release != 0)); }
    return Err(Generic);
  }

  method RecvVariant(message: Message, passRef: bool) returns (r: Result<Variant, RpcError>)
    modifies message.socket`incoming
    ensures Received(r, NpValues.RecvVariant(old(message.socket.incoming), passRef), message.socket.incoming)
  {
    hide Wire.RecvU32, Wire.RecvDouble, NpValues.RecvNpString, NpValues.RecvObjectRef;
    var kind :- message.RecvU32();
    if kind == 0 { return Ok(VVoid); }
    if kind == 1 { return Ok(VNull); }
    if kind == 2 { var b :- message.RecvU32(); return Ok(VBool(b != 0)); }
    if kind == 3 { var i :- message.RecvI32(); return Ok(VInt32(i)); }
    if kind == 4 { var bits :- message.RecvDouble(); return Ok(VDouble(bits)); }
    if kind == 5 { var str :- RecvNpString(message); return Ok(VString(str)); }
    if kind == 6 { var o :- RecvObjectRef(message, passRef); return Ok(VObject(o)); }
    return Ok(VOther(kind));
  }

  method RecvWindowData(message: Message) returns (r: Result<WindowData, RpcError>)
    modifies message.socket`incoming
    ensures Received(r, NpValues.RecvWindowData(old(message.socket.incoming)), message.socket.incoming)
  {
    hide Wire.RecvU32, NpValues.RecvMembers;
    var members :- RecvMembers(message, RECV_WINDOW);
    var hasInfo :- message.RecvU32();
    if hasInfo == 0 { return Ok(WindowData(members, None)); }
    var info :- RecvMembers(message, RECV_WS_INFO);
    return Ok(WindowData(members, Some(info)));
  }

  method RecvSavedData(message: Message) returns (r: Result<Option<Bytes>, RpcError>)
    modifies message.socket`incoming
    ensures Received(r, NpValues.RecvSavedData(old(message.socket.incoming)), message.socket.incoming)
  {
    hide Wire.RecvI32;
    var len :- message.RecvI32();
    if len == 0 { return Ok(None); }
    if len < 0 { return Err(NoMemory); }
    var data :- message.RecvBytes(len);
    return Ok(Some(data));
  }

  method RecvPrint(message: Message) returns (r: Result<Print, RpcError>)
    modifies message.socket`incoming
    ensures Received(r, NpValues.RecvPrint(old(message.socket.incoming)), message.socket.incoming)
  {
    hide Wire.RecvU32, NpValues.RecvMembers, NpValues.RecvWindowData;
    var mode :- message.RecvU32();
    if mode == PRINT_FULL { var full :- RecvMembers(message, RECV_FULL_PRINT); return Ok(FullPrint(full)); }
    if mode == PRINT_EMBED { var w :- RecvWindowData(message); return Ok(EmbedPrint(w)); }
    return Err(Generic);
  }

  method RecvUtf8(message: Message) returns (r: Result<Bytes, RpcError>)
    modifies message.socket`incoming
    ensures Received(r, NpValues.RecvUtf8(old(message.socket.incoming)), message.socket.incoming)
  {
    hide Wire.RecvU32;
    var len :- message.RecvU32();
    if len == 0 { return Ok([]); }
    r := message.RecvBytes(len);
  }

  method RecvNpValue(message: Message, id: i32) returns (r: Result<NpValue, RpcError>)
    modifies message.socket`incoming
    ensures Received(r, NpValues.RecvNpValue(id, old(message.socket.incoming)), message.socket.incoming)
  {
    hide Wire.RecvU32, Wire.RecvU64, NpValues.RecvMembers, NpValues.RecvWindowData, NpValues.RecvVariant;
    hide NpValues.RecvNpString, NpValues.RecvObjectRef, NpValues.RecvPrint, NpValues.RecvUtf8, NpValues.RecvSavedData;
    hide NpValues.RecvByteRanges, Wire.RecvBytes;
    if IsHandleType(id) { var h :- message.RecvU32(); return Ok(Handle(h)); }
    if id == NP_BYTE_RANGE { var x :- RecvByteRanges(message); return Ok(ByteRange(x)); }
    if id == NP_SAVED_DATA { var x :- RecvSavedData(message); return Ok(SavedData(x)); }
    if id == NP_NOTIFY_DATA { var x :- message.RecvU64(); return Ok(NotifyData(x)); }
    if id == NP_RECT { var x :- RecvMembers(message, RECV_RECT); return Ok(Rect(x)); }
    if id == NP_WINDOW {
      var valid :- message.RecvU32();
      if valid == 0 { return Ok(Window(None)); }
      var w :- RecvWindowData(message);
      return Ok(Window(Some(w)));
    }
    if id == NP_EVENT {
      var kind :- message.RecvI32();
      if RecvEventLayout(kind).None? { return Err(Generic); }
      var x :- RecvMembers(message, RecvEventLayout(kind).value);
      return Ok(Event(kind, x));
    }
    if id == NP_PRINT { var x :- RecvPrint(message); return Ok(PrintInfo(x)); }
    if id == NP_FULL_PRINT { var x :- RecvMembers(message, RECV_FULL_PRINT); return Ok(FullPrintInfo(x)); }
    if id == NP_EMBED_PRINT { var x :- RecvWindowData(message); return Ok(EmbedPrintInfo(x)); }
    if id == NP_PRINT_DATA {
      var size :- message.RecvU32();
      var x :- message.RecvBytes(size);
      return Ok(PrintData(x));
    }
    if id == NP_OBJECT || id == NP_OBJECT_PASS_REF {
      var x :- RecvObjectRef(message, id == NP_OBJECT_PASS_REF);
      return Ok(Object(x));
    }
    if id == NP_STRING { var x :- RecvNpString(message); return Ok(Str(x)); }
    if id == NP_VARIANT || id == NP_VARIANT_PASS_REF {
      var x :- RecvVariant(message, id == NP_VARIANT_PASS_REF);
      return Ok(Var(x));
    }
    if id == NP_UTF8 { var x :- RecvUtf8(message); return Ok(Utf8(CString(x))); }
    return Err(ArgumentUnknown);
  }
}
