/** The NPAPI values that travel as user-defined RPC types (src/npw-rpc.c).

    Structures are written member by member. `SEND_...` and `RECV_...` list what the sending and the
    receiving marshaler of a structure do, in their order. */
module NpValues {
  import opened Wrappers
  import opened Wire

  // --- Structures ---

  datatype Member =
    | Serial | SendEvent | EventWindow | Root | Subwindow | Time | X | Y | XRoot | YRoot | State
    | Width | Height | Mode | Detail | SameScreen | Focus | IsHint | Button | KeyCode
    | WindowId | Top | Left | BottomEdge | Right | WindowType
    | WsType | VisualId | Colormap | ColorDepth
    | PluginPrinted | PrintOne

  // How a member is written: as a char, an int32 or a uint32. AsU16 and AsU8 are members narrower than
  // the uint32 they travel in.
  datatype Format = AsChar | AsI32 | AsU32 | AsU16 | AsU8

  type Layout = seq<(Member, Format)>
  type Record = map<Member, int>

  predicate Fits(f: Format, v: int) {
    match f
    case AsChar => 0 <= v < 0x100
    case AsI32 => -TWO_31 <= v < TWO_31
    case AsU32 => 0 <= v < TWO_32
    case AsU16 => 0 <= v < TWO_16
    case AsU8 => 0 <= v < 0x100
  }

  function SendMember(f: Format, v: int): Bytes
    requires Fits(f, v)
  {
    match f
    case AsChar => SendChar(v)
    case AsI32 => SendI32(v)
    case _ => SendU32(v)
  }

  function RecvMember(f: Format, s: Bytes): Decoded<int> {
    match f
    case AsChar => var (v, rest) :- RecvChar(s); Ok((v, rest))
    case AsI32 => var (v, rest) :- RecvI32(s); Ok((v, rest))
    case AsU32 => var (v, rest) :- RecvU32(s); Ok((v, rest))
    case AsU16 => var (v, rest) :- RecvU32(s); Ok((v % TWO_16, rest))
    case AsU8 => var (v, rest) :- RecvU32(s); Ok((v % 0x100, rest))
  }

  predicate HasMembers(layout: Layout, r: Record) {
    layout != [] ==> layout[0].0 in r && Fits(layout[0].1, r[layout[0].0]) && HasMembers(layout[1..], r)
  }

  function SendMembers(layout: Layout, r: Record): Bytes
    requires HasMembers(layout, r)
  {
    if layout == [] then [] else SendMember(layout[0].1, r[layout[0].0]) + SendMembers(layout[1..], r)
  }

  // Members received later overwrite earlier ones.
  function RecvMembers(layout: Layout, s: Bytes): Decoded<Record> {
    if layout == [] then Ok((map[], s))
    else
      var (v, s1) :- RecvMember(layout[0].1, s);
      var (r, s2) :- RecvMembers(layout[1..], s1);
      Ok((map[layout[0].0 := v] + r, s2))
  }

  lemma MemberRoundTrip(f: Format, v: int, rest: Bytes)
    requires Fits(f, v)
    ensures RecvMember(f, SendMember(f, v) + rest) == Ok((v, rest))
  {
    match f
    case AsChar => CharRoundTrip(v, rest);
    case AsI32 => I32RoundTrip(v, rest);
    case _ => U32RoundTrip(v, rest);
  }

  // The part of a record that a layout transmits.
  function Transmitted(layout: Layout, r: Record): Record
    requires HasMembers(layout, r)
  {
    if layout == [] then map[] else map[layout[0].0 := r[layout[0].0]] + Transmitted(layout[1..], r)
  }

  lemma {:induction false} TransmittedIsExact(layout: Layout, r: Record)
    requires HasMembers(layout, r)
    ensures forall m :: m in Transmitted(layout, r) <==> exists i :: 0 <= i < |layout| && layout[i].0 == m
    ensures forall m :: m in Transmitted(layout, r) ==> m in r && Transmitted(layout, r)[m] == r[m]
  {
    if layout != [] {
      TransmittedIsExact(layout[1..], r);
      forall i | 0 <= i < |layout| ensures layout[i].0 in Transmitted(layout, r) {
        if i > 0 { assert layout[1..][i - 1] == layout[i]; }
      }
    }
  }

  lemma {:induction false} MembersRoundTrip(layout: Layout, r: Record, rest: Bytes)
    requires HasMembers(layout, r)
    ensures RecvMembers(layout, SendMembers(layout, r) + rest) == Ok((Transmitted(layout, r), rest))
  {
    if layout == [] {
      assert SendMembers(layout, r) + rest == rest;
    } else {
      var first, others := SendMember(layout[0].1, r[layout[0].0]), SendMembers(layout[1..], r);
      assert SendMembers(layout, r) + rest == first + (others + rest);
      MemberRoundTrip(layout[0].1, r[layout[0].0], others + rest);
      MembersRoundTrip(layout[1..], r, rest);
    }
  }

  const SEND_RECT: Layout := [(Top, AsU16), (Left, AsU16), (BottomEdge, AsU16), (Right, AsU16)]
  const RECV_RECT: Layout := [(Top, AsU16), (Left, AsU16), (BottomEdge, AsU16), (Right, AsU16)]

  const SEND_WS_INFO: Layout := [(WsType, AsI32), (VisualId, AsU32), (Colormap, AsU32), (ColorDepth, AsU32)]
  const RECV_WS_INFO: Layout := [(WsType, AsI32), (VisualId, AsU32), (Colormap, AsU32), (ColorDepth, AsU32)]

  const SEND_WINDOW: Layout :=
    [(WindowId, AsU32), (X, AsI32), (Y, AsI32), (Width, AsU32), (Height, AsU32)] + SEND_RECT + [(WindowType, AsI32)]
  const RECV_WINDOW: Layout :=
    [(WindowId, AsU32), (X, AsI32), (Y, AsI32), (Width, AsU32), (Height, AsU32)] + RECV_RECT + [(WindowType, AsI32)]

  const SEND_FULL_PRINT: Layout := [(PluginPrinted, AsU8), (PrintOne, AsU8)]
  const RECV_FULL_PRINT: Layout := [(PluginPrinted, AsU8), (PrintOne, AsU8)]

  const SEND_ANY: Layout := [(Serial, AsU32), (SendEvent, AsU32), (EventWindow, AsU32)]
  const RECV_ANY: Layout := [(Serial, AsU32), (SendEvent, AsU32), (EventWindow, AsU32)]

  const SEND_POINTER: Layout :=
    SEND_ANY + [(Root, AsU32), (Subwindow, AsU32), (Time, AsU32), (X, AsI32), (Y, AsI32), (XRoot, AsI32),
                (YRoot, AsI32)]
  const RECV_POINTER: Layout :=
    RECV_ANY + [(Root, AsU32), (Subwindow, AsU32), (Time, AsU32), (X, AsI32), (Y, AsI32), (XRoot, AsI32),
                (YRoot, AsI32)]

  // Event types of the X protocol.
  const KEY_PRESS: i32 := 2
  const KEY_RELEASE: i32 := 3
  const BUTTON_PRESS: i32 := 4
  const BUTTON_RELEASE: i32 := 5
  const MOTION_NOTIFY: i32 := 6
  const ENTER_NOTIFY: i32 := 7
  const LEAVE_NOTIFY: i32 := 8
  const FOCUS_IN: i32 := 9
  const FOCUS_OUT: i32 := 10
  const GRAPHICS_EXPOSE: i32 := 13

  function SendEventLayout(kind: i32): Option<Layout> {
    if kind == GRAPHICS_EXPOSE then Some(SEND_ANY + [(X, AsI32), (Y, AsI32), (Width, AsU32), (Height, AsU32)])
    else if kind == FOCUS_IN || kind == FOCUS_OUT then Some([])
    else if kind == ENTER_NOTIFY || kind == LEAVE_NOTIFY then
      Some(SEND_POINTER + [(Mode, AsI32), (Detail, AsI32), (SameScreen, AsI32), (Focus, AsI32), (State, AsU32)])
    else if kind == MOTION_NOTIFY then Some(SEND_POINTER + [(State, AsU32), (IsHint, AsChar), (SameScreen, AsI32)])
    else if kind == BUTTON_PRESS || kind == BUTTON_RELEASE then
      Some(SEND_POINTER + [(State, AsU32), (Button, AsU32), (SameScreen, AsI32)])
    else if kind == KEY_PRESS || kind == KEY_RELEASE then
      Some(SEND_POINTER + [(State, AsU32), (KeyCode, AsU32), (SameScreen, AsI32)])
    else None
  }

  function RecvEventLayout(kind: i32): Option<Layout> {
    if kind == GRAPHICS_EXPOSE then Some(RECV_ANY + [(X, AsI32), (Y, AsI32), (Width, AsU32), (Height, AsU32)])
    else if kind == FOCUS_IN || kind == FOCUS_OUT then Some([])
    else if kind == ENTER_NOTIFY || kind == LEAVE_NOTIFY then
      Some(RECV_POINTER + [(Mode, AsI32), (Detail, AsI32), (SameScreen, AsI32), (Focus, AsI32), (State, AsU32)])
    else if kind == MOTION_NOTIFY then Some(RECV_POINTER + [(State, AsU32), (IsHint, AsChar), (SameScreen, AsI32)])
    else if kind == BUTTON_PRESS || kind == BUTTON_RELEASE then
      Some(RECV_POINTER + [(State, AsU32), (Button, AsU32), (SameScreen, AsI32)])
    else if kind == KEY_PRESS || kind == KEY_RELEASE then
      Some(RECV_POINTER + [(State, AsU32), (KeyCode, AsU32), (SameScreen, AsI32)])
    else None
  }

  // --- Values ---

  datatype ObjectRef = NullObject | SenderOwned(plugin: u32, id: u32) | ReceiverOwned(id: u32, releaseStub: bool)

  // chars is None where the C structure has a NULL pointer.
  datatype NpString = NpString(length: u32, chars: Option<Bytes>)

  datatype Variant =
    | VVoid | VNull | VBool(b: bool) | VInt32(i: i32) | VDouble(bits: u64) | VString(s: NpString)
    | VObject(o: ObjectRef)
    | VOther(kind: u32) // not an NPVariantType; nothing but the type is transmitted

  datatype WindowData = WindowData(members: Record, wsInfo: Option<Record>)

  const PRINT_EMBED: u32 := 1
  const PRINT_FULL: u32 := 2

  datatype Print = FullPrint(members: Record) | EmbedPrint(window: WindowData) | OtherPrint(mode: u32)

  datatype NpValue =
    | Handle(id: u32)            // NPP, plugin instance, stream or identifier: the id that stands for it
    | ByteRange(ranges: seq<(i32, u32)>)
    | SavedData(data: Option<Bytes>)
    | NotifyData(pointer: u64)
    | Rect(rect: Record)
    | Window(window: Option<WindowData>)
    | Event(kind: i32, members: Record)
    | PrintInfo(job: Print)
    | FullPrintInfo(full: Record)
    | EmbedPrintInfo(embed: WindowData)
    | PrintData(bytes: Bytes)
    | Object(ref: ObjectRef)
    | Str(str: NpString)
    | Var(variant: Variant)
    | Utf8(chars: Bytes)
    | Missing                    // a NULL pointer where the marshaler checks for one

  // The ids of the registered message types (src/npw-rpc.h).
  const NPP: i32 := 1
  const NP_STREAM: i32 := 2
  const NP_BYTE_RANGE: i32 := 3
  const NP_SAVED_DATA: i32 := 4
  const NP_NOTIFY_DATA: i32 := 5
  const NP_RECT: i32 := 6
  const NP_WINDOW: i32 := 7
  const NP_EVENT: i32 := 8
  const NP_PRINT: i32 := 9
  const NP_FULL_PRINT: i32 := 10
  const NP_EMBED_PRINT: i32 := 11
  const NP_PRINT_DATA: i32 := 12
  const NP_OBJECT: i32 := 13
  const NP_IDENTIFIER: i32 := 14
  const NP_STRING: i32 := 15
  const NP_VARIANT: i32 := 16
  const NP_UTF8: i32 := 17
  const NP_OBJECT_PASS_REF: i32 := 18
  const NP_VARIANT_PASS_REF: i32 := 19
  const NPW_PLUGIN_INSTANCE: i32 := 20

  predicate IsNpType(id: i32) {
    NPP <= id <= NPW_PLUGIN_INSTANCE
  }

  predicate IsHandleType(id: i32) {
    id == NPP || id == NP_STREAM || id == NP_IDENTIFIER || id == NPW_PLUGIN_INSTANCE
  }

  // --- Senders ---

  // What a C sender can be given: lengths an int can hold, records with all members that are sent.
  predicate IsNpString(s: NpString) {
    s.length < TWO_31 - 1 && (s.chars.Some? ==> |s.chars.value| == s.length)
  }

  predicate IsObjectRef(o: ObjectRef, passRef: bool) {
    o.ReceiverOwned? && o.releaseStub ==> passRef
  }

  predicate IsVariant(v: Variant, passRef: bool) {
    match v
    case VString(s) => IsNpString(s)
    case VObject(o) => IsObjectRef(o, passRef)
    case VOther(kind) => kind > 6
    case _ => true
  }

  predicate IsWindowData(w: WindowData) {
    HasMembers(SEND_WINDOW, w.members) && (w.wsInfo.Some? ==> HasMembers(SEND_WS_INFO, w.wsInfo.value))
  }

  predicate HasType(v: NpValue, id: i32) {
    match v
    case Handle(_) => IsHandleType(id)
    case ByteRange(_) => id == NP_BYTE_RANGE
    case SavedData(data) => id == NP_SAVED_DATA && (data.Some? ==> |data.value| < TWO_31)
    case NotifyData(_) => id == NP_NOTIFY_DATA
    case Rect(r) => id == NP_RECT && HasMembers(SEND_RECT, r)
    case Window(w) => id == NP_WINDOW && (w.Some? ==> IsWindowData(w.value))
    case Event(kind, r) =>
      id == NP_EVENT && (SendEventLayout(kind).Some? ==> HasMembers(SendEventLayout(kind).value, r))
    case PrintInfo(FullPrint(r)) => id == NP_PRINT && HasMembers(SEND_FULL_PRINT, r)
    case PrintInfo(EmbedPrint(w)) => id == NP_PRINT && IsWindowData(w)
    case PrintInfo(OtherPrint(mode)) => id == NP_PRINT && mode != PRINT_EMBED && mode != PRINT_FULL
    case FullPrintInfo(r) => id == NP_FULL_PRINT && HasMembers(SEND_FULL_PRINT, r)
    case EmbedPrintInfo(w) => id == NP_EMBED_PRINT && IsWindowData(w)
    case PrintData(bytes) => id == NP_PRINT_DATA && |bytes| <= 4096
    case Object(o) => (id == NP_OBJECT || id == NP_OBJECT_PASS_REF) && IsObjectRef(o, id == NP_OBJECT_PASS_REF)
    case Str(s) => id == NP_STRING && IsNpString(s)
    case Var(v) => (id == NP_VARIANT || id == NP_VARIANT_PASS_REF) && IsVariant(v, id == NP_VARIANT_PASS_REF)
    case Utf8(chars) => id == NP_UTF8 && 0 !in chars && |chars| < TWO_31 - 1
    case Missing => id == NP_EVENT || id == NP_STRING || id == NP_VARIANT || id == NP_VARIANT_PASS_REF || id == NP_UTF8
  }

  // The error that the marshaler of a value returns, if any.
  function SendError(v: NpValue): Option<RpcError> {
    match v
    case Event(kind, _) => if SendEventLayout(kind).None? then Some(ArgumentInvalid) else None
    case PrintInfo(OtherPrint(_)) => Some(Generic)
    case Missing => Some(ArgumentInvalid)
    case _ => None
  }

  function SendNpString(s: NpString): Bytes {
    SendU32(s.length) + (if s.length > 0 && s.chars.Some? then s.chars.value else [])
  }

  function SendObjectRef(o: ObjectRef, passRef: bool): Bytes {
    var (kind, plugin, id, release) := match o
      case NullObject => (0, 0, 0, 0)
      case SenderOwned(plugin, id) => (1, plugin, id, 0)
      case ReceiverOwned(id, release) => (2, 0, id, if release then 1 else 0);
    SendU32(kind) + SendU32(plugin) + SendU32(id) + if passRef then SendU32(release) else []
  }

  function VariantKind(v: Variant): u32 {
    match v
    case VVoid => 0
    case VNull => 1
    case VBool(_) => 2
    case VInt32(_) => 3
    case VDouble(_) => 4
    case VString(_) => 5
    case VObject(_) => 6
    case VOther(kind) => kind
  }

  function VariantPayload(v: Variant, passRef: bool): Bytes {
    match v
    case VBool(b) => SendU32(if b then 1 else 0)
    case VInt32(i) => SendI32(i)
    case VDouble(bits) => SendDouble(bits)
    case VString(s) => SendNpString(s)
    case VObject(o) => SendObjectRef(o, passRef)
    case _ => []
  }

  function SendVariant(v: Variant, passRef: bool): Bytes {
    SendU32(VariantKind(v)) + VariantPayload(v, passRef)
  }

  function SendByteRanges(ranges: seq<(i32, u32)>): Bytes {
    if ranges == [] then SendU32(0)
    else SendU32(1) + SendI32(ranges[0].0) + SendU32(ranges[0].1) + SendByteRanges(ranges[1..])
  }

  function SendWsInfo(wsInfo: Option<Record>): Bytes
    requires wsInfo.Some? ==> HasMembers(SEND_WS_INFO, wsInfo.value)
  {
    match wsInfo
    case None => SendU32(0)
    case Some(info) => SendU32(1) + SendMembers(SEND_WS_INFO, info)
  }

  function SendWindowData(w: WindowData): Bytes
    requires IsWindowData(w)
  {
    SendMembers(SEND_WINDOW, w.members) + SendWsInfo(w.wsInfo)
  }

  // What the marshaler has appended when it returns, with an error or without.
  function SendNpValue(id: i32, v: NpValue): Bytes
    requires HasType(v, id)
  {
    match v
    case Handle(h) => SendU32(h)
    case ByteRange(ranges) => SendByteRanges(ranges)
    case SavedData(data) => (match data case None => SendI32(0) case Some(bytes) => SendI32(|bytes|) + bytes)
    case NotifyData(p) => SendU64(p)
    case Rect(r) => SendMembers(SEND_RECT, r)
    case Window(w) => (match w case None => SendU32(0) case Some(data) => SendU32(1) + SendWindowData(data))
    case Event(kind, r) =>
      if SendEventLayout(kind).None? then [] else SendI32(kind) + SendMembers(SendEventLayout(kind).value, r)
    case PrintInfo(FullPrint(r)) => SendU32(PRINT_FULL) + SendMembers(SEND_FULL_PRINT, r)
    case PrintInfo(EmbedPrint(w)) => SendU32(PRINT_EMBED) + SendWindowData(w)
    case PrintInfo(OtherPrint(mode)) => SendU32(mode)
    case FullPrintInfo(r) => SendMembers(SEND_FULL_PRINT, r)
    case EmbedPrintInfo(w) => SendWindowData(w)
    case PrintData(bytes) => SendU32(|bytes|) + bytes
    case Object(o) => SendObjectRef(o, id == NP_OBJECT_PASS_REF)
    case Str(s) => SendNpString(s)
    case Var(v) => SendVariant(v, id == NP_VARIANT_PASS_REF)
    case Utf8(chars) => SendU32(|chars| + 1) + (chars + [0])
    case Missing => []
  }

  // --- Receivers ---

  function RecvNpString(s: Bytes): Decoded<NpString> {
    var (length, s1) :- RecvU32(s);
    if length == 0 then Ok((NpString(0, Some([])), s1))
    else
      var (chars, s2) :- RecvBytes(s1, length);
      Ok((NpString(length, Some(chars)), s2))
  }

  function RecvObjectRef(s: Bytes, passRef: bool): Decoded<ObjectRef> {
    var (kind, s1) :- RecvU32(s);
    var (plugin, s2) :- RecvU32(s1);
    var (id, s3) :- RecvU32(s2);
    var (release, s4) :- if passRef then RecvU32(s3) else Ok((0, s3));
    if kind == 0 then Ok((NullObject, s4))
    else if kind == 1 then if release != 0 then Err(Generic) else Ok((SenderOwned(plugin, id), s4))
    else if kind == 2 then Ok((ReceiverOwned(id, release != 0), s4))
    else Err(Generic)
  }

  function RecvVariant(s: Bytes, passRef: bool): Decoded<Variant> {
    var (kind, s1) :- RecvU32(s);
    if kind == 0 then Ok((VVoid, s1))
    else if kind == 1 then Ok((VNull, s1))
    else if kind == 2 then var (b, s2) :- RecvU32(s1); Ok((VBool(b != 0), s2))
    else if kind == 3 then var (i, s2) :- RecvI32(s1); Ok((VInt32(i), s2))
    else if kind == 4 then var (d, s2) :- RecvDouble(s1); Ok((VDouble(d), s2))
    else if kind == 5 then var (str, s2) :- RecvNpString(s1); Ok((VString(str), s2))
    else if kind == 6 then var (o, s2) :- RecvObjectRef(s1, passRef); Ok((VObject(o), s2))
    else Ok((VOther(kind), s1))
  }

  function RecvByteRanges(s: Bytes): Decoded<seq<(i32, u32)>>
    decreases |s|
  {
    var (cont, s1) :- RecvU32(s);
    if cont == 0 then Ok(([], s1))
    else
      var (offset, s2) :- RecvI32(s1);
      var (length, s3) :- RecvU32(s2);
      var (others, s4) :- RecvByteRanges(s3);
      Ok(([(offset, length)] + others, s4))
  }

  function RecvWindowData(s: Bytes): Decoded<WindowData> {
    var (members, s1) :- RecvMembers(RECV_WINDOW, s);
    var (hasInfo, s2) :- RecvU32(s1);
    if hasInfo == 0 then Ok((WindowData(members, None), s2))
    else
      var (info, s3) :- RecvMembers(RECV_WS_INFO, s2);
      Ok((WindowData(members, Some(info)), s3))
  }

  // A length that does not fit an int makes malloc() fail.
  function RecvSavedData(s: Bytes): Decoded<Option<Bytes>> {
    var (len, s1) :- RecvI32(s);
    if len == 0 then Ok((None, s1))
    else if len < 0 then Err(NoMemory)
    else
      var (data, s2) :- RecvBytes(s1, len);
      Ok((Some(data), s2))
  }

  function RecvPrint(s: Bytes): Decoded<Print> {
    var (mode, s1) :- RecvU32(s);
    if mode == PRINT_FULL then var (r, s2) :- RecvMembers(RECV_FULL_PRINT, s1); Ok((FullPrint(r), s2))
    else if mode == PRINT_EMBED then var (w, s2) :- RecvWindowData(s1); Ok((EmbedPrint(w), s2))
    else Err(Generic)
  }

  function RecvUtf8(s: Bytes): Decoded<Bytes> {
    var (len, s1) :- RecvU32(s);
    if len == 0 then Ok(([], s1)) else RecvBytes(s1, len)
  }

  // Up to the first NUL, which is how the receiver uses the buffer.
  function CString(buffer: Bytes): Bytes {
    if buffer == [] || buffer[0] == 0 then [] else [buffer[0]] + CString(buffer[1..])
  }

  function RecvNpValue(id: i32, s: Bytes): Decoded<NpValue> {
    if IsHandleType(id) then var (h, r) :- RecvU32(s); Ok((Handle(h), r))
    else if id == NP_BYTE_RANGE then var (x, r) :- RecvByteRanges(s); Ok((ByteRange(x), r))
    else if id == NP_SAVED_DATA then var (x, r) :- RecvSavedData(s); Ok((SavedData(x), r))
    else if id == NP_NOTIFY_DATA then var (x, r) :- RecvU64(s); Ok((NotifyData(x), r))
    else if id == NP_RECT then var (x, r) :- RecvMembers(RECV_RECT, s); Ok((Rect(x), r))
    else if id == NP_WINDOW then
      var (valid, s1) :- RecvU32(s);
      if valid == 0 then Ok((Window(None), s1))
      else var (w, r) :- RecvWindowData(s1); Ok((Window(Some(w)), r))
    else if id == NP_EVENT then
      var (kind, s1) :- RecvI32(s);
      if RecvEventLayout(kind).None? then Err(Generic)
      else var (x, r) :- RecvMembers(RecvEventLayout(kind).value, s1); Ok((Event(kind, x), r))
    else if id == NP_PRINT then var (x, r) :- RecvPrint(s); Ok((PrintInfo(x), r))
    else if id == NP_FULL_PRINT then var (x, r) :- RecvMembers(RECV_FULL_PRINT, s); Ok((FullPrintInfo(x), r))
    else if id == NP_EMBED_PRINT then var (x, r) :- RecvWindowData(s); Ok((EmbedPrintInfo(x), r))
    else if id == NP_PRINT_DATA then
      var (size, s1) :- RecvU32(s);
      var (x, r) :- RecvBytes(s1, size);
      Ok((PrintData(x), r))
    else if id == NP_OBJECT || id == NP_OBJECT_PASS_REF then
      var (x, r) :- RecvObjectRef(s, id == NP_OBJECT_PASS_REF); Ok((Object(x), r))
    else if id == NP_STRING then var (x, r) :- RecvNpString(s); Ok((Str(x), r))
    else if id == NP_VARIANT || id == NP_VARIANT_PASS_REF then
      var (x, r) :- RecvVariant(s, id == NP_VARIANT_PASS_REF); Ok((Var(x), r))
    else if id == NP_UTF8 then var (x, r) :- RecvUtf8(s); Ok((Utf8(CString(x)), r))
    else Err(ArgumentUnknown)
  }
}
