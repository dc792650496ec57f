/** Every NPAPI value is received as it was sent, and what the exceptions are. */
module NpRoundTrips {
  import opened Wrappers
  import opened Wire
  import opened NpValues

  // --- What a value is received as ---

  function NormalString(s: NpString): NpString {
    if s.length == 0 then NpString(0, Some([])) else s
  }

  function NormalVariant(v: Variant): Variant {
    if v.VString? then VString(NormalString(v.s)) else v
  }

  function NormalWindow(w: WindowData): WindowData
    requires IsWindowData(w)
  {
    WindowData(Transmitted(SEND_WINDOW, w.members),
               if w.wsInfo.None? then None else Some(Transmitted(SEND_WS_INFO, w.wsInfo.value)))
  }

  // An empty saved area becomes NULL; a record keeps the members that are sent.
  function Normal(id: i32, v: NpValue): NpValue
    requires HasType(v, id) && SendError(v).None?
  {
    match v
    case SavedData(data) => if data == Some([]) then SavedData(None) else v
    case Rect(r) => Rect(Transmitted(SEND_RECT, r))
    case Window(w) => if w.None? then v else Window(Some(NormalWindow(w.value)))
    case Event(kind, r) => Event(kind, Transmitted(SendEventLayout(kind).value, r))
    case PrintInfo(FullPrint(r)) => PrintInfo(FullPrint(Transmitted(SEND_FULL_PRINT, r)))
    case PrintInfo(EmbedPrint(w)) => PrintInfo(EmbedPrint(NormalWindow(w)))
    case FullPrintInfo(r) => FullPrintInfo(Transmitted(SEND_FULL_PRINT, r))
    case EmbedPrintInfo(w) => EmbedPrintInfo(NormalWindow(w))
    case Str(s) => Str(NormalString(s))
    case Var(x) => Var(NormalVariant(x))
    case _ => v
  }

  // --- When it is ---

  // A string with a length has characters.
  predicate HasCharacters(s: NpString) {
    s.length > 0 ==> s.chars.Some?
  }

  // Strings have their characters, and print data is not empty.
  predicate Transmittable(v: NpValue) {
    match v
    case Str(s) => HasCharacters(s)
    case Var(VString(s)) => HasCharacters(s)
    case PrintData(bytes) => bytes != []
    case _ => true
  }

  // --- Parts ---

  lemma NpStringRoundTrip(s: NpString, rest: Bytes)
    requires IsNpString(s) && HasCharacters(s)
    ensures RecvNpString(SendNpString(s) + rest) == Ok((NormalString(s), rest))
  {
    var chars := if s.length > 0 then s.chars.value else [];
    assert SendNpString(s) + rest == SendU32(s.length) + (chars + rest);
    U32RoundTrip(s.length, chars + rest);
    if s.length > 0 {
      BytesRoundTrip(chars, rest);
    } else {
      assert chars + rest == rest;
    }
  }

  // The receiver reads as many bytes as the length says, whatever they are.
  lemma NpStringWithoutCharacters(s: NpString, rest: Bytes)
    requires IsNpString(s) && !HasCharacters(s)
    ensures var r := RecvNpString(SendNpString(s) + rest); r.Ok? ==> r.value.0 != s
  {
    assert SendNpString(s) + rest == SendU32(s.length) + rest;
    U32RoundTrip(s.length, rest);
  }

  lemma ObjectRefRoundTrip(o: ObjectRef, passRef: bool, rest: Bytes)
    requires IsObjectRef(o, passRef)
    ensures RecvObjectRef(SendObjectRef(o, passRef) + rest, passRef) == Ok((o, rest))
  {
    var (kind, plugin, id, release) := match o
      case NullObject => (0, 0, 0, 0)
      case SenderOwned(plugin, id) => (1, plugin, id, 0)
      case ReceiverOwned(id, release) => (2, 0, id, if release then 1 else 0);
    var last := if passRef then SendU32(release) else [];
    assert SendObjectRef(o, passRef) + rest == SendU32(kind) + (SendU32(plugin) + (SendU32(id) + (last + rest)));
    U32RoundTrip(kind, SendU32(plugin) + (SendU32(id) + (last + rest)));
    U32RoundTrip(plugin, SendU32(id) + (last + rest));
    U32RoundTrip(id, last + rest);
    if passRef {
      U32RoundTrip(release, rest);
    } else {
      assert last + rest == rest;
    }
  }

  lemma VariantIsKindAndPayload(v: Variant, passRef: bool, rest: Bytes)
    ensures SendVariant(v, passRef) + rest == SendU32(VariantKind(v)) + (VariantPayload(v, passRef) + rest)
    ensures RecvU32(SendVariant(v, passRef) + rest) == Ok((VariantKind(v), VariantPayload(v, passRef) + rest))
  {
    assert SendVariant(v, passRef) == SendU32(VariantKind(v)) + VariantPayload(v, passRef);
    U32RoundTrip(VariantKind(v), VariantPayload(v, passRef) + rest);
  }

  /** A variant of any type, an object reference nested in it included, keeps its type and value. */
  lemma VariantRoundTrip(v: Variant, passRef: bool, rest: Bytes)
    requires IsVariant(v, passRef) && (v.VString? ==> HasCharacters(v.s))
    ensures RecvVariant(SendVariant(v, passRef) + rest, passRef) == Ok((NormalVariant(v), rest))
  {
    VariantIsKindAndPayload(v, passRef, rest);
    match v
    case VBool(b) => U32RoundTrip(if b then 1 else 0, rest);
    case VInt32(i) => I32RoundTrip(i, rest);
    case VDouble(bits) => DoubleRoundTrip(bits, rest);
    case VString(s) => NpStringRoundTrip(s, rest);
    case VObject(o) => ObjectRefRoundTrip(o, passRef, rest);
    case _ => assert [] + rest == rest;
  }

  /** A list of byte ranges of any length is received in order. */
  lemma {:induction false} ByteRangesRoundTrip(ranges: seq<(i32, u32)>, rest: Bytes)
    ensures RecvByteRanges(SendByteRanges(ranges) + rest) == Ok((ranges, rest))
    decreases |ranges|
  {
    if ranges == [] {
      U32RoundTrip(0, rest);
    } else {
      var offset, length, others := SendI32(ranges[0].0), SendU32(ranges[0].1), SendByteRanges(ranges[1..]);
      assert SendByteRanges(ranges) + rest == SendU32(1) + (offset + (length + (others + rest)));
      U32RoundTrip(1, offset + (length + (others + rest)));
      I32RoundTrip(ranges[0].0, length + (others + rest));
      U32RoundTrip(ranges[0].1, others + rest);
      ByteRangesRoundTrip(ranges[1..], rest);
      assert ranges == [(ranges[0].0, ranges[0].1)] + ranges[1..];
    }
  }

  lemma WindowRoundTrip(w: WindowData, rest: Bytes)
    requires IsWindowData(w)
    ensures RecvWindowData(SendWindowData(w) + rest) == Ok((NormalWindow(w), rest))
  {
    var members := SendMembers(SEND_WINDOW, w.members);
    match w.wsInfo
    case None =>
      assert SendWindowData(w) + rest == members + (SendU32(0) + rest);
      MembersRoundTrip(SEND_WINDOW, w.members, SendU32(0) + rest);
      U32RoundTrip(0, rest);
    case Some(info) =>
      var infoBytes := SendMembers(SEND_WS_INFO, info);
      assert SendWindowData(w) + rest == members + (SendU32(1) + (infoBytes + rest));
      MembersRoundTrip(SEND_WINDOW, w.members, SendU32(1) + (infoBytes + rest));
      U32RoundTrip(1, infoBytes + rest);
      MembersRoundTrip(SEND_WS_INFO, info, rest);
  }

  lemma SavedDataRoundTrip(data: Option<Bytes>, rest: Bytes)
    requires HasType(SavedData(data), NP_SAVED_DATA)
    ensures RecvSavedData(SendNpValue(NP_SAVED_DATA, SavedData(data)) + rest)
         == Ok((if data == Some([]) then None else data, rest))
  {
    match data
    case None => I32RoundTrip(0, rest);
    case Some(bytes) =>
      assert SendI32(|bytes|) + bytes + rest == SendI32(|bytes|) + (bytes + rest);
      I32RoundTrip(|bytes|, bytes + rest);
      if bytes == [] { assert bytes + rest == rest; } else { BytesRoundTrip(bytes, rest); }
  }

  lemma PrintRoundTrip(job: Print, rest: Bytes)
    requires HasType(PrintInfo(job), NP_PRINT) && !job.OtherPrint?
    ensures RecvPrint(SendNpValue(NP_PRINT, PrintInfo(job)) + rest) == Ok((Normal(NP_PRINT, PrintInfo(job)).job, rest))
  {
    match job
    case FullPrint(r) =>
      var payload := SendMembers(SEND_FULL_PRINT, r);
      assert SendU32(2) + payload + rest == SendU32(2) + (payload + rest);
      U32RoundTrip(2, payload + rest);
      MembersRoundTrip(SEND_FULL_PRINT, r, rest);
    case EmbedPrint(w) =>
      var payload := SendWindowData(w);
      assert SendU32(1) + payload + rest == SendU32(1) + (payload + rest);
      U32RoundTrip(1, payload + rest);
      WindowRoundTrip(w, rest);
  }

  lemma EventRoundTrip(kind: i32, r: Record, rest: Bytes)
    requires HasType(Event(kind, r), NP_EVENT) && SendError(Event(kind, r)).None?
    ensures RecvNpValue(NP_EVENT, SendNpValue(NP_EVENT, Event(kind, r)) + rest)
      == Ok((Normal(NP_EVENT, Event(kind, r)), rest))
  {
    var layout := SendEventLayout(kind).value;
    assert RecvEventLayout(kind) == Some(layout);
    assert SendI32(kind) + SendMembers(layout, r) + rest == SendI32(kind) + (SendMembers(layout, r) + rest);
    I32RoundTrip(kind, SendMembers(layout, r) + rest);
    MembersRoundTrip(layout, r, rest);
  }

  lemma {:induction false} CStringOfTerminated(chars: Bytes)
    requires 0 !in chars
    ensures CString(chars + [0]) == chars
  {
    if chars == [] {
      assert chars + [0] == [0];
    } else {
      CStringOfTerminated(chars[1..]);
      assert (chars + [0])[1..] == chars[1..] + [0];
    }
  }

  lemma Utf8RoundTrip(chars: Bytes, rest: Bytes)
    requires HasType(Utf8(chars), NP_UTF8)
    ensures RecvUtf8(SendNpValue(NP_UTF8, Utf8(chars)) + rest) == Ok((chars + [0], rest))
  {
    assert SendU32(|chars| + 1) + (chars + [0]) + rest == SendU32(|chars| + 1) + (chars + [0] + rest);
    U32RoundTrip(|chars| + 1, chars + [0] + rest);
    BytesRoundTrip(chars + [0], rest);
  }

  lemma PrintDataRoundTrip(bytes: Bytes, rest: Bytes)
    requires HasType(PrintData(bytes), NP_PRINT_DATA) && bytes != []
    ensures RecvNpValue(NP_PRINT_DATA, SendNpValue(NP_PRINT_DATA, PrintData(bytes)) + rest)
      == Ok((PrintData(bytes), rest))
  {
    assert SendU32(|bytes|) + bytes + rest == SendU32(|bytes|) + (bytes + rest);
    U32RoundTrip(|bytes|, bytes + rest);
    BytesRoundTrip(bytes, rest);
  }

  lemma WindowPtrRoundTrip(w: Option<WindowData>, rest: Bytes)
    requires HasType(Window(w), NP_WINDOW)
    ensures RecvNpValue(NP_WINDOW, SendNpValue(NP_WINDOW, Window(w)) + rest) == Ok((Normal(NP_WINDOW, Window(w)), rest))
  {
    match w
    case None => U32RoundTrip(0, rest);
    case Some(data) =>
      assert SendU32(1) + SendWindowData(data) + rest == SendU32(1) + (SendWindowData(data) + rest);
      U32RoundTrip(1, SendWindowData(data) + rest);
      WindowRoundTrip(data, rest);
  }

  // Values that are plain numbers, bytes or records.
  predicate IsPlain(v: NpValue) {
    !v.Object? && !v.Str? && !v.Var? && !v.Utf8? && !v.ByteRange? && !v.SavedData? && !v.PrintInfo?
    && !v.EmbedPrintInfo?
  }

  lemma PlainArrives(id: i32, v: NpValue, rest: Bytes)
    requires HasType(v, id) && SendError(v).None? && Transmittable(v) && IsPlain(v)
    ensures RecvNpValue(id, SendNpValue(id, v) + rest) == Ok((Normal(id, v), rest))
  {
    match v
    case Handle(h) => U32RoundTrip(h, rest);
    case NotifyData(p) => U64RoundTrip(p, rest);
    case Rect(r) => MembersRoundTrip(SEND_RECT, r, rest);
    case Window(w) => WindowPtrRoundTrip(w, rest);
    case Event(kind, r) => EventRoundTrip(kind, r, rest);
    case FullPrintInfo(r) => MembersRoundTrip(SEND_FULL_PRINT, r, rest);
    case PrintData(bytes) => PrintDataRoundTrip(bytes, rest);
  }

  lemma TransmittableArrives(id: i32, v: NpValue, rest: Bytes)
    requires HasType(v, id) && SendError(v).None? && Transmittable(v)
    ensures RecvNpValue(id, SendNpValue(id, v) + rest) == Ok((Normal(id, v), rest))
  {
    hide SendByteRanges, RecvByteRanges, RecvSavedData, RecvPrint, SendWindowData, RecvWindowData, SendObjectRef,
      RecvObjectRef;
    hide SendNpString, RecvNpString, SendVariant, RecvVariant, RecvUtf8, CString, SendMembers, RecvMembers;
    match v
    case ByteRange(ranges) => ByteRangesRoundTrip(ranges, rest);
    case SavedData(data) => SavedDataRoundTrip(data, rest);
    case PrintInfo(job) => PrintRoundTrip(job, rest);
    case EmbedPrintInfo(w) => WindowRoundTrip(w, rest);
    case Object(o) => ObjectRefRoundTrip(o, id == NP_OBJECT_PASS_REF, rest);
    case Str(s) => NpStringRoundTrip(s, rest);
    case Var(x) => VariantRoundTrip(x, id == NP_VARIANT_PASS_REF, rest);
    case Utf8(chars) => Utf8RoundTrip(chars, rest); CStringOfTerminated(chars);
    case _ => PlainArrives(id, v, rest);
  }

  lemma OthersDoNot(id: i32, v: NpValue, rest: Bytes)
    requires HasType(v, id) && SendError(v).None? && !Transmittable(v)
    ensures var r := RecvNpValue(id, SendNpValue(id, v) + rest); r.Ok? ==> r.value.0 != Normal(id, v)
  {
    match v
    case Str(s) => NpStringWithoutCharacters(s, rest);
    case Var(VString(s)) =>
      VariantIsKindAndPayload(v.variant, id == NP_VARIANT_PASS_REF, rest);
      NpStringWithoutCharacters(s, rest);
    case PrintData(bytes) =>
      assert SendU32(0) + bytes + rest == SendU32(0) + rest;
      U32RoundTrip(0, rest);
  }

  /** A value that can be sent arrives, in its normal form and leaving exactly what follows it, if and only if
      its strings have characters for their lengths and it is not empty print data (which makes the receiver
      ask recv() for nothing and take the answer for a closed connection). */
  lemma ArrivesIffTransmittable(id: i32, v: NpValue, rest: Bytes)
    requires HasType(v, id) && SendError(v).None?
    ensures RecvNpValue(id, SendNpValue(id, v) + rest) == Ok((Normal(id, v), rest)) <==> Transmittable(v)
  {
    if Transmittable(v) { TransmittableArrives(id, v, rest); } else { OthersDoNot(id, v, rest); }
  }

  /** The two exceptions, at work: empty print data is answered as if the connection had been closed ... */
  lemma EmptyPrintDataIsLost(rest: Bytes)
    ensures HasType(PrintData([]), NP_PRINT_DATA)
    ensures RecvNpValue(NP_PRINT_DATA, SendNpValue(NP_PRINT_DATA, PrintData([])) + rest) == Err(ConnectionClosed)
  {
    assert SendU32(0) + [] + rest == SendU32(0) + rest;
    U32RoundTrip(0, rest);
  }

  /** ... and a string without its characters takes the bytes that follow it for them. */
  lemma MissingCharactersAreTaken(length: u32, rest: Bytes)
    requires 0 < length < TWO_31 - 1
    ensures RecvNpString(SendNpString(NpString(length, None)) + rest)
         == if |rest| < length then Err(ConnectionClosed)
            else Ok((NpString(length, Some(rest[..length])), rest[length..]))
  {
    assert SendNpString(NpString(length, None)) + rest == SendU32(length) + rest;
    U32RoundTrip(length, rest);
  }
}
