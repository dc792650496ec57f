/** What is on the wire, byte by byte. */
module WireFormat {
  import opened Wrappers
  import opened Wire
  import opened NpValues
  import opened RpcArgs
  import opened RpcFrames

  // --- Numbers ---

  /** A 32-bit number is four bytes, the most significant one first. */
  lemma NumberBytes(v: u32)
    ensures var b: seq<int> := SendU32(v); |b| == 4 && b[0] * 16777216 + b[1] * 65536 + b[2] * 256 + b[3] == v
  {
    DigitsMakeU32(v);
  }

  lemma NumberOfDigits(a: byte, b: byte, c: byte, d: byte)
    ensures SendU32(16777216 * a + 65536 * b + 256 * c + d) == [a, b, c, d]
  {
    var upper := 256 * a + b;
    var middle := 256 * upper + c;
    var v := 256 * middle + d;
    assert v / 256 == middle && v % 256 == d;
    assert middle / 256 == upper && middle % 256 == c;
    assert upper / 256 == a && upper % 256 == b;
    assert v / 65536 == upper && v / 16777216 == a;
  }

  lemma BytesOfNumber(a: byte, b: byte, c: byte, d: byte, rest: Bytes)
    ensures RecvU32([a, b, c, d] + rest) == Ok((16777216 * a + 65536 * b + 256 * c + d, rest))
  {
    BytesRoundTrip([a, b, c, d], rest);
  }

  /** A negative number is sent as it is in two's complement. */
  lemma SignedBytes(v: i32)
    ensures SendI32(v) == SendU32(if v >= 0 then v else v + 4294967296)
  {
  }

  lemma LongBytes(high: u32, low: u32)
    ensures SendU64(high * 4294967296 + low) == SendU32(high) + SendU32(low)
  {
  }

  lemma Fields(negative: nat, exponent: nat, high: nat, low: nat)
    requires negative < 2 && exponent < 2048 && high < 1048576 && low < 4294967296
    ensures var bits := negative * 9223372036854775808 + exponent * 4503599627370496 + high * 4294967296 + low;
      && bits < 18446744073709551616
      && bits / 9223372036854775808 == negative && bits / 4503599627370496 % 2048 == exponent
      && bits / 4294967296 % 1048576 == high && bits % 4294967296 == low
  {
    var upper := negative * 2147483648 + exponent * 1048576 + high;
    var bits := upper * 4294967296 + low;
    assert bits / 4294967296 == upper && bits % 4294967296 == low;
    assert upper / 1048576 == negative * 2048 + exponent && upper % 1048576 == high;
    assert bits / 4503599627370496 == upper / 1048576 && bits / 9223372036854775808 == upper / 2147483648;
  }

  /** A double is its sign, its 11 bits of exponent, the upper 20 and the lower 32 bits of its mantissa. */
  lemma DoubleBytes(negative: u32, exponent: u32, high: u32, low: u32)
    requires negative < 2 && exponent < 2048 && high < 1048576
    ensures var bits := negative * 9223372036854775808 + exponent * 4503599627370496 + high * 4294967296 + low;
      bits < 18446744073709551616
      && SendDouble(bits) == SendU32(negative) + SendU32(exponent) + SendU32(high) + SendU32(low)
  {
    hide SendU32;
    Fields(negative, exponent, high, low);
  }

  /** A string is its length and its characters, NULL the length -1. */
  lemma StringBytes(chars: Bytes)
    requires |chars| < 0x8000_0000 && 0 !in chars
    ensures IsCString(None) && SendString(None) == [255, 255, 255, 255]
    ensures IsCString(Some(chars)) && SendString(Some(chars)) == SendU32(|chars|) + chars
  {
  }

  // --- Tags and types ---

  // The bytes of a tag.
  lemma TagNumber(tag: i32)
    requires -3072 <= tag < -2816
    ensures SendI32(tag) == [255, 255, 244, tag + 3072]
  {
    hide SendU32;
    var low := tag + 3072;
    NumberOfDigits(255, 255, 244, low);
  }

  /** The tags of the protocol on the wire. */
  lemma TagBytes(procedure: i32)
    ensures Encode(StartPacket(procedure)) == [255, 255, 244, 72] + SendI32(procedure) + [255, 255, 244, 70]
    ensures Encode(SyncPacket) == [255, 255, 244, 66]
    ensures Encode(SyncEndPacket) == [255, 255, 244, 65]
    ensures Encode(SyncAckPacket) == [255, 255, 244, 64]
  {
    hide SendI32;
    TagNumber(-3000);
    TagNumber(-3002);
    TagNumber(-3006);
    TagNumber(-3007);
    TagNumber(-3008);
  }

  /** An argument list is framed by its two markers, a reply by its tag and the end marker; of no arguments nothing
      is sent, and the reply with no results is eight bytes. */
  lemma ListBytes(args: seq<Arg>)
    requires AreArgs(args) && ArgsError(args).None?
    ensures Encode(ArgsPacket(args)) == (if args == [] then []
                                         else [255, 255, 244, 71] + SendEach(args).bytes + [255, 255, 244, 70])
    ensures Encode(ReplyPacket(args)) == [255, 255, 244, 68] + Encode(ArgsPacket(args)) + [255, 255, 244, 70]
  {
    hide SendI32, SendEach, AreArgs, ArgsError;
    SendingStopsAtError(args);
    TagNumber(-3001);
    TagNumber(-3002);
    TagNumber(-3004);
  }

  /** Each argument is preceded by the number of its type; an array by its element type, its size and whether it
      has elements at all. */
  lemma ArgumentBytes(kind: i32, v: Value, elemKind: i32, size: u32)
    requires kind != 0 && kind != -2007
    requires Known(kind) && HasKind(v, kind)
    ensures SendArg(One(kind, v)).bytes == SendI32(kind) + SendValue(kind, v)
    ensures SendArg(Array(elemKind, size, None)).bytes == SendI32(-2007) + SendI32(elemKind) + SendU32(size) + [0]
  {
    hide SendI32, SendU32, SendValue, Known, HasKind;
  }

  lemma ArrayBytes(elemKind: i32, items: seq<Value>, chars: Bytes)
    requires 0 < |items| < 0x8000_0000 && 0 < |chars| < 0x8000_0000
    requires IsArg(Array(elemKind, |items|, Some(Items(items)))) && Known(elemKind) && HasKinds(items, elemKind)
    ensures SendArg(Array(elemKind, |items|, Some(Items(items)))).bytes
         == SendI32(-2007) + SendI32(elemKind) + SendU32(|items|) + [1] + SendValues(elemKind, items).bytes
    ensures IsArg(Array(-2000, |chars|, Some(Chars(chars))))
    ensures SendArg(Array(-2000, |chars|, Some(Chars(chars)))).bytes
         == SendI32(-2007) + SendI32(-2000) + SendU32(|chars|) + [1] + chars
  {
    hide SendI32, SendU32, SendValues, HasKinds;
  }

  /** The numbers of the types that can be sent, and how a value of each built-in type is written. */
  lemma TypeNumbers(kind: i32)
    ensures Known(kind) <==> -2006 <= kind <= -2000 || 1 <= kind <= 20
  {
  }

  lemma BuiltInBytes(c: byte, i: i32, u: u32, w: u64, str: Option<Bytes>)
    requires IsCString(str)
    ensures HasKind(CharV(c), -2000) && SendValue(-2000, CharV(c)) == [c]
    ensures HasKind(IntV(i), -2001) && SendValue(-2001, IntV(i)) == SendI32(i)
    ensures HasKind(IntV(i), -2002) && SendValue(-2002, IntV(i)) == SendI32(i)
    ensures HasKind(UintV(u), -2003) && SendValue(-2003, UintV(u)) == SendU32(u)
    ensures HasKind(Uint64V(w), -2004) && SendValue(-2004, Uint64V(w)) == SendU64(w)
    ensures HasKind(DoubleV(w), -2005) && SendValue(-2005, DoubleV(w)) == SendDouble(w)
    ensures HasKind(StringV(str), -2006) && SendValue(-2006, StringV(str)) == SendString(str)
  {
    hide SendI32, SendU32, SendU64, SendDouble, SendString;
  }

  // --- Values of the NPAPI ---

  /** A reference is its kind, the owning plugin, the id and, if references can be handed over, whether the stub is
      to be released. */
  lemma ReferenceBytes(plugin: u32, id: u32, release: bool)
    ensures SendObjectRef(NullObject, false) == SendU32(0) + SendU32(0) + SendU32(0)
    ensures SendObjectRef(SenderOwned(plugin, id), false) == SendU32(1) + SendU32(plugin) + SendU32(id)
    ensures SendObjectRef(SenderOwned(plugin, id), true) == SendU32(1) + SendU32(plugin) + SendU32(id) + SendU32(0)
    ensures SendObjectRef(ReceiverOwned(id, false), false) == SendU32(2) + SendU32(0) + SendU32(id)
    ensures SendObjectRef(ReceiverOwned(id, release), true)
         == SendU32(2) + SendU32(0) + SendU32(id) + SendU32(if release then 1 else 0)
  {
    hide SendU32;
    assert forall s: Bytes :: s + [] == s;
  }

  /** A variant is the number of its type and its value. */
  lemma VariantBytes(b: bool, i: i32, d: u64, s: NpString, o: ObjectRef, passRef: bool)
    ensures SendVariant(VVoid, passRef) == SendU32(0) && SendVariant(VNull, passRef) == SendU32(1)
    ensures SendVariant(VBool(b), passRef) == SendU32(2) + SendU32(if b then 1 else 0)
    ensures SendVariant(VInt32(i), passRef) == SendU32(3) + SendI32(i)
    ensures SendVariant(VDouble(d), passRef) == SendU32(4) + SendDouble(d)
    ensures SendVariant(VString(s), passRef) == SendU32(5) + SendNpString(s)
    ensures SendVariant(VObject(o), passRef) == SendU32(6) + SendObjectRef(o, passRef)
  {
    hide SendU32, SendI32, SendDouble, SendNpString, SendObjectRef;
    assert forall s: Bytes :: s + [] == s;
  }

  /** The other values: ids and pointers as numbers, texts and data as lengths and bytes, a text with its terminator,
      byte ranges each after a 1 and ended by a 0. */
  lemma ValueBytes(h: u32, p: u64, offset: i32, length: u32, more: seq<(i32, u32)>, chars: Bytes)
    requires |chars| < 0x7fff_ffff && 0 !in chars
    ensures forall id: i32 <- [1, 2, 14, 20] :: HasType(Handle(h), id) && SendNpValue(id, Handle(h)) == SendU32(h)
    ensures HasType(NotifyData(p), 5) && SendNpValue(5, NotifyData(p)) == SendU64(p)
    ensures HasType(ByteRange([]), 3) && SendNpValue(3, ByteRange([])) == SendU32(0)
    ensures HasType(ByteRange([(offset, length)] + more), 3) && HasType(ByteRange(more), 3)
    ensures SendNpValue(3, ByteRange([(offset, length)] + more))
         == SendU32(1) + SendI32(offset) + SendU32(length) + SendNpValue(3, ByteRange(more))
    ensures HasType(SavedData(None), 4) && SendNpValue(4, SavedData(None)) == SendU32(0)
    ensures HasType(SavedData(Some(chars)), 4) && SendNpValue(4, SavedData(Some(chars))) == SendU32(|chars|) + chars
    ensures |chars| <= 4096 ==>
      HasType(PrintData(chars), 12) && SendNpValue(12, PrintData(chars)) == SendU32(|chars|) + chars
    ensures HasType(Utf8(chars), 17) && SendNpValue(17, Utf8(chars)) == SendU32(|chars| + 1) + chars + [0]
    ensures HasType(Str(NpString(|chars|, Some(chars))), 15) && HasType(Str(NpString(|chars|, None)), 15)
    ensures SendNpValue(15, Str(NpString(|chars|, Some(chars)))) == SendU32(|chars|) + chars
    ensures SendNpValue(15, Str(NpString(|chars|, None))) == SendU32(|chars|)
  {
    hide SendU32, SendU64;
    assert ([(offset, length)] + more)[1..] == more;
    assert SendU32(|chars|) + [] == SendU32(|chars|);
  }

  /** Objects and variants are references and variants with the flag or without, windows and print jobs the structures
      after a number that says whether there is one, or which. */
  lemma TaggedBytes(o: ObjectRef, v: Variant, w: WindowData, full: Record)
    ensures IsObjectRef(o, false) ==> HasType(Object(o), 13) && SendNpValue(13, Object(o)) == SendObjectRef(o, false)
    ensures HasType(Object(o), 18) && SendNpValue(18, Object(o)) == SendObjectRef(o, true)
    ensures IsVariant(v, false) ==> HasType(Var(v), 16) && SendNpValue(16, Var(v)) == SendVariant(v, false)
    ensures IsVariant(v, true) ==> HasType(Var(v), 19) && SendNpValue(19, Var(v)) == SendVariant(v, true)
    ensures HasType(Window(None), 7) && SendNpValue(7, Window(None)) == SendU32(0)
    ensures HasType(EmbedPrintInfo(w), 11) ==>
      && HasType(Window(Some(w)), 7)
      && SendNpValue(7, Window(Some(w))) == SendU32(1) + SendNpValue(11, EmbedPrintInfo(w))
      && HasType(PrintInfo(EmbedPrint(w)), 9)
      && SendNpValue(9, PrintInfo(EmbedPrint(w))) == SendU32(1) + SendNpValue(11, EmbedPrintInfo(w))
    ensures HasType(FullPrintInfo(full), 10) ==>
      && HasType(PrintInfo(FullPrint(full)), 9)
      && SendNpValue(9, PrintInfo(FullPrint(full))) == SendU32(2) + SendNpValue(10, FullPrintInfo(full))
  {
    hide SendU32, SendObjectRef, SendVariant, SendWindowData, SendMembers, HasMembers;
  }
}
