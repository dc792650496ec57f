/** Bytes on the wire: integers, doubles and strings, as functions (src/rpc.c).

    `Send...` is what a rpc_message_send_... function appends to the stream; `Recv...` is what the
    matching rpc_message_recv_... function makes of the bytes to come: an error, or the value and the
    bytes left over. */
module Wire {
  import opened Wrappers

  const TWO_8 := 0x100
  const TWO_16 := 0x1_0000
  const TWO_20 := 0x10_0000
  const TWO_24 := 0x100_0000
  const TWO_31 := 0x8000_0000
  const TWO_32 := 0x1_0000_0000
  const TWO_52 := 0x10_0000_0000_0000
  const TWO_63 := 0x8000_0000_0000_0000
  const TWO_64 := 0x1_0000_0000_0000_0000

  type byte = x: int | 0 <= x < 0x100
  type u16 = x: int | 0 <= x < 0x1_0000
  type u32 = x: int | 0 <= x < 0x1_0000_0000
  type i32 = x: int | -0x8000_0000 <= x < 0x8000_0000
  type u64 = x: int | 0 <= x < 0x1_0000_0000_0000_0000

  datatype RpcError =
    | ConnectionClosed
    | NoMemory
    | Truncated
    | TypeInvalid
    | ArgumentMismatch
    | ArgumentUnknown
    | ArgumentInvalid
    | Generic
    | AssertionFailed

  type Bytes = seq<byte>
  type Decoded<+T> = Result<(T, Bytes), RpcError>

  // _rpc_message_recv_bytes(): its do-while loop calls recv() even for no bytes at all, and takes the 0
  // that recv() then returns for a closed connection. Too short a stream ends in an error too.
  function RecvBytes(s: Bytes, count: nat): Decoded<Bytes> {
    if count == 0 || |s| < count then Err(ConnectionClosed) else Ok((s[..count], s[count..]))
  }

  function SendU32(v: u32): Bytes {
    [v / TWO_24, v / TWO_16 % TWO_8, v / TWO_8 % TWO_8, v % TWO_8]
  }

  function RecvU32(s: Bytes): Decoded<u32> {
    var (b, rest) :- RecvBytes(s, 4);
    Ok((b[0] * TWO_24 + b[1] * TWO_16 + b[2] * TWO_8 + b[3], rest))
  }

  function ToU32(v: i32): u32 {
    if v < 0 then v + TWO_32 else v
  }

  function ToI32(v: u32): i32 {
    if v >= TWO_31 then v - TWO_32 else v
  }

  function SendI32(v: i32): Bytes {
    SendU32(ToU32(v))
  }

  function RecvI32(s: Bytes): Decoded<i32> {
    var (v, rest) :- RecvU32(s);
    Ok((ToI32(v), rest))
  }

  function SendChar(c: byte): Bytes {
    [c]
  }

  function RecvChar(s: Bytes): Decoded<byte> {
    var (b, rest) :- RecvBytes(s, 1);
    Ok((b[0], rest))
  }

  function SendU64(v: u64): Bytes {
    SendU32(v / TWO_32) + SendU32(v % TWO_32)
  }

  function RecvU64(s: Bytes): Decoded<u64> {
    var (hi, s1) :- RecvU32(s);
    var (lo, s2) :- RecvU32(s1);
    Ok((hi * TWO_32 + lo, s2))
  }

  // The bit fields of a binary64 number, section 3.4 of IEEE 754-2008. A double is its 64-bit pattern.
  datatype DoubleParts = DoubleParts(negative: u32, exponent: u32, mantissa0: u32, mantissa1: u32)

  function PartsOf(bits: u64): DoubleParts {
    DoubleParts(bits / TWO_63, bits / TWO_52 % 0x800, bits / TWO_32 % TWO_20, bits % TWO_32)
  }

  // Storing into the bit fields keeps 1, 11, 20 and 32 bits.
  function BitsOf(negative: u32, exponent: u32, mantissa0: u32, mantissa1: u32): u64 {
    negative % 2 * TWO_63 + exponent % 0x800 * TWO_52 + mantissa0 % TWO_20 * TWO_32 + mantissa1
  }

  function SendDouble(bits: u64): Bytes {
    var p := PartsOf(bits);
    SendU32(p.negative) + SendU32(p.exponent) + SendU32(p.mantissa0) + SendU32(p.mantissa1)
  }

  function RecvDouble(s: Bytes): Decoded<u64> {
    var (negative, s1) :- RecvU32(s);
    var (exponent, s2) :- RecvU32(s1);
    var (mantissa0, s3) :- RecvU32(s2);
    var (mantissa1, s4) :- RecvU32(s3);
    Ok((BitsOf(negative, exponent, mantissa0, mantissa1), s4))
  }

  // A C string: NULL, or characters other than NUL, no more than an int can count.
  predicate IsCString(str: Option<Bytes>) {
    str.Some? ==> |str.value| < TWO_31 && 0 !in str.value
  }

  function SendString(str: Option<Bytes>): Bytes
    requires IsCString(str)
  {
    match str
    case None => SendI32(-1)
    case Some(chars) => SendI32(|chars|) + chars
  }

  function RecvString(s: Bytes): Decoded<Option<Bytes>> {
    var (length, rest) :- RecvI32(s);
    if length == -1 then Ok((None, rest))
    else if length < -1 then Err(NoMemory) // malloc() of a huge size
    else if length == 0 then Ok((Some([]), rest))
    else
      var (chars, rest') :- RecvBytes(rest, length);
      Ok((Some(chars), rest'))
  }

  // --- Round trips ---

  lemma BytesRoundTrip(a: Bytes, rest: Bytes)
    requires a != []
    ensures RecvBytes(a + rest, |a|) == Ok((a, rest))
  {
    assert (a + rest)[..|a|] == a && (a + rest)[|a|..] == rest;
  }

  lemma DigitsMakeU32(v: u32)
    ensures v / TWO_24 * TWO_24 + v / TWO_16 % TWO_8 * TWO_16 + v / TWO_8 % TWO_8 * TWO_8 + v % TWO_8 == v
  {
    assert v == v / TWO_8 * TWO_8 + v % TWO_8;
    assert v / TWO_8 == v / TWO_16 * TWO_8 + v / TWO_8 % TWO_8;
    assert v / TWO_16 == v / TWO_24 * TWO_8 + v / TWO_16 % TWO_8;
  }

  lemma U32RoundTrip(v: u32, rest: Bytes)
    ensures RecvU32(SendU32(v) + rest) == Ok((v, rest))
  {
    BytesRoundTrip(SendU32(v), rest);
    DigitsMakeU32(v);
  }

  lemma I32RoundTrip(v: i32, rest: Bytes)
    ensures RecvI32(SendI32(v) + rest) == Ok((v, rest))
  {
    U32RoundTrip(ToU32(v), rest);
  }

  lemma CharRoundTrip(c: byte, rest: Bytes)
    ensures RecvChar(SendChar(c) + rest) == Ok((c, rest))
  {
    BytesRoundTrip([c], rest);
  }

  lemma U64RoundTrip(v: u64, rest: Bytes)
    ensures RecvU64(SendU64(v) + rest) == Ok((v, rest))
  {
    var hi, lo := SendU32(v / TWO_32), SendU32(v % TWO_32);
    assert hi + lo + rest == hi + (lo + rest);
    U32RoundTrip(v / TWO_32, lo + rest);
    U32RoundTrip(v % TWO_32, rest);
  }

  lemma PartsAreBits(bits: u64)
    ensures var p := PartsOf(bits);
            p.negative < 2 && p.exponent < 0x800 && p.mantissa0 < TWO_20
            && BitsOf(p.negative, p.exponent, p.mantissa0, p.mantissa1) == bits
  {
    var high := bits / TWO_32;
    assert high / TWO_20 == bits / TWO_52 && high / TWO_31 == bits / TWO_63;
    assert bits / TWO_52 == bits / TWO_63 * 0x800 + bits / TWO_52 % 0x800;
  }

  /** A double keeps its sign, exponent and mantissa, hence all its bits, infinities and NaNs included. */
  lemma DoubleRoundTrip(bits: u64, rest: Bytes)
    ensures RecvDouble(SendDouble(bits) + rest) == Ok((bits, rest))
  {
    var p := PartsOf(bits);
    PartsAreBits(bits);
    var a, b, c, d := SendU32(p.negative), SendU32(p.exponent), SendU32(p.mantissa0), SendU32(p.mantissa1);
    assert a + b + c + d + rest == a + (b + (c + (d + rest)));
    U32RoundTrip(p.negative, b + (c + (d + rest)));
    U32RoundTrip(p.exponent, c + (d + rest));
    U32RoundTrip(p.mantissa0, d + rest);
    U32RoundTrip(p.mantissa1, rest);
  }

  lemma StringRoundTrip(str: Option<Bytes>, rest: Bytes)
    requires IsCString(str)
    ensures RecvString(SendString(str) + rest) == Ok((str, rest))
  {
    match str
    case None => I32RoundTrip(-1, rest);
    case Some(chars) =>
      assert SendI32(|chars|) + chars + rest == SendI32(|chars|) + (chars + rest);
      I32RoundTrip(|chars|, chars + rest);
      if chars == [] {
        assert chars + rest == rest;
      } else {
        BytesRoundTrip(chars, rest);
      }
  }
}
