/** What receivers make of bytes that no sender of theirs writes. */
module Malformed {
  import opened Wrappers
  import opened Wire
  import opened NpValues
  import opened RpcArgs
  import opened RpcFrames

  /** A stream that ends in the middle of a number, or of the bytes asked for, is closed. */
  lemma EndOfStream(s: Bytes, count: nat)
    ensures |s| < 4 ==> RecvU32(s) == Err(ConnectionClosed) && RecvI32(s) == Err(ConnectionClosed)
    ensures |s| < count ==> RecvBytes(s, count) == Err(ConnectionClosed)
    ensures RecvBytes(s, 0) == Err(ConnectionClosed)
  {
  }

  /** Only -1 stands for NULL; a string of another negative length cannot be allocated, nor can a saved area of
      a negative length. */
  lemma NegativeLengths(length: i32, rest: Bytes)
    requires length < 0
    ensures RecvString(SendI32(length) + rest) == (if length == -1 then Ok((None, rest)) else Err(NoMemory))
    ensures RecvSavedData(SendI32(length) + rest) == Err(NoMemory)
  {
    hide SendI32, RecvI32;
    I32RoundTrip(length, rest);
  }

  // --- Values ---

  /** A reference of unknown kind is an error, and so is one that asks for the release of the sender's own stub;
      any flag but 0 asks for a release. */
  lemma OtherReferences(kind: u32, plugin: u32, id: u32, release: u32, rest: Bytes)
    ensures var s := SendU32(kind) + (SendU32(plugin) + (SendU32(id) + rest));
      RecvObjectRef(s, false) ==
      (match kind
       case 0 => Ok((NullObject, rest))
       case 1 => Ok((SenderOwned(plugin, id), rest))
       case 2 => Ok((ReceiverOwned(id, false), rest))
       case _ => Err(Generic))
    ensures var s := SendU32(kind) + (SendU32(plugin) + (SendU32(id) + (SendU32(release) + rest)));
      RecvObjectRef(s, true) ==
      (match kind
       case 0 => Ok((NullObject, rest))
       case 1 => (if release != 0 then Err(Generic) else Ok((SenderOwned(plugin, id), rest)))
       case 2 => Ok((ReceiverOwned(id, release != 0), rest))
       case _ => Err(Generic))
  {
    hide SendU32, RecvU32;
    U32RoundTrip(kind, SendU32(plugin) + (SendU32(id) + rest));
    U32RoundTrip(plugin, SendU32(id) + rest);
    U32RoundTrip(id, rest);
    U32RoundTrip(kind, SendU32(plugin) + (SendU32(id) + (SendU32(release) + rest)));
    U32RoundTrip(plugin, SendU32(id) + (SendU32(release) + rest));
    U32RoundTrip(id, SendU32(release) + rest);
    U32RoundTrip(release, rest);
  }

  /** A variant of unknown type is received without a value, and any number but 0 is a true boolean. */
  lemma OtherVariants(kind: u32, b: u32, passRef: bool, rest: Bytes)
    ensures kind > 6 ==> RecvVariant(SendU32(kind) + rest, passRef) == Ok((VOther(kind), rest))
    ensures RecvVariant(SendU32(2) + (SendU32(b) + rest), passRef) == Ok((VBool(b != 0), rest))
  {
    hide SendU32, RecvU32;
    U32RoundTrip(kind, rest);
    U32RoundTrip(2, SendU32(b) + rest);
    U32RoundTrip(b, rest);
  }

  /** Print jobs of unknown mode are errors, as are types without a marshaler. */
  lemma OtherTypes(mode: u32, id: i32, rest: Bytes)
    ensures mode != 1 && mode != 2 ==> RecvNpValue(9, SendU32(mode) + rest) == Err(Generic)
    ensures !(1 <= id <= 20) ==> RecvNpValue(id, rest) == Err(ArgumentUnknown)
    ensures !(-2006 <= id <= -2000) && !(1 <= id <= 20) ==> RecvValue(id, rest) == Err(ArgumentUnknown)
  {
    hide SendU32, RecvU32;
    U32RoundTrip(mode, rest);
  }

  /** Members without a char take four bytes each, whatever is in them. */
  lemma {:induction false} FourBytesEach(layout: Layout, before: Bytes, s: Bytes)
    requires AsChar !in Formats(layout) && |before| == 4 * |layout|
    ensures RecvMembers(layout, before).Ok?
    ensures RecvMembers(layout, before + s) == Ok((RecvMembers(layout, before).value.0, s))
  {
    if layout == [] {
      assert before + s == s;
    } else {
      assert AsChar !in Formats(layout[1..]) by { assert Formats(layout[1..]) == Formats(layout)[1..]; }
      FourBytesEach(layout[1..], before[4..], s);
      assert layout[0].1 == Formats(layout)[0];
      assert (before + s)[..4] == before[..4] && (before + s)[4..] == before[4..] + s;
    }
  }

  function Formats(layout: Layout): seq<Format> {
    seq(|layout|, i requires 0 <= i < |layout| => layout[i].1)
  }

  /** Any number but 0 says that a window, another byte range, or, after the 40 bytes of a window's members, the
      window's information follows. */
  lemma FlagsAreNotZero(flag: u32, before: Bytes, rest: Bytes)
    requires flag != 0 && |before| == 40
    ensures RecvNpValue(7, SendU32(flag) + rest) == RecvNpValue(7, SendU32(1) + rest)
    ensures RecvNpValue(3, SendU32(flag) + rest) == RecvNpValue(3, SendU32(1) + rest)
    ensures RecvNpValue(11, before + (SendU32(flag) + rest)) == RecvNpValue(11, before + (SendU32(1) + rest))
  {
    hide SendU32, RecvU32, RecvMembers;
    U32RoundTrip(flag, rest);
    U32RoundTrip(1, rest);
    assert AsChar !in Formats(RECV_WINDOW) && |RECV_WINDOW| == 10;
    FourBytesEach(RECV_WINDOW, before, SendU32(flag) + rest);
    FourBytesEach(RECV_WINDOW, before, SendU32(1) + rest);
  }

  /** Members of 16 and 8 bits take the low bits of the number that is sent for them. */
  lemma NarrowMembers(v: u32, rest: Bytes)
    ensures RecvMember(AsU16, SendU32(v) + rest) == Ok((v % 65536, rest))
    ensures RecvMember(AsU8, SendU32(v) + rest) == Ok((v % 256, rest))
  {
    U32RoundTrip(v, rest);
  }

  /** Text without a terminator ends with what was sent; text of length 0 is empty. */
  lemma UnterminatedText(chars: Bytes, rest: Bytes)
    requires 0 !in chars && |chars| < 0x8000_0000
    ensures RecvNpValue(17, SendU32(|chars|) + (chars + rest)) == Ok((Utf8(chars), rest))
  {
    hide SendU32, RecvU32;
    U32RoundTrip(|chars|, chars + rest);
    CStringOf(chars);
    if chars == [] { assert chars + rest == rest; } else { BytesRoundTrip(chars, rest); }
  }

  lemma {:induction false} CStringOf(chars: Bytes)
    requires 0 !in chars
    ensures CString(chars) == chars
  {
    if chars != [] { CStringOf(chars[1..]); }
  }

  // --- Arguments ---

  /** An argument of another type than the one asked for is a mismatch; an array said to have elements but of
      size 0 ends the process; and any flag but 0 says that there are elements. */
  lemma OtherArguments(expected: i32, kind: i32, elemKind: i32, size: u32, valid: byte, rest: Bytes)
    ensures kind != expected ==> RecvArg(expected, SendI32(kind) + rest) == Err(ArgumentMismatch)
    ensures RecvArray(SendI32(elemKind) + (SendU32(size) + (SendChar(valid) + rest))) ==
      (if valid == 0 then Ok((Array(elemKind, size, None), rest))
       else if size == 0 then Err(AssertionFailed)
       else RecvArrayData(elemKind, size, rest))
  {
    hide SendI32, RecvI32, SendU32, RecvU32, SendChar, RecvChar;
    I32RoundTrip(kind, rest);
    I32RoundTrip(elemKind, SendU32(size) + (SendChar(valid) + rest));
    U32RoundTrip(size, SendChar(valid) + rest);
    CharRoundTrip(valid, rest);
  }

  /** A list has to begin with its marker ... */
  lemma MissingStart(expected: seq<i32>, tag: i32, rest: Bytes)
    requires expected != [] && tag != -3001
    ensures RecvArgs(expected, SendI32(tag) + rest) == Err(Truncated)
  {
    hide SendI32, RecvI32;
    I32RoundTrip(tag, rest);
  }

  /** ... and to end with the end marker, after the arguments that are expected. */
  lemma MissingEnd(args: seq<Arg>, tag: i32, rest: Bytes)
    requires args != [] && AreArgs(args) && ArgsError(args).None? && GoodArgs(args) && tag != -3002
    ensures RecvArgs(Kinds(args), SendI32(-3001) + (SendEach(args).bytes + (SendI32(tag) + rest))) == Err(Truncated)
  {
    hide SendI32, RecvI32, SendEach, RecvEach, AreArgs, ArgsError, GoodArgs, NormalArgs;
    I32RoundTrip(-3001, SendEach(args).bytes + (SendI32(tag) + rest));
    EachRoundTrip(args, SendI32(tag) + rest);
    I32RoundTrip(tag, rest);
  }

  // --- Frames ---

  /** A header, and a reply without results, have to end with the end marker. */
  lemma FramesEndWithTheirMarker(procedure: i32, tag: i32, rest: Bytes)
    requires tag != -3002
    ensures RecvMethod(SendI32(procedure) + (SendI32(tag) + rest)) == Err(TypeInvalid)
    ensures RecvReply([], SendI32(tag) + rest) == Err(TypeInvalid)
  {
    hide SendI32, RecvI32;
    I32RoundTrip(procedure, SendI32(tag) + rest);
    I32RoundTrip(tag, rest);
  }

  lemma RepliesEndWithTheirMarker(args: seq<Arg>, tag: i32, rest: Bytes)
    requires tag != -3002 && AreArgs(args) && ArgsError(args).None? && GoodArgs(args)
    ensures RecvReply(Kinds(args), SendArgs(args).bytes + (SendI32(tag) + rest)) == Err(TypeInvalid)
  {
    hide SendI32, RecvI32, SendArgs, RecvArgs, AreArgs, ArgsError, GoodArgs, NormalArgs;
    ArgsRoundTrip(args, SendI32(tag) + rest);
    I32RoundTrip(tag, rest);
  }

  /** No other tag is read than those of a call, a reply and the three of a sync. */
  lemma OtherTags(expected: seq<i32>, tag: i32, rest: Bytes)
    requires tag != -3000 && tag != -3004 && !(-3008 <= tag <= -3006)
    ensures Decode(TakeTag(expected), SendI32(tag) + rest) == Err(TypeInvalid)
  {
    hide SendI32, RecvI32;
    I32RoundTrip(tag, rest);
  }
}
