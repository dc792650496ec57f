/** Reading does not depend on bytes that have not arrived: what a decoder makes of the bytes at hand, it makes
    of them whatever follows, unless it ran out of bytes. */
module Prefixes {
  import opened Wrappers
  import opened Wire
  import opened NpValues
  import opened RpcArgs
  import opened RpcFrames

  // short is what is read from some bytes, long from the same bytes with `more` after them.
  predicate Stable<T(==)>(short: Decoded<T>, long: Decoded<T>, more: Bytes) {
    match short
    case Ok((v, rest)) => long == Ok((v, rest + more))
    case Err(e) => e != ConnectionClosed ==> long == Err(e)
  }

  lemma BytesStable(s: Bytes, count: nat, more: Bytes)
    ensures Stable(RecvBytes(s, count), RecvBytes(s + more, count), more)
  {
    if 0 < count <= |s| {
      assert (s + more)[..count] == s[..count] && (s + more)[count..] == s[count..] + more;
    }
  }

  lemma U32Stable(s: Bytes, more: Bytes)
    ensures Stable(RecvU32(s), RecvU32(s + more), more)
  {
    hide RecvBytes;
    BytesStable(s, 4, more);
  }

  lemma I32Stable(s: Bytes, more: Bytes)
    ensures Stable(RecvI32(s), RecvI32(s + more), more)
  {
    hide RecvU32;
    U32Stable(s, more);
  }

  lemma CharStable(s: Bytes, more: Bytes)
    ensures Stable(RecvChar(s), RecvChar(s + more), more)
  {
    hide RecvBytes;
    BytesStable(s, 1, more);
  }

  lemma U64Stable(s: Bytes, more: Bytes)
    ensures Stable(RecvU64(s), RecvU64(s + more), more)
  {
    hide RecvU32;
    U32Stable(s, more);
    if RecvU32(s).Ok? { U32Stable(RecvU32(s).value.1, more); }
  }

  lemma DoubleStable(s: Bytes, more: Bytes)
    ensures Stable(RecvDouble(s), RecvDouble(s + more), more)
  {
    hide RecvU32;
    U32Stable(s, more);
    if RecvU32(s).Ok? {
      var s1 := RecvU32(s).value.1;
      U32Stable(s1, more);
      if RecvU32(s1).Ok? {
        var s2 := RecvU32(s1).value.1;
        U32Stable(s2, more);
        if RecvU32(s2).Ok? { U32Stable(RecvU32(s2).value.1, more); }
      }
    }
  }

  lemma StringStable(s: Bytes, more: Bytes)
    ensures Stable(RecvString(s), RecvString(s + more), more)
  {
    hide RecvI32, RecvBytes;
    I32Stable(s, more);
    if RecvI32(s).Ok? && RecvI32(s).value.0 > 0 { BytesStable(RecvI32(s).value.1, RecvI32(s).value.0, more); }
  }

  lemma MemberStable(f: Format, s: Bytes, more: Bytes)
    ensures Stable(RecvMember(f, s), RecvMember(f, s + more), more)
  {
    hide RecvChar, RecvI32, RecvU32;
    CharStable(s, more);
    I32Stable(s, more);
    U32Stable(s, more);
  }

  lemma {:induction false} MembersStable(layout: Layout, s: Bytes, more: Bytes)
    ensures Stable(RecvMembers(layout, s), RecvMembers(layout, s + more), more)
    decreases |layout|
  {
    hide RecvMember;
    if layout != [] {
      MemberStable(layout[0].1, s, more);
      if RecvMember(layout[0].1, s).Ok? { MembersStable(layout[1..], RecvMember(layout[0].1, s).value.1, more); }
    }
  }

  lemma NpStringStable(s: Bytes, more: Bytes)
    ensures Stable(RecvNpString(s), RecvNpString(s + more), more)
  {
    hide RecvU32, RecvBytes;
    U32Stable(s, more);
    if RecvU32(s).Ok? { BytesStable(RecvU32(s).value.1, RecvU32(s).value.0, more); }
  }

  lemma ObjectRefStable(passRef: bool, s: Bytes, more: Bytes)
    ensures Stable(RecvObjectRef(s, passRef), RecvObjectRef(s + more, passRef), more)
  {
    hide RecvU32;
    U32Stable(s, more);
    if RecvU32(s).Ok? {
      var s1 := RecvU32(s).value.1;
      U32Stable(s1, more);
      if RecvU32(s1).Ok? {
        var s2 := RecvU32(s1).value.1;
        U32Stable(s2, more);
        if RecvU32(s2).Ok? { U32Stable(RecvU32(s2).value.1, more); }
      }
    }
  }

  lemma VariantStable(passRef: bool, s: Bytes, more: Bytes)
    ensures Stable(RecvVariant(s, passRef), RecvVariant(s + more, passRef), more)
  {
    hide RecvU32, RecvI32, RecvDouble, RecvNpString, RecvObjectRef;
    U32Stable(s, more);
    if RecvU32(s).Ok? {
      var rest := RecvU32(s).value.1;
      U32Stable(rest, more);
      I32Stable(rest, more);
      DoubleStable(rest, more);
      NpStringStable(rest, more);
      ObjectRefStable(passRef, rest, more);
    }
  }

  lemma {:induction false} ByteRangesStable(s: Bytes, more: Bytes)
    ensures Stable(RecvByteRanges(s), RecvByteRanges(s + more), more)
    decreases |s|
  {
    U32Stable(s, more);
    if RecvU32(s).Ok? && RecvU32(s).value.0 != 0 {
      var s1 := RecvU32(s).value.1;
      I32Stable(s1, more);
      if RecvI32(s1).Ok? {
        var s2 := RecvI32(s1).value.1;
        U32Stable(s2, more);
        if RecvU32(s2).Ok? { ByteRangesStable(RecvU32(s2).value.1, more); }
      }
    }
  }

  lemma WindowDataStable(s: Bytes, more: Bytes)
    ensures Stable(RecvWindowData(s), RecvWindowData(s + more), more)
  {
    hide RecvMembers, RecvU32;
    MembersStable(RECV_WINDOW, s, more);
    if RecvMembers(RECV_WINDOW, s).Ok? {
      var s1 := RecvMembers(RECV_WINDOW, s).value.1;
      U32Stable(s1, more);
      if RecvU32(s1).Ok? { MembersStable(RECV_WS_INFO, RecvU32(s1).value.1, more); }
    }
  }

  lemma SavedDataStable(s: Bytes, more: Bytes)
    ensures Stable(RecvSavedData(s), RecvSavedData(s + more), more)
  {
    hide RecvI32, RecvBytes;
    I32Stable(s, more);
    if RecvI32(s).Ok? && RecvI32(s).value.0 > 0 { BytesStable(RecvI32(s).value.1, RecvI32(s).value.0, more); }
  }

  lemma PrintStable(s: Bytes, more: Bytes)
    ensures Stable(RecvPrint(s), RecvPrint(s + more), more)
  {
    hide RecvU32, RecvMembers, RecvWindowData;
    U32Stable(s, more);
    if RecvU32(s).Ok? {
      MembersStable(RECV_FULL_PRINT, RecvU32(s).value.1, more);
      WindowDataStable(RecvU32(s).value.1, more);
    }
  }

  lemma Utf8Stable(s: Bytes, more: Bytes)
    ensures Stable(RecvUtf8(s), RecvUtf8(s + more), more)
  {
    hide RecvU32, RecvBytes;
    U32Stable(s, more);
    if RecvU32(s).Ok? { BytesStable(RecvU32(s).value.1, RecvU32(s).value.0, more); }
  }

  lemma NpValueStable(id: i32, s: Bytes, more: Bytes)
    ensures Stable(RecvNpValue(id, s), RecvNpValue(id, s + more), more)
  {
    hide RecvU32, RecvU64, RecvI32, RecvByteRanges, RecvSavedData, RecvMembers, RecvPrint, RecvWindowData,
      RecvNpString, RecvUtf8;
    hide RecvObjectRef, RecvVariant, RecvBytes, RecvEventLayout, CString;
    U32Stable(s, more);
    U64Stable(s, more);
    I32Stable(s, more);
    ByteRangesStable(s, more);
    SavedDataStable(s, more);
    MembersStable(RECV_RECT, s, more);
    MembersStable(RECV_FULL_PRINT, s, more);
    PrintStable(s, more);
    WindowDataStable(s, more);
    NpStringStable(s, more);
    Utf8Stable(s, more);
    ObjectRefStable(id == NP_OBJECT_PASS_REF, s, more);
    VariantStable(id == NP_VARIANT_PASS_REF, s, more);
    if RecvU32(s).Ok? {
      WindowDataStable(RecvU32(s).value.1, more);
      BytesStable(RecvU32(s).value.1, RecvU32(s).value.0, more);
    }
    if RecvI32(s).Ok? && RecvEventLayout(RecvI32(s).value.0).Some? {
      MembersStable(RecvEventLayout(RecvI32(s).value.0).value, RecvI32(s).value.1, more);
    }
  }

  lemma ValueStable(kind: i32, s: Bytes, more: Bytes)
    ensures Stable(RecvValue(kind, s), RecvValue(kind, s + more), more)
  {
    hide RecvChar, RecvI32, RecvU32, RecvU64, RecvDouble, RecvString, RecvNpValue;
    CharStable(s, more);
    I32Stable(s, more);
    U32Stable(s, more);
    U64Stable(s, more);
    DoubleStable(s, more);
    StringStable(s, more);
    NpValueStable(kind, s, more);
  }

  lemma {:induction false} ValuesStable(kind: i32, count: nat, s: Bytes, more: Bytes)
    ensures Stable(RecvValues(kind, count, s), RecvValues(kind, count, s + more), more)
    decreases count
  {
    hide RecvValue;
    if count != 0 {
      ValueStable(kind, s, more);
      if RecvValue(kind, s).Ok? { ValuesStable(kind, count - 1, RecvValue(kind, s).value.1, more); }
    }
  }

  lemma ArrayDataStable(elemKind: i32, size: u32, s: Bytes, more: Bytes)
    ensures Stable(RecvArrayData(elemKind, size, s), RecvArrayData(elemKind, size, s + more), more)
  {
    hide RecvBytes, RecvValues;
    BytesStable(s, size, more);
    ValuesStable(elemKind, size, s, more);
  }

  lemma ArrayStable(s: Bytes, more: Bytes)
    ensures Stable(RecvArray(s), RecvArray(s + more), more)
  {
    hide RecvI32, RecvU32, RecvChar, RecvArrayData;
    I32Stable(s, more);
    if RecvI32(s).Ok? {
      var s1 := RecvI32(s).value.1;
      U32Stable(s1, more);
      if RecvU32(s1).Ok? {
        var s2 := RecvU32(s1).value.1;
        CharStable(s2, more);
        if RecvChar(s2).Ok? { ArrayDataStable(RecvI32(s).value.0, RecvU32(s1).value.0, RecvChar(s2).value.1, more); }
      }
    }
  }

  lemma ArgStable(expected: i32, s: Bytes, more: Bytes)
    ensures Stable(RecvArg(expected, s), RecvArg(expected, s + more), more)
  {
    hide RecvI32, RecvArray, RecvValue;
    I32Stable(s, more);
    if RecvI32(s).Ok? {
      ArrayStable(RecvI32(s).value.1, more);
      ValueStable(RecvI32(s).value.0, RecvI32(s).value.1, more);
    }
  }

  lemma {:induction false} EachStable(expected: seq<i32>, s: Bytes, more: Bytes)
    ensures Stable(RecvEach(expected, s), RecvEach(expected, s + more), more)
    decreases |expected|
  {
    hide RecvArg;
    if expected != [] {
      ArgStable(expected[0], s, more);
      if RecvArg(expected[0], s).Ok? { EachStable(expected[1..], RecvArg(expected[0], s).value.1, more); }
    }
  }

  lemma ArgsStable(expected: seq<i32>, s: Bytes, more: Bytes)
    ensures Stable(RecvArgs(expected, s), RecvArgs(expected, s + more), more)
  {
    hide RecvI32, RecvEach;
    I32Stable(s, more);
    if RecvI32(s).Ok? {
      var s1 := RecvI32(s).value.1;
      EachStable(expected, s1, more);
      if RecvEach(expected, s1).Ok? { I32Stable(RecvEach(expected, s1).value.1, more); }
    }
  }

  lemma MethodStable(s: Bytes, more: Bytes)
    ensures Stable(RecvMethod(s), RecvMethod(s + more), more)
  {
    hide RecvI32;
    I32Stable(s, more);
    if RecvI32(s).Ok? { I32Stable(RecvI32(s).value.1, more); }
  }

  lemma ReplyStable(expected: seq<i32>, s: Bytes, more: Bytes)
    ensures Stable(RecvReply(expected, s), RecvReply(expected, s + more), more)
  {
    hide RecvI32, RecvArgs;
    ArgsStable(expected, s, more);
    if RecvArgs(expected, s).Ok? { I32Stable(RecvArgs(expected, s).value.1, more); }
  }

  /** A frame that has arrived is read the same whatever arrives after it, and an error that is not for want of
      bytes stays one. */
  lemma DecodingIsStable(r: Reader, s: Bytes, more: Bytes)
    ensures Stable(Decode(r, s), Decode(r, s + more), more)
  {
    hide RecvArgs, RecvI32, RecvMethod, RecvReply;
    ArgsStable(r.expected, s, more);
    I32Stable(s, more);
    if RecvI32(s).Ok? {
      MethodStable(RecvI32(s).value.1, more);
      ReplyStable(r.expected, RecvI32(s).value.1, more);
    }
  }
}
