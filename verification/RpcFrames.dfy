/** The frames of the protocol as bytes: how calls, replies and sync tags are written and read (src/rpc.c).
    It is because every frame is read to its last byte, and no further, that nested dispatchers can share one
    stream. */
module RpcFrames {
  import opened Wrappers
  import opened Wire
  import opened RpcArgs

  const MESSAGE_START: i32 := -3000
  const MESSAGE_REPLY: i32 := -3004
  const MESSAGE_SYNC: i32 := -3006
  const MESSAGE_SYNC_END: i32 := -3007
  const MESSAGE_SYNC_ACK: i32 := -3008

  datatype Packet =
    | StartPacket(procedure: i32)
    | ArgsPacket(args: seq<Arg>)
    | ReplyPacket(args: seq<Arg>)
    | SyncPacket
    | SyncAckPacket
    | SyncEndPacket

  function ArgsOf(p: Packet): seq<Arg> {
    match p
    case ArgsPacket(args) => args
    case ReplyPacket(args) => args
    case _ => []
  }

  // A packet whose arguments can be sent and transmitted.
  predicate IsPacket(p: Packet) {
    AreArgs(ArgsOf(p)) && ArgsError(ArgsOf(p)).None? && GoodArgs(ArgsOf(p))
  }

  function Encode(p: Packet): Bytes
    requires AreArgs(ArgsOf(p))
  {
    match p
    case StartPacket(procedure) => SendI32(MESSAGE_START) + SendI32(procedure) + SendI32(MESSAGE_END)
    case ArgsPacket(args) => SendArgs(args).bytes
    case ReplyPacket(args) => SendI32(MESSAGE_REPLY) + SendArgs(args).bytes + SendI32(MESSAGE_END)
    case SyncPacket => SendI32(MESSAGE_SYNC)
    case SyncAckPacket => SendI32(MESSAGE_SYNC_ACK)
    case SyncEndPacket => SendI32(MESSAGE_SYNC_END)
  }

  // The start of _rpc_dispatch_1(), after the tag has been read
  function RecvMethod(s: Bytes): Decoded<i32> {
    var (procedure, s1) :- RecvI32(s);
    var (end, s2) :- RecvI32(s1);
    if end != MESSAGE_END then Err(TypeInvalid) else Ok((procedure, s2))
  }

  // The end of rpc_method_wait_for_reply(), after the tag has been read
  function RecvReply(expected: seq<i32>, s: Bytes): Decoded<seq<Arg>> {
    var (args, s1) :- RecvArgs(expected, s);
    var (end, s2) :- RecvI32(s1);
    if end != MESSAGE_END then Err(TypeInvalid) else Ok((args, s2))
  }

  // What a reader is about to do: take an argument list, or read a tag and go by it. expected are the types
  // that the handler or the caller asks for.
  datatype Reader = TakeArgs(expected: seq<i32>) | TakeTag(expected: seq<i32>)

  function Decode(r: Reader, s: Bytes): Decoded<Packet> {
    match r
    case TakeArgs(expected) =>
      var (args, rest) :- RecvArgs(expected, s);
      Ok((ArgsPacket(args), rest))
    case TakeTag(expected) =>
      var (tag, s1) :- RecvI32(s);
      if tag == MESSAGE_START then
        var (procedure, rest) :- RecvMethod(s1);
        Ok((StartPacket(procedure), rest))
      else if tag == MESSAGE_REPLY then
        var (args, rest) :- RecvReply(expected, s1);
        Ok((ReplyPacket(args), rest))
      else if tag == MESSAGE_SYNC then Ok((SyncPacket, s1))
      else if tag == MESSAGE_SYNC_ACK then Ok((SyncAckPacket, s1))
      else if tag == MESSAGE_SYNC_END then Ok((SyncEndPacket, s1))
      else Err(TypeInvalid)
  }

  // The reader that the protocol has for a packet, when both ends agree on the types.
  function ReaderOf(p: Packet): Reader {
    match p
    case ArgsPacket(args) => TakeArgs(Kinds(args))
    case ReplyPacket(args) => TakeTag(Kinds(args))
    case _ => TakeTag([])
  }

  function NormalPacket(p: Packet): Packet
    requires IsPacket(p)
  {
    match p
    case ArgsPacket(args) => ArgsPacket(NormalArgs(args))
    case ReplyPacket(args) => ReplyPacket(NormalArgs(args))
    case _ => p
  }

  lemma ReplyRoundTrip(args: seq<Arg>, rest: Bytes)
    requires IsPacket(ReplyPacket(args))
    ensures RecvReply(Kinds(args), SendArgs(args).bytes + (SendI32(MESSAGE_END) + rest)) == Ok((NormalArgs(args), rest))
  {
    hide RecvArgs, SendArgs, SendI32, RecvI32;
    ArgsRoundTrip(args, SendI32(MESSAGE_END) + rest);
    I32RoundTrip(MESSAGE_END, rest);
  }

  /** Every frame is read as it was written, whatever follows it, leaving exactly what follows. */
  lemma PacketRoundTrip(p: Packet, rest: Bytes)
    requires IsPacket(p)
    ensures Decode(ReaderOf(p), Encode(p) + rest) == Ok((NormalPacket(p), rest))
  {
    hide RecvArgs, SendArgs, SendI32, RecvI32, RecvReply;
    match p
    case StartPacket(procedure) =>
      assert Encode(p) + rest == SendI32(MESSAGE_START) + (SendI32(procedure) + (SendI32(MESSAGE_END) + rest));
      I32RoundTrip(MESSAGE_START, SendI32(procedure) + (SendI32(MESSAGE_END) + rest));
      I32RoundTrip(procedure, SendI32(MESSAGE_END) + rest);
      I32RoundTrip(MESSAGE_END, rest);
    case ArgsPacket(args) => ArgsRoundTrip(args, rest);
    case ReplyPacket(args) =>
      var body := SendArgs(args).bytes + (SendI32(MESSAGE_END) + rest);
      assert Encode(p) + rest == SendI32(MESSAGE_REPLY) + body;
      I32RoundTrip(MESSAGE_REPLY, body);
      ReplyRoundTrip(args, rest);
    case SyncPacket => I32RoundTrip(MESSAGE_SYNC, rest);
    case SyncAckPacket => I32RoundTrip(MESSAGE_SYNC_ACK, rest);
    case SyncEndPacket => I32RoundTrip(MESSAGE_SYNC_END, rest);
  }

  predicate ArePackets(ps: seq<Packet>) {
    ps != [] ==> IsPacket(ps[0]) && ArePackets(ps[1..])
  }

  function EncodeAll(ps: seq<Packet>): Bytes
    requires ArePackets(ps)
  {
    if ps == [] then [] else Encode(ps[0]) + EncodeAll(ps[1..])
  }

  function DecodeAll(readers: seq<Reader>, s: Bytes): Decoded<seq<Packet>> {
    if readers == [] then Ok(([], s))
    else
      var (first, s1) :- Decode(readers[0], s);
      var (others, s2) :- DecodeAll(readers[1..], s1);
      Ok(([first] + others, s2))
  }

  function ReadersOf(ps: seq<Packet>): seq<Reader> {
    if ps == [] then [] else [ReaderOf(ps[0])] + ReadersOf(ps[1..])
  }

  function NormalPackets(ps: seq<Packet>): seq<Packet>
    requires ArePackets(ps)
  {
    if ps == [] then [] else [NormalPacket(ps[0])] + NormalPackets(ps[1..])
  }

  /** A stream of bytes is the stream of frames written to it: frames come out in order, none lost, split or
      merged, and a partial frame at the end stays unread. */
  lemma {:induction false} StreamOfFrames(ps: seq<Packet>, rest: Bytes)
    requires ArePackets(ps)
    ensures DecodeAll(ReadersOf(ps), EncodeAll(ps) + rest) == Ok((NormalPackets(ps), rest))
  {
    hide Encode, Decode, NormalPacket, ReaderOf;
    if ps == [] {
      assert EncodeAll(ps) + rest == rest;
    } else {
      assert EncodeAll(ps) + rest == Encode(ps[0]) + (EncodeAll(ps[1..]) + rest);
      PacketRoundTrip(ps[0], EncodeAll(ps[1..]) + rest);
      StreamOfFrames(ps[1..], rest);
      assert ReadersOf(ps)[1..] == ReadersOf(ps[1..]);
    }
  }
}
