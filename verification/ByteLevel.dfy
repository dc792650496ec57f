/** The protocol on bytes. Frames are written to the wire a few bytes at a time, and read when their bytes have
    arrived. */
module ByteLevel {
  import opened Wire
  import opened RpcArgs
  import opened RpcFrames
  import opened RpcEndpoint
  import opened TwoParty

  // What each call is about: its method, arguments and results.
  datatype Calls = Calls(procedure: CallId -> i32, args: CallId -> seq<Arg>, results: CallId -> seq<Arg>)

  // All arguments and results can be sent and transmitted, and the bare calls are those without arguments.
  ghost predicate Sensible(c: Calls) {
    forall call: CallId ::
      && IsPacket(ArgsPacket(c.args(call))) && IsPacket(ReplyPacket(c.results(call)))
      && (c.args(call) == [] <==> call.bare)
  }

  function PacketOf(c: Calls, f: Frame): Packet {
    match f
    case Start(call) => StartPacket(c.procedure(call))
    case Args(call) => ArgsPacket(c.args(call))
    case Reply(call) => ReplyPacket(c.results(call))
    case Sync => SyncPacket
    case SyncAck => SyncAckPacket
    case SyncEnd => SyncEndPacket
  }

  function BytesOfFrame(c: Calls, f: Frame): Bytes {
    if AreArgs(ArgsOf(PacketOf(c, f))) then Encode(PacketOf(c, f)) else []
  }

  function BytesOfFrames(c: Calls, frames: seq<Frame>): Bytes {
    if frames == [] then [] else BytesOfFrame(c, frames[0]) + BytesOfFrames(c, frames[1..])
  }

  // One direction: what has arrived and not been read, and what its sender has still to write.
  datatype Line = Line(arrived: Bytes, unsent: Bytes)

  // The frames under way in s are for specification only: a reader goes by its bytes, and takes from the frames
  // no more than the number of the call.
  datatype Bytewise = Bytewise(s: System, toV: Line, toW: Line) {
    function To(x: Side): Line {
      if x.Wrapper? then toW else toV
    }

    function WithLine(x: Side, line: Line): Bytewise {
      if x.Wrapper? then this.(toW := line) else this.(toV := line)
    }
  }

  const QUIET := Bytewise(INITIAL, Line([], []), Line([], []))

  // What a side that has come to a read is about to read.
  predicate WantsToRead(s: System, a: Action) {
    match a
    case DoRead(x) => Waiting(s.End(x).stack)
    case DoGetArgs(x) => TopIsHandler(s.End(x).stack, Entered) && !s.End(x).stack.top.call.bare
    case DoDispatch(x) => AtEventLoop(s, x)
    case _ => false
  }

  function ReaderFor(c: Calls, s: System, a: Action): Reader {
    var st := s.End(Actor(a)).stack;
    if a.DoGetArgs? && st.On? && st.top.Handler? then TakeArgs(Kinds(c.args(st.top.call)))
    else if a.DoRead? && st.On? && st.top.Await? then TakeTag(Kinds(c.results(st.top.call)))
    else TakeTag([])
  }

  // What a reader takes a packet for. Call numbers are not on the wire: `call` is for specification only.
  function Seen(p: Packet, call: CallId): Frame {
    match p
    case StartPacket(_) => Start(call)
    case ArgsPacket(_) => Args(call)
    case ReplyPacket(_) => Reply(call)
    case SyncPacket => Sync
    case SyncAckPacket => SyncAck
    case SyncEndPacket => SyncEnd
  }

  function CallAtHead(frames: seq<Frame>): CallId {
    if frames != [] && (frames[0].Start? || frames[0].Args? || frames[0].Reply?) then frames[0].call
    else CallId(0, false)
  }

  // The state as the reader on side x sees it, whatever the frames under way are.
  function Reading(s: System, x: Side, p: Packet): System {
    var frames := s.Inbound(x);
    var seen := [Seen(p, CallAtHead(frames))] + if frames == [] then [] else frames[1..];
    if x.Wrapper? then s.(toW := seen) else s.(toV := seen)
  }

  datatype Act = Emit(x: Side, count: nat) | Do(a: Action)

  function Read(c: Calls, b: Bytewise, a: Action): Decoded<Packet> {
    Decode(ReaderFor(c, b.s, a), b.To(Actor(a)).arrived)
  }

  // A sender writes all it has before it does anything else; a reader waits for the bytes it needs.
  predicate CanDo(c: Calls, b: Bytewise, act: Act) {
    match act
    case Emit(x, count) => 0 < count <= |b.To(Other(x)).unsent|
    case Do(a) =>
      && b.To(Other(Actor(a))).unsent == []
      && (if WantsToRead(b.s, a) then b.s.w.status.Active? && b.s.v.status.Active? && Read(c, b, a).Ok?
          else Enabled(b.s, a))
  }

  // A reader goes by the tag that it has read, and polling looks for bytes.
  function Step(c: Calls, b: Bytewise, a: Action): System
    requires CanDo(c, b, Do(a))
  {
    if WantsToRead(b.s, a) then Apply(Reading(b.s, Actor(a), Read(c, b, a).value.0), a)
    else if a.DoPendingSync? then b.s.Put(Wrapper, DispatchPendingSync(b.s.w, b.toW.arrived == []))
    else Apply(b.s, a)
  }

  // What a step adds to a stream that it does not read from.
  function Added(frames': seq<Frame>, frames: seq<Frame>): seq<Frame> {
    if |frames'| >= |frames| then frames'[|frames|..] else []
  }

  function Next(c: Calls, b: Bytewise, act: Act): Bytewise
    requires CanDo(c, b, act)
  {
    match act
    case Emit(x, count) =>
      var line := b.To(Other(x));
      b.WithLine(Other(x), Line(line.arrived + line.unsent[..count], line.unsent[count..]))
    case Do(a) =>
      var x, y, s', line := Actor(a), Other(Actor(a)), Step(c, b, a), b.To(Actor(a));
      var added := Added(s'.Inbound(y), b.s.Inbound(y));
      var sent := b.(s := s').WithLine(y, b.To(y).(unsent := BytesOfFrames(c, added)));
      if WantsToRead(b.s, a) then sent.WithLine(x, line.(arrived := Read(c, b, a).value.1)) else sent
  }

  predicate Legal(c: Calls, b: Bytewise, acts: seq<Act>)
    decreases |acts|
  {
    acts == [] || (CanDo(c, b, acts[0]) && Legal(c, Next(c, b, acts[0]), acts[1..]))
  }

  function Run(c: Calls, b: Bytewise, acts: seq<Act>): Bytewise
    requires Legal(c, b, acts)
    decreases |acts|
  {
    if acts == [] then b else Run(c, Next(c, b, acts[0]), acts[1..])
  }
}
