/** The bytes of each direction are the frames of the protocol, and are read as those frames. */
module ByteTheorems {
  import opened Wrappers
  import opened Wire
  import opened RpcArgs
  import opened RpcFrames
  import opened RpcEndpoint
  import opened TwoParty
  import SyncProtocol
  import ProtocolTheorems
  import opened Prefixes
  import opened ByteLevel

  // Such calls exist: every method with arguments takes one number, and none has results.
  lemma SomeCallsAreSensible() returns (c: Calls)
    ensures Sensible(c)
  {
    hide IsPacket;
    var a := One(TYPE_INT32, IntV(0));
    c := Calls(_ => 0, (call: CallId) => if call.bare then [] else [a], _ => []);
    NumberIsPacket(a);
    NothingIsPacket();
  }

  lemma NumberIsPacket(a: Arg)
    requires a == One(TYPE_INT32, IntV(0))
    ensures IsPacket(ArgsPacket([a]))
  {
    assert IsArg(a) && ArgError(a).None? && GoodArg(a);
    assert [a][1..] == [];
    assert AreArgs([a]) && ArgsError([a]).None? && GoodArgs([a]);
  }

  lemma NothingIsPacket()
    ensures IsPacket(ArgsPacket([])) && IsPacket(ReplyPacket([]))
  {
  }

  // --- Reading one frame ---

  // The reader that finds what it expects in a frame.
  predicate Suits(c: Calls, r: Reader, f: Frame) {
    match f
    case Args(call) => r == TakeArgs(Kinds(c.args(call)))
    case Reply(call) => r == TakeTag(Kinds(c.results(call)))
    case _ => r.TakeTag?
  }

  // Only a reply depends on the types expected.
  lemma TagsNeedNoTypes(p: Packet, expected: seq<i32>, rest: Bytes)
    requires !p.ArgsPacket? && !p.ReplyPacket?
    ensures Decode(TakeTag(expected), Encode(p) + rest) == Ok((p, rest))
  {
    hide RecvReply;
    PacketRoundTrip(p, rest);
    var tag := match p
      case StartPacket(_) => MESSAGE_START
      case SyncPacket => MESSAGE_SYNC
      case SyncAckPacket => MESSAGE_SYNC_ACK
      case SyncEndPacket => MESSAGE_SYNC_END;
    TagFirst(p, tag, rest);
  }

  lemma TagFirst(p: Packet, tag: i32, rest: Bytes)
    requires !p.ArgsPacket? && !p.ReplyPacket?
    requires tag == match p
      case StartPacket(_) => MESSAGE_START
      case SyncPacket => MESSAGE_SYNC
      case SyncAckPacket => MESSAGE_SYNC_ACK
      case _ => MESSAGE_SYNC_END
    ensures RecvI32(Encode(p) + rest).Ok? && RecvI32(Encode(p) + rest).value.0 == tag
  {
    hide SendI32, RecvI32;
    if p.StartPacket? {
      var body := SendI32(p.procedure) + (SendI32(MESSAGE_END) + rest);
      assert Encode(p) + rest == SendI32(tag) + body;
      I32RoundTrip(tag, body);
    } else {
      I32RoundTrip(tag, rest);
    }
  }

  lemma FrameIsRead(c: Calls, r: Reader, f: Frame, rest: Bytes)
    requires Sensible(c) && Suits(c, r, f)
    ensures IsPacket(PacketOf(c, f))
    ensures Decode(r, BytesOfFrame(c, f) + rest) == Ok((NormalPacket(PacketOf(c, f)), rest))
  {
    hide Decode, Encode, Kinds;
    var p := PacketOf(c, f);
    assert IsPacket(p) by { FrameIsPacket(c, f); }
    if f.Args? || f.Reply? { PacketRoundTrip(p, rest); } else { TagsNeedNoTypes(p, r.expected, rest); }
  }

  lemma FrameIsPacket(c: Calls, f: Frame)
    requires Sensible(c)
    ensures IsPacket(PacketOf(c, f))
  {
    if f.Args? || f.Reply? {
      assert IsPacket(ArgsPacket(c.args(f.call))) && IsPacket(ReplyPacket(c.results(f.call)));
    }
  }

  // --- The bytes of a direction ---

  // All bytes under way are those of the frames under way, and what is unsent is part of the last frame.
  predicate LineOk(c: Calls, frames: seq<Frame>, line: Line) {
    && line.arrived + line.unsent == BytesOfFrames(c, frames)
    && (line.unsent != [] ==> frames != [] && |line.unsent| <= |BytesOfFrame(c, frames[|frames| - 1])|)
  }

  lemma NothingToDecode(r: Reader)
    requires r != TakeArgs([])
    ensures Decode(r, []) == Err(ConnectionClosed)
  {
  }

  // Reading takes exactly the first frame, however little of the next has arrived.
  lemma HeadIsRead(c: Calls, r: Reader, frames: seq<Frame>, line: Line)
    requires Sensible(c) && LineOk(c, frames, line) && r != TakeArgs([])
    requires frames != [] ==> Suits(c, r, frames[0])
    requires Decode(r, line.arrived).Ok?
    ensures frames != [] && IsPacket(PacketOf(c, frames[0]))
    ensures var (p, rest) := Decode(r, line.arrived).value;
      p == NormalPacket(PacketOf(c, frames[0])) && LineOk(c, frames[1..], Line(rest, line.unsent))
  {
    hide Decode, Suits, Sensible, BytesOfFrame, PacketOf;
    DecodingIsStable(r, line.arrived, line.unsent);
    NothingToDecode(r);
    if frames != [] {
      FrameIsRead(c, r, frames[0], BytesOfFrames(c, frames[1..]));
    }
  }

  // The reader only ever waits for more bytes, and not once the frame has arrived.
  lemma HeadIsNotGarbled(c: Calls, r: Reader, frames: seq<Frame>, line: Line)
    requires Sensible(c) && LineOk(c, frames, line) && r != TakeArgs([])
    requires frames != [] ==> Suits(c, r, frames[0])
    ensures Decode(r, line.arrived).Ok? || Decode(r, line.arrived) == Err(ConnectionClosed)
    ensures frames != [] && line.unsent == [] ==> Decode(r, line.arrived).Ok?
  {
    hide Decode, Suits, Sensible, BytesOfFrame, PacketOf;
    DecodingIsStable(r, line.arrived, line.unsent);
    NothingToDecode(r);
    if frames != [] {
      FrameIsRead(c, r, frames[0], BytesOfFrames(c, frames[1..]));
      if line.unsent == [] { assert line.arrived + line.unsent == line.arrived; }
    }
  }

  lemma {:induction false} BytesAdd(c: Calls, x: seq<Frame>, y: seq<Frame>)
    ensures BytesOfFrames(c, x + y) == BytesOfFrames(c, x) + BytesOfFrames(c, y)
    decreases |x|
  {
    hide BytesOfFrame;
    if x == [] {
      assert x + y == y;
    } else {
      assert (x + y)[1..] == x[1..] + y;
      BytesAdd(c, x[1..], y);
    }
  }

  lemma FrameIsSent(c: Calls, frames: seq<Frame>, added: seq<Frame>, line: Line)
    requires LineOk(c, frames, line) && line.unsent == [] && |added| <= 1
    ensures LineOk(c, frames + added, line.(unsent := BytesOfFrames(c, added)))
  {
    hide BytesOfFrame;
    if added == [] {
      assert frames + added == frames;
    } else {
      OneFrame(c, added);
      BytesAdd(c, frames, added);
      hide BytesOfFrames;
      assert line.arrived + [] == line.arrived;
      assert (frames + added)[|frames + added| - 1] == added[0];
    }
  }

  lemma OneFrame(c: Calls, one: seq<Frame>)
    requires |one| == 1
    ensures BytesOfFrames(c, one) == BytesOfFrame(c, one[0])
  {
    hide BytesOfFrame;
    assert BytesOfFrame(c, one[0]) + [] == BytesOfFrame(c, one[0]);
  }

  // --- The frames of a step ---

  predicate OneAdded(frames': seq<Frame>, frames: seq<Frame>) {
    frames' == frames + Added(frames', frames) && |Added(frames', frames)| <= 1
  }

  lemma UnreadFrames(s: System, a: Action)
    requires Enabled(s, a) && !WantsToRead(s, a)
    ensures var x, y, s' := Actor(a), Other(Actor(a)), Apply(s, a);
      s'.Inbound(x) == s.Inbound(x) && OneAdded(s'.Inbound(y), s.Inbound(y))
  {
  }

  lemma ReadFrames(s: System, a: Action)
    requires Enabled(s, a) && WantsToRead(s, a)
    ensures var x, y, s' := Actor(a), Other(Actor(a)), Apply(s, a);
      && s.Inbound(x) != [] && s'.Inbound(x) == s.Inbound(x)[1..]
      && OneAdded(s'.Inbound(y), s.Inbound(y))
  {
  }

  // --- The reader is ready for the frame at the head ---

  // In every state of the protocol the next frame for a reader is one that it can read.
  lemma ReaderSuits(c: Calls, s: System, a: Action)
    requires SyncProtocol.Inv(s) && WantsToRead(s, a) && s.Inbound(Actor(a)) != []
    ensures Enabled(s, a) && Suits(c, ReaderFor(c, s, a), s.Inbound(Actor(a))[0])
  {
    hide SyncProtocol.Holds, Kinds;
    var token, base, ask :| SyncProtocol.Coherent(s, token, base, ask);
    var x := a.side;
    match a
    case DoGetArgs(_) => SyncProtocol.GetterHasControl(s, x, token, base, ask);
    case DoDispatch(_) => SyncProtocol.WhatIsDispatched(s, x, token, base, ask);
    case DoRead(_) =>
      SyncProtocol.ReadIsNotArgs(s, x, token, base, ask);
      if s.Inbound(x)[0].Reply? { SyncProtocol.ReplyReadIsOwn(s, x, token, base, ask); }
    case _ =>
  }

  // Nobody tries to read the arguments of a method without any.
  lemma ReaderReads(c: Calls, s: System, a: Action)
    requires Sensible(c) && WantsToRead(s, a)
    ensures ReaderFor(c, s, a) != TakeArgs([])
  {
    if a.DoGetArgs? {
      var call := s.End(a.side).stack.top.call;
      assert c.args(call) == [] <==> call.bare;
    }
  }

  // --- The invariant ---

  ghost predicate Inv(c: Calls, b: Bytewise) {
    && SyncProtocol.Inv(b.s)
    && LineOk(c, b.s.toV, b.toV)
    && LineOk(c, b.s.toW, b.toW)
  }

  // Reading takes exactly the frame at the head, however the bytes have arrived.
  lemma ReadingIsExact(c: Calls, b: Bytewise, a: Action)
    requires Sensible(c) && Inv(c, b) && WantsToRead(b.s, a)
    ensures var x, read := Actor(a), Read(c, b, a);
      && (read.Ok? || read == Err(ConnectionClosed))
      && (b.s.Inbound(x) != [] && b.To(x).unsent == [] ==> read.Ok?)
      && (read.Ok? ==>
            && Enabled(b.s, a) && IsPacket(PacketOf(c, b.s.Inbound(x)[0]))
            && read.value.0 == NormalPacket(PacketOf(c, b.s.Inbound(x)[0]))
            && LineOk(c, b.s.Inbound(x)[1..], Line(read.value.1, b.To(x).unsent)))
  {
    hide SyncProtocol.Inv, LineOk, Suits, Sensible, PacketOf, IsPacket, NormalPacket, Decode, ReaderFor,
      WantsToRead, Enabled;
    var x, r := Actor(a), ReaderFor(c, b.s, a);
    var frames, line := b.s.Inbound(x), b.To(x);
    assert LineOk(c, frames, line);
    if frames != [] { ReaderSuits(c, b.s, a); }
    ReaderReads(c, b.s, a);
    HeadIsNotGarbled(c, r, frames, line);
    if Decode(r, line.arrived).Ok? { HeadIsRead(c, r, frames, line); }
  }

  lemma KeepsEmit(c: Calls, b: Bytewise, x: Side, count: nat)
    requires Inv(c, b) && CanDo(c, b, Emit(x, count))
    ensures Inv(c, ByteLevel.Next(c, b, Emit(x, count)))
  {
    hide SyncProtocol.Inv, BytesOfFrames, BytesOfFrame;
    var line := b.To(Other(x));
    assert line.arrived + line.unsent[..count] + line.unsent[count..] == line.arrived + line.unsent;
  }

  lemma ReadersSee(s: System, x: Side, c: Calls, p: Packet)
    requires s.Inbound(x) != [] && IsPacket(PacketOf(c, s.Inbound(x)[0]))
      && p == NormalPacket(PacketOf(c, s.Inbound(x)[0]))
    ensures Reading(s, x, p) == s
  {
    hide IsPacket;
    var frames := s.Inbound(x);
    assert Seen(p, CallAtHead(frames)) == frames[0];
    assert [frames[0]] + frames[1..] == frames;
  }

  lemma PollingFindsAll(c: Calls, b: Bytewise)
    requires Inv(c, b) && AtEventLoop(b.s, Wrapper)
    ensures DispatchPendingSync(b.s.w, b.toW.arrived == []) == DispatchPendingSync(b.s.w, b.s.toW == [])
  {
    hide SyncProtocol.Coherent;
    ProtocolTheorems.DepthsOfInv(b.s, Wrapper);
    var token, base, ask :| SyncProtocol.Coherent(b.s, token, base, ask);
    ProtocolTheorems.DeferredAckCoherent(b.s, token, base, ask);
    if b.s.toW == [] { NoFrame(c, b.s.toW); }
  }

  // A step on bytes is the step on frames: what is read is what was sent.
  lemma StepIsApply(c: Calls, b: Bytewise, a: Action)
    requires Sensible(c) && Inv(c, b) && CanDo(c, b, Do(a))
    ensures Enabled(b.s, a) && Step(c, b, a) == Apply(b.s, a)
  {
    hide SyncProtocol.Inv, LineOk, Sensible, Apply, PacketOf, IsPacket, NormalPacket, Decode, ReaderFor, Reading,
      BytesOfFrames;
    if WantsToRead(b.s, a) {
      ReadingIsExact(c, b, a);
      ReadersSee(b.s, Actor(a), c, Read(c, b, a).value.0);
    } else if a.DoPendingSync? {
      PollingFindsAll(c, b);
      PendingSyncStep(b.s);
    }
  }

  lemma PendingSyncStep(s: System)
    requires Enabled(s, DoPendingSync)
    ensures Apply(s, DoPendingSync) == s.Put(Wrapper, DispatchPendingSync(s.w, s.toW == []))
  {
  }

  lemma KeepsLines(c: Calls, b: Bytewise, a: Action)
    requires Sensible(c) && Inv(c, b) && CanDo(c, b, Do(a))
    ensures var x, b' := Actor(a), ByteLevel.Next(c, b, Do(a));
      LineOk(c, b'.s.Inbound(x), b'.To(x)) && LineOk(c, b'.s.Inbound(Other(x)), b'.To(Other(x)))
  {
    hide SyncProtocol.Inv, LineOk, Sensible, Read, WantsToRead, Enabled, Apply, Step, PacketOf, IsPacket,
      NormalPacket, Added, BytesOfFrames;
    var x, y := Actor(a), Other(Actor(a));
    assert LineOk(c, b.s.Inbound(x), b.To(x)) && LineOk(c, b.s.Inbound(y), b.To(y));
    StepIsApply(c, b, a);
    if WantsToRead(b.s, a) {
      ReadFrames(b.s, a);
      ReadingIsExact(c, b, a);
    } else {
      UnreadFrames(b.s, a);
    }
    FrameIsSent(c, b.s.Inbound(y), Added(Apply(b.s, a).Inbound(y), b.s.Inbound(y)), b.To(y));
  }

  lemma StepKeepsInv(c: Calls, b: Bytewise, act: Act)
    requires Sensible(c) && Inv(c, b) && CanDo(c, b, act)
    ensures Inv(c, ByteLevel.Next(c, b, act))
  {
    match act
    case Emit(x, count) => KeepsEmit(c, b, x, count);
    case Do(a) =>
      hide SyncProtocol.Inv, LineOk, Sensible, Read, WantsToRead, Enabled, Apply, Step, Added, BytesOfFrames;
      StepIsApply(c, b, a);
      SyncProtocol.StepKeepsInv(b.s, a);
      KeepsLines(c, b, a);
  }

  lemma {:induction false} RunKeepsInv(c: Calls, b: Bytewise, acts: seq<Act>)
    requires Sensible(c) && Inv(c, b) && ByteLevel.Legal(c, b, acts)
    ensures Inv(c, ByteLevel.Run(c, b, acts))
    decreases |acts|
  {
    hide Inv, Sensible, CanDo;
    if acts != [] {
      StepKeepsInv(c, b, acts[0]);
      RunKeepsInv(c, ByteLevel.Next(c, b, acts[0]), acts[1..]);
    }
  }

  ghost predicate Reachable(c: Calls, b: Bytewise) {
    exists acts :: ByteLevel.Legal(c, QUIET, acts) && ByteLevel.Run(c, QUIET, acts) == b
  }

  lemma QuietInv(c: Calls)
    ensures Inv(c, QUIET)
  {
    hide LineOk, SyncProtocol.Coherent;
    SyncProtocol.InitiallyCoherent();
    EmptyLineOk(c);
  }

  lemma ReachableInv(c: Calls, b: Bytewise)
    requires Sensible(c) && Reachable(c, b)
    ensures Inv(c, b)
  {
    hide Inv, CanDo, ByteLevel.Next;
    var acts :| ByteLevel.Legal(c, QUIET, acts) && ByteLevel.Run(c, QUIET, acts) == b;
    QuietInv(c);
    RunKeepsInv(c, QUIET, acts);
  }

  lemma EmptyLineOk(c: Calls)
    ensures LineOk(c, [], Line([], []))
  {
  }

  // --- Main results ---

  /** The bytes of each direction are whole frames, then at most a part of one more, the rest of which is
      what its sender has still to write. */
  lemma StreamsAreFrames(c: Calls, b: Bytewise, x: Side) returns (whole: nat, part: Bytes)
    requires Sensible(c) && Reachable(c, b)
    ensures |b.s.Inbound(x)| - 1 <= whole <= |b.s.Inbound(x)|
    ensures b.To(x).arrived == BytesOfFrames(c, b.s.Inbound(x)[..whole]) + part
    ensures part + b.To(x).unsent == BytesOfFrames(c, b.s.Inbound(x)[whole..])
  {
    hide SyncProtocol.Inv, BytesOfFrames, BytesOfFrame, Sensible, Reachable;
    ReachableInv(c, b);
    var frames, line := b.s.Inbound(x), b.To(x);
    whole := if line.unsent == [] then |frames| else |frames| - 1;
    assert frames == frames[..whole] + frames[whole..];
    BytesAdd(c, frames[..whole], frames[whole..]);
    if line.unsent == [] {
      part := [];
      NoFrame(c, frames[whole..]);
      assert line.arrived + [] == line.arrived;
    } else {
      OneFrame(c, frames[whole..]);
      var before := BytesOfFrames(c, frames[..whole]);
      assert |line.arrived| >= |before|;
      part := line.arrived[|before|..];
      SplitAgrees(line.arrived, line.unsent, before, BytesOfFrame(c, frames[whole]));
    }
  }

  lemma NoFrame(c: Calls, frames: seq<Frame>)
    requires frames == []
    ensures BytesOfFrames(c, frames) == []
  {
  }

  lemma SplitAgrees(a: Bytes, u: Bytes, x: Bytes, y: Bytes)
    requires a + u == x + y && |x| <= |a|
    ensures a == x + a[|x|..] && a[|x|..] + u == y
  {
    assert (a + u)[..|x|] == a[..|x|] && (x + y)[..|x|] == x;
    assert (a + u)[|x|..] == a[|x|..] + u && (x + y)[|x|..] == y;
  }

  /** Whoever reads gets the frame at the head, as it was sent, or has to wait for more of it; and does not
      have to wait once all of it has been written. No reader ever takes the wrong bytes for a frame. */
  lemma FramesAreRead(c: Calls, b: Bytewise, a: Action)
    requires Sensible(c) && Reachable(c, b) && WantsToRead(b.s, a)
    ensures var x, read := Actor(a), Read(c, b, a);
      && (read.Ok? || read == Err(ConnectionClosed))
      && (b.s.Inbound(x) != [] && b.To(x).unsent == [] ==> read.Ok?)
      && (read.Ok? ==>
            && Enabled(b.s, a) && IsPacket(PacketOf(c, b.s.Inbound(x)[0]))
            && read.value.0 == NormalPacket(PacketOf(c, b.s.Inbound(x)[0])))
  {
    hide *;
    ReachableInv(c, b);
    ReadingIsExact(c, b, a);
  }

  // --- Bytes and frames reach the same states ---

  lemma NextIsApply(c: Calls, b: Bytewise, act: Act)
    requires Sensible(c) && Inv(c, b) && CanDo(c, b, act)
    ensures act.Emit? ==> ByteLevel.Next(c, b, act).s == b.s
    ensures act.Do? ==> Enabled(b.s, act.a) && ByteLevel.Next(c, b, act).s == Apply(b.s, act.a)
  {
    hide SyncProtocol.Inv, LineOk, Sensible, Read, WantsToRead, Enabled, Apply, Step, Added, BytesOfFrames;
    if act.Do? { StepIsApply(c, b, act.a); }
  }

  lemma {:induction false} RunOfFrames(c: Calls, b: Bytewise, acts: seq<Act>) returns (run: seq<Action>)
    requires Sensible(c) && Inv(c, b) && ByteLevel.Legal(c, b, acts)
    ensures TwoParty.Legal(b.s, run) && TwoParty.Run(b.s, run) == ByteLevel.Run(c, b, acts).s
    decreases |acts|
  {
    hide Inv, Sensible, Apply, Enabled, CanDo, ByteLevel.Next;
    run := [];
    if acts != [] {
      StepKeepsInv(c, b, acts[0]);
      run := RunOfFrames(c, ByteLevel.Next(c, b, acts[0]), acts[1..]);
      NextIsApply(c, b, acts[0]);
      if acts[0].Do? {
        var rest := run;
        run := [acts[0].a] + rest;
        assert run[1..] == rest;
      }
    }
  }

  lemma {:induction false} ByteRunsConcatenate(c: Calls, b: Bytewise, x: seq<Act>, y: seq<Act>)
    requires ByteLevel.Legal(c, b, x) && ByteLevel.Legal(c, ByteLevel.Run(c, b, x), y)
    ensures ByteLevel.Legal(c, b, x + y)
    ensures ByteLevel.Run(c, b, x + y) == ByteLevel.Run(c, ByteLevel.Run(c, b, x), y)
    decreases |x|
  {
    hide CanDo, ByteLevel.Next;
    if x == [] {
      assert x + y == y;
    } else {
      ByteRunsConcatenate(c, ByteLevel.Next(c, b, x[0]), x[1..], y);
      assert (x + y)[0] == x[0] && (x + y)[1..] == x[1..] + y;
    }
  }

  predicate Written(b: Bytewise) {
    b.toV.unsent == [] && b.toW.unsent == []
  }

  lemma DoIsPossible(c: Calls, b: Bytewise, a: Action)
    requires Sensible(c) && Inv(c, b) && Written(b) && Enabled(b.s, a)
    ensures CanDo(c, b, Do(a))
    ensures ByteLevel.Next(c, b, Do(a)).To(Actor(a)).unsent == [] && ByteLevel.Next(c, b, Do(a)).s == Apply(b.s, a)
  {
    hide SyncProtocol.Inv, LineOk, Sensible, Read, WantsToRead, Apply, Step, PacketOf, IsPacket, NormalPacket,
      Added, BytesOfFrames;
    if WantsToRead(b.s, a) {
      ReadFrames(b.s, a);
      ReadingIsExact(c, b, a);
    }
    StepIsApply(c, b, a);
  }

  lemma WriteAll(c: Calls, b: Bytewise, x: Side) returns (acts: seq<Act>)
    requires b.To(x).unsent == []
    ensures ByteLevel.Legal(c, b, acts)
    ensures ByteLevel.Run(c, b, acts).s == b.s && Written(ByteLevel.Run(c, b, acts))
  {
    hide Apply, Enabled, Read, WantsToRead, Step, BytesOfFrames, Added;
    acts := if b.To(Other(x)).unsent == [] then [] else [Emit(x, |b.To(Other(x)).unsent|)];
  }

  lemma StepIsPossible(c: Calls, b: Bytewise, a: Action) returns (acts: seq<Act>)
    requires Sensible(c) && Inv(c, b) && Written(b) && Enabled(b.s, a)
    ensures ByteLevel.Legal(c, b, acts)
    ensures ByteLevel.Run(c, b, acts).s == Apply(b.s, a) && Written(ByteLevel.Run(c, b, acts))
  {
    hide Inv, Sensible, CanDo, ByteLevel.Next, Apply, Enabled, Written;
    DoIsPossible(c, b, a);
    var b1 := ByteLevel.Next(c, b, Do(a));
    var rest := WriteAll(c, b1, Actor(a));
    acts := [Do(a)] + rest;
    assert acts[1..] == rest;
  }

  lemma {:induction false} RunOfBytes(c: Calls, b: Bytewise, run: seq<Action>) returns (acts: seq<Act>)
    requires Sensible(c) && Inv(c, b) && Written(b) && TwoParty.Legal(b.s, run)
    ensures ByteLevel.Legal(c, b, acts) && ByteLevel.Run(c, b, acts).s == TwoParty.Run(b.s, run)
    decreases |run|
  {
    hide Inv, Sensible, ByteLevel.Legal, ByteLevel.Run, Apply, Enabled, Written;
    if run == [] {
      acts := NoActs(c, b);
    } else {
      var first := StepIsPossible(c, b, run[0]);
      RunKeepsInv(c, b, first);
      var rest := RunOfBytes(c, ByteLevel.Run(c, b, first), run[1..]);
      ByteRunsConcatenate(c, b, first, rest);
      acts := first + rest;
    }
  }

  lemma NoActs(c: Calls, b: Bytewise) returns (acts: seq<Act>)
    ensures ByteLevel.Legal(c, b, acts) && ByteLevel.Run(c, b, acts) == b
  {
    acts := [];
  }

  /** The protocol on bytes reaches exactly the states that the protocol on frames reaches, so all that is
      proved of the one holds of the other. */
  lemma BytesRefineFrames(c: Calls, s: System)
    requires Sensible(c)
    ensures ProtocolTheorems.Reachable(s) <==> exists b :: Reachable(c, b) && b.s == s
  {
    hide Sensible, Inv, Apply, Enabled;
    if ProtocolTheorems.Reachable(s) {
      var run :| TwoParty.Legal(INITIAL, run) && TwoParty.Run(INITIAL, run) == s;
      QuietInv(c);
      var acts := RunOfBytes(c, QUIET, run);
      assert Reachable(c, ByteLevel.Run(c, QUIET, acts));
    }
    forall b | Reachable(c, b) && b.s == s ensures ProtocolTheorems.Reachable(s) {
      var acts :| ByteLevel.Legal(c, QUIET, acts) && ByteLevel.Run(c, QUIET, acts) == b;
      QuietInv(c);
      var run := RunOfFrames(c, QUIET, acts);
    }
  }

  /** Two ends in recv() are never stuck: one of them has bytes to write, or finds all it waits for. */
  lemma NoByteDeadlock(c: Calls, b: Bytewise) returns (act: Act)
    requires Sensible(c) && Reachable(c, b)
    requires ProtocolTheorems.InReceive(b.s.w) && ProtocolTheorems.InReceive(b.s.v)
    ensures CanDo(c, b, act)
    ensures act.Do? ==> WantsToRead(b.s, act.a)
  {
    hide Reachable, Inv, Sensible, ProtocolTheorems.Reachable, Decode, ReaderFor, Enabled, PacketOf, IsPacket,
      NormalPacket;
    ReachableInv(c, b);
    BytesRefineFrames(c, b.s);
    ProtocolTheorems.NoDeadlock(b.s);
    ProtocolTheorems.NoProtocolError(b.s);
    if !Written(b) {
      act := Emit(if b.toV.unsent == [] then Viewer else Wrapper, 1);
    } else {
      var x := if b.s.toV == [] then Wrapper else Viewer;
      var a := if Waiting(b.s.End(x).stack) then DoRead(x) else DoGetArgs(x);
      FramesAreRead(c, b, a);
      act := Do(a);
    }
  }

  /** Polling the socket for bytes tells the browser's event loop what it needs to know of the frames. */
  lemma PollingAgrees(c: Calls, b: Bytewise)
    requires Sensible(c) && Reachable(c, b) && AtEventLoop(b.s, Wrapper)
    ensures DispatchPendingSync(b.s.w, b.toW.arrived == []) == DispatchPendingSync(b.s.w, b.s.toW == [])
  {
    hide Reachable, Inv, Sensible;
    ReachableInv(c, b);
    PollingFindsAll(c, b);
  }
}
