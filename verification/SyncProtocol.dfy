/** The invariant of the two-party protocol: what every reachable state looks like, and that every
    enabled step keeps it. */
module SyncProtocol {
  import opened RpcEndpoint
  import opened TwoParty
  import opened Wrappers

  // Who may go on: one of the two ends, or the end that the one control-moving frame in flight is for.
  datatype Token = At(side: Side) | StartFlying(from: Side) | ReplyFlying(target: Side) | AckFlying | EndFlying

  // Where a SYNC request of the viewer is: nowhere, on the wire (before or behind the control-moving
  // frame), or read by the wrapper and put off.
  datatype Ask = NoAsk | AskFirst | AskLast | AskDeferred

  // What lies below all calls: both event loops, the viewer waiting for SYNC_ACK, or a granted sync.
  datatype Base = Quiet | Asking | Synced

  function Depth(st: Stack): nat {
    if st.Bottom? then 0 else 1 + Depth(st.below)
  }

  function Handlers(st: Stack): nat {
    if st.Bottom? then 0 else (if st.top.Handler? then 1 else 0) + Handlers(st.below)
  }

  function RunningHandlers(st: Stack): nat {
    if st.Bottom? then 0 else (if TopIsHandler(st, Running) then 1 else 0) + RunningHandlers(st.below)
  }

  function Awaits(st: Stack): nat {
    if st.Bottom? then 0 else (if st.top.Await? then 1 else 0) + Awaits(st.below)
  }

  // The depth counters count activations on the C stack.
  predicate Counted(e: Endpoint) {
    && e.dispatchDepth == Handlers(e.stack)
    && e.invokeDepth == Awaits(e.stack)
    && e.handleDepth == RunningHandlers(e.stack)
  }

  // The stack without a handler that has replied and only has to return.
  function Unwound(st: Stack): Stack {
    if TopIsHandler(st, Replied) then st.below else st
  }

  // A place a call can be made from.
  predicate Resting(st: Stack) {
    st.Bottom? || TopIsHandler(st, Running)
  }

  // The bottom of a blocked stack, when the other side's stack is at its bottom too.
  predicate AtBase(base: Base, ctl: Side, b: Stack) {
    match base
    case Quiet => ctl.Wrapper? && b == Bottom
    case Asking => ctl.Wrapper? && b == On(AwaitAck, Bottom)
    case Synced => ctl.Viewer? && b == On(AwaitEnd, Bottom)
  }

  // Side `ctl` has control with stack r, the other side is blocked with stack b, and the two stacks
  // interleave: every handler serves the call that the other side's topmost wait belongs to.
  predicate Core(base: Base, ctl: Side, r: Stack, b: Stack)
    decreases Depth(r) + Depth(b)
  {
    if r.Bottom? then AtBase(base, ctl, b)
    else
      && r.top.Handler? && !r.top.phase.Replied?
      && b.On? && b.top.Await? && b.top.call == r.top.call
      && (r.top.phase.Running? || r.top.call.bare ==> b.top.argsSent)
      && Resting(b.below)
      && Core(base, Other(ctl), b.below, r.below)
  }

  // The open calls of two interleaved stacks, innermost first.
  function Nest(r: Stack, b: Stack): seq<CallId>
    decreases Depth(r) + Depth(b)
  {
    if r.On? && r.top.Handler? && b.On? && b.top.Await? then [r.top.call] + Nest(b.below, r.below) else []
  }

  // A wrapper that may still have a SYNC to read.
  predicate Shallow(st: Stack) {
    st.Bottom? || (st.top.Await? && st.below.Bottom?)
  }

  // The viewer's stream with its SYNC put in.
  function WithAsk(ask: Ask, frames: seq<Frame>): seq<Frame> {
    match ask
    case AskFirst => [Sync] + frames
    case AskLast => frames + [Sync]
    case _ => frames
  }

  // The stream to `side`: control frames and, for the wrapper, the SYNC.
  predicate Carries(s: System, side: Side, ask: Ask, frames: seq<Frame>) {
    s.Inbound(side) == if side.Wrapper? then WithAsk(ask, frames) else frames
  }

  function ArgsFrames(sent: bool, call: CallId): seq<Frame> {
    if sent && !call.bare then [Args(call)] else []
  }

  predicate HoldsAt(s: System, side: Side, base: Base, ask: Ask) {
    var r, b := s.End(side).stack, Unwound(s.End(Other(side)).stack);
    && Core(base, side, r, b)
    && Carries(s, Other(side), ask, [])
    && Carries(s, side, ask, if TopIsHandler(r, Entered) then ArgsFrames(b.top.argsSent, r.top.call) else [])
    && !ask.AskLast?
    && OpenCalls(s.history) == Some(Nest(r, b))
  }

  predicate HoldsStart(s: System, from: Side, base: Base, ask: Ask) {
    var x, y := s.End(from).stack, Unwound(s.End(Other(from)).stack);
    && x.On? && x.top.Await? && (x.top.call.bare ==> x.top.argsSent) && Resting(x.below)
    && Core(base, from, x.below, y)
    && Carries(s, Other(from), ask, [Start(x.top.call)] + ArgsFrames(x.top.argsSent, x.top.call))
    && Carries(s, from, ask, [])
    && !ask.AskLast?
    && OpenCalls(s.history) == Some([x.top.call] + Nest(x.below, y))
  }

  predicate HoldsReply(s: System, target: Side, base: Base, ask: Ask) {
    var x, y := Unwound(s.End(target).stack), Unwound(s.End(Other(target)).stack);
    && x.On? && x.top.Await? && x.top.argsSent && Resting(x.below)
    && Core(base, target, x.below, y)
    && Carries(s, target, ask, [Reply(x.top.call)])
    && Carries(s, Other(target), ask, [])
    && (ask.AskFirst? || ask.AskLast? ==> target.Wrapper?)
    && (ask.AskLast? ==> x.below.Bottom?)
    && OpenCalls(s.history) == Some([x.top.call] + Nest(x.below, y))
  }

  predicate HoldsAck(s: System) {
    && s.w.stack == On(AwaitEnd, Bottom)
    && Unwound(s.v.stack) == On(AwaitAck, Bottom)
    && s.toV == [SyncAck] && s.toW == []
    && OpenCalls(s.history) == Some([])
  }

  predicate HoldsEnd(s: System, ask: Ask) {
    && Unwound(s.w.stack) == On(AwaitEnd, Bottom)
    && (ask.NoAsk? || ask.AskLast?)
    && s.v.stack == (if ask.NoAsk? then Bottom else On(AwaitAck, Bottom))
    && s.toV == [] && s.toW == WithAsk(ask, [SyncEnd])
    && OpenCalls(s.history) == Some([])
  }

  predicate Holds(s: System, token: Token, base: Base, ask: Ask) {
    match token
    case At(side) => HoldsAt(s, side, base, ask)
    case StartFlying(from) => HoldsStart(s, from, base, ask)
    case ReplyFlying(target) => HoldsReply(s, target, base, ask)
    case AckFlying => HoldsAck(s) && ask.NoAsk?
    case EndFlying => HoldsEnd(s, ask)
  }

  predicate Grounded(s: System, token: Token, base: Base, ask: Ask) {
    && s.w.kind.Client? && s.v.kind.Server?
    && s.w.status.Active? && s.v.status.Active?
    && Counted(s.w) && Counted(s.v)
    && !s.w.isSync && s.v.isSync == (base.Synced? && !token.AckFlying? && !token.EndFlying?)
    && s.w.pendingSyncDepth == (if ask.AskDeferred? then 1 else 0)
    && s.v.pendingSyncDepth == 0
    && (!token.AckFlying? && !token.EndFlying? ==> (base.Asking? <==> !ask.NoAsk?))
    && (ask.AskFirst? ==> Shallow(s.w.stack))
  }

  predicate Coherent(s: System, token: Token, base: Base, ask: Ask) {
    Grounded(s, token, base, ask) && Holds(s, token, base, ask)
  }

  ghost predicate Inv(s: System) {
    exists token, base, ask :: Coherent(s, token, base, ask)
  }

  lemma InitiallyCoherent()
    ensures Coherent(INITIAL, At(Wrapper), Quiet, NoAsk)
  {
  }

  lemma {:induction false} RunningAtMostAll(st: Stack)
    ensures RunningHandlers(st) <= Handlers(st)
  {
    if st.On? {
      RunningAtMostAll(st.below);
    }
  }

  // Application code for which rpc_method_invoke_possible() holds is on the side that has control.
  lemma InvokerHasControl(s: System, x: Side, token: Token, base: Base, ask: Ask)
    requires RunsApplication(s, x) && InvokePossible(s.End(x)) && Coherent(s, token, base, ask)
    ensures token == At(x) && Resting(s.End(x).stack)
  {
    if s.End(x).stack.On? {
      RunningAtMostAll(s.End(x).stack.below);
    }
  }

  lemma InvokeFromControl(s: System, x: Side, bare: bool, base: Base, ask: Ask)
    requires Enabled(s, DoInvoke(x, bare)) && InvokePossible(s.End(x)) && Resting(s.End(x).stack)
    requires Coherent(s, At(x), base, ask)
    ensures Coherent(Apply(s, DoInvoke(x, bare)), StartFlying(x), base, ask)
  {
    hide Core, OpenCalls, Nest;
    OpenCallsStep(s.history, Called(x, CallId(s.calls, bare)));
  }

  lemma KeepsInvoke(s: System, x: Side, bare: bool, token: Token, base: Base, ask: Ask)
    requires Enabled(s, DoInvoke(x, bare)) && Coherent(s, token, base, ask)
    ensures Inv(Apply(s, DoInvoke(x, bare)))
  {
    if InvokePossible(s.End(x)) {
      InvokerHasControl(s, x, token, base, ask);
      InvokeFromControl(s, x, bare, base, ask);
    } else {
      assert Apply(s, DoInvoke(x, bare)) == s;
    }
  }

  // Whoever has a call's arguments to send: its header is still on its way, or being handled.
  lemma SenderOfArgs(s: System, x: Side, token: Token, base: Base, ask: Ask)
    requires Enabled(s, DoSendArgs(x)) && Coherent(s, token, base, ask)
    ensures token == StartFlying(x) || (token == At(Other(x)) && TopIsHandler(s.End(Other(x)).stack, Entered))
    ensures !s.End(x).stack.top.call.bare
  {
    hide OpenCalls, Nest, Counted;
  }

  lemma SendArgsFrame(s: System, x: Side)
    requires Enabled(s, DoSendArgs(x))
    ensures var s', call := Apply(s, DoSendArgs(x)), s.End(x).stack.top.call;
      && s'.End(x) == s.End(x).(stack := On(Await(call, true), s.End(x).stack.below))
      && s'.End(Other(x)) == s.End(Other(x)) && s'.history == s.history
      && s'.Inbound(Other(x)) == s.Inbound(Other(x)) + [Args(call)] && s'.Inbound(x) == s.Inbound(x)
  {
  }

  lemma SendArgsKeepsGrounded(s: System, x: Side, token: Token, base: Base, ask: Ask)
    requires Enabled(s, DoSendArgs(x)) && Grounded(s, token, base, ask)
    ensures Grounded(Apply(s, DoSendArgs(x)), token, base, ask)
  {
    SendArgsFrame(s, x);
    hide Apply;
  }

  lemma SendArgsInFlight(s: System, x: Side, base: Base, ask: Ask)
    requires Enabled(s, DoSendArgs(x)) && HoldsStart(s, x, base, ask) && !s.End(x).stack.top.call.bare
    ensures HoldsStart(Apply(s, DoSendArgs(x)), x, base, ask)
  {
    SendArgsFrame(s, x);
    hide Apply, Core, OpenCalls, Nest;
  }

  lemma SendArgsToHandler(s: System, x: Side, base: Base, ask: Ask)
    requires Enabled(s, DoSendArgs(x)) && HoldsAt(s, Other(x), base, ask)
      && TopIsHandler(s.End(Other(x)).stack, Entered)
    requires !s.End(x).stack.top.call.bare
    ensures HoldsAt(Apply(s, DoSendArgs(x)), Other(x), base, ask)
  {
    SendArgsFrame(s, x);
    hide Apply, OpenCalls, AtBase;
  }

  lemma KeepsSendArgs(s: System, x: Side, token: Token, base: Base, ask: Ask)
    requires Enabled(s, DoSendArgs(x)) && Coherent(s, token, base, ask)
    ensures Coherent(Apply(s, DoSendArgs(x)), token, base, ask)
  {
    hide Grounded, HoldsAt, HoldsStart, HoldsReply, HoldsAck, HoldsEnd, Apply, Enabled;
    SenderOfArgs(s, x, token, base, ask);
    SendArgsKeepsGrounded(s, x, token, base, ask);
    if token == StartFlying(x) { SendArgsInFlight(s, x, base, ask); } else { SendArgsToHandler(s, x, base, ask); }
  }

  // The handler that asks for its arguments finds them, and its caller waiting.
  lemma GetterHasControl(s: System, x: Side, token: Token, base: Base, ask: Ask)
    requires Enabled(s, DoGetArgs(x)) && Coherent(s, token, base, ask)
    ensures token == At(x)
    ensures var call, b := s.End(x).stack.top.call, Unwound(s.End(Other(x)).stack);
      b.On? && b.top == Await(call, true) && (!call.bare ==> s.Inbound(x)[0] == Args(call))
  {
    hide OpenCalls, Nest, Counted;
  }

  lemma GetArgsFrame(s: System, x: Side)
    requires Enabled(s, DoGetArgs(x))
    requires !s.End(x).stack.top.call.bare ==> s.Inbound(x)[0].Args?
    ensures var s', call := Apply(s, DoGetArgs(x)), s.End(x).stack.top.call;
      && s'.End(x) == GetNoArgs(s.End(x))
      && s'.End(Other(x)) == s.End(Other(x)) && s'.history == s.history
      && s'.Inbound(x) == (if call.bare then s.Inbound(x) else s.Inbound(x)[1..])
      && s'.Inbound(Other(x)) == s.Inbound(Other(x))
  {
  }

  lemma GetArgsKeepsGrounded(s: System, x: Side, base: Base, ask: Ask)
    requires Enabled(s, DoGetArgs(x)) && Grounded(s, At(x), base, ask)
    requires !s.End(x).stack.top.call.bare ==> s.Inbound(x)[0].Args?
    ensures Grounded(Apply(s, DoGetArgs(x)), At(x), base, ask)
  {
    GetArgsFrame(s, x);
    hide Apply;
  }

  lemma GetArgsKeepsHolds(s: System, x: Side, base: Base, ask: Ask)
    requires Enabled(s, DoGetArgs(x)) && HoldsAt(s, x, base, ask)
    requires var call, b := s.End(x).stack.top.call, Unwound(s.End(Other(x)).stack);
      b.On? && b.top == Await(call, true) && (!call.bare ==> s.Inbound(x)[0] == Args(call))
    ensures HoldsAt(Apply(s, DoGetArgs(x)), x, base, ask)
  {
    GetArgsFrame(s, x);
    hide Apply, OpenCalls, AtBase;
  }

  lemma KeepsGetArgs(s: System, x: Side, token: Token, base: Base, ask: Ask)
    requires Enabled(s, DoGetArgs(x)) && Coherent(s, token, base, ask)
    ensures Coherent(Apply(s, DoGetArgs(x)), token, base, ask)
  {
    hide Grounded, HoldsAt, HoldsStart, HoldsReply, HoldsAck, HoldsEnd, Apply, Enabled;
    GetterHasControl(s, x, token, base, ask);
    GetArgsKeepsGrounded(s, x, base, ask);
    GetArgsKeepsHolds(s, x, base, ask);
  }

  lemma ReplyFrame(s: System, x: Side)
    requires Enabled(s, DoReply(x))
    ensures var s', call := Apply(s, DoReply(x)), s.End(x).stack.top.call;
      && s'.End(x) == SendReply(s.End(x)).end
      && s'.End(Other(x)) == s.End(Other(x)) && s'.history == s.history
      && s'.Inbound(Other(x)) == s.Inbound(Other(x)) + [Reply(call)] && s'.Inbound(x) == s.Inbound(x)
  {
  }

  lemma ReplierHasControl(s: System, x: Side, token: Token, base: Base, ask: Ask)
    requires Enabled(s, DoReply(x)) && Coherent(s, token, base, ask)
    ensures token == At(x)
  {
    hide OpenCalls, Nest, Counted;
  }

  lemma ReplyKeepsGrounded(s: System, x: Side, base: Base, ask: Ask)
    requires Enabled(s, DoReply(x)) && Grounded(s, At(x), base, ask)
    ensures Grounded(Apply(s, DoReply(x)), ReplyFlying(Other(x)), base, ask)
  {
    ReplyFrame(s, x);
    hide Apply;
  }

  lemma ReplyKeepsHolds(s: System, x: Side, base: Base, ask: Ask)
    requires Enabled(s, DoReply(x)) && HoldsAt(s, x, base, ask)
    requires ask.AskFirst? ==> x.Viewer?
    ensures HoldsReply(Apply(s, DoReply(x)), Other(x), base, ask)
  {
    ReplyFrame(s, x);
    hide Apply, OpenCalls;
  }

  lemma KeepsReply(s: System, x: Side, token: Token, base: Base, ask: Ask)
    requires Enabled(s, DoReply(x)) && Coherent(s, token, base, ask)
    ensures Coherent(Apply(s, DoReply(x)), ReplyFlying(Other(x)), base, ask)
  {
    hide HoldsAt, HoldsStart, HoldsReply, HoldsAck, HoldsEnd, Apply;
    ReplierHasControl(s, x, token, base, ask);
    ReplyKeepsGrounded(s, x, base, ask);
    ReplyKeepsHolds(s, x, base, ask);
  }

  // A handler that only has to return lies on top of a blocked stack, or of the viewer's main loop.
  lemma ReturnerIsBlocked(s: System, x: Side, token: Token, base: Base, ask: Ask)
    requires TopIsHandler(s.End(x).stack, Replied) && Coherent(s, token, base, ask)
    ensures token != At(x) && token != StartFlying(x) && (x.Wrapper? ==> !token.AckFlying? && !ask.AskFirst?)
    ensures x.Viewer? ==> !token.EndFlying?
    ensures var st := s.End(x).stack.below; !(st.On? && st.top.Handler?)
  {
    hide OpenCalls, Nest, Counted;
  }

  // A return changes nothing but its own side's dispatch_depth and the handler on top of its stack.
  lemma ReturnFrame(s: System, x: Side)
    requires Enabled(s, DoReturn(x))
    ensures var s' := Apply(s, DoReturn(x));
      && s'.toV == s.toV && s'.toW == s.toW && s'.history == s.history
      && s'.End(Other(x)) == s.End(Other(x)) && s'.End(x) == Return(s.End(x))
      && Unwound(s'.End(x).stack)
         == (if TopIsHandler(s'.End(x).stack, Replied) then s'.End(x).stack.below else Unwound(s.End(x).stack))
  {
  }

  lemma ReturnKeepsControl(s: System, x: Side, side: Side, base: Base, ask: Ask)
    requires Enabled(s, DoReturn(x)) && HoldsAt(s, side, base, ask) && x != side
    requires var st := s.End(x).stack.below; !(st.On? && st.top.Handler?)
    ensures HoldsAt(Apply(s, DoReturn(x)), side, base, ask)
  {
    ReturnFrame(s, x);
    hide Core, OpenCalls, Nest, Apply, Enabled;
  }

  lemma ReturnKeepsFlight(s: System, x: Side, token: Token, base: Base, ask: Ask)
    requires Enabled(s, DoReturn(x)) && Holds(s, token, base, ask) && !token.At? && token != StartFlying(x)
    requires var st := s.End(x).stack.below; !(st.On? && st.top.Handler?)
    requires (x.Wrapper? ==> !token.AckFlying?) && (x.Viewer? ==> !token.EndFlying?)
    ensures Holds(Apply(s, DoReturn(x)), token, base, ask)
  {
    ReturnFrame(s, x);
    hide Core, OpenCalls, Nest, HoldsAt, Apply, Enabled;
  }

  lemma ReturnKeepsHolds(s: System, x: Side, token: Token, base: Base, ask: Ask)
    requires Enabled(s, DoReturn(x)) && Coherent(s, token, base, ask)
    ensures Holds(Apply(s, DoReturn(x)), token, base, ask)
  {
    ReturnerIsBlocked(s, x, token, base, ask);
    hide HoldsAt, HoldsStart, HoldsReply, HoldsAck, HoldsEnd, Apply, Enabled, Grounded;
    if token.At? { ReturnKeepsControl(s, x, token.side, base, ask); }
    else { ReturnKeepsFlight(s, x, token, base, ask); }
  }

  lemma ReturnKeepsGrounded(s: System, x: Side, token: Token, base: Base, ask: Ask)
    requires Enabled(s, DoReturn(x)) && Coherent(s, token, base, ask)
    ensures Grounded(Apply(s, DoReturn(x)), token, base, ask)
  {
    ReturnerIsBlocked(s, x, token, base, ask);
    ReturnFrame(s, x);
    hide Holds, Apply, Enabled;
  }

  lemma KeepsReturn(s: System, x: Side, token: Token, base: Base, ask: Ask)
    requires Enabled(s, DoReturn(x)) && Coherent(s, token, base, ask)
    ensures Coherent(Apply(s, DoReturn(x)), token, base, ask)
  {
    hide Holds, Grounded, Apply, Enabled;
    ReturnKeepsHolds(s, x, token, base, ask);
    ReturnKeepsGrounded(s, x, token, base, ask);
  }

  lemma KeepsPendingSync(s: System, token: Token, base: Base, ask: Ask) returns (token': Token, ask': Ask)
    requires Enabled(s, DoPendingSync) && Coherent(s, token, base, ask)
    ensures Coherent(Apply(s, DoPendingSync), token', base, ask')
  {
    hide OpenCalls;
    token', ask' := token, ask;
    if s.w.stack.Bottom? && ask.AskDeferred? {
      token', ask' := AckFlying, NoAsk;
    }
  }

  lemma KeepsSync(s: System, token: Token, base: Base, ask: Ask) returns (base': Base, ask': Ask)
    requires Enabled(s, DoSync) && Coherent(s, token, base, ask)
    ensures Coherent(Apply(s, DoSync), token, base', ask')
  {
    hide OpenCalls;
    base', ask' := Asking, if token.ReplyFlying? || token.EndFlying? then AskLast else AskFirst;
  }

  lemma KeepsEndSync(s: System, token: Token, base: Base, ask: Ask)
    requires Enabled(s, DoEndSync) && Coherent(s, token, base, ask)
    ensures Coherent(Apply(s, DoEndSync), EndFlying, base, ask)
  {
    hide OpenCalls;
  }

  lemma DispatchFrame(s: System, x: Side)
    requires Enabled(s, DoDispatch(x))
    ensures var s', out := Apply(s, DoDispatch(x)), Dispatch(s.End(x), s.Inbound(x)[0]);
      && s'.End(x) == out.end && s'.End(Other(x)) == s.End(Other(x)) && s'.history == s.history
      && s'.Inbound(x) == s.Inbound(x)[1..] && s'.Inbound(Other(x)) == s.Inbound(Other(x)) + out.sent
  {
  }

  // What an event loop can find to read: a call for an idle viewer, or the viewer's SYNC.
  lemma WhatIsDispatched(s: System, x: Side, token: Token, base: Base, ask: Ask)
    requires Enabled(s, DoDispatch(x)) && Coherent(s, token, base, ask)
    ensures x.Viewer? ==> token == StartFlying(Wrapper) && s.toV[0].Start?
    ensures x.Wrapper? ==> token == At(Wrapper) && ask.AskFirst? && s.toW == [Sync] && s.w.stack.Bottom?
  {
    hide OpenCalls, Nest, Counted;
  }

  lemma DispatchCall(s: System, base: Base, ask: Ask)
    requires Enabled(s, DoDispatch(Viewer)) && Coherent(s, StartFlying(Wrapper), base, ask)
    ensures Coherent(Apply(s, DoDispatch(Viewer)), At(Viewer), base, ask)
  {
    DispatchFrame(s, Viewer);
    hide Apply, OpenCalls;
  }

  lemma DispatchAsk(s: System, base: Base)
    requires Enabled(s, DoDispatch(Wrapper)) && Coherent(s, At(Wrapper), base, AskFirst)
      && s.toW == [Sync] && s.w.stack.Bottom?
    ensures Coherent(Apply(s, DoDispatch(Wrapper)), AckFlying, base, NoAsk)
  {
    DispatchFrame(s, Wrapper);
    hide Apply, OpenCalls;
  }

  lemma KeepsDispatch(s: System, x: Side, token: Token, base: Base, ask: Ask)
    returns (token': Token, ask': Ask)
    requires Enabled(s, DoDispatch(x)) && Coherent(s, token, base, ask)
    ensures Coherent(Apply(s, DoDispatch(x)), token', base, ask')
  {
    hide Coherent, Apply;
    WhatIsDispatched(s, x, token, base, ask);
    if x.Viewer? {
      token', ask' := At(Viewer), ask;
      DispatchCall(s, base, ask);
    } else {
      token', ask' := AckFlying, NoAsk;
      DispatchAsk(s, base);
    }
  }

  lemma ReadFrame(s: System, x: Side)
    requires Enabled(s, DoRead(x))
    ensures var s' := Apply(s, DoRead(x));
      && s'.End(x) == ReadUntil(s.End(x), s.Inbound(x)[0]) && s'.End(Other(x)) == s.End(Other(x))
      && s'.Inbound(x) == s.Inbound(x)[1..] && s'.Inbound(Other(x)) == s.Inbound(Other(x))
      && s'.history == s.history + DoneReading(s, x)
  {
  }

  // A SYNC is read by the wrapper only, in a call it made from its event loop, and has not been put off before.
  lemma SyncReader(s: System, x: Side, token: Token, base: Base, ask: Ask)
    requires Enabled(s, DoRead(x)) && Coherent(s, token, base, ask) && s.Inbound(x)[0].Sync?
    ensures x.Wrapper? && ask.AskFirst? && (token.At? || token.StartFlying? || token == ReplyFlying(Wrapper))
    ensures s.w.stack.top.Await? && s.w.stack.below.Bottom?
  {
    hide OpenCalls, Nest, Counted;
  }

  lemma SyncPutOff(s: System, token: Token, base: Base)
    requires Enabled(s, DoRead(Wrapper)) && Coherent(s, token, base, AskFirst) && s.toW[0].Sync?
    requires token.At? || token.StartFlying? || token == ReplyFlying(Wrapper)
    requires s.w.stack.top.Await? && s.w.stack.below.Bottom?
    ensures Holds(Apply(s, DoRead(Wrapper)), token, base, AskDeferred)
  {
    ReadFrame(s, Wrapper);
    assert s.history + [] == s.history;
    hide Apply, OpenCalls, Nest, Core, Counted;
  }

  lemma SyncPutOffGrounded(s: System, token: Token, base: Base)
    requires Enabled(s, DoRead(Wrapper)) && Coherent(s, token, base, AskFirst) && s.toW[0].Sync?
    requires s.w.stack.top.Await? && s.w.stack.below.Bottom?
    ensures Grounded(Apply(s, DoRead(Wrapper)), token, base, AskDeferred)
  {
    ReadFrame(s, Wrapper);
    assert Awaits(s.w.stack.below) == 0;
    assert s.w.invokeDepth == 1;
    hide Apply, Holds;
  }

  lemma KeepsReadSync(s: System, x: Side, token: Token, base: Base, ask: Ask)
    requires Enabled(s, DoRead(x)) && Coherent(s, token, base, ask) && s.Inbound(x)[0].Sync?
    ensures Coherent(Apply(s, DoRead(x)), token, base, AskDeferred)
  {
    hide Holds, Grounded, Apply;
    SyncReader(s, x, token, base, ask);
    SyncPutOff(s, token, base);
    SyncPutOffGrounded(s, token, base);
  }

  lemma StartReadIsControl(s: System, x: Side, token: Token, base: Base, ask: Ask)
    requires Waiting(s.End(x).stack) && s.Inbound(x) != [] && s.Inbound(x)[0].Start?
    requires Coherent(s, token, base, ask)
    ensures token == StartFlying(Other(x)) && (x.Wrapper? ==> !ask.AskFirst?)
    ensures s.End(Other(x)).stack.top.call == s.Inbound(x)[0].call
  {
    hide OpenCalls, Nest, Counted;
  }

  lemma ReadStartKeepsGrounded(s: System, x: Side, base: Base, ask: Ask)
    requires Enabled(s, DoRead(x)) && Grounded(s, StartFlying(Other(x)), base, ask) && s.Inbound(x)[0].Start?
    requires x.Wrapper? ==> !ask.AskFirst?
    ensures Grounded(Apply(s, DoRead(x)), At(x), base, ask)
  {
    ReadFrame(s, x);
    hide Apply;
  }

  // A handler entered on top of a blocked stack is in control, and serves the call its caller waits for.
  lemma HandlerOnWait(base: Base, x: Side, callee: Stack, caller: Stack)
    requires caller.On? && caller.top.Await? && (caller.top.call.bare ==> caller.top.argsSent) && Resting(caller.below)
    requires Core(base, Other(x), caller.below, callee)
    ensures Core(base, x, On(Handler(caller.top.call, Entered), callee), caller)
    ensures Nest(On(Handler(caller.top.call, Entered), callee), caller)
      == [caller.top.call] + Nest(caller.below, callee)
  {
  }

  lemma ReadStartFrame(s: System, x: Side)
    requires Enabled(s, DoRead(x)) && s.Inbound(x)[0].Start?
    ensures var s' := Apply(s, DoRead(x));
      && s'.End(x).stack == On(Handler(s.Inbound(x)[0].call, Entered), s.End(x).stack)
      && s'.End(Other(x)) == s.End(Other(x)) && s'.history == s.history
      && s'.Inbound(x) == s.Inbound(x)[1..] && s'.Inbound(Other(x)) == s.Inbound(Other(x))
  {
    ReadFrame(s, x);
    assert s.history + [] == s.history;
    hide Apply;
  }

  lemma ReadStartKeepsHolds(s: System, x: Side, base: Base, ask: Ask)
    requires Enabled(s, DoRead(x)) && HoldsStart(s, Other(x), base, ask) && s.Inbound(x)[0].Start?
    requires x.Wrapper? ==> !ask.AskFirst?
    ensures HoldsAt(Apply(s, DoRead(x)), x, base, ask)
  {
    ReadStartFrame(s, x);
    HandlerOnWait(base, x, Unwound(s.End(x).stack), s.End(Other(x)).stack);
    hide Apply, OpenCalls, Core, Nest;
  }

  lemma KeepsReadStart(s: System, x: Side, token: Token, base: Base, ask: Ask)
    requires Enabled(s, DoRead(x)) && Coherent(s, token, base, ask) && s.Inbound(x)[0].Start?
    ensures Coherent(Apply(s, DoRead(x)), At(x), base, ask)
  {
    hide HoldsAt, HoldsStart, HoldsReply, HoldsAck, HoldsEnd, Grounded, Apply;
    StartReadIsControl(s, x, token, base, ask);
    ReadStartKeepsGrounded(s, x, base, ask);
    ReadStartKeepsHolds(s, x, base, ask);
  }

  // The reply read by a wait is the one sent for its call.
  lemma ReplyReadIsOwn(s: System, x: Side, token: Token, base: Base, ask: Ask)
    requires Waiting(s.End(x).stack) && s.Inbound(x) != [] && s.Inbound(x)[0].Reply?
    requires Coherent(s, token, base, ask)
    ensures token == ReplyFlying(x) && s.End(x).stack.top == Await(s.Inbound(x)[0].call, true)
  {
    hide OpenCalls, Nest, Counted;
  }

  lemma ReadReplyKeepsGrounded(s: System, x: Side, base: Base, ask: Ask)
    requires Enabled(s, DoRead(x)) && s.Inbound(x)[0].Reply? && Coherent(s, ReplyFlying(x), base, ask)
    requires s.End(x).stack.top == Await(s.Inbound(x)[0].call, true)
    ensures Grounded(Apply(s, DoRead(x)), At(x), base, if ask.AskLast? then AskFirst else ask)
  {
    ReadFrame(s, x);
    hide Apply, Core, OpenCalls, Nest;
  }

  lemma ReadReplyKeepsHolds(s: System, x: Side, base: Base, ask: Ask)
    requires Enabled(s, DoRead(x)) && s.Inbound(x)[0].Reply? && HoldsReply(s, x, base, ask)
    requires s.End(x).stack.top == Await(s.Inbound(x)[0].call, true)
    ensures HoldsAt(Apply(s, DoRead(x)), x, base, if ask.AskLast? then AskFirst else ask)
  {
    ReadFrame(s, x);
    var call := s.End(x).stack.top.call;
    OpenCallsStep(s.history, Returned(x, call, call));
    hide Apply, Core, OpenCalls, Nest, AtBase;
  }

  lemma KeepsReadReply(s: System, x: Side, token: Token, base: Base, ask: Ask)
    requires Enabled(s, DoRead(x)) && Coherent(s, token, base, ask) && s.Inbound(x)[0].Reply?
    ensures Coherent(Apply(s, DoRead(x)), At(x), base, if ask.AskLast? then AskFirst else ask)
  {
    ReplyReadIsOwn(s, x, token, base, ask);
    hide HoldsAt, HoldsStart, HoldsReply, HoldsAck, HoldsEnd, Grounded, Apply;
    ReadReplyKeepsGrounded(s, x, base, ask);
    ReadReplyKeepsHolds(s, x, base, ask);
  }

  lemma AckRead(s: System, x: Side, token: Token, base: Base, ask: Ask)
    requires Enabled(s, DoRead(x)) && Coherent(s, token, base, ask) && s.Inbound(x)[0].SyncAck?
    ensures token.AckFlying? && x.Viewer?
  {
    hide OpenCalls, Nest, Counted;
  }

  lemma KeepsReadAck(s: System, x: Side, token: Token, base: Base, ask: Ask)
    requires Enabled(s, DoRead(x)) && Coherent(s, token, base, ask) && s.Inbound(x)[0].SyncAck?
    ensures Coherent(Apply(s, DoRead(x)), At(Viewer), Synced, ask)
  {
    AckRead(s, x, token, base, ask);
    ReadFrame(s, x);
    assert s.history + [] == s.history;
    hide Apply, OpenCalls;
  }

  lemma EndRead(s: System, x: Side, token: Token, base: Base, ask: Ask)
    requires Enabled(s, DoRead(x)) && Coherent(s, token, base, ask) && s.Inbound(x)[0].SyncEnd?
    ensures token.EndFlying? && x.Wrapper?
  {
    hide OpenCalls, Nest, Counted;
  }

  lemma KeepsReadEnd(s: System, x: Side, token: Token, base: Base, ask: Ask)
    requires Enabled(s, DoRead(x)) && Coherent(s, token, base, ask) && s.Inbound(x)[0].SyncEnd?
    ensures ask.NoAsk? ==> Coherent(Apply(s, DoRead(x)), At(Wrapper), Quiet, NoAsk)
    ensures !ask.NoAsk? ==> Coherent(Apply(s, DoRead(x)), At(Wrapper), Asking, AskFirst)
  {
    EndRead(s, x, token, base, ask);
    ReadFrame(s, x);
    assert s.history + [] == s.history;
    hide Apply, OpenCalls;
  }

  lemma ReadIsNotArgs(s: System, x: Side, token: Token, base: Base, ask: Ask)
    requires Enabled(s, DoRead(x)) && Coherent(s, token, base, ask)
    ensures !s.Inbound(x)[0].Args?
  {
    hide OpenCalls, Nest, Counted;
  }

  lemma KeepsRead(s: System, x: Side, token: Token, base: Base, ask: Ask)
    requires Enabled(s, DoRead(x)) && Coherent(s, token, base, ask)
    ensures Inv(Apply(s, DoRead(x)))
  {
    ReadIsNotArgs(s, x, token, base, ask);
    match s.Inbound(x)[0]
    case Sync => KeepsReadSync(s, x, token, base, ask);
    case Start(_) => KeepsReadStart(s, x, token, base, ask);
    case Reply(_) => KeepsReadReply(s, x, token, base, ask);
    case SyncAck => KeepsReadAck(s, x, token, base, ask);
    case SyncEnd => KeepsReadEnd(s, x, token, base, ask);
    case Args(_) =>
  }

  /** Every enabled step keeps the invariant. */
  lemma StepKeepsInv(s: System, a: Action)
    requires Inv(s) && Enabled(s, a)
    ensures Inv(Apply(s, a))
  {
    var token, base, ask :| Coherent(s, token, base, ask);
    match a
    case DoInvoke(x, bare) => KeepsInvoke(s, x, bare, token, base, ask);
    case DoSendArgs(x) => KeepsSendArgs(s, x, token, base, ask);
    case DoGetArgs(x) => KeepsGetArgs(s, x, token, base, ask);
    case DoReply(x) => KeepsReply(s, x, token, base, ask);
    case DoReturn(x) => KeepsReturn(s, x, token, base, ask);
    case DoRead(x) => KeepsRead(s, x, token, base, ask);
    case DoDispatch(x) => var t, k := KeepsDispatch(s, x, token, base, ask);
    case DoPendingSync => var t, k := KeepsPendingSync(s, token, base, ask);
    case DoSync => var b, k := KeepsSync(s, token, base, ask);
    case DoEndSync => KeepsEndSync(s, token, base, ask);
  }

  lemma {:induction false} RunKeepsInv(s: System, run: seq<Action>)
    requires Inv(s) && Legal(s, run)
    ensures Inv(Run(s, run))
    decreases |run|
  {
    if run != [] {
      StepKeepsInv(s, run[0]);
      RunKeepsInv(Apply(s, run[0]), run[1..]);
    }
  }
}
