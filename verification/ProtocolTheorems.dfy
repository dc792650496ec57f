/** What holds of the two-party protocol in every state that any run reaches. */
module ProtocolTheorems {
  import opened RpcEndpoint
  import opened TwoParty
  import opened SyncProtocol

  ghost predicate Reachable(s: System) {
    exists run :: Legal(INITIAL, run) && Run(INITIAL, run) == s
  }

  lemma ReachableInv(s: System)
    requires Reachable(s)
    ensures Inv(s)
  {
    var run :| Legal(INITIAL, run) && Run(INITIAL, run) == s;
    InitiallyCoherent();
    RunKeepsInv(INITIAL, run);
  }

  // --- One side at a time ---

  // An end that may go on: its event loop (the viewer's only inside a granted sync), or a handler
  // that has not replied yet.
  predicate HasControl(s: System, side: Side) {
    var e := s.End(side);
    if e.stack.Bottom? then side.Wrapper? || e.isSync
    else TopIsHandler(e.stack, Entered) || TopIsHandler(e.stack, Running)
  }

  predicate MovesControl(f: Frame) {
    f.Start? || f.Reply? || f.SyncAck? || f.SyncEnd?
  }

  function ControlFrames(frames: seq<Frame>): nat {
    if frames == [] then 0 else (if MovesControl(frames[0]) then 1 else 0) + ControlFrames(frames[1..])
  }

  function Controls(s: System): nat {
    (if HasControl(s, Wrapper) then 1 else 0) + (if HasControl(s, Viewer) then 1 else 0)
    + ControlFrames(s.toV) + ControlFrames(s.toW)
  }

  /** In every reachable state exactly one of these holds: the wrapper has control, the viewer has
      control, or one control-moving frame is in flight. A SYNC may be in flight beside it, but only one,
      and only to the wrapper. */
  lemma SingleControlToken(s: System)
    requires Reachable(s)
    ensures Controls(s) == 1
    ensures Sync !in s.toV && AtMostOneSync(s.toW)
  {
    ReachableInv(s);
    var token, base, ask :| Coherent(s, token, base, ask);
    TokenIsSingle(s, token, base, ask);
  }

  predicate AtMostOneSync(frames: seq<Frame>) {
    forall i, j :: 0 <= i < j < |frames| ==> !(frames[i].Sync? && frames[j].Sync?)
  }

  lemma {:induction false} ControlFramesAdd(a: seq<Frame>, b: seq<Frame>)
    ensures ControlFrames(a + b) == ControlFrames(a) + ControlFrames(b)
  {
    if a == [] {
      assert a + b == b;
    } else {
      ControlFramesAdd(a[1..], b);
      assert (a + b)[0] == a[0] && (a + b)[1..] == a[1..] + b;
    }
  }

  // A SYNC and an argument list move no control.
  lemma ControlFramesCarried(ask: Ask, first: seq<Frame>, sent: bool, call: CallId)
    ensures ControlFrames(WithAsk(ask, first)) == ControlFrames(first)
    ensures ControlFrames(ArgsFrames(sent, call)) == 0
    ensures ControlFrames(first + ArgsFrames(sent, call)) == ControlFrames(first)
    ensures ControlFrames(WithAsk(ask, first + ArgsFrames(sent, call))) == ControlFrames(first)
  {
    assert ControlFrames([Sync]) == 0 && ControlFrames([Args(call)]) == 0;
    ControlFramesAdd([Sync], first);
    ControlFramesAdd(first, [Sync]);
    ControlFramesAdd(first, ArgsFrames(sent, call));
    ControlFramesAdd([Sync], first + ArgsFrames(sent, call));
    ControlFramesAdd(first + ArgsFrames(sent, call), [Sync]);
  }

  function Moving(token: Token, call: CallId): seq<Frame> {
    match token
    case At(_) => []
    case StartFlying(_) => [Start(call)]
    case ReplyFlying(_) => [Reply(call)]
    case AckFlying => [SyncAck]
    case EndFlying => [SyncEnd]
  }

  function Target(token: Token): Side {
    match token
    case At(side) => side
    case StartFlying(from) => Other(from)
    case ReplyFlying(target) => target
    case AckFlying => Viewer
    case EndFlying => Wrapper
  }

  predicate OnWire(s: System, token: Token, ask: Ask, sent: bool, call: CallId) {
    var fs := Moving(token, call) + ArgsFrames(sent, call);
    && s.Inbound(Target(token)) == (if Target(token).Wrapper? then WithAsk(ask, fs) else fs)
    && s.Inbound(Other(Target(token))) == (if Target(token).Wrapper? then [] else WithAsk(ask, []))
  }

  // What is on the wire, read off the token.
  lemma FramesOfToken(s: System, token: Token, base: Base, ask: Ask) returns (sent: bool, call: CallId)
    requires Coherent(s, token, base, ask)
    ensures OnWire(s, token, ask, sent, call) && (sent ==> token.At? || token.StartFlying?)
  {
    sent, call := false, CallId(0, false);
    match token
    case At(side) =>
      var r, b := s.End(side).stack, Unwound(s.End(Other(side)).stack);
      if TopIsHandler(r, Entered) { sent, call := b.top.argsSent, r.top.call; }
    case StartFlying(from) => sent, call := s.End(from).stack.top.argsSent, s.End(from).stack.top.call;
    case ReplyFlying(target) => call := Unwound(s.End(target).stack).top.call;
    case AckFlying =>
    case EndFlying =>
  }

  lemma ControlOfToken(s: System, token: Token, base: Base, ask: Ask)
    requires Coherent(s, token, base, ask)
    ensures HasControl(s, Wrapper) <==> token == At(Wrapper)
    ensures HasControl(s, Viewer) <==> token == At(Viewer)
  {
  }

  lemma OneSyncCarried(ask: Ask, frames: seq<Frame>)
    requires Sync !in frames
    ensures AtMostOneSync(WithAsk(ask, frames))
  {
  }

  lemma FramesOnWire(s: System, token: Token, ask: Ask, sent: bool, call: CallId)
    requires OnWire(s, token, ask, sent, call)
    ensures ControlFrames(s.toV) + ControlFrames(s.toW) == (if token.At? then 0 else 1)
  {
    ControlFramesCarried(ask, Moving(token, call), sent, call);
    ControlFramesCarried(ask, [], sent, call);
    assert ControlFrames(Moving(token, call)) == if token.At? then 0 else 1;
  }

  lemma SyncOnWire(s: System, token: Token, ask: Ask, sent: bool, call: CallId)
    requires OnWire(s, token, ask, sent, call)
    ensures Sync !in s.toV && AtMostOneSync(s.toW)
  {
    var frames := Moving(token, call) + ArgsFrames(sent, call);
    assert Sync !in Moving(token, call) && Sync !in ArgsFrames(sent, call);
    OneSyncCarried(ask, frames);
    OneSyncCarried(ask, []);
  }

  lemma TokenIsSingle(s: System, token: Token, base: Base, ask: Ask)
    requires Coherent(s, token, base, ask)
    ensures Controls(s) == 1
    ensures Sync !in s.toV && AtMostOneSync(s.toW)
  {
    ControlOfToken(s, token, base, ask);
    var sent, call := FramesOfToken(s, token, base, ask);
    FramesOnWire(s, token, ask, sent, call);
    SyncOnWire(s, token, ask, sent, call);
  }

  /** Application code on both sides is never free to make a call at the same time. */
  lemma OneCallerAtATime(s: System)
    requires Reachable(s)
    ensures !(RunsApplication(s, Wrapper) && InvokePossible(s.w) && RunsApplication(s, Viewer) && InvokePossible(s.v))
  {
    ReachableInv(s);
    var token, base, ask :| Coherent(s, token, base, ask);
    if RunsApplication(s, Wrapper) && InvokePossible(s.w) && RunsApplication(s, Viewer) && InvokePossible(s.v) {
      InvokerHasControl(s, Wrapper, token, base, ask);
      InvokerHasControl(s, Viewer, token, base, ask);
    }
  }

  // --- Replies meet their calls ---

  /** The reply a wait reads is the one sent for its own call, whatever was nested in between. */
  lemma ReplyMeetsItsCall(s: System, x: Side)
    requires Reachable(s) && Waiting(s.End(x).stack) && s.Inbound(x) != [] && s.Inbound(x)[0].Reply?
    ensures s.End(x).stack.top == Await(s.Inbound(x)[0].call, true)
  {
    ReachableInv(s);
    var token, base, ask :| Coherent(s, token, base, ask);
    ReplyReadIsOwn(s, x, token, base, ask);
  }

  // Calls are numbered in the order they begin.
  predicate NumberedInOrder(s: System) {
    && (forall i :: 0 <= i < |s.history| && s.history[i].Called? ==> s.history[i].call.number < s.calls)
    && (forall i, j :: 0 <= i < j < |s.history| && s.history[i].Called? && s.history[j].Called? ==>
          s.history[i].call.number < s.history[j].call.number)
  }

  lemma {:induction false} RunNumbersInOrder(s: System, run: seq<Action>)
    requires NumberedInOrder(s) && Legal(s, run)
    ensures NumberedInOrder(Run(s, run))
    decreases |run|
  {
    if run != [] {
      RunNumbersInOrder(Apply(s, run[0]), run[1..]);
    }
  }

  lemma {:induction false} BracketedReturns(history: seq<Event>, i: nat)
    requires OpenCalls(history).Some? && i < |history| && history[i].Returned?
    ensures history[i].call == history[i].reply
    decreases |history|
  {
    if i < |history| - 1 {
      BracketedReturns(history[..|history| - 1], i);
    }
  }

  /** Both ends' calls together form one well-bracketed history: calls end in the opposite order they
      began, each with the reply sent for it, and no two calls share a number. */
  lemma HistoryIsWellBracketed(s: System)
    requires Reachable(s)
    ensures OpenCalls(s.history).Some?
    ensures forall i :: 0 <= i < |s.history| && s.history[i].Returned? ==> s.history[i].call == s.history[i].reply
    ensures NumberedInOrder(s)
  {
    ReachableInv(s);
    var token, base, ask :| Coherent(s, token, base, ask);
    assert OpenCalls(s.history).Some?;
    forall i | 0 <= i < |s.history| && s.history[i].Returned?
      ensures s.history[i].call == s.history[i].reply
    {
      BracketedReturns(s.history, i);
    }
    var run :| Legal(INITIAL, run) && Run(INITIAL, run) == s;
    RunNumbersInOrder(INITIAL, run);
  }

  // --- No protocol error, no deadlock ---

  /** No run meets a tag it answers with an error, and no assert() fails: both ends stay active. */
  lemma NoProtocolError(s: System)
    requires Reachable(s)
    ensures s.w.status.Active? && s.v.status.Active?
  {
    ReachableInv(s);
  }

  /** Whatever is read is what its reader can read there: by a wait the tag it waits for, a call, or a SYNC that can
      be put off; by an event loop a call or a SYNC; by a handler its own arguments. */
  lemma FramesAreExpected(s: System, x: Side)
    requires Reachable(s) && s.Inbound(x) != []
    ensures Waiting(s.End(x).stack) ==>
      match s.Inbound(x)[0]
      case Start(_) => true
      case Sync => x == Wrapper && s.w.kind == Client && s.w.pendingSyncDepth == 0
      case Reply(call) => s.End(x).stack.top == Await(call, true)
      case SyncAck => s.End(x).stack.top == AwaitAck
      case SyncEnd => s.End(x).stack.top == AwaitEnd
      case Args(_) => false
    ensures AtEventLoop(s, x) ==> s.Inbound(x)[0].Start? || s.Inbound(x)[0].Sync?
    ensures TopIsHandler(s.End(x).stack, Entered) && !s.End(x).stack.top.call.bare ==>
      s.Inbound(x)[0] == Args(s.End(x).stack.top.call)
  {
    ReachableInv(s);
    var token, base, ask :| Coherent(s, token, base, ask);
    FramesExpectedCoherent(s, x, token, base, ask);
  }

  lemma FramesExpectedCoherent(s: System, x: Side, token: Token, base: Base, ask: Ask)
    requires Coherent(s, token, base, ask) && s.Inbound(x) != []
    ensures Waiting(s.End(x).stack) ==>
      match s.Inbound(x)[0]
      case Start(_) => true
      case Sync => x == Wrapper && s.w.kind == Client && s.w.pendingSyncDepth == 0
      case Reply(call) => s.End(x).stack.top == Await(call, true)
      case SyncAck => s.End(x).stack.top == AwaitAck
      case SyncEnd => s.End(x).stack.top == AwaitEnd
      case Args(_) => false
    ensures AtEventLoop(s, x) ==> s.Inbound(x)[0].Start? || s.Inbound(x)[0].Sync?
    ensures TopIsHandler(s.End(x).stack, Entered) && !s.End(x).stack.top.call.bare ==>
      s.Inbound(x)[0] == Args(s.End(x).stack.top.call)
  {
    hide OpenCalls, Nest, Counted;
    if AtEventLoop(s, x) { WhatIsDispatched(s, x, token, base, ask); }
    if TopIsHandler(s.End(x).stack, Entered) && !s.End(x).stack.top.call.bare {
      GetterHasControl(s, x, token, base, ask);
    }
  }

  // In recv(): waiting for a tag, or in rpc_method_get_args().
  predicate InReceive(e: Endpoint) {
    Waiting(e.stack) || (TopIsHandler(e.stack, Entered) && !e.stack.top.call.bare)
  }

  /** The two ends are never both in recv() with nothing under way. */
  lemma NoDeadlock(s: System)
    requires Reachable(s) && InReceive(s.w) && InReceive(s.v)
    ensures s.toV != [] || s.toW != []
  {
    ReachableInv(s);
    var token, base, ask :| Coherent(s, token, base, ask);
    NoDeadlockCoherent(s, token, base, ask);
  }

  lemma NoDeadlockCoherent(s: System, token: Token, base: Base, ask: Ask)
    requires Coherent(s, token, base, ask) && InReceive(s.w) && InReceive(s.v)
    ensures s.toV != [] || s.toW != []
  {
  }

  // --- Deferred acknowledgement ---

  /** At most one SYNC is put off; none is read while waiting for SYNC_END or put off twice; and when the
      browser's event loop sends the delayed SYNC_ACK, nothing is left to read and the viewer is at its
      outermost wait for it, or has only to return there from a handler that has replied. A nested event loop
      leaves the pending SYNC alone. */
  lemma DeferredAckIsSound(s: System)
    requires Reachable(s)
    ensures s.w.pendingSyncDepth == 0 || s.w.pendingSyncDepth == 1
    ensures s.w.stack.On? && s.w.stack.top.AwaitEnd? && s.toW != [] ==> s.toW[0] != Sync
    ensures Sync in s.toW ==> s.w.pendingSyncDepth == 0
    ensures s.w.pendingSyncDepth == 1 && s.w.stack.Bottom? ==> s.toW == [] && Unwound(s.v.stack) == On(AwaitAck, Bottom)
    ensures TopIsHandler(s.w.stack, Running) ==>
      DispatchPendingSync(s.w, s.toW == []) == Outcome(s.w, []) && s.toW == []
  {
    ReachableInv(s);
    var token, base, ask :| Coherent(s, token, base, ask);
    DeferredAckCoherent(s, token, base, ask);
  }

  lemma DeferredAckCoherent(s: System, token: Token, base: Base, ask: Ask)
    requires Coherent(s, token, base, ask)
    ensures s.w.stack.On? && s.w.stack.top.AwaitEnd? && s.toW != [] ==> s.toW[0] != Sync
    ensures Sync in s.toW ==> s.w.pendingSyncDepth == 0
    ensures s.w.pendingSyncDepth == 1 && s.w.stack.Bottom? ==> s.toW == [] && Unwound(s.v.stack) == On(AwaitAck, Bottom)
    ensures TopIsHandler(s.w.stack, Running) ==> s.toW == []
  {
  }

  /** The deferral does happen: a SYNC can cross a call of the wrapper on the wire, and is then put off. */
  lemma SyncCrossesCall() returns (s: System)
    ensures Reachable(s) && s.w.pendingSyncDepth == 1 && s.w.stack == On(Await(CallId(0, false), true), Bottom)
    ensures s.toV == [Start(CallId(0, false)), Args(CallId(0, false))] && s.v.stack == On(AwaitAck, Bottom)
  {
    var s1 := Apply(INITIAL, DoInvoke(Wrapper, false));
    var s2 := Apply(s1, DoSync);
    var s3 := Apply(s2, DoSendArgs(Wrapper));
    s := Apply(s3, DoRead(Wrapper));
    var run := [DoInvoke(Wrapper, false), DoSync, DoSendArgs(Wrapper), DoRead(Wrapper)];
    assert run[1..] == [DoSync, DoSendArgs(Wrapper), DoRead(Wrapper)];
    assert run[1..][1..] == [DoSendArgs(Wrapper), DoRead(Wrapper)];
    assert run[1..][1..][1..] == [DoRead(Wrapper)];
    assert Legal(s3, [DoRead(Wrapper)]) && Run(s3, [DoRead(Wrapper)]) == s;
    assert Legal(s2, run[1..][1..]) && Run(s2, run[1..][1..]) == s;
    assert Legal(s1, run[1..]) && Run(s1, run[1..]) == s;
    assert Legal(INITIAL, run) && Run(INITIAL, run) == s;
  }

  // --- Depth counters ---

  // Every handler below the top of a stack has read its arguments and not replied.
  predicate Settled(st: Stack) {
    st.On? ==> (st.top.Handler? ==> st.top.phase.Running?) && Settled(st.below)
  }

  lemma {:induction false} SettledCounts(st: Stack)
    requires Settled(st)
    ensures Handlers(st) == RunningHandlers(st)
  {
    if st.On? {
      SettledCounts(st.below);
    }
  }

  lemma {:induction false} CoreSettles(base: Base, ctl: Side, r: Stack, b: Stack)
    requires Core(base, ctl, r, b)
    ensures r.On? ==> Settled(r.below)
    ensures Settled(b)
    decreases Depth(r) + Depth(b)
  {
    if r.On? {
      CoreSettles(base, Other(ctl), b.below, r.below);
    }
  }

  lemma StacksSettle(s: System, x: Side)
    requires Inv(s)
    ensures s.End(x).stack.On? ==> Settled(s.End(x).stack.below)
  {
    var token, base, ask :| Coherent(s, token, base, ask);
    match token
    case At(side) => CoreSettles(base, side, s.End(side).stack, Unwound(s.End(Other(side)).stack));
    case StartFlying(from) => CoreSettles(base, from, s.End(from).stack.below, Unwound(s.End(Other(from)).stack));
    case ReplyFlying(target) =>
      CoreSettles(base, target, Unwound(s.End(target).stack).below, Unwound(s.End(Other(target)).stack));
    case AckFlying =>
    case EndFlying =>
  }

  lemma DepthsOfInv(s: System, x: Side)
    requires Inv(s)
    ensures var e := s.End(x);
      var outside := TopIsHandler(e.stack, Entered) || TopIsHandler(e.stack, Replied);
      && e.dispatchDepth == e.handleDepth + (if outside then 1 else 0)
      && (InvokePossible(e) <==> !outside)
  {
    StacksSettle(s, x);
    if s.End(x).stack.On? {
      SettledCounts(s.End(x).stack.below);
    }
  }

  /** handle_depth equals dispatch_depth everywhere except in a handler that has not read its arguments
      or has already replied, where it is one less; so rpc_method_invoke_possible() is false exactly there. */
  lemma DepthsBracket(s: System, x: Side)
    requires Reachable(s)
    ensures var e := s.End(x);
      var outside := TopIsHandler(e.stack, Entered) || TopIsHandler(e.stack, Replied);
      && e.dispatchDepth == e.handleDepth + (if outside then 1 else 0)
      && (InvokePossible(e) <==> !outside)
  {
    hide Inv;
    ReachableInv(s);
    DepthsOfInv(s, x);
  }

  // The calls an end waits for were begun from the bottom of its stack to the top.
  predicate Descending(st: Stack, bound: nat) {
    st.On? ==>
      if st.top.Await? then st.top.call.number < bound && Descending(st.below, st.top.call.number)
      else Descending(st.below, bound)
  }

  lemma {:induction false} DescendingWeakens(st: Stack, bound: nat, bound': nat)
    requires Descending(st, bound) && bound <= bound'
    ensures Descending(st, bound')
  {
    if st.On? && !st.top.Await? {
      DescendingWeakens(st.below, bound, bound');
    }
  }

  predicate BothDescend(s: System) {
    Descending(s.w.stack, s.calls) && Descending(s.v.stack, s.calls)
  }

  predicate SameWait(st': Stack, st: Stack) {
    st.On? && st'.On? && st'.below == st.below && st'.top.Await? == st.top.Await?
    && (st.top.Await? ==> st'.top.call == st.top.call)
  }

  // What one step can do to a stack: nothing, change its top, push, or pop.
  predicate Evolves(st': Stack, st: Stack, calls': nat, calls: nat) {
    && calls <= calls'
    && (st' == st || SameWait(st', st)
        || (st'.On? && st'.below == st && (st'.top.Await? ==> st'.top.call.number == calls < calls'))
        || (st.On? && st' == st.below))
  }

  predicate EndsWait(s: System, a: Action, x: Side) {
    a == DoRead(x) && s.Inbound(x) != [] && s.Inbound(x)[0].Reply?
  }

  lemma StepEvolves(s: System, a: Action, x: Side)
    requires Enabled(s, a)
    ensures Evolves(Apply(s, a).End(x).stack, s.End(x).stack, Apply(s, a).calls, s.calls)
  {
  }

  // A wait is popped by the reply it waits for, and by nothing else.
  lemma StepKeepsTopWait(s: System, a: Action, x: Side)
    requires Enabled(s, a) && s.End(x).stack.On? && s.End(x).stack.top.Await?
    requires !(EndsWait(s, a, x) && s.End(x).stack.top.argsSent)
    ensures var st, st' := s.End(x).stack, Apply(s, a).End(x).stack;
      st' == st || SameWait(st', st) || (st'.On? && st'.below == st)
  {
  }

  lemma EvolvingDescends(st': Stack, st: Stack, calls': nat, calls: nat)
    requires Evolves(st', st, calls', calls) && Descending(st, calls)
    ensures Descending(st', calls')
  {
    DescendingWeakens(st, calls, calls');
    if st.On? {
      DescendingWeakens(st.below, if st.top.Await? then st.top.call.number else calls, calls');
    }
  }

  lemma StepDescends(s: System, a: Action)
    requires BothDescend(s) && Enabled(s, a)
    ensures BothDescend(Apply(s, a))
  {
    hide Apply, Enabled, Evolves, Descending;
    StepEvolves(s, a, Wrapper);
    StepEvolves(s, a, Viewer);
    EvolvingDescends(Apply(s, a).w.stack, s.w.stack, Apply(s, a).calls, s.calls);
    EvolvingDescends(Apply(s, a).v.stack, s.v.stack, Apply(s, a).calls, s.calls);
  }

  // The wait for `call` lies in st, directly on top of `below`.
  predicate WaitsOn(st: Stack, call: CallId, below: Stack) {
    st.On? && ((st.top.Await? && st.top.call == call && st.below == below) || WaitsOn(st.below, call, below))
  }

  lemma {:induction false} WaitIsNotAbove(st: Stack, call: CallId, below: Stack, bound: nat)
    requires Descending(st, bound) && WaitsOn(st, call, below)
    ensures call.number < bound
  {
    if !(st.top.Await? && st.top.call == call && st.below == below) {
      WaitIsNotAbove(st.below, call, below, if st.top.Await? then st.top.call.number else bound);
    }
  }

  // A step leaves a wait where it is, unless it is the step that ends it.
  lemma StepKeepsWait(s: System, a: Action, x: Side, call: CallId, below: Stack)
    requires Enabled(s, a) && BothDescend(s) && WaitsOn(s.End(x).stack, call, below)
    requires !(a == DoRead(x) && s.End(x).stack.top == Await(call, true) && s.Inbound(x)[0].Reply?)
    ensures WaitsOn(Apply(s, a).End(x).stack, call, below)
  {
    StepEvolves(s, a, x);
    var st := s.End(x).stack;
    if st.top.Await? && st.top.call == call {
      StepKeepsTopWait(s, a, x);
      if st.below != below {
        WaitIsNotAbove(st.below, call, below, call.number);
      }
    }
    hide Apply;
  }

  lemma {:induction false} RunKeepsWait(s: System, run: seq<Action>, x: Side, call: CallId, below: Stack)
    requires Legal(s, run) && BothDescend(s) && WaitsOn(s.End(x).stack, call, below) && StaysOpen(s, run, x, call)
    ensures WaitsOn(Run(s, run).End(x).stack, call, below) && BothDescend(Run(s, run))
    decreases |run|
  {
    if run != [] {
      StepKeepsWait(s, run[0], x, call, below);
      StepDescends(s, run[0]);
      RunKeepsWait(Apply(s, run[0]), run[1..], x, call, below);
    }
  }

  // No step of the run ends the wait of side x for `call`.
  predicate StaysOpen(s: System, run: seq<Action>, x: Side, call: CallId)
    requires Legal(s, run)
    decreases |run|
  {
    run == [] ||
    (!(run[0] == DoRead(x) && s.End(x).stack.top == Await(call, true) && s.Inbound(x)[0].Reply?)
     && StaysOpen(Apply(s, run[0]), run[1..], x, call))
  }

  /** A completed call leaves its caller's C stack and all three depth counters as they were when it
      began, however many calls in both directions the run in between made. */
  lemma CallRestoresDepths(s: System, x: Side, bare: bool, run: seq<Action>)
    requires Reachable(s) && Enabled(s, DoInvoke(x, bare)) && InvokePossible(s.End(x))
    requires Legal(Apply(s, DoInvoke(x, bare)), run)
      && StaysOpen(Apply(s, DoInvoke(x, bare)), run, x, CallId(s.calls, bare))
    requires var last := Run(Apply(s, DoInvoke(x, bare)), run);
      && Enabled(last, DoRead(x)) && last.End(x).stack.top == Await(CallId(s.calls, bare), true)
      && last.Inbound(x)[0].Reply?
    ensures var e, e' := s.End(x), Apply(Run(Apply(s, DoInvoke(x, bare)), run), DoRead(x)).End(x);
      && e'.stack == e.stack
      && e'.dispatchDepth == e.dispatchDepth && e'.invokeDepth == e.invokeDepth && e'.handleDepth == e.handleDepth
  {
    var before :| Legal(INITIAL, before) && Run(INITIAL, before) == s;
    RunDescends(INITIAL, before);
    ReachableInv(s);
    StepDescends(s, DoInvoke(x, bare));
    var begun := Apply(s, DoInvoke(x, bare));
    RunKeepsWait(begun, run, x, CallId(s.calls, bare), s.End(x).stack);
    var last := Run(begun, run);
    StepKeepsInv(s, DoInvoke(x, bare));
    RunKeepsInv(begun, run);
    StepKeepsInv(last, DoRead(x));
    if last.End(x).stack.below != s.End(x).stack {
      WaitIsNotAbove(last.End(x).stack.below, CallId(s.calls, bare), s.End(x).stack, s.calls);
    }
  }

  lemma {:induction false} RunDescends(s: System, run: seq<Action>)
    requires BothDescend(s) && Legal(s, run)
    ensures BothDescend(Run(s, run))
    decreases |run|
  {
    if run != [] {
      StepDescends(s, run[0]);
      RunDescends(Apply(s, run[0]), run[1..]);
    }
  }
}
