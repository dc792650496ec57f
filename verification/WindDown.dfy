/** Progress of the two-party protocol: once nobody asks for anything new, every run comes to rest.

    Starting a call and asking for a SYNC are requests. All other steps serve requests already made. */
module WindDown {
  import opened RpcEndpoint
  import opened TwoParty
  import opened SyncProtocol
  import opened ProtocolTheorems
  import opened Wrappers

  predicate Serves(s: System, a: Action)
    requires Enabled(s, a)
  {
    && !a.DoInvoke? && !a.DoSync?
    && (a.DoPendingSync? ==> DispatchPendingSync(s.w, s.toW == []).sent != [])
  }

  predicate ServingRun(s: System, run: seq<Action>)
    decreases |run|
  {
    run == [] || (Enabled(s, run[0]) && Serves(s, run[0]) && ServingRun(Apply(s, run[0]), run[1..]))
  }

  predicate AtRest(s: System) {
    && s.w.stack.Bottom? && s.v.stack.Bottom?
    && s.toV == [] && s.toW == []
    && !s.v.isSync && s.w.pendingSyncDepth == 0
  }

  function ActivationWeight(a: Activation): nat {
    match a
    case Await(_, sent) => if sent then 1 else 3
    case Handler(_, phase) => if phase.Entered? then 4 else if phase.Running? then 3 else 1
    case AwaitAck => 2
    case AwaitEnd => 1
  }

  function StackWeight(st: Stack): nat {
    if st.Bottom? then 0 else ActivationWeight(st.top) + StackWeight(st.below)
  }

  function FrameWeight(f: Frame): nat {
    if f.Start? then 5 else if f.Sync? then 4 else 1
  }

  function WireWeight(frames: seq<Frame>): nat {
    if frames == [] then 0 else FrameWeight(frames[0]) + WireWeight(frames[1..])
  }

  lemma {:induction false} WireWeightAdd(a: seq<Frame>, b: seq<Frame>)
    ensures WireWeight(a + b) == WireWeight(a) + WireWeight(b)
  {
    if a == [] {
      assert a + b == b;
    } else {
      WireWeightAdd(a[1..], b);
      assert (a + b)[0] == a[0] && (a + b)[1..] == a[1..] + b;
    }
  }

  function EndWeight(e: Endpoint): nat {
    StackWeight(e.stack) + (if e.isSync then 2 else 0) + (if e.pendingSyncDepth != 0 then 3 else 0)
  }

  // An upper bound on the steps still owed.
  function Owed(s: System): nat {
    EndWeight(s.w) + EndWeight(s.v) + WireWeight(s.toV) + WireWeight(s.toW)
  }

  lemma OwedAfterSending(s: System, x: Side, out: Outcome)
    requires |out.sent| <= 1
    requires EndWeight(out.end) + (if out.sent == [] then 0 else FrameWeight(out.sent[0])) < EndWeight(s.End(x))
    ensures Owed(s.Put(x, out)) < Owed(s)
  {
    WireWeightAdd(s.toV, out.sent);
    WireWeightAdd(s.toW, out.sent);
  }

  lemma OwedAfterReading(s: System, x: Side, out: Outcome)
    requires s.Inbound(x) != [] && |out.sent| <= 1
    requires EndWeight(out.end) + (if out.sent == [] then 0 else FrameWeight(out.sent[0]))
      < EndWeight(s.End(x)) + FrameWeight(s.Inbound(x)[0])
    ensures Owed(s.Take(x).Put(x, out)) < Owed(s)
  {
    WireWeightAdd(s.Take(x).toV, out.sent);
    WireWeightAdd(s.Take(x).toW, out.sent);
  }

  lemma SendingShrinks(s: System, a: Action)
    requires Enabled(s, a) && Serves(s, a) && !a.DoRead? && !a.DoDispatch? && !a.DoGetArgs?
    ensures Owed(Apply(s, a)) < Owed(s)
  {
    match a
    case DoSendArgs(x) => OwedAfterSending(s, x, SendArgs(s.End(x)));
    case DoReply(x) => OwedAfterSending(s, x, SendReply(s.End(x)));
    case DoReturn(x) => OwedAfterSending(s, x, Outcome(Return(s.End(x)), []));
    case DoPendingSync => OwedAfterSending(s, Wrapper, DispatchPendingSync(s.w, s.toW == []));
    case DoEndSync => OwedAfterSending(s, Viewer, EndSync(s.v));
    case _ =>
  }

  lemma ReadingShrinks(s: System, x: Side)
    requires Enabled(s, DoRead(x))
    ensures Owed(Apply(s, DoRead(x))) < Owed(s)
  {
    OwedAfterReading(s, x, Outcome(ReadUntil(s.End(x), s.Inbound(x)[0]), []));
  }

  /** Every step that serves a request leaves less to be done, whatever state it is taken in. */
  lemma ServingShrinks(s: System, a: Action)
    requires Enabled(s, a) && Serves(s, a)
    ensures Owed(Apply(s, a)) < Owed(s)
  {
    match a
    case DoGetArgs(x) =>
      if s.End(x).stack.top.call.bare { OwedAfterSending(s, x, Outcome(GetNoArgs(s.End(x)), [])); }
      else { OwedAfterReading(s, x, Outcome(GetArgs(s.End(x), s.Inbound(x)[0]), [])); }
    case DoRead(x) => ReadingShrinks(s, x);
    case DoDispatch(x) => OwedAfterReading(s, x, Dispatch(s.End(x), s.Inbound(x)[0]));
    case _ => SendingShrinks(s, a);
  }

  // A side that has replied can return, whatever the token.
  lemma NextServingStep(s: System, token: Token, base: Base, ask: Ask) returns (a: Action)
    requires Coherent(s, token, base, ask) && !AtRest(s)
    ensures Enabled(s, a) && Serves(s, a)
  {
    if TopIsHandler(s.w.stack, Replied) {
      a := DoReturn(Wrapper);
    } else if TopIsHandler(s.v.stack, Replied) {
      a := DoReturn(Viewer);
    } else {
      match token
      case At(side) => a := NextAt(s, side, base, ask);
      case StartFlying(from) =>
        a := if !s.End(from).stack.top.argsSent then DoSendArgs(from)
             else if s.End(Other(from)).stack.Bottom? then DoDispatch(Viewer) else DoRead(Other(from));
      case ReplyFlying(target) => a := DoRead(target);
      case AckFlying => a := DoRead(Viewer);
      case EndFlying => a := DoRead(Wrapper);
    }
  }

  lemma NextAt(s: System, side: Side, base: Base, ask: Ask) returns (a: Action)
    requires Coherent(s, At(side), base, ask) && !AtRest(s)
    requires !TopIsHandler(s.w.stack, Replied) && !TopIsHandler(s.v.stack, Replied)
    ensures Enabled(s, a) && Serves(s, a)
  {
    var r := s.End(side).stack;
    if TopIsHandler(r, Running) {
      a := DoReply(side);
    } else if TopIsHandler(r, Entered) {
      a := if s.End(Other(side)).stack.top.argsSent then DoGetArgs(side) else DoSendArgs(Other(side));
    } else if side.Viewer? {
      a := DoEndSync;
    } else if ask.AskDeferred? {
      a := DoPendingSync;
    } else {
      a := DoDispatch(Wrapper);
    }
  }

  lemma {:induction false} ServingIsLegal(s: System, run: seq<Action>)
    requires ServingRun(s, run)
    ensures Legal(s, run)
    decreases |run|
  {
    if run != [] {
      ServingIsLegal(Apply(s, run[0]), run[1..]);
    }
  }

  /** No livelock: from any state, only boundedly many steps serve requests already made. */
  lemma {:induction false} ServingRunsEnd(s: System, run: seq<Action>)
    requires ServingRun(s, run)
    ensures |run| <= Owed(s)
    decreases |run|
  {
    if run != [] {
      ServingShrinks(s, run[0]);
      ServingRunsEnd(Apply(s, run[0]), run[1..]);
    }
  }

  lemma {:induction false} ReachesRest(s: System) returns (run: seq<Action>)
    requires Inv(s)
    ensures ServingRun(s, run) && Legal(s, run) && AtRest(Run(s, run))
    decreases Owed(s)
  {
    if AtRest(s) {
      run := [];
    } else {
      var token, base, ask :| Coherent(s, token, base, ask);
      var a := NextServingStep(s, token, base, ask);
      ServingShrinks(s, a);
      StepKeepsInv(s, a);
      var rest := ReachesRest(Apply(s, a));
      run := [a] + rest;
      assert run[1..] == rest;
    }
  }

  lemma NoOpenCallsAtRest(s: System)
    requires Inv(s) && AtRest(s)
    ensures OpenCalls(s.history) == Some([])
  {
    hide OpenCalls;
    var token, base, ask :| Coherent(s, token, base, ask);
  }

  /** From every reachable state all open calls and syncs can be completed without a new request:
      whatever run of serving steps is taken first, it can be continued until both event loops idle with
      nothing on the wire. */
  lemma EveryStateWindsDown(s: System, first: seq<Action>) returns (rest: seq<Action>)
    requires Reachable(s) && ServingRun(s, first)
    ensures Legal(s, first) && ServingRun(Run(s, first), rest) && Legal(Run(s, first), rest)
    ensures var s' := Run(Run(s, first), rest);
      && s'.w.stack == Bottom && s'.v.stack == Bottom && s'.toV == [] && s'.toW == []
      && !s'.v.isSync && s'.w.pendingSyncDepth == 0 && OpenCalls(s'.history) == Some([])
    ensures |first| <= Owed(s)
  {
    ReachableInv(s);
    ServingIsLegal(s, first);
    RunKeepsInv(s, first);
    ServingRunsEnd(s, first);
    rest := ReachesRest(Run(s, first));
    RunKeepsInv(Run(s, first), rest);
    NoOpenCallsAtRest(Run(Run(s, first), rest));
  }
}
