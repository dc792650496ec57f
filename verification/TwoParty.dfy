/** The wrapper and the viewer joined by two first-in first-out streams.

    `Apply` performs one step of one end: application code starting a call, a handler moving on, a
    blocked loop reading a frame, or a main loop (the browser's, src/rpc.c:2098-2184; the viewer's,
    src/npw-viewer.c:4977-5009) choosing what to do. A run is any sequence of enabled steps from the
    freshly opened connection. */
module TwoParty {
  import opened RpcEndpoint
  import opened Wrappers

  datatype Side = Wrapper | Viewer

  function Other(side: Side): Side {
    if side.Wrapper? then Viewer else Wrapper
  }

  // What an observer of both ends notes down: a call begun, and a wait ended by the reply sent for `reply`.
  datatype Event = Called(side: Side, call: CallId) | Returned(side: Side, call: CallId, reply: CallId)

  datatype System = System(w: Endpoint, v: Endpoint, toV: seq<Frame>, toW: seq<Frame>,
                           calls: nat, history: seq<Event>) {
    function End(side: Side): Endpoint {
      if side.Wrapper? then w else v
    }

    function Inbound(side: Side): seq<Frame> {
      if side.Wrapper? then toW else toV
    }

    function Put(side: Side, out: Outcome): System {
      if side.Wrapper? then this.(w := out.end, toV := toV + out.sent)
      else this.(v := out.end, toW := toW + out.sent)
    }

    function Take(side: Side): System
      requires Inbound(side) != []
    {
      if side.Wrapper? then this.(toW := toW[1..]) else this.(toV := toV[1..])
    }
  }

  const INITIAL := System(NewEndpoint(Client), NewEndpoint(Server), [], [], 0, [])

  datatype Action =
    | DoInvoke(side: Side, bare: bool) // application code makes a call, with arguments or without
    | DoSendArgs(side: Side)
    | DoGetArgs(side: Side)
    | DoReply(side: Side)
    | DoReturn(side: Side)
    | DoRead(side: Side)        // a blocked end reads one frame
    | DoDispatch(side: Side)    // an event loop calls rpc_dispatch() because the socket is readable
    | DoPendingSync             // the browser's event loop calls rpc_dispatch_pending_sync()
    | DoSync                    // the viewer's main loop has something to dispatch
    | DoEndSync                 // ... and has dispatched it

  // Whose step it is.
  function Actor(a: Action): Side {
    match a
    case DoPendingSync => Wrapper
    case DoSync => Viewer
    case DoEndSync => Viewer
    case _ => a.side
  }

  // Application code runs in the browser's event loop, in a viewer that was granted a SYNC, and in handlers.
  predicate RunsApplication(s: System, side: Side) {
    var e := s.End(side);
    if e.stack.Bottom? then side.Wrapper? || e.isSync else e.stack.top.Handler?
  }

  // The browser may also run its event loop inside a handler. The viewer tracks its socket outside glib,
  // so only its main loop reads from it unasked.
  predicate AtEventLoop(s: System, side: Side) {
    var e := s.End(side);
    (e.stack.Bottom? && !e.isSync) || (side.Wrapper? && TopIsHandler(e.stack, Running))
  }

  predicate Enabled(s: System, a: Action) {
    && s.w.status.Active? && s.v.status.Active?
    && match a
       case DoInvoke(x, _) => RunsApplication(s, x)
       case DoSendArgs(x) => s.End(x).stack.On? && s.End(x).stack.top.Await? && !s.End(x).stack.top.argsSent
       case DoGetArgs(x) =>
         TopIsHandler(s.End(x).stack, Entered) && (s.End(x).stack.top.call.bare || s.Inbound(x) != [])
       case DoReply(x) => TopIsHandler(s.End(x).stack, Running)
       case DoReturn(x) => TopIsHandler(s.End(x).stack, Replied)
       case DoRead(x) => Waiting(s.End(x).stack) && s.Inbound(x) != []
       case DoDispatch(x) => AtEventLoop(s, x) && s.Inbound(x) != []
       case DoPendingSync => AtEventLoop(s, Wrapper)
       case DoSync => s.v.stack.Bottom? && !s.v.isSync
       case DoEndSync => s.v.stack.Bottom? && s.v.isSync
  }

  function DoneReading(s: System, side: Side): seq<Event>
    requires Waiting(s.End(side).stack) && s.Inbound(side) != []
  {
    var top, read := s.End(side).stack.top, s.Inbound(side)[0];
    if top.Await? && read.Reply? then [Returned(side, top.call, read.call)] else []
  }

  function Apply(s: System, a: Action): System
    requires Enabled(s, a)
  {
    match a
    case DoInvoke(x, bare) =>
      var call := CallId(s.calls, bare);
      var out := TryInvoke(s.End(x), call);
      if out.sent == [] then s.Put(x, out)
      else s.Put(x, out).(calls := s.calls + 1, history := s.history + [Called(x, call)])
    case DoSendArgs(x) => s.Put(x, SendArgs(s.End(x)))
    case DoGetArgs(x) =>
      if s.End(x).stack.top.call.bare then s.Put(x, Outcome(GetNoArgs(s.End(x)), []))
      else s.Take(x).Put(x, Outcome(GetArgs(s.End(x), s.Inbound(x)[0]), []))
    case DoReply(x) => s.Put(x, SendReply(s.End(x)))
    case DoReturn(x) => s.Put(x, Outcome(Return(s.End(x)), []))
    case DoRead(x) =>
      s.Take(x).Put(x, Outcome(ReadUntil(s.End(x), s.Inbound(x)[0]), []))
      .(history := s.history + DoneReading(s, x))
    case DoDispatch(x) => s.Take(x).Put(x, Dispatch(s.End(x), s.Inbound(x)[0]))
    case DoPendingSync => s.Put(Wrapper, DispatchPendingSync(s.w, s.toW == []))
    case DoSync => s.Put(Viewer, RequestSync(s.v))
    case DoEndSync => s.Put(Viewer, EndSync(s.v))
  }

  predicate Legal(s: System, run: seq<Action>)
    decreases |run|
  {
    run == [] || (Enabled(s, run[0]) && Legal(Apply(s, run[0]), run[1..]))
  }

  function Run(s: System, run: seq<Action>): System
    requires Legal(s, run)
    decreases |run|
  {
    if run == [] then s else Run(Apply(s, run[0]), run[1..])
  }

  /** Two runs one after the other are one run. */
  lemma {:induction false} RunsConcatenate(s: System, a: seq<Action>, b: seq<Action>)
    requires Legal(s, a) && Legal(Run(s, a), b)
    ensures Legal(s, a + b) && Run(s, a + b) == Run(Run(s, a), b)
    decreases |a|
  {
    hide Apply, Enabled;
    if a == [] {
      assert a + b == b;
    } else {
      RunsConcatenate(Apply(s, a[0]), a[1..], b);
      assert (a + b)[0] == a[0] && (a + b)[1..] == a[1..] + b;
    }
  }

  // The calls still open according to the history, innermost first; None once an answer goes to the wrong call.
  function OpenCalls(history: seq<Event>): Option<seq<CallId>>
    decreases |history|
  {
    if history == [] then Some([])
    else
      var before := OpenCalls(history[..|history| - 1]);
      if before.None? then None
      else match history[|history| - 1]
        case Called(_, c) => Some([c] + before.value)
        case Returned(_, c, r) =>
          if c == r && before.value != [] && before.value[0] == c then Some(before.value[1..]) else None
  }

  lemma OpenCallsStep(history: seq<Event>, event: Event)
    ensures OpenCalls(history + [event]) ==
      (var before := OpenCalls(history);
       if before.None? then None
       else match event
         case Called(_, c) => Some([c] + before.value)
         case Returned(_, c, r) =>
           if c == r && before.value != [] && before.value[0] == c then Some(before.value[1..]) else None)
  {
    var h := history + [event];
    assert h[..|h| - 1] == history;
  }

  /** The loop of _rpc_dispatch_until() on the frames at hand is a run of single reads. */
  lemma {:induction false} DrainingIsReading(s: System, x: Side) returns (run: seq<Action>)
    requires s.w.status.Active? && s.v.status.Active? && Waiting(s.End(x).stack)
    ensures Legal(s, run) && forall a :: a in run ==> a == DoRead(x)
    ensures DrainUntil(s.End(x), s.Inbound(x), false) == (Run(s, run).End(x), Run(s, run).Inbound(x))
    ensures Run(s, run).End(Other(x)) == s.End(Other(x)) && Run(s, run).Inbound(Other(x)) == s.Inbound(Other(x))
    decreases |s.Inbound(x)|
  {
    run := [];
    if s.Inbound(x) != [] {
      var rest := [];
      if KeepsReading(s.End(x), s.Inbound(x)[0]) {
        rest := DrainingIsReading(Apply(s, DoRead(x)), x);
      }
      run := [DoRead(x)] + rest;
      assert run[1..] == rest;
    }
  }
}
