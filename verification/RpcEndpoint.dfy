/** One end of an RPC connection (src/rpc.c), as a value.

    `Endpoint` holds the fields of `struct rpc_connection` that the protocol reads and writes, and the
    C call stack as far as it matters: which waits and which handlers are active. Each function below is
    what one stretch of C code between two blocking points does to those fields, and what it puts on
    the wire. Class `RpcConnection.Connection` carries out the same steps field by field.

    Call numbers are for specification only. They tag frames so that a reply can be traced back to its
    call; no function branches on them (`RepliesAreUntagged`). */
module RpcEndpoint {
  // `bare`: the method called takes no arguments, as both ends know from the method.
  datatype CallId = CallId(number: nat, bare: bool)

  // The wrapper connects as client, the viewer listens as server.
  datatype Kind = Client | Server

  // Aborted stands for a process ended by a failed assert().
  datatype Status = Active | Closed | Broken | Aborted

  // What travels on the wire. A Start is MESSAGE_START <method> MESSAGE_END, flushed on its own; Args is
  // the argument list flushed after it, if there is one; Reply is MESSAGE_REPLY <args> MESSAGE_END.
  datatype Frame =
    | Start(call: CallId)
    | Args(call: CallId)
    | Reply(call: CallId)
    | Sync
    | SyncAck
    | SyncEnd

  // Where a dispatched handler is: before rpc_method_get_args(), between it and
  // rpc_method_send_reply(), or after that.
  datatype Phase = Entered | Running | Replied

  datatype Activation =
    | Await(call: CallId, argsSent: bool) // rpc_method_invoke() up to the end of rpc_method_wait_for_reply()
    | Handler(call: CallId, phase: Phase) // a callback run by _rpc_dispatch()
    | AwaitAck                            // rpc_sync()
    | AwaitEnd                            // _rpc_dispatch_sync()

  datatype Stack = Bottom | On(top: Activation, below: Stack)

  datatype Endpoint = Endpoint(
    kind: Kind,
    status: Status,
    dispatchDepth: int,
    invokeDepth: int,
    handleDepth: int,
    isSync: bool,
    pendingSyncDepth: int,
    stack: Stack)

  // An endpoint together with the frames a step appended to its outgoing stream.
  datatype Outcome = Outcome(end: Endpoint, sent: seq<Frame>)

  function NewEndpoint(kind: Kind): Endpoint {
    Endpoint(kind, Active, 0, 0, 0, false, 0, Bottom)
  }

  // rpc_error(): any error but a closed connection breaks an active one for good.
  function Fail(e: Endpoint): Endpoint {
    if e.status.Active? then e.(status := Broken) else e
  }

  // rpc_error() for a connection that the peer has closed.
  function Close(e: Endpoint): Endpoint {
    if e.status.Active? then e.(status := Closed) else e
  }

  function Abort(e: Endpoint): Endpoint {
    e.(status := Aborted)
  }

  predicate InvokePossible(e: Endpoint) {
    e.status.Active? && e.dispatchDepth == e.handleDepth
  }

  predicate TopIsHandler(st: Stack, phase: Phase) {
    st.On? && st.top.Handler? && st.top.phase == phase
  }

  // Blocked in _rpc_dispatch_until(): the argument list, if any, has been sent.
  predicate Waiting(st: Stack) {
    st.On? && (st.top.AwaitAck? || st.top.AwaitEnd? || (st.top.Await? && st.top.argsSent))
  }

  // Sending the header of a call, guarded as every caller guards it.
  function TryInvoke(e: Endpoint, call: CallId): Outcome {
    if !InvokePossible(e) then Outcome(e, [])
    else Outcome(e.(invokeDepth := e.invokeDepth + 1, stack := On(Await(call, call.bare), e.stack)), [Start(call)])
  }

  function SendArgs(e: Endpoint): Outcome
    requires e.stack.On? && e.stack.top.Await?
  {
    Outcome(e.(stack := On(Await(e.stack.top.call, true), e.stack.below)), [Args(e.stack.top.call)])
  }

  // rpc_method_get_args() for a method without arguments reads nothing.
  function GetNoArgs(e: Endpoint): Endpoint
    requires TopIsHandler(e.stack, Entered)
  {
    e.(handleDepth := e.handleDepth + 1, stack := On(Handler(e.stack.top.call, Running), e.stack.below))
  }

  // rpc_method_get_args(): handle_depth goes up before anything is read.
  function GetArgs(e: Endpoint, read: Frame): Endpoint
    requires TopIsHandler(e.stack, Entered)
  {
    var e' := e.(handleDepth := e.handleDepth + 1);
    if read.Args? then e'.(stack := On(Handler(e.stack.top.call, Running), e.stack.below)) else Fail(e')
  }

  function SendReply(e: Endpoint): Outcome
    requires TopIsHandler(e.stack, Running)
  {
    var call := e.stack.top.call;
    Outcome(e.(handleDepth := e.handleDepth - 1, stack := On(Handler(call, Replied), e.stack.below)), [Reply(call)])
  }

  // The handler returns to _rpc_dispatch().
  function Return(e: Endpoint): Endpoint
    requires TopIsHandler(e.stack, Replied)
  {
    e.(dispatchDepth := e.dispatchDepth - 1, stack := e.stack.below)
  }

  function EnterHandler(e: Endpoint, call: CallId): Endpoint {
    e.(dispatchDepth := e.dispatchDepth + 1, stack := On(Handler(call, Entered), e.stack))
  }

  predicate Expected(waiting: Activation, read: Frame) {
    match waiting
    case Await(_, _) => read.Reply?
    case AwaitAck => read.SyncAck?
    case AwaitEnd => read.SyncEnd?
    case Handler(_, _) => false
  }

  // Leaving the wait once the expected tag was read.
  function Complete(e: Endpoint): Endpoint
    requires Waiting(e.stack)
  {
    var e' := e.(stack := e.stack.below);
    match e.stack.top
    case Await(_, _) => e'.(invokeDepth := e.invokeDepth - 1)
    case AwaitAck => e'.(isSync := true)
    case AwaitEnd => e'
  }

  predicate SyncAllowed(e: Endpoint) {
    e.kind.Client? && e.pendingSyncDepth == 0
  }

  // One turn of the loop in _rpc_dispatch_until().
  function ReadUntil(e: Endpoint, read: Frame): Endpoint
    requires Waiting(e.stack)
  {
    if Expected(e.stack.top, read) then Complete(e)
    else match read
      case Sync => if SyncAllowed(e) then e.(pendingSyncDepth := e.invokeDepth) else Fail(e)
      case Start(call) => EnterHandler(e, call)
      case _ => Fail(e)
  }

  // _rpc_dispatch_sync() up to its first read.
  function AckSync(e: Endpoint): Outcome {
    Outcome(e.(stack := On(AwaitEnd, e.stack)), [SyncAck])
  }

  // rpc_dispatch().
  function Dispatch(e: Endpoint, read: Frame): Outcome {
    match read
    case Sync => AckSync(e)
    case Start(call) => Outcome(EnterHandler(e, call), [])
    case _ => Outcome(Fail(e), [])
  }

  // rpc_dispatch_pending_sync(); `quiet` is whether polling the socket finds nothing to read.
  function DispatchPendingSync(e: Endpoint, quiet: bool): Outcome {
    if e.invokeDepth > 0 || e.handleDepth > 0 || e.pendingSyncDepth == 0 then Outcome(e, [])
    else if e.pendingSyncDepth != 1 || !quiet then Outcome(Abort(e), [])
    else AckSync(e.(pendingSyncDepth := 0))
  }

  // rpc_sync() up to its first read.
  function RequestSync(e: Endpoint): Outcome {
    if e.isSync then Outcome(Abort(e), [])
    else Outcome(e.(stack := On(AwaitAck, e.stack)), [Sync])
  }

  // rpc_end_sync().
  function EndSync(e: Endpoint): Outcome {
    if !e.isSync then Outcome(Fail(e), [])
    else Outcome(e.(isSync := false), [SyncEnd])
  }

  // The loop of _rpc_dispatch_until() goes on by itself only after a SYNC.
  predicate KeepsReading(e: Endpoint, read: Frame)
    requires Waiting(e.stack)
  {
    read.Sync? && !Expected(e.stack.top, read) && SyncAllowed(e)
  }

  // _rpc_dispatch_until() run on the frames at hand, until it returns, calls a handler, blocks, or finds
  // the connection closed.
  function DrainUntil(e: Endpoint, inbound: seq<Frame>, closed: bool): (r: (Endpoint, seq<Frame>))
    requires Waiting(e.stack)
    decreases |inbound|
  {
    if inbound == [] then (if closed then Close(e) else e, inbound)
    else if KeepsReading(e, inbound[0]) then DrainUntil(ReadUntil(e, inbound[0]), inbound[1..], closed)
    else (ReadUntil(e, inbound[0]), inbound[1..])
  }

  /** Replies carry no sequence number: which call a reply was sent for has no effect on its reader. */
  lemma RepliesAreUntagged(e: Endpoint, c: CallId, d: CallId)
    requires Waiting(e.stack)
    ensures ReadUntil(e, Reply(c)) == ReadUntil(e, Reply(d))
    ensures Dispatch(e, Reply(c)) == Dispatch(e, Reply(d))
  {
    assert Expected(e.stack.top, Reply(c)) == Expected(e.stack.top, Reply(d));
  }
}
