/** What an endpoint does about frames that should not arrive, requests that should not be made, and a peer that
    is gone. */
module ConnectionErrors {
  import opened RpcEndpoint

  // The same connection with another status.
  predicate OnlyStatus(e': Endpoint, e: Endpoint, status: Status) {
    && e'.status == status
    && e'.kind == e.kind && e'.dispatchDepth == e.dispatchDepth && e'.invokeDepth == e.invokeDepth
    && e'.handleDepth == e.handleDepth && e'.isSync == e.isSync && e'.pendingSyncDepth == e.pendingSyncDepth
    && e'.stack == e.stack
  }

  /** An error breaks an active connection, a closed stream closes it, and nothing changes one that is neither;
      after that no call can be made. */
  lemma ErrorsEndConnections(e: Endpoint, call: CallId)
    ensures OnlyStatus(Close(e), e, if e.status == Active then Closed else e.status)
    ensures OnlyStatus(Fail(e), e, if e.status == Active then Broken else e.status)
    ensures OnlyStatus(Abort(e), e, Aborted)
    ensures !InvokePossible(Close(e)) && !InvokePossible(Fail(e)) && !InvokePossible(Abort(e))
    ensures TryInvoke(Close(e), call) == Outcome(Close(e), []) && TryInvoke(Fail(e), call) == Outcome(Fail(e), [])
  {
  }

  /** No step makes a connection active again. */
  lemma NeverActiveAgain(e: Endpoint, call: CallId, read: Frame, quiet: bool)
    requires e.status != Active
    ensures TryInvoke(e, call).end.status != Active && Dispatch(e, read).end.status != Active
    ensures DispatchPendingSync(e, quiet).end.status != Active
    ensures RequestSync(e).end.status != Active && EndSync(e).end.status != Active
    ensures Waiting(e.stack) ==> ReadUntil(e, read).status != Active && Complete(e).status != Active
    ensures e.stack.On? && e.stack.top.Await? ==> SendArgs(e).end.status != Active
    ensures TopIsHandler(e.stack, Entered) ==> GetArgs(e, read).status != Active && GetNoArgs(e).status != Active
    ensures TopIsHandler(e.stack, Running) ==> SendReply(e).end.status != Active
    ensures TopIsHandler(e.stack, Replied) ==> Return(e).status != Active
  {
  }

  /** Calls can be made on an active connection from outside all handlers that have not taken their arguments or
      have given their results. */
  lemma CallsNeedAnActiveConnection(e: Endpoint)
    ensures InvokePossible(e) <==> e.status == Active && e.dispatchDepth == e.handleDepth
  {
  }

  /** Waiting for a reply, for SYNC_ACK or for SYNC_END, any other of these breaks the connection, as do
      arguments. */
  lemma UnexpectedFramesBreak(e: Endpoint, read: Frame)
    requires e.status == Active && Waiting(e.stack)
    requires match read
      case Reply(_) => !e.stack.top.Await?
      case SyncAck => !e.stack.top.AwaitAck?
      case SyncEnd => !e.stack.top.AwaitEnd?
      case Args(_) => true
      case _ => false
    ensures OnlyStatus(ReadUntil(e, read), e, Broken)
  {
  }

  /** A SYNC is put off by a client that has not put one off already, with the number of its open calls, and
      breaks the connection of anyone else. */
  lemma SyncsArePutOff(e: Endpoint)
    requires e.status == Active && Waiting(e.stack)
    ensures if e.kind == Client && e.pendingSyncDepth == 0
            then ReadUntil(e, Sync) == e.(pendingSyncDepth := e.invokeDepth)
            else OnlyStatus(ReadUntil(e, Sync), e, Broken)
  {
  }

  /** An event loop takes calls and SYNC requests, and nothing else. */
  lemma EventLoopsTakeRequests(e: Endpoint, read: Frame, call: CallId)
    requires e.status == Active
    ensures !read.Sync? && !read.Start? ==>
      OnlyStatus(Dispatch(e, read).end, e, Broken) && Dispatch(e, read).sent == []
    ensures Dispatch(e, Sync) == Outcome(e.(stack := On(AwaitEnd, e.stack)), [SyncAck])
    ensures Dispatch(e, Start(call)) ==
      Outcome(e.(dispatchDepth := e.dispatchDepth + 1, stack := On(Handler(call, Entered), e.stack)), [])
  {
  }

  /** A handler that does not find its arguments breaks the connection. */
  lemma HandlersNeedArguments(e: Endpoint, read: Frame)
    requires e.status == Active && TopIsHandler(e.stack, Entered) && !read.Args?
    ensures OnlyStatus(GetArgs(e, read), e.(handleDepth := e.handleDepth + 1), Broken)
  {
  }

  /** When the stream ends while an endpoint waits, the connection is closed. */
  lemma EndOfStreamCloses(e: Endpoint)
    requires e.status == Active && Waiting(e.stack)
    ensures var (e', rest) := DrainUntil(e, [], true); OnlyStatus(e', e, Closed) && rest == []
    ensures DrainUntil(e, [], false) == (e, [])
  {
  }

  /** A sync is asked for only if none is granted and ended only if one is. */
  lemma SyncsAreNotNested(e: Endpoint)
    requires e.status == Active
    ensures if e.isSync then OnlyStatus(RequestSync(e).end, e, Aborted) && RequestSync(e).sent == []
            else RequestSync(e) == Outcome(e.(stack := On(AwaitAck, e.stack)), [Sync])
    ensures if e.isSync then EndSync(e) == Outcome(e.(isSync := false), [SyncEnd])
            else OnlyStatus(EndSync(e).end, e, Broken) && EndSync(e).sent == []
  {
  }

  /** A SYNC that was put off is acknowledged by the outermost event loop, once; nested loops leave it alone. The
      process ends if it was put off in a nested call or if there is still something to read. */
  lemma PendingSyncs(e: Endpoint, quiet: bool)
    requires e.status == Active
    ensures var out := DispatchPendingSync(e, quiet);
      if e.invokeDepth > 0 || e.handleDepth > 0 || e.pendingSyncDepth == 0 then out == Outcome(e, [])
      else if e.pendingSyncDepth == 1 && quiet then
        out == Outcome(e.(pendingSyncDepth := 0, stack := On(AwaitEnd, e.stack)), [SyncAck])
      else OnlyStatus(out.end, e, Aborted) && out.sent == []
  {
  }
}
