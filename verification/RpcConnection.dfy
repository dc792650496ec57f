/** `struct rpc_connection` and the C functions that drive it, field by field.

    The blocking C functions are cut where they read from the socket or call a handler; `stack` records
    the activations the C stack would hold there. Each method leaves the state that the function of the
    same step in `RpcEndpoint` describes, so everything proved about runs of those steps holds for it. */
module RpcConnection {
  import opened RpcEndpoint

  // One direction of the socket.
  class Wire {
    var frames: seq<Frame>
    var closed: bool // whether the sender has closed it

    constructor ()
      ensures frames == [] && !closed
    {
      frames, closed := [], false;
    }
  }

  class Connection {
    const kind: Kind
    const inbound: Wire
    const outbound: Wire
    var status: Status
    var dispatchDepth: int
    var invokeDepth: int
    var handleDepth: int
    var isSync: bool
    var pendingSyncDepth: int
    var stack: Stack
    var errorCallback: nat // 0 for NULL
    var callbackRuns: nat  // how often the callback has been called

    constructor (kind: Kind, inbound: Wire, outbound: Wire)
      ensures this.kind == kind && this.inbound == inbound && this.outbound == outbound
      ensures View() == NewEndpoint(kind) && errorCallback == 0 && callbackRuns == 0
    {
      this.kind, this.inbound, this.outbound := kind, inbound, outbound;
      status := Active;
      dispatchDepth, invokeDepth, handleDepth := 0, 0, 0;
      isSync, pendingSyncDepth := false, 0;
      stack := Bottom;
      errorCallback, callbackRuns := 0, 0;
    }

    function View(): Endpoint
      reads this
    {
      Endpoint(kind, status, dispatchDepth, invokeDepth, handleDepth, isSync, pendingSyncDepth, stack)
    }

    // rpc_connection_set_error_callback(): the first one set stays.
    method SetErrorCallback(callback: nat)
      modifies this`errorCallback
      ensures errorCallback == if old(errorCallback) == 0 then callback else old(errorCallback)
    {
      if errorCallback == 0 {
        errorCallback := callback;
      }
    }

    predicate Failed()
      reads this
    {
      status.Closed? || status.Broken?
    }

    // How often the callback has been called after an error, if it had been called `runs` times before.
    function Told(runs: nat): nat
      reads this
    {
      if errorCallback != 0 && Failed() then runs + 1 else runs
    }

    // rpc_error(); closed stands for RPC_ERROR_CONNECTION_CLOSED, the error of a read from a closed connection
    method Error(closed: bool)
      modifies this`status, this`callbackRuns
      ensures View() == if closed then Close(old(View())) else Fail(old(View()))
      ensures status == if old(status) != Active then old(status) else if closed then Closed else Broken
      ensures callbackRuns == old(callbackRuns)
        + (if errorCallback != 0 && (status == Closed || status == Broken) then 1 else 0)
    {
      if status == Active {
        status := if closed then Closed else Broken;
      }
      if (status == Closed || status == Broken) && errorCallback != 0 {
        callbackRuns := callbackRuns + 1;
      }
    }

    method Send(frame: Frame)
      modifies outbound`frames
      ensures outbound.frames == old(outbound.frames) + [frame]
    {
      outbound.frames := outbound.frames + [frame];
    }

    method Receive() returns (frame: Frame)
      requires inbound.frames != []
      modifies inbound`frames
      ensures frame == old(inbound.frames)[0] && inbound.frames == old(inbound.frames)[1..]
    {
      frame := inbound.frames[0];
      inbound.frames := inbound.frames[1..];
    }

    // rpc_method_invoke_possible()
    method IsInvokePossible() returns (possible: bool)
      ensures possible == InvokePossible(View())
    {
      if status != Active {
        return false;
      }
      possible := dispatchDepth == handleDepth;
    }

    // rpc_method_invoke() up to the flush of the header; `call` is the caller's number for it.
    method Invoke(call: CallId) returns (begun: bool)
      modifies this`invokeDepth, this`stack, outbound`frames
      ensures var out := TryInvoke(old(View()), call);
        View() == out.end && outbound.frames == old(outbound.frames) + out.sent && begun == (out.sent != [])
    {
      begun := IsInvokePossible();
      if !begun {
        return;
      }
      invokeDepth := invokeDepth + 1;
      Send(Start(call));
      stack := On(Await(call, call.bare), stack);
    }

    // The rest of rpc_method_invoke(): the argument list.
    method SendArgs()
      requires stack.On? && stack.top.Await?
      modifies this`stack, outbound`frames
      ensures var out := RpcEndpoint.SendArgs(old(View()));
        View() == out.end && outbound.frames == old(outbound.frames) + out.sent
    {
      Send(Args(stack.top.call));
      stack := On(Await(stack.top.call, true), stack.below);
    }

    // rpc_method_get_args()
    method GetArgs()
      requires TopIsHandler(stack, Entered) && (stack.top.call.bare || inbound.frames != [] || inbound.closed)
      modifies this`status, this`handleDepth, this`stack, this`callbackRuns, inbound`frames
      ensures old(status).Active? ==> callbackRuns == Told(old(callbackRuns))
      ensures old(status) == Active && !old(stack.top.call.bare) ==>
        status == if old(inbound.frames) == [] then Closed else if old(inbound.frames)[0].Args? then Active else Broken
      ensures if old(stack.top.call.bare) then View() == GetNoArgs(old(View())) && inbound.frames == old(inbound.frames)
              else if old(inbound.frames) == [] then
                View() == Close(old(View()).(handleDepth := old(handleDepth) + 1)) && inbound.frames == []
              else
                && View() == RpcEndpoint.GetArgs(old(View()), old(inbound.frames)[0])
                && inbound.frames == old(inbound.frames)[1..]
    {
      handleDepth := handleDepth + 1;
      if !stack.top.call.bare {
        if inbound.frames == [] {
          Error(true);
          return;
        }
        var frame := Receive();
        if !frame.Args? {
          Error(false);
          return;
        }
      }
      stack := On(Handler(stack.top.call, Running), stack.below);
    }

    // rpc_method_send_reply()
    method SendReply()
      requires TopIsHandler(stack, Running)
      modifies this`handleDepth, this`stack, outbound`frames
      ensures var out := RpcEndpoint.SendReply(old(View()));
        View() == out.end && outbound.frames == old(outbound.frames) + out.sent
    {
      Send(Reply(stack.top.call));
      handleDepth := handleDepth - 1;
      stack := On(Handler(stack.top.call, Replied), stack.below);
    }

    // The end of _rpc_dispatch(), once the handler has returned.
    method HandlerReturns()
      requires TopIsHandler(stack, Replied)
      modifies this`dispatchDepth, this`stack
      ensures View() == Return(old(View()))
    {
      stack := stack.below;
      dispatchDepth := dispatchDepth - 1;
    }

    // The start of _rpc_dispatch(), up to the call of the handler.
    method CallHandler(call: CallId)
      modifies this`dispatchDepth, this`stack
      ensures View() == EnterHandler(old(View()), call)
    {
      dispatchDepth := dispatchDepth + 1;
      stack := On(Handler(call, Entered), stack);
    }

    // What follows _rpc_dispatch_until() in each of its three callers.
    method LeaveWait()
      requires Waiting(stack)
      modifies this`invokeDepth, this`isSync, this`stack
      ensures View() == Complete(old(View()))
    {
      match stack.top {
        case Await(_, _) => invokeDepth := invokeDepth - 1;
        case AwaitAck => isSync := true;
        case AwaitEnd =>
      }
      stack := stack.below;
    }

    // _rpc_dispatch_until(): `blocked` when it needs more input, otherwise it has left the wait,
    // failed, or called a handler.
    method DispatchUntil() returns (blocked: bool)
      requires Waiting(stack) && inbound != outbound
      modifies this, inbound`frames
      ensures (View(), inbound.frames) == DrainUntil(old(View()), old(inbound.frames), inbound.closed)
      ensures blocked ==> inbound.frames == [] && stack == old(stack) && !inbound.closed
      ensures old(status) == Active && old(inbound.frames) == [] ==> status == if inbound.closed then Closed else Active
      ensures errorCallback == old(errorCallback) && (old(status).Active? ==> callbackRuns == Told(old(callbackRuns)))
    {
      var waiting := stack.top;
      while inbound.frames != []
        invariant stack == old(stack) && Waiting(stack) && waiting == stack.top && status == old(status)
        invariant errorCallback == old(errorCallback) && callbackRuns == old(callbackRuns)
        invariant DrainUntil(View(), inbound.frames, inbound.closed)
               == DrainUntil(old(View()), old(inbound.frames), inbound.closed)
        decreases |inbound.frames|
      {
        var frame := Receive();
        if Expected(waiting, frame) {
          LeaveWait();
          return false;
        }
        match frame {
          case Sync =>
            if !(kind == Client && pendingSyncDepth == 0) {
              Error(false);
              return false;
            }
            pendingSyncDepth := invokeDepth;
          case Start(call) =>
            CallHandler(call);
            return false;
          case _ =>
            Error(false);
            return false;
        }
      }
      if inbound.closed { Error(true); }
      blocked := !inbound.closed;
    }

    // _rpc_dispatch_sync() up to its first read.
    method DispatchSync()
      modifies this`stack, outbound`frames
      ensures var out := AckSync(old(View()));
        View() == out.end && outbound.frames == old(outbound.frames) + out.sent
    {
      Send(SyncAck);
      stack := On(AwaitEnd, stack);
    }

    // rpc_dispatch()
    method Dispatch()
      requires (inbound.frames != [] || inbound.closed) && inbound != outbound
      modifies this, inbound`frames, outbound`frames
      ensures old(status) == Active ==> status == (if old(inbound.frames) == [] then Closed
        else if old(inbound.frames)[0].Sync? || old(inbound.frames)[0].Start? then Active else Broken)
      ensures errorCallback == old(errorCallback) && (old(status).Active? ==> callbackRuns == Told(old(callbackRuns)))
      ensures if old(inbound.frames) == [] then
                View() == Close(old(View())) && inbound.frames == [] && outbound.frames == old(outbound.frames)
              else
                var out := RpcEndpoint.Dispatch(old(View()), old(inbound.frames)[0]);
                && View() == out.end && outbound.frames == old(outbound.frames) + out.sent
                && inbound.frames == old(inbound.frames)[1..]
    {
      if inbound.frames == [] {
        Error(true);
        return;
      }
      var frame := Receive();
      match frame {
        case Sync => DispatchSync();
        case Start(call) => CallHandler(call);
        case _ => Error(false);
      }
    }

    // rpc_dispatch_pending_sync()
    method DispatchPendingSync()
      modifies this, outbound`frames
      ensures errorCallback == old(errorCallback) && callbackRuns == old(callbackRuns)
      ensures var out := RpcEndpoint.DispatchPendingSync(old(View()), old(inbound.frames) == []);
        View() == out.end && outbound.frames == old(outbound.frames) + out.sent
    {
      if invokeDepth > 0 || handleDepth > 0 {
        return;
      }
      if pendingSyncDepth != 0 {
        if pendingSyncDepth != 1 || inbound.frames != [] {
          status := Aborted;
          return;
        }
        pendingSyncDepth := 0;
        DispatchSync();
      }
    }

    // rpc_sync() up to its first read.
    method RequestSync()
      modifies this, outbound`frames
      ensures errorCallback == old(errorCallback) && callbackRuns == old(callbackRuns)
      ensures var out := RpcEndpoint.RequestSync(old(View()));
        View() == out.end && outbound.frames == old(outbound.frames) + out.sent
    {
      if isSync {
        status := Aborted;
        return;
      }
      Send(Sync);
      stack := On(AwaitAck, stack);
    }

    // rpc_end_sync()
    method EndSync()
      modifies this, outbound`frames
      ensures errorCallback == old(errorCallback) && (old(status).Active? ==> callbackRuns == Told(old(callbackRuns)))
      ensures var out := RpcEndpoint.EndSync(old(View()));
        View() == out.end && outbound.frames == old(outbound.frames) + out.sent
    {
      if !isSync {
        Error(false);
        return;
      }
      Send(SyncEnd);
      isSync := false;
    }
  }
}
