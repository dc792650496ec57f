/** Writing and reading whole frames: the byte side of rpc_method_invoke(), rpc_method_send_reply(),
    rpc_method_wait_for_reply() and _rpc_dispatch_1() (src/rpc.c). */
module RpcFrameTransfer {
  import opened Wrappers
  import opened Wire
  import opened RpcMessage
  import opened RpcArgs
  import opened RpcFrames
  import RpcArgsTransfer

  // The header of a call, flushed on its own
  method InvokeHeader(message: Message, procedure: i32) returns (error: Option<RpcError>)
    requires message.Valid() && message.offset == 0
    modifies message.socket`wire, message.socket`failed, message`offset, message.buffer
    ensures message.Valid() && (old(message.socket.failed) ==> message.socket.failed)
    ensures !message.socket.failed ==>
              && error.None?
              && message.offset == 0
              && message.socket.wire == old(message.socket.wire) + Encode(StartPacket(procedure))
  {
    hide Wire.SendI32;
    ghost var was := message.socket.wire;
    assert message.View().Sent() == was;
    error := message.SendI32(MESSAGE_START);
    if error.Some? { return; }
    error := message.SendI32(procedure);
    if error.Some? { return; }
    Joined(was, Wire.SendI32(MESSAGE_START), Wire.SendI32(procedure));
    error := message.SendI32(MESSAGE_END);
    if error.Some? { return; }
    Joined(was, Wire.SendI32(MESSAGE_START) + Wire.SendI32(procedure), Wire.SendI32(MESSAGE_END));
    error := message.Flush();
  }

  // _rpc_method_invoke_valist()
  method Invoke(message: Message, procedure: i32, args: seq<Arg>) returns (error: Option<RpcError>)
    requires message.Valid() && message.offset == 0 && AreArgs(args)
    modifies message.socket`wire, message.socket`failed, message`offset, message.buffer
    ensures message.Valid() && (old(message.socket.failed) ==> message.socket.failed)
    ensures !message.socket.failed ==> error == ArgsError(args)
    ensures !message.socket.failed && error.None? ==>
              && message.offset == 0
              && message.socket.wire
                   == old(message.socket.wire) + Encode(StartPacket(procedure)) + Encode(ArgsPacket(args))
  {
    hide RpcArgs.SendArgs, AreArgs, ArgsError, GoodArgs;
    error := InvokeHeader(message, procedure);
    if error.Some? { return; }
    ArgsRoundTrip(args, []);
    if args == [] {
      NothingToSend();
      assert message.socket.wire + [] == message.socket.wire;
    } else {
      ghost var sent := message.socket.wire;
      assert !message.socket.failed ==> message.View().Sent() == sent;
      error := RpcArgsTransfer.SendArgs(message, args);
      if error.Some? { return; }
      error := message.Flush();
    }
  }

  lemma NothingToSend()
    ensures RpcArgs.SendArgs([]) == Sent([], None) && ArgsError([]).None?
  {
  }

  // _rpc_method_send_reply_valist()
  method SendReply(message: Message, args: seq<Arg>) returns (error: Option<RpcError>)
    requires message.Valid() && message.offset == 0 && AreArgs(args)
    modifies message.socket`wire, message.socket`failed, message`offset, message.buffer
    ensures message.Valid() && (old(message.socket.failed) ==> message.socket.failed)
    ensures !message.socket.failed ==> error == ArgsError(args)
    ensures !message.socket.failed && error.None? ==>
              && message.offset == 0
              && message.socket.wire == old(message.socket.wire) + Encode(ReplyPacket(args))
  {
    hide Wire.SendI32, RpcArgs.SendArgs;
    ghost var was := message.socket.wire;
    assert message.View().Sent() == was;
    error := message.SendI32(MESSAGE_REPLY);
    if error.Some? { return; }
    ArgsRoundTrip(args, []);
    error := RpcArgsTransfer.SendArgs(message, args);
    if error.Some? { return; }
    Joined(was, Wire.SendI32(MESSAGE_REPLY), RpcArgs.SendArgs(args).bytes);
    error := message.SendI32(MESSAGE_END);
    if error.Some? { return; }
    Joined(was, Wire.SendI32(MESSAGE_REPLY) + RpcArgs.SendArgs(args).bytes, Wire.SendI32(MESSAGE_END));
    error := message.Flush();
  }

  // The start of _rpc_dispatch_1()
  method RecvMethod(message: Message) returns (r: Result<i32, RpcError>)
    modifies message.socket`incoming
    ensures Received(r, RpcFrames.RecvMethod(old(message.socket.incoming)), message.socket.incoming)
  {
    hide Wire.RecvI32;
    var procedure :- message.RecvI32();
    var end :- message.RecvI32();
    if end != MESSAGE_END { return Err(TypeInvalid); }
    return Ok(procedure);
  }

  // The end of _rpc_method_wait_for_reply_valist()
  method RecvReply(message: Message, expected: seq<i32>) returns (r: Result<seq<Arg>, RpcError>)
    modifies message.socket`incoming
    ensures Received(r, RpcFrames.RecvReply(expected, old(message.socket.incoming)), message.socket.incoming)
  {
    hide Wire.RecvI32, RpcArgs.RecvArgs;
    var args := [];
    if expected != [] {
      args :- RpcArgsTransfer.RecvArgs(message, expected);
    } else {
      NothingExpected(message.socket.incoming);
    }
    var end :- message.RecvI32();
    if end != MESSAGE_END { return Err(TypeInvalid); }
    return Ok(args);
  }

  lemma NothingExpected(s: Bytes)
    ensures RpcArgs.RecvArgs([], s) == Ok(([], s))
  {
  }
}
