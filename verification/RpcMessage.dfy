/** struct rpc_message_t: the buffered writer and the unbuffered reader of a connection (src/rpc.c). */
module RpcMessage {
  import opened Wrappers
  import opened Wire

  // What has reached the wire, and what waits in the buffer.
  datatype Writer = Writer(wire: Bytes, buffered: Bytes) {
    function Sent(): Bytes { wire + buffered }
  }

  datatype Op = Put(bytes: Bytes) | Flush

  // One call that meets no error, for a buffer of size bytes.
  function Step(w: Writer, op: Op, size: nat): Writer {
    match op
    case Flush => Writer(w.Sent(), [])
    case Put(bytes) =>
      if |w.buffered| + |bytes| >= size then Writer(w.Sent() + bytes, []) else Writer(w.wire, w.buffered + bytes)
  }

  function Run(w: Writer, ops: seq<Op>, size: nat): Writer
    decreases |ops|
  {
    if ops == [] then w else Run(Step(w, ops[0], size), ops[1..], size)
  }

  function BytesOf(op: Op): Bytes {
    match op
    case Put(bytes) => bytes
    case Flush => []
  }

  // The bytes of all calls, in order.
  function AllBytes(ops: seq<Op>): Bytes {
    if ops == [] then [] else BytesOf(ops[0]) + AllBytes(ops[1..])
  }

  // The bytes of the calls up to the last flush; the rest may stay in the buffer.
  function FlushedBytes(ops: seq<Op>): Bytes {
    if ops == [] then []
    else if ops[|ops| - 1].Flush? then AllBytes(ops)
    else FlushedBytes(ops[..|ops| - 1])
  }

  lemma Joined(a: Bytes, b: Bytes, c: Bytes)
    ensures a + b + c == a + (b + c)
  {
  }

  lemma StepAppends(w: Writer, op: Op, size: nat)
    requires |w.buffered| < size
    ensures Step(w, op, size).Sent() == w.Sent() + BytesOf(op)
    ensures |Step(w, op, size).buffered| < size
    ensures w.wire <= Step(w, op, size).wire
  {
    match op
    case Flush => assert w.Sent() + [] == w.Sent();
    case Put(bytes) =>
      assert w.Sent() + bytes + [] == w.Sent() + bytes;
      Joined(w.wire, w.buffered, bytes);
  }

  /** The buffered writer is an append to the wire that may lag behind: after any calls the wire followed by
      the buffer is everything sent, in order, and the buffer is not full. */
  lemma {:induction false} WriterRefinesAppend(w: Writer, ops: seq<Op>, size: nat)
    requires |w.buffered| < size
    ensures Run(w, ops, size).Sent() == w.Sent() + AllBytes(ops)
    ensures |Run(w, ops, size).buffered| < size
    ensures w.wire <= Run(w, ops, size).wire
    decreases |ops|
  {
    hide Step, BytesOf, Writer.Sent;
    if ops == [] {
      assert w.Sent() + [] == w.Sent();
    } else {
      StepAppends(w, ops[0], size);
      WriterRefinesAppend(Step(w, ops[0], size), ops[1..], size);
      Joined(w.Sent(), BytesOf(ops[0]), AllBytes(ops[1..]));
    }
  }

  /** Nothing is written to the socket before the buffer would be full or is flushed. */
  lemma {:induction false} BufferedUntilFull(w: Writer, ops: seq<Op>, size: nat)
    requires Flush !in ops && |w.buffered| + |AllBytes(ops)| < size
    ensures Run(w, ops, size) == Writer(w.wire, w.buffered + AllBytes(ops))
    decreases |ops|
  {
    if ops == [] {
      assert w.buffered + [] == w.buffered;
    } else {
      assert ops[0].Put?;
      BufferedUntilFull(Step(w, ops[0], size), ops[1..], size);
      Joined(w.buffered, BytesOf(ops[0]), AllBytes(ops[1..]));
    }
  }

  lemma {:induction false} RunInTwo(w: Writer, ops: seq<Op>, last: Op, size: nat)
    ensures Run(w, ops + [last], size) == Step(Run(w, ops, size), last, size)
    decreases |ops|
  {
    if ops == [] {
      assert ([last])[1..] == [];
    } else {
      assert (ops + [last])[1..] == ops[1..] + [last];
      RunInTwo(Step(w, ops[0], size), ops[1..], last, size);
    }
  }

  /** Nothing sent before a flush is still held back after it. */
  lemma {:induction false} FlushedBytesAreOnTheWire(w: Writer, ops: seq<Op>, size: nat)
    requires |w.buffered| < size && ops != [] && w.buffered == []
    ensures w.wire + FlushedBytes(ops) <= Run(w, ops, size).wire
    decreases |ops|
  {
    var front, last := ops[..|ops| - 1], ops[|ops| - 1];
    assert ops == front + [last];
    RunInTwo(w, front, last, size);
    WriterRefinesAppend(w, ops, size);
    assert w.Sent() == w.wire;
    if !last.Flush? {
      if front == [] {
        assert FlushedBytes(front) == [];
        assert w.wire + [] == w.wire;
      } else {
        FlushedBytesAreOnTheWire(w, front, size);
        assert Run(w, front, size).wire <= Run(w, ops, size).wire;
      }
    }
  }

  // A connected stream socket: `wire` has been given to it; `incoming` has yet to be taken from it, after
  // which the peer closes the connection.
  class Socket {
    var wire: Bytes
    var incoming: Bytes
    var failed: bool // whether a send() has failed so far

    constructor (incoming: Bytes)
      ensures wire == [] && this.incoming == incoming && !failed
    {
      wire, this.incoming, failed := [], incoming, false;
    }

    // send(): takes some bytes, or fails and takes none.
    method Send(bytes: Bytes) returns (n: int)
      modifies this`wire, this`failed
      ensures -1 <= n <= |bytes| && (n == 0 ==> bytes == [])
      ensures wire == old(wire) + (if n < 0 then [] else bytes[..n]) && failed == (old(failed) || n < 0)
    {
      n :| -1 <= n <= |bytes| && (n == 0 ==> bytes == []);
      if n < 0 { failed := true; } else { wire := wire + bytes[..n]; }
    }

    // recv(): gives some of the bytes that can be had, and none only if none can, or none are asked for.
    method Recv(count: nat) returns (bytes: Bytes)
      modifies this`incoming
      ensures |bytes| <= count && old(incoming) == bytes + incoming
      ensures bytes == [] <==> count == 0 || old(incoming) == []
    {
      if count == 0 || incoming == [] {
        bytes := [];
      } else {
        var n :| 1 <= n <= count && n <= |incoming|;
        bytes, incoming := incoming[..n], incoming[n..];
      }
    }
  }

  // r is what spec says of the bytes there were, and incoming is what it leaves.
  predicate Received<T(==)>(r: Result<T, RpcError>, spec: Decoded<T>, incoming: Bytes) {
    match spec
    case Ok((v, rest)) => r == Ok(v) && incoming == rest
    case Err(e) => r == Err(e)
  }

  class Message {
    const socket: Socket
    const buffer: array<byte>
    var offset: nat

    constructor (socket: Socket, size: nat)
      requires size > 0
      ensures this.socket == socket && fresh(buffer) && buffer.Length == size && offset == 0
      ensures Valid() && View() == Writer(socket.wire, [])
    {
      this.socket := socket;
      buffer := new byte[size];
      offset := 0;
    }

    ghost predicate Valid()
      reads this
    {
      offset < buffer.Length
    }

    ghost function View(): Writer
      reads this, socket, buffer
      requires Valid()
    {
      Writer(socket.wire, buffer[..offset])
    }

    // --- Sending ---

    // _rpc_message_send_bytes(): after an error a part of the bytes is on the wire.
    method SendNow(bytes: Bytes) returns (error: Option<RpcError>)
      modifies socket`wire, socket`failed
      ensures error.None? ==> socket.wire == old(socket.wire) + bytes
      ensures error.Some? ==>
        error == Some(ConnectionClosed) && old(socket.wire) <= socket.wire <= old(socket.wire) + bytes
      ensures socket.failed == (old(socket.failed) || error.Some?)
    {
      var todo := bytes;
      while true
        invariant socket.wire + todo == old(socket.wire) + bytes
        invariant old(socket.wire) <= socket.wire && socket.failed == old(socket.failed)
        decreases |todo|
      {
        var n := socket.Send(todo);
        if n < 0 { return Some(ConnectionClosed); }
        todo := todo[n..];
        if todo == [] { return None; }
      }
    }

    method Flush() returns (error: Option<RpcError>)
      requires Valid()
      modifies socket`wire, socket`failed, this`offset
      ensures Valid()
      ensures error.None? ==> View() == Step(old(View()), Op.Flush, buffer.Length)
      ensures error.None? ==> offset == 0 && socket.wire == old(socket.wire) + old(buffer[..offset])
      ensures error.Some? ==> error == Some(ConnectionClosed) && offset == 0
                              && old(socket.wire) <= socket.wire <= old(View().Sent())
      ensures socket.failed == (old(socket.failed) || error.Some?)
    {
      error := SendNow(buffer[..offset]);
      offset := 0;
    }

    // Bytes that would fill the buffer are not put into it: the buffer is flushed and they bypass it.
    method SendBytes(bytes: Bytes) returns (error: Option<RpcError>)
      requires Valid()
      modifies socket`wire, socket`failed, this`offset, buffer
      ensures Valid()
      ensures error.None? ==> View() == Step(old(View()), Put(bytes), buffer.Length)
      ensures error.None? ==>
        if old(offset) + |bytes| < buffer.Length
        then socket.wire == old(socket.wire) && buffer[..offset] == old(buffer[..offset]) + bytes
        else socket.wire == old(socket.wire) + old(buffer[..offset]) + bytes && offset == 0
      ensures error.Some? ==> error == Some(ConnectionClosed)
                              && old(socket.wire) <= socket.wire <= old(View().Sent()) + bytes
      ensures socket.failed == (old(socket.failed) || error.Some?)
    {
      if offset + |bytes| >= buffer.Length {
        error := Flush();
        if error.Some? { return; }
        error := SendNow(bytes);
      } else {
        forall i | 0 <= i < |bytes| { buffer[offset + i] := bytes[i]; }
        assert buffer[..offset + |bytes|] == old(buffer[..offset]) + bytes;
        offset := offset + |bytes|;
        error := None;
      }
    }

    // What a marshaler has done when it returns error: unless some send() has failed so far, it appended spec
    // to what had been sent.
    ghost predicate Appended(error: Option<RpcError>, was: Bytes, hadFailed: bool, spec: Bytes)
      reads this, socket, buffer
    {
      && Valid()
      && (hadFailed ==> socket.failed)
      && (!socket.failed ==> error.None? && View().Sent() == was + spec)
      && (error.Some? ==> error == Some(ConnectionClosed) && socket.failed)
    }

    method SendChar(c: byte) returns (error: Option<RpcError>)
      requires Valid()
      modifies socket`wire, socket`failed, this`offset, buffer
      ensures Appended(error, old(View().Sent()), old(socket.failed), Wire.SendChar(c))
    {
      error := SendBytes([c]);
    }

    method SendU32(v: u32) returns (error: Option<RpcError>)
      requires Valid()
      modifies socket`wire, socket`failed, this`offset, buffer
      ensures Appended(error, old(View().Sent()), old(socket.failed), Wire.SendU32(v))
    {
      error := SendBytes([v / TWO_24, v / TWO_16 % TWO_8, v / TWO_8 % TWO_8, v % TWO_8]);
    }

    method SendI32(v: i32) returns (error: Option<RpcError>)
      requires Valid()
      modifies socket`wire, socket`failed, this`offset, buffer
      ensures Appended(error, old(View().Sent()), old(socket.failed), Wire.SendI32(v))
    {
      error := SendU32(ToU32(v));
    }

    method SendU64(v: u64) returns (error: Option<RpcError>)
      requires Valid()
      modifies socket`wire, socket`failed, this`offset, buffer
      ensures Appended(error, old(View().Sent()), old(socket.failed), Wire.SendU64(v))
    {
      error := SendU32(v / TWO_32);
      if error.Some? { return; }
      error := SendU32(v % TWO_32);
    }

    method SendDouble(bits: u64) returns (error: Option<RpcError>)
      requires Valid()
      modifies socket`wire, socket`failed, this`offset, buffer
      ensures Appended(error, old(View().Sent()), old(socket.failed), Wire.SendDouble(bits))
    {
      hide Wire.SendU32;
      ghost var was := View().Sent();
      var parts := PartsOf(bits);
      error := SendU32(parts.negative);
      if error.Some? { return; }
      error := SendU32(parts.exponent);
      if error.Some? { return; }
      Joined(was, Wire.SendU32(parts.negative), Wire.SendU32(parts.exponent));
      error := SendU32(parts.mantissa0);
      if error.Some? { return; }
      Joined(was, Wire.SendU32(parts.negative) + Wire.SendU32(parts.exponent), Wire.SendU32(parts.mantissa0));
      error := SendU32(parts.mantissa1);
      Joined(was, Wire.SendU32(parts.negative) + Wire.SendU32(parts.exponent) + Wire.SendU32(parts.mantissa0),
             Wire.SendU32(parts.mantissa1));
    }

    method SendString(str: Option<Bytes>) returns (error: Option<RpcError>)
      requires Valid() && IsCString(str)
      modifies socket`wire, socket`failed, this`offset, buffer
      ensures Appended(error, old(View().Sent()), old(socket.failed), Wire.SendString(str))
    {
      hide Wire.SendU32;
      ghost var was := View().Sent();
      var length := if str.Some? then |str.value| else -1;
      error := SendI32(length);
      if error.Some? { return; }
      if length > 0 {
        error := SendBytes(str.value);
        Joined(was, Wire.SendI32(length), str.value);
      } else if length == 0 {
        Joined(was, Wire.SendI32(0), []);
      }
    }

    // --- Receiving ---

    method RecvBytes(count: nat) returns (r: Result<Bytes, RpcError>)
      modifies socket`incoming
      ensures Received(r, Wire.RecvBytes(old(socket.incoming), count), socket.incoming)
    {
      var got: Bytes := [];
      while true
        invariant |got| <= count && (got != [] ==> |got| < count)
        invariant old(socket.incoming) == got + socket.incoming
        decreases count - |got|
      {
        var more := socket.Recv(count - |got|);
        if more == [] { return Err(ConnectionClosed); }
        got := got + more;
        if |got| == count {
          assert old(socket.incoming)[..count] == got && old(socket.incoming)[count..] == socket.incoming;
          return Ok(got);
        }
      }
    }

    method RecvChar() returns (r: Result<byte, RpcError>)
      modifies socket`incoming
      ensures Received(r, Wire.RecvChar(old(socket.incoming)), socket.incoming)
    {
      var bytes :- RecvBytes(1);
      return Ok(bytes[0]);
    }

    method RecvU32() returns (r: Result<u32, RpcError>)
      modifies socket`incoming
      ensures Received(r, Wire.RecvU32(old(socket.incoming)), socket.incoming)
    {
      var b :- RecvBytes(4);
      return Ok(b[0] * TWO_24 + b[1] * TWO_16 + b[2] * TWO_8 + b[3]);
    }

    method RecvI32() returns (r: Result<i32, RpcError>)
      modifies socket`incoming
      ensures Received(r, Wire.RecvI32(old(socket.incoming)), socket.incoming)
    {
      var v :- RecvU32();
      return Ok(ToI32(v));
    }

    method RecvU64() returns (r: Result<u64, RpcError>)
      modifies socket`incoming
      ensures Received(r, Wire.RecvU64(old(socket.incoming)), socket.incoming)
    {
      hide Wire.RecvU32;
      var hi :- RecvU32();
      var lo :- RecvU32();
      return Ok(hi * TWO_32 + lo);
    }

    method RecvDouble() returns (r: Result<u64, RpcError>)
      modifies socket`incoming
      ensures Received(r, Wire.RecvDouble(old(socket.incoming)), socket.incoming)
    {
      hide Wire.RecvU32;
      var negative :- RecvU32();
      var exponent :- RecvU32();
      var mantissa0 :- RecvU32();
      var mantissa1 :- RecvU32();
      return Ok(BitsOf(negative, exponent, mantissa0, mantissa1));
    }

    method RecvString() returns (r: Result<Option<Bytes>, RpcError>)
      modifies socket`incoming
      ensures Received(r, Wire.RecvString(old(socket.incoming)), socket.incoming)
    {
      hide Wire.RecvU32;
      var length :- RecvI32();
      if length == -1 { return Ok(None); }
      if length < -1 { return Err(NoMemory); }
      if length == 0 { return Ok(Some([])); }
      var chars :- RecvBytes(length);
      return Ok(Some(chars));
    }
  }
}
