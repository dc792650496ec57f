# nspluginwrapper: the RPC protocol and the object bridge

nspluginwrapper runs a browser plugin in a process of its own. The *wrapper* is loaded by the browser and
is the RPC client; the *viewer* hosts the plugin and is the RPC server. This project models the parts
of it that have to be right for the two processes to behave like one synchronous program, and proves what
they are for.

**The protocol** (`RpcEndpoint`, `TwoParty`, `SyncProtocol`, `ProtocolTheorems`, `WindDown`,
`RpcConnection`, `ConnectionErrors`). Two endpoints, each with the counters of `struct rpc_connection` and an
explicit C call stack, exchange frames over two first-in first-out streams. Either side may call the other to any
depth; the viewer asks for permission (SYNC) before its event loop runs; a SYNC that crosses a call of the wrapper
is acknowledged later. A run is any sequence of enabled steps. The invariant names the holder of a control
token and says how the two stacks interleave. Class `Connection` is the C code on its fields, proved to make
these steps.

**The protocol on bytes** (`Prefixes`, `ByteLevel`, `ByteTheorems`). The same two ends, with frames written a
few bytes at a time and read once all their bytes are there, by whoever happens to be reading, who goes by the tag
decoded from them.

**Object ownership** (`NpObjects`, `Ownership`, `OwnershipTheorems`, `OwnershipTransfer`, `Loans`,
`Arguments`, `ViewerDeath`, `NpRuntime`). Each side has NPObjects with reference counts, a table of stubs and a
table of proxies; references, Deallocate calls and their replies travel on two streams. `held` counts, for
specification only, the references that application code owns. Class `Runtime` is the C code on the tables.

**The protocol and the objects together** (`Joint`, `JointProtocol`, `JointTheorems`, `JointCalls`,
`JointArguments`). Argument lists and replies carry references, dropping a proxy starts a Deallocate call, and
calls nest inside the handlers of such calls. Whether a call can be made is what the endpoint says. `JointCalls`
follows Deallocate calls from start to end, `JointArguments` says what calls leave of the references passed in
them.

**All of it together** (`WholeLevel`, `WholeTheorems`). Frames travel as bytes, and receivers take their references
from the bytes.

**What the runs include** (`PossibleSteps`). That in the states they reach the programs can do what they are meant to be
able to do, so that the theorems about all runs are about enough of them.

**Marshalling** (`Wire`, `NpValues`, `NpRoundTrips`, `RpcArgs`, `RpcFrames` as functions on bytes;
`WireFormat`, `Structures`, `ArgValues` and `Malformed` say in numbers and names what is written, what is received
and what is refused; `RpcMessage`, `NpMarshalers`, `RpcArgsTransfer`, `RpcFrameTransfer` as code on a buffered
message and a socket with short reads and writes). A double is its 64 bits. What a value is received as is its normal form:
a zero-length saved area and an empty array become NULL, a structure keeps the members that are transmitted.

**Tables** (`RpcMap`, `Identifiers`, `IdTable`, `IdentifierCache`). The slot array of `src/rpc.c`, the id table of
`src/utils.c` and the viewer's identifier cache, each against the simpler thing it has to agree with.

Some things the code does that one might not expect, all kept in the model:

- Receiving zero bytes is taken for a closed connection, because `recv()` is called even then
  (src/rpc.c:1252-1277). Empty print data therefore cannot be received; `NpRoundTrips.ArrivesIffTransmittable` gives the
  exact condition.
- An NPString with a length but no characters is sent without them, and its receiver takes the bytes that
  follow it (src/npw-rpc.c:1421-1433).
- The receiver of an array does not compare the element type with the one its caller expects
  (src/rpc.c:1433-1446), and a NULL array keeps its size.
- A send error inside a window's window-system information is swallowed (src/npw-rpc.c:467-468). The contracts of
  the marshalers therefore speak of sockets on which no send has failed, not of the error returned.
- The mode of a print record is sent before it is found to be unknown (src/npw-rpc.c:1105-1117).
- A Deallocate call that cannot be made is skipped silently (src/npruntime.c:276-278). The exact condition under
  which that loses a stub is `OwnershipTheorems.ReleaseWithoutCall` and
  `OwnershipTheorems.InvalidateWithoutCall`; `JointTheorems.CallsAreNeverSkipped` says that it does not happen
  while the connection works.

## Model

The main results come first, down to `Identifiers.IdentifierReturns`: the protocol, its bytes, the objects, the
protocol with the objects, all three together, marshalling, tables. After them come the steps they are built from
and the methods that carry them out, by file.

| member | source | states |
|---|---|---|
| ProtocolTheorems.SingleControlToken | src/rpc.c:1745-1772 | The design goal: in every reachable state exactly one of wrapper in control, viewer in control, one START, REPLY, SYNC_ACK or SYNC_END in flight; beside it at most one SYNC, to the wrapper only. |
| ProtocolTheorems.OneCallerAtATime | src/rpc.c:1871-1881 | Code of the browser and code of the plugin are never both free to start a call. |
| ProtocolTheorems.ReplyMeetsItsCall | src/rpc.c:1979-2031 | The reply that ends a `rpc_method_wait_for_reply()` is the one sent for that invocation, over all interleavings and nestings, though replies are untagged. |
| ProtocolTheorems.HistoryIsWellBracketed | src/rpc.c:1884-2074 | The calls of both sides form one well-bracketed history: each ends with its own reply, innermost first, and no two calls share a number. |
| ProtocolTheorems.FramesAreExpected | src/rpc.c:1628-1698 | In every reachable state the next frame is one its reader takes: for a wait the tag waited for, a START, or a SYNC that can be put off; for an event loop a START or a SYNC; for a handler its own arguments. |
| ProtocolTheorems.NoProtocolError | src/rpc.c:1628-1698 | In error-free runs no end reads a tag it answers with MESSAGE_TYPE_INVALID or SYNC_NOT_ALLOWED, and no assert fails. |
| ProtocolTheorems.NoDeadlock | src/rpc.c:1628-1653 | The two ends are never both blocked in a read with nothing on either stream. |
| ProtocolTheorems.DeferredAckIsSound | src/rpc.c:1701-1739 | At most one SYNC is pending and its depth is 1; none is read while waiting for SYNC_END; when the delayed SYNC_ACK is sent the wrapper's stream is empty and the viewer is at its outermost wait for it, or only has to return there from a handler that has already replied; a nested event loop does nothing about it. |
| ProtocolTheorems.DepthsBracket | src/rpc.c:1871-1881 | In every reachable state `handle_depth` equals `dispatch_depth` except in a handler before its get_args or after its reply, where it is one less; `rpc_method_invoke_possible()` is false exactly there. |
| ProtocolTheorems.CallRestoresDepths | src/rpc.c:1922-2074 | A completed call leaves its caller's stack and all three counters as they were when it began, whatever calls either side made in between. |
| PossibleSteps.CallsNest | src/rpc.c:1884-2074 | Calls nest to any depth, each made by the handler of the one before: for every number there is a run to that many open calls. |
| WindDown.ServingRunsEnd | src/rpc.c:1628-1822 | No livelock: a run that starts nothing new is no longer than the work owed at its start. |
| WindDown.EveryStateWindsDown | src/rpc.c:1745-1772 | From every reachable state, whatever serving steps are taken first, all open calls and syncs can be completed with no new request: both event loops idle, nothing under way, no call open. |
| ByteTheorems.BytesRefineFrames | src/rpc.c:1628-1822 | The protocol on bytes, where readers branch on the tags they decode, reaches exactly the states that the protocol on frames reaches, so the theorems about the one hold of the other. |
| ByteTheorems.StreamsAreFrames | src/rpc.c:997-1045 | In every state of the protocol on bytes, with any short writes, the bytes of each direction are whole frames followed by at most a part of one more, the rest of which its sender has still to write. |
| ByteTheorems.FramesAreRead | src/rpc.c:1572-1653 | In every such state whoever reads gets the frame at the head as it was sent, or has to wait for more of it, and never after all of it was written: no nested reader takes the wrong bytes for a frame, and each asks for the types that its frame has. |
| ByteTheorems.NoByteDeadlock | src/rpc.c:1628-1653 | When both ends are in `recv()`, one has bytes to write or finds all it waits for. |
| OwnershipTheorems.StubsMatchProxies | src/npruntime.c:74-184 | In every reachable state a stub id is live exactly if it is accounted for by exactly one of: a valid proxy in use, a SENDER_OWNED reference in flight, a release in flight (Deallocate or release_stub); a proxy being destroyed has exactly one call out. |
| OwnershipTheorems.AssertsHold | src/npw-rpc.c:1274-1297 | When only valid proxies are sent, the asserts of `do_recv_NPObject_helper()` and `npobject_destroy_stub()` never fail, and a new proxy never replaces another. |
| OwnershipTheorems.ReferencesAreConserved | src/npw-viewer.c:1998-2047 | An object's count is the application's references plus its live stubs, and positive; no stub points to freed memory. |
| OwnershipTheorems.NothingLeaks | src/npruntime.c:74-184 | When nothing is on its way and neither application holds a reference, no object, stub or proxy is left on either side. |
| OwnershipTheorems.ReleasedAtMostOnce | src/npruntime.c:104-118 | Over any run a stub is released at most once, by Deallocate, Invalidate or fused release, and the stub ids given out that are no longer live are exactly those that were released. |
| OwnershipTheorems.ReleaseWithoutCall | src/npruntime.c:276-297 | Where no call can be made, `npclass_invoke_Deallocate()` returns silently: the correspondence survives a release if and only if it is not the last one of a valid proxy; such a proxy is freed all the same, and nothing else changes. |
| OwnershipTheorems.InvalidateWithoutCall | src/npruntime.c:304-323 | Likewise for an invalidation: if and only if the object is not a valid proxy; the proxy is invalidated all the same. |
| Arguments.ArgumentsGivenBack | src/npruntime.c:445-468 | A call passes any list of plain references, the sender's own objects and proxies mixed and repeated; the handler gives back any of them in any order. Each kept object is left pinned by its stub or retained by its owner, and nothing else has changed but that the stub ids given out are not used again. |
| Arguments.ArgumentsNotKept | src/npruntime.c:252-297 | Plain arguments that the receiver does not keep, however many and in whatever order it releases them, leave both sides as they were, but for stub ids that are not used again. |
| OwnershipTransfer.FusedTransferRefinesPlain | src/npw-rpc.c:1201-1236 | Whatever Deallocate replies are still owed, sending with pass_ref leaves both sides in the same state as sending plainly and then releasing, with the Deallocate call that the release may need. |
| NpRuntime.Runtime.Deactivate | src/npruntime.c:1210-1218 | The two loops over the tables reach the one state that `ViewerDeath` is about, in whatever order they visit the entries. |
| ViewerDeath.DeactivationReleasesStubs | src/npruntime.c:1196-1218 | After `npruntime_deactivate()` all proxies are there but none is valid, no stub is left, each object has lost exactly one reference per stub on it, and stub ids go on where they were. |
| ViewerDeath.SilentAfterDeath | src/npruntime.c:1196-1218 | So after `npruntime_deactivate()` the application can release and invalidate whatever it holds, in any order, and no call is made. |
| JointTheorems.CallsAreNeverSkipped | src/npruntime.c:276-278 | Wherever a reference is dropped, marshalled or received in a run of the two processes, a call can be made: `npclass_invoke_Deallocate()` never returns silently on a working connection. |
| JointTheorems.StubsMatchProxiesInTheProtocol | src/npruntime.c:74-184 | The correspondence of stubs and proxies, valid ones and those waiting to be freed, holds in every state that the protocol and the objects reach together, calls nested in the handlers of Deallocate calls included, and no assert fails. |
| JointTheorems.MessagesStartQuiet | src/npw-rpc.c:1190-1252 | When a message starts to be marshalled no reference and no call is on its way in either direction, and all that is owed are replies of Deallocate handlers: the starting point that the theorems about arguments and pass_ref ask for. |
| JointCalls.OwedByHandlers | src/npruntime.c:252-274 | The replies that a side owes are those of Deallocate handlers running on its C stack, in the order of the stack, none twice; a side at its event loop owes none. |
| JointCalls.DeallocateCallCompletes | src/npruntime.c:171-297 | From the release or invalidation that makes a Deallocate call to the read of its reply, whatever calls both sides make in between, the stub goes, and a proxy that is being destroyed is freed. |
| JointArguments.NothingKeptOverCalls | src/npruntime.c:445-468 | Over any run, with calls nested in handlers and in handlers of Deallocate calls: if the receiver has kept nothing of what it was passed, the sender has exactly the stubs it had, for the same objects, and each of its objects the count it had but for what its own application did. |
| JointCalls.NothingLeaksAtRest | src/npruntime.c:74-184 | When both event loops are idle, nothing is on its way and neither application holds a reference, no object, stub or proxy is left on either side. |
| WholeTheorems.WholeRefinesParts | src/npw-rpc.c:1190-1301 | What protocol, objects and bytes reach together, protocol and objects reach, and protocol and bytes, though readers go by the bytes alone: all theorems about either hold. |
| PossibleSteps.StepsCanBeWritten | src/npw-rpc.c:1190-1301 | Once all bytes are written, every step of protocol and objects can be made on the bytes, given that a message is about what it carries, with the same result; and bytes can be written in pieces of any size. |
| WholeTheorems.ReferencesArrive | src/npw-rpc.c:1254-1301 | Whoever receives arguments or results decodes from their bytes exactly the references, or the Deallocate call, that their sender marshalled there, and acts on them as the runs of protocol and objects have it. |
| RpcArgs.ArgsRoundTrip | src/rpc.c:1120-1249 | For every argument list, arrays and user-defined types included: it is sent without error if and only if every type has a marshaler and none refuses its value, and is then received in its normal form (empty and NULL arrays as NULL), leaving exactly the bytes after it, if and only if all its values can be transmitted. |
| ArgValues.ArgumentsArrive | src/rpc.c:1120-1564 | Every argument of a list is received with its type; an array that has a size and elements, whatever the size, with all its elements, each as it is received by itself; an array without either as NULL. |
| RpcArgs.TypesAreChecked | src/rpc.c:1388-1407 | Asked for any types, the receiver succeeds if and only if they are the types of what was sent. Asked for nothing it reads nothing and succeeds; an empty list is no bytes, so a receiver that expects something reads what follows. |
| NpRoundTrips.ArrivesIffTransmittable | src/npw-rpc.c:1591-1717 | A value of any registered type that its marshaler does not refuse is received in its normal form, leaving exactly what follows it, if and only if its strings have characters for their lengths and it is not empty print data. |
| RpcFrames.PacketRoundTrip | src/rpc.c:1884-2052 | Each frame of the protocol is read to its last byte and no further. |
| RpcFrames.StreamOfFrames | src/rpc.c:1628-1653 | The byte stream is the stream of frames written to it: nested dispatchers that share it get whole frames in order, and a partial frame at the end stays unread. |
| Prefixes.DecodingIsStable | src/rpc.c:1252-1277 | What any reader makes of the bytes at hand, value or error, it makes of them whatever follows, unless it ran out of bytes: for every registered type, arrays, argument lists, replies and tags. |
| RpcMessage.WriterRefinesAppend | src/rpc.c:1026-1045 | After any calls of send and flush, the bytes on the wire followed by the buffer are everything sent, in order, and the buffer is never full. |
| Identifiers.IdsAreFaithful | src/npw-rpc.c:1332-1348 | Over any run in which other objects get and lose ids, two identifiers are sent as the same id if and only if they are the same identifier. |
| Identifiers.RemovedIdsAreGone | src/utils.c:84-92 | Over any run, an id that was bound and is removed, the newest or not, is looked up as NULL at every later point. |
| Identifiers.IdentifierReturns | src/npw-rpc.c:1350-1370 | An id that the viewer sends back, at any later time, is received as the identifier it was sent for. |
| RpcEndpoint.RepliesAreUntagged | src/rpc.c:1628-1653 | A reply carries nothing that says which call it answers: the reader behaves alike whichever call it was sent for. |
| TwoParty.RunsConcatenate | src/npw-viewer.c:4977-5009 | Steps of the two main loops, handlers and blocked reads compose: a run continued by a run is a run. |
| TwoParty.DrainingIsReading | src/rpc.c:1628-1653 | The loop of `_rpc_dispatch_until()` on the frames at hand amounts to single reads, so interleaving it frame by frame loses no behaviour. |
| SyncProtocol.InvokerHasControl | src/rpc.c:1871-1881 | Application code for which `rpc_method_invoke_possible()` holds is on the side that has the control token. |
| SyncProtocol.KeepsInvoke | src/rpc.c:1884-1934 | Starting a call keeps the invariant of the protocol (who has control, how the two C stacks interleave, what is on each stream, what the counters count). |
| SyncProtocol.KeepsSendArgs | src/rpc.c:1904-1917 | Sending the argument list after the header keeps it. |
| SyncProtocol.KeepsGetArgs | src/rpc.c:1942-1974 | A handler's `rpc_method_get_args()` finds the argument list of its own call and keeps the invariant. |
| SyncProtocol.KeepsReply | src/rpc.c:2035-2074 | `rpc_method_send_reply()` keeps it: control moves with the reply. |
| SyncProtocol.KeepsReturn | src/rpc.c:1619-1625 | A handler that has replied can return at any later time, while the other side is already running, and the invariant holds throughout. |
| SyncProtocol.KeepsPendingSync | src/rpc.c:1717-1739 | The delayed SYNC_ACK keeps it; both asserts hold. |
| SyncProtocol.KeepsSync | src/rpc.c:1741-1796 | A SYNC request keeps it wherever the wrapper is, in the middle of a call included. |
| SyncProtocol.KeepsEndSync | src/rpc.c:1798-1822 | SYNC_END keeps it. |
| SyncProtocol.KeepsDispatch | src/rpc.c:1679-1698 | Dispatching from an event loop keeps it, and what is read there is a START or, in the wrapper, a SYNC. |
| SyncProtocol.KeepsRead | src/rpc.c:1628-1653 | Reading one frame while blocked keeps it, for every wait and every frame that can arrive there. |
| SyncProtocol.StepKeepsInv | src/rpc.c:1628-1822 | Every enabled step of either process keeps the invariant. |
| SyncProtocol.RunKeepsInv | src/rpc.c:1628-1822 | So does every run, of any length and nesting depth. |
| ProtocolTheorems.SyncCrossesCall | src/rpc.c:1639-1643 | The deferral is reachable: a SYNC crosses an invoke of the wrapper on the wire and is put off. |
| ConnectionErrors.ErrorsEndConnections | src/rpc.c:538-578 | A closed stream takes an active connection to CLOSED, any other error to BROKEN; nothing else of it changes, other statuses stay, and no call can be made after that. |
| ConnectionErrors.NeverActiveAgain | src/rpc.c:538-554 | No step of the protocol makes a connection active again. |
| ConnectionErrors.CallsNeedAnActiveConnection | src/rpc.c:1871-1881 | When a call can be made, on the fields. |
| ConnectionErrors.UnexpectedFramesBreak | src/rpc.c:1628-1653 | A wait that reads another tag than the one it waits for, and neither START nor SYNC, breaks the connection. |
| ConnectionErrors.SyncsArePutOff | src/rpc.c:1639-1643 | A SYNC is put off by a client that has none pending, with its `invoke_depth`; for anyone else it is an error. |
| ConnectionErrors.EventLoopsTakeRequests | src/rpc.c:1679-1698 | An event loop acknowledges a SYNC, enters the handler of a START, and breaks the connection on anything else. |
| ConnectionErrors.HandlersNeedArguments | src/rpc.c:1942-1974 | A handler that reads something else than arguments breaks the connection, with `handle_depth` raised. |
| ConnectionErrors.EndOfStreamCloses | src/rpc.c:1628-1653 | A wait whose stream ends closes the connection; one whose stream is merely empty waits on. |
| ConnectionErrors.SyncsAreNotNested | src/rpc.c:1741-1822 | `rpc_sync()` in a sync fails its assert, `rpc_end_sync()` outside one is an error. |
| ConnectionErrors.PendingSyncs | src/rpc.c:1717-1739 | What `rpc_dispatch_pending_sync()` does in every state. |
| WindDown.ServingShrinks | src/rpc.c:1628-1822 | Every step that serves an existing request strictly decreases the work owed. |
| WindDown.ReachesRest | src/rpc.c:1628-1822 | From every state of the invariant such a run leads to both event loops idle and both streams empty. |
| RpcConnection.Connection.constructor | src/rpc.c:650-672 | All depth counters, flags and the call stack start as in the initial state of the runs. |
| RpcConnection.Connection.Error | src/rpc.c:538-578 | A closed connection takes an active one to CLOSED, any other error to BROKEN, a status that has been left is not changed again, and the error callback, if one is set, is called. |
| RpcConnection.Connection.SetErrorCallback | src/rpc.c:501-511 | The first callback set stays. |
| RpcConnection.Connection.IsInvokePossible | src/rpc.c:1871-1881 | Decides, on the fields, exactly the guard under which runs let a call start. |
| RpcConnection.Connection.Invoke | src/rpc.c:1922-1934 | Refines the step that starts a call: same fields, same stack, same frame sent, and nothing at all where no call is possible. |
| RpcConnection.Connection.SendArgs | src/rpc.c:1903-1917 | Refines the step that sends a call's arguments. |
| RpcConnection.Connection.GetArgs | src/rpc.c:1959-1974 | Refines the step that takes a call's arguments; a method without any reads nothing; `handle_depth` goes up even if the connection turns out closed or the arguments wrong. |
| RpcConnection.Connection.SendReply | src/rpc.c:2057-2074 | Refines the step that replies and gives up control. |
| RpcConnection.Connection.CallHandler | src/rpc.c:1619-1621 | Refines the step that enters a handler. |
| RpcConnection.Connection.HandlerReturns | src/rpc.c:1621-1624 | Refines the step that leaves it. |
| RpcConnection.Connection.LeaveWait | src/rpc.c:2015-2031 | Refines the end of a wait: `invoke_depth` goes down after a reply, `is_sync` is set after SYNC_ACK, nothing changes after SYNC_END. |
| RpcConnection.Connection.DispatchUntil | src/rpc.c:1628-1653 | The loop takes from the stream exactly the frames that a run of single reads takes, up to the expected tag, a call to dispatch, an error or an empty stream, and leaves the state that run leaves; an empty stream that is closed closes the connection. |
| RpcConnection.Connection.DispatchSync | src/rpc.c:1656-1676 | Refines the step that acknowledges a SYNC and waits for SYNC_END. |
| RpcConnection.Connection.Dispatch | src/rpc.c:1679-1698 | Refines the step of an event loop that reads one frame: a SYNC is acknowledged at once, a START dispatched, anything else an error, and a closed stream closes the connection. |
| RpcConnection.Connection.DispatchPendingSync | src/rpc.c:1717-1739 | Refines the step of the browser's event loop: nothing in a nested loop, an abort where an assert fails, otherwise the delayed acknowledgement. |
| RpcConnection.Connection.RequestSync | src/rpc.c:1741-1796 | Refines the step that asks for a sync; an abort if one is already granted. |
| RpcConnection.Connection.EndSync | src/rpc.c:1798-1822 | Refines the step that ends a sync; an error if there is none. |
| NpObjects.SendKeepsSound | src/npw-rpc.c:1190-1252 | Marshalling an object, fused release included, conserves references and puts only the reference itself on the wire: no Deallocate call starts inside a message. |
| NpObjects.MessagesAreAtomic | src/npw-rpc.c:1190-1252 | A message with any list of objects puts one reference for each on the stream, in order, and nothing else: no Deallocate call starts in the middle of it. |
| NpObjects.ReleaseKeepsSound | src/npw-viewer.c:2016-2047 | Dropping a reference conserves references, also when it destroys the object or its proxy. |
| NpObjects.DestroyStubKeepsSound | src/npruntime.c:104-118 | Destroying a stub finds its object alive, gives up exactly the stub's reference, and never makes a call. |
| NpObjects.CreateStubKeepsSound | src/npruntime.c:74-91 | A new stub takes one reference under an id not in use. |
| NpObjects.CreateProxyKeepsSound | src/npruntime.c:141-154 | A new proxy is registered under its stub's id. |
| NpObjects.InvalidateKeepsSound | src/npruntime.c:304-323 | Invalidating a proxy conserves references. |
| NpObjects.StubKeepsAlive | src/npw-rpc.c:1208-1212 | A stub protects its object from deallocation when the application's last reference goes. |
| Ownership.MoveKeepsInv | src/npw-rpc.c:1190-1301 | Each move of a side (create, retain, release, invalidate, send, receive) keeps the correspondence between its stubs and the other side's proxies, both ways. |
| Ownership.RunKeepsInv | src/npw-rpc.c:1190-1301 | So does every interleaved run of the two sides. |
| OwnershipTheorems.ReachableFlips | src/npw-rpc.c:1184-1188 | The two sides are symmetric, so all of this holds for either side's stubs. |
| OwnershipTheorems.DeallocateIsAnswered | src/npruntime.c:252-274 | A Deallocate call is answered whether its stub exists or not, and leaves none. |
| OwnershipTheorems.NamedStubsAreReceived | src/npw-rpc.c:1285-1297 | The assert of the receiver fails exactly if the stub is not there; otherwise the stub's object is received with one reference more, and the stub goes if asked. |
| OwnershipTheorems.StubCanBeLost | src/npruntime.c:276-278 | A run after which a release without a call does lose a stub. |
| Loans.GivenBackA | src/npruntime.c:104-118 | Of any references lent, giving one back leaves the lender as if it had never been lent, whichever was lent first. |
| Loans.GivenBackB | src/npruntime.c:171-184 | Likewise the borrower, whose proxies for the other loans stay as they are. |
| JointProtocol.TouchingCanInvoke | src/rpc.c:1871-1881 | Where code handles objects (event loops, and handlers from get_args to reply) `rpc_method_invoke_possible()` holds. |
| JointProtocol.SendingCanInvoke | src/rpc.c:1884-1934 | ... so it does where arguments or results are marshalled, |
| JointProtocol.TakingCanInvoke | src/rpc.c:1942-1974 | ... and where they have just been received. |
| JointProtocol.QuietWires | src/rpc.c:1884-2074 | Whenever an argument list or a reply is sent, no other is on its way in either direction. |
| JointTheorems.RepliesMove | src/npruntime.c:252-297 | Where among the items of a stream the replies to Deallocate calls are makes no difference to the correspondence of stubs and proxies. |
| JointTheorems.DoKeepsInv | src/npruntime.c:252-297 | Every step of the protocol with the objects its messages carry keeps the invariants of both, the handlers of Deallocate calls being open for any length of time. |
| JointTheorems.RunKeepsInv | src/npruntime.c:252-297 | So does every run. |
| JointCalls.DoKeepsCalls | src/npruntime.c:252-297 | Every step keeps, besides, that the replies a side owes are those of Deallocate handlers on its C stack, in its order, and that Deallocate calls and their replies travel alone. |
| JointCalls.RunKeepsCalls | src/npruntime.c:252-297 | So does every run. |
| JointCalls.StepKeepsProgress | src/npruntime.c:171-297 | A Deallocate call is, until its reply is read, in one of the stages of its life: about to be sent, on its way, in its handler with the stub gone, or answered; every step of either side leaves it there or moves it on. |
| JointArguments.MessagesPause | src/rpc.c:1884-2074 | Arguments and results are sent when no reference and no Deallocate call is on its way. |
| JointArguments.StubsAreLiveProxies | src/npruntime.c:74-184 | At such a moment the live stubs of a side are exactly the ids of the valid proxies in use on the other. |
| WholeTheorems.NormalKeepsItems | src/npw-rpc.c:1254-1271 | What is received of an argument list, arrays and variants included, refers to the same objects as what was sent. |
| WholeTheorems.ReferencesCanBeWritten | src/npw-rpc.c:1238-1252 | Any list of references with 32-bit ids can be written as arguments. |
| WholeTheorems.WhereReferencesAre | src/npw-rpc.c:1190-1301 | An argument refers to objects as an NPObject, in a variant, or in any element of an array. |
| WholeTheorems.DeallocateCalls | src/npruntime.c:276-297 | Method 78 carries the id of the stub, and its empty reply answers it; all other calls say of objects what their arguments refer to. |
| WholeTheorems.StepKeepsInv | src/npw-rpc.c:1190-1301 | Every step of protocol, objects and bytes together keeps the invariants of all three, and that each frame carries what its bytes say. |
| WholeTheorems.RunKeepsInv | src/npw-rpc.c:1190-1301 | So does every run. |
| PossibleSteps.ApplicationsCanCall | src/rpc.c:1871-1934 | In every reachable state the browser's event loop, a viewer that was granted a SYNC and every handler between get_args and send_reply can make a call, and its header is sent. |
| PossibleSteps.ProgramsGoOn | src/rpc.c:1628-1822 | And whatever is on top of a stack can go on: event loops and waits read any frame that is there, handlers get their arguments, reply and return, the viewer asks for a SYNC and ends it. |
| PossibleSteps.HoldersCanAct | src/npruntime.c:74-184 | In every reachable state an application can retain, release and invalidate all it holds, and send it unless it is a proxy that is not valid; and the next item can be received. |
| PossibleSteps.HoldersCanActInCalls | src/npruntime.c:252-323 | The same wherever application code can make calls. |
| PossibleSteps.StepsCanBeMade | src/npw-rpc.c:1190-1301 | Every step that the protocol can make it can make with objects about: no choice of messages and references blocks it. |
| PossibleSteps.MessagesCanCarry | src/npw-rpc.c:1190-1252 | Arguments and results other than those of Deallocate calls can carry every object that their sender holds, but for proxies that are not valid. |
| ViewerDeath.DeadProxiesAreSilent | src/npruntime.c:171-184 | Giving up or invalidating those proxies later, in any order, makes no Deallocate call. |
| ViewerDeath.LeftoversAreReleased | src/npruntime.c:171-184 | Each of those releases drops one reference, the last one frees the proxy and its entry, and a second invalidation changes nothing. |
| NpRuntime.Runtime.RetainObject | src/npw-viewer.c:1998-2014 | Refines a retain of the ownership runs: one reference more on this object, all else unchanged. |
| NpRuntime.Runtime.ReleaseObject | src/npw-viewer.c:2016-2047 | Refines a release: objects, tables, counter and items sent are those of the transition the theorems are about, destruction of the object or its proxy included. |
| NpRuntime.Runtime.CreateStub | src/npruntime.c:74-91 | Refines the making of a stub; the id returned is the next one. |
| NpRuntime.Runtime.DestroyStub | src/npruntime.c:104-118 | Refines the end of a stub: unregistered first, then its reference dropped. |
| NpRuntime.Runtime.CreateProxy | src/npruntime.c:141-154 | Refines the making of a proxy: valid, with one reference, registered under its stub's id. |
| NpRuntime.Runtime.DestroyProxy | src/npruntime.c:171-184 | Refines the end of a proxy up to the wait for its Deallocate call, and to the end if none is made. |
| NpRuntime.Runtime.FinishDestroyProxy | src/npruntime.c:181-183 | Refines the rest, after the reply. |
| NpRuntime.Runtime.InvokeDeallocate | src/npruntime.c:276-297 | Makes the call exactly if one can be made, and is silent otherwise. |
| NpRuntime.Runtime.HandleDeallocate | src/npruntime.c:252-274 | Refines the handler: the stub is released if it still exists, and the reply is sent in any case. |
| NpRuntime.Runtime.Invalidate | src/npruntime.c:304-323 | Refines an invalidation: only the first one of a valid proxy has an effect or makes a call. |
| NpRuntime.Runtime.SendObject | src/npw-rpc.c:1190-1252 | Refines the marshalling of a reference in all branches: own object or proxy, with the sender's reference or without, shared or last. |
| NpRuntime.Runtime.RecvObject | src/npw-rpc.c:1254-1301 | Refines its receipt: a new proxy, or the own object retained and its stub released if asked; fails exactly if the assert would. |
| NpRuntime.Runtime.DeactivateProxies | src/npruntime.c:1197-1202 | The first loop leaves every proxy invalid and everything else as it was. |
| NpRuntime.Runtime.DestroyStubs | src/npruntime.c:1204-1208 | The second leaves no stub, and each object with just the application's references, or freed if it had none. |
| Wire.U32RoundTrip | src/rpc.c:1066-1072 | Four bytes, most significant first, are received as the number sent, exactly. |
| Wire.I32RoundTrip | src/rpc.c:1057-1063 | Likewise for signed numbers, in two's complement. |
| Wire.U64RoundTrip | src/rpc.c:1075-1083 | A 64-bit number survives being split in two. |
| Wire.PartsAreBits | src/rpc.c:111-134 | Sign, 11 bits of exponent and 20 + 32 bits of mantissa (section 3.4 of IEEE 754-2008) determine a double's 64 bits. |
| Wire.DoubleRoundTrip | src/rpc.c:1086-1102 | Every bit pattern of a double, infinities and NaNs included, is received as sent. |
| Wire.StringRoundTrip | src/rpc.c:1105-1117 | NULL, empty and other strings are told apart and received as sent. |
| RpcMessage.BufferedUntilFull | src/rpc.c:1034-1045 | Nothing is written to the socket before the buffer would be full or is flushed. |
| RpcMessage.FlushedBytesAreOnTheWire | src/rpc.c:1026-1031 | Nothing sent before the last flush is still held back. |
| RpcMessage.Message.SendNow | src/rpc.c:997-1023 | With any short writes the bytes arrive whole and in order; after an error, a part of them. |
| RpcMessage.Message.Flush | src/rpc.c:1026-1031 | Puts exactly the buffer on the wire and empties it; `offset` is reset even on an error. |
| RpcMessage.Message.SendBytes | src/rpc.c:1034-1045 | What leaves room is buffered and nothing is written; otherwise buffer and bytes are written and the buffer is empty. |
| RpcMessage.Message.SendChar | src/rpc.c:1048-1054 | Unless a send fails, appends the encoding of a char that the round trips are about, across whatever flushes that takes. |
| RpcMessage.Message.SendU32 | src/rpc.c:1066-1072 | Unless a send fails, appends the encoding of a uint32 that the round trips are about, across whatever flushes that takes. |
| RpcMessage.Message.SendI32 | src/rpc.c:1057-1063 | Unless a send fails, appends the encoding of a int32 that the round trips are about, across whatever flushes that takes. |
| RpcMessage.Message.SendU64 | src/rpc.c:1075-1083 | Unless a send fails, appends the encoding of a uint64 that the round trips are about, across whatever flushes that takes. |
| RpcMessage.Message.SendDouble | src/rpc.c:1086-1102 | Unless a send fails, appends the encoding of a double that the round trips are about, across whatever flushes that takes. |
| RpcMessage.Message.SendString | src/rpc.c:1105-1117 | Unless a send fails, appends the encoding of a string that the round trips are about, across whatever flushes that takes. |
| RpcMessage.Message.RecvBytes | src/rpc.c:1252-1277 | With any short reads takes exactly the bytes asked for; none asked for is taken for a closed connection. |
| RpcMessage.Message.RecvChar | src/rpc.c:1286-1295 | Takes a char off the unbuffered stream and not a byte more, or fails as the decoder says. |
| RpcMessage.Message.RecvU32 | src/rpc.c:1310-1319 | Takes a uint32 off the unbuffered stream and not a byte more, or fails as the decoder says. |
| RpcMessage.Message.RecvI32 | src/rpc.c:1298-1307 | Takes a int32 off the unbuffered stream and not a byte more, or fails as the decoder says. |
| RpcMessage.Message.RecvU64 | src/rpc.c:1322-1333 | Takes a uint64 off the unbuffered stream and not a byte more, or fails as the decoder says. |
| RpcMessage.Message.RecvDouble | src/rpc.c:1336-1359 | Takes a double off the unbuffered stream and not a byte more, or fails as the decoder says. |
| RpcMessage.Message.RecvString | src/rpc.c:1362-1385 | Takes a string off the unbuffered stream and not a byte more, or fails as the decoder says. |
| NpValues.MembersRoundTrip | src/npw-rpc.c:336-373 | A structure written member by member is received with exactly its transmitted members. |
| NpValues.TransmittedIsExact | src/npw-rpc.c:578-772 | Those are the members of its layout, with their values. |
| NpRoundTrips.NpStringRoundTrip | src/npw-rpc.c:1421-1457 | An NPString keeps length and characters; an empty one gets an (empty) buffer. |
| NpRoundTrips.VariantRoundTrip | src/npw-rpc.c:1463-1565 | A variant of any type keeps type and value, nested object references included. |
| NpRoundTrips.ObjectRefRoundTrip | src/npw-rpc.c:1238-1271 | An object reference keeps owner, plugin, id and the request to release its stub. |
| NpRoundTrips.ByteRangesRoundTrip | src/npw-rpc.c:196-239 | A linked list of byte ranges of any length is received in order. |
| NpRoundTrips.SavedDataRoundTrip | src/npw-rpc.c:246-295 | A saved area is received as sent, an empty one as NULL. |
| NpRoundTrips.WindowRoundTrip | src/npw-rpc.c:380-505 | A window keeps its members, with or without window-system information. |
| NpRoundTrips.WindowPtrRoundTrip | src/npw-rpc.c:507-549 | So does a window that may be NULL. |
| NpRoundTrips.EventRoundTrip | src/npw-rpc.c:727-1030 | An event of each kind is received with the members that kind transmits. |
| NpRoundTrips.PrintRoundTrip | src/npw-rpc.c:1100-1146 | A print record of either mode is received as sent. |
| NpRoundTrips.PrintDataRoundTrip | src/npw-rpc.c:1153-1177 | Print data that is not empty is received as sent. |
| NpRoundTrips.Utf8RoundTrip | src/npw-rpc.c:1377-1414 | A string of characters is received with its terminator. |
| NpRoundTrips.EmptyPrintDataIsLost | src/npw-rpc.c:1166-1177 | Empty print data makes the receiver report a closed connection, whatever follows. |
| NpRoundTrips.MissingCharactersAreTaken | src/npw-rpc.c:1421-1457 | A string sent without its characters is received with the bytes that follow it instead. |
| NpMarshalers.SendMembers | src/npw-rpc.c:336-351 | The calls for the members of a structure append, over any flushes, exactly the bytes that the round trips are about. |
| NpMarshalers.SendByteRanges | src/npw-rpc.c:196-210 | The loop over a list of byte ranges appends the encoding of the whole list, in order. |
| NpMarshalers.SendNpString | src/npw-rpc.c:1421-1433 | Appends the encoding of an NPString, characters only if it has length and characters. |
| NpMarshalers.SendObjectRef | src/npw-rpc.c:1238-1252 | Appends the encoding of an object reference; the release flag only with pass_ref. |
| NpMarshalers.SendVariant | src/npw-rpc.c:1463-1509 | Appends the encoding of a variant; nothing but the type for one without a value. |
| NpMarshalers.SendWsInfo | src/npw-rpc.c:380-403 | Appends the encoding of the window-system information, if any. |
| NpMarshalers.SendWindowData | src/npw-rpc.c:445-471 | Unless a send fails, appends the encoding of a window; a failure inside the window-system information goes unreported. |
| NpMarshalers.SendWindow | src/npw-rpc.c:507-524 | Appends the encoding of a window that may be NULL. |
| NpMarshalers.SendEvent | src/npw-rpc.c:727-772 | Appends the encoding of an event; one of unknown kind is refused before anything is sent. |
| NpMarshalers.SendPrint | src/npw-rpc.c:1100-1121 | Appends the encoding of a print record; an unknown mode is an error after the mode has been sent. |
| NpMarshalers.SendNpValue | src/npw-rpc.c:1591-1712 | For every registered type: appends exactly the bytes, and returns exactly the error, that the round trips are about. |
| NpMarshalers.RecvMembers | src/npw-rpc.c:353-373 | The calls for the members of a structure take exactly its bytes off the stream; of a member received twice the later value counts. |
| NpMarshalers.RecvByteRanges | src/npw-rpc.c:212-239 | The loop takes exactly one list off the stream, in order, whatever follows it. |
| NpMarshalers.RecvNpString | src/npw-rpc.c:1435-1457 | Takes exactly an NPString off the stream, whatever short reads it is given. |
| NpMarshalers.RecvObjectRef | src/npw-rpc.c:1254-1271 | Takes exactly an object reference off the stream; an unknown type, or a release of a stub that is the sender's, is an error. |
| NpMarshalers.RecvVariant | src/npw-rpc.c:1511-1565 | Takes exactly a variant off the stream; one of unknown type has no value. |
| NpMarshalers.RecvWindowData | src/npw-rpc.c:473-505 | Takes exactly a window off the stream. |
| NpMarshalers.RecvSavedData | src/npw-rpc.c:265-295 | Takes exactly a saved area off the stream; length 0 is NULL. |
| NpMarshalers.RecvPrint | src/npw-rpc.c:1123-1146 | Takes exactly a print record off the stream; an unknown mode is an error. |
| NpMarshalers.RecvUtf8 | src/npw-rpc.c:1393-1414 | Takes exactly a counted string off the stream. |
| NpMarshalers.RecvNpValue | src/npw-rpc.c:1591-1712 | For every registered type: takes exactly one value off the stream, or fails as the decoder of the round trips does; an event of unknown kind is an error. |
| RpcArgs.ArrayDataRoundTrip | src/rpc.c:1446-1541 | The elements of an array of any type arrive if and only if they can be transmitted. |
| RpcArgs.SendingStopsAtError | src/rpc.c:1231-1241 | Sending ends with the first error in the list, an unknown type or a refused value. |
| RpcArgsTransfer.SendValue | src/rpc.c:1133-1152 | Appends the bytes of one value that the round trips are about, or returns its marshaler's error. |
| RpcArgsTransfer.SendValues | src/rpc.c:1173-1222 | The loop over an array appends its elements in order, up to the first error. |
| RpcArgsTransfer.SendHeader | src/rpc.c:1130-1164 | Appends the type, and for an array element type, size and whether it has data. |
| RpcArgsTransfer.SendData | src/rpc.c:1167-1238 | Appends the data of an argument; an array of chars in one piece. |
| RpcArgsTransfer.SendArg | src/rpc.c:1130-1241 | Appends one argument, or stops with an error after its header if its type is unknown. |
| RpcArgsTransfer.SendEach | src/rpc.c:1124-1242 | The loop over the arguments appends them in order up to the first error. |
| RpcArgsTransfer.SendArgs | src/rpc.c:1120-1249 | Has exactly the outcome that the round trip is about, bytes and error; an empty list sends nothing. |
| RpcArgsTransfer.RecvValue | src/rpc.c:1408-1427 | Takes exactly one value off the stream; an unknown type is an error. |
| RpcArgsTransfer.RecvValues | src/rpc.c:1458-1535 | The loop takes exactly the given number of elements off the stream, in order. |
| RpcArgsTransfer.RecvArrayData | src/rpc.c:1446-1541 | Takes exactly the data of an array; size 0 fails the assert, and the element type is the message's. |
| RpcArgsTransfer.RecvArg | src/rpc.c:1402-1554 | Takes exactly one argument; another type than the expected one is a mismatch. |
| RpcArgsTransfer.RecvEach | src/rpc.c:1394-1555 | The loop takes the expected arguments in order up to the first error. |
| RpcArgsTransfer.RecvArgs | src/rpc.c:1388-1564 | Takes exactly an argument list, or fails as the decoder of the round trip does; nothing expected reads nothing. |
| RpcFrames.ReplyRoundTrip | src/rpc.c:2035-2052 | The body of a reply is received as sent, up to its end marker. |
| ByteTheorems.PollingAgrees | src/rpc.c:1717-1739 | Polling for bytes tells the browser's event loop what it needs to know of the frames. |
| ByteTheorems.StepIsApply | src/rpc.c:1572-1653 | A step that branches on the tag it has read off the bytes, or polls for bytes, is the step of the protocol on frames. |
| ByteTheorems.SomeCallsAreSensible | src/rpc.c:1904-1917 | There are calls for the runs on bytes to be about: methods with arguments that can be sent and transmitted, and methods without any. |
| ByteTheorems.RunKeepsInv | src/rpc.c:1628-1822 | Every run on bytes keeps the invariant of the protocol and the agreement of bytes and frames. |
| RpcFrameTransfer.Invoke | src/rpc.c:1884-1920 | Unless a send fails: returns the error of the arguments, if any; otherwise puts exactly a header frame and an argument frame on the wire, and leaves nothing in the buffer. |
| RpcFrameTransfer.InvokeHeader | src/rpc.c:1889-1902 | Unless a send fails, puts exactly the header frame on the wire, flushed on its own. |
| RpcFrameTransfer.SendReply | src/rpc.c:2035-2055 | Unless a send fails: returns the error of the results, if any; otherwise puts exactly a reply frame on the wire, and leaves nothing in the buffer. |
| RpcFrameTransfer.RecvMethod | src/rpc.c:1572-1585 | Takes exactly the rest of a header; another end marker is an error. |
| RpcFrameTransfer.RecvReply | src/rpc.c:1979-2013 | Takes exactly the rest of a reply off the stream; without expected results only its end marker. |
| Structures.RectangleArrives | src/npw-rpc.c:336-373 | A rectangle is received with top, left, bottom and right, sent in that order as four uint32. |
| Structures.WindowArrives | src/npw-rpc.c:445-555 | A window, on its own or to be printed into, is received with its id, x, y, width, height, the four edges of its clip rectangle and its type, and with type, visual, colormap and depth of its window-system information if it has any; and what its bytes are. |
| Structures.FullPrintArrives | src/npw-rpc.c:1037-1065 | A full-page print record is received with its two flags, on its own or as a print job of mode 2. |
| Structures.EmbedPrintArrives | src/npw-rpc.c:1072-1146 | A print job of mode 1 is received with its window. |
| Structures.KeyEventArrives | src/npw-rpc.c:699-725 | X events 2 and 3 are received with all thirteen members, the key code among them. |
| Structures.ButtonEventArrives | src/npw-rpc.c:671-697 | X events 4 and 5 likewise, with the button. |
| Structures.MotionEventArrives | src/npw-rpc.c:643-669 | X event 6 likewise, with the hint, which is sent as a char. |
| Structures.CrossingEventArrives | src/npw-rpc.c:611-641 | X events 7 and 8 likewise, with mode, detail and focus. |
| Structures.FocusEventArrives | src/npw-rpc.c:606-609 | X events 9 and 10 are their kind alone. |
| Structures.ExposeEventArrives | src/npw-rpc.c:590-604 | X event 13 is received with the area exposed. |
| Structures.OtherEventsAreRefused | src/npw-rpc.c:727-733 | Events of any other kind are neither sent nor received. |
| ArgValues.BuiltInArrives | src/rpc.c:1133-1152 | Values of the seven built-in types, by number, are received as they were sent. |
| ArgValues.PlainValueArrives | src/npw-rpc.c:1591-1712 | So are values of the NPAPI other than structures and variants, by the number of their type. |
| ArgValues.PrintDataArrives | src/npw-rpc.c:1153-1188 | Print data of up to 4096 bytes is received as it was sent, unless it is empty. |
| ArgValues.VariantArrives | src/npw-rpc.c:1463-1589 | So are variants and object references, handed over or not. |
| ArgValues.EmptyValuesArrive | src/npw-rpc.c:246-295 | A string of length 0 is received as the empty string, and an empty saved area as NULL. |
| ArgValues.BuiltInArrayArrives | src/rpc.c:1154-1222 | An array of a built-in type other than chars is received as it was sent. |
| ArgValues.ValuesRefused | src/npw-rpc.c:727-733 | The values that marshalers refuse, and with which error. |
| ArgValues.UnknownTypeEndsSending | src/rpc.c:1231-1241 | Sending ends with the first argument of unknown type, of which only the type is sent. |
| WireFormat.NumberBytes | src/rpc.c:1066-1072 | A uint32 is four bytes, most significant first. |
| WireFormat.BytesOfNumber | src/rpc.c:1308-1316 | Any four bytes are received as the number they are in that order. |
| WireFormat.SignedBytes | src/rpc.c:1057-1063 | A negative number is sent in two's complement. |
| WireFormat.LongBytes | src/rpc.c:1075-1083 | A uint64 is its upper and then its lower half. |
| WireFormat.DoubleBytes | src/rpc.c:1086-1102 | A double is sign, exponent, upper and lower mantissa (section 3.4 of IEEE 754-2008), a uint32 each. |
| WireFormat.StringBytes | src/rpc.c:1105-1117 | A string is its length and its characters, NULL the length -1. |
| WireFormat.TagBytes | src/rpc.c:919-930 | The exact bytes of a call's header and of the three tags of a sync. |
| WireFormat.ListBytes | src/rpc.c:1120-1249 | The exact frame of an argument list and of a reply; an empty list is no bytes. |
| WireFormat.ArgumentBytes | src/rpc.c:1130-1164 | An argument is the number of its type and its value; a NULL array is type, element type, size and 0. |
| WireFormat.ArrayBytes | src/rpc.c:1154-1222 | An array with elements is type, element type, size, 1 and the elements, of any size from 1. |
| WireFormat.TypeNumbers | src/rpc.h:76-86 | The types that have marshalers are -2006 to -2000 and 1 to 20. |
| WireFormat.BuiltInBytes | src/rpc.c:1133-1152 | How a value of each built-in type is written. |
| WireFormat.ReferenceBytes | src/npw-rpc.c:1238-1252 | The exact bytes of an object reference of each kind, with the release flag and without. |
| WireFormat.VariantBytes | src/npw-rpc.c:1463-1509 | The exact bytes of a variant of each type. |
| WireFormat.ValueBytes | src/npw-rpc.c:107-310 | The exact bytes of handles, notify pointers, byte ranges, saved areas, print data, texts and strings. |
| WireFormat.TaggedBytes | src/npw-rpc.c:507-524 | What precedes the bytes of a window and of either kind of print job, and which types hand references over. |
| Malformed.EndOfStream | src/rpc.c:1252-1277 | A stream that ends too early, and a request for no bytes, are a closed connection. |
| Malformed.NegativeLengths | src/rpc.c:1359-1381 | Length -1 is a NULL string; other negative lengths cannot be allocated. |
| Malformed.OtherReferences | src/npw-rpc.c:1254-1301 | What is made of every kind of reference and every release flag: unknown kinds, and releases of the sender's own stub, are errors. |
| Malformed.OtherVariants | src/npw-rpc.c:1511-1565 | Variants of unknown type have no value; any number but 0 is true. |
| Malformed.OtherTypes | src/npw-rpc.c:1123-1146 | Print jobs of unknown mode and types without marshaler are errors. |
| Malformed.NarrowMembers | src/npw-rpc.c:353-373 | Members narrower than what is sent for them take its low bits. |
| Malformed.UnterminatedText | src/npw-rpc.c:1393-1414 | Text is what was sent up to its terminator or, without one, to its end. |
| Malformed.FlagsAreNotZero | src/npw-rpc.c:405-443 | Any number but 0 says that a window, its information or another byte range follows. |
| Malformed.OtherArguments | src/rpc.c:1402-1446 | Another type than the expected one is a mismatch; a flag other than 0 announces elements; an array with elements of size 0 fails the assert. |
| Malformed.MissingStart | src/rpc.c:1395-1401 | A list that does not begin with its marker is truncated. |
| Malformed.MissingEnd | src/rpc.c:1556-1562 | So is one whose arguments are not followed by the end marker. |
| Malformed.FramesEndWithTheirMarker | src/rpc.c:1580-1585 | A header, or a reply without results, without end marker is an error. |
| Malformed.RepliesEndWithTheirMarker | src/rpc.c:1999-2013 | So is a reply with results. |
| Malformed.OtherTags | src/rpc.c:1628-1653 | Any other tag than the five of the protocol is an error. |
| RpcMap.SlotsAreBindings | src/rpc.c:371-382 | Packed slots with unique keys are a finite map: each slot is the binding of its key, and there are no others. |
| RpcMap.UpdateSlot | src/rpc.c:403-409 | Overwriting a slot in use changes that binding only. |
| RpcMap.AppendSlot | src/rpc.c:426-430 | Filling the next slot adds that binding only. |
| RpcMap.Map.constructor | src/rpc.c:333-343 | A new table is the empty map. |
| RpcMap.Map.Find | src/rpc.c:371-382 | Finds a slot if and only if the map has the key. |
| RpcMap.Map.Lookup | src/rpc.c:384-391 | Returns the value last inserted for the key, and counts the use; all other bindings stay. |
| RpcMap.Map.FreeSlot | src/rpc.c:409-415 | The first free slot is the one after the slots in use: those are exactly the first `n_entries`. |
| RpcMap.Map.Grow | src/rpc.c:417-424 | Growing keeps all slots in use; clearing from `n_entries` on reaches exactly the new ones, whatever they held. |
| RpcMap.Map.Insert | src/rpc.c:393-431 | Binds the key to the value and nothing else; the table has one slot per key and grows by 7 only when full. |
| Identifiers.ObjectsAreFound | src/utils.c:72-92 | Over any run, an object that was given an id is looked up by it until the id is removed. |
| Identifiers.RunKeepsInv | src/utils.c:72-106 | Ids are positive, an identifier has at most one, and it keeps it. |
| Identifiers.SharedAddressChangesId | src/npw-rpc.c:1337-1340 | If another object with an id shares an identifier's address, the identifier's id changes when the object goes: the assumption of the two theorems is needed. |
| Identifiers.RunsOfIds | src/utils.c:55-92 | In any state an object can get an id and an object that has one can lose it, and any identifier can be sent. |
| IdTable.Table.Create | src/utils.c:77-82 | The id returned is one above all given out before, and is bound to the pointer. |
| IdTable.Table.Remove | src/utils.c:84-87 | Unbinds the id, whichever it is, and no other, and says whether it was bound. |
| IdTable.Table.LookupValue | src/utils.c:94-106 | The search in any order finds an id of the pointer if and only if it has one. |
| IdTable.Table.SendIdentifier | src/npw-rpc.c:1332-1348 | Makes the step that the runs above consist of; the assert holds. |
| IdTable.Table.RecvIdentifier | src/npw-rpc.c:1350-1370 | Answers as the runs above have it, so it inverts sending. |
| IdentifierCache.Cache.Reserve | src/npw-viewer.c:288-294 | Keeps the cache as it is if there is room for the entries among 256, and otherwise leaves it empty. |
| IdentifierCache.Cache.Find | src/npw-viewer.c:320-372 | The search in any order finds the identifier of a name if and only if it is cached, and no other identifier. |
| IdentifierCache.Cache.Add | src/npw-viewer.c:303-313 | Keeps the cache true and at most 256 entries large. |
| IdentifierCache.Cache.GetIdentifier | src/npw-viewer.c:2743-2757 | Returns what the uncached call would, whatever the plugin did to the cache during the call, and caches it; a cached name is answered without a call and without a change. |
| IdentifierCache.Cache.GetStringIdentifiers | src/npw-viewer.c:2815-2832 | Returns what the uncached call would, for every name, across cache clearings in between, with one call; the last name is cached. |
| IdentifierCache.Cache.IdentifierIsString | src/npw-viewer.c:2941-2954 | Returns what the uncached call would, without a call if it is cached. |
| IdentifierCache.Cache.UTF8FromIdentifier | src/npw-viewer.c:2999-3016 | Returns what the uncached call would, for a string identifier, without a call if it is cached. |
| IdentifierCache.Cache.IntFromIdentifier | src/npw-viewer.c:3062-3083 | Returns what the uncached call would, for an integer identifier, without a call if it is cached; the assert holds. |

## Left out

- Sockets, `select`, timeouts, reconnects, threads and process spawning: a connection is a pair of byte or frame sequences, and a short read or write takes any positive number of bytes.
- Runs after an error: a run ends when a connection stops being active. Counters are not restored then, and MESSAGE_FAILURE has no reader that understands it.
- Errors of `recv()` other than the end of the stream, and failures of `malloc()`.
- The blocking C functions are cut at their reads and at calls of handlers; the C stack is a value of the model. Which of them an application calls, and when, is left open by the runs.
- Bytes: a frame is written and read whole or in part, but its fields are not steps of their own; taking them one by one off a socket with short reads is `RpcFrameTransfer`. The runs on bytes are those whose arguments and results can be sent and transmitted; `RpcArgs.ArgsRoundTrip` says when that is.
- Handlers: one generic handler (get arguments, run, reply, return) stands for all of them. It was read off the sources that each gets its arguments once, replies once, and only frees memory after that.
- Chromium-style nested event loops are modelled in the wrapper only; the viewer's socket is polled by its main loop alone (src/npw-viewer.c:4968-4975).
- Ownership: in the runs of `Ownership` alone every move can make a call, which `JointTheorems.CallsAreNeverSkipped` proves of the two processes together; the two theorems about skipped calls treat the other case.
- Protocol and objects: which references an argument list or a reply carries is left open. In the runs with bytes its arguments are those that say so, and ids are below 2^32; the id in a DeallocateDone is its caller's own, for the reply is empty.
- Ownership: NPObjects live in a map from pointers, so freed memory is absent rather than dangling; the NULL object and the owning plugin instance travel on the wire (`NpRoundTrips`) but play no part in ownership.
- Ownership: what a native object's own deallocator does (release further objects) is not part of the release that runs it; it happens as separate moves.
- Proxies that outlive their viewer when a new one is started, whose stub ids start again, and sending an invalidated proxy.
- A browser that calls NPClass::Deallocate itself instead of releasing its references.
- Retaining in the wrapper is the browser's own NPN_RetainObject(), which is not part of this model; it is taken to count like the viewer's.
- NpRuntime.Runtime.DestroyStubs: the C code removes entries from a hash table while iterating over it, which glib does not allow; the model visits every remaining stub once, in any order.
- Wrap-around of 32-bit stub ids and of the counter of `id_create()`: ids are unbounded.
- Marshalling: X event serial numbers and masks wider than 32 bits, which the sender cuts off; structures are sets of members that fit their field.
- Marshalling: the file that print data is copied through, and what NPP, stream, plugin and window pointers stand for: they are the ids that travel. A 32-bit process aborts on a notify pointer of 64 bits; processes are taken to be equally wide.
- Marshalling: strings, saved areas and print data longer than a C `int` can count.
- Marshalling: an array of 2^31 elements or more, and arrays of pointer types, whose marshalers would be given the address of the pointer (src/rpc.c:1215-1221); no call uses either.
- NpMarshalers.SendMembers: the calls for the members of a structure are a loop over the list of its members; the C code writes them out.
- Ids of plugin instances and streams as such: only NPIdentifiers are followed through the id table.
- Identifiers.IdsAreFaithful: assumes, as the code does, that no other object with an id has the address of an identifier.
- The identifier cache after a failed call, and asking for the string of an integer identifier or the reverse; the C header leaves the latter undefined.
- IdentifierCache.Cache.GetIdentifier: stands for the string and the integer query, which differ only in the kind of name.
- `rpc_map_destroy()`, the player, the configuration code, X11 and GTK glue, guarded malloc, and debug printing.
