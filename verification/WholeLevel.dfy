/** Protocol, objects and bytes together: frames travel as bytes, and what a reader makes of them, and of the
    references in them, it makes of the bytes. */
module WholeLevel {
  import opened Wire
  import NpValues
  import NpObjects
  import RpcArgs
  import RpcFrames
  import opened RpcEndpoint
  import opened TwoParty
  import Joint
  import B = ByteLevel

  type Item = NpObjects.Item
  type Packet = RpcFrames.Packet

  // --- The references in a list of arguments ---

  function ReferencesInObject(o: NpValues.ObjectRef): seq<Item> {
    match o
    case NullObject => []
    case SenderOwned(_, id) => [NpObjects.SenderOwned(id)]
    case ReceiverOwned(id, releaseStub) => [NpObjects.ReceiverOwned(id, releaseStub)]
  }

  function ReferencesInValue(v: RpcArgs.Value): seq<Item> {
    if v.UserV? && v.user.Object? then ReferencesInObject(v.user.ref)
    else if v.UserV? && v.user.Var? && v.user.variant.VObject? then ReferencesInObject(v.user.variant.o)
    else []
  }

  function ReferencesInValues(vs: seq<RpcArgs.Value>): seq<Item> {
    if vs == [] then [] else ReferencesInValue(vs[0]) + ReferencesInValues(vs[1..])
  }

  // An array that is NULL or empty is sent without its elements.
  function ReferencesInArg(a: RpcArgs.Arg): seq<Item> {
    match a
    case One(_, v) => ReferencesInValue(v)
    case Array(_, _, contents) =>
      if a.IsFilled() && contents.value.Items? then ReferencesInValues(contents.value.items) else []
  }

  function ReferencesIn(args: seq<RpcArgs.Arg>): seq<Item> {
    if args == [] then [] else ReferencesInArg(args[0]) + ReferencesIn(args[1..])
  }

  // --- What a frame says of objects ---

  const RPC_METHOD_NPCLASS_DEALLOCATE: i32 := 78

  // What the calls are about, and which function makes the Deallocate calls among them.
  datatype Talk = Talk(calls: B.Calls, destroys: CallId -> bool)

  // The argument of a Deallocate call.
  predicate NamesStub(args: seq<RpcArgs.Arg>) {
    |args| == 1 && args[0].One? && args[0].kind == RpcArgs.TYPE_UINT32 && args[0].value.UintV?
  }

  // The items that the reader of a packet takes from it. The reply to a Deallocate call is empty: its reader is
  // npobject_destroy_proxy() or g_NPClass_Invalidate(), which knows what it has asked for.
  function ItemsOf(t: Talk, call: CallId, p: Packet): seq<Item> {
    if t.calls.procedure(call) != RPC_METHOD_NPCLASS_DEALLOCATE then ReferencesIn(RpcFrames.ArgsOf(p))
    else
      var args := if p.ArgsPacket? then p.args else t.calls.args(call);
      if !NamesStub(args) then []
      else if p.ArgsPacket? then [NpObjects.Deallocate(args[0].value.u, t.destroys(call))]
      else [NpObjects.DeallocateDone(args[0].value.u, t.destroys(call))]
  }

  predicate Tells(t: Talk, f: Frame, items: seq<Item>) {
    Joint.CarriesItems(f) && ItemsOf(t, f.call, B.PacketOf(t.calls, f)) == items
  }

  // --- The machine ---

  datatype Whole = Whole(j: Joint.State, toV: B.Line, toW: B.Line) {
    function Bytes(): B.Bytewise {
      B.Bytewise(j.s, toV, toW)
    }
  }

  const QUIET := Whole(Joint.START, B.Line([], []), B.Line([], []))

  datatype Act = Emit(x: Side, count: nat) | Make(act: Joint.Act)

  // The step of the protocol can be made on the bytes.
  predicate BytesAllow(t: Talk, w: Whole, act: Joint.Act) {
    && (act.Local? ==> Joint.CanDo(w.j, act))
    && var step := Joint.StepOf(w.j, act); step == [] || B.CanDo(t.calls, w.Bytes(), B.Do(step[0]))
  }

  predicate Reads(j: Joint.State, act: Joint.Act) {
    (act.Plain? || act.Take?) && B.WantsToRead(j.s, act.a)
  }

  // The state as a reader sees it, going by the packet p that it has read.
  function SeenBy(t: Talk, j: Joint.State, a: Action, p: Packet): Joint.State {
    var call := B.CallAtHead(j.s.Inbound(Actor(a)));
    var f := B.Seen(p, call);
    var cargo := if Joint.CarriesItems(f) then j.cargo[f := ItemsOf(t, call, p)] else j.cargo;
    j.(s := B.Reading(j.s, Actor(a), p), cargo := cargo)
  }

  // The state that an act starts from.
  function Basis(t: Talk, w: Whole, act: Joint.Act): Joint.State
    requires BytesAllow(t, w, act)
  {
    if Reads(w.j, act) then SeenBy(t, w.j, act.a, B.Read(t.calls, w.Bytes(), act.a).value.0) else w.j
  }

  // A message is written with arguments that say what it carries.
  predicate CanDo(t: Talk, w: Whole, act: Act) {
    match act
    case Emit(x, count) => B.CanDo(t.calls, w.Bytes(), B.Emit(x, count))
    case Make(a) =>
      && BytesAllow(t, w, a)
      && Joint.CanDo(Basis(t, w, a), a)
      && (a.Message? ==>
            var f := Joint.Sent(a.x, w.j.s, a.a);
            Tells(t, f, Joint.CargoOf(Joint.Do(w.j, a).cargo, f)))
  }

  function Next(t: Talk, w: Whole, act: Act): Whole
    requires CanDo(t, w, act)
  {
    match act
    case Emit(x, count) =>
      var b := B.Next(t.calls, w.Bytes(), B.Emit(x, count));
      Whole(w.j, b.toV, b.toW)
    case Make(a) =>
      var j' := Joint.Do(Basis(t, w, a), a);
      if Joint.StepOf(w.j, a) == [] then w.(j := j')
      else
        var b := B.Next(t.calls, w.Bytes(), B.Do(Joint.StepOf(w.j, a)[0]));
        Whole(j', b.toV, b.toW)
  }

  predicate Legal(t: Talk, w: Whole, acts: seq<Act>)
    decreases |acts|
  {
    acts == [] || (CanDo(t, w, acts[0]) && Legal(t, Next(t, w, acts[0]), acts[1..]))
  }

  function Run(t: Talk, w: Whole, acts: seq<Act>): Whole
    requires Legal(t, w, acts)
    decreases |acts|
  {
    if acts == [] then w else Run(t, Next(t, w, acts[0]), acts[1..])
  }
}
