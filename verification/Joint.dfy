/** The protocol and the objects together.

    Argument lists and replies carry references; dropping the last reference to a valid proxy starts a
    Deallocate call, whose handler destroys the stub and whose reply lets the proxy be freed. Whether a call
    can be made is what rpc_method_invoke_possible() says of the endpoint. Calls nest inside the handlers of
    Deallocate calls too: a handler owes its reply until it returns. */
module Joint {
  import opened RpcEndpoint
  import opened TwoParty
  import opened Ownership

  type Item = NpObjects.Item
  type Bridge = NpObjects.Bridge
  type Ptr = NpObjects.Ptr
  type Effect = NpObjects.Effect
  type Passed = NpObjects.Passed

  // The reply that the handler of a Deallocate call has to send.
  datatype Debt = Debt(call: CallId, item: Item)

  // One side's objects. packed: the Deallocate call whose header has been sent and whose arguments have not.
  datatype Part = Part(bridge: Bridge, packed: seq<Item>, owed: seq<Debt>)

  // cargo: the items that an argument list or a reply carries.
  datatype State = State(s: System, w: Part, v: Part, cargo: map<Frame, seq<Item>>, failed: bool) {
    function Of(x: Side): Part {
      if x.Wrapper? then w else v
    }

    function With(x: Side, part: Part): State {
      if x.Wrapper? then this.(w := part) else this.(v := part)
    }

    predicate CanInvoke(x: Side) { InvokePossible(s.End(x)) }
  }

  const START := State(TwoParty.INITIAL, Part(NpObjects.EMPTY, [], []), Part(NpObjects.EMPTY, [], []), map[], false)

  datatype Act =
    | Local(x: Side, m: Move)                              // application code creates, retains, releases or invalidates
    | Plain(a: Action)                                     // a step of the protocol that carries no items
    | Message(x: Side, a: Action, objects: seq<Passed>)    // an argument list or a reply is sent
    | Take(x: Side, a: Action, ats: seq<Ptr>)              // ... or received, new proxies being allocated at ats

  // Code that touches objects runs in event loops, and in handlers from get_args to send_reply.
  predicate Touches(s: System, x: Side) {
    RunsApplication(s, x) && (s.End(x).stack.Bottom? || TopIsHandler(s.End(x).stack, Running))
  }

  predicate IsLocal(m: Move) {
    !m.MSend? && !m.MDeliver?
  }

  // The same moves as in `Ownership`, but with what the endpoint says about calls.
  function LocalEffect(b: Bridge, m: Move, canInvoke: bool): Effect
    requires Allowed(World(b, NpObjects.EMPTY, [], [], false), m) && IsLocal(m)
  {
    match m
    case MCreate(p) => NpObjects.Effect(b.(heap := b.heap[p := NpObjects.NPObject(1, NpObjects.Native, 1)]), [])
    case MRetain(p) => NpObjects.Effect(NpObjects.Gain(NpObjects.Retain(b, p), p), [])
    case MRelease(p) => NpObjects.Release(NpObjects.Give(b, p), p, canInvoke)
    case MInvalidate(p) => NpObjects.Invalidate(b, p, canInvoke)
  }

  function Alone(b: Bridge): World {
    World(b, NpObjects.EMPTY, [], [], false)
  }

  // The objects of a message are held, and valid if they are proxies, when their turn comes.
  predicate CanPass(b: Bridge, objects: seq<Passed>, canInvoke: bool): (can: bool)
    ensures can ==> NpObjects.CanSendAll(b, objects, canInvoke)
    decreases |objects|
  {
    objects != [] ==>
      && Allowed(Alone(b), MSend(objects[0].p, objects[0].passRef))
      && CanPass(NpObjects.SendOne(b, objects[0], canInvoke).bridge, objects[1..], canInvoke)
  }

  // What side x makes of an item: its objects, the replies it owes for it, and whether an assert() failed.
  datatype Taken = Taken(bridge: Bridge, answers: seq<Item>, failed: bool)

  function TakeOne(b: Bridge, item: Item, at: Ptr, canInvoke: bool): Taken {
    match item
    case Deallocate(id, destroying) =>
      var out := NpObjects.HandleDeallocate(b, id, destroying, canInvoke);
      Taken(out.bridge, out.sent, false)
    case DeallocateDone(id, destroying) =>
      if destroying && id in b.proxies && b.proxies[id] in b.heap && b.heap[b.proxies[id]].kind.Proxy?
      then Taken(NpObjects.FreeProxy(b, b.proxies[id]), [], false) else Taken(b, [], false)
    case _ =>
      match NpObjects.RecvObject(b, item, at, canInvoke)
      case None => Taken(b, [], true)
      case Some((out, p)) =>
        if p in out.bridge.heap then Taken(NpObjects.Gain(out.bridge, p), out.sent, false) else Taken(b, [], true)
  }

  // The pointers are free when their turn comes.
  predicate CanTake(b: Bridge, items: seq<Item>, ats: seq<Ptr>, canInvoke: bool)
    decreases |items|
  {
    |ats| == |items|
    && (items != [] ==>
          && ats[0] !in b.heap
          && CanTake(TakeOne(b, items[0], ats[0], canInvoke).bridge, items[1..], ats[1..], canInvoke))
  }

  function TakeAll(b: Bridge, items: seq<Item>, ats: seq<Ptr>, canInvoke: bool): Taken
    requires CanTake(b, items, ats, canInvoke)
    decreases |items|
  {
    if items == [] then Taken(b, [], false)
    else
      var first := TakeOne(b, items[0], ats[0], canInvoke);
      var others := TakeAll(first.bridge, items[1..], ats[1..], canInvoke);
      Taken(others.bridge, first.answers + others.answers, first.failed || others.failed)
  }

  function CargoOf(cargo: map<Frame, seq<Item>>, f: Frame): seq<Item> {
    if f in cargo then cargo[f] else []
  }

  function Load(cargo: map<Frame, seq<Item>>, frames: seq<Frame>): seq<Item> {
    if frames == [] then [] else CargoOf(cargo, frames[0]) + Load(cargo, frames[1..])
  }

  predicate CarriesItems(f: Frame) {
    f.Args? || f.Reply?
  }

  // The call that the activation on top belongs to.
  function TopCall(st: Stack): CallId {
    if st.On? && (st.top.Await? || st.top.Handler?) then st.top.call else CallId(0, false)
  }

  // Whether a step of the protocol reads an argument list or a reply.
  predicate TakesItems(s: System, a: Action) {
    match a
    case DoGetArgs(x) => TopIsHandler(s.End(x).stack, Entered) && !s.End(x).stack.top.call.bare
    case DoRead(x) => s.Inbound(x) != [] && s.Inbound(x)[0].Reply?
    case _ => false
  }

  // A Deallocate call sends the stub's id, and its handler's reply says that it is done.
  predicate SendsCall(j: State, x: Side, a: Action) {
    a.DoSendArgs? && j.Of(x).packed != []
  }

  predicate PaysDebt(j: State, x: Side, a: Action) {
    var owed := j.Of(x).owed;
    a.DoReply? && owed != [] && owed[|owed| - 1].call == TopCall(j.s.End(x).stack)
  }

  predicate CanDo(j: State, act: Act) {
    match act
    case Local(x, m) =>
      && j.s.w.status.Active? && j.s.v.status.Active?
      && Touches(j.s, x) && IsLocal(m) && Allowed(Alone(j.Of(x).bridge), m)
    case Plain(a) => Enabled(j.s, a) && !a.DoSendArgs? && !a.DoReply? && !TakesItems(j.s, a)
    case Message(x, a, objects) =>
      && (a == DoSendArgs(x) || a == DoReply(x)) && Enabled(j.s, a)
      && (if SendsCall(j, x, a) || PaysDebt(j, x, a) then objects == []
          else CanPass(j.Of(x).bridge, objects, j.CanInvoke(x)))
    case Take(x, a, ats) =>
      && (a == DoGetArgs(x) || a == DoRead(x)) && Enabled(j.s, a) && TakesItems(j.s, a)
      && CanTake(j.Of(x).bridge, CargoOf(j.cargo, j.s.Inbound(x)[0]), ats, InvokePossible(Apply(j.s, a).End(x)))
  }

  function Sent(x: Side, s: System, a: Action): Frame
    requires (a == DoSendArgs(x) || a == DoReply(x)) && Enabled(s, a)
  {
    if a.DoReply? then Reply(TopCall(s.End(x).stack)) else Args(TopCall(s.End(x).stack))
  }

  function Tagged(call: CallId, items: seq<Item>): seq<Debt> {
    if items == [] then [] else [Debt(call, items[0])] + Tagged(call, items[1..])
  }

  function Do(j: State, act: Act): State
    requires CanDo(j, act)
  {
    match act
    case Local(x, m) =>
      var out := LocalEffect(j.Of(x).bridge, m, j.CanInvoke(x));
      if out.sent == [] then j.With(x, j.Of(x).(bridge := out.bridge))
      else j.(s := Apply(j.s, DoInvoke(x, false))).With(x, j.Of(x).(bridge := out.bridge, packed := out.sent))
    case Plain(a) => j.(s := Apply(j.s, a))
    case Message(x, a, objects) =>
      var frame, part, j' := Sent(x, j.s, a), j.Of(x), j.(s := Apply(j.s, a));
      if SendsCall(j, x, a) then j'.(cargo := j.cargo[frame := part.packed]).With(x, part.(packed := []))
      else if PaysDebt(j, x, a) then
        var n := |part.owed| - 1;
        j'.(cargo := j.cargo[frame := [part.owed[n].item]]).With(x, part.(owed := part.owed[..n]))
      else
        var out := NpObjects.SendAll(part.bridge, objects, j.CanInvoke(x));
        j'.(cargo := j.cargo[frame := out.sent]).With(x, part.(bridge := out.bridge))
    case Take(x, a, ats) =>
      var s', part := Apply(j.s, a), j.Of(x);
      var t := TakeAll(part.bridge, CargoOf(j.cargo, j.s.Inbound(x)[0]), ats, InvokePossible(s'.End(x)));
      j.(s := s', failed := j.failed || t.failed)
      .With(x, part.(bridge := t.bridge, owed := part.owed + Tagged(TopCall(j.s.End(x).stack), t.answers)))
  }

  // The step of the protocol that an act makes, if any.
  function StepOf(j: State, act: Act): (step: seq<Action>)
    requires act.Local? ==> CanDo(j, act)
    ensures |step| <= 1
  {
    match act
    case Local(x, m) =>
      if LocalEffect(j.Of(x).bridge, m, j.CanInvoke(x)).sent == [] then [] else [DoInvoke(x, false)]
    case Plain(a) => [a]
    case Message(_, a, _) => [a]
    case Take(_, a, _) => [a]
  }

  predicate Legal(j: State, acts: seq<Act>)
    decreases |acts|
  {
    acts == [] || (CanDo(j, acts[0]) && Legal(Do(j, acts[0]), acts[1..]))
  }

  function Run(j: State, acts: seq<Act>): State
    requires Legal(j, acts)
    decreases |acts|
  {
    if acts == [] then j else Run(Do(j, acts[0]), acts[1..])
  }

  // --- The pair of bridges of `Ownership` ---

  function Items(owed: seq<Debt>): seq<Item> {
    if owed == [] then [] else [owed[0].item] + Items(owed[1..])
  }

  // What side x has sent or is bound to send.
  function Out(j: State, x: Side): seq<Item> {
    Load(j.cargo, j.s.Inbound(Other(x))) + j.Of(x).packed + Items(j.Of(x).owed)
  }

  function View(j: State, x: Side): World {
    World(j.Of(x).bridge, j.Of(Other(x)).bridge, Out(j, x), Out(j, Other(x)), j.failed)
  }
}
