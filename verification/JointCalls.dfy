/** Every Deallocate call comes back: its handler destroys the stub and sends the reply that is owed, and the
    reply finds the proxy it is to free. */
module JointCalls {
  import opened RpcEndpoint
  import opened TwoParty
  import SyncProtocol
  import ProtocolTheorems
  import NpObjects
  import opened Ownership
  import OwnershipTheorems
  import opened Joint
  import opened JointProtocol
  import opened JointTheorems

  // --- Handlers on a stack ---

  // The debts are those of running handlers on the stack, in its order.
  predicate Owes(owed: seq<Debt>, st: Stack) {
    if st.Bottom? then owed == []
    else
      || Owes(owed, st.below)
      || (TopIsHandler(st, Running) && owed != [] && owed[|owed| - 1].call == st.top.call
          && Owes(owed[..|owed| - 1], st.below))
  }

  predicate HandlersBelow(st: Stack, bound: nat) {
    st.On? ==> (st.top.Handler? ==> st.top.call.number < bound) && HandlersBelow(st.below, bound)
  }

  predicate Rising(owed: seq<Debt>) {
    forall i, k :: 0 <= i < k < |owed| ==> owed[i].call.number < owed[k].call.number
  }

  lemma {:induction false} OwesLess(owed: seq<Debt>, st: Stack)
    requires Owes(owed, st) && owed != []
    ensures Owes(owed[..|owed| - 1], st)
  {
    if st.On? && Owes(owed, st.below) {
      OwesLess(owed, st.below);
    }
  }

  lemma {:induction false} OwesBelow(owed: seq<Debt>, st: Stack, bound: nat)
    requires Owes(owed, st) && HandlersBelow(st, bound)
    ensures forall i :: 0 <= i < |owed| ==> owed[i].call.number < bound
  {
    if st.On? {
      if Owes(owed, st.below) {
        OwesBelow(owed, st.below, bound);
      } else {
        var n := |owed| - 1;
        OwesBelow(owed[..n], st.below, bound);
        forall i | 0 <= i < |owed| ensures owed[i].call.number < bound {
          if i < n { assert owed[..n][i] == owed[i]; }
        }
      }
    }
  }

  // What a step other than a reply, or than taking a handler's arguments, does to running handlers: nothing.
  predicate HandlersStay(st': Stack, st: Stack) {
    || st' == st
    || (st'.On? && st'.below == st)
    || (st.On? && !TopIsHandler(st, Running) && (st' == st.below || (st'.On? && st'.below == st.below)))
  }

  lemma StepKeepsHandlers(s: System, a: Action, x: Side)
    requires Enabled(s, a) && a != DoReply(x)
    ensures HandlersStay(Apply(s, a).End(x).stack, s.End(x).stack)
  {
  }

  lemma OwesStays(owed: seq<Debt>, st': Stack, st: Stack)
    requires Owes(owed, st) && HandlersStay(st', st)
    ensures Owes(owed, st')
  {
  }

  // Each handler serves a wait of the other side, and waits are numbered upwards.
  lemma {:induction false} BlockedHandlersBelow(base: SyncProtocol.Base, ctl: Side, r: Stack, b: Stack, bound: nat)
    requires SyncProtocol.Core(base, ctl, r, b) && ProtocolTheorems.Descending(r, bound)
    ensures HandlersBelow(b, bound)
    decreases SyncProtocol.Depth(r) + SyncProtocol.Depth(b)
  {
    if r.On? { ActiveHandlersBelow(base, Other(ctl), b.below, r.below, bound); }
  }

  lemma {:induction false} ActiveHandlersBelow(base: SyncProtocol.Base, ctl: Side, r: Stack, b: Stack, bound: nat)
    requires SyncProtocol.Core(base, ctl, r, b) && ProtocolTheorems.Descending(b, bound)
    ensures HandlersBelow(r, bound)
    decreases SyncProtocol.Depth(r) + SyncProtocol.Depth(b)
  {
    if r.On? {
      ProtocolTheorems.DescendingWeakens(b.below, b.top.call.number, bound);
      BlockedHandlersBelow(base, Other(ctl), b.below, r.below, bound);
    }
  }

  lemma ActiveHandlerIsNewest(s: System, x: Side)
    requires SyncProtocol.Inv(s) && ProtocolTheorems.BothDescend(s)
    requires var st := s.End(x).stack; TopIsHandler(st, Entered) || TopIsHandler(st, Running)
    ensures var st := s.End(x).stack; HandlersBelow(st.below, st.top.call.number)
  {
    var token, base, ask :| SyncProtocol.Coherent(s, token, base, ask);
    NewestCoherent(s, x, token, base, ask);
  }

  lemma NewestCoherent(s: System, x: Side, token: SyncProtocol.Token, base: SyncProtocol.Base, ask: SyncProtocol.Ask)
    requires SyncProtocol.Coherent(s, token, base, ask) && ProtocolTheorems.BothDescend(s)
    requires var st := s.End(x).stack; TopIsHandler(st, Entered) || TopIsHandler(st, Running)
    ensures var st := s.End(x).stack; HandlersBelow(st.below, st.top.call.number)
  {
    ProtocolTheorems.ControlOfToken(s, token, base, ask);
    var r, b := s.End(x).stack, SyncProtocol.Unwound(s.End(Other(x)).stack);
    assert SyncProtocol.Core(base, x, r, b) && ProtocolTheorems.Descending(s.End(Other(x)).stack, s.calls);
    assert ProtocolTheorems.Descending(b, s.calls);
    BlockedHandlersBelow(base, Other(x), b.below, r.below, r.top.call.number);
  }

  // When a reply is read, its sender runs no handler begun since.
  lemma ReplyEndsHandlers(s: System, x: Side)
    requires SyncProtocol.Inv(s) && ProtocolTheorems.BothDescend(s)
    requires Waiting(s.End(x).stack) && s.Inbound(x) != [] && s.Inbound(x)[0].Reply?
    ensures HandlersBelow(SyncProtocol.Unwound(s.End(Other(x)).stack), s.Inbound(x)[0].call.number)
  {
    var token, base, ask :| SyncProtocol.Coherent(s, token, base, ask);
    SyncProtocol.ReplyReadIsOwn(s, x, token, base, ask);
    ReplyCoherent(s, x, base, ask);
  }

  lemma ReplyCoherent(s: System, x: Side, base: SyncProtocol.Base, ask: SyncProtocol.Ask)
    requires SyncProtocol.HoldsReply(s, x, base, ask) && ProtocolTheorems.BothDescend(s)
    requires s.Inbound(x) != [] && s.Inbound(x)[0].Reply? && s.End(x).stack.On?
    requires s.End(x).stack.top == Await(s.Inbound(x)[0].call, true)
    ensures HandlersBelow(SyncProtocol.Unwound(s.End(Other(x)).stack), s.Inbound(x)[0].call.number)
  {
    var st, y := s.End(x).stack, SyncProtocol.Unwound(s.End(Other(x)).stack);
    BlockedHandlersBelow(base, x, st.below, y, st.top.call.number);
  }

  // At most one argument list or reply is under way.
  lemma OneCarrier(s: System, x: Side, f: Frame, x': Side, f': Frame)
    requires SyncProtocol.Inv(s) && f in s.Inbound(x) && f' in s.Inbound(x') && CarriesItems(f) && CarriesItems(f')
    ensures x == x' && f == f'
  {
    var token, base, ask :| SyncProtocol.Coherent(s, token, base, ask);
    CarrierCoherent(s, x, f, x', f', token, base, ask);
  }

  lemma CarrierCoherent(s: System, x: Side, f: Frame, x': Side, f': Frame,
                        token: SyncProtocol.Token, base: SyncProtocol.Base, ask: SyncProtocol.Ask)
    requires SyncProtocol.Coherent(s, token, base, ask)
    requires f in s.Inbound(x) && f' in s.Inbound(x') && CarriesItems(f) && CarriesItems(f')
    ensures x == x' && f == f'
  {
    hide SyncProtocol.Coherent, ProtocolTheorems.Moving, ProtocolTheorems.Target;
    var sent, call := ProtocolTheorems.FramesOfToken(s, token, base, ask);
    CarrierOnWire(token, ask, sent, call, f);
    CarrierOnWire(token, ask, sent, call, f');
  }

  lemma CarrierOnWire(token: SyncProtocol.Token, ask: SyncProtocol.Ask, sent: bool, call: CallId, f: Frame)
    requires CarriesItems(f) && (sent ==> token.At? || token.StartFlying?)
    ensures f !in SyncProtocol.WithAsk(ask, [])
    ensures var frames := ProtocolTheorems.Moving(token, call) + SyncProtocol.ArgsFrames(sent, call);
      f in frames || f in SyncProtocol.WithAsk(ask, frames) ==> f == if sent then Args(call) else Reply(call)
  {
  }

  // --- The invariant ---

  predicate AreReferences(items: seq<Item>) {
    forall i :: 0 <= i < |items| ==> items[i].SenderOwned? || items[i].ReceiverOwned?
  }

  // A Deallocate call travels alone, and so does the reply to it.
  predicate Consistent(f: Frame, items: seq<Item>) {
    AreReferences(items) || (|items| == 1 && (if f.Args? then items[0].Deallocate? else items[0].DeallocateDone?))
  }

  predicate CargoOk(cargo: map<Frame, seq<Item>>) {
    forall f :: f in cargo ==> Consistent(f, cargo[f])
  }

  predicate DebtsOk(j: State, x: Side) {
    Owes(j.Of(x).owed, j.s.End(x).stack) && Rising(j.Of(x).owed)
  }

  ghost predicate CallInv(j: State) {
    JointInv(j) && ProtocolTheorems.BothDescend(j.s) && CargoOk(j.cargo) && DebtsOk(j, Wrapper) && DebtsOk(j, Viewer)
  }

  lemma DoIsStep(j: State, act: Act)
    requires CanDo(j, act)
    ensures TwoParty.Legal(j.s, StepOf(j, act)) && Do(j, act).s == TwoParty.Run(j.s, StepOf(j, act))
  {
    if act.Local? { CanCall(j.s, act.x); }
    hide Apply, Enabled, LocalEffect, NpObjects.SendAll, TakeAll, CanTake, CanPass, Allowed, TakesItems,
      RunsApplication;
  }

  lemma DoDescends(j: State, act: Act)
    requires CanDo(j, act) && ProtocolTheorems.BothDescend(j.s)
    ensures ProtocolTheorems.BothDescend(Do(j, act).s)
  {
    hide CanDo, Do, StepOf, Apply, Enabled;
    DoIsStep(j, act);
    ProtocolTheorems.RunDescends(j.s, StepOf(j, act));
  }

  // --- Debts ---

  // Of a side that neither replies nor takes arguments.
  lemma DebtsStay(j: State, j': State, z: Side, step: seq<Action>)
    requires DebtsOk(j, z) && |step| <= 1 && TwoParty.Legal(j.s, step) && j'.s == TwoParty.Run(j.s, step)
    requires step != [] ==> step[0] != DoReply(z)
    requires j'.Of(z).owed == j.Of(z).owed
    ensures DebtsOk(j', z)
  {
    hide Apply, Enabled, Owes, HandlersStay;
    if step != [] {
      StepKeepsHandlers(j.s, step[0], z);
      OwesStays(j.Of(z).owed, j'.s.End(z).stack, j.s.End(z).stack);
    }
  }

  // The handler on top pays its debt when it replies.
  lemma DebtPaid(j: State, z: Side, objects: seq<Passed>)
    requires DebtsOk(j, z) && CanDo(j, Message(z, DoReply(z), objects))
    ensures DebtsOk(Do(j, Message(z, DoReply(z), objects)), z)
  {
    var st, owed := j.s.End(z).stack, j.Of(z).owed;
    SyncProtocol.ReplyFrame(j.s, z);
    if owed != [] && Owes(owed, st.below) { OwesLess(owed, st.below); }
    hide Apply, NpObjects.SendAll, CanPass, Enabled;
  }

  lemma ArgsTaken(s: System, z: Side)
    requires SyncProtocol.Inv(s) && Enabled(s, DoGetArgs(z)) && !s.End(z).stack.top.call.bare
    ensures s.Inbound(z)[0] == Args(s.End(z).stack.top.call)
    ensures var st := s.End(z).stack; Apply(s, DoGetArgs(z)).End(z).stack == On(Handler(st.top.call, Running), st.below)
  {
    hide SyncProtocol.Coherent;
    var token, base, ask :| SyncProtocol.Coherent(s, token, base, ask);
    SyncProtocol.GetterHasControl(s, z, token, base, ask);
    SyncProtocol.GetArgsFrame(s, z);
  }

  predicate OneMore(owed': seq<Debt>, owed: seq<Debt>, call: CallId) {
    owed' == owed || (|owed'| == |owed| + 1 && owed'[..|owed|] == owed && owed'[|owed|].call == call)
  }

  // A handler takes its arguments, and with them perhaps a debt.
  lemma DebtTaken(j: State, j': State, z: Side)
    requires SyncProtocol.Inv(j.s) && ProtocolTheorems.BothDescend(j.s) && DebtsOk(j, z)
    requires Enabled(j.s, DoGetArgs(z)) && !j.s.End(z).stack.top.call.bare && j'.s == Apply(j.s, DoGetArgs(z))
    requires OneMore(j'.Of(z).owed, j.Of(z).owed, j.s.End(z).stack.top.call)
    ensures DebtsOk(j', z)
  {
    hide SyncProtocol.Inv, ProtocolTheorems.BothDescend, Apply, HandlersBelow;
    var st, owed, owed' := j.s.End(z).stack, j.Of(z).owed, j'.Of(z).owed;
    ArgsTaken(j.s, z);
    ActiveHandlerIsNewest(j.s, z);
    OwesBelow(owed, st.below, st.top.call.number);
    forall i, k | 0 <= i < k < |owed'| ensures owed'[i].call.number < owed'[k].call.number {
      assert i < |owed| && owed'[..|owed|][i] == owed'[i];
      if k < |owed| { assert owed'[..|owed|][k] == owed'[k]; }
    }
    assert owed' != owed ==> owed'[..|owed'| - 1] == owed;
  }

  // --- Cargo ---

  lemma {:induction false} ReferencesNeedNoAnswer(items: seq<Item>)
    requires AreReferences(items)
    ensures AnswersOf(items) == []
    decreases |items|
  {
    if items != [] { ReferencesNeedNoAnswer(items[1..]); }
  }

  lemma ConsistentAnswers(f: Frame, items: seq<Item>)
    requires Consistent(f, items)
    ensures AnswersOf(items) == (if |items| == 1 then Answer(items[0]) else [])
    ensures f.Reply? ==> AnswersOf(items) == []
  {
    if AreReferences(items) { ReferencesNeedNoAnswer(items); }
    else { assert items[1..] == []; }
  }

  // What a side owes after the handler of `call` has received some items.
  predicate DebtsAfter(owed': seq<Debt>, owed: seq<Debt>, call: CallId, items: seq<Item>) {
    if |items| == 1 && items[0].Deallocate?
    then owed' == owed + [Debt(call, NpObjects.DeallocateDone(items[0].id, items[0].destroying))]
    else owed' == owed
  }

  lemma TakenDebts(j: State, x: Side, a: Action, ats: seq<Ptr>, f: Frame)
    requires JointInv(j) && CargoOk(j.cargo) && j.s.Inbound(x) != [] && f == j.s.Inbound(x)[0]
    requires CanDo(j, Take(x, a, ats))
    ensures DebtsAfter(Do(j, Take(x, a, ats)).Of(x).owed, j.Of(x).owed, TopCall(j.s.End(x).stack), CargoOf(j.cargo, f))
    ensures f.Reply? ==> Do(j, Take(x, a, ats)).Of(x).owed == j.Of(x).owed
  {
    hide SyncProtocol.Inv, Ownership.Inv, Apply, Items, Enabled, Packing, TakeAll, CanTake, View, Load, AnswersOf;
    EitherView(j, x);
    TakingCanInvoke(j.s, x, a);
    TakenStream(j, x);
    SameBridge(j, x);
    var items := CargoOf(j.cargo, f);
    assert Consistent(f, items);
    TakenAnswers(View(j, x), items, Rest(j, x), ats);
    ConsistentAnswers(f, items);
    TaggedOne(TopCall(j.s.End(x).stack), AnswersOf(items));
  }

  lemma TaggedOne(call: CallId, items: seq<Item>)
    requires |items| <= 1
    ensures Tagged(call, items) == (if items == [] then [] else [Debt(call, items[0])])
  {
  }

  lemma KeepsCargo(j: State, act: Act)
    requires JointInv(j) && CargoOk(j.cargo) && CanDo(j, act)
    ensures CargoOk(Do(j, act).cargo)
  {
    hide SyncProtocol.Inv, Apply, Enabled, Items, NpObjects.SendAll, TakeAll, CanTake, NpObjects.Sound, Half,
      LocalEffect;
    match act
    case Message(x, a, objects) =>
      var owed := j.Of(x).owed;
      if SendsCall(j, x, a) {
      } else if PaysDebt(j, x, a) {
        ItemsButLast(owed);
        assert Items(owed)[|Items(owed)| - 1].DeallocateDone?;
      } else {
        EitherView(j, x);
        NpObjects.MessagesAreAtomic(j.Of(x).bridge, objects, j.CanInvoke(x));
      }
    case _ =>
  }

  lemma OwedStays(j: State, act: Act, z: Side)
    requires CanDo(j, act) && !act.Take? && !(act.Message? && act.a == DoReply(z))
    ensures Do(j, act).Of(z).owed == j.Of(z).owed
    ensures StepOf(j, act) != [] ==> StepOf(j, act)[0] != DoReply(z)
  {
    hide Apply, Enabled, LocalEffect, NpObjects.SendAll, CanPass, Allowed, TakesItems;
  }

  lemma KeepsDebts(j: State, act: Act, z: Side)
    requires CallInv(j) && CanDo(j, act)
    ensures DebtsOk(Do(j, act), z)
  {
    hide JointInv, CanDo, Do, StepOf, DebtsOk, CargoOk, ProtocolTheorems.BothDescend;
    DoIsStep(j, act);
    if act.Message? && act.a == DoReply(z) {
      assert act == Message(z, DoReply(z), act.objects) by { MessageSide(j, act); }
      DebtPaid(j, z, act.objects);
    } else if act.Take? {
      KeepsTakenDebts(j, act.x, act.a, act.ats, z);
    } else {
      OwedStays(j, act, z);
      DebtsStay(j, Do(j, act), z, StepOf(j, act));
    }
  }

  lemma MessageSide(j: State, act: Act)
    requires act.Message? && CanDo(j, act)
    ensures act.a.DoReply? ==> act.a.side == act.x
  {
  }

  lemma KeepsTakenDebts(j: State, x: Side, a: Action, ats: seq<Ptr>, z: Side)
    requires CallInv(j) && CanDo(j, Take(x, a, ats))
    ensures DebtsOk(Do(j, Take(x, a, ats)), z)
  {
    hide SyncProtocol.Inv, Ownership.Inv, DebtsOk, CargoOk, ProtocolTheorems.BothDescend, Apply, Enabled, TakeAll,
      CanTake;
    var j' := Do(j, Take(x, a, ats));
    TakenReader(j.s, x, a);
    TakenDebts(j, x, a, ats, j.s.Inbound(x)[0]);
    if z == x && a == DoGetArgs(x) {
      DebtTaken(j, j', z);
    } else {
      assert j'.s == TwoParty.Run(j.s, [a]) && TwoParty.Legal(j.s, [a]);
      DebtsStay(j, j', z, [a]);
    }
  }

  // Handlers take arguments, and waits take replies.
  lemma TakenReader(s: System, x: Side, a: Action)
    requires SyncProtocol.Inv(s) && Enabled(s, a) && TakesItems(s, a) && (a == DoGetArgs(x) || a == DoRead(x))
    ensures s.Inbound(x) != []
    ensures a == DoGetArgs(x) ==> !s.End(x).stack.top.call.bare && s.Inbound(x)[0] == Args(s.End(x).stack.top.call)
    ensures a == DoRead(x) ==> s.Inbound(x)[0].Reply? && s.End(x).stack.top == Await(s.Inbound(x)[0].call, true)
  {
    hide SyncProtocol.Coherent, Apply;
    if a == DoGetArgs(x) {
      ArgsTaken(s, x);
    } else {
      var token, base, ask :| SyncProtocol.Coherent(s, token, base, ask);
      SyncProtocol.ReplyReadIsOwn(s, x, token, base, ask);
    }
  }

  /** Every step keeps, besides the invariants of protocol and objects: the replies that a side owes are those
      of Deallocate handlers running on its stack, in the order of the stack; and Deallocate calls and the
      replies to them travel alone. */
  lemma DoKeepsCalls(j: State, act: Act)
    requires CallInv(j) && CanDo(j, act)
    ensures CallInv(Do(j, act))
  {
    hide JointInv, CanDo, Do, DebtsOk, CargoOk, ProtocolTheorems.BothDescend;
    DoKeepsInv(j, act);
    DoDescends(j, act);
    KeepsCargo(j, act);
    KeepsDebts(j, act, Wrapper);
    KeepsDebts(j, act, Viewer);
  }

  lemma {:induction false} RunKeepsCalls(j: State, acts: seq<Act>)
    requires CallInv(j) && Joint.Legal(j, acts)
    ensures CallInv(Joint.Run(j, acts))
    decreases |acts|
  {
    hide CallInv, Do, CanDo;
    if acts != [] {
      DoKeepsCalls(j, acts[0]);
      RunKeepsCalls(Do(j, acts[0]), acts[1..]);
    }
  }

  lemma ReachableCalls(j: State)
    requires Reachable(j)
    ensures CallInv(j)
  {
    hide JointInv, CanDo, Do;
    var acts :| Joint.Legal(Joint.START, acts) && Joint.Run(Joint.START, acts) == j;
    InitiallyJoint();
    RunKeepsCalls(Joint.START, acts);
  }

  // --- A Deallocate call from its start to its end ---

  // The stub is gone, and its id has been given out.
  predicate Gone(b: Bridge, id: NpObjects.StubId) {
    id <= b.nextId && id !in b.stubs
  }

  predicate StillPacked(j: State, x: Side, call: CallId, item: Item) {
    j.Of(x).packed == [item] && j.s.End(x).stack.On? && j.s.End(x).stack.top == Await(call, false)
  }

  predicate OnItsWay(j: State, x: Side, call: CallId, item: Item) {
    Args(call) in j.s.Inbound(Other(x)) && CargoOf(j.cargo, Args(call)) == [item]
  }

  predicate BeingHandled(j: State, x: Side, call: CallId, item: Item)
    requires item.Deallocate?
  {
    Debt(call, NpObjects.DeallocateDone(item.id, item.destroying)) in j.Of(Other(x)).owed
    && Gone(j.Of(Other(x)).bridge, item.id)
  }

  predicate Answered(j: State, x: Side, call: CallId, item: Item)
    requires item.Deallocate?
  {
    Reply(call) in j.s.Inbound(x)
    && CargoOf(j.cargo, Reply(call)) == [NpObjects.DeallocateDone(item.id, item.destroying)]
    && Gone(j.Of(Other(x)).bridge, item.id)
  }

  predicate InProgress(j: State, x: Side, call: CallId, item: Item) {
    item.Deallocate? && !call.bare
    && (StillPacked(j, x, call, item) || OnItsWay(j, x, call, item)
        || BeingHandled(j, x, call, item) || Answered(j, x, call, item))
  }

  // --- Stubs that are gone stay gone ---

  // From b to b' no stub id that had been given out has come to stand for another object.
  predicate Retires(b: Bridge, b': Bridge) {
    && b.nextId <= b'.nextId
    && forall id :: id in b'.stubs && id <= b.nextId ==> id in b.stubs && b'.stubs[id] == b.stubs[id]
  }

  lemma LocalRetires(b: Bridge, m: Move, canInvoke: bool)
    requires IsLocal(m) && Allowed(Alone(b), m)
    ensures Retires(b, LocalEffect(b, m, canInvoke).bridge)
  {
  }

  lemma SendOneRetires(b: Bridge, o: Passed, canInvoke: bool)
    requires o.p in b.heap && b.heap[o.p].held > 0 && b.heap[o.p].referenceCount > 0
    ensures Retires(b, NpObjects.SendOne(b, o, canInvoke).bridge)
  {
  }

  lemma {:induction false} SendAllRetires(b: Bridge, objects: seq<Passed>, canInvoke: bool)
    requires NpObjects.CanSendAll(b, objects, canInvoke)
    ensures Retires(b, NpObjects.SendAll(b, objects, canInvoke).bridge)
    decreases |objects|
  {
    hide NpObjects.SendOne;
    if objects != [] {
      SendOneRetires(b, objects[0], canInvoke);
      SendAllRetires(NpObjects.SendOne(b, objects[0], canInvoke).bridge, objects[1..], canInvoke);
    }
  }

  lemma TakeOneRetires(b: Bridge, item: Item, at: Ptr, canInvoke: bool)
    ensures Retires(b, TakeOne(b, item, at, canInvoke).bridge)
  {
  }

  lemma {:induction false} TakeAllRetires(b: Bridge, items: seq<Item>, ats: seq<Ptr>, canInvoke: bool)
    requires CanTake(b, items, ats, canInvoke)
    ensures Retires(b, TakeAll(b, items, ats, canInvoke).bridge)
    decreases |items|
  {
    hide TakeOne;
    if items != [] {
      TakeOneRetires(b, items[0], ats[0], canInvoke);
      TakeAllRetires(TakeOne(b, items[0], ats[0], canInvoke).bridge, items[1..], ats[1..], canInvoke);
    }
  }

  lemma DoRetires(j: State, act: Act, z: Side)
    requires CanDo(j, act)
    ensures Retires(j.Of(z).bridge, Do(j, act).Of(z).bridge)
  {
    hide Apply, LocalEffect, NpObjects.SendAll, TakeAll, CanTake, CanPass, Allowed;
    match act
    case Local(x, m) => LocalRetires(j.Of(x).bridge, m, j.CanInvoke(x));
    case Message(x, a, objects) =>
      if !SendsCall(j, x, a) && !PaysDebt(j, x, a) { SendAllRetires(j.Of(x).bridge, objects, j.CanInvoke(x)); }
    case Take(x, a, ats) =>
      TakeAllRetires(j.Of(x).bridge, CargoOf(j.cargo, j.s.Inbound(x)[0]), ats, InvokePossible(Apply(j.s, a).End(x)));
    case _ =>
  }

  // --- One step of the call ---

  lemma SenderSends(s: System, a: Action, x: Side, call: CallId)
    requires Enabled(s, a) && s.End(x).stack.On? && s.End(x).stack.top == Await(call, false) && a != DoSendArgs(x)
    ensures Actor(a) != x
    ensures Apply(s, a).End(x) == s.End(x)
  {
  }

  lemma PackedWaits(j: State, act: Act, x: Side, call: CallId, item: Item)
    requires CanDo(j, act) && StillPacked(j, x, call, item) && !(act.Message? && act.a == DoSendArgs(x))
    ensures StillPacked(Do(j, act), x, call, item)
  {
    hide Apply, LocalEffect, NpObjects.SendAll, TakeAll, CanTake, CanPass, Allowed;
    DoIsStep(j, act);
    if StepOf(j, act) != [] {
      var a := StepOf(j, act)[0];
      SenderSends(j.s, a, x, call);
      assert Do(j, act).s == Apply(j.s, a);
    }
  }

  lemma PackedIsSent(j: State, act: Act, x: Side, call: CallId, item: Item)
    requires CanDo(j, act) && StillPacked(j, x, call, item) && act.Message? && act.a == DoSendArgs(x)
    ensures OnItsWay(Do(j, act), x, call, item)
  {
    hide NpObjects.SendAll, TakeAll, CanTake, CanPass, Allowed;
    SyncProtocol.SendArgsFrame(j.s, x);
    hide Apply;
  }

  lemma SameItemsKeep(new': seq<Frame>, old': seq<Frame>, f: Frame)
    requires SameItems(new', old') && f in old' && CarriesItems(f)
    ensures f in new'
  {
    if new' != old' {
      var i :| 0 <= i < |old'| && old'[i] == f;
      if |new'| > |old'| { assert new'[..|old'|][i] == new'[i]; } else { assert old'[1..][i - 1] == f; }
    }
  }

  lemma NoneCarried(frames: seq<Frame>, f: Frame)
    requires NoItems(frames) && CarriesItems(f)
    ensures f !in frames
  {
  }

  // While an argument list or a reply is under way, none is sent.
  lemma CarriedStays(j: State, act: Act, z: Side, f: Frame)
    requires JointInv(j) && CanDo(j, act) && f in j.s.Inbound(z) && CarriesItems(f) && !act.Take?
    ensures !act.Message? && f in Do(j, act).s.Inbound(z) && Do(j, act).cargo == j.cargo
  {
    hide SyncProtocol.Inv, Ownership.Inv, Apply, LocalEffect, NpObjects.SendAll, CanPass, Allowed, View, SameItems;
    match act
    case Local(x, m) =>
      CanCall(j.s, x);
      FramesUnread(j.s, DoInvoke(x, false), z);
      SameItemsKeep(Apply(j.s, DoInvoke(x, false)).Inbound(z), j.s.Inbound(z), f);
    case Plain(a) =>
      PlainFrames(j.s, a, z);
      SameItemsKeep(Apply(j.s, a).Inbound(z), j.s.Inbound(z), f);
    case Message(x, a, objects) =>
      QuietWires(j.s, x, a);
      NoneCarried(j.s.Inbound(z), f);
  }

  // What is taken is the one argument list or reply under way.
  lemma CarriedIsTaken(j: State, x: Side, a: Action, ats: seq<Ptr>, z: Side, f: Frame)
    requires JointInv(j) && CanDo(j, Take(x, a, ats)) && f in j.s.Inbound(z) && CarriesItems(f)
    ensures x == z && j.s.Inbound(x) != [] && j.s.Inbound(x)[0] == f
    ensures a == if f.Args? then DoGetArgs(x) else DoRead(x)
    ensures f.Args? ==> TopCall(j.s.End(x).stack) == f.call
  {
    hide SyncProtocol.Inv, Ownership.Inv, Apply, TakeAll, CanTake, View;
    TakenReader(j.s, x, a);
    OneCarrier(j.s, x, j.s.Inbound(x)[0], z, f);
  }

  // The stub named by the item that is taken goes.
  lemma TakenStubGoes(w: World, at: Ptr)
    requires Ownership.Inv(w) && w.toA != [] && w.toA[0].Deallocate? && at !in w.a.heap
    ensures Gone(TakeOne(w.a, w.toA[0], at, true).bridge, w.toA[0].id)
  {
    NamedStubExists(w);
    DestroyStubEffect(w.a, w.toA[0].id);
  }

  lemma CallIsTaken(j: State, act: Act, x: Side, call: CallId, item: Item)
    requires CallInv(j) && CanDo(j, act) && act.Take? && item.Deallocate? && OnItsWay(j, x, call, item)
    ensures BeingHandled(Do(j, act), x, call, item)
  {
    hide SyncProtocol.Inv, Ownership.Inv, DebtsOk, CargoOk, Apply, Enabled, TakeOne, Load, Items,
      ProtocolTheorems.BothDescend;
    var y, ats := Other(x), act.ats;
    CarriedIsTaken(j, act.x, act.a, ats, y, Args(call));
    TakingCanInvoke(j.s, y, act.a);
    TakenDebts(j, y, act.a, ats, Args(call));
    EitherView(j, y);
    TakenStream(j, y);
    SameBridge(j, y);
    TakenStubGoes(View(j, y), ats[0]);
    TakeAllOfOne(j.Of(y).bridge, item, ats);
  }

  lemma TakeAllOfOne(b: Bridge, item: Item, ats: seq<Ptr>)
    requires CanTake(b, [item], ats, true)
    ensures TakeAll(b, [item], ats, true).bridge == TakeOne(b, item, ats[0], true).bridge && ats[0] !in b.heap
  {
    assert [item][1..] == [];
  }

  lemma HandlerReplies(j: State, act: Act, x: Side, call: CallId, item: Item)
    requires CanDo(j, act) && item.Deallocate? && BeingHandled(j, x, call, item)
    requires act.Message? && act.a == DoReply(Other(x)) && act.x == Other(x)
    ensures BeingHandled(Do(j, act), x, call, item) || Answered(Do(j, act), x, call, item)
  {
    var y, owed := Other(x), j.Of(Other(x)).owed;
    var debt := Debt(call, NpObjects.DeallocateDone(item.id, item.destroying));
    SyncProtocol.ReplyFrame(j.s, y);
    DoRetires(j, act, y);
    if owed[|owed| - 1] != debt { assert debt in owed[..|owed| - 1]; }
    hide Apply, NpObjects.SendAll, CanPass, Enabled, LocalEffect, TakeAll, CanTake, Allowed;
  }

  lemma HandlerGoesOn(j: State, act: Act, x: Side, call: CallId, item: Item)
    requires JointInv(j) && CargoOk(j.cargo) && CanDo(j, act) && item.Deallocate? && BeingHandled(j, x, call, item)
    requires !(act.Message? && act.a == DoReply(Other(x)))
    ensures BeingHandled(Do(j, act), x, call, item)
  {
    hide JointInv, CargoOk, CanDo, Do, DebtsAfter;
    DoRetires(j, act, Other(x));
    if act.Take? { TakingKeepsDebts(j, act, Other(x)); } else { OwedStays(j, act, Other(x)); }
  }

  lemma TakingKeepsDebts(j: State, act: Act, y: Side)
    requires JointInv(j) && CargoOk(j.cargo) && CanDo(j, act) && act.Take?
    ensures forall debt :: debt in j.Of(y).owed ==> debt in Do(j, act).Of(y).owed
  {
    hide SyncProtocol.Inv, Ownership.Inv, CargoOk, Apply, TakeAll, CanTake, View, Enabled, PartOk;
    TakenReader(j.s, act.x, act.a);
    if act.x == y { TakenDebts(j, y, act.a, act.ats, j.s.Inbound(y)[0]); }
  }

  // The step that ends the call: the caller reads the reply.
  predicate Ends(j: State, act: Act, x: Side, call: CallId) {
    act.Take? && act.x == x && act.a == DoRead(x) && j.s.Inbound(x) != [] && j.s.Inbound(x)[0] == Reply(call)
  }

  lemma AnswerStays(j: State, act: Act, x: Side, call: CallId, item: Item)
    requires JointInv(j) && CanDo(j, act) && item.Deallocate? && Answered(j, x, call, item) && !Ends(j, act, x, call)
    ensures Answered(Do(j, act), x, call, item)
  {
    hide JointInv, CanDo, Do;
    DoRetires(j, act, Other(x));
    if act.Take? { CarriedIsTaken(j, act.x, act.a, act.ats, x, Reply(call)); }
    else { CarriedStays(j, act, x, Reply(call)); }
  }

  lemma StepKeepsProgress(j: State, act: Act, x: Side, call: CallId, item: Item)
    requires CallInv(j) && CanDo(j, act) && InProgress(j, x, call, item) && !Ends(j, act, x, call)
    ensures InProgress(Do(j, act), x, call, item)
  {
    hide JointInv, CargoOk, CanDo, Do, StillPacked, OnItsWay, BeingHandled, Answered, DebtsOk,
      ProtocolTheorems.BothDescend;
    if StillPacked(j, x, call, item) {
      if act.Message? && act.a == DoSendArgs(x) { PackedIsSent(j, act, x, call, item); }
      else { PackedWaits(j, act, x, call, item); }
    } else if OnItsWay(j, x, call, item) {
      if act.Take? { CallIsTaken(j, act, x, call, item); } else { CallTravels(j, act, x, call, item); }
    } else if BeingHandled(j, x, call, item) {
      if act.Message? && act.a == DoReply(Other(x)) {
        MessageSide(j, act);
        HandlerReplies(j, act, x, call, item);
      } else {
        HandlerGoesOn(j, act, x, call, item);
      }
    } else {
      AnswerStays(j, act, x, call, item);
    }
  }

  lemma CallTravels(j: State, act: Act, x: Side, call: CallId, item: Item)
    requires JointInv(j) && CanDo(j, act) && OnItsWay(j, x, call, item) && !act.Take?
    ensures OnItsWay(Do(j, act), x, call, item)
  {
    hide JointInv, CanDo, Do;
    CarriedStays(j, act, Other(x), Args(call));
  }

  // The call is not over in any state of the run.
  predicate Continues(j: State, acts: seq<Act>, x: Side, call: CallId)
    requires Joint.Legal(j, acts)
    decreases |acts|
  {
    acts != [] ==> !Ends(j, acts[0], x, call) && Continues(Do(j, acts[0]), acts[1..], x, call)
  }

  lemma {:induction false} RunKeepsProgress(j: State, acts: seq<Act>, x: Side, call: CallId, item: Item)
    requires CallInv(j) && Joint.Legal(j, acts) && InProgress(j, x, call, item) && Continues(j, acts, x, call)
    ensures CallInv(Joint.Run(j, acts)) && InProgress(Joint.Run(j, acts), x, call, item)
    decreases |acts|
  {
    hide CallInv, CanDo, Do, InProgress, Ends;
    if acts != [] {
      StepKeepsProgress(j, acts[0], x, call, item);
      DoKeepsCalls(j, acts[0]);
      RunKeepsProgress(Do(j, acts[0]), acts[1..], x, call, item);
    }
  }

  lemma CallStarts(j: State, x: Side, m: Move, item: Item)
    requires JointInv(j) && CanDo(j, Local(x, m)) && LocalEffect(j.Of(x).bridge, m, j.CanInvoke(x)).sent == [item]
    ensures InProgress(Do(j, Local(x, m)), x, CallId(j.s.calls, false), item)
  {
    TouchingCanInvoke(j.s, x);
    CanCall(j.s, x);
    LocalSends(j.Of(x).bridge, m, j.CanInvoke(x));
    CallsFrom(j.s, x);
    hide SyncProtocol.Inv, Ownership.Inv, View, LocalEffect, Allowed, Apply, Enabled;
  }

  lemma CallsFrom(s: System, x: Side)
    requires Enabled(s, DoInvoke(x, false)) && InvokePossible(s.End(x))
    ensures Apply(s, DoInvoke(x, false)).End(x).stack == On(Await(CallId(s.calls, false), false), s.End(x).stack)
  {
  }

  // When its reply is read, a call has been answered.
  lemma CallWasAnswered(j: State, x: Side, call: CallId, item: Item)
    requires CallInv(j) && InProgress(j, x, call, item)
    requires Waiting(j.s.End(x).stack) && j.s.Inbound(x) != [] && j.s.Inbound(x)[0] == Reply(call)
    ensures Answered(j, x, call, item)
  {
    hide SyncProtocol.Inv, Ownership.Inv, View, ProtocolTheorems.BothDescend, CargoOk, HandlersBelow;
    var y := Other(x);
    if OnItsWay(j, x, call, item) {
      OneCarrier(j.s, x, Reply(call), y, Args(call));
    } else if StillPacked(j, x, call, item) {
    } else if BeingHandled(j, x, call, item) {
      var st := SyncProtocol.Unwound(j.s.End(y).stack);
      assert Owes(j.Of(y).owed, st);
      ReplyEndsHandlers(j.s, x);
      OwesBelow(j.Of(y).owed, st, call.number);
    }
  }

  // --- Theorems ---

  /** The replies a side owes are those of Deallocate handlers still running on its C stack, in the order of the
      stack, none twice; a side at its event loop owes none. */
  lemma OwedByHandlers(j: State, x: Side)
    requires Reachable(j)
    ensures Owes(j.Of(x).owed, j.s.End(x).stack) && Rising(j.Of(x).owed)
    ensures j.s.End(x).stack.Bottom? ==> j.Of(x).owed == []
  {
    ReachableCalls(j);
    hide JointInv, CargoOk;
  }

  lemma ReplyFreesProxy(w: World, at: Ptr, id: NpObjects.StubId)
    requires Ownership.Inv(w) && w.toA != [] && w.toA[0] == NpObjects.DeallocateDone(id, true) && at !in w.a.heap
    ensures id !in TakeOne(w.a, w.toA[0], at, true).bridge.proxies
  {
    HeadFrame(w.toA);
    assert AccountedFor(w.b, w.a, w.toA, w.toB, id);
    assert NpObjects.IsProxyFor(w.a.heap, w.a.proxies[id], id);
  }

  lemma AnswerIsRead(j: State, x: Side, call: CallId, item: Item, ats: seq<Ptr>)
    requires JointInv(j) && item.Deallocate? && Answered(j, x, call, item)
    requires CanDo(j, Take(x, DoRead(x), ats)) && j.s.Inbound(x) != [] && j.s.Inbound(x)[0] == Reply(call)
    ensures item.destroying ==> item.id !in Do(j, Take(x, DoRead(x), ats)).Of(x).bridge.proxies
  {
    hide SyncProtocol.Inv, Ownership.Inv, Apply, Enabled, TakeOne, Load, Items, PartOk;
    var done := NpObjects.DeallocateDone(item.id, item.destroying);
    TakingCanInvoke(j.s, x, DoRead(x));
    EitherView(j, x);
    TakenStream(j, x);
    SameBridge(j, x);
    TakeAllOfOne(j.Of(x).bridge, done, ats);
    if item.destroying { ReplyFreesProxy(View(j, x), ats[0], item.id); }
  }

  // A stub that is gone has no live proxy, and one without an entry has none at all.
  lemma GoneHasNoProxy(w: World, id: NpObjects.StubId)
    requires Ownership.Inv(w) && id !in w.b.stubs
    ensures !StandingOf(w.a, id).Alive?
    ensures id !in w.a.proxies ==> forall p :: p in w.a.heap ==> !NpObjects.IsProxyFor(w.a.heap, p, id)
  {
    assert AccountedFor(w.b, w.a, w.toA, w.toB, id);
    forall p | p in w.a.heap ensures NpObjects.IsRegistered(w.a.heap, p, w.a.proxies) {}
  }

  /** A Deallocate call does its work: from the release or invalidation that makes it to the step that reads
      its reply, whatever calls both sides make in between, in handlers or not, the stub goes; and if the call
      is made to destroy the proxy, the proxy is freed then. */
  lemma DeallocateCallCompletes(j: State, x: Side, m: Move, item: Item, acts: seq<Act>, ats: seq<Ptr>)
    requires Reachable(j) && CanDo(j, Local(x, m)) && LocalEffect(j.Of(x).bridge, m, j.CanInvoke(x)).sent == [item]
    requires var begun, call := Do(j, Local(x, m)), CallId(j.s.calls, false);
      Joint.Legal(begun, acts) && Continues(begun, acts, x, call)
    requires var last, end := Joint.Run(Do(j, Local(x, m)), acts), Take(x, DoRead(x), ats);
      CanDo(last, end) && Ends(last, end, x, CallId(j.s.calls, false))
    ensures item.Deallocate?
    ensures var j' := Do(Joint.Run(Do(j, Local(x, m)), acts), Take(x, DoRead(x), ats));
      var user := j'.Of(x).bridge;
      && item.id !in j'.Of(Other(x)).bridge.stubs && !StandingOf(user, item.id).Alive?
      && (item.destroying ==>
            item.id !in user.proxies && forall p :: p in user.heap ==> !NpObjects.IsProxyFor(user.heap, p, item.id))
  {
    hide JointInv, Do, LocalEffect, CargoOk, DebtsOk, ProtocolTheorems.BothDescend, Joint.Legal, Joint.Run, TakeAll,
      CanTake;
    ReachableCalls(j);
    var begun, call := Do(j, Local(x, m)), CallId(j.s.calls, false);
    CallStarts(j, x, m, item);
    DoKeepsCalls(j, Local(x, m));
    RunKeepsProgress(begun, acts, x, call, item);
    var last := Joint.Run(begun, acts);
    CallIsOver(last, x, call, item, ats);
  }

  lemma CallIsOver(j: State, x: Side, call: CallId, item: Item, ats: seq<Ptr>)
    requires CallInv(j) && InProgress(j, x, call, item) && CanDo(j, Take(x, DoRead(x), ats))
    requires Ends(j, Take(x, DoRead(x), ats), x, call)
    ensures var j' := Do(j, Take(x, DoRead(x), ats));
      var user := j'.Of(x).bridge;
      && item.id !in j'.Of(Other(x)).bridge.stubs && !StandingOf(user, item.id).Alive?
      && (item.destroying ==>
            item.id !in user.proxies && forall p :: p in user.heap ==> !NpObjects.IsProxyFor(user.heap, p, item.id))
  {
    var end := Take(x, DoRead(x), ats);
    CallWasAnswered(j, x, call, item);
    AnswerIsRead(j, x, call, item, ats);
    DoRetires(j, end, Other(x));
    DoKeepsInv(j, end);
    var j' := Do(j, end);
    EitherView(j', x);
    GoneHasNoProxy(View(j', x), item.id);
    hide CallInv, JointInv, CargoOk, DebtsOk, TakeAll, CanTake, Apply, Load, Items, Ownership.Inv, SyncProtocol.Inv;
  }

  /** Nothing leaks: when both event loops are idle, nothing is on its way and neither application holds a
      reference, no object, stub or proxy is left on either side. */
  lemma NothingLeaksAtRest(j: State)
    requires Reachable(j) && j.s.w.stack.Bottom? && j.s.v.stack.Bottom? && j.s.toV == [] && j.s.toW == []
    requires var w, v := j.w.bridge, j.v.bridge;
      (forall p :: p in w.heap ==> w.heap[p].held == 0) && forall p :: p in v.heap ==> v.heap[p].held == 0
    ensures j.w.bridge.heap == map[] && j.w.bridge.stubs == map[] && j.w.bridge.proxies == map[]
    ensures j.v.bridge.heap == map[] && j.v.bridge.stubs == map[] && j.v.bridge.proxies == map[]
  {
    ReachableCalls(j);
    hide SyncProtocol.Inv, Ownership.Inv, CargoOk, ProtocolTheorems.BothDescend;
    OwnershipTheorems.EmptyFromInv(View(j, Wrapper));
  }
}
