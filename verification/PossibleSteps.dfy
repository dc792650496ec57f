/** What the runs include: the steps that the two programs can make in the states that they reach. */
module PossibleSteps {
  import NpObjects
  import opened RpcEndpoint
  import opened TwoParty
  import ProtocolTheorems
  import SyncProtocol
  import O = Ownership
  import OwnershipTheorems
  import Joint
  import JointTheorems
  import JointCalls
  import B = ByteLevel
  import ByteTheorems
  import W = WholeLevel
  import WholeTheorems

  // --- The protocol ---

  // The event loop of the browser, that of a viewer that was granted a SYNC, and handlers that have their
  // arguments and have not replied.
  predicate InApplication(s: System, x: Side) {
    match s.End(x).stack
    case Bottom => x == Wrapper || s.v.isSync
    case On(Handler(_, phase), _) => phase == Running
    case _ => false
  }

  /** Application code can always make a call, with or without arguments, and its header is sent. */
  lemma ApplicationsCanCall(s: System, x: Side, bare: bool)
    requires ProtocolTheorems.Reachable(s) && InApplication(s, x)
    ensures Enabled(s, DoInvoke(x, bare))
    ensures var call, s' := CallId(s.calls, bare), Apply(s, DoInvoke(x, bare));
      && s'.Inbound(Other(x)) == s.Inbound(Other(x)) + [Start(call)] && s'.Inbound(x) == s.Inbound(x)
      && s'.End(x).stack == On(Await(call, bare), s.End(x).stack)
      && s'.history == s.history + [Called(x, call)]
  {
    hide ProtocolTheorems.Reachable;
    ProtocolTheorems.NoProtocolError(s);
    ProtocolTheorems.DepthsBracket(s, x);
  }

  /** Waits and event loops read whatever frame is there; handlers get their arguments, reply and return; and the
      viewer asks for a SYNC from its own event loop, and ends it there. */
  lemma ProgramsGoOn(s: System, x: Side)
    requires ProtocolTheorems.Reachable(s)
    ensures match s.End(x).stack
      case Bottom =>
        && (s.Inbound(x) != [] && (x == Wrapper || !s.v.isSync) ==> Enabled(s, DoDispatch(x)))
        && (x == Wrapper ==> Enabled(s, DoPendingSync))
        && (x == Viewer && !s.v.isSync ==> Enabled(s, DoSync))
        && (x == Viewer && s.v.isSync ==> Enabled(s, DoEndSync))
      case On(Handler(call, Entered), _) => call.bare || s.Inbound(x) != [] ==> Enabled(s, DoGetArgs(x))
      case On(Handler(_, Running), _) =>
        && Enabled(s, DoReply(x))
        && (x == Wrapper ==> Enabled(s, DoPendingSync) && (s.toW != [] ==> Enabled(s, DoDispatch(x))))
      case On(Handler(_, Replied), _) => Enabled(s, DoReturn(x))
      case On(Await(_, false), _) => Enabled(s, DoSendArgs(x))
      case On(_, _) => s.Inbound(x) != [] ==> Enabled(s, DoRead(x))
  {
    hide ProtocolTheorems.Reachable;
    ProtocolTheorems.NoProtocolError(s);
    WrapperIsNotSynced(s);
  }

  // Only the viewer asks for a SYNC.
  lemma WrapperIsNotSynced(s: System)
    requires ProtocolTheorems.Reachable(s)
    ensures !s.w.isSync
  {
    hide SyncProtocol.Holds;
    ProtocolTheorems.ReachableInv(s);
    var token, base, ask :| SyncProtocol.Coherent(s, token, base, ask);
  }

  lemma StepIsReachable(s: System, a: Action)
    requires ProtocolTheorems.Reachable(s) && Enabled(s, a)
    ensures ProtocolTheorems.Reachable(Apply(s, a))
  {
    hide Apply, Enabled;
    var run :| Legal(INITIAL, run) && Run(INITIAL, run) == s;
    assert [a][1..] == [];
    RunsConcatenate(INITIAL, run, [a]);
  }

  // x runs the innermost of n calls, that the two sides have made by turns.
  predicate Nested(s: System, x: Side, n: nat) {
    && s.toV == [] && s.toW == [] && !s.w.isSync && !s.v.isSync && InApplication(s, x)
    && OpenCalls(s.history).Some? && |OpenCalls(s.history).value| == n
    && var other := s.End(Other(x)).stack;
      if n == 0 then x == Wrapper && other.Bottom? else other.On? && other.top.Await? && other.top.argsSent
  }

  lemma OneMoreCall(s: System, x: Side, n: nat) returns (s': System)
    requires ProtocolTheorems.Reachable(s) && Nested(s, x, n)
    ensures ProtocolTheorems.Reachable(s') && Nested(s', Other(x), n + 1)
  {
    hide ProtocolTheorems.Reachable, OpenCalls;
    var y, call := Other(x), CallId(s.calls, true);
    ApplicationsCanCall(s, x, true);
    var called := Apply(s, DoInvoke(x, true));
    StepIsReachable(s, DoInvoke(x, true));
    OpenCallsStep(s.history, Called(x, call));
    var reading := if n == 0 then DoDispatch(y) else DoRead(y);
    ProtocolTheorems.NoProtocolError(called);
    var entered := Apply(called, reading);
    StepIsReachable(called, reading);
    assert entered.history == called.history;
    ProtocolTheorems.NoProtocolError(entered);
    s' := Apply(entered, DoGetArgs(y));
    StepIsReachable(entered, DoGetArgs(y));
  }

  /** Calls nest to any depth, each in the handler of the one before. */
  lemma {:induction false} CallsNest(n: nat) returns (s: System)
    ensures ProtocolTheorems.Reachable(s) && Nested(s, if n % 2 == 0 then Wrapper else Viewer, n)
  {
    hide ProtocolTheorems.Reachable, Nested;
    if n == 0 {
      s := INITIAL;
      InitiallyNested();
    } else {
      s := CallsNest(n - 1);
      s := OneMoreCall(s, if (n - 1) % 2 == 0 then Wrapper else Viewer, n - 1);
    }
  }

  lemma InitiallyNested()
    ensures ProtocolTheorems.Reachable(INITIAL) && Nested(INITIAL, Wrapper, 0)
  {
    assert Legal(INITIAL, []) && Run(INITIAL, []) == INITIAL;
  }

  // --- The objects ---

  /** An application can retain, release and invalidate whatever object it holds, and send it with or without its
      reference unless it is a proxy that is not valid; and where nothing is, an object can be created or the
      next item be received. */
  lemma HoldersCanAct(w: O.World, p: NpObjects.Ptr, passRef: bool)
    requires OwnershipTheorems.Reachable(w)
    ensures p in w.a.heap && w.a.heap[p].held > 0 ==>
      && O.Possible(w, O.ByA(O.MRetain(p))) && O.Possible(w, O.ByA(O.MRelease(p)))
      && O.Possible(w, O.ByA(O.MInvalidate(p)))
      && (w.a.heap[p].kind.Native? || w.a.heap[p].kind.isValid ==> O.Possible(w, O.ByA(O.MSend(p, passRef))))
    ensures p in w.b.heap && w.b.heap[p].held > 0 ==>
      && O.Possible(w, O.ByB(O.MRetain(p))) && O.Possible(w, O.ByB(O.MRelease(p)))
      && O.Possible(w, O.ByB(O.MInvalidate(p)))
      && (w.b.heap[p].kind.Native? || w.b.heap[p].kind.isValid ==> O.Possible(w, O.ByB(O.MSend(p, passRef))))
    ensures p !in w.a.heap ==>
      O.Possible(w, O.ByA(O.MCreate(p))) && (w.toA != [] ==> O.Possible(w, O.ByA(O.MDeliver(p))))
    ensures p !in w.b.heap ==>
      O.Possible(w, O.ByB(O.MCreate(p))) && (w.toB != [] ==> O.Possible(w, O.ByB(O.MDeliver(p))))
  {
    hide OwnershipTheorems.Reachable, O.Half;
    OwnershipTheorems.ReachableInv(w);
    HeldIsCounted(w, p);
  }

  lemma HeldIsCounted(w: O.World, p: NpObjects.Ptr)
    requires O.Inv(w)
    ensures p in w.a.heap ==> w.a.heap[p].referenceCount > 0 || w.a.heap[p].held == 0
    ensures p in w.b.heap ==> w.b.heap[p].referenceCount > 0 || w.b.heap[p].held == 0
  {
    hide O.AccountedFor;
    if p in w.a.heap { assert NpObjects.Conserved(w.a.heap[p], NpObjects.StubCount(w.a.stubs, p)); }
    if p in w.b.heap { assert NpObjects.Conserved(w.b.heap[p], NpObjects.StubCount(w.b.stubs, p)); }
  }

  // --- Protocol and objects ---

  /** Whatever the protocol allows can be done with objects about. */
  lemma StepsCanBeMade(j: Joint.State, a: Action) returns (act: Joint.Act)
    requires Enabled(j.s, a)
    ensures Joint.CanDo(j, act) && Joint.StepOf(j, act) == [a] && Joint.Do(j, act).s == Apply(j.s, a)
  {
    hide Apply, Enabled;
    if a.DoSendArgs? || a.DoReply? {
      act := Joint.Message(a.side, a, []);
    } else if Joint.TakesItems(j.s, a) {
      var x, can := a.side, InvokePossible(Apply(j.s, a).End(a.side));
      ItemsAreThere(j.s, a);
      var ats := FreePointers(j.Of(x).bridge, Joint.CargoOf(j.cargo, j.s.Inbound(x)[0]), can);
      act := Joint.Take(x, a, ats);
    } else {
      act := Joint.Plain(a);
    }
  }

  lemma ItemsAreThere(s: System, a: Action)
    requires Enabled(s, a) && Joint.TakesItems(s, a)
    ensures s.Inbound(a.side) != []
  {
  }

  lemma {:induction false} FreePointers(b: NpObjects.Bridge, items: seq<NpObjects.Item>, canInvoke: bool)
    returns (ats: seq<NpObjects.Ptr>)
    ensures Joint.CanTake(b, items, ats, canInvoke)
    decreases |items|
  {
    hide Joint.TakeOne;
    ats := [];
    if items != [] {
      var at := FreePointer(b.heap.Keys);
      var rest := FreePointers(Joint.TakeOne(b, items[0], at, canInvoke).bridge, items[1..], canInvoke);
      ats := [at] + rest;
      assert ats[1..] == rest;
    }
  }

  lemma {:induction false} FreePointer(used: set<NpObjects.Ptr>) returns (at: NpObjects.Ptr)
    ensures forall p :: p in used ==> p < at
    decreases |used|
  {
    at := 0;
    if used != {} {
      var p :| p in used;
      var rest := FreePointer(used - {p});
      at := if p < rest then rest else p + 1;
      forall q | q in used ensures q < at {
        if q != p { assert q in used - {p}; }
      }
    }
  }

  /** Application code uses its objects wherever it can make calls. */
  lemma HoldersCanActInCalls(j: Joint.State, x: Side, p: NpObjects.Ptr)
    requires JointTheorems.Reachable(j) && InApplication(j.s, x)
    ensures p !in j.Of(x).bridge.heap ==> Joint.CanDo(j, Joint.Local(x, O.MCreate(p)))
    ensures p in j.Of(x).bridge.heap && j.Of(x).bridge.heap[p].held > 0 ==>
      && Joint.CanDo(j, Joint.Local(x, O.MRetain(p))) && Joint.CanDo(j, Joint.Local(x, O.MRelease(p)))
      && Joint.CanDo(j, Joint.Local(x, O.MInvalidate(p)))
  {
    hide SyncProtocol.Inv, O.Half;
    JointTheorems.ReachableInv(j);
    BothActive(j);
    HeldIsCounted(Joint.View(j, Wrapper), p);
  }

  lemma BothActive(j: Joint.State)
    requires SyncProtocol.Inv(j.s)
    ensures j.s.w.status.Active? && j.s.v.status.Active?
  {
  }

  /** An argument list or a reply, but those of Deallocate calls, can carry any object that its sender holds, unless
      it is a proxy that is not valid. */
  lemma MessagesCanCarry(j: Joint.State, x: Side, a: Action, p: NpObjects.Ptr, passRef: bool)
    requires JointTheorems.Reachable(j) && Enabled(j.s, a)
    requires
      || (a == DoSendArgs(x) && j.Of(x).packed == [])
      || (a == DoReply(x) && forall debt :: debt in j.Of(x).owed ==> debt.call != j.s.End(x).stack.top.call)
    requires var heap := j.Of(x).bridge.heap;
      p in heap && heap[p].held > 0 && (heap[p].kind.Native? || heap[p].kind.isValid)
    ensures Joint.CanDo(j, Joint.Message(x, a, [NpObjects.Passed(p, passRef)]))
  {
    hide SyncProtocol.Inv, O.Inv, NpObjects.SendOne, Enabled, Joint.CanPass;
    JointTheorems.ReachableInv(j);
    HeldIsCounted(Joint.View(j, Wrapper), p);
    NothingIsDue(j, x, a);
    OneCanPass(j.Of(x).bridge, p, passRef, j.CanInvoke(x));
  }

  lemma NothingIsDue(j: Joint.State, x: Side, a: Action)
    requires Enabled(j.s, a)
    requires
      || (a == DoSendArgs(x) && j.Of(x).packed == [])
      || (a == DoReply(x) && forall debt :: debt in j.Of(x).owed ==> debt.call != j.s.End(x).stack.top.call)
    ensures !Joint.SendsCall(j, x, a) && !Joint.PaysDebt(j, x, a)
  {
    var owed := j.Of(x).owed;
    if owed != [] { assert owed[|owed| - 1] in owed; }
  }

  lemma OneCanPass(b: NpObjects.Bridge, p: NpObjects.Ptr, passRef: bool, canInvoke: bool)
    requires p in b.heap && b.heap[p].held > 0 && b.heap[p].referenceCount > 0
    requires b.heap[p].kind.Native? || b.heap[p].kind.isValid
    ensures Joint.CanPass(b, [NpObjects.Passed(p, passRef)], canInvoke)
  {
    hide NpObjects.SendObject;
    assert [NpObjects.Passed(p, passRef)][1..] == [];
  }

  // --- All of it ---

  /** Once all bytes are written, whatever protocol and objects allow can be done on the bytes, given that a message is
      about what it carries; and bytes can be written in pieces of any size. */
  lemma StepsCanBeWritten(t: W.Talk, w: W.Whole, act: Joint.Act, x: Side, count: nat)
    requires B.Sensible(t.calls) && WholeTheorems.Reachable(t, w)
    ensures 0 < count <= |(if x == Wrapper then w.toV else w.toW).unsent| ==> W.CanDo(t, w, W.Emit(x, count))
    ensures
      && w.toV.unsent == [] && w.toW.unsent == [] && Joint.CanDo(w.j, act)
      && (act.Message? ==>
            var f := Joint.Sent(act.x, w.j.s, act.a);
            W.ItemsOf(t, f.call, B.PacketOf(t.calls, f)) == Joint.CargoOf(Joint.Do(w.j, act).cargo, f))
      ==> W.CanDo(t, w, W.Make(act)) && W.Next(t, w, W.Make(act)).j == Joint.Do(w.j, act)
  {
    hide WholeTheorems.Reachable, WholeTheorems.Inv, B.Sensible, Joint.CanDo, Joint.Do, W.ItemsOf, W.Next,
      B.PacketOf, B.Read, B.WantsToRead, Joint.StepOf, Enabled;
    WholeTheorems.ReachableInv(t, w);
    if w.toV.unsent == [] && w.toW.unsent == [] && Joint.CanDo(w.j, act) {
      BytesCanFollow(t, w, act);
      WholeTheorems.BasisIsState(t, w, act);
      if W.CanDo(t, w, W.Make(act)) { WholeTheorems.NextIsBoth(t, w, act); }
    }
  }

  lemma BytesCanFollow(t: W.Talk, w: W.Whole, act: Joint.Act)
    requires B.Sensible(t.calls) && WholeTheorems.Inv(t, w) && Joint.CanDo(w.j, act)
    requires w.toV.unsent == [] && w.toW.unsent == []
    ensures W.BytesAllow(t, w, act)
  {
    hide JointTheorems.JointInv, ByteTheorems.Inv, B.Sensible, B.CanDo, Joint.CanDo, Joint.Do, Joint.StepOf, Apply,
      Enabled;
    JointCalls.DoIsStep(w.j, act);
    var step := Joint.StepOf(w.j, act);
    if step != [] { ByteTheorems.DoIsPossible(t.calls, w.Bytes(), step[0]); }
  }
}
