/** What holds when the protocol and the objects run together. */
module JointTheorems {
  import opened RpcEndpoint
  import opened TwoParty
  import opened Ownership
  import opened OwnershipTransfer
  import opened Joint
  import opened JointProtocol

  // --- Cargo ---

  lemma {:induction false} LoadAdd(cargo: map<Frame, seq<Item>>, x: seq<Frame>, y: seq<Frame>)
    ensures Load(cargo, x + y) == Load(cargo, x) + Load(cargo, y)
    decreases |x|
  {
    if x == [] {
      assert x + y == y;
    } else {
      assert (x + y)[1..] == x[1..] + y;
      LoadAdd(cargo, x[1..], y);
    }
  }

  // Only argument lists and replies carry anything.
  predicate InFrames(cargo: map<Frame, seq<Item>>) {
    forall f :: f in cargo ==> CarriesItems(f)
  }

  lemma {:induction false} LoadNothing(cargo: map<Frame, seq<Item>>, frames: seq<Frame>)
    requires InFrames(cargo) && NoItems(frames)
    ensures Load(cargo, frames) == []
    decreases |frames|
  {
    if frames != [] {
      assert !CarriesItems(frames[0]);
      forall i | 0 <= i < |frames| - 1 ensures frames[1..][i] == frames[i + 1] {}
      LoadNothing(cargo, frames[1..]);
    }
  }

  lemma LoadSame(cargo: map<Frame, seq<Item>>, new': seq<Frame>, old': seq<Frame>)
    requires InFrames(cargo) && SameItems(new', old')
    ensures Load(cargo, new') == Load(cargo, old')
  {
    if new' != old' && |new'| > |old'| {
      var f := new'[|old'|];
      assert new' == old' + [f];
      LoadAdd(cargo, old', [f]);
      assert Load(cargo, [f]) == [] by { LoadNothing(cargo, [f]); }
    }
  }

  // A frame just sent, when no other carries anything.
  lemma LoadOfOne(cargo: map<Frame, seq<Item>>, frames: seq<Frame>, f: Frame, items: seq<Item>)
    requires InFrames(cargo) && NoItems(frames) && CarriesItems(f)
    ensures Load(cargo[f := items], frames + [f]) == items && Load(cargo[f := items], frames) == []
    ensures InFrames(cargo[f := items])
  {
    var cargo' := cargo[f := items];
    LoadAdd(cargo', frames, [f]);
    LoadNothing(cargo', frames);
    assert Load(cargo', [f]) == CargoOf(cargo', f) + Load(cargo', []);
  }

  // --- Replies that are owed ---

  predicate AllDone(items: seq<Item>) {
    forall i :: 0 <= i < |items| ==> items[i].DeallocateDone?
  }

  lemma DropDone(x: seq<Item>, done: seq<Item>, y: seq<Item>)
    requires AllDone(done)
    ensures ReleasesComeLast(x + done + y) <==> ReleasesComeLast(x + y)
  {
    var long, short, n := x + done + y, x + y, |done|;
    forall k | |x| <= k < |x| + n ensures long[k].DeallocateDone? {
      assert long[k] == done[k - |x|];
    }
    if ReleasesComeLast(long) {
      forall i, j | 0 <= i < j < |short| && Releases(short[i]) ensures !Names(short[j], short[i].id) {
        var i', j' := if i < |x| then i else i + n, if j < |x| then j else j + n;
        assert long[i'] == short[i] && long[j'] == short[j];
      }
    }
    if ReleasesComeLast(short) {
      forall i, j | 0 <= i < j < |long| && Releases(long[i]) ensures !Names(long[j], long[i].id) {
        if !(|x| <= i < |x| + n) && !(|x| <= j < |x| + n) {
          var i', j' := if i < |x| then i else i - n, if j < |x| then j else j - n;
          assert long[i] == short[i'] && long[j] == short[j'];
        }
      }
    }
  }

  /** It does not matter where among the items of a stream the replies to Deallocate calls are. */
  lemma RepliesMove(w: World, x: seq<Item>, done: seq<Item>, y: seq<Item>)
    requires AllDone(done)
    ensures Ownership.Inv(w.(toB := x + done + y)) <==> Ownership.Inv(w.(toB := x + y + done))
  {
    var s, t := x + done + y, x + y + done;
    assert multiset(s) == multiset(t);
    DropDone(x, done, y);
    DropDone(x + y, done, []);
    assert t + [] == t && x + y + [] == x + y;
    if Ownership.Inv(w.(toB := s)) { MovedReplies(w, s, t); }
    if Ownership.Inv(w.(toB := t)) { MovedReplies(w, t, s); }
  }

  lemma MovedReplies(w: World, s: seq<Item>, t: seq<Item>)
    requires Ownership.Inv(w.(toB := s)) && multiset(s) == multiset(t) && ReleasesComeLast(t)
    ensures Ownership.Inv(w.(toB := t))
  {
    HalfByContent(w.a, w.b, s, t, w.toA);
    HalfByRelease(w.b, w.a, w.toA, s, t);
  }

  lemma HalfByContent(owner: Bridge, user: Bridge, down: seq<Item>, down': seq<Item>, up: seq<Item>)
    requires Half(owner, user, down, up) && multiset(down) == multiset(down')
    ensures Half(owner, user, down', up)
  {
    forall id ensures AccountedFor(owner, user, down', up, id) {
      assert AccountedFor(owner, user, down, up, id);
    }
  }

  lemma HalfByRelease(owner: Bridge, user: Bridge, down: seq<Item>, up: seq<Item>, up': seq<Item>)
    requires Half(owner, user, down, up) && multiset(up) == multiset(up') && ReleasesComeLast(up')
    ensures Half(owner, user, down, up')
  {
    forall id ensures AccountedFor(owner, user, down, up', id) {
      assert AccountedFor(owner, user, down, up, id);
    }
  }

  // --- Items one by one ---

  lemma PassOneKeepsInv(w: World, o: Passed)
    requires Ownership.Inv(w) && Allowed(Alone(w.a), MSend(o.p, o.passRef))
    ensures var out := NpObjects.SendOne(w.a, o, true); Ownership.Inv(w.(a := out.bridge, toB := w.toB + out.sent))
  {
    hide Ownership.Inv, NpObjects.SendObject;
    MoveKeepsInv(w, MSend(o.p, o.passRef));
  }

  lemma {:induction false} PassingKeepsInv(w: World, objects: seq<Passed>)
    requires Ownership.Inv(w) && CanPass(w.a, objects, true)
    ensures var out := NpObjects.SendAll(w.a, objects, true);
      Ownership.Inv(w.(a := out.bridge, toB := w.toB + out.sent))
    decreases |objects|
  {
    hide Ownership.Inv, NpObjects.SendOne;
    if objects == [] {
      assert w.toB + [] == w.toB;
    } else {
      PassOneKeepsInv(w, objects[0]);
      var first := NpObjects.SendOne(w.a, objects[0], true);
      var w' := w.(a := first.bridge, toB := w.toB + first.sent);
      PassingKeepsInv(w', objects[1..]);
      var others := NpObjects.SendAll(first.bridge, objects[1..], true);
      assert w.toB + (first.sent + others.sent) == w'.toB + others.sent;
    }
  }

  lemma TakingIsDelivery(w: World, at: Ptr)
    requires Allowed(w, MDeliver(at))
    ensures var t := TakeOne(w.a, w.toA[0], at, true);
      Deliver(w, at) == World(t.bridge, w.b, w.toB + t.answers, w.toA[1..], w.failed || t.failed)
  {
    assert w.toB + [] == w.toB;
  }

  lemma TakeOneKeepsInv(w: World, at: Ptr)
    requires Ownership.Inv(w) && w.toA != [] && at !in w.a.heap
    ensures var t := TakeOne(w.a, w.toA[0], at, true);
      Ownership.Inv(World(t.bridge, w.b, w.toB + t.answers, w.toA[1..], w.failed || t.failed))
  {
    hide Ownership.Inv, TakeOne, Deliver;
    MoveKeepsInv(w, MDeliver(at));
    TakingIsDelivery(w, at);
  }

  lemma {:induction false} TakingKeepsInv(w: World, items: seq<Item>, rest: seq<Item>, ats: seq<Ptr>)
    requires Ownership.Inv(w) && w.toA == items + rest && CanTake(w.a, items, ats, true)
    ensures var t := TakeAll(w.a, items, ats, true);
      Ownership.Inv(World(t.bridge, w.b, w.toB + t.answers, rest, w.failed || t.failed))
    decreases |items|
  {
    hide Ownership.Inv, TakeOne;
    if items == [] {
      assert w.toB + [] == w.toB && items + rest == rest;
    } else {
      TakeOneKeepsInv(w, ats[0]);
      var first := TakeOne(w.a, items[0], ats[0], true);
      var w' := World(first.bridge, w.b, w.toB + first.answers, items[1..] + rest, w.failed || first.failed);
      assert w.toA[1..] == items[1..] + rest;
      TakingKeepsInv(w', items[1..], rest, ats[1..]);
      var others := TakeAll(first.bridge, items[1..], ats[1..], true);
      assert w.toB + (first.answers + others.answers) == w'.toB + others.answers;
    }
  }

  function AnswersOf(items: seq<Item>): seq<Item> {
    if items == [] then [] else Answer(items[0]) + AnswersOf(items[1..])
  }

  // Handlers answer Deallocate calls, and nothing else.
  lemma {:induction false} TakenAnswers(w: World, items: seq<Item>, rest: seq<Item>, ats: seq<Ptr>)
    requires Ownership.Inv(w) && w.toA == items + rest && CanTake(w.a, items, ats, true)
    ensures TakeAll(w.a, items, ats, true).answers == AnswersOf(items)
    decreases |items|
  {
    hide Ownership.Inv, TakeOne, Answer;
    if items != [] {
      TakeOneKeepsInv(w, ats[0]);
      OneAnswer(w, ats[0]);
      var first := TakeOne(w.a, items[0], ats[0], true);
      assert w.toA[1..] == items[1..] + rest;
      TakenAnswers(World(first.bridge, w.b, w.toB + first.answers, items[1..] + rest, w.failed || first.failed),
                   items[1..], rest, ats[1..]);
    }
  }

  lemma OneAnswer(w: World, at: Ptr)
    requires Ownership.Inv(w) && Allowed(w, MDeliver(at))
    ensures TakeOne(w.a, w.toA[0], at, true).answers == Answer(w.toA[0])
  {
    if w.toA[0].Deallocate? || w.toA[0].ReceiverOwned? {
      NamedStubExists(w);
      NpObjects.DestroyStubKeepsSound(w.a, w.toA[0].id, true);
      RetainThenDestroy(w.a, w.toA[0].id);
    }
  }

  lemma {:induction false} AnswersAreDone(items: seq<Item>)
    ensures AllDone(AnswersOf(items))
    decreases |items|
  {
    if items != [] { AnswersAreDone(items[1..]); }
  }

  // --- The invariant ---

  predicate PartOk(j: State, x: Side) {
    && (j.Of(x).packed != [] ==> Packing(j.s.End(x).stack))
    && (j.Of(x).packed == [] || (|j.Of(x).packed| == 1 && j.Of(x).packed[0].Deallocate?))
    && AllDone(Items(j.Of(x).owed))
  }

  ghost predicate JointInv(j: State) {
    && SyncProtocol.Inv(j.s)
    && Ownership.Inv(View(j, Wrapper))
    && InFrames(j.cargo) && PartOk(j, Wrapper) && PartOk(j, Viewer)
  }

  lemma EitherView(j: State, x: Side)
    ensures Ownership.Inv(View(j, Wrapper)) <==> Ownership.Inv(View(j, x))
  {
    assert View(j, Viewer) == Flip(View(j, Wrapper));
  }

  lemma InitiallyJoint()
    ensures JointInv(Joint.START)
  {
    SyncProtocol.InitiallyCoherent();
    InitiallyInv();
    assert View(Joint.START, Wrapper) == Ownership.START;
  }

  // --- Local moves ---

  lemma LocalIsMove(w: World, m: Move)
    requires IsLocal(m) && Allowed(Alone(w.a), m)
    ensures Allowed(w, m)
    ensures var out := LocalEffect(w.a, m, true); Perform(w, m) == w.(a := out.bridge, toB := w.toB + out.sent)
  {
    assert w.toB + [] == w.toB;
  }

  lemma LocalKeepsInv(w: World, m: Move)
    requires Ownership.Inv(w) && IsLocal(m) && Allowed(Alone(w.a), m)
    ensures var out := LocalEffect(w.a, m, true); Ownership.Inv(w.(a := out.bridge, toB := w.toB + out.sent))
  {
    hide Ownership.Inv, LocalEffect, Allowed, Perform;
    LocalIsMove(w, m);
    MoveKeepsInv(w, m);
  }

  // One Deallocate call at most.
  lemma LocalSends(b: Bridge, m: Move, canInvoke: bool)
    requires IsLocal(m) && Allowed(Alone(b), m)
    ensures var sent := LocalEffect(b, m, canInvoke).sent; sent == [] || (|sent| == 1 && sent[0].Deallocate?)
  {
  }

  lemma CallFrame(s: System, x: Side)
    requires Enabled(s, DoInvoke(x, false)) && InvokePossible(s.End(x))
    ensures var s' := Apply(s, DoInvoke(x, false));
      && s'.Inbound(Other(x)) == s.Inbound(Other(x)) + [Start(CallId(s.calls, false))] && s'.Inbound(x) == s.Inbound(x)
      && s'.End(Other(x)) == s.End(Other(x)) && Packing(s'.End(x).stack)
  {
  }

  lemma KeepsSilentMove(j: State, x: Side, m: Move)
    requires JointInv(j) && CanDo(j, Local(x, m)) && j.CanInvoke(x)
    requires LocalEffect(j.Of(x).bridge, m, true).sent == []
    ensures JointInv(Do(j, Local(x, m)))
  {
    hide SyncProtocol.Inv, Ownership.Inv, Apply, LocalEffect, Enabled, Load, Items;
    EitherView(j, x);
    LocalKeepsInv(View(j, x), m);
    EitherView(Do(j, Local(x, m)), x);
    assert Out(j, x) + [] == Out(j, x);
  }

  lemma KeepsCallingMove(j: State, x: Side, m: Move)
    requires JointInv(j) && CanDo(j, Local(x, m)) && j.CanInvoke(x) && Enabled(j.s, DoInvoke(x, false))
    requires LocalEffect(j.Of(x).bridge, m, true).sent != [] && j.Of(x).packed == []
    ensures JointInv(Do(j, Local(x, m)))
  {
    hide SyncProtocol.Inv, Ownership.Inv, Apply, LocalEffect, Enabled, Load, Items, Allowed;
    LocalSends(j.Of(x).bridge, m, true);
    EitherView(j, x);
    LocalKeepsInv(View(j, x), m);
    var out, j' := LocalEffect(j.Of(x).bridge, m, true), Do(j, Local(x, m));
    SyncProtocol.StepKeepsInv(j.s, DoInvoke(x, false));
    CallFrame(j.s, x);
    LoadSame(j.cargo, j'.s.Inbound(Other(x)), j.s.Inbound(Other(x)));
    var load, owed := Load(j.cargo, j.s.Inbound(Other(x))), Items(j.Of(x).owed);
    assert load + [] + owed + out.sent == load + owed + out.sent;
    RepliesMove(View(j, x).(a := out.bridge), load, owed, out.sent);
    EitherView(j', x);
  }

  lemma KeepsLocal(j: State, x: Side, m: Move)
    requires JointInv(j) && CanDo(j, Local(x, m))
    ensures JointInv(Do(j, Local(x, m)))
  {
    TouchingCanInvoke(j.s, x);
    CanCall(j.s, x);
    hide SyncProtocol.Inv, Ownership.Inv, LocalEffect, Enabled, View, Do;
    if LocalEffect(j.Of(x).bridge, m, true).sent == [] { KeepsSilentMove(j, x, m); } else { KeepsCallingMove(j, x, m); }
  }

  lemma CanCall(s: System, x: Side)
    requires s.w.status.Active? && s.v.status.Active? && Touches(s, x)
    ensures Enabled(s, DoInvoke(x, false))
  {
  }

  // --- Steps without items ---

  lemma KeepsPlain(j: State, a: Action)
    requires JointInv(j) && CanDo(j, Plain(a))
    ensures JointInv(Do(j, Plain(a)))
  {
    hide SyncProtocol.Inv, Ownership.Inv, Apply, Load, Items, Enabled, Packing;
    SyncProtocol.StepKeepsInv(j.s, a);
    PlainFrames(j.s, a, Wrapper);
    PlainFrames(j.s, a, Viewer);
    var s' := Apply(j.s, a);
    LoadSame(j.cargo, s'.toV, j.s.toV);
    LoadSame(j.cargo, s'.toW, j.s.toW);
    if Packing(j.s.w.stack) { PackingStays(j.s, a, Wrapper); }
    if Packing(j.s.v.stack) { PackingStays(j.s, a, Viewer); }
  }

  // --- Messages ---

  // The wires when an argument list or a reply is sent: nothing before it, and it alone after.
  lemma MessageLoads(j: State, x: Side, a: Action, items: seq<Item>)
    requires SyncProtocol.Inv(j.s) && InFrames(j.cargo) && Enabled(j.s, a) && (a == DoSendArgs(x) || a == DoReply(x))
    ensures Load(j.cargo, j.s.toV) == [] && Load(j.cargo, j.s.toW) == []
    ensures var s', cargo' := Apply(j.s, a), j.cargo[Sent(x, j.s, a) := items];
      && InFrames(cargo')
      && Load(cargo', s'.Inbound(Other(x))) == items && Load(cargo', s'.Inbound(x)) == []
  {
    hide SyncProtocol.Inv, Load;
    QuietWires(j.s, x, a);
    LoadNothing(j.cargo, j.s.toV);
    LoadNothing(j.cargo, j.s.toW);
    LoadOfOne(j.cargo, j.s.Inbound(Other(x)), Sent(x, j.s, a), items);
    LoadNothing(j.cargo[Sent(x, j.s, a) := items], j.s.Inbound(x));
    if a.DoReply? { SyncProtocol.ReplyFrame(j.s, x); } else { SyncProtocol.SendArgsFrame(j.s, x); }
  }

  // Whoever sends a message is not sending the arguments of a Deallocate call as well, unless they are the
  // message; and the other side sends nothing.
  lemma MessagePacking(j: State, x: Side, a: Action)
    requires JointInv(j) && Enabled(j.s, a) && (a == DoSendArgs(x) || a == DoReply(x))
    ensures j.Of(Other(x)).packed == [] && (a.DoReply? ==> j.Of(x).packed == [])
    ensures Apply(j.s, a).End(Other(x)) == j.s.End(Other(x))
  {
    hide SyncProtocol.Inv, Ownership.Inv, View;
    OtherIsNotPacking(j.s, x, a);
    if a.DoReply? { SyncProtocol.ReplyFrame(j.s, x); } else { SyncProtocol.SendArgsFrame(j.s, x); }
  }

  lemma KeepsSendingCall(j: State, x: Side, a: Action)
    requires JointInv(j) && CanDo(j, Message(x, a, [])) && SendsCall(j, x, a)
    ensures JointInv(Do(j, Message(x, a, [])))
  {
    hide SyncProtocol.Inv, Ownership.Inv, Apply, Load, Items, Enabled, Packing;
    EitherView(j, x);
    SyncProtocol.StepKeepsInv(j.s, a);
    MessagePacking(j, x, a);
    MessageLoads(j, x, a, j.Of(x).packed);
    var j' := Do(j, Message(x, a, []));
    assert View(j', x) == View(j, x) by {
      assert [] + j.Of(x).packed + Items(j.Of(x).owed) == j.Of(x).packed + [] + Items(j.Of(x).owed);
    }
    EitherView(j', x);
  }

  lemma {:induction false} ItemsButLast(owed: seq<Debt>)
    requires owed != []
    ensures Items(owed) == Items(owed[..|owed| - 1]) + [owed[|owed| - 1].item]
  {
    if |owed| > 1 {
      ItemsButLast(owed[1..]);
      assert owed[..|owed| - 1][1..] == owed[1..][..|owed| - 2];
    }
  }

  // The reply owed last, moved to where it is sent.
  lemma LastReplyMoves(w: World, before: seq<Item>, last: Item)
    requires Ownership.Inv(w) && w.toB == before + [last] && last.DeallocateDone?
    ensures Ownership.Inv(w.(toB := [last] + before))
  {
    hide Ownership.Inv;
    assert before + [last] == [] + before + [last] && [last] + before == [] + [last] + before;
    assert w.(toB := [] + before + [last]) == w;
    RepliesMove(w, [], [last], before);
  }

  lemma PaidView(j: State, x: Side, a: Action, before: seq<Item>, last: Item)
    requires JointInv(j) && CanDo(j, Message(x, a, [])) && !SendsCall(j, x, a) && PaysDebt(j, x, a)
    requires var owed := j.Of(x).owed; before == Items(owed[..|owed| - 1]) && last == owed[|owed| - 1].item
    ensures View(j, x).toB == before + [last]
    ensures View(Do(j, Message(x, a, [])), x) == View(j, x).(toB := [last] + before)
    ensures InFrames(Do(j, Message(x, a, [])).cargo)
  {
    hide SyncProtocol.Inv, Ownership.Inv, Apply, Load, Items, Enabled, Packing;
    MessagePacking(j, x, a);
    MessageLoads(j, x, a, [last]);
    ItemsButLast(j.Of(x).owed);
    assert [] + [] + (before + [last]) == before + [last] && [last] + [] + before == [last] + before;
  }

  lemma KeepsPayingDebt(j: State, x: Side, a: Action)
    requires JointInv(j) && CanDo(j, Message(x, a, [])) && !SendsCall(j, x, a) && PaysDebt(j, x, a)
    ensures JointInv(Do(j, Message(x, a, [])))
  {
    hide SyncProtocol.Inv, Ownership.Inv, Apply, Load, Items, Enabled, Packing, View;
    EitherView(j, x);
    SyncProtocol.StepKeepsInv(j.s, a);
    MessagePacking(j, x, a);
    var owed := j.Of(x).owed;
    var last, before := owed[|owed| - 1].item, Items(owed[..|owed| - 1]);
    PaidView(j, x, a, before, last);
    ItemsButLast(owed);
    assert (before + [last])[|before|] == last && forall i :: 0 <= i < |before| ==> (before + [last])[i] == before[i];
    LastReplyMoves(View(j, x), before, last);
    EitherView(Do(j, Message(x, a, [])), x);
  }

  lemma KeepsPassing(j: State, x: Side, a: Action, objects: seq<Passed>)
    requires JointInv(j) && CanDo(j, Message(x, a, objects)) && !SendsCall(j, x, a) && !PaysDebt(j, x, a)
    ensures JointInv(Do(j, Message(x, a, objects)))
  {
    hide SyncProtocol.Inv, Ownership.Inv, Apply, Load, Items, Enabled, Packing, NpObjects.SendAll, CanPass;
    EitherView(j, x);
    SendingCanInvoke(j.s, x, a);
    SyncProtocol.StepKeepsInv(j.s, a);
    MessagePacking(j, x, a);
    PassingKeepsInv(View(j, x), objects);
    var out, owed := NpObjects.SendAll(j.Of(x).bridge, objects, true), Items(j.Of(x).owed);
    MessageLoads(j, x, a, out.sent);
    assert [] + [] + owed + out.sent == [] + owed + out.sent;
    RepliesMove(View(j, x).(a := out.bridge), [], owed, out.sent);
    assert [] + out.sent + owed == out.sent + [] + owed;
    var j' := Do(j, Message(x, a, objects));
    EitherView(j', x);
  }

  // --- Receiving ---

  lemma TakenFrames(s: System, x: Side, a: Action)
    requires SyncProtocol.Inv(s) && Enabled(s, a) && TakesItems(s, a) && (a == DoGetArgs(x) || a == DoRead(x))
    ensures s.Inbound(x) != []
    ensures var s' := Apply(s, a);
      && s'.Inbound(x) == s.Inbound(x)[1..] && s'.Inbound(Other(x)) == s.Inbound(Other(x))
      && s'.End(Other(x)) == s.End(Other(x)) && (Packing(s.End(x).stack) ==> Packing(s'.End(x).stack))
  {
  }

  lemma {:induction false} ItemsOfTagged(call: CallId, items: seq<Item>)
    ensures Items(Tagged(call, items)) == items
    decreases |items|
  {
    if items != [] {
      ItemsOfTagged(call, items[1..]);
      assert Tagged(call, items)[1..] == Tagged(call, items[1..]);
    }
  }

  lemma {:induction false} ItemsAdd(owed: seq<Debt>, more: seq<Debt>)
    ensures Items(owed + more) == Items(owed) + Items(more)
    decreases |owed|
  {
    if owed == [] {
      assert owed + more == more;
    } else {
      assert (owed + more)[1..] == owed[1..] + more;
      ItemsAdd(owed[1..], more);
    }
  }

  lemma LoadHead(cargo: map<Frame, seq<Item>>, frames: seq<Frame>)
    requires frames != []
    ensures Load(cargo, frames) == CargoOf(cargo, frames[0]) + Load(cargo, frames[1..])
  {
  }

  // What is left in the stream to side x once the frame at its head has been read.
  function Rest(j: State, x: Side): seq<Item>
    requires j.s.Inbound(x) != []
  {
    Load(j.cargo, j.s.Inbound(x)[1..]) + j.Of(Other(x)).packed + Items(j.Of(Other(x)).owed)
  }

  lemma TakenStream(j: State, x: Side)
    requires j.s.Inbound(x) != []
    ensures View(j, x).toA == CargoOf(j.cargo, j.s.Inbound(x)[0]) + Rest(j, x)
  {
    hide Load, Items;
    LoadHead(j.cargo, j.s.Inbound(x));
  }

  lemma TakenView(j: State, x: Side, a: Action, ats: seq<Ptr>, t: Taken)
    requires CanDo(j, Take(x, a, ats)) && SyncProtocol.Inv(j.s) && j.s.Inbound(x) != []
    requires t == TakeAll(j.Of(x).bridge, CargoOf(j.cargo, j.s.Inbound(x)[0]), ats,
                          InvokePossible(Apply(j.s, a).End(x)))
    ensures var w := View(j, x);
      View(Do(j, Take(x, a, ats)), x) == World(t.bridge, w.b, w.toB + t.answers, Rest(j, x), w.failed || t.failed)
    ensures Items(Do(j, Take(x, a, ats)).Of(x).owed) == Items(j.Of(x).owed) + t.answers
    ensures Do(j, Take(x, a, ats)).Of(Other(x)) == j.Of(Other(x))
      && Do(j, Take(x, a, ats)).Of(x).packed == j.Of(x).packed
  {
    hide SyncProtocol.Inv, Apply, Items, Load, Enabled, TakeAll, CanTake, Tagged, TakesItems;
    TakenFrames(j.s, x, a);
    ItemsOfTagged(TopCall(j.s.End(x).stack), t.answers);
    ItemsAdd(j.Of(x).owed, Tagged(TopCall(j.s.End(x).stack), t.answers));
    var j' := Do(j, Take(x, a, ats));
    assert Out(j', x) == Out(j, x) + t.answers;
  }

  lemma KeepsTaking(j: State, x: Side, a: Action, ats: seq<Ptr>)
    requires JointInv(j) && CanDo(j, Take(x, a, ats))
    ensures JointInv(Do(j, Take(x, a, ats)))
  {
    hide SyncProtocol.Inv, Ownership.Inv, Apply, Items, Enabled, Packing, TakeAll, CanTake, Tagged, View, Load;
    EitherView(j, x);
    TakingCanInvoke(j.s, x, a);
    SyncProtocol.StepKeepsInv(j.s, a);
    TakenFrames(j.s, x, a);
    TakenStream(j, x);
    SameBridge(j, x);
    var items := CargoOf(j.cargo, j.s.Inbound(x)[0]);
    TakingKeepsInv(View(j, x), items, Rest(j, x), ats);
    TakenAnswers(View(j, x), items, Rest(j, x), ats);
    AnswersAreDone(items);
    TakenView(j, x, a, ats, TakeAll(j.Of(x).bridge, items, ats, true));
    EitherView(Do(j, Take(x, a, ats)), x);
  }

  lemma SameBridge(j: State, x: Side)
    ensures View(j, x).a == j.Of(x).bridge
  {
  }

  /** Every step keeps the invariants of both. */
  lemma DoKeepsInv(j: State, act: Act)
    requires JointInv(j) && CanDo(j, act)
    ensures JointInv(Do(j, act))
  {
    hide JointInv, Do;
    match act
    case Local(x, m) => KeepsLocal(j, x, m);
    case Plain(a) => KeepsPlain(j, a);
    case Message(x, a, objects) =>
      if SendsCall(j, x, a) { KeepsSendingCall(j, x, a); }
      else if PaysDebt(j, x, a) { KeepsPayingDebt(j, x, a); }
      else { KeepsPassing(j, x, a, objects); }
    case Take(x, a, ats) => KeepsTaking(j, x, a, ats);
  }

  lemma {:induction false} RunKeepsInv(j: State, acts: seq<Act>)
    requires JointInv(j) && Joint.Legal(j, acts)
    ensures JointInv(Joint.Run(j, acts))
    decreases |acts|
  {
    hide JointInv, Do, CanDo;
    if acts != [] {
      DoKeepsInv(j, acts[0]);
      RunKeepsInv(Do(j, acts[0]), acts[1..]);
    }
  }

  // --- Theorems ---

  ghost predicate Reachable(j: State) {
    exists acts :: Joint.Legal(Joint.START, acts) && Joint.Run(Joint.START, acts) == j
  }

  lemma ReachableInv(j: State)
    requires Reachable(j)
    ensures JointInv(j)
  {
    hide JointInv;
    var acts :| Joint.Legal(Joint.START, acts) && Joint.Run(Joint.START, acts) == j;
    InitiallyJoint();
    RunKeepsInv(Joint.START, acts);
  }

  /** No Deallocate call is ever skipped: wherever code drops, marshals or receives references, the endpoint
      can make a call. */
  lemma CallsAreNeverSkipped(j: State, act: Act)
    requires Reachable(j) && CanDo(j, act)
    ensures act.Local? || act.Message? ==> j.CanInvoke(act.x)
    ensures act.Take? ==> InvokePossible(Apply(j.s, act.a).End(act.x))
  {
    ReachableInv(j);
    hide SyncProtocol.Inv, Ownership.Inv, View;
    match act
    case Local(x, m) => TouchingCanInvoke(j.s, x);
    case Message(x, a, objects) => SendingCanInvoke(j.s, x, a);
    case Take(x, a, ats) => TakingCanInvoke(j.s, x, a);
    case _ =>
  }

  /** In every state that the protocol and the objects reach together, with calls nested in calls and in the
      handlers of Deallocate calls, no assert() has failed, and each stub of a side is accounted for by
      exactly one of a valid proxy in use, a reference on its way and a release on its way; a proxy waiting to
      be freed by exactly one Deallocate call that has not returned. */
  lemma StubsMatchProxiesInTheProtocol(j: State, x: Side, id: NpObjects.StubId)
    requires Reachable(j)
    ensures !j.failed
    ensures (if StandingOf(j.Of(Other(x)).bridge, id).Alive? then 1 else 0)
      + Carried(Out(j, x), id) + Released(Out(j, Other(x)), id) == (if id in j.Of(x).bridge.stubs then 1 else 0)
    ensures (if StandingOf(j.Of(Other(x)).bridge, id).Dying? then 1 else 0)
      == multiset(Out(j, Other(x)))[NpObjects.Deallocate(id, true)]
         + multiset(Out(j, x))[NpObjects.DeallocateDone(id, true)]
  {
    ReachableInv(j);
    EitherView(j, x);
    hide JointInv, Out;
    assert Ownership.Inv(View(j, x));
    assert AccountedFor(View(j, x).a, View(j, x).b, View(j, x).toB, View(j, x).toA, id);
  }

  lemma OnlyRepliesOwed(j: State, x: Side, a: Action, objects: seq<Passed>)
    requires JointInv(j) && CanDo(j, Message(x, a, objects)) && !SendsCall(j, x, a)
    ensures Load(j.cargo, j.s.toV) == [] && Load(j.cargo, j.s.toW) == []
    ensures Out(j, x) == Items(j.Of(x).owed) && Out(j, Other(x)) == Items(j.Of(Other(x)).owed)
  {
    hide SyncProtocol.Inv, Ownership.Inv, Apply, Load, Items, Enabled, Packing, View;
    MessagePacking(j, x, a);
    MessageLoads(j, x, a, []);
    var mine, theirs := Items(j.Of(x).owed), Items(j.Of(Other(x)).owed);
    assert [] + [] + mine == mine && [] + [] + theirs == theirs;
  }

  lemma OwedIsDone(j: State, x: Side)
    requires JointInv(j)
    ensures AllDone(Items(j.Of(x).owed))
  {
    hide SyncProtocol.Inv, Ownership.Inv;
  }

  /** A message starts on empty streams: when its first object is marshalled, no reference and no call is on
      its way in either direction, and all that is owed are replies of Deallocate handlers further down. */
  lemma MessagesStartQuiet(j: State, x: Side, a: Action, objects: seq<Passed>)
    requires Reachable(j) && CanDo(j, Message(x, a, objects)) && !SendsCall(j, x, a)
    ensures Load(j.cargo, j.s.toV) == [] && Load(j.cargo, j.s.toW) == []
    ensures var w := World(j.Of(x).bridge, j.Of(Other(x)).bridge, [], [], j.failed);
      Quiet(w, Items(j.Of(x).owed), Items(j.Of(Other(x)).owed))
  {
    ReachableInv(j);
    OnlyRepliesOwed(j, x, a, objects);
    OwedIsDone(j, x);
    OwedIsDone(j, Other(x));
    EitherView(j, x);
    hide SyncProtocol.Inv, Ownership.Inv, Items, Load, Out, CanDo;
  }
}
