/** The references that a side takes are those that the other side wrote, byte for byte. */
module WholeTheorems {
  import opened Wrappers
  import opened Wire
  import NpValues
  import NpObjects
  import RpcArgs
  import RpcFrames
  import opened RpcEndpoint
  import opened TwoParty
  import SyncProtocol
  import Ownership
  import Joint
  import opened JointProtocol
  import JointTheorems
  import JointCalls
  import B = ByteLevel
  import ByteTheorems
  import opened WholeLevel

  // --- Values are received with their references ---

  lemma NormalValueReferences(kind: i32, v: RpcArgs.Value)
    requires RpcArgs.HasKind(v, kind) && RpcArgs.ValueError(v).None?
    ensures ReferencesInValue(RpcArgs.NormalValue(kind, v)) == ReferencesInValue(v)
  {
  }

  lemma {:induction false} NormalValuesReferences(kind: i32, vs: seq<RpcArgs.Value>)
    requires RpcArgs.HasKinds(vs, kind) && RpcArgs.ValuesError(vs).None?
    ensures ReferencesInValues(RpcArgs.NormalValues(kind, vs)) == ReferencesInValues(vs)
    decreases |vs|
  {
    hide RpcArgs.HasKind, RpcArgs.NormalValue, ReferencesInValue, RpcArgs.ValueError;
    if vs != [] {
      NormalValueReferences(kind, vs[0]);
      NormalValuesReferences(kind, vs[1..]);
      assert RpcArgs.NormalValues(kind, vs)[1..] == RpcArgs.NormalValues(kind, vs[1..]);
    }
  }

  lemma NormalArgReferences(a: RpcArgs.Arg)
    requires RpcArgs.IsArg(a) && RpcArgs.ArgError(a).None?
    ensures ReferencesInArg(RpcArgs.NormalArg(a)) == ReferencesInArg(a)
  {
    match a
    case One(kind, v) => NormalValueReferences(kind, v);
    case Array(elemKind, _, contents) =>
      if a.IsFilled() && contents.value.Items? { NormalValuesReferences(elemKind, contents.value.items); }
  }

  lemma {:induction false} NormalArgsReferences(args: seq<RpcArgs.Arg>)
    requires RpcArgs.AreArgs(args) && RpcArgs.ArgsError(args).None?
    ensures ReferencesIn(RpcArgs.NormalArgs(args)) == ReferencesIn(args)
    decreases |args|
  {
    hide RpcArgs.IsArg, RpcArgs.NormalArg, ReferencesInArg, RpcArgs.ArgError;
    if args != [] {
      NormalArgReferences(args[0]);
      NormalArgsReferences(args[1..]);
      assert RpcArgs.NormalArgs(args)[1..] == RpcArgs.NormalArgs(args[1..]);
    }
  }

  lemma NormalNamesStub(args: seq<RpcArgs.Arg>)
    requires RpcArgs.AreArgs(args) && RpcArgs.ArgsError(args).None?
    ensures NamesStub(RpcArgs.NormalArgs(args)) == NamesStub(args)
    ensures NamesStub(args) ==> RpcArgs.NormalArgs(args)[0].value.u == args[0].value.u
  {
    if args != [] {
      assert |RpcArgs.NormalArgs(args)| == 1 + |RpcArgs.NormalArgs(args[1..])|;
      if |args| > 1 { assert |RpcArgs.NormalArgs(args[1..])| == 1 + |RpcArgs.NormalArgs(args[1..][1..])|; }
    }
  }

  /** An argument refers to objects as an NPObject, in a variant, or in any element of an array of either. */
  lemma WhereReferencesAre(kind: i32, plugin: u32, id: u32, release: bool, vs: seq<RpcArgs.Value>)
    requires 0 < |vs| < 0x8000_0000
    ensures RefersTo(kind, NpValues.SenderOwned(plugin, id), NpObjects.SenderOwned(id))
    ensures RefersTo(kind, NpValues.ReceiverOwned(id, release), NpObjects.ReceiverOwned(id, release))
    ensures ReferencesIn([RpcArgs.Array(kind, |vs|, Some(RpcArgs.Items(vs)))])
         == ReferencesIn([RpcArgs.One(kind, vs[0])]) + ReferencesInValues(vs[1..])
  {
    hide ReferencesInValues;
    SingleReferences(RpcArgs.Array(kind, |vs|, Some(RpcArgs.Items(vs))));
    SingleReferences(RpcArgs.One(kind, vs[0]));
    FirstReferences(vs);
    ObjectIsReferred(kind, NpValues.SenderOwned(plugin, id), NpObjects.SenderOwned(id));
    ObjectIsReferred(kind, NpValues.ReceiverOwned(id, release), NpObjects.ReceiverOwned(id, release));
  }

  // The object by itself and in a variant.
  predicate RefersTo(kind: i32, o: NpValues.ObjectRef, item: Item) {
    && ReferencesIn([RpcArgs.One(kind, RpcArgs.UserV(NpValues.Object(o)))]) == [item]
    && ReferencesIn([RpcArgs.One(kind, RpcArgs.UserV(NpValues.Var(NpValues.VObject(o))))]) == [item]
  }

  lemma ObjectIsReferred(kind: i32, o: NpValues.ObjectRef, item: Item)
    requires ReferencesInObject(o) == [item]
    ensures RefersTo(kind, o, item)
  {
    SingleReferences(RpcArgs.One(kind, RpcArgs.UserV(NpValues.Object(o))));
    SingleReferences(RpcArgs.One(kind, RpcArgs.UserV(NpValues.Var(NpValues.VObject(o)))));
  }

  lemma SingleReferences(a: RpcArgs.Arg)
    ensures ReferencesIn([a]) == ReferencesInArg(a)
  {
    hide ReferencesInArg;
    assert [a][1..] == [] && ReferencesInArg(a) + [] == ReferencesInArg(a);
  }

  lemma FirstReferences(vs: seq<RpcArgs.Value>)
    requires vs != []
    ensures ReferencesInValues(vs) == ReferencesInValue(vs[0]) + ReferencesInValues(vs[1..])
  {
  }

  /** Method 78 is the Deallocate call: its one argument is the id of the stub, and its reply, which is empty,
      answers it. All other calls say of objects what their arguments and results refer to. */
  lemma DeallocateCalls(t: Talk, call: CallId, id: u32, p: Packet)
    ensures t.calls.procedure(call) == 78 && t.calls.args(call) == [RpcArgs.One(-2003, RpcArgs.UintV(id))] ==>
      && ItemsOf(t, call, RpcFrames.ArgsPacket(t.calls.args(call))) == [NpObjects.Deallocate(id, t.destroys(call))]
      && ItemsOf(t, call, RpcFrames.ReplyPacket([])) == [NpObjects.DeallocateDone(id, t.destroys(call))]
    ensures t.calls.procedure(call) != 78 ==> ItemsOf(t, call, p) == ReferencesIn(RpcFrames.ArgsOf(p))
  {
  }

  /** What is received refers to the objects that what was sent refers to. */
  lemma NormalKeepsItems(t: Talk, call: CallId, p: Packet)
    requires RpcFrames.IsPacket(p)
    ensures ItemsOf(t, call, RpcFrames.NormalPacket(p)) == ItemsOf(t, call, p)
  {
    hide RpcArgs.AreArgs, RpcArgs.ArgsError, RpcArgs.GoodArgs, RpcArgs.NormalArgs, ReferencesIn, NamesStub;
    NormalArgsReferences(RpcFrames.ArgsOf(p));
    NormalNamesStub(RpcFrames.ArgsOf(p));
  }

  /** Any references with ids of 32 bits can be written, as arguments that can be sent and transmitted. */
  lemma {:induction false} ReferencesCanBeWritten(items: seq<Item>) returns (args: seq<RpcArgs.Arg>)
    requires forall i :: 0 <= i < |items| ==>
      (items[i].SenderOwned? || items[i].ReceiverOwned?) && items[i].id < 0x1_0000_0000
    ensures RpcFrames.IsPacket(RpcFrames.ArgsPacket(args)) && ReferencesIn(args) == items
    decreases |items|
  {
    if items == [] {
      args := [];
    } else {
      var rest := ReferencesCanBeWritten(items[1..]);
      var first := ArgumentFor(items[0]);
      args := [first] + rest;
      hide RpcArgs.IsArg, RpcArgs.ArgError, RpcArgs.GoodArg, ReferencesInArg;
      assert args[1..] == rest;
    }
  }

  lemma ArgumentFor(item: Item) returns (a: RpcArgs.Arg)
    requires (item.SenderOwned? || item.ReceiverOwned?) && item.id < 0x1_0000_0000
    ensures RpcArgs.IsArg(a) && RpcArgs.ArgError(a).None? && RpcArgs.GoodArg(a) && ReferencesInArg(a) == [item]
  {
    var ref := if item.SenderOwned? then NpValues.SenderOwned(0, item.id)
               else NpValues.ReceiverOwned(item.id, item.releaseStub);
    a := RpcArgs.One(NpValues.NP_OBJECT_PASS_REF, RpcArgs.UserV(NpValues.Object(ref)));
  }

  // --- The invariant ---

  predicate CargoTold(t: Talk, j: Joint.State) {
    forall f :: f in j.cargo ==> Tells(t, f, j.cargo[f])
  }

  // Each argument list and reply under way carries something, if only nothing.
  predicate Loaded(j: Joint.State) {
    && (forall i :: 0 <= i < |j.s.toV| && Joint.CarriesItems(j.s.toV[i]) ==> j.s.toV[i] in j.cargo)
    && (forall i :: 0 <= i < |j.s.toW| && Joint.CarriesItems(j.s.toW[i]) ==> j.s.toW[i] in j.cargo)
  }

  ghost predicate Inv(t: Talk, w: Whole) {
    JointTheorems.JointInv(w.j) && ByteTheorems.Inv(t.calls, w.Bytes()) && CargoTold(t, w.j) && Loaded(w.j)
  }

  // A reader sees what is there.
  lemma SeenIsThere(t: Talk, w: Whole, a: Action)
    requires B.Sensible(t.calls) && Inv(t, w) && B.WantsToRead(w.j.s, a) && B.CanDo(t.calls, w.Bytes(), B.Do(a))
    ensures SeenBy(t, w.j, a, B.Read(t.calls, w.Bytes(), a).value.0) == w.j
    ensures w.j.s.Inbound(Actor(a)) != []
    ensures var f := w.j.s.Inbound(Actor(a))[0]; Joint.CarriesItems(f) ==>
      f in w.j.cargo && ItemsOf(t, f.call, B.Read(t.calls, w.Bytes(), a).value.0) == w.j.cargo[f]
  {
    hide JointTheorems.JointInv, ByteTheorems.Inv, B.Sensible, B.Read, ItemsOf, RpcFrames.IsPacket, B.WantsToRead,
      Enabled;
    var x, p := Actor(a), B.Read(t.calls, w.Bytes(), a).value.0;
    ByteTheorems.ReadingIsExact(t.calls, w.Bytes(), a);
    ReadersFind(w.j.s, a);
    var f := w.j.s.Inbound(x)[0];
    ByteTheorems.ReadersSee(w.j.s, x, t.calls, p);
    assert B.Seen(p, B.CallAtHead(w.j.s.Inbound(x))) == f;
    if Joint.CarriesItems(f) {
      NormalKeepsItems(t, f.call, B.PacketOf(t.calls, f));
      assert Tells(t, f, w.j.cargo[f]);
      assert w.j.cargo[f := w.j.cargo[f]] == w.j.cargo;
    }
  }

  lemma ReadersFind(s: System, a: Action)
    requires B.WantsToRead(s, a) && Enabled(s, a)
    ensures s.Inbound(Actor(a)) != []
  {
  }

  lemma BasisIsState(t: Talk, w: Whole, a: Joint.Act)
    requires B.Sensible(t.calls) && Inv(t, w) && BytesAllow(t, w, a)
    ensures Basis(t, w, a) == w.j
  {
    hide Inv, B.Sensible, B.CanDo, B.WantsToRead, SeenBy, B.Read, Joint.CanDo;
    if Reads(w.j, a) { SeenIsThere(t, w, a.a); }
  }

  // --- One step ---

  // A step of the whole is a step of protocol and objects, and one of protocol and bytes.
  lemma NextIsBoth(t: Talk, w: Whole, a: Joint.Act)
    requires B.Sensible(t.calls) && Inv(t, w) && CanDo(t, w, Make(a))
    ensures Joint.CanDo(w.j, a) && Next(t, w, Make(a)).j == Joint.Do(w.j, a)
    ensures var step, w' := Joint.StepOf(w.j, a), Next(t, w, Make(a));
      if step == [] then w'.Bytes() == w.Bytes()
      else B.CanDo(t.calls, w.Bytes(), B.Do(step[0])) && w'.Bytes() == B.Next(t.calls, w.Bytes(), B.Do(step[0]))
  {
    hide JointTheorems.JointInv, ByteTheorems.Inv, CargoTold, Loaded, B.Sensible, B.CanDo, Joint.CanDo, Joint.Do, Basis,
      B.Next, Tells, Apply, Enabled, Joint.StepOf;
    BasisIsState(t, w, a);
    JointCalls.DoIsStep(w.j, a);
    var step := Joint.StepOf(w.j, a);
    if step != [] { ByteTheorems.NextIsApply(t.calls, w.Bytes(), B.Do(step[0])); }
  }

  // No argument list or reply is new.
  predicate BringsNone(new': seq<Frame>, old': seq<Frame>) {
    forall i :: 0 <= i < |new'| && Joint.CarriesItems(new'[i]) ==> new'[i] in old'
  }

  lemma SameItemsBringNone(new': seq<Frame>, old': seq<Frame>)
    requires SameItems(new', old')
    ensures BringsNone(new', old')
  {
    forall i | 0 <= i < |new'| && Joint.CarriesItems(new'[i]) ensures new'[i] in old' {
      if i < |old'| < |new'| && new'[..|old'|] == old' { assert new'[..|old'|][i] == old'[i]; }
    }
  }

  // Of a step that sends no message.
  lemma NothingBrought(j: Joint.State, a: Joint.Act, z: Side)
    requires JointTheorems.JointInv(j) && Joint.CanDo(j, a) && !a.Message?
    ensures BringsNone(Joint.Do(j, a).s.Inbound(z), j.s.Inbound(z)) && Joint.Do(j, a).cargo == j.cargo
  {
    hide SyncProtocol.Inv, Ownership.Inv, Apply, Joint.LocalEffect, Ownership.Allowed, Joint.View, BringsNone,
      SameItems, Joint.TakeAll, Joint.CanTake;
    match a
    case Local(x, m) =>
      JointTheorems.CanCall(j.s, x);
      FramesUnread(j.s, DoInvoke(x, false), z);
      SameItemsBringNone(Apply(j.s, DoInvoke(x, false)).Inbound(z), j.s.Inbound(z));
      Unchanged(j.s.Inbound(z));
    case Plain(p) =>
      PlainFrames(j.s, p, z);
      SameItemsBringNone(Apply(j.s, p).Inbound(z), j.s.Inbound(z));
    case Take(x, p, _) =>
      JointTheorems.TakenFrames(j.s, x, p);
      TailBringsNone(j.s.Inbound(x));
      Unchanged(j.s.Inbound(z));
    case _ =>
  }

  lemma Unchanged(frames: seq<Frame>)
    ensures BringsNone(frames, frames)
  {
  }

  lemma TailBringsNone(frames: seq<Frame>)
    requires frames != []
    ensures BringsNone(frames[1..], frames)
  {
  }

  lemma MessageBrings(j: Joint.State, a: Joint.Act, z: Side)
    requires a.Message? && Joint.CanDo(j, a)
    ensures var frames, f := j.s.Inbound(z), Joint.Sent(a.x, j.s, a.a);
      BringsNone(Joint.Do(j, a).s.Inbound(z), frames + [f]) && Joint.CarriesItems(f)
  {
    hide NpObjects.SendAll, Joint.CanPass;
    if a.a.DoReply? { SyncProtocol.ReplyFrame(j.s, a.x); } else { SyncProtocol.SendArgsFrame(j.s, a.x); }
  }

  lemma KeepsLoaded(j: Joint.State, a: Joint.Act)
    requires JointTheorems.JointInv(j) && Joint.CanDo(j, a) && Loaded(j)
    ensures Loaded(Joint.Do(j, a))
  {
    hide JointTheorems.JointInv, Joint.CanDo, Joint.Do;
    var j' := Joint.Do(j, a);
    if a.Message? {
      MessageBrings(j, a, Viewer);
      MessageBrings(j, a, Wrapper);
      CargoOfMessage(j, a);
    } else {
      NothingBrought(j, a, Viewer);
      NothingBrought(j, a, Wrapper);
    }
  }

  lemma CargoOfMessage(j: Joint.State, a: Joint.Act)
    requires a.Message? && Joint.CanDo(j, a)
    ensures var f, cargo' := Joint.Sent(a.x, j.s, a.a), Joint.Do(j, a).cargo;
      f in cargo' && cargo' == j.cargo[f := cargo'[f]]
  {
    hide Apply, NpObjects.SendAll, Joint.CanPass, Enabled;
  }

  // A message says what it carries.
  predicate MessageTells(t: Talk, j: Joint.State, a: Joint.Act)
    requires Joint.CanDo(j, a)
  {
    a.Message? ==> var f := Joint.Sent(a.x, j.s, a.a); Tells(t, f, Joint.CargoOf(Joint.Do(j, a).cargo, f))
  }

  lemma MessagesTell(t: Talk, w: Whole, a: Joint.Act)
    requires CanDo(t, w, Make(a)) && Joint.CanDo(w.j, a)
    ensures MessageTells(t, w.j, a)
  {
    hide BytesAllow, Joint.CanDo, Joint.Do, Basis, Tells;
  }

  lemma KeepsTold(t: Talk, j: Joint.State, a: Joint.Act)
    requires JointTheorems.JointInv(j) && CargoTold(t, j) && Joint.CanDo(j, a) && MessageTells(t, j, a)
    ensures CargoTold(t, Joint.Do(j, a))
  {
    hide JointTheorems.JointInv, Joint.CanDo, Joint.Do, Tells;
    if a.Message? { CargoOfMessage(j, a); } else { NothingBrought(j, a, Wrapper); }
  }

  /** Every step keeps the invariants of protocol, objects and bytes, and each frame carries what its bytes
      say. */
  lemma StepKeepsInv(t: Talk, w: Whole, act: Act)
    requires B.Sensible(t.calls) && Inv(t, w) && CanDo(t, w, act)
    ensures Inv(t, Next(t, w, act))
  {
    hide JointTheorems.JointInv, ByteTheorems.Inv, B.Sensible, B.CanDo, B.Next, Joint.CanDo, Joint.Do, Joint.StepOf,
      CanDo, Next, Loaded, CargoTold, MessageTells;
    match act
    case Emit(x, count) => EmitKeepsInv(t, w, x, count);
    case Make(a) =>
      NextIsBoth(t, w, a);
      MessagesTell(t, w, a);
      JointTheorems.DoKeepsInv(w.j, a);
      KeepsLoaded(w.j, a);
      KeepsTold(t, w.j, a);
      var step := Joint.StepOf(w.j, a);
      if step != [] { ByteTheorems.StepKeepsInv(t.calls, w.Bytes(), B.Do(step[0])); }
  }

  lemma EmitKeepsInv(t: Talk, w: Whole, x: Side, count: nat)
    requires B.Sensible(t.calls) && Inv(t, w) && CanDo(t, w, Emit(x, count))
    ensures Inv(t, Next(t, w, Emit(x, count)))
    ensures Next(t, w, Emit(x, count)).Bytes() == B.Next(t.calls, w.Bytes(), B.Emit(x, count))
  {
    hide JointTheorems.JointInv, ByteTheorems.Inv, B.Sensible, CargoTold, Loaded;
    ByteTheorems.StepKeepsInv(t.calls, w.Bytes(), B.Emit(x, count));
  }

  lemma {:induction false} RunKeepsInv(t: Talk, w: Whole, acts: seq<Act>)
    requires B.Sensible(t.calls) && Inv(t, w) && WholeLevel.Legal(t, w, acts)
    ensures Inv(t, WholeLevel.Run(t, w, acts))
    decreases |acts|
  {
    hide Inv, B.Sensible, CanDo, Next;
    if acts != [] {
      StepKeepsInv(t, w, acts[0]);
      RunKeepsInv(t, Next(t, w, acts[0]), acts[1..]);
    }
  }

  ghost predicate Reachable(t: Talk, w: Whole) {
    exists acts :: WholeLevel.Legal(t, WholeLevel.QUIET, acts) && WholeLevel.Run(t, WholeLevel.QUIET, acts) == w
  }

  lemma QuietInv(t: Talk)
    ensures Inv(t, WholeLevel.QUIET)
  {
    hide JointTheorems.JointInv, ByteTheorems.Inv;
    JointTheorems.InitiallyJoint();
    ByteTheorems.QuietInv(t.calls);
  }

  lemma ReachableInv(t: Talk, w: Whole)
    requires B.Sensible(t.calls) && Reachable(t, w)
    ensures Inv(t, w)
  {
    hide Inv, CanDo, Next;
    var acts :| WholeLevel.Legal(t, WholeLevel.QUIET, acts) && WholeLevel.Run(t, WholeLevel.QUIET, acts) == w;
    QuietInv(t);
    RunKeepsInv(t, WholeLevel.QUIET, acts);
  }

  // --- Runs of the parts ---

  lemma {:induction false} RunsOfParts(t: Talk, w: Whole, acts: seq<Act>)
    returns (moves: seq<Joint.Act>, bytes: seq<B.Act>)
    requires B.Sensible(t.calls) && Inv(t, w) && WholeLevel.Legal(t, w, acts)
    ensures Joint.Legal(w.j, moves) && Joint.Run(w.j, moves) == WholeLevel.Run(t, w, acts).j
    ensures B.Legal(t.calls, w.Bytes(), bytes)
    ensures B.Run(t.calls, w.Bytes(), bytes) == WholeLevel.Run(t, w, acts).Bytes()
    decreases |acts|
  {
    hide Inv, B.Sensible, CanDo, Next, B.CanDo, B.Next, Joint.CanDo, Joint.Do, Joint.StepOf;
    moves, bytes := [], [];
    if acts != [] {
      StepKeepsInv(t, w, acts[0]);
      moves, bytes := RunsOfParts(t, Next(t, w, acts[0]), acts[1..]);
      var rest, more := moves, bytes;
      match acts[0]
      case Emit(x, count) =>
        EmitIsByteStep(t, w, x, count);
        bytes := [B.Emit(x, count)] + more;
        assert bytes[1..] == more;
      case Make(a) =>
        NextIsBoth(t, w, a);
        moves := [a] + rest;
        assert moves[1..] == rest;
        if Joint.StepOf(w.j, a) != [] {
          bytes := [B.Do(Joint.StepOf(w.j, a)[0])] + more;
          assert bytes[1..] == more;
        }
    }
  }

  lemma EmitIsByteStep(t: Talk, w: Whole, x: Side, count: nat)
    requires CanDo(t, w, Emit(x, count))
    ensures B.CanDo(t.calls, w.Bytes(), B.Emit(x, count)) && Next(t, w, Emit(x, count)).j == w.j
    ensures Next(t, w, Emit(x, count)).Bytes() == B.Next(t.calls, w.Bytes(), B.Emit(x, count))
  {
  }

  // --- Theorems ---

  /** What the whole reaches, protocol and objects reach together, and protocol and bytes: all that is proved of
      either holds here. */
  lemma WholeRefinesParts(t: Talk, w: Whole)
    requires B.Sensible(t.calls) && Reachable(t, w)
    ensures JointTheorems.Reachable(w.j) && ByteTheorems.Reachable(t.calls, w.Bytes())
  {
    hide Inv, B.Sensible, CanDo, Next;
    var acts :| WholeLevel.Legal(t, WholeLevel.QUIET, acts) && WholeLevel.Run(t, WholeLevel.QUIET, acts) == w;
    QuietInv(t);
    var moves, bytes := RunsOfParts(t, WholeLevel.QUIET, acts);
    assert WholeLevel.QUIET.Bytes() == B.QUIET;
  }

  /** In every state, whoever receives arguments or results takes from their bytes exactly the references, or
      the Deallocate call, that their sender put there, and does with them what the runs of protocol and objects
      have it do. */
  lemma ReferencesArrive(t: Talk, w: Whole, x: Side, a: Action, ats: seq<NpObjects.Ptr>)
    requires B.Sensible(t.calls) && Reachable(t, w) && CanDo(t, w, Make(Joint.Take(x, a, ats)))
    ensures w.j.s.Inbound(x) != [] && Joint.CarriesItems(w.j.s.Inbound(x)[0])
    ensures var f, p := w.j.s.Inbound(x)[0], B.Read(t.calls, w.Bytes(), a).value.0;
      ItemsOf(t, f.call, p) == Joint.CargoOf(w.j.cargo, f)
    ensures Joint.CanDo(w.j, Joint.Take(x, a, ats))
    ensures Next(t, w, Make(Joint.Take(x, a, ats))).j == Joint.Do(w.j, Joint.Take(x, a, ats))
  {
    hide Inv, B.Sensible, Joint.Do, ItemsOf, B.Read, Next, Reachable;
    var act := Joint.Take(x, a, ats);
    ReachableInv(t, w);
    ProtocolInv(t, w);
    NextIsBoth(t, w, act);
    TakeReads(t, w, x, a, ats);
    TakingReads(w.j, x, a, ats);
    SeenIsThere(t, w, a);
  }

  lemma ProtocolInv(t: Talk, w: Whole)
    requires Inv(t, w)
    ensures SyncProtocol.Inv(w.j.s)
  {
    hide SyncProtocol.Inv, CargoTold, Loaded, JointTheorems.JointInv;
  }

  lemma TakeReads(t: Talk, w: Whole, x: Side, a: Action, ats: seq<NpObjects.Ptr>)
    requires CanDo(t, w, Make(Joint.Take(x, a, ats)))
    ensures B.CanDo(t.calls, w.Bytes(), B.Do(a))
  {
    hide B.CanDo, Joint.CanDo, Tells, Basis;
  }

  lemma TakingReads(j: Joint.State, x: Side, a: Action, ats: seq<NpObjects.Ptr>)
    requires Joint.CanDo(j, Joint.Take(x, a, ats)) && SyncProtocol.Inv(j.s)
    ensures B.WantsToRead(j.s, a) && Actor(a) == x && j.s.Inbound(x) != [] && Joint.CarriesItems(j.s.Inbound(x)[0])
  {
    hide Apply, Joint.TakeAll, Joint.CanTake, SyncProtocol.Inv;
    JointCalls.TakenReader(j.s, x, a);

  }
}
