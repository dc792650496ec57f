/** What the composition with the objects needs to know of the protocol. */
module JointProtocol {
  import opened RpcEndpoint
  import opened TwoParty
  import opened SyncProtocol
  import opened ProtocolTheorems
  import opened Joint

  // Code that touches objects, marshals them or receives them can make calls.
  lemma TouchingCanInvoke(s: System, x: Side)
    requires SyncProtocol.Inv(s) && Touches(s, x)
    ensures InvokePossible(s.End(x))
  {
    hide SyncProtocol.Inv;
    DepthsOfInv(s, x);
  }

  lemma SendingCanInvoke(s: System, x: Side, a: Action)
    requires SyncProtocol.Inv(s) && Enabled(s, a) && (a == DoSendArgs(x) || a == DoReply(x))
    ensures InvokePossible(s.End(x))
  {
    hide SyncProtocol.Inv;
    DepthsOfInv(s, x);
  }

  lemma TakingCanInvoke(s: System, x: Side, a: Action)
    requires SyncProtocol.Inv(s) && Enabled(s, a) && TakesItems(s, a) && (a == DoGetArgs(x) || a == DoRead(x))
    ensures InvokePossible(Apply(s, a).End(x))
  {
    TakenTop(s, x, a);
    hide SyncProtocol.Inv, Apply;
    SyncProtocol.StepKeepsInv(s, a);
    DepthsOfInv(Apply(s, a), x);
  }

  // After taking items, a side is in its handler, or where it made the call.
  lemma TakenTop(s: System, x: Side, a: Action)
    requires SyncProtocol.Inv(s) && Enabled(s, a) && TakesItems(s, a) && (a == DoGetArgs(x) || a == DoRead(x))
    ensures Resting(Apply(s, a).End(x).stack)
  {
    var token, base, ask :| Coherent(s, token, base, ask);
    if a.DoGetArgs? {
      GetterHasControl(s, x, token, base, ask);
      GetArgsFrame(s, x);
    } else {
      CallerRests(s, x, token, base, ask);
      ReadFrame(s, x);
    }
    hide Coherent, Apply;
  }

  lemma CallerRests(s: System, x: Side, token: Token, base: Base, ask: Ask)
    requires Enabled(s, DoRead(x)) && Coherent(s, token, base, ask) && s.Inbound(x)[0].Reply?
    ensures s.End(x).stack.top.Await? && Resting(s.End(x).stack.below)
  {
    hide OpenCalls, Nest, Counted, Core;
    ReplyReadIsOwn(s, x, token, base, ask);
  }

  predicate NoItems(frames: seq<Frame>) {
    forall i :: 0 <= i < |frames| ==> !CarriesItems(frames[i])
  }

  // When an argument list or a reply is about to be sent, none is under way.
  lemma QuietWires(s: System, x: Side, a: Action)
    requires SyncProtocol.Inv(s) && Enabled(s, a) && (a == DoSendArgs(x) || a == DoReply(x))
    ensures NoItems(s.toV) && NoItems(s.toW)
  {
    var token, base, ask :| Coherent(s, token, base, ask);
    if a.DoReply? { QuietReply(s, x, token, base, ask); } else { QuietArgs(s, x, token, base, ask); }
  }

  lemma QuietReply(s: System, x: Side, token: Token, base: Base, ask: Ask)
    requires Enabled(s, DoReply(x)) && Coherent(s, token, base, ask)
    ensures NoItems(s.toV) && NoItems(s.toW)
  {
    hide OpenCalls, Nest, Counted, Core;
    ReplierHasControl(s, x, token, base, ask);
  }

  lemma QuietArgs(s: System, x: Side, token: Token, base: Base, ask: Ask)
    requires Enabled(s, DoSendArgs(x)) && Coherent(s, token, base, ask)
    ensures NoItems(s.toV) && NoItems(s.toW)
  {
    hide OpenCalls, Nest, Counted;
    SenderOfArgs(s, x, token, base, ask);
  }

  // A side that is sending a call's arguments is the only one to send.
  predicate Packing(st: Stack) {
    st.On? && st.top.Await? && !st.top.argsSent
  }

  lemma OtherIsNotPacking(s: System, x: Side, a: Action)
    requires SyncProtocol.Inv(s) && Enabled(s, a) && (a == DoSendArgs(x) || a == DoReply(x))
    ensures !Packing(s.End(Other(x)).stack)
  {
    var token, base, ask :| Coherent(s, token, base, ask);
    OtherIsNotPackingCoherent(s, x, a, token, base, ask);
  }

  lemma OtherIsNotPackingCoherent(s: System, x: Side, a: Action, token: Token, base: Base, ask: Ask)
    requires Coherent(s, token, base, ask) && Enabled(s, a) && (a == DoSendArgs(x) || a == DoReply(x))
    ensures !Packing(s.End(Other(x)).stack)
  {
    hide OpenCalls, Nest, Counted;
  }

  // A step that carries no items adds and removes only frames without any.
  predicate SameItems(new': seq<Frame>, old': seq<Frame>) {
    || new' == old'
    || (old' != [] && !CarriesItems(old'[0]) && new' == old'[1..])
    || (|new'| == |old'| + 1 && new'[..|old'|] == old' && !CarriesItems(new'[|old'|]))
  }

  lemma FramesUnread(s: System, a: Action, z: Side)
    requires Enabled(s, a) && !a.DoSendArgs? && !a.DoReply? && !a.DoRead? && !a.DoDispatch? && !TakesItems(s, a)
    ensures SameItems(Apply(s, a).Inbound(z), s.Inbound(z))
  {
  }

  lemma PlainFrames(s: System, a: Action, z: Side)
    requires SyncProtocol.Inv(s) && Enabled(s, a) && !a.DoSendArgs? && !a.DoReply? && !TakesItems(s, a)
    ensures SameItems(Apply(s, a).Inbound(z), s.Inbound(z))
  {
    hide SyncProtocol.Inv, Apply;
    match a
    case DoRead(x) => PlainRead(s, x); ReadFrame(s, x);
    case DoDispatch(x) => PlainDispatch(s, x); DispatchFrame(s, x);
    case _ => FramesUnread(s, a, z);
  }

  lemma PlainRead(s: System, x: Side)
    requires SyncProtocol.Inv(s) && Enabled(s, DoRead(x)) && !TakesItems(s, DoRead(x))
    ensures !CarriesItems(s.Inbound(x)[0])
  {
    hide Coherent;
    var token, base, ask :| Coherent(s, token, base, ask);
    ReadIsNotArgs(s, x, token, base, ask);
  }

  lemma PlainDispatch(s: System, x: Side)
    requires SyncProtocol.Inv(s) && Enabled(s, DoDispatch(x))
    ensures !CarriesItems(s.Inbound(x)[0])
  {
    hide Coherent;
    var token, base, ask :| Coherent(s, token, base, ask);
    WhatIsDispatched(s, x, token, base, ask);
  }

  // Only sending its arguments ends a side's packing.
  lemma PackingStays(s: System, a: Action, z: Side)
    requires Enabled(s, a) && a != DoSendArgs(z) && Packing(s.End(z).stack)
    ensures Packing(Apply(s, a).End(z).stack)
  {
  }
}
