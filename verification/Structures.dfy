/** What becomes of the members of each structure, by name, and where on the wire they are. The numbers are the
    message types of src/npw-rpc.h and the event types of the X protocol. */
module Structures {
  import opened Wrappers
  import opened Wire
  import opened NpValues
  import opened NpRoundTrips

  // --- The structures of the NPAPI and of Xlib ---

  predicate IsU32(r: Record, m: Member) {
    m in r && 0 <= r[m] < 0x1_0000_0000
  }

  predicate IsI32(r: Record, m: Member) {
    m in r && -0x8000_0000 <= r[m] < 0x8000_0000
  }

  predicate IsU16(r: Record, m: Member) {
    m in r && 0 <= r[m] < 0x1_0000
  }

  predicate IsU8(r: Record, m: Member) {
    m in r && 0 <= r[m] < 0x100
  }

  // NPRect
  predicate IsRectangle(r: Record) {
    IsU16(r, Top) && IsU16(r, Left) && IsU16(r, BottomEdge) && IsU16(r, Right)
  }

  // NPWindow, but for its ws_info
  predicate IsWindow(r: Record) {
    && IsU32(r, WindowId) && IsI32(r, X) && IsI32(r, Y) && IsU32(r, Width) && IsU32(r, Height)
    && IsRectangle(r) && IsI32(r, WindowType)
  }

  // NPSetWindowCallbackStruct
  predicate IsInfo(r: Record) {
    IsI32(r, WsType) && IsU32(r, VisualId) && IsU32(r, Colormap) && IsU32(r, ColorDepth)
  }

  // NPFullPrint
  predicate IsFullPrint(r: Record) {
    IsU8(r, PluginPrinted) && IsU8(r, PrintOne)
  }

  // XAnyEvent
  predicate IsAnyEvent(r: Record) {
    IsU32(r, Serial) && IsU32(r, SendEvent) && IsU32(r, EventWindow)
  }

  // What XCrossingEvent, XMotionEvent, XButtonEvent and XKeyEvent begin with
  predicate IsPointerEvent(r: Record) {
    && IsAnyEvent(r) && IsU32(r, Root) && IsU32(r, Subwindow) && IsU32(r, Time)
    && IsI32(r, X) && IsI32(r, Y) && IsI32(r, XRoot) && IsI32(r, YRoot)
  }

  predicate IsExposeEvent(r: Record) {
    IsAnyEvent(r) && IsI32(r, X) && IsI32(r, Y) && IsU32(r, Width) && IsU32(r, Height)
  }

  predicate IsCrossingEvent(r: Record) {
    && IsPointerEvent(r) && IsI32(r, Mode) && IsI32(r, Detail) && IsI32(r, SameScreen) && IsI32(r, Focus)
    && IsU32(r, State)
  }

  predicate IsMotionEvent(r: Record) {
    IsPointerEvent(r) && IsU32(r, State) && IsU8(r, IsHint) && IsI32(r, SameScreen)
  }

  predicate IsButtonEvent(r: Record) {
    IsPointerEvent(r) && IsU32(r, State) && IsU32(r, Button) && IsI32(r, SameScreen)
  }

  predicate IsKeyEvent(r: Record) {
    IsPointerEvent(r) && IsU32(r, State) && IsU32(r, KeyCode) && IsI32(r, SameScreen)
  }

  // What was received of r: these members, as they were, and no others.
  predicate Keeps(received: Record, r: Record, members: seq<Member>) {
    && (forall m <- received :: m in members)
    && (forall m <- members :: m in received && m in r && received[m] == r[m])
  }

  function Concat(parts: seq<Bytes>): Bytes {
    if parts == [] then [] else parts[0] + Concat(parts[1..])
  }

  // --- Layouts ---

  lemma {:induction false} MembersFit(layout: Layout, r: Record)
    requires forall i :: 0 <= i < |layout| ==> layout[i].0 in r && Fits(layout[i].1, r[layout[i].0])
    ensures HasMembers(layout, r)
  {
    if layout != [] {
      forall i | 0 <= i < |layout[1..]|
        ensures layout[1..][i].0 in r && Fits(layout[1..][i].1, r[layout[1..][i].0])
      {
        assert layout[1..][i] == layout[i + 1];
      }
      MembersFit(layout[1..], r);
    }
  }

  lemma {:induction false} MembersAre(layout: Layout, r: Record, parts: seq<Bytes>)
    requires HasMembers(layout, r) && |parts| == |layout|
    requires forall i :: 0 <= i < |layout| && layout[i].0 in r && Fits(layout[i].1, r[layout[i].0]) ==>
      parts[i] == SendMember(layout[i].1, r[layout[i].0])
    ensures SendMembers(layout, r) == Concat(parts)
  {
    hide SendMember;
    if layout != [] {
      forall i | 0 <= i < |layout[1..]| && layout[1..][i].0 in r && Fits(layout[1..][i].1, r[layout[1..][i].0])
        ensures parts[1..][i] == SendMember(layout[1..][i].1, r[layout[1..][i].0])
      {
        assert layout[1..][i] == layout[i + 1] && parts[1..][i] == parts[i + 1];
      }
      MembersAre(layout[1..], r, parts[1..]);
    }
  }

  lemma KeptMembers(layout: Layout, r: Record, members: seq<Member>)
    requires HasMembers(layout, r) && |members| == |layout|
    requires forall i :: 0 <= i < |layout| ==> layout[i].0 == members[i]
    ensures Keeps(Transmitted(layout, r), r, members)
  {
    TransmittedIsExact(layout, r);
    forall m <- members ensures m in Transmitted(layout, r) {
      var i :| 0 <= i < |members| && members[i] == m;
      assert layout[i].0 == m;
    }
  }

  // The members of a record, and how each is written.
  predicate Describes(layout: Layout, r: Record, members: seq<Member>, parts: seq<Bytes>) {
    && |members| == |layout| && |parts| == |layout|
    && forall i :: 0 <= i < |layout| ==>
         && layout[i].0 == members[i] && layout[i].0 in r && Fits(layout[i].1, r[layout[i].0])
         && parts[i] == SendMember(layout[i].1, r[layout[i].0])
  }

  predicate IsDescribed(layout: Layout, r: Record, members: seq<Member>, parts: seq<Bytes>) {
    HasMembers(layout, r) && Keeps(Transmitted(layout, r), r, members) && SendMembers(layout, r) == Concat(parts)
  }

  lemma Described(layout: Layout, r: Record, members: seq<Member>, parts: seq<Bytes>)
    requires Describes(layout, r, members, parts)
    ensures IsDescribed(layout, r, members, parts)
  {
    hide SendMember, Fits, Keeps, Concat, HasMembers, Transmitted;
    MembersFit(layout, r);
    KeptMembers(layout, r, members);
    MembersAre(layout, r, parts);
  }

  // --- Rectangles, windows and print jobs ---

  function RectangleParts(r: Record): seq<Bytes>
    requires IsRectangle(r)
  {
    [SendU32(r[Top]), SendU32(r[Left]), SendU32(r[BottomEdge]), SendU32(r[Right])]
  }

  lemma RectangleDescribed(r: Record)
    requires IsRectangle(r)
    ensures IsDescribed(SEND_RECT, r, [Top, Left, BottomEdge, Right], RectangleParts(r))
  {
    hide SendU32, SendI32, SendChar, HasMembers, SendMembers, Transmitted, Keeps, Concat;
    Described(SEND_RECT, r, [Top, Left, BottomEdge, Right], RectangleParts(r));
  }

  /** A rectangle is received with its four edges, which travel in the order of the structure. */
  lemma RectangleArrives(r: Record, rest: Bytes)
    requires IsRectangle(r)
    ensures HasType(Rect(r), 6) && SendNpValue(6, Rect(r)) == Concat(RectangleParts(r))
    ensures var got := RecvNpValue(6, SendNpValue(6, Rect(r)) + rest);
      got.Ok? && got.value.1 == rest && got.value.0.Rect? && Keeps(got.value.0.rect, r, [Top, Left, BottomEdge, Right])
  {
    hide SendMembers, RecvMembers, HasMembers, Transmitted, Keeps, Concat, RectangleParts;
    RectangleDescribed(r);
    ArrivesIffTransmittable(6, Rect(r), rest);
  }

  function WindowParts(r: Record): seq<Bytes>
    requires IsWindow(r)
  {
    [SendU32(r[WindowId]), SendI32(r[X]), SendI32(r[Y]), SendU32(r[Width]), SendU32(r[Height]), SendU32(r[Top]),
     SendU32(r[Left]), SendU32(r[BottomEdge]), SendU32(r[Right]), SendI32(r[WindowType])]
  }

  lemma WindowDescribed(r: Record)
    requires IsWindow(r)
    ensures IsDescribed(SEND_WINDOW, r,
                        [WindowId, X, Y, Width, Height, Top, Left, BottomEdge, Right, WindowType],
                        WindowParts(r))
  {
    hide SendU32, SendI32, SendChar, HasMembers, SendMembers, Transmitted, Keeps, Concat;
    Described(SEND_WINDOW, r,
              [WindowId, X, Y, Width, Height, Top, Left, BottomEdge, Right, WindowType],
              WindowParts(r));
  }

  function InfoParts(r: Record): seq<Bytes>
    requires IsInfo(r)
  {
    [SendI32(r[WsType]), SendU32(r[VisualId]), SendU32(r[Colormap]), SendU32(r[ColorDepth])]
  }

  lemma InfoDescribed(r: Record)
    requires IsInfo(r)
    ensures IsDescribed(SEND_WS_INFO, r, [WsType, VisualId, Colormap, ColorDepth], InfoParts(r))
  {
    hide SendU32, SendI32, SendChar, HasMembers, SendMembers, Transmitted, Keeps, Concat;
    Described(SEND_WS_INFO, r,
              [WsType, VisualId, Colormap, ColorDepth],
              InfoParts(r));
  }

  predicate IsWholeWindow(w: WindowData) {
    IsWindow(w.members) && (w.wsInfo.Some? ==> IsInfo(w.wsInfo.value))
  }

  // What was received of a window: all ten members, and the four of its information if it has any.
  predicate KeepsWindow(got: WindowData, w: WindowData) {
    && Keeps(got.members, w.members, [WindowId, X, Y, Width, Height, Top, Left, BottomEdge, Right, WindowType])
    && (got.wsInfo.Some? <==> w.wsInfo.Some?)
    && (w.wsInfo.Some? ==> Keeps(got.wsInfo.value, w.wsInfo.value, [WsType, VisualId, Colormap, ColorDepth]))
  }

  function WholeWindowBytes(w: WindowData): Bytes
    requires IsWholeWindow(w)
  {
    Concat(WindowParts(w.members))
    + if w.wsInfo.None? then SendU32(0) else SendU32(1) + Concat(InfoParts(w.wsInfo.value))
  }

  lemma WindowIsKept(w: WindowData)
    requires IsWholeWindow(w)
    ensures IsWindowData(w) && SendWindowData(w) == WholeWindowBytes(w) && KeepsWindow(NormalWindow(w), w)
  {
    hide SendMembers, RecvMembers, HasMembers, Transmitted, Keeps, Concat, WindowParts, InfoParts, SendU32;
    WindowDescribed(w.members);
    if w.wsInfo.Some? { InfoDescribed(w.wsInfo.value); }
  }

  /** A window is received with its id, place, size, clip rectangle and type, and with the members of its
      window-system information; as an argument of its own, or as what a plugin is printed into. */
  lemma WindowArrives(w: WindowData, rest: Bytes)
    requires IsWholeWindow(w)
    ensures HasType(Window(Some(w)), 7) && HasType(EmbedPrintInfo(w), 11)
    ensures SendNpValue(7, Window(Some(w))) == SendU32(1) + WholeWindowBytes(w)
    ensures SendNpValue(11, EmbedPrintInfo(w)) == WholeWindowBytes(w)
    ensures var got := RecvNpValue(7, SendNpValue(7, Window(Some(w))) + rest);
      && got.Ok? && got.value.1 == rest
      && got.value.0.Window? && got.value.0.window.Some? && KeepsWindow(got.value.0.window.value, w)
    ensures var got := RecvNpValue(11, SendNpValue(11, EmbedPrintInfo(w)) + rest);
      got.Ok? && got.value.1 == rest && got.value.0.EmbedPrintInfo? && KeepsWindow(got.value.0.embed, w)
  {
    hide IsWholeWindow, KeepsWindow, WholeWindowBytes, NormalWindow, IsWindowData, SendWindowData, RecvWindowData,
      SendU32;
    WindowIsKept(w);
    ArrivesIffTransmittable(7, Window(Some(w)), rest);
    ArrivesIffTransmittable(11, EmbedPrintInfo(w), rest);
  }

  function FullPrintParts(r: Record): seq<Bytes>
    requires IsFullPrint(r)
  {
    [SendU32(r[PluginPrinted]), SendU32(r[PrintOne])]
  }

  lemma FullPrintDescribed(r: Record)
    requires IsFullPrint(r)
    ensures IsDescribed(SEND_FULL_PRINT, r, [PluginPrinted, PrintOne], FullPrintParts(r))
  {
    hide SendU32, SendI32, SendChar, HasMembers, SendMembers, Transmitted, Keeps, Concat;
    Described(SEND_FULL_PRINT, r, [PluginPrinted, PrintOne], FullPrintParts(r));
  }

  /** A full-page print record is received with its two flags, on its own or in a print job. */
  lemma FullPrintArrives(r: Record, rest: Bytes)
    requires IsFullPrint(r)
    ensures HasType(FullPrintInfo(r), 10) && HasType(PrintInfo(FullPrint(r)), 9)
    ensures SendNpValue(10, FullPrintInfo(r)) == Concat(FullPrintParts(r))
    ensures SendNpValue(9, PrintInfo(FullPrint(r))) == SendU32(2) + Concat(FullPrintParts(r))
    ensures var got := RecvNpValue(10, SendNpValue(10, FullPrintInfo(r)) + rest);
      && got.Ok? && got.value.1 == rest
      && got.value.0.FullPrintInfo? && Keeps(got.value.0.full, r, [PluginPrinted, PrintOne])
    ensures var got := RecvNpValue(9, SendNpValue(9, PrintInfo(FullPrint(r))) + rest);
      && got.Ok? && got.value.1 == rest
      && got.value.0.PrintInfo? && got.value.0.job.FullPrint?
      && Keeps(got.value.0.job.members, r, [PluginPrinted, PrintOne])
  {
    hide SendMembers, RecvMembers, HasMembers, Transmitted, Keeps, Concat, FullPrintParts, SendU32;
    FullPrintDescribed(r);
    ArrivesIffTransmittable(10, FullPrintInfo(r), rest);
    ArrivesIffTransmittable(9, PrintInfo(FullPrint(r)), rest);
  }

  /** Printing into a window: the window is received. */
  lemma EmbedPrintArrives(w: WindowData, rest: Bytes)
    requires IsWholeWindow(w)
    ensures HasType(PrintInfo(EmbedPrint(w)), 9)
    ensures SendNpValue(9, PrintInfo(EmbedPrint(w))) == SendU32(1) + WholeWindowBytes(w)
    ensures var got := RecvNpValue(9, SendNpValue(9, PrintInfo(EmbedPrint(w))) + rest);
      && got.Ok? && got.value.1 == rest
      && got.value.0.PrintInfo? && got.value.0.job.EmbedPrint? && KeepsWindow(got.value.0.job.window, w)
  {
    hide IsWholeWindow, KeepsWindow, WholeWindowBytes, NormalWindow, IsWindowData, SendWindowData, SendU32;
    WindowIsKept(w);
    ArrivesIffTransmittable(9, PrintInfo(EmbedPrint(w)), rest);
  }

  // --- Events ---

  predicate EventKeeps(got: Decoded<NpValue>, kind: i32, r: Record, members: seq<Member>, rest: Bytes) {
    && got.Ok? && got.value.1 == rest
    && got.value.0.Event? && got.value.0.kind == kind && Keeps(got.value.0.members, r, members)
  }

  lemma EventIsKept(kind: i32, r: Record, layout: Layout, members: seq<Member>, parts: seq<Bytes>, rest: Bytes)
    requires SendEventLayout(kind) == Some(layout) && IsDescribed(layout, r, members, parts)
    ensures HasType(Event(kind, r), 8) && SendNpValue(8, Event(kind, r)) == SendI32(kind) + Concat(parts)
    ensures EventKeeps(RecvNpValue(8, SendNpValue(8, Event(kind, r)) + rest), kind, r, members, rest)
  {
    hide SendMembers, RecvMembers, HasMembers, Transmitted, Keeps, Concat, SendEventLayout, RecvEventLayout, SendI32;
    ArrivesIffTransmittable(8, Event(kind, r), rest);
  }

  function KeyEventParts(r: Record): seq<Bytes>
    requires IsKeyEvent(r)
  {
    [SendU32(r[Serial]), SendU32(r[SendEvent]), SendU32(r[EventWindow]), SendU32(r[Root]), SendU32(r[Subwindow]),
     SendU32(r[Time]), SendI32(r[X]), SendI32(r[Y]), SendI32(r[XRoot]), SendI32(r[YRoot]), SendU32(r[State]),
     SendU32(r[KeyCode]), SendI32(r[SameScreen])]
  }

  lemma KeyEventDescribed(r: Record)
    requires IsKeyEvent(r)
    ensures IsDescribed(SendEventLayout(2).value, r,
                        [Serial, SendEvent, EventWindow, Root, Subwindow, Time, X, Y, XRoot, YRoot, State, KeyCode,
                         SameScreen],
                        KeyEventParts(r))
  {
    hide SendU32, SendI32, SendChar, HasMembers, SendMembers, Transmitted, Keeps, Concat;
    Described(SendEventLayout(2).value, r,
              [Serial, SendEvent, EventWindow, Root, Subwindow, Time, X, Y, XRoot, YRoot, State, KeyCode, SameScreen],
              KeyEventParts(r));
  }

  /** A key event (KeyPress 2, KeyRelease 3) is received with its key and all the rest of it. */
  lemma KeyEventArrives(kind: i32, r: Record, rest: Bytes)
    requires (kind == 2 || kind == 3) && IsKeyEvent(r)
    ensures HasType(Event(kind, r), 8)
    ensures SendNpValue(8, Event(kind, r)) == SendI32(kind) + Concat(KeyEventParts(r))
    ensures EventKeeps(RecvNpValue(8, SendNpValue(8, Event(kind, r)) + rest), kind, r,
                       [Serial, SendEvent, EventWindow, Root, Subwindow, Time, X, Y, XRoot, YRoot, State, KeyCode,
                        SameScreen], rest)
  {
    hide IsDescribed, Keeps, Concat, EventKeeps, KeyEventParts, IsKeyEvent, HasType, SendNpValue, RecvNpValue;
    KeyEventDescribed(r);
    EventIsKept(kind, r, SendEventLayout(2).value,
                [Serial, SendEvent, EventWindow, Root, Subwindow, Time, X, Y, XRoot, YRoot, State, KeyCode,
                 SameScreen], KeyEventParts(r), rest);
  }

  function ButtonEventParts(r: Record): seq<Bytes>
    requires IsButtonEvent(r)
  {
    [SendU32(r[Serial]), SendU32(r[SendEvent]), SendU32(r[EventWindow]), SendU32(r[Root]), SendU32(r[Subwindow]),
     SendU32(r[Time]), SendI32(r[X]), SendI32(r[Y]), SendI32(r[XRoot]), SendI32(r[YRoot]), SendU32(r[State]),
     SendU32(r[Button]), SendI32(r[SameScreen])]
  }

  lemma ButtonEventDescribed(r: Record)
    requires IsButtonEvent(r)
    ensures IsDescribed(SendEventLayout(4).value, r,
                        [Serial, SendEvent, EventWindow, Root, Subwindow, Time, X, Y, XRoot, YRoot, State, Button,
                         SameScreen],
                        ButtonEventParts(r))
  {
    hide SendU32, SendI32, SendChar, HasMembers, SendMembers, Transmitted, Keeps, Concat;
    Described(SendEventLayout(4).value, r,
              [Serial, SendEvent, EventWindow, Root, Subwindow, Time, X, Y, XRoot, YRoot, State, Button, SameScreen],
              ButtonEventParts(r));
  }

  /** A button event (ButtonPress 4, ButtonRelease 5) is received with its button. */
  lemma ButtonEventArrives(kind: i32, r: Record, rest: Bytes)
    requires (kind == 4 || kind == 5) && IsButtonEvent(r)
    ensures HasType(Event(kind, r), 8)
    ensures SendNpValue(8, Event(kind, r)) == SendI32(kind) + Concat(ButtonEventParts(r))
    ensures EventKeeps(RecvNpValue(8, SendNpValue(8, Event(kind, r)) + rest), kind, r,
                       [Serial, SendEvent, EventWindow, Root, Subwindow, Time, X, Y, XRoot, YRoot, State, Button,
                        SameScreen], rest)
  {
    hide IsDescribed, Keeps, Concat, EventKeeps, ButtonEventParts, IsButtonEvent, HasType, SendNpValue, RecvNpValue;
    ButtonEventDescribed(r);
    EventIsKept(kind, r, SendEventLayout(4).value,
                [Serial, SendEvent, EventWindow, Root, Subwindow, Time, X, Y, XRoot, YRoot, State, Button,
                 SameScreen], ButtonEventParts(r), rest);
  }

  function MotionEventParts(r: Record): seq<Bytes>
    requires IsMotionEvent(r)
  {
    [SendU32(r[Serial]), SendU32(r[SendEvent]), SendU32(r[EventWindow]), SendU32(r[Root]), SendU32(r[Subwindow]),
     SendU32(r[Time]), SendI32(r[X]), SendI32(r[Y]), SendI32(r[XRoot]), SendI32(r[YRoot]), SendU32(r[State]),
     SendChar(r[IsHint]), SendI32(r[SameScreen])]
  }

  lemma MotionEventDescribed(r: Record)
    requires IsMotionEvent(r)
    ensures IsDescribed(SendEventLayout(6).value, r,
                        [Serial, SendEvent, EventWindow, Root, Subwindow, Time, X, Y, XRoot, YRoot, State, IsHint,
                         SameScreen],
                        MotionEventParts(r))
  {
    hide SendU32, SendI32, SendChar, HasMembers, SendMembers, Transmitted, Keeps, Concat;
    Described(SendEventLayout(6).value, r,
              [Serial, SendEvent, EventWindow, Root, Subwindow, Time, X, Y, XRoot, YRoot, State, IsHint, SameScreen],
              MotionEventParts(r));
  }

  /** A motion event (MotionNotify 6) is received with its hint. */
  lemma MotionEventArrives(kind: i32, r: Record, rest: Bytes)
    requires kind == 6 && IsMotionEvent(r)
    ensures HasType(Event(kind, r), 8)
    ensures SendNpValue(8, Event(kind, r)) == SendI32(kind) + Concat(MotionEventParts(r))
    ensures EventKeeps(RecvNpValue(8, SendNpValue(8, Event(kind, r)) + rest), kind, r,
                       [Serial, SendEvent, EventWindow, Root, Subwindow, Time, X, Y, XRoot, YRoot, State, IsHint,
                        SameScreen], rest)
  {
    hide IsDescribed, Keeps, Concat, EventKeeps, MotionEventParts, IsMotionEvent, HasType, SendNpValue, RecvNpValue;
    MotionEventDescribed(r);
    EventIsKept(kind, r, SendEventLayout(6).value,
                [Serial, SendEvent, EventWindow, Root, Subwindow, Time, X, Y, XRoot, YRoot, State, IsHint,
                 SameScreen], MotionEventParts(r), rest);
  }

  function CrossingEventParts(r: Record): seq<Bytes>
    requires IsCrossingEvent(r)
  {
    [SendU32(r[Serial]), SendU32(r[SendEvent]), SendU32(r[EventWindow]), SendU32(r[Root]), SendU32(r[Subwindow]),
     SendU32(r[Time]), SendI32(r[X]), SendI32(r[Y]), SendI32(r[XRoot]), SendI32(r[YRoot]), SendI32(r[Mode]),
     SendI32(r[Detail]), SendI32(r[SameScreen]), SendI32(r[Focus]), SendU32(r[State])]
  }

  lemma CrossingEventDescribed(r: Record)
    requires IsCrossingEvent(r)
    ensures IsDescribed(SendEventLayout(7).value, r,
                        [Serial, SendEvent, EventWindow, Root, Subwindow, Time, X, Y, XRoot, YRoot, Mode, Detail,
                         SameScreen, Focus, State],
                        CrossingEventParts(r))
  {
    hide SendU32, SendI32, SendChar, HasMembers, SendMembers, Transmitted, Keeps, Concat;
    Described(SendEventLayout(7).value, r,
              [Serial, SendEvent, EventWindow, Root, Subwindow, Time, X, Y, XRoot, YRoot, Mode, Detail, SameScreen,
               Focus, State],
              CrossingEventParts(r));
  }

  /** A crossing event (EnterNotify 7, LeaveNotify 8) is received with its mode, detail and focus. */
  lemma CrossingEventArrives(kind: i32, r: Record, rest: Bytes)
    requires (kind == 7 || kind == 8) && IsCrossingEvent(r)
    ensures HasType(Event(kind, r), 8)
    ensures SendNpValue(8, Event(kind, r)) == SendI32(kind) + Concat(CrossingEventParts(r))
    ensures EventKeeps(RecvNpValue(8, SendNpValue(8, Event(kind, r)) + rest), kind, r,
                       [Serial, SendEvent, EventWindow, Root, Subwindow, Time, X, Y, XRoot, YRoot, Mode, Detail,
                        SameScreen, Focus, State], rest)
  {
    hide IsDescribed, Keeps, Concat, EventKeeps, CrossingEventParts, IsCrossingEvent, HasType, SendNpValue, RecvNpValue;
    CrossingEventDescribed(r);
    EventIsKept(kind, r, SendEventLayout(7).value,
                [Serial, SendEvent, EventWindow, Root, Subwindow, Time, X, Y, XRoot, YRoot, Mode, Detail,
                 SameScreen, Focus, State], CrossingEventParts(r), rest);
  }

  function ExposeEventParts(r: Record): seq<Bytes>
    requires IsExposeEvent(r)
  {
    [SendU32(r[Serial]), SendU32(r[SendEvent]), SendU32(r[EventWindow]), SendI32(r[X]), SendI32(r[Y]),
     SendU32(r[Width]), SendU32(r[Height])]
  }

  lemma ExposeEventDescribed(r: Record)
    requires IsExposeEvent(r)
    ensures IsDescribed(SendEventLayout(13).value, r,
                        [Serial, SendEvent, EventWindow, X, Y, Width, Height],
                        ExposeEventParts(r))
  {
    hide SendU32, SendI32, SendChar, HasMembers, SendMembers, Transmitted, Keeps, Concat;
    Described(SendEventLayout(13).value, r,
              [Serial, SendEvent, EventWindow, X, Y, Width, Height],
              ExposeEventParts(r));
  }

  /** An expose event (GraphicsExpose 13) is received with the area exposed. */
  lemma ExposeEventArrives(kind: i32, r: Record, rest: Bytes)
    requires kind == 13 && IsExposeEvent(r)
    ensures HasType(Event(kind, r), 8)
    ensures SendNpValue(8, Event(kind, r)) == SendI32(kind) + Concat(ExposeEventParts(r))
    ensures EventKeeps(RecvNpValue(8, SendNpValue(8, Event(kind, r)) + rest), kind, r,
                       [Serial, SendEvent, EventWindow, X, Y, Width, Height], rest)
  {
    hide IsDescribed, Keeps, Concat, EventKeeps, ExposeEventParts, IsExposeEvent, HasType, SendNpValue, RecvNpValue;
    ExposeEventDescribed(r);
    EventIsKept(kind, r, SendEventLayout(13).value,
                [Serial, SendEvent, EventWindow, X, Y, Width, Height], ExposeEventParts(r), rest);
  }

  /** A focus event (FocusIn 9, FocusOut 10) is its kind and nothing else. */
  lemma FocusEventArrives(kind: i32, r: Record, rest: Bytes)
    requires kind == 9 || kind == 10
    ensures HasType(Event(kind, r), 8) && SendNpValue(8, Event(kind, r)) == SendI32(kind)
    ensures EventKeeps(RecvNpValue(8, SendNpValue(8, Event(kind, r)) + rest), kind, r, [], rest)
  {
    hide SendI32, RecvI32;
    ArrivesIffTransmittable(8, Event(kind, r), rest);
    assert SendI32(kind) + [] == SendI32(kind);
  }

  /** No other event is sent, and none is received. */
  lemma OtherEventsAreRefused(kind: i32, r: Record, rest: Bytes)
    requires !(2 <= kind <= 10) && kind != 13
    ensures HasType(Event(kind, r), 8) && SendNpValue(8, Event(kind, r)) == []
    ensures SendError(Event(kind, r)) == Some(ArgumentInvalid)
    ensures RecvNpValue(8, SendI32(kind) + rest) == Err(Generic)
  {
    hide SendI32, RecvI32;
    I32RoundTrip(kind, rest);
  }
}
