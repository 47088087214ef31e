/** The X11 side of the skins interface: the test for the engine's reserved
    message range, and the GTK2 event dispatcher `GTK2Proc`.

    `GTK2Proc` (modules/gui/skins/x11/x11_run.cpp:87-192) sits inside a
    comment block and is not compiled: the live X11 event loop only prints the
    events it reads. It is modelled here as the routing rule that disabled
    code documents. Each dispatch is described by the steps it takes (event
    creation, shortcut test, hand-over to the engine, offers to windows,
    clean-up), in order. */
module X11Run {
  import opened Wrappers
  import opened Traces

  /** C `unsigned int`, 32 bits wide. */
  newtype uint32 = x: int | 0 <= x < 0x1_0000_0000

  const UINT32_MODULUS: int := 0x1_0000_0000

  /** The conversion of a C `long` or enumeration value to `unsigned int`:
      it keeps the value modulo 2^32. */
  function ToUnsigned(x: int): (u: uint32)
    ensures (u as int - x) % UINT32_MODULUS == 0
    ensures 0 <= x < UINT32_MODULUS ==> u as int == x
  {
    (x % UINT32_MODULUS) as uint32
  }

  /** The bounds of the engine's reserved message range, `VLC_MESSAGE` and
      `VLC_WINDOW` (defined in a header that is not part of this model). */
  datatype MessageRange = MessageRange(vlcMessage: uint32, vlcWindow: uint32)

  /** `IsVLCEvent`: whether a message number lies strictly inside the
      reserved range. */
  predicate IsVLCEvent(msg: uint32, r: MessageRange)
  {
    msg > r.vlcMessage && msg < r.vlcWindow
  }

  /** Both bounds of the range are excluded, and every number strictly
      between them is accepted. */
  lemma VLCEventBoundaries(r: MessageRange, msg: uint32)
    ensures !IsVLCEvent(r.vlcMessage, r) && !IsVLCEvent(r.vlcWindow, r)
    ensures IsVLCEvent(msg, r) <==> r.vlcMessage < msg < r.vlcWindow
  {
  }

  // GDK 2 constants.
  const GDK_KEY_PRESS: int := 8
  const GDK_CLIENT_EVENT: int := 28
  const GDK_CONTROL_MASK: bv32 := 1 << 2
  const GDK_MOD1_MASK: bv32 := 1 << 3

  /** The shortcut key code: a lower-case letter is turned into its
      upper-case form by subtracting `'a' - 'A'`; every other key code is
      kept. */
  function NormaliseKey(key: int): (k: int)
    ensures !('a' as int <= k <= 'z' as int)
    ensures 'a' as int <= key <= 'z' as int ==> 'A' as int <= k <= 'Z' as int
    ensures k == key || 'a' as int <= key <= 'z' as int
  {
    if 'a' as int <= key <= 'z' as int then key - ('a' as int - 'A' as int) else key
  }

  /** Normalising twice is normalising once. */
  lemma NormaliseKeyIdempotent(key: int)
    ensures NormaliseKey(NormaliseKey(key)) == NormaliseKey(key)
  {
  }

  /** Two key codes give the same shortcut exactly when they are equal or are
      the two cases of one letter. */
  lemma NormaliseKeyCaseInsensitive(a: int, b: int)
    ensures NormaliseKey(a) == NormaliseKey(b)
        <==> a == b
             || ('a' as int <= a <= 'z' as int && b == a - ('a' as int - 'A' as int))
             || ('a' as int <= b <= 'z' as int && a == b - ('a' as int - 'A' as int))
  {
  }

  /** The shortcut modifier of a key state: Alt gives 1 and wins over Ctrl,
      Ctrl alone gives 2, neither gives 0. */
  function KeyModifier(state: bv32): (m: int)
    ensures 0 <= m <= 2
    ensures m == 1 <==> state & GDK_MOD1_MASK != 0
    ensures m == 2 <==> state & GDK_MOD1_MASK == 0 && state & GDK_CONTROL_MASK != 0
    ensures m == 0 <==> state & (GDK_MOD1_MASK | GDK_CONTROL_MASK) == 0
  {
    if state & GDK_MOD1_MASK != 0 then 1
    else if state & GDK_CONTROL_MASK != 0 then 2
    else 0
  }

  /** A GDK window handle. */
  type Handle = nat

  /** The fields of a `GdkEvent` the dispatcher reads: its type, its window
      (null when none), the three longs of a client event, and the state and
      key value of a key event. The dispatcher reads `state` and `keyval`
      through a cast whatever the event's type, so they are present here
      for every event. */
  datatype GdkEvent = GdkEvent(kind: int, window: Option<Handle>,
                               data0: int, data1: int, data2: int,
                               state: bv32, keyval: int)

  /** The second parameter of an `OSEvent`: a long of a client event, or the
      address of the native event. */
  datatype EventParam = Long(value: int) | NativeEvent

  /** The skin event built from a GDK event. */
  datatype OSEvent = OSEvent(window: Option<Handle>, msg: uint32, param1: int, param2: EventParam)

  /** A skin window of the theme's `WindowList`: its handle, and whether its
      `ProcessEvent` reports the event as processed. */
  datatype SkinWindow = SkinWindow(handle: Handle, consumes: bool)

  /** What the dispatcher does, step by step. */
  datatype Step =
    | NewEvent(evt: OSEvent)                    // new OSEvent(...)
    | TestShortcut(key: int, modifier: int)     // EvtBank->TestShortcut
    | EventProc                                 // proc->EventProc(evt)
    | WxExit                                    // wxExit()
    | Offer(index: nat)                         // WindowList[index]->ProcessEvent(evt)
    | DestructParameters                        // evt->DestructParameters()
    | DeleteEvent                               // delete evt
    | IsClosing                                 // proc->IsClosing()
    | MainDoEvent                               // gtk_main_do_event(event)

  /** The skin event for a GDK event: a client event carries its message and
      both parameters in its data; any other event carries its type as the
      message and its own address. */
  function EventOf(ev: GdkEvent): (evt: OSEvent)
    ensures evt.window == ev.window
    ensures evt.param1 == if ev.kind == GDK_CLIENT_EVENT then ev.data1 else 0
    ensures ev.kind == GDK_CLIENT_EVENT ==> evt.msg == ToUnsigned(ev.data0) && evt.param2 == Long(ev.data2)
    ensures ev.kind != GDK_CLIENT_EVENT ==> evt.msg == ToUnsigned(ev.kind) && evt.param2 == NativeEvent
  {
    if ev.kind == GDK_CLIENT_EVENT then OSEvent(ev.window, ToUnsigned(ev.data0), ev.data1, Long(ev.data2))
    else OSEvent(ev.window, ToUnsigned(ev.kind), 0, NativeEvent)
  }

  /** The index of the first window of `windows` whose handle is `h`. */
  function FirstMatch(windows: seq<SkinWindow>, h: Handle): (r: Option<nat>)
    ensures r.Some? ==> r.value < |windows| && windows[r.value].handle == h
    ensures r.Some? ==> forall j :: 0 <= j < r.value ==> windows[j].handle != h
    ensures r.None? <==> forall j :: 0 <= j < |windows| ==> windows[j].handle != h
  {
    if windows == [] then None
    else if windows[0].handle == h then Some(0)
    else match FirstMatch(windows[1..], h)
      case None => None
      case Some(i) => Some(i + 1)
  }

  /** What ends every dispatch that neither exits nor is consumed by its
      target window. */
  const Epilogue: seq<Step> := [DestructParameters, DeleteEvent, IsClosing, MainDoEvent]

  /** The shortcut test of a key press, made only with a modifier. */
  function Shortcut(ev: GdkEvent): seq<Step>
  {
    var m := KeyModifier(ev.state);
    if m > 0 then [TestShortcut(NormaliseKey(ev.keyval), m)] else []
  }

  /** The offers of a broadcast to `n` windows, in list order. */
  function Broadcast(n: nat): (s: seq<Step>)
    ensures |s| == n
    ensures forall i :: 0 <= i < n ==> s[i] == Offer(i)
  {
    if n == 0 then [] else Broadcast(n - 1) + [Offer(n - 1)]
  }

  /** Delivery to the window with handle `h`: only the first match is
      offered the event; if it consumes it, the event is deleted and nothing
      else is done. */
  function Delivery(windows: seq<SkinWindow>, h: Handle): seq<Step>
  {
    match FirstMatch(windows, h)
    case None => Epilogue
    case Some(i) => if windows[i].consumes then [Offer(i), DeleteEvent] else [Offer(i)] + Epilogue
  }

  /** Whether the engine refuses a message of its range, which ends the
      dispatch (and the program) right away. */
  predicate Exits(ev: GdkEvent, r: MessageRange, procOk: bool)
  {
    var msg := EventOf(ev).msg;
    msg as int != GDK_KEY_PRESS && IsVLCEvent(msg, r) && !procOk
  }

  /** Whether the event goes to a target window that consumes it. */
  predicate Consumed(ev: GdkEvent, r: MessageRange, windows: seq<SkinWindow>)
  {
    var msg := EventOf(ev).msg;
    && msg as int != GDK_KEY_PRESS && !IsVLCEvent(msg, r) && ev.window.Some?
    && var m := FirstMatch(windows, ev.window.value);
       m.Some? && windows[m.value].consumes
  }

  /** The steps after the event is built. `procOk` is what the engine's
      `EventProc` returns for the event. */
  function Route(ev: GdkEvent, r: MessageRange, windows: seq<SkinWindow>, procOk: bool): seq<Step>
  {
    var msg := EventOf(ev).msg;
    if msg as int == GDK_KEY_PRESS then Shortcut(ev) + Epilogue
    else if IsVLCEvent(msg, r) then (if procOk then [EventProc] + Epilogue else [EventProc, WxExit])
    else if ev.window.None? then Broadcast(|windows|) + Epilogue
    else Delivery(windows, ev.window.value)
  }

  /** The steps of one dispatch. */
  function Dispatch(ev: GdkEvent, r: MessageRange, windows: seq<SkinWindow>, procOk: bool): seq<Step>
  {
    [NewEvent(EventOf(ev))] + Route(ev, r, windows, procOk)
  }

  /** The broadcast loop of `GTK2Proc`: every window of the list is offered
      the event, in order, whatever it answers. */
  method OfferAll(windows: seq<SkinWindow>) returns (offers: seq<Step>)
    ensures offers == Broadcast(|windows|)
  {
    offers := [];
    var i := 0;
    while i < |windows|
      invariant 0 <= i <= |windows|
      invariant offers == Broadcast(i)
    {
      offers := offers + [Offer(i)];
      i := i + 1;
    }
  }

  /** The targeted loop of `GTK2Proc`: the scan stops at the first window
      whose handle is `h`, which alone is offered the event; `consumed` is
      its answer. */
  method OfferTarget(windows: seq<SkinWindow>, h: Handle) returns (offers: seq<Step>, consumed: bool)
    ensures FirstMatch(windows, h).None? ==> offers == [] && !consumed
    ensures FirstMatch(windows, h).Some? ==>
      var i := FirstMatch(windows, h).value;
      offers == [Offer(i)] && consumed == windows[i].consumes
  {
    offers, consumed := [], false;
    var i := 0;
    while i < |windows|
      invariant 0 <= i <= |windows|
      invariant forall j :: 0 <= j < i ==> windows[j].handle != h
    {
      if windows[i].handle == h {
        assert FirstMatch(windows, h) == Some(i);
        offers := [Offer(i)];
        consumed := windows[i].consumes;
        return;
      }
      i := i + 1;
    }
  }

  /** `GTK2Proc`: dispatch one GDK event. */
  method GTK2Proc(ev: GdkEvent, r: MessageRange, windows: seq<SkinWindow>, procOk: bool)
    returns (steps: seq<Step>)
    ensures steps == Dispatch(ev, r, windows, procOk)
  {
    var msg: uint32;
    var evt: OSEvent;
    if ev.kind == GDK_CLIENT_EVENT {
      msg := ToUnsigned(ev.data0);
      evt := OSEvent(ev.window, msg, ev.data1, Long(ev.data2));
    } else {
      msg := ToUnsigned(ev.kind);
      evt := OSEvent(ev.window, msg, 0, NativeEvent);
    }
    assert evt == EventOf(ev);
    // The steps after the event is built; `cleanUp` is cleared where the
    // source returns early, skipping the common clean-up.
    var route: seq<Step> := [];
    var cleanUp := true;
    if msg as int == GDK_KEY_PRESS {
      var modifier := 0;
      if ev.state & GDK_MOD1_MASK != 0 {
        modifier := 1;
      } else if ev.state & GDK_CONTROL_MASK != 0 {
        modifier := 2;
      }
      var key := ev.keyval;
      if 'a' as int <= key <= 'z' as int {
        key := key - ('a' as int - 'A' as int);
      }
      if modifier > 0 {
        route := [TestShortcut(key, modifier)];
      }
      assert route == Shortcut(ev);
    } else if IsVLCEvent(msg, r) {
      route := [EventProc];
      if !procOk {
        route := route + [WxExit];
        cleanUp := false;
      }
    } else if ev.window.None? {
      route := OfferAll(windows);
    } else {
      var consumed;
      route, consumed := OfferTarget(windows, ev.window.value);
      if consumed {
        route := route + [DeleteEvent];
        cleanUp := false;
      }
    }
    if cleanUp {
      route := route + Epilogue;
    }
    assert route == Route(ev, r, windows, procOk);
    steps := [NewEvent(evt)] + route;
  }

  // ---------------------------------------------------------------------
  // Properties of a dispatch
  // ---------------------------------------------------------------------

  predicate IsOffer(s: Step) { s.Offer? }
  predicate IsShortcutTest(s: Step) { s.TestShortcut? }

  lemma EpilogueFilterNone(p: Step -> bool)
    requires !p(DestructParameters) && !p(DeleteEvent) && !p(IsClosing) && !p(MainDoEvent)
    ensures Filter(Epilogue, p) == []
  {
    FilterFour(DestructParameters, DeleteEvent, IsClosing, MainDoEvent, p);
    FilterOne(DestructParameters, p);
    FilterOne(DeleteEvent, p);
    FilterOne(IsClosing, p);
    FilterOne(MainDoEvent, p);
  }

  lemma EpilogueCount(x: Step)
    ensures Count(Epilogue, x) == if x in Epilogue then 1 else 0
  {
    CountFour(DestructParameters, DeleteEvent, IsClosing, MainDoEvent, x);
    CountOne(DestructParameters, x);
    CountOne(DeleteEvent, x);
    CountOne(IsClosing, x);
    CountOne(MainDoEvent, x);
  }

  /** A dispatch seen through a `p` that ignores event creation. */
  lemma DispatchView(ev: GdkEvent, r: MessageRange, windows: seq<SkinWindow>, procOk: bool, p: Step -> bool)
    requires !p(NewEvent(EventOf(ev)))
    ensures Filter(Dispatch(ev, r, windows, procOk), p) == Filter(Route(ev, r, windows, procOk), p)
  {
    FilterAppend([NewEvent(EventOf(ev))], Route(ev, r, windows, procOk), p);
    FilterOne(NewEvent(EventOf(ev)), p);
  }

  /** No window is offered anything by a broadcast seen through a `p` that
      ignores offers. */
  lemma {:induction false} BroadcastFilterNone(n: nat, p: Step -> bool)
    requires forall i: nat :: !p(Offer(i))
    ensures Filter(Broadcast(n), p) == []
  {
    if n > 0 {
      BroadcastFilterNone(n - 1, p);
      FilterAppend(Broadcast(n - 1), [Offer(n - 1)], p);
      FilterOne(Offer(n - 1), p);
    }
  }

  /** A broadcast is nothing but offers. */
  lemma {:induction false} BroadcastOffers(n: nat)
    ensures Filter(Broadcast(n), IsOffer) == Broadcast(n)
  {
    if n > 0 {
      BroadcastOffers(n - 1);
      FilterAppend(Broadcast(n - 1), [Offer(n - 1)], IsOffer);
      FilterOne(Offer(n - 1), IsOffer);
    }
  }

  lemma {:induction false} BroadcastCountNone(n: nat, x: Step)
    requires !x.Offer?
    ensures Count(Broadcast(n), x) == 0
  {
    if n > 0 {
      BroadcastCountNone(n - 1, x);
      CountAppend(Broadcast(n - 1), [Offer(n - 1)], x);
      CountOne(Offer(n - 1), x);
    }
  }

  /** The bank is asked for the shortcut of an event exactly when it is a key press with
      a modifier held, and then once, with the normalised key. */
  lemma KeyPressShortcut(ev: GdkEvent, r: MessageRange, windows: seq<SkinWindow>, procOk: bool)
    ensures var m := KeyModifier(ev.state);
      Filter(Dispatch(ev, r, windows, procOk), IsShortcutTest)
      == if EventOf(ev).msg as int == GDK_KEY_PRESS && m > 0
         then [TestShortcut(NormaliseKey(ev.keyval), m)] else []
  {
    var msg := EventOf(ev).msg;
    DispatchView(ev, r, windows, procOk, IsShortcutTest);
    EpilogueFilterNone(IsShortcutTest);
    if msg as int == GDK_KEY_PRESS {
      FilterAppend(Shortcut(ev), Epilogue, IsShortcutTest);
      if KeyModifier(ev.state) > 0 {
        FilterOne(TestShortcut(NormaliseKey(ev.keyval), KeyModifier(ev.state)), IsShortcutTest);
      }
    } else if IsVLCEvent(msg, r) {
      FilterOne(EventProc, IsShortcutTest);
      if procOk {
        FilterAppend([EventProc], Epilogue, IsShortcutTest);
      } else {
        FilterAppend([EventProc], [WxExit], IsShortcutTest);
        FilterOne(WxExit, IsShortcutTest);
      }
    } else if ev.window.None? {
      FilterAppend(Broadcast(|windows|), Epilogue, IsShortcutTest);
      BroadcastFilterNone(|windows|, IsShortcutTest);
    } else {
      DeliveryFilterNone(windows, ev.window.value, IsShortcutTest);
    }
  }

  /** A key press is never offered to a window nor handed to the engine,
      whatever its modifiers. */
  lemma KeyPressNotOffered(ev: GdkEvent, r: MessageRange, windows: seq<SkinWindow>, procOk: bool)
    requires EventOf(ev).msg as int == GDK_KEY_PRESS
    ensures Filter(Dispatch(ev, r, windows, procOk), IsOffer) == []
    ensures Count(Dispatch(ev, r, windows, procOk), EventProc) == 0
  {
    var t := TestShortcut(NormaliseKey(ev.keyval), KeyModifier(ev.state));
    DispatchView(ev, r, windows, procOk, IsOffer);
    EpilogueFilterNone(IsOffer);
    FilterAppend(Shortcut(ev), Epilogue, IsOffer);
    FilterOne(t, IsOffer);
    CountAppend([NewEvent(EventOf(ev))], Route(ev, r, windows, procOk), EventProc);
    CountAppend(Shortcut(ev), Epilogue, EventProc);
    CountOne(NewEvent(EventOf(ev)), EventProc);
    CountOne(t, EventProc);
    EpilogueCount(EventProc);
  }

  /** Delivery seen through a `p` that ignores offers and the deletion. */
  lemma DeliveryFilterNone(windows: seq<SkinWindow>, h: Handle, p: Step -> bool)
    requires forall i: nat :: !p(Offer(i))
    requires !p(DestructParameters) && !p(DeleteEvent) && !p(IsClosing) && !p(MainDoEvent)
    ensures Filter(Delivery(windows, h), p) == []
  {
    EpilogueFilterNone(p);
    match FirstMatch(windows, h) {
      case None =>
      case Some(i) =>
        if windows[i].consumes {
          FilterAppend([Offer(i)], [DeleteEvent], p);
          FilterOne(DeleteEvent, p);
        } else {
          FilterAppend([Offer(i)], Epilogue, p);
        }
        FilterOne(Offer(i), p);
    }
  }

  /** The engine is handed the event exactly when it is not a key press and
      its message lies in the reserved range; such an event is offered to no
      window, and when the engine refuses it the dispatch ends at once with
      the program's exit, without cleaning the event up. */
  lemma VLCEventRouting(ev: GdkEvent, r: MessageRange, windows: seq<SkinWindow>, procOk: bool)
    ensures var steps := Dispatch(ev, r, windows, procOk);
            var msg := EventOf(ev).msg;
            var vlc := msg as int != GDK_KEY_PRESS && IsVLCEvent(msg, r);
      && Count(steps, EventProc) == (if vlc then 1 else 0)
      && (vlc ==> Filter(steps, IsOffer) == [])
      && (vlc && !procOk ==> steps == [NewEvent(EventOf(ev)), EventProc, WxExit])
  {
    var msg := EventOf(ev).msg;
    var route := Route(ev, r, windows, procOk);
    CountAppend([NewEvent(EventOf(ev))], route, EventProc);
    CountOne(NewEvent(EventOf(ev)), EventProc);
    EpilogueCount(EventProc);
    if msg as int == GDK_KEY_PRESS {
      CountAppend(Shortcut(ev), Epilogue, EventProc);
      if KeyModifier(ev.state) > 0 {
        CountOne(TestShortcut(NormaliseKey(ev.keyval), KeyModifier(ev.state)), EventProc);
      }
    } else if IsVLCEvent(msg, r) {
      DispatchView(ev, r, windows, procOk, IsOffer);
      FilterOne(EventProc, IsOffer);
      if procOk {
        CountAppend([EventProc], Epilogue, EventProc);
        FilterAppend([EventProc], Epilogue, IsOffer);
        EpilogueFilterNone(IsOffer);
      } else {
        CountAppend([EventProc], [WxExit], EventProc);
        CountOne(WxExit, EventProc);
        FilterAppend([EventProc], [WxExit], IsOffer);
        FilterOne(WxExit, IsOffer);
      }
      CountOne(EventProc, EventProc);
    } else if ev.window.None? {
      CountAppend(Broadcast(|windows|), Epilogue, EventProc);
      BroadcastCountNone(|windows|, EventProc);
    } else {
      DeliveryCountNone(windows, ev.window.value, EventProc);
    }
  }

  /** Delivery makes no step other than an offer or a clean-up step. */
  lemma DeliveryCountNone(windows: seq<SkinWindow>, h: Handle, x: Step)
    requires !x.Offer? && x !in Epilogue
    ensures Count(Delivery(windows, h), x) == 0
  {
    EpilogueCount(x);
    match FirstMatch(windows, h) {
      case None =>
      case Some(i) =>
        if windows[i].consumes {
          CountAppend([Offer(i)], [DeleteEvent], x);
          CountOne(DeleteEvent, x);
        } else {
          CountAppend([Offer(i)], Epilogue, x);
        }
        CountOne(Offer(i), x);
    }
  }

  /** An event with no target window (and that is neither a key press nor an
      engine message) is offered to every window, in list order, whatever
      each one answers. */
  lemma BroadcastOffersAll(ev: GdkEvent, r: MessageRange, windows: seq<SkinWindow>, procOk: bool)
    requires EventOf(ev).msg as int != GDK_KEY_PRESS && !IsVLCEvent(EventOf(ev).msg, r)
    requires ev.window.None?
    ensures var offers := Filter(Dispatch(ev, r, windows, procOk), IsOffer);
      |offers| == |windows| && forall i :: 0 <= i < |windows| ==> offers[i] == Offer(i)
  {
    DispatchView(ev, r, windows, procOk, IsOffer);
    FilterAppend(Broadcast(|windows|), Epilogue, IsOffer);
    BroadcastOffers(|windows|);
    EpilogueFilterNone(IsOffer);
  }

  /** A targeted event (neither a key press nor an engine message) is offered
      only to the first window whose handle matches, or to none when no
      handle matches; the scan stops at that window whatever it answers. */
  lemma TargetedOffersFirstMatch(ev: GdkEvent, r: MessageRange, windows: seq<SkinWindow>, procOk: bool)
    requires EventOf(ev).msg as int != GDK_KEY_PRESS && !IsVLCEvent(EventOf(ev).msg, r)
    requires ev.window.Some?
    ensures var offers := Filter(Dispatch(ev, r, windows, procOk), IsOffer);
            var m := FirstMatch(windows, ev.window.value);
      && (m.None? ==> offers == [])
      && (m.Some? ==> offers == [Offer(m.value)] && windows[m.value].handle == ev.window.value)
  {
    DispatchView(ev, r, windows, procOk, IsOffer);
    EpilogueFilterNone(IsOffer);
    match FirstMatch(windows, ev.window.value) {
      case None =>
      case Some(i) =>
        if windows[i].consumes {
          FilterAppend([Offer(i)], [DeleteEvent], IsOffer);
          FilterOne(DeleteEvent, IsOffer);
        } else {
          FilterAppend([Offer(i)], Epilogue, IsOffer);
        }
        FilterOne(Offer(i), IsOffer);
    }
  }

  /** The event is built once, first. It is deleted exactly once unless the
      engine refused it and the program exits, in which case it is not
      deleted at all; its parameters are destroyed once except on that exit
      and when a target window consumed the event. */
  lemma EventLifetime(ev: GdkEvent, r: MessageRange, windows: seq<SkinWindow>, procOk: bool)
    ensures var steps := Dispatch(ev, r, windows, procOk);
      && steps[0] == NewEvent(EventOf(ev))
      && Count(steps, NewEvent(EventOf(ev))) == 1
      && Count(steps, DeleteEvent) == (if Exits(ev, r, procOk) then 0 else 1)
      && Count(steps, DestructParameters)
         == (if Exits(ev, r, procOk) || Consumed(ev, r, windows) then 0 else 1)
  {
    forall x | x == DeleteEvent || x == DestructParameters || x == NewEvent(EventOf(ev))
      ensures Count(Dispatch(ev, r, windows, procOk), x)
           == (if x == NewEvent(EventOf(ev)) then 1 else 0) + Count(Route(ev, r, windows, procOk), x)
    {
      CountAppend([NewEvent(EventOf(ev))], Route(ev, r, windows, procOk), x);
      CountOne(NewEvent(EventOf(ev)), x);
    }
    forall x | x == DeleteEvent || x == DestructParameters || x == NewEvent(EventOf(ev))
      ensures Count(Route(ev, r, windows, procOk), x)
           == if x == NewEvent(EventOf(ev)) then 0
              else if Exits(ev, r, procOk) then 0
              else if x == DestructParameters && Consumed(ev, r, windows) then 0
              else 1
    {
      RouteCount(ev, r, windows, procOk, x);
    }
  }

  /** How often the steps after the event's creation hold a clean-up step or
      the creation itself. */
  lemma RouteCount(ev: GdkEvent, r: MessageRange, windows: seq<SkinWindow>, procOk: bool, x: Step)
    requires x == DeleteEvent || x == DestructParameters || x.NewEvent?
    ensures Count(Route(ev, r, windows, procOk), x)
         == if x.NewEvent? then 0
            else if Exits(ev, r, procOk) then 0
            else if x == DestructParameters && Consumed(ev, r, windows) then 0
            else 1
  {
    var msg := EventOf(ev).msg;
    EpilogueCount(x);
    if msg as int == GDK_KEY_PRESS {
      CountAppend(Shortcut(ev), Epilogue, x);
      if KeyModifier(ev.state) > 0 {
        CountOne(TestShortcut(NormaliseKey(ev.keyval), KeyModifier(ev.state)), x);
      }
    } else if IsVLCEvent(msg, r) {
      CountOne(EventProc, x);
      if procOk {
        CountAppend([EventProc], Epilogue, x);
      } else {
        CountAppend([EventProc], [WxExit], x);
        CountOne(WxExit, x);
      }
    } else if ev.window.None? {
      CountAppend(Broadcast(|windows|), Epilogue, x);
      BroadcastCountNone(|windows|, x);
    } else {
      match FirstMatch(windows, ev.window.value) {
        case None =>
        case Some(i) =>
          CountOne(Offer(i), x);
          if windows[i].consumes {
            CountAppend([Offer(i)], [DeleteEvent], x);
            CountOne(DeleteEvent, x);
          } else {
            CountAppend([Offer(i)], Epilogue, x);
          }
      }
    }
  }
}
