/** The skins interface plugin: its per-interface record (`intf_sys_t`), the
    Open/Close callbacks that create and tear it down, the theme-loading
    fallback of Run, and the periodic refresh cycle SkinManage.

    Every call the plugin makes outward is appended to `Intf.calls`. Each
    operation is specified by a function giving the calls it appends; the
    lemmas state, about those functions, what is called, in which order and
    under which condition. The object invariant `Intf.Valid` ties the
    references acquired in the log to the objects the record holds, so no
    input or playlist reference is leaked once Close has run. */
module SkinMain {
  import opened Wrappers
  import opened Traces
  import opened Host

  /** The bundled theme tried when `skin_last` fails (the non-WIN32 path,
      built from "./share", "skins", "default" and "theme.xml"). */
  const DEFAULT_SKIN_PATH: string := "./share/skins/default/theme.xml"

  const VLC_TRUE: int := 1

  /** `i_close_status`; Open sets `VLC_NOTHING`. */
  datatype CloseStatus = Nothing | EndRequested | Failed

  // ---------------------------------------------------------------------
  // Open / Close
  // ---------------------------------------------------------------------

  /** The calls Open makes after a successful allocation: it subscribes to the
      message bank, then looks the playlist up (acquiring it when found). */
  function OpenCalls(playlist: Option<PlaylistId>): seq<Call>
  {
    [Subscribe, FindPlaylist(playlist)]
  }

  /** The calls Close makes: release the input if bound, release the playlist
      if bound, delete the theme, unsubscribe, free the record. */
  function CloseCalls(input: Option<InputId>, playlist: Option<PlaylistId>): seq<Call>
  {
    (if input.Some? then [ReleaseInput(input.value)] else [])
    + (if playlist.Some? then [ReleasePlaylist(playlist.value)] else [])
    + [DeleteTheme, Unsubscribe, FreeSys]
  }

  /** After Open, exactly the found playlist is held. */
  lemma {:induction false} OpenHoldsPlaylist(playlist: Option<PlaylistId>, o: ObjRef)
    ensures Refs(OpenCalls(playlist), o) == Held(None, playlist, o)
  {
    assert OpenCalls(playlist) == [Subscribe] + [FindPlaylist(playlist)];
    RefsAppend([Subscribe], [FindPlaylist(playlist)], o);
  }

  /** Close gives back exactly the references the record holds. */
  lemma {:induction false} CloseReleasesHeld(input: Option<InputId>, playlist: Option<PlaylistId>, o: ObjRef)
    ensures Refs(CloseCalls(input, playlist), o) == -Held(input, playlist, o)
  {
    var ri := if input.Some? then [ReleaseInput(input.value)] else [];
    var rp := if playlist.Some? then [ReleasePlaylist(playlist.value)] else [];
    var tail := [DeleteTheme, Unsubscribe, FreeSys];
    RefsAppend(ri + rp, tail, o);
    RefsAppend(ri, rp, o);
    RefsNeutral(tail, o);
  }

  /** Close releases the input only when one is bound and the playlist only
      when one is bound, the input first; both releases come before the theme
      is deleted, which comes before unsubscribing and freeing the record. */
  lemma {:induction false} CloseOrder(input: Option<InputId>, playlist: Option<PlaylistId>, x: InputId, y: PlaylistId)
    ensures var c := CloseCalls(input, playlist);
      && |c| >= 3 && c[|c| - 3..] == [DeleteTheme, Unsubscribe, FreeSys]
      && Count(c, ReleaseInput(x)) == (if input == Some(x) then 1 else 0)
      && Count(c, ReleasePlaylist(y)) == (if playlist == Some(y) then 1 else 0)
      && (forall k :: 0 <= k < |c| && (c[k].ReleaseInput? || c[k].ReleasePlaylist?) ==> k < |c| - 3)
      && (input.Some? ==> c[0] == ReleaseInput(input.value))
      && (playlist.Some? ==> c[|c| - 4] == ReleasePlaylist(playlist.value))
  {
    CloseShape(input, playlist);
    CloseCount(input, playlist, ReleaseInput(x));
    CloseCount(input, playlist, ReleasePlaylist(y));
  }

  /** Where each call of Close sits in its log. */
  lemma CloseShape(input: Option<InputId>, playlist: Option<PlaylistId>)
    ensures var c := CloseCalls(input, playlist);
      && |c| >= 3 && c[|c| - 3..] == [DeleteTheme, Unsubscribe, FreeSys]
      && (forall k :: 0 <= k < |c| && (c[k].ReleaseInput? || c[k].ReleasePlaylist?) ==> k < |c| - 3)
      && (input.Some? ==> c[0] == ReleaseInput(input.value))
      && (playlist.Some? ==> c[|c| - 4] == ReleasePlaylist(playlist.value))
  {
  }

  /** How often Close makes a release: once for what is bound, never for
      anything else. */
  lemma CloseCount(input: Option<InputId>, playlist: Option<PlaylistId>, r: Call)
    requires r.ReleaseInput? || r.ReleasePlaylist?
    ensures Count(CloseCalls(input, playlist), r)
         == (if input.Some? && r == ReleaseInput(input.value) then 1 else 0)
            + (if playlist.Some? && r == ReleasePlaylist(playlist.value) then 1 else 0)
  {
    var ri := if input.Some? then [ReleaseInput(input.value)] else [];
    var rp := if playlist.Some? then [ReleasePlaylist(playlist.value)] else [];
    var tail := [DeleteTheme, Unsubscribe, FreeSys];
    CountAppend(ri + rp, tail, r);
    CountAppend(ri, rp, r);
    CountPositive(tail, r);
    if input.Some? { CountOne(ReleaseInput(input.value), r); }
    if playlist.Some? { CountOne(ReleasePlaylist(playlist.value), r); }
  }

  // ---------------------------------------------------------------------
  // Run: theme loading with fallback
  // ---------------------------------------------------------------------

  /** The paths Run may load from, in the order tried. */
  function Candidates(skinLast: Option<string>): seq<string>
  {
    (if skinLast.Some? then [skinLast.value] else []) + [DEFAULT_SKIN_PATH]
  }

  /** The first of `paths` the loader accepts, if any. */
  function FirstLoadable(paths: seq<string>, load: string -> bool): (r: Option<string>)
    ensures r.Some? ==> r.value in paths && load(r.value)
    ensures r.None? <==> forall p :: p in paths ==> !load(p)
    ensures r.Some? ==> exists i :: 0 <= i < |paths| && paths[i] == r.value
                                   && forall j :: 0 <= j < i ==> !load(paths[j])
    ensures paths != [] && load(paths[0]) ==> r == Some(paths[0])
  {
    if paths == [] then None
    else if load(paths[0]) then Some(paths[0])
    else FirstLoadable(paths[1..], load)
  }

  /** What Run does once a theme is loaded: initialise and show it, delete
      the loader, post one full refresh, enter the event loop. */
  const StartupCalls: seq<Call> :=
    [InitTheme, ShowTheme, DeleteLoader, Post(IntfRefresh(true)), OSRun]

  /** The calls Run makes, given the persisted `skin_last` value and the
      loader's answer for each path. */
  function RunCalls(skinLast: Option<string>, load: string -> bool): seq<Call>
  {
    [NewLoader]
    + (if skinLast.Some? then [Load(skinLast.value)] else [])
    + (if skinLast.Some? && load(skinLast.value) then StartupCalls
       else [Load(DEFAULT_SKIN_PATH)]
            + (if load(DEFAULT_SKIN_PATH) then StartupCalls else [DeleteLoader]))
  }

  predicate IsLoad(c: Call) { c.Load? }

  /** The startup sequence holds none of the calls `p` picks out when `p`
      picks none of its five. */
  lemma StartupFilterNone(p: Call -> bool)
    requires !p(InitTheme) && !p(ShowTheme) && !p(DeleteLoader) && !p(Post(IntfRefresh(true))) && !p(OSRun)
    ensures Filter(StartupCalls, p) == []
  {
    FilterFive(InitTheme, ShowTheme, DeleteLoader, Post(IntfRefresh(true)), OSRun, p);
    FilterOne(InitTheme, p);
    FilterOne(ShowTheme, p);
    FilterOne(DeleteLoader, p);
    FilterOne(Post(IntfRefresh(true)), p);
    FilterOne(OSRun, p);
  }

  /** `skin_last` is tried first when set; the default theme is tried only
      when `skin_last` is unset or fails to load. */
  lemma {:induction false} RunLoadAttempts(skinLast: Option<string>, load: string -> bool)
    ensures Filter(RunCalls(skinLast, load), IsLoad)
         == (if skinLast.Some? then [Load(skinLast.value)] else [])
            + (if skinLast.None? || !load(skinLast.value) then [Load(DEFAULT_SKIN_PATH)] else [])
  {
    var first := if skinLast.Some? then [Load(skinLast.value)] else [];
    var tail := if load(DEFAULT_SKIN_PATH) then StartupCalls else [DeleteLoader];
    var rest := if skinLast.Some? && load(skinLast.value) then StartupCalls
                else [Load(DEFAULT_SKIN_PATH)] + tail;
    FilterAppend([NewLoader] + first, rest, IsLoad);
    FilterAppend([NewLoader], first, IsLoad);
    FilterOne(NewLoader, IsLoad);
    if skinLast.Some? {
      FilterOne(Load(skinLast.value), IsLoad);
    }
    StartupFilterNone(IsLoad);
    if !(skinLast.Some? && load(skinLast.value)) {
      FilterAppend([Load(DEFAULT_SKIN_PATH)], tail, IsLoad);
      FilterOne(Load(DEFAULT_SKIN_PATH), IsLoad);
      FilterOne(DeleteLoader, IsLoad);
    }
  }

  /** Each call of the startup sequence occurs in it once. */
  lemma CountStartup(x: Call)
    ensures Count(StartupCalls, x) == if x in StartupCalls then 1 else 0
  {
    CountFive(InitTheme, ShowTheme, DeleteLoader, Post(IntfRefresh(true)), OSRun, x);
    CountOne(InitTheme, x);
    CountOne(ShowTheme, x);
    CountOne(DeleteLoader, x);
    CountOne(Post(IntfRefresh(true)), x);
    CountOne(OSRun, x);
  }

  /** Run's fallback picks `skin_last` when it is set and loads, and the
      default theme otherwise, provided that one loads. */
  lemma {:induction false} RunPicks(skinLast: Option<string>, load: string -> bool)
    ensures FirstLoadable(Candidates(skinLast), load)
         == if skinLast.Some? && load(skinLast.value) then skinLast
            else if load(DEFAULT_SKIN_PATH) then Some(DEFAULT_SKIN_PATH)
            else None
  {
    var cands := Candidates(skinLast);
    if skinLast.Some? {
      assert cands == [skinLast.value, DEFAULT_SKIN_PATH];
      assert cands[1..] == [DEFAULT_SKIN_PATH];
      assert cands[1..][1..] == [];
    } else {
      assert cands == [DEFAULT_SKIN_PATH];
      assert cands[1..] == [];
    }
  }

  /** How often Run makes a call other than a loader creation or a load:
      as often as the startup sequence when a theme loads, as often as the
      lone loader deletion otherwise. */
  lemma {:induction false} RunCount(skinLast: Option<string>, load: string -> bool, y: Call)
    requires !y.NewLoader? && !y.Load?
    ensures Count(RunCalls(skinLast, load), y)
         == if (skinLast.Some? && load(skinLast.value)) || load(DEFAULT_SKIN_PATH)
            then Count(StartupCalls, y) else Count([DeleteLoader], y)
  {
    var first := if skinLast.Some? then [Load(skinLast.value)] else [];
    var tail := if load(DEFAULT_SKIN_PATH) then StartupCalls else [DeleteLoader];
    var rest := if skinLast.Some? && load(skinLast.value) then StartupCalls
                else [Load(DEFAULT_SKIN_PATH)] + tail;
    CountAppend([NewLoader] + first, rest, y);
    CountAppend([NewLoader], first, y);
    CountOne(NewLoader, y);
    if skinLast.Some? {
      CountOne(Load(skinLast.value), y);
    }
    if !(skinLast.Some? && load(skinLast.value)) {
      CountAppend([Load(DEFAULT_SKIN_PATH)], tail, y);
      CountOne(Load(DEFAULT_SKIN_PATH), y);
    }
  }

  /** The theme is initialised and shown, one full refresh is posted and the
      event loop entered exactly when one of the candidate paths loads; the
      loader is deleted once on either path. */
  lemma {:induction false} RunStartsIffLoaded(skinLast: Option<string>, load: string -> bool, x: Call)
    requires x in StartupCalls && x != DeleteLoader
    ensures var c := RunCalls(skinLast, load);
      && Count(c, x) == (if FirstLoadable(Candidates(skinLast), load).Some? then 1 else 0)
      && Count(c, DeleteLoader) == 1
  {
    RunPicks(skinLast, load);
    CountStartup(x);
    CountStartup(DeleteLoader);
    RunCount(skinLast, load, x);
    RunCount(skinLast, load, DeleteLoader);
    CountOne(DeleteLoader, x);
    CountOne(DeleteLoader, DeleteLoader);
  }

  /** Run starts by creating the loader; when a theme loads, the startup
      sequence closes the log in its order, and otherwise Run ends right after
      deleting the loader. */
  lemma {:induction false} RunShape(skinLast: Option<string>, load: string -> bool)
    ensures var c := RunCalls(skinLast, load);
      && c[0] == NewLoader
      && (FirstLoadable(Candidates(skinLast), load).Some? ==> |c| >= 5 && c[|c| - 5..] == StartupCalls)
      && (FirstLoadable(Candidates(skinLast), load).None? ==> c[|c| - 1] == DeleteLoader)
  {
    RunPicks(skinLast, load);
  }

  /** Run neither acquires nor releases any engine object. */
  lemma {:induction false} RunHoldsNothing(skinLast: Option<string>, load: string -> bool, o: ObjRef)
    ensures Refs(RunCalls(skinLast, load), o) == 0
  {
    RefsNeutral(RunCalls(skinLast, load), o);
  }

  // ---------------------------------------------------------------------
  // SkinManage: the refresh cycle
  // ---------------------------------------------------------------------

  /** The input bound after the rebinding step: look one up when none is
      bound, drop a dead one, keep a live one. */
  function Rebind(bound: Option<InputId>, h: HostView): Option<InputId>
  {
    match bound
    case None => h.found
    case Some(id) => if h.status(id).dead then None else bound
  }

  /** The calls of the rebinding step. */
  function BindCalls(bound: Option<InputId>, h: HostView): seq<Call>
  {
    match bound
    case None => [FindInput(h.found)]
    case Some(id) => if h.status(id).dead then [ReleaseInput(id)] else []
  }

  /** Whether the cycle refreshes the controls: an input is bound and its
      `b_die` flag is clear. */
  predicate Refreshing(cur: Option<InputId>, h: HostView)
  {
    cur.Some? && !h.status(cur.value).die
  }

  /** The engine reports a nonzero size for a seekable input the cycle reads
      (the source divides by it). */
  predicate SizeKnown(cur: Option<InputId>, h: HostView)
  {
    Refreshing(cur, h) && h.status(cur.value).seekable ==> h.status(cur.value).size != 0
  }

  /** The posts of a seekable stream: the "time" slider, then the remaining,
      elapsed and total time texts. */
  function TimeCalls(s: InputStatus, h: HostView, bank: string -> ControlId): seq<Call>
    requires s.size != 0
  {
    [ Post(SetSlider(bank("time"), PositionSlider(s.tell, s.size))),
      PostText(bank("left_time"), "-" + h.offsetToTime(s.size - s.tell)),
      PostText(bank("time"), h.offsetToTime(s.tell)),
      PostText(bank("total_time"), h.offsetToTime(s.size)) ]
  }

  /** The calls made under the stream lock of a bound, live input. */
  function RefreshCalls(cur: Option<InputId>, h: HostView, bank: string -> ControlId): seq<Call>
    requires SizeKnown(cur, h)
  {
    if !Refreshing(cur, h) then []
    else
      var id := cur.value;
      var s := h.status(id);
      [LockStream(id), GetVolume, Post(SetSlider(bank("volume_refresh"), VolumeSlider(h.volume)))]
      + (if s.seekable then TimeCalls(s, h, bank) else [])
      + [UnlockStream(id)]
  }

  /** The calls of one refresh cycle, starting with `bound` as the input. */
  function ManageCalls(bound: Option<InputId>, h: HostView, bank: string -> ControlId): seq<Call>
    requires SizeKnown(Rebind(bound, h), h)
  {
    [LockChange] + BindCalls(bound, h) + [Post(IntfRefresh(false))]
    + RefreshCalls(Rebind(bound, h), h, bank) + [UnlockChange]
  }

  predicate IsBindingCall(c: Call) { c.FindInput? || c.ReleaseInput? }
  predicate IsSliderPost(c: Call) { c.Post? && c.msg.SetSlider? }
  predicate IsTextPost(c: Call) { c.PostText? }
  predicate IsDisplayPost(c: Call) { IsSliderPost(c) || IsTextPost(c) }

  /** The rebinding step makes no call other than a lookup or a release. */
  lemma BindCountNone(bound: Option<InputId>, h: HostView, x: Call)
    requires !IsBindingCall(x)
    ensures Count(BindCalls(bound, h), x) == 0
  {
    match bound {
      case None => CountOne(FindInput(h.found), x);
      case Some(id) => CountOne(ReleaseInput(id), x);
    }
  }

  lemma BindFilterNone(bound: Option<InputId>, h: HostView, p: Call -> bool)
    requires !p(FindInput(h.found)) && (bound.Some? ==> !p(ReleaseInput(bound.value)))
    ensures Filter(BindCalls(bound, h), p) == []
  {
    match bound {
      case None => FilterOne(FindInput(h.found), p);
      case Some(id) => FilterOne(ReleaseInput(id), p);
    }
  }

  /** The time posts hold only slider and text posts. */
  lemma TimeCountNone(s: InputStatus, h: HostView, bank: string -> ControlId, x: Call)
    requires s.size != 0 && !IsSliderPost(x) && !IsTextPost(x)
    ensures Count(TimeCalls(s, h, bank), x) == 0
  {
    var a := Post(SetSlider(bank("time"), PositionSlider(s.tell, s.size)));
    var b := PostText(bank("left_time"), "-" + h.offsetToTime(s.size - s.tell));
    var c := PostText(bank("time"), h.offsetToTime(s.tell));
    var d := PostText(bank("total_time"), h.offsetToTime(s.size));
    CountFour(a, b, c, d, x);
    CountOne(a, x);
    CountOne(b, x);
    CountOne(c, x);
    CountOne(d, x);
  }

  /** Of the time posts, the first sets a slider and the other three are
      texts; none is a binding call. */
  lemma TimeFilter(s: InputStatus, h: HostView, bank: string -> ControlId)
    requires s.size != 0
    ensures var t := TimeCalls(s, h, bank);
      && Filter(t, IsSliderPost) == [t[0]]
      && Filter(t, IsTextPost) == t[1..]
      && Filter(t, IsBindingCall) == []
      && Filter(t, IsDisplayPost) == t
  {
    var a := Post(SetSlider(bank("time"), PositionSlider(s.tell, s.size)));
    var b := PostText(bank("left_time"), "-" + h.offsetToTime(s.size - s.tell));
    var c := PostText(bank("time"), h.offsetToTime(s.tell));
    var d := PostText(bank("total_time"), h.offsetToTime(s.size));
    TimeFilterOf(a, b, c, d);
    TimeDisplayOf(a, b, c, d);
  }

  lemma TimeFilterOf(a: Call, b: Call, c: Call, d: Call)
    requires IsSliderPost(a) && !IsTextPost(a) && !IsBindingCall(a)
    requires b.PostText? && c.PostText? && d.PostText?
    ensures Filter([a, b, c, d], IsSliderPost) == [a]
    ensures Filter([a, b, c, d], IsTextPost) == [b, c, d]
    ensures Filter([a, b, c, d], IsBindingCall) == []
  {
    FilterFour(a, b, c, d, IsSliderPost);
    FilterFour(a, b, c, d, IsTextPost);
    FilterFour(a, b, c, d, IsBindingCall);
    FilterOne(a, IsSliderPost);
    FilterOne(b, IsSliderPost);
    FilterOne(c, IsSliderPost);
    FilterOne(d, IsSliderPost);
    FilterOne(a, IsTextPost);
    FilterOne(b, IsTextPost);
    FilterOne(c, IsTextPost);
    FilterOne(d, IsTextPost);
    FilterOne(a, IsBindingCall);
    FilterOne(b, IsBindingCall);
    FilterOne(c, IsBindingCall);
    FilterOne(d, IsBindingCall);
  }

  lemma TimeDisplayOf(a: Call, b: Call, c: Call, d: Call)
    requires IsDisplayPost(a) && IsDisplayPost(b) && IsDisplayPost(c) && IsDisplayPost(d)
    ensures Filter([a, b, c, d], IsDisplayPost) == [a, b, c, d]
  {
    FilterFour(a, b, c, d, IsDisplayPost);
    FilterOne(a, IsDisplayPost);
    FilterOne(b, IsDisplayPost);
    FilterOne(c, IsDisplayPost);
    FilterOne(d, IsDisplayPost);
  }

  /** The entries of a cycle's log that satisfy a `p` which ignores the
      interface lock and the partial-refresh post come from the rebinding
      step and the refresh under the stream lock, in that order. */
  lemma {:induction false} ManageView(bound: Option<InputId>, h: HostView, bank: string -> ControlId, p: Call -> bool)
    requires SizeKnown(Rebind(bound, h), h)
    requires !p(LockChange) && !p(UnlockChange) && !p(Post(IntfRefresh(false)))
    ensures Filter(ManageCalls(bound, h, bank), p)
         == Filter(BindCalls(bound, h), p) + Filter(RefreshCalls(Rebind(bound, h), h, bank), p)
  {
    var b := BindCalls(bound, h);
    var r := RefreshCalls(Rebind(bound, h), h, bank);
    FilterAppend([LockChange] + b + [Post(IntfRefresh(false))] + r, [UnlockChange], p);
    FilterAppend([LockChange] + b + [Post(IntfRefresh(false))], r, p);
    FilterAppend([LockChange] + b, [Post(IntfRefresh(false))], p);
    FilterAppend([LockChange], b, p);
    FilterOne(LockChange, p);
    FilterOne(UnlockChange, p);
    FilterOne(Post(IntfRefresh(false)), p);
  }

  /** How often a cycle's log holds a call other than the interface lock and
      the partial-refresh post: as often as its refresh under the stream lock
      does, plus its rebinding step. */
  lemma {:induction false} ManageCount(bound: Option<InputId>, h: HostView, bank: string -> ControlId, x: Call)
    requires SizeKnown(Rebind(bound, h), h)
    ensures Count(ManageCalls(bound, h, bank), x)
         == Count([LockChange], x) + Count(BindCalls(bound, h), x) + Count([Post(IntfRefresh(false))], x)
            + Count(RefreshCalls(Rebind(bound, h), h, bank), x) + Count([UnlockChange], x)
  {
    var b := BindCalls(bound, h);
    var r := RefreshCalls(Rebind(bound, h), h, bank);
    CountAppend([LockChange] + b + [Post(IntfRefresh(false))] + r, [UnlockChange], x);
    CountAppend([LockChange] + b + [Post(IntfRefresh(false))], r, x);
    CountAppend([LockChange] + b, [Post(IntfRefresh(false))], x);
    CountAppend([LockChange], b, x);
  }

  /** The refresh under the stream lock, seen through a `p` that ignores the
      lock calls and the volume read: the volume slider, then, for a seekable
      stream, the time posts. */
  lemma {:induction false} RefreshView(cur: Option<InputId>, h: HostView, bank: string -> ControlId, p: Call -> bool)
    requires SizeKnown(cur, h)
    requires cur.Some? ==> !p(LockStream(cur.value)) && !p(UnlockStream(cur.value))
    requires !p(GetVolume)
    ensures Filter(RefreshCalls(cur, h, bank), p)
         == if !Refreshing(cur, h) then []
            else Filter([Post(SetSlider(bank("volume_refresh"), VolumeSlider(h.volume)))], p)
                 + (if h.status(cur.value).seekable then Filter(TimeCalls(h.status(cur.value), h, bank), p) else [])
  {
    if Refreshing(cur, h) {
      var id := cur.value;
      var s := h.status(id);
      var vol := Post(SetSlider(bank("volume_refresh"), VolumeSlider(h.volume)));
      var mid := if s.seekable then TimeCalls(s, h, bank) else [];
      FilterAppend([LockStream(id), GetVolume, vol] + mid, [UnlockStream(id)], p);
      FilterAppend([LockStream(id), GetVolume, vol], mid, p);
      FilterThree(LockStream(id), GetVolume, vol, p);
      FilterOne(LockStream(id), p);
      FilterOne(GetVolume, p);
      FilterOne(UnlockStream(id), p);
    }
  }

  /** How often the refresh under the stream lock holds `x`: nothing unless
      the cycle refreshes, and then block by block. */
  lemma {:induction false} RefreshCount(cur: Option<InputId>, h: HostView, bank: string -> ControlId, x: Call)
    requires SizeKnown(cur, h)
    ensures Refreshing(cur, h) ==>
      Count(RefreshCalls(cur, h, bank), x)
      == Count([LockStream(cur.value)], x) + Count([GetVolume], x)
         + Count([Post(SetSlider(bank("volume_refresh"), VolumeSlider(h.volume)))], x)
         + (if h.status(cur.value).seekable then Count(TimeCalls(h.status(cur.value), h, bank), x) else 0)
         + Count([UnlockStream(cur.value)], x)
    ensures !Refreshing(cur, h) ==> Count(RefreshCalls(cur, h, bank), x) == 0
  {
    if Refreshing(cur, h) {
      var id := cur.value;
      var s := h.status(id);
      var vol := Post(SetSlider(bank("volume_refresh"), VolumeSlider(h.volume)));
      var mid := if s.seekable then TimeCalls(s, h, bank) else [];
      CountAppend([LockStream(id), GetVolume, vol] + mid, [UnlockStream(id)], x);
      CountAppend([LockStream(id), GetVolume, vol], mid, x);
      CountThree(LockStream(id), GetVolume, vol, x);
    }
  }

  /** The rebinding step of a refresh cycle: an unbound record binds what the
      engine finds (possibly nothing), a dead input is released and the
      binding cleared, a live one is kept. Each cycle makes at most one
      lookup or one release, and no other binding call. */
  lemma {:induction false} ManageRebinding(bound: Option<InputId>, h: HostView, bank: string -> ControlId)
    requires SizeKnown(Rebind(bound, h), h)
    ensures var b := Filter(ManageCalls(bound, h, bank), IsBindingCall);
      && (bound.None? ==> Rebind(bound, h) == h.found && b == [FindInput(h.found)])
      && (bound.Some? && h.status(bound.value).dead ==> Rebind(bound, h).None? && b == [ReleaseInput(bound.value)])
      && (bound.Some? && !h.status(bound.value).dead ==> Rebind(bound, h) == bound && b == [])
      && |b| <= 1
  {
    var cur := Rebind(bound, h);
    ManageView(bound, h, bank, IsBindingCall);
    RefreshView(cur, h, bank, IsBindingCall);
    FilterOne(Post(SetSlider(bank("volume_refresh"), VolumeSlider(h.volume))), IsBindingCall);
    if Refreshing(cur, h) && h.status(cur.value).seekable {
      TimeFilter(h.status(cur.value), h, bank);
    }
    match bound {
      case None => FilterOne(FindInput(h.found), IsBindingCall);
      case Some(id) => FilterOne(ReleaseInput(id), IsBindingCall);
    }
  }

  /** The references a refresh cycle acquires and releases are exactly the
      change of binding it makes. */
  lemma {:induction false} ManageRefs(bound: Option<InputId>, h: HostView, bank: string -> ControlId, o: ObjRef)
    requires SizeKnown(Rebind(bound, h), h)
    ensures Refs(ManageCalls(bound, h, bank), o)
         == Held(Rebind(bound, h), None, o) - Held(bound, None, o)
  {
    var b := BindCalls(bound, h);
    var r := RefreshCalls(Rebind(bound, h), h, bank);
    RefsAppend([LockChange] + b + [Post(IntfRefresh(false))] + r, [UnlockChange], o);
    RefsAppend([LockChange] + b + [Post(IntfRefresh(false))], r, o);
    RefsAppend([LockChange] + b, [Post(IntfRefresh(false))], o);
    RefsAppend([LockChange], b, o);
    BindRefs(bound, h, o);
    RefreshHoldsNothing(Rebind(bound, h), h, bank, o);
  }

  /** The rebinding step alone changes the count by the change in binding. */
  lemma BindRefs(bound: Option<InputId>, h: HostView, o: ObjRef)
    ensures Refs(BindCalls(bound, h), o) == Held(Rebind(bound, h), None, o) - Held(bound, None, o)
  {
    var b := BindCalls(bound, h);
    match bound {
      case None => assert b == [FindInput(h.found)] && b[1..] == [];
      case Some(id) => assert b != [] ==> b == [ReleaseInput(id)] && b[1..] == [];
    }
  }

  /** The refresh under the stream lock takes and releases no reference. */
  lemma RefreshHoldsNothing(cur: Option<InputId>, h: HostView, bank: string -> ControlId, o: ObjRef)
    requires SizeKnown(cur, h)
    ensures Refs(RefreshCalls(cur, h, bank), o) == 0
  {
    RefsNeutral(RefreshCalls(cur, h, bank), o);
  }

  /** The calls a cycle makes that are not part of its binding step nor of its
      posts: the two locks, and the volume read. */
  predicate IsLockOrRead(x: Call) { x.LockChange? || x.UnlockChange? || x.LockStream? || x.UnlockStream? || x.GetVolume? }

  /** How often a cycle makes a lock call or reads the volume: once for the
      interface lock and its release, and once for each of the calls of a
      refresh when there is one. */
  lemma {:induction false} ManageLockCount(bound: Option<InputId>, h: HostView, bank: string -> ControlId, x: Call)
    requires SizeKnown(Rebind(bound, h), h)
    requires IsLockOrRead(x)
    ensures var cur := Rebind(bound, h);
      Count(ManageCalls(bound, h, bank), x)
      == Count([LockChange], x) + Count([UnlockChange], x)
         + (if Refreshing(cur, h)
            then Count([LockStream(cur.value)], x) + Count([GetVolume], x) + Count([UnlockStream(cur.value)], x)
            else 0)
  {
    var cur := Rebind(bound, h);
    ManageCount(bound, h, bank, x);
    BindCountNone(bound, h, x);
    CountOne(Post(IntfRefresh(false)), x);
    RefreshCount(cur, h, bank, x);
    if Refreshing(cur, h) {
      CountOne(Post(SetSlider(bank("volume_refresh"), VolumeSlider(h.volume))), x);
      if h.status(cur.value).seekable {
        TimeCountNone(h.status(cur.value), h, bank, x);
      }
    }
  }

  /** A refresh cycle takes the interface lock first and releases it last,
      once each, takes the stream lock of an input exactly when it refreshes
      from that input, releasing it as often as it took it, and reads the
      volume exactly when it refreshes. */
  lemma {:induction false} ManageLocking(bound: Option<InputId>, h: HostView, bank: string -> ControlId, id: InputId)
    requires SizeKnown(Rebind(bound, h), h)
    ensures var c := ManageCalls(bound, h, bank);
            var cur := Rebind(bound, h);
      && c[0] == LockChange && c[|c| - 1] == UnlockChange
      && Count(c, LockChange) == 1 && Count(c, UnlockChange) == 1
      && Count(c, LockStream(id)) == Count(c, UnlockStream(id))
      && Count(c, LockStream(id)) == (if Refreshing(cur, h) && cur == Some(id) then 1 else 0)
      && Count(c, GetVolume) == (if Refreshing(cur, h) then 1 else 0)
  {
    var cur := Rebind(bound, h);
    var xs := [LockChange, UnlockChange, LockStream(id), UnlockStream(id), GetVolume];
    forall x | x in xs
      ensures Count(ManageCalls(bound, h, bank), x)
           == (if x == LockChange || x == UnlockChange then 1 else 0)
              + (if Refreshing(cur, h) && (x == LockStream(cur.value) || x == GetVolume || x == UnlockStream(cur.value)) then 1 else 0)
    {
      ManageLockCount(bound, h, bank, x);
      CountOne(LockChange, x);
      CountOne(UnlockChange, x);
      if Refreshing(cur, h) {
        CountOne(LockStream(cur.value), x);
        CountOne(GetVolume, x);
        CountOne(UnlockStream(cur.value), x);
      }
    }
  }

  /** Every cycle posts exactly one partial refresh (`VLC_INTF_REFRESH` with
      `false`) and no full one. */
  lemma {:induction false} ManageRefreshPosted(bound: Option<InputId>, h: HostView, bank: string -> ControlId, full: bool)
    requires SizeKnown(Rebind(bound, h), h)
    ensures Count(ManageCalls(bound, h, bank), Post(IntfRefresh(full))) == if full then 0 else 1
  {
    var cur := Rebind(bound, h);
    var x := Post(IntfRefresh(full));
    ManageCount(bound, h, bank, x);
    CountOne(LockChange, x);
    CountOne(UnlockChange, x);
    CountOne(Post(IntfRefresh(false)), x);
    BindCountNone(bound, h, x);
    RefreshCount(cur, h, bank, x);
    if Refreshing(cur, h) {
      CountOne(LockStream(cur.value), x);
      CountOne(GetVolume, x);
      CountOne(Post(SetSlider(bank("volume_refresh"), VolumeSlider(h.volume))), x);
      CountOne(UnlockStream(cur.value), x);
      if h.status(cur.value).seekable {
        TimeCountNone(h.status(cur.value), h, bank, x);
      }
    }
  }

  /** The sliders a cycle sets: none unless an input is bound and not dying;
      then the volume, and the position only if the stream is seekable, in
      that order. */
  lemma {:induction false} ManageSliders(bound: Option<InputId>, h: HostView, bank: string -> ControlId)
    requires SizeKnown(Rebind(bound, h), h)
    ensures var cur := Rebind(bound, h);
      Filter(ManageCalls(bound, h, bank), IsSliderPost)
      == if !Refreshing(cur, h) then []
         else [Post(SetSlider(bank("volume_refresh"), VolumeSlider(h.volume)))]
              + (if h.status(cur.value).seekable
                 then [Post(SetSlider(bank("time"), PositionSlider(h.status(cur.value).tell, h.status(cur.value).size)))]
                 else [])
  {
    var cur := Rebind(bound, h);
    ManageView(bound, h, bank, IsSliderPost);
    BindFilterNone(bound, h, IsSliderPost);
    RefreshView(cur, h, bank, IsSliderPost);
    FilterOne(Post(SetSlider(bank("volume_refresh"), VolumeSlider(h.volume))), IsSliderPost);
    if Refreshing(cur, h) && h.status(cur.value).seekable {
      TimeFilter(h.status(cur.value), h, bank);
    }
  }

  /** The time texts are posted only when an input is bound, not dying and
      seekable, and then as the remaining time (prefixed with '-'), the
      elapsed time and the total time, in that order. */
  lemma {:induction false} ManageTexts(bound: Option<InputId>, h: HostView, bank: string -> ControlId)
    requires SizeKnown(Rebind(bound, h), h)
    ensures var cur := Rebind(bound, h);
      Filter(ManageCalls(bound, h, bank), IsTextPost)
      == if Refreshing(cur, h) && h.status(cur.value).seekable
         then var s := h.status(cur.value);
              [ PostText(bank("left_time"), "-" + h.offsetToTime(s.size - s.tell)),
                PostText(bank("time"), h.offsetToTime(s.tell)),
                PostText(bank("total_time"), h.offsetToTime(s.size)) ]
         else []
  {
    var cur := Rebind(bound, h);
    ManageView(bound, h, bank, IsTextPost);
    BindFilterNone(bound, h, IsTextPost);
    RefreshView(cur, h, bank, IsTextPost);
    FilterOne(Post(SetSlider(bank("volume_refresh"), VolumeSlider(h.volume))), IsTextPost);
    if Refreshing(cur, h) && h.status(cur.value).seekable {
      TimeFilter(h.status(cur.value), h, bank);
    }
  }

  /** Everything a cycle shows, sliders and texts together: nothing unless
      an input is bound and not dying; then the volume slider, followed, for
      a seekable stream, by the "time" slider and the remaining, elapsed and
      total time texts, in that order. */
  lemma {:induction false} ManageDisplayOrder(bound: Option<InputId>, h: HostView, bank: string -> ControlId)
    requires SizeKnown(Rebind(bound, h), h)
    ensures var cur := Rebind(bound, h);
      Filter(ManageCalls(bound, h, bank), IsDisplayPost)
      == if !Refreshing(cur, h) then []
         else [Post(SetSlider(bank("volume_refresh"), VolumeSlider(h.volume)))]
              + (if h.status(cur.value).seekable then TimeCalls(h.status(cur.value), h, bank) else [])
  {
    ManageView(bound, h, bank, IsDisplayPost);
    BindFilterNone(bound, h, IsDisplayPost);
    RefreshDisplay(Rebind(bound, h), h, bank);
  }

  /** What the refresh under the stream lock shows, in order. */
  lemma RefreshDisplay(cur: Option<InputId>, h: HostView, bank: string -> ControlId)
    requires SizeKnown(cur, h)
    ensures Filter(RefreshCalls(cur, h, bank), IsDisplayPost)
         == if !Refreshing(cur, h) then []
            else [Post(SetSlider(bank("volume_refresh"), VolumeSlider(h.volume)))]
                 + (if h.status(cur.value).seekable then TimeCalls(h.status(cur.value), h, bank) else [])
  {
    RefreshView(cur, h, bank, IsDisplayPost);
    FilterOne(Post(SetSlider(bank("volume_refresh"), VolumeSlider(h.volume))), IsDisplayPost);
    if Refreshing(cur, h) && h.status(cur.value).seekable {
      TimeFilter(h.status(cur.value), h, bank);
    }
  }

  // ---------------------------------------------------------------------
  // The interface objects
  // ---------------------------------------------------------------------

  /** The installed theme (`OSTheme`). Its windows and event bank are built by
      the theme loader, which is not part of this model; the model keeps its
      identity. */
  class Theme {
    constructor ()
    {
    }
  }

  /** `intf_sys_t`: the plugin's per-interface record. */
  class IntfSys {
    var subscribed: bool                 // p_sub
    var newThemeFile: Option<string>     // p_new_theme_file
    var index: int                       // i_index
    var size: int                        // i_size
    var closeStatus: CloseStatus         // i_close_status
    var input: Option<InputId>           // p_input
    var playlist: Option<PlaylistId>     // p_playlist
    var theme: Theme?                    // p_theme

    /** A freshly allocated record, before Open has filled it in. */
    constructor ()
    {
      subscribed, newThemeFile, index, size := false, None, 0, 0;
      closeStatus, input, playlist, theme := Nothing, None, None, null;
    }
  }

  /** `intf_thread_t`, as far as the plugin uses it. */
  class Intf {
    var sys: IntfSys?          // p_sys
    var runInstalled: bool     // pf_run == Run
    var calls: seq<Call>       // every call made so far, in order

    /** The references the log has acquired and not given back are exactly
        the ones the record holds; with no record, none. */
    ghost predicate Valid()
      reads this, sys
    {
      forall o :: Refs(calls, o) == if sys == null then 0 else Held(sys.input, sys.playlist, o)
    }

    constructor ()
      ensures Valid() && sys == null && !runInstalled && calls == []
    {
      sys, runInstalled, calls := null, false, [];
    }

    /** Open: allocate and initialise the record. `allocOk` is whether
        `malloc` succeeded; `playlist` is what the playlist lookup returns. */
    method Open(allocOk: bool, playlist: Option<PlaylistId>) returns (status: int)
      requires Valid() && sys == null
      modifies this
      ensures Valid()
      ensures status == if allocOk then 0 else 1
      ensures !allocOk ==> sys == null && runInstalled == old(runInstalled) && calls == old(calls)
      ensures allocOk ==>
        && fresh(sys) && sys.theme != null && fresh(sys.theme)
        && runInstalled && sys.subscribed
        && sys.newThemeFile == None && sys.index == -1 && sys.size == 0
        && sys.closeStatus == Nothing && sys.input == None && sys.playlist == playlist
        && calls == old(calls) + OpenCalls(playlist)
    {
      if !allocOk {
        sys := null;
        return 1;
      }
      var s := new IntfSys();
      sys := s;
      runInstalled := true;
      calls := calls + [Subscribe];
      s.subscribed := true;
      s.newThemeFile := None;
      s.index := -1;
      s.size := 0;
      s.closeStatus := Nothing;
      s.input := None;
      calls := calls + [FindPlaylist(playlist)];
      s.playlist := playlist;
      s.theme := new Theme();
      forall o ensures Refs(calls, o) == Held(s.input, s.playlist, o) {
        assert calls == old(calls) + OpenCalls(playlist);
        RefsAppend(old(calls), OpenCalls(playlist), o);
        OpenHoldsPlaylist(playlist, o);
      }
      return 0;
    }

    /** Close: give back the bound input and playlist, delete the theme,
        unsubscribe and free the record. */
    method Close()
      requires Valid() && sys != null
      modifies this
      ensures sys == null && runInstalled == old(runInstalled)
      ensures calls == old(calls) + CloseCalls(old(sys.input), old(sys.playlist))
      ensures Valid() && forall o :: Refs(calls, o) == 0
    {
      if sys.input.Some? {
        calls := calls + [ReleaseInput(sys.input.value)];
      }
      if sys.playlist.Some? {
        calls := calls + [ReleasePlaylist(sys.playlist.value)];
      }
      calls := calls + [DeleteTheme];
      calls := calls + [Unsubscribe];
      calls := calls + [FreeSys];
      assert calls == old(calls) + CloseCalls(sys.input, sys.playlist);
      forall o ensures Refs(calls, o) == 0 {
        RefsAppend(old(calls), CloseCalls(sys.input, sys.playlist), o);
        CloseReleasesHeld(sys.input, sys.playlist, o);
      }
      sys := null;
    }

    /** Run: load `skin_last`, else the default theme; on success initialise
        and show the theme, post a full refresh and enter the event loop. */
    method Run(skinLast: Option<string>, load: string -> bool)
      requires Valid() && sys != null
      modifies this`calls
      ensures Valid()
      ensures calls == old(calls) + RunCalls(skinLast, load)
    {
      calls := calls + [NewLoader];
      var loaded := false;
      if skinLast.Some? {
        calls := calls + [Load(skinLast.value)];
        loaded := load(skinLast.value);
      }
      if !loaded {
        calls := calls + [Load(DEFAULT_SKIN_PATH)];
        loaded := load(DEFAULT_SKIN_PATH);
        if !loaded {
          calls := calls + [DeleteLoader];
          assert calls == old(calls) + RunCalls(skinLast, load);
          RunKeepsReferences(old(calls), skinLast, load);
          return;
        }
      }
      // Initialise and show the theme, delete the loader, post a full
      // refresh, enter the event loop.
      calls := calls + [InitTheme, ShowTheme, DeleteLoader, Post(IntfRefresh(true)), OSRun];
      assert calls == old(calls) + RunCalls(skinLast, load);
      RunKeepsReferences(old(calls), skinLast, load);
    }

    /** SkinManage: one refresh cycle. */
    method SkinManage(h: HostView, bank: string -> ControlId) returns (r: int)
      requires Valid() && sys != null
      requires SizeKnown(Rebind(sys.input, h), h)
      modifies this`calls, sys`input
      ensures r == VLC_TRUE
      ensures sys.input == Rebind(old(sys.input), h)
      ensures calls == old(calls) + ManageCalls(old(sys.input), h, bank)
      ensures Valid()
    {
      ghost var bound := sys.input;
      // The calls of this cycle, in order; appended to the log at the end.
      var bind: seq<Call> := [];
      if sys.input.None? {
        bind := [FindInput(h.found)];
        sys.input := h.found;
      } else if h.status(sys.input.value).dead {
        bind := [ReleaseInput(sys.input.value)];
        sys.input := None;
      }
      assert bind == BindCalls(bound, h);
      var cur := sys.input;
      var refresh: seq<Call> := [];
      if cur.Some? && !h.status(cur.value).die {
        var id := cur.value;
        var s := h.status(id);
        var volume := [LockStream(id), GetVolume,
                       Post(SetSlider(bank("volume_refresh"), VolumeSlider(h.volume)))];
        var times := [];
        if s.seekable {
          times := [ Post(SetSlider(bank("time"), PositionSlider(s.tell, s.size))),
                     PostText(bank("left_time"), "-" + h.offsetToTime(s.size - s.tell)),
                     PostText(bank("time"), h.offsetToTime(s.tell)),
                     PostText(bank("total_time"), h.offsetToTime(s.size)) ];
        }
        refresh := volume + times + [UnlockStream(id)];
      }
      assert refresh == RefreshCalls(cur, h, bank);
      calls := calls + ([LockChange] + bind + [Post(IntfRefresh(false))] + refresh + [UnlockChange]);
      ManageKeepsReferences(old(calls), bound, sys.playlist, h, bank);
      return VLC_TRUE;
    }
  }

  /** A refresh cycle keeps the log's references in step with the record:
      it changes them exactly as it changes the binding. */
  lemma ManageKeepsReferences(before: seq<Call>, bound: Option<InputId>, playlist: Option<PlaylistId>,
                              h: HostView, bank: string -> ControlId)
    requires SizeKnown(Rebind(bound, h), h)
    requires forall o :: Refs(before, o) == Held(bound, playlist, o)
    ensures forall o :: Refs(before + ManageCalls(bound, h, bank), o) == Held(Rebind(bound, h), playlist, o)
  {
    forall o ensures Refs(before + ManageCalls(bound, h, bank), o) == Held(Rebind(bound, h), playlist, o) {
      RefsAppend(before, ManageCalls(bound, h, bank), o);
      ManageRefs(bound, h, bank, o);
    }
  }

  /** Run leaves the log's references as they were. */
  lemma RunKeepsReferences(before: seq<Call>, skinLast: Option<string>, load: string -> bool)
    ensures forall o :: Refs(before + RunCalls(skinLast, load), o) == Refs(before, o)
  {
    forall o ensures Refs(before + RunCalls(skinLast, load), o) == Refs(before, o) {
      RefsAppend(before, RunCalls(skinLast, load), o);
      RunHoldsNothing(skinLast, load, o);
    }
  }
}
