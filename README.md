# Skins interface plugin: lifecycle, refresh cycle and X11 event routing

This project models the core of VLC's "skins" interface plugin:

- `modules/gui/skins/src/skin_main.cpp`:
  - `Open` allocates the interface record, installs `Run`, subscribes to the message bank and finds the playlist.
  - `Close` releases what the record holds and frees it.
  - `Run` loads the last skin, or else the default theme, then starts the theme and enters the event loop.
  - `SkinManage` is one refresh cycle. It rebinds the input, posts a refresh, and updates the volume slider and the time slider and texts.
- `modules/gui/skins/x11/x11_run.cpp`:
  - `IsVLCEvent` tests the engine's reserved message range.
  - `GTK2Proc` is the GTK2 event dispatcher. In the source it sits inside a comment block and is not compiled.

The plugin is modelled by the calls it makes. `SkinMain.Intf` is a class with the plugin's state:

- `sys`, the `intf_sys_t` record, modelled as class `SkinMain.IntfSys`;
- whether `pf_run` is installed;
- `calls`, a log of every outward call in order: locks, object lookups and releases, loader calls, posted messages and text updates.

Each operation appends its calls to the log. A specification function gives the calls of one operation: `OpenCalls`, `CloseCalls`, `RunCalls` or `ManageCalls`. The properties are lemmas about those functions. `Traces.Filter` gives the calls of one kind, in order, and `Traces.Count` gives the occurrences of one call. The object invariant `Intf.Valid()` ties the log to the record: for each input and playlist, the references the log has taken and not given back are exactly the ones the record holds.

The rest of the engine is an oracle:

- `Host.HostView` holds the input the lookup finds, each input's status (dead, dying, seekable, position and size), the current volume and the time formatter.
- `bank` maps a control name to the control the event bank returns.
- `load` says whether a theme file loads.

`GTK2Proc` is modelled by the steps of one dispatch, in order: build the event, test a shortcut, hand the event to the engine, offer it to windows, and clean up. `X11Run.Dispatch` is the reference function. `X11Run.GTK2Proc` is the method, with the source's two window loops as `OfferAll` and `OfferTarget`.

Where the code differs from its own comments or from what a reader might expect, the model follows the code:

- **Volume refresh.** The volume slider is refreshed only while an input is bound and not dying (`skin_main.cpp:347-363`), not on every cycle. The rescaling truncates like C integer division; it does not round.
- **Key case.** The key code is turned into UPPER case (`x11_run.cpp:137-140`), although the comment there says lower case.
- **Event deletion.** The event is not deleted on every path. When the engine refuses an event of its range, the dispatcher calls `wxExit` and returns without deleting it (`x11_run.cpp:148-152`). `X11Run.EventLifetime` states this exactly.

## Model

| member | source | states |
|---|---|---|
| SkinMain.Intf.Open | modules/gui/skins/src/skin_main.cpp:88-169 | When allocation fails: returns 1 and changes nothing. When it succeeds: returns 0, installs Run, sets every field to its initial value (no new theme file, index -1, size 0, no close request, no input), records the playlist found, logs exactly Subscribe then FindPlaylist, and keeps the reference invariant |
| SkinMain.OpenHoldsPlaylist | modules/gui/skins/src/skin_main.cpp:105-118 | Open's calls take exactly one reference: the playlist's, when one is found |
| SkinMain.Intf.Close | modules/gui/skins/src/skin_main.cpp:174-211 | Logs exactly CloseCalls of the held input and playlist and drops the record. Afterwards no input or playlist reference is outstanding |
| SkinMain.CloseReleasesHeld | modules/gui/skins/src/skin_main.cpp:179-187 | Close's calls give back exactly the references the record held |
| SkinMain.CloseOrder | modules/gui/skins/src/skin_main.cpp:179-210 | Close releases the input only if it is held, and then first. It releases the playlist only if it is held. Each is released once, and both before DeleteTheme, Unsubscribe and FreeSys, which end the log in that order |
| SkinMain.FirstLoadable | modules/gui/skins/src/skin_main.cpp:223-271 | The chosen theme is the first candidate that loads: it is a candidate, it loads, and every candidate before it fails. None is chosen exactly when no candidate loads |
| SkinMain.Intf.Run | modules/gui/skins/src/skin_main.cpp:217-287 | Appends exactly RunCalls, the loader calls and, when a theme loads, the start-up calls, and keeps the reference invariant |
| SkinMain.RunLoadAttempts | modules/gui/skins/src/skin_main.cpp:223-244 | The skin_last path is tried first when set. The default theme is tried only when that fails or is unset |
| SkinMain.RunPicks | modules/gui/skins/src/skin_main.cpp:223-271 | The theme used is skin_last when it loads, else the default theme when that loads, else none |
| SkinMain.RunCount | modules/gui/skins/src/skin_main.cpp:239-286 | Apart from the loader and the loads, Run makes the start-up calls when a theme loads, and otherwise only deletes the loader |
| SkinMain.RunStartsIffLoaded | modules/gui/skins/src/skin_main.cpp:268-286 | InitTheme, ShowTheme, the full refresh post and OSRun each happen once if a theme loads and never otherwise. The loader is deleted exactly once on both paths |
| SkinMain.RunShape | modules/gui/skins/src/skin_main.cpp:223-286 | Run starts by creating the loader. It ends with InitTheme, ShowTheme, DeleteLoader, the full refresh post and OSRun when a theme loads, and with DeleteLoader when none does |
| SkinMain.RunHoldsNothing | modules/gui/skins/src/skin_main.cpp:217-287 | Run takes and releases no input or playlist reference |
| SkinMain.Intf.SkinManage | modules/gui/skins/src/skin_main.cpp:320-412 | Returns VLC_TRUE, rebinds the input by Rebind, appends exactly ManageCalls, and keeps the reference invariant |
| SkinMain.ManageRebinding | modules/gui/skins/src/skin_main.cpp:325-334 | With no input bound, the cycle looks one up once and binds it. A dead input is released once and unbound. A live input is kept, with no lookup or release |
| SkinMain.ManageRefs | modules/gui/skins/src/skin_main.cpp:325-334 | A cycle changes each input's reference count by exactly the change in the binding |
| SkinMain.ManageKeepsReferences | modules/gui/skins/src/skin_main.cpp:320-412 | A cycle keeps the log's outstanding references equal to what the record holds after rebinding |
| SkinMain.ManageLocking | modules/gui/skins/src/skin_main.cpp:322-409 | The cycle begins with the change lock and ends with its unlock, each taken once. Stream locks and unlocks balance for every input. The volume is read once when the refresh runs, and never otherwise |
| SkinMain.ManageRefreshPosted | modules/gui/skins/src/skin_main.cpp:336 | Every cycle posts one partial refresh and no full one |
| SkinMain.ManageSliders | modules/gui/skins/src/skin_main.cpp:347-379 | The posted slider values in order: none unless a live input is bound; else the volume scaled to the slider range, then, for a seekable input, the position scaled by the size |
| SkinMain.ManageTexts | modules/gui/skins/src/skin_main.cpp:368-399 | Only for a live seekable input, the texts set are, in order: left_time as "-" followed by the remaining time, time as the position, and total_time as the size |
| SkinMain.ManageDisplayOrder | modules/gui/skins/src/skin_main.cpp:347-399 | Sliders and texts together, in order: nothing unless a live input is bound; else the volume slider, then, for a seekable input, the time slider followed by the left_time, time and total_time texts |
| SkinMain.ManageLockCount | modules/gui/skins/src/skin_main.cpp:322-409 | The change locks occur once each. The stream lock, the stream unlock and the volume read occur once each when the refresh runs, and not otherwise |
| Host.TruncDiv | modules/gui/skins/src/skin_main.cpp:362 | C integer division: on a nonnegative dividend and positive divisor it agrees with floor division; TruncDivNegate gives its behaviour on negative dividends |
| Host.TruncDivNegate | modules/gui/skins/src/skin_main.cpp:374-375 | Negating the dividend negates the truncated quotient |
| Host.VolumeSliderBounds | modules/gui/skins/src/skin_main.cpp:360-363 | For volumes within 0..AOUT_VOLUME_MAX, the volume slider value is monotone and lies within 0..SLIDER_RANGE. It is 0 at silence and SLIDER_RANGE at the maximum volume |
| Host.PositionSliderBounds | modules/gui/skins/src/skin_main.cpp:373-375 | For a positive size and positions within 0..size, the position slider is monotone and lies within 0..SLIDER_RANGE. It is 0 at the start and SLIDER_RANGE at the end |
| Host.PositionSliderTruncates | modules/gui/skins/src/skin_main.cpp:373-375 | The position is scaled with C truncating division: a negated position gives the negated slider value, not a floored one |
| Host.RescaleBounds | modules/gui/skins/src/skin_main.cpp:360-375 | For 0 <= x <= d, the rescaled value is the floor quotient and lies within 0..SLIDER_RANGE. It is 0 at x = 0 and SLIDER_RANGE at x = d |
| Host.RescaleMonotone | modules/gui/skins/src/skin_main.cpp:360-375 | Rescaling nonnegative values by a positive divisor is monotone |
| X11Run.VLCEventBoundaries | modules/gui/skins/x11/x11_run.cpp:271-274 | Both bounds of the reserved range are excluded. A message is a VLC event exactly when it lies strictly between them |
| X11Run.ToUnsigned | modules/gui/skins/x11/x11_run.cpp:106 | A long converted to unsigned int is congruent to it modulo 2^32, and unchanged when already in range |
| X11Run.EventOf | modules/gui/skins/x11/x11_run.cpp:104-119 | A client event carries its data's first long as the message and the other two as parameters. Any other event carries its type as the message and itself as the parameter. The window is kept |
| X11Run.KeyModifier | modules/gui/skins/x11/x11_run.cpp:124-134 | The modifier is 1 exactly when Alt is held, 2 exactly when Ctrl is held without Alt, and 0 exactly when neither is held |
| X11Run.NormaliseKey | modules/gui/skins/x11/x11_run.cpp:135-140 | The result is never a lower-case letter. A lower-case letter becomes an upper-case letter, and any other code is kept |
| X11Run.NormaliseKeyIdempotent | modules/gui/skins/x11/x11_run.cpp:135-140 | Normalising a normalised key changes nothing |
| X11Run.NormaliseKeyCaseInsensitive | modules/gui/skins/x11/x11_run.cpp:135-140 | Two key codes give the same shortcut exactly when they are equal or are the two cases of one letter |
| X11Run.FirstMatch | modules/gui/skins/x11/x11_run.cpp:164-181 | Finds the first window with the handle: no earlier window has it. It returns none exactly when no window has it |
| X11Run.Broadcast | modules/gui/skins/x11/x11_run.cpp:154-161 | A broadcast offers the event once to each window, in list order |
| X11Run.OfferAll | modules/gui/skins/x11/x11_run.cpp:154-161 | The broadcast loop produces exactly the offers of Broadcast |
| X11Run.OfferTarget | modules/gui/skins/x11/x11_run.cpp:162-183 | The targeted loop offers the event only to the first window with the handle, or to none. Its result is that window's answer |
| X11Run.GTK2Proc | modules/gui/skins/x11/x11_run.cpp:87-192 | A dispatch takes exactly the steps of Dispatch |
| X11Run.KeyPressShortcut | modules/gui/skins/x11/x11_run.cpp:122-143 | The bank is asked for a shortcut exactly for a key press with Alt or Ctrl, once, with the normalised key and the modifier |
| X11Run.KeyPressNotOffered | modules/gui/skins/x11/x11_run.cpp:122-146 | A key press is offered to no window and never given to the engine |
| X11Run.VLCEventRouting | modules/gui/skins/x11/x11_run.cpp:146-153 | The engine gets the event once exactly when the event is a non-key VLC event, and then no window is offered it. When the engine refuses it, the dispatch is just building the event, EventProc and wxExit |
| X11Run.BroadcastOffersAll | modules/gui/skins/x11/x11_run.cpp:154-161 | A window-less, non-key, non-VLC event is offered to every window, in order |
| X11Run.TargetedOffersFirstMatch | modules/gui/skins/x11/x11_run.cpp:162-183 | An event with a window is offered to the first window with that handle, and to no other. If none has it, it is offered to none |
| X11Run.EventLifetime | modules/gui/skins/x11/x11_run.cpp:104-191 | The dispatch starts by building the event, once. The event is deleted once, except on the refused-VLC-event exit, where it is never deleted. Its parameters are destroyed once, except on that exit and when the target window consumes the event |
| X11Run.RouteCount | modules/gui/skins/x11/x11_run.cpp:146-186 | After the event is built, it is deleted once unless the engine refuses it, and never built again |

## Left out

- The X11 `OSRun` event loop (`x11_run.cpp:246-269`) reads events forever and only prints them. It is an opaque call, `OSRun`, in `Run`'s log.
- The wxWidgets application object (`Instance`, `OnInit`) creates dialogs and an icon. The refresh timer (`RefreshTimer`) is disabled code that calls `SkinManage`. Neither is modelled.
- The updates of the messages log window and the file-info window in `SkinManage` (`skin_main.cpp:338-344`) are not modelled. The open, stream-output and preferences dialogs are only created, in `OnInit` (`x11_run.cpp:229-233`).
- The WIN32 build's `FreeLibrary` teardown in `Close` (`skin_main.cpp:201-207`) is not modelled.
- The WIN32 default theme path, built from the VLC installation directory (`skin_main.cpp:232-236`), is not modelled. `DEFAULT_SKIN_PATH` is the path of the other platforms (`skin_main.cpp:239-242`).
- Platform set-up before the loader (`skin_main.cpp:120-158`), mutex and condition initialisation and destruction, error messages and timing, the global interface variable and the module descriptor are not modelled.
- SkinMain.Intf.SkinManage: requires a nonzero size for a seekable bound input, because the source divides by the size there and does not guard against zero.
- Host.VolumeSlider: does not model the overflow of `volume * SLIDER_RANGE` in C `int` (from volume 2048 upwards). Volumes stay within 0..1024 in practice.
- Host.PositionSlider: does not model the 64-bit overflow of `SLIDER_RANGE * i_tell`.
- Theme loading is a function of the path: the same path always loads, or always fails. File contents are not modelled.
- The engine's `EventProc`, the windows' `ProcessEvent`, the bank's `TestShortcut`, `GetVolume` and the time formatter are oracles. Their effects inside the engine are not modelled.
- X11Run.GTK2Proc: the source function is inside a comment block and is never compiled or registered. It is modelled as the routing that code describes.
- X11Run.EventLifetime: on the path where the engine refuses a VLC event, the dispatcher calls `wxExit` and returns without deleting the event. The model states this; it does not claim deletion on every path.
- SkinMain.Intf.SkinManage: the calls of one cycle are appended to the log as one block. The interleaving of the plugin's calls with other threads is not modelled.
- The values of `SLIDER_RANGE` (1048576) and `AOUT_VOLUME_MAX` (1024) come from headers that are not part of this model. `VLC_MESSAGE` and `VLC_WINDOW` are unknown and are the parameter `MessageRange`.
- The key value is taken as a C `int`, and `unsigned int` is assumed to be 32 bits wide.
