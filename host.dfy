/** What the skins plugin sees of the host engine and of the platform: the
    objects it can bind, the calls it makes on them, and the integer rescaling
    of engine values into the slider domain.

    The engine itself is an oracle. What `vlc_object_find` returns, the
    `b_dead`/`b_die` flags, the stream position and size, the volume and the
    text `input_OffsetToTime` produces arrive as values (`HostView`); the
    theme's event bank is a total function from a control name to the control
    it designates. */
module Host {
  import opened Wrappers
  import opened Traces

  type InputId = nat
  type PlaylistId = nat
  /** The Control-Event object `EvtBank->Get(name)` returns. */
  type ControlId = nat

  /** An engine object the plugin may hold a reference on. */
  datatype ObjRef = InputObj(input: InputId) | PlaylistObj(playlist: PlaylistId)

  /** The state of one input thread, as read during a refresh cycle:
      `b_dead`, `b_die`, and the seekable flag, position (`i_tell`) and size
      (`i_size`) of its selected area. */
  datatype InputStatus = InputStatus(dead: bool, die: bool, seekable: bool, tell: int, size: int)

  /** One refresh cycle's answers from the engine. */
  datatype HostView = HostView(
    found: Option<InputId>,          // vlc_object_find( VLC_OBJECT_INPUT )
    status: InputId -> InputStatus,  // the flags and stream of each input
    volume: nat,                     // aout_VolumeGet
    offsetToTime: int -> string)     // input_OffsetToTime

  /** A message handed to `OSAPI_PostMessage`. */
  datatype PostedMessage =
    | IntfRefresh(full: bool)                      // VLC_INTF_REFRESH
    | SetSlider(control: ControlId, value: int)    // CTRL_SET_SLIDER

  /** One call the plugin makes into the engine, the loader, the theme or the
      platform, in the order made. */
  datatype Call =
    | LockChange | UnlockChange                    // p_intf->change_lock
    | LockStream(input: InputId)                   // p_input->stream.stream_lock
    | UnlockStream(input: InputId)
    | FindInput(found: Option<InputId>)            // vlc_object_find, with its result
    | FindPlaylist(found: Option<PlaylistId>)
    | ReleaseInput(input: InputId)                 // vlc_object_release
    | ReleasePlaylist(playlist: PlaylistId)
    | Subscribe | Unsubscribe                      // the message bank
    | DeleteTheme | FreeSys
    | NewLoader | Load(path: string) | DeleteLoader
    | InitTheme | ShowTheme | OSRun
    | GetVolume
    | Post(msg: PostedMessage)
    | PostText(control: ControlId, text: string)  // Event::PostTextMessage

  /** How a call changes the number of references held on `o`: a successful
      find acquires one, a release gives one back. */
  function RefDelta(c: Call, o: ObjRef): int
  {
    match c
    case FindInput(Some(i)) => if o == InputObj(i) then 1 else 0
    case FindPlaylist(Some(p)) => if o == PlaylistObj(p) then 1 else 0
    case ReleaseInput(i) => if o == InputObj(i) then -1 else 0
    case ReleasePlaylist(p) => if o == PlaylistObj(p) then -1 else 0
    case _ => 0
  }

  /** The net number of references on `o` that the calls of `calls` acquired. */
  function Refs(calls: seq<Call>, o: ObjRef): int
  {
    if calls == [] then 0 else RefDelta(calls[0], o) + Refs(calls[1..], o)
  }

  /** The references a record binding `input` and `playlist` holds on `o`. */
  function Held(input: Option<InputId>, playlist: Option<PlaylistId>, o: ObjRef): (n: int)
    ensures 0 <= n <= 1
    ensures n == 1 <==> (o.InputObj? && input == Some(o.input)) || (o.PlaylistObj? && playlist == Some(o.playlist))
  {
    match o
    case InputObj(i) => if input == Some(i) then 1 else 0
    case PlaylistObj(p) => if playlist == Some(p) then 1 else 0
  }

  lemma {:induction false} RefsAppend(a: seq<Call>, b: seq<Call>, o: ObjRef)
    ensures Refs(a + b, o) == Refs(a, o) + Refs(b, o)
  {
    if a == [] {
      assert a + b == b;
    } else {
      assert (a + b)[1..] == a[1..] + b;
      RefsAppend(a[1..], b, o);
    }
  }

  /** A log none of whose calls acquires or releases anything holds no reference. */
  lemma {:induction false} RefsNeutral(calls: seq<Call>, o: ObjRef)
    requires forall i :: 0 <= i < |calls| ==> RefDelta(calls[i], o) == 0
    ensures Refs(calls, o) == 0
  {
    if calls != [] {
      RefsNeutral(calls[1..], o);
    }
  }

  // ---------------------------------------------------------------------
  // Slider scaling
  // ---------------------------------------------------------------------

  /** The integer domain of every slider (`SLIDER_RANGE`). */
  const SLIDER_RANGE: nat := 1048576
  /** The largest native volume of the audio output (`AOUT_VOLUME_MAX`). */
  const AOUT_VOLUME_MAX: nat := 1024

  function Abs(x: int): nat { if x < 0 then -x else x }

  /** C's integer division, which truncates toward zero (Dafny's `/` is
      Euclidean). */
  function TruncDiv(a: int, b: int): (q: int)
    requires b != 0
    ensures a >= 0 && b > 0 ==> q == a / b
  {
    if (a < 0) == (b < 0) then Abs(a) / Abs(b) else -(Abs(a) / Abs(b))
  }

  /** `x * SLIDER_RANGE / d` as the source computes it: a product followed by
      a truncating division. */
  function Rescale(x: int, d: int): int
    requires d != 0
  {
    TruncDiv(SLIDER_RANGE * x, d)
  }

  /** The value posted to the "volume_refresh" slider. */
  function VolumeSlider(volume: nat): int
  {
    Rescale(volume, AOUT_VOLUME_MAX)
  }

  /** The value posted to the "time" slider. */
  function PositionSlider(tell: int, size: int): int
    requires size != 0
  {
    Rescale(tell, size)
  }

  /** Dividing the smaller of two non-negative numbers never gives more. */
  lemma DivMonotone(a: nat, b: nat, d: nat)
    requires a <= b && d > 0
    ensures a / d <= b / d
  {
    var qa, qb := a / d, b / d;
    assert a == d * qa + a % d;
    assert b == d * qb + b % d;
    if qa > qb {
      MulMonotone(d, qb + 1, qa);
      assert false;
    }
  }

  lemma {:induction false} MulMonotone(d: nat, x: int, y: int)
    requires x <= y
    ensures d * x <= d * y
  {
    if d > 0 {
      MulMonotone(d - 1, x, y);
      assert d * x == (d - 1) * x + x;
      assert d * y == (d - 1) * y + y;
    }
  }

  /** A rescaled value of `0 <= x <= d` lies in the slider domain, with both
      ends reached, and grows with `x`. */
  lemma RescaleBounds(x: int, d: int)
    requires 0 <= x <= d && d > 0
    ensures Rescale(x, d) == SLIDER_RANGE * x / d
    ensures 0 <= Rescale(x, d) <= SLIDER_RANGE
    ensures x == 0 ==> Rescale(x, d) == 0
    ensures x == d ==> Rescale(x, d) == SLIDER_RANGE
  {
    DivMonotone(SLIDER_RANGE * x, SLIDER_RANGE * d, d);
    assert SLIDER_RANGE * d / d == SLIDER_RANGE;
  }

  lemma RescaleMonotone(x1: int, x2: int, d: int)
    requires 0 <= x1 <= x2 && d > 0
    ensures Rescale(x1, d) <= Rescale(x2, d)
  {
    DivMonotone(SLIDER_RANGE * x1, SLIDER_RANGE * x2, d);
  }

  /** The volume slider stays in `[0, SLIDER_RANGE]`, is 0 at silence and
      full at the maximum volume, and is monotone in the volume. */
  lemma VolumeSliderBounds(v1: nat, v2: nat)
    requires v1 <= v2 <= AOUT_VOLUME_MAX
    ensures 0 <= VolumeSlider(v1) <= VolumeSlider(v2) <= SLIDER_RANGE
    ensures VolumeSlider(0) == 0 && VolumeSlider(AOUT_VOLUME_MAX) == SLIDER_RANGE
  {
    RescaleMonotone(v1, v2, AOUT_VOLUME_MAX);
    RescaleBounds(v1, AOUT_VOLUME_MAX);
    RescaleBounds(v2, AOUT_VOLUME_MAX);
    RescaleBounds(0, AOUT_VOLUME_MAX);
    RescaleBounds(AOUT_VOLUME_MAX, AOUT_VOLUME_MAX);
  }

  /** The position slider of a stream at `0 <= tell <= size` stays in
      `[0, SLIDER_RANGE]`, is 0 at the start, full at the end, and is monotone
      in the position. */
  lemma PositionSliderBounds(t1: int, t2: int, size: int)
    requires 0 <= t1 <= t2 <= size && size > 0
    ensures 0 <= PositionSlider(t1, size) <= PositionSlider(t2, size) <= SLIDER_RANGE
    ensures PositionSlider(0, size) == 0 && PositionSlider(size, size) == SLIDER_RANGE
  {
    RescaleMonotone(t1, t2, size);
    RescaleBounds(t2, size);
    RescaleBounds(0, size);
    RescaleBounds(size, size);
  }

  /** The position is truncated toward zero, not floored: a negative position
      gives the negation of the corresponding positive one. */
  lemma PositionSliderTruncates(tell: int, size: int)
    requires size != 0
    ensures PositionSlider(-tell, size) == -PositionSlider(tell, size)
  {
    TruncDivNegate(SLIDER_RANGE * tell, size);
    assert SLIDER_RANGE * -tell == -(SLIDER_RANGE * tell);
  }

  lemma TruncDivNegate(a: int, b: int)
    requires b != 0
    ensures TruncDiv(-a, b) == -TruncDiv(a, b)
  {
    if a == 0 {
      assert 0 / Abs(b) == 0;
    } else {
      assert Abs(-a) == Abs(a);
    }
  }
}
