# VideoPlayer: a verified model of the player component's state machine

The repository is a single React Native component, `VideoPlayer`. It lays touch controls
(play/pause, a seek bar, mute, fullscreen, an elapsed-time label) over a native video element.
Everything beyond the drawing is a small sequential state machine:

- **Playback state** (`this.state`): started, playing, ended, muted, seeking, controls
  visible, progress, duration and current time. Touch handlers and the native element's
  callbacks (`onProgress`, `onLoad`, `onEnd`) update it.
- **Seek gesture**: a grant / move / release protocol over the seek knob. The grant records
  the touch position, the progress and the play state. Each move sets the progress by the drag
  distance and seeks the native element. The release restores the play state.
- **Controls timer**: one cancellable `setTimeout` handle that hides the controls.
- **View selector** (`renderContent`): end thumbnail, start thumbnail, placeholder, or the
  video with either the full controls or a thin progress bar.
- **Pure helpers**: the `formatTime` label and the seek bar padding rule.

The model has eight modules:

- `Props` (props.dfy): the configuration. It holds the flags, the optional `duration` prop,
  `customStyles.seekBar` and `controlsTimeout`. JavaScript truthiness of optional numbers is
  written out.
- `TimeFormat` (time_format.dfy): `formatTime` over whole seconds with its decimal digits, a
  reader of the digit strings it produces, and a corrected variant (see Findings).
- `SeekBar` (seek_bar.dfy): the track-width padding rule and the progress a drag selects.
- `PlayerState` (player_state.dfy): `this.state` as a datatype, the gesture anchors, and one
  pure transition function per handler. It holds the lemmas about the handlers, one at a time
  and in sequence.
- `ControlsTimer` (controls_timer.dfy): the handle, the runtime's pending hides, and the
  single-timer rule.
- `Render` (render.dfy): the view selector and how transitions move between views.
- `Player` (player.dfy): the class `VideoPlayer`. It has `state`, the gesture anchors
  (`seekTouchStart`, `seekProgressStart`, `wasPlayingBeforeSeek`, `seekBarWidth`), the
  `controlsTimeout` handle and the runtime's pending hides as fields. Each handler is a
  `modifies this` method specified by the transition function it applies. Calls on the native
  element are appended to a ghost `requests` log (`SeekTo(t)`, `DismissFullscreen`,
  `PresentFullscreen`).
- `Scenarios` (scenarios.dfy): client methods that drive a player through typical uses.
  They cover a 120 s video at 60 s, ending on a thumbnail, replaying after the end,
  disabled auto-hide, showing the controls twice, and a grant / N moves / release gesture.

`setState` is modelled as an immediate replacement of `state` by an updated copy. The one
place where the source waits for a render is the non-loop branch of `onEnd`: its
`seek(0)` runs in the update's callback, behind the guard `this.player &&` (index.js:204-207).
The `ref` callback sets `this.player` only while the video view is drawn
(index.js:559, index.js:600-616). So the model issues that seek only if the video view is
still drawn after the update (`SeekToStartIfAttached`). The video view is still drawn exactly
when playback does not end on a thumbnail (`Render.EndedView`).

Points of the code the model keeps as written:

- **Seek after the end.** A non-looping end seeks to 0 only if the native element is still
  drawn after the update, so a thumbnail ending sends no seek (index.js:204-207).
- **Missing native element.** `onSeek`, `seek`, `stop` and `onToggleFullScreen` call
  `this.player` without a guard and throw when it is missing. `onEnd` does so only on a
  thumbnail ending or with `loop` (index.js:198, index.js:209); its other seek is guarded
  (index.js:206). The model requires the element to be drawn (`PlayerAttached()`) for these
  methods; for `onEnd` because the element itself raises that callback.
- **`formatTime(3661)`.** The label is `01:61:01`, because the minute field is the total
  number of minutes (index.js:373).
- **Clamping.** The dragged progress is not clamped to [0, 1] (index.js:290-296,
  `SeekBar.DragProgressUnclamped`).

## Model

| member | source | states |
|---|---|---|
| `TimeFormat.DecimalString` | index.js:377 | `toString` of a whole number: at least one digit, all decimal digits, no leading zero, one digit exactly below 10 and at most two exactly below 100 |
| `TimeFormat.DecimalRoundTrip` | index.js:383-390 | reading back the digits `toString` produces yields the number |
| `TimeFormat.Pad2` | index.js:382-390 | a label field is at least two digits, reads back as its number, is exactly two digits iff the number is below 100, and starts with `0` only below 10 |
| `TimeFormat.FormatTime` | index.js:371-397 | `formatTime` as written: at least four characters, ending in `h` iff at least 100 hours, and otherwise colon-separated with two-digit first and last fields. Its field values are stated by the lemmas below |
| `TimeFormat.FormatTimeShort` | index.js:371-397 | below one hour (zero included) the label is `MM:SS`, five characters, whose fields read back as the minutes and the seconds within the minute |
| `TimeFormat.FormatTimeLong` | index.js:371-397 | from one to 99 hours the label is `HH:MM:SS`. Its hour field reads back as the hours. Its middle field reads back as the total minutes: at least 60, and two digits wide iff under 6000 s, with no leading zero. The last two fields alone recover the seconds |
| `TimeFormat.FormatTimeHours` | index.js:372-378 | from 100 hours on the label is the hour count, with no leading zero, followed by `h` |
| `TimeFormat.FormatTimeExamples` | index.js:379-395 | 45 s is labelled `00:45`, 60 s `01:00`, 0 s `00:00` |
| `TimeFormat.FormatTime3661` | index.js:373 | 3661 s is labelled `01:61:01` (minutes are not taken modulo 60) |
| `TimeFormat.FormatClock` | index.js:371-397 | the corrected `formatTime` (minutes within the hour): the same outer shape as `FormatTime`, ending in `h` iff at least 100 hours |
| `TimeFormat.FormatClockFields` | index.js:371-397 | corrected label: from one to 99 hours it is eight characters `HH:MM:SS`, minutes and seconds below 60, and hours·3600 + minutes·60 + seconds gives back the input |
| `TimeFormat.FormatClockAgreesBelowOneHour` | index.js:371-397 | the corrected label equals the original below one hour |
| `TimeFormat.FormatClock3661` | index.js:371-397 | the corrected label of 3661 s is `01:01:01` |
| `SeekBar.Padding` | index.js:249-258 | with a custom style the padding is the sum of the two sides, where a truthy `paddingHorizontal` overrides each side and an absent or zero side counts 0. Without one it is twice the built-in style's horizontal padding of 10 (index.js:68) |
| `SeekBar.TrackWidth` | index.js:260 | the measured width less the padding; `TrackWidthSymmetric` and `ZeroHorizontalPaddingIgnored` are proved about it |
| `SeekBar.TrackWidthSymmetric` | index.js:253-255 | swapping `paddingLeft` and `paddingRight` leaves the track width unchanged |
| `SeekBar.ZeroHorizontalPaddingIgnored` | index.js:251-255 | `paddingHorizontal: 0` behaves as if it were absent |
| `SeekBar.DragProgress` | index.js:290-292 | the dragged progress is the start progress plus the drag distance divided by the track width |
| `SeekBar.DragProgressAtAnchor` | index.js:290-292 | a touch that has not moved selects the start progress |
| `SeekBar.DragProgressLinear` | index.js:290-292 | two touches differ in progress by their distance in track widths (linear, path-independent) |
| `SeekBar.DragProgressUnclamped` | index.js:290-296 | two witnesses: a drag past the right end yields progress 1.15, one past the left end -0.15, so nothing clamps to [0, 1] |
| `PlayerState.Progressed` | index.js:178-189 | while seeking the state is unchanged; otherwise only progress and current time change, current time is the reported time and progress × effective duration = current time |
| `PlayerState.StartPressedPlays` | index.js:168-173 | start leaves the video playing, started and not ended; progress becomes 0 exactly when it was 1 and is otherwise kept; nothing else changes |
| `PlayerState.EffectiveDurationPrefersProp` | index.js:186 | a non-zero `duration` prop wins over the reported duration; an absent or zero one falls back to it |
| `PlayerState.ProgressRoundTrip` | index.js:185-188 | reporting time p × d with effective duration d ≠ 0 yields progress p |
| `PlayerState.ProgressIgnoredWhileSeeking` | index.js:179-181 | after a grant and any moves a progress report changes nothing |
| `PlayerState.EndedProgress` | index.js:196-210 | after the end progress is 1. With `loop` the play state is kept, otherwise playback stops. A thumbnail ending makes the player not started and ended. Nothing else changes |
| `PlayerState.ReplayAfterEnd` | index.js:168-173 | start after the end plays from progress 0 |
| `PlayerState.TogglesAreInvolutions` | index.js:222-242 | pressing play, or mute, twice restores the state except that the controls are shown |
| `PlayerState.DraggedProgress` | index.js:289-299 | any sequence of moves changes only the progress, which is the last touch's dragged progress (or unchanged with no moves) |
| `PlayerState.SeekGestureRestoresPlaying` | index.js:271-299 | grant, any moves, then release. During the drag the player is seeking and not playing. After it, the play state is the one before the grant, seeking is over and the controls are shown. Progress is the last touch's |
| `ControlsTimer.Initial` | index.js:107-127 | a new player has no pending hide |
| `ControlsTimer.AtMostOnePending` | index.js:320-326 | at most one hide is ever pending |
| `ControlsTimer.ScheduleHide` | index.js:311-327 | with auto-hide disabled nothing changes. Otherwise exactly one hide is pending afterwards, with the configured delay, under a handle the component now holds, larger than any it held before. Any earlier hide is cancelled |
| `ControlsTimer.Fire` | index.js:324-326 | firing leaves nothing pending and the component's stale handle in place |
| `ControlsTimer.Cancel` | index.js:149-154 | after unmount no hide is pending and the handle is dropped |
| `ControlsTimer.SecondScheduleSupersedes` | index.js:320-326 | after two schedules only the second is pending |
| `Render.SelectView` | index.js:600-616 | end-thumbnail iff ended with an end thumbnail; start-thumbnail iff not that, not started and a thumbnail; placeholder iff not started and none; video iff started and not the end-thumbnail case; full controls iff not playing or controls visible (index.js:593-595) |
| `Render.PausedShowsControls` | index.js:593-595 | a paused video shows full controls, even after a hide fires |
| `Render.StartShowsVideo` | index.js:600-616 | after start the video view is drawn |
| `Render.EndedView` | index.js:604-608 | the end of a drawn video keeps it drawn iff playback does not end on a thumbnail. With an end-thumbnail image that image is shown. Otherwise the start thumbnail or the placeholder is shown |
| `Render.HiddenControlsHaveNoKnob` | index.js:456-472 | while playing with hidden controls no seek knob is drawn, so no gesture can begin |
| `Player.VideoPlayer.constructor` | index.js:107-127 | initial state from `autoplay`, `defaultMuted`, `hideControlsOnStart`; anchors 0, 0, `autoplay`, width 200; no timer, no requests |
| `Player.VideoPlayer.ComponentDidMount` | index.js:143-147 | an autoplaying player schedules the hide; state unchanged |
| `Player.VideoPlayer.ComponentWillUnmount` | index.js:149-154 | the pending hide is cancelled; nothing else changes |
| `Player.VideoPlayer.HideControls` | index.js:311-327 | the timer state becomes `ScheduleHide` of the old one; nothing else changes |
| `Player.VideoPlayer.ShowControls` | index.js:329-338 | the controls become visible and the hide is rescheduled |
| `Player.VideoPlayer.FireTimer` | index.js:324-326 | a pending hide fires: only `isControlsVisible` becomes false |
| `Player.VideoPlayer.OnStartPress` | index.js:163-176 | state becomes `StartPressed` of the old state, and the hide is scheduled |
| `Player.VideoPlayer.OnProgress` | index.js:178-189 | state becomes `Progressed` with the `duration` prop; timer, anchors, requests unchanged |
| `Player.VideoPlayer.OnLoad` | index.js:213-220 | only the duration changes, to the reported one |
| `Player.VideoPlayer.OnEnd` | index.js:191-211 | state becomes `Ended`. The video stays drawn iff playback does not end on a thumbnail. Requests gain a fullscreen dismissal on a thumbnail ending, then `seek(0)` when looping or when the video is still drawn |
| `Player.VideoPlayer.SeekToStartIfAttached` | index.js:204-207 | `seek(0)` is requested iff the native element is drawn |
| `Player.VideoPlayer.OnPlayPress` | index.js:222-231 | `isPlaying` is toggled, the controls are shown and the hide rescheduled |
| `Player.VideoPlayer.OnMutePress` | index.js:233-242 | `isMuted` is toggled, the controls are shown and the hide rescheduled |
| `Player.VideoPlayer.OnToggleFullScreen` | index.js:244-246 | one fullscreen request; nothing else changes |
| `Player.VideoPlayer.OnFullscreenPlayerWillDismiss` | index.js:569-574 | leaving fullscreen stops a playing video |
| `Player.VideoPlayer.OnOverlayPress` | index.js:584-587 | show the controls, then toggle playback when `pauseOnPress`; one or two reschedules |
| `Player.VideoPlayer.OnSeekBarLayout` | index.js:248-261 | only `seekBarWidth` changes, to `TrackWidth` of the measured width |
| `Player.VideoPlayer.OnSeekGrant` | index.js:271-279 | records touch position, progress and play state; seeking starts and playback stops |
| `Player.VideoPlayer.OnSeek` | index.js:289-299 | progress becomes the dragged progress; exactly one `seek(progress × duration)` request; play and seek flags unchanged |
| `Player.VideoPlayer.OnSeekRelease` | index.js:281-287 | seeking ends. `isPlaying` becomes the value recorded at the grant. The controls are shown |
| `Player.VideoPlayer.GetCurrentTime` | index.js:340-342 | returns the current time |
| `Player.VideoPlayer.Seek` | index.js:344-346 | one `seek(t)` request; nothing else changes |
| `Player.VideoPlayer.Stop` | index.js:348-355 | paused at progress 0, one `seek(0)` request, controls shown |
| `Player.VideoPlayer.Pause` | index.js:357-362 | paused, controls shown |
| `Player.VideoPlayer.Resume` | index.js:364-369 | playing, controls shown |
| `Scenarios.SeekGesture` | index.js:271-299 | a grant, N moves and a release on a player restore its play state, keep the earlier requests and append exactly N requests, the k-th a seek to the time the k-th move's drag selects from the grant's progress and touch position |

## Left out

- Drawing: the JSX, the `StyleSheet` values, `getSizeStyles`, `onLayout` (it only feeds the
  layout width to `getSizeStyles`), the icons and `Icon.loadFont()`. They have no behaviour to
  state.
- The elements inside the full controls: the time label unless `hideCurrentTime`, the mute
  button unless `muted`, and the fullscreen button. They are drawing only.
- `Platform.OS` and `Platform.Version`: the model does not include the Android-only absence of
  the fullscreen button, nor the long press that toggles fullscreen when
  `fullScreenOnLongPress` is set (index.js:588-590). These are environment queries.
- The props passed through to the native element (`muted`, `paused`, `resizeMode`, `source`)
  and the element itself. Calls on it are recorded as requests only.
- Callbacks to host props (`onStart`, `onProgress`, `onEnd`, `onLoad`, `onPlayPress`,
  `onMutePress`, `onShowControls`, `onHideControls`), PropTypes and defaultProps. These are
  side-effect hooks and declarations.
- `onSeekStartResponder` and `onSeekMoveResponder` always return true, so every touch on the
  knob is granted. The model does not need them.
- Time: the hide is recorded with its delay and fires when the environment calls `FireTimer`.
  Elapsed time is not modelled. `controlsTimeout` is taken as a whole number of milliseconds.
- Numbers: progress, duration and times are exact reals. Floating-point rounding, NaN and
  Infinity are not modelled, and truthiness of a number ignores NaN. `formatTime` takes whole,
  non-negative seconds. In the component it receives `currentTime`, which may be fractional.
  `parseInt` converts its argument to a string first, so each field is truncated only while
  the quotient prints in plain notation. Below 1e-6 the quotient prints in exponent form and
  `parseInt` reads its leading mantissa digit instead. Fractional input is not modelled.
- Props are taken as constant from construction (`config` is a `const`). A host can pass new
  props on a re-render, and the handlers then read the new values; the model does not.
- `setState` batching is taken as immediate replacement. The exception is the `onEnd`
  callback, whose seek is issued after the update.
- Player.VideoPlayer.OnProgress: requires a non-zero effective duration when not seeking. The
  source divides by zero there and stores NaN or Infinity, which reals cannot express.
- PlayerState.Progressed: carries the same non-zero effective duration requirement, for the
  same reason.
- Player.VideoPlayer.OnSeek: requires a non-zero `seekBarWidth` (the source divides by it)
  and a drawn native element. Its seek knob exists only in the video view.
- Player.VideoPlayer.OnEnd: requires the native element to be drawn. The element raises this
  callback itself, and the source calls it unguarded.
- Player.VideoPlayer.Stop: requires the native element to be drawn. The source throws a
  `TypeError` without it, and that exception path is not modelled.
- Player.VideoPlayer.Seek: requires the native element to be drawn, for the same reason as
  `Stop`.
- Player.VideoPlayer.OnToggleFullScreen: requires the native element to be drawn. Its button
  and the long press exist only in the video view.

## Findings

| source | as written | input that shows it | evidently intended | confidence | as-written member | corrected member |
|---|---|---|---|---|---|---|
| index.js:373 | `minute` is `parseInt(seconds / 60)`, the total number of minutes, printed after the hour field | 3661 s is labelled `01:61:01` | minutes within the hour, `01:01:01`, as the preceding `HH` hour field implies | high; not executed | `TimeFormat.FormatTime3661` | `TimeFormat.FormatClockFields` |

`TimeFormat.FormatTime` models the label as written. `TimeFormat.FormatClock` takes the
minutes modulo 60. No other part of the model draws the label.
