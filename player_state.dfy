/**
 * The player's React state and seek-gesture anchors, and the transition each handler
 * applies to them. `setState` updates are taken as immediate.
 */
module PlayerState {
  import opened Props
  import opened SeekBar

  datatype UiState = UiState(
    isStarted: bool,
    isPlaying: bool,
    hasEnded: bool,
    isMuted: bool,
    isSeeking: bool,
    isControlsVisible: bool,
    progress: real,
    duration: real,
    currentTime: real)

  /** The instance fields a seek gesture uses: where it began, and the track width. */
  datatype Gesture = Gesture(touchStart: real, progressStart: real, wasPlaying: bool, barWidth: real)

  /** The state the constructor builds from the props. */
  function Initial(c: Config): UiState {
    UiState(c.autoplay, c.autoplay, false, c.defaultMuted, false, !c.hideControlsOnStart, 0.0, 0.0, 0.0)
  }

  function InitialGesture(c: Config): Gesture {
    Gesture(0.0, 0.0, c.autoplay, 200.0)
  }

  /** `showControls`' own update. */
  function ControlsShown(s: UiState): UiState {
    s.(isControlsVisible := true)
  }

  /** The update of a fired hide timer. */
  function ControlsHidden(s: UiState): UiState {
    s.(isControlsVisible := false)
  }

  /** `onStartPress`: start playing, rewinding a finished video. */
  function StartPressed(s: UiState): UiState {
    s.(isPlaying := true, isStarted := true, hasEnded := false,
       progress := if s.progress == 1.0 then 0.0 else s.progress)
  }

  /** `this.props.duration || this.state.duration`. */
  function EffectiveDuration(propDuration: Option<real>, stateDuration: real): real {
    OrElse(propDuration, stateDuration)
  }

  /** `onProgress`: ignored during a seek gesture, else records the reported time. */
  function Progressed(s: UiState, time: real, propDuration: Option<real>): (r: UiState)
    requires s.isSeeking || EffectiveDuration(propDuration, s.duration) != 0.0
    ensures s.isSeeking ==> r == s
    ensures !s.isSeeking ==>
      r == s.(progress := r.progress, currentTime := time)
      && r.progress * EffectiveDuration(propDuration, s.duration) == r.currentTime
  {
    if s.isSeeking then s
    else s.(progress := time / EffectiveDuration(propDuration, s.duration), currentTime := time)
  }

  /** `onLoad`: records the duration the native element reports. */
  function Loaded(s: UiState, duration: real): UiState {
    s.(duration := duration)
  }

  /** `onEnd`: the end of the video. */
  function Ended(s: UiState, endsWithThumbnail: bool, loop: bool): UiState {
    var t := if endsWithThumbnail then s.(isStarted := false, hasEnded := true) else s;
    var u := t.(progress := 1.0);
    if loop then u else u.(isPlaying := false)
  }

  /** `onPlayPress`: toggles playback and shows the controls. */
  function PlayToggled(s: UiState): UiState {
    ControlsShown(s.(isPlaying := !s.isPlaying))
  }

  /** `onMutePress`: toggles muting and shows the controls. */
  function MuteToggled(s: UiState): UiState {
    ControlsShown(s.(isMuted := !s.isMuted))
  }

  /** `onSeekGrant`'s state update. */
  function SeekGranted(s: UiState): UiState {
    s.(isSeeking := true, isPlaying := false)
  }

  /** `onSeekGrant`'s anchors: the touch position and the playback it interrupts. */
  function GrantAnchors(g: Gesture, s: UiState, pageX: real): Gesture {
    g.(touchStart := pageX, progressStart := s.progress, wasPlaying := s.isPlaying)
  }

  /** `onSeek`'s state update for a touch at `pageX`. */
  function Seeked(s: UiState, g: Gesture, pageX: real): UiState
    requires g.barWidth != 0.0
  {
    s.(progress := DragProgress(g.progressStart, g.touchStart, pageX, g.barWidth))
  }

  /** `onSeekRelease` (also run on termination): restores playback and shows the controls. */
  function SeekReleased(s: UiState, g: Gesture): UiState {
    ControlsShown(s.(isSeeking := false, isPlaying := g.wasPlaying))
  }

  /** The state after `onSeek` for each touch position in turn. */
  function Dragged(s: UiState, g: Gesture, moves: seq<real>): UiState
    requires g.barWidth != 0.0
    decreases |moves|
  {
    if moves == [] then s else Dragged(Seeked(s, g, moves[0]), g, moves[1..])
  }

  /** The `stop` handle: pause at the beginning and show the controls. */
  function Stopped(s: UiState): UiState {
    ControlsShown(s.(isPlaying := false, progress := 0.0))
  }

  function Paused(s: UiState): UiState {
    ControlsShown(s.(isPlaying := false))
  }

  function Resumed(s: UiState): UiState {
    ControlsShown(s.(isPlaying := true))
  }

  /** The native element is leaving fullscreen: playback is reported paused. */
  function FullscreenDismissing(s: UiState): UiState {
    if s.isPlaying then s.(isPlaying := false) else s
  }

  /** A press on the video surface: show the controls, then toggle playback if configured. */
  function OverlayPressed(s: UiState, pauseOnPress: bool): UiState {
    var t := ControlsShown(s);
    if pauseOnPress then PlayToggled(t) else t
  }

  // ---- Properties of the transitions ----

  /** Starting always plays; the progress is reset exactly when the video had finished. */
  lemma StartPressedPlays(s: UiState)
    ensures var r := StartPressed(s);
      r.isPlaying && r.isStarted && !r.hasEnded
      && (s.progress != 1.0 ==> r.progress == s.progress)
      && (s.progress == 1.0 ==> r.progress == 0.0)
      && r.isSeeking == s.isSeeking && r.isMuted == s.isMuted
      && r.isControlsVisible == s.isControlsVisible
      && r.duration == s.duration && r.currentTime == s.currentTime
  {
  }

  /** A non-zero `duration` prop wins over the duration the native element reported. */
  lemma EffectiveDurationPrefersProp(propDuration: Option<real>, stateDuration: real)
    ensures Truthy(propDuration) ==> EffectiveDuration(propDuration, stateDuration) == propDuration.value
    ensures !Truthy(propDuration) ==> EffectiveDuration(propDuration, stateDuration) == stateDuration
  {
  }

  /** Reporting the time at fraction `p` of the duration yields progress `p`. */
  lemma ProgressRoundTrip(s: UiState, p: real, propDuration: Option<real>)
    requires !s.isSeeking && EffectiveDuration(propDuration, s.duration) != 0.0
    ensures var d := EffectiveDuration(propDuration, s.duration);
      Progressed(s, p * d, propDuration).progress == p
  {
    var d := EffectiveDuration(propDuration, s.duration);
    var r := Progressed(s, p * d, propDuration);
    assert r.progress * d == p * d;
  }

  /** After the end the progress is 1; looping keeps the play state, else playback stops. */
  lemma EndedProgress(s: UiState, endsWithThumbnail: bool, loop: bool)
    ensures var r := Ended(s, endsWithThumbnail, loop);
      r.progress == 1.0
      && (loop ==> r.isPlaying == s.isPlaying)
      && (!loop ==> !r.isPlaying)
      && (endsWithThumbnail ==> !r.isStarted && r.hasEnded)
      && (!endsWithThumbnail ==> r.isStarted == s.isStarted && r.hasEnded == s.hasEnded)
      && r.isSeeking == s.isSeeking && r.isMuted == s.isMuted
      && r.isControlsVisible == s.isControlsVisible
      && r.duration == s.duration && r.currentTime == s.currentTime
  {
  }

  /** Pressing start after the end replays from the beginning. */
  lemma ReplayAfterEnd(s: UiState, endsWithThumbnail: bool, loop: bool)
    ensures var r := StartPressed(Ended(s, endsWithThumbnail, loop));
      r.progress == 0.0 && r.isPlaying && r.isStarted && !r.hasEnded
  {
  }

  /** Pressing play or mute twice restores what it toggles; only the controls stay shown. */
  lemma TogglesAreInvolutions(s: UiState)
    ensures PlayToggled(PlayToggled(s)) == ControlsShown(s)
    ensures MuteToggled(MuteToggled(s)) == ControlsShown(s)
  {
  }

  /** A drag leaves everything but the progress as it was, and the progress is the last touch's. */
  lemma {:induction false} DraggedProgress(s: UiState, g: Gesture, moves: seq<real>)
    requires g.barWidth != 0.0
    ensures var r := Dragged(s, g, moves);
      r == s.(progress := r.progress)
      && (moves == [] ==> r.progress == s.progress)
      && (moves != [] ==>
            r.progress == DragProgress(g.progressStart, g.touchStart, moves[|moves| - 1], g.barWidth))
    decreases |moves|
  {
    if moves != [] {
      var t := Seeked(s, g, moves[0]);
      DraggedProgress(t, g, moves[1..]);
      if |moves| > 1 {
        assert moves[1..][|moves[1..]| - 1] == moves[|moves| - 1];
      }
    }
  }

  /**
   * The seek round trip: during a gesture playback is stopped and progress updates are
   * ignored; releasing restores the play state the grant interrupted, whatever moves came
   * in between.
   */
  lemma {:induction false} SeekGestureRestoresPlaying(s: UiState, g: Gesture, pageX: real, moves: seq<real>)
    requires g.barWidth != 0.0
    ensures var a := GrantAnchors(g, s, pageX);
      var d := Dragged(SeekGranted(s), a, moves);
      var r := SeekReleased(d, a);
      d.isSeeking && !d.isPlaying
      && r.isPlaying == s.isPlaying && !r.isSeeking && r.isControlsVisible
      && r.isStarted == s.isStarted && r.hasEnded == s.hasEnded && r.isMuted == s.isMuted
      && r.duration == s.duration && r.currentTime == s.currentTime
      && (moves == [] ==> r.progress == s.progress)
      && (moves != [] ==> r.progress == DragProgress(s.progress, pageX, moves[|moves| - 1], g.barWidth))
  {
    DraggedProgress(SeekGranted(s), GrantAnchors(g, s, pageX), moves);
  }

  /** While a gesture is active progress reports change nothing. */
  lemma ProgressIgnoredWhileSeeking(s: UiState, g: Gesture, pageX: real, moves: seq<real>, time: real, propDuration: Option<real>)
    requires g.barWidth != 0.0
    ensures var d := Dragged(SeekGranted(s), GrantAnchors(g, s, pageX), moves);
      d.isSeeking && Progressed(d, time, propDuration) == d
  {
    DraggedProgress(SeekGranted(s), GrantAnchors(g, s, pageX), moves);
  }
}
