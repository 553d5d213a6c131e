/**
 * The `VideoPlayer` component: its state, its gesture anchors and its timer handle as
 * fields, and each handler as a method specified by the transition it applies.
 */
module Player {
  import opened Props
  import opened SeekBar
  import opened PlayerState
  import ControlsTimer
  import opened Render

  /** A call the component makes on the native video element. */
  datatype PlayerRequest = SeekTo(time: real) | DismissFullscreen | PresentFullscreen

  /** What `onEnd` asks of the native element; the unguarded calls come first. */
  function EndRequests(endsWithThumbnail: bool, loop: bool): seq<PlayerRequest> {
    (if endsWithThumbnail then [DismissFullscreen] else [])
    + (if loop || !endsWithThumbnail then [SeekTo(0.0)] else [])
  }

  class VideoPlayer {
    const config: Config

    /** `this.state`, which every `setState` replaces by an updated copy. */
    var state: UiState

    // instance fields of the seek gesture
    var seekBarWidth: real
    var seekTouchStart: real
    var seekProgressStart: real
    var wasPlayingBeforeSeek: bool

    // the auto-hide timer: the handle the component keeps, the runtime's next handle,
    // and the hides the runtime has pending (handle to delay)
    var controlsTimeout: Option<nat>
    var nextTimerHandle: nat
    ghost var pendingHides: map<nat, nat>

    /** The calls made on the native video element, oldest first. */
    ghost var requests: seq<PlayerRequest>

    function Anchors(): Gesture
      reads this
    {
      Gesture(seekTouchStart, seekProgressStart, wasPlayingBeforeSeek, seekBarWidth)
    }

    ghost function TimerState(): ControlsTimer.Timers
      reads this
    {
      ControlsTimer.Timers(controlsTimeout, nextTimerHandle, pendingHides)
    }

    /** At most one hide is pending, and it is the one `controlsTimeout` holds. */
    ghost predicate Valid()
      reads this
    {
      ControlsTimer.Valid(TimerState())
    }

    /** What `renderContent` currently draws. */
    function CurrentView(): View
      reads this
    {
      SelectView(state, config.hasThumbnail, config.hasEndThumbnail)
    }

    /** `this.player` is set exactly while the video view, which holds the native element, is drawn. */
    predicate PlayerAttached()
      reads this
    {
      CurrentView().VideoView?
    }

    constructor (config: Config)
      ensures this.config == config && Valid()
      ensures state == Initial(config) && Anchors() == InitialGesture(config)
      ensures TimerState() == ControlsTimer.Initial() && requests == []
    {
      this.config := config;
      state := UiState(config.autoplay, config.autoplay, false, config.defaultMuted, false,
                       !config.hideControlsOnStart, 0.0, 0.0, 0.0);
      seekBarWidth, seekTouchStart, seekProgressStart := 200.0, 0.0, 0.0;
      wasPlayingBeforeSeek := config.autoplay;
      controlsTimeout, nextTimerHandle, pendingHides := None, 1, map[];
      requests := [];
    }

    /** `hideControls`: (re)schedule the auto-hide unless it is disabled. */
    method HideControls()
      requires Valid()
      modifies this
      ensures Valid()
      ensures state == old(state) && Anchors() == old(Anchors()) && requests == old(requests)
      ensures TimerState()
           == ControlsTimer.ScheduleHide(old(TimerState()), config.disableControlsAutoHide, config.controlsTimeout)
    {
      if config.disableControlsAutoHide {
        return;
      }
      if controlsTimeout.Some? {
        pendingHides := pendingHides - {controlsTimeout.value};
        controlsTimeout := None;
      }
      controlsTimeout := Some(nextTimerHandle);
      pendingHides := pendingHides[nextTimerHandle := config.controlsTimeout];
      nextTimerHandle := nextTimerHandle + 1;
    }

    /** `showControls`: show the controls and reschedule their hiding. */
    method ShowControls()
      requires Valid()
      modifies this
      ensures Valid()
      ensures state == ControlsShown(old(state))
      ensures Anchors() == old(Anchors()) && requests == old(requests)
      ensures TimerState()
           == ControlsTimer.ScheduleHide(old(TimerState()), config.disableControlsAutoHide, config.controlsTimeout)
    {
      state := state.(isControlsVisible := true);
      HideControls();
    }

    /** The runtime runs the pending hide `h`. */
    method FireTimer(h: nat)
      requires Valid() && h in pendingHides
      modifies this
      ensures Valid()
      ensures state == ControlsHidden(old(state))
      ensures Anchors() == old(Anchors()) && requests == old(requests)
      ensures TimerState() == ControlsTimer.Fire(old(TimerState()), h)
    {
      state := state.(isControlsVisible := false);
      pendingHides := pendingHides - {h};
    }

    /** `componentDidMount`: an autoplaying player schedules the hiding of its controls. */
    method ComponentDidMount()
      requires Valid()
      modifies this
      ensures Valid()
      ensures state == old(state) && Anchors() == old(Anchors()) && requests == old(requests)
      ensures TimerState() == if config.autoplay
        then ControlsTimer.ScheduleHide(old(TimerState()), config.disableControlsAutoHide, config.controlsTimeout)
        else old(TimerState())
    {
      if config.autoplay {
        HideControls();
      }
    }

    /** `componentWillUnmount`: cancel the pending hide. */
    method ComponentWillUnmount()
      requires Valid()
      modifies this
      ensures Valid()
      ensures state == old(state) && Anchors() == old(Anchors()) && requests == old(requests)
      ensures TimerState() == ControlsTimer.Cancel(old(TimerState()))
    {
      if controlsTimeout.Some? {
        pendingHides := pendingHides - {controlsTimeout.value};
        controlsTimeout := None;
      }
    }

    method OnStartPress()
      requires Valid()
      modifies this
      ensures Valid()
      ensures state == StartPressed(old(state))
      ensures Anchors() == old(Anchors()) && requests == old(requests)
      ensures TimerState()
           == ControlsTimer.ScheduleHide(old(TimerState()), config.disableControlsAutoHide, config.controlsTimeout)
    {
      state := state.(isPlaying := true, isStarted := true, hasEnded := false,
                      progress := if state.progress == 1.0 then 0.0 else state.progress);
      HideControls();
    }

    /** `onProgress` with the reported playback time. */
    method OnProgress(time: real)
      requires Valid()
      requires state.isSeeking || EffectiveDuration(config.duration, state.duration) != 0.0
      modifies this
      ensures Valid()
      ensures state == Progressed(old(state), time, config.duration)
      ensures Anchors() == old(Anchors()) && requests == old(requests)
      ensures TimerState() == old(TimerState())
    {
      if state.isSeeking {
        return;
      }
      state := state.(progress := time / EffectiveDuration(config.duration, state.duration),
                      currentTime := time);
    }

    /** `onLoad` with the duration the native element reports. */
    method OnLoad(reported: real)
      requires Valid()
      modifies this
      ensures Valid()
      ensures state == Loaded(old(state), reported)
      ensures Anchors() == old(Anchors()) && requests == old(requests)
      ensures TimerState() == old(TimerState())
    {
      state := state.(duration := reported);
    }

    /**
     * `onEnd`, raised by the native element while it is drawn. The seek to 0 without
     * `loop` runs once the update is rendered, and only if the element is still there.
     */
    method OnEnd()
      requires Valid() && PlayerAttached()
      modifies this
      ensures Valid()
      ensures state == Ended(old(state), EndsWithThumbnail(config), config.loop)
      ensures PlayerAttached() <==> !EndsWithThumbnail(config)
      ensures requests == old(requests) + EndRequests(EndsWithThumbnail(config), config.loop)
      ensures Anchors() == old(Anchors()) && TimerState() == old(TimerState())
    {
      var thumb := config.endWithThumbnail || config.hasEndThumbnail;
      if thumb {
        state := state.(isStarted := false, hasEnded := true);
        requests := requests + [DismissFullscreen];
      }
      state := state.(progress := 1.0);
      if !config.loop {
        state := state.(isPlaying := false);
        SeekToStartIfAttached();
      } else {
        requests := requests + [SeekTo(0.0)];
      }
    }

    /** The callback `onEnd` passes with its update: `this.player && this.player.seek(0)`. */
    method SeekToStartIfAttached()
      requires Valid()
      modifies this
      ensures Valid()
      ensures requests == old(requests) + (if PlayerAttached() then [SeekTo(0.0)] else [])
      ensures state == old(state) && Anchors() == old(Anchors()) && TimerState() == old(TimerState())
    {
      if PlayerAttached() {
        requests := requests + [SeekTo(0.0)];
      }
    }

    method OnPlayPress()
      requires Valid()
      modifies this
      ensures Valid()
      ensures state == PlayToggled(old(state))
      ensures Anchors() == old(Anchors()) && requests == old(requests)
      ensures TimerState()
           == ControlsTimer.ScheduleHide(old(TimerState()), config.disableControlsAutoHide, config.controlsTimeout)
    {
      state := state.(isPlaying := !state.isPlaying);
      ShowControls();
    }

    method OnMutePress()
      requires Valid()
      modifies this
      ensures Valid()
      ensures state == MuteToggled(old(state))
      ensures Anchors() == old(Anchors()) && requests == old(requests)
      ensures TimerState()
           == ControlsTimer.ScheduleHide(old(TimerState()), config.disableControlsAutoHide, config.controlsTimeout)
    {
      state := state.(isMuted := !state.isMuted);
      ShowControls();
    }

    /** `onToggleFullScreen`, pressed in the controls of the video view. */
    method OnToggleFullScreen()
      requires Valid() && PlayerAttached()
      modifies this
      ensures Valid()
      ensures state == old(state) && Anchors() == old(Anchors()) && TimerState() == old(TimerState())
      ensures requests == old(requests) + [PresentFullscreen]
    {
      requests := requests + [PresentFullscreen];
    }

    /** `onFullscreenPlayerWillDismiss`: leaving fullscreen pauses a playing video. */
    method OnFullscreenPlayerWillDismiss()
      requires Valid()
      modifies this
      ensures Valid()
      ensures state == FullscreenDismissing(old(state))
      ensures Anchors() == old(Anchors()) && requests == old(requests) && TimerState() == old(TimerState())
    {
      if state.isPlaying {
        state := state.(isPlaying := false);
      }
    }

    /** A press on the video surface. */
    method OnOverlayPress()
      requires Valid()
      modifies this
      ensures Valid()
      ensures state == OverlayPressed(old(state), config.pauseOnPress)
      ensures Anchors() == old(Anchors()) && requests == old(requests)
      ensures TimerState() == (
        var once := ControlsTimer.ScheduleHide(old(TimerState()), config.disableControlsAutoHide, config.controlsTimeout);
        if config.pauseOnPress
        then ControlsTimer.ScheduleHide(once, config.disableControlsAutoHide, config.controlsTimeout)
        else once)
    {
      ShowControls();
      if config.pauseOnPress {
        OnPlayPress();
      }
    }

    /** `onSeekBarLayout` with the measured width of the seek bar. */
    method OnSeekBarLayout(layoutWidth: real)
      requires Valid()
      modifies this
      ensures Valid()
      ensures Anchors() == old(Anchors()).(barWidth := TrackWidth(config.seekBarStyle, layoutWidth))
      ensures state == old(state) && requests == old(requests) && TimerState() == old(TimerState())
    {
      seekBarWidth := TrackWidth(config.seekBarStyle, layoutWidth);
    }

    /** `onSeekGrant` for a touch at `pageX`: remember where and what, then stop playing. */
    method OnSeekGrant(pageX: real)
      requires Valid()
      modifies this
      ensures Valid()
      ensures Anchors() == GrantAnchors(old(Anchors()), old(state), pageX)
      ensures state == SeekGranted(old(state))
      ensures requests == old(requests) && TimerState() == old(TimerState())
    {
      seekTouchStart := pageX;
      seekProgressStart := state.progress;
      wasPlayingBeforeSeek := state.isPlaying;
      state := state.(isSeeking := true, isPlaying := false);
    }

    /** `onSeek` for a touch at `pageX`: set the dragged progress and seek the video there. */
    method OnSeek(pageX: real)
      requires Valid() && PlayerAttached() && seekBarWidth != 0.0
      modifies this
      ensures Valid()
      ensures state == Seeked(old(state), old(Anchors()), pageX)
      ensures requests == old(requests) + [SeekTo(SeekTime(state.progress, state.duration))]
      ensures Anchors() == old(Anchors()) && TimerState() == old(TimerState())
    {
      var progress := DragProgress(seekProgressStart, seekTouchStart, pageX, seekBarWidth);
      state := state.(progress := progress);
      requests := requests + [SeekTo(SeekTime(progress, state.duration))];
    }

    /** `onSeekRelease`, also run when the system terminates the gesture. */
    method OnSeekRelease()
      requires Valid()
      modifies this
      ensures Valid()
      ensures state == SeekReleased(old(state), old(Anchors()))
      ensures Anchors() == old(Anchors()) && requests == old(requests)
      ensures TimerState()
           == ControlsTimer.ScheduleHide(old(TimerState()), config.disableControlsAutoHide, config.controlsTimeout)
    {
      state := state.(isSeeking := false, isPlaying := wasPlayingBeforeSeek);
      ShowControls();
    }

    /** The `getCurrentTime` handle. */
    method GetCurrentTime() returns (t: real)
      ensures t == state.currentTime
    {
      t := state.currentTime;
    }

    /** The `seek` handle. */
    method Seek(t: real)
      requires Valid() && PlayerAttached()
      modifies this
      ensures Valid()
      ensures requests == old(requests) + [SeekTo(t)]
      ensures state == old(state) && Anchors() == old(Anchors()) && TimerState() == old(TimerState())
    {
      requests := requests + [SeekTo(t)];
    }

    /** The `stop` handle: pause, rewind, seek the video to 0 and show the controls. */
    method Stop()
      requires Valid() && PlayerAttached()
      modifies this
      ensures Valid()
      ensures state == Stopped(old(state))
      ensures requests == old(requests) + [SeekTo(0.0)]
      ensures Anchors() == old(Anchors())
      ensures TimerState()
           == ControlsTimer.ScheduleHide(old(TimerState()), config.disableControlsAutoHide, config.controlsTimeout)
    {
      state := state.(isPlaying := false, progress := 0.0);
      Seek(0.0);
      ShowControls();
    }

    /** The `pause` handle. */
    method Pause()
      requires Valid()
      modifies this
      ensures Valid()
      ensures state == Paused(old(state))
      ensures Anchors() == old(Anchors()) && requests == old(requests)
      ensures TimerState()
           == ControlsTimer.ScheduleHide(old(TimerState()), config.disableControlsAutoHide, config.controlsTimeout)
    {
      state := state.(isPlaying := false);
      ShowControls();
    }

    /** The `resume` handle. */
    method Resume()
      requires Valid()
      modifies this
      ensures Valid()
      ensures state == Resumed(old(state))
      ensures Anchors() == old(Anchors()) && requests == old(requests)
      ensures TimerState()
           == ControlsTimer.ScheduleHide(old(TimerState()), config.disableControlsAutoHide, config.controlsTimeout)
    {
      state := state.(isPlaying := true);
      ShowControls();
    }
  }
}
