/** Client code that drives a player through typical uses. */
module Scenarios {
  import opened Props
  import opened SeekBar
  import opened Render
  import opened Player
  import TimeFormat

  /** A 120 s video reported at 60 s is half way, and its label reads `01:00`. */
  method HalfwayProgress() {
    var p := new VideoPlayer(DefaultConfig());
    p.OnLoad(120.0);
    p.OnProgress(60.0);
    assert p.state.progress == 0.5 && p.state.currentTime == 60.0;
    TimeFormat.FormatTimeExamples();
    assert TimeFormat.FormatTime(60) == "01:00";
  }

  /** Ending on a thumbnail leaves fullscreen and draws the placeholder; no seek is sent. */
  method EndOnThumbnail() {
    var p := new VideoPlayer(DefaultConfig().(endWithThumbnail := true));
    p.OnStartPress();
    p.OnEnd();
    assert !p.state.isStarted && p.state.hasEnded && !p.state.isPlaying;
    assert p.requests == [DismissFullscreen];
    assert p.CurrentView() == PlaceholderView;
  }

  /** A finished video rewinds on the native element and replays from 0 on start. */
  method ReplayFromEnd() {
    var p := new VideoPlayer(DefaultConfig().(autoplay := true));
    p.OnLoad(10.0);
    p.OnProgress(10.0);
    p.OnEnd();
    assert p.state.progress == 1.0 && !p.state.isPlaying;
    assert p.requests == [SeekTo(0.0)];
    p.OnStartPress();
    assert p.state.progress == 0.0 && p.state.isPlaying;
  }

  /** With auto-hide disabled no hide is ever pending, so the controls stay visible. */
  method AutoHideDisabled() {
    var p := new VideoPlayer(DefaultConfig().(disableControlsAutoHide := true));
    p.OnStartPress();
    assert p.state.isControlsVisible && p.pendingHides == map[];
  }

  /** Showing the controls twice leaves one hide pending, the second; firing it hides them. */
  method ShowTwice() {
    var p := new VideoPlayer(DefaultConfig());
    p.ShowControls();
    var first := p.controlsTimeout.value;
    p.ShowControls();
    var second := p.controlsTimeout.value;
    assert first !in p.pendingHides && p.pendingHides == map[second := 2000];
    p.FireTimer(second);
    assert !p.state.isControlsVisible && p.pendingHides == map[];
    p.ComponentWillUnmount();
    assert p.pendingHides == map[] && p.controlsTimeout == None;
  }

  /**
   * A grant, any number of moves and a release restore the play state of the grant, keep
   * the earlier requests and append one seek per move, to the time that move's drag selects.
   */
  method SeekGesture(p: VideoPlayer, pageX: real, moves: seq<real>)
    requires p.Valid() && p.PlayerAttached() && p.seekBarWidth != 0.0
    modifies p
    ensures p.Valid() && p.state.isPlaying == old(p.state.isPlaying) && !p.state.isSeeking
    ensures |p.requests| == |old(p.requests)| + |moves|
    ensures p.requests[..|old(p.requests)|] == old(p.requests)
    ensures forall k :: 0 <= k < |moves| ==>
      p.requests[|old(p.requests)| + k]
      == SeekTo(SeekTime(DragProgress(old(p.state.progress), pageX, moves[k], old(p.seekBarWidth)),
                         old(p.state.duration)))
  {
    p.OnSeekGrant(pageX);
    var i := 0;
    while i < |moves|
      invariant 0 <= i <= |moves|
      invariant p.Valid() && p.PlayerAttached() && p.seekBarWidth != 0.0
      invariant p.wasPlayingBeforeSeek == old(p.state.isPlaying)
      invariant p.state.isSeeking && !p.state.isPlaying
      invariant |p.requests| == |old(p.requests)| + i
      invariant p.requests[..|old(p.requests)|] == old(p.requests)
      invariant p.seekTouchStart == pageX && p.seekProgressStart == old(p.state.progress)
      invariant p.seekBarWidth == old(p.seekBarWidth) && p.state.duration == old(p.state.duration)
      invariant forall k :: 0 <= k < i ==>
        p.requests[|old(p.requests)| + k]
        == SeekTo(SeekTime(DragProgress(old(p.state.progress), pageX, moves[k], old(p.seekBarWidth)),
                           old(p.state.duration)))
    {
      p.OnSeek(moves[i]);
      i := i + 1;
    }
    p.OnSeekRelease();
  }
}
