/** Which view `renderContent` draws, and which bar the video view shows. */
module Render {
  import opened PlayerState

  /** Inside the video view: the full controls, or the thin full-width progress bar only. */
  datatype Controls = FullControls | ThinBar

  datatype View = EndThumbnailView | StartThumbnailView | PlaceholderView | VideoView(controls: Controls)

  /** `renderContent`, with the controls choice of `renderVideo`; the first match wins. */
  function SelectView(s: UiState, hasThumbnail: bool, hasEndThumbnail: bool): (v: View)
    ensures v == EndThumbnailView <==> s.hasEnded && hasEndThumbnail
    ensures v == StartThumbnailView <==> !(s.hasEnded && hasEndThumbnail) && !s.isStarted && hasThumbnail
    ensures v == PlaceholderView <==> !(s.hasEnded && hasEndThumbnail) && !s.isStarted && !hasThumbnail
    ensures v.VideoView? <==> s.isStarted && !(s.hasEnded && hasEndThumbnail)
    ensures v.VideoView? ==> (v.controls == FullControls <==> !s.isPlaying || s.isControlsVisible)
  {
    if s.hasEnded && hasEndThumbnail then EndThumbnailView
    else if !s.isStarted && hasThumbnail then StartThumbnailView
    else if !s.isStarted then PlaceholderView
    else VideoView(if !s.isPlaying || s.isControlsVisible then FullControls else ThinBar)
  }

  /** The seek knob, which takes the touch gesture, is drawn only in the full controls. */
  predicate SeekKnobShown(v: View, disableSeek: bool) {
    v == VideoView(FullControls) && !disableSeek
  }

  /** A paused video always shows the full controls, hidden or not. */
  lemma PausedShowsControls(s: UiState, hasThumbnail: bool, hasEndThumbnail: bool)
    requires !s.isPlaying && SelectView(s, hasThumbnail, hasEndThumbnail).VideoView?
    ensures SelectView(s, hasThumbnail, hasEndThumbnail) == VideoView(FullControls)
    ensures SelectView(ControlsHidden(s), hasThumbnail, hasEndThumbnail) == VideoView(FullControls)
  {
  }

  /** Pressing start leaves the thumbnail or placeholder for the video. */
  lemma StartShowsVideo(s: UiState, hasThumbnail: bool, hasEndThumbnail: bool)
    ensures SelectView(StartPressed(s), hasThumbnail, hasEndThumbnail).VideoView?
  {
  }

  /**
   * The end of a video that is on screen leaves it on screen exactly when playback does not
   * end with a thumbnail; with an end thumbnail image that image is shown.
   */
  lemma EndedView(s: UiState, hasThumbnail: bool, hasEndThumbnail: bool, endWithThumbnail: bool, loop: bool)
    requires SelectView(s, hasThumbnail, hasEndThumbnail).VideoView?
    ensures var thumb := endWithThumbnail || hasEndThumbnail;
      var v := SelectView(Ended(s, thumb, loop), hasThumbnail, hasEndThumbnail);
      (v.VideoView? <==> !thumb)
      && (hasEndThumbnail ==> v == EndThumbnailView)
      && (thumb && !hasEndThumbnail ==> v == (if hasThumbnail then StartThumbnailView else PlaceholderView))
  {
  }

  /** While playing with the controls hidden only the thin bar is drawn and no seek can begin. */
  lemma HiddenControlsHaveNoKnob(s: UiState, hasThumbnail: bool, hasEndThumbnail: bool, disableSeek: bool)
    requires s.isPlaying && !s.isControlsVisible
    ensures !SeekKnobShown(SelectView(s, hasThumbnail, hasEndThumbnail), disableSeek)
  {
  }
}
