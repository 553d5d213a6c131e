/** The seek bar's geometry: the width of its track and the progress a drag selects. */
module SeekBar {
  import opened Props

  /** The padding one side of the track gets: `paddingHorizontal` wins when it is truthy. */
  function SidePadding(horizontal: Option<real>, side: Option<real>): real {
    if Truthy(horizontal) then horizontal.value else OrElse(side, 0.0)
  }

  /**
   * The horizontal padding `onSeekBarLayout` subtracts from the measured width. Without a
   * custom style it is 20, the two sides of the built-in style.
   */
  function Padding(style: Option<SeekBarStyle>): (p: real)
    ensures style.Some? ==>
      p == SidePadding(style.value.paddingHorizontal, style.value.paddingLeft)
         + SidePadding(style.value.paddingHorizontal, style.value.paddingRight)
    ensures style.None? ==>
      p == 2.0 * DefaultSeekBarStyle().paddingHorizontal.value
  {
    match style
    case None => 20.0
    case Some(st) =>
      if Truthy(st.paddingHorizontal) then st.paddingHorizontal.value * 2.0
      else OrElse(st.paddingLeft, 0.0) + (if Truthy(st.paddingRight) then st.paddingRight.value else 0.0)
  }

  /** The track width that `onSeekBarLayout` stores, for a measured bar width. */
  function TrackWidth(style: Option<SeekBarStyle>, layoutWidth: real): (w: real)
    ensures w + Padding(style) == layoutWidth
  {
    layoutWidth - Padding(style)
  }

  /** Swapping the left and right paddings leaves the track width unchanged. */
  lemma TrackWidthSymmetric(h: Option<real>, l: Option<real>, r: Option<real>, layoutWidth: real)
    ensures TrackWidth(Some(SeekBarStyle(h, l, r)), layoutWidth)
         == TrackWidth(Some(SeekBarStyle(h, r, l)), layoutWidth)
  {
  }

  /** A horizontal padding of 0 counts as absent: the left and right entries decide. */
  lemma ZeroHorizontalPaddingIgnored(l: Option<real>, r: Option<real>, layoutWidth: real)
    ensures TrackWidth(Some(SeekBarStyle(Some(0.0), l, r)), layoutWidth)
         == TrackWidth(Some(SeekBarStyle(None, l, r)), layoutWidth)
  {
  }

  /**
   * The progress `onSeek` selects for a touch at `pageX`, from the anchors of the gesture:
   * `progressStart + (100 / barWidth) * (pageX - touchStart) / 100`.
   */
  function DragProgress(progressStart: real, touchStart: real, pageX: real, barWidth: real): (p: real)
    requires barWidth != 0.0
    ensures p == progressStart + (pageX - touchStart) / barWidth
  {
    var diff := pageX - touchStart;
    var ratio := 100.0 / barWidth;
    progressStart + (ratio * diff) / 100.0
  }

  /** The time `onSeek` seeks the native element to: the progress times the reported duration. */
  function SeekTime(progress: real, duration: real): real {
    progress * duration
  }

  /** A touch that has not moved selects the progress the gesture started from. */
  lemma DragProgressAtAnchor(progressStart: real, touchStart: real, barWidth: real)
    requires barWidth != 0.0
    ensures DragProgress(progressStart, touchStart, touchStart, barWidth) == progressStart
  {
  }

  /**
   * The progress is linear in the drag distance and does not depend on the path: two
   * touches differ in progress by their distance in track widths.
   */
  lemma DragProgressLinear(progressStart: real, touchStart: real, x1: real, x2: real, barWidth: real)
    requires barWidth != 0.0
    ensures DragProgress(progressStart, touchStart, x2, barWidth)
          - DragProgress(progressStart, touchStart, x1, barWidth) == (x2 - x1) / barWidth
  {
  }

  /** The progress is not clamped: dragging past either end of the track leaves [0, 1]. */
  lemma DragProgressUnclamped()
    ensures DragProgress(0.75, 100.0, 180.0, 200.0) == 1.15
    ensures DragProgress(0.25, 100.0, 20.0, 200.0) == -0.15
  {
  }
}
