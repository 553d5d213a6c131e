/** The host-supplied configuration (props) of the video player, as far as behaviour depends on it. */
module Props {

  datatype Option<+T> = None | Some(value: T)

  /** JavaScript truthiness of an optional number: an absent value and 0 are falsy. */
  predicate Truthy(n: Option<real>) {
    n.Some? && n.value != 0.0
  }

  /** The JavaScript expression `n || fallback` for an optional number. */
  function OrElse(n: Option<real>, fallback: real): real {
    if Truthy(n) then n.value else fallback
  }

  /** The padding entries of `customStyles.seekBar` that the seek bar layout reads. */
  datatype SeekBarStyle = SeekBarStyle(
    paddingHorizontal: Option<real>,
    paddingLeft: Option<real>,
    paddingRight: Option<real>)

  /** The built-in seek bar style, whose horizontal padding is 10 on either side. */
  function DefaultSeekBarStyle(): SeekBarStyle {
    SeekBarStyle(Some(10.0), None, None)
  }

  /**
   * The props. Boolean flags that the host leaves out are `false`; `hasThumbnail` and
   * `hasEndThumbnail` say whether a (truthy) image source was given; `duration` is the
   * optional `duration` prop; `seekBarStyle` is `customStyles.seekBar`.
   */
  datatype Config = Config(
    autoplay: bool,
    defaultMuted: bool,
    hideControlsOnStart: bool,
    loop: bool,
    endWithThumbnail: bool,
    hasThumbnail: bool,
    hasEndThumbnail: bool,
    disableControlsAutoHide: bool,
    pauseOnPress: bool,
    disableSeek: bool,
    duration: Option<real>,
    controlsTimeout: nat,
    seekBarStyle: Option<SeekBarStyle>)

  /** The configuration a host gets by passing no optional props at all. */
  function DefaultConfig(): Config {
    Config(false, false, false, false, false, false, false, false, false, false, None, 2000, None)
  }

  /** Playback ends on a thumbnail when `endWithThumbnail` or an `endThumbnail` image is given. */
  predicate EndsWithThumbnail(c: Config) {
    c.endWithThumbnail || c.hasEndThumbnail
  }
}
