/**
 * The auto-hide timer of the controls: the component's `controlsTimeout` handle, the
 * runtime's handle counter, and the hides the runtime has pending (handle to delay in ms).
 */
module ControlsTimer {
  import opened Props

  datatype Timers = Timers(handle: Option<nat>, next: nat, pending: map<nat, nat>)

  /** Every pending hide is the one the component holds, and handles are fresh and truthy. */
  predicate Valid(t: Timers) {
    (forall h :: h in t.pending ==> t.handle == Some(h))
    && (t.handle.Some? ==> 0 < t.handle.value < t.next)
    && t.next > 0
  }

  function Initial(): (t: Timers)
    ensures Valid(t) && t.pending == map[]
  {
    Timers(None, 1, map[])
  }

  /** The single-timer rule: at most one hide is ever pending. */
  lemma AtMostOnePending(t: Timers)
    requires Valid(t)
    ensures |t.pending| <= 1
  {
    var keys := t.pending.Keys;
    assert |t.pending| == |keys|;
    if t.handle.Some? && t.handle.value in keys {
      assert keys == {t.handle.value};
    } else {
      assert keys == {};
    }
  }

  /**
   * `hideControls`: nothing when auto-hide is disabled; otherwise cancel the hide the
   * component holds and schedule a fresh one after `delay`.
   */
  function ScheduleHide(t: Timers, autoHideDisabled: bool, delay: nat): (r: Timers)
    requires Valid(t)
    ensures Valid(r)
    ensures autoHideDisabled ==> r == t
    ensures !autoHideDisabled ==>
      r.handle.Some? && r.handle.value !in t.pending && r.pending == map[r.handle.value := delay]
    ensures !autoHideDisabled && t.handle.Some? ==> r.handle.value > t.handle.value
  {
    if autoHideDisabled then t
    else
      var cleared := if t.handle.Some? then t.pending - {t.handle.value} else t.pending;
      assert cleared == map[];
      Timers(Some(t.next), t.next + 1, cleared[t.next := delay])
  }

  /** The runtime firing the pending hide `h`; the component keeps the stale handle. */
  function Fire(t: Timers, h: nat): (r: Timers)
    requires Valid(t) && h in t.pending
    ensures Valid(r) && r.pending == map[] && r.handle == t.handle
  {
    t.(pending := t.pending - {h})
  }

  /** `componentWillUnmount`: cancel and drop the handle, so no hide can fire afterwards. */
  function Cancel(t: Timers): (r: Timers)
    requires Valid(t)
    ensures Valid(r) && r.handle.None? && r.pending == map[]
  {
    if t.handle.Some? then Timers(None, t.next, t.pending - {t.handle.value}) else t
  }

  /**
   * Showing the controls twice in a row leaves exactly one hide pending, the one the
   * second call scheduled; the first can no longer fire.
   */
  lemma SecondScheduleSupersedes(t: Timers, delay: nat)
    requires Valid(t)
    ensures var t1 := ScheduleHide(t, false, delay);
      var t2 := ScheduleHide(t1, false, delay);
      t1.handle.value !in t2.pending && t2.pending == map[t2.handle.value := delay]
  {
  }
}
