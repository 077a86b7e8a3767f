/** The scheduler drift monitor: on every pass it measures the time since
    the previous pass and raises a latched warning, stamped with the time it
    was raised, when that interval leaves the accepted window around the
    nominal period. Only an explicit acknowledgement clears the warning. */
module TaskManagerMonitor {
  import opened Uint

  const EVENT_MANAGER_MIN_PERIOD_MS: nat := 1500
  const EVENT_MANAGER_MAX_PERIOD_MS: nat := 2500

  predicate InRange(delta: u32)
  {
    EVENT_MANAGER_MIN_PERIOD_MS <= delta <= EVENT_MANAGER_MAX_PERIOD_MS
  }

  /** The monitor's three fields. */
  datatype Watch = Watch(lastCallMs: u32, warningActive: bool, warningTimestampMs: u32)

  /** evaluateDelta at `now`. A zero `lastCallMs` means no previous pass. */
  function Evaluate(w: Watch, now: u32): Watch
  {
    if w.lastCallMs == 0 then w
    else if !InRange(Sub32(now, w.lastCallMs)) && !w.warningActive then w.(warningActive := true, warningTimestampMs := now)
    else w
  }

  /** notifyCall at `now`: evaluate, then remember the pass. */
  function Notify(w: Watch, now: u32): (r: Watch)
    ensures r.lastCallMs == now
  {
    Evaluate(w, now).(lastCallMs := now)
  }

  /** notifyCall at each of the times `nows`, in order. */
  function NotifyAll(w: Watch, nows: seq<u32>): (r: Watch)
    decreases |nows|
  {
    if nows == [] then w else Notify(NotifyAll(w, nows[..|nows| - 1]), nows[|nows| - 1])
  }

  /** One evaluation: the warning is raised exactly when there was a
      previous pass, the interval is out of the window and no warning is
      up; it is then stamped with `now`. Nothing else ever changes. */
  lemma EvaluateRaises(w: Watch, now: u32)
    ensures var r := Evaluate(w, now);
      && r.lastCallMs == w.lastCallMs
      && (r.warningActive && !w.warningActive
          <==> w.lastCallMs != 0 && !w.warningActive && !InRange(Sub32(now, w.lastCallMs)))
      && (r.warningActive && !w.warningActive ==> r.warningTimestampMs == now)
      && (!(r.warningActive && !w.warningActive) ==> r == w)
  {
  }

  /** The warning is latched: once up, any number of passes, in or out of
      the window, leave it up with its original timestamp. */
  lemma {:induction false} Latched(w: Watch, nows: seq<u32>)
    requires w.warningActive
    ensures NotifyAll(w, nows).warningActive
    ensures NotifyAll(w, nows).warningTimestampMs == w.warningTimestampMs
    decreases |nows|
  {
    if nows != [] {
      Latched(w, nows[..|nows| - 1]);
    }
  }

  /** The interval before the pass at `nows[k]`; the first pass follows `last`. */
  function Gap(last: u32, nows: seq<u32>, k: nat): u32
    requires k < |nows|
  {
    Sub32(nows[k], if k == 0 then last else nows[k - 1])
  }

  /** Passes spaced within the window never raise the warning. */
  lemma {:induction false} RegularStaysQuiet(w: Watch, nows: seq<u32>)
    requires !w.warningActive
    requires forall k :: 0 <= k < |nows| ==> InRange(Gap(w.lastCallMs, nows, k))
    ensures !NotifyAll(w, nows).warningActive
    ensures NotifyAll(w, nows).warningTimestampMs == w.warningTimestampMs
    ensures nows != [] ==> NotifyAll(w, nows).lastCallMs == nows[|nows| - 1]
    decreases |nows|
  {
    if nows != [] {
      var n := |nows| - 1;
      var init := nows[..n];
      forall k | 0 <= k < |init|
        ensures InRange(Gap(w.lastCallMs, init, k))
      {
        assert Gap(w.lastCallMs, init, k) == Gap(w.lastCallMs, nows, k);
      }
      RegularStaysQuiet(w, init);
      assert InRange(Gap(w.lastCallMs, nows, n));
    }
  }

  /** A raised warning carries the time of a pass whose interval since the
      previous pass was out of the window. */
  lemma {:induction false} RaisedAtOutlier(w: Watch, nows: seq<u32>)
    requires !w.warningActive && NotifyAll(w, nows).warningActive
    ensures exists k :: (0 <= k < |nows| && NotifyAll(w, nows).warningTimestampMs == nows[k]
                         && !InRange(Sub32(nows[k], NotifyAll(w, nows[..k]).lastCallMs)))
    decreases |nows|
  {
    var n := |nows| - 1;
    var init := nows[..n];
    var u := NotifyAll(w, init);
    assert nows[..n] == init;
    if u.warningActive {
      RaisedAtOutlier(w, init);
      var k :| 0 <= k < |init| && u.warningTimestampMs == init[k]
        && !InRange(Sub32(init[k], NotifyAll(w, init[..k]).lastCallMs));
      assert init[..k] == nows[..k];
      assert NotifyAll(w, nows).warningTimestampMs == u.warningTimestampMs;
    } else {
      assert NotifyAll(w, nows).warningTimestampMs == nows[n];
    }
  }

  class Monitor {
    var lastCallMs: u32
    var warningActive: bool
    var warningTimestampMs: u32
    /** The intervals handed to the data logger, one per raised warning. */
    var logged: seq<u32>

    function Snap(): Watch
      reads this
    {
      Watch(lastCallMs, warningActive, warningTimestampMs)
    }

    /** The static initialisers. */
    constructor ()
      ensures Snap() == Watch(0, false, 0) && logged == []
    {
      lastCallMs, warningActive, warningTimestampMs := 0, false, 0;
      logged := [];
    }

    method Init(now: u32)
      modifies this`lastCallMs, this`warningActive, this`warningTimestampMs
      ensures Snap() == Watch(now, false, 0)
    {
      lastCallMs := now;
      warningActive := false;
      warningTimestampMs := 0;
    }

    method EvaluateDelta(now: u32)
      modifies this`warningActive, this`warningTimestampMs, this`logged
      ensures Snap() == Evaluate(old(Snap()), now)
      ensures logged == old(logged) + (if warningActive && !old(warningActive) then [Sub32(now, lastCallMs)] else [])
    {
      if lastCallMs == 0 {
        return;
      }
      var delta := Sub32(now, lastCallMs);
      var inRange := EVENT_MANAGER_MIN_PERIOD_MS <= delta && delta <= EVENT_MANAGER_MAX_PERIOD_MS;
      if !inRange && !warningActive {
        warningActive := true;
        warningTimestampMs := now;
        logged := logged + [delta];
      }
    }

    method NotifyCall(now: u32)
      modifies this`lastCallMs, this`warningActive, this`warningTimestampMs, this`logged
      ensures Snap() == Notify(old(Snap()), now)
    {
      EvaluateDelta(now);
      lastCallMs := now;
    }

    function IsWarningActive(): (b: bool)
      reads this
      ensures b == Snap().warningActive
    {
      warningActive
    }

    function GetWarningTimestampMs(): (t: u32)
      reads this
      ensures t == Snap().warningTimestampMs
    {
      warningTimestampMs
    }

    method AcknowledgeWarning()
      modifies this`warningActive, this`warningTimestampMs
      ensures Snap() == Watch(old(lastCallMs), false, 0)
    {
      warningActive := false;
      warningTimestampMs := 0;
    }
  }
}
