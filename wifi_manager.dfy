/** WiFi policy: the access point is always started at boot and can only be
    switched off; the station interface, when enabled in the preferences,
    is (re)connected no more often than every WIFI_STA_RETRY_INTERVAL ms.
    The WiFi library's connection status is an input; the calls made to it
    are recorded as actions. */
module WifiManager {
  import opened Uint

  const WIFI_STA_RETRY_INTERVAL: nat := 5000

  /** The WiFi library calls that change the radio. */
  datatype Action = Disconnect | Begin | StopAp

  datatype Option<T> = None | Some(value: T)

  /** The manager's flags, the time of the last station attempt, and the
      library calls made so far. */
  datatype Radio = Radio(staEnabled: bool, staConnecting: bool, staConnected: bool, apEnabled: bool,
                         lastStaAttempt: u32, actions: seq<Action>)

  /** The static initialisers. */
  function Initial(): Radio
  {
    Radio(true, false, false, true, 0, [])
  }

  /** loadPreferences: the stored "sta" flag, true when none is stored. */
  function Loaded(r: Radio, stored: Option<bool>): Radio
  {
    r.(staEnabled := if stored.Some? then stored.value else true)
  }

  /** startWiFi at machine time `now`. */
  function Started(r: Radio, now: u32): Radio
  {
    var a := r.(apEnabled := true);
    if a.staEnabled then a.(staConnecting := true, staConnected := false, lastStaAttempt := now, actions := a.actions + [Begin])
    else a
  }

  /** handle at machine time `now`, with the station `connected` or not. */
  function Handled(r: Radio, now: u32, connected: bool): Radio
  {
    if !r.staEnabled then
      r.(staConnected := false, staConnecting := false,
         actions := r.actions + (if r.staConnected || r.staConnecting then [Disconnect] else []))
    else if connected then
      if !r.staConnected then r.(staConnected := true, staConnecting := false) else r
    else
      var a := r.(staConnected := false);
      var b := if a.staConnecting && Sub32(now, a.lastStaAttempt) > WIFI_STA_RETRY_INTERVAL then a.(staConnecting := false) else a;
      if !b.staConnecting && Sub32(now, b.lastStaAttempt) > WIFI_STA_RETRY_INTERVAL
      then b.(staConnecting := true, lastStaAttempt := now, actions := b.actions + [Disconnect, Begin])
      else b
  }

  /** disableAP. */
  function ApDisabled(r: Radio): Radio
  {
    r.(apEnabled := false, actions := r.actions + [StopAp])
  }

  /** One handle call's inputs. */
  datatype Poll = Poll(now: u32, connected: bool)

  function HandledAll(r: Radio, polls: seq<Poll>): Radio
    decreases |polls|
  {
    if polls == [] then r
    else
      var p := polls[|polls| - 1];
      Handled(HandledAll(r, polls[..|polls| - 1]), p.now, p.connected)
  }

  /** Never connected and connecting at once. */
  predicate Inv(r: Radio)
  {
    r.staConnected ==> !r.staConnecting
  }

  // ---------------------------------------------------------------------------
  // Properties
  // ---------------------------------------------------------------------------

  /** Boot: the access point is up, and with the station enabled a first
      connection attempt is under way, stamped `now`. */
  lemma StartedState(r: Radio, now: u32)
    ensures var s := Started(r, now);
      && s.apEnabled && s.staEnabled == r.staEnabled && (Inv(r) ==> Inv(s))
      && (r.staEnabled ==> s.staConnecting && !s.staConnected && s.lastStaAttempt == now
                           && s.actions == r.actions + [Begin])
      && (!r.staEnabled ==> s == r.(apEnabled := true))
  {
  }

  /** With the station disabled handle leaves both flags down, and
      disconnects only when one of them was up. */
  lemma HandleDisabled(r: Radio, now: u32, connected: bool)
    requires !r.staEnabled
    ensures var s := Handled(r, now, connected);
      && !s.staConnected && !s.staConnecting
      && (s.actions == r.actions + [Disconnect] <==> r.staConnected || r.staConnecting)
      && (s.actions == r.actions <==> !(r.staConnected || r.staConnecting))
  {
  }

  /** A connected station is recorded as connected, and the connecting flag
      is dropped on the step that sees the connection. */
  lemma HandleConnected(r: Radio, now: u32)
    requires r.staEnabled && Inv(r)
    ensures var s := Handled(r, now, true);
      && s.staConnected && !s.staConnecting
      && s.lastStaAttempt == r.lastStaAttempt && s.actions == r.actions
  {
  }

  /** Without a connection a new attempt starts exactly when more than
      WIFI_STA_RETRY_INTERVAL ms have passed since the last one, whether or
      not the last one is still pending; otherwise nothing but the
      connected flag changes. */
  lemma HandleRetry(r: Radio, now: u32)
    requires r.staEnabled
    ensures var s := Handled(r, now, false);
      && !s.staConnected
      && (Sub32(now, r.lastStaAttempt) > WIFI_STA_RETRY_INTERVAL
          ==> s.staConnecting && s.lastStaAttempt == now && s.actions == r.actions + [Disconnect, Begin])
      && (Sub32(now, r.lastStaAttempt) <= WIFI_STA_RETRY_INTERVAL
          ==> s == r.(staConnected := false))
  {
  }

  /** handle never touches the access point or the station setting, and
      keeps the flags consistent, over any number of calls. */
  lemma {:induction false} RunKeepsSettings(r: Radio, polls: seq<Poll>)
    requires Inv(r)
    ensures var s := HandledAll(r, polls);
      && s.apEnabled == r.apEnabled && s.staEnabled == r.staEnabled && Inv(s)
      && |s.actions| >= |r.actions| && s.actions[..|r.actions|] == r.actions
    decreases |polls|
  {
    if polls != [] {
      var init := polls[..|polls| - 1];
      RunKeepsSettings(r, init);
      var u := HandledAll(r, init);
      var p := polls[|polls| - 1];
      var s := Handled(u, p.now, p.connected);
      assert s.actions[..|u.actions|] == u.actions;
      assert s.actions[..|r.actions|] == s.actions[..|u.actions|][..|r.actions|];
    }
  }

  /** Once the access point is off, handle never brings it back. */
  lemma {:induction false} ApStaysOff(r: Radio, polls: seq<Poll>)
    ensures !HandledAll(ApDisabled(r), polls).apEnabled
    decreases |polls|
  {
    if polls != [] {
      ApStaysOff(r, polls[..|polls| - 1]);
    }
  }

  class WiFiManager {
    var staEnabled: bool
    var staConnecting: bool
    var staConnected: bool
    var apEnabled: bool
    var lastStaAttempt: u32
    /** The calls made to the WiFi library, in order. */
    var actions: seq<Action>

    function Snap(): Radio
      reads this
    {
      Radio(staEnabled, staConnecting, staConnected, apEnabled, lastStaAttempt, actions)
    }

    constructor ()
      ensures Snap() == Initial()
    {
      staEnabled, staConnecting, staConnected, apEnabled := true, false, false, true;
      lastStaAttempt := 0;
      actions := [];
    }

    /** init at machine time `now`, with the stored station preference. */
    method Init(now: u32, stored: Option<bool>)
      modifies this
      ensures Snap() == Started(Loaded(old(Snap()), stored), now)
    {
      LoadPreferences(stored);
      StartWiFi(now);
    }

    method LoadPreferences(stored: Option<bool>)
      modifies this`staEnabled
      ensures Snap() == Loaded(old(Snap()), stored)
    {
      staEnabled := if stored.Some? then stored.value else true;
    }

    method StartWiFi(now: u32)
      modifies this
      ensures Snap() == Started(old(Snap()), now)
    {
      apEnabled := true;
      if staEnabled {
        actions := actions + [Begin];
        staConnecting := true;
        staConnected := false;
        lastStaAttempt := now;
      }
    }

    /** handle at machine time `now` (one reading for the whole call). */
    method Handle(now: u32, connected: bool)
      modifies this
      ensures Snap() == Handled(old(Snap()), now, connected)
    {
      if !staEnabled {
        if staConnected || staConnecting {
          actions := actions + [Disconnect];
        }
        staConnected := false;
        staConnecting := false;
        return;
      }
      if connected {
        if !staConnected {
          staConnected := true;
          staConnecting := false;
        }
        return;
      }
      staConnected := false;
      if staConnecting && Sub32(now, lastStaAttempt) > WIFI_STA_RETRY_INTERVAL {
        staConnecting := false;
      }
      if !staConnecting && Sub32(now, lastStaAttempt) > WIFI_STA_RETRY_INTERVAL {
        actions := actions + [Disconnect, Begin];
        staConnecting := true;
        lastStaAttempt := now;
      }
    }

    method DisableAP()
      modifies this`apEnabled, this`actions
      ensures Snap() == ApDisabled(old(Snap()))
    {
      actions := actions + [StopAp];
      apEnabled := false;
    }

    function IsSTAEnabled(): bool
      reads this
    {
      staEnabled
    }

    /** isSTAConnected: a connected station is never still connecting. */
    function IsSTAConnected(): (b: bool)
      reads this
      ensures Inv(Snap()) && b ==> !staConnecting
    {
      staConnected
    }

    function IsAPEnabled(): bool
      reads this
    {
      apEnabled
    }
  }
}
