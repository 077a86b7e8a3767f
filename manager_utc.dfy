/** The UTC clock: it synchronises with NTP over WiFi (up to
    BOOT_MAX_ATTEMPTS attempts BOOT_RETRY_INTERVAL_MS apart until the first
    success, then one attempt every RESYNC_PERIOD_MS), keeps the reference
    point of the last synchronisation and converts machine time to UTC.
    UTC counts as valid for UTC_VALIDITY_PERIOD_MS after a synchronisation.
    `time_t` values are unbounded integers here; `int32_t` casts are
    written out. */
module ManagerUTC {
  import opened Uint

  const BOOT_RETRY_INTERVAL_MS: nat := 30 * 1000
  const BOOT_MAX_ATTEMPTS: nat := 10
  const RESYNC_PERIOD_MS: nat := 3 * 60 * 60 * 1000
  const UTC_VALIDITY_PERIOD_MS: nat := 25 * 60 * 60 * 1000
  /** The oldest UTC time trySync accepts from the system clock (late 2023). */
  const MIN_CREDIBLE_UTC: int := 1700000000

  const I32: int := 0x8000_0000

  /** `static_cast<int32_t>`: reduction into [-2^31, 2^31) modulo 2^32. */
  function ToInt32(x: int): (r: int)
    ensures -I32 <= r < I32
    ensures (x - r) % U32 == 0
    ensures -I32 <= x < I32 ==> r == x
  {
    (x + I32) % U32 - I32
  }

  /** The module's state. */
  datatype Clock = Clock(everSynced: bool, bootAttempts: nat, lastAttemptMs: u32, lastSyncMs: u32,
                         syncRelMs: u32, syncUtc: int, utcOffset: int)

  function Initial(): Clock
  {
    Clock(false, 0, 0, 0, 0, 0, 0)
  }

  /** trySync succeeds only with WiFi connected and a credible UTC time. */
  predicate SyncOk(connected: bool, utc: int)
  {
    connected && utc >= MIN_CREDIBLE_UTC
  }

  /** A successful trySync, reading UTC `utc` and machine time `syncMs`. */
  function Synced(c: Clock, utc: int, syncMs: u32): Clock
  {
    c.(syncRelMs := syncMs, syncUtc := utc, utcOffset := ToInt32(utc - syncMs / 1000))
  }

  /** trySync: the outcome and the state after it. */
  function Attempt(c: Clock, connected: bool, utc: int, syncMs: u32): (bool, Clock)
  {
    if SyncOk(connected, utc) then (true, Synced(c, utc, syncMs)) else (false, c)
  }

  /** handle at machine time `now`; `connected`, `utc` and `syncMs` are what
      trySync would see (WiFi status, system UTC, its own millis() reading). */
  function Handled(c: Clock, now: u32, connected: bool, utc: int, syncMs: u32): Clock
  {
    if !c.everSynced then
      if c.bootAttempts < BOOT_MAX_ATTEMPTS && Sub32(now, c.lastAttemptMs) >= BOOT_RETRY_INTERVAL_MS then
        var a := c.(lastAttemptMs := now, bootAttempts := c.bootAttempts + 1);
        var (ok, s) := Attempt(a, connected, utc, syncMs);
        if ok then s.(everSynced := true, lastSyncMs := now) else s
      else c
    else if Sub32(now, c.lastSyncMs) >= RESYNC_PERIOD_MS then
      var (ok, s) := Attempt(c, connected, utc, syncMs);
      if ok then s.(lastSyncMs := now) else s
    else c
  }

  /** isUtcValid at machine time `now`. */
  predicate UtcValid(c: Clock, now: u32)
  {
    c.everSynced && Sub32(now, c.lastSyncMs) <= UTC_VALIDITY_PERIOD_MS
  }

  /** nowUtc at machine time `now`. */
  function UtcAt(c: Clock, now: u32): int
  {
    now / 1000 + c.utcOffset
  }

  /** convertFromRelative: UTC of machine time `tRel`, reckoned forward
      from the synchronisation point modulo 2^32 ms. */
  function FromRelative(c: Clock, tRel: u32): int
  {
    c.syncUtc + ToInt32(Sub32(tRel, c.syncRelMs) / 1000)
  }

  /** One handle call's inputs. */
  datatype Tick = Tick(now: u32, connected: bool, utc: int, syncMs: u32)

  function HandledAll(c: Clock, ticks: seq<Tick>): Clock
    decreases |ticks|
  {
    if ticks == [] then c
    else
      var t := ticks[|ticks| - 1];
      Handled(HandledAll(c, ticks[..|ticks| - 1]), t.now, t.connected, t.utc, t.syncMs)
  }

  // ---------------------------------------------------------------------------
  // Properties
  // ---------------------------------------------------------------------------

  /** trySync fails without touching the state when WiFi is down or the
      time is not credible; on success it records the reference point. */
  lemma TrySyncOutcome(c: Clock, connected: bool, utc: int, syncMs: u32)
    ensures var (ok, s) := Attempt(c, connected, utc, syncMs);
      && (ok <==> connected && utc >= MIN_CREDIBLE_UTC)
      && (!ok ==> s == c)
      && (ok ==> s.syncRelMs == syncMs && s.syncUtc == utc
                 && s.utcOffset == ToInt32(utc - syncMs / 1000)
                 && s.everSynced == c.everSynced && s.lastSyncMs == c.lastSyncMs
                 && s.bootAttempts == c.bootAttempts && s.lastAttemptMs == c.lastAttemptMs)
  {
  }

  /** The boot phase: before the first success an attempt is made exactly
      when fewer than BOOT_MAX_ATTEMPTS were made and BOOT_RETRY_INTERVAL_MS
      have passed since the last; an attempt is counted and stamped. */
  lemma BootAttempt(c: Clock, now: u32, connected: bool, utc: int, syncMs: u32)
    requires !c.everSynced
    ensures var d := Handled(c, now, connected, utc, syncMs);
      var attempt := c.bootAttempts < BOOT_MAX_ATTEMPTS && Sub32(now, c.lastAttemptMs) >= BOOT_RETRY_INTERVAL_MS;
      && (attempt ==> d.bootAttempts == c.bootAttempts + 1 && d.lastAttemptMs == now
                      && (d.everSynced <==> SyncOk(connected, utc))
                      && (d.everSynced ==> d.lastSyncMs == now))
      && (!attempt ==> d == c)
  {
  }

  /** Regular phase: a resync is tried only RESYNC_PERIOD_MS after the last
      success, and lastSyncMs moves only on success, to `now`. */
  lemma Resync(c: Clock, now: u32, connected: bool, utc: int, syncMs: u32)
    requires c.everSynced
    ensures var d := Handled(c, now, connected, utc, syncMs);
      && d.everSynced && d.bootAttempts == c.bootAttempts && d.lastAttemptMs == c.lastAttemptMs
      && (d != c ==> Sub32(now, c.lastSyncMs) >= RESYNC_PERIOD_MS && SyncOk(connected, utc))
      && (d.lastSyncMs == now || d.lastSyncMs == c.lastSyncMs)
      && (Sub32(now, c.lastSyncMs) >= RESYNC_PERIOD_MS && SyncOk(connected, utc)
          ==> d == Synced(c, utc, syncMs).(lastSyncMs := now))
  {
  }

  /** Over any run: bootAttempts never exceeds BOOT_MAX_ATTEMPTS and a
      synchronised clock stays synchronised. */
  lemma {:induction false} RunBounds(c: Clock, ticks: seq<Tick>)
    requires c.bootAttempts <= BOOT_MAX_ATTEMPTS
    ensures HandledAll(c, ticks).bootAttempts <= BOOT_MAX_ATTEMPTS
    ensures c.everSynced ==> HandledAll(c, ticks).everSynced
    decreases |ticks|
  {
    if ticks != [] {
      RunBounds(c, ticks[..|ticks| - 1]);
    }
  }

  /** After BOOT_MAX_ATTEMPTS failed boot attempts the clock never tries
      again: every later handle leaves it as it is. */
  lemma {:induction false} GivesUpAfterBootAttempts(c: Clock, ticks: seq<Tick>)
    requires !c.everSynced && c.bootAttempts >= BOOT_MAX_ATTEMPTS
    ensures HandledAll(c, ticks) == c
    decreases |ticks|
  {
    if ticks != [] {
      GivesUpAfterBootAttempts(c, ticks[..|ticks| - 1]);
    }
  }

  /** isUtcValid is false before the first synchronisation and afterwards
      holds for UTC_VALIDITY_PERIOD_MS after the last one. */
  lemma ValidAfterSync(c: Clock, now: u32, connected: bool, utc: int, syncMs: u32, d: nat)
    requires SyncOk(connected, utc) && d <= UTC_VALIDITY_PERIOD_MS
    requires c.everSynced ==> Sub32(now, c.lastSyncMs) >= RESYNC_PERIOD_MS
    requires !c.everSynced ==> c.bootAttempts < BOOT_MAX_ATTEMPTS && Sub32(now, c.lastAttemptMs) >= BOOT_RETRY_INTERVAL_MS
    ensures var s := Handled(c, now, connected, utc, syncMs);
      && s.lastSyncMs == now
      && UtcValid(s, Add32(now, d))
      && !UtcValid(s, Add32(now, UTC_VALIDITY_PERIOD_MS + 1))
    ensures !UtcValid(Initial(), now)
  {
    var s := Handled(c, now, connected, utc, syncMs);
    assert Sub32(Add32(now, d), now) == d;
    assert Sub32(Add32(now, UTC_VALIDITY_PERIOD_MS + 1), now) == UTC_VALIDITY_PERIOD_MS + 1;
  }

  /** The reference point round-trips: at the machine time of the
      synchronisation, nowUtc and convertFromRelative give back the UTC
      time read, as long as the offset fits `int32_t` (before 2038). */
  lemma SyncRoundTrip(c: Clock, utc: int, syncMs: u32)
    requires MIN_CREDIBLE_UTC <= utc < I32
    ensures UtcAt(Synced(c, utc, syncMs), syncMs) == utc
    ensures FromRelative(Synced(c, utc, syncMs), syncMs) == utc
  {
  }

  /** convertFromRelative counts whole seconds forward from the
      synchronisation point, across the wrap of the machine clock. */
  lemma ConvertCountsForward(c: Clock, ms: nat)
    requires ms < U32
    ensures FromRelative(c, Add32(c.syncRelMs, ms)) == c.syncUtc + ms / 1000
  {
    assert Sub32(Add32(c.syncRelMs, ms), c.syncRelMs) == ms;
  }

  /** The `int32_t` offset overflows from 2^31 s after the epoch
      (2038-01-19): a synchronisation at machine time 0 with UTC 2^31 makes
      nowUtc 2^32 seconds early. */
  lemma OffsetWrapsIn2038(c: Clock)
    ensures UtcAt(Synced(c, I32, 0), 0) == I32 - U32
  {
  }

  /** The offset agrees with the reference point of the last
      synchronisation (trivially so before the first). */
  predicate Referenced(c: Clock)
  {
    c.utcOffset == ToInt32(c.syncUtc - c.syncRelMs / 1000)
  }

  /** The reference point fits the `int32_t` offset (a UTC time before
      2038 makes it fit). */
  predicate Representable(c: Clock)
  {
    -I32 <= c.syncUtc - c.syncRelMs / 1000 < I32
  }

  /** init and every handle keep the offset tied to the reference point. */
  lemma ReferencedKept(c: Clock, now: u32, connected: bool, utc: int, syncMs: u32)
    requires Referenced(c)
    ensures Referenced(Initial())
    ensures Referenced(Handled(c, now, connected, utc, syncMs))
  {
  }

  /** nowUtc counts machine seconds from the synchronisation point: the UTC
      read then, plus the whole seconds of `now` minus those of the
      synchronisation's machine time. */
  lemma NowUtcFromReference(c: Clock, now: u32)
    requires Referenced(c) && Representable(c)
    ensures UtcAt(c, now) == c.syncUtc + now / 1000 - c.syncRelMs / 1000
  {
  }

  /** After a synchronisation with a credible UTC time before 2038, nowUtc
      is that time plus the machine seconds elapsed since. */
  lemma NowUtcAfterSync(c: Clock, utc: int, syncMs: u32, now: u32)
    requires MIN_CREDIBLE_UTC <= utc < I32
    ensures UtcAt(Synced(c, utc, syncMs), now) == utc + now / 1000 - syncMs / 1000
  {
    NowUtcFromReference(Synced(c, utc, syncMs), now);
  }

  /** Until machine time wraps, nowUtc and convertFromRelative agree to
      within the one second that separate truncations can lose. */
  lemma NowUtcMatchesConvertWithoutWrap(c: Clock, now: u32)
    requires Referenced(c) && Representable(c) && c.syncRelMs <= now
    ensures FromRelative(c, now) <= UtcAt(c, now) <= FromRelative(c, now) + 1
  {
    var a: int, b: int := now, c.syncRelMs;
    assert Sub32(now, c.syncRelMs) == a - b;
    var qa, qb := a / 1000, b / 1000;
    assert a == 1000 * qa + a % 1000 && b == 1000 * qb + b % 1000;
    DivBetween(a - b, qa - qb);
  }

  /** `n / 1000` is `q` or `q - 1` when `n` lies within 1000 of `1000 * q`. */
  lemma DivBetween(n: nat, q: int)
    requires 1000 * q - 1000 < n < 1000 * q + 1000
    ensures n / 1000 == q || n / 1000 == q - 1
  {
    var r := n / 1000;
    assert 1000 * r <= n < 1000 * r + 1000;
  }

  /** Once machine time has wrapped past the synchronisation point, nowUtc
      falls back to no later than the synchronisation's UTC, while
      convertFromRelative still counts forward from it. */
  lemma NowUtcRunsBackAfterWrap(c: Clock, now: u32)
    requires Referenced(c) && Representable(c) && now < c.syncRelMs
    ensures UtcAt(c, now) <= c.syncUtc <= FromRelative(c, now)
  {
    NowUtcFromReference(c, now);
  }

  /** A synchronisation 1 s before the wrap, read 2 s later: UTC is still
      valid and convertFromRelative gives 2 s later, but nowUtc is
      2^32 / 1000 s (49.7 days) early. */
  lemma NowUtcJumpsAtWrap(c: Clock)
    ensures var s := Synced(c, MIN_CREDIBLE_UTC, U32 - 1000).(everSynced := true, lastSyncMs := U32 - 1000);
      && UtcValid(s, 1000)
      && FromRelative(s, 1000) == MIN_CREDIBLE_UTC + 2
      && UtcAt(s, 1000) == MIN_CREDIBLE_UTC + 2 - 4294967
  {
  }

  class UtcClock {
    var everSynced: bool
    var bootAttempts: nat
    var lastAttemptMs: u32
    var lastSyncMs: u32
    var syncRelMs: u32
    var syncUtc: int
    var utcOffset: int

    function Snap(): Clock
      reads this
    {
      Clock(everSynced, bootAttempts, lastAttemptMs, lastSyncMs, syncRelMs, syncUtc, utcOffset)
    }

    /** The static initialisers. */
    constructor ()
      ensures Snap() == Initial()
    {
      everSynced, bootAttempts, lastAttemptMs, lastSyncMs := false, 0, 0, 0;
      syncRelMs, syncUtc, utcOffset := 0, 0, 0;
    }

    method Init()
      modifies this
      ensures Snap() == Initial()
    {
      everSynced := false;
      bootAttempts := 0;
      lastAttemptMs := 0;
      lastSyncMs := 0;
      syncRelMs := 0;
      syncUtc := 0;
      utcOffset := 0;
    }

    method TrySync(connected: bool, utc: int, syncMs: u32) returns (ok: bool)
      modifies this
      ensures (ok, Snap()) == Attempt(old(Snap()), connected, utc, syncMs)
    {
      if !connected {
        return false;
      }
      if utc < MIN_CREDIBLE_UTC {
        return false;
      }
      syncRelMs := syncMs;
      syncUtc := utc;
      utcOffset := ToInt32(utc - syncMs / 1000);
      return true;
    }

    method Handle(now: u32, connected: bool, utc: int, syncMs: u32)
      modifies this
      ensures Snap() == Handled(old(Snap()), now, connected, utc, syncMs)
    {
      if !everSynced {
        if bootAttempts < BOOT_MAX_ATTEMPTS && Sub32(now, lastAttemptMs) >= BOOT_RETRY_INTERVAL_MS {
          lastAttemptMs := now;
          bootAttempts := bootAttempts + 1;
          var ok := TrySync(connected, utc, syncMs);
          if ok {
            everSynced := true;
            lastSyncMs := now;
          }
        }
        return;
      }
      if Sub32(now, lastSyncMs) >= RESYNC_PERIOD_MS {
        var ok := TrySync(connected, utc, syncMs);
        if ok {
          lastSyncMs := now;
        }
      }
    }

    /** isUtcValid: never before the first synchronisation, afterwards
        exactly within UTC_VALIDITY_PERIOD_MS of the last one. */
    function IsUtcValid(now: u32): (b: bool)
      reads this
      ensures !everSynced ==> !b
      ensures everSynced ==> (b <==> Sub32(now, lastSyncMs) <= UTC_VALIDITY_PERIOD_MS)
    {
      UtcValid(Snap(), now)
    }

    function HasEverSynced(): bool
      reads this
    {
      everSynced
    }

    function GetUtcOffset(): int
      reads this
    {
      utcOffset
    }

    /** nowUtc: machine seconds counted from the synchronisation point,
        while the offset is tied to it and fits. */
    function NowUtc(now: u32): (t: int)
      reads this
      ensures t - utcOffset == now / 1000
      ensures Referenced(Snap()) && Representable(Snap()) ==> t == syncUtc + now / 1000 - syncRelMs / 1000
    {
      UtcAt(Snap(), now)
    }

    function ConvertFromRelative(tRel: u32): (t: int)
      reads this
      ensures syncUtc <= t <= syncUtc + (U32 - 1) / 1000
    {
      FromRelative(Snap(), tRel)
    }
  }
}
