/**
 The per-identity limiter of internal/connector/identitylimiter.go: a bounded set
 of tracked keys decides whether an identity has its own bucket in a wrapped
 grant limiter or shares the overflow bucket.
 */
module IdentityLimiter {
  import opened Outcomes
  import opened Durations
  import GL = GrantLimiter

  type Time = int

  const MAX_TRACKED := 10_000
  const TRACKED_TTL := HOUR
  const SWEEP_INTERVAL := MINUTE
  const OVERFLOW_KEY := "identity-limiter-overflow"

  datatype Tracker = Tracker(trackedAt: map<string, Time>, lastSweep: Option<Time>)

  const NONE_TRACKED := Tracker(map[], None)

  function Swept(s: Tracker, now: Time): Tracker {
    if s.lastSweep.None? || now - s.lastSweep.value >= SWEEP_INTERVAL then
      Tracker(map key | key in s.trackedAt && now - s.trackedAt[key] < TRACKED_TTL :: s.trackedAt[key], Some(now))
    else s
  }

  /** Whether `key` has its own bucket at `now`; only an admitting check adds a key, and only below the cap. */
  predicate OwnBucket(cap: nat, s: Tracker, key: string, admit: bool, now: Time) {
    var t := Swept(s, now).trackedAt;
    key in t || (admit && |t| < cap)
  }

  function Checked(cap: nat, s: Tracker, key: string, admit: bool, now: Time): Tracker {
    var t := Swept(s, now);
    if OwnBucket(cap, s, key, admit, now) then t.(trackedAt := t.trackedAt[key := now]) else t
  }

  class IdentityRateLimiter {
    const underlying: GL.InProcessGrantLimiter
    const overflow: GL.InProcessGrantLimiter
    var trackedAt: map<string, Time>
    var lastSweep: Option<Time>

    ghost function Abs(): Tracker
      reads this
    {
      Tracker(trackedAt, lastSweep)
    }

    constructor ()
      ensures Abs() == NONE_TRACKED
      ensures fresh(underlying) && fresh(overflow) && underlying != overflow
      ensures underlying.Cfg() == GL.Config(1_000_000_000, 300_000_000_000, 10)
      ensures overflow.Cfg() == GL.Config(5_000_000_000, 600_000_000_000, 3)
      ensures underlying.Abs() == overflow.Abs() == GL.State(map[], map[], None, [])
    {
      underlying := new GL.InProcessGrantLimiter(1 * SECOND, 5 * MINUTE, 10);
      overflow := new GL.InProcessGrantLimiter(5 * SECOND, 10 * MINUTE, 3);
      trackedAt, lastSweep := map[], None;
    }

    method SweepLocked(now: Time)
      modifies this
      ensures Abs() == Swept(old(Abs()), now)
    {
      if lastSweep.Some? && now - lastSweep.value < SWEEP_INTERVAL {
        return;
      }
      lastSweep := Some(now);
      var pending := trackedAt.Keys;
      while pending != {}
        invariant pending <= trackedAt.Keys <= old(trackedAt).Keys
        invariant lastSweep == Some(now)
        invariant forall key :: key in trackedAt ==> trackedAt[key] == old(trackedAt)[key]
        invariant forall key :: key in old(trackedAt).Keys - pending ==>
          (key in trackedAt <==> now - old(trackedAt)[key] < TRACKED_TTL)
        decreases pending
      {
        var key :| key in pending;
        pending := pending - {key};
        if now - trackedAt[key] >= TRACKED_TTL {
          trackedAt := trackedAt - {key};
        }
      }
      assert trackedAt == Swept(old(Abs()), now).trackedAt;
    }

    method TrackOrCheck(key: string, admitIfRoom: bool, now: Time) returns (tracked: bool)
      modifies this
      ensures tracked == OwnBucket(10_000, old(Abs()), key, admitIfRoom, now)
      ensures Abs() == Checked(10_000, old(Abs()), key, admitIfRoom, now)
      ensures if tracked then key in trackedAt && trackedAt[key] == now else key !in trackedAt
      ensures !tracked ==> !admitIfRoom || |trackedAt| >= 10_000
    {
      SweepLocked(now);
      if key in trackedAt {
        trackedAt := trackedAt[key := now];
        return true;
      }
      if !admitIfRoom || |trackedAt| >= MAX_TRACKED {
        return false;
      }
      trackedAt := trackedAt[key := now];
      return true;
    }

    /** `now` is read under this limiter's lock, `later` under the wrapped limiter's. */
    method Allow(key: string, now: Time, later: Time) returns (ok: bool)
      requires underlying != overflow
      modifies this, underlying, overflow
      ensures Abs() == Checked(10_000, old(Abs()), key, true, now)
      ensures OwnBucket(10_000, old(Abs()), key, true, now) ==>
                && underlying.Abs() == GL.Swept(old(underlying.Abs()), later)
                && ok == GL.Allowed(underlying.Abs(), key, key, later)
                && overflow.Abs() == old(overflow.Abs())
      ensures !OwnBucket(10_000, old(Abs()), key, true, now) ==>
                && overflow.Abs() == GL.Swept(old(overflow.Abs()), later)
                && ok == GL.Allowed(overflow.Abs(), OVERFLOW_KEY, OVERFLOW_KEY, later)
                && underlying.Abs() == old(underlying.Abs())
    {
      var tracked := TrackOrCheck(key, true, now);
      if tracked {
        ok := underlying.Allow(key, key, later);
      } else {
        ok := overflow.Allow(OVERFLOW_KEY, OVERFLOW_KEY, later);
      }
    }

    method RecordFailure(key: string, now: Time, later: Time)
      requires underlying != overflow
      modifies this, underlying, overflow
      ensures Abs() == Checked(10_000, old(Abs()), key, false, now)
      ensures if OwnBucket(10_000, old(Abs()), key, false, now) then
                && underlying.Abs() == GL.Failed(underlying.Cfg(), old(underlying.Abs()), key, key, later)
                && overflow.Abs() == old(overflow.Abs())
              else
                && overflow.Abs() == GL.Failed(overflow.Cfg(), old(overflow.Abs()), OVERFLOW_KEY, OVERFLOW_KEY, later)
                && underlying.Abs() == old(underlying.Abs())
    {
      var tracked := TrackOrCheck(key, false, now);
      if tracked {
        underlying.RecordFailure(key, key, later);
      } else {
        overflow.RecordFailure(OVERFLOW_KEY, OVERFLOW_KEY, later);
      }
    }

    method RecordSuccess(key: string, now: Time)
      requires underlying != overflow
      modifies this, underlying, overflow
      ensures Abs() == Checked(10_000, old(Abs()), key, false, now)
      ensures if OwnBucket(10_000, old(Abs()), key, false, now) then
                && underlying.Abs() == GL.Succeeded(old(underlying.Abs()), key, key)
                && overflow.Abs() == old(overflow.Abs())
              else
                && overflow.Abs() == GL.Succeeded(old(overflow.Abs()), OVERFLOW_KEY, OVERFLOW_KEY)
                && underlying.Abs() == old(underlying.Abs())
    {
      var tracked := TrackOrCheck(key, false, now);
      if tracked {
        underlying.RecordSuccess(key, key);
      } else {
        overflow.RecordSuccess(OVERFLOW_KEY, OVERFLOW_KEY);
      }
    }
  }
}
