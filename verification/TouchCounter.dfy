/**
 The distinct-record touch counter of internal/api/touchcounter.go: per caller a
 window holding the record ids touched so far and the budget that requests in
 flight have reserved.  Every method body is one region held under the mutex.
 */
module TouchCounter {
  import opened Outcomes

  type Time = int

  datatype Window = Window(start: Time, touched: set<string>, reserved: nat)

  /** `lastSweep` is None for Go's zero time, from which any duration has passed. */
  datatype State = State(windows: map<string, Window>, lastSweep: Option<Time>)

  datatype Config = Config(cap: int, window: int)

  const EMPTY := State(map[], None)

  function SweepDue(s: State, now: Time, window: int): bool {
    s.lastSweep.None? || now - s.lastSweep.value >= window
  }

  /** What one sweep leaves: every window younger than two window lengths. */
  function Swept(s: State, now: Time, window: int): State {
    if SweepDue(s, now, window) then
      State(map sub | sub in s.windows && now - s.windows[sub].start < 2 * window :: s.windows[sub], Some(now))
    else s
  }

  /** The window a request at `now` is counted in: the stored one, or a fresh one. */
  function Current(windows: map<string, Window>, sub: string, now: Time, window: int): Window {
    if sub in windows && now - windows[sub].start < window then windows[sub] else Window(now, {}, 0)
  }

  function Used(w: Window): nat {
    |w.touched| + w.reserved
  }

  /** A request is admitted exactly while its window's use is below the cap. */
  predicate Admits(cfg: Config, windows: map<string, Window>, sub: string, now: Time) {
    Used(Current(windows, sub, now, cfg.window)) < cfg.cap
  }

  function Booked(cfg: Config, windows: map<string, Window>, sub: string, size: nat, now: Time): map<string, Window> {
    var w := Current(windows, sub, now, cfg.window);
    windows[sub := if Admits(cfg, windows, sub, now) then w.(reserved := w.reserved + size) else w]
  }

  function Reserved(cfg: Config, s: State, sub: string, size: nat, now: Time): State {
    var t := Swept(s, now, cfg.window);
    t.(windows := Booked(cfg, t.windows, sub, size, now))
  }

  predicate Granted(cfg: Config, s: State, sub: string, now: Time) {
    Admits(cfg, Swept(s, now, cfg.window).windows, sub, now)
  }

  function Minus(a: nat, b: nat): nat {
    if a < b then 0 else a - b
  }

  /** Settling looks the window up by caller alone, whichever window booked the reservation. */
  function Settled(s: State, sub: string, ids: set<string>, size: nat): State {
    if sub !in s.windows then s
    else
      var w := s.windows[sub];
      s.(windows := s.windows[sub := w.(touched := w.touched + ids, reserved := Minus(w.reserved, size))])
  }

  class InProcessTouchCounter {
    const cap: int
    const window: int
    var windows: map<string, Window>
    var lastSweep: Option<Time>

    ghost function Abs(): State
      reads this
    {
      State(windows, lastSweep)
    }

    ghost function Cfg(): Config {
      Config(cap, window)
    }

    constructor (capPerWindow: int, window: int)
      ensures Abs() == EMPTY && Cfg() == Config(capPerWindow, window)
    {
      cap, this.window := capPerWindow, window;
      windows, lastSweep := map[], None;
    }

    method SweepLocked(now: Time)
      modifies this
      ensures Abs() == Swept(old(Abs()), now, window)
      ensures old(lastSweep).Some? && now - old(lastSweep).value < window ==> unchanged(this)
      ensures old(lastSweep).None? || now - old(lastSweep).value >= window ==>
                && lastSweep == Some(now)
                && windows == map s | s in old(windows) && now - old(windows)[s].start < 2 * window :: old(windows)[s]
    {
      if lastSweep.Some? && now - lastSweep.value < window {
        return;
      }
      lastSweep := Some(now);
      var pending := windows.Keys;
      while pending != {}
        invariant pending <= windows.Keys <= old(windows).Keys
        invariant lastSweep == Some(now)
        invariant forall sub :: sub in windows ==> windows[sub] == old(windows)[sub]
        invariant forall sub :: sub in old(windows).Keys - pending ==>
          (sub in windows <==> now - old(windows)[sub].start < 2 * window)
        decreases pending
      {
        var sub :| sub in pending;
        pending := pending - {sub};
        if now - windows[sub].start >= 2 * window {
          windows := windows - {sub};
        }
      }
      assert windows == Swept(old(Abs()), now, window).windows;
    }

    method CurrentWindow(sub: string, now: Time) returns (w: Window)
      modifies this`windows
      ensures w == Current(old(windows), sub, now, window)
      ensures w == if sub in old(windows) && now - old(windows)[sub].start < window then old(windows)[sub]
                   else Window(now, {}, 0)
      ensures windows == old(windows)[sub := w]
    {
      if sub !in windows || now - windows[sub].start >= window {
        w := Window(now, {}, 0);
        windows := windows[sub := w];
      } else {
        w := windows[sub];
        assert windows == windows[sub := w];
      }
    }

    method Reserve(sub: string, maxNewTouches: nat, now: Time) returns (ok: bool)
      modifies this
      ensures Abs() == Reserved(Cfg(), old(Abs()), sub, maxNewTouches, now)
      ensures ok == Granted(Cfg(), old(Abs()), sub, now)
      // admitted exactly while the records touched and reserved in the live window, if any, are fewer than the cap
      ensures window > 0 ==>
                var w := if sub in old(windows) && now - old(windows)[sub].start < window then old(windows)[sub]
                         else Window(now, {}, 0);
                && (ok <==> |w.touched| + w.reserved < cap)
                && sub in windows && windows[sub].start == w.start && windows[sub].touched == w.touched
                && windows[sub].reserved == w.reserved + if ok then maxNewTouches else 0
      ensures forall other :: other in windows && other != sub ==>
                other in old(windows) && windows[other] == old(windows)[other]
    {
      SweepLocked(now);
      var w := CurrentWindow(sub, now);
      if |w.touched| + w.reserved >= cap {
        return false;
      }
      windows := windows[sub := w.(reserved := w.reserved + maxNewTouches)];
      return true;
    }

    method Settle(sub: string, recordIDs: seq<string>, reserved: nat)
      modifies this
      ensures Abs() == Settled(old(Abs()), sub, (set id | id in recordIDs), reserved)
      ensures windows.Keys == old(windows).Keys && lastSweep == old(lastSweep)
      ensures sub in windows ==>
                && windows[sub].start == old(windows)[sub].start
                && windows[sub].touched == old(windows)[sub].touched + set id | id in recordIDs
                && windows[sub].reserved
                   == if old(windows)[sub].reserved < reserved then 0 else old(windows)[sub].reserved - reserved
      ensures forall other :: other in windows && other != sub ==> windows[other] == old(windows)[other]
    {
      if sub !in windows {
        return;
      }
      var w := windows[sub];
      for i := 0 to |recordIDs|
        invariant w.start == windows[sub].start && w.reserved == windows[sub].reserved
        invariant w.touched == windows[sub].touched + (set id | id in recordIDs[..i])
      {
        w := w.(touched := w.touched + {recordIDs[i]});
      }
      assert recordIDs[..|recordIDs|] == recordIDs;
      var left := w.reserved - reserved;
      windows := windows[sub := w.(reserved := if left < 0 then 0 else left)];
    }
  }
}
