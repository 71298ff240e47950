/**
 Whole runs of the touch counter: what requests that overlap in any order can do
 to a caller's window, and why dropping stale windows is never observable.
 */
module TouchRuns {
  import opened Outcomes
  import opened TouchCounter

  // ---------------------------------------------------------------- eviction

  datatype Op =
    | ReserveOp(sub: string, size: nat, now: Time)
    | SettleOp(sub: string, ids: set<string>, size: nat)

  /** The clock readings of a run never go backwards. */
  predicate Timely(ops: seq<Op>, clock: Time) {
    ops == [] ||
    match ops[0]
    case ReserveOp(_, _, now) => clock <= now && Timely(ops[1..], now)
    case SettleOp(_, _, _) => Timely(ops[1..], clock)
  }

  /** The answers a counter gives; with `evict` off it never drops a window. */
  function Answers(cfg: Config, s: State, ops: seq<Op>, evict: bool): seq<bool>
    decreases |ops|
  {
    if ops == [] then []
    else
      match ops[0]
      case ReserveOp(sub, size, now) =>
        var t := if evict then Swept(s, now, cfg.window) else s;
        [Admits(cfg, t.windows, sub, now)]
        + Answers(cfg, t.(windows := Booked(cfg, t.windows, sub, size, now)), ops[1..], evict)
      case SettleOp(sub, ids, size) =>
        Answers(cfg, Settled(s, sub, ids, size), ops[1..], evict)
  }

  /** `evicting` differs from `keeping` only in having lost windows that have expired. */
  ghost predicate Simulates(evicting: State, keeping: State, clock: Time, window: int) {
    && (forall sub :: sub in keeping.windows ==> keeping.windows[sub].start <= clock)
    && (forall sub :: sub in evicting.windows ==>
          sub in keeping.windows && evicting.windows[sub] == keeping.windows[sub])
    && (forall sub :: sub in keeping.windows && sub !in evicting.windows ==>
          clock - keeping.windows[sub].start >= window)
  }

  lemma SweepSimulates(evicting: State, keeping: State, clock: Time, now: Time, window: int)
    requires Simulates(evicting, keeping, clock, window) && clock <= now
    ensures Simulates(Swept(evicting, now, window), keeping, now, window)
  {
  }

  lemma {:induction false} EvictionInvisible(cfg: Config, evicting: State, keeping: State, ops: seq<Op>, clock: Time)
    requires Simulates(evicting, keeping, clock, cfg.window)
    requires Timely(ops, clock)
    ensures Answers(cfg, evicting, ops, true) == Answers(cfg, keeping, ops, false)
    decreases |ops|
  {
    if ops != [] {
      match ops[0]
      case ReserveOp(sub, size, now) =>
        SweepSimulates(evicting, keeping, clock, now, cfg.window);
        var t := Swept(evicting, now, cfg.window);
        EvictionInvisible(cfg, t.(windows := Booked(cfg, t.windows, sub, size, now)),
                          keeping.(windows := Booked(cfg, keeping.windows, sub, size, now)), ops[1..], now);
      case SettleOp(sub, ids, size) =>
        EvictionInvisible(cfg, Settled(evicting, sub, ids, size), Settled(keeping, sub, ids, size), ops[1..], clock);
    }
  }

  // ------------------------------------------------------------------ the cap

  /** A granted reservation not yet settled; `epoch` is the start of the window that granted it. */
  datatype Booking = Booking(sub: string, size: nat, epoch: Time)

  /** `carried` adds up, per caller, the older-window reservations settled into the present window. */
  datatype System = System(counter: State, inFlight: seq<Booking>, carried: map<string, nat>, clock: Time)

  datatype Event =
    | Arrive(sub: string, size: nat, now: Time)
    | Finish(index: nat, ids: set<string>)

  function Start(clock: Time): System {
    System(EMPTY, [], map[], clock)
  }

  function Carried(y: System, sub: string): nat {
    if sub in y.carried then y.carried[sub] else 0
  }

  predicate Enabled(page: nat, y: System, e: Event) {
    match e
    case Arrive(_, size, now) => size <= page && y.clock <= now
    case Finish(index, ids) => index < |y.inFlight| && |ids| <= y.inFlight[index].size
  }

  /** A request settling into a window other than the one that granted it. */
  predicate Straddles(y: System, e: Event) {
    && e.Finish?
    && e.index < |y.inFlight|
    && var b := y.inFlight[e.index];
       b.sub in y.counter.windows && y.counter.windows[b.sub].start != b.epoch
  }

  function Sweep(cfg: Config, y: System, now: Time): System {
    y.(counter := Swept(y.counter, now, cfg.window), clock := now)
  }

  /** Book a request at the present clock, opening a new window if the old one has run out. */
  function Book(cfg: Config, y: System, sub: string, size: nat): System {
    var before := y.counter.windows;
    var windows := Booked(cfg, before, sub, size, y.clock);
    y.(counter := y.counter.(windows := windows),
       inFlight := if Admits(cfg, before, sub, y.clock) then y.inFlight + [Booking(sub, size, windows[sub].start)]
         else y.inFlight,
       carried := if sub in before && y.clock - before[sub].start < cfg.window then y.carried else y.carried[sub := 0])
  }

  function Next(cfg: Config, page: nat, y: System, e: Event): System
    requires Enabled(page, y, e)
  {
    match e
    case Arrive(sub, size, now) => Book(cfg, Sweep(cfg, y, now), sub, size)
    case Finish(index, ids) =>
      var b := y.inFlight[index];
      System(Settled(y.counter, b.sub, ids, b.size),
             y.inFlight[..index] + y.inFlight[index + 1..],
             if Straddles(y, e) then y.carried[b.sub := Carried(y, b.sub) + b.size] else y.carried,
             y.clock)
  }

  predicate Legal(cfg: Config, page: nat, y: System, es: seq<Event>)
    decreases |es|
  {
    es == [] || (Enabled(page, y, es[0]) && Legal(cfg, page, Next(cfg, page, y, es[0]), es[1..]))
  }

  function Run(cfg: Config, page: nat, y: System, es: seq<Event>): System
    requires Legal(cfg, page, y, es)
    decreases |es|
  {
    if es == [] then y else Run(cfg, page, Next(cfg, page, y, es[0]), es[1..])
  }

  /** One more enabled event makes a longer run. */
  lemma {:induction false} RunMore(cfg: Config, page: nat, y: System, es: seq<Event>, e: Event)
    requires Legal(cfg, page, y, es) && Enabled(page, Run(cfg, page, y, es), e)
    ensures Legal(cfg, page, y, es + [e])
    ensures Run(cfg, page, y, es + [e]) == Next(cfg, page, Run(cfg, page, y, es), e)
    decreases |es|
  {
    if es == [] {
      var after := Next(cfg, page, y, e);
      assert es + [e] == [e] && [e][1..] == [];
      assert Legal(cfg, page, after, []) && Run(cfg, page, after, []) == after;
    } else {
      RunMore(cfg, page, Next(cfg, page, y, es[0]), es[1..], e);
      assert (es + [e])[1..] == es[1..] + [e];
    }
  }

  /** The unsettled reservations of `sub` that its window starting at `epoch` granted. */
  function Outstanding(bs: seq<Booking>, sub: string, epoch: Time): nat {
    if bs == [] then 0
    else (if bs[0].sub == sub && bs[0].epoch == epoch then bs[0].size else 0) + Outstanding(bs[1..], sub, epoch)
  }

  lemma {:induction false} OutstandingConcat(a: seq<Booking>, b: seq<Booking>, sub: string, epoch: Time)
    ensures Outstanding(a + b, sub, epoch) == Outstanding(a, sub, epoch) + Outstanding(b, sub, epoch)
  {
    if a == [] {
      assert a + b == b;
    } else {
      assert (a + b)[1..] == a[1..] + b;
      OutstandingConcat(a[1..], b, sub, epoch);
    }
  }

  lemma OutstandingRemove(bs: seq<Booking>, i: nat, sub: string, epoch: Time)
    requires i < |bs|
    ensures Outstanding(bs, sub, epoch)
         == Outstanding(bs[..i] + bs[i + 1..], sub, epoch)
          + if bs[i].sub == sub && bs[i].epoch == epoch then bs[i].size else 0
  {
    assert bs == bs[..i] + ([bs[i]] + bs[i + 1..]);
    OutstandingConcat(bs[..i], [bs[i]] + bs[i + 1..], sub, epoch);
    OutstandingConcat([bs[i]], bs[i + 1..], sub, epoch);
    OutstandingConcat(bs[..i], bs[i + 1..], sub, epoch);
    assert [bs[i]][1..] == [];
  }

  lemma {:induction false} OutstandingNone(bs: seq<Booking>, sub: string, epoch: Time)
    requires forall b :: b in bs && b.sub == sub ==> b.epoch != epoch
    ensures Outstanding(bs, sub, epoch) == 0
  {
    if bs != [] {
      assert bs[0] in bs;
      OutstandingNone(bs[1..], sub, epoch);
    }
  }

  /** The cap plus the page of the last request admitted below it. */
  function Bound(cfg: Config, page: nat): nat {
    if cfg.cap + page - 1 < 0 then 0 else cfg.cap + page - 1
  }

  ghost predicate Placed(cfg: Config, y: System) {
    && (forall sub :: sub in y.counter.windows ==> y.counter.windows[sub].start <= y.clock)
    && (forall b :: b in y.inFlight ==>
          if b.sub in y.counter.windows then b.epoch <= y.counter.windows[b.sub].start
          else b.epoch + cfg.window <= y.clock)
  }

  ghost predicate Capped(cfg: Config, page: nat, y: System, sub: string)
    requires sub in y.counter.windows
  {
    var w := y.counter.windows[sub];
    var due := Outstanding(y.inFlight, sub, w.start);
    && due <= w.reserved + Carried(y, sub)
    && |w.touched| + due <= Bound(cfg, page) + Carried(y, sub)
  }

  ghost predicate Inv(cfg: Config, page: nat, y: System) {
    && Placed(cfg, y)
    && (forall sub :: sub in y.counter.windows ==> Capped(cfg, page, y, sub))
  }

  /** The system's counter steps are the counter's own methods. */
  lemma NextIsTheCounters(cfg: Config, page: nat, y: System, e: Event)
    requires Enabled(page, y, e)
    ensures Next(cfg, page, y, e).counter
         == match e
            case Arrive(sub, size, now) => Reserved(cfg, y.counter, sub, size, now)
            case Finish(index, ids) => Settled(y.counter, y.inFlight[index].sub, ids, y.inFlight[index].size)
  {
  }

  lemma SweepKeeps(cfg: Config, page: nat, y: System, now: Time)
    requires cfg.window > 0 && Inv(cfg, page, y) && y.clock <= now
    ensures Inv(cfg, page, Sweep(cfg, y, now))
  {
    var z := Sweep(cfg, y, now);
    assert forall sub :: sub in z.counter.windows ==> sub in y.counter.windows;
    forall sub | sub in z.counter.windows
      ensures Capped(cfg, page, z, sub)
    {
      assert Capped(cfg, page, y, sub);
    }
  }

  lemma BookKeeps(cfg: Config, page: nat, y: System, sub: string, size: nat)
    requires cfg.window > 0 && Inv(cfg, page, y) && size <= page
    ensures Inv(cfg, page, Book(cfg, y, sub, size))
  {
    var z := Book(cfg, y, sub, size);
    assert Placed(cfg, z);
    forall other | other in z.counter.windows
      ensures Capped(cfg, page, z, other)
    {
      BookKeepsCap(cfg, page, y, sub, size, other);
    }
  }

  lemma BookKeepsCap(cfg: Config, page: nat, y: System, sub: string, size: nat, other: string)
    requires cfg.window > 0 && Inv(cfg, page, y) && size <= page
    requires other in Book(cfg, y, sub, size).counter.windows
    ensures Capped(cfg, page, Book(cfg, y, sub, size), other)
  {
    var z := Book(cfg, y, sub, size);
    var w := z.counter.windows[other];
    OutstandingConcat(y.inFlight, [Booking(sub, size, z.counter.windows[sub].start)], other, w.start);
    if other in y.counter.windows && y.counter.windows[other].start == w.start {
      assert Capped(cfg, page, y, other);
    } else {
      OutstandingNone(y.inFlight, other, w.start);
    }
  }

  lemma UnionSize(a: set<string>, b: set<string>)
    ensures |a + b| <= |a| + |b|
  {
    assert |a + b| == |a| + |b - a| by {
      assert a + b == a + (b - a);
    }
    assert |b - a| + |b * a| == |b| by {
      assert b == (b - a) + (b * a);
    }
  }

  lemma FinishPlaces(cfg: Config, page: nat, y: System, e: Event)
    requires cfg.window > 0 && Placed(cfg, y) && Enabled(page, y, e) && e.Finish?
    ensures Placed(cfg, Next(cfg, page, y, e))
  {
  }

  lemma FinishCaps(cfg: Config, page: nat, y: System, e: Event, sub: string)
    requires cfg.window > 0 && Inv(cfg, page, y) && Enabled(page, y, e) && e.Finish?
    requires sub in Next(cfg, page, y, e).counter.windows
    ensures Capped(cfg, page, Next(cfg, page, y, e), sub)
  {
    assert Capped(cfg, page, y, sub);
    var w := y.counter.windows[sub];
    OutstandingRemove(y.inFlight, e.index, sub, w.start);
    UnionSize(w.touched, e.ids);
  }

  lemma FinishKeeps(cfg: Config, page: nat, y: System, e: Event)
    requires cfg.window > 0 && Inv(cfg, page, y) && Enabled(page, y, e) && e.Finish?
    ensures Inv(cfg, page, Next(cfg, page, y, e))
  {
    FinishPlaces(cfg, page, y, e);
    forall sub | sub in Next(cfg, page, y, e).counter.windows
      ensures Capped(cfg, page, Next(cfg, page, y, e), sub)
    {
      FinishCaps(cfg, page, y, e, sub);
    }
  }

  lemma {:induction false} RunKeeps(cfg: Config, page: nat, y: System, es: seq<Event>)
    requires cfg.window > 0 && Inv(cfg, page, y) && Legal(cfg, page, y, es)
    ensures Inv(cfg, page, Run(cfg, page, y, es))
    decreases |es|
  {
    if es != [] {
      if es[0].Arrive? {
        SweepKeeps(cfg, page, y, es[0].now);
        BookKeeps(cfg, page, Sweep(cfg, y, es[0].now), es[0].sub, es[0].size);
      } else {
        FinishKeeps(cfg, page, y, es[0]);
      }
      RunKeeps(cfg, page, Next(cfg, page, y, es[0]), es[1..]);
    }
  }

  /**
   However requests overlap, a caller's records touched plus the reservations its
   window granted and has not settled stay within cap + page - 1, plus whatever
   older windows' reservations were settled into this one.
   */
  lemma TouchCap(cfg: Config, page: nat, clock: Time, es: seq<Event>, sub: string)
    requires cfg.window > 0 && Legal(cfg, page, Start(clock), es)
    requires sub in Run(cfg, page, Start(clock), es).counter.windows
    ensures var z := Run(cfg, page, Start(clock), es);
            var w := z.counter.windows[sub];
            |w.touched| + Outstanding(z.inFlight, sub, w.start) <= Bound(cfg, page) + Carried(z, sub)
  {
    RunKeeps(cfg, page, Start(clock), es);
  }

  /** The ids settled for `sub` since an arrival last found it without a live window. */
  function SettledIds(cfg: Config, page: nat, y: System, es: seq<Event>, sub: string, ids: set<string>): set<string>
    requires Legal(cfg, page, y, es)
    decreases |es|
  {
    if es == [] then ids
    else
      var live := sub in y.counter.windows;
      var now :=
        match es[0]
        case Arrive(s, _, at) => if s == sub && !(live && at - y.counter.windows[sub].start < cfg.window) then {}
          else ids
        case Finish(i, more) => if y.inFlight[i].sub == sub && live then ids + more else ids;
      SettledIds(cfg, page, Next(cfg, page, y, es[0]), es[1..], sub, now)
  }

  /** A window's touched records are exactly the ids settled since it opened: none is lost, none invented. */
  lemma {:induction false} TouchedExactly(cfg: Config, page: nat, y: System, es: seq<Event>, sub: string,
                                          ids: set<string>)
    requires cfg.window > 0 && Legal(cfg, page, y, es)
    requires sub in y.counter.windows ==> y.counter.windows[sub].touched == ids
    ensures var z := Run(cfg, page, y, es).counter.windows;
            sub in z ==> z[sub].touched == SettledIds(cfg, page, y, es, sub, ids)
    decreases |es|
  {
    if es != [] {
      var live := sub in y.counter.windows;
      var now :=
        match es[0]
        case Arrive(s, _, at) => if s == sub && !(live && at - y.counter.windows[sub].start < cfg.window) then {}
          else ids
        case Finish(i, more) => if y.inFlight[i].sub == sub && live then ids + more else ids;
      TouchedExactly(cfg, page, Next(cfg, page, y, es[0]), es[1..], sub, now);
    }
  }

  // ------------------------------------------- admission, told from the events

  /** What the events say of a caller: when its window opened, the ids settled since, and what is still reserved. */
  datatype Tally = Tally(since: Time, ids: set<string>, reserved: nat)

  /**
   The tally of `sub` after more events.  An arrival of its own opens a window if none
   opened less than a window length ago, and reserves its size if a booking joins those in
   flight; a request of its own that finishes adds its ids and releases its size, down to
   nothing.
   */
  function Tallied(cfg: Config, page: nat, y: System, es: seq<Event>, sub: string, t: Option<Tally>): Option<Tally>
    requires Legal(cfg, page, y, es)
    decreases |es|
  {
    if es == [] then t
    else
      var z := Next(cfg, page, y, es[0]);
      Tallied(cfg, page, z, es[1..], sub, OneTallied(cfg, y, es[0], |z.inFlight| > |y.inFlight|, sub, t))
  }

  function OneTallied(cfg: Config, y: System, e: Event, booked: bool, sub: string, t: Option<Tally>): Option<Tally>
    requires e.Finish? ==> e.index < |y.inFlight|
  {
    match e
    case Arrive(who, size, now) =>
      if who != sub then t
      else
        var live := if t.Some? && now - t.value.since < cfg.window then t.value else Tally(now, {}, 0);
        Some(live.(reserved := live.reserved + if booked then size else 0))
    case Finish(i, more) =>
      var b := y.inFlight[i];
      if b.sub != sub || t.None? then t
      else
        Some(Tally(t.value.since, t.value.ids + more,
                   if t.value.reserved < b.size then 0 else t.value.reserved - b.size))
  }

  /** The counter holds the tally, unless it has dropped a window that ran out. */
  ghost predicate Holds(cfg: Config, y: System, sub: string, t: Option<Tally>) {
    if sub in y.counter.windows then
      var w := y.counter.windows[sub];
      t == Some(Tally(w.start, w.touched, w.reserved)) && w.start <= y.clock
    else t.Some? ==> y.clock - t.value.since >= cfg.window
  }

  lemma TallyStep(cfg: Config, page: nat, y: System, e: Event, sub: string, t: Option<Tally>)
    requires Enabled(page, y, e) && Holds(cfg, y, sub, t)
    ensures var z := Next(cfg, page, y, e);
            Holds(cfg, z, sub, OneTallied(cfg, y, e, |z.inFlight| > |y.inFlight|, sub, t))
  {
    var z := Next(cfg, page, y, e);
    if e.Arrive? {
      var swept := Sweep(cfg, y, e.now);
      assert Holds(cfg, swept, sub, t);
      assert |z.inFlight| > |y.inFlight| <==> Admits(cfg, swept.counter.windows, e.sub, e.now);
    }
  }

  lemma {:induction false} TallyHolds(cfg: Config, page: nat, y: System, es: seq<Event>, sub: string, t: Option<Tally>)
    requires Legal(cfg, page, y, es) && Holds(cfg, y, sub, t)
    ensures Holds(cfg, Run(cfg, page, y, es), sub, Tallied(cfg, page, y, es, sub, t))
    decreases |es|
  {
    if es != [] {
      var z := Next(cfg, page, y, es[0]);
      TallyStep(cfg, page, y, es[0], sub, t);
      TallyHolds(cfg, page, z, es[1..], sub, OneTallied(cfg, y, es[0], |z.inFlight| > |y.inFlight|, sub, t));
    }
  }

  /**
   After every run, straddlers or not, an arrival books its size if and only if the ids
   settled for the caller since its window opened and the budget still reserved there are
   fewer than the cap; a caller without a live window starts from none.
   */
  lemma AdmittedExactly(cfg: Config, page: nat, clock: Time, es: seq<Event>, sub: string, size: nat, now: Time)
    requires Legal(cfg, page, Start(clock), es)
    requires Enabled(page, Run(cfg, page, Start(clock), es), Arrive(sub, size, now))
    ensures var y := Run(cfg, page, Start(clock), es);
            var z := Next(cfg, page, y, Arrive(sub, size, now));
            var t := Tallied(cfg, page, Start(clock), es, sub, None);
            var used := if t.Some? && now - t.value.since < cfg.window then |t.value.ids| + t.value.reserved else 0;
            if used < cfg.cap then
              && |z.inFlight| == |y.inFlight| + 1 && y.inFlight <= z.inFlight
              && z.inFlight[|y.inFlight|].sub == sub && z.inFlight[|y.inFlight|].size == size
            else z.inFlight == y.inFlight
  {
    TallyHolds(cfg, page, Start(clock), es, sub, None);
  }

  /** The counter's own test, told from the windows as they are when the arrival comes. */
  lemma GrantedIs(cfg: Config, page: nat, clock: Time, es: seq<Event>, sub: string, now: Time)
    requires Legal(cfg, page, Start(clock), es) && Run(cfg, page, Start(clock), es).clock <= now
    ensures var y := Run(cfg, page, Start(clock), es).counter;
            var live := sub in y.windows && now - y.windows[sub].start < cfg.window;
            Granted(cfg, y, sub, now)
            <==> (if live then |y.windows[sub].touched| + y.windows[sub].reserved else 0) < cfg.cap
  {
    TallyHolds(cfg, page, Start(clock), es, sub, None);
  }

  /** A dropped window is one that ran out; none is kept for as long as three window lengths. */
  ghost predicate Tidy(cfg: Config, y: System) {
    y.counter.windows != map[] ==>
      && y.counter.lastSweep.Some?
      && forall sub :: sub in y.counter.windows ==>
           y.counter.lastSweep.value - y.counter.windows[sub].start < 2 * cfg.window
  }

  lemma {:induction false} RunTidy(cfg: Config, page: nat, y: System, es: seq<Event>)
    requires cfg.window > 0 && Legal(cfg, page, y, es) && Tidy(cfg, y)
    requires y.counter.lastSweep.Some? ==> y.counter.lastSweep.value <= y.clock
    ensures var z := Run(cfg, page, y, es);
            Tidy(cfg, z) && (z.counter.lastSweep.Some? ==> z.counter.lastSweep.value <= z.clock)
    decreases |es|
  {
    if es != [] {
      var z := Next(cfg, page, y, es[0]);
      RunTidy(cfg, page, z, es[1..]);
    }
  }

  /** Whoever asks, no window three lengths old is kept past the asking. */
  lemma StaleWindowsGo(cfg: Config, page: nat, clock: Time, es: seq<Event>, e: Event, sub: string)
    requires cfg.window > 0 && Legal(cfg, page, Start(clock), es)
    requires e.Arrive? && Enabled(page, Run(cfg, page, Start(clock), es), e)
    ensures var z := Next(cfg, page, Run(cfg, page, Start(clock), es), e).counter.windows;
            sub in z ==> e.now - z[sub].start < 3 * cfg.window
  {
    RunTidy(cfg, page, Start(clock), es);
  }

  predicate NoStraddler(cfg: Config, page: nat, y: System, es: seq<Event>)
    requires Legal(cfg, page, y, es)
    decreases |es|
  {
    es == [] || (!Straddles(y, es[0]) && NoStraddler(cfg, page, Next(cfg, page, y, es[0]), es[1..]))
  }

  lemma {:induction false} NothingCarried(cfg: Config, page: nat, y: System, es: seq<Event>, sub: string)
    requires Legal(cfg, page, y, es) && NoStraddler(cfg, page, y, es) && Carried(y, sub) == 0
    ensures Carried(Run(cfg, page, y, es), sub) == 0
    decreases |es|
  {
    if es != [] {
      NothingCarried(cfg, page, Next(cfg, page, y, es[0]), es[1..], sub);
    }
  }

  /** While no request outlives its window, the bound is cap + page - 1 itself. */
  lemma TouchCapWithoutStraddlers(cfg: Config, page: nat, clock: Time, es: seq<Event>, sub: string)
    requires cfg.window > 0 && Legal(cfg, page, Start(clock), es)
    requires NoStraddler(cfg, page, Start(clock), es)
    requires sub in Run(cfg, page, Start(clock), es).counter.windows
    ensures var z := Run(cfg, page, Start(clock), es);
            var w := z.counter.windows[sub];
            |w.touched| + Outstanding(z.inFlight, sub, w.start) <= Bound(cfg, page)
  {
    TouchCap(cfg, page, clock, es, sub);
    NothingCarried(cfg, page, Start(clock), es, sub);
  }

  ghost predicate Balanced(cfg: Config, y: System) {
    && Placed(cfg, y)
    && (forall sub :: sub in y.counter.windows ==>
          y.counter.windows[sub].reserved == Outstanding(y.inFlight, sub, y.counter.windows[sub].start))
  }

  lemma BookBalances(cfg: Config, y: System, sub: string, size: nat)
    requires cfg.window > 0 && Balanced(cfg, y)
    ensures Balanced(cfg, Book(cfg, y, sub, size))
  {
    var z := Book(cfg, y, sub, size);
    forall other | other in z.counter.windows
      ensures z.counter.windows[other].reserved == Outstanding(z.inFlight, other, z.counter.windows[other].start)
    {
      var w := z.counter.windows[other];
      OutstandingConcat(y.inFlight, [Booking(sub, size, z.counter.windows[sub].start)], other, w.start);
      if !(other in y.counter.windows && y.counter.windows[other].start == w.start) {
        OutstandingNone(y.inFlight, other, w.start);
      }
    }
  }

  lemma FinishBalances(cfg: Config, page: nat, y: System, e: Event)
    requires cfg.window > 0 && Balanced(cfg, y) && Enabled(page, y, e) && e.Finish? && !Straddles(y, e)
    ensures Balanced(cfg, Next(cfg, page, y, e))
  {
    var z := Next(cfg, page, y, e);
    forall sub | sub in z.counter.windows
      ensures z.counter.windows[sub].reserved == Outstanding(z.inFlight, sub, z.counter.windows[sub].start)
    {
      OutstandingRemove(y.inFlight, e.index, sub, z.counter.windows[sub].start);
    }
  }

  /** With no straddler the reserved count is the unsettled reservations exactly: none leaks, none is released twice. */
  lemma {:induction false} ReservationsConserved(cfg: Config, page: nat, y: System, es: seq<Event>)
    requires cfg.window > 0 && Balanced(cfg, y)
    requires Legal(cfg, page, y, es) && NoStraddler(cfg, page, y, es)
    ensures Balanced(cfg, Run(cfg, page, y, es))
    decreases |es|
  {
    if es != [] {
      if es[0].Arrive? {
        BookBalances(cfg, Sweep(cfg, y, es[0].now), es[0].sub, es[0].size);
      } else {
        FinishBalances(cfg, page, y, es[0]);
      }
      ReservationsConserved(cfg, page, Next(cfg, page, y, es[0]), es[1..]);
    }
  }

  /**
   While no request outlives its window, the test an arrival meets is: the ids settled
   since its window opened, plus the sizes of that window's requests still in flight,
   against the cap.
   */
  lemma AdmittedWithoutStraddlers(cfg: Config, page: nat, clock: Time, es: seq<Event>, sub: string, size: nat,
                                  now: Time)
    requires cfg.window > 0 && Legal(cfg, page, Start(clock), es) && NoStraddler(cfg, page, Start(clock), es)
    requires Enabled(page, Run(cfg, page, Start(clock), es), Arrive(sub, size, now))
    ensures var y := Run(cfg, page, Start(clock), es);
            var z := Next(cfg, page, y, Arrive(sub, size, now));
            var t := Tallied(cfg, page, Start(clock), es, sub, None);
            t.Some? && now - t.value.since < cfg.window ==>
              (|z.inFlight| > |y.inFlight|
               <==> |t.value.ids| + Outstanding(y.inFlight, sub, t.value.since) < cfg.cap)
  {
    AdmittedExactly(cfg, page, clock, es, sub, size, now);
    TallyHolds(cfg, page, Start(clock), es, sub, None);
    ReservationsConserved(cfg, page, Start(clock), es);
  }

  /** Straddlers included: nothing stays reserved that some unsettled reservation of the window does not account for. */
  ghost predicate Owed(cfg: Config, y: System) {
    && Placed(cfg, y)
    && (forall sub :: sub in y.counter.windows ==>
          y.counter.windows[sub].reserved <= Outstanding(y.inFlight, sub, y.counter.windows[sub].start))
  }

  lemma SweepOwes(cfg: Config, y: System, now: Time)
    requires cfg.window > 0 && Owed(cfg, y) && y.clock <= now
    ensures Owed(cfg, Sweep(cfg, y, now))
  {
    assert forall sub :: sub in Sweep(cfg, y, now).counter.windows ==> sub in y.counter.windows;
  }

  lemma BookOwes(cfg: Config, y: System, sub: string, size: nat)
    requires cfg.window > 0 && Owed(cfg, y)
    ensures Owed(cfg, Book(cfg, y, sub, size))
  {
    var z := Book(cfg, y, sub, size);
    forall other | other in z.counter.windows
      ensures z.counter.windows[other].reserved <= Outstanding(z.inFlight, other, z.counter.windows[other].start)
    {
      var w := z.counter.windows[other];
      OutstandingConcat(y.inFlight, [Booking(sub, size, z.counter.windows[sub].start)], other, w.start);
    }
  }

  lemma FinishOwes(cfg: Config, page: nat, y: System, e: Event)
    requires cfg.window > 0 && Owed(cfg, y) && Enabled(page, y, e) && e.Finish?
    ensures Owed(cfg, Next(cfg, page, y, e))
  {
    var z := Next(cfg, page, y, e);
    forall sub | sub in z.counter.windows
      ensures z.counter.windows[sub].reserved <= Outstanding(z.inFlight, sub, z.counter.windows[sub].start)
    {
      OutstandingRemove(y.inFlight, e.index, sub, z.counter.windows[sub].start);
    }
  }

  /** In every run, straddlers or not, a window reserves no more than its own unsettled reservations add up to. */
  lemma {:induction false} ReservedIsOwed(cfg: Config, page: nat, y: System, es: seq<Event>)
    requires cfg.window > 0 && Owed(cfg, y) && Legal(cfg, page, y, es)
    ensures Owed(cfg, Run(cfg, page, y, es))
    decreases |es|
  {
    if es != [] {
      if es[0].Arrive? {
        SweepOwes(cfg, y, es[0].now);
        BookOwes(cfg, Sweep(cfg, y, es[0].now), es[0].sub, es[0].size);
      } else {
        FinishOwes(cfg, page, y, es[0]);
      }
      ReservedIsOwed(cfg, page, Next(cfg, page, y, es[0]), es[1..]);
    }
  }

  // ------------------------------------------------------- window straddlers

  /**
   The source's comment on Settle says a request that outlives its window leaves
   the next window's count alone.  It does exactly when there is no next window,
   or the request touched nothing new there and released nothing.
   */
  lemma StraddlerHarmless(s: State, sub: string, ids: set<string>, size: nat)
    ensures Settled(s, sub, ids, size) == s
       <==> (sub !in s.windows
             || (ids <= s.windows[sub].touched && (size == 0 || s.windows[sub].reserved == 0)))
  {
    if sub in s.windows {
      var w := s.windows[sub];
      var t := Settled(s, sub, ids, size);
      if ids <= w.touched && (size == 0 || w.reserved == 0) {
        assert w.touched + ids == w.touched;
        assert t.windows == s.windows;
      } else {
        assert t.windows[sub] != w;
      }
    }
  }

  const CAP_ONE := Config(1, 10)

  lemma StraddlerSteps(sub: string, y0: System, y1: System, y2: System)
    requires y0 == Start(0)
    requires y1 == Book(CAP_ONE, Sweep(CAP_ONE, y0, 0), sub, 1)
    requires y2 == Book(CAP_ONE, Sweep(CAP_ONE, y1, 10), sub, 1)
    ensures y1.counter.windows == map[sub := Window(0, {}, 1)]
    ensures y1.inFlight == [Booking(sub, 1, 0)] && y1.clock == 0
    ensures y2.counter.windows == map[sub := Window(10, {}, 1)]
    ensures y2.inFlight == [Booking(sub, 1, 0), Booking(sub, 1, 10)]
  {
    assert Sweep(CAP_ONE, y0, 0).counter.windows == map[];
    assert Sweep(CAP_ONE, y1, 10).counter.windows == y1.counter.windows;
  }

  /** One straddling request is enough to pass cap + page - 1. */
  lemma StraddlerExceedsCap(sub: string, id: string)
    ensures var es := [Arrive(sub, 1, 0), Arrive(sub, 1, 10), Finish(0, {id})];
            && Legal(CAP_ONE, 1, Start(0), es)
            && var z := Run(CAP_ONE, 1, Start(0), es);
               && z.counter.windows == map[sub := Window(10, {id}, 0)]
               && |{id}| + Outstanding(z.inFlight, sub, 10) > Bound(CAP_ONE, 1)
  {
    var e1, e2, e3 := Arrive(sub, 1, 0), Arrive(sub, 1, 10), Finish(0, {id});
    var y1 := Next(CAP_ONE, 1, Start(0), e1);
    var y2 := Next(CAP_ONE, 1, y1, e2);
    StraddlerSteps(sub, Start(0), y1, y2);
    var y3 := Next(CAP_ONE, 1, y2, e3);
    assert y3.inFlight == [Booking(sub, 1, 10)];
    assert [e1, e2, e3][1..] == [e2, e3] && [e2, e3][1..] == [e3] && [e3][1..] == [];
    assert Legal(CAP_ONE, 1, y2, [e3]) && Run(CAP_ONE, 1, y2, [e3]) == y3;
    assert Legal(CAP_ONE, 1, y1, [e2, e3]) && Run(CAP_ONE, 1, y1, [e2, e3]) == y3;
  }

  // --------------------------------------------- when cap + page - 1 always holds

  /** The plain bound, with nothing carried over. */
  ghost predicate PlainlyBounded(cfg: Config, page: nat, y: System, sub: string) {
    sub in y.counter.windows ==>
      |y.counter.windows[sub].touched| + Outstanding(y.inFlight, sub, y.counter.windows[sub].start) <= Bound(cfg, page)
  }

  ghost predicate AlwaysBounded(cfg: Config, page: nat) {
    forall es, sub :: Legal(cfg, page, Start(0), es) ==> PlainlyBounded(cfg, page, Run(cfg, page, Start(0), es), sub)
  }

  /** Nothing is ever reserved or touched. */
  ghost predicate Inert(y: System) {
    && (forall b :: b in y.inFlight ==> b.size == 0)
    && (forall sub :: sub in y.counter.windows ==> y.counter.windows[sub].touched == {})
  }

  lemma {:induction false} InertRun(cfg: Config, page: nat, y: System, es: seq<Event>)
    requires (cfg.cap <= 0 || page == 0) && Inert(y) && Legal(cfg, page, y, es)
    ensures Inert(Run(cfg, page, y, es))
    decreases |es|
  {
    if es != [] {
      InertRun(cfg, page, Next(cfg, page, y, es[0]), es[1..]);
    }
  }

  lemma {:induction false} InertOwesNothing(bs: seq<Booking>, sub: string, epoch: Time)
    requires forall b :: b in bs ==> b.size == 0
    ensures Outstanding(bs, sub, epoch) == 0
  {
    if bs != [] {
      assert bs[0] in bs;
      InertOwesNothing(bs[1..], sub, epoch);
    }
  }

  /** One reservation of one record in each of k windows, none settled. */
  function Waiting(cfg: Config, sub: string, k: nat): seq<Booking> {
    seq(k, i requires 0 <= i < k => Booking(sub, 1, i * cfg.window))
  }

  lemma OpenOneMore(cfg: Config, page: nat, y: System, sub: string, k: nat)
    requires cfg.window > 0 && cfg.cap >= 1 && page >= 1
    requires y.inFlight == Waiting(cfg, sub, k) && y.clock <= k * cfg.window && y.counter.windows.Keys <= {sub}
    requires sub in y.counter.windows ==> y.counter.windows[sub].start + cfg.window <= k * cfg.window
    ensures var e := Arrive(sub, 1, k * cfg.window);
            && Enabled(page, y, e)
            && var z := Next(cfg, page, y, e);
               && z.inFlight == Waiting(cfg, sub, k + 1) && z.clock == k * cfg.window
               && z.counter.windows == map[sub := Window(k * cfg.window, {}, 1)]
  {
    var z := Sweep(cfg, y, k * cfg.window);
    assert z.counter.windows.Keys <= {sub};
    assert Current(z.counter.windows, sub, k * cfg.window, cfg.window) == Window(k * cfg.window, {}, 0);
    assert Waiting(cfg, sub, k + 1) == Waiting(cfg, sub, k) + [Booking(sub, 1, k * cfg.window)];
  }

  /** k requests wait, one in each of k windows, and the last of these is live. */
  ghost predicate Opened(cfg: Config, y: System, sub: string, k: nat) {
    && y.inFlight == Waiting(cfg, sub, k)
    && if k == 0 then y.counter.windows == map[] && y.clock == 0
       else y.clock == (k - 1) * cfg.window && y.counter.windows == map[sub := Window(y.clock, {}, 1)]
  }

  lemma NextWindow(k: nat, window: int)
    requires k > 0
    ensures (k - 1) * window + window == k * window
  {
  }

  lemma OpenedMore(cfg: Config, page: nat, y: System, sub: string, k: nat)
    requires cfg.window > 0 && cfg.cap >= 1 && page >= 1 && Opened(cfg, y, sub, k)
    ensures var e := Arrive(sub, 1, k * cfg.window);
            Enabled(page, y, e) && Opened(cfg, Next(cfg, page, y, e), sub, k + 1)
  {
    if k > 0 {
      NextWindow(k, cfg.window);
    }
    OpenOneMore(cfg, page, y, sub, k);
  }

  lemma {:induction false} OpenMany(cfg: Config, page: nat, sub: string, k: nat) returns (es: seq<Event>)
    requires cfg.window > 0 && cfg.cap >= 1 && page >= 1
    ensures Legal(cfg, page, Start(0), es) && Opened(cfg, Run(cfg, page, Start(0), es), sub, k)
  {
    if k == 0 {
      es := [];
    } else {
      es := OpenMany(cfg, page, sub, k - 1);
      var e := Arrive(sub, 1, (k - 1) * cfg.window);
      OpenedMore(cfg, page, Run(cfg, page, Start(0), es), sub, k - 1);
      RunMore(cfg, page, Start(0), es, e);
      es := es + [e];
    }
  }

  function Named(n: nat): string {
    seq(n, _ => 'a')
  }

  ghost function Names(n: nat): set<string> {
    set i | 0 <= i < n :: Named(i)
  }

  lemma {:induction false} NamesSize(n: nat)
    ensures |Names(n)| == n
  {
    if n > 0 {
      NamesSize(n - 1);
      assert Names(n) == Names(n - 1) + {Named(n - 1)};
      assert Named(n - 1) !in Names(n - 1) by {
        assert forall i :: 0 <= i < n - 1 ==> |Named(i)| == i;
        assert |Named(n - 1)| == n - 1;
      }
    }
  }

  /** The first `done` of the waiting requests have settled into the one live window, each with its own record. */
  ghost predicate Settling(y: System, sub: string, waiting: seq<Booking>, done: nat) {
    && done <= |waiting| && y.inFlight == waiting[done..]
    && (forall i :: 0 <= i < |waiting| ==> waiting[i].sub == sub && waiting[i].size == 1)
    && sub in y.counter.windows && y.counter.windows[sub].touched == Names(done)
  }

  lemma SettleOneMore(cfg: Config, page: nat, y: System, sub: string, waiting: seq<Booking>, done: nat)
    requires Settling(y, sub, waiting, done) && done < |waiting|
    ensures var e := Finish(0, {Named(done)});
            Enabled(page, y, e) && Settling(Next(cfg, page, y, e), sub, waiting, done + 1)
  {
    assert y.inFlight[0] == waiting[done];
    assert y.inFlight[..0] + y.inFlight[1..] == waiting[done + 1..];
    assert Names(done + 1) == Names(done) + {Named(done)};
  }

  /** Requests that wait settle one after another. */
  lemma {:induction false} SettleMany(cfg: Config, page: nat, sub: string, waiting: seq<Booking>, es: seq<Event>,
                                      done: nat)
    returns (more: seq<Event>)
    requires Legal(cfg, page, Start(0), es) && Settling(Run(cfg, page, Start(0), es), sub, waiting, done)
    ensures Legal(cfg, page, Start(0), more) && Settling(Run(cfg, page, Start(0), more), sub, waiting, |waiting|)
    decreases |waiting| - done
  {
    if done == |waiting| {
      more := es;
    } else {
      var e := Finish(0, {Named(done)});
      SettleOneMore(cfg, page, Run(cfg, page, Start(0), es), sub, waiting, done);
      RunMore(cfg, page, Start(0), es, e);
      more := SettleMany(cfg, page, sub, waiting, es + [e], done + 1);
    }
  }

  /** cap + page - 1 bounds every run of a configuration exactly when nothing can be touched at all. */
  lemma PlainBoundExactly(cfg: Config, page: nat)
    requires cfg.window > 0
    ensures AlwaysBounded(cfg, page) <==> cfg.cap <= 0 || page == 0
  {
    if cfg.cap <= 0 || page == 0 {
      forall es, sub | Legal(cfg, page, Start(0), es)
        ensures PlainlyBounded(cfg, page, Run(cfg, page, Start(0), es), sub)
      {
        InertRun(cfg, page, Start(0), es);
        var y := Run(cfg, page, Start(0), es);
        if sub in y.counter.windows {
          InertOwesNothing(y.inFlight, sub, y.counter.windows[sub].start);
        }
      }
    } else {
      var k := cfg.cap + page;
      var es := OpenMany(cfg, page, "", k);
      es := SettleMany(cfg, page, "", Waiting(cfg, "", k), es, 0);
      NamesSize(k);
      assert !PlainlyBounded(cfg, page, Run(cfg, page, Start(0), es), "");
    }
  }
}
