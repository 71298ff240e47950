/** Whole runs of the identity limiter, requests overlapping in any order. */
module IdentityRuns {
  import opened Collections
  import opened Outcomes
  import opened Durations
  import opened SlidingWindow
  import opened IdentityLimiter
  import Backoff
  import GR = GrantRuns

  // -------------------------------------------------------- the tracked set

  /** `routes` marks every check that sent a key to its own bucket. */
  datatype System = System(tracker: Tracker, routes: seq<Mark<string>>, clock: Time)

  datatype Check = Check(key: string, admit: bool, now: Time)

  function Next(cap: nat, y: System, c: Check): System {
    System(Checked(cap, y.tracker, c.key, c.admit, c.now),
           if OwnBucket(cap, y.tracker, c.key, c.admit, c.now) then y.routes + [Mark(c.key, c.now)] else y.routes,
           c.now)
  }

  predicate Timely(cs: seq<Check>, clock: Time) {
    cs == [] || (clock <= cs[0].now && Timely(cs[1..], cs[0].now))
  }

  function Run(cap: nat, y: System, cs: seq<Check>): System
    decreases |cs|
  {
    if cs == [] then y else Run(cap, Next(cap, y, cs[0]), cs[1..])
  }

  ghost predicate Inv(cap: nat, y: System) {
    && |y.tracker.trackedAt| <= cap
    && UpTo(y.routes, y.clock)
    && (forall i :: 0 <= i < |y.routes| && y.routes[i].at > y.clock - TRACKED_TTL ==>
          && y.routes[i].key in y.tracker.trackedAt
          && y.tracker.trackedAt[y.routes[i].key] >= y.routes[i].at)
    && Within(y.routes, cap, TRACKED_TTL)
  }

  lemma SweptSmaller(s: Tracker, now: Time)
    ensures |Swept(s, now).trackedAt| <= |s.trackedAt|
  {
    SubsetSize(Swept(s, now).trackedAt.Keys, s.trackedAt.Keys);
  }

  lemma NextKeeps(cap: nat, y: System, c: Check)
    requires Inv(cap, y) && y.clock <= c.now
    ensures Inv(cap, Next(cap, y, c))
  {
    var z := Next(cap, y, c);
    SweptSmaller(y.tracker, c.now);
    var live := z.tracker.trackedAt.Keys;
    if OwnBucket(cap, y.tracker, c.key, c.admit, c.now) {
      var t := Swept(y.tracker, c.now).trackedAt;
      assert live == t.Keys + {c.key};
      assert |live| <= cap by {
        if c.key in t {
          assert live == t.Keys;
        }
      }
      MarkWithin(y.routes, c.key, c.now, live, cap, TRACKED_TTL);
    }
  }

  lemma {:induction false} RunKeeps(cap: nat, y: System, cs: seq<Check>)
    requires Inv(cap, y) && Timely(cs, y.clock)
    ensures Inv(cap, Run(cap, y, cs)) && Run(cap, y, cs).clock >= y.clock
    ensures |Run(cap, y, cs).routes| >= |y.routes| && Run(cap, y, cs).routes[..|y.routes|] == y.routes
    decreases |cs|
  {
    if cs != [] {
      NextKeeps(cap, y, cs[0]);
      RunKeeps(cap, Next(cap, y, cs[0]), cs[1..]);
    }
  }

  function Start(clock: Time): System {
    System(NONE_TRACKED, [], clock)
  }

  /** In every hour of every run at most `cap` distinct identities have had their own bucket. */
  lemma OwnBucketsBounded(cap: nat, clock: Time, cs: seq<Check>, t: Time)
    requires Timely(cs, clock)
    ensures |KeysIn(Run(cap, Start(clock), cs).routes, t, 60 * 60 * 1_000_000_000)| <= cap
  {
    RunKeeps(cap, Start(clock), cs);
  }

  /** An identity sent to its own bucket is sent there by every check in the next hour, whatever came between. */
  lemma RoutingSticks(cap: nat, clock: Time, before: seq<Check>, first: Check, between: seq<Check>, last: Check)
    requires Timely(before, clock)
    requires var y := Run(cap, Start(clock), before);
             && y.clock <= first.now
             && OwnBucket(cap, y.tracker, first.key, first.admit, first.now)
             && Timely(between, first.now)
             && Run(cap, Next(cap, y, first), between).clock <= last.now
    requires last.key == first.key && last.now - first.now < 60 * 60 * 1_000_000_000
    ensures var y := Run(cap, Start(clock), before);
            OwnBucket(cap, Run(cap, Next(cap, y, first), between).tracker, last.key, last.admit, last.now)
  {
    RunKeeps(cap, Start(clock), before);
    var y := Run(cap, Start(clock), before);
    NextKeeps(cap, y, first);
    var z := Next(cap, y, first);
    RunKeeps(cap, z, between);
    var w := Run(cap, z, between);
    var i := |y.routes|;
    assert z.routes[i] == Mark(first.key, first.now);
    assert w.routes[i] == w.routes[..|z.routes|][i];
  }

  /** Every tracked key was routed when its time says, and the last sweep left none older than the TTL. */
  ghost predicate Backed(y: System) {
    && (forall key :: key in y.tracker.trackedAt ==> Mark(key, y.tracker.trackedAt[key]) in y.routes)
    && (forall key :: key in y.tracker.trackedAt ==>
          y.tracker.lastSweep.Some? && y.tracker.lastSweep.value - y.tracker.trackedAt[key] < TRACKED_TTL)
    && (y.tracker.lastSweep.Some? ==> y.tracker.lastSweep.value <= y.clock)
  }

  lemma {:induction false} RunKeepsBacked(cap: nat, y: System, cs: seq<Check>)
    requires Backed(y) && Timely(cs, y.clock)
    ensures Backed(Run(cap, y, cs))
    decreases |cs|
  {
    if cs != [] {
      RunKeepsBacked(cap, Next(cap, y, cs[0]), cs[1..]);
    }
  }

  /** The overflow bucket is a last resort: with fewer than `cap` identities routed lately, a new one gets its own. */
  lemma OverflowOnlyWhenFull(cap: nat, clock: Time, cs: seq<Check>, key: string, now: Time)
    requires Timely(cs, clock) && Run(cap, Start(clock), cs).clock <= now
    requires |KeysIn(Run(cap, Start(clock), cs).routes, now, (60 + 1) * 60 * 1_000_000_000)| < cap
    ensures OwnBucket(cap, Run(cap, Start(clock), cs).tracker, key, true, now)
  {
    var y := Run(cap, Start(clock), cs);
    RunKeepsBacked(cap, Start(clock), cs);
    RunKeeps(cap, Start(clock), cs);
    SweptIsRecent(y, now);
    SubsetSize(Swept(y.tracker, now).trackedAt.Keys, KeysIn(y.routes, now, TRACKED_TTL + SWEEP_INTERVAL));
  }

  /** Recording a result admits nobody: an identity no check has routed in the last 61 minutes is sent to overflow. */
  lemma OnlyAllowAdmits(cap: nat, clock: Time, cs: seq<Check>, key: string, now: Time)
    requires Timely(cs, clock) && Run(cap, Start(clock), cs).clock <= now
    requires key !in KeysIn(Run(cap, Start(clock), cs).routes, now, (60 + 1) * 60 * 1_000_000_000)
    ensures !OwnBucket(cap, Run(cap, Start(clock), cs).tracker, key, false, now)
  {
    RunKeepsBacked(cap, Start(clock), cs);
    RunKeeps(cap, Start(clock), cs);
    SweptIsRecent(Run(cap, Start(clock), cs), now);
  }

  lemma SweptIsRecent(y: System, now: Time)
    requires Backed(y) && UpTo(y.routes, y.clock) && y.clock <= now
    ensures Swept(y.tracker, now).trackedAt.Keys <= KeysIn(y.routes, now, TRACKED_TTL + SWEEP_INTERVAL)
  {
    forall k | k in Swept(y.tracker, now).trackedAt
      ensures k in KeysIn(y.routes, now, TRACKED_TTL + SWEEP_INTERVAL)
    {
      var i :| 0 <= i < |y.routes| && y.routes[i] == Mark(k, y.tracker.trackedAt[k]);
    }
  }

  // -------------------------------------------------- the wrapped tables' size

  datatype BucketOp =
    | AllowOp(key: string, now: Time)
    | FailOp(key: string, now: Time)
    | SuccessOp(key: string)

  /** The wrapped limiter as this package uses it: the identity is both client and source. */
  function Applied(cfg: GL.Config, s: GL.State, op: BucketOp): GL.State {
    match op
    case AllowOp(_, now) => GL.Swept(s, now)
    case FailOp(key, now) => GL.Failed(cfg, s, key, key, now)
    case SuccessOp(key) => GL.Succeeded(s, key, key)
  }

  /** Same keys, failure counts and block ends; only the alert flag may differ. */
  ghost predicate Agree(a: GL.Table, b: GL.Table) {
    && a.Keys == b.Keys
    && (forall key :: key in a ==> a[key].failures == b[key].failures && a[key].blockedUntil == b[key].blockedUntil)
  }

  lemma AppliedAgrees(cfg: GL.Config, s: GL.State, op: BucketOp)
    requires Agree(s.byClient, s.bySource)
    ensures Agree(Applied(cfg, s, op).byClient, Applied(cfg, s, op).bySource)
  {
  }

  /** The tracker, the wrapped limiter, and when the limiter last answered an Allow. */
  datatype Whole = Whole(tracked: System, wrapped: GL.State, lastAllow: Option<Time>)

  /** One region held under either lock; `routedAt` is when the tracker sent the request to the wrapped limiter. */
  datatype Step = Route(check: Check) | Wrap(op: BucketOp, routedAt: Time)

  function WholeStart(clock: Time): Whole {
    Whole(Start(clock), GL.State(map[], map[], None, []), None)
  }

  /** A request reaches the wrapped limiter at most `delay` after the tracker has sent it there. */
  predicate Routed(delay: nat, w: Whole, key: string, routedAt: Time, now: Time) {
    Mark(key, routedAt) in w.tracked.routes && routedAt <= now <= routedAt + delay && w.tracked.clock <= now
  }

  predicate Enabled(delay: nat, w: Whole, s: Step) {
    match s
    case Route(check) => w.tracked.clock <= check.now
    case Wrap(AllowOp(key, now), routedAt) => Routed(delay, w, key, routedAt, now)
    case Wrap(FailOp(key, now), routedAt) => Routed(delay, w, key, routedAt, now)
    case Wrap(SuccessOp(_), _) => true
  }

  function WholeNext(cap: nat, cfg: GL.Config, w: Whole, s: Step): Whole {
    match s
    case Route(check) => w.(tracked := Next(cap, w.tracked, check))
    case Wrap(op, _) =>
      Whole(if op.SuccessOp? then w.tracked else w.tracked.(clock := op.now),
            Applied(cfg, w.wrapped, op),
            if op.AllowOp? then Some(op.now) else w.lastAllow)
  }

  predicate WholeLegal(cap: nat, cfg: GL.Config, delay: nat, w: Whole, steps: seq<Step>)
    decreases |steps|
  {
    steps == [] || (Enabled(delay, w, steps[0])
                    && WholeLegal(cap, cfg, delay, WholeNext(cap, cfg, w, steps[0]), steps[1..]))
  }

  function WholeRun(cap: nat, cfg: GL.Config, w: Whole, steps: seq<Step>): Whole
    decreases |steps|
  {
    if steps == [] then w else WholeRun(cap, cfg, WholeNext(cap, cfg, w, steps[0]), steps[1..])
  }

  /** With one identity in both slots the two tables never part, along any run. */
  lemma {:induction false} TablesAgree(cap: nat, cfg: GL.Config, w: Whole, steps: seq<Step>)
    requires Agree(w.wrapped.byClient, w.wrapped.bySource)
    ensures var z := WholeRun(cap, cfg, w, steps);
            Agree(z.wrapped.byClient, z.wrapped.bySource) && |z.wrapped.byClient| == |z.wrapped.bySource|
    decreases |steps|
  {
    if steps == [] {
      assert |w.wrapped.byClient.Keys| == |w.wrapped.bySource.Keys|;
    } else {
      if steps[0].Wrap? {
        AppliedAgrees(cfg, w.wrapped, steps[0].op);
      }
      TablesAgree(cap, cfg, WholeNext(cap, cfg, w, steps[0]), steps[1..]);
    }
  }

  /** How long after its routing an identity can still have an entry in the wrapped tables. */
  function Memory(cfg: GL.Config, delay: nat): int {
    GL.ENTRY_TTL + cfg.max + GL.SWEEP_INTERVAL + delay
  }

  /** The identity was routed recently enough for its block to end where it does. */
  ghost predicate Explained(cfg: GL.Config, delay: nat, w: Whole, key: string) {
    key in w.wrapped.byClient
    && exists i :: 0 <= i < |w.tracked.routes| && w.tracked.routes[i].key == key
                   && w.tracked.routes[i].at + delay + cfg.max >= w.wrapped.byClient[key].blockedUntil
  }

  ghost predicate WholeInv(cap: nat, cfg: GL.Config, delay: nat, w: Whole) {
    && Inv(cap, w.tracked) && Backed(w.tracked)
    && (forall key :: key in w.wrapped.byClient ==> Explained(cfg, delay, w, key))
    && (w.lastAllow.Some? <==> w.wrapped.lastSweep.Some?)
    && (w.lastAllow.Some? ==>
          && w.wrapped.lastSweep.value <= w.lastAllow.value <= w.tracked.clock
          && w.lastAllow.value - w.wrapped.lastSweep.value < GL.SWEEP_INTERVAL
          && forall key :: key in w.wrapped.byClient ==>
               w.wrapped.lastSweep.value - w.wrapped.byClient[key].blockedUntil < GL.ENTRY_TTL)
  }

  lemma RouteKeeps(cap: nat, cfg: GL.Config, delay: nat, w: Whole, check: Check)
    requires WholeInv(cap, cfg, delay, w) && w.tracked.clock <= check.now
    ensures WholeInv(cap, cfg, delay, WholeNext(cap, cfg, w, Route(check)))
  {
    var z := WholeNext(cap, cfg, w, Route(check));
    NextKeeps(cap, w.tracked, check);
    forall key | key in z.wrapped.byClient
      ensures Explained(cfg, delay, z, key)
    {
      assert Explained(cfg, delay, w, key);
      var i :| 0 <= i < |w.tracked.routes| && w.tracked.routes[i].key == key
               && w.tracked.routes[i].at + delay + cfg.max >= w.wrapped.byClient[key].blockedUntil;
      assert z.tracked.routes[i] == w.tracked.routes[i];
    }
  }

  lemma WrapExplains(cap: nat, cfg: GL.Config, delay: nat, w: Whole, s: Step, key: string)
    requires cfg.max >= 0 && WholeInv(cap, cfg, delay, w) && s.Wrap? && Enabled(delay, w, s)
    requires key in WholeNext(cap, cfg, w, s).wrapped.byClient
    ensures Explained(cfg, delay, WholeNext(cap, cfg, w, s), key)
  {
    if s.op.FailOp? && s.op.key == key {
      var i :| 0 <= i < |w.tracked.routes| && w.tracked.routes[i] == Mark(key, s.routedAt);
    } else {
      assert Explained(cfg, delay, w, key);
    }
  }

  lemma WrapKeeps(cap: nat, cfg: GL.Config, delay: nat, w: Whole, s: Step)
    requires cfg.max >= 0 && WholeInv(cap, cfg, delay, w) && s.Wrap? && Enabled(delay, w, s)
    ensures WholeInv(cap, cfg, delay, WholeNext(cap, cfg, w, s))
  {
    forall key | key in WholeNext(cap, cfg, w, s).wrapped.byClient
      ensures Explained(cfg, delay, WholeNext(cap, cfg, w, s), key)
    {
      WrapExplains(cap, cfg, delay, w, s, key);
    }
  }

  lemma {:induction false} WholeRunKeeps(cap: nat, cfg: GL.Config, delay: nat, w: Whole, steps: seq<Step>)
    requires cfg.max >= 0 && WholeInv(cap, cfg, delay, w) && WholeLegal(cap, cfg, delay, w, steps)
    ensures WholeInv(cap, cfg, delay, WholeRun(cap, cfg, w, steps))
    decreases |steps|
  {
    if steps != [] {
      if steps[0].Route? {
        RouteKeeps(cap, cfg, delay, w, steps[0].check);
      } else {
        WrapKeeps(cap, cfg, delay, w, steps[0]);
      }
      WholeRunKeeps(cap, cfg, delay, WholeNext(cap, cfg, w, steps[0]), steps[1..]);
    }
  }

  lemma EntriesAreRecent(cap: nat, cfg: GL.Config, delay: nat, w: Whole)
    requires WholeInv(cap, cfg, delay, w) && w.lastAllow.Some?
    ensures w.wrapped.byClient.Keys
         <= KeysIn(w.tracked.routes, w.tracked.clock, w.tracked.clock - w.lastAllow.value + Memory(cfg, delay))
  {
    forall key | key in w.wrapped.byClient
      ensures key in KeysIn(w.tracked.routes, w.tracked.clock, w.tracked.clock - w.lastAllow.value + Memory(cfg, delay))
    {
      assert Explained(cfg, delay, w, key);
      var i :| 0 <= i < |w.tracked.routes| && w.tracked.routes[i].key == key
               && w.tracked.routes[i].at + delay + cfg.max >= w.wrapped.byClient[key].blockedUntil;
    }
  }

  /** Two hours see at most two hourly bounds of identities. */
  lemma TwoHours(cap: nat, y: System, t: Time, span: int)
    requires Inv(cap, y) && span <= 2 * TRACKED_TTL
    ensures |KeysIn(y.routes, t, span)| <= 2 * cap
  {
    var late, early := KeysIn(y.routes, t, TRACKED_TTL), KeysIn(y.routes, t - TRACKED_TTL, TRACKED_TTL);
    assert KeysIn(y.routes, t, span) <= late + early;
    SubsetSize(KeysIn(y.routes, t, span), late + early);
    assert |late + early| <= |late| + |early| by {
      assert late + early == late + (early - late);
      SubsetSize(early - late, early);
    }
  }

  /**
   The wrapped tables hold no more than the identities routed to a bucket of their own
   since an hour, the longest block and a sweep interval before the last Allow; so no
   more than twice the cap while that reaches back two hours at most.
   */
  ghost predicate TablesBounded(cap: nat, cfg: GL.Config, delay: nat, w: Whole)
    requires w.lastAllow.Some?
  {
    var span := w.tracked.clock - w.lastAllow.value + Memory(cfg, delay);
    && |w.wrapped.byClient| <= |KeysIn(w.tracked.routes, w.tracked.clock, span)|
    && (span <= 2 * TRACKED_TTL ==> |w.wrapped.byClient| <= 2 * cap)
  }

  lemma EntriesBounded(cap: nat, cfg: GL.Config, delay: nat, w: Whole)
    requires WholeInv(cap, cfg, delay, w) && w.lastAllow.Some?
    ensures TablesBounded(cap, cfg, delay, w)
  {
    var span := w.tracked.clock - w.lastAllow.value + Memory(cfg, delay);
    EntriesAreRecent(cap, cfg, delay, w);
    SubsetSize(w.wrapped.byClient.Keys, KeysIn(w.tracked.routes, w.tracked.clock, span));
    if span <= 2 * TRACKED_TTL {
      TwoHours(cap, w.tracked, w.tracked.clock, span);
    }
  }

  lemma StartsWell(cap: nat, cfg: GL.Config, delay: nat, clock: Time)
    ensures WholeInv(cap, cfg, delay, WholeStart(clock))
  {
  }

  /** The bound of the wrapped tables, over every interleaving. */
  lemma WrappedTablesBounded(cap: nat, cfg: GL.Config, delay: nat, clock: Time, steps: seq<Step>)
    requires cfg.max >= 0 && WholeLegal(cap, cfg, delay, WholeStart(clock), steps)
    ensures var w := WholeRun(cap, cfg, WholeStart(clock), steps);
            && |w.wrapped.byClient| == |w.wrapped.bySource|
            && (w.lastAllow.Some? ==> TablesBounded(cap, cfg, delay, w))
  {
    StartsWell(cap, cfg, delay, clock);
    TablesAgree(cap, cfg, WholeStart(clock), steps);
    WholeRunKeeps(cap, cfg, delay, WholeStart(clock), steps);
    var w := WholeRun(cap, cfg, WholeStart(clock), steps);
    if w.lastAllow.Some? {
      EntriesBounded(cap, cfg, delay, w);
    }
  }

  /** The run as the wrapped limiter sees it. */
  function EventsOf(steps: seq<Step>): seq<GR.Event> {
    if steps == [] then []
    else
      (match steps[0]
       case Route(_) => []
       case Wrap(AllowOp(_, now), _) => [GR.AllowEvent(now)]
       case Wrap(FailOp(key, now), _) => [GR.FailEvent(key, key, now)]
       case Wrap(SuccessOp(key), _) => [GR.SuccessEvent(key, key)])
      + EventsOf(steps[1..])
  }

  lemma {:induction false} WrapsRun(cap: nat, cfg: GL.Config, delay: nat, w: Whole, y: GR.System, steps: seq<Step>)
    requires WholeLegal(cap, cfg, delay, w, steps) && y.limiter == w.wrapped && y.clock <= w.tracked.clock
    ensures GR.Legal(cfg, y, EventsOf(steps))
    ensures GR.Run(cfg, y, EventsOf(steps)).limiter == WholeRun(cap, cfg, w, steps).wrapped
    decreases |steps|
  {
    if steps != [] {
      var z := WholeNext(cap, cfg, w, steps[0]);
      if steps[0].Route? {
        WrapsRun(cap, cfg, delay, z, y, steps[1..]);
        assert EventsOf(steps) == EventsOf(steps[1..]);
      } else {
        var e := EventsOf(steps)[0];
        assert EventsOf(steps) == [e] + EventsOf(steps[1..]);
        WrapsRun(cap, cfg, delay, z, GR.Next(cfg, y, e), steps[1..]);
        assert EventsOf(steps)[1..] == EventsOf(steps[1..]);
      }
    }
  }

  /**
   What the two tables hold, exactly: the identities with a failure since their last
   success that no sweep has since forgotten.  The cap plays no part, so the tables
   keep to it if and only if those are no more than the cap.
   */
  lemma WrappedTablesExactly(cap: nat, cfg: GL.Config, delay: nat, clock: Time, steps: seq<Step>)
    requires WholeLegal(cap, cfg, delay, WholeStart(clock), steps)
    ensures var w := WholeRun(cap, cfg, WholeStart(clock), steps);
            var live := GR.LiveKeys(cfg, GR.Run(cfg, GR.Start(clock), EventsOf(steps)).clientLog);
            && w.wrapped.byClient.Keys == w.wrapped.bySource.Keys == live
            && (|w.wrapped.byClient| <= cap <==> |live| <= cap)
  {
    WrapsRun(cap, cfg, delay, WholeStart(clock), GR.Start(clock), steps);
    GR.EntriesAreStreaks(cfg, clock, EventsOf(steps));
    TablesAgree(cap, cfg, WholeStart(clock), steps);
    var w := WholeRun(cap, cfg, WholeStart(clock), steps);
    assert |w.wrapped.byClient| == |w.wrapped.byClient.Keys|;
  }

  // --------------------------------------------- the same, one operation at a time

  datatype Kind = Asks | Fails | Succeeds

  /** A whole call: the tracker at `now`, then the wrapped limiter, if it is sent there, at `later`. */
  datatype Op = Op(kind: Kind, key: string, now: Time, later: Time)

  function BucketOpOf(o: Op): BucketOp {
    match o.kind
    case Asks => AllowOp(o.key, o.later)
    case Fails => FailOp(o.key, o.later)
    case Succeeds => SuccessOp(o.key)
  }

  function CheckOf(o: Op): Check {
    Check(o.key, o.kind.Asks?, o.now)
  }

  function Done(cap: nat, cfg: GL.Config, w: Whole, o: Op): Whole {
    var z := WholeNext(cap, cfg, w, Route(CheckOf(o)));
    if OwnBucket(cap, w.tracked.tracker, o.key, o.kind.Asks?, o.now) then
      WholeNext(cap, cfg, z, Wrap(BucketOpOf(o), o.now))
    else z
  }

  predicate DoneLegal(cap: nat, cfg: GL.Config, delay: nat, w: Whole, ops: seq<Op>)
    decreases |ops|
  {
    ops == []
    || (w.tracked.clock <= ops[0].now <= ops[0].later <= ops[0].now + delay
        && DoneLegal(cap, cfg, delay, Done(cap, cfg, w, ops[0]), ops[1..]))
  }

  function DoneAll(cap: nat, cfg: GL.Config, w: Whole, ops: seq<Op>): Whole
    decreases |ops|
  {
    if ops == [] then w else DoneAll(cap, cfg, Done(cap, cfg, w, ops[0]), ops[1..])
  }

  /** Identities are tracked or have entries only if routed within memory of the last Allow. */
  ghost predicate SerialInv(cap: nat, cfg: GL.Config, delay: nat, w: Whole) {
    && WholeInv(cap, cfg, delay, w)
    && if w.lastAllow.None? then w.tracked.tracker.trackedAt == map[] && w.wrapped.byClient == map[]
       else
         && w.tracked.tracker.trackedAt.Keys <= KeysIn(w.tracked.routes, w.lastAllow.value, Memory(cfg, delay))
         && w.wrapped.byClient.Keys <= KeysIn(w.tracked.routes, w.lastAllow.value, Memory(cfg, delay))
  }

  lemma KeysInMore<K(!new)>(h: seq<Mark<K>>, m: Mark<K>, t: int, span: int)
    ensures KeysIn(h, t, span) <= KeysIn(h + [m], t, span)
  {
    forall k | k in KeysIn(h, t, span)
      ensures k in KeysIn(h + [m], t, span)
    {
      var i :| 0 <= i < |h| && t - span < h[i].at <= t && h[i].key == k;
      assert (h + [m])[i] == h[i];
    }
  }

  lemma TrackedAreRecent(cap: nat, cfg: GL.Config, delay: nat, w: Whole, o: Op)
    requires WholeInv(cap, cfg, delay, w) && cfg.max >= 0 && w.tracked.clock <= o.now <= o.later <= o.now + delay
    requires OwnBucket(cap, w.tracked.tracker, o.key, o.kind.Asks?, o.now)
    ensures var y := Next(cap, w.tracked, CheckOf(o));
            y.tracker.trackedAt.Keys <= KeysIn(y.routes, o.later, Memory(cfg, delay))
  {
    var y := Next(cap, w.tracked, CheckOf(o));
    forall key | key in y.tracker.trackedAt
      ensures key in KeysIn(y.routes, o.later, Memory(cfg, delay))
    {
      if key == o.key {
        assert y.routes[|y.routes| - 1] == Mark(key, o.now);
      } else {
        assert Mark(key, w.tracked.tracker.trackedAt[key]) in w.tracked.routes;
        var i :| 0 <= i < |w.tracked.routes| && w.tracked.routes[i] == Mark(key, w.tracked.tracker.trackedAt[key]);
        assert y.routes[i] == w.tracked.routes[i];
      }
    }
  }

  lemma DoneKeepsWhole(cap: nat, cfg: GL.Config, delay: nat, w: Whole, o: Op)
    requires cfg.max >= 0 && WholeInv(cap, cfg, delay, w) && w.tracked.clock <= o.now <= o.later <= o.now + delay
    ensures WholeInv(cap, cfg, delay, Done(cap, cfg, w, o))
  {
    RouteKeeps(cap, cfg, delay, w, CheckOf(o));
    if OwnBucket(cap, w.tracked.tracker, o.key, o.kind.Asks?, o.now) {
      var z := WholeNext(cap, cfg, w, Route(CheckOf(o)));
      assert z.tracked.routes[|z.tracked.routes| - 1] == Mark(o.key, o.now);
      WrapKeeps(cap, cfg, delay, z, Wrap(BucketOpOf(o), o.now));
    }
  }

  /** Nothing but an Ask with a bucket of its own adds a key to either. */
  lemma OthersAddNothing(cap: nat, cfg: GL.Config, w: Whole, o: Op)
    requires !(OwnBucket(cap, w.tracked.tracker, o.key, o.kind.Asks?, o.now) && o.kind.Asks?)
    ensures var z := Done(cap, cfg, w, o);
            && z.lastAllow == w.lastAllow
            && z.tracked.tracker.trackedAt.Keys <= w.tracked.tracker.trackedAt.Keys
            && z.wrapped.byClient.Keys <= w.wrapped.byClient.Keys + w.tracked.tracker.trackedAt.Keys
            && (z.tracked.routes == w.tracked.routes || z.tracked.routes == w.tracked.routes + [Mark(o.key, o.now)])
  {
    var t := Swept(w.tracked.tracker, o.now).trackedAt;
    assert t.Keys <= w.tracked.tracker.trackedAt.Keys;
  }

  lemma AskedKeeps(cap: nat, cfg: GL.Config, delay: nat, w: Whole, o: Op)
    requires cfg.max >= 0 && WholeInv(cap, cfg, delay, w) && w.tracked.clock <= o.now <= o.later <= o.now + delay
    requires OwnBucket(cap, w.tracked.tracker, o.key, o.kind.Asks?, o.now) && o.kind.Asks?
    ensures SerialInv(cap, cfg, delay, Done(cap, cfg, w, o))
  {
    DoneKeepsWhole(cap, cfg, delay, w, o);
    TrackedAreRecent(cap, cfg, delay, w, o);
    EntriesAreRecent(cap, cfg, delay, Done(cap, cfg, w, o));
  }

  lemma OthersKeep(cap: nat, cfg: GL.Config, delay: nat, w: Whole, o: Op)
    requires cfg.max >= 0 && SerialInv(cap, cfg, delay, w) && w.tracked.clock <= o.now <= o.later <= o.now + delay
    requires !(OwnBucket(cap, w.tracked.tracker, o.key, o.kind.Asks?, o.now) && o.kind.Asks?)
    ensures SerialInv(cap, cfg, delay, Done(cap, cfg, w, o))
  {
    DoneKeepsWhole(cap, cfg, delay, w, o);
    OthersAddNothing(cap, cfg, w, o);
    if w.lastAllow.Some? {
      KeysInMore(w.tracked.routes, Mark(o.key, o.now), w.lastAllow.value, Memory(cfg, delay));
    }
  }

  lemma DoneKeeps(cap: nat, cfg: GL.Config, delay: nat, w: Whole, o: Op)
    requires cfg.max >= 0 && SerialInv(cap, cfg, delay, w) && w.tracked.clock <= o.now <= o.later <= o.now + delay
    ensures SerialInv(cap, cfg, delay, Done(cap, cfg, w, o))
  {
    if OwnBucket(cap, w.tracked.tracker, o.key, o.kind.Asks?, o.now) && o.kind.Asks? {
      AskedKeeps(cap, cfg, delay, w, o);
    } else {
      OthersKeep(cap, cfg, delay, w, o);
    }
  }

  lemma {:induction false} DoneAllKeeps(cap: nat, cfg: GL.Config, delay: nat, w: Whole, ops: seq<Op>)
    requires cfg.max >= 0 && SerialInv(cap, cfg, delay, w) && DoneLegal(cap, cfg, delay, w, ops)
    ensures SerialInv(cap, cfg, delay, DoneAll(cap, cfg, w, ops))
    decreases |ops|
  {
    if ops != [] {
      DoneKeeps(cap, cfg, delay, w, ops[0]);
      DoneAllKeeps(cap, cfg, delay, Done(cap, cfg, w, ops[0]), ops[1..]);
    }
  }

  lemma {:induction false} SerialTablesAgree(cap: nat, cfg: GL.Config, w: Whole, ops: seq<Op>)
    requires Agree(w.wrapped.byClient, w.wrapped.bySource)
    ensures var z := DoneAll(cap, cfg, w, ops);
            Agree(z.wrapped.byClient, z.wrapped.bySource) && |z.wrapped.byClient| == |z.wrapped.bySource|
    decreases |ops|
  {
    if ops == [] {
      assert |w.wrapped.byClient.Keys| == |w.wrapped.bySource.Keys|;
    } else {
      AppliedAgrees(cfg, w.wrapped, BucketOpOf(ops[0]));
      SerialTablesAgree(cap, cfg, Done(cap, cfg, w, ops[0]), ops[1..]);
    }
  }

  /**
   With operations one at a time the tables are always bounded: by the identities
   routed within memory of the last Allow, hence by the cap whenever those are, and by
   twice the cap as long as memory is at most two hours.
   */
  lemma SerialTablesBounded(cap: nat, cfg: GL.Config, delay: nat, clock: Time, ops: seq<Op>)
    requires cfg.max >= 0 && DoneLegal(cap, cfg, delay, WholeStart(clock), ops)
    ensures var w := DoneAll(cap, cfg, WholeStart(clock), ops);
            && |w.wrapped.byClient| == |w.wrapped.bySource|
            && (w.lastAllow.None? ==> w.wrapped.byClient == map[])
            && (w.lastAllow.Some? ==>
                  |w.wrapped.byClient| <= |KeysIn(w.tracked.routes, w.lastAllow.value, Memory(cfg, delay))|)
            && (Memory(cfg, delay) <= 2 * TRACKED_TTL ==> |w.wrapped.byClient| <= 2 * cap)
  {
    DoneAllKeeps(cap, cfg, delay, WholeStart(clock), ops);
    SerialTablesAgree(cap, cfg, WholeStart(clock), ops);
    var w := DoneAll(cap, cfg, WholeStart(clock), ops);
    if w.lastAllow.Some? {
      SubsetSize(w.wrapped.byClient.Keys, KeysIn(w.tracked.routes, w.lastAllow.value, Memory(cfg, delay)));
      if Memory(cfg, delay) <= 2 * TRACKED_TTL {
        TwoHours(cap, w.tracked, w.lastAllow.value, Memory(cfg, delay));
      }
    }
  }

  /** A request by an identity that is allowed through and then fails, with nothing in between. */
  function FailedAttempt(cap: nat, cfg: GL.Config, tracker: Tracker, s: GL.State, key: string,
                         now: Time): (Tracker, GL.State)
  {
    var t := Checked(cap, tracker, key, true, now);
    if !OwnBucket(cap, tracker, key, true, now) then (t, s)
    else
      var swept := GL.Swept(s, now);
      if !GL.Allowed(swept, key, key, now) then (t, swept)
      else
        (Checked(cap, t, key, false, now),
         if OwnBucket(cap, t, key, false, now) then GL.Failed(cfg, swept, key, key, now) else swept)
  }

  function FirstDelay(cfg: GL.Config): int {
    Backoff.Delay(cfg.base, cfg.max, 1)
  }

  /** What is left once each key of `keys` has failed once at time 0. */
  ghost predicate Filled(cfg: GL.Config, keys: set<string>, tracker: Tracker, s: GL.State) {
    && tracker.trackedAt.Keys == keys == s.byClient.Keys == s.bySource.Keys
    && (forall key :: key in keys ==> tracker.trackedAt[key] == 0)
    && (forall key :: key in keys ==> s.byClient[key].blockedUntil == s.bySource[key].blockedUntil == FirstDelay(cfg))
    && (keys != {} ==> tracker.lastSweep == Some(0) && s.lastSweep == Some(0))
    && (keys == {} ==> tracker.lastSweep == None && s.lastSweep == None)
  }

  /** At that moment neither sweeps anything away. */
  lemma FilledSweeps(cfg: GL.Config, keys: set<string>, tracker: Tracker, s: GL.State)
    requires cfg.max > 0 && Filled(cfg, keys, tracker, s)
    ensures Swept(tracker, 0) == Tracker(tracker.trackedAt, Some(0))
    ensures GL.Swept(s, 0) == GL.State(s.byClient, s.bySource, Some(0), s.alerts)
  {
    assert keys == {} ==> tracker.trackedAt == map[] && s.byClient == map[] && s.bySource == map[];
  }

  lemma FailsOnce(cap: nat, cfg: GL.Config, keys: set<string>, tracker: Tracker, s: GL.State, key: string)
    requires cfg.max > 0 && Filled(cfg, keys, tracker, s) && key !in keys && |keys| < cap
    ensures FailedAttempt(cap, cfg, tracker, s, key, 0)
         == (Tracker(tracker.trackedAt[key := 0], Some(0)), GL.Failed(cfg, GL.Swept(s, 0), key, key, 0))
  {
    FilledSweeps(cfg, keys, tracker, s);
    var t := Checked(cap, tracker, key, true, 0);
    assert t == Tracker(tracker.trackedAt[key := 0], Some(0)) && Swept(t, 0) == t;
    assert Checked(cap, t, key, false, 0).trackedAt == t.trackedAt;
  }

  lemma FillOne(cap: nat, cfg: GL.Config, keys: set<string>, tracker: Tracker, s: GL.State, key: string)
    requires cfg.max > 0 && Filled(cfg, keys, tracker, s) && key !in keys && |keys| < cap
    ensures var (t, u) := FailedAttempt(cap, cfg, tracker, s, key, 0);
            Filled(cfg, keys + {key}, t, u)
  {
    FailsOnce(cap, cfg, keys, tracker, s, key);
    FilledSweeps(cfg, keys, tracker, s);
  }

  /** Every key of `order` in turn fails at time 0. */
  function Fill(cap: nat, cfg: GL.Config, order: seq<string>): (Tracker, GL.State) {
    if order == [] then (NONE_TRACKED, GL.State(map[], map[], None, []))
    else
      var (t, u) := Fill(cap, cfg, order[..|order| - 1]);
      FailedAttempt(cap, cfg, t, u, order[|order| - 1], 0)
  }

  lemma {:induction false} FillAll(cap: nat, cfg: GL.Config, order: seq<string>)
    requires cfg.max > 0
    requires |order| <= cap && Distinct(order)
    ensures Filled(cfg, Members(order), Fill(cap, cfg, order).0, Fill(cap, cfg, order).1)
    ensures |Members(order)| == |order|
  {
    if order != [] {
      var rest := order[..|order| - 1];
      FillAll(cap, cfg, rest);
      MembersSnoc(order);
      FillOne(cap, cfg, Members(rest), Fill(cap, cfg, rest).0, Fill(cap, cfg, rest).1, order[|order| - 1]);
    }
  }

  lemma HourLater(cap: nat, cfg: GL.Config, keys: set<string>, t: Tracker, u: GL.State, extra: string)
    requires cfg.max > 0
    requires Filled(cfg, keys, t, u) && keys != {} && |keys| == cap && extra !in keys
    ensures FailedAttempt(cap, cfg, t, u, extra, HOUR).0.trackedAt.Keys == {extra}
    ensures FailedAttempt(cap, cfg, t, u, extra, HOUR).1.byClient.Keys == keys + {extra}
    ensures OwnBucket(cap, t, extra, true, HOUR) && GL.Allowed(GL.Swept(u, HOUR), extra, extra, HOUR)
  {
    assert Swept(t, HOUR).trackedAt == map[];
    assert GL.Dropped(u.byClient, HOUR) == u.byClient;
    assert GL.Dropped(u.bySource, HOUR) == u.bySource;
    var c := Checked(cap, t, extra, true, HOUR);
    assert c == Tracker(map[extra := HOUR], Some(HOUR));
    assert Swept(c, HOUR) == c;
  }

  /** The operations of a request by `key` that is let through and fails, all at one moment. */
  function FailingRequest(key: string, at: Time): seq<Op> {
    [Op(Asks, key, at, at), Op(Fails, key, at, at)]
  }

  function FailingRequests(order: seq<string>, at: Time): seq<Op> {
    if order == [] then [] else FailingRequests(order[..|order| - 1], at) + FailingRequest(order[|order| - 1], at)
  }

  lemma {:induction false} DoneConcat(cap: nat, cfg: GL.Config, w: Whole, a: seq<Op>, b: seq<Op>)
    requires DoneLegal(cap, cfg, 0, w, a) && DoneLegal(cap, cfg, 0, DoneAll(cap, cfg, w, a), b)
    ensures DoneLegal(cap, cfg, 0, w, a + b)
            && DoneAll(cap, cfg, w, a + b) == DoneAll(cap, cfg, DoneAll(cap, cfg, w, a), b)
    decreases |a|
  {
    if a == [] {
      assert a + b == b;
    } else {
      DoneConcat(cap, cfg, Done(cap, cfg, w, a[0]), a[1..], b);
      assert (a + b)[0] == a[0] && (a + b)[1..] == a[1..] + b;
    }
  }

  /** A failing request is the two operations in turn. */
  lemma FailingRequestDone(cap: nat, cfg: GL.Config, w: Whole, key: string, at: Time)
    requires w.tracked.clock <= at && OwnBucket(cap, w.tracked.tracker, key, true, at)
    requires GL.Allowed(GL.Swept(w.wrapped, at), key, key, at)
    ensures DoneLegal(cap, cfg, 0, w, FailingRequest(key, at))
    ensures var z := DoneAll(cap, cfg, w, FailingRequest(key, at));
            && (z.tracked.tracker, z.wrapped) == FailedAttempt(cap, cfg, w.tracked.tracker, w.wrapped, key, at)
            && z.tracked.clock == at
  {
    var ops := FailingRequest(key, at);
    var one := Done(cap, cfg, w, ops[0]);
    assert ops[1..] == [ops[1]] && [ops[1]][1..] == [];
    assert one.tracked.tracker == Checked(cap, w.tracked.tracker, key, true, at)
      && one.wrapped == GL.Swept(w.wrapped, at);
    assert key in one.tracked.tracker.trackedAt;
    assert DoneLegal(cap, cfg, 0, Done(cap, cfg, one, ops[1]), []);
    assert DoneAll(cap, cfg, one, [ops[1]]) == Done(cap, cfg, one, ops[1]);
  }

  lemma {:induction false} FillIsDone(cap: nat, cfg: GL.Config, order: seq<string>)
    requires cfg.max > 0 && |order| <= cap && Distinct(order)
    ensures DoneLegal(cap, cfg, 0, WholeStart(0), FailingRequests(order, 0))
    ensures var w := DoneAll(cap, cfg, WholeStart(0), FailingRequests(order, 0));
            (w.tracked.tracker, w.wrapped) == Fill(cap, cfg, order) && w.tracked.clock == 0
  {
    if order != [] {
      var rest, last := order[..|order| - 1], order[|order| - 1];
      FillIsDone(cap, cfg, rest);
      FillAll(cap, cfg, rest);
      MembersSnoc(order);
      var w := DoneAll(cap, cfg, WholeStart(0), FailingRequests(rest, 0));
      NewKeyLetThrough(cap, cfg, Members(rest), w.tracked.tracker, w.wrapped, last);
      FailingRequestDone(cap, cfg, w, last, 0);
      DoneConcat(cap, cfg, WholeStart(0), FailingRequests(rest, 0), FailingRequest(last, 0));
    }
  }

  lemma NewKeyLetThrough(cap: nat, cfg: GL.Config, keys: set<string>, tracker: Tracker, s: GL.State, key: string)
    requires Filled(cfg, keys, tracker, s) && key !in keys && |keys| < cap
    ensures OwnBucket(cap, tracker, key, true, 0) && GL.Allowed(GL.Swept(s, 0), key, key, 0)
  {
    assert Swept(tracker, 0).trackedAt.Keys == keys;
  }

  /**
   No bound by the cap alone: at any cap, cap identities that fail and one more an hour
   later, one operation at a time, leave cap + 1 entries beside at most cap tracked keys.
   */
  lemma WrappedTablesOutgrowCap(cap: nat, cfg: GL.Config, order: seq<string>, extra: string)
    requires cfg.max > 0
    requires |order| == cap > 0 && Distinct(order) && extra !in order
    ensures var ops := FailingRequests(order, 0) + FailingRequest(extra, HOUR);
            && DoneLegal(cap, cfg, 0, WholeStart(0), ops)
            && var w := DoneAll(cap, cfg, WholeStart(0), ops);
               |w.tracked.tracker.trackedAt| <= cap < |w.wrapped.byClient|
  {
    FillAll(cap, cfg, order);
    FillIsDone(cap, cfg, order);
    var keys, w := Members(order), DoneAll(cap, cfg, WholeStart(0), FailingRequests(order, 0));
    assert order[0] in keys;
    HourLater(cap, cfg, keys, w.tracked.tracker, w.wrapped, extra);
    FailingRequestDone(cap, cfg, w, extra, HOUR);
    DoneConcat(cap, cfg, WholeStart(0), FailingRequests(order, 0), FailingRequest(extra, HOUR));
    var z := DoneAll(cap, cfg, w, FailingRequest(extra, HOUR));
    assert |z.tracked.tracker.trackedAt.Keys| == 1;
    assert |z.wrapped.byClient.Keys| == cap + 1;
  }

  /** No run of operations takes the wrapped tables past the cap. */
  ghost predicate CapHolds(cap: nat, cfg: GL.Config, delay: nat) {
    forall ops :: DoneLegal(cap, cfg, delay, WholeStart(0), ops) ==>
      var w := DoneAll(cap, cfg, WholeStart(0), ops).wrapped;
      |w.byClient| <= cap && |w.bySource| <= cap
  }

  lemma {:induction false} LegalWithDelay(cap: nat, cfg: GL.Config, delay: nat, w: Whole, ops: seq<Op>)
    requires DoneLegal(cap, cfg, 0, w, ops)
    ensures DoneLegal(cap, cfg, delay, w, ops)
    decreases |ops|
  {
    if ops != [] {
      LegalWithDelay(cap, cfg, delay, Done(cap, cfg, w, ops[0]), ops[1..]);
    }
  }

  /** With no bucket to be had, nothing reaches the wrapped limiter. */
  lemma {:induction false} NothingRouted(cfg: GL.Config, w: Whole, ops: seq<Op>)
    requires w.tracked.tracker.trackedAt == map[]
    ensures DoneAll(0, cfg, w, ops).wrapped == w.wrapped
    decreases |ops|
  {
    if ops != [] {
      assert Swept(w.tracked.tracker, ops[0].now).trackedAt == map[];
      NothingRouted(cfg, Done(0, cfg, w, ops[0]), ops[1..]);
    }
  }

  /** Distinct identities, as many as are asked for. */
  function Identities(n: nat): seq<string> {
    if n == 0 then [] else Identities(n - 1) + [seq(n - 1, _ => 'a')]
  }

  lemma {:induction false} IdentitiesDistinct(n: nat)
    ensures |Identities(n)| == n && Distinct(Identities(n))
    ensures forall i :: 0 <= i < n ==> |Identities(n)[i]| == i
  {
    if n > 0 {
      IdentitiesDistinct(n - 1);
    }
  }

  /** Whatever the delays, the cap on tracked identities caps the wrapped tables only when it lets none in. */
  lemma CapHoldsExactly(cap: nat, cfg: GL.Config, delay: nat)
    requires cfg.max > 0
    ensures CapHolds(cap, cfg, delay) <==> cap == 0
  {
    if cap == 0 {
      forall ops | DoneLegal(cap, cfg, delay, WholeStart(0), ops)
        ensures DoneAll(cap, cfg, WholeStart(0), ops).wrapped == WholeStart(0).wrapped
      {
        NothingRouted(cfg, WholeStart(0), ops);
      }
    } else {
      var names := Identities(cap + 1);
      IdentitiesDistinct(cap + 1);
      var order, extra := names[..cap], names[cap];
      WrappedTablesOutgrowCap(cap, cfg, order, extra);
      LegalWithDelay(cap, cfg, delay, WholeStart(0), FailingRequests(order, 0) + FailingRequest(extra, HOUR));
    }
  }

  // --------------------------------------------- one key in both key slots

  /** The same limiter with a single table. */
  function AppliedOnce(cfg: GL.Config, m: GL.Table, lastSweep: Option<Time>, op: BucketOp): (GL.Table, Option<Time>) {
    match op
    case AllowOp(_, now) =>
      if lastSweep.None? || now - lastSweep.value >= GL.SWEEP_INTERVAL then (GL.Dropped(m, now), Some(now))
        else (m, lastSweep)
    case FailOp(key, now) => (m[key := GL.Advanced(cfg, m, key, now)], lastSweep)
    case SuccessOp(key) => (m - {key}, lastSweep)
  }

  function Answers(cfg: GL.Config, s: GL.State, ops: seq<BucketOp>): seq<bool>
    decreases |ops|
  {
    if ops == [] then []
    else
      var t := Applied(cfg, s, ops[0]);
      (if ops[0].AllowOp? then [GL.Allowed(t, ops[0].key, ops[0].key, ops[0].now)] else []) + Answers(cfg, t, ops[1..])
  }

  function AnswersOnce(cfg: GL.Config, m: GL.Table, lastSweep: Option<Time>, ops: seq<BucketOp>): seq<bool>
    decreases |ops|
  {
    if ops == [] then []
    else
      var (n, swept) := AppliedOnce(cfg, m, lastSweep, ops[0]);
      (if ops[0].AllowOp? then [!GL.Blocked(n, ops[0].key, ops[0].now)] else []) + AnswersOnce(cfg, n, swept, ops[1..])
  }

  ghost predicate InStep(s: GL.State, m: GL.Table, lastSweep: Option<Time>) {
    Agree(s.byClient, s.bySource) && Agree(s.byClient, m) && s.lastSweep == lastSweep
  }

  lemma AppliedInStep(cfg: GL.Config, s: GL.State, m: GL.Table, lastSweep: Option<Time>, op: BucketOp)
    requires InStep(s, m, lastSweep)
    ensures InStep(Applied(cfg, s, op), AppliedOnce(cfg, m, lastSweep, op).0, AppliedOnce(cfg, m, lastSweep, op).1)
  {
    match op
    case AllowOp(_, now) =>
    case FailOp(key, now) =>
      assert key in s.byClient <==> key in m;
      assert key in s.byClient <==> key in s.bySource;
    case SuccessOp(key) =>
  }

  /** The doubled book-keeping is one limiter: its two tables never part, and it answers as one table would. */
  lemma {:induction false} OneTableSuffices(cfg: GL.Config, s: GL.State, m: GL.Table, lastSweep: Option<Time>,
                                            ops: seq<BucketOp>)
    requires InStep(s, m, lastSweep)
    ensures Answers(cfg, s, ops) == AnswersOnce(cfg, m, lastSweep, ops)
    decreases |ops|
  {
    if ops != [] {
      AppliedInStep(cfg, s, m, lastSweep, ops[0]);
      var (n, swept) := AppliedOnce(cfg, m, lastSweep, ops[0]);
      OneTableSuffices(cfg, Applied(cfg, s, ops[0]), n, swept, ops[1..]);
    }
  }
}
