/**
 Every interleaving of KeyForKid calls on one cache.  Each call is a program
 counter; each step is one locked region of one call.
 */
module JwksRuns {
  import opened Collections
  import opened Outcomes
  import opened SlidingWindow
  import opened JwksCache

  datatype Cause = Scheduled | OutOfBand

  datatype Pc =
    | Deciding
    | Attempting(cause: Cause)
    | Fetching(cause: Cause)
    | Enforcing(cause: Cause)
    | LookingUp
    | Reserving
    | LookingAgain
    | Returned(answer: Result<Key, KeyError>)

  /**
   `checkedAt` is when the call passed its freshness or staleness check, `floorPassed`
   whether its decision found the retry floor passed, `grant` its out-of-band reservation.
   */
  datatype Call = Call(kid: Kid, begun: Time, pc: Pc, checkedAt: Option<Time>, floorPassed: Option<bool>,
                       grant: Option<nat>)

  datatype Attempt = Attempt(cause: Cause, at: Time, grant: Option<nat>)

  datatype System = System(
    cache: Cache,
    clock: Time,
    calls: map<nat, Call>,
    commits: seq<Commit>,
    grants: seq<Mark<Kid>>,
    attempts: seq<Attempt>)

  datatype Step =
    | Begin(id: nat, kid: Kid)
    | Decide(id: nat, t1: Time, t2: Time)
    | MarkAttempt(id: nat, now: Time)
    | FetchSucceeds(id: nat, fetched: KeySet, now: Time)
    | FetchFails(id: nat)
    | Enforce(id: nat, now: Time)
    | LookUp(id: nat)
    | Reserve(id: nat, now: Time, after: map<Kid, Time>, granted: bool)

  ghost predicate Enabled(y: System, s: Step) {
    if s.Begin? then s.id !in y.calls
    else
      && s.id in y.calls
      && var pc := y.calls[s.id].pc;
         match s
         case Begin(_, _) => false
         case Decide(_, t1, t2) => pc.Deciding? && y.clock <= t1 <= t2
         case MarkAttempt(_, now) => pc.Attempting? && y.clock <= now
         case FetchSucceeds(_, _, now) => pc.Fetching? && y.clock <= now
         case FetchFails(_) => pc.Fetching?
         case Enforce(_, now) => pc.Enforcing? && y.clock <= now
         case LookUp(_) => pc.LookingUp? || pc.LookingAgain?
         case Reserve(_, now, after, granted) =>
           pc.Reserving? && y.clock <= now
             && Reserves(y.cache.unknownKids, y.calls[s.id].kid, y.clock, now, after, granted)
  }

  /** The region that follows a refresh that did not fail the call. */
  function Resumed(cause: Cause): Pc {
    if cause.Scheduled? then LookingUp else LookingAgain
  }

  /** An out-of-band refresh's failure is ignored; a scheduled one's fails the call. */
  function Refused(cause: Cause, e: KeyError): Pc {
    if cause.Scheduled? then Returned(Err(e)) else LookingAgain
  }

  function Found(key: Option<Key>, otherwise: Pc): Pc {
    if key.Some? then Returned(Ok(key.value)) else otherwise
  }

  function Next(ttl: int, y: System, s: Step): System
    requires Enabled(y, s)
  {
    match s
    case Begin(id, kid) =>
      y.(calls := y.calls[id := Call(kid, y.clock, Deciding, None, None, None)])
    case Decide(id, t1, t2) =>
      var c := y.calls[id].(floorPassed := Some(CanAttempt(y.cache, t2)));
      var c' := if !NeedsRefresh(y.cache, ttl, t1) then c.(pc := LookingUp, checkedAt := Some(t1))
                else if CanAttempt(y.cache, t2) then c.(pc := Attempting(Scheduled))
                else c.(pc := Enforcing(Scheduled));
      y.(clock := t2, calls := y.calls[id := c'])
    case MarkAttempt(id, now) =>
      var c := y.calls[id];
      y.(cache := Attempted(y.cache, now), clock := now,
         calls := y.calls[id := c.(pc := Fetching(c.pc.cause))],
         attempts := y.attempts + [Attempt(c.pc.cause, now, c.grant)])
    case FetchSucceeds(id, fetched, now) =>
      var c := y.calls[id];
      y.(cache := Committed(y.cache, fetched, now), clock := now,
         calls := y.calls[id := c.(pc := Resumed(c.pc.cause),
                                   checkedAt := if c.pc.cause.Scheduled? then Some(now) else c.checkedAt)],
         commits := y.commits + [Commit(fetched, now)])
    case FetchFails(id) =>
      var c := y.calls[id];
      y.(cache := FetchFailed(y.cache),
         calls := y.calls[id := c.(pc := if y.cache.keys.None? then Refused(c.pc.cause, Unreachable)
                                   else Enforcing(c.pc.cause))])
    case Enforce(id, now) =>
      var c := y.calls[id];
      var refusal := Ceiling(y.cache, ttl, now);
      var c' := if refusal.Some? then c.(pc := Refused(c.pc.cause, refusal.value))
                else c.(pc := Resumed(c.pc.cause),
                        checkedAt := if c.pc.cause.Scheduled? then Some(now) else c.checkedAt);
      y.(cache := Enforced(y.cache, ttl, now), clock := now, calls := y.calls[id := c'])
    case LookUp(id) =>
      var c := y.calls[id];
      var otherwise := if c.pc.LookingUp? then Reserving else Returned(Err(NoSuchKey));
      y.(calls := y.calls[id := c.(pc := Found(Lookup(y.cache, c.kid), otherwise))])
    case Reserve(id, now, after, granted) =>
      var c := y.calls[id];
      var c' := if granted then c.(pc := Attempting(OutOfBand), grant := Some(|y.grants|))
        else c.(pc := Returned(Err(NoSuchKey)));
      y.(cache := y.cache.(unknownKids := after), clock := now, calls := y.calls[id := c'],
         grants := if granted then y.grants + [Mark(c.kid, now)] else y.grants)
  }

  ghost predicate Legal(ttl: int, y: System, steps: seq<Step>)
    decreases |steps|
  {
    steps == [] || (Enabled(y, steps[0]) && Legal(ttl, Next(ttl, y, steps[0]), steps[1..]))
  }

  ghost function Run(ttl: int, y: System, steps: seq<Step>): System
    requires Legal(ttl, y, steps)
    decreases |steps|
  {
    if steps == [] then y else Run(ttl, Next(ttl, y, steps[0]), steps[1..])
  }

  function Start(clock: Time): System {
    System(COLD, clock, map[], [], [], [])
  }

  // --------------------------------------------------------------- staleness

  /** The call's key comes from a set committed within the staleness bound of the call's own check. */
  ghost predicate Justified(ttl: int, commits: seq<Commit>, c: Call, key: Key) {
    && c.checkedAt.Some?
    && c.begun <= c.checkedAt.value
    && exists i :: 0 <= i < |commits| && Supplies(ttl, commits[i], c, key)
  }

  ghost predicate Supplies(ttl: int, source: Commit, c: Call, key: Key)
    requires c.checkedAt.Some?
  {
    && c.kid in source.keys && source.keys[c.kid] == key
    && c.checkedAt.value - source.at <= STALENESS_MULTIPLE * ttl
  }

  predicate PastCheck(pc: Pc) {
    match pc
    case Deciding => false
    case Attempting(cause) => cause.OutOfBand?
    case Fetching(cause) => cause.OutOfBand?
    case Enforcing(cause) => cause.OutOfBand?
    case LookingUp => true
    case Reserving => true
    case LookingAgain => true
    case Returned(answer) => answer.Ok?
  }

  ghost predicate CallOk(ttl: int, y: System, c: Call) {
    && c.begun <= y.clock
    && (PastCheck(c.pc) ==> c.checkedAt.Some?)
    && (c.checkedAt.Some? ==>
          && c.begun <= c.checkedAt.value <= y.clock
          && y.cache.keys.Some?
          && c.checkedAt.value - y.cache.fetchedAt <= STALENESS_MULTIPLE * ttl)
    && (c.pc.Returned? && c.pc.answer.Ok? ==> Justified(ttl, y.commits, c, c.pc.answer.value))
  }

  ghost predicate CacheOk(y: System) {
    && (y.cache.keys.Some? <==> y.commits != [])
    && (y.cache.keys.Some? ==>
          y.commits[|y.commits| - 1] == Commit(y.cache.keys.value, y.cache.fetchedAt) && y.cache.fetchedAt <= y.clock)
  }

  ghost predicate StalenessInv(ttl: int, y: System) {
    CacheOk(y) && forall id :: id in y.calls ==> CallOk(ttl, y, y.calls[id])
  }

  lemma StepKeepsCall(ttl: int, y: System, s: Step, id: nat)
    requires ttl >= 0 && StalenessInv(ttl, y) && Enabled(y, s) && id in Next(ttl, y, s).calls
    ensures CallOk(ttl, Next(ttl, y, s), Next(ttl, y, s).calls[id])
  {
    var z := Next(ttl, y, s);
    if id != s.id {
      assert CallOk(ttl, y, y.calls[id]);
      KeepsJustified(ttl, y, z, y.calls[id]);
    } else if s.LookUp? {
      assert CallOk(ttl, y, y.calls[id]);
      var key := Lookup(y.cache, y.calls[id].kid);
      if key.Some? {
        assert Supplies(ttl, y.commits[|y.commits| - 1], z.calls[id], key.value);
      }
    } else if !s.Begin? {
      assert CallOk(ttl, y, y.calls[id]);
    }
  }

  lemma KeepsJustified(ttl: int, y: System, z: System, c: Call)
    requires y.commits <= z.commits
    requires c.pc.Returned? && c.pc.answer.Ok? ==> Justified(ttl, y.commits, c, c.pc.answer.value)
    ensures c.pc.Returned? && c.pc.answer.Ok? ==> Justified(ttl, z.commits, c, c.pc.answer.value)
  {
    if c.pc.Returned? && c.pc.answer.Ok? {
      var i :| 0 <= i < |y.commits| && Supplies(ttl, y.commits[i], c, c.pc.answer.value);
      assert Supplies(ttl, z.commits[i], c, c.pc.answer.value);
    }
  }

  lemma {:induction false} RunKeepsStaleness(ttl: int, y: System, steps: seq<Step>)
    requires ttl >= 0 && StalenessInv(ttl, y) && Legal(ttl, y, steps)
    ensures StalenessInv(ttl, Run(ttl, y, steps))
    decreases |steps|
  {
    if steps != [] {
      var z := Next(ttl, y, steps[0]);
      forall id | id in z.calls
        ensures CallOk(ttl, z, z.calls[id])
      {
        StepKeepsCall(ttl, y, steps[0], id);
      }
      RunKeepsStaleness(ttl, z, steps[1..]);
    }
  }

  /** In every interleaving, every key handed out is justified. */
  lemma KeysNeverTooStale(ttl: int, clock: Time, steps: seq<Step>, id: nat)
    requires ttl >= 0 && Legal(ttl, Start(clock), steps)
    requires id in Run(ttl, Start(clock), steps).calls
    ensures var y := Run(ttl, Start(clock), steps);
            var c := y.calls[id];
            c.pc.Returned? && c.pc.answer.Ok? ==> Justified(ttl, y.commits, c, c.pc.answer.value)
  {
    RunKeepsStaleness(ttl, Start(clock), steps);
    assert CallOk(ttl, Run(ttl, Start(clock), steps), Run(ttl, Start(clock), steps).calls[id]);
  }

  // --------------------------------------------------- calls without a key set

  predicate OnSchedule(pc: Pc) {
    match pc
    case Attempting(cause) => cause.Scheduled?
    case Fetching(cause) => cause.Scheduled?
    case _ => false
  }

  /** What the decision a call made says about where it can be now. */
  ghost predicate FloorOk(y: System, c: Call) {
    && (c.pc.Deciding? <==> c.floorPassed.None?)
    && (OnSchedule(c.pc) ==> c.floorPassed == Some(true))
    && (c.pc.Enforcing? && c.pc.cause.Scheduled? && c.floorPassed == Some(true) ==> y.cache.keys.Some?)
    && (PastCheck(c.pc) ==> y.cache.keys.Some?)
    && (c.pc == Returned(Err(Unreachable)) ==> c.floorPassed == Some(true))
    && (c.pc == Returned(Err(NotPopulated)) ==> c.floorPassed.Some? && !c.floorPassed.value)
  }

  lemma StepKeepsFloor(ttl: int, y: System, s: Step, id: nat)
    requires Enabled(y, s) && (forall i :: i in y.calls ==> FloorOk(y, y.calls[i])) && id in Next(ttl, y, s).calls
    ensures FloorOk(Next(ttl, y, s), Next(ttl, y, s).calls[id])
  {
    if id in y.calls {
      assert FloorOk(y, y.calls[id]);
    }
    if s.Enforce? && id == s.id {
      var c := y.calls[id];
      assert c.floorPassed.Some? && (c.floorPassed.value ==> c.floorPassed == Some(true));
    }
  }

  lemma {:induction false} RunKeepsFloor(ttl: int, y: System, steps: seq<Step>)
    requires Legal(ttl, y, steps) && forall id :: id in y.calls ==> FloorOk(y, y.calls[id])
    ensures forall id :: id in Run(ttl, y, steps).calls ==> FloorOk(Run(ttl, y, steps), Run(ttl, y, steps).calls[id])
    decreases |steps|
  {
    if steps != [] {
      var z := Next(ttl, y, steps[0]);
      forall id | id in z.calls
        ensures FloorOk(z, z.calls[id])
      {
        StepKeepsFloor(ttl, y, steps[0], id);
      }
      RunKeepsFloor(ttl, z, steps[1..]);
    }
  }

  /**
   In every interleaving, a call refused for want of a key set is told the issuer is
   unreachable if and only if its decision found the retry floor passed; otherwise it
   is told the cache is not populated.
   */
  lemma ColdRefusals(ttl: int, clock: Time, steps: seq<Step>, id: nat)
    requires Legal(ttl, Start(clock), steps) && id in Run(ttl, Start(clock), steps).calls
    ensures var c := Run(ttl, Start(clock), steps).calls[id];
            c.pc == Returned(Err(Unreachable)) || c.pc == Returned(Err(NotPopulated)) ==>
              (c.pc == Returned(Err(Unreachable)) <==> c.floorPassed == Some(true))
  {
    RunKeepsFloor(ttl, Start(clock), steps);
    assert FloorOk(Run(ttl, Start(clock), steps), Run(ttl, Start(clock), steps).calls[id]);
  }

  lemma {:induction false} RunConcat(ttl: int, y: System, a: seq<Step>, b: seq<Step>)
    requires Legal(ttl, y, a) && Legal(ttl, Run(ttl, y, a), b)
    ensures Legal(ttl, y, a + b) && Run(ttl, y, a + b) == Run(ttl, Run(ttl, y, a), b)
    decreases |a|
  {
    if a == [] {
      assert a + b == b;
    } else {
      RunConcat(ttl, Next(ttl, y, a[0]), a[1..], b);
      assert (a + b)[0] == a[0] && (a + b)[1..] == a[1..] + b;
    }
  }

  lemma RunMore(ttl: int, y: System, a: seq<Step>, s: Step)
    requires Legal(ttl, y, a) && Enabled(Run(ttl, y, a), s)
    ensures Legal(ttl, y, a + [s]) && Run(ttl, y, a + [s]) == Next(ttl, Run(ttl, y, a), s)
  {
    var z := Run(ttl, y, a);
    assert [s][1..] == [];
    assert Legal(ttl, Next(ttl, z, s), []) && Run(ttl, Next(ttl, z, s), []) == Next(ttl, z, s);
    RunConcat(ttl, y, a, [s]);
  }

  /**
   Both errors occur: a first call whose fetch fails is told the issuer is unreachable,
   and a second inside the retry floor that the cache is not populated.
   */
  lemma ColdCallsPart(ttl: int, clock: Time) returns (steps: seq<Step>)
    ensures Legal(ttl, Start(clock), steps)
    ensures var calls := Run(ttl, Start(clock), steps).calls;
            && calls.Keys == {0, 1}
            && calls[0].pc == Returned(Err(Unreachable)) && calls[1].pc == Returned(Err(NotPopulated))
  {
    steps := OneCallFails(ttl, clock);
    RunMore(ttl, Start(clock), steps, Begin(1, ""));
    steps := steps + [Begin(1, "")];
    RunMore(ttl, Start(clock), steps, Decide(1, clock, clock));
    steps := steps + [Decide(1, clock, clock)];
    RunMore(ttl, Start(clock), steps, Enforce(1, clock));
    steps := steps + [Enforce(1, clock)];
  }

  lemma OneCallFails(ttl: int, clock: Time) returns (steps: seq<Step>)
    ensures Legal(ttl, Start(clock), steps)
    ensures var y := Run(ttl, Start(clock), steps);
            && y.cache == FetchFailed(Attempted(COLD, clock)) && y.clock == clock
            && y.calls.Keys == {0} && y.calls[0].pc == Returned(Err(Unreachable))
  {
    steps := [];
    RunMore(ttl, Start(clock), steps, Begin(0, ""));
    steps := steps + [Begin(0, "")];
    RunMore(ttl, Start(clock), steps, Decide(0, clock, clock));
    steps := steps + [Decide(0, clock, clock)];
    RunMore(ttl, Start(clock), steps, MarkAttempt(0, clock));
    steps := steps + [MarkAttempt(0, clock)];
    RunMore(ttl, Start(clock), steps, FetchFails(0));
    steps := steps + [FetchFails(0)];
  }

  // ------------------------------------------- every answer, told from the history

  /** The cache remembers its last commit, its last attempt, and no reservation that was not granted. */
  ghost predicate Remembers(y: System) {
    && CacheOk(y)
    && y.cache.lastAttempt == (if y.attempts == [] then None else Some(y.attempts[|y.attempts| - 1].at))
    && UpTo(y.grants, y.clock)
    && Recorded(y.cache.unknownKids, y.grants)
  }

  lemma {:induction false} RunRemembers(ttl: int, y: System, steps: seq<Step>)
    requires Remembers(y) && Legal(ttl, y, steps)
    ensures Remembers(Run(ttl, y, steps))
    decreases |steps|
  {
    if steps != [] {
      var s, z := steps[0], Next(ttl, y, steps[0]);
      if s.Reserve? {
        var kid := y.calls[s.id].kid;
        if s.granted {
          RecordedMore(y.cache.unknownKids, y.grants, s.after - {kid}, kid, s.now);
          assert (s.after - {kid})[kid := s.now] == s.after;
        }
      }
      RunRemembers(ttl, z, steps[1..]);
    }
  }

  /**
   In every interleaving, a deciding call fetches if and only if no set was ever committed
   or the last was committed a TTL ago, and no fetch has started in the last five seconds;
   it goes straight to the keys if and only if the last set is younger than a TTL.
   */
  lemma FetchesWhenDue(ttl: int, clock: Time, steps: seq<Step>, id: nat, t1: Time, t2: Time)
    requires Legal(ttl, Start(clock), steps) && Enabled(Run(ttl, Start(clock), steps), Decide(id, t1, t2))
    ensures var y := Run(ttl, Start(clock), steps);
            var pc := Next(ttl, y, Decide(id, t1, t2)).calls[id].pc;
            var due := y.commits == [] || t1 - y.commits[|y.commits| - 1].at >= ttl;
            var free := y.attempts == [] || t2 - y.attempts[|y.attempts| - 1].at >= 5 * 1_000_000_000;
            && (pc == Attempting(Scheduled) <==> due && free)
            && (pc == LookingUp <==> !due)
            && (pc == Enforcing(Scheduled) <==> due && !free)
            && Next(ttl, y, Decide(id, t1, t2)).calls[id].floorPassed == Some(free)
  {
    RunRemembers(ttl, Start(clock), steps);
  }

  /** A scheduled fetch that fails fails its call outright if and only if no set was ever committed. */
  lemma FailureExactly(ttl: int, clock: Time, steps: seq<Step>, id: nat)
    requires Legal(ttl, Start(clock), steps) && Enabled(Run(ttl, Start(clock), steps), FetchFails(id))
    ensures var y := Run(ttl, Start(clock), steps);
            var before, after := y.calls[id].pc, Next(ttl, y, FetchFails(id)).calls[id].pc;
            after == if y.commits != [] then Enforcing(before.cause)
                     else if before.cause.Scheduled? then Returned(Err(Unreachable)) else LookingAgain
  {
    RunRemembers(ttl, Start(clock), steps);
  }

  /** A scheduled staleness check fails the call if and only if there is no set, or it is past three TTLs. */
  lemma CeilingExactly(ttl: int, clock: Time, steps: seq<Step>, id: nat, now: Time)
    requires Legal(ttl, Start(clock), steps) && Enabled(Run(ttl, Start(clock), steps), Enforce(id, now))
    requires Run(ttl, Start(clock), steps).calls[id].pc.cause.Scheduled?
    ensures var y := Run(ttl, Start(clock), steps);
            var pc := Next(ttl, y, Enforce(id, now)).calls[id].pc;
            && (pc == Returned(Err(NotPopulated)) <==> y.commits == [])
            && (pc == Returned(Err(TooStale)) <==>
                  y.commits != [] && now - y.commits[|y.commits| - 1].at > 3 * ttl)
            && (pc == LookingUp <==> y.commits != [] && now - y.commits[|y.commits| - 1].at <= 3 * ttl)
  {
    RunRemembers(ttl, Start(clock), steps);
  }

  /** A lookup finds a key if and only if the set committed last has it, and then it is that set's. */
  lemma FoundExactly(ttl: int, clock: Time, steps: seq<Step>, id: nat)
    requires Legal(ttl, Start(clock), steps) && Enabled(Run(ttl, Start(clock), steps), LookUp(id))
    ensures var y := Run(ttl, Start(clock), steps);
            var c := y.calls[id];
            var pc := Next(ttl, y, LookUp(id)).calls[id].pc;
            if y.commits != [] && c.kid in y.commits[|y.commits| - 1].keys then
              pc == Returned(Ok(y.commits[|y.commits| - 1].keys[c.kid]))
            else pc == if c.pc.LookingUp? then Reserving else Returned(Err(NoSuchKey))
  {
    RunRemembers(ttl, Start(clock), steps);
  }

  /** An unknown kid is refused its refetch only if it had one granted in the last 30 seconds, or 64 kids had. */
  lemma RefusedForCause(ttl: int, clock: Time, steps: seq<Step>, id: nat, now: Time, after: map<Kid, Time>)
    requires Legal(ttl, Start(clock), steps)
    requires Enabled(Run(ttl, Start(clock), steps), Reserve(id, now, after, false))
    ensures var y := Run(ttl, Start(clock), steps);
            Busy(y.grants, y.calls[id].kid, y.clock)
  {
    RunRemembers(ttl, Start(clock), steps);
    var y := Run(ttl, Start(clock), steps);
    var kid := y.calls[id].kid;
    if kid in y.cache.unknownKids && y.clock - y.cache.unknownKids[kid] < 30 * 1_000_000_000 {
      OwnGrant(y.grants, y.cache.unknownKids, kid, y.clock);
    } else {
      LiveAreGranted(y.grants, y.cache.unknownKids, after, y.clock);
    }
  }

  // ------------------------------------------------------ overlapping fetches

  /** n calls have begun on a cold cache and the first `decided` of them have decided to fetch. */
  ghost predicate Gathered(y: System, clock: Time, n: nat, decided: nat) {
    && y.cache == COLD && y.clock == clock && y.attempts == []
    && (forall id: nat :: id in y.calls <==> id < n)
    && (forall id :: id in y.calls ==> y.calls[id].pc == if id < decided then Attempting(Scheduled) else Deciding)
  }

  lemma {:induction false} Gather(ttl: int, clock: Time, n: nat, decided: nat) returns (steps: seq<Step>)
    requires decided <= n
    ensures Legal(ttl, Start(clock), steps) && Gathered(Run(ttl, Start(clock), steps), clock, n, decided)
    decreases n, decided
  {
    if n == 0 {
      steps := [];
    } else if decided == 0 {
      steps := Gather(ttl, clock, n - 1, 0);
      RunMore(ttl, Start(clock), steps, Begin(n - 1, ""));
      steps := steps + [Begin(n - 1, "")];
    } else {
      steps := Gather(ttl, clock, n, decided - 1);
      RunMore(ttl, Start(clock), steps, Decide(decided - 1, clock, clock));
      steps := steps + [Decide(decided - 1, clock, clock)];
    }
  }

  /** The first `marked` of n gathered calls have started to fetch, all at the same moment. */
  ghost predicate Fetches(y: System, clock: Time, n: nat, marked: nat) {
    && y.clock == clock && |y.attempts| == marked
    && (forall i :: 0 <= i < marked ==> y.attempts[i].at == clock)
    && (forall id: nat :: id in y.calls <==> id < n)
    && (forall id :: id in y.calls && id >= marked ==> y.calls[id].pc == Attempting(Scheduled))
  }

  lemma {:induction false} FetchTogether(ttl: int, clock: Time, n: nat, marked: nat) returns (steps: seq<Step>)
    requires marked <= n
    ensures Legal(ttl, Start(clock), steps) && Fetches(Run(ttl, Start(clock), steps), clock, n, marked)
    decreases marked
  {
    if marked == 0 {
      steps := Gather(ttl, clock, n, n);
    } else {
      steps := FetchTogether(ttl, clock, n, marked - 1);
      RunMore(ttl, Start(clock), steps, MarkAttempt(marked - 1, clock));
      steps := steps + [MarkAttempt(marked - 1, clock)];
    }
  }

  lemma {:induction false} AllInWindow(attempts: seq<Attempt>, t: Time)
    requires forall i :: 0 <= i < |attempts| ==> attempts[i].at == t
    ensures |AttemptsIn(attempts, t)| == |attempts|
  {
    if attempts == [] {
      assert AttemptsIn(attempts, t) == {};
    } else {
      var n := |attempts| - 1;
      AllInWindow(attempts[..n], t);
      assert AttemptsIn(attempts, t) == AttemptsIn(attempts[..n], t) + {n};
    }
  }

  /** Calls that overlap have no such budget: for every n there is a run in which n fetches start at one moment. */
  lemma OverlapHasNoBudget(ttl: int, clock: Time, n: nat) returns (steps: seq<Step>)
    ensures Legal(ttl, Start(clock), steps) && |AttemptsIn(Run(ttl, Start(clock), steps).attempts, clock)| == n
  {
    steps := FetchTogether(ttl, clock, n, n);
    AllInWindow(Run(ttl, Start(clock), steps).attempts, clock);
  }

  // -------------------------------------------------- the unknown-kid budget

  ghost predicate BudgetInv(y: System) {
    && UpTo(y.grants, y.clock)
    && |y.cache.unknownKids| <= MAX_UNKNOWN_KIDS
    && (forall i :: 0 <= i < |y.grants| && y.grants[i].at > y.clock - UNKNOWN_KID_INTERVAL ==>
          y.grants[i].key in y.cache.unknownKids && y.cache.unknownKids[y.grants[i].key] == y.grants[i].at)
    && Within(y.grants, MAX_UNKNOWN_KIDS, UNKNOWN_KID_INTERVAL)
    && Spaced(y.grants, UNKNOWN_KID_INTERVAL)
  }

  lemma ReserveKeepsBudget(ttl: int, y: System, s: Step)
    requires BudgetInv(y) && Enabled(y, s) && s.Reserve?
    ensures BudgetInv(Next(ttl, y, s))
  {
    var z := Next(ttl, y, s);
    var kid := y.calls[s.id].kid;
    if s.granted {
      var live := s.after.Keys;
      assert live == (s.after - {kid}).Keys + {kid};
      assert |live| <= MAX_UNKNOWN_KIDS;
      MarkWithin(y.grants, kid, s.now, live, MAX_UNKNOWN_KIDS, UNKNOWN_KID_INTERVAL);
      forall i | 0 <= i < |y.grants| && y.grants[i].key == kid
        ensures s.now - y.grants[i].at >= UNKNOWN_KID_INTERVAL
      {
        if y.grants[i].at > y.clock - UNKNOWN_KID_INTERVAL {
          assert y.cache.unknownKids[kid] == y.grants[i].at;
        }
      }
    } else {
      SubsetSize(s.after.Keys, y.cache.unknownKids.Keys);
    }
  }

  lemma {:induction false} RunKeepsBudget(ttl: int, y: System, steps: seq<Step>)
    requires BudgetInv(y) && Legal(ttl, y, steps)
    ensures BudgetInv(Run(ttl, y, steps))
    decreases |steps|
  {
    if steps != [] {
      if steps[0].Reserve? {
        ReserveKeepsBudget(ttl, y, steps[0]);
      }
      RunKeepsBudget(ttl, Next(ttl, y, steps[0]), steps[1..]);
    }
  }

  /** In every interleaving, any 30 seconds see at most 64 out-of-band reservations, and no kid twice. */
  lemma UnknownKidBudget(ttl: int, clock: Time, steps: seq<Step>, t: Time)
    requires Legal(ttl, Start(clock), steps)
    ensures var y := Run(ttl, Start(clock), steps);
            && |MarksIn(y.grants, t, UNKNOWN_KID_INTERVAL)| <= MAX_UNKNOWN_KIDS
            && Spaced(y.grants, UNKNOWN_KID_INTERVAL)
  {
    RunKeepsBudget(ttl, Start(clock), steps);
    SpacedMarks(Run(ttl, Start(clock), steps).grants, t, UNKNOWN_KID_INTERVAL);
  }

  // -------------------------------------------- all fetches, one call at a time

  predicate Active(c: Call) {
    !c.pc.Returned?
  }

  /** Calls are run one at a time: none begins while another is under way. */
  ghost predicate Serial(ttl: int, y: System, steps: seq<Step>)
    requires Legal(ttl, y, steps)
    decreases |steps|
  {
    steps == [] ||
    (&& BeginsAlone(y, steps[0])
     && Serial(ttl, Next(ttl, y, steps[0]), steps[1..]))
  }

  /** Attempt i comes no earlier than the one before; 5s later if scheduled, after its own grant if out-of-band. */
  ghost predicate Follows(attempts: seq<Attempt>, grants: seq<Mark<Kid>>, i: nat)
    requires i < |attempts|
  {
    var a := attempts[i];
    && (i > 0 ==> attempts[i - 1].at <= a.at)
    && (i > 0 && a.cause.Scheduled? ==> a.at - attempts[i - 1].at >= MIN_RETRY)
    && (a.cause.OutOfBand? ==>
          && a.grant.Some? && a.grant.value < |grants|
          && grants[a.grant.value].at <= a.at
          && (i > 0 ==> attempts[i - 1].at <= grants[a.grant.value].at))
  }

  /** No two out-of-band attempts spend the same grant. */
  ghost predicate SpentOnce(attempts: seq<Attempt>) {
    forall i, j :: 0 <= i < j < |attempts| && attempts[i].cause.OutOfBand? && attempts[j].cause.OutOfBand? ==>
      attempts[i].grant != attempts[j].grant
  }

  ghost predicate Paced(attempts: seq<Attempt>, grants: seq<Mark<Kid>>) {
    SpentOnce(attempts) && forall i :: 0 <= i < |attempts| ==> Follows(attempts, grants, i)
  }

  ghost predicate SerialCall(y: System, c: Call) {
    var n := |y.attempts|;
    && (c.pc == Attempting(Scheduled) ==> n == 0 || y.clock - y.attempts[n - 1].at >= MIN_RETRY)
    && (c.pc == Attempting(OutOfBand) ==>
          && c.grant.Some? && c.grant.value < |y.grants|
          && y.grants[c.grant.value].at <= y.clock
          && (n > 0 ==> y.attempts[n - 1].at <= y.grants[c.grant.value].at)
          && (forall i :: 0 <= i < n && y.attempts[i].cause.OutOfBand? ==> y.attempts[i].grant != c.grant))
  }

  ghost predicate OneActive(y: System) {
    forall a, b :: a in y.calls && b in y.calls && Active(y.calls[a]) && Active(y.calls[b]) ==> a == b
  }

  ghost predicate Ledger(y: System) {
    var n := |y.attempts|;
    && Paced(y.attempts, y.grants)
    && y.cache.lastAttempt == (if n == 0 then None else Some(y.attempts[n - 1].at))
    && (n > 0 ==> y.attempts[n - 1].at <= y.clock)
  }

  ghost predicate SerialInv(y: System) {
    && OneActive(y)
    && (forall id :: id in y.calls ==> SerialCall(y, y.calls[id]))
    && Ledger(y)
  }

  ghost predicate BeginsAlone(y: System, s: Step) {
    s.Begin? ==> forall id :: id in y.calls ==> !Active(y.calls[id])
  }

  /** No attempt so far answers a grant not yet made. */
  lemma NextGrantUnused(y: System)
    requires Ledger(y)
    ensures forall i :: 0 <= i < |y.attempts| && y.attempts[i].cause.OutOfBand? ==>
              y.attempts[i].grant != Some(|y.grants|)
  {
    forall i | 0 <= i < |y.attempts| && y.attempts[i].cause.OutOfBand?
      ensures y.attempts[i].grant != Some(|y.grants|)
    {
      assert Follows(y.attempts, y.grants, i);
    }
  }

  lemma SerialStepOther(ttl: int, y: System, s: Step, id: nat)
    requires SerialInv(y) && Enabled(y, s) && BeginsAlone(y, s)
    requires id in y.calls && id != s.id
    ensures SerialCall(Next(ttl, y, s), Next(ttl, y, s).calls[id])
  {
    assert SerialCall(y, y.calls[id]);
    if !s.Begin? {
      assert Active(y.calls[s.id]);
    }
  }

  lemma SerialStepCall(ttl: int, y: System, s: Step, id: nat)
    requires SerialInv(y) && Enabled(y, s) && BeginsAlone(y, s)
    requires id in Next(ttl, y, s).calls
    ensures SerialCall(Next(ttl, y, s), Next(ttl, y, s).calls[id])
  {
    if id != s.id {
      SerialStepOther(ttl, y, s, id);
    } else if id in y.calls {
      assert SerialCall(y, y.calls[id]);
      NextGrantUnused(y);
    }
  }

  lemma SerialStepLedger(ttl: int, y: System, s: Step)
    requires SerialInv(y) && Enabled(y, s)
    ensures Ledger(Next(ttl, y, s))
  {
    if s.MarkAttempt? {
      assert SerialCall(y, y.calls[s.id]);
      PacedWithOneMore(y, y.calls[s.id], s.now);
    } else {
      PacedWithMoreGrants(y.attempts, y.grants, Next(ttl, y, s).grants);
    }
  }

  lemma PacedWithOneMore(y: System, c: Call, now: Time)
    requires Ledger(y) && SerialCall(y, c) && c.pc.Attempting? && y.clock <= now
    ensures Paced(y.attempts + [Attempt(c.pc.cause, now, c.grant)], y.grants)
  {
    var attempts := y.attempts + [Attempt(c.pc.cause, now, c.grant)];
    forall i | 0 <= i < |attempts|
      ensures Follows(attempts, y.grants, i)
    {
      if i < |y.attempts| {
        assert Follows(y.attempts, y.grants, i);
      }
    }
  }

  lemma SerialStepOneActive(ttl: int, y: System, s: Step)
    requires OneActive(y) && Enabled(y, s) && BeginsAlone(y, s)
    ensures OneActive(Next(ttl, y, s))
  {
    if !s.Begin? {
      assert Active(y.calls[s.id]);
    }
  }

  lemma SerialStep(ttl: int, y: System, s: Step)
    requires SerialInv(y) && Enabled(y, s) && BeginsAlone(y, s)
    ensures SerialInv(Next(ttl, y, s))
  {
    forall id | id in Next(ttl, y, s).calls
      ensures SerialCall(Next(ttl, y, s), Next(ttl, y, s).calls[id])
    {
      SerialStepCall(ttl, y, s, id);
    }
    SerialStepLedger(ttl, y, s);
    SerialStepOneActive(ttl, y, s);
  }

  lemma PacedWithMoreGrants(attempts: seq<Attempt>, grants: seq<Mark<Kid>>, more: seq<Mark<Kid>>)
    requires Paced(attempts, grants) && grants <= more
    ensures Paced(attempts, more)
  {
    forall i | 0 <= i < |attempts|
      ensures Follows(attempts, more, i)
    {
      assert Follows(attempts, grants, i);
    }
  }

  lemma {:induction false} RunKeepsSerial(ttl: int, y: System, steps: seq<Step>)
    requires SerialInv(y) && Legal(ttl, y, steps) && Serial(ttl, y, steps)
    ensures SerialInv(Run(ttl, y, steps))
    decreases |steps|
  {
    if steps != [] {
      SerialStep(ttl, y, steps[0]);
      RunKeepsSerial(ttl, Next(ttl, y, steps[0]), steps[1..]);
    }
  }

  /** How many of attempts lo+1..hi were scheduled. */
  function ScheduledIn(attempts: seq<Attempt>, lo: nat, hi: nat): nat
    requires lo <= hi < |attempts|
    decreases hi
  {
    if hi == lo then 0 else ScheduledIn(attempts, lo, hi - 1) + if attempts[hi].cause.Scheduled? then 1 else 0
  }

  /** The grants used by the out-of-band ones among attempts lo+1..hi. */
  ghost function GrantsUsed(attempts: seq<Attempt>, lo: nat, hi: nat): set<int>
    requires lo <= hi < |attempts|
  {
    set i | lo < i <= hi && attempts[i].cause.OutOfBand? && attempts[i].grant.Some? :: attempts[i].grant.value
  }

  lemma {:induction false} Split(attempts: seq<Attempt>, grants: seq<Mark<Kid>>, lo: nat, hi: nat)
    requires Paced(attempts, grants) && lo <= hi < |attempts|
    ensures hi - lo == ScheduledIn(attempts, lo, hi) + |GrantsUsed(attempts, lo, hi)|
    ensures attempts[hi].at - attempts[lo].at >= MIN_RETRY * ScheduledIn(attempts, lo, hi)
    decreases hi
  {
    if lo < hi {
      Split(attempts, grants, lo, hi - 1);
      assert Follows(attempts, grants, hi);
      var before, after := GrantsUsed(attempts, lo, hi - 1), GrantsUsed(attempts, lo, hi);
      if attempts[hi].cause.Scheduled? {
        assert after == before;
      } else {
        NewGrant(attempts, grants, lo, hi);
      }
    } else {
      assert GrantsUsed(attempts, lo, hi) == {};
    }
  }

  lemma NewGrant(attempts: seq<Attempt>, grants: seq<Mark<Kid>>, lo: nat, hi: nat)
    requires Paced(attempts, grants) && lo < hi < |attempts| && attempts[hi].cause.OutOfBand?
    ensures |GrantsUsed(attempts, lo, hi)| == |GrantsUsed(attempts, lo, hi - 1)| + 1
  {
    assert Follows(attempts, grants, hi);
    var before, g := GrantsUsed(attempts, lo, hi - 1), attempts[hi].grant.value;
    assert GrantsUsed(attempts, lo, hi) == before + {g};
    assert g !in before;
  }

  lemma {:induction false} Sorted(attempts: seq<Attempt>, grants: seq<Mark<Kid>>, i: nat, j: nat)
    requires Paced(attempts, grants) && i <= j < |attempts|
    ensures attempts[i].at <= attempts[j].at
    decreases j
  {
    if i < j {
      assert Follows(attempts, grants, j);
      Sorted(attempts, grants, i, j - 1);
    }
  }

  const MAX_ATTEMPTS := 70

  ghost function AttemptsIn(attempts: seq<Attempt>, t: Time): set<int> {
    set i | 0 <= i < |attempts| && t - UNKNOWN_KID_INTERVAL < attempts[i].at <= t
  }

  lemma GrantInWindow(attempts: seq<Attempt>, grants: seq<Mark<Kid>>, t: Time, lo: nat, hi: nat, i: nat)
    requires Paced(attempts, grants) && lo < i <= hi < |attempts| && attempts[i].cause.OutOfBand?
    requires t - UNKNOWN_KID_INTERVAL < attempts[lo].at && attempts[hi].at <= t
    ensures attempts[i].grant.Some? && attempts[i].grant.value in MarksIn(grants, t, UNKNOWN_KID_INTERVAL)
  {
    assert Follows(attempts, grants, i);
    Sorted(attempts, grants, lo, i - 1);
    Sorted(attempts, grants, i, hi);
  }

  lemma AttemptsBounded(attempts: seq<Attempt>, grants: seq<Mark<Kid>>, t: Time, lo: nat, hi: nat)
    requires Paced(attempts, grants) && |MarksIn(grants, t, UNKNOWN_KID_INTERVAL)| <= MAX_UNKNOWN_KIDS
    requires lo <= hi < |attempts|
    requires t - UNKNOWN_KID_INTERVAL < attempts[lo].at && attempts[hi].at <= t
    ensures hi - lo + 1 <= MAX_ATTEMPTS
  {
    Split(attempts, grants, lo, hi);
    forall i | lo < i <= hi && attempts[i].cause.OutOfBand?
      ensures attempts[i].grant.Some? && attempts[i].grant.value in MarksIn(grants, t, UNKNOWN_KID_INTERVAL)
    {
      GrantInWindow(attempts, grants, t, lo, hi, i);
    }
    SubsetSize(GrantsUsed(attempts, lo, hi), MarksIn(grants, t, UNKNOWN_KID_INTERVAL));
  }

  /** The attempts in a window lie between two positions inside it. */
  lemma {:induction false} WindowEnds(attempts: seq<Attempt>, t: Time) returns (lo: nat, hi: nat)
    ensures AttemptsIn(attempts, t) != {} ==>
              && lo <= hi < |attempts|
              && t - UNKNOWN_KID_INTERVAL < attempts[lo].at <= t
              && t - UNKNOWN_KID_INTERVAL < attempts[hi].at <= t
              && |AttemptsIn(attempts, t)| <= hi - lo + 1
  {
    lo, hi := 0, 0;
    if attempts != [] {
      var n := |attempts| - 1;
      var rest := AttemptsIn(attempts[..n], t);
      lo, hi := WindowEnds(attempts[..n], t);
      if t - UNKNOWN_KID_INTERVAL < attempts[n].at <= t {
        assert AttemptsIn(attempts, t) == rest + {n};
        if rest == {} {
          lo := n;
        }
        hi := n;
      } else {
        assert AttemptsIn(attempts, t) == rest;
      }
    }
  }

  /** With calls run one at a time, any 30 seconds see at most 70 fetches of any kind. */
  lemma SerialFetchBudget(ttl: int, clock: Time, steps: seq<Step>, t: Time)
    requires Legal(ttl, Start(clock), steps) && Serial(ttl, Start(clock), steps)
    ensures |AttemptsIn(Run(ttl, Start(clock), steps).attempts, t)| <= MAX_ATTEMPTS
  {
    var y := Run(ttl, Start(clock), steps);
    RunKeepsSerial(ttl, Start(clock), steps);
    UnknownKidBudget(ttl, clock, steps, t);
    if AttemptsIn(y.attempts, t) != {} {
      var lo, hi := WindowEnds(y.attempts, t);
      AttemptsBounded(y.attempts, y.grants, t, lo, hi);
    }
  }
}
