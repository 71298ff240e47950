/**
 The key cache of internal/api/jwks.go.  KeyForKid gives up its lock between
 deciding, fetching, committing and looking up; each function here is one region
 held under the lock, and the class composes the regions as the source does.
 */
module JwksCache {
  import opened Collections
  import opened Outcomes
  import opened SlidingWindow
  import opened Durations

  type Time = int
  type Kid = string
  type Key = string

  type KeySet = map<Kid, Key>

  const STALENESS_MULTIPLE := 3
  const UNKNOWN_KID_INTERVAL := 30 * SECOND
  const MIN_RETRY := 5 * SECOND
  const MAX_UNKNOWN_KIDS := 64

  /** `keys` is None until the first successful fetch; `lastAttempt` is None for Go's zero time. */
  datatype Cache = Cache(
    keys: Option<KeySet>,
    fetchedAt: Time,
    lastAttempt: Option<Time>,
    failures: nat,
    staleAlerted: bool,
    unknownKids: map<Kid, Time>)

  const COLD := Cache(None, 0, None, 0, false, map[])

  datatype KeyError = Unreachable | NotPopulated | TooStale | NoSuchKey

  predicate NeedsRefresh(c: Cache, ttl: int, now: Time) {
    c.keys.None? || now - c.fetchedAt >= ttl
  }

  predicate CanAttempt(c: Cache, now: Time) {
    c.lastAttempt.None? || now - c.lastAttempt.value >= MIN_RETRY
  }

  function Attempted(c: Cache, now: Time): Cache {
    c.(lastAttempt := Some(now))
  }

  function Committed(c: Cache, fetched: KeySet, now: Time): Cache {
    c.(keys := Some(fetched), fetchedAt := now, failures := 0, staleAlerted := false)
  }

  function FetchFailed(c: Cache): Cache {
    c.(failures := c.failures + 1)
  }

  predicate IsStale(c: Cache, ttl: int, now: Time) {
    now - c.fetchedAt > STALENESS_MULTIPLE * ttl
  }

  /** The staleness ceiling: None when the cached set may still be used. */
  function Ceiling(c: Cache, ttl: int, now: Time): Option<KeyError> {
    if c.keys.None? then Some(NotPopulated) else if IsStale(c, ttl, now) then Some(TooStale) else None
  }

  function Enforced(c: Cache, ttl: int, now: Time): Cache {
    c.(staleAlerted := c.staleAlerted || (c.keys.Some? && IsStale(c, ttl, now)))
  }

  function Lookup(c: Cache, kid: Kid): Option<Key> {
    if c.keys.Some? && kid in c.keys.value then Some(c.keys.value[kid]) else None
  }

  /** A sweep whose clock readings lie between `from` and `to` may leave `left` of `m`. */
  ghost predicate SweepLeaves(m: map<Kid, Time>, left: map<Kid, Time>, from: Time, to: Time) {
    && (forall k :: k in left ==> k in m && left[k] == m[k] && from - m[k] < UNKNOWN_KID_INTERVAL)
    && (forall k :: k in m && k !in left ==> to - m[k] >= UNKNOWN_KID_INTERVAL)
  }

  /** Every outcome of asking for an out-of-band refetch for `kid` between clock readings `from` and `to`. */
  ghost predicate Reserves(m: map<Kid, Time>, kid: Kid, from: Time, to: Time, after: map<Kid, Time>, granted: bool) {
    if granted then
      && kid in after && after[kid] == to
      && SweepLeaves(m, after - {kid}, from, to)
      && (kid in m ==> to - m[kid] >= UNKNOWN_KID_INTERVAL)
      && |after - {kid}| < MAX_UNKNOWN_KIDS
    else
      || (after == m && kid in m && from - m[kid] < UNKNOWN_KID_INTERVAL)
      || (SweepLeaves(m, after, from, to) && |after| >= MAX_UNKNOWN_KIDS)
  }

  predicate WasGranted(grants: seq<Mark<Kid>>, kid: Kid, at: Time) {
    Mark(kid, at) in grants
  }

  /** Every entry of the table is a reservation that was granted. */
  predicate Recorded(m: map<Kid, Time>, grants: seq<Mark<Kid>>) {
    forall k {:trigger WasGranted(grants, k, m[k])} :: k in m ==> WasGranted(grants, k, m[k])
  }

  lemma RecordedMore(m: map<Kid, Time>, grants: seq<Mark<Kid>>, left: map<Kid, Time>, kid: Kid, now: Time)
    requires Recorded(m, grants) && forall k :: k in left ==> k in m && left[k] == m[k]
    ensures Recorded(left, grants) && Recorded(left[kid := now], grants + [Mark(kid, now)])
  {
    var more := left[kid := now];
    forall k | k in left
      ensures WasGranted(grants, k, left[k])
    {
      assert WasGranted(grants, k, m[k]);
    }
    forall k | k in more
      ensures WasGranted(grants + [Mark(kid, now)], k, more[k])
    {
      assert k == kid || WasGranted(grants, k, left[k]);
    }
  }

  /** No refetch for this kid: it had one granted in the last 30 seconds, or 64 kids had. */
  ghost predicate Busy(grants: seq<Mark<Kid>>, kid: Kid, now: Time) {
    || (exists i :: 0 <= i < |grants| && grants[i].key == kid && now - grants[i].at < 30 * 1_000_000_000)
    || |KeysIn(grants, now, 30 * 1_000_000_000)| >= 64
  }

  lemma OwnGrant(grants: seq<Mark<Kid>>, m: map<Kid, Time>, kid: Kid, now: Time)
    requires Recorded(m, grants) && kid in m && now - m[kid] < 30 * 1_000_000_000
    ensures Busy(grants, kid, now)
  {
    assert WasGranted(grants, kid, m[kid]);
    var i :| 0 <= i < |grants| && grants[i] == Mark(kid, m[kid]);
  }

  /** Kids kept by a table of granted reservations, all in the last 30 seconds, were granted in the last 30 seconds. */
  lemma LiveAreGranted(grants: seq<Mark<Kid>>, m: map<Kid, Time>, left: map<Kid, Time>, now: Time)
    requires UpTo(grants, now) && Recorded(m, grants)
    requires forall k :: k in left ==> k in m && left[k] == m[k] && now - m[k] < 30 * 1_000_000_000
    ensures |left| <= |KeysIn(grants, now, 30 * 1_000_000_000)|
  {
    forall k | k in left
      ensures k in KeysIn(grants, now, 30 * 1_000_000_000)
    {
      assert WasGranted(grants, k, m[k]);
      var i :| 0 <= i < |grants| && grants[i] == Mark(k, m[k]);
    }
    SubsetSize(left.Keys, KeysIn(grants, now, 30 * 1_000_000_000));
  }

  lemma RefusedOwn(grants: seq<Mark<Kid>>, m: map<Kid, Time>, kid: Kid, from: Time, to: Time)
    requires kid in m && from - m[kid] < UNKNOWN_KID_INTERVAL && Recorded(m, grants)
    ensures Reserves(m, kid, from, to, m, false) && Busy(grants, kid, from)
  {
    OwnGrant(grants, m, kid, from);
  }

  lemma RefusedFull(grants: seq<Mark<Kid>>, m: map<Kid, Time>, kid: Kid, from: Time, begun: Time, to: Time,
                    left: map<Kid, Time>)
    requires SweepLeaves(m, left, begun, to) && |left| >= MAX_UNKNOWN_KIDS && from <= begun
    requires UpTo(grants, from) && Recorded(m, grants)
    ensures Reserves(m, kid, from, to, left, false) && Busy(grants, kid, from)
  {
    LiveAreGranted(grants, m, left, from);
  }

  lemma GrantedRoom(m: map<Kid, Time>, kid: Kid, from: Time, begun: Time, swept: Time, to: Time, left: map<Kid, Time>)
    requires SweepLeaves(m, left, begun, swept) && from <= begun && swept <= to && |left| < MAX_UNKNOWN_KIDS
    requires kid in m ==> begun - m[kid] >= UNKNOWN_KID_INTERVAL && begun <= to
    ensures Reserves(m, kid, from, to, left[kid := to], true)
  {
    assert left[kid := to] - {kid} == left - {kid} == left;
  }

  /** Reads a clock that never goes backwards. */
  class Clock {
    var now: Time

    constructor (start: Time)
      ensures now == start
    {
      now := start;
    }

    method Read() returns (t: Time)
      modifies this
      ensures t == now >= old(now)
    {
      var passed: int :| passed >= 0;
      now := now + passed;
      t := now;
    }
  }

  datatype Commit = Commit(keys: KeySet, at: Time)

  /** A fetch that was started, and by which call. */
  datatype Fetch = Fetch(caller: nat, at: Time)

  function FetchesBy(fetches: seq<Fetch>, who: nat): seq<Time> {
    if fetches == [] then []
    else
      var last := fetches[|fetches| - 1];
      FetchesBy(fetches[..|fetches| - 1], who) + if last.caller == who then [last.at] else []
  }

  lemma OneMoreFetch(fetches: seq<Fetch>, who: nat, at: Time)
    ensures FetchesBy(fetches + [Fetch(who, at)], who) == FetchesBy(fetches, who) + [at]
  {
    assert (fetches + [Fetch(who, at)])[..|fetches|] == fetches;
  }

  function Moments(at: Option<Time>): seq<Time> {
    if at.Some? then [at.value] else []
  }

  /**
   What a call did: when it found its set fresh or usable, the two clock readings of its
   decision, its scheduled fetch and its out-of-band one, and when it asked for the latter.
   */
  datatype Course = Course(checkedAt: Time, freshAt: Time, decidedAt: Time, scheduled: Option<Time>,
                           askedAt: Time, refetched: Option<Time>)

  /** A set committed at `from` or later, after the first `known`, has no such kid. */
  ghost predicate LackedSince(commits: seq<Commit>, known: nat, from: Time, kid: Kid) {
    exists i :: known <= i < |commits| && commits[i].at >= from && kid !in commits[i].keys
  }

  /**
   A call fetches on schedule if and only if the set it found is a TTL old, or there is
   none, and no fetch has started for five seconds; a set fresh enough, or fetched now, is
   never refused.
   */
  predicate OnTime(ttl: int, known: seq<Commit>, started: seq<Fetch>, course: Course, first: Option<KeySet>,
                   refusal: Option<KeyError>)
  {
    var due := known == [] || course.freshAt - known[|known| - 1].at >= ttl;
    var free := started == [] || course.decidedAt - started[|started| - 1].at >= 5 * 1_000_000_000;
    && (course.scheduled.Some? <==> due && free)
    && (refusal.Some? ==> due && (!free || first.None?))
    && (refusal == Some(Unreachable) ==> free)
    && (refusal == Some(NotPopulated) ==> !free)
  }

  class JWKSCache {
    const ttl: int
    const clock: Clock
    var keys: Option<KeySet>
    var fetchedAt: Time
    var lastAttempt: Option<Time>
    var consecutiveFailures: nat
    var staleAlerted: bool
    var unknownKidRetryAt: map<Kid, Time>

    /** Every successful fetch, every fetch started, and every out-of-band refetch granted, oldest first. */
    ghost var commits: seq<Commit>
    ghost var fetches: seq<Fetch>
    ghost var grants: seq<Mark<Kid>>

    ghost function Abs(): Cache
      reads this
    {
      Cache(keys, fetchedAt, lastAttempt, consecutiveFailures, staleAlerted, unknownKidRetryAt)
    }

    ghost predicate Valid()
      reads this, clock
    {
      && (keys.Some? <==> commits != [])
      && (keys.Some? ==> commits[|commits| - 1] == Commit(keys.value, fetchedAt) && fetchedAt <= clock.now)
      && lastAttempt == (if fetches == [] then None else Some(fetches[|fetches| - 1].at))
      && UpTo(grants, clock.now) && Recorded(unknownKidRetryAt, grants)
    }

    /** What any number of other goroutines' regions may do to the cache. */
    twostate predicate Interfered()
      reads this, clock
    {
      && old(clock.now) <= clock.now
      && old(commits) <= commits && old(grants) <= grants
      && (old(keys).Some? ==> keys.Some? && old(fetchedAt) <= fetchedAt)
    }

    constructor (ttl: int, clock: Clock)
      ensures Abs() == COLD && Valid() && this.ttl == ttl && this.clock == clock
      ensures commits == [] && fetches == [] && grants == []
    {
      this.ttl, this.clock := ttl, clock;
      keys, fetchedAt, lastAttempt, consecutiveFailures := None, 0, None, 0;
      staleAlerted, unknownKidRetryAt, commits, fetches, grants := false, map[], [], [], [];
    }

    /** The lock is free here: other goroutines run, none of them this call. */
    method Unlocked(ghost who: nat)
      requires Valid()
      modifies this, clock
      ensures Valid() && Interfered() && FetchesBy(fetches, who) == FetchesBy(old(fetches), who)
    {
    }

    /** The network's answer, a parsed key set or a failure, and whatever happens while it is awaited. */
    method Fetched(answer: Option<KeySet>, ghost who: nat) returns (fetched: Option<KeySet>)
      requires Valid()
      modifies this, clock
      ensures Valid() && Interfered() && fetched == answer
      ensures FetchesBy(fetches, who) == FetchesBy(old(fetches), who)
    {
      fetched := answer;
      Unlocked(who);
    }

    method Decide() returns (needsRefresh: bool, canAttempt: bool, t1: Time, t2: Time)
      requires Valid()
      modifies clock
      ensures Valid() && unchanged(this) && old(clock.now) <= t1 <= t2 == clock.now
      ensures needsRefresh == NeedsRefresh(Abs(), ttl, t1)
      ensures canAttempt == CanAttempt(Abs(), t2)
      ensures needsRefresh <==> commits == [] || t1 - commits[|commits| - 1].at >= ttl
      ensures canAttempt <==> fetches == [] || t2 - fetches[|fetches| - 1].at >= 5 * 1_000_000_000
    {
      t1 := clock.Read();
      needsRefresh := keys.None? || t1 - fetchedAt >= ttl;
      t2 := clock.Read();
      canAttempt := lastAttempt.None? || t2 - lastAttempt.value >= MIN_RETRY;
    }

    method MarkAttempt(ghost who: nat)
      requires Valid()
      modifies this`lastAttempt, this`fetches, clock
      ensures Valid() && Interfered() && Abs() == Attempted(old(Abs()), clock.now)
      ensures fetches == old(fetches) + [Fetch(who, clock.now)]
    {
      var now := clock.Read();
      lastAttempt := Some(now);
      fetches := fetches + [Fetch(who, now)];
    }

    method CommitFetch(fetched: KeySet)
      requires Valid()
      modifies this, clock
      ensures Valid() && Interfered() && Abs() == Committed(old(Abs()), fetched, clock.now)
      ensures commits == old(commits) + [Commit(fetched, clock.now)] && fetches == old(fetches)
    {
      keys := Some(fetched);
      fetchedAt := clock.Read();
      consecutiveFailures := 0;
      staleAlerted := false;
      commits := commits + [Commit(fetched, fetchedAt)];
    }

    method CommitFailure() returns (noCache: bool)
      requires Valid()
      modifies this`consecutiveFailures
      ensures Valid() && Abs() == FetchFailed(old(Abs())) && noCache == keys.None?
      ensures noCache <==> commits == []
    {
      consecutiveFailures := consecutiveFailures + 1;
      noCache := keys.None?;
    }

    method EnforceStaleness() returns (refusal: Option<KeyError>)
      requires Valid()
      modifies this`staleAlerted, clock
      ensures Valid() && Interfered() && Abs() == Enforced(old(Abs()), ttl, clock.now)
      ensures refusal == Ceiling(Abs(), ttl, clock.now)
      ensures refusal == if commits == [] then Some(NotPopulated)
                         else if clock.now - commits[|commits| - 1].at > 3 * ttl then Some(TooStale)
                         else None
    {
      var now := clock.Read();
      if keys.None? {
        return Some(NotPopulated);
      }
      if now - fetchedAt > STALENESS_MULTIPLE * ttl {
        staleAlerted := true;
        return Some(TooStale);
      }
      return None;
    }

    method LookupKey(kid: Kid) returns (key: Option<Key>)
      requires Valid()
      ensures key == Lookup(Abs(), kid)
      ensures key == if commits != [] && kid in commits[|commits| - 1].keys then Some(commits[|commits| - 1].keys[kid])
                     else None
    {
      key := if keys.Some? && kid in keys.value then Some(keys.value[kid]) else None;
    }

    /** Drops the kids whose interval is over, each by a clock reading of its own. */
    method EvictUnknownKids()
      requires Valid()
      modifies this`unknownKidRetryAt, clock
      ensures Valid() && old(clock.now) <= clock.now
      ensures unknownKidRetryAt.Keys <= old(unknownKidRetryAt).Keys
      ensures SweepLeaves(old(unknownKidRetryAt), unknownKidRetryAt, old(clock.now), clock.now)
    {
      var pending := unknownKidRetryAt.Keys;
      while pending != {}
        invariant pending <= unknownKidRetryAt.Keys <= old(unknownKidRetryAt).Keys
        invariant old(clock.now) <= clock.now && Valid()
        invariant forall k :: k in unknownKidRetryAt ==> unknownKidRetryAt[k] == old(unknownKidRetryAt)[k]
        invariant forall k :: k in unknownKidRetryAt && k !in pending ==>
                  old(clock.now) - unknownKidRetryAt[k] < UNKNOWN_KID_INTERVAL
        invariant forall k :: k in old(unknownKidRetryAt) && k !in unknownKidRetryAt ==>
          clock.now - old(unknownKidRetryAt)[k] >= UNKNOWN_KID_INTERVAL
        decreases pending
      {
        var k :| k in pending;
        pending := pending - {k};
        var now := clock.Read();
        if now - unknownKidRetryAt[k] >= UNKNOWN_KID_INTERVAL {
          unknownKidRetryAt := unknownKidRetryAt - {k};
        }
      }
    }

    /** Books the kid's refetch, unless the kids whose interval is not over fill the table. */
    method BookIfRoom(kid: Kid) returns (granted: bool, ghost left: map<Kid, Time>, ghost swept: Time)
      requires Valid()
      modifies this`unknownKidRetryAt, this`grants, clock
      ensures Valid() && old(clock.now) <= swept <= clock.now
      ensures SweepLeaves(old(unknownKidRetryAt), left, old(clock.now), swept)
      ensures granted <==> |left| < MAX_UNKNOWN_KIDS
      ensures unknownKidRetryAt == if granted then left[kid := clock.now] else left
      ensures grants == if granted then old(grants) + [Mark(kid, clock.now)] else old(grants)
    {
      EvictUnknownKids();
      left, swept := unknownKidRetryAt, clock.now;
      if |unknownKidRetryAt| >= MAX_UNKNOWN_KIDS {
        return false, left, swept;
      }
      var now := clock.Read();
      RecordedMore(left, grants, left, kid, now);
      unknownKidRetryAt := unknownKidRetryAt[kid := now];
      grants := grants + [Mark(kid, now)];
      return true, left, swept;
    }

    method ReserveUnknownKidRetry(kid: Kid) returns (granted: bool)
      requires Valid()
      modifies this`unknownKidRetryAt, this`grants, clock
      ensures Valid() && old(clock.now) <= clock.now
      ensures Abs() == old(Abs()).(unknownKids := unknownKidRetryAt)
      ensures Reserves(old(unknownKidRetryAt), kid, old(clock.now), clock.now, unknownKidRetryAt, granted)
      ensures grants == if granted then old(grants) + [Mark(kid, clock.now)] else old(grants)
      ensures !granted ==> Busy(grants, kid, old(clock.now))
    {
      ghost var from, m := clock.now, unknownKidRetryAt;
      if kid in unknownKidRetryAt {
        var now := clock.Read();
        if now - unknownKidRetryAt[kid] < UNKNOWN_KID_INTERVAL {
          RefusedOwn(grants, m, kid, from, now);
          return false;
        }
      }
      ghost var begun, left, swept := clock.now, map[], 0;
      granted, left, swept := BookIfRoom(kid);
      if granted {
        GrantedRoom(m, kid, from, begun, swept, clock.now, left);
      } else {
        RefusedFull(old(grants), m, kid, from, begun, clock.now, left);
      }
    }

    /** A passed check at `checkedAt` vouches for the cached set: it was fetched at most three TTLs before. */
    ghost predicate Vouched(checkedAt: Time)
      reads this
    {
      commits != [] && checkedAt - commits[|commits| - 1].at <= 3 * ttl
    }

    /** Some key set the cache held during the call has no such kid. */
    static ghost predicate Lacking(commits: seq<Commit>, known: nat, held: Option<KeySet>, kid: Kid) {
      (held.Some? && kid !in held.value) || exists i :: known <= i < |commits| && kid !in commits[i].keys
    }

    /** Why a call may be refused: it found no key set at all, or the last one fetched is past the ceiling. */
    ghost predicate Excuses(refusal: KeyError, known: nat)
      reads this, clock
    {
      match refusal
      case Unreachable => known == 0
      case NotPopulated => commits == []
      case TooStale => commits != [] && clock.now - commits[|commits| - 1].at > 3 * ttl
      case NoSuchKey => false
    }

    method Refresh(answer: Option<KeySet>, ghost who: nat)
      returns (refusal: Option<KeyError>, ghost checkedAt: Time, ghost startedAt: Time)
      requires Valid() && ttl >= 0
      modifies this, clock
      ensures Valid() && Interfered()
      ensures old(clock.now) <= startedAt <= clock.now
      ensures FetchesBy(fetches, who) == FetchesBy(old(fetches), who) + [startedAt]
      ensures refusal.None? ==> old(clock.now) <= checkedAt <= clock.now && Vouched(checkedAt)
      ensures refusal.Some? ==> answer.None? && Excuses(refusal.value, |old(commits)|)
      ensures refusal != Some(NotPopulated)
      ensures answer.Some? ==>
                && |commits| > |old(commits)| && commits[|commits| - 1] == Commit(answer.value, clock.now)
    {
      MarkAttempt(who);
      startedAt := clock.now;
      OneMoreFetch(old(fetches), who, startedAt);
      var fetched := Fetched(answer, who);
      if fetched.Some? {
        CommitFetch(fetched.value);
        return None, clock.now, startedAt;
      }
      var noCache := CommitFailure();
      Unlocked(who);
      if noCache {
        return Some(Unreachable), clock.now, startedAt;
      }
      refusal := EnforceStaleness();
      checkedAt := clock.now;
    }

    /** A set this call fetched on schedule is there to be looked up, and so is whatever replaced it. */
    ghost predicate Renewed(known: nat, scheduled: Option<Time>, answer: Option<KeySet>)
      reads this
    {
      scheduled.Some? && answer.Some? ==> |commits| > known && commits[|commits| - 1].at >= scheduled.value
    }

    /** The first half of KeyForKid: a cache fresh enough, refreshed, or still within the staleness ceiling. */
    method Usable(answer: Option<KeySet>, ghost who: nat) returns (refusal: Option<KeyError>, ghost course: Course)
      requires Valid() && ttl >= 0
      modifies this, clock
      ensures Valid() && Interfered()
      ensures refusal.None? ==> old(clock.now) <= course.checkedAt <= clock.now && Vouched(course.checkedAt)
      ensures refusal.Some? ==> Excuses(refusal.value, |old(commits)|)
      ensures old(clock.now) <= course.freshAt <= course.decidedAt <= clock.now
      ensures OnTime(ttl, old(commits), old(fetches), course, answer, refusal)
      ensures FetchesBy(fetches, who) == FetchesBy(old(fetches), who) + Moments(course.scheduled)
      ensures course.scheduled.Some? ==> course.decidedAt <= course.scheduled.value <= clock.now
      ensures refusal.None? ==> Renewed(|old(commits)|, course.scheduled, answer)
      ensures course.refetched.None?
    {
      var needsRefresh, canAttempt, t1, t2 := Decide();
      course := Course(t1, t1, t2, None, t2, None);
      Unlocked(who);
      if needsRefresh {
        ghost var checkedAt, startedAt;
        if canAttempt {
          refusal, checkedAt, startedAt := Refresh(answer, who);
          course := course.(checkedAt := checkedAt, scheduled := Some(startedAt));
        } else {
          refusal := EnforceStaleness();
          course := course.(checkedAt := clock.now);
        }
      } else {
        refusal := None;
      }
    }

    /** A usable cache, and the first lookup. */
    method FirstLook(kid: Kid, first: Option<KeySet>, ghost who: nat)
      returns (refusal: Option<KeyError>, key: Option<Key>, ghost course: Course)
      requires Valid() && ttl >= 0
      modifies this, clock
      ensures Valid() && Interfered() && course.refetched.None?
      ensures refusal.None? ==> old(clock.now) <= course.checkedAt <= clock.now && Vouched(course.checkedAt)
      ensures refusal.Some? ==> key.None? && Excuses(refusal.value, |old(commits)|)
      ensures key.Some? ==> key == Lookup(Abs(), kid)
      ensures old(clock.now) <= course.freshAt <= course.decidedAt <= clock.now
      ensures OnTime(ttl, old(commits), old(fetches), course, first, refusal)
      ensures FetchesBy(fetches, who) == FetchesBy(old(fetches), who) + Moments(course.scheduled)
      ensures refusal.None? && key.None? ==>
                && Lacking(commits, |old(commits)|, old(keys), kid)
                && (course.scheduled.Some? && first.Some? ==>
                      LackedSince(commits, |old(commits)|, course.scheduled.value, kid))
    {
      refusal, course := Usable(first, who);
      if refusal.Some? {
        return refusal, None, course;
      }
      Unlocked(who);
      key := LookupKey(kid);
    }

    /** A refetch whose error is ignored, and the second lookup. */
    method LookAfterRefetch(kid: Kid, answer: Option<KeySet>, ghost who: nat)
      returns (key: Option<Key>, ghost refetchedAt: Time)
      requires Valid() && ttl >= 0
      modifies this, clock
      ensures Valid() && Interfered()
      ensures key.Some? ==> key == Lookup(Abs(), kid)
      ensures FetchesBy(fetches, who) == FetchesBy(old(fetches), who) + [refetchedAt]
      ensures old(clock.now) <= refetchedAt <= clock.now
      ensures answer.Some? && key.None? ==> LackedSince(commits, |old(commits)|, refetchedAt, kid)
    {
      var _, _, startedAt := Refresh(answer, who);
      refetchedAt := startedAt;
      Unlocked(who);
      key := LookupKey(kid);
    }

    /** The second half: one rate-limited refetch for a kid the cache does not know. */
    method LookupOutOfBand(kid: Kid, answer: Option<KeySet>, ghost who: nat)
      returns (key: Option<Key>, ghost askedAt: Time, ghost refetched: Option<Time>)
      requires Valid() && ttl >= 0
      modifies this, clock
      ensures Valid() && Interfered()
      ensures key.Some? ==> key == Lookup(Abs(), kid)
      ensures FetchesBy(fetches, who) == FetchesBy(old(fetches), who) + Moments(refetched)
      ensures old(clock.now) <= askedAt <= clock.now
      ensures refetched.None? ==> key.None? && Busy(grants, kid, askedAt)
      ensures refetched.Some? && answer.Some? && key.None? ==>
                LackedSince(commits, |old(commits)|, refetched.value, kid)
    {
      Unlocked(who);
      askedAt := clock.now;
      var granted := ReserveUnknownKidRetry(kid);
      if !granted {
        return None, askedAt, None;
      }
      Unlocked(who);
      ghost var refetchedAt;
      key, refetchedAt := LookAfterRefetch(kid, answer, who);
      refetched := Some(refetchedAt);
    }

    /**
     Whatever other goroutines do whenever the lock is free, a key that is returned
     belongs to a fetched key set committed at most three TTLs before a freshness or
     staleness check that this very call passed; and an error is one the cache's own
     state during the call accounts for.  The call fetches on schedule exactly when it
     should, and at most once more for a kid it does not find.  `first` and `second` are
     what the network answers to the fetches the call may make.
     */
    method KeyForKid(kid: Kid, first: Option<KeySet>, second: Option<KeySet>, ghost who: nat)
      returns (r: Result<Key, KeyError>, ghost course: Course)
      requires Valid() && ttl >= 0
      modifies this, clock
      ensures Valid() && Interfered()
      ensures r.Ok? ==>
                && old(clock.now) <= course.checkedAt <= clock.now
                && commits != []
                && var source := commits[|commits| - 1];
                   && kid in source.keys && source.keys[kid] == r.value
                   && course.checkedAt - source.at <= 3 * ttl
      ensures old(clock.now) <= course.freshAt <= course.decidedAt <= clock.now
      // it fetches on schedule if and only if the set is a TTL old, or there is none, and no fetch
      // has started for five seconds; a set fresh enough, or fetched now, is never refused
      ensures var due := old(commits) == [] || course.freshAt - old(commits)[|old(commits)| - 1].at >= ttl;
              var free := old(fetches) == []
                          || course.decidedAt - old(fetches)[|old(fetches)| - 1].at >= 5 * 1_000_000_000;
              && (course.scheduled.Some? <==> due && free)
              && (r.Err? && r.error != NoSuchKey ==> due && (!free || first.None?))
              && (r == Err(Unreachable) ==> free)
              && (r == Err(NotPopulated) ==> !free)
      // these are its fetches: a scheduled one, and one out of band
      ensures FetchesBy(fetches, who)
           == FetchesBy(old(fetches), who) + Moments(course.scheduled) + Moments(course.refetched)
      // why it may be refused, and why its kid may be unknown
      ensures r.Err? ==> if r.error == NoSuchKey then Lacking(commits, |old(commits)|, old(keys), kid)
              else Excuses(r.error, |old(commits)|)
      ensures r == Err(NoSuchKey) && course.scheduled.Some? && first.Some? ==>
                LackedSince(commits, |old(commits)|, course.scheduled.value, kid)
      ensures r == Err(NoSuchKey) && course.refetched.Some? && second.Some? ==>
                LackedSince(commits, |old(commits)|, course.refetched.value, kid)
      ensures r == Err(NoSuchKey) && course.refetched.None? ==>
                old(clock.now) <= course.askedAt <= clock.now && Busy(grants, kid, course.askedAt)
    {
      var refusal, key;
      refusal, key, course := FirstLook(kid, first, who);
      if refusal.Some? {
        return Err(refusal.value), course;
      }
      if key.Some? {
        return Ok(key.value), course;
      }
      ghost var askedAt, refetched;
      key, askedAt, refetched := LookupOutOfBand(kid, second, who);
      course := course.(askedAt := askedAt, refetched := refetched);
      if key.Some? {
        return Ok(key.value), course;
      }
      return Err(NoSuchKey), course;
    }
  }
}
