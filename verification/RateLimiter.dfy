/**
 The fixed-window limiter of internal/api/ratelimit.go, and what it admits over
 whole runs in any minute, aligned to a window or not.
 */
module RateLimiter {
  import opened Durations
  import opened Outcomes

  type Time = int

  datatype Bucket = Bucket(windowStart: Time, count: nat)

  function BucketKey(sub: string, scope: string): string {
    sub + "|" + scope
  }

  /** The bucket a request at `now` is counted in. */
  function Current(buckets: map<string, Bucket>, key: string, now: Time): Bucket {
    if key in buckets && now - buckets[key].windowStart < MINUTE then buckets[key] else Bucket(now, 0)
  }

  predicate Admitted(buckets: map<string, Bucket>, key: string, limit: int, now: Time) {
    Current(buckets, key, now).count < limit
  }

  function Counted(buckets: map<string, Bucket>, key: string, limit: int, now: Time): map<string, Bucket> {
    var b := Current(buckets, key, now);
    buckets[key := if Admitted(buckets, key, limit, now) then b.(count := b.count + 1) else b]
  }

  class InProcessRateLimiter {
    var buckets: map<string, Bucket>

    constructor ()
      ensures buckets == map[]
    {
      buckets := map[];
    }

    method Allow(sub: string, scope: string, limit: int, now: Time) returns (ok: bool)
      modifies this
      ensures ok == Admitted(old(buckets), BucketKey(sub, scope), limit, now)
      ensures buckets == Counted(old(buckets), BucketKey(sub, scope), limit, now)
      // a minute after its start a bucket counts for nothing, and the request starts the next one
      ensures var key := sub + "|" + scope;
              var live := key in old(buckets) && now - old(buckets)[key].windowStart < 60 * 1_000_000_000;
              && (ok <==> (if live then old(buckets)[key].count else 0) < limit)
              && buckets == old(buckets)[key := Bucket(if live then old(buckets)[key].windowStart else now,
                                                       (if live then old(buckets)[key].count else 0)
                                                       + if ok then 1 else 0)]
    {
      var key := BucketKey(sub, scope);
      if key !in buckets || now - buckets[key].windowStart >= MINUTE {
        buckets := buckets[key := Bucket(now, 0)];
      }
      var b := buckets[key];
      if b.count >= limit {
        assert buckets == buckets[key := b];
        return false;
      }
      buckets := buckets[key := b.(count := b.count + 1)];
      return true;
    }
  }

  const SCOPES := ["profile:read:own", "profile:read:any", "profile:search", "connector:identity-lookup"]

  lemma ScopesHaveNoBar(scope: string)
    requires scope in SCOPES
    ensures '|' !in scope
  {
    var i :| 0 <= i < |SCOPES| && SCOPES[i] == scope;
    assert i == 0 || i == 1 || i == 2 || i == 3;
  }

  lemma LastBar(sub: string, scope: string)
    requires '|' !in scope
    ensures var k := BucketKey(sub, scope);
            k[|sub|] == '|' && k[..|sub|] == sub && k[|sub| + 1..] == scope
            && forall j :: |sub| < j < |k| ==> k[j] != '|'
  {
    var k := BucketKey(sub, scope);
    assert forall j :: |sub| < j < |k| ==> k[j] == scope[j - |sub| - 1];
  }

  /** Two callers or scopes never share a bucket: a key determines both. */
  lemma KeysDoNotCollide(sub1: string, scope1: string, sub2: string, scope2: string)
    requires '|' !in scope1 && '|' !in scope2
    requires BucketKey(sub1, scope1) == BucketKey(sub2, scope2)
    ensures sub1 == sub2 && scope1 == scope2
  {
    LastBar(sub1, scope1);
    LastBar(sub2, scope2);
    assert |sub1| == |sub2|;
  }

  // ------------------------------------------------------------- whole runs

  datatype Request = Request(key: string, limit: int, now: Time)

  /** An admitted request and the start of the window it was counted in. */
  datatype Grant = Grant(at: Time, window: Time)

  datatype System = System(buckets: map<string, Bucket>, grants: seq<Grant>, clock: Time)

  /** One request; `grants` follows the key being watched. */
  function Next(key: string, y: System, r: Request): System {
    var after := Counted(y.buckets, r.key, r.limit, r.now);
    System(after,
           if r.key == key && Admitted(y.buckets, r.key, r.limit, r.now) then y.grants
             + [Grant(r.now, after[key].windowStart)] else y.grants,
           r.now)
  }

  predicate Timely(rs: seq<Request>, clock: Time) {
    rs == [] || (clock <= rs[0].now && Timely(rs[1..], rs[0].now))
  }

  /** Every request for the watched key carries the same limit, as each handler's constant does. */
  predicate ConstantLimit(rs: seq<Request>, key: string, limit: int) {
    forall r :: r in rs && r.key == key ==> r.limit == limit
  }

  function Run(key: string, y: System, rs: seq<Request>): System
    decreases |rs|
  {
    if rs == [] then y else Run(key, Next(key, y, rs[0]), rs[1..])
  }

  function Start(clock: Time): System {
    System(map[], [], clock)
  }

  /** Requests admitted in [from, from + a minute). */
  function AdmittedIn(grants: seq<Grant>, from: Time): nat {
    if grants == [] then 0
    else
      var g := grants[|grants| - 1];
      AdmittedIn(grants[..|grants| - 1], from) + if from <= g.at < from + 60 * 1_000_000_000 then 1 else 0
  }

  /** Requests counted in the window starting at `window`. */
  function InWindow(grants: seq<Grant>, window: Time): nat {
    if grants == [] then 0
    else
      var g := grants[|grants| - 1];
      InWindow(grants[..|grants| - 1], window) + if g.window == window then 1 else 0
  }

  ghost predicate Windowed(grants: seq<Grant>) {
    && (forall i :: 0 <= i < |grants| ==> grants[i].window <= grants[i].at < grants[i].window + MINUTE)
    && (forall i, j :: 0 <= i < j < |grants| ==>
          grants[i].window == grants[j].window || grants[i].window + MINUTE <= grants[j].window)
  }

  ghost predicate Accounts(limit: nat, grants: seq<Grant>, b: Bucket) {
    && Windowed(grants)
    && (forall w :: InWindow(grants, w) <= limit)
    && (forall i :: 0 <= i < |grants| ==>
        grants[i].window == b.windowStart || grants[i].window + MINUTE <= b.windowStart)
    && InWindow(grants, b.windowStart) == b.count
  }

  ghost predicate Inv(key: string, limit: nat, y: System) {
    if key in y.buckets then
      Accounts(limit, y.grants, y.buckets[key]) && y.buckets[key].windowStart <= y.clock
    else y.grants == []
  }

  lemma {:induction false} NoneInWindow(grants: seq<Grant>, w: Time)
    requires forall i :: 0 <= i < |grants| ==> grants[i].window != w
    ensures InWindow(grants, w) == 0
  {
    if grants != [] {
      NoneInWindow(grants[..|grants| - 1], w);
    }
  }

  lemma RollKeeps(limit: nat, grants: seq<Grant>, b: Bucket, now: Time)
    requires Accounts(limit, grants, b) && now - b.windowStart >= MINUTE
    ensures Accounts(limit, grants, Bucket(now, 0))
  {
    NoneInWindow(grants, now);
  }

  lemma AdmitKeeps(limit: nat, grants: seq<Grant>, b: Bucket, now: Time)
    requires Accounts(limit, grants, b) && b.count < limit && 0 <= now - b.windowStart < MINUTE
    ensures Accounts(limit, grants + [Grant(now, b.windowStart)], b.(count := b.count + 1))
  {
    var more := grants + [Grant(now, b.windowStart)];
    assert more[..|more| - 1] == grants;
    forall w
      ensures InWindow(more, w) <= limit
    {
      assert InWindow(grants, w) <= limit;
    }
  }

  lemma NextKeeps(key: string, limit: nat, y: System, r: Request)
    requires Inv(key, limit, y) && y.clock <= r.now && (r.key == key ==> r.limit == limit)
    ensures Inv(key, limit, Next(key, y, r))
  {
    if r.key == key {
      CurrentKeeps(key, limit, y, r.now);
      var b := Current(y.buckets, key, r.now);
      if b.count < limit {
        AdmitKeeps(limit, y.grants, b, r.now);
      }
    } else {
      assert key in y.buckets <==> key in Next(key, y, r).buckets;
    }
  }

  lemma CurrentKeeps(key: string, limit: nat, y: System, now: Time)
    requires Inv(key, limit, y) && y.clock <= now
    ensures Accounts(limit, y.grants, Current(y.buckets, key, now))
    ensures 0 <= now - Current(y.buckets, key, now).windowStart < MINUTE
  {
    if key in y.buckets && now - y.buckets[key].windowStart >= MINUTE {
      RollKeeps(limit, y.grants, y.buckets[key], now);
    }
  }

  lemma {:induction false} RunKeeps(key: string, limit: nat, y: System, rs: seq<Request>)
    requires Inv(key, limit, y) && Timely(rs, y.clock) && ConstantLimit(rs, key, limit)
    ensures Inv(key, limit, Run(key, y, rs))
    decreases |rs|
  {
    if rs != [] {
      NextKeeps(key, limit, y, rs[0]);
      RunKeeps(key, limit, Next(key, y, rs[0]), rs[1..]);
    }
  }

  /** The window that opened last among those a minute starting at `from` reaches into. */
  lemma {:induction false} TwoWindows(grants: seq<Grant>, from: Time) returns (first: Time, second: Time)
    requires Windowed(grants)
    ensures AdmittedIn(grants, from) <= InWindow(grants, first) + if first == second then 0
            else InWindow(grants, second)
    ensures AdmittedIn(grants, from) > 0 ==>
              exists i :: 0 <= i < |grants| && grants[i].window == first && from - MINUTE < first < from + MINUTE
    ensures first == second || (second >= from && first + MINUTE <= second
              && exists i :: 0 <= i < |grants| && grants[i].window == second)
  {
    if grants == [] {
      return 0, 0;
    }
    var n := |grants| - 1;
    var g, rest := grants[n], grants[..n];
    assert forall i :: 0 <= i < n ==> rest[i] == grants[i];
    first, second := TwoWindows(rest, from);
    if from <= g.at < from + MINUTE {
      if AdmittedIn(rest, from) == 0 {
        first, second := g.window, g.window;
      } else {
        var i :| 0 <= i < |rest| && rest[i].window == first;
        if first == second && g.window != first {
          second := g.window;
        } else if first != second {
          var j :| 0 <= j < |rest| && rest[j].window == second;
        }
      }
    }
  }

  /** Over any run a window admits at most the limit, and any minute at all at most twice the limit. */
  lemma RateBound(key: string, limit: nat, clock: Time, rs: seq<Request>, from: Time)
    requires Timely(rs, clock) && ConstantLimit(rs, key, limit)
    ensures var grants := Run(key, Start(clock), rs).grants;
            && AdmittedIn(grants, from) <= 2 * limit
            && (forall w :: InWindow(grants, w) <= limit)
  {
    RunKeeps(key, limit, Start(clock), rs);
    var grants := Run(key, Start(clock), rs).grants;
    var first, second := TwoWindows(grants, from);
    assert InWindow(grants, first) <= limit && InWindow(grants, second) <= limit;
  }

  // -------------------------------------------- windows told from the requests

  /**
   When the last window opened, by the times of the key's requests alone: the first of
   them opens one, admitted or not, and so does each that comes a minute or more after the
   request that opened the last.
   */
  function Opened(rs: seq<Request>, key: string, last: Option<Time>): Option<Time>
    decreases |rs|
  {
    if rs == [] then last
    else Opened(rs[1..], key,
                if rs[0].key == key && (last.None? || rs[0].now - last.value >= 60 * 1_000_000_000) then Some(rs[0].now)
                else last)
  }

  function AdmittedSince(grants: seq<Grant>, from: Time): nat {
    if grants == [] then 0
    else AdmittedSince(grants[..|grants| - 1], from) + if from <= grants[|grants| - 1].at then 1 else 0
  }

  lemma {:induction false} RunOpens(key: string, y: System, rs: seq<Request>, last: Option<Time>)
    requires last == if key in y.buckets then Some(y.buckets[key].windowStart) else None
    ensures var z := Run(key, y, rs).buckets;
            Opened(rs, key, last) == if key in z then Some(z[key].windowStart) else None
    decreases |rs|
  {
    if rs != [] {
      var after := Next(key, y, rs[0]).buckets;
      RunOpens(key, Next(key, y, rs[0]), rs[1..], if key in after then Some(after[key].windowStart) else None);
    }
  }

  /** What the present window has admitted is what was admitted from its opening on. */
  lemma {:induction false} SinceIsInWindow(grants: seq<Grant>, start: Time)
    requires forall i :: 0 <= i < |grants| ==>
               && grants[i].window <= grants[i].at < grants[i].window + MINUTE
               && (grants[i].window == start || grants[i].window + MINUTE <= start)
    ensures AdmittedSince(grants, start) == InWindow(grants, start)
  {
    if grants != [] {
      SinceIsInWindow(grants[..|grants| - 1], start);
    }
  }

  /**
   Over any run of requests, refused ones included, a request is refused if and only if the
   limit was already admitted at or after the request that opened its window.
   */
  lemma RefusalMeaning(key: string, limit: nat, clock: Time, rs: seq<Request>, now: Time)
    requires Timely(rs, clock) && ConstantLimit(rs, key, limit)
    requires Run(key, Start(clock), rs).clock <= now
    ensures var y := Run(key, Start(clock), rs);
            var opener := Opened(rs + [Request(key, limit, now)], key, None);
            && opener.Some?
            && (!Admitted(y.buckets, key, limit, now) <==> AdmittedSince(y.grants, opener.value) >= limit)
  {
    var y := Run(key, Start(clock), rs);
    RunKeeps(key, limit, Start(clock), rs);
    RunOpens(key, Start(clock), rs, None);
    OpenedMore(rs, Request(key, limit, now), key, None);
    CurrentKeeps(key, limit, y, now);
    SinceIsInWindow(y.grants, Current(y.buckets, key, now).windowStart);
  }

  lemma {:induction false} OpenedMore(rs: seq<Request>, r: Request, key: string, last: Option<Time>)
    ensures Opened(rs + [r], key, last) == Opened([r], key, Opened(rs, key, last))
    decreases |rs|
  {
    if rs == [] {
      assert rs + [r] == [r];
    } else {
      assert (rs + [r])[1..] == rs[1..] + [r];
      OpenedMore(rs[1..], r, key,
                 if rs[0].key == key && (last.None? || rs[0].now - last.value >= 60 * 1_000_000_000)
                 then Some(rs[0].now) else last);
    }
  }
}
