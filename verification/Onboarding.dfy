/**
 Onboarding mediation of internal/onboarding: the cached client-credentials token
 (token.go) and the two-attempt identity check over it (onboarding.go).
 */
module Onboarding {
  import opened Outcomes
  import opened Backoff
  import opened Durations
  import J = JwksCache

  type Time = int

  const REFRESH_MARGIN := 30 * SECOND
  const MAX_RETRIES := 2

  // --------------------------------------------------------------- own token

  /** A token the issuer handed out for so many seconds, when it was asked for, and when it was stored. */
  datatype Grant = Grant(token: string, seconds: int, askedAt: Time, storedAt: Time)

  /** time.Duration(seconds) * time.Second, in 64 bits. */
  function Lifetime(seconds: int): (d: int)
    ensures 0 <= seconds <= 9_000_000_000 ==> d == seconds * 1_000_000_000
  {
    Wrap64(seconds * SECOND)
  }

  function Expiry(g: Grant): Time {
    g.storedAt + Lifetime(g.seconds)
  }

  predicate WellFormed(reply: (string, int)) {
    reply.0 != "" && reply.1 > 0
  }

  class TokenSource {
    const clock: J.Clock
    /** No other request uses this source. */
    const alone: bool
    var cached: string
    var expiry: Time

    /** Every token stored, oldest first, and which of them is the cached one. */
    ghost var grants: seq<Grant>
    ghost var from: nat

    ghost predicate Valid()
      reads this, clock
    {
      cached != "" ==>
        && from < |grants| && grants[from].token == cached && Expiry(grants[from]) == expiry
        && grants[from].storedAt <= clock.now
    }

    /** The cache holds nothing stored before `after`. */
    ghost predicate NothingOlder(after: Time)
      reads this, clock
    {
      Valid() && after <= clock.now && (cached != "" ==> after <= grants[from].storedAt)
    }

    constructor (clock: J.Clock, alone: bool)
      ensures Valid() && cached == "" && grants == [] && this.clock == clock && this.alone == alone
    {
      this.clock, this.alone, cached, expiry := clock, alone, "", 0;
      grants, from := [], 0;
    }

    /**
     The lock is free: other requests store tokens, which makes them new, and invalidate, as
     Token and Invalidate promise.
     */
    method Unlocked(ghost after: Time)
      requires NothingOlder(after)
      modifies this, clock
      ensures NothingOlder(after) && old(grants) <= grants && old(clock.now) <= clock.now
      ensures forall t :: old(NothingOlder(t)) ==> NothingOlder(t)
      ensures alone ==> grants == old(grants) && cached == old(cached) && expiry == old(expiry) && from == old(from)
    {
    }

    /** The token and lifetime in seconds of the issuer's reply, if it is well formed. */
    method FetchToken(reply: Option<(string, int)>) returns (answer: Option<(string, int)>)
      ensures answer == if reply.Some? && WellFormed(reply.value) then reply else None
    {
      if reply.None? || reply.value.0 == "" || reply.value.1 <= 0 {
        return None;
      }
      return reply;
    }

    /**
     A token for the connector.  One taken from the cache has more than the margin left;
     any other was asked for by this very call.  None was stored before `after`.
     */
    method Token(reply: Option<(string, int)>, ghost after: Time)
      returns (own: Option<string>, ghost grant: nat, ghost checkedAt: Time)
      requires NothingOlder(after)
      modifies this, clock
      ensures NothingOlder(after) && old(grants) <= grants && old(clock.now) <= checkedAt <= clock.now
      ensures forall t :: old(NothingOlder(t)) ==> NothingOlder(t)
      ensures own.Some? ==> grant < |grants| && grants[grant].token == own.value && after <= grants[grant].storedAt
      ensures own.None? ==> !(reply.Some? && reply.value.0 != "" && reply.value.1 > 0)
      ensures own.Some? ==>
                || grants[grant].storedAt + Lifetime(grants[grant].seconds) - checkedAt > 30 * 1_000_000_000
                || checkedAt <= grants[grant].askedAt
      ensures own.Some? ==> cached == own.value && from == grant && expiry == Expiry(grants[grant])
      ensures alone && old(cached) == "" && own.Some? ==> old(clock.now) <= grants[grant].askedAt
      ensures alone && old(cached) != "" && checkedAt < old(expiry) - 30 * 1_000_000_000 ==>
              own == Some(old(cached)) && grants == old(grants)
      ensures alone && own.Some? && !(old(cached) != "" && checkedAt < old(expiry) - 30 * 1_000_000_000) ==>
                && reply.Some? && grant == |old(grants)| == |grants| - 1
                && grants[grant].token == reply.value.0 != "" && grants[grant].seconds == reply.value.1 > 0
    {
      Unlocked(after);
      var now := clock.Read();
      checkedAt := now;
      if cached != "" && now < expiry - REFRESH_MARGIN {
        return Some(cached), from, checkedAt;
      }
      Unlocked(after);
      ghost var askedAt := clock.now;
      var answer := FetchToken(reply);
      Unlocked(after);
      if answer.None? {
        return None, 0, checkedAt;
      }
      cached := answer.value.0;
      now := clock.Read();
      expiry := now + Lifetime(answer.value.1);
      grants := grants + [Grant(cached, answer.value.1, askedAt, now)];
      from := |grants| - 1;
      return Some(cached), from, checkedAt;
    }

    /** Forgets the cached token; whatever is cached from now on is stored from now on. */
    method Invalidate()
      requires Valid()
      modifies this`cached
      ensures cached == "" && NothingOlder(clock.now)
      ensures forall t :: old(NothingOlder(t)) ==> NothingOlder(t)
    {
      cached := "";
    }
  }

  // ------------------------------------------------------------ the connector

  /** What one call to the connector brings: a value, a 401, or anything else. */
  datatype Reply<+T> = Got(value: T) | Refused | Broken

  type Identity = string

  /** A call to the connector; `at` is when its reply came. */
  datatype AuthCall = AuthCall(own: string, reply: Reply<string>, at: Time)

  datatype IdentityCall = IdentityCall(own: string, vendor: string, reply: Reply<Identity>, at: Time)

  /** One attempt's calls, in order: for its own token, to Auth, to Identity. */
  datatype Attempt = Attempt(token: Option<string>, auths: seq<AuthCall>, identities: seq<IdentityCall>)

  datatype VerifyError = Unavailable | Rejected

  function ResultOf<T>(reply: Reply<T>): Result<T, VerifyError> {
    match reply
    case Got(v) => Ok(v)
    case Refused => Err(Rejected)
    case Broken => Err(Unavailable)
  }

  /**
   How the world answers one attempt: the issuer, each call to the connector, and how many
   back-offs each deadline outlasts.
   */
  datatype World = World(issuer: Option<(string, int)>, auth: nat -> Reply<string>, authPatience: nat,
                         identity: nat -> Reply<Identity>, identityPatience: nat)

  /** Calls made when none gets through. */
  function Tries(patience: nat): nat {
    if patience < MAX_RETRIES then patience + 1 else MAX_RETRIES + 1
  }

  /**
   One to three calls with the same token, all but the last broken, and no fewer than the
   deadline allows unless one got through.
   */
  predicate AuthRun(calls: seq<AuthCall>, own: string, world: World) {
    && 1 <= |calls| <= 3
    && (forall i :: 0 <= i < |calls| ==> calls[i].own == own && calls[i].reply == world.auth(i))
    && (forall i :: 0 <= i < |calls| - 1 ==> calls[i].reply == Broken)
    && (calls[|calls| - 1].reply == Broken ==> |calls| == if world.authPatience < 2 then world.authPatience + 1 else 3)
  }

  predicate IdentityRun(calls: seq<IdentityCall>, own: string, vendor: string, world: World) {
    && 1 <= |calls| <= 3
    && (forall i :: 0 <= i < |calls| ==>
        calls[i].own == own && calls[i].vendor == vendor && calls[i].reply == world.identity(i))
    && (forall i :: 0 <= i < |calls| - 1 ==> calls[i].reply == Broken)
    && (calls[|calls| - 1].reply == Broken ==>
          |calls| == if world.identityPatience < 2 then world.identityPatience + 1 else 3)
  }

  /** What an attempt's calls come to: Identity is asked only with the vendor token this attempt's Auth returned. */
  predicate Made(a: Attempt, r: Result<Identity, VerifyError>, world: World) {
    if a.token.None? then
      && !(world.issuer.Some? && world.issuer.value.0 != "" && world.issuer.value.1 > 0)
      && a.auths == [] && a.identities == [] && r == Err(Unavailable)
    else
      && AuthRun(a.auths, a.token.value, world)
      && match a.auths[|a.auths| - 1].reply
         case Got(vendor) =>
           IdentityRun(a.identities, a.token.value, vendor, world)
             && r == ResultOf(a.identities[|a.identities| - 1].reply)
         case Refused => a.identities == [] && r == Err(Rejected)
         case Broken => a.identities == [] && r == Err(Unavailable)
  }

  /** When an attempt's last reply came. */
  function EndedAt(a: Attempt): Time {
    if a.identities != [] then a.identities[|a.identities| - 1].at
    else if a.auths != [] then a.auths[|a.auths| - 1].at
    else 0
  }

  /** Some grant of the token was stored after one moment, and if the request was alone also asked for after another. */
  ghost predicate Granted(own: Option<string>, after: Time, asked: Time, grants: seq<Grant>, alone: bool) {
    own.Some? ==>
      exists g :: 0 <= g < |grants| && grants[g].token == own.value && after <= grants[g].storedAt
        && (alone ==> asked <= grants[g].askedAt)
  }

  lemma GrantedStays(own: Option<string>, after: Time, asked: Time, grants: seq<Grant>, more: seq<Grant>, alone: bool)
    requires grants <= more && Granted(own, after, asked, grants, alone)
    ensures Granted(own, after, asked, more, alone)
  {
    if own.Some? {
      var g :| 0 <= g < |grants| && grants[g].token == own.value && after <= grants[g].storedAt
               && (alone ==> asked <= grants[g].askedAt);
      assert more[g] == grants[g];
    }
  }

  /** A whole verification: one attempt, or a rejected one and another with a token renewed since. */
  ghost predicate Verified(attempts: seq<Attempt>, r: Result<Identity, VerifyError>, worlds: (World, World),
                           grants: seq<Grant>, alone: bool) {
    if |attempts| == 1 then Made(attempts[0], r, worlds.0) && r != Err(Rejected)
    else
      && |attempts| == 2
      && Made(attempts[0], Err(Rejected), worlds.0) && Made(attempts[1], r, worlds.1)
      && Granted(attempts[1].token, EndedAt(attempts[0]), EndedAt(attempts[0]), grants, alone)
  }

  class Service {
    const tokens: TokenSource

    constructor (tokens: TokenSource)
      ensures this.tokens == tokens
    {
      this.tokens := tokens;
    }

    method CallAuth(own: string, world: World, ghost after: Time)
      returns (r: Result<string, VerifyError>, ghost calls: seq<AuthCall>)
      requires tokens.NothingOlder(after)
      modifies tokens.clock
      ensures tokens.NothingOlder(after) && old(tokens.clock.now) <= tokens.clock.now
      ensures AuthRun(calls, own, world) && r == ResultOf(calls[|calls| - 1].reply)
              && calls[|calls| - 1].at <= tokens.clock.now
    {
      calls := [];
      var attempt := 0;
      while attempt <= MAX_RETRIES
        invariant 0 <= attempt == |calls| <= Tries(world.authPatience)
        invariant tokens.NothingOlder(after) && old(tokens.clock.now) <= tokens.clock.now
        invariant forall i :: 0 <= i < |calls| ==>
                  calls[i].own == own && calls[i].reply == world.auth(i) == Broken && calls[i].at <= tokens.clock.now
      {
        if attempt > 0 && attempt > world.authPatience {
          return Err(Unavailable), calls;
        }
        var reply := world.auth(attempt);
        var at := tokens.clock.Read();
        calls := calls + [AuthCall(own, reply, at)];
        match reply {
          case Got(token) => return Ok(token), calls;
          case Refused => return Err(Rejected), calls;
          case Broken =>
        }
        attempt := attempt + 1;
      }
      return Err(Unavailable), calls;
    }

    method CallIdentity(own: string, vendor: string, world: World, ghost after: Time)
      returns (r: Result<Identity, VerifyError>, ghost calls: seq<IdentityCall>)
      requires tokens.NothingOlder(after)
      modifies tokens.clock
      ensures tokens.NothingOlder(after) && old(tokens.clock.now) <= tokens.clock.now
      ensures IdentityRun(calls, own, vendor, world) && r == ResultOf(calls[|calls| - 1].reply)
              && calls[|calls| - 1].at <= tokens.clock.now
    {
      calls := [];
      var attempt := 0;
      while attempt <= MAX_RETRIES
        invariant 0 <= attempt == |calls| <= Tries(world.identityPatience)
        invariant tokens.NothingOlder(after) && old(tokens.clock.now) <= tokens.clock.now
        invariant forall i :: 0 <= i < |calls| ==>
          calls[i].own == own && calls[i].vendor == vendor && calls[i].reply == world.identity(i) == Broken
            && calls[i].at <= tokens.clock.now
      {
        if attempt > 0 && attempt > world.identityPatience {
          return Err(Unavailable), calls;
        }
        var reply := world.identity(attempt);
        var at := tokens.clock.Read();
        calls := calls + [IdentityCall(own, vendor, reply, at)];
        match reply {
          case Got(identity) => return Ok(identity), calls;
          case Refused => return Err(Rejected), calls;
          case Broken =>
        }
        attempt := attempt + 1;
      }
      return Err(Unavailable), calls;
    }

    /** Auth, and with the vendor token it gives, Identity. */
    method CallBoth(own: string, world: World, ghost after: Time)
      returns (r: Result<Identity, VerifyError>, ghost made: Attempt)
      requires tokens.NothingOlder(after)
      modifies tokens, tokens.clock
      ensures tokens.NothingOlder(after) && old(tokens.grants) <= tokens.grants
              && old(tokens.clock.now) <= tokens.clock.now
      ensures made.token == Some(own) && Made(made, r, world) && EndedAt(made) <= tokens.clock.now
    {
      var auth, auths := CallAuth(own, world, after);
      tokens.Unlocked(after);
      if auth.Err? {
        return Err(auth.error), Attempt(Some(own), auths, []);
      }
      ghost var identities;
      r, identities := CallIdentity(own, auth.value, world, after);
      made := Attempt(Some(own), auths, identities);
      tokens.Unlocked(after);
    }

    method AttemptVerifyIdentity(world: World, ghost after: Time)
      returns (r: Result<Identity, VerifyError>, ghost made: Attempt)
      requires tokens.NothingOlder(after)
      modifies tokens, tokens.clock
      ensures tokens.NothingOlder(after) && old(tokens.grants) <= tokens.grants
              && old(tokens.clock.now) <= tokens.clock.now
      ensures Made(made, r, world) && (made.token.Some? ==> EndedAt(made) <= tokens.clock.now)
      ensures Granted(made.token, after, old(tokens.clock.now), tokens.grants, tokens.alone && old(tokens.cached) == "")
    {
      var own;
      ghost var grant, checkedAt;
      ghost var asked, alone := tokens.clock.now, tokens.alone && tokens.cached == "";
      own, grant, checkedAt := tokens.Token(world.issuer, after);
      if own.None? {
        return Err(Unavailable), Attempt(own, [], []);
      }
      ghost var granted := tokens.grants;
      assert Granted(own, after, asked, granted, alone);
      r, made := CallBoth(own.value, world, after);
      GrantedStays(own, after, asked, granted, tokens.grants, alone);
    }

    /**
     One attempt, and after a rejection one more.  The second never uses a token that
     was stored before the rejection came; with no other request about, it uses one
     that was asked for after it.
     */
    method VerifyIdentity(worlds: (World, World))
      returns (r: Result<Identity, VerifyError>, ghost attempts: seq<Attempt>)
      requires tokens.Valid()
      modifies tokens, tokens.clock
      ensures tokens.Valid() && old(tokens.grants) <= tokens.grants
      ensures Verified(attempts, r, worlds, tokens.grants, tokens.alone)
    {
      ghost var after := if tokens.cached == "" then tokens.clock.now else tokens.grants[tokens.from].storedAt;
      ghost var first;
      r, first := AttemptVerifyIdentity(worlds.0, after);
      attempts := [first];
      if r == Err(Rejected) {
        ghost var rejectedAt := tokens.clock.now;
        tokens.Invalidate();
        ghost var second;
        r, second := AttemptVerifyIdentity(worlds.1, rejectedAt);
        attempts := [first, second];
      }
    }
  }

  // ------------------------------------------------------------------- budget

  function Auths(attempts: seq<Attempt>): nat {
    if attempts == [] then 0 else |attempts[0].auths| + Auths(attempts[1..])
  }

  function Identities(attempts: seq<Attempt>): nat {
    if attempts == [] then 0 else |attempts[0].identities| + Identities(attempts[1..])
  }

  /**
   Whatever the connector answers, a verification makes at most two token acquisitions, six
   Auth and six Identity calls.
   */
  lemma VerificationBudget(attempts: seq<Attempt>, r: Result<Identity, VerifyError>, worlds: (World, World),
                        grants: seq<Grant>, alone: bool)
    requires Verified(attempts, r, worlds, grants, alone)
    ensures |attempts| <= 2 && Auths(attempts) <= 6 && Identities(attempts) <= 6
  {
    if |attempts| == 2 {
      assert Auths(attempts[1..]) == |attempts[1].auths| + Auths([]) by {
        assert attempts[1..][1..] == [];
      }
      assert Identities(attempts[1..]) == |attempts[1].identities| + Identities([]) by {
        assert attempts[1..][1..] == [];
      }
    } else {
      assert attempts[1..] == [];
    }
  }

  /**
   A verified identity answers the last call, made with the vendor token the same attempt's
   Auth gave for the same own token.
   */
  lemma SuccessUsesItsOwnVendorToken(attempts: seq<Attempt>, r: Result<Identity, VerifyError>, worlds: (World, World),
                        grants: seq<Grant>, alone: bool)
    requires Verified(attempts, r, worlds, grants, alone)
    ensures attempts != []
    ensures var a := attempts[|attempts| - 1];
            r.Ok? ==>
              && a.auths != [] && a.identities != []
              && var auth, identity := a.auths[|a.auths| - 1], a.identities[|a.identities| - 1];
                 && a.token == Some(auth.own) && auth.own == identity.own
                 && auth.reply == Got(identity.vendor) && identity.reply == Got(r.value)
  {
  }

  /** The last call an attempt made came back with a 401. */
  predicate EndsRefused(a: Attempt) {
    if a.identities != [] then a.identities[|a.identities| - 1].reply == Refused
    else a.auths != [] && a.auths[|a.auths| - 1].reply == Refused
  }

  lemma RejectedEndsRefused(a: Attempt, r: Result<Identity, VerifyError>, world: World)
    requires Made(a, r, world)
    ensures r == Err(Rejected) <==> EndsRefused(a)
  {
    if a.token.Some? && a.auths[|a.auths| - 1].reply.Got? {
      assert r == ResultOf(a.identities[|a.identities| - 1].reply);
    }
  }

  /**
   The credential is reported rejected exactly when there were two attempts and the last
   call of each came back with a 401; a 401 to only the first is not passed on.
   */
  lemma RejectedMeansTwice(attempts: seq<Attempt>, r: Result<Identity, VerifyError>, worlds: (World, World),
                           grants: seq<Grant>, alone: bool)
    requires Verified(attempts, r, worlds, grants, alone)
    ensures r == Err(Rejected) <==> |attempts| == 2 && EndsRefused(attempts[0]) && EndsRefused(attempts[1])
    ensures |attempts| == 2 <==> EndsRefused(attempts[0])
  {
    RejectedEndsRefused(attempts[0], if |attempts| == 1 then r else Err(Rejected), worlds.0);
    if |attempts| == 2 {
      RejectedEndsRefused(attempts[1], r, worlds.1);
    }
  }
}
