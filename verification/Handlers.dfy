/**
 The search and get-profile handlers of internal/api/handlers.go: the order of their
 checks, and the reservation that is settled on every way out.
 */
module Handlers {
  import opened Outcomes
  import opened TouchRuns
  import opened TouchReservations
  import opened ProfileSearch
  import P = Pagination
  import C = Cursor

  datatype Scope = SearchScope | ReadOwn | ReadAny | OtherScope(name: string)

  datatype AuthContext = AuthContext(sub: string, scope: Scope)

  /** How a call into a collaborator comes back. */
  datatype Answer = Yes | No | Fails | Panics

  datatype SearchRequest = SearchRequest(decodes: bool, filters: Filters, cursor: string, pageSize: int)

  datatype ReadRequest = ReadRequest(id: string, reason: string)

  /** The reason codes a read of any profile must choose from. */
  const REASON_CODES := ["support_ticket", "fraud_review", "kyc_reverification", "legal_hold"]

  datatype Response =
    | Unauthorized | Forbidden | BadRequest | RateLimited | CapExceeded | InternalError | DaoFailure
    | PageFound(page: P.Page)
    | ProfileFound(profile: Profile)
    | Panicked

  datatype AuditKind =
    | AuthnFailure | ScopeFailure | LimiterRefused | CapRefused | PolicyDenial | RequestFailed | Success

  /** An audit event: who asked, if that is known, about which records, and for what reason. */
  datatype Audit = Audit(caller: Option<AuthContext>, kind: AuditKind, ids: seq<string>, reason: string)

  /** What became of a request, and what it did to the counter. */
  datatype Outcome = Outcome(response: Response, audit: Option<Audit>)

  function IdsOf(results: seq<Profile>): (ids: seq<string>)
    ensures |ids| == |results| && forall i :: 0 <= i < |ids| ==> ids[i] == results[i].id
  {
    seq(|results|, i requires 0 <= i < |results| => results[i].id)
  }

  lemma IdsAre(results: seq<Profile>)
    ensures (set id | id in IdsOf(results)) == set p | p in results :: p.id
  {
    var ids := IdsOf(results);
    forall p | p in results
      ensures p.id in ids
    {
      var i :| 0 <= i < |results| && results[i] == p;
      assert ids[i] == p.id;
    }
  }

  lemma {:induction false} DistinctAtMost(ids: seq<string>)
    ensures |set id | id in ids| <= |ids|
  {
    if ids != [] {
      var rest := ids[..|ids| - 1];
      DistinctAtMost(rest);
      assert (set id | id in ids) == (set id | id in rest) + {ids[|ids| - 1]};
    }
  }

  /**
   The event a response is logged with.  A denied scope and a denied policy look alike
   to the client and differ here; a request turned away before it names its records
   logs none.
   */
  function AuditOf(auth: Option<AuthContext>, inScope: bool, response: Response, target: seq<string>,
                   reason: string): Option<Audit>
  {
    match response
    case Unauthorized => Some(Audit(None, AuthnFailure, [], ""))
    case Forbidden =>
      Some(if inScope then Audit(auth, PolicyDenial, target, reason) else Audit(auth, ScopeFailure, [], ""))
    case RateLimited => Some(Audit(auth, LimiterRefused, [], reason))
    case CapExceeded => Some(Audit(auth, CapRefused, [], reason))
    case DaoFailure => Some(Audit(auth, RequestFailed, target, reason))
    case PageFound(page) => Some(Audit(auth, Success, IdsOf(page.results), reason))
    case ProfileFound(profile) => Some(Audit(auth, Success, [profile.id], reason))
    case _ => None
  }

  /**
   One reservation, and one settlement of it with the records the response hands out: none
   if there is no such response.
   */
  ghost predicate SettledOnce(own: seq<Event>, sub: string, size: nat, ids: set<string>) {
    && |own| == 2
    && own[0].Arrive? && own[0].sub == sub && own[0].size == size
    && own[1].Finish? && own[1].ids == ids
    && |ids| <= size
  }

  ghost predicate OnlyRefused(own: seq<Event>, sub: string, size: nat) {
    |own| == 1 && own[0].Arrive? && own[0].sub == sub && own[0].size == size
  }

  lemma RefusedThenClosed(booked: seq<Event>, own: seq<Event>, sub: string, size: nat, ids: set<string>)
    requires OnlyRefused(booked, sub, size) && Closes(booked, own, ids) && |ids| <= size
    ensures SettledOnce(own, sub, size, ids)
  {
  }

  /** The search request's own checks, made before any limiter is asked. */
  predicate WellShaped(req: SearchRequest) {
    req.decodes && P.HasFilter(req.filters) && C.DecodeCursor(req.cursor).Ok? && P.PageSize(req.pageSize) <= P.MAX_PAGE
  }

  /** The page the table gives at an offset, as the response carries it. */
  function PageAt(rows: seq<Profile>, f: Filters, offset: nat, requested: int): Result<P.Page, P.PageError> {
    match P.PageFrom(rows, f, offset, requested)
    case Err(e) => Err(e)
    case Ok((results, total, next)) => Ok(P.Page(results, total, P.Cursor(next)))
  }

  lemma SearchPageIs(rows: seq<Profile>, f: Filters, cursor: string, requested: int)
    requires P.HasFilter(f) && C.DecodeCursor(cursor).Ok?
    ensures P.SearchPage(rows, f, cursor, requested) == PageAt(rows, f, C.DecodeCursor(cursor).value, requested)
  {
  }

  lemma PageAtIs(rows: seq<Profile>, f: Filters, offset: nat, requested: int)
    requires P.PageSize(requested) <= P.MAX_PAGE
    ensures var found := Found(rows, Query(f, P.PageSize(requested), offset));
            if found.Err? then PageAt(rows, f, offset, requested).Err?
            else
              && |found.value.0| <= P.PageSize(requested)
              && PageAt(rows, f, offset, requested)
                 == Ok(P.Page(found.value.0, found.value.1,
                              P.Cursor(if offset + |found.value.0| < found.value.1 then Some(offset + |found.value.0|)
                                       else None)))
  {
  }

  /** How an answer leaves the handler: a panic while it is logged or written takes its place. */
  datatype Ending = Sent | LogPanics | WritePanics

  function Ended(made: Outcome, ending: Ending): (sent: Outcome)
    ensures ending.Sent? || (ending.LogPanics? && made.audit.None?) ==> sent == made
    ensures ending.LogPanics? && made.audit.Some? ==> sent.response.Panicked? && sent.audit.None?
    ensures ending.WritePanics? ==> sent.response.Panicked? && sent.audit == made.audit
  {
    match ending
    case Sent => made
    case LogPanics => if made.audit.Some? then Outcome(Panicked, None) else made
    case WritePanics => Outcome(Panicked, made.audit)
  }

  /** Turned away before the limiters: no caller, the wrong scope, or a malformed request, in that order. */
  predicate Refused(o: Outcome, auth: Option<AuthContext>, inScope: bool) {
    && o.response == (if auth.None? then Unauthorized else if !inScope then Forbidden else BadRequest)
    && o.audit == AuditOf(auth, inScope, o.response, [], "")
  }

  /** The checks before the limiters: a refusal, or the offset and page size to go on with. */
  method ReadSearch(auth: Option<AuthContext>, req: SearchRequest)
    returns (refusal: Option<Outcome>, pageSize: nat, offset: nat)
    ensures refusal.None? <==> auth.Some? && auth.value.scope == SearchScope && WellShaped(req)
    ensures refusal.None? ==> pageSize == P.PageSize(req.pageSize) && C.DecodeCursor(req.cursor) == Ok(offset)
    ensures refusal.Some? ==> Refused(refusal.value, auth, auth.Some? && auth.value.scope == SearchScope)
  {
    pageSize, offset := 0, 0;
    if auth.None? {
      return Some(Outcome(Unauthorized, Some(Audit(None, AuthnFailure, [], "")))), pageSize, offset;
    }
    if auth.value.scope != SearchScope {
      return Some(Outcome(Forbidden, Some(Audit(auth, ScopeFailure, [], "")))), pageSize, offset;
    }
    if !req.decodes || !P.HasFilter(req.filters) {
      return Some(Outcome(BadRequest, None)), pageSize, offset;
    }
    var start := C.DecodeCursor(req.cursor);
    if start.Err? {
      return Some(Outcome(BadRequest, None)), pageSize, offset;
    }
    var size := req.pageSize;
    if size <= 0 {
      size := P.DEFAULT_PAGE;
    }
    if size > P.MAX_PAGE {
      return Some(Outcome(BadRequest, None)), pageSize, offset;
    }
    return None, size, start.value;
  }

  /** The ways out after the reservation that hand out no record. */
  predicate AnsweredNothing(response: Response, authz: Answer, repo: Answer) {
    match authz
    case Yes => if repo.Panics? then response.Panicked? else response.DaoFailure?
    case No => response.Forbidden?
    case Fails => response.InternalError?
    case Panics => response.Panicked?
  }

  /** From authorization to the response, up to wherever the handler returns or panics. */
  method AnswerSearch(ac: AuthContext, req: SearchRequest, pageSize: nat, offset: nat, authz: Answer, repo: Answer,
                      rows: seq<Profile>)
    returns (outcome: Outcome)
    requires pageSize == P.PageSize(req.pageSize) <= P.MAX_PAGE
    ensures outcome.response.PageFound?
            <==> authz == Yes && repo == Yes && PageAt(rows, req.filters, offset, req.pageSize).Ok?
    ensures outcome.response.PageFound? ==>
              && PageAt(rows, req.filters, offset, req.pageSize) == Ok(outcome.response.page)
              && |outcome.response.page.results| <= pageSize
    ensures outcome.response.PageFound? || AnsweredNothing(outcome.response, authz, repo)
    ensures outcome.audit == AuditOf(Some(ac), true, outcome.response, [], "")
  {
    match authz {
      case Fails => return Outcome(InternalError, None);
      case Panics => return Outcome(Panicked, None);
      case No => return Outcome(Forbidden, Some(Audit(Some(ac), PolicyDenial, [], "")));
      case Yes =>
    }
    if repo == Panics {
      return Outcome(Panicked, None);
    }
    var found := Search(rows, Query(req.filters, pageSize, offset));
    PageAtIs(rows, req.filters, offset, req.pageSize);
    if repo != Yes || found.Err? {
      return Outcome(DaoFailure, Some(Audit(Some(ac), RequestFailed, [], "")));
    }
    var (results, total) := found.value;
    var page := P.Page(results, total,
                       P.Cursor(if offset + |results| < total then Some(offset + |results|) else None));
    assert PageAt(rows, req.filters, offset, req.pageSize) == Ok(page);
    return Outcome(PageFound(page), Some(Audit(Some(ac), Success, IdsOf(results), "")));
  }

  /** A reservation, or null exactly when the cap is met. */
  method ReserveTouches(shared: SharedCounter, who: Request, sub: string, size: nat) returns (tr: TouchReservation?)
    requires shared.Valid() && size <= P.MAX_PAGE && Mine(shared.log, who) == [] && HeldBy(shared.tickets, who) == []
    modifies shared, shared.counter
    ensures shared.Valid() && OnlyRefused(Mine(shared.log, who), sub, size)
    ensures shared.Told(who, tr != null)
    ensures tr == null ==> HeldBy(shared.tickets, who) == []
    ensures tr != null ==>
              && fresh(tr) && tr.Valid() && !tr.done
              && tr.shared == shared && tr.who == who && tr.sub == sub && tr.reserved == size
  {
    ghost var before, tickets := shared.log, shared.tickets;
    var reserved, event, booking := shared.Reserve(who, sub, size);
    MineMore(before, Entry(who, event), who);
    if !reserved {
      return null;
    }
    HeldConcat(tickets, [Ticket(who, booking)], who);
    HeldSingle(Ticket(who, booking), who);
    tr := new TouchReservation(shared, who, sub, size, booking);
  }

  /** A reservation seen to its end: settled with the ids handed out, if any, and then the deferred release. */
  method SettleAndRelease(tr: TouchReservation, found: Option<seq<string>>)
    requires tr.Valid() && !tr.done && OnlyRefused(Mine(tr.shared.log, tr.who), tr.sub, tr.reserved)
    requires found.Some? ==> |found.value| <= tr.reserved
    modifies tr, tr.shared, tr.shared.counter
    ensures tr.Valid() && tr.done
    ensures old(tr.shared.Told(tr.who, true)) ==> tr.shared.Told(tr.who, true)
    ensures SettledOnce(Mine(tr.shared.log, tr.who), tr.sub, tr.reserved,
                        if found.Some? then set id | id in found.value else {})
    ensures found.Some? && tr.sub in tr.shared.counter.windows ==>
              (set id | id in found.value) <= tr.shared.counter.windows[tr.sub].touched
  {
    ghost var booked, asked := Mine(tr.shared.log, tr.who), tr.shared.log;
    tr.shared.Others(tr.who);
    if found.Some? {
      DistinctAtMost(found.value);
      tr.Settle(found.value);
    }
    tr.Release();
    RefusedThenClosed(booked, Mine(tr.shared.log, tr.who), tr.sub, tr.reserved,
                      if found.Some? then set id | id in found.value else {});
    if Asked(tr.shared.counter.Cfg(), tr.shared.origin, asked, tr.who, true) {
      AskedStays(tr.shared.counter.Cfg(), tr.shared.origin, asked, tr.shared.log, tr.who, true);
    }
  }

  /** The search under the cap: reserve, answer, settle, and the deferred release. */
  method SearchCounted(shared: SharedCounter, who: Request, ac: AuthContext, req: SearchRequest, pageSize: nat,
                       offset: nat, authz: Answer, repo: Answer, rows: seq<Profile>)
    returns (outcome: Outcome)
    requires shared.Valid() && Mine(shared.log, who) == [] && HeldBy(shared.tickets, who) == []
    requires pageSize == P.PageSize(req.pageSize) <= P.MAX_PAGE
    modifies shared, shared.counter
    ensures shared.Valid() && HeldBy(shared.tickets, who) == []
    ensures if outcome.response.CapExceeded? then OnlyRefused(Mine(shared.log, who), ac.sub, pageSize)
            else SettledOnce(Mine(shared.log, who), ac.sub, pageSize,
                             if outcome.response.PageFound? then set p | p in outcome.response.page.results :: p.id
                             else {})
    ensures outcome.response.PageFound? && ac.sub in shared.counter.windows ==>
              (set p | p in outcome.response.page.results :: p.id) <= shared.counter.windows[ac.sub].touched
    ensures shared.Told(who, !outcome.response.CapExceeded?)
    ensures outcome.response.PageFound? ==>
              && authz == Yes && repo == Yes
              && PageAt(rows, req.filters, offset, req.pageSize) == Ok(outcome.response.page)
    ensures authz == Yes && repo == Yes && PageAt(rows, req.filters, offset, req.pageSize).Ok? ==>
              outcome.response.PageFound? || outcome.response.CapExceeded?
    ensures outcome.response.PageFound? || outcome.response.CapExceeded?
            || AnsweredNothing(outcome.response, authz, repo)
    ensures outcome.audit == AuditOf(Some(ac), true, outcome.response, [], "")
  {
    var tr := ReserveTouches(shared, who, ac.sub, pageSize);
    if tr == null {
      return Outcome(CapExceeded, Some(Audit(Some(ac), CapRefused, [], "")));
    }
    outcome := AnswerSearch(ac, req, pageSize, offset, authz, repo, rows);
    if outcome.response.PageFound? {
      IdsAre(outcome.response.page.results);
    }
    SettleAndRelease(tr, if outcome.response.PageFound? then Some(IdsOf(outcome.response.page.results)) else None);
  }

  /** The first gate a request fails decides its response, unless it `found` what it asked for. */
  predicate Gated(response: Response, found: bool, auth: Option<AuthContext>, inScope: bool, shaped: bool,
                  limiter: Answer, authz: Answer, repo: Answer)
  {
    if auth.None? then response.Unauthorized?
    else if !inScope then response.Forbidden?
    else if !shaped then response.BadRequest?
    else match limiter
         case No => response.RateLimited?
         case Fails => response.InternalError?
         case Panics => response.Panicked?
         case Yes => found || response.CapExceeded? || AnsweredNothing(response, authz, repo)
  }

  /** The handler: its checks, the rate limit, and the rest under the cap. */
  method SearchHandler(shared: SharedCounter, who: Request, auth: Option<AuthContext>, req: SearchRequest,
                       limiter: Answer, authz: Answer, repo: Answer, rows: seq<Profile>, ending: Ending)
    returns (outcome: Outcome, made: Outcome)
    requires shared.Valid() && Mine(shared.log, who) == [] && HeldBy(shared.tickets, who) == []
    modifies shared, shared.counter
    // nothing stays reserved, however the request ends
    ensures shared.Valid() && HeldBy(shared.tickets, who) == []
    // the counter hears of a request only once it has passed every earlier check, and then hears all of it
    ensures SearchTouches(Mine(shared.log, who), auth, req, limiter, made.response)
    // a page is settled in full: its own records are what the request adds to the caller's window
    ensures made.response.PageFound? ==>
              && auth.Some?
              && var own, ids := Mine(shared.log, who), set p | p in made.response.page.results :: p.id;
                 && |own| == 2
                 && own[0].Arrive? && own[0].sub == auth.value.sub
                 && own[0].size == (if req.pageSize <= 0 then 20 else req.pageSize)
                 && own[1].Finish? && own[1].ids == ids
                 && (auth.value.sub in shared.counter.windows ==> ids <= shared.counter.windows[auth.value.sub].touched)
    // it is turned away for the cap exactly when the cap is met as it asks
    ensures SearchReaches(auth, req, limiter) ==> shared.Told(who, !made.response.CapExceeded?)
    // a page is what the search of the table gives, and only behind every gate
    ensures made.response.PageFound? ==>
              && P.SearchPage(rows, req.filters, req.cursor, req.pageSize) == Ok(made.response.page)
              && authz == Yes && repo == Yes
    ensures SearchReaches(auth, req, limiter) && authz == Yes && repo == Yes
            && P.SearchPage(rows, req.filters, req.cursor, req.pageSize).Ok? ==>
              made.response.PageFound? || made.response.CapExceeded?
    // every way out is refused as its gate says, and logged as the response says
    ensures Gated(made.response, made.response.PageFound?, auth, auth.Some? && auth.value.scope == SearchScope,
                  WellShaped(req), limiter, authz, repo)
    ensures made.audit == AuditOf(auth, auth.Some? && auth.value.scope == SearchScope, made.response, [], "")
    // a request is malformed without a filter, with a cursor that does not decode, or past 50 records
    ensures made.response.BadRequest? <==>
              && auth.Some? && auth.value.scope == SearchScope
              && !(&& req.decodes && C.DecodeCursor(req.cursor).Ok? && req.pageSize <= 50
                   && (req.filters.name.Some? || req.filters.phone.Some? || req.filters.region.Some?
                       || req.filters.country.Some?))
    // a panic while the answer is logged or written withholds it and takes nothing back
    ensures outcome == Ended(made, ending)
  {
    var refusal, pageSize, offset := ReadSearch(auth, req);
    if refusal.Some? {
      made := refusal.value;
    } else {
      SearchPageIs(rows, req.filters, req.cursor, req.pageSize);
      match limiter {
        case Fails => made := Outcome(InternalError, None);
        case Panics => made := Outcome(Panicked, None);
        case No => made := Outcome(RateLimited, Some(Audit(auth, LimiterRefused, [], "")));
        case Yes =>
          shared.Others(who);
          made := SearchCounted(shared, who, auth.value, req, pageSize, offset, authz, repo, rows);
      }
    }
    outcome := Ended(made, ending);
  }

  predicate SearchReaches(auth: Option<AuthContext>, req: SearchRequest, limiter: Answer) {
    auth.Some? && auth.value.scope == SearchScope && WellShaped(req) && limiter == Yes
  }

  /** What a search did to the counter, against its response. */
  ghost predicate SearchTouches(own: seq<Event>, auth: Option<AuthContext>, req: SearchRequest, limiter: Answer,
                                response: Response)
  {
    if !SearchReaches(auth, req, limiter) then own == []
    else if response.CapExceeded? then OnlyRefused(own, auth.value.sub, P.PageSize(req.pageSize))
    else SettledOnce(own, auth.value.sub, P.PageSize(req.pageSize),
                     if response.PageFound? then set p | p in response.page.results :: p.id else {})
  }

  // --------------------------------------------------------------- get profile

  predicate Reads(scope: Scope) {
    scope == ReadOwn || scope == ReadAny
  }

  /** A read of any profile gives its reason; a reason given for one's own is ignored. */
  predicate WellAsked(scope: Scope, req: ReadRequest) {
    !Blank(Some(req.id)) && (scope == ReadAny ==> req.reason in REASON_CODES)
  }

  /** A read is malformed with a blank id, or without one of four reasons to read any profile. */
  lemma WellAskedMeans(scope: Scope, req: ReadRequest)
    ensures WellAsked(scope, req)
       <==> && (exists i :: 0 <= i < |req.id| && !IsSpace(req.id[i]))
            && (scope == ReadAny ==>
                  || req.reason == "support_ticket" || req.reason == "fraud_review"
                  || req.reason == "kyc_reverification" || req.reason == "legal_hold")
  {
    assert REASON_CODES[0] == "support_ticket" && REASON_CODES[1] == "fraud_review";
    assert REASON_CODES[2] == "kyc_reverification" && REASON_CODES[3] == "legal_hold";
  }

  function ReasonOf(auth: Option<AuthContext>, req: ReadRequest): string {
    if auth.Some? && auth.value.scope == ReadAny then req.reason else ""
  }

  predicate ReadReaches(auth: Option<AuthContext>, req: ReadRequest, limiter: Answer) {
    auth.Some? && Reads(auth.value.scope) && WellAsked(auth.value.scope, req) && limiter == Yes
  }

  /** Reading one's own referrals is outside the cap; any other read books one record, whatever reason it gives. */
  ghost predicate ReadTouches(own: seq<Event>, auth: Option<AuthContext>, req: ReadRequest, limiter: Answer,
                              response: Response)
  {
    if !ReadReaches(auth, req, limiter) || auth.value.scope == ReadOwn then own == [] && !response.CapExceeded?
    else if response.CapExceeded? then OnlyRefused(own, auth.value.sub, 1)
    else SettledOnce(own, auth.value.sub, 1, if response.ProfileFound? then {response.profile.id} else {})
  }

  /** The checks before the limiters. */
  method ReadChecks(auth: Option<AuthContext>, req: ReadRequest) returns (refusal: Option<Outcome>)
    ensures refusal.None? <==> ReadReaches(auth, req, Yes)
    ensures refusal.Some? ==> Refused(refusal.value, auth, auth.Some? && Reads(auth.value.scope))
  {
    if auth.None? {
      return Some(Outcome(Unauthorized, Some(Audit(None, AuthnFailure, [], ""))));
    }
    var ac := auth.value;
    if !Reads(ac.scope) {
      return Some(Outcome(Forbidden, Some(Audit(auth, ScopeFailure, [], ""))));
    }
    if Blank(Some(req.id)) || (ac.scope == ReadAny && req.reason !in REASON_CODES) {
      return Some(Outcome(BadRequest, None));
    }
    return None;
  }

  /** From authorization to the query. */
  method AnswerRead(ac: AuthContext, id: string, reason: string, authz: Answer, repo: Answer, stored: Option<Profile>)
    returns (outcome: Outcome)
    ensures outcome.response.ProfileFound? <==> authz == Yes && repo == Yes && stored.Some?
    ensures outcome.response.ProfileFound? ==> stored == Some(outcome.response.profile)
    ensures outcome.response.ProfileFound? || AnsweredNothing(outcome.response, authz, repo)
    ensures outcome.audit == AuditOf(Some(ac), true, outcome.response, [id], reason)
  {
    match authz {
      case Fails => return Outcome(InternalError, None);
      case Panics => return Outcome(Panicked, None);
      case No => return Outcome(Forbidden, Some(Audit(Some(ac), PolicyDenial, [id], reason)));
      case Yes =>
    }
    if repo == Panics {
      return Outcome(Panicked, None);
    }
    if repo != Yes || stored.None? {
      return Outcome(DaoFailure, Some(Audit(Some(ac), RequestFailed, [id], reason)));
    }
    return Outcome(ProfileFound(stored.value), Some(Audit(Some(ac), Success, [stored.value.id], reason)));
  }

  /** The handler under the cap: reserve, answer, settle, and the deferred release. */
  method ReadCounted(shared: SharedCounter, who: Request, ac: AuthContext, id: string, reason: string,
                     authz: Answer, repo: Answer, stored: Option<Profile>)
    returns (outcome: Outcome)
    requires shared.Valid() && Mine(shared.log, who) == [] && HeldBy(shared.tickets, who) == []
    modifies shared, shared.counter
    ensures shared.Valid() && HeldBy(shared.tickets, who) == []
    ensures if outcome.response.CapExceeded? then OnlyRefused(Mine(shared.log, who), ac.sub, 1)
            else SettledOnce(Mine(shared.log, who), ac.sub, 1,
                             if outcome.response.ProfileFound? then {outcome.response.profile.id} else {})
    ensures outcome.response.ProfileFound? && ac.sub in shared.counter.windows ==>
              outcome.response.profile.id in shared.counter.windows[ac.sub].touched
    ensures shared.Told(who, !outcome.response.CapExceeded?)
    ensures outcome.response.ProfileFound? ==> authz == Yes && repo == Yes && stored == Some(outcome.response.profile)
    ensures authz == Yes && repo == Yes && stored.Some? ==>
            outcome.response.ProfileFound? || outcome.response.CapExceeded?
    ensures outcome.response.ProfileFound? || outcome.response.CapExceeded?
            || AnsweredNothing(outcome.response, authz, repo)
    ensures outcome.audit == AuditOf(Some(ac), true, outcome.response, [id], reason)
  {
    var tr := ReserveTouches(shared, who, ac.sub, 1);
    if tr == null {
      return Outcome(CapExceeded, Some(Audit(Some(ac), CapRefused, [], reason)));
    }
    outcome := AnswerRead(ac, id, reason, authz, repo, stored);
    if outcome.response.ProfileFound? {
      assert (set id | id in [outcome.response.profile.id]) == {outcome.response.profile.id};
    }
    SettleAndRelease(tr, if outcome.response.ProfileFound? then Some([outcome.response.profile.id]) else None);
  }

  method GetProfileHandler(shared: SharedCounter, who: Request, auth: Option<AuthContext>, req: ReadRequest,
                           limiter: Answer, authz: Answer, repo: Answer, stored: Option<Profile>, ending: Ending)
    returns (outcome: Outcome, made: Outcome)
    requires shared.Valid() && Mine(shared.log, who) == [] && HeldBy(shared.tickets, who) == []
    modifies shared, shared.counter
    ensures shared.Valid() && HeldBy(shared.tickets, who) == []
    ensures ReadTouches(Mine(shared.log, who), auth, req, limiter, made.response)
    // a profile read under the cap is settled
    ensures made.response.ProfileFound? && auth.Some? && auth.value.scope == ReadAny ==>
              && var own, id := Mine(shared.log, who), made.response.profile.id;
                 && |own| == 2
                 && own[0].Arrive? && own[0].sub == auth.value.sub && own[0].size == 1
                 && own[1].Finish? && own[1].ids == {id}
                 && (auth.value.sub in shared.counter.windows ==> id in shared.counter.windows[auth.value.sub].touched)
    // a read of any profile is turned away for the cap exactly when the cap is met as it asks
    ensures ReadReaches(auth, req, limiter) && auth.value.scope == ReadAny ==>
              shared.Told(who, !made.response.CapExceeded?)
    ensures made.response.ProfileFound? ==>
              ReadReaches(auth, req, limiter) && authz == Yes && repo == Yes && stored == Some(made.response.profile)
    ensures ReadReaches(auth, req, limiter) && authz == Yes && repo == Yes && stored.Some? ==>
              made.response.ProfileFound? || (made.response.CapExceeded? && auth.value.scope == ReadAny)
    ensures Gated(made.response, made.response.ProfileFound?, auth, auth.Some? && Reads(auth.value.scope),
                  auth.Some? && WellAsked(auth.value.scope, req), limiter, authz, repo)
    ensures made.audit == AuditOf(auth, auth.Some? && Reads(auth.value.scope), made.response, [req.id],
                                  ReasonOf(auth, req))
    ensures outcome == Ended(made, ending)
  {
    var refusal := ReadChecks(auth, req);
    if refusal.Some? {
      made := refusal.value;
    } else {
      var ac := auth.value;
      var reason := if ac.scope == ReadAny then req.reason else "";
      match limiter {
        case Fails => made := Outcome(InternalError, None);
        case Panics => made := Outcome(Panicked, None);
        case No => made := Outcome(RateLimited, Some(Audit(auth, LimiterRefused, [], reason)));
        case Yes =>
          shared.Others(who);
          if ac.scope == ReadAny {
            made := ReadCounted(shared, who, ac, req.id, reason, authz, repo, stored);
          } else {
            made := AnswerRead(ac, req.id, reason, authz, repo, stored);
          }
      }
    }
    outcome := Ended(made, ending);
  }
}
