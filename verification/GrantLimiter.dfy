/**
 The failed-grant limiter of internal/api/grantlimiter.go: back-off per client id
 and per source IP, kept in two tables that are swept of long-idle entries.
 */
module GrantLimiter {
  import opened Outcomes
  import opened Backoff
  import opened Durations

  type Time = int

  datatype BackoffState = BackoffState(failures: nat, blockedUntil: Time, alerted: bool)

  type Table = map<string, BackoffState>

  datatype Config = Config(base: int, max: int, threshold: int)

  datatype Alert = Alert(client: string, failures: nat)

  /** `alerts` lists the calls made to the alert sink, oldest first. */
  datatype State = State(byClient: Table, bySource: Table, lastSweep: Option<Time>, alerts: seq<Alert>)

  const SWEEP_INTERVAL := MINUTE
  const ENTRY_TTL := HOUR

  predicate Blocked(m: Table, key: string, now: Time) {
    key in m && now < m[key].blockedUntil
  }

  function Failures(m: Table, key: string): nat {
    if key in m then m[key].failures else 0
  }

  /** The entry `key` has after one more failure at `now`. */
  function Advanced(cfg: Config, m: Table, key: string, now: Time): BackoffState {
    var n := Failures(m, key) + 1;
    BackoffState(n, now + Delay(cfg.base, cfg.max, n), key in m && m[key].alerted)
  }

  predicate Idle(s: BackoffState, now: Time) {
    now - s.blockedUntil >= ENTRY_TTL
  }

  function Dropped(m: Table, now: Time): Table {
    map key | key in m && !Idle(m[key], now) :: m[key]
  }

  predicate SweepDue(s: State, now: Time) {
    s.lastSweep.None? || now - s.lastSweep.value >= SWEEP_INTERVAL
  }

  function Swept(s: State, now: Time): State {
    if SweepDue(s, now) then
      State(Dropped(s.byClient, now), Dropped(s.bySource, now), Some(now), s.alerts)
    else s
  }

  predicate Allowed(s: State, client: string, source: string, now: Time) {
    !Blocked(s.byClient, client, now) && !Blocked(s.bySource, source, now)
  }

  predicate AlertDue(cfg: Config, s: BackoffState) {
    s.failures >= cfg.threshold && !s.alerted
  }

  function Failed(cfg: Config, s: State, client: string, source: string, now: Time): State {
    var c := Advanced(cfg, s.byClient, client, now);
    var due := AlertDue(cfg, c);
    s.(byClient := s.byClient[client := if due then c.(alerted := true) else c],
       bySource := s.bySource[source := Advanced(cfg, s.bySource, source, now)],
       alerts := if due then s.alerts + [Alert(client, c.failures)] else s.alerts)
  }

  function Succeeded(s: State, client: string, source: string): State {
    s.(byClient := s.byClient - {client}, bySource := s.bySource - {source})
  }

  method SweepMap(m: Table, now: Time) returns (r: Table)
    ensures r == Dropped(m, now)
  {
    r := m;
    var pending := m.Keys;
    while pending != {}
      invariant pending <= r.Keys <= m.Keys
      invariant forall key :: key in r ==> r[key] == m[key]
      invariant forall key :: key in m.Keys - pending ==> (key in r <==> !Idle(m[key], now))
      decreases pending
    {
      var key :| key in pending;
      pending := pending - {key};
      if now - r[key].blockedUntil >= ENTRY_TTL {
        r := r - {key};
      }
    }
  }

  class InProcessGrantLimiter {
    const base: int
    const max: int
    const threshold: int
    var byClientID: Table
    var bySourceIP: Table
    var lastSweep: Option<Time>
    var alerts: seq<Alert>

    ghost function Abs(): State
      reads this
    {
      State(byClientID, bySourceIP, lastSweep, alerts)
    }

    ghost function Cfg(): Config {
      Config(base, max, threshold)
    }

    constructor (base: int, max: int, threshold: int)
      ensures Abs() == State(map[], map[], None, []) && Cfg() == Config(base, max, threshold)
    {
      this.base, this.max, this.threshold := base, max, threshold;
      byClientID, bySourceIP, lastSweep, alerts := map[], map[], None, [];
    }

    method SweepLocked(now: Time)
      modifies this
      ensures Abs() == Swept(old(Abs()), now)
    {
      if lastSweep.Some? && now - lastSweep.value < SWEEP_INTERVAL {
        return;
      }
      lastSweep := Some(now);
      byClientID := SweepMap(byClientID, now);
      bySourceIP := SweepMap(bySourceIP, now);
    }

    method Allow(clientID: string, sourceIP: string, now: Time) returns (ok: bool)
      modifies this
      ensures Abs() == Swept(old(Abs()), now)
      ensures ok == Allowed(Abs(), clientID, sourceIP, now)
    {
      SweepLocked(now);
      ok := !(clientID in byClientID && now < byClientID[clientID].blockedUntil)
         && !(sourceIP in bySourceIP && now < bySourceIP[sourceIP].blockedUntil);
    }

    method Advance(m: Table, key: string, now: Time) returns (s: BackoffState)
      ensures s == Advanced(Cfg(), m, key, now)
    {
      s := if key in m then m[key] else BackoffState(0, 0, false);
      s := s.(failures := s.failures + 1);
      var backoff := ShiftLeft(base, s.failures - 1);
      if backoff > max || backoff <= 0 {
        backoff := max;
      }
      s := s.(blockedUntil := now + backoff);
    }

    method RecordFailure(clientID: string, sourceIP: string, now: Time)
      modifies this
      ensures Abs() == Failed(Cfg(), old(Abs()), clientID, sourceIP, now)
    {
      var cs := Advance(byClientID, clientID, now);
      byClientID := byClientID[clientID := cs];
      var ss := Advance(bySourceIP, sourceIP, now);
      bySourceIP := bySourceIP[sourceIP := ss];
      if cs.failures >= threshold && !cs.alerted {
        byClientID := byClientID[clientID := cs.(alerted := true)];
        alerts := alerts + [Alert(clientID, cs.failures)];
      }
    }

    method RecordSuccess(clientID: string, sourceIP: string)
      modifies this
      ensures Abs() == Succeeded(old(Abs()), clientID, sourceIP)
    {
      byClientID := byClientID - {clientID};
      bySourceIP := bySourceIP - {sourceIP};
    }
  }
}
