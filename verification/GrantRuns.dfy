/**
 Whole runs of the failed-grant limiter, told from the history of events alone
 rather than from the limiter's tables.
 */
module GrantRuns {
  import opened Outcomes
  import opened Backoff
  import opened GrantLimiter

  // ------------------------------------------------------------ one key table

  /** What happened to one table; an Ask is any call to Allow. */
  datatype KeyEvent =
    | Fail(key: string, at: Time)
    | Clear(key: string)
    | Ask(at: Time)

  type Log = seq<KeyEvent>

  /** When the limiter last swept: at the first Ask, and then at each a minute or more after the last sweep. */
  function LastSweep(log: Log): Option<Time> {
    if log == [] then None
    else
      var before, e := LastSweep(log[..|log| - 1]), log[|log| - 1];
      if e.Ask? && (before.None? || e.at - before.value >= 60 * 1_000_000_000) then Some(e.at) else before
  }

  /** Whether the last event of the log is an Ask that sweeps. */
  predicate Sweeps(log: Log) {
    && log != []
    && var before, e := LastSweep(log[..|log| - 1]), log[|log| - 1];
       e.Ask? && (before.None? || e.at - before.value >= 60 * 1_000_000_000)
  }

  /**
   Failures of `key` since its last success, or since a sweep that came an hour or
   more after its block had ended.
   */
  function Streak(cfg: Config, log: Log, key: string): nat
    decreases |log|, 0
  {
    if log == [] then 0
    else
      var before, e := log[..|log| - 1], log[|log| - 1];
      if e == Clear(key) then 0
      else if Sweeps(log) && LongOver(BlockEnd(cfg, before, key), e.at) then 0
      else Streak(cfg, before, key) + if e.Fail? && e.key == key then 1 else 0
  }

  /** When the block of the last failure since `key`'s last success ends; sweeps play no part. */
  function BlockEnd(cfg: Config, log: Log, key: string): Option<Time>
    decreases |log|, 1
  {
    if log == [] then None
    else
      var before, e := log[..|log| - 1], log[|log| - 1];
      if e == Clear(key) then None
      else if e.Fail? && e.key == key then Some(e.at + Delay(cfg.base, cfg.max, Streak(cfg, before, key) + 1))
      else BlockEnd(cfg, before, key)
  }

  predicate LongOver(end: Option<Time>, now: Time) {
    end.Some? && now - end.value >= 60 * 60 * 1_000_000_000
  }

  predicate Precise(cfg: Config) {
    0 < cfg.base < TWO_63 && 0 < cfg.max < TWO_63 && forall j: nat | 1 <= j <= 62 :: !Gap(cfg.base, cfg.max, j)
  }

  lemma DeployedPrecise(cfg: Config)
    requires Deployed(cfg.base, cfg.max)
    ensures Precise(cfg)
  {
    forall n: nat | n >= 1
      ensures Delay(cfg.base, cfg.max, n) == Capped(cfg.base, cfg.max, n)
    {
      DeployedDelaysExact(cfg.base, cfg.max, n);
    }
    AllDelaysExact(cfg.base, cfg.max);
  }

  ghost predicate Tells(cfg: Config, m: Table, log: Log, key: string, clock: Time) {
    && Streak(cfg, log, key) == Failures(m, key)
    && (key in m ==>
          && m[key].failures >= 1
          && BlockEnd(cfg, log, key) == Some(m[key].blockedUntil)
          && m[key].blockedUntil - Delay(cfg.base, cfg.max, m[key].failures) <= clock)
    && (key !in m && BlockEnd(cfg, log, key).Some? ==> LongOver(BlockEnd(cfg, log, key), clock))
  }

  ghost predicate Represents(cfg: Config, m: Table, log: Log, clock: Time) {
    forall key :: Tells(cfg, m, log, key, clock)
  }

  lemma Extend(log: Log, e: KeyEvent)
    ensures (log + [e])[|log + [e]| - 1] == e && (log + [e])[..|log + [e]| - 1] == log
  {
  }

  lemma TellsLater(cfg: Config, m: Table, log: Log, clock: Time, now: Time)
    requires Represents(cfg, m, log, clock) && clock <= now
    ensures Represents(cfg, m, log, now)
  {
    forall key
      ensures Tells(cfg, m, log, key, now)
    {
      assert Tells(cfg, m, log, key, clock);
    }
  }

  lemma FailTells(cfg: Config, m: Table, log: Log, clock: Time, key: string, now: Time, alerted: bool)
    requires Represents(cfg, m, log, clock) && clock <= now
    ensures Represents(cfg, m[key := Advanced(cfg, m, key, now).(alerted := alerted)], log + [Fail(key, now)], now)
  {
    var m' := m[key := Advanced(cfg, m, key, now).(alerted := alerted)];
    Extend(log, Fail(key, now));
    forall k
      ensures Tells(cfg, m', log + [Fail(key, now)], k, now)
    {
      assert Tells(cfg, m, log, k, clock);
    }
  }

  lemma ClearTells(cfg: Config, m: Table, log: Log, clock: Time, key: string)
    requires Represents(cfg, m, log, clock)
    ensures Represents(cfg, m - {key}, log + [Clear(key)], clock)
  {
    Extend(log, Clear(key));
    forall k
      ensures Tells(cfg, m - {key}, log + [Clear(key)], k, clock)
    {
      assert Tells(cfg, m, log, k, clock);
    }
  }

  /** What an Ask leaves of a table: what its sweep, if it is due, keeps. */
  lemma AskTells(cfg: Config, m: Table, log: Log, now: Time)
    requires Represents(cfg, m, log, now)
    ensures Represents(cfg, if Sweeps(log + [Ask(now)]) then Dropped(m, now) else m, log + [Ask(now)], now)
  {
    var m' := if Sweeps(log + [Ask(now)]) then Dropped(m, now) else m;
    Extend(log, Ask(now));
    forall k
      ensures Tells(cfg, m', log + [Ask(now)], k, now)
    {
      assert Tells(cfg, m, log, k, now);
      assert BlockEnd(cfg, log + [Ask(now)], k) == BlockEnd(cfg, log, k);
    }
  }

  // ------------------------------------------------------------- the limiter

  datatype System = System(limiter: State, clientLog: Log, sourceLog: Log, clock: Time)

  datatype Event =
    | AllowEvent(now: Time)
    | FailEvent(client: string, source: string, now: Time)
    | SuccessEvent(client: string, source: string)

  function Start(clock: Time): System {
    System(State(map[], map[], None, []), [], [], clock)
  }

  predicate Timely(y: System, e: Event) {
    e.SuccessEvent? || y.clock <= e.now
  }

  function Next(cfg: Config, y: System, e: Event): System {
    match e
    case AllowEvent(now) =>
      System(Swept(y.limiter, now), y.clientLog + [Ask(now)], y.sourceLog + [Ask(now)], now)
    case FailEvent(client, source, now) =>
      System(Failed(cfg, y.limiter, client, source, now),
             y.clientLog + [Fail(client, now)], y.sourceLog + [Fail(source, now)], now)
    case SuccessEvent(client, source) =>
      System(Succeeded(y.limiter, client, source), y.clientLog + [Clear(client)], y.sourceLog + [Clear(source)],
             y.clock)
  }

  predicate Legal(cfg: Config, y: System, es: seq<Event>)
    decreases |es|
  {
    es == [] || (Timely(y, es[0]) && Legal(cfg, Next(cfg, y, es[0]), es[1..]))
  }

  function Run(cfg: Config, y: System, es: seq<Event>): System
    decreases |es|
  {
    if es == [] then y else Run(cfg, Next(cfg, y, es[0]), es[1..])
  }

  /** The count at which a failure streak alerts. */
  function AlertAt(cfg: Config): nat {
    if cfg.threshold <= 1 then 1 else cfg.threshold
  }

  /** One alert for each point of the log where a client's streak reaches the threshold. */
  function AlertsOf(cfg: Config, log: Log): seq<Alert> {
    if log == [] then []
    else
      var before := AlertsOf(cfg, log[..|log| - 1]);
      var e := log[|log| - 1];
      if e.Fail? && Streak(cfg, log, e.key) == AlertAt(cfg) then before + [Alert(e.key, AlertAt(cfg))] else before
  }

  ghost predicate AlertedAtThreshold(cfg: Config, m: Table) {
    forall key :: key in m ==> (m[key].alerted <==> m[key].failures >= AlertAt(cfg))
  }

  ghost predicate Inv(cfg: Config, y: System) {
    && Represents(cfg, y.limiter.byClient, y.clientLog, y.clock)
    && Represents(cfg, y.limiter.bySource, y.sourceLog, y.clock)
    && AlertedAtThreshold(cfg, y.limiter.byClient)
    && (forall key :: key in y.limiter.bySource ==> !y.limiter.bySource[key].alerted)
    && y.limiter.alerts == AlertsOf(cfg, y.clientLog)
    && y.limiter.lastSweep == LastSweep(y.clientLog) == LastSweep(y.sourceLog)
  }

  lemma AllowKeeps(cfg: Config, y: System, now: Time)
    requires Inv(cfg, y) && y.clock <= now
    ensures Inv(cfg, Next(cfg, y, AllowEvent(now)))
  {
    TellsLater(cfg, y.limiter.byClient, y.clientLog, y.clock, now);
    TellsLater(cfg, y.limiter.bySource, y.sourceLog, y.clock, now);
    AskTells(cfg, y.limiter.byClient, y.clientLog, now);
    AskTells(cfg, y.limiter.bySource, y.sourceLog, now);
    Extend(y.clientLog, Ask(now));
    Extend(y.sourceLog, Ask(now));
  }

  lemma FailKeeps(cfg: Config, y: System, client: string, source: string, now: Time)
    requires Inv(cfg, y) && y.clock <= now
    ensures Inv(cfg, Next(cfg, y, FailEvent(client, source, now)))
  {
    var c := Advanced(cfg, y.limiter.byClient, client, now);
    assert Tells(cfg, y.limiter.byClient, y.clientLog, client, y.clock);
    FailTells(cfg, y.limiter.byClient, y.clientLog, y.clock, client, now, c.alerted || AlertDue(cfg, c));
    FailTells(cfg, y.limiter.bySource, y.sourceLog, y.clock, source, now,
              Advanced(cfg, y.limiter.bySource, source, now).alerted);
    Extend(y.clientLog, Fail(client, now));
    Extend(y.sourceLog, Fail(source, now));
  }

  lemma SuccessKeeps(cfg: Config, y: System, client: string, source: string)
    requires Inv(cfg, y)
    ensures Inv(cfg, Next(cfg, y, SuccessEvent(client, source)))
  {
    ClearTells(cfg, y.limiter.byClient, y.clientLog, y.clock, client);
    ClearTells(cfg, y.limiter.bySource, y.sourceLog, y.clock, source);
    Extend(y.clientLog, Clear(client));
    Extend(y.sourceLog, Clear(source));
  }

  lemma {:induction false} RunKeeps(cfg: Config, y: System, es: seq<Event>)
    requires Inv(cfg, y) && Legal(cfg, y, es)
    ensures Inv(cfg, Run(cfg, y, es))
    decreases |es|
  {
    if es != [] {
      match es[0] {
        case AllowEvent(now) => AllowKeeps(cfg, y, now);
        case FailEvent(client, source, now) => FailKeeps(cfg, y, client, source, now);
        case SuccessEvent(client, source) => SuccessKeeps(cfg, y, client, source);
      }
      RunKeeps(cfg, Next(cfg, y, es[0]), es[1..]);
    }
  }

  predicate Pending(end: Option<Time>, now: Time) {
    end.Some? && now < end.value
  }

  /**
   After any run, a grant is refused exactly while the client or the source has a
   failure since its last success whose block has not ended; no sweep shows.
   */
  lemma AllowMeaning(cfg: Config, clock: Time, es: seq<Event>, client: string, source: string, now: Time)
    requires Legal(cfg, Start(clock), es) && Run(cfg, Start(clock), es).clock <= now
    ensures var y := Run(cfg, Start(clock), es);
            Allowed(Swept(y.limiter, now), client, source, now)
            <==> !Pending(BlockEnd(cfg, y.clientLog, client), now) && !Pending(BlockEnd(cfg, y.sourceLog, source), now)
  {
    var y := Run(cfg, Start(clock), es);
    assert Inv(cfg, Start(clock));
    RunKeeps(cfg, Start(clock), es);
    assert Tells(cfg, y.limiter.byClient, y.clientLog, client, y.clock);
    assert Tells(cfg, y.limiter.bySource, y.sourceLog, source, y.clock);
  }

  /** The keys with a streak. */
  ghost function LiveKeys(cfg: Config, log: Log): set<string> {
    set i | 0 <= i < |log| && log[i].Fail? && Streak(cfg, log, log[i].key) >= 1 :: log[i].key
  }

  lemma {:induction false} StreakHasFailure(cfg: Config, log: Log, key: string) returns (i: nat)
    requires Streak(cfg, log, key) >= 1
    ensures i < |log| && log[i].Fail? && log[i].key == key
  {
    var last := |log| - 1;
    if log[last].Fail? && log[last].key == key {
      i := last;
    } else {
      i := StreakHasFailure(cfg, log[..last], key);
    }
  }

  /** After any run each table holds exactly the keys with a streak. */
  lemma EntriesAreStreaks(cfg: Config, clock: Time, es: seq<Event>)
    requires Legal(cfg, Start(clock), es)
    ensures var y := Run(cfg, Start(clock), es);
            && y.limiter.byClient.Keys == LiveKeys(cfg, y.clientLog)
            && y.limiter.bySource.Keys == LiveKeys(cfg, y.sourceLog)
  {
    RunKeeps(cfg, Start(clock), es);
    var y := Run(cfg, Start(clock), es);
    RepresentsKeys(cfg, y.limiter.byClient, y.clientLog, y.clock);
    RepresentsKeys(cfg, y.limiter.bySource, y.sourceLog, y.clock);
  }

  lemma RepresentsKeys(cfg: Config, m: Table, log: Log, clock: Time)
    requires Represents(cfg, m, log, clock)
    ensures m.Keys == LiveKeys(cfg, log)
  {
    forall key
      ensures key in m <==> key in LiveKeys(cfg, log)
    {
      assert Tells(cfg, m, log, key, clock);
      if key in m {
        var i := StreakHasFailure(cfg, log, key);
        assert log[i].key == key;
      }
    }
  }

  /** The alerts raised are one per failure streak that reaches the threshold, in order. */
  lemma AlertMeaning(cfg: Config, clock: Time, es: seq<Event>)
    requires Legal(cfg, Start(clock), es)
    ensures var y := Run(cfg, Start(clock), es);
            y.limiter.alerts == AlertsOf(cfg, y.clientLog)
  {
    RunKeeps(cfg, Start(clock), es);
  }

  /**
   A block is what the key's last failure earned: under exact delays, doubling from
   base with the streak, never above max.
   */
  lemma {:induction false} BlockIsIntended(cfg: Config, log: Log, key: string) returns (i: nat)
    requires BlockEnd(cfg, log, key).Some?
    ensures i < |log| && log[i].Fail? && log[i].key == key
    ensures forall j :: i < j < |log| ==> log[j] != Clear(key) && !(log[j].Fail? && log[j].key == key)
    ensures Streak(cfg, log[..i + 1], key) >= 1
    ensures var n := Streak(cfg, log[..i + 1], key);
            && BlockEnd(cfg, log, key).value == log[i].at + Delay(cfg.base, cfg.max, n)
            && (Precise(cfg) ==> BlockEnd(cfg, log, key).value == log[i].at + Capped(cfg.base, cfg.max, n))
  {
    var last := |log| - 1;
    if log[last].Fail? && log[last].key == key {
      i := last;
      assert log[..i + 1] == log;
      if Precise(cfg) {
        AllDelaysExact(cfg.base, cfg.max);
      }
    } else {
      i := BlockIsIntended(cfg, log[..last], key);
      assert log[..last][..i + 1] == log[..i + 1];
    }
  }

  lemma {:induction false} CappedMonotone(cfg: Config, a: nat, b: nat)
    requires cfg.base > 0 && 1 <= a <= b
    ensures Capped(cfg.base, cfg.max, a) <= Capped(cfg.base, cfg.max, b)
    decreases b
  {
    if a < b {
      CappedMonotone(cfg, a, b - 1);
      CappedGrows(cfg.base, cfg.max, b - 1);
    }
  }

  /** Another failure never brings a block's end forward, even one the limiter had forgotten. */
  lemma BlockOnlyExtends(cfg: Config, clock: Time, es: seq<Event>, client: string, source: string, now: Time)
    requires Precise(cfg) && Legal(cfg, Start(clock), es)
    requires Run(cfg, Start(clock), es).clock <= now
    ensures var y := Run(cfg, Start(clock), es);
            var z := Next(cfg, y, FailEvent(client, source, now));
            && BlockEnd(cfg, z.clientLog, client).Some?
            && (BlockEnd(cfg, y.clientLog, client).Some? ==>
                  BlockEnd(cfg, y.clientLog, client).value <= BlockEnd(cfg, z.clientLog, client).value)
            && BlockEnd(cfg, z.sourceLog, source).Some?
            && (BlockEnd(cfg, y.sourceLog, source).Some? ==>
                  BlockEnd(cfg, y.sourceLog, source).value <= BlockEnd(cfg, z.sourceLog, source).value)
  {
    var y := Run(cfg, Start(clock), es);
    RunKeeps(cfg, Start(clock), es);
    Extends(cfg, y.limiter.byClient, y.clientLog, y.clock, client, now);
    Extends(cfg, y.limiter.bySource, y.sourceLog, y.clock, source, now);
  }

  lemma Extends(cfg: Config, m: Table, log: Log, clock: Time, key: string, now: Time)
    requires Precise(cfg) && Represents(cfg, m, log, clock) && clock <= now
    ensures BlockEnd(cfg, log + [Fail(key, now)], key).Some?
    ensures BlockEnd(cfg, log, key).Some? ==>
              BlockEnd(cfg, log, key).value <= BlockEnd(cfg, log + [Fail(key, now)], key).value
  {
    Extend(log, Fail(key, now));
    assert Tells(cfg, m, log, key, clock);
    AllDelaysExact(cfg.base, cfg.max);
    var n := Streak(cfg, log, key);
    if n >= 1 {
      CappedMonotone(cfg, n, n + 1);
    } else {
      assert Pow2(0) == 1;
    }
  }
}
