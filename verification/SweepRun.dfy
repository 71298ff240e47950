/**
 A whole retention sweep of internal/sweep/sweep.go: the three classes one after
 another, their metrics, the two writes each makes to the run table of
 internal/sweepstore, the pruning at the end, and what the table then answers.
 */
module SweepRun {
  import opened Collections
  import opened Outcomes
  import opened Timestamps
  import opened Retention
  import opened Sweep
  import ST = SweepStore

  /** The moment each class is swept up to, worked out once per run. */
  datatype Cutoffs = Cutoffs(direct: DateTime, idpCache: DateTime, orphan: DateTime)

  const ALL_CLASSES := [Direct, IdpCache, IdpCacheOrphan]

  predicate AllValid(c: Cutoffs) {
    Valid(c.direct) && Valid(c.idpCache) && Valid(c.orphan)
  }

  function CutoffFor(c: Cutoffs, cls: RetentionClass): Option<DateTime> {
    match cls
    case Direct => Some(c.direct)
    case IdpCache => Some(c.idpCache)
    case IdpCacheOrphan => Some(c.orphan)
    case Unknown(_) => None
  }

  datatype ClassResult = ClassResult(cls: RetentionClass, examined: nat, deleted: nat, drained: bool,
                                     error: Option<SweepError>)

  /** What a drained class publishes to a metric emitter. */
  datatype Metric = Metric(cls: RetentionClass, examined: nat, deleted: nat, oldest: Option<Retention.Time>)

  /** A metric only from a drained result, and only if someone listens. */
  function MetricOf(result: ClassResult, oldest: Option<Retention.Time>, emits: bool): Option<Metric> {
    if result.drained && emits then Some(Metric(result.cls, result.examined, result.deleted, oldest)) else None
  }

  // ------------------------------------------------------------ the run table

  /** What a class's two writes to the run table meet: the row's id, the schedule, the clock, and what is lost. */
  datatype Writes = Writes(id: Id, interval: int, finishedAt: DateTime, unread: bool, startLost: bool, finishLost: bool)

  function Books(store: ST.Store?): set<object> {
    if store == null then {} else {store}
  }

  /** The row of a run that has begun, and once it is finished. */
  function Begun(native: bool, cls: RetentionClass, now: DateTime, missed: nat): ST.Run {
    ST.StartedRun(cls, ST.KeptMoment(native, Instant(now)), missed)
  }

  function Finished(native: bool, run: ST.Run, e: Writes, result: ClassResult, oldest: Option<Retention.Time>): ST.Run {
    ST.FinishedRun(run, ST.KeptMoment(native, Instant(e.finishedAt)), result.examined, result.deleted, true,
                   ST.KeptMoments(native, oldest))
  }

  /** What the first write did to the table. */
  ghost predicate FirstWrite(before: ST.Table, after: ST.Table, cls: RetentionClass, now: DateTime, e: Writes,
                             begun: bool)
  {
    && ST.Sound(after) && after.Native? == before.Native?
    && (if !begun then after == before
        else
          && e.id !in ST.Runs(before)
          && exists missed: nat :: ST.Runs(after) == ST.Runs(before)[e.id := Begun(before.Native?, cls, now, missed)])
    && (Known(cls) && !e.unread && !e.startLost && e.id !in ST.Ids(before) ==> begun)
  }

  /** And the second, made by a drained class whose first went through. */
  ghost predicate SecondWrite(before: ST.Table, after: ST.Table, e: Writes, begun: bool, result: ClassResult,
                              oldest: Option<Retention.Time>)
  {
    && ST.Sound(after) && after.Native? == before.Native?
    && if begun && result.drained && !e.finishLost then
         && e.id in ST.Runs(before)
         && ST.Runs(after)
            == ST.Runs(before)[e.id := Finished(before.Native?, ST.Runs(before)[e.id], e, result, oldest)]
       else after == before
  }

  /** The row a class's sweep leaves. */
  function RowOf(native: bool, cls: RetentionClass, now: DateTime, e: Writes, missed: nat, result: ClassResult,
                 oldest: Option<Retention.Time>): ST.Run
  {
    var begun := Begun(native, cls, now, missed);
    if result.drained && !e.finishLost then Finished(native, begun, e, result, oldest) else begun
  }

  /** All a class's sweep does to the run table: nothing, or its own row. */
  ghost predicate Recorded(before: ST.Table, after: ST.Table, cls: RetentionClass, now: DateTime, e: Writes,
                           result: ClassResult, oldest: Option<Retention.Time>)
  {
    && after.Native? == before.Native?
    && (|| after == before
        || (&& e.id !in ST.Runs(before)
            && exists missed: nat ::
                 ST.Runs(after) == ST.Runs(before)[e.id := RowOf(before.Native?, cls, now, e, missed, result, oldest)]))
    && (Known(cls) && !e.unread && !e.startLost && e.id !in ST.Ids(before) ==> e.id in ST.Runs(after))
  }

  /** The two writes together. */
  lemma WritesRecorded(before: ST.Table, begun: bool, middle: ST.Table, after: ST.Table, cls: RetentionClass,
                       now: DateTime, e: Writes, result: ClassResult, oldest: Option<Retention.Time>)
    requires FirstWrite(before, middle, cls, now, e, begun) && SecondWrite(middle, after, e, begun, result, oldest)
    ensures Recorded(before, after, cls, now, e, result, oldest)
  {
    if begun {
      var native, first := before.Native?, ST.Runs(before);
      var missed: nat :| ST.Runs(middle) == first[e.id := Begun(native, cls, now, missed)];
      var row := Begun(native, cls, now, missed);
      TwoWrites(first, e.id, row, Finished(native, row, e, result, oldest));
      assert ST.Runs(after) == first[e.id := RowOf(native, cls, now, e, missed, result, oldest)];
    }
  }

  lemma TwoWrites(runs: map<Id, ST.Run>, id: Id, first: ST.Run, second: ST.Run)
    ensures runs[id := first][id] == first && runs[id := first][id := second] == runs[id := second]
  {
  }

  /** A failure is logged and the sweep goes on without a row. */
  method BeginRun(store: ST.Store, cls: RetentionClass, now: DateTime, e: Writes) returns (begun: bool)
    requires Valid(now) && ST.Sound(store.table)
    modifies store
    ensures FirstWrite(old(store.table), store.table, cls, now, e, begun)
  {
    ST.KeptIs(store.table.Native?, now);
    var r := store.StartRun(e.id, cls, now, e.interval, e.unread, e.startLost);
    begun := r.Ok?;
    if begun {
      assert ST.Runs(store.table) == ST.Runs(old(store.table))[e.id := Begun(store.table.Native?, cls, now, r.value)];
    }
  }

  /** The second write, whose failure too is only logged. */
  method FinishRow(store: ST.Store, e: Writes, result: ClassResult, oldest: Option<Retention.Time>)
    requires ST.Sound(store.table) && e.id in ST.Runs(store.table) && result.drained
    requires Valid(e.finishedAt) && (oldest.Some? ==> Dated(oldest.value))
    modifies store
    ensures SecondWrite(old(store.table), store.table, e, true, result, oldest)
  {
    var at: Option<DateTime> := None;
    if oldest.Some? {
      var t: DateTime :| Valid(t) && Instant(t) == oldest.value;
      at := Some(t);
      ST.KeptIs(store.table.Native?, t);
    }
    ST.KeptIs(store.table.Native?, e.finishedAt);
    var _ := store.FinishRun(e.id, e.finishedAt, result.examined, result.deleted, true, at, e.finishLost);
  }

  /** Only a drained class whose first write went through makes it. */
  method EndRun(store: ST.Store, cls: RetentionClass, now: DateTime, e: Writes, begun: bool, result: ClassResult,
                oldest: Option<Retention.Time>, ghost before: ST.Table, ghost middle: ST.Table)
    requires store.table == middle && FirstWrite(before, middle, cls, now, e, begun)
    requires Valid(e.finishedAt) && (result.drained && oldest.Some? ==> Dated(oldest.value))
    modifies store
    ensures ST.Sound(store.table) && Recorded(before, store.table, cls, now, e, result, oldest)
  {
    if begun && result.drained {
      FinishRow(store, e, result, oldest);
    }
    WritesRecorded(before, begun, middle, store.table, cls, now, e, result, oldest);
  }

  // --------------------------------------------------------------- one class

  /** What sweeping one class came to. */
  ghost predicate Swept(world: World, cls: RetentionClass, cutoffs: Cutoffs, maxRows: nat, start: State,
                        trace: seq<Turn>, result: ClassResult, now: State)
    requires AllValid(cutoffs)
  {
    && result.cls == cls && result.drained == result.error.None?
    && result.examined == Examined(trace, |trace|) && result.deleted == DeletedBy(trace, |trace|)
    && match CutoffFor(cutoffs, cls)
       case None => result.error == Some(NoCutoff) && trace == [] && now == start
       case Some(cutoff) =>
         && Traced(world, cls, cutoff, maxRows, start, trace) && Finishes(world, start, trace, result.error, now)
         && forall i :: 0 <= i < |trace| ==> DeletesTruly(trace[i], cls, cutoff)
  }

  /** The last batch reports the oldest row left. */
  lemma LastOldest(world: World, cls: RetentionClass, cutoff: DateTime, maxRows: nat, start: State, trace: seq<Turn>)
    requires Valid(cutoff) && Traced(world, cls, cutoff, maxRows, start, trace) && trace != []
    ensures OldestIs(Tables(LastOf(start, trace)), cls, trace[|trace| - 1].r.oldest)
  {
    var n := |trace| - 1;
    assert TracedAt(world, cls, cutoff, maxRows, start, trace, n);
  }

  /** The batches of one class, and what they came to. */
  method SweepClass(s: Sweeper, cls: RetentionClass, cutoffs: Cutoffs, maxRows: nat, world: World)
    returns (result: ClassResult, oldest: Option<Retention.Time>, ghost trace: seq<Turn>)
    requires Ready(StateOf(s)) && Truthful(world) && AllValid(cutoffs) && 1 <= maxRows <= MAX_BATCH && Known(cls)
    modifies Footprint(s)
    ensures Ready(StateOf(s)) && Swept(world, cls, cutoffs, maxRows, old(StateOf(s)), trace, result, StateOf(s))
    ensures result.drained ==> OldestIs(Tables(StateOf(s)), cls, oldest) && (oldest.Some? ==> Dated(oldest.value))
  {
    var cutoff := CutoffFor(cutoffs, cls).value;
    ghost var start := StateOf(s);
    var examined, deleted, error;
    examined, deleted, oldest, error, trace := Drain(s, cls, cutoff, maxRows, world);
    forall i | 0 <= i < |trace|
      ensures DeletesTruly(trace[i], cls, cutoff)
    {
      TraceIsTrue(world, cls, cutoff, maxRows, start, trace, i);
    }
    result := ClassResult(cls, examined, deleted, error.None?, error);
    if error.None? {
      LastOldest(world, cls, cutoff, maxRows, start, trace);
      if oldest.Some? {
        OldestDated(StateOf(s), cls, oldest.value);
      }
    }
  }

  /** A class's batches between its two writes to the run table. */
  method RecordClass(s: Sweeper, cls: RetentionClass, cutoffs: Cutoffs, maxRows: nat, world: World,
                     store: ST.Store, now: DateTime, e: Writes)
    returns (result: ClassResult, oldest: Option<Retention.Time>, ghost trace: seq<Turn>)
    requires Ready(StateOf(s)) && Truthful(world) && AllValid(cutoffs) && 1 <= maxRows <= MAX_BATCH && Known(cls)
    requires Valid(now) && Valid(e.finishedAt) && ST.Sound(store.table)
    modifies Footprint(s), store
    ensures Ready(StateOf(s)) && Swept(world, cls, cutoffs, maxRows, old(StateOf(s)), trace, result, StateOf(s))
    ensures result.drained ==> OldestIs(Tables(StateOf(s)), cls, oldest)
    ensures ST.Sound(store.table) && Recorded(old(store.table), store.table, cls, now, e, result, oldest)
  {
    ghost var before := store.table;
    var begun := BeginRun(store, cls, now, e);
    ghost var middle := store.table;
    result, oldest, trace := SweepClass(s, cls, cutoffs, maxRows, world);
    EndRun(store, cls, now, e, begun, result, oldest, before, middle);
  }

  /** Sweeps one class, publishes what a drained sweep may publish, and keeps its row of the run table, if any. */
  method RunClass(s: Sweeper, cls: RetentionClass, cutoffs: Cutoffs, maxRows: nat, world: World, emits: bool,
                  store: ST.Store?, now: DateTime, e: Writes)
    returns (result: ClassResult, metric: Option<Metric>, oldest: Option<Retention.Time>, ghost trace: seq<Turn>)
    requires Ready(StateOf(s)) && Truthful(world) && AllValid(cutoffs) && 1 <= maxRows <= MAX_BATCH
    requires Valid(now) && Valid(e.finishedAt) && (store != null ==> ST.Sound(store.table))
    modifies Footprint(s), Books(store)
    ensures Ready(StateOf(s)) && Swept(world, cls, cutoffs, maxRows, old(StateOf(s)), trace, result, StateOf(s))
    ensures result.drained ==> OldestIs(Tables(StateOf(s)), cls, oldest)
    ensures metric == MetricOf(result, oldest, emits)
    ensures store != null ==>
              ST.Sound(store.table) && Recorded(old(store.table), store.table, cls, now, e, result, oldest)
  {
    result, metric, oldest, trace := ClassResult(cls, 0, 0, false, None), None, None, [];
    if CutoffFor(cutoffs, cls).None? {
      result := result.(error := Some(NoCutoff));
      return;
    }
    if store == null {
      result, oldest, trace := SweepClass(s, cls, cutoffs, maxRows, world);
    } else {
      result, oldest, trace := RecordClass(s, cls, cutoffs, maxRows, world, store, now, e);
    }
    metric := MetricOf(result, oldest, emits);
  }

  // ---------------------------------------------------------------- full run

  /** The moment a backend compares with: microseconds on Postgres, whole seconds on SQLite. */
  predicate Passed(st: State, moment: Retention.Time, cutoff: DateTime) {
    moment < if st.Rows? then Instant(cutoff) / 1000 * 1000 else Instant(cutoff) - cutoff.nano
  }

  /**
   A profile past its time: last updated before its class's cutoff, or, if cached with no
   credential left that names it, created before the orphans'.
   */
  predicate PastCutoff(st: State, db: Db, cutoffs: Cutoffs, id: Id)
    requires id in db.profiles
  {
    var row := db.profiles[id];
    if row.source == FromDirect then Passed(st, row.updated, cutoffs.direct)
    else if exists c :: c in db.credentials && db.credentials[c] == id then Passed(st, row.updated, cutoffs.idpCache)
    else Passed(st, row.created, cutoffs.orphan)
  }

  lemma AppliedPasses(st: State, moment: Retention.Time, cutoff: DateTime)
    ensures moment < Applied(st, cutoff) <==> Passed(st, moment, cutoff)
  {
  }

  /** A credential stays exactly if the profile it names was not removed. */
  ghost predicate CredentialsFollow(before: Db, after: Db) {
    && (forall c :: c in after.credentials <==>
          && c in before.credentials
          && (before.credentials[c] in before.profiles ==> before.credentials[c] in after.profiles))
    && (forall c :: c in after.credentials ==> after.credentials[c] == before.credentials[c])
  }

  /** Everything an error-free run promises about the tables before and after it. */
  ghost predicate SweptClean(st: State, before: Db, cutoffs: Cutoffs, after: Db, results: seq<ClassResult>) {
    && (forall id :: id in after.profiles <==> id in before.profiles && !PastCutoff(st, before, cutoffs, id))
    && (forall id :: id in after.profiles ==> after.profiles[id] == before.profiles[id])
    && CredentialsFollow(before, after)
    && before.log <= after.log
    && var entries := after.log[|before.log|..];
       && (forall id :: id in before.profiles && PastCutoff(st, before, cutoffs, id) ==>
             LogRow(id, ClassOf(before, id)) in entries)
       && (forall e :: e in entries ==>
             e.profile in before.profiles && PastCutoff(st, before, cutoffs, e.profile)
               && e.cls == ClassOf(before, e.profile))
       && (forall i, j :: 0 <= i < j < |entries| ==> entries[i].profile != entries[j].profile)
       && |entries| == |before.profiles| - |after.profiles|
       && |results| == 3
       && results[0].deleted + results[1].deleted + results[2].deleted == |entries|
  }

  /** The three classes swept one after another over the starting tables' expired rows. */
  ghost predicate ThreeSweeps(st: State, before: Db, cutoffs: Cutoffs, a: seq<Id>, b: seq<Id>, c: seq<Id>) {
    && Distinct(a) && Members(a) == Expired(before, Direct, Applied(st, cutoffs.direct))
    && Distinct(b) && Members(b) == Expired(before, IdpCache, Applied(st, cutoffs.idpCache))
    && Distinct(c) && Members(c) == Expired(before, IdpCacheOrphan, Applied(st, cutoffs.orphan))
  }

  function AllDeleted(before: Db, a: seq<Id>, b: seq<Id>, c: seq<Id>): Db {
    Deleted(Deleted(Deleted(before, Direct, a), IdpCache, b), IdpCacheOrphan, c)
  }

  /** A profile is expired in a known class exactly when that is its own class and it is past its cutoff. */
  lemma ExpiredIsPastCutoff(st: State, before: Db, cutoffs: Cutoffs, cls: RetentionClass, id: Id)
    requires Known(cls)
    ensures id in Expired(before, cls, Applied(st, CutoffFor(cutoffs, cls).value))
       <==> id in before.profiles && PastCutoff(st, before, cutoffs, id) && ClassOf(before, id) == cls
  {
    if id in before.profiles {
      var cutoff := CutoffFor(cutoffs, cls).value;
      ExpiredMeans(before, cls, Applied(st, cutoff), id);
      AppliedPasses(st, before.profiles[id].updated, cutoff);
      AppliedPasses(st, before.profiles[id].created, cutoff);
      if c :| c in before.credentials && before.credentials[c] == id {
        assert id in before.credentials.Values;
      }
    }
  }

  lemma MembersArePastCutoff(st: State, before: Db, cutoffs: Cutoffs, a: seq<Id>, b: seq<Id>, c: seq<Id>, id: Id)
    requires ThreeSweeps(st, before, cutoffs, a, b, c)
    ensures id in Members(a) <==>
              id in before.profiles && PastCutoff(st, before, cutoffs, id) && ClassOf(before, id) == Direct
    ensures id in Members(b) <==>
              id in before.profiles && PastCutoff(st, before, cutoffs, id) && ClassOf(before, id) == IdpCache
    ensures id in Members(c) <==>
              id in before.profiles && PastCutoff(st, before, cutoffs, id) && ClassOf(before, id) == IdpCacheOrphan
  {
    ExpiredIsPastCutoff(st, before, cutoffs, Direct, id);
    ExpiredIsPastCutoff(st, before, cutoffs, IdpCache, id);
    ExpiredIsPastCutoff(st, before, cutoffs, IdpCacheOrphan, id);
  }

  /** The classes swept as far as each got. */
  ghost predicate PartSweeps(st: State, before: Db, cutoffs: Cutoffs, a: seq<Id>, b: seq<Id>, c: seq<Id>) {
    && Members(a) <= Expired(before, Direct, Applied(st, cutoffs.direct))
    && Members(b) <= Expired(before, IdpCache, Applied(st, cutoffs.idpCache))
    && Members(c) <= Expired(before, IdpCacheOrphan, Applied(st, cutoffs.orphan))
  }

  /** Even a sweep cut short spares every profile that is not past its own class's cutoff. */
  ghost predicate Spares(st: State, before: Db, cutoffs: Cutoffs, after: Db) {
    && after.profiles.Keys <= before.profiles.Keys
    && (forall id :: id in after.profiles ==> after.profiles[id] == before.profiles[id])
    && (forall id :: id in before.profiles && !PastCutoff(st, before, cutoffs, id) ==> id in after.profiles)
  }

  lemma PartSweepSpares(st: State, before: Db, cutoffs: Cutoffs, a: seq<Id>, b: seq<Id>, c: seq<Id>)
    requires PartSweeps(st, before, cutoffs, a, b, c)
    ensures Spares(st, before, cutoffs, AllDeleted(before, a, b, c))
  {
    forall id | id in before.profiles && !PastCutoff(st, before, cutoffs, id)
      ensures id !in Members(a) && id !in Members(b) && id !in Members(c)
    {
      ExpiredIsPastCutoff(st, before, cutoffs, Direct, id);
      ExpiredIsPastCutoff(st, before, cutoffs, IdpCache, id);
      ExpiredIsPastCutoff(st, before, cutoffs, IdpCacheOrphan, id);
    }
    AllDeletedKeys(before, a, b, c);
  }

  lemma FullSweepProfiles(st: State, before: Db, cutoffs: Cutoffs, a: seq<Id>, b: seq<Id>, c: seq<Id>)
    requires ThreeSweeps(st, before, cutoffs, a, b, c)
    ensures var after := AllDeleted(before, a, b, c);
            && (forall id :: id in after.profiles <==> id in before.profiles && !PastCutoff(st, before, cutoffs, id))
            && (forall id :: id in after.profiles ==> after.profiles[id] == before.profiles[id])
  {
    forall id
      ensures id in AllDeleted(before, a, b, c).profiles
              <==> id in before.profiles && !PastCutoff(st, before, cutoffs, id)
    {
      MembersArePastCutoff(st, before, cutoffs, a, b, c, id);
    }
  }

  lemma DisjointUnionSize(whole: set<Id>, a: set<Id>, b: set<Id>, c: set<Id>)
    requires a <= whole && b <= whole && c <= whole && a !! b && a + b !! c
    ensures |whole - (a + b + c)| == |whole| - |a| - |b| - |c|
  {
    assert a + b + c <= whole;
    assert |a + b + c| == |a + b| + |c|;
    assert |whole| == |whole - (a + b + c)| + |a + b + c|;
  }

  lemma AllDeletedKeys(before: Db, a: seq<Id>, b: seq<Id>, c: seq<Id>)
    ensures AllDeleted(before, a, b, c).profiles.Keys == before.profiles.Keys - (Members(a) + Members(b) + Members(c))
  {
  }

  lemma KeysSize<K, V>(m: map<K, V>)
    ensures |m| == |m.Keys|
  {
  }

  lemma OrdersInTable(st: State, before: Db, cutoffs: Cutoffs, a: seq<Id>, b: seq<Id>, c: seq<Id>)
    requires ThreeSweeps(st, before, cutoffs, a, b, c)
    ensures Members(a) <= before.profiles.Keys && Members(b) <= before.profiles.Keys
            && Members(c) <= before.profiles.Keys
  {
  }

  lemma FullSweepCount(st: State, before: Db, cutoffs: Cutoffs, a: seq<Id>, b: seq<Id>, c: seq<Id>)
    requires ThreeSweeps(st, before, cutoffs, a, b, c)
    ensures |before.profiles| - |AllDeleted(before, a, b, c).profiles| == |a| + |b| + |c|
  {
    OrdersDisjoint(st, before, cutoffs, a, b, c);
    OrdersInTable(st, before, cutoffs, a, b, c);
    DistinctSize(a);
    DistinctSize(b);
    DistinctSize(c);
    DisjointUnionSize(before.profiles.Keys, Members(a), Members(b), Members(c));
    AllDeletedKeys(before, a, b, c);
    KeysSize(AllDeleted(before, a, b, c).profiles);
    KeysSize(before.profiles);
  }

  lemma OrdersDisjoint(st: State, before: Db, cutoffs: Cutoffs, a: seq<Id>, b: seq<Id>, c: seq<Id>)
    requires ThreeSweeps(st, before, cutoffs, a, b, c)
    ensures Members(a) !! Members(b) && Members(a) + Members(b) !! Members(c)
  {
    forall id
      ensures !(id in Members(a) && id in Members(b)) && !((id in Members(a) || id in Members(b)) && id in Members(c))
    {
      MembersArePastCutoff(st, before, cutoffs, a, b, c, id);
    }
  }

  function Entries(a: seq<Id>, b: seq<Id>, c: seq<Id>): seq<LogRow> {
    LogOf(Direct, a) + LogOf(IdpCache, b) + LogOf(IdpCacheOrphan, c)
  }

  lemma FullSweepLog(before: Db, a: seq<Id>, b: seq<Id>, c: seq<Id>)
    ensures var after := AllDeleted(before, a, b, c);
            before.log <= after.log && after.log[|before.log|..] == Entries(a, b, c)
  {
  }

  lemma FullSweepCredentials(st: State, before: Db, cutoffs: Cutoffs, a: seq<Id>, b: seq<Id>, c: seq<Id>)
    requires ThreeSweeps(st, before, cutoffs, a, b, c)
    ensures CredentialsFollow(before, AllDeleted(before, a, b, c))
  {
    OrdersInTable(st, before, cutoffs, a, b, c);
    AllDeletedKeys(before, a, b, c);
  }

  lemma FullSweepEntries(st: State, before: Db, cutoffs: Cutoffs, a: seq<Id>, b: seq<Id>, c: seq<Id>)
    requires ThreeSweeps(st, before, cutoffs, a, b, c)
    ensures forall id :: id in before.profiles && PastCutoff(st, before, cutoffs, id) ==>
              LogRow(id, ClassOf(before, id)) in Entries(a, b, c)
    ensures forall e :: e in Entries(a, b, c) ==>
              e.profile in before.profiles && PastCutoff(st, before, cutoffs, e.profile)
                && e.cls == ClassOf(before, e.profile)
  {
    forall id | id in before.profiles && PastCutoff(st, before, cutoffs, id)
      ensures LogRow(id, ClassOf(before, id)) in Entries(a, b, c)
    {
      MembersArePastCutoff(st, before, cutoffs, a, b, c, id);
      match ClassOf(before, id) {
        case Direct => EntryFor(Direct, a, id);
        case IdpCache => EntryFor(IdpCache, b, id);
        case IdpCacheOrphan => EntryFor(IdpCacheOrphan, c, id);
      }
    }
    forall e | e in Entries(a, b, c)
      ensures e.profile in before.profiles && PastCutoff(st, before, cutoffs, e.profile)
              && e.cls == ClassOf(before, e.profile)
    {
      if e in LogOf(Direct, a) {
        EntryIs(Direct, a, e);
      } else if e in LogOf(IdpCache, b) {
        EntryIs(IdpCache, b, e);
      } else {
        EntryIs(IdpCacheOrphan, c, e);
      }
      MembersArePastCutoff(st, before, cutoffs, a, b, c, e.profile);
    }
  }

  lemma EntriesDistinct(st: State, before: Db, cutoffs: Cutoffs, a: seq<Id>, b: seq<Id>, c: seq<Id>)
    requires ThreeSweeps(st, before, cutoffs, a, b, c)
    ensures forall i, j :: 0 <= i < j < |Entries(a, b, c)| ==>
            Entries(a, b, c)[i].profile != Entries(a, b, c)[j].profile
  {
    OrdersDisjoint(st, before, cutoffs, a, b, c);
    DistinctConcat(a, b);
    MembersConcat(a, b);
    DistinctConcat(a + b, c);
    assert forall i :: 0 <= i < |a + b + c| ==> Entries(a, b, c)[i].profile == (a + b + c)[i];
  }

  lemma FullSweep(st: State, before: Db, cutoffs: Cutoffs, a: seq<Id>, b: seq<Id>, c: seq<Id>,
                  results: seq<ClassResult>)
    requires ThreeSweeps(st, before, cutoffs, a, b, c) && |results| == 3
    requires results[0].deleted == |a| && results[1].deleted == |b| && results[2].deleted == |c|
    ensures SweptClean(st, before, cutoffs, AllDeleted(before, a, b, c), results)
  {
    FullSweepProfiles(st, before, cutoffs, a, b, c);
    FullSweepCount(st, before, cutoffs, a, b, c);
    FullSweepCredentials(st, before, cutoffs, a, b, c);
    FullSweepLog(before, a, b, c);
    FullSweepEntries(st, before, cutoffs, a, b, c);
    EntriesDistinct(st, before, cutoffs, a, b, c);
  }

  function From(start: State, ends: seq<State>, k: nat): State
    requires k <= |ends|
  {
    if k == 0 then start else ends[k - 1]
  }

  ghost predicate SweptAt(worlds: RetentionClass -> World, cutoffs: Cutoffs, maxRows: nat, start: State,
                          traces: seq<seq<Turn>>, results: seq<ClassResult>, ends: seq<State>, k: nat)
    requires AllValid(cutoffs) && k < |traces| == |results| == |ends| <= |ALL_CLASSES|
  {
    var cls := ALL_CLASSES[k];
    Swept(worlds(cls), cls, cutoffs, maxRows, From(start, ends, k), traces[k], results[k], ends[k])
  }

  /** The classes swept one after another, each from where the one before left off. */
  ghost predicate AllSwept(worlds: RetentionClass -> World, cutoffs: Cutoffs, maxRows: nat, start: State,
                           traces: seq<seq<Turn>>, results: seq<ClassResult>, ends: seq<State>)
    requires AllValid(cutoffs)
  {
    && |traces| == |results| == |ends| <= |ALL_CLASSES|
    && forall k :: 0 <= k < |ends| ==> SweptAt(worlds, cutoffs, maxRows, start, traces, results, ends, k)
  }

  /**
   With no one else about, an error-free sweep leaves exactly the profiles that are not
   past their own class's cutoff, unchanged; every profile it removed has exactly one
   log row, under its own class; the deletions it reports add up to the rows it removed;
   and each class took the fewest batches it could tell it was done by.  Whatever goes
   wrong, no profile goes before its time.
   */
  ghost predicate RunsQuietly(cutoffs: Cutoffs, maxRows: nat, start: State, traces: seq<seq<Turn>>,
                              results: seq<ClassResult>, now: State)
    requires |traces| == |results| == 3 && maxRows > 0
  {
    && Spares(start, Tables(start), cutoffs, Tables(now))
    && (forall k :: 0 <= k < 3 ==> results[k].examined == results[k].deleted)
    && (forall k :: 0 <= k < 3 && results[k].drained ==> |traces[k]| == results[k].deleted / maxRows + 1)
    && ((forall k :: 0 <= k < 3 ==> results[k].drained) ==>
          SweptClean(start, Tables(start), cutoffs, Tables(now), results))
  }

  lemma AllSweptMore(worlds: RetentionClass -> World, cutoffs: Cutoffs, maxRows: nat, start: State,
                     traces: seq<seq<Turn>>, results: seq<ClassResult>, ends: seq<State>,
                     trace: seq<Turn>, result: ClassResult, now: State)
    requires AllValid(cutoffs) && AllSwept(worlds, cutoffs, maxRows, start, traces, results, ends)
    requires |ends| < |ALL_CLASSES|
    requires var cls := ALL_CLASSES[|ends|];
             Swept(worlds(cls), cls, cutoffs, maxRows, From(start, ends, |ends|), trace, result, now)
    ensures AllSwept(worlds, cutoffs, maxRows, start, traces + [trace], results + [result], ends + [now])
  {
    var moreTraces, moreResults, moreEnds := traces + [trace], results + [result], ends + [now];
    forall k | 0 <= k < |moreEnds|
      ensures SweptAt(worlds, cutoffs, maxRows, start, moreTraces, moreResults, moreEnds, k)
    {
      assert From(start, moreEnds, k) == From(start, ends, k);
      if k < |ends| {
        assert SweptAt(worlds, cutoffs, maxRows, start, traces, results, ends, k);
      }
    }
  }

  lemma CalmDrains(worlds: RetentionClass -> World, cutoffs: Cutoffs, maxRows: nat, start: State,
                   traces: seq<seq<Turn>>, results: seq<ClassResult>, ends: seq<State>, k: nat)
    requires AllValid(cutoffs) && AllSwept(worlds, cutoffs, maxRows, start, traces, results, ends) && k < |ends|
    requires forall i :: worlds(ALL_CLASSES[k]).trouble(i) == Calm
    ensures results[k].drained
  {
    assert SweptAt(worlds, cutoffs, maxRows, start, traces, results, ends, k);
  }

  function OrdersOf(trace: seq<Turn>): seq<Id> {
    Orders(trace, |trace|)
  }

  lemma QuietClass(worlds: RetentionClass -> World, cutoffs: Cutoffs, maxRows: nat, start: State,
                   traces: seq<seq<Turn>>, results: seq<ClassResult>, ends: seq<State>, k: nat, cls: RetentionClass)
    requires AllValid(cutoffs) && maxRows > 0 && AllSwept(worlds, cutoffs, maxRows, start, traces, results, ends)
    requires k < |ends| && cls == ALL_CLASSES[k] && worlds(cls).busy == 0
    requires Ready(From(start, ends, k)) && From(start, ends, k).Rows? == start.Rows?
    ensures Known(cls)
    ensures SweptQuietly(cls, Applied(start, CutoffFor(cutoffs, cls).value), maxRows, Tables(From(start, ends, k)),
                         Tables(ends[k]), OrdersOf(traces[k]), |traces[k]|, results[k].drained)
    ensures Ready(ends[k]) && ends[k].Rows? == start.Rows?
    ensures results[k].examined == results[k].deleted == |OrdersOf(traces[k])|
    ensures results[k].drained ==> |traces[k]| == results[k].deleted / maxRows + 1
  {
    var from := From(start, ends, k);
    assert SweptAt(worlds, cutoffs, maxRows, start, traces, results, ends, k);
    QuietSweep(worlds(cls), cls, CutoffFor(cutoffs, cls).value, maxRows, from, traces[k], results[k].error, ends[k]);
  }

  /** Sweeping one class leaves the others' rows alone, so all three are swept as of the start. */
  lemma QuietTables(st: State, cutoffs: Cutoffs, maxRows: nat, t0: Db, t1: Db, t2: Db, t3: Db,
                    a: seq<Id>, b: seq<Id>, c: seq<Id>, na: nat, nb: nat, nc: nat, da: bool, db: bool, dc: bool)
    requires maxRows > 0
    requires SweptQuietly(Direct, Applied(st, cutoffs.direct), maxRows, t0, t1, a, na, da)
    requires SweptQuietly(IdpCache, Applied(st, cutoffs.idpCache), maxRows, t1, t2, b, nb, db)
    requires SweptQuietly(IdpCacheOrphan, Applied(st, cutoffs.orphan), maxRows, t2, t3, c, nc, dc)
    ensures t3 == AllDeleted(t0, a, b, c) && PartSweeps(st, t0, cutoffs, a, b, c)
    ensures da && db && dc ==> ThreeSweeps(st, t0, cutoffs, a, b, c)
  {
    OtherClassUntouched(t0, Direct, Applied(st, cutoffs.direct), a, IdpCache, Applied(st, cutoffs.idpCache));
    OtherClassUntouched(t0, Direct, Applied(st, cutoffs.direct), a, IdpCacheOrphan, Applied(st, cutoffs.orphan));
    OtherClassUntouched(t1, IdpCache, Applied(st, cutoffs.idpCache), b, IdpCacheOrphan, Applied(st, cutoffs.orphan));
  }

  lemma QuietOrders(worlds: RetentionClass -> World, cutoffs: Cutoffs, maxRows: nat, start: State,
                    traces: seq<seq<Turn>>, results: seq<ClassResult>, ends: seq<State>)
    requires AllValid(cutoffs) && maxRows > 0 && Ready(start)
    requires AllSwept(worlds, cutoffs, maxRows, start, traces, results, ends) && |ends| == 3
    requires forall cls :: worlds(cls).busy == 0
    ensures var a, b, c := OrdersOf(traces[0]), OrdersOf(traces[1]), OrdersOf(traces[2]);
            && Tables(ends[2]) == AllDeleted(Tables(start), a, b, c)
            && PartSweeps(start, Tables(start), cutoffs, a, b, c)
            && (results[0].drained && results[1].drained && results[2].drained ==>
                  ThreeSweeps(start, Tables(start), cutoffs, a, b, c))
    ensures forall k :: 0 <= k < 3 ==> results[k].examined == results[k].deleted == |OrdersOf(traces[k])|
    ensures forall k :: 0 <= k < 3 && results[k].drained ==> |traces[k]| == results[k].deleted / maxRows + 1
  {
    QuietClass(worlds, cutoffs, maxRows, start, traces, results, ends, 0, Direct);
    QuietClass(worlds, cutoffs, maxRows, start, traces, results, ends, 1, IdpCache);
    QuietClass(worlds, cutoffs, maxRows, start, traces, results, ends, 2, IdpCacheOrphan);
    QuietTables(start, cutoffs, maxRows, Tables(start), Tables(ends[0]), Tables(ends[1]), Tables(ends[2]),
                OrdersOf(traces[0]), OrdersOf(traces[1]), OrdersOf(traces[2]), |traces[0]|, |traces[1]|, |traces[2]|,
                results[0].drained, results[1].drained, results[2].drained);
  }

  lemma QuietRun(worlds: RetentionClass -> World, cutoffs: Cutoffs, maxRows: nat, start: State,
                 traces: seq<seq<Turn>>, results: seq<ClassResult>, ends: seq<State>)
    requires AllValid(cutoffs) && maxRows > 0 && Ready(start)
    requires AllSwept(worlds, cutoffs, maxRows, start, traces, results, ends) && |ends| == 3
    requires forall cls :: worlds(cls).busy == 0
    ensures RunsQuietly(cutoffs, maxRows, start, traces, results, ends[2])
  {
    var a, b, c := OrdersOf(traces[0]), OrdersOf(traces[1]), OrdersOf(traces[2]);
    QuietOrders(worlds, cutoffs, maxRows, start, traces, results, ends);
    PartSweepSpares(start, Tables(start), cutoffs, a, b, c);
    if results[0].drained && results[1].drained && results[2].drained {
      FullSweep(start, Tables(start), cutoffs, a, b, c, results);
    }
  }

  // -------------------------------------------------------- the table after it

  /** A class swept into the run table under a fresh id, with neither write lost. */
  predicate Kept(e: Writes, taken: set<Id>) {
    !e.unread && !e.startLost && !e.finishLost && e.id !in taken
  }

  /** No run of the class in the table started at or after this one. */
  predicate StartsNewest(runs: map<Id, ST.Run>, cls: RetentionClass, at: int) {
    forall id :: id in runs && runs[id].cls == cls ==> runs[id].started < at
  }

  /** The class's newest run is the one just swept, with its result. */
  ghost predicate InBooks(runs: map<Id, ST.Run>, native: bool, cls: RetentionClass, now: DateTime, e: Writes,
                          result: ClassResult, oldest: Option<Retention.Time>)
  {
    && ST.Newest(runs, e.id) && runs[e.id].cls == cls
    && exists missed: nat :: runs[e.id] == Finished(native, Begun(native, cls, now, missed), e, result, oldest)
  }

  /** What the run table then answers for the class is exactly what its sweep came to. */
  ghost predicate Shows(runs: map<Id, ST.Run>, native: bool, cls: RetentionClass, e: Writes, result: ClassResult,
                        oldest: Option<Retention.Time>)
  {
    && ST.HasRun(runs, cls)
    && forall snap :: ST.Describes(runs, cls, snap) ==>
         && snap.examined == result.examined && snap.deleted == result.deleted
         && snap.lastFinished == Some(if native then Instant(e.finishedAt) / 1000 * 1000 else Instant(e.finishedAt))
         && (snap.oldest.Some? <==> oldest.Some?)
         && (oldest.Some? ==> snap.oldest.value == if native then oldest.value / 1000 * 1000 else oldest.value)
  }

  lemma InBooksShows(runs: map<Id, ST.Run>, native: bool, cls: RetentionClass, now: DateTime, e: Writes,
                     result: ClassResult, oldest: Option<Retention.Time>)
    requires InBooks(runs, native, cls, now, e, result, oldest)
    ensures Shows(runs, native, cls, e, result, oldest)
  {
    forall snap | ST.Describes(runs, cls, snap)
      ensures ST.FromLatest(snap, runs[e.id]) && snap.oldest == runs[e.id].oldest
    {
      ST.NewestDrainedShows(runs, e.id, snap);
    }
  }

  /** A class just recorded is in the books. */
  lemma RecordedInBooks(before: ST.Table, after: ST.Table, cls: RetentionClass, now: DateTime, e: Writes,
                        result: ClassResult, oldest: Option<Retention.Time>)
    requires Recorded(before, after, cls, now, e, result, oldest) && Known(cls)
    requires Kept(e, ST.Ids(before)) && result.drained
    requires StartsNewest(ST.Runs(before), cls, ST.KeptMoment(before.Native?, Instant(now)))
    ensures InBooks(ST.Runs(after), after.Native?, cls, now, e, result, oldest)
  {
    var missed: nat :| ST.Runs(after)
                       == ST.Runs(before)[e.id := RowOf(before.Native?, cls, now, e, missed, result, oldest)];
  }

  /** Another class's row leaves it there. */
  lemma InBooksStays(before: ST.Table, after: ST.Table, cls: RetentionClass, now: DateTime, e: Writes,
                     result: ClassResult, oldest: Option<Retention.Time>,
                     other: RetentionClass, e': Writes, result': ClassResult, oldest': Option<Retention.Time>)
    requires Recorded(before, after, other, now, e', result', oldest') && other != cls
    requires InBooks(ST.Runs(before), before.Native?, cls, now, e, result, oldest)
    ensures InBooks(ST.Runs(after), after.Native?, cls, now, e, result, oldest)
  {
    if after != before {
      var missed: nat :| ST.Runs(after)
                         == ST.Runs(before)[e'.id := RowOf(before.Native?, other, now, e', missed, result', oldest')];
      ST.NewestStays(ST.Runs(before), e.id, e'.id, RowOf(before.Native?, other, now, e', missed, result', oldest'));
    }
  }

  /** And so does pruning, long before the run started. */
  lemma InBooksNotPruned(runs: map<Id, ST.Run>, native: bool, cutoff: Retention.Time, cls: RetentionClass,
                         now: DateTime, e: Writes, result: ClassResult, oldest: Option<Retention.Time>)
    requires InBooks(runs, native, cls, now, e, result, oldest) && cutoff <= Instant(now)
    ensures InBooks(ST.Recent(runs, ST.KeptMoment(native, cutoff)), native, cls, now, e, result, oldest)
  {
    ST.NewestNotPruned(runs, e.id, ST.KeptMoment(native, cutoff));
  }

  /** What the k-th class's sweep is to find in the run table for its own row to be its class's newest. */
  ghost predicate Due(before: ST.Table, now: DateTime, entries: RetentionClass -> Writes, results: seq<ClassResult>,
                      k: nat)
    requires k < |results| && k < |ALL_CLASSES|
  {
    var cls := ALL_CLASSES[k];
    && results[k].drained
    && Kept(entries(cls), ST.Ids(before) + set j | 0 <= j < k :: entries(ALL_CLASSES[j]).id)
    && StartsNewest(ST.Runs(before), cls, ST.KeptMoment(before.Native?, Instant(now)))
  }

  /** No write of a sweep touches a row that was there before it. */
  ghost predicate RowsStay(before: ST.Table, table: ST.Table) {
    forall id :: id in ST.Runs(before) ==> id in ST.Runs(table) && ST.Runs(table)[id] == ST.Runs(before)[id]
  }

  lemma RowsStayMore(before: ST.Table, table: ST.Table, after: ST.Table, cls: RetentionClass, now: DateTime, e: Writes,
                     result: ClassResult, oldest: Option<Retention.Time>)
    requires RowsStay(before, table) && Recorded(table, after, cls, now, e, result, oldest)
    ensures RowsStay(before, after)
  {
  }

  /** Every row of the table was there before, or is one of the swept classes' own. */
  ghost predicate OnlyOwnRows(before: ST.Table, table: ST.Table, entries: RetentionClass -> Writes, k: nat)
    requires k <= |ALL_CLASSES|
  {
    forall id :: id in ST.Runs(table) ==>
      || (id in ST.Runs(before) && ST.Runs(table)[id] == ST.Runs(before)[id])
      || exists j :: 0 <= j < k && entries(ALL_CLASSES[j]).id == id && ST.Runs(table)[id].cls == ALL_CLASSES[j]
  }

  lemma OnlyOwnRowsMore(before: ST.Table, table: ST.Table, after: ST.Table, now: DateTime,
                        entries: RetentionClass -> Writes, k: nat, result: ClassResult, oldest: Option<Retention.Time>)
    requires k < |ALL_CLASSES| && OnlyOwnRows(before, table, entries, k)
    requires var cls := ALL_CLASSES[k]; Recorded(table, after, cls, now, entries(cls), result, oldest)
    ensures OnlyOwnRows(before, after, entries, k + 1)
  {
    forall id | id in ST.Runs(after) && !(id in ST.Runs(before) && ST.Runs(after)[id] == ST.Runs(before)[id])
      ensures exists j :: 0 <= j < k + 1 && entries(ALL_CLASSES[j]).id == id && ST.Runs(after)[id].cls == ALL_CLASSES[j]
    {
      if id in ST.Runs(table) && ST.Runs(after)[id] == ST.Runs(table)[id] {
        var j :| 0 <= j < k && entries(ALL_CLASSES[j]).id == id && ST.Runs(table)[id].cls == ALL_CLASSES[j];
        assert ST.Runs(after)[id].cls == ALL_CLASSES[j];
      } else {
        assert entries(ALL_CLASSES[k]).id == id && ST.Runs(after)[id].cls == ALL_CLASSES[k];
      }
    }
  }

  /** A class not yet swept is as it was in the table, so its own row will be its newest. */
  lemma StillDue(before: ST.Table, table: ST.Table, now: DateTime, entries: RetentionClass -> Writes,
                 results: seq<ClassResult>, k: nat)
    requires k < |results| && k < |ALL_CLASSES| && table.Native? == before.Native?
    requires OnlyOwnRows(before, table, entries, k) && Due(before, now, entries, results, k)
    ensures Kept(entries(ALL_CLASSES[k]), ST.Ids(table))
    ensures StartsNewest(ST.Runs(table), ALL_CLASSES[k], ST.KeptMoment(table.Native?, Instant(now)))
  {
  }

  ghost predicate ClassInBooks(table: ST.Table, now: DateTime, entries: RetentionClass -> Writes,
                               results: seq<ClassResult>, oldests: seq<Option<Retention.Time>>, j: nat)
    requires j < |results| == |oldests| <= |ALL_CLASSES|
  {
    var cls := ALL_CLASSES[j];
    InBooks(ST.Runs(table), table.Native?, cls, now, entries(cls), results[j], oldests[j])
  }

  /** The run table once some of the classes are swept. */
  ghost predicate BooksKept(before: ST.Table, table: ST.Table, now: DateTime, entries: RetentionClass -> Writes,
                            results: seq<ClassResult>, oldests: seq<Option<Retention.Time>>)
    requires |results| == |oldests| <= |ALL_CLASSES|
  {
    && table.Native? == before.Native? && OnlyOwnRows(before, table, entries, |results|) && RowsStay(before, table)
    && (forall j :: 0 <= j < |results| && Due(before, now, entries, results, j) ==>
          ClassInBooks(table, now, entries, results, oldests, j))
  }

  lemma BooksKeptMore(before: ST.Table, table: ST.Table, after: ST.Table, now: DateTime,
                      entries: RetentionClass -> Writes, results: seq<ClassResult>,
                      oldests: seq<Option<Retention.Time>>, result: ClassResult, oldest: Option<Retention.Time>)
    requires |results| == |oldests| < |ALL_CLASSES|
    requires BooksKept(before, table, now, entries, results, oldests)
    requires var cls := ALL_CLASSES[|results|]; Recorded(table, after, cls, now, entries(cls), result, oldest)
    ensures BooksKept(before, after, now, entries, results + [result], oldests + [oldest])
  {
    var k := |results|;
    var cls, more, older := ALL_CLASSES[k], results + [result], oldests + [oldest];
    OnlyOwnRowsMore(before, table, after, now, entries, k, result, oldest);
    RowsStayMore(before, table, after, cls, now, entries(cls), result, oldest);
    forall j | 0 <= j < |more| && Due(before, now, entries, more, j)
      ensures ClassInBooks(after, now, entries, more, older, j)
    {
      if j < k {
        assert Due(before, now, entries, results, j) && ClassInBooks(table, now, entries, results, oldests, j);
        InBooksStays(table, after, ALL_CLASSES[j], now, entries(ALL_CLASSES[j]), results[j], oldests[j],
                     cls, entries(cls), result, oldest);
      } else {
        StillDue(before, table, now, entries, more, k);
        RecordedInBooks(table, after, cls, now, entries(cls), result, oldest);
      }
    }
  }

  /** Whether or not the pruning at the end goes through. */
  lemma BooksShow(before: ST.Table, table: ST.Table, after: ST.Table, now: DateTime, pruneBefore: DateTime,
                  entries: RetentionClass -> Writes, results: seq<ClassResult>, oldests: seq<Option<Retention.Time>>,
                  k: nat)
    requires k < |results| == |oldests| <= |ALL_CLASSES|
    requires BooksKept(before, table, now, entries, results, oldests) && Due(before, now, entries, results, k)
    requires Instant(pruneBefore) <= Instant(now)
    requires after == table
          || ST.Runs(after) == ST.Recent(ST.Runs(table), Instant(ST.Kept(before.Native?, pruneBefore)))
    ensures Shows(ST.Runs(after), before.Native?, ALL_CLASSES[k], entries(ALL_CLASSES[k]), results[k], oldests[k])
  {
    var native, cls := before.Native?, ALL_CLASSES[k];
    assert ClassInBooks(table, now, entries, results, oldests, k);
    if after != table {
      ST.KeptIs(native, pruneBefore);
      InBooksNotPruned(ST.Runs(table), native, Instant(pruneBefore), cls, now, entries(cls), results[k], oldests[k]);
    }
    InBooksShows(ST.Runs(after), native, cls, now, entries(cls), results[k], oldests[k]);
  }

  /** What each class published, and the oldest row it left. */
  ghost predicate Published(metrics: seq<Option<Metric>>, results: seq<ClassResult>,
                            oldests: seq<Option<Retention.Time>>, ends: seq<State>, emits: bool)
  {
    && |metrics| == |results| == |oldests| == |ends|
    && forall k :: 0 <= k < |metrics| ==>
         && (metrics[k].Some? <==> results[k].drained && emits)
         && (metrics[k].Some? ==>
               metrics[k].value == Metric(results[k].cls, results[k].examined, results[k].deleted, oldests[k]))
         && (results[k].drained ==> OldestIs(Tables(ends[k]), results[k].cls, oldests[k]))
  }

  lemma PublishedMore(metrics: seq<Option<Metric>>, results: seq<ClassResult>, oldests: seq<Option<Retention.Time>>,
                      ends: seq<State>, emits: bool, result: ClassResult, oldest: Option<Retention.Time>, now: State)
    requires Published(metrics, results, oldests, ends, emits)
    requires result.drained ==> OldestIs(Tables(now), result.cls, oldest)
    ensures Published(metrics + [MetricOf(result, oldest, emits)], results + [result], oldests + [oldest], ends + [now],
                      emits)
  {
  }

  /** The loop over the classes. */
  method SweepAll(s: Sweeper, cutoffs: Cutoffs, maxRows: nat, worlds: RetentionClass -> World, emits: bool,
                  store: ST.Store?, now: DateTime, entries: RetentionClass -> Writes)
    returns (results: seq<ClassResult>, metrics: seq<Option<Metric>>, oldests: seq<Option<Retention.Time>>,
             ghost traces: seq<seq<Turn>>, ghost ends: seq<State>)
    requires Ready(StateOf(s)) && AllValid(cutoffs) && 1 <= maxRows <= MAX_BATCH && Valid(now)
    requires forall cls :: Truthful(worlds(cls))
    requires forall cls :: Valid(entries(cls).finishedAt)
    requires store != null ==> ST.Sound(store.table)
    modifies Footprint(s), Books(store)
    ensures |ends| == 3 && StateOf(s) == ends[2]
    ensures AllSwept(worlds, cutoffs, maxRows, old(StateOf(s)), traces, results, ends)
    ensures Published(metrics, results, oldests, ends, emits)
    ensures store != null ==>
              ST.Sound(store.table) && BooksKept(old(store.table), store.table, now, entries, results, oldests)
  {
    ghost var start, before := StateOf(s), if store == null then ST.Native(map[]) else store.table;
    results, metrics, oldests, traces, ends := [], [], [], [], [];
    for k := 0 to |ALL_CLASSES|
      invariant Ready(StateOf(s)) && |ends| == k && StateOf(s) == From(start, ends, k)
      invariant AllSwept(worlds, cutoffs, maxRows, start, traces, results, ends)
      invariant Published(metrics, results, oldests, ends, emits)
      invariant store != null ==>
                  ST.Sound(store.table) && BooksKept(before, store.table, now, entries, results, oldests)
    {
      var cls := ALL_CLASSES[k];
      ghost var table := if store == null then before else store.table;
      var result, metric, oldest;
      ghost var trace;
      result, metric, oldest, trace :=
        RunClass(s, cls, cutoffs, maxRows, worlds(cls), emits, store, now, entries(cls));
      AllSweptMore(worlds, cutoffs, maxRows, start, traces, results, ends, trace, result, StateOf(s));
      PublishedMore(metrics, results, oldests, ends, emits, result, oldest, StateOf(s));
      if store != null {
        BooksKeptMore(before, table, store.table, now, entries, results, oldests, result, oldest);
      }
      results, metrics, oldests := results + [result], metrics + [metric], oldests + [oldest];
      traces, ends := traces + [trace], ends + [StateOf(s)];
    }
  }

  /** What the three sweeps come to: calm ones drain, and with no one else about the whole run is exact. */
  ghost predicate ComesTo(worlds: RetentionClass -> World, cutoffs: Cutoffs, maxRows: nat, start: State,
                          traces: seq<seq<Turn>>, results: seq<ClassResult>, now: State)
    requires |traces| == |results| == 3 && maxRows > 0
  {
    && (forall k :: 0 <= k < 3 && (forall i :: worlds(ALL_CLASSES[k]).trouble(i) == Calm) ==> results[k].drained)
    && ((forall cls :: worlds(cls).busy == 0) ==> RunsQuietly(cutoffs, maxRows, start, traces, results, now))
  }

  lemma AllSweptComesTo(worlds: RetentionClass -> World, cutoffs: Cutoffs, maxRows: nat, start: State,
                        traces: seq<seq<Turn>>, results: seq<ClassResult>, ends: seq<State>)
    requires AllValid(cutoffs) && maxRows > 0 && Ready(start)
    requires AllSwept(worlds, cutoffs, maxRows, start, traces, results, ends) && |ends| == 3
    ensures ComesTo(worlds, cutoffs, maxRows, start, traces, results, ends[2])
  {
    forall k | 0 <= k < 3 && forall i :: worlds(ALL_CLASSES[k]).trouble(i) == Calm
      ensures results[k].drained
    {
      CalmDrains(worlds, cutoffs, maxRows, start, traces, results, ends, k);
    }
    if forall cls :: worlds(cls).busy == 0 {
      QuietRun(worlds, cutoffs, maxRows, start, traces, results, ends);
    }
  }

  /** The run table answers for every class due with what its sweep came to. */
  ghost predicate BooksAnswer(before: ST.Table, after: ST.Table, now: DateTime, entries: RetentionClass -> Writes,
                              results: seq<ClassResult>, oldests: seq<Option<Retention.Time>>)
    requires |results| == |oldests| == |ALL_CLASSES|
  {
    forall k :: 0 <= k < |ALL_CLASSES| && Due(before, now, entries, results, k) ==>
      Shows(ST.Runs(after), before.Native?, ALL_CLASSES[k], entries(ALL_CLASSES[k]), results[k], oldests[k])
  }

  lemma BooksKeptAnswer(before: ST.Table, table: ST.Table, after: ST.Table, now: DateTime, pruneBefore: DateTime,
                        entries: RetentionClass -> Writes, results: seq<ClassResult>,
                        oldests: seq<Option<Retention.Time>>)
    requires |results| == |oldests| == |ALL_CLASSES|
    requires BooksKept(before, table, now, entries, results, oldests) && Instant(pruneBefore) <= Instant(now)
    requires after == table
          || ST.Runs(after) == ST.Recent(ST.Runs(table), Instant(ST.Kept(before.Native?, pruneBefore)))
    ensures BooksAnswer(before, after, now, entries, results, oldests)
  {
    forall k | 0 <= k < |ALL_CLASSES| && Due(before, now, entries, results, k)
      ensures Shows(ST.Runs(after), before.Native?, ALL_CLASSES[k], entries(ALL_CLASSES[k]), results[k], oldests[k])
    {
      BooksShow(before, table, after, now, pruneBefore, entries, results, oldests, k);
    }
  }

  /** Of the rows there before, exactly those that started before the cutoff, as the backend keeps it, are gone. */
  ghost predicate PrunedExactly(before: ST.Table, after: ST.Table, cutoff: Retention.Time) {
    var kept := if before.Native? then cutoff / 1000 * 1000 else cutoff;
    && (forall id :: id in ST.Runs(after) ==> kept <= ST.Runs(after)[id].started)
    && (forall id :: id in ST.Runs(before) && kept <= ST.Runs(before)[id].started ==>
          id in ST.Runs(after) && ST.Runs(after)[id] == ST.Runs(before)[id])
  }

  /** The run table drops its month-old rows; should that fail, it keeps them. */
  method Prune(store: ST.Store?, now: DateTime, pruneBefore: DateTime, pruneLost: bool,
               ghost before: ST.Table, ghost entries: RetentionClass -> Writes, ghost results: seq<ClassResult>,
               ghost oldests: seq<Option<Retention.Time>>)
    requires Valid(pruneBefore) && Instant(pruneBefore) <= Instant(now) && |results| == |oldests| == |ALL_CLASSES|
    requires store != null ==>
               ST.Sound(store.table) && BooksKept(before, store.table, now, entries, results, oldests)
    modifies Books(store)
    ensures store != null ==>
              ST.Sound(store.table) && BooksAnswer(before, store.table, now, entries, results, oldests)
    ensures store != null && !pruneLost ==> PrunedExactly(before, store.table, Instant(pruneBefore))
  {
    if store != null {
      ghost var table := store.table;
      var _ := store.PruneOlderThan(pruneBefore, pruneLost);
      BooksKeptAnswer(before, table, store.table, now, pruneBefore, entries, results, oldests);
    }
  }

  /**
   The whole sweep.  Whatever others write meanwhile, every row it logs was truly past
   its class's cutoff when deleted; a class that meets no trouble is swept; and the run
   table, pruned or not, then answers for a drained class with what its sweep came to.
   */
  method Run(s: Sweeper, cutoffs: Cutoffs, maxRows: nat, worlds: RetentionClass -> World, emits: bool,
             store: ST.Store?, now: DateTime, entries: RetentionClass -> Writes, pruneBefore: DateTime, pruneLost: bool)
    returns (results: seq<ClassResult>, metrics: seq<Option<Metric>>, oldests: seq<Option<Retention.Time>>,
             ghost traces: seq<seq<Turn>>, ghost ends: seq<State>)
    requires Ready(StateOf(s)) && AllValid(cutoffs) && 1 <= maxRows <= MAX_BATCH
    requires forall cls :: Truthful(worlds(cls))
    requires forall cls :: Valid(entries(cls).finishedAt)
    requires Valid(now) && Valid(pruneBefore)
    requires Instant(pruneBefore) == Instant(now) - 30 * 24 * 60 * 60 * 1_000_000_000
    requires store != null ==> ST.Sound(store.table)
    modifies Footprint(s), Books(store)
    ensures |ends| == 3 && StateOf(s) == ends[2]
    ensures AllSwept(worlds, cutoffs, maxRows, old(StateOf(s)), traces, results, ends)
    ensures ComesTo(worlds, cutoffs, maxRows, old(StateOf(s)), traces, results, StateOf(s))
    ensures Published(metrics, results, oldests, ends, emits)
    ensures store != null ==>
              ST.Sound(store.table) && BooksAnswer(old(store.table), store.table, now, entries, results, oldests)
    ensures store != null && !pruneLost ==> PrunedExactly(old(store.table), store.table, Instant(pruneBefore))
  {
    ghost var start, before := StateOf(s), if store == null then ST.Native(map[]) else store.table;
    results, metrics, oldests, traces, ends := SweepAll(s, cutoffs, maxRows, worlds, emits, store, now, entries);
    Prune(store, now, pruneBefore, pruneLost, before, entries, results, oldests);
    AllSweptComesTo(worlds, cutoffs, maxRows, start, traces, results, ends);
  }
}
