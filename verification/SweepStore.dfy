/**
 The sweep's run table of internal/sweepstore/sweepstore.go, on either backend:
 the two writes of a run, pruning, and the one pass that folds the table into a
 snapshot per class.
 */
module SweepStore {
  import opened Collections
  import opened Outcomes
  import opened Text
  import opened Timestamps
  import opened Retention

  type Time = int

  /** One run, its times in whatever form; a run that has not finished, or died, has no `finished`. */
  datatype Record<T> = Record(cls: RetentionClass, started: T, finished: Option<T>,
                        examined: int, deleted: int, oldest: Option<T>, drained: bool, missed: nat)

  type Run = Record<Time>

  /** Postgres keeps times as values, SQLite as texts. */
  datatype Table = Native(rows: map<Id, Record<DateTime>>) | Texts(texts: map<Id, Record<string>>)

  datatype StoreError = Malformed | CheckFailed | Lost

  // ------------------------------------------------------------ stored times

  function EncodeOpt(t: Option<DateTime>): Option<string> {
    if t.None? then None else Some(Encode(t.value))
  }

  /** A text the store wrote. */
  ghost predicate WellWritten(s: string) {
    exists t :: Valid(t) && s == Encode(t)
  }

  /** The moment a stored text stands for; texts that do not parse, which Sound excludes, count as 0. */
  function InstantOf(s: string): Time {
    if Parse(s).Some? then Parse(s).value else 0
  }

  function InstantOpt(s: Option<string>): Option<Time> {
    if s.None? then None else Some(InstantOf(s.value))
  }

  predicate ValidOpt(t: Option<DateTime>) {
    t.Some? ==> Valid(t.value)
  }

  function Moments(t: Option<DateTime>): Option<Time> {
    if t.None? then None else Some(Instant(t.value))
  }

  lemma WrittenInstant(t: DateTime)
    requires Valid(t)
    ensures WellWritten(Encode(t)) && Parse(Encode(t)).Some? && InstantOf(Encode(t)) == Instant(t)
  {
    ParseEncode(t);
  }

  /** Comparing stored texts compares the moments they stand for. */
  lemma TextOrder(a: string, b: string)
    requires WellWritten(a) && WellWritten(b)
    ensures Before(a, b) <==> InstantOf(a) < InstantOf(b)
  {
    var t :| Valid(t) && a == Encode(t);
    var u :| Valid(u) && b == Encode(u);
    WrittenInstant(t);
    WrittenInstant(u);
    EncodeOrder(t, u);
  }

  /** What a column keeps of a time: microseconds on Postgres, all of it on SQLite. */
  function Kept(native: bool, t: DateTime): DateTime {
    if native then t.(nano := t.nano / 1000 * 1000) else t
  }

  function KeptOpt(native: bool, t: Option<DateTime>): Option<DateTime> {
    if t.None? then None else Some(Kept(native, t.value))
  }

  lemma KeptOrder(native: bool, a: DateTime, b: DateTime)
    requires Valid(a) && Valid(b)
    ensures Valid(Kept(native, a)) && Instant(Kept(native, a)) <= Instant(a)
    ensures Instant(Kept(native, a)) < Instant(Kept(native, b)) ==> Instant(a) < Instant(b)
  {
    if native && Seconds(a) == Seconds(b) && a.nano >= b.nano {
      assert a.nano / 1000 >= b.nano / 1000;
    }
  }

  /** The same of a moment. */
  function KeptMoment(native: bool, moment: Time): Time {
    if native then moment / 1000 * 1000 else moment
  }

  function KeptMoments(native: bool, moment: Option<Time>): Option<Time> {
    if moment.None? then None else Some(KeptMoment(native, moment.value))
  }

  lemma Microseconds(seconds: int, nano: nat)
    ensures (seconds * 1_000_000_000 + nano) / 1000 * 1000 == seconds * 1_000_000_000 + nano / 1000 * 1000
  {
    assert (seconds * 1_000_000 * 1000 + nano) / 1000 == seconds * 1_000_000 + nano / 1000;
  }

  lemma KeptIs(native: bool, t: DateTime)
    ensures Instant(Kept(native, t)) == KeptMoment(native, Instant(t))
    ensures Instant(Kept(native, t)) == if native then Instant(t) / 1000 * 1000 else Instant(t)
  {
    Microseconds(Seconds(t), t.nano);
    assert Seconds(Kept(native, t)) == Seconds(t);
  }

  const MAX_DURATION := 0x7fff_ffff_ffff_ffff
  const MIN_DURATION := -0x8000_0000_0000_0000

  /** Go's Time.Sub, which saturates. */
  function Sub(a: Time, b: Time): (d: int)
    ensures -0x8000_0000_0000_0000 <= d <= 0x7fff_ffff_ffff_ffff
    ensures d > a - b ==> d == -0x8000_0000_0000_0000
    ensures d < a - b ==> d == 0x7fff_ffff_ffff_ffff
  {
    var d := a - b;
    if d > MAX_DURATION then MAX_DURATION else if d < MIN_DURATION then MIN_DURATION else d
  }

  // ---------------------------------------------------------------- the table

  function Ids(t: Table): set<Id> {
    match t
    case Native(rows) => rows.Keys
    case Texts(texts) => texts.Keys
  }

  /** Every stored text is one the store wrote. */
  ghost predicate SoundRow(row: Record<string>) {
    && WellWritten(row.started)
    && (row.finished.Some? ==> WellWritten(row.finished.value))
    && (row.oldest.Some? ==> WellWritten(row.oldest.value))
  }

  predicate ValidRow(row: Record<DateTime>) {
    Valid(row.started) && ValidOpt(row.finished) && ValidOpt(row.oldest)
  }

  ghost predicate Sound(t: Table) {
    match t
    case Native(rows) => forall id :: id in rows ==> ValidRow(rows[id])
    case Texts(texts) => forall id :: id in texts ==> SoundRow(texts[id])
  }

  function RunOf(row: Record<string>): Run {
    Record(row.cls, InstantOf(row.started), InstantOpt(row.finished), row.examined, row.deleted,
        InstantOpt(row.oldest), row.drained, row.missed)
  }

  function MomentsOf(row: Record<DateTime>): Run {
    Record(row.cls, Instant(row.started), Moments(row.finished), row.examined, row.deleted, Moments(row.oldest),
           row.drained, row.missed)
  }

  function TextOf(row: Record<DateTime>): Record<string> {
    Record(row.cls, Encode(row.started), EncodeOpt(row.finished), row.examined, row.deleted, EncodeOpt(row.oldest),
           row.drained, row.missed)
  }

  /** The runs the table stands for. */
  function Runs(t: Table): (runs: map<Id, Run>)
    ensures runs.Keys == Ids(t)
  {
    match t
    case Native(rows) => map id | id in rows :: MomentsOf(rows[id])
    case Texts(texts) => map id | id in texts :: RunOf(texts[id])
  }

  lemma RunOfText(row: Record<DateTime>)
    requires ValidRow(row)
    ensures SoundRow(TextOf(row)) && RunOf(TextOf(row)) == MomentsOf(row)
  {
    WrittenInstant(row.started);
    if row.finished.Some? {
      WrittenInstant(row.finished.value);
    }
    if row.oldest.Some? {
      WrittenInstant(row.oldest.value);
    }
  }

  // ------------------------------------------------------ ORDER BY started_at

  /** How the engine compares two rows' starts. */
  predicate StartsBefore(t: Table, a: Id, b: Id)
    requires a in Ids(t) && b in Ids(t)
  {
    match t
    case Native(rows) => Instant(rows[a].started) < Instant(rows[b].started)
    case Texts(texts) => Before(texts[a].started, texts[b].started)
  }

  lemma StartsBeforeIsEarlier(t: Table, a: Id, b: Id)
    requires Sound(t) && a in Ids(t) && b in Ids(t)
    ensures StartsBefore(t, a, b) <==> Runs(t)[a].started < Runs(t)[b].started
  {
    if t.Texts? {
      TextOrder(t.texts[a].started, t.texts[b].started);
    }
  }

  lemma StartsBeforeChain(t: Table, a: Id, b: Id, c: Id)
    requires {a, b, c} <= Ids(t)
    ensures !StartsBefore(t, a, b) && !StartsBefore(t, b, c) ==> !StartsBefore(t, a, c)
    ensures StartsBefore(t, a, b) ==> !StartsBefore(t, b, a)
  {
    if t.Texts? {
      var x, y, z := t.texts[a].started, t.texts[b].started, t.texts[c].started;
      if Before(x, y) {
        BeforeAsymmetric(x, y);
      } else if !Before(y, z) && Before(x, z) {
        BeforeTotal(x, y);
        if Before(y, x) {
          BeforeTransitive(y, x, z);
        }
      }
    }
  }

  /** Latest start first; rows that start together come in any order. */
  predicate Descending(t: Table, order: seq<Id>)
    requires forall id :: id in order ==> id in Ids(t)
  {
    forall i, j :: 0 <= i < j < |order| ==> !StartsBefore(t, order[i], order[j])
  }

  /** Some of the table's rows, each once, in the query's order. */
  ghost predicate Listed(t: Table, order: seq<Id>) {
    Distinct(order) && (forall id :: id in order ==> id in Ids(t)) && Descending(t, order)
  }

  lemma InsertedDescends(t: Table, order: seq<Id>, k: nat, id: Id)
    requires Listed(t, order) && id in Ids(t) && k <= |order|
    requires forall i :: 0 <= i < k ==> !StartsBefore(t, order[i], id)
    requires k < |order| ==> StartsBefore(t, order[k], id)
    ensures forall j :: k <= j < |order| ==> !StartsBefore(t, id, order[j])
  {
    forall j | k <= j < |order|
      ensures !StartsBefore(t, id, order[j])
    {
      StartsBeforeChain(t, order[k], id, id);
      StartsBeforeChain(t, id, order[k], order[j]);
    }
  }

  lemma InsertedListed(t: Table, order: seq<Id>, k: nat, id: Id)
    requires Listed(t, order) && id in Ids(t) && id !in order && k <= |order|
    requires forall i :: 0 <= i < k ==> !StartsBefore(t, order[i], id)
    requires forall j :: k <= j < |order| ==> !StartsBefore(t, id, order[j])
    ensures Listed(t, order[..k] + [id] + order[k..])
  {
    var more := order[..k] + [id] + order[k..];
    forall i, j | 0 <= i < j < |more|
      ensures more[i] != more[j]
    {
    }
  }

  method Insert(t: Table, order: seq<Id>, id: Id) returns (more: seq<Id>)
    requires Listed(t, order) && id in Ids(t) && id !in order
    ensures Listed(t, more) && Members(more) == Members(order) + {id}
  {
    var k := 0;
    while k < |order| && !StartsBefore(t, order[k], id)
      invariant 0 <= k <= |order|
      invariant forall i :: 0 <= i < k ==> !StartsBefore(t, order[i], id)
    {
      k := k + 1;
    }
    InsertedDescends(t, order, k, id);
    InsertedListed(t, order, k, id);
    more := order[..k] + [id] + order[k..];
    InsertedMembers(order, k, id);
  }

  lemma InsertedMembers(order: seq<Id>, k: nat, id: Id)
    requires k <= |order|
    ensures Members(order[..k] + [id] + order[k..]) == Members(order) + {id}
  {
    assert order == order[..k] + order[k..];
  }

  method OrderByStart(t: Table) returns (order: seq<Id>)
    ensures Listed(t, order) && Members(order) == Ids(t)
  {
    order := [];
    var left := Ids(t);
    while left != {}
      invariant left <= Ids(t) && Members(order) == Ids(t) - left && Listed(t, order)
      decreases left
    {
      var id :| id in left;
      assert id !in Members(order);
      left := left - {id};
      order := Insert(t, order, id);
    }
  }

  // ------------------------------------------------------------ LatestSnapshots

  datatype ClassSnapshot = ClassSnapshot(cls: RetentionClass, oldest: Option<Time>, lastFinished: Option<Time>,
                                         examined: int, deleted: int, duration: Option<int>, missed: nat)

  /** A nullable time column once parsed; Junk is a text that is no timestamp. */
  datatype Column = Null | Junk | At(time: Time)

  function ColumnOf(s: Option<string>): Column {
    if s.None? then Null else if Parse(s.value).None? then Junk else At(Parse(s.value).value)
  }

  function TimeOf(c: Column): Option<Time> {
    if c.At? then Some(c.time) else None
  }

  /** A row as the pass reads it. */
  datatype Scanned = Scanned(cls: RetentionClass, started: Column, finished: Column,
                             examined: int, deleted: int, oldest: Column, drained: bool, missed: nat)

  function ScanText(row: Record<string>): Scanned {
    Scanned(row.cls, ColumnOf(Some(row.started)), ColumnOf(row.finished), row.examined, row.deleted,
            ColumnOf(row.oldest),
            row.drained, row.missed)
  }

  function ScanNative(row: Record<DateTime>): Scanned {
    Scanned(row.cls, At(Instant(row.started)), ColumnOf(EncodeOpt(row.finished)), row.examined, row.deleted,
            ColumnOf(EncodeOpt(row.oldest)), row.drained, row.missed)
  }

  function Scan(t: Table, id: Id): Scanned
    requires id in Ids(t)
  {
    match t
    case Native(rows) => ScanNative(rows[id])
    case Texts(texts) => ScanText(texts[id])
  }

  lemma ColumnRead(s: string)
    requires WellWritten(s)
    ensures ColumnOf(Some(s)) == At(InstantOf(s))
  {
    var t :| Valid(t) && s == Encode(t);
    WrittenInstant(t);
  }

  lemma TextScanned(row: Record<string>)
    requires SoundRow(row)
    ensures var run, scanned := RunOf(row), ScanText(row);
            && scanned.started == At(run.started)
            && !scanned.finished.Junk? && TimeOf(scanned.finished) == run.finished
            && !scanned.oldest.Junk? && TimeOf(scanned.oldest) == run.oldest
  {
    ColumnRead(row.started);
    if row.finished.Some? {
      ColumnRead(row.finished.value);
    }
    if row.oldest.Some? {
      ColumnRead(row.oldest.value);
    }
  }

  lemma NativeColumn(t: Option<DateTime>)
    requires ValidOpt(t)
    ensures var c := ColumnOf(EncodeOpt(t)); !c.Junk? && TimeOf(c) == Moments(t)
  {
    if t.Some? {
      WrittenInstant(t.value);
    }
  }

  lemma ScannedRun(t: Table, id: Id)
    requires Sound(t) && id in Ids(t)
    ensures var run, row := Runs(t)[id], Scan(t, id);
            && row.cls == run.cls && row.started == At(run.started)
            && row.examined == run.examined && row.deleted == run.deleted && row.missed == run.missed
               && row.drained == run.drained
            && !row.finished.Junk? && TimeOf(row.finished) == run.finished
            && !row.oldest.Junk? && TimeOf(row.oldest) == run.oldest
  {
    match t
    case Native(rows) =>
      NativeColumn(rows[id].finished);
      NativeColumn(rows[id].oldest);
    case Texts(texts) =>
      TextScanned(texts[id]);
  }

  predicate First(rows: seq<Scanned>, k: nat) {
    k < |rows| && forall j :: 0 <= j < k ==> rows[j].cls != rows[k].cls
  }

  predicate FirstDrained(rows: seq<Scanned>, k: nat) {
    k < |rows| && rows[k].drained && forall j :: 0 <= j < k ==> !(rows[j].cls == rows[k].cls && rows[j].drained)
  }

  /** Only what the pass looks at can fail it. */
  predicate Unreadable(rows: seq<Scanned>, k: nat) {
    && k < |rows|
    && (|| !rows[k].started.At?
        || (First(rows, k) && rows[k].finished.Junk?)
        || (FirstDrained(rows, k) && rows[k].oldest.Junk?))
  }

  /** The fields taken from a class's latest run. */
  predicate LatestFields(snap: ClassSnapshot, row: Scanned) {
    && snap.examined == row.examined && snap.deleted == row.deleted && snap.missed == row.missed
    && snap.lastFinished == TimeOf(row.finished)
    && snap.duration == if !row.finished.At? || !row.started.At? then None
       else Some(Sub(row.finished.time, row.started.time))
  }

  predicate Seen(rows: seq<Scanned>, n: nat, cls: RetentionClass) {
    exists k :: 0 <= k < n <= |rows| && rows[k].cls == cls
  }

  predicate SeenDrained(rows: seq<Scanned>, n: nat, cls: RetentionClass) {
    exists k :: 0 <= k < n <= |rows| && rows[k].cls == cls && rows[k].drained
  }

  /** A class's snapshot: its first row's fields, and the survivor age of its first drained row. */
  ghost predicate ClassFolded(rows: seq<Scanned>, n: nat, cls: RetentionClass, snap: ClassSnapshot) {
    && snap.cls == cls
    && (exists k :: 0 <= k < n && First(rows, k) && rows[k].cls == cls && LatestFields(snap, rows[k]))
    && if !SeenDrained(rows, n, cls) then snap.oldest == None
       else
         exists k ::
           0 <= k < n && FirstDrained(rows, k) && rows[k].cls == cls && snap.oldest == TimeOf(rows[k].oldest)
  }

  lemma SeenMore(rows: seq<Scanned>, n: nat, cls: RetentionClass)
    requires n < |rows|
    ensures Seen(rows, n + 1, cls) <==> Seen(rows, n, cls) || rows[n].cls == cls
    ensures SeenDrained(rows, n + 1, cls) <==> SeenDrained(rows, n, cls) || (rows[n].cls == cls && rows[n].drained)
    ensures First(rows, n) <==> !Seen(rows, n, rows[n].cls)
    ensures FirstDrained(rows, n) <==> rows[n].drained && !SeenDrained(rows, n, rows[n].cls)
  {
    if Seen(rows, n, cls) {
      var k :| 0 <= k < n && rows[k].cls == cls;
      assert 0 <= k < n + 1;
    }
    if SeenDrained(rows, n, cls) {
      var k :| 0 <= k < n && rows[k].cls == cls && rows[k].drained;
      assert 0 <= k < n + 1;
    }
  }

  lemma ClassFoldedMore(rows: seq<Scanned>, n: nat, cls: RetentionClass, snap: ClassSnapshot)
    requires n < |rows| && ClassFolded(rows, n, cls, snap)
    requires rows[n].cls != cls || (Seen(rows, n, cls) && (rows[n].drained ==> SeenDrained(rows, n, cls)))
    ensures ClassFolded(rows, n + 1, cls, snap)
  {
    SeenMore(rows, n, cls);
  }

  /** The row's own class, once the row is taken in. */
  lemma ClassFoldedNew(rows: seq<Scanned>, n: nat, before: ClassSnapshot, snap: ClassSnapshot)
    requires n < |rows| && snap.cls == rows[n].cls
    requires Seen(rows, n, snap.cls) ==> ClassFolded(rows, n, snap.cls, before)
    requires !Seen(rows, n, snap.cls) ==> before.oldest == None
    requires if First(rows, n) then LatestFields(snap, rows[n]) else snap.(oldest := None) == before.(oldest := None)
    requires snap.oldest == if FirstDrained(rows, n) then TimeOf(rows[n].oldest) else before.oldest
    ensures ClassFolded(rows, n + 1, snap.cls, snap)
  {
    SeenMore(rows, n, snap.cls);
    if !First(rows, n) {
      var k :| 0 <= k < n && First(rows, k) && rows[k].cls == snap.cls && LatestFields(before, rows[k]);
      assert LatestFields(snap, rows[k]);
    }
  }

  /**
   One row taken into its class's snapshot: its fields if it is the class's first, its
   survivor if its first drained.
   */
  predicate TakenIn(row: Scanned, before: ClassSnapshot, first: bool, firstDrained: bool, snap: ClassSnapshot) {
    && snap.cls == row.cls
    && (if first then LatestFields(snap, row) else snap.(oldest := None) == before.(oldest := None))
    && snap.oldest == if firstDrained && row.oldest.At? then Some(row.oldest.time) else before.oldest
  }

  predicate Fails(row: Scanned, first: bool, firstDrained: bool) {
    !row.started.At? || (first && row.finished.Junk?) || (firstDrained && row.oldest.Junk?)
  }

  method Take(row: Scanned, before: ClassSnapshot, first: bool, firstDrained: bool)
    returns (r: Result<ClassSnapshot, StoreError>)
    requires before.cls == row.cls && (first ==> before.lastFinished == None && before.duration == None)
    ensures r.Err? <==> Fails(row, first, firstDrained)
    ensures r.Ok? ==> TakenIn(row, before, first, firstDrained, r.value)
  {
    if !row.started.At? {
      return Err(Malformed);
    }
    var snap := before;
    if first {
      snap := snap.(examined := row.examined, deleted := row.deleted, missed := row.missed);
      if !row.finished.Null? {
        if row.finished.Junk? {
          return Err(Malformed);
        }
        snap := snap.(lastFinished := Some(row.finished.time),
                      duration := Some(Sub(row.finished.time, row.started.time)));
      }
    }
    if firstDrained && !row.oldest.Null? {
      if row.oldest.Junk? {
        return Err(Malformed);
      }
      snap := snap.(oldest := Some(row.oldest.time));
    }
    return Ok(snap);
  }

  /** What the pass holds about one class after the first n rows. */
  ghost predicate GatheredFor(rows: seq<Scanned>, n: nat, byClass: map<RetentionClass, ClassSnapshot>,
                              drained: set<RetentionClass>, cls: RetentionClass) {
    && (cls in byClass <==> Seen(rows, n, cls))
    && (cls in drained <==> SeenDrained(rows, n, cls))
    && (cls in byClass ==> ClassFolded(rows, n, cls, byClass[cls]))
  }

  ghost predicate Gathered(rows: seq<Scanned>, n: nat, byClass: map<RetentionClass, ClassSnapshot>,
                           drained: set<RetentionClass>)
  {
    forall cls :: GatheredFor(rows, n, byClass, drained, cls)
  }

  /** The class's snapshot before a row: a blank one if this is its first row. */
  function SnapshotFor(byClass: map<RetentionClass, ClassSnapshot>, cls: RetentionClass): ClassSnapshot {
    if cls in byClass then byClass[cls] else ClassSnapshot(cls, None, None, 0, 0, None, 0)
  }

  lemma GatheredFirsts(rows: seq<Scanned>, n: nat, byClass: map<RetentionClass, ClassSnapshot>,
                       drained: set<RetentionClass>)
    requires n < |rows| && GatheredFor(rows, n, byClass, drained, rows[n].cls)
    ensures First(rows, n) <==> rows[n].cls !in byClass
    ensures FirstDrained(rows, n) <==> rows[n].drained && rows[n].cls !in drained
    ensures Unreadable(rows, n) <==> Fails(rows[n], First(rows, n), FirstDrained(rows, n))
  {
    SeenMore(rows, n, rows[n].cls);
  }

  /** A class with no drained row yet has no survivor. */
  lemma NoDrainedNoOldest(rows: seq<Scanned>, n: nat, byClass: map<RetentionClass, ClassSnapshot>,
                          drained: set<RetentionClass>)
    requires n < |rows| && GatheredFor(rows, n, byClass, drained, rows[n].cls)
    ensures FirstDrained(rows, n) ==> SnapshotFor(byClass, rows[n].cls).oldest == None
  {
    SeenMore(rows, n, rows[n].cls);
  }

  lemma TakenFolds(rows: seq<Scanned>, n: nat, byClass: map<RetentionClass, ClassSnapshot>,
                   drained: set<RetentionClass>, snap: ClassSnapshot)
    requires n < |rows| && GatheredFor(rows, n, byClass, drained, rows[n].cls) && !Unreadable(rows, n)
    requires TakenIn(rows[n], SnapshotFor(byClass, rows[n].cls), First(rows, n), FirstDrained(rows, n), snap)
    ensures ClassFolded(rows, n + 1, snap.cls, snap)
  {
    NoDrainedNoOldest(rows, n, byClass, drained);
    ClassFoldedNew(rows, n, SnapshotFor(byClass, rows[n].cls), snap);
  }

  lemma GatheredForMore(rows: seq<Scanned>, n: nat, byClass: map<RetentionClass, ClassSnapshot>,
                        drained: set<RetentionClass>,
                        snap: ClassSnapshot, cls: RetentionClass)
    requires n < |rows| && GatheredFor(rows, n, byClass, drained, cls)
    requires snap.cls == rows[n].cls && ClassFolded(rows, n + 1, snap.cls, snap)
    ensures GatheredFor(rows, n + 1, byClass[snap.cls := snap],
                        if rows[n].drained then drained + {snap.cls} else drained, cls)
  {
    SeenMore(rows, n, cls);
    if cls != snap.cls && cls in byClass {
      ClassFoldedMore(rows, n, cls, byClass[cls]);
    }
  }

  lemma GatheredMore(rows: seq<Scanned>, n: nat, byClass: map<RetentionClass, ClassSnapshot>,
                     drained: set<RetentionClass>,
                     snap: ClassSnapshot, next: nat, more: map<RetentionClass, ClassSnapshot>,
                       moreDrained: set<RetentionClass>)
    requires n < |rows| && Gathered(rows, n, byClass, drained)
    requires snap.cls == rows[n].cls && ClassFolded(rows, n + 1, snap.cls, snap)
    requires next == n + 1 && more == byClass[snap.cls := snap]
    requires moreDrained == if rows[n].drained then drained + {snap.cls} else drained
    ensures Gathered(rows, next, more, moreDrained)
  {
    forall cls
      ensures GatheredFor(rows, next, more, moreDrained, cls)
    {
      assert GatheredFor(rows, n, byClass, drained, cls);
      GatheredForMore(rows, n, byClass, drained, snap, cls);
    }
  }

  lemma FailsIsUnreadable(rows: seq<Scanned>, n: nat, byClass: map<RetentionClass, ClassSnapshot>,
                          drained: set<RetentionClass>)
    requires n < |rows| && Gathered(rows, n, byClass, drained)
    ensures Unreadable(rows, n) <==> Fails(rows[n], rows[n].cls !in byClass, rows[n].drained && rows[n].cls !in drained)
    ensures SnapshotFor(byClass, rows[n].cls).cls == rows[n].cls
  {
    assert GatheredFor(rows, n, byClass, drained, rows[n].cls);
    GatheredFirsts(rows, n, byClass, drained);
  }

  lemma RowGathered(rows: seq<Scanned>, n: nat, byClass: map<RetentionClass, ClassSnapshot>,
                    drained: set<RetentionClass>,
                    snap: ClassSnapshot, next: nat, more: map<RetentionClass, ClassSnapshot>,
                      moreDrained: set<RetentionClass>)
    requires n < |rows| && Gathered(rows, n, byClass, drained) && !Unreadable(rows, n)
    requires TakenIn(rows[n], SnapshotFor(byClass, rows[n].cls), rows[n].cls !in byClass,
                     rows[n].drained && rows[n].cls !in drained, snap)
    requires next == n + 1 && more == byClass[snap.cls := snap]
    requires moreDrained == if rows[n].drained then drained + {snap.cls} else drained
    ensures Gathered(rows, next, more, moreDrained)
  {
    assert GatheredFor(rows, n, byClass, drained, rows[n].cls);
    GatheredFirsts(rows, n, byClass, drained);
    TakenFolds(rows, n, byClass, drained, snap);
    GatheredMore(rows, n, byClass, drained, snap, next, more, moreDrained);
  }

  /** The pass: an answer for exactly the classes that have a row, or an error over a row it had to read. */
  method Fold(rows: seq<Scanned>) returns (r: Result<map<RetentionClass, ClassSnapshot>, StoreError>)
    ensures r.Err? <==> exists k :: 0 <= k < |rows| && Unreadable(rows, k)
    ensures r.Ok? ==> exists drained :: Gathered(rows, |rows|, r.value, drained)
  {
    var byClass: map<RetentionClass, ClassSnapshot> := map[];
    var haveLatestOverall: set<RetentionClass>, haveLatestDrained: set<RetentionClass> := {}, {};
    for i := 0 to |rows|
      invariant forall k :: 0 <= k < i ==> !Unreadable(rows, k)
      invariant haveLatestOverall == byClass.Keys
      invariant Gathered(rows, i, byClass, haveLatestDrained)
    {
      var row := rows[i];
      FailsIsUnreadable(rows, i, byClass, haveLatestDrained);
      var snap := Take(row, SnapshotFor(byClass, row.cls), row.cls !in haveLatestOverall,
                       row.drained && row.cls !in haveLatestDrained);
      if snap.Err? {
        return Err(Malformed);
      }
      ghost var was, wasDrained := byClass, haveLatestDrained;
      haveLatestOverall := haveLatestOverall + {row.cls};
      haveLatestDrained := if row.drained then haveLatestDrained + {row.cls} else haveLatestDrained;
      byClass := byClass[row.cls := snap.value];
      RowGathered(rows, i, was, wasDrained, snap.value, i + 1, byClass, haveLatestDrained);
    }
    return Ok(byClass);
  }

  // ----------------------------------------------------- what a snapshot means

  predicate IsLatest(runs: map<Id, Run>, cls: RetentionClass, id: Id) {
    && id in runs && runs[id].cls == cls
    && forall other :: other in runs && runs[other].cls == cls ==> runs[other].started <= runs[id].started
  }

  predicate IsLatestDrained(runs: map<Id, Run>, cls: RetentionClass, id: Id) {
    && id in runs && runs[id].cls == cls && runs[id].drained
    && forall other :: other in runs && runs[other].cls == cls && runs[other].drained ==>
         runs[other].started <= runs[id].started
  }

  predicate HasRun(runs: map<Id, Run>, cls: RetentionClass) {
    exists id :: id in runs && runs[id].cls == cls
  }

  predicate HasDrained(runs: map<Id, Run>, cls: RetentionClass) {
    exists id :: id in runs && runs[id].cls == cls && runs[id].drained
  }

  predicate FromLatest(snap: ClassSnapshot, run: Run) {
    && snap.examined == run.examined && snap.deleted == run.deleted && snap.missed == run.missed
    && snap.lastFinished == run.finished
    && snap.duration == if run.finished.None? then None else Some(Sub(run.finished.value, run.started))
  }

  /**
   A class's snapshot, said over the whole table: the run that started last, and the
   survivor of the last drained run.
   */
  ghost predicate Describes(runs: map<Id, Run>, cls: RetentionClass, snap: ClassSnapshot) {
    && snap.cls == cls
    && (exists id :: IsLatest(runs, cls, id) && FromLatest(snap, runs[id]))
    && if !HasDrained(runs, cls) then snap.oldest == None
       else exists id :: IsLatestDrained(runs, cls, id) && snap.oldest == runs[id].oldest
  }

  function Scans(t: Table, order: seq<Id>): (rows: seq<Scanned>)
    requires forall id :: id in order ==> id in Ids(t)
    ensures |rows| == |order| && forall k :: 0 <= k < |rows| ==> rows[k] == Scan(t, order[k])
  {
    seq(|order|, k requires 0 <= k < |order| => Scan(t, order[k]))
  }

  /** A query answer: every row once, latest start first. */
  ghost predicate Answers(t: Table, order: seq<Id>) {
    Listed(t, order) && Members(order) == Ids(t)
  }

  lemma PlaceOf(t: Table, order: seq<Id>, id: Id) returns (k: nat)
    requires Answers(t, order) && id in Ids(t)
    ensures k < |order| && order[k] == id
  {
    assert id in Members(order);
    k :| 0 <= k < |order| && order[k] == id;
  }

  /** A row not read before place k did not start after the row there. */
  lemma NotLater(t: Table, order: seq<Id>, k: nat, other: Id)
    requires Sound(t) && Answers(t, order) && k < |order| && other in Ids(t)
    requires forall j :: 0 <= j < k ==> order[j] != other
    ensures Runs(t)[other].started <= Runs(t)[order[k]].started
  {
    var j := PlaceOf(t, order, other);
    StartsBeforeIsEarlier(t, order[k], other);
  }

  lemma ScannedClass(t: Table, id: Id)
    requires Sound(t) && id in Ids(t)
    ensures Scan(t, id).cls == Runs(t)[id].cls && Scan(t, id).drained == Runs(t)[id].drained
  {
  }

  /** Reading in order, the first row of a class is its latest run. */
  lemma FirstIsLatest(t: Table, order: seq<Id>, k: nat)
    requires Sound(t) && Answers(t, order) && First(Scans(t, order), k)
    ensures IsLatest(Runs(t), Scan(t, order[k]).cls, order[k])
  {
    ScannedClass(t, order[k]);
    forall other | other in Ids(t) && Runs(t)[other].cls == Scan(t, order[k]).cls
      ensures Runs(t)[other].started <= Runs(t)[order[k]].started
    {
      ScannedClass(t, other);
      NotReadBefore(t, order, k, other);
      NotLater(t, order, k, other);
    }
  }

  lemma NotReadBefore(t: Table, order: seq<Id>, k: nat, other: Id)
    requires Answers(t, order) && k < |order| && other in Ids(t)
    requires || (First(Scans(t, order), k) && Scan(t, other).cls == Scan(t, order[k]).cls)
             || (FirstDrained(Scans(t, order), k) && Scan(t, other).cls == Scan(t, order[k]).cls
                 && Scan(t, other).drained)
    ensures forall j :: 0 <= j < k ==> order[j] != other
  {
    var rows := Scans(t, order);
    forall j | 0 <= j < k
      ensures order[j] != other
    {
      assert rows[j] == Scan(t, order[j]);
    }
  }

  lemma FirstDrainedIsLatest(t: Table, order: seq<Id>, k: nat)
    requires Sound(t) && Answers(t, order) && FirstDrained(Scans(t, order), k)
    ensures IsLatestDrained(Runs(t), Scan(t, order[k]).cls, order[k])
  {
    ScannedClass(t, order[k]);
    forall other | other in Ids(t) && Runs(t)[other].cls == Scan(t, order[k]).cls && Runs(t)[other].drained
      ensures Runs(t)[other].started <= Runs(t)[order[k]].started
    {
      ScannedClass(t, other);
      NotReadBefore(t, order, k, other);
      NotLater(t, order, k, other);
    }
  }

  lemma SeenIsHasRun(t: Table, order: seq<Id>, cls: RetentionClass)
    requires Sound(t) && Answers(t, order)
    ensures Seen(Scans(t, order), |order|, cls) <==> HasRun(Runs(t), cls)
    ensures SeenDrained(Scans(t, order), |order|, cls) <==> HasDrained(Runs(t), cls)
  {
    var rows := Scans(t, order);
    forall k | 0 <= k < |order|
      ensures order[k] in Runs(t) && Runs(t)[order[k]].cls == rows[k].cls
              && Runs(t)[order[k]].drained == rows[k].drained
    {
      ScannedRun(t, order[k]);
    }
    forall id | id in Runs(t)
      ensures exists k :: 0 <= k < |order| && order[k] == id
    {
      var k := PlaceOf(t, order, id);
    }
  }

  /** A sound table is read through without an error. */
  lemma AllReadable(t: Table, order: seq<Id>, k: nat)
    requires Sound(t) && Answers(t, order) && k < |order|
    ensures !Unreadable(Scans(t, order), k)
  {
    ScannedRun(t, order[k]);
  }

  lemma FoldedDescribes(t: Table, order: seq<Id>, cls: RetentionClass, snap: ClassSnapshot)
    requires Sound(t) && Answers(t, order) && ClassFolded(Scans(t, order), |order|, cls, snap)
    ensures Describes(Runs(t), cls, snap)
  {
    var rows := Scans(t, order);
    SeenIsHasRun(t, order, cls);
    FoldedLatest(t, order, cls, snap);
    if SeenDrained(rows, |order|, cls) {
      var k :| 0 <= k < |order| && FirstDrained(rows, k) && rows[k].cls == cls && snap.oldest == TimeOf(rows[k].oldest);
      FirstDrainedIsLatest(t, order, k);
      ScannedRun(t, order[k]);
    }
  }

  lemma FoldedLatest(t: Table, order: seq<Id>, cls: RetentionClass, snap: ClassSnapshot)
    requires Sound(t) && Answers(t, order) && ClassFolded(Scans(t, order), |order|, cls, snap)
    ensures exists id :: IsLatest(Runs(t), cls, id) && FromLatest(snap, Runs(t)[id])
  {
    var rows := Scans(t, order);
    var k :| 0 <= k < |order| && First(rows, k) && rows[k].cls == cls && LatestFields(snap, rows[k]);
    FirstIsLatest(t, order, k);
    ScannedRun(t, order[k]);
    assert FromLatest(snap, Runs(t)[order[k]]);
  }

  // ------------------------------------------------------------------ missed runs

  /** How many scheduled runs fell between the last completion and this start. */
  function Missed(gap: int, interval: int): nat
    requires interval > 0
  {
    // Go's division truncates; a negative gap gives no slots either way
    var slots := (if gap >= 0 then gap / interval else -(-gap / interval)) - 1;
    if slots > 0 then slots else 0
  }

  /** m runs were missed exactly when the gap spans m + 1 whole intervals and no more; under two intervals, none. */
  lemma MissedMeaning(gap: int, interval: int, m: nat)
    requires interval > 0
    ensures m > 0 ==> (Missed(gap, interval) == m <==> (m + 1) * interval <= gap < (m + 2) * interval)
    ensures Missed(gap, interval) == 0 <==> gap < 2 * interval
  {
    if gap >= 0 {
      var q := gap / interval;
      assert q * interval <= gap < (q + 1) * interval;
      if m > 0 && (m + 1) * interval <= gap < (m + 2) * interval {
        Arithmetic.DivModUnique(gap, interval, m + 1, gap - (m + 1) * interval);
      }
      if q >= 2 {
        Arithmetic.MulMonotone(2, q, interval);
      } else {
        Arithmetic.MulMonotone(q + 1, 2, interval);
      }
    } else {
      NegativeGap(gap, interval);
      Arithmetic.MulMonotone(0, m + 1, interval);
    }
  }

  lemma NegativeGap(gap: int, interval: int)
    requires interval > 0 && gap < 0
    ensures -(-gap / interval) <= 0
  {
  }

  // ---------------------------------------------------------------- the store

  /** NULL with drained is an empty class; a survivor without drained is refused by the table's own check. */
  predicate Checked(runs: map<Id, Run>) {
    forall id :: id in runs ==> runs[id].drained || runs[id].oldest.None?
  }

  predicate LastFinished(runs: map<Id, Run>, cls: RetentionClass, last: Option<Time>) {
    if last.None? then forall id :: id in runs && runs[id].cls == cls ==> runs[id].finished.None?
    else
      && (exists id :: id in runs && runs[id].cls == cls && runs[id].finished == last)
      && (forall id :: id in runs && runs[id].cls == cls && runs[id].finished.Some? ==>
            runs[id].finished.value <= last.value)
  }

  function MissedSince(last: Option<Time>, startedAt: Time, interval: int): nat {
    if last.None? || interval <= 0 then 0 else Missed(Sub(startedAt, last.value), interval)
  }

  /**
   A gap under two intervals missed no slot; one of m + 1 whole intervals missed m.  The
   gap is Go's, at most 2^63 - 1 nanoseconds.
   */
  predicate SlotsMissed(last: Option<Time>, startedAt: Time, interval: int, missed: nat) {
    if last.None? then missed == 0
    else
      var gap := Arithmetic.Min(startedAt - last.value, 0x7fff_ffff_ffff_ffff);
      if missed == 0 then gap < 2 * interval else (missed + 1) * interval <= gap < (missed + 2) * interval
  }

  lemma MissedSinceIs(last: Option<Time>, startedAt: Time, interval: int)
    requires interval > 0
    ensures SlotsMissed(last, startedAt, interval, MissedSince(last, startedAt, interval))
  {
    if last.Some? {
      var missed := MissedSince(last, startedAt, interval);
      MissedMeaning(Sub(startedAt, last.value), interval, missed);
    }
  }

  lemma WholeIntervals(last: Time, startedAt: Time, interval: int, k: nat, missed: nat)
    requires interval > 0 && k >= 1 && startedAt - last == k * interval <= 0x7fff_ffff_ffff_ffff
    ensures SlotsMissed(Some(last), startedAt, interval, missed) <==> missed == k - 1
  {
    if missed < k - 1 {
      Arithmetic.MulMonotone(missed + 2, k, interval);
    } else if missed > k - 1 {
      Arithmetic.MulMonotone(k + 1, missed + 1, interval);
    } else if missed == 0 {
      assert 1 * interval < 2 * interval;
    } else {
      assert (k + 1) * interval == k * interval + interval;
    }
  }

  /** A daily sweep last finished k days ago to the nanosecond has missed k - 1 of its slots: after one day, none. */
  lemma DailySlots(t: DateTime, k: nat, missed: nat)
    requires Valid(t) && DaysFit(t, k) && 1 <= k <= 106_751
    ensures SlotsMissed(Some(Instant(t)), Instant(DaysLater(t, k)), 24 * 60 * 60 * 1_000_000_000, missed)
       <==> missed == k - 1
  {
    DaysLaterIs(t, k);
    WholeIntervals(Instant(t), Instant(DaysLater(t, k)), 24 * 60 * 60 * 1_000_000_000, k, missed);
  }

  /** The runs missed since the class last finished one; none when the schedule is unknown. */
  ghost predicate MissedSinceLast(runs: map<Id, Run>, cls: RetentionClass, startedAt: Time, interval: int,
                                  missed: nat)
  {
    if interval <= 0 then missed == 0
    else exists last :: LastFinished(runs, cls, last) && SlotsMissed(last, startedAt, interval, missed)
  }

  predicate HasFinished(t: Table, cls: RetentionClass, id: Id) {
    match t
    case Native(rows) => id in rows && rows[id].cls == cls && rows[id].finished.Some?
    case Texts(texts) => id in texts && texts[id].cls == cls && texts[id].finished.Some?
  }

  /** ORDER BY finished_at DESC LIMIT 1 compares values on Postgres and texts on SQLite. */
  predicate FinishesBefore(t: Table, cls: RetentionClass, a: Id, b: Id)
    requires HasFinished(t, cls, a) && HasFinished(t, cls, b)
  {
    match t
    case Native(rows) => Instant(rows[a].finished.value) < Instant(rows[b].finished.value)
    case Texts(texts) => Before(texts[a].finished.value, texts[b].finished.value)
  }

  lemma FinishesBeforeIsEarlier(t: Table, cls: RetentionClass, a: Id, b: Id)
    requires Sound(t) && HasFinished(t, cls, a) && HasFinished(t, cls, b)
    ensures Runs(t)[a].finished.Some? && Runs(t)[b].finished.Some?
    ensures FinishesBefore(t, cls, a, b) <==> Runs(t)[a].finished.value < Runs(t)[b].finished.value
  {
    if t.Texts? {
      var x, y := t.texts[a], t.texts[b];
      assert SoundRow(x) && SoundRow(y);
      TextOrder(x.finished.value, y.finished.value);
      assert Runs(t)[a].finished == Some(InstantOf(x.finished.value));
      assert Runs(t)[b].finished == Some(InstantOf(y.finished.value));
    }
  }

  lemma FinishesIrreflexive(t: Table, cls: RetentionClass, a: Id)
    requires HasFinished(t, cls, a)
    ensures !FinishesBefore(t, cls, a, a)
  {
    if t.Texts? {
      BeforeIrreflexive(t.texts[a].finished.value);
    }
  }

  lemma FinishesChain(t: Table, cls: RetentionClass, a: Id, b: Id, c: Id)
    requires HasFinished(t, cls, a) && HasFinished(t, cls, b) && HasFinished(t, cls, c)
    requires FinishesBefore(t, cls, b, c) && !FinishesBefore(t, cls, b, a)
    ensures !FinishesBefore(t, cls, c, a)
  {
    if t.Texts? {
      var x, y, z := t.texts[a].finished.value, t.texts[b].finished.value, t.texts[c].finished.value;
      if Before(z, x) {
        BeforeTransitive(y, z, x);
      }
    }
  }

  /** The row the query keeps among those seen. */
  ghost predicate Greatest(t: Table, cls: RetentionClass, seen: set<Id>, best: Option<Id>) {
    if best.None? then forall id :: id in seen ==> !HasFinished(t, cls, id)
    else
      && HasFinished(t, cls, best.value)
      && forall id :: id in seen && HasFinished(t, cls, id) ==> !FinishesBefore(t, cls, best.value, id)
  }

  function Better(t: Table, cls: RetentionClass, best: Option<Id>, id: Id): Option<Id>
    requires best.Some? ==> HasFinished(t, cls, best.value)
  {
    if HasFinished(t, cls, id) && (best.None? || FinishesBefore(t, cls, best.value, id)) then Some(id) else best
  }

  lemma GreatestMore(t: Table, cls: RetentionClass, seen: set<Id>, best: Option<Id>, id: Id)
    requires Greatest(t, cls, seen, best)
    ensures Greatest(t, cls, seen + {id}, Better(t, cls, best, id))
  {
    if HasFinished(t, cls, id) {
      FinishesIrreflexive(t, cls, id);
      if best.Some? && FinishesBefore(t, cls, best.value, id) {
        forall other | other in seen && HasFinished(t, cls, other)
          ensures !FinishesBefore(t, cls, id, other)
        {
          FinishesChain(t, cls, other, best.value, id);
        }
      }
    }
  }

  lemma HasFinishedRuns(t: Table, cls: RetentionClass, id: Id)
    ensures HasFinished(t, cls, id) <==> id in Runs(t) && Runs(t)[id].cls == cls && Runs(t)[id].finished.Some?
  {
  }

  lemma GreatestIsLast(t: Table, cls: RetentionClass, id: Id)
    requires Sound(t) && HasFinished(t, cls, id)
    requires Greatest(t, cls, Ids(t), Some(id))
    ensures LastFinished(Runs(t), cls, Runs(t)[id].finished)
  {
    HasFinishedRuns(t, cls, id);
    forall other | other in Runs(t) && Runs(t)[other].cls == cls && Runs(t)[other].finished.Some?
      ensures Runs(t)[other].finished.value <= Runs(t)[id].finished.value
    {
      HasFinishedRuns(t, cls, other);
      FinishesBeforeIsEarlier(t, cls, id, other);
    }
  }

  function StartedRun<T>(cls: RetentionClass, startedAt: T, missed: nat): Record<T> {
    Record(cls, startedAt, None, 0, 0, None, false, missed)
  }

  function FinishedRun<T>(row: Record<T>, finishedAt: T, examined: int, deleted: int, drained: bool,
                          oldest: Option<T>): Record<T>
  {
    row.(finished := Some(finishedAt), examined := examined, deleted := deleted, drained := drained, oldest := oldest)
  }

  /** A row written to the table, each backend in its own representation. */
  function Put(t: Table, id: Id, row: Record<DateTime>): Table {
    match t
    case Native(rows) => Native(rows[id := row])
    case Texts(texts) => Texts(texts[id := TextOf(row)])
  }

  lemma PutRuns(t: Table, id: Id, row: Record<DateTime>)
    requires Sound(t) && ValidRow(row)
    ensures Sound(Put(t, id, row)) && Runs(Put(t, id, row)) == Runs(t)[id := MomentsOf(row)]
  {
    match t
    case Native(rows) =>
    case Texts(texts) =>
      RunOfText(row);
      TextsUpdated(texts, id, TextOf(row));
  }

  lemma StartPut(t: Table, id: Id, row: Record<DateTime>)
    requires ValidRow(row) && row.oldest.None?
    ensures Sound(t) ==> Sound(Put(t, id, row)) && Runs(Put(t, id, row)) == Runs(t)[id := MomentsOf(row)]
    ensures Checked(Runs(t)) ==> Checked(Runs(Put(t, id, row)))
  {
    if Sound(t) {
      PutRuns(t, id, row);
    }
  }

  lemma RunsUpdated(texts: map<Id, Record<string>>, id: Id, row: Record<string>)
    ensures Runs(Texts(texts[id := row])) == Runs(Texts(texts))[id := RunOf(row)]
  {
  }

  lemma TextsUpdated(texts: map<Id, Record<string>>, id: Id, row: Record<string>)
    requires SoundRow(row) && Sound(Texts(texts))
    ensures Sound(Texts(texts[id := row])) && Runs(Texts(texts[id := row])) == Runs(Texts(texts))[id := RunOf(row)]
  {
    RunsUpdated(texts, id, row);
  }

  lemma NoneFinished(t: Table, cls: RetentionClass)
    requires Greatest(t, cls, Ids(t), None)
    ensures LastFinished(Runs(t), cls, None)
  {
    forall id | id in Runs(t) && Runs(t)[id].cls == cls
      ensures Runs(t)[id].finished.None?
    {
      HasFinishedRuns(t, cls, id);
    }
  }

  /** The column read back from the row kept. */
  lemma LastColumn(t: Table, cls: RetentionClass, id: Id)
    requires Greatest(t, cls, Ids(t), Some(id))
    ensures Sound(t) ==> LastFinished(Runs(t), cls, Runs(t)[id].finished)
    ensures Sound(t) && t.Texts? ==>
              Parse(t.texts[id].finished.value).Some? && Runs(t)[id].finished == Parse(t.texts[id].finished.value)
  {
    if Sound(t) {
      GreatestIsLast(t, cls, id);
      if t.Texts? {
        ColumnRead(t.texts[id].finished.value);
      }
    }
  }

  function Finish(t: Table, id: Id, finishedAt: DateTime, examined: int, deleted: int, drained: bool,
                  oldest: Option<DateTime>): Table
    requires id in Ids(t)
  {
    match t
    case Native(rows) =>
      Native(rows[id := FinishedRun(rows[id], Kept(true, finishedAt), examined, deleted, drained,
                                    KeptOpt(true, oldest))])
    case Texts(texts) =>
      Texts(texts[id := FinishedRun(texts[id], Encode(finishedAt), examined, deleted, drained, EncodeOpt(oldest))])
  }

  lemma FinishedText(row: Record<string>, finishedAt: DateTime, examined: int, deleted: int, drained: bool,
                     oldest: Option<DateTime>)
    requires SoundRow(row) && Valid(finishedAt) && ValidOpt(oldest)
    ensures var text := FinishedRun(row, Encode(finishedAt), examined, deleted, drained, EncodeOpt(oldest));
            && SoundRow(text)
            && RunOf(text)
               == FinishedRun(RunOf(row), Instant(finishedAt), examined, deleted, drained, Moments(oldest))
  {
    WrittenInstant(finishedAt);
    if oldest.Some? {
      WrittenInstant(oldest.value);
    }
  }

  lemma FinishedRuns(t: Table, id: Id, finishedAt: DateTime, examined: int, deleted: int, drained: bool,
                     oldest: Option<DateTime>)
    requires Sound(t) && id in Ids(t) && Valid(finishedAt) && ValidOpt(oldest)
    ensures Sound(Finish(t, id, finishedAt, examined, deleted, drained, oldest))
    ensures Runs(Finish(t, id, finishedAt, examined, deleted, drained, oldest))
         == Runs(t)[id := FinishedRun(Runs(t)[id], Instant(Kept(t.Native?, finishedAt)), examined, deleted, drained,
                                      Moments(KeptOpt(t.Native?, oldest)))]
  {
    match t
    case Native(rows) =>
    case Texts(texts) =>
      FinishedText(texts[id], finishedAt, examined, deleted, drained, oldest);
      TextsUpdated(texts, id, FinishedRun(texts[id], Encode(finishedAt), examined, deleted, drained,
                                          EncodeOpt(oldest)));
  }

  lemma FinishChecked(t: Table, id: Id, finishedAt: DateTime, examined: int, deleted: int, drained: bool,
                      oldest: Option<DateTime>)
    requires id in Ids(t) && (drained || oldest.None?)
    ensures Checked(Runs(t)) ==> Checked(Runs(Finish(t, id, finishedAt, examined, deleted, drained, oldest)))
  {
  }

  /** The runs that started no earlier than the cutoff. */
  function Recent(runs: map<Id, Run>, cutoff: Time): map<Id, Run> {
    map id | id in runs && cutoff <= runs[id].started :: runs[id]
  }

  function Pruned(t: Table, cutoff: DateTime): Table {
    match t
    case Native(rows) => Native(map id | id in rows
                                && !(Instant(rows[id].started) < Instant(Kept(true, cutoff))) :: rows[id])
    case Texts(texts) => Texts(map id | id in texts && !Before(texts[id].started, Encode(cutoff)) :: texts[id])
  }

  lemma KeptTextRuns(texts: map<Id, Record<string>>, kept: map<Id, Record<string>>, cutoff: Time)
    requires Sound(Texts(texts)) && kept.Keys <= texts.Keys && forall id :: id in kept ==> kept[id] == texts[id]
    requires forall id :: id in texts ==> (id in kept <==> cutoff <= RunOf(texts[id]).started)
    ensures Sound(Texts(kept)) && Runs(Texts(kept)) == Recent(Runs(Texts(texts)), cutoff)
  {
    KeptRuns(texts, kept, cutoff);
  }

  lemma KeptRuns(texts: map<Id, Record<string>>, kept: map<Id, Record<string>>, cutoff: Time)
    requires kept.Keys <= texts.Keys && forall id :: id in kept ==> kept[id] == texts[id]
    requires forall id :: id in texts ==> (id in kept <==> cutoff <= RunOf(texts[id]).started)
    ensures Runs(Texts(kept)) == Recent(Runs(Texts(texts)), cutoff)
  {
    var runs, recent := Runs(Texts(kept)), Recent(Runs(Texts(texts)), cutoff);
    assert forall id :: id in runs ==> id in recent && runs[id] == recent[id];
  }

  lemma TextPruned(texts: map<Id, Record<string>>, cutoff: DateTime)
    requires Sound(Texts(texts)) && Valid(cutoff)
    ensures forall id :: id in texts ==>
              (Before(texts[id].started, Encode(cutoff)) <==> InstantOf(texts[id].started) < Instant(cutoff))
  {
    WrittenInstant(cutoff);
    forall id | id in texts
      ensures Before(texts[id].started, Encode(cutoff)) <==> InstantOf(texts[id].started) < Instant(cutoff)
    {
      TextOrder(texts[id].started, Encode(cutoff));
    }
  }

  /** The text comparison drops exactly the rows the time comparison would. */
  lemma PrunedRuns(t: Table, cutoff: DateTime)
    requires Sound(t) && Valid(cutoff)
    ensures Sound(Pruned(t, cutoff)) && Runs(Pruned(t, cutoff)) == Recent(Runs(t), Instant(Kept(t.Native?, cutoff)))
  {
    match t
    case Native(rows) =>
    case Texts(texts) =>
      TextPruned(texts, cutoff);
      KeptTextRuns(texts, Pruned(t, cutoff).texts, Instant(cutoff));
  }

  lemma FoldMeans(t: Table, order: seq<Id>, byClass: map<RetentionClass, ClassSnapshot>)
    requires Answers(t, order)
    requires exists drained :: Gathered(Scans(t, order), |order|, byClass, drained)
    ensures forall cls :: cls in byClass ==> byClass[cls].cls == cls
    ensures Sound(t) ==> forall cls :: cls in byClass ==> Describes(Runs(t), cls, byClass[cls])
    ensures Sound(t) ==> forall cls :: HasRun(Runs(t), cls) <==> cls in byClass
  {
    var drained :| Gathered(Scans(t, order), |order|, byClass, drained);
    forall cls | cls in byClass
      ensures byClass[cls].cls == cls && (Sound(t) ==> Describes(Runs(t), cls, byClass[cls]))
    {
      assert GatheredFor(Scans(t, order), |order|, byClass, drained, cls);
      if Sound(t) {
        FoldedDescribes(t, order, cls, byClass[cls]);
      }
    }
    if Sound(t) {
      forall cls
        ensures HasRun(Runs(t), cls) <==> cls in byClass
      {
        assert GatheredFor(Scans(t, order), |order|, byClass, drained, cls);
        SeenIsHasRun(t, order, cls);
      }
    }
  }

  /** The snapshots, in any order. */
  method ValuesOf(byClass: map<RetentionClass, ClassSnapshot>) returns (out: seq<ClassSnapshot>)
    requires forall cls :: cls in byClass ==> byClass[cls].cls == cls
    ensures forall i, j :: 0 <= i < j < |out| ==> out[i].cls != out[j].cls
    ensures forall snap :: snap in out <==> snap.cls in byClass && byClass[snap.cls] == snap
  {
    out := [];
    var pending := byClass.Keys;
    while pending != {}
      invariant pending <= byClass.Keys
      invariant forall i, j :: 0 <= i < j < |out| ==> out[i].cls != out[j].cls
      invariant forall snap :: snap in out <==> snap.cls in byClass.Keys - pending && byClass[snap.cls] == snap
      decreases pending
    {
      var cls :| cls in pending;
      pending := pending - {cls};
      assert forall i :: 0 <= i < |out| ==> out[i] in out;
      out := out + [byClass[cls]];
    }
  }

  class Store {
    var table: Table

    constructor (table: Table)
      ensures this.table == table
    {
      this.table := table;
    }

    method GreatestFinished(cls: RetentionClass) returns (best: Option<Id>)
      ensures Greatest(table, cls, Ids(table), best)
    {
      var pending := Ids(table);
      best := None;
      while pending != {}
        invariant pending <= Ids(table) && Greatest(table, cls, Ids(table) - pending, best)
        decreases pending
      {
        var id :| id in pending;
        GreatestMore(table, cls, Ids(table) - pending, best, id);
        assert Ids(table) - pending + {id} == Ids(table) - (pending - {id});
        pending := pending - {id};
        best := Better(table, cls, best, id);
      }
      assert Ids(table) - pending == Ids(table);
    }

    method LastFinishedAt(cls: RetentionClass, lost: bool) returns (r: Result<Option<Time>, StoreError>)
      ensures lost ==> r.Err?
      ensures Sound(table) && !lost ==> r.Ok? && LastFinished(Runs(table), cls, r.value)
    {
      if lost {
        return Err(Lost);
      }
      var best := GreatestFinished(cls);
      if best.None? {
        NoneFinished(table, cls);
        return Ok(None);
      }
      LastColumn(table, cls, best.value);
      if table.Native? {
        return Ok(Moments(table.rows[best.value].finished));
      }
      var t := Parse(table.texts[best.value].finished.value);
      return if t.None? then Err(Malformed) else Ok(t);
    }

    /** The first write of a run: a row with nothing finished, and how many scheduled runs it comes after. */
    method StartRun(id: Id, cls: RetentionClass, startedAt: DateTime, interval: int, unread: bool, lost: bool)
      returns (r: Result<nat, StoreError>)
      requires Valid(startedAt)
      modifies this
      ensures table.Native? == old(table).Native? && (r.Err? ==> table == old(table))
      ensures lost || id in Ids(old(table)) || !Known(cls) ==> r.Err?
      ensures Sound(old(table)) && !unread && !lost && id !in Ids(old(table)) && Known(cls) ==> r.Ok?
      ensures r.Ok? ==> id !in Runs(old(table))
      ensures r.Ok? && Sound(old(table)) ==>
                && Sound(table)
                && var kept := if table.Native? then Instant(startedAt) / 1000 * 1000 else Instant(startedAt);
                   Runs(table) == Runs(old(table))[id := Record(cls, kept, None, 0, 0, None, false, r.value)]
      ensures r.Ok? && interval <= 0 ==> r.value == 0
      ensures r.Ok? && Sound(old(table)) ==>
                MissedSinceLast(Runs(old(table)), cls, Instant(startedAt), interval, r.value)
      ensures Checked(Runs(old(table))) ==> Checked(Runs(table))
    {
      var last: Option<Time> := None;
      if interval > 0 {
        var found := LastFinishedAt(cls, unread);
        if found.Err? {
          return Err(found.error);
        }
        last := found.value;
      }
      var missedSlots := MissedSince(last, Instant(startedAt), interval);
      if interval > 0 {
        MissedSinceIs(last, Instant(startedAt), interval);
      }
      if lost || id in Ids(table) || !Known(cls) {
        return Err(if lost then Lost else CheckFailed);
      }
      KeptIs(table.Native?, startedAt);
      ghost var row := StartedRun(cls, Kept(table.Native?, startedAt), missedSlots);
      StartPut(table, id, row);
      table := Put(table, id, StartedRun(cls, Kept(table.Native?, startedAt), missedSlots));
      return Ok(missedSlots);
    }

    /** The second write: it fills in the row of the run, if there is one, unless the table's check refuses it. */
    method FinishRun(id: Id, finishedAt: DateTime, examined: int, deleted: int, drained: bool,
                     oldest: Option<DateTime>, lost: bool)
      returns (r: Result<(), StoreError>)
      requires Valid(finishedAt) && ValidOpt(oldest)
      modifies this
      ensures table.Native? == old(table).Native? && (r.Err? ==> table == old(table))
      ensures r.Ok? <==> !lost && !(id in Ids(old(table)) && !drained && oldest.Some?)
      ensures r.Ok? && id !in Ids(old(table)) ==> table == old(table)
      ensures r.Ok? && Sound(old(table)) && id in Ids(old(table)) ==>
                && Sound(table)
                && Runs(table) == Runs(old(table))[id := FinishedRun(Runs(old(table))[id],
                                                                     Instant(Kept(old(table).Native?, finishedAt)),
                                                                     examined, deleted, drained,
                                                                     Moments(KeptOpt(old(table).Native?, oldest)))]
                && var was, now := Runs(old(table))[id], Runs(table)[id];
                   && now.cls == was.cls && now.started == was.started && now.missed == was.missed
                   && now.finished == Some(if table.Native? then Instant(finishedAt) / 1000 * 1000
                                           else Instant(finishedAt))
                   && now.examined == examined && now.deleted == deleted && now.drained == drained
                   && (now.oldest.Some? <==> oldest.Some?)
                   && (oldest.Some? ==> now.oldest.value == if table.Native? then Instant(oldest.value) / 1000 * 1000
                                                            else Instant(oldest.value))
      ensures Checked(Runs(old(table))) ==> Checked(Runs(table))
    {
      if lost {
        return Err(Lost);
      }
      if id !in Ids(table) {
        return Ok(());
      }
      if !drained && oldest.Some? {
        return Err(CheckFailed);
      }
      if Sound(table) {
        FinishedRuns(table, id, finishedAt, examined, deleted, drained, oldest);
      }
      KeptIs(table.Native?, finishedAt);
      if oldest.Some? {
        KeptIs(table.Native?, oldest.value);
      }
      FinishChecked(table, id, finishedAt, examined, deleted, drained, oldest);
      table := Finish(table, id, finishedAt, examined, deleted, drained, oldest);
      return Ok(());
    }

    /** Rows that started before the cutoff, as each backend compares the two, are gone. */
    method PruneOlderThan(cutoff: DateTime, lost: bool) returns (r: Result<(), StoreError>)
      requires Valid(cutoff)
      modifies this
      ensures r.Ok? <==> !lost
      ensures table.Native? == old(table).Native? && (r.Err? ==> table == old(table))
      ensures r.Ok? && Sound(old(table)) ==>
                Sound(table) && Runs(table) == Recent(Runs(old(table)), Instant(Kept(old(table).Native?, cutoff)))
      ensures r.Ok? && Sound(old(table)) ==>
                var kept := if table.Native? then Instant(cutoff) / 1000 * 1000 else Instant(cutoff);
                forall id :: id in Runs(table) <==> id in Runs(old(table)) && kept <= Runs(old(table))[id].started
      ensures Checked(Runs(old(table))) ==> Checked(Runs(table))
    {
      if lost {
        return Err(Lost);
      }
      KeptIs(table.Native?, cutoff);
      if Sound(table) {
        PrunedRuns(table, cutoff);
      }
      table := Pruned(table, cutoff);
      return Ok(());
    }

    /** One snapshot for each class that has a run, none for a class that has none; a sound table never fails it. */
    method LatestSnapshots(lost: bool) returns (r: Result<seq<ClassSnapshot>, StoreError>)
      ensures lost ==> r.Err?
      ensures Sound(table) && !lost ==> r.Ok?
      ensures r.Ok? ==> forall i, j :: 0 <= i < j < |r.value| ==> r.value[i].cls != r.value[j].cls
      ensures r.Ok? && Sound(table) ==> forall snap :: snap in r.value ==> Describes(Runs(table), snap.cls, snap)
      ensures r.Ok? && Sound(table) ==>
                forall cls :: HasRun(Runs(table), cls) <==> exists snap :: snap in r.value && snap.cls == cls
    {
      if lost {
        return Err(Lost);
      }
      var order := OrderByStart(table);
      var rows := Scans(table, order);
      var folded := Fold(rows);
      if folded.Err? {
        if Sound(table) {
          ghost var k :| 0 <= k < |rows| && Unreadable(rows, k);
          AllReadable(table, order, k);
        }
        return Err(Malformed);
      }
      var byClass := folded.value;
      FoldMeans(table, order, byClass);
      var out := ValuesOf(byClass);
      return Ok(out);
    }
  }

  // --------------------------------------------------------- across the writes

  /** No row started at or after the cutoff asked for is pruned; what Postgres keeps is at most a microsecond more. */
  lemma NeverPrunedEarly(native: bool, startedAt: DateTime, cutoff: DateTime)
    requires Valid(startedAt) && Valid(cutoff)
    ensures Instant(Kept(native, startedAt)) < Instant(Kept(native, cutoff)) ==> Instant(startedAt) < Instant(cutoff)
    ensures Instant(startedAt) < Instant(cutoff) ==>
              Instant(Kept(native, startedAt)) < Instant(Kept(native, cutoff))
                || Instant(cutoff) - Instant(startedAt) < 1000
  {
    KeptOrder(native, startedAt, cutoff);
  }

  /**
   A run that starts after every other of its class takes over the class's latest
   fields, finished or not; the survivor follows it only if it drained, and is
   otherwise still that of the last run that did.  No other class's snapshot moves.
   */
  lemma NewestRunShows(runs: map<Id, Run>, id: Id, run: Run, snap: ClassSnapshot)
    requires id in runs ==> runs[id].cls == run.cls && !runs[id].drained
    requires forall other :: other in runs && other != id && runs[other].cls == run.cls ==>
               runs[other].started < run.started
    requires Describes(runs[id := run], run.cls, snap)
    ensures FromLatest(snap, run)
    ensures run.drained ==> snap.oldest == run.oldest
    ensures !run.drained ==>
              if HasDrained(runs, run.cls) then
                exists other :: IsLatestDrained(runs, run.cls, other) && snap.oldest == runs[other].oldest
              else snap.oldest == None
  {
    var now := runs[id := run];
    assert now[id] == run;
    var latest :| IsLatest(now, run.cls, latest) && FromLatest(snap, now[latest]);
    assert latest == id;
    if run.drained {
      assert HasDrained(now, run.cls);
    } else {
      UndrainedKeepsDrained(runs, id, run);
      if HasDrained(runs, run.cls) {
        var other :| IsLatestDrained(now, run.cls, other) && snap.oldest == now[other].oldest;
        assert IsLatestDrained(runs, run.cls, other);
      }
    }
  }

  lemma UndrainedKeepsDrained(runs: map<Id, Run>, id: Id, run: Run)
    requires !run.drained && (id in runs ==> !runs[id].drained)
    ensures HasDrained(runs[id := run], run.cls) <==> HasDrained(runs, run.cls)
    ensures forall other :: IsLatestDrained(runs[id := run], run.cls, other) <==> IsLatestDrained(runs, run.cls, other)
  {
    var now := runs[id := run];
    if HasDrained(runs, run.cls) {
      var other :| other in runs && runs[other].cls == run.cls && runs[other].drained;
      assert now[other] == runs[other];
    }
    if HasDrained(now, run.cls) {
      var other :| other in now && now[other].cls == run.cls && now[other].drained;
      assert now[other] == runs[other];
    }
    assert forall k :: k in now && now[k].drained ==> k in runs && runs[k] == now[k];
    assert forall k :: k in runs && runs[k].drained ==> k in now && runs[k] == now[k];
  }

  /** Pruning leaves a class's snapshot alone while a drained run of it is young enough to stay. */
  lemma PruneKeepsSnapshot(runs: map<Id, Run>, cutoff: Time, cls: RetentionClass, id: Id, snap: ClassSnapshot)
    requires id in runs && runs[id].cls == cls && runs[id].drained && cutoff <= runs[id].started
    requires Describes(runs, cls, snap)
    ensures Describes(Recent(runs, cutoff), cls, snap)
  {
    var kept := Recent(runs, cutoff);
    assert id in kept;
    var latest :| IsLatest(runs, cls, latest) && FromLatest(snap, runs[latest]);
    assert IsLatest(kept, cls, latest);
    var drained :| IsLatestDrained(runs, cls, drained) && snap.oldest == runs[drained].oldest;
    assert IsLatestDrained(kept, cls, drained);
  }

  /** The run that started after every other of its class. */
  ghost predicate Newest(runs: map<Id, Run>, id: Id) {
    && id in runs
    && forall other :: other in runs && other != id && runs[other].cls == runs[id].cls ==>
         runs[other].started < runs[id].started
  }

  /** A class whose newest run drained shows that run and its survivor. */
  lemma NewestDrainedShows(runs: map<Id, Run>, id: Id, snap: ClassSnapshot)
    requires Newest(runs, id) && runs[id].drained && Describes(runs, runs[id].cls, snap)
    ensures FromLatest(snap, runs[id]) && snap.oldest == runs[id].oldest
  {
    var others := runs - {id};
    assert others[id := runs[id]] == runs;
    NewestRunShows(others, id, runs[id], snap);
  }

  lemma NewestStays(runs: map<Id, Run>, id: Id, other: Id, run: Run)
    requires Newest(runs, id) && other != id && run.cls != runs[id].cls
    ensures Newest(runs[other := run], id)
  {
  }

  lemma NewestNotPruned(runs: map<Id, Run>, id: Id, cutoff: Time)
    requires Newest(runs, id) && cutoff <= runs[id].started
    ensures Newest(Recent(runs, cutoff), id) && Recent(runs, cutoff)[id] == runs[id]
  {
  }
}
