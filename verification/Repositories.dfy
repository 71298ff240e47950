/**
 The two DeleteExpired implementations: one set-level statement on Postgres
 (internal/dao/postgres/composite.go), select then delete row by row over text
 timestamps on SQLite (internal/dao/sqlite/composite.go).
 */
module Repositories {
  import opened Arithmetic
  import opened Collections
  import opened Outcomes
  import opened Text
  import opened Timestamps
  import opened Retention

  /** LIMIT without ORDER BY: any rows at all, as many as there are up to the limit. */
  method Limit(rows: set<Id>, n: nat) returns (order: seq<Id>)
    ensures Distinct(order) && Members(order) <= rows && |order| == Min(n, |rows|)
  {
    order := [];
    var left := rows;
    while left != {} && |order| < n
      invariant Distinct(order) && Members(order) + left == rows && Members(order) !! left
      invariant |order| + |left| == |rows| && |order| <= n
      decreases left
    {
      var id :| id in left;
      MembersConcat(order, [id]);
      assert Members([id]) == {id};
      DistinctConcat(order, [id]);
      order, left := order + [id], left - {id};
    }
  }

  // ---------------------------------------------------------------- Postgres

  /** A timestamp parameter keeps microseconds. */
  function Micros(t: Retention.Time): (kept: Retention.Time)
    ensures kept <= t < kept + 1000
  {
    t / 1000 * 1000
  }

  class PostgresRepository {
    var db: Db

    constructor (db: Db)
      ensures this.db == db
    {
      this.db := db;
    }

    /** The oldest clock value left in the class: SELECT MIN(clock). */
    method Oldest(cls: RetentionClass) returns (oldest: Option<Retention.Time>)
      ensures OldestIs(db, cls, oldest)
    {
      oldest := None;
      var pending := db.profiles.Keys;
      while pending != {}
        invariant pending <= db.profiles.Keys
        invariant oldest.None? ==> forall id :: id in db.profiles.Keys - pending ==> !InClass(db, cls, id)
        invariant oldest.Some? ==>
          exists id :: id in db.profiles && InClass(db, cls, id) && Clock(cls, db.profiles[id]) == oldest.value
        invariant oldest.Some? ==> forall id :: id in db.profiles.Keys - pending && InClass(db, cls, id) ==>
          oldest.value <= Clock(cls, db.profiles[id])
        decreases pending
      {
        var id :| id in pending;
        pending := pending - {id};
        if InClass(db, cls, id) && (oldest.None? || Clock(cls, db.profiles[id]) < oldest.value) {
          oldest := Some(Clock(cls, db.profiles[id]));
        }
      }
    }

    /** The DELETE's own condition, checked again on each row found. */
    method Recheck(found: seq<Id>, checked: Db, cls: RetentionClass, cutoff: Retention.Time) returns (still: seq<Id>)
      requires Distinct(found)
      ensures Distinct(still) && Members(still) == Members(found) * Expired(checked, cls, cutoff)
    {
      still := [];
      for i := 0 to |found|
        invariant Distinct(still) && Members(still) == Members(found[..i]) * Expired(checked, cls, cutoff)
      {
        MembersSnoc(found[..i + 1]);
        assert found[..i + 1][..i] == found[..i];
        if found[i] in Expired(checked, cls, cutoff) {
          MembersConcat(still, [found[i]]);
          assert Members([found[i]]) == {found[i]};
          DistinctConcat(still, [found[i]]);
          still := still + [found[i]];
        }
      }
      assert found[..|found|] == found;
    }

    /**
     `meanwhile` is what other transactions have made of the tables by the time the
     statement deletes.  A connection `lost` before the statement or at any step after
     it leaves nothing of this transaction behind.
     */
    method DeleteExpired(cls: RetentionClass, olderThan: DateTime, maxRows: int, meanwhile: Db, lost: Option<nat>)
      returns (r: Result<SweepResult, DaoError>, ghost found: seq<Id>, ghost order: seq<Id>)
      modifies this
      ensures maxRows < 1 || maxRows > 10_000 || !Known(cls) <==> r == Err(InvalidArgument)
      ensures r.Err? ==> db == (if r.error == InvalidArgument || lost == Some(0) then old(db) else meanwhile)
      ensures r.Err? && r.error == Failed <==> 1 <= maxRows <= 10_000 && Known(cls) && lost.Some?
      ensures r.Ok? ==>
                && lost.None?
                && BusyBatch(old(db), meanwhile, cls, Micros(Instant(olderThan)), maxRows, found, order, db, r.value)
    {
      found, order := [], [];
      if maxRows < 1 || maxRows > MAX_BATCH || !Known(cls) {
        return Err(InvalidArgument), found, order;
      }
      if lost == Some(0) {
        return Err(Failed), found, order;
      }
      var cutoff := Micros(Instant(olderThan));
      var candidates := Limit(Expired(db, cls, cutoff), maxRows);
      var removed := Recheck(candidates, Rechecked(db, meanwhile), cls, cutoff);
      db := Deleted(meanwhile, cls, removed);
      var oldest := Oldest(cls);
      if lost.Some? {
        db := meanwhile;
        return Err(Failed), found, order;
      }
      found, order := candidates, removed;
      return Ok(SweepResult(|candidates|, |removed|, oldest, |candidates| < maxRows)), found, order;
    }
  }

  // ------------------------------------------------------------------ SQLite

  /** A profile row as SQLite stores it: timestamps are whole-second texts. */
  datatype TextRow = TextRow(source: Source, created: string, updated: string)

  /** SQLite's tables. */
  datatype TextDb = TextDb(rows: map<Id, TextRow>, credentials: map<string, Id>, log: seq<LogRow>)

  /** The times a profile was really created and last updated. */
  datatype Times = Times(created: DateTime, updated: DateTime)

  /** A text the repository wrote. */
  ghost predicate WellWrittenSecond(s: string) {
    exists t :: Valid(t) && s == EncodeSecond(t)
  }

  /** The moment a stored text stands for; texts that do not parse, which Sound excludes, count as 0. */
  function SecondOf(s: string): Retention.Time {
    var t := ParseSecond(s);
    if t.Some? then t.value else 0
  }

  function TextClock(cls: RetentionClass, row: TextRow): string {
    if cls.IdpCacheOrphan? then row.created else row.updated
  }

  function TrueClock(cls: RetentionClass, times: Times): DateTime {
    if cls.IdpCacheOrphan? then times.created else times.updated
  }

  lemma WrittenSecond(t: DateTime)
    requires Valid(t)
    ensures WellWrittenSecond(EncodeSecond(t))
    ensures ParseSecond(EncodeSecond(t)).Some? && SecondOf(EncodeSecond(t)) == Seconds(t) * NANOS
  {
    ParseEncodeSecond(t);
  }

  lemma WrittenParses(s: string)
    requires WellWrittenSecond(s)
    ensures ParseSecond(s) == Some(SecondOf(s))
  {
    var t :| Valid(t) && s == EncodeSecond(t);
    WrittenSecond(t);
  }

  /** Comparing stored texts compares the moments they stand for. */
  lemma SecondTextOrder(a: string, b: string)
    requires WellWrittenSecond(a) && WellWrittenSecond(b)
    ensures Before(a, b) <==> SecondOf(a) < SecondOf(b)
  {
    var t :| Valid(t) && a == EncodeSecond(t);
    var u :| Valid(u) && b == EncodeSecond(u);
    WrittenSecond(t);
    WrittenSecond(u);
    EncodeSecondOrder(t, u);
  }

  ghost predicate Sound(t: TextDb) {
    forall id :: id in t.rows ==> WellWrittenSecond(t.rows[id].created) && WellWrittenSecond(t.rows[id].updated)
  }

  /** Every row was written from its profile's true times. */
  ghost predicate WrittenFrom(t: TextDb, truth: map<Id, Times>) {
    && t.rows.Keys <= truth.Keys
    && forall id {:trigger RowWritten(t, truth, id)} :: id in t.rows ==> RowWritten(t, truth, id)
  }

  ghost predicate RowWritten(t: TextDb, truth: map<Id, Times>, id: Id)
    requires id in t.rows && id in truth
  {
    && Valid(truth[id].created) && Valid(truth[id].updated)
    && t.rows[id].created == EncodeSecond(truth[id].created)
    && t.rows[id].updated == EncodeSecond(truth[id].updated)
  }

  lemma WrittenIsSound(t: TextDb, truth: map<Id, Times>)
    requires WrittenFrom(t, truth)
    ensures Sound(t)
  {
    forall id | id in t.rows
      ensures WellWrittenSecond(t.rows[id].created) && WellWrittenSecond(t.rows[id].updated)
    {
      assert RowWritten(t, truth, id);
    }
  }

  function RowOf(row: TextRow): Row {
    Row(row.source, SecondOf(row.created), SecondOf(row.updated))
  }

  /** The tables the texts stand for. */
  function Abs(t: TextDb): Db {
    Db(map id | id in t.rows :: RowOf(t.rows[id]), t.credentials, t.log)
  }

  function TrueRow(row: TextRow, times: Times): Row {
    Row(row.source, Instant(times.created), Instant(times.updated))
  }

  function TrueRows(rows: map<Id, TextRow>, truth: map<Id, Times>): map<Id, Row>
    requires rows.Keys <= truth.Keys
  {
    map id | id in rows :: TrueRow(rows[id], truth[id])
  }

  /** The tables as they truly are. */
  ghost function TrueDb(t: TextDb, truth: map<Id, Times>): Db
    requires WrittenFrom(t, truth)
  {
    Db(TrueRows(t.rows, truth), t.credentials, t.log)
  }

  predicate Qualifies(t: TextDb, cls: RetentionClass, id: Id) {
    id in t.rows && Covers(cls, t.rows[id].source, id in t.credentials.Values)
  }

  predicate Selected(t: TextDb, cls: RetentionClass, cutoff: string, id: Id) {
    Qualifies(t, cls, id) && Before(TextClock(cls, t.rows[id]), cutoff)
  }

  function Selection(t: TextDb, cls: RetentionClass, cutoff: string): set<Id> {
    set id | id in t.rows && Selected(t, cls, cutoff, id)
  }

  /** The text selection is the class's expired rows, by the moments the texts stand for. */
  lemma SelectionIsExpired(t: TextDb, cls: RetentionClass, cutoff: string)
    requires Sound(t) && WellWrittenSecond(cutoff)
    ensures Selection(t, cls, cutoff) == Expired(Abs(t), cls, SecondOf(cutoff))
  {
    forall id | id in t.rows
      ensures Selected(t, cls, cutoff, id) <==> id in Expired(Abs(t), cls, SecondOf(cutoff))
    {
      RowSelected(t, cls, cutoff, id);
    }
  }

  lemma AbsRow(t: TextDb, cls: RetentionClass, id: Id)
    requires id in t.rows
    ensures id in Abs(t).profiles && (InClass(Abs(t), cls, id) <==> Qualifies(t, cls, id))
    ensures Clock(cls, Abs(t).profiles[id]) == SecondOf(TextClock(cls, t.rows[id]))
  {
  }

  lemma RowSelected(t: TextDb, cls: RetentionClass, cutoff: string, id: Id)
    requires Sound(t) && WellWrittenSecond(cutoff) && id in t.rows
    ensures Selected(t, cls, cutoff, id) <==> id in Expired(Abs(t), cls, SecondOf(cutoff))
  {
    var clock := TextClock(cls, t.rows[id]);
    assert WellWrittenSecond(clock);
    SecondTextOrder(clock, cutoff);
    AbsRow(t, cls, id);
  }

  /**
   A row is stored with its times cut to whole seconds and compared with a cutoff
   cut to whole seconds: SQLite selects exactly the rows of the class that are truly
   older than the cutoff and do not share its second, so never one too early.
   */
  lemma NeverDeletedEarly(t: TextDb, truth: map<Id, Times>, cls: RetentionClass, cutoff: DateTime, id: Id)
    requires WrittenFrom(t, truth) && Valid(cutoff)
    ensures id in Selection(t, cls, EncodeSecond(cutoff))
            <==> (&& id in Expired(TrueDb(t, truth), cls, Instant(cutoff))
                  && Seconds(TrueClock(cls, truth[id])) != Seconds(cutoff))
  {
    if id in t.rows {
      assert RowWritten(t, truth, id);
      TruncationNeverEarly(TrueClock(cls, truth[id]), cutoff);
      TrueClocks(t, truth, cls, id);
    }
  }

  lemma TrueClocks(t: TextDb, truth: map<Id, Times>, cls: RetentionClass, id: Id)
    requires WrittenFrom(t, truth) && id in t.rows
    ensures TextClock(cls, t.rows[id]) == EncodeSecond(TrueClock(cls, truth[id]))
    ensures InClass(TrueDb(t, truth), cls, id) <==> Qualifies(t, cls, id)
    ensures Clock(cls, TrueDb(t, truth).profiles[id]) == Instant(TrueClock(cls, truth[id]))
  {
    assert RowWritten(t, truth, id);
  }

  /** Rows deleted, their credentials cascading, and logged. */
  function TextDeleted(t: TextDb, cls: RetentionClass, order: seq<Id>): TextDb {
    TextDb(t.rows - Members(order),
           map c | c in t.credentials && t.credentials[c] !in Members(order) :: t.credentials[c],
           t.log + LogOf(cls, order))
  }

  lemma NoneDeleted(t: TextDb, cls: RetentionClass)
    ensures TextDeleted(t, cls, []) == t
  {
    assert Members<Id>([]) == {};
    assert TextDeleted(t, cls, []).credentials == t.credentials;
  }

  lemma AbsDeleted(t: TextDb, cls: RetentionClass, order: seq<Id>)
    ensures Abs(TextDeleted(t, cls, order)) == Deleted(Abs(t), cls, order)
  {
  }

  lemma StaysWritten(t: TextDb, truth: map<Id, Times>, cls: RetentionClass, order: seq<Id>)
    requires WrittenFrom(t, truth)
    ensures WrittenFrom(TextDeleted(t, cls, order), truth)
  {
    var after := TextDeleted(t, cls, order);
    forall id | id in after.rows
      ensures RowWritten(after, truth, id)
    {
      assert RowWritten(t, truth, id);
    }
  }

  lemma TrueRowsWithout(rows: map<Id, TextRow>, truth: map<Id, Times>, gone: set<Id>)
    requires rows.Keys <= truth.Keys
    ensures TrueRows(rows - gone, truth) == TrueRows(rows, truth) - gone
  {
  }

  lemma TrueDeleted(t: TextDb, truth: map<Id, Times>, cls: RetentionClass, order: seq<Id>)
    requires WrittenFrom(t, truth) && WrittenFrom(TextDeleted(t, cls, order), truth)
    ensures TrueDb(TextDeleted(t, cls, order), truth) == Deleted(TrueDb(t, truth), cls, order)
  {
    TrueRowsWithout(t.rows, truth, Members(order));
  }

  /** Deleting some rows takes nothing from another's condition. */
  lemma StillSelected(t: TextDb, cls: RetentionClass, cutoff: string, order: seq<Id>, id: Id)
    requires Selected(t, cls, cutoff, id) && id !in Members(order)
    ensures Selected(TextDeleted(t, cls, order), cls, cutoff, id)
  {
    var after := TextDeleted(t, cls, order);
    if id in t.credentials.Values {
      var c :| c in t.credentials && t.credentials[c] == id;
      assert c in after.credentials && after.credentials[c] == id;
    }
    if id in after.credentials.Values {
      var c :| c in after.credentials && after.credentials[c] == id;
      assert t.credentials[c] == id;
    }
  }

  lemma DeletedOneMore(t: TextDb, cls: RetentionClass, order: seq<Id>, id: Id)
    ensures var before, after := TextDeleted(t, cls, order), TextDeleted(t, cls, order + [id]);
            && after.rows == before.rows - {id}
            && after.credentials == (map c | c in before.credentials
                                     && before.credentials[c] != id :: before.credentials[c])
            && after.log == before.log + [LogRow(id, cls)]
  {
    MembersConcat(order, [id]);
    assert Members([id]) == {id};
    assert LogOf(cls, order + [id]) == LogOf(cls, order) + [LogRow(id, cls)];
  }

  /** The least text among some qualifying rows, as SELECT MIN leaves it. */
  ghost predicate LeastText(t: TextDb, cls: RetentionClass, seen: set<Id>, text: Option<string>) {
    if text.None? then forall id :: id in seen ==> !Qualifies(t, cls, id)
    else
      && (exists id :: Qualifies(t, cls, id) && TextClock(cls, t.rows[id]) == text.value)
      && (forall id :: id in seen && Qualifies(t, cls, id) ==> !Before(TextClock(cls, t.rows[id]), text.value))
  }

  lemma LeastTextMore(t: TextDb, cls: RetentionClass, seen: set<Id>, text: Option<string>, id: Id)
    requires LeastText(t, cls, seen, text) && id in t.rows
    ensures var clock := TextClock(cls, t.rows[id]);
            LeastText(t, cls, seen + {id},
                      if Qualifies(t, cls, id) && (text.None? || Before(clock, text.value)) then Some(clock) else text)
  {
    var clock := TextClock(cls, t.rows[id]);
    if Qualifies(t, cls, id) && (text.None? || Before(clock, text.value)) {
      forall other | other in seen + {id} && Qualifies(t, cls, other)
        ensures !Before(TextClock(cls, t.rows[other]), clock)
      {
        if other == id {
          BeforeIrreflexive(clock);
        } else if Before(TextClock(cls, t.rows[other]), clock) {
          BeforeTransitive(TextClock(cls, t.rows[other]), clock, text.value);
        }
      }
    }
  }

  lemma NotYounger(t: TextDb, cls: RetentionClass, id: Id, text: string)
    requires Sound(t) && WellWrittenSecond(text) && id in t.rows && !Before(TextClock(cls, t.rows[id]), text)
    ensures SecondOf(text) <= Clock(cls, Abs(t).profiles[id])
  {
    var clock := TextClock(cls, t.rows[id]);
    assert WellWrittenSecond(clock);
    SecondTextOrder(clock, text);
    AbsRow(t, cls, id);
  }

  lemma SomeIsOldest(t: TextDb, cls: RetentionClass, least: Id)
    requires Sound(t) && Qualifies(t, cls, least)
    requires LeastText(t, cls, t.rows.Keys, Some(TextClock(cls, t.rows[least])))
    ensures OldestIs(Abs(t), cls, Some(SecondOf(TextClock(cls, t.rows[least]))))
  {
    var text := TextClock(cls, t.rows[least]);
    assert WellWrittenSecond(text);
    AbsRow(t, cls, least);
    forall id | id in t.rows && InClass(Abs(t), cls, id)
      ensures SecondOf(text) <= Clock(cls, Abs(t).profiles[id])
    {
      AbsRow(t, cls, id);
      NotYounger(t, cls, id, text);
    }
  }

  lemma LeastTextIsOldest(t: TextDb, cls: RetentionClass, text: Option<string>)
    requires Sound(t) && LeastText(t, cls, t.rows.Keys, text)
    ensures text.Some? ==> WellWrittenSecond(text.value)
    ensures OldestIs(Abs(t), cls, if text.Some? then Some(SecondOf(text.value)) else None)
  {
    if text.Some? {
      var least :| Qualifies(t, cls, least) && TextClock(cls, t.rows[least]) == text.value;
      SomeIsOldest(t, cls, least);
    } else {
      forall id | id in t.rows
        ensures !InClass(Abs(t), cls, id)
      {
        AbsRow(t, cls, id);
      }
    }
  }

  /** The rows to delete, as the selection picked them. */
  ghost predicate Chosen(t: TextDb, cls: RetentionClass, cutoff: string, maxRows: nat, ids: seq<Id>) {
    && Distinct(ids) && Members(ids) <= Selection(t, cls, cutoff)
    && |ids| == Min(maxRows, |Selection(t, cls, cutoff)|)
  }

  class SqliteRepository {
    var db: TextDb

    /** When each profile was really created and updated; only writers of rows change it. */
    ghost var truth: map<Id, Times>

    constructor (rows: map<Id, TextRow>, credentials: map<string, Id>, ghost truth: map<Id, Times>)
      ensures db == TextDb(rows, credentials, []) && this.truth == truth
    {
      db := TextDb(rows, credentials, []);
      this.truth := truth;
    }

    /** DELETE ... WHERE id = ? AND the same condition: how many rows it removed. */
    method DeleteIfSelected(cls: RetentionClass, cutoff: string, id: Id) returns (n: nat)
      modifies this`db
      ensures n == if Selected(old(db), cls, cutoff, id) then 1 else 0
      ensures n == 0 ==> db == old(db)
      ensures n == 1 ==>
                && db.rows == old(db).rows - {id}
                && db.credentials == (map c | c in old(db).credentials
                                      && old(db).credentials[c] != id :: old(db).credentials[c])
                && db.log == old(db).log
    {
      if !Selected(db, cls, cutoff, id) {
        return 0;
      }
      db := TextDb(db.rows - {id}, map c | c in db.credentials && db.credentials[c] != id :: db.credentials[c], db.log);
      return 1;
    }

    /**
     The loop over the selected ids, each deleted under the same condition and logged, until
     the connection is lost.
     */
    method DeleteEach(cls: RetentionClass, cutoff: string, ids: seq<Id>, lost: Option<nat>)
      returns (failed: bool, deleted: nat)
      requires Distinct(ids) && Members(ids) <= Selection(db, cls, cutoff)
      modifies this`db
      ensures failed <==> lost.Some? && lost.value < |ids|
      ensures !failed ==> db == TextDeleted(old(db), cls, ids) && deleted == |ids|
    {
      deleted := 0;
      NoneDeleted(db, cls);
      assert ids[..0] == [];
      for i := 0 to |ids|
        invariant db == TextDeleted(old(db), cls, ids[..i]) && deleted == i
        invariant lost.Some? ==> i <= lost.value
      {
        if lost == Some(i) {
          return true, deleted;
        }
        assert ids[i] in Members(ids) && ids[i] !in Members(ids[..i]);
        StillSelected(old(db), cls, cutoff, ids[..i], ids[i]);
        DeletedOneMore(old(db), cls, ids[..i], ids[i]);
        assert ids[..i + 1] == ids[..i] + [ids[i]];
        var n := DeleteIfSelected(cls, cutoff, ids[i]);
        if n == 0 {
          continue;
        }
        deleted := deleted + 1;
        db := db.(log := db.log + [LogRow(ids[i], cls)]);
      }
      assert ids[..|ids|] == ids;
      return false, deleted;
    }

    /** SELECT MIN(clock), compared as text. */
    method MinText(cls: RetentionClass) returns (text: Option<string>)
      ensures LeastText(db, cls, db.rows.Keys, text)
    {
      text := None;
      var pending := db.rows.Keys;
      while pending != {}
        invariant pending <= db.rows.Keys && LeastText(db, cls, db.rows.Keys - pending, text)
        decreases pending
      {
        var id :| id in pending;
        LeastTextMore(db, cls, db.rows.Keys - pending, text, id);
        assert db.rows.Keys - pending + {id} == db.rows.Keys - (pending - {id});
        pending := pending - {id};
        var clock := TextClock(cls, db.rows[id]);
        if Qualifies(db, cls, id) && (text.None? || Before(clock, text.value)) {
          text := Some(clock);
        }
      }
      assert db.rows.Keys - pending == db.rows.Keys;
    }

    /** The least clock text, parsed; a text that is no timestamp fails. */
    method Oldest(cls: RetentionClass) returns (parsed: bool, oldest: Option<Retention.Time>)
      ensures Sound(db) ==> parsed && OldestIs(Abs(db), cls, oldest)
    {
      var text := MinText(cls);
      if Sound(db) {
        LeastTextIsOldest(db, cls, text);
        if text.Some? {
          WrittenParses(text.value);
        }
      }
      if text.None? {
        return true, None;
      }
      var t := ParseSecond(text.value);
      if t.None? {
        return false, None;
      }
      return true, t;
    }

    /**
     A connection `lost` before any of the deletions, or after them all, undoes every
     one of them.
     */
    method DeleteExpired(cls: RetentionClass, olderThan: DateTime, maxRows: int, lost: Option<nat>)
      returns (r: Result<SweepResult, DaoError>, ghost order: seq<Id>)
      requires Valid(olderThan)
      modifies this`db
      ensures maxRows < 1 || maxRows > 10_000 || !Known(cls) <==> r == Err(InvalidArgument)
      ensures r.Err? ==>
                && db == old(db)
                && (r.error == InvalidArgument || (r.error == Failed && (lost.Some? || !Sound(db))))
      ensures r.Ok? ==>
                && lost.None?
                && Chosen(old(db), cls, EncodeSecond(olderThan), maxRows, order)
                   && db == TextDeleted(old(db), cls, order)
                && r.value.examined == r.value.deleted == |order| && r.value.drained == (|order| < maxRows)
      ensures r.Ok? && Sound(db) ==> OldestIs(Abs(db), cls, r.value.oldest)
    {
      order := [];
      if maxRows < 1 || maxRows > MAX_BATCH || !Known(cls) {
        return Err(InvalidArgument), order;
      }
      var begun := db;
      var cutoff := EncodeSecond(olderThan);
      var ids := Limit(Selection(db, cls, cutoff), maxRows);
      var examined := |ids|;
      var failed, deleted := DeleteEach(cls, cutoff, ids, lost);
      if failed {
        db := begun;
        return Err(Failed), order;
      }
      var parsed, oldest := Oldest(cls);
      if !parsed || lost.Some? {
        if Sound(begun) {
          StaysSound(begun, cls, ids);
        }
        db := begun;
        return Err(Failed), order;
      }
      order := ids;
      return Ok(SweepResult(examined, deleted, oldest, examined < maxRows)), order;
    }
  }

  lemma StaysSound(t: TextDb, cls: RetentionClass, order: seq<Id>)
    requires Sound(t)
    ensures Sound(TextDeleted(t, cls, order))
  {
  }

  /** The loop over texts is one batch of the specification, over the moments the texts stand for. */
  lemma SqliteBatch(t: TextDb, cls: RetentionClass, cutoff: DateTime, maxRows: nat, order: seq<Id>, r: SweepResult)
    requires Sound(t) && Valid(cutoff) && Chosen(t, cls, EncodeSecond(cutoff), maxRows, order)
    requires r.examined == r.deleted == |order| && r.drained == (|order| < maxRows)
    requires OldestIs(Abs(TextDeleted(t, cls, order)), cls, r.oldest)
    ensures Batch(Abs(t), cls, Seconds(cutoff) * NANOS, maxRows, order, Abs(TextDeleted(t, cls, order)), r)
  {
    WrittenSecond(cutoff);
    SelectionIsExpired(t, cls, EncodeSecond(cutoff));
    AbsDeleted(t, cls, order);
  }

  /** Every row it deletes was truly of the class and truly past the cutoff. */
  lemma SqliteDeletesTruly(t: TextDb, truth: map<Id, Times>, cls: RetentionClass, cutoff: DateTime, maxRows: nat,
                           order: seq<Id>)
    requires WrittenFrom(t, truth) && Valid(cutoff) && Chosen(t, cls, EncodeSecond(cutoff), maxRows, order)
    ensures Members(order) <= Expired(TrueDb(t, truth), cls, Instant(cutoff))
    ensures |order| < maxRows ==> forall id ::
            id in Expired(TrueDb(t, truth), cls, Instant(cutoff)) - Members(order) ==>
              Seconds(TrueClock(cls, truth[id])) == Seconds(cutoff)
  {
    forall id
      ensures id in Selection(t, cls, EncodeSecond(cutoff))
              <==> (&& id in Expired(TrueDb(t, truth), cls, Instant(cutoff))
                    && Seconds(TrueClock(cls, truth[id])) != Seconds(cutoff))
    {
      NeverDeletedEarly(t, truth, cls, cutoff, id);
    }
    if |order| < maxRows {
      DistinctSize(order);
      WholeSubset(Members(order), Selection(t, cls, EncodeSecond(cutoff)));
    }
  }
}
