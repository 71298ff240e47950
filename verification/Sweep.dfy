/**
 The batches of one class's retention sweep (internal/sweep/sweep.go), over either
 repository: the loop that deletes batch after batch until one comes back short, what
 others may write meanwhile, and that only expired rows go.
 */
module Sweep {
  import opened Arithmetic
  import opened Collections
  import opened Outcomes
  import opened Timestamps
  import opened Retention
  import opened Repositories

  /** The sweep's view of a repository: the one call it makes. */
  datatype Sweeper = Postgres(pg: PostgresRepository) | Sqlite(lite: SqliteRepository)

  function Footprint(s: Sweeper): set<object> {
    match s
    case Postgres(pg) => {pg}
    case Sqlite(lite) => {lite}
  }

  /** All there is to know of a repository at one moment. */
  datatype State = Rows(db: Db) | Texts(texts: TextDb, truth: map<Id, Times>)

  ghost function StateOf(s: Sweeper): State
    reads Footprint(s)
  {
    match s
    case Postgres(pg) => Rows(pg.db)
    case Sqlite(lite) => Texts(lite.db, lite.truth)
  }

  ghost predicate AllDated(db: Db) {
    forall id {:trigger RowDated(db, id)} :: id in db.profiles ==> RowDated(db, id)
  }

  ghost predicate RowDated(db: Db, id: Id)
    requires id in db.profiles
  {
    Dated(db.profiles[id].created) && Dated(db.profiles[id].updated)
  }

  lemma StaysDated(db: Db, cls: RetentionClass, order: seq<Id>)
    requires AllDated(db)
    ensures AllDated(Deleted(db, cls, order))
  {
    forall id | id in Deleted(db, cls, order).profiles
      ensures RowDated(Deleted(db, cls, order), id)
    {
      assert RowDated(db, id);
    }
  }

  /** Every row's times are of the years the texts can hold, and on SQLite were truly those written. */
  ghost predicate Ready(st: State) {
    match st
    case Rows(db) => AllDated(db)
    case Texts(texts, truth) => WrittenFrom(texts, truth)
  }

  /** The tables as the backend reads them. */
  function Tables(st: State): Db {
    match st
    case Rows(db) => db
    case Texts(texts, _) => Abs(texts)
  }

  /** The tables as they truly are. */
  ghost function Truth(st: State): Db
    requires Ready(st)
  {
    match st
    case Rows(db) => db
    case Texts(texts, truth) => TrueDb(texts, truth)
  }

  /** The cutoff as the backend applies it. */
  function Applied(st: State, cutoff: DateTime): Retention.Time {
    if st.Rows? then Micros(Instant(cutoff)) else Seconds(cutoff) * NANOS
  }

  /** What befalls a sweep at its n-th batch; a lost connection gets some way into the batch first. */
  datatype Trouble = Calm | Cancel | Lose(after: nat)

  /**
   Everything around one class's sweep.  Other writers are at work before each of the
   first `busy` batches (`rows`, or `texts` and `truth`), and, on Postgres, between
   such a batch's finding its rows and deleting them (`amid`).
   */
  datatype World = World(
    trouble: nat -> Trouble,
    busy: nat,
    rows: (nat, Db) -> Db,
    amid: (nat, Db) -> Db,
    texts: (nat, TextDb) -> TextDb,
    truth: (nat, map<Id, Times>) -> map<Id, Times>)

  /** All other writers are held to: they too write true times of those years. */
  ghost predicate Truthful(world: World) {
    && (forall n, db :: AllDated(db) ==> AllDated(world.rows(n, db)))
    && (forall n, db :: AllDated(db) ==> AllDated(world.amid(n, db)))
    && (forall n, t, truth :: WrittenFrom(t, truth) ==> WrittenFrom(world.texts(n, t), world.truth(n, truth)))
  }

  function Others(world: World, n: nat, st: State): State {
    if n >= world.busy then st
    else match st
         case Rows(db) => Rows(world.rows(n, db))
         case Texts(texts, truth) => Texts(world.texts(n, texts), world.truth(n, truth))
  }

  /** SQLite's one connection keeps everyone else out of the transaction. */
  function Amid(world: World, n: nat, st: State): State {
    if n >= world.busy || st.Texts? then st else Rows(world.amid(n, st.db))
  }

  lemma OthersKeepReady(world: World, n: nat, st: State)
    requires Truthful(world) && Ready(st)
    ensures Ready(Others(world, n, st)) && Ready(Amid(world, n, Others(world, n, st)))
  {
  }

  /** One successful call: it found `found` in `base`, deleted `order` from `seen`, and left `left`. */
  datatype Turn = Turn(base: State, found: seq<Id>, seen: State, order: seq<Id>, left: State, r: SweepResult)

  function Idle(st: State): Turn {
    Turn(st, [], st, [], st, SweepResult(0, 0, None, false))
  }

  ghost predicate BatchOf(turn: Turn, cls: RetentionClass, cutoff: DateTime, maxRows: nat)
    requires Valid(cutoff)
  {
    match turn.base
    case Rows(db) =>
      && turn.seen.Rows? && turn.left.Rows?
      && BusyBatch(db, turn.seen.db, cls, Micros(Instant(cutoff)), maxRows, turn.found, turn.order, turn.left.db,
                   turn.r)
    case Texts(texts, truth) =>
      && turn.found == turn.order && turn.seen == turn.base
      && turn.left == Texts(TextDeleted(texts, cls, turn.order), truth)
      && Chosen(texts, cls, EncodeSecond(cutoff), maxRows, turn.order)
      && turn.r.examined == turn.r.deleted == |turn.order| && turn.r.drained == (|turn.order| < maxRows)
      && OldestIs(Abs(turn.left.texts), cls, turn.r.oldest)
  }

  /** A batch leaves its rows' times as they are. */
  lemma LeftReady(turn: Turn, cls: RetentionClass, cutoff: DateTime, maxRows: nat)
    requires Valid(cutoff) && BatchOf(turn, cls, cutoff, maxRows) && Ready(turn.base) && Ready(turn.seen)
    ensures Ready(turn.left)
  {
    match turn.base {
      case Rows(_) =>
        StaysDated(turn.seen.db, cls, turn.order);
      case Texts(texts, truth) =>
        StaysWritten(texts, truth, cls, turn.order);
    }
  }

  lemma TextClockDated(texts: TextDb, truth: map<Id, Times>, cls: RetentionClass, id: Id)
    requires WrittenFrom(texts, truth) && id in texts.rows
    ensures Dated(Clock(cls, Abs(texts).profiles[id]))
  {
    var t := TrueClock(cls, truth[id]);
    assert RowWritten(texts, truth, id);
    AbsRow(texts, cls, id);
    WrittenSecond(t);
    SecondDated(t);
  }

  /** The oldest clock left is a time a store can write. */
  lemma OldestDated(st: State, cls: RetentionClass, oldest: Retention.Time)
    requires Ready(st) && OldestIs(Tables(st), cls, Some(oldest))
    ensures Dated(oldest)
  {
    var db := Tables(st);
    var id :| id in db.profiles && InClass(db, cls, id) && Clock(cls, db.profiles[id]) == oldest;
    match st {
      case Rows(_) => assert RowDated(db, id);
      case Texts(texts, truth) => TextClockDated(texts, truth, cls, id);
    }
  }

  /** SQLite's batch, over rows written from true times. */
  method DeleteTexts(lite: SqliteRepository, cls: RetentionClass, olderThan: DateTime, maxRows: int, lost: Option<nat>)
    returns (r: Result<SweepResult, DaoError>, ghost order: seq<Id>)
    requires WrittenFrom(lite.db, lite.truth) && Valid(olderThan)
    modifies lite`db
    ensures r.Ok? <==> 1 <= maxRows <= 10_000 && Known(cls) && lost.None?
    ensures r.Err? ==> r.error == if 1 <= maxRows <= 10_000 && Known(cls) then Failed else InvalidArgument
    ensures r.Err? ==> lite.db == old(lite.db)
    ensures r.Ok? ==>
              && Chosen(old(lite.db), cls, EncodeSecond(olderThan), maxRows, order)
              && lite.db == TextDeleted(old(lite.db), cls, order)
              && r.value.examined == r.value.deleted == |order| && r.value.drained == (|order| < maxRows)
              && OldestIs(Abs(lite.db), cls, r.value.oldest)
  {
    ghost var begun := lite.db;
    WrittenIsSound(begun, lite.truth);
    r, order := lite.DeleteExpired(cls, olderThan, maxRows, lost);
    if r.Ok? {
      StaysSound(begun, cls, order);
    }
  }

  /** Either backend, as one batch. */
  method DeleteExpired(s: Sweeper, cls: RetentionClass, olderThan: DateTime, maxRows: int, world: World, n: nat,
                       lost: Option<nat>)
    returns (r: Result<SweepResult, DaoError>, ghost turn: Turn)
    requires Ready(StateOf(s)) && Ready(Amid(world, n, StateOf(s))) && Valid(olderThan)
    modifies Footprint(s)
    ensures Ready(StateOf(s))
    ensures r.Ok? <==> 1 <= maxRows <= 10_000 && Known(cls) && lost.None?
    ensures r.Err? ==> r.error == if 1 <= maxRows <= 10_000 && Known(cls) then Failed else InvalidArgument
    ensures r.Err? ==> StateOf(s) == (if r.error == InvalidArgument || lost == Some(0) then old(StateOf(s))
                                      else Amid(world, n, old(StateOf(s))))
    ensures r.Ok? ==>
              && turn == Turn(old(StateOf(s)), turn.found, Amid(world, n, old(StateOf(s))), turn.order, StateOf(s),
                              r.value)
              && BatchOf(turn, cls, olderThan, maxRows)
  {
    ghost var base, seen := StateOf(s), Amid(world, n, StateOf(s));
    ghost var found: seq<Id>, order: seq<Id> := [], [];
    match s {
      case Postgres(pg) =>
        var meanwhile := if n >= world.busy then pg.db else world.amid(n, pg.db);
        r, found, order := pg.DeleteExpired(cls, olderThan, maxRows, meanwhile, lost);
      case Sqlite(lite) =>
        r, order := DeleteTexts(lite, cls, olderThan, maxRows, lost);
        found := order;
    }
    turn := if r.Ok? then Turn(base, found, seen, order, StateOf(s), r.value) else Idle(base);
    if r.Ok? {
      LeftReady(turn, cls, olderThan, maxRows);
    }
  }

  datatype SweepError = NoCutoff | Cancelled | Dao(error: DaoError)

  // ---------------------------------------------------------- the batch loop

  predicate CalmUntil(trouble: nat -> Trouble, batches: nat) {
    forall i: nat :: i < batches ==> trouble(i) == Calm
  }

  /** The state the n-th batch found, other writers aside. */
  function Before(start: State, trace: seq<Turn>, n: nat): State
    requires n <= |trace|
  {
    if n == 0 then start else trace[n - 1].left
  }

  function LastOf(start: State, trace: seq<Turn>): State {
    Before(start, trace, |trace|)
  }

  /** What the first n batches examined, and deleted. */
  function Examined(trace: seq<Turn>, n: nat): nat
    requires n <= |trace|
  {
    if n == 0 then 0 else Examined(trace, n - 1) + trace[n - 1].r.examined
  }

  function DeletedBy(trace: seq<Turn>, n: nat): nat
    requires n <= |trace|
  {
    if n == 0 then 0 else DeletedBy(trace, n - 1) + trace[n - 1].r.deleted
  }

  /** The rows they deleted, batch after batch. */
  function Orders(trace: seq<Turn>, n: nat): seq<Id>
    requires n <= |trace|
  {
    if n == 0 then [] else Orders(trace, n - 1) + trace[n - 1].order
  }

  lemma {:induction false} SumsOfPrefix(trace: seq<Turn>, turn: Turn, n: nat)
    requires n <= |trace|
    ensures Examined(trace + [turn], n) == Examined(trace, n) && DeletedBy(trace + [turn], n) == DeletedBy(trace, n)
  {
    if n > 0 {
      SumsOfPrefix(trace, turn, n - 1);
    }
  }

  /** Nothing but the other writers and the sweep's own batches has touched the tables. */
  ghost predicate Traced(world: World, cls: RetentionClass, cutoff: DateTime, maxRows: nat, start: State,
                         trace: seq<Turn>)
    requires Valid(cutoff)
  {
    forall i :: 0 <= i < |trace| ==> TracedAt(world, cls, cutoff, maxRows, start, trace, i)
  }

  ghost predicate TracedAt(world: World, cls: RetentionClass, cutoff: DateTime, maxRows: nat, start: State,
                           trace: seq<Turn>, i: nat)
    requires Valid(cutoff) && i < |trace|
  {
    TurnAt(world, cls, cutoff, maxRows, Before(start, trace, i), i, trace[i])
  }

  ghost predicate TurnAt(world: World, cls: RetentionClass, cutoff: DateTime, maxRows: nat, prev: State, n: nat,
                         turn: Turn)
    requires Valid(cutoff)
  {
    && turn.base == Others(world, n, prev)
    && turn.seen == Amid(world, n, turn.base)
    && BatchOf(turn, cls, cutoff, maxRows)
  }

  /** What trouble at the n-th batch leaves: the writers' work, nothing of the batch. */
  function Stranded(world: World, n: nat, prev: State): State {
    var base := Others(world, n, prev);
    match world.trouble(n)
    case Lose(after) => if after == 0 then base else Amid(world, n, base)
    case _ => base
  }

  function ErrorOf(trouble: Trouble): SweepError {
    if trouble.Cancel? then Cancelled else Dao(Failed)
  }

  /** None of the first n batches met trouble or came back short. */
  ghost predicate GoesOn(world: World, trace: seq<Turn>, n: nat)
    requires n <= |trace|
  {
    CalmUntil(world.trouble, n) && forall i :: 0 <= i < n ==> !trace[i].r.drained
  }

  /** The loop ends on the first batch to come back short, or on trouble before that. */
  ghost predicate Finishes(world: World, start: State, trace: seq<Turn>, error: Option<SweepError>, now: State) {
    match error
    case None =>
      && trace != [] && GoesOn(world, trace, |trace| - 1) && world.trouble(|trace| - 1) == Calm
      && trace[|trace| - 1].r.drained && now == LastOf(start, trace)
    case Some(e) =>
      && GoesOn(world, trace, |trace|) && world.trouble(|trace|) != Calm && e == ErrorOf(world.trouble(|trace|))
      && now == Stranded(world, |trace|, LastOf(start, trace))
  }

  lemma TracedMore(world: World, cls: RetentionClass, cutoff: DateTime, maxRows: nat, start: State, trace: seq<Turn>,
                   turn: Turn)
    requires Valid(cutoff) && Traced(world, cls, cutoff, maxRows, start, trace)
    requires TurnAt(world, cls, cutoff, maxRows, LastOf(start, trace), |trace|, turn)
    ensures Traced(world, cls, cutoff, maxRows, start, trace + [turn])
  {
    var more := trace + [turn];
    forall i | 0 <= i < |more|
      ensures TracedAt(world, cls, cutoff, maxRows, start, more, i)
    {
      assert Before(start, more, i) == Before(start, trace, i);
      if i < |trace| {
        assert TracedAt(world, cls, cutoff, maxRows, start, trace, i);
      }
    }
  }

  lemma GoesOnMore(world: World, start: State, trace: seq<Turn>, turn: Turn)
    requires GoesOn(world, trace, |trace|) && world.trouble(|trace|) == Calm
    ensures if turn.r.drained then Finishes(world, start, trace + [turn], None, turn.left)
            else GoesOn(world, trace + [turn], |trace| + 1)
  {
  }

  /** With no one else about, a call is one batch of the specification. */
  lemma QuietTurn(turn: Turn, cls: RetentionClass, cutoff: DateTime, maxRows: nat)
    requires Valid(cutoff) && BatchOf(turn, cls, cutoff, maxRows) && turn.seen == turn.base && Ready(turn.base)
    ensures Batch(Tables(turn.base), cls, Applied(turn.base, cutoff), maxRows, turn.order, Tables(turn.left), turn.r)
  {
    match turn.base {
      case Rows(db) => QuietBatch(db, cls, Micros(Instant(cutoff)), maxRows, turn.found, turn.order, turn.left.db,
                                  turn.r);
      case Texts(texts, truth) =>
        WrittenIsSound(texts, truth);
        SqliteBatch(texts, cls, cutoff, maxRows, turn.order, turn.r);
    }
  }

  /** How many rows a sweep still has before it. */
  ghost function RowsLeft(st: State, cls: RetentionClass, cutoff: DateTime): nat {
    |Expired(Tables(st), cls, Applied(st, cutoff))|
  }

  /** Such a batch, if full, leaves fewer of them. */
  lemma QuietTurnShrinks(turn: Turn, cls: RetentionClass, cutoff: DateTime, maxRows: nat)
    requires Valid(cutoff) && BatchOf(turn, cls, cutoff, maxRows) && turn.seen == turn.base && Ready(turn.base)
    requires !turn.r.drained && maxRows > 0
    ensures RowsLeft(turn.left, cls, cutoff) < RowsLeft(turn.base, cls, cutoff)
  {
    QuietTurn(turn, cls, cutoff, maxRows);
    ExpiredAfter(Tables(turn.base), cls, turn.order, cls, Applied(turn.base, cutoff));
    DistinctSize(turn.order);
  }

  /** Other writers at work on the repository. */
  method Write(s: Sweeper, world: World, n: nat)
    requires Ready(StateOf(s)) && Truthful(world)
    modifies Footprint(s)
    ensures StateOf(s) == Others(world, n, old(StateOf(s))) && Ready(StateOf(s))
  {
    if n < world.busy {
      OthersKeepReady(world, n, StateOf(s));
      match s
      case Postgres(pg) => pg.db := world.rows(n, pg.db);
      case Sqlite(lite) => lite.db, lite.truth := world.texts(n, lite.db), world.truth(n, lite.truth);
    }
  }

  /** Where the batch loop stands after the batches of `trace`, with `left` rows before it. */
  ghost predicate Underway(world: World, cls: RetentionClass, cutoff: DateTime, maxRows: nat, start: State, now: State,
                           trace: seq<Turn>, examined: nat, deleted: nat, left: nat)
    requires Valid(cutoff)
  {
    && Ready(now) && now == LastOf(start, trace) && left == RowsLeft(now, cls, cutoff)
    && Traced(world, cls, cutoff, maxRows, start, trace) && GoesOn(world, trace, |trace|)
    && examined == Examined(trace, |trace|) && deleted == DeletedBy(trace, |trace|)
  }

  /** And where it ends. */
  ghost predicate Over(world: World, cls: RetentionClass, cutoff: DateTime, maxRows: nat, start: State, now: State,
                       trace: seq<Turn>, error: Option<SweepError>, examined: nat, deleted: nat)
    requires Valid(cutoff)
  {
    && Ready(now)
    && Traced(world, cls, cutoff, maxRows, start, trace) && Finishes(world, start, trace, error, now)
    && examined == Examined(trace, |trace|) && deleted == DeletedBy(trace, |trace|)
  }

  lemma Starts(world: World, cls: RetentionClass, cutoff: DateTime, maxRows: nat, start: State)
    requires Valid(cutoff) && Ready(start)
    ensures Underway(world, cls, cutoff, maxRows, start, start, [], 0, 0, RowsLeft(start, cls, cutoff))
  {
  }

  /** A turn that met trouble ends the loop. */
  lemma TurnEnds(world: World, cls: RetentionClass, cutoff: DateTime, maxRows: nat, start: State, prev: State,
                 trace: seq<Turn>, examined: nat, deleted: nat, left: nat, now: State)
    requires Valid(cutoff) && Underway(world, cls, cutoff, maxRows, start, prev, trace, examined, deleted, left)
    requires world.trouble(|trace|) != Calm && now == Stranded(world, |trace|, prev) && Ready(now)
    ensures Over(world, cls, cutoff, maxRows, start, now, trace, Some(ErrorOf(world.trouble(|trace|))), examined,
                 deleted)
  {
  }

  /** Once no one else writes, a full batch leaves fewer rows. */
  lemma TurnShrinks(world: World, cls: RetentionClass, cutoff: DateTime, maxRows: nat, prev: State, n: nat, turn: Turn)
    requires Valid(cutoff) && maxRows > 0 && Ready(prev) && n >= world.busy && !turn.r.drained
    requires TurnAt(world, cls, cutoff, maxRows, prev, n, turn)
    ensures RowsLeft(turn.left, cls, cutoff) < RowsLeft(prev, cls, cutoff)
  {
    QuietTurnShrinks(turn, cls, cutoff, maxRows);
  }

  lemma TurnSums(trace: seq<Turn>, turn: Turn)
    ensures Examined(trace + [turn], |trace| + 1) == Examined(trace, |trace|) + turn.r.examined
    ensures DeletedBy(trace + [turn], |trace| + 1) == DeletedBy(trace, |trace|) + turn.r.deleted
  {
    SumsOfPrefix(trace, turn, |trace|);
  }

  /** Any other turn is one batch more. */
  lemma TurnGrows(world: World, cls: RetentionClass, cutoff: DateTime, maxRows: nat, start: State, prev: State,
                  trace: seq<Turn>, examined: nat, deleted: nat, left: nat, turn: Turn)
    requires Valid(cutoff) && Underway(world, cls, cutoff, maxRows, start, prev, trace, examined, deleted, left)
    requires world.trouble(|trace|) == Calm && TurnAt(world, cls, cutoff, maxRows, prev, |trace|, turn)
    requires Ready(turn.left)
    ensures var grown, e, d := trace + [turn], examined + turn.r.examined, deleted + turn.r.deleted;
            if turn.r.drained then Over(world, cls, cutoff, maxRows, start, turn.left, grown, None, e, d)
            else Underway(world, cls, cutoff, maxRows, start, turn.left, grown, e, d, RowsLeft(turn.left, cls, cutoff))
  {
    TracedMore(world, cls, cutoff, maxRows, start, trace, turn);
    GoesOnMore(world, start, trace, turn);
    TurnSums(trace, turn);
  }

  /** One turn of the batch loop: trouble ends it, and anything else is one batch more. */
  method NextTurn(s: Sweeper, cls: RetentionClass, cutoff: DateTime, maxRows: nat, world: World, done: nat,
                  ghost start: State, ghost trace: seq<Turn>, ghost examined: nat, ghost deleted: nat, ghost left: nat)
    returns (r: Result<SweepResult, SweepError>, ghost grown: seq<Turn>, ghost less: nat)
    requires Truthful(world) && Valid(cutoff) && 1 <= maxRows <= MAX_BATCH && Known(cls) && done == |trace|
    requires Underway(world, cls, cutoff, maxRows, start, StateOf(s), trace, examined, deleted, left)
    modifies Footprint(s)
    ensures r.Err? ==>
              && grown == trace
              && Over(world, cls, cutoff, maxRows, start, StateOf(s), trace, Some(r.error), examined, deleted)
    ensures r.Ok? ==> |grown| == done + 1 && grown[done].r == r.value
    ensures r.Ok? && r.value.drained ==>
              Over(world, cls, cutoff, maxRows, start, StateOf(s), grown, None,
                   examined + r.value.examined, deleted + r.value.deleted)
    ensures r.Ok? && !r.value.drained ==>
              && Underway(world, cls, cutoff, maxRows, start, StateOf(s), grown,
                          examined + r.value.examined, deleted + r.value.deleted, less)
              && (done >= world.busy ==> less < left)
  {
    ghost var prev := StateOf(s);
    grown, less := trace, left;
    OthersKeepReady(world, done, prev);
    Write(s, world, done);
    var trouble := world.trouble(done);
    if trouble.Cancel? {
      TurnEnds(world, cls, cutoff, maxRows, start, prev, trace, examined, deleted, left, StateOf(s));
      return Err(Cancelled), grown, less;
    }
    var batch;
    ghost var turn;
    batch, turn := DeleteExpired(s, cls, cutoff, maxRows, world, done,
                                 if trouble.Lose? then Some(trouble.after) else None);
    if batch.Err? {
      TurnEnds(world, cls, cutoff, maxRows, start, prev, trace, examined, deleted, left, StateOf(s));
      return Err(Dao(batch.error)), grown, less;
    }
    TurnGrows(world, cls, cutoff, maxRows, start, prev, trace, examined, deleted, left, turn);
    grown, less := trace + [turn], RowsLeft(turn.left, cls, cutoff);
    if done >= world.busy && !batch.value.drained {
      TurnShrinks(world, cls, cutoff, maxRows, prev, done, turn);
    }
    return Ok(batch.value), grown, less;
  }

  /**
   The batch loop.  Once other writers stop adding expired rows it always ends, and
   without trouble it drains its class.
   */
  method Drain(s: Sweeper, cls: RetentionClass, cutoff: DateTime, maxRows: nat, world: World)
    returns (examined: nat, deleted: nat, oldest: Option<Retention.Time>, error: Option<SweepError>,
             ghost trace: seq<Turn>)
    requires Ready(StateOf(s)) && Truthful(world) && Valid(cutoff) && 1 <= maxRows <= MAX_BATCH && Known(cls)
    modifies Footprint(s)
    ensures Over(world, cls, cutoff, maxRows, old(StateOf(s)), StateOf(s), trace, error, examined, deleted)
    ensures error.None? ==> trace != [] && oldest == trace[|trace| - 1].r.oldest
  {
    ghost var start, left := StateOf(s), RowsLeft(StateOf(s), cls, cutoff);
    examined, deleted, oldest, error, trace := 0, 0, None, None, [];
    Starts(world, cls, cutoff, maxRows, start);
    var done: nat := 0;
    while true
      invariant done == |trace|
      invariant Underway(world, cls, cutoff, maxRows, start, StateOf(s), trace, examined, deleted, left)
      decreases if done < world.busy then world.busy - done else 0, left
    {
      var batch;
      batch, trace, left := NextTurn(s, cls, cutoff, maxRows, world, done, start, trace, examined, deleted, left);
      if batch.Err? {
        error := Some(batch.error);
        return;
      }
      done := done + 1;
      examined, deleted := examined + batch.value.examined, deleted + batch.value.deleted;
      if batch.value.drained {
        oldest := batch.value.oldest;
        return;
      }
    }
  }

  // -------------------------------------------------- deleted rows were expired

  /**
   Each row a batch logged was past the cutoff when deleted, truly, and is gone; and it
   was of the class, by its own row as it then was and the credentials its statement saw.
   */
  ghost predicate DeletesTruly(turn: Turn, cls: RetentionClass, cutoff: DateTime) {
    && Ready(turn.base) && Ready(turn.seen) && Ready(turn.left)
    && OnlyExpiredLogged(Truth(turn.base), Truth(turn.seen), Truth(turn.left), cls, Instant(cutoff))
  }

  ghost predicate OnlyExpiredLogged(base: Db, seen: Db, left: Db, cls: RetentionClass, cutoff: Retention.Time) {
    && seen.log <= left.log
    && forall e :: e in left.log[|seen.log|..] ==>
         && e.cls == cls && e.profile in Expired(Rechecked(base, seen), cls, cutoff)
         && e.profile !in left.profiles
  }

  lemma DeletionLogs(base: Db, seen: Db, cls: RetentionClass, cutoff: Retention.Time, order: seq<Id>)
    requires Members(order) <= Expired(Rechecked(base, seen), cls, cutoff)
    ensures OnlyExpiredLogged(base, seen, Deleted(seen, cls, order), cls, cutoff)
  {
    var left := Deleted(seen, cls, order);
    assert left.log[|seen.log|..] == LogOf(cls, order);
    forall e | e in LogOf(cls, order)
      ensures e.cls == cls && e.profile in Members(order)
    {
      EntryIs(cls, order, e);
    }
  }

  /** Whether a row was also of its class by every credential there was when it went. */
  lemma LoggedInClass(turn: Turn, cls: RetentionClass, cutoff: DateTime, e: LogRow)
    requires DeletesTruly(turn, cls, cutoff) && e in Truth(turn.left).log[|Truth(turn.seen).log|..]
    ensures var before, now, id := Truth(turn.base).credentials.Values, Truth(turn.seen), e.profile;
            && id in now.profiles && Clock(cls, now.profiles[id]) < Instant(cutoff)
            && (InClass(now, cls, id) <==> cls.Direct? || (id in before <==> id in now.credentials.Values))
  {
    RecheckedRow(Truth(turn.base), Truth(turn.seen), cls, Instant(cutoff), e.profile);
  }

  lemma RowsAreTrue(turn: Turn, cls: RetentionClass, cutoff: DateTime, maxRows: nat)
    requires Valid(cutoff) && BatchOf(turn, cls, cutoff, maxRows) && turn.base.Rows?
    requires Ready(turn.base) && Ready(turn.seen)
    ensures DeletesTruly(turn, cls, cutoff)
  {
    LeftReady(turn, cls, cutoff, maxRows);
    DeletionLogs(turn.base.db, turn.seen.db, cls, Instant(cutoff), turn.order);
  }

  lemma TextsDeletion(texts: TextDb, truth: map<Id, Times>, cls: RetentionClass, cutoff: DateTime, maxRows: nat,
                      order: seq<Id>)
    requires WrittenFrom(texts, truth) && Valid(cutoff) && Chosen(texts, cls, EncodeSecond(cutoff), maxRows, order)
    ensures WrittenFrom(TextDeleted(texts, cls, order), truth)
    ensures OnlyExpiredLogged(TrueDb(texts, truth), TrueDb(texts, truth),
                              TrueDb(TextDeleted(texts, cls, order), truth), cls, Instant(cutoff))
  {
    SqliteDeletesTruly(texts, truth, cls, cutoff, maxRows, order);
    assert Rechecked(TrueDb(texts, truth), TrueDb(texts, truth)) == TrueDb(texts, truth);
    DeletionLogs(TrueDb(texts, truth), TrueDb(texts, truth), cls, Instant(cutoff), order);
    StaysWritten(texts, truth, cls, order);
    TrueDeleted(texts, truth, cls, order);
  }

  lemma TruthOfTexts(texts: TextDb, truth: map<Id, Times>)
    requires WrittenFrom(texts, truth)
    ensures Ready(Texts(texts, truth)) && Truth(Texts(texts, truth)) == TrueDb(texts, truth)
  {
  }

  lemma TextsAreTrue(turn: Turn, cls: RetentionClass, cutoff: DateTime, maxRows: nat)
    requires Valid(cutoff) && BatchOf(turn, cls, cutoff, maxRows) && turn.base.Texts? && Ready(turn.base)
    ensures DeletesTruly(turn, cls, cutoff)
  {
    var texts, truth := turn.base.texts, turn.base.truth;
    TextsDeletion(texts, truth, cls, cutoff, maxRows, turn.order);
    var left := TextDeleted(texts, cls, turn.order);
    assert turn.seen == Texts(texts, truth) && turn.left == Texts(left, truth);
    TruthOfTexts(texts, truth);
    TruthOfTexts(left, truth);
  }

  lemma TurnIsTrue(world: World, cls: RetentionClass, cutoff: DateTime, maxRows: nat, prev: State, n: nat, turn: Turn)
    requires Valid(cutoff) && Truthful(world) && Ready(prev) && TurnAt(world, cls, cutoff, maxRows, prev, n, turn)
    ensures DeletesTruly(turn, cls, cutoff)
  {
    OthersKeepReady(world, n, prev);
    if turn.base.Rows? {
      RowsAreTrue(turn, cls, cutoff, maxRows);
    } else {
      TextsAreTrue(turn, cls, cutoff, maxRows);
    }
  }

  /** Whatever others write meanwhile, a sweep deletes only what was truly expired when it did. */
  lemma {:induction false} TraceIsTrue(world: World, cls: RetentionClass, cutoff: DateTime, maxRows: nat,
                                       start: State, trace: seq<Turn>, i: nat)
    requires Valid(cutoff) && Truthful(world) && Ready(start) && Traced(world, cls, cutoff, maxRows, start, trace)
    requires i < |trace|
    ensures DeletesTruly(trace[i], cls, cutoff)
  {
    var prev := Before(start, trace, i);
    if i > 0 {
      TraceIsTrue(world, cls, cutoff, maxRows, start, trace, i - 1);
    }
    assert TracedAt(world, cls, cutoff, maxRows, start, trace, i);
    TurnIsTrue(world, cls, cutoff, maxRows, prev, i, trace[i]);
  }

  // ------------------------------------------------------- with no one else about

  /** The rows of `order` have been deleted so far, `batches` full batches of them. */
  ghost predicate Progress(start: Db, now: Db, cls: RetentionClass, cutoff: Retention.Time, order: seq<Id>,
                           batches: nat, maxRows: nat)
  {
    && now == Deleted(start, cls, order)
    && Distinct(order)
    && Members(order) <= Expired(start, cls, cutoff)
    && |order| == batches * maxRows
  }

  lemma OrderGrows(start: Db, now: Db, cls: RetentionClass, cutoff: Retention.Time, order: seq<Id>, more: seq<Id>)
    requires now == Deleted(start, cls, order) && Distinct(order) && Members(order) <= Expired(start, cls, cutoff)
    requires Distinct(more) && Members(more) <= Expired(now, cls, cutoff)
    ensures Distinct(order + more) && Members(order + more) <= Expired(start, cls, cutoff)
  {
    ExpiredAfter(start, cls, order, cls, cutoff);
    MembersConcat(order, more);
    DistinctConcat(order, more);
  }

  /** What one more batch adds. */
  lemma BatchAdds(start: Db, now: Db, cls: RetentionClass, cutoff: Retention.Time, order: seq<Id>, batches: nat,
                  maxRows: nat,
                  more: seq<Id>, after: Db, r: SweepResult)
    requires Progress(start, now, cls, cutoff, order, batches, maxRows) && maxRows > 0
    requires Batch(now, cls, cutoff, maxRows, more, after, r)
    ensures Distinct(order + more) && Members(order + more) <= Expired(start, cls, cutoff)
    ensures after == Deleted(start, cls, order + more)
    ensures r.drained ==> Members(order + more) == Expired(start, cls, cutoff) && |order + more| / maxRows == batches
    ensures !r.drained ==> |more| == maxRows && |order + more| == (batches + 1) * maxRows
  {
    OrderGrows(start, now, cls, cutoff, order, more);
    DeletedTwice(start, cls, order, more);
    BatchCount(|order|, |more|, batches, maxRows);
    if r.drained {
      LastBatch(start, now, cls, cutoff, order, more, maxRows, after, r);
    }
  }

  lemma LastBatch(start: Db, now: Db, cls: RetentionClass, cutoff: Retention.Time, order: seq<Id>,
                  more: seq<Id>, maxRows: nat, after: Db, r: SweepResult)
    requires now == Deleted(start, cls, order) && Batch(now, cls, cutoff, maxRows, more, after, r) && r.drained
    requires Members(order + more) <= Expired(start, cls, cutoff)
    ensures Members(order + more) == Expired(start, cls, cutoff)
  {
    DrainedMeansNoneExpired(now, cls, cutoff, maxRows, more, after, r);
    DeletedTwice(start, cls, order, more);
    ExpiredAfter(start, cls, order + more, cls, cutoff);
    NothingLeft(Members(order + more), Expired(start, cls, cutoff));
  }

  lemma BatchCount(before: nat, more: nat, batches: nat, maxRows: nat)
    requires before == batches * maxRows && more <= maxRows && maxRows > 0
    ensures more < maxRows ==> (before + more) / maxRows == batches
    ensures more == maxRows ==> before + more == (batches + 1) * maxRows
  {
    if more < maxRows {
      DivModUnique(before + more, maxRows, batches, more);
    }
  }

  /**
   All a sweep of one class does with no one else about: drained, it took every expired
   row in floor(n / maxRows) + 1 batches; stopped, it took only full batches.
   */
  ghost predicate SweptQuietly(cls: RetentionClass, limit: Retention.Time, maxRows: nat, start: Db, now: Db,
                               order: seq<Id>,
                               batches: nat, drained: bool)
    requires maxRows > 0
  {
    && now == Deleted(start, cls, order) && Distinct(order) && Members(order) <= Expired(start, cls, limit)
    && (drained ==> Members(order) == Expired(start, cls, limit) && batches == |order| / maxRows + 1)
    && (!drained ==> |order| == batches * maxRows)
  }

  /** Where n full batches have brought a sweep with no one else about. */
  ghost predicate FullBatches(cls: RetentionClass, limit: Retention.Time, maxRows: nat, start: State, trace: seq<Turn>,
                              n: nat)
    requires n <= |trace|
  {
    var now, order := Before(start, trace, n), Orders(trace, n);
    && Ready(now) && now.Rows? == start.Rows?
    && Progress(Tables(start), Tables(now), cls, limit, order, n, maxRows)
    && Examined(trace, n) == DeletedBy(trace, n) == |order|
  }

  /** And where a short one ends it. */
  ghost predicate LastBatches(cls: RetentionClass, limit: Retention.Time, maxRows: nat, start: State, trace: seq<Turn>,
                              n: nat)
    requires n <= |trace| && maxRows > 0
  {
    var now, order := Before(start, trace, n), Orders(trace, n);
    && Ready(now) && now.Rows? == start.Rows?
    && SweptQuietly(cls, limit, maxRows, Tables(start), Tables(now), order, n, true)
    && Examined(trace, n) == DeletedBy(trace, n) == |order|
  }

  /** One batch more. */
  lemma QuietNext(world: World, cls: RetentionClass, cutoff: DateTime, maxRows: nat, start: State, trace: seq<Turn>,
                  n: nat)
    requires Valid(cutoff) && world.busy == 0 && maxRows > 0
    requires Traced(world, cls, cutoff, maxRows, start, trace) && n < |trace|
    requires FullBatches(cls, Applied(start, cutoff), maxRows, start, trace, n)
    ensures if trace[n].r.drained then LastBatches(cls, Applied(start, cutoff), maxRows, start, trace, n + 1)
            else FullBatches(cls, Applied(start, cutoff), maxRows, start, trace, n + 1)
  {
    var now, turn := Before(start, trace, n), trace[n];
    assert TracedAt(world, cls, cutoff, maxRows, start, trace, n);
    QuietTurn(turn, cls, cutoff, maxRows);
    BatchAdds(Tables(start), Tables(now), cls, Applied(start, cutoff), Orders(trace, n), n, maxRows,
              turn.order, Tables(turn.left), turn.r);
    LeftReady(turn, cls, cutoff, maxRows);
  }

  /** With no one else about, full batches follow one another. */
  lemma {:induction false} QuietProgress(world: World, cls: RetentionClass, cutoff: DateTime, maxRows: nat,
                                         start: State, trace: seq<Turn>, n: nat)
    requires Valid(cutoff) && Ready(start) && world.busy == 0 && maxRows > 0
    requires Traced(world, cls, cutoff, maxRows, start, trace) && n <= |trace|
    requires forall i :: 0 <= i < n ==> !trace[i].r.drained
    ensures FullBatches(cls, Applied(start, cutoff), maxRows, start, trace, n)
  {
    if n == 0 {
      EmptyDeletion(Tables(start), cls);
    } else {
      QuietProgress(world, cls, cutoff, maxRows, start, trace, n - 1);
      QuietNext(world, cls, cutoff, maxRows, start, trace, n - 1);
    }
  }

  lemma QuietDrained(world: World, cls: RetentionClass, cutoff: DateTime, maxRows: nat, start: State,
                     trace: seq<Turn>)
    requires Valid(cutoff) && Ready(start) && world.busy == 0 && maxRows > 0
    requires Traced(world, cls, cutoff, maxRows, start, trace)
    requires trace != [] && GoesOn(world, trace, |trace| - 1) && trace[|trace| - 1].r.drained
    ensures LastBatches(cls, Applied(start, cutoff), maxRows, start, trace, |trace|)
  {
    var n := |trace| - 1;
    QuietProgress(world, cls, cutoff, maxRows, start, trace, n);
    QuietNext(world, cls, cutoff, maxRows, start, trace, n);
  }

  lemma WholeTrace(cls: RetentionClass, limit: Retention.Time, maxRows: nat, start: State, trace: seq<Turn>,
                   drained: bool)
    requires maxRows > 0
    requires if drained then LastBatches(cls, limit, maxRows, start, trace, |trace|)
             else FullBatches(cls, limit, maxRows, start, trace, |trace|)
    ensures SweptQuietly(cls, limit, maxRows, Tables(start), Tables(LastOf(start, trace)), Orders(trace, |trace|),
                         |trace|, drained)
    ensures Examined(trace, |trace|) == DeletedBy(trace, |trace|) == |Orders(trace, |trace|)|
    ensures Ready(LastOf(start, trace)) && LastOf(start, trace).Rows? == start.Rows?
  {
  }

  lemma QuietSweep(world: World, cls: RetentionClass, cutoff: DateTime, maxRows: nat, start: State, trace: seq<Turn>,
                   error: Option<SweepError>, now: State)
    requires Valid(cutoff) && Ready(start) && world.busy == 0 && maxRows > 0
    requires Traced(world, cls, cutoff, maxRows, start, trace) && Finishes(world, start, trace, error, now)
    ensures SweptQuietly(cls, Applied(start, cutoff), maxRows, Tables(start), Tables(now), Orders(trace, |trace|),
                         |trace|, error.None?)
    ensures Examined(trace, |trace|) == DeletedBy(trace, |trace|) == |Orders(trace, |trace|)|
    ensures Ready(now) && now.Rows? == start.Rows?
  {
    assert now == LastOf(start, trace);
    if error.None? {
      QuietDrained(world, cls, cutoff, maxRows, start, trace);
    } else {
      QuietProgress(world, cls, cutoff, maxRows, start, trace, |trace|);
    }
    WholeTrace(cls, Applied(start, cutoff), maxRows, start, trace, error.None?);
  }
}
