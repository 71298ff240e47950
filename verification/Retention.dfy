/**
 The tables a retention sweep works on and what one DeleteExpired call may do to
 them, whichever backend runs it (internal/dao/retention.go and composite.go).
 */
module Retention {
  import opened Arithmetic
  import opened Collections
  import opened Outcomes

  type Id = string
  type Time = int

  datatype Source = FromDirect | FromIdpCache

  datatype RetentionClass = Direct | IdpCache | IdpCacheOrphan | Unknown(name: string)

  datatype Row = Row(source: Source, created: Time, updated: Time)

  datatype LogRow = LogRow(profile: Id, cls: RetentionClass)

  /** `credentials` gives each credential's user id. */
  datatype Db = Db(profiles: map<Id, Row>, credentials: map<string, Id>, log: seq<LogRow>)

  datatype SweepResult = SweepResult(examined: nat, deleted: nat, oldest: Option<Time>, drained: bool)

  datatype DaoError = InvalidArgument | Failed

  const MAX_BATCH := 10_000

  predicate Known(cls: RetentionClass) {
    !cls.Unknown?
  }

  /** A class's own WHERE condition. */
  predicate Covers(cls: RetentionClass, source: Source, referenced: bool) {
    match cls
    case Direct => source.FromDirect?
    case IdpCache => source.FromIdpCache? && referenced
    case IdpCacheOrphan => source.FromIdpCache? && !referenced
    case Unknown(_) => false
  }

  predicate InClass(db: Db, cls: RetentionClass, id: Id) {
    id in db.profiles && Covers(cls, db.profiles[id].source, id in db.credentials.Values)
  }

  /** Orphans age from creation, so that reading them again does not keep them; the rest from their last update. */
  function Clock(cls: RetentionClass, row: Row): Time {
    if cls.IdpCacheOrphan? then row.created else row.updated
  }

  function Expired(db: Db, cls: RetentionClass, cutoff: Time): set<Id> {
    set id | id in db.profiles && InClass(db, cls, id) && Clock(cls, db.profiles[id]) < cutoff
  }

  /**
   What it is to be expired: a profile entered directly, or cached and still referenced by
   a credential, was last updated before the cutoff; a cached one nobody references was
   created before it.
   */
  lemma ExpiredMeans(db: Db, cls: RetentionClass, cutoff: Time, id: Id)
    ensures id in Expired(db, cls, cutoff)
       <==> && id in db.profiles
            && var row, referenced := db.profiles[id], exists c :: c in db.credentials && db.credentials[c] == id;
               match cls
               case Direct => row.source == FromDirect && row.updated < cutoff
               case IdpCache => row.source == FromIdpCache && referenced && row.updated < cutoff
               case IdpCacheOrphan => row.source == FromIdpCache && !referenced && row.created < cutoff
               case Unknown(_) => false
  {
    if c :| c in db.credentials && db.credentials[c] == id {
      assert id in db.credentials.Values;
    }
  }

  function LogOf(cls: RetentionClass, order: seq<Id>): (rows: seq<LogRow>)
    ensures |rows| == |order| && forall i :: 0 <= i < |rows| ==> rows[i] == LogRow(order[i], cls)
  {
    seq(|order|, i requires 0 <= i < |order| => LogRow(order[i], cls))
  }

  lemma EntryFor(cls: RetentionClass, order: seq<Id>, id: Id)
    requires id in Members(order)
    ensures LogRow(id, cls) in LogOf(cls, order)
  {
    var i :| 0 <= i < |order| && order[i] == id;
    assert LogOf(cls, order)[i] == LogRow(id, cls);
  }

  lemma EntryIs(cls: RetentionClass, order: seq<Id>, e: LogRow)
    requires e in LogOf(cls, order)
    ensures e.profile in Members(order) && e.cls == cls
  {
    var i :| 0 <= i < |order| && LogOf(cls, order)[i] == e;
    assert order[i] == e.profile;
  }

  /** The tables once the profiles of `order` are deleted, their credentials with them, and each logged. */
  function Deleted(db: Db, cls: RetentionClass, order: seq<Id>): Db {
    var gone := Members(order);
    Db(db.profiles - gone,
       map c | c in db.credentials && db.credentials[c] !in gone :: db.credentials[c],
       db.log + LogOf(cls, order))
  }

  /** Deleted profiles are gone with every credential that names them; the rest stay, and the log gains one row each. */
  lemma DeletionTakes(db: Db, cls: RetentionClass, order: seq<Id>)
    ensures var after := Deleted(db, cls, order);
            && (forall id :: id in after.profiles <==> id in db.profiles && id !in order)
            && (forall id :: id in after.profiles ==> after.profiles[id] == db.profiles[id])
            && (forall c :: c in after.credentials <==> c in db.credentials && db.credentials[c] !in order)
            && (forall c :: c in after.credentials ==> after.credentials[c] == db.credentials[c])
            && |after.log| == |db.log| + |order| && db.log <= after.log
            && (forall i :: 0 <= i < |order| ==> after.log[|db.log| + i] == LogRow(order[i], cls))
  {
    assert forall id :: id in Members(order) <==> id in order;
  }

  predicate OldestIs(db: Db, cls: RetentionClass, oldest: Option<Time>) {
    if oldest.None? then forall id :: id in db.profiles ==> !InClass(db, cls, id)
    else
      && (exists id :: id in db.profiles && InClass(db, cls, id) && Clock(cls, db.profiles[id]) == oldest.value)
      && (forall id :: id in db.profiles && InClass(db, cls, id) ==> oldest.value <= Clock(cls, db.profiles[id]))
  }

  /**
   One successful call: it deletes and logs, in some order, as many expired rows of
   the class as the limit allows, whichever those are, and reports on what is left.
   */
  ghost predicate Batch(db: Db, cls: RetentionClass, cutoff: Time, maxRows: nat, order: seq<Id>, after: Db,
                        r: SweepResult)
  {
    && Distinct(order)
    && Members(order) <= Expired(db, cls, cutoff)
    && |order| == Min(maxRows, |Expired(db, cls, cutoff)|)
    && after == Deleted(db, cls, order)
    && r.examined == r.deleted == |order|
    && r.drained == (|order| < maxRows)
    && OldestIs(after, cls, r.oldest)
  }

  /**
   What the statement's own re-check reads at READ COMMITTED: each row as committed by
   then, but the credentials of the snapshot the statement began with.
   */
  function Rechecked(db: Db, meanwhile: Db): Db {
    meanwhile.(credentials := db.credentials)
  }

  /**
   The same while other transactions commit: rows are found in `db`, and those that
   pass the re-check are deleted from `meanwhile`.
   */
  ghost predicate BusyBatch(db: Db, meanwhile: Db, cls: RetentionClass, cutoff: Time, maxRows: nat,
                            found: seq<Id>, order: seq<Id>, after: Db, r: SweepResult) {
    && Distinct(found) && Members(found) <= Expired(db, cls, cutoff)
    && |found| == Min(maxRows, |Expired(db, cls, cutoff)|)
    && Distinct(order) && Members(order) == Members(found) * Expired(Rechecked(db, meanwhile), cls, cutoff)
    && after == Deleted(meanwhile, cls, order)
    && r.examined == |found| && r.deleted == |order|
    && r.drained == (|found| < maxRows)
    && OldestIs(after, cls, r.oldest)
  }

  /** With no one else about, what is found is deleted. */
  lemma QuietBatch(db: Db, cls: RetentionClass, cutoff: Time, maxRows: nat, found: seq<Id>, order: seq<Id>, after: Db,
                   r: SweepResult)
    requires BusyBatch(db, db, cls, cutoff, maxRows, found, order, after, r)
    ensures Batch(db, cls, cutoff, maxRows, order, after, r)
  {
    assert Rechecked(db, db) == db && Members(order) == Members(found);
    DistinctSize(order);
    DistinctSize(found);
  }

  lemma FewerDeleted(db: Db, meanwhile: Db, cls: RetentionClass, cutoff: Time, maxRows: nat,
                     found: seq<Id>, order: seq<Id>, after: Db, r: SweepResult)
    requires BusyBatch(db, meanwhile, cls, cutoff, maxRows, found, order, after, r)
    ensures r.deleted <= r.examined
  {
    DistinctSize(order);
    DistinctSize(found);
    SubsetSize(Members(order), Members(found));
  }

  /**
   A row the re-check lets go is past the cutoff as it then is; and it is then still of
   the class exactly if its class asks nothing of credentials or no credential of it
   came or went within the statement.
   */
  lemma RecheckedRow(db: Db, meanwhile: Db, cls: RetentionClass, cutoff: Time, id: Id)
    requires id in Expired(Rechecked(db, meanwhile), cls, cutoff)
    ensures id in meanwhile.profiles && Clock(cls, meanwhile.profiles[id]) < cutoff
    ensures InClass(meanwhile, cls, id) <==>
              cls.Direct? || (id in db.credentials.Values <==> id in meanwhile.credentials.Values)
  {
  }

  /** So the race stays open for credentials: an orphan that gains one meanwhile goes, and it with it. */
  lemma OrphanGoesDespiteCredential(db: Db, meanwhile: Db, after: Db)
    requires db == Db(map["p" := Row(FromIdpCache, 0, 0)], map[], [])
    requires meanwhile == db.(credentials := map["c" := "p"])
    requires after == Db(map[], map[], [LogRow("p", IdpCacheOrphan)])
    ensures !InClass(meanwhile, IdpCacheOrphan, "p") && InClass(meanwhile, IdpCache, "p")
    ensures BusyBatch(db, meanwhile, IdpCacheOrphan, 1, 1, ["p"], ["p"], after, SweepResult(1, 1, None, false))
  {
    assert meanwhile.credentials["c"] == "p" && "p" in meanwhile.credentials.Values;
    assert Expired(db, IdpCacheOrphan, 1) == {"p"} == Expired(Rechecked(db, meanwhile), IdpCacheOrphan, 1);
    assert Members(["p"]) == {"p"};
    assert LogOf(IdpCacheOrphan, ["p"]) == [LogRow("p", IdpCacheOrphan)];
    assert after.profiles == meanwhile.profiles - {"p"};
  }

  // ---------------------------------------------------------------- classes

  function ClassOf(db: Db, id: Id): RetentionClass
    requires id in db.profiles
  {
    if db.profiles[id].source.FromDirect? then Direct
    else if id in db.credentials.Values then IdpCache
    else IdpCacheOrphan
  }

  /** Every profile is in exactly one class. */
  lemma ClassesPartition(db: Db, cls: RetentionClass, id: Id)
    requires id in db.profiles
    ensures InClass(db, cls, id) <==> cls == ClassOf(db, id)
  {
  }

  // -------------------------------------------------------------- deletions

  lemma EmptyDeletion(db: Db, cls: RetentionClass)
    ensures Deleted(db, cls, []) == db
  {
    assert Members<Id>([]) == {};
    assert Deleted(db, cls, []).credentials == db.credentials;
  }

  /** Deleting in two goes is deleting once. */
  lemma DeletedTwice(db: Db, cls: RetentionClass, a: seq<Id>, b: seq<Id>)
    ensures Deleted(Deleted(db, cls, a), cls, b) == Deleted(db, cls, a + b)
  {
    MembersConcat(a, b);
    var once, twice := Deleted(db, cls, a + b), Deleted(Deleted(db, cls, a), cls, b);
    assert once.profiles == twice.profiles;
    assert once.credentials == twice.credentials;
    assert LogOf(cls, a + b) == LogOf(cls, a) + LogOf(cls, b);
    assert once.log == twice.log;
  }

  /** Deleting profiles moves no other profile to another class. */
  lemma SurvivorsKeepClass(db: Db, cls: RetentionClass, order: seq<Id>, other: RetentionClass, id: Id)
    ensures InClass(Deleted(db, cls, order), other, id) <==> InClass(db, other, id) && id !in Members(order)
  {
    var after := Deleted(db, cls, order);
    if id in db.credentials.Values && id !in Members(order) {
      var c :| c in db.credentials && db.credentials[c] == id;
      assert c in after.credentials && after.credentials[c] == id;
    }
    if id in after.credentials.Values {
      var c :| c in after.credentials && after.credentials[c] == id;
      assert db.credentials[c] == id;
    }
  }

  lemma ExpiredAfter(db: Db, cls: RetentionClass, order: seq<Id>, other: RetentionClass, cutoff: Time)
    ensures Expired(Deleted(db, cls, order), other, cutoff) == Expired(db, other, cutoff) - Members(order)
  {
    forall id
      ensures InClass(Deleted(db, cls, order), other, id) <==> InClass(db, other, id) && id !in Members(order)
    {
      SurvivorsKeepClass(db, cls, order, other, id);
    }
  }

  /** Classes do not overlap, so sweeping one leaves the others' expired rows alone. */
  lemma OtherClassUntouched(db: Db, cls: RetentionClass, cutoff: Time, order: seq<Id>, other: RetentionClass,
                            otherCutoff: Time)
    requires Members(order) <= Expired(db, cls, cutoff) && cls != other
    ensures Expired(Deleted(db, cls, order), other, otherCutoff) == Expired(db, other, otherCutoff)
  {
    ExpiredAfter(db, cls, order, other, otherCutoff);
    forall id | id in Members(order)
      ensures id !in Expired(db, other, otherCutoff)
    {
      ClassesPartition(db, cls, id);
      ClassesPartition(db, other, id);
    }
  }

  /** A batch that reports a survivor older than the cutoff was cut short by its limit. */
  lemma DrainedMeansNoneExpired(db: Db, cls: RetentionClass, cutoff: Time, maxRows: nat, order: seq<Id>, after: Db,
                                r: SweepResult)
    requires Batch(db, cls, cutoff, maxRows, order, after, r)
    ensures r.drained ==> Expired(after, cls, cutoff) == {}
    ensures r.drained && r.oldest.Some? ==> r.oldest.value >= cutoff
  {
    ExpiredAfter(db, cls, order, cls, cutoff);
    if r.drained {
      DistinctSize(order);
      WholeSubset(Members(order), Expired(db, cls, cutoff));
      if r.oldest.Some? {
        var id :| id in after.profiles && InClass(after, cls, id) && Clock(cls, after.profiles[id]) == r.oldest.value;
        assert id !in Expired(after, cls, cutoff);
      }
    }
  }
}
