/**
 Profile search of internal/dao/sqlite/profiles.go: the WHERE clause it builds, the
 total order it asks for, and the page and count it returns.
 */
module ProfileSearch {
  import opened Arithmetic
  import opened Outcomes
  import opened Text
  import opened Like

  datatype Profile = Profile(id: string, name: string, phone: Option<string>, region: Option<string>,
                             country: Option<string>)

  datatype Filters = Filters(name: Option<string>, phone: Option<string>, region: Option<string>,
                             country: Option<string>)

  datatype Query = Query(filters: Filters, limit: int, offset: int)

  datatype DaoError = InvalidQuery

  const MAX_OFFSET := 10_000

  // -------------------------------------------------------------- validation

  /** unicode.IsSpace. */
  predicate IsSpace(c: char) {
    var n := c as int;
    || 0x09 <= n <= 0x0d || n == 0x20 || n == 0x85 || n == 0xa0 || n == 0x1680
    || 0x2000 <= n <= 0x200a || n == 0x2028 || n == 0x2029 || n == 0x202f || n == 0x205f || n == 0x3000
  }

  predicate Blank(f: Option<string>) {
    f.Some? && forall i :: 0 <= i < |f.value| ==> IsSpace(f.value[i])
  }

  predicate FiltersValid(f: Filters) {
    && !Blank(f.name) && !Blank(f.phone) && !Blank(f.region) && !Blank(f.country)
    && (f.country.Some? ==> |f.country.value| == 2)
  }

  predicate QueryValid(q: Query) {
    && FiltersValid(q.filters)
    && 0 <= q.limit <= 100
    && 0 <= q.offset <= MAX_OFFSET
  }

  function EffectiveLimit(q: Query): int {
    if q.limit == 0 then 50 else q.limit
  }

  // ------------------------------------------------------------------ filter

  function UpperChar(c: char): char {
    if 'a' <= c <= 'z' then c - 'a' + 'A' else c
  }

  function Upper(s: string): string {
    seq(|s|, i requires 0 <= i < |s| => UpperChar(s[i]))
  }

  /** What a search is for. */
  predicate Selects(f: Filters, p: Profile) {
    && (f.name.Some? ==> Occurs(Lower(f.name.value), Lower(p.name)))
    && (f.phone.Some? ==> p.phone == f.phone)
    && (f.region.Some? ==> p.region.Some? && Lower(p.region.value) == Lower(f.region.value))
    && (f.country.Some? ==> p.country == Some(Upper(f.country.value)))
  }

  /** One conjunct of the WHERE clause with its bound argument. */
  datatype Condition =
    | NameLike(pattern: string)
    | PhoneIs(phone: string)
    | RegionIs(region: string)
    | CountryIs(country: string)

  predicate Holds(c: Condition, p: Profile) {
    match c
    case NameLike(pattern) => Matches(Lower(pattern), Lower(p.name))
    case PhoneIs(phone) => p.phone == Some(phone)
    case RegionIs(region) => p.region.Some? && Lower(p.region.value) == Lower(region)
    case CountryIs(country) => p.country == Some(country)
  }

  /** A NULL column satisfies no comparison; an empty clause selects every row. */
  predicate AllHold(where: seq<Condition>, p: Profile) {
    forall i :: 0 <= i < |where| ==> Holds(where[i], p)
  }

  method BuildWhere(f: Filters) returns (where: seq<Condition>)
    ensures forall p :: AllHold(where, p) <==> Selects(f, p)
  {
    where := [];
    if f.name.Some? {
      where := where + [NameLike(Contains(f.name.value))];
    }
    if f.phone.Some? {
      where := where + [PhoneIs(f.phone.value)];
    }
    if f.region.Some? {
      where := where + [RegionIs(f.region.value)];
    }
    if f.country.Some? {
      where := where + [CountryIs(Upper(f.country.value))];
    }
    forall p
      ensures AllHold(where, p) <==> Selects(f, p)
    {
      if f.name.Some? {
        NameFilter(f.name.value, p.name);
      }
      WhereIsFilters(f, where, p);
    }
  }

  /** The conditions built for `f`, in the order the clause lists them. */
  function Clause(f: Filters): seq<Condition> {
    (if f.name.Some? then [NameLike(Contains(f.name.value))] else [])
    + (if f.phone.Some? then [PhoneIs(f.phone.value)] else [])
    + (if f.region.Some? then [RegionIs(f.region.value)] else [])
    + (if f.country.Some? then [CountryIs(Upper(f.country.value))] else [])
  }

  lemma AllHoldConcat(a: seq<Condition>, b: seq<Condition>, p: Profile)
    ensures AllHold(a + b, p) <==> AllHold(a, p) && AllHold(b, p)
  {
    if AllHold(a + b, p) {
      assert forall i :: 0 <= i < |a| ==> a[i] == (a + b)[i];
      assert forall i :: 0 <= i < |b| ==> b[i] == (a + b)[|a| + i];
    }
  }

  lemma WhereIsFilters(f: Filters, where: seq<Condition>, p: Profile)
    requires where == Clause(f)
    requires f.name.Some? ==> (Matches(Lower(Contains(f.name.value)), Lower(p.name))
                               <==> Occurs(Lower(f.name.value), Lower(p.name)))
    ensures AllHold(where, p) <==> Selects(f, p)
  {
    var a := if f.name.Some? then [NameLike(Contains(f.name.value))] else [];
    var b := if f.phone.Some? then [PhoneIs(f.phone.value)] else [];
    var c := if f.region.Some? then [RegionIs(f.region.value)] else [];
    var d := if f.country.Some? then [CountryIs(Upper(f.country.value))] else [];
    AllHoldConcat(a, b, p);
    AllHoldConcat(a + b, c, p);
    AllHoldConcat(a + b + c, d, p);
    assert f.name.Some? ==> (AllHold(a, p) <==> Holds(a[0], p));
    assert f.phone.Some? ==> (AllHold(b, p) <==> Holds(b[0], p));
    assert f.region.Some? ==> (AllHold(c, p) <==> Holds(c[0], p));
    assert f.country.Some? ==> (AllHold(d, p) <==> Holds(d[0], p));
  }

  // ------------------------------------------------------------------- order

  /** ORDER BY LOWER(name), id. */
  predicate Less(a: Profile, b: Profile) {
    Before(Lower(a.name), Lower(b.name)) || (Lower(a.name) == Lower(b.name) && Before(a.id, b.id))
  }

  lemma LessTotal(a: Profile, b: Profile)
    requires a.id != b.id
    ensures Less(a, b) || Less(b, a)
  {
    BeforeTotal(Lower(a.name), Lower(b.name));
    BeforeTotal(a.id, b.id);
  }

  lemma LessTransitive(a: Profile, b: Profile, c: Profile)
    requires Less(a, b) && Less(b, c)
    ensures Less(a, c)
  {
    if Before(Lower(a.name), Lower(b.name)) && Before(Lower(b.name), Lower(c.name)) {
      BeforeTransitive(Lower(a.name), Lower(b.name), Lower(c.name));
    }
    if Before(a.id, b.id) && Before(b.id, c.id) {
      BeforeTransitive(a.id, b.id, c.id);
    }
  }

  lemma LessAsymmetric(a: Profile, b: Profile)
    requires Less(a, b)
    ensures !Less(b, a) && a != b
  {
    if Before(Lower(a.name), Lower(b.name)) {
      BeforeAsymmetric(Lower(a.name), Lower(b.name));
    } else {
      BeforeIrreflexive(Lower(a.name));
      BeforeAsymmetric(a.id, b.id);
    }
  }

  predicate Sorted(s: seq<Profile>) {
    forall i, j :: 0 <= i < j < |s| ==> Less(s[i], s[j])
  }

  /** `id` is the primary key. */
  predicate UniqueIds(rows: seq<Profile>) {
    forall i, j :: 0 <= i < j < |rows| ==> rows[i].id != rows[j].id
  }

  function Insert(p: Profile, s: seq<Profile>): seq<Profile> {
    if s == [] || Less(p, s[0]) then [p] + s else [s[0]] + Insert(p, s[1..])
  }

  /** The selected rows in order. */
  function Ordered(f: Filters, rows: seq<Profile>): seq<Profile> {
    if rows == [] then []
    else if Selects(f, rows[0]) then Insert(rows[0], Ordered(f, rows[1..]))
    else Ordered(f, rows[1..])
  }

  lemma {:induction false} InsertLength(p: Profile, s: seq<Profile>)
    ensures |Insert(p, s)| == |s| + 1
  {
    if !(s == [] || Less(p, s[0])) {
      InsertLength(p, s[1..]);
    }
  }

  /** A listing of rows that all qualify leaves none out. */
  lemma {:induction false} AllListed(f: Filters, rows: seq<Profile>)
    requires forall x :: x in rows ==> Selects(f, x)
    ensures |Ordered(f, rows)| == |rows|
  {
    if rows != [] {
      assert rows[0] in rows;
      AllListed(f, rows[1..]);
      InsertLength(rows[0], Ordered(f, rows[1..]));
    }
  }

  lemma {:induction false} InsertMembers(p: Profile, s: seq<Profile>, x: Profile)
    ensures x in Insert(p, s) <==> x == p || x in s
  {
    if !(s == [] || Less(p, s[0])) {
      InsertMembers(p, s[1..], x);
      assert s == [s[0]] + s[1..];
    }
  }

  lemma {:induction false} InsertSorts(p: Profile, s: seq<Profile>)
    requires Sorted(s) && forall x :: x in s ==> x.id != p.id
    ensures Sorted(Insert(p, s)) && |Insert(p, s)| == |s| + 1
  {
    if s == [] {
    } else if Less(p, s[0]) {
      forall j | 0 <= j < |s|
        ensures Less(p, s[j])
      {
        if j > 0 {
          LessTransitive(p, s[0], s[j]);
        }
      }
    } else {
      InsertSorts(p, s[1..]);
      LessTotal(p, s[0]);
      forall x | x in Insert(p, s[1..])
        ensures Less(s[0], x)
      {
        InsertMembers(p, s[1..], x);
      }
    }
  }

  /** The ordered result: sorted, each selected row exactly once, nothing else. */
  lemma {:induction false} OrderedSorts(f: Filters, rows: seq<Profile>)
    requires UniqueIds(rows)
    ensures Sorted(Ordered(f, rows))
    ensures forall x :: x in Ordered(f, rows) <==> x in rows && Selects(f, x)
  {
    if rows != [] {
      OrderedSorts(f, rows[1..]);
      assert rows == [rows[0]] + rows[1..];
      if Selects(f, rows[0]) {
        forall x
          ensures x in Ordered(f, rows) <==> x == rows[0] || x in Ordered(f, rows[1..])
        {
          InsertMembers(rows[0], Ordered(f, rows[1..]), x);
        }
        InsertSorts(rows[0], Ordered(f, rows[1..]));
      }
    }
  }

  /**
   The rows every filter given picks out: the name contains it whatever the case, the phone
   is it, the region is it whatever the case, the country is its upper case.  They come by
   name whatever the case and then by id, so each once.
   */
  ghost predicate IsListing(f: Filters, rows: seq<Profile>, all: seq<Profile>) {
    && (forall i, j :: 0 <= i < j < |all| ==>
          || Before(Lower(all[i].name), Lower(all[j].name))
          || (Lower(all[i].name) == Lower(all[j].name) && Before(all[i].id, all[j].id)))
    && (forall x :: x in all <==>
          && x in rows
          && (f.name.Some? ==> Occurs(Lower(f.name.value), Lower(x.name)))
          && (f.phone.Some? ==> x.phone == f.phone)
          && (f.region.Some? ==> x.region.Some? && Lower(x.region.value) == Lower(f.region.value))
          && (f.country.Some? ==> x.country == Some(Upper(f.country.value))))
  }

  lemma OrderedLists(f: Filters, rows: seq<Profile>)
    requires UniqueIds(rows)
    ensures IsListing(f, rows, Ordered(f, rows))
  {
    OrderedSorts(f, rows);
  }

  /** A sorted listing is determined by its rows, so the table's own order never shows. */
  lemma {:induction false} SortedUnique(a: seq<Profile>, b: seq<Profile>)
    requires Sorted(a) && Sorted(b) && forall x :: x in a <==> x in b
    ensures a == b
  {
    if a == [] {
      if b != [] {
        HasMember(b);
      }
    } else {
      assert a[0] in b && b != [] && b[0] in a;
      FirstsAgree(a, b);
      forall x
        ensures x in a[1..] <==> x in b[1..]
      {
        RestMember(a, x);
        RestMember(b, x);
      }
      SortedUnique(a[1..], b[1..]);
      assert a == [a[0]] + a[1..] && b == [b[0]] + b[1..];
    }
  }

  lemma HasMember(b: seq<Profile>)
    requires b != []
    ensures exists x :: x in b
  {
    assert b[0] in b;
  }

  lemma FirstsAgree(a: seq<Profile>, b: seq<Profile>)
    requires Sorted(a) && Sorted(b) && a != [] && b != [] && a[0] in b && b[0] in a
    ensures a[0] == b[0]
  {
    if a[0] != b[0] {
      assert Less(b[0], a[0]);
      assert Less(a[0], b[0]);
      LessAsymmetric(a[0], b[0]);
    }
  }

  lemma RestMember(a: seq<Profile>, x: Profile)
    requires Sorted(a) && a != []
    ensures x in a[1..] <==> x in a && x != a[0]
  {
    if x in a[1..] {
      var j :| 0 <= j < |a[1..]| && a[1..][j] == x;
      LessAsymmetric(a[0], a[j + 1]);
    }
    assert a == [a[0]] + a[1..];
  }

  /** Rows that make up the same table in any physical order list the same way. */
  lemma OrderIndependent(f: Filters, rows: seq<Profile>, other: seq<Profile>)
    requires UniqueIds(rows) && UniqueIds(other) && forall x :: x in rows <==> x in other
    ensures Ordered(f, rows) == Ordered(f, other)
  {
    OrderedSorts(f, rows);
    OrderedSorts(f, other);
    SortedUnique(Ordered(f, rows), Ordered(f, other));
  }

  // ------------------------------------------------------------------ search

  /** LIMIT and OFFSET. */
  function Slice(s: seq<Profile>, offset: nat, limit: nat): seq<Profile> {
    s[Min(offset, |s|)..Min(offset + limit, |s|)]
  }

  function Found(rows: seq<Profile>, q: Query): Result<(seq<Profile>, nat), DaoError> {
    if !QueryValid(q) then Err(InvalidQuery)
    else
      var all := Ordered(q.filters, rows);
      Ok((Slice(all, q.offset, EffectiveLimit(q)), |all|))
  }

  /** The rows every condition holds of, in the total order. */
  method SelectOrdered(rows: seq<Profile>, f: Filters) returns (selected: seq<Profile>)
    ensures selected == Ordered(f, rows)
  {
    var where := BuildWhere(f);
    selected := [];
    var n := |rows|;
    while n > 0
      invariant 0 <= n <= |rows|
      invariant selected == Ordered(f, rows[n..])
    {
      n := n - 1;
      assert rows[n..][1..] == rows[n + 1..];
      if AllHold(where, rows[n]) {
        selected := Insert(rows[n], selected);
      }
    }
  }

  method Page(selected: seq<Profile>, offset: nat, limit: nat) returns (results: seq<Profile>)
    ensures results == Slice(selected, offset, limit)
  {
    results := [];
    ghost var first := Min(offset, |selected|);
    var i := Min(offset, |selected|);
    while i < |selected| && |results| < limit
      invariant first <= i <= |selected| && i - first <= limit
      invariant results == selected[first..i]
    {
      results := results + [selected[i]];
      i := i + 1;
    }
  }

  method Search(rows: seq<Profile>, q: Query) returns (r: Result<(seq<Profile>, nat), DaoError>)
    ensures r == Found(rows, q)
  {
    if !QueryValid(q) {
      return Err(InvalidQuery);
    }
    var selected := SelectOrdered(rows, q.filters);
    var results := Page(selected, q.offset, EffectiveLimit(q));
    return Ok((results, |selected|));
  }
}
