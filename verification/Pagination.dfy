/**
 Following next_cursor through the search handler of internal/api/handlers.go: what
 the walk collects, and how far it can go before the offset limit stops it.
 */
module Pagination {
  import opened Arithmetic
  import opened Outcomes
  import opened ProfileSearch
  import C = Cursor

  const DEFAULT_PAGE := 20
  const MAX_PAGE := 50

  datatype PageError = NoFilter | MalformedCursor | PageTooLarge | Dao(error: DaoError)

  datatype Page = Page(results: seq<Profile>, total: nat, next: string)

  function PageSize(requested: int): int {
    if requested <= 0 then DEFAULT_PAGE else requested
  }

  predicate HasFilter(f: Filters) {
    f.name.Some? || f.phone.Some? || f.region.Some? || f.country.Some?
  }

  /** The handler's page at an offset, and the offset its next cursor stands for. */
  function PageFrom(rows: seq<Profile>, f: Filters, offset: nat,
                    requested: int): Result<(seq<Profile>, nat, Option<nat>), PageError>
  {
    var size := PageSize(requested);
    if size > MAX_PAGE then Err(PageTooLarge)
    else
      match Found(rows, Query(f, size, offset))
      case Err(e) => Err(Dao(e))
      case Ok((results, total)) =>
        Ok((results, total, if offset + |results| < total then Some(offset + |results|) else None))
  }

  function Cursor(next: Option<nat>): string {
    if next.Some? then C.EncodeCursor(next.value) else ""
  }

  /** The handler's request checks, query and next-cursor rule. */
  function SearchPage(rows: seq<Profile>, f: Filters, cursor: string, requested: int): Result<Page, PageError> {
    if !HasFilter(f) then Err(NoFilter)
    else
      match C.DecodeCursor(cursor)
      case Err(_) => Err(MalformedCursor)
      case Ok(offset) =>
        match PageFrom(rows, f, offset, requested)
        case Err(e) => Err(e)
        case Ok((results, total, next)) => Ok(Page(results, total, Cursor(next)))
  }

  /** A filter given as nothing but white space. */
  lemma FiltersRefused(f: Filters)
    ensures FiltersValid(f)
       <==> && (f.name.Some? ==> exists i :: 0 <= i < |f.name.value| && !IsSpace(f.name.value[i]))
            && (f.phone.Some? ==> exists i :: 0 <= i < |f.phone.value| && !IsSpace(f.phone.value[i]))
            && (f.region.Some? ==> exists i :: 0 <= i < |f.region.value| && !IsSpace(f.region.value[i]))
            && (f.country.Some? ==>
                  |f.country.value| == 2 && exists i :: 0 <= i < |f.country.value| && !IsSpace(f.country.value[i]))
  {
  }

  /**
   A search answers exactly when some filter is given and none is malformed, the cursor
   decodes to an offset within 10,000 and the page is at most 50.
   */
  lemma PageAnswers(rows: seq<Profile>, f: Filters, cursor: string, requested: int)
    ensures var at := C.DecodeCursor(cursor);
            SearchPage(rows, f, cursor, requested).Ok?
            <==> && (f.name.Some? || f.phone.Some? || f.region.Some? || f.country.Some?)
                 && FiltersValid(f) && at.Ok? && at.value <= 10_000 && requested <= 50
  {
  }

  lemma PageFromHolds(rows: seq<Profile>, f: Filters, offset: nat, requested: int)
    requires FiltersValid(f) && offset <= MAX_OFFSET && requested <= MAX_PAGE
    ensures var all, size := Ordered(f, rows), PageSize(requested);
            var more := offset + size < |all|;
            PageFrom(rows, f, offset, requested)
            == Ok((if offset >= |all| then [] else if more then all[offset..offset + size] else all[offset..], |all|,
                   if more then Some(offset + size) else None))
  {
    if offset < |Ordered(f, rows)| {
      PageFromIs(rows, f, offset, requested);
    }
  }

  /**
   A page is the records ranked from the offset on, with the number of all of them and a
   cursor to the rest, if any.
   */
  lemma PageHolds(rows: seq<Profile>, f: Filters, cursor: string, requested: int, offset: nat)
    requires SearchPage(rows, f, cursor, requested).Ok? && C.DecodeCursor(cursor) == Ok(offset)
    ensures var page, all := SearchPage(rows, f, cursor, requested).value, Ordered(f, rows);
            var size := if requested <= 0 then 20 else requested;
            && page.total == |all|
            && page.results == (if offset >= |all| then [] else if offset + size < |all|
                                then all[offset..offset + size] else all[offset..])
            && page.next == if offset + size < |all| then C.EncodeCursor(offset + size) else ""
  {
    PageAnswers(rows, f, cursor, requested);
    PageIsFrom(rows, f, cursor, requested, offset);
    PageFromHolds(rows, f, offset, requested);
  }

  lemma PageIsFrom(rows: seq<Profile>, f: Filters, cursor: string, requested: int, offset: nat)
    requires SearchPage(rows, f, cursor, requested).Ok? && C.DecodeCursor(cursor) == Ok(offset)
    ensures var page, from := SearchPage(rows, f, cursor, requested).value, PageFrom(rows, f, offset, requested);
            && from.Ok? && page.results == from.value.0 && page.total == from.value.1
            && page.next == (if from.value.2.Some? then C.EncodeCursor(from.value.2.value) else "")
  {
  }

  /** How many rows lie beyond the offset a cursor stands for. */
  function Remaining(rows: seq<Profile>, f: Filters, cursor: string): nat {
    match C.DecodeCursor(cursor)
    case Err(_) => 0
    case Ok(offset) => if offset < |Ordered(f, rows)| then |Ordered(f, rows)| - offset else 0
  }

  /** Every next cursor leads strictly further, so a walk ends. */
  lemma NextAdvances(rows: seq<Profile>, f: Filters, cursor: string, requested: int)
    ensures var page := SearchPage(rows, f, cursor, requested);
            page.Ok? && page.value.next != "" ==>
              && C.DecodeCursor(cursor).Ok?
              && C.DecodeCursor(page.value.next) == Ok(C.DecodeCursor(cursor).value + |page.value.results|)
              && Remaining(rows, f, page.value.next) < Remaining(rows, f, cursor)
  {
    var page := SearchPage(rows, f, cursor, requested);
    if page.Ok? && page.value.next != "" {
      C.CursorRoundTrip(C.DecodeCursor(cursor).value + |page.value.results|);
    }
  }

  /** All results of the page at `cursor` and of every page after it. */
  function Walk(rows: seq<Profile>, f: Filters, cursor: string, requested: int): Result<seq<Profile>, PageError>
    decreases Remaining(rows, f, cursor)
  {
    NextAdvances(rows, f, cursor, requested);
    match SearchPage(rows, f, cursor, requested)
    case Err(e) => Err(e)
    case Ok(page) =>
      if page.next == "" then Ok(page.results)
      else
        match Walk(rows, f, page.next, requested)
        case Err(e) => Err(e)
        case Ok(rest) => Ok(page.results + rest)
  }

  /** The offset of the last page when pages of `size` start at `offset`. */
  function LastOffset(total: nat, offset: nat, size: nat): nat
    requires size > 0
    decreases total - offset
  {
    if offset + size < total then LastOffset(total, offset + size, size) else offset
  }

  lemma PageFromIs(rows: seq<Profile>, f: Filters, offset: nat, requested: int)
    requires FiltersValid(f) && requested <= MAX_PAGE
    requires offset == 0 || offset < |Ordered(f, rows)|
    ensures var all, size := Ordered(f, rows), PageSize(requested);
            PageFrom(rows, f, offset, requested)
            == if offset > MAX_OFFSET then Err(Dao(InvalidQuery))
               else if offset + size < |all| then Ok((all[offset..offset + size], |all|, Some(offset + size)))
               else Ok((all[offset..], |all|, None))
  {
    var all, size := Ordered(f, rows), PageSize(requested);
    if offset + size < |all| {
      assert Slice(all, offset, size) == all[offset..offset + size];
    } else {
      assert offset <= |all| && Slice(all, offset, size) == all[offset..];
    }
  }

  lemma CursorLeadsOn(next: nat)
    requires 0 < next <= C.MAX_INT
    ensures Cursor(Some(next)) != "" && C.DecodeCursor(Cursor(Some(next))) == Ok(next)
  {
    C.CursorRoundTrip(next);
  }

  /** The page at an offset; `next` is the cursor it carries, if any. */
  lemma PageReached(rows: seq<Profile>, f: Filters, cursor: string, requested: int, offset: nat) returns (next: string)
    requires HasFilter(f) && FiltersValid(f) && requested <= MAX_PAGE
    requires C.DecodeCursor(cursor) == Ok(offset)
    requires offset == 0 || offset < |Ordered(f, rows)|
    ensures var all, size := Ordered(f, rows), PageSize(requested);
            if offset > MAX_OFFSET then SearchPage(rows, f, cursor, requested) == Err(Dao(InvalidQuery))
            else if offset + size < |all| then
              && SearchPage(rows, f, cursor, requested) == Ok(Page(all[offset..offset + size], |all|, next))
              && next != "" && C.DecodeCursor(next) == Ok(offset + size)
            else SearchPage(rows, f, cursor, requested) == Ok(Page(all[offset..], |all|, ""))
  {
    var size := PageSize(requested);
    next := Cursor(Some(offset + size));
    PageFromIs(rows, f, offset, requested);
    if offset <= MAX_OFFSET {
      CursorLeadsOn(offset + size);
    }
  }

  lemma WalkStops(rows: seq<Profile>, f: Filters, cursor: string, requested: int)
    ensures SearchPage(rows, f, cursor, requested).Err? ==>
              Walk(rows, f, cursor, requested) == Err(SearchPage(rows, f, cursor, requested).error)
    ensures SearchPage(rows, f, cursor, requested).Ok? && SearchPage(rows, f, cursor, requested).value.next == "" ==>
              Walk(rows, f, cursor, requested) == Ok(SearchPage(rows, f, cursor, requested).value.results)
  {
  }

  lemma WalkGoesOn(rows: seq<Profile>, f: Filters, cursor: string, requested: int, page: Page,
                   rest: Result<seq<Profile>, PageError>)
    requires SearchPage(rows, f, cursor, requested) == Ok(page) && page.next != ""
    requires Walk(rows, f, page.next, requested) == rest
    ensures Walk(rows, f, cursor, requested) == if rest.Ok? then Ok(page.results + rest.value) else rest
  {
  }

  /** What the walk delivers from an offset on. */
  function Delivered(all: seq<Profile>, offset: nat, size: nat): Result<seq<Profile>, PageError>
    requires size > 0 && offset <= |all|
  {
    if LastOffset(|all|, offset, size) <= MAX_OFFSET then Ok(all[offset..]) else Err(Dao(InvalidQuery))
  }

  lemma DeliveredExtends(all: seq<Profile>, offset: nat, size: nat)
    requires size > 0 && offset + size < |all|
    ensures var rest := Delivered(all, offset + size, size);
            Delivered(all, offset, size) == if rest.Ok? then Ok(all[offset..offset + size] + rest.value) else rest
  {
    assert all[offset..offset + size] + all[offset + size..] == all[offset..];
  }

  /** A page out of reach, or the last one, ends the walk. */
  lemma WalkEnds(rows: seq<Profile>, f: Filters, cursor: string, requested: int, all: seq<Profile>, offset: nat,
                 size: nat)
    requires size > 0 && offset <= |all|
    requires SearchPage(rows, f, cursor, requested)
          == if offset > MAX_OFFSET then Err(Dao(InvalidQuery)) else Ok(Page(all[offset..], |all|, ""))
    requires offset > MAX_OFFSET || offset + size >= |all|
    ensures Walk(rows, f, cursor, requested) == Delivered(all, offset, size)
  {
    LastOffsetBeyond(|all|, offset, size);
    WalkStops(rows, f, cursor, requested);
  }

  /** A page that is not the last carries a cursor to the next. */
  predicate Leads(rows: seq<Profile>, f: Filters, cursor: string, requested: int, all: seq<Profile>, offset: nat,
                  size: nat, next: string)
  {
    && offset + size < |all|
    && var page := SearchPage(rows, f, cursor, requested);
       page.Ok? && page.value.results == all[offset..offset + size] && page.value.next == next != ""
  }

  lemma PageLeads(rows: seq<Profile>, f: Filters, cursor: string, requested: int, offset: nat) returns (next: string)
    requires HasFilter(f) && FiltersValid(f) && requested <= MAX_PAGE && C.DecodeCursor(cursor) == Ok(offset)
    requires offset <= MAX_OFFSET && offset + PageSize(requested) < |Ordered(f, rows)|
    ensures Leads(rows, f, cursor, requested, Ordered(f, rows), offset, PageSize(requested), next)
    ensures C.DecodeCursor(next) == Ok(offset + PageSize(requested))
  {
    next := PageReached(rows, f, cursor, requested, offset);
  }

  lemma WalkContinues(rows: seq<Profile>, f: Filters, cursor: string, requested: int, all: seq<Profile>, offset: nat,
                      size: nat, next: string)
    requires size > 0 && Leads(rows, f, cursor, requested, all, offset, size, next)
    requires Walk(rows, f, next, requested) == Delivered(all, offset + size, size)
    ensures Walk(rows, f, cursor, requested) == Delivered(all, offset, size)
  {
    WalkGoesOn(rows, f, cursor, requested, SearchPage(rows, f, cursor, requested).value,
               Delivered(all, offset + size, size));
    DeliveredExtends(all, offset, size);
  }

  lemma LastPage(rows: seq<Profile>, f: Filters, cursor: string, requested: int, offset: nat)
    requires HasFilter(f) && FiltersValid(f) && requested <= MAX_PAGE && C.DecodeCursor(cursor) == Ok(offset)
    requires offset == 0 || offset < |Ordered(f, rows)|
    requires offset > MAX_OFFSET || offset + PageSize(requested) >= |Ordered(f, rows)|
    ensures Walk(rows, f, cursor, requested) == Delivered(Ordered(f, rows), offset, PageSize(requested))
  {
    var _ := PageReached(rows, f, cursor, requested, offset);
    WalkEnds(rows, f, cursor, requested, Ordered(f, rows), offset, PageSize(requested));
  }

  lemma {:induction false} WalkFrom(rows: seq<Profile>, f: Filters, cursor: string, requested: int, offset: nat)
    requires HasFilter(f) && FiltersValid(f) && requested <= MAX_PAGE
    requires C.DecodeCursor(cursor) == Ok(offset)
    requires offset == 0 || offset < |Ordered(f, rows)|
    ensures Walk(rows, f, cursor, requested) == Delivered(Ordered(f, rows), offset, PageSize(requested))
    decreases |Ordered(f, rows)| - offset
  {
    if offset <= MAX_OFFSET && offset + PageSize(requested) < |Ordered(f, rows)| {
      var next := PageLeads(rows, f, cursor, requested, offset);
      WalkFrom(rows, f, next, requested, offset + PageSize(requested));
      WalkContinues(rows, f, cursor, requested, Ordered(f, rows), offset, PageSize(requested), next);
    } else {
      LastPage(rows, f, cursor, requested, offset);
    }
  }

  lemma {:induction false} LastOffsetBeyond(total: nat, offset: nat, size: nat)
    requires size > 0
    ensures LastOffset(total, offset, size) >= offset
    decreases total - offset
  {
    if offset + size < total {
      LastOffsetBeyond(total, offset + size, size);
    }
  }

  /** The last page starts at the greatest multiple of the page size below the total. */
  lemma {:induction false} LastOffsetIs(total: nat, k: nat, size: nat)
    requires size > 0 && k * size < total
    ensures LastOffset(total, k * size, size) == (total - 1) / size * size
    decreases total - k * size
  {
    assert (k + 1) * size == k * size + size;
    if k * size + size < total {
      LastOffsetIs(total, k + 1, size);
    } else {
      DivModUnique(total - 1, size, k, total - 1 - k * size);
    }
  }

  lemma WalkFromStart(rows: seq<Profile>, f: Filters, requested: int)
    requires HasFilter(f) && FiltersValid(f) && requested <= MAX_PAGE
    ensures Walk(rows, f, "", requested) == Delivered(Ordered(f, rows), 0, PageSize(requested))
  {
    WalkFrom(rows, f, "", requested, 0);
  }

  lemma DeliveredFromStart(all: seq<Profile>, size: nat)
    requires size > 0
    ensures Delivered(all, 0, size)
         == if all == [] || (|all| - 1) / size * size <= MAX_OFFSET then Ok(all) else Err(Dao(InvalidQuery))
  {
    assert all[0..] == all;
    if all != [] {
      LastOffsetIs(|all|, 0, size);
    }
  }

  /**
   Starting from the empty cursor, the walk delivers exactly the matching rows in
   order, each once, if and only if its last page starts within the offset limit;
   otherwise it ends in the DAO's refusal of a cursor the handler itself issued.
   */
  lemma WalkDeliversAll(rows: seq<Profile>, f: Filters, requested: int)
    requires UniqueIds(rows) && HasFilter(f) && FiltersValid(f) && requested <= 50
    ensures var all, size := Ordered(f, rows), if requested <= 0 then 20 else requested;
            && Walk(rows, f, "", requested)
               == (if all == [] || (|all| - 1) / size * size <= 10_000 then Ok(all) else Err(Dao(InvalidQuery)))
            && IsListing(f, rows, all)
  {
    OrderedLists(f, rows);
    WalkFromStart(rows, f, requested);
    DeliveredFromStart(Ordered(f, rows), PageSize(requested));
  }

  /** n profiles of one country. */
  function Crowd(n: nat): seq<Profile> {
    seq(n, i requires 0 <= i < n => Profile(seq(i, _ => 'a'), "", None, None, Some("DE")))
  }

  const GERMANS := Filters(None, None, None, Some("DE"))

  lemma CrowdListed(n: nat)
    ensures UniqueIds(Crowd(n)) && |Ordered(GERMANS, Crowd(n))| == n
  {
    var rows := Crowd(n);
    assert forall i :: 0 <= i < n ==> |rows[i].id| == i;
    assert Upper("DE") == "DE";
    AllListed(GERMANS, rows);
  }

  lemma GermansValid()
    ensures HasFilter(GERMANS) && FiltersValid(GERMANS)
  {
    assert !IsSpace("DE"[0]);
  }

  /** A listing that outruns the offset limit by a page is not walked through. */
  lemma CutShort(rows: seq<Profile>, f: Filters, requested: int)
    requires HasFilter(f) && FiltersValid(f) && requested <= MAX_PAGE
    requires |Ordered(f, rows)| > MAX_OFFSET + PageSize(requested)
    ensures Walk(rows, f, "", requested) == Err(Dao(InvalidQuery))
  {
    WalkFromStart(rows, f, requested);
    LastStartsBeyond(|Ordered(f, rows)|, PageSize(requested));
  }

  /**
   The refusal does occur: with more rows than the offset limit and a page, 10,100 of
   one country in pages of 50 for one, the walk is cut short.
   */
  lemma WalkCutShort(n: nat, requested: int)
    requires requested <= MAX_PAGE && n > MAX_OFFSET + PageSize(requested)
    ensures UniqueIds(Crowd(n)) && HasFilter(GERMANS) && FiltersValid(GERMANS)
    ensures Walk(Crowd(n), GERMANS, "", requested) == Err(Dao(InvalidQuery))
  {
    GermansValid();
    CrowdListed(n);
    CutShort(Crowd(n), GERMANS, requested);
  }

  lemma LastStartsBeyond(total: nat, size: nat)
    requires size > 0 && total > MAX_OFFSET + size
    ensures LastOffset(total, 0, size) > MAX_OFFSET
  {
    LastOffsetIs(total, 0, size);
    LastPageBeyond(total, size);
  }

  lemma LastPageBeyond(total: nat, size: nat)
    requires size > 0 && total > MAX_OFFSET + size
    ensures (total - 1) / size * size > MAX_OFFSET
  {
    var q := (total - 1) / size;
    assert total - 1 == q * size + (total - 1) % size;
  }
}
