/**
 * The filter bar shared by the public and the admin booking lists
 * (app/public/view-booking/page.tsx and app/admin/view-booking/page.tsx): a search
 * term, an optional start and end date, and a sort order, applied in that order to the
 * loaded bookings. Each page supplies how a booking is searched, dated and timed.
 */
module BookingFilters {
  import opened Wrappers
  import opened Text
  import opened DateUtil
  import opened Lists

  datatype SortOrder = Newest | Oldest

  datatype Filters = Filters(
    searchTerm: string,
    startDate: Option<CalendarDate>,
    endDate: Option<CalendarDate>,
    sortOrder: SortOrder)

  /** `handleClearFilters`: no search, no date bounds, newest first. */
  function ClearedFilters(): (f: Filters)
    ensures f.searchTerm == [] && NormalizedSearch(f.searchTerm) == []
    ensures f.startDate.None? && f.endDate.None?
    ensures f.sortOrder == Newest
  {
    var term: string := [];
    assert NormalizedSearch(term) == [];
    Filters(term, None, None, Newest)
  }

  /** `searchTerm.trim().toLowerCase()`; empty exactly when the term is all white space. */
  function NormalizedSearch(term: string): (r: string)
    ensures r == [] <==> forall i :: 0 <= i < |term| ==> IsSpace(term[i])
    ensures |r| <= |term|
  {
    TrimEmptyIffAllSpace(term);
    ToLower(Trim(term))
  }

  /** The search step keeps a booking when the normalised term is empty, or when the
      lower-cased search target contains it. */
  predicate SearchAccepts(target: string, term: string) {
    var needle := NormalizedSearch(term);
    needle == [] || Contains(ToLower(target), needle)
  }

  /** A template literal of fields separated by single spaces, as the pages build
      their search targets. */
  function JoinWithSpaces(fields: seq<string>): string
    decreases |fields|
  {
    if fields == [] then ""
    else if |fields| == 1 then fields[0]
    else JoinWithSpaces(fields[..|fields| - 1]) + " " + fields[|fields| - 1]
  }

  /** The joined text is the `k`-th field with the fields before and after it, joined,
      on either side. */
  lemma {:induction false} JoinSplit(fs: seq<string>, k: nat)
    requires k < |fs|
    ensures JoinWithSpaces(fs) ==
      (if k == 0 then "" else JoinWithSpaces(fs[..k]) + " ") + fs[k]
      + (if k == |fs| - 1 then "" else " " + JoinWithSpaces(fs[k + 1..]))
    decreases |fs|
  {
    if k < |fs| - 1 {
      var init := fs[..|fs| - 1];
      JoinSplit(init, k);
      assert init[..k] == fs[..k] && init[k] == fs[k];
      var last := fs[|fs| - 1];
      if k == |fs| - 2 {
        assert fs[k + 1..] == [last];
      } else {
        var tail := fs[k + 1..];
        assert tail[..|tail| - 1] == init[k + 1..];
        assert tail[|tail| - 1] == last;
      }
    } else if k > 0 {
      assert fs[..|fs| - 1] == fs[..k];
    }
  }

  /** A term found in any one field is found in the joined search target. */
  lemma {:induction false} FieldOfJoinIsSearched(fields: seq<string>, k: nat, term: string)
    requires k < |fields|
    requires Contains(ToLower(fields[k]), NormalizedSearch(term))
    ensures SearchAccepts(JoinWithSpaces(fields), term)
  {
    var prefix := if k == 0 then "" else JoinWithSpaces(fields[..k]) + " ";
    var suffix := if k == |fields| - 1 then "" else " " + JoinWithSpaces(fields[k + 1..]);
    JoinSplit(fields, k);
    ToLowerAppend(prefix + fields[k], suffix);
    ToLowerAppend(prefix, fields[k]);
    ContainsInInfix(ToLower(prefix), ToLower(fields[k]), ToLower(suffix), NormalizedSearch(term));
  }

  /** `bookingDate >= formatDateYmd(startDate)`, or no start date. */
  predicate OnOrAfter(ymd: string, startDate: Option<CalendarDate>) {
    startDate.None? || !StrLess(ymd, FormatDateYmd(startDate.value))
  }

  /** `bookingDate <= formatDateYmd(endDate)`, or no end date. */
  predicate OnOrBefore(ymd: string, endDate: Option<CalendarDate>) {
    endDate.None? || !StrLess(FormatDateYmd(endDate.value), ymd)
  }

  /** The three filter steps together. */
  predicate Keep<B>(f: Filters, searchTarget: B -> string, dateOf: B -> string, b: B) {
    && SearchAccepts(searchTarget(b), f.searchTerm)
    && OnOrAfter(dateOf(b), f.startDate)
    && OnOrBefore(dateOf(b), f.endDate)
  }

  /** The comparator `right - left` for newest and `left - right` for oldest, as the
      key an ascending sort orders by. */
  function SortKey<B(!new)>(order: SortOrder, timeOf: B -> int): (key: B -> int)
    ensures forall b :: order == Newest ==> key(b) == -timeOf(b)
    ensures forall b :: order == Oldest ==> key(b) == timeOf(b)
  {
    if order == Newest then b => -timeOf(b) else b => timeOf(b)
  }

  /** The filter/sort effect: the search, start-date and end-date filters reassign the
      working list in turn, then it is sorted by time. The result holds each booking the
      filters keep exactly as often as the input does and nothing else, ordered newest
      first or oldest first. */
  method FilterAndSort<B(==,!new)>(bookings: seq<B>, f: Filters, searchTarget: B -> string, dateOf: B -> string, timeOf: B -> int)
    returns (result: seq<B>)
    ensures forall b {:trigger multiset(result)[b]} ::
      multiset(result)[b] == if Keep(f, searchTarget, dateOf, b) then multiset(bookings)[b] else 0
    ensures forall b :: b in result <==> b in bookings && Keep(f, searchTarget, dateOf, b)
    ensures |result| <= |bookings|
    ensures f.sortOrder == Newest ==> forall i, j :: 0 <= i < j < |result| ==> timeOf(result[i]) >= timeOf(result[j])
    ensures f.sortOrder == Oldest ==> forall i, j :: 0 <= i < j < |result| ==> timeOf(result[i]) <= timeOf(result[j])
  {
    var filtered := ApplyFilters(bookings, f, searchTarget, dateOf);
    result := SortBy(filtered, SortKey(f.sortOrder, timeOf));
    SelectsSubset(filtered, bookings, b => Keep(f, searchTarget, dateOf, b));
    SameMultisetSameElements(result, filtered);
  }

  /** The three filter steps of the effect, each run only when its filter is set. */
  method ApplyFilters<B(==,!new)>(bookings: seq<B>, f: Filters, searchTarget: B -> string, dateOf: B -> string)
    returns (filtered: seq<B>)
    ensures Selects(filtered, bookings, b => Keep(f, searchTarget, dateOf, b))
  {
    var search := b => SearchAccepts(searchTarget(b), f.searchTerm);
    var after := b => OnOrAfter(dateOf(b), f.startDate);
    var before := b => OnOrBefore(dateOf(b), f.endDate);
    filtered := bookings;
    if NormalizedSearch(f.searchTerm) != [] {
      filtered := Filter(filtered, search);
    }
    ghost var afterSearch := filtered;
    assert Selects(afterSearch, bookings, search);
    if f.startDate.Some? {
      filtered := Filter(filtered, after);
    }
    ghost var afterStart := filtered;
    assert Selects(afterStart, afterSearch, after);
    if f.endDate.Some? {
      filtered := Filter(filtered, before);
    }
    assert Selects(filtered, afterStart, before);
    SelectsThree(filtered, afterStart, afterSearch, bookings, search, after, before);
  }

  /** `r` holds each element of `xs` satisfying `p` exactly as often as `xs` does, and
      nothing else. */
  ghost predicate Selects<B(!new)>(r: seq<B>, xs: seq<B>, p: B -> bool) {
    forall b {:trigger multiset(r)[b]} :: multiset(r)[b] == if p(b) then multiset(xs)[b] else 0
  }

  lemma {:induction false} SelectsThree<B(!new)>(r3: seq<B>, r2: seq<B>, r1: seq<B>, xs: seq<B>, p: B -> bool, q: B -> bool, s: B -> bool)
    requires Selects(r1, xs, p) && Selects(r2, r1, q) && Selects(r3, r2, s)
    ensures Selects(r3, xs, b => p(b) && q(b) && s(b))
  {
    forall b ensures multiset(r3)[b] == if p(b) && q(b) && s(b) then multiset(xs)[b] else 0 {
      assert multiset(r3)[b] == if s(b) then multiset(r2)[b] else 0;
      assert multiset(r2)[b] == if q(b) then multiset(r1)[b] else 0;
      assert multiset(r1)[b] == if p(b) then multiset(xs)[b] else 0;
    }
  }

  lemma {:induction false} SelectsSubset<B(!new)>(r: seq<B>, xs: seq<B>, p: B -> bool)
    requires Selects(r, xs, p)
    ensures |r| <= |xs|
    ensures forall b :: b in r <==> b in xs && p(b)
  {
    assert multiset(r) <= multiset(xs) by {
      forall b ensures multiset(r)[b] <= multiset(xs)[b] {
        assert multiset(r)[b] == if p(b) then multiset(xs)[b] else 0;
      }
    }
    var rest := multiset(xs) - multiset(r);
    assert multiset(xs) == multiset(r) + rest;
    assert |multiset(xs)| == |multiset(r)| + |rest|;
    forall b ensures b in r <==> b in xs && p(b) {
      assert multiset(r)[b] == if p(b) then multiset(xs)[b] else 0;
      assert b in r <==> multiset(r)[b] > 0;
      assert b in xs <==> multiset(xs)[b] > 0;
    }
  }

  lemma {:induction false} SameMultisetSameElements<B>(a: seq<B>, b: seq<B>)
    requires multiset(a) == multiset(b)
    ensures |a| == |b|
    ensures forall x :: x in a <==> x in b
  {
    assert |a| == |multiset(a)| && |b| == |multiset(b)|;
    forall x ensures x in a <==> x in b {
      assert x in a <==> x in multiset(a);
      assert x in b <==> x in multiset(b);
    }
  }

  /** With the filters cleared every booking passes, so the list only gets sorted. */
  lemma {:induction false} ClearedFiltersKeepEverything<B>(searchTarget: B -> string, dateOf: B -> string, b: B)
    ensures Keep(ClearedFilters(), searchTarget, dateOf, b)
  {
  }

  /** For four-digit years the string comparisons of the date filters are the calendar
      order: a booking dated `d` passes the start bound iff `d` is not before it, and the
      end bound iff `d` is not after it. */
  lemma {:induction false} DateBoundsFollowCalendar(d: CalendarDate, startDate: Option<CalendarDate>, endDate: Option<CalendarDate>)
    requires 1000 <= d.year <= 9999
    requires startDate.Some? ==> 1000 <= startDate.value.year <= 9999
    requires endDate.Some? ==> 1000 <= endDate.value.year <= 9999
    ensures OnOrAfter(FormatDateYmd(d), startDate) <==> startDate.None? || !DateBefore(d, startDate.value)
    ensures OnOrBefore(FormatDateYmd(d), endDate) <==> endDate.None? || !DateBefore(endDate.value, d)
  {
    if startDate.Some? {
      FormatDateYmdOrder(d, startDate.value);
    }
    if endDate.Some? {
      FormatDateYmdOrder(endDate.value, d);
    }
  }
}
