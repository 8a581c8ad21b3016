/** The filter panel of src/components/DataFilters.tsx: the handlers that
    turn a click or a keystroke into a new FilterOptions record, the test
    for active filters, and the sorted option lists. The panel's own
    search-box text is React state, kept here as the one field of a class. */
module DataFilters {
  import opened Seqs
  import opened Text
  import opened Entries

  /** `filters.projects || []` */
  function ListOf(xs: Option<seq<string>>): seq<string> {
    GetOr(xs, [])
  }

  /** `value || undefined` for a list: an empty list is stored as unset. */
  function Stored(xs: seq<string>): (r: Option<seq<string>>)
    ensures r != Some([])
    ensures ListOf(r) == xs
  {
    if |xs| > 0 then Some(xs) else None
  }

  /** The toggle of one option: remove every occurrence when it is
      selected, append it otherwise; an emptied list becomes unset. */
  function Toggle(current: Option<seq<string>>, x: string): (r: Option<seq<string>>)
    ensures r != Some([])
    ensures x in ListOf(current) ==> x !in ListOf(r)
    ensures x in ListOf(current) ==> IsSubseq(ListOf(r), ListOf(current))
    ensures x in ListOf(current) ==> multiset(ListOf(r)) == multiset(ListOf(current))[x := 0]
    ensures x !in ListOf(current) ==> ListOf(r) == ListOf(current) + [x]
    ensures forall y :: y != x ==> (y in ListOf(r) <==> y in ListOf(current))
  {
    var list := ListOf(current);
    Stored(if x in list then RemoveAll(list, x) else list + [x])
  }

  lemma {:induction false} RemoveAllSnoc(s: seq<string>, x: string)
    ensures RemoveAll(s + [x], x) == RemoveAll(s, x)
  {
    if s == [] {
      assert [] + [x] == [x];
      assert [x][1..] == [];
    } else {
      assert (s + [x])[0] == s[0] && (s + [x])[1..] == s[1..] + [x];
      RemoveAllSnoc(s[1..], x);
    }
  }

  /** Toggling an unselected option twice restores the list, once it is
      stored canonically (unset rather than empty). */
  lemma ToggleTwice(current: Option<seq<string>>, x: string)
    requires x !in ListOf(current) && current != Some([])
    ensures Toggle(Toggle(current, x), x) == current
  {
    var list := ListOf(current);
    RemoveAllSnoc(list, x);
    RemoveAllAbsent(list, x);
  }

  /** `handleProjectFilter` */
  function HandleProjectFilter(f: FilterOptions, project: string): (r: FilterOptions)
    ensures r.projects == Toggle(f.projects, project)
    ensures r.clients == f.clients && r.searchTerm == f.searchTerm && r.dateRange == f.dateRange
  {
    f.(projects := Toggle(f.projects, project))
  }

  /** `handleClientFilter` */
  function HandleClientFilter(f: FilterOptions, client: string): (r: FilterOptions)
    ensures r.clients == Toggle(f.clients, client)
    ensures r.projects == f.projects && r.searchTerm == f.searchTerm && r.dateRange == f.dateRange
  {
    f.(clients := Toggle(f.clients, client))
  }

  /** The record `handleSearchChange` hands on: `searchTerm: value ||
      undefined`, every other field as it was. */
  function SearchChanged(f: FilterOptions, value: string): (r: FilterOptions)
    ensures r.searchTerm.Some? <==> value != ""
    ensures r.searchTerm.Some? ==> r.searchTerm.value == value
    ensures r.projects == f.projects && r.clients == f.clients && r.dateRange == f.dateRange
  {
    f.(searchTerm := if value == "" then None else Some(value))
  }

  /** `hasActiveFilters`: a non-empty search term, or a non-empty list. */
  predicate HasActiveFilters(f: FilterOptions) {
    || (f.searchTerm.Some? && f.searchTerm.value != "")
    || (f.projects.Some? && |f.projects.value| > 0)
    || (f.clients.Some? && |f.clients.value| > 0)
  }

  /** The date range plays no part in whether filters count as active, and
      the cleared record has none. */
  lemma ActiveIgnoresDateRange(f: FilterOptions, d: Option<DateRange>)
    ensures HasActiveFilters(f.(dateRange := d)) == HasActiveFilters(f)
    ensures !HasActiveFilters(NoFilters)
  {
  }

  /** Toggling an option on makes the filters active. */
  lemma ToggleOnActive(f: FilterOptions, project: string)
    requires project !in ListOf(f.projects)
    ensures HasActiveFilters(HandleProjectFilter(f, project))
  {
    assert project in ListOf(HandleProjectFilter(f, project).projects);
  }

  /** The state of the panel: the text in its search box. */
  class FilterPanel {
    var searchTerm: string

    /** `useState(filters.searchTerm || '')` */
    constructor(filters: FilterOptions)
      ensures searchTerm == GetOr(filters.searchTerm, "")
    {
      searchTerm := GetOr(filters.searchTerm, "");
    }

    /** `handleSearchChange`: the box shows `value`; the record handed on
      is `SearchChanged`. */
    method HandleSearchChange(filters: FilterOptions, value: string) returns (next: FilterOptions)
      modifies this
      ensures searchTerm == value
      ensures next == SearchChanged(filters, value)
    {
      searchTerm := value;
      next := filters.(searchTerm := if value == "" then None else Some(value));
    }

    /** `clearFilters`: an empty box and the empty record `{}`. */
    method ClearFilters() returns (next: FilterOptions)
      modifies this
      ensures searchTerm == ""
      ensures next == NoFilters && !HasActiveFilters(next)
    {
      searchTerm := "";
      next := FilterOptions(None, None, None, None);
    }
  }

  /** `[...new Set(entries.map(e => e.project))].sort()` and the same for
      clients: ascending, without duplicates, and exactly the values the
      entries carry. */
  function UniqueValues(es: seq<TimeEntry>, k: Key): (r: seq<string>)
    ensures StrictlySorted(r)
    ensures NoDups(r)
    ensures forall v :: v in r <==> exists i :: 0 <= i < |es| && KeyOf(es[i], k) == v
  {
    var keys := Keys(es, k);
    var r := SortedUnique(keys);
    SortedNoDups(r);
    assert forall v :: v in keys <==> exists i :: 0 <= i < |es| && keys[i] == v;
    r
  }

  /** A strictly sorted list has no repeated element. */
  lemma SortedNoDups(xs: seq<string>)
    requires StrictlySorted(xs)
    ensures NoDups(xs)
  {
    forall i, j | 0 <= i < j < |xs| ensures xs[i] != xs[j] {
      StrLessIrreflexive(xs[i]);
    }
  }

  /** The option list is the only sorted duplicate-free list of the values. */
  lemma UniqueValuesCanonical(es: seq<TimeEntry>, k: Key, other: seq<string>)
    requires StrictlySorted(other)
    requires forall v :: v in other <==> exists i :: 0 <= i < |es| && KeyOf(es[i], k) == v
    ensures other == UniqueValues(es, k)
  {
    StrictlySortedUnique(other, UniqueValues(es, k));
  }
}
