/** The dashboard's derived data in src/components/Dashboard.tsx: the
    entries the current filters let through, and the summary figures shown
    above them (before `toFixed(2)` turns them into text). */
module Dashboard {
  import opened Seqs
  import opened Text
  import opened Entries

  /** The search condition: no non-empty search term, or the lower-cased
      term occurs in the lower-cased project, client or description. */
  predicate MatchesSearch(e: TimeEntry, term: Option<string>) {
    !(term.Some? && term.value != "")
    || Contains(ToLower(e.project), ToLower(term.value))
    || Contains(ToLower(e.client), ToLower(term.value))
    || Contains(ToLower(e.description), ToLower(term.value))
  }

  /** A list condition: the list is unset or empty, or names the value. */
  predicate Allows(xs: Option<seq<string>>, v: string) {
    !(xs.Some? && |xs.value| > 0) || v in xs.value
  }

  /** The predicate `filteredEntries` applies to each entry. */
  predicate Matches(e: TimeEntry, f: FilterOptions) {
    MatchesSearch(e, f.searchTerm) && Allows(f.projects, e.project) && Allows(f.clients, e.client)
  }

  /** `filteredEntries`: the entries that match, in their order. */
  function FilterEntries(es: seq<TimeEntry>, f: FilterOptions): (r: seq<TimeEntry>)
    ensures IsSubseq(r, es)
    ensures forall e :: e in r <==> e in es && Matches(e, f)
  {
    if es == [] then []
    else
      var rest := FilterEntries(es[1..], f);
      assert forall e :: e in es <==> e == es[0] || e in es[1..];
      if Matches(es[0], f) then [es[0]] + rest
      else
        assert IsSubseq(rest, es) by {
          if rest != [] {
            assert IsSubseq(rest, es[1..]);
          }
        }
        rest
  }

  lemma {:induction false} FilterAppend(a: seq<TimeEntry>, b: seq<TimeEntry>, f: FilterOptions)
    ensures FilterEntries(a + b, f) == FilterEntries(a, f) + FilterEntries(b, f)
  {
    if a == [] {
      assert a + b == b;
    } else {
      assert (a + b)[0] == a[0] && (a + b)[1..] == a[1..] + b;
      FilterCons(a, f);
      FilterCons(a + b, f);
      FilterAppend(a[1..], b, f);
    }
  }

  /** One step of `FilterEntries`: the head if it matches, then the rest. */
  lemma FilterCons(es: seq<TimeEntry>, f: FilterOptions)
    requires es != []
    ensures FilterEntries(es, f) == (if Matches(es[0], f) then [es[0]] else []) + FilterEntries(es[1..], f)
  {
  }

  /** With `FilterAppend`, this pins the result down to the matching
      entries, each as often as it occurs, in order. */
  lemma FilterSingle(e: TimeEntry, f: FilterOptions)
    ensures FilterEntries([e], f) == if Matches(e, f) then [e] else []
  {
    assert [e][1..] == [];
  }

  /** Filtering twice is filtering once. */
  lemma {:induction false} FilterIdempotent(es: seq<TimeEntry>, f: FilterOptions)
    ensures FilterEntries(FilterEntries(es, f), f) == FilterEntries(es, f)
  {
    if es != [] {
      FilterIdempotent(es[1..], f);
      var rest := FilterEntries(es[1..], f);
      if Matches(es[0], f) {
        assert ([es[0]] + rest)[0] == es[0] && ([es[0]] + rest)[1..] == rest;
      }
    }
  }

  /** The empty filter record `{}` lets everything through. */
  lemma {:induction false} FilterNone(es: seq<TimeEntry>)
    ensures FilterEntries(es, NoFilters) == es
  {
    if es != [] {
      FilterNone(es[1..]);
    }
  }

  /** The date range takes no part in the filter. */
  lemma {:induction false} FilterIgnoresDateRange(es: seq<TimeEntry>, f: FilterOptions, d: Option<DateRange>)
    ensures FilterEntries(es, f.(dateRange := d)) == FilterEntries(es, f)
  {
    if es != [] {
      FilterIgnoresDateRange(es[1..], f, d);
    }
  }

  /** The numbers `summaryStats` formats. */
  datatype SummaryStats = SummaryStats(
    totalHours: real, totalAmount: real,
    uniqueProjects: nat, uniqueClients: nat,
    avgHourlyRate: real)

  /** The set of the entries' project or client names. */
  ghost function NameSet(es: seq<TimeEntry>, k: Key): set<string> {
    set i | 0 <= i < |es| :: KeyOf(es[i], k)
  }

  /** `summaryStats` over the filtered entries: the sums of hours and
      amounts, the numbers of distinct projects and clients (`Set.size`),
      and the average rate, 0 when there are no hours. */
  function Summary(es: seq<TimeEntry>): (r: SummaryStats)
    ensures r.totalHours == Total(es, Hours) && r.totalAmount == Total(es, Amount)
    ensures r.uniqueProjects == |NameSet(es, ByProject)|
    ensures r.uniqueClients == |NameSet(es, ByClient)|
    ensures r.uniqueProjects <= |es| && r.uniqueClients <= |es|
    ensures r.totalHours > 0.0 ==> r.avgHourlyRate * r.totalHours == r.totalAmount
    ensures r.totalHours <= 0.0 ==> r.avgHourlyRate == 0.0
  {
    var hours, amount := Total(es, Hours), Total(es, Amount);
    var rate := AverageRate(amount, hours);
    assert hours > 0.0 ==> rate * hours == amount;
    SummaryStats(hours, amount, KeyCount(es, ByProject), KeyCount(es, ByClient), rate)
  }

  /** `new Set(entries.map(...)).size`: how many distinct names there are. */
  function KeyCount(es: seq<TimeEntry>, k: Key): (n: nat)
    ensures n == |NameSet(es, k)|
    ensures n <= |es|
  {
    KeySetCard(es, k);
    |Distinct(Keys(es, k))|
  }

  /** `totalHours > 0 ? totalAmount / totalHours : 0`: the rate that bills
      the hours at the amount. */
  function AverageRate(amount: real, hours: real): (r: real)
    ensures hours > 0.0 ==> r * hours == amount
    ensures hours <= 0.0 ==> r == 0.0
  {
    if hours > 0.0 then amount / hours else 0.0
  }

  /** The number of distinct keys is the size of the set of keys. */
  lemma KeySetCard(es: seq<TimeEntry>, k: Key)
    ensures |Distinct(Keys(es, k))| == |NameSet(es, k)|
    ensures |Distinct(Keys(es, k))| <= |es|
  {
    var keys := Keys(es, k);
    DistinctCard(keys);
    var names := NameSet(es, k);
    assert (set x | x in keys) == names by {
      forall x | x in keys ensures x in names {
        var i :| 0 <= i < |keys| && keys[i] == x;
        assert KeyOf(es[i], k) == x;
      }
      forall x | x in names ensures x in keys {
        var i :| 0 <= i < |es| && KeyOf(es[i], k) == x;
        assert keys[i] == x;
      }
    }
  }

  /** No entries, no projects and no clients. */
  lemma SummaryEmpty()
    ensures Summary([]) == SummaryStats(0.0, 0.0, 0, 0, 0.0)
  {
    KeySetCard([], ByProject);
  }
}
