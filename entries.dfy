/** The records of src/types/timeEntry.ts with the extra columns the
    keyed-row parser fills in, and the sums and per-key selections that
    every aggregation in the dashboard is built from. Hours, rates and
    amounts are exact reals. */
module Entries {
  import opened Seqs

  /** A JavaScript `Date`: a time value in milliseconds, or the Invalid
      Date that `new Date(text)` yields for text it cannot read. */
  datatype Date = ValidDate(millis: int) | InvalidDate

  /** The columns only the keyed-row parser of src/utils/csvParser.ts reads. */
  datatype RowDetails = RowDetails(
    task: string, user: string, group: string, email: string, tags: string,
    billable: bool,
    startDate: Date, startTime: string, endDate: Date, endTime: string,
    billableRate: real, billableAmount: real)

  /** One unit of tracked work. `date` and `category` are the optional
      fields of the interface; `details` is present exactly for entries
      built by the keyed-row parser. */
  datatype TimeEntry = TimeEntry(
    id: string, project: string, client: string, description: string,
    timeHours: string, timeDecimal: real, amount: real,
    date: Option<Date>, category: Option<string>,
    details: Option<RowDetails>)

  /** Either side may be absent: the URL reader leaves a missing bound undefined. */
  datatype DateRange = DateRange(start: Option<Date>, end: Option<Date>)

  datatype FilterOptions = FilterOptions(
    dateRange: Option<DateRange>,
    projects: Option<seq<string>>,
    clients: Option<seq<string>>,
    searchTerm: Option<string>)

  /** The empty filter record `{}`. */
  const NoFilters := FilterOptions(None, None, None, None)

  /** The two fields the aggregations group by. */
  datatype Key = ByProject | ByClient

  function KeyOf(e: TimeEntry, k: Key): string {
    match k
    case ByProject => e.project
    case ByClient => e.client
  }

  /** `entries.map(e => e.project)` or `e.client`. */
  function Keys(es: seq<TimeEntry>, k: Key): (r: seq<string>)
    ensures |r| == |es|
    ensures forall i :: 0 <= i < |es| ==> r[i] == KeyOf(es[i], k)
  {
    if es == [] then [] else [KeyOf(es[0], k)] + Keys(es[1..], k)
  }

  lemma KeysAppend(a: seq<TimeEntry>, b: seq<TimeEntry>, k: Key)
    ensures Keys(a + b, k) == Keys(a, k) + Keys(b, k)
  {
  }

  /** What a sum adds up per entry: hours, the stored amount, one per entry,
      or hours times an hourly rate. */
  datatype Measure = Hours | Amount | Count | Billed(rate: real)

  function Value(e: TimeEntry, m: Measure): real {
    match m
    case Hours => e.timeDecimal
    case Amount => e.amount
    case Count => 1.0
    case Billed(rate) => e.timeDecimal * rate
  }

  /** `entries.reduce((sum, e) => sum + value(e), 0)` */
  function Total(es: seq<TimeEntry>, m: Measure): real {
    if es == [] then 0.0 else Value(es[0], m) + Total(es[1..], m)
  }

  lemma {:induction false} TotalAppend(a: seq<TimeEntry>, b: seq<TimeEntry>, m: Measure)
    ensures Total(a + b, m) == Total(a, m) + Total(b, m)
  {
    if a != [] {
      assert (a + b)[0] == a[0] && (a + b)[1..] == a[1..] + b;
      TotalAppend(a[1..], b, m);
    } else {
      assert a + b == b;
    }
  }

  /** A sum over a list grown by one entry is the old sum plus that entry. */
  lemma TotalSnoc(a: seq<TimeEntry>, e: TimeEntry, m: Measure)
    ensures Total(a + [e], m) == Total(a, m) + Value(e, m)
  {
    TotalAppend(a, [e], m);
  }

  /** Counting entries gives the length. */
  lemma {:induction false} TotalCount(es: seq<TimeEntry>)
    ensures Total(es, Count) == |es| as real
  {
    if es != [] {
      TotalCount(es[1..]);
    }
  }

  /** Billing every entry at one rate is billing the total hours at that rate. */
  lemma {:induction false} TotalBilled(es: seq<TimeEntry>, rate: real)
    ensures Total(es, Billed(rate)) == Total(es, Hours) * rate
  {
    if es != [] {
      TotalBilled(es[1..], rate);
    }
  }

  /** The entries whose key equals `name`, in order
      (`entries.filter(e => e.project === name)`). */
  function Select(es: seq<TimeEntry>, k: Key, name: string): (r: seq<TimeEntry>)
    ensures |r| <= |es|
  {
    if es == [] then []
    else if KeyOf(es[0], k) == name then [es[0]] + Select(es[1..], k, name)
    else Select(es[1..], k, name)
  }

  /** A selection holds exactly the entries with that key, in their order. */
  lemma {:induction false} SelectSpec(es: seq<TimeEntry>, k: Key, name: string)
    ensures forall e :: e in Select(es, k, name) <==> e in es && KeyOf(e, k) == name
    ensures IsSubseq(Select(es, k, name), es)
  {
    if es != [] {
      SelectSpec(es[1..], k, name);
      assert forall e :: e in es <==> e == es[0] || e in es[1..];
    }
  }

  lemma {:induction false} SelectAppend(a: seq<TimeEntry>, b: seq<TimeEntry>, k: Key, name: string)
    ensures Select(a + b, k, name) == Select(a, k, name) + Select(b, k, name)
  {
    if a != [] {
      assert (a + b)[0] == a[0] && (a + b)[1..] == a[1..] + b;
      SelectAppend(a[1..], b, k, name);
      assert [a[0]] + (Select(a[1..], k, name) + Select(b, k, name))
          == ([a[0]] + Select(a[1..], k, name)) + Select(b, k, name);
    } else {
      assert a + b == b;
    }
  }

  /** One step of a grouping loop: a new entry joins its own key's group only. */
  lemma SelectSnoc(a: seq<TimeEntry>, e: TimeEntry, k: Key, name: string)
    ensures Select(a + [e], k, name) == Select(a, k, name) + (if KeyOf(e, k) == name then [e] else [])
  {
    SelectAppend(a, [e], k, name);
  }

  /** A key that no entry has selects nothing. */
  lemma {:induction false} SelectAbsent(es: seq<TimeEntry>, k: Key, name: string)
    requires name !in Keys(es, k)
    ensures Select(es, k, name) == []
  {
    if es != [] {
      assert Keys(es, k) == [KeyOf(es[0], k)] + Keys(es[1..], k);
      SelectAbsent(es[1..], k, name);
    }
  }

  /** The sum, over the group names, of each group's total. */
  function SumGroups(names: seq<string>, es: seq<TimeEntry>, k: Key, m: Measure): real {
    if names == [] then 0.0
    else Total(Select(es, k, names[0]), m) + SumGroups(names[1..], es, k, m)
  }

  lemma {:induction false} SumGroupsCons(names: seq<string>, e: TimeEntry, rest: seq<TimeEntry>, k: Key, m: Measure)
    requires NoDups(names)
    ensures SumGroups(names, [e] + rest, k, m)
         == SumGroups(names, rest, k, m) + (if KeyOf(e, k) in names then Value(e, m) else 0.0)
  {
    if names != [] {
      assert ([e] + rest)[1..] == rest;
      SumGroupsCons(names[1..], e, rest, k, m);
      assert KeyOf(e, k) in names <==> KeyOf(e, k) == names[0] || KeyOf(e, k) in names[1..];
      assert KeyOf(e, k) == names[0] ==> KeyOf(e, k) !in names[1..];
    }
  }

  /** Grouping partitions a sum: when the names are distinct and cover every
      entry's key, the group totals add up to the overall total. */
  lemma {:induction false} PartitionTotal(names: seq<string>, es: seq<TimeEntry>, k: Key, m: Measure)
    requires NoDups(names)
    requires forall i :: 0 <= i < |es| ==> KeyOf(es[i], k) in names
    ensures SumGroups(names, es, k, m) == Total(es, m)
  {
    if es == [] {
      SumGroupsEmpty(names, k, m);
    } else {
      assert es == [es[0]] + es[1..];
      SumGroupsCons(names, es[0], es[1..], k, m);
      PartitionTotal(names, es[1..], k, m);
    }
  }

  lemma {:induction false} SumGroupsEmpty(names: seq<string>, k: Key, m: Measure)
    ensures SumGroups(names, [], k, m) == 0.0
  {
    if names != [] {
      SumGroupsEmpty(names[1..], k, m);
    }
  }

  /** The first-seen distinct keys partition the sum. */
  lemma DistinctKeysPartition(es: seq<TimeEntry>, k: Key, m: Measure)
    ensures SumGroups(Distinct(Keys(es, k)), es, k, m) == Total(es, m)
  {
    var names := Distinct(Keys(es, k));
    forall i | 0 <= i < |es| ensures KeyOf(es[i], k) in names {
      assert Keys(es, k)[i] == KeyOf(es[i], k);
    }
    PartitionTotal(names, es, k, m);
  }
}
