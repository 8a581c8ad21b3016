/** The project chart data of src/components/TimeCharts.tsx: a dictionary
    of hours per project built entry by entry, turned into one record per
    project with its hours rounded to two decimals and its amounts summed,
    and the first eight records for the performance chart. A JavaScript
    object's key order is kept beside the dictionary as the order its keys
    were first written; numbers are exact reals. */
module TimeCharts {
  import opened Seqs
  import opened Entries

  /** The hours of the entries of project `name`. */
  function HoursOf(es: seq<TimeEntry>, name: string): real {
    Total(Select(es, ByProject, name), Hours)
  }

  /** `Math.round`-style rounding of a magnitude: the nearest integer, a
      tie going up. */
  function HalfUp(y: real): (n: int)
    ensures y - 0.5 < n as real <= y + 0.5
  {
    (y + 0.5).Floor
  }

  /** `x.toFixed(2)` as a whole number of cents: toFixed rounds the
      magnitude and keeps the sign, so a tie goes away from zero. */
  function Cents(x: real): (c: int)
    ensures x * 100.0 - 0.5 <= c as real <= x * 100.0 + 0.5
  {
    if x < 0.0 then -HalfUp(-x * 100.0) else HalfUp(x * 100.0)
  }

  /** `parseFloat(x.toFixed(2))` on an exact number: a whole number of
      cents, at most half a cent from `x`. */
  function Round2(x: real): (r: real)
    ensures (r * 100.0).Floor as real == r * 100.0
    ensures -0.005 <= r - x <= 0.005
  {
    Cents(x) as real / 100.0
  }

  /** A value already given to the cent is its own rounding. */
  lemma Round2Exact(x: real)
    requires (x * 100.0).Floor as real == x * 100.0
    ensures Round2(x) == x
  {
    var n := (x * 100.0).Floor;
    assert Cents(x) == n;
  }

  /** Rounding twice is rounding once. */
  lemma Round2Idempotent(x: real)
    ensures Round2(Round2(x)) == Round2(x)
  {
    Round2Exact(Round2(x));
  }

  /** `projectData` after the entries `seen`: one value per project they
      carry, the hours of that project. */
  ghost predicate Summed(acc: map<string, real>, seen: seq<TimeEntry>) {
    && acc.Keys == (set p | p in Keys(seen, ByProject))
    && forall p :: p in acc ==> acc[p] == HoursOf(seen, p)
  }

  /** One more entry adds its hours to its own project and no other. */
  lemma HoursStep(seen: seq<TimeEntry>, e: TimeEntry, name: string)
    ensures HoursOf(seen + [e], name)
         == if e.project == name then HoursOf(seen, name) + e.timeDecimal else HoursOf(seen, name)
  {
    SelectSnoc(seen, e, ByProject, name);
    var sel := Select(seen, ByProject, name);
    if e.project == name {
      assert Select(seen + [e], ByProject, name) == sel + [e];
      TotalSnoc(sel, e, Hours);
    } else {
      assert Select(seen + [e], ByProject, name) == sel;
    }
  }

  lemma SummedStep(acc: map<string, real>, seen: seq<TimeEntry>, e: TimeEntry, before: real,
                    acc1: map<string, real>)
    requires forall p :: p in acc ==> acc[p] == HoursOf(seen, p)
    requires before == HoursOf(seen, e.project) && acc1 == acc[e.project := before + e.timeDecimal]
    ensures forall p :: p in acc1 ==> acc1[p] == HoursOf(seen + [e], p)
  {
    forall p | p in acc1 ensures acc1[p] == HoursOf(seen + [e], p) {
      HoursStep(seen, e, p);
    }
  }

  /** A project not yet in the key order joins its end. */
  lemma OrderStep(seen: seq<TimeEntry>, e: TimeEntry)
    ensures Distinct(Keys(seen + [e], ByProject))
         == if e.project in Keys(seen, ByProject) then Distinct(Keys(seen, ByProject))
            else Distinct(Keys(seen, ByProject)) + [e.project]
  {
    KeysAppend(seen, [e], ByProject);
    DistinctSnoc(Keys(seen, ByProject), e.project);
  }

  /** The reduce callback `acc[p] = (acc[p] || 0) + entry.timeDecimal`; a
      project written the first time joins the end of the key order. */
  method AddHours(acc: map<string, real>, order: seq<string>, e: TimeEntry, ghost seen: seq<TimeEntry>)
    returns (acc1: map<string, real>, order1: seq<string>)
    requires Summed(acc, seen) && order == Distinct(Keys(seen, ByProject))
    ensures Summed(acc1, seen + [e]) && order1 == Distinct(Keys(seen + [e], ByProject))
  {
    OrderStep(seen, e);
    var known := e.project in acc;
    var before := if known then acc[e.project] else 0.0;
    acc1 := acc[e.project := before + e.timeDecimal];
    order1 := if known then order else order + [e.project];
    SummedAdd(acc, seen, e, before);
  }

  /** Adding the entry's hours to its project's value, counted from 0 when
      the project is new, keeps the dictionary the hours of what was seen. */
  lemma SummedAdd(acc: map<string, real>, seen: seq<TimeEntry>, e: TimeEntry, before: real)
    requires Summed(acc, seen)
    requires before == if e.project in acc then acc[e.project] else 0.0
    ensures e.project in acc <==> e.project in Keys(seen, ByProject)
    ensures Summed(acc[e.project := before + e.timeDecimal], seen + [e])
  {
    assert e.project in acc <==> e.project in Keys(seen, ByProject);
    if e.project !in acc {
      SelectAbsent(seen, ByProject, e.project);
    }
    assert before == HoursOf(seen, e.project);
    SummedStep(acc, seen, e, before, acc[e.project := before + e.timeDecimal]);
    KeysStep(acc, seen, e, before + e.timeDecimal);
  }

  /** Writing the entry's project adds exactly that key. */
  lemma KeysStep(acc: map<string, real>, seen: seq<TimeEntry>, e: TimeEntry, v: real)
    requires acc.Keys == (set p | p in Keys(seen, ByProject))
    ensures acc[e.project := v].Keys == (set p | p in Keys(seen + [e], ByProject))
  {
    KeysAppend(seen, [e], ByProject);
    assert Keys(seen + [e], ByProject) == Keys(seen, ByProject) + [e.project];
  }

  /** `timeEntries.reduce(...)` building `projectData`: the hours of each
      project, the keys in the order the projects first appear. */
  method ProjectData(es: seq<TimeEntry>) returns (acc: map<string, real>, order: seq<string>)
    ensures order == Distinct(Keys(es, ByProject))
    ensures acc.Keys == (set p | p in order)
    ensures forall p :: p in acc ==> acc[p] == HoursOf(es, p)
  {
    acc, order := map[], [];
    var i := 0;
    while i < |es|
      invariant 0 <= i <= |es|
      invariant Summed(acc, es[..i]) && order == Distinct(Keys(es[..i], ByProject))
    {
      acc, order := AddHours(acc, order, es[i], es[..i]);
      TakeNext(es, i);
      i := i + 1;
    }
    assert es[..i] == es;
    assert (set p | p in order) == (set p | p in Keys(es, ByProject));
  }

  /** One record of `projectChartData`. */
  datatype ChartRecord = ChartRecord(name: string, hours: real, amount: real)

  /** The record of project `name`. */
  function RecordOf(es: seq<TimeEntry>, name: string): ChartRecord {
    ChartRecord(name, Round2(HoursOf(es, name)), Total(Select(es, ByProject, name), Amount))
  }

  /** `projectChartData`: the records, one per project in key order. */
  function ChartData(es: seq<TimeEntry>): (r: seq<ChartRecord>)
    ensures |r| == |Distinct(Keys(es, ByProject))|
    ensures forall j :: 0 <= j < |r| ==> r[j] == RecordOf(es, Distinct(Keys(es, ByProject))[j])
  {
    var names := Distinct(Keys(es, ByProject));
    seq(|names|, j requires 0 <= j < |names| => RecordOf(es, names[j]))
  }

  /** The `useMemo` body's project part: the dictionary, then the map over
      its entries. */
  method ProjectChartData(es: seq<TimeEntry>) returns (records: seq<ChartRecord>)
    ensures records == ChartData(es)
  {
    var acc, order := ProjectData(es);
    records := seq(|order|, j requires 0 <= j < |order| =>
      ChartRecord(order[j], Round2(acc[order[j]]), Total(Select(es, ByProject, order[j]), Amount)));
  }

  /** There is exactly one record per project, in the order the projects
      first appear; each holds its project's hours, to the nearest cent of
      an hour, and the sum of its project's amounts. */
  lemma ChartRecords(es: seq<TimeEntry>)
    ensures var r := ChartData(es);
      && (forall p :: (exists j :: 0 <= j < |r| && r[j].name == p) <==> p in Keys(es, ByProject))
      && (forall j, k :: 0 <= j < k < |r| ==> r[j].name != r[k].name)
      && (forall j, k :: 0 <= j < k < |r| ==>
            FirstIndex(Keys(es, ByProject), r[j].name) < FirstIndex(Keys(es, ByProject), r[k].name))
      && forall j :: 0 <= j < |r| ==>
           && -0.005 <= r[j].hours - Total(Select(es, ByProject, r[j].name), Hours) <= 0.005
           && r[j].amount == Total(Select(es, ByProject, r[j].name), Amount)
  {
    var names := Distinct(Keys(es, ByProject));
    var r := ChartData(es);
    DistinctFirstSeen(Keys(es, ByProject));
    forall p | p in Keys(es, ByProject) ensures exists j :: 0 <= j < |r| && r[j].name == p {
      var j := FirstIndex(names, p);
      assert r[j].name == p;
    }
  }

  /** The exact hours of the records add up to the hours of all entries. */
  lemma ChartHoursPartition(es: seq<TimeEntry>)
    ensures SumGroups(Distinct(Keys(es, ByProject)), es, ByProject, Hours) == Total(es, Hours)
    ensures SumGroups(Distinct(Keys(es, ByProject)), es, ByProject, Amount) == Total(es, Amount)
  {
    DistinctKeysPartition(es, ByProject, Hours);
    DistinctKeysPartition(es, ByProject, Amount);
  }

  /** `projectChartData.slice(0, 8)`: the first eight records in key order,
      or all of them when there are fewer; not the eight largest. */
  function Performance(records: seq<ChartRecord>): (r: seq<ChartRecord>)
    ensures |r| == if |records| < 8 then |records| else 8
    ensures r <= records
  {
    if |records| < 8 then records else records[..8]
  }

  /** The performance chart shows the projects first seen earliest. */
  lemma PerformanceProjects(es: seq<TimeEntry>)
    ensures var r := Performance(ChartData(es));
      forall j :: 0 <= j < |r| ==> r[j].name == Distinct(Keys(es, ByProject))[j]
  {
    var r := Performance(ChartData(es));
    assert forall j :: 0 <= j < |r| ==> r[j] == ChartData(es)[j];
  }
}
