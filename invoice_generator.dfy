/** The invoice figures of src/components/InvoiceGenerator.tsx: the client
    picker's list, the chosen client's entries, and the per-project
    summaries that a dictionary accumulator builds, billed at one hourly
    rate (stored amounts play no part). The text and download of the
    invoice are not modelled. */
module InvoiceGenerator {
  import opened Seqs
  import opened Entries

  /** The panel's defaults: no client chosen, 75 an hour. */
  const DefaultClient: string := ""
  const DefaultRate: real := 75.0

  /** `clientEntries`: nothing until a client is chosen, then that client's
      entries in their order. */
  function ClientEntries(es: seq<TimeEntry>, selectedClient: string): (r: seq<TimeEntry>)
    ensures selectedClient == "" ==> r == []
    ensures selectedClient != "" ==> IsSubseq(r, es)
    ensures selectedClient != "" ==> forall e :: e in r <==> e in es && e.client == selectedClient
  {
    if selectedClient == "" then []
    else
      SelectSpec(es, ByClient, selectedClient);
      Select(es, ByClient, selectedClient)
  }

  /** One accumulator record of `invoiceData`. */
  datatype ProjectSummary = ProjectSummary(
    project: string, entries: seq<TimeEntry>, totalHours: real, totalAmount: real)

  datatype Invoice = Invoice(projectSummaries: seq<ProjectSummary>, totalHours: real, totalAmount: real)

  /** What the accumulator holds for `name` once it has seen `es`. */
  function SummaryOf(es: seq<TimeEntry>, name: string, rate: real): ProjectSummary {
    var sel := Select(es, ByProject, name);
    ProjectSummary(name, sel, Total(sel, Hours), Total(sel, Billed(rate)))
  }

  /** The summaries of the named projects, in the order given. */
  function SummariesFor(names: seq<string>, es: seq<TimeEntry>, rate: real): (r: seq<ProjectSummary>)
    ensures |r| == |names|
    ensures forall j :: 0 <= j < |names| ==> r[j] == SummaryOf(es, names[j], rate)
  {
    if names == [] then [] else [SummaryOf(es, names[0], rate)] + SummariesFor(names[1..], es, rate)
  }

  /** `projectSummaries.reduce((sum, p) => sum + p.totalHours, 0)` */
  function SumHours(ss: seq<ProjectSummary>): real {
    if ss == [] then 0.0 else ss[0].totalHours + SumHours(ss[1..])
  }

  /** `projectSummaries.reduce((sum, p) => sum + p.totalAmount, 0)` */
  function SumAmounts(ss: seq<ProjectSummary>): real {
    if ss == [] then 0.0 else ss[0].totalAmount + SumAmounts(ss[1..])
  }

  /** The number of entries the summaries hold between them. */
  function SumEntries(ss: seq<ProjectSummary>): nat {
    if ss == [] then 0 else |ss[0].entries| + SumEntries(ss[1..])
  }

  /** The invoice `invoiceData` produces: one summary per project in the
      order projects are first met, and the totals over the summaries. */
  function InvoiceOf(es: seq<TimeEntry>, rate: real): Invoice {
    var ss := SummariesFor(Distinct(Keys(es, ByProject)), es, rate);
    Invoice(ss, SumHours(ss), SumAmounts(ss))
  }

  /** `entries.push(entry)`, `totalHours += entry.timeDecimal` and
      `totalAmount += entry.timeDecimal * hourlyRate` on one record. */
  function Push(s: ProjectSummary, e: TimeEntry, rate: real): ProjectSummary {
    s.(entries := s.entries + [e], totalHours := s.totalHours + e.timeDecimal,
       totalAmount := s.totalAmount + e.timeDecimal * rate)
  }

  /** How one more entry changes what the accumulator holds for `name`. */
  lemma SummaryStep(es: seq<TimeEntry>, e: TimeEntry, name: string, rate: real)
    ensures SummaryOf(es + [e], name, rate) ==
      if e.project == name then Push(SummaryOf(es, name, rate), e, rate) else SummaryOf(es, name, rate)
  {
    var sel := Select(es, ByProject, name);
    SelectSnoc(es, e, ByProject, name);
    if e.project == name {
      assert Select(es + [e], ByProject, name) == sel + [e];
      TotalSnoc(sel, e, Hours);
      TotalSnoc(sel, e, Billed(rate));
      assert Value(e, Hours) == e.timeDecimal && Value(e, Billed(rate)) == e.timeDecimal * rate;
    } else {
      assert Select(es + [e], ByProject, name) == sel;
    }
  }

  /** A summary's amount is its hours at the rate. */
  lemma SummaryBilled(es: seq<TimeEntry>, name: string, rate: real)
    ensures SummaryOf(es, name, rate).totalAmount == SummaryOf(es, name, rate).totalHours * rate
  {
    TotalBilled(Select(es, ByProject, name), rate);
  }

  /** A project no entry has yet starts from the empty record. */
  lemma SummaryFresh(es: seq<TimeEntry>, name: string, rate: real)
    requires forall j :: 0 <= j < |es| ==> es[j].project != name
    ensures SummaryOf(es, name, rate) == ProjectSummary(name, [], 0.0, 0.0)
  {
    SelectAbsent(es, ByProject, name);
  }

  /** The dictionary after `seen`: its keys are the listed projects, and
      each record is that project's summary. */
  ghost predicate AccHolds(acc: map<string, ProjectSummary>, order: seq<string>, seen: seq<TimeEntry>, rate: real) {
    && acc.Keys == (set x | x in order)
    && (forall n :: n in acc ==> acc[n] == SummaryOf(seen, n, rate))
  }

  /** The projects of `seen`, position by position. */
  ghost predicate ProjectsOf(projects: seq<string>, seen: seq<TimeEntry>) {
    |projects| == |seen| && forall j :: 0 <= j < |seen| ==> projects[j] == seen[j].project
  }

  /** Pushing an entry into its project's record keeps every record the
      summary of what has been seen. */
  lemma PushStep(acc: map<string, ProjectSummary>, order: seq<string>, seen: seq<TimeEntry>, e: TimeEntry, rate: real)
    requires AccHolds(acc, order, seen, rate) && e.project in acc
    ensures AccHolds(acc[e.project := Push(acc[e.project], e, rate)], order, seen + [e], rate)
  {
    var acc1 := acc[e.project := Push(acc[e.project], e, rate)];
    assert acc1.Keys == acc.Keys;
    forall n | n in acc1 ensures acc1[n] == SummaryOf(seen + [e], n, rate) {
      SummaryStep(seen, e, n, rate);
    }
  }

  /** One turn of the `reduce` callback: create the record if the project
      is new, then push the entry into it. */
  method AddEntry(acc: map<string, ProjectSummary>, order: seq<string>, e: TimeEntry, hourlyRate: real,
                  ghost seen: seq<TimeEntry>, ghost projects: seq<string>)
    returns (acc1: map<string, ProjectSummary>, order1: seq<string>)
    requires ProjectsOf(projects, seen) && order == Distinct(projects)
    requires AccHolds(acc, order, seen, hourlyRate)
    ensures order1 == Distinct(projects + [e.project])
    ensures AccHolds(acc1, order1, seen + [e], hourlyRate)
  {
    acc1, order1 := acc, order;
    DistinctSnoc(projects, e.project);
    KnownProject(acc, order, seen, projects, e.project, hourlyRate);
    if e.project !in acc1 {
      acc1 := acc1[e.project := ProjectSummary(e.project, [], 0.0, 0.0)];
      order1 := order1 + [e.project];
      FreshRecord(acc, order, seen, e.project, hourlyRate);
    }
    PushStep(acc1, order1, seen, e, hourlyRate);
    acc1 := acc1[e.project := Push(acc1[e.project], e, hourlyRate)];
  }

  /** A project has a record iff it has been seen. */
  lemma KnownProject(acc: map<string, ProjectSummary>, order: seq<string>, seen: seq<TimeEntry>,
                     projects: seq<string>, p: string, rate: real)
    requires ProjectsOf(projects, seen) && order == Distinct(projects)
    requires AccHolds(acc, order, seen, rate)
    ensures p in acc <==> p in projects
    ensures p !in acc ==> forall j :: 0 <= j < |seen| ==> seen[j].project != p
  {
    assert p in acc <==> p in order;
    if p !in acc {
      forall j | 0 <= j < |seen| ensures seen[j].project != p {
        assert projects[j] in projects;
      }
    }
  }

  /** Creating the empty record of an unseen project keeps the dictionary right. */
  lemma FreshRecord(acc: map<string, ProjectSummary>, order: seq<string>, seen: seq<TimeEntry>,
                    p: string, rate: real)
    requires AccHolds(acc, order, seen, rate)
    requires forall j :: 0 <= j < |seen| ==> seen[j].project != p
    ensures AccHolds(acc[p := ProjectSummary(p, [], 0.0, 0.0)], order + [p], seen, rate)
  {
    SummaryFresh(seen, p, rate);
    assert (set x | x in order + [p]) == (set x | x in order) + {p};
  }

  /** `Object.values` of the finished dictionary, in insertion order, are
      the summaries of the listed projects. */
  lemma ObjectValues(acc: map<string, ProjectSummary>, order: seq<string>, es: seq<TimeEntry>, rate: real)
    requires AccHolds(acc, order, es, rate)
    ensures forall j :: 0 <= j < |order| ==> order[j] in acc && acc[order[j]] == SummariesFor(order, es, rate)[j]
  {
    forall j | 0 <= j < |order| ensures order[j] in acc {
      assert order[j] in (set x | x in order);
    }
  }

  /** The `reduce` of `invoiceData`: a dictionary from each project to its
      record, and the order its keys were inserted in. */
  method GroupByProject(clientEntries: seq<TimeEntry>, hourlyRate: real)
    returns (acc: map<string, ProjectSummary>, order: seq<string>)
    ensures order == Distinct(Keys(clientEntries, ByProject))
    ensures AccHolds(acc, order, clientEntries, hourlyRate)
  {
    acc, order := map[], [];
    ghost var projects := Keys(clientEntries, ByProject);
    assert ProjectsOf(projects, clientEntries);
    var i := 0;
    while i < |clientEntries|
      invariant 0 <= i <= |clientEntries|
      invariant order == Distinct(projects[..i])
      invariant AccHolds(acc, order, clientEntries[..i], hourlyRate)
    {
      PrefixStep(clientEntries, projects, i);
      acc, order := AddEntry(acc, order, clientEntries[i], hourlyRate, clientEntries[..i], projects[..i]);
      i := i + 1;
    }
    assert clientEntries[..i] == clientEntries && projects[..i] == projects;
  }

  /** The first `i` projects are those of the first `i` entries, and one
      more entry adds its project at the end. */
  lemma PrefixStep(es: seq<TimeEntry>, projects: seq<string>, i: nat)
    requires ProjectsOf(projects, es) && i < |es|
    ensures ProjectsOf(projects[..i], es[..i])
    ensures projects[..i + 1] == projects[..i] + [es[i].project]
    ensures es[..i + 1] == es[..i] + [es[i]]
  {
    var p, s := projects[..i], es[..i];
    forall j | 0 <= j < i ensures p[j] == s[j].project {
      assert p[j] == projects[j] && s[j] == es[j];
    }
    assert projects[i] == es[i].project;
    assert projects[..i + 1] == p + [projects[i]];
  }

  /** `invoiceData`: the `reduce`, then `Object.values` in insertion order,
      then the two sums over the summaries. */
  method InvoiceData(clientEntries: seq<TimeEntry>, hourlyRate: real) returns (invoice: Invoice)
    ensures invoice == InvoiceOf(clientEntries, hourlyRate)
  {
    var acc, order := GroupByProject(clientEntries, hourlyRate);
    ObjectValues(acc, order, clientEntries, hourlyRate);
    var summaries := seq(|order|, j requires 0 <= j < |order| => acc[order[j]]);
    assert summaries == SummariesFor(order, clientEntries, hourlyRate);
    invoice := Invoice(summaries, SumHours(summaries), SumAmounts(summaries));
  }

  lemma {:induction false} SumHoursGroups(names: seq<string>, es: seq<TimeEntry>, rate: real)
    ensures SumHours(SummariesFor(names, es, rate)) == SumGroups(names, es, ByProject, Hours)
  {
    if names != [] {
      SumHoursGroups(names[1..], es, rate);
      assert SummariesFor(names, es, rate)[1..] == SummariesFor(names[1..], es, rate);
    }
  }

  lemma {:induction false} SumAmountsGroups(names: seq<string>, es: seq<TimeEntry>, rate: real)
    ensures SumAmounts(SummariesFor(names, es, rate)) == SumGroups(names, es, ByProject, Billed(rate))
  {
    if names != [] {
      SumAmountsGroups(names[1..], es, rate);
      assert SummariesFor(names, es, rate)[1..] == SummariesFor(names[1..], es, rate);
    }
  }

  lemma {:induction false} SumEntriesGroups(names: seq<string>, es: seq<TimeEntry>, rate: real)
    ensures SumEntries(SummariesFor(names, es, rate)) as real == SumGroups(names, es, ByProject, Count)
  {
    if names != [] {
      SumEntriesGroups(names[1..], es, rate);
      assert SummariesFor(names, es, rate)[1..] == SummariesFor(names[1..], es, rate);
      TotalCount(Select(es, ByProject, names[0]));
    }
  }

  /** The grand totals are those of the client's entries: all their hours,
      and those hours billed at the rate. */
  lemma InvoiceTotals(es: seq<TimeEntry>, rate: real)
    ensures InvoiceOf(es, rate).totalHours == Total(es, Hours)
    ensures InvoiceOf(es, rate).totalAmount == Total(es, Hours) * rate
  {
    var names := Distinct(Keys(es, ByProject));
    SumHoursGroups(names, es, rate);
    SumAmountsGroups(names, es, rate);
    DistinctKeysPartition(es, ByProject, Hours);
    DistinctKeysPartition(es, ByProject, Billed(rate));
    TotalBilled(es, rate);
  }

  /** The summaries split the entries: each entry is in exactly one. */
  lemma InvoicePartition(es: seq<TimeEntry>, rate: real)
    ensures SumEntries(InvoiceOf(es, rate).projectSummaries) == |es|
  {
    var names := Distinct(Keys(es, ByProject));
    SumEntriesGroups(names, es, rate);
    DistinctKeysPartition(es, ByProject, Count);
    TotalCount(es);
  }

  /** What a project summary promises about the entries it was built
      from: a project they have, exactly that project's entries in their
      order, their hours, and those hours at the rate. */
  ghost predicate Summarizes(s: ProjectSummary, es: seq<TimeEntry>, rate: real) {
    && s.project in Keys(es, ByProject)
    && IsSubseq(s.entries, es)
    && (forall e :: e in s.entries <==> e in es && e.project == s.project)
    && s.totalHours == Total(s.entries, Hours)
    && s.totalAmount == s.totalHours * rate
  }

  lemma SummaryOfSummarizes(es: seq<TimeEntry>, name: string, rate: real)
    requires name in Keys(es, ByProject)
    ensures Summarizes(SummaryOf(es, name, rate), es, rate)
  {
    SelectSpec(es, ByProject, name);
    SummaryBilled(es, name, rate);
  }

  /** Every summary of the invoice keeps that promise. */
  lemma InvoiceSummaries(es: seq<TimeEntry>, rate: real)
    ensures forall j :: 0 <= j < |InvoiceOf(es, rate).projectSummaries| ==>
      Summarizes(InvoiceOf(es, rate).projectSummaries[j], es, rate)
  {
    var names := Distinct(Keys(es, ByProject));
    var ss := SummariesFor(names, es, rate);
    forall j | 0 <= j < |ss| ensures Summarizes(ss[j], es, rate) {
      SummaryOfSummarizes(es, names[j], rate);
    }
  }

  /** One summary per project, in the order projects are first met. */
  lemma InvoiceOrder(es: seq<TimeEntry>, rate: real)
    ensures forall j, k :: 0 <= j < k < |InvoiceOf(es, rate).projectSummaries| ==>
      && InvoiceOf(es, rate).projectSummaries[j].project != InvoiceOf(es, rate).projectSummaries[k].project
      && FirstIndex(Keys(es, ByProject), InvoiceOf(es, rate).projectSummaries[j].project)
         < FirstIndex(Keys(es, ByProject), InvoiceOf(es, rate).projectSummaries[k].project)
  {
    DistinctFirstSeen(Keys(es, ByProject));
  }

  /** Every project of the client's entries has a summary. */
  lemma InvoiceCovers(es: seq<TimeEntry>, rate: real, p: string)
    requires p in Keys(es, ByProject)
    ensures exists j :: 0 <= j < |InvoiceOf(es, rate).projectSummaries| && InvoiceOf(es, rate).projectSummaries[j].project == p
  {
    var names := Distinct(Keys(es, ByProject));
    var j := FirstIndex(names, p);
    assert InvoiceOf(es, rate).projectSummaries[j].project == p;
  }

  /** Before a client is chosen the invoice is empty. */
  lemma NoClientNoInvoice(es: seq<TimeEntry>, rate: real)
    ensures InvoiceOf(ClientEntries(es, ""), rate) == Invoice([], 0.0, 0.0)
  {
    assert Distinct(Keys([], ByProject)) == [];
  }
}
