/** The exports of src/components/ExportData.tsx: the CSV text built from
    the entries, the summary record with its per-project and per-client
    breakdowns, and the totals the panel shows. `numText` is JavaScript's
    rendering of a number as text; the file download, the JSON text and
    the clock are not modelled (`exportDate` is a parameter). */
module ExportData {
  import opened Seqs
  import opened Text
  import opened Entries
  import FileUpload

  /** The header row of the export. */
  const ExportHeaders: seq<string> :=
    ["Project", "Client", "Description", "Time (h)", "Time (decimal)", "Amount (USD)"]

  /** `headers.join(',')` */
  const HeaderLine: string := Join(ExportHeaders, ",")

  /** `"${x}"`: wrapped in double quotes, nothing escaped. */
  function Quoted(s: string): string {
    "\"" + s + "\""
  }

  /** The six cells of an entry's line: the four text fields quoted, the
      two numbers as JavaScript writes them. */
  function Cells(e: TimeEntry, numText: real -> string): (r: seq<string>)
    ensures |r| == 6
  {
    [Quoted(e.project), Quoted(e.client), Quoted(e.description), Quoted(e.timeHours),
     numText(e.timeDecimal), numText(e.amount)]
  }

  /** One data line: the cells joined with ",". */
  function ExportLine(e: TimeEntry, numText: real -> string): string {
    Join(Cells(e, numText), ",")
  }

  /** The lines of the file: the header line, then one line per entry in order. */
  function CsvLines(es: seq<TimeEntry>, numText: real -> string): (r: seq<string>)
    ensures |r| == |es| + 1
    ensures r[0] == HeaderLine
    ensures forall i :: 0 <= i < |es| ==> r[i + 1] == ExportLine(es[i], numText)
  {
    var body := seq(|es|, i requires 0 <= i < |es| => ExportLine(es[i], numText));
    var r := [HeaderLine] + body;
    assert forall i :: 0 <= i < |es| ==> r[i + 1] == body[i];
    r
  }

  /** `exportToCSV`'s `csvContent`: the lines joined with "\n". */
  function CsvContent(es: seq<TimeEntry>, numText: real -> string): string {
    Join(CsvLines(es, numText), "\n")
  }

  /** Text that can sit between the quotes of a cell and come back out:
      no comma, no double quote and no line break. */
  predicate Plain(s: string) {
    ',' !in s && '"' !in s && '\n' !in s
  }

  /** What JavaScript's number text is taken to look like: non-empty, no
      comma, quote or line break, and no white space at either end. */
  predicate NumberText(t: string) {
    t != [] && Plain(t) && !IsSpace(t[0]) && !IsSpace(t[|t| - 1])
  }

  lemma QuotedPlain(s: string)
    requires Plain(s)
    ensures ',' !in Quoted(s) && '\n' !in Quoted(s)
  {
  }

  /** An entry whose text fields are plain has a line with no line break,
      and its line splits back into its six cells. */
  lemma LineCells(e: TimeEntry, numText: real -> string)
    requires Plain(e.project) && Plain(e.client) && Plain(e.description) && Plain(e.timeHours)
    requires Plain(numText(e.timeDecimal)) && Plain(numText(e.amount))
    ensures '\n' !in ExportLine(e, numText)
    ensures Split(ExportLine(e, numText), ',') == Cells(e, numText)
  {
    var cells := Cells(e, numText);
    QuotedPlain(e.project);
    QuotedPlain(e.client);
    QuotedPlain(e.description);
    QuotedPlain(e.timeHours);
    assert NoneContains(cells, ',');
    assert NoneContains(cells, '\n');
    JoinChars(cells, ",", '\n');
    SplitJoin(cells, ',');
  }

  /** The file is one header line followed by exactly one line per entry,
      in order, when no field holds a line break. */
  lemma CsvContentLines(es: seq<TimeEntry>, numText: real -> string)
    requires forall i :: 0 <= i < |es| ==> '\n' !in ExportLine(es[i], numText)
    ensures Split(CsvContent(es, numText), '\n') == CsvLines(es, numText)
  {
    var lines := CsvLines(es, numText);
    assert NoneContains(lines, '\n') by {
      forall i | 0 <= i < |lines| ensures '\n' !in lines[i] {
        if i > 0 {
          assert lines[i] == ExportLine(es[i - 1], numText);
        } else {
          HeaderLineShape();
        }
      }
    }
    SplitJoin(lines, '\n');
  }

  /** A header cell with no white space at either end, whose characters
      lower-case one by one to `l`, normalises to `l` when `l` has no quote. */
  lemma NormalizesTo(h: string, l: string)
    requires h != [] && !IsSpace(h[0]) && !IsSpace(h[|h| - 1])
    requires |h| == |l| && forall i :: 0 <= i < |h| ==> LowerChar(h[i]) == l[i]
    requires '"' !in l
    ensures FileUpload.NormalizeHeader(h) == l
  {
    assert ToLower(h) == l;
    TrimUnchanged(h);
    RemoveCharAbsent(l, '"');
  }

  /** The header cells hold no comma, no quote and no line break. */
  lemma HeaderCellsPlain(hs: seq<string>)
    requires hs == ExportHeaders
    ensures forall j :: 0 <= j < |hs| ==> Plain(hs[j]) && hs[j] != []
  {
  }

  /** The header line has no line break; it starts with `P` and ends
      with `)`. */
  lemma HeaderLineShape()
    ensures '\n' !in HeaderLine
    ensures HeaderLine != [] && HeaderLine[0] == 'P' && HeaderLine[|HeaderLine| - 1] == ')'
  {
    HeaderCellsPlain(ExportHeaders);
    JoinChars(ExportHeaders, ",", '\n');
    JoinEnds(ExportHeaders, ",");
  }

  lemma HeaderNames(hs: seq<string>, rc: seq<string>)
    requires hs == ExportHeaders && rc == FileUpload.RequiredColumns
    ensures forall j :: 0 <= j < 6 ==> FileUpload.NormalizeHeader(hs[j]) == rc[j]
  {
    forall j | 0 <= j < 6 ensures FileUpload.NormalizeHeader(hs[j]) == rc[j] {
      NormalizesTo(hs[j], rc[j]);
    }
  }

  lemma HeadersRead(hs: seq<string>, rc: seq<string>)
    requires hs == ExportHeaders && rc == FileUpload.RequiredColumns
    ensures FileUpload.Headers(Join(hs, ",")) == rc
  {
    HeaderCellsPlain(hs);
    SplitJoin(hs, ',');
    HeaderNames(hs, rc);
  }

  /** The exported header row reads back, after the upload's normalisation,
      as exactly the upload's list of required columns. */
  lemma ExportedHeaders()
    ensures FileUpload.Headers(HeaderLine) == FileUpload.RequiredColumns
  {
    HeadersRead(ExportHeaders, FileUpload.RequiredColumns);
  }

  // Where the upload finds each of its keywords among its own required
  // columns: each at its own position, one lemma per keyword.
  lemma ProjectAt(rc: seq<string>, kw: string)
    requires rc == FileUpload.RequiredColumns && kw == "project"
    ensures FileUpload.FindIndex(rc, kw) == 0
  {
    ContainsPrefix(rc[0], kw);
    FileUpload.FindIndexAt(rc, kw, 0);
  }

  lemma ClientAt(rc: seq<string>, kw: string)
    requires rc == FileUpload.RequiredColumns && kw == "client"
    ensures FileUpload.FindIndex(rc, kw) == 1
  {
    ContainsPrefix(rc[1], kw);
    FileUpload.FindIndexAtChar(rc, kw, 1, 'l');
  }

  lemma DescriptionAt(rc: seq<string>, kw: string)
    requires rc == FileUpload.RequiredColumns && kw == "description"
    ensures FileUpload.FindIndex(rc, kw) == 2
  {
    ContainsPrefix(rc[2], kw);
    FileUpload.FindIndexAtChar(rc, kw, 2, 'd');
  }

  lemma TimeHoursAt(rc: seq<string>, kw: string)
    requires rc == FileUpload.RequiredColumns && kw == "time (h)"
    ensures FileUpload.FindIndex(rc, kw) == 3
  {
    ContainsPrefix(rc[3], kw);
    FileUpload.FindIndexAtChar(rc, kw, 3, '(');
  }

  lemma TimeDecimalAt(rc: seq<string>, kw: string)
    requires rc == FileUpload.RequiredColumns && kw == "time (decimal)"
    ensures FileUpload.FindIndex(rc, kw) == 4
  {
    ContainsPrefix(rc[4], kw);
    FileUpload.FindIndexAtLonger(rc, kw, 4);
  }

  lemma AmountAt(rc: seq<string>, kw: string)
    requires rc == FileUpload.RequiredColumns && kw == "amount"
    ensures FileUpload.FindIndex(rc, kw) == 5
  {
    ContainsPrefix(rc[5], kw);
    FileUpload.FindIndexAtChar(rc, kw, 5, 'u');
  }

  /** A quoted plain cell comes back as its text. */
  lemma CleanQuoted(x: string)
    requires Plain(x)
    ensures FileUpload.CleanValue(Quoted(x)) == x
  {
    var q := "\"";
    TrimUnchanged(Quoted(x));
    RemoveCharAppend(q + x, q, '"');
    RemoveCharAppend(q, x, '"');
    RemoveCharAbsent(x, '"');
  }

  /** A number's text comes back unchanged. */
  lemma CleanNumber(t: string)
    requires NumberText(t)
    ensures FileUpload.CleanValue(t) == t
  {
    TrimUnchanged(t);
    RemoveCharAbsent(t, '"');
  }

  /** `parseFloat` reads the text JavaScript writes for `x` back as `x`,
      and that text is a number's text. */
  predicate ReadsBack(numText: real -> string, parseFloat: string -> Option<real>, x: real) {
    NumberText(numText(x)) && parseFloat(numText(x)) == Some(x)
  }

  /** An entry the upload can read back from its exported line: a project,
      a client and a positive duration, and text fields without commas,
      quotes or line breaks (the export escapes nothing). */
  predicate Exportable(e: TimeEntry, numText: real -> string, parseFloat: string -> Option<real>) {
    && e.project != "" && e.client != "" && e.timeDecimal > 0.0
    && Plain(e.project) && Plain(e.client) && Plain(e.description) && Plain(e.timeHours)
    && ReadsBack(numText, parseFloat, e.timeDecimal) && ReadsBack(numText, parseFloat, e.amount)
  }

  /** What the upload makes of an exported entry on data line `i`: the same
      entry under a new id, dated now, in category "General", without
      details. */
  function Reimported(e: TimeEntry, i: nat, now: Date): TimeEntry {
    e.(id := "entry-" + NatToString(i), date := Some(now), category := Some("General"), details := None)
  }

  /** The cells the upload reads from an exported line. */
  lemma LineValues(e: TimeEntry, numText: real -> string, parseFloat: string -> Option<real>)
    requires Exportable(e, numText, parseFloat)
    ensures var values := FileUpload.Values(ExportLine(e, numText));
      && |values| == 6
      && values[0] == e.project && values[1] == e.client
      && values[2] == e.description && values[3] == e.timeHours
      && values[4] == numText(e.timeDecimal) && values[5] == numText(e.amount)
  {
    LineCells(e, numText);
    CleanCells(e, numText, parseFloat);
  }

  /** Cleaning each cell of an exportable entry gives its field back. */
  lemma CleanCells(e: TimeEntry, numText: real -> string, parseFloat: string -> Option<real>)
    requires Exportable(e, numText, parseFloat)
    ensures var cells := Cells(e, numText);
      && FileUpload.CleanValue(cells[0]) == e.project && FileUpload.CleanValue(cells[1]) == e.client
      && FileUpload.CleanValue(cells[2]) == e.description && FileUpload.CleanValue(cells[3]) == e.timeHours
      && FileUpload.CleanValue(cells[4]) == numText(e.timeDecimal)
      && FileUpload.CleanValue(cells[5]) == numText(e.amount)
  {
    var cells := Cells(e, numText);
    assert cells[0] == Quoted(e.project) && cells[1] == Quoted(e.client);
    assert cells[2] == Quoted(e.description) && cells[3] == Quoted(e.timeHours);
    CleanQuoted(e.project);
    CleanQuoted(e.client);
    CleanQuoted(e.description);
    CleanQuoted(e.timeHours);
    CleanNumber(numText(e.timeDecimal));
    CleanNumber(numText(e.amount));
  }

  /** An exported line, read under the upload's own required columns,
      yields its entry back, renamed after its line. */
  lemma LineRoundTrip(e: TimeEntry, i: nat, numText: real -> string,
                      parseFloat: string -> Option<real>, now: Date)
    requires Exportable(e, numText, parseFloat)
    ensures FileUpload.LineEntry(ExportLine(e, numText), i, FileUpload.RequiredColumns, parseFloat, now)
         == Some(Reimported(e, i, now))
  {
    var rc := FileUpload.RequiredColumns;
    LineValues(e, numText, parseFloat);
    ProjectAt(rc, "project");
    ClientAt(rc, "client");
    DescriptionAt(rc, "description");
    TimeHoursAt(rc, "time (h)");
    TimeDecimalAt(rc, "time (decimal)");
    AmountAt(rc, "amount");
  }

  /** An exported line is not empty and ends with the last character of the
      amount's text. */
  lemma LineEnds(e: TimeEntry, numText: real -> string)
    requires NumberText(numText(e.timeDecimal)) && NumberText(numText(e.amount))
    ensures var line := ExportLine(e, numText);
      line != [] && !IsSpace(line[|line| - 1])
  {
    var cells := Cells(e, numText);
    assert forall j :: 0 <= j < 4 ==> cells[j] != [];
    JoinEnds(cells, ",");
  }

  /** A join of non-empty pieces, the first starting and the last ending
      with other than white space, is its own trim. */
  lemma JoinTrimmed(xs: seq<string>, sep: string)
    requires |xs| >= 1 && forall i :: 0 <= i < |xs| ==> xs[i] != []
    requires !IsSpace(xs[0][0]) && !IsSpace(xs[|xs| - 1][|xs[|xs| - 1]| - 1])
    ensures Trim(Join(xs, sep)) == Join(xs, sep)
  {
    JoinEnds(xs, sep);
    TrimUnchanged(Join(xs, sep));
  }

  /** No exported line is empty. */
  lemma LinesNonEmpty(es: seq<TimeEntry>, numText: real -> string)
    requires forall i :: 0 <= i < |es| ==>
      NumberText(numText(es[i].timeDecimal)) && NumberText(numText(es[i].amount))
    ensures forall i :: 0 <= i < |CsvLines(es, numText)| ==> CsvLines(es, numText)[i] != []
  {
    HeaderLineShape();
    forall i | 0 <= i < |es| ensures ExportLine(es[i], numText) != [] {
      LineEnds(es[i], numText);
    }
  }

  /** The exported file has no white space at either end. */
  lemma ContentTrimmed(es: seq<TimeEntry>, numText: real -> string)
    requires forall i :: 0 <= i < |es| ==>
      NumberText(numText(es[i].timeDecimal)) && NumberText(numText(es[i].amount))
    ensures Trim(CsvContent(es, numText)) == CsvContent(es, numText)
  {
    LinesNonEmpty(es, numText);
    HeaderLineShape();
    LastLineEnds(es, numText);
    JoinTrimmed(CsvLines(es, numText), "\n");
  }

  /** The last exported line ends with other than white space. */
  lemma LastLineEnds(es: seq<TimeEntry>, numText: real -> string)
    requires forall i :: 0 <= i < |es| ==>
      NumberText(numText(es[i].timeDecimal)) && NumberText(numText(es[i].amount))
    ensures var lines := CsvLines(es, numText);
      lines[|lines| - 1] != [] && !IsSpace(lines[|lines| - 1][|lines[|lines| - 1]| - 1])
  {
    if |es| > 0 {
      LineEnds(es[|es| - 1], numText);
    } else {
      HeaderLineShape();
    }
  }

  /** The upload splits the exported file into exactly its lines. */
  lemma ExportedLines(es: seq<TimeEntry>, numText: real -> string, parseFloat: string -> Option<real>)
    requires forall i :: 0 <= i < |es| ==> Exportable(es[i], numText, parseFloat)
    ensures FileUpload.Lines(CsvContent(es, numText)) == CsvLines(es, numText)
  {
    forall i | 0 <= i < |es| ensures '\n' !in ExportLine(es[i], numText) {
      LineCells(es[i], numText);
    }
    CsvContentLines(es, numText);
    ContentTrimmed(es, numText);
  }

  /** The exported entries, as the upload reads them back from the file. */
  function ReadBack(es: seq<TimeEntry>, now: Date): (r: seq<TimeEntry>)
    ensures |r| == |es|
    ensures forall i :: 0 <= i < |es| ==> r[i] == Reimported(es[i], i + 1, now)
  {
    seq(|es|, i requires 0 <= i < |es| => Reimported(es[i], i + 1, now))
  }

  /** The outcome of the exported line of entry `i`. */
  lemma ExportedOutcome(es: seq<TimeEntry>, i: nat, numText: real -> string,
                        parseFloat: string -> Option<real>, now: Date)
    requires i < |es| && Exportable(es[i], numText, parseFloat)
    ensures FileUpload.Outcomes(CsvLines(es, numText), FileUpload.RequiredColumns, parseFloat, now)[i + 1]
         == Some(ReadBack(es, now)[i])
  {
    var lines := CsvLines(es, numText);
    var rc := FileUpload.RequiredColumns;
    var outs := FileUpload.Outcomes(lines, rc, parseFloat, now);
    assert outs[i + 1] == FileUpload.LineEntry(lines[i + 1], i + 1, rc, parseFloat, now);
    assert lines[i + 1] == ExportLine(es[i], numText);
    LineRoundTrip(es[i], i + 1, numText, parseFloat, now);
    assert ReadBack(es, now)[i] == Reimported(es[i], i + 1, now);
  }

  /** The line loop over the exported lines keeps every entry. */
  lemma ImportedBack(es: seq<TimeEntry>, numText: real -> string,
                     parseFloat: string -> Option<real>, now: Date)
    requires forall i :: 0 <= i < |es| ==> Exportable(es[i], numText, parseFloat)
    ensures FileUpload.Imported(CsvLines(es, numText), FileUpload.RequiredColumns, parseFloat, now)
         == ReadBack(es, now)
  {
    var outs := FileUpload.Outcomes(CsvLines(es, numText), FileUpload.RequiredColumns, parseFloat, now);
    forall i | 0 <= i < |es| ensures outs[i + 1] == Some(ReadBack(es, now)[i]) {
      ExportedOutcome(es, i, numText, parseFloat, now);
    }
    SomesAfterNone(outs, ReadBack(es, now));
  }

  /** Export then upload: the file `exportToCSV` writes passes the upload's
      header check and gives back every entry, in order, each renamed after
      its line, dated now, in category "General" and without details;
      nothing else about an entry changes. */
  lemma CsvRoundTrip(es: seq<TimeEntry>, numText: real -> string,
                     parseFloat: string -> Option<real>, now: Date)
    requires forall i :: 0 <= i < |es| ==> Exportable(es[i], numText, parseFloat)
    ensures FileUpload.ParseCsvSpec(CsvContent(es, numText), parseFloat, now) == Ok(ReadBack(es, now))
  {
    var rc := FileUpload.RequiredColumns;
    ExportedLines(es, numText, parseFloat);
    ExportedHeaders();
    FileUpload.MissingNone(rc, rc);
    ImportedBack(es, numText, parseFloat, now);
  }

  /** One value of `projectBreakdown` or `clientBreakdown`. */
  datatype Breakdown = Breakdown(hours: real, amount: real, entries: nat)

  const NoWork := Breakdown(0.0, 0.0, 0)

  /** The three `+=` of the reduce callback, for one entry. */
  function Tally(b: Breakdown, e: TimeEntry): Breakdown {
    Breakdown(b.hours + e.timeDecimal, b.amount + e.amount, b.entries + 1)
  }

  /** What the breakdown holds for `name`: the hours, the amounts and the
      number of the entries under that name. */
  function BreakdownOf(es: seq<TimeEntry>, k: Key, name: string): Breakdown {
    var sel := Select(es, k, name);
    Breakdown(Total(sel, Hours), Total(sel, Amount), |sel|)
  }

  /** The breakdown record: one value per name the entries carry. */
  function BreakdownSpec(es: seq<TimeEntry>, k: Key): map<string, Breakdown> {
    map n | n in Keys(es, k) :: BreakdownOf(es, k, n)
  }

  /** One more entry tallies into its own name's value and no other. */
  lemma BreakdownStep(es: seq<TimeEntry>, e: TimeEntry, k: Key, name: string)
    ensures BreakdownOf(es + [e], k, name)
         == if KeyOf(e, k) == name then Tally(BreakdownOf(es, k, name), e) else BreakdownOf(es, k, name)
  {
    SelectSnoc(es, e, k, name);
    var sel := Select(es, k, name);
    if KeyOf(e, k) == name {
      assert Select(es + [e], k, name) == sel + [e];
      TotalSnoc(sel, e, Hours);
      TotalSnoc(sel, e, Amount);
    } else {
      assert Select(es + [e], k, name) == sel;
    }
  }

  /** A name no entry carries has nothing to its name. */
  lemma BreakdownFresh(es: seq<TimeEntry>, k: Key, name: string)
    requires name !in Keys(es, k)
    ensures BreakdownOf(es, k, name) == NoWork
  {
    SelectAbsent(es, k, name);
  }

  /** The accumulator after the entries `seen`: a value for each name they
      carry, and that value is their breakdown for the name. */
  ghost predicate Tallied(acc: map<string, Breakdown>, seen: seq<TimeEntry>, k: Key) {
    && acc.Keys == (set n | n in Keys(seen, k))
    && forall n :: n in acc ==> acc[n] == BreakdownOf(seen, k, n)
  }

  /** The tally of one entry keeps every other value right. */
  lemma TallyStep(acc: map<string, Breakdown>, seen: seq<TimeEntry>, e: TimeEntry, k: Key,
                  acc1: map<string, Breakdown>)
    requires forall n :: n in acc ==> acc[n] == BreakdownOf(seen, k, n)
    requires KeyOf(e, k) in acc && acc1 == acc[KeyOf(e, k) := Tally(acc[KeyOf(e, k)], e)]
    ensures forall n :: n in acc1 ==> acc1[n] == BreakdownOf(seen + [e], k, n)
  {
    forall n | n in acc1 ensures acc1[n] == BreakdownOf(seen + [e], k, n) {
      BreakdownStep(seen, e, k, n);
    }
  }

  /** The reduce callback: a zero value for a name seen the first time,
      then the entry tallied into its name's value. */
  method TallyEntry(acc: map<string, Breakdown>, e: TimeEntry, k: Key, ghost seen: seq<TimeEntry>)
    returns (acc1: map<string, Breakdown>)
    requires Tallied(acc, seen, k)
    ensures Tallied(acc1, seen + [e], k)
  {
    var name := KeyOf(e, k);
    KeysAppend(seen, [e], k);
    acc1 := acc;
    if name !in acc1 {
      BreakdownFresh(seen, k, name);
      acc1 := acc1[name := NoWork];
    }
    assert forall n :: n in acc1 ==> acc1[n] == BreakdownOf(seen, k, n);
    ghost var mid := acc1;
    acc1 := acc1[name := Tally(acc1[name], e)];
    TallyStep(mid, seen, e, k, acc1);
  }

  /** A complete tally is the breakdown record. */
  lemma TalliedSpec(acc: map<string, Breakdown>, es: seq<TimeEntry>, k: Key)
    requires Tallied(acc, es, k)
    ensures acc == BreakdownSpec(es, k)
  {
  }

  /** `timeEntries.reduce(...)` building `projectBreakdown` (or, by client,
      `clientBreakdown`): exactly the breakdown record. */
  method BreakdownBy(es: seq<TimeEntry>, k: Key) returns (acc: map<string, Breakdown>)
    ensures acc == BreakdownSpec(es, k)
  {
    acc := map[];
    var i := 0;
    while i < |es|
      invariant 0 <= i <= |es|
      invariant Tallied(acc, es[..i], k)
    {
      acc := TallyEntry(acc, es[i], k, es[..i]);
      TakeNext(es, i);
      i := i + 1;
    }
    assert es[..|es|] == es;
    TalliedSpec(acc, es, k);
  }

  /** The record `exportSummary` writes out (`exportDate` is the clock's
      ISO text, handed in). */
  datatype ExportSummary = ExportSummary(
    exportDate: string,
    totalEntries: nat,
    totalHours: real,
    totalAmount: real,
    projects: seq<string>,
    clients: seq<string>,
    projectBreakdown: map<string, Breakdown>,
    clientBreakdown: map<string, Breakdown>)

  function SummaryOf(es: seq<TimeEntry>, exportDate: string): ExportSummary {
    ExportSummary(exportDate, |es|, Total(es, Hours), Total(es, Amount),
      Distinct(Keys(es, ByProject)), Distinct(Keys(es, ByClient)),
      BreakdownSpec(es, ByProject), BreakdownSpec(es, ByClient))
  }

  /** `exportSummary`'s record, with both breakdowns built by their loops. */
  method SummaryData(es: seq<TimeEntry>, exportDate: string) returns (s: ExportSummary)
    ensures s == SummaryOf(es, exportDate)
  {
    var byProject := BreakdownBy(es, ByProject);
    var byClient := BreakdownBy(es, ByClient);
    s := ExportSummary(exportDate, |es|, Total(es, Hours), Total(es, Amount),
      Distinct(Keys(es, ByProject)), Distinct(Keys(es, ByClient)), byProject, byClient);
  }

  /** The values of a breakdown under `names`, added up field by field. */
  function BreakdownSum(names: seq<string>, bm: map<string, Breakdown>): Breakdown
    requires forall n :: n in names ==> n in bm
  {
    if names == [] then NoWork
    else
      var b := bm[names[0]];
      var rest := BreakdownSum(names[1..], bm);
      Breakdown(b.hours + rest.hours, b.amount + rest.amount, b.entries + rest.entries)
  }

  /** Summing breakdown values over names sums the entries' groups. */
  lemma {:induction false} BreakdownSumGroups(names: seq<string>, bm: map<string, Breakdown>,
                                              es: seq<TimeEntry>, k: Key)
    requires forall n :: n in names ==> n in bm && bm[n] == BreakdownOf(es, k, n)
    ensures var b := BreakdownSum(names, bm);
      && b.hours == SumGroups(names, es, k, Hours)
      && b.amount == SumGroups(names, es, k, Amount)
      && b.entries as real == SumGroups(names, es, k, Count)
  {
    if names != [] {
      assert forall n :: n in names[1..] ==> n in names;
      BreakdownSumGroups(names[1..], bm, es, k);
      TotalCount(Select(es, k, names[0]));
    }
  }

  /** Every entry is counted once in a breakdown: over its names, the values
      add up to the number of entries, their hours and their amounts. */
  lemma BreakdownPartition(es: seq<TimeEntry>, k: Key)
    ensures forall n :: n in Distinct(Keys(es, k)) ==> n in BreakdownSpec(es, k)
    ensures BreakdownSum(Distinct(Keys(es, k)), BreakdownSpec(es, k))
         == Breakdown(Total(es, Hours), Total(es, Amount), |es|)
  {
    var names := Distinct(Keys(es, k));
    BreakdownSumGroups(names, BreakdownSpec(es, k), es, k);
    DistinctKeysPartition(es, k, Hours);
    DistinctKeysPartition(es, k, Amount);
    DistinctKeysPartition(es, k, Count);
    TotalCount(es);
  }

  /** The summary agrees with itself: each breakdown has exactly one value
      per listed name, and its values add up to the summary's totals. */
  lemma SummaryConsistent(es: seq<TimeEntry>, exportDate: string)
    ensures var s := SummaryOf(es, exportDate);
      && s.projectBreakdown.Keys == (set p | p in s.projects)
      && s.clientBreakdown.Keys == (set c | c in s.clients)
      && BreakdownSum(s.projects, s.projectBreakdown) == Breakdown(s.totalHours, s.totalAmount, s.totalEntries)
      && BreakdownSum(s.clients, s.clientBreakdown) == Breakdown(s.totalHours, s.totalAmount, s.totalEntries)
  {
    BreakdownPartition(es, ByProject);
    BreakdownPartition(es, ByClient);
  }

  /** `projects` and `clients` list each name an entry carries exactly once,
      in the order the names first appear. */
  lemma SummaryNames(es: seq<TimeEntry>, exportDate: string, k: Key)
    ensures var names := if k == ByProject then SummaryOf(es, exportDate).projects
                         else SummaryOf(es, exportDate).clients;
      && NoDups(names)
      && (forall n :: n in names <==> exists i :: 0 <= i < |es| && KeyOf(es[i], k) == n)
      && forall i, j :: 0 <= i < j < |names| ==>
           FirstIndex(Keys(es, k), names[i]) < FirstIndex(Keys(es, k), names[j])
  {
    var names := if k == ByProject then SummaryOf(es, exportDate).projects
                 else SummaryOf(es, exportDate).clients;
    assert names == Distinct(Keys(es, k));
    DistinctNames(es, k);
  }

  lemma DistinctNames(es: seq<TimeEntry>, k: Key)
    ensures var names := Distinct(Keys(es, k));
      && NoDups(names)
      && (forall n :: n in names <==> exists i :: 0 <= i < |es| && KeyOf(es[i], k) == n)
      && forall i, j :: 0 <= i < j < |names| ==>
           FirstIndex(Keys(es, k), names[i]) < FirstIndex(Keys(es, k), names[j])
  {
    var keys := Keys(es, k);
    DistinctFirstSeen(keys);
    assert forall n :: n in keys <==> exists i :: 0 <= i < |es| && keys[i] == n;
  }

  /** The panel's project count: the number of different projects. */
  function ProjectCount(es: seq<TimeEntry>): (r: nat)
    ensures r == |set p | p in Keys(es, ByProject)|
  {
    DistinctCard(Keys(es, ByProject));
    |Distinct(Keys(es, ByProject))|
  }
}
