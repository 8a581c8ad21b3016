/** The upload parser of src/components/FileUpload.tsx: CSV text is split
    into lines, the first line names the columns (matched by keyword, not
    exactly), and every later line with enough cells becomes an entry when
    it has a project, a client and a positive decimal duration. The
    JavaScript conversions are parameters: `parseFloat` (None for NaN) and
    `now`, the value of `new Date()`. */
module FileUpload {
  import opened Seqs
  import opened Text
  import opened Entries

  /** The columns the upload insists on, as written in the source. */
  const RequiredColumns: seq<string> :=
    ["project", "client", "description", "time (h)", "time (decimal)", "amount (usd)"]

  /** `col.split('(')[0].trim()`: the part of a column name before "(". */
  function Keyword(col: string): string {
    Trim(Split(col, '(')[0])
  }

  /** `h.trim().toLowerCase().replace(/"/g, '')` */
  function NormalizeHeader(h: string): (r: string)
    ensures '"' !in r
    ensures forall c :: c in r ==> !('A' <= c <= 'Z')
    ensures '"' !in ToLower(Trim(h)) ==> r == ToLower(Trim(h))
  {
    var lower := ToLower(Trim(h));
    assert forall c :: c in lower ==> !('A' <= c <= 'Z');
    assert '"' !in lower ==> RemoveChar(lower, '"') == lower by {
      if '"' !in lower { RemoveCharAbsent(lower, '"'); }
    }
    RemoveChar(lower, '"')
  }

  /** `v.trim().replace(/"/g, '')` */
  function CleanValue(v: string): (r: string)
    ensures '"' !in r
    ensures '"' !in Trim(v) ==> r == Trim(v)
  {
    var t := Trim(v);
    assert '"' !in t ==> RemoveChar(t, '"') == t by {
      if '"' !in t { RemoveCharAbsent(t, '"'); }
    }
    RemoveChar(t, '"')
  }

  /** The normalised header names of the first line. */
  function Headers(line: string): (r: seq<string>)
    ensures |r| == |Split(line, ',')|
    ensures forall j :: 0 <= j < |r| ==> r[j] == NormalizeHeader(Split(line, ',')[j])
  {
    var cells := Split(line, ',');
    seq(|cells|, j requires 0 <= j < |cells| => NormalizeHeader(cells[j]))
  }

  /** The cleaned cells of a data line. */
  function Values(line: string): (r: seq<string>)
    ensures |r| == |Split(line, ',')|
    ensures forall j :: 0 <= j < |r| ==> r[j] == CleanValue(Split(line, ',')[j])
  {
    var cells := Split(line, ',');
    seq(|cells|, j requires 0 <= j < |cells| => CleanValue(cells[j]))
  }

  /** `headers.some(h => h.includes(kw))` */
  predicate AnyContains(headers: seq<string>, kw: string) {
    exists j :: 0 <= j < |headers| && Contains(headers[j], kw)
  }

  /** `requiredColumns.filter(col => !headers.some(h => h.includes(keyword(col))))`,
      written over any list of columns. */
  function MissingFrom(cols: seq<string>, headers: seq<string>): (r: seq<string>)
    ensures forall c :: c in r <==> c in cols && !AnyContains(headers, Keyword(c))
    ensures IsSubseq(r, cols)
  {
    if cols == [] then []
    else
      var rest := MissingFrom(cols[1..], headers);
      assert forall c :: c in cols <==> c == cols[0] || c in cols[1..];
      if !AnyContains(headers, Keyword(cols[0])) then [cols[0]] + rest
      else
        SubseqSkip(rest, cols);
        rest
  }

  lemma SubseqSkip(a: seq<string>, b: seq<string>)
    requires b != [] && IsSubseq(a, b[1..])
    ensures IsSubseq(a, b)
  {
  }

  function MissingColumns(headers: seq<string>): seq<string> {
    MissingFrom(RequiredColumns, headers)
  }

  /** `headers.findIndex(h => h.includes(kw))`: the first matching position, or -1. */
  function FindIndex(headers: seq<string>, kw: string): (r: int)
    ensures -1 <= r < |headers|
    ensures r == -1 <==> !AnyContains(headers, kw)
    ensures r >= 0 ==> Contains(headers[r], kw) && forall j :: 0 <= j < r ==> !Contains(headers[j], kw)
  {
    if headers == [] then -1
    else if Contains(headers[0], kw) then 0
    else
      var r := FindIndex(headers[1..], kw);
      assert forall j :: 1 <= j < |headers| ==> headers[j] == headers[1..][j - 1];
      if r == -1 then -1 else r + 1
  }

  /** The first header containing `kw` is the one `FindIndex` reports. */
  lemma FindIndexAt(headers: seq<string>, kw: string, k: nat)
    requires k < |headers| && Contains(headers[k], kw)
    requires forall j :: 0 <= j < k ==> !Contains(headers[j], kw)
    ensures FindIndex(headers, kw) == k
  {
    assert AnyContains(headers, kw);
  }

  /** `FindIndexAt` when the headers before `k` all lack a character of `kw`. */
  lemma FindIndexAtChar(headers: seq<string>, kw: string, k: nat, c: char)
    requires k < |headers| && Contains(headers[k], kw) && c in kw
    requires forall j :: 0 <= j < k ==> c !in headers[j]
    ensures FindIndex(headers, kw) == k
  {
    forall j | 0 <= j < k ensures !Contains(headers[j], kw) {
      NotContainsChar(headers[j], kw, c);
    }
    FindIndexAt(headers, kw, k);
  }

  /** `FindIndexAt` when the headers before `k` are all shorter than `kw`. */
  lemma FindIndexAtLonger(headers: seq<string>, kw: string, k: nat)
    requires k < |headers| && Contains(headers[k], kw)
    requires forall j :: 0 <= j < k ==> |headers[j]| < |kw|
    ensures FindIndex(headers, kw) == k
  {
    forall j | 0 <= j < k ensures !Contains(headers[j], kw) {
      NotContainsLonger(headers[j], kw);
    }
    FindIndexAt(headers, kw, k);
  }

  /** Every column name contains its own keyword. */
  lemma KeywordContained(col: string)
    ensures Contains(col, Keyword(col))
  {
    SplitFirstPrefix(col, '(');
    TrimContained(Split(col, '(')[0], col);
  }

  /** A column that is itself a header has its keyword found. */
  lemma PresentKeyword(c: string, headers: seq<string>)
    requires c in headers
    ensures AnyContains(headers, Keyword(c))
  {
    KeywordContained(c);
    var j := FirstIndex(headers, c);
    assert Contains(headers[j], Keyword(c));
  }

  /** Nothing is missing when every column is itself among the headers. */
  lemma {:induction false} MissingNone(cols: seq<string>, headers: seq<string>)
    requires forall c :: c in cols ==> c in headers
    ensures MissingFrom(cols, headers) == []
  {
    if cols != [] {
      PresentKeyword(cols[0], headers);
      MissingNone(cols[1..], headers);
    }
  }

  /** `values[headers.findIndex(h => h.includes(kw))] || ''`: the cell under
      the first header containing `kw`; `values[-1]` is undefined, so a
      keyword no header contains reads as "". */
  function Cell(values: seq<string>, headers: seq<string>, kw: string): string
    requires |values| >= |headers|
  {
    var j := FindIndex(headers, kw);
    if j < 0 then "" else values[j]
  }

  /** `parseFloat(text || '0')`; `parseFloat('0')` is 0. */
  function ParseNumber(text: string, parseFloat: string -> Option<real>): Option<real> {
    if text == "" then Some(0.0) else parseFloat(text)
  }

  /** The entry object built for data line `i` whose duration parsed as `hours`. */
  function EntryOf(i: nat, values: seq<string>, headers: seq<string>, hours: real,
                   parseFloat: string -> Option<real>, now: Date): TimeEntry
    requires |values| >= |headers|
  {
    TimeEntry(
      id := "entry-" + NatToString(i),
      project := Cell(values, headers, "project"),
      client := Cell(values, headers, "client"),
      description := Cell(values, headers, "description"),
      timeHours := Cell(values, headers, "time (h)"),
      timeDecimal := hours,
      amount := GetOr(ParseNumber(Cell(values, headers, "amount"), parseFloat), 0.0),
      date := Some(now),
      category := Some("General"),
      details := None)
  }

  /** The condition the upload keeps a line under: a project, a client and
      a decimal duration that reads as a positive number. */
  predicate Kept(values: seq<string>, headers: seq<string>, parseFloat: string -> Option<real>)
    requires |values| >= |headers|
  {
    var duration := ParseNumber(Cell(values, headers, "time (decimal)"), parseFloat);
    && Cell(values, headers, "project") != "" && Cell(values, headers, "client") != ""
    && duration.Some? && duration.value > 0.0
  }

  /** What data line `i` contributes: nothing when it has fewer cells than
      there are headers, or lacks a project, a client or a positive duration. */
  function LineEntry(line: string, i: nat, headers: seq<string>,
                     parseFloat: string -> Option<real>, now: Date): (r: Option<TimeEntry>)
    ensures r.Some? ==> r.value.project != "" && r.value.client != "" && r.value.timeDecimal > 0.0
    ensures r.Some? ==> r.value.id == "entry-" + NatToString(i)
    ensures r.Some? <==> |Values(line)| >= |headers| && Kept(Values(line), headers, parseFloat)
    ensures r.Some? ==> var values := Values(line);
      && r.value.project == Cell(values, headers, "project")
      && r.value.client == Cell(values, headers, "client")
      && r.value.description == Cell(values, headers, "description")
      && r.value.timeHours == Cell(values, headers, "time (h)")
      && Some(r.value.timeDecimal) == ParseNumber(Cell(values, headers, "time (decimal)"), parseFloat)
      && r.value.amount == GetOr(ParseNumber(Cell(values, headers, "amount"), parseFloat), 0.0)
      && r.value.date == Some(now) && r.value.category == Some("General") && r.value.details == None
  {
    var values := Values(line);
    if |values| < |headers| then None
    else
      var duration := ParseNumber(Cell(values, headers, "time (decimal)"), parseFloat);
      var entry := EntryOf(i, values, headers, GetOr(duration, 0.0), parseFloat, now);
      if entry.project != "" && entry.client != "" && duration.Some? && duration.value > 0.0
      then Some(entry) else None
  }

  /** What each line contributes; the header line contributes nothing. */
  function Outcomes(lines: seq<string>, headers: seq<string>,
                    parseFloat: string -> Option<real>, now: Date): (r: seq<Option<TimeEntry>>)
    ensures |r| == |lines|
  {
    seq(|lines|, i requires 0 <= i < |lines| =>
      if i == 0 then None else LineEntry(lines[i], i, headers, parseFloat, now))
  }

  /** `csvText.trim().split('\n')` */
  function Lines(csvText: string): seq<string> {
    Split(Trim(csvText), '\n')
  }

  function MissingMessage(missing: seq<string>): string {
    "Missing required columns: " + Join(missing, ", ")
  }

  /** What `parseCSV` returns or throws. */
  function ParseCsvSpec(csvText: string, parseFloat: string -> Option<real>, now: Date): Result<seq<TimeEntry>, string> {
    var lines := Lines(csvText);
    var headers := Headers(lines[0]);
    var missing := MissingColumns(headers);
    if |missing| > 0 then Err(MissingMessage(missing))
    else Ok(Imported(lines, headers, parseFloat, now))
  }

  /** The line loop of `parseCSV`: every data line with enough cells, a
      project, a client and a positive duration is pushed, in order. */
  method ParseLines(lines: seq<string>, headers: seq<string>, parseFloat: string -> Option<real>, now: Date)
    returns (data: seq<TimeEntry>)
    ensures data == Imported(lines, headers, parseFloat, now)
  {
    ghost var outcomes := Outcomes(lines, headers, parseFloat, now);
    data := [];
    if |lines| == 0 {
      return;
    }
    SomesSnoc(outcomes, 0);
    assert outcomes[..0] == [];
    var i := 1;
    while i < |lines|
      invariant 1 <= i <= |lines|
      invariant data == Somes(outcomes[..i])
    {
      data := PushLine(data, lines[i], i, headers, parseFloat, now);
      assert outcomes[i] == LineEntry(lines[i], i, headers, parseFloat, now);
      SomesSnoc(outcomes, i);
      i := i + 1;
    }
    assert outcomes[..i] == outcomes;
  }

  /** One turn of the line loop: the entry of line `i` is pushed when the
      line has enough cells, a project, a client and a positive duration. */
  method PushLine(data: seq<TimeEntry>, line: string, i: nat, headers: seq<string>,
                  parseFloat: string -> Option<real>, now: Date)
    returns (data1: seq<TimeEntry>)
    ensures var r := LineEntry(line, i, headers, parseFloat, now);
      data1 == data + (if r.Some? then [r.value] else [])
  {
    data1 := data;
    var values := Values(line);
    if |values| >= |headers| {
      var duration := ParseNumber(Cell(values, headers, "time (decimal)"), parseFloat);
      var entry := EntryOf(i, values, headers, GetOr(duration, 0.0), parseFloat, now);
      if entry.project != "" && entry.client != "" && duration.Some? && duration.value > 0.0 {
        data1 := data1 + [entry];
      }
    }
  }

  /** `parseCSV`: the header check, then the line loop. */
  method ParseCsv(csvText: string, parseFloat: string -> Option<real>, now: Date)
    returns (r: Result<seq<TimeEntry>, string>)
    ensures r == ParseCsvSpec(csvText, parseFloat, now)
  {
    var lines := Split(Trim(csvText), '\n');
    var headers := Headers(lines[0]);
    var missing := MissingColumns(headers);
    if |missing| > 0 {
      return Err("Missing required columns: " + Join(missing, ", "));
    }
    var data := ParseLines(lines, headers, parseFloat, now);
    return Ok(data);
  }

  /** The import is refused, naming the missing columns in the order of the
      required list, exactly when some required keyword is in no header. */
  lemma ParseCsvMissing(csvText: string, parseFloat: string -> Option<real>, now: Date)
    ensures var headers := Headers(Lines(csvText)[0]);
      ParseCsvSpec(csvText, parseFloat, now).Err? <==>
        exists c :: c in RequiredColumns && !AnyContains(headers, Keyword(c))
    ensures var headers := Headers(Lines(csvText)[0]);
      ParseCsvSpec(csvText, parseFloat, now).Err? ==>
        ParseCsvSpec(csvText, parseFloat, now).error == MissingMessage(MissingColumns(headers))
        && IsSubseq(MissingColumns(headers), RequiredColumns)
  {
    var headers := Headers(Lines(csvText)[0]);
    var missing := MissingColumns(headers);
    if missing != [] {
      assert missing[0] in missing;
    }
  }

  /** The entries the line loop keeps. */
  function Imported(lines: seq<string>, headers: seq<string>,
                    parseFloat: string -> Option<real>, now: Date): seq<TimeEntry> {
    Somes(Outcomes(lines, headers, parseFloat, now))
  }

  /** The line each imported entry came from. */
  ghost function ImportedLines(lines: seq<string>, headers: seq<string>,
                               parseFloat: string -> Option<real>, now: Date): (r: seq<nat>)
    ensures |r| == |Imported(lines, headers, parseFloat, now)|
  {
    SomeIndices(Outcomes(lines, headers, parseFloat, now))
  }

  /** Every imported entry is its line's entry: it has a project, a client
      and a positive duration and is named `entry-i` after its data line
      i >= 1; the lines increase. */
  lemma ImportedEntries(lines: seq<string>, headers: seq<string>,
                        parseFloat: string -> Option<real>, now: Date)
    ensures forall j :: 0 <= j < |ImportedLines(lines, headers, parseFloat, now)| ==>
      && 1 <= ImportedLines(lines, headers, parseFloat, now)[j] < |lines|
      && LineEntry(lines[ImportedLines(lines, headers, parseFloat, now)[j]],
                   ImportedLines(lines, headers, parseFloat, now)[j], headers, parseFloat, now)
         == Some(Imported(lines, headers, parseFloat, now)[j])
    ensures forall j, k :: 0 <= j < k < |ImportedLines(lines, headers, parseFloat, now)| ==>
      ImportedLines(lines, headers, parseFloat, now)[j] < ImportedLines(lines, headers, parseFloat, now)[k]
  {
    var outs := Outcomes(lines, headers, parseFloat, now);
    SomeIndicesSpec(outs);
  }

  /** What every imported entry satisfies. */
  lemma ImportedValid(lines: seq<string>, headers: seq<string>,
                      parseFloat: string -> Option<real>, now: Date)
    ensures forall j :: 0 <= j < |Imported(lines, headers, parseFloat, now)| ==>
      && Imported(lines, headers, parseFloat, now)[j].project != ""
      && Imported(lines, headers, parseFloat, now)[j].client != ""
      && Imported(lines, headers, parseFloat, now)[j].timeDecimal > 0.0
      && Imported(lines, headers, parseFloat, now)[j].id
         == "entry-" + NatToString(ImportedLines(lines, headers, parseFloat, now)[j])
  {
    ImportedEntries(lines, headers, parseFloat, now);
  }

  /** Every line that yields an entry is imported. */
  lemma ImportedComplete(lines: seq<string>, headers: seq<string>, i: nat,
                         parseFloat: string -> Option<real>, now: Date)
    requires 1 <= i < |lines|
    requires LineEntry(lines[i], i, headers, parseFloat, now).Some?
    ensures LineEntry(lines[i], i, headers, parseFloat, now).value in Imported(lines, headers, parseFloat, now)
  {
    var outs := Outcomes(lines, headers, parseFloat, now);
    assert outs[i] == LineEntry(lines[i], i, headers, parseFloat, now);
    SomesComplete(outs, i);
  }

  /** A line with fewer cells than there are headers yields nothing. */
  lemma ShortLineSkipped(line: string, i: nat, headers: seq<string>,
                         parseFloat: string -> Option<real>, now: Date)
    requires |Split(line, ',')| < |headers|
    ensures LineEntry(line, i, headers, parseFloat, now) == None
  {
  }

  /** Entries from different lines have different ids. */
  lemma ImportedIdsDistinct(lines: seq<string>, headers: seq<string>,
                            parseFloat: string -> Option<real>, now: Date)
    ensures forall j, k :: 0 <= j < k < |Imported(lines, headers, parseFloat, now)| ==>
      Imported(lines, headers, parseFloat, now)[j].id != Imported(lines, headers, parseFloat, now)[k].id
  {
    var es, ks := Imported(lines, headers, parseFloat, now), ImportedLines(lines, headers, parseFloat, now);
    ImportedEntries(lines, headers, parseFloat, now);
    ImportedValid(lines, headers, parseFloat, now);
    forall j, k | 0 <= j < k < |es| ensures es[j].id != es[k].id {
      var pre := "entry-";
      assert ks[j] < ks[k];
      assert es[j].id[|pre|..] == NatToString(ks[j]);
      assert es[k].id[|pre|..] == NatToString(ks[k]);
      if es[j].id == es[k].id {
        NatToStringInjective(ks[j], ks[k]);
      }
    }
  }

  /** `handleFile`, less its I/O: the file name check, the parse, and the
      refusal of a file without a single valid entry. */
  method HandleFile(fileName: string, text: string, parseFloat: string -> Option<real>, now: Date)
    returns (r: Result<seq<TimeEntry>, string>)
    ensures !EndsWith(ToLower(fileName), ".csv") ==> r == Err("Please upload a CSV file")
    ensures EndsWith(ToLower(fileName), ".csv") ==>
      match ParseCsvSpec(text, parseFloat, now)
      case Err(msg) => r == Err(msg)
      case Ok(data) => r == if data == [] then Err("No valid data found in the CSV file") else Ok(data)
    ensures r.Ok? ==> r.value != []
  {
    if !EndsWith(ToLower(fileName), ".csv") {
      return Err("Please upload a CSV file");
    }
    r := ParseCsv(text, parseFloat, now);
    if r.Ok? && |r.value| == 0 {
      r := Err("No valid data found in the CSV file");
    }
  }
}
