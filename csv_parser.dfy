/** The keyed-row parser of src/utils/csvParser.ts: one CSV record, already
    split into a column-name -> text map, becomes a TimeEntry; a dataset
    keeps the rows with a positive decimal duration. The JavaScript
    conversions it calls are parameters: `toNumber` is `Number(text)`
    (None for NaN) and `parseDate` is `new Date(text)`. */
module CsvParser {
  import opened Seqs
  import opened Text
  import opened Entries

  /** One parsed CSV record: column name to cell text; a missing key is `undefined`. */
  type Row = map<string, string>

  /** `row[key] || fallback`: an absent or empty cell gives the fallback. */
  function CellOr(row: Row, key: string, fallback: string): string {
    if key in row && row[key] != "" then row[key] else fallback
  }

  /** `${row[key]}` inside a template: an absent cell prints as "undefined". */
  function RawCell(row: Row, key: string): string {
    if key in row then row[key] else "undefined"
  }

  /** `Number(row[key]) || 0`: an absent cell (`Number(undefined)` is NaN),
      text that is not a number, and zero all give 0. */
  function NumberOrZero(row: Row, key: string, toNumber: string -> Option<real>): real {
    if key !in row then 0.0
    else match toNumber(row[key])
      case Some(v) => v
      case None => 0.0
  }

  /** `new Date(row[key])`: `new Date(undefined)` is the Invalid Date. */
  function DateCell(row: Row, key: string, parseDate: string -> Date): Date {
    if key in row then parseDate(row[key]) else InvalidDate
  }

  /** `${date.getTime()}`: the millisecond count, or "NaN" for an Invalid Date. */
  function TimeText(d: Date): string {
    match d
    case ValidDate(ms) => IntToString(ms)
    case InvalidDate => "NaN"
  }

  /** `row["Billable"]?.toLowerCase() === "yes"` */
  predicate IsBillable(row: Row) {
    "Billable" in row && ToLower(row["Billable"]) == "yes"
  }

  /** `row[key] || fallback` as a property of the value `v` read from it. */
  predicate CopiedOr(row: Row, key: string, v: string, fallback: string) {
    && (key in row && row[key] != "" ==> v == row[key])
    && (key !in row || row[key] == "" ==> v == fallback)
  }

  /** `parseCSVRow` */
  function ParseCsvRow(row: Row, toNumber: string -> Option<real>, parseDate: string -> Date): (r: TimeEntry)
    ensures r.details.Some?
    ensures r.id == RawCell(row, "Project") + "-" + TimeText(DateCell(row, "Start Date", parseDate))
                    + "-" + RawCell(row, "Start Time")
    ensures r.project == "" <==> "Project" !in row || row["Project"] == ""
    ensures "Project" in row && row["Project"] != "" ==> r.project == row["Project"]
    ensures r.client == "" <==> "Client" !in row || row["Client"] == ""
    ensures "Client" in row && row["Client"] != "" ==> r.client == row["Client"]
    ensures r.description == "" <==> "Description" !in row || row["Description"] == ""
    ensures "Description" in row && row["Description"] != "" ==> r.description == row["Description"]
    ensures ("Duration (h)" !in row || row["Duration (h)"] == "") ==> r.timeHours == "0:00:00"
    ensures "Duration (h)" in row && row["Duration (h)"] != "" ==> r.timeHours == row["Duration (h)"]
    ensures r.details.value.billable <==> "Billable" in row && ToLower(row["Billable"]) == "yes"
    ensures ("Duration (decimal)" !in row || toNumber(row["Duration (decimal)"]).None?) ==> r.timeDecimal == 0.0
    ensures "Duration (decimal)" in row && toNumber(row["Duration (decimal)"]).Some? ==>
              r.timeDecimal == toNumber(row["Duration (decimal)"]).value
    ensures ("Billable Rate (USD)" !in row || toNumber(row["Billable Rate (USD)"]).None?) ==> r.details.value.billableRate == 0.0
    ensures "Billable Rate (USD)" in row && toNumber(row["Billable Rate (USD)"]).Some? ==>
              r.details.value.billableRate == toNumber(row["Billable Rate (USD)"]).value
    ensures ("Billable Amount (USD)" !in row || toNumber(row["Billable Amount (USD)"]).None?) ==> r.details.value.billableAmount == 0.0
    ensures "Billable Amount (USD)" in row && toNumber(row["Billable Amount (USD)"]).Some? ==>
              r.details.value.billableAmount == toNumber(row["Billable Amount (USD)"]).value
    ensures CopiedOr(row, "Task", r.details.value.task, "") && CopiedOr(row, "User", r.details.value.user, "")
    ensures CopiedOr(row, "Group", r.details.value.group, "") && CopiedOr(row, "Email", r.details.value.email, "")
    ensures CopiedOr(row, "Tags", r.details.value.tags, "")
    ensures CopiedOr(row, "Start Time", r.details.value.startTime, "")
    ensures CopiedOr(row, "End Time", r.details.value.endTime, "")
    ensures r.details.value.startDate == (if "Start Date" in row then parseDate(row["Start Date"]) else InvalidDate)
    ensures r.details.value.endDate == (if "End Date" in row then parseDate(row["End Date"]) else InvalidDate)
    ensures r.amount == 0.0
    ensures r.date == Some(r.details.value.startDate)
    ensures r.category == None
  {
    var startDate := DateCell(row, "Start Date", parseDate);
    TimeEntry(
      id := RawCell(row, "Project") + "-" + TimeText(startDate) + "-" + RawCell(row, "Start Time"),
      project := CellOr(row, "Project", ""),
      client := CellOr(row, "Client", ""),
      description := CellOr(row, "Description", ""),
      timeHours := CellOr(row, "Duration (h)", "0:00:00"),
      timeDecimal := NumberOrZero(row, "Duration (decimal)", toNumber),
      amount := 0.0,
      date := Some(startDate),
      category := None,
      details := Some(RowDetails(
        task := CellOr(row, "Task", ""),
        user := CellOr(row, "User", ""),
        group := CellOr(row, "Group", ""),
        email := CellOr(row, "Email", ""),
        tags := CellOr(row, "Tags", ""),
        billable := IsBillable(row),
        startDate := startDate,
        startTime := CellOr(row, "Start Time", ""),
        endDate := DateCell(row, "End Date", parseDate),
        endTime := CellOr(row, "End Time", ""),
        billableRate := NumberOrZero(row, "Billable Rate (USD)", toNumber),
        billableAmount := NumberOrZero(row, "Billable Amount (USD)", toNumber))))
  }

  /** The filter of `parseCSVData`: the decimal duration cell is present,
      non-empty, and `Number` of it is greater than zero. */
  predicate HasPositiveDuration(row: Row, toNumber: string -> Option<real>) {
    && "Duration (decimal)" in row
    && row["Duration (decimal)"] != ""
    && toNumber(row["Duration (decimal)"]).Some?
    && toNumber(row["Duration (decimal)"]).value > 0.0
  }

  /** `parseCSVData`: drop the rows without a positive duration, convert the rest. */
  function ParseCsvData(rows: seq<Row>, toNumber: string -> Option<real>, parseDate: string -> Date): (r: seq<TimeEntry>)
    ensures |r| <= |rows|
    ensures forall i :: 0 <= i < |r| ==> r[i].timeDecimal > 0.0
  {
    if rows == [] then []
    else
      var rest := ParseCsvData(rows[1..], toNumber, parseDate);
      if HasPositiveDuration(rows[0], toNumber)
      then [ParseCsvRow(rows[0], toNumber, parseDate)] + rest
      else rest
  }

  /** A single row survives exactly when its duration is positive. */
  lemma ParseCsvDataSingle(row: Row, toNumber: string -> Option<real>, parseDate: string -> Date)
    ensures ParseCsvData([row], toNumber, parseDate)
         == if HasPositiveDuration(row, toNumber) then [ParseCsvRow(row, toNumber, parseDate)] else []
  {
    assert [row][1..] == [];
  }

  /** Parsing keeps input order: the rows of two files parse to the two
      results one after the other. Together with `ParseCsvDataSingle` this
      says the result is the surviving rows, converted, in order. */
  lemma {:induction false} ParseCsvDataAppend(a: seq<Row>, b: seq<Row>, toNumber: string -> Option<real>, parseDate: string -> Date)
    ensures ParseCsvData(a + b, toNumber, parseDate)
         == ParseCsvData(a, toNumber, parseDate) + ParseCsvData(b, toNumber, parseDate)
  {
    if a == [] {
      assert a + b == b;
    } else {
      assert (a + b)[0] == a[0] && (a + b)[1..] == a[1..] + b;
      ParseCsvDataAppend(a[1..], b, toNumber, parseDate);
    }
  }

  /** A row whose duration cell is missing, empty, not a number or not
      positive is dropped. */
  lemma {:induction false} ParseCsvDataDrops(rows: seq<Row>, i: nat, toNumber: string -> Option<real>, parseDate: string -> Date)
    requires i < |rows| && !HasPositiveDuration(rows[i], toNumber)
    ensures ParseCsvData(rows, toNumber, parseDate)
         == ParseCsvData(rows[..i], toNumber, parseDate) + ParseCsvData(rows[i + 1..], toNumber, parseDate)
  {
    var tail := [rows[i]] + rows[i + 1..];
    assert rows == rows[..i] + tail;
    ParseCsvDataAppend(rows[..i], tail, toNumber, parseDate);
    ParseCsvDataAppend([rows[i]], rows[i + 1..], toNumber, parseDate);
    ParseCsvDataSingle(rows[i], toNumber, parseDate);
    assert ParseCsvData(tail, toNumber, parseDate) == ParseCsvData(rows[i + 1..], toNumber, parseDate);
  }
}
