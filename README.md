# Time-entry pipeline of the timesheet app, in Dafny

This project models the time-entry pipeline of a browser timesheet tool:
CSV text and keyed CSV rows become `TimeEntry` records; a filter record
(built from URL query parameters or from the filter panel's clicks) selects
entries; the dashboard, export panel, invoice generator and charts sum
them up; the rounding panel rounds durations up to 15, 30 or 60 minutes and
rebills them; the data table sorts and pages them.

One Dafny module per source file, plus three shared modules:

| file | module | models |
|---|---|---|
| `text.dfy` | `Text` | JavaScript string operations: `trim`, ASCII `toLowerCase`, `replace(/c/g, '')`, `split`, `join`, `includes`, `endsWith`, integer text, default string order |
| `seqs.dfy` | `Seqs` | `Option`/`Result`, first-seen distinct elements (`[...new Set(xs)]`), `filter(x => x !== y)`, subsequences |
| `entries.dfy` | `Entries` | `TimeEntry`, `FilterOptions`, sums and per-key selections with the partition lemma |
| `csv_parser.dfy` | `CsvParser` | `src/utils/csvParser.ts` |
| `file_upload.dfy` | `FileUpload` | `src/components/FileUpload.tsx` (`parseCSV`, the checks of `handleFile`) |
| `url_params.dfy` | `UrlParams` | `src/utils/urlParams.ts` |
| `data_filters.dfy` | `DataFilters` | `src/components/DataFilters.tsx` |
| `dashboard.dfy` | `Dashboard` | `src/components/Dashboard.tsx` |
| `time_rounding.dfy` | `TimeRounding` | `src/components/TimeRounding.tsx` |
| `invoice_generator.dfy` | `InvoiceGenerator` | `src/components/InvoiceGenerator.tsx` |
| `export_data.dfy` | `ExportData` | `src/components/ExportData.tsx` |
| `time_charts.dfy` | `TimeCharts` | `src/components/TimeCharts.tsx` |
| `data_table.dfy` | `DataTable` | `src/components/DataTable.tsx` |

Hours, rates and amounts are exact `real`s. The JavaScript conversions the
code calls are parameters of the functions that use them: `Number(text)`
and `parseFloat(text)` (`None` for NaN), `new Date(text)` (a `Date` that
is a millisecond count or the Invalid Date), `toISOString`, `new Date()`
for "now", and the text JavaScript writes for a number. Loops and
accumulators that the code runs step by step (the line loop of
`parseCSV`, the dictionary `reduce`s of the invoice, export breakdowns and
chart data, the successive assignments of the URL codec) are methods
proved equal to a specification function; the data table's three state
fields are a class whose methods are the header and Previous/Next
handlers. The remaining code is filter/map/reduce and is modelled by
functions.

Behaviour of the code worth knowing:
- the search filter looks at project, client and description only;
- the filter record carries a date range, but no code applies it;
- the upload parser requires six keyword columns (`project`, `client`, `description`, `time (h)`, `time (decimal)`, `amount (usd)`), each matched by substring of the lower-cased headers;
- importing does not round durations or compute amounts: the keyed-row parser sets `amount` to 0 and the upload parser reads the amount column;
- upload ids are `entry-<line number>`; the keyed-row parser's ids are `<raw Project>-<start timestamp>-<raw Start Time>`, with `undefined` and `NaN` when the cell or the date is missing.

## Model

| member | source | states |
|---|---|---|
| `CsvParser.ParseCsvRow` | src/utils/csvParser.ts:3-28 | the id is the raw Project cell (`undefined` when absent), "-", the start date's time value (`NaN` when invalid), "-", the raw Start Time; project, client, description and the duration text are copies of their cell when it is present and non-empty, and otherwise "" ("0:00:00" for the duration text); `billable` holds iff the lower-cased Billable cell is "yes"; the decimal duration, rate and billable amount are the cell's number when `Number` gives one, and 0 otherwise; task, user, group, email, tags, start time and end time copy their cell when present and non-empty and are "" otherwise; the start and end dates are `new Date` of their cell (the Invalid Date when absent); `amount` is 0; `date` is the start date |
| `CsvParser.ParseCsvData` | src/utils/csvParser.ts:30-37 | the result is never longer than the input and every entry has `timeDecimal > 0` |
| `CsvParser.ParseCsvDataSingle` | src/utils/csvParser.ts:32-36 | one row yields its parsed entry exactly when its decimal duration is present, non-empty and positive, and nothing otherwise |
| `CsvParser.ParseCsvDataAppend` | src/utils/csvParser.ts:31-36 | parsing keeps input order: the rows of a concatenation parse to the concatenation of the results |
| `CsvParser.ParseCsvDataDrops` | src/utils/csvParser.ts:32-35 | a row without a positive duration is dropped and the rows around it parse as if it were not there |
| `FileUpload.NormalizeHeader` | src/components/FileUpload.tsx:21 | a normalised header has no `"` and no upper-case ASCII letter, and is the trimmed, lower-cased header itself when that has no `"` |
| `FileUpload.CleanValue` | src/components/FileUpload.tsx:33 | a cleaned cell has no `"`, and is the trimmed cell itself when that has no `"` |
| `FileUpload.Headers` | src/components/FileUpload.tsx:20-21 | one header per comma-separated cell of the first line, each trimmed, lower-cased and stripped of quotes |
| `FileUpload.Values` | src/components/FileUpload.tsx:33 | one value per comma-separated cell of a data line, each trimmed and stripped of quotes |
| `FileUpload.MissingFrom` | src/components/FileUpload.tsx:24 | a column is reported missing iff no header contains its keyword (the text before "(", trimmed); the missing columns keep the order of the required list |
| `FileUpload.FindIndex` | src/components/FileUpload.tsx:39-44 | the position of the first header containing the keyword, -1 iff there is none |
| `FileUpload.KeywordContained` | src/components/FileUpload.tsx:24 | every column name contains its own keyword |
| `FileUpload.MissingNone` | src/components/FileUpload.tsx:24-26 | when every required column is itself a header nothing is missing |
| `FileUpload.LineEntry` | src/components/FileUpload.tsx:35-51 | a data line yields an entry exactly when it has at least as many cells as there are headers, non-empty project and client cells and a decimal duration that parses to a positive number; the entry of line i has id `entry-i`, copies the project, client, description and duration text cells, holds the parsed duration and the parsed amount (0 when it does not parse), `now` as its date, category "General" and no details |
| `FileUpload.ShortLineSkipped` | src/components/FileUpload.tsx:35 | a line with fewer cells than headers yields nothing |
| `FileUpload.PushLine` | src/components/FileUpload.tsx:33-51 | one turn of the loop appends the line's entry when the line yields one and leaves the list as it was otherwise |
| `FileUpload.ParseLines` | src/components/FileUpload.tsx:30-54 | the line loop returns exactly the entries of the data lines, in line order, skipping the header line |
| `FileUpload.ParseCsv` | src/components/FileUpload.tsx:19-55 | `parseCSV` throws the missing-columns message or returns the line loop's entries |
| `FileUpload.ParseCsvMissing` | src/components/FileUpload.tsx:23-28 | the parse fails iff some required keyword is in no header, and the message lists the missing columns in the order of the required list |
| `FileUpload.ImportedEntries` | src/components/FileUpload.tsx:32-52 | every imported entry comes from a data line i >= 1 and is that line's entry; the lines increase with the output position |
| `FileUpload.ImportedValid` | src/components/FileUpload.tsx:49-50 | every imported entry has a project, a client, `timeDecimal > 0` and the id of its line |
| `FileUpload.ImportedComplete` | src/components/FileUpload.tsx:49-51 | every data line that yields an entry has it imported |
| `FileUpload.ImportedIdsDistinct` | src/components/FileUpload.tsx:38 | imported entries have pairwise distinct ids |
| `FileUpload.HandleFile` | src/components/FileUpload.tsx:62-72 | a name not ending in ".csv" (any case) is refused; a parse error is passed on; an empty result is refused with "No valid data found in the CSV file"; success never carries an empty list |
| `UrlParams.ParseFilters` | src/utils/urlParams.ts:3-31 | `searchTerm` is set iff "search" is present and non-empty; each list iff its parameter is non-empty, then its comma split; `dateRange` iff either date parameter is non-empty, a missing side undefined |
| `UrlParams.ParseFilterParams` | src/utils/urlParams.ts:6-30 | the successive conditional assignments build exactly that record |
| `UrlParams.ParseEmpty` | src/utils/urlParams.ts:6-30 | an empty query gives `{}` |
| `UrlParams.ParseIgnoresOthers` | src/utils/urlParams.ts:9-22 | parameters other than the five named ones do not affect the result |
| `UrlParams.FilterParams` | src/utils/urlParams.ts:33-46 | only the five keys are written; an empty search term and empty lists are left out; lists are comma-joined; dates are written as ISO text, and an Invalid Date bound is the RangeError |
| `UrlParams.CreateFilterUrl` | src/utils/urlParams.ts:34-43 | the successive `params.set` calls build exactly those parameters |
| `UrlParams.RoundTrip` | src/utils/urlParams.ts:9-43 | reading back what was written gives the filter record again when the search term and lists are non-empty, no list item contains "," and no list joins to "", and dates are valid |
| `UrlParams.EmptyFieldsDropped` | src/utils/urlParams.ts:36-39 | an empty search term and empty lists are written as nothing and read back as unset |
| `DataFilters.Stored` | src/components/DataFilters.tsx:35 | an emptied list is stored as unset, never as [] |
| `DataFilters.Toggle` | src/components/DataFilters.tsx:28-36 | a selected option is removed everywhere and the other options keep their order and multiplicity, an unselected one appended; membership of every other option is unchanged; the result is never [] |
| `DataFilters.ToggleTwice` | src/components/DataFilters.tsx:28-31 | toggling an unselected option twice restores the list |
| `DataFilters.HandleProjectFilter` | src/components/DataFilters.tsx:27-37 | toggles the project list; search term, clients and date range unchanged |
| `DataFilters.HandleClientFilter` | src/components/DataFilters.tsx:39-49 | toggles the client list; search term, projects and date range unchanged |
| `DataFilters.SearchChanged` | src/components/DataFilters.tsx:24 | the search term is set iff the value is non-empty, then to the value; the other fields unchanged |
| `DataFilters.FilterPanel.constructor` | src/components/DataFilters.tsx:17 | the search box starts with the record's search term or "" |
| `DataFilters.FilterPanel.HandleSearchChange` | src/components/DataFilters.tsx:22-25 | the box shows the value and the record handed on is the search-changed record |
| `DataFilters.FilterPanel.ClearFilters` | src/components/DataFilters.tsx:51-54 | the box is emptied and the record handed on is `{}`, which has no active filter |
| `DataFilters.ActiveIgnoresDateRange` | src/components/DataFilters.tsx:56 | whether filters are active does not depend on the date range, and `{}` is not active |
| `DataFilters.ToggleOnActive` | src/components/DataFilters.tsx:27-56 | selecting a project makes the filters active |
| `DataFilters.UniqueValues` | src/components/DataFilters.tsx:19-20 | the project (client) option list is strictly ascending, duplicate-free, and holds exactly the entries' values |
| `DataFilters.UniqueValuesCanonical` | src/components/InvoiceGenerator.tsx:21-23 | any strictly sorted list of exactly the entries' clients is that list, so the invoice's `clients` is the same value |
| `Dashboard.FilterEntries` | src/components/Dashboard.tsx:23-44 | the result is a subsequence of the input, and an entry is in it iff it is in the input and passes the search, project and client conditions |
| `Dashboard.FilterAppend` | src/components/Dashboard.tsx:24-43 | filtering a concatenation is concatenating the filtered parts |
| `Dashboard.FilterSingle` | src/components/Dashboard.tsx:25-42 | one entry is kept iff it matches, so with `FilterAppend` every matching entry is kept as often as it occurs, in order |
| `Dashboard.FilterIdempotent` | src/components/Dashboard.tsx:23-44 | filtering the filtered entries again changes nothing |
| `Dashboard.FilterNone` | src/components/Dashboard.tsx:25-42 | the empty filter record lets every entry through |
| `Dashboard.FilterIgnoresDateRange` | src/components/Dashboard.tsx:23-44 | the date range has no effect on the result |
| `Dashboard.Summary` | src/components/Dashboard.tsx:46-59 | total hours and amount are the sums over the entries; the distinct project and client counts are the sizes of their sets, at most the number of entries; the average rate bills the hours at the amount when there are hours, else 0 |
| `Dashboard.AverageRate` | src/components/Dashboard.tsx:57 | with positive hours the rate times the hours is the amount; otherwise 0 |
| `Dashboard.KeyCount` | src/components/Dashboard.tsx:49-50 | `Set.size` of the names is the number of distinct names among the entries, at most the number of entries |
| `Dashboard.KeySetCard` | src/components/Dashboard.tsx:49-50 | the first-seen distinct list has as many names as the set of names |
| `Dashboard.SummaryEmpty` | src/components/Dashboard.tsx:46-58 | no entries give all zeros |
| `TimeRounding.Ceil` | src/components/TimeRounding.tsx:22 | `Math.ceil` is the least integer not below its argument |
| `TimeRounding.RoundTime` | src/components/TimeRounding.tsx:20-23 | the rounded time is a whole number of intervals, not below the time and less than one interval above it |
| `TimeRounding.RoundTimeLeast` | src/components/TimeRounding.tsx:22 | it is the least whole number of intervals not below the time |
| `TimeRounding.RoundTimeIdempotent` | src/components/TimeRounding.tsx:22 | rounding a rounded time changes nothing |
| `TimeRounding.RoundTimeMonotone` | src/components/TimeRounding.tsx:22 | rounding keeps the order of times |
| `TimeRounding.RoundTimeZero` | src/components/TimeRounding.tsx:21-22 | zero rounds to zero |
| `TimeRounding.RoundTimeExamples` | src/components/TimeRounding.tsx:20-23 | 1.1 h at 30 minutes is 1.5 h; 1 h at 15 minutes stays 1 h |
| `TimeRounding.ApplyTimeRounding` | src/components/TimeRounding.tsx:25-33 | same length and order; each duration becomes its rounded value and the amount that value times the rate; every other field unchanged |
| `TimeRounding.RecalculateAmounts` | src/components/TimeRounding.tsx:35-42 | same length and order; durations unchanged; each amount is the duration times the rate; every other field unchanged |
| `TimeRounding.ApplyIdempotent` | src/components/TimeRounding.tsx:26-30 | applying the rounding twice at the same interval and rate is applying it once |
| `TimeRounding.RecalculateAfterApply` | src/components/TimeRounding.tsx:26-39 | recalculating at the rate just used for rounding changes nothing |
| `TimeRounding.TimeDifferenceBounds` | src/components/TimeRounding.tsx:44-46 | the time difference is at least 0 and less than one interval per entry |
| `TimeRounding.RoundedHoursApplied` | src/components/TimeRounding.tsx:45 | the rounded total is the total hours of the rounded entries |
| `TimeRounding.AppliedAmount` | src/components/TimeRounding.tsx:26-30 | after rounding, the amounts add up to the hours times the rate |
| `TimeRounding.RecalculatedAmount` | src/components/TimeRounding.tsx:36-39 | after recalculation, the amounts add up to the hours times the rate |
| `InvoiceGenerator.ClientEntries` | src/components/InvoiceGenerator.tsx:25-28 | empty while no client is chosen; otherwise a subsequence holding exactly the entries of that client |
| `InvoiceGenerator.SummaryStep` | src/components/InvoiceGenerator.tsx:40-42 | one more entry pushes itself and adds its hours and billed hours to its own project's record and no other |
| `InvoiceGenerator.SummaryFresh` | src/components/InvoiceGenerator.tsx:32-39 | a project met for the first time starts from an empty record |
| `InvoiceGenerator.SummaryBilled` | src/components/InvoiceGenerator.tsx:41-42 | a record's amount is its hours times the invoice rate, whatever amounts the entries store |
| `InvoiceGenerator.AddEntry` | src/components/InvoiceGenerator.tsx:31-44 | one turn of the reduce keeps every record equal to its project's summary and extends the key order by a new project |
| `InvoiceGenerator.GroupByProject` | src/components/InvoiceGenerator.tsx:31-44 | the reduce ends with one record per project, each its project's summary, keys in first-seen order |
| `InvoiceGenerator.ObjectValues` | src/components/InvoiceGenerator.tsx:46 | the dictionary's values in key order are the summaries in first-seen project order |
| `InvoiceGenerator.InvoiceData` | src/components/InvoiceGenerator.tsx:30-55 | the memoised body computes exactly the invoice of the client's entries |
| `InvoiceGenerator.InvoiceTotals` | src/components/InvoiceGenerator.tsx:47-48 | grand hours are the sum over the client's entries and the grand amount is those hours times the rate |
| `InvoiceGenerator.InvoicePartition` | src/components/InvoiceGenerator.tsx:31-46 | the summaries hold as many entries between them as the client has |
| `InvoiceGenerator.InvoiceSummaries` | src/components/InvoiceGenerator.tsx:31-46 | each summary is for a project of the entries and holds exactly that project's entries in order, their hours, and those hours times the rate |
| `InvoiceGenerator.InvoiceOrder` | src/components/InvoiceGenerator.tsx:46 | summaries are for distinct projects, in first-seen order |
| `InvoiceGenerator.InvoiceCovers` | src/components/InvoiceGenerator.tsx:31-46 | every project of the client's entries has a summary |
| `InvoiceGenerator.NoClientNoInvoice` | src/components/InvoiceGenerator.tsx:26 | with no client chosen the invoice is empty with zero totals |
| `ExportData.Cells` | src/components/ExportData.tsx:16-23 | each data line has six cells |
| `ExportData.CsvLines` | src/components/ExportData.tsx:13-24 | one header line followed by exactly one line per entry, in order |
| `ExportData.LineCells` | src/components/ExportData.tsx:16-23 | with plain fields a line has no line break and splits on "," back into its six cells, the text fields in quotes |
| `ExportData.CsvContentLines` | src/components/ExportData.tsx:14-24 | the "\n"-joined file splits back into its lines |
| `ExportData.ExportedHeaders` | src/components/ExportData.tsx:13-15 | the exported header row normalises to exactly the upload's required columns |
| `ExportData.LineValues` | src/components/ExportData.tsx:17-22 | the upload reads project, client, description, duration text and the two numbers' text back from an exported line |
| `ExportData.LineRoundTrip` | src/components/ExportData.tsx:16-23 | an exported line of an exportable entry re-imports as that entry renamed after its line |
| `ExportData.ContentTrimmed` | src/components/ExportData.tsx:14-24 | the exported text has no white space at either end |
| `ExportData.ExportedLines` | src/components/ExportData.tsx:14-24 | the upload splits the exported text into exactly its lines |
| `ExportData.ImportedBack` | src/components/ExportData.tsx:14-24 | the upload's line loop keeps every exported entry, in order |
| `ExportData.CsvRoundTrip` | src/components/ExportData.tsx:12-24 | export then upload passes the header check and gives back every entry, in order, with project, client, description, duration and amount unchanged |
| `ExportData.BreakdownStep` | src/components/ExportData.tsx:54-62 | one more entry adds its hours, its amount and 1 to its own name's value and no other |
| `ExportData.BreakdownFresh` | src/components/ExportData.tsx:55-57 | a name met for the first time starts from zero |
| `ExportData.TallyEntry` | src/components/ExportData.tsx:54-61 | one turn of the reduce keeps every value equal to its name's breakdown |
| `ExportData.BreakdownBy` | src/components/ExportData.tsx:54-71 | the reduce builds one value per name, the per-name sums of hours, amounts and entries |
| `ExportData.SummaryData` | src/components/ExportData.tsx:46-72 | the summary record: length, total hours and amount, first-seen projects and clients, both breakdowns |
| `ExportData.BreakdownPartition` | src/components/ExportData.tsx:54-71 | over its names a breakdown's values add up to the total hours, total amount and number of entries |
| `ExportData.SummaryConsistent` | src/components/ExportData.tsx:49-85 | each breakdown has one key per listed name and its values add up to the summary's (and the panel's) totals |
| `ExportData.SummaryNames` | src/components/ExportData.tsx:52-53 | `projects` and `clients` are duplicate-free, hold exactly the entries' names, in first-seen order |
| `ExportData.ProjectCount` | src/components/ExportData.tsx:110 | the panel's project count is the number of distinct projects |
| `TimeCharts.Round2` | src/components/TimeCharts.tsx:23 | a whole number of hundredths within half a hundredth of the value |
| `TimeCharts.Round2Exact` | src/components/TimeCharts.tsx:23 | a value given to the hundredth is unchanged |
| `TimeCharts.Round2Idempotent` | src/components/TimeCharts.tsx:23 | rounding twice is rounding once |
| `TimeCharts.HoursStep` | src/components/TimeCharts.tsx:17 | one more entry adds its hours to its own project only |
| `TimeCharts.AddHours` | src/components/TimeCharts.tsx:16-19 | one turn of the reduce keeps each value the hours of its project and extends the key order by a new project |
| `TimeCharts.ProjectData` | src/components/TimeCharts.tsx:16-19 | the dictionary holds one value per project, its hours, keys in first-seen order |
| `TimeCharts.ChartData` | src/components/TimeCharts.tsx:21-27 | one record per project in key order |
| `TimeCharts.ProjectChartData` | src/components/TimeCharts.tsx:14-27 | the memoised body computes exactly those records |
| `TimeCharts.ChartRecords` | src/components/TimeCharts.tsx:16-27 | exactly one record per distinct project, in first-seen order, hours within half a hundredth of the project's hours, amount the sum of its amounts |
| `TimeCharts.ChartHoursPartition` | src/components/TimeCharts.tsx:16-26 | the unrounded per-project hours and amounts add up to the totals over all entries |
| `TimeCharts.Performance` | src/components/TimeCharts.tsx:116 | the performance chart shows min(8, n) records, a prefix of the list |
| `TimeCharts.PerformanceProjects` | src/components/TimeCharts.tsx:116 | those are the first-seen projects, not the eight with most hours |
| `DataTable.BeforeAsymmetric` | src/components/DataTable.tsx:33-37 | the comparator never puts two entries each strictly before the other |
| `DataTable.NotBeforeTransitive` | src/components/DataTable.tsx:25-37 | "not after" is transitive, for every field and direction, strings compared lower-cased |
| `DataTable.SortEntries` | src/components/DataTable.tsx:23-39 | the sorted copy is a permutation of the entries with no entry followed by one the comparator puts strictly before it |
| `DataTable.SortedPairwise` | src/components/DataTable.tsx:24-37 | same length and elements, and every entry is ordered against every later one, not only its neighbour |
| `DataTable.SortOrdered` | src/components/DataTable.tsx:24-38 | a list already in order is left as it is |
| `DataTable.Slice` | src/components/DataTable.tsx:43 | `slice` never returns more than the list |
| `DataTable.Page` | src/components/DataTable.tsx:41-44 | a page has at most 20 entries |
| `DataTable.TotalPages` | src/components/DataTable.tsx:46 | `ceil(n / 20)`: the least page count whose pages hold n entries |
| `DataTable.PageContents` | src/components/DataTable.tsx:41-44 | page p holds positions (p-1)·20 onwards, min(20, what is left) of them; pages past the end are empty |
| `DataTable.PageInRange` | src/components/DataTable.tsx:41-46 | a page from 1 on is non-empty iff its number is at most the page count |
| `DataTable.PagesPartition` | src/components/DataTable.tsx:41-46 | pages 1 to the page count, read one after the other, are the sorted list |
| `DataTable.TableState.constructor` | src/components/DataTable.tsx:18-20 | initial state: sort by hours, descending, page 1 |
| `DataTable.TableState.Shown` | src/components/DataTable.tsx:23-44 | the rows shown are at most 20 entries of the table |
| `DataTable.TableState.HandleSort` | src/components/DataTable.tsx:48-56 | the same field flips the direction, a new field sorts descending; the page goes back to 1 |
| `DataTable.TableState.Previous` | src/components/DataTable.tsx:137 | the page becomes the previous page |
| `DataTable.TableState.Next` | src/components/DataTable.tsx:145 | the page becomes the next page |
| `DataTable.PreviousPage` | src/components/DataTable.tsx:137 | one page back, never below page 1 |
| `DataTable.NextPage` | src/components/DataTable.tsx:145 | one page on, never past the last; a page beyond the last is pulled back to it |

## Left out

- File reading, `setTimeout`/`onDataImport`, the React state setters of `handleFile`, Blob downloads, `JSON.stringify`, the invoice text and PDF, `toLocaleDateString`: I/O and presentation.
- The `Math.random` daily chart data: random, display only.
- `toFixed(2)` text in the dashboard and export panel: the model keeps the numbers before formatting.
- IEEE floating point: sums, products and `toFixed` rounding are exact real arithmetic; `Number`, `parseFloat`, `new Date`, `getTime` and `toISOString` are parameters.
- FileUpload.EntryOf: a non-numeric amount cell gives NaN in the code; reals have no NaN, so the model stores 0.
- FileUpload.EntryOf: the clock is read once per upload (`now`), while the code calls `new Date()` for each line, so the entries of one upload may carry different dates there.
- `toLowerCase` is ASCII-only, and the default `sort()` order compares code points where JavaScript compares UTF-16 code units (they differ only beyond U+FFFF).
- JavaScript object key order: integer-like keys are enumerated first, so `Object.values`/`Object.entries` (src/components/InvoiceGenerator.tsx:46, src/components/TimeCharts.tsx:21) can differ from first-seen order for such project names; the model uses first-seen order.
- Inherited object keys: a project or client named like an `Object.prototype` member (`constructor`, `toString`, `__proto__`) reads an inherited value in the `{}` accumulators; the model treats them as plain maps.
- `URLSearchParams` percent-encoding and `toString`: a query is a key to text map.
- Date-range filtering: no code applies `dateRange`, so the model carries it without a predicate.
- DataTable.SortEntries: stability (equal keys keep their input order, as JavaScript's sort does) is how the insertion works but is not stated as a lemma.
- DataTable.TableState: `currentPage` is not reset when the entries change, as in the code, so a page past the last can be shown until Previous or Next is pressed.
- Snapshots, sharing, the backend client, the date-range picker and the page glue (`src/pages/Index.tsx`) are not part of this model.
