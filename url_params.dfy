/** The query-string codec of src/utils/urlParams.ts. URLSearchParams is a
    key -> value map (its percent-encoding and `toString` text are not
    modelled); `new Date(text)` is the parameter `parseDate`, and
    `toISOString` of a valid time value is the parameter `iso` (it throws
    a RangeError on the Invalid Date). */
module UrlParams {
  import opened Seqs
  import opened Text
  import opened Entries

  type Params = map<string, string>

  /** `searchParams.get(key)`: null for a missing key. */
  function Get(p: Params, key: string): Option<string> {
    if key in p then Some(p[key]) else None
  }

  /** JavaScript truthiness of a `get` result: present and non-empty. */
  predicate Truthy(v: Option<string>) {
    v.Some? && v.value != ""
  }

  /** A comma-separated list parameter: split when truthy, otherwise unset. */
  function ListParam(v: Option<string>): Option<seq<string>> {
    if Truthy(v) then Some(Split(v.value, ',')) else None
  }

  /** One side of the date range: `text ? new Date(text) : undefined`. */
  function DateParam(v: Option<string>, parseDate: string -> Date): Option<Date> {
    if Truthy(v) then Some(parseDate(v.value)) else None
  }

  /** The five parameters the reader looks at. */
  const FilterKeys: set<string> := {"search", "projects", "clients", "startDate", "endDate"}

  /** The filter record `parseFilterParams` builds: the search term is set
      exactly when "search" is present and non-empty, each list exactly when
      its parameter is non-empty (then its comma-separated pieces), and the
      date range exactly when either bound is non-empty, a missing or empty
      bound staying undefined. */
  function ParseFilters(p: Params, parseDate: string -> Date): (r: FilterOptions)
    ensures r.searchTerm.Some? <==> "search" in p && p["search"] != ""
    ensures r.searchTerm.Some? ==> r.searchTerm.value == p["search"]
    ensures r.projects.Some? <==> "projects" in p && p["projects"] != ""
    ensures r.projects.Some? ==> r.projects.value == Split(p["projects"], ',') && NoneContains(r.projects.value, ',')
    ensures r.clients.Some? <==> "clients" in p && p["clients"] != ""
    ensures r.clients.Some? ==> r.clients.value == Split(p["clients"], ',') && NoneContains(r.clients.value, ',')
    ensures r.dateRange.Some? <==> ("startDate" in p && p["startDate"] != "") || ("endDate" in p && p["endDate"] != "")
    ensures r.dateRange.Some? ==>
      && (r.dateRange.value.start.Some? <==> "startDate" in p && p["startDate"] != "")
      && (r.dateRange.value.end.Some? <==> "endDate" in p && p["endDate"] != "")
      && ("startDate" in p && p["startDate"] != "" ==> r.dateRange.value.start == Some(parseDate(p["startDate"])))
      && ("endDate" in p && p["endDate"] != "" ==> r.dateRange.value.end == Some(parseDate(p["endDate"])))
  {
    var startDate, endDate := Get(p, "startDate"), Get(p, "endDate");
    FilterOptions(
      dateRange := if Truthy(startDate) || Truthy(endDate)
                   then Some(DateRange(DateParam(startDate, parseDate), DateParam(endDate, parseDate)))
                   else None,
      projects := ListParam(Get(p, "projects")),
      clients := ListParam(Get(p, "clients")),
      searchTerm := if Truthy(Get(p, "search")) then Get(p, "search") else None)
  }

  /** `parseFilterParams`: start from `{}` and set each field whose
      parameter is truthy. */
  method ParseFilterParams(searchParams: Params, parseDate: string -> Date) returns (filters: FilterOptions)
    ensures filters == ParseFilters(searchParams, parseDate)
  {
    filters := FilterOptions(None, None, None, None);
    var search := Get(searchParams, "search");
    if Truthy(search) {
      filters := filters.(searchTerm := Some(search.value));
    }
    var projects := Get(searchParams, "projects");
    if Truthy(projects) {
      filters := filters.(projects := Some(Split(projects.value, ',')));
    }
    var clients := Get(searchParams, "clients");
    if Truthy(clients) {
      filters := filters.(clients := Some(Split(clients.value, ',')));
    }
    var startDate := Get(searchParams, "startDate");
    var endDate := Get(searchParams, "endDate");
    if Truthy(startDate) || Truthy(endDate) {
      var start := if Truthy(startDate) then Some(parseDate(startDate.value)) else None;
      var end := if Truthy(endDate) then Some(parseDate(endDate.value)) else None;
      filters := filters.(dateRange := Some(DateRange(start, end)));
    }
  }

  /** An empty query gives `{}`. */
  lemma ParseEmpty(parseDate: string -> Date)
    ensures ParseFilters(map[], parseDate) == NoFilters
  {
  }

  /** Parameters other than the five named ones are ignored: two queries
      that agree on those five parse alike. */
  lemma ParseIgnoresOthers(p: Params, q: Params, parseDate: string -> Date)
    requires forall k :: k in FilterKeys ==> (k in p <==> k in q) && (k in p ==> p[k] == q[k])
    ensures ParseFilters(p, parseDate) == ParseFilters(q, parseDate)
  {
    assert Get(p, "search") == Get(q, "search");
    assert Get(p, "projects") == Get(q, "projects");
    assert Get(p, "clients") == Get(q, "clients");
    assert Get(p, "startDate") == Get(q, "startDate");
    assert Get(p, "endDate") == Get(q, "endDate");
  }

  /** `date.toISOString()`: the RangeError of an Invalid Date is an error. */
  function IsoText(d: Date, iso: int -> string): Result<string, string> {
    match d
    case ValidDate(ms) => Ok(iso(ms))
    case InvalidDate => Err("Invalid time value")
  }

  /** A list parameter is written when the list is there and non-empty. */
  predicate HasItems(xs: Option<seq<string>>) {
    xs.Some? && |xs.value| > 0
  }

  /** The parameters `createFilterUrl` sets, or the error `toISOString`
      throws: it fails exactly on an Invalid Date bound, writes only the five
      keys, and leaves out an empty search term and empty lists. */
  function FilterParams(f: FilterOptions, iso: int -> string): (r: Result<Params, string>)
    ensures r.Err? <==>
      f.dateRange.Some? && (f.dateRange.value.start == Some(InvalidDate) || f.dateRange.value.end == Some(InvalidDate))
    ensures r.Ok? ==>
      && (forall k :: k in r.value ==> k in FilterKeys)
      && ("search" in r.value <==> f.searchTerm.Some? && f.searchTerm.value != "")
      && ("projects" in r.value <==> HasItems(f.projects))
      && ("clients" in r.value <==> HasItems(f.clients))
      && ("search" in r.value ==> r.value["search"] == f.searchTerm.value)
      && ("projects" in r.value ==> r.value["projects"] == Join(f.projects.value, ","))
      && ("clients" in r.value ==> r.value["clients"] == Join(f.clients.value, ","))
      && ("startDate" in r.value <==> f.dateRange.Some? && f.dateRange.value.start.Some?)
      && ("startDate" in r.value ==> r.value["startDate"] == iso(f.dateRange.value.start.value.millis))
      && ("endDate" in r.value <==> f.dateRange.Some? && f.dateRange.value.end.Some?)
      && ("endDate" in r.value ==> r.value["endDate"] == iso(f.dateRange.value.end.value.millis))
  {
    var p0: Params := map[];
    var p1 := if f.searchTerm.Some? && f.searchTerm.value != "" then p0["search" := f.searchTerm.value] else p0;
    var p2 := if HasItems(f.projects) then p1["projects" := Join(f.projects.value, ",")] else p1;
    var p3 := if HasItems(f.clients) then p2["clients" := Join(f.clients.value, ",")] else p2;
    var start := if f.dateRange.Some? && f.dateRange.value.start.Some? then Some(IsoText(f.dateRange.value.start.value, iso)) else None;
    var end := if f.dateRange.Some? && f.dateRange.value.end.Some? then Some(IsoText(f.dateRange.value.end.value, iso)) else None;
    if start.Some? && start.value.Err? then Err(start.value.error)
    else
      var p4 := if start.Some? then p3["startDate" := start.value.value] else p3;
      if end.Some? && end.value.Err? then Err(end.value.error)
      else Ok(if end.Some? then p4["endDate" := end.value.value] else p4)
  }

  /** `createFilterUrl`, up to the text encoding: one `params.set` per
      truthy field. */
  method CreateFilterUrl(filters: FilterOptions, iso: int -> string) returns (r: Result<Params, string>)
    ensures r == FilterParams(filters, iso)
  {
    var params: Params := map[];
    if filters.searchTerm.Some? && filters.searchTerm.value != "" {
      params := params["search" := filters.searchTerm.value];
    }
    if filters.projects.Some? && |filters.projects.value| > 0 {
      params := params["projects" := Join(filters.projects.value, ",")];
    }
    if filters.clients.Some? && |filters.clients.value| > 0 {
      params := params["clients" := Join(filters.clients.value, ",")];
    }
    if filters.dateRange.Some? && filters.dateRange.value.start.Some? {
      var text := IsoText(filters.dateRange.value.start.value, iso);
      if text.Err? {
        return Err(text.error);
      }
      params := params["startDate" := text.value];
    }
    if filters.dateRange.Some? && filters.dateRange.value.end.Some? {
      var text := IsoText(filters.dateRange.value.end.value, iso);
      if text.Err? {
        return Err(text.error);
      }
      params := params["endDate" := text.value];
    }
    return Ok(params);
  }

  /** A filter record that survives the trip through the query string: a
      present search term is non-empty, a present list is non-empty, has no
      comma inside an item and does not join to "", a present date range
      has a bound, and every bound is a valid date. */
  predicate Encodable(f: FilterOptions) {
    && (f.searchTerm.Some? ==> f.searchTerm.value != "")
    && (f.projects.Some? ==> |f.projects.value| > 0 && NoneContains(f.projects.value, ',') && Join(f.projects.value, ",") != "")
    && (f.clients.Some? ==> |f.clients.value| > 0 && NoneContains(f.clients.value, ',') && Join(f.clients.value, ",") != "")
    && (f.dateRange.Some? ==>
          && (f.dateRange.value.start.Some? || f.dateRange.value.end.Some?)
          && (f.dateRange.value.start.Some? ==> f.dateRange.value.start.value.ValidDate?)
          && (f.dateRange.value.end.Some? ==> f.dateRange.value.end.value.ValidDate?))
  }

  /** Reading back what was written gives the record again, when ISO text
      is never empty and reads back as the same time value. */
  lemma RoundTrip(f: FilterOptions, iso: int -> string, parseDate: string -> Date)
    requires Encodable(f)
    requires forall ms :: iso(ms) != "" && parseDate(iso(ms)) == ValidDate(ms)
    ensures FilterParams(f, iso).Ok?
    ensures ParseFilters(FilterParams(f, iso).value, parseDate) == f
  {
    if f.projects.Some? {
      SplitJoin(f.projects.value, ',');
    }
    if f.clients.Some? {
      SplitJoin(f.clients.value, ',');
    }
  }

  /** The empty search term and an empty list do not survive: they are
      written as nothing and read back as unset. */
  lemma EmptyFieldsDropped(f: FilterOptions, iso: int -> string, parseDate: string -> Date)
    requires f.dateRange == None
    requires f.searchTerm == Some("") && f.projects == Some([]) && f.clients == Some([])
    ensures FilterParams(f, iso) == Ok(map[])
    ensures ParseFilters(FilterParams(f, iso).value, parseDate) == NoFilters
  {
  }
}
