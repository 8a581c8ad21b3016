/** The entries table of src/components/DataTable.tsx: a sorted copy of the
    entries under the chosen field and direction, twenty rows per page, and
    the three pieces of view state (sort field, sort direction, current
    page) that the column headers and the Previous/Next buttons update. */
module DataTable {
  import opened Text
  import opened Entries

  /** The columns a header button sorts by. */
  datatype SortField = ProjectField | ClientField | TimeDecimalField | AmountField

  datatype SortDirection = Asc | Desc

  const ItemsPerPage: nat := 20

  /** The sort key of a string column: the lower-cased text. */
  function TextKey(e: TimeEntry, field: SortField): string
    requires field == ProjectField || field == ClientField
  {
    if field == ProjectField then ToLower(e.project) else ToLower(e.client)
  }

  /** `aValue < bValue` in the comparator: the lower-cased strings in
      JavaScript string order, or the numbers. */
  predicate KeyLess(a: TimeEntry, b: TimeEntry, field: SortField) {
    match field
    case ProjectField => StrLess(TextKey(a, field), TextKey(b, field))
    case ClientField => StrLess(TextKey(a, field), TextKey(b, field))
    case TimeDecimalField => a.timeDecimal < b.timeDecimal
    case AmountField => a.amount < b.amount
  }

  /** The comparator returns -1 for `(a, b)`: `a` belongs strictly before `b`. */
  predicate Before(a: TimeEntry, b: TimeEntry, field: SortField, dir: SortDirection) {
    if dir == Asc then KeyLess(a, b, field) else KeyLess(b, a, field)
  }

  lemma BeforeAsymmetric(a: TimeEntry, b: TimeEntry, field: SortField, dir: SortDirection)
    ensures !(Before(a, b, field, dir) && Before(b, a, field, dir))
  {
    if field == ProjectField || field == ClientField {
      StrLessAsymmetric(TextKey(a, field), TextKey(b, field));
    }
  }

  /** Not-before is transitive: the comparator is a total preorder. */
  lemma NotBeforeTransitive(a: TimeEntry, b: TimeEntry, c: TimeEntry, field: SortField, dir: SortDirection)
    requires !Before(b, a, field, dir) && !Before(c, b, field, dir)
    ensures !Before(c, a, field, dir)
  {
    if field == ProjectField || field == ClientField {
      var x, y, z := TextKey(a, field), TextKey(b, field), TextKey(c, field);
      if dir == Asc {
        StrLessNotTransitive(x, y, z);
      } else {
        StrLessNotTransitive(z, y, x);
      }
    }
  }

  /** `!(y < x)` and `!(z < y)` give `!(z < x)` in the string order. */
  lemma StrLessNotTransitive(x: string, y: string, z: string)
    requires !StrLess(y, x) && !StrLess(z, y)
    ensures !StrLess(z, x)
  {
    if x != y { StrLessTotal(x, y); }
    if y != z { StrLessTotal(y, z); }
    StrLessIrreflexive(x);
    if x != y && y != z {
      StrLessTransitive(x, y, z);
      StrLessAsymmetric(x, z);
    }
  }

  /** No entry is followed by one that belongs strictly before it. */
  ghost predicate Ordered(s: seq<TimeEntry>, field: SortField, dir: SortDirection) {
    forall i :: 0 <= i < |s| - 1 ==> !Before(s[i + 1], s[i], field, dir)
  }

  /** Puts `x` into an ordered list after every entry it does not belong
      before, so that equal keys keep their arrival order. */
  function Insert(x: TimeEntry, ys: seq<TimeEntry>, field: SortField, dir: SortDirection): (r: seq<TimeEntry>)
    requires Ordered(ys, field, dir)
    ensures Ordered(r, field, dir)
    ensures multiset(r) == multiset(ys) + multiset{x}
    ensures r != [] && (r[0] == x || (ys != [] && r[0] == ys[0]))
  {
    if ys == [] then [x]
    else if Before(x, ys[0], field, dir) then
      BeforeAsymmetric(x, ys[0], field, dir);
      OrderedCons(x, ys, field, dir);
      [x] + ys
    else
      OrderedTail(ys, field, dir);
      var rest := Insert(x, ys[1..], field, dir);
      assert ys == [ys[0]] + ys[1..];
      assert |ys| > 1 ==> !Before(ys[1], ys[0], field, dir);
      OrderedCons(ys[0], rest, field, dir);
      [ys[0]] + rest
  }

  /** An entry that its successor does not belong before extends an ordered list. */
  lemma OrderedCons(h: TimeEntry, s: seq<TimeEntry>, field: SortField, dir: SortDirection)
    requires Ordered(s, field, dir)
    requires s != [] ==> !Before(s[0], h, field, dir)
    ensures Ordered([h] + s, field, dir)
  {
    var r := [h] + s;
    forall i | 0 <= i < |r| - 1 ensures !Before(r[i + 1], r[i], field, dir) {
      if i > 0 {
        assert r[i] == s[i - 1] && r[i + 1] == s[i];
      }
    }
  }

  /** `[...timeEntries].sort(comparator)`: a new list; the entries handed
      in are left as they are. */
  function SortEntries(es: seq<TimeEntry>, field: SortField, dir: SortDirection): (r: seq<TimeEntry>)
    ensures Ordered(r, field, dir)
    ensures multiset(r) == multiset(es)
  {
    if es == [] then []
    else
      var n := |es|;
      assert es == es[..n - 1] + [es[n - 1]];
      Insert(es[n - 1], SortEntries(es[..n - 1], field, dir), field, dir)
  }

  /** The sorted list is a rearrangement of the entries, and every entry
      is ordered against every later one, not only its neighbour. */
  lemma {:induction false} SortedPairwise(es: seq<TimeEntry>, field: SortField, dir: SortDirection)
    ensures var s := SortEntries(es, field, dir);
      && |s| == |es|
      && (forall e :: e in s <==> e in es)
      && forall i, j :: 0 <= i < j < |s| ==> !Before(s[j], s[i], field, dir)
  {
    var s := SortEntries(es, field, dir);
    assert |multiset(s)| == |multiset(es)|;
    forall e ensures e in s <==> e in es {
      assert e in s <==> e in multiset(s);
    }
    forall i, j | 0 <= i < j < |s| ensures !Before(s[j], s[i], field, dir) {
      OrderedPairwise(s, field, dir, i, j);
    }
  }

  lemma {:induction false} OrderedPairwise(s: seq<TimeEntry>, field: SortField, dir: SortDirection, i: nat, j: nat)
    requires Ordered(s, field, dir) && i < j < |s|
    ensures !Before(s[j], s[i], field, dir)
    decreases j - i
  {
    if i + 1 < j {
      OrderedPairwise(s, field, dir, i + 1, j);
      NotBeforeTransitive(s[i], s[i + 1], s[j], field, dir);
    }
  }

  /** The entries after the first of an ordered list are ordered. */
  lemma OrderedTail(ys: seq<TimeEntry>, field: SortField, dir: SortDirection)
    requires Ordered(ys, field, dir) && ys != []
    ensures Ordered(ys[1..], field, dir)
  {
    var tail := ys[1..];
    forall i | 0 <= i < |tail| - 1 ensures !Before(tail[i + 1], tail[i], field, dir) {
      assert tail[i] == ys[i + 1] && tail[i + 1] == ys[i + 2];
    }
  }

  /** The entries before the last of an ordered list are ordered. */
  lemma OrderedInit(ys: seq<TimeEntry>, field: SortField, dir: SortDirection)
    requires Ordered(ys, field, dir) && ys != []
    ensures Ordered(ys[..|ys| - 1], field, dir)
  {
    var init := ys[..|ys| - 1];
    forall i | 0 <= i < |init| - 1 ensures !Before(init[i + 1], init[i], field, dir) {
      assert init[i] == ys[i] && init[i + 1] == ys[i + 1];
    }
  }

  /** `x` belongs before none of `ys`. */
  ghost predicate BeforeNone(x: TimeEntry, ys: seq<TimeEntry>, field: SortField, dir: SortDirection) {
    ys == [] || (!Before(x, ys[0], field, dir) && BeforeNone(x, ys[1..], field, dir))
  }

  lemma {:induction false} BeforeNoneAll(x: TimeEntry, ys: seq<TimeEntry>, field: SortField, dir: SortDirection)
    requires forall k :: 0 <= k < |ys| ==> !Before(x, ys[k], field, dir)
    ensures BeforeNone(x, ys, field, dir)
  {
    if ys != [] {
      var tail := ys[1..];
      forall k | 0 <= k < |tail| ensures !Before(x, tail[k], field, dir) {
        assert tail[k] == ys[k + 1];
      }
      BeforeNoneAll(x, tail, field, dir);
    }
  }

  /** An entry that belongs before none of an ordered list goes at its end. */
  lemma {:induction false} InsertAfterAll(x: TimeEntry, ys: seq<TimeEntry>, field: SortField, dir: SortDirection)
    requires Ordered(ys, field, dir)
    requires BeforeNone(x, ys, field, dir)
    ensures Insert(x, ys, field, dir) == ys + [x]
  {
    if ys != [] {
      var tail := ys[1..];
      OrderedTail(ys, field, dir);
      InsertAfterAll(x, tail, field, dir);
      InsertPast(x, ys, field, dir);
      ConsSnoc(ys, x);
    }
  }

  lemma ConsSnoc<T>(ys: seq<T>, x: T)
    requires ys != []
    ensures [ys[0]] + (ys[1..] + [x]) == ys + [x]
  {
  }

  /** An entry that does not belong before the head is inserted after it. */
  lemma InsertPast(x: TimeEntry, ys: seq<TimeEntry>, field: SortField, dir: SortDirection)
    requires ys != [] && Ordered(ys, field, dir) && Ordered(ys[1..], field, dir)
    requires !Before(x, ys[0], field, dir)
    ensures Insert(x, ys, field, dir) == [ys[0]] + Insert(x, ys[1..], field, dir)
  {
  }

  /** Sorting an already sorted list changes nothing. */
  lemma {:induction false} SortOrdered(es: seq<TimeEntry>, field: SortField, dir: SortDirection)
    requires Ordered(es, field, dir)
    ensures SortEntries(es, field, dir) == es
  {
    if es != [] {
      var n := |es|;
      var init, x := es[..n - 1], es[n - 1];
      OrderedInit(es, field, dir);
      SortOrdered(init, field, dir);
      forall k | 0 <= k < |init| ensures !Before(x, init[k], field, dir) {
        OrderedPairwise(es, field, dir, k, n - 1);
      }
      BeforeNoneAll(x, init, field, dir);
      InsertAfterAll(x, init, field, dir);
      assert init + [x] == es;
    }
  }

  /** `Array.prototype.slice(start, end)`: a negative bound counts from the
      end, and both bounds are clamped to the list. */
  function Slice<T>(s: seq<T>, start: int, end: int): (r: seq<T>)
    ensures |r| <= |s|
  {
    var n := |s|;
    var from := if start < 0 then (if n + start < 0 then 0 else n + start) else (if start > n then n else start);
    var to := if end < 0 then (if n + end < 0 then 0 else n + end) else (if end > n then n else end);
    if from < to then s[from..to] else []
  }

  /** `paginatedEntries`: page `page` of the sorted list. */
  function Page(sorted: seq<TimeEntry>, page: int): (r: seq<TimeEntry>)
    ensures |r| <= ItemsPerPage
  {
    var startIndex := (page - 1) * ItemsPerPage;
    Slice(sorted, startIndex, startIndex + ItemsPerPage)
  }

  /** `Math.ceil(sortedEntries.length / itemsPerPage)` */
  function TotalPages(n: nat): (t: nat)
    ensures (t - 1) * ItemsPerPage < n <= t * ItemsPerPage || (n == 0 && t == 0)
  {
    (n + ItemsPerPage - 1) / ItemsPerPage
  }

  /** A page from 1 on holds the twenty positions it starts at, as far as
      the list reaches; pages past the last are empty. */
  lemma PageContents(sorted: seq<TimeEntry>, page: int)
    requires page >= 1
    ensures var r := Page(sorted, page);
      var start := (page - 1) * ItemsPerPage;
      && (start >= |sorted| ==> r == [])
      && (start < |sorted| ==> |r| == if |sorted| - start < ItemsPerPage then |sorted| - start else ItemsPerPage)
      && forall k :: 0 <= k < |r| ==> r[k] == sorted[start + k]
  {
  }

  /** A page numbered from 1 is non-empty exactly when its number is at
      most the number of pages. */
  lemma PageInRange(sorted: seq<TimeEntry>, page: int)
    requires page >= 1
    ensures Page(sorted, page) != [] <==> page <= TotalPages(|sorted|)
  {
    var t := TotalPages(|sorted|);
    if page >= 1 && page <= t {
      assert (page - 1) * ItemsPerPage <= (t - 1) * ItemsPerPage;
    }
    if page > t {
      assert (page - 1) * ItemsPerPage >= t * ItemsPerPage;
    }
  }

  /** Pages `page`, `page + 1`, ..., up to the last, one after the other. */
  function PagesFrom(sorted: seq<TimeEntry>, page: nat): seq<TimeEntry>
    requires page >= 1
    decreases TotalPages(|sorted|) + 1 - page
  {
    if page > TotalPages(|sorted|) then [] else Page(sorted, page) + PagesFrom(sorted, page + 1)
  }

  /** Pages from `page` on are the list from that page's first position on. */
  lemma {:induction false} PagesFromSuffix(sorted: seq<TimeEntry>, page: nat)
    requires page >= 1
    ensures (page - 1) * ItemsPerPage <= |sorted| ==> PagesFrom(sorted, page) == sorted[(page - 1) * ItemsPerPage..]
    decreases TotalPages(|sorted|) + 1 - page
  {
    var start := (page - 1) * ItemsPerPage;
    var t := TotalPages(|sorted|);
    if start <= |sorted| {
      if page > t {
        assert start >= t * ItemsPerPage;
        assert start == |sorted|;
      } else {
        PagesFromSuffix(sorted, page + 1);
        var r := Page(sorted, page);
        if start + ItemsPerPage <= |sorted| {
          assert r == sorted[start..start + ItemsPerPage];
          assert sorted[start..] == r + sorted[start + ItemsPerPage..];
        } else {
          assert r == sorted[start..];
          PageInRange(sorted, page + 1);
          assert PagesFrom(sorted, page + 1) == [] by {
            assert page + 1 > t;
          }
        }
      }
    }
  }

  /** The pages partition the sorted list: read one after the other they
      give it back, each entry once and in order. */
  lemma PagesPartition(sorted: seq<TimeEntry>)
    ensures PagesFrom(sorted, 1) == sorted
  {
    PagesFromSuffix(sorted, 1);
  }

  /** The view state of the table. */
  class TableState {
    var sortField: SortField
    var sortDirection: SortDirection
    var currentPage: int

    /** Pages are numbered from 1. */
    predicate Valid()
      reads this
    {
      currentPage >= 1
    }

    /** The initial `useState` values. */
    constructor()
      ensures Valid()
      ensures sortField == TimeDecimalField && sortDirection == Desc && currentPage == 1
    {
      sortField := TimeDecimalField;
      sortDirection := Desc;
      currentPage := 1;
    }

    /** The rows shown for `timeEntries` in the current state. */
    function Shown(timeEntries: seq<TimeEntry>): (r: seq<TimeEntry>)
      reads this
      requires Valid()
      ensures |r| <= ItemsPerPage
      ensures forall e :: e in r ==> e in timeEntries
    {
      var sorted := SortEntries(timeEntries, sortField, sortDirection);
      SortedPairwise(timeEntries, sortField, sortDirection);
      var r := Page(sorted, currentPage);
      PageContents(sorted, currentPage);
      r
    }

    /** `handleSort`: the same field flips the direction, another field
        sorts by it descending; either way back to page 1. */
    method HandleSort(field: SortField)
      requires Valid()
      modifies this
      ensures Valid()
      ensures sortField == field && currentPage == 1
      ensures sortDirection ==
        if old(sortField) == field then (if old(sortDirection) == Asc then Desc else Asc) else Desc
    {
      if sortField == field {
        sortDirection := if sortDirection == Asc then Desc else Asc;
      } else {
        sortField := field;
        sortDirection := Desc;
      }
      currentPage := 1;
    }

    /** The Previous button. */
    method Previous()
      requires Valid()
      modifies this`currentPage
      ensures Valid() && currentPage == PreviousPage(old(currentPage))
    {
      currentPage := PreviousPage(currentPage);
    }

    /** The Next button, shown only when there is more than one page. */
    method Next(totalPages: nat)
      requires Valid() && totalPages > 1
      modifies this`currentPage
      ensures Valid() && currentPage == NextPage(old(currentPage), totalPages)
    {
      currentPage := NextPage(currentPage, totalPages);
    }
  }

  /** `Math.max(1, currentPage - 1)`: one page back, never below page 1. */
  function PreviousPage(page: int): (r: int)
    ensures r >= 1
    ensures page > 1 ==> r == page - 1
    ensures page <= 1 ==> r == 1
  {
    if 1 > page - 1 then 1 else page - 1
  }

  /** `Math.min(totalPages, currentPage + 1)`: one page on, never past the
      last; a page left beyond the last after the list shrank is pulled
      back to it. */
  function NextPage(page: int, totalPages: nat): (r: int)
    ensures r <= totalPages
    ensures page + 1 <= totalPages ==> r == page + 1
    ensures page + 1 > totalPages ==> r == totalPages
  {
    if totalPages < page + 1 then totalPages else page + 1
  }
}
