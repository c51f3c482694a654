/**
 * The monthly report's request: the filter the route builds from its
 * parameters, the bills it selects and their order, and the format and file
 * name of the download.
 */
module ReportQuery {
  import opened Wrappers
  import opened Calendar
  import opened Text
  import opened Sequences
  import opened Bills

  /** The query object: owner, an inclusive range of due instants, and the optional equality filters. */
  datatype Query = Query(owner: Id, from: int, to: int, category: Option<string>, status: Option<string>)

  /**
   * Builds the filter field by field. `startDate` and `endDate` are the range
   * parameters already read as instants (a parameter that is absent or empty
   * is `None`); without both, the range is the month `m` of year `y`, built
   * with the `Date` constructor, so that a year from 0 through 99 means
   * 1900 through 1999.
   */
  method BuildQuery(owner: Id, y: int, m: int, startDate: Option<int>, endDate: Option<int>,
                    category: Option<string>, status: Option<string>) returns (q: Query)
    ensures q.owner == owner
    ensures startDate.Some? && endDate.Some? ==> q.from == startDate.value && q.to == endDate.value
    ensures !(startDate.Some? && endDate.Some?) ==>
              q.from == Midnight(NewDate(y, m - 1, 1)) && q.to == Midnight(NewDate(y, m, 0))
    ensures q.category.Some? <==> Truthy(category) && category.value != "todas"
    ensures q.category.Some? ==> q.category == category
    ensures q.status.Some? <==> Truthy(status) && status.value != "todos"
    ensures q.status.Some? ==> q.status == status
  {
    q := Query(owner, 0, 0, None, None);
    if startDate.Some? && endDate.Some? {
      q := q.(from := startDate.value, to := endDate.value);
    } else {
      var start := NewDate(y, m - 1, 1);
      var end := NewDate(y, m, 0);
      q := q.(from := Midnight(start), to := Midnight(end));
    }
    if Truthy(category) && category.value != "todas" {
      q := q.(category := category);
    }
    if Truthy(status) && status.value != "todos" {
      q := q.(status := status);
    }
  }

  /**
   * A bill the query selects. The month bound only makes `Midnight` defined:
   * every bill the schema accepts has a valid due date, so it excludes no
   * stored bill.
   */
  predicate Matches(q: Query, b: Bill) {
    && 1 <= b.due.month <= 12
    && b.owner == q.owner
    && q.from <= Midnight(b.due) <= q.to
    && (q.category.Some? ==> b.category == q.category)
    && (q.status.Some? ==> StatusName(b.status) == q.status.value)
  }

  /** `Bill.find(query).sort({ due_date: 1 })`: the matching bills, oldest due date first. */
  function Select(q: Query, bills: seq<Bill>): (r: seq<Bill>)
    ensures SortedBy(r, DueKey)
    ensures multiset(r) == multiset(Filter(bills, b => Matches(q, b)))
    ensures forall i :: 0 <= i < |r| ==> Matches(q, r[i]) && r[i] in bills
    ensures forall i :: 0 <= i < |bills| && Matches(q, bills[i]) ==> bills[i] in r
  {
    var chosen := Filter(bills, b => Matches(q, b));
    var r := SortBy(chosen, DueKey);
    forall i | 0 <= i < |r|
      ensures Matches(q, r[i]) && r[i] in bills
    {
      assert r[i] in multiset(chosen);
    }
    forall i | 0 <= i < |bills| && Matches(q, bills[i])
      ensures bills[i] in r
    {
      assert bills[i] in multiset(r);
    }
    r
  }

  /**
   * Without an explicit range, the month filter selects exactly the due dates
   * that fall in month `m` of year `y`, from its first day through its last,
   * where a year from 0 through 99 is the year 1900 + `y`.
   */
  lemma MonthRangeIsTheMonth(y: int, m: int, d: Date)
    requires 1 <= m <= 12 && Valid(d)
    ensures Midnight(NewDate(y, m - 1, 1)) <= Midnight(d) <= Midnight(NewDate(y, m, 0))
            <==> d.year == (if 0 <= y <= 99 then 1900 + y else y) && d.month == m
  {
    var fy := ConstructorYear(y);
    var first := Date(fy, m, 1);
    var last := Date(fy, m, DaysInMonth(fy, m));
    MakeDateOfValid(first);
    LastDayOfMonth(fy, m);
    assert NewDate(y, m - 1, 1) == first && NewDate(y, m, 0) == last;
    MidnightOrder(first, d);
    MidnightOrder(d, last);
    DayNumberOrder(d, first);
    DayNumberOrder(last, d);
  }

  datatype Format = Pdf | Excel | Csv | Zip

  /** The `switch (format.toLowerCase())`: the four writers, PDF for anything unknown. */
  function ParseFormat(format: string): (f: Format)
    ensures f == Zip <==> AsciiLower(format) == "zip"
    ensures f == Excel <==> AsciiLower(format) == "excel" || AsciiLower(format) == "xlsx"
    ensures f == Csv <==> AsciiLower(format) == "csv"
  {
    var lower := AsciiLower(format);
    if lower == "zip" then Zip
    else if lower == "excel" || lower == "xlsx" then Excel
    else if lower == "csv" then Csv
    else Pdf
  }

  /** `relatorio-<year>-<two-digit month>`. */
  function BaseName(y: int, m: int): string {
    "relatorio-" + IntToString(y) + "-" + TwoDigits(m)
  }

  /** The download's file name and content type. */
  function Download(f: Format, y: int, m: int): (r: (string, string))
  {
    match f
    case Zip => ("relatorio-completo-" + IntToString(y) + "-" + TwoDigits(m) + ".zip", "application/zip")
    case Excel => (BaseName(y, m) + ".xlsx", "application/vnd.openxmlformats-officedocument.spreadsheetml.sheet")
    case Csv => (BaseName(y, m) + ".csv", "text/csv")
    case Pdf => (BaseName(y, m) + ".pdf", "application/pdf")
  }
}
