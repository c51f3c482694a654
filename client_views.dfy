/**
 * What the dashboard derives from the list of bills it has loaded: the
 * period filter with its month and year wrap, the pending and paid lists
 * with their orders, their pagination, and the bills due today and overdue.
 * "Now" is a parameter: the civil date the browser's clock shows.
 */
module ClientViews {
  import opened Wrappers
  import opened Calendar
  import opened Sequences
  import opened Bills

  // ---------------------------------------------------------------------------
  // Period filter

  /**
   * `filterByPeriod`: "all" and any unknown period let every bill through;
   * the three month periods compare the due date's year and month with the
   * current month, the previous one or the next one.
   */
  function InPeriod(b: Bill, period: string, today: Date): (r: bool)
    requires 1 <= today.month <= 12
    ensures period == "current_month" ==> (r <==> b.due.year == today.year && b.due.month == today.month)
    ensures period == "last_month" ==> (r <==> (b.due.year, b.due.month) == PrevMonthOf(today.year, today.month))
    ensures period == "next_month" ==> (r <==> (b.due.year, b.due.month) == NextMonthOf(today.year, today.month))
    ensures period !in {"current_month", "last_month", "next_month"} ==> r
  {
    if period == "all" then true
    else if period == "current_month" then b.due.year == today.year && b.due.month == today.month
    else if period == "last_month" then
      var lastMonth := if today.month == 1 then 12 else today.month - 1;
      var lastMonthYear := if today.month == 1 then today.year - 1 else today.year;
      b.due.year == lastMonthYear && b.due.month == lastMonth
    else if period == "next_month" then
      var nextMonth := if today.month == 12 then 1 else today.month + 1;
      var nextMonthYear := if today.month == 12 then today.year + 1 else today.year;
      b.due.year == nextMonthYear && b.due.month == nextMonth
    else true
  }

  /** In January the previous month is December of the year before; in December the next month is January of the year after. */
  lemma PeriodsWrapTheYear(b: Bill, today: Date)
    requires 1 <= today.month <= 12
    ensures today.month == 1 ==> (InPeriod(b, "last_month", today) <==> b.due.year == today.year - 1 && b.due.month == 12)
    ensures today.month == 12 ==> (InPeriod(b, "next_month", today) <==> b.due.year == today.year + 1 && b.due.month == 1)
    ensures 1 < today.month ==> (InPeriod(b, "last_month", today) <==> b.due.year == today.year && b.due.month == today.month - 1)
    ensures today.month < 12 ==> (InPeriod(b, "next_month", today) <==> b.due.year == today.year && b.due.month == today.month + 1)
  {
  }

  // ---------------------------------------------------------------------------
  // The pending and paid lists

  /**
   * The filters of one list: the status, the category unless it is empty or
   * "todas", and the period unless it is empty or "all".
   */
  predicate Shown(status: Status, category: string, period: string, today: Date, b: Bill)
    requires 1 <= today.month <= 12
  {
    b.status == status && CategoryOk(category, b) && PeriodOk(period, today, b)
  }

  /** `bills.filter(b => b.status === status)`. */
  function ByStatus(bills: seq<Bill>, status: Status): seq<Bill> {
    Filter(bills, (b: Bill) => b.status == status)
  }

  /** The category condition: none when the category is empty or "todas". */
  predicate CategoryOk(category: string, b: Bill) {
    category != "" && category != "todas" ==> b.category == Some(category)
  }

  /** The period condition: none when the period is empty or "all". */
  predicate PeriodOk(period: string, today: Date, b: Bill)
    requires 1 <= today.month <= 12
  {
    period != "" && period != "all" ==> InPeriod(b, period, today)
  }

  /** The category filter, applied unless the category is empty or "todas". */
  function ByCategory(bills: seq<Bill>, category: string): seq<Bill> {
    if category != "" && category != "todas" then Filter(bills, (b: Bill) => b.category == Some(category)) else bills
  }

  /** The period filter, applied unless the period is empty or "all". */
  function ByPeriod(bills: seq<Bill>, period: string, today: Date): seq<Bill>
    requires 1 <= today.month <= 12
  {
    if period != "" && period != "all" then Filter(bills, (b: Bill) => InPeriod(b, period, today)) else bills
  }

  /** The three successive `filter` calls of `filteredPending` and `filteredPaid`. */
  function Chosen(bills: seq<Bill>, status: Status, category: string, period: string, today: Date): seq<Bill>
    requires 1 <= today.month <= 12
  {
    ByPeriod(ByCategory(ByStatus(bills, status), category), period, today)
  }

  /** The bills that pass all three conditions at once, in their order. */
  function AllShown(bills: seq<Bill>, status: Status, category: string, period: string, today: Date): seq<Bill>
    requires 1 <= today.month <= 12
  {
    Filter(bills, (b: Bill) => Shown(status, category, period, today, b))
  }

  lemma ByStatusCons(x: Bill, rest: seq<Bill>, status: Status)
    ensures ByStatus([x] + rest, status) == (if x.status == status then [x] else []) + ByStatus(rest, status)
  {
    assert ([x] + rest)[1..] == rest;
  }

  lemma ByCategoryCons(x: Bill, rest: seq<Bill>, category: string)
    ensures ByCategory([x] + rest, category) == (if CategoryOk(category, x) then [x] else []) + ByCategory(rest, category)
  {
    assert ([x] + rest)[1..] == rest;
  }

  lemma ByPeriodCons(x: Bill, rest: seq<Bill>, period: string, today: Date)
    requires 1 <= today.month <= 12
    ensures ByPeriod([x] + rest, period, today) == (if PeriodOk(period, today, x) then [x] else []) + ByPeriod(rest, period, today)
  {
    assert ([x] + rest)[1..] == rest;
  }

  lemma AllShownCons(x: Bill, rest: seq<Bill>, status: Status, category: string, period: string, today: Date)
    requires 1 <= today.month <= 12
    ensures AllShown([x] + rest, status, category, period, today)
            == (if Shown(status, category, period, today, x) then [x] else []) + AllShown(rest, status, category, period, today)
  {
    assert ([x] + rest)[1..] == rest;
  }

  /** The three filters in a row keep exactly the bills that pass all three, in their order. */
  lemma {:induction false} ChosenIsOneFilter(bills: seq<Bill>, status: Status, category: string, period: string, today: Date)
    requires 1 <= today.month <= 12
    ensures Chosen(bills, status, category, period, today) == AllShown(bills, status, category, period, today)
    decreases |bills|
  {
    if bills != [] {
      var x, rest := bills[0], bills[1..];
      assert bills == [x] + rest;
      ChosenIsOneFilter(rest, status, category, period, today);
      ByStatusCons(x, rest, status);
      AllShownCons(x, rest, status, category, period, today);
      if x.status == status {
        ByCategoryCons(x, ByStatus(rest, status), category);
        if CategoryOk(category, x) {
          ByPeriodCons(x, ByCategory(ByStatus(rest, status), category), period, today);
        }
      }
    }
  }

  /** The key that puts the most recent due date first. */
  function NewestFirst(b: Bill): int {
    -DueKey(b)
  }

  /** `filteredPending`: the pending bills the filters let through, the nearest due date first. */
  function FilteredPending(bills: seq<Bill>, category: string, period: string, today: Date): (r: seq<Bill>)
    requires 1 <= today.month <= 12
    ensures SortedBy(r, DueKey)
    ensures multiset(r) == multiset(AllShown(bills, Pending, category, period, today))
  {
    ChosenIsOneFilter(bills, Pending, category, period, today);
    SortBy(Chosen(bills, Pending, category, period, today), DueKey)
  }

  /** `filteredPaid`: the paid bills the filters let through, the latest due date first. */
  function FilteredPaid(bills: seq<Bill>, category: string, period: string, today: Date): (r: seq<Bill>)
    requires 1 <= today.month <= 12
    ensures forall i, j :: 0 <= i < j < |r| ==> DueKey(r[i]) >= DueKey(r[j])
    ensures multiset(r) == multiset(AllShown(bills, Paid, category, period, today))
  {
    ChosenIsOneFilter(bills, Paid, category, period, today);
    var r := SortBy(Chosen(bills, Paid, category, period, today), NewestFirst);
    assert forall i, j :: 0 <= i < j < |r| ==> NewestFirst(r[i]) <= NewestFirst(r[j]);
    r
  }

  /** Each list holds bills of its own status only, every one of them taken from the loaded bills. */
  lemma ListsKeepTheirStatus(bills: seq<Bill>, category: string, period: string, today: Date)
    requires 1 <= today.month <= 12
    ensures var pending := FilteredPending(bills, category, period, today);
            forall i :: 0 <= i < |pending| ==> pending[i] in bills && pending[i].status == Pending
    ensures var paid := FilteredPaid(bills, category, period, today);
            forall i :: 0 <= i < |paid| ==> paid[i] in bills && paid[i].status == Paid
  {
    var pending := FilteredPending(bills, category, period, today);
    forall i | 0 <= i < |pending|
      ensures pending[i] in bills && pending[i].status == Pending
    {
      assert pending[i] in multiset(AllShown(bills, Pending, category, period, today));
    }
    var paid := FilteredPaid(bills, category, period, today);
    forall i | 0 <= i < |paid|
      ensures paid[i] in bills && paid[i].status == Paid
    {
      assert paid[i] in multiset(AllShown(bills, Paid, category, period, today));
    }
  }

  // ---------------------------------------------------------------------------
  // Pagination

  const PendingPerPage: nat := 5
  const PaidPerPage: nat := 20

  function PendingPage(pending: seq<Bill>, page: int): seq<Bill> {
    Page(pending, page, PendingPerPage)
  }

  function PaidPage(paid: seq<Bill>, page: int): seq<Bill> {
    Page(paid, page, PaidPerPage)
  }

  /** How `Array.prototype.slice` reads an index: negative counts from the end, and both ends clamp to the length. */
  function SliceBound(i: int, len: nat): (r: nat)
    ensures r <= len
    ensures 0 <= i <= len ==> r == i
  {
    if i < 0 then (if len + i < 0 then 0 else len + i) else if i > len then len else i
  }

  /** `s.slice(start, end)`. */
  function JsSlice<T>(s: seq<T>, start: int, end: int): seq<T> {
    var a, b := SliceBound(start, |s|), SliceBound(end, |s|);
    if a < b then s[a..b] else []
  }

  /** The `paginated…` lists: page `page` of `perPage` items. */
  function Page<T>(s: seq<T>, page: int, perPage: nat): seq<T> {
    var start := (page - 1) * perPage;
    JsSlice(s, start, start + perPage)
  }

  /** `Math.ceil(n / perPage)`. */
  function TotalPages(n: nat, perPage: nat): nat
    requires perPage > 0
  {
    (n + perPage - 1) / perPage
  }

  /** The page count is the ceiling of the quotient: enough pages for every item and no empty last page. */
  lemma TotalPagesIsCeiling(n: nat, perPage: nat)
    requires perPage > 0
    ensures n <= TotalPages(n, perPage) * perPage
    ensures n == 0 ==> TotalPages(n, perPage) == 0
    ensures n > 0 ==> (TotalPages(n, perPage) - 1) * perPage < n
  {
    var t := TotalPages(n, perPage);
    assert (n + perPage - 1) == t * perPage + (n + perPage - 1) % perPage;
  }

  /** A page from the first on shows the items from `(page - 1) * perPage` up to the next page's first, as far as they exist. */
  lemma PageIsAWindow<T>(s: seq<T>, page: int, perPage: nat)
    requires page >= 1
    ensures var start := (page - 1) * perPage;
            Page(s, page, perPage)
            == if start >= |s| then [] else s[start..if start + perPage <= |s| then start + perPage else |s|]
    ensures |Page(s, page, perPage)| <= perPage
  {
    var start := (page - 1) * perPage;
    assert start >= 0 by {
      assert page - 1 >= 0;
    }
  }

  /** Position `j` of a page from the first on is item `(page - 1) * perPage + j`. */
  lemma PageItem<T>(s: seq<T>, page: int, perPage: nat, j: int)
    requires page >= 1 && 0 <= j < perPage && (page - 1) * perPage + j < |s|
    ensures j < |Page(s, page, perPage)| && Page(s, page, perPage)[j] == s[(page - 1) * perPage + j]
  {
    PageIsAWindow(s, page, perPage);
  }

  /** Item `i` appears on page `i / perPage + 1`, at position `i % perPage`. */
  lemma ItemOnItsPage<T>(s: seq<T>, i: int, perPage: nat)
    requires perPage > 0 && 0 <= i < |s|
    ensures var page := Page(s, i / perPage + 1, perPage);
            i % perPage < |page| && page[i % perPage] == s[i]
  {
    DivMod(i, perPage);
    PageItem(s, i / perPage + 1, perPage, i % perPage);
  }

  lemma DivMod(i: int, k: nat)
    requires k > 0 && i >= 0
    ensures (i / k + 1 - 1) * k + i % k == i && 0 <= i % k < k && i / k >= 0
  {
  }

  /** The pages from the first to the last are never empty, and a page past the last is. */
  lemma PagesInRange<T>(s: seq<T>, page: int, perPage: nat)
    requires perPage > 0 && page >= 1
    ensures page <= TotalPages(|s|, perPage) ==> Page(s, page, perPage) != []
    ensures page > TotalPages(|s|, perPage) ==> Page(s, page, perPage) == []
  {
    TotalPagesIsCeiling(|s|, perPage);
    PageIsAWindow(s, page, perPage);
    var t := TotalPages(|s|, perPage);
    if page <= t {
      ScaleMonotone(page - 1, t - 1, perPage);
    } else {
      ScaleMonotone(t, page - 1, perPage);
    }
  }

  lemma ScaleMonotone(a: int, b: int, k: nat)
    requires a <= b
    ensures a * k <= b * k
  {
    assert b * k - a * k == (b - a) * k;
  }

  /** "← Anterior": `Math.max(1, p - 1)`. */
  function PreviousPage(page: int): int {
    if page - 1 > 1 then page - 1 else 1
  }

  /** "Próxima →": `Math.min(totalPages, p + 1)`. */
  function NextPage(page: int, total: int): int {
    if total < page + 1 then total else page + 1
  }

  /** Moving back or forward from a page of the list stays within the first and the last page and moves by at most one. */
  lemma PageButtonsStayInRange(page: int, total: int)
    requires 1 <= page <= total
    ensures 1 <= PreviousPage(page) <= total && 1 <= NextPage(page, total) <= total
    ensures PreviousPage(page) == (if page == 1 then 1 else page - 1)
    ensures NextPage(page, total) == (if page == total then total else page + 1)
  {
  }

  // ---------------------------------------------------------------------------
  // Due today and overdue

  /** The due date's midnight against today's: `setHours(0, 0, 0, 0)` on both, then `getTime()`. */
  predicate DueOn(b: Bill, today: Date)
    requires 1 <= today.month <= 12
  {
    1 <= b.due.month <= 12 && Midnight(b.due) == Midnight(today)
  }

  predicate DueBefore(b: Bill, today: Date)
    requires 1 <= today.month <= 12
  {
    1 <= b.due.month <= 12 && Midnight(b.due) < Midnight(today)
  }

  /** `billsDueToday`: the pending bills due today. */
  function BillsDueToday(bills: seq<Bill>, today: Date): (r: seq<Bill>)
    requires Valid(today)
    ensures forall i :: 0 <= i < |r| ==> r[i] in bills && r[i].status == Pending && DueOn(r[i], today)
    ensures forall i :: 0 <= i < |bills| && bills[i].status == Pending && DueOn(bills[i], today) ==> bills[i] in r
  {
    Filter(bills, (b: Bill) => b.status == Pending && DueOn(b, today))
  }

  /** For a real calendar date, having today's midnight means being today. */
  lemma DueOnIsToday(b: Bill, today: Date)
    requires Valid(today) && Valid(b.due)
    ensures DueOn(b, today) <==> b.due == today
    ensures DueBefore(b, today) <==> Before(b.due, today)
  {
    MidnightOrder(b.due, today);
    MidnightOrder(today, b.due);
    DayNumberOrder(b.due, today);
  }

  /** `billsOverdue`: the pending bills due before today, the oldest first. */
  function BillsOverdue(bills: seq<Bill>, today: Date): (r: seq<Bill>)
    requires Valid(today)
    ensures SortedBy(r, DueKey)
    ensures multiset(r) == multiset(Filter(bills, (b: Bill) => b.status == Pending && DueBefore(b, today)))
  {
    SortBy(Filter(bills, (b: Bill) => b.status == Pending && DueBefore(b, today)), DueKey)
  }

  /**
   * The two alert lists hold pending bills only, and no bill is in both:
   * a bill due today is not overdue.
   */
  lemma AlertsArePendingAndDisjoint(bills: seq<Bill>, today: Date)
    requires Valid(today)
    ensures var due, late := BillsDueToday(bills, today), BillsOverdue(bills, today);
            && (forall i :: 0 <= i < |late| ==> late[i] in bills && late[i].status == Pending)
            && (forall i, j :: 0 <= i < |due| && 0 <= j < |late| ==> due[i] != late[j])
  {
    var due, late := BillsDueToday(bills, today), BillsOverdue(bills, today);
    var p := (b: Bill) => b.status == Pending && DueBefore(b, today);
    forall j | 0 <= j < |late|
      ensures late[j] in bills && late[j].status == Pending && DueBefore(late[j], today)
    {
      assert late[j] in multiset(Filter(bills, p));
    }
  }
}
