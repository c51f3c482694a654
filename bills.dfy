/**
 * The Bill document: its fields, the schema's constraints and defaults, the
 * pre-save hook that maintains `paid_at`, and the money totals that the
 * dashboard and every report compute over a list of bills.
 *
 * Amounts are integer cents; due dates are civil dates (every path that
 * writes `due_date` builds a local midnight); instants are milliseconds.
 */
module Bills {
  import opened Wrappers
  import opened Calendar
  import opened Text
  import opened Sequences

  type Id = string

  /** The schema's `enum: ['pending', 'paid']`. */
  datatype Status = Pending | Paid

  function StatusName(s: Status): string {
    match s
    case Pending => "pending"
    case Paid => "paid"
  }

  /** The status a request names, when it names one of the two the schema allows. */
  function ParseStatus(s: string): (r: Option<Status>)
    ensures r.Some? ==> StatusName(r.value) == s
    ensures r.None? ==> s != "pending" && s != "paid"
  {
    if s == "pending" then Some(Pending) else if s == "paid" then Some(Paid) else None
  }

  datatype Bill = Bill(
    id: Id,
    owner: Id,
    name: string,
    category: Option<string>,
    amount: int,
    due: Date,
    status: Status,
    paidAt: Option<int>,
    boletoFile: Option<string>,
    boletoFilename: Option<string>,
    comprovanteFile: Option<string>,
    comprovanteFilename: Option<string>,
    pixInfo: Option<string>,
    updatedAt: int)

  /** `status = paid` exactly when `paid_at` is set. */
  predicate PaidInvariant(b: Bill) {
    b.status == Paid <==> b.paidAt.Some?
  }

  /**
   * The schema's constraints (backend/models/Bill.js): a trimmed name of 1 to
   * 120 characters, a category of at most 120, an amount of at least 0.01, a
   * due date, and payment instructions of at most 500 characters. Lengths are
   * JavaScript string lengths, in UTF-16 code units. The status enum holds
   * by the type.
   */
  predicate ValidBill(b: Bill) {
    && 1 <= Utf16Length(Trim(b.name)) <= 120
    && (b.category.Some? ==> Utf16Length(Trim(b.category.value)) <= 120)
    && b.amount >= 1
    && Valid(b.due)
    && (b.pixInfo.Some? ==> Utf16Length(Trim(b.pixInfo.value)) <= 500)
  }

  /** The schema's `trim: true` setter on an optional text: `null` stays `null`. */
  function TrimOption(o: Option<string>): (r: Option<string>)
    ensures r.Some? <==> o.Some?
    ensures r.Some? ==> Trim(r.value) == r.value
  {
    if o.Some? then TrimUnpadded(Trim(o.value)); Some(Trim(o.value)) else None
  }

  /** The order of due dates, as comparing the `Date` values of two due dates sees it. */
  function DueKey(b: Bill): int {
    if 1 <= b.due.month <= 12 then DayNumber(b.due) else 0
  }

  /** `toLocaleDateString('pt-BR')`: day and month on two digits, then the year. */
  function PtBrDate(d: Date): string {
    TwoDigits(d.day) + "/" + TwoDigits(d.month) + "/" + IntToString(d.year)
  }

  /**
   * A freshly constructed document: the name and category pass through the
   * schema's `trim` setters, everything the caller does not give takes the
   * schema default, and both timestamps are `now`.
   */
  function NewBill(id: Id, owner: Id, name: string, category: Option<string>, amount: int, due: Date, now: int): (b: Bill)
    ensures b.name == Trim(name) && b.category == TrimOption(category)
    ensures b.status == Pending && b.paidAt == None
    ensures b.boletoFile == None && b.boletoFilename == None
    ensures b.comprovanteFile == None && b.comprovanteFilename == None && b.pixInfo == None
    ensures b.updatedAt == now
    ensures PaidInvariant(b)
    ensures ValidBill(b) <==> (1 <= Utf16Length(Trim(name)) <= 120 && (category.Some? ==> Utf16Length(Trim(category.value)) <= 120)
                               && amount >= 1 && Valid(due))
  {
    TrimUnpadded(Trim(name));
    Bill(id, owner, Trim(name), TrimOption(category), amount, due, Pending, None, None, None, None, None, None, now)
  }

  /**
   * The `paid_at` that the pre-save hook leaves: untouched unless the status
   * was modified; a paid bill without a payment time gets `now`, one with a
   * payment time keeps it; a pending bill loses it.
   */
  function PaidAtAfterSave(statusModified: bool, status: Status, paidAt: Option<int>, now: int): (r: Option<int>)
    ensures !statusModified ==> r == paidAt
    ensures statusModified && status == Paid ==> r == (if paidAt.Some? then paidAt else Some(now))
    ensures statusModified && status == Pending ==> r == None
  {
    if !statusModified then paidAt
    else if status == Paid && paidAt.None? then Some(now)
    else if status == Pending then None
    else paidAt
  }

  /** Saving a document whose status was modified re-establishes `status = paid <=> paid_at set`. */
  lemma SaveRestoresPaidInvariant(b: Bill, statusModified: bool, now: int)
    requires statusModified || PaidInvariant(b)
    ensures PaidInvariant(b.(paidAt := PaidAtAfterSave(statusModified, b.status, b.paidAt, now)))
  {
  }

  /** A mongoose document for a bill, with the dirty flags of its `status` path and of the whole document. */
  class BillDocument {
    var data: Bill
    var statusModified: bool
    var modified: bool

    constructor Load(b: Bill)
      ensures data == b && !statusModified && !modified
    {
      data := b;
      statusModified := false;
      modified := false;
    }

    /** `doc.status = s`: the path becomes modified when the value changes. */
    method SetStatus(s: Status)
      modifies this
      ensures data == old(data).(status := s)
      ensures statusModified == (old(statusModified) || s != old(data).status)
      ensures modified == (old(modified) || s != old(data).status)
    {
      statusModified := statusModified || s != data.status;
      modified := modified || s != data.status;
      data := data.(status := s);
    }

    /** The `timestamps: true` step of `save()`: `updatedAt` becomes `now` when some path was modified. */
    method StampUpdatedAt(now: int)
      modifies this
      ensures data == if old(modified) then old(data).(updatedAt := now) else old(data)
      ensures statusModified == old(statusModified) && modified == old(modified)
    {
      if modified {
        data := data.(updatedAt := now);
      }
    }

    /** The `pre('save')` hook. */
    method PreSave(now: int)
      modifies this
      ensures data == old(data).(paidAt := PaidAtAfterSave(old(statusModified), old(data).status, old(data).paidAt, now))
      ensures statusModified == old(statusModified) && modified == old(modified)
    {
      if statusModified {
        if data.status == Paid && data.paidAt.None? {
          data := data.(paidAt := Some(now));
        } else if data.status == Pending {
          data := data.(paidAt := None);
        }
      }
    }
  }

  // ---------------------------------------------------------------------------
  // Totals

  /** `bills.reduce((acc, b) => acc + Number(b.amount), 0)`. */
  function Sum(bs: seq<Bill>): int {
    if bs == [] then 0 else Sum(bs[..|bs| - 1]) + bs[|bs| - 1].amount
  }

  predicate IsPaid(b: Bill) {
    b.status == Paid
  }

  predicate IsPending(b: Bill) {
    b.status == Pending
  }

  /** `bills.filter(b => b.status === 'paid')`. */
  function PaidOnly(bs: seq<Bill>): seq<Bill> {
    Filter(bs, IsPaid)
  }

  function PendingOnly(bs: seq<Bill>): seq<Bill> {
    Filter(bs, IsPending)
  }

  lemma {:induction false} SumAppend(a: seq<Bill>, b: seq<Bill>)
    ensures Sum(a + b) == Sum(a) + Sum(b)
    decreases |b|
  {
    if b == [] {
      assert a + b == a;
    } else {
      assert (a + b)[..|a + b| - 1] == a + b[..|b| - 1];
      SumAppend(a, b[..|b| - 1]);
    }
  }

  /** Filtering a list extended by one bill adds that bill's amount when it passes. */
  lemma SumFilterSnoc(init: seq<Bill>, last: Bill, p: Bill -> bool)
    ensures Sum(Filter(init + [last], p)) == Sum(Filter(init, p)) + (if p(last) then last.amount else 0)
  {
    FilterAppend(init, [last], p);
    var tail := Filter([last], p);
    assert tail == (if p(last) then [last] else []);
    SumAppend(Filter(init, p), tail);
    if p(last) {
      assert Sum(tail) == last.amount by {
        assert tail[..0] == [];
      }
    }
  }

  lemma {:induction false} SumSplitsByStatus(bs: seq<Bill>)
    ensures Sum(bs) == Sum(PaidOnly(bs)) + Sum(PendingOnly(bs))
    decreases |bs|
  {
    if bs != [] {
      var init, last := bs[..|bs| - 1], bs[|bs| - 1];
      assert bs == init + [last];
      SumSplitsByStatus(init);
      SumFilterSnoc(init, last, IsPaid);
      SumFilterSnoc(init, last, IsPending);
    }
  }

  lemma {:induction false} SumNonNegative(bs: seq<Bill>)
    requires forall b :: b in bs ==> b.amount >= 0
    ensures Sum(bs) >= 0
    decreases |bs|
  {
    if bs != [] {
      SumNonNegative(bs[..|bs| - 1]);
    }
  }

  datatype Totals = Totals(total: int, paid: int, pending: int)

  /**
   * The three figures of the dashboard and the reports: everything, the paid
   * part, and the remainder. The remainder is exactly what the pending bills
   * add up to, and with non-negative amounts the paid part never exceeds the
   * total.
   */
  function ComputeTotals(bs: seq<Bill>): (t: Totals)
    ensures t.total == t.paid + t.pending
    ensures t.paid == Sum(PaidOnly(bs)) && t.pending == Sum(PendingOnly(bs))
    ensures bs == [] ==> t == Totals(0, 0, 0)
    ensures (forall i :: 0 <= i < |bs| ==> bs[i].amount >= 0) ==> 0 <= t.paid <= t.total && 0 <= t.pending
  {
    SumSplitsByStatus(bs);
    NonNegativeTotals(bs);
    Totals(Sum(bs), Sum(PaidOnly(bs)), Sum(bs) - Sum(PaidOnly(bs)))
  }

  lemma NonNegativeTotals(bs: seq<Bill>)
    ensures (forall i :: 0 <= i < |bs| ==> bs[i].amount >= 0) ==> Sum(PaidOnly(bs)) >= 0 && Sum(PendingOnly(bs)) >= 0
  {
    if forall i :: 0 <= i < |bs| ==> bs[i].amount >= 0 {
      SumNonNegative(PaidOnly(bs));
      SumNonNegative(PendingOnly(bs));
    }
  }
}
