/**
 * Recurring bills on the client: one bill per month from a start date to an
 * end date, stepping the due date with `setMonth(getMonth() + 1)`, and the
 * count the form previews before the bills are created.
 */
module Recurrence {
  import opened Wrappers
  import opened Calendar

  /** A month counted from year 0: `year * 12 + getMonth()`. */
  function MonthIndex(d: Date): int {
    d.year * 12 + d.month - 1
  }

  /** On valid dates, calendar order is month order, then day order within the month. */
  lemma BeforeByMonth(a: Date, b: Date)
    requires Valid(a) && Valid(b)
    ensures Before(a, b) <==> MonthIndex(a) < MonthIndex(b) || (MonthIndex(a) == MonthIndex(b) && a.day < b.day)
  {
    if a.year < b.year {
      assert a.year * 12 + 12 <= b.year * 12;
    } else if b.year < a.year {
      assert b.year * 12 + 12 <= a.year * 12;
    }
  }

  /** One step of the loop lands in the next month, or in the month after when the day overflows. */
  lemma StepMonthIndex(d: Date)
    requires Valid(d)
    ensures MonthIndex(StepMonth(d)) == MonthIndex(d) + 1 || MonthIndex(StepMonth(d)) == MonthIndex(d) + 2
    ensures d.day <= 28 ==> MonthIndex(StepMonth(d)) == MonthIndex(d) + 1 && StepMonth(d).day == d.day
  {
  }

  /**
   * The due dates the loop emits from `d`: `d` itself while it is not after
   * `end`, then the dates after one `setMonth` step.
   */
  function Schedule(d: Date, end: Date): (r: seq<Date>)
    requires Valid(d) && Valid(end)
    ensures r == [] <==> Before(end, d)
    ensures forall i :: 0 <= i < |r| ==> Valid(r[i]) && !Before(end, r[i])
    decreases MonthIndex(end) - MonthIndex(d)
  {
    if Before(end, d) then []
    else
      BeforeByMonth(end, d);
      StepMonthIndex(d);
      [d] + Schedule(StepMonth(d), end)
  }

  /** The first emitted date is the start, and each later one is the previous one stepped by a month. */
  lemma {:induction false} ScheduleSteps(d: Date, end: Date)
    requires Valid(d) && Valid(end)
    ensures var r := Schedule(d, end);
            (r != [] ==> r[0] == d) && forall i :: 0 < i < |r| ==> r[i] == StepMonth(r[i - 1])
    decreases MonthIndex(end) - MonthIndex(d)
  {
    if !Before(end, d) {
      BeforeByMonth(end, d);
      StepMonthIndex(d);
      var rest := Schedule(StepMonth(d), end);
      ScheduleSteps(StepMonth(d), end);
      assert Schedule(d, end) == [d] + rest;
    }
  }

  /** The emitted dates strictly increase. */
  lemma {:induction false} ScheduleIncreasing(d: Date, end: Date)
    requires Valid(d) && Valid(end)
    ensures var r := Schedule(d, end);
            forall i, j :: 0 <= i < j < |r| ==> Before(r[i], r[j])
    decreases MonthIndex(end) - MonthIndex(d)
  {
    if !Before(end, d) {
      BeforeByMonth(end, d);
      StepMonthIndex(d);
      var next := StepMonth(d);
      BeforeByMonth(d, next);
      var rest := Schedule(next, end);
      ScheduleIncreasing(next, end);
      var r := Schedule(d, end);
      assert r == [d] + rest;
      ScheduleSteps(next, end);
      assert Before(d, next);
      forall i, j | 0 <= i < j < |r|
        ensures Before(r[i], r[j])
      {
        assert r[j] == rest[j - 1];
        if i == 0 {
          assert rest[0] == next;
          assert j > 1 ==> Before(rest[0], rest[j - 1]);
        } else {
          assert r[i] == rest[i - 1];
        }
      }
    }
  }

  /** What the form reports after `addNewBill`. */
  datatype Outcome =
    | StartAfterEnd              // 'Data inicial deve ser anterior à data final': nothing is sent
    | Created(dues: seq<Date>)   // every POST succeeded: one bill per due date, all added to the list
    | Failed(stored: seq<Date>)  // a POST failed: the bills before it stay stored, none is added to the list

  /**
   * The recurring branch of `addNewBill`. `failAt` is the number of the POST
   * that the server rejects, if any; the loop posts one bill per month while
   * the current date is not after the end date.
   */
  method AddRecurring(start: Date, end: Date, failAt: Option<nat>) returns (o: Outcome)
    requires Valid(start) && Valid(end)
    ensures Before(end, start) <==> o == StartAfterEnd
    ensures !Before(end, start) ==>
              var all := Schedule(start, end);
              if failAt.Some? && failAt.value < |all| then o == Failed(all[..failAt.value])
              else o == Created(all)
    ensures o.Created? && start.day <= 28 ==> |o.dues| == MonthsCovered(start, end)
  {
    if Before(end, start) {
      return StartAfterEnd;
    }
    var newBills: seq<Date> := [];
    var current := start;
    while !Before(end, current)
      invariant Valid(current)
      invariant newBills + Schedule(current, end) == Schedule(start, end)
      invariant failAt.Some? ==> |newBills| <= failAt.value
      decreases MonthIndex(end) - MonthIndex(current)
    {
      if failAt == Some(|newBills|) {
        assert Schedule(start, end)[..|newBills|] == newBills;
        return Failed(newBills);
      }
      BeforeByMonth(end, current);
      StepMonthIndex(current);
      assert Schedule(current, end) == [current] + Schedule(StepMonth(current), end);
      newBills := newBills + [current];
      current := StepMonth(current);
    }
    assert newBills == Schedule(start, end);
    if start.day <= 28 {
      MonthsCoveredCounts(start, end);
    }
    return Created(newBills);
  }

  /** The preview: `(ey − sy) · 12 + (em − sm) + 1`. */
  function PreviewCount(start: Date, end: Date): int {
    (end.year - start.year) * 12 + (end.month - start.month) + 1
  }

  /**
   * The loop never creates more bills than the preview announces: each step
   * advances at least one month and no emitted date is after the end.
   */
  lemma {:induction false} PreviewIsAnUpperBound(d: Date, end: Date)
    requires Valid(d) && Valid(end) && !Before(end, d)
    ensures |Schedule(d, end)| <= PreviewCount(d, end)
    decreases MonthIndex(end) - MonthIndex(d)
  {
    BeforeByMonth(end, d);
    var next := StepMonth(d);
    StepMonthIndex(d);
    if !Before(end, next) {
      PreviewIsAnUpperBound(next, end);
    }
    assert Schedule(d, end) == [d] + Schedule(next, end);
  }

  /** The months the period really covers: the last month counts only when its day is reached. */
  function MonthsCovered(start: Date, end: Date): int {
    MonthIndex(end) - MonthIndex(start) + (if start.day <= end.day then 1 else 0)
  }

  /** Without day overflow (start day 1 … 28) the loop creates exactly `MonthsCovered` bills. */
  lemma {:induction false} MonthsCoveredCounts(d: Date, end: Date)
    requires Valid(d) && Valid(end) && !Before(end, d) && d.day <= 28
    ensures |Schedule(d, end)| == MonthsCovered(d, end)
    decreases MonthIndex(end) - MonthIndex(d)
  {
    BeforeByMonth(end, d);
    var next := StepMonth(d);
    StepMonthIndex(d);
    BeforeByMonth(end, next);
    if !Before(end, next) {
      MonthsCoveredCounts(next, end);
    }
    assert Schedule(d, end) == [d] + Schedule(next, end);
  }

  /** When the start day is reached in the end month and never overflows, the preview is right. */
  lemma PreviewMatchesWithoutOverflow(start: Date, end: Date)
    requires Valid(start) && Valid(end) && !Before(end, start)
    requires start.day <= 28 && start.day <= end.day
    ensures |Schedule(start, end)| == PreviewCount(start, end)
  {
    MonthsCoveredCounts(start, end);
  }

  /** 15 January to 10 April 2023: the preview announces 4 bills, the loop creates 3. */
  lemma PreviewOvercountsShortEnd()
    ensures var start, end := Date(2023, 1, 15), Date(2023, 4, 10);
            PreviewCount(start, end) == 4 && |Schedule(start, end)| == 3
  {
    MonthsCoveredCounts(Date(2023, 1, 15), Date(2023, 4, 10));
  }

  /** 31 January to 31 March 2023: the loop steps to 3 March, skipping February; 3 announced, 2 created. */
  lemma PreviewOvercountsOverflow()
    ensures var start, end := Date(2023, 1, 31), Date(2023, 3, 31);
            PreviewCount(start, end) == 3 && Schedule(start, end) == [start, Date(2023, 3, 3)]
  {
    var start, end := Date(2023, 1, 31), Date(2023, 3, 31);
    var march := Date(2023, 3, 3);
    assert StepMonth(start) == march;
    assert StepMonth(march) == Date(2023, 4, 3);
    assert Schedule(march, end) == [march] + Schedule(Date(2023, 4, 3), end);
  }
}
