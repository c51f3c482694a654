/**
 * The rows of the monthly report: the projection of one bill onto the
 * columns every format prints, and the money the rows carry.
 */
module ReportRows {
  import opened Wrappers
  import opened Calendar
  import opened Bills

  /**
   * One line of the report, as every format prints it. The due date is kept
   * as a date; every writer prints it as `PtBrDate` does.
   */
  datatype Row = Row(due: Date, name: string, category: string, status: string, amount: int,
                     boleto: string, comprovante: string, pix: string)

  function YesNo(present: bool): string {
    if present then "Sim" else "N\U{00E3}o"
  }

  /** The projection of one bill onto a report row. */
  function RowOf(b: Bill): Row {
    Row(b.due, b.name,
        if Truthy(b.category) then b.category.value else "Sem categoria",
        if b.status == Paid then "Pago" else "Pendente",
        b.amount, YesNo(Truthy(b.boletoFile)), YesNo(Truthy(b.comprovanteFile)), YesNo(Truthy(b.pixInfo)))
  }

  /** `bills.map(...)` of the CSV writer: one row per bill, in order. */
  function Rows(bills: seq<Bill>): (r: seq<Row>)
    ensures |r| == |bills|
    ensures forall i :: 0 <= i < |bills| ==> r[i] == RowOf(bills[i])
  {
    if bills == [] then [] else [RowOf(bills[0])] + Rows(bills[1..])
  }

  function RowTotal(rows: seq<Row>): int {
    if rows == [] then 0 else RowTotal(rows[..|rows| - 1]) + rows[|rows| - 1].amount
  }

  /** The rows carry the same money as the bills: their amounts add up to the report's total. */
  lemma RowsCarryTotal(bills: seq<Bill>)
    ensures RowTotal(Rows(bills)) == ComputeTotals(bills).total
  {
    RowsCarrySum(bills);
  }

  lemma {:induction false} RowsCarrySum(bills: seq<Bill>)
    ensures RowTotal(Rows(bills)) == Sum(bills)
    decreases |bills|
  {
    if bills != [] {
      var init := bills[..|bills| - 1];
      RowsCarrySum(init);
      var rows := Rows(bills);
      assert rows[..|rows| - 1] == Rows(init);
      assert rows[|rows| - 1].amount == bills[|bills| - 1].amount;
    }
  }
}
