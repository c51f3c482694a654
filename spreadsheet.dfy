/**
 * The spreadsheet report's data area: the cell each row value lands in and
 * the zebra shading of alternate rows. Styles other than the fill, the
 * header block and the workbook bytes are not modelled.
 */
module Spreadsheet {
  import opened Bills
  import opened ReportRows

  datatype Cell = Text(text: string) | Number(value: int)

  const HeaderRow: int := 9

  /** The eight values of a row, columns A … H: the amount as a number, everything else as text. */
  function CellsOf(r: Row): (cs: seq<Cell>)
    ensures |cs| == 8
  {
    [Text(PtBrDate(r.due)), Text(r.name), Text(r.category), Text(r.status),
     Number(r.amount), Text(r.boleto), Text(r.comprovante), Text(r.pix)]
  }

  /** The values of the data area, one line of eight cells per bill. */
  function Grid(bills: seq<Bill>): (g: seq<seq<Cell>>)
    ensures |g| == |bills|
    ensures forall i :: 0 <= i < |bills| ==> g[i] == CellsOf(RowOf(bills[i]))
  {
    if bills == [] then [] else [CellsOf(RowOf(bills[0]))] + Grid(bills[1..])
  }

  /** Every line of the grid has one value per column. */
  predicate Rectangular(grid: seq<seq<Cell>>) {
    forall i :: 0 <= i < |grid| ==> |grid[i]| == 8
  }

  /** The data area: rows 10 … 9 + n, columns A … H. */
  predicate InDataArea(k: (int, int), n: int) {
    HeaderRow + 1 <= k.0 < HeaderRow + 1 + n && 1 <= k.1 <= 8
  }

  /** The eight cells of one data row, columns A … H. */
  function RowCells(row: int, cs: seq<Cell>): (m: map<(int, int), Cell>)
    requires |cs| == 8
    ensures forall k :: k in m <==> k.0 == row && 1 <= k.1 <= 8
    ensures forall k :: k in m ==> m[k] == cs[k.1 - 1]
  {
    var m := map c | 1 <= c <= 8 :: (row, c) := cs[c - 1];
    assert forall k: (int, int) :: k.0 == row && 1 <= k.1 <= 8 ==> k == (row, k.1) && k in m;
    m
  }

  /** The value that line `k.0 - 10` of the grid puts in column `k.1`. */
  function Expected(grid: seq<seq<Cell>>, k: (int, int)): Cell
    requires Rectangular(grid) && InDataArea(k, |grid|)
  {
    grid[k.0 - HeaderRow - 1][k.1 - 1]
  }

  /**
   * `cells` is `base` with the first `n` lines of the grid written: line `i`
   * in sheet row 10 + i, one value per column, and every other cell as it was.
   */
  ghost predicate RowsWritten(cells: map<(int, int), Cell>, base: map<(int, int), Cell>, grid: seq<seq<Cell>>, n: int)
    requires Rectangular(grid) && 0 <= n <= |grid|
  {
    && (forall k :: InDataArea(k, n) ==> k in cells && cells[k] == Expected(grid, k))
    && (forall k :: k in cells <==> k in base || InDataArea(k, n))
    && (forall k :: k in base && !InDataArea(k, n) ==> cells[k] == base[k])
  }

  /** `shaded` is `base` plus the zebra stripes of the first `n` data rows: the rows at even offsets. */
  ghost predicate StripesAdded(shaded: set<(int, int)>, base: set<(int, int)>, n: int) {
    && (forall k :: InDataArea(k, n) ==> (k in shaded <==> k in base || (k.0 - HeaderRow - 1) % 2 == 0))
    && (forall k :: !InDataArea(k, n) ==> (k in shaded <==> k in base))
  }

  /** Writing line `n` of the grid extends the written area by that line. */
  lemma WriteOneRow(cells: map<(int, int), Cell>, base: map<(int, int), Cell>, grid: seq<seq<Cell>>, n: int)
    requires Rectangular(grid) && 0 <= n < |grid| && RowsWritten(cells, base, grid, n)
    ensures RowsWritten(cells + RowCells(HeaderRow + 1 + n, grid[n]), base, grid, n + 1)
  {
    WrittenArea(cells, grid, n);
    WrittenFrame(cells, base, grid, n);
  }

  lemma WrittenArea(cells: map<(int, int), Cell>, grid: seq<seq<Cell>>, n: int)
    requires Rectangular(grid) && 0 <= n < |grid|
    requires forall k :: InDataArea(k, n) ==> k in cells && cells[k] == Expected(grid, k)
    ensures var next := cells + RowCells(HeaderRow + 1 + n, grid[n]);
            forall k :: InDataArea(k, n + 1) ==> k in next && next[k] == Expected(grid, k)
  {
    var written := RowCells(HeaderRow + 1 + n, grid[n]);
    var next := cells + written;
    forall k | InDataArea(k, n + 1)
      ensures k in next && next[k] == Expected(grid, k)
    {
      if k.0 != HeaderRow + 1 + n {
        assert InDataArea(k, n) && k !in written;
      } else {
        assert k.0 - HeaderRow - 1 == n && k in written;
      }
    }
  }

  lemma WrittenFrame(cells: map<(int, int), Cell>, base: map<(int, int), Cell>, grid: seq<seq<Cell>>, n: int)
    requires Rectangular(grid) && 0 <= n < |grid|
    requires forall k :: k in cells <==> k in base || InDataArea(k, n)
    requires forall k :: k in base && !InDataArea(k, n) ==> cells[k] == base[k]
    ensures var next := cells + RowCells(HeaderRow + 1 + n, grid[n]);
            && (forall k :: k in next <==> k in base || InDataArea(k, n + 1))
            && (forall k :: k in base && !InDataArea(k, n + 1) ==> next[k] == base[k])
  {
    var written := RowCells(HeaderRow + 1 + n, grid[n]);
    var next := cells + written;
    forall k | k in base && !InDataArea(k, n + 1)
      ensures next[k] == base[k]
    {
      assert !InDataArea(k, n) && k !in written;
    }
  }

  /** The cells of one sheet row across A … H. */
  function Stripe(row: int): (s: set<(int, int)>)
    ensures forall k :: k in s <==> k.0 == row && 1 <= k.1 <= 8
  {
    var s := set c | 1 <= c <= 8 :: (row, c);
    assert forall k: (int, int) :: k.0 == row && 1 <= k.1 <= 8 ==> k == (row, k.1) && k in s;
    s
  }

  lemma ShadeOneRow(shaded: set<(int, int)>, base: set<(int, int)>, n: int)
    requires 0 <= n && StripesAdded(shaded, base, n)
    ensures StripesAdded(if n % 2 == 0 then shaded + Stripe(HeaderRow + 1 + n) else shaded, base, n + 1)
  {
    var stripe := Stripe(HeaderRow + 1 + n);
    var next := if n % 2 == 0 then shaded + stripe else shaded;
    forall k | InDataArea(k, n + 1)
      ensures k in next <==> k in base || (k.0 - HeaderRow - 1) % 2 == 0
    {
      if k.0 != HeaderRow + 1 + n {
        assert InDataArea(k, n) && k !in stripe;
      }
    }
    forall k | !InDataArea(k, n + 1)
      ensures k in next <==> k in base
    {
      assert !InDataArea(k, n) && k !in stripe;
    }
  }

  /** The worksheet's cell values and the cells filled with the zebra background. */
  class Worksheet {
    var cells: map<(int, int), Cell>
    var shaded: set<(int, int)>

    constructor ()
      ensures cells == map[] && shaded == {}
    {
      cells := map[];
      shaded := {};
    }

    /**
     * The data rows: bill `i` goes to row 10 + i, one cell per column, and
     * every other row, starting with the first, is shaded across A … H.
     * Nothing outside the data area changes.
     */
    method WriteBillRows(bills: seq<Bill>)
      modifies this
      ensures RowsWritten(cells, old(cells), Grid(bills), |bills|)
      ensures StripesAdded(shaded, old(shaded), |bills|)
    {
      ghost var grid := Grid(bills);
      var index := 0;
      while index < |bills|
        invariant 0 <= index <= |bills|
        invariant RowsWritten(cells, old(cells), grid, index)
        invariant StripesAdded(shaded, old(shaded), index)
      {
        ghost var before, beforeShaded := cells, shaded;
        assert grid[index] == CellsOf(RowOf(bills[index]));
        WriteRow(bills[index], index);
        WriteOneRow(before, old(cells), grid, index);
        ShadeOneRow(beforeShaded, old(shaded), index);
        index := index + 1;
      }
    }

    /** Data row `n` (sheet row 10 + n): its eight values, and the zebra fill when `n` is even. */
    method WriteRow(bill: Bill, n: int)
      modifies this
      ensures cells == old(cells) + RowCells(HeaderRow + 1 + n, CellsOf(RowOf(bill)))
      ensures shaded == if n % 2 == 0 then old(shaded) + Stripe(HeaderRow + 1 + n) else old(shaded)
    {
      var row := HeaderRow + 1 + n;
      cells := cells + RowCells(row, CellsOf(RowOf(bill)));
      if n % 2 == 0 {
        ShadeRow(row);
      }
    }

    /** The zebra fill of one row, cell by cell across A … H. */
    method ShadeRow(row: int)
      modifies this
      ensures shaded == old(shaded) + Stripe(row)
      ensures cells == old(cells)
    {
      var col := 1;
      while col <= 8
        invariant 1 <= col <= 9
        invariant cells == old(cells)
        invariant forall k: (int, int) :: k in shaded <==> k in old(shaded) || (k.0 == row && 1 <= k.1 < col)
      {
        shaded := shaded + {(row, col)};
        col := col + 1;
      }
    }
  }
}
