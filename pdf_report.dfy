/**
 * The PDF report's layout: the page height, the category legend grid and the
 * table lines with their baselines and background colours. The drawing
 * itself is not modelled.
 */
module PdfReport {
  import opened Wrappers
  import opened Bills
  import opened Categories

  /** The custom page height: room for the header, the table header, 18 points per bill and the footer, at least 595. */
  function PageHeight(n: nat): (h: int)
    ensures h >= 595 && h >= 120 + 45 + 18 * n + 50 + 50
    ensures h == 595 || h == 120 + 45 + 18 * n + 50 + 50
  {
    var content := 120 + 45 + n * 18 + 50;
    if 595 >= content + 50 then 595 else content + 50
  }

  /** The page keeps the A4-landscape height up to 18 bills and grows by 18 points per bill from the twentieth on. */
  lemma PageHeightSteps(n: nat)
    ensures PageHeight(n) == 595 <==> n <= 18
    ensures n >= 19 ==> PageHeight(n + 1) == PageHeight(n) + 18
  {
  }

  /** `[...new Set(bills.map(b => b.category).filter(Boolean))]`: each truthy category once, in order of first use. */
  function LegendCategories(bills: seq<Bill>): (r: seq<string>)
    ensures forall i, j :: 0 <= i < j < |r| ==> r[i] != r[j]
    ensures forall i :: 0 <= i < |r| ==> r[i] != "" && exists k :: 0 <= k < |bills| && bills[k].category == Some(r[i])
    ensures forall k :: 0 <= k < |bills| && Truthy(bills[k].category) ==> bills[k].category.value in r
  {
    if bills == [] then []
    else
      var init := bills[..|bills| - 1];
      var prev := LegendCategories(init);
      var c := bills[|bills| - 1].category;
      forall i | 0 <= i < |prev|
        ensures exists k :: 0 <= k < |bills| && bills[k].category == Some(prev[i])
      {
        var k :| 0 <= k < |init| && init[k].category == Some(prev[i]);
        assert bills[k] == init[k];
      }
      forall k | 0 <= k < |init| && Truthy(bills[k].category)
        ensures bills[k].category.value in prev
      {
        assert bills[k] == init[k];
      }
      var r := if Truthy(c) && c.value !in prev then prev + [c.value] else prev;
      assert Truthy(c) ==> c.value in r;
      assert forall i :: 0 <= i < |prev| ==> r[i] == prev[i];
      r
  }

  /** The index of the first bill whose category is `c`, or `|bills|` when there is none. */
  function FirstUse(bills: seq<Bill>, c: string): (k: nat)
    ensures k <= |bills|
    ensures k < |bills| ==> bills[k].category == Some(c)
    ensures forall j :: 0 <= j < k ==> bills[j].category != Some(c)
  {
    if bills == [] then 0
    else if bills[0].category == Some(c) then 0
    else 1 + FirstUse(bills[1..], c)
  }

  /** Appending a bill does not move the first use of a category already used. */
  lemma FirstUseSnoc(bills: seq<Bill>, b: Bill, c: string)
    requires FirstUse(bills, c) < |bills|
    ensures FirstUse(bills + [b], c) == FirstUse(bills, c)
  {
    var k, s := FirstUse(bills, c), bills + [b];
    assert s[k] == bills[k];
  }

  /** A category no earlier bill used is first used by the appended bill. */
  lemma FirstUseNew(bills: seq<Bill>, b: Bill, c: string)
    requires forall j :: 0 <= j < |bills| ==> bills[j].category != Some(c)
    requires b.category == Some(c)
    ensures FirstUse(bills + [b], c) == |bills|
  {
    var s := bills + [b];
    var m := FirstUse(s, c);
    assert s[|bills|].category == Some(c);
  }

  /** Every name of `r` is used by some bill, and the names appear in the order of their first use. */
  predicate InFirstUseOrder(bills: seq<Bill>, r: seq<string>) {
    && (forall i :: 0 <= i < |r| ==> FirstUse(bills, r[i]) < |bills|)
    && (forall i, j :: 0 <= i < j < |r| ==> FirstUse(bills, r[i]) < FirstUse(bills, r[j]))
  }

  /** Appending a bill keeps the order, and a name it brings in is used last. */
  lemma FirstUseOrderSnoc(bills: seq<Bill>, b: Bill, r: seq<string>, c: string)
    requires InFirstUseOrder(bills, r) && c !in r
    requires forall j :: 0 <= j < |bills| ==> bills[j].category != Some(c)
    requires b.category == Some(c)
    ensures InFirstUseOrder(bills + [b], r) && InFirstUseOrder(bills + [b], r + [c])
  {
    forall i | 0 <= i < |r|
      ensures FirstUse(bills + [b], r[i]) == FirstUse(bills, r[i])
    {
      FirstUseSnoc(bills, b, r[i]);
    }
    FirstUseNew(bills, b, c);
    var r' := r + [c];
    forall i | 0 <= i < |r'|
      ensures FirstUse(bills + [b], r'[i]) < |bills| + 1
    {
      if i < |r| {
        assert r'[i] == r[i];
      }
    }
    forall i, j | 0 <= i < j < |r'|
      ensures FirstUse(bills + [b], r'[i]) < FirstUse(bills + [b], r'[j])
    {
      assert r'[i] == r[i];
      if j < |r| {
        assert r'[j] == r[j];
      }
    }
  }

  /** Appending a bill that brings no new name keeps the order. */
  lemma FirstUseOrderKeep(bills: seq<Bill>, b: Bill, r: seq<string>)
    requires InFirstUseOrder(bills, r)
    ensures InFirstUseOrder(bills + [b], r)
  {
    forall i | 0 <= i < |r|
      ensures FirstUse(bills + [b], r[i]) == FirstUse(bills, r[i])
    {
      FirstUseSnoc(bills, b, r[i]);
    }
  }

  /** The legend lists the categories in the order in which the bills first use them. */
  lemma {:induction false} LegendInFirstUseOrder(bills: seq<Bill>)
    ensures InFirstUseOrder(bills, LegendCategories(bills))
  {
    if bills != [] {
      var init, last := bills[..|bills| - 1], bills[|bills| - 1];
      assert bills == init + [last];
      LegendInFirstUseOrder(init);
      var prev := LegendCategories(init);
      if Truthy(last.category) && last.category.value !in prev {
        var c := last.category.value;
        assert forall j :: 0 <= j < |init| ==> init[j].category != Some(c);
        FirstUseOrderSnoc(init, last, prev, c);
      } else {
        FirstUseOrderKeep(init, last, prev);
      }
    }
  }

  /** `cat.color || '#3b82f6'`: a category's colour, or the default blue when it has none. */
  function ShownColor(c: Category): string {
    if c.color != "" then c.color else "#3b82f6"
  }

  /** No category after position `i` has the name of the one at `i`. */
  predicate LastOfName(categories: seq<Category>, i: int)
    requires 0 <= i < |categories|
  {
    forall j :: i < j < |categories| ==> categories[j].name != categories[i].name
  }

  /**
   * `categoryColors`: each of the user's category names with its colour, or
   * the default blue; when two categories share a name, the later one's
   * colour is kept.
   */
  function CategoryColors(categories: seq<Category>): (colors: map<string, string>)
    ensures forall i :: 0 <= i < |categories| ==> categories[i].name in colors
    ensures forall name :: name in colors ==> exists i :: 0 <= i < |categories| && categories[i].name == name
  {
    if categories == [] then map[]
    else
      var init := categories[..|categories| - 1];
      var last := categories[|categories| - 1];
      var prev := CategoryColors(init);
      forall name | name in prev
        ensures exists i :: 0 <= i < |categories| && categories[i].name == name
      {
        var i :| 0 <= i < |init| && init[i].name == name;
        assert categories[i] == init[i];
      }
      prev[last.name := ShownColor(last)]
  }

  /** A category that is the last of its name in front of a further one is still the last of its name without it. */
  lemma LastOfNameInit(categories: seq<Category>, i: int)
    requires 0 <= i < |categories| - 1 && LastOfName(categories, i)
    ensures LastOfName(categories[..|categories| - 1], i)
    ensures categories[i].name != categories[|categories| - 1].name
  {
    var init := categories[..|categories| - 1];
    forall j | i < j < |init|
      ensures init[j].name != init[i].name
    {
      assert categories[j] == init[j];
    }
  }

  /** Each name's colour is the shown colour of the last category with that name. */
  lemma {:induction false} CategoryColorsOfLast(categories: seq<Category>, i: int)
    requires 0 <= i < |categories| && LastOfName(categories, i)
    ensures CategoryColors(categories)[categories[i].name] == ShownColor(categories[i])
  {
    var init, last := categories[..|categories| - 1], categories[|categories| - 1];
    assert CategoryColors(categories) == CategoryColors(init)[last.name := ShownColor(last)];
    if i < |categories| - 1 {
      LastOfNameInit(categories, i);
      assert init[i] == categories[i];
      CategoryColorsOfLast(init, i);
    }
  }

  /** `colors[key] || fallback`. */
  function ColorOr(colors: map<string, string>, key: string, fallback: string): string {
    if key in colors && colors[key] != "" then colors[key] else fallback
  }

  datatype LegendEntry = LegendEntry(name: string, color: string, x: int, y: int)

  /**
   * The legend loop: four swatches per line, 120 points apart from x = 30,
   * lines 18 points apart from `legendY`.
   */
  method LayLegend(names: seq<string>, colors: map<string, string>, legendY: int) returns (entries: seq<LegendEntry>)
    ensures |entries| == |names|
    ensures forall i :: 0 <= i < |names| ==>
              entries[i] == LegendEntry(names[i], ColorOr(colors, names[i], "#9ca3af"), 30 + 120 * (i % 4), legendY + 18 * (i / 4))
  {
    var legendX := 30;
    var legendRow := 0;
    entries := [];
    var idx := 0;
    while idx < |names|
      invariant 0 <= idx <= |names| && |entries| == idx
      invariant idx == 0 ==> legendX == 30 && legendRow == 0
      invariant idx > 0 ==> legendX == 30 + 120 * ((idx - 1) % 4) + 120 && legendRow == (idx - 1) / 4
      invariant forall i :: 0 <= i < idx ==>
                  entries[i] == LegendEntry(names[i], ColorOr(colors, names[i], "#9ca3af"), 30 + 120 * (i % 4), legendY + 18 * (i / 4))
    {
      if idx > 0 && idx % 4 == 0 {
        legendRow := legendRow + 1;
        legendX := 30;
      }
      GridStep(idx);
      var color := ColorOr(colors, names[idx], "#9ca3af");
      var yPos := legendY + legendRow * 18;
      entries := entries + [LegendEntry(names[idx], color, legendX, yPos)];
      legendX := legendX + 120;
      idx := idx + 1;
    }
  }

  /** How the column and the line of slot `i` follow from those of slot `i - 1`. */
  lemma GridStep(i: int)
    requires i >= 0
    ensures i > 0 && i % 4 == 0 ==> i / 4 == (i - 1) / 4 + 1
    ensures i > 0 && i % 4 != 0 ==> i / 4 == (i - 1) / 4 && i % 4 == (i - 1) % 4 + 1
  {
  }

  /** One table line of the PDF: its baseline, the bill whose row (`RowOf`) it prints, and the background colour of its category. */
  datatype PdfLine = PdfLine(y: int, bill: Bill, background: string)

  /** The key `categoryColors[bill.category]` looks up: a missing category reads as "null". */
  function ColorKey(category: Option<string>): string {
    if category.Some? then category.value else "null"
  }

  /** The line of one bill at baseline `y`, on the background of its category's colour. */
  function TableLine(b: Bill, colors: map<string, string>, y: int): PdfLine {
    PdfLine(y, b, ColorOr(colors, ColorKey(b.category), "#f3f4f6"))
  }

  /** The table lines of `bills` when the first baseline is `top`: 18 points further down per bill. */
  function TableLines(bills: seq<Bill>, colors: map<string, string>, top: int): (lines: seq<PdfLine>)
    ensures |lines| == |bills|
  {
    if bills == [] then []
    else
      var n := |bills| - 1;
      TableLines(bills[..n], colors, top) + [TableLine(bills[n], colors, top + 18 * n)]
  }

  /** Line `i` of the table is bill `i`'s, `18 * i` points below the first baseline. */
  lemma {:induction false} TableLinesAt(bills: seq<Bill>, colors: map<string, string>, top: int)
    ensures forall i :: 0 <= i < |bills| ==> TableLines(bills, colors, top)[i] == TableLine(bills[i], colors, top + 18 * i)
    decreases |bills|
  {
    if bills != [] {
      var n := |bills| - 1;
      TableLinesAt(bills[..n], colors, top);
      forall i | 0 <= i < n
        ensures TableLines(bills, colors, top)[i] == TableLine(bills[i], colors, top + 18 * i)
      {
        assert bills[..n][i] == bills[i];
      }
    }
  }

  lemma TableLinesSnoc(bills: seq<Bill>, colors: map<string, string>, top: int, i: int)
    requires 0 <= i < |bills|
    ensures TableLines(bills[..i + 1], colors, top) == TableLines(bills[..i], colors, top) + [TableLine(bills[i], colors, top + 18 * i)]
  {
    assert bills[..i + 1][..i] == bills[..i];
  }

  /** The table loop: bill `i` is drawn 18 points below bill `i - 1`, starting 20 below the table header. */
  method LayTable(bills: seq<Bill>, colors: map<string, string>, tableTop: int) returns (lines: seq<PdfLine>)
    ensures lines == TableLines(bills, colors, tableTop + 20)
  {
    var currentY := tableTop + 20;
    lines := [];
    var index := 0;
    while index < |bills|
      invariant 0 <= index <= |bills|
      invariant currentY == tableTop + 20 + 18 * index
      invariant lines == TableLines(bills[..index], colors, tableTop + 20)
    {
      TableLinesSnoc(bills, colors, tableTop + 20, index);
      lines := lines + [TableLine(bills[index], colors, currentY)];
      currentY := currentY + 18;
      index := index + 1;
    }
    assert bills[..index] == bills;
  }

  datatype PdfLayout = PdfLayout(height: int, legend: seq<LegendEntry>, lines: seq<PdfLine>)

  /**
   * The layout of the PDF report. `legendY` and `tableTop` are where the text
   * flow of the document has reached when the legend and the table start.
   * The legend and the table are drawn only when there is at least one bill.
   */
  method LayOutPdf(bills: seq<Bill>, categories: seq<Category>, legendY: int, tableTop: int) returns (layout: PdfLayout)
    ensures layout.height == PageHeight(|bills|)
    ensures bills == [] ==> layout.legend == [] && layout.lines == []
    ensures bills != [] ==> |layout.legend| == |LegendCategories(bills)| && |layout.lines| == |bills|
    ensures forall i :: 0 <= i < |layout.legend| ==>
              layout.legend[i].name == LegendCategories(bills)[i]
              && layout.legend[i].x == 30 + 120 * (i % 4) && layout.legend[i].y == legendY + 18 * (i / 4)
    ensures forall i :: 0 <= i < |layout.lines| ==>
              layout.lines[i] == TableLine(bills[i], CategoryColors(categories), tableTop + 20 + 18 * i)
  {
    var colors := CategoryColors(categories);
    var legend: seq<LegendEntry> := [];
    var lines: seq<PdfLine> := [];
    if |bills| > 0 {
      legend := LayLegend(LegendCategories(bills), colors, legendY);
      lines := LayTable(bills, colors, tableTop);
      TableLinesAt(bills, colors, tableTop + 20);
    }
    layout := PdfLayout(PageHeight(|bills|), legend, lines);
  }
}
