// The Excel export of a document's results: the worksheet is a map from
// (row, column) to cell value that the service's methods fill in, section by
// section. Fonts, fills, borders and merged cells are not modelled; dates
// arrive already formatted and the one-decimal rendering of the review
// percentage is a parameter.

module Excel {
  import opened Wrappers
  import opened Strings
  import opened Sorting

  /** A page result as the report reads it, with the review flag of each
      brand. */
  datatype ReportResult = ReportResult(pageNumber: int, brandsDetected: seq<string>, brandsReviewStatus: map<string, bool>)

  datatype ReportDocument = ReportDocument(filename: string, totalPages: int, status: string, results: seq<ReportResult>)

  datatype Cell = Text(text: string) | Number(n: int)

  /** `str(cell.value)`; an empty cell has the value `None`. */
  function Str(c: Option<Cell>): string {
    match c
    case None => "None"
    case Some(Text(t)) => t
    case Some(Number(n)) => IntToString(n)
  }

  function Max(a: int, b: int): int { if a >= b then a else b }

  // ---------------------------------------------------------------------
  // Writing cells

  /** Writes `values[j]` in column `j + 1` of row `r`. */
  function PutRow(m: map<(int, int), Cell>, r: int, values: seq<Cell>): map<(int, int), Cell>
    decreases |values|
  {
    if values == [] then m
    else PutRow(m, r, values[..|values| - 1])[(r, |values|) := values[|values| - 1]]
  }

  lemma {:induction false} PutRowCell(m: map<(int, int), Cell>, r: int, values: seq<Cell>, j: int)
    requires 0 <= j < |values|
    ensures (r, j + 1) in PutRow(m, r, values) && PutRow(m, r, values)[(r, j + 1)] == values[j]
    decreases |values|
  {
    var init := values[..|values| - 1];
    if j < |values| - 1 {
      PutRowCell(m, r, init, j);
      assert (r, j + 1) != (r, |values|);
    }
  }

  lemma {:induction false} PutRowFrame(m: map<(int, int), Cell>, r: int, values: seq<Cell>, key: (int, int))
    requires key.0 != r
    ensures key in PutRow(m, r, values) <==> key in m
    ensures key in m ==> PutRow(m, r, values)[key] == m[key]
    decreases |values|
  {
    if values != [] {
      PutRowFrame(m, r, values[..|values| - 1], key);
    }
  }

  /** Writes `rows[k]` in row `first + k`. */
  function PutRows(m: map<(int, int), Cell>, first: int, rows: seq<seq<Cell>>): map<(int, int), Cell>
    decreases |rows|
  {
    if rows == [] then m
    else PutRow(PutRows(m, first, rows[..|rows| - 1]), first + |rows| - 1, rows[|rows| - 1])
  }

  /** Each value lands in its row and column ... */
  lemma {:induction false} PutRowsCell(m: map<(int, int), Cell>, first: int, rows: seq<seq<Cell>>, k: int, j: int)
    requires 0 <= k < |rows| && 0 <= j < |rows[k]|
    ensures (first + k, j + 1) in PutRows(m, first, rows) && PutRows(m, first, rows)[(first + k, j + 1)] == rows[k][j]
    decreases |rows|
  {
    var init := rows[..|rows| - 1];
    if k < |rows| - 1 {
      PutRowsCell(m, first, init, k, j);
      PutRowFrame(PutRows(m, first, init), first + |rows| - 1, rows[|rows| - 1], (first + k, j + 1));
    } else {
      PutRowCell(PutRows(m, first, init), first + k, rows[k], j);
    }
  }

  /** ... and rows outside the block keep their cells. */
  lemma {:induction false} PutRowsFrame(m: map<(int, int), Cell>, first: int, rows: seq<seq<Cell>>, key: (int, int))
    requires !(first <= key.0 < first + |rows|)
    ensures key in PutRows(m, first, rows) <==> key in m
    ensures key in m ==> PutRows(m, first, rows)[key] == m[key]
    decreases |rows|
  {
    if rows != [] {
      var init := rows[..|rows| - 1];
      PutRowsFrame(m, first, init, key);
      PutRowFrame(PutRows(m, first, init), first + |rows| - 1, rows[|rows| - 1], key);
    }
  }

  // ---------------------------------------------------------------------
  // The results table

  /** A brand counts as reviewed only when its flag is present and true. */
  function Reviewed(r: ReportResult, brand: string): bool {
    brand in r.brandsReviewStatus && r.brandsReviewStatus[brand]
  }

  function ReviewLabel(reviewed: bool): (shown: string)
    ensures shown == "Revisado" <==> reviewed
    ensures !reviewed ==> shown == "Por Revisar"
  {
    if reviewed then "Revisado" else "Por Revisar"
  }

  datatype Row = Row(page: int, brand: string, review: string)

  /** One row per brand of a page, brands in ascending order. */
  function PageRows(r: ReportResult): (rows: seq<Row>)
    ensures |rows| == |r.brandsDetected|
    ensures forall k :: 0 <= k < |rows| ==> rows[k].page == r.pageNumber && rows[k].brand == SortStrings(r.brandsDetected)[k]
    ensures forall k :: 0 <= k < |rows| ==> rows[k].review == ReviewLabel(Reviewed(r, rows[k].brand))
  {
    var brands := SortStrings(r.brandsDetected);
    seq(|brands|, k requires 0 <= k < |brands| => Row(r.pageNumber, brands[k], ReviewLabel(Reviewed(r, brands[k]))))
  }

  /** Within a page the brands are in ascending order, and every detected
      brand has its row, duplicates included. */
  lemma PageRowsSorted(r: ReportResult)
    ensures forall i, j :: 0 <= i < j < |PageRows(r)| ==> StrLeq(PageRows(r)[i].brand, PageRows(r)[j].brand)
    ensures multiset(seq(|PageRows(r)|, k requires 0 <= k < |PageRows(r)| => PageRows(r)[k].brand)) == multiset(r.brandsDetected)
  {
    SortStringsSorted(r.brandsDetected);
    var brands := seq(|PageRows(r)|, k requires 0 <= k < |PageRows(r)| => PageRows(r)[k].brand);
    assert brands == SortStrings(r.brandsDetected);
  }

  /** The rows of the results in the order given. */
  function RowsOf(results: seq<ReportResult>): seq<Row> {
    if results == [] then []
    else RowsOf(results[..|results| - 1]) + PageRows(results[|results| - 1])
  }

  function PageOf(r: ReportResult): int { r.pageNumber }

  /** The table's rows: results by page number, brands by name. */
  function Rows(results: seq<ReportResult>): seq<Row> {
    RowsOf(SortBy(results, PageOf))
  }

  function BrandCount(r: ReportResult): nat { |r.brandsDetected| }

  lemma {:induction false} RowsOfLength(results: seq<ReportResult>)
    ensures |RowsOf(results)| == SumBy(results, BrandCount)
  {
    if results != [] {
      var init := results[..|results| - 1];
      var last := results[|results| - 1];
      assert init + [last] == results;
      assert RowsOf(results) == RowsOf(init) + PageRows(last);
      RowsOfLength(init);
      SumByAppend(init, last, BrandCount);
    }
  }

  /** Every row comes from one of the results. */
  lemma {:induction false} RowSource(results: seq<ReportResult>, k: int) returns (m: int)
    requires 0 <= k < |RowsOf(results)|
    ensures 0 <= m < |results| && RowsOf(results)[k].page == results[m].pageNumber
  {
    var init := results[..|results| - 1];
    if k < |RowsOf(init)| {
      m := RowSource(init, k);
      assert results[m] == init[m];
    } else {
      m := |results| - 1;
    }
  }

  lemma {:induction false} RowsOfOrdered(results: seq<ReportResult>)
    requires SortedBy(results, PageOf)
    ensures forall i, j :: 0 <= i < j < |RowsOf(results)| ==> RowsOf(results)[i].page <= RowsOf(results)[j].page
  {
    if results != [] {
      var init := results[..|results| - 1];
      var last := results[|results| - 1];
      assert SortedBy(init, PageOf) by {
        forall i, j | 0 <= i < j < |init| ensures PageOf(init[i]) <= PageOf(init[j]) {
          assert init[i] == results[i] && init[j] == results[j];
        }
      }
      RowsOfOrdered(init);
      forall k | 0 <= k < |RowsOf(init)| ensures RowsOf(init)[k].page <= last.pageNumber {
        var m := RowSource(init, k);
        assert init[m] == results[m] && PageOf(results[m]) <= PageOf(results[|results| - 1]);
      }
    }
  }

  /** The table lists the pages in ascending order and has one row per
      detected brand of every page; pages without brands give no row. */
  lemma RowsMeaning(results: seq<ReportResult>)
    ensures forall i, j :: 0 <= i < j < |Rows(results)| ==> Rows(results)[i].page <= Rows(results)[j].page
    ensures |Rows(results)| == SumBy(results, BrandCount)
  {
    SortBySorted(results, PageOf);
    RowsOfOrdered(SortBy(results, PageOf));
    RowsOfLength(SortBy(results, PageOf));
    SortBySum(results, PageOf, BrandCount);
  }

  function RowCells(row: Row): seq<Cell> {
    [Number(row.page), Text(row.brand), Text(row.review)]
  }

  function TableCells(rows: seq<Row>): (t: seq<seq<Cell>>)
    ensures |t| == |rows|
    ensures forall k :: 0 <= k < |rows| ==> t[k] == RowCells(rows[k])
  {
    seq(|rows|, k requires 0 <= k < |rows| => RowCells(rows[k]))
  }

  const InfoHeader := "INFORMACIÓN DEL DOCUMENTO"
  const ResultsHeader := "RESULTADOS DEL ANÁLISIS"
  const StatisticsHeader := "ESTADÍSTICAS"
  const TableHeader: seq<Cell> := [Text("Página"), Text("Marca Detectada"), Text("Estado de Revisión")]

  /** The first row of the table's data. */
  const FirstDataRow := 11

  // ---------------------------------------------------------------------
  // Statistics

  datatype Stats = Stats(totalBrands: nat, reviewedBrands: nat, pagesWithResults: nat)

  /** The reviewed entries among `brands`, duplicates counted each time. */
  function ReviewedIn(r: ReportResult, brands: seq<string>): (n: nat)
    ensures n <= |brands|
  {
    if brands == [] then 0
    else ReviewedIn(r, brands[..|brands| - 1]) + (if Reviewed(r, brands[|brands| - 1]) then 1 else 0)
  }

  function StatsOf(results: seq<ReportResult>): (s: Stats)
    ensures s.reviewedBrands <= s.totalBrands
    ensures s.pagesWithResults <= |results|
    ensures s.totalBrands == 0 <==> s.pagesWithResults == 0
  {
    if results == [] then Stats(0, 0, 0)
    else
      var s := StatsOf(results[..|results| - 1]);
      var r := results[|results| - 1];
      if r.brandsDetected == [] then s
      else Stats(s.totalBrands + |r.brandsDetected|, s.reviewedBrands + ReviewedIn(r, r.brandsDetected), s.pagesWithResults + 1)
  }

  /** The total is the number of rows of the table. */
  lemma {:induction false} StatsTotal(results: seq<ReportResult>)
    ensures StatsOf(results).totalBrands == SumBy(results, BrandCount)
  {
    if results != [] {
      var init := results[..|results| - 1];
      StatsTotal(init);
      SumByAppend(init, results[|results| - 1], BrandCount);
      assert init + [results[|results| - 1]] == results;
    }
  }

  function ReviewedTest(r: ReportResult): string -> bool {
    brand => Reviewed(r, brand)
  }

  function ReviewedOfPage(r: ReportResult): nat { ReviewedIn(r, r.brandsDetected) }

  lemma {:induction false} StatsReviewed(results: seq<ReportResult>)
    ensures StatsOf(results).reviewedBrands == SumBy(results, ReviewedOfPage)
  {
    if results != [] {
      var init := results[..|results| - 1];
      StatsReviewed(init);
      SumByAppend(init, results[|results| - 1], ReviewedOfPage);
      assert init + [results[|results| - 1]] == results;
    }
  }

  lemma {:induction false} ReviewedInCount(r: ReportResult, brands: seq<string>)
    ensures ReviewedIn(r, brands) == CountWhere(brands, ReviewedTest(r))
  {
    if brands != [] {
      var init := brands[..|brands| - 1];
      ReviewedInCount(r, init);
      CountWhereSnoc(init, brands[|brands| - 1], ReviewedTest(r));
      assert init + [brands[|brands| - 1]] == brands;
    }
  }

  /** The rows whose status column reads "Revisado". */
  function Revisados(rows: seq<Row>): nat {
    if rows == [] then 0 else (if rows[0].review == "Revisado" then 1 else 0) + Revisados(rows[1..])
  }

  lemma {:induction false} RevisadosConcat(a: seq<Row>, b: seq<Row>)
    ensures Revisados(a + b) == Revisados(a) + Revisados(b)
  {
    if a != [] {
      assert (a + b)[1..] == a[1..] + b;
      RevisadosConcat(a[1..], b);
    } else {
      assert a + b == b;
    }
  }

  lemma {:induction false} RevisadosMatch(rows: seq<Row>, brands: seq<string>, p: string -> bool)
    requires |rows| == |brands|
    requires forall k :: 0 <= k < |rows| ==> (rows[k].review == "Revisado" <==> p(brands[k]))
    ensures Revisados(rows) == CountWhere(brands, p)
  {
    if rows != [] {
      RevisadosMatch(rows[1..], brands[1..], p);
    }
  }

  /** A page's rows marked "Revisado" are its reviewed brands. */
  lemma PageRevisados(r: ReportResult)
    ensures Revisados(PageRows(r)) == ReviewedOfPage(r)
  {
    RevisadosMatch(PageRows(r), SortStrings(r.brandsDetected), ReviewedTest(r));
    CountWhereSorted(r.brandsDetected, ReviewedTest(r));
    ReviewedInCount(r, r.brandsDetected);
  }

  lemma {:induction false} RowsOfRevisados(results: seq<ReportResult>)
    ensures Revisados(RowsOf(results)) == SumBy(results, ReviewedOfPage)
  {
    if results != [] {
      var init := results[..|results| - 1];
      var last := results[|results| - 1];
      assert init + [last] == results;
      assert RowsOf(results) == RowsOf(init) + PageRows(last);
      RowsOfRevisados(init);
      RevisadosConcat(RowsOf(init), PageRows(last));
      PageRevisados(last);
      SumByAppend(init, last, ReviewedOfPage);
    }
  }

  /** The statistics agree with the table: the total is its number of rows
      and the reviewed count is its number of rows marked "Revisado". */
  lemma StatsMatchTable(results: seq<ReportResult>)
    ensures StatsOf(results).totalBrands == |Rows(results)|
    ensures StatsOf(results).reviewedBrands == Revisados(Rows(results))
  {
    StatsTotal(results);
    RowsMeaning(results);
    StatsReviewed(results);
    SortBySum(results, PageOf, ReviewedOfPage);
    RowsOfRevisados(SortBy(results, PageOf));
  }

  /** `f"{share:.1f}%"` when there are brands, "0%" otherwise. */
  function PercentText(s: Stats, formatPercent: real -> string): (t: string)
    ensures s.totalBrands == 0 ==> t == "0%"
    ensures EndsWith(t, "%")
  {
    if s.totalBrands > 0 then formatPercent(ReviewShare(s)) + "%" else "0%"
  }

  function ReviewShare(s: Stats): (p: real)
    requires s.totalBrands > 0
    ensures 0.0 <= p
    ensures s.reviewedBrands <= s.totalBrands ==> p <= 100.0
    ensures s.reviewedBrands == s.totalBrands ==> p == 100.0
  {
    var ratio := s.reviewedBrands as real / s.totalBrands as real;
    assert s.reviewedBrands <= s.totalBrands ==> ratio <= 1.0 by {
      assert s.reviewedBrands as real <= s.totalBrands as real ==> ratio <= 1.0;
    }
    ratio * 100.0
  }

  function StatsCells(s: Stats, totalPages: int, formatPercent: real -> string): seq<seq<Cell>> {
    [[Text("Total de marcas detectadas:"), Text(IntToString(s.totalBrands))],
     [Text("Marcas revisadas:"), Text(IntToString(s.reviewedBrands))],
     [Text("Marcas por revisar:"), Text(IntToString(s.totalBrands - s.reviewedBrands))],
     [Text("Páginas con resultados:"), Text(IntToString(s.pagesWithResults) + " de " + IntToString(totalPages))],
     [Text("Porcentaje de revisión:"), Text(PercentText(s, formatPercent))]]
  }

  function InfoCells(d: ReportDocument, uploadedAt: string, exportedAt: string): seq<seq<Cell>> {
    [[Text("Nombre del archivo:"), Text(d.filename)],
     [Text("Fecha de subida:"), Text(uploadedAt)],
     [Text("Total de páginas:"), Text(IntToString(d.totalPages))],
     [Text("Estado:"), Text(d.status)],
     [Text("Fecha de exportación:"), Text(exportedAt)]]
  }

  // ---------------------------------------------------------------------
  // Column widths and the file name

  /** `min(max(max_length + 2, 12), 50)`. */
  function ColumnWidth(maxLength: int): (w: int)
    ensures 12 <= w <= 50
    ensures 10 <= maxLength <= 48 ==> w == maxLength + 2
    ensures maxLength < 10 ==> w == 12
    ensures maxLength > 48 ==> w == 50
  {
    var wide := if maxLength + 2 >= 12 then maxLength + 2 else 12;
    if wide <= 50 then wide else 50
  }

  /** The longest `str` of the cells of a column in rows `1..rows`: no
      cell is longer, and some cell is that long (0 for no rows). */
  function ColumnMax(cells: map<(int, int), Cell>, column: int, rows: nat): (n: nat)
    ensures forall r :: 1 <= r <= rows ==> |Str(if (r, column) in cells then Some(cells[(r, column)]) else None)| <= n
    ensures rows == 0 ==> n == 0
    ensures rows > 0 ==>
      exists r :: 1 <= r <= rows && |Str(if (r, column) in cells then Some(cells[(r, column)]) else None)| == n
  {
    if rows == 0 then 0
    else
      var here := |Str(if (rows, column) in cells then Some(cells[(rows, column)]) else None)|;
      Max(ColumnMax(cells, column, rows - 1), here)
  }

  /** `generate_filename`: every ".pdf" occurrence removed, in one pass
      from the left, then spaces turned into underscores. */
  function CleanName(filename: string): string {
    ReplaceAll(ReplaceAll(filename, ".pdf", ""), " ", "_")
  }

  function GenerateFilename(filename: string, timestamp: string): (name: string)
    ensures EndsWith(name, "_resultados_" + timestamp + ".xlsx")
    ensures StartsWith(name, CleanName(filename))
  {
    CleanName(filename) + "_resultados_" + timestamp + ".xlsx"
  }

  /** The generated name has no spaces before its suffix, and a name without
      ".pdf" and without spaces is kept as it is. */
  lemma CleanNameMeaning(filename: string)
    ensures ' ' !in CleanName(filename)
    ensures !Contains(filename, ".pdf") && ' ' !in filename ==> CleanName(filename) == filename
  {
    ReplaceCharGone(ReplaceAll(filename, ".pdf", ""), ' ', '_');
    if !Contains(filename, ".pdf") && ' ' !in filename {
      ReplaceAbsent(filename, ".pdf", "");
      MissingCharNotContained(filename, " ", 0);
      ReplaceAbsent(filename, " ", "_");
    }
  }

  /** The removal is a single pass: removing one occurrence can join two
      pieces into a new one, which stays. */
  lemma CleanNameSinglePass()
    ensures CleanName("a..pdfpdf") == "a.pdf"
  {
    assert ReplaceAll("pdf", ".pdf", "") == "pdf";
    assert ReplaceAll("a..pdfpdf", ".pdf", "") == "a." + ReplaceAll("pdf", ".pdf", "");
    assert ' ' !in "a.pdf";
    MissingCharNotContained("a.pdf", " ", 0);
    ReplaceAbsent("a.pdf", " ", "_");
  }


  // ---------------------------------------------------------------------
  // Blocks of rows

  lemma PutRowsSnoc(m: map<(int, int), Cell>, first: int, rows: seq<seq<Cell>>, row: seq<Cell>)
    ensures PutRows(m, first, rows + [row]) == PutRow(PutRows(m, first, rows), first + |rows|, row)
  {
    assert (rows + [row])[..|rows|] == rows;
  }

  lemma {:induction false} PutRowsConcat(m: map<(int, int), Cell>, first: int, a: seq<seq<Cell>>, b: seq<seq<Cell>>)
    ensures PutRows(m, first, a + b) == PutRows(PutRows(m, first, a), first + |a|, b)
    decreases |b|
  {
    if b == [] {
      assert a + b == a;
    } else {
      var binit := b[..|b| - 1];
      PutRowsConcat(m, first, a, binit);
      assert (a + b)[..|a + b| - 1] == a + binit;
    }
  }

  lemma TableCellsConcat(a: seq<Row>, b: seq<Row>)
    ensures TableCells(a + b) == TableCells(a) + TableCells(b)
  {
  }

  /** One more row goes right below the rows written so far. */
  lemma BlockStep(m: map<(int, int), Cell>, first: int, block: seq<seq<Cell>>, k: int, before: map<(int, int), Cell>, after: map<(int, int), Cell>)
    requires 0 <= k < |block|
    requires before == PutRows(m, first, block[..k])
    requires after == PutRow(before, first + k, block[k])
    ensures after == PutRows(m, first, block[..k + 1])
  {
    assert block[..k + 1] == block[..k] + [block[k]];
    PutRowsSnoc(m, first, block[..k], block[k]);
  }

  /** The number of columns of the widest row. */
  function Widest(rows: seq<seq<Cell>>): nat {
    if rows == [] then 0 else Max(Widest(rows[..|rows| - 1]), |rows[|rows| - 1]|)
  }

  /** The label/value rows of the statistics section of a document. */
  function StatisticsBlock(d: ReportDocument, formatPercent: real -> string): seq<seq<Cell>> {
    StatsCells(StatsOf(d.results), d.totalPages, formatPercent)
  }

  /** The worksheet `generate_document_results_excel` fills in: the
      document's details in rows 1 to 6, the table from row 8, the
      statistics three rows below the table's last row. */
  function ReportSheet(d: ReportDocument, uploadedAt: string, exportedAt: string, statistics: seq<seq<Cell>>): map<(int, int), Cell> {
    var start := 13 + |Rows(d.results)|;
    PutRows(PutRow(TableSheet(d, uploadedAt, exportedAt), start, [Text(StatisticsHeader)]), start + 2,
            statistics)
  }

  /** The sheet once the details and the table are written. */
  function TableSheet(d: ReportDocument, uploadedAt: string, exportedAt: string): map<(int, int), Cell> {
    PutRows(PutRow(PutRow(InfoSheet(d, uploadedAt, exportedAt), 8, [Text(ResultsHeader)]), 10, TableHeader),
            FirstDataRow, TableCells(Rows(d.results)))
  }

  /** The sheet once the details are written. */
  function InfoSheet(d: ReportDocument, uploadedAt: string, exportedAt: string): map<(int, int), Cell> {
    PutRows(PutRow(map[], 1, [Text(InfoHeader)]), 2, InfoCells(d, uploadedAt, exportedAt))
  }

  /** The statistics section leaves every row above its title as it was. */
  lemma StatisticsBelowTable(d: ReportDocument, uploadedAt: string, exportedAt: string, statistics: seq<seq<Cell>>, key: (int, int))
    requires key.0 < 13 + |Rows(d.results)|
    ensures key in ReportSheet(d, uploadedAt, exportedAt, statistics) <==> key in TableSheet(d, uploadedAt, exportedAt)
    ensures key in TableSheet(d, uploadedAt, exportedAt) ==>
      ReportSheet(d, uploadedAt, exportedAt, statistics)[key] == TableSheet(d, uploadedAt, exportedAt)[key]
  {
    var start := 13 + |Rows(d.results)|;
    var titled := PutRow(TableSheet(d, uploadedAt, exportedAt), start, [Text(StatisticsHeader)]);
    PutRowFrame(TableSheet(d, uploadedAt, exportedAt), start, [Text(StatisticsHeader)], key);
    PutRowsFrame(titled, start + 2, statistics, key);
  }

  /** The document's details stay in columns A and B of rows 2 to 6. */
  lemma ReportSheetDetails(d: ReportDocument, uploadedAt: string, exportedAt: string, statistics: seq<seq<Cell>>, k: int, j: int)
    requires 0 <= k < 5 && 0 <= j < 2
    ensures (2 + k, j + 1) in ReportSheet(d, uploadedAt, exportedAt, statistics)
    ensures ReportSheet(d, uploadedAt, exportedAt, statistics)[(2 + k, j + 1)] == InfoCells(d, uploadedAt, exportedAt)[k][j]
  {
    var key := (2 + k, j + 1);
    var info := InfoSheet(d, uploadedAt, exportedAt);
    var head1 := PutRow(info, 8, [Text(ResultsHeader)]);
    var head2 := PutRow(head1, 10, TableHeader);
    PutRowsCell(PutRow(map[], 1, [Text(InfoHeader)]), 2, InfoCells(d, uploadedAt, exportedAt), k, j);
    PutRowFrame(info, 8, [Text(ResultsHeader)], key);
    PutRowFrame(head1, 10, TableHeader, key);
    PutRowsFrame(head2, FirstDataRow, TableCells(Rows(d.results)), key);
    StatisticsBelowTable(d, uploadedAt, exportedAt, statistics, key);
  }

  /** Row 10 holds the column titles. */
  lemma ReportSheetTitles(d: ReportDocument, uploadedAt: string, exportedAt: string, statistics: seq<seq<Cell>>, j: int)
    requires 0 <= j < 3
    ensures (10, j + 1) in ReportSheet(d, uploadedAt, exportedAt, statistics)
    ensures ReportSheet(d, uploadedAt, exportedAt, statistics)[(10, j + 1)] == TableHeader[j]
  {
    var head1 := PutRow(InfoSheet(d, uploadedAt, exportedAt), 8, [Text(ResultsHeader)]);
    var head2 := PutRow(head1, 10, TableHeader);
    PutRowCell(head1, 10, TableHeader, j);
    PutRowsFrame(head2, FirstDataRow, TableCells(Rows(d.results)), (10, j + 1));
    StatisticsBelowTable(d, uploadedAt, exportedAt, statistics, (10, j + 1));
  }

  /** Row `11 + k` holds the k-th row of the table: page number, brand,
      review state. */
  lemma ReportSheetTable(d: ReportDocument, uploadedAt: string, exportedAt: string, statistics: seq<seq<Cell>>, k: int, j: int)
    requires 0 <= k < |Rows(d.results)| && 0 <= j < 3
    ensures (FirstDataRow + k, j + 1) in ReportSheet(d, uploadedAt, exportedAt, statistics)
    ensures ReportSheet(d, uploadedAt, exportedAt, statistics)[(FirstDataRow + k, j + 1)] == RowCells(Rows(d.results)[k])[j]
  {
    var head1 := PutRow(InfoSheet(d, uploadedAt, exportedAt), 8, [Text(ResultsHeader)]);
    var head2 := PutRow(head1, 10, TableHeader);
    PutRowsCell(head2, FirstDataRow, TableCells(Rows(d.results)), k, j);
    StatisticsBelowTable(d, uploadedAt, exportedAt, statistics, (FirstDataRow + k, j + 1));
  }

  /** The five counters sit in rows `15 + n` to `19 + n`, n being the
      number of table rows. */
  lemma ReportSheetStatistics(d: ReportDocument, uploadedAt: string, exportedAt: string, statistics: seq<seq<Cell>>, k: int, j: int)
    requires 0 <= k < |statistics| && 0 <= j < |statistics[k]|
    ensures (15 + |Rows(d.results)| + k, j + 1) in ReportSheet(d, uploadedAt, exportedAt, statistics)
    ensures ReportSheet(d, uploadedAt, exportedAt, statistics)[(15 + |Rows(d.results)| + k, j + 1)] ==
      statistics[k][j]
  {
    StatisticsCell(TableSheet(d, uploadedAt, exportedAt), |Rows(d.results)|, statistics, k, j);
  }

  lemma StatisticsCell(table: map<(int, int), Cell>, n: int, block: seq<seq<Cell>>, k: int, j: int)
    requires 0 <= k < |block| && 0 <= j < |block[k]|
    ensures (15 + n + k, j + 1) in PutRows(PutRow(table, 13 + n, [Text(StatisticsHeader)]), 15 + n, block)
    ensures PutRows(PutRow(table, 13 + n, [Text(StatisticsHeader)]), 15 + n, block)[(15 + n + k, j + 1)] == block[k][j]
  {
    PutRowsCell(PutRow(table, 13 + n, [Text(StatisticsHeader)]), 15 + n, block, k, j);
  }

  /** The rows of one more page go right below the rows written so far. */
  lemma TableStep(base: map<(int, int), Cell>, sorted: seq<ReportResult>, i: int)
    requires 0 <= i < |sorted|
    ensures |RowsOf(sorted[..i + 1])| == |RowsOf(sorted[..i])| + |PageRows(sorted[i])|
    ensures PutRows(base, FirstDataRow, TableCells(RowsOf(sorted[..i + 1])))
      == PutRows(PutRows(base, FirstDataRow, TableCells(RowsOf(sorted[..i]))),
                 FirstDataRow + |RowsOf(sorted[..i])|, TableCells(PageRows(sorted[i])))
  {
    var done := RowsOf(sorted[..i]);
    assert sorted[..i + 1][..i] == sorted[..i];
    assert RowsOf(sorted[..i + 1]) == done + PageRows(sorted[i]);
    PutRowsConcat(base, FirstDataRow, TableCells(done), TableCells(PageRows(sorted[i])));
    TableCellsConcat(done, PageRows(sorted[i]));
  }

  // ---------------------------------------------------------------------
  // The service

  class ExcelService {
    /** The active worksheet, its extent and the column widths; nothing
        until a report is generated. */
    var hasWorkbook: bool
    var title: string
    var cells: map<(int, int), Cell>
    var maxRow: nat
    var maxColumn: nat
    var widths: map<int, int>

    constructor ()
      ensures !hasWorkbook && cells == map[] && maxRow == 0 && maxColumn == 0 && widths == map[]
    {
      hasWorkbook := false;
      title := "";
      cells := map[];
      maxRow := 0;
      maxColumn := 0;
      widths := map[];
    }

    /** Writes one row of values from column 1 on. */
    method WriteRow(row: int, values: seq<Cell>)
      modifies this
      ensures cells == PutRow(old(cells), row, values)
      ensures maxRow == (if values == [] then old(maxRow) else Max(old(maxRow), row))
      ensures maxColumn == Max(old(maxColumn), |values|)
      ensures widths == old(widths) && hasWorkbook == old(hasWorkbook) && title == old(title)
    {
      for j := 0 to |values|
        invariant cells == PutRow(old(cells), row, values[..j])
        invariant maxRow == (if j == 0 then old(maxRow) else Max(old(maxRow), row))
        invariant maxColumn == Max(old(maxColumn), j)
        invariant widths == old(widths) && hasWorkbook == old(hasWorkbook) && title == old(title)
      {
        assert values[..j + 1][..j] == values[..j];
        cells := cells[(row, j + 1) := values[j]];
        maxRow := if row > maxRow then row else maxRow;
        maxColumn := if j + 1 > maxColumn then j + 1 else maxColumn;
      }
      assert values[..|values|] == values;
    }

    /** Writes a block of rows from row `first` on. */
    method WriteRows(first: int, rows: seq<seq<Cell>>)
      modifies this
      ensures cells == PutRows(old(cells), first, rows)
      ensures maxColumn == Max(old(maxColumn), Widest(rows))
      ensures rows != [] && (forall k :: 0 <= k < |rows| ==> rows[k] != []) ==> maxRow == Max(old(maxRow), first + |rows| - 1)
      ensures widths == old(widths) && hasWorkbook == old(hasWorkbook) && title == old(title)
    {
      for i := 0 to |rows|
        invariant cells == PutRows(old(cells), first, rows[..i])
        invariant maxColumn == Max(old(maxColumn), Widest(rows[..i]))
        invariant i == 0 ==> maxRow == old(maxRow)
        invariant i > 0 && (forall k :: 0 <= k < i ==> rows[k] != []) ==> maxRow == Max(old(maxRow), first + i - 1)
        invariant widths == old(widths) && hasWorkbook == old(hasWorkbook) && title == old(title)
      {
        assert rows[..i + 1] == rows[..i] + [rows[i]];
        assert rows[..i + 1][..i] == rows[..i];
        PutRowsSnoc(old(cells), first, rows[..i], rows[i]);
        WriteRow(first + i, rows[i]);
      }
      assert rows[..|rows|] == rows;
    }

    /** `_add_document_info`: the title in A1, then five label/value rows. */
    method AddDocumentInfo(d: ReportDocument, uploadedAt: string, exportedAt: string)
      modifies this
      ensures cells == PutRows(PutRow(old(cells), 1, [Text(InfoHeader)]), 2, InfoCells(d, uploadedAt, exportedAt))
      ensures maxRow == Max(old(maxRow), 6) && maxColumn == Max(old(maxColumn), 2)
      ensures widths == old(widths) && hasWorkbook == old(hasWorkbook) && title == old(title)
    {
      WriteRow(1, [Text(InfoHeader)]);
      ghost var info := InfoCells(d, uploadedAt, exportedAt);
      assert Widest(info) == 2 by { PairsWidest(info); }
      WriteRows(2, InfoCells(d, uploadedAt, exportedAt));
    }

    /** The rows of one page from row `row` on; returns the next free row. */
    method AddPageRows(r: ReportResult, row: int) returns (next: int)
      modifies this
      ensures next == row + |PageRows(r)|
      ensures cells == PutRows(old(cells), row, TableCells(PageRows(r)))
      ensures PageRows(r) == [] ==> maxRow == old(maxRow) && maxColumn == old(maxColumn)
      ensures PageRows(r) != [] ==> maxRow == Max(old(maxRow), next - 1) && maxColumn == Max(old(maxColumn), 3)
      ensures widths == old(widths) && hasWorkbook == old(hasWorkbook) && title == old(title)
    {
      var sortedBrands := SortStrings(r.brandsDetected);
      next := row;
      ghost var block := TableCells(PageRows(r));
      for k := 0 to |sortedBrands|
        invariant next == row + k
        invariant cells == PutRows(old(cells), row, block[..k])
        invariant maxRow == if k == 0 then old(maxRow) else Max(old(maxRow), next - 1)
        invariant maxColumn == if k == 0 then old(maxColumn) else Max(old(maxColumn), 3)
        invariant widths == old(widths) && hasWorkbook == old(hasWorkbook) && title == old(title)
      {
        ghost var before := cells;
        assert block[k] == RowCells(Row(r.pageNumber, sortedBrands[k], ReviewLabel(Reviewed(r, sortedBrands[k]))));
        AddBrandRow(r, sortedBrands[k], next);
        BlockStep(old(cells), row, block, k, before, cells);
        next := next + 1;
      }
      assert block[..|sortedBrands|] == block;
    }

    /** One row of the table: page number, brand and review state. */
    method AddBrandRow(r: ReportResult, brand: string, row: int)
      modifies this
      ensures cells == PutRow(old(cells), row, RowCells(Row(r.pageNumber, brand, ReviewLabel(Reviewed(r, brand)))))
      ensures maxRow == Max(old(maxRow), row) && maxColumn == Max(old(maxColumn), 3)
      ensures widths == old(widths) && hasWorkbook == old(hasWorkbook) && title == old(title)
    {
      var isReviewed := brand in r.brandsReviewStatus && r.brandsReviewStatus[brand];
      WriteRow(row, [Number(r.pageNumber), Text(brand), Text(ReviewLabel(isReviewed))]);
    }

    /** `_add_results_table`: the title in A8, the column titles in row 10
        and the rows from row 11 on. */
    method AddResultsTable(d: ReportDocument)
      modifies this
      ensures cells == PutRows(PutRow(PutRow(old(cells), 8, [Text(ResultsHeader)]), 10, TableHeader), FirstDataRow, TableCells(Rows(d.results)))
      ensures maxRow == Max(old(maxRow), 10 + |Rows(d.results)|)
      ensures maxColumn == Max(old(maxColumn), 3)
      ensures widths == old(widths) && hasWorkbook == old(hasWorkbook) && title == old(title)
    {
      WriteRow(8, [Text(ResultsHeader)]);
      WriteRow(10, TableHeader);
      ghost var base := cells;
      ghost var top := maxRow;
      var sorted := SortBy(d.results, PageOf);
      var currentRow := FirstDataRow;
      for i := 0 to |sorted|
        invariant currentRow == FirstDataRow + |RowsOf(sorted[..i])|
        invariant cells == PutRows(base, FirstDataRow, TableCells(RowsOf(sorted[..i])))
        invariant maxRow == Max(top, currentRow - 1)
        invariant maxColumn == Max(old(maxColumn), 3)
        invariant widths == old(widths) && hasWorkbook == old(hasWorkbook) && title == old(title)
      {
        var r := sorted[i];
        TableStep(base, sorted, i);
        currentRow := AddPageRows(r, currentRow);
      }
      assert sorted[..|sorted|] == sorted;
    }

    /** `_add_statistics_section`: the counters over all results, titled
        three rows below the last used row. */
    method AddStatisticsSection(d: ReportDocument, formatPercent: real -> string)
      modifies this
      ensures cells == PutRows(PutRow(old(cells), old(maxRow) + 3, [Text(StatisticsHeader)]), old(maxRow) + 5,
                               StatisticsBlock(d, formatPercent))
      ensures maxRow == old(maxRow) + 9 && maxColumn == Max(old(maxColumn), 2)
      ensures widths == old(widths) && hasWorkbook == old(hasWorkbook) && title == old(title)
    {
      var s := CountStatistics(d.results);
      var start := maxRow + 3;
      WriteRow(start, [Text(StatisticsHeader)]);
      var block := StatsCells(s, d.totalPages, formatPercent);
      assert block == StatisticsBlock(d, formatPercent);
      assert Widest(block) == 2 by { PairsWidest(block); }
      assert forall k :: 0 <= k < |block| ==> block[k] != [];
      WriteRows(start + 2, block);
    }

    /** The counting loop of `_add_statistics_section`. */
    method CountStatistics(results: seq<ReportResult>) returns (s: Stats)
      ensures s == StatsOf(results)
    {
      var totalBrands: nat := 0;
      var reviewedBrands: nat := 0;
      var pagesWithResults: nat := 0;
      for i := 0 to |results|
        invariant Stats(totalBrands, reviewedBrands, pagesWithResults) == StatsOf(results[..i])
      {
        assert results[..i + 1][..i] == results[..i];
        var r := results[i];
        if r.brandsDetected != [] {
          pagesWithResults := pagesWithResults + 1;
          totalBrands := totalBrands + |r.brandsDetected|;
          var reviewed := CountReviewed(r);
          reviewedBrands := reviewedBrands + reviewed;
        }
      }
      assert results[..|results|] == results;
      s := Stats(totalBrands, reviewedBrands, pagesWithResults);
    }

    /** The reviewed brands of one page, by a loop over its brands. */
    method CountReviewed(r: ReportResult) returns (n: nat)
      ensures n == ReviewedIn(r, r.brandsDetected)
    {
      n := 0;
      for k := 0 to |r.brandsDetected|
        invariant n == ReviewedIn(r, r.brandsDetected[..k])
      {
        assert r.brandsDetected[..k + 1][..k] == r.brandsDetected[..k];
        var brand := r.brandsDetected[k];
        if brand in r.brandsReviewStatus && r.brandsReviewStatus[brand] {
          n := n + 1;
        }
      }
      assert r.brandsDetected[..|r.brandsDetected|] == r.brandsDetected;
    }

    /** `_adjust_column_widths`: every column up to the last used one gets
        the clamped width of its longest cell. */
    method AdjustColumnWidths()
      modifies this
      ensures forall c :: 1 <= c <= maxColumn ==> c in widths && widths[c] == ColumnWidth(ColumnMax(cells, c, maxRow))
      ensures forall c :: c in widths && !(1 <= c <= maxColumn) ==> c in old(widths) && widths[c] == old(widths)[c]
      ensures cells == old(cells) && maxRow == old(maxRow) && maxColumn == old(maxColumn)
      ensures hasWorkbook == old(hasWorkbook) && title == old(title)
    {
      for c := 1 to maxColumn + 1
        invariant forall c' :: 1 <= c' < c ==> c' in widths && widths[c'] == ColumnWidth(ColumnMax(cells, c', maxRow))
        invariant forall c' :: c' in widths && !(1 <= c' < c) ==> c' in old(widths) && widths[c'] == old(widths)[c']
        invariant cells == old(cells) && maxRow == old(maxRow) && maxColumn == old(maxColumn)
        invariant hasWorkbook == old(hasWorkbook) && title == old(title)
      {
        var longest := LongestInColumn(c);
        widths := widths[c := ColumnWidth(longest)];
      }
    }

    /** The inner loop of `_adjust_column_widths` over one column. */
    method LongestInColumn(c: int) returns (longest: nat)
      ensures longest == ColumnMax(cells, c, maxRow)
    {
      longest := 0;
      for r := 1 to maxRow + 1
        invariant longest == ColumnMax(cells, c, r - 1)
      {
        var value := if (r, c) in cells then Some(cells[(r, c)]) else None;
        if |Str(value)| > longest {
          longest := |Str(value)|;
        }
      }
    }

    /** `generate_document_results_excel`: a fresh worksheet titled
        "Análisis de Marcas" filled in by the three sections, then sized.
        The bytes of the saved workbook are not modelled. */
    method GenerateDocumentResultsExcel(d: ReportDocument, uploadedAt: string, exportedAt: string, formatPercent: real -> string)
      modifies this
      ensures hasWorkbook && title == "Análisis de Marcas"
      ensures cells == ReportSheet(d, uploadedAt, exportedAt, StatisticsBlock(d, formatPercent))
      ensures maxColumn == 3 && maxRow == 19 + |Rows(d.results)|
      ensures forall c :: 1 <= c <= 3 ==> c in widths && widths[c] == ColumnWidth(ColumnMax(cells, c, maxRow))
      ensures forall c :: c in widths ==> 1 <= c <= 3
    {
      hasWorkbook := true;
      title := "Análisis de Marcas";
      cells := map[];
      maxRow := 0;
      maxColumn := 0;
      widths := map[];
      AddDocumentInfo(d, uploadedAt, exportedAt);
      assert cells == InfoSheet(d, uploadedAt, exportedAt) && maxRow == 6 && maxColumn == 2;
      AddResultsTable(d);
      assert cells == TableSheet(d, uploadedAt, exportedAt) && maxRow == 10 + |Rows(d.results)| && maxColumn == 3;
      AddStatisticsSection(d, formatPercent);
      AdjustColumnWidths();
    }
  }

  /** Every row of a label/value block has two cells. */
  lemma {:induction false} PairsWidest(rows: seq<seq<Cell>>)
    requires rows != [] && forall k :: 0 <= k < |rows| ==> |rows[k]| == 2
    ensures Widest(rows) == 2
    decreases |rows|
  {
    if |rows| > 1 {
      PairsWidest(rows[..|rows| - 1]);
    } else {
      assert rows[..0] == [];
    }
  }
}
