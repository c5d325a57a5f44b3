/**
 * `dashboard_view` as a function of the sales and the products: the "no
 * data" short cut, the KPI strings, the low-stock list, and in place of each
 * chart image the table that chart plots.
 */
module Dashboard {
  import opened Wrappers
  import opened KeyOrder
  import opened Models
  import opened Formatting
  import opened Kpi
  import opened Monthly
  import opened Heatmap

  datatype DashboardContext =
    | NoData
    | Context(
        totalRevenue: string,
        totalItemsSold: string,
        topCategory: string,
        lowStockProducts: seq<Product>,
        chartCategory: seq<CategoryTotal>,
        chartTrend: seq<MonthTotal>,
        chartHeatmap: Pivot)

  /**
   * With no sales the view reports "no data" and computes nothing else.
   * Otherwise the KPI strings read back as the revenue and item totals, the
   * top category is the first category with the most revenue, and each
   * chart's table accounts for every sale.
   */
  function DashboardView(rows: seq<SaleRow>, products: seq<Product>): (r: DashboardContext)
    reads set p | p in products
    ensures r.NoData? <==> rows == []
    ensures r.Context? ==>
      ParseMoney(RemoveCommas(r.totalRevenue)) == Some(TotalRevenue(rows)) &&
      ParseCount(RemoveCommas(r.totalItemsSold)) == Some(ItemsSold(rows)) &&
      IsFirstArgMax(rows, r.topCategory) &&
      (forall i :: 0 <= i < |r.lowStockProducts| ==>
        r.lowStockProducts[i] in products && r.lowStockProducts[i].IsLowStock()) &&
      (forall i :: 0 <= i < |products| && products[i].IsLowStock() ==> products[i] in r.lowStockProducts) &&
      IsCategoryTable(rows, r.chartCategory) && SumRevenue(r.chartCategory) == TotalRevenue(rows) &&
      IsMonthTable(rows, r.chartTrend) && SumTotals(r.chartTrend) == TotalRevenue(rows) &&
      CountsByOccurringHour(rows, r.chartHeatmap)
  {
    if rows == [] then NoData
    else
      var categories := CategoryTotals(rows);
      FormatMoneyContract(TotalRevenue(rows));
      FormatCountContract(ItemsSold(rows));
      TopCategoryIsFirstArgMax(rows);
      PivotTableContract(rows);
      MonthlyTable(rows);
      CategoryTable(rows);
      Context(
        MoneyText(TotalRevenue(rows), true),
        CountText(ItemsSold(rows), true),
        TopCategory(categories),
        LowStock(products),
        categories,
        MonthlySales(rows),
        PivotTable(rows))
  }

  /** Two sales of a 10.00 product, three items each: 60.00 of revenue and 6 items. */
  lemma TwoSalesOfThree(d: DateTime)
    ensures var rows := [SaleRow(d, "Kettle", "Home", 3, 3000), SaleRow(d, "Kettle", "Home", 3, 3000)];
      TotalRevenue(rows) == 6000 && ItemsSold(rows) == 6 &&
      DashboardView(rows, []).totalRevenue == "60.00" && DashboardView(rows, []).totalItemsSold == "6"
  {
    var rows := [SaleRow(d, "Kettle", "Home", 3, 3000), SaleRow(d, "Kettle", "Home", 3, 3000)];
    assert rows[..1] == [rows[0]] && rows[..1][..0] == [];
    assert TotalRevenue(rows[..1]) == 3000 && ItemsSold(rows[..1]) == 3;
    assert TotalRevenue(rows) == 6000 && ItemsSold(rows) == 6;
    var v := DashboardView(rows, []);
    assert v.totalRevenue == MoneyText(6000, true) && v.totalItemsSold == CountText(6, true);
    MoneyExample();
  }

  lemma MoneyExample()
    ensures MoneyText(6000, true) == "60.00" && CountText(6, true) == "6"
  {
    assert Digits(6) == "6";
    assert Digits(60) == "60";
    assert Group("60") == "60" && Group("6") == "6";
    assert TwoDigits(0) == "00";
  }
}
