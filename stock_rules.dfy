/**
 * The four stock classifiers side by side: the low-stock report
 * (`get_low_stock_report.php`), the admin product table (`products_AD.js`), the
 * employee product table (`products_EMP.js`) and the admin dashboard
 * (`dashboard_AD.js`). They agree on every stock that is not negative and part
 * ways below zero.
 */
module StockRules {
  import opened Common
  import opened JsValues
  import LowStockReport
  import ProductsAdmin
  import ProductsEmployee
  import DashboardAdmin

  /** A stock of `n` as each page sees it: an integer in the report, a number in the browser. */
  function AdminLevel(n: int): ProductsAdmin.Level { ProductsAdmin.LevelOf(n as real) }
  function EmployeeClass(n: int): string { ProductsEmployee.StockClass(Fin(n as real)) }
  function EmployeeStatus(n: int): string { ProductsEmployee.StatusInfo(Fin(n as real)).text }

  predicate ReportSaysOut(n: int) { LowStockReport.StatusOf(n) == LowStockReport.Unavailable }
  predicate AdminSaysOut(n: int) { AdminLevel(n) == ProductsAdmin.Unavailable }

  /**
   * On a stock that is not negative, the four pages draw the same lines: out of stock at 0,
   * the lowest band up to 20, the middle band up to 40, and the top band above.
   */
  lemma AgreeWhenNotNegative(n: int)
    requires n >= 0
    ensures LowStockReport.StatusOf(n) == LowStockReport.Unavailable
        <==> AdminLevel(n) == ProductsAdmin.Unavailable
    ensures AdminLevel(n) == ProductsAdmin.Unavailable <==> EmployeeClass(n) == "stock-unavailable"
    ensures EmployeeClass(n) == "stock-unavailable" <==> EmployeeStatus(n) == "Unavailable"
    ensures LowStockReport.StatusOf(n) == LowStockReport.Critical <==> AdminLevel(n) == ProductsAdmin.Low
    ensures AdminLevel(n) == ProductsAdmin.Low <==> EmployeeClass(n) == "stock-low"
    ensures LowStockReport.StatusOf(n) == LowStockReport.Low <==> AdminLevel(n) == ProductsAdmin.Medium
    ensures AdminLevel(n) == ProductsAdmin.Medium <==> EmployeeClass(n) == "stock-medium"
    ensures LowStockReport.StatusOf(n) == LowStockReport.Available <==> AdminLevel(n) == ProductsAdmin.High
    ensures AdminLevel(n) == ProductsAdmin.High <==> EmployeeClass(n) == "stock-high"
  {
  }

  /**
   * Below zero they part ways: the admin table says Unavailable, the report says Critical,
   * and the employee table colours the stock low while calling the product Available.
   */
  lemma DisagreeWhenNegative(n: int)
    requires n < 0
    ensures AdminLevel(n) == ProductsAdmin.Unavailable
    ensures LowStockReport.StatusOf(n) == LowStockReport.Critical
    ensures EmployeeClass(n) == "stock-low" && EmployeeStatus(n) == "Available"
  {
  }

  /** -1 is such a stock. */
  lemma MinusOneExample()
    ensures AdminLevel(-1) == ProductsAdmin.Unavailable && LowStockReport.StatusOf(-1) == LowStockReport.Critical
    ensures EmployeeStatus(-1) == "Available"
  {
  }

  /** The report keeps a row exactly when its status is not Available. */
  lemma ReportKeepsAllButAvailable(r: LowStockReport.QueryRow)
    ensures LowStockReport.Kept(r) <==> LowStockReport.StatusOf(LowStockReport.StockOf(r)) != LowStockReport.Available
  {
  }

  /**
   * The dashboard counts a product out of stock exactly when the employee table calls it
   * Unavailable, and low exactly when the admin table puts it in the Low or Medium band;
   * a negative stock is in neither count, though the admin table calls it Unavailable.
   */
  lemma DashboardAgainstTables(p: DashboardAdmin.DashProduct)
    ensures DashboardAdmin.IsOut(p)
        <==> ProductsEmployee.StatusInfo(Fin(DashboardAdmin.ParsedStock(p))).text == "Unavailable"
    ensures DashboardAdmin.IsLow(p) <==>
      ProductsAdmin.LevelOf(DashboardAdmin.ParsedStock(p)) in {ProductsAdmin.Low, ProductsAdmin.Medium}
    ensures DashboardAdmin.ParsedStock(p) < 0.0 ==>
      !DashboardAdmin.IsOut(p) && !DashboardAdmin.IsLow(p)
      && ProductsAdmin.LevelOf(DashboardAdmin.ParsedStock(p)) == ProductsAdmin.Unavailable
  {
  }

  /**
   * Over a whole list, the admin table finds at least as many products unavailable as the
   * report does, and exactly as many when no stock is negative.
   */
  lemma AdminCountsMoreUnavailable(stocks: seq<int>)
    ensures Count(stocks, ReportSaysOut) <= Count(stocks, AdminSaysOut)
    ensures (forall k :: 0 <= k < |stocks| ==> stocks[k] >= 0) ==>
      Count(stocks, ReportSaysOut) == Count(stocks, AdminSaysOut)
  {
    CountImplies(stocks, ReportSaysOut, AdminSaysOut);
  }
}
