/**
 * The low-stock report (`get_low_stock_report.php`): an optional inclusive date
 * range, one query row per product (stock, units sold in the range, category),
 * ordered by stock ascending then units sold descending and limited to 1000 rows,
 * then a loop that maps each row's stock to a status and keeps the rows with
 * stock of at most 40.
 */
module LowStockReport {
  import opened Common
  import opened Schema

  datatype Status = Unavailable | Critical | Low | Available

  /** The inclusive `date_time` bounds the query binds, when a range applies. */
  datatype Range = Range(from: string, to: string)

  /** A row of the SQL result; a `None` column is NULL or missing. */
  datatype QueryRow = QueryRow(
    productId: Option<string>,
    productName: Option<string>,
    category: Option<string>,
    currentStock: Option<int>,
    soldInRange: Option<int>)

  /** An element of the response's `items`. */
  datatype ReportItem = ReportItem(
    productId: string,
    productName: string,
    category: string,
    currentStock: int,
    soldInRange: int,
    status: Status)

  datatype Report = Report(start: Option<string>, end: Option<string>, returned: nat, items: seq<ReportItem>)

  /** `success: true` with the report, or the caught exception's `success: false`. */
  datatype Answer = Reported(report: Report) | QueryFailed

  const RowLimit: nat := 1000

  // ---------------------------------------------------------------------
  // Request parameters
  // ---------------------------------------------------------------------

  /** A GET parameter: absent or "" is null, anything else is trimmed. */
  function Param(raw: Option<string>): Option<string> {
    if raw.None? || raw.value == "" then None else Some(PhpTrim(raw.value))
  }

  /** The date filter applies only when both trimmed bounds are truthy. */
  function DateRange(start: Option<string>, end: Option<string>): (r: Option<Range>)
    ensures r.Some? <==> start.Some? && end.Some? && PhpTruthy(start.value) && PhpTruthy(end.value)
    ensures r.Some? ==> r.value == Range(start.value + " 00:00:00", end.value + " 23:59:59")
  {
    if start.Some? && end.Some? && PhpTruthy(start.value) && PhpTruthy(end.value)
    then Some(Range(start.value + " 00:00:00", end.value + " 23:59:59"))
    else None
  }

  /** `date_time BETWEEN from AND to` on `YYYY-MM-DD HH:MM:SS` text; no range keeps every sale. */
  predicate InRange(dateTime: string, range: Option<Range>) {
    range.None? || (LexLe(range.value.from, dateTime) && LexLe(dateTime, range.value.to))
  }

  /**
   * The bounds cover whole days: with same-width dates and the start not after the
   * end, a sale on any day from start to end, at any time from 00:00:00 to 23:59:59,
   * is in the range.
   */
  lemma DayInRange(start: string, end: string, day: string, time: string)
    requires PhpTruthy(start) && PhpTruthy(end) && |start| == |day| == |end|
    requires LexLe(start, day) && LexLe(day, end)
    requires LexLe(" 00:00:00", time) && LexLe(time, " 23:59:59")
    ensures InRange(day + time, DateRange(Some(start), Some(end)))
  {
    LexLeAppend(start, day, " 00:00:00", time);
    LexLeAppend(day, end, time, " 23:59:59");
  }

  /** So a sale at midnight on the start day and one at 23:59:59 on the end day are both counted. */
  lemma FirstAndLastSecondInRange(start: string, end: string)
    requires PhpTruthy(start) && PhpTruthy(end) && |start| == |end| && LexLe(start, end)
    ensures InRange(start + " 00:00:00", DateRange(Some(start), Some(end)))
    ensures InRange(end + " 23:59:59", DateRange(Some(start), Some(end)))
  {
    assert LexLe(" 00:00:00", " 23:59:59");
    LexLeRefl(start);
    LexLeRefl(end);
    LexLeRefl(" 00:00:00");
    LexLeRefl(" 23:59:59");
    DayInRange(start, end, start, " 00:00:00");
    DayInRange(start, end, end, " 23:59:59");
  }

  // ---------------------------------------------------------------------
  // The query
  // ---------------------------------------------------------------------

  /** Headers with this numeric id whose time falls in the range (the JOIN partners of an item). */
  function JoinedHeaders(id: Option<int>, headers: seq<Header>, range: Option<Range>): nat
    decreases |headers|
  {
    if headers == [] then 0
    else (if id == Some(headers[0].id) && InRange(headers[0].dateTime, range) then 1 else 0)
         + JoinedHeaders(id, headers[1..], range)
  }

  /** `COALESCE(SUM(ti.quantity), 0)` over item rows for this code joined to headers in range. */
  function SoldInRange(code: Option<string>, items: seq<Item>, headers: seq<Header>, range: Option<Range>): int
    decreases |items|
  {
    if items == [] then 0
    else
      var ti := items[0];
      (if code == Some(ti.productId) then ti.quantity * JoinedHeaders(ti.transactionId, headers, range) else 0)
      + SoldInRange(code, items[1..], headers, range)
  }

  /** The category name through `LEFT JOIN categories c ON c.id = p.category_internal_id`. */
  function CategoryName(cats: seq<Category>, internalId: Option<int>): Option<string>
    decreases |cats|
  {
    if cats == [] || internalId.None? then None
    else if cats[0].id == internalId.value then Some(cats[0].name)
    else CategoryName(cats[1..], internalId)
  }

  /** The select list for one product. */
  function RowOf(p: Product, cats: seq<Category>, items: seq<Item>, headers: seq<Header>, range: Option<Range>): QueryRow {
    QueryRow(p.code, Some(p.name), Some(CategoryName(cats, p.categoryInternalId).GetOr("Uncategorized")),
             Some(p.stock), Some(SoldInRange(p.code, items, headers, range)))
  }

  function AllRows(ps: seq<Product>, cats: seq<Category>, items: seq<Item>, headers: seq<Header>, range: Option<Range>)
    : (r: seq<QueryRow>)
    ensures |r| == |ps| && forall i :: 0 <= i < |ps| ==> r[i] == RowOf(ps[i], cats, items, headers, range)
  {
    seq(|ps|, i requires 0 <= i < |ps| => RowOf(ps[i], cats, items, headers, range))
  }

  lemma {:induction false} NoCategoryNoName(cats: seq<Category>, internalId: Option<int>)
    requires internalId.None? || forall k :: 0 <= k < |cats| ==> cats[k].id != internalId.value
    ensures CategoryName(cats, internalId).None?
    decreases |cats|
  {
    if cats != [] && internalId.Some? {
      assert forall k :: 0 <= k < |cats[1..]| ==> cats[1..][k] == cats[k + 1];
      NoCategoryNoName(cats[1..], internalId);
    }
  }

  lemma {:induction false} NoCodeNoSales(items: seq<Item>, headers: seq<Header>, range: Option<Range>)
    ensures SoldInRange(None, items, headers, range) == 0
    decreases |items|
  {
    if items != [] {
      NoCodeNoSales(items[1..], headers, range);
    }
  }

  /**
   * The query row of a product: its code, name and stock; "Uncategorized" when no
   * category has its internal id; and no units sold when it has no product code,
   * since sales are joined on product_code.
   */
  lemma RowColumns(p: Product, cats: seq<Category>, items: seq<Item>, headers: seq<Header>, range: Option<Range>)
    ensures var r := RowOf(p, cats, items, headers, range);
      r.productId == p.code && r.productName == Some(p.name) && r.currentStock == Some(p.stock)
    ensures (p.categoryInternalId.None? || forall k :: 0 <= k < |cats| ==> cats[k].id != p.categoryInternalId.value) ==>
      RowOf(p, cats, items, headers, range).category == Some("Uncategorized")
    ensures p.code.None? ==> RowOf(p, cats, items, headers, range).soldInRange == Some(0)
  {
    if p.categoryInternalId.None? || forall k :: 0 <= k < |cats| ==> cats[k].id != p.categoryInternalId.value {
      NoCategoryNoName(cats, p.categoryInternalId);
    }
    if p.code.None? {
      NoCodeNoSales(items, headers, range);
    }
  }

  function StockOf(r: QueryRow): int { r.currentStock.GetOr(0) }
  function SoldOf(r: QueryRow): int { r.soldInRange.GetOr(0) }

  /** `ORDER BY current_stock ASC, sold_in_range DESC`: `a` may come before `b`. */
  predicate QueryKeyLe(a: QueryRow, b: QueryRow) {
    StockOf(a) < StockOf(b) || (StockOf(a) == StockOf(b) && SoldOf(a) >= SoldOf(b))
  }

  ghost predicate QueryOrdered(rows: seq<QueryRow>) {
    forall i, j :: 0 <= i < j < |rows| ==> QueryKeyLe(rows[i], rows[j])
  }

  /**
   * `rows` is an answer of the ordered, limited query over `all`: the first
   * min(|all|, 1000) rows of some ordering of `all` (ties in either order).
   */
  ghost predicate QueryAnswer(all: seq<QueryRow>, rows: seq<QueryRow>) {
    |rows| == (if |all| < RowLimit then |all| else RowLimit)
    && QueryOrdered(rows)
    && multiset(rows) <= multiset(all)
    && forall x, y :: x in rows && y in multiset(all) - multiset(rows) ==> QueryKeyLe(x, y)
  }

  // ---------------------------------------------------------------------
  // The status mapping and the item loop
  // ---------------------------------------------------------------------

  /** 0 is Unavailable, at most 20 Critical, at most 40 Low, more Available. */
  function StatusOf(stock: int): (s: Status)
    ensures s == Unavailable <==> stock == 0
    ensures s == Critical <==> stock != 0 && stock <= 20
    ensures s == Low <==> 20 < stock <= 40
    ensures s == Available <==> stock > 40
  {
    if stock == 0 then Unavailable
    else if stock <= 20 then Critical
    else if stock <= 40 then Low
    else Available
  }

  /** `$stock === 0 || $stock <= 40`: the rows the report keeps. */
  predicate Kept(r: QueryRow) { StockOf(r) == 0 || StockOf(r) <= 40 }

  function ItemOf(r: QueryRow): ReportItem {
    ReportItem(r.productId.GetOr(""), r.productName.GetOr(""), r.category.GetOr(""),
               StockOf(r), SoldOf(r), StatusOf(StockOf(r)))
  }

  /** The items the loop collects from `rows`, in row order. */
  function Emit(rows: seq<QueryRow>): seq<ReportItem>
    decreases |rows|
  {
    if rows == [] then []
    else
      var last := rows[|rows| - 1];
      Emit(rows[..|rows| - 1]) + (if Kept(last) then [ItemOf(last)] else [])
  }

  /** The loop over the query rows (lines 121-150). */
  method BuildItems(rows: seq<QueryRow>) returns (items: seq<ReportItem>)
    ensures items == Emit(rows)
  {
    items := [];
    var i := 0;
    while i < |rows|
      invariant 0 <= i <= |rows|
      invariant items == Emit(rows[..i])
    {
      var r := rows[i];
      assert rows[..i + 1][..i] == rows[..i];
      var stock := r.currentStock.GetOr(0);
      var status := StatusOf(stock);
      if stock == 0 || stock <= 40 {
        items := items + [ReportItem(r.productId.GetOr(""), r.productName.GetOr(""), r.category.GetOr(""),
                                     stock, r.soldInRange.GetOr(0), status)];
      }
      i := i + 1;
    }
    assert rows[..|rows|] == rows;
  }

  /**
   * The whole endpoint over the tables: parameters, query result and emitted items.
   * `queryOk` says whether a database handle exists and the prepare, execute or
   * query succeeds; otherwise the exception is caught and answered `success: false`.
   */
  method LowStockReport(db: Database, rawStart: Option<string>, rawEnd: Option<string>, queryOk: bool,
                        rows: seq<QueryRow>)
    returns (answer: Answer)
    requires queryOk ==> QueryAnswer(AllRows(db.products, db.categories, db.transactionItems, db.transactions,
                                             DateRange(Param(rawStart), Param(rawEnd))), rows)
    ensures !queryOk ==> answer == QueryFailed
    ensures queryOk ==> answer == Reported(Report(Param(rawStart), Param(rawEnd), |Emit(rows)|, Emit(rows)))
  {
    if !queryOk {
      return QueryFailed;
    }
    var start, end := Param(rawStart), Param(rawEnd);
    var items := BuildItems(rows);
    answer := Reported(Report(start, end, |items|, items));
  }

  // ---------------------------------------------------------------------
  // Properties
  // ---------------------------------------------------------------------

  /** Negative stock is reported as Critical, not Unavailable. */
  lemma NegativeStockIsCritical(stock: int)
    requires stock < 0
    ensures StatusOf(stock) == Critical
  {
  }

  /** A missing stock counts as 0, so the row is kept as Unavailable; missing text and sales read as "" and 0. */
  lemma MissingColumnsDefault(r: QueryRow)
    ensures r.currentStock.None? ==> Kept(r) && ItemOf(r).currentStock == 0 && ItemOf(r).status == Unavailable
    ensures r.soldInRange.None? ==> ItemOf(r).soldInRange == 0
    ensures r.productId.None? ==> ItemOf(r).productId == ""
  {
  }

  /** `x` is the item of a kept row of `rows`. */
  ghost predicate FromKeptRow(rows: seq<QueryRow>, x: ReportItem) {
    exists i :: 0 <= i < |rows| && Kept(rows[i]) && x == ItemOf(rows[i])
  }

  /** Every emitted item comes from a kept row, and every kept row is emitted. */
  lemma EmitMembers(rows: seq<QueryRow>)
    ensures forall k :: 0 <= k < |Emit(rows)| ==> FromKeptRow(rows, Emit(rows)[k])
    ensures forall i :: 0 <= i < |rows| && Kept(rows[i]) ==> ItemOf(rows[i]) in Emit(rows)
    ensures |Emit(rows)| == Count(rows, Kept)
  {
    EmitFromKept(rows);
    KeptEmitted(rows);
    EmitCount(rows);
  }

  lemma {:induction false} EmitFromKept(rows: seq<QueryRow>)
    ensures forall k :: 0 <= k < |Emit(rows)| ==> FromKeptRow(rows, Emit(rows)[k])
    decreases |rows|
  {
    if rows != [] {
      var init := rows[..|rows| - 1];
      var last := rows[|rows| - 1];
      EmitFromKept(init);
      var e := Emit(rows);
      assert e == Emit(init) + (if Kept(last) then [ItemOf(last)] else []);
      forall k | 0 <= k < |e|
        ensures FromKeptRow(rows, e[k])
      {
        if k < |Emit(init)| {
          assert e[k] == Emit(init)[k];
          assert FromKeptRow(init, Emit(init)[k]);
          var i :| 0 <= i < |init| && Kept(init[i]) && Emit(init)[k] == ItemOf(init[i]);
          assert rows[i] == init[i];
          assert 0 <= i < |rows| && Kept(rows[i]) && e[k] == ItemOf(rows[i]);
        } else {
          var i := |rows| - 1;
          assert 0 <= i < |rows| && Kept(rows[i]) && e[k] == ItemOf(rows[i]);
        }
      }
    }
  }

  lemma {:induction false} KeptEmitted(rows: seq<QueryRow>)
    ensures forall i :: 0 <= i < |rows| && Kept(rows[i]) ==> ItemOf(rows[i]) in Emit(rows)
    decreases |rows|
  {
    if rows != [] {
      var init := rows[..|rows| - 1];
      var last := rows[|rows| - 1];
      KeptEmitted(init);
      var e := Emit(rows);
      assert e == Emit(init) + (if Kept(last) then [ItemOf(last)] else []);
      forall i | 0 <= i < |rows| && Kept(rows[i]) ensures ItemOf(rows[i]) in e {
        if i < |init| {
          assert rows[i] == init[i];
        }
      }
    }
  }

  lemma {:induction false} EmitCount(rows: seq<QueryRow>)
    ensures |Emit(rows)| == Count(rows, Kept)
    decreases |rows|
  {
    if rows != [] {
      EmitCount(rows[..|rows| - 1]);
      CountPrefixStep(rows, |rows| - 1, Kept);
      assert rows[..|rows|] == rows;
    }
  }

  /** No item is ever Available; the count lives in `meta.returned`. */
  lemma ReportNeverAvailable(rows: seq<QueryRow>)
    ensures forall k :: 0 <= k < |Emit(rows)| ==> Emit(rows)[k].status != Available && Emit(rows)[k].currentStock <= 40
    ensures |Emit(rows)| <= |rows|
  {
    EmitMembers(rows);
    assert Count(rows, Kept) <= |rows|;
  }

  /** The report items of some rows, in their order. */
  function ItemsOf(rows: seq<QueryRow>): seq<ReportItem> {
    seq(|rows|, i requires 0 <= i < |rows| => ItemOf(rows[i]))
  }

  /** The loop's items are exactly the items of the kept rows, in row order. */
  lemma {:induction false} EmitIsKeptItems(rows: seq<QueryRow>)
    ensures Emit(rows) == ItemsOf(Filter(rows, Kept))
    decreases |rows|
  {
    if rows != [] {
      var init, last := rows[..|rows| - 1], rows[|rows| - 1];
      assert rows == init + [last];
      EmitIsKeptItems(init);
      FilterSnoc(init, last, Kept);
      var f := Filter(init, Kept);
      var tail := if Kept(last) then [last] else [];
      assert ItemsOf(f + tail) == ItemsOf(f) + (if Kept(last) then [ItemOf(last)] else []) by {
        assert forall i :: 0 <= i < |f| ==> (f + tail)[i] == f[i];
      }
    }
  }

  /**
   * The report is the kept rows' items in query order, so it keeps that order:
   * stock ascending, then units sold descending.
   */
  lemma {:induction false} ReportKeepsQueryOrder(rows: seq<QueryRow>)
    requires QueryOrdered(rows)
    ensures Emit(rows) == ItemsOf(Filter(rows, Kept))
    ensures forall a, b :: 0 <= a < b < |Emit(rows)| ==>
      Emit(rows)[a].currentStock < Emit(rows)[b].currentStock
      || (Emit(rows)[a].currentStock == Emit(rows)[b].currentStock && Emit(rows)[a].soldInRange >= Emit(rows)[b].soldInRange)
    decreases |rows|
  {
    EmitIsKeptItems(rows);
    if rows != [] {
      var init := rows[..|rows| - 1];
      var last := rows[|rows| - 1];
      assert QueryOrdered(init);
      ReportKeepsQueryOrder(init);
      EmitMembers(init);
      var e := Emit(rows);
      if Kept(last) {
        forall a | 0 <= a < |Emit(init)|
          ensures e[a].currentStock < ItemOf(last).currentStock
            || (e[a].currentStock == ItemOf(last).currentStock && e[a].soldInRange >= ItemOf(last).soldInRange)
        {
          var i :| 0 <= i < |init| && Kept(init[i]) && Emit(init)[a] == ItemOf(init[i]);
          assert QueryKeyLe(rows[i], rows[|rows| - 1]);
        }
      }
    }
  }

  /** With at most 1000 products, every product with stock of at most 40 is reported. */
  lemma SmallCatalogueFullyReported(all: seq<QueryRow>, rows: seq<QueryRow>, x: QueryRow)
    requires QueryAnswer(all, rows) && |all| <= RowLimit
    requires x in all && Kept(x)
    ensures ItemOf(x) in Emit(rows)
  {
    assert |multiset(rows)| == |multiset(all)|;
    assert multiset(all) - multiset(rows) == multiset{} by {
      assert |multiset(all) - multiset(rows)| == |multiset(all)| - |multiset(rows)|;
    }
    assert x in multiset(all);
    assert x in multiset(rows);
    var i :| 0 <= i < |rows| && rows[i] == x;
    EmitMembers(rows);
  }

  /** A query answer has at most 1000 rows, so at most 1000 items are reported. */
  lemma ReportAtMostLimit(all: seq<QueryRow>, rows: seq<QueryRow>)
    requires QueryAnswer(all, rows)
    ensures |Emit(rows)| <= RowLimit
  {
    ReportNeverAvailable(rows);
  }
}
