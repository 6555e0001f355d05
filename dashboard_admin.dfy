/**
 * The admin dashboard (`dashboard_AD.js`): the stock figures of `loadProductsSummary`
 * (stock value, low-stock and out-of-stock counts, category count) and the sales
 * figures of `loadSalesMetrics` (today's and this month's totals, the average and
 * the highest sale).
 *
 * Numbers are exact reals; currency formatting and infinities are not modelled.
 */
module DashboardAdmin {
  import opened Common
  import opened JsValues

  /** The stock threshold: at most 40 is low. */
  const LowThreshold: real := 40.0

  /**
   * The shapes an endpoint answer may take: nothing (a failed fetch or invalid JSON),
   * a bare array, or an object whose listed keys may hold arrays.
   */
  datatype Envelope<T> =
    | Missing
    | Bare(list: seq<T>)
    | Wrapped(data: Option<seq<T>>, items: Option<seq<T>>, transactions: Option<seq<T>>)

  // ---------------------------------------------------------------------
  // Products
  // ---------------------------------------------------------------------

  /** A product object as the dashboard reads it. */
  datatype DashProduct = DashProduct(stock: JsValue, currentStock: JsValue, qty: JsValue, quantity: JsValue,
                                     price: JsValue, sellingPrice: JsValue, unitPrice: JsValue,
                                     category: JsValue, categoryName: JsValue)

  /** `normalizeProducts`: the array itself, else `data`, else `items`, else nothing. */
  function NormalizeProducts(json: Envelope<DashProduct>): seq<DashProduct> {
    match json
    case Missing => []
    case Bare(list) => list
    case Wrapped(data, items, _) => if data.Some? then data.value else items.GetOr([])
  }

  /** `p.stock ?? p.current_stock ?? p.qty ?? p.quantity ?? 0` */
  function RawStock(p: DashProduct): JsValue {
    Coalesce(Coalesce(Coalesce(Coalesce(p.stock, p.currentStock), p.qty), p.quantity), Int(0))
  }

  /** The characters `/[^0-9.\-]/g` keeps. */
  predicate StockChar(c: char) { IsDigit(c) || c == '.' || c == '-' }

  /** `Number(String(raw).replace(...).trim())`, with a non-finite result taken as 0. */
  function ParsedStock(p: DashProduct): real {
    match NumberOfString(JsTrim(Filter(ToStr(RawStock(p)), StockChar)))
    case Fin(v) => v
    case NaN => 0.0
  }

  /** `Number(p.price ?? p.selling_price ?? p.unit_price ?? 0) || 0` */
  function PriceOf(p: DashProduct): real {
    var n := NumberOf(Coalesce(Coalesce(Coalesce(p.price, p.sellingPrice), p.unitPrice), Int(0)));
    if NumTruthy(n) then n.v else 0.0
  }

  function ValueOf(p: DashProduct): real { ParsedStock(p) * PriceOf(p) }

  predicate IsOut(p: DashProduct) { ParsedStock(p) == 0.0 }

  predicate IsLow(p: DashProduct) { 0.0 < ParsedStock(p) <= LowThreshold }

  /** The three stock figures written to the page; the low figure includes the out-of-stock ones. */
  datatype StockSummary = StockSummary(totalStockValue: real, lowStockItems: nat, outOfStockItems: nat)

  /** The stock loop of `loadProductsSummary`. */
  method StockStats(ps: seq<DashProduct>) returns (r: StockSummary)
    ensures r == StockSummary(SumReal(ps, ValueOf), Count(ps, IsLow) + Count(ps, IsOut), Count(ps, IsOut))
  {
    var totalStockValue := 0.0;
    var lowCount := 0;
    var outCount := 0;
    var i := 0;
    while i < |ps|
      invariant 0 <= i <= |ps|
      invariant totalStockValue == SumReal(ps[..i], ValueOf)
      invariant lowCount == Count(ps[..i], IsLow)
      invariant outCount == Count(ps[..i], IsOut)
    {
      var p := ps[i];
      totalStockValue := totalStockValue + ValueOf(p);
      if IsOut(p) {
        outCount := outCount + 1;
      } else if IsLow(p) {
        lowCount := lowCount + 1;
      }
      SumRealPrefixStep(ps, i, ValueOf);
      CountPrefixStep(ps, i, IsLow);
      CountPrefixStep(ps, i, IsOut);
      i := i + 1;
    }
    assert ps[..i] == ps;
    r := StockSummary(totalStockValue, lowCount + outCount, outCount);
  }

  /** `p.category ?? p.category_name ?? "Uncategorized"` */
  function CategoryKey(p: DashProduct): JsValue {
    Coalesce(Coalesce(p.category, p.categoryName), Str("Uncategorized"))
  }

  /** The distinct category keys (a `Set`, in which the number 1 and the text "1" differ). */
  function CategoryKeys(ps: seq<DashProduct>): set<JsValue>
    decreases |ps|
  {
    if ps == [] then {} else {CategoryKey(ps[0])} + CategoryKeys(ps[1..])
  }

  /** The category count: the length of the endpoint's `data` array, else the distinct product categories. */
  function CategoryCount<T>(cats: Envelope<T>, ps: seq<DashProduct>): nat {
    if cats.Wrapped? && cats.data.Some? then |cats.data.value| else |CategoryKeys(ps)|
  }

  // ---------------------------------------------------------------------
  // Sales
  // ---------------------------------------------------------------------

  /** A transaction object as the dashboard reads it. */
  datatype DashTxn = DashTxn(totalAmount: JsValue, total: JsValue, amount: JsValue)

  /** `transactions`, else `data`, else the answer itself when it is an array. */
  function TransactionsOf(json: Envelope<DashTxn>): seq<DashTxn> {
    match json
    case Missing => []
    case Bare(list) => list
    case Wrapped(data, _, transactions) => if transactions.Some? then transactions.value else data.GetOr([])
  }

  /** `Number(t.total_amount ?? t.total ?? t.amount ?? 0) || 0` */
  function AmountOf(t: DashTxn): real {
    var n := NumberOf(Coalesce(Coalesce(Coalesce(t.totalAmount, t.total), t.amount), Int(0)));
    if NumTruthy(n) then n.v else 0.0
  }

  function SalesTotal(ts: seq<DashTxn>): real { SumReal(ts, AmountOf) }

  /** `monthCount ? monthTotal / monthCount : 0` */
  function Average(ts: seq<DashTxn>): real {
    if |ts| == 0 then 0.0 else SalesTotal(ts) / (|ts| as real)
  }

  /** `h` is the largest amount, or 0 when no amount is positive. */
  ghost predicate IsHighest(ts: seq<DashTxn>, h: real) {
    h >= 0.0
    && (forall i :: 0 <= i < |ts| ==> AmountOf(ts[i]) <= h)
    && (h == 0.0 || exists i :: 0 <= i < |ts| && AmountOf(ts[i]) == h)
  }

  /** The `highest` loop of `loadSalesMetrics`, starting from 0. */
  method Highest(ts: seq<DashTxn>) returns (h: real)
    ensures IsHighest(ts, h)
  {
    h := 0.0;
    var i := 0;
    while i < |ts|
      invariant 0 <= i <= |ts|
      invariant IsHighest(ts[..i], h)
    {
      var v := AmountOf(ts[i]);
      if v > h {
        h := v;
      }
      assert forall j :: 0 <= j < i ==> ts[..i + 1][j] == ts[..i][j];
      assert ts[..i + 1][i] == ts[i];
      i := i + 1;
    }
    assert ts[..i] == ts;
  }

  /** The five sales figures written to the page. */
  datatype SalesMetrics = SalesMetrics(todaysSales: real, monthlySales: real, monthlyTransactions: nat,
                                       averageSale: real, highestSale: real)

  /** `loadSalesMetrics` given the two answers of the transactions endpoint. */
  method LoadSalesMetrics(todayJson: Envelope<DashTxn>, monthJson: Envelope<DashTxn>) returns (m: SalesMetrics)
    ensures var month := TransactionsOf(monthJson);
      m.todaysSales == SalesTotal(TransactionsOf(todayJson))
      && m.monthlySales == SalesTotal(month)
      && m.monthlyTransactions == |month|
      && m.averageSale == Average(month)
      && IsHighest(month, m.highestSale)
  {
    var todayTx := TransactionsOf(todayJson);
    var monthTx := TransactionsOf(monthJson);
    var highest := Highest(monthTx);
    m := SalesMetrics(SalesTotal(todayTx), SalesTotal(monthTx), |monthTx|, Average(monthTx), highest);
  }

  // ---------------------------------------------------------------------
  // Properties
  // ---------------------------------------------------------------------

  /** Out of stock is exactly 0, low is above 0 up to 40; a product is never both. */
  lemma OutAndLowDisjoint(p: DashProduct)
    ensures !(IsOut(p) && IsLow(p))
    ensures IsOut(p) || IsLow(p) <==> 0.0 <= ParsedStock(p) <= 40.0
  {
  }

  /** The displayed low figure counts every product with stock from 0 to 40. */
  lemma {:induction false} LowFigureCountsZeroToForty(ps: seq<DashProduct>)
    ensures Count(ps, IsLow) + Count(ps, IsOut)
         == Count(ps, (p: DashProduct) => 0.0 <= ParsedStock(p) <= LowThreshold)
    decreases |ps|
  {
    if ps != [] {
      LowFigureCountsZeroToForty(ps[1..]);
    }
  }

  /** A negative stock is counted neither as out of stock nor as low. */
  lemma NegativeStockUncounted(p: DashProduct)
    requires ParsedStock(p) < 0.0
    ensures !IsOut(p) && !IsLow(p)
  {
  }

  /** Text with no digits reads as 0, so that product counts as out of stock. */
  lemma StockTextWithoutDigitsIsOut(p: DashProduct)
    requires p.stock == Str("abc")
    ensures IsOut(p)
  {
    assert RawStock(p) == Str("abc");
    assert Filter("abc", StockChar) == "" by {
      assert "abc"[1..] == "bc" && "bc"[1..] == "c" && "c"[1..] == "";
    }
    assert JsTrim("") == "";
  }

  lemma FilterDropsUnit()
    ensures Filter("12 pcs", StockChar) == "12"
  {
    assert "s"[1..] == "" && !StockChar('s');
    assert Filter("s", StockChar) == "";
    assert "cs"[1..] == "s" && !StockChar('c');
    assert Filter("cs", StockChar) == "";
    assert "pcs"[1..] == "cs" && !StockChar('p');
    assert Filter("pcs", StockChar) == "";
    assert " pcs"[1..] == "pcs" && !StockChar(' ');
    assert Filter(" pcs", StockChar) == "";
    assert "2 pcs"[1..] == " pcs";
    assert "12 pcs"[1..] == "2 pcs";
  }

  lemma TwelveReads()
    ensures NumberOfString(JsTrim("12")) == Fin(12.0)
  {
    assert JsTrim("12") == "12" by {
      assert TrimLeft("12", IsJsSpace) == "12";
      assert TrimRight("12", IsJsSpace) == "12";
    }
    NumberOfDigits("12");
    assert DigitsValue("12") == 12;
  }

  /** The digits among other text are read: "12 pcs" is a stock of 12, which is low. */
  lemma StockTextWithUnitIsRead(q: DashProduct)
    requires q.stock == Str("12 pcs")
    ensures ParsedStock(q) == 12.0 && IsLow(q)
  {
    assert ToStr(RawStock(q)) == "12 pcs";
    FilterDropsUnit();
    TwelveReads();
  }

  /**
   * Without the categories endpoint, the count is the number of distinct product
   * categories: at most one per product, at least one when there are products, and
   * every product's key among them.
   */
  lemma {:induction false} CategoryCountBounds<T>(cats: Envelope<T>, ps: seq<DashProduct>)
    ensures !(cats.Wrapped? && cats.data.Some?) ==> CategoryCount(cats, ps) <= |ps|
    ensures |CategoryKeys(ps)| <= |ps|
    ensures ps != [] ==> |CategoryKeys(ps)| >= 1
    ensures forall i :: 0 <= i < |ps| ==> CategoryKey(ps[i]) in CategoryKeys(ps)
    decreases |ps|
  {
    if ps != [] {
      CategoryCountBounds(cats, ps[1..]);
      assert CategoryKey(ps[0]) in CategoryKeys(ps);
      assert forall i :: 1 <= i < |ps| ==> ps[i] == ps[1..][i - 1];
    }
  }

  /** Products without a category are all counted under one "Uncategorized" key. */
  lemma UncategorizedCountedOnce(p: DashProduct, q: DashProduct)
    requires IsNullish(p.category) && IsNullish(p.categoryName) && IsNullish(q.category) && IsNullish(q.categoryName)
    ensures |CategoryKeys([p, q])| == 1
  {
    assert [p, q][1..] == [q];
    assert CategoryKeys([q]) == {Str("Uncategorized")} by {
      assert [q][1..] == [];
    }
  }

  /** The sum of the amounts is at most their count times any upper bound of them. */
  lemma SumAtMostCountTimesBound(ts: seq<DashTxn>, h: real)
    requires forall i :: 0 <= i < |ts| ==> AmountOf(ts[i]) <= h
    ensures SalesTotal(ts) <= (|ts| as real) * h
  {
    SumRealAtMost(ts, AmountOf, h);
    RepeatAddIsProduct(|ts|, h);
  }

  /** The average sale never exceeds the highest sale. */
  lemma AverageAtMostHighest(ts: seq<DashTxn>, h: real)
    requires IsHighest(ts, h)
    ensures Average(ts) <= h
  {
    if |ts| > 0 {
      SumAtMostCountTimesBound(ts, h);
      DivAtMost(SalesTotal(ts), |ts| as real, h);
    }
  }

  /** With no transactions the average and the highest sale are both 0. */
  lemma NoTransactionsGivesZeros(h: real)
    requires IsHighest([], h)
    ensures Average([]) == 0.0 && h == 0.0
  {
  }

  /** When no amount is positive, the highest sale shown is 0. */
  lemma HighestFloorIsZero(ts: seq<DashTxn>, h: real)
    requires IsHighest(ts, h)
    requires forall i :: 0 <= i < |ts| ==> AmountOf(ts[i]) <= 0.0
    ensures h == 0.0
  {
  }
}
