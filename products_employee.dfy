/**
 * The employee product table (`products_EMP.js`): the stock and status classifiers,
 * the fields of each row, and the loader that skips re-rendering when the fetched
 * data equals the data it rendered last.
 */
module ProductsEmployee {
  import opened Common
  import opened JsValues

  /** A product object from `get_products.php`; a missing key is `Undefined`. */
  datatype ProductRow = ProductRow(
    productCode: JsValue, id: JsValue, productName: JsValue, product: JsValue,
    categoryCode: JsValue, categoryName: JsValue, category: JsValue,
    price: JsValue, stock: JsValue)

  /** The stock cell's text: the word "Unavailable", or the number. */
  datatype StockText = UnavailableWord | NumberText(n: Num)

  /** The status cell: its text and class. */
  datatype Status = Status(text: string, cls: string)

  /** One rendered row (the date column is left to the browser's locale). */
  datatype RowView = RowView(id: JsValue, name: JsValue, category: string, price: JsValue,
                             stockClass: string, stockText: StockText, status: Status)

  /** The table body: as first served, a message for an empty list, rows, or an error line. */
  datatype Table = Initial | NoProducts | Rows(rows: seq<RowView>) | ErrorLine(message: string)

  // ---------------------------------------------------------------------
  // Classifiers
  // ---------------------------------------------------------------------

  /** `stockClass`: NaN has no class, exactly 0 is unavailable, then at most 20, at most 40, above. */
  function StockClass(s: Num): string {
    match s
    case NaN => ""
    case Fin(v) =>
      if v == 0.0 then "stock-unavailable"
      else if v <= 20.0 then "stock-low"
      else if v <= 40.0 then "stock-medium"
      else "stock-high"
  }

  /** `statusInfo`: Unavailable exactly at 0, Available otherwise (NaN included). */
  function StatusInfo(s: Num): Status {
    if s == Fin(0.0) then Status("Unavailable", "status-unavailable") else Status("Available", "status-available")
  }

  // ---------------------------------------------------------------------
  // Rows
  // ---------------------------------------------------------------------

  /** `Number(p.stock || 0)` */
  function StockOf(p: ProductRow): Num { NumberOf(Or(p.stock, Int(0))) }

  /** The id column: `product_code || id || ""`. */
  function DisplayedId(p: ProductRow): JsValue { Or(Or(p.productCode, p.id), Str("")) }

  function CategoryText(p: ProductRow): string {
    (if Truthy(p.categoryCode) then ToStr(p.categoryCode) + " - " else "")
    + ToStr(Or(Or(p.categoryName, p.category), Str("")))
  }

  function RowOf(p: ProductRow): RowView {
    var stock := StockOf(p);
    RowView(DisplayedId(p), Or(Or(p.productName, p.product), Str("")), CategoryText(p), Or(p.price, Int(0)),
            StockClass(stock), if stock == Fin(0.0) then UnavailableWord else NumberText(stock), StatusInfo(stock))
  }

  /** `renderEmployeeProducts` for a list. */
  function Render(data: seq<ProductRow>): Table {
    if data == [] then NoProducts
    else Rows(seq(|data|, i requires 0 <= i < |data| => RowOf(data[i])))
  }

  // ---------------------------------------------------------------------
  // The loader
  // ---------------------------------------------------------------------

  /**
   * The parsed JSON object: whether `success` is literally false, its `error` text, and the
   * `data`, `products` and `items` arrays (None when the key is missing or not an array).
   */
  datatype ProductsJson = ProductsJson(successFalse: bool, error: JsValue,
                                       data: Option<seq<ProductRow>>, products: Option<seq<ProductRow>>,
                                       items: Option<seq<ProductRow>>)

  /** What the fetch yields. */
  datatype Fetched = HttpError(status: int) | NotJson | FalsyJson | Json(json: ProductsJson) | NetworkFailure

  /** `Array.isArray(json.data) ? json.data : (json.products || json.items || [])`; an array is truthy even when empty. */
  function DataOf(j: ProductsJson): seq<ProductRow> {
    if j.data.Some? then j.data.value
    else if j.products.Some? then j.products.value
    else j.items.GetOr([])
  }

  /** The error line each failure shows, or None for a usable answer. */
  function ErrorOf(f: Fetched): Option<string> {
    match f
    case HttpError(status) => Some("Fetch failed (" + IntToDec(status) + ")")
    case NotJson => Some("Invalid server response")
    case FalsyJson => Some("Empty server response")
    case Json(j) => if j.successFalse then Some("Server error: " + ToStr(Or(j.error, Str("Unknown")))) else None
    case NetworkFailure => Some("Cannot load products (network/server).")
  }

  /** The loader's state: what the table shows, and the last data it rendered (`__lastDataHash`). */
  datatype PageState = PageState(table: Table, lastData: Option<seq<ProductRow>>)

  /**
   * `loadEmployeeProducts`, as written: nothing happens without the table; an error only
   * replaces the table; data equal to the last rendered data is not rendered again.
   */
  function LoadStep(s: PageState, tbodyPresent: bool, f: Fetched): PageState {
    if !tbodyPresent then s
    else match ErrorOf(f)
      case Some(msg) => PageState(ErrorLine(msg), s.lastData)
      case None =>
        var data := DataOf(f.json);
        if s.lastData == Some(data) then s
        else PageState(Render(data), Some(data))
  }

  /** The loader with the evidently intended behaviour: an error also forgets the last data. */
  function CorrectedLoadStep(s: PageState, tbodyPresent: bool, f: Fetched): PageState {
    if !tbodyPresent then s
    else match ErrorOf(f)
      case Some(msg) => PageState(ErrorLine(msg), None)
      case None =>
        var data := DataOf(f.json);
        if s.lastData == Some(data) then s
        else PageState(Render(data), Some(data))
  }

  /** The remembered data, when there is any, is what the table shows. */
  ghost predicate ShowsLastData(s: PageState) {
    s.lastData.Some? ==> s.table == Render(s.lastData.value)
  }

  class EmployeeProductsPage {
    var table: Table
    var lastData: Option<seq<ProductRow>>

    constructor()
      ensures table == Initial && lastData == None
    {
      table := Initial;
      lastData := None;
    }

    /** One run of the loader against what the fetch yields. */
    method Load(tbodyPresent: bool, f: Fetched)
      modifies this
      ensures PageState(table, lastData) == LoadStep(PageState(old(table), old(lastData)), tbodyPresent, f)
    {
      if !tbodyPresent {
        return;
      }
      var err := ErrorOf(f);
      if err.Some? {
        table := ErrorLine(err.value);
        return;
      }
      var data := DataOf(f.json);
      if lastData == Some(data) {
        return;
      }
      lastData := Some(data);
      table := Render(data);
    }

    /** One run of the corrected loader: an error also forgets the last data. */
    method CorrectedLoad(tbodyPresent: bool, f: Fetched)
      modifies this
      ensures PageState(table, lastData) == CorrectedLoadStep(PageState(old(table), old(lastData)), tbodyPresent, f)
    {
      if !tbodyPresent {
        return;
      }
      var err := ErrorOf(f);
      if err.Some? {
        table := ErrorLine(err.value);
        lastData := None;
        return;
      }
      var data := DataOf(f.json);
      if lastData == Some(data) {
        return;
      }
      lastData := Some(data);
      table := Render(data);
    }

    /** `startWatchingEmployeeProducts` forgets the last data, so the next load renders. */
    method StartWatching()
      modifies this`lastData
      ensures lastData == None
    {
      lastData := None;
    }
  }

  // ---------------------------------------------------------------------
  // Properties of the classifiers
  // ---------------------------------------------------------------------

  /** The class bands, each as the stock it covers; a negative stock is "stock-low". */
  lemma StockClassBands(v: real)
    ensures StockClass(Fin(v)) == "stock-unavailable" <==> v == 0.0
    ensures StockClass(Fin(v)) == "stock-low" <==> v != 0.0 && v <= 20.0
    ensures StockClass(Fin(v)) == "stock-medium" <==> 20.0 < v <= 40.0
    ensures StockClass(Fin(v)) == "stock-high" <==> 40.0 < v
    ensures v < 0.0 ==> StockClass(Fin(v)) == "stock-low"
  {
  }

  /** The status is Unavailable exactly when the stock is 0, and the stock cell says so too. */
  lemma StatusUnavailableIffZero(p: ProductRow)
    ensures RowOf(p).status.text == "Unavailable" <==> StockOf(p) == Fin(0.0)
    ensures RowOf(p).stockText == UnavailableWord <==> RowOf(p).status.text == "Unavailable"
    ensures RowOf(p).stockText == UnavailableWord <==> RowOf(p).stockClass == "stock-unavailable"
  {
  }

  /** A stock that is not a number has no class and is reported Available. */
  lemma NonNumericStockAvailable(p: ProductRow)
    requires StockOf(p).NaN?
    ensures RowOf(p).stockClass == "" && RowOf(p).status.text == "Available" && RowOf(p).stockText == NumberText(NaN)
  {
  }

  /** A missing stock is 0, hence Unavailable. */
  lemma MissingStockUnavailable(p: ProductRow)
    requires !Truthy(p.stock)
    ensures RowOf(p).status.text == "Unavailable" && RowOf(p).stockClass == "stock-unavailable"
  {
  }

  /** The id shown is `product_code`, else `id`, else "". */
  lemma DisplayedIdFallback(p: ProductRow)
    ensures Truthy(p.productCode) ==> DisplayedId(p) == p.productCode
    ensures !Truthy(p.productCode) && Truthy(p.id) ==> DisplayedId(p) == p.id
    ensures !Truthy(p.productCode) && !Truthy(p.id) ==> DisplayedId(p) == Str("")
  {
  }

  /** One row per product, in order. */
  lemma RenderOneRowEach(data: seq<ProductRow>)
    requires data != []
    ensures Render(data).Rows? && |Render(data).rows| == |data|
    ensures forall i :: 0 <= i < |data| ==> Render(data).rows[i] == RowOf(data[i])
  {
  }

  // ---------------------------------------------------------------------
  // Properties of the loader
  // ---------------------------------------------------------------------

  /** Loading twice with the same outcome is the same as loading once. */
  lemma LoadIdempotent(s: PageState, tbodyPresent: bool, f: Fetched)
    ensures LoadStep(LoadStep(s, tbodyPresent, f), tbodyPresent, f) == LoadStep(s, tbodyPresent, f)
  {
  }

  /** New data is rendered and remembered; the same data as last time changes nothing. */
  lemma LoadRendersNewData(s: PageState, j: ProductsJson)
    requires !j.successFalse
    ensures s.lastData == Some(DataOf(j)) ==> LoadStep(s, true, Json(j)) == s
    ensures s.lastData != Some(DataOf(j)) ==>
      LoadStep(s, true, Json(j)) == PageState(Render(DataOf(j)), Some(DataOf(j)))
  {
  }

  /**
   * As written, an error between two loads of the same data leaves the error line on
   * screen: the second load is skipped because the data equals the remembered data.
   */
  lemma AsWrittenErrorMasksData(d: seq<ProductRow>)
    ensures var j := ProductsJson(false, Undefined, Some(d), None, None);
      var s1 := LoadStep(PageState(Initial, None), true, Json(j));
      var s2 := LoadStep(s1, true, NetworkFailure);
      var s3 := LoadStep(s2, true, Json(j));
      s3.table == ErrorLine("Cannot load products (network/server).") && !ShowsLastData(s3)
  {
  }

  /** The corrected loader keeps the table showing the remembered data, so a successful load always shows its data. */
  lemma CorrectedLoadShowsData(s: PageState, tbodyPresent: bool, f: Fetched)
    requires ShowsLastData(s)
    ensures ShowsLastData(CorrectedLoadStep(s, tbodyPresent, f))
    ensures tbodyPresent && ErrorOf(f).None? ==> CorrectedLoadStep(s, tbodyPresent, f).table == Render(DataOf(f.json))
  {
  }
}
