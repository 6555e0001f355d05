/**
 * The admin product page (`products_AD.js`): the category codes it derives, the
 * product code, category text and stock classification of each table row, and
 * the normalisation of the add/edit form before it is posted.
 */
module ProductsAdmin {
  import opened Common
  import opened JsValues
  import AddProduct
  import AddCategory

  // ---------------------------------------------------------------------
  // Category codes
  // ---------------------------------------------------------------------

  /** A category object from `get_categories.php`; a missing key is `Undefined`. */
  datatype CategoryRow = CategoryRow(id: JsValue, categoryId: JsValue, categoryNumber: JsValue,
                                     categoryName: JsValue, code: JsValue, categoryCode: JsValue)

  /** A category as `loadCategories` keeps it. */
  datatype LoadedCategory = LoadedCategory(id: JsValue, number: Num, name: JsValue, code: JsValue)

  /** `"C" + String(x).padStart(3, "0")` */
  function PaddedC(x: JsValue): string { "C" + PadLeft3(ToStr(x)) }

  /**
   * `codeFromCategory`: the given code, else "C" and the first truthy number field,
   * padded. Nothing in `products_AD.js` calls it (dead code there); it is kept to set
   * beside the derivation `loadCategories` does use.
   */
  function CodeFromCategory(c: CategoryRow): JsValue {
    Or(c.code, Str(PaddedC(Or(Or(Or(c.categoryId, c.categoryNumber), c.id), Str("")))))
  }

  /** The mapping in `loadCategories`: `code || category_code || "C" + padded category_id`. */
  function LoadedCategoryOf(c: CategoryRow): LoadedCategory {
    LoadedCategory(c.id, NumberOf(c.categoryId), c.categoryName,
                   Or(Or(c.code, c.categoryCode), Str(PaddedC(c.categoryId))))
  }

  // ---------------------------------------------------------------------
  // Table rows
  // ---------------------------------------------------------------------

  /** A product object from `get_products.php`. */
  datatype ProductRow = ProductRow(id: JsValue, productCode: JsValue, productName: JsValue,
                                   categoryCode: JsValue, categoryName: JsValue, price: JsValue, stock: JsValue)

  datatype Level = Unavailable | Low | Medium | High

  /** What a row shows: its code, its category text, and the classes and text of the stock and status cells. */
  datatype RowView = RowView(code: JsValue, category: string, stockClass: string, statusClass: string, statusText: string)

  /** The product code column: `product_code`, else "P" and the id padded to three digits. */
  function DisplayCode(p: ProductRow): JsValue {
    Or(p.productCode, Str("P" + PadLeft3(ToStr(p.id))))
  }

  /** `category_code + " - " + category_name` when there is a code, else the name or "". */
  function CategoryDisplay(p: ProductRow): string {
    if Truthy(p.categoryCode) then ToStr(p.categoryCode) + " - " + ToStr(p.categoryName)
    else ToStr(Or(p.categoryName, Str("")))
  }

  /** `Number(p.stock) || 0`: NaN (and 0) become 0. */
  function StockNumber(stock: JsValue): real {
    var n := NumberOf(stock);
    if NumTruthy(n) then n.v else 0.0
  }

  /** The classification: at most 0, at most 20, at most 40, above. */
  function LevelOf(n: real): Level {
    if n <= 0.0 then Unavailable
    else if n <= 20.0 then Low
    else if n <= 40.0 then Medium
    else High
  }

  function ClassName(l: Level): string {
    match l
    case Unavailable => "stock-unavailable"
    case Low => "stock-low"
    case Medium => "stock-medium"
    case High => "stock-high"
  }

  function StatusText(l: Level): string {
    match l
    case Unavailable => "Unavailable"
    case Low => "Low"
    case Medium => "Medium"
    case High => "High"
  }

  /** One row of `renderProductsTable`; the status cell reuses the stock cell's class. */
  function RowOf(p: ProductRow): RowView {
    var level := LevelOf(StockNumber(p.stock));
    var stockClass := ClassName(level);
    RowView(DisplayCode(p), CategoryDisplay(p), stockClass, stockClass, StatusText(level))
  }

  // ---------------------------------------------------------------------
  // The add/edit form
  // ---------------------------------------------------------------------

  /** The form's raw values; `status` is None when the page has no status control. */
  datatype Form = Form(name: string, category: string, price: string, stock: string, status: Option<string>)

  /** The JSON body posted; `id` is present only for an edit (to `update_product.php`). */
  datatype SaveBody = SaveBody(id: Option<JsValue>, productName: string, categoryInternalId: Num, price: real, stock: int)

  /**
   * `addProduct`: the normalised body, or None when the page alerts and posts nothing.
   * `editing` is `editingProductId`.
   */
  function SaveRequest(f: Form, editing: JsValue): Option<SaveBody> {
    var name := JsTrim(f.name);
    var price := match ParseFloat(f.price) case Fin(v) => v case NaN => 0.0;
    var parsedStock := ParseInt(f.stock).GetOr(0);
    var status := f.status.GetOr("available");
    if name == "" || f.category == "" then None
    else
      var stock := if status == "unavailable" then 0 else parsedStock;
      Some(SaveBody(if Truthy(editing) then Some(editing) else None,
                    name, NumberOfString(f.category), price, stock))
  }

  /** The page's state: the loaded categories and products, and the product being edited. */
  class ProductsAdminPage {
    var categories: seq<LoadedCategory>
    var products: seq<ProductRow>
    var editingProductId: JsValue

    constructor()
      ensures categories == [] && products == [] && editingProductId == Null
    {
      categories := [];
      products := [];
      editingProductId := Null;
    }

    /** `loadCategories`: a failed or unsuccessful fetch leaves no categories. */
    method LoadCategories(fetched: Option<seq<CategoryRow>>)
      modifies this`categories
      ensures fetched.None? ==> categories == []
      ensures fetched.Some? ==>
        (|categories| == |fetched.value|
         && forall i :: 0 <= i < |categories| ==> categories[i] == LoadedCategoryOf(fetched.value[i]))
    {
      if fetched.None? {
        categories := [];
      } else {
        categories := seq(|fetched.value|, i requires 0 <= i < |fetched.value| => LoadedCategoryOf(fetched.value[i]));
      }
    }

    /** `loadProducts`: a failed or unsuccessful fetch leaves no products. */
    method LoadProducts(fetched: Option<seq<ProductRow>>)
      modifies this`products
      ensures products == fetched.GetOr([])
    {
      products := fetched.GetOr([]);
    }

    /** `openProductModal` and `closeProductModal`: back to adding. */
    method ResetEditing()
      modifies this`editingProductId
      ensures editingProductId == Null
    {
      editingProductId := Null;
    }

    /** `openEditProductModal`: later submits update this product. */
    method OpenEdit(p: ProductRow)
      modifies this`editingProductId
      ensures editingProductId == p.id
    {
      editingProductId := p.id;
    }

    /** The body `addProduct` posts for the form, if any; an edit sends the edited product's id. */
    method Submit(f: Form) returns (body: Option<SaveBody>)
      ensures body == SaveRequest(f, editingProductId)
      ensures body.Some? ==> (body.value.id.Some? <==> Truthy(editingProductId))
    {
      body := SaveRequest(f, editingProductId);
    }
  }

  // ---------------------------------------------------------------------
  // Properties
  // ---------------------------------------------------------------------

  function Rank(l: Level): nat {
    match l
    case Unavailable => 0
    case Low => 1
    case Medium => 2
    case High => 3
  }

  /** The four bands, each as the range of stock it covers. */
  lemma LevelBands(n: real)
    ensures LevelOf(n) == Unavailable <==> n <= 0.0
    ensures LevelOf(n) == Low <==> 0.0 < n <= 20.0
    ensures LevelOf(n) == Medium <==> 20.0 < n <= 40.0
    ensures LevelOf(n) == High <==> 40.0 < n
  {
  }

  /** More stock never gives a lower level. */
  lemma LevelMonotone(a: real, b: real)
    requires a <= b
    ensures Rank(LevelOf(a)) <= Rank(LevelOf(b))
  {
  }

  /** A stock that does not read as a number counts as 0, so the row shows Unavailable. */
  lemma NonNumericStockUnavailable(p: ProductRow)
    requires NumberOf(p.stock).NaN?
    ensures RowOf(p).statusText == "Unavailable" && RowOf(p).stockClass == "stock-unavailable"
  {
  }

  /** Missing stock, and text that is not a number, are examples. */
  lemma MissingOrTextStockUnavailable()
    ensures StockNumber(Undefined) == 0.0
    ensures StockNumber(Str("abc")) == 0.0
  {
    assert JsTrim("abc") == "abc" by {
      assert TrimLeft("abc", IsJsSpace) == "abc";
      assert TrimRight("abc", IsJsSpace) == "abc";
    }
    assert SplitSign("abc") == ("abc", false);
    assert DigitPrefixLen("abc") == 0;
  }

  /** The status cell always has the stock cell's class, and its text names the same level. */
  lemma StatusMatchesStock(p: ProductRow)
    ensures RowOf(p).statusClass == RowOf(p).stockClass
    ensures RowOf(p).stockClass == "stock-" + LowerAscii(RowOf(p).statusText)
  {
    ClassNamesTheLevel(LevelOf(StockNumber(p.stock)));
  }

  lemma ClassNamesTheLevel(l: Level)
    ensures ClassName(l) == "stock-" + LowerAscii(StatusText(l))
  {
    match l
    case Unavailable => LowerUnavailable();
    case Low => LowerLow();
    case Medium => LowerMedium();
    case High => LowerHigh();
  }

  lemma LowerUnavailable() ensures LowerAscii("Unavailable") == "unavailable" {}
  lemma LowerLow() ensures LowerAscii("Low") == "low" {}
  lemma LowerMedium() ensures LowerAscii("Medium") == "medium" {}
  lemma LowerHigh() ensures LowerAscii("High") == "high" {}

  /**
   * Without a stored `product_code`, the page shows the code the server assigns to
   * that id; with one, it shows the stored code.
   */
  lemma DisplayCodeFallback(p: ProductRow, n: nat)
    ensures Truthy(p.productCode) ==> DisplayCode(p) == p.productCode
    ensures !Truthy(p.productCode) && p.id == Int(n) ==> DisplayCode(p) == Str(AddProduct.ProductCode(n))
  {
  }

  /**
   * Without a stored code, both derivations give the server's `C`-code for a non-zero
   * category number; `codeFromCategory` skips a zero number, and the loader prints a
   * missing one as "Cundefined".
   */
  lemma CategoryCodeFallbacks(c: CategoryRow, n: int)
    requires !Truthy(c.code) && !Truthy(c.categoryCode)
    ensures n != 0 && c.categoryId == Int(n) ==>
      CodeFromCategory(c) == Str(AddCategory.CategoryCode(n)) && LoadedCategoryOf(c).code == Str(AddCategory.CategoryCode(n))
    ensures c.categoryId == Int(0) ==> CodeFromCategory(c) == Str(PaddedC(Or(Or(c.categoryNumber, c.id), Str(""))))
    ensures c.categoryId == Undefined ==> LoadedCategoryOf(c).code == Str("Cundefined")
  {
  }

  /** A blank name or no chosen category posts nothing. */
  lemma SaveRejected(f: Form, editing: JsValue)
    requires JsTrim(f.name) == "" || f.category == ""
    ensures SaveRequest(f, editing).None?
  {
  }

  /**
   * A posted body has the trimmed non-empty name; a price or stock that does not parse
   * is 0; status "unavailable" forces stock 0; and the id is sent exactly when editing.
   */
  lemma SaveNormalises(f: Form, editing: JsValue)
    requires JsTrim(f.name) != "" && f.category != ""
    ensures var r := SaveRequest(f, editing);
      r.Some? && r.value.productName == JsTrim(f.name)
      && (ParseFloat(f.price).NaN? ==> r.value.price == 0.0)
      && (ParseFloat(f.price).Fin? ==> r.value.price == ParseFloat(f.price).v)
      && (f.status == Some("unavailable") ==> r.value.stock == 0)
      && (f.status != Some("unavailable") ==> r.value.stock == ParseInt(f.stock).GetOr(0))
      && (r.value.id.Some? <==> Truthy(editing))
  {
  }

  /** A stock entry of digits is sent as its value unless the product is marked unavailable. */
  lemma SaveReadsDigits(f: Form, editing: JsValue)
    requires JsTrim(f.name) != "" && f.category != "" && AllDigits(f.stock) && f.status.None?
    ensures SaveRequest(f, editing).value.stock == DigitsValue(f.stock)
  {
    ParseIntDigits(f.stock);
  }
}
