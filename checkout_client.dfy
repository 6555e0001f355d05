/**
 * The employee checkout page (`checkout_EMP.js`): a product list loaded from the
 * server, a cart that merges lines by product id, the totals shown in the summary
 * and sent with the transaction, the rule that decides when the cart is cleared
 * after posting, and the filter of the product grid.
 *
 * Money is a JavaScript number, modelled exactly (`Num`): floating-point rounding
 * and the two-decimal display are not modelled.
 */
module CheckoutClient {
  import opened Common
  import opened JsValues

  /** A product row as `get_products.php` returns it; a missing key is `Undefined`. */
  datatype ServerRow = ServerRow(
    productCode: JsValue, productid: JsValue, id: JsValue,
    productName: JsValue, name: JsValue,
    categoryName: JsValue, category: JsValue,
    price: JsValue, sellingPrice: JsValue, unitPrice: JsValue,
    stock: JsValue)

  /** A product as the page keeps it. */
  datatype PageProduct = PageProduct(id: JsValue, name: JsValue, category: JsValue, price: Num, stock: Num)

  /** A cart line: the product's id, a snapshot of its name, category and price, and the quantity. */
  datatype CartLine = CartLine(id: JsValue, name: JsValue, category: JsValue, price: Num, qty: Num)

  /** The three figures of the order summary. */
  datatype Totals = Totals(subtotal: Num, tax: Num, total: Num)

  /** One line of the request body. */
  datatype PayloadItem = PayloadItem(id: JsValue, name: JsValue, qty: Num, price: Num)

  /** The request body posted to `save_transaction.php`; `employee_id` is always null. */
  datatype Payload = Payload(txnId: string, employeeId: JsValue, subtotal: Num, tax: Num, total: Num,
                             items: seq<PayloadItem>)

  /** The server's answer as far as the page looks at it: its JSON `success` flag, if the body parses. */
  datatype ServerJson = ServerJson(success: bool)

  /** The POST either fails at the network level, or yields a body that may or may not be JSON. */
  datatype ServerReply = Unreachable | Body(json: Option<ServerJson>)

  const TaxRate: real := 0.12

  // ---------------------------------------------------------------------
  // Loading products
  // ---------------------------------------------------------------------

  /** The mapping of one server row: `??` chains for the id, name, category and price. */
  function ProductOf(r: ServerRow): PageProduct {
    PageProduct(Coalesce(Coalesce(Coalesce(r.productCode, r.productid), r.id), Str("")),
                Coalesce(Coalesce(r.productName, r.name), Str("")),
                Coalesce(Coalesce(r.categoryName, r.category), Str("")),
                NumberOf(Coalesce(Coalesce(Coalesce(r.price, r.sellingPrice), r.unitPrice), Int(0))),
                NumberOf(Coalesce(r.stock, Int(0))))
  }

  function ProductsOf(rows: seq<ServerRow>): (r: seq<PageProduct>)
    ensures |r| == |rows| && forall i :: 0 <= i < |rows| ==> r[i] == ProductOf(rows[i])
  {
    seq(|rows|, i requires 0 <= i < |rows| => ProductOf(rows[i]))
  }

  /**
   * The mapping's fallbacks: the id is the first present of product_code, productid and
   * id ("" when none), the name of product_name and name, the category of
   * category_name and category ("" when none), the price of price, selling_price and
   * unit_price (0 when none), and the stock of stock (0 when missing). A present
   * value is kept even when falsy, since `??` skips only null and undefined.
   */
  lemma ProductOfFallbacks(r: ServerRow)
    ensures !IsNullish(r.productCode) ==> ProductOf(r).id == r.productCode
    ensures IsNullish(r.productCode) && !IsNullish(r.productid) ==> ProductOf(r).id == r.productid
    ensures IsNullish(r.productCode) && IsNullish(r.productid) && !IsNullish(r.id) ==> ProductOf(r).id == r.id
    ensures IsNullish(r.productCode) && IsNullish(r.productid) && IsNullish(r.id) ==> ProductOf(r).id == Str("")
    ensures ProductOf(r).name == if !IsNullish(r.productName) then r.productName
                                 else if !IsNullish(r.name) then r.name else Str("")
    ensures ProductOf(r).category == if !IsNullish(r.categoryName) then r.categoryName
                                     else if !IsNullish(r.category) then r.category else Str("")
    ensures !IsNullish(r.price) ==> ProductOf(r).price == NumberOf(r.price)
    ensures IsNullish(r.price) && !IsNullish(r.sellingPrice) ==> ProductOf(r).price == NumberOf(r.sellingPrice)
    ensures IsNullish(r.price) && IsNullish(r.sellingPrice) && !IsNullish(r.unitPrice) ==>
      ProductOf(r).price == NumberOf(r.unitPrice)
    ensures IsNullish(r.price) && IsNullish(r.sellingPrice) && IsNullish(r.unitPrice) ==> ProductOf(r).price == Fin(0.0)
    ensures !IsNullish(r.stock) ==> ProductOf(r).stock == NumberOf(r.stock)
    ensures IsNullish(r.stock) ==> ProductOf(r).stock == Fin(0.0)
  {
  }

  // ---------------------------------------------------------------------
  // The cart
  // ---------------------------------------------------------------------

  /** `products.find(x => String(x.id) === String(productId))` */
  function FindProduct(ps: seq<PageProduct>, productId: string): Option<nat> {
    FindFirst(ps, (x: PageProduct) => ToStr(x.id) == productId)
  }

  /** `cart.find(c => c.id === id)`: strict equality, so the number 5 and the text "5" differ. */
  function FindLine(cart: seq<CartLine>, id: JsValue): Option<nat> {
    FindFirst(cart, (c: CartLine) => c.id == id)
  }

  /** The line pushed for a product not yet in the cart. */
  function NewLine(p: PageProduct, qty: Num): CartLine {
    CartLine(p.id, p.name, p.category, p.price, qty)
  }

  /** `addProductToCart` on the cart: unknown id, merge into the existing line, or append. */
  function AddToCart(cart: seq<CartLine>, ps: seq<PageProduct>, productId: string, qty: Num): seq<CartLine> {
    match FindProduct(ps, productId)
    case None => cart
    case Some(k) =>
      match FindLine(cart, ps[k].id)
      case Some(j) => cart[j := cart[j].(qty := NumAdd(cart[j].qty, qty))]
      case None => cart + [NewLine(ps[k], qty)]
  }

  /** Where `splice(index, 1)` starts: a negative index counts from the end, and both ends clamp. */
  function SpliceStart(len: nat, index: int): (s: nat)
    ensures s <= len
  {
    if index < 0 then (if len + index < 0 then 0 else len + index)
    else if index > len then len
    else index
  }

  /** `cart.splice(index, 1)`: removes the line at the start position, if there is one. */
  function RemoveAt(cart: seq<CartLine>, index: int): seq<CartLine> {
    var s := SpliceStart(|cart|, index);
    if s < |cart| then cart[..s] + cart[s + 1..] else cart
  }

  /** No two cart lines share an id. */
  ghost predicate IdsDistinct(cart: seq<CartLine>) {
    forall i, j :: 0 <= i < j < |cart| ==> cart[i].id != cart[j].id
  }

  // ---------------------------------------------------------------------
  // Totals and the request body
  // ---------------------------------------------------------------------

  /** `price * qty`, the line subtotal of the cart table. */
  function LineAmount(l: CartLine): Num { NumMul(l.price, l.qty) }

  /** `cart.reduce((a, b) => a + b.price * b.qty, 0)`, folded from the left. */
  function Subtotal(cart: seq<CartLine>): Num
    decreases |cart|
  {
    if cart == [] then Fin(0.0)
    else NumAdd(Subtotal(cart[..|cart| - 1]), LineAmount(cart[|cart| - 1]))
  }

  /** The summary figures; `processCheckout` computes the same three. */
  function CartTotals(cart: seq<CartLine>): Totals {
    var subtotal := Subtotal(cart);
    var tax := NumMul(subtotal, Fin(TaxRate));
    Totals(subtotal, tax, NumAdd(subtotal, tax))
  }

  function ItemOf(l: CartLine): PayloadItem { PayloadItem(l.id, l.name, l.qty, l.price) }

  /** The request body for a cart and a generated transaction id. */
  function PayloadOf(cart: seq<CartLine>, txnId: string): Payload {
    var t := CartTotals(cart);
    Payload(txnId, Null, t.subtotal, t.tax, t.total, seq(|cart|, i requires 0 <= i < |cart| => ItemOf(cart[i])))
  }

  /** `postTransactionToServer(...).success`: the body parsed as JSON, whatever it says. */
  predicate Posted(reply: ServerReply) { reply.Body? && reply.json.Some? }

  /**
   * The cart after `processCheckout`: untouched when empty (nothing is sent); otherwise
   * cleared when the post succeeded, or when the user confirms clearing after a failure.
   */
  function CartAfterCheckout(cart: seq<CartLine>, reply: ServerReply, confirmClear: bool): seq<CartLine> {
    if cart == [] then cart
    else if Posted(reply) || confirmClear then []
    else cart
  }

  // ---------------------------------------------------------------------
  // The product grid filter
  // ---------------------------------------------------------------------

  /** `String(x || "").toLowerCase()` */
  function LowerText(x: JsValue): string { LowerAscii(ToStr(Or(x, Str("")))) }

  /** The search text: `String(filterText || "").trim().toLowerCase()`. */
  function Query(filterText: string): string { LowerAscii(JsTrim(filterText)) }

  /** The category choice: `String(filterCategory || "all").toLowerCase()`. */
  function CategoryChoice(filterCategory: string): string {
    LowerAscii(if filterCategory == "" then "all" else filterCategory)
  }

  /** Whether a product card is shown for the given search text and category choice. */
  predicate GridShows(p: PageProduct, filterText: string, filterCategory: string) {
    var q := Query(filterText);
    var cat := CategoryChoice(filterCategory);
    if cat != "all" && LowerText(p.category) != cat then false
    else if q == "" then true
    else Contains(LowerText(p.name), q) || LowerText(p.id) == q || Contains(LowerText(p.category), q)
  }

  function Visible(ps: seq<PageProduct>, filterText: string, filterCategory: string): seq<PageProduct> {
    Filter(ps, (p: PageProduct) => GridShows(p, filterText, filterCategory))
  }

  // ---------------------------------------------------------------------
  // The page
  // ---------------------------------------------------------------------

  /** The page's module-level state: the loaded products and the cart. */
  class CheckoutPage {
    var products: seq<PageProduct>
    var cart: seq<CartLine>

    /** Start-up: the cart restored from session storage, no products yet. */
    constructor(savedCart: seq<CartLine>)
      ensures products == [] && cart == savedCart
    {
      products := [];
      cart := savedCart;
    }

    /** `fetchProductsFromServer`: a failed fetch keeps the products already loaded. */
    method LoadProducts(rows: Option<seq<ServerRow>>)
      modifies this`products
      ensures products == if rows.Some? then ProductsOf(rows.value) else old(products)
    {
      if rows.Some? {
        products := ProductsOf(rows.value);
      }
    }

    /** `addProductToCart`; `found` is false when the page alerts "Product not found". */
    method AddProductToCart(productId: string, qty: Num) returns (found: bool)
      modifies this`cart
      ensures found == FindProduct(products, productId).Some?
      ensures cart == AddToCart(old(cart), products, productId, qty)
    {
      var k := FindProduct(products, productId);
      if k.None? {
        return false;
      }
      var p := products[k.value];
      var j := FindLine(cart, p.id);
      if j.Some? {
        var line := cart[j.value];
        cart := cart[j.value := line.(qty := NumAdd(line.qty, qty))];
      } else {
        cart := cart + [NewLine(p, qty)];
      }
      found := true;
    }

    /** `removeFromCart` */
    method RemoveFromCart(index: int)
      modifies this`cart
      ensures cart == RemoveAt(old(cart), index)
    {
      var s := SpliceStart(|cart|, index);
      if s < |cart| {
        cart := cart[..s] + cart[s + 1..];
      }
    }

    /**
     * `processCheckout`. `txnId` stands for `generateTxnId()`, `reply` for what the POST
     * yields and `confirmClear` for the user's answer to the confirmation dialog.
     * `sent` is the request body, or None when the cart is empty and nothing is posted.
     */
    method ProcessCheckout(txnId: string, reply: ServerReply, confirmClear: bool) returns (sent: Option<Payload>)
      modifies this`cart
      ensures sent == if old(cart) == [] then None else Some(PayloadOf(old(cart), txnId))
      ensures cart == CartAfterCheckout(old(cart), reply, confirmClear)
    {
      if |cart| == 0 {
        return None;
      }
      sent := Some(PayloadOf(cart, txnId));
      var success := Posted(reply);
      if success {
        cart := [];
      } else if confirmClear {
        cart := [];
      }
    }
  }

  // ---------------------------------------------------------------------
  // Properties of the cart
  // ---------------------------------------------------------------------

  /** An id that matches no loaded product leaves the cart as it was. */
  lemma UnknownIdLeavesCart(cart: seq<CartLine>, ps: seq<PageProduct>, productId: string, qty: Num)
    requires forall i :: 0 <= i < |ps| ==> ToStr(ps[i].id) != productId
    ensures AddToCart(cart, ps, productId, qty) == cart
  {
  }

  /**
   * Adding a product already in the cart changes only that line, and only its quantity,
   * which grows by `qty`.
   */
  lemma AddExistingRaisesQty(cart: seq<CartLine>, ps: seq<PageProduct>, productId: string, qty: Num, k: nat, j: nat)
    requires FindProduct(ps, productId) == Some(k)
    requires j < |cart| && cart[j].id == ps[k].id
    requires IdsDistinct(cart)
    ensures var after := AddToCart(cart, ps, productId, qty);
      |after| == |cart|
      && after[j] == cart[j].(qty := NumAdd(cart[j].qty, qty))
      && forall i :: 0 <= i < |cart| && i != j ==> after[i] == cart[i]
  {
    var f := FindLine(cart, ps[k].id);
    assert f == Some(j);
  }

  /**
   * Adding a product not yet in the cart appends exactly one line holding the product's
   * id, name, category and price and the given quantity.
   */
  lemma AddNewAppendsLine(cart: seq<CartLine>, ps: seq<PageProduct>, productId: string, qty: Num, k: nat)
    requires FindProduct(ps, productId) == Some(k)
    requires forall i :: 0 <= i < |cart| ==> cart[i].id != ps[k].id
    ensures AddToCart(cart, ps, productId, qty)
      == cart + [CartLine(ps[k].id, ps[k].name, ps[k].category, ps[k].price, qty)]
  {
  }

  /** When several loaded products print as the same id, the first one is added. */
  lemma FirstMatchingProductWins(ps: seq<PageProduct>, productId: string, k: nat, qty: Num)
    requires k < |ps| && ToStr(ps[k].id) == productId
    ensures var r := FindProduct(ps, productId);
      r.Some? && r.value <= k && ToStr(ps[r.value].id) == productId
    ensures AddToCart([], ps, productId, qty) == [NewLine(ps[FindProduct(ps, productId).value], qty)]
  {
  }

  /** Adding keeps the cart's ids unique. */
  lemma AddKeepsIdsDistinct(cart: seq<CartLine>, ps: seq<PageProduct>, productId: string, qty: Num)
    requires IdsDistinct(cart)
    ensures IdsDistinct(AddToCart(cart, ps, productId, qty))
  {
    var after := AddToCart(cart, ps, productId, qty);
    match FindProduct(ps, productId)
    case None =>
    case Some(k) =>
      match FindLine(cart, ps[k].id)
      case Some(j) =>
        forall a, b | 0 <= a < b < |after|
          ensures after[a].id != after[b].id
        {
          assert after[a].id == cart[a].id && after[b].id == cart[b].id;
        }
      case None =>
        forall a, b | 0 <= a < b < |after|
          ensures after[a].id != after[b].id
        {
          if b == |cart| {
            assert after[a] == cart[a];
          } else {
            assert after[a] == cart[a] && after[b] == cart[b];
          }
        }
  }

  /** `removeFromCart(i)` for a position in the cart removes exactly that line and keeps the others in order. */
  lemma RemoveInRange(cart: seq<CartLine>, i: int)
    requires 0 <= i < |cart|
    ensures var after := RemoveAt(cart, i);
      |after| == |cart| - 1
      && (forall j :: 0 <= j < i ==> after[j] == cart[j])
      && (forall j :: i <= j < |after| ==> after[j] == cart[j + 1])
      && multiset(after) + multiset{cart[i]} == multiset(cart)
  {
    assert cart == cart[..i] + [cart[i]] + cart[i + 1..];
  }

  /** A position at or past the end removes nothing; a negative one counts from the end. */
  lemma RemoveOutOfRange(cart: seq<CartLine>, i: int)
    ensures i >= |cart| ==> RemoveAt(cart, i) == cart
    ensures -|cart| <= i < 0 ==> RemoveAt(cart, i) == RemoveAt(cart, |cart| + i)
    ensures i < -|cart| && cart != [] ==> RemoveAt(cart, i) == cart[1..]
  {
  }

  /** Removing never makes two lines share an id. */
  lemma RemoveKeepsIdsDistinct(cart: seq<CartLine>, i: int)
    requires IdsDistinct(cart)
    ensures IdsDistinct(RemoveAt(cart, i))
  {
    var s := SpliceStart(|cart|, i);
    if s < |cart| {
      var after := RemoveAt(cart, i);
      assert after == cart[..s] + cart[s + 1..];
      assert forall k :: 0 <= k < |after| ==> after[k] == cart[if k < s then k else k + 1];
      forall a, b | 0 <= a < b < |after|
        ensures after[a].id != after[b].id
      {
        var a' := if a < s then a else a + 1;
        var b' := if b < s then b else b + 1;
        assert a' < b';
        assert after[a] == cart[a'] && after[b] == cart[b'];
      }
    }
  }

  // ---------------------------------------------------------------------
  // Properties of the totals
  // ---------------------------------------------------------------------

  predicate Finite(l: CartLine) { l.price.Fin? && l.qty.Fin? }

  /** The exact value of a finite line. */
  function Amount(l: CartLine): real
    requires Finite(l)
  {
    l.price.v * l.qty.v
  }

  function AmountOrZero(l: CartLine): real { if Finite(l) then Amount(l) else 0.0 }

  /** The subtotal is the sum of price times quantity over the lines, whatever their order. */
  lemma {:induction false} SubtotalIsSum(cart: seq<CartLine>)
    requires forall i :: 0 <= i < |cart| ==> Finite(cart[i])
    ensures Subtotal(cart) == Fin(SumReal(cart, AmountOrZero))
    decreases |cart|
  {
    if cart != [] {
      var init := cart[..|cart| - 1];
      assert cart == init + [cart[|cart| - 1]];
      SubtotalIsSum(init);
      SumRealAppend(init, cart[|cart| - 1], AmountOrZero);
    }
  }

  /** A line whose price or quantity is NaN makes every figure NaN. */
  lemma {:induction false} NaNLinePoisonsTotals(cart: seq<CartLine>, k: nat)
    requires k < |cart| && !Finite(cart[k])
    ensures Subtotal(cart).NaN? && CartTotals(cart).tax.NaN? && CartTotals(cart).total.NaN?
    decreases |cart|
  {
    if k < |cart| - 1 {
      NaNLinePoisonsTotals(cart[..|cart| - 1], k);
    }
  }

  /** Tax is 12% of the subtotal and the total is 112% of it, unrounded. */
  lemma TotalsFromSubtotal(cart: seq<CartLine>)
    requires forall i :: 0 <= i < |cart| ==> Finite(cart[i])
    ensures var t := CartTotals(cart);
      var s := SumReal(cart, AmountOrZero);
      t.subtotal == Fin(s) && t.tax == Fin(s * 0.12) && t.total == Fin(s * 1.12)
  {
    SubtotalIsSum(cart);
  }

  /** Adding a product raises the subtotal by the quantity times the price on its line. */
  lemma AddRaisesSubtotal(cart: seq<CartLine>, ps: seq<PageProduct>, productId: string, qty: Num, k: nat)
    requires forall i :: 0 <= i < |cart| ==> Finite(cart[i])
    requires FindProduct(ps, productId) == Some(k) && ps[k].price.Fin? && qty.Fin?
    ensures var after := AddToCart(cart, ps, productId, qty);
      exists j :: 0 <= j < |after| && after[j].id == ps[k].id && Finite(after[j])
        && SumReal(after, AmountOrZero) == SumReal(cart, AmountOrZero) + after[j].price.v * qty.v
  {
    var after := AddToCart(cart, ps, productId, qty);
    match FindLine(cart, ps[k].id)
    case Some(j) =>
      SumRealUpdate(cart, j, after[j], AmountOrZero);
      assert after[j].price.v * after[j].qty.v == cart[j].price.v * cart[j].qty.v + after[j].price.v * qty.v;
    case None =>
      SumRealAppend(cart, NewLine(ps[k], qty), AmountOrZero);
      assert after[|cart|].id == ps[k].id;
  }

  /** Removing line i lowers the subtotal by that line's amount. */
  lemma RemoveLowersSubtotal(cart: seq<CartLine>, i: int)
    requires forall j :: 0 <= j < |cart| ==> Finite(cart[j])
    requires 0 <= i < |cart|
    ensures SumReal(RemoveAt(cart, i), AmountOrZero) == SumReal(cart, AmountOrZero) - Amount(cart[i])
  {
    assert SpliceStart(|cart|, i) == i;
    assert RemoveAt(cart, i) == cart[..i] + cart[i + 1..];
    SumRealRemove(cart, i, AmountOrZero);
    assert AmountOrZero(cart[i]) == Amount(cart[i]);
  }

  // ---------------------------------------------------------------------
  // Properties of checkout
  // ---------------------------------------------------------------------

  /**
   * The body carries one item per cart line in cart order, and the same three
   * figures the summary shows.
   */
  lemma PayloadMirrorsCart(cart: seq<CartLine>, txnId: string)
    ensures var p := PayloadOf(cart, txnId);
      p.txnId == txnId && p.employeeId == Null && |p.items| == |cart|
      && (forall i :: 0 <= i < |cart| ==>
            p.items[i].id == cart[i].id && p.items[i].name == cart[i].name
            && p.items[i].qty == cart[i].qty && p.items[i].price == cart[i].price)
      && Totals(p.subtotal, p.tax, p.total) == CartTotals(cart)
  {
  }

  /** An empty cart sends nothing and stays empty. */
  lemma EmptyCartSendsNothing(reply: ServerReply, confirmClear: bool)
    ensures CartAfterCheckout([], reply, confirmClear) == []
  {
  }

  /** Any body that parses as JSON clears the cart, even one reporting `success: false`. */
  lemma ClearedEvenWhenServerRefuses(cart: seq<CartLine>, confirmClear: bool)
    ensures CartAfterCheckout(cart, Body(Some(ServerJson(false))), confirmClear) == []
  {
  }

  /** A non-empty cart survives checkout exactly when the post failed and the user kept the cart. */
  lemma CartKeptOnlyWhenDeclined(cart: seq<CartLine>, reply: ServerReply, confirmClear: bool)
    requires cart != []
    ensures CartAfterCheckout(cart, reply, confirmClear) == cart
        <==> (reply.Unreachable? || reply.json.None?) && !confirmClear
    ensures CartAfterCheckout(cart, reply, confirmClear) != cart ==> CartAfterCheckout(cart, reply, confirmClear) == []
  {
  }

  // ---------------------------------------------------------------------
  // Properties of the grid filter
  // ---------------------------------------------------------------------

  /** The grid shows exactly the products the filter accepts, in list order. */
  lemma VisibleIsFilter(ps: seq<PageProduct>, filterText: string, filterCategory: string)
    ensures SubseqOf(Visible(ps, filterText, filterCategory), ps)
    ensures forall p :: p in Visible(ps, filterText, filterCategory) <==> p in ps && GridShows(p, filterText, filterCategory)
  {
    FilterIsSubseq(ps, (p: PageProduct) => GridShows(p, filterText, filterCategory));
  }

  /** With no search text and category "all" (or none chosen), every product is shown. */
  lemma NoFilterShowsAll(p: PageProduct, categoryChoice: string)
    requires categoryChoice == "" || LowerAscii(categoryChoice) == "all"
    ensures GridShows(p, "", categoryChoice)
  {
    assert Query("") == "";
    if categoryChoice == "" {
      assert LowerAscii("all") == "all";
    }
  }

  /** The category choice is compared case-insensitively. */
  lemma CategoryCaseInsensitive(p: PageProduct, filterText: string, filterCategory: string)
    requires filterCategory != ""
    ensures GridShows(p, filterText, filterCategory) == GridShows(p, filterText, LowerAscii(filterCategory))
  {
    LowerAsciiIdempotent(filterCategory);
  }

  /**
   * With a category other than "all" chosen, a shown product is in that category,
   * ignoring case; with search text, it also matches the name, the whole id or the category.
   */
  lemma ShownProductMatches(p: PageProduct, filterText: string, filterCategory: string)
    requires GridShows(p, filterText, filterCategory)
    ensures CategoryChoice(filterCategory) != "all" ==> LowerText(p.category) == CategoryChoice(filterCategory)
    ensures Query(filterText) != "" ==>
      Contains(LowerText(p.name), Query(filterText)) || LowerText(p.id) == Query(filterText)
      || Contains(LowerText(p.category), Query(filterText))
  {
  }

  /** A search text equal to a product's id, up to letter case and surrounding blanks, finds it under "all". */
  lemma ExactIdFound(p: PageProduct, filterText: string)
    requires Query(filterText) != "" && LowerText(p.id) == Query(filterText)
    ensures GridShows(p, filterText, "all")
  {
    assert LowerAscii("all") == "all";
  }

  /** The displayed id of a loaded product is `product_code` whenever the row has one. */
  lemma ProductIdPrefersCode(r: ServerRow)
    requires !IsNullish(r.productCode)
    ensures ProductOf(r).id == r.productCode
  {
  }
}
