/**
 * Adding a product (`add_product.php`): defaults for the missing fields, a name
 * check, an INSERT, then an UPDATE that gives the new row its `P`-prefixed code,
 * and a response read back through a join with the categories.
 */
module AddProduct {
  import opened Common
  import opened Schema

  datatype ProductError = NameRequired | PrepareFailed | InsertFailed

  /** The category columns of the response; the internal id, number and name are NULL without a match. */
  datatype CategoryInfo = CategoryInfo(internalId: Option<int>, number: Option<int>, code: string, name: Option<string>)

  /**
   * The response data: the row read back with its category, or, when that SELECT
   * fails, the values the script holds itself.
   */
  datatype ProductData =
    | Joined(id: int, code: Option<string>, name: string, price: int, stock: int, category: CategoryInfo)
    | Plain(id: int, plainCode: string, name: string, price: int, stock: int)

  /** The request fields after their defaults and casts. */
  datatype Fields = Fields(name: string, categoryInternalId: Option<int>, price: int, stock: int)

  /**
   * `trim(product_name ?? '')`, `isset ? (int) : null` for the category,
   * a missing price is 0.00 and a missing stock 0. Prices are centavos.
   */
  function FieldsOf(rawName: Option<string>, rawCategory: JsonScalar, price: Option<int>, rawStock: JsonScalar): Fields {
    Fields(PhpTrim(rawName.GetOr("")),
           if PhpIsset(rawCategory) then Some(PhpIntCast(rawCategory)) else None,
           price.GetOr(0),
           PhpIntCast(rawStock))
  }

  function ProductCode(id: int): string { PrefixedCode('P', id) }

  /** MySQL `LPAD(s, 3, '0')`: pads on the left and cuts a longer string to its first three characters. */
  function Lpad3(s: string): (r: string)
    ensures |r| == 3
    ensures |s| >= 3 ==> r == s[..3]
    ensures |s| < 3 ==> r == Zeros(3 - |s|) + s
  {
    if |s| >= 3 then s[..3] else Zeros(3 - |s|) + s
  }

  /** `CONCAT('C', LPAD(COALESCE(c.category_id, 0), 3, '0'))` */
  function JoinedCategoryCode(number: Option<int>): string { "C" + Lpad3(IntToDec(number.GetOr(0))) }

  /** `LEFT JOIN categories c ON p.category_internal_id = c.id`: the first matching category. */
  function CategoryOf(cs: seq<Category>, internalId: Option<int>): (r: Option<Category>)
    ensures r.Some? ==> r.value in cs && internalId == Some(r.value.id)
    ensures internalId.None? ==> r.None?
    ensures internalId.Some? && r.None? ==> forall c :: c in cs ==> c.id != internalId.value
    decreases |cs|
  {
    if internalId.None? || cs == [] then None
    else if cs[0].id == internalId.value then Some(cs[0])
    else CategoryOf(cs[1..], internalId)
  }

  function InfoOf(c: Option<Category>): CategoryInfo {
    match c
    case None => CategoryInfo(None, None, JoinedCategoryCode(None), None)
    case Some(c) => CategoryInfo(Some(c.id), Some(c.categoryId), JoinedCategoryCode(Some(c.categoryId)), Some(c.name))
  }

  /** `UPDATE products SET product_code = ? WHERE id = ?` */
  function SetCode(ps: seq<Product>, id: int, code: string): (r: seq<Product>)
    ensures |r| == |ps|
    ensures forall i :: 0 <= i < |ps| ==> r[i] == if ps[i].id == id then ps[i].(code := Some(code)) else ps[i]
  {
    seq(|ps|, i requires 0 <= i < |ps| => if ps[i].id == id then ps[i].(code := Some(code)) else ps[i])
  }

  /** The answer, the product table and the AUTO_INCREMENT counter afterwards. */
  datatype Adding = Adding(answer: Result<ProductData, ProductError>, products: seq<Product>, nextId: int)

  /**
   * The reference behaviour. `prepareOk`, `insertOk`, `codeUpdateOk` and `selectOk` say
   * whether the INSERT is prepared, whether it executes, whether the code UPDATE
   * succeeds (its result is not checked) and whether the read-back SELECT succeeds.
   */
  function Add(ps: seq<Product>, cs: seq<Category>, nextId: int, f: Fields,
               prepareOk: bool, insertOk: bool, codeUpdateOk: bool, selectOk: bool): Adding
  {
    if f.name == "" then Adding(Err(NameRequired), ps, nextId)
    else if !prepareOk then Adding(Err(PrepareFailed), ps, nextId)
    else if !insertOk then Adding(Err(InsertFailed), ps, nextId)
    else
      var code := ProductCode(nextId);
      var inserted := ps + [Product(nextId, None, None, f.name, f.categoryInternalId, f.price, f.stock)];
      var after := if codeUpdateOk then SetCode(inserted, nextId, code) else inserted;
      var stored := if codeUpdateOk then Some(code) else None;
      var data :=
        if selectOk then Joined(nextId, stored, f.name, f.price, f.stock, InfoOf(CategoryOf(cs, f.categoryInternalId)))
        else Plain(nextId, code, f.name, f.price, f.stock);
      Adding(Ok(data), after, nextId + 1)
  }

  /** The endpoint: insert the row, then give that id its code, then read it back. */
  method AddProduct(db: Database, rawName: Option<string>, rawCategory: JsonScalar, price: Option<int>,
                    rawStock: JsonScalar, prepareOk: bool, insertOk: bool, codeUpdateOk: bool, selectOk: bool)
    returns (r: Result<ProductData, ProductError>)
    modifies db`products, db`nextProductId
    ensures Adding(r, db.products, db.nextProductId)
      == Add(old(db.products), db.categories, old(db.nextProductId), FieldsOf(rawName, rawCategory, price, rawStock),
             prepareOk, insertOk, codeUpdateOk, selectOk)
  {
    var f := FieldsOf(rawName, rawCategory, price, rawStock);
    if f.name == "" {
      return Err(NameRequired);
    }
    if !prepareOk {
      return Err(PrepareFailed);
    }
    if !insertOk {
      return Err(InsertFailed);
    }
    var newId := db.nextProductId;
    db.products := db.products + [Product(newId, None, None, f.name, f.categoryInternalId, f.price, f.stock)];
    db.nextProductId := newId + 1;
    var code := ProductCode(newId);
    if codeUpdateOk {
      db.products := SetCode(db.products, newId, code);
    }
    if selectOk {
      var joined := CategoryOf(db.categories, f.categoryInternalId);
      r := Ok(Joined(newId, if codeUpdateOk then Some(code) else None, f.name, f.price, f.stock, InfoOf(joined)));
    } else {
      r := Ok(Plain(newId, code, f.name, f.price, f.stock));
    }
  }

  // ---------------------------------------------------------------------
  // Properties
  // ---------------------------------------------------------------------

  /** A blank name, or a statement that cannot be prepared or executed, inserts nothing. */
  lemma RejectedAddInsertsNothing(ps: seq<Product>, cs: seq<Category>, nextId: int, f: Fields,
                                  prepareOk: bool, insertOk: bool, codeUpdateOk: bool, selectOk: bool)
    requires f.name == "" || !prepareOk || !insertOk
    ensures var a := Add(ps, cs, nextId, f, prepareOk, insertOk, codeUpdateOk, selectOk);
      a.answer.Err? && a.products == ps && a.nextId == nextId
      && (f.name == "" ==> a.answer == Err(NameRequired))
  {
  }

  /** A missing price is 0.00, a missing stock 0 and a missing category NULL. */
  lemma MissingFieldsDefault(rawName: Option<string>)
    ensures var f := FieldsOf(rawName, Absent, None, Absent);
      f.price == 0 && f.stock == 0 && f.categoryInternalId.None?
  {
  }

  /**
   * When every existing id is below the counter (AUTO_INCREMENT), a successful add
   * appends one row carrying the new id and its code, and leaves every old row as it was.
   */
  lemma OnlyNewRowGetsCode(ps: seq<Product>, cs: seq<Category>, nextId: int, f: Fields, selectOk: bool)
    requires forall i :: 0 <= i < |ps| ==> ps[i].id < nextId
    requires f.name != ""
    ensures var a := Add(ps, cs, nextId, f, true, true, true, selectOk);
      a.answer.Ok? && a.nextId == nextId + 1
      && a.products == ps + [Product(nextId, Some(ProductCode(nextId)), None, f.name, f.categoryInternalId, f.price, f.stock)]
  {
    var row := Product(nextId, None, None, f.name, f.categoryInternalId, f.price, f.stock);
    var after := SetCode(ps + [row], nextId, ProductCode(nextId));
    assert after == ps + [row.(code := Some(ProductCode(nextId)))] by {
      forall i | 0 <= i < |ps|
        ensures after[i] == ps[i]
      {
        assert (ps + [row])[i] == ps[i];
      }
    }
  }

  /**
   * The code UPDATE's result is not checked: when it fails the add still answers
   * success, the new row keeps a NULL code, and the row read back reports none.
   */
  lemma FailedCodeUpdateStillSucceeds(ps: seq<Product>, cs: seq<Category>, nextId: int, f: Fields, selectOk: bool)
    requires f.name != ""
    ensures var a := Add(ps, cs, nextId, f, true, true, false, selectOk);
      a.answer.Ok? && a.nextId == nextId + 1
      && a.products == ps + [Product(nextId, None, None, f.name, f.categoryInternalId, f.price, f.stock)]
      && (selectOk ==> a.answer.value.Joined? && a.answer.value.code.None?)
      && (!selectOk ==> a.answer.value == Plain(nextId, ProductCode(nextId), f.name, f.price, f.stock))
  {
  }

  /** The product code is not cut: a four-digit id gives a five-character code that reads back. */
  lemma ProductCodeNotTruncated(id: nat)
    ensures var c := ProductCode(id);
      c[0] == 'P' && |c| >= 4 && AllDigits(c[1..]) && DigitsValue(c[1..]) == id
    ensures |ProductCode(1234)| == 5
  {
    PrefixedCodeReadsBack('P', id);
    FourDigitCode();
  }

  lemma FourDigitCode()
    ensures |ProductCode(1234)| == 5
  {
    assert NatToDec(1234) == "1234";
  }

  /**
   * The category code in the response is cut to three digits by LPAD: category number
   * 1234 is reported as "C123", whereas the category's own code is "C1234".
   */
  lemma JoinedCategoryCodeTruncates()
    ensures JoinedCategoryCode(Some(1234)) == "C123"
    ensures PrefixedCode('C', 1234) == "C1234"
    ensures JoinedCategoryCode(Some(7)) == PrefixedCode('C', 7)
  {
    assert NatToDec(1234) == "1234";
    assert NatToDec(7) == "7";
  }
}
