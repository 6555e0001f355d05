/**
 * The receipt lookup (`get_transaction_details.php`): resolve a header by its
 * string `txn_id`, else by numeric id when the request id is numeric; name the
 * employee; collect the item rows by the numeric foreign key, else by the string
 * txn columns; report `total ?? subtotal`. Read-only: every step is a function.
 */
module TransactionDetails {
  import opened Common
  import opened Schema

  /** An item row as returned: `ti.*` with `product_name` replaced by the join's COALESCE. */
  datatype ItemView = ItemView(row: Item, productName: string)

  datatype Details = Details(
    transactionId: string,
    transactionDate: string,
    subtotal: Option<int>,
    tax: Option<int>,
    total: Option<int>,
    employeeId: Option<int>,
    employeeName: Option<string>,
    items: seq<ItemView>)

  /** 400 for a missing id, 404 for an unknown one, 500 for a query that throws. */
  datatype Answer = MissingId | NotFound | DbError | Found(details: Details)

  // ---------------------------------------------------------------------
  // PHP and MySQL conversions
  // ---------------------------------------------------------------------

  /** PHP `is_numeric` on trimmed text (exponent notation not modelled). */
  predicate IsNumeric(s: string) {
    UnsignedDecimal(SplitSign(s).0).Some?
  }

  /** MySQL's value of a string compared with a number: its numeric prefix, 0 when none. */
  function MySqlNumber(s: string): real {
    DecimalPrefix(TrimLeft(s, c => c == ' ')).GetOr(0.0)
  }

  // ---------------------------------------------------------------------
  // The lookups
  // ---------------------------------------------------------------------

  /** `SELECT ... WHERE txn_id = ? LIMIT 1`: the first matching header. */
  function HeaderByTxn(hs: seq<Header>, txn: string): (r: Option<Header>)
    ensures r.Some? ==> r.value in hs && r.value.txnId == txn
    ensures r.None? <==> forall i :: 0 <= i < |hs| ==> hs[i].txnId != txn
    decreases |hs|
  {
    if hs == [] then None
    else if hs[0].txnId == txn then Some(hs[0])
    else HeaderByTxn(hs[1..], txn)
  }

  /** `SELECT ... WHERE id = ? LIMIT 1`. */
  function HeaderById(hs: seq<Header>, id: int): (r: Option<Header>)
    ensures r.Some? ==> r.value in hs && r.value.id == id
    ensures r.None? <==> forall i :: 0 <= i < |hs| ==> hs[i].id != id
    decreases |hs|
  {
    if hs == [] then None
    else if hs[0].id == id then Some(hs[0])
    else HeaderById(hs[1..], id)
  }

  /** The txn_id lookup first; the numeric one only when it fails and the id is numeric. */
  function Resolve(hs: seq<Header>, id: string): Option<Header> {
    var byTxn := HeaderByTxn(hs, id);
    if byTxn.Some? then byTxn
    else if IsNumeric(id) then HeaderById(hs, PhpIntval(id))
    else None
  }

  /** `full_name` of the employee with that id, when `employee_id` is not empty (NULL or 0). */
  function EmployeeName(es: seq<Employee>, employeeId: Option<int>): (r: Option<string>)
    ensures employeeId.None? || employeeId.value == 0 ==> r.None?
    ensures r.Some? ==> exists e :: e in es && e.employeeId == employeeId.value && e.fullName == r.value
    ensures employeeId.Some? && employeeId.value != 0 && r.None? ==> forall e :: e in es ==> e.employeeId != employeeId.value
    decreases |es|
  {
    if employeeId.None? || employeeId.value == 0 || es == [] then None
    else if es[0].employeeId == employeeId.value then Some(es[0].fullName)
    else EmployeeName(es[1..], employeeId)
  }

  /** `LEFT JOIN products p ON ti.product_id = p.id`: the joined product's name, if any. */
  function JoinedName(ps: seq<Product>, productId: string): Option<string>
    decreases |ps|
  {
    if ps == [] then None
    else if ps[0].id as real == MySqlNumber(productId) then Some(ps[0].name)
    else JoinedName(ps[1..], productId)
  }

  /** `COALESCE(p.product_name, ti.product_name, '')`. */
  function ViewOf(ps: seq<Product>, ti: Item): ItemView {
    var live := JoinedName(ps, ti.productId);
    ItemView(ti, if live.Some? then live.value else ti.productName.GetOr(""))
  }

  /** `COALESCE(ti.txn_id, ti.txn, ti.transaction_id)` as text. */
  function StringKey(ti: Item): Option<string> {
    if ti.txnId.Some? then ti.txnId
    else if ti.txn.Some? then ti.txn
    else if ti.transactionId.Some? then Some(IntToDec(ti.transactionId.value))
    else None
  }

  /** The rows whose numeric foreign key is `id`. */
  function NumericKeyed(id: int): Item -> bool { (ti: Item) => ti.transactionId == Some(id) }

  /** The rows whose COALESCEd string key is `txn`. */
  function StringKeyed(txn: string): Item -> bool { (ti: Item) => StringKey(ti) == Some(txn) }

  /** The views of some item rows, in their order. */
  function Views(ps: seq<Product>, rows: seq<Item>): seq<ItemView> {
    seq(|rows|, i requires 0 <= i < |rows| => ViewOf(ps, rows[i]))
  }

  function ByNumericKey(ps: seq<Product>, items: seq<Item>, id: int): (r: seq<ItemView>)
    ensures |r| <= |items|
    decreases |items|
  {
    if items == [] then []
    else (if items[0].transactionId == Some(id) then [ViewOf(ps, items[0])] else []) + ByNumericKey(ps, items[1..], id)
  }

  function ByStringKey(ps: seq<Product>, items: seq<Item>, txn: string): (r: seq<ItemView>)
    ensures |r| <= |items|
    decreases |items|
  {
    if items == [] then []
    else (if StringKey(items[0]) == Some(txn) then [ViewOf(ps, items[0])] else []) + ByStringKey(ps, items[1..], txn)
  }

  /** The numeric-key rows; the string-key rows only when there are none and the txn id is not empty. */
  function ItemsOf(ps: seq<Product>, items: seq<Item>, h: Header): seq<ItemView> {
    var byId := ByNumericKey(ps, items, h.id);
    if byId == [] && PhpTruthy(h.txnId) then ByStringKey(ps, items, h.txnId) else byId
  }

  /**
   * The endpoint (PDO branch, lines 21-79; the mysqli branch at lines 84-131 does the
   * same). `queryOk` says whether every query the request runs executes; one that
   * throws is caught and answered 500, and nothing is written either way.
   */
  function TransactionDetails(db: Ledger, es: seq<Employee>, rawId: Option<string>, queryOk: bool): Answer {
    var id := if rawId.Some? then PhpTrim(rawId.value) else "";
    if !PhpTruthy(id) then MissingId
    else if !queryOk then DbError
    else
      match Resolve(db.transactions, id)
      case None => NotFound
      case Some(h) =>
        Found(Details(h.txnId, h.dateTime, h.subtotal, h.tax,
                      if h.total.Some? then h.total else h.subtotal,
                      h.employeeId, EmployeeName(es, h.employeeId), ItemsOf(db.products, db.items, h)))
  }

  // ---------------------------------------------------------------------
  // Properties
  // ---------------------------------------------------------------------

  /** An absent, blank or "0" id is a 400. */
  lemma MissingIdRejected(db: Ledger, es: seq<Employee>, rawId: Option<string>, queryOk: bool)
    requires rawId.None? || !PhpTruthy(PhpTrim(rawId.value))
    ensures TransactionDetails(db, es, rawId, queryOk) == MissingId
  {
  }

  /** With an id present, a query that throws is a 500 whatever the tables hold. */
  lemma FailedQueryIsServerError(db: Ledger, es: seq<Employee>, raw: string)
    requires PhpTruthy(PhpTrim(raw))
    ensures TransactionDetails(db, es, Some(raw), false) == DbError
  {
  }

  /**
   * Resolution order: a header with that txn_id wins; otherwise a numeric id finds a
   * header by numeric id; otherwise the answer is 404.
   */
  lemma ResolutionOrder(hs: seq<Header>, id: string)
    ensures (exists i :: 0 <= i < |hs| && hs[i].txnId == id) ==> Resolve(hs, id).Some? && Resolve(hs, id).value.txnId == id
    ensures (forall i :: 0 <= i < |hs| ==> hs[i].txnId != id) && !IsNumeric(id) ==> Resolve(hs, id).None?
    ensures (forall i :: 0 <= i < |hs| ==> hs[i].txnId != id) && IsNumeric(id) ==>
      Resolve(hs, id) == HeaderById(hs, PhpIntval(id))
  {
  }

  /**
   * A resolved header is reported with its own ids and subtotal and tax; the total
   * is its total when present and falls back to its subtotal otherwise.
   */
  lemma FoundReportsHeader(db: Ledger, es: seq<Employee>, raw: string, h: Header)
    requires PhpTruthy(PhpTrim(raw)) && Resolve(db.transactions, PhpTrim(raw)) == Some(h)
    ensures var a := TransactionDetails(db, es, Some(raw), true);
      a.Found? && a.details.transactionId == h.txnId && a.details.subtotal == h.subtotal
      && a.details.tax == h.tax && a.details.employeeId == h.employeeId
      && (h.total.Some? ==> a.details.total == h.total)
      && (h.total.None? ==> a.details.total == h.subtotal)
      && (a.details.total.None? <==> h.total.None? && h.subtotal.None?)
  {
  }

  /**
   * The string-keyed fallback is consulted only when no item row carries the header's
   * numeric id; when one does, exactly the numeric-key rows are listed.
   */
  lemma ItemsFallback(ps: seq<Product>, items: seq<Item>, h: Header)
    ensures (exists i :: 0 <= i < |items| && items[i].transactionId == Some(h.id)) ==>
      ItemsOf(ps, items, h) == ByNumericKey(ps, items, h.id)
    ensures !PhpTruthy(h.txnId) ==> ItemsOf(ps, items, h) == ByNumericKey(ps, items, h.id)
    ensures (forall i :: 0 <= i < |items| ==> items[i].transactionId != Some(h.id)) && PhpTruthy(h.txnId) ==>
      ItemsOf(ps, items, h) == ByStringKey(ps, items, h.txnId)
  {
    NumericKeyRows(ps, items, h.id);
  }

  /** Every listed item carries the live product name, else its stored name, else "". */
  lemma {:induction false} ItemNames(ps: seq<Product>, items: seq<Item>, id: int)
    ensures forall k :: 0 <= k < |ByNumericKey(ps, items, id)| ==>
      var v := ByNumericKey(ps, items, id)[k];
      v.row in items && v.row.transactionId == Some(id)
      && v.productName == (if JoinedName(ps, v.row.productId).Some? then JoinedName(ps, v.row.productId).value
                           else v.row.productName.GetOr(""))
    decreases |items|
  {
    if items != [] {
      ItemNames(ps, items[1..], id);
      var head := if items[0].transactionId == Some(id) then [ViewOf(ps, items[0])] else [];
      assert ByNumericKey(ps, items, id) == head + ByNumericKey(ps, items[1..], id);
      forall k | 0 <= k < |ByNumericKey(ps, items, id)|
        ensures ByNumericKey(ps, items, id)[k].row in items
      {
        if k >= |head| {
          assert ByNumericKey(ps, items, id)[k] == ByNumericKey(ps, items[1..], id)[k - |head|];
        }
      }
    }
  }

  /** The numeric-key rows are exactly the item rows with that foreign key, in table order. */
  lemma {:induction false} NumericKeyRows(ps: seq<Product>, items: seq<Item>, id: int)
    ensures |ByNumericKey(ps, items, id)| == Count(items, (ti: Item) => ti.transactionId == Some(id))
    ensures ByNumericKey(ps, items, id) == [] <==> forall i :: 0 <= i < |items| ==> items[i].transactionId != Some(id)
    decreases |items|
  {
    if items != [] {
      NumericKeyRows(ps, items[1..], id);
      assert forall i :: 1 <= i < |items| ==> items[1..][i - 1] == items[i];
    }
  }

  lemma ViewsCons(ps: seq<Product>, ti: Item, rows: seq<Item>)
    ensures Views(ps, [ti] + rows) == [ViewOf(ps, ti)] + Views(ps, rows)
  {
    var l, r := Views(ps, [ti] + rows), [ViewOf(ps, ti)] + Views(ps, rows);
    assert |l| == |r|;
    forall i | 0 <= i < |l|
      ensures l[i] == r[i]
    {
      if i > 0 {
        assert ([ti] + rows)[i] == rows[i - 1];
      }
    }
  }

  /**
   * Both listings are exactly the item rows with the key, in table order, each with
   * its COALESCEd product name: the numeric foreign key, or the string key
   * `COALESCE(txn_id, txn, transaction_id)`.
   */
  lemma {:induction false} KeyedRows(ps: seq<Product>, items: seq<Item>, id: int, txn: string)
    ensures ByNumericKey(ps, items, id) == Views(ps, Filter(items, NumericKeyed(id)))
    ensures ByStringKey(ps, items, txn) == Views(ps, Filter(items, StringKeyed(txn)))
    decreases |items|
  {
    if items != [] {
      KeyedRows(ps, items[1..], id, txn);
      ViewsCons(ps, items[0], Filter(items[1..], NumericKeyed(id)));
      ViewsCons(ps, items[0], Filter(items[1..], StringKeyed(txn)));
    }
  }
}
