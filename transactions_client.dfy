/**
 * The admin transaction list (`transactions.js`): the stored transactions, the
 * date-prefix and employee filters, the detail view with its line subtotals, and
 * deletion by id.
 */
module TransactionsClient {
  import opened Common
  import opened JsValues

  /** One sold line; quantity and price are taken to be numbers. */
  datatype StoredItem = StoredItem(name: string, quantity: real, price: real)

  /** A stored transaction; `id` and `employeeId` keep their JSON type. */
  datatype StoredTxn = StoredTxn(id: JsValue, datetime: string, employeeId: JsValue, employeeName: string,
                                 items: seq<StoredItem>, total: real)

  /** A line of the detail view. */
  datatype LineView = LineView(name: string, quantity: real, price: real, subtotal: real)

  /** The detail view of one transaction. */
  datatype TxnView = TxnView(id: JsValue, datetime: string, employeeName: string, lines: seq<LineView>, total: real)

  // ---------------------------------------------------------------------
  // Filters
  // ---------------------------------------------------------------------

  predicate OnDate(dateValue: string, t: StoredTxn) { StartsWith(t.datetime, dateValue) }

  predicate ByEmployee(employeeValue: string, t: StoredTxn) { t.employeeId == Str(employeeValue) }

  /** What the two filters together accept; an empty filter value accepts everything. */
  predicate Matches(dateValue: string, employeeValue: string, t: StoredTxn) {
    (dateValue == "" || OnDate(dateValue, t)) && (employeeValue == "" || ByEmployee(employeeValue, t))
  }

  function DateFilter(dateValue: string): StoredTxn -> bool { (t: StoredTxn) => OnDate(dateValue, t) }

  function EmployeeFilter(employeeValue: string): StoredTxn -> bool { (t: StoredTxn) => ByEmployee(employeeValue, t) }

  function MatchFilter(dateValue: string, employeeValue: string): StoredTxn -> bool {
    (t: StoredTxn) => Matches(dateValue, employeeValue, t)
  }

  /** `applyFilters`: the date filter when a date is chosen, then the employee filter when one is chosen. */
  function Filtered(data: seq<StoredTxn>, dateValue: string, employeeValue: string): seq<StoredTxn> {
    var byDate := if dateValue != "" then Filter(data, DateFilter(dateValue)) else data;
    if employeeValue != "" then Filter(byDate, EmployeeFilter(employeeValue)) else byDate
  }

  // ---------------------------------------------------------------------
  // The detail view
  // ---------------------------------------------------------------------

  function LineOf(item: StoredItem): LineView {
    LineView(item.name, item.quantity, item.price, item.quantity * item.price)
  }

  function IdIs(id: JsValue): StoredTxn -> bool { (x: StoredTxn) => x.id == id }

  /** `viewTransaction`: the first transaction with that id, shown line by line; None only alerts. */
  function ViewOf(data: seq<StoredTxn>, id: JsValue): Option<TxnView> {
    match FindFirst(data, IdIs(id))
    case None => None
    case Some(k) =>
      var t := data[k];
      Some(TxnView(t.id, t.datetime, t.employeeName,
                   seq(|t.items|, i requires 0 <= i < |t.items| => LineOf(t.items[i])), t.total))
  }

  /** The argument the View and Delete buttons pass: the id as text, from the quoted attribute. */
  function ButtonArg(t: StoredTxn): JsValue { Str(ToStr(t.id)) }

  class TransactionsPage {
    var transactionsData: seq<StoredTxn>

    constructor()
      ensures transactionsData == []
    {
      transactionsData := [];
    }

    /** `loadTransactions`: the saved list, or none. */
    method LoadTransactions(saved: Option<seq<StoredTxn>>)
      modifies this`transactionsData
      ensures transactionsData == saved.GetOr([])
    {
      transactionsData := saved.GetOr([]);
    }

    /** `applyFilters`: the list shown; the stored list is not changed. */
    method ApplyFilters(dateValue: string, employeeValue: string) returns (shown: seq<StoredTxn>)
      ensures shown == Filtered(transactionsData, dateValue, employeeValue)
    {
      shown := transactionsData;
      if dateValue != "" {
        shown := Filter(shown, DateFilter(dateValue));
      }
      if employeeValue != "" {
        shown := Filter(shown, EmployeeFilter(employeeValue));
      }
    }

    /** `viewTransaction` */
    method ViewTransaction(id: JsValue) returns (view: Option<TxnView>)
      ensures view == ViewOf(transactionsData, id)
    {
      view := ViewOf(transactionsData, id);
    }

    /** `deleteTransaction`: when confirmed, every transaction with that id goes. */
    method DeleteTransaction(id: JsValue, confirmed: bool)
      modifies this`transactionsData
      ensures transactionsData == if confirmed then Filter(old(transactionsData), (t: StoredTxn) => t.id != id)
                                  else old(transactionsData)
    {
      if !confirmed {
        return;
      }
      transactionsData := Filter(transactionsData, (t: StoredTxn) => t.id != id);
    }
  }

  // ---------------------------------------------------------------------
  // Properties
  // ---------------------------------------------------------------------

  /** The two filters combine with AND, an empty value having no effect, and keep the stored order. */
  lemma FiltersCombineWithAnd(data: seq<StoredTxn>, dateValue: string, employeeValue: string)
    ensures Filtered(data, dateValue, employeeValue) == Filter(data, MatchFilter(dateValue, employeeValue))
    ensures SubseqOf(Filtered(data, dateValue, employeeValue), data)
    ensures forall t :: t in Filtered(data, dateValue, employeeValue) <==> t in data && Matches(dateValue, employeeValue, t)
  {
    var m := MatchFilter(dateValue, employeeValue);
    if dateValue != "" && employeeValue != "" {
      FilterTwice(data, DateFilter(dateValue), EmployeeFilter(employeeValue), m);
    } else if dateValue != "" {
      FilterTwice(data, DateFilter(dateValue), (t: StoredTxn) => true, m);
      FilterAll(Filter(data, DateFilter(dateValue)), (t: StoredTxn) => true);
    } else if employeeValue != "" {
      FilterTwice(data, (t: StoredTxn) => true, EmployeeFilter(employeeValue), m);
      FilterAll(data, (t: StoredTxn) => true);
    } else {
      FilterAll(data, m);
    }
    FilterIsSubseq(data, m);
  }

  /** With neither filter set the whole list is shown. */
  lemma NoFilterShowsAll(data: seq<StoredTxn>)
    ensures Filtered(data, "", "") == data
  {
  }

  /** The order of the two filters does not matter. */
  lemma FiltersCommute(data: seq<StoredTxn>, dateValue: string, employeeValue: string)
    ensures Filter(Filter(data, DateFilter(dateValue)), EmployeeFilter(employeeValue))
         == Filter(Filter(data, EmployeeFilter(employeeValue)), DateFilter(dateValue))
  {
    var both := (t: StoredTxn) => OnDate(dateValue, t) && ByEmployee(employeeValue, t);
    FilterTwice(data, DateFilter(dateValue), EmployeeFilter(employeeValue), both);
    FilterTwice(data, EmployeeFilter(employeeValue), DateFilter(dateValue), both);
  }

  /**
   * The view is found exactly when some transaction has that id; it shows the first such
   * transaction, one line per item, each with subtotal quantity times price.
   */
  lemma ViewShowsFirstMatch(data: seq<StoredTxn>, id: JsValue)
    ensures ViewOf(data, id).None? <==> forall k :: 0 <= k < |data| ==> data[k].id != id
    ensures ViewOf(data, id).Some? ==>
      exists k :: 0 <= k < |data| && data[k].id == id && (forall j :: 0 <= j < k ==> data[j].id != id)
        && var v := ViewOf(data, id).value;
        v.id == id && v.total == data[k].total && |v.lines| == |data[k].items|
        && forall i :: 0 <= i < |v.lines| ==>
             v.lines[i].subtotal == data[k].items[i].quantity * data[k].items[i].price
             && v.lines[i].name == data[k].items[i].name
  {
    var r := FindFirst(data, IdIs(id));
    if r.Some? {
      var k := r.value;
      assert data[k].id == id;
    } else {
      assert forall k :: 0 <= k < |data| ==> !IdIs(id)(data[k]);
    }
  }

  /** A confirmed delete keeps exactly the transactions with another id, in their order. */
  lemma DeleteRemovesThatId(data: seq<StoredTxn>, id: JsValue)
    ensures var after := Filter(data, (t: StoredTxn) => t.id != id);
      (forall t :: t in after <==> t in data && t.id != id) && SubseqOf(after, data)
  {
    FilterIsSubseq(data, (t: StoredTxn) => t.id != id);
  }

  /**
   * The buttons pass the id as text, so a transaction stored with a numeric id is matched
   * by neither View nor Delete; one stored with a text id is matched by both.
   */
  lemma ButtonMatchesOnlyTextIds(t: StoredTxn)
    ensures t.id.Str? ==> ButtonArg(t) == t.id
    ensures t.id.Int? ==> ButtonArg(t) != t.id
    ensures t.id.Int? ==> ViewOf([t], ButtonArg(t)).None? && Filter([t], (x: StoredTxn) => x.id != ButtonArg(t)) == [t]
  {
    if t.id.Int? {
      assert FindFirst([t], IdIs(ButtonArg(t))) == None by {
        assert !IdIs(ButtonArg(t))(t);
        assert [t][1..] == [];
      }
      assert [t][1..] == [];
    }
  }
}
