/**
 * The MySQL tables that the PHP endpoints read and write, as rows of plain values,
 * and `Database`, the store that holds them.  A nullable column is an `Option`;
 * money columns hold integer centavos.
 */
module Schema {
  import opened Common

  /** A row of `products`. `productid` is a legacy column that may be absent or NULL. */
  datatype Product = Product(
    id: int,
    code: Option<string>,
    productid: Option<string>,
    name: string,
    categoryInternalId: Option<int>,
    price: int,
    stock: int)

  /** A row of `transactions` (the sale header). */
  datatype Header = Header(
    id: int,
    txnId: string,
    employeeId: Option<int>,
    dateTime: string,
    subtotal: Option<int>,
    tax: Option<int>,
    total: Option<int>)

  /**
   * A row of `transaction_items`: `transactionId` is the numeric foreign key to
   * `transactions.id`; `txnId` and `txn` are older string-keyed columns.
   */
  datatype Item = Item(
    transactionId: Option<int>,
    txnId: Option<string>,
    txn: Option<string>,
    productId: string,
    productName: Option<string>,
    quantity: int,
    price: int,
    subtotal: int)

  /** A row of `purchase_history`, keyed by the string transaction id. */
  datatype HistoryRow = HistoryRow(transactionID: string, productName: string, quantity: int)

  /** A row of `categories`: `id` is internal, `categoryId` the displayed number. */
  datatype Category = Category(id: int, categoryId: int, name: string, description: string)

  /** A row of `employees`. */
  datatype Employee = Employee(
    employeeId: int,
    code: string,
    fullName: string,
    email: Option<string>,
    phone: Option<string>,
    username: Option<string>,
    passwordHash: Option<string>,
    dateCreated: string)

  /** No two employees share an `employee_code`. */
  ghost predicate CodesUnique(es: seq<Employee>) {
    forall i, j :: 0 <= i < |es| && 0 <= j < |es| && i != j ==> es[i].code != es[j].code
  }

  /** No two employees with different codes share a non-NULL username. */
  ghost predicate UsernamesUnique(es: seq<Employee>) {
    forall i, j :: 0 <= i < |es| && 0 <= j < |es| && es[i].code != es[j].code && es[i].username.Some? ==>
      es[i].username != es[j].username
  }

  /** The sales part of the store: what a checkout reads and writes. */
  datatype Ledger = Ledger(
    products: seq<Product>,
    transactions: seq<Header>,
    items: seq<Item>,
    nextTransactionId: int)

  /** The database: one sequence per table plus the AUTO_INCREMENT counters. */
  class Database {
    var products: seq<Product>
    var transactions: seq<Header>
    var transactionItems: seq<Item>
    var purchaseHistory: seq<HistoryRow>
    var categories: seq<Category>
    var employees: seq<Employee>
    var nextProductId: int
    var nextTransactionId: int
    var nextCategoryId: int
    var nextEmployeeId: int

    /** An empty database whose counters all start at 1. */
    constructor ()
      ensures products == [] && transactions == [] && transactionItems == []
      ensures purchaseHistory == [] && categories == [] && employees == []
      ensures nextProductId == 1 && nextTransactionId == 1
      ensures nextCategoryId == 1 && nextEmployeeId == 1
    {
      products, transactions, transactionItems := [], [], [];
      purchaseHistory, categories, employees := [], [], [];
      nextProductId, nextTransactionId, nextCategoryId, nextEmployeeId := 1, 1, 1, 1;
    }

    /** The tables a checkout touches, with the transaction counter. */
    function Sales(): Ledger
      reads this
    {
      Ledger(products, transactions, transactionItems, nextTransactionId)
    }
  }
}
