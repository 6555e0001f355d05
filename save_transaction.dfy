/**
 * The checkout endpoint (`save_transaction.php`, mysqli branch): validate the
 * request, compute subtotal/tax/total, write one `transactions` header and one
 * `transaction_items` row per line, and decrement stock with a conditional UPDATE
 * that tries product_code, then the numeric id, then the legacy productid column.
 * Any failing line or storage call rolls the whole checkout back.
 *
 * `Save` is the reference definition over a `Ledger` snapshot; `SaveTransaction`
 * is the step-by-step method on the `Database` and is proved equal to it.
 */
module SaveTransaction {
  import opened Common
  import opened Schema

  /**
   * One element of the request's `items` array with its alias keys resolved:
   * `ident` is `product_id ?? productid ?? product ?? id` as a string, `name` is
   * `product_name ?? productname ?? name`, `qty` is `quantity ?? qty` (0 when absent).
   */
  datatype Line = Line(
    ident: string,
    name: string,
    qty: int,
    price: Option<int>,
    unitPrice: Option<int>,
    amount: Option<int>,
    subtotal: Option<int>)

  /** The `items` member of the payload. */
  datatype ItemsField = Missing | NotArray | Lines(lines: seq<Line>)

  /** The JSON payload; a `None` member is absent or null. */
  datatype Request = Request(
    txnId: Option<string>,
    items: ItemsField,
    subtotal: Option<int>,
    tax: Option<int>,
    total: Option<int>)

  /** Which of the three stock UPDATE statements prepared (a missing column makes one fail). */
  datatype Prepared = Prepared(byCode: bool, byId: bool, byProductId: bool)

  /** The WHERE key of a stock UPDATE. */
  datatype Key = CodeKey(code: string) | IdKey(id: int) | ProductIdKey(pid: string)

  datatype Strategy = ByCode | ById | ByProductId

  datatype Failure =
    | BadRequest
    | NoStockStatement
    | InvalidQuantity(ident: string)
    | InsufficientStock(ident: string, needed: int)
    | DatabaseError

  /**
   * A storage call that answers false, which the endpoint turns into an exception:
   * begin_transaction (lines 124-126), the header's prepare or execute (129-142),
   * the item statement's prepare (147-151), the item insert of one line (190-197),
   * one of that line's stock UPDATEs (203-243) or the commit (263-266).
   * Lines are numbered from 0 in request order.
   */
  datatype Fault =
    | BeginFails
    | HeaderFails
    | ItemsPrepareFails
    | ItemInsertFails(line: nat)
    | UpdateFails(line: nat, strategy: Strategy)
    | CommitFails

  /** The HTTP answer: the echoed success body, or a status code with its reason. */
  datatype Outcome =
    | Saved(txnId: string, numericId: int, subtotal: int, tax: int, total: int, employeeId: Option<int>)
    | Rejected(status: int, failure: Failure)

  datatype Totals = Totals(subtotal: int, tax: int, total: int)

  /** The result of one successful conditional decrement. */
  datatype Decremented = Decremented(strategy: Strategy, key: Key, affected: nat, products: seq<Product>)

  /** The rows a run of lines leaves behind. */
  datatype Progress = Progress(products: seq<Product>, items: seq<Item>)

  /** What `Save` answers and the ledger it leaves. */
  datatype Saving = Saving(outcome: Outcome, ledger: Ledger)

  // ---------------------------------------------------------------------
  // Request validation and totals
  // ---------------------------------------------------------------------

  /** The trimmed `txn_id`, "" when absent. */
  function TxnIdOf(req: Request): string { PhpTrim(req.txnId.GetOr("")) }

  /** The request passes the 400 check: non-blank txn_id and a non-empty items array. */
  predicate WellFormed(req: Request) {
    TxnIdOf(req) != "" && req.items.Lines? && req.items.lines != []
  }

  /** `price ?? unit_price ?? 0`: the price the computed subtotal uses. */
  function TotalsPrice(l: Line): int {
    if l.price.Some? then l.price.value else l.unitPrice.GetOr(0)
  }

  /** `price ?? unit_price ?? amount ?? 0`: the price written to the item row. */
  function RowPrice(l: Line): int {
    if l.price.Some? then l.price.value
    else if l.unitPrice.Some? then l.unitPrice.value
    else l.amount.GetOr(0)
  }

  function LineValue(l: Line): int { l.qty * TotalsPrice(l) }

  /** PHP `round(c * 0.12, 2)` on an amount of centavos: 12% rounded half away from zero. */
  function TaxOf(c: int): int {
    if c >= 0 then (c * 12 + 50) / 100 else -((-c * 12 + 50) / 100)
  }

  /** The declared subtotal, with the lines' value added when it is absent or not positive. */
  function Subtotal(req: Request, lines: seq<Line>): int {
    var declared := req.subtotal.GetOr(0);
    if declared <= 0 then declared + SumInt(lines, LineValue) else declared
  }

  function ComputeTotals(req: Request, lines: seq<Line>): Totals {
    var sub := Subtotal(req, lines);
    var tax := if req.tax.Some? then req.tax.value else TaxOf(sub);
    Totals(sub, tax, if req.total.Some? then req.total.value else sub + tax)
  }

  /** The tax is the whole number of centavos nearest to 12%, halves away from zero. */
  lemma TaxIsNearest(c: int)
    ensures -50 <= 100 * TaxOf(c) - 12 * c <= 50
    ensures c >= 0 ==> 0 <= TaxOf(c) && -50 < 100 * TaxOf(c) - 12 * c
    ensures c < 0 ==> TaxOf(c) <= 0 && 100 * TaxOf(c) - 12 * c < 50
    ensures TaxOf(-c) == -TaxOf(c)
  {
  }

  /** Each declared amount wins on its own: tax and total verbatim, the subtotal when positive. */
  lemma DeclaredTotalsWin(req: Request, lines: seq<Line>)
    ensures req.tax.Some? ==> ComputeTotals(req, lines).tax == req.tax.value
    ensures req.total.Some? ==> ComputeTotals(req, lines).total == req.total.value
    ensures req.subtotal.Some? && req.subtotal.value > 0 ==> ComputeTotals(req, lines).subtotal == req.subtotal.value
  {
  }

  /**
   * Each amount not declared is computed on its own: a declared subtotal of at most 0
   * (0 when absent) gets the lines' value added, a missing tax is 12% of the subtotal
   * and a missing total is subtotal plus tax.
   */
  lemma ComputedTotals(req: Request, lines: seq<Line>)
    ensures req.subtotal.GetOr(0) <= 0 ==>
      ComputeTotals(req, lines).subtotal == req.subtotal.GetOr(0) + SumInt(lines, LineValue)
    ensures req.tax.None? ==> ComputeTotals(req, lines).tax == TaxOf(ComputeTotals(req, lines).subtotal)
    ensures req.total.None? ==>
      ComputeTotals(req, lines).total == ComputeTotals(req, lines).subtotal + ComputeTotals(req, lines).tax
  {
  }

  /** Two of a 100-centavo item and one of a 50-centavo item: 250 / 30 / 280. */
  lemma ExampleTotals(a: Line, b: Line)
    requires a.qty == 2 && a.price == Some(100) && b.qty == 1 && b.price == Some(50)
    ensures ComputeTotals(Request(Some("T1"), Lines([a, b]), None, None, None), [a, b]) == Totals(250, 30, 280)
  {
    assert [a, b][1..] == [b] && [b][1..] == [];
    assert LineValue(a) == 200 && LineValue(b) == 50;
    assert SumInt([b], LineValue) == 50;
    assert SumInt([a, b], LineValue) == 250;
  }

  // ---------------------------------------------------------------------
  // The conditional stock decrement
  // ---------------------------------------------------------------------

  predicate Matches(p: Product, k: Key) {
    match k
    case CodeKey(c) => p.code == Some(c)
    case IdKey(n) => p.id == n
    case ProductIdKey(s) => p.productid == Some(s)
  }

  /** A row the UPDATE changes: it matches the key and has at least `qty` in stock. */
  predicate Eligible(p: Product, k: Key, qty: int) { Matches(p, k) && p.stock >= qty }

  /** `UPDATE products SET stock = stock - qty WHERE <key> AND stock >= qty`. */
  function UpdateWhere(ps: seq<Product>, k: Key, qty: int): seq<Product>
    decreases |ps|
  {
    if ps == [] then []
    else
      var p := ps[0];
      [if Eligible(p, k, qty) then p.(stock := p.stock - qty) else p] + UpdateWhere(ps[1..], k, qty)
  }

  /** The UPDATE changes each eligible row by exactly `qty` and leaves every other row alone. */
  lemma {:induction false} UpdateWherePointwise(ps: seq<Product>, k: Key, qty: int)
    ensures |UpdateWhere(ps, k, qty)| == |ps|
    ensures forall j :: 0 <= j < |ps| ==>
      UpdateWhere(ps, k, qty)[j] == if Eligible(ps[j], k, qty) then ps[j].(stock := ps[j].stock - qty) else ps[j]
    decreases |ps|
  {
    if ps != [] {
      UpdateWherePointwise(ps[1..], k, qty);
      var r := UpdateWhere(ps, k, qty);
      forall j | 0 < j < |ps|
        ensures r[j] == if Eligible(ps[j], k, qty) then ps[j].(stock := ps[j].stock - qty) else ps[j]
      {
        assert r[j] == UpdateWhere(ps[1..], k, qty)[j - 1];
        assert ps[1..][j - 1] == ps[j];
      }
    }
  }

  /** `affected_rows` of that UPDATE (with qty > 0 every eligible row changes). */
  function Affected(ps: seq<Product>, k: Key, qty: int): nat
    decreases |ps|
  {
    if ps == [] then 0
    else (if Eligible(ps[0], k, qty) then 1 else 0) + Affected(ps[1..], k, qty)
  }

  /** No row is affected exactly when no row is eligible. */
  lemma {:induction false} AffectedZero(ps: seq<Product>, k: Key, qty: int)
    ensures Affected(ps, k, qty) <= |ps|
    ensures Affected(ps, k, qty) == 0 <==> forall j :: 0 <= j < |ps| ==> !Eligible(ps[j], k, qty)
    decreases |ps|
  {
    if ps != [] {
      AffectedZero(ps[1..], k, qty);
      assert forall j :: 0 < j < |ps| ==> ps[1..][j - 1] == ps[j];
    }
  }

  lemma NothingEligibleNoChange(ps: seq<Product>, k: Key, qty: int)
    requires Affected(ps, k, qty) == 0
    ensures UpdateWhere(ps, k, qty) == ps
  {
    AffectedZero(ps, k, qty);
    UpdateWherePointwise(ps, k, qty);
  }

  /**
   * The three strategies in order: product_code; the numeric id, only when the
   * identifier is all digits; productid. A strategy runs only when the earlier ones
   * affected no row; None when all affected none.
   */
  function Decrement(prep: Prepared, ps: seq<Product>, ident: string, qty: int): Option<Decremented> {
    var byCode := if prep.byCode then Affected(ps, CodeKey(ident), qty) else 0;
    if byCode > 0 then Some(Decremented(ByCode, CodeKey(ident), byCode, UpdateWhere(ps, CodeKey(ident), qty)))
    else
      var byId := if prep.byId && AllDigits(ident) then Affected(ps, IdKey(DigitsValue(ident)), qty) else 0;
      if byId > 0 then Some(Decremented(ById, IdKey(DigitsValue(ident)), byId, UpdateWhere(ps, IdKey(DigitsValue(ident)), qty)))
      else
        var byPid := if prep.byProductId then Affected(ps, ProductIdKey(ident), qty) else 0;
        if byPid > 0 then Some(Decremented(ByProductId, ProductIdKey(ident), byPid, UpdateWhere(ps, ProductIdKey(ident), qty)))
        else None
  }

  /**
   * Whether the UPDATE of strategy `st` is executed for a line: product_code whenever it
   * prepared, the id only for an all-digit identifier after product_code affected no row,
   * productid only after both affected none.
   */
  predicate Executes(prep: Prepared, ps: seq<Product>, ident: string, qty: int, st: Strategy) {
    var byCode := if prep.byCode then Affected(ps, CodeKey(ident), qty) else 0;
    var byId := if prep.byId && AllDigits(ident) then Affected(ps, IdKey(DigitsValue(ident)), qty) else 0;
    match st
    case ByCode => prep.byCode
    case ById => byCode == 0 && prep.byId && AllDigits(ident)
    case ByProductId => byCode == 0 && byId == 0 && prep.byProductId
  }

  /** A successful decrement is one UPDATE under the key of its strategy, and it affected some row. */
  lemma DecrementIsOneUpdate(prep: Prepared, ps: seq<Product>, ident: string, qty: int)
    requires Decrement(prep, ps, ident, qty).Some?
    ensures var d := Decrement(prep, ps, ident, qty).value;
      d.affected > 0 && d.affected == Affected(ps, d.key, qty) && d.products == UpdateWhere(ps, d.key, qty)
      && (d.strategy.ByCode? ==> d.key == CodeKey(ident))
      && (d.strategy.ById? ==> AllDigits(ident) && d.key == IdKey(DigitsValue(ident)))
      && (d.strategy.ByProductId? ==> d.key == ProductIdKey(ident))
  {
  }

  /**
   * The fallback order: product_code wins whenever it affects a row; the id is used
   * only for an all-digit identifier after product_code affected none (also when the
   * product exists with too little stock); the checkout line fails only when every
   * prepared strategy affected none.
   */
  lemma DecrementOrder(prep: Prepared, ps: seq<Product>, ident: string, qty: int)
    ensures var r := Decrement(prep, ps, ident, qty);
      (r.Some? && r.value.strategy.ByCode?) <==> (prep.byCode && Affected(ps, CodeKey(ident), qty) > 0)
    ensures var r := Decrement(prep, ps, ident, qty);
      (r.Some? && r.value.strategy.ById?) <==>
        (!(prep.byCode && Affected(ps, CodeKey(ident), qty) > 0) && prep.byId && AllDigits(ident)
         && Affected(ps, IdKey(DigitsValue(ident)), qty) > 0)
    ensures var r := Decrement(prep, ps, ident, qty);
      r.None? <==>
        ((prep.byCode ==> Affected(ps, CodeKey(ident), qty) == 0)
         && (prep.byId && AllDigits(ident) ==> Affected(ps, IdKey(DigitsValue(ident)), qty) == 0)
         && (prep.byProductId ==> Affected(ps, ProductIdKey(ident), qty) == 0))
  {
  }

  // ---------------------------------------------------------------------
  // The item loop and the whole checkout
  // ---------------------------------------------------------------------

  /** The `transaction_items` row written for a line (the string txn columns stay NULL). */
  function ItemRow(numericId: int, l: Line): Item {
    var price := RowPrice(l);
    Item(Some(numericId), None, None, l.ident, Some(l.name), l.qty, price,
         if l.subtotal.Some? then l.subtotal.value else l.qty * price)
  }

  function Rows(numericId: int, lines: seq<Line>): (r: seq<Item>)
    ensures |r| == |lines| && forall i :: 0 <= i < |lines| ==> r[i] == ItemRow(numericId, lines[i])
  {
    seq(|lines|, i requires 0 <= i < |lines| => ItemRow(numericId, lines[i]))
  }

  /** The fault, if any, strikes line number `at`: its item insert, or an UPDATE that line executes. */
  predicate Breaks(prep: Prepared, ps: seq<Product>, l: Line, fault: Option<Fault>, at: nat) {
    match fault
    case Some(ItemInsertFails(n)) => n == at
    case Some(UpdateFails(n, st)) => n == at && Executes(prep, ps, l.ident, l.qty, st)
    case _ => false
  }

  /**
   * The item loop from the current products and item rows: each line in input order,
   * `at` being the number of the first of `lines` in the request.
   */
  function Run(prep: Prepared, ps: seq<Product>, items: seq<Item>, numericId: int, lines: seq<Line>,
               fault: Option<Fault>, at: nat): Result<Progress, Failure>
    decreases |lines|
  {
    if lines == [] then Ok(Progress(ps, items))
    else
      var l := lines[0];
      if l.qty <= 0 then Err(InvalidQuantity(l.ident))
      else if Breaks(prep, ps, l, fault, at) then Err(DatabaseError)
      else
        match Decrement(prep, ps, l.ident, l.qty)
        case None => Err(InsufficientStock(l.ident, l.qty))
        case Some(d) => Run(prep, d.products, items + [ItemRow(numericId, l)], numericId, lines[1..], fault, at + 1)
  }

  /** One step of the item loop: a line with a non-positive quantity stops it. */
  lemma RunBadQuantity(prep: Prepared, ps: seq<Product>, items: seq<Item>, id: int, lines: seq<Line>,
                       fault: Option<Fault>, at: nat)
    requires lines != [] && lines[0].qty <= 0
    ensures Run(prep, ps, items, id, lines, fault, at) == Err(InvalidQuantity(lines[0].ident))
  {
  }

  /** One step of the item loop: a failing insert or UPDATE of this line stops it. */
  lemma RunBreaks(prep: Prepared, ps: seq<Product>, items: seq<Item>, id: int, lines: seq<Line>,
                  fault: Option<Fault>, at: nat)
    requires lines != [] && lines[0].qty > 0 && Breaks(prep, ps, lines[0], fault, at)
    ensures Run(prep, ps, items, id, lines, fault, at) == Err(DatabaseError)
  {
  }

  /** One step of the item loop: a line no strategy can serve stops it. */
  lemma RunNoStock(prep: Prepared, ps: seq<Product>, items: seq<Item>, id: int, lines: seq<Line>,
                   fault: Option<Fault>, at: nat)
    requires lines != [] && lines[0].qty > 0 && !Breaks(prep, ps, lines[0], fault, at)
    requires Decrement(prep, ps, lines[0].ident, lines[0].qty).None?
    ensures Run(prep, ps, items, id, lines, fault, at) == Err(InsufficientStock(lines[0].ident, lines[0].qty))
  {
  }

  /** One step of the item loop: a served line continues from the decremented products. */
  lemma RunStep(prep: Prepared, ps: seq<Product>, items: seq<Item>, id: int, lines: seq<Line>,
                fault: Option<Fault>, at: nat)
    requires lines != [] && lines[0].qty > 0 && !Breaks(prep, ps, lines[0], fault, at)
    requires Decrement(prep, ps, lines[0].ident, lines[0].qty).Some?
    ensures Run(prep, ps, items, id, lines, fault, at)
      == Run(prep, Decrement(prep, ps, lines[0].ident, lines[0].qty).value.products,
             items + [ItemRow(id, lines[0])], id, lines[1..], fault, at + 1)
  {
  }

  /** The header row a valid request writes. */
  function HeaderOf(s: Ledger, req: Request, employeeId: Option<int>, now: string): Header
    requires WellFormed(req)
  {
    var t := ComputeTotals(req, req.items.lines);
    Header(s.nextTransactionId, TxnIdOf(req), employeeId, now, Some(t.subtotal), Some(t.tax), Some(t.total))
  }

  /**
   * The reference checkout. A malformed request is a 400 that touches nothing. A failed
   * begin or header insert is a 500 that touches nothing either; any later failure is a
   * 500 that restores every table but keeps the transaction counter advanced (InnoDB
   * does not give back an AUTO_INCREMENT value).
   */
  function Save(s: Ledger, prep: Prepared, req: Request, employeeId: Option<int>, now: string,
                fault: Option<Fault>): Saving {
    if !WellFormed(req) then Saving(Rejected(400, BadRequest), s)
    else if fault == Some(BeginFails) || fault == Some(HeaderFails) then Saving(Rejected(500, DatabaseError), s)
    else
      var lines := req.items.lines;
      var t := ComputeTotals(req, lines);
      var id := s.nextTransactionId;
      var rolledBack := s.(nextTransactionId := id + 1);
      if fault == Some(ItemsPrepareFails) then Saving(Rejected(500, DatabaseError), rolledBack)
      else if !prep.byCode && !prep.byId && !prep.byProductId then Saving(Rejected(500, NoStockStatement), rolledBack)
      else
        match Run(prep, s.products, s.items, id, lines, fault, 0)
        case Err(f) => Saving(Rejected(500, f), rolledBack)
        case Ok(p) =>
          if fault == Some(CommitFails) then Saving(Rejected(500, DatabaseError), rolledBack)
          else
            Saving(Saved(TxnIdOf(req), id, t.subtotal, t.tax, t.total, employeeId),
                   Ledger(p.products, s.transactions + [HeaderOf(s, req, employeeId, now)], p.items, id + 1))
  }

  predicate AnyPrepared(prep: Prepared) { prep.byCode || prep.byId || prep.byProductId }

  /** Only the item loop and the commit are reached with stock statements and items prepared. */
  predicate ReachesLoop(fault: Option<Fault>) {
    fault != Some(BeginFails) && fault != Some(HeaderFails) && fault != Some(ItemsPrepareFails)
  }

  /** A valid request whose item loop fails is a 500 that only advances the counter. */
  lemma SaveWhenRunFails(s: Ledger, prep: Prepared, req: Request, employeeId: Option<int>, now: string,
                         fault: Option<Fault>, f: Failure)
    requires WellFormed(req) && AnyPrepared(prep) && ReachesLoop(fault)
    requires Run(prep, s.products, s.items, s.nextTransactionId, req.items.lines, fault, 0) == Err(f)
    ensures Save(s, prep, req, employeeId, now, fault)
      == Saving(Rejected(500, f), s.(nextTransactionId := s.nextTransactionId + 1))
  {
  }

  /** A valid request whose item loop completes but whose commit fails is a 500 that only advances the counter. */
  lemma SaveWhenCommitFails(s: Ledger, prep: Prepared, req: Request, employeeId: Option<int>, now: string, p: Progress)
    requires WellFormed(req) && AnyPrepared(prep)
    requires Run(prep, s.products, s.items, s.nextTransactionId, req.items.lines, Some(CommitFails), 0) == Ok(p)
    ensures Save(s, prep, req, employeeId, now, Some(CommitFails))
      == Saving(Rejected(500, DatabaseError), s.(nextTransactionId := s.nextTransactionId + 1))
  {
  }

  /** A valid request whose item loop completes and whose commit succeeds stores header, rows and stock. */
  lemma SaveWhenRunCompletes(s: Ledger, prep: Prepared, req: Request, employeeId: Option<int>, now: string,
                             fault: Option<Fault>, p: Progress)
    requires WellFormed(req) && AnyPrepared(prep) && ReachesLoop(fault) && fault != Some(CommitFails)
    requires Run(prep, s.products, s.items, s.nextTransactionId, req.items.lines, fault, 0) == Ok(p)
    ensures var t := ComputeTotals(req, req.items.lines);
      Save(s, prep, req, employeeId, now, fault)
      == Saving(Saved(TxnIdOf(req), s.nextTransactionId, t.subtotal, t.tax, t.total, employeeId),
                Ledger(p.products, s.transactions + [HeaderOf(s, req, employeeId, now)], p.items, s.nextTransactionId + 1))
  {
  }

  // ---------------------------------------------------------------------
  // The endpoint, step by step
  // ---------------------------------------------------------------------

  /** One prepared stock UPDATE, executed. */
  method UpdateStock(db: Database, k: Key, qty: int) returns (affected: nat)
    modifies db`products
    ensures db.products == UpdateWhere(old(db.products), k, qty)
    ensures affected == Affected(old(db.products), k, qty)
    ensures affected == 0 ==> db.products == old(db.products)
  {
    affected := Affected(db.products, k, qty);
    if affected == 0 {
      NothingEligibleNoChange(db.products, k, qty);
    }
    db.products := UpdateWhere(db.products, k, qty);
  }

  /**
   * Lines 199-253 for one line: the three UPDATEs in order; `ok` is `$updated !== 0`.
   * `failing` names the strategy whose `execute` answers false, if any; when that
   * UPDATE is reached the line `broke` and nothing changes.
   */
  method DecrementLine(db: Database, prep: Prepared, ident: string, qty: int, failing: Option<Strategy>)
    returns (broke: bool, ok: bool)
    modifies db`products
    ensures broke == (failing.Some? && Executes(prep, old(db.products), ident, qty, failing.value))
    ensures ok == (!broke && Decrement(prep, old(db.products), ident, qty).Some?)
    ensures ok ==> db.products == Decrement(prep, old(db.products), ident, qty).value.products
    ensures !ok ==> db.products == old(db.products)
  {
    var updated := 0;
    if prep.byCode {
      if failing == Some(ByCode) {
        return true, false;
      }
      updated := UpdateStock(db, CodeKey(ident), qty);
    }
    if updated == 0 && AllDigits(ident) && prep.byId {
      if failing == Some(ById) {
        return true, false;
      }
      updated := UpdateStock(db, IdKey(DigitsValue(ident)), qty);
    }
    if updated == 0 && prep.byProductId {
      if failing == Some(ByProductId) {
        return true, false;
      }
      updated := UpdateStock(db, ProductIdKey(ident), qty);
    }
    broke, ok := false, updated != 0;
  }

  /** The subtotal loop over the request's lines. */
  method SubtotalOf(req: Request, lines: seq<Line>) returns (subtotal: int)
    ensures subtotal == Subtotal(req, lines)
  {
    subtotal := req.subtotal.GetOr(0);
    if subtotal <= 0 {
      var k := 0;
      while k < |lines|
        invariant 0 <= k <= |lines|
        invariant subtotal == req.subtotal.GetOr(0) + SumInt(lines[..k], LineValue)
      {
        assert lines[..k + 1] == lines[..k] + [lines[k]];
        SumIntAppend(lines[..k], lines[k], LineValue);
        subtotal := subtotal + LineValue(lines[k]);
        k := k + 1;
      }
      assert lines[..|lines|] == lines;
    }
  }

  /** `after` is `before` followed by the rows of the first `k` lines, for some `k`. */
  ghost predicate RowsOfPrefix(before: seq<Item>, after: seq<Item>, id: int, lines: seq<Line>) {
    exists k :: 0 <= k <= |lines| && after == before + Rows(id, lines[..k])
  }

  /**
   * The item loop (lines 171-254): insert the row, then decrement; the first failing
   * line ends the loop with its failure. What it leaves then, and the caller rolls
   * back, is only lowered stock and the rows of the lines up to the failing one.
   */
  method ItemLoop(db: Database, prep: Prepared, id: int, lines: seq<Line>, fault: Option<Fault>)
    returns (failure: Option<Failure>)
    modifies db`products, db`transactionItems
    ensures failure.Some? <==> Run(prep, old(db.products), old(db.transactionItems), id, lines, fault, 0).Err?
    ensures failure.Some? ==> failure.value == Run(prep, old(db.products), old(db.transactionItems), id, lines, fault, 0).error
    ensures failure.None? ==>
      Run(prep, old(db.products), old(db.transactionItems), id, lines, fault, 0) == Ok(Progress(db.products, db.transactionItems))
    ensures failure.Some? ==>
      StockOnlyFalls(old(db.products), db.products)
      && RowsOfPrefix(old(db.transactionItems), db.transactionItems, id, lines)
  {
    var i := 0;
    while i < |lines|
      invariant 0 <= i <= |lines|
      invariant Run(prep, db.products, db.transactionItems, id, lines[i..], fault, i)
        == Run(prep, old(db.products), old(db.transactionItems), id, lines, fault, 0)
      invariant StockOnlyFalls(old(db.products), db.products)
      invariant db.transactionItems == old(db.transactionItems) + Rows(id, lines[..i])
    {
      var l := lines[i];
      assert lines[i..][0] == l && lines[i..][1..] == lines[i + 1..];
      if l.qty <= 0 {
        RunBadQuantity(prep, db.products, db.transactionItems, id, lines[i..], fault, i);
        assert RowsOfPrefix(old(db.transactionItems), db.transactionItems, id, lines);
        return Some(InvalidQuantity(l.ident));
      }
      ghost var before, rows := db.products, db.transactionItems;
      if fault == Some(ItemInsertFails(i)) {
        RunBreaks(prep, before, rows, id, lines[i..], fault, i);
        assert RowsOfPrefix(old(db.transactionItems), db.transactionItems, id, lines);
        return Some(DatabaseError);
      }
      db.transactionItems := db.transactionItems + [ItemRow(id, l)];
      assert Rows(id, lines[..i + 1]) == Rows(id, lines[..i]) + [ItemRow(id, l)];
      AppendAssoc(old(db.transactionItems), Rows(id, lines[..i]), [ItemRow(id, l)]);
      var failing := if fault.Some? && fault.value.UpdateFails? && fault.value.line == i then Some(fault.value.strategy) else None;
      var broke, ok := DecrementLine(db, prep, l.ident, l.qty, failing);
      if broke {
        RunBreaks(prep, before, rows, id, lines[i..], fault, i);
        assert RowsOfPrefix(old(db.transactionItems), db.transactionItems, id, lines);
        return Some(DatabaseError);
      }
      if !ok {
        RunNoStock(prep, before, rows, id, lines[i..], fault, i);
        assert RowsOfPrefix(old(db.transactionItems), db.transactionItems, id, lines);
        return Some(InsufficientStock(l.ident, l.qty));
      }
      RunStep(prep, before, rows, id, lines[i..], fault, i);
      DecrementOnlyFalls(prep, before, l.ident, l.qty);
      StockOnlyFallsTransitive(old(db.products), before, db.products);
      i := i + 1;
    }
    assert lines[|lines|..] == [];
    failure := None;
  }

  /**
   * `save_transaction.php` against the store, `fault` naming the storage call that
   * fails, if any: the answer and the new tables are exactly `Save`'s.
   */
  method SaveTransaction(db: Database, prep: Prepared, req: Request, employeeId: Option<int>, now: string,
                         fault: Option<Fault>)
    returns (out: Outcome)
    modifies db`products, db`transactions, db`transactionItems, db`nextTransactionId
    ensures out == Save(old(db.Sales()), prep, req, employeeId, now, fault).outcome
    ensures db.Sales() == Save(old(db.Sales()), prep, req, employeeId, now, fault).ledger
  {
    ghost var s := db.Sales();
    var txnId := PhpTrim(req.txnId.GetOr(""));
    if txnId == "" || !req.items.Lines? || |req.items.lines| == 0 {
      return Rejected(400, BadRequest);
    }
    var lines := req.items.lines;
    var subtotal := SubtotalOf(req, lines);
    var tax := if req.tax.Some? then req.tax.value else TaxOf(subtotal);
    var total := if req.total.Some? then req.total.value else subtotal + tax;

    // begin_transaction, then the header insert
    if fault == Some(BeginFails) || fault == Some(HeaderFails) {
      SaveStorageFaults(s, prep, req, employeeId, now, fault);
      return Rejected(500, DatabaseError);
    }
    var products0, transactions0, items0 := db.products, db.transactions, db.transactionItems;
    var id := db.nextTransactionId;
    db.transactions := db.transactions + [Header(id, txnId, employeeId, now, Some(subtotal), Some(tax), Some(total))];
    db.nextTransactionId := id + 1;

    if fault == Some(ItemsPrepareFails) {
      SaveStorageFaults(s, prep, req, employeeId, now, fault);
      db.transactions := transactions0;
      return Rejected(500, DatabaseError);
    }
    if !prep.byCode && !prep.byId && !prep.byProductId {
      db.transactions := transactions0;
      return Rejected(500, NoStockStatement);
    }

    var failure := ItemLoop(db, prep, id, lines, fault);
    if failure.Some? {
      SaveWhenRunFails(s, prep, req, employeeId, now, fault, failure.value);
      db.products, db.transactions, db.transactionItems := products0, transactions0, items0;
      return Rejected(500, failure.value);
    }
    if fault == Some(CommitFails) {
      SaveWhenCommitFails(s, prep, req, employeeId, now, Progress(db.products, db.transactionItems));
      db.products, db.transactions, db.transactionItems := products0, transactions0, items0;
      return Rejected(500, DatabaseError);
    }
    SaveWhenRunCompletes(s, prep, req, employeeId, now, fault, Progress(db.products, db.transactionItems));
    out := Saved(txnId, id, subtotal, tax, total, employeeId);
  }

  // ---------------------------------------------------------------------
  // Properties of the reference checkout
  // ---------------------------------------------------------------------

  /** Rows only ever lose stock, never below zero, and nothing but `stock` changes. */
  ghost predicate StockOnlyFalls(before: seq<Product>, after: seq<Product>) {
    |after| == |before|
    && forall j :: 0 <= j < |before| ==>
      after[j] == before[j].(stock := after[j].stock)
      && (after[j].stock == before[j].stock || 0 <= after[j].stock < before[j].stock)
  }

  lemma UpdateOnlyFalls(ps: seq<Product>, k: Key, qty: int)
    requires qty > 0
    ensures StockOnlyFalls(ps, UpdateWhere(ps, k, qty))
  {
    UpdateWherePointwise(ps, k, qty);
  }

  /** A served line only lowers stock, never below zero. */
  lemma DecrementOnlyFalls(prep: Prepared, ps: seq<Product>, ident: string, qty: int)
    requires qty > 0 && Decrement(prep, ps, ident, qty).Some?
    ensures StockOnlyFalls(ps, Decrement(prep, ps, ident, qty).value.products)
  {
    DecrementIsOneUpdate(prep, ps, ident, qty);
    UpdateOnlyFalls(ps, Decrement(prep, ps, ident, qty).value.key, qty);
  }

  lemma {:induction false} StockOnlyFallsTransitive(a: seq<Product>, b: seq<Product>, c: seq<Product>)
    requires StockOnlyFalls(a, b) && StockOnlyFalls(b, c)
    ensures StockOnlyFalls(a, c)
  {
    forall j | 0 <= j < |a|
      ensures c[j] == a[j].(stock := c[j].stock)
      ensures c[j].stock == a[j].stock || 0 <= c[j].stock < a[j].stock
    {
      assert b[j] == a[j].(stock := b[j].stock);
      assert c[j] == b[j].(stock := c[j].stock);
    }
  }

  /** A completed run appends one item row per line, in input order. */
  lemma {:induction false} RunAppendsRows(prep: Prepared, ps: seq<Product>, items: seq<Item>, id: int, lines: seq<Line>,
                           fault: Option<Fault>, at: nat)
    requires Run(prep, ps, items, id, lines, fault, at).Ok?
    ensures Run(prep, ps, items, id, lines, fault, at).value.items == items + Rows(id, lines)
    decreases |lines|
  {
    if lines == [] {
      assert Rows(id, lines) == [];
    } else {
      var row := ItemRow(id, lines[0]);
      var next := Decrement(prep, ps, lines[0].ident, lines[0].qty).value.products;
      var rest := Run(prep, next, items + [row], id, lines[1..], fault, at + 1);
      assert Run(prep, ps, items, id, lines, fault, at) == rest by { RunStep(prep, ps, items, id, lines, fault, at); }
      assert rest.value.items == (items + [row]) + Rows(id, lines[1..]) by {
        RunAppendsRows(prep, next, items + [row], id, lines[1..], fault, at + 1);
      }
      assert Rows(id, lines) == [row] + Rows(id, lines[1..]) by { RowsCons(id, lines); }
      AppendAssoc(items, [row], Rows(id, lines[1..]));
    }
  }

  lemma RowsCons(id: int, lines: seq<Line>)
    requires lines != []
    ensures Rows(id, lines) == [ItemRow(id, lines[0])] + Rows(id, lines[1..])
  {
  }

  /** A completed run only lowers stock, never below zero. */
  lemma {:induction false} RunStockOnlyFalls(prep: Prepared, ps: seq<Product>, items: seq<Item>, id: int, lines: seq<Line>,
                              fault: Option<Fault>, at: nat)
    requires Run(prep, ps, items, id, lines, fault, at).Ok?
    ensures StockOnlyFalls(ps, Run(prep, ps, items, id, lines, fault, at).value.products)
    decreases |lines|
  {
    var r := Run(prep, ps, items, id, lines, fault, at).value.products;
    if lines == [] {
      assert r == ps;
    } else {
      var l := lines[0];
      var d := Decrement(prep, ps, l.ident, l.qty).value;
      DecrementIsOneUpdate(prep, ps, l.ident, l.qty);
      UpdateOnlyFalls(ps, d.key, l.qty);
      RunStockOnlyFalls(prep, d.products, items + [ItemRow(id, l)], id, lines[1..], fault, at + 1);
      StockOnlyFallsTransitive(ps, d.products, r);
    }
  }

  /** A line with a non-positive quantity makes the whole run fail. */
  lemma {:induction false} RunRejectsBadQuantity(prep: Prepared, ps: seq<Product>, items: seq<Item>, id: int, lines: seq<Line>,
                                               fault: Option<Fault>, at: nat, i: int)
    requires 0 <= i < |lines| && lines[i].qty <= 0
    ensures Run(prep, ps, items, id, lines, fault, at).Err?
    decreases |lines|
  {
    var l := lines[0];
    if i > 0 && l.qty > 0 && !Breaks(prep, ps, l, fault, at) {
      match Decrement(prep, ps, l.ident, l.qty)
      case None =>
      case Some(d) =>
        RunRejectsBadQuantity(prep, d.products, items + [ItemRow(id, l)], id, lines[1..], fault, at + 1, i - 1);
    }
  }

  /** Product codes are unique among the rows that have one. */
  ghost predicate DistinctCodes(ps: seq<Product>) {
    forall i, j :: 0 <= i < |ps| && 0 <= j < |ps| && i != j && ps[i].code.Some? ==> ps[i].code != ps[j].code
  }

  /** A row the id or productid strategy could reach for `ident`. */
  predicate ReachableOtherwise(p: Product, ident: string) {
    (AllDigits(ident) && p.id == DigitsValue(ident)) || p.productid == Some(ident)
  }

  /** Only the product_code strategy can match: no line names a row by id or productid. */
  ghost predicate CodeOnly(ps: seq<Product>, lines: seq<Line>) {
    forall i, j :: 0 <= i < |lines| && 0 <= j < |ps| ==> !ReachableOtherwise(ps[j], lines[i].ident)
  }

  /** The total quantity that the lines ask of the product with code `code`. */
  function Demand(lines: seq<Line>, code: string): int
    decreases |lines|
  {
    if lines == [] then 0
    else (if lines[0].ident == code then lines[0].qty else 0) + Demand(lines[1..], code)
  }

  function DemandOn(p: Product, lines: seq<Line>): int {
    if p.code.Some? then Demand(lines, p.code.value) else 0
  }

  /** With unique codes, one decrement by code lowers exactly the named row by qty. */
  lemma ByCodeStep(ps: seq<Product>, ident: string, qty: int)
    requires DistinctCodes(ps) && Affected(ps, CodeKey(ident), qty) > 0
    ensures |UpdateWhere(ps, CodeKey(ident), qty)| == |ps|
    ensures forall j :: 0 <= j < |ps| ==>
      UpdateWhere(ps, CodeKey(ident), qty)[j].stock == ps[j].stock - (if ps[j].code == Some(ident) then qty else 0)
  {
    AffectedZero(ps, CodeKey(ident), qty);
    UpdateWherePointwise(ps, CodeKey(ident), qty);
    var w :| 0 <= w < |ps| && Eligible(ps[w], CodeKey(ident), qty);
    forall j | 0 <= j < |ps| && ps[j].code == Some(ident)
      ensures Eligible(ps[j], CodeKey(ident), qty)
    {
      assert j == w;
    }
  }

  /**
   * When codes are unique and only the code strategy can match, a completed run
   * lowers each product by exactly the quantity its lines ask for, lines for the
   * same product being checked one after another against the reduced stock.
   */
  lemma {:induction false} RunLowersByDemand(prep: Prepared, ps: seq<Product>, items: seq<Item>, id: int, lines: seq<Line>,
                              fault: Option<Fault>, at: nat)
    requires DistinctCodes(ps) && CodeOnly(ps, lines)
    requires Run(prep, ps, items, id, lines, fault, at).Ok?
    ensures |Run(prep, ps, items, id, lines, fault, at).value.products| == |ps|
    ensures forall j :: 0 <= j < |ps| ==>
      Run(prep, ps, items, id, lines, fault, at).value.products[j].stock == ps[j].stock - DemandOn(ps[j], lines)
    decreases |lines|
  {
    var r := Run(prep, ps, items, id, lines, fault, at).value.products;
    if lines == [] {
      assert r == ps;
    } else {
      var l := lines[0];
      assert l.qty > 0 && Decrement(prep, ps, l.ident, l.qty).Some?;
      CodeOnlyFirstStep(prep, ps, lines);
      var ps' := Decrement(prep, ps, l.ident, l.qty).value.products;
      RunStep(prep, ps, items, id, lines, fault, at);
      RunLowersByDemand(prep, ps', items + [ItemRow(id, l)], id, lines[1..], fault, at + 1);
      forall j | 0 <= j < |ps| ensures r[j].stock == ps[j].stock - DemandOn(ps[j], lines) {
        assert DemandOn(ps'[j], lines[1..]) == DemandOn(ps[j], lines[1..]);
      }
    }
  }

  /**
   * The first step of such a run lowers exactly the row with the line's code, keeps every
   * key, and leaves the rest of the run code-only.
   */
  lemma CodeOnlyFirstStep(prep: Prepared, ps: seq<Product>, lines: seq<Line>)
    requires DistinctCodes(ps) && CodeOnly(ps, lines)
    requires lines != [] && lines[0].qty > 0 && Decrement(prep, ps, lines[0].ident, lines[0].qty).Some?
    ensures var ps' := Decrement(prep, ps, lines[0].ident, lines[0].qty).value.products;
      |ps'| == |ps|
      && (forall j :: 0 <= j < |ps| ==>
            ps'[j].stock == ps[j].stock - (if ps[j].code == Some(lines[0].ident) then lines[0].qty else 0))
      && (forall j :: 0 <= j < |ps| ==> ps'[j].code == ps[j].code && ps'[j].id == ps[j].id && ps'[j].productid == ps[j].productid)
      && DistinctCodes(ps') && CodeOnly(ps', lines[1..])
  {
    var l := lines[0];
    var d := Decrement(prep, ps, l.ident, l.qty).value;
    forall j | 0 <= j < |ps| ensures !ReachableOtherwise(ps[j], l.ident) {
      assert lines[0] == l;
    }
    if AllDigits(l.ident) {
      AffectedZero(ps, IdKey(DigitsValue(l.ident)), l.qty);
    }
    AffectedZero(ps, ProductIdKey(l.ident), l.qty);
    DecrementOrder(prep, ps, l.ident, l.qty);
    DecrementIsOneUpdate(prep, ps, l.ident, l.qty);
    assert d.strategy.ByCode?;
    ByCodeStep(ps, l.ident, l.qty);
    UpdateOnlyFalls(ps, CodeKey(l.ident), l.qty);
    var ps' := d.products;
    assert forall j :: 0 <= j < |ps| ==> ps'[j].code == ps[j].code && ps'[j].id == ps[j].id && ps'[j].productid == ps[j].productid;
    assert CodeOnly(ps', lines[1..]) by {
      forall i, j | 0 <= i < |lines[1..]| && 0 <= j < |ps'| ensures !ReachableOtherwise(ps'[j], lines[1..][i].ident) {
        assert lines[1..][i] == lines[i + 1];
        assert !ReachableOtherwise(ps[j], lines[i + 1].ident);
      }
    }
  }

  /** So a completed run never sells more of a product than it had in stock. */
  lemma NeverOversells(prep: Prepared, ps: seq<Product>, items: seq<Item>, id: int, lines: seq<Line>,
                           fault: Option<Fault>, at: nat)
    requires DistinctCodes(ps) && CodeOnly(ps, lines)
    requires Run(prep, ps, items, id, lines, fault, at).Ok?
    ensures forall j :: 0 <= j < |ps| && DemandOn(ps[j], lines) != 0 ==> DemandOn(ps[j], lines) <= ps[j].stock
  {
    RunLowersByDemand(prep, ps, items, id, lines, fault, at);
    RunStockOnlyFalls(prep, ps, items, id, lines, fault, at);
  }

  /** A malformed request is a 400 and leaves every table and counter as it was. */
  lemma SaveRejectsMalformed(s: Ledger, prep: Prepared, req: Request, employeeId: Option<int>, now: string,
                             fault: Option<Fault>)
    requires TxnIdOf(req) == "" || !req.items.Lines? || req.items.lines == []
    ensures Save(s, prep, req, employeeId, now, fault) == Saving(Rejected(400, BadRequest), s)
  {
  }

  /**
   * All or nothing: a rejected checkout leaves products, headers and item rows as
   * they were (only the counter may have advanced); a saved one appends exactly one
   * header, one item row per line in order, and only lowers stock, never below zero.
   */
  lemma SaveAllOrNothing(s: Ledger, prep: Prepared, req: Request, employeeId: Option<int>, now: string,
                         fault: Option<Fault>)
    ensures var r := Save(s, prep, req, employeeId, now, fault);
      r.outcome.Rejected? ==>
        r.ledger.products == s.products && r.ledger.transactions == s.transactions
        && r.ledger.items == s.items
        && (r.ledger.nextTransactionId == s.nextTransactionId || r.ledger.nextTransactionId == s.nextTransactionId + 1)
    ensures var r := Save(s, prep, req, employeeId, now, fault);
      r.outcome.Saved? ==>
        WellFormed(req)
        && r.outcome.numericId == s.nextTransactionId
        && r.outcome.txnId == TxnIdOf(req)
        && r.ledger.transactions == s.transactions + [HeaderOf(s, req, employeeId, now)]
        && r.ledger.items == s.items + Rows(s.nextTransactionId, req.items.lines)
        && StockOnlyFalls(s.products, r.ledger.products)
        && r.ledger.nextTransactionId == s.nextTransactionId + 1
  {
    var r := Save(s, prep, req, employeeId, now, fault);
    if r.outcome.Saved? {
      RunAppendsRows(prep, s.products, s.items, s.nextTransactionId, req.items.lines, fault, 0);
      RunStockOnlyFalls(prep, s.products, s.items, s.nextTransactionId, req.items.lines, fault, 0);
    }
  }

  /** No duplicate check: whether a checkout succeeds does not depend on existing headers. */
  lemma SaveIgnoresExistingHeaders(s: Ledger, headers: seq<Header>, prep: Prepared, req: Request,
                                   employeeId: Option<int>, now: string, fault: Option<Fault>)
    ensures Save(s, prep, req, employeeId, now, fault).outcome == Save(s.(transactions := headers), prep, req, employeeId, now, fault).outcome
  {
  }

  // ---------------------------------------------------------------------
  // Storage failures
  // ---------------------------------------------------------------------

  /** A fault outside the item loop leaves the loop exactly as without a fault. */
  lemma {:induction false} RunIgnoresOuterFault(prep: Prepared, ps: seq<Product>, items: seq<Item>, id: int,
                                                lines: seq<Line>, fault: Option<Fault>, at: nat)
    requires fault.None? || !(fault.value.ItemInsertFails? || fault.value.UpdateFails?)
    ensures Run(prep, ps, items, id, lines, fault, at) == Run(prep, ps, items, id, lines, None, at)
    decreases |lines|
  {
    if lines != [] && lines[0].qty > 0 {
      var l := lines[0];
      assert !Breaks(prep, ps, l, fault, at) && !Breaks(prep, ps, l, None, at);
      match Decrement(prep, ps, l.ident, l.qty)
      case None =>
      case Some(d) =>
        RunIgnoresOuterFault(prep, d.products, items + [ItemRow(id, l)], id, lines[1..], fault, at + 1);
    }
  }

  /** A loop that completes under a fault is the fault-free loop: the fault struck no statement it ran. */
  lemma {:induction false} RunOkIgnoresFault(prep: Prepared, ps: seq<Product>, items: seq<Item>, id: int,
                                             lines: seq<Line>, fault: Option<Fault>, at: nat)
    requires Run(prep, ps, items, id, lines, fault, at).Ok?
    ensures Run(prep, ps, items, id, lines, fault, at) == Run(prep, ps, items, id, lines, None, at)
    decreases |lines|
  {
    if lines != [] {
      var l := lines[0];
      var d := Decrement(prep, ps, l.ident, l.qty).value;
      RunStep(prep, ps, items, id, lines, fault, at);
      RunStep(prep, ps, items, id, lines, None, at);
      RunOkIgnoresFault(prep, d.products, items + [ItemRow(id, l)], id, lines[1..], fault, at + 1);
    }
  }

  /** A failing item insert on any line of a loop that would complete makes it fail with a database error. */
  lemma {:induction false} InsertFaultFailsRun(prep: Prepared, ps: seq<Product>, items: seq<Item>, id: int,
                                               lines: seq<Line>, n: nat, at: nat)
    requires Run(prep, ps, items, id, lines, None, at).Ok?
    requires at <= n < at + |lines|
    ensures Run(prep, ps, items, id, lines, Some(ItemInsertFails(n)), at) == Err(DatabaseError)
    decreases |lines|
  {
    var l := lines[0];
    var fault := Some(ItemInsertFails(n));
    if n == at {
      RunBreaks(prep, ps, items, id, lines, fault, at);
    } else {
      var d := Decrement(prep, ps, l.ident, l.qty).value;
      RunStep(prep, ps, items, id, lines, None, at);
      RunStep(prep, ps, items, id, lines, fault, at);
      InsertFaultFailsRun(prep, d.products, items + [ItemRow(id, l)], id, lines[1..], n, at + 1);
    }
  }

  /**
   * Every storage failure of a valid request is a 500: a failed begin or header insert
   * leaves even the counter alone; a failed items prepare, a failed item insert on a line
   * of a checkout that would otherwise be saved, or a failed commit restores every table
   * and only advances the counter.
   */
  lemma SaveStorageFaults(s: Ledger, prep: Prepared, req: Request, employeeId: Option<int>, now: string,
                          fault: Option<Fault>)
    requires WellFormed(req)
    ensures fault == Some(BeginFails) || fault == Some(HeaderFails) ==>
      Save(s, prep, req, employeeId, now, fault) == Saving(Rejected(500, DatabaseError), s)
    ensures fault == Some(ItemsPrepareFails) ==>
      Save(s, prep, req, employeeId, now, fault)
      == Saving(Rejected(500, DatabaseError), s.(nextTransactionId := s.nextTransactionId + 1))
    ensures fault == Some(CommitFails) && Save(s, prep, req, employeeId, now, None).outcome.Saved? ==>
      Save(s, prep, req, employeeId, now, fault)
      == Saving(Rejected(500, DatabaseError), s.(nextTransactionId := s.nextTransactionId + 1))
    ensures fault.Some? && fault.value.ItemInsertFails? && fault.value.line < |req.items.lines|
            && Save(s, prep, req, employeeId, now, None).outcome.Saved? ==>
      Save(s, prep, req, employeeId, now, fault)
      == Saving(Rejected(500, DatabaseError), s.(nextTransactionId := s.nextTransactionId + 1))
  {
    var lines := req.items.lines;
    if fault == Some(CommitFails) {
      RunIgnoresOuterFault(prep, s.products, s.items, s.nextTransactionId, lines, fault, 0);
    }
    if fault.Some? && fault.value.ItemInsertFails? && fault.value.line < |lines|
       && Save(s, prep, req, employeeId, now, None).outcome.Saved? {
      InsertFaultFailsRun(prep, s.products, s.items, s.nextTransactionId, lines, fault.value.line, 0);
    }
  }

  /** A fault never makes a checkout succeed: a saved checkout is the fault-free one. */
  lemma SavedIgnoresFault(s: Ledger, prep: Prepared, req: Request, employeeId: Option<int>, now: string,
                          fault: Option<Fault>)
    requires Save(s, prep, req, employeeId, now, fault).outcome.Saved?
    ensures Save(s, prep, req, employeeId, now, fault) == Save(s, prep, req, employeeId, now, None)
  {
    RunOkIgnoresFault(prep, s.products, s.items, s.nextTransactionId, req.items.lines, fault, 0);
  }

  /**
   * Two lines for the same product are checked against the already-reduced stock:
   * when the first fits and the two together do not, the second line fails.
   */
  lemma SecondLineSeesReducedStock(p: Product, a: Line, b: Line)
    requires p.code == Some(a.ident) && b.ident == a.ident && !ReachableOtherwise(p, a.ident)
    requires 0 < a.qty <= p.stock < a.qty + b.qty && b.qty > 0
    ensures Run(Prepared(true, true, true), [p], [], 1, [a, b], None, 0) == Err(InsufficientStock(b.ident, b.qty))
  {
    var prep := Prepared(true, true, true);
    var p' := p.(stock := p.stock - a.qty);
    assert [p][1..] == [] && [p'][1..] == [];
    assert Affected([p], CodeKey(a.ident), a.qty) == 1;
    assert UpdateWhere([p], CodeKey(a.ident), a.qty) == [p'];
    assert Decrement(prep, [p], a.ident, a.qty).value.products == [p'];
    assert !ReachableOtherwise(p', b.ident);
    assert Affected([p'], CodeKey(b.ident), b.qty) == 0;
    assert AllDigits(b.ident) ==> Affected([p'], IdKey(DigitsValue(b.ident)), b.qty) == 0;
    assert Affected([p'], ProductIdKey(b.ident), b.qty) == 0;
    assert Decrement(prep, [p'], b.ident, b.qty).None?;
    assert [a, b][1..] == [b];
  }
}
