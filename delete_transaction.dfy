/**
 * The admin delete of a sale (`delete_transaction.php`): three DELETE statements,
 * items, then purchase history, then the header, each keyed by the string
 * transaction id, with no surrounding transaction.
 */
module DeleteTransaction {
  import opened Common
  import opened Schema
  import SaveTransaction

  /** The three tables the statements touch. */
  datatype Tables = Tables(items: seq<Item>, history: seq<HistoryRow>, headers: seq<Header>)

  /** What the endpoint answers, with the tables it leaves. */
  datatype Deletion = Deletion(success: bool, tables: Tables)

  // SQL `col = ?` never holds for a NULL column, so only a present, equal key matches.
  predicate ItemKeyed(ti: Item, id: string) { ti.txnId == Some(id) }
  predicate HistoryKeyed(h: HistoryRow, id: string) { h.transactionID == id }
  predicate HeaderKeyed(h: Header, id: string) { h.txnId == id }

  function DropItems(items: seq<Item>, id: string): seq<Item> { Filter(items, ti => !ItemKeyed(ti, id)) }
  function DropHistory(hs: seq<HistoryRow>, id: string): seq<HistoryRow> { Filter(hs, h => !HistoryKeyed(h, id)) }
  function DropHeaders(hs: seq<Header>, id: string): seq<Header> { Filter(hs, h => !HeaderKeyed(h, id)) }

  /**
   * The reference behaviour. `failAt` names the statement (1, 2 or 3) whose execution
   * throws, or 0 when none does: the statements before it stay applied and the
   * answer is a failure. A missing or falsy id ("" or "0") deletes nothing.
   */
  function Cascade(t: Tables, rawId: Option<string>, failAt: nat): Deletion {
    if rawId.None? || !PhpTruthy(rawId.value) then Deletion(false, t)
    else
      var id := rawId.value;
      if failAt == 1 then Deletion(false, t)
      else
        var t1 := t.(items := DropItems(t.items, id));
        if failAt == 2 then Deletion(false, t1)
        else
          var t2 := t1.(history := DropHistory(t.history, id));
          if failAt == 3 then Deletion(false, t2)
          else Deletion(true, t2.(headers := DropHeaders(t.headers, id)))
  }

  function TablesOf(db: Database): Tables
    reads db
  {
    Tables(db.transactionItems, db.purchaseHistory, db.transactions)
  }

  /** The endpoint, one statement after another (the PDO branch; the mysqli branch is the same). */
  method DeleteTransaction(db: Database, rawId: Option<string>, failAt: nat) returns (success: bool)
    modifies db`transactionItems, db`purchaseHistory, db`transactions
    ensures Deletion(success, TablesOf(db)) == Cascade(old(TablesOf(db)), rawId, failAt)
    ensures db.products == old(db.products)
  {
    if rawId.None? || !PhpTruthy(rawId.value) {
      return false;
    }
    var id := rawId.value;
    if failAt == 1 { return false; }
    db.transactionItems := DropItems(db.transactionItems, id);
    if failAt == 2 { return false; }
    db.purchaseHistory := DropHistory(db.purchaseHistory, id);
    if failAt == 3 { return false; }
    db.transactions := DropHeaders(db.transactions, id);
    success := true;
  }

  // ---------------------------------------------------------------------
  // Properties
  // ---------------------------------------------------------------------

  /** A missing or falsy id fails and changes nothing. */
  lemma MissingIdDeletesNothing(t: Tables, rawId: Option<string>, failAt: nat)
    requires rawId.None? || !PhpTruthy(rawId.value)
    ensures Cascade(t, rawId, failAt) == Deletion(false, t)
  {
  }

  /**
   * A run without a failing statement removes exactly the rows keyed by the id in
   * all three tables, keeps every other row in its order, and reports success.
   */
  lemma DeletesExactlyTheKeyedRows(t: Tables, id: string)
    requires PhpTruthy(id)
    ensures var d := Cascade(t, Some(id), 0);
      d.success
      && SubseqOf(d.tables.items, t.items) && SubseqOf(d.tables.history, t.history)
      && SubseqOf(d.tables.headers, t.headers)
      && (forall x :: x in d.tables.items <==> x in t.items && x.txnId != Some(id))
      && (forall x :: x in d.tables.history <==> x in t.history && x.transactionID != id)
      && (forall x :: x in d.tables.headers <==> x in t.headers && x.txnId != id)
  {
    FilterIsSubseq(t.items, ti => !ItemKeyed(ti, id));
    FilterIsSubseq(t.history, h => !HistoryKeyed(h, id));
    FilterIsSubseq(t.headers, h => !HeaderKeyed(h, id));
  }

  /** An id that matches no row still reports success, and nothing changes. */
  lemma SuccessWhenNothingMatches(t: Tables, id: string)
    requires PhpTruthy(id)
    requires forall i :: 0 <= i < |t.items| ==> t.items[i].txnId != Some(id)
    requires forall i :: 0 <= i < |t.history| ==> t.history[i].transactionID != id
    requires forall i :: 0 <= i < |t.headers| ==> t.headers[i].txnId != id
    ensures Cascade(t, Some(id), 0) == Deletion(true, t)
  {
    FilterAll(t.items, ti => !ItemKeyed(ti, id));
    FilterAll(t.history, h => !HistoryKeyed(h, id));
    FilterAll(t.headers, h => !HeaderKeyed(h, id));
  }

  /**
   * No atomicity: when the history or header statement throws, the earlier deletions
   * stay applied although the answer is a failure.
   */
  lemma PartialDeleteStays(t: Tables, id: string)
    requires PhpTruthy(id)
    ensures Cascade(t, Some(id), 2) == Deletion(false, t.(items := DropItems(t.items, id)))
    ensures Cascade(t, Some(id), 3)
      == Deletion(false, t.(items := DropItems(t.items, id), history := DropHistory(t.history, id)))
  {
  }

  // ---------------------------------------------------------------------
  // Orphaned item rows
  // ---------------------------------------------------------------------

  /** Every item row's numeric foreign key names an existing header. */
  ghost predicate NoOrphans(t: Tables) {
    forall ti, n :: ti in t.items && ti.transactionId == Some(n) ==>
      exists h :: h in t.headers && h.id == n
  }

  /**
   * As written, the delete misses the rows a checkout writes: those carry the numeric
   * key only, so after deleting header "T1" its item row survives and points at no
   * header.
   */
  lemma AsWrittenLeavesOrphan()
    ensures var h := Header(1, "T1", None, "2025-01-01 10:00:00", Some(100), Some(12), Some(112));
      var ti := Item(Some(1), None, None, "P001", Some("Pen"), 1, 100, 100);
      var t := Tables([ti], [], [h]);
      NoOrphans(t) && !NoOrphans(Cascade(t, Some("T1"), 0).tables)
  {
    var h := Header(1, "T1", None, "2025-01-01 10:00:00", Some(100), Some(12), Some(112));
    var ti := Item(Some(1), None, None, "P001", Some("Pen"), 1, 100, 100);
    var t := Tables([ti], [], [h]);
    var after := Cascade(t, Some("T1"), 0).tables;
    assert ti in DropItems(t.items, "T1");
    assert after.headers == [];
  }

  /** Every row that a completed checkout writes survives the as-written delete of its sale. */
  lemma SavedRowsSurviveDelete(s: Ledger, prep: SaveTransaction.Prepared, req: SaveTransaction.Request,
                               employeeId: Option<int>, now: string, fault: Option<SaveTransaction.Fault>,
                               history: seq<HistoryRow>)
    requires SaveTransaction.Save(s, prep, req, employeeId, now, fault).outcome.Saved?
    ensures var saved := SaveTransaction.Save(s, prep, req, employeeId, now, fault);
      var after := Cascade(Tables(saved.ledger.items, history, saved.ledger.transactions),
                           Some(saved.outcome.txnId), 0).tables;
      forall l :: l in req.items.lines ==>
        SaveTransaction.ItemRow(s.nextTransactionId, l) in after.items
  {
    var lines := req.items.lines;
    var id := s.nextTransactionId;
    var p := SaveTransaction.Run(prep, s.products, s.items, id, lines, fault, 0).value;
    SaveTransaction.RunAppendsRows(prep, s.products, s.items, id, lines, fault, 0);
    assert SaveTransaction.Save(s, prep, req, employeeId, now, fault).ledger.items == p.items;
    forall l | l in lines
      ensures SaveTransaction.ItemRow(id, l) in p.items
    {
      var i :| 0 <= i < |lines| && lines[i] == l;
      assert p.items[|s.items| + i] == SaveTransaction.ItemRow(id, l);
    }
  }

  /** The corrected item statement: also delete rows whose numeric key names a deleted header. */
  predicate ItemOfDeleted(ti: Item, headers: seq<Header>, id: string) {
    ItemKeyed(ti, id)
    || (ti.transactionId.Some? && exists h :: h in headers && HeaderKeyed(h, id) && h.id == ti.transactionId.value)
  }

  function CorrectedCascade(t: Tables, rawId: Option<string>, failAt: nat): Deletion {
    if rawId.None? || !PhpTruthy(rawId.value) then Deletion(false, t)
    else
      var id := rawId.value;
      if failAt == 1 then Deletion(false, t)
      else
        var t1 := t.(items := Filter(t.items, ti => !ItemOfDeleted(ti, t.headers, id)));
        if failAt == 2 then Deletion(false, t1)
        else
          var t2 := t1.(history := DropHistory(t.history, id));
          if failAt == 3 then Deletion(false, t2)
          else Deletion(true, t2.(headers := DropHeaders(t.headers, id)))
  }

  /** The endpoint with the corrected item statement. */
  method CorrectedDeleteTransaction(db: Database, rawId: Option<string>, failAt: nat) returns (success: bool)
    modifies db`transactionItems, db`purchaseHistory, db`transactions
    ensures Deletion(success, TablesOf(db)) == CorrectedCascade(old(TablesOf(db)), rawId, failAt)
    ensures db.products == old(db.products)
  {
    if rawId.None? || !PhpTruthy(rawId.value) {
      return false;
    }
    var id := rawId.value;
    if failAt == 1 { return false; }
    var headers := db.transactions;
    db.transactionItems := Filter(db.transactionItems, ti => !ItemOfDeleted(ti, headers, id));
    if failAt == 2 { return false; }
    db.purchaseHistory := DropHistory(db.purchaseHistory, id);
    if failAt == 3 { return false; }
    db.transactions := DropHeaders(db.transactions, id);
    success := true;
  }

  /** The corrected delete keeps every item row pointing at an existing header. */
  lemma CorrectedKeepsNoOrphans(t: Tables, id: string)
    requires NoOrphans(t) && PhpTruthy(id)
    ensures NoOrphans(CorrectedCascade(t, Some(id), 0).tables)
    ensures var after := CorrectedCascade(t, Some(id), 0).tables;
      forall x :: x in after.headers <==> x in t.headers && x.txnId != id
  {
    var after := CorrectedCascade(t, Some(id), 0).tables;
    forall ti, n | ti in after.items && ti.transactionId == Some(n)
      ensures exists h :: h in after.headers && h.id == n
    {
      assert ti in t.items && !ItemOfDeleted(ti, t.headers, id);
      var h :| h in t.headers && h.id == n;
      assert h in after.headers;
    }
  }
}
