/**
 * Adding an employee (`add_employee.php`): POST only, trimmed fields, the code
 * and full name required, no clash with an existing code or username, an
 * optional password hash, and the empty optional fields stored as NULL.
 */
module AddEmployee {
  import opened Common
  import opened Schema

  /** The POST request; each field is absent or a string. */
  datatype Request = Request(
    isPost: bool,
    code: Option<string>,
    fullName: Option<string>,
    email: Option<string>,
    phone: Option<string>,
    username: Option<string>,
    password: Option<string>)

  datatype Reason = PostOnly | Required | Duplicate | DbError

  /** `employee_code` is echoed on success; a failure carries its HTTP status. */
  datatype Answer = Added(code: string) | Failed(status: int, reason: Reason)

  datatype Adding = Adding(answer: Answer, employees: seq<Employee>, nextId: int)

  function Field(x: Option<string>): string { PhpTrim(x.GetOr("")) }

  /** `employee_code = ? OR (username IS NOT NULL AND username = ?)` holds for some row. */
  predicate Clashes(es: seq<Employee>, code: string, username: string) {
    exists i :: 0 <= i < |es| && (es[i].code == code || es[i].username == Some(username))
  }

  /** The row that is inserted. `pwHash` stands for `password_hash`'s output. */
  function NewRow(id: int, req: Request, pwHash: string, today: string): Employee {
    var password := req.password.GetOr("");
    Employee(id, Field(req.code), Field(req.fullName), NullIfFalsy(Field(req.email)),
             NullIfFalsy(Field(req.phone)), NullIfFalsy(Field(req.username)),
             if password != "" then Some(pwHash) else None, today)
  }

  /**
   * The reference behaviour. `today` is `date('Y-m-d')`; `selectOk` says whether the
   * duplicate SELECT executes and `insertOk` whether the INSERT does (a PDOException
   * from either is a 500).
   */
  function Add(es: seq<Employee>, nextId: int, req: Request, pwHash: string, today: string,
               selectOk: bool, insertOk: bool): Adding {
    var code := Field(req.code);
    if !req.isPost then Adding(Failed(405, PostOnly), es, nextId)
    else if !PhpTruthy(code) || !PhpTruthy(Field(req.fullName)) then Adding(Failed(400, Required), es, nextId)
    else if !selectOk then Adding(Failed(500, DbError), es, nextId)
    else if Clashes(es, code, Field(req.username)) then Adding(Failed(200, Duplicate), es, nextId)
    else if !insertOk then Adding(Failed(500, DbError), es, nextId)
    else Adding(Added(code), es + [NewRow(nextId, req, pwHash, today)], nextId + 1)
  }

  method AddEmployee(db: Database, req: Request, pwHash: string, today: string, selectOk: bool, insertOk: bool)
    returns (a: Answer)
    modifies db`employees, db`nextEmployeeId
    ensures Adding(a, db.employees, db.nextEmployeeId)
      == Add(old(db.employees), old(db.nextEmployeeId), req, pwHash, today, selectOk, insertOk)
  {
    if !req.isPost {
      return Failed(405, PostOnly);
    }
    var code := Field(req.code);
    if !PhpTruthy(code) || !PhpTruthy(Field(req.fullName)) {
      return Failed(400, Required);
    }
    if !selectOk {
      return Failed(500, DbError);
    }
    if Clashes(db.employees, code, Field(req.username)) {
      return Failed(200, Duplicate);
    }
    if !insertOk {
      return Failed(500, DbError);
    }
    db.employees := db.employees + [NewRow(db.nextEmployeeId, req, pwHash, today)];
    db.nextEmployeeId := db.nextEmployeeId + 1;
    a := Added(code);
  }

  // ---------------------------------------------------------------------
  // Properties
  // ---------------------------------------------------------------------

  /** A blank (or "0") code or full name is a 400 that inserts nothing. */
  lemma RequiredFields(es: seq<Employee>, nextId: int, req: Request, pwHash: string, today: string,
                       selectOk: bool, insertOk: bool)
    requires req.isPost
    requires !PhpTruthy(Field(req.code)) || !PhpTruthy(Field(req.fullName))
    ensures Add(es, nextId, req, pwHash, today, selectOk, insertOk) == Adding(Failed(400, Required), es, nextId)
  {
  }

  /** A duplicate SELECT that throws is a 500 that inserts nothing, whether or not a row clashes. */
  lemma FailedClashQueryInsertsNothing(es: seq<Employee>, nextId: int, req: Request, pwHash: string, today: string,
                                       insertOk: bool)
    requires req.isPost && PhpTruthy(Field(req.code)) && PhpTruthy(Field(req.fullName))
    ensures Add(es, nextId, req, pwHash, today, false, insertOk) == Adding(Failed(500, DbError), es, nextId)
  {
  }

  /** An existing code, or an existing non-NULL username equal to the given one, inserts nothing. */
  lemma DuplicateRejected(es: seq<Employee>, nextId: int, req: Request, pwHash: string, today: string,
                          selectOk: bool, insertOk: bool, i: int)
    requires req.isPost && PhpTruthy(Field(req.code)) && PhpTruthy(Field(req.fullName))
    requires 0 <= i < |es| && (es[i].code == Field(req.code) || es[i].username == Some(Field(req.username)))
    ensures selectOk ==> Add(es, nextId, req, pwHash, today, selectOk, insertOk) == Adding(Failed(200, Duplicate), es, nextId)
    ensures Add(es, nextId, req, pwHash, today, selectOk, insertOk).answer.Failed?
    ensures Add(es, nextId, req, pwHash, today, selectOk, insertOk).employees == es
  {
  }

  /**
   * A successful add appends exactly one row: the trimmed code and name, the trimmed
   * optional fields with NULL for an empty one, `pwHash` only for a non-empty password,
   * and today's date.
   */
  lemma AddedRow(es: seq<Employee>, nextId: int, req: Request, pwHash: string, today: string)
    requires Add(es, nextId, req, pwHash, today, true, true).answer.Added?
    ensures var a := Add(es, nextId, req, pwHash, today, true, true);
      var row := a.employees[|es|];
      |a.employees| == |es| + 1 && a.employees[..|es|] == es && a.nextId == nextId + 1
      && a.answer.code == row.code && row.employeeId == nextId
      && row.code == Field(req.code) && row.fullName == Field(req.fullName)
      && row.email == (if PhpTruthy(Field(req.email)) then Some(Field(req.email)) else None)
      && row.phone == (if PhpTruthy(Field(req.phone)) then Some(Field(req.phone)) else None)
      && row.username == (if PhpTruthy(Field(req.username)) then Some(Field(req.username)) else None)
      && row.passwordHash == (if req.password.GetOr("") == "" then None else Some(pwHash))
      && row.dateCreated == today
  {
    var a := Add(es, nextId, req, pwHash, today, true, true);
    assert a.employees[..|es|] == es;
  }

  /** Adding keeps employee codes unique, and non-NULL usernames unique across codes. */
  lemma AddKeepsKeysUnique(es: seq<Employee>, nextId: int, req: Request, pwHash: string, today: string,
                           selectOk: bool, insertOk: bool)
    requires CodesUnique(es) && UsernamesUnique(es)
    ensures CodesUnique(Add(es, nextId, req, pwHash, today, selectOk, insertOk).employees)
    ensures UsernamesUnique(Add(es, nextId, req, pwHash, today, selectOk, insertOk).employees)
  {
    var a := Add(es, nextId, req, pwHash, today, selectOk, insertOk);
    if a.answer.Added? {
      var row := NewRow(nextId, req, pwHash, today);
      var after := es + [row];
      assert a.employees == after;
      forall i | 0 <= i < |es|
        ensures es[i].code != row.code && (row.username.Some? ==> es[i].username != row.username)
      {
        assert !(es[i].code == Field(req.code) || es[i].username == Some(Field(req.username)));
      }
      forall i, j | 0 <= i < |after| && 0 <= j < |after| && after[i].code != after[j].code && after[i].username.Some?
        ensures after[i].username != after[j].username
      {
        if i < |es| && j < |es| {
          assert after[i] == es[i] && after[j] == es[j];
        } else if i < |es| {
          assert after[i] == es[i];
        } else if j < |es| {
          assert after[j] == es[j];
        }
      }
      forall i, j | 0 <= i < |after| && 0 <= j < |after| && i != j
        ensures after[i].code != after[j].code
      {
        if i < |es| && j < |es| {
          assert after[i] == es[i] && after[j] == es[j];
        }
      }
    }
  }
}
