/**
 * Updating an employee (`update_employee.php`): either a password reset for one
 * employee code, or a general update of the name and contact fields (and the
 * password when one is given), guarded by a username uniqueness check.
 */
module UpdateEmployee {
  import opened Common
  import opened Schema

  /** The POST request; each field is absent or a string. */
  datatype Request = Request(
    isPost: bool,
    code: Option<string>,
    fullName: Option<string>,
    email: Option<string>,
    phone: Option<string>,
    username: Option<string>,
    password: Option<string>,
    action: Option<string>)

  datatype Reason = PostOnly | MissingCode | InvalidPassword | Required | UsernameTaken | DbError

  /** `success` with its message, or a failure with its HTTP status. */
  datatype Answer = PasswordReset | Updated | Failed(status: int, reason: Reason)

  datatype Updating = Updating(answer: Answer, employees: seq<Employee>)

  function Field(x: Option<string>): string { PhpTrim(x.GetOr("")) }

  /** `!$password || strlen($password) < 8 || !preg_match('/[A-Z]/', $password)` */
  predicate ResetPasswordRejected(pw: string) {
    !PhpTruthy(pw) || |pw| < 8 || !HasUpperAscii(pw)
  }

  /** `UPDATE employees SET ... WHERE employee_code = ?`: `f` applied to every row with that code. */
  function UpdateWhereCode(es: seq<Employee>, code: string, f: Employee -> Employee): (r: seq<Employee>)
    ensures |r| == |es|
    ensures forall i :: 0 <= i < |es| ==> r[i] == if es[i].code == code then f(es[i]) else es[i]
  {
    seq(|es|, i requires 0 <= i < |es| => if es[i].code == code then f(es[i]) else es[i])
  }

  /** `username = ? AND employee_code != ?` holds for some row. */
  predicate UsernameHeldElsewhere(es: seq<Employee>, username: string, code: string) {
    exists i :: 0 <= i < |es| && es[i].username == Some(username) && es[i].code != code
  }

  /** The reset of one row: only the hash changes. */
  function WithHash(e: Employee, pwHash: string): Employee { e.(passwordHash := Some(pwHash)) }

  /** The general update of one row; the hash changes only when a password is given. */
  function Edited(e: Employee, req: Request, pwHash: string): Employee {
    var password := req.password.GetOr("");
    e.(fullName := Field(req.fullName),
       email := NullIfFalsy(Field(req.email)),
       phone := NullIfFalsy(Field(req.phone)),
       username := NullIfFalsy(Field(req.username)),
       passwordHash := if password != "" then Some(pwHash) else e.passwordHash)
  }

  /**
   * The reference behaviour. `pwHash` stands for `password_hash`'s output, `selectOk`
   * says whether the username SELECT executes (it runs only for a non-empty username)
   * and `execOk` whether the UPDATE does.
   */
  function Update(es: seq<Employee>, req: Request, pwHash: string, selectOk: bool, execOk: bool): Updating {
    var code := Field(req.code);
    var password := req.password.GetOr("");
    if !req.isPost then Updating(Failed(405, PostOnly), es)
    else if req.action == Some("reset_password") then
      if !PhpTruthy(code) then Updating(Failed(200, MissingCode), es)
      else if ResetPasswordRejected(password) then Updating(Failed(200, InvalidPassword), es)
      else if !execOk then Updating(Failed(200, DbError), es)
      else Updating(PasswordReset, UpdateWhereCode(es, code, (e: Employee) => WithHash(e, pwHash)))
    else if !PhpTruthy(code) || !PhpTruthy(Field(req.fullName)) then Updating(Failed(400, Required), es)
    else if PhpTruthy(Field(req.username)) && !selectOk then Updating(Failed(500, DbError), es)
    else if PhpTruthy(Field(req.username)) && UsernameHeldElsewhere(es, Field(req.username), code) then
      Updating(Failed(200, UsernameTaken), es)
    else if !execOk then Updating(Failed(500, DbError), es)
    else Updating(Updated, UpdateWhereCode(es, code, (e: Employee) => Edited(e, req, pwHash)))
  }

  method UpdateEmployee(db: Database, req: Request, pwHash: string, selectOk: bool, execOk: bool) returns (a: Answer)
    modifies db`employees
    ensures Updating(a, db.employees) == Update(old(db.employees), req, pwHash, selectOk, execOk)
  {
    if !req.isPost {
      return Failed(405, PostOnly);
    }
    var code := Field(req.code);
    var password := req.password.GetOr("");
    if req.action == Some("reset_password") {
      if !PhpTruthy(code) {
        return Failed(200, MissingCode);
      }
      if ResetPasswordRejected(password) {
        return Failed(200, InvalidPassword);
      }
      if !execOk {
        return Failed(200, DbError);
      }
      db.employees := UpdateWhereCode(db.employees, code, (e: Employee) => WithHash(e, pwHash));
      return PasswordReset;
    }
    if !PhpTruthy(code) || !PhpTruthy(Field(req.fullName)) {
      return Failed(400, Required);
    }
    var username := Field(req.username);
    if PhpTruthy(username) && !selectOk {
      return Failed(500, DbError);
    }
    if PhpTruthy(username) && UsernameHeldElsewhere(db.employees, username, code) {
      return Failed(200, UsernameTaken);
    }
    if !execOk {
      return Failed(500, DbError);
    }
    db.employees := UpdateWhereCode(db.employees, code, (e: Employee) => Edited(e, req, pwHash));
    a := Updated;
  }

  // ---------------------------------------------------------------------
  // Properties
  // ---------------------------------------------------------------------

  /** The reset rule is the shared password rule: eight characters with one of A-Z. */
  lemma ResetRuleIsStrongPassword(pw: string)
    ensures !ResetPasswordRejected(pw) <==> StrongPassword(pw)
  {
  }

  /**
   * A successful reset had a code and a strong password, and it changes only the
   * password hash, and only on the rows with that code.
   */
  lemma ResetChangesOnlyThatHash(es: seq<Employee>, req: Request, pwHash: string, selectOk: bool, execOk: bool)
    requires req.isPost && req.action == Some("reset_password")
    requires Update(es, req, pwHash, selectOk, execOk).answer == PasswordReset
    ensures PhpTruthy(Field(req.code)) && StrongPassword(req.password.GetOr(""))
    ensures var after := Update(es, req, pwHash, selectOk, execOk).employees;
      |after| == |es|
      && forall i :: 0 <= i < |es| ==>
           after[i] == (if es[i].code == Field(req.code) then es[i].(passwordHash := Some(pwHash)) else es[i])
  {
  }

  /** A reset with a weak password, or without a code, changes nothing. */
  lemma WeakResetRejected(es: seq<Employee>, req: Request, pwHash: string, selectOk: bool, execOk: bool)
    requires req.isPost && req.action == Some("reset_password")
    requires !PhpTruthy(Field(req.code)) || !StrongPassword(req.password.GetOr(""))
    ensures Update(es, req, pwHash, selectOk, execOk).answer.Failed?
    ensures Update(es, req, pwHash, selectOk, execOk).employees == es
  {
  }

  /** A general update without a code or full name is a 400 that changes nothing. */
  lemma GeneralUpdateRequiredFields(es: seq<Employee>, req: Request, pwHash: string, selectOk: bool, execOk: bool)
    requires req.isPost && req.action != Some("reset_password")
    requires !PhpTruthy(Field(req.code)) || !PhpTruthy(Field(req.fullName))
    ensures Update(es, req, pwHash, selectOk, execOk) == Updating(Failed(400, Required), es)
  {
  }

  /** A username SELECT that throws is a 500 that changes nothing. */
  lemma FailedUsernameQueryChangesNothing(es: seq<Employee>, req: Request, pwHash: string, execOk: bool)
    requires req.isPost && req.action != Some("reset_password")
    requires PhpTruthy(Field(req.code)) && PhpTruthy(Field(req.fullName)) && PhpTruthy(Field(req.username))
    ensures Update(es, req, pwHash, false, execOk) == Updating(Failed(500, DbError), es)
  {
  }

  /** Without a username no SELECT runs, so its outcome does not matter. */
  lemma NoUsernameNoQuery(es: seq<Employee>, req: Request, pwHash: string, execOk: bool)
    requires !PhpTruthy(Field(req.username))
    ensures Update(es, req, pwHash, false, execOk) == Update(es, req, pwHash, true, execOk)
  {
  }

  /** A username held by a row with another code stops the update. */
  lemma UsernameTakenRejected(es: seq<Employee>, req: Request, pwHash: string, selectOk: bool, execOk: bool, i: int)
    requires req.isPost && req.action != Some("reset_password")
    requires PhpTruthy(Field(req.code)) && PhpTruthy(Field(req.fullName)) && PhpTruthy(Field(req.username))
    requires 0 <= i < |es| && es[i].username == Some(Field(req.username)) && es[i].code != Field(req.code)
    ensures selectOk ==> Update(es, req, pwHash, selectOk, execOk) == Updating(Failed(200, UsernameTaken), es)
    ensures Update(es, req, pwHash, selectOk, execOk).answer.Failed?
    ensures Update(es, req, pwHash, selectOk, execOk).employees == es
  {
  }

  /**
   * A general update rewrites the name, email, phone and username of the rows with that
   * code (the trimmed text, an empty one as NULL), keeps their hash when no password is given and replaces it
   * otherwise, and leaves every other row alone.
   */
  lemma GeneralUpdateRows(es: seq<Employee>, req: Request, pwHash: string)
    requires req.isPost && req.action != Some("reset_password")
    requires Update(es, req, pwHash, true, true).answer == Updated
    ensures var after := Update(es, req, pwHash, true, true).employees;
      |after| == |es|
      && forall i :: 0 <= i < |es| ==>
           (es[i].code != Field(req.code) ==> after[i] == es[i])
           && (es[i].code == Field(req.code) ==>
             after[i].employeeId == es[i].employeeId && after[i].code == es[i].code
             && after[i].dateCreated == es[i].dateCreated
             && after[i].fullName == Field(req.fullName)
             && after[i].email == (if PhpTruthy(Field(req.email)) then Some(Field(req.email)) else None)
             && after[i].phone == (if PhpTruthy(Field(req.phone)) then Some(Field(req.phone)) else None)
             && after[i].username == (if PhpTruthy(Field(req.username)) then Some(Field(req.username)) else None)
             && (req.password.GetOr("") == "" ==> after[i].passwordHash == es[i].passwordHash)
             && (req.password.GetOr("") != "" ==> after[i].passwordHash == Some(pwHash)))
  {
  }

  /** The general update applies no strength rule: a short lower-case password is stored. */
  lemma GeneralUpdateSkipsPasswordRule(e: Employee, pwHash: string)
    ensures var req := Request(true, Some(e.code), Some("Ann"), None, None, None, Some("abc"), None);
      PhpTruthy(e.code) && PhpTrim(e.code) == e.code ==>
        Update([e], req, pwHash, true, true).answer == Updated
        && Update([e], req, pwHash, true, true).employees[0].passwordHash == Some(pwHash)
  {
    var req := Request(true, Some(e.code), Some("Ann"), None, None, None, Some("abc"), None);
    assert !StrongPassword("abc");
    if PhpTruthy(e.code) && PhpTrim(e.code) == e.code {
      assert PhpTrim("Ann") == "Ann" by {
        assert TrimLeft("Ann", IsPhpTrimChar) == "Ann";
        assert TrimRight("Ann", IsPhpTrimChar) == "Ann";
      }
      assert PhpTrim("") == "";
    }
  }

  /** Both kinds of update keep non-NULL usernames unique across employee codes. */
  lemma UpdateKeepsUsernamesUnique(es: seq<Employee>, req: Request, pwHash: string, selectOk: bool, execOk: bool)
    requires UsernamesUnique(es)
    ensures UsernamesUnique(Update(es, req, pwHash, selectOk, execOk).employees)
  {
    var u := Update(es, req, pwHash, selectOk, execOk);
    var code := Field(req.code);
    if u.answer == Updated {
      var after := u.employees;
      var name := Field(req.username);
      assert PhpTruthy(name) ==> !UsernameHeldElsewhere(es, name, code);
      forall i, j | 0 <= i < |after| && 0 <= j < |after| && after[i].code != after[j].code && after[i].username.Some?
        ensures after[i].username != after[j].username
      {
        if es[i].code != code {
          assert after[i] == es[i];
        }
        if es[j].code != code {
          assert after[j] == es[j];
        }
      }
    } else if u.answer == PasswordReset {
      var after := u.employees;
      forall i, j | 0 <= i < |after| && 0 <= j < |after| && after[i].code != after[j].code && after[i].username.Some?
        ensures after[i].username != after[j].username
      {
        assert after[i].username == es[i].username && after[j].username == es[j].username;
        assert after[i].code == es[i].code && after[j].code == es[j].code;
      }
    }
  }
}
