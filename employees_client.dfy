/**
 * The admin employee list kept in the browser (`employees.js`): the id counter,
 * the password rule, adding and editing through one form, deleting by id, and the
 * password mask.
 */
module EmployeesClient {
  import opened Common
  import opened JsValues
  import opened LocalIds

  /** An employee as stored in the list. */
  datatype LocalEmployee = LocalEmployee(id: string, fullName: string, email: string, phone: string,
                                         username: string, password: string, dateCreated: string)

  /** The form's raw values. */
  datatype Form = Form(fullName: string, email: string, phone: string, username: string, password: string)

  /** What a submit of the form leads to; `EditTargetMissing` is the TypeError thrown when the edited id is gone. */
  datatype SaveOutcome = MissingField | WeakPassword | EditTargetMissing | Edited(index: nat) | Added(id: string)

  function IdOf(e: LocalEmployee): string { e.id }

  /** `getNextEmployeeId` */
  function NextId(counter: Counter): string { NextCode('E', counter) }

  /** `validatePassword` */
  predicate ValidatePassword(pw: string) {
    (exists i :: 0 <= i < |pw| && 'A' <= pw[i] <= 'Z') && |pw| >= 8
  }

  /** `maskPassword`: `max(6, length)` bullets. */
  function Mask(pw: string): (r: string)
    ensures |r| == if |pw| > 6 then |pw| else 6
  {
    seq(if |pw| > 6 then |pw| else 6, _ => '•')
  }

  /** The result of one submit: the outcome and the new list, counter and edited row. */
  datatype Saving = Saving(outcome: SaveOutcome, data: seq<LocalEmployee>, counter: Counter, editing: Option<string>)

  /**
   * `addEmployee`: the four text fields are trimmed, the password is not. `editing` is the
   * id in the first cell of `currentEditingRow`; `today` is the locale date text. An edit
   * saves and then runs `loadEmployeesData`, which recomputes the counter.
   */
  function Save(data: seq<LocalEmployee>, counter: Counter, editing: Option<string>, f: Form, today: string): Saving {
    var fullName := JsTrim(f.fullName);
    var email := JsTrim(f.email);
    var phone := JsTrim(f.phone);
    var username := JsTrim(f.username);
    if fullName == "" || email == "" || phone == "" || username == "" || f.password == "" then
      Saving(MissingField, data, counter, editing)
    else if !ValidatePassword(f.password) then Saving(WeakPassword, data, counter, editing)
    else if editing.Some? then
      var id := editing.value;
      match FindFirst(data, (e: LocalEmployee) => e.id == id)
      case None => Saving(EditTargetMissing, data, counter, editing)
      case Some(k) =>
        var after := data[k := LocalEmployee(id, fullName, email, phone, username, f.password, data[k].dateCreated)];
        Saving(Edited(k), after, CounterAfterLoad(after, IdOf), None)
    else
      var id := NextId(counter);
      Saving(Added(id), data + [LocalEmployee(id, fullName, email, phone, username, f.password, today)], Inc(counter), None)
  }

  class EmployeesPage {
    var employeesData: seq<LocalEmployee>
    var employeeCounter: Counter
    var currentEditing: Option<string>

    constructor()
      ensures employeesData == [] && employeeCounter == Some(1) && currentEditing == None
    {
      employeesData := [];
      employeeCounter := Some(1);
      currentEditing := None;
    }

    /** `loadEmployeesData`: without the table nothing happens. */
    method LoadEmployeesData(saved: Option<seq<LocalEmployee>>, tbodyPresent: bool)
      modifies this`employeesData, this`employeeCounter
      ensures !tbodyPresent ==> employeesData == old(employeesData) && employeeCounter == old(employeeCounter)
      ensures tbodyPresent ==> employeesData == saved.GetOr([]) && employeeCounter == CounterAfterLoad(employeesData, IdOf)
    {
      if !tbodyPresent {
        return;
      }
      employeesData := saved.GetOr([]);
      if |employeesData| > 0 {
        var n := CodeNumber(employeesData[|employeesData| - 1].id);
        employeeCounter := if n.Some? then Some(n.value + 1) else None;
      } else {
        employeeCounter := Some(1);
      }
    }

    /** `editEmployee`: later submits edit the employee with the row's id. */
    method EditEmployee(rowId: string)
      modifies this`currentEditing
      ensures currentEditing == Some(rowId)
    {
      currentEditing := Some(rowId);
    }

    /** `closeEmployeeModal` */
    method CloseEmployeeModal()
      modifies this`currentEditing
      ensures currentEditing == None
    {
      currentEditing := None;
    }

    /** `addEmployee` */
    method AddEmployee(f: Form, today: string) returns (outcome: SaveOutcome)
      modifies this
      ensures Saving(outcome, employeesData, employeeCounter, currentEditing)
           == Save(old(employeesData), old(employeeCounter), old(currentEditing), f, today)
    {
      var fullName := JsTrim(f.fullName);
      var email := JsTrim(f.email);
      var phone := JsTrim(f.phone);
      var username := JsTrim(f.username);
      if fullName == "" || email == "" || phone == "" || username == "" || f.password == "" {
        return MissingField;
      }
      if !ValidatePassword(f.password) {
        return WeakPassword;
      }
      if currentEditing.Some? {
        var id := currentEditing.value;
        var index := FindFirst(employeesData, (e: LocalEmployee) => e.id == id);
        if index.None? {
          return EditTargetMissing;
        }
        var k := index.value;
        employeesData := employeesData[k := LocalEmployee(id, fullName, email, phone, username, f.password,
                                                           employeesData[k].dateCreated)];
        LoadEmployeesData(Some(employeesData), true);
        currentEditing := None;
        outcome := Edited(k);
      } else {
        var id := NextId(employeeCounter);
        employeesData := employeesData + [LocalEmployee(id, fullName, email, phone, username, f.password, today)];
        employeeCounter := Inc(employeeCounter);
        currentEditing := None;
        outcome := Added(id);
      }
    }

    /** `deleteEmployee`: when confirmed, every employee with the row's id goes. */
    method DeleteEmployee(rowId: string, confirmed: bool)
      modifies this`employeesData
      ensures employeesData == if confirmed then Filter(old(employeesData), (e: LocalEmployee) => e.id != rowId)
                               else old(employeesData)
    {
      if !confirmed {
        return;
      }
      employeesData := Filter(employeesData, (e: LocalEmployee) => e.id != rowId);
    }
  }

  // ---------------------------------------------------------------------
  // Ids and the counter
  // ---------------------------------------------------------------------

  /** The employee list's ids are increasing "E" codes, all below the counter. */
  ghost predicate Numbered(data: seq<LocalEmployee>, counter: Counter) { WellNumbered(data, IdOf, 'E', counter) }

  // ---------------------------------------------------------------------
  // Properties of the form
  // ---------------------------------------------------------------------

  /** `validatePassword` is the shared rule: eight characters, one of them A-Z. */
  lemma ValidateIsStrongPassword(pw: string)
    ensures ValidatePassword(pw) <==> StrongPassword(pw)
  {
  }

  /** A missing field or a weak password changes nothing. */
  lemma RejectedSaveChangesNothing(data: seq<LocalEmployee>, counter: Counter, editing: Option<string>, f: Form, today: string)
    requires JsTrim(f.fullName) == "" || JsTrim(f.email) == "" || JsTrim(f.phone) == ""
          || JsTrim(f.username) == "" || f.password == "" || !StrongPassword(f.password)
    ensures var s := Save(data, counter, editing, f, today);
      (s.outcome == MissingField || s.outcome == WeakPassword)
      && s.data == data && s.counter == counter && s.editing == editing
  {
  }

  /**
   * A successful add appends exactly one employee, with the next id and today's date,
   * and advances the counter.
   */
  lemma AddAppendsOne(data: seq<LocalEmployee>, counter: Counter, f: Form, today: string)
    requires Save(data, counter, None, f, today).outcome.Added?
    ensures |Save(data, counter, None, f, today).data| == |data| + 1
    ensures Save(data, counter, None, f, today).data[..|data|] == data
    ensures Save(data, counter, None, f, today).data[|data|]
         == LocalEmployee(NextId(counter), JsTrim(f.fullName), JsTrim(f.email), JsTrim(f.phone),
                          JsTrim(f.username), f.password, today)
    ensures Save(data, counter, None, f, today).counter == Inc(counter)
    ensures Save(data, counter, None, f, today).editing == None
    ensures StrongPassword(f.password)
  {
    var s := Save(data, counter, None, f, today);
    assert s.data == data + [s.data[|data|]];
  }

  /** An add keeps a well-numbered list well numbered, and the new id is not already taken. */
  lemma AddKeepsWellNumbered(data: seq<LocalEmployee>, counter: Counter, f: Form, today: string)
    requires Numbered(data, counter)
    requires Save(data, counter, None, f, today).outcome.Added?
    ensures Numbered(Save(data, counter, None, f, today).data, Save(data, counter, None, f, today).counter)
    ensures forall i :: 0 <= i < |data| ==> data[i].id != Save(data, counter, None, f, today).data[|data|].id
    ensures forall i, j :: 0 <= i < j < |data| + 1 ==>
      Save(data, counter, None, f, today).data[i].id != Save(data, counter, None, f, today).data[j].id
  {
    var s := Save(data, counter, None, f, today);
    AddAppendsOne(data, counter, f, today);
    var e := s.data[|data|];
    assert s.data == data + [e];
    AppendNextKeepsWellNumbered(data, IdOf, 'E', counter, e);
    WellNumberedIdsUnique(s.data, IdOf, 'E', s.counter);
  }

  /**
   * A successful edit replaces the first employee with the edited id, keeping that id and
   * its creation date; every other entry is unchanged and the list stays well numbered.
   */
  lemma EditReplacesInPlace(data: seq<LocalEmployee>, counter: Counter, id: string, f: Form, today: string)
    requires Save(data, counter, Some(id), f, today).outcome.Edited?
    ensures var s := Save(data, counter, Some(id), f, today);
      var k := s.outcome.index;
      k < |data| && data[k].id == id && (forall j :: 0 <= j < k ==> data[j].id != id)
      && |s.data| == |data|
      && s.data[k] == LocalEmployee(id, JsTrim(f.fullName), JsTrim(f.email), JsTrim(f.phone),
                                    JsTrim(f.username), f.password, data[k].dateCreated)
      && (forall j :: 0 <= j < |data| && j != k ==> s.data[j] == data[j])
      && s.counter == CounterAfterLoad(s.data, IdOf) && s.editing == None
      && (Numbered(data, counter) ==> Numbered(s.data, s.counter))
  {
    var s := Save(data, counter, Some(id), f, today);
    var k := s.outcome.index;
    if Numbered(data, counter) {
      ReplaceKeepsWellNumbered(data, IdOf, 'E', counter, k, s.data[k]);
      assert s.data == data[k := s.data[k]];
      LoadWellNumbered(s.data, IdOf, 'E');
    }
  }

  /** A submit while editing an id no longer in the list throws and changes nothing. */
  lemma EditOfMissingIdThrows(data: seq<LocalEmployee>, counter: Counter, id: string, f: Form, today: string)
    requires JsTrim(f.fullName) != "" && JsTrim(f.email) != "" && JsTrim(f.phone) != ""
          && JsTrim(f.username) != "" && StrongPassword(f.password)
    requires forall j :: 0 <= j < |data| ==> data[j].id != id
    ensures Save(data, counter, Some(id), f, today) == Saving(EditTargetMissing, data, counter, Some(id))
  {
  }

  // ---------------------------------------------------------------------
  // Deleting
  // ---------------------------------------------------------------------

  /**
   * A confirmed delete keeps exactly the employees with another id, in their order, and
   * keeps a well-numbered list well numbered.
   */
  lemma DeleteRemovesThatId(data: seq<LocalEmployee>, counter: Counter, id: string)
    ensures var after := Filter(data, (e: LocalEmployee) => e.id != id);
      (forall e :: e in after <==> e in data && e.id != id) && SubseqOf(after, data)
      && (Numbered(data, counter) ==> Numbered(after, counter))
  {
    var keep := (e: LocalEmployee) => e.id != id;
    FilterIsSubseq(data, keep);
    if Numbered(data, counter) {
      FilterKeepsWellNumbered(data, IdOf, 'E', counter, keep);
    }
  }

  // ---------------------------------------------------------------------
  // The mask
  // ---------------------------------------------------------------------

  /** The mask is all bullets, at least six, and as long as the password beyond that. */
  lemma MaskShape(pw: string)
    ensures forall i :: 0 <= i < |Mask(pw)| ==> Mask(pw)[i] == '•'
    ensures |Mask(pw)| >= 6 && |Mask(pw)| >= |pw|
  {
  }

  /** Passwords of up to six characters all look the same. */
  lemma ShortPasswordsLookAlike(a: string, b: string)
    requires |a| <= 6 && |b| <= 6
    ensures Mask(a) == Mask(b)
  {
  }
}
