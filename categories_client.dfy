/**
 * The admin category list kept in the browser (`categories.js`): the id counter,
 * adding and editing through one form, and deleting by id.
 */
module CategoriesClient {
  import opened Common
  import opened LocalIds

  /** A category as stored in the list. */
  datatype LocalCategory = LocalCategory(id: string, name: string, description: string)

  /** The form's raw values. */
  datatype Form = Form(name: string, description: string)

  /**
   * What a submit of the form leads to. `EditLost` is an edit whose id is no longer in
   * the list: `findIndex` gives -1, and the assignment to index -1 is not an element
   * of the array, so the list is saved unchanged.
   */
  datatype SaveOutcome = MissingField | EditLost | Edited(index: nat) | Added(id: string)

  function IdOf(c: LocalCategory): string { c.id }

  /** The test `deleteCategory` filters with: another id than `id`. */
  function OtherId(id: string): LocalCategory -> bool { (c: LocalCategory) => c.id != id }

  /** `getNextCategoryId` */
  function NextId(counter: Counter): string { NextCode('C', counter) }

  /** The result of one submit: the outcome and the new list, counter and edited row. */
  datatype Saving = Saving(outcome: SaveOutcome, data: seq<LocalCategory>, counter: Counter, editing: Option<string>)

  /**
   * `addCategory`: both fields are trimmed. `editing` is the id in the first cell of
   * `currentEditingRow`. An edit does not reload the list, so the counter stays.
   */
  function Save(data: seq<LocalCategory>, counter: Counter, editing: Option<string>, f: Form): Saving {
    var name := JsTrim(f.name);
    var description := JsTrim(f.description);
    if name == "" || description == "" then Saving(MissingField, data, counter, editing)
    else if editing.Some? then
      var id := editing.value;
      match FindFirst(data, (c: LocalCategory) => c.id == id)
      case None => Saving(EditLost, data, counter, None)
      case Some(k) => Saving(Edited(k), data[k := LocalCategory(id, name, description)], counter, None)
    else
      var id := NextId(counter);
      Saving(Added(id), data + [LocalCategory(id, name, description)], Inc(counter), None)
  }

  class CategoriesPage {
    var categoriesData: seq<LocalCategory>
    var categoryCounter: Counter
    var currentEditing: Option<string>

    constructor()
      ensures categoriesData == [] && categoryCounter == Some(1) && currentEditing == None
    {
      categoriesData := [];
      categoryCounter := Some(1);
      currentEditing := None;
    }

    /** `loadCategoriesData`: without the table nothing happens. */
    method LoadCategoriesData(saved: Option<seq<LocalCategory>>, tbodyPresent: bool)
      modifies this`categoriesData, this`categoryCounter
      ensures !tbodyPresent ==> categoriesData == old(categoriesData) && categoryCounter == old(categoryCounter)
      ensures tbodyPresent ==> categoriesData == saved.GetOr([]) && categoryCounter == CounterAfterLoad(categoriesData, IdOf)
    {
      if !tbodyPresent {
        return;
      }
      categoriesData := saved.GetOr([]);
      if |categoriesData| > 0 {
        var n := CodeNumber(categoriesData[|categoriesData| - 1].id);
        categoryCounter := if n.Some? then Some(n.value + 1) else None;
      } else {
        categoryCounter := Some(1);
      }
    }

    /** `editCategory`: later submits edit the category with the row's id. */
    method EditCategory(rowId: string)
      modifies this`currentEditing
      ensures currentEditing == Some(rowId)
    {
      currentEditing := Some(rowId);
    }

    /** `closeCategoryModal` */
    method CloseCategoryModal()
      modifies this`currentEditing
      ensures currentEditing == None
    {
      currentEditing := None;
    }

    /** `addCategory` */
    method AddCategory(f: Form) returns (outcome: SaveOutcome)
      modifies this
      ensures Saving(outcome, categoriesData, categoryCounter, currentEditing)
           == Save(old(categoriesData), old(categoryCounter), old(currentEditing), f)
    {
      var name := JsTrim(f.name);
      var description := JsTrim(f.description);
      if name == "" || description == "" {
        return MissingField;
      }
      if currentEditing.Some? {
        var id := currentEditing.value;
        var index := FindFirst(categoriesData, (c: LocalCategory) => c.id == id);
        if index.Some? {
          categoriesData := categoriesData[index.value := LocalCategory(id, name, description)];
          outcome := Edited(index.value);
        } else {
          outcome := EditLost;
        }
      } else {
        var id := NextId(categoryCounter);
        categoriesData := categoriesData + [LocalCategory(id, name, description)];
        categoryCounter := Inc(categoryCounter);
        outcome := Added(id);
      }
      CloseCategoryModal();
    }

    /** `deleteCategory`: when confirmed, every category with the row's id goes. */
    method DeleteCategory(rowId: string, confirmed: bool)
      modifies this`categoriesData
      ensures categoriesData == if confirmed then Filter(old(categoriesData), OtherId(rowId))
                                else old(categoriesData)
    {
      if !confirmed {
        return;
      }
      categoriesData := Filter(categoriesData, OtherId(rowId));
    }
  }

  // ---------------------------------------------------------------------
  // Properties
  // ---------------------------------------------------------------------

  /** The category list's ids are increasing "C" codes, all below the counter. */
  ghost predicate Numbered(data: seq<LocalCategory>, counter: Counter) { WellNumbered(data, IdOf, 'C', counter) }

  /** A blank name or description changes nothing, not even the edited row. */
  lemma RejectedSaveChangesNothing(data: seq<LocalCategory>, counter: Counter, editing: Option<string>, f: Form)
    requires JsTrim(f.name) == "" || JsTrim(f.description) == ""
    ensures Save(data, counter, editing, f) == Saving(MissingField, data, counter, editing)
  {
  }

  /** Every accepted submit ends the edit. */
  lemma AcceptedSaveEndsEdit(data: seq<LocalCategory>, counter: Counter, editing: Option<string>, f: Form)
    requires JsTrim(f.name) != "" && JsTrim(f.description) != ""
    ensures Save(data, counter, editing, f).outcome != MissingField
    ensures Save(data, counter, editing, f).editing == None
  {
  }

  /** A successful add appends exactly one category with the next id, and advances the counter. */
  lemma AddAppendsOne(data: seq<LocalCategory>, counter: Counter, f: Form)
    requires Save(data, counter, None, f).outcome.Added?
    ensures |Save(data, counter, None, f).data| == |data| + 1
    ensures Save(data, counter, None, f).data[..|data|] == data
    ensures Save(data, counter, None, f).data[|data|] == LocalCategory(NextId(counter), JsTrim(f.name), JsTrim(f.description))
    ensures Save(data, counter, None, f).counter == Inc(counter)
  {
    var s := Save(data, counter, None, f);
    assert s.data == data + [s.data[|data|]];
  }

  /** An add keeps a well-numbered list well numbered, and its ids stay unique. */
  lemma AddKeepsWellNumbered(data: seq<LocalCategory>, counter: Counter, f: Form)
    requires Numbered(data, counter)
    requires Save(data, counter, None, f).outcome.Added?
    ensures Numbered(Save(data, counter, None, f).data, Save(data, counter, None, f).counter)
    ensures forall i, j :: 0 <= i < j < |data| + 1 ==>
      Save(data, counter, None, f).data[i].id != Save(data, counter, None, f).data[j].id
  {
    var s := Save(data, counter, None, f);
    AddAppendsOne(data, counter, f);
    var c := s.data[|data|];
    assert s.data == data + [c];
    AppendNextKeepsWellNumbered(data, IdOf, 'C', counter, c);
    WellNumberedIdsUnique(s.data, IdOf, 'C', s.counter);
  }

  /**
   * A successful edit replaces the first category with the edited id, keeping that id;
   * every other entry and the counter are unchanged, and the list stays well numbered.
   */
  lemma EditReplacesInPlace(data: seq<LocalCategory>, counter: Counter, id: string, f: Form)
    requires Save(data, counter, Some(id), f).outcome.Edited?
    ensures var s := Save(data, counter, Some(id), f);
      var k := s.outcome.index;
      k < |data| && data[k].id == id && (forall j :: 0 <= j < k ==> data[j].id != id)
      && |s.data| == |data|
      && s.data[k] == LocalCategory(id, JsTrim(f.name), JsTrim(f.description))
      && (forall j :: 0 <= j < |data| && j != k ==> s.data[j] == data[j])
      && s.counter == counter && s.editing == None
      && (Numbered(data, counter) ==> Numbered(s.data, s.counter))
  {
    var s := Save(data, counter, Some(id), f);
    var k := s.outcome.index;
    if Numbered(data, counter) {
      ReplaceKeepsWellNumbered(data, IdOf, 'C', counter, k, s.data[k]);
    }
  }

  /**
   * A submit while editing an id no longer in the list is accepted but saves nothing:
   * the list and the counter are unchanged and the edit ends.
   */
  lemma EditOfMissingIdIsLost(data: seq<LocalCategory>, counter: Counter, id: string, f: Form)
    requires JsTrim(f.name) != "" && JsTrim(f.description) != ""
    requires forall j :: 0 <= j < |data| ==> data[j].id != id
    ensures Save(data, counter, Some(id), f) == Saving(EditLost, data, counter, None)
  {
  }

  /**
   * A confirmed delete keeps exactly the categories with another id, in their order, and
   * keeps a well-numbered list well numbered.
   */
  lemma DeleteRemovesThatId(data: seq<LocalCategory>, counter: Counter, id: string)
    ensures var after := Filter(data, OtherId(id));
      (forall c :: c in after <==> c in data && c.id != id) && SubseqOf(after, data)
      && (Numbered(data, counter) ==> Numbered(after, counter))
  {
    var keep := OtherId(id);
    FilterIsSubseq(data, keep);
    if Numbered(data, counter) {
      FilterKeepsWellNumbered(data, IdOf, 'C', counter, keep);
    }
  }

  /**
   * After deleting the last category, a reload gives its number to the next category;
   * without the reload the counter stays past it.
   */
  lemma DeleteLastThenReloadReusesNumber(all: seq<LocalCategory>)
    requires all != []
    requires forall i :: 0 <= i < |all| ==> IsCode('C', all[i].id)
    requires forall i, j :: 0 <= i < j < |all| ==> CodeValue(all[i].id) < CodeValue(all[j].id)
    ensures Filter(all, OtherId(all[|all| - 1].id)) == all[..|all| - 1]
    ensures CounterAfterLoad(all, IdOf) == Some(CodeValue(all[|all| - 1].id) + 1)
    ensures |all| > 1 ==> CounterAfterLoad(all[..|all| - 1], IdOf) == Some(CodeValue(all[|all| - 2].id) + 1)
    ensures |all| > 1 ==> CodeValue(all[|all| - 2].id) + 1 <= CodeValue(all[|all| - 1].id)
  {
    DropLastById(all);
    LoadWellNumbered(all, IdOf, 'C');
    if |all| > 1 {
      LoadPrefix(all);
    }
  }

  /**
   * With consecutive numbers (as a list built only by adds is), reloading after
   * deleting the last category sets the counter to exactly the deleted number, so the
   * next add reuses its id.
   */
  lemma ContiguousDeleteLastReusesId(all: seq<LocalCategory>)
    requires |all| > 1
    requires forall i :: 0 <= i < |all| ==> IsCode('C', all[i].id)
    requires forall i :: 0 < i < |all| ==> CodeValue(all[i].id) == CodeValue(all[i - 1].id) + 1
    ensures Filter(all, OtherId(all[|all| - 1].id)) == all[..|all| - 1]
    ensures CounterAfterLoad(all[..|all| - 1], IdOf) == Some(CodeValue(all[|all| - 1].id))
  {
    assert forall i, j :: 0 <= i < j < |all| ==> CodeValue(all[i].id) < CodeValue(all[j].id) by {
      forall i, j | 0 <= i < j < |all|
        ensures CodeValue(all[i].id) < CodeValue(all[j].id)
      {
        ConsecutiveIncrease(all, i, j);
      }
    }
    DeleteLastThenReloadReusesNumber(all);
  }

  lemma {:induction false} ConsecutiveIncrease(all: seq<LocalCategory>, i: nat, j: nat)
    requires i < j < |all|
    requires forall k :: 0 < k < |all| ==> CodeValue(all[k].id) == CodeValue(all[k - 1].id) + 1
    ensures CodeValue(all[i].id) < CodeValue(all[j].id)
    decreases j - i
  {
    if j > i + 1 {
      ConsecutiveIncrease(all, i, j - 1);
    }
  }

  /** Filtering out the id of the last entry, which no earlier entry has, gives back the earlier entries. */
  lemma DropLastById(all: seq<LocalCategory>)
    requires all != []
    requires forall i, j :: 0 <= i < j < |all| ==> CodeValue(all[i].id) < CodeValue(all[j].id)
    ensures Filter(all, OtherId(all[|all| - 1].id)) == all[..|all| - 1]
  {
    var n := |all| - 1;
    forall k | 0 <= k < n ensures OtherId(all[n].id)(all[k]) {
      assert CodeValue(all[k].id) < CodeValue(all[n].id);
    }
    FilterDropsLast(all, OtherId(all[n].id));
  }

  /** Reloading the list without its last entry sets the counter past the entry before it. */
  lemma LoadPrefix(all: seq<LocalCategory>)
    requires |all| > 1
    requires forall i :: 0 <= i < |all| ==> IsCode('C', all[i].id)
    requires forall i, j :: 0 <= i < j < |all| ==> CodeValue(all[i].id) < CodeValue(all[j].id)
    ensures CounterAfterLoad(all[..|all| - 1], IdOf) == Some(CodeValue(all[|all| - 2].id) + 1)
    ensures CodeValue(all[|all| - 2].id) + 1 <= CodeValue(all[|all| - 1].id)
  {
    var data := all[..|all| - 1];
    assert data[|data| - 1] == all[|all| - 2];
    CodeReadsBack('C', data[|data| - 1].id);
  }
}
