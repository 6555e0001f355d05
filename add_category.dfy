/**
 * Adding a category (`add_category.php`): the displayed number is chosen by a
 * query that fills the first gap above an existing number, and the row is
 * inserted with its `C`-prefixed display code.
 */
module AddCategory {
  import opened Common
  import opened Schema

  datatype AddError = NameRequired | InsertFailed

  /** What a successful call reports back. */
  datatype Created = Created(id: int, categoryId: int, name: string, description: string, code: string)

  // ---------------------------------------------------------------------
  // The next-number query
  // ---------------------------------------------------------------------

  /** The largest element of a non-empty sequence. */
  function MaxOf(s: seq<int>): (m: int)
    requires s != []
    ensures m in s && forall x :: x in s ==> x <= m
    decreases |s|
  {
    if |s| == 1 then s[0]
    else
      var rest := MaxOf(s[1..]);
      assert forall x :: x in s ==> x == s[0] || x in s[1..];
      if s[0] >= rest then s[0] else rest
  }

  /**
   * The LEFT JOIN keeps the numbers of `rest` whose successor is not in `ids`;
   * ORDER BY and LIMIT 1 take the smallest of them, if any.
   */
  function LowestGap(rest: seq<int>, ids: seq<int>): Option<int>
    decreases |rest|
  {
    if rest == [] then None
    else
      var tail := LowestGap(rest[1..], ids);
      if rest[0] + 1 in ids then tail
      else if tail.Some? && tail.value < rest[0] then tail
      else Some(rest[0])
  }

  lemma {:induction false} LowestGapIsLowest(rest: seq<int>, ids: seq<int>)
    ensures var g := LowestGap(rest, ids);
      (g.Some? ==> g.value in rest && g.value + 1 !in ids)
      && (forall i :: 0 <= i < |rest| && rest[i] + 1 !in ids ==> g.Some? && g.value <= rest[i])
    decreases |rest|
  {
    if rest != [] {
      LowestGapIsLowest(rest[1..], ids);
      assert forall i :: 1 <= i < |rest| ==> rest[i] == rest[1..][i - 1];
    }
  }

  /**
   * `COALESCE((lowest kept number) + 1, 1)`: the first unused successor of an
   * existing number, or 1 for an empty table.
   */
  function NextCategoryId(ids: seq<int>): (r: int)
    ensures ids == [] ==> r == 1
    ensures ids != [] ==> r - 1 in ids && r !in ids
  {
    LowestGapIsLowest(ids, ids);
    if ids == [] then 1
    else
      var top := MaxOf(ids);
      var i :| 0 <= i < |ids| && ids[i] == top;
      assert ids[i] + 1 !in ids;
      LowestGap(ids, ids).value + 1
  }

  /** No existing number below the chosen one's predecessor has an unused successor. */
  lemma NextIsFirstGap(ids: seq<int>)
    ensures forall i :: 0 <= i < |ids| && ids[i] + 1 !in ids ==> NextCategoryId(ids) - 1 <= ids[i]
  {
    LowestGapIsLowest(ids, ids);
  }

  function CategoryIds(cs: seq<Category>): (r: seq<int>)
    ensures |r| == |cs| && forall i :: 0 <= i < |cs| ==> r[i] == cs[i].categoryId
  {
    seq(|cs|, i requires 0 <= i < |cs| => cs[i].categoryId)
  }

  /** The display code: "C" and the number left-padded with zeros to three characters. */
  function CategoryCode(n: int): string { PrefixedCode('C', n) }

  // ---------------------------------------------------------------------
  // The endpoint
  // ---------------------------------------------------------------------

  /** What the endpoint leaves: the answer, the table and the AUTO_INCREMENT counter. */
  datatype Adding = Adding(answer: Result<Created, AddError>, categories: seq<Category>, nextId: int)

  /**
   * The reference behaviour: trim both fields, reject an empty name, choose the
   * number, insert. `insertOk` says whether the INSERT statement succeeds.
   */
  function Add(cs: seq<Category>, nextId: int, rawName: Option<string>, rawDesc: Option<string>, insertOk: bool): Adding {
    var name := PhpTrim(rawName.GetOr(""));
    var desc := PhpTrim(rawDesc.GetOr(""));
    if name == "" then Adding(Err(NameRequired), cs, nextId)
    else if !insertOk then Adding(Err(InsertFailed), cs, nextId)
    else
      var next := NextCategoryId(CategoryIds(cs));
      Adding(Ok(Created(nextId, next, name, desc, CategoryCode(next))),
             cs + [Category(nextId, next, name, desc)], nextId + 1)
  }

  /** The endpoint on the database. */
  method AddCategory(db: Database, rawName: Option<string>, rawDesc: Option<string>, insertOk: bool)
    returns (r: Result<Created, AddError>)
    modifies db`categories, db`nextCategoryId
    ensures Adding(r, db.categories, db.nextCategoryId)
      == Add(old(db.categories), old(db.nextCategoryId), rawName, rawDesc, insertOk)
  {
    var name := PhpTrim(rawName.GetOr(""));
    var desc := PhpTrim(rawDesc.GetOr(""));
    if name == "" {
      return Err(NameRequired);
    }
    if !insertOk {
      return Err(InsertFailed);
    }
    var next := NextCategoryId(CategoryIds(db.categories));
    var id := db.nextCategoryId;
    db.categories := db.categories + [Category(id, next, name, desc)];
    db.nextCategoryId := id + 1;
    r := Ok(Created(id, next, name, desc, CategoryCode(next)));
  }

  /** A blank name, or a failing INSERT, is an error that inserts nothing. */
  lemma RejectedAddChangesNothing(cs: seq<Category>, nextId: int, rawName: Option<string>, rawDesc: Option<string>, insertOk: bool)
    requires PhpTrim(rawName.GetOr("")) == "" || !insertOk
    ensures var a := Add(cs, nextId, rawName, rawDesc, insertOk);
      a.answer.Err? && a.categories == cs && a.nextId == nextId
      && (PhpTrim(rawName.GetOr("")) == "" ==> a.answer == Err(NameRequired))
  {
  }

  /**
   * A successful add appends exactly one row, with a fresh internal id, an unused
   * display number and the trimmed fields, and reports its code.
   */
  lemma AddAppendsOneRow(cs: seq<Category>, nextId: int, rawName: Option<string>, rawDesc: Option<string>)
    requires PhpTrim(rawName.GetOr("")) != ""
    ensures var a := Add(cs, nextId, rawName, rawDesc, true);
      a.answer.Ok? && |a.categories| == |cs| + 1 && a.categories[..|cs|] == cs
      && a.nextId == nextId + 1
      && var row := a.categories[|cs|];
         row.id == nextId && row.name == PhpTrim(rawName.GetOr("")) && row.description == PhpTrim(rawDesc.GetOr(""))
         && (forall i :: 0 <= i < |cs| ==> cs[i].categoryId != row.categoryId)
         && a.answer.value.code == CategoryCode(row.categoryId)
  {
    NextIsUnused(cs);
    var a := Add(cs, nextId, rawName, rawDesc, true);
    assert a.categories[..|cs|] == cs;
  }

  // ---------------------------------------------------------------------
  // Properties of the numbering
  // ---------------------------------------------------------------------

  /** The chosen number is never one already in use. */
  lemma NextIsUnused(cs: seq<Category>)
    ensures forall i :: 0 <= i < |cs| ==> cs[i].categoryId != NextCategoryId(CategoryIds(cs))
  {
    var ids := CategoryIds(cs);
    forall i | 0 <= i < |cs|
      ensures cs[i].categoryId != NextCategoryId(ids)
    {
      assert ids[i] in ids;
    }
  }

  /** Numbers 1..n in any order give n + 1. */
  lemma ContiguousGivesNext(ids: seq<int>, n: nat)
    requires forall k :: k in ids <==> 1 <= k <= n
    ensures NextCategoryId(ids) == n + 1
  {
    if n > 0 {
      assert 1 in ids;
    }
  }

  /** A gap below the smallest number is not filled: {2, 3} gives 4. */
  lemma GapBelowMinimumNotFilled()
    ensures NextCategoryId([2, 3]) == 4
  {
    var r := NextCategoryId([2, 3]);
    assert r - 1 in [2, 3];
    assert 3 in [2, 3];
  }

  /** The first gap above an existing number is filled: {1, 2, 4} gives 3. */
  lemma FirstGapFilled()
    ensures NextCategoryId([1, 2, 4]) == 3
  {
    var ids := [1, 2, 4];
    var r := NextCategoryId(ids);
    assert 2 in ids && 3 !in ids;
  }
}
