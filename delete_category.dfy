/**
 * Deleting a category (`delete_category.php`): inside one database transaction
 * the row with the given internal id is deleted, then the displayed numbers
 * `category_id` of the remaining rows are renumbered 1..N in their old order.
 * Any failing step rolls the whole call back.
 */
module DeleteCategory {
  import opened Common
  import opened Schema

  // ---------------------------------------------------------------------
  // Renumbering
  // ---------------------------------------------------------------------

  /**
   * Row `j` comes before row `i` in `ORDER BY category_id`; rows with equal numbers
   * keep their table order.
   */
  predicate Before(cs: seq<Category>, j: int, i: int)
    requires 0 <= j < |cs| && 0 <= i < |cs|
  {
    cs[j].categoryId < cs[i].categoryId || (cs[j].categoryId == cs[i].categoryId && j < i)
  }

  /** How many of the rows `0..n-1` come before row `i`. */
  function RankBelow(cs: seq<Category>, i: int, n: int): (k: nat)
    requires 0 <= i < |cs| && 0 <= n <= |cs|
    ensures k <= n
    decreases n
  {
    if n == 0 then 0
    else RankBelow(cs, i, n - 1) + (if Before(cs, n - 1, i) then 1 else 0)
  }

  /** The row's position in the ordered scan, counted from 0: `@n` when it is numbered, minus one. */
  function Rank(cs: seq<Category>, i: int): nat
    requires 0 <= i < |cs|
  {
    RankBelow(cs, i, |cs|)
  }

  /** Every row renumbered by its position; nothing else about any row changes. */
  function Resequence(cs: seq<Category>): (r: seq<Category>)
    ensures |r| == |cs|
    ensures forall i :: 0 <= i < |cs| ==> r[i] == cs[i].(categoryId := Rank(cs, i) + 1)
  {
    seq(|cs|, i requires 0 <= i < |cs| => cs[i].(categoryId := Rank(cs, i) + 1))
  }

  function Remaining(cs: seq<Category>, id: int): seq<Category> { Filter(cs, (c: Category) => c.id != id) }

  /** The answer and the table left behind. */
  datatype Deleting = Deleting(success: bool, categories: seq<Category>)

  /**
   * The reference behaviour. `failAt` names the step (1 the DELETE, 2 the numbering
   * query, 3 the UPDATE) that fails, or 0; a failure rolls back to the old table.
   */
  function Delete(cs: seq<Category>, rawId: JsonScalar, failAt: nat): Deleting {
    var id := PhpIntCast(rawId);
    if id == 0 || 1 <= failAt <= 3 then Deleting(false, cs)
    else Deleting(true, Resequence(Remaining(cs, id)))
  }

  // ---------------------------------------------------------------------
  // The endpoint, step by step
  // ---------------------------------------------------------------------

  /** The numbering query for one row: count the rows ordered before it. */
  method RankOf(cs: seq<Category>, i: nat) returns (k: nat)
    requires i < |cs|
    ensures k == Rank(cs, i)
  {
    k := 0;
    var n := 0;
    while n < |cs|
      invariant 0 <= n <= |cs|
      invariant k == RankBelow(cs, i, n)
    {
      if Before(cs, n, i) {
        k := k + 1;
      }
      n := n + 1;
    }
  }

  /** `UPDATE categories c JOIN tmp_cat_map m ...`: row by row, the new number. */
  method Renumber(db: Database)
    modifies db`categories
    ensures db.categories == Resequence(old(db.categories))
  {
    var cs := db.categories;
    var i := 0;
    while i < |cs|
      invariant 0 <= i <= |cs| && |db.categories| == |cs|
      invariant db.categories[..i] == Resequence(cs)[..i]
      invariant db.categories[i..] == cs[i..]
    {
      var k := RankOf(cs, i);
      assert db.categories[i] == cs[i];
      db.categories := db.categories[i := cs[i].(categoryId := k + 1)];
      i := i + 1;
    }
    assert db.categories == db.categories[..i];
  }

  /** The endpoint: begin, delete, renumber, commit; roll back on any failing step. */
  method DeleteCategory(db: Database, rawId: JsonScalar, failAt: nat) returns (success: bool)
    modifies db`categories
    ensures Deleting(success, db.categories) == Delete(old(db.categories), rawId, failAt)
  {
    var id := PhpIntCast(rawId);
    if id == 0 {
      return false;
    }
    var before := db.categories;
    if failAt == 1 {
      return false;
    }
    db.categories := Remaining(db.categories, id);
    if failAt == 2 {
      db.categories := before;
      return false;
    }
    Renumber(db);
    if failAt == 3 {
      db.categories := before;
      return false;
    }
    success := true;
  }

  // ---------------------------------------------------------------------
  // Properties
  // ---------------------------------------------------------------------

  /** A missing or zero id, or any failing step, leaves the table as it was. */
  lemma FailureChangesNothing(cs: seq<Category>, rawId: JsonScalar, failAt: nat)
    requires PhpIntCast(rawId) == 0 || 1 <= failAt <= 3
    ensures Delete(cs, rawId, failAt) == Deleting(false, cs)
  {
  }

  /**
   * A successful delete removes exactly the rows with that internal id; the others
   * stay in table order with their internal ids, names and descriptions.
   */
  lemma RemovesExactlyThatRow(cs: seq<Category>, rawId: JsonScalar)
    requires PhpIntCast(rawId) != 0
    ensures var id := PhpIntCast(rawId);
      var after := Delete(cs, rawId, 0).categories;
      var kept := Remaining(cs, id);
      SubseqOf(kept, cs)
      && (forall c :: c in kept <==> c in cs && c.id != id)
      && |after| == |kept|
      && (forall i :: 0 <= i < |after| ==>
            after[i].id == kept[i].id && after[i].name == kept[i].name
            && after[i].description == kept[i].description && after[i].id != id)
  {
    var id := PhpIntCast(rawId);
    FilterIsSubseq(cs, (c: Category) => c.id != id);
    var kept := Remaining(cs, id);
    forall i | 0 <= i < |kept|
      ensures kept[i].id != id
    {
      assert kept[i] in kept;
    }
  }

  /** Row `i` does not come before itself, so its rank is below the row count. */
  lemma {:induction false} RankBelowSelf(cs: seq<Category>, i: int, n: int)
    requires 0 <= i < n <= |cs|
    ensures RankBelow(cs, i, n) < n
    decreases n
  {
    if n - 1 > i {
      RankBelowSelf(cs, i, n - 1);
    } else {
      assert !Before(cs, i, i);
    }
  }

  /** Whatever comes before `a` comes before `b` when `a` does, and `a` itself adds one more. */
  lemma {:induction false} RankBelowGrows(cs: seq<Category>, a: int, b: int, n: int)
    requires 0 <= a < |cs| && 0 <= b < |cs| && 0 <= n <= |cs| && Before(cs, a, b)
    ensures RankBelow(cs, a, n) + (if a < n then 1 else 0) <= RankBelow(cs, b, n)
    decreases n
  {
    if n > 0 {
      RankBelowGrows(cs, a, b, n - 1);
      if n - 1 == a {
        assert !Before(cs, a, a);
      }
    }
  }

  /** The renumbering keeps the order: row `a` comes before row `b` exactly when its new number is smaller. */
  lemma RankKeepsOrder(cs: seq<Category>, a: int, b: int)
    requires 0 <= a < |cs| && 0 <= b < |cs|
    ensures Before(cs, a, b) <==> Rank(cs, a) < Rank(cs, b)
  {
    if Before(cs, a, b) {
      RankBelowGrows(cs, a, b, |cs|);
    } else if a != b {
      assert Before(cs, b, a);
      RankBelowGrows(cs, b, a, |cs|);
    }
  }

  /** Distinct rows get distinct numbers in 0..N-1. */
  lemma RankIsInjective(cs: seq<Category>, a: int, b: int)
    requires 0 <= a < |cs| && 0 <= b < |cs| && a != b
    ensures Rank(cs, a) != Rank(cs, b) && Rank(cs, a) < |cs|
  {
    RankKeepsOrder(cs, a, b);
    RankKeepsOrder(cs, b, a);
    RankBelowSelf(cs, a, |cs|);
  }

  function RankSet(cs: seq<Category>, n: int): set<nat>
    requires 0 <= n <= |cs|
  {
    set i | 0 <= i < n :: Rank(cs, i)
  }

  lemma {:induction false} RankSetSize(cs: seq<Category>, n: int)
    requires 0 <= n <= |cs|
    ensures |RankSet(cs, n)| == n
    decreases n
  {
    if n > 0 {
      RankSetSize(cs, n - 1);
      assert RankSet(cs, n) == RankSet(cs, n - 1) + {Rank(cs, n - 1)};
      forall i | 0 <= i < n - 1
        ensures Rank(cs, i) != Rank(cs, n - 1)
      {
        RankIsInjective(cs, i, n - 1);
      }
    }
  }

  function Upto(n: nat): (s: set<nat>)
    ensures |s| == n && forall k: int :: k in s <==> 0 <= k < n
    decreases n
  {
    if n == 0 then {}
    else
      var below := Upto(n - 1);
      assert n - 1 !in below;
      below + {n - 1}
  }

  /** A subset as large as its superset is the superset. */
  lemma SameSizeSubset(a: set<nat>, b: set<nat>)
    requires a <= b && |a| == |b|
    ensures a == b
  {
    if a != b {
      var x :| x in b && x !in a;
      assert a <= b - {x};
      assert |b - {x}| == |b| - 1;
      SubsetSize(a, b - {x});
    }
  }

  lemma {:induction false} SubsetSize(a: set<nat>, b: set<nat>)
    requires a <= b
    ensures |a| <= |b|
    decreases |b|
  {
    if a != {} {
      var x :| x in a;
      SubsetSize(a - {x}, b - {x});
    }
  }

  /** Every number 0..N-1 is some row's rank. */
  lemma RanksCoverAll(cs: seq<Category>)
    ensures RankSet(cs, |cs|) == Upto(|cs|)
  {
    RankSetSize(cs, |cs|);
    forall k | k in RankSet(cs, |cs|)
      ensures k in Upto(|cs|)
    {
      var i :| 0 <= i < |cs| && Rank(cs, i) == k;
      RankBelowSelf(cs, i, |cs|);
    }
    SameSizeSubset(RankSet(cs, |cs|), Upto(|cs|));
  }

  /** The displayed numbers used by a table. */
  function NumbersOf(cs: seq<Category>): set<int> {
    set i | 0 <= i < |cs| :: cs[i].categoryId
  }

  function OneTo(n: nat): (s: set<int>)
    ensures forall k: int :: k in s <==> 1 <= k <= n
    decreases n
  {
    if n == 0 then {} else OneTo(n - 1) + {n}
  }

  /**
   * After a successful delete the displayed numbers are exactly 1..N, each used once,
   * and they follow the old order (ties by table position).
   */
  lemma NumbersAreOneToN(cs: seq<Category>, rawId: JsonScalar)
    requires PhpIntCast(rawId) != 0
    ensures var kept := Remaining(cs, PhpIntCast(rawId));
      var after := Delete(cs, rawId, 0).categories;
      NumbersOf(after) == OneTo(|after|)
      && (forall i, j :: 0 <= i < |after| && 0 <= j < |after| && i != j ==> after[i].categoryId != after[j].categoryId)
      && (forall i, j :: 0 <= i < |after| && 0 <= j < |after| ==>
            (Before(kept, i, j) <==> after[i].categoryId < after[j].categoryId))
  {
    var kept := Remaining(cs, PhpIntCast(rawId));
    ResequenceCoversOneToN(kept);
    ResequenceWithinOneToN(kept);
    ResequenceKeepsOrder(kept);
  }

  /** Every number 1..N is given to some row. */
  lemma ResequenceCoversOneToN(kept: seq<Category>)
    ensures forall n :: n in OneTo(|kept|) ==> n in NumbersOf(Resequence(kept))
  {
    var after := Resequence(kept);
    RanksCoverAll(kept);
    forall n | n in OneTo(|after|)
      ensures n in NumbersOf(after)
    {
      assert n - 1 in Upto(|kept|);
      var i :| 0 <= i < |kept| && Rank(kept, i) == n - 1;
      assert after[i].categoryId == n;
    }
  }

  /** Every number given is in 1..N. */
  lemma ResequenceWithinOneToN(kept: seq<Category>)
    ensures forall n :: n in NumbersOf(Resequence(kept)) ==> n in OneTo(|kept|)
  {
    var after := Resequence(kept);
    forall n | n in NumbersOf(after)
      ensures n in OneTo(|after|)
    {
      var i :| 0 <= i < |after| && after[i].categoryId == n;
      RankBelowSelf(kept, i, |kept|);
    }
  }

  /** The numbers are distinct and follow the old order. */
  lemma ResequenceKeepsOrder(kept: seq<Category>)
    ensures var after := Resequence(kept);
      (forall i, j :: 0 <= i < |after| && 0 <= j < |after| && i != j ==> after[i].categoryId != after[j].categoryId)
      && (forall i, j :: 0 <= i < |after| && 0 <= j < |after| ==>
            (Before(kept, i, j) <==> after[i].categoryId < after[j].categoryId))
  {
    var after := Resequence(kept);
    forall i, j | 0 <= i < |after| && 0 <= j < |after| && i != j
      ensures after[i].categoryId != after[j].categoryId
    {
      RankIsInjective(kept, i, j);
    }
    forall i, j | 0 <= i < |after| && 0 <= j < |after|
      ensures Before(kept, i, j) <==> after[i].categoryId < after[j].categoryId
    {
      RankKeepsOrder(kept, i, j);
    }
  }
}
