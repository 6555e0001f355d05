/**
 * The id scheme the browser-side employee and category lists share
 * (`employees.js`, `categories.js`): a counter, ids made of a letter and the
 * counter padded to three digits, and the counter recomputed on load from the
 * digits after the first character of the last id.
 */
module LocalIds {
  import opened Common
  import opened JsValues

  /** The counter's value: a number, or None for NaN. */
  type Counter = Option<int>

  /** `getNextEmployeeId` / `getNextCategoryId`: the letter and `String(counter).padStart(3, '0')`. */
  function NextCode(letter: char, counter: Counter): string {
    [letter] + PadLeft3(match counter case Some(n) => IntToDec(n) case None => "NaN")
  }

  /** `counter++`; NaN stays NaN. */
  function Inc(counter: Counter): Counter {
    match counter case Some(n) => Some(n + 1) case None => None
  }

  /** `id.substring(1)` */
  function Suffix(id: string): string { if |id| >= 1 then id[1..] else "" }

  /** `parseInt(id.substring(1))` */
  function CodeNumber(id: string): Option<int> { ParseInt(Suffix(id)) }

  /** The counter a load derives: one past the last id's number, NaN when it has none, or 1 for an empty list. */
  function CounterAfterLoad<T>(data: seq<T>, idOf: T -> string): Counter {
    if |data| > 0 then
      match CodeNumber(idOf(data[|data| - 1])) case Some(n) => Some(n + 1) case None => None
    else Some(1)
  }

  /** An id of the generated shape: the letter and digits. */
  predicate IsCode(letter: char, id: string) { |id| >= 2 && id[0] == letter && AllDigits(id[1..]) }

  /** The number of an id of that shape, and -1 for any other id. */
  function CodeValue(id: string): int {
    if |id| >= 2 && AllDigits(id[1..]) then DigitsValue(id[1..]) else -1
  }

  function KeyOf<T>(idOf: T -> string): T -> int { (x: T) => CodeValue(idOf(x)) }

  /**
   * The list's ids are generated codes whose numbers increase along the list, and the
   * counter is a number above all of them.
   */
  ghost predicate WellNumbered<T>(data: seq<T>, idOf: T -> string, letter: char, counter: Counter) {
    counter.Some? && counter.value >= 0
    && (forall i :: 0 <= i < |data| ==> IsCode(letter, idOf(data[i])))
    && (forall i, j :: 0 <= i < j < |data| ==> CodeValue(idOf(data[i])) < CodeValue(idOf(data[j])))
    && (forall i :: 0 <= i < |data| ==> CodeValue(idOf(data[i])) < counter.value)
  }

  // ---------------------------------------------------------------------
  // Properties
  // ---------------------------------------------------------------------

  /** `parseInt` reads a generated id back as its number. */
  lemma CodeReadsBack(letter: char, id: string)
    requires IsCode(letter, id)
    ensures CodeNumber(id) == Some(CodeValue(id))
  {
    ParseIntDigits(id[1..]);
  }

  /** The next id is the letter and the counter padded to three digits, and reads back as the counter. */
  lemma NextCodeIsCode(letter: char, n: nat, id: string)
    requires id == NextCode(letter, Some(n))
    ensures id == PrefixedCode(letter, n)
    ensures IsCode(letter, id) && CodeValue(id) == n && CodeNumber(id) == Some(n)
  {
    PrefixedCodeReadsBack(letter, n);
    CodeReadsBack(letter, id);
  }

  /** A last id without digits after its first character makes the counter NaN, and NaN sticks. */
  lemma NaNCounterSticks<T>(letter: char, data: seq<T>, idOf: T -> string)
    requires |data| > 0 && |idOf(data[|data| - 1])| <= 1
    ensures CounterAfterLoad(data, idOf) == None
    ensures NextCode(letter, None) == [letter] + "NaN" && Inc(None) == None
  {
    assert Suffix(idOf(data[|data| - 1])) == "";
    assert TrimLeft("", IsJsSpace) == "";
    assert DigitPrefix("") == [];
  }

  /** Ids of a well-numbered list are unique. */
  lemma WellNumberedIdsUnique<T>(data: seq<T>, idOf: T -> string, letter: char, counter: Counter)
    requires WellNumbered(data, idOf, letter, counter)
    ensures forall i, j :: 0 <= i < j < |data| ==> idOf(data[i]) != idOf(data[j])
  {
  }

  /** Loading a list of increasing generated codes sets the counter past the last one. */
  lemma LoadWellNumbered<T>(data: seq<T>, idOf: T -> string, letter: char)
    requires forall i :: 0 <= i < |data| ==> IsCode(letter, idOf(data[i]))
    requires forall i, j :: 0 <= i < j < |data| ==> CodeValue(idOf(data[i])) < CodeValue(idOf(data[j]))
    ensures WellNumbered(data, idOf, letter, CounterAfterLoad(data, idOf))
    ensures data == [] ==> CounterAfterLoad(data, idOf) == Some(1)
    ensures data != [] ==> CounterAfterLoad(data, idOf) == Some(CodeValue(idOf(data[|data| - 1])) + 1)
  {
    if data != [] {
      var last := idOf(data[|data| - 1]);
      CodeReadsBack(letter, last);
      forall i | 0 <= i < |data| ensures CodeValue(idOf(data[i])) < CodeValue(last) + 1 {
        if i < |data| - 1 {
          assert CodeValue(idOf(data[i])) < CodeValue(idOf(data[|data| - 1]));
        }
      }
    }
  }

  /** Appending an entry with the next id and advancing the counter keeps the list well numbered; the id is new. */
  lemma AppendNextKeepsWellNumbered<T>(data: seq<T>, idOf: T -> string, letter: char, counter: Counter, e: T)
    requires WellNumbered(data, idOf, letter, counter) && idOf(e) == NextCode(letter, counter)
    ensures WellNumbered(data + [e], idOf, letter, Inc(counter))
    ensures forall i :: 0 <= i < |data| ==> idOf(data[i]) != idOf(e)
  {
    var n := counter.value;
    assert IsCode(letter, idOf(e)) && CodeValue(idOf(e)) == n by {
      NextCodeIsCode(letter, n, idOf(e));
    }
    var after := data + [e];
    assert forall i :: 0 <= i < |data| ==> after[i] == data[i];
    assert after[|data|] == e;
    forall i | 0 <= i < |data| ensures idOf(data[i]) != idOf(e) {
      assert CodeValue(idOf(data[i])) < CodeValue(idOf(e));
    }
  }

  /** Replacing an entry by one with the same id keeps the list well numbered. */
  lemma ReplaceKeepsWellNumbered<T>(data: seq<T>, idOf: T -> string, letter: char, counter: Counter, k: nat, x: T)
    requires WellNumbered(data, idOf, letter, counter) && k < |data| && idOf(x) == idOf(data[k])
    ensures WellNumbered(data[k := x], idOf, letter, counter)
  {
    assert forall j :: 0 <= j < |data| ==> idOf(data[k := x][j]) == idOf(data[j]);
  }

  /** Filtering keeps the list well numbered. */
  lemma FilterKeepsWellNumbered<T>(data: seq<T>, idOf: T -> string, letter: char, counter: Counter, keep: T -> bool)
    requires WellNumbered(data, idOf, letter, counter)
    ensures WellNumbered(Filter(data, keep), idOf, letter, counter)
  {
    var key := KeyOf(idOf);
    FilterKeepsIncreasing(data, keep, key);
    var after := Filter(data, keep);
    forall i | 0 <= i < |after|
      ensures IsCode(letter, idOf(after[i])) && CodeValue(idOf(after[i])) < counter.value
    {
      assert after[i] in data;
    }
    forall i, j | 0 <= i < j < |after| ensures CodeValue(idOf(after[i])) < CodeValue(idOf(after[j])) {
      assert key(after[i]) < key(after[j]);
    }
  }
}
