/**
 * Shared vocabulary: Option and Result, order-preserving filtering, sums,
 * and the small string operations that the PHP and JavaScript code relies on
 * (zero padding, decimal text, digit tests, trimming, case folding, searching).
 */
module Common {

  datatype Option<T> = None | Some(value: T) {
    function GetOr(default: T): T {
      match this
      case Some(v) => v
      case None => default
    }
  }

  datatype Result<T, E> = Ok(value: T) | Err(error: E)

  // ---------------------------------------------------------------------
  // Sequences
  // ---------------------------------------------------------------------

  /** `r` keeps some of the elements of `s`, in their original order. */
  ghost predicate SubseqOf<T>(r: seq<T>, s: seq<T>)
    decreases |s|
  {
    if r == [] then true
    else if s == [] then false
    else if r[0] == s[0] then SubseqOf(r[1..], s[1..])
    else SubseqOf(r, s[1..])
  }

  lemma AppendAssoc<T>(a: seq<T>, b: seq<T>, c: seq<T>)
    ensures (a + b) + c == a + (b + c)
  {
  }

  /** A suffix of `t + [c]` is a suffix of `t` followed by `c`. */
  lemma SuffixOfAppend<T>(t: seq<T>, c: T, j: nat)
    requires j <= |t|
    ensures (t + [c])[|t| - j..] == t[|t| - j..] + [c]
  {
  }

  /** `rel` holds of every pair of elements, the earlier one first. */
  ghost predicate Pairwise<T>(s: seq<T>, rel: (T, T) -> bool) {
    forall i, j :: 0 <= i < j < |s| ==> rel(s[i], s[j])
  }

  /** Putting in front an element related to every element keeps a sequence pairwise related. */
  lemma ConsPairwise<T>(h: T, rest: seq<T>, rel: (T, T) -> bool)
    requires Pairwise(rest, rel)
    requires forall k :: 0 <= k < |rest| ==> rel(h, rest[k])
    ensures Pairwise([h] + rest, rel)
  {
    var r := [h] + rest;
    forall i, j | 0 <= i < j < |r| ensures rel(r[i], r[j]) {
      assert r[j] == rest[j - 1];
      if i > 0 {
        assert r[i] == rest[i - 1];
      }
    }
  }

  /** Array.prototype.filter: the elements of `s` that `keep` accepts, in order. */
  function Filter<T>(s: seq<T>, keep: T -> bool): (r: seq<T>)
    ensures |r| <= |s|
    ensures forall x :: x in r ==> x in s && keep(x)
    ensures forall x :: x in s && keep(x) ==> x in r
    decreases |s|
  {
    if s == [] then []
    else if keep(s[0]) then [s[0]] + Filter(s[1..], keep)
    else Filter(s[1..], keep)
  }

  /** Array.prototype.findIndex (and `find`): the first position whose element `p` accepts. */
  function FindFirst<T>(s: seq<T>, p: T -> bool): (r: Option<nat>)
    ensures r.Some? ==> r.value < |s| && p(s[r.value]) && forall j :: 0 <= j < r.value ==> !p(s[j])
    ensures r.None? ==> forall j :: 0 <= j < |s| ==> !p(s[j])
    decreases |s|
  {
    if s == [] then None
    else if p(s[0]) then Some(0)
    else
      assert forall j :: 1 <= j < |s| ==> s[j] == s[1..][j - 1];
      match FindFirst(s[1..], p)
      case None => None
      case Some(k) => Some(k + 1)
  }

  /** Filtering by `p` and then by `q` is filtering once by their conjunction `both`. */
  lemma {:induction false} FilterTwice<T>(s: seq<T>, p: T -> bool, q: T -> bool, both: T -> bool)
    requires forall x :: both(x) == (p(x) && q(x))
    ensures Filter(Filter(s, p), q) == Filter(s, both)
    decreases |s|
  {
    if s != [] {
      FilterTwice(s[1..], p, q, both);
      if p(s[0]) {
        var r := Filter(s[1..], p);
        assert ([s[0]] + r)[0] == s[0] && ([s[0]] + r)[1..] == r;
      }
    }
  }

  /** Filtering a sequence with one more element at the end. */
  lemma {:induction false} FilterSnoc<T>(s: seq<T>, x: T, keep: T -> bool)
    ensures Filter(s + [x], keep) == Filter(s, keep) + (if keep(x) then [x] else [])
    decreases |s|
  {
    if s == [] {
      assert [x][1..] == [];
    } else {
      assert (s + [x])[0] == s[0] && (s + [x])[1..] == s[1..] + [x];
      FilterSnoc(s[1..], x, keep);
    }
  }

  /** A filter that accepts every element of `s` yields `s`. */
  lemma {:induction false} FilterAll<T>(s: seq<T>, keep: T -> bool)
    requires forall k :: 0 <= k < |s| ==> keep(s[k])
    ensures Filter(s, keep) == s
    decreases |s|
  {
    if s != [] {
      assert forall k :: 0 <= k < |s[1..]| ==> s[1..][k] == s[k + 1];
      FilterAll(s[1..], keep);
      assert keep(s[0]);
      assert s == [s[0]] + s[1..];
    }
  }

  /** A filter that accepts every element but the last yields the sequence without its last element. */
  lemma {:induction false} FilterDropsLast<T>(s: seq<T>, keep: T -> bool)
    requires s != [] && !keep(s[|s| - 1])
    requires forall k :: 0 <= k < |s| - 1 ==> keep(s[k])
    ensures Filter(s, keep) == s[..|s| - 1]
    decreases |s|
  {
    if |s| == 1 {
      assert s[1..] == [];
    } else {
      var rest := s[1..];
      assert rest[|rest| - 1] == s[|s| - 1];
      assert forall k :: 0 <= k < |rest| - 1 ==> rest[k] == s[k + 1];
      FilterDropsLast(rest, keep);
      assert keep(s[0]);
      assert s[..|s| - 1] == [s[0]] + rest[..|rest| - 1];
    }
  }

  /** Filtering keeps a sequence strictly increasing under `key`. */
  lemma {:induction false} FilterKeepsIncreasing<T>(s: seq<T>, keep: T -> bool, key: T -> int)
    requires forall i, j :: 0 <= i < j < |s| ==> key(s[i]) < key(s[j])
    ensures forall i, j :: 0 <= i < j < |Filter(s, keep)| ==> key(Filter(s, keep)[i]) < key(Filter(s, keep)[j])
    decreases |s|
  {
    if s != [] {
      var rest := s[1..];
      assert forall i :: 0 <= i < |rest| ==> rest[i] == s[i + 1];
      FilterKeepsIncreasing(rest, keep, key);
      if keep(s[0]) {
        var tail := Filter(rest, keep);
        forall x | x in tail ensures key(s[0]) < key(x) {
          var m :| 0 <= m < |rest| && rest[m] == x;
          assert s[m + 1] == x;
        }
        var r := [s[0]] + tail;
        assert Filter(s, keep) == r;
        forall i, j | 0 <= i < j < |r| ensures key(r[i]) < key(r[j]) {
          assert r[j] == tail[j - 1] && r[j] in tail;
          if i > 0 {
            assert r[i] == tail[i - 1];
          }
        }
      }
    }
  }

  /** A filter that accepts no element of `s` yields nothing. */
  lemma {:induction false} FilterKeepsNone<T>(s: seq<T>, keep: T -> bool)
    requires forall k :: 0 <= k < |s| ==> !keep(s[k])
    ensures Filter(s, keep) == []
    decreases |s|
  {
    if s != [] {
      assert forall k :: 0 <= k < |s[1..]| ==> s[1..][k] == s[k + 1];
      FilterKeepsNone(s[1..], keep);
    }
  }

  lemma {:induction false} FilterIsSubseq<T>(s: seq<T>, keep: T -> bool)
    ensures SubseqOf(Filter(s, keep), s)
    decreases |s|
  {
    if s != [] {
      FilterIsSubseq(s[1..], keep);
      if !keep(s[0]) {
        SubseqSkip(Filter(s[1..], keep), s);
      }
    }
  }

  /** A subsequence of the tail of `s` is a subsequence of `s`. */
  lemma {:induction false} SubseqSkip<T>(r: seq<T>, s: seq<T>)
    requires s != [] && SubseqOf(r, s[1..])
    ensures SubseqOf(r, s)
    decreases |s|, 0
  {
    if r != [] && r[0] == s[0] {
      SubseqDropHead(r, s[1..]);
    }
  }

  lemma {:induction false} SubseqDropHead<T>(r: seq<T>, s: seq<T>)
    requires r != [] && SubseqOf(r, s)
    ensures SubseqOf(r[1..], s)
    decreases |s|, 1
  {
    if r[0] == s[0] {
      SubseqSkip(r[1..], s);
    } else {
      SubseqDropHead(r, s[1..]);
      SubseqSkip(r[1..], s);
    }
  }

  /** Number of elements of `s` that `p` accepts. */
  function Count<T>(s: seq<T>, p: T -> bool): (n: nat)
    ensures n <= |s|
    decreases |s|
  {
    if s == [] then 0 else (if p(s[0]) then 1 else 0) + Count(s[1..], p)
  }

  lemma {:induction false} CountIsFilterLength<T>(s: seq<T>, p: T -> bool)
    ensures Count(s, p) == |Filter(s, p)|
    decreases |s|
  {
    if s != [] {
      CountIsFilterLength(s[1..], p);
    }
  }

  /** A weaker test never counts fewer elements; where the two agree on every element, the counts are equal. */
  lemma {:induction false} CountImplies<T>(s: seq<T>, p: T -> bool, q: T -> bool)
    requires forall k :: 0 <= k < |s| ==> (p(s[k]) ==> q(s[k]))
    ensures Count(s, p) <= Count(s, q)
    ensures (forall k :: 0 <= k < |s| ==> (p(s[k]) <==> q(s[k]))) ==> Count(s, p) == Count(s, q)
    decreases |s|
  {
    if s != [] {
      assert forall k :: 0 <= k < |s[1..]| ==> s[1..][k] == s[k + 1];
      CountImplies(s[1..], p, q);
    }
  }

  lemma {:induction false} CountAppend<T>(s: seq<T>, x: T, p: T -> bool)
    ensures Count(s + [x], p) == Count(s, p) + (if p(x) then 1 else 0)
    decreases |s|
  {
    if s == [] {
      assert [x][1..] == [];
    } else {
      assert (s + [x])[1..] == s[1..] + [x];
      CountAppend(s[1..], x, p);
    }
  }

  /** Integer sum of `f` over `s` (a `reduce` with start 0). */
  function SumInt<T>(s: seq<T>, f: T -> int): int
    decreases |s|
  {
    if s == [] then 0 else f(s[0]) + SumInt(s[1..], f)
  }

  lemma {:induction false} SumIntAppend<T>(s: seq<T>, x: T, f: T -> int)
    ensures SumInt(s + [x], f) == SumInt(s, f) + f(x)
    decreases |s|
  {
    if s == [] {
      assert [x][1..] == [];
    } else {
      assert (s + [x])[1..] == s[1..] + [x];
      SumIntAppend(s[1..], x, f);
    }
  }

  /** Real-valued sum of `f` over `s` (JavaScript's `reduce((a, b) => a + ..., 0)`). */
  function SumReal<T>(s: seq<T>, f: T -> real): real
    decreases |s|
  {
    if s == [] then 0.0 else f(s[0]) + SumReal(s[1..], f)
  }

  /** One more element of `s` in a prefix sum. */
  lemma SumRealPrefixStep<T>(s: seq<T>, i: nat, f: T -> real)
    requires i < |s|
    ensures SumReal(s[..i + 1], f) == SumReal(s[..i], f) + f(s[i])
  {
    assert s[..i + 1] == s[..i] + [s[i]];
    SumRealAppend(s[..i], s[i], f);
  }

  /** One more element of `s` in a prefix count. */
  lemma CountPrefixStep<T>(s: seq<T>, i: nat, p: T -> bool)
    requires i < |s|
    ensures Count(s[..i + 1], p) == Count(s[..i], p) + (if p(s[i]) then 1 else 0)
  {
    assert s[..i + 1] == s[..i] + [s[i]];
    CountAppend(s[..i], s[i], p);
  }

  /** `h` added `n` times. */
  function RepeatAdd(n: nat, h: real): real {
    if n == 0 then 0.0 else h + RepeatAdd(n - 1, h)
  }

  lemma {:induction false} RepeatAddIsProduct(n: nat, h: real)
    ensures RepeatAdd(n, h) == (n as real) * h
  {
    if n > 0 {
      RepeatAddIsProduct(n - 1, h);
      assert ((n - 1) as real) * h + h == (n as real) * h;
    }
  }

  /** A sum of terms each at most `h` is at most `h` added once per term. */
  lemma {:induction false} SumRealAtMost<T>(s: seq<T>, f: T -> real, h: real)
    requires forall i :: 0 <= i < |s| ==> f(s[i]) <= h
    ensures SumReal(s, f) <= RepeatAdd(|s|, h)
    decreases |s|
  {
    if s != [] {
      assert forall i :: 0 <= i < |s| - 1 ==> s[1..][i] == s[i + 1];
      SumRealAtMost(s[1..], f, h);
    }
  }

  /** Dividing a bound on `n` copies by `n`. */
  lemma DivAtMost(a: real, n: real, h: real)
    requires n > 0.0 && a <= n * h
    ensures a / n <= h
  {
    assert a / n * n == a;
  }

  lemma {:induction false} SumRealAppend<T>(s: seq<T>, x: T, f: T -> real)
    ensures SumReal(s + [x], f) == SumReal(s, f) + f(x)
    decreases |s|
  {
    if s == [] {
      assert [x][1..] == [];
    } else {
      assert (s + [x])[1..] == s[1..] + [x];
      SumRealAppend(s[1..], x, f);
    }
  }

  lemma {:induction false} SumRealConcat<T>(a: seq<T>, b: seq<T>, f: T -> real)
    ensures SumReal(a + b, f) == SumReal(a, f) + SumReal(b, f)
    decreases |a|
  {
    if a == [] {
      assert a + b == b;
    } else {
      assert (a + b)[1..] == a[1..] + b;
      SumRealConcat(a[1..], b, f);
    }
  }

  /** Replacing one element changes the sum by the difference of the two terms. */
  /** Dropping element i lowers the sum by its value. */
  lemma SumRealRemove<T>(s: seq<T>, i: nat, f: T -> real)
    requires i < |s|
    ensures SumReal(s[..i] + s[i + 1..], f) == SumReal(s, f) - f(s[i])
  {
    var pre, x, post := s[..i], s[i], s[i + 1..];
    assert s == (pre + [x]) + post;
    SumRealAppend(pre, x, f);
    SumRealConcat(pre + [x], post, f);
    SumRealConcat(pre, post, f);
  }

  lemma SumRealUpdate<T>(s: seq<T>, k: nat, x: T, f: T -> real)
    requires k < |s|
    ensures SumReal(s[k := x], f) == SumReal(s, f) - f(s[k]) + f(x)
  {
    assert s == s[..k] + [s[k]] + s[k + 1..];
    assert s[k := x] == s[..k] + [x] + s[k + 1..];
    SumRealConcat(s[..k] + [s[k]], s[k + 1..], f);
    SumRealConcat(s[..k] + [x], s[k + 1..], f);
    SumRealAppend(s[..k], s[k], f);
    SumRealAppend(s[..k], x, f);
  }

  /** The elements of `s` are pairwise distinct under `key`. */
  ghost predicate DistinctBy<T, K>(s: seq<T>, key: T -> K)
  {
    forall i, j :: 0 <= i < j < |s| ==> key(s[i]) != key(s[j])
  }

  // ---------------------------------------------------------------------
  // Strings
  // ---------------------------------------------------------------------

  predicate IsDigit(c: char) { '0' <= c <= '9' }

  function DigitChar(d: int): (c: char)
    requires 0 <= d < 10
    ensures IsDigit(c) && c as int - '0' as int == d
  {
    ('0' as int + d) as char
  }

  /** PHP ctype_digit on a string: non-empty and every character is 0-9. */
  predicate AllDigits(s: string) {
    |s| > 0 && forall i :: 0 <= i < |s| ==> IsDigit(s[i])
  }

  /** Value of a string of decimal digits, most significant first. */
  function DigitsValue(s: string): (v: nat)
    requires forall i :: 0 <= i < |s| ==> IsDigit(s[i])
    decreases |s|
  {
    if s == [] then 0
    else
      assert IsDigit(s[|s| - 1]);
      DigitsValue(s[..|s| - 1]) * 10 + (s[|s| - 1] as int - '0' as int)
  }

  /** Decimal text of a natural number, without leading zeros. */
  function NatToDec(n: nat): (s: string)
    ensures |s| > 0 && forall i :: 0 <= i < |s| ==> IsDigit(s[i])
    decreases n
  {
    if n < 10 then [DigitChar(n)] else NatToDec(n / 10) + [DigitChar(n % 10)]
  }

  /** JavaScript String(n) and PHP string conversion of an integer. */
  function IntToDec(n: int): string {
    if n < 0 then "-" + NatToDec(-n) else NatToDec(n)
  }

  lemma {:induction false} NatToDecValue(n: nat)
    ensures DigitsValue(NatToDec(n)) == n
    decreases n
  {
    if n >= 10 {
      NatToDecValue(n / 10);
      var s := NatToDec(n);
      assert s[..|s| - 1] == NatToDec(n / 10);
    }
  }

  function Zeros(k: nat): (s: string)
    ensures |s| == k && forall i :: 0 <= i < k ==> s[i] == '0'
  {
    seq(k, _ => '0')
  }

  /**
   * JavaScript `s.padStart(3, '0')` and PHP `str_pad(s, 3, '0', STR_PAD_LEFT)`:
   * zeros are added on the left up to length 3; longer text is kept whole.
   */
  function PadLeft3(s: string): (r: string)
    ensures |r| == if |s| >= 3 then |s| else 3
    ensures |s| >= 3 ==> r == s
    ensures |s| < 3 ==> r == Zeros(3 - |s|) + s
  {
    if |s| >= 3 then s else Zeros(3 - |s|) + s
  }

  /** Leading zeros do not change the value of a digit string. */
  lemma {:induction false} LeadingZerosValue(k: nat, s: string)
    requires forall i :: 0 <= i < |s| ==> IsDigit(s[i])
    ensures forall i :: 0 <= i < |Zeros(k) + s| ==> IsDigit((Zeros(k) + s)[i])
    ensures DigitsValue(Zeros(k) + s) == DigitsValue(s)
    decreases |s|
  {
    var z := Zeros(k) + s;
    if s == [] {
      assert z == Zeros(k);
      ZerosValue(k);
    } else {
      var init := s[..|s| - 1];
      assert z[..|z| - 1] == Zeros(k) + init;
      LeadingZerosValue(k, init);
    }
  }

  lemma {:induction false} ZerosValue(k: nat)
    ensures DigitsValue(Zeros(k)) == 0
    decreases k
  {
    if k > 0 {
      assert Zeros(k)[..k - 1] == Zeros(k - 1);
      ZerosValue(k - 1);
    }
  }

  /**
   * Round trip of the 3-digit code suffix: the zero-padded decimal text of `n`
   * consists of digits only and reads back as `n`.
   */
  lemma PadLeft3RoundTrip(n: nat)
    ensures AllDigits(PadLeft3(NatToDec(n)))
    ensures DigitsValue(PadLeft3(NatToDec(n))) == n
  {
    var d := NatToDec(n);
    NatToDecValue(n);
    if |d| < 3 {
      LeadingZerosValue(3 - |d|, d);
    }
  }

  /** Distinct natural numbers give distinct padded codes. */
  lemma PadLeft3Injective(a: nat, b: nat)
    requires PadLeft3(NatToDec(a)) == PadLeft3(NatToDec(b))
    ensures a == b
  {
    PadLeft3RoundTrip(a);
    PadLeft3RoundTrip(b);
  }

  /** PHP truthiness of a string: "" and "0" are false, everything else true. */
  predicate PhpTruthy(s: string) { s != "" && s != "0" }

  /** Characters removed by PHP trim(): space, tab, newline, carriage return, NUL, vertical tab. */
  predicate IsPhpTrimChar(c: char) {
    c == ' ' || c == '\t' || c == '\n' || c == '\r' || c == '\0' || c == '\U{000B}'
  }

  /** White space removed by JavaScript String.prototype.trim() (the ASCII and Latin-1 part). */
  predicate IsJsSpace(c: char) {
    c == ' ' || c == '\t' || c == '\n' || c == '\r' || c == '\U{000B}' || c == '\U{000C}'
    || c == '\U{00A0}' || c == '\U{FEFF}'
  }

  /** Removes the leading characters accepted by `ws`. */
  function TrimLeft(s: string, ws: char -> bool): string
    decreases |s|
  {
    if s != [] && ws(s[0]) then TrimLeft(s[1..], ws) else s
  }

  /** Removes the trailing characters accepted by `ws`. */
  function TrimRight(s: string, ws: char -> bool): string
    decreases |s|
  {
    if s != [] && ws(s[|s| - 1]) then TrimRight(s[..|s| - 1], ws) else s
  }

  /** Removes leading and trailing characters accepted by `ws`. */
  function Trim(s: string, ws: char -> bool): string {
    TrimRight(TrimLeft(s, ws), ws)
  }

  /** TrimLeft drops exactly the longest prefix of trimmable characters. */
  lemma {:induction false} TrimLeftDropsPrefix(s: string, ws: char -> bool)
    ensures var r := TrimLeft(s, ws);
      |r| <= |s| && r == s[|s| - |r|..] && (r == [] || !ws(r[0]))
      && forall i :: 0 <= i < |s| - |r| ==> ws(s[i])
    decreases |s|
  {
    if s != [] && ws(s[0]) {
      TrimLeftDropsPrefix(s[1..], ws);
    }
  }

  /** TrimRight drops exactly the longest suffix of trimmable characters. */
  lemma {:induction false} TrimRightDropsSuffix(s: string, ws: char -> bool)
    ensures var r := TrimRight(s, ws);
      |r| <= |s| && r == s[..|r|] && (r == [] || !ws(r[|r| - 1]))
      && forall i :: |r| <= i < |s| ==> ws(s[i])
    decreases |s|
  {
    if s != [] && ws(s[|s| - 1]) {
      TrimRightDropsSuffix(s[..|s| - 1], ws);
    }
  }

  /** The trimmed text neither starts nor ends with a trimmable character. */
  lemma TrimEnds(s: string, ws: char -> bool)
    ensures var r := Trim(s, ws);
      |r| <= |s| && (r == [] || (!ws(r[0]) && !ws(r[|r| - 1])))
  {
    var l := TrimLeft(s, ws);
    TrimLeftDropsPrefix(s, ws);
    TrimRightDropsSuffix(l, ws);
    var r := TrimRight(l, ws);
    if r != [] {
      assert r[0] == l[0];
    }
  }

  /** A string made only of trimmable characters trims to "". */
  lemma {:induction false} TrimAllSpace(s: string, ws: char -> bool)
    requires forall i :: 0 <= i < |s| ==> ws(s[i])
    ensures Trim(s, ws) == ""
  {
    if s != [] {
      assert forall i :: 0 <= i < |s[1..]| ==> s[1..][i] == s[i + 1];
      TrimAllSpace(s[1..], ws);
    }
  }

  function PhpTrim(s: string): string { Trim(s, IsPhpTrimChar) }

  function JsTrim(s: string): string { Trim(s, IsJsSpace) }

  /** String.prototype.toLowerCase restricted to the ASCII letters. */
  function LowerAscii(s: string): (r: string)
    ensures |r| == |s|
    ensures forall i :: 0 <= i < |s| ==> r[i] == (if 'A' <= s[i] <= 'Z' then (s[i] as int + 32) as char else s[i])
  {
    seq(|s|, i requires 0 <= i < |s| => if 'A' <= s[i] <= 'Z' then (s[i] as int + 32) as char else s[i])
  }

  /** Lower-casing twice is lower-casing once. */
  lemma LowerAsciiIdempotent(s: string)
    ensures LowerAscii(LowerAscii(s)) == LowerAscii(s)
  {
  }

  predicate StartsWith(s: string, prefix: string) {
    |prefix| <= |s| && s[..|prefix|] == prefix
  }

  /** String.prototype.includes: `sub` occurs somewhere in `s`. */
  predicate Contains(s: string, sub: string)
    decreases |s|
  {
    StartsWith(s, sub) || (s != [] && Contains(s[1..], sub))
  }

  lemma {:induction false} ContainsAt(s: string, sub: string, k: nat)
    requires k + |sub| <= |s| && s[k..k + |sub|] == sub
    ensures Contains(s, sub)
    decreases k
  {
    if k > 0 {
      assert s[1..][k - 1..k - 1 + |sub|] == s[k..k + |sub|];
      ContainsAt(s[1..], sub, k - 1);
    }
  }

  lemma {:induction false} ContainsWitness(s: string, sub: string) returns (k: nat)
    requires Contains(s, sub)
    ensures k + |sub| <= |s| && s[k..k + |sub|] == sub
    decreases |s|
  {
    if StartsWith(s, sub) {
      k := 0;
    } else {
      var k' := ContainsWitness(s[1..], sub);
      k := k' + 1;
      assert s[k..k + |sub|] == s[1..][k'..k' + |sub|];
    }
  }

  /** Lexicographic order on strings, the order of MySQL string comparisons of DATETIME text. */
  predicate LexLe(a: string, b: string)
    decreases |a|
  {
    if a == [] then true
    else if b == [] then false
    else if a[0] < b[0] then true
    else if a[0] > b[0] then false
    else LexLe(a[1..], b[1..])
  }

  lemma {:induction false} LexLeRefl(a: string)
    ensures LexLe(a, a)
    decreases |a|
  {
    if a != [] {
      LexLeRefl(a[1..]);
    }
  }

  /** Same-width prefixes in order, followed by suffixes in order, stay in order. */
  lemma {:induction false} LexLeAppend(a: string, b: string, x: string, y: string)
    requires |a| == |b| && LexLe(a, b) && LexLe(x, y)
    ensures LexLe(a + x, b + y)
    decreases |a|
  {
    if a != [] {
      assert (a + x)[0] == a[0] && (b + y)[0] == b[0];
      assert (a + x)[1..] == a[1..] + x && (b + y)[1..] == b[1..] + y;
      if a[0] == b[0] {
        LexLeAppend(a[1..], b[1..], x, y);
      }
    } else {
      assert a + x == x && b + y == y;
    }
  }

  // ---------------------------------------------------------------------
  // Decimal numbers in text
  // ---------------------------------------------------------------------

  function Pow10(k: nat): (p: nat)
    ensures p >= 1
  {
    if k == 0 then 1 else 10 * Pow10(k - 1)
  }

  /** Length of the longest prefix of `s` made of decimal digits. */
  function DigitPrefixLen(s: string): (k: nat)
    ensures k <= |s|
    ensures forall i :: 0 <= i < k ==> IsDigit(s[i])
    ensures k < |s| ==> !IsDigit(s[k])
    decreases |s|
  {
    if s != [] && IsDigit(s[0]) then 1 + DigitPrefixLen(s[1..]) else 0
  }

  /** The longest prefix of `s` made of decimal digits. */
  function DigitPrefix(s: string): (p: string)
    ensures |p| == DigitPrefixLen(s) && p == s[..|p|]
    ensures forall i :: 0 <= i < |p| ==> IsDigit(p[i])
  {
    s[..DigitPrefixLen(s)]
  }

  lemma {:induction false} DigitPrefixOfDigits(s: string)
    requires forall i :: 0 <= i < |s| ==> IsDigit(s[i])
    ensures DigitPrefixLen(s) == |s|
  {
  }

  /** Value of `digits` read as the part after a decimal point. */
  function FractionValue(digits: string): real
    requires forall i :: 0 <= i < |digits| ==> IsDigit(digits[i])
  {
    DigitsValue(digits) as real / Pow10(|digits|) as real
  }

  /** Splits an optional leading sign off `s`: (is negative, rest). */
  function SplitSign(s: string): (string, bool) {
    if s != [] && (s[0] == '-' || s[0] == '+') then (s[1..], s[0] == '-') else (s, false)
  }

  function Signed(neg: bool, v: real): real { if neg then -v else v }

  /**
   * An unsigned decimal literal `ddd`, `ddd.`, `ddd.ddd` or `.ddd`, taken as a whole
   * (the grammar of JavaScript `Number(s)` after trimming and of PHP `is_numeric` without an exponent), or None.
   */
  function UnsignedDecimal(s: string): Option<real> {
    var digits := DigitPrefix(s);
    var k := |digits|;
    var whole := DigitsValue(digits) as real;
    if k == |s| then (if k > 0 then Some(whole) else None)
    else if s[k] != '.' then None
    else
      var frac := s[k + 1..];
      var m := DigitPrefixLen(frac);
      if m == |frac| && (k > 0 || m > 0) then Some(whole + FractionValue(frac)) else None
  }

  /**
   * The longest prefix of `s` of the form `ddd`, `ddd.ddd`, `ddd.` or `.ddd` after one
   * optional sign, as a value; None when it has no digit (`parseFloat`, and MySQL's
   * reading of a string as a number, which gives 0 instead).
   */
  function DecimalPrefix(s: string): Option<real> {
    var sp := SplitSign(s);
    var body := sp.0;
    var digits := DigitPrefix(body);
    var k := |digits|;
    var whole := DigitsValue(digits) as real;
    if k < |body| && body[k] == '.' then
      var frac := DigitPrefix(body[k + 1..]);
      if k == 0 && frac == [] then None else Some(Signed(sp.1, whole + FractionValue(frac)))
    else if k == 0 then None
    else Some(Signed(sp.1, whole))
  }

  /** PHP `intval` / `(int)` on a string: leading blanks, one sign, then the leading digits; 0 without any. */
  function PhpIntval(s: string): int {
    var sp := SplitSign(TrimLeft(s, IsPhpTrimChar));
    var v: int := DigitsValue(DigitPrefix(sp.0));
    if sp.1 then -v else v
  }

  /** A scalar field of a decoded JSON request body, or its absence. */
  datatype JsonScalar = Absent | JNull | JInt(i: int) | JBool(b: bool) | JText(s: string)

  /** PHP `isset`: present and not null. */
  predicate PhpIsset(x: JsonScalar) { !x.Absent? && !x.JNull? }

  /** `isset($x) ? (int)$x : 0` */
  function PhpIntCast(x: JsonScalar): int {
    match x
    case Absent => 0
    case JNull => 0
    case JInt(i) => i
    case JBool(b) => if b then 1 else 0
    case JText(s) => PhpIntval(s)
  }

  /** `$s ?: null` on a string: the falsy strings "" and "0" become NULL. */
  function NullIfFalsy(s: string): (r: Option<string>)
    ensures r.None? <==> !PhpTruthy(s)
    ensures r.Some? ==> r.value == s
  {
    if PhpTruthy(s) then Some(s) else None
  }

  predicate HasUpperAscii(s: string) { exists i :: 0 <= i < |s| && 'A' <= s[i] <= 'Z' }

  /** The password rule of the employee screens: at least eight characters, one of them A-Z. */
  predicate StrongPassword(pw: string) { |pw| >= 8 && HasUpperAscii(pw) }

  /** A display code: one letter, then the number left-padded with zeros to three characters. */
  function PrefixedCode(letter: char, n: int): string { [letter] + PadLeft3(IntToDec(n)) }

  /** A code reads back: its letter, then at least three digits whose value is the number. */
  lemma PrefixedCodeReadsBack(letter: char, n: nat)
    ensures var c := PrefixedCode(letter, n);
      c[0] == letter && |c| >= 4 && AllDigits(c[1..]) && DigitsValue(c[1..]) == n
  {
    PadLeft3RoundTrip(n);
    assert PrefixedCode(letter, n)[1..] == PadLeft3(NatToDec(n));
  }

  /** Distinct numbers get distinct codes. */
  lemma PrefixedCodeInjective(letter: char, a: nat, b: nat)
    requires PrefixedCode(letter, a) == PrefixedCode(letter, b)
    ensures a == b
  {
    assert PrefixedCode(letter, a)[1..] == PadLeft3(NatToDec(a));
    assert PrefixedCode(letter, b)[1..] == PadLeft3(NatToDec(b));
    PadLeft3Injective(a, b);
  }
}
