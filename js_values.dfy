/**
 * The slice of JavaScript value semantics that the admin and employee pages
 * depend on: JSON field values, truthiness (`||`), nullish coalescing (`??`),
 * `String(x)`, `Number(x)`, `parseInt(s, 10)` and `parseFloat(s)`.
 *
 * Numbers are exact: a finite JavaScript number is a `real`, and floating-point
 * rounding, infinities, exponents and hexadecimal literals are not modelled.
 */
module JsValues {
  import opened Common

  /** A JavaScript number: NaN or a finite value. */
  datatype Num = NaN | Fin(v: real)

  /** A JSON field as the pages read it (integral numbers only). */
  datatype JsValue = Undefined | Null | Bool(b: bool) | Int(i: int) | Str(s: string)

  /** JavaScript truthiness, the test behind `a || b` and `if (a)`. */
  predicate Truthy(x: JsValue) {
    match x
    case Undefined => false
    case Null => false
    case Bool(b) => b
    case Int(i) => i != 0
    case Str(s) => s != ""
  }

  predicate IsNullish(x: JsValue) { x.Undefined? || x.Null? }

  /** `a || b` */
  function Or(a: JsValue, b: JsValue): (r: JsValue)
    ensures Truthy(a) ==> r == a
    ensures !Truthy(a) ==> r == b
  {
    if Truthy(a) then a else b
  }

  /** `a ?? b` */
  function Coalesce(a: JsValue, b: JsValue): (r: JsValue)
    ensures IsNullish(a) ==> r == b
    ensures !IsNullish(a) ==> r == a
  {
    if IsNullish(a) then b else a
  }

  /** `String(x)` */
  function ToStr(x: JsValue): string {
    match x
    case Undefined => "undefined"
    case Null => "null"
    case Bool(b) => if b then "true" else "false"
    case Int(i) => IntToDec(i)
    case Str(s) => s
  }

  /** `a + b` on numbers: NaN absorbs. */
  function NumAdd(a: Num, b: Num): Num {
    if a.NaN? || b.NaN? then NaN else Fin(a.v + b.v)
  }

  /** `a * b` on numbers: NaN absorbs. */
  function NumMul(a: Num, b: Num): Num {
    if a.NaN? || b.NaN? then NaN else Fin(a.v * b.v)
  }

  /** NaN is falsy, and so is 0. */
  predicate NumTruthy(n: Num) { n.Fin? && n.v != 0.0 }

  /** `Number(s)` for a string: blank text is 0, a decimal literal its value, anything else NaN. */
  function NumberOfString(s: string): Num {
    var t := JsTrim(s);
    if t == "" then Fin(0.0)
    else
      var sp := SplitSign(t);
      match UnsignedDecimal(sp.0)
      case Some(v) => Fin(Signed(sp.1, v))
      case None => NaN
  }

  /** `Number(x)` */
  function NumberOf(x: JsValue): Num {
    match x
    case Undefined => NaN
    case Null => Fin(0.0)
    case Bool(b) => Fin(if b then 1.0 else 0.0)
    case Int(i) => Fin(i as real)
    case Str(s) => NumberOfString(s)
  }

  /**
   * `parseInt(s, 10)`: leading white space and one sign are skipped, then the longest
   * run of digits is read; without a digit the result is NaN (None).
   */
  function ParseInt(s: string): Option<int> {
    var sp := SplitSign(TrimLeft(s, IsJsSpace));
    var digits := DigitPrefix(sp.0);
    if digits == [] then None
    else
      var v: int := DigitsValue(digits);
      Some(if sp.1 then -v else v)
  }

  /**
   * `parseFloat(s)`: leading white space is skipped, then the longest prefix of the
   * form `ddd`, `ddd.ddd` or `.ddd` after one optional sign is read; without a digit, NaN.
   */
  function ParseFloat(s: string): Num {
    match DecimalPrefix(TrimLeft(s, IsJsSpace))
    case None => NaN
    case Some(v) => Fin(v)
  }

  /** parseInt reads a non-empty run of digits back as its decimal value. */
  lemma ParseIntDigits(s: string)
    requires AllDigits(s)
    ensures ParseInt(s) == Some(DigitsValue(s))
  {
    assert !IsJsSpace(s[0]);
    assert TrimLeft(s, IsJsSpace) == s;
    assert SplitSign(s) == (s, false);
    DigitPrefixOfDigits(s);
    assert s[..|s|] == s;
  }

  /** parseInt reads back the zero-padded code suffix that the pages generate. */
  lemma ParseIntPadded(n: nat)
    ensures ParseInt(PadLeft3(NatToDec(n))) == Some(n)
  {
    PadLeft3RoundTrip(n);
    ParseIntDigits(PadLeft3(NatToDec(n)));
  }

  /** Number() reads a non-empty run of digits back as its decimal value. */
  lemma NumberOfDigits(s: string)
    requires AllDigits(s)
    ensures NumberOfString(s) == Fin(DigitsValue(s) as real)
  {
    assert !IsJsSpace(s[0]) && !IsJsSpace(s[|s| - 1]);
    assert JsTrim(s) == s;
    assert SplitSign(s) == (s, false);
    DigitPrefixOfDigits(s);
    assert s[..|s|] == s;
  }
}
