/**
 * The Handlebars helpers of src/lib/helpers.js: `isEqual` and `eq` (strict equality), the
 * strict comparisons `gt` and `lt`, the pagination arithmetic `inc`, `dec` and `totalPages`.
 * Template arguments are JavaScript values; numbers are `JsNumber`s, whose finite values are
 * exact reals (binary floating-point rounding is not modelled).
 */
module Helpers {

  datatype JsNumber = Finite(value: real) | NaN | PosInfinity | NegInfinity

  /** The primitive template values the helpers are applied to (objects are not modelled). */
  datatype JsValue = Undefined | Null | Boolean(b: bool) | Number(n: JsNumber) | Str(s: string)

  /** `a === b` on primitives: same type and value, except that NaN equals nothing. */
  predicate StrictEquals(a: JsValue, b: JsValue) {
    a == b && a != Number(NaN)
  }

  /** `isEqual`: render the block (`options.fn`) when `a === b`, the else block otherwise. */
  function IsEqual<R>(a: JsValue, b: JsValue, fn: R, inverse: R): (r: R)
  {
    if StrictEquals(a, b) then fn else inverse
  }

  /** `eq`: the boolean `a === b`. */
  function Eq(a: JsValue, b: JsValue): bool {
    StrictEquals(a, b)
  }

  /** The abstract relational comparison `a < b` on numbers; any NaN makes it false. */
  predicate Less(a: JsNumber, b: JsNumber) {
    && !a.NaN? && !b.NaN? && a != b
    && (a.NegInfinity? || b.PosInfinity? || (a.Finite? && b.Finite? && a.value < b.value))
  }

  /** `gt`: `a > b`. */
  function Gt(a: JsNumber, b: JsNumber): bool {
    Less(b, a)
  }

  /** `lt`: `a < b`. */
  function Lt(a: JsNumber, b: JsNumber): bool {
    Less(a, b)
  }

  function Add(a: JsNumber, d: real): JsNumber {
    match a
    case Finite(v) => Finite(v + d)
    case _ => a
  }

  /** `inc`: `value + 1`. */
  function Inc(v: JsNumber): JsNumber {
    Add(v, 1.0)
  }

  /** `dec`: `value - 1`. */
  function Dec(v: JsNumber): JsNumber {
    Add(v, -1.0)
  }

  /** `Math.ceil` of a real. */
  function Ceil(x: real): (c: int)
    ensures c as real - 1.0 < x <= c as real
  {
    -((-x).Floor)
  }

  /**
   * `totalPages`: `Math.ceil(totalItems / itemsPerPage)` on integer counts. Division by zero
   * gives an infinity of the dividend's sign, and NaN for 0 / 0.
   */
  function TotalPages(totalItems: int, itemsPerPage: int): (r: JsNumber)
    ensures itemsPerPage != 0 <==> r.Finite?
  {
    if itemsPerPage == 0 then
      if totalItems > 0 then PosInfinity else if totalItems < 0 then NegInfinity else NaN
    else Finite(Ceil(totalItems as real / itemsPerPage as real) as real)
  }

  // -----------------------------------------------------------------------------------------
  // What the helpers promise
  // -----------------------------------------------------------------------------------------

  /** `isEqual` picks the block exactly when `eq` holds, and `eq` is `===`. */
  lemma IsEqualFollowsEq<R>(a: JsValue, b: JsValue, fn: R, inverse: R)
    requires fn != inverse
    ensures IsEqual(a, b, fn, inverse) == fn <==> Eq(a, b)
    ensures IsEqual(a, b, fn, inverse) == inverse <==> !Eq(a, b)
  {
  }

  /** `===` is symmetric, never holds between different values, and fails only NaN against itself. */
  lemma StrictEqualsProperties(a: JsValue, b: JsValue)
    ensures StrictEquals(a, b) <==> StrictEquals(b, a)
    ensures StrictEquals(a, b) ==> a == b
    ensures !StrictEquals(a, a) <==> a == Number(NaN)
    ensures StrictEquals(Str("barber"), Str("barber")) && !StrictEquals(Number(Finite(1.0)), Str("1"))
  {
  }

  /** `gt` and `lt` are strict, irreflexive, never both true, and both false on NaN. */
  lemma ComparisonsAreStrict(a: JsNumber, b: JsNumber)
    ensures !(Gt(a, b) && Lt(a, b))
    ensures !Gt(a, a) && !Lt(a, a)
    ensures Gt(a, b) <==> Lt(b, a)
    ensures a.NaN? || b.NaN? ==> !Gt(a, b) && !Lt(a, b)
    ensures a.Finite? && b.Finite? ==> (Gt(a, b) <==> a.value > b.value) && (Lt(a, b) <==> a.value < b.value)
  {
  }

  /** `dec` undoes `inc` and the other way round, on every number. */
  lemma DecIncRoundTrip(v: JsNumber)
    ensures Dec(Inc(v)) == v
    ensures Inc(Dec(v)) == v
    ensures v.Finite? ==> Lt(v, Inc(v)) && Gt(v, Dec(v))
  {
  }

  /**
   * For a positive page size, `totalPages` is the least page count that holds every item:
   * `result * per >= total` and, when there is an item, `(result - 1) * per < total`.
   */
  lemma {:induction false} TotalPagesIsCeiling(totalItems: int, itemsPerPage: int)
    requires itemsPerPage > 0
    ensures TotalPages(totalItems, itemsPerPage).Finite?
    ensures var pages := TotalPages(totalItems, itemsPerPage).value;
      && pages == pages.Floor as real
      && pages * itemsPerPage as real >= totalItems as real
      && (pages - 1.0) * itemsPerPage as real < totalItems as real
    ensures totalItems == 0 ==> TotalPages(totalItems, itemsPerPage) == Finite(0.0)
    ensures totalItems > 0 ==> TotalPages(totalItems, itemsPerPage).value >= 1.0
  {
    var x := totalItems as real / itemsPerPage as real;
    var per := itemsPerPage as real;
    var c := Ceil(x) as real;
    CeilBounds(x, per, totalItems as real, c);
    assert TotalPages(totalItems, itemsPerPage).value == c;
    if totalItems == 0 {
      assert x == 0.0;
    }
  }

  /** Multiplying both sides of a strict inequality by a positive number keeps it. */
  lemma MulStrict(a: real, b: real, p: real)
    requires a < b && p > 0.0
    ensures a * p < b * p
  {
    var d := b - a;
    assert d * p > 0.0;
    assert b * p == a * p + d * p;
  }

  /** A number between `c - 1` (excluded) and `c`, times a positive factor. */
  lemma CeilBounds(x: real, per: real, total: real, c: real)
    requires per > 0.0 && x * per == total && c - 1.0 < x <= c
    ensures total <= c * per && (c - 1.0) * per < total
  {
    if x < c { MulStrict(x, c, per); }
    var d := c - 1.0;
    MulStrict(d, x, per);
    assert d * per < x * per;
    assert d * per < total;
  }

  /** Page counts quoted by the template: 0, 1 and 3 pages of ten, and what a page size of 0 does. */
  lemma TotalPagesExamples()
    ensures TotalPages(0, 10) == Finite(0.0)
    ensures TotalPages(10, 10) == Finite(1.0)
    ensures TotalPages(21, 10) == Finite(3.0)
    ensures TotalPages(5, 0) == PosInfinity && TotalPages(0, 0) == NaN
  {
    assert Ceil(21.0 / 10.0) == 3;
    assert Ceil(10.0 / 10.0) == 1;
  }
}
