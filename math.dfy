/**
 * The arithmetic module src/tests/math.js and the values its test file expects. Numbers are
 * exact reals: binary floating-point rounding, NaN and the infinities are not modelled, and the
 * test values are all exact.
 */
module MathOps {

  /** A value, or the `Error` a call throws. */
  datatype Outcome = Value(value: real) | Thrown(message: string)

  const DivisionByZero := "No se puede dividir por cero"

  function Sumar(a: real, b: real): real {
    a + b
  }

  function Restar(a: real, b: real): real {
    a - b
  }

  function Multiplicar(a: real, b: real): real {
    a * b
  }

  /** `dividir`: throws on a zero divisor, otherwise the quotient, which times `b` gives `a`. */
  function Dividir(a: real, b: real): (r: Outcome)
    ensures r.Thrown? <==> b == 0.0
    ensures r.Thrown? ==> r.message == DivisionByZero
    ensures r.Value? ==> r.value * b == a
  {
    if b == 0.0 then Thrown(DivisionByZero) else Value(a / b)
  }

  /** `restar` undoes `sumar` and the other way round; `sumar` is commutative. */
  lemma SumarRestarInverse(a: real, b: real)
    ensures Restar(Sumar(a, b), b) == a
    ensures Sumar(Restar(a, b), b) == a
    ensures Sumar(a, b) == Sumar(b, a)
  {
  }

  /** `dividir` undoes `multiplicar` by any non-zero factor. */
  lemma DividirUndoesMultiplicar(a: real, b: real)
    requires b != 0.0
    ensures Dividir(Multiplicar(a, b), b) == Value(a)
  {
    var q := Dividir(Multiplicar(a, b), b).value;
    assert q * b == a * b;
    assert (q - a) * b == 0.0;
  }

  /** The expectations of src/tests/math.test.js. */
  lemma TestExpectations()
    ensures Sumar(2.0, 3.0) == 5.0 && Sumar(-1.0, 1.0) == 0.0
    ensures Restar(5.0, 3.0) == 2.0 && Restar(10.0, 7.0) == 3.0
    ensures Multiplicar(2.0, 4.0) == 8.0 && Multiplicar(-3.0, 5.0) == -15.0
    ensures Dividir(10.0, 2.0) == Value(5.0)
  {
  }
}
