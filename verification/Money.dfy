/** Amounts as exact reals, and rounding to cents, half away from zero. */
module Money {

  /** A real cut to an integer toward zero. */
  function Truncate(x: real): int {
    if x >= 0.0 then x.Floor else -((-x).Floor)
  }

  /** The cents an amount rounds to. */
  function Cents(f: real): int {
    if f >= 0.0 then Truncate(f * 100.0 + 0.5) else Truncate(f * 100.0 - 0.5)
  }

  function Round2(f: real): real {
    Cents(f) as real / 100.0
  }

  /** Rounding moves an amount by at most half a cent, and by a full half only away from zero; it keeps the sign. */
  lemma CentsNearest(f: real)
    ensures -0.5 <= f * 100.0 - Cents(f) as real <= 0.5
    ensures f >= 0.0 ==> f * 100.0 - Cents(f) as real < 0.5
    ensures f <= 0.0 ==> f * 100.0 - Cents(f) as real > -0.5
    ensures f >= 0.0 ==> Cents(f) >= 0
    ensures f <= 0.0 ==> Cents(f) <= 0
    ensures Cents(-f) == -Cents(f)
  {
  }

  lemma CentsExact(c: int)
    ensures Cents(c as real / 100.0) == c
  {
    if c < 0 {
      CentsNearest(-c as real / 100.0);
    }
  }

  /** Whole cents of the same sign pass through rounding unchanged. */
  lemma CentsShift(f: real, c: int)
    requires (f >= 0.0 && c >= 0) || (f < 0.0 && c <= 0)
    ensures Cents(f + c as real / 100.0) == Cents(f) + c
  {
    var g := f + c as real / 100.0;
    assert g * 100.0 == f * 100.0 + c as real;
    if f < 0.0 {
      assert (-(g * 100.0 - 0.5)) == -(f * 100.0 - 0.5) + (-c) as real;
    }
  }

  function Sum(amounts: seq<real>): real {
    if amounts == [] then 0.0 else Sum(amounts[..|amounts| - 1]) + amounts[|amounts| - 1]
  }

  lemma SumAppend(amounts: seq<real>, a: real)
    ensures Sum(amounts + [a]) == Sum(amounts) + a
  {
    assert (amounts + [a])[..|amounts|] == amounts;
  }
}
