/** Whole numbers held as float64: 53 significant bits, rounded to nearest with ties to even (section 4.3.1 of IEEE 754). */
module Floats {
  const TWO_53: int := 0x20_0000_0000_0000
  const TWO_52: int := 0x10_0000_0000_0000
  const TWO_63: int := 0x8000_0000_0000_0000

  function Pow2(e: nat): (p: nat)
    ensures p > 0
  {
    if e == 0 then 1 else 2 * Pow2(e - 1)
  }

  predicate Multiple(x: int, q: int, unit: int) {
    x == q * unit
  }

  /** The whole numbers a float64 holds exactly. */
  ghost predicate Representable(x: int) {
    exists q: int, e: nat :: -TWO_53 <= q <= TWO_53 && Multiple(x, q, Pow2(e))
  }

  /** How many of the low bits of `m` lie beyond 53 significant ones. */
  function Excess(m: nat): nat {
    if m < TWO_53 then 0 else 1 + Excess(m / 2)
  }

  /** The nearest multiple of `unit`, the even one of two as near. */
  function ToMultiple(m: nat, unit: nat): int
    requires unit > 0
  {
    var q, r := m / unit, m % unit;
    if 2 * r < unit || (2 * r == unit && q % 2 == 0) then q * unit else (q + 1) * unit
  }

  function Round(n: int): int {
    if n >= 0 then ToMultiple(n, Pow2(Excess(n))) else -ToMultiple(-n, Pow2(Excess(-n)))
  }

  lemma {:induction false} ExcessBounds(m: nat)
    ensures m < TWO_53 * Pow2(Excess(m))
    ensures Excess(m) > 0 ==> TWO_52 * Pow2(Excess(m)) <= m
    decreases m
  {
    if m >= TWO_53 {
      ExcessBounds(m / 2);
    }
  }

  lemma {:induction false} Pow2Grows(a: nat, b: nat)
    requires a <= b
    ensures exists k: nat :: k > 0 && Multiple(Pow2(b), k, Pow2(a))
    decreases b
  {
    if a == b {
      assert Multiple(Pow2(b), 1, Pow2(a));
    } else {
      Pow2Grows(a, b - 1);
      var k: nat :| k > 0 && Multiple(Pow2(b - 1), k, Pow2(a));
      assert Multiple(Pow2(b), 2 * k, Pow2(a));
    }
  }

  function Distance(a: int, b: int): nat {
    if a < b then b - a else a - b
  }

  lemma NearestMultiple(m: nat, unit: nat, j: int)
    requires unit > 0
    ensures Distance(m, ToMultiple(m, unit)) <= Distance(m, j * unit)
  {
    var q, r := m / unit, m % unit;
    assert m == q * unit + r;
    if j <= q {
      Scaled(q - j, unit);
      assert m - j * unit == (q - j) * unit + r;
    } else {
      Scaled(j - q - 1, unit);
      assert j * unit - m == (j - q - 1) * unit + (unit - r);
    }
    assert (q + 1) * unit == q * unit + unit;
  }

  lemma Scaled(k: int, unit: nat)
    requires k >= 0
    ensures k * unit >= 0
  {
  }

  /** At or above the least number of this size everything representable is a multiple of the unit. */
  lemma RepresentableIsMultiple(m: nat, x: int)
    requires Representable(x)
    ensures var unit := Pow2(Excess(m));
            (exists j: int :: Multiple(x, j, unit)) || (Excess(m) > 0 && x < TWO_52 * unit)
  {
    var k := Excess(m);
    var q: int, e: nat :| -TWO_53 <= q <= TWO_53 && Multiple(x, q, Pow2(e));
    if e >= k {
      Pow2Grows(k, e);
      var c: nat :| c > 0 && Multiple(Pow2(e), c, Pow2(k));
      Associates(q, c, Pow2(k));
      assert Multiple(x, q * c, Pow2(k));
    } else {
      Pow2Grows(e, k - 1);
      var c: nat :| c > 0 && Multiple(Pow2(k - 1), c, Pow2(e));
      AtMostScaled(q, c, Pow2(e));
      assert x <= TWO_53 * Pow2(k - 1) == TWO_52 * Pow2(k);
      if x == TWO_52 * Pow2(k) {
        assert Multiple(x, TWO_52, Pow2(k));
      }
    }
  }

  lemma Associates(a: int, b: int, c: int)
    ensures a * (b * c) == (a * b) * c
  {
  }

  lemma AtMostScaled(q: int, c: nat, p: nat)
    requires q <= TWO_53 && c > 0
    ensures q * p <= TWO_53 * (c * p)
  {
    assert q * p <= TWO_53 * p;
    assert p <= c * p;
    assert TWO_53 * p <= TWO_53 * (c * p);
  }

  lemma NearestOfPositive(m: nat, x: int)
    requires Representable(x)
    ensures Distance(m, ToMultiple(m, Pow2(Excess(m)))) <= Distance(m, x)
  {
    var unit := Pow2(Excess(m));
    ExcessBounds(m);
    RepresentableIsMultiple(m, x);
    if j: int :| Multiple(x, j, unit) {
      NearestMultiple(m, unit, j);
    } else {
      NearestMultiple(m, unit, TWO_52);
    }
  }

  lemma MultipleIsRepresentable(m: nat)
    ensures Representable(ToMultiple(m, Pow2(Excess(m))))
  {
    hide Pow2, ToMultiple, Multiple;
    var e := Excess(m);
    ExcessBounds(m);
    var q := EitherMultiple(m, Pow2(e), TWO_53);
  }

  lemma EitherMultiple(m: nat, unit: nat, bound: nat) returns (q: nat)
    requires unit > 0 && m < bound * unit
    ensures q <= bound && Multiple(ToMultiple(m, unit), q, unit)
  {
    QuotientBelow(m, unit, bound);
    q := m / unit;
    if !Multiple(ToMultiple(m, unit), q, unit) {
      q := q + 1;
    }
  }

  lemma QuotientBelow(m: nat, unit: nat, bound: nat)
    requires unit > 0 && m < bound * unit
    ensures m / unit < bound
  {
  }

  lemma NegatedIsRepresentable(x: int)
    requires Representable(x)
    ensures Representable(-x)
  {
    var q: int, e: nat :| -TWO_53 <= q <= TWO_53 && Multiple(x, q, Pow2(e));
    assert Multiple(-x, -q, Pow2(e));
  }

  /** Rounding answers a number a float64 holds, and no other it holds is nearer. */
  lemma RoundIsNearest(n: int, x: int)
    requires Representable(x)
    ensures Representable(Round(n)) && Distance(n, Round(n)) <= Distance(n, x)
  {
    if n >= 0 {
      MultipleIsRepresentable(n);
      NearestOfPositive(n, x);
    } else {
      MultipleIsRepresentable(-n);
      NegatedIsRepresentable(ToMultiple(-n, Pow2(Excess(-n))));
      NegatedIsRepresentable(x);
      NearestOfPositive(-n, -x);
    }
  }

  /** Of two as near it answers the even one, counted in steps of their distance. */
  lemma TiesGoToEven(n: int, x: int)
    requires Representable(x) && x != Round(n) && Distance(n, x) == Distance(n, Round(n))
    ensures exists q: int :: q % 2 == 0 && Multiple(Round(n), q, Distance(x, Round(n)))
  {
    if n >= 0 {
      PositiveTie(n, x);
    } else {
      NegatedIsRepresentable(x);
      PositiveTie(-n, -x);
      var q: int :| q % 2 == 0 && Multiple(Round(-n), q, Distance(-x, Round(-n)));
      assert Multiple(Round(n), -q, Distance(x, Round(n)));
    }
  }

  lemma PositiveTie(m: nat, x: int)
    requires Representable(x) && x != Round(m) && Distance(m, x) == Distance(m, Round(m))
    ensures exists q: int :: q % 2 == 0 && Multiple(Round(m), q, Distance(x, Round(m)))
  {
    var unit := Pow2(Excess(m));
    ExcessBounds(m);
    RepresentableIsMultiple(m, x);
    if j: int :| Multiple(x, j, unit) {
      TieBetweenMultiples(m, unit, j);
    } else {
      NearestMultiple(m, unit, TWO_52);
    }
  }

  lemma TieBetweenMultiples(m: nat, unit: nat, j: int)
    requires unit > 0 && j * unit != ToMultiple(m, unit)
    requires Distance(m, j * unit) == Distance(m, ToMultiple(m, unit))
    ensures exists q: int :: q % 2 == 0 && Multiple(ToMultiple(m, unit), q, Distance(j * unit, ToMultiple(m, unit)))
  {
    var q, r := m / unit, m % unit;
    HowFar(m, unit);
    OneOfTwo(m, unit, q, r, j);
    hide ToMultiple;
    var to, step := ToMultiple(m, unit), Distance(j * unit, ToMultiple(m, unit));
    assert step == unit && 2 * r == unit;
    if to == q * unit {
      assert q % 2 == 0 && Multiple(to, q, step);
    } else {
      assert (q + 1) % 2 == 0 && Multiple(to, q + 1, step);
    }
  }

  lemma HowFar(m: nat, unit: nat)
    requires unit > 0
    ensures var q, r := m / unit, m % unit;
            && m == q * unit + r && 0 <= r < unit && (q + 1) * unit == q * unit + unit
            && if 2 * r < unit || (2 * r == unit && q % 2 == 0) then ToMultiple(m, unit) == q * unit
               else ToMultiple(m, unit) == q * unit + unit
  {
  }

  /** A multiple no further from a number than the nearest is one of the two around it. */
  lemma OneOfTwo(m: nat, unit: nat, q: int, r: int, j: int)
    requires unit > 0 && m == q * unit + r && 0 <= r < unit && Distance(m, j * unit) < unit
    ensures j * unit == q * unit || j * unit == q * unit + unit
  {
    if j <= q {
      assert m - j * unit == (q - j) * unit + r;
      AtLeastOne(q - j, unit);
    } else {
      assert j * unit - m == (j - q - 1) * unit + (unit - r);
      AtLeastOne(j - q - 1, unit);
    }
  }

  lemma AtLeastOne(k: int, unit: nat)
    requires k >= 0
    ensures k == 0 ==> k * unit == 0
    ensures k > 0 ==> k * unit >= unit
  {
  }

  /** Go's conversion to int64; a value out of range gives the smallest one, as on amd64. */
  function ToInt64(v: int): int {
    if -TWO_63 <= v < TWO_63 then v else -TWO_63
  }

  /** Exactly the representable numbers come back from a float64. */
  lemma SurvivesExactly(n: int)
    requires -TWO_63 <= n < TWO_63
    ensures ToInt64(Round(n)) == n <==> Representable(n)
  {
    if Representable(n) {
      RoundIsNearest(n, n);
    } else {
      SmallIsRepresentable(0);
      RoundIsNearest(n, 0);
      MinIsRepresentable();
    }
  }

  lemma MinIsRepresentable()
    ensures Representable(-TWO_63)
  {
    assert Pow2(4) == 16 && Pow2(8) == 256;
    assert Pow2(11) == 2048;
    assert Multiple(-TWO_63, -TWO_52, Pow2(11));
  }

  lemma SmallIsRepresentable(n: int)
    requires -TWO_53 <= n <= TWO_53
    ensures Representable(n)
  {
    assert Multiple(n, n, Pow2(0));
  }

  /** The first whole number that does not survive. */
  lemma TheFirstLoss()
    ensures Round(TWO_53 + 1) == TWO_53 && !Representable(TWO_53 + 1)
  {
    assert Excess(TWO_53 + 1) == 1;
    assert Pow2(1) == 2;
    assert Round(TWO_53 + 1) == TWO_53;
    SurvivesExactly(TWO_53 + 1);
  }
}
