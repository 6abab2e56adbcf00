/** Products of float64 numbers (worker/internal/executor/executor.go, calcDelay): what is asked of their rounding, and
    the rounding of IEEE 754 binary64 itself. */
module FloatingPoint {

  // ---------- Real products and powers ----------

  function Product(x: real, y: real): real
  {
    x * y
  }

  function Power(x: real, n: nat): real
  {
    if n == 0 then 1.0 else Product(Power(x, n - 1), x)
  }

  lemma ProductGrows(x: real, a: real, b: real)
    requires 0.0 <= x && a <= b
    ensures Product(x, a) <= Product(x, b)
    ensures Product(a, x) <= Product(b, x)
  {
    assert x * b == x * a + x * (b - a);
  }

  lemma ProductsGrow(a: real, b: real, c: real, d: real)
    requires 0.0 <= a <= b && 0.0 <= c <= d
    ensures 0.0 <= Product(a, c) <= Product(b, d)
  {
    assert Product(a, 0.0) == 0.0;
    ProductGrows(a, 0.0, c);
    ProductGrows(a, c, d);
    ProductGrows(d, a, b);
  }

  lemma ProductOrder(a: real, b: real, c: real, d: real)
    ensures Product(Product(a, b), Product(c, d)) == Product(Product(a, c), Product(b, d))
    ensures Product(a, Product(b, c)) == Product(Product(a, b), c)
  {
    assert (a * b) * (c * d) == (a * c) * (b * d);
    assert a * (b * c) == (a * b) * c;
  }

  /** Bernoulli's inequality on both sides. */
  lemma {:induction false} PowerNearOne(u: real, n: nat)
    requires 0.0 <= u && n as real * u <= 0.5
    ensures 1.0 - n as real * u <= Power(1.0 - u, n)
    ensures Power(1.0 + u, n) <= 1.0 + 2.0 * (n as real * u)
  {
    if n > 0 {
      var t := (n - 1) as real * u;
      assert n as real * u == t + u;
      PowerNearOne(u, n - 1);
      ProductGrows(1.0 - u, 1.0 - t, Power(1.0 - u, n - 1));
      ProductGrows(1.0 + u, Power(1.0 + u, n - 1), 1.0 + 2.0 * t);
      Crossed(t, u);
    }
  }

  lemma {:induction false} PowerAround(u: real, n: nat)
    requires 0.0 <= u < 1.0
    ensures 0.0 <= Power(1.0 - u, n) <= 1.0 <= Power(1.0 + u, n)
  {
    if n > 0 {
      PowerAround(u, n - 1);
      ProductsGrow(Power(1.0 - u, n - 1), 1.0, 1.0 - u, 1.0);
      ProductsGrow(1.0, Power(1.0 + u, n - 1), 1.0, 1.0 + u);
    }
  }

  lemma Crossed(t: real, u: real)
    requires 0.0 <= u && 0.0 <= t && t + u <= 0.5
    ensures 1.0 - (t + u) <= Product(1.0 - t, 1.0 - u)
    ensures Product(1.0 + 2.0 * t, 1.0 + u) <= 1.0 + 2.0 * (t + u)
  {
    assert 0.0 <= t * u;
    assert t * u <= 0.5 * u;
  }

  // ---------- Roundings ----------

  /** How a float64 operation brings an exact result to a representable number; an overflow to infinity is a number
      above every cap. */
  type Rounding = real -> real

  ghost predicate Nearer(round: Rounding, x: real, y: real)
  {
    x <= y ==> round(x) <= round(y)
  }

  predicate KeepsWhole(round: Rounding, i: int)
  {
    round(i as real) == i as real
  }

  /** Never reverses an order, leaves representable numbers alone, and whole numbers of 32 bits are representable. */
  ghost predicate IsRounding(round: Rounding)
  {
    && (forall x, y :: Nearer(round, x, y))
    && (forall x :: round(round(x)) == round(x))
    && (forall i :: 0 <= i < 0x1_0000_0000 ==> KeepsWhole(round, i))
  }

  /** Changes x by at most a share of u. */
  ghost predicate Close(round: Rounding, u: real, x: real)
  {
    Product(x, 1.0 - u) <= round(x) <= Product(x, 1.0 + u)
  }

  ghost predicate Within(round: Rounding, u: real)
  {
    forall x :: 0.0 <= x ==> Close(round, u, x)
  }

  /** The two extremes of Within(_, u) are the scalings by 1 - u and by 1 + u. */
  function Scaling(f: real): Rounding
  {
    x => Product(x, f)
  }

  lemma ExtremesAreWithin(u: real)
    requires 0.0 <= u
    ensures Within(Scaling(1.0 - u), u) && Within(Scaling(1.0 + u), u)
  {
    var low, high := Scaling(1.0 - u), Scaling(1.0 + u);
    forall x | 0.0 <= x
      ensures Close(low, u, x) && Close(high, u, x)
    {
      ProductGrows(x, 1.0 - u, 1.0 + u);
    }
  }

  /** No rounding at all. */
  function Exact(x: real): real
  {
    x
  }

  /** Exact arithmetic is a rounding, and the only one without error. */
  lemma ExactIsRounding(round: Rounding)
    ensures IsRounding(Exact) && Within(Exact, 0.0)
    ensures Within(round, 0.0) ==> forall x :: 0.0 <= x ==> round(x) == Exact(x)
  {
    if Within(round, 0.0) {
      forall x | 0.0 <= x
        ensures round(x) == Exact(x)
      {
        assert Close(round, 0.0, x);
      }
    }
  }

  // ---------- binary64 ----------

  const TWO_52: real := 4503599627370496.0
  /** Half a unit in the last place of a number in [1, 2). */
  const HALF_ULP: real := 1.0 / 9007199254740992.0

  /** The nearest integer, the even one of two. */
  function NearestEven(x: real): int
  {
    var d := x - x.Floor as real;
    if d < 0.5 || (d == 0.5 && x.Floor % 2 == 0) then x.Floor else x.Floor + 1
  }

  /** Round to nearest, ties to even, for the numbers a delay can be: 53 significant bits from 1 on. Below 1 there is
      only 0, and the range of exponents does not matter under a 32-bit cap. */
  function Binary64(x: real): real
    decreases x.Floor
  {
    if x < 1.0 then x
    else if x < 2.0 then NearestEven(x * TWO_52) as real / TWO_52
    else 2.0 * Binary64(x / 2.0)
  }

  lemma NearestEvenGrows(x: real, y: real)
    requires x <= y
    ensures NearestEven(x) <= NearestEven(y)
  {
    assert x.Floor <= y.Floor;
  }

  lemma NearestEvenIsNear(x: real)
    ensures x - 0.5 <= NearestEven(x) as real <= x + 0.5
    ensures x == x.Floor as real ==> NearestEven(x) as real == x
  {
  }

  /** A significand in [1, 2] keeps its 53 bits. */
  lemma Binary64OfSignificand(k: int)
    requires 4503599627370496 <= k <= 9007199254740992
    ensures Binary64(k as real / TWO_52) == k as real / TWO_52
  {
    hide NearestEven;
    var x := k as real / TWO_52;
    assert x * TWO_52 == k as real;
    NearestEvenIsNear(k as real);
    if k == 9007199254740992 {
      assert x / 2.0 == 1.0;
      NearestEvenIsNear(TWO_52);
    }
  }

  /** The rounded significand, relative error and idempotence at once. */
  lemma {:induction false} Binary64Rounds(x: real)
    requires 1.0 <= x
    ensures x * (1.0 - HALF_ULP) <= Binary64(x) <= x * (1.0 + HALF_ULP)
    ensures 1.0 <= Binary64(x) && (x < 2.0 ==> Binary64(x) <= 2.0)
    ensures Binary64(Binary64(x)) == Binary64(x)
    decreases x.Floor
  {
    hide NearestEven;
    if x < 2.0 {
      NearestEvenIsNear(x * TWO_52);
      var k := NearestEven(x * TWO_52);
      NearestEvenIsNear(TWO_52);
      NearestEvenGrows(TWO_52, x * TWO_52);
      NearestEvenIsNear(2.0 * TWO_52);
      NearestEvenGrows(x * TWO_52, 2.0 * TWO_52);
      Binary64OfSignificand(k);
    } else {
      Binary64Rounds(x / 2.0);
    }
  }

  lemma {:induction false} Binary64Grows(x: real, y: real)
    requires x <= y
    ensures Binary64(x) <= Binary64(y)
    decreases y.Floor
  {
    hide NearestEven;
    if y >= 1.0 {
      Binary64Rounds(y);
      if x >= 2.0 {
        Binary64Grows(x / 2.0, y / 2.0);
      } else if x >= 1.0 {
        Binary64Rounds(x);
        if y < 2.0 {
          NearestEvenGrows(x * TWO_52, y * TWO_52);
        } else {
          Binary64Rounds(y / 2.0);
        }
      }
    }
  }

  function Doubling(t: nat): int
  {
    if t == 0 then 1 else 2 * Doubling(t - 1)
  }

  /** A 32-bit number over a power of two has few enough bits. */
  lemma {:induction false} Binary64KeepsBits(x: real, i: int, t: nat)
    requires 1.0 <= x && 0 <= i < 0x1_0000_0000 && x * TWO_52 == (i * Doubling(t)) as real
    ensures Binary64(x) == x
    decreases x.Floor
  {
    hide NearestEven;
    if x < 2.0 {
      NearestEvenIsNear(x * TWO_52);
    } else {
      assert t > 0;
      assert i * Doubling(t) == 2 * (i * Doubling(t - 1));
      Binary64KeepsBits(x / 2.0, i, t - 1);
    }
  }

  lemma Doubling52()
    ensures Doubling(52) as real == TWO_52
  {
    assert Doubling(10) == 1024;
    assert Doubling(20) == 1024 * 1024;
    assert Doubling(30) == 1024 * 1024 * 1024;
    assert Doubling(40) == 1024 * 1024 * 1024 * 1024;
    assert Doubling(50) == 1024 * 1024 * 1024 * 1024 * 1024;
  }

  lemma Binary64KeepsWhole(i: int)
    requires 0 <= i < 0x1_0000_0000
    ensures KeepsWhole(Binary64, i)
  {
    if i > 0 {
      Doubling52();
      Binary64KeepsBits(i as real, i, 52);
    }
  }

  /** binary64 is a rounding in both senses, so everything said of those holds of float64 products. */
  lemma Binary64IsRounding()
    ensures IsRounding(Binary64) && Within(Binary64, HALF_ULP)
  {
    forall x, y
      ensures Nearer(Binary64, x, y)
    {
      if x <= y {
        Binary64Grows(x, y);
      }
    }
    forall x
      ensures Binary64(Binary64(x)) == Binary64(x)
      ensures 0.0 <= x ==> Close(Binary64, HALF_ULP, x)
    {
      if x >= 1.0 {
        Binary64Rounds(x);
      }
    }
    forall i | 0 <= i < 0x1_0000_0000
      ensures KeepsWhole(Binary64, i)
    {
      Binary64KeepsWhole(i);
    }
  }

  function Distance(x: real, y: real): real
  {
    if x <= y then y - x else x - y
  }

  lemma NoIntegerNearer(x: real, k: int)
    ensures Distance(x, NearestEven(x) as real) <= Distance(x, k as real)
  {
    assert k <= x.Floor || k >= x.Floor + 1;
  }

  lemma {:induction false} NoSignificandNearer(x: real, y: real, k: int)
    requires 1.0 <= x < 2.0 && y == k as real / TWO_52
    ensures Distance(x, Binary64(x)) <= Distance(x, y)
  {
    NoIntegerNearer(x * TWO_52, k);
    hide NearestEven;
  }

  /** No float64 is nearer to x than its rounding. */
  lemma {:induction false} Binary64IsNearest(x: real, y: real)
    requires 1.0 <= x && Binary64(y) == y
    ensures Distance(x, Binary64(x)) <= Distance(x, y)
    decreases x.Floor
  {
    Binary64OfSignificand(4503599627370496);
    if x < 2.0 {
      if y < 1.0 {
        NoSignificandNearer(x, 1.0, 4503599627370496);
      } else if y < 2.0 {
        NoSignificandNearer(x, y, NearestEven(y * TWO_52));
      } else {
        NoSignificandNearer(x, 2.0, 9007199254740992);
      }
    } else {
      Binary64IsNearest(x / 2.0, if y < 2.0 then 1.0 else y / 2.0);
    }
    hide NearestEven;
  }

  /** Half way between two float64 numbers the even significand wins, below and above. */
  lemma Binary64TiesToEven()
    ensures Binary64(1.0 + 1.0 / 9007199254740992.0) == 1.0
    ensures Binary64(1.0 + 3.0 / 9007199254740992.0) == 1.0 + 2.0 / 4503599627370496.0
  {
    SignificandRounds(1.0 + 1.0 / 9007199254740992.0, 4503599627370496, 0.5);
    SignificandRounds(1.0 + 3.0 / 9007199254740992.0, 4503599627370497, 0.5);
    hide Binary64;
  }

  /** The rounding of a number in [1, 2) that has i units in the last place and a share d of the next. */
  lemma SignificandRounds(x: real, i: int, d: real)
    requires 1.0 <= x < 2.0 && 0.0 <= d < 1.0 && x * TWO_52 == i as real + d
    ensures Binary64(x) == (if d < 0.5 || (d == 0.5 && i % 2 == 0) then i else i + 1) as real / TWO_52
  {
    assert (i as real + d).Floor == i;
  }

  /** Rounding does not depend on the exponent. */
  lemma Binary64OfDouble(x: real, twice: real)
    requires 1.0 <= x && twice == 2.0 * x
    ensures Binary64(twice) == 2.0 * Binary64(x)
  {
    assert twice / 2.0 == x;
  }

  lemma Binary64Times16(x: real)
    requires 1.0 <= x
    ensures Binary64(16.0 * x) == 16.0 * Binary64(x)
  {
    Binary64OfDouble(x, 2.0 * x);
    Binary64OfDouble(2.0 * x, 4.0 * x);
    Binary64OfDouble(4.0 * x, 8.0 * x);
    Binary64OfDouble(8.0 * x, 16.0 * x);
    hide Binary64;
  }
}
