/**
 * The integer vector `Vec2i` of Vec2.cs: a value with two `int` components,
 * its named constants, the W/H aliases and the arithmetic operators.
 *
 * C# `/` on `int` truncates toward zero, while Dafny's `/` is Euclidean, so
 * division goes through `Quot`, which is proved to be C#'s quotient.
 * Components are unbounded integers: 32-bit wrap-around is not modelled.
 */
module Vectors {

  datatype Vec2i = Vec2i(x: int, y: int)
  {
    /** Vec2.cs:14-18: W reads X. */
    function W(): (r: int)
      ensures Vec2i(r, y) == this
    {
      x
    }

    /** Vec2.cs:20-24: H reads Y. */
    function H(): (r: int)
      ensures Vec2i(x, r) == this
    {
      y
    }

    /** Vec2.cs:17: setting W writes X. */
    function WithW(value: int): (r: Vec2i)
      ensures r.W() == value && r.x == value && r.H() == H()
    {
      this.(x := value)
    }

    /** Vec2.cs:23: setting H writes Y. */
    function WithH(value: int): (r: Vec2i)
      ensures r.H() == value && r.y == value && r.W() == W()
    {
      this.(y := value)
    }
  }

  /** Vec2.cs:32-36: both components set to `xy`; the C# default argument is 0. */
  function Splat(xy: int := 0): (v: Vec2i)
    ensures v.x == v.y == xy
  {
    Vec2i(xy, xy)
  }

  /** Vec2.cs:5-9. */
  const Zero: Vec2i := Splat(0)
  const Right: Vec2i := Vec2i(1, 0)
  const Left: Vec2i := Vec2i(-1, 0)
  const Up: Vec2i := Vec2i(0, -1)
  const Down: Vec2i := Vec2i(0, 1)

  function Abs(a: int): nat
  {
    if a < 0 then -a else a
  }

  /**
   * C#'s `int` division: the quotient truncated toward zero.  The remainder
   * it leaves is smaller than the divisor in magnitude and has the sign of
   * the dividend, which is what tells truncation from Euclidean division.
   */
  function Quot(a: int, b: int): (q: int)
    requires b != 0
    ensures Abs(a - q * b) < Abs(b)
    ensures a - q * b == 0 || (a - q * b < 0 <==> a < 0)
  {
    var m := Abs(a) / Abs(b);
    QuotMagnitude(a, b, m);
    if (a < 0) == (b < 0) then m else -m
  }

  /** The Euclidean quotient of the magnitudes leaves a remainder below |b| of the dividend's sign. */
  lemma QuotMagnitude(a: int, b: int, m: int)
    requires b != 0 && m == Abs(a) / Abs(b)
    ensures var q := if (a < 0) == (b < 0) then m else -m;
      Abs(a - q * b) < Abs(b) && (a - q * b == 0 || (a - q * b < 0 <==> a < 0))
  {
    var r := Abs(a) - m * Abs(b);
    assert 0 <= r < Abs(b);
    var q := if (a < 0) == (b < 0) then m else -m;
    if a >= 0 {
      if b > 0 {
        assert a - q * b == r;
      } else {
        assert q * b == m * Abs(b);
        assert a - q * b == r;
      }
    } else {
      if b < 0 {
        assert q * b == -(m * Abs(b));
        assert a - q * b == -r;
      } else {
        assert q * b == -(m * Abs(b));
        assert a - q * b == -r;
      }
    }
  }

  /** C#'s `int` remainder: what truncating division leaves over, with the dividend's sign. */
  function Rem(a: int, b: int): (r: int)
    requires b != 0
    ensures Abs(r) < Abs(b) && (r == 0 || (r < 0 <==> a < 0))
  {
    a - Quot(a, b) * b
  }

  /** Truncation and Euclidean division agree on a non-negative dividend and a positive divisor. */
  lemma QuotNonNegative(a: int, b: int)
    requires a >= 0 && b > 0
    ensures Quot(a, b) == a / b && Rem(a, b) == a % b
  {
  }

  /** They differ on a negative dividend that b does not divide: C# gives -7 / 2 == -3. */
  lemma QuotTruncates()
    ensures Quot(-7, 2) == -3 && -7 / 2 == -4
  {
  }

  /** Negating the dividend negates the quotient, which Euclidean division does not do. */
  lemma QuotOdd(a: int, b: int)
    requires b != 0
    ensures Quot(-a, b) == -Quot(a, b)
  {
    assert Abs(-a) == Abs(a);
  }

  /** Dividing a multiple of b by b recovers the factor. */
  lemma QuotCancels(a: int, b: int)
    requires b != 0
    ensures Quot(a * b, b) == a
  {
    AbsMul(a, b);
    NatMulDiv(Abs(a), Abs(b));
  }

  lemma AbsMul(a: int, b: int)
    ensures Abs(a * b) == Abs(a) * Abs(b)
    ensures a * b < 0 <==> (a < 0 && b > 0) || (a > 0 && b < 0)
  {
    if a < 0 && b < 0 {
      assert a * b == (-a) * (-b);
    } else if a < 0 {
      assert a * b == -((-a) * b);
    } else if b < 0 {
      assert a * b == -(a * (-b));
    }
  }

  lemma NatMulDiv(x: nat, y: nat)
    requires y > 0
    ensures x * y / y == x
  {
    var q, r := x * y / y, x * y % y;
    assert x * y == q * y + r && 0 <= r < y;
    assert (x - q) * y == r;
    if x > q {
      MulMono(x - q, y);
    } else if x < q {
      MulMono(q - x, y);
    }
  }

  lemma MulMono(k: int, y: int)
    requires k >= 1 && y > 0
    ensures k * y >= y
  {
    var j := k - 1;
    assert k * y == j * y + y;
    assert j * y >= 0;
  }

  /** Vec2.cs:40. */
  function Add(lhs: Vec2i, rhs: Vec2i): (r: Vec2i)
    ensures Sub(r, rhs) == lhs && Sub(r, lhs) == rhs
  {
    Vec2i(lhs.x + rhs.x, lhs.y + rhs.y)
  }

  /** Vec2.cs:41. */
  function Sub(lhs: Vec2i, rhs: Vec2i): (r: Vec2i)
    ensures Vec2i(r.x + rhs.x, r.y + rhs.y) == lhs
  {
    Vec2i(lhs.x - rhs.x, lhs.y - rhs.y)
  }

  /** Vec2.cs:42. */
  function Neg(op: Vec2i): (r: Vec2i)
    ensures r == Sub(Zero, op) && Vec2i(-r.x, -r.y) == op
  {
    Vec2i(-op.x, -op.y)
  }

  /** Vec2.cs:43: component-wise product. */
  function Mul(lhs: Vec2i, rhs: Vec2i): (r: Vec2i)
    ensures r.x == 0 <==> lhs.x == 0 || rhs.x == 0
    ensures r.y == 0 <==> lhs.y == 0 || rhs.y == 0
  {
    Vec2i(lhs.x * rhs.x, lhs.y * rhs.y)
  }

  /** Vec2.cs:44: component-wise C# division; a zero component of the divisor throws. */
  function Div(lhs: Vec2i, rhs: Vec2i): (r: Vec2i)
    requires rhs.x != 0 && rhs.y != 0
    ensures Abs(lhs.x - r.x * rhs.x) < Abs(rhs.x) && Abs(lhs.y - r.y * rhs.y) < Abs(rhs.y)
    ensures lhs.x - r.x * rhs.x == 0 || (lhs.x - r.x * rhs.x < 0 <==> lhs.x < 0)
    ensures lhs.y - r.y * rhs.y == 0 || (lhs.y - r.y * rhs.y < 0 <==> lhs.y < 0)
  {
    Vec2i(Quot(lhs.x, rhs.x), Quot(lhs.y, rhs.y))
  }

  /** Vec2.cs:45. */
  function Scale(lhs: Vec2i, rhs: int): (r: Vec2i)
    ensures r == Mul(lhs, Splat(rhs))
  {
    Vec2i(lhs.x * rhs, lhs.y * rhs)
  }

  /** Vec2.cs:46: both components divided by the scalar as C# does; a zero divisor throws. */
  function DivScalar(lhs: Vec2i, rhs: int): (r: Vec2i)
    requires rhs != 0
    ensures Abs(lhs.x - r.x * rhs) < Abs(rhs) && Abs(lhs.y - r.y * rhs) < Abs(rhs)
    ensures lhs.x - r.x * rhs == 0 || (lhs.x - r.x * rhs < 0 <==> lhs.x < 0)
    ensures lhs.y - r.y * rhs == 0 || (lhs.y - r.y * rhs < 0 <==> lhs.y < 0)
    ensures r == Div(lhs, Splat(rhs))
  {
    Vec2i(Quot(lhs.x, rhs), Quot(lhs.y, rhs))
  }

  /** Addition is a commutative group with Zero as identity, Neg as inverse and Sub as u + (-v). */
  lemma AddGroup(u: Vec2i, v: Vec2i, w: Vec2i)
    ensures Add(u, v) == Add(v, u)
    ensures Add(Add(u, v), w) == Add(u, Add(v, w))
    ensures Add(u, Zero) == u && Add(u, Neg(u)) == Zero
    ensures Sub(u, v) == Add(u, Neg(v)) && Neg(Neg(u)) == u
  {
  }

  /** Scaling by k and then dividing by k gives the vector back. */
  lemma ScaleThenDivide(v: Vec2i, k: int)
    requires k != 0
    ensures DivScalar(Scale(v, k), k) == v
  {
    QuotCancels(v.x, k);
    QuotCancels(v.y, k);
  }

  /** Component-wise multiplication by a vector with no zero component is undone by Div. */
  lemma MulThenDivide(u: Vec2i, v: Vec2i)
    requires v.x != 0 && v.y != 0
    ensures Div(Mul(u, v), v) == u
  {
    QuotCancels(u.x, v.x);
    QuotCancels(u.y, v.y);
  }

  /** Division truncates toward zero component-wise, so it commutes with negation. */
  lemma DivideTowardZero(v: Vec2i, k: int)
    requires k != 0
    ensures DivScalar(Neg(v), k) == Neg(DivScalar(v, k))
  {
    QuotOdd(v.x, k);
    QuotOdd(v.y, k);
  }
}
