/**
 * The few pieces of JavaScript number semantics the simulation relies on,
 * stated over mathematical reals (no NaN, no infinities, no rounding).
 */
module JsMath {

  /** Truncation toward zero, as JavaScript's `%` uses for its quotient. */
  function Trunc(r: real): int {
    if r >= 0.0 then r.Floor else -((-r).Floor)
  }

  /**
   * JavaScript's `a % m`: the remainder of a truncating division, so it has
   * the sign of the dividend (unlike Dafny's Euclidean `%` on integers).
   */
  function Rem(a: real, m: real): real
    requires m != 0.0
  {
    a - m * (Trunc(a / m) as real)
  }

  lemma ScaleBelow(q: real, t: real, m: real)
    requires m > 0.0 && q <= t
    ensures q * m <= t * m
  {
  }

  lemma ScaleAbove(q: real, t: real, m: real)
    requires m > 0.0 && t < q
    ensures t * m < q * m
  {
  }

  /** The only factor that leaves a positive number unchanged is 1. */
  lemma UnitFactor(x: real, q: real)
    requires q > 0.0 && x * q == q
    ensures x == 1.0
  {
    if x < 1.0 {
      ScaleAbove(1.0, x, q);
    } else if x > 1.0 {
      ScaleAbove(x, 1.0, q);
    }
  }

  lemma SquareNonNegative(a: real)
    ensures a * a >= 0.0
  {
    if a > 0.0 {
      ScaleBelow(0.0, a, a);
    } else if a < 0.0 {
      assert a * a == (-a) * (-a);
      ScaleBelow(0.0, -a, -a);
    }
  }

  lemma PositiveSquare(a: real)
    requires a > 0.0
    ensures a * a > 0.0
  {
  }

  /** A non-negative root is 0 exactly when its square is, and positive exactly when its square is. */
  lemma RootSign(d: real, q: real)
    requires d >= 0.0 && d * d == q
    ensures q == 0.0 <==> d == 0.0
    ensures q > 0.0 <==> d > 0.0
  {
    if d > 0.0 {
      PositiveSquare(d);
      calc {
        q;
        == d * d;
        > 0.0;
      }
    } else {
      calc {
        q;
        == d * d;
        == 0.0 * 0.0;
        == 0.0;
      }
    }
  }

  /**
   * The vector (dx, dy) divided by its length d and scaled by s has length |s|,
   * lies along (dx, dy), and projects onto it as s * d.
   */
  lemma UnitScaled(dx: real, dy: real, d: real, s: real)
    requires d > 0.0 && d * d == dx * dx + dy * dy
    ensures var f0, f1 := dx / d * s, dy / d * s;
      && f0 * f0 + f1 * f1 == s * s
      && f0 * dy == f1 * dx
      && f0 * dx + f1 * dy == s * d
  {
    var q := dx * dx + dy * dy;
    RootSign(d, q);
    var ux, uy := dx / d, dy / d;
    assert ux * d == dx && uy * d == dy;
    calc {
      (ux * ux + uy * uy) * q;
      == (ux * d) * (ux * d) + (uy * d) * (uy * d);
      == q;
    }
    UnitFactor(ux * ux + uy * uy, q);
    calc {
      (ux * s) * (ux * s) + (uy * s) * (uy * s);
      == (ux * ux + uy * uy) * (s * s);
      == s * s;
    }
    calc {
      (ux * s) * dy;
      == (ux * s) * (uy * d);
      == (uy * s) * (ux * d);
      == (uy * s) * dx;
    }
    calc {
      (ux * s) * dx + (uy * s) * dy;
      == (ux * s) * (ux * d) + (uy * s) * (uy * d);
      == (ux * ux + uy * uy) * (s * d);
      == s * d;
    }
  }

  /** A non-negative dividend leaves a remainder in [0, m). */
  lemma RemOfNonNegative(a: real, m: real)
    requires m > 0.0 && a >= 0.0
    ensures 0.0 <= Rem(a, m) < m
  {
    var t := a / m;
    var qr := t.Floor as real;
    assert Trunc(t) as real == qr;
    assert t * m == a;
    ScaleBelow(qr, t, m);
    ScaleAbove(qr + 1.0, t, m);
    assert (qr + 1.0) * m == qr * m + m;
    assert Rem(a, m) == a - m * qr;
    assert m * qr == qr * m;
    assert t * m < qr * m + m;
    assert a - qr * m < m;
  }

  /** A negative dividend leaves a remainder in (-m, 0]: the sign survives. */
  lemma RemOfNegative(a: real, m: real)
    requires m > 0.0 && a < 0.0
    ensures -m < Rem(a, m) <= 0.0
  {
    var t := -a / m;
    var q := t.Floor;
    assert a / m == -t;
    assert Trunc(a / m) == -q;
    assert t * m == -a;
    ScaleBelow(q as real, t, m);
    ScaleAbove(q as real + 1.0, t, m);
  }

  /** The remainder is 0 exactly when the quotient is a whole number. */
  lemma RemZero(a: real, m: real)
    requires m > 0.0
    ensures Rem(a, m) == 0.0 <==> (a / m).Floor as real == a / m
  {
    var t := a / m;
    assert a == m * t;
    assert Rem(a, m) == m * (t - Trunc(t) as real);
    if Rem(a, m) == 0.0 {
      if t - Trunc(t) as real > 0.0 {
        ScaleAbove(t - Trunc(t) as real, 0.0, m);
      } else if t - Trunc(t) as real < 0.0 {
        ScaleAbove(0.0, t - Trunc(t) as real, m);
      }
      assert Trunc(t) as real == t;
      if t < 0.0 {
        assert t == -((-t).Floor as real);
        assert t.Floor == -((-t).Floor);
      }
    }
  }

  /** A dividend already in [0, m) is its own remainder. */
  lemma RemOfSmall(a: real, m: real)
    requires 0.0 <= a < m
    ensures Rem(a, m) == a
  {
    var t := a / m;
    assert t * m == a;
    if t >= 1.0 {
      ScaleBelow(1.0, t, m);
      assert false;
    }
    assert Trunc(t) == 0;
  }

  /**
   * `Math.floor(r * n)` for a `Math.random()` draw r in [0, 1): always an index
   * of a collection of n elements.
   */
  function FloorIndex(r: real, n: nat): (k: nat)
    requires 0.0 <= r < 1.0 && n > 0
    ensures k < n
  {
    ScaleAbove(1.0, r, n as real);
    (r * (n as real)).Floor
  }

  function Min(a: real, b: real): real { if a <= b then a else b }

  function Max(a: real, b: real): real { if a >= b then a else b }
}
