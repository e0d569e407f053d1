/**
 * Per-particle motion: the screen wrap-around, the size clamp and the speed
 * clamp of `Particle.update` and `Particle.applyForce`.
 */
module Kinematics {
  import opened Configs
  import JsMath

  /** `(v + extent) % extent` with JavaScript's sign-preserving remainder. */
  function Wrap(v: real, extent: real): real
    requires extent > 0.0
  {
    JsMath.Rem(v + extent, extent)
  }

  /** Anything no further than one extent to the left lands on the canvas. */
  lemma WrapInBounds(v: real, extent: real)
    requires extent > 0.0 && -extent <= v
    ensures 0.0 <= Wrap(v, extent) < extent
  {
    JsMath.RemOfNonNegative(v + extent, extent);
  }

  /** A coordinate already on the canvas is left where it is. */
  lemma WrapKeepsOnCanvas(v: real, extent: real)
    requires 0.0 <= v < extent
    ensures Wrap(v, extent) == v
  {
    var t := (v + extent) / extent;
    assert t * extent == v + extent;
    if t >= 2.0 {
      JsMath.ScaleBelow(2.0, t, extent);
      assert false;
    }
    if t < 1.0 {
      JsMath.ScaleAbove(1.0, t, extent);
      assert false;
    }
    assert t.Floor == 1;
    assert JsMath.Trunc(t) == 1;
  }

  /**
   * Further than one extent to the left, the remainder keeps the dividend's
   * sign: the coordinate lands left of the canvas, or at 0 exactly when
   * v + extent is a whole multiple of the extent.
   */
  lemma WrapFarLeftStaysOff(v: real, extent: real)
    requires extent > 0.0 && v < -extent
    ensures Wrap(v, extent) <= 0.0
    ensures Wrap(v, extent) == 0.0 <==> ((v + extent) / extent).Floor as real == (v + extent) / extent
  {
    JsMath.RemOfNegative(v + extent, extent);
    JsMath.RemZero(v + extent, extent);
  }

  /** `Math.max(lo, Math.min(s, hi))`. */
  function ClampSize(s: real, lo: real, hi: real): (r: real)
    ensures lo <= hi ==> lo <= r <= hi
    ensures lo <= s <= hi ==> r == s
  {
    JsMath.Max(lo, JsMath.Min(s, hi))
  }

  function SpeedSq(vx: real, vy: real): real {
    vx * vx + vy * vy
  }

  lemma SquareBelow(m: real, s: real)
    requires 0.0 <= m < s
    ensures m * m < s * s
  {
    if m == 0.0 {
      JsMath.ScaleAbove(s, 0.0, s);
      calc {
        m * m;
        == 0.0 * s;
        < s * s;
      }
    } else {
      JsMath.ScaleAbove(s, m, m);
      JsMath.ScaleAbove(s, m, s);
      calc {
        m * m;
        < s * m;
        == m * s;
        < s * s;
      }
    }
  }

  lemma SquareAtMost(s: real, m: real)
    requires 0.0 <= s <= m
    ensures s * s <= m * m
  {
    if s < m {
      SquareBelow(s, m);
    }
  }

  /**
   * For a distance d whose square is q, `d < r` and `d <= r` agree with the
   * squared comparisons, for any r.
   */
  lemma RootCompare(d: real, q: real, r: real)
    requires d >= 0.0 && d * d == q
    ensures d < r <==> 0.0 < r && q < r * r
    ensures d <= r <==> 0.0 <= r && q <= r * r
  {
    if r < 0.0 {
    } else if d < r {
      SquareBelow(d, r);
    } else {
      SquareAtMost(r, d);
      if r < d {
        SquareBelow(r, d);
      }
    }
  }

  /** Scaling a velocity of speed s by maxSpeed / s gives speed maxSpeed. */
  lemma RescaledSpeed(vx: real, vy: real, s: real, m: real)
    requires 0.0 <= m < s && s * s == SpeedSq(vx, vy)
    ensures SpeedSq(vx / s * m, vy / s * m) == m * m
  {
    var a := m / s;
    assert vx / s * m == vx * a;
    assert vy / s * m == vy * a;
    assert a * s == m;
    calc {
      SpeedSq(vx * a, vy * a);
      (vx * vx + vy * vy) * (a * a);
      (s * s) * (a * a);
      (a * s) * (a * s);
      m * m;
    }
  }

  lemma NonNegProduct(a: real, b: real)
    requires a >= 0.0 && b >= 0.0
    ensures a * b >= 0.0
  {
  }

  /** `Math.sqrt(vx * vx + vy * vy)`. */
  function Speed(cfg: Config, vx: real, vy: real): real {
    cfg.sqrt(SpeedSq(vx, vy))
  }

  /**
   * The velocity after `applyForce` has added the force: a velocity faster
   * than `maxSpeed` is scaled back onto the `maxSpeed` circle; a slower one is
   * kept as is. Its properties are the lemmas below.
   */
  function ClampVelocity(cfg: Config, vx: real, vy: real): (real, real)
    requires cfg.Valid()
  {
    var speed := Speed(cfg, vx, vy);
    if speed > cfg.maxSpeed then (vx / speed * cfg.maxSpeed, vy / speed * cfg.maxSpeed) else (vx, vy)
  }

  /** After the clamp the speed is at most maxSpeed. */
  lemma ClampWithinSpeed(cfg: Config, vx: real, vy: real)
    requires cfg.Valid()
    ensures var r := ClampVelocity(cfg, vx, vy); SpeedSq(r.0, r.1) <= cfg.maxSpeed * cfg.maxSpeed
  {
    JsMath.SquareNonNegative(vx);
    JsMath.SquareNonNegative(vy);
    cfg.Root(SpeedSq(vx, vy));
    var speed := cfg.sqrt(SpeedSq(vx, vy));
    if speed > cfg.maxSpeed {
      RescaledSpeed(vx, vy, speed, cfg.maxSpeed);
    } else {
      SquareAtMost(speed, cfg.maxSpeed);
    }
  }

  /** A velocity within maxSpeed is left alone. */
  lemma ClampExact(cfg: Config, vx: real, vy: real)
    requires cfg.Valid() && SpeedSq(vx, vy) <= cfg.maxSpeed * cfg.maxSpeed
    ensures ClampVelocity(cfg, vx, vy) == (vx, vy)
  {
    JsMath.SquareNonNegative(vx);
    JsMath.SquareNonNegative(vy);
    cfg.Root(SpeedSq(vx, vy));
    var speed := cfg.sqrt(SpeedSq(vx, vy));
    if speed > cfg.maxSpeed {
      SquareBelow(cfg.maxSpeed, speed);
      assert false;
    }
  }

  /** The clamp keeps the direction: the result is a non-negative multiple of the input. */
  lemma ClampKeepsDirection(cfg: Config, vx: real, vy: real)
    requires cfg.Valid()
    ensures var r := ClampVelocity(cfg, vx, vy);
      r.0 * vy == r.1 * vx && r.0 * vx >= 0.0 && r.1 * vy >= 0.0
  {
    var speed := Speed(cfg, vx, vy);
    if speed > cfg.maxSpeed {
      ScaledAlong(vx, vy, cfg.maxSpeed / speed);
      assert vx / speed * cfg.maxSpeed == vx * (cfg.maxSpeed / speed);
      assert vy / speed * cfg.maxSpeed == vy * (cfg.maxSpeed / speed);
      assert ClampVelocity(cfg, vx, vy).0 == vx * (cfg.maxSpeed / speed);
      assert ClampVelocity(cfg, vx, vy).1 == vy * (cfg.maxSpeed / speed);
    } else {
      JsMath.SquareNonNegative(vx);
      JsMath.SquareNonNegative(vy);
    }
  }

  /** A non-negative multiple of a vector lies along it. */
  lemma ScaledAlong(vx: real, vy: real, a: real)
    requires a >= 0.0
    ensures (vx * a) * vy == (vy * a) * vx && (vx * a) * vx >= 0.0 && (vy * a) * vy >= 0.0
  {
    JsMath.SquareNonNegative(vx);
    JsMath.SquareNonNegative(vy);
    NonNegProduct(vx * vx, a);
    NonNegProduct(vy * vy, a);
    assert (vx * a) * vx == (vx * vx) * a;
    assert (vy * a) * vy == (vy * vy) * a;
  }
}
