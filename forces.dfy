/**
 * `Simulation.interact`: the attraction-matrix force between two particles,
 * applied to the first and, negated, to the second, when they are closer
 * than the interaction radius.
 */
module Forces {
  import opened Configs
  import opened Views
  import opened Kinematics
  import JsMath

  /** `CONFIG.attractionMatrix[a][b] * CONFIG.maxForce`. */
  function Strength(cfg: Config, a: int, b: int): real
    requires cfg.Valid() && cfg.IsType(a) && cfg.IsType(b)
  {
    cfg.attractionMatrix[a][b] * cfg.maxForce
  }

  /** `applyForce(fx, fy)` on a snapshot. */
  function Push<Id>(cfg: Config, v: Vitals<Id>, fx: real, fy: real): (w: Vitals<Id>)
    requires cfg.Valid()
    ensures SameButVelocity(w, v)
  {
    var vel := ClampVelocity(cfg, v.vx + fx, v.vy + fy);
    v.(vx := vel.0, vy := vel.1)
  }

  /** After a push the speed is within maxSpeed. */
  lemma PushWithinSpeed<Id>(cfg: Config, v: Vitals<Id>, fx: real, fy: real)
    requires cfg.Valid()
    ensures var w := Push(cfg, v, fx, fy); SpeedSq(w.vx, w.vy) <= cfg.maxSpeed * cfg.maxSpeed
  {
    var w := Push(cfg, v, fx, fy);
    var vel := ClampVelocity(cfg, v.vx + fx, v.vy + fy);
    ClampWithinSpeed(cfg, v.vx + fx, v.vy + fy);
    assert w.vx == vel.0 && w.vy == vel.1;
    calc {
      SpeedSq(w.vx, w.vy);
      == SpeedSq(vel.0, vel.1);
      <= cfg.maxSpeed * cfg.maxSpeed;
    }
  }

  /** A push that stays within maxSpeed adds the force exactly. */
  lemma PushExact<Id>(cfg: Config, v: Vitals<Id>, fx: real, fy: real)
    requires cfg.Valid() && SpeedSq(v.vx + fx, v.vy + fy) <= cfg.maxSpeed * cfg.maxSpeed
    ensures Push(cfg, v, fx, fy) == v.(vx := v.vx + fx, vy := v.vy + fy)
  {
    ClampExact(cfg, v.vx + fx, v.vy + fy);
  }

  /**
   * The force on the first particle: the unit vector towards the second,
   * scaled by the strength its type feels towards the second's type.
   */
  function ForceOn<Id>(cfg: Config, a: Vitals<Id>, b: Vitals<Id>): (f: (real, real))
    requires cfg.Valid() && cfg.IsType(a.kind) && cfg.IsType(b.kind)
    requires cfg.sqrt(DistSq(a.x, a.y, b)) != 0.0
  {
    var d := cfg.sqrt(DistSq(a.x, a.y, b));
    var s := Strength(cfg, a.kind, b.kind);
    ((b.x - a.x) / d * s, (b.y - a.y) / d * s)
  }

  /**
   * The force has the strength as its length and lies along the line between
   * the two particles, pointing towards the second for a positive strength
   * (attraction) and away from it for a negative one (repulsion).
   */
  lemma ForceAlongSeparation<Id>(cfg: Config, a: Vitals<Id>, b: Vitals<Id>)
    requires cfg.Valid() && cfg.IsType(a.kind) && cfg.IsType(b.kind)
    requires cfg.sqrt(DistSq(a.x, a.y, b)) != 0.0
    ensures var f := ForceOn(cfg, a, b);
      var s := Strength(cfg, a.kind, b.kind);
      var d := cfg.sqrt(DistSq(a.x, a.y, b));
      && f.0 * f.0 + f.1 * f.1 == s * s
      && f.0 * (b.y - a.y) == f.1 * (b.x - a.x)
      && f.0 * (b.x - a.x) + f.1 * (b.y - a.y) == s * d
  {
    var q := DistSq(a.x, a.y, b);
    var d := cfg.sqrt(q);
    cfg.Root(q);
    JsMath.RootSign(d, q);
    JsMath.UnitScaled(b.x - a.x, b.y - a.y, d, Strength(cfg, a.kind, b.kind));
  }

  /**
   * `interact(p1, p2)`. At distance 0 the source divides 0 by 0: the force is
   * NaN, and `applyForce`'s finiteness repair sets both velocities to 0.
   */
  function Interact<Id>(cfg: Config, a: Vitals<Id>, b: Vitals<Id>): (r: (Vitals<Id>, Vitals<Id>))
    requires cfg.Valid() && cfg.IsType(a.kind) && cfg.IsType(b.kind)
    ensures SameButVelocity(r.0, a) && SameButVelocity(r.1, b)
    ensures !(cfg.sqrt(DistSq(a.x, a.y, b)) < cfg.interactionRadius) ==> r == (a, b)
  {
    var distance := cfg.sqrt(DistSq(a.x, a.y, b));
    if distance < cfg.interactionRadius then
      if distance == 0.0 then
        (a.(vx := 0.0, vy := 0.0), b.(vx := 0.0, vy := 0.0))
      else
        var f := ForceOn(cfg, a, b);
        (Push(cfg, a, f.0, f.1), Push(cfg, b, -f.0, -f.1))
    else (a, b)
  }

  /** A pair at least the interaction radius apart is left alone (compared on squares). */
  lemma InteractOutOfRange<Id>(cfg: Config, a: Vitals<Id>, b: Vitals<Id>)
    requires cfg.Valid() && cfg.IsType(a.kind) && cfg.IsType(b.kind)
    requires !(DistSq(a.x, a.y, b) < cfg.interactionRadius * cfg.interactionRadius)
    ensures Interact(cfg, a, b) == (a, b)
  {
    var q := DistSq(a.x, a.y, b);
    JsMath.SquareNonNegative(b.x - a.x);
    JsMath.SquareNonNegative(b.y - a.y);
    cfg.Root(q);
    RootCompare(cfg.sqrt(q), q, cfg.interactionRadius);
  }

  /** A pair closer than the interaction radius ends with both speeds within maxSpeed. */
  lemma InteractInRange<Id>(cfg: Config, a: Vitals<Id>, b: Vitals<Id>)
    requires cfg.Valid() && cfg.IsType(a.kind) && cfg.IsType(b.kind)
    requires DistSq(a.x, a.y, b) < cfg.interactionRadius * cfg.interactionRadius
    ensures var r := Interact(cfg, a, b);
      && SpeedSq(r.0.vx, r.0.vy) <= cfg.maxSpeed * cfg.maxSpeed
      && SpeedSq(r.1.vx, r.1.vy) <= cfg.maxSpeed * cfg.maxSpeed
  {
    var q := DistSq(a.x, a.y, b);
    JsMath.SquareNonNegative(b.x - a.x);
    JsMath.SquareNonNegative(b.y - a.y);
    var d := cfg.sqrt(q);
    cfg.Root(q);
    RootCompare(d, q, cfg.interactionRadius);
    var r := Interact(cfg, a, b);
    if d == 0.0 {
      assert r == (a.(vx := 0.0, vy := 0.0), b.(vx := 0.0, vy := 0.0));
      JsMath.SquareNonNegative(cfg.maxSpeed);
      calc {
        SpeedSq(r.0.vx, r.0.vy);
        == SpeedSq(0.0, 0.0);
        == 0.0;
        <= cfg.maxSpeed * cfg.maxSpeed;
      }
      calc {
        SpeedSq(r.1.vx, r.1.vy);
        == SpeedSq(0.0, 0.0);
        == 0.0;
        <= cfg.maxSpeed * cfg.maxSpeed;
      }
    } else {
      JsMath.RootSign(d, q);
      var f := ForceOn(cfg, a, b);
      var w0, w1 := Push(cfg, a, f.0, f.1), Push(cfg, b, -f.0, -f.1);
      assert r == (w0, w1);
      PushWithinSpeed(cfg, a, f.0, f.1);
      PushWithinSpeed(cfg, b, -f.0, -f.1);
    }
  }

  /**
   * The forces are equal and opposite: when neither velocity needs clamping,
   * the pair's total velocity (its momentum, for equal masses) is unchanged.
   */
  lemma InteractConservesMomentum<Id>(cfg: Config, a: Vitals<Id>, b: Vitals<Id>)
    requires cfg.Valid() && cfg.IsType(a.kind) && cfg.IsType(b.kind)
    requires 0.0 < cfg.sqrt(DistSq(a.x, a.y, b)) < cfg.interactionRadius
    requires var f := ForceOn(cfg, a, b);
      && SpeedSq(a.vx + f.0, a.vy + f.1) <= cfg.maxSpeed * cfg.maxSpeed
      && SpeedSq(b.vx - f.0, b.vy - f.1) <= cfg.maxSpeed * cfg.maxSpeed
    ensures var r := Interact(cfg, a, b);
      && r.0.vx + r.1.vx == a.vx + b.vx
      && r.0.vy + r.1.vy == a.vy + b.vy
      && r.0.vx - a.vx == -(r.1.vx - b.vx)
  {
    var f := ForceOn(cfg, a, b);
    var r := Interact(cfg, a, b);
    var w0, w1 := Push(cfg, a, f.0, f.1), Push(cfg, b, -f.0, -f.1);
    assert r == (w0, w1);
    PushExact(cfg, a, f.0, f.1);
    assert b.vx + -f.0 == b.vx - f.0 && b.vy + -f.1 == b.vy - f.1;
    PushExact(cfg, b, -f.0, -f.1);
  }

  /** Two particles at the same spot within a positive radius both come to a halt. */
  lemma CoincidentPairHalts<Id>(cfg: Config, a: Vitals<Id>, b: Vitals<Id>)
    requires cfg.Valid() && cfg.IsType(a.kind) && cfg.IsType(b.kind)
    requires a.x == b.x && a.y == b.y && cfg.interactionRadius > 0.0
    ensures var r := Interact(cfg, a, b);
      && r.0.vx == 0.0 && r.0.vy == 0.0 && r.1.vx == 0.0 && r.1.vy == 0.0
  {
    var q := DistSq(a.x, a.y, b);
    assert q == 0.0;
    cfg.Root(q);
    JsMath.RootSign(cfg.sqrt(q), q);
  }
}
