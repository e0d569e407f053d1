/**
 * `Particle` (js/particle.js): a particle whose fields its own methods, the
 * effects other particles cast and the timer callbacks update in place.
 */
module Particles {
  import opened Wrappers
  import opened Configs
  import opened Views
  import opened Sequences
  import Kinematics
  import JsMath
  import Spells
  import Ramps

  /**
   * The caster-side effect state: what the drawing code reads back, plus what
   * each pending timer callback has captured (the particle array passed to
   * the effect, and the entanglement target).
   */
  datatype Aura = Aura(
    shieldActive: bool,
    blackHoleRadius: real,
    pentagram: Ramps.Ramp,
    vortexProgress: real,
    hasFractalPoints: bool,
    supernova: Ramps.Ramp,
    timeWarpActive: bool,
    atom: Ramps.Ramp,
    atomAngle: real,
    lightningTarget: Particle?,
    blackHoleScope: seq<Particle>,
    pentagramScope: seq<Particle>,
    supernovaScope: seq<Particle>,
    timeWarpScope: seq<Particle>,
    atomScope: seq<Particle>,
    entanglementPartner: Particle?)

  /** The effect state of a new particle: nothing active, nothing pending. */
  const Calm: Aura := Aura(false, 0.0, Ramps.Idle, 0.0, false, Ramps.Idle, false, Ramps.Idle, 0.0,
                           null, [], [], [], [], [], null)

  class Particle {
    var x: real
    var y: real
    var vx: real
    var vy: real
    /** The particle's type (`type` in the source). */
    const kind: int
    var size: real
    var age: nat
    var health: real
    var isAlive: bool
    var magicCooldown: nat

    var shieldActive: bool
    var blackHoleRadius: real
    /** pentagramProgress, as a tick count of 0.05 each, and whether its interval runs. */
    var pentagram: Ramps.Ramp
    var vortexProgress: real
    /** Whether `fractalPoints` is non-empty. */
    var hasFractalPoints: bool
    /** supernovaProgress: null exactly when the ramp is not running. */
    var supernova: Ramps.Ramp
    var timeWarpActive: bool
    var entangledParticle: Particle?
    /** atomProgress, as a tick count of 0.02 each; atomActive is whether it runs. */
    var atom: Ramps.Ramp
    var atomAngle: real
    var lightningTarget: Particle?

    var blackHoleScope: seq<Particle>
    var pentagramScope: seq<Particle>
    var supernovaScope: seq<Particle>
    var timeWarpScope: seq<Particle>
    var atomScope: seq<Particle>
    var entanglementPartner: Particle?

    /** The fields the effects and the force pass read and write. */
    function Snapshot(): Vitals<Particle>
      reads this`x, this`y, this`vx, this`vy, this`health, this`isAlive, this`age, this`entangledParticle
    {
      Vitals(this, x, y, vx, vy, health, isAlive, age, kind,
             if entangledParticle == null then None else Some(entangledParticle as Particle))
    }

    function Effects(): Aura
      reads this`shieldActive, this`blackHoleRadius, this`pentagram, this`vortexProgress,
            this`hasFractalPoints, this`supernova, this`timeWarpActive, this`atom, this`atomAngle,
            this`lightningTarget, this`blackHoleScope, this`pentagramScope, this`supernovaScope,
            this`timeWarpScope, this`atomScope, this`entanglementPartner
    {
      Aura(shieldActive, blackHoleRadius, pentagram, vortexProgress, hasFractalPoints, supernova,
           timeWarpActive, atom, atomAngle, lightningTarget, blackHoleScope, pentagramScope,
           supernovaScope, timeWarpScope, atomScope, entanglementPartner)
    }

    /** The source's supernovaProgress: a number while the interval runs, null otherwise. */
    function SupernovaProgress(): (p: Option<real>)
      reads this`supernova
      ensures p.Some? <==> supernova.running
      ensures p.Some? ==> p.value == supernova.steps as real * 0.05
    {
      Ramps.ProgressSteps(supernova);
      if supernova.running then Some(Ramps.Progress(supernova, 20)) else None
    }

    /** The state `new Particle(x0, y0, t)` starts in: at rest, minimum size, full health, alive, nothing active. */
    predicate IsNew(cfg: Config, x0: real, y0: real, t: int)
      reads this
    {
      && Snapshot() == Vitals(this, x0, y0, 0.0, 0.0, 10.0, true, 0, t, None)
      && size == cfg.particleMinSize && magicCooldown == 0 && Effects() == Calm
    }

    /** `new Particle(x, y, type)`. */
    constructor(cfg: Config, x0: real, y0: real, t: int)
      ensures IsNew(cfg, x0, y0, t)
    {
      x, y := x0, y0;
      vx, vy := 0.0, 0.0;
      kind := t;
      size := cfg.particleMinSize;
      age := 0;
      health := 10.0;
      isAlive := true;
      magicCooldown := 0;
      shieldActive, blackHoleRadius := false, 0.0;
      pentagram, vortexProgress, hasFractalPoints := Ramps.Idle, 0.0, false;
      supernova, timeWarpActive, entangledParticle := Ramps.Idle, false, null;
      atom, atomAngle, lightningTarget := Ramps.Idle, 0.0, null;
      blackHoleScope, pentagramScope, supernovaScope, timeWarpScope, atomScope := [], [], [], [], [];
      entanglementPartner := null;
    }

    /** `distanceTo(other)`: the Euclidean distance, through the exact square root. */
    function DistanceTo(cfg: Config, other: Particle): (d: real)
      requires cfg.Valid()
      reads this`x, this`y, other`x, other`y
      ensures d >= 0.0 && d * d == (other.x - x) * (other.x - x) + (other.y - y) * (other.y - y)
    {
      JsMath.SquareNonNegative(other.x - x);
      JsMath.SquareNonNegative(other.y - y);
      var q := (other.x - x) * (other.x - x) + (other.y - y) * (other.y - y);
      cfg.Root(q);
      cfg.sqrt(q)
    }

    /** The guard of every effect: `p !== this && p.isAlive && this.distanceTo(p) < r`. */
    function InRange(cfg: Config, p: Particle, r: real): (b: bool)
      requires cfg.Valid()
      reads this`x, this`y, p`x, p`y, p`vx, p`vy, p`health, p`isAlive, p`age, p`entangledParticle
      ensures b <==> Spells.Eligible(this, x, y, r, p.Snapshot())
    {
      var d := DistanceTo(cfg, p);
      Kinematics.RootCompare(d, DistSq(x, y, p.Snapshot()), r);
      p != this && p.isAlive && d < r
    }

    /** The atom's guard, with `<=`. */
    function InReach(cfg: Config, p: Particle, r: real): (b: bool)
      requires cfg.Valid()
      reads this`x, this`y, p`x, p`y, p`vx, p`vy, p`health, p`isAlive, p`age, p`entangledParticle
      ensures b <==> Spells.EligibleWithin(this, x, y, r, p.Snapshot())
    {
      var d := DistanceTo(cfg, p);
      Kinematics.RootCompare(d, DistSq(x, y, p.Snapshot()), r);
      p != this && p.isAlive && d <= r
    }

    /**
     * `update()`: a dead particle is left as it is; a live one moves by its
     * velocity, wraps around the canvas, ages by one, has its size clamped and
     * its cooldown counted down.
     */
    method Update(cfg: Config)
      requires cfg.Valid()
      modifies this`x, this`y, this`age, this`size, this`magicCooldown
      ensures !old(isAlive) ==> x == old(x) && y == old(y) && age == old(age) && size == old(size)
                                && magicCooldown == old(magicCooldown)
      ensures old(isAlive) ==>
        && x == Kinematics.Wrap(old(x) + vx, cfg.canvasWidth)
        && y == Kinematics.Wrap(old(y) + vy, cfg.canvasHeight)
        && age == old(age) + 1
        && size == Kinematics.ClampSize(old(size), cfg.particleMinSize, cfg.particleMaxSize)
        && magicCooldown == (if old(magicCooldown) > 0 then old(magicCooldown) - 1 else 0)
    {
      if !isAlive {
        return;
      }
      x := x + vx;
      y := y + vy;
      x := JsMath.Rem(x + cfg.canvasWidth, cfg.canvasWidth);
      y := JsMath.Rem(y + cfg.canvasHeight, cfg.canvasHeight);
      age := age + 1;
      size := JsMath.Max(cfg.particleMinSize, JsMath.Min(size, cfg.particleMaxSize));
      if magicCooldown > 0 {
        magicCooldown := magicCooldown - 1;
      }
    }

    /** `applyForce(fx, fy)`: add the force, then clamp the speed to maxSpeed. */
    method ApplyForce(cfg: Config, fx: real, fy: real)
      requires cfg.Valid()
      modifies this`vx, this`vy
      ensures var r := Kinematics.ClampVelocity(cfg, old(vx) + fx, old(vy) + fy); vx == r.0 && vy == r.1
    {
      var nvx, nvy := vx + fx, vy + fy;
      var speed := Kinematics.Speed(cfg, nvx, nvy);
      if speed > cfg.maxSpeed {
        nvx, nvy := nvx / speed * cfg.maxSpeed, nvy / speed * cfg.maxSpeed;
      }
      vx, vy := nvx, nvy;
    }

    /**
     * `applyForce(fx, fy)` with the NaN force of a 0 / 0 division: the sum and
     * the speed are NaN, and the finiteness repair sets the velocity to 0.
     */
    method Halt()
      modifies this`vx, this`vy
      ensures Snapshot() == old(Snapshot()).(vx := 0.0, vy := 0.0)
    {
      vx, vy := 0.0, 0.0;
    }

    /** `takeDamage(amount)`. */
    method TakeDamage(amount: real)
      modifies this`health, this`isAlive
      ensures Snapshot() == Spells.Damage(old(Snapshot()), amount)
    {
      health := health - amount;
      if health <= 0.0 {
        isAlive := false;
      }
    }

    /**
     * The damaging sweep shared by raid, pentagram, supernova and the atom:
     * every live other within r (within or at r when closed) takes the amount.
     */
    method Strike(cfg: Config, ps: seq<Particle>, r: real, closed: bool, amount: real)
      requires cfg.Valid() && Distinct(ps)
      modifies ps`health, ps`isAlive
      ensures forall k | 0 <= k < |ps| ::
        ps[k].Snapshot() == Spells.StrikeOn(this, x, y, r, closed, amount, old(ps[k].Snapshot()))
      ensures Snapshot() == old(Snapshot())
    {
      var k := 0;
      while k < |ps|
        invariant 0 <= k <= |ps|
        invariant forall j | 0 <= j < k ::
          ps[j].Snapshot() == Spells.StrikeOn(this, x, y, r, closed, amount, old(ps[j].Snapshot()))
        invariant forall j | k <= j < |ps| :: ps[j].Snapshot() == old(ps[j].Snapshot())
        invariant Snapshot() == old(Snapshot())
      {
        var p := ps[k];
        if if closed then InReach(cfg, p, r) else InRange(cfg, p, r) {
          p.TakeDamage(amount);
        }
        k := k + 1;
      }
    }

    /** `raid(particles)`: live others within 30 take twice the damage. */
    method Raid(cfg: Config, ps: seq<Particle>)
      requires cfg.Valid() && Distinct(ps)
      modifies ps`health, ps`isAlive
      ensures forall k | 0 <= k < |ps| ::
        ps[k].Snapshot() == Spells.StrikeOn(this, x, y, 30.0, false, cfg.damageAmount * 2.0, old(ps[k].Snapshot()))
      ensures Snapshot() == old(Snapshot())
    {
      Strike(cfg, ps, 30.0, false, cfg.damageAmount * 2.0);
    }

    /** `heal(particles)`. */
    method Heal(cfg: Config, ps: seq<Particle>)
      requires cfg.Valid() && Distinct(ps)
      modifies ps`health
      ensures forall k | 0 <= k < |ps| ::
        ps[k].Snapshot() == Spells.HealOn(cfg, old(Snapshot()), old(ps[k].Snapshot()))
      ensures Snapshot() == old(Snapshot())
    {
      var me := Snapshot();
      var k := 0;
      while k < |ps|
        invariant 0 <= k <= |ps|
        invariant forall j | 0 <= j < k :: ps[j].Snapshot() == Spells.HealOn(cfg, me, old(ps[j].Snapshot()))
        invariant forall j | k <= j < |ps| :: ps[j].Snapshot() == old(ps[j].Snapshot())
        invariant Snapshot() == me
      {
        var p := ps[k];
        if InRange(cfg, p, 50.0) {
          p.Mend(cfg, me);
        }
        k := k + 1;
      }
    }

    /** A heal's effect on this eligible particle: healAmount more health, capped at 10. */
    method Mend(cfg: Config, ghost me: Vitals<Particle>)
      requires Spells.Eligible(me.id, me.x, me.y, 50.0, Snapshot())
      modifies this`health
      ensures Snapshot() == Spells.HealOn(cfg, me, old(Snapshot()))
    {
      health := JsMath.Min(health + cfg.healAmount, 10.0);
    }

    /** `fireball(particles)`: live others within 100 are pushed away, then damaged. */
    method Fireball(cfg: Config, ps: seq<Particle>)
      requires cfg.Valid() && Distinct(ps)
      modifies ps`vx, ps`vy, ps`health, ps`isAlive
      ensures forall k | 0 <= k < |ps| ::
        ps[k].Snapshot() == Spells.FireballOn(cfg, old(Snapshot()), old(ps[k].Snapshot()))
      ensures Snapshot() == old(Snapshot())
    {
      var me := Snapshot();
      var k := 0;
      while k < |ps|
        invariant 0 <= k <= |ps|
        invariant forall j | 0 <= j < k :: ps[j].Snapshot() == Spells.FireballOn(cfg, me, old(ps[j].Snapshot()))
        invariant forall j | k <= j < |ps| :: ps[j].Snapshot() == old(ps[j].Snapshot())
        invariant Snapshot() == me
      {
        var p := ps[k];
        if InRange(cfg, p, 100.0) {
          p.Scorch(cfg, me);
        }
        k := k + 1;
      }
    }

    /** A fireball's hit on this eligible particle: pushed away from the caster me, then damaged. */
    method Scorch(cfg: Config, me: Vitals<Particle>)
      requires cfg.Valid() && Spells.Eligible(me.id, me.x, me.y, 100.0, Snapshot())
      modifies this`vx, this`vy, this`health, this`isAlive
      ensures Snapshot() == Spells.FireballOn(cfg, me, old(Snapshot()))
    {
      ghost var v0 := Snapshot();
      ApplyForce(cfg, (x - me.x) * 0.1, (y - me.y) * 0.1);
      ghost var vel := Kinematics.ClampVelocity(cfg, v0.vx + (v0.x - me.x) * 0.1, v0.vy + (v0.y - me.y) * 0.1);
      assert Snapshot() == v0.(vx := vel.0, vy := vel.1);
      TakeDamage(cfg.damageAmount);
    }

    /** `teleport()`: the caster moves to a random point of the canvas. */
    method Teleport(cfg: Config, rx: real, ry: real)
      modifies this`x, this`y
      ensures Snapshot() == Spells.TeleportOn(cfg, this, rx, ry, old(Snapshot()))
    {
      x, y := rx * cfg.canvasWidth, ry * cfg.canvasHeight;
    }

    /**
     * `particles.filter(p => p !== this && p.isAlive && this.distanceTo(p) < r)`:
     * the live others closer than r, in collection order.
     */
    method Candidates(cfg: Config, ps: seq<Particle>, r: real) returns (targets: seq<Particle>)
      requires cfg.Valid()
      ensures targets == Spells.Targets(this, x, y, r, Snap(ps))
      ensures forall t | t in targets :: t in ps
    {
      ghost var vs := Snap(ps);
      targets := [];
      var k := 0;
      while k < |ps|
        invariant 0 <= k <= |ps|
        invariant targets == Spells.Targets(this, x, y, r, vs[..k])
        invariant forall t | t in targets :: t in ps
      {
        assert vs[..k + 1][..k] == vs[..k];
        if InRange(cfg, ps[k], r) {
          targets := targets + [ps[k]];
        }
        k := k + 1;
      }
      assert vs[..|ps|] == vs;
    }

    /**
     * `particles.find(p => p !== this && p.isAlive && this.distanceTo(p) < r)`,
     * as the index of the first such particle.
     */
    method FirstInRange(cfg: Config, ps: seq<Particle>, r: real) returns (found: Option<nat>)
      requires cfg.Valid()
      ensures found == Spells.FindEligible(this, x, y, r, Snap(ps))
    {
      ghost var vs := Snap(ps);
      found := None;
      var i := 0;
      while i < |ps| && found.None?
        invariant 0 <= i <= |ps|
        invariant found.None? ==> forall j | 0 <= j < i :: !Spells.Eligible(this, x, y, r, vs[j])
        invariant found.Some? ==>
          && found.value < |ps|
          && Spells.Eligible(this, x, y, r, vs[found.value])
          && forall j | 0 <= j < found.value :: !Spells.Eligible(this, x, y, r, vs[j])
      {
        if InRange(cfg, ps[i], r) {
          found := Some(i);
        }
        i := i + 1;
      }
      Spells.FirstEligible(this, x, y, r, vs, found);
    }

    /**
     * `lightning(particles)`: the live others within 150 are collected in
     * order and the one the draw rx selects takes 1.5 times the damage and
     * becomes the lightning target.
     */
    method Lightning(cfg: Config, ps: seq<Particle>, rx: real)
      requires cfg.Valid() && 0.0 <= rx < 1.0
      modifies ps`health, ps`isAlive, this`lightningTarget
      ensures var pick := Spells.LightningPick(old(Snapshot()), old(Snap(ps)), rx);
        && (forall k | 0 <= k < |ps| ::
              ps[k].Snapshot() == Spells.StruckOn(pick, cfg.damageAmount * 1.5, old(ps[k].Snapshot())))
        && lightningTarget == (if pick.Some? then pick.value else old(lightningTarget))
      ensures Snapshot() == old(Snapshot())
    {
      var pick := PickTarget(cfg, ps, rx);
      if pick.Some? {
        var target := pick.value;
        target.TakeDamage(cfg.damageAmount * 1.5);
        lightningTarget := target;
      }
    }

    /** The lightning's choice: the live other within 150 at position `floor(rx * count)` of the filtered list. */
    method PickTarget(cfg: Config, ps: seq<Particle>, rx: real) returns (pick: Option<Particle>)
      requires cfg.Valid() && 0.0 <= rx < 1.0
      ensures pick == Spells.LightningPick(Snapshot(), Snap(ps), rx)
      ensures pick.Some? ==> pick.value in ps && pick.value != this
    {
      ghost var vs := Snap(ps);
      var targets := Candidates(cfg, ps, 150.0);
      if |targets| > 0 {
        var target := targets[JsMath.FloorIndex(rx, |targets|)];
        assert target in targets;
        Spells.TargetsAreEligible(this, x, y, 150.0, vs);
        pick := Some(target);
      } else {
        pick := None;
      }
    }

    /**
     * `quantumEntanglement(particles)`: the first live other within 100 and
     * the caster are linked to each other; the expiry timer remembers the
     * partner. Without such a particle nothing changes.
     */
    method QuantumEntanglement(cfg: Config, ps: seq<Particle>)
      requires cfg.Valid()
      modifies this`entangledParticle, this`entanglementPartner, ps`entangledParticle
      ensures var partner := Spells.EntanglePartner(old(Snapshot()), old(Snap(ps)));
        && (forall k | 0 <= k < |ps| :: ps[k].Snapshot() == Spells.LinkOn(this, partner, old(ps[k].Snapshot())))
        && Snapshot() == Spells.LinkOn(this, partner, old(Snapshot()))
        && entanglementPartner == (if partner.Some? then partner.value else old(entanglementPartner))
    {
      ghost var me, vs := Snapshot(), Snap(ps);
      var found := FirstInRange(cfg, ps, 100.0);
      ghost var partner := Spells.EntanglePartner(me, vs);
      if found.Some? {
        var target := ps[found.value];
        assert partner == Some(target) && target != this;
        entangledParticle := target;
        target.entangledParticle := this;
        entanglementPartner := target;
      }
    }

    /**
     * `vortex(particles)`: every live other within 100 is pushed a tenth of a
     * unit at right angles to its offset from the caster; the vortex is shown.
     */
    method Vortex(cfg: Config, ps: seq<Particle>)
      requires cfg.Valid() && Distinct(ps)
      modifies ps`vx, ps`vy, this`vortexProgress
      ensures forall k | 0 <= k < |ps| ::
        ps[k].Snapshot() == Spells.VortexOn(cfg, old(Snapshot()), old(ps[k].Snapshot()))
      ensures Snapshot() == old(Snapshot()) && vortexProgress == 1.0
    {
      var me := Snapshot();
      var k := 0;
      while k < |ps|
        invariant 0 <= k <= |ps|
        invariant forall j | 0 <= j < k :: ps[j].Snapshot() == Spells.VortexOn(cfg, me, old(ps[j].Snapshot()))
        invariant forall j | k <= j < |ps| :: ps[j].Snapshot() == old(ps[j].Snapshot())
        invariant Snapshot() == me
      {
        var p := ps[k];
        if InRange(cfg, p, 100.0) {
          p.Swirl(cfg, me);
        }
        k := k + 1;
      }
      vortexProgress := 1.0;
    }

    /**
     * A vortex's push on this eligible particle: the source's
     * `(-sin a, cos a) * 0.1` for the angle a of the offset from the caster.
     */
    method Swirl(cfg: Config, me: Vitals<Particle>)
      requires cfg.Valid() && Spells.Eligible(me.id, me.x, me.y, 100.0, Snapshot())
      modifies this`vx, this`vy
      ensures Snapshot() == Spells.VortexOn(cfg, me, old(Snapshot()))
    {
      var push := Spells.VortexPush(cfg, me, Snapshot());
      ApplyForce(cfg, push.0, push.1);
    }

    /** The vortex's timeout: the vortex is no longer shown. */
    method VortexExpire()
      modifies this`vortexProgress
      ensures vortexProgress == 0.0
    {
      vortexProgress := 0.0;
    }

    /** `shield()`: the shield is raised. */
    method Shield()
      modifies this`shieldActive
      ensures shieldActive
    {
      shieldActive := true;
    }

    /** The shield's timeout. */
    method ShieldExpire()
      modifies this`shieldActive
      ensures !shieldActive
    {
      shieldActive := false;
    }

    /** `fractalize()`, as far as the particle's state goes: the fractal is present. */
    method Fractalize()
      modifies this`hasFractalPoints
      ensures hasFractalPoints
    {
      hasFractalPoints := true;
    }

    /** The fractal's timeout: `fractalPoints` is emptied. */
    method FractalExpire()
      modifies this`hasFractalPoints
      ensures !hasFractalPoints
    {
      hasFractalPoints := false;
    }

    /** `blackHole(particles)`: the radius opens to 100 and the collapse timer captures the collection. */
    method BlackHole(ps: seq<Particle>)
      modifies this`blackHoleRadius, this`blackHoleScope
      ensures blackHoleRadius == 100.0 && blackHoleScope == ps
    {
      blackHoleRadius := 100.0;
      blackHoleScope := ps;
    }

    /**
     * The black hole's timeout: every live other closer than the current
     * radius is placed within 5 of the caster (jitter[k] holds the two random
     * draws for the k-th particle) and stopped; then the radius closes.
     */
    method BlackHoleFire(cfg: Config, jitter: seq<(real, real)>)
      requires cfg.Valid() && Distinct(blackHoleScope) && |jitter| == |blackHoleScope|
      modifies blackHoleScope`x, blackHoleScope`y, blackHoleScope`vx, blackHoleScope`vy, this`blackHoleRadius
      ensures forall k | 0 <= k < |blackHoleScope| ::
        blackHoleScope[k].Snapshot()
        == Spells.PullOn(this, old(x), old(y), old(blackHoleRadius), jitter[k], old(blackHoleScope[k].Snapshot()))
      ensures Snapshot() == old(Snapshot()) && blackHoleRadius == 0.0
    {
      ghost var me := Snapshot();
      var ps := blackHoleScope;
      var k := 0;
      while k < |ps|
        invariant 0 <= k <= |ps|
        invariant forall j | 0 <= j < k ::
          ps[j].Snapshot() == Spells.PullOn(this, me.x, me.y, old(blackHoleRadius), jitter[j], old(ps[j].Snapshot()))
        invariant forall j | k <= j < |ps| :: ps[j].Snapshot() == old(ps[j].Snapshot())
        invariant Snapshot() == me && blackHoleRadius == old(blackHoleRadius)
      {
        var p := ps[k];
        if InRange(cfg, p, blackHoleRadius) {
          p.Pull(this, x, y, blackHoleRadius, jitter[k]);
        }
        k := k + 1;
      }
      blackHoleRadius := 0.0;
    }

    /** The black hole's pull on this eligible particle: placed next to (cx, cy) and stopped. */
    method Pull(ghost me: Particle, cx: real, cy: real, ghost radius: real, jitter: (real, real))
      requires Spells.Eligible(me, cx, cy, radius, Snapshot())
      modifies this`x, this`y, this`vx, this`vy
      ensures Snapshot() == Spells.PullOn(me, cx, cy, radius, jitter, old(Snapshot()))
    {
      x, y := cx + (jitter.0 - 0.5) * 10.0, cy + (jitter.1 - 0.5) * 10.0;
      vx, vy := 0.0, 0.0;
    }

    /** `pentagram(particles)`: progress restarts at 0 and the interval captures the collection. */
    method Pentagram(ps: seq<Particle>)
      modifies this`pentagram, this`pentagramScope
      ensures pentagram == Ramps.Started && pentagramScope == ps
    {
      pentagram := Ramps.Started;
      pentagramScope := ps;
    }

    /**
     * One beat of the pentagram's 50 ms interval: progress grows by 0.05; on
     * the beat it reaches 1 the interval stops and every live other within
     * 100 takes twice the damage.
     */
    method PentagramTick(cfg: Config)
      requires cfg.Valid() && Distinct(pentagramScope)
      modifies this`pentagram, pentagramScope`health, pentagramScope`isAlive
      ensures var beat := Ramps.Tick(old(pentagram), 20);
        && pentagram == beat.next
        && forall k | 0 <= k < |pentagramScope| ::
             pentagramScope[k].Snapshot()
             == (if beat.completed
                 then Spells.StrikeOn(this, x, y, 100.0, false, cfg.damageAmount * 2.0, old(pentagramScope[k].Snapshot()))
                 else old(pentagramScope[k].Snapshot()))
      ensures Snapshot() == old(Snapshot())
    {
      var beat := Ramps.Tick(pentagram, 20);
      pentagram := beat.next;
      if beat.completed {
        Strike(cfg, pentagramScope, 100.0, false, cfg.damageAmount * 2.0);
      }
    }

    /** `supernova(particles)`: progress restarts at 0 and the interval captures the collection. */
    method Supernova(ps: seq<Particle>)
      modifies this`supernova, this`supernovaScope
      ensures supernova == Ramps.Started && supernovaScope == ps
    {
      supernova := Ramps.Started;
      supernovaScope := ps;
    }

    /**
     * One beat of the supernova's interval: as the pentagram, but the final
     * beat hits every live other within 200 with three times the damage and
     * progress goes back to null.
     */
    method SupernovaTick(cfg: Config)
      requires cfg.Valid() && Distinct(supernovaScope)
      modifies this`supernova, supernovaScope`health, supernovaScope`isAlive
      ensures var beat := Ramps.Tick(old(supernova), 20);
        && supernova == beat.next
        && forall k | 0 <= k < |supernovaScope| ::
             supernovaScope[k].Snapshot()
             == (if beat.completed
                 then Spells.StrikeOn(this, x, y, 200.0, false, cfg.damageAmount * 3.0, old(supernovaScope[k].Snapshot()))
                 else old(supernovaScope[k].Snapshot()))
      ensures Snapshot() == old(Snapshot())
    {
      var beat := Ramps.Tick(supernova, 20);
      supernova := beat.next;
      if beat.completed {
        Strike(cfg, supernovaScope, 200.0, false, cfg.damageAmount * 3.0);
      }
    }

    /** `timeWarp(particles)`: the warp shows and its timer captures the collection. */
    method TimeWarp(ps: seq<Particle>)
      modifies this`timeWarpActive, this`timeWarpScope
      ensures timeWarpActive && timeWarpScope == ps
    {
      timeWarpActive := true;
      timeWarpScope := ps;
    }

    /** The time warp's timeout: live others within 150 become 100 younger, never below 0. */
    method TimeWarpFire(cfg: Config)
      requires cfg.Valid() && Distinct(timeWarpScope)
      modifies timeWarpScope`age, this`timeWarpActive
      ensures forall k | 0 <= k < |timeWarpScope| ::
        timeWarpScope[k].Snapshot() == Spells.WarpOn(this, x, y, old(timeWarpScope[k].Snapshot()))
      ensures Snapshot() == old(Snapshot()) && !timeWarpActive
    {
      ghost var me := Snapshot();
      var ps := timeWarpScope;
      var k := 0;
      while k < |ps|
        invariant 0 <= k <= |ps|
        invariant forall j | 0 <= j < k :: ps[j].Snapshot() == Spells.WarpOn(this, me.x, me.y, old(ps[j].Snapshot()))
        invariant forall j | k <= j < |ps| :: ps[j].Snapshot() == old(ps[j].Snapshot())
        invariant Snapshot() == me
      {
        var p := ps[k];
        if InRange(cfg, p, 150.0) {
          p.Rewind(this, x, y);
        }
        k := k + 1;
      }
      timeWarpActive := false;
    }

    /** The time warp on this eligible particle: 100 younger, but never below 0. */
    method Rewind(ghost me: Particle, cx: real, cy: real)
      requires Spells.Eligible(me, cx, cy, 150.0, Snapshot())
      modifies this`age
      ensures Snapshot() == Spells.WarpOn(me, cx, cy, old(Snapshot()))
    {
      var a := age - 100;
      if a < 0 {
        a := 0;
      }
      age := a;
    }

    /** `createAtom(particles)`: the atom starts at progress 0 and its interval captures the collection. */
    method CreateAtom(ps: seq<Particle>)
      modifies this`atom, this`atomScope
      ensures atom == Ramps.Started && atomScope == ps
    {
      atom := Ramps.Started;
      atomScope := ps;
    }

    /**
     * One beat of the atom's interval: progress grows by 0.02 and the angle by
     * 0.1 (the interval stops once progress reaches 1), and on every beat,
     * the last included, each live other within atomRadius (inclusive) takes
     * atomDamage. A stopped interval does not beat.
     */
    method AtomTick(cfg: Config)
      requires cfg.Valid() && Distinct(atomScope)
      modifies this`atom, this`atomAngle, atomScope`health, atomScope`isAlive
      ensures !old(atom.running) ==> atom == old(atom) && atomAngle == old(atomAngle)
      ensures old(atom.running) ==> atom == Ramps.Tick(old(atom), 50).next && atomAngle == old(atomAngle) + 0.1
      ensures forall k | 0 <= k < |atomScope| ::
        atomScope[k].Snapshot()
        == (if old(atom.running)
            then Spells.StrikeOn(this, x, y, cfg.atomRadius, true, cfg.atomDamage, old(atomScope[k].Snapshot()))
            else old(atomScope[k].Snapshot()))
      ensures Snapshot() == old(Snapshot())
    {
      if !atom.running {
        return;
      }
      atom := Ramps.Tick(atom, 50).next;
      atomAngle := atomAngle + 0.1;
      Strike(cfg, atomScope, cfg.atomRadius, true, cfg.atomDamage);
    }

    /**
     * The entanglement's timeout: both ends of the link the caster made are
     * cleared, whatever they point to by then.
     */
    method EntanglementExpire()
      modifies this`entangledParticle, this`entanglementPartner
      modifies (if entanglementPartner == null then {} else {entanglementPartner as Particle})`entangledParticle
      ensures old(entanglementPartner) != null ==>
        entangledParticle == null && old(entanglementPartner).entangledParticle == null && entanglementPartner == null
      ensures old(entanglementPartner) == null ==> entangledParticle == old(entangledParticle) && entanglementPartner == null
    {
      var partner := entanglementPartner;
      if partner != null {
        entangledParticle := null;
        partner.entangledParticle := null;
        entanglementPartner := null;
      }
    }

    /**
     * `castMagic(particles)`: a particle that is cooling down or dead does
     * nothing; otherwise the cooldown restarts and the particle's type selects
     * the effect (rx and ry are the random draws teleport and lightning use).
     */
    method CastMagic(cfg: Config, ps: seq<Particle>, rx: real, ry: real)
      requires cfg.Valid() && Distinct(ps) && 0.0 <= rx < 1.0
      modifies this, ps`vx, ps`vy, ps`health, ps`isAlive, ps`entangledParticle
      ensures old(magicCooldown > 0 || !isAlive) ==>
        && magicCooldown == old(magicCooldown) && size == old(size)
        && Snapshot() == old(Snapshot()) && Effects() == old(Effects())
        && forall k | 0 <= k < |ps| :: ps[k].Snapshot() == old(ps[k].Snapshot())
      ensures old(magicCooldown == 0 && isAlive) ==>
        && magicCooldown == cfg.magicCooldown && size == old(size)
        && CastFrom(cfg, ps, Spells.SpellOf(kind), rx, ry, old(Snapshot()), old(Snap(ps)), old(Effects()))
      ensures forall k | 0 <= k < |ps| :: (ps[k].isAlive ==> old(ps[k].isAlive)) && ps[k].age == old(ps[k].age)
    {
      if magicCooldown > 0 || !isAlive {
        return;
      }
      ghost var me, vs, a := Snapshot(), Snap(ps), Effects();
      magicCooldown := cfg.magicCooldown;
      assert Snap(ps) == vs;
      Conjure(cfg, ps, Spells.SpellOf(kind), rx, ry);
      CastSpares(cfg, ps, Spells.SpellOf(kind), rx, ry, me, vs, a);
    }

    /**
     * What the caster and every particle of ps look like once spell has been
     * cast from the caster snapshot me, the collection's snapshots vs and the
     * effect state a: each particle, the caster included, is what
     * `Spells.CastUpon` makes of it, and the effect state is `AuraAfter`'s.
     */
    predicate CastFrom(cfg: Config, ps: seq<Particle>, spell: Option<Spells.Spell>, rx: real, ry: real,
                       me: Vitals<Particle>, vs: seq<Vitals<Particle>>, a: Aura)
      requires cfg.Valid() && 0.0 <= rx < 1.0 && |vs| == |ps|
      reads this, ps
    {
      && Snapshot() == Spells.CastUpon(cfg, spell, me, vs, rx, ry, me)
      && (forall k | 0 <= k < |ps| :: ps[k].Snapshot() == Spells.CastUpon(cfg, spell, me, vs, rx, ry, vs[k]))
      && Effects() == AuraAfter(spell, a, ps, me, vs, rx)
    }

    /** A cast revives nobody and ages nobody. */
    lemma CastSpares(cfg: Config, ps: seq<Particle>, spell: Option<Spells.Spell>, rx: real, ry: real,
                     me: Vitals<Particle>, vs: seq<Vitals<Particle>>, a: Aura)
      requires cfg.Valid() && 0.0 <= rx < 1.0 && |vs| == |ps|
      requires CastFrom(cfg, ps, spell, rx, ry, me, vs, a)
      ensures forall k | 0 <= k < |ps| :: (ps[k].isAlive ==> vs[k].isAlive) && ps[k].age == vs[k].age
      ensures (isAlive ==> me.isAlive) && age == me.age
    {
      forall k | 0 <= k < |ps| ensures (ps[k].isAlive ==> vs[k].isAlive) && ps[k].age == vs[k].age {
        Spells.CastNeverRevives(cfg, spell, me, vs, rx, ry, vs[k]);
      }
      Spells.CastNeverRevives(cfg, spell, me, vs, rx, ry, me);
    }

    /**
     * The routine the spell names, run by the caster over ps. The switch of
     * `castMagic` is split three ways (Sweep, Single, Arm) and each case gets a
     * Cast method of its own that states the whole cast as `CastFrom`, so that
     * each proof unfolds one spell's meaning instead of all fourteen at once.
     */
    method Conjure(cfg: Config, ps: seq<Particle>, spell: Option<Spells.Spell>, rx: real, ry: real)
      requires cfg.Valid() && Distinct(ps) && 0.0 <= rx < 1.0
      modifies this, ps`vx, ps`vy, ps`health, ps`isAlive, ps`entangledParticle
      ensures magicCooldown == old(magicCooldown) && size == old(size)
      ensures CastFrom(cfg, ps, spell, rx, ry, old(Snapshot()), old(Snap(ps)), old(Effects()))
    {
      match spell
      case None =>
      case Some(s) =>
        if s.Fireball? || s.Heal? || s.Raid? || s.Vortex? {
          Sweep(cfg, ps, spell, rx, ry);
        } else if s.Teleport? || s.Lightning? || s.QuantumEntanglement? {
          Single(cfg, ps, spell, rx, ry);
        } else {
          Arm(cfg, ps, spell, rx, ry);
        }
    }

    /** The casts that sweep the particles around the caster at once. */
    method Sweep(cfg: Config, ps: seq<Particle>, spell: Option<Spells.Spell>, rx: real, ry: real)
      requires cfg.Valid() && Distinct(ps) && 0.0 <= rx < 1.0
      requires spell.Some? && (spell.value.Fireball? || spell.value.Heal? || spell.value.Raid? || spell.value.Vortex?)
      modifies ps`vx, ps`vy, ps`health, ps`isAlive, this`vortexProgress
      ensures CastFrom(cfg, ps, spell, rx, ry, old(Snapshot()), old(Snap(ps)), old(Effects()))
    {
      match spell.value {
        case Fireball => CastFireball(cfg, ps, spell, rx, ry);
        case Heal => CastHeal(cfg, ps, spell, rx, ry);
        case Raid => CastRaid(cfg, ps, spell, rx, ry);
        case Vortex => CastVortex(cfg, ps, spell, rx, ry);
      }
    }

    /** The casts that move the caster or bind or strike a single particle. */
    method Single(cfg: Config, ps: seq<Particle>, spell: Option<Spells.Spell>, rx: real, ry: real)
      requires cfg.Valid() && 0.0 <= rx < 1.0
      requires spell.Some? && (spell.value.Teleport? || spell.value.Lightning? || spell.value.QuantumEntanglement?)
      modifies this`x, this`y, this`lightningTarget, this`entangledParticle, this`entanglementPartner
      modifies ps`health, ps`isAlive, ps`entangledParticle
      ensures CastFrom(cfg, ps, spell, rx, ry, old(Snapshot()), old(Snap(ps)), old(Effects()))
    {
      match spell.value {
        case Teleport => CastTeleport(cfg, ps, spell, rx, ry);
        case Lightning => CastLightning(cfg, ps, spell, rx, ry);
        case QuantumEntanglement => CastEntanglement(cfg, ps, spell, rx, ry);
      }
    }

    /** The casts that touch no particle at once: they show an effect or start a timer over ps. */
    method Arm(cfg: Config, ps: seq<Particle>, spell: Option<Spells.Spell>, rx: real, ry: real)
      requires cfg.Valid() && 0.0 <= rx < 1.0
      requires spell.Some? && (spell.value.Shield? || spell.value.BlackHole? || spell.value.Pentagram?
        || spell.value.TimeWarp? || spell.value.Fractalize? || spell.value.Supernova? || spell.value.CreateAtom?)
      modifies this`shieldActive, this`blackHoleRadius, this`blackHoleScope, this`pentagram, this`pentagramScope,
               this`timeWarpActive, this`timeWarpScope, this`hasFractalPoints, this`supernova, this`supernovaScope,
               this`atom, this`atomScope
      ensures CastFrom(cfg, ps, spell, rx, ry, old(Snapshot()), old(Snap(ps)), old(Effects()))
    {
      match spell.value {
        case Shield => CastShield(cfg, ps, spell, rx, ry);
        case BlackHole => CastBlackHole(cfg, ps, spell, rx, ry);
        case Pentagram => CastPentagram(cfg, ps, spell, rx, ry);
        case TimeWarp => CastTimeWarp(cfg, ps, spell, rx, ry);
        case Fractalize => CastFractalize(cfg, ps, spell, rx, ry);
        case Supernova => CastSupernova(cfg, ps, spell, rx, ry);
        case CreateAtom => CastAtom(cfg, ps, spell, rx, ry);
      }
    }

    /** `fireball` as a cast. */
    method CastFireball(cfg: Config, ps: seq<Particle>, spell: Option<Spells.Spell>, rx: real, ry: real)
      requires cfg.Valid() && Distinct(ps) && 0.0 <= rx < 1.0 && spell == Some(Spells.Fireball)
      modifies ps`vx, ps`vy, ps`health, ps`isAlive
      ensures CastFrom(cfg, ps, spell, rx, ry, old(Snapshot()), old(Snap(ps)), old(Effects()))
    {
      Fireball(cfg, ps);
    }

    /** `heal` as a cast. */
    method CastHeal(cfg: Config, ps: seq<Particle>, spell: Option<Spells.Spell>, rx: real, ry: real)
      requires cfg.Valid() && Distinct(ps) && 0.0 <= rx < 1.0 && spell == Some(Spells.Heal)
      modifies ps`health
      ensures CastFrom(cfg, ps, spell, rx, ry, old(Snapshot()), old(Snap(ps)), old(Effects()))
    {
      Heal(cfg, ps);
    }

    /** `teleport` as a cast. */
    method CastTeleport(cfg: Config, ps: seq<Particle>, spell: Option<Spells.Spell>, rx: real, ry: real)
      requires cfg.Valid() && 0.0 <= rx < 1.0 && spell == Some(Spells.Teleport)
      modifies this`x, this`y
      ensures CastFrom(cfg, ps, spell, rx, ry, old(Snapshot()), old(Snap(ps)), old(Effects()))
    {
      Teleport(cfg, rx, ry);
    }

    /** `shield` as a cast. */
    method CastShield(cfg: Config, ps: seq<Particle>, spell: Option<Spells.Spell>, rx: real, ry: real)
      requires cfg.Valid() && 0.0 <= rx < 1.0 && spell == Some(Spells.Shield)
      modifies this`shieldActive
      ensures CastFrom(cfg, ps, spell, rx, ry, old(Snapshot()), old(Snap(ps)), old(Effects()))
    {
      Shield();
    }

    /** `raid` as a cast. */
    method CastRaid(cfg: Config, ps: seq<Particle>, spell: Option<Spells.Spell>, rx: real, ry: real)
      requires cfg.Valid() && Distinct(ps) && 0.0 <= rx < 1.0 && spell == Some(Spells.Raid)
      modifies ps`health, ps`isAlive
      ensures CastFrom(cfg, ps, spell, rx, ry, old(Snapshot()), old(Snap(ps)), old(Effects()))
    {
      Raid(cfg, ps);
    }

    /** `lightning` as a cast: the caster is never its own target. */
    method CastLightning(cfg: Config, ps: seq<Particle>, spell: Option<Spells.Spell>, rx: real, ry: real)
      requires cfg.Valid() && 0.0 <= rx < 1.0 && spell == Some(Spells.Lightning)
      modifies ps`health, ps`isAlive, this`lightningTarget
      ensures CastFrom(cfg, ps, spell, rx, ry, old(Snapshot()), old(Snap(ps)), old(Effects()))
    {
      Spells.LightningSparesCaster(Snapshot(), Snap(ps), rx);
      Lightning(cfg, ps, rx);
    }

    /** `blackHole` as a cast. */
    method CastBlackHole(cfg: Config, ps: seq<Particle>, spell: Option<Spells.Spell>, rx: real, ry: real)
      requires cfg.Valid() && 0.0 <= rx < 1.0 && spell == Some(Spells.BlackHole)
      modifies this`blackHoleRadius, this`blackHoleScope
      ensures CastFrom(cfg, ps, spell, rx, ry, old(Snapshot()), old(Snap(ps)), old(Effects()))
    {
      BlackHole(ps);
    }

    /** `pentagram` as a cast. */
    method CastPentagram(cfg: Config, ps: seq<Particle>, spell: Option<Spells.Spell>, rx: real, ry: real)
      requires cfg.Valid() && 0.0 <= rx < 1.0 && spell == Some(Spells.Pentagram)
      modifies this`pentagram, this`pentagramScope
      ensures CastFrom(cfg, ps, spell, rx, ry, old(Snapshot()), old(Snap(ps)), old(Effects()))
    {
      Pentagram(ps);
    }

    /** `vortex` as a cast. */
    method CastVortex(cfg: Config, ps: seq<Particle>, spell: Option<Spells.Spell>, rx: real, ry: real)
      requires cfg.Valid() && Distinct(ps) && 0.0 <= rx < 1.0 && spell == Some(Spells.Vortex)
      modifies ps`vx, ps`vy, this`vortexProgress
      ensures CastFrom(cfg, ps, spell, rx, ry, old(Snapshot()), old(Snap(ps)), old(Effects()))
    {
      Vortex(cfg, ps);
    }

    /** `timeWarp` as a cast. */
    method CastTimeWarp(cfg: Config, ps: seq<Particle>, spell: Option<Spells.Spell>, rx: real, ry: real)
      requires cfg.Valid() && 0.0 <= rx < 1.0 && spell == Some(Spells.TimeWarp)
      modifies this`timeWarpActive, this`timeWarpScope
      ensures CastFrom(cfg, ps, spell, rx, ry, old(Snapshot()), old(Snap(ps)), old(Effects()))
    {
      TimeWarp(ps);
    }

    /** `fractalize` as a cast. */
    method CastFractalize(cfg: Config, ps: seq<Particle>, spell: Option<Spells.Spell>, rx: real, ry: real)
      requires cfg.Valid() && 0.0 <= rx < 1.0 && spell == Some(Spells.Fractalize)
      modifies this`hasFractalPoints
      ensures CastFrom(cfg, ps, spell, rx, ry, old(Snapshot()), old(Snap(ps)), old(Effects()))
    {
      Fractalize();
    }

    /** `supernova` as a cast. */
    method CastSupernova(cfg: Config, ps: seq<Particle>, spell: Option<Spells.Spell>, rx: real, ry: real)
      requires cfg.Valid() && 0.0 <= rx < 1.0 && spell == Some(Spells.Supernova)
      modifies this`supernova, this`supernovaScope
      ensures CastFrom(cfg, ps, spell, rx, ry, old(Snapshot()), old(Snap(ps)), old(Effects()))
    {
      Supernova(ps);
    }

    /** `quantumEntanglement` as a cast. */
    method CastEntanglement(cfg: Config, ps: seq<Particle>, spell: Option<Spells.Spell>, rx: real, ry: real)
      requires cfg.Valid() && 0.0 <= rx < 1.0 && spell == Some(Spells.QuantumEntanglement)
      modifies this`entangledParticle, this`entanglementPartner, ps`entangledParticle
      ensures CastFrom(cfg, ps, spell, rx, ry, old(Snapshot()), old(Snap(ps)), old(Effects()))
    {
      QuantumEntanglement(cfg, ps);
    }

    /** `createAtom` as a cast. */
    method CastAtom(cfg: Config, ps: seq<Particle>, spell: Option<Spells.Spell>, rx: real, ry: real)
      requires cfg.Valid() && 0.0 <= rx < 1.0 && spell == Some(Spells.CreateAtom)
      modifies this`atom, this`atomScope
      ensures CastFrom(cfg, ps, spell, rx, ry, old(Snapshot()), old(Snap(ps)), old(Effects()))
    {
      CreateAtom(ps);
    }

  }

  /**
   * The caster's effect state right after casting `spell` over ps: the shown
   * effect and, for the timed ones, the timer's captured collection (me and
   * vs are the caster's and the collection's snapshots, rx the lightning's draw).
   */
  function AuraAfter(spell: Option<Spells.Spell>, a: Aura, ps: seq<Particle>,
                     me: Vitals<Particle>, vs: seq<Vitals<Particle>>, rx: real): Aura
    requires 0.0 <= rx < 1.0
  {
    match spell
    case None => a
    case Some(s) =>
      match s
      case Shield => a.(shieldActive := true)
      case Lightning =>
        var strike := Spells.LightningPick(me, vs, rx);
        if strike.Some? then a.(lightningTarget := strike.value) else a
      case BlackHole => a.(blackHoleRadius := 100.0, blackHoleScope := ps)
      case Pentagram => a.(pentagram := Ramps.Started, pentagramScope := ps)
      case Vortex => a.(vortexProgress := 1.0)
      case TimeWarp => a.(timeWarpActive := true, timeWarpScope := ps)
      case Fractalize => a.(hasFractalPoints := true)
      case Supernova => a.(supernova := Ramps.Started, supernovaScope := ps)
      case QuantumEntanglement =>
        var partner := Spells.EntanglePartner(me, vs);
        if partner.Some? then a.(entanglementPartner := partner.value) else a
      case CreateAtom => a.(atom := Ramps.Started, atomScope := ps)
      case _ => a
  }

  /** The snapshots of a collection, in order. */
  function Snap(ps: seq<Particle>): (vs: seq<Vitals<Particle>>)
    reads ps
    ensures |vs| == |ps|
  {
    seq(|ps|, (k: int) requires 0 <= k < |ps| reads ps => ps[k].Snapshot())
  }
}
