/**
 * `Simulation` (js/simulation.js): the particle collection, the pause flag
 * and the mouse position, and the tick that drives every particle. The canvas,
 * the window listeners and the drawing are not part of this model; the
 * random draws of a tick are parameters.
 */
module Simulations {
  import opened Configs
  import opened Views
  import opened Sequences
  import opened Particles
  import Forces
  import Pairs
  import Culling
  import Keys
  import JsMath

  /** `Math.floor(Math.random() * CONFIG.particleTypes)` for the draw r. */
  function InitialType(types: nat, r: real): (t: int)
    ensures 0.0 <= r < 1.0 && types > 0 ==> 0 <= t < types
  {
    var t := (r * (types as real)).Floor;
    if 0.0 <= r < 1.0 && types > 0 then
      assert JsMath.FloorIndex(r, types) == t;
      t
    else t
  }

  /** `this.particles.length > CONFIG.particleCount * 1.5`. */
  predicate Crowded(cfg: Config, n: nat) {
    n as real > cfg.particleCount as real * 1.5
  }

  class Simulation {
    var particles: seq<Particle>
    var isPaused: bool
    var mouseX: real
    var mouseY: real

    /**
     * What every operation keeps: no particle is listed twice, and every
     * particle's type indexes the attraction matrix.
     */
    ghost predicate Valid(cfg: Config)
      reads this
    {
      Distinct(particles) && forall k | 0 <= k < |particles| :: cfg.IsType(particles[k].kind)
    }

    /** In a valid simulation every snapshot has a particle type. */
    lemma Typed(cfg: Config)
      requires Valid(cfg)
      ensures Distinct(particles) && Pairs.AllTyped(cfg, Snap(particles))
    {
    }

    /**
     * `new Simulation()`, without the canvas and the listeners: the collection
     * is filled by `initParticles`, the tick is not paused and the mouse is at
     * the origin.
     */
    constructor(cfg: Config, draws: seq<(real, real, real)>)
      requires |draws| == cfg.particleCount
      ensures |particles| == cfg.particleCount && !isPaused && mouseX == 0.0 && mouseY == 0.0
      ensures forall k | 0 <= k < |draws| ::
        fresh(particles[k])
        && particles[k].IsNew(cfg, draws[k].0 * cfg.canvasWidth, draws[k].1 * cfg.canvasHeight,
                              InitialType(cfg.particleTypes, draws[k].2))
      ensures cfg.particleTypes > 0 && (forall k | 0 <= k < |draws| :: 0.0 <= draws[k].2 < 1.0) ==> Valid(cfg)
    {
      particles := [];
      isPaused := false;
      mouseX, mouseY := 0.0, 0.0;
      new;
      InitParticles(cfg, draws);
      // mention draws[k] so that InitParticles' postcondition fires for each k
      forall k | 0 <= k < |draws| ensures fresh(particles[k]) {
        var d := draws[k];
      }
    }

    /**
     * `initParticles()`: particleCount new particles are appended, the k-th at
     * the point the draws draws[k].0 and draws[k].1 pick on the canvas, with
     * the type draws[k].2 picks.
     */
    method InitParticles(cfg: Config, draws: seq<(real, real, real)>)
      requires |draws| == cfg.particleCount
      modifies this`particles
      ensures |particles| == |old(particles)| + cfg.particleCount
      ensures particles[..|old(particles)|] == old(particles)
      ensures forall k | 0 <= k < |draws| ::
        var p := particles[|old(particles)| + k];
        fresh(p)
        && p.IsNew(cfg, draws[k].0 * cfg.canvasWidth, draws[k].1 * cfg.canvasHeight,
                   InitialType(cfg.particleTypes, draws[k].2))
      ensures old(Valid(cfg)) && cfg.particleTypes > 0 && (forall k | 0 <= k < |draws| :: 0.0 <= draws[k].2 < 1.0)
        ==> Valid(cfg)
    {
      ghost var before := particles;
      var i := 0;
      while i < cfg.particleCount
        invariant 0 <= i <= cfg.particleCount
        invariant |particles| == |before| + i && particles[..|before|] == before
        invariant forall k | 0 <= k < i ::
          var p := particles[|before| + k];
          fresh(p)
          && p.IsNew(cfg, draws[k].0 * cfg.canvasWidth, draws[k].1 * cfg.canvasHeight,
                     InitialType(cfg.particleTypes, draws[k].2))
        invariant old(Valid(cfg)) && cfg.particleTypes > 0 && (forall k | 0 <= k < |draws| :: 0.0 <= draws[k].2 < 1.0)
          ==> Valid(cfg)
      {
        var x := draws[i].0 * cfg.canvasWidth;
        var y := draws[i].1 * cfg.canvasHeight;
        var t := InitialType(cfg.particleTypes, draws[i].2);
        var p := new Particle(cfg, x, y, t);
        particles := particles + [p];
        i := i + 1;
      }
      assert i == |draws|;
    }

    /** `spawnParticle(x, y, type)`: a new particle of that type is added last. */
    method SpawnParticle(cfg: Config, x: real, y: real, t: int)
      modifies this`particles
      ensures |particles| == |old(particles)| + 1 && particles[..|old(particles)|] == old(particles)
      ensures fresh(particles[|particles| - 1]) && particles[|particles| - 1].IsNew(cfg, x, y, t)
      ensures old(Valid(cfg)) && cfg.IsType(t) ==> Valid(cfg)
    {
      var p := new Particle(cfg, x, y, t);
      particles := particles + [p];
    }

    /**
     * `splitParticle(particle)`, with roll the random draw: below 0.001 a new
     * particle of the same type is added at the same spot, and when the
     * collection then holds more than 1.5 times particleCount its first, oldest,
     * particle is dropped.
     */
    method SplitParticle(cfg: Config, p: Particle, roll: real) returns (ghost born: Particle?)
      modifies this`particles
      ensures roll >= 0.001 ==> born == null && particles == old(particles)
      ensures roll < 0.001 ==>
        && born != null && fresh(born) && born.IsNew(cfg, p.x, p.y, p.kind)
        && var grown := old(particles) + [born];
           particles == (if Crowded(cfg, |grown|) then grown[1..] else grown)
      ensures !Crowded(cfg, |old(particles)|) ==> !Crowded(cfg, |particles|)
      ensures old(Valid(cfg)) && cfg.IsType(p.kind) ==> Valid(cfg)
    {
      born := null;
      if roll < 0.001 {
        var q := new Particle(cfg, p.x, p.y, p.kind);
        born := q;
        particles := particles + [q];
        if Crowded(cfg, |particles|) {
          particles := particles[1..];
        }
      }
    }

    /**
     * `handleKeyPress(e)`: Space toggles the pause, a digit key spawns its
     * particle type at the mouse, any other key does nothing.
     */
    method HandleKeyPress(cfg: Config, e: Keys.KeyEvent)
      modifies this`isPaused, this`particles
      ensures match Keys.KeyAction(cfg.particleTypes, e)
        case TogglePause => isPaused == !old(isPaused) && particles == old(particles)
        case Spawn(t) =>
          && isPaused == old(isPaused)
          && |particles| == |old(particles)| + 1 && particles[..|old(particles)|] == old(particles)
          && fresh(particles[|particles| - 1]) && particles[|particles| - 1].IsNew(cfg, mouseX, mouseY, t)
        case Ignore => isPaused == old(isPaused) && particles == old(particles)
      ensures old(Valid(cfg)) ==> Valid(cfg)
    {
      if e.code == "Space" {
        isPaused := !isPaused;
      } else if Keys.StrLessEq("1", e.key) && Keys.StrLessEq(e.key, "9") {
        Keys.DigitGuardShape(e.key);
        Keys.SpawnedKindIsType(cfg.particleTypes, e);
        var t := Keys.ParseInt(e.key) - 1;
        if t < cfg.particleTypes {
          SpawnParticle(cfg, mouseX, mouseY, t);
        }
      }
    }

    /**
     * `interact(p1, p2)`: within the interaction radius the pair is pushed by
     * the equal and opposite forces of `Forces.Interact`.
     */
    method Interact(cfg: Config, p1: Particle, p2: Particle)
      requires cfg.Valid() && cfg.IsType(p1.kind) && cfg.IsType(p2.kind)
      modifies p1`vx, p1`vy, p2`vx, p2`vy
      ensures var r := Forces.Interact(cfg, old(p1.Snapshot()), old(p2.Snapshot()));
        p1.Snapshot() == r.0 && p2.Snapshot() == r.1
    {
      ghost var a, b := p1.Snapshot(), p2.Snapshot();
      var dx := p2.x - p1.x;
      var dy := p2.y - p1.y;
      var distance := cfg.sqrt(dx * dx + dy * dy);
      ghost var q := DistSq(a.x, a.y, b);
      assert dx * dx + dy * dy == q;
      if distance < cfg.interactionRadius {
        if distance == 0.0 {
          p1.Halt();
          p2.Halt();
        } else {
          JsMath.SquareNonNegative(dx);
          JsMath.SquareNonNegative(dy);
          cfg.Root(q);
          JsMath.RootSign(distance, q);
          assert p1 != p2;
          var force := Forces.Strength(cfg, p1.kind, p2.kind);
          var fx := dx / distance * force;
          var fy := dy / distance * force;
          ghost var f := Forces.ForceOn(cfg, a, b);
          assert fx == f.0 && fy == f.1;
          p1.ApplyForce(cfg, fx, fy);
          p2.ApplyForce(cfg, -fx, -fy);
        }
      }
    }

    /** One step of the nested loops: `interact(ps[i], ps[j])` on the collection's snapshots. */
    method InteractPair(cfg: Config, ps: seq<Particle>, i: nat, j: nat)
      requires cfg.Valid() && Distinct(ps) && i < j < |ps| && Pairs.AllTyped(cfg, Snap(ps))
      modifies {ps[i], ps[j]}`vx, {ps[i], ps[j]}`vy
      ensures Snap(ps) == Pairs.InteractAt(cfg, old(Snap(ps)), (i, j))
    {
      ghost var vs := Snap(ps);
      assert vs[i] == ps[i].Snapshot() && vs[j] == ps[j].Snapshot();
      Interact(cfg, ps[i], ps[j]);
      ghost var ws := Pairs.InteractAt(cfg, vs, (i, j));
      forall k | 0 <= k < |ps| ensures Snap(ps)[k] == ws[k] {
        if k != i && k != j {
          assert ps[k] != ps[i] && ps[k] != ps[j];
          assert ps[k].Snapshot() == old(ps[k].Snapshot());
        }
      }
    }

    /**
     * The nested loops of `update()`: `interact(particles[i], particles[j])`
     * for every i < j, row by row, which is `Pairs.PairPass` over `Pairs.Pairs`.
     */
    method ForcePass(cfg: Config)
      requires cfg.Valid() && Valid(cfg)
      modifies particles`vx, particles`vy
      ensures Snap(particles) == Pairs.PairPass(cfg, old(Snap(particles)), Pairs.Pairs(|particles|))
    {
      hide *;
      var ps := particles;
      ghost var vs := Snap(ps);
      Typed(cfg);
      Pairs.PassEnds(cfg, vs);
      for i := 0 to |ps|
        invariant Snap(ps) == Pairs.PairPass(cfg, vs, Pairs.Rows(i, |ps|))
      {
        ForceRow(cfg, ps, i);
        Pairs.RowsStep(cfg, vs, i);
      }
    }

    /** The inner loop of the force pass for row i: `interact(ps[i], ps[j])` for j = i+1 .. n-1. */
    method ForceRow(cfg: Config, ps: seq<Particle>, i: nat)
      requires cfg.Valid() && Distinct(ps) && i < |ps| && Pairs.AllTyped(cfg, Snap(ps))
      modifies ps`vx, ps`vy
      ensures Snap(ps) == Pairs.RowPass(cfg, old(Snap(ps)), i, |ps|)
    {
      hide Pairs.InteractAt, Snap;
      ghost var start := Snap(ps);
      for j := i + 1 to |ps|
        invariant Snap(ps) == Pairs.RowPass(cfg, start, i, j)
      {
        InteractPair(cfg, ps, i, j);
      }
    }

    /**
     * `this.particles = this.particles.filter(p => p.isAlive)`: the live
     * particles, in their order.
     */
    method RemoveDead(ghost cfg: Config)
      modifies this`particles
      ensures particles == Culling.Living(old(Snap(particles)))
      ensures forall k | 0 <= k < |particles| :: particles[k].isAlive && particles[k] in old(particles)
      ensures old(Valid(cfg)) ==> Valid(cfg)
    {
      var ps := particles;
      ghost var vs := Snap(ps);
      var survivors := [];
      for k := 0 to |ps|
        invariant survivors == Culling.Living(vs[..k])
      {
        Culling.LivingAppend(vs[..k], [vs[k]]);
        assert vs[..k + 1] == vs[..k] + [vs[k]];
        if ps[k].isAlive {
          survivors := survivors + [ps[k]];
        }
      }
      assert vs[..|ps|] == vs;
      particles := survivors;
      Culling.LivingMembers(vs);
      forall i | 0 <= i < |survivors| ensures survivors[i].isAlive && survivors[i] in ps {
        assert survivors[i] in Culling.Living(vs);
        var k :| 0 <= k < |vs| && vs[k].id == survivors[i] && vs[k].isAlive;
        assert vs[k] == ps[k].Snapshot();
      }
      if old(Valid(cfg)) {
        assert Culling.Ids(vs) == ps;
        Culling.LivingDistinct(vs);
      }
    }

    /**
     * The last loop of `update()`: each particle, in order, updates and, on a
     * roll below 0.005, casts its magic over the collection with the draws
     * (rx, ry).
     */
    method StepAll(cfg: Config, rolls: seq<real>, draws: seq<(real, real)>)
      requires cfg.Valid() && Valid(cfg) && |rolls| == |particles| && |draws| == |particles|
      requires forall k | 0 <= k < |draws| :: 0.0 <= draws[k].0 < 1.0
      modifies particles
      ensures forall k | 0 <= k < |particles| ::
        (particles[k].isAlive ==> old(particles[k].isAlive)) && old(particles[k].age) <= particles[k].age
    {
      var k := 0;
      while k < |particles|
        invariant 0 <= k <= |particles|
        invariant forall j | 0 <= j < |particles| ::
          (particles[j].isAlive ==> old(particles[j].isAlive)) && old(particles[j].age) <= particles[j].age
      {
        Step(cfg, k, rolls[k], draws[k].0, draws[k].1);
        k := k + 1;
      }
    }

    /** One turn of the last loop: particles[i] updates and, on a low roll, casts. */
    method Step(cfg: Config, i: nat, roll: real, rx: real, ry: real)
      requires cfg.Valid() && Distinct(particles) && i < |particles| && 0.0 <= rx < 1.0
      modifies particles
      ensures forall j | 0 <= j < |particles| ::
        (particles[j].isAlive ==> old(particles[j].isAlive)) && old(particles[j].age) <= particles[j].age
    {
      var p := particles[i];
      p.Update(cfg);
      if roll < 0.005 {
        p.CastMagic(cfg, particles, rx, ry);
      }
    }

    /**
     * `update()`: while paused nothing changes. Otherwise the force pass runs,
     * the dead are dropped, keeping the order of the rest, and every survivor
     * updates and maybe casts (rolls[k] and draws[k] are the k-th survivor's
     * random draws).
     */
    method Update(cfg: Config, rolls: seq<real>, draws: seq<(real, real)>)
      requires cfg.Valid() && Valid(cfg) && |rolls| == |particles| && |draws| == |particles|
      requires forall k | 0 <= k < |draws| :: 0.0 <= draws[k].0 < 1.0
      modifies this`particles, particles
      ensures Valid(cfg)
      ensures old(isPaused) ==> particles == old(particles) && forall p | p in particles :: unchanged(p)
      ensures !old(isPaused) ==> particles == Culling.Living(old(Snap(particles)))
      ensures !old(isPaused) ==> forall p | p in particles :: p in old(particles) && old(p.age) <= p.age
    {
      if isPaused {
        return;
      }
      ghost var vs := Snap(particles);
      ForcePass(cfg);
      Pairs.ForcePassKeepsAllButVelocity(cfg, vs);
      Culling.LivingSeesOnlyLife(vs, Snap(particles));
      RemoveDead(cfg);
      var n := |particles|;
      StepAll(cfg, rolls[..n], draws[..n]);
    }

    /**
     * What `draw()` changes besides the canvas: each particle's lightning bolt
     * is drawn once and its target is then cleared, so a strike lasts one
     * frame. Nothing else about a particle changes.
     */
    method Draw()
      modifies particles`lightningTarget
      ensures forall k | 0 <= k < |particles| :: particles[k].lightningTarget == null
    {
      var ps := particles;
      for i := 0 to |ps|
        invariant forall k | 0 <= k < i :: ps[k].lightningTarget == null
      {
        if ps[i].lightningTarget != null {
          ps[i].lightningTarget := null;
        }
      }
    }
  }
}
