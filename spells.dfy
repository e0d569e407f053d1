/**
 * The fifteen magic effects a particle can cast (`Particle.castMagic` and the
 * effect routines it dispatches to), specified as functions from the old
 * snapshot of one particle to its new snapshot. The caster is identified by
 * its `id`; every range test is centred on the caster's position.
 */
module Spells {
  import opened Wrappers
  import opened Configs
  import opened Views
  import Kinematics
  import JsMath

  datatype Spell =
    | Fireball | Heal | Teleport | Shield | Raid | Lightning | BlackHole | Pentagram
    | Vortex | TimeWarp | Fractalize | Supernova | QuantumEntanglement | CreateAtom

  /**
   * The dispatch table of `castMagic`: type k runs the k-th routine, types 9
   * and 12 both run the time warp, and any other type runs nothing.
   */
  function SpellOf(kind: int): (s: Option<Spell>)
    ensures s.Some? <==> 0 <= kind <= 14
    ensures kind == 9 || kind == 12 ==> s == Some(TimeWarp)
  {
    if kind == 0 then Some(Fireball)
    else if kind == 1 then Some(Heal)
    else if kind == 2 then Some(Teleport)
    else if kind == 3 then Some(Shield)
    else if kind == 4 then Some(Raid)
    else if kind == 5 then Some(Lightning)
    else if kind == 6 then Some(BlackHole)
    else if kind == 7 then Some(Pentagram)
    else if kind == 8 then Some(Vortex)
    else if kind == 9 then Some(TimeWarp)
    else if kind == 10 then Some(Fractalize)
    else if kind == 11 then Some(Supernova)
    else if kind == 12 then Some(TimeWarp)
    else if kind == 13 then Some(QuantumEntanglement)
    else if kind == 14 then Some(CreateAtom)
    else None
  }

  /** Two different types share an effect only for the pair 9 and 12. */
  lemma SharedSpellIsTimeWarp(a: int, b: int)
    requires a < b && SpellOf(a).Some? && SpellOf(a) == SpellOf(b)
    ensures a == 9 && b == 12 && SpellOf(a) == Some(TimeWarp)
  {
  }

  /** Every effect routine is reachable from some type. */
  lemma EverySpellHasAType(s: Spell)
    ensures exists kind :: SpellOf(kind) == Some(s)
  {
    var k :=
      match s
      case Fireball => 0
      case Heal => 1
      case Teleport => 2
      case Shield => 3
      case Raid => 4
      case Lightning => 5
      case BlackHole => 6
      case Pentagram => 7
      case Vortex => 8
      case TimeWarp => 9
      case Fractalize => 10
      case Supernova => 11
      case QuantumEntanglement => 13
      case CreateAtom => 14;
    assert SpellOf(k) == Some(s);
  }

  /** The guard every effect applies to a particle p: `p !== this && p.isAlive && this.distanceTo(p) < r`. */
  predicate Eligible<Id(==)>(me: Id, cx: real, cy: real, r: real, v: Vitals<Id>) {
    v.id != me && v.isAlive && Near(cx, cy, v, r)
  }

  /** The atom's guard, the same with `<=`. */
  predicate EligibleWithin<Id(==)>(me: Id, cx: real, cy: real, r: real, v: Vitals<Id>) {
    v.id != me && v.isAlive && Reach(cx, cy, v, r)
  }

  /** `takeDamage(amount)`: health drops by amount; a non-positive result kills. */
  function Damage<Id>(v: Vitals<Id>, amount: real): Vitals<Id> {
    v.(health := v.health - amount, isAlive := v.isAlive && v.health - amount > 0.0)
  }

  /** Damage lowers health by exactly the amount, kills exactly when health reaches 0, and never revives. */
  lemma DamageOneWay<Id>(v: Vitals<Id>, amount: real)
    ensures Damage(v, amount).health == v.health - amount
    ensures Damage(v, amount).isAlive ==> v.isAlive
    ensures v.isAlive ==> (Damage(v, amount).isAlive <==> v.health - amount > 0.0)
    ensures Damage(v, amount).(health := v.health, isAlive := v.isAlive) == v
  {
  }

  /** fireball: every live other within 100 is pushed away (force 0.1 per unit of offset) and damaged. */
  function FireballOn<Id(==)>(cfg: Config, me: Vitals<Id>, v: Vitals<Id>): Vitals<Id>
    requires cfg.Valid()
  {
    if Eligible(me.id, me.x, me.y, 100.0, v) then
      var vel := Kinematics.ClampVelocity(cfg, v.vx + (v.x - me.x) * 0.1, v.vy + (v.y - me.y) * 0.1);
      Damage(v.(vx := vel.0, vy := vel.1), cfg.damageAmount)
    else v
  }

  /** heal: every live other within 50 gains healAmount, capped at 10. */
  function HealOn<Id(==)>(cfg: Config, me: Vitals<Id>, v: Vitals<Id>): Vitals<Id> {
    if Eligible(me.id, me.x, me.y, 50.0, v) then
      v.(health := JsMath.Min(v.health + cfg.healAmount, 10.0))
    else v
  }

  /** teleport: the caster moves to (rx * canvasWidth, ry * canvasHeight). */
  function TeleportOn<Id(==)>(cfg: Config, me: Id, rx: real, ry: real, v: Vitals<Id>): Vitals<Id> {
    if v.id == me then v.(x := rx * cfg.canvasWidth, y := ry * cfg.canvasHeight) else v
  }

  /** For draws in [0, 1), as `Math.random()` gives, the teleport lands on the canvas. */
  lemma TeleportLandsOnCanvas<Id>(cfg: Config, me: Id, rx: real, ry: real, v: Vitals<Id>)
    requires cfg.Valid() && 0.0 <= rx < 1.0 && 0.0 <= ry < 1.0
    ensures var w := TeleportOn(cfg, me, rx, ry, v);
      && (v.id == me ==> 0.0 <= w.x < cfg.canvasWidth && 0.0 <= w.y < cfg.canvasHeight)
      && (v.id != me ==> w == v)
  {
    JsMath.ScaleAbove(1.0, rx, cfg.canvasWidth);
    JsMath.ScaleAbove(1.0, ry, cfg.canvasHeight);
    Kinematics.NonNegProduct(rx, cfg.canvasWidth);
    Kinematics.NonNegProduct(ry, cfg.canvasHeight);
  }

  /**
   * The damaging sweep of raid (30, twice the damage), pentagram (100, twice),
   * supernova (200, three times) and the atom (atomRadius, closed, atomDamage).
   */
  function StrikeOn<Id(==)>(me: Id, cx: real, cy: real, r: real, closed: bool, amount: real, v: Vitals<Id>): Vitals<Id> {
    if (if closed then EligibleWithin(me, cx, cy, r, v) else Eligible(me, cx, cy, r, v)) then Damage(v, amount)
    else v
  }

  /** `particles.filter(...)`: the ids of the live others within r, in collection order. */
  function Targets<Id(==)>(me: Id, cx: real, cy: real, r: real, vs: seq<Vitals<Id>>): (ids: seq<Id>)
    ensures |ids| <= |vs|
    decreases |vs|
  {
    if vs == [] then []
    else Targets(me, cx, cy, r, vs[..|vs| - 1]) + (if Eligible(me, cx, cy, r, vs[|vs| - 1]) then [vs[|vs| - 1].id] else [])
  }

  /** The filter keeps exactly the ids of the eligible particles. */
  lemma {:induction false} TargetsAreEligible<Id>(me: Id, cx: real, cy: real, r: real, vs: seq<Vitals<Id>>)
    ensures forall i | i in Targets(me, cx, cy, r, vs) :: exists v | v in vs :: v.id == i && Eligible(me, cx, cy, r, v)
    ensures forall v | v in vs && Eligible(me, cx, cy, r, v) :: v.id in Targets(me, cx, cy, r, vs)
    decreases |vs|
  {
    if vs != [] {
      var init := vs[..|vs| - 1];
      var last := vs[|vs| - 1];
      TargetsAreEligible(me, cx, cy, r, init);
      assert forall v | v in init :: v in vs;
      assert forall v | v in vs :: v == last || v in init;
    }
  }

  /** lightning: one of the live others within 150, chosen by the random draw rx. */
  function LightningPick<Id(==)>(me: Vitals<Id>, vs: seq<Vitals<Id>>, rx: real): Option<Id>
    requires 0.0 <= rx < 1.0
  {
    var targets := Targets(me.id, me.x, me.y, 150.0, vs);
    if |targets| > 0 then Some(targets[JsMath.FloorIndex(rx, |targets|)]) else None
  }

  /** Lightning picks a target exactly when some particle is eligible, and the pick is one of them. */
  lemma LightningPicksEligible<Id>(me: Vitals<Id>, vs: seq<Vitals<Id>>, rx: real)
    requires 0.0 <= rx < 1.0
    ensures var pick := LightningPick(me, vs, rx);
      && (pick.Some? <==> exists v | v in vs :: Eligible(me.id, me.x, me.y, 150.0, v))
      && (pick.Some? ==> exists v | v in vs :: v.id == pick.value && Eligible(me.id, me.x, me.y, 150.0, v))
  {
    var targets := Targets(me.id, me.x, me.y, 150.0, vs);
    TargetsAreEligible(me.id, me.x, me.y, 150.0, vs);
    if |targets| > 0 {
      assert targets[JsMath.FloorIndex(rx, |targets|)] in targets;
    }
  }

  /** The caster is never its own lightning target. */
  lemma LightningSparesCaster<Id>(me: Vitals<Id>, vs: seq<Vitals<Id>>, rx: real)
    requires 0.0 <= rx < 1.0
    ensures LightningPick(me, vs, rx) != Some(me.id)
  {
    LightningPicksEligible(me, vs, rx);
  }

  /** The lightning target takes 1.5 times the damage; nobody else is touched. */
  function StruckOn<Id(==)>(pick: Option<Id>, amount: real, v: Vitals<Id>): Vitals<Id> {
    if pick == Some(v.id) then Damage(v, amount) else v
  }

  /** `particles.find(...)`: the index of the first eligible particle, if any. */
  function FindEligible<Id(==)>(me: Id, cx: real, cy: real, r: real, vs: seq<Vitals<Id>>): (k: Option<nat>)
    ensures k.Some? ==> k.value < |vs| && Eligible(me, cx, cy, r, vs[k.value])
    ensures k.Some? ==> forall j | 0 <= j < k.value :: !Eligible(me, cx, cy, r, vs[j])
    ensures k.None? ==> forall j | 0 <= j < |vs| :: !Eligible(me, cx, cy, r, vs[j])
    decreases |vs|
  {
    if vs == [] then None
    else if Eligible(me, cx, cy, r, vs[0]) then Some(0)
    else
      match FindEligible(me, cx, cy, r, vs[1..])
      case None => None
      case Some(k) => Some(k + 1)
  }

  /** An index that is eligible with no eligible one before it (or none at all) is what find returns. */
  lemma FirstEligible<Id>(me: Id, cx: real, cy: real, r: real, vs: seq<Vitals<Id>>, found: Option<nat>)
    requires found.None? ==> forall j | 0 <= j < |vs| :: !Eligible(me, cx, cy, r, vs[j])
    requires found.Some? ==>
      && found.value < |vs|
      && Eligible(me, cx, cy, r, vs[found.value])
      && forall j | 0 <= j < found.value :: !Eligible(me, cx, cy, r, vs[j])
    ensures FindEligible(me, cx, cy, r, vs) == found
  {
  }

  /** quantumEntanglement: the partner is the first live other within 100. */
  function EntanglePartner<Id(==)>(me: Vitals<Id>, vs: seq<Vitals<Id>>): Option<Id> {
    match FindEligible(me.id, me.x, me.y, 100.0, vs)
    case None => None
    case Some(k) => Some(vs[k].id)
  }

  /** The entanglement link is set on both ends: caster to partner, partner to caster. */
  function LinkOn<Id(==)>(me: Id, partner: Option<Id>, v: Vitals<Id>): Vitals<Id> {
    match partner
    case None => v
    case Some(t) =>
      if v.id == t then v.(entangled := Some(me))
      else if v.id == me then v.(entangled := Some(t))
      else v
  }

  /**
   * vortex's push on one particle: `(-sin a, cos a) * 0.1` with a the angle of
   * the offset from the caster, i.e. a tenth of the unit vector turned a
   * quarter turn; `atan2(0, 0)` is 0, so a particle on top of the caster gets (0, 0.1).
   */
  function VortexPush<Id>(cfg: Config, me: Vitals<Id>, v: Vitals<Id>): (real, real) {
    var d := cfg.sqrt(DistSq(me.x, me.y, v));
    if d > 0.0 then (-((v.y - me.y) / d) * 0.1, (v.x - me.x) / d * 0.1) else (0.0, 0.1)
  }

  /** vortex: every live other within 100 receives the push, speed-clamped. */
  function VortexOn<Id(==)>(cfg: Config, me: Vitals<Id>, v: Vitals<Id>): Vitals<Id>
    requires cfg.Valid()
  {
    if Eligible(me.id, me.x, me.y, 100.0, v) then
      var push := VortexPush(cfg, me, v);
      var vel := Kinematics.ClampVelocity(cfg, v.vx + push.0, v.vy + push.1);
      v.(vx := vel.0, vy := vel.1)
    else v
  }

  /**
   * The vortex push is tangential: at right angles to the offset and of length
   * 0.1; on top of the caster it is (0, 0.1).
   */
  lemma VortexPushIsTangent<Id>(cfg: Config, me: Vitals<Id>, v: Vitals<Id>)
    requires cfg.Valid()
    ensures var push := VortexPush(cfg, me, v);
      && (DistSq(me.x, me.y, v) > 0.0 ==> push.0 * (v.x - me.x) + push.1 * (v.y - me.y) == 0.0)
      && push.0 * push.0 + push.1 * push.1 == 0.01
      && (DistSq(me.x, me.y, v) == 0.0 ==> push == (0.0, 0.1))
  {
    var q := DistSq(me.x, me.y, v);
    var dx, dy := v.x - me.x, v.y - me.y;
    JsMath.SquareNonNegative(dx);
    JsMath.SquareNonNegative(dy);
    var d := cfg.sqrt(q);
    cfg.Root(q);
    if d > 0.0 {
      JsMath.ScaleAbove(d, 0.0, d);
      assert 0.0 * d == 0.0;
      calc {
        q;
        == d * d;
        > 0.0;
      }
      var ux, uy := dx / d, dy / d;
      assert ux * d == dx && uy * d == dy;
      calc {
        (ux * ux + uy * uy) * q;
        == (ux * d) * (ux * d) + (uy * d) * (uy * d);
        == q;
      }
      JsMath.UnitFactor(ux * ux + uy * uy, q);
      calc {
        -uy * 0.1 * dx + ux * 0.1 * dy;
        == 0.1 * (ux * dy - uy * dx);
        == 0.1 * (ux * (uy * d) - uy * (ux * d));
        == 0.0;
      }
      assert VortexPush(cfg, me, v) == (-uy * 0.1, ux * 0.1);
    } else {
      assert q == 0.0;
    }
  }

  /** The time warp's delayed sweep: live others within 150 are 100 younger, never below 0. */
  function WarpOn<Id(==)>(me: Id, cx: real, cy: real, v: Vitals<Id>): Vitals<Id> {
    if Eligible(me, cx, cy, 150.0, v) then v.(age := if v.age < 100 then 0 else v.age - 100)
    else v
  }

  /**
   * The black hole's delayed sweep: live others within the current radius are
   * placed within 5 of the caster (jitter holds the two random draws) and stopped.
   */
  function PullOn<Id(==)>(me: Id, cx: real, cy: real, radius: real, jitter: (real, real), v: Vitals<Id>): Vitals<Id> {
    if Eligible(me, cx, cy, radius, v) then
      v.(x := cx + (jitter.0 - 0.5) * 10.0, y := cy + (jitter.1 - 0.5) * 10.0, vx := 0.0, vy := 0.0)
    else v
  }

  /**
   * For draws in [0, 1), the black hole places each eligible particle within
   * 5 of (cx, cy) on both axes and stops it; everyone else is untouched.
   */
  lemma PullLandsNearCaster<Id>(me: Id, cx: real, cy: real, radius: real, jitter: (real, real), v: Vitals<Id>)
    requires 0.0 <= jitter.0 < 1.0 && 0.0 <= jitter.1 < 1.0
    ensures var w := PullOn(me, cx, cy, radius, jitter, v);
      && (Eligible(me, cx, cy, radius, v) ==>
            && -5.0 <= w.x - cx < 5.0 && -5.0 <= w.y - cy < 5.0
            && w.vx == 0.0 && w.vy == 0.0
            && w.(x := v.x, y := v.y, vx := v.vx, vy := v.vy) == v)
      && (!Eligible(me, cx, cy, radius, v) ==> w == v)
  {
  }

  /**
   * What casting `spell` (the dispatched routine, or none) does at once to the
   * particle whose old snapshot is v; me is the caster's old snapshot and vs the
   * old snapshots of the whole collection. The delayed and periodic parts of
   * the other effects happen later, in the timer callbacks.
   */
  function CastUpon<Id(==)>(cfg: Config, spell: Option<Spell>, me: Vitals<Id>, vs: seq<Vitals<Id>>,
                            rx: real, ry: real, v: Vitals<Id>): Vitals<Id>
    requires cfg.Valid() && 0.0 <= rx < 1.0
  {
    match spell
    case None => v
    case Some(s) =>
      match s
      case Fireball => FireballOn(cfg, me, v)
      case Heal => HealOn(cfg, me, v)
      case Teleport => TeleportOn(cfg, me.id, rx, ry, v)
      case Vortex => VortexOn(cfg, me, v)
      case Raid => StrikeOn(me.id, me.x, me.y, 30.0, false, cfg.damageAmount * 2.0, v)
      case Lightning => StruckOn(LightningPick(me, vs, rx), cfg.damageAmount * 1.5, v)
      case QuantumEntanglement => LinkOn(me.id, EntanglePartner(me, vs), v)
      case _ => v
  }

  /** No cast ever revives a particle, ages it, retypes it or changes its identity. */
  lemma CastNeverRevives<Id>(cfg: Config, spell: Option<Spell>, me: Vitals<Id>, vs: seq<Vitals<Id>>,
                             rx: real, ry: real, v: Vitals<Id>)
    requires cfg.Valid() && 0.0 <= rx < 1.0
    ensures var w := CastUpon(cfg, spell, me, vs, rx, ry, v);
      && (w.isAlive ==> v.isAlive)
      && w.age == v.age && w.kind == v.kind && w.id == v.id
  {
  }

  /** heal changes only the health of live others within 50, to min(health + healAmount, 10). */
  lemma HealCapsAtTen<Id>(cfg: Config, me: Vitals<Id>, v: Vitals<Id>)
    ensures var w := HealOn(cfg, me, v);
      && w.(health := v.health) == v
      && (Eligible(me.id, me.x, me.y, 50.0, v) ==> w.health == JsMath.Min(v.health + cfg.healAmount, 10.0) && w.health <= 10.0)
      && (!Eligible(me.id, me.x, me.y, 50.0, v) ==> w == v)
  {
  }

  /**
   * fireball adds a tenth of an eligible particle's offset from the caster to
   * its velocity, clamps the result to maxSpeed without turning it, and then
   * takes exactly damageAmount of health, killing it exactly when health ends
   * at or below 0. Nothing else about it changes, and a particle that is not
   * eligible is untouched.
   */
  lemma FireballPushesAndBurns<Id>(cfg: Config, me: Vitals<Id>, v: Vitals<Id>)
    requires cfg.Valid()
    ensures var w := FireballOn(cfg, me, v);
      var ux := v.vx + (v.x - me.x) * 0.1;
      var uy := v.vy + (v.y - me.y) * 0.1;
      && (Eligible(me.id, me.x, me.y, 100.0, v) ==>
            && Kinematics.SpeedSq(w.vx, w.vy) <= cfg.maxSpeed * cfg.maxSpeed
            && (Kinematics.SpeedSq(ux, uy) <= cfg.maxSpeed * cfg.maxSpeed ==> w.vx == ux && w.vy == uy)
            && w.vx * uy == w.vy * ux && w.vx * ux >= 0.0 && w.vy * uy >= 0.0
            && w.health == v.health - cfg.damageAmount
            && (w.isAlive <==> w.health > 0.0)
            && w.(vx := v.vx, vy := v.vy, health := v.health, isAlive := v.isAlive) == v)
      && (!Eligible(me.id, me.x, me.y, 100.0, v) ==> w == v)
  {
    if Eligible(me.id, me.x, me.y, 100.0, v) {
      var ux := v.vx + (v.x - me.x) * 0.1;
      var uy := v.vy + (v.y - me.y) * 0.1;
      var vel := Kinematics.ClampVelocity(cfg, ux, uy);
      assert FireballOn(cfg, me, v) == Damage(v.(vx := vel.0, vy := vel.1), cfg.damageAmount);
      Kinematics.ClampWithinSpeed(cfg, ux, uy);
      Kinematics.ClampKeepsDirection(cfg, ux, uy);
      if Kinematics.SpeedSq(ux, uy) <= cfg.maxSpeed * cfg.maxSpeed {
        Kinematics.ClampExact(cfg, ux, uy);
      }
    }
  }

  /** A sweep damages exactly the eligible particles, each by exactly the amount. */
  lemma StrikeDamagesEligible<Id>(me: Id, cx: real, cy: real, r: real, amount: real, v: Vitals<Id>)
    ensures var w := StrikeOn(me, cx, cy, r, false, amount, v);
      && (Eligible(me, cx, cy, r, v) ==> w.health == v.health - amount && (w.isAlive <==> w.health > 0.0))
      && (!Eligible(me, cx, cy, r, v) ==> w == v)
      && w.(health := v.health, isAlive := v.isAlive) == v
  {
  }

  /** The time warp makes eligible particles younger by 100, floored at 0, and touches nothing else. */
  lemma WarpFloorsAtZero<Id>(me: Id, cx: real, cy: real, v: Vitals<Id>)
    ensures var w := WarpOn(me, cx, cy, v);
      && w.(age := v.age) == v
      && w.age <= v.age
      && (Eligible(me, cx, cy, 150.0, v) ==> w.age as int == if v.age < 100 then 0 else v.age - 100)
      && (!Eligible(me, cx, cy, 150.0, v) ==> w == v)
  {
  }

  /**
   * The entanglement partner is the first live other within 100 in collection
   * order, and after the link the two ends point at each other.
   */
  lemma {:induction false} EntangleLinksFirst<Id>(me: Vitals<Id>, vs: seq<Vitals<Id>>)
    ensures match EntanglePartner(me, vs)
      case None => forall j | 0 <= j < |vs| :: !Eligible(me.id, me.x, me.y, 100.0, vs[j])
      case Some(t) =>
        && t != me.id
        && (exists k | 0 <= k < |vs| :: vs[k].id == t && Eligible(me.id, me.x, me.y, 100.0, vs[k])
             && forall j | 0 <= j < k :: !Eligible(me.id, me.x, me.y, 100.0, vs[j]))
        && LinkOn(me.id, Some(t), me).entangled == Some(t)
        && (forall v: Vitals<Id> | v.id == t :: LinkOn(me.id, Some(t), v).entangled == Some(me.id))
  {
    match FindEligible(me.id, me.x, me.y, 100.0, vs)
    case None =>
    case Some(k) =>
  }

  /** Lightning damages one eligible particle when there is one, and nobody otherwise. */
  lemma LightningStrikesOne<Id>(cfg: Config, me: Vitals<Id>, vs: seq<Vitals<Id>>, rx: real)
    requires cfg.Valid() && 0.0 <= rx < 1.0
    ensures var pick := LightningPick(me, vs, rx);
      && ((forall v | v in vs :: !Eligible(me.id, me.x, me.y, 150.0, v)) ==>
            forall v | v in vs :: CastUpon(cfg, Some(Lightning), me, vs, rx, 0.0, v) == v)
      && (pick.Some? ==>
            && pick.value != me.id
            && forall v | v in vs :: CastUpon(cfg, Some(Lightning), me, vs, rx, 0.0, v) ==
                 (if v.id == pick.value then Damage(v, cfg.damageAmount * 1.5) else v))
  {
    LightningPicksEligible(me, vs, rx);
  }
}
