# particle-life in Dafny

A model of the simulation core of *particle-life*, a browser toy in which
coloured particles attract and repel one another through a per-type
attraction matrix and now and then cast one of fifteen "magic" effects on
their neighbours. Two source files make up the core:

- `js/particle.js`, the `Particle` class, is modelled by `Particles.Particle`.
  It is a Dafny class whose fields are updated in place, as in the source:
  - position, velocity, health, age and liveness;
  - the cooldown and the size;
  - the caster-side effect state (shield, black hole, pentagram, vortex,
    fractal, supernova, time warp, entanglement, atom, lightning target).

  Its methods mirror the source's methods:
  - `update`, `applyForce`, `takeDamage` and `distanceTo`;
  - `castMagic` and the effect routines it dispatches to;
  - the timer callbacks those routines register.
- `js/simulation.js`, the `Simulation` class, is modelled by
  `Simulations.Simulation`. It owns the particle collection (a `seq` field
  that the methods reassign, as the source reassigns, pushes to and splices
  its array) and the pause flag. It has these methods:
  - `update`: the all-pairs force pass, the filter of dead particles and the
    per-particle step;
  - `interact`, `spawnParticle`, `initParticles`, `splitParticle` and
    `handleKeyPress`.

The methods are proved against specification functions over immutable
particle snapshots (`Views.Vitals`). The properties the source promises are
proved as lemmas about those functions. The modules are:
- `Spells`: the effect dispatch and what each effect does to one particle.
- `Forces`: the pair force of `interact`.
- `Pairs`: the order in which the nested loops visit the pairs.
- `Culling`: the filter of dead particles.
- `Ramps`: the `setInterval` progress counters of pentagram, supernova and
  the atom, counted in ticks.
- `Kinematics`: wrap-around, size clamp and speed clamp.
- `Keys`: key handling, with JavaScript string comparison and `parseInt`.
- `JsMath`: the JavaScript `%` (truncating) and `Math.floor` of a random draw.

Modelling choices:
- **Configuration.** The global `CONFIG` object is an immutable
  `Configs.Config` passed to every operation.
- **Numbers.** Positions, velocities, health and amounts are `real`. Ages and
  cooldowns are `nat`.
- **Square root.** `Math.sqrt` is the configuration's `sqrt`, required to be
  the exact non-negative root. Range tests are proved equivalent to
  comparisons of squared distances.
- **Randomness.** Every `Math.random()` draw is a value the caller passes
  in. A draw is required to lie in [0, 1) only where the model indexes a list
  with it (the lightning's pick). Elsewhere any real is accepted, and the
  results that depend on the range take [0, 1) as a hypothesis: the initial
  type (`Simulations.InitialType`), the black hole's jitter
  (`Spells.PullLandsNearCaster`) and the teleport
  (`Spells.TeleportLandsOnCanvas`).
- **Timers.** The callbacks of `setTimeout` and `setInterval` are methods the
  caller runs; each one works on the particle array the effect captured
  (a `…Scope` field).

Points where the code's behaviour is easy to misread:
- **Wrap-around.** `(x + width) % width` lands on the canvas for a position
  on it, for any position to its right, and for one no further than one width
  to its left. When a particle moved more than a canvas width to the left,
  JavaScript's `%` keeps the negative sign and the coordinate lands at or left
  of 0, at 0 exactly when `x + width` is a whole multiple of the width
  (`Kinematics.WrapInBounds`, `Kinematics.WrapFarLeftStaysOff`).
- **Entanglement.** Links need not be symmetric: another caster can
  overwrite the partner's link, and the expiry clears both ends whatever they
  point to by then (`Particles.Particle.EntanglementExpire`).
- **Lightning target.** `js/particle.js` sets it and never clears it; `draw()`
  in `js/simulation.js` clears it right after drawing the bolt, so a strike
  shows for one frame (`Simulations.Simulation.Draw`).
- **`splitParticle`.** It is a standalone operation; `update` does not call
  it.

## Model

| member | source | states |
|---|---|---|
| Particles.Particle.constructor | js/particle.js:2-25 | a new particle is at the given point, at rest, of minimum size, with health 10, alive, age 0, cooldown 0, no entanglement and no effect active or pending |
| Particles.Particle.SupernovaProgress | js/particle.js:211-225 | supernovaProgress is a number exactly while the supernova interval runs, and then equals 0.05 per tick taken; otherwise it is null |
| Particles.Particle.DistanceTo | js/particle.js:277-281 | the distance is non-negative and its square is dx² + dy² |
| Particles.Particle.InRange | js/particle.js:92 | the effect guard `p !== this && p.isAlive && distanceTo(p) < r` holds exactly when the snapshot is eligible (squared distance below r², r positive) |
| Particles.Particle.InReach | js/particle.js:263 | the atom's guard with `<=` holds exactly when the snapshot is within reach (squared distance at most r²) |
| Particles.Particle.Update | js/particle.js:32-51 | a dead particle keeps every field; a live one moves by its velocity and wraps with JavaScript's `%`, ages by exactly 1, has its size clamped into [particleMinSize, particleMaxSize] and a positive cooldown lowered by 1, never below 0 |
| Particles.Particle.ApplyForce | js/particle.js:53-65 | the new velocity is the old one plus the force, scaled back onto the maxSpeed circle when faster (its bound and direction are ClampWithinSpeed, ClampExact and ClampKeepsDirection) |
| Particles.Particle.Halt | js/particle.js:61-64 | `applyForce` with the NaN force of a 0/0 division zeroes the velocity and changes nothing else |
| Particles.Particle.TakeDamage | js/particle.js:270-275 | health drops by exactly the amount and the particle dies exactly when the new health is ≤ 0; a dead particle stays dead (with Spells.DamageOneWay) |
| Particles.Particle.Strike | js/particle.js:119-126 | every live other in range takes exactly the amount of damage, everyone else is untouched, the caster included |
| Particles.Particle.Raid | js/particle.js:119-126 | every live other within 30 takes twice damageAmount; out-of-range, dead and caster are unchanged |
| Particles.Particle.Heal | js/particle.js:101-108 | every live other within 50 gets min(health + healAmount, 10); nobody else changes, the caster included |
| Particles.Particle.Mend | js/particle.js:104-106 | one eligible particle's health becomes min(health + healAmount, 10) |
| Particles.Particle.Fireball | js/particle.js:89-99 | every live other within 100 is pushed away by a tenth of its offset (speed-clamped) and then damaged by damageAmount; nobody else changes |
| Particles.Particle.Scorch | js/particle.js:92-97 | one eligible particle receives the fireball's push and damage, in that order |
| Particles.Particle.Teleport | js/particle.js:110-112 | the caster moves to (rx · canvasWidth, ry · canvasHeight) and nothing else changes |
| Particles.Particle.Candidates | js/particle.js:129 | the filter returns exactly the live others within r, in collection order, all taken from the collection |
| Particles.Particle.FirstInRange | js/particle.js:241 | `find` returns the index of the first live other within r, or none when there is none |
| Particles.Particle.PickTarget | js/particle.js:129-131 | the lightning's pick is the filtered list's element at floor(rx · count), a member of the collection and never the caster |
| Particles.Particle.Lightning | js/particle.js:128-137 | the picked target alone takes 1.5 × damageAmount and becomes lightningTarget; with no eligible particle nothing changes |
| Particles.Particle.QuantumEntanglement | js/particle.js:240-250 | the first live other within 100 and the caster point at each other and the expiry remembers the partner; without one nothing changes |
| Particles.Particle.EntanglementExpire | js/particle.js:245-248 | the expiry clears the caster's link and its partner's link and forgets the partner |
| Particles.Particle.Vortex | js/particle.js:167-178 | every live other within 100 gets the tangential push of length 0.1 (speed-clamped), nobody else changes, and the vortex shows (progress 1) |
| Particles.Particle.Swirl | js/particle.js:171-174 | one eligible particle receives the vortex push |
| Particles.Particle.VortexExpire | js/particle.js:177 | the vortex timeout sets vortexProgress back to 0 |
| Particles.Particle.Shield | js/particle.js:114-117 | the shield is raised |
| Particles.Particle.ShieldExpire | js/particle.js:116 | the shield timeout lowers the shield |
| Particles.Particle.Fractalize | js/particle.js:197-209 | the fractal points are present |
| Particles.Particle.FractalExpire | js/particle.js:208 | the fractal timeout empties the fractal points |
| Particles.Particle.BlackHole | js/particle.js:139-141 | the radius opens to 100 and the collapse timer captures the collection |
| Particles.Particle.BlackHoleFire | js/particle.js:141-149 | every live other closer than the current radius is placed at the caster plus (jitter − 0.5) · 10 on each axis and stopped, nobody else changes, then the radius closes to 0 |
| Particles.Particle.Pull | js/particle.js:143-146 | one eligible particle is placed at the caster plus the jitter and its velocity zeroed |
| Particles.Particle.Pentagram | js/particle.js:152-154 | pentagramProgress restarts at 0 with its interval running over the captured collection |
| Particles.Particle.PentagramTick | js/particle.js:154-164 | one beat adds 0.05; on the beat that reaches 1 the interval stops and every live other within 100 takes twice damageAmount, on every other beat nobody is damaged |
| Particles.Particle.Supernova | js/particle.js:211-213 | supernovaProgress restarts at 0 with its interval running over the captured collection |
| Particles.Particle.SupernovaTick | js/particle.js:213-224 | one beat adds 0.05; on the beat that reaches 1 the interval stops, progress returns to null, and every live other within 200 takes three times damageAmount |
| Particles.Particle.TimeWarp | js/particle.js:227-229 | the warp shows and its timer captures the collection |
| Particles.Particle.TimeWarpFire | js/particle.js:229-237 | every live other within 150 becomes 100 younger, floored at 0, nobody else changes, and the warp stops showing |
| Particles.Particle.Rewind | js/particle.js:231-234 | one eligible particle's age drops by 100, floored at 0 |
| Particles.Particle.CreateAtom | js/particle.js:252-255 | the atom is active at progress 0 with its interval over the captured collection |
| Particles.Particle.AtomTick | js/particle.js:255-267 | a running atom adds 0.02 to progress and 0.1 to the angle, stops on reaching 1, and on that beat too damages every live other within atomRadius (inclusive) by atomDamage; a stopped atom does nothing |
| Particles.Particle.CastMagic | js/particle.js:67-87 | cooling down or dead: nothing changes; otherwise the cooldown is set to CONFIG.magicCooldown and every particle ends as the dispatched effect makes it (CastFrom); in both cases nobody is revived or aged |
| Particles.Particle.CastSpares | js/particle.js:67-87 | after any cast no particle has become alive and no age has changed |
| Particles.Particle.Conjure | js/particle.js:70-86 | the type's routine (or none, for a type outside 0..14) produces exactly the particle states and effect state of Spells.CastUpon and AuraAfter |
| Particles.Particle.Sweep | js/particle.js:71-79 | fireball, heal, raid and vortex cast as specified |
| Particles.Particle.Single | js/particle.js:73-84 | teleport, lightning and entanglement cast as specified |
| Particles.Particle.Arm | js/particle.js:74-85 | shield, black hole, pentagram, time warp, fractal, supernova and atom only set the caster's effect state |
| Particles.Particle.CastFireball | js/particle.js:71 | case 0 casts fireball as specified |
| Particles.Particle.CastHeal | js/particle.js:72 | case 1 casts heal as specified |
| Particles.Particle.CastTeleport | js/particle.js:73 | case 2 casts teleport as specified |
| Particles.Particle.CastShield | js/particle.js:74 | case 3 casts shield as specified |
| Particles.Particle.CastRaid | js/particle.js:75 | case 4 casts raid as specified |
| Particles.Particle.CastLightning | js/particle.js:76 | case 5 casts lightning as specified |
| Particles.Particle.CastBlackHole | js/particle.js:77 | case 6 casts the black hole as specified |
| Particles.Particle.CastPentagram | js/particle.js:78 | case 7 casts the pentagram as specified |
| Particles.Particle.CastVortex | js/particle.js:79 | case 8 casts the vortex as specified |
| Particles.Particle.CastTimeWarp | js/particle.js:80 | cases 9 and 12 cast the time warp as specified |
| Particles.Particle.CastFractalize | js/particle.js:81 | case 10 casts the fractal as specified |
| Particles.Particle.CastSupernova | js/particle.js:82 | case 11 casts the supernova as specified |
| Particles.Particle.CastEntanglement | js/particle.js:84 | case 13 casts the entanglement as specified |
| Particles.Particle.CastAtom | js/particle.js:85 | case 14 casts the atom as specified |
| Spells.SpellOf | js/particle.js:70-86 | a type has an effect exactly when it is in 0..14, and types 9 and 12 both run the time warp |
| Spells.SharedSpellIsTimeWarp | js/particle.js:80-83 | two different types share an effect only for 9 and 12, which share the time warp |
| Spells.EverySpellHasAType | js/particle.js:70-86 | every effect routine is reached by some type |
| Spells.Damage | js/particle.js:270-275 | definition of `takeDamage` on a snapshot: health minus the amount, and death when it ends at or below 0; stated by DamageOneWay |
| Spells.DamageOneWay | js/particle.js:270-275 | damage lowers health by exactly the amount, kills a live particle exactly when health reaches ≤ 0, never revives, and changes nothing else |
| Spells.Targets | js/particle.js:129 | the filtered list is no longer than the collection |
| Spells.TargetsAreEligible | js/particle.js:129 | the filter keeps the id of every eligible particle and only those |
| Spells.LightningPicksEligible | js/particle.js:129-131 | lightning picks a target exactly when some particle is eligible, and the pick is an eligible one |
| Spells.LightningSparesCaster | js/particle.js:129 | the caster is never its own lightning target |
| Spells.LightningStrikesOne | js/particle.js:128-137 | with no eligible particle nobody changes; otherwise exactly the pick, never the caster, takes 1.5 × damageAmount |
| Spells.FindEligible | js/particle.js:241 | the index found is eligible with no eligible particle before it, and none is found only when no particle is eligible |
| Spells.FirstEligible | js/particle.js:241 | the first eligible index (or none) is the only answer `find` can give |
| Spells.EntangleLinksFirst | js/particle.js:240-244 | the partner is the first live other within 100, never the caster, and after the link caster and partner point at each other; with no partner no particle is eligible |
| Spells.VortexPushIsTangent | js/particle.js:172-173 | the vortex push `(-sin a, cos a) · 0.1` is at right angles to the offset, of length 0.1, and (0, 0.1) on top of the caster |
| Spells.HealCapsAtTen | js/particle.js:101-107 | heal changes only the health of eligible particles, to min(health + healAmount, 10), never above 10 |
| Spells.StrikeDamagesEligible | js/particle.js:119-126 | a sweep lowers an eligible particle's health by exactly the amount and kills it exactly when health ends ≤ 0; others are unchanged |
| Spells.WarpFloorsAtZero | js/particle.js:229-236 | the time warp lowers an eligible particle's age by 100, floored at 0, and changes nothing else |
| Spells.PullLandsNearCaster | js/particle.js:142-147 | for jitter draws in [0, 1), a pulled particle lands within 5 of the caster on each axis (in [−5, 5)) and is stopped, and nothing else about it changes; a particle not eligible is untouched |
| Spells.TeleportLandsOnCanvas | js/particle.js:110-112 | for draws in [0, 1), the teleported caster lands in [0, canvasWidth) × [0, canvasHeight); every other particle is untouched |
| Spells.FireballOn | js/particle.js:89-99 | definition of fireball's effect on one particle: an eligible particle within 100 gets a tenth of its offset added to its velocity through the speed limit, then takes damageAmount; stated by FireballPushesAndBurns |
| Spells.FireballPushesAndBurns | js/particle.js:89-99 | an eligible particle ends with speed at most maxSpeed, with exactly the pushed velocity when that is within the limit and a non-negative multiple of it otherwise, with health lowered by exactly damageAmount and dead exactly when health ends ≤ 0, nothing else changed; a particle that is not eligible is untouched |
| Spells.HealOn | js/particle.js:101-108 | definition of heal's effect on one particle: min(health + healAmount, 10) for the live others within 50; stated by HealCapsAtTen |
| Spells.TeleportOn | js/particle.js:110-112 | definition of teleport's effect: the caster's position becomes (rx · canvasWidth, ry · canvasHeight); stated by TeleportLandsOnCanvas |
| Spells.StrikeOn | js/particle.js:119-126 | definition of the damaging sweeps (raid, pentagram, supernova, atom): an eligible particle, with `<` or the atom's `<=`, takes the amount; stated by StrikeDamagesEligible |
| Spells.StruckOn | js/particle.js:130-135 | definition of lightning's effect: only the picked particle takes the amount; stated by LightningStrikesOne |
| Spells.LinkOn | js/particle.js:240-244 | definition of the entanglement link: the partner points at the caster and the caster at the partner; stated by EntangleLinksFirst |
| Spells.VortexOn | js/particle.js:167-175 | definition of vortex's effect on one particle: the tangential push added through the speed limit for the live others within 100; stated by VortexPushIsTangent |
| Spells.WarpOn | js/particle.js:229-236 | definition of the time warp's effect on one particle: age lowered by 100 and floored at 0 for the live others within 150; stated by WarpFloorsAtZero |
| Spells.PullOn | js/particle.js:142-147 | definition of the black hole's pull on one particle: placed at the caster plus the jitter and stopped; stated by PullLandsNearCaster |
| Spells.CastUpon | js/particle.js:67-87 | definition of what each routine of castMagic's switch does at once to one particle; stated by CastNeverRevives |
| Spells.CastNeverRevives | js/particle.js:67-87 | no effect revives a particle or changes its age, type or identity |
| Ramps.ProgressSteps | js/particle.js:155 | a ramp of 20 ticks steps by 0.05, one of 50 ticks by 0.02 |
| Ramps.ProgressReachesOne | js/particle.js:156 | `progress >= 1` holds exactly when all the ticks have been taken |
| Ramps.Tick | js/particle.js:154-164 | a running ramp gains one step; it completes exactly when progress reaches 1, and then stops; a stopped ramp is not ticked |
| Ramps.RunFromStart | js/particle.js:152-165 | started and ticked n times, a ramp has acted min(n, ticks) times and completed once if n ≥ ticks, else never |
| Ramps.CompletesOnLastTick | js/particle.js:156-157 | the completing tick is the ticks-th and no other |
| Ramps.PentagramStrikesOnce | js/particle.js:152-165 | the pentagram deals its damage at most once, and exactly once from the 20th beat on; it runs exactly while progress is below 1 |
| Ramps.AtomStrikesFiftyTimes | js/particle.js:252-268 | the atom damages on each of its first 50 beats and never after, and then stays stopped at progress 1 |
| Kinematics.Wrap | js/particle.js:39-40 | definition of the wrap `(v + extent) % extent` with JavaScript's remainder; its range is stated by WrapInBounds, WrapKeepsOnCanvas and WrapFarLeftStaysOff |
| Kinematics.ClampVelocity | js/particle.js:56-60 | definition of applyForce's speed limit: a velocity faster than maxSpeed is scaled onto the maxSpeed circle, a slower one kept; stated by ClampWithinSpeed, ClampExact and ClampKeepsDirection |
| Kinematics.WrapInBounds | js/particle.js:35-40 | a coordinate at most one extent to the left of the canvas wraps into [0, extent) |
| Kinematics.WrapKeepsOnCanvas | js/particle.js:39-40 | a coordinate already on the canvas is unchanged by the wrap |
| Kinematics.WrapFarLeftStaysOff | js/particle.js:39-40 | further than one extent to the left, JavaScript's `%` keeps the sign: the coordinate lands at or left of 0, and at 0 exactly when v + extent is a whole multiple of the extent |
| Kinematics.ClampSize | js/particle.js:49 | the size ends in [min, max] and an in-range size is kept |
| Kinematics.ClampWithinSpeed | js/particle.js:56-60 | after the clamp vx² + vy² ≤ maxSpeed² |
| Kinematics.ClampExact | js/particle.js:56-57 | a velocity within maxSpeed is left exactly as it is |
| Kinematics.ClampKeepsDirection | js/particle.js:57-60 | the clamped velocity is a non-negative multiple of the unclamped one |
| Kinematics.RootCompare | js/simulation.js:75-76 | comparing a distance with a radius agrees with comparing its square with the radius squared, for `<` and for `<=` |
| JsMath.Rem | js/particle.js:39-40 | definition of JavaScript's `%` on numbers: the remainder of the division truncated toward zero, with the sign of the dividend; its range is stated by RemOfNonNegative, RemOfNegative and RemZero |
| JsMath.RemZero | js/particle.js:39-40 | JavaScript's `%` gives 0 exactly when the quotient is a whole number |
| JsMath.RemOfNonNegative | js/particle.js:39 | JavaScript's `%` of a non-negative dividend lies in [0, m) |
| JsMath.RemOfNegative | js/particle.js:39 | JavaScript's `%` of a negative dividend lies in (-m, 0] |
| JsMath.FloorIndex | js/particle.js:131 | `Math.floor(r · n)` for a draw r in [0, 1) is a valid index into n elements |
| Forces.Push | js/particle.js:53-60 | `applyForce` on a snapshot changes only the velocity |
| Forces.PushWithinSpeed | js/particle.js:53-60 | after `applyForce` the speed is at most maxSpeed |
| Forces.PushExact | js/particle.js:54-57 | a push that stays within maxSpeed adds the force exactly |
| Forces.ForceAlongSeparation | js/simulation.js:77-79 | the force has the matrix strength as its length and lies along the line between the pair, towards the second particle when the strength is positive |
| Forces.Interact | js/simulation.js:72-83 | interact changes only velocities, and leaves a pair at distance ≥ interactionRadius exactly as it was |
| Forces.InteractOutOfRange | js/simulation.js:76 | a pair whose squared distance is at least the radius squared is left alone |
| Forces.InteractInRange | js/simulation.js:76-81 | a pair within range ends with both speeds at most maxSpeed |
| Forces.InteractConservesMomentum | js/simulation.js:78-81 | the force on p2 is the exact negation of the force on p1: unclamped, the pair's summed velocity is unchanged |
| Forces.CoincidentPairHalts | js/simulation.js:75-81 | two particles at the same spot within a positive radius both stop (the NaN force is repaired to zero velocity) |
| Pairs.Row | js/simulation.js:57 | the inner loop of row i visits pairs (i, j) with i < j < n |
| Pairs.Rows | js/simulation.js:56-57 | the first i rows visit only pairs with first index below i and i < j < n |
| Pairs.RowMembers | js/simulation.js:57 | row i visits exactly the pairs (i, j) with i < j < n |
| Pairs.RowsMembers | js/simulation.js:56-57 | the first i rows visit exactly the pairs with first index below i |
| Pairs.RowDistinct | js/simulation.js:57 | row i visits no pair twice |
| Pairs.RowsDistinct | js/simulation.js:56-57 | the first i rows visit no pair twice |
| Pairs.Pairs | js/simulation.js:56-60 | the nested loops visit only pairs i < j < n |
| Pairs.PairsExactlyOnce | js/simulation.js:56-60 | the nested loops call interact on every pair i < j < n exactly once and on no other pair |
| Pairs.InteractAt | js/simulation.js:58 | interacting particles[i] with particles[j] changes only their velocities and no other particle |
| Pairs.PairPass | js/simulation.js:56-60 | a sequence of interactions changes only velocities |
| Pairs.PairPassStep | js/simulation.js:58 | one more pair means one more interaction, after the earlier ones |
| Pairs.RowPass | js/simulation.js:57-59 | the inner loop keeps the collection's size and types |
| Pairs.PairPassRow | js/simulation.js:56-59 | running row i after the pairs done equals the pass over those pairs followed by row i |
| Pairs.RowsStep | js/simulation.js:56-59 | one more turn of the outer loop completes the next row |
| Pairs.PassEnds | js/simulation.js:56 | before the first row nothing changed, and after the last row every pair was visited |
| Pairs.ForcePassKeepsAllButVelocity | js/simulation.js:56-60 | the force pass keeps every particle's position, health, liveness, age and type |
| Culling.Living | js/simulation.js:62 | the filter never grows the collection |
| Culling.LivingAppend | js/simulation.js:62 | filtering a concatenation filters each part |
| Culling.LivingKeepsOrder | js/simulation.js:62 | the survivors are the collection with the dead deleted, in their original order |
| Culling.LivingMembers | js/simulation.js:62 | a particle survives exactly when it is alive |
| Culling.LivingDistinct | js/simulation.js:62 | filtering a collection without repeats leaves none |
| Culling.LivingSeesOnlyLife | js/simulation.js:56-62 | the filter depends only on identities and liveness, so the force pass before it does not change who survives |
| Keys.StrLess | js/simulation.js:32 | definition of JavaScript's `<` on strings: code unit by code unit, a proper prefix below the string it begins; the guard it builds is stated by DigitGuardShape |
| Keys.ParseInt | js/simulation.js:33 | definition of `parseInt` on a key that begins with a digit: the number its leading digits spell; stated by ParseSingleDigit and LeadingDigitCounts |
| Keys.KeyAction | js/simulation.js:29-38 | definition of handleKeyPress's decision: Space toggles the pause, a digit key asks for type parseInt(key) − 1 when it is below particleTypes, everything else is ignored; stated by DigitKeySpawns and SpawnedKindIsType |
| Keys.DigitGuardShape | js/simulation.js:32 | `key >= '1' && key <= '9'` passes exactly the keys that begin with 1..9, where after a 9 nothing may follow |
| Keys.DigitRun | js/simulation.js:33 | `parseInt` reads the maximal run of leading decimal digits |
| Keys.ParseSingleDigit | js/simulation.js:33 | a one-character digit key parses to its digit |
| Keys.LeadingDigitCounts | js/simulation.js:33 | a key that begins with 1..9 parses to at least 1, so the spawned type is never negative |
| Keys.DigitKeySpawns | js/simulation.js:29-38 | digit key k spawns type k−1 exactly when k−1 < particleTypes and otherwise does nothing |
| Keys.SpawnedKindIsType | js/simulation.js:32-36 | any spawned type is in [0, particleTypes) |
| Simulations.InitialType | js/simulation.js:48 | `Math.floor(Math.random() · particleTypes)` is a type in [0, particleTypes) |
| Simulations.Simulation.constructor | js/simulation.js:2-15 | the collection holds particleCount new particles as `initParticles` makes them, the tick is not paused, the mouse is at the origin, and the invariant holds |
| Simulations.Simulation.InitParticles | js/simulation.js:44-51 | exactly particleCount new particles are appended after the old ones, each at its drawn point with a type in [0, particleTypes) |
| Simulations.Simulation.SpawnParticle | js/simulation.js:40-42 | the count grows by exactly 1, the old particles keep their places, and the new particle is last with the given type and position |
| Simulations.Simulation.SplitParticle | js/simulation.js:85-93 | on a roll below 0.001 a new particle of the same type at the same point is appended, and the first one is removed when the count exceeds 1.5 × particleCount; otherwise nothing changes; a collection within the cap stays within it |
| Simulations.Simulation.HandleKeyPress | js/simulation.js:29-38 | Space toggles the pause; a digit key spawns its type at the mouse exactly when KeyAction says so; every other key changes nothing |
| Simulations.Simulation.Interact | js/simulation.js:72-83 | the two particles end as Forces.Interact makes them: equal and opposite forces within range, unchanged otherwise |
| Simulations.Simulation.InteractPair | js/simulation.js:58 | one inner-loop step is InteractAt on the collection's snapshots |
| Simulations.Simulation.ForceRow | js/simulation.js:57-59 | the inner loop of row i is RowPass on the snapshots |
| Simulations.Simulation.ForcePass | js/simulation.js:56-60 | the nested loops leave the collection as PairPass over every pair i < j, each exactly once, row by row |
| Simulations.Simulation.RemoveDead | js/simulation.js:62 | the new collection is exactly the live particles in their old order, every one alive and taken from the old collection, with no repeats |
| Simulations.Simulation.Step | js/simulation.js:65-68 | a particle's update and cast revive nobody and make nobody younger |
| Simulations.Simulation.StepAll | js/simulation.js:64-69 | the update loop revives nobody and makes nobody younger |
| Simulations.Simulation.Draw | js/simulation.js:135-138 | after a frame is drawn no particle of the collection has a lightning target; only that field changes |
| Simulations.Simulation.Update | js/simulation.js:53-70 | paused: nothing changes; otherwise the collection becomes exactly the particles alive after the force pass, in order, none younger, and the invariant holds |

## Left out

- Rendering: all of `js/effects.js` and everything `draw` in `js/simulation.js` does except resetting `lightningTarget` only paints the canvas; the core never reads back any state from it. The reset is modelled (`Simulations.Simulation.Draw`).
- Browser plumbing: the canvas and context lookup, the window listeners, `resizeCanvas` and `updateMousePosition`. The canvas size is the configuration's, and the mouse position is a field that only the constructor sets.
- `explosiveChain`: `castMagic` never dispatches to it, so it cannot run.
- `setPosition`'s random fallback for a non-finite coordinate, and the finiteness repairs of `update` and `applyForce`: a real is always finite. The exception is the NaN force of `interact` at distance 0, which is modelled (`Particles.Particle.Halt`).
- Floating point: no rounding, NaN or infinity. The progress counters count ticks, so 20 steps of 0.05 reach exactly 1.
- `Math.sqrt` is an exact square root supplied with the configuration; it is not computed.
- `Math.random`: every draw is a value the caller passes in; the model requires [0, 1) only for the lightning's pick.
- `Math.atan2`, `Math.sin` and `Math.cos` in `vortex` are replaced by their exact values, the offset divided by its length.
- `fractalize`: the fractal geometry is not modelled, only whether fractal points are present.
- Timers: delays, the relative order of pending callbacks, and more than one pending timer of the same effect on one particle (a re-cast while one is pending) are not modelled. Each callback is a method the caller runs.
- Particles.Particle.Update: does not model the random re-placement of a non-finite position, which cannot happen on reals.
- Simulations.Simulation.Step: states only that nobody is revived or made younger, not each particle's exact new state, because a cast by one particle also changes the particles the loop visits after it.
- Simulations.Simulation.StepAll: states only that nobody is revived or made younger, for the same reason as Step.
- Simulations.Simulation.Update: states the pause, the survivors and their order, ages and the collection invariant; it does not state the final velocities or positions after the update loop, for the same reason as StepAll.
- Simulations.Simulation.constructor: the source fills the collection before it clears the pause flag; that order is not observable and is not kept.
- Particles.Particle.BlackHole, Particles.Particle.BlackHoleFire, Particles.Particle.Pentagram, Particles.Particle.PentagramTick, Particles.Particle.Supernova, Particles.Particle.SupernovaTick, Particles.Particle.TimeWarp, Particles.Particle.TimeWarpFire, Particles.Particle.CreateAtom, Particles.Particle.AtomTick: each callback works on the list of particles captured when the effect was cast (its `…Scope` field). In the source the closure holds the live array object itself, so a change to that array after the cast and before the next `update` replaces it by filtering is seen by a pending callback in the source but missed by the model: a particle that `spawnParticle` (Simulations.Simulation.SpawnParticle) pushes on a key press between two ticks or while paused, and the copy that `splitParticle` (Simulations.Simulation.SplitParticle) pushes and the first particle it splices out.
- Particles.Particle.Lightning: `draw` resets `lightningTarget` once a frame. The model resets it only when the caller runs `Simulations.Simulation.Draw`, not by itself between ticks. A particle whose position is not finite is skipped by `draw` and keeps its target; a real position is always finite, so the model clears every target.
- Numbers: ages and cooldowns are unbounded naturals, while JavaScript numbers lose precision above 2^53.
