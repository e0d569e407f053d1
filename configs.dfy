/**
 * The simulation's tunable constants. The source keeps them in a global,
 * mutable `CONFIG` object; here they are one immutable record handed to every
 * operation.
 */
module Configs {

  /** `Math.sqrt(v)` is the non-negative number whose square is v. */
  ghost predicate RootAt(sqrt: real -> real, v: real) {
    0.0 <= v ==> 0.0 <= sqrt(v) && sqrt(v) * sqrt(v) == v
  }

  /**
   * `Math.sqrt`, taken to be exact on the reals (the model has no rounding).
   * The fact at a particular v is brought in by `Config.Root`.
   */
  ghost predicate ExactSqrt(sqrt: real -> real) {
    forall v :: RootAt(sqrt, v)
  }

  datatype Config = Config(
    canvasWidth: real,
    canvasHeight: real,
    particleCount: nat,
    particleTypes: nat,
    attractionMatrix: seq<seq<real>>,
    particleMinSize: real,
    particleMaxSize: real,
    maxSpeed: real,
    maxForce: real,
    interactionRadius: real,
    magicCooldown: nat,
    damageAmount: real,
    healAmount: real,
    atomRadius: real,
    atomDamage: real,
    sqrt: real -> real)
  {
    /**
     * What the simulation needs of its plain constants: a non-empty canvas, a
     * square attraction matrix with one row and column per particle type, and
     * non-negative radii and speed limit.
     */
    const wellFormed: bool :=
      && canvasWidth > 0.0
      && canvasHeight > 0.0
      && maxSpeed >= 0.0
      && interactionRadius >= 0.0
      && atomRadius >= 0.0
      && |attractionMatrix| == particleTypes
      && (forall t | 0 <= t < |attractionMatrix| :: |attractionMatrix[t]| == particleTypes)

    /** Well-formed constants and an exact square root. */
    ghost predicate Valid() {
      wellFormed && ExactSqrt(sqrt)
    }

    /** The square root of a non-negative v is exact. */
    lemma Root(v: real)
      requires Valid() && 0.0 <= v
      ensures 0.0 <= sqrt(v) && sqrt(v) * sqrt(v) == v
    {
      assert RootAt(sqrt, v);
    }

    /** A particle type that indexes the attraction matrix. */
    predicate IsType(t: int) {
      0 <= t < particleTypes
    }
  }
}
