/**
 * A particle as the effects and the force pass see it: an immutable snapshot
 * of the fields they read or write. Effects are specified as functions from
 * old snapshots to new ones.
 */
module Views {
  import opened Wrappers

  /**
   * `id` is the particle's identity (object reference); `kind` is its type,
   * which selects its attraction-matrix row and its magic effect.
   */
  datatype Vitals<Id> = Vitals(
    id: Id,
    x: real,
    y: real,
    vx: real,
    vy: real,
    health: real,
    isAlive: bool,
    age: nat,
    kind: int,
    entangled: Option<Id>)

  /** The two snapshots agree on everything but the velocity. */
  ghost predicate SameButVelocity<Id>(a: Vitals<Id>, b: Vitals<Id>) {
    && a.id == b.id && a.x == b.x && a.y == b.y && a.health == b.health
    && a.isAlive == b.isAlive && a.age == b.age && a.kind == b.kind && a.entangled == b.entangled
  }

  /** Squared Euclidean distance from (cx, cy) to the particle. */
  function DistSq<Id>(cx: real, cy: real, v: Vitals<Id>): real {
    (v.x - cx) * (v.x - cx) + (v.y - cy) * (v.y - cy)
  }

  /** `distanceTo(v) < r`, compared on squares (a distance is never below a negative r). */
  predicate Near<Id>(cx: real, cy: real, v: Vitals<Id>, r: real) {
    0.0 < r && DistSq(cx, cy, v) < r * r
  }

  /** `distanceTo(v) <= r`, compared on squares. */
  predicate Reach<Id>(cx: real, cy: real, v: Vitals<Id>, r: real) {
    0.0 <= r && DistSq(cx, cy, v) <= r * r
  }
}
