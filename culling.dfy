/**
 * `this.particles.filter(p => p.isAlive)` in `Simulation.update`, on
 * snapshots: the live particles survive, in their original order.
 */
module Culling {
  import opened Views
  import opened Sequences

  /** The identities of a collection, in order. */
  function Ids<Id>(vs: seq<Vitals<Id>>): (ids: seq<Id>)
    ensures |ids| == |vs| && forall k | 0 <= k < |vs| :: ids[k] == vs[k].id
  {
    seq(|vs|, (k: int) requires 0 <= k < |vs| => vs[k].id)
  }

  /** The identities of the live particles, in collection order. */
  function Living<Id>(vs: seq<Vitals<Id>>): (ids: seq<Id>)
    ensures |ids| <= |vs|
    decreases |vs|
  {
    if vs == [] then []
    else (if vs[0].isAlive then [vs[0].id] else []) + Living(vs[1..])
  }

  /** Filtering a concatenation filters each part. */
  lemma {:induction false} LivingAppend<Id>(a: seq<Vitals<Id>>, b: seq<Vitals<Id>>)
    ensures Living(a + b) == Living(a) + Living(b)
    decreases |a|
  {
    if a != [] {
      assert (a + b)[0] == a[0];
      assert (a + b)[1..] == a[1..] + b;
      LivingAppend(a[1..], b);
    } else {
      assert a + b == b;
    }
  }

  /** The survivors are the live particles, with the others deleted and the order kept. */
  lemma {:induction false} LivingKeepsOrder<Id>(vs: seq<Vitals<Id>>)
    ensures Subsequence(Living(vs), Ids(vs))
    decreases |vs|
  {
    if vs != [] {
      LivingKeepsOrder(vs[1..]);
      var ids := Ids(vs);
      assert ids[1..] == Ids(vs[1..]);
      if vs[0].isAlive {
        var r := Living(vs);
        assert r[0] == ids[0] && r[1..] == Living(vs[1..]);
      } else {
        assert Living(vs) == Living(vs[1..]);
        SubsequenceSkip(Living(vs), ids);
      }
    }
  }

  /** A subsequence of the tail is a subsequence of the whole. */
  lemma SubsequenceSkip<T>(r: seq<T>, s: seq<T>)
    requires s != [] && Subsequence(r, s[1..])
    ensures Subsequence(r, s)
  {
  }

  /** A particle survives exactly when it is alive. */
  lemma {:induction false} LivingMembers<Id>(vs: seq<Vitals<Id>>)
    ensures forall k | 0 <= k < |vs| && vs[k].isAlive :: vs[k].id in Living(vs)
    ensures forall i | i in Living(vs) :: exists k | 0 <= k < |vs| :: vs[k].id == i && vs[k].isAlive
    decreases |vs|
  {
    if vs != [] {
      var tail := vs[1..];
      LivingMembers(tail);
      forall k | 0 <= k < |vs| && vs[k].isAlive ensures vs[k].id in Living(vs) {
        if k > 0 {
          assert vs[k] == tail[k - 1];
        }
      }
      forall i | i in Living(vs) ensures exists k | 0 <= k < |vs| :: vs[k].id == i && vs[k].isAlive {
        if i in Living(tail) {
          var j :| 0 <= j < |tail| && tail[j].id == i && tail[j].isAlive;
          assert vs[j + 1] == tail[j];
        } else {
          assert vs[0].id == i && vs[0].isAlive;
        }
      }
    }
  }

  /** Filtering a collection without repeats leaves none. */
  lemma LivingDistinct<Id>(vs: seq<Vitals<Id>>)
    requires Distinct(Ids(vs))
    ensures Distinct(Living(vs))
  {
    LivingKeepsOrder(vs);
    SubsequenceOfDistinct(Living(vs), Ids(vs));
  }

  /**
   * The filter sees only identities and liveness: a pass that keeps both for
   * every particle (the force pass changes velocities only) filters alike.
   */
  lemma {:induction false} LivingSeesOnlyLife<Id>(vs: seq<Vitals<Id>>, ws: seq<Vitals<Id>>)
    requires |vs| == |ws|
    requires forall k | 0 <= k < |vs| :: ws[k].id == vs[k].id && ws[k].isAlive == vs[k].isAlive
    ensures Living(ws) == Living(vs)
    decreases |vs|
  {
    if vs != [] {
      assert forall k | 0 <= k < |vs| - 1 :: vs[1..][k] == vs[k + 1] && ws[1..][k] == ws[k + 1];
      LivingSeesOnlyLife(vs[1..], ws[1..]);
    }
  }
}
