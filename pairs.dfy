/**
 * The all-pairs pass of `Simulation.update`: the nested loops visit every index
 * pair i < j once, row by row, and `interact` each one in that order.
 */
module Pairs {
  import opened Configs
  import opened Views
  import opened Forces
  import opened Sequences

  /** The inner loop of row i, run while j < n: (i, i+1), ..., (i, n-1). */
  function Row(i: nat, n: nat): (r: seq<(nat, nat)>)
    ensures forall k | 0 <= k < |r| :: r[k].0 == i < r[k].1 < n
    decreases n
  {
    if n <= i + 1 then [] else Row(i, n - 1) + [(i, n - 1)]
  }

  /** Rows 0 .. i-1 of the outer loop, each running to n. */
  function Rows(i: nat, n: nat): (r: seq<(nat, nat)>)
    ensures Ordered(r, n)
    ensures forall k | 0 <= k < |r| :: r[k].0 < i
    decreases i
  {
    if i == 0 then [] else Rows(i - 1, n) + Row(i - 1, n)
  }

  /** Every pair (i, j) of the list has i < j < n. */
  predicate Ordered(pairs: seq<(nat, nat)>, n: nat) {
    forall k | 0 <= k < |pairs| :: pairs[k].0 < pairs[k].1 < n
  }

  lemma OrderedAppend(a: seq<(nat, nat)>, b: seq<(nat, nat)>, n: nat)
    requires Ordered(a, n) && Ordered(b, n)
    ensures Ordered(a + b, n)
  {
    forall k | 0 <= k < |a + b| ensures (a + b)[k].0 < (a + b)[k].1 < n {
      if k >= |a| {
        assert (a + b)[k] == b[k - |a|];
      }
    }
  }

  /** Running row i's inner loop after rows 0 .. i-1 completes row i. */
  lemma RowsStep<Id>(cfg: Config, vs: seq<Vitals<Id>>, i: nat)
    requires cfg.Valid() && AllTyped(cfg, vs) && i < |vs|
    ensures RowPass(cfg, PairPass(cfg, vs, Rows(i, |vs|)), i, |vs|) == PairPass(cfg, vs, Rows(i + 1, |vs|))
  {
    PairPassRow(cfg, vs, Rows(i, |vs|), i, |vs|);
    assert Rows(i + 1, |vs|) == Rows(i, |vs|) + Row(i, |vs|);
  }

  /** Every pair the nested loops visit over a collection of n particles, in visiting order. */
  function Pairs(n: nat): (r: seq<(nat, nat)>)
    ensures Ordered(r, n)
  {
    Rows(n, n)
  }

  lemma {:induction false} RowMembers(i: nat, n: nat)
    ensures forall p :: p in Row(i, n) <==> p.0 == i && i < p.1 < n
    decreases n
  {
    if n > i + 1 {
      RowMembers(i, n - 1);
      forall p ensures p in Row(i, n) <==> p.0 == i && i < p.1 < n {
        assert p in Row(i, n) <==> p in Row(i, n - 1) || p == (i, n - 1);
      }
    }
  }

  lemma {:induction false} RowDistinct(i: nat, n: nat)
    ensures Distinct(Row(i, n))
    decreases n
  {
    if n > i + 1 {
      RowDistinct(i, n - 1);
      var r := Row(i, n - 1);
      var s := r + [(i, n - 1)];
      assert Row(i, n) == s;
      forall x: int, y: int | 0 <= x < y < |s| ensures s[x] != s[y] {
        assert s[x] == r[x];
        if y == |r| {
          assert r[x] in r;
        } else {
          assert s[y] == r[y];
        }
      }
    }
  }

  lemma {:induction false} RowsMembers(i: nat, n: nat)
    ensures forall p :: p in Rows(i, n) <==> p.0 < i && p.0 < p.1 < n
    decreases i
  {
    if i > 0 {
      RowsMembers(i - 1, n);
      RowMembers(i - 1, n);
      var a: seq<(nat, nat)>, b: seq<(nat, nat)> := Rows(i - 1, n), Row(i - 1, n);
      assert Rows(i, n) == a + b;
      forall p: (nat, nat) ensures p in a + b <==> p.0 < i && p.0 < p.1 < n {
        assert p in a + b <==> p in a || p in b;
      }
    }
  }

  lemma {:induction false} RowsDistinct(i: nat, n: nat)
    ensures Distinct(Rows(i, n))
    decreases i
  {
    if i > 0 {
      RowsDistinct(i - 1, n);
      RowDistinct(i - 1, n);
      var a: seq<(nat, nat)>, b: seq<(nat, nat)> := Rows(i - 1, n), Row(i - 1, n);
      var s := a + b;
      assert Rows(i, n) == s;
      forall x: int, y: int | 0 <= x < y < |s| ensures s[x] != s[y] {
        if y < |a| {
          assert s[x] == a[x] && s[y] == a[y];
        } else if x >= |a| {
          assert s[x] == b[x - |a|] && s[y] == b[y - |a|];
        } else {
          assert s[x] == a[x] && s[y] == b[y - |a|];
          assert a[x] in a && b[y - |a|] in b;
        }
      }
    }
  }

  /** The nested loops call `interact` exactly once for every pair i < j < n, and for no other. */
  lemma PairsExactlyOnce(n: nat)
    ensures forall p :: p in Pairs(n) <==> p.0 < p.1 < n
    ensures Distinct(Pairs(n))
  {
    RowsMembers(n, n);
    RowsDistinct(n, n);
  }

  /** Every particle's type indexes the attraction matrix. */
  predicate AllTyped<Id>(cfg: Config, vs: seq<Vitals<Id>>) {
    forall k | 0 <= k < |vs| :: cfg.IsType(vs[k].kind)
  }

  /** `interact(particles[i], particles[j])` on the snapshots. */
  function InteractAt<Id>(cfg: Config, vs: seq<Vitals<Id>>, p: (nat, nat)): (ws: seq<Vitals<Id>>)
    requires cfg.Valid() && AllTyped(cfg, vs) && p.0 < p.1 < |vs|
    ensures |ws| == |vs| && AllTyped(cfg, ws)
    ensures forall k | 0 <= k < |vs| :: SameButVelocity(ws[k], vs[k])
    ensures forall k | 0 <= k < |vs| && k != p.0 && k != p.1 :: ws[k] == vs[k]
  {
    var r := Interact(cfg, vs[p.0], vs[p.1]);
    vs[p.0 := r.0][p.1 := r.1]
  }

  /** The interactions of `pairs`, applied one after the other. */
  function PairPass<Id>(cfg: Config, vs: seq<Vitals<Id>>, pairs: seq<(nat, nat)>): (ws: seq<Vitals<Id>>)
    requires cfg.Valid() && AllTyped(cfg, vs)
    requires Ordered(pairs, |vs|)
    ensures |ws| == |vs| && AllTyped(cfg, ws)
    ensures forall k | 0 <= k < |vs| :: SameButVelocity(ws[k], vs[k])
    decreases |pairs|
  {
    if pairs == [] then vs
    else
      var init := pairs[..|pairs| - 1];
      assert forall k | 0 <= k < |init| :: init[k] == pairs[k];
      InteractAt(cfg, PairPass(cfg, vs, init), pairs[|pairs| - 1])
  }

  /** One more pair: the pass over done + [p] interacts p after the pass over done. */
  lemma PairPassStep<Id>(cfg: Config, vs: seq<Vitals<Id>>, done: seq<(nat, nat)>, p: (nat, nat))
    requires cfg.Valid() && AllTyped(cfg, vs)
    requires Ordered(done, |vs|)
    requires p.0 < p.1 < |vs|
    ensures PairPass(cfg, vs, done + [p]) == InteractAt(cfg, PairPass(cfg, vs, done), p)
  {
    assert (done + [p])[..|done + [p]| - 1] == done;
  }

  /** The inner loop of row i run up to j: (i, i+1), ..., (i, j-1) interacted in turn. */
  function RowPass<Id>(cfg: Config, vs: seq<Vitals<Id>>, i: nat, j: nat): (ws: seq<Vitals<Id>>)
    requires cfg.Valid() && AllTyped(cfg, vs) && j <= |vs|
    ensures |ws| == |vs| && AllTyped(cfg, ws)
    decreases j
  {
    if j <= i + 1 then vs else InteractAt(cfg, RowPass(cfg, vs, i, j - 1), (i, j - 1))
  }

  /** Running row i after the pairs done is the pass over done followed by that row. */
  lemma {:induction false} PairPassRow<Id>(cfg: Config, vs: seq<Vitals<Id>>, done: seq<(nat, nat)>, i: nat, j: nat)
    requires cfg.Valid() && AllTyped(cfg, vs) && Ordered(done, |vs|) && j <= |vs|
    ensures Ordered(done + Row(i, j), |vs|)
    ensures PairPass(cfg, vs, done + Row(i, j)) == RowPass(cfg, PairPass(cfg, vs, done), i, j)
    decreases j
  {
    hide InteractAt, PairPass;
    OrderedAppend(done, Row(i, j), |vs|);
    if j <= i + 1 {
      assert done + Row(i, j) == done;
    } else {
      PairPassRow(cfg, vs, done, i, j - 1);
      var before := done + Row(i, j - 1);
      assert done + Row(i, j) == before + [(i, j - 1)];
      PairPassStep(cfg, vs, before, (i, j - 1));
      calc {
        PairPass(cfg, vs, done + Row(i, j));
        PairPass(cfg, vs, before + [(i, j - 1)]);
        InteractAt(cfg, PairPass(cfg, vs, before), (i, j - 1));
        InteractAt(cfg, RowPass(cfg, PairPass(cfg, vs, done), i, j - 1), (i, j - 1));
        RowPass(cfg, PairPass(cfg, vs, done), i, j);
      }
    }
  }

  /** Before the first row nothing has changed; after the last, every pair has been visited. */
  lemma PassEnds<Id>(cfg: Config, vs: seq<Vitals<Id>>)
    requires cfg.Valid() && AllTyped(cfg, vs)
    ensures PairPass(cfg, vs, Rows(0, |vs|)) == vs
    ensures Pairs(|vs|) == Rows(|vs|, |vs|)
  {
  }

  /**
   * The force pass changes only velocities: positions, health, age, type and
   * liveness of every particle survive it.
   */
  lemma ForcePassKeepsAllButVelocity<Id>(cfg: Config, vs: seq<Vitals<Id>>)
    requires cfg.Valid() && AllTyped(cfg, vs)
    ensures var ws := PairPass(cfg, vs, Pairs(|vs|));
      && |ws| == |vs|
      && forall k | 0 <= k < |vs| ::
           ws[k].x == vs[k].x && ws[k].y == vs[k].y && ws[k].health == vs[k].health
           && ws[k].isAlive == vs[k].isAlive && ws[k].age == vs[k].age && ws[k].kind == vs[k].kind
  {
  }
}
