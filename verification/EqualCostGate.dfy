/**
 The equal-cost gate: a Dijkstra run per source that also counts shortest paths, in the
 wrapping 32-bit arithmetic of a release build, and the proof that its verdict is exact.
 */
module EqualCostGate {
  import opened PathGraph

  /** Path counts are `u32`: a release build wraps them. */
  const COUNT_MOD := 0x1_0000_0000

  datatype Verdict = Accepted | EqualCost(src: Node, dst: Node, paths: nat)

  // ---- the relaxed arcs ----------------------------------------------------------------------

  /** `WaysInto`, restricted to the arcs that have been relaxed. */
  ghost function RelaxedWays(g: Graph, src: Node, relaxed: set<nat>, v: Node, d: nat, k: nat): nat
    requires WellFormed(g) && k <= |g.arcs|
    decreases k
  {
    if k == 0 then 0
    else RelaxedWays(g, src, relaxed, v, d, k - 1)
         + if k - 1 in relaxed then Term(g, src, v, d, k - 1) else 0
  }

  lemma {:induction false} RelaxOne(g: Graph, src: Node, relaxed: set<nat>, j: nat, v: Node, d: nat, k: nat)
    requires WellFormed(g) && k <= |g.arcs| && j < |g.arcs| && j !in relaxed
    ensures RelaxedWays(g, src, relaxed + {j}, v, d, k)
         == RelaxedWays(g, src, relaxed, v, d, k) + if j < k then Term(g, src, v, d, j) else 0
  {
    if k > 0 {
      RelaxOne(g, src, relaxed, j, v, d, k - 1);
    }
  }

  lemma {:induction false} NoneRelaxed(g: Graph, src: Node, relaxed: set<nat>, v: Node, d: nat, k: nat)
    requires WellFormed(g) && k <= |g.arcs|
    requires forall j :: j in relaxed && j < |g.arcs| ==> Term(g, src, v, d, j) == 0
    ensures RelaxedWays(g, src, relaxed, v, d, k) == 0
  {
    if k > 0 {
      NoneRelaxed(g, src, relaxed, v, d, k - 1);
    }
  }

  lemma {:induction false} AllRelaxed(g: Graph, src: Node, relaxed: set<nat>, v: Node, d: nat, k: nat)
    requires WellFormed(g) && k <= |g.arcs|
    requires forall j :: 0 <= j < |g.arcs| && j !in relaxed ==> Term(g, src, v, d, j) == 0
    ensures RelaxedWays(g, src, relaxed, v, d, k) == WaysInto(g, src, v, d, k)
  {
    if k > 0 {
      AllRelaxed(g, src, relaxed, v, d, k - 1);
    }
  }

  lemma {:induction false} NoWaysInto(g: Graph, src: Node, v: Node, d: nat, k: nat)
    requires WellFormed(g) && k <= |g.arcs|
    requires forall j :: 0 <= j < |g.arcs| ==> Term(g, src, v, d, j) == 0
    ensures WaysInto(g, src, v, d, k) == 0
  {
    if k > 0 {
      NoWaysInto(g, src, v, d, k - 1);
    }
  }

  /** Only the source is reached for nothing, and in one way. */
  lemma WaysForNothing(g: Graph, src: Node, v: Node)
    requires WellFormed(g)
    ensures Ways(g, src, v, 0) == if v == src then 1 else 0
  {
    forall j | 0 <= j < |g.arcs|
      ensures Term(g, src, v, 0, j) == 0
    {
      assert g.arcs[j] in g.arcs;
    }
    NoWaysInto(g, src, v, 0, |g.arcs|);
  }

  // ---- the invariant of the search -----------------------------------------------------------

  /** What the search knows once the nodes of `done` are expanded and `relaxed` arcs relaxed. */
  ghost predicate Settled(g: Graph, src: Node, dist: map<Node, nat>, count: map<Node, nat>, done: set<Node>)
    requires WellFormed(g)
  {
    && src in dist && dist[src] == 0 && src in count && count[src] == 1
    && done <= dist.Keys && dist.Keys == count.Keys
    && (forall v :: v in dist ==> v in g.nodes)
    && (forall v :: v in done ==> IsDist(g, src, v, dist[v]) && count[v] == Ways(g, src, v, dist[v]) % COUNT_MOD)
    && (src !in done ==> done == {} && dist.Keys == {src})
  }

  /** `dist` and `count` of an open node say the best that the relaxed arcs give. */
  ghost predicate Frontier(g: Graph, src: Node, dist: map<Node, nat>, count: map<Node, nat>,
                           done: set<Node>, relaxed: set<nat>)
    requires WellFormed(g) && Settled(g, src, dist, count, done)
  {
    && (forall j :: j in relaxed ==> j < |g.arcs| && g.arcs[j].from in done)
    && (forall j :: j in relaxed && g.arcs[j].to !in done ==>
          g.arcs[j].to in dist && dist[g.arcs[j].to] <= dist[g.arcs[j].from] + g.arcs[j].cost)
    && (forall v :: v in dist && v !in done && v != src ==> OpenOk(g, src, relaxed, v, dist[v], count[v]))
  }

  ghost predicate OpenOk(g: Graph, src: Node, relaxed: set<nat>, v: Node, d: nat, c: nat)
    requires WellFormed(g)
  {
    var n := RelaxedWays(g, src, relaxed, v, d, |g.arcs|);
    n > 0 && c == n % COUNT_MOD
  }

  /** Every arc of an expanded node is relaxed; a leaf other than the source is never expanded. */
  ghost predicate Expanded(g: Graph, src: Node, done: set<Node>, relaxed: set<nat>) {
    forall j :: 0 <= j < |g.arcs| && g.arcs[j].from in done && (g.arcs[j].from == src || g.arcs[j].from !in g.leaves)
      ==> j in relaxed
  }

  /** No open node is nearer than the nearest one in `dist`. */
  lemma {:induction false} NotYet(g: Graph, src: Node, dist: map<Node, nat>, count: map<Node, nat>,
                                  done: set<Node>, relaxed: set<nat>, d: nat, w: Node, e: nat)
    requires WellFormed(g) && Settled(g, src, dist, count, done)
    requires Frontier(g, src, dist, count, done, relaxed) && Expanded(g, src, done, relaxed)
    requires src in done
    requires forall v :: v in dist && v !in done ==> d <= dist[v]
    requires w !in done && e < d
    ensures Ways(g, src, w, e) == 0
    decreases e
  {
    forall j | 0 <= j < |g.arcs|
      ensures Term(g, src, w, e, j) == 0
    {
      var a := g.arcs[j];
      assert a in g.arcs;
      if Ends(g, j, w, e) {
        if a.from !in done {
          NotYet(g, src, dist, count, done, relaxed, d, a.from, e - a.cost);
        } else if Ways(g, src, a.from, e - a.cost) > 0 {
          WaysForNothing(g, src, a.from);
          assert false;
        }
      }
    }
    NoWaysInto(g, src, w, e, |g.arcs|);
  }

  /** The nearest open node is settled: its distance and count are final. */
  lemma NearestIsSettled(g: Graph, src: Node, dist: map<Node, nat>, count: map<Node, nat>,
                         done: set<Node>, relaxed: set<nat>, u: Node)
    requires WellFormed(g) && Settled(g, src, dist, count, done)
    requires Frontier(g, src, dist, count, done, relaxed) && Expanded(g, src, done, relaxed)
    requires u in dist && u !in done
    requires forall v :: v in dist && v !in done ==> dist[u] <= dist[v]
    ensures IsDist(g, src, u, dist[u]) && count[u] == Ways(g, src, u, dist[u]) % COUNT_MOD
  {
    var d := dist[u];
    if src !in done {
      WaysForNothing(g, src, u);
    } else {
      forall e: nat | e < d
        ensures Ways(g, src, u, e) == 0
      {
        NotYet(g, src, dist, count, done, relaxed, d, u, e);
      }
      forall j | 0 <= j < |g.arcs| && j !in relaxed
        ensures Term(g, src, u, d, j) == 0
      {
        var a := g.arcs[j];
        assert a in g.arcs;
        if Ends(g, j, u, d) {
          WaysForNothing(g, src, a.from);
          if a.from !in done {
            NotYet(g, src, dist, count, done, relaxed, d, a.from, d - a.cost);
          }
        }
      }
      AllRelaxed(g, src, relaxed, u, d, |g.arcs|);
    }
  }

  // ---- the search ----------------------------------------------------------------------------

  lemma {:induction false} NearestExists(dist: map<Node, nat>, open: set<Node>) returns (u: Node)
    requires open != {} && open <= dist.Keys
    ensures u in open && forall v :: v in open ==> dist[u] <= dist[v]
    decreases open
  {
    u :| u in open;
    if open != {u} {
      var w := NearestExists(dist, open - {u});
      if dist[w] < dist[u] {
        u := w;
      }
    }
  }

  /** What relaxing arc `j` keeps, whichever arm it takes. */
  lemma FrontierStep(g: Graph, src: Node, dist: map<Node, nat>, count: map<Node, nat>,
                     done: set<Node>, relaxed: set<nat>, j: nat, x: nat, y: nat)
    requires WellFormed(g) && Settled(g, src, dist, count, done) && Frontier(g, src, dist, count, done, relaxed)
    requires j < |g.arcs| && g.arcs[j].from in done && g.arcs[j].to !in done && j !in relaxed && src in done
    requires g.arcs[j].to in dist ==> x <= dist[g.arcs[j].to]
    requires x <= dist[g.arcs[j].from] + g.arcs[j].cost
    requires OpenOk(g, src, relaxed + {j}, g.arcs[j].to, x, y)
    ensures Settled(g, src, dist[g.arcs[j].to := x], count[g.arcs[j].to := y], done)
    ensures Frontier(g, src, dist[g.arcs[j].to := x], count[g.arcs[j].to := y], done, relaxed + {j})
  {
    var to := g.arcs[j].to;
    assert g.arcs[j] in g.arcs;
    forall v | v in dist && v !in done && v != to
      ensures OpenOk(g, src, relaxed + {j}, v, dist[v], count[v])
    {
      RelaxOne(g, src, relaxed, j, v, dist[v], |g.arcs|);
    }
  }

  /** Nothing relaxed so far reaches `to` at the smaller cost `x`. */
  lemma NothingNearer(g: Graph, src: Node, dist: map<Node, nat>, count: map<Node, nat>,
                      done: set<Node>, relaxed: set<nat>, to: Node, x: nat)
    requires WellFormed(g) && Settled(g, src, dist, count, done) && Frontier(g, src, dist, count, done, relaxed)
    requires to !in done && (to in dist ==> x < dist[to])
    ensures RelaxedWays(g, src, relaxed, to, x, |g.arcs|) == 0
  {
    forall i | i in relaxed && i < |g.arcs|
      ensures Term(g, src, to, x, i) == 0
    {
      assert g.arcs[i] in g.arcs;
      assert IsDist(g, src, g.arcs[i].from, dist[g.arcs[i].from]);
    }
    NoneRelaxed(g, src, relaxed, to, x, |g.arcs|);
  }

  lemma OpenStep(g: Graph, src: Node, relaxed: set<nat>, j: nat, v: Node, x: nat, n: nat, w: nat)
    requires WellFormed(g) && j < |g.arcs| && j !in relaxed
    requires n == RelaxedWays(g, src, relaxed, v, x, |g.arcs|) && w == Term(g, src, v, x, j) && n + w > 0
    ensures OpenOk(g, src, relaxed + {j}, v, x, (n + w) % COUNT_MOD)
  {
    RelaxOne(g, src, relaxed, j, v, x, |g.arcs|);
  }

  /** Through a settled node, an arc adds that node's paths at its distance and none below it. */
  lemma TermOfSettled(g: Graph, src: Node, j: nat, d: nat, x: nat)
    requires WellFormed(g) && j < |g.arcs| && IsDist(g, src, g.arcs[j].from, d)
    requires g.arcs[j].from == src || g.arcs[j].from !in g.leaves
    requires x <= d + g.arcs[j].cost
    ensures Term(g, src, g.arcs[j].to, x, j)
         == if x == d + g.arcs[j].cost then Ways(g, src, g.arcs[j].from, d) else 0
  {
    assert g.arcs[j] in g.arcs;
    WaysForNothing(g, src, src);
    assert g.arcs[j].from == src ==> d == 0;
  }

  lemma SumMod(a: nat, b: nat)
    ensures (a % COUNT_MOD + b % COUNT_MOD) % COUNT_MOD == (a + b) % COUNT_MOD
  {
  }

  /** The distance and count that arc `j` leaves at its end, once `u` is settled. */
  function Relaxed(a: Arc, dist: map<Node, nat>, count: map<Node, nat>): (nat, nat)
    requires a.from in dist && dist.Keys == count.Keys
  {
    var nd := dist[a.from] + a.cost;
    if a.to in dist && dist[a.to] < nd then (dist[a.to], count[a.to])
    else if a.to in dist && dist[a.to] == nd then (nd, (count[a.to] + count[a.from]) % COUNT_MOD)
    else (nd, count[a.from])
  }

  /** Relax one arc: reached nearer already, equally near (the counts add), or new and nearer. */
  method Relax(a: Arc, dist: map<Node, nat>, count: map<Node, nat>)
    returns (dist': map<Node, nat>, count': map<Node, nat>)
    requires a.from in dist && dist.Keys == count.Keys
    ensures dist' == dist[a.to := Relaxed(a, dist, count).0] && count' == count[a.to := Relaxed(a, dist, count).1]
  {
    var nd := dist[a.from] + a.cost;
    if a.to in dist && dist[a.to] < nd {
      dist', count' := dist, count;
    } else if a.to in dist && dist[a.to] == nd {
      dist', count' := dist, count[a.to := (count[a.to] + count[a.from]) % COUNT_MOD];
    } else {
      dist', count' := dist[a.to := nd], count[a.to := count[a.from]];
    }
  }

  /** Relaxing an arc of a settled node keeps the invariant. */
  lemma RelaxKeeps(g: Graph, src: Node, j: nat, dist: map<Node, nat>, count: map<Node, nat>,
                   done: set<Node>, relaxed: set<nat>)
    requires WellFormed(g) && Settled(g, src, dist, count, done) && Frontier(g, src, dist, count, done, relaxed)
    requires j < |g.arcs| && g.arcs[j].from in done && g.arcs[j].to !in done && j !in relaxed
    requires g.arcs[j].from == src || g.arcs[j].from !in g.leaves
    ensures var (d, c) := Relaxed(g.arcs[j], dist, count);
            Settled(g, src, dist[g.arcs[j].to := d], count[g.arcs[j].to := c], done)
            && Frontier(g, src, dist[g.arcs[j].to := d], count[g.arcs[j].to := c], done, relaxed + {j})
  {
    var d, c := RelaxArm(g, src, g.arcs[j].from, j, dist, count, done, relaxed);
    FrontierStep(g, src, dist, count, done, relaxed, j, d, c);
  }

  lemma RelaxArm(g: Graph, src: Node, u: Node, j: nat, dist: map<Node, nat>, count: map<Node, nat>,
                 done: set<Node>, relaxed: set<nat>) returns (x: nat, y: nat)
    requires WellFormed(g) && Settled(g, src, dist, count, done) && Frontier(g, src, dist, count, done, relaxed)
    requires j < |g.arcs| && g.arcs[j].from == u && g.arcs[j].to !in done && j !in relaxed
    requires u in done && (u == src || u !in g.leaves)
    ensures OpenOk(g, src, relaxed + {j}, g.arcs[j].to, x, y)
    ensures x <= dist[u] + g.arcs[j].cost && (g.arcs[j].to in dist ==> x <= dist[g.arcs[j].to])
    ensures (x, y) == Relaxed(g.arcs[j], dist, count)
  {
    var to, nd := g.arcs[j].to, dist[u] + g.arcs[j].cost;
    var w := Ways(g, src, u, dist[u]);
    assert IsDist(g, src, u, dist[u]) && to != src;
    x := if to in dist && dist[to] < nd then dist[to] else nd;
    TermOfSettled(g, src, j, dist[u], x);
    if to in dist && dist[to] <= nd {
      assert OpenOk(g, src, relaxed, to, dist[to], count[to]);
      var n := RelaxedWays(g, src, relaxed, to, x, |g.arcs|);
      if dist[to] < nd {
        OpenStep(g, src, relaxed, j, to, x, n, 0);
        y := count[to];
      } else {
        OpenStep(g, src, relaxed, j, to, x, n, w);
        SumMod(n, w);
        y := (count[to] + count[u]) % COUNT_MOD;
      }
    } else {
      NothingNearer(g, src, dist, count, done, relaxed, to, nd);
      OpenStep(g, src, relaxed, j, to, x, 0, w);
      y := count[u];
    }
  }

  /** Settling the nearest open node keeps what is known of the others. */
  lemma Settle(g: Graph, src: Node, dist: map<Node, nat>, count: map<Node, nat>,
               done: set<Node>, relaxed: set<nat>, u: Node)
    requires WellFormed(g) && Settled(g, src, dist, count, done)
    requires Frontier(g, src, dist, count, done, relaxed) && Expanded(g, src, done, relaxed)
    requires u in dist && u !in done
    requires forall v :: v in dist && v !in done ==> dist[u] <= dist[v]
    ensures Settled(g, src, dist, count, done + {u})
    ensures Frontier(g, src, dist, count, done + {u}, relaxed)
    ensures forall j :: j in relaxed ==> j < |g.arcs| && g.arcs[j].from != u
  {
    NearestIsSettled(g, src, dist, count, done, relaxed, u);
  }

  /** Relax every arc of the node `u` that was just settled. */
  method Expand(g: Graph, src: Node, u: Node, dist0: map<Node, nat>, count0: map<Node, nat>,
                done: set<Node>, ghost relaxed0: set<nat>)
    returns (dist: map<Node, nat>, count: map<Node, nat>, ghost relaxed: set<nat>)
    requires WellFormed(g) && Settled(g, src, dist0, count0, done)
    requires Frontier(g, src, dist0, count0, done, relaxed0) && Expanded(g, src, done - {u}, relaxed0)
    requires u in done && (u == src || u !in g.leaves)
    requires forall j :: j in relaxed0 ==> j < |g.arcs| && g.arcs[j].from != u
    ensures Settled(g, src, dist, count, done)
    ensures Frontier(g, src, dist, count, done, relaxed) && Expanded(g, src, done, relaxed)
  {
    dist, count, relaxed := dist0, count0, relaxed0;
    var j := 0;
    while j < |g.arcs|
      invariant 0 <= j <= |g.arcs|
      invariant Settled(g, src, dist, count, done)
      invariant Frontier(g, src, dist, count, done, relaxed)
      invariant forall i :: i in relaxed && i >= j ==> i < |g.arcs| && g.arcs[i].from != u
      invariant relaxed0 <= relaxed && forall i :: 0 <= i < j && g.arcs[i].from == u ==> i in relaxed
    {
      if g.arcs[j].from == u {
        if g.arcs[j].to in done {
          SkipSettled(g, src, dist, count, done, relaxed, j);
        } else {
          RelaxKeeps(g, src, j, dist, count, done, relaxed);
          dist, count := Relax(g.arcs[j], dist, count);
        }
        relaxed := relaxed + {j};
      }
      j := j + 1;
    }
  }

  /**
   One source's distances and shortest-path counts. The tie-break among equally near open nodes
   (by name in the source) is left open: the result does not depend on it.
   */
  method CountShortest(g: Graph, src: Node) returns (dist: map<Node, nat>, count: map<Node, nat>)
    requires WellFormed(g) && src in g.nodes
    ensures dist.Keys == count.Keys
    ensures forall v, d: nat :: IsDist(g, src, v, d) <==> v in dist && dist[v] == d
    ensures forall v :: v in dist ==> v in g.nodes && count[v] == Ways(g, src, v, dist[v]) % COUNT_MOD
  {
    dist, count := map[src := 0], map[src := 1];
    var done: set<Node> := {};
    ghost var relaxed: set<nat> := {};
    while dist.Keys - done != {}
      invariant Settled(g, src, dist, count, done)
      invariant Frontier(g, src, dist, count, done, relaxed)
      invariant Expanded(g, src, done, relaxed)
      decreases (set v | v in g.nodes) - done
    {
      var open := dist.Keys - done;
      ghost var nearest := NearestExists(dist, open);
      var u :| u in open && forall v :: v in open ==> dist[u] <= dist[v];
      Settle(g, src, dist, count, done, relaxed, u);
      assert done + {u} - {u} == done;
      done := done + {u};
      if u == src || u !in g.leaves {
        dist, count, relaxed := Expand(g, src, u, dist, count, done, relaxed);
      }
    }
    EveryNodeDone(dist, done);
    AllFound(g, src, dist, count, done, relaxed);
  }

  lemma EveryNodeDone(dist: map<Node, nat>, done: set<Node>)
    requires dist.Keys - done == {}
    ensures dist.Keys <= done
  {
    assert forall v :: v in dist.Keys ==> v in done || v in dist.Keys - done;
  }

  /** An arc into a settled node changes nothing. */
  lemma SkipSettled(g: Graph, src: Node, dist: map<Node, nat>, count: map<Node, nat>,
                    done: set<Node>, relaxed: set<nat>, j: nat)
    requires WellFormed(g) && Settled(g, src, dist, count, done) && Frontier(g, src, dist, count, done, relaxed)
    requires j < |g.arcs| && g.arcs[j].from in done && g.arcs[j].to in done && j !in relaxed
    ensures Frontier(g, src, dist, count, done, relaxed + {j})
  {
    forall v | v in dist && v !in done && v != src
      ensures OpenOk(g, src, relaxed + {j}, v, dist[v], count[v])
    {
      RelaxOne(g, src, relaxed, j, v, dist[v], |g.arcs|);
    }
  }

  /** When no node is open, every node without a distance is unreachable. */
  lemma AllFound(g: Graph, src: Node, dist: map<Node, nat>, count: map<Node, nat>,
                 done: set<Node>, relaxed: set<nat>)
    requires WellFormed(g) && Settled(g, src, dist, count, done)
    requires Frontier(g, src, dist, count, done, relaxed) && Expanded(g, src, done, relaxed)
    requires dist.Keys <= done
    ensures forall v, d: nat :: IsDist(g, src, v, d) <==> v in dist && dist[v] == d
  {
    forall v, d: nat
      ensures IsDist(g, src, v, d) <==> v in dist && dist[v] == d
    {
      if v !in dist {
        NotYet(g, src, dist, count, done, relaxed, d + 1, v, d);
      }
    }
  }

  // ---- the verdict ---------------------------------------------------------------------------

  ghost predicate AnyTie(g: Graph) {
    exists s, t :: s in g.nodes && t in g.nodes && s != t && Tie(g, s, t)
  }

  /**
   Wrapping hides no tie: the nearest tied node is entered only by arcs whose counts are exactly
   one, so its own count is at most the number of arcs.
   */
  lemma {:induction false} WrapHidesNothing(g: Graph, src: Node, dist: map<Node, nat>, v: Node)
    requires WellFormed(g) && |g.arcs| < COUNT_MOD
    requires forall w, d: nat :: IsDist(g, src, w, d) <==> w in dist && dist[w] == d
    requires forall w :: w in dist && w != src ==> Ways(g, src, w, dist[w]) % COUNT_MOD <= 1
    requires v in dist
    ensures Ways(g, src, v, dist[v]) == 1
    decreases dist[v]
  {
    WaysForNothing(g, src, v);
    WaysForNothing(g, src, src);
    assert IsDist(g, src, src, 0);
    if v != src {
      forall j | 0 <= j < |g.arcs|
        ensures Term(g, src, v, dist[v], j) <= 1
      {
        var a := g.arcs[j];
        assert a in g.arcs;
        if Ends(g, j, v, dist[v]) && Ways(g, src, a.from, dist[v] - a.cost) > 0 {
          NearerThan(g, src, dist, v, j);
          WrapHidesNothing(g, src, dist, a.from);
        }
      }
      AtMostArcs(g, src, v, dist[v], |g.arcs|);
      assert IsDist(g, src, v, dist[v]);
    }
  }

  /** The node before the last arc of a shortest path is at its own distance. */
  lemma NearerThan(g: Graph, src: Node, dist: map<Node, nat>, v: Node, j: nat)
    requires WellFormed(g) && j < |g.arcs|
    requires forall w, d: nat :: IsDist(g, src, w, d) <==> w in dist && dist[w] == d
    requires v in dist && Ends(g, j, v, dist[v]) && Ways(g, src, g.arcs[j].from, dist[v] - g.arcs[j].cost) > 0
    ensures g.arcs[j] in g.arcs && g.arcs[j].from in dist && dist[g.arcs[j].from] == dist[v] - g.arcs[j].cost
  {
    var a := g.arcs[j];
    assert a in g.arcs;
    var d := dist[v] - a.cost;
    assert IsDist(g, src, v, dist[v]);
    forall e: nat | e < d
      ensures Ways(g, src, a.from, e) == 0
    {
      assert Ways(g, src, v, e + a.cost) == 0;
      TermCounts(g, src, v, e + a.cost, j, |g.arcs|);
      assert Ends(g, j, v, e + a.cost);
    }
    assert IsDist(g, src, a.from, d);
  }

  lemma {:induction false} TermCounts(g: Graph, src: Node, v: Node, d: nat, j: nat, k: nat)
    requires WellFormed(g) && j < k <= |g.arcs|
    ensures WaysInto(g, src, v, d, k) >= Term(g, src, v, d, j)
  {
    if j < k - 1 {
      TermCounts(g, src, v, d, j, k - 1);
    }
  }

  lemma {:induction false} AtMostArcs(g: Graph, src: Node, v: Node, d: nat, k: nat)
    requires WellFormed(g) && k <= |g.arcs|
    requires forall j :: 0 <= j < |g.arcs| ==> Term(g, src, v, d, j) <= 1
    ensures WaysInto(g, src, v, d, k) <= k
  {
    if k > 0 {
      AtMostArcs(g, src, v, d, k - 1);
    }
  }

  /** A counted node above one is a tie; with none, no destination of this source is tied. */
  lemma SourceVerdict(g: Graph, src: Node, dist: map<Node, nat>, count: map<Node, nat>)
    requires WellFormed(g) && |g.arcs| < COUNT_MOD && dist.Keys == count.Keys
    requires forall v, d: nat :: IsDist(g, src, v, d) <==> v in dist && dist[v] == d
    requires forall v :: v in dist ==> count[v] == Ways(g, src, v, dist[v]) % COUNT_MOD
    ensures forall v :: v in dist && count[v] > 1 ==> Tie(g, src, v)
    ensures (forall v :: v in dist && v != src ==> count[v] <= 1) ==> forall v :: !Tie(g, src, v)
  {
    forall v | v in dist && count[v] > 1
      ensures Tie(g, src, v)
    {
      assert IsDist(g, src, v, dist[v]);
      TieMeansMany(g, src, v, dist[v]);
    }
    if forall v :: v in dist && v != src ==> count[v] <= 1 {
      forall v
        ensures !Tie(g, src, v)
      {
        if Tie(g, src, v) {
          TiedIsReached(g, src, v);
          var d: nat :| IsDist(g, src, v, d);
          WrapHidesNothing(g, src, dist, v);
          TieMeansMany(g, src, v, d);
        }
      }
    }
  }

  lemma TiedIsReached(g: Graph, src: Node, v: Node)
    requires WellFormed(g) && Tie(g, src, v)
    ensures exists d: nat :: IsDist(g, src, v, d)
  {
    var p, q :| p != q && Shortest(g, src, p, v) && Shortest(g, src, q, v);
    ShortestHasDist(g, src, p, v);
  }

  /** The cost of a shortest path is the distance. */
  lemma ShortestHasDist(g: Graph, src: Node, p: seq<nat>, v: Node)
    requires WellFormed(g) && Shortest(g, src, p, v)
    ensures IsDist(g, src, v, Cost(g, p))
  {
    assert Goes(g, src, p, v, Cost(g, p));
    WaysMeansWalk(g, src, v, Cost(g, p));
    forall e: nat | e < Cost(g, p)
      ensures Ways(g, src, v, e) == 0
    {
      WaysMeansWalk(g, src, v, e);
    }
  }

  /**
   The gate: a Dijkstra per source, refusing on the first count above one. Accepting means that
   no ordered pair of nodes has two minimum-cost paths, and refusing names a pair that has.
   */
  method CheckNoEqualCostPaths(g: Graph) returns (r: Verdict)
    requires WellFormed(g) && |g.arcs| < COUNT_MOD
    ensures r.Accepted? <==> !AnyTie(g)
    ensures r.EqualCost? ==> r.src in g.nodes && r.dst in g.nodes && r.src != r.dst && Tie(g, r.src, r.dst)
    ensures r.EqualCost? ==> exists d: nat :: IsDist(g, r.src, r.dst, d)
                                              && r.paths == Ways(g, r.src, r.dst, d) % COUNT_MOD
  {
    var i := 0;
    while i < |g.nodes|
      invariant 0 <= i <= |g.nodes|
      invariant forall k, t :: 0 <= k < i ==> !Tie(g, g.nodes[k], t)
    {
      var src := g.nodes[i];
      var dist, count := CountShortest(g, src);
      SourceVerdict(g, src, dist, count);
      if dst :| dst in count && dst != src && count[dst] > 1 {
        assert IsDist(g, src, dst, dist[dst]);
        return EqualCost(src, dst, count[dst]);
      }
      i := i + 1;
    }
    return Accepted;
  }

  /** In an accepted graph every node that can be reached is reached by exactly one shortest path. */
  lemma AcceptedIsUnique(g: Graph, s: Node, t: Node, p: seq<nat>)
    requires WellFormed(g) && !AnyTie(g) && s in g.nodes && t in g.nodes && s != t
    requires Walk(g, s, p, t)
    ensures exists q :: Shortest(g, s, q, t) && forall q' :: Shortest(g, s, q', t) ==> q' == q
  {
    ReachedHasDist(g, s, t, p);
    var d: nat :| IsDist(g, s, t, d);
    UniqueWhenUntied(g, s, t, d);
  }

  lemma {:induction false} ReachedHasDist(g: Graph, s: Node, t: Node, p: seq<nat>)
    requires WellFormed(g) && Walk(g, s, p, t)
    ensures exists d: nat :: IsDist(g, s, t, d)
    decreases Cost(g, p)
  {
    if !Shortest(g, s, p, t) {
      var q :| Walk(g, s, q, t) && Cost(g, q) < Cost(g, p);
      ReachedHasDist(g, s, t, q);
    } else {
      ShortestHasDist(g, s, p, t);
    }
  }
}
