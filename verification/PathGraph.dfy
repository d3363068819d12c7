/**
 Directed weighted multigraphs with destination-only nodes, and the two views of their paths
 that the equal-cost gate is about: a path as a sequence of arc indices (the reference view),
 and the number of paths of a given cost (the view a counting Dijkstra computes with).
 */
module PathGraph {
  import opened Seqs

  type Node = string

  /** One interface cost: `from` reaches `to` at `cost` over the segment interface `via`. */
  datatype Arc = Arc(from: Node, to: Node, cost: nat, via: string)

  /** Parallel arcs are separate list entries. A node in `leaves` is never a waypoint. */
  datatype Graph = Graph(nodes: seq<Node>, arcs: seq<Arc>, leaves: set<Node>)

  ghost predicate WellFormed(g: Graph) {
    forall a :: a in g.arcs ==> a.cost > 0 && a.from in g.nodes && a.to in g.nodes
  }

  // ---- paths, as sequences of arc indices ----------------------------------------------------

  /** `p` leads from `src` to `dst`, and no leaf stands between two of its arcs. */
  ghost predicate Walk(g: Graph, src: Node, p: seq<nat>, dst: Node)
    decreases |p|
  {
    if p == [] then src == dst
    else
      var k := p[|p| - 1];
      && k < |g.arcs|
      && g.arcs[k].to == dst
      && (|p| == 1 || g.arcs[k].from !in g.leaves)
      && Walk(g, src, p[..|p| - 1], g.arcs[k].from)
  }

  ghost function Cost(g: Graph, p: seq<nat>): nat
    decreases |p|
  {
    if p == [] then 0
    else
      var k := p[|p| - 1];
      Cost(g, p[..|p| - 1]) + if k < |g.arcs| then g.arcs[k].cost else 0
  }

  ghost predicate Goes(g: Graph, src: Node, p: seq<nat>, dst: Node, d: int) {
    Walk(g, src, p, dst) && Cost(g, p) == d
  }

  ghost predicate Shortest(g: Graph, src: Node, p: seq<nat>, dst: Node) {
    && Walk(g, src, p, dst)
    && forall q :: Walk(g, src, q, dst) ==> Cost(g, p) <= Cost(g, q)
  }

  /** Two different minimum-cost paths: the equal-cost pair the fabric never asked for. */
  ghost predicate Tie(g: Graph, src: Node, dst: Node) {
    exists p, q :: p != q && Shortest(g, src, p, dst) && Shortest(g, src, q, dst)
  }

  // ---- the number of paths of one cost -------------------------------------------------------

  /** Whether arc `k` can end a path of cost `d` at `v`. */
  ghost predicate Ends(g: Graph, k: nat, v: Node, d: nat)
    requires k < |g.arcs|
  {
    var a := g.arcs[k];
    a.to == v && a.cost <= d && (a.cost == d || a.from !in g.leaves)
  }

  /** The number of paths from `src` to `v` of cost exactly `d`. */
  ghost function Ways(g: Graph, src: Node, v: Node, d: nat): nat
    requires WellFormed(g)
    decreases d, |g.arcs| + 1
  {
    (if v == src && d == 0 then 1 else 0) + WaysInto(g, src, v, d, |g.arcs|)
  }

  /** Those whose last arc has an index below `k`. */
  ghost function WaysInto(g: Graph, src: Node, v: Node, d: nat, k: nat): nat
    requires WellFormed(g) && k <= |g.arcs|
    decreases d, k
  {
    if k == 0 then 0
    else WaysInto(g, src, v, d, k - 1) + Term(g, src, v, d, k - 1)
  }

  ghost function Term(g: Graph, src: Node, v: Node, d: nat, k: nat): nat
    requires WellFormed(g) && k < |g.arcs|
    decreases d, k
  {
    var a := g.arcs[k];
    assert a in g.arcs;
    if Ends(g, k, v, d) then Ways(g, src, a.from, d - a.cost) else 0
  }

  /** `d` is the distance of `v` from `src`. */
  ghost predicate IsDist(g: Graph, src: Node, v: Node, d: nat)
    requires WellFormed(g)
  {
    Ways(g, src, v, d) > 0 && forall e: nat :: e < d ==> Ways(g, src, v, e) == 0
  }

  // ---- the two views agree -------------------------------------------------------------------

  /** Every path of cost `d` to `v`, listed. */
  ghost function Paths(g: Graph, src: Node, v: Node, d: nat): seq<seq<nat>>
    requires WellFormed(g)
    decreases d, |g.arcs| + 1
  {
    (if v == src && d == 0 then [[]] else []) + PathsInto(g, src, v, d, |g.arcs|)
  }

  ghost function PathsInto(g: Graph, src: Node, v: Node, d: nat, k: nat): seq<seq<nat>>
    requires WellFormed(g) && k <= |g.arcs|
    decreases d, k
  {
    if k == 0 then []
    else PathsInto(g, src, v, d, k - 1) + PathsEnding(g, src, v, d, k - 1)
  }

  ghost function PathsEnding(g: Graph, src: Node, v: Node, d: nat, k: nat): seq<seq<nat>>
    requires WellFormed(g) && k < |g.arcs|
    decreases d, k
  {
    var a := g.arcs[k];
    assert a in g.arcs;
    if Ends(g, k, v, d) then Extended(Paths(g, src, a.from, d - a.cost), k) else []
  }

  ghost function Extended(ps: seq<seq<nat>>, k: nat): (r: seq<seq<nat>>)
    ensures |r| == |ps|
    ensures forall i :: 0 <= i < |ps| ==> r[i] == ps[i] + [k]
  {
    seq(|ps|, i requires 0 <= i < |ps| => ps[i] + [k])
  }

  lemma {:induction false} PathsCounted(g: Graph, src: Node, v: Node, d: nat)
    requires WellFormed(g)
    ensures |Paths(g, src, v, d)| == Ways(g, src, v, d)
    decreases d, |g.arcs| + 1
  {
    PathsIntoCounted(g, src, v, d, |g.arcs|);
  }

  lemma {:induction false} PathsIntoCounted(g: Graph, src: Node, v: Node, d: nat, k: nat)
    requires WellFormed(g) && k <= |g.arcs|
    ensures |PathsInto(g, src, v, d, k)| == WaysInto(g, src, v, d, k)
    decreases d, k
  {
    if k > 0 {
      PathsIntoCounted(g, src, v, d, k - 1);
      var a := g.arcs[k - 1];
      assert a in g.arcs;
      if Ends(g, k - 1, v, d) {
        PathsCounted(g, src, a.from, d - a.cost);
      }
    }
  }

  /** The listing holds exactly the paths of that cost ... */
  lemma {:induction false} Listed(g: Graph, src: Node, v: Node, d: nat, p: seq<nat>)
    requires WellFormed(g)
    ensures p in Paths(g, src, v, d) <==> Goes(g, src, p, v, d)
    decreases d, |g.arcs| + 1
  {
    ListedInto(g, src, v, d, |g.arcs|, p);
    assert p != [] ==> (p in Paths(g, src, v, d) <==> p in PathsInto(g, src, v, d, |g.arcs|));
  }

  lemma {:induction false} ListedInto(g: Graph, src: Node, v: Node, d: nat, k: nat, p: seq<nat>)
    requires WellFormed(g) && k <= |g.arcs|
    ensures p in PathsInto(g, src, v, d, k) <==> p != [] && p[|p| - 1] < k && Goes(g, src, p, v, d)
    decreases d, k
  {
    if k > 0 {
      ListedInto(g, src, v, d, k - 1, p);
      ListedEnding(g, src, v, d, k - 1, p);
    }
  }

  lemma {:induction false} ListedEnding(g: Graph, src: Node, v: Node, d: nat, k: nat, p: seq<nat>)
    requires WellFormed(g) && k < |g.arcs|
    ensures p in PathsEnding(g, src, v, d, k) <==> p != [] && p[|p| - 1] == k && Goes(g, src, p, v, d)
    decreases d, k
  {
    var a := g.arcs[k];
    assert a in g.arcs;
    if p == [] || p[|p| - 1] != k {
    } else {
      var q := p[..|p| - 1];
      assert p == q + [k];
      GoesOn(g, src, q, k, v, d);
      if Ends(g, k, v, d) {
        var ps := Paths(g, src, a.from, d - a.cost);
        Listed(g, src, a.from, d - a.cost, q);
        ExtendedHas(ps, k, q);
      }
    }
  }

  lemma ExtendedHas(ps: seq<seq<nat>>, k: nat, q: seq<nat>)
    ensures q + [k] in Extended(ps, k) <==> q in ps
  {
    var r := Extended(ps, k);
    if q in ps {
      var i :| 0 <= i < |ps| && ps[i] == q;
      assert r[i] == q + [k];
    }
    if q + [k] in r {
      var i :| 0 <= i < |r| && r[i] == q + [k];
      assert (ps[i] + [k])[..|ps[i]|] == ps[i] && (q + [k])[..|q|] == q;
      assert |ps[i] + [k]| == |q + [k]|;
    }
  }

  /** One arc more: the path grows by its cost, past a waypoint that is not a leaf. */
  lemma GoesOn(g: Graph, src: Node, q: seq<nat>, k: nat, v: Node, d: nat)
    requires WellFormed(g) && k < |g.arcs|
    ensures Goes(g, src, q + [k], v, d) <==>
            Ends(g, k, v, d) && Goes(g, src, q, g.arcs[k].from, d - g.arcs[k].cost)
  {
    var p := q + [k];
    assert p[..|p| - 1] == q && p[|p| - 1] == k;
    if Walk(g, src, q, g.arcs[k].from) {
      CostPositive(g, q);
    }
  }

  /** ... each of them once. */
  lemma {:induction false} ListedOnce(g: Graph, src: Node, v: Node, d: nat)
    requires WellFormed(g)
    ensures Distinct(Paths(g, src, v, d))
    decreases d, |g.arcs| + 1
  {
    ListedOnceInto(g, src, v, d, |g.arcs|);
    ListedInto(g, src, v, d, |g.arcs|, []);
    var rest := PathsInto(g, src, v, d, |g.arcs|);
    assert forall i :: 0 <= i < |rest| ==> rest[i] in rest;
  }

  lemma {:induction false} ListedOnceInto(g: Graph, src: Node, v: Node, d: nat, k: nat)
    requires WellFormed(g) && k <= |g.arcs|
    ensures Distinct(PathsInto(g, src, v, d, k))
    decreases d, k
  {
    if k > 0 {
      ListedOnceInto(g, src, v, d, k - 1);
      var a := g.arcs[k - 1];
      assert a in g.arcs;
      var lower, last := PathsInto(g, src, v, d, k - 1), PathsEnding(g, src, v, d, k - 1);
      if Ends(g, k - 1, v, d) {
        ListedOnce(g, src, a.from, d - a.cost);
        ExtendedDistinct(Paths(g, src, a.from, d - a.cost), k - 1);
      }
      forall i, j | 0 <= i < |lower| && 0 <= j < |last|
        ensures lower[i] != last[j]
      {
        assert lower[i] in lower && last[j] in last;
        ListedInto(g, src, v, d, k - 1, lower[i]);
        ListedEnding(g, src, v, d, k - 1, last[j]);
      }
      DistinctConcat(lower, last);
    }
  }

  lemma ExtendedDistinct(ps: seq<seq<nat>>, k: nat)
    requires Distinct(ps)
    ensures Distinct(Extended(ps, k))
  {
    var r := Extended(ps, k);
    forall i, j | 0 <= i < j < |r|
      ensures r[i] != r[j]
    {
      assert r[i][..|r[i]| - 1] == ps[i] && r[j][..|r[j]| - 1] == ps[j];
    }
  }

  /** A path costs nothing only when it has no arc. */
  lemma {:induction false} CostPositive(g: Graph, p: seq<nat>)
    requires WellFormed(g)
    ensures p == [] ==> Cost(g, p) == 0
    ensures p != [] && p[|p| - 1] < |g.arcs| ==> Cost(g, p) > 0
  {
    if p != [] && p[|p| - 1] < |g.arcs| {
      assert g.arcs[p[|p| - 1]] in g.arcs;
    }
  }

  /** A path of cost `d` exists exactly when the count says so. */
  lemma WaysMeansWalk(g: Graph, src: Node, v: Node, d: nat)
    requires WellFormed(g)
    ensures Ways(g, src, v, d) > 0 <==> exists p :: Goes(g, src, p, v, d)
  {
    var ps := Paths(g, src, v, d);
    PathsCounted(g, src, v, d);
    if |ps| > 0 {
      Listed(g, src, v, d, ps[0]);
      assert Goes(g, src, ps[0], v, d);
    } else if p :| Goes(g, src, p, v, d) {
      Listed(g, src, v, d, p);
    }
  }

  /** The shortest paths are the paths whose cost is the distance. */
  lemma ShortestAtDist(g: Graph, src: Node, v: Node, d: nat, p: seq<nat>)
    requires WellFormed(g) && IsDist(g, src, v, d)
    ensures Goes(g, src, p, v, d) <==> Shortest(g, src, p, v)
  {
    WaysMeansWalk(g, src, v, d);
    if Goes(g, src, p, v, d) {
      forall q | Walk(g, src, q, v)
        ensures d <= Cost(g, q)
      {
        assert Goes(g, src, q, v, Cost(g, q));
        WaysMeansWalk(g, src, v, Cost(g, q));
      }
    }
    if Shortest(g, src, p, v) {
      assert Goes(g, src, p, v, Cost(g, p));
      WaysMeansWalk(g, src, v, Cost(g, p));
    }
  }

  /** At its distance, a node is tied exactly when more than one path is counted. */
  lemma TieMeansMany(g: Graph, src: Node, v: Node, d: nat)
    requires WellFormed(g) && IsDist(g, src, v, d)
    ensures Tie(g, src, v) <==> Ways(g, src, v, d) > 1
  {
    var ps := Paths(g, src, v, d);
    PathsCounted(g, src, v, d);
    ListedOnce(g, src, v, d);
    if |ps| > 1 {
      forall i | 0 <= i < 2
        ensures Shortest(g, src, ps[i], v)
      {
        Listed(g, src, v, d, ps[i]);
        ShortestAtDist(g, src, v, d, ps[i]);
      }
      assert ps[0] != ps[1];
    } else if p, q :| p != q && Shortest(g, src, p, v) && Shortest(g, src, q, v) {
      ShortestAtDist(g, src, v, d, p);
      ShortestAtDist(g, src, v, d, q);
      Listed(g, src, v, d, p);
      Listed(g, src, v, d, q);
    }
  }

  /** Without a tie, a node that can be reached has exactly one shortest path. */
  lemma UniqueWhenUntied(g: Graph, src: Node, v: Node, d: nat)
    requires WellFormed(g) && IsDist(g, src, v, d) && !Tie(g, src, v)
    ensures exists p :: Shortest(g, src, p, v) && forall q :: Shortest(g, src, q, v) ==> q == p
  {
    WaysMeansWalk(g, src, v, d);
    var p :| Goes(g, src, p, v, d);
    ShortestAtDist(g, src, v, d, p);
  }
}
