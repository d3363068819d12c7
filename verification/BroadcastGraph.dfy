/**
 Graphs made of broadcast segments: each segment joins its carriers pairwise, at the cost the
 sender gives it, and one universal segment joins everybody at a cost above the sum of the
 segments' highest costs. Two facts hold of every such graph: the universal segment is the last
 resort, and, when its cost is below the offset a leaf adds, no leaf is worth transiting.
 */
module BroadcastGraph {
  import opened PathGraph
  import opened Seqs

  /** How the arcs of a graph are laid out on segments. */
  datatype Layers = Layers(
    vias: seq<string>,
    high: map<string, nat>,
    universal: string,
    universalCost: nat,
    leaves: set<Node>,
    offset: nat)
  {
    ghost function Offset(n: Node): nat {
      if n in leaves then offset else 0
    }
  }

  ghost function SumHigh(high: map<string, nat>, vias: seq<string>): nat {
    if vias == [] then 0
    else SumHigh(high, vias[..|vias| - 1])
         + if vias[|vias| - 1] in high then high[vias[|vias| - 1]] else 0
  }

  ghost predicate DomainArc(l: Layers, a: Arc) {
    a.via in l.vias && a.via in l.high && l.Offset(a.from) < a.cost <= l.high[a.via] + l.Offset(a.from)
  }

  ghost predicate UniversalArc(l: Layers, a: Arc) {
    a.via == l.universal && a.cost == l.universalCost + l.Offset(a.from)
  }

  ghost predicate OneBroadcastDomain(g: Graph, l: Layers) {
    forall i, j :: 0 <= i < |g.arcs| && 0 <= j < |g.arcs| && g.arcs[i].via == g.arcs[j].via
      && g.arcs[i].via in l.vias && g.arcs[i].from != g.arcs[j].to
      ==> Arc(g.arcs[i].from, g.arcs[j].to, g.arcs[i].cost, g.arcs[i].via) in g.arcs
  }

  ghost predicate Layered(g: Graph, l: Layers) {
    && WellFormed(g)
    && Distinct(l.vias) && l.universal !in l.vias
    && SumHigh(l.high, l.vias) < l.universalCost
    && (forall a :: a in g.arcs ==> DomainArc(l, a) || UniversalArc(l, a))
    && OneBroadcastDomain(g, l)
    && (forall s, t :: s in g.nodes && t in g.nodes && s != t ==> UniversalHop(l, s, t) in g.arcs)
    && Distinct(g.arcs)
  }

  ghost function UniversalHop(l: Layers, s: Node, t: Node): Arc {
    Arc(s, t, l.universalCost + l.Offset(s), l.universal)
  }

  ghost predicate DomainOnly(g: Graph, l: Layers, p: seq<nat>) {
    forall i :: 0 <= i < |p| && p[i] < |g.arcs| ==> g.arcs[p[i]].via in l.vias
  }

  /** `s` and `t` are joined over domain segments alone, through hosts. */
  ghost predicate DomainJoined(g: Graph, l: Layers, s: Node, t: Node) {
    exists p :: Walk(g, s, p, t) && DomainOnly(g, l, p)
  }

  // ---- paths by position ---------------------------------------------------------------------

  ghost predicate Chained(g: Graph, src: Node, p: seq<nat>, dst: Node) {
    && (forall i :: 0 <= i < |p| ==> p[i] < |g.arcs|)
    && (p == [] ==> src == dst)
    && (p != [] ==> g.arcs[p[0]].from == src && g.arcs[p[|p| - 1]].to == dst)
    && (forall i :: 0 < i < |p| ==> Linked(g, p, i))
  }

  /** Arc `i` of `p` takes over where the arc before it arrives, at a node that is not a leaf. */
  ghost predicate Linked(g: Graph, p: seq<nat>, i: nat)
    requires 0 < i < |p| && forall k :: 0 <= k < |p| ==> p[k] < |g.arcs|
  {
    g.arcs[p[i - 1]].to == g.arcs[p[i]].from && g.arcs[p[i]].from !in g.leaves
  }

  lemma {:induction false} WalkIsChained(g: Graph, src: Node, p: seq<nat>, dst: Node)
    ensures Walk(g, src, p, dst) <==> Chained(g, src, p, dst)
  {
    if p != [] && p[|p| - 1] < |g.arcs| {
      var q := p[..|p| - 1];
      var a := g.arcs[p[|p| - 1]];
      WalkIsChained(g, src, q, a.from);
      if Walk(g, src, p, dst) {
        forall i | 0 < i < |p|
          ensures Linked(g, p, i)
        {
          if i < |q| {
            assert Linked(g, q, i);
          }
        }
      }
      if Chained(g, src, p, dst) && q != [] {
        assert Linked(g, p, |p| - 1);
        forall i | 0 < i < |q|
          ensures Linked(g, q, i)
        {
          assert Linked(g, p, i);
        }
      }
    }
  }

  lemma {:induction false} CostConcat(g: Graph, p: seq<nat>, q: seq<nat>)
    ensures Cost(g, p + q) == Cost(g, p) + Cost(g, q)
  {
    if q == [] {
      assert p + q == p;
    } else {
      assert (p + q)[..|p + q| - 1] == p + q[..|q| - 1];
      CostConcat(g, p, q[..|q| - 1]);
    }
  }

  /** A path costs at least any one of its arcs, and more when the arc is not its first. */
  lemma CostAtLeast(g: Graph, p: seq<nat>, i: nat)
    requires WellFormed(g) && i < |p| && forall k :: 0 <= k < |p| ==> p[k] < |g.arcs|
    ensures Cost(g, p) >= g.arcs[p[i]].cost
    ensures i > 0 ==> Cost(g, p) >= g.arcs[p[0]].cost + g.arcs[p[i]].cost
    ensures |p| >= 2 ==> Cost(g, p) > g.arcs[p[i]].cost
  {
    assert p == p[..i] + ([p[i]] + p[i + 1..]);
    CostConcat(g, p[..i], [p[i]] + p[i + 1..]);
    CostConcat(g, [p[i]], p[i + 1..]);
    CostOfOne(g, p[i]);
    if i > 0 {
      assert p[..i] == [p[0]] + p[1..i];
      CostConcat(g, [p[0]], p[1..i]);
      CostOfOne(g, p[0]);
      assert g.arcs[p[0]] in g.arcs;
    } else if |p| >= 2 {
      CostPositive(g, p[1..]);
    }
  }

  lemma CostOfOne(g: Graph, k: nat)
    requires k < |g.arcs|
    ensures Cost(g, [k]) == g.arcs[k].cost
  {
    assert [k][..0] == [];
  }

  // ---- a path need not cross a segment twice -------------------------------------------------

  ghost predicate OncePerSegment(g: Graph, p: seq<nat>)
    requires forall i :: 0 <= i < |p| ==> p[i] < |g.arcs|
  {
    forall i, j :: 0 <= i < j < |p| ==> g.arcs[p[i]].via != g.arcs[p[j]].via
  }

  /** Cut out the detour between two crossings of one segment. */
  lemma CutDetour(g: Graph, l: Layers, s: Node, p: seq<nat>, t: Node, i: nat, j: nat) returns (q: seq<nat>)
    requires Layered(g, l) && Chained(g, s, p, t) && DomainOnly(g, l, p)
    requires i < j < |p| && g.arcs[p[i]].via == g.arcs[p[j]].via
    ensures Chained(g, s, q, t) && DomainOnly(g, l, q) && |q| < |p| && Cost(g, q) < Cost(g, p)
  {
    var mid: seq<nat> := [];
    if g.arcs[p[i]].from != g.arcs[p[j]].to {
      var k := Crossing(g, l, p[i], p[j]);
      mid := [k];
      CostOfOne(g, k);
    }
    q := Bridge(g, s, p, t, i, j, mid);
    BridgeOnDomains(g, l, p[..i], mid, p[j + 1..]);
    DetourCostsMore(g, p, i, j);
    CostConcat(g, p[..i] + mid, p[j + 1..]);
    CostConcat(g, p[..i], mid);
  }

  /** A stretch with another arc in it costs more than its first arc. */
  lemma DetourCostsMore(g: Graph, p: seq<nat>, i: nat, j: nat)
    requires WellFormed(g) && i < j < |p| && forall k :: 0 <= k < |p| ==> p[k] < |g.arcs|
    ensures Cost(g, p) > Cost(g, p[..i]) + g.arcs[p[i]].cost + Cost(g, p[j + 1..])
  {
    var stretch := p[i..j + 1];
    assert p == p[..i] + stretch + p[j + 1..];
    CostConcat(g, p[..i] + stretch, p[j + 1..]);
    CostConcat(g, p[..i], stretch);
    CostAtLeast(g, stretch, 0);
  }

  /** One arc crosses the segment from where `a` enters it to where `b` leaves it. */
  lemma Crossing(g: Graph, l: Layers, a: nat, b: nat) returns (k: nat)
    requires Layered(g, l) && a < |g.arcs| && b < |g.arcs|
    requires g.arcs[a].via == g.arcs[b].via && g.arcs[a].via in l.vias && g.arcs[a].from != g.arcs[b].to
    ensures k < |g.arcs| && g.arcs[k] == Arc(g.arcs[a].from, g.arcs[b].to, g.arcs[a].cost, g.arcs[a].via)
  {
    var c := Arc(g.arcs[a].from, g.arcs[b].to, g.arcs[a].cost, g.arcs[a].via);
    assert c in g.arcs;
    k :| 0 <= k < |g.arcs| && g.arcs[k] == c;
  }

  lemma BridgeOnDomains(g: Graph, l: Layers, p: seq<nat>, mid: seq<nat>, q: seq<nat>)
    requires DomainOnly(g, l, p) && DomainOnly(g, l, mid) && DomainOnly(g, l, q)
    ensures DomainOnly(g, l, p + mid + q)
  {
  }

  /** Replace the arcs `i` to `j` by at most one arc between the same two nodes. */
  lemma Bridge(g: Graph, s: Node, p: seq<nat>, t: Node, i: nat, j: nat, mid: seq<nat>) returns (q: seq<nat>)
    requires Chained(g, s, p, t) && i < j < |p|
    requires if mid == [] then g.arcs[p[i]].from == g.arcs[p[j]].to
             else |mid| == 1 && mid[0] < |g.arcs| && g.arcs[mid[0]].from == g.arcs[p[i]].from
                  && g.arcs[mid[0]].to == g.arcs[p[j]].to
    ensures q == p[..i] + mid + p[j + 1..] && |q| < |p|
    ensures Chained(g, s, q, t)
  {
    q := p[..i] + mid + p[j + 1..];
    var m := i + |mid|;
    forall n | 0 < n < |q|
      ensures Linked(g, q, n)
    {
      if n < i {
        assert Linked(g, p, n);
      } else if n < m {
        assert Linked(g, p, i);
      } else {
        assert Linked(g, p, n - m + j + 1);
        if n == m && mid == [] {
          assert Linked(g, p, i);
        }
      }
    }
    if i > 0 {
      assert Linked(g, p, i);
    }
    if j + 1 < |p| {
      assert Linked(g, p, j + 1);
    }
  }

  /** A path over domain segments is at least as dear as one that crosses each of them at most once. */
  lemma {:induction false} Straighten(g: Graph, l: Layers, s: Node, p: seq<nat>, t: Node) returns (q: seq<nat>)
    requires Layered(g, l) && Chained(g, s, p, t) && DomainOnly(g, l, p)
    ensures Chained(g, s, q, t) && DomainOnly(g, l, q) && OncePerSegment(g, q) && Cost(g, q) <= Cost(g, p)
    decreases |p|
  {
    if i, j :| 0 <= i < j < |p| && g.arcs[p[i]].via == g.arcs[p[j]].via {
      var r := CutDetour(g, l, s, p, t, i, j);
      q := Straighten(g, l, s, r, t);
    } else {
      q := p;
    }
  }

  /** A shortest path crosses each domain segment at most once, and the universal one only alone. */
  lemma ShortestCrossesOnce(g: Graph, l: Layers, s: Node, p: seq<nat>, t: Node)
    requires Layered(g, l) && g.leaves == l.leaves && s in g.nodes && t in g.nodes && s != t && Shortest(g, s, p, t)
    ensures Chained(g, s, p, t) && OncePerSegment(g, p)
    ensures DomainOnly(g, l, p) || |p| == 1
  {
    WalkIsChained(g, s, p, t);
    if !DomainOnly(g, l, p) {
      var k := HopIndex(g, l, s, t);
      UniversalCosts(g, l, s, p, t);
    } else if i, j :| 0 <= i < j < |p| && g.arcs[p[i]].via == g.arcs[p[j]].via {
      var q := CutDetour(g, l, s, p, t, i, j);
      WalkIsChained(g, s, q, t);
    }
  }

  // ---- so it costs less than the universal hop -----------------------------------------------

  ghost function Vias(g: Graph, p: seq<nat>): (r: seq<string>)
    requires forall i :: 0 <= i < |p| ==> p[i] < |g.arcs|
    ensures |r| == |p| && forall i :: 0 <= i < |p| ==> r[i] == g.arcs[p[i]].via
  {
    seq(|p|, i requires 0 <= i < |p| => g.arcs[p[i]].via)
  }

  lemma {:induction false} CostBound(g: Graph, l: Layers, s: Node, p: seq<nat>, t: Node)
    requires Layered(g, l) && g.leaves == l.leaves
    requires Walk(g, s, p, t) && DomainOnly(g, l, p) && forall i :: 0 <= i < |p| ==> p[i] < |g.arcs|
    ensures Cost(g, p) <= SumHigh(l.high, Vias(g, p)) + l.Offset(s)
    decreases |p|
  {
    if p != [] {
      var q := p[..|p| - 1];
      var a := g.arcs[p[|p| - 1]];
      assert a in g.arcs && DomainArc(l, a);
      assert Vias(g, p)[..|p| - 1] == Vias(g, q);
      CostBound(g, l, s, q, a.from);
    }
  }

  lemma {:induction false} SumOfSome(high: map<string, nat>, xs: seq<string>, all: seq<string>)
    requires Distinct(xs) && forall x :: x in xs ==> x in all
    ensures SumHigh(high, xs) <= SumHigh(high, all)
    decreases |all|
  {
    if xs != [] {
      assert xs[0] in all;
      var x := all[|all| - 1];
      if x in xs {
        var i :| 0 <= i < |xs| && xs[i] == x;
        var rest := xs[..i] + xs[i + 1..];
        SumWithout(high, xs, i);
        forall y | y in rest
          ensures y in all[..|all| - 1]
        {
          assert y in xs && y != x;
        }
        SumOfSome(high, rest, all[..|all| - 1]);
      } else {
        SumOfSome(high, xs, all[..|all| - 1]);
      }
    }
  }

  lemma {:induction false} SumWithout(high: map<string, nat>, xs: seq<string>, i: nat)
    requires i < |xs|
    ensures SumHigh(high, xs) == SumHigh(high, xs[..i] + xs[i + 1..]) + if xs[i] in high then high[xs[i]] else 0
    decreases |xs|
  {
    var n := |xs| - 1;
    if i == n {
      assert xs[..i] + xs[i + 1..] == xs[..n];
    } else {
      assert xs[..n][..i] + xs[..n][i + 1..] == (xs[..i] + xs[i + 1..])[..n - 1];
      assert (xs[..i] + xs[i + 1..])[n - 1] == xs[n];
      SumWithout(high, xs[..n], i);
    }
  }

  /** Joined over domain segments, two nodes are nearer than the universal hop. */
  lemma DomainIsNearer(g: Graph, l: Layers, s: Node, t: Node)
    requires Layered(g, l) && g.leaves == l.leaves && DomainJoined(g, l, s, t)
    ensures exists q :: Walk(g, s, q, t) && Cost(g, q) < l.universalCost + l.Offset(s)
  {
    var p :| Walk(g, s, p, t) && DomainOnly(g, l, p);
    WalkIsChained(g, s, p, t);
    var q := Straighten(g, l, s, p, t);
    WalkIsChained(g, s, q, t);
    CostBound(g, l, s, q, t);
    SumOfSome(l.high, Vias(g, q), l.vias);
  }

  /** A path that uses the universal segment costs at least the universal hop; more, if it has two arcs. */
  lemma UniversalCosts(g: Graph, l: Layers, s: Node, q: seq<nat>, t: Node)
    requires Layered(g, l) && Walk(g, s, q, t) && !DomainOnly(g, l, q)
    ensures Cost(g, q) >= l.universalCost + l.Offset(s)
    ensures |q| != 1 ==> Cost(g, q) > l.universalCost + l.Offset(s)
  {
    WalkIsChained(g, s, q, t);
    var i :| 0 <= i < |q| && g.arcs[q[i]].via !in l.vias;
    assert g.arcs[q[i]] in g.arcs && UniversalArc(l, g.arcs[q[i]]);
    CostAtLeast(g, q, i);
    FirstPaysOffset(g, l, q[0]);
  }

  /** Every arc costs more than the offset of the node it leaves. */
  lemma FirstPaysOffset(g: Graph, l: Layers, k: nat)
    requires Layered(g, l) && k < |g.arcs|
    ensures g.arcs[k].cost > l.Offset(g.arcs[k].from)
  {
    assert g.arcs[k] in g.arcs;
  }

  // ---- the two theorems ----------------------------------------------------------------------

  /** Joined over domain segments: no shortest path uses the universal segment. */
  lemma UniversalIsLastResort(g: Graph, l: Layers, s: Node, q: seq<nat>, t: Node)
    requires Layered(g, l) && g.leaves == l.leaves && DomainJoined(g, l, s, t)
    requires Shortest(g, s, q, t)
    ensures DomainOnly(g, l, q)
  {
    DomainIsNearer(g, l, s, t);
    if !DomainOnly(g, l, q) {
      UniversalCosts(g, l, s, q, t);
    }
  }

  /** Not joined: the one shortest path is the direct universal hop. */
  lemma UniversalIsDirect(g: Graph, l: Layers, s: Node, t: Node) returns (k: nat)
    requires Layered(g, l) && !DomainJoined(g, l, s, t)
    requires s in g.nodes && t in g.nodes && s != t
    ensures k < |g.arcs| && g.arcs[k] == UniversalHop(l, s, t)
    ensures forall q :: Shortest(g, s, q, t) <==> q == [k]
  {
    k := HopIndex(g, l, s, t);
    forall q | Walk(g, s, q, t)
      ensures Cost(g, q) >= Cost(g, [k]) && (Cost(g, q) == Cost(g, [k]) ==> q == [k])
    {
      UniversalCosts(g, l, s, q, t);
      if |q| == 1 {
        WalkIsChained(g, s, q, t);
        var a := g.arcs[q[0]];
        assert a in g.arcs && UniversalArc(l, a);
        assert a == g.arcs[k];
      }
    }
  }

  lemma HopIndex(g: Graph, l: Layers, s: Node, t: Node) returns (k: nat)
    requires Layered(g, l) && s in g.nodes && t in g.nodes && s != t
    ensures k < |g.arcs| && g.arcs[k] == UniversalHop(l, s, t)
    ensures Walk(g, s, [k], t) && Cost(g, [k]) == l.universalCost + l.Offset(s)
  {
    k :| 0 <= k < |g.arcs| && g.arcs[k] == UniversalHop(l, s, t);
    WalkIsChained(g, s, [k], t);
    CostOfOne(g, k);
  }

  /** No leaf stands between two arcs of `p`. */
  ghost predicate AvoidsLeaves(g: Graph, leaves: set<Node>, p: seq<nat>) {
    forall i :: 0 < i < |p| && p[i] < |g.arcs| ==> g.arcs[p[i]].from !in leaves
  }

  /** Let the leaves forward: the shortest paths stay the same ones, and none passes a leaf. */
  lemma LeafTransitNeverPays(g: Graph, l: Layers, s: Node, q: seq<nat>, t: Node)
    requires Layered(g, l) && g.leaves == l.leaves && l.universalCost < l.offset
    requires s in g.nodes && t in g.nodes && s != t
    ensures Shortest(g.(leaves := {}), s, q, t) <==> Shortest(g, s, q, t)
    ensures Shortest(g.(leaves := {}), s, q, t) ==> AvoidsLeaves(g, l.leaves, q)
  {
    var free := g.(leaves := {});
    FreeIsLayered(g, l);
    var k := HopIndex(free, l, s, t);
    if Shortest(free, s, q, t) {
      ShortestAvoidsLeaves(free, l, s, q, t);
      SameWalk(g, s, q, t);
      forall r | Walk(g, s, r, t)
        ensures Cost(g, q) <= Cost(g, r)
      {
        SameWalk(g, s, r, t);
        SameCost(g, q);
        SameCost(g, r);
      }
    }
    if Shortest(g, s, q, t) {
      SameWalk(g, s, q, t);
      forall r | Walk(free, s, r, t)
        ensures Cost(free, q) <= Cost(free, r)
      {
        SameCost(g, q);
        SameCost(g, r);
        if AvoidsLeaves(g, l.leaves, r) {
          SameWalk(g, s, r, t);
        } else {
          LeafTransitCosts(free, l, s, r, t);
          SameWalk(g, s, [k], t);
          SameCost(g, [k]);
        }
      }
    }
  }

  lemma FreeIsLayered(g: Graph, l: Layers)
    requires Layered(g, l)
    ensures Layered(g.(leaves := {}), l)
  {
    assert WellFormed(g.(leaves := {}));
  }

  /** Through a leaf, a path costs more than the universal hop. */
  lemma LeafTransitCosts(g: Graph, l: Layers, s: Node, q: seq<nat>, t: Node)
    requires Layered(g, l) && l.universalCost < l.offset && Walk(g, s, q, t) && !AvoidsLeaves(g, l.leaves, q)
    ensures Cost(g, q) > l.universalCost + l.Offset(s)
  {
    WalkIsChained(g, s, q, t);
    var i :| 0 < i < |q| && g.arcs[q[i]].from in l.leaves;
    CostAtLeast(g, q, i);
    FirstPaysOffset(g, l, q[0]);
    FirstPaysOffset(g, l, q[i]);
  }

  lemma ShortestAvoidsLeaves(g: Graph, l: Layers, s: Node, q: seq<nat>, t: Node)
    requires Layered(g, l) && l.universalCost < l.offset && Shortest(g, s, q, t)
    requires s in g.nodes && t in g.nodes && s != t
    ensures AvoidsLeaves(g, l.leaves, q)
  {
    var k := HopIndex(g, l, s, t);
    if !AvoidsLeaves(g, l.leaves, q) {
      LeafTransitCosts(g, l, s, q, t);
    }
  }

  lemma SameWalk(g: Graph, s: Node, q: seq<nat>, t: Node)
    ensures Walk(g, s, q, t) <==> Walk(g.(leaves := {}), s, q, t) && AvoidsLeaves(g, g.leaves, q)
  {
    WalkIsChained(g, s, q, t);
    WalkIsChained(g.(leaves := {}), s, q, t);
  }

  lemma {:induction false} SameCost(g: Graph, q: seq<nat>)
    ensures Cost(g, q) == Cost(g.(leaves := {}), q)
  {
    if q != [] {
      SameCost(g, q[..|q| - 1]);
    }
  }
}
