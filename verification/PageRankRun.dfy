/** The power iteration as it runs: adjacency lists, a dictionary of ranks rewritten
    in nested loops, and an early stop. */
module PageRankRun {
  import opened Prelude
  import opened PageRank
  import opened PageRankLimit

  // ------------------------------------------------------- one iteration

  function DanglingMass(g: Graph, ns: seq<string>, r: Vec): real {
    if ns == [] then 0.0
    else
      var u := ns[|ns| - 1];
      DanglingMass(g, ns[..|ns| - 1], r) + (if Outs(g, u) == [] then At(r, u) else 0.0)
  }

  /** What nodes with arcs push to `v`, an equal share per arc. */
  function Pushed(g: Graph, ns: seq<string>, r: Vec, v: string): real {
    if ns == [] then 0.0
    else
      var u := ns[|ns| - 1];
      Pushed(g, ns[..|ns| - 1], r, v) +
        (if Outs(g, u) == [] then 0.0 else Mul(Damped(At(r, u)) / |Outs(g, u)| as real, Times(Outs(g, u), v)))
  }

  lemma DanglingStep(d: real, x: real, n: real)
    requires n != 0.0
    ensures Damped(d + x) / n == Damped(d) / n + Damped(Mul(x, 1.0 / n))
  {}

  lemma PushStep(x: real, t: real, len: real)
    requires len != 0.0
    ensures Mul(Damped(x) / len, t) == Damped(Mul(x, t / len))
  {
    assert (0.85 * x) / len * t == 0.85 * (x * (t / len));
  }

  lemma DampedAdds(a: real, b: real)
    ensures Damped(a + b) == Damped(a) + Damped(b)
  {}

  /** Uniform redistribution of dangling mass plus the pushed shares are the damped
      inflow. */
  lemma {:induction false} SplitInflow(g: Graph, ns: seq<string>, r: Vec, v: string)
    requires g.nodes != []
    ensures Damped(DanglingMass(g, ns, r)) / Size(g) + Pushed(g, ns, r, v) == Damped(Inflow(g, ns, r, v))
  {
    if ns != [] {
      var init, u := ns[..|ns| - 1], ns[|ns| - 1];
      var x, outs := At(r, u), Outs(g, u);
      SplitInflow(g, init, r, v);
      DampedAdds(Inflow(g, init, r, v), Mul(x, Kernel(g, u, v)));
      DanglingStep(DanglingMass(g, init, r), x, Size(g));
      if outs != [] { PushStep(x, Times(outs, v), |outs| as real); }
      hide Mul, Damped, Times, At, Outs;
    }
  }

  lemma TimesStep(outs: seq<string>, k: nat, v: string, share: real)
    requires k < |outs|
    ensures Mul(share, Times(outs[..k + 1], v)) == Mul(share, Times(outs[..k], v)) + (if outs[k] == v then share else 0.0)
  {
    assert outs[..k + 1] == outs[..k] + [outs[k]];
    if outs[k] == v { MulOne(share, Times(outs[..k], v)); }
  }

  /** `for v in outs: nxt[v] += share` */
  method AddShares(nxt: Vec, outs: seq<string>, share: real) returns (r: Vec)
    requires forall v :: v in outs ==> v in nxt
    ensures r.Keys == nxt.Keys
    ensures forall v :: v in nxt ==> r[v] == nxt[v] + Mul(share, Times(outs, v))
  {
    r := nxt;
    forall v ensures Mul(share, Times(outs[..0], v)) == 0.0 {}
    hide Mul, Times;
    for k := 0 to |outs|
      invariant r.Keys == nxt.Keys
      invariant forall v :: v in nxt ==> r[v] == nxt[v] + Mul(share, Times(outs[..k], v))
    {
      assert outs[k] in outs;
      forall v { TimesStep(outs, k, v, share); }
      r := r[outs[k] := r[outs[k]] + share];
    }
    assert outs[..|outs|] == outs;
  }

  method SumDangling(g: Graph, r: Vec) returns (d: real)
    requires ValidGraph(g)
    ensures d == DanglingMass(g, g.nodes, r)
  {
    d := 0.0;
    hide At;
    for k := 0 to |g.nodes|
      invariant d == DanglingMass(g, g.nodes[..k], r)
    {
      assert g.nodes[..k + 1][..k] == g.nodes[..k] && g.nodes[k] in g.nodes;
      if g.out[g.nodes[k]] == [] { d := d + At(r, g.nodes[k]); }
    }
    assert g.nodes[..|g.nodes|] == g.nodes;
  }

  function PushedVec(g: Graph, base: real, ns: seq<string>, r: Vec): Vec {
    map v | v in g.nodes :: base + Pushed(g, ns, r, v)
  }

  lemma PushedStep(g: Graph, base: real, k: nat, r: Vec, r': Vec, share: real)
    requires ValidGraph(g) && k < |g.nodes|
    requires var u := g.nodes[k]; var mid := PushedVec(g, base, g.nodes[..k], r);
      if Outs(g, u) == [] then r' == mid
      else share == Damped(At(r, u)) / |Outs(g, u)| as real && r'.Keys == mid.Keys &&
           forall v :: v in mid ==> r'[v] == mid[v] + Mul(share, Times(Outs(g, u), v))
    ensures r' == PushedVec(g, base, g.nodes[..k + 1], r)
  {
    hide Mul, Damped, Times, At, Outs, Pushed, ValidGraph;
    forall v | v in g.nodes ensures v in r' && r'[v] == PushedVec(g, base, g.nodes[..k + 1], r)[v] {
      PushedGrows(g, k, r, v);
      assert v in PushedVec(g, base, g.nodes[..k], r);
    }
  }

  lemma PushedGrows(g: Graph, k: nat, r: Vec, v: string)
    requires k < |g.nodes|
    ensures var u := g.nodes[k];
      Pushed(g, g.nodes[..k + 1], r, v) == Pushed(g, g.nodes[..k], r, v) +
        (if Outs(g, u) == [] then 0.0 else Mul(Damped(At(r, u)) / |Outs(g, u)| as real, Times(Outs(g, u), v)))
  {
    assert g.nodes[..k + 1][..k] == g.nodes[..k];
    hide Mul, Damped, Times, At, Outs;
  }

  /** One pass over the nodes in order. */
  method IterateOnce(g: Graph, r: Vec) returns (nxt: Vec)
    requires ValidGraph(g)
    ensures nxt == Next(g, r)
  {
    hide *;
    var dangling := SumDangling(g, r);
    var base := BaseOf(g, dangling);
    nxt := map u | u in g.nodes :: base;
    PushedNone(g, base, r);
    PushedAll(g, base, r);
    for k := 0 to |g.nodes|
      invariant nxt == PushedVec(g, base, g.nodes[..k], r)
    {
      nxt := PushNode(g, base, k, r, nxt);
    }
  }

  /** What every node gets before the shares of the others. */
  function BaseOf(g: Graph, dangling: real): real
    requires ValidGraph(g)
  {
    Teleport(g) + Damped(dangling) / Size(g)
  }

  lemma PushedNone(g: Graph, base: real, r: Vec)
    ensures PushedVec(g, base, g.nodes[..0], r) == map u | u in g.nodes :: base
  {}

  lemma PushedAll(g: Graph, base: real, r: Vec)
    requires ValidGraph(g) && base == BaseOf(g, DanglingMass(g, g.nodes, r))
    ensures PushedVec(g, base, g.nodes[..|g.nodes|], r) == Next(g, r)
  {
    assert g.nodes[..|g.nodes|] == g.nodes;
    hide *;
    BaseIs(g, DanglingMass(g, g.nodes, r));
    PushedIsNext(g, base, r);
  }

  lemma BaseIs(g: Graph, dangling: real)
    requires ValidGraph(g)
    ensures BaseOf(g, dangling) == Teleport(g) + Damped(dangling) / Size(g)
  {}

  method PushNode(g: Graph, base: real, k: nat, r: Vec, nxt: Vec) returns (r': Vec)
    requires ValidGraph(g) && k < |g.nodes| && nxt == PushedVec(g, base, g.nodes[..k], r)
    ensures r' == PushedVec(g, base, g.nodes[..k + 1], r)
  {
    hide Mul, Damped, Times, At, Pushed, Distinct;
    var u := g.nodes[k];
    assert u in g.nodes;
    var outs := g.out[u];
    assert outs == Outs(g, u);
    r' := nxt;
    var share := 0.0;
    if outs != [] {
      share := Damped(At(r, u)) / |outs| as real;
      r' := AddShares(nxt, outs, share);
    }
    PushedStep(g, base, k, r, r', share);
  }

  lemma PushedIsNext(g: Graph, base: real, r: Vec)
    requires ValidGraph(g) && base == Teleport(g) + Damped(DanglingMass(g, g.nodes, r)) / Size(g)
    ensures PushedVec(g, base, g.nodes, r) == Next(g, r)
  {
    hide Damped, Teleport, Pushed, DanglingMass, Inflow;
    forall v | v in g.nodes ensures PushedVec(g, base, g.nodes, r)[v] == Next(g, r)[v] { SplitInflow(g, g.nodes, r, v); }
  }

  // ------------------------------------------------------- the whole computation

  method Distance(g: Graph, r: Vec, r': Vec) returns (delta: real)
    requires ValidGraph(g)
    ensures delta == L1(g, r, r')
  {
    delta := 0.0;
    var gap := AbsDiff(g.nodes, r, r');
    for k := 0 to |g.nodes|
      invariant delta == Sum(g.nodes[..k], gap)
    {
      assert g.nodes[..k + 1][..k] == g.nodes[..k] && g.nodes[k] in g.nodes;
      delta := delta + Abs(At(r, g.nodes[k]) - At(r', g.nodes[k]));
    }
    assert g.nodes[..|g.nodes|] == g.nodes;
  }

  /** At most 100 rounds; the loop stops after a change below the tolerance. */
  method PowerIteration(g: Graph) returns (rank: Vec)
    requires ValidGraph(g)
    ensures rank == Settle(g, Uniform(g), MAX_ITERATIONS)
  {
    hide L1, Next, Uniform, Distinct, ValidGraph;
    HasNodes(g);
    rank := Uniform(g);
    var round := 0;
    var settled := false;
    while round < MAX_ITERATIONS && !settled
      invariant round <= MAX_ITERATIONS
      invariant Settle(g, Uniform(g), MAX_ITERATIONS) == if settled then rank else Settle(g, rank, MAX_ITERATIONS - round)
    {
      var nxt := IterateOnce(g, rank);
      var delta := Distance(g, nxt, rank);
      SettleStep(g, rank, MAX_ITERATIONS - round);
      rank := nxt;
      round := round + 1;
      settled := delta < TOLERANCE;
    }
  }

  method MaxOf(g: Graph, rank: Vec) returns (peak: real)
    requires g.nodes != []
    ensures peak == Peak(g.nodes, rank)
  {
    peak := At(rank, g.nodes[0]);
    hide At;
    assert g.nodes[..1] == [g.nodes[0]];
    for k := 1 to |g.nodes|
      invariant peak == Peak(g.nodes[..k], rank)
    {
      assert g.nodes[..k + 1][..k] == g.nodes[..k];
      if At(rank, g.nodes[k]) > peak { peak := At(rank, g.nodes[k]); }
    }
    assert g.nodes[..|g.nodes|] == g.nodes;
  }

  function InsideArcs(nodes: set<string>, arcs: seq<Arc>): nat {
    if arcs == [] then 0 else InsideArcs(nodes, arcs[..|arcs| - 1]) + (if Inside(nodes, arcs[|arcs| - 1]) then 1 else 0)
  }

  /** Some arc joins two nodes. */
  ghost predicate AnyInside(nodes: seq<string>, arcs: seq<Arc>) {
    exists a :: a in arcs && a.src in nodes && a.dst in nodes
  }

  lemma {:induction false} InsideIff(nodes: seq<string>, arcs: seq<Arc>)
    ensures InsideArcs(NodeSet(nodes), arcs) > 0 <==> AnyInside(nodes, arcs)
  {
    if arcs != [] {
      var rest, last := arcs[..|arcs| - 1], arcs[|arcs| - 1];
      assert arcs == rest + [last];
      InsideIff(nodes, rest);
      if AnyInside(nodes, arcs) {
        var a :| a in arcs && a.src in nodes && a.dst in nodes;
        assert a == last || a in rest;
      }
    }
  }

  function OutOf(nodes: seq<string>, arcs: seq<Arc>): map<string, seq<string>> {
    GraphOf(nodes, arcs).out
  }

  lemma OutGrows(nodes: seq<string>, arcs: seq<Arc>, k: nat)
    requires k < |arcs|
    ensures var a := arcs[k]; var before := OutOf(nodes, arcs[..k]);
      OutOf(nodes, arcs[..k + 1]) ==
        if Inside(NodeSet(nodes), a) then before[a.src := OutsOf(arcs[..k], NodeSet(nodes), a.src) + [a.dst]] else before
  {
    hide OutsOf, Inside;
    forall u { OutsGrow(arcs, k, NodeSet(nodes), u); }
    if Inside(NodeSet(nodes), arcs[k]) { InsideIsNode(nodes, arcs[k]); }
  }

  lemma OutsGrow(arcs: seq<Arc>, k: nat, all: set<string>, u: string)
    requires k < |arcs|
    ensures OutsOf(arcs[..k + 1], all, u) ==
            if Inside(all, arcs[k]) && arcs[k].src == u then OutsOf(arcs[..k], all, u) + [arcs[k].dst] else OutsOf(arcs[..k], all, u)
  {
    assert arcs[..k + 1][..k] == arcs[..k];
    hide Inside;
  }

  lemma InsideIsNode(nodes: seq<string>, a: Arc)
    requires Inside(NodeSet(nodes), a)
    ensures a.src in nodes
  {}

  /** Adjacency lists of the arcs with both ends among the nodes. */
  method BuildGraph(nodes: seq<string>, arcs: seq<Arc>) returns (g: Graph, count: nat)
    ensures g == GraphOf(nodes, arcs) && count == InsideArcs(NodeSet(nodes), arcs)
  {
    var all := NodeSet(nodes);
    var out: map<string, seq<string>> := map u | u in nodes :: [];
    count := 0;
    assert arcs[..0] == [] && arcs[..|arcs|] == arcs;
    for k := 0 to |arcs|
      invariant out == OutOf(nodes, arcs[..k])
      invariant count == InsideArcs(all, arcs[..k])
    {
      assert arcs[..k + 1][..k] == arcs[..k];
      OutGrows(nodes, arcs, k);
      hide OutsOf;
      var a := arcs[k];
      if a.src in all && a.dst in all {
        assert out[a.src] == OutsOf(arcs[..k], all, a.src);
        out := out[a.src := out[a.src] + [a.dst]];
        count := count + 1;
      }
    }
    g := Graph(nodes, out);
  }

  /** No nodes, no scores; no arcs, no signal; otherwise every score is in (0, 1], the
      highest is 1, and the scores are up to a factor a ranking within two millionths of the
      stationary one. */
  method Pagerank(arcs: seq<Arc>, nodes: seq<string>) returns (scores: Vec)
    requires Distinct(nodes)
    ensures scores.Keys == NodeSet(nodes)
    ensures nodes != [] && !AnyInside(nodes, arcs) ==> forall u :: u in nodes ==> scores[u] == 0.0
    ensures nodes != [] && AnyInside(nodes, arcs) ==>
      && scores == Ranked(GraphOf(nodes, arcs))
      && (forall u :: u in nodes ==> 0.0 < scores[u] <= 1.0)
      && (exists u :: u in nodes && scores[u] == 1.0)
      && RanksNodes(nodes, arcs, scores)
  {
    if nodes == [] {
      return map[];
    }
    GraphIsValid(nodes, arcs);
    InsideIff(nodes, arcs);
    var g, count := BuildGraph(nodes, arcs);
    if count == 0 {
      return map u | u in nodes :: 0.0;
    }
    var top := ScoresInUnit(g);
    SettledRanks(nodes, arcs);
    var rank := PowerIteration(g);
    hide Settle, Uniform, ValidGraph, Peak, At, RanksNodes, Ranked, GraphOf, InsideArcs, AnyInside;
    var peak := MaxOf(g, rank);
    if peak <= 0.0 {
      assert false;
    }
    RankedIs(g, rank, peak);
    scores := map u | u in g.nodes :: At(rank, u) / peak;
  }

  lemma RankedIs(g: Graph, rank: Vec, peak: real)
    requires g.nodes != [] && rank == Settle(g, Uniform(g), MAX_ITERATIONS) && peak == Peak(g.nodes, rank) && peak > 0.0
    ensures Ranked(g) == map u | u in g.nodes :: At(rank, u) / peak
  {
    hide Settle, Uniform, Peak, At;
  }
}
