/** How far the settled scores are from the stationary ranking of the graph, which is
    described here on the arcs alone. */
module PageRankLimit {
  import opened Prelude
  import opened PageRank

  /** The arcs that leave a node for a node. */
  function ArcsFrom(nodes: seq<string>, arcs: seq<Arc>, u: string): nat {
    if arcs == [] then 0
    else
      var a := arcs[|arcs| - 1];
      ArcsFrom(nodes, arcs[..|arcs| - 1], u) + if a.src == u && u in nodes && a.dst in nodes then 1 else 0
  }

  /** The share of its rank a node hands to another: by its arcs, or evenly if it has none. */
  function Hands(nodes: seq<string>, arcs: seq<Arc>, u: string, v: string): real
    requires nodes != []
  {
    if ArcsFrom(nodes, arcs, u) == 0 then 1.0 / |nodes| as real
    else multiset(arcs)[Arc(u, v)] as real / ArcsFrom(nodes, arcs, u) as real
  }

  /** What the nodes `ns` hand to `v`. */
  function Received(nodes: seq<string>, arcs: seq<Arc>, ns: seq<string>, x: Vec, v: string): real
    requires nodes != []
  {
    if ns == [] then 0.0
    else
      var u := ns[|ns| - 1];
      Received(nodes, arcs, ns[..|ns| - 1], x, v) + Handed(nodes, arcs, x, u, v)
  }

  function Handed(nodes: seq<string>, arcs: seq<Arc>, x: Vec, u: string, v: string): real
    requires nodes != []
  {
    At(x, u) * Hands(nodes, arcs, u, v)
  }

  /** One round: 15 percent evenly, and 85 percent of what the nodes hand on. */
  function Round(nodes: seq<string>, arcs: seq<Arc>, x: Vec, v: string): real
    requires nodes != []
  {
    0.15 / |nodes| as real + 0.85 * Received(nodes, arcs, nodes, x, v)
  }

  function Mass(ns: seq<string>, x: Vec): real {
    if ns == [] then 0.0 else Mass(ns[..|ns| - 1], x) + At(x, ns[|ns| - 1])
  }

  /** The sum of the differences, node by node. */
  function Distance(ns: seq<string>, r: Vec, x: Vec): real {
    if ns == [] then 0.0
    else
      var u := ns[|ns| - 1];
      Distance(ns[..|ns| - 1], r, x) + if At(r, u) >= At(x, u) then At(r, u) - At(x, u) else At(x, u) - At(r, u)
  }

  /** A ranking of mass one that one more round leaves as it is. */
  ghost predicate Stationary(nodes: seq<string>, arcs: seq<Arc>, x: Vec)
    requires nodes != []
  {
    && x.Keys == NodeSet(nodes) && Mass(nodes, x) == 1.0
    && forall v :: v in nodes ==> v in x && x[v] == Round(nodes, arcs, x, v)
  }

  // ------------------------------------------------------- the kernel, on the arcs

  lemma {:induction false} OutsLength(nodes: seq<string>, arcs: seq<Arc>, u: string)
    requires u in nodes
    ensures |OutsOf(arcs, NodeSet(nodes), u)| == ArcsFrom(nodes, arcs, u)
  {
    if arcs != [] { OutsLength(nodes, arcs[..|arcs| - 1], u); }
  }

  lemma KernelHands(nodes: seq<string>, arcs: seq<Arc>, u: string, v: string)
    requires nodes != [] && u in nodes && v in nodes
    ensures Kernel(GraphOf(nodes, arcs), u, v) == Hands(nodes, arcs, u, v)
  {
    OutsLength(nodes, arcs, u);
    OutsAreCounted(arcs, NodeSet(nodes), u, v);
  }

  lemma HandedIs(nodes: seq<string>, arcs: seq<Arc>, x: Vec, u: string, v: string)
    requires nodes != [] && u in nodes && v in nodes
    ensures Mul(At(x, u), Kernel(GraphOf(nodes, arcs), u, v)) == Handed(nodes, arcs, x, u, v)
  {
    KernelHands(nodes, arcs, u, v);
    hide Hands, Kernel, At;
  }

  lemma {:induction false} InflowIsReceived(nodes: seq<string>, arcs: seq<Arc>, ns: seq<string>, x: Vec, v: string)
    requires nodes != [] && v in nodes && forall u :: u in ns ==> u in nodes
    ensures Inflow(GraphOf(nodes, arcs), ns, x, v) == Received(nodes, arcs, ns, x, v)
  {
    if ns != [] {
      var init, last := ns[..|ns| - 1], ns[|ns| - 1];
      assert ns == init + [last];
      HandedIs(nodes, arcs, x, last, v);
      hide Handed, Mul, Kernel, GraphOf, At;
      InflowIsReceived(nodes, arcs, init, x, v);
    }
  }

  lemma {:induction false} SumIsMass(ns: seq<string>, r: Vec)
    ensures Sum(ns, r) == Mass(ns, r)
  {
    if ns != [] { SumIsMass(ns[..|ns| - 1], r); }
  }

  lemma {:induction false} GapIsDistance(nodes: seq<string>, ns: seq<string>, r: Vec, x: Vec)
    requires forall u :: u in ns ==> u in nodes
    ensures Sum(ns, AbsDiff(nodes, r, x)) == Distance(ns, r, x)
  {
    if ns != [] {
      var init, last := ns[..|ns| - 1], ns[|ns| - 1];
      assert ns == init + [last];
      GapIsDistance(nodes, init, r, x);
    }
  }

  /** The stationary rankings are the fixed points of mass one of the iteration. */
  lemma StationaryIff(nodes: seq<string>, arcs: seq<Arc>, x: Vec)
    requires nodes != []
    ensures Stationary(nodes, arcs, x) <==> Next(GraphOf(nodes, arcs), x) == x && Sum(nodes, x) == 1.0
  {
    SumIsMass(nodes, x);
    NodesAre(nodes);
    NextKeys(nodes, arcs, x);
    forall v | v in nodes { NextIs(nodes, arcs, x, v); }
    hide Next, GraphOf, Sum, Mass, Round, NodeSet;
    var y := Next(GraphOf(nodes, arcs), x);
    if Stationary(nodes, arcs, x) { assert y == x; }
  }

  lemma NodesAre(nodes: seq<string>)
    ensures forall v :: v in NodeSet(nodes) <==> v in nodes
  {}

  lemma NextKeys(nodes: seq<string>, arcs: seq<Arc>, x: Vec)
    requires nodes != []
    ensures Next(GraphOf(nodes, arcs), x).Keys == NodeSet(nodes)
  {
    hide Inflow;
  }

  lemma NextIs(nodes: seq<string>, arcs: seq<Arc>, x: Vec, v: string)
    requires nodes != [] && v in nodes
    ensures v in Next(GraphOf(nodes, arcs), x)
    ensures Next(GraphOf(nodes, arcs), x)[v] == Round(nodes, arcs, x, v)
  {
    InflowIsReceived(nodes, arcs, nodes, x, v);
    hide Inflow, Received;
  }

  // ------------------------------------------------------- how close

  lemma {:induction false} Triangle(nodes: seq<string>, ns: seq<string>, a: Vec, b: Vec, c: Vec)
    requires forall u :: u in ns ==> u in nodes
    ensures Sum(ns, AbsDiff(nodes, a, c)) <= Sum(ns, AbsDiff(nodes, a, b)) + Sum(ns, AbsDiff(nodes, b, c))
    ensures Sum(ns, AbsDiff(nodes, a, b)) == Sum(ns, AbsDiff(nodes, b, a))
  {
    if ns != [] {
      var init, last := ns[..|ns| - 1], ns[|ns| - 1];
      assert ns == init + [last];
      NodeTriangle(nodes, a, b, c, last);
      hide AbsDiff, At;
      Triangle(nodes, init, a, b, c);
    }
  }

  lemma NodeTriangle(nodes: seq<string>, a: Vec, b: Vec, c: Vec, u: string)
    requires u in nodes
    ensures At(AbsDiff(nodes, a, c), u) <= At(AbsDiff(nodes, a, b), u) + At(AbsDiff(nodes, b, c), u)
    ensures At(AbsDiff(nodes, a, b), u) == At(AbsDiff(nodes, b, a), u)
  {}

  /** What is left to a fixed point is at most 85/15 of the last change. */
  lemma NearFixedPoint(g: Graph, j: nat, x: Vec)
    requires ValidGraph(g) && j > 0 && Next(g, x) == x
    ensures 0.15 * L1(g, Iterate(g, j), x) <= 0.85 * Change(g, j - 1)
  {
    HasNodes(g);
    IterateStep(g, j - 1);
    IterationContracts(g, Iterate(g, j - 1), x);
    Triangle(g.nodes, g.nodes, Iterate(g, j - 1), Iterate(g, j), x);
    hide Iterate, Next, ValidGraph, Sum, AbsDiff;
  }

  /** The loop ends after the first change below 1e-9, or after its last round. */
  lemma {:induction false} SettledAt(g: Graph, k: nat, left: nat) returns (j: nat)
    requires g.nodes != []
    ensures k <= j <= k + left && Settle(g, Iterate(g, k), left) == Iterate(g, j)
    ensures j == k + left || (j > k && Change(g, j - 1) < 0.000000001)
    ensures forall i :: k <= i < j - 1 ==> Change(g, i) >= 0.000000001
    decreases left
  {
    hide *;
    IterateStep(g, k);
    SettleStep(g, Iterate(g, k), left);
    ChangeIs(g, k);
    if left == 0 {
      j := k;
    } else if L1(g, Iterate(g, k + 1), Iterate(g, k)) < TOLERANCE {
      j := k + 1;
    } else {
      j := SettledAt(g, k + 1, left - 1);
    }
  }

  lemma ChangeIs(g: Graph, k: nat)
    requires g.nodes != []
    ensures Change(g, k) == L1(g, Iterate(g, k + 1), Iterate(g, k)) && TOLERANCE == 0.000000001
  {
    hide L1, Iterate;
  }

  lemma {:induction false} PowerAdds(a: nat, b: nat)
    ensures Power(a + b) == Power(a) * Power(b) && Power(b) > 0.0
  {
    if b > 0 {
      PowerAdds(a, b - 1);
      PowerStep(a + b - 1);
      PowerStep(b - 1);
      hide Power;
      Regroup(Power(a), Power(b - 1));
    } else {
      assert Power(0) == 1.0;
    }
  }

  lemma Regroup(p: real, q: real)
    ensures Damped(p * q) == p * Damped(q)
  {}

  lemma ProductAtMost(p: real, q: real, a: real, b: real)
    requires 0.0 < p <= a && 0.0 < q <= b
    ensures 0.0 < p * q <= a * b
  {
    assert p * q <= a * q <= a * b;
  }

  lemma SquareAtMost(p: real, a: real)
    requires 0.0 < p <= a
    ensures 0.0 < p * p <= a * a
  {
    ProductAtMost(p, p, a, a);
  }

  lemma Doubles(a: nat, bound: real)
    requires Power(a) <= bound
    ensures 0.0 < Power(a + a) <= bound * bound
  {
    hide Power;
    PowerAdds(a, a);
    PowerAdds(0, a + a);
    SquareAtMost(Power(a), bound);
  }

  /** 0.85 to the 99. */
  lemma PowerOf99()
    ensures Power(99) <= 0.000000104
  {
    hide *;
    SmallPowers();
    PowerOf64();
    PowerAdds(64, 32);
    PowerAdds(0, 64);
    PowerAdds(0, 32);
    ProductAtMost(Power(64), Power(32), 0.00003052, 0.005524);
    PowerAdds(96, 3);
    PowerAdds(0, 96);
    ProductAtMost(Power(96), Power(3), 0.0000001686, 0.614125);
  }

  lemma SmallPowers()
    ensures Power(2) == 0.7225 && Power(3) == 0.614125
  {
    assert Power(1) == 0.85;
  }

  lemma PowerOf64()
    ensures Power(32) <= 0.005524 && Power(64) <= 0.00003052
  {
    hide *;
    SmallPowers();
    Doubles(2, 0.7225);
    Doubles(4, 0.5221);
    Doubles(8, 0.2726);
    Doubles(16, 0.07432);
    Doubles(32, 0.005524);
  }

  /** The settled vector is within two millionths of any fixed point. */
  lemma SettledIsNear(g: Graph, x: Vec) returns (j: nat)
    requires ValidGraph(g) && Next(g, x) == x
    ensures Settle(g, Uniform(g), MAX_ITERATIONS) == Iterate(g, j)
    ensures L1(g, Settle(g, Uniform(g), MAX_ITERATIONS), x) <= 0.000002
  {
    HasNodes(g);
    j := SettledAt(g, 0, MAX_ITERATIONS);
    assert Iterate(g, 0) == Uniform(g);
    hide Settle, Iterate, Next, L1, Uniform, ValidGraph, Power, Change;
    NearFixedPoint(g, j, x);
    if j == 100 {
      ChangeBound(g, 99);
      PowerOf99();
    }
  }

  /** From an even start the loop goes on round by round, and ends after the first change
      below 1e-9, or after the hundredth round. */
  lemma SettlesAfter(nodes: seq<string>, arcs: seq<Arc>) returns (j: nat)
    requires nodes != [] && GraphOf(nodes, arcs).nodes == nodes
    ensures var g := GraphOf(nodes, arcs);
      && 1 <= j <= 100 && Settle(g, Uniform(g), MAX_ITERATIONS) == Iterate(g, j)
      && (j < 100 ==> Change(g, j - 1) < 0.000000001) && (forall i :: 0 <= i < j - 1 ==> Change(g, i) >= 0.000000001)
      && (forall v :: v in nodes ==> At(Iterate(g, 0), v) == 1.0 / |nodes| as real)
      && (forall k: nat, v :: v in nodes ==> At(Iterate(g, k + 1), v) == Round(nodes, arcs, Iterate(g, k), v))
  {
    var g := GraphOf(nodes, arcs);
    j := SettledAt(g, 0, MAX_ITERATIONS);
    StartsEvenly(g);
    forall k: nat, v | v in nodes ensures At(Iterate(g, k + 1), v) == Round(nodes, arcs, Iterate(g, k), v) {
      IterateStep(g, k);
      NextIs(nodes, arcs, Iterate(g, k), v);
      hide Iterate, Next, Round, GraphOf;
    }
    hide Settle, Iterate, Next, Round, Change, GraphOf, At;
  }

  lemma StartsEvenly(g: Graph)
    requires g.nodes != []
    ensures Iterate(g, 0) == Uniform(g) && forall v :: v in g.nodes ==> At(Uniform(g), v) == 1.0 / |g.nodes| as real
  {}

  /** One more round hardly moves the settled vector, whether or not there is a fixed point. */
  lemma SettledMoves(g: Graph)
    requires ValidGraph(g)
    ensures g.nodes != []
    ensures var r := Settle(g, Uniform(g), MAX_ITERATIONS); L1(g, Next(g, r), r) <= 0.0000002
  {
    HasNodes(g);
    var j := SettledAt(g, 0, MAX_ITERATIONS);
    assert Iterate(g, 0) == Uniform(g);
    assert MAX_ITERATIONS == 100;
    hide *;
    LastChange(g, j);
    IterateStep(g, j);
    ChangeMoves(g, j);
  }

  lemma LastChange(g: Graph, j: nat)
    requires ValidGraph(g) && g.nodes != [] && j > 0 && (j == 100 || Change(g, j - 1) < 0.000000001)
    ensures Change(g, j) <= 0.0000002
  {
    hide *;
    ChangeShrinks(g, j - 1);
    DampedIs(Change(g, j - 1));
    if j == 100 {
      ChangeBound(g, 99);
      PowerOf99();
    }
  }

  lemma DampedIs(x: real)
    ensures Damped(x) == 0.85 * x
  {}

  lemma ChangeMoves(g: Graph, j: nat)
    requires g.nodes != []
    ensures Change(g, j) == L1(g, Iterate(g, j + 1), Iterate(g, j))
  {
    hide L1, Iterate;
  }

  /** All nodes after one more round. */
  function AfterRound(nodes: seq<string>, arcs: seq<Arc>, x: Vec): Vec
    requires nodes != []
  {
    map v | v in nodes :: Round(nodes, arcs, x, v)
  }

  lemma NextIsRound(nodes: seq<string>, arcs: seq<Arc>, x: Vec)
    requires nodes != []
    ensures Next(GraphOf(nodes, arcs), x) == AfterRound(nodes, arcs, x)
  {
    NodesAre(nodes);
    NextKeys(nodes, arcs, x);
    forall v | v in nodes { NextIs(nodes, arcs, x, v); }
    hide Next, GraphOf, Round, NodeSet;
  }

  lemma RoundIsNear(nodes: seq<string>, arcs: seq<Arc>)
    requires nodes != [] && Distinct(nodes)
    ensures GraphOf(nodes, arcs).nodes == nodes
    ensures var g := GraphOf(nodes, arcs);
      var r := Settle(g, Uniform(g), MAX_ITERATIONS); Distance(nodes, AfterRound(nodes, arcs, r), r) <= 0.0000002
  {
    hide *;
    var g := GraphOf(nodes, arcs);
    GraphIsValid(nodes, arcs);
    GraphNodes(nodes, arcs);
    SettledMoves(g);
    var r := Settle(g, Uniform(g), MAX_ITERATIONS);
    NextIsRound(nodes, arcs, r);
    GapIsDistance(nodes, nodes, AfterRound(nodes, arcs, r), r);
    L1Is(g, AfterRound(nodes, arcs, r), r);
  }

  // ------------------------------------------------------- the scores

  /** The scores are a ranking of mass one, up to a factor, that one more round moves by at
      most a fifth of a millionth, and that is within two millionths of every stationary one. */
  ghost predicate RanksNodes(nodes: seq<string>, arcs: seq<Arc>, scores: Vec)
    requires nodes != []
  {
    exists r :: IsRankingOf(nodes, arcs, scores, r)
  }

  ghost predicate IsRankingOf(nodes: seq<string>, arcs: seq<Arc>, scores: Vec, r: Vec)
    requires nodes != []
  {
    && Mass(nodes, r) == 1.0 && (forall u :: u in nodes ==> At(r, u) > 0.0)
    && (forall u, v :: u in nodes && v in nodes ==> SameRatio(scores, r, u, v))
    && Distance(nodes, AfterRound(nodes, arcs, r), r) <= 0.0000002
    && (forall x :: Stationary(nodes, arcs, x) ==> Distance(nodes, r, x) <= 0.000002)
  }

  /** Two nodes score as they rank. */
  predicate SameRatio(scores: Vec, r: Vec, u: string, v: string) {
    At(scores, u) * At(r, v) == At(scores, v) * At(r, u)
  }

  lemma SettledRanks(nodes: seq<string>, arcs: seq<Arc>)
    requires nodes != [] && Distinct(nodes)
    ensures RanksNodes(nodes, arcs, Ranked(GraphOf(nodes, arcs)))
  {
    hide *;
    var g := GraphOf(nodes, arcs);
    GraphIsValid(nodes, arcs);
    GraphNodes(nodes, arcs);
    var r := Settle(g, Uniform(g), MAX_ITERATIONS);
    SettledMass(g);
    SumIsMass(nodes, r);
    forall u, v | u in nodes && v in nodes { InProportion(g, u, v); }
    RoundIsNear(nodes, arcs);
    forall x | Stationary(nodes, arcs, x) { StationaryIsNear(nodes, arcs, x); }
    RanksByParts(nodes, arcs, Ranked(g), r);
  }

  lemma RanksByParts(nodes: seq<string>, arcs: seq<Arc>, scores: Vec, r: Vec)
    requires nodes != []
    requires Mass(nodes, r) == 1.0 && (forall u :: u in nodes ==> At(r, u) > 0.0)
    requires forall u, v :: u in nodes && v in nodes ==> SameRatio(scores, r, u, v)
    requires Distance(nodes, AfterRound(nodes, arcs, r), r) <= 0.0000002
    requires forall x :: Stationary(nodes, arcs, x) ==> Distance(nodes, r, x) <= 0.000002
    ensures RanksNodes(nodes, arcs, scores)
  {
    hide Mass, SameRatio, Stationary, Distance, At, AfterRound;
    assert IsRankingOf(nodes, arcs, scores, r);
  }

  lemma GraphNodes(nodes: seq<string>, arcs: seq<Arc>)
    ensures GraphOf(nodes, arcs).nodes == nodes
  {}

  lemma StationaryIsNear(nodes: seq<string>, arcs: seq<Arc>, x: Vec)
    requires nodes != [] && Distinct(nodes) && Stationary(nodes, arcs, x)
    ensures GraphOf(nodes, arcs).nodes == nodes
    ensures var g := GraphOf(nodes, arcs); Distance(nodes, Settle(g, Uniform(g), MAX_ITERATIONS), x) <= 0.000002
  {
    hide *;
    var g := GraphOf(nodes, arcs);
    GraphIsValid(nodes, arcs);
    GraphNodes(nodes, arcs);
    StationaryIff(nodes, arcs, x);
    var j := SettledIsNear(g, x);
    GapIsDistance(nodes, nodes, Settle(g, Uniform(g), MAX_ITERATIONS), x);
    L1Is(g, Settle(g, Uniform(g), MAX_ITERATIONS), x);
  }

  lemma L1Is(g: Graph, r: Vec, x: Vec)
    ensures L1(g, r, x) == Sum(g.nodes, AbsDiff(g.nodes, r, x))
  {}

  lemma SettledMass(g: Graph)
    requires ValidGraph(g)
    ensures g.nodes != []
    ensures var r := Settle(g, Uniform(g), MAX_ITERATIONS); Sum(g.nodes, r) == 1.0 && forall u :: u in g.nodes ==> At(r, u) > 0.0
  {
    HasNodes(g);
    var j := SettledAt(g, 0, MAX_ITERATIONS);
    assert Iterate(g, 0) == Uniform(g);
    hide Settle, Iterate, Uniform, ValidGraph, Sum;
    IteratesArePositive(g, j);
  }

  lemma InProportion(g: Graph, u: string, v: string)
    requires ValidGraph(g) && u in g.nodes && v in g.nodes
    ensures g.nodes != []
    ensures var r := Settle(g, Uniform(g), MAX_ITERATIONS); SameRatio(Ranked(g), r, u, v)
  {
    HasNodes(g);
    hide Settle, Uniform, ValidGraph, Peak, SameRatio;
    var top := ScoresInUnit(g);
    Quotients(g, Settle(g, Uniform(g), MAX_ITERATIONS), u, v);
  }

  lemma Quotients(g: Graph, r: Vec, u: string, v: string)
    requires g.nodes != [] && Peak(g.nodes, r) > 0.0 && u in g.nodes && v in g.nodes
    ensures SameRatio(Normalised(g, r), r, u, v)
  {
    hide Peak, Normalised, At;
    QuotientIs(g, r, u);
    QuotientIs(g, r, v);
    Cross(At(r, u), At(r, v), Peak(g.nodes, r));
  }

  lemma QuotientIs(g: Graph, r: Vec, u: string)
    requires g.nodes != [] && Peak(g.nodes, r) > 0.0 && u in g.nodes
    ensures At(Normalised(g, r), u) == At(r, u) / Peak(g.nodes, r)
  {
    hide Peak;
  }

  lemma Cross(a: real, b: real, p: real)
    requires p > 0.0
    ensures (a / p) * b == (b / p) * a
  {
    assert (a / p) * b == (a * b) / p;
    assert (b / p) * a == (a * b) / p;
  }

  // ------------------------------------------------------- three nodes in a row

  /** On a chain a, b, c the stationary ranking is 400 : 740 : 1029. */
  lemma ChainIsStationary()
    ensures var nodes, arcs := ["a", "b", "c"], [Arc("a", "b"), Arc("b", "c")];
      Stationary(nodes, arcs, map["a" := 400.0 / 2169.0, "b" := 740.0 / 2169.0, "c" := 1029.0 / 2169.0])
  {
    hide Round;
    ChainRounds(map["a" := 400.0 / 2169.0, "b" := 740.0 / 2169.0, "c" := 1029.0 / 2169.0]);
    ChainMass(map["a" := 400.0 / 2169.0, "b" := 740.0 / 2169.0, "c" := 1029.0 / 2169.0]);
    Letters();
    hide Mass;
  }

  lemma ChainRounds(x: Vec)
    requires At(x, "a") == 400.0 / 2169.0 && At(x, "b") == 740.0 / 2169.0 && At(x, "c") == 1029.0 / 2169.0
    ensures var nodes, arcs := ["a", "b", "c"], [Arc("a", "b"), Arc("b", "c")];
      Round(nodes, arcs, x, "a") == At(x, "a") && Round(nodes, arcs, x, "b") == At(x, "b") && Round(nodes, arcs, x, "c") == At(x, "c")
  {
    var arcs := [Arc("a", "b"), Arc("b", "c")];
    hide Hands, Received, At;
    ChainHands();
    OnChain(arcs, x, "a");
    OnChain(arcs, x, "b");
    OnChain(arcs, x, "c");
  }

  lemma ChainMass(x: Vec)
    ensures Mass(["a", "b", "c"], x) == At(x, "a") + At(x, "b") + At(x, "c")
  {
    var nodes := ["a", "b", "c"];
    assert nodes[..2] == ["a", "b"] && ["a", "b"][..1] == ["a"] && ["a"][..0] == [];
    hide At;
    assert Mass([], x) == 0.0;
    assert Mass(["a"], x) == At(x, "a");
    assert Mass(["a", "b"], x) == At(x, "a") + At(x, "b");
  }

  lemma OnChain(arcs: seq<Arc>, x: Vec, v: string)
    ensures var nodes := ["a", "b", "c"];
      Received(nodes, arcs, nodes, x, v) ==
      At(x, "a") * Hands(nodes, arcs, "a", v) + At(x, "b") * Hands(nodes, arcs, "b", v) + At(x, "c") * Hands(nodes, arcs, "c", v)
  {
    var nodes := ["a", "b", "c"];
    hide Hands, At;
    assert nodes[..2] == ["a", "b"] && ["a", "b"][..1] == ["a"] && ["a"][..0] == [];
    assert Received(nodes, arcs, [], x, v) == 0.0;
    assert Received(nodes, arcs, ["a"], x, v) == Handed(nodes, arcs, x, "a", v);
    assert Received(nodes, arcs, ["a", "b"], x, v) == Handed(nodes, arcs, x, "a", v) + Handed(nodes, arcs, x, "b", v);
  }

  lemma Letters()
    ensures "a" != "b" && "a" != "c" && "b" != "c"
  {
    assert "a"[0] != "b"[0] && "a"[0] != "c"[0] && "b"[0] != "c"[0];
  }

  lemma ChainArcs()
    ensures var nodes, arcs := ["a", "b", "c"], [Arc("a", "b"), Arc("b", "c")];
      ArcsFrom(nodes, arcs, "a") == 1 && ArcsFrom(nodes, arcs, "b") == 1 && ArcsFrom(nodes, arcs, "c") == 0
  {
    var nodes, arcs := ["a", "b", "c"], [Arc("a", "b"), Arc("b", "c")];
    Letters();
    assert arcs[..1] == [Arc("a", "b")] && arcs[..1][..0] == [];
    forall u ensures ArcsFrom(nodes, [], u) == 0 {}
  }

  lemma ChainHands()
    ensures var nodes, arcs := ["a", "b", "c"], [Arc("a", "b"), Arc("b", "c")];
      && Hands(nodes, arcs, "a", "a") == 0.0 && Hands(nodes, arcs, "a", "b") == 1.0 && Hands(nodes, arcs, "a", "c") == 0.0
      && Hands(nodes, arcs, "b", "a") == 0.0 && Hands(nodes, arcs, "b", "b") == 0.0 && Hands(nodes, arcs, "b", "c") == 1.0
      && forall v :: v in nodes ==> Hands(nodes, arcs, "c", v) == 1.0 / 3.0
  {
    Letters();
    ChainArcs();
    var arcs := [Arc("a", "b"), Arc("b", "c")];
    assert multiset(arcs) == multiset{Arc("a", "b"), Arc("b", "c")};
    hide ArcsFrom;
  }
}
