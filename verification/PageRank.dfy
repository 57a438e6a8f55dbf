/** Graph centrality: damped PageRank by power iteration, normalised by its peak.
    Arithmetic is over the reals, so the order of summation does not matter. */
module PageRank {
  import opened Prelude

  const MAX_ITERATIONS: nat := 100
  const TOLERANCE: real := 0.000000001

  datatype Arc = Arc(src: string, dst: string)

  /** Scores by node. */
  type Vec = map<string, real>

  function At(r: Vec, u: string): real {
    if u in r then r[u] else 0.0
  }

  function Sum(ns: seq<string>, r: Vec): real {
    if ns == [] then 0.0 else Sum(ns[..|ns| - 1], r) + At(r, ns[|ns| - 1])
  }

  function Abs(x: real): real { if x < 0.0 then -x else x }

  function Mul(a: real, b: real): real { a * b }

  /** The damping factor is 0.85. */
  function Damped(x: real): real { 0.85 * x }

  // ------------------------------------------------------- the graph

  /** `nodes` in sorted order; `out` lists the targets of every node, once per arc. */
  datatype Graph = Graph(nodes: seq<string>, out: map<string, seq<string>>)

  ghost predicate Distinct(ns: seq<string>) {
    forall i, j :: 0 <= i < j < |ns| ==> ns[i] != ns[j]
  }

  ghost predicate ValidGraph(g: Graph) {
    && g.nodes != [] && Distinct(g.nodes)
    && (forall u :: u in g.nodes <==> u in g.out)
    && (forall u, v :: u in g.out && v in g.out[u] ==> v in g.nodes)
  }

  function Outs(g: Graph, u: string): seq<string> {
    if u in g.out then g.out[u] else []
  }

  function Size(g: Graph): real { |g.nodes| as real }

  function Times(outs: seq<string>, v: string): real { multiset(outs)[v] as real }

  /** The part of its mass `u` passes to `v`; a node without arcs spreads it evenly. */
  function Kernel(g: Graph, u: string, v: string): real
    requires g.nodes != []
  {
    if Outs(g, u) == [] then 1.0 / Size(g) else Times(Outs(g, u), v) / |Outs(g, u)| as real
  }

  /** What the nodes `ns` pass to `v`. */
  function Inflow(g: Graph, ns: seq<string>, r: Vec, v: string): real
    requires g.nodes != []
  {
    if ns == [] then 0.0 else Inflow(g, ns[..|ns| - 1], r, v) + Mul(At(r, ns[|ns| - 1]), Kernel(g, ns[|ns| - 1], v))
  }

  function Teleport(g: Graph): real
    requires g.nodes != []
  {
    (1.0 - 0.85) / Size(g)
  }

  /** One iteration. */
  function Next(g: Graph, r: Vec): Vec
    requires g.nodes != []
  {
    map v | v in g.nodes :: Teleport(g) + Damped(Inflow(g, g.nodes, r, v))
  }

  function AbsDiff(ns: seq<string>, r: Vec, r': Vec): Vec {
    map u | u in ns :: Abs(At(r, u) - At(r', u))
  }

  /** The L1 distance the loop watches. */
  function L1(g: Graph, r: Vec, r': Vec): real {
    Sum(g.nodes, AbsDiff(g.nodes, r, r'))
  }

  // ------------------------------------------------------- every node passes on all its mass

  function RowSum(g: Graph, u: string, ms: seq<string>): real
    requires g.nodes != []
  {
    if ms == [] then 0.0 else RowSum(g, u, ms[..|ms| - 1]) + Kernel(g, u, ms[|ms| - 1])
  }

  function TimesSum(outs: seq<string>, ms: seq<string>): real {
    if ms == [] then 0.0 else TimesSum(outs, ms[..|ms| - 1]) + Times(outs, ms[|ms| - 1])
  }

  lemma {:induction false} TimesSumGrows(outs: seq<string>, v: string, ms: seq<string>)
    requires Distinct(ms)
    ensures TimesSum(outs + [v], ms) == TimesSum(outs, ms) + (if v in ms then 1.0 else 0.0)
  {
    if ms != [] {
      var init, last := ms[..|ms| - 1], ms[|ms| - 1];
      assert ms == init + [last];
      TimesSumGrows(outs, v, init);
      if v in init {
        var k :| 0 <= k < |init| && init[k] == v;
        assert ms[k] != ms[|ms| - 1];
      }
    }
  }

  lemma {:induction false} TimesSumIsLength(outs: seq<string>, ms: seq<string>)
    requires Distinct(ms) && forall v :: v in outs ==> v in ms
    ensures TimesSum(outs, ms) == |outs| as real
  {
    if outs == [] {
      NoTimes(ms);
    } else {
      var init, last := outs[..|outs| - 1], outs[|outs| - 1];
      assert outs == init + [last] && last in outs;
      TimesSumIsLength(init, ms);
      TimesSumGrows(init, last, ms);
    }
  }

  lemma {:induction false} NoTimes(ms: seq<string>)
    ensures TimesSum([], ms) == 0.0
  {
    if ms != [] { NoTimes(ms[..|ms| - 1]); }
  }

  lemma {:induction false} RowSumOfOuts(g: Graph, u: string, ms: seq<string>)
    requires g.nodes != [] && Outs(g, u) != []
    ensures RowSum(g, u, ms) == TimesSum(Outs(g, u), ms) / |Outs(g, u)| as real
  {
    if ms != [] {
      RowSumOfOuts(g, u, ms[..|ms| - 1]);
      AddFractions(TimesSum(Outs(g, u), ms[..|ms| - 1]), Times(Outs(g, u), ms[|ms| - 1]), |Outs(g, u)| as real);
    }
  }

  lemma AddFractions(a: real, b: real, c: real)
    requires c != 0.0
    ensures a / c + b / c == (a + b) / c
  {}

  lemma {:induction false} RowSumOfDangling(g: Graph, u: string, ms: seq<string>)
    requires g.nodes != [] && Outs(g, u) == []
    ensures RowSum(g, u, ms) == |ms| as real / Size(g)
  {
    if ms != [] {
      RowSumOfDangling(g, u, ms[..|ms| - 1]);
      AddFractions((|ms| - 1) as real, 1.0, Size(g));
    }
  }

  lemma KernelIsStochastic(g: Graph, u: string)
    requires ValidGraph(g)
    ensures RowSum(g, u, g.nodes) == 1.0
  {
    assert forall v :: v in Outs(g, u) ==> v in g.nodes;
    hide RowSum, TimesSum, Kernel, Outs;
    if Outs(g, u) == [] {
      RowSumOfDangling(g, u, g.nodes);
      SelfQuotient(Size(g));
    } else {
      RowSumOfOuts(g, u, g.nodes);
      TimesSumIsLength(Outs(g, u), g.nodes);
      SelfQuotient(|Outs(g, u)| as real);
    }
  }

  lemma SelfQuotient(x: real)
    requires x != 0.0
    ensures x / x == 1.0
  {
  }

  lemma KernelIsNonnegative(g: Graph, u: string, v: string)
    requires g.nodes != []
    ensures Kernel(g, u, v) >= 0.0
  {}

  // ------------------------------------------------------- exchanging the two sums

  /** Inflows of `ms` from `ns`, by target. */
  function InflowSum(g: Graph, ns: seq<string>, ms: seq<string>, r: Vec): real
    requires g.nodes != []
  {
    if ms == [] then 0.0 else InflowSum(g, ns, ms[..|ms| - 1], r) + Inflow(g, ns, r, ms[|ms| - 1])
  }

  /** ... and by origin. */
  function OutflowSum(g: Graph, ns: seq<string>, ms: seq<string>, r: Vec): real
    requires g.nodes != []
  {
    if ns == [] then 0.0 else OutflowSum(g, ns[..|ns| - 1], ms, r) + Mul(At(r, ns[|ns| - 1]), RowSum(g, ns[|ns| - 1], ms))
  }

  lemma {:induction false} OutflowGrows(g: Graph, ns: seq<string>, ms: seq<string>, r: Vec)
    requires g.nodes != [] && ms != []
    ensures OutflowSum(g, ns, ms, r) == OutflowSum(g, ns, ms[..|ms| - 1], r) + Inflow(g, ns, r, ms[|ms| - 1])
  {
    if ns != [] {
      var u := ns[|ns| - 1];
      hide Mul, Kernel;
      OutflowGrows(g, ns[..|ns| - 1], ms, r);
      Distribute(At(r, u), RowSum(g, u, ms[..|ms| - 1]), Kernel(g, u, ms[|ms| - 1]));
    }
  }

  lemma Distribute(a: real, b: real, c: real)
    ensures Mul(a, b + c) == Mul(a, b) + Mul(a, c)
  {}

  lemma {:induction false} OutflowOfNone(g: Graph, ns: seq<string>, r: Vec)
    requires g.nodes != []
    ensures OutflowSum(g, ns, [], r) == 0.0
  {
    if ns != [] { OutflowOfNone(g, ns[..|ns| - 1], r); }
  }

  lemma {:induction false} SumsExchange(g: Graph, ns: seq<string>, ms: seq<string>, r: Vec)
    requires g.nodes != []
    ensures InflowSum(g, ns, ms, r) == OutflowSum(g, ns, ms, r)
  {
    if ms == [] {
      OutflowOfNone(g, ns, r);
    } else {
      SumsExchange(g, ns, ms[..|ms| - 1], r);
      OutflowGrows(g, ns, ms, r);
    }
  }

  lemma {:induction false} OutflowIsMass(g: Graph, ns: seq<string>, r: Vec)
    requires ValidGraph(g)
    ensures OutflowSum(g, ns, g.nodes, r) == Sum(ns, r)
  {
    if ns != [] {
      OutflowIsMass(g, ns[..|ns| - 1], r);
      KernelIsStochastic(g, ns[|ns| - 1]);
    }
  }

  /** All mass arrives somewhere. */
  lemma InflowIsMass(g: Graph, r: Vec)
    requires ValidGraph(g)
    ensures InflowSum(g, g.nodes, g.nodes, r) == Sum(g.nodes, r)
  {
    SumsExchange(g, g.nodes, g.nodes, r);
    OutflowIsMass(g, g.nodes, r);
  }

  // ------------------------------------------------------- mass one

  lemma {:induction false} SumOfNext(g: Graph, ms: seq<string>, r: Vec)
    requires g.nodes != [] && forall v :: v in ms ==> v in g.nodes
    ensures Sum(ms, Next(g, r)) == Mul(Teleport(g), |ms| as real) + Damped(InflowSum(g, g.nodes, ms, r))
  {
    if ms != [] {
      var init, v := ms[..|ms| - 1], ms[|ms| - 1];
      assert ms == init + [v];
      assert At(Next(g, r), v) == Teleport(g) + Damped(Inflow(g, g.nodes, r, v));
      hide Mul, Next, Teleport, Inflow, At;
      SumOfNext(g, init, r);
      MulOne(Teleport(g), |init| as real);
      assert |ms| as real == |init| as real + 1.0;
    } else {
      assert Mul(Teleport(g), 0.0) == 0.0;
    }
  }

  lemma MulOne(a: real, b: real)
    ensures Mul(a, b + 1.0) == Mul(a, b) + a
  {}

  /** Every iteration keeps the total mass at one. */
  lemma MassIsOne(g: Graph, r: Vec)
    requires ValidGraph(g) && Sum(g.nodes, r) == 1.0
    ensures Sum(g.nodes, Next(g, r)) == 1.0
  {
    SumOfNext(g, g.nodes, r);
    InflowIsMass(g, r);
    TeleportTotal(g);
    hide Mul, Next, Teleport, Inflow, InflowSum, Sum;
  }

  lemma TeleportTotal(g: Graph)
    requires g.nodes != []
    ensures Mul(Teleport(g), |g.nodes| as real) == 1.0 - 0.85
  {
    var n := |g.nodes| as real;
    assert ((1.0 - 0.85) / n) * n == 1.0 - 0.85;
  }

  // ------------------------------------------------------- contraction

  lemma {:induction false} InflowGap(g: Graph, ns: seq<string>, r: Vec, r': Vec, v: string)
    requires g.nodes != [] && forall u :: u in ns ==> u in g.nodes
    ensures Abs(Inflow(g, ns, r, v) - Inflow(g, ns, r', v)) <= Inflow(g, ns, AbsDiff(g.nodes, r, r'), v)
  {
    if ns != [] {
      var init, u := ns[..|ns| - 1], ns[|ns| - 1];
      assert ns == init + [u];
      KernelIsNonnegative(g, u, v);
      assert At(AbsDiff(g.nodes, r, r'), u) == Abs(At(r, u) - At(r', u));
      ScaledGap(At(r, u), At(r', u), Kernel(g, u, v));
      hide Mul, Kernel, At, AbsDiff;
      InflowGap(g, init, r, r', v);
    }
  }

  lemma ScaledGap(a: real, b: real, k: real)
    requires k >= 0.0
    ensures Abs(Mul(a, k) - Mul(b, k)) == Mul(Abs(a - b), k)
  {
    assert a * k - b * k == (a - b) * k;
  }

  lemma {:induction false} GapOfNext(g: Graph, ms: seq<string>, r: Vec, r': Vec)
    requires g.nodes != [] && forall v :: v in ms ==> v in g.nodes
    ensures Sum(ms, AbsDiff(g.nodes, Next(g, r), Next(g, r'))) <= Damped(InflowSum(g, g.nodes, ms, AbsDiff(g.nodes, r, r')))
  {
    if ms != [] {
      var init, v := ms[..|ms| - 1], ms[|ms| - 1];
      assert ms == init + [v];
      GapOfNext(g, init, r, r');
      InflowGap(g, g.nodes, r, r', v);
      NextGap(g, r, r', v);
    }
  }

  lemma NextGap(g: Graph, r: Vec, r': Vec, v: string)
    requires g.nodes != [] && v in g.nodes
    ensures At(AbsDiff(g.nodes, Next(g, r), Next(g, r')), v) ==
            Damped(Abs(Inflow(g, g.nodes, r, v) - Inflow(g, g.nodes, r', v)))
  {
    hide Inflow, Teleport;
  }

  /** The iteration contracts: two iterates move together by the damping factor. */
  lemma IterationContracts(g: Graph, r: Vec, r': Vec)
    requires ValidGraph(g)
    ensures L1(g, Next(g, r), Next(g, r')) <= Damped(L1(g, r, r'))
  {
    GapOfNext(g, g.nodes, r, r');
    InflowIsMass(g, AbsDiff(g.nodes, r, r'));
  }

  // ------------------------------------------------------- the iterates

  function Uniform(g: Graph): Vec
    requires g.nodes != []
  {
    map u | u in g.nodes :: 1.0 / Size(g)
  }

  function Iterate(g: Graph, k: nat): Vec
    requires g.nodes != []
  {
    if k == 0 then Uniform(g) else Next(g, Iterate(g, k - 1))
  }

  function Power(k: nat): real {
    if k == 0 then 1.0 else Damped(Power(k - 1))
  }

  ghost predicate Positive(g: Graph, r: Vec) {
    forall u :: u in g.nodes ==> u in r && r[u] > 0.0
  }

  lemma {:induction false} SumOfUniform(g: Graph, ms: seq<string>)
    requires g.nodes != [] && forall v :: v in ms ==> v in g.nodes
    ensures Sum(ms, Uniform(g)) == |ms| as real / Size(g)
  {
    if ms != [] {
      assert ms == ms[..|ms| - 1] + [ms[|ms| - 1]];
      SumOfUniform(g, ms[..|ms| - 1]);
      AddFractions((|ms| - 1) as real, 1.0, Size(g));
    }
  }

  lemma {:induction false} InflowIsNonnegative(g: Graph, ns: seq<string>, r: Vec, v: string)
    requires g.nodes != [] && Positive(g, r)
    requires forall u :: u in ns ==> u in g.nodes
    ensures Inflow(g, ns, r, v) >= 0.0
  {
    if ns != [] {
      var init, u := ns[..|ns| - 1], ns[|ns| - 1];
      assert ns == init + [u];
      InflowIsNonnegative(g, init, r, v);
      KernelIsNonnegative(g, u, v);
      Product(At(r, u), Kernel(g, u, v));
    }
  }

  lemma Product(a: real, b: real)
    requires a >= 0.0 && b >= 0.0
    ensures Mul(a, b) >= 0.0
  {}

  lemma NextIsPositive(g: Graph, r: Vec)
    requires ValidGraph(g) && Positive(g, r)
    ensures Positive(g, Next(g, r))
  {
    assert Teleport(g) > 0.0;
    hide Teleport, Inflow;
    forall v | v in g.nodes ensures Next(g, r)[v] > 0.0 {
      InflowIsNonnegative(g, g.nodes, r, v);
    }
  }

  lemma UniformIsPositive(g: Graph)
    requires g.nodes != []
    ensures Positive(g, Uniform(g)) && |g.nodes| as real / Size(g) == 1.0
  {}

  /** All iterates are positive and of mass one. */
  lemma {:induction false} IteratesArePositive(g: Graph, k: nat)
    requires ValidGraph(g)
    ensures Positive(g, Iterate(g, k)) && Sum(g.nodes, Iterate(g, k)) == 1.0
  {
    if k == 0 {
      SumOfUniform(g, g.nodes);
      UniformIsPositive(g);
    } else {
      hide Next, Positive, Sum, ValidGraph;
      IteratesArePositive(g, k - 1);
      NextIsPositive(g, Iterate(g, k - 1));
      MassIsOne(g, Iterate(g, k - 1));
    }
  }

  lemma {:induction false} SumOfGap(g: Graph, ms: seq<string>, r: Vec, r': Vec)
    requires Positive(g, r) && Positive(g, r') && forall v :: v in ms ==> v in g.nodes
    ensures Sum(ms, AbsDiff(g.nodes, r, r')) <= Sum(ms, r) + Sum(ms, r')
  {
    if ms != [] {
      assert ms == ms[..|ms| - 1] + [ms[|ms| - 1]];
      SumOfGap(g, ms[..|ms| - 1], r, r');
    }
  }

  /** How far the k-th iteration moves. */
  function Change(g: Graph, k: nat): real
    requires g.nodes != []
  {
    L1(g, Iterate(g, k + 1), Iterate(g, k))
  }

  /** Each change is at most 0.85 of the one before. */
  lemma ChangeShrinks(g: Graph, k: nat)
    requires ValidGraph(g)
    ensures Change(g, k + 1) <= Damped(Change(g, k))
  {
    IterateStep(g, k);
    IterateStep(g, k + 1);
    hide L1, Iterate, Next, ValidGraph;
    IterationContracts(g, Iterate(g, k + 1), Iterate(g, k));
  }

  lemma BoundShrinks(g: Graph, k: nat)
    requires ValidGraph(g) && Change(g, k) <= 2.0 * Power(k)
    ensures Change(g, k + 1) <= 2.0 * Power(k + 1)
  {
    ChangeShrinks(g, k);
    PowerStep(k);
    DampedMonotone(Change(g, k), Power(k));
    hide *;
  }

  /** Hence at most two times 0.85 to the k after k further steps. */
  lemma {:induction false} ChangeBound(g: Graph, k: nat)
    requires ValidGraph(g)
    ensures Change(g, k) <= 2.0 * Power(k)
  {
    hide ValidGraph, Change;
    HasNodes(g);
    if k == 0 {
      FirstChange(g);
    } else {
      ChangeBound(g, k - 1);
      BoundShrinks(g, k - 1);
    }
  }

  lemma HasNodes(g: Graph)
    requires ValidGraph(g)
    ensures g.nodes != []
  {}

  lemma PowerStep(k: nat)
    ensures Power(k + 1) == Damped(Power(k))
  {}

  lemma DampedMonotone(x: real, p: real)
    requires x <= 2.0 * p
    ensures Damped(x) <= 2.0 * Damped(p)
  {}

  lemma IterateStep(g: Graph, k: nat)
    requires g.nodes != []
    ensures Iterate(g, k + 1) == Next(g, Iterate(g, k))
  {
    hide Next;
  }

  lemma FirstChange(g: Graph)
    requires ValidGraph(g)
    ensures Change(g, 0) <= 2.0
  {
    IteratesArePositive(g, 0);
    IteratesArePositive(g, 1);
    SumOfGap(g, g.nodes, Iterate(g, 1), Iterate(g, 0));
  }

  // ------------------------------------------------------- stopping and normalising

  /** Iterate until the change is below the tolerance, at most `left` times. */
  function Settle(g: Graph, r: Vec, left: nat): Vec
    requires g.nodes != []
    decreases left
  {
    if left == 0 then r
    else if L1(g, Next(g, r), r) < TOLERANCE then Next(g, r)
    else Settle(g, Next(g, r), left - 1)
  }

  lemma SettleStep(g: Graph, r: Vec, left: nat)
    requires g.nodes != []
    ensures left == 0 ==> Settle(g, r, left) == r
    ensures left > 0 ==>
      Settle(g, r, left) == if L1(g, Next(g, r), r) < TOLERANCE then Next(g, r) else Settle(g, Next(g, r), left - 1)
  {
    hide Next, L1;
  }

  lemma {:induction false} SettledIsIterate(g: Graph, k: nat, left: nat) returns (j: nat)
    requires g.nodes != []
    ensures k <= j <= k + left && Settle(g, Iterate(g, k), left) == Iterate(g, j)
    decreases left
  {
    hide *;
    IterateStep(g, k);
    SettleStep(g, Iterate(g, k), left);
    if left == 0 {
      j := k;
    } else if L1(g, Iterate(g, k + 1), Iterate(g, k)) < TOLERANCE {
      j := k + 1;
    } else {
      j := SettledIsIterate(g, k + 1, left - 1);
    }
  }

  function Peak(ns: seq<string>, r: Vec): real
    requires ns != []
  {
    if |ns| == 1 then At(r, ns[0])
    else
      var p := Peak(ns[..|ns| - 1], r);
      if At(r, ns[|ns| - 1]) > p then At(r, ns[|ns| - 1]) else p
  }

  lemma {:induction false} PeakIsMax(ns: seq<string>, r: Vec) returns (top: string)
    requires ns != []
    ensures top in ns && At(r, top) == Peak(ns, r)
    ensures forall u :: u in ns ==> At(r, u) <= Peak(ns, r)
  {
    assert ns == ns[..|ns| - 1] + [ns[|ns| - 1]];
    if |ns| == 1 {
      top := ns[0];
    } else {
      top := PeakIsMax(ns[..|ns| - 1], r);
      if At(r, ns[|ns| - 1]) > Peak(ns[..|ns| - 1], r) { top := ns[|ns| - 1]; }
    }
  }

  function Normalised(g: Graph, r: Vec): Vec
    requires g.nodes != []
  {
    var peak := Peak(g.nodes, r);
    map u | u in g.nodes :: if peak <= 0.0 then 0.0 else At(r, u) / peak
  }

  function Ranked(g: Graph): Vec
    requires g.nodes != []
  {
    Normalised(g, Settle(g, Uniform(g), MAX_ITERATIONS))
  }

  lemma QuotientInUnit(a: real, b: real)
    requires 0.0 < a <= b
    ensures 0.0 < a / b <= 1.0 && (a == b ==> a / b == 1.0)
  {}

  /** Every score is in (0, 1], the highest is exactly 1, and the branch for a peak
      that is not positive is dead. */
  lemma ScoresInUnit(g: Graph) returns (top: string)
    requires ValidGraph(g)
    ensures Ranked(g).Keys == NodeSet(g.nodes)
    ensures forall u :: u in g.nodes ==> 0.0 < Ranked(g)[u] <= 1.0
    ensures top in g.nodes && Ranked(g)[top] == 1.0
    ensures Peak(g.nodes, Settle(g, Uniform(g), MAX_ITERATIONS)) > 0.0
  {
    var j := SettledIsIterate(g, 0, MAX_ITERATIONS);
    var r := Iterate(g, j);
    assert Settle(g, Uniform(g), MAX_ITERATIONS) == r by { assert Iterate(g, 0) == Uniform(g); }
    IteratesArePositive(g, j);
    hide Settle, Iterate, Uniform, Sum;
    top := PeakIsMax(g.nodes, r);
    forall u | u in g.nodes ensures 0.0 < Ranked(g)[u] <= 1.0 {
      QuotientInUnit(At(r, u), Peak(g.nodes, r));
    }
    QuotientInUnit(At(r, top), Peak(g.nodes, r));
  }

  // ------------------------------------------------------- the order of the arcs

  predicate Inside(nodes: set<string>, a: Arc) {
    a.src in nodes && a.dst in nodes
  }

  /** Targets of `u`, in the order of the arcs. */
  function OutsOf(arcs: seq<Arc>, nodes: set<string>, u: string): seq<string> {
    if arcs == [] then []
    else
      var a := arcs[|arcs| - 1];
      OutsOf(arcs[..|arcs| - 1], nodes, u) + (if Inside(nodes, a) && a.src == u then [a.dst] else [])
  }

  function NodeSet(nodes: seq<string>): set<string> { set u | u in nodes }

  function GraphOf(nodes: seq<string>, arcs: seq<Arc>): Graph {
    Graph(nodes, map u | u in nodes :: OutsOf(arcs, NodeSet(nodes), u))
  }

  lemma {:induction false} OutsAreInside(arcs: seq<Arc>, nodes: set<string>, u: string)
    ensures forall v :: v in OutsOf(arcs, nodes, u) ==> v in nodes
  {
    if arcs != [] { OutsAreInside(arcs[..|arcs| - 1], nodes, u); }
  }

  lemma GraphIsValid(nodes: seq<string>, arcs: seq<Arc>)
    requires nodes != [] && Distinct(nodes)
    ensures ValidGraph(GraphOf(nodes, arcs))
  {
    forall u { OutsAreInside(arcs, NodeSet(nodes), u); }
  }

  lemma {:induction false} OutsAreCounted(arcs: seq<Arc>, nodes: set<string>, u: string, v: string)
    ensures multiset(OutsOf(arcs, nodes, u))[v] == if Inside(nodes, Arc(u, v)) then multiset(arcs)[Arc(u, v)] else 0
  {
    if arcs != [] {
      assert arcs == arcs[..|arcs| - 1] + [arcs[|arcs| - 1]];
      OutsAreCounted(arcs[..|arcs| - 1], nodes, u, v);
    }
  }

  ghost predicate SameOuts(g: Graph, g': Graph) {
    g'.nodes == g.nodes && forall u :: multiset(Outs(g, u)) == multiset(Outs(g', u))
  }

  lemma SameKernel(g: Graph, g': Graph, u: string, v: string)
    requires g.nodes != [] && SameOuts(g, g')
    ensures Kernel(g', u, v) == Kernel(g, u, v)
  {
    assert multiset(Outs(g, u)) == multiset(Outs(g', u));
    assert |Outs(g, u)| == |multiset(Outs(g, u))| && |Outs(g', u)| == |multiset(Outs(g', u))|;
  }

  lemma {:induction false} SameInflow(g: Graph, g': Graph, ns: seq<string>, r: Vec, v: string)
    requires g.nodes != [] && SameOuts(g, g')
    ensures Inflow(g', ns, r, v) == Inflow(g, ns, r, v)
  {
    if ns != [] {
      SameInflow(g, g', ns[..|ns| - 1], r, v);
      SameKernel(g, g', ns[|ns| - 1], v);
    }
  }

  lemma SameNext(g: Graph, g': Graph, r: Vec)
    requires g.nodes != [] && SameOuts(g, g')
    ensures Next(g', r) == Next(g, r)
  {
    forall v | v in g.nodes ensures Next(g', r)[v] == Next(g, r)[v] { SameInflow(g, g', g.nodes, r, v); }
  }

  lemma SameNodes(g: Graph, g': Graph)
    requires SameOuts(g, g')
    ensures g'.nodes == g.nodes
  {}

  lemma SameL1(g: Graph, g': Graph, r: Vec, r': Vec)
    requires SameOuts(g, g')
    ensures L1(g', r, r') == L1(g, r, r')
  {}

  lemma {:induction false} SameSettle(g: Graph, g': Graph, r: Vec, left: nat)
    requires g.nodes != [] && SameOuts(g, g')
    ensures Settle(g', r, left) == Settle(g, r, left)
    decreases left
  {
    hide *;
    SettleStep(g, r, left);
    SameNodes(g, g');
    SettleStep(g', r, left);
    if left > 0 {
      SameNext(g, g', r);
      SameL1(g, g', Next(g, r), r);
      SameSettle(g, g', Next(g, r), left - 1);
    }
  }

  lemma SameArcsSameOuts(nodes: seq<string>, arcs: seq<Arc>, arcs': seq<Arc>)
    requires multiset(arcs) == multiset(arcs')
    ensures SameOuts(GraphOf(nodes, arcs), GraphOf(nodes, arcs'))
  {
    var all := NodeSet(nodes);
    forall u ensures multiset(OutsOf(arcs, all, u)) == multiset(OutsOf(arcs', all, u)) {
      forall v ensures multiset(OutsOf(arcs, all, u))[v] == multiset(OutsOf(arcs', all, u))[v] {
        OutsAreCounted(arcs, all, u, v);
        OutsAreCounted(arcs', all, u, v);
      }
    }
    hide OutsOf;
  }

  /** The scores do not depend on the order in which the edge rows arrive. */
  lemma EdgeOrderIsIrrelevant(nodes: seq<string>, arcs: seq<Arc>, arcs': seq<Arc>)
    requires nodes != [] && multiset(arcs) == multiset(arcs')
    ensures Ranked(GraphOf(nodes, arcs)) == Ranked(GraphOf(nodes, arcs'))
  {
    var g, g' := GraphOf(nodes, arcs), GraphOf(nodes, arcs');
    SameArcsSameOuts(nodes, arcs, arcs');
    assert g.nodes == g'.nodes == nodes;
    assert Uniform(g) == Uniform(g');
    hide Settle, Uniform, Peak, GraphOf, SameOuts;
    SameSettle(g, g', Uniform(g), MAX_ITERATIONS);
  }
}
