/** Trust-tiered expansion of seed artifacts and packing under a token budget. */
module TieredContext {
  import opened Prelude

  datatype Hop = Hop(nbr: string, kind: string)

  type Adjacency = map<string, seq<Hop>>

  predicate HopTo(adj: Adjacency, allowed: set<string>, a: string, b: string) {
    a in adj && exists h :: h in adj[a] && h.nbr == b && h.kind in allowed
  }

  /** A walk along allowed edges. */
  ghost predicate Walk(adj: Adjacency, allowed: set<string>, p: seq<string>) {
    p != [] && forall k :: 0 <= k < |p| - 1 ==> HopTo(adj, allowed, p[k], p[k + 1])
  }

  ghost predicate Reached(adj: Adjacency, allowed: set<string>, start: seq<string>, x: string) {
    exists p :: Walk(adj, allowed, p) && p[0] in start && p[|p| - 1] == x
  }

  ghost predicate Distinct(s: seq<string>) {
    forall i, j :: 0 <= i < j < |s| ==> s[i] != s[j]
  }

  function Elements(s: seq<string>): set<string> { set x | x in s }

  // ------------------------------------------------------- one tier

  /** New neighbours of one node, in edge order. */
  function Absorb(order: seq<string>, hops: seq<Hop>, allowed: set<string>): seq<string> {
    if hops == [] then order
    else
      var o, h := Absorb(order, hops[..|hops| - 1], allowed), hops[|hops| - 1];
      if h.kind in allowed && h.nbr !in o then o + [h.nbr] else o
  }

  function Hops(adj: Adjacency, a: string): seq<Hop> {
    if a in adj then adj[a] else []
  }

  /** All nodes that can ever be listed. */
  function Universe(adj: Adjacency, order: seq<string>): set<string> {
    Elements(order) + set a, h | a in adj && h in adj[a] :: h.nbr
  }

  lemma {:induction false} AbsorbGrows(order: seq<string>, hops: seq<Hop>, allowed: set<string>)
    ensures var o := Absorb(order, hops, allowed);
      && order <= o
      && (Distinct(order) ==> Distinct(o))
      && (forall x :: x in o <==> x in order || exists h :: h in hops && h.nbr == x && h.kind in allowed)
  {
    if hops != [] {
      var init, h := hops[..|hops| - 1], hops[|hops| - 1];
      assert hops == init + [h];
      AbsorbGrows(order, init, allowed);
    }
  }

  /** The queue is always the part of the order not expanded yet. */
  function Drain(adj: Adjacency, allowed: set<string>, u: set<string>, order: seq<string>, i: nat): seq<string>
    requires i <= |order| && Distinct(order) && Elements(order) <= u && Universe(adj, []) <= u
    decreases |u - Elements(order)| + |order| - i
  {
    if i == |order| then order
    else
      var o := Absorb(order, Hops(adj, order[i]), allowed);
      AbsorbFits(adj, allowed, u, order, i);
      Drain(adj, allowed, u, o, i + 1)
  }

  lemma AbsorbFits(adj: Adjacency, allowed: set<string>, u: set<string>, order: seq<string>, i: nat)
    requires i < |order| && Distinct(order) && Elements(order) <= u && Universe(adj, []) <= u
    ensures var o := Absorb(order, Hops(adj, order[i]), allowed);
      && order <= o && Distinct(o) && Elements(o) <= u
      && |u - Elements(o)| + |o| == |u - Elements(order)| + |order|
  {
    var o := Absorb(order, Hops(adj, order[i]), allowed);
    AbsorbGrows(order, Hops(adj, order[i]), allowed);
    forall x | x in o ensures x in u {
      if x !in order {
        var h :| h in Hops(adj, order[i]) && h.nbr == x && h.kind in allowed;
        assert x in Universe(adj, []);
      }
    }
    Cardinality(order);
    Cardinality(o);
    assert |u - Elements(o)| == |u| - |Elements(o)|;
    assert |u - Elements(order)| == |u| - |Elements(order)|;
  }

  lemma {:induction false} Cardinality(s: seq<string>)
    requires Distinct(s)
    ensures |Elements(s)| == |s|
  {
    if s != [] {
      var init, last := s[..|s| - 1], s[|s| - 1];
      Cardinality(init);
      assert s == init + [last];
      assert Elements(s) == Elements(init) + {last};
      assert last !in init;
    }
  }

  /** Every node before position `i` has all its allowed neighbours listed. */
  ghost predicate ClosedBefore(adj: Adjacency, allowed: set<string>, order: seq<string>, i: nat) {
    forall k, b :: 0 <= k < i && k < |order| && HopTo(adj, allowed, order[k], b) ==> b in order
  }

  lemma AbsorbCloses(adj: Adjacency, allowed: set<string>, order: seq<string>, i: nat)
    requires i < |order| && ClosedBefore(adj, allowed, order, i)
    ensures ClosedBefore(adj, allowed, Absorb(order, Hops(adj, order[i]), allowed), i + 1)
  {
    AbsorbGrows(order, Hops(adj, order[i]), allowed);
  }

  lemma {:induction false} DrainCloses(adj: Adjacency, allowed: set<string>, u: set<string>, order: seq<string>, i: nat)
    requires i <= |order| && Distinct(order) && Elements(order) <= u && Universe(adj, []) <= u
    requires ClosedBefore(adj, allowed, order, i)
    ensures var r := Drain(adj, allowed, u, order, i);
      order <= r && Distinct(r) && Elements(r) <= u && ClosedBefore(adj, allowed, r, |r|)
    decreases |u - Elements(order)| + |order| - i
  {
    if i < |order| {
      AbsorbFits(adj, allowed, u, order, i);
      AbsorbCloses(adj, allowed, order, i);
      DrainCloses(adj, allowed, u, Absorb(order, Hops(adj, order[i]), allowed), i + 1);
    }
  }

  lemma ReachedExtends(adj: Adjacency, allowed: set<string>, start: seq<string>, a: string, b: string)
    requires Reached(adj, allowed, start, a) && HopTo(adj, allowed, a, b)
    ensures Reached(adj, allowed, start, b)
  {
    var p :| Walk(adj, allowed, p) && p[0] in start && p[|p| - 1] == a;
    assert Walk(adj, allowed, p + [b]);
  }

  lemma {:induction false} DrainReaches(adj: Adjacency, allowed: set<string>, u: set<string>, start: seq<string>, order: seq<string>, i: nat)
    requires i <= |order| && Distinct(order) && Elements(order) <= u && Universe(adj, []) <= u
    requires forall x :: x in order ==> Reached(adj, allowed, start, x)
    ensures forall x :: x in Drain(adj, allowed, u, order, i) ==> Reached(adj, allowed, start, x)
    decreases |u - Elements(order)| + |order| - i
  {
    if i < |order| {
      var o := Absorb(order, Hops(adj, order[i]), allowed);
      AbsorbFits(adj, allowed, u, order, i);
      AbsorbGrows(order, Hops(adj, order[i]), allowed);
      forall x | x in o ensures Reached(adj, allowed, start, x) {
        if x !in order {
          assert HopTo(adj, allowed, order[i], x);
          ReachedExtends(adj, allowed, start, order[i], x);
        }
      }
      DrainReaches(adj, allowed, u, start, o, i + 1);
    }
  }

  lemma {:induction false} WalkStaysInside(adj: Adjacency, allowed: set<string>, order: seq<string>, p: seq<string>)
    requires ClosedBefore(adj, allowed, order, |order|) && Walk(adj, allowed, p) && p[0] in order
    ensures p[|p| - 1] in order
  {
    if |p| > 1 {
      var q := p[..|p| - 1];
      assert Walk(adj, allowed, q);
      WalkStaysInside(adj, allowed, order, q);
      var k :| 0 <= k < |order| && order[k] == q[|q| - 1];
      assert HopTo(adj, allowed, p[|p| - 2], p[|p| - 1]);
    }
  }

  lemma StartsReached(adj: Adjacency, allowed: set<string>, order: seq<string>)
    ensures forall y :: y in order ==> Reached(adj, allowed, order, y)
  {
    forall y | y in order ensures Reached(adj, allowed, order, y) {
      assert Walk(adj, allowed, [y]) && [y][0] == y;
    }
  }

  /** One tier lists, after what was there, exactly what its edges reach from it, each
      node once. */
  lemma TierIsClosure(adj: Adjacency, allowed: set<string>, u: set<string>, order: seq<string>, x: string)
    requires Distinct(order) && Elements(order) <= u && Universe(adj, []) <= u
    ensures var r := Drain(adj, allowed, u, order, 0);
      order <= r && Distinct(r) && Elements(r) <= u && (x in r <==> Reached(adj, allowed, order, x))
  {
    StartsReached(adj, allowed, order);
    DrainCloses(adj, allowed, u, order, 0);
    DrainReaches(adj, allowed, u, order, order, 0);
    var r := Drain(adj, allowed, u, order, 0);
    hide Drain, Universe, HopTo, ClosedBefore, Walk;
    if Reached(adj, allowed, order, x) {
      var p :| Walk(adj, allowed, p) && p[0] in order && p[|p| - 1] == x;
      WalkStaysInside(adj, allowed, r, p);
    }
  }

  // ------------------------------------------------------- all tiers

  ghost predicate Legal(adj: Adjacency, u: set<string>, seeds: seq<string>) {
    Distinct(seeds) && Elements(seeds) <= u && Universe(adj, []) <= u
  }

  function TieredOrder(adj: Adjacency, u: set<string>, seeds: seq<string>, tiers: seq<set<string>>): (r: seq<string>)
    requires Legal(adj, u, seeds)
    ensures Distinct(r) && Elements(r) <= u
  {
    if tiers == [] then seeds
    else
      var before := TieredOrder(adj, u, seeds, tiers[..|tiers| - 1]);
      TierIsClosure(adj, tiers[|tiers| - 1], u, before, "");
      Drain(adj, tiers[|tiers| - 1], u, before, 0)
  }

  /** The successive closures of the seeds, tier by tier. */
  ghost predicate InClosures(adj: Adjacency, u: set<string>, seeds: seq<string>, tiers: seq<set<string>>, x: string)
    requires Legal(adj, u, seeds)
  {
    if tiers == [] then x in seeds
    else Reached(adj, tiers[|tiers| - 1], TieredOrder(adj, u, seeds, tiers[..|tiers| - 1]), x)
  }

  /** No artifact is listed twice, and what is listed is exactly the seeds closed under
      each tier in turn. */
  lemma OrderIsClosure(adj: Adjacency, u: set<string>, seeds: seq<string>, tiers: seq<set<string>>, x: string)
    requires Legal(adj, u, seeds)
    ensures Distinct(TieredOrder(adj, u, seeds, tiers))
    ensures x in TieredOrder(adj, u, seeds, tiers) <==> InClosures(adj, u, seeds, tiers, x)
  {
    if tiers != [] {
      TierIsClosure(adj, tiers[|tiers| - 1], u, TieredOrder(adj, u, seeds, tiers[..|tiers| - 1]), x);
    }
  }

  /** A lower tier only adds: the order for fewer tiers is a prefix of the order for
      more. */
  lemma {:induction false} FewerTiersArePrefix(adj: Adjacency, u: set<string>, seeds: seq<string>, tiers: seq<set<string>>, k: nat)
    requires Legal(adj, u, seeds) && k <= |tiers|
    ensures TieredOrder(adj, u, seeds, tiers[..k]) <= TieredOrder(adj, u, seeds, tiers)
  {
    if k < |tiers| {
      var init := tiers[..|tiers| - 1];
      assert init[..k] == tiers[..k];
      FewerTiersArePrefix(adj, u, seeds, init, k);
      TierIsClosure(adj, tiers[|tiers| - 1], u, TieredOrder(adj, u, seeds, init), "");
    } else {
      assert tiers[..k] == tiers;
    }
  }

  method AbsorbHops(order: seq<string>, seen: set<string>, q: seq<string>, hops: seq<Hop>, allowed: set<string>, ghost i: nat)
    returns (order': seq<string>, seen': set<string>, q': seq<string>)
    requires i <= |order| && seen == Elements(order) && q == order[i..]
    ensures order' == Absorb(order, hops, allowed) && seen' == Elements(order')
    ensures i <= |order'| && q' == order'[i..]
  {
    order', seen', q' := order, seen, q;
    assert hops[..0] == [] && hops[..|hops|] == hops;
    for k := 0 to |hops|
      invariant order' == Absorb(order, hops[..k], allowed)
      invariant seen' == Elements(order') && i <= |order'| && q' == order'[i..]
    {
      assert hops[..k + 1][..k] == hops[..k];
      var h := hops[k];
      if h.kind in allowed && h.nbr !in seen' {
        seen' := seen' + {h.nbr};
        order' := order' + [h.nbr];
        q' := q' + [h.nbr];
      }
    }
  }

  /** The breadth-first loop: a queue, a seen set and the order it builds. */
  method DrainTier(adj: Adjacency, allowed: set<string>, ghost u: set<string>, start: seq<string>, seen0: set<string>)
    returns (order: seq<string>, seen: set<string>)
    requires Legal(adj, u, start) && seen0 == Elements(start)
    ensures order == Drain(adj, allowed, u, start, 0) && seen == Elements(order)
  {
    order, seen := start, seen0;
    var q := order;
    ghost var i: nat := 0;
    while q != []
      invariant i <= |order| && q == order[i..] && seen == Elements(order)
      invariant Legal(adj, u, order)
      invariant Drain(adj, allowed, u, order, i) == Drain(adj, allowed, u, start, 0)
      decreases |u - Elements(order)| + |order| - i
    {
      AbsorbFits(adj, allowed, u, order, i);
      var a := q[0];
      i := i + 1;
      order, seen, q := AbsorbHops(order, seen, q[1..], Hops(adj, a), allowed, i);
    }
  }

  method ExpandTiers(adj: Adjacency, ghost u: set<string>, seeds: seq<string>, tiers: seq<set<string>>) returns (order: seq<string>)
    requires Legal(adj, u, seeds)
    ensures order == TieredOrder(adj, u, seeds, tiers)
  {
    order := seeds;
    var seen := Elements(seeds);
    assert tiers[..0] == [] && tiers[..|tiers|] == tiers;
    for k := 0 to |tiers|
      invariant order == TieredOrder(adj, u, seeds, tiers[..k]) && seen == Elements(order)
    {
      assert tiers[..k + 1][..k] == tiers[..k];
      order, seen := DrainTier(adj, tiers[k], u, order, seen);
    }
  }

  // ------------------------------------------------------- packing

  datatype Entry = Entry(title: string, body: string, path: string)

  type Artifacts = map<string, Entry>

  function Max(a: nat, b: nat): nat { if a >= b then a else b }

  function Min(a: nat, b: nat): nat { if a <= b then a else b }

  /** A quarter token per character, at least one. */
  function Tokens(text: string): nat { Max(1, |text| / 4) }

  function Cost(byId: Artifacts, a: string): nat {
    if a !in byId then 0 else Tokens(if byId[a].body != "" then byId[a].body else byId[a].title)
  }

  function TotalCost(byId: Artifacts, order: seq<string>): nat {
    if order == [] then 0 else TotalCost(byId, order[..|order| - 1]) + Cost(byId, order[|order| - 1])
  }

  function PathsOf(byId: Artifacts, order: seq<string>): set<string> {
    set a | a in order && a in byId && byId[a].path != "" :: byId[a].path
  }

  /** How many artifacts of the order fit: the cut is at the first that does not. */
  function Fitting(byId: Artifacts, order: seq<string>, budget: nat): nat {
    if order == [] then 0
    else
      var init := order[..|order| - 1];
      var k := Fitting(byId, init, budget);
      if k == |init| && TotalCost(byId, order) <= budget then |order| else k
  }

  lemma {:induction false} FittingIsLongest(byId: Artifacts, order: seq<string>, budget: nat)
    ensures Fitting(byId, order, budget) <= |order|
    ensures TotalCost(byId, order[..Fitting(byId, order, budget)]) <= budget
    ensures forall k :: 0 <= k <= |order| ==> (k <= Fitting(byId, order, budget) <==> TotalCost(byId, order[..k]) <= budget)
  {
    if order != [] {
      var init := order[..|order| - 1];
      FittingIsLongest(byId, init, budget);
      forall k | 0 <= k <= |init| ensures order[..k] == init[..k] {}
      assert order[..|order|] == order;
      CostGrows(byId, order);
    }
  }

  lemma CostGrows(byId: Artifacts, order: seq<string>)
    requires order != []
    ensures TotalCost(byId, order[..|order| - 1]) <= TotalCost(byId, order)
  {}

  function Packed(byId: Artifacts, order: seq<string>, budget: nat): set<string> {
    PathsOf(byId, order[..Min(Fitting(byId, order, budget), |order|)])
  }

  /** What is packed never costs more than the budget; and the reported use is its cost
      exactly when everything fitted or the budget was met to the token. */
  lemma PackedWithinBudget(byId: Artifacts, order: seq<string>, budget: nat)
    ensures var k := Fitting(byId, order, budget);
      && k <= |order| && TotalCost(byId, order[..k]) <= budget
      && (Reported(byId, order, budget) == TotalCost(byId, order[..k]) <==>
            k == |order| || TotalCost(byId, order[..k]) == budget)
  {
    FittingIsLongest(byId, order, budget);
    assert order[..|order|] == order;
  }

  function Reported(byId: Artifacts, order: seq<string>, budget: nat): nat {
    if Fitting(byId, order, budget) == |order| then TotalCost(byId, order) else budget
  }

  /** Packing more of an order packs at least the same files. */
  lemma LongerOrderPacksMore(byId: Artifacts, less: seq<string>, more: seq<string>, budget: nat)
    requires less <= more
    ensures Packed(byId, less, budget) <= Packed(byId, more, budget)
  {
    FittingIsLongest(byId, less, budget);
    FittingIsLongest(byId, more, budget);
    var k := Fitting(byId, less, budget);
    assert less[..k] == more[..k];
    assert k <= Fitting(byId, more, budget);
    forall a | a in less[..k] ensures a in more[..Fitting(byId, more, budget)] {
      var j :| 0 <= j < k && less[j] == a;
      assert more[..Fitting(byId, more, budget)][j] == a;
    }
  }

  /** Trust tiers only add: at any budget the packed files grow with the tiers. */
  lemma TiersOnlyAdd(adj: Adjacency, u: set<string>, seeds: seq<string>, tiers: seq<set<string>>, k: nat, byId: Artifacts, budget: nat)
    requires Legal(adj, u, seeds) && k <= |tiers|
    ensures Packed(byId, TieredOrder(adj, u, seeds, tiers[..k]), budget) <= Packed(byId, TieredOrder(adj, u, seeds, tiers), budget)
  {
    FewerTiersArePrefix(adj, u, seeds, tiers, k);
    LongerOrderPacksMore(byId, TieredOrder(adj, u, seeds, tiers[..k]), TieredOrder(adj, u, seeds, tiers), budget);
  }

  /** The estimate of a text: a fourth of its length, rounded down, and at least one. */
  predicate Estimates(text: string, tokens: nat) {
    if |text| < 8 then tokens == 1 else 4 * tokens <= |text| < 4 * tokens + 4
  }

  /** An artifact costs the estimate of its body, or of its title if it has none; one that is
      not known costs nothing. */
  lemma CostIs(byId: Artifacts, a: string)
    ensures a !in byId ==> Cost(byId, a) == 0
    ensures a in byId ==> Estimates(if byId[a].body == "" then byId[a].title else byId[a].body, Cost(byId, a))
  {}

  /** The k-th of the order is packed with this path. */
  predicate PacksPath(byId: Artifacts, order: seq<string>, budget: nat, k: int, path: string) {
    0 <= k < |order| && TotalCost(byId, order[..k + 1]) <= budget && order[k] in byId && byId[order[k]].path == path && path != ""
  }

  /** The packed files are those with a path among the artifacts up to which all fits. */
  lemma PackedAre(byId: Artifacts, order: seq<string>, budget: nat, path: string)
    ensures path in Packed(byId, order, budget) <==> exists k :: PacksPath(byId, order, budget, k, path)
  {
    FittingIsLongest(byId, order, budget);
    var n := Min(Fitting(byId, order, budget), |order|);
    hide TotalCost, Fitting;
    if path in Packed(byId, order, budget) {
      var a :| a in order[..n] && a in byId && byId[a].path == path && path != "";
      var k :| 0 <= k < n && order[..n][k] == a;
      assert PacksPath(byId, order, budget, k, path);
    }
    if k :| PacksPath(byId, order, budget, k, path) { assert order[..n][k] == order[k]; }
  }

  lemma NothingTaken(byId: Artifacts, order: seq<string>)
    ensures TotalCost(byId, order[..0]) == 0 && PathsOf(byId, order[..0]) == {} && order[..|order|] == order
  {}

  lemma OneTaken(byId: Artifacts, order: seq<string>, k: nat)
    requires k < |order|
    ensures var a := order[k];
      && TotalCost(byId, order[..k + 1]) == TotalCost(byId, order[..k]) + Cost(byId, a)
      && PathsOf(byId, order[..k + 1]) == PathsOf(byId, order[..k]) + (if a in byId && byId[a].path != "" then {byId[a].path} else {})
  {
    assert order[..k + 1][..k] == order[..k] && order[..k + 1] == order[..k] + [order[k]];
  }

  method Pack(order: seq<string>, byId: Artifacts, budget: nat) returns (paths: set<string>, used: nat)
    ensures paths == Packed(byId, order, budget)
    ensures used == Reported(byId, order, budget)
  {
    paths, used := {}, 0;
    var k := 0;
    var over := false;
    FittingIsLongest(byId, order, budget);
    NothingTaken(byId, order);
    hide TotalCost, PathsOf, Fitting;
    while k < |order| && !over
      invariant k <= |order|
      invariant !over ==> used == TotalCost(byId, order[..k]) <= budget && paths == PathsOf(byId, order[..k])
      invariant over ==> used > budget && Fitting(byId, order, budget) < |order| && paths == Packed(byId, order, budget)
      decreases |order| - k, !over
    {
      OneTaken(byId, order, k);
      var a := order[k];
      if a in byId {
        used := used + Tokens(if byId[a].body != "" then byId[a].body else byId[a].title);
        if used > budget {
          over := true;
          assert Fitting(byId, order, budget) == k;
        } else if byId[a].path != "" {
          paths := paths + {byId[a].path};
        }
      }
      k := k + 1;
    }
    if over { used := budget; }
  }
}
