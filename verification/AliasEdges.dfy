/** Reconciling the alias miner's edges with the desired (alias, target) pairs:
    keep the first row per desired pair, retire every other live one, insert the
    pairs no row stands for. */
module AliasEdges {
  import opened Prelude
  import opened Registry

  datatype Pair = Pair(alias: ArtifactId, target: ArtifactId)
  datatype Facts = Facts(confidence: real, evidence: EdgeEvidence)

  type Edges = map<EdgeId, Edge>

  const ALIAS_EDGE_TYPE := "aliases"

  predicate Owned(e: Edge) {
    e.producer == AliasMiner && e.kind == ALIAS_EDGE_TYPE
  }

  /** Rows the pass loads: live, or taken out earlier in this same build. */
  predicate Loaded(e: Edge, n: int) {
    Owned(e) && (e.gone.None? || e.gone == Some(n))
  }

  function PairOf(e: Edge): Pair { Pair(e.from, e.to) }

  function NewAliasEdge(p: Pair, f: Facts, n: int): Edge {
    Edge(p.alias, p.target, ALIAS_EDGE_TYPE, AliasMiner, f.confidence, f.evidence, n, None)
  }

  function RefreshedEdge(e: Edge, f: Facts): Edge {
    e.(confidence := f.confidence, evidence := f.evidence, gone := None)
  }

  /** `order` lists the loaded rows, each once. */
  ghost predicate ListsLoaded(edges: Edges, order: seq<EdgeId>, n: int) {
    && (forall i, j :: 0 <= i < j < |order| ==> order[i] != order[j])
    && (forall e :: e in order <==> e in edges && Loaded(edges[e], n))
  }

  /** The first loaded row per desired pair. */
  function Kept(edges: Edges, desired: map<Pair, Facts>, order: seq<EdgeId>): map<Pair, EdgeId> {
    if order == [] then map[]
    else
      var last := order[|order| - 1];
      var m := Kept(edges, desired, order[..|order| - 1]);
      if last in edges && PairOf(edges[last]) in desired && PairOf(edges[last]) !in m
      then m[PairOf(edges[last]) := last] else m
  }

  lemma {:induction false} KeptRows(edges: Edges, desired: map<Pair, Facts>, order: seq<EdgeId>)
    ensures var m := Kept(edges, desired, order);
      && m.Keys <= desired.Keys
      && (forall p :: p in m ==> m[p] in order && m[p] in edges && PairOf(edges[m[p]]) == p)
  {
    if order != [] {
      var rest, last := order[..|order| - 1], order[|order| - 1];
      assert order == rest + [last];
      KeptRows(edges, desired, rest);
    }
  }

  function ReconciledRow(id: EdgeId, e: Edge, desired: map<Pair, Facts>, kept: map<Pair, EdgeId>, n: int): Edge {
    if PairOf(e) in desired && PairOf(e) in kept && kept[PairOf(e)] == id then RefreshedEdge(e, desired[PairOf(e)])
    else if e.gone.None? then e.(gone := Some(n))
    else e
  }

  function ReconciledRows(edges: Edges, desired: map<Pair, Facts>, kept: map<Pair, EdgeId>, done: set<EdgeId>, n: int): Edges {
    map e | e in edges :: if e in done then ReconciledRow(e, edges[e], desired, kept, n) else edges[e]
  }

  function InsertAll(edges: Edges, desired: map<Pair, Facts>, missing: seq<Pair>, ids: seq<EdgeId>, n: int): Edges
    requires |ids| == |missing| && forall p :: p in missing ==> p in desired
  {
    if missing == [] then edges
    else
      var k := |missing| - 1;
      assert missing[k] in missing && forall p :: p in missing[..k] ==> p in missing;
      InsertAll(edges, desired, missing[..k], ids[..k], n)[ids[k] := NewAliasEdge(missing[k], desired[missing[k]], n)]
  }

  ghost predicate LegalEdges(edges: Edges, desired: map<Pair, Facts>, order: seq<EdgeId>,
                             missing: seq<Pair>, ids: seq<EdgeId>, n: int)
  {
    && ListsLoaded(edges, order, n)
    && |ids| == |missing|
    && (forall i :: 0 <= i < |ids| ==> ids[i] !in edges)
    && (forall i, j :: 0 <= i < j < |ids| ==> ids[i] != ids[j])
    && (forall i, j :: 0 <= i < j < |missing| ==> missing[i] != missing[j])
    && (forall p :: p in missing <==> p in desired && p !in Kept(edges, desired, order))
  }

  function SetOf(order: seq<EdgeId>): set<EdgeId> { set e | e in order }

  function Reconciled(edges: Edges, desired: map<Pair, Facts>, order: seq<EdgeId>,
                      missing: seq<Pair>, ids: seq<EdgeId>, n: int): Edges
    requires LegalEdges(edges, desired, order, missing, ids, n)
  {
    var kept := Kept(edges, desired, order);
    InsertAll(ReconciledRows(edges, desired, kept, SetOf(order), n), desired, missing, ids, n)
  }

  // ------------------------------------------------------- closed form

  lemma {:induction false} InsertKeeps(edges: Edges, desired: map<Pair, Facts>, missing: seq<Pair>, ids: seq<EdgeId>, n: int, e: EdgeId)
    requires |ids| == |missing| && (forall p :: p in missing ==> p in desired)
    requires forall i :: 0 <= i < |ids| ==> ids[i] !in edges
    ensures e in edges ==> e in InsertAll(edges, desired, missing, ids, n) && InsertAll(edges, desired, missing, ids, n)[e] == edges[e]
  {
    if missing != [] {
      var k := |missing| - 1;
      assert forall p :: p in missing[..k] ==> p in missing;
      InsertKeeps(edges, desired, missing[..k], ids[..k], n, e);
    }
  }

  lemma {:induction false} InsertedKeys(edges: Edges, desired: map<Pair, Facts>, missing: seq<Pair>, ids: seq<EdgeId>, n: int)
    requires |ids| == |missing| && (forall p :: p in missing ==> p in desired)
    ensures InsertAll(edges, desired, missing, ids, n).Keys == edges.Keys + SetOf(ids)
  {
    if missing != [] {
      var k := |missing| - 1;
      assert ids == ids[..k] + [ids[k]];
      assert SetOf(ids) == SetOf(ids[..k]) + {ids[k]};
      assert forall p :: p in missing[..k] ==> p in missing;
      InsertedKeys(edges, desired, missing[..k], ids[..k], n);
    }
  }

  /** One inserted row per missing pair, in order. */
  lemma {:induction false} InsertedAt(edges: Edges, desired: map<Pair, Facts>, missing: seq<Pair>, ids: seq<EdgeId>, n: int, i: nat)
    requires |ids| == |missing| && (forall p :: p in missing ==> p in desired)
    requires forall i, j :: 0 <= i < j < |ids| ==> ids[i] != ids[j]
    requires i < |ids|
    ensures missing[i] in desired
    ensures ids[i] in InsertAll(edges, desired, missing, ids, n)
    ensures InsertAll(edges, desired, missing, ids, n)[ids[i]] == NewAliasEdge(missing[i], desired[missing[i]], n)
  {
    var k := |missing| - 1;
    assert missing[i] in missing;
    assert forall p :: p in missing[..k] ==> p in missing;
    if i < k { InsertedAt(edges, desired, missing[..k], ids[..k], n, i); }
  }

  /** An edge of the miner that is live afterwards. */
  predicate LiveOwned(edges: Edges, e: EdgeId) {
    e in edges && Owned(edges[e]) && edges[e].gone.None?
  }

  predicate Desired(e: Edge, desired: map<Pair, Facts>) {
    PairOf(e) in desired && e.confidence == desired[PairOf(e)].confidence && e.evidence == desired[PairOf(e)].evidence
  }

  lemma OldEdgeAfter(edges: Edges, desired: map<Pair, Facts>, order: seq<EdgeId>,
                     missing: seq<Pair>, ids: seq<EdgeId>, n: int, e: EdgeId)
    requires LegalEdges(edges, desired, order, missing, ids, n) && e in edges
    ensures var out := Reconciled(edges, desired, order, missing, ids, n);
      e in out && out[e] == if Loaded(edges[e], n) then ReconciledRow(e, edges[e], desired, Kept(edges, desired, order), n) else edges[e]
  {
    InsertKeeps(ReconciledRows(edges, desired, Kept(edges, desired, order), SetOf(order), n), desired, missing, ids, n, e);
    assert e in order <==> Loaded(edges[e], n);
  }

  lemma NewEdgeAfter(edges: Edges, desired: map<Pair, Facts>, order: seq<EdgeId>,
                     missing: seq<Pair>, ids: seq<EdgeId>, n: int, e: EdgeId) returns (i: nat)
    requires LegalEdges(edges, desired, order, missing, ids, n)
    requires e !in edges && e in Reconciled(edges, desired, order, missing, ids, n)
    ensures i < |ids| && ids[i] == e && missing[i] in desired
    ensures Reconciled(edges, desired, order, missing, ids, n)[e] == NewAliasEdge(missing[i], desired[missing[i]], n)
  {
    var mid := ReconciledRows(edges, desired, Kept(edges, desired, order), SetOf(order), n);
    InsertedKeys(mid, desired, missing, ids, n);
    i :| 0 <= i < |ids| && ids[i] == e;
    InsertedAt(mid, desired, missing, ids, n, i);
  }

  /** Every live edge of the miner stands for a desired pair, as desired. */
  lemma LiveIsDesired(edges: Edges, desired: map<Pair, Facts>, order: seq<EdgeId>,
                      missing: seq<Pair>, ids: seq<EdgeId>, n: int, e: EdgeId)
    requires LegalEdges(edges, desired, order, missing, ids, n)
    requires LiveOwned(Reconciled(edges, desired, order, missing, ids, n), e)
    ensures Desired(Reconciled(edges, desired, order, missing, ids, n)[e], desired)
    ensures var p := PairOf(Reconciled(edges, desired, order, missing, ids, n)[e]);
      if e in edges then p in Kept(edges, desired, order) && Kept(edges, desired, order)[p] == e
      else p in missing && e in ids
  {
    KeptRows(edges, desired, order);
    if e in edges {
      OldEdgeAfter(edges, desired, order, missing, ids, n, e);
    } else {
      var i := NewEdgeAfter(edges, desired, order, missing, ids, n, e);
      assert missing[i] in missing;
    }
  }

  /** Every desired pair has its live edge. */
  lemma DesiredIsLive(edges: Edges, desired: map<Pair, Facts>, order: seq<EdgeId>,
                      missing: seq<Pair>, ids: seq<EdgeId>, n: int, p: Pair) returns (e: EdgeId)
    requires LegalEdges(edges, desired, order, missing, ids, n) && p in desired
    ensures LiveOwned(Reconciled(edges, desired, order, missing, ids, n), e)
    ensures PairOf(Reconciled(edges, desired, order, missing, ids, n)[e]) == p
  {
    KeptRows(edges, desired, order);
    var kept := Kept(edges, desired, order);
    if p in kept {
      e := kept[p];
      OldEdgeAfter(edges, desired, order, missing, ids, n, e);
    } else {
      assert p in missing;
      var i :| 0 <= i < |missing| && missing[i] == p;
      e := ids[i];
      InsertedAt(ReconciledRows(edges, desired, kept, SetOf(order), n), desired, missing, ids, n, i);
    }
  }

  /** No desired pair has two live edges. */
  lemma OneEdgePerPair(edges: Edges, desired: map<Pair, Facts>, order: seq<EdgeId>,
                       missing: seq<Pair>, ids: seq<EdgeId>, n: int, e: EdgeId, f: EdgeId)
    requires LegalEdges(edges, desired, order, missing, ids, n)
    requires var out := Reconciled(edges, desired, order, missing, ids, n);
      LiveOwned(out, e) && LiveOwned(out, f) && PairOf(out[e]) == PairOf(out[f])
    ensures e == f
  {
    LiveIsDesired(edges, desired, order, missing, ids, n, e);
    LiveIsDesired(edges, desired, order, missing, ids, n, f);
    if e !in edges && f !in edges {
      var i := NewEdgeAfter(edges, desired, order, missing, ids, n, e);
      var j := NewEdgeAfter(edges, desired, order, missing, ids, n, f);
      assert missing[i] == missing[j];
    }
  }

  /** Live miner edges and desired pairs are in bijection. */
  ghost predicate InBijection(edges: Edges, desired: map<Pair, Facts>) {
    && (forall e :: LiveOwned(edges, e) ==> Desired(edges[e], desired))
    && (forall p :: p in desired ==> exists e :: LiveOwned(edges, e) && PairOf(edges[e]) == p)
    && (forall e, f :: LiveOwned(edges, e) && LiveOwned(edges, f) && PairOf(edges[e]) == PairOf(edges[f]) ==> e == f)
  }

  /** Whatever rows and duplicates were loaded, the live edges of the miner end up
      in bijection with the desired pairs, carrying the desired facts. */
  lemma EdgesAreExact(edges: Edges, desired: map<Pair, Facts>, order: seq<EdgeId>,
                      missing: seq<Pair>, ids: seq<EdgeId>, n: int)
    requires LegalEdges(edges, desired, order, missing, ids, n)
    ensures InBijection(Reconciled(edges, desired, order, missing, ids, n), desired)
  {
    var out := Reconciled(edges, desired, order, missing, ids, n);
    forall e | LiveOwned(out, e) ensures Desired(out[e], desired) {
      LiveIsDesired(edges, desired, order, missing, ids, n, e);
    }
    forall p | p in desired ensures exists e :: LiveOwned(out, e) && PairOf(out[e]) == p {
      var e := DesiredIsLive(edges, desired, order, missing, ids, n, p);
    }
    forall e, f | LiveOwned(out, e) && LiveOwned(out, f) && PairOf(out[e]) == PairOf(out[f]) ensures e == f {
      OneEdgePerPair(edges, desired, order, missing, ids, n, e, f);
    }
  }

  /** Other producers' edges are untouched, and no version before `n` changes. */
  lemma EdgesKeepPast(edges: Edges, desired: map<Pair, Facts>, order: seq<EdgeId>,
                      missing: seq<Pair>, ids: seq<EdgeId>, n: int, e: EdgeId)
    requires LegalEdges(edges, desired, order, missing, ids, n)
    ensures var out := Reconciled(edges, desired, order, missing, ids, n);
      && (e in edges ==> e in out && out[e].validFrom == edges[e].validFrom && SamePast(edges[e].gone, out[e].gone, n)
                         && MovedAt(edges[e].gone, out[e].gone, n)
                         && PairOf(out[e]) == PairOf(edges[e]) && Owned(out[e]) == Owned(edges[e])
                         && (!Owned(edges[e]) ==> out[e] == edges[e]))
      && (e in out && e !in edges ==> out[e].validFrom == n && out[e].gone.None? && Owned(out[e]))
  {
    if e in edges {
      OldEdgeAfter(edges, desired, order, missing, ids, n, e);
    } else if e in Reconciled(edges, desired, order, missing, ids, n) {
      var i := NewEdgeAfter(edges, desired, order, missing, ids, n, e);
    }
  }

  // ------------------------------------------------------- the loops

  lemma RowsStep(edges: Edges, desired: map<Pair, Facts>, kept: map<Pair, EdgeId>, done: set<EdgeId>, e: EdgeId, n: int)
    requires e in edges && e !in done
    ensures ReconciledRows(edges, desired, kept, done + {e}, n) ==
            ReconciledRows(edges, desired, kept, done, n)[e := ReconciledRow(e, edges[e], desired, kept, n)]
  {}

  /** Whether a later row can still change which row is kept: it cannot. */
  lemma {:induction false} KeptIsStable(edges: Edges, desired: map<Pair, Facts>, order: seq<EdgeId>, k: nat, p: Pair)
    requires k <= |order|
    ensures p in Kept(edges, desired, order[..k]) ==>
      p in Kept(edges, desired, order) && Kept(edges, desired, order)[p] == Kept(edges, desired, order[..k])[p]
  {
    if k < |order| {
      assert order[..|order| - 1][..k] == order[..k];
      KeptIsStable(edges, desired, order[..|order| - 1], k, p);
    } else {
      assert order[..k] == order;
    }
  }

  /** The verdict on the k-th row depends only on the rows before it. */
  lemma VerdictAt(edges: Edges, desired: map<Pair, Facts>, order: seq<EdgeId>, k: nat)
    requires k < |order| && order[k] in edges
    requires forall i, j :: 0 <= i < j < |order| ==> order[i] != order[j]
    ensures var p := PairOf(edges[order[k]]); var before := Kept(edges, desired, order[..k]);
      && order[..k + 1][..k] == order[..k]
      && ((p in desired && p !in before) <==>
           (p in desired && p in Kept(edges, desired, order) && Kept(edges, desired, order)[p] == order[k]))
      && Kept(edges, desired, order[..k + 1]) == if p in desired && p !in before then before[p := order[k]] else before
  {
    var p := PairOf(edges[order[k]]);
    assert order[..k + 1][..k] == order[..k];
    KeptRows(edges, desired, order[..k]);
    KeptIsStable(edges, desired, order, k, p);
    KeptIsStable(edges, desired, order, k + 1, p);
  }

  /** No row before the j-th in the order has its pair. */
  predicate FirstOfPair(edges: Edges, order: seq<EdgeId>, j: int) {
    && 0 <= j < |order| && order[j] in edges
    && forall k :: 0 <= k < j && order[k] in edges ==> edges[order[k]].from != edges[order[j]].from || edges[order[k]].to != edges[order[j]].to
  }

  lemma {:induction false} KeptIsFirst(edges: Edges, desired: map<Pair, Facts>, order: seq<EdgeId>, j: nat)
    requires j < |order| && order[j] in edges && forall i, k :: 0 <= i < k < |order| ==> order[i] != order[k]
    ensures var p, m := PairOf(edges[order[j]]), Kept(edges, desired, order);
      p in desired && p in m && m[p] == order[j] <==> p in desired && FirstOfPair(edges, order, j)
  {
    var p := PairOf(edges[order[j]]);
    VerdictAt(edges, desired, order, j);
    KeptNames(edges, desired, order[..j], p);
    hide Kept;
  }

  lemma {:induction false} KeptNames(edges: Edges, desired: map<Pair, Facts>, order: seq<EdgeId>, p: Pair)
    ensures p in Kept(edges, desired, order) <==> p in desired && exists k :: 0 <= k < |order| && order[k] in edges && PairOf(edges[order[k]]) == p
  {
    if order != [] {
      var rest, last := order[..|order| - 1], order[|order| - 1];
      assert order == rest + [last];
      KeptNames(edges, desired, rest, p);
    }
  }

  /** One edge through the reconcile.  A loaded one whose pair is desired, the first of its
      pair in the order, is kept under its identity and shows the desired facts; every other
      loaded one is gone at this build; the rest stays as it was.  Edges are added only for
      desired pairs no loaded edge had. */
  lemma EdgeFate(edges: Edges, desired: map<Pair, Facts>, order: seq<EdgeId>,
                 missing: seq<Pair>, ids: seq<EdgeId>, n: int, e: EdgeId)
    requires LegalEdges(edges, desired, order, missing, ids, n)
    ensures var out := Reconciled(edges, desired, order, missing, ids, n);
      && (e in edges ==> e in out)
      && (e in edges && !IsLoaded(edges, e, n) ==> out[e] == edges[e])
      && (forall j :: 0 <= j < |order| && order[j] == e && e in edges ==>
            var p := Pair(edges[e].from, edges[e].to);
            out[e] == if p in desired && FirstOfPair(edges, order, j)
                      then edges[e].(confidence := desired[p].confidence, evidence := desired[p].evidence, gone := None)
                      else edges[e].(gone := Some(n)))
      && (e in out && e !in edges ==>
            var p := Pair(out[e].from, out[e].to);
            && p in desired && out[e] == Edge(p.alias, p.target, "aliases", AliasMiner, desired[p].confidence, desired[p].evidence, n, None)
            && forall f :: IsLoaded(edges, f, n) ==> edges[f].from != p.alias || edges[f].to != p.target)
  {
    var out := Reconciled(edges, desired, order, missing, ids, n);
    if e in edges {
      OldEdgeAfter(edges, desired, order, missing, ids, n, e);
      forall j | 0 <= j < |order| && order[j] == e
        ensures var p := Pair(edges[e].from, edges[e].to);
          out[e] == if p in desired && FirstOfPair(edges, order, j)
                    then edges[e].(confidence := desired[p].confidence, evidence := desired[p].evidence, gone := None)
                    else edges[e].(gone := Some(n))
      {
        KeptIsFirst(edges, desired, order, j);
        assert e in order;
        hide Reconciled, Kept, FirstOfPair;
      }
    } else if e in out {
      var i := NewEdgeAfter(edges, desired, order, missing, ids, n, e);
      assert missing[i] in missing;
      KeptNames(edges, desired, order, missing[i]);
      hide Reconciled, Kept;
    }
  }

  /** A row of the miner that is live or left in this build. */
  predicate IsLoaded(edges: Edges, e: EdgeId, n: int) {
    e in edges && edges[e].producer == AliasMiner && edges[e].kind == "aliases" && (edges[e].gone.None? || edges[e].gone == Some(n))
  }

  /** `first`: the row is the first of a desired pair. */
  function Verdict(e: Edge, first: bool, desired: map<Pair, Facts>, n: int): Edge
    requires first ==> PairOf(e) in desired
  {
    if first then RefreshedEdge(e, desired[PairOf(e)])
    else if e.gone.None? then e.(gone := Some(n)) else e
  }

  method JudgeRow(row: Edge, first: bool, desired: map<Pair, Facts>, n: int)
    returns (row': Edge, refreshed: nat, same: nat, invalidated: nat)
    requires first ==> PairOf(row) in desired
    ensures row' == Verdict(row, first, desired, n)
    ensures refreshed + same == if first then 1 else 0
    ensures invalidated == if row.gone.None? && row'.gone.Some? then 1 else 0
  {
    row', refreshed, same, invalidated := row, 0, 0, 0;
    if !first {
      if row.gone.None? {
        row', invalidated := row.(gone := Some(n)), 1;
      }
    } else {
      var f := desired[PairOf(row)];
      if row.confidence == f.confidence && row.evidence == f.evidence && row.gone.None? {
        same := 1;
      } else {
        row', refreshed := RefreshedEdge(row, f), 1;
      }
    }
  }

  method JudgeNext(store: Store, seen: set<Pair>, desired: map<Pair, Facts>, e: EdgeId, n: int)
    returns (p: Pair, first: bool, refreshed: nat, same: nat, invalidated: nat)
    requires e in store.edges
    modifies store`edges
    ensures p == PairOf(old(store.edges)[e]) && first == (p in desired && p !in seen)
    ensures store.edges == old(store.edges)[e := Verdict(old(store.edges)[e], first, desired, n)]
    ensures refreshed + same == if first then 1 else 0
    ensures invalidated == if old(store.edges)[e].gone.None? && store.edges[e].gone.Some? then 1 else 0
  {
    var row := store.edges[e];
    p := PairOf(row);
    first := p in desired && p !in seen;
    var row';
    row', refreshed, same, invalidated := JudgeRow(row, first, desired, n);
    store.edges := store.edges[e := row'];
  }

  /** Keep, refresh or retire each loaded row. */
  method ReconcileLoaded(store: Store, desired: map<Pair, Facts>, order: seq<EdgeId>, n: int)
    returns (seen: set<Pair>, refreshed: nat, same: nat, invalidated: nat)
    requires ListsLoaded(store.edges, order, n)
    modifies store`edges
    ensures seen == Kept(old(store.edges), desired, order).Keys
    ensures store.edges == ReconciledRows(old(store.edges), desired, Kept(old(store.edges), desired, order), SetOf(order), n)
    ensures refreshed + same == |seen|
    ensures invalidated == |LeftFrom(old(store.edges), store.edges)|
  {
    ghost var edges := store.edges;
    seen, refreshed, same, invalidated := {}, 0, 0, 0;
    NothingDone(edges, desired, order, n);
    hide *;
    for k := 0 to |order|
      invariant JudgedSoFar(edges, store.edges, desired, order, k, n, seen, refreshed, same, invalidated)
    {
      NextIsThere(edges, store.edges, desired, order, k, n, seen, refreshed, same, invalidated);
      ghost var mid := store.edges;
      var p, first, r, u, i := JudgeNext(store, seen, desired, order[k], n);
      NextIsJudged(edges, mid, desired, order, k, n, seen, refreshed, same, invalidated, first, r, u, i);
      refreshed, same, invalidated := refreshed + r, same + u, invalidated + i;
      if first { seen := seen + {p}; }
    }
    AllJudged(edges, store.edges, desired, order, n, seen, refreshed, same, invalidated);
  }

  /** What the loop over the loaded rows has done up to the k-th. */
  ghost predicate JudgedSoFar(edges: Edges, mid: Edges, desired: map<Pair, Facts>, order: seq<EdgeId>, k: nat, n: int,
                              seen: set<Pair>, refreshed: nat, same: nat, invalidated: nat)
  {
    && k <= |order|
    && mid == ReconciledRows(edges, desired, Kept(edges, desired, order), SetOf(order[..k]), n)
    && seen == Kept(edges, desired, order[..k]).Keys && refreshed + same == |seen|
    && invalidated == |LeftFrom(edges, mid)|
  }

  lemma NextIsThere(edges: Edges, mid: Edges, desired: map<Pair, Facts>, order: seq<EdgeId>, k: nat, n: int,
                    seen: set<Pair>, refreshed: nat, same: nat, invalidated: nat)
    requires JudgedSoFar(edges, mid, desired, order, k, n, seen, refreshed, same, invalidated)
    requires ListsLoaded(edges, order, n) && k < |order|
    ensures order[k] in edges && order[k] in mid && mid[order[k]] == edges[order[k]]
  {
    RowAt(edges, desired, Kept(edges, desired, order), order, k, n);
    hide Kept, ReconciledRows, SetOf, Verdict, LeftFrom;
  }

  lemma NextIsJudged(edges: Edges, mid: Edges, desired: map<Pair, Facts>, order: seq<EdgeId>, k: nat, n: int,
                     seen: set<Pair>, refreshed: nat, same: nat, invalidated: nat, first: bool, r: nat, u: nat, i: nat)
    requires JudgedSoFar(edges, mid, desired, order, k, n, seen, refreshed, same, invalidated)
    requires ListsLoaded(edges, order, n) && k < |order| && order[k] in mid && order[k] in edges && mid[order[k]] == edges[order[k]]
    requires var p := PairOf(mid[order[k]]); first == (p in desired && p !in seen)
    requires r + u == if first then 1 else 0
    requires i == if mid[order[k]].gone.None? && Verdict(mid[order[k]], first, desired, n).gone.Some? then 1 else 0
    ensures JudgedSoFar(edges, mid[order[k] := Verdict(mid[order[k]], first, desired, n)], desired, order, k + 1, n,
                        if first then seen + {PairOf(mid[order[k]])} else seen, refreshed + r, same + u, invalidated + i)
  {
    RowAt(edges, desired, Kept(edges, desired, order), order, k, n);
    hide Kept, ReconciledRows, SetOf, Verdict, LeftFrom;
  }

  lemma AllJudged(edges: Edges, mid: Edges, desired: map<Pair, Facts>, order: seq<EdgeId>, n: int,
                  seen: set<Pair>, refreshed: nat, same: nat, invalidated: nat)
    requires JudgedSoFar(edges, mid, desired, order, |order|, n, seen, refreshed, same, invalidated)
    ensures mid == ReconciledRows(edges, desired, Kept(edges, desired, order), SetOf(order), n)
    ensures seen == Kept(edges, desired, order).Keys && refreshed + same == |seen| && invalidated == |LeftFrom(edges, mid)|
  {
    assert order[..|order|] == order;
  }

  lemma NothingDone(edges: Edges, desired: map<Pair, Facts>, order: seq<EdgeId>, n: int)
    ensures JudgedSoFar(edges, edges, desired, order, 0, n, {}, 0, 0, 0)
  {
    NoneLeft(edges);
    assert order[..0] == [] && SetOf([]) == {};
    assert Kept(edges, desired, order[..0]) == map[];
    assert ReconciledRows(edges, desired, Kept(edges, desired, order), SetOf(order[..0]), n) == edges;
  }

  lemma DoneGrows(order: seq<EdgeId>, k: nat)
    requires k < |order| && forall i, j :: 0 <= i < j < |order| ==> order[i] != order[j]
    ensures order[k] !in SetOf(order[..k])
    ensures SetOf(order[..k + 1]) == SetOf(order[..k]) + {order[k]}
  {
    assert order[..k + 1] == order[..k] + [order[k]];
  }

  /** The k-th turn of the loop, from the tables it finds. */
  lemma RowAt(edges: Edges, desired: map<Pair, Facts>, kept: map<Pair, EdgeId>, order: seq<EdgeId>, k: nat, n: int)
    requires ListsLoaded(edges, order, n) && k < |order| && kept == Kept(edges, desired, order)
    ensures var e := order[k]; var mid := ReconciledRows(edges, desired, kept, SetOf(order[..k]), n);
      var before := Kept(edges, desired, order[..k]);
      && e in edges && e in mid && mid[e] == edges[e]
      && (var first := PairOf(edges[e]) in desired && PairOf(edges[e]) !in before;
          ReconciledRows(edges, desired, kept, SetOf(order[..k + 1]), n) == mid[e := Verdict(edges[e], first, desired, n)]
          && |LeftFrom(edges, mid[e := Verdict(edges[e], first, desired, n)])| ==
             |LeftFrom(edges, mid)| + (if edges[e].gone.None? && Verdict(edges[e], first, desired, n).gone.Some? then 1 else 0)
          && Kept(edges, desired, order[..k + 1]).Keys == if first then before.Keys + {PairOf(edges[e])} else before.Keys)
  {
    var e := order[k];
    assert e in order;
    DoneGrows(order, k);
    VerdictAt(edges, desired, order, k);
    RowsStep(edges, desired, kept, SetOf(order[..k]), e, n);
    var mid, p := ReconciledRows(edges, desired, kept, SetOf(order[..k]), n), PairOf(edges[e]);
    assert mid[e] == edges[e];
    hide Kept, ReconciledRows, SetOf;
    OneMoreLeft(edges, mid, e, Verdict(edges[e], p in desired && p !in Kept(edges, desired, order[..k]), desired, n));
  }

  /** The edges that were live and no longer are. */
  function LeftFrom(before: Edges, after: Edges): set<EdgeId> {
    set e | e in before && before[e].gone.None? && e in after && after[e].gone.Some?
  }

  lemma NoneLeft(edges: Edges)
    ensures LeftFrom(edges, edges) == {}
  {}

  lemma OneMoreLeft(before: Edges, after: Edges, e: EdgeId, row: Edge)
    requires e in before && e in after && after[e] == before[e]
    ensures |LeftFrom(before, after[e := row])| == |LeftFrom(before, after)| + if before[e].gone.None? && row.gone.Some? then 1 else 0
  {
    var out := LeftFrom(before, after[e := row]);
    if before[e].gone.None? && row.gone.Some? {
      assert out == LeftFrom(before, after) + {e};
    } else {
      assert out == LeftFrom(before, after);
    }
  }

  method InsertMissing(store: Store, desired: map<Pair, Facts>, missing: seq<Pair>, ids: seq<EdgeId>, n: int)
    requires |ids| == |missing| && forall p :: p in missing ==> p in desired
    modifies store`edges
    ensures store.edges == InsertAll(old(store.edges), desired, missing, ids, n)
  {
    ghost var mid := store.edges;
    assert missing[..0] == [];
    for k := 0 to |missing|
      invariant forall p :: p in missing[..k] ==> p in desired
      invariant store.edges == InsertAll(mid, desired, missing[..k], ids[..k], n)
    {
      assert missing[k] in missing && missing[..k + 1] == missing[..k] + [missing[k]];
      assert missing[..k + 1][..k] == missing[..k] && ids[..k + 1][..k] == ids[..k];
      store.edges := store.edges[ids[k] := NewAliasEdge(missing[k], desired[missing[k]], n)];
    }
    assert missing[..|missing|] == missing && ids[..|ids|] == ids;
  }

  method ReconcileEdges(store: Store, desired: map<Pair, Facts>, order: seq<EdgeId>, missing: seq<Pair>, ids: seq<EdgeId>, n: int)
    returns (inserted: nat, refreshed: nat, same: nat, invalidated: nat)
    requires LegalEdges(store.edges, desired, order, missing, ids, n)
    modifies store`edges
    ensures store.edges == Reconciled(old(store.edges), desired, order, missing, ids, n)
    ensures InBijection(store.edges, desired)
    ensures inserted + refreshed + same == |desired| && inserted == |store.edges| - |old(store.edges)|
    ensures invalidated == |LeftFrom(old(store.edges), store.edges)|
  {
    ghost var edges := store.edges;
    EdgesAreExact(store.edges, desired, order, missing, ids, n);
    KeptRows(store.edges, desired, order);
    CountMissing(desired, Kept(store.edges, desired, order), missing);
    hide InBijection, Kept, ReconciledRows, InsertAll;
    var seen;
    seen, refreshed, same, invalidated := ReconcileLoaded(store, desired, order, n);
    InsertsCount(edges, store.edges, desired, missing, ids, n);
    InsertMissing(store, desired, missing, ids, n);
    inserted := |missing|;
  }

  /** Inserts add one row each and take none out. */
  lemma InsertsCount(edges: Edges, mid: Edges, desired: map<Pair, Facts>, missing: seq<Pair>, ids: seq<EdgeId>, n: int)
    requires |ids| == |missing| && mid.Keys == edges.Keys && forall p :: p in missing ==> p in desired
    requires (forall i :: 0 <= i < |ids| ==> ids[i] !in edges) && forall i, j :: 0 <= i < j < |ids| ==> ids[i] != ids[j]
    ensures var out := InsertAll(mid, desired, missing, ids, n);
      |out| == |edges| + |missing| && LeftFrom(edges, out) == LeftFrom(edges, mid)
  {
    var out := InsertAll(mid, desired, missing, ids, n);
    InsertedKeys(mid, desired, missing, ids, n);
    forall e | e in mid { InsertKeeps(mid, desired, missing, ids, n, e); }
    hide InsertAll;
    IdsCount(ids);
    assert out.Keys == edges.Keys + SetOf(ids) && edges.Keys !! SetOf(ids);
    assert |out| == |out.Keys| && |edges| == |edges.Keys|;
  }

  lemma {:induction false} IdsCount(ids: seq<EdgeId>)
    requires forall i, j :: 0 <= i < j < |ids| ==> ids[i] != ids[j]
    ensures |SetOf(ids)| == |ids|
  {
    if ids != [] {
      var rest, last := ids[..|ids| - 1], ids[|ids| - 1];
      IdsCount(rest);
      assert ids == rest + [last];
      assert SetOf(ids) == SetOf(rest) + {last} && last !in SetOf(rest);
    }
  }

  lemma CountMissing(desired: map<Pair, Facts>, kept: map<Pair, EdgeId>, missing: seq<Pair>)
    requires kept.Keys <= desired.Keys
    requires forall i, j :: 0 <= i < j < |missing| ==> missing[i] != missing[j]
    requires forall p :: p in missing <==> p in desired && p !in kept
    ensures |missing| + |kept.Keys| == |desired|
  {
    var m := set p | p in missing;
    DistinctCount(missing);
    assert m == desired.Keys - kept.Keys;
    assert |desired| == |desired.Keys|;
  }

  lemma {:induction false} DistinctCount(xs: seq<Pair>)
    requires forall i, j :: 0 <= i < j < |xs| ==> xs[i] != xs[j]
    ensures |set x | x in xs| == |xs|
  {
    if xs != [] {
      var rest, last := xs[..|xs| - 1], xs[|xs| - 1];
      DistinctCount(rest);
      assert xs == rest + [last];
      assert (set x | x in xs) == (set x | x in rest) + {last};
      assert last !in rest;
    }
  }
}
