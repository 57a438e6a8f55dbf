/** Reconciling the edges of one computed producer (the deterministic linker, or
    the relationship judge) with the set it computed this build: upsert every
    draft, then soft-invalidate the producer's live edges nobody drafted.

    An upsert that meets an existing row refreshes it in place and clears
    `invalidated_at_seq`, whatever build had set it. */
module LinkEdges {
  import opened Prelude
  import opened Registry

  datatype LinkDraft = LinkDraft(from: ArtifactId, to: ArtifactId, kind: string, confidence: real, evidence: EdgeEvidence)

  /** `ids` are the identities the database gives to rows it has to insert. */
  datatype LinkBatch = LinkBatch(
    producer: Producer,
    drafts: seq<LinkDraft>,
    ids: seq<EdgeId>,
    protectedKinds: set<string>,
    sweepStale: bool)

  /** The partial unique index: one row per (from, to, kind) and producer. */
  predicate Conflicts(e: Edge, p: Producer, d: LinkDraft) {
    e.producer == p && e.from == d.from && e.to == d.to && e.kind == d.kind
  }

  function NewLink(p: Producer, d: LinkDraft, n: int): Edge {
    Edge(d.from, d.to, d.kind, p, d.confidence, d.evidence, n, None)
  }

  function Refreshed(e: Edge, d: LinkDraft): Edge {
    e.(confidence := if e.producer == Judge then e.confidence else d.confidence, evidence := d.evidence, gone := None)
  }

  predicate AnyConflict(edges: map<EdgeId, Edge>, p: Producer, d: LinkDraft) {
    exists e :: e in edges && Conflicts(edges[e], p, d)
  }

  function RefreshRow(e: Edge, p: Producer, d: LinkDraft): Edge {
    if Conflicts(e, p, d) then Refreshed(e, d) else e
  }

  /** INSERT ... ON CONFLICT DO UPDATE. */
  function Upsert(edges: map<EdgeId, Edge>, p: Producer, d: LinkDraft, id: EdgeId, n: int): map<EdgeId, Edge> {
    if AnyConflict(edges, p, d)
    then map e | e in edges :: RefreshRow(edges[e], p, d)
    else edges[id := NewLink(p, d, n)]
  }

  function UpsertAll(edges: map<EdgeId, Edge>, p: Producer, drafts: seq<LinkDraft>, ids: seq<EdgeId>, n: int): map<EdgeId, Edge>
    requires |ids| == |drafts|
  {
    if drafts == [] then edges
    else
      var k := |drafts| - 1;
      Upsert(UpsertAll(edges, p, drafts[..k], ids[..k], n), p, drafts[k], ids[k], n)
  }

  predicate Drafted(e: Edge, p: Producer, drafts: seq<LinkDraft>) {
    exists d :: d in drafts && Conflicts(e, p, d)
  }

  predicate Stale(e: Edge, b: LinkBatch) {
    b.sweepStale && e.producer == b.producer && e.gone.None? && !Drafted(e, b.producer, b.drafts) &&
    !(e.kind in b.protectedKinds && e.evidence.NoEvidence?)
  }

  function StaleSwept(edges: map<EdgeId, Edge>, b: LinkBatch, n: int): map<EdgeId, Edge> {
    map e | e in edges :: if Stale(edges[e], b) then edges[e].(gone := Some(n)) else edges[e]
  }

  ghost predicate FreshIds(edges: map<EdgeId, Edge>, ids: seq<EdgeId>) {
    && (forall i :: 0 <= i < |ids| ==> ids[i] !in edges)
    && (forall i, j :: 0 <= i < j < |ids| ==> ids[i] != ids[j])
  }

  ghost predicate LegalBatch(db: Db, b: LinkBatch) {
    |b.ids| == |b.drafts| && FreshIds(db.edges, b.ids)
  }

  function Linked(db: Db, b: LinkBatch, n: int): Db
    requires |b.ids| == |b.drafts|
  {
    db.(edges := StaleSwept(UpsertAll(db.edges, b.producer, b.drafts, b.ids, n), b, n))
  }

  // ------------------------------------------------------- closed form of the upserts

  predicate SameLink(e: Edge, e': Edge) {
    e' == e.(confidence := e'.confidence, evidence := e'.evidence, gone := e'.gone)
  }

  /** What the upserts do to a row that existed before: drafted rows come back to
      life, the others are untouched. */
  predicate UpsertedRow(e: Edge, e': Edge, p: Producer, drafts: seq<LinkDraft>) {
    SameLink(e, e') && (if Drafted(e, p, drafts) then e'.gone.None? else e' == e)
  }

  predicate InsertedRow(e: Edge, p: Producer, drafts: seq<LinkDraft>, n: int) {
    e.producer == p && e.validFrom == n && e.gone.None? && Drafted(e, p, drafts)
  }

  lemma DraftedGrows(e: Edge, p: Producer, drafts: seq<LinkDraft>)
    requires drafts != []
    ensures Drafted(e, p, drafts) <==> Drafted(e, p, drafts[..|drafts| - 1]) || Conflicts(e, p, drafts[|drafts| - 1])
  {
    var rest, last := drafts[..|drafts| - 1], drafts[|drafts| - 1];
    assert drafts == rest + [last];
    assert forall d :: d in drafts <==> d in rest || d == last;
  }

  lemma {:induction false} UpsertKeepsRow(edges: map<EdgeId, Edge>, p: Producer, drafts: seq<LinkDraft>,
                                          ids: seq<EdgeId>, n: int, e: EdgeId)
    requires |ids| == |drafts| && FreshIds(edges, ids) && e in edges
    ensures e in UpsertAll(edges, p, drafts, ids, n)
    ensures UpsertedRow(edges[e], UpsertAll(edges, p, drafts, ids, n)[e], p, drafts)
  {
    if drafts != [] {
      var k := |drafts| - 1;
      UpsertKeepsRow(edges, p, drafts[..k], ids[..k], n, e);
      var mid := UpsertAll(edges, p, drafts[..k], ids[..k], n);
      DraftedGrows(edges[e], p, drafts);
      assert e != ids[k];
      if !AnyConflict(mid, p, drafts[k]) { assert !Conflicts(mid[e], p, drafts[k]); }
    }
  }

  lemma {:induction false} UpsertInserts(edges: map<EdgeId, Edge>, p: Producer, drafts: seq<LinkDraft>,
                                         ids: seq<EdgeId>, n: int, e: EdgeId)
    requires |ids| == |drafts| && e !in edges && e in UpsertAll(edges, p, drafts, ids, n)
    ensures InsertedRow(UpsertAll(edges, p, drafts, ids, n)[e], p, drafts, n)
  {
    if drafts != [] {
      var k := |drafts| - 1;
      var mid, fin := UpsertAll(edges, p, drafts[..k], ids[..k], n), UpsertAll(edges, p, drafts, ids, n);
      DraftedGrows(fin[e], p, drafts);
      if e in mid {
        UpsertInserts(edges, p, drafts[..k], ids[..k], n, e);
        DraftedGrows(mid[e], p, drafts);
      }
    }
  }

  /** Every draft ends up as a live row. */
  lemma {:induction false} UpsertSatisfies(edges: map<EdgeId, Edge>, p: Producer, drafts: seq<LinkDraft>,
                                           ids: seq<EdgeId>, n: int, d: LinkDraft) returns (e: EdgeId)
    requires |ids| == |drafts| && FreshIds(edges, ids) && d in drafts
    ensures e in UpsertAll(edges, p, drafts, ids, n)
    ensures Conflicts(UpsertAll(edges, p, drafts, ids, n)[e], p, d)
    ensures UpsertAll(edges, p, drafts, ids, n)[e].gone.None?
  {
    var k := |drafts| - 1;
    assert drafts == drafts[..k] + [drafts[k]];
    var mid := UpsertAll(edges, p, drafts[..k], ids[..k], n);
    if d == drafts[k] {
      if AnyConflict(mid, p, d) { e :| e in mid && Conflicts(mid[e], p, d); } else { e := ids[k]; }
    } else {
      e := UpsertSatisfies(edges, p, drafts[..k], ids[..k], n, d);
      if e == ids[k] && !AnyConflict(mid, p, drafts[k]) {
        UpsertOnlyOwnIds(edges, p, drafts[..k], ids[..k], n, e);
        assert false;
      }
    }
  }

  lemma {:induction false} UpsertOnlyOwnIds(edges: map<EdgeId, Edge>, p: Producer, drafts: seq<LinkDraft>,
                                            ids: seq<EdgeId>, n: int, e: EdgeId)
    requires |ids| == |drafts| && e in UpsertAll(edges, p, drafts, ids, n)
    ensures e in edges || e in ids
  {
    if drafts != [] {
      var k := |drafts| - 1;
      var mid := UpsertAll(edges, p, drafts[..k], ids[..k], n);
      if e in mid { UpsertOnlyOwnIds(edges, p, drafts[..k], ids[..k], n, e); }
    }
  }

  /** One row through the whole reconcile. */
  lemma LinkedRow(db: Db, b: LinkBatch, n: int, e: EdgeId)
    requires LegalBatch(db, b) && e in db.edges
    ensures e in Linked(db, b, n).edges
    ensures var r, r' := db.edges[e], Linked(db, b, n).edges[e];
      && SameLink(r, r')
      && r'.gone == if Drafted(r, b.producer, b.drafts) then None else if Stale(r, b) then Some(n) else r.gone
  {
    UpsertKeepsRow(db.edges, b.producer, b.drafts, b.ids, n, e);
  }

  lemma LinkedInsert(db: Db, b: LinkBatch, n: int, e: EdgeId)
    requires LegalBatch(db, b) && e !in db.edges && e in Linked(db, b, n).edges
    ensures InsertedRow(Linked(db, b, n).edges[e], b.producer, b.drafts, n)
  {
    UpsertInserts(db.edges, b.producer, b.drafts, b.ids, n, e);
  }

  // ------------------------------------------------------- when the past survives

  /** A drafted edge that an earlier build had taken out of the registry. */
  predicate RevivedAcrossBuilds(db: Db, b: LinkBatch, n: int, e: EdgeId) {
    e in db.edges && db.edges[e].gone.Some? && db.edges[e].gone.value < n && Drafted(db.edges[e], b.producer, b.drafts)
  }

  /** The reconcile leaves every version before `n` alone exactly when it drafts
      no edge that an earlier build had invalidated. */
  lemma LinkedFreezesPastIff(db: Db, b: LinkBatch, n: int)
    requires LegalBatch(db, b) && WellFormed(db)
    ensures Frozen(db, Linked(db, b, n), n) <==> (forall e :: !RevivedAcrossBuilds(db, b, n, e))
  {
    var d := Linked(db, b, n);
    forall e | e in db.edges { LinkedRow(db, b, n, e); }
    forall e | e in d.edges && e !in db.edges { LinkedInsert(db, b, n, e); }
    assert d.artifacts == db.artifacts;
    hide Linked, Drafted, Stale;
    if e :| RevivedAcrossBuilds(db, b, n, e) {
      var s := db.edges[e].gone.value;
      assert !HasEdge(db, e, s) && HasEdge(d, e, s);
      assert !Frozen(db, d, n);
    } else {
      forall e | e in db.edges ensures SamePast(db.edges[e].gone, d.edges[e].gone, n) {
        assert !RevivedAcrossBuilds(db, b, n, e);
      }
      KeptPastIsFrozen(db, d, n);
    }
  }

  // ------------------------------------------------------- when ghosts appear

  predicate JoinsLive(db: Db, d: LinkDraft) {
    LiveArtifact(db, d.from) && LiveArtifact(db, d.to)
  }

  /** From a registry without ghost edges, the reconcile leaves none exactly when
      every draft joins two live artifacts. */
  lemma LinkedNoGhostsIff(db: Db, b: LinkBatch, n: int)
    requires LegalBatch(db, b)
    requires forall e :: !Ghost(db, e)
    ensures (forall e :: !Ghost(Linked(db, b, n), e)) <==> (forall d :: d in b.drafts ==> JoinsLive(db, d))
  {
    var l := Linked(db, b, n);
    if d :| d in b.drafts && !JoinsLive(db, d) {
      var e := UpsertSatisfies(db.edges, b.producer, b.drafts, b.ids, n, d);
      var r := UpsertAll(db.edges, b.producer, b.drafts, b.ids, n)[e];
      assert Drafted(r, b.producer, b.drafts);
      assert l.edges[e] == r;
      assert Ghost(l, e);
    } else {
      forall e ensures !Ghost(l, e) {
        if e in db.edges {
          LinkedRow(db, b, n, e);
          assert !Ghost(db, e);
          if Drafted(db.edges[e], b.producer, b.drafts) {
            var d :| d in b.drafts && Conflicts(db.edges[e], b.producer, d);
            assert JoinsLive(db, d);
          }
        } else if e in l.edges {
          LinkedInsert(db, b, n, e);
          var d :| d in b.drafts && Conflicts(l.edges[e], b.producer, d);
          assert JoinsLive(db, d);
        }
      }
    }
  }

  // ------------------------------------------------------- the upserts keep the keys unique

  lemma UpsertKeepsKeys(edges: map<EdgeId, Edge>, p: Producer, d: LinkDraft, id: EdgeId, n: int)
    requires UniqueLinks(edges) && id !in edges
    ensures UniqueLinks(Upsert(edges, p, d, id, n))
  {
    var after := Upsert(edges, p, d, id, n);
    forall e, f ensures !SharesKey(after, e, f) {
      assert !SharesKey(edges, e, f);
      if !AnyConflict(edges, p, d) {
        assert e in edges ==> !Conflicts(edges[e], p, d);
        assert f in edges ==> !Conflicts(edges[f], p, d);
      }
    }
  }

  lemma {:induction false} UpsertAllKeepsKeys(edges: map<EdgeId, Edge>, p: Producer, drafts: seq<LinkDraft>, ids: seq<EdgeId>, n: int)
    requires |ids| == |drafts| && FreshIds(edges, ids) && UniqueLinks(edges)
    ensures UniqueLinks(UpsertAll(edges, p, drafts, ids, n))
  {
    if drafts != [] {
      var k := |drafts| - 1;
      UpsertAllKeepsKeys(edges, p, drafts[..k], ids[..k], n);
      var mid := UpsertAll(edges, p, drafts[..k], ids[..k], n);
      if ids[k] in mid {
        UpsertOnlyOwnIds(edges, p, drafts[..k], ids[..k], n, ids[k]);
        assert false;
      }
      UpsertKeepsKeys(mid, p, drafts[k], ids[k], n);
    }
  }

  lemma SameKeysStayUnique(edges: map<EdgeId, Edge>, after: map<EdgeId, Edge>)
    requires UniqueLinks(edges)
    requires forall e :: e in after && Keyed(after[e]) ==> e in edges && SameKey(edges[e], after[e])
    ensures UniqueLinks(after)
  {
    forall e, f ensures !SharesKey(after, e, f) { assert !SharesKey(edges, e, f); }
  }

  /** A reconcile of linker or judge edges keeps the indexes, so at most one row ever
      conflicts with a draft. */
  lemma LinkedKeepsKeys(db: Db, b: LinkBatch, n: int)
    requires LegalBatch(db, b) && UniqueLinks(db.edges)
    ensures UniqueLinks(Linked(db, b, n).edges)
  {
    UpsertAllKeepsKeys(db.edges, b.producer, b.drafts, b.ids, n);
    SameKeysStayUnique(UpsertAll(db.edges, b.producer, b.drafts, b.ids, n), Linked(db, b, n).edges);
  }

  lemma OneConflict(edges: map<EdgeId, Edge>, p: Producer, d: LinkDraft, e: EdgeId, f: EdgeId)
    requires UniqueLinks(edges) && (p == Linker || p == Judge)
    requires e in edges && Conflicts(edges[e], p, d) && f in edges && Conflicts(edges[f], p, d)
    ensures e == f
  {
    assert !SharesKey(edges, e, f);
  }

  // ------------------------------------------------------- the loop

  lemma NoUpserts(edges: map<EdgeId, Edge>, b: LinkBatch, n: int)
    requires |b.ids| == |b.drafts|
    ensures UpsertAll(edges, b.producer, b.drafts[..0], b.ids[..0], n) == edges
    ensures b.drafts[..|b.drafts|] == b.drafts && b.ids[..|b.ids|] == b.ids
  {}

  lemma NextUpsert(edges: map<EdgeId, Edge>, b: LinkBatch, k: nat, n: int)
    requires |b.ids| == |b.drafts| && k < |b.drafts|
    ensures UpsertAll(edges, b.producer, b.drafts[..k + 1], b.ids[..k + 1], n) ==
            Upsert(UpsertAll(edges, b.producer, b.drafts[..k], b.ids[..k], n), b.producer, b.drafts[k], b.ids[k], n)
  {
    assert b.drafts[..k + 1][..k] == b.drafts[..k] && b.ids[..k + 1][..k] == b.ids[..k];
    hide Upsert;
  }

  lemma IdIsFresh(edges: map<EdgeId, Edge>, b: LinkBatch, k: nat, n: int)
    requires |b.ids| == |b.drafts| && FreshIds(edges, b.ids) && k < |b.drafts|
    ensures b.ids[k] !in UpsertAll(edges, b.producer, b.drafts[..k], b.ids[..k], n)
  {
    if b.ids[k] in UpsertAll(edges, b.producer, b.drafts[..k], b.ids[..k], n) {
      UpsertOnlyOwnIds(edges, b.producer, b.drafts[..k], b.ids[..k], n, b.ids[k]);
      assert false;
    }
  }

  lemma SameNumber(a: map<EdgeId, Edge>, b: map<EdgeId, Edge>)
    requires a.Keys == b.Keys
    ensures |a| == |b|
  {
    assert |a.Keys| == |a| && |b.Keys| == |b|;
  }

  /** The rows the sweep takes are those that were live before the reconcile and left with it. */
  lemma StaleAreTheLeft(db: Db, b: LinkBatch, n: int)
    requires LegalBatch(db, b)
    ensures var mid, fin := UpsertAll(db.edges, b.producer, b.drafts, b.ids, n), Linked(db, b, n).edges;
      && |mid| == |fin|
      && (set e | e in mid && Stale(mid[e], b)) ==
         (set e | e in db.edges && db.edges[e].gone.None? && e in fin && fin[e].gone == Some(n))
  {
    var mid, fin := UpsertAll(db.edges, b.producer, b.drafts, b.ids, n), Linked(db, b, n).edges;
    SameNumber(mid, fin);
    forall e ensures e in mid && Stale(mid[e], b) <==> e in db.edges && db.edges[e].gone.None? && e in fin && fin[e].gone == Some(n) {
      if e in db.edges {
        UpsertKeepsRow(db.edges, b.producer, b.drafts, b.ids, n, e);
      } else if e in mid {
        UpsertInserts(db.edges, b.producer, b.drafts, b.ids, n, e);
      }
    }
    hide UpsertAll, Stale, Linked;
  }

  /** One INSERT ... ON CONFLICT DO UPDATE, and whether it inserted. */
  method UpsertDraft(store: Store, p: Producer, d: LinkDraft, id: EdgeId, n: int) returns (inserted: bool)
    requires id !in store.edges
    modifies store`edges
    ensures store.edges == Upsert(old(store.edges), p, d, id, n)
    ensures |store.edges| == |old(store.edges)| + if inserted then 1 else 0
  {
    ghost var edges := store.edges;
    var hits := set e | e in store.edges && Conflicts(store.edges[e], p, d);
    assert AnyConflict(edges, p, d) <==> hits != {} by {
      if AnyConflict(edges, p, d) {
        var e :| e in edges && Conflicts(edges[e], p, d);
        assert e in hits;
      }
    }
    inserted := hits == {};
    if inserted {
      store.edges := store.edges[id := NewLink(p, d, n)];
    } else {
      store.edges := map e | e in store.edges :: RefreshRow(store.edges[e], p, d);
      SameNumber(edges, store.edges);
    }
  }

  /** Upsert every draft, then take out what nobody drafted: counted are the rows added and
      the live rows that left. */
  method WriteLinkEdges(store: Store, b: LinkBatch, n: int) returns (inserted: nat, refreshed: nat, invalidated: nat)
    requires LegalBatch(store.Snapshot(), b) && UniqueLinks(store.edges)
    modifies store`edges
    ensures store.Snapshot() == Linked(old(store.Snapshot()), b, n)
    ensures UniqueLinks(store.edges)
    ensures inserted + refreshed == |b.drafts| && inserted == |store.edges| - |old(store.edges)|
    ensures invalidated == |set e | e in old(store.edges) && old(store.edges)[e].gone.None? && e in store.edges && store.edges[e].gone == Some(n)|
  {
    ghost var db := store.Snapshot();
    LinkedKeepsKeys(db, b, n);
    NoUpserts(db.edges, b, n);
    StaleAreTheLeft(db, b, n);
    hide UniqueLinks, UpsertAll, Upsert, StaleSwept, FreshIds;
    inserted, refreshed := 0, 0;
    for k := 0 to |b.drafts|
      invariant store.edges == UpsertAll(db.edges, b.producer, b.drafts[..k], b.ids[..k], n)
      invariant inserted + refreshed == k && |store.edges| == |db.edges| + inserted
    {
      NextUpsert(db.edges, b, k, n);
      IdIsFresh(db.edges, b, k, n);
      var wasInsert := UpsertDraft(store, b.producer, b.drafts[k], b.ids[k], n);
      if wasInsert { inserted := inserted + 1; } else { refreshed := refreshed + 1; }
    }
    invalidated := |set e | e in store.edges && Stale(store.edges[e], b)|;
    store.edges := StaleSwept(store.edges, b, n);
  }
}
