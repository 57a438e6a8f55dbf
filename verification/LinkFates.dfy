/** Row by row, what linker and judge make of the edge table: which edges are live
    afterwards, and with which facts. */
module LinkFates {
  import opened Prelude
  import opened Registry
  import opened LinkEdges
  import opened BuildMachine

  /** The k-th draft has the key of this edge. */
  predicate DraftFor(p: Producer, drafts: seq<LinkDraft>, e: Edge, k: int) {
    0 <= k < |drafts| && e.producer == p && e.from == drafts[k].from && e.to == drafts[k].to && e.kind == drafts[k].kind
  }

  ghost predicate AnyFor(p: Producer, drafts: seq<LinkDraft>, e: Edge) {
    exists k :: DraftFor(p, drafts, e, k)
  }

  ghost predicate HasDraft(b: LinkBatch, e: Edge) { AnyFor(b.producer, b.drafts, e) }

  ghost predicate LastFor(p: Producer, drafts: seq<LinkDraft>, e: Edge, k: int) {
    DraftFor(p, drafts, e, k) && forall j :: k < j < |drafts| ==> !DraftFor(p, drafts, e, j)
  }

  ghost predicate FirstFor(p: Producer, drafts: seq<LinkDraft>, e: Edge, k: int) {
    DraftFor(p, drafts, e, k) && forall j :: 0 <= j < k ==> !DraftFor(p, drafts, e, j)
  }

  lemma DraftedIff(p: Producer, drafts: seq<LinkDraft>, e: Edge)
    ensures Drafted(e, p, drafts) <==> AnyFor(p, drafts, e)
  {
    if Drafted(e, p, drafts) {
      var d :| d in drafts && Conflicts(e, p, d);
      var k :| 0 <= k < |drafts| && drafts[k] == d;
      assert DraftFor(p, drafts, e, k);
    }
    if k :| DraftFor(p, drafts, e, k) { assert drafts[k] in drafts && Conflicts(e, p, drafts[k]); }
  }

  lemma DraftForMore(p: Producer, drafts: seq<LinkDraft>, e: Edge, k: int)
    requires drafts != []
    ensures var m := |drafts| - 1;
      DraftFor(p, drafts, e, k) <==> DraftFor(p, drafts[..m], e, k) || (k == m && Conflicts(e, p, drafts[m]))
  {}

  lemma LastIsLast(p: Producer, drafts: seq<LinkDraft>, e: Edge, k: int)
    requires drafts != [] && LastFor(p, drafts, e, k)
    ensures var m := |drafts| - 1; if Conflicts(e, p, drafts[m]) then k == m else LastFor(p, drafts[..m], e, k)
  {
    var m := |drafts| - 1;
    var rest := drafts[..m];
    forall j ensures DraftFor(p, rest, e, j) ==> DraftFor(p, drafts, e, j) {}
    DraftForMore(p, drafts, e, m);
    DraftForMore(p, drafts, e, k);
    assert Conflicts(e, p, drafts[m]) ==> DraftFor(p, drafts, e, m);
    hide DraftFor, Conflicts;
    forall j | k < j < m ensures !DraftFor(p, rest, e, j) { assert !DraftFor(p, drafts, e, j); }
  }

  lemma FirstIsFirst(p: Producer, drafts: seq<LinkDraft>, e: Edge, k: int)
    requires drafts != [] && FirstFor(p, drafts, e, k) && AnyFor(p, drafts[..|drafts| - 1], e)
    ensures FirstFor(p, drafts[..|drafts| - 1], e, k)
  {
    var m := |drafts| - 1;
    var rest := drafts[..m];
    var j :| DraftFor(p, rest, e, j);
    assert DraftFor(p, drafts, e, j) && k <= j;
    forall i | 0 <= i < k ensures !DraftFor(p, rest, e, i) { assert !DraftFor(p, drafts, e, i); }
  }

  /** A row that was there shows the last draft of its key; the judge leaves its
      confidence as it is. */
  lemma {:induction false} KeptFacts(edges: map<EdgeId, Edge>, p: Producer, drafts: seq<LinkDraft>, ids: seq<EdgeId>, n: int, e: EdgeId)
    requires |ids| == |drafts| && FreshIds(edges, ids) && e in edges && e in UpsertAll(edges, p, drafts, ids, n)
    ensures var r, r' := edges[e], UpsertAll(edges, p, drafts, ids, n)[e];
      forall k :: LastFor(p, drafts, r, k) ==>
        r'.evidence == drafts[k].evidence && r'.confidence == if p == Judge then r.confidence else drafts[k].confidence
    ensures p == Judge ==> UpsertAll(edges, p, drafts, ids, n)[e].confidence == edges[e].confidence
  {
    if drafts != [] {
      var m := |drafts| - 1;
      var mid := UpsertAll(edges, p, drafts[..m], ids[..m], n);
      UpsertKeepsRow(edges, p, drafts[..m], ids[..m], n, e);
      KeptFacts(edges, p, drafts[..m], ids[..m], n, e);
      forall k | LastFor(p, drafts, edges[e], k) { LastIsLast(p, drafts, edges[e], k); }
      hide LastFor, DraftFor, FreshIds;
      assert e != ids[m];
      assert Conflicts(mid[e], p, drafts[m]) ==> AnyConflict(mid, p, drafts[m]);
    }
  }

  /** A row that is new shows the last draft of its key, with the judge's first word on the
      confidence; and no row had that key before. */
  lemma {:induction false} InsertedFacts(edges: map<EdgeId, Edge>, p: Producer, drafts: seq<LinkDraft>, ids: seq<EdgeId>, n: int, e: EdgeId)
    requires |ids| == |drafts| && FreshIds(edges, ids) && e !in edges && e in UpsertAll(edges, p, drafts, ids, n)
    ensures var r := UpsertAll(edges, p, drafts, ids, n)[e];
      && (forall k :: LastFor(p, drafts, r, k) ==> r.evidence == drafts[k].evidence && (p != Judge ==> r.confidence == drafts[k].confidence))
      && (p == Judge ==> forall k :: FirstFor(p, drafts, r, k) ==> r.confidence == drafts[k].confidence)
      && (forall f :: f in edges ==> !SameKey(edges[f], r))
  {
    var m := |drafts| - 1;
    var mid, r := UpsertAll(edges, p, drafts[..m], ids[..m], n), UpsertAll(edges, p, drafts, ids, n)[e];
    hide LastFor, FirstFor;
    if e in mid {
      hide UpsertAll;
      InsertedFacts(edges, p, drafts[..m], ids[..m], n, e);
      UpsertInserts(edges, p, drafts[..m], ids[..m], n, e);
      DraftedIff(p, drafts[..m], mid[e]);
      NewAtLast(edges, mid, p, drafts, ids, n, e);
      FactsMove(p, drafts, mid[e], r);
    } else {
      assert !AnyConflict(mid, p, drafts[m]) && r == NewLink(p, drafts[m], n);
      forall k | DraftFor(p, drafts, r, k) ensures k == m { OnlyTheLast(edges, p, drafts, ids, n, r, k); }
      forall k | LastFor(p, drafts, r, k) ensures k == m { IsDraftFor(p, drafts, r, k); }
      forall k | FirstFor(p, drafts, r, k) ensures k == m { IsDraftFor(p, drafts, r, k); }
      forall f | f in edges ensures !SameKey(edges[f], r) {
        UpsertKeepsRow(edges, p, drafts[..m], ids[..m], n, f);
        assert !Conflicts(mid[f], p, drafts[m]);
      }
    }
  }

  lemma IsDraftFor(p: Producer, drafts: seq<LinkDraft>, e: Edge, k: int)
    requires LastFor(p, drafts, e, k) || FirstFor(p, drafts, e, k)
    ensures DraftFor(p, drafts, e, k)
  {}

  /** The facts of a row before the last draft and after it. */
  lemma FactsMove(p: Producer, drafts: seq<LinkDraft>, r: Edge, r': Edge)
    requires drafts != [] && AnyFor(p, drafts[..|drafts| - 1], r)
    requires var d := drafts[|drafts| - 1]; r' == if Conflicts(r, p, d) then Refreshed(r, d) else r
    requires var rest := drafts[..|drafts| - 1];
      && (forall k :: LastFor(p, rest, r, k) ==> r.evidence == rest[k].evidence && (p != Judge ==> r.confidence == rest[k].confidence))
      && (p == Judge ==> forall k :: FirstFor(p, rest, r, k) ==> r.confidence == rest[k].confidence)
    ensures forall k :: LastFor(p, drafts, r', k) ==> r'.evidence == drafts[k].evidence && (p != Judge ==> r'.confidence == drafts[k].confidence)
    ensures p == Judge ==> forall k :: FirstFor(p, drafts, r', k) ==> r'.confidence == drafts[k].confidence
  {
    forall k ensures DraftFor(p, drafts, r', k) <==> DraftFor(p, drafts, r, k) {}
    forall k | LastFor(p, drafts, r', k)
      ensures r'.evidence == drafts[k].evidence && (p != Judge ==> r'.confidence == drafts[k].confidence)
    {
      assert LastFor(p, drafts, r, k);
      LastIsLast(p, drafts, r, k);
    }
    if p == Judge {
      forall k | FirstFor(p, drafts, r', k) ensures r'.confidence == drafts[k].confidence {
        assert FirstFor(p, drafts, r, k);
        FirstIsFirst(p, drafts, r, k);
      }
    }
  }

  /** Where no row conflicts with the last draft, no earlier draft has its key. */
  lemma OnlyTheLast(edges: map<EdgeId, Edge>, p: Producer, drafts: seq<LinkDraft>, ids: seq<EdgeId>, n: int, r: Edge, k: int)
    requires drafts != [] && |ids| == |drafts| && FreshIds(edges, ids)
    requires var m := |drafts| - 1;
      r == NewLink(p, drafts[m], n) && !AnyConflict(UpsertAll(edges, p, drafts[..m], ids[..m], n), p, drafts[m])
    requires DraftFor(p, drafts, r, k)
    ensures k == |drafts| - 1
  {
    var m := |drafts| - 1;
    if k < m {
      assert drafts[..m][k] in drafts[..m];
      var f := UpsertSatisfies(edges, p, drafts[..m], ids[..m], n, drafts[..m][k]);
      assert Conflicts(UpsertAll(edges, p, drafts[..m], ids[..m], n)[f], p, drafts[m]);
    }
  }

  /** A row inserted by an earlier draft meets the last one. */
  lemma NewAtLast(edges: map<EdgeId, Edge>, mid: map<EdgeId, Edge>, p: Producer, drafts: seq<LinkDraft>, ids: seq<EdgeId>, n: int, e: EdgeId)
    requires drafts != [] && |ids| == |drafts| && FreshIds(edges, ids) && e !in edges && e in mid
    requires var m := |drafts| - 1; mid == UpsertAll(edges, p, drafts[..m], ids[..m], n)
    ensures var m, r := |drafts| - 1, UpsertAll(edges, p, drafts, ids, n)[e];
      && (Conflicts(mid[e], p, drafts[m]) ==> r == Refreshed(mid[e], drafts[m]))
      && (!Conflicts(mid[e], p, drafts[m]) ==> r == mid[e])
  {
    var m := |drafts| - 1;
    UpsertOnlyOwnIds(edges, p, drafts[..m], ids[..m], n, e);
    assert e != ids[m];
    assert Conflicts(mid[e], p, drafts[m]) ==> AnyConflict(mid, p, drafts[m]);
    hide UpsertAll;
  }

  // ------------------------------------------------------- the whole reconcile

  /** One row through a reconcile.  Named by a draft, it is live and shows the last one.
      Otherwise it leaves at this build if the batch sweeps, it is a live row of the
      producer, and it is not one of a protected kind without evidence; and any other row is
      as it was. */
  lemma ReconciledRow(db: Db, b: LinkBatch, n: int, e: EdgeId)
    requires LegalBatch(db, b) && e in db.edges
    ensures e in Linked(db, b, n).edges
    ensures var r, r' := db.edges[e], Linked(db, b, n).edges[e];
      && r' == r.(confidence := r'.confidence, evidence := r'.evidence, gone := r'.gone)
      && (HasDraft(b, r) ==> r'.gone.None?)
      && (forall k :: LastFor(b.producer, b.drafts, r, k) ==>
            r'.evidence == b.drafts[k].evidence && r'.confidence == if b.producer == Judge then r.confidence else b.drafts[k].confidence)
      && (!HasDraft(b, r) ==>
            r' == if b.sweepStale && r.producer == b.producer && r.gone.None? && (r.kind !in b.protectedKinds || !r.evidence.NoEvidence?)
                  then r.(gone := Some(n)) else r)
  {
    DraftedIff(b.producer, b.drafts, db.edges[e]);
    UpsertKeepsRow(db.edges, b.producer, b.drafts, b.ids, n, e);
    KeptFacts(db.edges, b.producer, b.drafts, b.ids, n, e);
    DraftedIff(b.producer, b.drafts, UpsertAll(db.edges, b.producer, b.drafts, b.ids, n)[e]);
    hide LastFor, UpsertAll;
  }

  /** A row a reconcile adds is live, starts at this build, has the key of some draft that no
      row had before, and shows the last such draft. */
  lemma ReconciledInsert(db: Db, b: LinkBatch, n: int, e: EdgeId)
    requires LegalBatch(db, b) && e !in db.edges && e in Linked(db, b, n).edges
    ensures var r := Linked(db, b, n).edges[e];
      && r.producer == b.producer && r.validFrom == n && r.gone.None? && HasDraft(b, r)
      && (forall k :: LastFor(b.producer, b.drafts, r, k) ==>
            r.evidence == b.drafts[k].evidence && (b.producer != Judge ==> r.confidence == b.drafts[k].confidence))
      && (b.producer == Judge ==> forall k :: FirstFor(b.producer, b.drafts, r, k) ==> r.confidence == b.drafts[k].confidence)
      && (forall f :: f in db.edges ==> !SameKey(db.edges[f], r))
  {
    UpsertInserts(db.edges, b.producer, b.drafts, b.ids, n, e);
    InsertedFacts(db.edges, b.producer, b.drafts, b.ids, n, e);
    DraftedIff(b.producer, b.drafts, UpsertAll(db.edges, b.producer, b.drafts, b.ids, n)[e]);
    hide LastFor, FirstFor, UpsertAll;
  }

  /** So an edge of the producer is live exactly when its key is drafted, or it was live and
      the batch spares it: no sweep, or a protected kind without evidence. */
  lemma ReconciledLiveIff(db: Db, b: LinkBatch, n: int, e: EdgeId)
    requires LegalBatch(db, b) && e in Linked(db, b, n).edges && Linked(db, b, n).edges[e].producer == b.producer
    ensures var r' := Linked(db, b, n).edges[e];
      r'.gone.None? <==>
        HasDraft(b, r') ||
        (e in db.edges && db.edges[e].gone.None? &&
         (!b.sweepStale || (db.edges[e].kind in b.protectedKinds && db.edges[e].evidence.NoEvidence?)))
    ensures Linked(db, b, n).edges[e].gone.Some? ==>
      e in db.edges && (db.edges[e].gone == Linked(db, b, n).edges[e].gone || (db.edges[e].gone.None? && Linked(db, b, n).edges[e].gone == Some(n)))
  {
    if e in db.edges {
      ReconciledRow(db, b, n, e);
      SameDrafts(b, db.edges[e], Linked(db, b, n).edges[e]);
    } else {
      ReconciledInsert(db, b, n, e);
    }
    hide LastFor, FirstFor, Linked, LegalBatch, HasDraft;
  }

  lemma SameDrafts(b: LinkBatch, r: Edge, r': Edge)
    requires r' == r.(confidence := r'.confidence, evidence := r'.evidence, gone := r'.gone)
    ensures HasDraft(b, r) <==> HasDraft(b, r')
  {
    forall k ensures DraftFor(b.producer, b.drafts, r, k) <==> DraftFor(b.producer, b.drafts, r', k) {}
    hide DraftFor;
  }

  /** Every draft has its live row. */
  lemma DraftHasLiveRow(db: Db, b: LinkBatch, n: int, k: nat) returns (e: EdgeId)
    requires LegalBatch(db, b) && k < |b.drafts|
    ensures e in Linked(db, b, n).edges
    ensures DraftFor(b.producer, b.drafts, Linked(db, b, n).edges[e], k) && Linked(db, b, n).edges[e].gone.None?
  {
    assert b.drafts[k] in b.drafts;
    e := UpsertSatisfies(db.edges, b.producer, b.drafts, b.ids, n, b.drafts[k]);
    var r := UpsertAll(db.edges, b.producer, b.drafts, b.ids, n)[e];
    assert Drafted(r, b.producer, b.drafts);
    hide UpsertAll, FreshIds;
  }

  // ------------------------------------------------------- in the finalize

  /** When the invalidation pass starts, the live linker edges are those this build drafted
      and those its batch spares, and the live judge edges likewise; edges of other
      producers are as they were. */
  lemma LinksAreCurrent(db: Db, f: FinalizeInput, n: int, e: EdgeId)
    requires LegalLinks(db, f, n) && e in AfterLinks(db, f, n).edges
    ensures var r := AfterLinks(db, f, n).edges[e];
      && (r.producer == Linker ==> (r.gone.None? <==> HasDraft(f.linker, r) || Spared(db, f.linker, e)))
      && (r.producer == Judge && f.judge.Some? ==> (r.gone.None? <==> HasDraft(f.judge.value, r) || Spared(db, f.judge.value, e)))
      && ((r.producer == Judge && f.judge.None?) || r.producer == Graphify || r.producer == AliasMiner ==> e in db.edges && r == db.edges[e])
  {
    var mid := Linked(db, f.linker, n);
    hide HasDraft, LastFor, FirstFor, Linked, LegalBatch, DraftsExist;
    Elsewhere(db, f.linker, n, e);
    if e in mid.edges && mid.edges[e].producer == Linker { ReconciledLiveIff(db, f.linker, n, e); }
    if f.judge.Some? {
      Elsewhere(mid, f.judge.value, n, e);
      if AfterLinks(db, f, n).edges[e].producer == Judge { ReconciledLiveIff(mid, f.judge.value, n, e); }
    }
  }

  /** A live row the batch does not retire although it may not draft it. */
  predicate Spared(db: Db, b: LinkBatch, e: EdgeId) {
    e in db.edges && db.edges[e].gone.None? &&
    (!b.sweepStale || (db.edges[e].kind in b.protectedKinds && db.edges[e].evidence.NoEvidence?))
  }

  /** A reconcile neither adds nor changes edges of another producer. */
  lemma Elsewhere(db: Db, b: LinkBatch, n: int, e: EdgeId)
    requires LegalBatch(db, b)
    ensures e in db.edges ==> e in Linked(db, b, n).edges && Linked(db, b, n).edges[e].producer == db.edges[e].producer
    ensures e in db.edges && db.edges[e].producer != b.producer ==> Linked(db, b, n).edges[e] == db.edges[e]
    ensures e !in db.edges && e in Linked(db, b, n).edges ==> Linked(db, b, n).edges[e].producer == b.producer
  {
    if e in db.edges {
      ReconciledRow(db, b, n, e);
    } else if e in Linked(db, b, n).edges {
      ReconciledInsert(db, b, n, e);
    }
    hide LastFor, FirstFor, Linked, LegalBatch;
  }
}
