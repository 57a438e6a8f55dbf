/** What one invalidation pass does to the registry, and what it keeps. */
module PassProperties {
  import opened Prelude
  import opened Registry
  import opened Invalidation

  // ------------------------------------------------------- row-level description

  /** The parts of a pass: where renamed identities went, and what each sweep took. */
  datatype Effect = Effect(
    vanished: set<SourceId>,
    rho: map<ArtifactId, ArtifactId>,
    deleted: set<ArtifactId>,
    superseded: set<ArtifactId>)
  {
    function Swept(): set<ArtifactId> { deleted + superseded }
    function Retired(): set<ArtifactId> { rho.Keys + deleted + superseded }
  }

  function DeletedArtifacts(db: Db, n: int, i: PassInput): set<ArtifactId>
    requires LegalInput(db, n, i)
  {
    LiveOf(db, DeletedSources(db, n, i))
  }

  function EffectOf(db: Db, n: int, i: PassInput): Effect
    requires LegalInput(db, n, i)
  {
    var ps, deleted := PassRenames(db, n, i), DeletedArtifacts(db, n, i);
    Effect(Vanished(db, i.seen, i.startedAt), Rho(ps), deleted,
           PriorGeneration(db, n, i.changed) - Olds(ps) - deleted)
  }

  /** Same identity, content, source and introduction. */
  predicate SameFact(r: Artifact, r': Artifact) {
    r' == r.(gone := r'.gone, prior := r'.prior, acl := r'.acl)
  }

  predicate RowAfter(r: Artifact, r': Artifact, retired: bool, n: int) {
    SameFact(r, r') && r'.gone == if retired then Some(n) else r.gone
  }

  predicate RenamedTo(db: Db, n: int, x: Effect, a: ArtifactId, b: ArtifactId) {
    && LiveArtifact(db, a) && db.artifacts[a].source in x.vanished
    && b in db.artifacts && db.artifacts[b].validFrom == n && db.artifacts[b].source !in x.vanished
  }

  /** Who may be retired: renamed and deleted rows belong to vanished sources,
      superseded rows to an earlier generation, and no row is taken twice. */
  ghost predicate Sound(db: Db, n: int, x: Effect) {
    RhoSound(db, n, x) && SweepsSound(db, n, x)
  }

  ghost predicate RhoSound(db: Db, n: int, x: Effect) {
    && (forall a :: a in x.rho ==> RenamedTo(db, n, x, a, x.rho[a]))
    && (forall a, b :: a in x.rho && b in x.rho && a != b ==> x.rho[a] != x.rho[b])
  }

  ghost predicate SweepsSound(db: Db, n: int, x: Effect) {
    && (forall a :: a in x.deleted ==> LiveArtifact(db, a) && db.artifacts[a].source in x.vanished)
    && (forall a :: a in x.superseded ==> LiveArtifact(db, a) && db.artifacts[a].validFrom < n)
    && x.rho.Keys !! x.deleted && (x.rho.Keys + x.deleted) !! x.superseded
  }

  /** The registry after the pass, row by row. */
  ghost predicate Applied(db: Db, n: int, x: Effect, d: Db) {
    && d.artifacts.Keys == db.artifacts.Keys
    && (forall a :: a in db.artifacts ==> RowAfter(db.artifacts[a], d.artifacts[a], a in x.Retired(), n))
    && EdgesApplied(db, n, x, d)
    && d.sources == MarkDeleted(db.sources, x.vanished)
  }

  lemma PassIsLegal(db: Db, n: int, i: PassInput)
    requires LegalInput(db, n, i)
    ensures ValidRenames(db, n, Vanished(db, i.seen, i.startedAt), PassRenames(db, n, i))
  {
    RenamesAreValid(db, n, Vanished(db, i.seen, i.startedAt), i.oldOrder, i.newOrder);
  }

  lemma RhoTargets(db: Db, n: int, x: Effect, ps: seq<Rename>)
    requires ValidRenames(db, n, x.vanished, ps) && x.rho == Rho(ps)
    ensures forall a :: a in x.rho ==> RenamedTo(db, n, x, a, x.rho[a])
    ensures forall a :: a in x.rho ==> db.artifacts[a].source in RenamedSources(db, ps)
  {
    RhoValues(ps);
    hide Rho;
    forall a | a in x.rho
      ensures RenamedTo(db, n, x, a, x.rho[a]) && db.artifacts[a].source in RenamedSources(db, ps)
    {
      var p :| p in ps && p.was == a && p.now == x.rho[a];
      assert ValidRename(db, n, x.vanished, p);
    }
  }

  /** Distinct identities are replaced by distinct identities. */
  lemma RhoInjective(ps: seq<Rename>, a: ArtifactId, b: ArtifactId)
    requires DistinctRenames(ps)
    requires a in Rho(ps) && b in Rho(ps) && Rho(ps)[a] == Rho(ps)[b]
    ensures a == b
  {
    RhoValues(ps);
    hide Rho;
    var p :| p in ps && p.was == a && p.now == Rho(ps)[a];
    var q :| q in ps && q.was == b && q.now == Rho(ps)[b];
    var k, l :| 0 <= k < |ps| && 0 <= l < |ps| && ps[k] == p && ps[l] == q;
  }

  lemma RhoIsSound(db: Db, n: int, x: Effect, ps: seq<Rename>)
    requires ValidRenames(db, n, x.vanished, ps) && x.rho == Rho(ps)
    ensures RhoSound(db, n, x)
  {
    RhoTargets(db, n, x, ps);
    forall a, b | a in x.rho && b in x.rho && a != b ensures x.rho[a] != x.rho[b] {
      if x.rho[a] == x.rho[b] { RhoInjective(ps, a, b); }
    }
  }

  lemma EffectIsSound(db: Db, n: int, i: PassInput)
    requires LegalInput(db, n, i)
    ensures Sound(db, n, EffectOf(db, n, i))
  {
    PassIsLegal(db, n, i);
    var x, ps := EffectOf(db, n, i), PassRenames(db, n, i);
    RhoIsSound(db, n, x, ps);
    RhoTargets(db, n, x, ps);
    hide RhoSound, RenamedTo, PassRenames, Rho, RenamedSources, ValidRenames, Vanished;
    assert SweepsSound(db, n, x);
  }

  // ---- stage by stage, on arbitrary tables

  lemma DeletionStage(db: Db, d1: Db, n: int, ids: set<SourceId>, olds: set<ArtifactId>)
    requires d1.artifacts.Keys == db.artifacts.Keys
    requires forall a | a in db.artifacts :: RowAfter(db.artifacts[a], d1.artifacts[a], a in olds, n)
    requires forall a | a in olds :: a in db.artifacts && db.artifacts[a].source !in ids
    ensures LiveOf(d1, ids) == LiveOf(db, ids)
    ensures DeletionSwept(d1, n, ids).artifacts.Keys == db.artifacts.Keys
    ensures forall a | a in db.artifacts ::
      RowAfter(db.artifacts[a], DeletionSwept(d1, n, ids).artifacts[a], a in olds + LiveOf(db, ids), n)
  {
    assert forall a | a in db.artifacts :: RowAfter(db.artifacts[a], d1.artifacts[a], a in olds, n);
    assert LiveOf(d1, ids) == LiveOf(db, ids);
  }

  lemma SupersessionStage(db: Db, d2: Db, n: int, changed: set<SourceId>, taken: set<ArtifactId>)
    requires d2.artifacts.Keys == db.artifacts.Keys
    requires forall a | a in db.artifacts :: RowAfter(db.artifacts[a], d2.artifacts[a], a in taken, n)
    ensures PriorGeneration(d2, n, changed) == PriorGeneration(db, n, changed) - taken
    ensures SupersessionSwept(d2, n, changed).artifacts.Keys == db.artifacts.Keys
    ensures forall a | a in db.artifacts ::
      RowAfter(db.artifacts[a], SupersessionSwept(d2, n, changed).artifacts[a],
               a in taken || a in PriorGeneration(db, n, changed), n)
  {
    forall a ensures a in PriorGeneration(d2, n, changed) <==> a in PriorGeneration(db, n, changed) - taken {
      if a in db.artifacts { assert RowAfter(db.artifacts[a], d2.artifacts[a], a in taken, n); }
    }
    forall a | a in db.artifacts
      ensures RowAfter(db.artifacts[a], SupersessionSwept(d2, n, changed).artifacts[a],
                       a in taken || a in PriorGeneration(db, n, changed), n)
    {
      assert RowAfter(db.artifacts[a], d2.artifacts[a], a in taken, n);
    }
  }

  lemma AclStage(db: Db, d3: Db, n: int, seen: set<SourceId>, taken: set<ArtifactId>)
    requires d3.artifacts.Keys == db.artifacts.Keys
    requires forall a | a in db.artifacts :: RowAfter(db.artifacts[a], d3.artifacts[a], a in taken, n)
    ensures AclPropagated(d3, seen).artifacts.Keys == db.artifacts.Keys
    ensures forall a | a in db.artifacts :: RowAfter(db.artifacts[a], AclPropagated(d3, seen).artifacts[a], a in taken, n)
  {
    forall a | a in db.artifacts
      ensures RowAfter(db.artifacts[a], AclPropagated(d3, seen).artifacts[a], a in taken, n)
    {
      assert RowAfter(db.artifacts[a], d3.artifacts[a], a in taken, n);
    }
  }

  lemma RenameStage(db: Db, n: int, i: PassInput)
    requires LegalInput(db, n, i)
    ensures var d1, olds := AfterRenames(db, n, i), Olds(PassRenames(db, n, i));
      && d1.artifacts.Keys == db.artifacts.Keys
      && (forall a | a in db.artifacts :: RowAfter(db.artifacts[a], d1.artifacts[a], a in olds, n))
      && (forall a | a in olds :: a in db.artifacts && db.artifacts[a].source !in DeletedSources(db, n, i))
      && d1.edges == (map e | e in db.edges :: RenamedEdge(db.edges[e], Rho(PassRenames(db, n, i)), n))
      && d1.sources == MarkDeleted(db.sources, RenamedSources(db, PassRenames(db, n, i)))
      && d1.generation == db.generation
  {
    var ps, vanished := PassRenames(db, n, i), Vanished(db, i.seen, i.startedAt);
    PassIsLegal(db, n, i);
    RenamedArtifactsInOneStep(db, n, vanished, ps);
    RenamedEdgesInOneStep(db, n, vanished, ps);
    RenamedSourcesInOneStep(db, n, vanished, ps);
    forall a | a in db.artifacts
      ensures RowAfter(db.artifacts[a], ApplyRenames(db, ps, n).artifacts[a], a in Olds(ps), n)
    {
      assert SameButPrior(RenamedAway(db.artifacts[a], a in Olds(ps), n), ApplyRenames(db, ps, n).artifacts[a]);
    }
    forall a | a in Olds(ps) ensures a in db.artifacts && db.artifacts[a].source !in DeletedSources(db, n, i) {
      var p :| p in ps && p.was == a;
      assert ValidRename(db, n, vanished, p);
    }
  }

  /** Every artifact keeps its identity, content, source and introduction; exactly
      the renamed, deleted and superseded rows leave, at this build's sequence. */
  lemma PassArtifacts(db: Db, n: int, i: PassInput)
    requires LegalInput(db, n, i)
    ensures InvalidationPass(db, n, i).artifacts.Keys == db.artifacts.Keys
    ensures forall a | a in db.artifacts ::
      RowAfter(db.artifacts[a], InvalidationPass(db, n, i).artifacts[a], a in EffectOf(db, n, i).Retired(), n)
  {
    RenameStage(db, n, i);
    var olds, deleted, x := Olds(PassRenames(db, n, i)), DeletedArtifacts(db, n, i), EffectOf(db, n, i);
    hide RowAfter, AfterRenames, DeletionSwept, SupersessionSwept, AclPropagated, PassRenames, DeletedSources, Olds,
         PriorGeneration, LiveOf, LegalInput, Vanished, Rho;
    DeletionStage(db, AfterRenames(db, n, i), n, DeletedSources(db, n, i), olds);
    SupersessionStage(db, AfterDeletion(db, n, i), n, i.changed, olds + deleted);
    AclStage(db, AfterSupersession(db, n, i), n, i.seen, x.Retired());
  }

  lemma SweepTwice(e: Edge, d: set<ArtifactId>, s: set<ArtifactId>, n: int)
    ensures SweptEdge(SweptEdge(e, d, n), s, n) == SweptEdge(e, d + s, n)
  {}

  lemma EdgeStages(db: Db, d1: Db, n: int, x: Effect, i: PassInput, ids: set<SourceId>)
    requires d1.edges == map e | e in db.edges :: RenamedEdge(db.edges[e], x.rho, n)
    requires LiveOf(d1, ids) == x.deleted
    requires PriorGeneration(DeletionSwept(d1, n, ids), n, i.changed) == x.superseded
    ensures var d := AclPropagated(SupersessionSwept(DeletionSwept(d1, n, ids), n, i.changed), i.seen);
      EdgesApplied(db, n, x, d)
  {
    forall e | e in db.edges {
      SweepTwice(RenamedEdge(db.edges[e], x.rho, n), x.deleted, x.superseded, n);
    }
  }

  ghost predicate EdgesApplied(db: Db, n: int, x: Effect, d: Db) {
    && d.edges.Keys == db.edges.Keys
    && (forall e :: e in db.edges ==>
          d.edges[e] == SweptEdge(RenamedEdge(db.edges[e], x.rho, n), x.Swept(), n))
  }

  /** Every edge is substituted by the renames, then swept once. */
  lemma PassEdges(db: Db, n: int, i: PassInput)
    requires LegalInput(db, n, i)
    ensures EdgesApplied(db, n, EffectOf(db, n, i), InvalidationPass(db, n, i))
  {
    RenameStage(db, n, i);
    var olds, deleted, x := Olds(PassRenames(db, n, i)), DeletedArtifacts(db, n, i), EffectOf(db, n, i);
    assert x.superseded == PriorGeneration(db, n, i.changed) - (olds + deleted);
    hide RowAfter, AfterRenames, DeletionSwept, SupersessionSwept, AclPropagated, PassRenames, DeletedSources, Olds,
         PriorGeneration, LiveOf, LegalInput, Vanished, Rho, RenamedEdge, SweptEdge, EdgesApplied;
    DeletionStage(db, AfterRenames(db, n, i), n, DeletedSources(db, n, i), olds);
    SupersessionStage(db, AfterDeletion(db, n, i), n, i.changed, olds + deleted);
    EdgeStages(db, AfterRenames(db, n, i), n, x, i, DeletedSources(db, n, i));
  }

  lemma MarkDeletedUnion(sources: map<SourceId, Source>, a: set<SourceId>, b: set<SourceId>)
    ensures MarkDeleted(MarkDeleted(sources, a), b) == MarkDeleted(sources, a + b)
  {}

  /** The pass does to the tables what its effect says, and nothing else. */
  lemma PassApplies(db: Db, n: int, i: PassInput)
    requires LegalInput(db, n, i)
    ensures Sound(db, n, EffectOf(db, n, i))
    ensures Applied(db, n, EffectOf(db, n, i), InvalidationPass(db, n, i))
    ensures |EffectOf(db, n, i).rho| == |PassRenames(db, n, i)|
  {
    EffectIsSound(db, n, i);
    PassArtifacts(db, n, i);
    PassEdges(db, n, i);
    PassSources(db, n, i);
    PassIsLegal(db, n, i);
    OldsCount(PassRenames(db, n, i));
    var rho := EffectOf(db, n, i).rho;
    assert |rho| == |rho.Keys|;
  }

  lemma PassSources(db: Db, n: int, i: PassInput)
    requires LegalInput(db, n, i)
    ensures InvalidationPass(db, n, i).sources == MarkDeleted(db.sources, Vanished(db, i.seen, i.startedAt))
  {
    RenameStage(db, n, i);
    PassIsLegal(db, n, i);
    var ps, vanished := PassRenames(db, n, i), Vanished(db, i.seen, i.startedAt);
    var renamed := RenamedSources(db, ps);
    MarkDeletedUnion(db.sources, renamed, DeletedSources(db, n, i));
    assert renamed <= vanished by {
      forall p | p in ps ensures db.artifacts[p.was].source in vanished { assert ValidRename(db, n, vanished, p); }
    }
    assert renamed + DeletedSources(db, n, i) == vanished;
  }

  lemma {:induction false} OldsCount(ps: seq<Rename>)
    requires DistinctRenames(ps)
    ensures |Olds(ps)| == |ps|
  {
    if ps != [] {
      SplitLast(ps);
      OldsCount(ps[..|ps| - 1]);
      assert ps[|ps| - 1].was !in Olds(ps[..|ps| - 1]);
    }
  }

  // ------------------------------------------------------- the past is frozen

  lemma EffectKeepsArtifact(db: Db, n: int, x: Effect, d: Db, a: ArtifactId)
    requires Sound(db, n, x) && Applied(db, n, x, d) && a in db.artifacts
    ensures d.artifacts[a].validFrom == db.artifacts[a].validFrom
    ensures SamePast(db.artifacts[a].gone, d.artifacts[a].gone, n)
  {
    assert RowAfter(db.artifacts[a], d.artifacts[a], a in x.Retired(), n);
    assert a in x.rho ==> RenamedTo(db, n, x, a, x.rho[a]);
  }

  lemma EffectKeepsEdge(db: Db, n: int, x: Effect, d: Db, e: EdgeId)
    requires Applied(db, n, x, d) && e in db.edges
    ensures d.edges[e].validFrom == db.edges[e].validFrom
    ensures SamePast(db.edges[e].gone, d.edges[e].gone, n)
  {}

  lemma EffectFreezes(db: Db, n: int, x: Effect, d: Db)
    requires Sound(db, n, x) && Applied(db, n, x, d)
    ensures Frozen(db, d, n)
  {
    assert d.artifacts.Keys == db.artifacts.Keys && d.edges.Keys == db.edges.Keys;
    forall a | a in db.artifacts { EffectKeepsArtifact(db, n, x, d, a); }
    forall e | e in db.edges { EffectKeepsEdge(db, n, x, d, e); }
    hide Sound, Applied, Frozen, SamePast;
    KeptPastIsFrozen(db, d, n);
  }

  /** No version before `n` gains or loses a member in the pass. */
  lemma PassFreezesPast(db: Db, n: int, i: PassInput)
    requires LegalInput(db, n, i)
    ensures Frozen(db, InvalidationPass(db, n, i), n)
  {
    hide InvalidationPass, Applied, Sound, PassRenames, PriorGeneration, DeletedArtifacts, LiveArtifacts, Rewritten, Frozen, FrozenEndpoints, Rho;
    PassApplies(db, n, i);
    EffectFreezes(db, n, EffectOf(db, n, i), InvalidationPass(db, n, i));
  }

  /** Edges introduced earlier whose endpoints rename detection rewrites: they
      touch a renamed artifact and do not merely join its two identities. */
  predicate RowRewritten(e: Edge, rho: map<ArtifactId, ArtifactId>) {
    e.gone.None? && (e.from in rho || e.to in rho) && (Collapses(e, rho) ==> e.from == e.to)
  }

  predicate Rewritten(db: Db, n: int, rho: map<ArtifactId, ArtifactId>, e: EdgeId) {
    e in db.edges && db.edges[e].validFrom < n && RowRewritten(db.edges[e], rho)
  }

  ghost predicate NoneRewritten(db: Db, n: int, rho: map<ArtifactId, ArtifactId>) {
    forall e :: !Rewritten(db, n, rho, e)
  }

  lemma EndpointsKeptIff(e: Edge, rho: map<ArtifactId, ArtifactId>, swept: set<ArtifactId>, n: int)
    requires forall a :: a in rho ==> rho[a] != a
    ensures var e' := SweptEdge(RenamedEdge(e, rho, n), swept, n);
      && e'.validFrom == e.validFrom && SamePast(e.gone, e'.gone, n)
      && (e'.from == e.from && e'.to == e.to <==> !RowRewritten(e, rho))
  {}

  lemma EffectEndpoints(db: Db, n: int, x: Effect, d: Db)
    requires Sound(db, n, x) && Applied(db, n, x, d)
    ensures FrozenEndpoints(db, d, n) <==> NoneRewritten(db, n, x.rho)
  {
    forall a | a in x.rho ensures x.rho[a] != a { assert RenamedTo(db, n, x, a, x.rho[a]); }
    forall e | e in db.edges
      ensures e in d.edges && d.edges[e].validFrom == db.edges[e].validFrom
      ensures SamePast(db.edges[e].gone, d.edges[e].gone, n)
      ensures d.edges[e].from == db.edges[e].from && d.edges[e].to == db.edges[e].to <==> !RowRewritten(db.edges[e], x.rho)
    {
      EndpointsKeptIff(db.edges[e], x.rho, x.Swept(), n);
    }
    hide Sound, Applied, Collapses;
    if e :| Rewritten(db, n, x.rho, e) {
      assert HasEdge(db, e, n - 1) && HasEdge(d, e, n - 1);
    } else {
      forall e, s | s < n && HasEdge(db, e, s) && HasEdge(d, e, s)
        ensures db.edges[e].from == d.edges[e].from && db.edges[e].to == d.edges[e].to
      {
        assert !Rewritten(db, n, x.rho, e);
      }
    }
  }

  /** Older versions keep the endpoints of their edges exactly when no edge
      introduced earlier is rewritten; in particular on every rename-free pass. */
  lemma PassEndpointsFrozenIff(db: Db, n: int, i: PassInput)
    requires LegalInput(db, n, i)
    ensures FrozenEndpoints(db, InvalidationPass(db, n, i), n) <==> NoneRewritten(db, n, Rho(PassRenames(db, n, i)))
  {
    hide InvalidationPass, Applied, Sound, PassRenames, PriorGeneration, DeletedArtifacts, LiveArtifacts, NoneRewritten, Frozen, FrozenEndpoints, Rho;
    PassApplies(db, n, i);
    assert EffectOf(db, n, i).rho == Rho(PassRenames(db, n, i));
    EffectEndpoints(db, n, EffectOf(db, n, i), InvalidationPass(db, n, i));
  }

  // ------------------------------------------------------- no ghost edges

  /** Rows introduced by this build have not left again. */
  ghost predicate FreshRowsLive(db: Db, n: int) {
    forall a :: a in db.artifacts && db.artifacts[a].validFrom == n ==> db.artifacts[a].gone.None?
  }

  lemma EffectLive(db: Db, n: int, x: Effect, d: Db, a: ArtifactId)
    requires Sound(db, n, x) && Applied(db, n, x, d)
    ensures LiveArtifact(d, a) <==> LiveArtifact(db, a) && a !in x.Retired()
  {
    if a in db.artifacts { assert RowAfter(db.artifacts[a], d.artifacts[a], a in x.Retired(), n); }
  }

  lemma EffectGhost(db: Db, n: int, x: Effect, d: Db, e: EdgeId)
    requires Sound(db, n, x) && Applied(db, n, x, d) && FreshRowsLive(db, n)
    requires e in db.edges
    ensures Ghost(d, e) <==> Ghost(db, e) && db.edges[e].from !in x.Swept() && db.edges[e].to !in x.Swept()
  {
    var f, t := db.edges[e].from, db.edges[e].to;
    forall a | a in x.rho
      ensures LiveArtifact(db, a) && LiveArtifact(db, x.rho[a])
      ensures x.rho[a] !in x.Retired() && a !in x.Swept()
    {
      assert RenamedTo(db, n, x, a, x.rho[a]);
      assert x.rho[a] in x.rho ==> RenamedTo(db, n, x, x.rho[a], x.rho[x.rho[a]]);
    }
    EffectLive(db, n, x, d, Target(x.rho, f));
    EffectLive(db, n, x, d, Target(x.rho, t));
  }

  /** The pass creates no ghost edge, and it removes exactly those that touch an
      artifact it sweeps. */
  lemma PassGhosts(db: Db, n: int, i: PassInput)
    requires LegalInput(db, n, i) && FreshRowsLive(db, n)
    ensures forall e :: Ghost(InvalidationPass(db, n, i), e) <==>
      Ghost(db, e) && db.edges[e].from !in EffectOf(db, n, i).Swept() && db.edges[e].to !in EffectOf(db, n, i).Swept()
  {
    PassApplies(db, n, i);
    forall e | e in db.edges {
      EffectGhost(db, n, EffectOf(db, n, i), InvalidationPass(db, n, i), e);
    }
  }

  /** If every live edge joined two live artifacts before the pass, it does after. */
  lemma PassKeepsNoGhosts(db: Db, n: int, i: PassInput)
    requires LegalInput(db, n, i) && FreshRowsLive(db, n)
    requires forall e :: !Ghost(db, e)
    ensures Ghosts(InvalidationPass(db, n, i)) == {}
  {
    PassGhosts(db, n, i);
  }

  // ------------------------------------------------------- conservation

  lemma EffectLiveSet(db: Db, n: int, x: Effect, d: Db)
    requires Sound(db, n, x) && Applied(db, n, x, d)
    ensures LiveArtifacts(d) == LiveArtifacts(db) - x.Retired()
  {
    hide Sound, Applied;
    forall a ensures a in LiveArtifacts(d) <==> a in LiveArtifacts(db) - x.Retired() {
      EffectLive(db, n, x, d, a);
    }
  }

  lemma DisjointParts<T>(live: set<T>, r: set<T>, d: set<T>, s: set<T>)
    requires r <= live && d <= live && s <= live && r !! d && (r + d) !! s
    ensures |live - (r + d + s)| == |live| - |r| - |d| - |s|
  {
    assert |r + d| == |r| + |d|;
    assert |r + d + s| == |r + d| + |s|;
    assert |live - (r + d + s)| == |live| - |r + d + s|;
  }

  lemma EffectPartsLive(db: Db, n: int, x: Effect)
    requires Sound(db, n, x)
    ensures x.rho.Keys <= LiveArtifacts(db)
    ensures x.deleted <= LiveArtifacts(db)
    ensures x.superseded <= LiveArtifacts(db)
  {
    forall a | a in x.rho ensures a in LiveArtifacts(db) { assert RenamedTo(db, n, x, a, x.rho[a]); }
    forall a | a in x.deleted ensures a in LiveArtifacts(db) {}
    forall a | a in x.superseded ensures a in LiveArtifacts(db) {}
  }

  lemma EffectConserves(db: Db, n: int, x: Effect, d: Db)
    requires Sound(db, n, x) && Applied(db, n, x, d)
    ensures |LiveArtifacts(db)| - |LiveArtifacts(d)| == |x.rho| + |x.deleted| + |x.superseded|
  {
    EffectLiveSet(db, n, x, d);
    EffectPartsLive(db, n, x);
    hide Applied, LiveArtifacts, RenamedTo;
    DisjointParts(LiveArtifacts(db), x.rho.Keys, x.deleted, x.superseded);
    assert |x.rho| == |x.rho.Keys|;
  }

  /** The drop in live artifacts is the sum of the three counts the pass reports:
      renames, artifacts of deleted sources, superseded artifacts. */
  lemma PassConserves(db: Db, n: int, i: PassInput)
    requires LegalInput(db, n, i)
    ensures var x, d := EffectOf(db, n, i), InvalidationPass(db, n, i);
      && LiveArtifacts(d) == LiveArtifacts(db) - x.Retired()
      && |LiveArtifacts(db)| - |LiveArtifacts(d)| ==
         |PassRenames(db, n, i)| + |DeletedArtifacts(db, n, i)| + |x.superseded|
  {
    hide InvalidationPass, Applied, Sound, PassRenames, PriorGeneration, DeletedArtifacts, LiveArtifacts, Rewritten, Frozen, FrozenEndpoints, Rho;
    PassApplies(db, n, i);
    EffectLiveSet(db, n, EffectOf(db, n, i), InvalidationPass(db, n, i));
    EffectConserves(db, n, EffectOf(db, n, i), InvalidationPass(db, n, i));
  }

  // ------------------------------------------------------- idempotence

  lemma WithoutNothing(g: map<string, seq<ArtifactId>>)
    ensures (map k | k in g :: Without(g[k], {})) == g
  {
    forall k | k in g ensures Without(g[k], {}) == g[k] { WithoutNone(g[k]); }
  }

  lemma {:induction false} WithoutNone(xs: seq<ArtifactId>)
    ensures Without(xs, {}) == xs
  {
    if xs != [] { WithoutNone(xs[1..]); }
  }

  lemma SweepNothing(db: Db, n: int)
    ensures SweepArtifacts(db, {}, n) == db
  {
    var d := SweepArtifacts(db, {}, n);
    assert forall e | e in db.edges :: d.edges[e] == db.edges[e];
    assert d.artifacts == db.artifacts && d.edges == db.edges;
  }

  lemma DeleteNothing(db: Db, n: int)
    ensures DeletionSwept(db, n, {}) == db
  {
    assert LiveOf(db, {}) == {};
    SweepNothing(db, n);
    WithoutNothing(db.generation);
    assert MarkDeleted(db.sources, {}) == db.sources;
  }

  lemma AclSettles(db: Db, seen: set<SourceId>)
    ensures forall a :: !AclStale(AclPropagated(db, seen), seen, a)
  {}

  lemma EmptyEnumeration(order: seq<ArtifactId>, rows: set<ArtifactId>)
    requires Enumerates(order, rows)
    ensures order == [] <==> rows == {}
  {
    if order != [] {
      assert order[0] in order;
      assert order[0] in rows;
    } else {
      assert forall a :: a !in rows;
    }
  }

  /** With no vanished source there is nothing to rename or delete. */
  lemma NothingVanished(d: Db, n: int, j: PassInput)
    requires PassOrders(d, n, j)
    requires Vanished(d, j.seen, j.startedAt) == {}
    ensures PassRenames(d, n, j) == []
    ensures AfterDeletion(d, n, j) == d && !PassClashes(d, n, j)
  {
    var none: set<SourceId> := {};
    assert OldRows(d, none) == {};
    EmptyEnumeration(j.oldOrder, {});
    assert NewRows(d, n, {}, none) == {};
    EmptyEnumeration(j.newOrder, {});
    DeleteNothing(d, n);
    hide DeletionSwept, LiveOf;
    assert DeletedSources(d, n, j) == {};
  }

  /** Once nothing is vanished, superseded or stale, the pass changes nothing. */
  lemma SettledPass(d: Db, n: int, j: PassInput)
    requires PassOrders(d, n, j)
    requires Vanished(d, j.seen, j.startedAt) == {}
    requires PriorGeneration(d, n, j.changed) == {}
    requires forall a :: !AclStale(d, j.seen, a)
    ensures InvalidationPass(d, n, j) == d && LegalInput(d, n, j)
  {
    NothingVanished(d, n, j);
    SweepNothing(d, n);
    hide AfterDeletion, SweepArtifacts, PriorGeneration, PassOrders, PassClashes;
    assert forall a | a in d.artifacts :: !AclStale(d, j.seen, a);
    assert AclPropagated(d, j.seen) == d;
  }

  lemma EffectSettles(db: Db, n: int, x: Effect, d: Db, seen: set<SourceId>, changed: set<SourceId>, startedAt: int)
    requires Sound(db, n, x) && Applied(db, n, x, d)
    requires x.vanished == Vanished(db, seen, startedAt)
    requires x.superseded == PriorGeneration(db, n, changed) - x.rho.Keys - x.deleted
    ensures Vanished(d, seen, startedAt) == {}
    ensures PriorGeneration(d, n, changed) == {}
  {
    assert Vanished(d, seen, startedAt) == {} by { hide Sound, EdgesApplied; }
    forall a ensures a !in PriorGeneration(d, n, changed) {
      if a in d.artifacts {
        assert RowAfter(db.artifacts[a], d.artifacts[a], a in x.Retired(), n);
        EffectLive(db, n, x, d, a);
      }
    }
  }

  /** A second pass at the same sequence with the same inputs runs to its end and changes
      no row, whatever order its rows arrive in. */
  lemma PassIsIdempotent(db: Db, n: int, i: PassInput, j: PassInput)
    requires LegalInput(db, n, i)
    requires PassOrders(InvalidationPass(db, n, i), n, j)
    requires j.seen == i.seen && j.changed == i.changed && j.startedAt == i.startedAt
    ensures InvalidationPass(InvalidationPass(db, n, i), n, j) == InvalidationPass(db, n, i)
    ensures LegalInput(InvalidationPass(db, n, i), n, j)
  {
    AclSettles(AfterSupersession(db, n, i), i.seen);
    PassApplies(db, n, i);
    var d, x := InvalidationPass(db, n, i), EffectOf(db, n, i);
    hide AclStale, LegalInput, PassOrders, Sound, Applied, Vanished, PriorGeneration, PassRenames, DeletedArtifacts, AfterSupersession;
    EffectSettles(db, n, x, d, i.seen, i.changed, i.startedAt);
    assert forall a :: !AclStale(d, j.seen, a);
    hide InvalidationPass;
    SettledPass(d, n, j);
  }

  // ------------------------------------------------------- partially renamed sources

  /** Live artifacts of a source that rename detection took out of the deletion
      sweep, but did not match themselves. */
  function Leftovers(db: Db, n: int, i: PassInput): set<ArtifactId>
    requires LegalInput(db, n, i)
  {
    LiveOf(db, RenamedSources(db, PassRenames(db, n, i))) - Olds(PassRenames(db, n, i))
  }

  lemma EffectLeftovers(db: Db, n: int, x: Effect, d: Db, renamed: set<SourceId>)
    requires Sound(db, n, x) && Applied(db, n, x, d)
    requires renamed <= x.vanished && x.deleted == LiveOf(db, x.vanished - renamed)
    requires forall a :: a in x.superseded ==> db.artifacts[a].source !in x.vanished
    ensures LiveOf(d, x.vanished) == LiveOf(db, renamed) - x.rho.Keys
  {
    forall a ensures a in LiveOf(d, x.vanished) <==> a in LiveOf(db, renamed) - x.rho.Keys {
      EffectLive(db, n, x, d, a);
      assert a in db.artifacts ==> RowAfter(db.artifacts[a], d.artifacts[a], a in x.Retired(), n);
    }
  }

  /** A vanished source keeps a live artifact exactly when it was renamed away and
      that artifact was not matched: nothing else escapes both passes. */
  lemma VanishedSourcesKeepLeftovers(db: Db, n: int, i: PassInput)
    requires LegalInput(db, n, i)
    requires i.changed <= i.seen
    ensures LiveOf(InvalidationPass(db, n, i), Vanished(db, i.seen, i.startedAt)) == Leftovers(db, n, i)
  {
    var d, x, ps := InvalidationPass(db, n, i), EffectOf(db, n, i), PassRenames(db, n, i);
    PassApplies(db, n, i);
    PassIsLegal(db, n, i);
    assert forall a :: a in x.superseded ==> db.artifacts[a].source in i.changed;
    assert x.deleted == LiveOf(db, x.vanished - RenamedSources(db, ps));
    hide InvalidationPass, PassRenames, Applied, Sound, Rho, LegalInput, PriorGeneration, LiveOf;
    assert RenamedSources(db, ps) <= x.vanished by {
      forall p | p in ps ensures db.artifacts[p.was].source in x.vanished { assert ValidRename(db, n, x.vanished, p); }
    }
    hide RenamedSources, ValidRenames, Olds;
    EffectLeftovers(db, n, x, d, RenamedSources(db, ps));
  }
}
