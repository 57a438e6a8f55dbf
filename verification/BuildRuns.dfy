/** What every run of the build engine keeps. */
module BuildRuns {
  import opened Prelude
  import opened Registry
  import opened Invalidation
  import opened PassProperties
  import opened LinkEdges
  import opened AliasReplay
  import opened AliasIndex
  import opened AliasOutcome
  import opened AliasLedger
  import opened BuildMachine
  import R = AliasRows
  import E = AliasEdges
  import G = AliasAggregates

  // ------------------------------------------------------- the alias index across a finalize

  /** One live row per phrase, and evidence the next build can replay. */
  ghost predicate SoundIndex(rows: R.Rows, mine: Miner) {
    R.OneLivePerTitle(rows) && LedgerClean(rows) && Watermarked(LiveItems(rows), mine)
  }

  /** After the sweeps, what the miner loads is what was live before them. */
  lemma LoadableIsWhatWasLive(db: Db, n: int, x: Effect, d: Db, a: ArtifactId)
    requires Applied(db, n, x, d) && Sound(db, n, x) && NoArtifactLeft(db, n) && a in db.artifacts
    ensures a in d.artifacts && d.artifacts[a].title == db.artifacts[a].title && d.artifacts[a].body == db.artifacts[a].body
    ensures Loadable(d.artifacts[a], n) <==> db.artifacts[a].kind == AliasReference && db.artifacts[a].gone.None?
    ensures LiveAlias(d.artifacts[a]) ==> LiveAlias(db.artifacts[a])
  {
    assert RowAfter(db.artifacts[a], d.artifacts[a], a in x.Retired(), n);
    assert a in x.rho ==> RenamedTo(db, n, x, a, x.rho[a]);
  }

  lemma EffectKeepsIndex(db: Db, n: int, x: Effect, d: Db, mine: Miner)
    requires Applied(db, n, x, d) && Sound(db, n, x) && NoArtifactLeft(db, n) && SoundIndex(db.artifacts, mine)
    ensures Replayable(d.artifacts, n, mine) && LedgerClean(d.artifacts)
  {
    assert d.artifacts.Keys == db.artifacts.Keys;
    forall a | a in db.artifacts { LoadableIsWhatWasLive(db, n, x, d, a); }
    hide Applied, Sound, NoArtifactLeft, Watermarked, Loadable;
    forall a, b, t | LoadableTitled(d.artifacts, n, a, t) && LoadableTitled(d.artifacts, n, b, t) ensures a == b {
      assert R.LiveTitled(db.artifacts, a, t) && R.LiveTitled(db.artifacts, b, t);
    }
    assert Stored(d.artifacts, n) == LiveItems(db.artifacts);
  }

  lemma PassKeepsIndex(db: Db, b: Db, n: int, i: PassInput, mine: Miner)
    requires LegalInput(b, n, i) && NothingLeft(db, n) && b.artifacts == db.artifacts && SoundIndex(db.artifacts, mine)
    ensures Replayable(InvalidationPass(b, n, i).artifacts, n, mine) && LedgerClean(InvalidationPass(b, n, i).artifacts)
  {
    PassApplies(b, n, i);
    assert NoArtifactLeft(b, n);
    hide *;
    EffectKeepsIndex(b, n, EffectOf(b, n, i), InvalidationPass(b, n, i), mine);
  }

  /** At every finalize the aggregates computed with replay are those of mining
      every live source afresh, and the index stays fit for the next build. */
  lemma FinalizeKeepsIndex(db: Db, f: FinalizeInput, rules: Rules, n: int)
    requires LegalFinalize(db, f, rules, n) && NothingLeft(db, n) && SoundIndex(db.artifacts, rules.mine)
    ensures StageContributions(AfterPass(db, f, n).artifacts, f.alias, f.choice, rules, n) ==
            FreshContributions(f.alias.inputs, rules.mine)
    ensures SoundIndex(Finalized(db, f, rules, n).artifacts, rules.mine)
    ensures LedgerOutcome(AfterAlias(db, f, rules, n).artifacts, Finalized(db, f, rules, n).artifacts, f.misses, n)
    ensures RowsOutcome(AfterPass(db, f, n).artifacts, AfterAlias(db, f, rules, n).artifacts,
                        StageAliasIds(AfterPass(db, f, n), f.alias, f.choice, rules, n),
                        FreshContributions(f.alias.inputs, rules.mine), n)
  {
    var b, c, d := AfterLinks(db, f, n), AfterPass(db, f, n), AfterAlias(db, f, rules, n);
    LinksStamp(db, f, n);
    PassKeepsIndex(db, b, n, f.pass, rules.mine);
    assert c == InvalidationPass(b, n, f.pass);
    StageKeepsWatermark(c, f.alias, f.choice, rules, n);
    StageOneLive(c, f.alias, f.choice, rules, n);
    assert d == AliasStage(c, f.alias, f.choice, rules, n);
    assert Finalized(db, f, rules, n).artifacts == LedgerRows(d.artifacts, f.ledgerOrder, f.misses, f.ledgerIds, n);
    LedgerStageOutcome(d.artifacts, f.ledgerOrder, f.misses, f.ledgerIds, n);
    hide *;
    LedgerKeepsWatermark(d.artifacts, Finalized(db, f, rules, n).artifacts, f.misses, n, rules.mine);
    OutcomeOneLive(d.artifacts, Finalized(db, f, rules, n).artifacts, f.misses, n);
    SoundIndexIs(Finalized(db, f, rules, n).artifacts, rules.mine);
  }

  lemma OutcomeOneLive(rows: R.Rows, out: R.Rows, groups: seq<MissGroup>, n: int)
    requires LedgerOutcome(rows, out, groups, n)
    ensures R.OneLivePerTitle(out)
  {}

  lemma SoundIndexIs(rows: R.Rows, mine: Miner)
    requires R.OneLivePerTitle(rows) && LedgerClean(rows) && Watermarked(LiveItems(rows), mine)
    ensures SoundIndex(rows, mine)
  {}

  // ------------------------------------------------------- ghost edges across a finalize

  ghost predicate GhostFree(db: Db) {
    forall e :: !Ghost(db, e)
  }

  /** Every edge the linker and the judge draft joins two live artifacts. */
  ghost predicate DraftsJoinLive(db: Db, f: FinalizeInput) {
    && (forall d :: d in f.linker.drafts ==> JoinsLive(db, d))
    && (f.judge.Some? ==> forall d :: d in f.judge.value.drafts ==> JoinsLive(db, d))
  }

  lemma SequencedFreshRows(db: Db, n: int)
    requires Sequenced(db, n) && NoArtifactLeft(db, n)
    ensures FreshRowsLive(db, n)
  {
    forall a | a in db.artifacts && db.artifacts[a].validFrom == n ensures db.artifacts[a].gone.None? {
      assert InOrder(db.artifacts[a].validFrom, db.artifacts[a].gone, n);
    }
  }

  /** From a ghost-free registry, linker and judge leave it ghost-free exactly when
      every draft joins two live artifacts. */
  lemma LinksGhostFreeIff(db: Db, f: FinalizeInput, n: int)
    requires LegalLinks(db, f, n) && GhostFree(db)
    ensures GhostFree(AfterLinks(db, f, n)) <==> DraftsJoinLive(db, f)
  {
    var mid := Linked(db, f.linker, n);
    LinkedNoGhostsIff(db, f.linker, n);
    LinkedStamps(db, f.linker, n);
    if f.judge.Some? {
      if GhostFree(mid) {
        LinkedNoGhostsIff(mid, f.judge.value, n);
      } else {
        LinkerGhostStays(db, f, n);
      }
    }
  }

  /** The judge does not repair an edge of the linker. */
  lemma LinkerGhostStays(db: Db, f: FinalizeInput, n: int)
    requires LegalLinks(db, f, n) && f.judge.Some? && GhostFree(db) && !GhostFree(Linked(db, f.linker, n))
    ensures !GhostFree(AfterLinks(db, f, n))
  {
    var mid := Linked(db, f.linker, n);
    LinkedStamps(db, f.linker, n);
    var e :| Ghost(mid, e);
    assert !Ghost(db, e);
    assert mid.edges[e].producer == Linker by {
      if e in db.edges {
        if db.edges[e].producer != Linker {
          OtherProducersLeft(db, f.linker, n, e);
        }
        LinkEdges.LinkedRow(db, f.linker, n, e);
      } else {
        LinkedInsert(db, f.linker, n, e);
      }
    }
    OtherProducersLeft(mid, f.judge.value, n, e);
    LinkedStamps(mid, f.judge.value, n);
    assert Ghost(AfterLinks(db, f, n), e);
  }

  lemma StageEdgeKept(db: Db, i: AliasInput, c: AliasChoice, rules: Rules, n: int, e: EdgeId)
    requires LegalChoice(db, i, c, rules, n)
    ensures var d := AliasStage(db, i, c, rules, n);
      && (e in db.edges && !E.Owned(db.edges[e]) ==> e in d.edges && d.edges[e] == db.edges[e])
      && (e in d.edges && !E.Owned(d.edges[e]) ==> e in db.edges && d.edges[e] == db.edges[e])
  {
    var pairs := StagePairs(db, i, c, rules, n);
    assert E.LegalEdges(db.edges, pairs, c.edgeOrder, c.missing, c.edgeIds, n);
    assert AliasStage(db, i, c, rules, n).edges == E.Reconciled(db.edges, pairs, c.edgeOrder, c.missing, c.edgeIds, n);
    hide *;
    E.EdgesKeepPast(db.edges, pairs, c.edgeOrder, c.missing, c.edgeIds, n, e);
  }

  /** After both alias passes: one live row per phrase, and the live miner edges are in
      bijection with the pairs computed from mining every live source afresh, each
      between live endpoints with confidence in (0, 1]. */
  lemma FinalizedAliasIndex(db: Db, f: FinalizeInput, rules: Rules, n: int)
    requires LegalFinalize(db, f, rules, n) && NothingLeft(db, n) && SoundIndex(db.artifacts, rules.mine)
    requires G.TidyMiner(rules.mine) && G.IsRanking(rules.rank)
    ensures var fin, pairs := Finalized(db, f, rules, n), StagePairs(AfterPass(db, f, n), f.alias, f.choice, rules, n);
      && R.OneLivePerTitle(fin.artifacts)
      && E.InBijection(fin.edges, pairs)
      && pairs == G.DesiredEdges(G.Aggregates(FreshContributions(f.alias.inputs, rules.mine), f.choice.phraseOrder, rules.rank),
                                 StageAliasIds(AfterPass(db, f, n), f.alias, f.choice, rules, n), f.alias.paths)
      && (forall e :: E.LiveOwned(fin.edges, e) ==> SoundEdge(fin, fin.edges[e]))
  {
    var c, d, fin := AfterPass(db, f, n), AfterAlias(db, f, rules, n), Finalized(db, f, rules, n);
    FinalizeKeepsIndex(db, f, rules, n);
    assert LegalChoice(c, f.alias, f.choice, rules, n) && d == AliasStage(c, f.alias, f.choice, rules, n);
    assert fin.edges == d.edges;
    PairsFromFresh(c, f.alias, f.choice, rules, n);
    hide *;
    StageEdgesAreExact(c, f.alias, f.choice, rules, n);
    OutcomeOneLive(d.artifacts, fin.artifacts, f.misses, n);
    forall e | E.LiveOwned(fin.edges, e) ensures SoundEdge(fin, fin.edges[e]) {
      LiveOwnedIsThere(d.edges, e);
      StageEdgeIsSound(c, f.alias, f.choice, rules, n, e);
      SoundEdgeKept(d, fin, d.edges[e], f.misses, n);
    }
  }

  lemma LiveOwnedIsThere(edges: E.Edges, e: EdgeId)
    requires E.LiveOwned(edges, e)
    ensures e in edges
  {}

  lemma PairsFromFresh(c: Db, i: AliasInput, choice: AliasChoice, rules: Rules, n: int)
    requires LegalChoice(c, i, choice, rules, n)
    requires StageContributions(c.artifacts, i, choice, rules, n) == FreshContributions(i.inputs, rules.mine)
    ensures StagePairs(c, i, choice, rules, n) ==
            G.DesiredEdges(G.Aggregates(FreshContributions(i.inputs, rules.mine), choice.phraseOrder, rules.rank),
                           StageAliasIds(c, i, choice, rules, n), i.paths)
  {}

  lemma SoundEdgeKept(d: Db, fin: Db, e: Edge, groups: seq<MissGroup>, n: int)
    requires SoundEdge(d, e) && LedgerOutcome(d.artifacts, fin.artifacts, groups, n)
    ensures SoundEdge(fin, e)
  {
    assert R.LiveTitled(d.artifacts, e.from, d.artifacts[e.from].title.value);
    assert R.OnlyAliases(d.artifacts, fin.artifacts);
  }

  // ------------------------------------------------------- endpoints across a finalize

  /** No earlier edge is rewritten by a rename of this build. */
  ghost predicate RewritesNothing(db: Db, f: FinalizeInput, n: int)
    requires LegalPass(db, f, n)
  {
    NoneRewritten(AfterLinks(db, f, n), n, Rho(PassRenames(AfterLinks(db, f, n), n, f.pass)))
  }

  ghost predicate SameEndpoints(a: Db, b: Db) {
    forall e :: e in a.edges ==> e in b.edges && b.edges[e].from == a.edges[e].from && b.edges[e].to == a.edges[e].to
  }

  lemma EndpointsTransfer(a: Db, b: Db, c: Db, d: Db, n: int)
    requires Frozen(a, b, n) && Frozen(b, c, n) && Frozen(c, d, n) && SameEndpoints(a, b) && SameEndpoints(c, d)
    ensures FrozenEndpoints(a, d, n) <==> FrozenEndpoints(b, c, n)
  {
    forall e, s | s < n
      ensures HasEdge(a, e, s) == HasEdge(b, e, s) == HasEdge(c, e, s) == HasEdge(d, e, s)
    {}
    hide Frozen;
    if !FrozenEndpoints(b, c, n) {
      var e, s :| s < n && HasEdge(b, e, s) && HasEdge(c, e, s) &&
        !(b.edges[e].from == c.edges[e].from && b.edges[e].to == c.edges[e].to);
      assert HasEdge(a, e, s) && HasEdge(d, e, s);
    }
    if !FrozenEndpoints(a, d, n) {
      var e, s :| s < n && HasEdge(a, e, s) && HasEdge(d, e, s) &&
        !(a.edges[e].from == d.edges[e].from && a.edges[e].to == d.edges[e].to);
      assert HasEdge(b, e, s) && HasEdge(c, e, s);
    }
  }

  lemma LinksKeepEndpoints(db: Db, f: FinalizeInput, n: int)
    requires LegalLinks(db, f, n)
    ensures SameEndpoints(db, AfterLinks(db, f, n))
  {
    var mid := Linked(db, f.linker, n);
    forall e | e in db.edges
      ensures e in AfterLinks(db, f, n).edges
      ensures AfterLinks(db, f, n).edges[e].from == db.edges[e].from && AfterLinks(db, f, n).edges[e].to == db.edges[e].to
    {
      LinkEdges.LinkedRow(db, f.linker, n, e);
      if f.judge.Some? { LinkEdges.LinkedRow(mid, f.judge.value, n, e); }
    }
  }

  /** A finalize that revives nothing also keeps the endpoints older versions see,
      exactly when its renames rewrite no earlier edge. */
  lemma FinalizeEndpointsIff(db: Db, f: FinalizeInput, rules: Rules, n: int)
    requires LegalFinalize(db, f, rules, n) && Sequenced(db, n) && RevivesNothing(db, f, n)
    ensures FrozenEndpoints(db, Finalized(db, f, rules, n), n) <==> RewritesNothing(db, f, n)
  {
    var b, c, fin := AfterLinks(db, f, n), AfterPass(db, f, n), Finalized(db, f, rules, n);
    LinksFreezeIff(db, f, n);
    LinksKeepEndpoints(db, f, n);
    PassKeepsEndpoints(db, f, n);
    AliasPassesKeepEndpoints(db, f, rules, n);
    hide *;
    EndpointsTransfer(db, b, c, fin, n);
  }

  lemma PassKeepsEndpoints(db: Db, f: FinalizeInput, n: int)
    requires LegalPass(db, f, n)
    ensures Frozen(AfterLinks(db, f, n), AfterPass(db, f, n), n)
    ensures FrozenEndpoints(AfterLinks(db, f, n), AfterPass(db, f, n), n) <==> RewritesNothing(db, f, n)
  {
    var b := AfterLinks(db, f, n);
    var rho := Rho(PassRenames(b, n, f.pass));
    assert AfterPass(db, f, n) == InvalidationPass(b, n, f.pass);
    assert RewritesNothing(db, f, n) <==> NoneRewritten(b, n, rho);
    assert LegalInput(b, n, f.pass);
    hide *;
    PassFreezesPast(b, n, f.pass);
    PassEndpointsFrozenIff(b, n, f.pass);
  }

  lemma AliasPassesKeepEndpoints(db: Db, f: FinalizeInput, rules: Rules, n: int)
    requires LegalFinalize(db, f, rules, n)
    ensures Frozen(AfterPass(db, f, n), Finalized(db, f, rules, n), n)
    ensures SameEndpoints(AfterPass(db, f, n), Finalized(db, f, rules, n))
  {
    var c, d, fin := AfterPass(db, f, n), AfterAlias(db, f, rules, n), Finalized(db, f, rules, n);
    assert fin.edges == d.edges;
    assert LegalChoice(c, f.alias, f.choice, rules, n) && d == AliasStage(c, f.alias, f.choice, rules, n);
    assert LegalLedger(d.artifacts, f.ledgerOrder, f.misses, f.ledgerIds);
    assert fin == LedgerStage(d, f.ledgerOrder, f.misses, f.ledgerIds, n);
    hide *;
    EdgesKeepPastAll(c, f.alias, f.choice, rules, n);
    StageFreezesPast(c, f.alias, f.choice, rules, n);
    StageOneLive(c, f.alias, f.choice, rules, n);
    LedgerFreezesPast(d, f.ledgerOrder, f.misses, f.ledgerIds, n);
    FrozenTransitive(c, d, fin, n);
    KeptEndpoints(c, d, fin, n);
  }

  lemma KeptEndpoints(c: Db, d: Db, fin: Db, n: int)
    requires EdgesKeep(c.edges, d.edges, n) && fin.edges == d.edges
    ensures SameEndpoints(c, fin)
  {
    forall e | e in c.edges ensures e in d.edges && E.PairOf(d.edges[e]) == E.PairOf(c.edges[e]) {}
  }
}
