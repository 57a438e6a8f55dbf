/** Ghost edges: exactly when a finalize leaves a live edge with a dead endpoint, and
    exactly which runs never have one. */
module GhostRuns {
  import opened Prelude
  import opened Registry
  import opened Invalidation
  import opened PassProperties
  import opened AliasReplay
  import opened AliasIndex
  import opened AliasOutcome
  import opened AliasLedger
  import opened AliasFate
  import opened BuildMachine
  import opened BuildRuns
  import opened FinalizeKeys
  import opened Engine
  import R = AliasRows
  import E = AliasEdges
  import G = AliasAggregates

  // ------------------------------------------------------- the fate of every row

  function MinedPhrases(f: FinalizeInput, rules: Rules): set<string> {
    G.PhrasesOf(FreshContributions(f.alias.inputs, rules.mine))
  }

  /** The row exists before the alias passes, and they keep it live. */
  ghost predicate EndSurvives(c: Db, phrases: set<string>, groups: seq<MissGroup>, n: int, a: ArtifactId) {
    a in c.artifacts && Survives(c.artifacts[a], phrases, groups, n)
  }

  /** A row is live after a finalize exactly when it is no alias row and the pass left it
      live, or its title is a mined phrase, or it is a ledger row whose miss resolves. */
  lemma FinalizeFate(db: Db, f: FinalizeInput, rules: Rules, n: int, a: ArtifactId)
    requires LegalFinalize(db, f, rules, n) && NothingLeft(db, n) && SoundIndex(db.artifacts, rules.mine)
    requires a in AfterPass(db, f, n).artifacts
    ensures LiveArtifact(Finalized(db, f, rules, n), a) <==>
            EndSurvives(AfterPass(db, f, n), MinedPhrases(f, rules), f.misses, n, a)
  {
    var b, c, d, fin := AfterLinks(db, f, n), AfterPass(db, f, n), AfterAlias(db, f, rules, n), Finalized(db, f, rules, n);
    LinksStamp(db, f, n);
    PassKeepsIndex(db, b, n, f.pass, rules.mine);
    FinalizeKeepsIndex(db, f, rules, n);
    assert c == InvalidationPass(b, n, f.pass) && Replayable(c.artifacts, n, rules.mine) && OneLoadablePerTitle(c.artifacts, n);
    assert LegalChoice(c, f.alias, f.choice, rules, n) && d == AliasStage(c, f.alias, f.choice, rules, n);
    assert LegalLedger(d.artifacts, f.ledgerOrder, f.misses, f.ledgerIds);
    assert fin.artifacts == LedgerRows(d.artifacts, f.ledgerOrder, f.misses, f.ledgerIds, n);
    hide *;
    StageOneLive(c, f.alias, f.choice, rules, n);
    MinerFate(c, f.alias, f.choice, rules, n, a);
    LedgerFate(d.artifacts, f.ledgerOrder, f.misses, f.ledgerIds, n, a);
    BothFates(c.artifacts[a], d.artifacts[a], G.PhrasesOf(FreshContributions(f.alias.inputs, rules.mine)), f.misses, n);
    FateIs(c, fin, f, rules, n, a);
  }

  lemma FateIs(c: Db, fin: Db, f: FinalizeInput, rules: Rules, n: int, a: ArtifactId)
    requires a in c.artifacts && a in fin.artifacts
    ensures LiveArtifact(fin, a) <==> fin.artifacts[a].gone.None?
    ensures EndSurvives(c, MinedPhrases(f, rules), f.misses, n, a) <==>
            Survives(c.artifacts[a], G.PhrasesOf(FreshContributions(f.alias.inputs, rules.mine)), f.misses, n)
  {
    hide Survives;
  }

  // ------------------------------------------------------- one finalize

  /** A live edge of another producer, one end of which does not survive. */
  ghost predicate Stranded(c: Db, phrases: set<string>, groups: seq<MissGroup>, n: int, e: EdgeId) {
    && LiveEdge(c, e) && !E.Owned(c.edges[e])
    && !(EndSurvives(c, phrases, groups, n, c.edges[e].from) && EndSurvives(c, phrases, groups, n, c.edges[e].to))
  }

  /** No live edge the pass leaves hangs on a row the alias passes will not keep. */
  ghost predicate StrandsNothing(db: Db, f: FinalizeInput, rules: Rules, n: int)
    requires LegalPass(db, f, n)
  {
    forall e :: !Stranded(AfterPass(db, f, n), MinedPhrases(f, rules), f.misses, n, e)
  }

  /** An edge is a ghost after the finalize exactly when it was stranded before the alias
      passes: decided by the rows they are given, the mined phrases and the misses. */
  lemma AliasPassGhosts(db: Db, f: FinalizeInput, rules: Rules, n: int, e: EdgeId)
    requires LegalFinalize(db, f, rules, n) && NothingLeft(db, n) && SoundIndex(db.artifacts, rules.mine)
    requires G.TidyMiner(rules.mine) && G.IsRanking(rules.rank) && KeysSound(db)
    ensures Ghost(Finalized(db, f, rules, n), e) <==>
            Stranded(AfterPass(db, f, n), MinedPhrases(f, rules), f.misses, n, e)
  {
    var c, d, fin := AfterPass(db, f, n), AfterAlias(db, f, rules, n), Finalized(db, f, rules, n);
    FinalizeKeepsIndex(db, f, rules, n);
    FinalizeKeepsKeys(db, f, rules, n);
    assert LegalChoice(c, f.alias, f.choice, rules, n) && d == AliasStage(c, f.alias, f.choice, rules, n);
    assert fin.edges == d.edges;
    assert EndsExist(c);
    hide *;
    StageEdgeKept(c, f.alias, f.choice, rules, n, e);
    if E.LiveOwned(d.edges, e) {
      StageEdgeIsSound(c, f.alias, f.choice, rules, n, e);
      SoundEdgeKept(d, fin, d.edges[e], f.misses, n);
    }
    EdgeEnds(c, e);
    if e in c.edges && !E.Owned(c.edges[e]) {
      FinalizeFate(db, f, rules, n, c.edges[e].from);
      FinalizeFate(db, f, rules, n, c.edges[e].to);
    }
    GhostIffStranded(c, fin, MinedPhrases(f, rules), f.misses, n, e);
  }

  lemma EdgeEnds(c: Db, e: EdgeId)
    requires EndsExist(c)
    ensures e in c.edges && !E.Owned(c.edges[e]) ==> c.edges[e].from in c.artifacts && c.edges[e].to in c.artifacts
  {
    assert e in c.edges && !E.Owned(c.edges[e]) ==> EndsIn(c, c.edges[e]);
  }

  lemma GhostIffStranded(c: Db, fin: Db, phrases: set<string>, groups: seq<MissGroup>, n: int, e: EdgeId)
    requires e in c.edges && !E.Owned(c.edges[e]) ==> e in fin.edges && fin.edges[e] == c.edges[e]
    requires e in fin.edges && !E.Owned(fin.edges[e]) ==> e in c.edges && fin.edges[e] == c.edges[e]
    requires E.LiveOwned(fin.edges, e) ==> LiveArtifact(fin, fin.edges[e].from) && LiveArtifact(fin, fin.edges[e].to)
    requires e in c.edges && !E.Owned(c.edges[e]) ==>
      (LiveArtifact(fin, c.edges[e].from) <==> EndSurvives(c, phrases, groups, n, c.edges[e].from)) &&
      (LiveArtifact(fin, c.edges[e].to) <==> EndSurvives(c, phrases, groups, n, c.edges[e].to))
    ensures Ghost(fin, e) <==> Stranded(c, phrases, groups, n, e)
  {
    hide EndSurvives;
  }

  /** A finalize leaves no ghost edge exactly when it strands nothing. */
  lemma FinalizeGhostFreeIff(db: Db, f: FinalizeInput, rules: Rules, n: int)
    requires LegalFinalize(db, f, rules, n) && NothingLeft(db, n) && SoundIndex(db.artifacts, rules.mine)
    requires G.TidyMiner(rules.mine) && G.IsRanking(rules.rank) && KeysSound(db)
    ensures GhostFree(Finalized(db, f, rules, n)) <==> StrandsNothing(db, f, rules, n)
  {
    forall e { AliasPassGhosts(db, f, rules, n, e); }
    hide LegalFinalize, Finalized, AfterPass, Stranded, Ghost, SoundIndex, KeysSound, NothingLeft;
  }

  /** The title of an alias row is a mined phrase, or the row is a ledger row whose miss
      resolves. */
  ghost predicate TitleSurvives(row: Artifact, phrases: set<string>, groups: seq<MissGroup>) {
    row.kind == AliasReference && row.title.Some? ==>
      row.title.value in phrases || (R.LedgerOwned(row) && Resolves(groups, row.title.value))
  }

  ghost predicate TitlesSurvive(c: Db, phrases: set<string>, groups: seq<MissGroup>) {
    forall e :: LiveEdge(c, e) && !E.Owned(c.edges[e]) ==> EndTitle(c, phrases, groups, c.edges[e].from) && EndTitle(c, phrases, groups, c.edges[e].to)
  }

  ghost predicate EndTitle(c: Db, phrases: set<string>, groups: seq<MissGroup>, a: ArtifactId) {
    a in c.artifacts ==> TitleSurvives(c.artifacts[a], phrases, groups)
  }

  /** From a ghost-free registry, with drafts that join live artifacts, only titles count:
      no ghost is left exactly when every live edge of another producer ends, where it
      ends on an alias row, on a title that is still mined or still resolves. */
  lemma FinalizeGhostFreeByTitles(db: Db, f: FinalizeInput, rules: Rules, n: int)
    requires LegalFinalize(db, f, rules, n) && NothingLeft(db, n) && SoundIndex(db.artifacts, rules.mine)
    requires G.TidyMiner(rules.mine) && G.IsRanking(rules.rank) && KeysSound(db)
    requires Sequenced(db, n) && GhostFree(db) && DraftsJoinLive(db, f)
    ensures GhostFree(AfterPass(db, f, n))
    ensures GhostFree(Finalized(db, f, rules, n)) <==> TitlesSurvive(AfterPass(db, f, n), MinedPhrases(f, rules), f.misses)
  {
    hide LegalFinalize, Finalized, AfterPass, MinedPhrases, SoundIndex, NothingLeft, KeysSound, Sequenced, DraftsJoinLive;
    FinalizeGhostFreeIff(db, f, rules, n);
    assert LegalPass(db, f, n) by { FinalizeRunsPass(db, f, rules, n); }
    hide LegalPass;
    PassIsGhostFree(db, f, n);
    OnlyTitlesCount(AfterPass(db, f, n), MinedPhrases(f, rules), f.misses, n);
  }

  lemma FinalizeRunsPass(db: Db, f: FinalizeInput, rules: Rules, n: int)
    requires LegalFinalize(db, f, rules, n)
    ensures LegalPass(db, f, n)
  {}

  lemma OnlyTitlesCount(c: Db, phrases: set<string>, groups: seq<MissGroup>, n: int)
    requires GhostFree(c)
    ensures (forall e :: !Stranded(c, phrases, groups, n, e)) <==> TitlesSurvive(c, phrases, groups)
  {
    forall e ensures Stranded(c, phrases, groups, n, e) <==>
      LiveEdge(c, e) && !E.Owned(c.edges[e]) &&
      !(EndTitle(c, phrases, groups, c.edges[e].from) && EndTitle(c, phrases, groups, c.edges[e].to))
    {
      assert !Ghost(c, e);
      hide Resolves;
    }
    hide Stranded, EndTitle;
  }

  lemma PassIsGhostFree(db: Db, f: FinalizeInput, n: int)
    requires LegalPass(db, f, n) && NothingLeft(db, n) && Sequenced(db, n) && GhostFree(db) && DraftsJoinLive(db, f)
    ensures GhostFree(AfterPass(db, f, n))
  {
    var b, c := AfterLinks(db, f, n), AfterPass(db, f, n);
    LinksGhostFreeIff(db, f, n);
    LinksStamp(db, f, n);
    SequencedFreshRows(db, n);
    assert NoArtifactLeft(db, n) && FreshRowsLive(b, n);
    assert c == InvalidationPass(b, n, f.pass);
    PassKeepsNoGhosts(b, n, f.pass);
    hide InvalidationPass, AfterLinks, LegalPass, AfterPass;
    forall e ensures !Ghost(c, e) { assert e !in Ghosts(c); }
  }

  /** An edge stranded although both its ends were live hangs on an alias row: one that no
      source yields any more and no resolved miss keeps. */
  lemma StrandedTouchesRetiredAlias(c: Db, phrases: set<string>, groups: seq<MissGroup>, n: int, e: EdgeId) returns (a: ArtifactId)
    requires !Ghost(c, e) && Stranded(c, phrases, groups, n, e)
    ensures a == c.edges[e].from || a == c.edges[e].to
    ensures LiveArtifact(c, a) && c.artifacts[a].kind == AliasReference && c.artifacts[a].title.Some?
    ensures c.artifacts[a].title.value !in phrases
    ensures !(R.LedgerOwned(c.artifacts[a]) && Resolves(groups, c.artifacts[a].title.value))
  {
    a := if EndSurvives(c, phrases, groups, n, c.edges[e].from) then c.edges[e].to else c.edges[e].from;
  }

  // ------------------------------------------------------- every run

  ghost predicate Tame(rules: Rules) {
    G.TidyMiner(rules.mine) && G.IsRanking(rules.rank)
  }

  ghost predicate StepStrandsNothing(m: Machine, s: Step, rules: Rules)
    requires LegalStep(m, s, rules)
  {
    Completes(m, s, rules) ==> StrandsNothing(m.db, s.f, rules, m.build)
  }

  /** Every finalize of the run that completes strands nothing. */
  ghost predicate RunStrandsNothing(m: Machine, steps: seq<Step>, rules: Rules)
    requires LegalRun(m, steps, rules)
  {
    steps != [] ==>
      RunStrandsNothing(m, steps[..|steps| - 1], rules) &&
      StepStrandsNothing(Run(m, steps[..|steps| - 1], rules), steps[|steps| - 1], rules)
  }

  /** Every state the run passes through is free of ghost edges. */
  ghost predicate AlwaysGhostFree(m: Machine, steps: seq<Step>, rules: Rules)
    requires LegalRun(m, steps, rules)
  {
    GhostFree(Run(m, steps, rules).db) && (steps != [] ==> AlwaysGhostFree(m, steps[..|steps| - 1], rules))
  }

  lemma StepGhostFreeIff(m: Machine, s: Step, rules: Rules)
    requires LegalStep(m, s, rules) && Inv(m, rules.mine) && Tame(rules) && GhostFree(m.db)
    ensures GhostFree(Next(m, s, rules).db) <==> StepStrandsNothing(m, s, rules)
  {
    match s
    case Start(n) =>
    case Commit(rows, artifacts, edges, generation) => CommitGhostFree(m.db, Next(m, s, rules).db, artifacts, edges);
    case Touch(rows) =>
      forall e ensures !Ghost(Next(m, s, rules).db, e) { assert !Ghost(m.db, e); }
    case Crash =>
    case Finalize(f) => if Completes(m, s, rules) { FinalizeGhostFreeIff(m.db, f, rules, m.build); }
  }

  lemma CommitGhostFree(db: Db, d: Db, artifacts: map<ArtifactId, Artifact>, edges: map<EdgeId, Edge>)
    requires GhostFree(db) && d.artifacts == db.artifacts + artifacts && d.edges == db.edges + edges
    requires forall a :: a in artifacts ==> a !in db.artifacts
    requires forall e :: e in edges ==> Joins(db.artifacts + artifacts, edges[e])
    ensures GhostFree(d)
  {
    forall e ensures !Ghost(d, e) { assert !Ghost(db, e); }
  }

  /** A run never has a ghost edge, in any of its states, exactly when it starts without
      one and every finalize that completes strands nothing. */
  lemma {:induction false} RunGhostFreeIff(m: Machine, steps: seq<Step>, rules: Rules)
    requires LegalRun(m, steps, rules) && Inv(m, rules.mine) && Tame(rules)
    ensures AlwaysGhostFree(m, steps, rules) <==> GhostFree(m.db) && RunStrandsNothing(m, steps, rules)
  {
    if steps != [] {
      var init, last := steps[..|steps| - 1], steps[|steps| - 1];
      RunGhostFreeIff(m, init, rules);
      RunKeepsInv(m, init, rules);
      assert AlwaysGhostFree(m, init, rules) ==> GhostFree(Run(m, init, rules).db);
      assert Run(m, steps, rules) == Next(Run(m, init, rules), last, rules);
      hide GhostFree, Inv, Next, LegalStep, StepStrandsNothing, Tame;
      if GhostFree(Run(m, init, rules).db) { StepGhostFreeIff(Run(m, init, rules), last, rules); }
    }
  }
}
