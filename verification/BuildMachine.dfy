/** The build engine as a state machine: builds one after the other, each allocating
    a sequence number, committing sources, and finalizing or crashing. */
module BuildMachine {
  import opened Prelude
  import opened Registry
  import opened Invalidation
  import opened PassProperties
  import opened LinkEdges
  import opened AliasReplay
  import opened AliasIndex
  import opened AliasOutcome
  import opened AliasLedger
  import R = AliasRows
  import E = AliasEdges
  import G = AliasAggregates

  // ------------------------------------------------------- the finalize transaction

  /** Everything the finalize transaction is given from outside the registry. */
  datatype FinalizeInput = FinalizeInput(
    linker: LinkBatch,
    judge: Option<LinkBatch>,
    pass: PassInput,
    alias: AliasInput,
    choice: AliasChoice,
    ledgerOrder: seq<ArtifactId>,
    misses: seq<MissGroup>,
    ledgerIds: seq<ArtifactId>)

  function Judged(db: Db, judge: Option<LinkBatch>, n: int): Db
    requires judge.Some? ==> |judge.value.ids| == |judge.value.drafts|
  {
    if judge.None? then db else Linked(db, judge.value, n)
  }

  /** Foreign keys: an edge joins two rows of the artifact table, live or not. */
  ghost predicate DraftsExist(db: Db, b: LinkBatch) {
    forall d :: d in b.drafts ==> d.from in db.artifacts && d.to in db.artifacts
  }

  ghost predicate LegalLinks(db: Db, f: FinalizeInput, n: int) {
    && LegalBatch(db, f.linker) && f.linker.producer == Linker && DraftsExist(db, f.linker)
    && (f.judge.Some? ==>
          LegalBatch(Linked(db, f.linker, n), f.judge.value) && f.judge.value.producer == Judge && DraftsExist(db, f.judge.value))
  }

  function AfterLinks(db: Db, f: FinalizeInput, n: int): Db
    requires LegalLinks(db, f, n)
  {
    Judged(Linked(db, f.linker, n), f.judge, n)
  }

  ghost predicate LegalPass(db: Db, f: FinalizeInput, n: int) {
    LegalLinks(db, f, n) && LegalInput(AfterLinks(db, f, n), n, f.pass)
  }

  function AfterPass(db: Db, f: FinalizeInput, n: int): Db
    requires LegalPass(db, f, n)
  {
    InvalidationPass(AfterLinks(db, f, n), n, f.pass)
  }

  ghost predicate LegalAlias(db: Db, f: FinalizeInput, rules: Rules, n: int) {
    LegalPass(db, f, n) && LegalChoice(AfterPass(db, f, n), f.alias, f.choice, rules, n)
  }

  function AfterAlias(db: Db, f: FinalizeInput, rules: Rules, n: int): Db
    requires LegalAlias(db, f, rules, n)
  {
    AliasStage(AfterPass(db, f, n), f.alias, f.choice, rules, n)
  }

  ghost predicate LegalFinalize(db: Db, f: FinalizeInput, rules: Rules, n: int) {
    && LegalAlias(db, f, rules, n)
    && LegalLedger(AfterAlias(db, f, rules, n).artifacts, f.ledgerOrder, f.misses, f.ledgerIds)
  }

  /** The renames of the pass meet a unique index: the transaction is rolled back. */
  ghost predicate Raises(db: Db, f: FinalizeInput, n: int)
    requires LegalLinks(db, f, n)
  {
    PassClashes(AfterLinks(db, f, n), n, f.pass)
  }

  /** What a finalize is started on; what the later steps are given matters only if the
      pass runs to its end. */
  ghost predicate LegalAttempt(db: Db, f: FinalizeInput, rules: Rules, n: int) {
    && LegalLinks(db, f, n) && PassOrders(AfterLinks(db, f, n), n, f.pass)
    && (!Raises(db, f, n) ==> LegalFinalize(db, f, rules, n))
  }

  /** Linker, judge, invalidation, alias miner, ledger miner, in this order. */
  function Finalized(db: Db, f: FinalizeInput, rules: Rules, n: int): Db
    requires LegalFinalize(db, f, rules, n)
  {
    LedgerStage(AfterAlias(db, f, rules, n), f.ledgerOrder, f.misses, f.ledgerIds, n)
  }

  // ------------------------------------------------------- what every stage does to rows

  /** Rows only stay, come back, or leave at `n`; new rows start at `n`. */
  ghost predicate Stamped(db: Db, d: Db, n: int) {
    StampedArtifacts(db, d, n) && StampedEdges(db, d, n)
  }

  predicate Moved(validFrom: int, gone: Option<int>, validFrom': int, gone': Option<int>, n: int) {
    validFrom' == validFrom && MovedAt(gone, gone', n)
  }

  ghost predicate StampedArtifacts(db: Db, d: Db, n: int) {
    && (forall a :: a in db.artifacts ==>
          a in d.artifacts &&
          Moved(db.artifacts[a].validFrom, db.artifacts[a].gone, d.artifacts[a].validFrom, d.artifacts[a].gone, n))
    && (forall a :: a in d.artifacts && a !in db.artifacts ==>
          Moved(n, None, d.artifacts[a].validFrom, d.artifacts[a].gone, n))
  }

  ghost predicate StampedEdges(db: Db, d: Db, n: int) {
    && (forall e :: e in db.edges ==>
          e in d.edges && Moved(db.edges[e].validFrom, db.edges[e].gone, d.edges[e].validFrom, d.edges[e].gone, n))
    && (forall e :: e in d.edges && e !in db.edges ==> Moved(n, None, d.edges[e].validFrom, d.edges[e].gone, n))
  }

  lemma StampedTransitive(a: Db, b: Db, c: Db, n: int)
    requires Stamped(a, b, n) && Stamped(b, c, n)
    ensures Stamped(a, c, n)
  {}

  lemma SameArtifactsStamp(db: Db, d: Db, n: int)
    requires d.artifacts == db.artifacts
    ensures StampedArtifacts(db, d, n)
  {}

  lemma LinkedStamps(db: Db, b: LinkBatch, n: int)
    requires LegalBatch(db, b)
    ensures Stamped(db, Linked(db, b, n), n)
    ensures Linked(db, b, n).artifacts == db.artifacts && Linked(db, b, n).sources == db.sources
  {
    var d := Linked(db, b, n);
    SameArtifactsStamp(db, d, n);
    hide Linked, Drafted, Stale, StampedArtifacts, LegalBatch;
    forall e | e in db.edges
      ensures e in d.edges && Moved(db.edges[e].validFrom, db.edges[e].gone, d.edges[e].validFrom, d.edges[e].gone, n)
    {
      LinkEdges.LinkedRow(db, b, n, e);
    }
    forall e | e in d.edges && e !in db.edges ensures Moved(n, None, d.edges[e].validFrom, d.edges[e].gone, n) {
      LinkedInsert(db, b, n, e);
    }
  }

  lemma EffectStamps(db: Db, n: int, x: Effect, d: Db)
    requires Applied(db, n, x, d)
    ensures Stamped(db, d, n)
  {
    assert d.artifacts.Keys == db.artifacts.Keys && d.edges.Keys == db.edges.Keys;
    forall a | a in db.artifacts
      ensures Moved(db.artifacts[a].validFrom, db.artifacts[a].gone, d.artifacts[a].validFrom, d.artifacts[a].gone, n)
    {
      assert RowAfter(db.artifacts[a], d.artifacts[a], a in x.Retired(), n);
    }
    forall e | e in db.edges
      ensures Moved(db.edges[e].validFrom, db.edges[e].gone, d.edges[e].validFrom, d.edges[e].gone, n)
    {}
    hide Applied;
  }

  lemma PassStamps(db: Db, n: int, i: PassInput)
    requires LegalInput(db, n, i)
    ensures Stamped(db, InvalidationPass(db, n, i), n)
  {
    PassApplies(db, n, i);
    hide *;
    EffectStamps(db, n, EffectOf(db, n, i), InvalidationPass(db, n, i));
  }

  lemma KeepsStamp(db: Db, d: Db, n: int)
    requires R.KeepsPast(db.artifacts, d.artifacts, n)
    ensures StampedArtifacts(db, d, n)
  {}

  lemma EdgesStamp(db: Db, d: Db, n: int)
    requires EdgesKeep(db.edges, d.edges, n)
    ensures StampedEdges(db, d, n)
  {}

  lemma AliasStamps(db: Db, i: AliasInput, c: AliasChoice, rules: Rules, n: int)
    requires LegalChoice(db, i, c, rules, n)
    ensures Stamped(db, AliasStage(db, i, c, rules, n), n)
  {
    StageKeepsRows(db, i, c, rules, n);
    EdgesKeepPastAll(db, i, c, rules, n);
    assert Stamped(db, AliasStage(db, i, c, rules, n), n) by {
      hide R.KeepsPast, EdgesKeep, AliasStage, LegalChoice, StampedArtifacts, StampedEdges;
      KeepsStamp(db, AliasStage(db, i, c, rules, n), n);
      EdgesStamp(db, AliasStage(db, i, c, rules, n), n);
    }
  }

  lemma LedgerStamps(db: Db, order: seq<ArtifactId>, groups: seq<MissGroup>, ids: seq<ArtifactId>, n: int)
    requires LegalLedger(db.artifacts, order, groups, ids) && R.OneLivePerTitle(db.artifacts)
    ensures Stamped(db, LedgerStage(db, order, groups, ids, n), n)
    ensures LedgerStage(db, order, groups, ids, n).edges == db.edges
  {
    LedgerStageOutcome(db.artifacts, order, groups, ids, n);
    var d := LedgerStage(db, order, groups, ids, n);
    assert LedgerOutcome(db.artifacts, d.artifacts, groups, n);
    hide LedgerRows;
    KeepsStamp(db, d, n);
  }

  lemma LinksStamp(db: Db, f: FinalizeInput, n: int)
    requires LegalLinks(db, f, n)
    ensures Stamped(db, AfterLinks(db, f, n), n)
    ensures AfterLinks(db, f, n).artifacts == db.artifacts && AfterLinks(db, f, n).sources == db.sources
  {
    LinkedStamps(db, f.linker, n);
    hide Stamped, Linked, LegalBatch;
    var mid := Linked(db, f.linker, n);
    if f.judge.Some? {
      LinkedStamps(mid, f.judge.value, n);
      StampedTransitive(db, mid, AfterLinks(db, f, n), n);
    }
  }

  /** The alias miner always leaves one live row per title, which the ledger needs. */
  lemma FinalizeStamps(db: Db, f: FinalizeInput, rules: Rules, n: int)
    requires LegalFinalize(db, f, rules, n)
    ensures Stamped(db, Finalized(db, f, rules, n), n)
    ensures Frozen(AfterLinks(db, f, n), Finalized(db, f, rules, n), n)
  {
    var b, c, d := AfterLinks(db, f, n), AfterPass(db, f, n), AfterAlias(db, f, rules, n);
    LinksStamp(db, f, n);
    PassStamps(b, n, f.pass);
    PassFreezesPast(b, n, f.pass);
    AliasStamps(c, f.alias, f.choice, rules, n);
    StageFreezesPast(c, f.alias, f.choice, rules, n);
    StageOneLive(c, f.alias, f.choice, rules, n);
    LedgerStamps(d, f.ledgerOrder, f.misses, f.ledgerIds, n);
    LedgerFreezesPast(d, f.ledgerOrder, f.misses, f.ledgerIds, n);
    var fin := Finalized(db, f, rules, n);
    hide *;
    StampedTransitive(db, b, c, n);
    StampedTransitive(db, c, d, n);
    StampedTransitive(db, d, fin, n);
    FrozenTransitive(b, c, d, n);
    FrozenTransitive(b, d, fin, n);
  }

  // ------------------------------------------------------- sequence numbers

  /** Every row was introduced at or before `n`, and left no earlier than that. */
  ghost predicate Sequenced(db: Db, n: int) {
    && (forall a :: a in db.artifacts ==> InOrder(db.artifacts[a].validFrom, db.artifacts[a].gone, n))
    && (forall e :: e in db.edges ==> InOrder(db.edges[e].validFrom, db.edges[e].gone, n))
  }

  predicate InOrder(validFrom: int, gone: Option<int>, n: int) {
    validFrom <= n && (gone.Some? ==> validFrom <= gone.value <= n)
  }

  /** No row has left at `n` yet. */
  ghost predicate NothingLeft(db: Db, n: int) {
    NoArtifactLeft(db, n) && NoEdgeLeft(db, n)
  }

  ghost predicate NoArtifactLeft(db: Db, n: int) {
    forall a :: a in db.artifacts ==> db.artifacts[a].gone != Some(n)
  }

  ghost predicate NoEdgeLeft(db: Db, n: int) {
    forall e :: e in db.edges ==> db.edges[e].gone != Some(n)
  }

  lemma StampedIsSequenced(db: Db, d: Db, n: int)
    requires Sequenced(db, n) && Stamped(db, d, n)
    ensures Sequenced(d, n)
  {
    forall a | a in d.artifacts ensures InOrder(d.artifacts[a].validFrom, d.artifacts[a].gone, n) {
      if a in db.artifacts { assert InOrder(db.artifacts[a].validFrom, db.artifacts[a].gone, n); }
    }
    forall e | e in d.edges ensures InOrder(d.edges[e].validFrom, d.edges[e].gone, n) {
      if e in db.edges { assert InOrder(db.edges[e].validFrom, db.edges[e].gone, n); }
    }
  }

  lemma SequencedIsWellFormed(db: Db, n: int)
    requires Sequenced(db, n)
    ensures WellFormed(db)
  {}

  // ------------------------------------------------------- when a finalize keeps the past

  /** Neither batch drafts an edge that an earlier build invalidated. */
  ghost predicate RevivesNothing(db: Db, f: FinalizeInput, n: int) {
    && (forall e :: !RevivedAcrossBuilds(db, f.linker, n, e))
    && (f.judge.Some? ==> forall e :: !RevivedAcrossBuilds(db, f.judge.value, n, e))
  }

  lemma OtherProducersLeft(db: Db, b: LinkBatch, n: int, e: EdgeId)
    requires LegalBatch(db, b) && e in db.edges && db.edges[e].producer != b.producer
    ensures e in Linked(db, b, n).edges && Linked(db, b, n).edges[e] == db.edges[e]
  {
    UpsertKeepsRow(db.edges, b.producer, b.drafts, b.ids, n, e);
  }

  /** The judge's revivals are the same before and after the linker ran. */
  lemma JudgeRevivesTheSame(db: Db, l: LinkBatch, j: LinkBatch, n: int, e: EdgeId)
    requires LegalBatch(db, l) && l.producer == Linker && j.producer == Judge
    ensures RevivedAcrossBuilds(Linked(db, l, n), j, n, e) <==> RevivedAcrossBuilds(db, j, n, e)
  {
    if e in db.edges {
      LinkEdges.LinkedRow(db, l, n, e);
      if db.edges[e].producer == Judge { OtherProducersLeft(db, l, n, e); }
    } else if e in Linked(db, l, n).edges {
      LinkedInsert(db, l, n, e);
    }
  }

  lemma FrozenSymmetric(a: Db, b: Db, n: int)
    requires Frozen(a, b, n)
    ensures Frozen(b, a, n)
  {}

  lemma LinksFreezeIff(db: Db, f: FinalizeInput, n: int)
    requires LegalLinks(db, f, n) && Sequenced(db, n)
    ensures Frozen(db, AfterLinks(db, f, n), n) <==> RevivesNothing(db, f, n)
  {
    var mid, b := Linked(db, f.linker, n), AfterLinks(db, f, n);
    SequencedIsWellFormed(db, n);
    LinkedFreezesPastIff(db, f.linker, n);
    if f.judge.Some? {
      LinkedStamps(db, f.linker, n);
      StampedIsSequenced(db, mid, n);
      SequencedIsWellFormed(mid, n);
      LinkedFreezesPastIff(mid, f.judge.value, n);
      forall e { JudgeRevivesTheSame(db, f.linker, f.judge.value, n, e); }
      assert Frozen(mid, b, n) <==> (forall e :: !RevivedAcrossBuilds(db, f.judge.value, n, e));
      if e :| RevivedAcrossBuilds(db, f.linker, n, e) {
        LinkEdges.LinkedRow(db, f.linker, n, e);
        OtherProducersLeft(mid, f.judge.value, n, e);
        var s := db.edges[e].gone.value;
        assert !HasEdge(db, e, s) && HasEdge(b, e, s);
      } else {
        hide Linked, RevivedAcrossBuilds, Stamped, Sequenced, LegalLinks, AfterLinks, Frozen;
        if Frozen(mid, b, n) { FrozenTransitive(db, mid, b, n); }
        if Frozen(db, b, n) {
          FrozenSymmetric(db, mid, n);
          FrozenTransitive(mid, db, b, n);
        }
      }
    }
  }

  /** A finalize leaves every version before its sequence alone exactly when neither
      the linker nor the judge drafts an edge an earlier build had invalidated: no
      other part of it, revivals included, can change the past. */
  lemma FinalizeFreezesPastIff(db: Db, f: FinalizeInput, rules: Rules, n: int)
    requires LegalFinalize(db, f, rules, n) && Sequenced(db, n)
    ensures Frozen(db, Finalized(db, f, rules, n), n) <==> RevivesNothing(db, f, n)
  {
    LinksFreezeIff(db, f, n);
    FinalizeStamps(db, f, rules, n);
    var b, fin := AfterLinks(db, f, n), Finalized(db, f, rules, n);
    hide *;
    if Frozen(db, b, n) { FrozenTransitive(db, b, fin, n); }
    if Frozen(db, fin, n) {
      FrozenSymmetric(b, fin, n);
      FrozenTransitive(db, fin, b, n);
    }
  }
}
