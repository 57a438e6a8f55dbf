/** What the finalize keeps beneath the versions: the unique link keys and the foreign
    keys of edges. */
module FinalizeKeys {
  import opened Prelude
  import opened Registry
  import opened Invalidation
  import opened PassProperties
  import opened LinkEdges
  import opened LinkKeys
  import opened AliasIndex
  import opened AliasLedger
  import opened BuildMachine
  import opened BuildRuns
  import E = AliasEdges
  import AliasOutcome

  /** Edges of every producer but the alias miner join rows of the artifact table. */
  ghost predicate EndsExist(db: Db) {
    forall e :: e in db.edges && !E.Owned(db.edges[e]) ==> EndsIn(db, db.edges[e])
  }

  predicate EndsIn(db: Db, e: Edge) {
    e.from in db.artifacts && e.to in db.artifacts
  }

  /** Before its finalize no linker or judge edge touches a row of the running build. */
  ghost predicate LinksOffFresh(db: Db, n: int) {
    forall e :: e in db.edges ==> OffFresh(db, db.edges[e], n)
  }

  ghost predicate KeysSound(db: Db) {
    UniqueLinks(db.edges) && EndsExist(db)
  }

  // ------------------------------------------------------- linker and judge

  lemma DraftedExists(db: Db, b: LinkBatch, e: Edge)
    requires DraftsExist(db, b) && Drafted(e, b.producer, b.drafts)
    ensures EndsIn(db, e)
  {}

  lemma LinkedKeepsEnds(db: Db, b: LinkBatch, n: int)
    requires LegalBatch(db, b) && DraftsExist(db, b) && EndsExist(db)
    ensures EndsExist(Linked(db, b, n))
  {
    var d := Linked(db, b, n);
    LinkedStamps(db, b, n);
    forall e | e in d.edges && !E.Owned(d.edges[e]) ensures EndsIn(d, d.edges[e]) {
      if e in db.edges {
        LinkEdges.LinkedRow(db, b, n, e);
      } else {
        LinkedInsert(db, b, n, e);
        DraftedExists(db, b, d.edges[e]);
      }
    }
  }

  /** A row that has left after the reconcile was there before it. */
  lemma GoneWasThere(db: Db, b: LinkBatch, n: int, e: EdgeId)
    requires LegalBatch(db, b) && e in Linked(db, b, n).edges && Linked(db, b, n).edges[e].gone.Some?
    ensures e in db.edges && SameKey(db.edges[e], Linked(db, b, n).edges[e])
    ensures db.edges[e].gone.Some? || db.edges[e].producer == b.producer
  {
    if e in db.edges { LinkEdges.LinkedRow(db, b, n, e); } else { LinkedInsert(db, b, n, e); }
  }

  /** Linker and judge keep the indexes; and what they take out touches no fresh row. */
  lemma LinksAreReady(db: Db, f: FinalizeInput, n: int)
    requires LegalLinks(db, f, n) && KeysSound(db) && LinksOffFresh(db, n)
    ensures KeysSound(AfterLinks(db, f, n)) && LeftOffFresh(AfterLinks(db, f, n), n)
  {
    var mid, d := Linked(db, f.linker, n), AfterLinks(db, f, n);
    LinksKeepKeys(db, f, n);
    LinksStamp(db, f, n);
    forall e | e in d.edges && d.edges[e].gone.Some? ensures OffFresh(d, d.edges[e], n) {
      if f.judge.Some? {
        GoneWasThere(mid, f.judge.value, n, e);
        if mid.edges[e].gone.Some? {
          GoneWasThere(db, f.linker, n, e);
        } else {
          JudgeRowWasThere(db, f.linker, n, e);
        }
      } else {
        GoneWasThere(db, f.linker, n, e);
      }
      assert OffFresh(db, db.edges[e], n);
    }
  }

  lemma JudgeRowWasThere(db: Db, b: LinkBatch, n: int, e: EdgeId)
    requires LegalBatch(db, b) && b.producer == Linker && e in Linked(db, b, n).edges
    requires Linked(db, b, n).edges[e].producer == Judge
    ensures e in db.edges && SameKey(db.edges[e], Linked(db, b, n).edges[e])
  {
    if e in db.edges { LinkEdges.LinkedRow(db, b, n, e); } else { LinkedInsert(db, b, n, e); }
  }

  lemma LinksKeepKeys(db: Db, f: FinalizeInput, n: int)
    requires LegalLinks(db, f, n) && KeysSound(db)
    ensures KeysSound(AfterLinks(db, f, n))
  {
    LinkedKeepsKeys(db, f.linker, n);
    LinkedKeepsEnds(db, f.linker, n);
    LinkedStamps(db, f.linker, n);
    if f.judge.Some? {
      LinkedKeepsKeys(Linked(db, f.linker, n), f.judge.value, n);
      LinkedKeepsEnds(Linked(db, f.linker, n), f.judge.value, n);
    }
  }

  // ------------------------------------------------------- the pass and the alias passes

  lemma EffectKeepsEnds(db: Db, n: int, x: Effect, d: Db)
    requires Sound(db, n, x) && Applied(db, n, x, d) && EndsExist(db)
    ensures EndsExist(d)
  {
    forall e | e in d.edges && !E.Owned(d.edges[e]) ensures EndsIn(d, d.edges[e]) {
      var r := db.edges[e];
      assert EndsIn(db, r);
      if r.from in x.rho { assert RenamedTo(db, n, x, r.from, x.rho[r.from]); }
      if r.to in x.rho { assert RenamedTo(db, n, x, r.to, x.rho[r.to]); }
    }
  }

  lemma PassKeepsSound(db: Db, n: int, i: PassInput)
    requires LegalInput(db, n, i) && KeysSound(db)
    ensures KeysSound(InvalidationPass(db, n, i))
  {
    PassApplies(db, n, i);
    PassKeepsKeysIff(db, n, i);
    var x, d := EffectOf(db, n, i), InvalidationPass(db, n, i);
    hide *;
    assert UniqueLinks(db.edges) && EndsExist(db) by { SoundIs(db); }
    EffectKeepsEnds(db, n, x, d);
    SoundIs(d);
  }

  lemma SoundIs(db: Db)
    ensures KeysSound(db) <==> UniqueLinks(db.edges) && EndsExist(db)
  {
    hide UniqueLinks, EndsExist;
  }

  /** Rows only come; edges of other producers stay the rows they were. */
  lemma OthersKeepSound(c: Db, d: Db)
    requires KeysSound(c) && c.artifacts.Keys <= d.artifacts.Keys
    requires forall e :: e in d.edges && !E.Owned(d.edges[e]) ==> e in c.edges && d.edges[e] == c.edges[e]
    ensures KeysSound(d)
  {
    SameKeysStayUnique(c.edges, d.edges);
  }

  lemma FinalizeKeepsKeys(db: Db, f: FinalizeInput, rules: Rules, n: int)
    requires LegalFinalize(db, f, rules, n) && KeysSound(db)
    ensures KeysSound(AfterPass(db, f, n)) && KeysSound(Finalized(db, f, rules, n))
  {
    var b, c, d, fin := AfterLinks(db, f, n), AfterPass(db, f, n), AfterAlias(db, f, rules, n), Finalized(db, f, rules, n);
    LinksKeepKeys(db, f, n);
    PassKeepsSound(b, n, f.pass);
    RowsOnlyCome(db, f, rules, n);
    assert LegalChoice(c, f.alias, f.choice, rules, n) && d == AliasStage(c, f.alias, f.choice, rules, n);
    assert fin.edges == d.edges;
    hide *;
    forall e | e in fin.edges && !E.Owned(fin.edges[e]) ensures e in c.edges && fin.edges[e] == c.edges[e] {
      StageEdgeKept(c, f.alias, f.choice, rules, n, e);
    }
    OthersKeepSound(c, fin);
  }

  lemma RowsOnlyCome(db: Db, f: FinalizeInput, rules: Rules, n: int)
    requires LegalFinalize(db, f, rules, n)
    ensures AfterPass(db, f, n).artifacts.Keys <= Finalized(db, f, rules, n).artifacts.Keys
  {
    var c, d, fin := AfterPass(db, f, n), AfterAlias(db, f, rules, n), Finalized(db, f, rules, n);
    AliasStamps(c, f.alias, f.choice, rules, n);
    AliasOutcome.StageOneLive(c, f.alias, f.choice, rules, n);
    LedgerStamps(d, f.ledgerOrder, f.misses, f.ledgerIds, n);
    assert Stamped(c, d, n) && Stamped(d, fin, n);
    hide *;
    StampKeepsRows(c, d, n);
    StampKeepsRows(d, fin, n);
  }

  lemma StampKeepsRows(c: Db, d: Db, n: int)
    requires Stamped(c, d, n)
    ensures c.artifacts.Keys <= d.artifacts.Keys
  {}
}
