/** Which rows the two alias passes leave live: decided, row by row, by the rows they are
    given, the phrases the live sources yield and the misses that resolve. */
module AliasFate {
  import opened Prelude
  import opened Registry
  import opened AliasReplay
  import opened AliasAggregates
  import opened AliasIndex
  import opened AliasOutcome
  import opened AliasLedger
  import R = AliasRows

  /** The miner keeps or revives the rows of mined phrases, and spares ledger rows. */
  predicate KeptByMiner(row: Artifact, phrases: set<string>, n: int) {
    if row.kind != AliasReference then row.gone.None?
    else if row.title.Some? && row.title.value in phrases then Loadable(row, n)
    else row.gone.None? && (row.title.None? || R.LedgerOwned(row))
  }

  /** The ledger pass retires its own rows whose phrase no longer resolves. */
  ghost predicate KeptByLedger(row: Artifact, groups: seq<MissGroup>) {
    row.gone.None? &&
    (row.kind == AliasReference && row.title.Some? && R.LedgerOwned(row) ==> Resolves(groups, row.title.value))
  }

  /** Both passes together. */
  ghost predicate Survives(row: Artifact, phrases: set<string>, groups: seq<MissGroup>, n: int) {
    if row.kind != AliasReference then row.gone.None?
    else if row.title.Some? && row.title.value in phrases then Loadable(row, n)
    else row.gone.None? && (row.title.Some? ==> R.LedgerOwned(row) && Resolves(groups, row.title.value))
  }

  /** One row through a reconcile, when its title tells whether it is indexed. */
  function RowOut(row: Artifact, a: ArtifactId, byTitle: map<string, ArtifactId>, w: map<string, R.Desired>, spareLedger: bool, n: int): Artifact {
    if R.Unwanted(a, row, byTitle, w.Keys, spareLedger) then row.(gone := Some(n)) else R.RowAfterUpserts(a, row, byTitle, w)
  }

  predicate BodyMined(b: Body) { b.AliasBody? && b.provenance == BuildMined }

  predicate MinedOnly(w: map<string, R.Desired>) {
    forall t :: t in w ==> w[t].anchor.Some? && BodyMined(w[t].body)
  }

  lemma MinerRow(row: Artifact, a: ArtifactId, byTitle: map<string, ArtifactId>, w: map<string, R.Desired>, n: int)
    requires R.Indexed(a, row, byTitle) <==> Loadable(row, n) && row.title.Some?
    requires MinedOnly(w)
    ensures var out := RowOut(row, a, byTitle, w, true, n);
      && out.kind == row.kind && out.title == row.title
      && (out.gone.None? <==> KeptByMiner(row, w.Keys, n))
      && (row.kind == AliasReference && row.title.Some? && out.gone.None? ==>
            (R.LedgerOwned(out) <==> row.title.value !in w))
  {}

  lemma MinerFate(db: Db, i: AliasInput, c: AliasChoice, rules: Rules, n: int, a: ArtifactId)
    requires LegalChoice(db, i, c, rules, n) && OneLoadablePerTitle(db.artifacts, n)
    requires StageContributions(db.artifacts, i, c, rules, n) == FreshContributions(i.inputs, rules.mine)
    requires a in db.artifacts
    ensures var row, out, phrases := db.artifacts[a], AliasStage(db, i, c, rules, n).artifacts, PhrasesOf(FreshContributions(i.inputs, rules.mine));
      && a in out && out[a].kind == row.kind && out[a].title == row.title
      && (out[a].gone.None? <==> KeptByMiner(row, phrases, n))
      && (row.kind == AliasReference && row.title.Some? && out[a].gone.None? ==>
            (R.LedgerOwned(out[a]) <==> row.title.value !in phrases))
  {
    var rows, byTitle, cs := db.artifacts, ByTitle(db.artifacts, c.rowOrder), FreshContributions(i.inputs, rules.mine);
    var ds, mid, row := StageRows(i, cs, c, rules), Deduped(rows, byTitle, n), db.artifacts[a];
    StageIsLegal(db, i, c, rules, n);
    StageIsReconciled(db, i, c, rules, n);
    assert ListsAliases(rows, c.rowOrder, n) && LegalPhrases(cs, c.phraseOrder);
    IndexedIffLoadable(rows, c.rowOrder, n, a);
    MinedWanted(i, cs, c, rules);
    hide *;
    R.ReconciledRow(mid, byTitle, ds, c.rowIds, true, n, a);
    MinerRow(row, a, byTitle, R.Wanted(ds), n);
    assert R.Reconciled(mid, byTitle, ds, c.rowIds, true, n)[a] == RowOut(row, a, byTitle, R.Wanted(ds), true, n) by { RowOutIs(row, a, byTitle, R.Wanted(ds), true, n); }
  }

  lemma RowOutIs(row: Artifact, a: ArtifactId, byTitle: map<string, ArtifactId>, w: map<string, R.Desired>, spareLedger: bool, n: int)
    ensures RowOut(row, a, byTitle, w, spareLedger, n) ==
      if R.Unwanted(a, row, byTitle, w.Keys, spareLedger) then row.(gone := Some(n)) else R.RowAfterUpserts(a, row, byTitle, w)
  {}

  /** With one loadable row per title, loading drops nothing and indexes every such row. */
  lemma IndexedIffLoadable(rows: R.Rows, order: seq<ArtifactId>, n: int, a: ArtifactId)
    requires ListsAliases(rows, order, n) && OneLoadablePerTitle(rows, n) && a in rows
    ensures var byTitle := ByTitle(rows, order);
      && (R.Indexed(a, rows[a], byTitle) <==> Loadable(rows[a], n) && rows[a].title.Some?)
      && Deduped(rows, byTitle, n)[a] == rows[a]
  {
    if rows[a].title.Some? {
      var t := rows[a].title.value;
      if LoadableTitled(rows, n, a, t) { LoadableIsIndexed(rows, order, n, a, t); }
      if t in ByTitle(rows, order) { IndexIsLoadable(rows, order, n, t); }
    }
  }

  lemma MinedWanted(i: AliasInput, cs: seq<Contribution>, c: AliasChoice, rules: Rules)
    requires LegalPhrases(cs, c.phraseOrder) && cs == FreshContributions(i.inputs, rules.mine)
    ensures var ds := StageRows(i, cs, c, rules);
      && R.Wanted(ds).Keys == PhrasesOf(cs) == R.Titles(ds) && MinedOnly(R.Wanted(ds))
  {
    var w := R.Wanted(StageRows(i, cs, c, rules));
    DesiredPhrases(i, cs, c, rules);
    hide LegalPhrases, FreshContributions, PhrasesOf, StageRows, R.Titles;
    forall t ensures (t in w <==> t in PhrasesOf(cs)) && (t in w ==> BodyMined(w[t].body)) {
      WantedIsMined(i, cs, c, rules, t);
    }
  }

  // ------------------------------------------------------- the ledger pass

  lemma LedgerRowFate(row: Artifact, a: ArtifactId, byTitle: map<string, ArtifactId>, w: map<string, R.Desired>, groups: seq<MissGroup>, n: int)
    requires R.Indexed(a, row, byTitle) <==> row.kind == AliasReference && row.gone.None? && row.title.Some? && R.LedgerOwned(row)
    requires forall t :: t in w ==> w[t].anchor.Some?
    requires R.Indexed(a, row, byTitle) ==> (row.title.value in w <==> Resolves(groups, row.title.value))
    ensures RowOut(row, a, byTitle, w, false, n).gone.None? <==> KeptByLedger(row, groups)
  {
    hide Resolves;
  }

  lemma LedgerFate(rows: R.Rows, order: seq<ArtifactId>, groups: seq<MissGroup>, ids: seq<ArtifactId>, n: int, a: ArtifactId)
    requires LegalLedger(rows, order, groups, ids) && R.OneLivePerTitle(rows) && a in rows
    ensures var out := LedgerRows(rows, order, groups, ids, n);
      a in out && (out[a].gone.None? <==> KeptByLedger(rows[a], groups))
  {
    var p := LoadState(rows, order);
    var plan, row := PlanOf(p, groups, ids), rows[a];
    LedgerIsLegal(rows, order, groups, ids, n);
    PlannedKeys(rows, p, groups, ids);
    OwnedIsIndexed(rows, order, a);
    if row.title.Some? {
      if row.title.value in R.Wanted(plan.ds) { WantedIsPlanned(p, groups, ids, row.title.value); }
      if Resolves(groups, row.title.value) { ResolvedIsPlanned(rows, p, groups, ids, row.title.value); }
    }
    hide LoadState, PlanOf, LegalLedger, R.OneLivePerTitle, R.Wanted, Resolves, R.Reconciled, R.LedgerOwned, R.Unwanted, R.RowAfterUpserts;
    R.ReconciledRow(rows, p.ledgerRows, plan.ds, plan.ids, false, n, a);
    RowOutIs(row, a, p.ledgerRows, R.Wanted(plan.ds), false, n);
    LedgerRowFate(row, a, p.ledgerRows, R.Wanted(plan.ds), groups, n);
  }

  lemma PlannedKeys(rows: R.Rows, p: PriorState, groups: seq<MissGroup>, ids: seq<ArtifactId>)
    requires |ids| == |groups| && R.FreshIds(rows, ids) && DistinctGroups(groups)
    ensures R.Titles(PlanOf(p, groups, ids).ds) == R.Wanted(PlanOf(p, groups, ids).ds).Keys
  {
    PlannedTitles(rows, p, groups, ids);
    var ds := PlanOf(p, groups, ids).ds;
    forall t | t in R.Wanted(ds) ensures t in R.Titles(ds) { assert R.Wanted(ds)[t] in ds; }
  }

  lemma OwnedIsIndexed(rows: R.Rows, order: seq<ArtifactId>, a: ArtifactId)
    requires ListsLive(rows, order) && R.OneLivePerTitle(rows) && a in rows
    ensures var p := LoadState(rows, order);
      && (R.Indexed(a, rows[a], p.ledgerRows) <==>
            rows[a].kind == AliasReference && rows[a].gone.None? && rows[a].title.Some? && R.LedgerOwned(rows[a]))
      && (rows[a].title.Some? && rows[a].title.value in p.allTitles && rows[a].title.value !in p.ledgerRows ==>
            !R.Indexed(a, rows[a], p.ledgerRows))
  {
    if rows[a].title.Some? { PriorStateIs(rows, order, rows[a].title.value); }
    hide LoadState, R.LedgerOwned, R.OneLivePerTitle, ListsLive;
    if rows[a].title.Some? && rows[a].kind == AliasReference && rows[a].gone.None? {
      assert R.LiveTitled(rows, a, rows[a].title.value);
    }
  }

  /** The two fates, one after the other. */
  lemma BothFates(row: Artifact, mid: Artifact, phrases: set<string>, groups: seq<MissGroup>, n: int)
    requires mid.kind == row.kind && mid.title == row.title
    requires mid.gone.None? <==> KeptByMiner(row, phrases, n)
    requires row.kind == AliasReference && row.title.Some? && mid.gone.None? ==> (R.LedgerOwned(mid) <==> row.title.value !in phrases)
    ensures KeptByLedger(mid, groups) <==> Survives(row, phrases, groups, n)
  {
    hide Resolves;
  }
}
