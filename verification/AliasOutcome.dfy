/** What the alias miner's stage leaves behind: one live row per phrase, edges in
    bijection with the computed pairs, and evidence the next build can replay. */
module AliasOutcome {
  import opened Prelude
  import opened Registry
  import opened AliasReplay
  import opened AliasAggregates
  import opened AliasIndex
  import R = AliasRows
  import E = AliasEdges

  // ------------------------------------------------------- the rows afterwards

  /** `ids` names the live row of every phrase the contributions yield; any other
      live alias row is one the ledger pass owns, left as it was. */
  ghost predicate RowsOutcome(rows: R.Rows, out: R.Rows, ids: map<string, ArtifactId>, cs: seq<Contribution>, n: int) {
    && ids.Keys == PhrasesOf(cs)
    && (forall t :: t in ids ==> MinedRow(out, ids[t], t, cs))
    && (forall a, t :: R.LiveTitled(out, a, t) && t in ids ==> a == ids[t])
    && (forall a, t :: R.LiveTitled(out, a, t) && t !in ids ==> a in rows && out[a] == rows[a] && R.LedgerOwned(rows[a]))
    && R.KeepsPast(rows, out, n) && R.OnlyAliases(rows, out)
  }

  /** The live row of `t`, holding the evidence of this build's contributions. */
  predicate MinedRow(out: R.Rows, a: ArtifactId, t: string, cs: seq<Contribution>) {
    R.LiveTitled(out, a, t) && !R.LedgerOwned(out[a]) && EntriesOf(out[a]) == Evidence(cs, t)
  }

  /** The rows of the stage, by name. */
  function StageAliasIds(db: Db, i: AliasInput, c: AliasChoice, rules: Rules, n: int): map<string, ArtifactId>
    requires LegalChoice(db, i, c, rules, n)
  {
    var cs := StageContributions(db.artifacts, i, c, rules, n);
    R.AliasIds(ByTitle(db.artifacts, c.rowOrder), StageRows(i, cs, c, rules), c.rowIds)
  }

  function StagePairs(db: Db, i: AliasInput, c: AliasChoice, rules: Rules, n: int): map<E.Pair, E.Facts>
    requires LegalChoice(db, i, c, rules, n)
  {
    StageEdges(i, StageContributions(db.artifacts, i, c, rules, n), c, rules, StageAliasIds(db, i, c, rules, n))
  }

  /** Rows that a build may start from: one per title, faithful evidence. */
  ghost predicate Replayable(rows: R.Rows, n: int, mine: Miner) {
    OneLoadablePerTitle(rows, n) && Watermarked(Stored(rows, n), mine)
  }

  lemma DesiredRowAt(i: AliasInput, cs: seq<Contribution>, c: AliasChoice, rules: Rules, t: string)
    requires LegalPhrases(cs, c.phraseOrder) && cs == FreshContributions(i.inputs, rules.mine)
    requires t in PhrasesOf(cs)
    ensures exists k :: (0 <= k < |c.phraseOrder| && c.phraseOrder[k] == t
      && StageRows(i, cs, c, rules)[k].anchor.Some? && StageRows(i, cs, c, rules)[k].phrase == t)
  {
    assert t in c.phraseOrder;
    var k :| 0 <= k < |c.phraseOrder| && c.phraseOrder[k] == t;
    AnchorAlwaysFound(i.inputs, rules.mine, t, rules.rank);
    assert StageRows(i, cs, c, rules)[k].anchor == AnchorOf(AggregateOf(cs, t, rules.rank), Anchors(i.inputs));
  }

  lemma {:induction false} WantedAt(ds: seq<R.Desired>, k: nat)
    requires R.DistinctPhrases(ds) && k < |ds| && ds[k].anchor.Some?
    ensures ds[k].phrase in R.Wanted(ds) && R.Wanted(ds)[ds[k].phrase] == ds[k]
  {
    if k < |ds| - 1 {
      WantedAt(ds[..|ds| - 1], k);
      assert ds[k].phrase != ds[|ds| - 1].phrase;
    }
  }

  /** Every phrase has an anchored wanted row, holding its evidence. */
  lemma WantedIsMined(i: AliasInput, cs: seq<Contribution>, c: AliasChoice, rules: Rules, t: string)
    requires LegalPhrases(cs, c.phraseOrder) && cs == FreshContributions(i.inputs, rules.mine)
    ensures var w := R.Wanted(StageRows(i, cs, c, rules));
      && (t in w <==> t in PhrasesOf(cs))
      && (t in w ==> MinedBody(w[t].body, cs, t))
      && (t in w ==> w[t] == DesiredRow(AggregateOf(cs, t, rules.rank), Anchors(i.inputs), i.paths, rules.acl))
  {
    var ds := StageRows(i, cs, c, rules);
    DesiredPhrases(i, cs, c, rules);
    hide FreshContributions, LegalPhrases, PhrasesOf;
    if t in PhrasesOf(cs) {
      DesiredRowAt(i, cs, c, rules, t);
      var k :| 0 <= k < |c.phraseOrder| && c.phraseOrder[k] == t && ds[k].anchor.Some? && ds[k].phrase == t;
      WantedAt(ds, k);
      assert ds[k] == DesiredRow(AggregateOf(cs, t, rules.rank), Anchors(i.inputs), i.paths, rules.acl);
    }
    if t in R.Wanted(ds) { assert R.Wanted(ds)[t] in ds; }
  }

  lemma StageRowsOutcome(db: Db, i: AliasInput, c: AliasChoice, rules: Rules, n: int)
    requires LegalChoice(db, i, c, rules, n)
    requires StageContributions(db.artifacts, i, c, rules, n) == FreshContributions(i.inputs, rules.mine)
    ensures RowsOutcome(db.artifacts, AliasStage(db, i, c, rules, n).artifacts, StageAliasIds(db, i, c, rules, n),
                        FreshContributions(i.inputs, rules.mine), n)
  {
    var rows, byTitle, cs := db.artifacts, ByTitle(db.artifacts, c.rowOrder), FreshContributions(i.inputs, rules.mine);
    StageIsLegal(db, i, c, rules, n);
    StageIsReconciled(db, i, c, rules, n);
    LoadedLiveRows(rows, c.rowOrder, n);
    DesiredPhrases(i, cs, c, rules);
    forall t { WantedIsMined(i, cs, c, rules, t); }
    hide *;
    var ds, mid := StageRows(i, cs, c, rules), Deduped(rows, byTitle, n);
    R.ReconciledKeepsPast(mid, byTitle, ds, c.rowIds, true, n);
    KeepsTransitive(rows, mid, R.Reconciled(mid, byTitle, ds, c.rowIds, true, n), n);
    ReconciledOutcome(rows, mid, byTitle, ds, c.rowIds, cs, n);
  }

  lemma StageIsReconciled(db: Db, i: AliasInput, c: AliasChoice, rules: Rules, n: int)
    requires LegalChoice(db, i, c, rules, n)
    ensures var rows, byTitle, cs := db.artifacts, ByTitle(db.artifacts, c.rowOrder), StageContributions(db.artifacts, i, c, rules, n);
      var ds := StageRows(i, cs, c, rules);
      && |ds| == |c.rowIds| && LegalPhrases(cs, c.phraseOrder)
      && AliasStage(db, i, c, rules, n).artifacts == R.Reconciled(Deduped(rows, byTitle, n), byTitle, ds, c.rowIds, true, n)
      && StageAliasIds(db, i, c, rules, n) == R.AliasIds(byTitle, ds, c.rowIds)
  {
    hide StageContributions, R.Reconciled, StageEdges, R.AliasIds;
  }

  /** Loading leaves exactly the indexed live rows live, as they were. */
  lemma LoadedLiveRows(rows: R.Rows, order: seq<ArtifactId>, n: int)
    requires ListsAliases(rows, order, n)
    ensures var m := ByTitle(rows, order); var mid := Deduped(rows, m, n);
      forall a, t :: R.LiveTitled(mid, a, t) ==> t in m && m[t] == a && a in rows && mid[a] == rows[a]
  {
    LoadedIndex(rows, order, n);
    hide ByTitle, ListsAliases;
  }

  lemma KeepsTransitive(a: R.Rows, b: R.Rows, c: R.Rows, n: int)
    requires R.KeepsPast(a, b, n) && R.KeepsPast(b, c, n) && R.OnlyAliases(a, b) && R.OnlyAliases(b, c)
    ensures R.KeepsPast(a, c, n) && R.OnlyAliases(a, c)
  {}

  lemma ReconciledOutcome(rows: R.Rows, mid: R.Rows, byTitle: map<string, ArtifactId>, ds: seq<R.Desired>,
                          rowIds: seq<ArtifactId>, cs: seq<Contribution>, n: int)
    requires R.Legal(mid, byTitle, ds, rowIds) && R.Covers(mid, byTitle, ds)
    requires forall a, t :: R.LiveTitled(mid, a, t) ==> t in byTitle && byTitle[t] == a && a in rows && mid[a] == rows[a]
    requires forall t :: t in R.Wanted(ds) <==> t in PhrasesOf(cs)
    requires R.Titles(ds) == PhrasesOf(cs)
    requires forall t :: t in R.Wanted(ds) ==> MinedBody(R.Wanted(ds)[t].body, cs, t)
    requires var out := R.Reconciled(mid, byTitle, ds, rowIds, true, n); R.KeepsPast(rows, out, n) && R.OnlyAliases(rows, out)
    ensures RowsOutcome(rows, R.Reconciled(mid, byTitle, ds, rowIds, true, n), R.AliasIds(byTitle, ds, rowIds), cs, n)
  {
    var out, ids := R.Reconciled(mid, byTitle, ds, rowIds, true, n), R.AliasIds(byTitle, ds, rowIds);
    assert ids.Keys == PhrasesOf(cs);
    hide R.Reconciled, R.KeepsPast, R.OnlyAliases, R.Legal, R.Covers, PhrasesOf, R.Titles, R.AliasIds, R.LedgerOwned, MinedBody, Evidence, EntriesOf;
    forall t | t in ids ensures MinedRow(out, ids[t], t, cs) {
      R.WantedIsLive(mid, byTitle, ds, rowIds, true, n, t);
      MinedBodyIsRow(out, ids[t], t, cs, R.Wanted(ds)[t].body);
    }
    forall a, t | R.LiveTitled(out, a, t)
      ensures t in ids ==> a == ids[t]
      ensures t !in ids ==> a in rows && out[a] == rows[a] && R.LedgerOwned(rows[a])
    {
      R.LiveRowIsTheOne(mid, byTitle, ds, rowIds, true, n, a, t);
    }
  }

  lemma MinedBodyIsRow(out: R.Rows, a: ArtifactId, t: string, cs: seq<Contribution>, b: Body)
    requires MinedBody(b, cs, t) && R.LiveTitled(out, a, t) && out[a].body == Some(b)
    ensures MinedRow(out, a, t, cs)
  {
    hide Evidence;
  }

  predicate MinedBody(b: Body, cs: seq<Contribution>, t: string) {
    b.AliasBody? && b.provenance == BuildMined && b.evidence == Evidence(cs, t)
  }

  /** Whatever duplicates and same-build invalidations were loaded, at most one
      live row per phrase is left. */
  lemma StageOneLive(db: Db, i: AliasInput, c: AliasChoice, rules: Rules, n: int)
    requires LegalChoice(db, i, c, rules, n)
    ensures R.OneLivePerTitle(AliasStage(db, i, c, rules, n).artifacts)
  {
    StageIsLegal(db, i, c, rules, n);
    StageIsReconciled(db, i, c, rules, n);
    hide *;
    var rows, byTitle, cs := db.artifacts, ByTitle(db.artifacts, c.rowOrder), StageContributions(db.artifacts, i, c, rules, n);
    R.ReconciledOneLive(Deduped(rows, byTitle, n), byTitle, StageRows(i, cs, c, rules), c.rowIds, true, n);
  }

  lemma StageKeepsRows(db: Db, i: AliasInput, c: AliasChoice, rules: Rules, n: int)
    requires LegalChoice(db, i, c, rules, n)
    ensures R.KeepsPast(db.artifacts, AliasStage(db, i, c, rules, n).artifacts, n)
    ensures R.OnlyAliases(db.artifacts, AliasStage(db, i, c, rules, n).artifacts)
  {
    StageIsLegal(db, i, c, rules, n);
    StageIsReconciled(db, i, c, rules, n);
    hide *;
    var rows, byTitle, cs := db.artifacts, ByTitle(db.artifacts, c.rowOrder), StageContributions(db.artifacts, i, c, rules, n);
    R.ReconciledKeepsPast(Deduped(rows, byTitle, n), byTitle, StageRows(i, cs, c, rules), c.rowIds, true, n);
    KeepsTransitive(rows, Deduped(rows, byTitle, n), AliasStage(db, i, c, rules, n).artifacts, n);
  }

  // ------------------------------------------------------- evidence afterwards

  /** The evidence items of all live alias rows. */
  function LiveItems(rows: R.Rows): set<Item> {
    set a, e | a in rows && LiveAlias(rows[a]) && e in EntriesOf(rows[a]) :: Item(rows[a].title.value, e)
  }

  predicate LiveAlias(row: Artifact) {
    row.kind == AliasReference && row.gone.None? && row.title.Some?
  }

  /** Rows the ledger pass owns name no mined source. */
  ghost predicate LedgerClean(rows: R.Rows) {
    forall a :: a in rows && LiveAlias(rows[a]) && R.LedgerOwned(rows[a]) ==> NamesNoSource(EntriesOf(rows[a]))
  }

  ghost predicate NamesNoSource(entries: seq<EvidenceEntry>) {
    forall e :: e in entries ==> e.Missed?
  }

  /** The live rows hold the evidence of this build's contributions, no more, no less. */
  lemma OutcomeEvidence(rows: R.Rows, out: R.Rows, ids: map<string, ArtifactId>, cs: seq<Contribution>, n: int)
    requires RowsOutcome(rows, out, ids, cs, n) && LedgerClean(rows)
    ensures HoldsEvidence(LiveItems(out), cs) && LedgerClean(out)
  {
    forall a | a in out && LiveAlias(out[a]) && R.LedgerOwned(out[a]) ensures NamesNoSource(EntriesOf(out[a])) {
      var t := out[a].title.value;
      assert R.LiveTitled(out, a, t);
    }
    forall t, e: EvidenceEntry | e.Mined? ensures Item(t, e) in LiveItems(out) <==> e in Evidence(cs, t) {
      if Item(t, e) in LiveItems(out) {
        var a :| a in out && LiveAlias(out[a]) && e in EntriesOf(out[a]) && out[a].title == Some(t);
        assert R.LiveTitled(out, a, t);
        assert !NamesNoSource(EntriesOf(out[a]));
        assert MinedRow(out, ids[t], t, cs);
      }
      if e in Evidence(cs, t) {
        EvidenceFromContribution(cs, t, e);
        assert t in ids;
        assert MinedRow(out, ids[t], t, cs);
        assert LiveAlias(out[ids[t]]) && e in EntriesOf(out[ids[t]]);
      }
    }
  }

  /** Replay stays sound from build to build: starting from faithful evidence, the
      stage equals mining every live source afresh and leaves faithful evidence. */
  lemma StageKeepsWatermark(db: Db, i: AliasInput, c: AliasChoice, rules: Rules, n: int)
    requires LegalChoice(db, i, c, rules, n)
    requires Replayable(db.artifacts, n, rules.mine) && LedgerClean(db.artifacts)
    ensures StageContributions(db.artifacts, i, c, rules, n) == FreshContributions(i.inputs, rules.mine)
    ensures RowsOutcome(db.artifacts, AliasStage(db, i, c, rules, n).artifacts, StageAliasIds(db, i, c, rules, n),
                        FreshContributions(i.inputs, rules.mine), n)
    ensures Watermarked(LiveItems(AliasStage(db, i, c, rules, n).artifacts), rules.mine)
    ensures LedgerClean(AliasStage(db, i, c, rules, n).artifacts)
  {
    StageReplaysFaithfully(db, i, c, rules, n);
    hide *;
    var cs, out := FreshContributions(i.inputs, rules.mine), AliasStage(db, i, c, rules, n).artifacts;
    StageRowsOutcome(db, i, c, rules, n);
    OutcomeEvidence(db.artifacts, out, StageAliasIds(db, i, c, rules, n), cs, n);
    WrittenRowsAreWatermarked(LiveItems(out), i.inputs, rules.mine);
  }

  // ------------------------------------------------------- edges afterwards

  /** The live edges of the miner stand one to one for the computed pairs. */
  lemma StageEdgesAreExact(db: Db, i: AliasInput, c: AliasChoice, rules: Rules, n: int)
    requires LegalChoice(db, i, c, rules, n)
    ensures E.InBijection(AliasStage(db, i, c, rules, n).edges, StagePairs(db, i, c, rules, n))
  {
    E.EdgesAreExact(db.edges, StagePairs(db, i, c, rules, n), c.edgeOrder, c.missing, c.edgeIds, n);
    hide StageContributions, StageEdges, E.InBijection, E.Reconciled, R.AliasIds, R.Reconciled, StageRows;
  }

  predicate SoundEdge(d: Db, e: Edge) {
    && LiveArtifact(d, e.from) && d.artifacts[e.from].kind == AliasReference
    && d.artifacts[e.from].title.Some? && !R.LedgerOwned(d.artifacts[e.from])
    && LiveArtifact(d, e.to) && d.artifacts[e.to].kind != AliasReference
    && 0.0 < e.confidence <= 1.0
  }

  lemma PairIsSound(db: Db, i: AliasInput, c: AliasChoice, rules: Rules, n: int, p: E.Pair)
    requires LegalChoice(db, i, c, rules, n) && TidyMiner(rules.mine) && IsRanking(rules.rank)
    requires StageContributions(db.artifacts, i, c, rules, n) == FreshContributions(i.inputs, rules.mine)
    requires p in StagePairs(db, i, c, rules, n)
    ensures p.alias in StageAliasIds(db, i, c, rules, n).Values && p.target in i.paths.Values
    ensures 0.0 < StagePairs(db, i, c, rules, n)[p].confidence <= 1.0
  {
    var ids := StageAliasIds(db, i, c, rules, n);
    assert StagePairs(db, i, c, rules, n) ==
      DesiredEdges(Aggregates(FreshContributions(i.inputs, rules.mine), c.phraseOrder, rules.rank), ids, i.paths);
    hide *;
    DesiredEdgesAreSound(i.inputs, rules.mine, c.phraseOrder, rules.rank, ids, i.paths, p);
  }

  /** Every live edge of the miner joins a live alias row of its own to a live artifact
      that is no alias row, with confidence in (0, 1]. */
  lemma StageEdgeIsSound(db: Db, i: AliasInput, c: AliasChoice, rules: Rules, n: int, e: EdgeId)
    requires LegalChoice(db, i, c, rules, n) && TidyMiner(rules.mine) && IsRanking(rules.rank)
    requires StageContributions(db.artifacts, i, c, rules, n) == FreshContributions(i.inputs, rules.mine)
    requires E.LiveOwned(AliasStage(db, i, c, rules, n).edges, e)
    ensures SoundEdge(AliasStage(db, i, c, rules, n), AliasStage(db, i, c, rules, n).edges[e])
  {
    var d, pairs, ids := AliasStage(db, i, c, rules, n), StagePairs(db, i, c, rules, n), StageAliasIds(db, i, c, rules, n);
    assert Resolved(db.artifacts, i.paths);
    hide *;
    StageEdgesAreExact(db, i, c, rules, n);
    var p := ExactMeansDesired(d.edges, pairs, e);
    PairIsSound(db, i, c, rules, n, p);
    StageRowsOutcome(db, i, c, rules, n);
    PairIsLive(db.artifacts, d, ids, FreshContributions(i.inputs, rules.mine), n, i.paths, e);
  }

  lemma PairIsLive(rows: R.Rows, d: Db, ids: map<string, ArtifactId>, cs: seq<Contribution>, n: int,
                   paths: map<string, ArtifactId>, e: EdgeId)
    requires RowsOutcome(rows, d.artifacts, ids, cs, n) && Resolved(rows, paths) && e in d.edges
    requires d.edges[e].from in ids.Values && d.edges[e].to in paths.Values && 0.0 < d.edges[e].confidence <= 1.0
    ensures SoundEdge(d, d.edges[e])
  {
    var t :| t in ids && ids[t] == d.edges[e].from;
    assert MinedRow(d.artifacts, ids[t], t, cs);
    var q :| q in paths && paths[q] == d.edges[e].to;
  }

  lemma ExactMeansDesired(edges: E.Edges, pairs: map<E.Pair, E.Facts>, e: EdgeId) returns (p: E.Pair)
    requires E.InBijection(edges, pairs) && E.LiveOwned(edges, e)
    ensures e in edges && p in pairs
    ensures edges[e].from == p.alias && edges[e].to == p.target && edges[e].confidence == pairs[p].confidence
  {
    p := E.PairOf(edges[e]);
  }
}
