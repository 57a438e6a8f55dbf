/** The alias miner as it runs: load and de-duplicate, replay or mine, aggregate,
    reconcile rows, reconcile edges. */
module AliasRun {
  import opened Prelude
  import opened Registry
  import opened AliasReplay
  import opened AliasAggregates
  import opened AliasIndex
  import opened AliasOutcome
  import R = AliasRows
  import E = AliasEdges

  // ------------------------------------------------------- loading

  /** Duplicates found among the rows seen so far. */
  predicate Dropped(rows: R.Rows, seen: seq<ArtifactId>, a: ArtifactId) {
    a in rows && a in seen && rows[a].gone.None? && rows[a].title.Some? &&
    rows[a].title.value in ByTitle(rows, seen) && ByTitle(rows, seen)[rows[a].title.value] != a
  }

  function DroppedRows(rows: R.Rows, seen: seq<ArtifactId>, n: int): R.Rows {
    map a | a in rows :: if Dropped(rows, seen, a) then rows[a].(gone := Some(n)) else rows[a]
  }

  lemma DroppedGrows(rows: R.Rows, seen: seq<ArtifactId>, last: ArtifactId, a: ArtifactId)
    requires last !in seen && last in rows
    ensures Dropped(rows, seen + [last], a) <==>
      (Dropped(rows, seen, a) || (a == last && rows[a].gone.None? && rows[a].title.Some? && rows[a].title.value in ByTitle(rows, seen)))
  {
    assert (seen + [last])[..|seen|] == seen;
    if a in rows && rows[a].title.Some? {
      var t := rows[a].title.value;
      ByTitleRows(rows, seen, t);
      if a in seen {
        var k :| 0 <= k < |seen| && seen[k] == a;
        ByTitleIsFirst(rows, seen, k, t);
      }
    }
  }

  lemma DroppedRowsStep(rows: R.Rows, seen: seq<ArtifactId>, last: ArtifactId, n: int)
    requires last !in seen && last in rows
    ensures var t := rows[last].title; var mid := DroppedRows(rows, seen, n);
      && last in mid && mid[last] == rows[last]
      && DroppedRows(rows, seen + [last], n) ==
         (if rows[last].gone.None? && t.Some? && t.value in ByTitle(rows, seen) then mid[last := rows[last].(gone := Some(n))] else mid)
      && ByTitle(rows, seen + [last]) ==
         (if t.Some? && t.value !in ByTitle(rows, seen) then ByTitle(rows, seen)[t.value := last] else ByTitle(rows, seen))
  {
    assert (seen + [last])[..|seen|] == seen;
    forall a { DroppedGrows(rows, seen, last, a); }
    assert !Dropped(rows, seen, last);
    hide Dropped, ByTitle;
    var t, mid, out := rows[last].title, DroppedRows(rows, seen, n), DroppedRows(rows, seen + [last], n);
    forall a | a in rows && a != last ensures out[a] == mid[a] {}
  }

  lemma DroppedAreDuplicates(rows: R.Rows, order: seq<ArtifactId>, n: int)
    requires ListsAliases(rows, order, n)
    ensures DroppedRows(rows, order, n) == Deduped(rows, ByTitle(rows, order), n)
  {
    hide ByTitle;
    forall a | a in rows ensures Dropped(rows, order, a) <==> Duplicate(a, rows[a], ByTitle(rows, order)) {
      assert a in order <==> Loadable(rows[a], n);
    }
  }

  lemma LoadingStarts(rows: R.Rows, order: seq<ArtifactId>, n: int)
    requires ListsAliases(rows, order, n)
    ensures ByTitle(rows, order[..0]) == map[] && DroppedRows(rows, order[..0], n) == rows
    ensures order[..|order|] == order
    ensures DroppedRows(rows, order, n) == Deduped(rows, ByTitle(rows, order), n)
    ensures R.OneLivePerTitle(Deduped(rows, ByTitle(rows, order), n))
  {
    LoadedIndex(rows, order, n);
    DroppedAreDuplicates(rows, order, n);
    assert order[..0] == [];
    assert forall a :: !Dropped(rows, [], a);
  }

  lemma NextRow(rows: R.Rows, order: seq<ArtifactId>, n: int, k: nat)
    requires ListsAliases(rows, order, n) && k < |order|
    ensures order[k] in rows && order[k] !in order[..k] && order[..k + 1] == order[..k] + [order[k]]
  {
    assert order[k] in order;
  }

  /** The first row of a title is kept; another live one leaves at this build. */
  method LoadPriorAliasRows(store: Store, order: seq<ArtifactId>, n: int) returns (byTitle: map<string, ArtifactId>)
    requires ListsAliases(store.artifacts, order, n)
    modifies store`artifacts
    ensures byTitle == ByTitle(old(store.artifacts), order)
    ensures store.artifacts == Deduped(old(store.artifacts), byTitle, n)
    ensures R.OneLivePerTitle(store.artifacts)
  {
    ghost var rows := store.artifacts;
    LoadingStarts(rows, order, n);
    byTitle := map[];
    hide *;
    for k := 0 to |order|
      invariant byTitle == ByTitle(rows, order[..k])
      invariant store.artifacts == DroppedRows(rows, order[..k], n)
    {
      NextRow(rows, order, n, k);
      DroppedRowsStep(rows, order[..k], order[k], n);
      var row := store.artifacts[order[k]];
      if row.title.Some? {
        if row.title.value in byTitle {
          if row.gone.None? {
            store.artifacts := store.artifacts[order[k] := row.(gone := Some(n))];
          }
        } else {
          byTitle := byTitle[row.title.value := order[k]];
        }
      }
    }
  }

  // ------------------------------------------------------- aggregating

  lemma PhrasesGrow(cs: seq<Contribution>, last: Contribution)
    ensures PhrasesOf(cs + [last]) == PhrasesOf(cs) + last.phrases.Keys
  {
    assert forall c :: c in cs + [last] <==> c in cs || c == last;
    assert last in cs + [last];
    forall t | t in last.phrases ensures t in PhrasesOf(cs + [last]) {}
  }

  lemma {:induction false} NoEvidence(cs: seq<Contribution>, t: string)
    ensures t !in PhrasesOf(cs) ==> Evidence(cs, t) == []
  {
    if cs != [] {
      var rest, last := cs[..|cs| - 1], cs[|cs| - 1];
      assert cs == rest + [last] && last in cs;
      NoEvidence(rest, t);
      PhrasesGrow(rest, last);
    }
  }

  function Filed(perPhrase: map<string, seq<EvidenceEntry>>, t: string): seq<EvidenceEntry> {
    if t in perPhrase then perPhrase[t] else []
  }

  function EntryOf(c: Contribution, phrases: set<string>, t: string): seq<EvidenceEntry> {
    if t in c.phrases && t in phrases then [Mined(c.key, c.ref, c.hash, c.phrases[t])] else []
  }

  /** One contribution filed under each of its phrases. */
  method FileContribution(perPhrase: map<string, seq<EvidenceEntry>>, c: Contribution)
    returns (r: map<string, seq<EvidenceEntry>>)
    ensures r.Keys == perPhrase.Keys + c.phrases.Keys
    ensures forall t :: t in r ==> r[t] == Filed(perPhrase, t) + EntryOf(c, c.phrases.Keys, t)
  {
    r := perPhrase;
    var todo := c.phrases.Keys;
    while todo != {}
      invariant todo <= c.phrases.Keys
      invariant r.Keys == perPhrase.Keys + (c.phrases.Keys - todo)
      invariant forall t :: t in r ==> r[t] == Filed(perPhrase, t) + EntryOf(c, c.phrases.Keys - todo, t)
      decreases todo
    {
      var t :| t in todo;
      todo := todo - {t};
      var entry := Mined(c.key, c.ref, c.hash, c.phrases[t]);
      r := r[t := (if t in r then r[t] else []) + [entry]];
    }
  }

  /** Contributions grouped by phrase, in source order. */
  method GroupByPhrase(cs: seq<Contribution>) returns (m: map<string, seq<EvidenceEntry>>)
    ensures m.Keys == PhrasesOf(cs)
    ensures forall t :: t in m ==> m[t] == Evidence(cs, t)
  {
    m := map[];
    for k := 0 to |cs|
      invariant m.Keys == PhrasesOf(cs[..k])
      invariant forall t :: t in m ==> m[t] == Evidence(cs[..k], t)
    {
      assert cs[..k + 1] == cs[..k] + [cs[k]] && cs[..k + 1][..k] == cs[..k];
      PhrasesGrow(cs[..k], cs[k]);
      forall t { NoEvidence(cs[..k], t); }
      hide PhrasesOf;
      m := FileContribution(m, cs[k]);
    }
    assert cs[..|cs|] == cs;
  }

  method AggregateOne(phrase: string, evidence: seq<EvidenceEntry>, rank: Ranker) returns (a: Aggregate)
    ensures forall cs :: evidence == Evidence(cs, phrase) ==> a == AggregateOf(cs, phrase, rank)
  {
    var counts := CountTargets(evidence);
    CountsAre(counts, evidence);
    var ranked := rank(phrase, counts);
    var top := ranked[..Min(|ranked|, MAX_BODY_TARGETS)];
    a := Aggregate(phrase, |evidence|,
                   seq(|top|, i requires 0 <= i < |top| => Ranked(top[i], if top[i] in counts then counts[top[i]] else 0)),
                   evidence);
    forall cs | evidence == Evidence(cs, phrase) ensures a == AggregateOf(cs, phrase, rank) {
      assert a.targets == AggregateOf(cs, phrase, rank).targets;
    }
  }

  lemma CountsAre(counts: map<string, nat>, evidence: seq<EvidenceEntry>)
    requires counts.Keys == Paths(evidence) && forall p :: Get(counts, p) == CountOf(evidence, p)
    ensures counts == Counts(evidence)
  {
    hide Paths, CountOf;
    forall p | p in counts ensures counts[p] == CountOf(evidence, p) { assert Get(counts, p) == CountOf(evidence, p); }
  }

  /** Per-phrase aggregates in phrase order. */
  method AggregateContributions(cs: seq<Contribution>, phraseOrder: seq<string>, rank: Ranker) returns (aggs: seq<Aggregate>)
    requires LegalPhrases(cs, phraseOrder)
    ensures aggs == Aggregates(cs, phraseOrder, rank)
  {
    aggs := [];
    var perPhrase := GroupByPhrase(cs);
    forall k | 0 <= k < |phraseOrder| ensures phraseOrder[k] in PhrasesOf(cs) { assert phraseOrder[k] in phraseOrder; }
    hide AggregateOf, PhrasesOf, Evidence, LegalPhrases;
    for k := 0 to |phraseOrder|
      invariant |aggs| == k
      invariant forall j :: 0 <= j < k ==> aggs[j] == AggregateOf(cs, phraseOrder[j], rank)
    {
      var agg := AggregateOne(phraseOrder[k], perPhrase[phraseOrder[k]], rank);
      assert agg == AggregateOf(cs, phraseOrder[k], rank);
      aggs := aggs + [agg];
    }
  }

  // ------------------------------------------------------- desired edges

  /** Evidence refs per target path. */
  method RefsByPath(evidence: seq<EvidenceEntry>, path: string) returns (refs: multiset<string>)
    ensures refs == RefsOf(evidence, path)
  {
    refs := multiset{};
    for k := 0 to |evidence|
      invariant refs == RefsOf(evidence[..k], path)
    {
      assert evidence[..k + 1][..k] == evidence[..k];
      var e := evidence[k];
      if e.Mined? && path in e.targets { refs := refs + multiset{e.ref}; }
    }
    assert evidence[..|evidence|] == evidence;
  }

  method EdgesOfOne(agg: Aggregate, alias: ArtifactId, paths: map<string, ArtifactId>) returns (m: map<E.Pair, E.Facts>)
    ensures m == EdgesOf(agg, alias, paths, Min(|agg.targets|, MAX_EDGE_TARGETS))
  {
    m := map[];
    hide RefsOf;
    for k := 0 to Min(|agg.targets|, MAX_EDGE_TARGETS)
      invariant m == EdgesOf(agg, alias, paths, k)
    {
      var r := agg.targets[k];
      if r.path in paths {
        var refs := RefsByPath(agg.evidence, r.path);
        m := m[E.Pair(alias, paths[r.path]) := E.Facts(ConfidenceOf(agg, r), AliasPointer(agg.phrase, r.path, refs))];
      }
    }
  }

  /** The computed pairs of all aggregates that have a row. */
  method ComputeDesiredEdges(aggs: seq<Aggregate>, aliasIds: map<string, ArtifactId>, paths: map<string, ArtifactId>)
    returns (m: map<E.Pair, E.Facts>)
    ensures m == DesiredEdges(aggs, aliasIds, paths)
  {
    m := map[];
    hide EdgesOf;
    for k := 0 to |aggs|
      invariant m == DesiredEdges(aggs[..k], aliasIds, paths)
    {
      assert aggs[..k + 1][..k] == aggs[..k];
      var agg := aggs[k];
      if agg.phrase in aliasIds {
        var more := EdgesOfOne(agg, aliasIds[agg.phrase], paths);
        m := m + more;
      }
    }
    assert aggs[..|aggs|] == aggs;
  }

  // ------------------------------------------------------- the pass

  datatype MinerResult = MinerResult(seen: nat, mined: nat, skipped: nat, phrases: nat,
                                     rowsInserted: nat, rowsInvalidated: nat, edgesInserted: nat, edgesInvalidated: nat)

  lemma LoadedTitles(db: Db, i: AliasInput, c: AliasChoice, rules: Rules, n: int)
    requires LegalChoice(db, i, c, rules, n)
    ensures var byTitle := ByTitle(db.artifacts, c.rowOrder);
      && ListsAliases(db.artifacts, c.rowOrder, n)
      && (forall t :: t in c.titles ==> t in Prior(Deduped(db.artifacts, byTitle, n), byTitle))
      && LegalPhrases(StageContributions(db.artifacts, i, c, rules, n), c.phraseOrder)
  {
    hide StageContributions, LegalPhrases;
  }

  /** Load the rows, then replay unchanged sources and mine the others. */
  method CollectContributions(store: Store, i: AliasInput, c: AliasChoice, rules: Rules, n: int)
    returns (byTitle: map<string, ArtifactId>, contributions: seq<Contribution>, mined: nat, skipped: nat)
    requires LegalChoice(store.Snapshot(), i, c, rules, n)
    modifies store`artifacts
    ensures byTitle == ByTitle(old(store.artifacts), c.rowOrder)
    ensures store.artifacts == Deduped(old(store.artifacts), byTitle, n)
    ensures contributions == StageContributions(old(store.artifacts), i, c, rules, n)
    ensures mined + skipped == |i.inputs| && skipped == |StageReplayed(old(store.artifacts), i, c, n)|
  {
    ghost var db := store.Snapshot();
    LoadedTitles(db, i, c, rules, n);
    hide *;
    byTitle := LoadPriorAliasRows(store, c.rowOrder, n);
    var w := PriorExtractions(Prior(store.artifacts, byTitle), c.titles);
    contributions, mined, skipped := Contribute(w, i.inputs, rules.mine);
    ReplayedAre(db, i, c, n, byTitle, store.artifacts, w);
    ContributionsAre(db, i, c, rules, n, byTitle, store.artifacts, contributions);
  }

  /** Reconcile rows, then edges, with what the contributions amount to. */
  method ReconcileWith(store: Store, i: AliasInput, cs: seq<Contribution>, byTitle: map<string, ArtifactId>,
                       c: AliasChoice, rules: Rules, n: int)
    returns (rowsInserted: nat, rowsInvalidated: nat, edgesInserted: nat, edgesInvalidated: nat)
    requires LegalPhrases(cs, c.phraseOrder)
    requires R.Legal(store.artifacts, byTitle, StageRows(i, cs, c, rules), c.rowIds)
    requires E.LegalEdges(store.edges, StageEdges(i, cs, c, rules, R.AliasIds(byTitle, StageRows(i, cs, c, rules), c.rowIds)),
                          c.edgeOrder, c.missing, c.edgeIds, n)
    modifies store`artifacts, store`edges
    ensures store.artifacts == R.Reconciled(old(store.artifacts), byTitle, StageRows(i, cs, c, rules), c.rowIds, true, n)
    ensures store.edges ==
      E.Reconciled(old(store.edges), StageEdges(i, cs, c, rules, R.AliasIds(byTitle, StageRows(i, cs, c, rules), c.rowIds)),
                   c.edgeOrder, c.missing, c.edgeIds, n)
    ensures rowsInserted == |store.artifacts| - |old(store.artifacts)| && edgesInserted == |store.edges| - |old(store.edges)|
    ensures rowsInvalidated == |R.LeftRows(old(store.artifacts), store.artifacts)|
    ensures edgesInvalidated == |E.LeftFrom(old(store.edges), store.edges)|
  {
    hide *;
    var aggs := AggregateContributions(cs, c.phraseOrder, rules.rank);
    var ds := DesiredRows(aggs, Anchors(i.inputs), i.paths, rules.acl);
    RowsAre(i, cs, c, rules, aggs, ds);
    var aliasIds, x, y;
    rowsInserted, x, y, rowsInvalidated, aliasIds := R.Reconcile(store, byTitle, ds, c.rowIds, true, n);
    var desired := ComputeDesiredEdges(aggs, aliasIds, i.paths);
    PairsAre(i, cs, c, rules, aggs, aliasIds, desired);
    edgesInserted, x, y, edgesInvalidated := E.ReconcileEdges(store, desired, c.edgeOrder, c.missing, c.edgeIds, n);
  }

  /** The two phases in turn. */
  method ReplayMineReconcile(store: Store, i: AliasInput, c: AliasChoice, rules: Rules, n: int, ghost db: Db) returns (result: MinerResult)
    requires db == store.Snapshot() && LegalChoice(db, i, c, rules, n)
    modifies store`artifacts, store`edges
    ensures store.artifacts == AliasStage(db, i, c, rules, n).artifacts && store.edges == AliasStage(db, i, c, rules, n).edges
    ensures result.mined + result.skipped == result.seen == |i.inputs| && result.skipped == |StageReplayed(db.artifacts, i, c, n)|
    ensures result.rowsInserted == |store.artifacts| - |db.artifacts| && result.edgesInserted == |store.edges| - |db.edges|
    ensures R.OneLivePerTitle(db.artifacts) ==> result.rowsInvalidated == |R.LeftRows(db.artifacts, store.artifacts)|
    ensures result.edgesInvalidated == |E.LeftFrom(db.edges, store.edges)|
  {
    StageOutcome(db, i, c, rules, n);
    DedupedCount(db, i, c, rules, n);
    hide *;
    var byTitle, contributions, mined, skipped := CollectContributions(store, i, c, rules, n);
    var rowsIn, rowsOut, edgesIn, edgesOut := ReconcileWith(store, i, contributions, byTitle, c, rules, n);
    result := MinerResult(|i.inputs|, mined, skipped, |c.phraseOrder|, rowsIn, rowsOut, edgesIn, edgesOut);
  }

  /** Replay unchanged sources, mine the others, and reconcile rows and edges with
      what the contributions amount to. */
  method RunAliasMiner(store: Store, i: AliasInput, c: AliasChoice, rules: Rules, n: int) returns (result: MinerResult)
    requires LegalChoice(store.Snapshot(), i, c, rules, n)
    modifies store`artifacts, store`edges
    ensures store.Snapshot() == AliasStage(old(store.Snapshot()), i, c, rules, n)
    ensures Frozen(old(store.Snapshot()), store.Snapshot(), n)
    ensures R.OneLivePerTitle(store.artifacts)
    ensures E.InBijection(store.edges, StagePairs(old(store.Snapshot()), i, c, rules, n))
    ensures result.mined + result.skipped == result.seen == |i.inputs| && result.skipped == |StageReplayed(old(store.artifacts), i, c, n)|
    ensures result.rowsInserted == |store.artifacts| - |old(store.artifacts)| && result.edgesInserted == |store.edges| - |old(store.edges)|
    ensures R.OneLivePerTitle(old(store.artifacts)) ==> result.rowsInvalidated == |R.LeftRows(old(store.artifacts), store.artifacts)|
    ensures result.edgesInvalidated == |E.LeftFrom(old(store.edges), store.edges)|
  {
    ghost var db := store.Snapshot();
    StageOutcome(db, i, c, rules, n);
    hide *;
    result := ReplayMineReconcile(store, i, c, rules, n, db);
  }

  lemma DedupedCount(db: Db, i: AliasInput, c: AliasChoice, rules: Rules, n: int)
    requires LegalChoice(db, i, c, rules, n)
    ensures var rows, byTitle := db.artifacts, ByTitle(db.artifacts, c.rowOrder);
      |Deduped(rows, byTitle, n)| == |rows| && (R.OneLivePerTitle(rows) ==> Deduped(rows, byTitle, n) == rows)
  {
    var rows, byTitle := db.artifacts, ByTitle(db.artifacts, c.rowOrder);
    if R.OneLivePerTitle(rows) { NothingToDedupe(rows, c.rowOrder, n); }
    assert Deduped(rows, byTitle, n).Keys == rows.Keys;
    assert |Deduped(rows, byTitle, n)| == |Deduped(rows, byTitle, n).Keys| && |rows| == |rows.Keys|;
  }

  /** Everything the pass is proved to end with, in the terms its steps use. */
  lemma StageOutcome(db: Db, i: AliasInput, c: AliasChoice, rules: Rules, n: int)
    requires LegalChoice(db, i, c, rules, n)
    ensures var rows, byTitle, cs := db.artifacts, ByTitle(db.artifacts, c.rowOrder), StageContributions(db.artifacts, i, c, rules, n);
      var d, ds, pairs := AliasStage(db, i, c, rules, n), StageRows(i, cs, c, rules), StagePairs(db, i, c, rules, n);
      && LegalPhrases(cs, c.phraseOrder)
      && R.Legal(Deduped(rows, byTitle, n), byTitle, ds, c.rowIds)
      && E.LegalEdges(db.edges, pairs, c.edgeOrder, c.missing, c.edgeIds, n)
      && pairs == StageEdges(i, cs, c, rules, R.AliasIds(byTitle, ds, c.rowIds))
      && d == db.(artifacts := R.Reconciled(Deduped(rows, byTitle, n), byTitle, ds, c.rowIds, true, n),
                  edges := E.Reconciled(db.edges, pairs, c.edgeOrder, c.missing, c.edgeIds, n))
      && Frozen(db, d, n) && R.OneLivePerTitle(d.artifacts) && E.InBijection(d.edges, pairs)
  {
    StageFreezesPast(db, i, c, rules, n);
    StageOneLive(db, i, c, rules, n);
    StageEdgesAreExact(db, i, c, rules, n);
    StageIsLegal(db, i, c, rules, n);
    StageIsReconciled(db, i, c, rules, n);
    StageEdgesLegal(db, i, c, rules, n);
    hide *;
  }

  lemma StageEdgesLegal(db: Db, i: AliasInput, c: AliasChoice, rules: Rules, n: int)
    requires LegalChoice(db, i, c, rules, n)
    ensures var pairs := StagePairs(db, i, c, rules, n);
      && E.LegalEdges(db.edges, pairs, c.edgeOrder, c.missing, c.edgeIds, n)
      && pairs == StageEdges(i, StageContributions(db.artifacts, i, c, rules, n), c, rules, StageAliasIds(db, i, c, rules, n))
      && AliasStage(db, i, c, rules, n) ==
         db.(artifacts := AliasStage(db, i, c, rules, n).artifacts,
             edges := E.Reconciled(db.edges, pairs, c.edgeOrder, c.missing, c.edgeIds, n))
  {
    hide StageContributions, StageEdges, R.Reconciled, E.Reconciled, R.AliasIds, StageRows, E.LegalEdges;
  }

  lemma ReplayedAre(db: Db, i: AliasInput, c: AliasChoice, n: int, byTitle: map<string, ArtifactId>, loaded: R.Rows, w: Watermark)
    requires byTitle == ByTitle(db.artifacts, c.rowOrder) && loaded == Deduped(db.artifacts, byTitle, n)
    requires w == AbsorbAll(AllItems(Prior(loaded, byTitle), c.titles))
    ensures Replayed(w, i.inputs) == StageReplayed(db.artifacts, i, c, n)
  {}

  lemma ContributionsAre(db: Db, i: AliasInput, c: AliasChoice, rules: Rules, n: int, byTitle: map<string, ArtifactId>,
                         loaded: R.Rows, cs: seq<Contribution>)
    requires byTitle == ByTitle(db.artifacts, c.rowOrder) && loaded == Deduped(db.artifacts, byTitle, n)
    requires cs == Contributions(AbsorbAll(AllItems(Prior(loaded, byTitle), c.titles)), i.inputs, rules.mine)
    ensures cs == StageContributions(db.artifacts, i, c, rules, n)
  {}

  lemma RowsAre(i: AliasInput, cs: seq<Contribution>, c: AliasChoice, rules: Rules, aggs: seq<Aggregate>, ds: seq<R.Desired>)
    requires aggs == Aggregates(cs, c.phraseOrder, rules.rank)
    requires ds == DesiredRows(aggs, Anchors(i.inputs), i.paths, rules.acl)
    ensures ds == StageRows(i, cs, c, rules)
  {}

  lemma PairsAre(i: AliasInput, cs: seq<Contribution>, c: AliasChoice, rules: Rules, aggs: seq<Aggregate>,
                 aliasIds: map<string, ArtifactId>, desired: map<E.Pair, E.Facts>)
    requires aggs == Aggregates(cs, c.phraseOrder, rules.rank) && desired == DesiredEdges(aggs, aliasIds, i.paths)
    ensures desired == StageEdges(i, cs, c, rules, aliasIds)
  {}
}
