/** The two alias passes of a build over the registry: load and de-duplicate the
    prior rows, replay or mine, reconcile rows and edges; then the ledger pass,
    the second owner of alias rows. */
module AliasIndex {
  import opened Prelude
  import opened Registry
  import opened AliasReplay
  import opened AliasAggregates
  import R = AliasRows
  import E = AliasEdges

  // ------------------------------------------------------- loading prior rows

  /** Live rows, and rows the sweeps took out in this very build. */
  predicate Loadable(row: Artifact, n: int) {
    row.kind == AliasReference && (row.gone.None? || row.gone == Some(n))
  }

  /** The rows in load order: live ones first. */
  ghost predicate ListsAliases(rows: R.Rows, order: seq<ArtifactId>, n: int) {
    && (forall i, j :: 0 <= i < j < |order| ==> order[i] != order[j])
    && (forall a :: a in order <==> a in rows && Loadable(rows[a], n))
    && (forall i, j :: 0 <= i < j < |order| && order[i] in rows && order[j] in rows && rows[order[j]].gone.None? ==>
          rows[order[i]].gone.None?)
  }

  /** The first row per title wins. */
  function ByTitle(rows: R.Rows, order: seq<ArtifactId>): map<string, ArtifactId> {
    if order == [] then map[]
    else
      var last := order[|order| - 1];
      var m := ByTitle(rows, order[..|order| - 1]);
      if last in rows && rows[last].title.Some? && rows[last].title.value !in m
      then m[rows[last].title.value := last] else m
  }

  predicate Duplicate(a: ArtifactId, row: Artifact, byTitle: map<string, ArtifactId>) {
    row.kind == AliasReference && row.gone.None? && row.title.Some? &&
    row.title.value in byTitle && byTitle[row.title.value] != a
  }

  /** Extra live rows of a title are retired on load. */
  function Deduped(rows: R.Rows, byTitle: map<string, ArtifactId>, n: int): R.Rows {
    map a | a in rows :: if Duplicate(a, rows[a], byTitle) then rows[a].(gone := Some(n)) else rows[a]
  }

  lemma {:induction false} ByTitleRows(rows: R.Rows, order: seq<ArtifactId>, t: string)
    ensures var m := ByTitle(rows, order);
      t in m ==> m[t] in order && m[t] in rows && rows[m[t]].title == Some(t)
  {
    if order != [] {
      assert order == order[..|order| - 1] + [order[|order| - 1]];
      ByTitleRows(rows, order[..|order| - 1], t);
    }
  }

  /** A row of the order is no later than the row its title is indexed at. */
  lemma {:induction false} ByTitleIsFirst(rows: R.Rows, order: seq<ArtifactId>, k: nat, t: string)
    requires k < |order| && order[k] in rows && rows[order[k]].title == Some(t)
    ensures t in ByTitle(rows, order)
    ensures exists j :: 0 <= j <= k && order[j] == ByTitle(rows, order)[t]
  {
    var rest := order[..|order| - 1];
    if k < |rest| {
      ByTitleIsFirst(rows, rest, k, t);
      var j :| 0 <= j <= k && rest[j] == ByTitle(rows, rest)[t];
      assert order[j] == ByTitle(rows, order)[t];
    } else if t in ByTitle(rows, rest) {
      ByTitleRows(rows, rest, t);
      var j :| 0 <= j < |rest| && rest[j] == ByTitle(rows, rest)[t];
      assert order[j] == ByTitle(rows, order)[t];
    }
  }

  lemma LiveTitleIndexed(rows: R.Rows, order: seq<ArtifactId>, n: int, a: ArtifactId, t: string)
    requires ListsAliases(rows, order, n) && R.LiveTitled(rows, a, t)
    ensures t in ByTitle(rows, order) && R.LiveTitled(rows, ByTitle(rows, order)[t], t)
  {
    assert a in order;
    var k :| 0 <= k < |order| && order[k] == a;
    ByTitleIsFirst(rows, order, k, t);
    ByTitleRows(rows, order, t);
    var j :| 0 <= j <= k && order[j] == ByTitle(rows, order)[t];
  }

  /** After loading there is at most one live row per title, it is the indexed one,
      and no version before `n` changed. */
  lemma LoadedIndex(rows: R.Rows, order: seq<ArtifactId>, n: int)
    requires ListsAliases(rows, order, n)
    ensures var m := ByTitle(rows, order); var out := Deduped(rows, m, n);
      && R.TitleIndex(out, m) && R.RecentIndex(out, m, n)
      && (forall a, t :: R.LiveTitled(out, a, t) ==> t in m && m[t] == a)
      && R.OneLivePerTitle(out)
      && R.KeepsPast(rows, out, n) && R.OnlyAliases(rows, out)
  {
    var m := ByTitle(rows, order);
    var out := Deduped(rows, m, n);
    forall t | t in m
      ensures R.IsAlias(out, m[t]) && out[m[t]].title == Some(t) && (out[m[t]].gone.None? || out[m[t]].gone == Some(n))
    {
      ByTitleRows(rows, order, t);
      assert Loadable(rows[m[t]], n);
    }
    forall a, t | R.LiveTitled(out, a, t) ensures t in m && m[t] == a {
      LiveTitleIndexed(rows, order, n, a, t);
    }
  }

  /** Without duplicates nothing is retired on load. */
  lemma NothingToDedupe(rows: R.Rows, order: seq<ArtifactId>, n: int)
    requires ListsAliases(rows, order, n) && R.OneLivePerTitle(rows)
    ensures Deduped(rows, ByTitle(rows, order), n) == rows
  {
    var m := ByTitle(rows, order);
    forall a, t | R.LiveTitled(rows, a, t) ensures t in m && m[t] == a {
      LiveTitleIndexed(rows, order, n, a, t);
    }
    forall a | a in rows ensures !Duplicate(a, rows[a], m) {
      if rows[a].title.Some? { assert R.LiveTitled(rows, a, rows[a].title.value) <==> rows[a].kind == AliasReference && rows[a].gone.None?; }
    }
    assert forall a | a in rows :: Deduped(rows, m, n)[a] == rows[a];
  }

  // ------------------------------------------------------- stored evidence

  /** The evidence items of all rows a pass at `n` would load. */
  function Stored(rows: R.Rows, n: int): set<Item> {
    set a, e | a in rows && Loadable(rows[a], n) && rows[a].title.Some? && e in EntriesOf(rows[a]) ::
      Item(rows[a].title.value, e)
  }

  function EntriesOf(row: Artifact): seq<EvidenceEntry> {
    if row.body.Some? && row.body.value.AliasBody? then row.body.value.evidence else []
  }

  predicate LoadableTitled(rows: R.Rows, n: int, a: ArtifactId, t: string) {
    a in rows && Loadable(rows[a], n) && rows[a].title == Some(t)
  }

  /** No title has two loadable rows. */
  ghost predicate OneLoadablePerTitle(rows: R.Rows, n: int) {
    forall a, b, t :: LoadableTitled(rows, n, a, t) && LoadableTitled(rows, n, b, t) ==> a == b
  }

  function Prior(rows: R.Rows, byTitle: map<string, ArtifactId>): map<string, Artifact> {
    map t | t in byTitle && byTitle[t] in rows :: rows[byTitle[t]]
  }

  /** `titles` lists the loaded titles, each once. */
  ghost predicate ListsTitles(prior: map<string, Artifact>, titles: seq<string>) {
    forall t :: t in titles <==> t in prior
  }

  lemma {:induction false} ItemsOfRows(prior: map<string, Artifact>, titles: seq<string>, i: Item)
    ensures i in AllItems(prior, titles) <==>
      i.title in titles && i.title in prior && i.entry in EntriesOf(prior[i.title])
  {
    if titles != [] {
      var rest, t := titles[..|titles| - 1], titles[|titles| - 1];
      assert titles == rest + [t];
      ItemsOfRows(prior, rest, i);
      if t in prior { RowItemsAre(prior[t], t, i); }
    }
  }

  lemma RowItemsAre(row: Artifact, t: string, i: Item)
    ensures i in RowItems(row, t) <==> i.title == t && i.entry in EntriesOf(row)
  {
    var entries := EntriesOf(row);
    if i.title == t && i.entry in entries {
      var k :| 0 <= k < |entries| && entries[k] == i.entry;
      assert RowItems(row, t)[k] == i;
    }
  }

  lemma IndexIsLoadable(rows: R.Rows, order: seq<ArtifactId>, n: int, t: string)
    requires ListsAliases(rows, order, n) && t in ByTitle(rows, order)
    ensures LoadableTitled(rows, n, ByTitle(rows, order)[t], t)
  {
    ByTitleRows(rows, order, t);
  }

  /** With one loadable row per title, the index finds it. */
  lemma LoadableIsIndexed(rows: R.Rows, order: seq<ArtifactId>, n: int, a: ArtifactId, t: string)
    requires ListsAliases(rows, order, n) && OneLoadablePerTitle(rows, n) && LoadableTitled(rows, n, a, t)
    ensures t in ByTitle(rows, order) && ByTitle(rows, order)[t] == a
  {
    assert a in order;
    var k :| 0 <= k < |order| && order[k] == a;
    ByTitleIsFirst(rows, order, k, t);
    IndexIsLoadable(rows, order, n, t);
  }

  /** With one loadable row per title, the items the watermark folds over are all
      the evidence the registry stores. */
  lemma LoadedItemsAreStored(rows: R.Rows, order: seq<ArtifactId>, titles: seq<string>, n: int)
    requires ListsAliases(rows, order, n) && OneLoadablePerTitle(rows, n)
    requires ListsTitles(Prior(rows, ByTitle(rows, order)), titles)
    ensures ItemSet(AllItems(Prior(rows, ByTitle(rows, order)), titles)) == Stored(rows, n)
  {
    var m := ByTitle(rows, order);
    var prior := Prior(rows, m);
    forall i ensures i in ItemSet(AllItems(prior, titles)) <==> i in Stored(rows, n) {
      ItemsOfRows(prior, titles, i);
      if i in Stored(rows, n) {
        var a := StoredIn(rows, n, i);
        LoadableIsIndexed(rows, order, n, a, i.title);
      }
      if i.title in m {
        IndexIsLoadable(rows, order, n, i.title);
        if i.title in prior && i.entry in EntriesOf(prior[i.title]) { StoredBy(rows, n, m[i.title], i); }
      }
      hide *;
    }
  }

  lemma StoredIn(rows: R.Rows, n: int, i: Item) returns (a: ArtifactId)
    requires i in Stored(rows, n)
    ensures LoadableTitled(rows, n, a, i.title) && i.entry in EntriesOf(rows[a])
  {
    var b, e :| b in rows && Loadable(rows[b], n) && rows[b].title.Some? && e in EntriesOf(rows[b]) && i == Item(rows[b].title.value, e);
    a := b;
  }

  lemma StoredBy(rows: R.Rows, n: int, a: ArtifactId, i: Item)
    requires LoadableTitled(rows, n, a, i.title) && i.entry in EntriesOf(rows[a])
    ensures i in Stored(rows, n)
  {
    assert Item(rows[a].title.value, i.entry) in Stored(rows, n);
  }

  // ------------------------------------------------------- the miner's stage

  datatype AliasInput = AliasInput(inputs: seq<MiningInput>, paths: map<string, ArtifactId>)

  /** Row orders and fresh identities the database supplies during the stage. */
  datatype AliasChoice = AliasChoice(
    rowOrder: seq<ArtifactId>,
    titles: seq<string>,
    phraseOrder: seq<string>,
    rowIds: seq<ArtifactId>,
    edgeOrder: seq<EdgeId>,
    missing: seq<E.Pair>,
    edgeIds: seq<EdgeId>)

  /** What the stage computes from: extraction, ranking, ACL rule. */
  datatype Rules = Rules(mine: Miner, rank: Ranker, acl: seq<string> -> Acl)

  function StageContributions(rows: R.Rows, i: AliasInput, c: AliasChoice, rules: Rules, n: int): seq<Contribution> {
    var byTitle := ByTitle(rows, c.rowOrder);
    var prior := Prior(Deduped(rows, byTitle, n), byTitle);
    Contributions(AbsorbAll(AllItems(prior, c.titles)), i.inputs, rules.mine)
  }

  function StageRows(i: AliasInput, cs: seq<Contribution>, c: AliasChoice, rules: Rules): seq<R.Desired> {
    DesiredRows(Aggregates(cs, c.phraseOrder, rules.rank), Anchors(i.inputs), i.paths, rules.acl)
  }

  function StageEdges(i: AliasInput, cs: seq<Contribution>, c: AliasChoice, rules: Rules, aliasIds: map<string, ArtifactId>): map<E.Pair, E.Facts> {
    DesiredEdges(Aggregates(cs, c.phraseOrder, rules.rank), aliasIds, i.paths)
  }

  ghost predicate LegalPhrases(cs: seq<Contribution>, phraseOrder: seq<string>) {
    && (forall k, l :: 0 <= k < l < |phraseOrder| ==> phraseOrder[k] != phraseOrder[l])
    && (forall t :: t in phraseOrder <==> t in PhrasesOf(cs))
  }

  /** The desired edge targets are live artifacts that are not alias rows. */
  ghost predicate Resolved(rows: R.Rows, paths: map<string, ArtifactId>) {
    forall p :: p in paths ==> paths[p] in rows && rows[paths[p]].gone.None? && rows[paths[p]].kind != AliasReference
  }

  ghost predicate LegalChoice(db: Db, i: AliasInput, c: AliasChoice, rules: Rules, n: int) {
    var rows := db.artifacts;
    var byTitle := ByTitle(rows, c.rowOrder);
    var cs := StageContributions(rows, i, c, rules, n);
    && ListsAliases(rows, c.rowOrder, n)
    && ListsTitles(Prior(Deduped(rows, byTitle, n), byTitle), c.titles)
    && LegalPhrases(cs, c.phraseOrder)
    && |c.rowIds| == |c.phraseOrder| && R.FreshIds(rows, c.rowIds)
    && Resolved(rows, i.paths)
    && E.LegalEdges(db.edges, StageEdges(i, cs, c, rules, R.AliasIds(byTitle, StageRows(i, cs, c, rules), c.rowIds)),
                    c.edgeOrder, c.missing, c.edgeIds, n)
  }

  /** The registry after the miner. */
  function AliasStage(db: Db, i: AliasInput, c: AliasChoice, rules: Rules, n: int): Db
    requires LegalChoice(db, i, c, rules, n)
  {
    var rows := db.artifacts;
    var byTitle := ByTitle(rows, c.rowOrder);
    var cs := StageContributions(rows, i, c, rules, n);
    var ds := StageRows(i, cs, c, rules);
    var aliasIds := R.AliasIds(byTitle, ds, c.rowIds);
    db.(artifacts := R.Reconciled(Deduped(rows, byTitle, n), byTitle, ds, c.rowIds, true, n),
        edges := E.Reconciled(db.edges, StageEdges(i, cs, c, rules, aliasIds), c.edgeOrder, c.missing, c.edgeIds, n))
  }

  // ------------------------------------------------------- what the stage guarantees

  lemma DesiredPhrases(i: AliasInput, cs: seq<Contribution>, c: AliasChoice, rules: Rules)
    requires LegalPhrases(cs, c.phraseOrder)
    ensures R.DistinctPhrases(StageRows(i, cs, c, rules))
    ensures R.Titles(StageRows(i, cs, c, rules)) == PhrasesOf(cs)
  {
    var ds := StageRows(i, cs, c, rules);
    forall k | 0 <= k < |ds| ensures ds[k].phrase == c.phraseOrder[k] {}
    forall t ensures t in R.Titles(ds) <==> t in PhrasesOf(cs) {
      if t in PhrasesOf(cs) {
        assert t in c.phraseOrder;
        var k :| 0 <= k < |c.phraseOrder| && c.phraseOrder[k] == t;
        assert ds[k] in ds;
      }
      if t in R.Titles(ds) {
        var d :| d in ds && d.phrase == t;
        var k :| 0 <= k < |ds| && ds[k] == d;
        assert c.phraseOrder[k] in c.phraseOrder;
      }
    }
  }

  /** The facts about loading that every reconcile needs. */
  lemma StageIsLegal(db: Db, i: AliasInput, c: AliasChoice, rules: Rules, n: int)
    requires LegalChoice(db, i, c, rules, n)
    ensures var rows, byTitle, cs := db.artifacts, ByTitle(db.artifacts, c.rowOrder), StageContributions(db.artifacts, i, c, rules, n);
      var ds := StageRows(i, cs, c, rules);
      && R.Legal(Deduped(rows, byTitle, n), byTitle, ds, c.rowIds)
      && R.Covers(Deduped(rows, byTitle, n), byTitle, ds)
      && R.RecentIndex(Deduped(rows, byTitle, n), byTitle, n)
      && R.OneLivePerTitle(Deduped(rows, byTitle, n))
      && R.KeepsPast(rows, Deduped(rows, byTitle, n), n) && R.OnlyAliases(rows, Deduped(rows, byTitle, n))
  {
    LoadedIndex(db.artifacts, c.rowOrder, n);
    DesiredPhrases(i, StageContributions(db.artifacts, i, c, rules, n), c, rules);
    hide ByTitle, AggregateOf, StageContributions;
  }

  lemma RowsKeepPastTransitive(a: R.Rows, b: R.Rows, c: R.Rows, n: int)
    requires R.KeepsPast(a, b, n) && R.KeepsPast(b, c, n)
    ensures R.KeepsPast(a, c, n)
  {}

  /** The stage leaves every version before `n` alone. */
  lemma StageFreezesPast(db: Db, i: AliasInput, c: AliasChoice, rules: Rules, n: int)
    requires LegalChoice(db, i, c, rules, n)
    ensures Frozen(db, AliasStage(db, i, c, rules, n), n)
  {
    StageIsLegal(db, i, c, rules, n);
    var rows, byTitle, cs := db.artifacts, ByTitle(db.artifacts, c.rowOrder), StageContributions(db.artifacts, i, c, rules, n);
    var ds := StageRows(i, cs, c, rules);
    var d := AliasStage(db, i, c, rules, n);
    R.ReconciledKeepsPast(Deduped(rows, byTitle, n), byTitle, ds, c.rowIds, true, n);
    RowsKeepPastTransitive(rows, Deduped(rows, byTitle, n), d.artifacts, n);
    hide *;
    EdgesKeepPastAll(db, i, c, rules, n);
    RowsAndEdgesFreeze(db, d, n);
  }

  ghost predicate EdgesKeep(edges: E.Edges, out: E.Edges, n: int) {
    && (forall e :: e in edges ==>
          e in out && out[e].validFrom == edges[e].validFrom &&
          SamePast(edges[e].gone, out[e].gone, n) && MovedAt(edges[e].gone, out[e].gone, n) &&
          E.PairOf(out[e]) == E.PairOf(edges[e]))
    && (forall e :: e in out && e !in edges ==> out[e].validFrom == n && out[e].gone.None?)
  }

  lemma EdgesKeepPastAll(db: Db, i: AliasInput, c: AliasChoice, rules: Rules, n: int)
    requires LegalChoice(db, i, c, rules, n)
    ensures EdgesKeep(db.edges, AliasStage(db, i, c, rules, n).edges, n)
  {
    var cs := StageContributions(db.artifacts, i, c, rules, n);
    var desired := StageEdges(i, cs, c, rules, R.AliasIds(ByTitle(db.artifacts, c.rowOrder), StageRows(i, cs, c, rules), c.rowIds));
    forall e { E.EdgesKeepPast(db.edges, desired, c.edgeOrder, c.missing, c.edgeIds, n, e); }
    hide StageContributions, StageEdges, StageRows, E.Reconciled, E.LegalEdges, R.Reconciled, R.AliasIds;
  }

  lemma RowsAndEdgesFreeze(db: Db, d: Db, n: int)
    requires R.KeepsPast(db.artifacts, d.artifacts, n) && EdgesKeep(db.edges, d.edges, n)
    ensures Frozen(db, d, n)
  {
    KeptPastIsFrozen(db, d, n);
  }

  // ------------------------------------------------------- replay agrees with mining

  lemma LoadableAreLive(rows: R.Rows, n: int)
    requires OneLoadablePerTitle(rows, n)
    ensures R.OneLivePerTitle(rows)
  {
    forall a, b, t | R.LiveTitled(rows, a, t) && R.LiveTitled(rows, b, t) ensures a == b {
      assert LoadableTitled(rows, n, a, t) && LoadableTitled(rows, n, b, t);
    }
  }

  /** Replaying stored evidence gives what mining every live source again would,
      whenever the loadable rows hold faithful evidence, one row per title. */
  lemma StageReplaysFaithfully(db: Db, i: AliasInput, c: AliasChoice, rules: Rules, n: int)
    requires LegalChoice(db, i, c, rules, n)
    requires OneLoadablePerTitle(db.artifacts, n) && Watermarked(Stored(db.artifacts, n), rules.mine)
    ensures StageContributions(db.artifacts, i, c, rules, n) == FreshContributions(i.inputs, rules.mine)
  {
    var rows, byTitle := db.artifacts, ByTitle(db.artifacts, c.rowOrder);
    LoadableAreLive(rows, n);
    NothingToDedupe(rows, c.rowOrder, n);
    LoadedItemsAreStored(rows, c.rowOrder, c.titles, n);
    var items := AllItems(Prior(rows, byTitle), c.titles);
    hide Watermarked, Stored, LegalChoice, OneLoadablePerTitle, ByTitle, AllItems, ItemSet;
    ReplayEqualsMining(items, i.inputs, rules.mine);
  }

  /** The inputs the stage does not mine again. */
  function StageReplayed(rows: R.Rows, i: AliasInput, c: AliasChoice, n: int): seq<MiningInput> {
    var byTitle := ByTitle(rows, c.rowOrder);
    Replayed(AbsorbAll(AllItems(Prior(Deduped(rows, byTitle, n), byTitle), c.titles)), i.inputs)
  }

  /** An alias row, live or out since this build began, with an entry mined from the source. */
  predicate RowNames(rows: R.Rows, n: int, a: ArtifactId, key: string, e: EvidenceEntry) {
    && a in rows && rows[a].kind == AliasReference && (rows[a].gone.None? || rows[a].gone == Some(n)) && rows[a].title.Some?
    && rows[a].body.Some? && rows[a].body.value.AliasBody? && e in rows[a].body.value.evidence
    && e.Mined? && e.source == key
  }

  /** A source is skipped exactly when some row names it and every entry that does was mined
      at its present hash. */
  lemma StageReplayedIff(db: Db, i: AliasInput, c: AliasChoice, rules: Rules, n: int, x: MiningInput)
    requires LegalChoice(db, i, c, rules, n) && OneLoadablePerTitle(db.artifacts, n)
    ensures x in StageReplayed(db.artifacts, i, c, n) <==>
      && x in i.inputs && (exists a, e :: RowNames(db.artifacts, n, a, x.key, e))
      && (forall a, e :: RowNames(db.artifacts, n, a, x.key, e) ==> e.minedAt == x.hash)
  {
    var rows, byTitle := db.artifacts, ByTitle(db.artifacts, c.rowOrder);
    LoadableAreLive(rows, n);
    NothingToDedupe(rows, c.rowOrder, n);
    LoadedItemsAreStored(rows, c.rowOrder, c.titles, n);
    var items := AllItems(Prior(rows, byTitle), c.titles);
    ReplayedIff(items, i.inputs, x);
    hide LegalChoice, OneLoadablePerTitle, ByTitle, AllItems, Replayed, AbsorbAll, Stored, RowNames, Unchanged;
    UnchangedIff(rows, items, n, x);
  }

  lemma UnchangedIff(rows: R.Rows, items: seq<Item>, n: int, x: MiningInput)
    requires ItemSet(items) == Stored(rows, n)
    ensures Unchanged(items, x) <==>
      (exists a, e :: RowNames(rows, n, a, x.key, e)) && forall a, e :: RowNames(rows, n, a, x.key, e) ==> e.minedAt == x.hash
  {
    forall j | Names(items, x.key, j) ensures exists a :: RowNames(rows, n, a, x.key, j.entry) {
      assert j in ItemSet(items);
      var a := NamedIn(rows, n, x.key, j);
    }
    forall a, e | RowNames(rows, n, a, x.key, e) ensures Names(items, x.key, Item(rows[a].title.value, e)) {
      RowIsStored(rows, n, a, x.key, e);
      assert Item(rows[a].title.value, e) in ItemSet(items);
    }
    hide RowNames, Stored, ItemSet;
    if Unchanged(items, x) {
      var j :| Names(items, x.key, j);
    }
  }

  lemma NamedIn(rows: R.Rows, n: int, key: string, j: Item) returns (a: ArtifactId)
    requires j in Stored(rows, n) && j.entry.Mined? && j.entry.source == key
    ensures RowNames(rows, n, a, key, j.entry)
  {
    a := StoredIn(rows, n, j);
  }

  lemma RowIsStored(rows: R.Rows, n: int, a: ArtifactId, key: string, e: EvidenceEntry)
    requires RowNames(rows, n, a, key, e)
    ensures Item(rows[a].title.value, e) in Stored(rows, n)
  {
    assert e in EntriesOf(rows[a]);
  }
}
