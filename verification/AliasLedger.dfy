/** The ledger pass, second owner of alias rows: search phrases that developers
    missed and that resolve to a live target become alias rows of their own, unless
    some other provenance already has the phrase. */
module AliasLedger {
  import opened Prelude
  import opened Registry
  import opened AliasReplay
  import opened AliasIndex
  import opened AliasOutcome
  import R = AliasRows

  /** Where a missed phrase resolves, by the resolver over live artifacts. */
  datatype LedgerTarget = LedgerTarget(path: string, artifact: ArtifactId, source: SourceId, acl: Acl)

  /** Misses of one normalized phrase in the trailing window. */
  datatype MissGroup = MissGroup(phrase: string, firstSeen: int, lastSeen: int, missCount: nat, days: nat,
                                 target: Option<LedgerTarget>)

  function LedgerBody(g: MissGroup, t: LedgerTarget): Body {
    AliasBody(g.phrase, g.days, LedgerMined, [TargetRef(t.path, Some(t.artifact), 1)],
              [Missed(g.firstSeen, g.lastSeen, g.missCount)])
  }

  // ------------------------------------------------------- prior state

  ghost predicate ListsLive(rows: R.Rows, order: seq<ArtifactId>) {
    forall a :: a in order <==> a in rows && rows[a].kind == AliasReference && rows[a].gone.None?
  }

  /** All live titles, and the rows this pass owns by title (the last one wins). */
  datatype PriorState = PriorState(allTitles: set<string>, ledgerRows: map<string, ArtifactId>)

  function AddPrior(p: PriorState, rows: R.Rows, a: ArtifactId): PriorState {
    if a !in rows || rows[a].title.None? then p
    else
      var t := rows[a].title.value;
      PriorState(p.allTitles + {t}, if R.LedgerOwned(rows[a]) then p.ledgerRows[t := a] else p.ledgerRows)
  }

  function LoadState(rows: R.Rows, order: seq<ArtifactId>): PriorState {
    if order == [] then PriorState({}, map[])
    else AddPrior(LoadState(rows, order[..|order| - 1]), rows, order[|order| - 1])
  }

  /** `_load_prior_state` */
  method LoadPriorState(rows: R.Rows, order: seq<ArtifactId>) returns (p: PriorState)
    requires ListsLive(rows, order)
    ensures p == LoadState(rows, order)
  {
    var allTitles: set<string>, ledgerRows: map<string, ArtifactId> := {}, map[];
    for k := 0 to |order|
      invariant PriorState(allTitles, ledgerRows) == LoadState(rows, order[..k])
    {
      assert order[..k + 1][..k] == order[..k] && order[k] in order;
      var row := rows[order[k]];
      if row.title.Some? {
        allTitles := allTitles + {row.title.value};
        if R.LedgerOwned(row) { ledgerRows := ledgerRows[row.title.value := order[k]]; }
      }
    }
    assert order[..|order|] == order;
    p := PriorState(allTitles, ledgerRows);
  }

  lemma {:induction false} LoadedTitles(rows: R.Rows, order: seq<ArtifactId>, t: string)
    ensures t in LoadState(rows, order).allTitles <==> exists a :: a in order && a in rows && rows[a].title == Some(t)
  {
    if order != [] {
      var rest, last := order[..|order| - 1], order[|order| - 1];
      assert order == rest + [last];
      LoadedTitles(rows, rest, t);
    }
  }

  lemma {:induction false} LoadedLedgerRows(rows: R.Rows, order: seq<ArtifactId>, t: string)
    ensures var m := LoadState(rows, order).ledgerRows;
      && (t in m ==> m[t] in order && m[t] in rows && rows[m[t]].title == Some(t) && R.LedgerOwned(rows[m[t]]))
      && ((exists a :: a in order && a in rows && rows[a].title == Some(t) && R.LedgerOwned(rows[a])) ==> t in m)
  {
    if order != [] {
      var rest, last := order[..|order| - 1], order[|order| - 1];
      assert order == rest + [last];
      LoadedLedgerRows(rows, rest, t);
    }
  }

  /** The index, where every title has one live row. */
  lemma PriorStateIs(rows: R.Rows, order: seq<ArtifactId>, t: string)
    requires ListsLive(rows, order) && R.OneLivePerTitle(rows)
    ensures var p := LoadState(rows, order);
      && (forall a :: R.LiveTitled(rows, a, t) ==> t in p.allTitles)
      && (forall a :: R.LiveTitled(rows, a, t) && R.LedgerOwned(rows[a]) ==> t in p.ledgerRows && p.ledgerRows[t] == a)
      && (t in p.ledgerRows ==> R.LiveTitled(rows, p.ledgerRows[t], t) && R.LedgerOwned(rows[p.ledgerRows[t]]))
      && (t in p.ledgerRows ==> t in p.allTitles)
      && (t in p.allTitles ==> exists a :: R.LiveTitled(rows, a, t))
  {
    LoadedTitles(rows, order, t);
    LoadedLedgerRows(rows, order, t);
    var p := LoadState(rows, order);
    hide LoadState, R.LedgerOwned;
    if t in p.allTitles {
      var a :| a in order && a in rows && rows[a].title == Some(t);
      assert R.LiveTitled(rows, a, t);
    }
    forall a | R.LiveTitled(rows, a, t) ensures t in p.allTitles { assert a in order; }
    if t in p.ledgerRows { assert R.LiveTitled(rows, p.ledgerRows[t], t); }
  }

  // ------------------------------------------------------- the plan

  /** None: unresolved, or the phrase already belongs to another provenance. */
  function WantedRow(p: PriorState, g: MissGroup): Option<R.Desired> {
    if g.target.None? then None
    else if g.phrase in p.allTitles && g.phrase !in p.ledgerRows then None
    else Some(R.Desired(g.phrase, LedgerBody(g, g.target.value), g.target.value.acl, Some(g.target.value.source)))
  }

  datatype Plan = Plan(ds: seq<R.Desired>, ids: seq<ArtifactId>)

  function PlanOf(p: PriorState, groups: seq<MissGroup>, ids: seq<ArtifactId>): (r: Plan)
    requires |ids| == |groups|
    ensures |r.ds| == |r.ids|
  {
    if groups == [] then Plan([], [])
    else
      var k := |groups| - 1;
      var r := PlanOf(p, groups[..k], ids[..k]);
      var w := WantedRow(p, groups[k]);
      if w.None? then r else Plan(r.ds + [w.value], r.ids + [ids[k]])
  }

  ghost predicate DistinctGroups(groups: seq<MissGroup>) {
    forall i, j :: 0 <= i < j < |groups| ==> groups[i].phrase != groups[j].phrase
  }

  ghost predicate LegalLedger(rows: R.Rows, order: seq<ArtifactId>, groups: seq<MissGroup>, ids: seq<ArtifactId>) {
    && ListsLive(rows, order) && |ids| == |groups| && R.FreshIds(rows, ids) && DistinctGroups(groups)
  }

  /** The rows after the ledger pass. */
  function LedgerRows(rows: R.Rows, order: seq<ArtifactId>, groups: seq<MissGroup>, ids: seq<ArtifactId>, n: int): R.Rows
    requires |ids| == |groups|
  {
    var p := LoadState(rows, order);
    var plan := PlanOf(p, groups, ids);
    R.Reconciled(rows, p.ledgerRows, plan.ds, plan.ids, false, n)
  }

  function LedgerStage(db: Db, order: seq<ArtifactId>, groups: seq<MissGroup>, ids: seq<ArtifactId>, n: int): Db
    requires |ids| == |groups|
  {
    db.(artifacts := LedgerRows(db.artifacts, order, groups, ids, n))
  }

  /** `d` is what the k-th group wants. */
  predicate PlannedAt(p: PriorState, groups: seq<MissGroup>, d: R.Desired, k: int) {
    0 <= k < |groups| && WantedRow(p, groups[k]) == Some(d)
  }

  lemma {:induction false} PlanWants(p: PriorState, groups: seq<MissGroup>, ids: seq<ArtifactId>, d: R.Desired)
    requires |ids| == |groups|
    ensures d in PlanOf(p, groups, ids).ds <==> exists k :: PlannedAt(p, groups, d, k)
  {
    if groups != [] {
      var k := |groups| - 1;
      PlanWants(p, groups[..k], ids[..k], d);
      hide WantedRow;
      if j :| PlannedAt(p, groups, d, j) && j < k { assert PlannedAt(p, groups[..k], d, j); }
      if j :| PlannedAt(p, groups[..k], d, j) { assert PlannedAt(p, groups, d, j); }
      if WantedRow(p, groups[k]) == Some(d) { assert PlannedAt(p, groups, d, k); }
    }
  }

  lemma {:induction false} PlanIsLegal(rows: R.Rows, p: PriorState, groups: seq<MissGroup>, ids: seq<ArtifactId>)
    requires |ids| == |groups| && R.FreshIds(rows, ids) && DistinctGroups(groups)
    ensures R.DistinctPhrases(PlanOf(p, groups, ids).ds) && R.FreshIds(rows, PlanOf(p, groups, ids).ids)
    ensures forall a :: a in PlanOf(p, groups, ids).ids ==> a in ids
    ensures forall d :: d in PlanOf(p, groups, ids).ds ==> exists k :: 0 <= k < |groups| && groups[k].phrase == d.phrase
    ensures forall d :: d in PlanOf(p, groups, ids).ds ==> d.anchor.Some?
  {
    if groups != [] {
      var k := |groups| - 1;
      PlanIsLegal(rows, p, groups[..k], ids[..k]);
      var r := PlanOf(p, groups[..k], ids[..k]);
      assert forall d :: d in r.ds ==> d.phrase != groups[k].phrase;
      assert forall i :: 0 <= i < |r.ds| ==> r.ds[i] in r.ds;
      assert forall i :: 0 <= i < |r.ids| ==> r.ids[i] in r.ids && r.ids[i] in ids[..k];
    }
  }

  lemma LedgerIsLegal(rows: R.Rows, order: seq<ArtifactId>, groups: seq<MissGroup>, ids: seq<ArtifactId>, n: int)
    requires LegalLedger(rows, order, groups, ids) && R.OneLivePerTitle(rows)
    ensures var p := LoadState(rows, order); var plan := PlanOf(p, groups, ids);
      && R.Legal(rows, p.ledgerRows, plan.ds, plan.ids) && R.Covers(rows, p.ledgerRows, plan.ds)
      && R.RecentIndex(rows, p.ledgerRows, n)
  {
    var p := LoadState(rows, order);
    var plan := PlanOf(p, groups, ids);
    PlanIsLegal(rows, p, groups, ids);
    forall t { PriorStateIs(rows, order, t); }
    hide LoadState, PlanOf, ListsLive, R.LedgerOwned, R.OneLivePerTitle, R.FreshIds, DistinctGroups, R.DistinctPhrases;
    forall d, a | d in plan.ds && R.LiveTitled(rows, a, d.phrase) ensures d.phrase in p.ledgerRows && p.ledgerRows[d.phrase] == a {
      PlanWants(p, groups, ids, d);
      var k :| PlannedAt(p, groups, d, k);
    }
  }

  // ------------------------------------------------------- what the pass guarantees

  predicate LedgerRow(row: Artifact) {
    R.LedgerOwned(row) && |EntriesOf(row)| == 1 && EntriesOf(row)[0].Missed?
  }

  /** The phrase has a group that resolved. */
  ghost predicate Resolves(groups: seq<MissGroup>, t: string) {
    exists k :: 0 <= k < |groups| && groups[k].phrase == t && groups[k].target.Some?
  }

  /** One live row per phrase; rows of other provenance untouched; exactly the
      resolved phrases covered, by this pass where nobody else had them. */
  ghost predicate LedgerOutcome(rows: R.Rows, out: R.Rows, groups: seq<MissGroup>, n: int) {
    && R.OneLivePerTitle(out) && R.KeepsPast(rows, out, n) && R.OnlyAliases(rows, out)
    && (forall a, t :: R.LiveTitled(rows, a, t) && !R.LedgerOwned(rows[a]) ==> a in out && out[a] == rows[a])
    && (forall a, t :: R.LiveTitled(out, a, t) && !R.LedgerOwned(out[a]) ==> a in rows && out[a] == rows[a])
    && (forall a, t :: R.LiveTitled(out, a, t) && R.LedgerOwned(out[a]) ==> LedgerRow(out[a]) && Resolves(groups, t))
    && (forall t :: Resolves(groups, t) ==> exists a :: R.LiveTitled(out, a, t))
  }

  lemma WantedIsPlanned(p: PriorState, groups: seq<MissGroup>, ids: seq<ArtifactId>, t: string)
    requires |ids| == |groups| && t in R.Wanted(PlanOf(p, groups, ids).ds)
    ensures Resolves(groups, t) && LedgerBodied(R.Wanted(PlanOf(p, groups, ids).ds)[t].body)
  {
    var d := R.Wanted(PlanOf(p, groups, ids).ds)[t];
    PlanWants(p, groups, ids, d);
    var k :| PlannedAt(p, groups, d, k);
  }

  lemma ResolvedIsPlanned(rows: R.Rows, p: PriorState, groups: seq<MissGroup>, ids: seq<ArtifactId>, t: string)
    requires |ids| == |groups| && R.FreshIds(rows, ids) && DistinctGroups(groups) && Resolves(groups, t)
    ensures t in R.Wanted(PlanOf(p, groups, ids).ds) || (t in p.allTitles && t !in p.ledgerRows)
  {
    var k :| 0 <= k < |groups| && groups[k].phrase == t && groups[k].target.Some?;
    var w := WantedRow(p, groups[k]);
    if w.Some? {
      var ds := PlanOf(p, groups, ids).ds;
      assert PlannedAt(p, groups, w.value, k);
      PlanWants(p, groups, ids, w.value);
      PlanIsLegal(rows, p, groups, ids);
      var j :| 0 <= j < |ds| && ds[j] == w.value;
      WantedAt(ds, j);
    }
  }

  lemma LedgerStageOutcome(rows: R.Rows, order: seq<ArtifactId>, groups: seq<MissGroup>, ids: seq<ArtifactId>, n: int)
    requires LegalLedger(rows, order, groups, ids) && R.OneLivePerTitle(rows)
    ensures LedgerOutcome(rows, LedgerRows(rows, order, groups, ids, n), groups, n)
  {
    var p := LoadState(rows, order);
    var plan := PlanOf(p, groups, ids);
    hide *;
    LegalParts(rows, order, groups, ids);
    LedgerIsLegal(rows, order, groups, ids, n);
    R.ReconciledKeepsPast(rows, p.ledgerRows, plan.ds, plan.ids, false, n);
    R.ReconciledOneLive(rows, p.ledgerRows, plan.ds, plan.ids, false, n);
    LoadedIsIndex(rows, order);
    forall t | t in R.Wanted(plan.ds) { WantedIsPlanned(p, groups, ids, t); }
    forall t | Resolves(groups, t) { ResolvedIsPlanned(rows, p, groups, ids, t); }
    PlannedTitles(rows, p, groups, ids);
    RowsAreReconciled(rows, order, groups, ids, n);
    ReconciledLedger(rows, p, plan, groups, n);
  }

  lemma LegalParts(rows: R.Rows, order: seq<ArtifactId>, groups: seq<MissGroup>, ids: seq<ArtifactId>)
    requires LegalLedger(rows, order, groups, ids)
    ensures |ids| == |groups| && DistinctGroups(groups) && ListsLive(rows, order) && R.FreshIds(rows, ids)
  {}

  lemma LoadedIsIndex(rows: R.Rows, order: seq<ArtifactId>)
    requires ListsLive(rows, order) && R.OneLivePerTitle(rows)
    ensures IndexesLedger(rows, LoadState(rows, order))
  {
    forall t { PriorStateIs(rows, order, t); }
    hide LoadState, ListsLive, R.LedgerOwned;
  }

  lemma RowsAreReconciled(rows: R.Rows, order: seq<ArtifactId>, groups: seq<MissGroup>, ids: seq<ArtifactId>, n: int)
    requires |ids| == |groups|
    ensures var p := LoadState(rows, order);
      var plan := PlanOf(p, groups, ids);
      LedgerRows(rows, order, groups, ids, n) == R.Reconciled(rows, p.ledgerRows, plan.ds, plan.ids, false, n)
  {}

  ghost predicate IndexesLedger(rows: R.Rows, p: PriorState) {
    && (forall a, t :: R.LiveTitled(rows, a, t) && R.LedgerOwned(rows[a]) ==> t in p.ledgerRows && p.ledgerRows[t] == a)
    && (forall t :: t in p.ledgerRows ==> R.LiveTitled(rows, p.ledgerRows[t], t) && R.LedgerOwned(rows[p.ledgerRows[t]]))
    && (forall t :: t in p.allTitles ==> exists a :: R.LiveTitled(rows, a, t))
  }

  lemma PlannedTitles(rows: R.Rows, p: PriorState, groups: seq<MissGroup>, ids: seq<ArtifactId>)
    requires |ids| == |groups| && R.FreshIds(rows, ids) && DistinctGroups(groups)
    ensures forall t :: t in R.Titles(PlanOf(p, groups, ids).ds) ==> t in R.Wanted(PlanOf(p, groups, ids).ds)
  {
    var ds := PlanOf(p, groups, ids).ds;
    PlanIsLegal(rows, p, groups, ids);
    hide PlanOf;
    forall t | t in R.Titles(ds) ensures t in R.Wanted(ds) {
      var d :| d in ds && d.phrase == t;
      var k :| 0 <= k < |ds| && ds[k] == d;
      WantedAt(ds, k);
    }
  }

  lemma ReconciledLedger(rows: R.Rows, p: PriorState, plan: Plan, groups: seq<MissGroup>, n: int)
    requires |plan.ds| == |plan.ids|
    requires R.Legal(rows, p.ledgerRows, plan.ds, plan.ids) && R.Covers(rows, p.ledgerRows, plan.ds) && IndexesLedger(rows, p)
    requires var out := R.Reconciled(rows, p.ledgerRows, plan.ds, plan.ids, false, n);
      R.OneLivePerTitle(out) && R.KeepsPast(rows, out, n) && R.OnlyAliases(rows, out)
    requires forall t :: t in R.Titles(plan.ds) ==> t in R.Wanted(plan.ds)
    requires forall t :: t in R.Wanted(plan.ds) ==> Resolves(groups, t) && LedgerBodied(R.Wanted(plan.ds)[t].body)
    requires forall t :: Resolves(groups, t) ==> t in R.Wanted(plan.ds) || (t in p.allTitles && t !in p.ledgerRows)
    ensures LedgerOutcome(rows, R.Reconciled(rows, p.ledgerRows, plan.ds, plan.ids, false, n), groups, n)
  {
    var out := R.Reconciled(rows, p.ledgerRows, plan.ds, plan.ids, false, n);
    hide R.Reconciled, R.OneLivePerTitle, R.KeepsPast, R.OnlyAliases, R.Covers, Resolves, R.Titles;
    forall a, t | R.LiveTitled(rows, a, t) && !R.LedgerOwned(rows[a]) ensures a in out && out[a] == rows[a] {
      R.ReconciledRow(rows, p.ledgerRows, plan.ds, plan.ids, false, n, a);
    }
    forall a, t | R.LiveTitled(out, a, t)
      ensures !R.LedgerOwned(out[a]) ==> a in rows && out[a] == rows[a]
      ensures R.LedgerOwned(out[a]) ==> LedgerRow(out[a]) && Resolves(groups, t)
    {
      R.LiveRowIsTheOne(rows, p.ledgerRows, plan.ds, plan.ids, false, n, a, t);
      if t in R.Wanted(plan.ds) { R.WantedIsLive(rows, p.ledgerRows, plan.ds, plan.ids, false, n, t); }
    }
    forall t | Resolves(groups, t) ensures exists a :: R.LiveTitled(out, a, t) {
      if t in R.Wanted(plan.ds) {
        R.WantedIsLive(rows, p.ledgerRows, plan.ds, plan.ids, false, n, t);
      } else {
        var a :| R.LiveTitled(rows, a, t);
        assert R.LiveTitled(out, a, t);
      }
    }
  }

  predicate LedgerBodied(b: Body) {
    b.AliasBody? && b.provenance == LedgerMined && |b.evidence| == 1 && b.evidence[0].Missed?
  }

  // ------------------------------------------------------- what a row says

  lemma WantedOfGroup(p: PriorState, groups: seq<MissGroup>, ids: seq<ArtifactId>, k: nat)
    requires |ids| == |groups| && DistinctGroups(groups) && k < |groups|
    requires groups[k].phrase in R.Wanted(PlanOf(p, groups, ids).ds)
    ensures WantedRow(p, groups[k]) == Some(R.Wanted(PlanOf(p, groups, ids).ds)[groups[k].phrase])
  {
    var d := R.Wanted(PlanOf(p, groups, ids).ds)[groups[k].phrase];
    PlanWants(p, groups, ids, d);
    var j :| PlannedAt(p, groups, d, j);
    hide PlanOf;
    assert d.phrase == groups[j].phrase;
  }

  /** A live row of the ledger says what its miss group says: the phrase, on how many days
      it was missed, the one target it resolves to, when it was first and last seen and how
      often; with the target's access list, on the target's source. */
  lemma LedgerRowSays(rows: R.Rows, order: seq<ArtifactId>, groups: seq<MissGroup>, ids: seq<ArtifactId>, n: int, k: nat, a: ArtifactId)
    requires LegalLedger(rows, order, groups, ids) && R.OneLivePerTitle(rows) && k < |groups|
    requires var out := LedgerRows(rows, order, groups, ids, n); R.LiveTitled(out, a, groups[k].phrase) && R.LedgerOwned(out[a])
    ensures groups[k].target.Some?
    ensures var g, t, row := groups[k], groups[k].target.value, LedgerRows(rows, order, groups, ids, n)[a];
      && row.body == Some(AliasBody(g.phrase, g.days, LedgerMined, [TargetRef(t.path, Some(t.artifact), 1)],
                                    [Missed(g.firstSeen, g.lastSeen, g.missCount)]))
      && row.acl == t.acl && row.source == t.source
  {
    var p, t := LoadState(rows, order), groups[k].phrase;
    var plan := PlanOf(p, groups, ids);
    LedgerIsLegal(rows, order, groups, ids, n);
    PlannedTitles(rows, p, groups, ids);
    PriorStateIs(rows, order, t);
    hide LoadState, PlanOf, ListsLive, R.Reconciled, R.Wanted, R.AliasIds, R.Titles, R.FreshIds, R.OneLivePerTitle;
    R.LiveRowIsTheOne(rows, p.ledgerRows, plan.ds, plan.ids, false, n, a, t);
    if t in R.Wanted(plan.ds) {
      R.WantedIsLive(rows, p.ledgerRows, plan.ds, plan.ids, false, n, t);
      WantedOfGroup(p, groups, ids, k);
    }
  }

  // ------------------------------------------------------- consequences

  /** The miner's evidence is untouched, so replay stays sound. */
  lemma LedgerKeepsWatermark(rows: R.Rows, out: R.Rows, groups: seq<MissGroup>, n: int, mine: Miner)
    requires LedgerOutcome(rows, out, groups, n) && LedgerClean(rows) && Watermarked(LiveItems(rows), mine)
    ensures LedgerClean(out) && Watermarked(LiveItems(out), mine)
  {
    forall i: Item | i.entry.Mined? ensures i in LiveItems(out) <==> i in LiveItems(rows) {
      if i in LiveItems(out) {
        var a :| a in out && LiveAlias(out[a]) && i.entry in EntriesOf(out[a]) && out[a].title == Some(i.title);
        assert R.LiveTitled(out, a, i.title);
      }
      if i in LiveItems(rows) {
        var a :| a in rows && LiveAlias(rows[a]) && i.entry in EntriesOf(rows[a]) && rows[a].title == Some(i.title);
        assert R.LiveTitled(rows, a, i.title);
        assert !NamesNoSource(EntriesOf(rows[a]));
      }
    }
    forall a | a in out && LiveAlias(out[a]) && R.LedgerOwned(out[a]) ensures NamesNoSource(EntriesOf(out[a])) {
      assert R.LiveTitled(out, a, out[a].title.value);
    }
    hide LedgerOutcome, LedgerClean, LiveItems;
    SameMinedItems(LiveItems(rows), LiveItems(out), mine);
  }

  lemma SameMinedItems(a: set<Item>, b: set<Item>, mine: Miner)
    requires Watermarked(a, mine) && forall i: Item :: i.entry.Mined? ==> (i in b <==> i in a)
    ensures Watermarked(b, mine)
  {
    forall i, t | i in b && i.entry.Mined? && t in mine(i.entry.source, i.entry.minedAt)
      ensures Stores(b, i.entry.source, i.entry.minedAt, t)
    {
      assert Stores(a, i.entry.source, i.entry.minedAt, t);
    }
  }

  lemma LedgerFreezesPast(db: Db, order: seq<ArtifactId>, groups: seq<MissGroup>, ids: seq<ArtifactId>, n: int)
    requires LegalLedger(db.artifacts, order, groups, ids) && R.OneLivePerTitle(db.artifacts)
    ensures Frozen(db, LedgerStage(db, order, groups, ids, n), n)
  {
    LedgerStageOutcome(db.artifacts, order, groups, ids, n);
    hide LedgerRows;
    KeptPastIsFrozen(db, LedgerStage(db, order, groups, ids, n), n);
  }

  // ------------------------------------------------------- the loop

  /** One group: unresolved, already aliased, or upserted. */
  method MineGroup(store: Store, p: PriorState, g: MissGroup, id: ArtifactId, n: int)
    returns (wanted: Option<R.Desired>, mined: nat, already: nat, unresolved: nat)
    requires forall t :: t in p.ledgerRows ==> p.ledgerRows[t] in store.artifacts
    modifies store`artifacts
    ensures wanted == WantedRow(p, g)
    ensures store.artifacts == if wanted.None? then old(store.artifacts) else R.Upsert(old(store.artifacts), p.ledgerRows, wanted.value, id, n)
    ensures mined + unresolved == 1 && unresolved == (if g.target.None? then 1 else 0)
    ensures already == if g.target.Some? && g.phrase in p.allTitles && g.phrase !in p.ledgerRows then 1 else 0
  {
    wanted, mined, already, unresolved := None, 0, 0, 0;
    if g.target.None? {
      unresolved := 1;
      return;
    }
    mined := 1;
    if g.phrase in p.allTitles && g.phrase !in p.ledgerRows {
      already := 1;
      return;
    }
    var d := R.Desired(g.phrase, LedgerBody(g, g.target.value), g.target.value.acl, Some(g.target.value.source));
    wanted := Some(d);
    var alias, i, r, u := R.UpsertOne(store, p.ledgerRows, d, id, n);
  }

  lemma PlanGrows(rows: R.Rows, p: PriorState, groups: seq<MissGroup>, ids: seq<ArtifactId>, k: nat, n: int)
    requires |ids| == |groups| && k < |groups| && R.TitleIndex(rows, p.ledgerRows)
    ensures var r, r' := PlanOf(p, groups[..k], ids[..k]), PlanOf(p, groups[..k + 1], ids[..k + 1]);
      var w := WantedRow(p, groups[k]); var mid := R.UpsertAll(rows, p.ledgerRows, r.ds, r.ids, n);
      && (forall t :: t in p.ledgerRows ==> p.ledgerRows[t] in mid)
      && R.Titles(r'.ds) == R.Titles(r.ds) + (if w.Some? then {groups[k].phrase} else {})
      && R.UpsertAll(rows, p.ledgerRows, r'.ds, r'.ids, n) ==
         if w.None? then mid else R.Upsert(mid, p.ledgerRows, w.value, ids[k], n)
  {
    var r, w := PlanOf(p, groups[..k], ids[..k]), WantedRow(p, groups[k]);
    PlanStep(p, groups, ids, k);
    R.IndexedRowStays(rows, p.ledgerRows, r.ds, r.ids, n);
    hide PlanOf, WantedRow;
    if w.Some? { AppendRow(rows, p, r, w.value, ids[k], n); }
  }

  lemma PlanStep(p: PriorState, groups: seq<MissGroup>, ids: seq<ArtifactId>, k: nat)
    requires |ids| == |groups| && k < |groups|
    ensures var r, w := PlanOf(p, groups[..k], ids[..k]), WantedRow(p, groups[k]);
      && PlanOf(p, groups[..k + 1], ids[..k + 1]) == (if w.None? then r else Plan(r.ds + [w.value], r.ids + [ids[k]]))
      && (w.Some? ==> w.value.phrase == groups[k].phrase)
  {
    assert groups[..k + 1][..k] == groups[..k] && ids[..k + 1][..k] == ids[..k];
  }

  lemma AppendRow(rows: R.Rows, p: PriorState, r: Plan, d: R.Desired, id: ArtifactId, n: int)
    requires |r.ds| == |r.ids|
    ensures R.Titles(r.ds + [d]) == R.Titles(r.ds) + {d.phrase}
    ensures R.UpsertAll(rows, p.ledgerRows, r.ds + [d], r.ids + [id], n) ==
            R.Upsert(R.UpsertAll(rows, p.ledgerRows, r.ds, r.ids, n), p.ledgerRows, d, id, n)
  {
    hide R.Upsert;
    assert (r.ds + [d])[..|r.ds|] == r.ds && (r.ids + [id])[..|r.ids|] == r.ids;
    assert forall x :: x in r.ds + [d] <==> x in r.ds || x == d;
    assert d in r.ds + [d];
  }

  function UnresolvedOf(groups: seq<MissGroup>): set<MissGroup> { set g | g in groups && g.target.None? }

  /** Another owner has a live row of the phrase. */
  ghost predicate HeldElsewhere(rows: R.Rows, t: string) {
    exists a :: R.LiveTitled(rows, a, t) && !R.LedgerOwned(rows[a])
  }

  ghost function HeldOf(rows: R.Rows, groups: seq<MissGroup>): set<MissGroup> {
    set g | g in groups && g.target.Some? && HeldElsewhere(rows, g.phrase)
  }

  lemma HeldIff(rows: R.Rows, order: seq<ArtifactId>, t: string)
    requires ListsLive(rows, order) && R.OneLivePerTitle(rows)
    ensures var p := LoadState(rows, order); t in p.allTitles && t !in p.ledgerRows <==> HeldElsewhere(rows, t)
  {
    PriorStateIs(rows, order, t);
    hide LoadState, R.LedgerOwned, ListsLive;
  }

  lemma CountsGrow(rows: R.Rows, groups: seq<MissGroup>, k: nat)
    requires k < |groups| && DistinctGroups(groups)
    ensures |UnresolvedOf(groups[..k + 1])| == |UnresolvedOf(groups[..k])| + if groups[k].target.None? then 1 else 0
    ensures |HeldOf(rows, groups[..k + 1])| ==
            |HeldOf(rows, groups[..k])| + if groups[k].target.Some? && HeldElsewhere(rows, groups[k].phrase) then 1 else 0
  {
    var g := groups[k];
    assert groups[..k + 1] == groups[..k] + [g];
    assert g !in groups[..k] by {
      forall j | 0 <= j < k ensures groups[j] != g { assert groups[j].phrase != groups[k].phrase; }
    }
    hide HeldElsewhere, DistinctGroups;
    UnresolvedGrow(groups[..k], g);
    HeldGrow(rows, groups[..k], g);
  }

  lemma UnresolvedGrow(groups: seq<MissGroup>, g: MissGroup)
    requires g !in groups
    ensures |UnresolvedOf(groups + [g])| == |UnresolvedOf(groups)| + if g.target.None? then 1 else 0
  {
    assert UnresolvedOf(groups + [g]) == UnresolvedOf(groups) + if g.target.None? then {g} else {};
  }

  lemma HeldGrow(rows: R.Rows, groups: seq<MissGroup>, g: MissGroup)
    requires g !in groups
    ensures |HeldOf(rows, groups + [g])| == |HeldOf(rows, groups)| + if g.target.Some? && HeldElsewhere(rows, g.phrase) then 1 else 0
  {
    hide HeldElsewhere;
    assert HeldOf(rows, groups + [g]) == HeldOf(rows, groups) + if g.target.Some? && HeldElsewhere(rows, g.phrase) then {g} else {};
  }

  /** The upserts take nothing out, and what is indexed was there and is as it was. */
  lemma UpsertedRows(rows: R.Rows, p: PriorState, plan: Plan, n: int)
    requires |plan.ds| == |plan.ids| && R.Legal(rows, p.ledgerRows, plan.ds, plan.ids)
    requires forall t :: t in R.Titles(plan.ds) ==> t in R.Wanted(plan.ds)
    requires forall t :: t in p.ledgerRows ==> p.ledgerRows[t] in rows && rows[p.ledgerRows[t]].gone.None?
    ensures var mid := R.UpsertAll(rows, p.ledgerRows, plan.ds, plan.ids, n);
      && (forall a :: a in mid && R.Unwanted(a, mid[a], p.ledgerRows, R.Titles(plan.ds), false) ==> a in rows && rows[a].gone.None?)
      && (forall a :: a in rows && rows[a].gone.None? ==> a in mid && mid[a].gone.None?)
  {
    forall a | a in rows { R.UpsertedRow(rows, p.ledgerRows, plan.ds, plan.ids, n, a); }
    hide R.UpsertAll, R.Wanted, R.Titles;
  }

  function SweptOf(mid: R.Rows, byTitle: map<string, ArtifactId>, titles: set<string>): set<ArtifactId> {
    set a | a in mid && R.Unwanted(a, mid[a], byTitle, titles, false)
  }

  /** The rows the sweep takes are the live ones that left. */
  lemma SweptHaveLeft(rows: R.Rows, mid: R.Rows, byTitle: map<string, ArtifactId>, titles: set<string>, n: int)
    requires forall a :: a in mid && R.Unwanted(a, mid[a], byTitle, titles, false) ==> a in rows && rows[a].gone.None?
    requires forall a :: a in rows && rows[a].gone.None? ==> a in mid && mid[a].gone.None?
    ensures SweptOf(mid, byTitle, titles) == R.LeftRows(rows, R.SweepUnwanted(mid, byTitle, titles, false, n))
  {}

  /** The next group. */
  method MineNext(store: Store, p: PriorState, order: seq<ArtifactId>, groups: seq<MissGroup>, ids: seq<ArtifactId>, k: nat, n: int,
                  ghost rows: R.Rows, titles: set<string>, ghost soFar: nat, ghost heldSoFar: nat, ghost unresolvedSoFar: nat)
    returns (titles': set<string>, mined: nat, already: nat, unresolved: nat)
    requires |ids| == |groups| && k < |groups| && DistinctGroups(groups) && ListsLive(rows, order) && R.OneLivePerTitle(rows)
    requires p == LoadState(rows, order) && R.TitleIndex(rows, p.ledgerRows)
    requires MinedSoFar(rows, store.artifacts, order, groups, ids, k, n, titles, soFar, heldSoFar, unresolvedSoFar)
    modifies store`artifacts
    ensures MinedSoFar(rows, store.artifacts, order, groups, ids, k + 1, n, titles', soFar + mined, heldSoFar + already, unresolvedSoFar + unresolved)
  {
    hide *;
    SoFarHas(rows, store.artifacts, order, groups, ids, k, n, titles, soFar, heldSoFar, unresolvedSoFar);
    GroupTurn(rows, order, groups, ids, k, n);
    var wanted;
    wanted, mined, already, unresolved := MineGroup(store, p, groups[k], ids[k], n);
    NextMined(rows, store.artifacts, order, groups, ids, k, n, titles, soFar, heldSoFar, unresolvedSoFar, wanted, mined, already, unresolved);
    titles' := if wanted.Some? then titles + {groups[k].phrase} else titles;
  }

  /** Upsert every resolved group, then retire this pass's rows nobody missed any more. */
  method RunLedgerMiner(store: Store, order: seq<ArtifactId>, groups: seq<MissGroup>, ids: seq<ArtifactId>, n: int)
    returns (mined: nat, already: nat, unresolved: nat, invalidated: nat)
    requires LegalLedger(store.artifacts, order, groups, ids) && R.OneLivePerTitle(store.artifacts)
    modifies store`artifacts
    ensures store.artifacts == LedgerRows(old(store.artifacts), order, groups, ids, n)
    ensures LedgerOutcome(old(store.artifacts), store.artifacts, groups, n)
    ensures mined + unresolved == |groups| && already <= mined
    ensures unresolved == |UnresolvedOf(groups)| && already == |HeldOf(old(store.artifacts), groups)|
    ensures invalidated == |R.LeftRows(old(store.artifacts), store.artifacts)|
  {
    ghost var rows := store.artifacts;
    hide *;
    LedgerStageOutcome(rows, order, groups, ids, n);
    LedgerParts(rows, order, groups, ids, n);
    NothingMined(rows, order, groups, ids, n);
    var p := LoadPriorState(store.artifacts, order);
    var titles: set<string> := {};
    mined, already, unresolved := 0, 0, 0;
    for k := 0 to |groups|
      invariant MinedSoFar(rows, store.artifacts, order, groups, ids, k, n, titles, mined, already, unresolved)
    {
      var m, a, u;
      titles, m, a, u := MineNext(store, p, order, groups, ids, k, n, rows, titles, mined, already, unresolved);
      mined, already, unresolved := mined + m, already + a, unresolved + u;
    }
    AllMined(rows, store.artifacts, order, groups, ids, n, titles, mined, already, unresolved);
    invalidated := |SweptOf(store.artifacts, p.ledgerRows, titles)|;
    store.artifacts := R.SweepUnwanted(store.artifacts, p.ledgerRows, titles, false, n);
  }

  lemma LedgerParts(rows: R.Rows, order: seq<ArtifactId>, groups: seq<MissGroup>, ids: seq<ArtifactId>, n: int)
    requires LegalLedger(rows, order, groups, ids) && R.OneLivePerTitle(rows)
    ensures |ids| == |groups| && DistinctGroups(groups) && ListsLive(rows, order) && R.TitleIndex(rows, LoadState(rows, order).ledgerRows)
  {
    LedgerIsLegal(rows, order, groups, ids, n);
    hide LoadState, DistinctGroups, ListsLive, R.TitleIndex, R.OneLivePerTitle;
  }

  /** What the loop over the groups has done up to the k-th. */
  ghost predicate MinedSoFar(rows: R.Rows, mid: R.Rows, order: seq<ArtifactId>, groups: seq<MissGroup>, ids: seq<ArtifactId>, k: nat, n: int,
                             titles: set<string>, mined: nat, already: nat, unresolved: nat)
  {
    var p := LoadState(rows, order);
    && |ids| == |groups| && k <= |groups|
    && titles == R.Titles(PlanOf(p, groups[..k], ids[..k]).ds) && mid == UpsertedSoFar(rows, p, groups, ids, k, n)
    && mined + unresolved == k && already <= mined
    && unresolved == |UnresolvedOf(groups[..k])| && already == |HeldOf(rows, groups[..k])|
  }

  lemma SoFarHas(rows: R.Rows, mid: R.Rows, order: seq<ArtifactId>, groups: seq<MissGroup>, ids: seq<ArtifactId>, k: nat, n: int,
                 titles: set<string>, mined: nat, already: nat, unresolved: nat)
    requires MinedSoFar(rows, mid, order, groups, ids, k, n, titles, mined, already, unresolved)
    ensures |ids| == |groups| && k <= |groups| && mid == UpsertedSoFar(rows, LoadState(rows, order), groups, ids, k, n)
  {
    hide LoadState, PlanOf, UpsertedSoFar, UnresolvedOf, HeldOf, R.Titles;
  }

  lemma NextMined(rows: R.Rows, mid: R.Rows, order: seq<ArtifactId>, groups: seq<MissGroup>, ids: seq<ArtifactId>, k: nat, n: int,
                  titles: set<string>, mined: nat, already: nat, unresolved: nat,
                  wanted: Option<R.Desired>, m: nat, a: nat, u: nat)
    requires |ids| == |groups| && k < |groups| && DistinctGroups(groups) && ListsLive(rows, order) && R.OneLivePerTitle(rows)
    requires R.TitleIndex(rows, LoadState(rows, order).ledgerRows)
    requires MinedSoFar(rows, UpsertedSoFar(rows, LoadState(rows, order), groups, ids, k, n), order, groups, ids, k, n, titles, mined, already, unresolved)
    requires var p, g := LoadState(rows, order), groups[k];
      var before := UpsertedSoFar(rows, p, groups, ids, k, n);
      && wanted == WantedRow(p, g)
      && mid == (if wanted.None? then before else R.Upsert(before, p.ledgerRows, wanted.value, ids[k], n))
      && m + u == 1 && u == (if g.target.None? then 1 else 0)
      && a == if g.target.Some? && g.phrase in p.allTitles && g.phrase !in p.ledgerRows then 1 else 0
    ensures MinedSoFar(rows, mid, order, groups, ids, k + 1, n, if wanted.Some? then titles + {groups[k].phrase} else titles,
                       mined + m, already + a, unresolved + u)
  {
    GroupTurn(rows, order, groups, ids, k, n);
    hide LoadState, PlanOf, UpsertedSoFar, UnresolvedOf, HeldOf, R.Titles, R.Upsert, WantedRow, R.TitleIndex, ListsLive, DistinctGroups, R.OneLivePerTitle;
  }

  lemma NothingMined(rows: R.Rows, order: seq<ArtifactId>, groups: seq<MissGroup>, ids: seq<ArtifactId>, n: int)
    requires LegalLedger(rows, order, groups, ids) && R.TitleIndex(rows, LoadState(rows, order).ledgerRows)
    ensures MinedSoFar(rows, rows, order, groups, ids, 0, n, {}, 0, 0, 0)
  {
    ReconciledByLoop(rows, order, groups, ids, n);
    NothingCounted(rows, groups);
    hide LoadState, PlanOf, UpsertedSoFar, UnresolvedOf, HeldOf, R.Titles, R.TitleIndex;
  }

  /** What is left to do after the loop, and what has been counted. */
  lemma AllMined(rows: R.Rows, mid: R.Rows, order: seq<ArtifactId>, groups: seq<MissGroup>, ids: seq<ArtifactId>, n: int,
                 titles: set<string>, mined: nat, already: nat, unresolved: nat)
    requires LegalLedger(rows, order, groups, ids) && R.OneLivePerTitle(rows) && R.TitleIndex(rows, LoadState(rows, order).ledgerRows)
    requires MinedSoFar(rows, mid, order, groups, ids, |groups|, n, titles, mined, already, unresolved)
    ensures var p, out := LoadState(rows, order), LedgerRows(rows, order, groups, ids, n);
      && out == R.SweepUnwanted(mid, p.ledgerRows, titles, false, n)
      && SweptOf(mid, p.ledgerRows, titles) == R.LeftRows(rows, out)
    ensures mined + unresolved == |groups| && already <= mined && unresolved == |UnresolvedOf(groups)| && already == |HeldOf(rows, groups)|
  {
    ReconciledByLoop(rows, order, groups, ids, n);
    WhatTheSweepTakes(rows, order, groups, ids, n);
    NothingCounted(rows, groups);
    hide LoadState, PlanOf, UpsertedSoFar, UnresolvedOf, HeldOf, R.Titles, R.TitleIndex, R.Unwanted, R.SweepUnwanted, LedgerRows, R.OneLivePerTitle, LegalLedger;
  }


  /** The k-th turn of the loop. */
  lemma GroupTurn(rows: R.Rows, order: seq<ArtifactId>, groups: seq<MissGroup>, ids: seq<ArtifactId>, k: nat, n: int)
    requires |ids| == |groups| && k < |groups| && DistinctGroups(groups) && ListsLive(rows, order) && R.OneLivePerTitle(rows)
    requires R.TitleIndex(rows, LoadState(rows, order).ledgerRows)
    ensures var p, g := LoadState(rows, order), groups[k];
      var w, mid := WantedRow(p, g), UpsertedSoFar(rows, p, groups, ids, k, n);
      && (forall t :: t in p.ledgerRows ==> p.ledgerRows[t] in mid)
      && UpsertedSoFar(rows, p, groups, ids, k + 1, n) == (if w.None? then mid else R.Upsert(mid, p.ledgerRows, w.value, ids[k], n))
      && R.Titles(PlanOf(p, groups[..k + 1], ids[..k + 1]).ds) ==
         R.Titles(PlanOf(p, groups[..k], ids[..k]).ds) + (if w.Some? then {g.phrase} else {})
      && |UnresolvedOf(groups[..k + 1])| == |UnresolvedOf(groups[..k])| + (if g.target.None? then 1 else 0)
      && |HeldOf(rows, groups[..k + 1])| ==
         |HeldOf(rows, groups[..k])| + (if g.target.Some? && g.phrase in p.allTitles && g.phrase !in p.ledgerRows then 1 else 0)
  {
    hide *;
    var p := LoadState(rows, order);
    CountsGrow(rows, groups, k);
    HeldIff(rows, order, groups[k].phrase);
    PlanGrows(rows, p, groups, ids, k, n);
    SoFarIs(rows, p, groups, ids, k, n);
    SoFarIs(rows, p, groups, ids, k + 1, n);
  }

  lemma NothingCounted(rows: R.Rows, groups: seq<MissGroup>)
    ensures UnresolvedOf(groups[..0]) == {} && HeldOf(rows, groups[..0]) == {} && groups[..|groups|] == groups
  {}

  /** The rows of the last statement: those that leave. */
  lemma WhatTheSweepTakes(rows: R.Rows, order: seq<ArtifactId>, groups: seq<MissGroup>, ids: seq<ArtifactId>, n: int)
    requires LegalLedger(rows, order, groups, ids) && R.OneLivePerTitle(rows)
    ensures var p := LoadState(rows, order);
      var titles, mid := R.Titles(PlanOf(p, groups[..|groups|], ids[..|groups|]).ds), UpsertedSoFar(rows, p, groups, ids, |groups|, n);
      var out := LedgerRows(rows, order, groups, ids, n);
      SweptOf(mid, p.ledgerRows, titles) == R.LeftRows(rows, out)
  {
    var p := LoadState(rows, order);
    var plan := PlanOf(p, groups, ids);
    LedgerIsLegal(rows, order, groups, ids, n);
    PlannedTitles(rows, p, groups, ids);
    forall t { PriorStateIs(rows, order, t); }
    assert groups[..|groups|] == groups && ids[..|groups|] == ids;
    hide LoadState, PlanOf, ListsLive, R.FreshIds, R.OneLivePerTitle, R.LedgerOwned, R.Wanted, R.Titles, R.UpsertAll, R.SweepUnwanted;
    UpsertedRows(rows, p, plan, n);
    SweptHaveLeft(rows, R.UpsertAll(rows, p.ledgerRows, plan.ds, plan.ids, n), p.ledgerRows, R.Titles(plan.ds), n);
  }

  function UpsertedSoFar(rows: R.Rows, p: PriorState, groups: seq<MissGroup>, ids: seq<ArtifactId>, k: nat, n: int): R.Rows
    requires |ids| == |groups| && k <= |groups|
  {
    var r := PlanOf(p, groups[..k], ids[..k]);
    R.UpsertAll(rows, p.ledgerRows, r.ds, r.ids, n)
  }

  lemma SoFarIs(rows: R.Rows, p: PriorState, groups: seq<MissGroup>, ids: seq<ArtifactId>, k: nat, n: int)
    requires |ids| == |groups| && k <= |groups|
    ensures var r := PlanOf(p, groups[..k], ids[..k]);
      UpsertedSoFar(rows, p, groups, ids, k, n) == R.UpsertAll(rows, p.ledgerRows, r.ds, r.ids, n)
  {}

  /** The loop's endpoints. */
  lemma ReconciledByLoop(rows: R.Rows, order: seq<ArtifactId>, groups: seq<MissGroup>, ids: seq<ArtifactId>, n: int)
    requires LegalLedger(rows, order, groups, ids) && R.TitleIndex(rows, LoadState(rows, order).ledgerRows)
    ensures var p := LoadState(rows, order);
      && ListsLive(rows, order)
      && UpsertedSoFar(rows, p, groups, ids, 0, n) == rows && R.Titles(PlanOf(p, groups[..0], ids[..0]).ds) == {}
      && LedgerRows(rows, order, groups, ids, n) ==
         R.SweepUnwanted(UpsertedSoFar(rows, p, groups, ids, |groups|, n), p.ledgerRows,
                         R.Titles(PlanOf(p, groups[..|groups|], ids[..|groups|]).ds), false, n)
  {
    assert groups[..0] == [] && groups[..|groups|] == groups && ids[..|groups|] == ids;
  }
}
