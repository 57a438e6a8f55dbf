/** Reconciling alias rows with a desired set, one row per phrase.

    Two passes own alias rows: the deterministic miner and the ledger miner.  Both
    upsert by title and then soft-invalidate the indexed rows nobody wanted; they
    differ in which rows they index and in whether ledger-mined rows are spared. */
module AliasRows {
  import opened Prelude
  import opened Registry

  type Rows = map<ArtifactId, Artifact>

  /** A row some pass wants: `anchor` is None when no live input anchors it. */
  datatype Desired = Desired(phrase: string, body: Body, acl: Acl, anchor: Option<SourceId>)

  predicate IsAlias(rows: Rows, a: ArtifactId) {
    a in rows && rows[a].kind == AliasReference
  }

  predicate LiveTitled(rows: Rows, a: ArtifactId, t: string) {
    IsAlias(rows, a) && rows[a].gone.None? && rows[a].title == Some(t)
  }

  /** At most one live alias row per phrase. */
  ghost predicate OneLivePerTitle(rows: Rows) {
    forall a, b, t :: LiveTitled(rows, a, t) && LiveTitled(rows, b, t) ==> a == b
  }

  predicate LedgerOwned(row: Artifact) {
    row.body.Some? && row.body.value.AliasBody? && row.body.value.provenance == LedgerMined
  }

  // ------------------------------------------------------- upsert and sweep

  function NewAlias(d: Desired, n: int): Artifact
    requires d.anchor.Some?
  {
    Artifact(AliasReference, d.anchor.value, Some(d.phrase), Some(d.body), n, None, None, d.acl)
  }

  /** In-place refresh: the original introduction stays, a same-build sweep is undone. */
  function RefreshedAlias(row: Artifact, d: Desired): Artifact
    requires d.anchor.Some?
  {
    row.(body := Some(d.body), acl := d.acl, source := d.anchor.value, gone := None)
  }

  function Upsert(rows: Rows, byTitle: map<string, ArtifactId>, d: Desired, id: ArtifactId, n: int): Rows {
    if d.anchor.None? then rows
    else if d.phrase !in byTitle then rows[id := NewAlias(d, n)]
    else if byTitle[d.phrase] in rows then rows[byTitle[d.phrase] := RefreshedAlias(rows[byTitle[d.phrase]], d)]
    else rows
  }

  function UpsertAll(rows: Rows, byTitle: map<string, ArtifactId>, ds: seq<Desired>, ids: seq<ArtifactId>, n: int): Rows
    requires |ids| == |ds|
  {
    if ds == [] then rows
    else
      var k := |ds| - 1;
      Upsert(UpsertAll(rows, byTitle, ds[..k], ids[..k], n), byTitle, ds[k], ids[k], n)
  }

  function Titles(ds: seq<Desired>): set<string> { set d | d in ds :: d.phrase }

  /** `a` is the indexed row of a phrase nobody wants any more. */
  predicate Unwanted(a: ArtifactId, row: Artifact, byTitle: map<string, ArtifactId>, wanted: set<string>, spareLedger: bool) {
    && row.title.Some? && row.title.value in byTitle && byTitle[row.title.value] == a
    && row.title.value !in wanted && row.gone.None?
    && !(spareLedger && LedgerOwned(row))
  }

  function SweepUnwanted(rows: Rows, byTitle: map<string, ArtifactId>, wanted: set<string>, spareLedger: bool, n: int): Rows {
    map a | a in rows ::
      if Unwanted(a, rows[a], byTitle, wanted, spareLedger) then rows[a].(gone := Some(n)) else rows[a]
  }

  function Reconciled(rows: Rows, byTitle: map<string, ArtifactId>, ds: seq<Desired>, ids: seq<ArtifactId>,
                      spareLedger: bool, n: int): Rows
    requires |ids| == |ds|
  {
    SweepUnwanted(UpsertAll(rows, byTitle, ds, ids, n), byTitle, Titles(ds), spareLedger, n)
  }

  /** The anchored wanted rows, by phrase. */
  function Wanted(ds: seq<Desired>): (m: map<string, Desired>)
    ensures forall t :: t in m ==> m[t] in ds && m[t].anchor.Some? && m[t].phrase == t
  {
    if ds == [] then map[]
    else
      var last := ds[|ds| - 1];
      assert ds == ds[..|ds| - 1] + [last];
      if last.anchor.Some? then Wanted(ds[..|ds| - 1])[last.phrase := last] else Wanted(ds[..|ds| - 1])
  }

  /** `alias_ids`: the row each anchored phrase ended up with. */
  function AliasIds(byTitle: map<string, ArtifactId>, ds: seq<Desired>, ids: seq<ArtifactId>): (m: map<string, ArtifactId>)
    requires |ids| == |ds|
    ensures m.Keys == Wanted(ds).Keys
    ensures forall t :: t in m && t in byTitle ==> m[t] == byTitle[t]
  {
    if ds == [] then map[]
    else
      var k := |ds| - 1;
      var m := AliasIds(byTitle, ds[..k], ids[..k]);
      if ds[k].anchor.None? then m
      else m[ds[k].phrase := if ds[k].phrase in byTitle then byTitle[ds[k].phrase] else ids[k]]
  }

  // ------------------------------------------------------- legal inputs

  ghost predicate DistinctPhrases(ds: seq<Desired>) {
    forall i, j :: 0 <= i < j < |ds| ==> ds[i].phrase != ds[j].phrase
  }

  ghost predicate FreshIds(rows: Rows, ids: seq<ArtifactId>) {
    && (forall i :: 0 <= i < |ids| ==> ids[i] !in rows)
    && (forall i, j :: 0 <= i < j < |ids| ==> ids[i] != ids[j])
  }

  /** Every index entry points at an alias row of that title. */
  ghost predicate TitleIndex(rows: Rows, byTitle: map<string, ArtifactId>) {
    forall t :: t in byTitle ==> IsAlias(rows, byTitle[t]) && rows[byTitle[t]].title == Some(t)
  }

  ghost predicate Legal(rows: Rows, byTitle: map<string, ArtifactId>, ds: seq<Desired>, ids: seq<ArtifactId>) {
    |ids| == |ds| && DistinctPhrases(ds) && FreshIds(rows, ids) && TitleIndex(rows, byTitle)
  }

  /** No wanted phrase has a live row outside the index. */
  ghost predicate Covers(rows: Rows, byTitle: map<string, ArtifactId>, ds: seq<Desired>) {
    forall d, a :: d in ds && LiveTitled(rows, a, d.phrase) ==> d.phrase in byTitle && byTitle[d.phrase] == a
  }

  // ------------------------------------------------------- closed form

  predicate Indexed(a: ArtifactId, row: Artifact, byTitle: map<string, ArtifactId>) {
    row.title.Some? && row.title.value in byTitle && byTitle[row.title.value] == a
  }

  function RowAfterUpserts(a: ArtifactId, row: Artifact, byTitle: map<string, ArtifactId>, w: map<string, Desired>): Artifact {
    if Indexed(a, row, byTitle) && row.title.value in w && w[row.title.value].anchor.Some?
    then RefreshedAlias(row, w[row.title.value])
    else row
  }

  function WantedPlus(w: map<string, Desired>, d: Desired): map<string, Desired> {
    if d.anchor.Some? then w[d.phrase := d] else w
  }

  function IdPlus(m: map<string, ArtifactId>, byTitle: map<string, ArtifactId>, d: Desired, id: ArtifactId): map<string, ArtifactId> {
    if d.anchor.None? then m else m[d.phrase := if d.phrase in byTitle then byTitle[d.phrase] else id]
  }

  lemma SplitLast(ds: seq<Desired>)
    requires DistinctPhrases(ds) && ds != []
    ensures DistinctPhrases(ds[..|ds| - 1])
    ensures ds[|ds| - 1].phrase !in Wanted(ds[..|ds| - 1])
    ensures forall d :: d in ds <==> d in ds[..|ds| - 1] || d == ds[|ds| - 1]
  {
    var rest, last := ds[..|ds| - 1], ds[|ds| - 1];
    assert ds == rest + [last];
    forall t | t in Wanted(rest) ensures t != last.phrase {
      var d := Wanted(rest)[t];
      var i :| 0 <= i < |rest| && rest[i] == d;
      assert ds[i].phrase != ds[|ds| - 1].phrase;
    }
  }

  lemma LegalInit(rows: Rows, byTitle: map<string, ArtifactId>, ds: seq<Desired>, ids: seq<ArtifactId>)
    requires Legal(rows, byTitle, ds, ids) && ds != []
    ensures var k := |ds| - 1;
      && Legal(rows, byTitle, ds[..k], ids[..k])
      && ds[k].phrase !in Wanted(ds[..k])
      && ids[k] !in rows && ids[k] !in ids[..k]
  {
    SplitLast(ds);
    hide Wanted, TitleIndex;
  }

  /** The three folds, one step. */
  lemma FoldStep(rows: Rows, byTitle: map<string, ArtifactId>, ds: seq<Desired>, ids: seq<ArtifactId>, n: int)
    requires |ids| == |ds| && ds != []
    ensures var k := |ds| - 1; var d := ds[k];
      && UpsertAll(rows, byTitle, ds, ids, n) == Upsert(UpsertAll(rows, byTitle, ds[..k], ids[..k], n), byTitle, d, ids[k], n)
      && Wanted(ds) == WantedPlus(Wanted(ds[..k]), d)
      && AliasIds(byTitle, ds, ids) == IdPlus(AliasIds(byTitle, ds[..k], ids[..k]), byTitle, d, ids[k])
  {
    hide Upsert;
  }

  lemma RowStep(a: ArtifactId, row: Artifact, mid: Rows, byTitle: map<string, ArtifactId>, w: map<string, Desired>,
                d: Desired, id: ArtifactId, n: int)
    requires a in mid && mid[a] == RowAfterUpserts(a, row, byTitle, w) && a != id && d.phrase !in w
    requires d.phrase in byTitle && byTitle[d.phrase] == a ==> row.title == Some(d.phrase)
    ensures a in Upsert(mid, byTitle, d, id, n)
    ensures Upsert(mid, byTitle, d, id, n)[a] == RowAfterUpserts(a, row, byTitle, WantedPlus(w, d))
  {}

  lemma {:induction false} UpsertedRow(rows: Rows, byTitle: map<string, ArtifactId>, ds: seq<Desired>,
                                       ids: seq<ArtifactId>, n: int, a: ArtifactId)
    requires Legal(rows, byTitle, ds, ids) && a in rows
    ensures a in UpsertAll(rows, byTitle, ds, ids, n)
    ensures UpsertAll(rows, byTitle, ds, ids, n)[a] == RowAfterUpserts(a, rows[a], byTitle, Wanted(ds))
  {
    if ds != [] {
      var k := |ds| - 1;
      LegalInit(rows, byTitle, ds, ids);
      FoldStep(rows, byTitle, ds, ids, n);
      UpsertedRow(rows, byTitle, ds[..k], ids[..k], n, a);
      RowStep(a, rows[a], UpsertAll(rows, byTitle, ds[..k], ids[..k], n), byTitle, Wanted(ds[..k]), ds[k], ids[k], n);
      hide *;
    }
  }

  /** A row that was not there before is the fresh row of one wanted phrase, and
      `alias_ids` points that phrase at it. */
  predicate InsertedFor(row: Artifact, a: ArtifactId, byTitle: map<string, ArtifactId>, w: map<string, Desired>,
                        m: map<string, ArtifactId>, n: int)
  {
    && row.title.Some? && row.title.value in w && row.title.value !in byTitle
    && w[row.title.value].anchor.Some? && row == NewAlias(w[row.title.value], n)
    && row.title.value in m && m[row.title.value] == a
  }

  lemma NewRowStep(a: ArtifactId, mid: Rows, byTitle: map<string, ArtifactId>, w: map<string, Desired>,
                   m: map<string, ArtifactId>, d: Desired, id: ArtifactId, n: int)
    requires forall t :: t in w ==> w[t].phrase == t
    requires a in Upsert(mid, byTitle, d, id, n) && (a in mid ==> a != id && InsertedFor(mid[a], a, byTitle, w, m, n))
    requires d.phrase !in w && (d.phrase in byTitle ==> byTitle[d.phrase] != a)
    ensures InsertedFor(Upsert(mid, byTitle, d, id, n)[a], a, byTitle, WantedPlus(w, d), IdPlus(m, byTitle, d, id), n)
  {}

  lemma {:induction false} UpsertedNewRow(rows: Rows, byTitle: map<string, ArtifactId>, ds: seq<Desired>,
                                          ids: seq<ArtifactId>, n: int, a: ArtifactId)
    requires Legal(rows, byTitle, ds, ids)
    requires a !in rows && a in UpsertAll(rows, byTitle, ds, ids, n)
    ensures a in ids
    ensures InsertedFor(UpsertAll(rows, byTitle, ds, ids, n)[a], a, byTitle, Wanted(ds), AliasIds(byTitle, ds, ids), n)
  {
    var k := |ds| - 1;
    LegalInit(rows, byTitle, ds, ids);
    FoldStep(rows, byTitle, ds, ids, n);
    assert ids == ids[..k] + [ids[k]];
    assert ds[k].phrase in byTitle ==> byTitle[ds[k].phrase] in rows;
    var mid := UpsertAll(rows, byTitle, ds[..k], ids[..k], n);
    hide UpsertAll, Wanted, AliasIds, FreshIds, DistinctPhrases, InsertedFor, TitleIndex;
    if a in mid {
      UpsertedNewRow(rows, byTitle, ds[..k], ids[..k], n, a);
    } else {
      assert a == ids[k];
    }
    NewRowStep(a, mid, byTitle, Wanted(ds[..k]), AliasIds(byTitle, ds[..k], ids[..k]), ds[k], ids[k], n);
  }

  predicate HoldsWanted(out: Rows, a: ArtifactId, d: Desired) {
    a in out && out[a].title == Some(d.phrase) && out[a].kind == AliasReference
    && out[a].gone.None? && out[a].body == Some(d.body) && out[a].acl == d.acl && Some(out[a].source) == d.anchor
  }

  lemma WantedStays(out: Rows, a: ArtifactId, wd: Desired, byTitle: map<string, ArtifactId>, d: Desired, id: ArtifactId, n: int)
    requires HoldsWanted(out, a, wd) && a != id && (d.phrase in byTitle ==> byTitle[d.phrase] != a)
    ensures HoldsWanted(Upsert(out, byTitle, d, id, n), a, wd)
  {}

  /** Every wanted phrase gets its row. */
  lemma {:induction false} WantedRowExists(rows: Rows, byTitle: map<string, ArtifactId>, ds: seq<Desired>,
                                           ids: seq<ArtifactId>, n: int, t: string)
    requires Legal(rows, byTitle, ds, ids) && t in Wanted(ds)
    ensures HoldsWanted(UpsertAll(rows, byTitle, ds, ids, n), AliasIds(byTitle, ds, ids)[t], Wanted(ds)[t])
    decreases |ds|, 1
  {
    if t in byTitle {
      UpsertedRow(rows, byTitle, ds, ids, n, byTitle[t]);
    } else {
      var k := |ds| - 1;
      LegalInit(rows, byTitle, ds, ids);
      FoldStep(rows, byTitle, ds, ids, n);
      assert ds[k].phrase in byTitle ==> byTitle[ds[k].phrase] in rows && rows[byTitle[ds[k].phrase]].title == Some(ds[k].phrase);
      hide UpsertAll, Wanted, AliasIds, FreshIds, DistinctPhrases, TitleIndex;
      if t != ds[k].phrase {
        EarlierRowStays(rows, byTitle, ds, ids, n, t);
      }
    }
  }

  lemma {:induction false} EarlierRowStays(rows: Rows, byTitle: map<string, ArtifactId>, ds: seq<Desired>,
                                           ids: seq<ArtifactId>, n: int, t: string)
    requires Legal(rows, byTitle, ds, ids) && ds != [] && t !in byTitle
    requires t in Wanted(ds[..|ds| - 1])
    ensures var k := |ds| - 1;
      HoldsWanted(Upsert(UpsertAll(rows, byTitle, ds[..k], ids[..k], n), byTitle, ds[k], ids[k], n),
                  AliasIds(byTitle, ds[..k], ids[..k])[t], Wanted(ds[..k])[t])
    decreases |ds|, 0
  {
    var k := |ds| - 1;
    LegalInit(rows, byTitle, ds, ids);
    var mid, a := UpsertAll(rows, byTitle, ds[..k], ids[..k], n), AliasIds(byTitle, ds[..k], ids[..k])[t];
    assert ds[k].phrase in byTitle ==> IsAlias(rows, byTitle[ds[k].phrase]) && rows[byTitle[ds[k].phrase]].title == Some(ds[k].phrase);
    hide UpsertAll, Wanted, AliasIds, FreshIds, DistinctPhrases, TitleIndex;
    WantedRowExists(rows, byTitle, ds[..k], ids[..k], n, t);
    if a !in rows {
      UpsertedNewRow(rows, byTitle, ds[..k], ids[..k], n, a);
    } else {
      UpsertedRow(rows, byTitle, ds[..k], ids[..k], n, a);
    }
    WantedStays(mid, a, Wanted(ds[..k])[t], byTitle, ds[k], ids[k], n);
  }

  /** One existing row through the whole reconcile. */
  lemma ReconciledRow(rows: Rows, byTitle: map<string, ArtifactId>, ds: seq<Desired>, ids: seq<ArtifactId>,
                      spareLedger: bool, n: int, a: ArtifactId)
    requires Legal(rows, byTitle, ds, ids) && a in rows
    ensures a in Reconciled(rows, byTitle, ds, ids, spareLedger, n)
    ensures Reconciled(rows, byTitle, ds, ids, spareLedger, n)[a] ==
            if Unwanted(a, rows[a], byTitle, Titles(ds), spareLedger) then rows[a].(gone := Some(n))
            else RowAfterUpserts(a, rows[a], byTitle, Wanted(ds))
  {
    UpsertedRow(rows, byTitle, ds, ids, n, a);
  }

  lemma ReconciledNewRow(rows: Rows, byTitle: map<string, ArtifactId>, ds: seq<Desired>, ids: seq<ArtifactId>,
                         spareLedger: bool, n: int, a: ArtifactId)
    requires Legal(rows, byTitle, ds, ids)
    requires a !in rows && a in Reconciled(rows, byTitle, ds, ids, spareLedger, n)
    ensures InsertedFor(Reconciled(rows, byTitle, ds, ids, spareLedger, n)[a], a, byTitle, Wanted(ds), AliasIds(byTitle, ds, ids), n)
  {
    UpsertedNewRow(rows, byTitle, ds, ids, n, a);
  }

  // ------------------------------------------------------- exactness of the rows

  /** The row of a wanted phrase: live, holding the wanted body, and the only one. */
  lemma WantedIsLive(rows: Rows, byTitle: map<string, ArtifactId>, ds: seq<Desired>, ids: seq<ArtifactId>,
                     spareLedger: bool, n: int, t: string)
    requires Legal(rows, byTitle, ds, ids) && t in Wanted(ds)
    ensures t in AliasIds(byTitle, ds, ids)
    ensures var a := AliasIds(byTitle, ds, ids)[t]; var out := Reconciled(rows, byTitle, ds, ids, spareLedger, n);
      LiveTitled(out, a, t) && out[a].body == Some(Wanted(ds)[t].body) &&
      out[a].acl == Wanted(ds)[t].acl && Some(out[a].source) == Wanted(ds)[t].anchor
  {
    WantedRowExists(rows, byTitle, ds, ids, n, t);
    assert t in Titles(ds);
  }

  lemma LiveRowIsTheOne(rows: Rows, byTitle: map<string, ArtifactId>, ds: seq<Desired>, ids: seq<ArtifactId>,
                        spareLedger: bool, n: int, a: ArtifactId, t: string)
    requires Legal(rows, byTitle, ds, ids) && Covers(rows, byTitle, ds)
    requires LiveTitled(Reconciled(rows, byTitle, ds, ids, spareLedger, n), a, t)
    ensures t in Wanted(ds) ==> a == AliasIds(byTitle, ds, ids)[t]
    ensures t !in Wanted(ds) ==> LiveTitled(rows, a, t)
    ensures t !in Wanted(ds) ==> Reconciled(rows, byTitle, ds, ids, spareLedger, n)[a] == rows[a]
    ensures t !in Wanted(ds) && t in byTitle && byTitle[t] == a ==> t in Titles(ds) || (spareLedger && LedgerOwned(rows[a]))
  {
    if a in rows {
      ReconciledRow(rows, byTitle, ds, ids, spareLedger, n, a);
      if t in Wanted(ds) && !Indexed(a, rows[a], byTitle) {
        assert Wanted(ds)[t] in ds && LiveTitled(rows, a, Wanted(ds)[t].phrase);
      }
    } else {
      ReconciledNewRow(rows, byTitle, ds, ids, spareLedger, n, a);
    }
  }

  /** One live row per phrase is kept, whatever was loaded. */
  lemma ReconciledOneLive(rows: Rows, byTitle: map<string, ArtifactId>, ds: seq<Desired>, ids: seq<ArtifactId>,
                          spareLedger: bool, n: int)
    requires Legal(rows, byTitle, ds, ids) && Covers(rows, byTitle, ds) && OneLivePerTitle(rows)
    ensures OneLivePerTitle(Reconciled(rows, byTitle, ds, ids, spareLedger, n))
  {
    var out := Reconciled(rows, byTitle, ds, ids, spareLedger, n);
    forall a, b, t | LiveTitled(out, a, t) && LiveTitled(out, b, t) ensures a == b {
      LiveRowIsTheOne(rows, byTitle, ds, ids, spareLedger, n, a, t);
      LiveRowIsTheOne(rows, byTitle, ds, ids, spareLedger, n, b, t);
    }
  }

  // ------------------------------------------------------- the past

  ghost predicate KeepsPast(rows: Rows, out: Rows, n: int) {
    && (forall a :: a in rows ==>
          a in out && out[a].validFrom == rows[a].validFrom &&
          SamePast(rows[a].gone, out[a].gone, n) && MovedAt(rows[a].gone, out[a].gone, n))
    && (forall a :: a in out && a !in rows ==> out[a].validFrom == n && MovedAt(None, out[a].gone, n))
  }

  /** No other kind of row is touched. */
  ghost predicate OnlyAliases(rows: Rows, out: Rows) {
    && (forall a :: a in rows && rows[a].kind != AliasReference ==> a in out && out[a] == rows[a])
    && (forall a :: a in rows && rows[a].kind == AliasReference ==> a in out && out[a].kind == AliasReference)
    && (forall a :: a in out && a !in rows ==> out[a].kind == AliasReference)
  }

  /** The index only holds rows that are live or left in this very build. */
  ghost predicate RecentIndex(rows: Rows, byTitle: map<string, ArtifactId>, n: int) {
    forall t :: t in byTitle ==> byTitle[t] in rows && (rows[byTitle[t]].gone.None? || rows[byTitle[t]].gone == Some(n))
  }

  lemma ReconciledKeepsPast(rows: Rows, byTitle: map<string, ArtifactId>, ds: seq<Desired>, ids: seq<ArtifactId>,
                            spareLedger: bool, n: int)
    requires Legal(rows, byTitle, ds, ids) && RecentIndex(rows, byTitle, n)
    ensures KeepsPast(rows, Reconciled(rows, byTitle, ds, ids, spareLedger, n), n)
    ensures OnlyAliases(rows, Reconciled(rows, byTitle, ds, ids, spareLedger, n))
  {
    var out := Reconciled(rows, byTitle, ds, ids, spareLedger, n);
    forall a | a in rows
      ensures a in out && out[a].validFrom == rows[a].validFrom
      ensures SamePast(rows[a].gone, out[a].gone, n) && MovedAt(rows[a].gone, out[a].gone, n)
      ensures out[a].kind == rows[a].kind && (rows[a].kind != AliasReference ==> out[a] == rows[a])
    {
      ReconciledRow(rows, byTitle, ds, ids, spareLedger, n, a);
    }
    forall a | a in out && a !in rows
      ensures out[a].validFrom == n && MovedAt(None, out[a].gone, n) && out[a].kind == AliasReference
    {
      ReconciledNewRow(rows, byTitle, ds, ids, spareLedger, n, a);
    }
  }

  // ------------------------------------------------------- the loops

  /** One wanted row: inserted, refreshed in place, or found as it should be. */
  method UpsertOne(store: Store, byTitle: map<string, ArtifactId>, d: Desired, id: ArtifactId, n: int)
    returns (alias: Option<ArtifactId>, inserted: nat, refreshed: nat, same: nat)
    requires forall t :: t in byTitle ==> byTitle[t] in store.artifacts
    modifies store`artifacts
    ensures store.artifacts == Upsert(old(store.artifacts), byTitle, d, id, n)
    ensures alias == if d.anchor.None? then None else Some(if d.phrase in byTitle then byTitle[d.phrase] else id)
    ensures inserted + refreshed + same == if d.anchor.Some? then 1 else 0
    ensures id !in old(store.artifacts) ==> |store.artifacts| == |old(store.artifacts)| + inserted
  {
    alias, inserted, refreshed, same := None, 0, 0, 0;
    if d.anchor.Some? {
      if d.phrase !in byTitle {
        OneMore(store.artifacts, id, NewAlias(d, n));
        store.artifacts := store.artifacts[id := NewAlias(d, n)];
        alias, inserted := Some(id), 1;
      } else {
        var a := byTitle[d.phrase];
        var row := store.artifacts[a];
        alias := Some(a);
        if row.body == Some(d.body) && row.acl == d.acl && row.source == d.anchor.value && row.gone.None? {
          same := 1;
          assert RefreshedAlias(row, d) == row;
          assert store.artifacts[a := row] == store.artifacts;
        } else {
          OneMore(store.artifacts, a, RefreshedAlias(row, d));
          store.artifacts := store.artifacts[a := RefreshedAlias(row, d)];
          refreshed := 1;
        }
      }
    }
  }

  method Reconcile(store: Store, byTitle: map<string, ArtifactId>, ds: seq<Desired>, ids: seq<ArtifactId>,
                   spareLedger: bool, n: int)
    returns (inserted: nat, refreshed: nat, same: nat, invalidated: nat, aliasIds: map<string, ArtifactId>)
    requires Legal(store.artifacts, byTitle, ds, ids)
    modifies store`artifacts
    ensures store.artifacts == Reconciled(old(store.artifacts), byTitle, ds, ids, spareLedger, n)
    ensures aliasIds == AliasIds(byTitle, ds, ids)
    ensures inserted + refreshed + same <= |ds| && inserted == |store.artifacts| - |old(store.artifacts)|
    ensures invalidated == |LeftRows(old(store.artifacts), store.artifacts)|
  {
    ghost var rows := store.artifacts;
    SweptHaveLeft(rows, byTitle, ds, ids, spareLedger, n);
    inserted, refreshed, same, aliasIds := 0, 0, 0, map[];
    assert ds[..0] == [];
    for k := 0 to |ds|
      invariant store.artifacts == UpsertAll(rows, byTitle, ds[..k], ids[..k], n)
      invariant aliasIds == AliasIds(byTitle, ds[..k], ids[..k])
      invariant inserted + refreshed + same <= k && |store.artifacts| == |rows| + inserted
    {
      assert ds[..k + 1][..k] == ds[..k] && ids[..k + 1][..k] == ids[..k];
      IndexedRowStays(rows, byTitle, ds[..k], ids[..k], n);
      IdIsNew(rows, byTitle, ds, ids, k, n);
      FoldStep(rows, byTitle, ds[..k + 1], ids[..k + 1], n);
      hide *;
      var alias, i, r, u := UpsertOne(store, byTitle, ds[k], ids[k], n);
      inserted, refreshed, same := inserted + i, refreshed + r, same + u;
      IdPlusIs(aliasIds, byTitle, ds[k], ids[k]);
      if alias.Some? { aliasIds := aliasIds[ds[k].phrase := alias.value]; }
    }
    assert ds[..|ds|] == ds && ids[..|ids|] == ids;
    var wanted := Titles(ds);
    invalidated := |set a | a in store.artifacts && Unwanted(a, store.artifacts[a], byTitle, wanted, spareLedger)|;
    store.artifacts := SweepUnwanted(store.artifacts, byTitle, wanted, spareLedger, n);
  }

  /** The rows that were live and no longer are. */
  function LeftRows(before: Rows, after: Rows): set<ArtifactId> {
    set a | a in before && before[a].gone.None? && a in after && after[a].gone.Some?
  }

  lemma OneMore(rows: Rows, a: ArtifactId, row: Artifact)
    ensures |rows[a := row]| == |rows| + if a in rows then 0 else 1
  {
    assert rows[a := row].Keys == rows.Keys + {a};
    assert |rows[a := row]| == |rows[a := row].Keys| && |rows| == |rows.Keys|;
  }

  lemma IdIsNew(rows: Rows, byTitle: map<string, ArtifactId>, ds: seq<Desired>, ids: seq<ArtifactId>, k: nat, n: int)
    requires Legal(rows, byTitle, ds, ids) && k < |ds|
    ensures ids[k] !in UpsertAll(rows, byTitle, ds[..k], ids[..k], n)
  {
    if ids[k] in UpsertAll(rows, byTitle, ds[..k], ids[..k], n) {
      UpsertedNewRow(rows, byTitle, ds[..k], ids[..k], n, ids[k]);
    }
  }

  /** The rows the sweep takes are the live ones that leave. */
  lemma SweptHaveLeft(rows: Rows, byTitle: map<string, ArtifactId>, ds: seq<Desired>, ids: seq<ArtifactId>, spareLedger: bool, n: int)
    requires Legal(rows, byTitle, ds, ids)
    ensures var mid, out := UpsertAll(rows, byTitle, ds, ids, n), Reconciled(rows, byTitle, ds, ids, spareLedger, n);
      (set a | a in mid && Unwanted(a, mid[a], byTitle, Titles(ds), spareLedger)) == LeftRows(rows, out)
    ensures Reconciled(rows, byTitle, ds, ids, spareLedger, n).Keys == UpsertAll(rows, byTitle, ds, ids, n).Keys
  {
    var mid := UpsertAll(rows, byTitle, ds, ids, n);
    forall a ensures a in mid && Unwanted(a, mid[a], byTitle, Titles(ds), spareLedger) ==> a in rows {
      if a in mid && a !in rows { UpsertedNewRow(rows, byTitle, ds, ids, n, a); }
    }
    forall a | a in rows { UpsertedRow(rows, byTitle, ds, ids, n, a); }
    hide UpsertAll, AliasIds, Legal;
  }

  lemma IdPlusIs(m: map<string, ArtifactId>, byTitle: map<string, ArtifactId>, d: Desired, id: ArtifactId)
    ensures IdPlus(m, byTitle, d, id) ==
      if d.anchor.None? then m else m[d.phrase := if d.phrase in byTitle then byTitle[d.phrase] else id]
  {}

  lemma {:induction false} IndexedRowStays(rows: Rows, byTitle: map<string, ArtifactId>, ds: seq<Desired>, ids: seq<ArtifactId>, n: int)
    requires |ids| == |ds| && TitleIndex(rows, byTitle)
    ensures forall t :: t in byTitle ==> byTitle[t] in UpsertAll(rows, byTitle, ds, ids, n)
  {
    if ds != [] { IndexedRowStays(rows, byTitle, ds[..|ds| - 1], ids[..|ds| - 1], n); }
  }
}
