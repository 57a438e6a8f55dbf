/** Incremental builds against building from scratch: what a completed build leaves
    live for every source, and exactly when that is the extraction of its text. */
module Incremental {
  import opened Prelude
  import opened Registry
  import opened Invalidation
  import opened PassProperties
  import opened LinkEdges
  import opened AliasIndex
  import opened AliasOutcome
  import opened AliasLedger
  import opened BuildMachine
  import opened BuildRuns
  import opened Documents
  import opened CodeTrees
  import R = AliasRows

  /** The live artifacts of a source, alias rows aside. */
  predicate IsDoc(db: Db, s: SourceId, a: ArtifactId) {
    a in db.artifacts && db.artifacts[a].gone.None? && db.artifacts[a].source == s && db.artifacts[a].kind != AliasReference
  }

  predicate RowHolds(row: Artifact, d: Draft) {
    row.kind == d.kind && row.title == d.title && row.body == d.body
  }

  /** `ids` lists the live artifacts of `s`, each once, one per draft in order. */
  ghost predicate ListsDocs(db: Db, s: SourceId, drafts: seq<Draft>, ids: seq<ArtifactId>) {
    && |ids| == |drafts|
    && (forall j, k :: 0 <= j < k < |ids| ==> ids[j] != ids[k])
    && (forall a :: a in ids <==> IsDoc(db, s, a))
    && (forall k :: 0 <= k < |ids| ==> ids[k] in db.artifacts && RowHolds(db.artifacts[ids[k]], drafts[k]))
  }

  /** The live artifacts of `s` are exactly the drafts, once each. */
  ghost predicate Holds(db: Db, s: SourceId, drafts: seq<Draft>) {
    exists ids :: ListsDocs(db, s, drafts, ids)
  }

  ghost predicate Bare(db: Db, s: SourceId) {
    forall a :: !IsDoc(db, s, a)
  }

  /** Every live document source has exactly the artifacts extracted from the content on
      record; every deleted one has none.  Code sources are extracted tree by tree, and
      nothing is said of them. */
  ghost predicate Clean(db: Db, extract: Extractor) {
    forall s :: CleanAt(db, s, extract)
  }

  ghost predicate CleanAt(db: Db, s: SourceId, extract: Extractor) {
    s in db.sources && !IsCode(db, s) ==>
      if db.sources[s].isDeleted then Bare(db, s) else Holds(db, s, extract(db.sources[s].content))
  }

  // ------------------------------------------------------- the build

  /** One completed build: process the listing, then the code trees, then finalize what
      was committed.  `code` is what the repositories come to. */
  datatype Build = Build(items: seq<Item>, repos: seq<Repo>, code: CodeTree, f: FinalizeInput, rules: Rules, n: int, now: int)

  /** Rows so far are older than this build, and extraction never yields alias rows. */
  ghost predicate Prepared(db: Db, b: Build, extract: Extractor) {
    && (forall a :: a in db.artifacts ==> db.artifacts[a].validFrom < b.n)
    && (forall t, d :: d in extract(t) ==> d.kind != AliasReference)
  }

  function Processed(db: Db, b: Build, extract: Extractor): Session
    requires EnoughIds(b.items, extract)
  {
    Grown(ProcessAll(db, b.items, extract, b.n, b.now), b.code)
  }

  /** A listing and code trees this build can process. */
  ghost predicate Ready(db: Db, b: Build, extract: Extractor) {
    LegalListing(db, b.items, extract) && Prepared(db, b, extract) && Trees(db, b, extract) &&
    LegalTree(db, ProcessAll(db, b.items, extract, b.n, b.now).work, b.items, b.code, b.n)
  }

  ghost predicate Trees(db: Db, b: Build, extract: Extractor)
    requires EnoughIds(b.items, extract)
  {
    FilesApart(db, b.items, FilesOf(b.repos)) &&
    b.code == TreeOf(ProcessAll(db, b.items, extract, b.n, b.now).work, b.repos, b.now)
  }

  ghost predicate LegalBuild(db: Db, b: Build, extract: Extractor) {
    && Ready(db, b, extract)
    && (var s := Processed(db, b, extract);
        LegalFinalize(s.work, b.f, b.rules, b.n) && b.f.pass.seen == s.seen && b.f.pass.changed == s.changed)
  }

  function Built(db: Db, b: Build, extract: Extractor): Db
    requires LegalBuild(db, b, extract)
  {
    Finalized(Processed(db, b, extract).work, b.f, b.rules, b.n)
  }

  // ------------------------------------------------------- finalize, seen from the documents

  /** The alias passes change no other row. */
  lemma AliasPassesSpareDocs(db: Db, f: FinalizeInput, rules: Rules, n: int)
    requires LegalFinalize(db, f, rules, n)
    ensures R.OnlyAliases(AfterPass(db, f, n).artifacts, Finalized(db, f, rules, n).artifacts)
    ensures Finalized(db, f, rules, n).sources == AfterPass(db, f, n).sources
  {
    var c, d, fin := AfterPass(db, f, n), AfterAlias(db, f, rules, n), Finalized(db, f, rules, n);
    assert LegalChoice(c, f.alias, f.choice, rules, n) && d == AliasStage(c, f.alias, f.choice, rules, n);
    assert fin == LedgerStage(d, f.ledgerOrder, f.misses, f.ledgerIds, n);
    assert LegalLedger(d.artifacts, f.ledgerOrder, f.misses, f.ledgerIds);
    assert d.sources == c.sources && fin.sources == d.sources;
    hide *;
    StageKeepsRows(c, f.alias, f.choice, rules, n);
    StageOneLive(c, f.alias, f.choice, rules, n);
    LedgerKeepsRows(d, fin, f.ledgerOrder, f.misses, f.ledgerIds, n);
    KeepsTransitive(c.artifacts, d.artifacts, fin.artifacts, n);
  }

  lemma LedgerKeepsRows(d: Db, fin: Db, order: seq<ArtifactId>, groups: seq<MissGroup>, ids: seq<ArtifactId>, n: int)
    requires LegalLedger(d.artifacts, order, groups, ids) && R.OneLivePerTitle(d.artifacts)
    requires fin == LedgerStage(d, order, groups, ids, n)
    ensures R.KeepsPast(d.artifacts, fin.artifacts, n) && R.OnlyAliases(d.artifacts, fin.artifacts)
  {
    LedgerStageOutcome(d.artifacts, order, groups, ids, n);
    hide LedgerRows;
  }

  /** What finalize does to the documents: exactly the rows the pass retires leave. */
  lemma FinalizedDoc(db: Db, f: FinalizeInput, rules: Rules, n: int, s: SourceId, a: ArtifactId)
    requires LegalFinalize(db, f, rules, n)
    ensures var x := EffectOf(AfterLinks(db, f, n), n, f.pass); var fin := Finalized(db, f, rules, n);
      && (IsDoc(fin, s, a) <==> IsDoc(db, s, a) && a !in x.Retired())
      && (IsDoc(fin, s, a) ==> SameContent(db.artifacts[a], fin.artifacts[a]))
  {
    var b, c, fin := AfterLinks(db, f, n), AfterPass(db, f, n), Finalized(db, f, rules, n);
    LinksStamp(db, f, n);
    PassApplies(b, n, f.pass);
    AliasPassesSpareDocs(db, f, rules, n);
    assert c == InvalidationPass(b, n, f.pass);
    var x := EffectOf(b, n, f.pass);
    hide LegalFinalize, AfterLinks, AfterPass, Finalized, InvalidationPass, EffectOf, EdgesApplied, Stamped;
    if a in b.artifacts {
      EffectLive(b, n, x, c, a);
      assert RowAfter(b.artifacts[a], c.artifacts[a], a in x.Retired(), n);
    }
    hide Sound;
  }

  predicate SameContent(r: Artifact, r': Artifact) {
    r'.kind == r.kind && r'.title == r.title && r'.body == r.body
  }

  /** Which of them are retired, by the state of their source. */
  lemma RetiredDoc(db: Db, f: FinalizeInput, n: int, s: SourceId, a: ArtifactId)
    requires LegalPass(db, f, n) && IsDoc(db, s, a) && f.pass.changed <= f.pass.seen
    ensures var b := AfterLinks(db, f, n); var x := EffectOf(b, n, f.pass);
      && (s in f.pass.changed ==> (a in x.Retired() <==> db.artifacts[a].validFrom < n))
      && (s in f.pass.seen && s !in f.pass.changed ==> a !in x.Retired())
      && (s !in f.pass.seen && s !in Vanished(b, f.pass.seen, f.pass.startedAt) ==> a !in x.Retired())
      && (s in Vanished(b, f.pass.seen, f.pass.startedAt) ==> (a in x.Retired() <==> a !in Leftovers(b, n, f.pass)))
  {
    var b, p := AfterLinks(db, f, n), f.pass;
    hide *;
    LinksStamp(db, f, n);
    PassRunsAfterLinks(db, f, n);
    SameDoc(db, b, s, a);
    RetiredInPass(b, n, p, s, a);
    SeenNotVanished(b, p.seen, p.startedAt, s);
    Subset(p.changed, p.seen, s);
    if s in Vanished(b, p.seen, p.startedAt) { VanishedRetired(b, n, p, a); }
  }

  lemma SameDoc(db: Db, b: Db, s: SourceId, a: ArtifactId)
    requires b.artifacts == db.artifacts && IsDoc(db, s, a)
    ensures IsDoc(b, s, a) && LiveArtifact(b, a) && b.artifacts[a].source == s
    ensures a in db.artifacts && b.artifacts[a].validFrom == db.artifacts[a].validFrom
  {}

  /** A row of a seen source is retired exactly when the source changed and the row is
      older; one of a source passed over is not retired. */
  lemma RetiredInPass(b: Db, n: int, i: PassInput, s: SourceId, a: ArtifactId)
    requires LegalInput(b, n, i) && i.changed <= i.seen && LiveArtifact(b, a) && b.artifacts[a].source == s
    ensures var x := EffectOf(b, n, i);
      && (s in i.seen ==> (a in x.Retired() <==> s in i.changed && b.artifacts[a].validFrom < n))
      && (s !in i.seen && s !in Vanished(b, i.seen, i.startedAt) ==> a !in x.Retired())
  {
    var x := EffectOf(b, n, i);
    PassApplies(b, n, i);
    EffectParts(b, n, i);
    SeenNotVanished(b, i.seen, i.startedAt, s);
    hide *;
    if s !in x.vanished { RetiredUnder(b, n, x, i.changed, s, a); }
    Subset(i.changed, i.seen, s);
  }

  lemma Subset(changed: set<SourceId>, seen: set<SourceId>, s: SourceId)
    requires changed <= seen
    ensures s in changed ==> s in seen
  {}

  lemma EffectParts(b: Db, n: int, i: PassInput)
    requires LegalInput(b, n, i)
    ensures var x := EffectOf(b, n, i);
      && x.vanished == Vanished(b, i.seen, i.startedAt)
      && x.superseded == PriorGeneration(b, n, i.changed) - x.rho.Keys - x.deleted
  {
    PassApplies(b, n, i);
    hide LegalInput, PriorGeneration, Vanished, DeletedArtifacts, PassRenames, Applied;
  }

  lemma SeenNotVanished(b: Db, seen: set<SourceId>, startedAt: int, s: SourceId)
    ensures s in Vanished(b, seen, startedAt) ==> s !in seen
  {}

  lemma RetiredUnder(b: Db, n: int, x: Effect, changed: set<SourceId>, s: SourceId, a: ArtifactId)
    requires Sound(b, n, x) && x.superseded == PriorGeneration(b, n, changed) - x.rho.Keys - x.deleted
    requires LiveArtifact(b, a) && b.artifacts[a].source == s && s !in x.vanished
    ensures a in x.Retired() <==> s in changed && b.artifacts[a].validFrom < n
  {}

  lemma VanishedRetired(b: Db, n: int, i: PassInput, a: ArtifactId)
    requires LegalInput(b, n, i) && i.changed <= i.seen && LiveArtifact(b, a)
    requires b.artifacts[a].source in Vanished(b, i.seen, i.startedAt)
    ensures a in EffectOf(b, n, i).Retired() <==> a !in Leftovers(b, n, i)
  {
    PassApplies(b, n, i);
    VanishedSourcesKeepLeftovers(b, n, i);
    var x, d := EffectOf(b, n, i), InvalidationPass(b, n, i);
    EffectLive(b, n, x, d, a);
    assert RowAfter(b.artifacts[a], d.artifacts[a], a in x.Retired(), n);
    assert a in LiveOf(d, Vanished(b, i.seen, i.startedAt)) <==> LiveArtifact(d, a);
  }

  // ------------------------------------------------------- every source after a build

  ghost predicate SameDocs(db: Db, d: Db, s: SourceId) {
    forall a :: (IsDoc(d, s, a) <==> IsDoc(db, s, a)) && (IsDoc(d, s, a) ==> SameContent(db.artifacts[a], d.artifacts[a]))
  }

  function Ids(b: Build, extract: Extractor, k: nat): seq<ArtifactId>
    requires k < |b.items| && |extract(b.items[k].text)| <= |b.items[k].ids|
  {
    b.items[k].ids[..|extract(b.items[k].text)|]
  }

  /** After the listing a source has its earlier artifacts and, if it was written, one
      row per draft besides. */
  lemma ProcessedDoc(db: Db, b: Build, extract: Extractor, s: SourceId, a: ArtifactId)
    requires Ready(db, b, extract)
    ensures var w := Processed(db, b, extract).work;
      && (a in db.artifacts ==> a in w.artifacts && w.artifacts[a] == db.artifacts[a] && w.artifacts[a].validFrom < b.n)
      && (a !in db.artifacts && a in w.artifacts ==>
            w.artifacts[a].validFrom == b.n && (IsDoc(w, s, a) && s !in b.code.sources ==>
              exists k :: 0 <= k < |b.items| && b.items[k].source == s && a in Ids(b, extract, k)
                          && FateAt(db, b.items, extract, b.n, b.now, k).Written?))
  {
    var w0 := ProcessAll(db, b.items, extract, b.n, b.now).work;
    if a in db.artifacts {
      OldRowsStay(db, b.items, extract, b.n, b.now, a);
    } else if a in w0.artifacts {
      var k, p := NewRowIsDraft(db, b.items, extract, b.n, b.now, a);
      assert Ids(b, extract, k)[p] == a;
    }
  }

  /** The code trees do not touch the sources of documents. */
  lemma CodeIsApart(db: Db, b: Build, extract: Extractor, x: SourceId)
    requires Ready(db, b, extract) && x !in b.code.sources
    ensures var s0, s := ProcessAll(db, b.items, extract, b.n, b.now), Processed(db, b, extract);
      && (x in s.seen <==> x in s0.seen) && (x in s.changed <==> x in s0.changed)
      && (x in s.work.sources <==> x in s0.work.sources)
      && (x in s.work.sources ==> s.work.sources[x] == s0.work.sources[x])
      && (x in s.saved.sources <==> x in s0.saved.sources || (b.code.committed && x in s0.work.sources))
  {
    WorkIsSavedButTouches(db, b.items, extract, b.n, b.now);
  }

  lemma ItemsAreApart(db: Db, b: Build, extract: Extractor, k: nat)
    requires Ready(db, b, extract) && k < |b.items|
    ensures b.items[k].source !in b.code.sources && IsDocItem(db, b.items[k])
  {}

  lemma SeenAndChanged(db: Db, b: Build, extract: Extractor)
    requires Ready(db, b, extract)
    ensures var s := Processed(db, b, extract); s.changed <= s.seen
  {
    var s := ProcessAll(db, b.items, extract, b.n, b.now);
    forall x | x in s.changed ensures x in s.seen {
      if k :| 0 <= k < |b.items| && b.items[k].source == x {
        ListedSource(db, b.items, extract, b.n, b.now, k);
      } else {
        UnlistedSource(db, b.items, extract, b.n, b.now, x);
      }
    }
  }

  lemma BuildIs(db: Db, b: Build, extract: Extractor)
    requires LegalBuild(db, b, extract)
    ensures Ready(db, b, extract) && LegalListing(db, b.items, extract) && Prepared(db, b, extract)
    ensures var s := Processed(db, b, extract);
      && LegalFinalize(s.work, b.f, b.rules, b.n) && LegalPass(s.work, b.f, b.n)
      && Built(db, b, extract) == Finalized(s.work, b.f, b.rules, b.n)
      && b.f.pass.seen == s.seen && b.f.pass.changed == s.changed && b.f.pass.changed <= b.f.pass.seen
  {
    SeenAndChanged(db, b, extract);
  }

  lemma KeptIsSeen(db: Db, b: Build, extract: Extractor, k: nat)
    requires LegalBuild(db, b, extract) && k < |b.items|
    requires var f := FateAt(db, b.items, extract, b.n, b.now, k); f.Touched? || f.Failed?
    ensures var s := b.items[k].source; var m := AfterLinks(Processed(db, b, extract).work, b.f, b.n);
      && s !in b.f.pass.changed
      && (s !in b.f.pass.seen ==> s !in Vanished(m, b.f.pass.seen, b.f.pass.startedAt))
  {
    ListedSource(db, b.items, extract, b.n, b.now, k);
    ItemsAreApart(db, b, extract, k);
    CodeIsApart(db, b, extract, b.items[k].source);
    LinksStamp(Processed(db, b, extract).work, b.f, b.n);
    hide Ready, Processed, FateAt, LegalFinalize, AfterLinks, Stamped, ProcessAll;
  }

  lemma UnwrittenDoc(db: Db, b: Build, extract: Extractor, s: SourceId, a: ArtifactId)
    requires Ready(db, b, extract)
    requires s !in b.code.sources
    requires forall k :: 0 <= k < |b.items| && b.items[k].source == s ==> !FateAt(db, b.items, extract, b.n, b.now, k).Written?
    ensures var w := Processed(db, b, extract).work;
      (IsDoc(w, s, a) <==> IsDoc(db, s, a)) && (IsDoc(db, s, a) ==> w.artifacts[a] == db.artifacts[a])
  {
    ProcessedDoc(db, b, extract, s, a);
  }

  lemma KeptDoc(db: Db, b: Build, extract: Extractor, k: nat, a: ArtifactId)
    requires LegalBuild(db, b, extract) && k < |b.items|
    requires var f := FateAt(db, b.items, extract, b.n, b.now, k); f.Touched? || f.Failed?
    ensures var fin, s := Built(db, b, extract), b.items[k].source;
      && (IsDoc(fin, s, a) <==> IsDoc(db, s, a)) && (IsDoc(fin, s, a) ==> SameContent(db.artifacts[a], fin.artifacts[a]))
  {
    var w, s := Processed(db, b, extract).work, b.items[k].source;
    BuildIs(db, b, extract);
    ItemsAreApart(db, b, extract, k);
    forall j | 0 <= j < |b.items| && b.items[j].source == s ensures j == k {}
    hide *;
    KeptIsSeen(db, b, extract, k);
    UnwrittenDoc(db, b, extract, s, a);
    FinalizedDoc(w, b.f, b.rules, b.n, s, a);
    if IsDoc(w, s, a) { RetiredDoc(w, b.f, b.n, s, a); }
  }

  /** Touched and failed sources keep exactly what they had. */
  lemma KeptOutcome(db: Db, b: Build, extract: Extractor, k: nat)
    requires LegalBuild(db, b, extract) && k < |b.items|
    requires var f := FateAt(db, b.items, extract, b.n, b.now, k); f.Touched? || f.Failed?
    ensures SameDocs(db, Built(db, b, extract), b.items[k].source)
  {
    hide LegalBuild, Built, IsDoc, SameContent, FateAt;
    forall a { KeptDoc(db, b, extract, k, a); }
  }

  /** A changed source keeps none of its earlier artifacts: if it was replayed from
      the cache it has none left, if it was written it has one row per draft. */
  lemma ChangedOutcome(db: Db, b: Build, extract: Extractor, k: nat)
    requires LegalBuild(db, b, extract) && k < |b.items|
    ensures var f := FateAt(db, b.items, extract, b.n, b.now, k); var fin := Built(db, b, extract);
      && (f.Replayed? ==> Bare(fin, b.items[k].source))
      && (f.Written? ==> ListsDocs(fin, b.items[k].source, extract(b.items[k].text), Ids(b, extract, k)))
  {
    var f := FateAt(db, b.items, extract, b.n, b.now, k);
    if f.Replayed? { ReplayedOutcome(db, b, extract, k); }
    if f.Written? { WrittenOutcome(db, b, extract, k); }
  }

  lemma ReplayedOutcome(db: Db, b: Build, extract: Extractor, k: nat)
    requires LegalBuild(db, b, extract) && k < |b.items| && FateAt(db, b.items, extract, b.n, b.now, k).Replayed?
    ensures Bare(Built(db, b, extract), b.items[k].source)
  {
    hide Built, IsDoc, FateAt, Processed, Ready, LegalFinalize;
    forall a ensures !IsDoc(Built(db, b, extract), b.items[k].source, a) {
      ChangedDoc(db, b, extract, k, a);
      if a !in db.artifacts { NoNewDoc(db, b, extract, k, a); }
    }
  }

  lemma WrittenOutcome(db: Db, b: Build, extract: Extractor, k: nat)
    requires LegalBuild(db, b, extract) && k < |b.items| && FateAt(db, b.items, extract, b.n, b.now, k).Written?
    ensures ListsDocs(Built(db, b, extract), b.items[k].source, extract(b.items[k].text), Ids(b, extract, k))
  {
    var w, fin, s, ids := Processed(db, b, extract).work, Built(db, b, extract), b.items[k].source, Ids(b, extract, k);
    BuildIs(db, b, extract);
    assert |ids| == |extract(b.items[k].text)|;
    hide *;
    WrittenDocs(db, b, extract, k);
    forall a { ChangedDoc(db, b, extract, k, a); }
    ListedAsWritten(db, w, fin, s, ids, extract(b.items[k].text));
  }

  lemma ListedAsWritten(db: Db, w: Db, fin: Db, s: SourceId, ids: seq<ArtifactId>, drafts: seq<Draft>)
    requires |ids| == |drafts| && forall p, q :: 0 <= p < q < |ids| ==> ids[p] != ids[q]
    requires forall a :: a in ids <==> IsDoc(w, s, a) && a !in db.artifacts
    requires forall p :: 0 <= p < |ids| ==> ids[p] in w.artifacts && RowHolds(w.artifacts[ids[p]], drafts[p])
    requires forall a :: IsDoc(fin, s, a) <==> IsDoc(w, s, a) && a !in db.artifacts
    requires forall a :: IsDoc(fin, s, a) ==> a in w.artifacts && SameContent(w.artifacts[a], fin.artifacts[a])
    ensures ListsDocs(fin, s, drafts, ids)
  {
    forall p | 0 <= p < |ids| ensures ids[p] in fin.artifacts && RowHolds(fin.artifacts[ids[p]], drafts[p]) {
      assert ids[p] in ids && IsDoc(fin, s, ids[p]);
    }
  }

  lemma NoNewDoc(db: Db, b: Build, extract: Extractor, k: nat, a: ArtifactId)
    requires Ready(db, b, extract) && k < |b.items|
    requires !FateAt(db, b.items, extract, b.n, b.now, k).Written? && a !in db.artifacts
    ensures !IsDoc(Processed(db, b, extract).work, b.items[k].source, a)
  {
    ProcessedDoc(db, b, extract, b.items[k].source, a);
  }

  lemma ChangedIsChanged(db: Db, b: Build, extract: Extractor, k: nat)
    requires LegalBuild(db, b, extract) && k < |b.items|
    requires var f := FateAt(db, b.items, extract, b.n, b.now, k); f.Replayed? || f.Written?
    ensures b.items[k].source in b.f.pass.changed
  {
    ListedSource(db, b.items, extract, b.n, b.now, k);
    ItemsAreApart(db, b, extract, k);
    CodeIsApart(db, b, extract, b.items[k].source);
    hide Ready, Processed, FateAt, LegalFinalize, ProcessAll;
  }

  lemma OldOrNew(db: Db, b: Build, extract: Extractor, a: ArtifactId)
    requires Ready(db, b, extract) && a in Processed(db, b, extract).work.artifacts
    ensures Processed(db, b, extract).work.artifacts[a].validFrom < b.n <==> a in db.artifacts
  {
    ProcessedDoc(db, b, extract, Processed(db, b, extract).work.artifacts[a].source, a);
  }

  lemma DocIsThere(db: Db, s: SourceId, a: ArtifactId)
    requires IsDoc(db, s, a)
    ensures a in db.artifacts
  {}

  lemma ChangedDoc(db: Db, b: Build, extract: Extractor, k: nat, a: ArtifactId)
    requires LegalBuild(db, b, extract) && k < |b.items|
    requires var f := FateAt(db, b.items, extract, b.n, b.now, k); f.Replayed? || f.Written?
    ensures var w, fin, s := Processed(db, b, extract).work, Built(db, b, extract), b.items[k].source;
      && (IsDoc(fin, s, a) <==> IsDoc(w, s, a) && a !in db.artifacts)
      && (IsDoc(fin, s, a) ==> a in w.artifacts && SameContent(w.artifacts[a], fin.artifacts[a]))
  {
    var w, s := Processed(db, b, extract).work, b.items[k].source;
    BuildIs(db, b, extract);
    hide *;
    ChangedIsChanged(db, b, extract, k);
    FinalizedDoc(w, b.f, b.rules, b.n, s, a);
    if IsDoc(w, s, a) {
      DocIsThere(w, s, a);
      OldOrNew(db, b, extract, a);
      RetiredDoc(w, b.f, b.n, s, a);
    }
  }

  lemma WrittenDocs(db: Db, b: Build, extract: Extractor, k: nat)
    requires Ready(db, b, extract) && k < |b.items|
    requires FateAt(db, b.items, extract, b.n, b.now, k).Written?
    ensures var w, s, ids := Processed(db, b, extract).work, b.items[k].source, Ids(b, extract, k);
      && (forall a :: a in ids <==> IsDoc(w, s, a) && a !in db.artifacts)
      && (forall p :: 0 <= p < |ids| ==> ids[p] in w.artifacts && RowHolds(w.artifacts[ids[p]], extract(b.items[k].text)[p]))
      && (forall p, q :: 0 <= p < q < |ids| ==> ids[p] != ids[q])
  {
    var w, s, ids := Processed(db, b, extract).work, b.items[k].source, Ids(b, extract, k);
    forall p | 0 <= p < |ids|
      ensures ids[p] in w.artifacts && w.artifacts[ids[p]] == RowFor(extract(b.items[k].text)[p], b.items[k], b.n)
      ensures ids[p] !in db.artifacts && IsDoc(w, s, ids[p])
    {
      DraftHasRow(db, b.items, extract, b.n, b.now, k, p);
      assert extract(b.items[k].text)[p] in extract(b.items[k].text);
    }
    forall a | IsDoc(w, s, a) && a !in db.artifacts ensures a in ids {
      ProcessedDoc(db, b, extract, s, a);
    }
  }

  /** Neither an item nor a code file that went through. */
  ghost predicate Unlisted(b: Build, s: SourceId) {
    s !in b.code.sources && forall k :: 0 <= k < |b.items| ==> b.items[k].source != s
  }

  lemma UnlistedDoc(db: Db, b: Build, extract: Extractor, s: SourceId, a: ArtifactId)
    requires LegalBuild(db, b, extract) && Unlisted(b, s)
    ensures var w, fin := Processed(db, b, extract).work, Built(db, b, extract);
      && (IsDoc(fin, s, a) ==> IsDoc(db, s, a) && SameContent(db.artifacts[a], fin.artifacts[a]))
      && (IsDoc(db, s, a) ==>
            (IsDoc(fin, s, a) <==> s !in VanishedOf(db, b, extract) || a in LeftoversOf(db, b, extract)))
  {
    var w := Processed(db, b, extract).work;
    BuildIs(db, b, extract);
    UnlistedIsUnseen(db, b, extract, s);
    hide *;
    UnwrittenDoc(db, b, extract, s, a);
    FinalizedDoc(w, b.f, b.rules, b.n, s, a);
    if IsDoc(w, s, a) { RetiredDoc(w, b.f, b.n, s, a); }
  }

  lemma UnlistedIsUnseen(db: Db, b: Build, extract: Extractor, s: SourceId)
    requires LegalBuild(db, b, extract) && Unlisted(b, s)
    ensures s !in b.f.pass.seen
    ensures var m := AfterLinks(Processed(db, b, extract).work, b.f, b.n);
      && VanishedOf(db, b, extract) == Vanished(m, b.f.pass.seen, b.f.pass.startedAt)
      && LeftoversOf(db, b, extract) == Leftovers(m, b.n, b.f.pass)
  {
    BuildIs(db, b, extract);
    LinksLeaveSources(db, b, extract);
    hide *;
    NotProcessed(db, b, extract, s);
  }

  lemma NotProcessed(db: Db, b: Build, extract: Extractor, s: SourceId)
    requires Ready(db, b, extract) && Unlisted(b, s)
    ensures s !in Processed(db, b, extract).seen
  {
    UnlistedSource(db, b.items, extract, b.n, b.now, s);
    CodeIsApart(db, b, extract, s);
    hide Processed, ProcessAll, LegalTree, Prepared;
  }

  lemma LinksLeaveSources(db: Db, b: Build, extract: Extractor)
    requires LegalBuild(db, b, extract)
    ensures var m := AfterLinks(Processed(db, b, extract).work, b.f, b.n);
      && VanishedOf(db, b, extract) == Vanished(m, b.f.pass.seen, b.f.pass.startedAt)
      && LeftoversOf(db, b, extract) == Leftovers(m, b.n, b.f.pass)
  {
    BuildIs(db, b, extract);
    hide LegalBuild, Ready, Processed, LegalFinalize, AfterLinks, Leftovers, Vanished, LegalListing, Prepared, Built;
    PassRunsAfterLinks(Processed(db, b, extract).work, b.f, b.n);
    VanishedAfterLinks(Processed(db, b, extract).work, b.f, b.n);
  }

  lemma PassRunsAfterLinks(w: Db, f: FinalizeInput, n: int)
    requires LegalPass(w, f, n)
    ensures LegalLinks(w, f, n) && LegalInput(AfterLinks(w, f, n), n, f.pass)
  {}

  lemma VanishedAfterLinks(w: Db, f: FinalizeInput, n: int)
    requires LegalLinks(w, f, n)
    ensures Vanished(AfterLinks(w, f, n), f.pass.seen, f.pass.startedAt) == Vanished(w, f.pass.seen, f.pass.startedAt)
  {
    LinksStamp(w, f, n);
    hide AfterLinks, Stamped, LegalLinks;
  }

  /** The sources the build's pass finds vanished. */
  function VanishedOf(db: Db, b: Build, extract: Extractor): set<SourceId>
    requires LegalBuild(db, b, extract)
  {
    Vanished(Processed(db, b, extract).work, b.f.pass.seen, b.f.pass.startedAt)
  }

  /** Artifacts of renamed-away sources that no rename matched. */
  function LeftoversOf(db: Db, b: Build, extract: Extractor): set<ArtifactId>
    requires LegalBuild(db, b, extract)
  {
    Leftovers(AfterLinks(Processed(db, b, extract).work, b.f, b.n), b.n, b.f.pass)
  }

  ghost predicate OnlyLeftovers(db: Db, fin: Db, s: SourceId, left: set<ArtifactId>) {
    forall a :: IsDoc(fin, s, a) <==> IsDoc(db, s, a) && a in left
  }

  /** A source nobody listed keeps what it had, unless it vanished: then only what a
      partial rename left over stays. */
  lemma UnlistedOutcome(db: Db, b: Build, extract: Extractor, s: SourceId)
    requires LegalBuild(db, b, extract) && Unlisted(b, s)
    ensures if s in VanishedOf(db, b, extract)
            then OnlyLeftovers(db, Built(db, b, extract), s, LeftoversOf(db, b, extract))
            else SameDocs(db, Built(db, b, extract), s)
  {
    hide LegalBuild, Built, IsDoc, SameContent, VanishedOf, LeftoversOf, Processed;
    forall a { UnlistedDoc(db, b, extract, s, a); }
  }
}
