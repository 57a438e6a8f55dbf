/** When an incremental build leaves what a build from scratch would: exactly the
    extraction of every listed text, and nothing for sources that are gone. */
module FromScratch {
  import opened Prelude
  import opened Registry
  import opened Invalidation
  import opened PassProperties
  import opened BuildMachine
  import AliasIndex
  import opened Documents
  import opened CodeTrees
  import opened Incremental
  import Engine

  /** Every extraction yields at least one artifact. */
  ghost predicate Productive(extract: Extractor) {
    forall t :: extract(t) != []
  }

  lemma SameDocsHold(db: Db, d: Db, s: SourceId, drafts: seq<Draft>)
    requires SameDocs(db, d, s) && Holds(db, s, drafts)
    ensures Holds(d, s, drafts)
  {
    var ids :| ListsDocs(db, s, drafts, ids);
    forall k | 0 <= k < |ids| ensures ids[k] in d.artifacts && RowHolds(d.artifacts[ids[k]], drafts[k]) {
      assert ids[k] in ids && IsDoc(d, s, ids[k]);
    }
    assert ListsDocs(d, s, drafts, ids);
  }

  lemma SameDocsBack(db: Db, d: Db, s: SourceId)
    requires SameDocs(db, d, s)
    ensures SameDocs(d, db, s) && (Bare(d, s) <==> Bare(db, s))
  {}

  lemma SameDocsIff(db: Db, d: Db, s: SourceId, drafts: seq<Draft>)
    requires SameDocs(db, d, s)
    ensures Holds(d, s, drafts) <==> Holds(db, s, drafts)
    ensures Bare(d, s) <==> Bare(db, s)
  {
    SameDocsBack(db, d, s);
    hide SameDocs, Holds, Bare;
    if Holds(db, s, drafts) { SameDocsHold(db, d, s, drafts); }
    if Holds(d, s, drafts) { SameDocsHold(d, db, s, drafts); }
  }

  lemma BareHoldsNothing(db: Db, s: SourceId, drafts: seq<Draft>)
    requires Bare(db, s) && drafts != []
    ensures !Holds(db, s, drafts)
  {
    forall ids ensures !ListsDocs(db, s, drafts, ids) {
      if ids != [] { assert ids[0] in ids; }
    }
  }

  /** The pass marks the vanished sources deleted and touches no other source. */
  lemma BuiltSources(db: Db, b: Build, extract: Extractor)
    requires LegalBuild(db, b, extract)
    ensures Built(db, b, extract).sources == MarkDeleted(Processed(db, b, extract).work.sources, VanishedOf(db, b, extract))
  {
    var w := Processed(db, b, extract).work;
    BuildIs(db, b, extract);
    LinksLeaveSources(db, b, extract);
    hide *;
    FinalizedSources(w, b.f, b.rules, b.n);
  }

  lemma FinalizedSources(w: Db, f: FinalizeInput, rules: AliasIndex.Rules, n: int)
    requires LegalFinalize(w, f, rules, n)
    ensures Finalized(w, f, rules, n).sources ==
            MarkDeleted(w.sources, Vanished(AfterLinks(w, f, n), f.pass.seen, f.pass.startedAt))
  {
    LinksStamp(w, f, n);
    AliasPassesSpareDocs(w, f, rules, n);
    PassSources(AfterLinks(w, f, n), n, f.pass);
    hide LegalFinalize, Finalized, InvalidationPass, MarkDeleted, Vanished, Stamped;
  }

  /** What the build records for the source of its k-th item. */
  lemma ListedRecord(db: Db, b: Build, extract: Extractor, k: nat)
    requires LegalBuild(db, b, extract) && k < |b.items|
    ensures var fin, i := Built(db, b, extract), b.items[k];
      var f := FateAt(db, b.items, extract, b.n, b.now, k);
      && (f.Touched? || f.Failed? ==>
            (i.source in fin.sources <==> i.source in db.sources) &&
            (i.source in db.sources ==> SameSource(db.sources[i.source], fin.sources[i.source])))
      && (f.Replayed? || f.Written? ==>
            i.source in fin.sources && fin.sources[i.source].content == i.text && !fin.sources[i.source].isDeleted)
      && !IsCode(db, i.source) && !IsCode(fin, i.source)
      && (f.Touched? ==> i.source in db.sources && db.sources[i.source].content == i.text)
  {
    var s0, s, x := ProcessAll(db, b.items, extract, b.n, b.now), Processed(db, b, extract), b.items[k].source;
    BuiltSources(db, b, extract);
    BuildIs(db, b, extract);
    ItemsAreApart(db, b, extract, k);
    ListedSource(db, b.items, extract, b.n, b.now, k);
    CodeIsApart(db, b, extract, x);
    assert x in s.work.sources ==> x !in VanishedOf(db, b, extract);
    hide LegalBuild, Ready, Processed, ProcessAll, FateAt, VanishedOf, Built, LegalFinalize, LegalListing, Prepared;
  }

  /** A listed source ends clean unless it was replayed from the cache. */
  lemma CleanListedIff(db: Db, b: Build, extract: Extractor, k: nat)
    requires LegalBuild(db, b, extract) && k < |b.items|
    requires CleanAt(db, b.items[k].source, extract) && Productive(extract)
    ensures CleanAt(Built(db, b, extract), b.items[k].source, extract) <==>
            !FateAt(db, b.items, extract, b.n, b.now, k).Replayed?
  {
    var fin, s, f := Built(db, b, extract), b.items[k].source, FateAt(db, b.items, extract, b.n, b.now, k);
    ListedRecord(db, b, extract, k);
    hide LegalBuild, Built, FateAt, Bare, Holds, SameDocs;
    if f.Touched? || f.Failed? {
      KeptOutcome(db, b, extract, k);
      if s in db.sources { SameDocsIff(db, fin, s, extract(db.sources[s].content)); }
    } else {
      ChangedOutcome(db, b, extract, k);
      if f.Replayed? {
        BareHoldsNothing(fin, s, extract(b.items[k].text));
      } else {
        ListedHolds(fin, s, extract(b.items[k].text), Ids(b, extract, k));
      }
    }
  }

  lemma ListedHolds(db: Db, s: SourceId, drafts: seq<Draft>, ids: seq<ArtifactId>)
    requires ListsDocs(db, s, drafts, ids)
    ensures Holds(db, s, drafts)
  {}

  /** A vanished source whose artifacts a partial rename took out of the sweep. */
  ghost predicate LeavesBehind(db: Db, b: Build, extract: Extractor, s: SourceId)
    requires LegalBuild(db, b, extract)
  {
    s in VanishedOf(db, b, extract) && exists a :: IsDoc(db, s, a) && a in LeftoversOf(db, b, extract)
  }

  lemma UnlistedRecord(db: Db, b: Build, extract: Extractor, s: SourceId)
    requires LegalBuild(db, b, extract) && Unlisted(b, s)
    ensures var fin := Built(db, b, extract);
      && (s in fin.sources <==> s in db.sources)
      && (s in db.sources ==>
            fin.sources[s].content == db.sources[s].content && (IsCode(fin, s) <==> IsCode(db, s)) &&
            (fin.sources[s].isDeleted <==> db.sources[s].isDeleted || s in VanishedOf(db, b, extract)))
      && (s in VanishedOf(db, b, extract) ==> s in db.sources && !db.sources[s].isDeleted)
  {
    BuiltSources(db, b, extract);
    BuildIs(db, b, extract);
    UnlistedSource(db, b.items, extract, b.n, b.now, s);
    CodeIsApart(db, b, extract, s);
    hide LegalBuild, Ready, LegalListing, Processed, ProcessAll, Built, LegalFinalize, Prepared;
  }

  lemma BareIffNothingLeft(db: Db, fin: Db, s: SourceId, left: set<ArtifactId>)
    requires OnlyLeftovers(db, fin, s, left)
    ensures Bare(fin, s) <==> !exists a :: IsDoc(db, s, a) && a in left
  {
    if a :| IsDoc(db, s, a) && a in left { assert IsDoc(fin, s, a); }
  }

  /** A source nobody listed ends clean unless it leaves artifacts behind. */
  lemma CleanUnlistedIff(db: Db, b: Build, extract: Extractor, s: SourceId)
    requires LegalBuild(db, b, extract) && Unlisted(b, s) && CleanAt(db, s, extract) && !IsCode(db, s)
    ensures CleanAt(Built(db, b, extract), s, extract) <==> !LeavesBehind(db, b, extract, s)
  {
    var fin := Built(db, b, extract);
    UnlistedRecord(db, b, extract, s);
    UnlistedOutcome(db, b, extract, s);
    if s in VanishedOf(db, b, extract) {
      BareIffNothingLeft(db, fin, s, LeftoversOf(db, b, extract));
    } else if s in db.sources {
      SameDocsIff(db, fin, s, extract(db.sources[s].content));
    }
    hide LegalBuild, Built, Bare, Holds, SameDocs, VanishedOf, LeftoversOf, IsDoc;
  }

  /** Neither replayed from the cache, nor leaving artifacts behind unlisted. */
  ghost predicate StaysClean(db: Db, b: Build, extract: Extractor, s: SourceId)
    requires LegalBuild(db, b, extract)
  {
    && (forall k :: 0 <= k < |b.items| && b.items[k].source == s ==> !FateAt(db, b.items, extract, b.n, b.now, k).Replayed?)
    && (Unlisted(b, s) && !IsCode(db, s) ==> !LeavesBehind(db, b, extract, s))
  }

  lemma CleanAtAfterIff(db: Db, b: Build, extract: Extractor, s: SourceId)
    requires LegalBuild(db, b, extract) && Clean(db, extract) && Productive(extract)
    ensures CleanAt(Built(db, b, extract), s, extract) <==> StaysClean(db, b, extract, s)
  {
    assert CleanAt(db, s, extract);
    if k :| 0 <= k < |b.items| && b.items[k].source == s {
      hide Clean, CleanAt, Built, StaysClean, LegalBuild, Unlisted, Productive;
      ListedStaysClean(db, b, extract, k);
      CleanListedIff(db, b, extract, k);
    } else if s in b.code.sources || IsCode(db, s) {
      CodeStaysOut(db, b, extract, s);
      hide LegalBuild, Built, FateAt, LeavesBehind;
    } else {
      assert Unlisted(b, s);
      hide Clean, CleanAt, Built, StaysClean, LegalBuild, Unlisted, Productive;
      UnlistedStaysClean(db, b, extract, s);
      CleanUnlistedIff(db, b, extract, s);
    }
  }

  /** A code source stays one, and no document theorem speaks of it. */
  lemma CodeStaysOut(db: Db, b: Build, extract: Extractor, s: SourceId)
    requires LegalBuild(db, b, extract) && (s in b.code.sources || IsCode(db, s))
    ensures s in Built(db, b, extract).sources ==> IsCode(Built(db, b, extract), s)
    ensures forall k :: 0 <= k < |b.items| ==> b.items[k].source != s
    ensures Unlisted(b, s) ==> IsCode(db, s)
  {
    BuildIs(db, b, extract);
    hide *;
    NotAnItem(db, b, extract, s);
    CodeAfterListing(db, b, extract, s);
    BuiltSources(db, b, extract);
    MarkedIsCode(Processed(db, b, extract).work, Built(db, b, extract), VanishedOf(db, b, extract), s);
  }

  lemma NotAnItem(db: Db, b: Build, extract: Extractor, s: SourceId)
    requires Ready(db, b, extract) && (s in b.code.sources || IsCode(db, s))
    ensures forall k :: 0 <= k < |b.items| ==> b.items[k].source != s
    ensures Unlisted(b, s) ==> IsCode(db, s)
  {
    forall k | 0 <= k < |b.items| ensures b.items[k].source != s { ItemsAreApart(db, b, extract, k); }
    hide Ready;
  }

  lemma MarkedIsCode(w: Db, fin: Db, gone: set<SourceId>, s: SourceId)
    requires fin.sources == MarkDeleted(w.sources, gone) && s in w.sources && IsCode(w, s)
    ensures s in fin.sources && IsCode(fin, s)
  {}

  lemma CodeAfterListing(db: Db, b: Build, extract: Extractor, s: SourceId)
    requires Ready(db, b, extract) && (s in b.code.sources || IsCode(db, s))
    requires forall k :: 0 <= k < |b.items| ==> b.items[k].source != s
    ensures var w := Processed(db, b, extract).work; s in w.sources && IsCode(w, s)
  {
    if s !in b.code.sources {
      UnlistedSource(db, b.items, extract, b.n, b.now, s);
      CodeIsApart(db, b, extract, s);
      hide ProcessAll, Processed, LegalTree, LegalListing, Prepared;
    } else {
      assert KeptApart(db, b.items, b.code);
      hide ProcessAll, LegalListing, Prepared, Engine.LegalCommit;
    }
  }

  lemma ListedStaysClean(db: Db, b: Build, extract: Extractor, k: nat)
    requires LegalBuild(db, b, extract) && k < |b.items|
    ensures StaysClean(db, b, extract, b.items[k].source) <==> !FateAt(db, b.items, extract, b.n, b.now, k).Replayed?
  {
    hide LegalBuild, FateAt, LeavesBehind, EnoughIds, Unlisted;
    OnlyItem(db, b, extract, k);
  }

  lemma OnlyItem(db: Db, b: Build, extract: Extractor, k: nat)
    requires LegalBuild(db, b, extract) && k < |b.items|
    ensures EnoughIds(b.items, extract) && !Unlisted(b, b.items[k].source)
    ensures forall j :: 0 <= j < |b.items| && b.items[j].source == b.items[k].source ==> j == k
  {
    hide LegalFinalize, Prepared, Processed;
  }

  lemma UnlistedStaysClean(db: Db, b: Build, extract: Extractor, s: SourceId)
    requires LegalBuild(db, b, extract) && Unlisted(b, s) && !IsCode(db, s)
    ensures StaysClean(db, b, extract, s) <==> !LeavesBehind(db, b, extract, s)
  {
    hide LegalBuild, FateAt, LeavesBehind;
  }

  /** From a clean registry, a completed build leaves a clean one exactly when no
      changed text came from the cache and no partial rename left artifacts behind. */
  lemma CleanAfterIff(db: Db, b: Build, extract: Extractor)
    requires LegalBuild(db, b, extract) && Clean(db, extract) && Productive(extract)
    ensures Clean(Built(db, b, extract), extract) <==> (forall s :: StaysClean(db, b, extract, s))
  {
    forall s { CleanAtAfterIff(db, b, extract, s); }
    hide CleanAt, StaysClean, LegalBuild, Built;
    var fin := Built(db, b, extract);
    assert Clean(fin, extract) <==> forall s :: CleanAt(fin, s, extract);
  }

  // ------------------------------------------------------- up to date

  /** What a build from scratch over the same listing would leave live. */
  ghost predicate UpToDate(db: Db, b: Build, extract: Extractor) {
    && (forall k :: 0 <= k < |b.items| ==> Holds(db, b.items[k].source, extract(b.items[k].text)))
    && (forall s :: s in db.sources && Unlisted(b, s) && !IsCode(db, s) ==> Bare(db, s))
  }

  /** What must not happen to an item: its source being deleted and unchanged, a
      failure of an item whose extraction is not live already, a cache hit. */
  ghost predicate ItemFine(db: Db, b: Build, extract: Extractor, k: nat)
    requires LegalBuild(db, b, extract) && k < |b.items|
  {
    match FateAt(db, b.items, extract, b.n, b.now, k)
    case Touched => b.items[k].source in db.sources && !db.sources[b.items[k].source].isDeleted
    case Failed => Holds(db, b.items[k].source, extract(b.items[k].text))
    case Replayed => false
    case Written => true
  }

  /** ... and to a source nobody listed: leftovers of a partial rename, or a recording
      by another writer that keeps a source with artifacts out of the sweep. */
  ghost predicate SourceFine(db: Db, b: Build, extract: Extractor, s: SourceId)
    requires LegalBuild(db, b, extract)
  {
    IsCode(db, s) || DocFine(db, b, extract, s)
  }

  ghost predicate DocFine(db: Db, b: Build, extract: Extractor, s: SourceId)
    requires LegalBuild(db, b, extract)
  {
    && !LeavesBehind(db, b, extract, s)
    && (s in db.sources && !db.sources[s].isDeleted && s !in VanishedOf(db, b, extract) ==> Bare(db, s))
  }

  lemma ItemUpToDateIff(db: Db, b: Build, extract: Extractor, k: nat)
    requires LegalBuild(db, b, extract) && k < |b.items|
    requires CleanAt(db, b.items[k].source, extract) && Productive(extract)
    ensures Holds(Built(db, b, extract), b.items[k].source, extract(b.items[k].text)) <==> ItemFine(db, b, extract, k)
  {
    var fin, i, f := Built(db, b, extract), b.items[k], FateAt(db, b.items, extract, b.n, b.now, k);
    ListedRecord(db, b, extract, k);
    hide LegalBuild, Built, FateAt, Bare, Holds, SameDocs;
    if f.Touched? || f.Failed? {
      KeptOutcome(db, b, extract, k);
      SameDocsIff(db, fin, i.source, extract(i.text));
      if f.Touched? && db.sources[i.source].isDeleted { BareHoldsNothing(db, i.source, extract(i.text)); }
    } else {
      ChangedOutcome(db, b, extract, k);
      if f.Replayed? {
        BareHoldsNothing(fin, i.source, extract(i.text));
      } else {
        ListedHolds(fin, i.source, extract(i.text), Ids(b, extract, k));
      }
    }
  }

  lemma SourceUpToDateIff(db: Db, b: Build, extract: Extractor, s: SourceId)
    requires LegalBuild(db, b, extract) && Unlisted(b, s) && CleanAt(db, s, extract)
    ensures (s in Built(db, b, extract).sources && !IsCode(Built(db, b, extract), s) ==> Bare(Built(db, b, extract), s)) <==>
            SourceFine(db, b, extract, s)
  {
    if IsCode(db, s) {
      CodeStaysOut(db, b, extract, s);
      hide LegalBuild, Built, DocFine;
    } else {
      DocUpToDateIff(db, b, extract, s);
      UnlistedRecord(db, b, extract, s);
      hide LegalBuild, Built, DocFine, Bare, VanishedOf;
    }
  }

  lemma DocUpToDateIff(db: Db, b: Build, extract: Extractor, s: SourceId)
    requires LegalBuild(db, b, extract) && Unlisted(b, s) && CleanAt(db, s, extract) && !IsCode(db, s)
    ensures (s in Built(db, b, extract).sources ==> Bare(Built(db, b, extract), s)) <==> DocFine(db, b, extract, s)
  {
    var fin := Built(db, b, extract);
    UnlistedRecord(db, b, extract, s);
    UnlistedOutcome(db, b, extract, s);
    if s in VanishedOf(db, b, extract) {
      BareIffNothingLeft(db, fin, s, LeftoversOf(db, b, extract));
    } else if s in db.sources {
      SameDocsIff(db, fin, s, extract(db.sources[s].content));
    }
    hide LegalBuild, Built, Bare, Holds, SameDocs, VanishedOf, LeftoversOf, IsDoc;
  }

  /** From a clean registry, a completed build leaves exactly what building from
      scratch would, if and only if every item and every other source is fine. */
  lemma UpToDateIff(db: Db, b: Build, extract: Extractor)
    requires LegalBuild(db, b, extract) && Clean(db, extract) && Productive(extract)
    ensures UpToDate(Built(db, b, extract), b, extract) <==>
      (forall k :: 0 <= k < |b.items| ==> ItemFine(db, b, extract, k)) &&
      (forall s :: Unlisted(b, s) ==> SourceFine(db, b, extract, s))
  {
    hide CleanAt, LegalBuild, Built, Holds, Bare, ItemFine, SourceFine;
    forall k | 0 <= k < |b.items| { ItemUpToDateIff(db, b, extract, k); }
    forall s | Unlisted(b, s) { SourceUpToDateIff(db, b, extract, s); }
  }

  // ------------------------------------------------------- histories

  /** A build with no failure, no cache hit, no deleted source back, no leftovers and no
      other writer. */
  ghost predicate Faultless(db: Db, b: Build, extract: Extractor)
    requires LegalBuild(db, b, extract)
  {
    && (forall k :: 0 <= k < |b.items| ==> FaultlessItem(db, b, extract, k))
    && (forall s :: Unlisted(b, s) ==> SourceFine(db, b, extract, s))
  }

  ghost predicate FaultlessItem(db: Db, b: Build, extract: Extractor, k: nat)
    requires LegalBuild(db, b, extract) && k < |b.items|
  {
    match FateAt(db, b.items, extract, b.n, b.now, k)
    case Touched => b.items[k].source in db.sources && !db.sources[b.items[k].source].isDeleted
    case Failed => false
    case Replayed => false
    case Written => true
  }

  lemma FaultlessBuild(db: Db, b: Build, extract: Extractor)
    requires LegalBuild(db, b, extract) && Clean(db, extract) && Productive(extract) && Faultless(db, b, extract)
    ensures Clean(Built(db, b, extract), extract) && UpToDate(Built(db, b, extract), b, extract)
  {
    UpToDateIff(db, b, extract);
    CleanAfterIff(db, b, extract);
    FaultlessIsFine(db, b, extract);
    hide *;
  }

  lemma ListingHasIds(db: Db, items: seq<Item>, extract: Extractor)
    requires LegalListing(db, items, extract)
    ensures EnoughIds(items, extract)
  {}

  lemma FaultlessIsFine(db: Db, b: Build, extract: Extractor)
    requires LegalBuild(db, b, extract) && Faultless(db, b, extract)
    ensures forall k :: 0 <= k < |b.items| ==> ItemFine(db, b, extract, k)
    ensures forall s :: Unlisted(b, s) ==> SourceFine(db, b, extract, s)
    ensures forall s :: StaysClean(db, b, extract, s)
  {
    hide *;
    BuildIs(db, b, extract);
    ListingHasIds(db, b.items, extract);
    forall k | 0 <= k < |b.items| { FaultlessItemIsFine(db, b, extract, k); }
    forall s { FaultlessStaysClean(db, b, extract, s); }
  }

  lemma FaultlessItemIsFine(db: Db, b: Build, extract: Extractor, k: nat)
    requires LegalBuild(db, b, extract) && Faultless(db, b, extract) && k < |b.items| && EnoughIds(b.items, extract)
    ensures !FateAt(db, b.items, extract, b.n, b.now, k).Replayed? && ItemFine(db, b, extract, k)
  {
    hide LegalBuild, FateAt, Holds, EnoughIds, SourceFine, Unlisted;
    assert FaultlessItem(db, b, extract, k);
  }

  lemma FaultlessStaysClean(db: Db, b: Build, extract: Extractor, s: SourceId)
    requires LegalBuild(db, b, extract) && Faultless(db, b, extract) && EnoughIds(b.items, extract)
    requires forall k :: 0 <= k < |b.items| ==> !FateAt(db, b.items, extract, b.n, b.now, k).Replayed?
    ensures StaysClean(db, b, extract, s) && (Unlisted(b, s) ==> SourceFine(db, b, extract, s))
  {
    hide LegalBuild, LeavesBehind, Bare, VanishedOf, FateAt, FaultlessItem, EnoughIds;
  }

  /** Completed builds, one after the other. */
  ghost predicate History(db: Db, bs: seq<Build>, extract: Extractor)
    decreases |bs|, 0
  {
    bs != [] ==>
      History(db, bs[..|bs| - 1], extract) &&
      LegalBuild(After(db, bs[..|bs| - 1], extract), bs[|bs| - 1], extract) &&
      Faultless(After(db, bs[..|bs| - 1], extract), bs[|bs| - 1], extract)
  }

  function After(db: Db, bs: seq<Build>, extract: Extractor): Db
    requires History(db, bs, extract)
    decreases |bs|, 1
  {
    if bs == [] then db else Built(After(db, bs[..|bs| - 1], extract), bs[|bs| - 1], extract)
  }

  /** Incremental equals from scratch: over any sequence of faultless builds, after
      each of them every listed source has exactly the artifacts of its current text,
      once each, and every other source has none. */
  lemma {:induction false} HistoryUpToDate(db: Db, bs: seq<Build>, extract: Extractor)
    requires Clean(db, extract) && Productive(extract) && History(db, bs, extract)
    ensures Clean(After(db, bs, extract), extract)
    ensures bs != [] ==> UpToDate(After(db, bs, extract), bs[|bs| - 1], extract)
  {
    if bs != [] {
      HistoryUpToDate(db, bs[..|bs| - 1], extract);
      FaultlessBuild(After(db, bs[..|bs| - 1], extract), bs[|bs| - 1], extract);
    }
  }

  lemma EmptyIsClean(extract: Extractor)
    ensures Clean(Db(map[], map[], map[], map[]), extract)
  {}

  // ------------------------------------------------------- a crash between commits and finalize

  lemma {:induction false} Contains(ids: seq<ArtifactId>, more: seq<ArtifactId>)
    requires forall a :: a in ids ==> a in more
    requires forall j, k :: 0 <= j < k < |ids| ==> ids[j] != ids[k]
    ensures |ids| <= |more|
  {
    if ids != [] {
      var last := ids[|ids| - 1];
      assert last in ids;
      var k :| 0 <= k < |more| && more[k] == last;
      var less := more[..k] + more[k + 1..];
      forall a | a in ids[..|ids| - 1] ensures a in less {
        var j :| 0 <= j < |ids| - 1 && ids[j] == a;
        assert a in ids && a != last;
        var m :| 0 <= m < |more| && more[m] == a;
        assert a == if m < k then less[m] else less[m - 1];
      }
      Contains(ids[..|ids| - 1], less);
    }
  }

  /** The registry a build leaves that crashes after its last commit. */
  function Crashed(db: Db, b: Build, extract: Extractor): Db
    requires EnoughIds(b.items, extract)
  {
    Processed(db, b, extract).saved
  }

  /** Only touches are lost with the open transaction. */
  lemma CrashKeepsWork(db: Db, b: Build, extract: Extractor, s: SourceId)
    requires Ready(db, b, extract)
    ensures var c, w := Crashed(db, b, extract), Processed(db, b, extract).work;
      && c.artifacts == w.artifacts && c.edges == w.edges && c.generation == w.generation
      && (s in c.sources <==> s in w.sources) && (s in w.sources ==> SameSource(w.sources[s], c.sources[s]))
  {
    WorkIsSavedButTouches(db, b.items, extract, b.n, b.now);
    assert LegalTree(db, ProcessAll(db, b.items, extract, b.n, b.now).work, b.items, b.code, b.n);
    hide ProcessAll, Ready, LegalTree, SameButTouches;
    GrownKeepsWork(db, ProcessAll(db, b.items, extract, b.n, b.now), b.items, b.code, b.n, s);
  }

  lemma GrownKeepsWork(db: Db, p: Session, items: seq<Item>, t: CodeTree, n: int, s: SourceId)
    requires SameButTouches(p.saved, p.work) && LegalTree(db, p.work, items, t, n)
    ensures var c, w := Grown(p, t).saved, Grown(p, t).work;
      && c.artifacts == w.artifacts && c.edges == w.edges && c.generation == w.generation
      && (s in c.sources <==> s in w.sources) && (s in w.sources ==> SameSource(w.sources[s], c.sources[s]))
  {
    hide Engine.LegalCommit, KeptApart;
  }

  lemma TooManyDocs(c: Db, fin: Db, s: SourceId, ids: seq<ArtifactId>, a: ArtifactId, drafts: seq<Draft>)
    requires SameDocs(c, fin, s) && |ids| == |drafts|
    requires IsDoc(c, s, a) && forall x :: x in ids ==> IsDoc(c, s, x)
    requires a !in ids && forall p, q :: 0 <= p < q < |ids| ==> ids[p] != ids[q]
    ensures !Holds(fin, s, drafts)
  {
    var more := ids + [a];
    forall p, q | 0 <= p < q < |more| ensures more[p] != more[q] {
      assert ids[p] in ids;
    }
    forall l ensures !ListsDocs(fin, s, drafts, l) {
      if forall x :: x in more ==> x in l {
        Contains(more, l);
      } else {
        var x :| x in more && x !in l;
        assert IsDoc(fin, s, x);
      }
    }
  }

  /** What the crash leaves of the k-th item's source: its record, and its artifacts. */
  lemma CrashedRecord(db: Db, b: Build, extract: Extractor, k: nat)
    requires Ready(db, b, extract) && k < |b.items|
    ensures var c, i, f := Crashed(db, b, extract), b.items[k], FateAt(db, b.items, extract, b.n, b.now, k);
      Unchanged(c, i) <==> !f.Failed?
  {
    var s := b.items[k].source;
    CrashKeepsWork(db, b, extract, s);
    ListedSource(db, b.items, extract, b.n, b.now, k);
    ItemsAreApart(db, b, extract, k);
    CodeIsApart(db, b, extract, s);
    hide Ready, LegalListing, Processed, ProcessAll, Crashed, FateAt, Prepared;
  }

  lemma CrashedWritten(db: Db, b: Build, extract: Extractor, k: nat)
    requires Ready(db, b, extract) && k < |b.items| && FateAt(db, b.items, extract, b.n, b.now, k).Written?
    ensures Holds(Crashed(db, b, extract), b.items[k].source, extract(b.items[k].text)) <==> Bare(db, b.items[k].source)
  {
    var c, w, s, ids := Crashed(db, b, extract), Processed(db, b, extract).work, b.items[k].source, Ids(b, extract, k);
    assert |ids| == |extract(b.items[k].text)|;
    CrashKeepsWork(db, b, extract, s);
    WrittenDocs(db, b, extract, k);
    forall a { OldDocStays(db, b, extract, s, a); }
    hide *;
    BothGenerations(db, w, c, s, ids, extract(b.items[k].text));
  }

  lemma OldDocStays(db: Db, b: Build, extract: Extractor, s: SourceId, a: ArtifactId)
    requires Ready(db, b, extract)
    ensures IsDoc(db, s, a) <==> a in db.artifacts && IsDoc(Processed(db, b, extract).work, s, a)
  {
    ProcessedDoc(db, b, extract, s, a);
    hide Ready, Processed;
  }

  lemma BothGenerations(db: Db, w: Db, c: Db, s: SourceId, ids: seq<ArtifactId>, drafts: seq<Draft>)
    requires |ids| == |drafts| && c.artifacts == w.artifacts
    requires forall a :: a in ids <==> IsDoc(w, s, a) && a !in db.artifacts
    requires forall a :: IsDoc(db, s, a) <==> a in db.artifacts && IsDoc(w, s, a)
    requires forall p :: 0 <= p < |ids| ==> ids[p] in w.artifacts && RowHolds(w.artifacts[ids[p]], drafts[p])
    requires forall p, q :: 0 <= p < q < |ids| ==> ids[p] != ids[q]
    ensures Holds(c, s, drafts) <==> Bare(db, s)
  {
    forall a ensures IsDoc(c, s, a) <==> IsDoc(w, s, a) {}
    if Bare(db, s) {
      assert ListsDocs(c, s, drafts, ids);
    } else {
      var a :| IsDoc(db, s, a);
      TooManyDocs(c, c, s, ids, a, drafts);
    }
  }

  lemma CrashedUnwritten(db: Db, b: Build, extract: Extractor, k: nat)
    requires Ready(db, b, extract) && k < |b.items| && !FateAt(db, b.items, extract, b.n, b.now, k).Written?
    ensures SameDocs(db, Crashed(db, b, extract), b.items[k].source)
  {
    var c, s := Crashed(db, b, extract), b.items[k].source;
    ItemsAreApart(db, b, extract, k);
    CrashKeepsWork(db, b, extract, s);
    forall j | 0 <= j < |b.items| && b.items[j].source == s ensures j == k {}
    hide Ready, Processed, Crashed, FateAt, LegalListing;
    forall a
      ensures IsDoc(c, s, a) <==> IsDoc(db, s, a)
      ensures IsDoc(c, s, a) ==> SameContent(db.artifacts[a], c.artifacts[a])
    {
      UnwrittenDoc(db, b, extract, s, a);
    }
  }

  /** What the next build makes of a source whose build crashed before the finalize, when
      it lists the same text again.  Unless the item had failed, the new hash is on record
      and the next build only touches the source: written, it holds the extraction of its
      text exactly when it had no artifact before, and otherwise serves both generations;
      touched or replayed from the cache, exactly when it held it already.  A failed item is
      processed again. */
  lemma CrashRepairedIff(db: Db, b: Build, b': Build, extract: Extractor, k: nat, j: nat)
    requires Ready(db, b, extract) && k < |b.items|
    requires LegalBuild(Crashed(db, b, extract), b', extract) && j < |b'.items|
    requires b'.items[j].source == b.items[k].source && b'.items[j].text == b.items[k].text
    ensures var c, s, drafts := Crashed(db, b, extract), b.items[k].source, extract(b.items[k].text);
      var f, g := FateAt(db, b.items, extract, b.n, b.now, k), FateAt(c, b'.items, extract, b'.n, b'.now, j);
      var fin := Built(c, b', extract);
      && (g.Touched? <==> !f.Failed?)
      && (f.Written? ==> (Holds(fin, s, drafts) <==> Bare(db, s)))
      && (f.Touched? || f.Replayed? || g.Failed? ==> (Holds(fin, s, drafts) <==> Holds(db, s, drafts)))
      && (g.Written? ==> Holds(fin, s, drafts))
      && (g.Replayed? ==> Bare(fin, s))
  {
    var c, s, drafts := Crashed(db, b, extract), b.items[k].source, extract(b.items[k].text);
    var f, g := FateAt(db, b.items, extract, b.n, b.now, k), FateAt(c, b'.items, extract, b'.n, b'.now, j);
    CrashedRecord(db, b, extract, k);
    TouchedIsUnchanged(c, b', extract, j);
    assert Unchanged(c, b'.items[j]) <==> Unchanged(c, b.items[k]);
    hide *;
    if g.Touched? || g.Failed? {
      KeptOutcome(c, b', extract, j);
      SameDocsIff(c, Built(c, b', extract), s, drafts);
    } else {
      ChangedOutcome(c, b', extract, j);
      if g.Written? { ListedHolds(Built(c, b', extract), s, drafts, Ids(b', extract, j)); }
    }
    if f.Written? {
      CrashedWritten(db, b, extract, k);
    } else {
      CrashedUnwritten(db, b, extract, k);
      SameDocsIff(db, c, s, drafts);
    }
  }

  lemma TouchedIsUnchanged(db: Db, b: Build, extract: Extractor, k: nat)
    requires LegalBuild(db, b, extract) && k < |b.items|
    ensures FateAt(db, b.items, extract, b.n, b.now, k).Touched? <==> Unchanged(db, b.items[k])
  {
    ListedSource(db, b.items, extract, b.n, b.now, k);
  }
}
