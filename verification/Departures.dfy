/** Inputs on which the build departs from what its comments promise. */
module Departures {
  import opened Prelude
  import opened Registry
  import opened Invalidation
  import opened Documents
  import opened BuildMachine
  import opened CodeTrees
  import opened Incremental
  import opened FromScratch

  // ------------------------------------------------------- documents

  /** A document moved without a change of text loses every artifact: its new source
      replays the cache and inserts nothing, its old source is swept. */
  lemma MovedTextIsLost(db: Db, b: Build, extract: Extractor, was: SourceId, k: nat)
    requires LegalBuild(db, b, extract) && k < |b.items| && Unlisted(b, was)
    requires was in VanishedOf(db, b, extract) && !LeavesBehind(db, b, extract, was)
    requires !Unchanged(db, b.items[k]) && !b.items[k].fails && Cached(b.items[k]) && b.items[k].text in db.generation
    ensures Bare(Built(db, b, extract), was) && Bare(Built(db, b, extract), b.items[k].source)
  {
    BuildIs(db, b, extract);
    ReplayedIff(db, b.items, extract, b.n, b.now, k);
    hide LegalBuild, Built, FateAt, Bare, VanishedOf, LeftoversOf, Processed;
    ChangedOutcome(db, b, extract, k);
    UnlistedOutcome(db, b, extract, was);
    BareIffNothingLeft(db, Built(db, b, extract), was, LeftoversOf(db, b, extract));
  }

  /** What has become of the touch of an earlier item: still in the open transaction,
      committed with a later item, or rolled back with one that failed. */
  datatype Standing = Open | Kept | Lost

  function StandingOf(db: Db, items: seq<Item>, extract: Extractor, n: int, now: int, k: nat): Standing
    requires EnoughIds(items, extract) && k < |items|
  {
    if k == |items| - 1 then Open
    else
      var before := StandingOf(db, items[..|items| - 1], extract, n, now, k);
      if !before.Open? then before
      else
        match FateAt(db, items, extract, n, now, |items| - 1)
        case Touched => Open
        case Failed => Lost
        case _ => Kept
  }

  /** Item `m` is the first after item `k` that was not just touched. */
  ghost predicate FirstAfter(db: Db, items: seq<Item>, extract: Extractor, n: int, now: int, k: nat, m: nat)
    requires EnoughIds(items, extract)
  {
    k < m < |items| && !FateAt(db, items, extract, n, now, m).Touched? &&
    forall j :: k < j < m ==> FateAt(db, items, extract, n, now, j).Touched?
  }

  /** It failed. */
  ghost predicate FailsNext(db: Db, items: seq<Item>, extract: Extractor, n: int, now: int, k: nat)
    requires EnoughIds(items, extract)
  {
    exists m :: FirstAfter(db, items, extract, n, now, k, m) && FateAt(db, items, extract, n, now, m).Failed?
  }

  lemma FateBefore(db: Db, items: seq<Item>, extract: Extractor, n: int, now: int, j: nat)
    requires EnoughIds(items, extract) && j < |items| - 1
    ensures FateAt(db, items[..|items| - 1], extract, n, now, j) == FateAt(db, items, extract, n, now, j)
  {
    assert items[..|items| - 1][..j] == items[..j];
  }

  /** Open: only touches since.  Otherwise the first item that was not one decided. */
  ghost predicate Decided(db: Db, items: seq<Item>, extract: Extractor, n: int, now: int, k: nat, m: nat)
    requires EnoughIds(items, extract) && k < |items|
  {
    match StandingOf(db, items, extract, n, now, k)
    case Open => forall j :: k < j < |items| ==> FateAt(db, items, extract, n, now, j).Touched?
    case Lost => FirstAfter(db, items, extract, n, now, k, m) && FateAt(db, items, extract, n, now, m).Failed?
    case Kept => FirstAfter(db, items, extract, n, now, k, m) && !FateAt(db, items, extract, n, now, m).Failed?
  }

  lemma {:induction false} StandingIsDecided(db: Db, items: seq<Item>, extract: Extractor, n: int, now: int, k: nat) returns (m: nat)
    requires EnoughIds(items, extract) && k < |items|
    ensures Decided(db, items, extract, n, now, k, m)
  {
    m := |items| - 1;
    if k < |items| - 1 {
      var init := items[..|items| - 1];
      forall j | 0 <= j < |init| { FateBefore(db, items, extract, n, now, j); }
      var before := StandingIsDecided(db, init, extract, n, now, k);
      hide FateAt, EnoughIds;
      if !StandingOf(db, init, extract, n, now, k).Open? { m := before; }
    }
  }

  lemma LostIff(db: Db, items: seq<Item>, extract: Extractor, n: int, now: int, k: nat)
    requires EnoughIds(items, extract) && k < |items|
    ensures StandingOf(db, items, extract, n, now, k).Lost? <==> FailsNext(db, items, extract, n, now, k)
  {
    var m := StandingIsDecided(db, items, extract, n, now, k);
    hide StandingOf, FateAt, EnoughIds;
    if FailsNext(db, items, extract, n, now, k) {
      var p: nat :| FirstAfter(db, items, extract, n, now, k, p) && FateAt(db, items, extract, n, now, p).Failed?;
      assert !StandingOf(db, items, extract, n, now, k).Open?;
      FirstIsOne(db, items, extract, n, now, k, m, p);
    }
  }

  lemma FirstIsOne(db: Db, items: seq<Item>, extract: Extractor, n: int, now: int, k: nat, m: nat, p: nat)
    requires EnoughIds(items, extract)
    requires FirstAfter(db, items, extract, n, now, k, m) && FirstAfter(db, items, extract, n, now, k, p)
    ensures m == p
  {
    hide FateAt, EnoughIds;
  }

  /** The row a touch writes. */
  function TouchedRow(db: Db, i: Item, now: int): Source
    requires i.source in db.sources
  {
    db.sources[i.source].(lastSeenAt := Some(now), acl := i.acl)
  }

  /** What processing another item does to a row. */
  lemma OtherRow(s: Session, i: Item, extract: Extractor, n: int, now: int, x: SourceId)
    requires |extract(i.text)| <= |i.ids| && x != i.source && x in s.work.sources && x in s.saved.sources
    ensures var t, f := Process(s, i, extract, n, now), FateOf(s, i);
      && x in t.work.sources && x in t.saved.sources
      && t.work.sources[x] == (if f.Failed? then s.saved.sources[x] else s.work.sources[x])
      && t.saved.sources[x] == (if f.Touched? || f.Failed? then s.saved.sources[x] else s.work.sources[x])
  {
    hide RowsFor, Upserted;
  }

  lemma {:induction false} TouchStanding(db: Db, items: seq<Item>, extract: Extractor, n: int, now: int, k: nat)
    requires LegalListing(db, items, extract) && k < |items| && Unchanged(db, items[k])
    ensures var s, x := ProcessAll(db, items, extract, n, now), items[k].source;
      var was, touched, st := db.sources[x], TouchedRow(db, items[k], now), StandingOf(db, items, extract, n, now, k);
      && x in s.work.sources && x in s.saved.sources
      && s.work.sources[x] == (if st.Lost? then was else touched)
      && s.saved.sources[x] == (if st.Kept? then touched else was)
  {
    var init, last := items[..|items| - 1], items[|items| - 1];
    Prefix(db, items, extract);
    var s := ProcessAll(db, init, extract, n, now);
    if k == |items| - 1 {
      forall j | 0 <= j < |init| ensures init[j].source != last.source {}
      UnlistedStays(db, init, extract, n, now, last.source);
      hide RowsFor, Upserted, LegalListing;
    } else {
      TouchStanding(db, init, extract, n, now, k);
      hide Process, LegalListing;
      OtherRow(s, last, extract, n, now, items[k].source);
    }
  }

  /** The touch of an unchanged source, with its access change, is lost exactly when the
      first later item that is not just touched fails: the roll back takes it along.  The
      source counts as seen all the same. */
  lemma FailureLosesTouch(db: Db, items: seq<Item>, extract: Extractor, n: int, now: int, k: nat)
    requires LegalListing(db, items, extract) && k < |items| && FateAt(db, items, extract, n, now, k).Touched?
    ensures var s, i := ProcessAll(db, items, extract, n, now), items[k];
      && i.source in db.sources && i.source in s.work.sources && i.source in s.seen
      && s.work.sources[i.source] ==
         if FailsNext(db, items, extract, n, now, k) then db.sources[i.source] else TouchedRow(db, i, now)
  {
    ListedSource(db, items, extract, n, now, k);
    TouchStanding(db, items, extract, n, now, k);
    LostIff(db, items, extract, n, now, k);
    hide FailsNext, StandingOf, ProcessAll, FateAt, LegalListing;
  }

  function Doc(s: SourceId, text: string, acl: Acl, fails: bool): Item {
    Item(s, GithubDoc, "page.md", None, text, acl, fails, [])
  }

  function OpenPage(): Db {
    Db(map[Src(1) := Source(GithubDoc, "page.md", None, "text", None, 0, false, ["team"])], map[], map[], map[])
  }

  function ClosedThenFailing(): seq<Item> {
    [Doc(Src(1), "text", [], false), Doc(Src(2), "new", [], true)]
  }

  function Nothing(): Extractor { (t: string) => [] }

  lemma RevocationFates(n: int, now: int)
    requires LegalListing(OpenPage(), ClosedThenFailing(), Nothing())
    ensures FateAt(OpenPage(), ClosedThenFailing(), Nothing(), n, now, 0).Touched?
    ensures FateAt(OpenPage(), ClosedThenFailing(), Nothing(), n, now, 1).Failed?
  {
    hide *;
    TwoPages();
    ListingHasIds(OpenPage(), ClosedThenFailing(), Nothing());
    FateIs(OpenPage(), ClosedThenFailing(), Nothing(), n, now, 0);
    FateIs(OpenPage(), ClosedThenFailing(), Nothing(), n, now, 1);
  }

  lemma TwoPages()
    ensures |ClosedThenFailing()| == 2
    ensures Unchanged(OpenPage(), ClosedThenFailing()[0])
    ensures !Unchanged(OpenPage(), ClosedThenFailing()[1]) && ClosedThenFailing()[1].fails
  {}

  lemma FateIs(db: Db, items: seq<Item>, extract: Extractor, n: int, now: int, k: nat)
    requires LegalListing(db, items, extract) && k < |items|
    ensures var f := FateAt(db, items, extract, n, now, k);
      (f.Touched? <==> Unchanged(db, items[k])) && (f.Failed? <==> !Unchanged(db, items[k]) && items[k].fails)
  {
    ListedSource(db, items, extract, n, now, k);
    hide ProcessAll, FateAt, LegalListing, Unchanged;
  }

  lemma RevocationIsLegal()
    ensures LegalListing(OpenPage(), ClosedThenFailing(), Nothing())
  {}

  lemma PageIsOpen(n: int, now: int)
    requires LegalListing(OpenPage(), ClosedThenFailing(), Nothing())
    requires FateAt(OpenPage(), ClosedThenFailing(), Nothing(), n, now, 0).Touched?
    requires FateAt(OpenPage(), ClosedThenFailing(), Nothing(), n, now, 1).Failed?
    ensures FailsNext(OpenPage(), ClosedThenFailing(), Nothing(), n, now, 0)
    ensures OpenPage().sources[Src(1)].acl == ["team"] && ClosedThenFailing()[0].source == Src(1) && |ClosedThenFailing()| == 2
  {
    hide FateAt, LegalListing;
    assert FirstAfter(OpenPage(), ClosedThenFailing(), Nothing(), n, now, 0, 1);
  }

  /** A listing on which it happens: access to an unchanged page is taken away from a team,
      and the next page fails. */
  lemma RevocationIsLost(n: int, now: int)
    ensures LegalListing(OpenPage(), ClosedThenFailing(), Nothing())
    ensures FateAt(OpenPage(), ClosedThenFailing(), Nothing(), n, now, 0).Touched? && ClosedThenFailing()[0].acl == []
    ensures var work := ProcessAll(OpenPage(), ClosedThenFailing(), Nothing(), n, now).work;
      Src(1) in work.sources && work.sources[Src(1)].acl == ["team"]
  {
    assert ClosedThenFailing()[0].acl == [];
    hide *;
    RevocationIsLegal();
    RevocationFates(n, now);
    PageIsOpen(n, now);
    FailureLosesTouch(OpenPage(), ClosedThenFailing(), Nothing(), n, now, 0);
  }

  // ------------------------------------------------------- code trees

  /** The listing leaves the files as they were. */
  lemma ListingKeepsFiles(db: Db, b: Build, extract: Extractor, f: Item)
    requires Ready(db, b, extract) && f in FilesOf(b.repos)
    ensures var w := ProcessAll(db, b.items, extract, b.n, b.now).work;
      && (f.source in w.sources <==> f.source in db.sources)
      && (f.source in db.sources ==> w.sources[f.source] == db.sources[f.source])
  {
    UnlistedStays(db, b.items, extract, b.n, b.now, f.source);
    hide ProcessAll, LegalTree, Prepared;
  }

  lemma TreesAre(db: Db, b: Build, extract: Extractor)
    requires Ready(db, b, extract)
    ensures EnoughIds(b.items, extract) && DistinctFiles(FilesOf(b.repos))
    ensures AnyChanged(ProcessAll(db, b.items, extract, b.n, b.now).work, b.repos) <==> AnyChanged(db, b.repos)
    ensures b.code == TreeOf(ProcessAll(db, b.items, extract, b.n, b.now).work, b.repos, b.now)
  {
    forall f | f in FilesOf(b.repos) { ListingKeepsFiles(db, b, extract, f); }
    hide ProcessAll, FilesOf, TreeOf, LegalTree, Prepared, DistinctFiles;
  }

  /** A file of a tree that fails is not among what the build went through. */
  lemma FailedFileIsUnlisted(db: Db, b: Build, extract: Extractor, r: nat, f: Item)
    requires Ready(db, b, extract) && AnyChanged(db, b.repos)
    requires r < |b.repos| && b.repos[r].fails && f in b.repos[r].files
    ensures Unlisted(b, f.source)
  {
    var w := ProcessAll(db, b.items, extract, b.n, b.now).work;
    TreesAre(db, b, extract);
    FileIsThere(b.repos, r, f);
    forall k | 0 <= k < |b.items| ensures b.items[k].source != f.source {}
    hide *;
    TreeWrites(w, b.repos, b.now, f.source);
    forall g | g in FilesOf(Graphified(b.repos)) { FailedFileIsOut(b.repos, r, f, g); }
    IsUnlisted(b, f.source);
  }

  lemma IsUnlisted(b: Build, s: SourceId)
    requires s !in b.code.sources && forall k :: 0 <= k < |b.items| ==> b.items[k].source != s
    ensures Unlisted(b, s)
  {}

  lemma TreeWrites(w: Db, repos: seq<Repo>, now: int, s: SourceId)
    requires AnyChanged(w, repos)
    ensures s in TreeOf(w, repos, now).sources <==> exists g :: g in FilesOf(Graphified(repos)) && g.source == s
  {
    RowsAreOfFiles(w, FilesOf(Graphified(repos)), now, s);
    hide FilesOf, Graphified, FileRows, AnyChanged;
  }

  lemma TreeTouches(w: Db, repos: seq<Repo>, now: int, f: Item)
    requires !AnyChanged(w, repos) && f in FilesOf(repos)
    ensures var t := TreeOf(w, repos, now);
      f.source in t.sources && f.source in w.sources && t.sources[f.source].isDeleted == w.sources[f.source].isDeleted
  {
    RowsAreOfFiles(w, FilesOf(repos), now, f.source);
    hide FilesOf, FileRows;
  }

  /** A code tree that fails takes its files with it.  A file known before the build ends
      deleted exactly when it was already, or some file of some tree had changed, so that the
      trees were written again, and it was last recorded before the build. */
  lemma FailedTreeDeletedIff(db: Db, b: Build, extract: Extractor, r: nat, f: Item)
    requires LegalBuild(db, b, extract)
    requires r < |b.repos| && b.repos[r].fails && f in b.repos[r].files && f.source in db.sources
    ensures var fin, was := Built(db, b, extract), db.sources[f.source];
      && f.source in fin.sources
      && (fin.sources[f.source].isDeleted <==>
          was.isDeleted || (AnyChanged(db, b.repos) && was.LastRecorded() < b.f.pass.startedAt))
  {
    var s := f.source;
    BuildIs(db, b, extract);
    TreesAre(db, b, extract);
    FileIsThere(b.repos, r, f);
    hide *;
    if AnyChanged(db, b.repos) {
      FailedFileIsUnlisted(db, b, extract, r, f);
      UnlistedRecord(db, b, extract, s);
      UnlistedRow(db, b, extract, s);
      NotProcessed(db, b, extract, s);
      VanishedIs(db, b, extract);
      IsVanished(Processed(db, b, extract).work, b.f.pass.seen, b.f.pass.startedAt, s);
    } else {
      ListingKeepsFiles(db, b, extract, f);
      TouchedFileStays(db, b, extract, f);
      BuiltSources(db, b, extract);
      VanishedIs(db, b, extract);
      SeenIsSpared(Processed(db, b, extract).work, Built(db, b, extract), b.f.pass.seen, b.f.pass.startedAt, s);
    }
  }

  lemma TouchedFileStays(db: Db, b: Build, extract: Extractor, f: Item)
    requires Ready(db, b, extract) && !AnyChanged(db, b.repos) && f in FilesOf(b.repos) && f.source in db.sources
    ensures var p := Processed(db, b, extract);
      f.source in p.seen && f.source in p.work.sources && p.work.sources[f.source].isDeleted == db.sources[f.source].isDeleted
  {
    TreesAre(db, b, extract);
    ListingKeepsFiles(db, b, extract, f);
    TreeTouches(ProcessAll(db, b.items, extract, b.n, b.now).work, b.repos, b.now, f);
    hide Ready, ProcessAll, TreeOf, AnyChanged, FilesOf;
  }

  lemma IsVanished(w: Db, seen: set<SourceId>, startedAt: int, s: SourceId)
    requires s in w.sources && s !in seen
    ensures s in Vanished(w, seen, startedAt) <==> !w.sources[s].isDeleted && w.sources[s].LastRecorded() < startedAt
  {}

  lemma SeenIsSpared(w: Db, fin: Db, seen: set<SourceId>, startedAt: int, s: SourceId)
    requires fin.sources == MarkDeleted(w.sources, Vanished(w, seen, startedAt)) && s in seen && s in w.sources
    ensures s in fin.sources && fin.sources[s].isDeleted == w.sources[s].isDeleted
  {}

  lemma UnlistedRow(db: Db, b: Build, extract: Extractor, s: SourceId)
    requires Ready(db, b, extract) && Unlisted(b, s)
    ensures var w := Processed(db, b, extract).work; (s in w.sources <==> s in db.sources) && (s in db.sources ==> w.sources[s] == db.sources[s])
  {
    UnlistedStays(db, b.items, extract, b.n, b.now, s);
    CodeIsApart(db, b, extract, s);
    hide Processed, ProcessAll, LegalTree, Prepared;
  }

  lemma VanishedIs(db: Db, b: Build, extract: Extractor)
    requires LegalBuild(db, b, extract)
    ensures VanishedOf(db, b, extract) == Vanished(Processed(db, b, extract).work, b.f.pass.seen, b.f.pass.startedAt)
  {
    hide LegalBuild, Processed, Vanished;
  }
}
