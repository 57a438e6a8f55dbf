/** What the source loop and the code trees write: the rows of sources, the artifacts and
    the cache entries, field by field. */
module SourceFates {
  import opened Prelude
  import opened Registry
  import opened Documents
  import opened CodeTrees

  // ------------------------------------------------------- one item

  /** The content on record is the item's. */
  predicate Known(db: Db, i: Item) {
    i.source in db.sources && db.sources[i.source].content == i.text
  }

  /** A touch: seen now, under the item's access list, and otherwise as before. */
  predicate IsTouched(was: Source, row: Source, i: Item, now: int) {
    row == Source(was.kind, was.uri, was.path, was.content, Some(now), was.createdAt, was.isDeleted, i.acl)
  }

  /** A recording: the item's path, content and access list, seen now and not deleted;
      identity and creation stay if the source was known. */
  predicate IsRecorded(db: Db, row: Source, i: Item, now: int) {
    if i.source in db.sources
    then row == Source(db.sources[i.source].kind, db.sources[i.source].uri, i.path, i.text, Some(now), db.sources[i.source].createdAt, false, i.acl)
    else row == Source(i.kind, i.uri, i.path, i.text, Some(now), now, false, i.acl)
  }

  /** Which of the four an item comes to. */
  lemma FateIs(s: Session, i: Item)
    ensures FateOf(s, i) ==
      if Known(s.work, i) then Touched
      else if i.fails then Failed
      else if i.kind != GitMetadata && i.text in s.work.generation then Replayed
      else Written
  {}

  /** What the item does to source rows: only its own changes, apart from what a roll back
      restores. */
  lemma ItemSources(s: Session, i: Item, extract: Extractor, n: int, now: int, x: SourceId)
    requires |extract(i.text)| <= |i.ids|
    ensures var t, f, base := Process(s, i, extract, n, now).work, FateOf(s, i), if FateOf(s, i) == Failed then s.saved else s.work;
      && (x != i.source ==> (x in t.sources <==> x in base.sources) && (x in base.sources ==> t.sources[x] == base.sources[x]))
      && (f == Touched || f == Failed ==>
            (i.source in t.sources <==> i.source in base.sources) &&
            (i.source in base.sources ==> IsTouched(base.sources[i.source], t.sources[i.source], i, now)))
      && (f == Replayed || f == Written ==> i.source in t.sources && IsRecorded(s.work, t.sources[i.source], i, now))
  {
    hide RowsFor;
  }

  /** The row of the p-th draft. */
  predicate IsDraftRow(row: Artifact, d: Draft, i: Item, n: int) {
    row == Artifact(d.kind, i.source, d.title, d.body, n, None, None, i.acl)
  }

  /** The artifacts a written item adds: one row per draft under the item's identities; no
      other item adds any, and none changes a row. */
  lemma ItemArtifacts(s: Session, i: Item, extract: Extractor, n: int, now: int, a: ArtifactId)
    requires |extract(i.text)| <= |i.ids| && forall p, q :: 0 <= p < q < |i.ids| ==> i.ids[p] != i.ids[q]
    requires forall p :: 0 <= p < |i.ids| ==> i.ids[p] !in s.work.artifacts
    ensures var t, f, base := Process(s, i, extract, n, now).work, FateOf(s, i), if FateOf(s, i) == Failed then s.saved else s.work;
      && (a in base.artifacts ==> a in t.artifacts && t.artifacts[a] == base.artifacts[a])
      && (a in t.artifacts && a !in base.artifacts ==> f == Written && exists p :: 0 <= p < |extract(i.text)| && i.ids[p] == a)
      && (f == Written ==> forall p :: 0 <= p < |extract(i.text)| ==>
            i.ids[p] in t.artifacts && IsDraftRow(t.artifacts[i.ids[p]], extract(i.text)[p], i, n))
      && t.edges == base.edges
  {
    var drafts := extract(i.text);
    if FateOf(s, i).Written? {
      if a in RowsFor(drafts, i, n) { var p := RowsForOnly(drafts, i, n, a); }
      forall p | 0 <= p < |drafts| ensures i.ids[p] in RowsFor(drafts, i, n) && RowsFor(drafts, i, n)[i.ids[p]] == RowFor(drafts[p], i, n) {
        RowsForAt(drafts, i, n, p);
      }
    }
    hide RowsFor, Upserted;
  }

  /** The cache gains an entry only from a written item that is no commit: its text, with
      the identities of its rows in order. */
  lemma ItemCache(s: Session, i: Item, extract: Extractor, n: int, now: int)
    requires |extract(i.text)| <= |i.ids|
    ensures var t, f, base := Process(s, i, extract, n, now).work, FateOf(s, i), if FateOf(s, i) == Failed then s.saved else s.work;
      t.generation ==
        if f == Written && i.kind != GitMetadata then base.generation[i.text := i.ids[..|extract(i.text)|]] else base.generation
  {
    hide RowsFor, Upserted;
  }

  /** What is committed with the item, and what is counted. */
  lemma ItemCommits(s: Session, i: Item, extract: Extractor, n: int, now: int)
    requires |extract(i.text)| <= |i.ids|
    ensures var t, f := Process(s, i, extract, n, now), FateOf(s, i);
      && t.saved == (if f == Touched then s.saved else t.work)
      && t.failures == s.failures + (if f == Failed then 1 else 0)
      && t.changed == s.changed + (if f == Replayed || f == Written then {i.source} else {})
      && t.seen == s.seen + (if f == Failed && i.source !in s.saved.sources then {} else {i.source})
  {
    hide RowsFor, Upserted;
  }

  /** Over the whole listing: a source written or replayed ends recorded, in the open
      transaction and in the last commit, whatever later items go through. */
  lemma {:induction false} RecordedToTheEnd(db: Db, items: seq<Item>, extract: Extractor, n: int, now: int, k: nat)
    requires LegalListing(db, items, extract) && k < |items|
    requires var f := FateAt(db, items, extract, n, now, k); f == Replayed || f == Written
    ensures var s, i := ProcessAll(db, items, extract, n, now), items[k];
      && i.source in s.work.sources && IsRecorded(db, s.work.sources[i.source], i, now)
      && i.source in s.saved.sources && s.saved.sources[i.source] == s.work.sources[i.source]
  {
    var init, last := items[..|items| - 1], items[|items| - 1];
    var s := ProcessAll(db, init, extract, n, now);
    Prefix(db, items, extract);
    WorkIsSavedButTouches(db, init, extract, n, now);
    if k == |items| - 1 {
      assert items[..k] == init;
      forall j | 0 <= j < |init| ensures init[j].source != last.source {}
      UnlistedStays(db, init, extract, n, now, last.source);
    } else {
      RecordedToTheEnd(db, init, extract, n, now, k);
    }
    ItemSources(s, last, extract, n, now, items[k].source);
    ItemCommits(s, last, extract, n, now);
    hide Process, SameButTouches, LegalListing, IsTouched;
  }

  // ------------------------------------------------------- code trees

  predicate InRepo(repos: seq<Repo>, r: int, f: Item) {
    0 <= r < |repos| && f in repos[r].files
  }

  /** Some collected file is not on record with its content. */
  ghost predicate SomeChanged(db: Db, repos: seq<Repo>) {
    exists r, f :: InRepo(repos, r, f) && !Known(db, f)
  }

  lemma {:induction false} FilesAre(repos: seq<Repo>, f: Item)
    ensures f in FilesOf(repos) <==> exists r :: InRepo(repos, r, f)
    ensures f in FilesOf(Graphified(repos)) <==> exists r :: InRepo(repos, r, f) && !repos[r].fails
  {
    if repos != [] {
      var init, last := repos[..|repos| - 1], repos[|repos| - 1];
      FilesAre(init, f);
      var before := Graphified(init);
      assert (before + [last])[..|before|] == before;
      forall r | InRepo(init, r, f) ensures InRepo(repos, r, f) && repos[r] == init[r] {}
      forall r | InRepo(repos, r, f) ensures r == |repos| - 1 || (InRepo(init, r, f) && repos[r] == init[r]) {}
      assert f in last.files ==> InRepo(repos, |repos| - 1, f);
    }
  }

  lemma ChangedIff(db: Db, repos: seq<Repo>)
    ensures AnyChanged(db, repos) <==> SomeChanged(db, repos)
  {
    forall f { FilesAre(repos, f); }
    hide FilesOf, Graphified;
    if i :| i in FilesOf(repos) && !Unchanged(db, i) {
      var r :| InRepo(repos, r, i);
      assert !Known(db, i);
    }
    if r, f :| InRepo(repos, r, f) && !Known(db, f) { assert f in FilesOf(repos) && !Unchanged(db, f); }
  }

  /** One file after the trees.  When some file had changed: recorded if it had, touched
      otherwise, seen and changed, and none of this if its tree failed.  When none had: touched
      and seen.  No other source is written. */
  lemma FileFate(db: Db, repos: seq<Repo>, now: int, r: nat, f: Item)
    requires InRepo(repos, r, f) && DistinctFiles(FilesOf(repos))
    ensures var t := TreeOf(db, repos, now);
      && (SomeChanged(db, repos) && repos[r].fails ==> f.source !in t.sources && f.source !in t.changed)
      && (SomeChanged(db, repos) && !repos[r].fails ==>
            f.source in t.sources && f.source in t.changed &&
            if Known(db, f) then IsTouched(db.sources[f.source], t.sources[f.source], f, now)
            else IsRecorded(db, t.sources[f.source], f, now))
      && (!SomeChanged(db, repos) ==>
            f.source in t.sources && f.source !in t.changed && f.source in db.sources &&
            IsTouched(db.sources[f.source], t.sources[f.source], f, now))
  {
    ChangedIff(db, repos);
    FilesAre(repos, f);
    InFiles(repos, r, f);
    hide *;
    if AnyChanged(db, repos) {
      TreeAfterChange(db, repos, now);
      if repos[r].fails {
        RowsAreOfFiles(db, FilesOf(Graphified(repos)), now, f.source);
        forall g | g in FilesOf(Graphified(repos)) { FailedFileIsOut(repos, r, f, g); }
      } else {
        FileIsOwn(db, repos, FilesOf(Graphified(repos)), now, f) by { forall g { GraphifiedFiles(repos, g); } }
      }
    } else {
      TreeWithoutChange(db, repos, now);
      FileIsOwn(db, repos, FilesOf(repos), now, f);
      UnchangedFile(db, repos, f);
    }
  }

  lemma InFiles(repos: seq<Repo>, r: nat, f: Item)
    requires InRepo(repos, r, f)
    ensures r < |repos| && f in repos[r].files
  {}

  lemma TreeAfterChange(db: Db, repos: seq<Repo>, now: int)
    requires AnyChanged(db, repos)
    ensures var t, rows := TreeOf(db, repos, now), FileRows(db, FilesOf(Graphified(repos)), now);
      t.sources == rows && t.changed == rows.Keys
  {
    hide AnyChanged, FileRows, FilesOf, Graphified;
  }

  lemma TreeWithoutChange(db: Db, repos: seq<Repo>, now: int)
    requires !AnyChanged(db, repos)
    ensures var t := TreeOf(db, repos, now); t.sources == FileRows(db, FilesOf(repos), now) && t.changed == {}
  {
    hide AnyChanged, FileRows, FilesOf, Graphified;
  }

  lemma UnchangedFile(db: Db, repos: seq<Repo>, f: Item)
    requires !AnyChanged(db, repos) && f in FilesOf(repos)
    ensures Known(db, f) && f.source in db.sources
  {
    hide FilesOf;
  }

  /** Its row is its own: no other file has its source. */
  lemma FileIsOwn(db: Db, repos: seq<Repo>, files: seq<Item>, now: int, f: Item)
    requires DistinctFiles(FilesOf(repos)) && f in files && forall g :: g in files ==> g in FilesOf(repos)
    ensures f.source in FileRows(db, files, now)
    ensures if Known(db, f) then IsTouched(db.sources[f.source], FileRows(db, files, now)[f.source], f, now)
            else IsRecorded(db, FileRows(db, files, now)[f.source], f, now)
  {
    RowsAreOfFiles(db, files, now, f.source);
    var g :| g in files && g.source == f.source && FileRows(db, files, now)[f.source] == FileRow(db, g, now);
    var all := FilesOf(repos);
    var j :| 0 <= j < |all| && all[j] == f;
    var k :| 0 <= k < |all| && all[k] == g;
    hide FileRows, FilesOf;
  }

  /** What the trees add: with some file changed, the rows and edges of every repository that
      graphify can read, a later one over an earlier; and a commit.  Otherwise nothing. */
  lemma TreeRows(db: Db, repos: seq<Repo>, now: int, a: ArtifactId, e: EdgeId)
    ensures var t := TreeOf(db, repos, now);
      && (t.committed <==> SomeChanged(db, repos))
      && (a in t.artifacts <==> SomeChanged(db, repos) && exists r :: 0 <= r < |repos| && !repos[r].fails && a in repos[r].artifacts)
      && (e in t.edges <==> SomeChanged(db, repos) && exists r :: 0 <= r < |repos| && !repos[r].fails && e in repos[r].edges)
      && (a in t.artifacts ==> exists r :: 0 <= r < |repos| && !repos[r].fails && a in repos[r].artifacts && t.artifacts[a] == repos[r].artifacts[a])
      && (e in t.edges ==> exists r :: 0 <= r < |repos| && !repos[r].fails && e in repos[r].edges && t.edges[e] == repos[r].edges[e])
  {
    ChangedIff(db, repos);
    GraphsAre(repos, a, e);
    hide AnyChanged, SomeChanged, FileRows, FilesOf, Graphified, ArtifactsOf, EdgesOf, Failures;
  }

  lemma {:induction false} GraphsAre(repos: seq<Repo>, a: ArtifactId, e: EdgeId)
    ensures var rs := Graphified(repos);
      && (a in ArtifactsOf(rs) <==> exists r :: 0 <= r < |repos| && !repos[r].fails && a in repos[r].artifacts)
      && (e in EdgesOf(rs) <==> exists r :: 0 <= r < |repos| && !repos[r].fails && e in repos[r].edges)
      && (a in ArtifactsOf(rs) ==> exists r :: 0 <= r < |repos| && !repos[r].fails && a in repos[r].artifacts && ArtifactsOf(rs)[a] == repos[r].artifacts[a])
      && (e in EdgesOf(rs) ==> exists r :: 0 <= r < |repos| && !repos[r].fails && e in repos[r].edges && EdgesOf(rs)[e] == repos[r].edges[e])
  {
    ArtifactsAre(repos, a);
    EdgesAre(repos, e);
    hide ArtifactsOf, EdgesOf, Graphified;
  }

  lemma {:induction false} ArtifactsAre(repos: seq<Repo>, a: ArtifactId)
    ensures var rows := ArtifactsOf(Graphified(repos));
      && (a in rows <==> exists r :: 0 <= r < |repos| && !repos[r].fails && a in repos[r].artifacts)
      && (a in rows ==> exists r :: 0 <= r < |repos| && !repos[r].fails && a in repos[r].artifacts && rows[a] == repos[r].artifacts[a])
  {
    if repos != [] {
      var init, last := repos[..|repos| - 1], repos[|repos| - 1];
      ArtifactsAre(init, a);
      var before := Graphified(init);
      assert (before + [last])[..|before|] == before;
      forall r | 0 <= r < |init| ensures repos[r] == init[r] {}
      assert repos[|repos| - 1] == last;
    }
  }

  lemma {:induction false} EdgesAre(repos: seq<Repo>, e: EdgeId)
    ensures var rows := EdgesOf(Graphified(repos));
      && (e in rows <==> exists r :: 0 <= r < |repos| && !repos[r].fails && e in repos[r].edges)
      && (e in rows ==> exists r :: 0 <= r < |repos| && !repos[r].fails && e in repos[r].edges && rows[e] == repos[r].edges[e])
  {
    if repos != [] {
      var init, last := repos[..|repos| - 1], repos[|repos| - 1];
      EdgesAre(init, e);
      var before := Graphified(init);
      assert (before + [last])[..|before|] == before;
      forall r | 0 <= r < |init| ensures repos[r] == init[r] {}
      assert repos[|repos| - 1] == last;
    }
  }

  /** One failure is counted for every repository that fails, when the trees are written. */
  lemma {:induction false} FailuresAre(repos: seq<Repo>)
    ensures Failures(repos) + |Graphified(repos)| == |repos|
    ensures forall r :: r in Graphified(repos) <==> r in repos && !r.fails
  {
    if repos != [] {
      var init, last := repos[..|repos| - 1], repos[|repos| - 1];
      assert repos == init + [last];
      FailuresAre(init);
    }
  }

  /** The session after the trees, file by file.  With some file changed, one of a tree that
      graphify can read is seen and changed and has its row, and all is committed; one of a
      failed tree is left alone.  Otherwise it is seen and touched, and waits for the next
      commit. */
  lemma SessionAfterTrees(s: Session, repos: seq<Repo>, now: int, r: nat, f: Item)
    requires InRepo(repos, r, f) && DistinctFiles(FilesOf(repos))
    ensures var g, w := Grown(s, TreeOf(s.work, repos, now)), s.work;
      && (SomeChanged(w, repos) && repos[r].fails ==>
            (f.source in g.seen <==> f.source in s.seen) && (f.source in g.changed <==> f.source in s.changed) &&
            (f.source in g.work.sources <==> f.source in w.sources) &&
            (f.source in w.sources ==> g.work.sources[f.source] == w.sources[f.source]))
      && (SomeChanged(w, repos) && !repos[r].fails ==>
            f.source in g.seen && f.source in g.changed && f.source in g.work.sources &&
            if Known(w, f) then IsTouched(w.sources[f.source], g.work.sources[f.source], f, now)
            else IsRecorded(w, g.work.sources[f.source], f, now))
      && (!SomeChanged(w, repos) ==>
            f.source in g.seen && (f.source in g.changed <==> f.source in s.changed) &&
            f.source in w.sources && f.source in g.work.sources &&
            IsTouched(w.sources[f.source], g.work.sources[f.source], f, now))
      && g.saved == (if SomeChanged(w, repos) then g.work else s.saved)
      && g.failures == s.failures + (if SomeChanged(w, repos) then Failures(repos) else 0)
  {
    var t := TreeOf(s.work, repos, now);
    FileFate(s.work, repos, now, r, f);
    ChangedIff(s.work, repos);
    TreeCommits(s.work, repos, now);
    hide TreeOf, SomeChanged, AnyChanged, IsTouched, IsRecorded, Known, InRepo, DistinctFiles, Failures;
  }

  lemma TreeCommits(db: Db, repos: seq<Repo>, now: int)
    ensures var t := TreeOf(db, repos, now);
      t.committed == AnyChanged(db, repos) && t.failures == if AnyChanged(db, repos) then Failures(repos) else 0
  {
    hide AnyChanged, FileRows, Failures, ArtifactsOf, EdgesOf, Graphified, FilesOf;
  }

  /** No other source, artifact or edge of the session changes with the trees. */
  lemma RestAfterTrees(s: Session, repos: seq<Repo>, now: int, x: SourceId, a: ArtifactId, e: EdgeId)
    ensures var g, t := Grown(s, TreeOf(s.work, repos, now)), TreeOf(s.work, repos, now);
      && (x !in t.sources ==> (x in g.work.sources <==> x in s.work.sources) && (x in s.work.sources ==> g.work.sources[x] == s.work.sources[x])
                              && (x in g.seen <==> x in s.seen))
      && (x !in t.changed ==> (x in g.changed <==> x in s.changed))
      && (a in g.work.artifacts <==> a in s.work.artifacts || a in t.artifacts)
      && (a in g.work.artifacts ==> g.work.artifacts[a] == if a in t.artifacts then t.artifacts[a] else s.work.artifacts[a])
      && (e in g.work.edges <==> e in s.work.edges || e in t.edges)
      && (e in g.work.edges ==> g.work.edges[e] == if e in t.edges then t.edges[e] else s.work.edges[e])
      && g.work.generation == s.work.generation
  {
    hide TreeOf;
  }
}
