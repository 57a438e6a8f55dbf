/** The code files of a build: collected while listing, then graphified one repository
    at a time, and committed at once when any file had changed. */
module CodeTrees {
  import opened Prelude
  import opened Registry
  import opened Documents
  import opened Engine

  /** The collected files of one repository.  `fails`: graphify raises on the tree;
      otherwise it comes to these rows.  A file is a fetched item like any other, whose
      own `fails` and `ids` play no part. */
  datatype Repo = Repo(files: seq<Item>, fails: bool, artifacts: map<ArtifactId, Artifact>, edges: map<EdgeId, Edge>)

  function FilesOf(repos: seq<Repo>): seq<Item> {
    if repos == [] then [] else FilesOf(repos[..|repos| - 1]) + repos[|repos| - 1].files
  }

  predicate AnyChanged(db: Db, repos: seq<Repo>) {
    ChangedIn(db, FilesOf(repos))
  }

  predicate ChangedIn(db: Db, files: seq<Item>) {
    exists i :: i in files && !Unchanged(db, i)
  }

  /** The repositories whose tree went through. */
  function Graphified(repos: seq<Repo>): seq<Repo> {
    if repos == [] then []
    else if repos[|repos| - 1].fails then Graphified(repos[..|repos| - 1])
    else Graphified(repos[..|repos| - 1]) + [repos[|repos| - 1]]
  }

  function FileRow(db: Db, i: Item, now: int): Source {
    if Unchanged(db, i) then db.sources[i.source].(lastSeenAt := Some(now), acl := i.acl) else Upserted(db, i, now)
  }

  function FileRows(db: Db, files: seq<Item>, now: int): map<SourceId, Source> {
    if files == [] then map[]
    else FileRows(db, files[..|files| - 1], now)[files[|files| - 1].source := FileRow(db, files[|files| - 1], now)]
  }

  function ArtifactsOf(repos: seq<Repo>): map<ArtifactId, Artifact> {
    if repos == [] then map[] else ArtifactsOf(repos[..|repos| - 1]) + repos[|repos| - 1].artifacts
  }

  function EdgesOf(repos: seq<Repo>): map<EdgeId, Edge> {
    if repos == [] then map[] else EdgesOf(repos[..|repos| - 1]) + repos[|repos| - 1].edges
  }

  /** What the repositories come to.  `sources`: the rows touched or rewritten; `changed`:
      the files of rewritten trees; `committed`: whether there is a commit after the trees. */
  datatype CodeTree = CodeTree(sources: map<SourceId, Source>, changed: set<SourceId>,
                               artifacts: map<ArtifactId, Artifact>, edges: map<EdgeId, Edge>,
                               committed: bool, failures: nat)

  /** One changed file of any repository, and every tree is written again: each that
      graphify can read, with all its files, and of one that it cannot nothing at all.
      Otherwise every file is touched. */
  function TreeOf(db: Db, repos: seq<Repo>, now: int): CodeTree {
    if AnyChanged(db, repos) then
      var rs := Graphified(repos);
      var rows := FileRows(db, FilesOf(rs), now);
      CodeTree(rows, rows.Keys, ArtifactsOf(rs), EdgesOf(rs), true, Failures(repos))
    else CodeTree(FileRows(db, FilesOf(repos), now), {}, map[], map[], false, 0)
  }

  function Failures(repos: seq<Repo>): nat {
    if repos == [] then 0 else Failures(repos[..|repos| - 1]) + if repos[|repos| - 1].fails then 1 else 0
  }

  function WithCode(w: Db, t: CodeTree): Db {
    Db(w.sources + t.sources, w.artifacts + t.artifacts, w.edges + t.edges, w.generation)
  }

  /** Rewritten trees are committed; touches alone wait for the next commit. */
  function Grown(s: Session, t: CodeTree): Session {
    Session(WithCode(s.work, t), if t.committed then WithCode(s.work, t) else s.saved,
            s.seen + t.sources.Keys, s.changed + t.changed, s.failures + t.failures)
  }

  predicate IsCode(db: Db, s: SourceId) {
    s in db.sources && db.sources[s].kind.GithubCode?
  }

  /** Code files and documents are different sources. */
  ghost predicate KeptApart(db: Db, items: seq<Item>, t: CodeTree) {
    && (forall s :: s in t.sources ==> t.sources[s].kind.GithubCode? && (s in db.sources ==> IsCode(db, s)))
    && (forall k :: 0 <= k < |items| ==> IsDocItem(db, items[k]) && items[k].source !in t.sources)
  }

  predicate IsDocItem(db: Db, i: Item) {
    !i.kind.GithubCode? && !IsCode(db, i.source)
  }

  ghost predicate LegalTree(db: Db, w: Db, items: seq<Item>, t: CodeTree, n: int) {
    && KeptApart(db, items, t) && t.changed <= t.sources.Keys
    && LegalCommit(w, n, t.sources, t.artifacts, t.edges)
    && (forall a :: a in t.artifacts ==> t.artifacts[a].source in t.changed)
    && (!t.committed ==> t.changed == {} && t.artifacts == map[] && t.edges == map[] && OnlyTouches(w, t.sources))
  }

  ghost predicate OnlyTouches(w: Db, rows: map<SourceId, Source>) {
    forall s :: s in rows ==> s in w.sources && SameSource(w.sources[s], rows[s])
  }

  // ------------------------------------------------------- the repositories

  /** Every file is a source of its own, of code, and no document. */
  ghost predicate FilesApart(db: Db, items: seq<Item>, files: seq<Item>) {
    && DistinctFiles(files)
    && (forall f :: f in files ==> f.kind.GithubCode? && (f.source in db.sources ==> IsCode(db, f.source)))
    && (forall k :: 0 <= k < |items| ==> IsDocItem(db, items[k]))
    && (forall k, f :: 0 <= k < |items| && f in files ==> items[k].source != f.source)
  }

  ghost predicate DistinctFiles(files: seq<Item>) {
    forall j, k :: 0 <= j < k < |files| ==> files[j].source != files[k].source
  }

  /** What graphify makes of the trees that go through: new rows of their own files. */
  ghost predicate GraphIsNew(w: Db, t: CodeTree, n: int) {
    && LegalCommit(w, n, t.sources, t.artifacts, t.edges)
    && (forall a :: a in t.artifacts ==> t.artifacts[a].source in t.changed)
  }

  lemma {:induction false} RowsAreOfFiles(db: Db, files: seq<Item>, now: int, s: SourceId)
    ensures s in FileRows(db, files, now) <==> exists f :: f in files && f.source == s
    ensures s in FileRows(db, files, now) ==>
      exists f :: f in files && f.source == s && FileRows(db, files, now)[s] == FileRow(db, f, now)
  {
    if files != [] {
      var init, last := files[..|files| - 1], files[|files| - 1];
      assert files == init + [last];
      RowsAreOfFiles(db, init, now, s);
      hide FileRow;
    }
  }

  lemma {:induction false} GraphifiedFiles(repos: seq<Repo>, f: Item)
    ensures f in FilesOf(Graphified(repos)) ==> f in FilesOf(repos)
  {
    if repos != [] {
      var init, last := repos[..|repos| - 1], repos[|repos| - 1];
      GraphifiedFiles(init, f);
      assert (Graphified(init) + [last])[..|Graphified(init)|] == Graphified(init);
    }
  }

  lemma {:induction false} FileIsThere(repos: seq<Repo>, r: nat, f: Item)
    requires r < |repos| && f in repos[r].files
    ensures f in FilesOf(repos)
  {
    if r < |repos| - 1 { FileIsThere(repos[..|repos| - 1], r, f); }
  }

  /** With every file a source of its own, a file of a tree that failed is none of the
      files of the trees that went through. */
  lemma {:induction false} FailedFileIsOut(repos: seq<Repo>, r: nat, f: Item, g: Item)
    requires r < |repos| && f in repos[r].files && repos[r].fails && DistinctFiles(FilesOf(repos))
    requires g in FilesOf(Graphified(repos))
    ensures g.source != f.source
  {
    var init, last := repos[..|repos| - 1], repos[|repos| - 1];
    var before := FilesOf(init);
    assert FilesOf(repos) == before + last.files;
    assert DistinctFiles(before) by {
      forall j, k | 0 <= j < k < |before| ensures before[j].source != before[k].source {
        assert FilesOf(repos)[j] == before[j] && FilesOf(repos)[k] == before[k];
      }
    }
    assert (Graphified(init) + [last])[..|Graphified(init)|] == Graphified(init);
    if r == |repos| - 1 {
      GraphifiedFiles(init, g);
      ApartAcross(before, last.files, g, f);
    } else if g in FilesOf(Graphified(init)) {
      FailedFileIsOut(init, r, f, g);
    } else {
      FileIsThere(init, r, f);
      ApartAcross(before, last.files, f, g);
    }
  }

  lemma ApartAcross(xs: seq<Item>, ys: seq<Item>, x: Item, y: Item)
    requires DistinctFiles(xs + ys) && x in xs && y in ys
    ensures x.source != y.source
  {
    var j :| 0 <= j < |xs| && xs[j] == x;
    var k :| 0 <= k < |ys| && ys[k] == y;
    assert (xs + ys)[j] == x && (xs + ys)[|xs| + k] == y;
  }

  /** The trees of files that are apart are legal as soon as graphify yields new rows of
      their own files. */
  lemma TreeIsLegal(db: Db, w: Db, items: seq<Item>, repos: seq<Repo>, n: int, now: int)
    requires FilesApart(db, items, FilesOf(repos)) && GraphIsNew(w, TreeOf(w, repos, now), n)
    requires forall f :: f in FilesOf(repos) ==>
      (f.source in w.sources <==> f.source in db.sources) && (f.source in db.sources ==> w.sources[f.source] == db.sources[f.source])
    ensures LegalTree(db, w, items, TreeOf(w, repos, now), n)
  {
    var t := TreeOf(w, repos, now);
    var files := if AnyChanged(w, repos) then FilesOf(Graphified(repos)) else FilesOf(repos);
    assert t.sources == FileRows(w, files, now);
    forall f | f in files ensures f in FilesOf(repos) { GraphifiedFiles(repos, f); }
    hide *;
    forall s | s in t.sources
      ensures t.sources[s].kind.GithubCode? && (s in db.sources ==> IsCode(db, s))
      ensures forall k :: 0 <= k < |items| ==> items[k].source != s
      ensures !t.committed ==> s in w.sources && SameSource(w.sources[s], t.sources[s])
    {
      RowsAreOfFiles(w, files, now, s);
      var f :| f in files && f.source == s && t.sources[s] == FileRow(w, f, now);
      NotChanged(w, repos, now, f);
      FileIsApart(db, w, items, FilesOf(repos), f, now);
    }
    ItemsAreDocs(db, items, FilesOf(repos));
    TreeByParts(db, w, items, repos, n, now);
  }

  lemma NotChanged(w: Db, repos: seq<Repo>, now: int, f: Item)
    requires f in FilesOf(repos)
    ensures !TreeOf(w, repos, now).committed ==> Unchanged(w, f)
  {
    hide FilesOf, FileRows, Unchanged;
  }

  lemma FileIsApart(db: Db, w: Db, items: seq<Item>, files: seq<Item>, f: Item, now: int)
    requires FilesApart(db, items, files) && f in files
    requires f.source in w.sources <==> f.source in db.sources
    requires f.source in db.sources ==> w.sources[f.source] == db.sources[f.source]
    ensures FileRow(w, f, now).kind.GithubCode? && (f.source in db.sources ==> IsCode(db, f.source))
    ensures forall k :: 0 <= k < |items| ==> items[k].source != f.source
    ensures Unchanged(w, f) ==> f.source in w.sources && SameSource(w.sources[f.source], FileRow(w, f, now))
  {
    hide DistinctFiles, IsDocItem;
  }

  lemma ItemsAreDocs(db: Db, items: seq<Item>, files: seq<Item>)
    requires FilesApart(db, items, files)
    ensures forall k :: 0 <= k < |items| ==> IsDocItem(db, items[k])
  {
    hide DistinctFiles, IsDocItem;
  }

  lemma TreeByParts(db: Db, w: Db, items: seq<Item>, repos: seq<Repo>, n: int, now: int)
    requires GraphIsNew(w, TreeOf(w, repos, now), n)
    requires forall k :: 0 <= k < |items| ==> IsDocItem(db, items[k])
    requires var t := TreeOf(w, repos, now);
      forall s :: s in t.sources ==>
        t.sources[s].kind.GithubCode? && (s in db.sources ==> IsCode(db, s)) &&
        (forall k :: 0 <= k < |items| ==> items[k].source != s) &&
        (!t.committed ==> s in w.sources && SameSource(w.sources[s], t.sources[s]))
    ensures LegalTree(db, w, items, TreeOf(w, repos, now), n)
  {
    hide LegalCommit, FilesOf, Graphified, FileRows, AnyChanged, ArtifactsOf, EdgesOf, IsDocItem, IsCode, SameSource;
  }
}
