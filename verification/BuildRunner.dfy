/** The build as it runs: one working transaction, committed per source, and one
    finalize transaction over everything committed. */
module BuildRunner {
  import opened Prelude
  import opened Registry
  import opened LinkEdges
  import opened Invalidation
  import opened AliasIndex
  import opened AliasOutcome
  import opened AliasLedger
  import opened BuildMachine
  import opened Documents
  import opened CodeTrees
  import opened LinkKeys
  import opened FinalizeKeys
  import InvalidationRun
  import AliasRun
  import R = AliasRows

  class Runner {
    const store: Store
    var saved: Db
    var seen: set<SourceId>
    var changed: set<SourceId>
    var failures: nat

    constructor (store: Store)
      ensures this.store == store && State() == Begin(store.Snapshot())
    {
      this.store := store;
      saved, seen, changed, failures := store.Snapshot(), {}, {}, 0;
    }

    /** The working transaction, the last commit and the counters. */
    function State(): Session
      reads this, store
    {
      Session(store.Snapshot(), saved, seen, changed, failures)
    }

    method Commit()
      modifies this`saved
      ensures saved == store.Snapshot()
    {
      saved := store.Snapshot();
    }

    method Rollback()
      modifies store
      ensures store.Snapshot() == saved
    {
      store.sources, store.artifacts, store.edges, store.generation :=
        saved.sources, saved.artifacts, saved.edges, saved.generation;
    }

    /** UPDATE ... RETURNING: reports whether there was a row to touch. */
    method TouchLastSeen(i: Item, now: int) returns (found: bool)
      modifies store`sources
      ensures store.Snapshot() == Touch(old(store.Snapshot()), i, now)
      ensures found <==> i.source in old(store.sources)
    {
      found := i.source in store.sources;
      if found {
        store.sources := store.sources[i.source := store.sources[i.source].(lastSeenAt := Some(now), acl := i.acl)];
      }
    }

    /** Upsert the source row, then replay the cache or extract and record. */
    method ProcessChangedSource(i: Item, extract: Extractor, n: int, now: int)
      requires |extract(i.text)| <= |i.ids|
      modifies store
      ensures store.Snapshot() == Extracted(old(store.Snapshot()), i, extract, n, now)
    {
      var hit := Cached(i) && i.text in store.generation;
      store.sources := store.sources[i.source := Upserted(store.Snapshot(), i, now)];
      if !hit {
        var drafts := extract(i.text);
        var rows := WriteArtifacts(drafts, i, n);
        store.artifacts := store.artifacts + rows;
        if Cached(i) {
          store.generation := store.generation[i.text := Firsts(i.ids, |drafts|)];
        }
      }
    }

    /** One item: skip, or commit it, or roll it back and touch what was there. */
    method ProcessItem(i: Item, extract: Extractor, n: int, now: int)
      requires |extract(i.text)| <= |i.ids|
      modifies this, store
      ensures State() == Process(old(State()), i, extract, n, now)
    {
      hide RowsFor, Upserted;
      if i.source in store.sources && store.sources[i.source].content == i.text {
        var found := TouchLastSeen(i, now);
        seen := seen + {i.source};
      } else if i.fails {
        Rollback();
        failures := failures + 1;
        var found := TouchLastSeen(i, now);
        if found {
          Commit();
          seen := seen + {i.source};
        }
      } else {
        ProcessChangedSource(i, extract, n, now);
        Commit();
        seen, changed := seen + {i.source}, changed + {i.source};
      }
    }

    /** The source loop. */
    method ProcessSources(items: seq<Item>, extract: Extractor, n: int, now: int)
      requires EnoughIds(items, extract) && State() == Begin(store.Snapshot())
      modifies this, store
      ensures State() == ProcessAll(old(store.Snapshot()), items, extract, n, now)
    {
      ghost var db := store.Snapshot();
      assert items[..0] == [];
      hide Process;
      for k := 0 to |items|
        invariant State() == ProcessAll(db, items[..k], extract, n, now)
      {
        assert items[..k + 1][..k] == items[..k];
        ProcessItem(items[k], extract, n, now);
      }
      assert items[..|items|] == items;
    }

    /** One file: a changed one is written again, another touched. */
    method UpsertFile(i: Item, now: int)
      modifies store`sources
      ensures store.sources == old(store.sources)[i.source := FileRow(old(store.Snapshot()), i, now)]
    {
      if i.source in store.sources && store.sources[i.source].content == i.text {
        var found := TouchLastSeen(i, now);
      } else {
        store.sources := store.sources[i.source := Upserted(store.Snapshot(), i, now)];
      }
    }

    /** The files of one tree, on top of the rows of the trees before it. */
    method UpsertFiles(files: seq<Item>, ghost db: Db, ghost before: seq<Item>, now: int)
      requires DistinctFiles(before + files) && store.sources == db.sources + FileRows(db, before, now)
      modifies this`seen, store`sources
      ensures store.sources == db.sources + FileRows(db, before + files, now)
      ensures seen == old(seen) + Sources(files)
    {
      assert before + files[..0] == before && Sources(files[..0]) == {} && files[..|files|] == files;
      hide *;
      for k := 0 to |files|
        invariant store.sources == db.sources + FileRows(db, before + files[..k], now)
        invariant seen == old(seen) + Sources(files[..k])
      {
        FilesGrow(db, before, files, k, now);
        FileUpserted(Db(store.sources, store.artifacts, store.edges, store.generation), db, before, files, k, now);
        UpsertFile(files[k], now);
        seen := seen + {files[k].source};
      }
    }

    /** Whether any file of any tree changed. */
    method FindChanged(repos: seq<Repo>) returns (any: bool)
      ensures any <==> AnyChanged(store.Snapshot(), repos)
    {
      any := false;
      assert repos[..0] == [] && repos[..|repos|] == repos;
      for r := 0 to |repos|
        invariant any <==> AnyChanged(store.Snapshot(), repos[..r])
      {
        ghost var before, files := FilesOf(repos[..r]), repos[r].files;
        TreesGrow(repos, r);
        assert before + files[..0] == before && files[..|files|] == files;
        for k := 0 to |repos[r].files|
          invariant any <==> ChangedIn(store.Snapshot(), before + files[..k])
        {
          var i := repos[r].files[k];
          assert before + files[..k + 1] == before + files[..k] + [i];
          ChangedGrows(store.Snapshot(), before + files[..k], i);
          any := any || !(i.source in store.sources && store.sources[i.source].content == i.text);
        }
      }
    }

    /** The code trees.  After a change every tree is written again, one that fails is
        left out whole, and what was written is committed; otherwise all files are touched. */
    method ProcessCode(repos: seq<Repo>, now: int)
      requires DistinctFiles(FilesOf(repos))
      modifies this, store
      ensures State() == Grown(old(State()), TreeOf(old(store.Snapshot()), repos, now))
    {
      hide FileRows, FilesOf, Graphified, Failures, DistinctFiles, AnyChanged, TreeOf, Grown, TreesWritten;
      ghost var s := State();
      var any := FindChanged(repos);
      if any {
        WriteTrees(repos, now);
        TreesCommitted(s, State(), repos, now);
        Commit();
      } else {
        TouchTrees(repos, now);
        TreesTouched(s, State(), repos, now);
      }
    }

    /** One repository, on top of the trees before it. */
    method GraphifyRepo(repo: Repo, ghost db: Db, ghost before: seq<Repo>, now: int)
      requires DistinctFiles(FilesOf(before) + repo.files)
      requires store.sources == db.sources + FileRows(db, FilesOf(before), now)
      modifies this`seen, this`changed, this`failures, store`sources, store`artifacts, store`edges
      ensures repo.fails ==> State() == old(State()).(failures := old(failures) + 1)
      ensures !repo.fails ==>
        && store.sources == db.sources + FileRows(db, FilesOf(before) + repo.files, now)
        && store.artifacts == old(store.artifacts) + repo.artifacts && store.edges == old(store.edges) + repo.edges
        && seen == old(seen) + Sources(repo.files) && changed == old(changed) + Sources(repo.files) && failures == old(failures)
    {
      if repo.fails {
        failures := failures + 1;
      } else {
        UpsertFiles(repo.files, db, FilesOf(before), now);
        changed := changed + Sources(repo.files);
        store.artifacts, store.edges := store.artifacts + repo.artifacts, store.edges + repo.edges;
      }
    }

    method WriteTrees(repos: seq<Repo>, now: int)
      requires DistinctFiles(FilesOf(repos))
      modifies this`seen, this`changed, this`failures, store`sources, store`artifacts, store`edges
      ensures TreesWritten(old(State()), State(), Graphified(repos), now)
      ensures failures == old(failures) + Failures(repos)
    {
      ghost var s := State();
      NoTreesYet(repos, s, now);
      assert repos[..|repos|] == repos;
      hide TreesWritten, Graphified, Failures, FilesOf, DistinctFiles, FileRows, ArtifactsOf, EdgesOf, Sources;
      for r := 0 to |repos|
        invariant TreesWritten(s, State(), Graphified(repos[..r]), now)
        invariant failures == s.failures + Failures(repos[..r])
      {
        ghost var before := Graphified(repos[..r]);
        TreesGrow(repos, r);
        ApartSoFar(repos, r);
        ghost var t := State();
        WrittenIs(s, t, before, now);
        GraphifyRepo(repos[r], s.work, before, now);
        if !repos[r].fails { TreeWritten(s, t, State(), before, repos[r], now); }
      }
    }

    method TouchTrees(repos: seq<Repo>, now: int)
      requires DistinctFiles(FilesOf(repos)) && !AnyChanged(store.Snapshot(), repos)
      modifies this`seen, store`sources
      ensures var rows := FileRows(old(store.Snapshot()), FilesOf(repos), now);
        store.sources == old(store.sources) + rows && seen == old(seen) + rows.Keys
    {
      ghost var db := store.Snapshot();
      assert repos[..0] == [] && db.sources + map[] == db.sources;
      for r := 0 to |repos|
        invariant store.sources == db.sources + FileRows(db, FilesOf(repos[..r]), now)
        invariant seen == old(seen) + Sources(FilesOf(repos[..r]))
      {
        TreesGrow(repos, r);
        TreesApart(repos, r + 1);
        UpsertFiles(repos[r].files, db, FilesOf(repos[..r]), now);
      }
      assert repos[..|repos|] == repos;
      RowsAreSources(db, FilesOf(repos), now);
    }

    /** Linker, judge, invalidation, alias miner, ledger miner, in this order.  When a
        rename of the pass meets a unique index the finalize raises. */
    method FinalizeGraph(f: FinalizeInput, rules: Rules, n: int) returns (raised: bool)
      requires LegalAttempt(store.Snapshot(), f, rules, n)
      requires KeysSound(store.Snapshot()) && LinksOffFresh(store.Snapshot(), n)
      modifies store
      ensures raised <==> Raises(old(store.Snapshot()), f, n)
      ensures !raised ==>
        store.Snapshot() == Finalized(old(store.Snapshot()), f, rules, n) &&
        Frozen(AfterLinks(old(store.Snapshot()), f, n), store.Snapshot(), n) && KeysSound(store.Snapshot())
    {
      ghost var db := store.Snapshot();
      AttemptInSteps(db, f, rules, n);
      if !Raises(db, f, n) { FinalizeInSteps(db, f, rules, n); }
      hide *;
      SoundIs(db);
      var a, b, c := WriteLinkEdges(store, f.linker, n);
      if f.judge.Some? {
        a, b, c := WriteLinkEdges(store, f.judge.value, n);
      }
      SoundIs(store.Snapshot());
      var pass := InvalidationRun.RunInvalidationPass(store, n, f.pass);
      if pass.None? {
        return true;
      }
      var alias := AliasRun.RunAliasMiner(store, f.alias, f.choice, rules, n);
      MineLedger(f, n);
      raised := false;
    }

    /** One build.  When its own run row is gone, or the finalize raises, what was
        committed stays, and nothing is linked or swept. */
    method RunBuild(items: seq<Item>, extract: Extractor, repos: seq<Repo>, f: FinalizeInput, rules: Rules, n: int, now: int, alive: bool)
      returns (completed: bool)
      requires EnoughIds(items, extract) && DistinctFiles(FilesOf(repos)) && State() == Begin(store.Snapshot())
      requires var w := WithTrees(ProcessAll(store.Snapshot(), items, extract, n, now), repos, now).work;
        alive ==> LegalAttempt(w, f, rules, n) && KeysSound(w) && LinksOffFresh(w, n)
      modifies this, store
      ensures var s := WithTrees(ProcessAll(old(store.Snapshot()), items, extract, n, now), repos, now);
        && seen == s.seen && changed == s.changed
        && (completed <==> alive && !Raises(s.work, f, n))
        && saved == store.Snapshot() == if completed then Finalized(s.work, f, rules, n) else s.saved
    {
      hide ProcessAll, Finalized, LegalFinalize, LegalAttempt, Raises, AfterLinks, Frozen, KeysSound, LinksOffFresh, Grown, TreeOf;
      ProcessSources(items, extract, n, now);
      ProcessCode(repos, now);
      if !alive {
        Rollback();
        return false;
      }
      var raised := FinalizeGraph(f, rules, n);
      if raised {
        Rollback();
        return false;
      }
      Commit();
      completed := true;
    }

    method MineLedger(f: FinalizeInput, n: int)
      requires LegalLedger(store.artifacts, f.ledgerOrder, f.misses, f.ledgerIds) && R.OneLivePerTitle(store.artifacts)
      modifies store`artifacts
      ensures store.Snapshot() == LedgerStage(old(store.Snapshot()), f.ledgerOrder, f.misses, f.ledgerIds, n)
    {
      ghost var db := store.Snapshot();
      assert LedgerStage(db, f.ledgerOrder, f.misses, f.ledgerIds, n) ==
        Db(db.sources, LedgerRows(db.artifacts, f.ledgerOrder, f.misses, f.ledgerIds, n), db.edges, db.generation);
      hide LedgerRows, LegalLedger, R.OneLivePerTitle, LedgerOutcome;
      var mined, already, unresolved, gone := RunLedgerMiner(store, f.ledgerOrder, f.misses, f.ledgerIds, n);
    }
  }

  /** One row per draft, in order. */
  method WriteArtifacts(drafts: seq<Draft>, i: Item, n: int) returns (rows: map<ArtifactId, Artifact>)
    requires |drafts| <= |i.ids|
    ensures rows == RowsFor(drafts, i, n)
  {
    rows := map[];
    for k := 0 to |drafts|
      invariant rows == RowsFor(drafts[..k], i, n)
    {
      assert drafts[..k + 1][..k] == drafts[..k];
      rows := rows[i.ids[k] := RowFor(drafts[k], i, n)];
    }
    assert drafts[..|drafts|] == drafts;
  }

  function Sources(files: seq<Item>): set<SourceId> {
    set i | i in files :: i.source
  }

  /** The session after the code trees. */
  function WithTrees(s: Session, repos: seq<Repo>, now: int): Session {
    Grown(s, TreeOf(s.work, repos, now))
  }

  lemma FilesGrow(db: Db, before: seq<Item>, files: seq<Item>, k: nat, now: int)
    requires k < |files| && DistinctFiles(before + files)
    ensures FileRows(db, before + files[..k + 1], now) ==
            FileRows(db, before + files[..k], now)[files[k].source := FileRow(db, files[k], now)]
    ensures Sources(files[..k + 1]) == Sources(files[..k]) + {files[k].source}
    ensures forall f :: f in before + files[..k] ==> f.source != files[k].source
  {
    var now_, last := before + files[..k + 1], files[k];
    assert now_[..|now_| - 1] == before + files[..k] && now_[|now_| - 1] == last;
    assert files[..k + 1] == files[..k] + [last];
    forall f | f in before + files[..k] ensures f.source != last.source {
      var j :| 0 <= j < |before| + k && (before + files[..k])[j] == f;
      assert (before + files)[j] == f && (before + files)[|before| + k] == last;
    }
    hide FileRow;
  }

  lemma FileUpserted(d: Db, db: Db, before: seq<Item>, files: seq<Item>, k: nat, now: int)
    requires k < |files| && DistinctFiles(before + files)
    requires d.sources == db.sources + FileRows(db, before + files[..k], now)
    ensures d.sources[files[k].source := FileRow(d, files[k], now)] == db.sources + FileRows(db, before + files[..k + 1], now)
  {
    FilesGrow(db, before, files, k, now);
    hide FileRow, FileRows, DistinctFiles;
    FileIsUntouched(d, db, before + files[..k], files[k], now);
  }

  /** A file no tree so far has is where it was. */
  lemma FileIsUntouched(d: Db, db: Db, before: seq<Item>, f: Item, now: int)
    requires d.sources == db.sources + FileRows(db, before, now)
    requires forall g :: g in before ==> g.source != f.source
    ensures FileRow(d, f, now) == FileRow(db, f, now)
  {
    RowsAreOfFiles(db, before, now, f.source);
  }

  lemma OnTopOf<K, V>(a: map<K, V>, b: map<K, V>, c: map<K, V>)
    ensures (a + b) + c == a + (b + c)
  {}

  lemma OneTreeMore(rs: seq<Repo>, repo: Repo)
    ensures FilesOf(rs + [repo]) == FilesOf(rs) + repo.files
    ensures ArtifactsOf(rs + [repo]) == ArtifactsOf(rs) + repo.artifacts
    ensures EdgesOf(rs + [repo]) == EdgesOf(rs) + repo.edges
  {
    assert (rs + [repo])[..|rs|] == rs;
  }

  lemma ChangedGrows(db: Db, files: seq<Item>, i: Item)
    ensures ChangedIn(db, files + [i]) <==> ChangedIn(db, files) || !Unchanged(db, i)
  {
    assert forall j :: j in files + [i] <==> j in files || j == i;
    hide Unchanged;
  }

  ghost predicate TreesWritten(s: Session, t: Session, rs: seq<Repo>, now: int) {
    var db := s.work;
    && t.work.sources == db.sources + FileRows(db, FilesOf(rs), now)
    && t.work.artifacts == db.artifacts + ArtifactsOf(rs) && t.work.edges == db.edges + EdgesOf(rs)
    && t.work.generation == db.generation && t.saved == s.saved
    && t.seen == s.seen + Sources(FilesOf(rs)) && t.changed == s.changed + Sources(FilesOf(rs))
  }

  lemma WrittenIs(s: Session, t: Session, rs: seq<Repo>, now: int)
    requires TreesWritten(s, t, rs, now)
    ensures t.work.sources == s.work.sources + FileRows(s.work, FilesOf(rs), now)
  {}

  lemma TreesCommitted(s: Session, t: Session, repos: seq<Repo>, now: int)
    requires AnyChanged(s.work, repos) && TreesWritten(s, t, Graphified(repos), now) && t.failures == s.failures + Failures(repos)
    ensures Grown(s, TreeOf(s.work, repos, now)) == t.(saved := t.work)
  {
    RowsAreSources(s.work, FilesOf(Graphified(repos)), now);
    hide FilesOf, Graphified, FileRows, ArtifactsOf, EdgesOf, Failures, AnyChanged, Sources;
  }

  lemma TreesTouched(s: Session, t: Session, repos: seq<Repo>, now: int)
    requires !AnyChanged(s.work, repos)
    requires var rows := FileRows(s.work, FilesOf(repos), now);
      t == s.(work := s.work.(sources := s.work.sources + rows), seen := s.seen + rows.Keys)
    ensures Grown(s, TreeOf(s.work, repos, now)) == t
  {
    hide FilesOf, FileRows, AnyChanged;
    assert s.work.artifacts + map[] == s.work.artifacts && s.work.edges + map[] == s.work.edges && s.changed + {} == s.changed;
  }

  lemma NoTreesYet(repos: seq<Repo>, s: Session, now: int)
    ensures TreesWritten(s, s, Graphified(repos[..0]), now) && Failures(repos[..0]) == 0
  {
    assert repos[..0] == [];
  }

  lemma TreeWritten(s: Session, t: Session, t': Session, rs: seq<Repo>, repo: Repo, now: int)
    requires TreesWritten(s, t, rs, now)
    requires t'.work.sources == s.work.sources + FileRows(s.work, FilesOf(rs) + repo.files, now)
    requires t'.work.artifacts == t.work.artifacts + repo.artifacts && t'.work.edges == t.work.edges + repo.edges
    requires t'.work.generation == t.work.generation && t'.saved == t.saved
    requires t'.seen == t.seen + Sources(repo.files) && t'.changed == t.changed + Sources(repo.files)
    ensures TreesWritten(s, t', rs + [repo], now)
  {
    OneTreeMore(rs, repo);
    SourcesGrow(FilesOf(rs), repo.files);
    hide Sources, FileRows, FilesOf, ArtifactsOf, EdgesOf;
    OnTopOf(s.work.artifacts, ArtifactsOf(rs), repo.artifacts);
    OnTopOf(s.work.edges, EdgesOf(rs), repo.edges);
  }

  lemma SourcesGrow(xs: seq<Item>, ys: seq<Item>)
    ensures Sources(xs + ys) == Sources(xs) + Sources(ys)
  {
    forall s | s in Sources(xs) + Sources(ys) ensures s in Sources(xs + ys) {
      var i :| (i in xs || i in ys) && i.source == s;
      assert i in xs + ys;
    }
  }

  /** The next tree is apart from those that went through. */
  lemma ApartSoFar(repos: seq<Repo>, r: nat)
    requires r < |repos| && DistinctFiles(FilesOf(repos))
    ensures DistinctFiles(FilesOf(Graphified(repos[..r])) + repos[r].files)
  {
    TreesApart(repos, r + 1);
    TreesGrow(repos, r);
    GraphifiedApart(repos, r);
    forall f | f in FilesOf(Graphified(repos[..r])) ensures f in FilesOf(repos[..r]) { GraphifiedFiles(repos[..r], f); }
    ReplacedFirst(FilesOf(repos[..r]), FilesOf(Graphified(repos[..r])), repos[r].files);
  }

  lemma TreesGrow(repos: seq<Repo>, r: nat)
    requires r < |repos|
    ensures var init, last := repos[..r], repos[r];
      && FilesOf(repos[..r + 1]) == FilesOf(init) + last.files
      && Graphified(repos[..r + 1]) == (if last.fails then Graphified(init) else Graphified(init) + [last])
      && ArtifactsOf(repos[..r + 1]) == ArtifactsOf(init) + last.artifacts
      && EdgesOf(repos[..r + 1]) == EdgesOf(init) + last.edges
      && Failures(repos[..r + 1]) == Failures(init) + (if last.fails then 1 else 0)
  {
    assert repos[..r + 1][..r] == repos[..r];
  }

  lemma {:induction false} TreesApart(repos: seq<Repo>, r: nat)
    requires r <= |repos| && DistinctFiles(FilesOf(repos))
    ensures DistinctFiles(FilesOf(repos[..r]))
  {
    if r == |repos| {
      assert repos[..r] == repos;
    } else {
      var init := repos[..|repos| - 1];
      FirstApart(FilesOf(init), repos[|repos| - 1].files);
      TreesApart(init, r);
      assert init[..r] == repos[..r];
    }
  }

  lemma FirstApart(xs: seq<Item>, ys: seq<Item>)
    requires DistinctFiles(xs + ys)
    ensures DistinctFiles(xs)
  {
    forall j, k | 0 <= j < k < |xs| ensures xs[j].source != xs[k].source {
      assert (xs + ys)[j] == xs[j] && (xs + ys)[k] == xs[k];
    }
  }

  /** Leaving trees out leaves files apart. */
  lemma {:induction false} GraphifiedApart(repos: seq<Repo>, r: nat)
    requires r <= |repos| && DistinctFiles(FilesOf(repos))
    ensures DistinctFiles(FilesOf(Graphified(repos[..r])))
  {
    TreesApart(repos, r);
    NoneApart(repos);
    if r > 0 {
      hide *;
      GraphifiedApart(repos, r - 1);
      var before, rs, last := FilesOf(repos[..r - 1]), Graphified(repos[..r - 1]), repos[r - 1];
      TreesGrow(repos, r - 1);
      OneTreeMore(rs, last);
      forall f | f in FilesOf(rs) { GraphifiedFiles(repos[..r - 1], f); }
      ReplacedFirst(before, FilesOf(rs), last.files);
    }
  }

  lemma NoneApart(repos: seq<Repo>)
    ensures DistinctFiles(FilesOf(Graphified(repos[..0])))
  {
    assert repos[..0] == [];
  }

  lemma ReplacedFirst(xs: seq<Item>, xs': seq<Item>, ys: seq<Item>)
    requires DistinctFiles(xs + ys) && DistinctFiles(xs') && forall f :: f in xs' ==> f in xs
    ensures DistinctFiles(xs' + ys)
  {
    forall j, k | 0 <= j < k < |xs' + ys| ensures (xs' + ys)[j].source != (xs' + ys)[k].source {
      if k < |xs'| {
        assert xs'[j].source != xs'[k].source;
      } else if j < |xs'| {
        ApartAcross(xs, ys, xs'[j], ys[k - |xs'|]);
      } else {
        assert (xs + ys)[j - |xs'| + |xs|] == (xs' + ys)[j] && (xs + ys)[k - |xs'| + |xs|] == (xs' + ys)[k];
      }
    }
  }

  lemma RowsAreSources(db: Db, files: seq<Item>, now: int)
    ensures FileRows(db, files, now).Keys == Sources(files)
  {
    forall s ensures s in FileRows(db, files, now) <==> s in Sources(files) { RowsAreOfFiles(db, files, now, s); }
  }

  /** What linker, judge and pass find, whether or not the pass will raise. */
  lemma AttemptInSteps(db: Db, f: FinalizeInput, rules: Rules, n: int)
    requires LegalAttempt(db, f, rules, n) && KeysSound(db) && LinksOffFresh(db, n)
    ensures LegalLinks(db, f, n) && |f.linker.ids| == |f.linker.drafts| && LegalBatch(db, f.linker)
    ensures f.judge.Some? ==> LegalBatch(Linked(db, f.linker, n), f.judge.value) && |f.judge.value.ids| == |f.judge.value.drafts|
    ensures AfterLinks(db, f, n) == if f.judge.None? then Linked(db, f.linker, n) else Linked(Linked(db, f.linker, n), f.judge.value, n)
    ensures PassOrders(AfterLinks(db, f, n), n, f.pass)
    ensures KeysSound(AfterLinks(db, f, n)) && LeftOffFresh(AfterLinks(db, f, n), n)
    ensures Raises(db, f, n) <==> PassClashes(AfterLinks(db, f, n), n, f.pass)
  {
    LinksAreReady(db, f, n);
    hide Linked, PassOrders, PassClashes, LegalFinalize, KeysSound, LeftOffFresh, LinksOffFresh, LegalBatch, DraftsExist;
  }

  /** What the rest of the finalize finds. */
  lemma FinalizeInSteps(db: Db, f: FinalizeInput, rules: Rules, n: int)
    requires LegalFinalize(db, f, rules, n) && KeysSound(db)
    ensures AfterPass(db, f, n) == InvalidationPass(AfterLinks(db, f, n), n, f.pass)
    ensures LegalChoice(AfterPass(db, f, n), f.alias, f.choice, rules, n)
    ensures AfterAlias(db, f, rules, n) == AliasStage(AfterPass(db, f, n), f.alias, f.choice, rules, n)
    ensures LegalLedger(AfterAlias(db, f, rules, n).artifacts, f.ledgerOrder, f.misses, f.ledgerIds)
    ensures Finalized(db, f, rules, n) == LedgerStage(AfterAlias(db, f, rules, n), f.ledgerOrder, f.misses, f.ledgerIds, n)
    ensures Frozen(AfterLinks(db, f, n), Finalized(db, f, rules, n), n) && KeysSound(Finalized(db, f, rules, n))
  {
    FinalizeStamps(db, f, rules, n);
    FinalizeKeepsKeys(db, f, rules, n);
    hide Linked, InvalidationPass, AliasStage, LegalChoice, LegalInput, LegalLedger, LedgerStage, KeysSound, Frozen, Stamped;
  }
}
