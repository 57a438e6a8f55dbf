/** Builds from the empty registry on which documents and code files depart from what the
    comments promise, and a history on which nothing does. */
module DepartureBuilds {
  import opened Prelude
  import opened Registry
  import opened Invalidation
  import opened PassProperties
  import opened LinkEdges
  import opened AliasIndex
  import opened BuildMachine
  import opened Engine
  import opened Documents
  import opened CodeTrees
  import opened Incremental
  import opened FromScratch
  import opened DocumentRuns
  import opened Departures
  import DepartureRuns

  // ------------------------------------------------------- builds that only process

  /** One artifact per text. */
  function OnePage(): Extractor { (t: string) => [Draft(Summary, Some("page"), Some(Text(t)))] }

  /** A build whose finalize links and mines nothing. */
  function Plain(items: seq<Item>, repos: seq<Repo>, code: CodeTree, p: PassInput, rules: Rules, n: int, now: int): Build {
    Build(items, repos, code, DepartureRuns.Quiet(DepartureRuns.NoLinks(), p), rules, n, now)
  }

  function NoCode(): CodeTree { CodeTree(map[], {}, map[], map[], false, 0) }

  ghost predicate OnlyCode(d: Db) {
    DepartureRuns.NoAliasRows(d) && forall e :: e in d.edges ==> d.edges[e].producer == Graphify
  }

  /** ... is legal as soon as its pass is, and leaves what the pass makes of its commits. */
  lemma PlainIsLegal(db: Db, b: Build, extract: Extractor, p: PassInput, w: Db)
    requires Ready(db, b, extract) && b.f == DepartureRuns.Quiet(DepartureRuns.NoLinks(), p)
    requires var s := Processed(db, b, extract); s.work == w && p.seen == s.seen && p.changed == s.changed
    requires OnlyCode(w) && LegalInput(w, b.n, p)
    ensures LegalBuild(db, b, extract) && Built(db, b, extract) == InvalidationPass(w, b.n, p)
    ensures VanishedOf(db, b, extract) == Vanished(w, p.seen, p.startedAt) && LeftoversOf(db, b, extract) == Leftovers(w, b.n, p)
  {
    DepartureRuns.LinksNothing(w, b.n);
    assert DepartureRuns.NoLinks().producer == Linker;
    assert b.f.pass == p;
    hide *;
    OnlyCodeIs(w);
    DepartureRuns.QuietFinalize(w, DepartureRuns.NoLinks(), p, b.rules, b.n);
    BuildByParts(db, b, extract, w);
    LinksLeaveSources(db, b, extract);
    QuietLinks(w, p, b.n);
    SameWork(db, b, extract, w);
  }

  lemma OnlyCodeIs(w: Db)
    requires OnlyCode(w)
    ensures DepartureRuns.NoAliasRows(w)
  {}

  lemma BuildByParts(db: Db, b: Build, extract: Extractor, w: Db)
    requires Ready(db, b, extract)
    requires var s := Processed(db, b, extract); s.work == w && b.f.pass.seen == s.seen && b.f.pass.changed == s.changed
    requires LegalFinalize(w, b.f, b.rules, b.n)
    ensures LegalBuild(db, b, extract) && Built(db, b, extract) == Finalized(w, b.f, b.rules, b.n)
  {
    hide Ready, Processed, LegalFinalize, Finalized;
  }

  lemma QuietLinks(w: Db, p: PassInput, n: int)
    requires Linked(w, DepartureRuns.NoLinks(), n) == w && LegalBatch(w, DepartureRuns.NoLinks()) && DraftsExist(w, DepartureRuns.NoLinks())
    ensures var f := DepartureRuns.Quiet(DepartureRuns.NoLinks(), p);
      LegalLinks(w, f, n) && AfterLinks(w, f, n) == w && f.pass == p
  {
    hide Linked, LegalBatch, DraftsExist;
  }

  lemma SameWork(db: Db, b: Build, extract: Extractor, w: Db)
    requires LegalBuild(db, b, extract) && Processed(db, b, extract).work == w
    requires LegalLinks(w, b.f, b.n) && AfterLinks(w, b.f, b.n) == w
    ensures VanishedOf(db, b, extract) == Vanished(w, b.f.pass.seen, b.f.pass.startedAt)
    ensures LeftoversOf(db, b, extract) == Leftovers(w, b.n, b.f.pass)
  {
    hide LegalBuild, Processed, Vanished, Leftovers, AfterLinks, LegalLinks;
  }

  /** Documents alone. */
  lemma DocsAreReady(db: Db, b: Build, extract: Extractor)
    requires LegalListing(db, b.items, extract) && Prepared(db, b, extract)
    requires b.repos == [] && b.code == NoCode() && forall k :: 0 <= k < |b.items| ==> IsDocItem(db, b.items[k])
    ensures Ready(db, b, extract) && Processed(db, b, extract) == ProcessAll(db, b.items, extract, b.n, b.now)
  {
    var s := ProcessAll(db, b.items, extract, b.n, b.now);
    assert FilesOf([]) == [] && TreeOf(s.work, [], b.now) == NoCode();
    hide ProcessAll, LegalListing, Prepared;
    assert Grown(s, NoCode()) == s;
  }

  /** With nothing new to match, nothing is renamed and nothing left over. */
  lemma NoRenames(d: Db, n: int, p: PassInput)
    requires OnlyCode(d) && p.newOrder == [] && Enumerates(p.oldOrder, OldRows(d, Vanished(d, p.seen, p.startedAt)))
    requires forall a :: a in d.artifacts && d.artifacts[a].validFrom == n ==> d.artifacts[a].source in Vanished(d, p.seen, p.startedAt)
    ensures LegalInput(d, n, p) && Leftovers(d, n, p) == {}
  {
    hide Vanished, OldRows, DepartureRuns.NoAliasRows;
    assert PassRenames(d, n, p) == [];
    assert RenamedSources(d, []) == {};
  }

  /** With every source seen nothing vanishes. */
  lemma SeenPass(d: Db, n: int, p: PassInput)
    requires OnlyCode(d) && p.newOrder == [] && p.oldOrder == [] && forall s :: s in d.sources ==> s in p.seen
    ensures Vanished(d, p.seen, p.startedAt) == {} && LegalInput(d, n, p) && Leftovers(d, n, p) == {}
  {
    var none: set<SourceId> := {};
    assert Vanished(d, p.seen, p.startedAt) == none;
    assert OldRows(d, none) == {};
    assert NewRows(d, n, {}, none) == {};
    NothingVanished(d, n, p);
    hide Vanished;
    assert RenamedSources(d, []) == {};
  }

  // ------------------------------------------------------- a page, and its text under another source

  function Page(s: SourceId, text: string, id: ArtifactId): Item {
    Item(s, GithubDoc, "page.md", None, text, [], false, [id])
  }

  function PageSource(text: string, now: int): Source {
    Source(GithubDoc, "page.md", None, text, Some(now), now, false, [])
  }

  function PageRow(s: SourceId, text: string, n: int): Artifact {
    Artifact(Summary, s, Some("page"), Some(Text(text)), n, None, None, [])
  }

  function Wrote(rules: Rules): Build {
    Plain([Page(Src(1), "one", Art(1))], [], NoCode(), PassInput({Src(1)}, {Src(1)}, 0, [], []), rules, 1, 5)
  }

  function Page1(): Db {
    Db(map[Src(1) := PageSource("one", 5)], map[Art(1) := PageRow(Src(1), "one", 1)], map[], map["one" := [Art(1)]])
  }

  /** A build over one page processes this item. */
  lemma OneItem(db: Db, i: Item, extract: Extractor, n: int, now: int)
    requires |extract(i.text)| <= |i.ids|
    ensures EnoughIds([i], extract)
    ensures ProcessAll(db, [i], extract, n, now) == Process(Begin(db), i, extract, n, now)
    ensures FateAt(db, [i], extract, n, now, 0) == FateOf(Begin(db), i)
  {
    assert [i][..0] == [];
    assert ProcessAll(db, [], extract, n, now) == Begin(db);
  }

  lemma OneRow(s: SourceId, text: string, id: ArtifactId, n: int)
    ensures RowsFor(OnePage()(text), Page(s, text, id), n) == map[id := PageRow(s, text, n)]
  {
    var drafts := OnePage()(text);
    assert drafts[..0] == [] && RowsFor([], Page(s, text, id), n) == map[];
  }

  lemma PageListing(db: Db, s: SourceId, text: string, id: ArtifactId, n: int)
    requires id !in db.artifacts && (forall a :: a in db.artifacts ==> db.artifacts[a].validFrom < n) && !IsCode(db, s)
    ensures LegalListing(db, [Page(s, text, id)], OnePage()) && IsDocItem(db, Page(s, text, id))
    ensures forall t, d :: d in OnePage()(t) ==> d.kind != AliasReference
  {}

  lemma PageReady(db: Db, s: SourceId, text: string, id: ArtifactId, p: PassInput, rules: Rules, n: int, now: int)
    requires id !in db.artifacts && (forall a :: a in db.artifacts ==> db.artifacts[a].validFrom < n) && !IsCode(db, s)
    ensures var i := Page(s, text, id); var b := Plain([i], [], NoCode(), p, rules, n, now);
      && EnoughIds([i], OnePage())
      && Ready(db, b, OnePage()) && Processed(db, b, OnePage()) == Process(Begin(db), i, OnePage(), n, now)
      && FateAt(db, [i], OnePage(), n, now, 0) == FateOf(Begin(db), i)
      && b.items == [i] && b.n == n && b.now == now
  {
    var i := Page(s, text, id);
    var b := Plain([i], [], NoCode(), p, rules, n, now);
    PageListing(db, s, text, id, n);
    OneItem(db, i, OnePage(), n, now);
    assert Prepared(db, b, OnePage());
    hide LegalListing, Prepared, IsDocItem, Process, ProcessAll, FateAt, FateOf, OnePage;
    DocsAreReady(db, b, OnePage());
  }

  /** Writing a page whose text is not in the cache. */
  lemma PageWrites(db: Db, s: SourceId, text: string, id: ArtifactId, n: int, now: int)
    requires !Unchanged(db, Page(s, text, id)) && text !in db.generation
    ensures var i := Page(s, text, id);
      var d := Db(db.sources[s := Upserted(db, i, now)], db.artifacts + map[id := PageRow(s, text, n)], db.edges, db.generation[text := [id]]);
      Process(Begin(db), i, OnePage(), n, now) == Session(d, d, {s}, {s}, 0) && FateOf(Begin(db), i).Written?
  {
    OneRow(s, text, id, n);
    assert [id][..1] == [id] && |OnePage()(text)| == 1;
    hide RowsFor, Upserted;
  }

  lemma Written1()
    ensures Process(Begin(Empty()), Page(Src(1), "one", Art(1)), OnePage(), 1, 5) == Session(Page1(), Page1(), {Src(1)}, {Src(1)}, 0)
  {
    PageWrites(Empty(), Src(1), "one", Art(1), 1, 5);
    hide Process, FateOf;
    assert map[] + map[Art(1) := PageRow(Src(1), "one", 1)] == map[Art(1) := PageRow(Src(1), "one", 1)];
  }

  function Empty(): Db { Db(map[], map[], map[], map[]) }

  lemma Pass1()
    ensures var p := PassInput({Src(1)}, {Src(1)}, 0, [], []);
      && OnlyCode(Page1()) && Vanished(Page1(), p.seen, p.startedAt) == {} && LegalInput(Page1(), 1, p)
      && InvalidationPass(Page1(), 1, p) == Page1()
  {
    var p := PassInput({Src(1)}, {Src(1)}, 0, [], []);
    assert PriorGeneration(Page1(), 1, {Src(1)}) == {};
    SweepNothing(Page1(), 1);
    assert SupersessionSwept(Page1(), 1, {Src(1)}) == Page1();
    assert forall a :: !AclStale(Page1(), {Src(1)}, a);
    hide SupersessionSwept, AclStale, LegalInput, InvalidationPass, PriorGeneration;
    SeenPass(Page1(), 1, p);
    DepartureRuns.OnlySupersedes(Page1(), 1, p);
  }

  /** Build 1 writes the page. */
  lemma Build1(rules: Rules)
    ensures LegalBuild(Empty(), Wrote(rules), OnePage()) && Built(Empty(), Wrote(rules), OnePage()) == Page1()
    ensures VanishedOf(Empty(), Wrote(rules), OnePage()) == {}
    ensures Wrote(rules).n == 1 && Wrote(rules).rules == rules
    ensures |Wrote(rules).items| == 1 && Wrote(rules).items[0].source == Src(1)
    ensures EnoughIds(Wrote(rules).items, OnePage()) && FateAt(Empty(), Wrote(rules).items, OnePage(), 1, 5, 0).Written?
  {
    var b, p := Wrote(rules), PassInput({Src(1)}, {Src(1)}, 0, [], []);
    assert b == Plain([Page(Src(1), "one", Art(1))], [], NoCode(), p, rules, 1, 5);
    assert b.f == DepartureRuns.Quiet(DepartureRuns.NoLinks(), p) && b.rules == rules;
    assert FateOf(Begin(Empty()), Page(Src(1), "one", Art(1))).Written?;
    assert p.seen == {Src(1)} && p.changed == {Src(1)};
    assert Page(Src(1), "one", Art(1)).source == Src(1);
    assert Empty().artifacts == map[] && !IsCode(Empty(), Src(1));
    hide *;
    PageReady(Empty(), Src(1), "one", Art(1), p, rules, 1, 5);
    Written1();
    Pass1();
    PlainIsLegal(Empty(), b, OnePage(), p, Page1());
  }

  /** Build 2 lists the same text under another source; the first is no longer listed. */
  function Moves(rules: Rules): Build {
    Plain([Page(Src(2), "one", Art(2))], [], NoCode(), PassInput({Src(2)}, {Src(2)}, 10, [Art(1)], []), rules, 2, 15)
  }

  function Moved2(): Db {
    Db(map[Src(1) := PageSource("one", 5), Src(2) := PageSource("one", 15)], map[Art(1) := PageRow(Src(1), "one", 1)], map[], map["one" := [Art(1)]])
  }

  lemma Replayed2()
    ensures Process(Begin(Page1()), Page(Src(2), "one", Art(2)), OnePage(), 2, 15) == Session(Moved2(), Moved2(), {Src(2)}, {Src(2)}, 0)
  {
    assert Hit(Page1(), Page(Src(2), "one", Art(2)));
  }

  lemma Pass2()
    ensures var p := PassInput({Src(2)}, {Src(2)}, 10, [Art(1)], []);
      && OnlyCode(Moved2()) && Vanished(Moved2(), p.seen, p.startedAt) == {Src(1)} && LegalInput(Moved2(), 2, p)
      && Leftovers(Moved2(), 2, p) == {}
  {
    var p := PassInput({Src(2)}, {Src(2)}, 10, [Art(1)], []);
    assert Vanished(Moved2(), p.seen, p.startedAt) == {Src(1)};
    assert OldRows(Moved2(), {Src(1)}) == {Art(1)};
    hide LegalInput, Leftovers, Vanished;
    NoRenames(Moved2(), 2, p);
  }

  lemma Build2(rules: Rules)
    ensures var b := Moves(rules);
      && LegalBuild(Page1(), b, OnePage()) && VanishedOf(Page1(), b, OnePage()) == {Src(1)} && LeftoversOf(Page1(), b, OnePage()) == {}
      && b.n == 2 && b.rules == rules && b.items == [Page(Src(2), "one", Art(2))] && Unlisted(b, Src(1))
  {
    var b, p := Moves(rules), PassInput({Src(2)}, {Src(2)}, 10, [Art(1)], []);
    assert b == Plain([Page(Src(2), "one", Art(2))], [], NoCode(), p, rules, 2, 15);
    assert b.f == DepartureRuns.Quiet(DepartureRuns.NoLinks(), p) && b.rules == rules && Unlisted(b, Src(1));
    assert p.seen == {Src(2)} && p.changed == {Src(2)} && p.startedAt == 10;
    assert Art(2) !in Page1().artifacts && (forall a :: a in Page1().artifacts ==> Page1().artifacts[a].validFrom < 2) && !IsCode(Page1(), Src(2));
    hide *;
    PageReady(Page1(), Src(2), "one", Art(2), p, rules, 2, 15);
    Replayed2();
    Pass2();
    PlainIsLegal(Page1(), b, OnePage(), p, Moved2());
  }

  lemma TextIsCached()
    ensures var i := Page(Src(2), "one", Art(2));
      !Unchanged(Page1(), i) && !i.fails && Cached(i) && i.text in Page1().generation && i.source == Src(2)
    ensures IsDoc(Page1(), Src(1), Art(1))
  {}

  /** A run of two builds from the empty registry: a page is written, and its text moves to
      another source.  Then no source has any artifact. */
  lemma MovedPageIsLost(rules: Rules) returns (one: seq<Step>, two: seq<Step>)
    ensures var start := Machine(Empty(), 0, false);
      && LegalRun(start, one, rules) && LegalRun(start, two, rules)
      && Run(start, one, rules) == Machine(Page1(), 1, false) && IsDoc(Page1(), Src(1), Art(1))
      && (var end := Run(start, two, rules); end.build == 2 && !end.building && Bare(end.db, Src(1)) && Bare(end.db, Src(2)))
  {
    hide *;
    Build1(rules);
    Build2(rules);
    TextIsCached();
    one := BuildIsRun(Machine(Empty(), 0, false), Wrote(rules), OnePage());
    var more := BuildIsRun(Machine(Page1(), 1, false), Moves(rules), OnePage());
    RunsConcat(Machine(Empty(), 0, false), one, more, rules);
    two := one + more;
    NothingLeftBehind(Page1(), Moves(rules), OnePage(), Src(1));
    MovedTextIsLost(Page1(), Moves(rules), OnePage(), Src(1), 0);
  }

  lemma NothingLeftBehind(db: Db, b: Build, extract: Extractor, s: SourceId)
    requires LegalBuild(db, b, extract) && (LeftoversOf(db, b, extract) == {} || VanishedOf(db, b, extract) == {})
    ensures !LeavesBehind(db, b, extract, s)
  {
    hide LegalBuild, LeftoversOf, VanishedOf;
  }

  // ------------------------------------------------------- a page whose text changes

  function Changes(rules: Rules): Build {
    Plain([Page(Src(1), "two", Art(2))], [], NoCode(), PassInput({Src(1)}, {Src(1)}, 10, [], []), rules, 2, 15)
  }

  /** Both generations, and the new text on record. */
  function Page2(): Db {
    Db(map[Src(1) := PageSource("two", 15).(createdAt := 5)],
       map[Art(1) := PageRow(Src(1), "one", 1), Art(2) := PageRow(Src(1), "two", 2)], map[], map["one" := [Art(1)], "two" := [Art(2)]])
  }

  lemma OneTwo()
    ensures "one" != "two"
  {
    assert "one"[0] != "two"[0];
  }

  lemma Written2()
    ensures Process(Begin(Page1()), Page(Src(1), "two", Art(2)), OnePage(), 2, 15) == Session(Page2(), Page2(), {Src(1)}, {Src(1)}, 0)
    ensures FateOf(Begin(Page1()), Page(Src(1), "two", Art(2))).Written?
  {
    OneTwo();
    PageWrites(Page1(), Src(1), "two", Art(2), 2, 15);
    hide Process, FateOf;
    assert Page1().artifacts + map[Art(2) := PageRow(Src(1), "two", 2)] == Page2().artifacts;
  }

  lemma OnlyPages()
    ensures OnlyCode(Page2()) && forall s :: s in Page2().sources ==> s == Src(1)
  {}

  lemma ChangesIs(rules: Rules)
    ensures var b, p := Changes(rules), PassInput({Src(1)}, {Src(1)}, 10, [], []);
      && b == Plain([Page(Src(1), "two", Art(2))], [], NoCode(), p, rules, 2, 15)
      && b.f == DepartureRuns.Quiet(DepartureRuns.NoLinks(), p) && b.rules == rules
      && p.seen == {Src(1)} && p.changed == {Src(1)} && p.startedAt == 10 && p.oldOrder == [] && p.newOrder == []
      && Page(Src(1), "two", Art(2)).source == Src(1) && Page(Src(1), "two", Art(2)).text == "two"
      && Art(2) !in Page1().artifacts && (forall a :: a in Page1().artifacts ==> Page1().artifacts[a].validFrom < 2) && !IsCode(Page1(), Src(1))
  {}

  lemma ChangeIsReady(rules: Rules)
    ensures var b := Changes(rules);
      && Ready(Page1(), b, OnePage()) && Processed(Page1(), b, OnePage()) == Session(Page2(), Page2(), {Src(1)}, {Src(1)}, 0)
      && b.n == 2 && b.now == 15 && b.rules == rules && b.items == [Page(Src(1), "two", Art(2))]
      && EnoughIds(b.items, OnePage()) && FateAt(Page1(), b.items, OnePage(), 2, 15, 0).Written?
  {
    hide *;
    ChangesIs(rules);
    PageReady(Page1(), Src(1), "two", Art(2), PassInput({Src(1)}, {Src(1)}, 10, [], []), rules, 2, 15);
    Written2();
  }

  lemma Build2Changes(rules: Rules)
    ensures LegalBuild(Page1(), Changes(rules), OnePage()) && VanishedOf(Page1(), Changes(rules), OnePage()) == {}
  {
    hide *;
    var p := PassInput({Src(1)}, {Src(1)}, 10, [], []);
    ChangesIs(rules);
    ChangeIsReady(rules);
    OnlyPages();
    SeenPass(Page2(), 2, p);
    PlainIsLegal(Page1(), Changes(rules), OnePage(), p, Page2());
  }

  /** A build that writes its one page and loses sight of nothing is faultless. */
  lemma PageIsFaultless(db: Db, b: Build)
    requires LegalBuild(db, b, OnePage()) && VanishedOf(db, b, OnePage()) == {} && |b.items| == 1
    requires EnoughIds(b.items, OnePage()) && FateAt(db, b.items, OnePage(), b.n, b.now, 0).Written?
    requires forall s :: s in db.sources ==> s == b.items[0].source
    ensures Faultless(db, b, OnePage())
  {
    hide LegalBuild, VanishedOf, FateAt, OnePage, EnoughIds, LeavesBehind;
    forall s | Unlisted(b, s) ensures SourceFine(db, b, OnePage(), s) {
      NothingLeftBehind(db, b, OnePage(), s);
      assert b.items[0].source != s;
    }
  }

  lemma OneSource()
    ensures (forall s :: s in Empty().sources ==> s == Src(1)) && forall s :: s in Page1().sources ==> s == Src(1)
    ensures OnePage()("two") == [Draft(Summary, Some("page"), Some(Text("two")))]
  {}

  lemma PagesAreProductive()
    ensures Productive(OnePage()) && Clean(Empty(), OnePage())
  {}

  lemma HistoryGrows(db: Db, bs: seq<Build>, b: Build, extract: Extractor)
    requires History(db, bs, extract) && LegalBuild(After(db, bs, extract), b, extract)
    requires Faultless(After(db, bs, extract), b, extract)
    ensures History(db, bs + [b], extract) && After(db, bs + [b], extract) == Built(After(db, bs, extract), b, extract)
  {
    assert (bs + [b])[..|bs|] == bs && (bs + [b])[|bs|] == b;
    hide LegalBuild, Built, Faultless;
  }

  lemma NoHistory(db: Db, extract: Extractor)
    ensures History(db, [], extract) && After(db, [], extract) == db
  {}

  /** A page is written and then its text changes: a faultless history, after which the
      page has exactly the extraction of the new text. */
  lemma ChangedPageIsUpToDate(rules: Rules)
    ensures var bs := [Wrote(rules), Changes(rules)];
      && History(Empty(), bs, OnePage()) && UpToDate(After(Empty(), bs, OnePage()), Changes(rules), OnePage())
      && Holds(After(Empty(), bs, OnePage()), Src(1), OnePage()("two"))
  {
    hide *;
    Build1(rules);
    Build2Changes(rules);
    ChangesIs(rules);
    ChangeIsReady(rules);
    OneSource();
    NoHistory(Empty(), OnePage());
    WroteAt(rules);
    PageIsFaultless(Empty(), Wrote(rules));
    HistoryGrows(Empty(), [], Wrote(rules), OnePage());
    assert [] + [Wrote(rules)] == [Wrote(rules)];
    PageIsFaultless(Page1(), Changes(rules));
    HistoryGrows(Empty(), [Wrote(rules)], Changes(rules), OnePage());
    assert [Wrote(rules)] + [Changes(rules)] == [Wrote(rules), Changes(rules)];
    PagesAreProductive();
    HistoryUpToDate(Empty(), [Wrote(rules), Changes(rules)], OnePage());
    ListedIsUpToDate(After(Empty(), [Wrote(rules), Changes(rules)], OnePage()), Changes(rules), OnePage());
  }

  lemma WroteAt(rules: Rules)
    ensures Wrote(rules).now == 5
  {}

  lemma ListedIsUpToDate(db: Db, b: Build, extract: Extractor)
    requires UpToDate(db, b, extract) && |b.items| > 0
    ensures Holds(db, b.items[0].source, extract(b.items[0].text))
  {
    hide Holds, Bare, Unlisted;
  }

  // ------------------------------------------------------- ... and the build crashes

  /** Build 3 lists the text build 2 had committed before it crashed. */
  function Again(rules: Rules): Build {
    Plain([Page(Src(1), "two", Art(3))], [], NoCode(), PassInput({Src(1)}, {}, 20, [], []), rules, 3, 25)
  }

  lemma Touched3()
    ensures var s := Process(Begin(Page2()), Page(Src(1), "two", Art(3)), OnePage(), 3, 25);
      && s.seen == {Src(1)} && s.changed == {} && OnlyCode(s.work) && (forall x :: x in s.work.sources ==> x == Src(1))
  {
    assert Unchanged(Page2(), Page(Src(1), "two", Art(3)));
  }

  lemma AgainIs(rules: Rules)
    ensures var b, p := Again(rules), PassInput({Src(1)}, {}, 20, [], []);
      && b == Plain([Page(Src(1), "two", Art(3))], [], NoCode(), p, rules, 3, 25)
      && b.f == DepartureRuns.Quiet(DepartureRuns.NoLinks(), p) && b.n == 3 && b.rules == rules
      && p.seen == {Src(1)} && p.changed == {} && p.oldOrder == [] && p.newOrder == []
      && Page(Src(1), "two", Art(3)).source == Src(1) && Page(Src(1), "two", Art(3)).text == "two"
      && Art(3) !in Page2().artifacts && (forall a :: a in Page2().artifacts ==> Page2().artifacts[a].validFrom < 3) && !IsCode(Page2(), Src(1))
  {}

  lemma PageHasId(text: string, id: ArtifactId)
    ensures |OnePage()(text)| <= |Page(Src(1), text, id).ids| && Page(Src(1), text, id).text == text
  {}

  lemma Build3(rules: Rules)
    ensures var b := Again(rules);
      LegalBuild(Page2(), b, OnePage()) && b.n == 3 && b.rules == rules && b.items == [Page(Src(1), "two", Art(3))]
  {
    hide *;
    var p := PassInput({Src(1)}, {}, 20, [], []);
    AgainIs(rules);
    PageReady(Page2(), Src(1), "two", Art(3), p, rules, 3, 25);
    Touched3();
    PageHasId("two", Art(3));
    var w := Process(Begin(Page2()), Page(Src(1), "two", Art(3)), OnePage(), 3, 25).work;
    SeenPass(w, 3, p);
    PlainIsLegal(Page2(), Again(rules), OnePage(), p, w);
  }

  lemma CrashedIs(rules: Rules)
    requires EnoughIds(Changes(rules).items, OnePage())
    requires Processed(Page1(), Changes(rules), OnePage()) == Session(Page2(), Page2(), {Src(1)}, {Src(1)}, 0)
    ensures Crashed(Page1(), Changes(rules), OnePage()) == Page2()
  {
    hide Processed, Changes, Page1, Page2, OnePage;
  }

  lemma BothAreThere()
    ensures IsDoc(Page2(), Src(1), Art(1)) && IsDoc(Page2(), Src(1), Art(2)) && !Bare(Page1(), Src(1))
  {
    TextIsCached();
  }

  lemma StillThere(c: Db, fin: Db, s: SourceId, a: ArtifactId)
    requires SameDocs(c, fin, s) && IsDoc(c, s, a)
    ensures IsDoc(fin, s, a)
  {}

  /** A run of three builds from the empty registry: a page is written; its text changes,
      and the build crashes after committing it; the next build lists the same text.  The
      page ends with both generations live, which is not the extraction of its text. */
  lemma CrashedPageIsDoubled(rules: Rules) returns (steps: seq<Step>)
    ensures var start := Machine(Empty(), 0, false);
      && LegalRun(start, steps, rules)
      && (var end := Run(start, steps, rules);
          end.build == 3 && !end.building && IsDoc(end.db, Src(1), Art(1)) && IsDoc(end.db, Src(1), Art(2)) &&
          !Holds(end.db, Src(1), OnePage()("two")))
  {
    hide *;
    Build1(rules);
    ChangesIs(rules);
    AgainIs(rules);
    ChangeIsReady(rules);
    CrashedIs(rules);
    Build3(rules);
    BothAreThere();
    var start, mid, crashed := Machine(Empty(), 0, false), Machine(Page1(), 1, false), Machine(Page2(), 2, false);
    var one := BuildIsRun(start, Wrote(rules), OnePage());
    var two := CrashIsRun(mid, Changes(rules), OnePage());
    RunsConcat(start, one, two, rules);
    var three := BuildIsRun(crashed, Again(rules), OnePage());
    RunsConcat(start, one + two, three, rules);
    steps := one + two + three;
    CrashRepairedIff(Page1(), Changes(rules), Again(rules), OnePage(), 0, 0);
    AgainKeeps(rules);
    StillThere(Page2(), Built(Page2(), Again(rules), OnePage()), Src(1), Art(1));
    StillThere(Page2(), Built(Page2(), Again(rules), OnePage()), Src(1), Art(2));
  }

  lemma AgainKeeps(rules: Rules)
    requires LegalBuild(Page2(), Again(rules), OnePage())
    ensures SameDocs(Page2(), Built(Page2(), Again(rules), OnePage()), Src(1))
  {
    hide *;
    AgainIs(rules);
    Build3(rules);
    AgainUnchanged();
    TouchedIsUnchanged(Page2(), Again(rules), OnePage(), 0);
    BuildIs(Page2(), Again(rules), OnePage());
    ListingHasIds(Page2(), Again(rules).items, OnePage());
    KeptOutcome(Page2(), Again(rules), OnePage(), 0);
  }

  lemma AgainUnchanged()
    ensures Unchanged(Page2(), Page(Src(1), "two", Art(3)))
  {}

  // ------------------------------------------------------- a code tree that fails

  function File(s: SourceId, path: string, text: string): Item {
    Item(s, GithubCode, path, Some(path), text, [], false, [])
  }

  function FileSource(path: string, text: string): Source {
    Source(GithubCode, path, Some(path), text, Some(5), 5, false, [])
  }

  function FileArtifact(s: SourceId, text: string): Artifact {
    Artifact(CodeFile, s, Some("file"), Some(Text(text)), 1, None, None, [])
  }

  function Tree1(): Repo {
    Repo([File(Src(1), "a.py", "one"), File(Src(2), "b.py", "two")], false,
         map[Art(1) := FileArtifact(Src(1), "one"), Art(2) := FileArtifact(Src(2), "two")], map[])
  }

  function Code1(): Db {
    Db(map[Src(1) := FileSource("a.py", "one"), Src(2) := FileSource("b.py", "two")], Tree1().artifacts, map[], map[])
  }

  function CodeOf1(): CodeTree { CodeTree(Code1().sources, {Src(1), Src(2)}, Code1().artifacts, map[], true, 0) }

  function Graphs(rules: Rules): Build {
    Plain([], [Tree1()], CodeOf1(), PassInput({Src(1), Src(2)}, {Src(1), Src(2)}, 0, [], []), rules, 1, 5)
  }

  /** Build 2 finds one file changed, and graphify raises on the tree. */
  function Tree2(): Repo {
    Repo([File(Src(1), "a.py", "new"), File(Src(2), "b.py", "two")], true, map[], map[])
  }

  function CodeOf2(): CodeTree { CodeTree(map[], {}, map[], map[], true, 1) }

  function Breaks(rules: Rules): Build {
    Plain([], [Tree2()], CodeOf2(), PassInput({}, {}, 10, [Art(1), Art(2)], []), rules, 2, 15)
  }

  lemma OneRepo(r: Repo)
    ensures FilesOf([r]) == r.files && Graphified([r]) == (if r.fails then [] else [r])
    ensures ArtifactsOf([r]) == r.artifacts && EdgesOf([r]) == r.edges && Failures([r]) == if r.fails then 1 else 0
    ensures FilesOf([]) == [] && ArtifactsOf([]) == map[] && EdgesOf([]) == map[]
  {
    assert [r][..0] == [];
    assert FilesOf([]) == [] && Graphified([]) == [] && ArtifactsOf([]) == map[] && EdgesOf([]) == map[];
    assert map[] + r.artifacts == r.artifacts && map[] + r.edges == r.edges;
  }

  lemma TwoRows(db: Db, f: Item, g: Item, now: int)
    ensures FileRows(db, [f, g], now) == map[f.source := FileRow(db, f, now)][g.source := FileRow(db, g, now)]
  {
    assert [f, g][..1] == [f] && [f][..0] == [];
    assert FileRows(db, [], now) == map[];
    hide FileRow;
    assert FileRows(db, [f], now) == map[f.source := FileRow(db, f, now)];
  }

  lemma Trees1()
    ensures TreeOf(Empty(), [Tree1()], 5) == CodeOf1()
  {
    OneRepo(Tree1());
    Rows1();
    Changed1();
    hide FilesOf, Graphified, ArtifactsOf, EdgesOf, FileRows, Unchanged, Empty;
    assert CodeOf1().sources.Keys == {Src(1), Src(2)};
  }

  lemma Rows1()
    ensures FileRows(Empty(), Tree1().files, 5) == CodeOf1().sources
  {
    var f, g := Tree1().files[0], Tree1().files[1];
    assert Tree1().files == [f, g];
    TwoRows(Empty(), f, g, 5);
    hide FileRows;
    assert FileRow(Empty(), f, 5) == FileSource("a.py", "one") && FileRow(Empty(), g, 5) == FileSource("b.py", "two");
  }

  lemma Changed1()
    ensures Tree1().files[0] in Tree1().files && !Unchanged(Empty(), Tree1().files[0])
  {}

  lemma Trees2()
    ensures TreeOf(Code1(), [Tree2()], 15) == CodeOf2() && AnyChanged(Code1(), [Tree2()])
  {
    var f := Tree2().files[0];
    OneRepo(Tree2());
    assert "new"[0] != "one"[0];
    assert f in Tree2().files && !Unchanged(Code1(), f);
    assert FileRows(Code1(), [], 15) == map[];
    hide FilesOf, Graphified, ArtifactsOf, EdgesOf, FileRows;
  }

  lemma FilesAreApart()
    ensures FilesApart(Empty(), [], FilesOf([Tree1()])) && FilesApart(Code1(), [], FilesOf([Tree2()]))
    ensures FilesOf([Tree2()]) == Tree2().files
  {
    OneRepo(Tree1());
    OneRepo(Tree2());
    hide FilesOf;
  }

  lemma GraphsAreNew()
    ensures GraphIsNew(Empty(), CodeOf1(), 1) && GraphIsNew(Code1(), CodeOf2(), 2)
  {}

  /** Code alone. */
  lemma CodeIsReady(db: Db, b: Build)
    requires b.items == [] && FilesApart(db, [], FilesOf(b.repos)) && b.code == TreeOf(db, b.repos, b.now) && GraphIsNew(db, b.code, b.n)
    requires forall a :: a in db.artifacts ==> db.artifacts[a].validFrom < b.n
    ensures Ready(db, b, OnePage()) && Processed(db, b, OnePage()) == Grown(Begin(db), b.code)
  {
    assert ProcessAll(db, [], OnePage(), b.n, b.now) == Begin(db);
    assert LegalListing(db, [], OnePage()) && Prepared(db, b, OnePage());
    hide ProcessAll, LegalListing, Prepared, FilesApart, FilesOf, TreeOf, GraphIsNew, Grown;
    TreeIsLegal(db, db, [], b.repos, b.n, b.now);
  }

  lemma CodePass1()
    ensures var p := PassInput({Src(1), Src(2)}, {Src(1), Src(2)}, 0, [], []);
      OnlyCode(Code1()) && LegalInput(Code1(), 1, p) && InvalidationPass(Code1(), 1, p) == Code1()
  {
    CodeIsCurrent();
    hide *;
    DepartureRuns.IdlePass(Code1(), 1, {Src(1), Src(2)});
    AllSeenIs();
  }

  lemma AllSeenIs()
    ensures DepartureRuns.AllSeen({Src(1), Src(2)}) == PassInput({Src(1), Src(2)}, {Src(1), Src(2)}, 0, [], [])
  {}

  lemma CodeIsCurrent()
    ensures OnlyCode(Code1()) && (forall s :: s in Code1().sources ==> s in {Src(1), Src(2)})
    ensures forall a :: !AclStale(Code1(), {Src(1), Src(2)}, a)
    ensures PriorGeneration(Code1(), 1, {Src(1), Src(2)}) == {}
  {}

  lemma GraphsIs(rules: Rules)
    ensures var b, p := Graphs(rules), PassInput({Src(1), Src(2)}, {Src(1), Src(2)}, 0, [], []);
      && b.items == [] && b.repos == [Tree1()] && b.code == CodeOf1() && b.n == 1 && b.now == 5 && b.rules == rules
      && b.f == DepartureRuns.Quiet(DepartureRuns.NoLinks(), p)
      && p.seen == {Src(1), Src(2)} && p.changed == {Src(1), Src(2)}
      && (forall a :: a in Empty().artifacts ==> Empty().artifacts[a].validFrom < 1)
  {}

  lemma BreaksIs(rules: Rules)
    ensures var b, p := Breaks(rules), PassInput({}, {}, 10, [Art(1), Art(2)], []);
      && b.items == [] && b.repos == [Tree2()] && b.code == CodeOf2() && b.n == 2 && b.now == 15 && b.rules == rules
      && b.f == DepartureRuns.Quiet(DepartureRuns.NoLinks(), p) && b.f.pass == p
      && p.seen == {} && p.changed == {} && p.startedAt == 10
      && (forall a :: a in Code1().artifacts ==> Code1().artifacts[a].validFrom < 2)
  {}

  lemma GrownTrees()
    ensures var s := Grown(Begin(Empty()), CodeOf1()); s.work == Code1() && s.seen == {Src(1), Src(2)} && s.changed == {Src(1), Src(2)}
    ensures var s := Grown(Begin(Code1()), CodeOf2()); s.work == Code1() && s.seen == {} && s.changed == {}
  {
    assert Code1().sources.Keys == {Src(1), Src(2)};
  }

  lemma CodeBuild1(rules: Rules)
    ensures LegalBuild(Empty(), Graphs(rules), OnePage()) && Built(Empty(), Graphs(rules), OnePage()) == Code1()
  {
    hide *;
    GraphsIs(rules);
    Trees1();
    FilesAreApart();
    GraphsAreNew();
    CodeIsReady(Empty(), Graphs(rules));
    GrownTrees();
    CodePass1();
    PlainIsLegal(Empty(), Graphs(rules), OnePage(), PassInput({Src(1), Src(2)}, {Src(1), Src(2)}, 0, [], []), Code1());
  }

  lemma CodePass2()
    ensures var p := PassInput({}, {}, 10, [Art(1), Art(2)], []);
      OnlyCode(Code1()) && Vanished(Code1(), {}, 10) == {Src(1), Src(2)} && LegalInput(Code1(), 2, p) && Leftovers(Code1(), 2, p) == {}
  {
    var p := PassInput({}, {}, 10, [Art(1), Art(2)], []);
    assert Vanished(Code1(), {}, 10) == {Src(1), Src(2)};
    assert OldRows(Code1(), {Src(1), Src(2)}) == {Art(1), Art(2)};
    hide LegalInput, Leftovers, Vanished;
    NoRenames(Code1(), 2, p);
  }

  lemma CodeBuild2(rules: Rules)
    ensures LegalBuild(Code1(), Breaks(rules), OnePage()) && LeftoversOf(Code1(), Breaks(rules), OnePage()) == {}
    ensures VanishedOf(Code1(), Breaks(rules), OnePage()) == {Src(1), Src(2)}
  {
    hide *;
    BreaksIs(rules);
    Trees2();
    FilesAreApart();
    GraphsAreNew();
    CodeIsReady(Code1(), Breaks(rules));
    GrownTrees();
    CodePass2();
    PlainIsLegal(Code1(), Breaks(rules), OnePage(), PassInput({}, {}, 10, [Art(1), Art(2)], []), Code1());
  }

  lemma FilesWereThere()
    ensures var f, g := Tree2().files[0], Tree2().files[1];
      && f in Tree2().files && g in Tree2().files && Tree2().fails && f.source == Src(1) && g.source == Src(2)
    ensures forall s :: s in {Src(1), Src(2)} ==> s in Code1().sources && !Code1().sources[s].isDeleted && Code1().sources[s].LastRecorded() < 10
    ensures Unchanged(Code1(), Tree2().files[1])
    ensures IsDoc(Code1(), Src(1), Art(1)) && IsDoc(Code1(), Src(2), Art(2))
  {}

  lemma FailedFileIsBare(db: Db, b: Build, extract: Extractor, r: nat, f: Item)
    requires LegalBuild(db, b, extract) && AnyChanged(db, b.repos) && LeftoversOf(db, b, extract) == {}
    requires r < |b.repos| && b.repos[r].fails && f in b.repos[r].files && f.source in VanishedOf(db, b, extract)
    ensures Bare(Built(db, b, extract), f.source)
  {
    BuildIs(db, b, extract);
    hide *;
    FailedFileIsUnlisted(db, b, extract, r, f);
    UnlistedOutcome(db, b, extract, f.source);
    BareIffNothingLeft(db, Built(db, b, extract), f.source, LeftoversOf(db, b, extract));
  }

  /** A run of two builds from the empty registry: a tree of two files, and then a change of
      one of them on which graphify raises.  Both files were listed, and the other had not
      even changed; both end deleted, with no artifact left. */
  lemma FailedTreeIsDeleted(rules: Rules) returns (one: seq<Step>, two: seq<Step>)
    ensures var start := Machine(Empty(), 0, false);
      && LegalRun(start, one, rules) && LegalRun(start, two, rules)
      && Run(start, one, rules) == Machine(Code1(), 1, false) && IsDoc(Code1(), Src(1), Art(1)) && IsDoc(Code1(), Src(2), Art(2))
      && (var end := Run(start, two, rules);
          end.build == 2 && !end.building &&
          forall s :: s in {Src(1), Src(2)} ==> s in end.db.sources && end.db.sources[s].isDeleted && Bare(end.db, s))
    ensures Unchanged(Code1(), Tree2().files[1]) && Tree2().files[1].source == Src(2)
  {
    hide *;
    CodeBuild1(rules);
    CodeBuild2(rules);
    GraphsIs(rules);
    BreaksIs(rules);
    one := BuildIsRun(Machine(Empty(), 0, false), Graphs(rules), OnePage());
    var more := BuildIsRun(Machine(Code1(), 1, false), Breaks(rules), OnePage());
    RunsConcat(Machine(Empty(), 0, false), one, more, rules);
    two := one + more;
    FilesWereThere();
    Trees2();
    FailedTreeDeletedIff(Code1(), Breaks(rules), OnePage(), 0, Tree2().files[0]);
    FailedTreeDeletedIff(Code1(), Breaks(rules), OnePage(), 0, Tree2().files[1]);
    FailedFileIsBare(Code1(), Breaks(rules), OnePage(), 0, Tree2().files[0]);
    FailedFileIsBare(Code1(), Breaks(rules), OnePage(), 0, Tree2().files[1]);
  }
}
