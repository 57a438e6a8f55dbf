/** Runs of the engine, from the empty registry, on which a build departs from what its
    comments promise. */
module DepartureRuns {
  import opened Prelude
  import opened Registry
  import opened Invalidation
  import opened PassProperties
  import opened LinkEdges
  import opened AliasReplay
  import opened AliasIndex
  import opened AliasOutcome
  import opened AliasLedger
  import opened BuildMachine
  import opened FinalizeKeys
  import opened Engine
  import opened DocumentRuns
  import opened GhostRuns
  import opened BuildRuns
  import opened AliasFate
  import R = AliasRows
  import E = AliasEdges
  import G = AliasAggregates

  // ------------------------------------------------------- finalizes with idle alias passes

  /** A finalize without a judge, without live sources to mine and without misses. */
  function Quiet(linker: LinkBatch, pass: PassInput): FinalizeInput {
    FinalizeInput(linker, None, pass, AliasInput([], map[]), AliasChoice([], [], [], [], [], [], []), [], [], [])
  }

  /** No alias row and no alias edge. */
  ghost predicate NoAliasRows(db: Db) {
    && (forall a :: a in db.artifacts ==> db.artifacts[a].kind != AliasReference)
    && (forall e :: e in db.edges ==> db.edges[e].producer != AliasMiner)
  }

  /** With nothing mined, the alias stage leaves ledger rows and other rows as they are. */
  lemma IdleAlias(db: Db, order: seq<ArtifactId>, titles: seq<string>, rules: Rules, n: int)
    requires ListsAliases(db.artifacts, order, n) && R.OneLivePerTitle(db.artifacts)
    requires forall a :: a in db.artifacts && Loadable(db.artifacts[a], n) ==> R.LedgerOwned(db.artifacts[a])
    requires ListsTitles(Prior(db.artifacts, ByTitle(db.artifacts, order)), titles)
    requires forall e :: e in db.edges ==> db.edges[e].producer != AliasMiner
    ensures var i, c := AliasInput([], map[]), AliasChoice(order, titles, [], [], [], [], []);
      LegalChoice(db, i, c, rules, n) && AliasStage(db, i, c, rules, n) == db
  {
    var i, c := AliasInput([], map[]), AliasChoice(order, titles, [], [], [], [], []);
    var rows, byTitle := db.artifacts, ByTitle(db.artifacts, order);
    NothingToDedupe(rows, order, n);
    var cs := StageContributions(rows, i, c, rules, n);
    assert cs == [];
    NothingDesired(i, c, rules);
    NoEdgesWanted(db.edges, n);
    NothingSwept(rows, byTitle, order, n);
    hide ByTitle, Deduped, E.LegalEdges, E.Reconciled, R.Reconciled, StageContributions, StageRows, StageEdges, ListsAliases, ListsTitles, Prior;
    assert R.AliasIds(byTitle, [], []) == map[];
    assert LegalChoice(db, i, c, rules, n);
  }

  lemma NothingDesired(i: AliasInput, c: AliasChoice, rules: Rules)
    requires c.phraseOrder == []
    ensures StageRows(i, [], c, rules) == [] && LegalPhrases([], []) && StageEdges(i, [], c, rules, map[]) == map[]
  {
    assert G.PhrasesOf([]) == {};
  }

  lemma NoEdgesWanted(edges: E.Edges, n: int)
    requires forall e :: e in edges ==> edges[e].producer != AliasMiner
    ensures E.LegalEdges(edges, map[], [], [], [], n) && E.Reconciled(edges, map[], [], [], [], n) == edges
  {
    assert E.SetOf([]) == {};
  }

  lemma NothingSwept(rows: R.Rows, byTitle: map<string, ArtifactId>, order: seq<ArtifactId>, n: int)
    requires ListsAliases(rows, order, n) && byTitle == ByTitle(rows, order)
    requires forall a :: a in rows && Loadable(rows[a], n) ==> R.LedgerOwned(rows[a])
    ensures R.Reconciled(rows, byTitle, [], [], true, n) == rows
  {
    forall a | a in rows ensures !R.Unwanted(a, rows[a], byTitle, {}, true) {
      if R.Indexed(a, rows[a], byTitle) { IndexIsLoadable(rows, order, n, rows[a].title.value); }
    }
    assert R.Titles([]) == {};
    assert R.UpsertAll(rows, byTitle, [], [], n) == rows;
  }

  lemma NoLedgerRows(rows: R.Rows, n: int)
    requires forall a :: a in rows ==> rows[a].kind != AliasReference
    ensures LegalLedger(rows, [], [], []) && LedgerRows(rows, [], [], [], n) == rows
  {
    var p := LoadState(rows, []);
    assert p == PriorState({}, map[]);
    assert PlanOf(p, [], []) == Plan([], []);
    assert R.Titles([]) == {};
    forall a | a in rows ensures !R.Unwanted(a, rows[a], map[], {}, false) {}
    assert R.UpsertAll(rows, map[], [], [], n) == rows;
  }

  lemma LinkedAddsNoAlias(db: Db, l: LinkBatch, n: int)
    requires NoAliasRows(db) && LegalBatch(db, l) && l.producer == Linker
    ensures NoAliasRows(Linked(db, l, n))
  {
    var d := Linked(db, l, n);
    LinkedStamps(db, l, n);
    forall e | e in d.edges ensures d.edges[e].producer != AliasMiner {
      if e in db.edges { LinkEdges.LinkedRow(db, l, n, e); } else { LinkedInsert(db, l, n, e); }
    }
  }

  lemma PassAddsNoAlias(db: Db, n: int, i: PassInput)
    requires NoAliasRows(db) && LegalInput(db, n, i)
    ensures NoAliasRows(InvalidationPass(db, n, i))
  {
    PassApplies(db, n, i);
    hide *;
    EffectAddsNoAlias(db, n, EffectOf(db, n, i), InvalidationPass(db, n, i));
  }

  lemma EffectAddsNoAlias(db: Db, n: int, x: Effect, d: Db)
    requires NoAliasRows(db) && Applied(db, n, x, d)
    ensures NoAliasRows(d)
  {
    forall a | a in d.artifacts ensures d.artifacts[a].kind != AliasReference {
      assert RowAfter(db.artifacts[a], d.artifacts[a], a in x.Retired(), n);
    }
  }

  /** Then a finalize is its linker and its pass. */
  lemma QuietFinalize(db: Db, l: LinkBatch, p: PassInput, rules: Rules, n: int)
    requires NoAliasRows(db) && LegalBatch(db, l) && l.producer == Linker && DraftsExist(db, l)
    requires LegalInput(Linked(db, l, n), n, p)
    ensures LegalFinalize(db, Quiet(l, p), rules, n)
    ensures Finalized(db, Quiet(l, p), rules, n) == InvalidationPass(Linked(db, l, n), n, p)
    ensures NoAliasRows(Finalized(db, Quiet(l, p), rules, n))
  {
    var b := Linked(db, l, n);
    var c := InvalidationPass(b, n, p);
    LinkedAddsNoAlias(db, l, n);
    PassAddsNoAlias(b, n, p);
    assert ByTitle(c.artifacts, []) == map[];
    IdleAlias(c, [], [], rules, n);
    NoLedgerRows(c.artifacts, n);
    hide Linked, InvalidationPass, AliasStage, LegalChoice, LedgerRows, LegalLedger, LegalInput, NoAliasRows, LegalBatch, DraftsExist, ByTitle;
    var f := Quiet(l, p);
    assert AfterLinks(db, f, n) == b && AfterPass(db, f, n) == c;
    assert AfterAlias(db, f, rules, n) == c;
    assert Finalized(db, f, rules, n) == c;
  }

  /** ... and one whose renames clash raises. */
  lemma QuietRaises(db: Db, l: LinkBatch, p: PassInput, rules: Rules, n: int)
    requires LegalBatch(db, l) && l.producer == Linker && DraftsExist(db, l)
    requires PassOrders(Linked(db, l, n), n, p) && PassClashes(Linked(db, l, n), n, p)
    ensures LegalAttempt(db, Quiet(l, p), rules, n) && Raises(db, Quiet(l, p), n)
  {
    hide Linked, LegalFinalize, PassOrders, PassClashes, LegalBatch, DraftsExist;
  }

  // ------------------------------------------------------- one more build

  function Committed(db: Db, rows: map<SourceId, Source>, artifacts: map<ArtifactId, Artifact>, edges: map<EdgeId, Edge>): Db {
    Db(db.sources + rows, db.artifacts + artifacts, db.edges + edges, db.generation + map[])
  }

  ghost predicate CanLink(c: Db, l: LinkBatch) {
    NoAliasRows(c) && LegalBatch(c, l) && l.producer == Linker && DraftsExist(c, l)
  }

  /** A commit and a quiet finalize that runs to its end. */
  ghost predicate CanBuild(db: Db, n: int, rows: map<SourceId, Source>, artifacts: map<ArtifactId, Artifact>,
                           edges: map<EdgeId, Edge>, l: LinkBatch, p: PassInput)
  {
    LegalCommit(db, n, rows, artifacts, edges) && CanLink(Committed(db, rows, artifacts, edges), l) &&
    LegalInput(Linked(Committed(db, rows, artifacts, edges), l, n), n, p)
  }

  function Outcome(db: Db, n: int, rows: map<SourceId, Source>, artifacts: map<ArtifactId, Artifact>,
                   edges: map<EdgeId, Edge>, l: LinkBatch, p: PassInput): Db
    requires |l.ids| == |l.drafts|
  {
    InvalidationPass(Linked(Committed(db, rows, artifacts, edges), l, n), n, p)
  }

  lemma BuildFrom(db: Db, n: int, rows: map<SourceId, Source>, artifacts: map<ArtifactId, Artifact>, edges: map<EdgeId, Edge>,
                  l: LinkBatch, p: PassInput, linked: Db, out: Db)
    requires LegalCommit(db, n, rows, artifacts, edges) && CanLink(Committed(db, rows, artifacts, edges), l)
    requires |l.ids| == |l.drafts| && Linked(Committed(db, rows, artifacts, edges), l, n) == linked
    requires LegalInput(linked, n, p) && InvalidationPass(linked, n, p) == out
    ensures CanBuild(db, n, rows, artifacts, edges, l, p) && Outcome(db, n, rows, artifacts, edges, l, p) == out
  {
    hide LegalCommit, CanLink, Linked, LegalInput, InvalidationPass, Committed;
  }

  /** Start, one commit, and a quiet finalize that runs to its end. */
  lemma QuietBuild(m: Machine, steps: seq<Step>, db: Db, k: int, n: int, rows: map<SourceId, Source>,
                   artifacts: map<ArtifactId, Artifact>, edges: map<EdgeId, Edge>, l: LinkBatch, p: PassInput, rules: Rules)
    returns (more: seq<Step>)
    requires LegalRun(m, steps, rules) && Run(m, steps, rules) == Machine(db, k, false) && k < n
    requires |l.ids| == |l.drafts| && CanBuild(db, n, rows, artifacts, edges, l, p)
    ensures LegalRun(m, more, rules)
    ensures Run(m, more, rules) == Machine(Outcome(db, n, rows, artifacts, edges, l, p), n, false)
  {
    var c := Committed(db, rows, artifacts, edges);
    FinalizeAfter(db, n, rows, artifacts, edges, l, p, rules);
    hide *;
    more := UntilFinalize(m, steps, db, k, n, rows, artifacts, edges, rules);
    FinalizeStep(Machine(c, n, true), Quiet(l, p), rules);
    RunGrows(m, more, Finalize(Quiet(l, p)), rules);
    more := more + [Finalize(Quiet(l, p))];
  }

  lemma FinalizeAfter(db: Db, n: int, rows: map<SourceId, Source>, artifacts: map<ArtifactId, Artifact>,
                      edges: map<EdgeId, Edge>, l: LinkBatch, p: PassInput, rules: Rules)
    requires |l.ids| == |l.drafts| && CanBuild(db, n, rows, artifacts, edges, l, p)
    ensures var c := Committed(db, rows, artifacts, edges);
      && LegalCommit(db, n, rows, artifacts, edges) && LegalFinalize(c, Quiet(l, p), rules, n)
      && Finalized(c, Quiet(l, p), rules, n) == Outcome(db, n, rows, artifacts, edges, l, p)
  {
    hide LegalCommit, NoAliasRows, LegalBatch, DraftsExist, LegalInput, LegalFinalize, Finalized, Committed, Linked;
    QuietFinalize(Committed(db, rows, artifacts, edges), l, p, rules, n);
  }

  lemma UntilFinalize(m: Machine, steps: seq<Step>, db: Db, k: int, n: int, rows: map<SourceId, Source>,
                      artifacts: map<ArtifactId, Artifact>, edges: map<EdgeId, Edge>, rules: Rules) returns (more: seq<Step>)
    requires LegalRun(m, steps, rules) && Run(m, steps, rules) == Machine(db, k, false) && k < n
    requires LegalCommit(db, n, rows, artifacts, edges)
    ensures LegalRun(m, more, rules) && Run(m, more, rules) == Machine(Committed(db, rows, artifacts, edges), n, true)
  {
    var s := Commit(rows, artifacts, edges, map[]);
    assert Committed(db, rows, artifacts, edges) ==
      Db(db.sources + rows, db.artifacts + artifacts, db.edges + edges, db.generation + map[]);
    hide *;
    StartStep(Machine(db, k, false), n, rules);
    RunGrows(m, steps, Start(n), rules);
    CommitStep(Machine(db, n, true), rows, artifacts, edges, map[], rules);
    RunGrows(m, steps + [Start(n)], s, rules);
    more := steps + [Start(n)] + [s];
  }

  // ------------------------------------------------------- the linker and the past

  function Page(uri: string, content: string): Source {
    Source(GithubDoc, uri, Some(uri), content, Some(5), 1, false, [])
  }

  function CodeOf(uri: string, content: string): Source {
    Source(GithubCode, uri, Some(uri), content, Some(5), 1, false, [])
  }

  function Prose(s: SourceId, text: string, n: int, gone: Option<int>): Artifact {
    Artifact(Summary, s, Some("guide"), Some(Text(text)), n, gone, None, [])
  }

  function Symbol(s: SourceId, text: string, n: int): Artifact {
    Artifact(OtherKind("code_symbol"), s, Some("charge"), Some(Text(text)), n, None, None, [])
  }

  function Mention(a: ArtifactId, b: ArtifactId, n: int, gone: Option<int>): Edge {
    Edge(a, b, "mentions", Linker, 1.0, NoEvidence, n, gone)
  }

  function Mentions(a: ArtifactId, b: ArtifactId): LinkDraft {
    LinkDraft(a, b, "mentions", 1.0, NoEvidence)
  }

  function Links(drafts: seq<LinkDraft>, ids: seq<EdgeId>): LinkBatch {
    LinkBatch(Linker, drafts, ids, {}, true)
  }

  function Empty(): Machine { Machine(Db(map[], map[], map[], map[]), 0, false) }

  /** A document whose text names a code symbol. */
  function Guide(text: string): map<SourceId, Source> { map[Src(1) := Page("guide.md", text)] }

  function After1(): Db {
    Db(map[Src(1) := Page("guide.md", "one"), Src(2) := CodeOf("pay.py", "code")],
       map[Art(1) := Prose(Src(1), "one", 1, None), Art(2) := Symbol(Src(2), "code", 1)],
       map[Link(1) := Mention(Art(1), Art(2), 1, None)], map[])
  }

  /** The text changed: its first generation left at build 2, with its edge. */
  function After2(): Db {
    Db(map[Src(1) := Page("guide.md", "two"), Src(2) := CodeOf("pay.py", "code")],
       map[Art(1) := Prose(Src(1), "one", 1, Some(2)), Art(2) := Symbol(Src(2), "code", 1), Art(3) := Prose(Src(1), "two", 2, None)],
       map[Link(1) := Mention(Art(1), Art(2), 1, Some(2)), Link(2) := Mention(Art(3), Art(2), 2, None)], map[])
  }

  /** Build 3 changes nothing, but its linker loads the first generation too. */
  function After3(): Db {
    After2().(edges := map[Link(1) := Mention(Art(1), Art(2), 1, None), Link(2) := Mention(Art(3), Art(2), 2, None)])
  }

  function AllSeen(changed: set<SourceId>): PassInput {
    PassInput({Src(1), Src(2)}, changed, 0, [], [])
  }

  /** With every source seen and one generation to retire, the pass is its supersession
      sweep. */
  lemma OnlySupersedes(d: Db, n: int, p: PassInput)
    requires p.oldOrder == [] && p.newOrder == [] && forall s :: s in d.sources ==> s in p.seen
    requires forall a :: !AclStale(SupersessionSwept(d, n, p.changed), p.seen, a)
    ensures LegalInput(d, n, p) && InvalidationPass(d, n, p) == SupersessionSwept(d, n, p.changed)
  {
    var none: set<SourceId> := {};
    assert Vanished(d, p.seen, p.startedAt) == none;
    assert OldRows(d, none) == {};
    assert NewRows(d, n, {}, none) == {};
    NothingVanished(d, n, p);
    var e := SupersessionSwept(d, n, p.changed);
    hide AfterDeletion, SupersessionSwept, PassClashes, PassOrders;
    assert forall a | a in e.artifacts :: !AclStale(e, p.seen, a);
    assert AclPropagated(e, p.seen) == e;
  }

  lemma OneUpsert(edges: map<EdgeId, Edge>, p: Producer, d: LinkDraft, id: EdgeId, n: int)
    ensures UpsertAll(edges, p, [d], [id], n) == Upsert(edges, p, d, id, n)
  {
    assert [d][..0] == [] && [id][..0] == [];
    assert UpsertAll(edges, p, [], [], n) == edges;
  }

  lemma TwoUpserts(edges: map<EdgeId, Edge>, p: Producer, d: LinkDraft, d': LinkDraft, id: EdgeId, id': EdgeId, n: int)
    ensures UpsertAll(edges, p, [d, d'], [id, id'], n) == Upsert(Upsert(edges, p, d, id, n), p, d', id', n)
  {
    assert [d, d'][..1] == [d] && [id, id'][..1] == [id];
    OneUpsert(edges, p, d, id, n);
  }

  lemma UpsertNew(edges: map<EdgeId, Edge>, d: LinkDraft, id: EdgeId, n: int)
    requires !AnyConflict(edges, Linker, d)
    ensures Upsert(edges, Linker, d, id, n) == edges[id := NewLink(Linker, d, n)]
  {}

  lemma UpsertOld(edges: map<EdgeId, Edge>, d: LinkDraft, id: EdgeId, n: int, e: EdgeId)
    requires e in edges && Conflicts(edges[e], Linker, d) && UniqueLinks(edges)
    ensures Upsert(edges, Linker, d, id, n) == edges[e := Refreshed(edges[e], d)]
  {
    var after := Upsert(edges, Linker, d, id, n);
    assert AnyConflict(edges, Linker, d);
    forall f | f in edges ensures after[f] == edges[e := Refreshed(edges[e], d)][f] {
      if Conflicts(edges[f], Linker, d) { OneConflict(edges, Linker, d, e, f); }
    }
  }

  function Link12(n: int, gone: Option<int>): Edge { Mention(Art(1), Art(2), n, gone) }

  function Link32(n: int, gone: Option<int>): Edge { Mention(Art(3), Art(2), n, gone) }

  lemma Linker1()
    ensures var c := Committed(Empty().db, After1().sources, After1().artifacts, map[]);
      var l := Links([Mentions(Art(1), Art(2))], [Link(1)]);
      c == After1().(edges := map[]) && Linked(c, l, 1) == After1()
  {
    var c, d := Committed(Empty().db, After1().sources, After1().artifacts, map[]), Mentions(Art(1), Art(2));
    var l := Links([d], [Link(1)]);
    OneUpsert(c.edges, Linker, d, Link(1), 1);
    UpsertNew(c.edges, d, Link(1), 1);
    assert d in l.drafts && Conflicts(Link12(1, None), Linker, d);
    assert StaleSwept(map[Link(1) := Link12(1, None)], l, 1) == map[Link(1) := Link12(1, None)];
  }

  lemma Legal1()
    ensures CanLink(After1().(edges := map[]), Links([Mentions(Art(1), Art(2))], [Link(1)]))
    ensures LegalCommit(Empty().db, 1, After1().sources, After1().artifacts, map[])
  {}

  lemma Pass1()
    ensures LegalInput(After1(), 1, AllSeen({Src(1), Src(2)})) && InvalidationPass(After1(), 1, AllSeen({Src(1), Src(2)})) == After1()
  {
    var d := After1();
    assert PriorGeneration(d, 1, {Src(1), Src(2)}) == {};
    SweepNothing(d, 1);
    OnlySupersedes(d, 1, AllSeen({Src(1), Src(2)}));
  }

  lemma Build1()
    ensures CanBuild(Empty().db, 1, After1().sources, After1().artifacts, map[],
                     Links([Mentions(Art(1), Art(2))], [Link(1)]), AllSeen({Src(1), Src(2)}))
    ensures Outcome(Empty().db, 1, After1().sources, After1().artifacts, map[],
                    Links([Mentions(Art(1), Art(2))], [Link(1)]), AllSeen({Src(1), Src(2)})) == After1()
  {
    hide After1, Empty, AllSeen, Linked, InvalidationPass, LegalInput, CanLink, LegalCommit, CanBuild, Committed, Outcome;
    Legal1();
    Linker1();
    Pass1();
    BuildFrom(Empty().db, 1, After1().sources, After1().artifacts, map[], Links([Mentions(Art(1), Art(2))], [Link(1)]),
              AllSeen({Src(1), Src(2)}), After1(), After1());
  }

  function Drafts2(): LinkBatch { Links([Mentions(Art(1), Art(2)), Mentions(Art(3), Art(2))], [Link(8), Link(2)]) }

  /** The registry between the linker and the pass of build 2. */
  function Linked2(): Db {
    Db(After2().sources, map[Art(1) := Prose(Src(1), "one", 1, None), Art(2) := Symbol(Src(2), "code", 1), Art(3) := Prose(Src(1), "two", 2, None)],
       map[Link(1) := Link12(1, None), Link(2) := Link32(2, None)], map[])
  }

  function Rewritten2(): map<ArtifactId, Artifact> { map[Art(3) := Prose(Src(1), "two", 2, None)] }

  lemma TwoDrafts(edges: map<EdgeId, Edge>, l: LinkBatch, n: int)
    requires edges.Keys == {Link(1), Link(2)} && l.producer == Linker
    requires l.drafts == [Mentions(Art(1), Art(2)), Mentions(Art(3), Art(2))]
    requires SameLink(Link12(1, None), edges[Link(1)]) && SameLink(Link32(2, None), edges[Link(2)])
    ensures StaleSwept(edges, l, n) == edges
  {
    assert l.drafts[0] in l.drafts && l.drafts[1] in l.drafts;
    assert Conflicts(edges[Link(1)], Linker, l.drafts[0]) && Conflicts(edges[Link(2)], Linker, l.drafts[1]);
  }

  lemma Edges2()
    ensures UpsertAll(After1().edges, Linker, Drafts2().drafts, Drafts2().ids, 2) == Linked2().edges
  {
    var edges, d, d' := After1().edges, Mentions(Art(1), Art(2)), Mentions(Art(3), Art(2));
    assert edges == map[Link(1) := Link12(1, None)];
    TwoUpserts(edges, Linker, d, d', Link(8), Link(2), 2);
    assert Refreshed(Link12(1, None), d) == Link12(1, None);
    UpsertOld(edges, d, Link(8), 2, Link(1));
    UpsertNew(edges, d', Link(2), 2);
  }

  /** The linker changes edges only. */
  lemma LinkedTo(c: Db, l: LinkBatch, n: int, d: Db)
    requires |l.ids| == |l.drafts| && UpsertAll(c.edges, l.producer, l.drafts, l.ids, n) == d.edges && StaleSwept(d.edges, l, n) == d.edges
    requires c == d.(edges := c.edges)
    ensures Linked(c, l, n) == d
  {
    hide UpsertAll, StaleSwept;
  }

  lemma Legal2()
    ensures LegalCommit(After1(), 2, Guide("two"), Rewritten2(), map[])
  {}

  lemma Committed2()
    ensures Committed(After1(), Guide("two"), Rewritten2(), map[]) == Linked2().(edges := After1().edges)
  {
    var c := Committed(After1(), Guide("two"), Rewritten2(), map[]);
    assert c.sources == Linked2().sources && c.artifacts == Linked2().artifacts && c.edges == After1().edges;
  }

  lemma CanLink2()
    ensures CanLink(Linked2().(edges := After1().edges), Drafts2())
  {}

  lemma Build2()
    ensures CanBuild(After1(), 2, Guide("two"), Rewritten2(), map[], Drafts2(), AllSeen({Src(1)}))
    ensures Outcome(After1(), 2, Guide("two"), Rewritten2(), map[], Drafts2(), AllSeen({Src(1)})) == After2()
  {
    Edges2();
    TwoDrafts(Linked2().edges, Drafts2(), 2);
    hide After1, After2, Linked2, Drafts2, AllSeen, Guide, Rewritten2;
    hide UpsertAll, StaleSwept, Linked, InvalidationPass, LegalInput, CanLink, LegalCommit, CanBuild, Committed, Outcome;
    Legal2();
    Committed2();
    CanLink2();
    LinkedTo(Committed(After1(), Guide("two"), Rewritten2(), map[]), Drafts2(), 2, Linked2());
    Pass2();
    BuildFrom(After1(), 2, Guide("two"), Rewritten2(), map[], Drafts2(), AllSeen({Src(1)}), Linked2(), After2());
  }

  lemma Pass2()
    ensures LegalInput(Linked2(), 2, AllSeen({Src(1)})) && InvalidationPass(Linked2(), 2, AllSeen({Src(1)})) == After2()
  {
    Swept2();
    assert forall a :: !AclStale(After2(), {Src(1), Src(2)}, a);
    hide SupersessionSwept;
    OnlySupersedes(Linked2(), 2, AllSeen({Src(1)}));
  }

  lemma Swept2()
    ensures SupersessionSwept(Linked2(), 2, {Src(1)}) == After2()
  {
    FirstGeneration();
    SweptRows2();
    hide PriorGeneration, SweepArtifacts, Linked2, After2;
  }

  lemma FirstGeneration()
    ensures PriorGeneration(Linked2(), 2, {Src(1)}) == {Art(1)}
  {}

  lemma SweptRows2()
    ensures SweepArtifacts(Linked2(), {Art(1)}, 2) == After2()
  {
    var d := SweepArtifacts(Linked2(), {Art(1)}, 2);
    assert d.artifacts == After2().artifacts;
    assert d.edges == After2().edges;
  }

  function Drafts3(): LinkBatch { Drafts2().(ids := [Link(8), Link(9)]) }

  lemma Edges3()
    ensures UpsertAll(After2().edges, Linker, Drafts3().drafts, Drafts3().ids, 3) == After3().edges
  {
    var edges, d, d' := After2().edges, Mentions(Art(1), Art(2)), Mentions(Art(3), Art(2));
    assert edges == map[Link(1) := Link12(1, Some(2)), Link(2) := Link32(2, None)];
    TwoUpserts(edges, Linker, d, d', Link(8), Link(9), 3);
    Revived3(d);
    Refreshed3(d');
  }

  lemma Revived3(d: LinkDraft)
    requires d == Mentions(Art(1), Art(2))
    ensures Upsert(After2().edges, Linker, d, Link(8), 3) == After3().edges
  {
    var edges := After2().edges;
    assert Refreshed(Link12(1, Some(2)), d) == Link12(1, None);
    UpsertOld(edges, d, Link(8), 3, Link(1));
    assert edges[Link(1) := Link12(1, None)] == After3().edges;
  }

  lemma Refreshed3(d: LinkDraft)
    requires d == Mentions(Art(3), Art(2))
    ensures Upsert(After3().edges, Linker, d, Link(9), 3) == After3().edges
  {
    var edges := After3().edges;
    assert Refreshed(Link32(2, None), d) == Link32(2, None);
    UpsertOld(edges, d, Link(9), 3, Link(2));
    assert edges[Link(2) := Link32(2, None)] == edges;
  }

  lemma Legal3()
    ensures LegalCommit(After2(), 3, map[], map[], map[])
    ensures Committed(After2(), map[], map[], map[]) == After3().(edges := After2().edges)
  {
    assert Committed(After2(), map[], map[], map[]) == After2();
  }

  lemma CanLink3()
    ensures CanLink(After3().(edges := After2().edges), Drafts3())
  {}

  lemma Build3()
    ensures CanBuild(After2(), 3, map[], map[], map[], Drafts3(), AllSeen({}))
    ensures Outcome(After2(), 3, map[], map[], map[], Drafts3(), AllSeen({})) == After3()
  {
    Edges3();
    TwoDrafts(After3().edges, Drafts3(), 3);
    hide After2, After3, Drafts3, AllSeen, UpsertAll, StaleSwept, Linked, InvalidationPass, LegalInput, CanLink, LegalCommit, CanBuild, Committed, Outcome;
    Legal3();
    CanLink3();
    LinkedTo(Committed(After2(), map[], map[], map[]), Drafts3(), 3, After3());
    Pass3();
    BuildFrom(After2(), 3, map[], map[], map[], Drafts3(), AllSeen({}), After3(), After3());
  }

  lemma Pass3()
    ensures LegalInput(After3(), 3, AllSeen({})) && InvalidationPass(After3(), 3, AllSeen({})) == After3()
  {
    var d := After3();
    assert PriorGeneration(d, 3, {}) == {};
    SweepNothing(d, 3);
    OnlySupersedes(d, 3, AllSeen({}));
  }

  lemma RevivedEdge()
    ensures Empty() == Machine(Empty().db, 0, false)
    ensures !HasEdge(After2(), Link(1), 2) && HasEdge(After3(), Link(1), 2) && Ghost(After3(), Link(1))
  {}

  /** Three builds from the empty registry: a document that mentions a symbol, a change of
      its text, and no change.  The third build's linker drafts from the first generation
      again and revives the edge build 2 had taken out: version 2 gains a member, and the
      edge hangs on a dead artifact. */
  lemma LinkerRevivesSupersededEdge(rules: Rules) returns (two: seq<Step>, three: seq<Step>)
    ensures LegalRun(Empty(), two, rules) && LegalRun(Empty(), three, rules)
    ensures var v2, v3 := Run(Empty(), two, rules), Run(Empty(), three, rules);
      && !v2.building && v2.build == 2 && !v3.building && v3.build == 3
      && !HasEdge(v2.db, Link(1), 2) && HasEdge(v3.db, Link(1), 2)
      && Ghost(v3.db, Link(1))
  {
    assert |Drafts2().ids| == |Drafts2().drafts| && |Drafts3().ids| == |Drafts3().drafts|;
    assert |Links([Mentions(Art(1), Art(2))], [Link(1)]).ids| == |Links([Mentions(Art(1), Art(2))], [Link(1)]).drafts|;
    hide *;
    Build1();
    Build2();
    Build3();
    RevivedEdge();
    NoSteps(Empty(), rules);
    var one := QuietBuild(Empty(), [], Empty().db, 0, 1, After1().sources, After1().artifacts, map[],
                          Links([Mentions(Art(1), Art(2))], [Link(1)]), AllSeen({Src(1), Src(2)}), rules);
    two := QuietBuild(Empty(), one, After1(), 1, 2, Guide("two"), Rewritten2(), map[], Drafts2(), AllSeen({Src(1)}), rules);
    three := QuietBuild(Empty(), two, After2(), 2, 3, map[], map[], map[], Drafts3(), AllSeen({}), rules);
  }

  // ------------------------------------------------------- renames and the past

  function Calls(a: ArtifactId, b: ArtifactId, n: int): Edge {
    Edge(a, b, "calls", Graphify, 1.0, NoEvidence, n, None)
  }

  function NoLinks(): LinkBatch { Links([], []) }

  /** A file of two symbols, one of them called from another file. */
  function Code1(): Db {
    Db(map[Src(1) := CodeOf("pay.py", "two"), Src(3) := CodeOf("app.py", "caller")],
       map[Art(1) := Symbol(Src(1), "kept", 1), Art(2) := Symbol(Src(1), "dropped", 1), Art(4) := Symbol(Src(3), "caller", 1)],
       map[Link(1) := Calls(Art(4), Art(1), 1)], map[])
  }

  function CodePass1(): PassInput {
    PassInput({Src(1), Src(3)}, {Src(1), Src(3)}, 0, [], [])
  }

  /** The file moved and lost a symbol; the whole tree is written again. */
  function Sources2(): map<SourceId, Source> { map[Src(2) := CodeOf("api.py", "one"), Src(3) := CodeOf("app.py", "caller")] }

  function Symbols2(): map<ArtifactId, Artifact> { map[Art(3) := Symbol(Src(2), "kept", 2), Art(5) := Symbol(Src(3), "caller", 2)] }

  function Calls2(): map<EdgeId, Edge> { map[Link(2) := Calls(Art(5), Art(3), 2)] }

  function Code2(): Db {
    Db(map[Src(1) := CodeOf("pay.py", "two"), Src(2) := CodeOf("api.py", "one"), Src(3) := CodeOf("app.py", "caller")],
       map[Art(1) := Symbol(Src(1), "kept", 1), Art(2) := Symbol(Src(1), "dropped", 1), Art(4) := Symbol(Src(3), "caller", 1),
           Art(3) := Symbol(Src(2), "kept", 2), Art(5) := Symbol(Src(3), "caller", 2)],
       map[Link(1) := Calls(Art(4), Art(1), 1), Link(2) := Calls(Art(5), Art(3), 2)], map[])
  }

  function CodePass2(): PassInput {
    PassInput({Src(2), Src(3)}, {Src(2), Src(3)}, 10, [Art(1), Art(2)], [Art(3)])
  }

  lemma LinksNothing(c: Db, n: int)
    requires forall e :: e in c.edges ==> c.edges[e].producer == Graphify
    ensures Linked(c, NoLinks(), n) == c && LegalBatch(c, NoLinks()) && DraftsExist(c, NoLinks())
  {
    assert StaleSwept(c.edges, NoLinks(), n) == c.edges;
  }

  lemma CodeCommitted1()
    ensures Committed(Empty().db, Code1().sources, Code1().artifacts, Code1().edges) == Code1()
    ensures NoAliasRows(Code1()) && forall e :: e in Code1().edges ==> Code1().edges[e].producer == Graphify
  {}

  lemma CodeLegal1()
    ensures LegalCommit(Empty().db, 1, Code1().sources, Code1().artifacts, Code1().edges)
  {}

  lemma CodePassed1()
    ensures LegalInput(Code1(), 1, CodePass1()) && InvalidationPass(Code1(), 1, CodePass1()) == Code1()
  {
    assert PriorGeneration(Code1(), 1, {Src(1), Src(3)}) == {};
    SweepNothing(Code1(), 1);
    OnlySupersedes(Code1(), 1, CodePass1());
  }

  lemma CodeBuild1()
    ensures CanBuild(Empty().db, 1, Code1().sources, Code1().artifacts, Code1().edges, NoLinks(), CodePass1())
    ensures Outcome(Empty().db, 1, Code1().sources, Code1().artifacts, Code1().edges, NoLinks(), CodePass1()) == Code1()
  {
    hide Linked, LegalCommit, LegalBatch, DraftsExist, LegalInput, InvalidationPass, CanBuild, Outcome, Committed, NoAliasRows, Code1, CodePass1;
    CodeCommitted1();
    CodeLegal1();
    CodePassed1();
    LinksNothing(Code1(), 1);
    BuildFrom(Empty().db, 1, Code1().sources, Code1().artifacts, Code1().edges, NoLinks(), CodePass1(), Code1(), Code1());
  }

  lemma CodeIsCommitted()
    ensures Committed(Code1(), Sources2(), Symbols2(), Calls2()) == Code2()
  {
    assert Code1().sources + Sources2() == Code2().sources;
    assert Code1().edges + Calls2() == Code2().edges;
    CodeRows2();
    hide Sources2, Symbols2, Calls2;
  }

  lemma CodeRows2()
    ensures Code1().artifacts + Symbols2() == Code2().artifacts
  {}

  lemma CodeLegal2()
    ensures LegalCommit(Code1(), 2, Sources2(), Symbols2(), Calls2())
  {
    assert Joins(Code1().artifacts + Symbols2(), Calls2()[Link(2)]);
  }

  lemma CodeHasNoAlias()
    ensures NoAliasRows(Code2()) && forall e :: e in Code2().edges ==> Code2().edges[e].producer == Graphify
  {}

  lemma CodeIndex()
    ensures OldByBody(Code2(), [Art(1), Art(2)]) == map[Text("kept") := Art(1), Text("dropped") := Art(2)]
  {
    var db := Code2();
    assert [Art(1), Art(2)][..1] == [Art(1)] && [Art(1)][..0] == [];
    assert OldByBody(db, []) == map[];
    assert OldByBody(db, [Art(1)]) == map[Text("kept") := Art(1)];
    assert Text("dropped") != Text("kept") by { assert "dropped"[0] != "kept"[0]; }
  }

  lemma CodeVanished()
    ensures Vanished(Code2(), {Src(2), Src(3)}, 10) == {Src(1)}
    ensures OldRows(Code2(), {Src(1)}) == {Art(1), Art(2)}
    ensures NewRows(Code2(), 2, {Text("kept"), Text("dropped")}, {Src(1)}) == {Art(3)}
  {
    assert Text("caller") != Text("kept") && Text("caller") != Text("dropped") by {
      assert "caller"[0] != "kept"[0] && "caller"[0] != "dropped"[0];
    }
  }

  /** No linker or judge edge is there to clash. */
  lemma OnlyCodeEdges(db: Db, rho: map<ArtifactId, ArtifactId>)
    requires forall e :: e in db.edges ==> db.edges[e].producer == Graphify
    ensures !KeysClash(db.edges, rho)
  {}

  lemma CodeRename()
    ensures LegalInput(Code2(), 2, CodePass2())
    ensures PassRenames(Code2(), 2, CodePass2()) == [Rename(Art(1), Art(3))]
  {
    var db, byBody := Code2(), OldByBody(Code2(), [Art(1), Art(2)]);
    CodeVanished();
    CodeIndex();
    assert byBody.Keys == {Text("kept"), Text("dropped")};
    assert [Art(3)][..0] == [];
    assert MatchRenames(db, byBody, []) == [] && MatchedBodies(db, []) == {};
    OnlyCodeEdges(db, Rho(PassRenames(db, 2, CodePass2())));
    hide Vanished, OldRows, NewRows, OldByBody;
  }

  lemma PassedEdge(db: Db, n: int, i: PassInput, e: EdgeId)
    requires LegalInput(db, n, i) && e in db.edges
    ensures var d := InvalidationPass(db, n, i); e in d.edges && d.edges[e].to == RenamedEdge(db.edges[e], Rho(PassRenames(db, n, i)), n).to
  {
    PassApplies(db, n, i);
    EffectRenames(db, n, i);
    hide *;
    AppliedEdges(db, n, EffectOf(db, n, i), InvalidationPass(db, n, i));
    SweptStays(db, n, EffectOf(db, n, i), InvalidationPass(db, n, i), e);
  }

  lemma EffectRenames(db: Db, n: int, i: PassInput)
    requires LegalInput(db, n, i)
    ensures EffectOf(db, n, i).rho == Rho(PassRenames(db, n, i))
  {
    hide LegalInput, PassRenames, Rho, DeletedArtifacts;
  }

  lemma SweptStays(db: Db, n: int, x: Effect, d: Db, e: EdgeId)
    requires EdgesApplied(db, n, x, d) && e in db.edges
    ensures e in d.edges && d.edges[e].to == RenamedEdge(db.edges[e], x.rho, n).to
  {
    hide RenamedEdge;
  }

  lemma AppliedEdges(db: Db, n: int, x: Effect, d: Db)
    requires Applied(db, n, x, d)
    ensures EdgesApplied(db, n, x, d)
  {}

  lemma PassedRow(db: Db, n: int, i: PassInput, a: ArtifactId)
    requires LegalInput(db, n, i) && a in db.artifacts
    ensures var d := InvalidationPass(db, n, i); a in d.artifacts && d.artifacts[a].source == db.artifacts[a].source
  {
    PassApplies(db, n, i);
    hide *;
    AppliedRow(db, n, EffectOf(db, n, i), InvalidationPass(db, n, i), a);
  }

  lemma AppliedRow(db: Db, n: int, x: Effect, d: Db, a: ArtifactId)
    requires Applied(db, n, x, d) && a in db.artifacts
    ensures a in d.artifacts && d.artifacts[a].source == db.artifacts[a].source
  {
    assert RowAfter(db.artifacts[a], d.artifacts[a], a in x.Retired(), n);
  }

  /** What the renames and the sweeps of build 2 make of the first edge. */
  lemma CodeAfterPass()
    ensures LegalInput(Code2(), 2, CodePass2())
    ensures var d := InvalidationPass(Code2(), 2, CodePass2());
      && Link(1) in d.edges && d.edges[Link(1)].to == Art(3) && HasEdge(d, Link(1), 1) && !HasArtifact(d, Art(3), 1)
  {
    FirstEdge();
    hide *;
    CodeRename();
    PassFreezesPast(Code2(), 2, CodePass2());
    PassedEdge(Code2(), 2, CodePass2(), Link(1));
    FrozenAt(Code2(), InvalidationPass(Code2(), 2, CodePass2()), 2, 1, Art(3), Link(1));
  }

  lemma FirstEdge()
    ensures Link(1) in Code2().edges && HasEdge(Code2(), Link(1), 1) && !HasArtifact(Code2(), Art(3), 1)
    ensures RenamedEdge(Code2().edges[Link(1)], Rho([Rename(Art(1), Art(3))]), 2).to == Art(3)
  {
    var ps := [Rename(Art(1), Art(3))];
    assert ps[..0] == [];
    assert Rho(ps) == map[Art(1) := Art(3)];
  }

  lemma FrozenAt(db: Db, d: Db, n: int, s: int, a: ArtifactId, e: EdgeId)
    requires Frozen(db, d, n) && s < n
    ensures (HasArtifact(d, a, s) <==> HasArtifact(db, a, s)) && (HasEdge(d, e, s) <==> HasEdge(db, e, s))
  {}

  lemma CodeLeftBehind()
    ensures LegalInput(Code2(), 2, CodePass2())
    ensures var d := InvalidationPass(Code2(), 2, CodePass2());
      LiveArtifact(d, Art(2)) && Src(1) in d.sources && d.sources[Src(1)].isDeleted
  {
    var db, i, ps := Code2(), CodePass2(), [Rename(Art(1), Art(3))];
    CodeRename();
    CodeVanished();
    assert Olds(ps) == {Art(1)} && Rename(Art(1), Art(3)) in ps;
    assert RenamedSources(db, ps) == {Src(1)};
    assert Art(2) in Leftovers(db, 2, i);
    assert i.changed <= i.seen && i.seen == {Src(2), Src(3)} && i.startedAt == 10;
    assert Src(1) in db.sources;
    hide Code2, CodePass2, InvalidationPass, Vanished, LegalInput, Leftovers;
    VanishedSourcesKeepLeftovers(db, 2, i);
    PassSources(db, 2, i);
    assert Art(2) in LiveOf(InvalidationPass(db, 2, i), Vanished(db, i.seen, i.startedAt));
  }

  lemma CodeBuild2()
    ensures CanBuild(Code1(), 2, Sources2(), Symbols2(), Calls2(), NoLinks(), CodePass2())
    ensures Outcome(Code1(), 2, Sources2(), Symbols2(), Calls2(), NoLinks(), CodePass2()) == InvalidationPass(Code2(), 2, CodePass2())
  {
    hide Code1, Code2, CodePass2, Sources2, Symbols2, Calls2, Linked, InvalidationPass, LegalInput, LegalCommit, CanBuild, Committed, Outcome, NoAliasRows, LegalBatch, DraftsExist;
    CodeIsCommitted();
    CodeLegal2();
    CodeHasNoAlias();
    LinksNothing(Code2(), 2);
    CodeRename();
    assert CanLink(Code2(), NoLinks());
    BuildFrom(Code1(), 2, Sources2(), Symbols2(), Calls2(), NoLinks(), CodePass2(), Code2(), InvalidationPass(Code2(), 2, CodePass2()));
  }

  /** Two builds from the empty registry: a code tree, and the same tree with one file moved
      and one of its symbols gone.  The rename rewrites the end of an edge version 1 sees,
      to a row version 1 does not have; and the symbol it did not match stays live under a
      source marked deleted. */
  lemma RenameRewritesPastAndLeavesBehind(rules: Rules) returns (one: seq<Step>, two: seq<Step>)
    ensures LegalRun(Empty(), one, rules) && LegalRun(Empty(), two, rules)
    ensures var v1, v2 := Run(Empty(), one, rules), Run(Empty(), two, rules);
      && !v1.building && v1.build == 1 && !v2.building && v2.build == 2
      && HasEdge(v1.db, Link(1), 1) && HasEdge(v2.db, Link(1), 1)
      && v1.db.edges[Link(1)].to == Art(1) && v2.db.edges[Link(1)].to == Art(3) && !HasArtifact(v2.db, Art(3), 1)
      && LiveArtifact(v2.db, Art(2)) && v2.db.artifacts[Art(2)].source == Src(1)
      && Src(1) in v2.db.sources && v2.db.sources[Src(1)].isDeleted
  {
    assert |NoLinks().ids| == |NoLinks().drafts|;
    assert HasEdge(Code1(), Link(1), 1) && Code1().edges[Link(1)].to == Art(1) && Empty() == Machine(Empty().db, 0, false);
    SymbolStays();
    hide *;
    CodeBuild1();
    CodeBuild2();
    CodeAfterPass();
    CodeLeftBehind();
    NoSteps(Empty(), rules);
    one := QuietBuild(Empty(), [], Empty().db, 0, 1, Code1().sources, Code1().artifacts, Code1().edges, NoLinks(), CodePass1(), rules);
    two := QuietBuild(Empty(), one, Code1(), 1, 2, Sources2(), Symbols2(), Calls2(), NoLinks(), CodePass2(), rules);
  }

  lemma SymbolStays()
    ensures LegalInput(Code2(), 2, CodePass2())
    ensures Art(2) in InvalidationPass(Code2(), 2, CodePass2()).artifacts
    ensures InvalidationPass(Code2(), 2, CodePass2()).artifacts[Art(2)].source == Src(1)
  {
    assert Art(2) in Code2().artifacts && Code2().artifacts[Art(2)].source == Src(1);
    hide *;
    CodeRename();
    PassedRow(Code2(), 2, CodePass2(), Art(2));
  }

  // ------------------------------------------------------- a rename meets a unique index

  /** A document that mentions a symbol. */
  function Clash1(): Db {
    Db(map[Src(1) := CodeOf("pay.py", "code"), Src(3) := Page("guide.md", "text")],
       map[Art(1) := Symbol(Src(1), "code", 1), Art(4) := Prose(Src(3), "text", 1, None)],
       map[Link(1) := Mention(Art(4), Art(1), 1, None)], map[])
  }

  function ClashPass1(): PassInput { PassInput({Src(1), Src(3)}, {Src(1), Src(3)}, 0, [], []) }

  function ClashLinks1(): LinkBatch { Links([Mentions(Art(4), Art(1))], [Link(1)]) }

  /** The file moved, text unchanged. */
  function Moved2(): map<SourceId, Source> { map[Src(2) := CodeOf("api.py", "code")] }

  function MovedRow2(): map<ArtifactId, Artifact> { map[Art(3) := Symbol(Src(2), "code", 2)] }

  function Clash2(): Db {
    Db(map[Src(1) := CodeOf("pay.py", "code"), Src(2) := CodeOf("api.py", "code"), Src(3) := Page("guide.md", "text")],
       map[Art(1) := Symbol(Src(1), "code", 1), Art(3) := Symbol(Src(2), "code", 2), Art(4) := Prose(Src(3), "text", 1, None)],
       map[Link(1) := Mention(Art(4), Art(1), 1, None)], map[])
  }

  /** The old file is not marked deleted yet, so the linker drafts both mentions. */
  function ClashLinks2(): LinkBatch { Links([Mentions(Art(4), Art(1)), Mentions(Art(4), Art(3))], [Link(8), Link(2)]) }

  function Clash3(): Db {
    Clash2().(edges := map[Link(1) := Mention(Art(4), Art(1), 1, None), Link(2) := Mention(Art(4), Art(3), 2, None)])
  }

  function ClashPass2(): PassInput { PassInput({Src(2), Src(3)}, {Src(2)}, 10, [Art(1)], [Art(3)]) }

  lemma ClashLinked1()
    ensures Linked(Clash1().(edges := map[]), ClashLinks1(), 1) == Clash1()
  {
    var l, d := ClashLinks1(), Mentions(Art(4), Art(1));
    OneUpsert(map[], Linker, d, Link(1), 1);
    UpsertNew(map[], d, Link(1), 1);
    assert d in l.drafts && Conflicts(Mention(Art(4), Art(1), 1, None), Linker, d);
    assert StaleSwept(Clash1().edges, l, 1) == Clash1().edges;
    LinkedTo(Clash1().(edges := map[]), l, 1, Clash1());
  }

  lemma ClashLegal1()
    ensures LegalCommit(Empty().db, 1, Clash1().sources, Clash1().artifacts, map[])
    ensures Committed(Empty().db, Clash1().sources, Clash1().artifacts, map[]) == Clash1().(edges := map[])
    ensures CanLink(Clash1().(edges := map[]), ClashLinks1())
  {}

  lemma ClashPassed1()
    ensures LegalInput(Clash1(), 1, ClashPass1()) && InvalidationPass(Clash1(), 1, ClashPass1()) == Clash1()
  {
    assert PriorGeneration(Clash1(), 1, {Src(1), Src(3)}) == {};
    SweepNothing(Clash1(), 1);
    OnlySupersedes(Clash1(), 1, ClashPass1());
  }

  lemma ClashBuild1()
    ensures |ClashLinks1().ids| == |ClashLinks1().drafts|
    ensures CanBuild(Empty().db, 1, Clash1().sources, Clash1().artifacts, map[], ClashLinks1(), ClashPass1())
    ensures Outcome(Empty().db, 1, Clash1().sources, Clash1().artifacts, map[], ClashLinks1(), ClashPass1()) == Clash1()
  {
    assert |ClashLinks1().ids| == |ClashLinks1().drafts|;
    hide *;
    ClashLegal1();
    ClashLinked1();
    ClashPassed1();
    BuildFrom(Empty().db, 1, Clash1().sources, Clash1().artifacts, map[], ClashLinks1(), ClashPass1(), Clash1(), Clash1());
  }

  lemma ClashLegal2()
    ensures LegalCommit(Clash1(), 2, Moved2(), MovedRow2(), map[])
    ensures Committed(Clash1(), Moved2(), MovedRow2(), map[]) == Clash2()
  {
    assert Clash1().sources + Moved2() == Clash2().sources;
    assert Clash1().artifacts + MovedRow2() == Clash2().artifacts;
  }

  lemma ClashLinked2()
    ensures LegalBatch(Clash2(), ClashLinks2()) && DraftsExist(Clash2(), ClashLinks2())
    ensures Linked(Clash2(), ClashLinks2(), 2) == Clash3()
  {
    var l, d, d' := ClashLinks2(), Mentions(Art(4), Art(1)), Mentions(Art(4), Art(3));
    var edges := Clash2().edges;
    TwoUpserts(edges, Linker, d, d', Link(8), Link(2), 2);
    assert Refreshed(edges[Link(1)], d) == edges[Link(1)];
    UpsertOld(edges, d, Link(8), 2, Link(1));
    assert edges[Link(1) := edges[Link(1)]] == edges;
    UpsertNew(edges, d', Link(2), 2);
    assert l.drafts[0] in l.drafts && l.drafts[1] in l.drafts;
    assert Conflicts(Clash3().edges[Link(1)], Linker, d) && Conflicts(Clash3().edges[Link(2)], Linker, d');
    assert StaleSwept(Clash3().edges, l, 2) == Clash3().edges;
    LinkedTo(Clash2(), l, 2, Clash3());
  }

  lemma ClashVanished()
    ensures Vanished(Clash3(), {Src(2), Src(3)}, 10) == {Src(1)}
    ensures OldRows(Clash3(), {Src(1)}) == {Art(1)}
    ensures NewRows(Clash3(), 2, {Text("code")}, {Src(1)}) == {Art(3)}
  {}

  lemma ClashRename()
    ensures PassOrders(Clash3(), 2, ClashPass2())
    ensures PassRenames(Clash3(), 2, ClashPass2()) == [Rename(Art(1), Art(3))]
  {
    var db := Clash3();
    ClashVanished();
    assert [Art(1)][..0] == [] && OldByBody(db, []) == map[];
    assert OldByBody(db, [Art(1)]) == map[Text("code") := Art(1)];
    assert [Art(3)][..0] == [];
    assert MatchRenames(db, OldByBody(db, [Art(1)]), []) == [] && MatchedBodies(db, []) == {};
    hide Vanished, OldRows, NewRows, OldByBody;
  }

  /** The old mention would be moved onto the new one. */
  lemma Clashes()
    ensures PassOrders(Clash3(), 2, ClashPass2()) && PassClashes(Clash3(), 2, ClashPass2())
  {
    ClashRename();
    var ps := [Rename(Art(1), Art(3))];
    assert ps[..0] == [];
    assert Rho(ps) == map[Art(1) := Art(3)];
    hide PassOrders, PassRenames;
    assert Collide(Clash3().edges, Rho(ps), Link(1), Link(2));
  }

  lemma RaiseStep(m: Machine, f: FinalizeInput, rules: Rules)
    requires m.building && LegalAttempt(m.db, f, rules, m.build) && Raises(m.db, f, m.build)
    ensures LegalStep(m, Finalize(f), rules) && Next(m, Finalize(f), rules) == m.(building := false)
    ensures !Completes(m, Finalize(f), rules)
  {
    hide LegalFinalize, Finalized, LegalLinks, PassOrders, PassClashes, LegalCommit;
  }

  lemma ClashAttempt(rules: Rules)
    ensures LegalAttempt(Clash2(), Quiet(ClashLinks2(), ClashPass2()), rules, 2)
    ensures Raises(Clash2(), Quiet(ClashLinks2(), ClashPass2()), 2)
  {
    assert ClashLinks2().producer == Linker;
    hide LegalAttempt, Raises, PassOrders, PassClashes, LegalBatch, DraftsExist, Linked, Quiet, Clash2, Clash3, ClashPass2, ClashLinks2;
    ClashLinked2();
    Clashes();
    QuietRaises(Clash2(), ClashLinks2(), ClashPass2(), rules, 2);
  }

  /** Two builds from the empty registry: a document that mentions a symbol, and the
      symbol's file moved.  The linker of the second build drafts the mention of both
      identities, and the rename then moves the first onto the second: the unique index
      raises, and the finalize is rolled back with nothing linked, renamed or swept. */
  lemma MovedMentionRaises(rules: Rules) returns (steps: seq<Step>, f: FinalizeInput)
    ensures LegalRun(Empty(), steps, rules) && Run(Empty(), steps, rules) == Machine(Clash2(), 2, true)
    ensures LegalStep(Machine(Clash2(), 2, true), Finalize(f), rules)
    ensures !Completes(Machine(Clash2(), 2, true), Finalize(f), rules)
    ensures Next(Machine(Clash2(), 2, true), Finalize(f), rules) == Machine(Clash2(), 2, false)
    ensures LiveArtifact(Clash2(), Art(1)) && LiveArtifact(Clash2(), Art(3))
  {
    assert LiveArtifact(Clash2(), Art(1)) && LiveArtifact(Clash2(), Art(3));
    assert Empty() == Machine(Empty().db, 0, false);
    hide *;
    ClashBuild1();
    ClashLegal2();
    NoSteps(Empty(), rules);
    var one := QuietBuild(Empty(), [], Empty().db, 0, 1, Clash1().sources, Clash1().artifacts, map[], ClashLinks1(), ClashPass1(), rules);
    steps := UntilFinalize(Empty(), one, Clash1(), 1, 2, Moved2(), MovedRow2(), map[], rules);
    ClashAttempt(rules);
    f := Quiet(ClashLinks2(), ClashPass2());
    RaiseStep(Machine(Clash2(), 2, true), f, rules);
  }

  // ------------------------------------------------------- a judge edge on a ledger alias

  /** A search developers missed, which resolves to a symbol. */
  function Miss(): MissGroup { MissGroup("pay flow", 0, 0, 3, 1, Some(LedgerTarget("pay.py", Art(2), Src(2), []))) }

  function MissRow(): R.Desired { R.Desired("pay flow", LedgerBody(Miss(), Miss().target.value), [], Some(Src(2))) }

  function LedgerAlias(): Artifact { R.NewAlias(MissRow(), 1) }

  function JudgeDraft(): LinkDraft { LinkDraft(Art(1), Art(9), "implements", 1.0, Pointer("quote")) }

  function JudgeEdge(): Edge { Edge(Art(1), Art(9), "implements", Judge, 1.0, Pointer("quote"), 2, None) }

  /** A page and a symbol; the ledger's alias; the judge's edge onto it. */
  function Wiki0(): Db {
    Db(map[Src(1) := Source(OtherProse, "wiki", None, "text", Some(5), 1, false, []), Src(2) := CodeOf("pay.py", "code")],
       map[Art(1) := Prose(Src(1), "text", 1, None), Art(2) := Symbol(Src(2), "code", 1)], map[], map[])
  }

  function Wiki1(): Db { Wiki0().(artifacts := Wiki0().artifacts[Art(9) := LedgerAlias()]) }

  function Wiki2(): Db { Wiki1().(edges := map[Link(1) := JudgeEdge()]) }

  function IdleMiner(): AliasInput { AliasInput([], map[]) }

  function OneAlias(): AliasChoice { AliasChoice([Art(9)], ["pay flow"], [], [], [], [], []) }

  function Judges(id: EdgeId): Option<LinkBatch> { Some(LinkBatch(Judge, [JudgeDraft()], [id], {}, true)) }

  /** Build 1 mines the miss; build 2's judge rules that the page implements it; in build 3
      it rules the same, and the misses have left the window. */
  function Mining(): FinalizeInput {
    FinalizeInput(NoLinks(), None, AllSeen({Src(1), Src(2)}), IdleMiner(), AliasChoice([], [], [], [], [], [], []), [], [Miss()], [Art(9)])
  }

  function Ruling(): FinalizeInput {
    FinalizeInput(NoLinks(), Judges(Link(1)), AllSeen({}), IdleMiner(), OneAlias(), [Art(9)], [Miss()], [Art(8)])
  }

  function Forgotten(): FinalizeInput {
    FinalizeInput(NoLinks(), Judges(Link(8)), AllSeen({}), IdleMiner(), OneAlias(), [Art(9)], [], [])
  }

  lemma FinalizedByParts(db: Db, f: FinalizeInput, rules: Rules, n: int, b: Db, c: Db, d: Db)
    requires LegalLinks(db, f, n) && AfterLinks(db, f, n) == b
    requires LegalInput(b, n, f.pass) && InvalidationPass(b, n, f.pass) == c
    requires LegalChoice(c, f.alias, f.choice, rules, n) && AliasStage(c, f.alias, f.choice, rules, n) == d
    requires LegalLedger(d.artifacts, f.ledgerOrder, f.misses, f.ledgerIds)
    ensures LegalFinalize(db, f, rules, n) && AfterPass(db, f, n) == c
    ensures Finalized(db, f, rules, n) == LedgerStage(d, f.ledgerOrder, f.misses, f.ledgerIds, n)
  {
    hide LegalLinks, AfterLinks, LegalInput, InvalidationPass, LegalChoice, AliasStage, LegalLedger, LedgerStage;
  }

  /** Nothing vanished and nothing superseded. */
  lemma IdlePass(d: Db, n: int, changed: set<SourceId>)
    requires forall s :: s in d.sources ==> s in {Src(1), Src(2)}
    requires forall a :: !AclStale(d, {Src(1), Src(2)}, a)
    requires PriorGeneration(d, n, changed) == {}
    ensures LegalInput(d, n, AllSeen(changed)) && InvalidationPass(d, n, AllSeen(changed)) == d
  {
    SweepNothing(d, n);
    assert SupersessionSwept(d, n, changed) == d;
    hide SupersessionSwept, AclStale, LegalInput, InvalidationPass, PriorGeneration;
    OnlySupersedes(d, n, AllSeen(changed));
  }

  lemma WikiPass()
    ensures LegalInput(Wiki0(), 1, AllSeen({Src(1), Src(2)})) && InvalidationPass(Wiki0(), 1, AllSeen({Src(1), Src(2)})) == Wiki0()
    ensures LegalInput(Wiki2(), 2, AllSeen({})) && InvalidationPass(Wiki2(), 2, AllSeen({})) == Wiki2()
    ensures LegalInput(Wiki2(), 3, AllSeen({})) && InvalidationPass(Wiki2(), 3, AllSeen({})) == Wiki2()
  {
    WikiIsCurrent();
    hide *;
    IdlePass(Wiki0(), 1, {Src(1), Src(2)});
    IdlePass(Wiki2(), 2, {});
    IdlePass(Wiki2(), 3, {});
  }

  lemma WikiIsCurrent()
    ensures forall s :: s in Wiki0().sources ==> s in {Src(1), Src(2)}
    ensures forall s :: s in Wiki2().sources ==> s in {Src(1), Src(2)}
    ensures forall a :: !AclStale(Wiki0(), {Src(1), Src(2)}, a) && !AclStale(Wiki2(), {Src(1), Src(2)}, a)
    ensures PriorGeneration(Wiki0(), 1, {Src(1), Src(2)}) == {}
    ensures PriorGeneration(Wiki2(), 2, {}) == {} && PriorGeneration(Wiki2(), 3, {}) == {}
  {}

  lemma JudgeLinks(db: Db, n: int, id: EdgeId)
    requires db == Wiki1() || db == Wiki2()
    requires if db == Wiki1() then n == 2 && id == Link(1) else id !in db.edges
    ensures Linked(db, NoLinks(), n) == db && LegalBatch(db, NoLinks())
    ensures LegalBatch(db, Judges(id).value) && Linked(db, Judges(id).value, n) == Wiki2()
  {
    var b := Judges(id).value;
    assert StaleSwept(db.edges, NoLinks(), n) == db.edges;
    OneUpsert(db.edges, Judge, JudgeDraft(), id, n);
    JudgeUpsert(db, n, id);
    assert Conflicts(JudgeEdge(), Judge, JudgeDraft()) && JudgeDraft() in b.drafts;
    hide UpsertAll, Upsert;
    assert StaleSwept(Wiki2().edges, b, n) == Wiki2().edges;
  }

  lemma JudgeUpsert(db: Db, n: int, id: EdgeId)
    requires db == Wiki1() || db == Wiki2()
    requires if db == Wiki1() then n == 2 && id == Link(1) else id !in db.edges
    ensures Upsert(db.edges, Judge, JudgeDraft(), id, n) == Wiki2().edges
  {
    if db == Wiki1() {
      assert !AnyConflict(db.edges, Judge, JudgeDraft());
    } else {
      assert Conflicts(db.edges[Link(1)], Judge, JudgeDraft());
      assert Refreshed(JudgeEdge(), JudgeDraft()) == JudgeEdge();
    }
  }

  lemma RulingLinks()
    ensures LegalLinks(Wiki1(), Ruling(), 2) && AfterLinks(Wiki1(), Ruling(), 2) == Wiki2()
    ensures LegalLinks(Wiki2(), Forgotten(), 3) && AfterLinks(Wiki2(), Forgotten(), 3) == Wiki2()
  {
    assert Link(8) !in Wiki2().edges;
    assert DraftsExist(Wiki1(), Judges(Link(1)).value) && DraftsExist(Wiki2(), Judges(Link(8)).value);
    assert DraftsExist(Wiki1(), NoLinks()) && DraftsExist(Wiki2(), NoLinks());
    JudgeLinks(Wiki1(), 2, Link(1));
    JudgeLinks(Wiki2(), 3, Link(8));
    hide Linked, LegalBatch, DraftsExist, Wiki1, Wiki2;
  }

  /** The miner leaves the ledger's alias alone. */
  lemma WikiAlias(rules: Rules, n: int)
    requires n == 2 || n == 3
    ensures LegalChoice(Wiki2(), IdleMiner(), OneAlias(), rules, n) && AliasStage(Wiki2(), IdleMiner(), OneAlias(), rules, n) == Wiki2()
  {
    var rows := Wiki2().artifacts;
    assert [Art(9)][..0] == [] && ByTitle(rows, []) == map[];
    assert ByTitle(rows, [Art(9)]) == map["pay flow" := Art(9)];
    assert forall a :: a in rows && Loadable(rows[a], n) ==> a == Art(9);
    assert Art(9) in [Art(9)];
    assert ListsAliases(rows, [Art(9)], n);
    assert ListsTitles(Prior(rows, ByTitle(rows, [Art(9)])), ["pay flow"]);
    hide ByTitle, ListsAliases, ListsTitles, Prior, AliasStage, LegalChoice;
    IdleAlias(Wiki2(), [Art(9)], ["pay flow"], rules, n);
  }

  /** Nothing is mined in build 1 either. */
  lemma FirstAlias(rules: Rules)
    ensures var i, c := IdleMiner(), AliasChoice([], [], [], [], [], [], []);
      LegalChoice(Wiki0(), i, c, rules, 1) && AliasStage(Wiki0(), i, c, rules, 1) == Wiki0()
  {
    assert ByTitle(Wiki0().artifacts, []) == map[];
    hide AliasStage, LegalChoice, ByTitle;
    IdleAlias(Wiki0(), [], [], rules, 1);
  }

  lemma OneMissPlanned(p: PriorState, id: ArtifactId)
    requires "pay flow" in p.ledgerRows || "pay flow" !in p.allTitles
    ensures PlanOf(p, [Miss()], [id]) == Plan([MissRow()], [id])
  {
    assert [Miss()][..0] == [] && [id][..0] == [];
    assert PlanOf(p, [], []) == Plan([], []);
  }

  lemma OneRow(rows: R.Rows, byTitle: map<string, ArtifactId>, id: ArtifactId, n: int)
    ensures R.UpsertAll(rows, byTitle, [MissRow()], [id], n) == R.Upsert(rows, byTitle, MissRow(), id, n)
    ensures R.Titles([MissRow()]) == {"pay flow"}
  {
    assert [MissRow()][..0] == [] && [id][..0] == [];
    assert R.UpsertAll(rows, byTitle, [], [], n) == rows;
    assert MissRow() in [MissRow()];
  }

  /** Build 1: the ledger pass inserts the alias. */
  lemma LedgerMines()
    ensures LegalLedger(Wiki0().artifacts, [], [Miss()], [Art(9)])
    ensures LedgerStage(Wiki0(), [], [Miss()], [Art(9)], 1) == Wiki1()
  {
    var rows := Wiki0().artifacts;
    var p := LoadState(rows, []);
    assert p == PriorState({}, map[]);
    OneMissPlanned(p, Art(9));
    OneRow(rows, map[], Art(9), 1);
    hide PlanOf, R.UpsertAll, R.Titles;
    assert R.Upsert(rows, map[], MissRow(), Art(9), 1) == Wiki1().artifacts;
    assert R.SweepUnwanted(Wiki1().artifacts, map[], {"pay flow"}, false, 1) == Wiki1().artifacts;
  }

  /** Build 2: the same misses refresh it. */
  lemma LedgerRefreshes()
    ensures LegalLedger(Wiki2().artifacts, [Art(9)], [Miss()], [Art(8)])
    ensures LedgerStage(Wiki2(), [Art(9)], [Miss()], [Art(8)], 2) == Wiki2()
  {
    var rows, byTitle := Wiki2().artifacts, map["pay flow" := Art(9)];
    WikiLoaded();
    OneMissPlanned(LoadState(rows, [Art(9)]), Art(8));
    OneRow(rows, byTitle, Art(8), 2);
    AliasRefreshed();
    RefreshIsLegal();
    hide PlanOf, R.UpsertAll, R.Upsert, R.SweepUnwanted, R.Titles, LoadState, Wiki2, LegalLedger;
    assert Wiki2() == Wiki2().(artifacts := rows);
  }

  lemma RefreshIsLegal()
    ensures LegalLedger(Wiki2().artifacts, [Art(9)], [Miss()], [Art(8)])
  {
    assert Art(9) in [Art(9)];
  }

  lemma WikiLoaded()
    ensures LoadState(Wiki2().artifacts, [Art(9)]) == PriorState({"pay flow"}, map["pay flow" := Art(9)])
  {
    var rows := Wiki2().artifacts;
    assert [Art(9)][..0] == [] && LoadState(rows, []) == PriorState({}, map[]);
    hide LedgerAlias;
    LedgerAliasIs();
  }

  lemma LedgerAliasIs()
    ensures LedgerAlias().title == Some("pay flow") && R.LedgerOwned(LedgerAlias())
  {}

  lemma AliasRefreshed()
    ensures var rows, byTitle := Wiki2().artifacts, map["pay flow" := Art(9)];
      && R.Upsert(rows, byTitle, MissRow(), Art(8), 2) == rows
      && R.SweepUnwanted(rows, byTitle, {"pay flow"}, false, 2) == rows
  {
    assert R.RefreshedAlias(LedgerAlias(), MissRow()) == LedgerAlias();
  }

  lemma MiningLinks()
    ensures LegalLinks(Wiki0(), Mining(), 1) && AfterLinks(Wiki0(), Mining(), 1) == Wiki0()
  {
    LinksNothing(Wiki0(), 1);
    hide Linked, LegalBatch, DraftsExist, Wiki0;
  }

  lemma FirstFinalize(rules: Rules)
    ensures LegalFinalize(Wiki0(), Mining(), rules, 1) && Finalized(Wiki0(), Mining(), rules, 1) == Wiki1()
  {
    var f := Mining();
    hide *;
    InputsAre();
    MiningLinks();
    WikiPass();
    FirstAlias(rules);
    LedgerMines();
    FinalizedByParts(Wiki0(), f, rules, 1, Wiki0(), Wiki0(), Wiki0());
  }

  lemma SecondFinalize(rules: Rules)
    ensures LegalFinalize(Wiki1(), Ruling(), rules, 2) && Finalized(Wiki1(), Ruling(), rules, 2) == Wiki2()
  {
    var f := Ruling();
    hide *;
    InputsAre();
    RulingLinks();
    WikiPass();
    WikiAlias(rules, 2);
    LedgerRefreshes();
    FinalizedByParts(Wiki1(), f, rules, 2, Wiki2(), Wiki2(), Wiki2());
  }

  lemma ThirdFinalize(rules: Rules)
    ensures LegalFinalize(Wiki2(), Forgotten(), rules, 3) && AfterPass(Wiki2(), Forgotten(), 3) == Wiki2()
  {
    var f := Forgotten();
    hide *;
    InputsAre();
    RulingLinks();
    WikiPass();
    WikiAlias(rules, 3);
    NothingMissed();
    FinalizedByParts(Wiki2(), f, rules, 3, Wiki2(), Wiki2(), Wiki2());
  }

  lemma InputsAre()
    ensures var f := Mining(); f.pass == AllSeen({Src(1), Src(2)}) && f.alias == IdleMiner() && f.choice == AliasChoice([], [], [], [], [], [], []) && f.ledgerOrder == [] && f.misses == [Miss()] && f.ledgerIds == [Art(9)]
    ensures var f := Ruling(); f.pass == AllSeen({}) && f.alias == IdleMiner() && f.choice == OneAlias() && f.ledgerOrder == [Art(9)] && f.misses == [Miss()] && f.ledgerIds == [Art(8)]
    ensures var f := Forgotten(); f.pass == AllSeen({}) && f.alias == IdleMiner() && f.choice == OneAlias() && f.ledgerOrder == [Art(9)] && f.misses == [] && f.ledgerIds == []
  {}

  lemma NothingMissed()
    ensures LegalLedger(Wiki2().artifacts, [Art(9)], [], [])
  {
    assert Art(9) in [Art(9)];
  }

  lemma AliasIsStranded(rules: Rules)
    ensures Stranded(Wiki2(), MinedPhrases(Forgotten(), rules), [], 3, Link(1)) && Forgotten().misses == []
  {
    assert FreshContributions([], rules.mine) == [] && G.PhrasesOf([]) == {};
    assert !Resolves([], "pay flow");
  }

  lemma WikiCommits()
    ensures LegalCommit(Empty().db, 1, Wiki0().sources, Wiki0().artifacts, map[])
    ensures Committed(Empty().db, Wiki0().sources, Wiki0().artifacts, map[]) == Wiki0()
  {}

  lemma NothingNew(db: Db, n: int)
    ensures LegalCommit(db, n, map[], map[], map[]) && Committed(db, map[], map[], map[]) == db
  {
    assert db.sources + map[] == db.sources && db.artifacts + map[] == db.artifacts;
    assert db.edges + map[] == db.edges && db.generation + map[] == db.generation;
  }

  lemma WikiIsGhostFree()
    ensures GhostFree(Wiki2()) && LiveEdge(Wiki2(), Link(1))
  {}

  /** Three builds from the empty registry.  The ledger pass of the first writes an alias for
      a missed search, the judge of the second rules that a page implements it, and in the
      third nobody has missed the search any more: the ledger pass retires its alias, the
      judge's edge onto it is no edge of its own, and the finalize leaves it live on a dead
      row. */
  lemma JudgeEdgeIsStranded(rules: Rules) returns (two: seq<Step>, three: seq<Step>)
    requires Tame(rules)
    ensures LegalRun(Empty(), two, rules) && LegalRun(Empty(), three, rules)
    ensures var v2, v3 := Run(Empty(), two, rules), Run(Empty(), three, rules);
      && !v2.building && v2.build == 2 && !v3.building && v3.build == 3
      && GhostFree(v2.db) && LiveEdge(v2.db, Link(1)) && Ghost(v3.db, Link(1))
  {
    hide *;
    NoSteps(Empty(), rules);
    WikiCommits();
    EmptyIs();
    var one := UntilFinalize(Empty(), [], Empty().db, 0, 1, Wiki0().sources, Wiki0().artifacts, map[], rules);
    FirstFinalize(rules);
    FinalizeStep(Machine(Wiki0(), 1, true), Mining(), rules);
    RunGrows(Empty(), one, Finalize(Mining()), rules);
    NothingNew(Wiki1(), 2);
    two := UntilFinalize(Empty(), one + [Finalize(Mining())], Wiki1(), 1, 2, map[], map[], map[], rules);
    SecondFinalize(rules);
    FinalizeStep(Machine(Wiki1(), 2, true), Ruling(), rules);
    RunGrows(Empty(), two, Finalize(Ruling()), rules);
    two := two + [Finalize(Ruling())];
    WikiIsGhostFree();
    NothingNew(Wiki2(), 3);
    three := UntilFinalize(Empty(), two, Wiki2(), 2, 3, map[], map[], map[], rules);
    ThirdFinalize(rules);
    EmptyRegistry(rules.mine);
    RunKeepsInv(Empty(), three, rules);
    StrandedAfter(rules);
    FinalizeStep(Machine(Wiki2(), 3, true), Forgotten(), rules);
    RunGrows(Empty(), three, Finalize(Forgotten()), rules);
    three := three + [Finalize(Forgotten())];
  }

  lemma EmptyIs()
    ensures Empty() == Machine(Empty().db, 0, false) && Empty().db == Db(map[], map[], map[], map[])
  {}

  /** In any state the invariant holds in. */
  lemma StrandedAfter(rules: Rules)
    requires Tame(rules) && Engine.Inv(Machine(Wiki2(), 3, true), rules.mine)
    ensures LegalFinalize(Wiki2(), Forgotten(), rules, 3) && Ghost(Finalized(Wiki2(), Forgotten(), rules, 3), Link(1))
  {
    hide *;
    WikiSoundAt(rules);
    ThirdFinalize(rules);
    AliasIsStranded(rules);
    TameIs(rules);
    AliasPassGhosts(Wiki2(), Forgotten(), rules, 3, Link(1));
  }

  lemma TameIs(rules: Rules)
    requires Tame(rules)
    ensures G.TidyMiner(rules.mine) && G.IsRanking(rules.rank)
  {}

  lemma WikiSoundAt(rules: Rules)
    requires Engine.Inv(Machine(Wiki2(), 3, true), rules.mine)
    ensures NothingLeft(Wiki2(), 3) && SoundIndex(Wiki2().artifacts, rules.mine) && KeysSound(Wiki2())
  {
    hide NothingLeft, SoundIndex, KeysSound, Sequenced, LinksOffFresh, Wiki2;
  }
}
