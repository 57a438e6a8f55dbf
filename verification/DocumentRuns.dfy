/** The listing, the code trees and the builds of a history are runs of the engine, so
    what holds over every run holds for them. */
module DocumentRuns {
  import opened Prelude
  import opened Registry
  import opened Documents
  import opened AliasIndex
  import opened BuildMachine
  import opened Engine
  import opened CodeTrees
  import opened Incremental
  import opened FromScratch

  // ------------------------------------------------------- runs, one after the other

  lemma RunGrows(m: Machine, steps: seq<Step>, s: Step, rules: Rules)
    requires LegalRun(m, steps, rules) && LegalStep(Run(m, steps, rules), s, rules)
    ensures LegalRun(m, steps + [s], rules) && Run(m, steps + [s], rules) == Next(Run(m, steps, rules), s, rules)
  {
    assert (steps + [s])[..|steps|] == steps;
    hide Next, LegalStep;
  }

  lemma NoSteps(m: Machine, rules: Rules)
    ensures LegalRun(m, [], rules) && Run(m, [], rules) == m
  {}

  lemma LastStep(m: Machine, steps: seq<Step>, rules: Rules)
    requires LegalRun(m, steps, rules) && steps != []
    ensures var init, last := steps[..|steps| - 1], steps[|steps| - 1];
      && LegalRun(m, init, rules) && LegalStep(Run(m, init, rules), last, rules)
      && Run(m, steps, rules) == Next(Run(m, init, rules), last, rules)
  {
    hide Next, LegalStep;
  }

  lemma TouchStep(m: Machine, rows: map<SourceId, Source>, rules: Rules)
    requires m.building
    ensures LegalStep(m, Touch(rows), rules)
    ensures Next(m, Touch(rows), rules) == m.(db := m.db.(sources := m.db.sources + rows))
  {}

  lemma CommitStep(m: Machine, rows: map<SourceId, Source>, artifacts: map<ArtifactId, Artifact>, edges: map<EdgeId, Edge>,
                   generation: map<string, seq<ArtifactId>>, rules: Rules)
    requires m.building && LegalCommit(m.db, m.build, rows, artifacts, edges)
    ensures LegalStep(m, Commit(rows, artifacts, edges, generation), rules)
    ensures Next(m, Commit(rows, artifacts, edges, generation), rules) ==
      m.(db := Db(m.db.sources + rows, m.db.artifacts + artifacts, m.db.edges + edges, m.db.generation + generation))
  {
    hide LegalCommit;
  }

  lemma {:induction false} RunsConcat(m: Machine, xs: seq<Step>, ys: seq<Step>, rules: Rules)
    requires LegalRun(m, xs, rules) && LegalRun(Run(m, xs, rules), ys, rules)
    ensures LegalRun(m, xs + ys, rules) && Run(m, xs + ys, rules) == Run(Run(m, xs, rules), ys, rules)
  {
    hide *;
    NoSteps(Run(m, xs, rules), rules);
    if ys == [] {
      assert xs + ys == xs;
    } else {
      var init, last := ys[..|ys| - 1], ys[|ys| - 1];
      LastStep(Run(m, xs, rules), ys, rules);
      RunsConcat(m, xs, init, rules);
      RunGrows(m, xs + init, last, rules);
      assert (xs + init) + [last] == xs + ys;
    }
  }

  // ------------------------------------------------------- the listing

  ghost predicate NoAliases(extract: Extractor) {
    forall t, d :: d in extract(t) ==> d.kind != AliasReference
  }

  /** The step one item comes to.  A roll back takes the open touches with it. */
  function StepOf(s: Session, i: Item, extract: Extractor, n: int, now: int): Step
    requires |extract(i.text)| <= |i.ids|
  {
    var w := Process(s, i, extract, n, now).work;
    match FateOf(s, i)
    case Touched => Touch(w.sources)
    case Failed => Touch(w.sources)
    case Replayed => Commit(map[i.source := Upserted(s.work, i, now)], map[], map[], map[])
    case Written =>
      Commit(map[i.source := Upserted(s.work, i, now)], RowsFor(extract(i.text), i, n), map[],
             KeyOf(i, extract))
  }

  lemma RowsAreNew(s: Session, i: Item, extract: Extractor, n: int)
    requires |extract(i.text)| <= |i.ids| && NoAliases(extract)
    requires forall p :: 0 <= p < |i.ids| ==> i.ids[p] !in s.work.artifacts
    requires forall p, q :: 0 <= p < q < |i.ids| ==> i.ids[p] != i.ids[q]
    ensures forall a :: a in RowsFor(extract(i.text), i, n) ==>
      var r := RowsFor(extract(i.text), i, n)[a];
      a !in s.work.artifacts && r.source == i.source && r.kind != AliasReference && r.validFrom == n && r.gone.None?
  {
    var rows := RowsFor(extract(i.text), i, n);
    forall a | a in rows
      ensures a !in s.work.artifacts && rows[a].source == i.source && rows[a].kind != AliasReference
      ensures rows[a].validFrom == n && rows[a].gone.None?
    {
      var k := RowsForOnly(extract(i.text), i, n, a);
      RowsForAt(extract(i.text), i, n, k);
      assert extract(i.text)[k] in extract(i.text);
    }
  }

  lemma ItemIsStep(m: Machine, s: Session, i: Item, extract: Extractor, now: int, rules: Rules)
    requires m.building && m.db == s.work && SameButTouches(s.saved, s.work) && |extract(i.text)| <= |i.ids| && NoAliases(extract)
    requires forall p :: 0 <= p < |i.ids| ==> i.ids[p] !in s.work.artifacts
    requires forall p, q :: 0 <= p < q < |i.ids| ==> i.ids[p] != i.ids[q]
    ensures var step := StepOf(s, i, extract, m.build, now);
      LegalStep(m, step, rules) && Next(m, step, rules) == m.(db := Process(s, i, extract, m.build, now).work)
  {
    hide *;
    var f, d := FateOf(s, i), Process(s, i, extract, m.build, now).work;
    var row := map[i.source := Upserted(s.work, i, now)];
    if f.Touched? || f.Failed? {
      StepTouches(s, i, extract, m.build, now);
      TouchStep(m, d.sources, rules);
    } else if f.Replayed? {
      StepReplays(s, i, extract, m.build, now);
      NothingCommitted(m.db, m.build, row);
      CommitStep(m, row, map[], map[], map[], rules);
    } else {
      StepWrites(s, i, extract, m.build, now);
      RowsAreNew(s, i, extract, m.build);
      RowsCommitted(m.db, m.build, row, i.source, RowsFor(extract(i.text), i, m.build));
      CommitStep(m, row, RowsFor(extract(i.text), i, m.build), map[], KeyOf(i, extract), rules);
    }
  }

  function KeyOf(i: Item, extract: Extractor): map<string, seq<ArtifactId>> {
    if Cached(i) then map[i.text := Firsts(i.ids, |extract(i.text)|)] else map[]
  }

  lemma NothingCommitted(db: Db, n: int, rows: map<SourceId, Source>)
    ensures LegalCommit(db, n, rows, map[], map[])
  {}

  lemma RowsCommitted(db: Db, n: int, rows: map<SourceId, Source>, s: SourceId, artifacts: map<ArtifactId, Artifact>)
    requires s in rows
    requires forall a :: a in artifacts ==>
      a !in db.artifacts && artifacts[a].source == s && artifacts[a].kind != AliasReference && artifacts[a].validFrom == n && artifacts[a].gone.None?
    ensures LegalCommit(db, n, rows, artifacts, map[])
  {}

  lemma StepTouches(s: Session, i: Item, extract: Extractor, n: int, now: int)
    requires SameButTouches(s.saved, s.work) && |extract(i.text)| <= |i.ids|
    requires FateOf(s, i).Touched? || FateOf(s, i).Failed?
    ensures var d := Process(s, i, extract, n, now).work;
      StepOf(s, i, extract, n, now) == Touch(d.sources) && d == s.work.(sources := s.work.sources + d.sources)
  {
    ProcessedSources(s, i, extract, n, now);
    hide RowsFor, Upserted, SameButTouches, Process;
  }

  lemma StepReplays(s: Session, i: Item, extract: Extractor, n: int, now: int)
    requires |extract(i.text)| <= |i.ids| && FateOf(s, i).Replayed?
    ensures var d, db, row := Process(s, i, extract, n, now).work, s.work, map[i.source := Upserted(s.work, i, now)];
      StepOf(s, i, extract, n, now) == Commit(row, map[], map[], map[]) &&
      d == Db(db.sources + row, db.artifacts + map[], db.edges + map[], db.generation + map[])
  {
    hide RowsFor, Upserted;
  }

  lemma StepWrites(s: Session, i: Item, extract: Extractor, n: int, now: int)
    requires |extract(i.text)| <= |i.ids| && FateOf(s, i).Written?
    ensures var d, db, row := Process(s, i, extract, n, now).work, s.work, map[i.source := Upserted(s.work, i, now)];
      var rows := RowsFor(extract(i.text), i, n);
      StepOf(s, i, extract, n, now) == Commit(row, rows, map[], KeyOf(i, extract)) &&
      d == Db(db.sources + row, db.artifacts + rows, db.edges + map[], db.generation + KeyOf(i, extract))
  {
    hide RowsFor, Upserted;
  }

  lemma ProcessedSources(s: Session, i: Item, extract: Extractor, n: int, now: int)
    requires SameButTouches(s.saved, s.work) && |extract(i.text)| <= |i.ids|
    ensures var d, f, db := Process(s, i, extract, n, now).work, FateOf(s, i), s.work;
      f.Touched? || f.Failed? ==> d == db.(sources := db.sources + d.sources)
  {
    hide RowsFor, Upserted;
  }

  lemma IdsAreNew(db: Db, items: seq<Item>, extract: Extractor, n: int, now: int)
    requires LegalListing(db, items, extract) && items != []
    ensures var s, i := ProcessAll(db, items[..|items| - 1], extract, n, now), items[|items| - 1];
      forall p :: 0 <= p < |i.ids| ==> i.ids[p] !in s.work.artifacts
  {
    var init, i := items[..|items| - 1], items[|items| - 1];
    Prefix(db, items, extract);
    var s := ProcessAll(db, init, extract, n, now);
    forall p | 0 <= p < |i.ids| ensures i.ids[p] !in s.work.artifacts {
      if i.ids[p] in s.work.artifacts {
        var k, q := NewRowIsDraft(db, init, extract, n, now, i.ids[p]);
      }
    }
  }

  /** A listing is a run of commits and touches, one step an item. */
  lemma {:induction false} ListingIsRun(m: Machine, items: seq<Item>, extract: Extractor, now: int, rules: Rules)
    returns (steps: seq<Step>)
    requires m.building && LegalListing(m.db, items, extract) && NoAliases(extract)
    ensures LegalRun(m, steps, rules)
    ensures Run(m, steps, rules) == m.(db := ProcessAll(m.db, items, extract, m.build, now).work)
    ensures |steps| == |items| && forall k :: 0 <= k < |steps| ==> steps[k].Commit? || steps[k].Touch?
  {
    if items == [] {
      steps := [];
      NoSteps(m, rules);
    } else {
      var init, i := items[..|items| - 1], items[|items| - 1];
      var s := ProcessAll(m.db, init, extract, m.build, now);
      Prefix(m.db, items, extract);
      IdsAreNew(m.db, items, extract, m.build, now);
      assert |extract(i.text)| <= |i.ids| && (forall p, q :: 0 <= p < q < |i.ids| ==> i.ids[p] != i.ids[q]);
      assert ProcessAll(m.db, items, extract, m.build, now) == Process(s, i, extract, m.build, now);
      assert EnoughIds(init, extract);
      assert StepOf(s, i, extract, m.build, now).Commit? || StepOf(s, i, extract, m.build, now).Touch?;
      hide *;
      WorkIsSavedButTouches(m.db, init, extract, m.build, now);
      var before := ListingIsRun(m, init, extract, now, rules);
      ItemIsStep(m.(db := s.work), s, i, extract, now, rules);
      RunGrows(m, before, StepOf(s, i, extract, m.build, now), rules);
      steps := before + [StepOf(s, i, extract, m.build, now)];
    }
  }

  // ------------------------------------------------------- builds

  /** The listing and the code trees, up to the finalize. */
  lemma ProcessingIsRun(m: Machine, b: Build, extract: Extractor) returns (steps: seq<Step>)
    requires m.building && m.build == b.n && Ready(m.db, b, extract)
    ensures LegalRun(m, steps, b.rules)
    ensures Run(m, steps, b.rules) == m.(db := Processed(m.db, b, extract).work)
  {
    var w := ProcessAll(m.db, b.items, extract, b.n, b.now).work;
    ReadyIs(m.db, b, extract);
    assert Processed(m.db, b, extract).work == WithCode(w, b.code);
    hide *;
    TreeCommits(m.db, w, b.items, b.code, b.n);
    var listed := ListingIsRun(m, b.items, extract, b.now, b.rules);
    CommitStep(m.(db := w), b.code.sources, b.code.artifacts, b.code.edges, map[], b.rules);
    RunGrows(m, listed, Commit(b.code.sources, b.code.artifacts, b.code.edges, map[]), b.rules);
    steps := listed + [Commit(b.code.sources, b.code.artifacts, b.code.edges, map[])];
  }

  /** So the listing and the code trees leave what the finalize relies on. */
  lemma ProcessingKeepsInv(m: Machine, b: Build, extract: Extractor)
    requires m.building && m.build == b.n && Ready(m.db, b, extract) && Engine.Inv(m, b.rules.mine)
    ensures Engine.Inv(m.(db := Processed(m.db, b, extract).work), b.rules.mine)
  {
    hide *;
    var steps := ProcessingIsRun(m, b, extract);
    RunKeepsInv(m, steps, b.rules);
  }

  lemma ReadyIs(db: Db, b: Build, extract: Extractor)
    requires Ready(db, b, extract)
    ensures LegalListing(db, b.items, extract) && NoAliases(extract)
    ensures LegalTree(db, ProcessAll(db, b.items, extract, b.n, b.now).work, b.items, b.code, b.n)
  {
    hide ProcessAll, LegalListing, LegalTree;
  }

  lemma TreeCommits(db: Db, w: Db, items: seq<Item>, t: CodeTree, n: int)
    requires LegalTree(db, w, items, t, n)
    ensures LegalCommit(w, n, t.sources, t.artifacts, t.edges)
    ensures WithCode(w, t) == Db(w.sources + t.sources, w.artifacts + t.artifacts, w.edges + t.edges, w.generation + map[])
  {
    hide LegalCommit, KeptApart;
  }

  lemma StartStep(m: Machine, n: int, rules: Rules)
    requires !m.building && n > m.build
    ensures LegalStep(m, Start(n), rules) && Next(m, Start(n), rules) == Machine(m.db, n, true)
  {}

  lemma FinalizeStep(m: Machine, f: FinalizeInput, rules: Rules)
    requires m.building && LegalFinalize(m.db, f, rules, m.build)
    ensures LegalStep(m, Finalize(f), rules)
    ensures Next(m, Finalize(f), rules) == Machine(Finalized(m.db, f, rules, m.build), m.build, false)
  {
    hide Finalized, LegalFinalize, LegalAttempt, Raises, LegalCommit, LegalLinks;
    FinalizeRuns(m.db, f, rules, m.build);
  }

  lemma FinalizeRuns(db: Db, f: FinalizeInput, rules: Rules, n: int)
    requires LegalFinalize(db, f, rules, n)
    ensures LegalLinks(db, f, n) && LegalAttempt(db, f, rules, n) && !Raises(db, f, n)
  {}

  lemma CrashStep(m: Machine, rules: Rules)
    requires m.building
    ensures LegalStep(m, Crash, rules) && Next(m, Crash, rules) == m.(building := false)
  {}

  /** A completed build is a run: start, listing, code trees, finalize. */
  lemma BuildIsRun(m: Machine, b: Build, extract: Extractor) returns (steps: seq<Step>)
    requires !m.building && m.build < b.n && LegalBuild(m.db, b, extract)
    ensures LegalRun(m, steps, b.rules) && Run(m, steps, b.rules) == Machine(Built(m.db, b, extract), b.n, false)
  {
    BuildIs(m.db, b, extract);
    hide *;
    var m1 := Machine(m.db, b.n, true);
    NoSteps(m, b.rules);
    StartStep(m, b.n, b.rules);
    RunGrows(m, [], Start(b.n), b.rules);
    assert [] + [Start(b.n)] == [Start(b.n)];
    var processing := ProcessingIsRun(m1, b, extract);
    RunsConcat(m, [Start(b.n)], processing, b.rules);
    var m2 := m1.(db := Processed(m.db, b, extract).work);
    FinalizeStep(m2, b.f, b.rules);
    RunGrows(m, [Start(b.n)] + processing, Finalize(b.f), b.rules);
    steps := [Start(b.n)] + processing + [Finalize(b.f)];
  }

  /** So is a build that crashes before its finalize: the open touches are rolled back. */
  lemma CrashIsRun(m: Machine, b: Build, extract: Extractor) returns (steps: seq<Step>)
    requires !m.building && m.build < b.n && Ready(m.db, b, extract)
    ensures LegalRun(m, steps, b.rules) && Run(m, steps, b.rules) == Machine(Crashed(m.db, b, extract), b.n, false)
  {
    var m1, c, w := Machine(m.db, b.n, true), Crashed(m.db, b, extract), Processed(m.db, b, extract).work;
    CrashLosesTouches(m.db, b, extract);
    hide *;
    NoSteps(m, b.rules);
    StartStep(m, b.n, b.rules);
    RunGrows(m, [], Start(b.n), b.rules);
    assert [] + [Start(b.n)] == [Start(b.n)];
    var processing := ProcessingIsRun(m1, b, extract);
    RunsConcat(m, [Start(b.n)], processing, b.rules);
    var done := [Start(b.n)] + processing;
    TouchStep(m1.(db := w), c.sources, b.rules);
    RunGrows(m, done, Touch(c.sources), b.rules);
    CrashStep(m1.(db := c), b.rules);
    RunGrows(m, done + [Touch(c.sources)], Crash, b.rules);
    steps := done + [Touch(c.sources)] + [Crash];
  }

  lemma CrashLosesTouches(db: Db, b: Build, extract: Extractor)
    requires Ready(db, b, extract)
    ensures var c, w := Crashed(db, b, extract), Processed(db, b, extract).work; w.(sources := w.sources + c.sources) == c
  {
    ReadyIs(db, b, extract);
    ListingHasIds(db, b.items, extract);
    hide *;
    CrashKeepsWork(db, b, extract, Src(0));
    forall s { CrashKeepsWork(db, b, extract, s); }
    TouchedBack(Processed(db, b, extract).work, Crashed(db, b, extract));
  }

  lemma TouchedBack(w: Db, c: Db)
    requires c.artifacts == w.artifacts && c.edges == w.edges && c.generation == w.generation
    requires forall s :: s in c.sources <==> s in w.sources
    ensures w.(sources := w.sources + c.sources) == c
  {
    assert w.sources + c.sources == c.sources;
  }

  // ------------------------------------------------------- histories

  /** Builds under increasing numbers and one set of rules. */
  ghost predicate InSequence(k: int, bs: seq<Build>, rules: Rules) {
    bs != [] ==> InSequence(k, bs[..|bs| - 1], rules) && LastNumber(k, bs[..|bs| - 1]) < bs[|bs| - 1].n && bs[|bs| - 1].rules == rules
  }

  function LastNumber(k: int, bs: seq<Build>): int {
    if bs == [] then k else bs[|bs| - 1].n
  }

  /** A history of builds is a run of the engine: the past it leaves is frozen, its alias
      index sound, its link keys unique, whatever its documents go through. */
  lemma {:induction false} HistoryIsRun(m: Machine, bs: seq<Build>, extract: Extractor, rules: Rules) returns (steps: seq<Step>)
    requires !m.building && History(m.db, bs, extract) && InSequence(m.build, bs, rules)
    ensures LegalRun(m, steps, rules)
    ensures Run(m, steps, rules) == Machine(After(m.db, bs, extract), LastNumber(m.build, bs), false)
  {
    if bs == [] {
      steps := [];
      NoSteps(m, rules);
    } else {
      var init, b := bs[..|bs| - 1], bs[|bs| - 1];
      LastBuild(m.db, bs, extract);
      hide LegalBuild, Built, Faultless, LegalRun, Run, After, History;
      var before := HistoryIsRun(m, init, extract, rules);
      var mid := Machine(After(m.db, init, extract), LastNumber(m.build, init), false);
      var last := BuildIsRun(mid, b, extract);
      RunsConcat(m, before, last, rules);
      steps := before + last;
    }
  }

  lemma LastBuild(db: Db, bs: seq<Build>, extract: Extractor)
    requires History(db, bs, extract) && bs != []
    ensures var init, b := bs[..|bs| - 1], bs[|bs| - 1];
      && History(db, init, extract) && LegalBuild(After(db, init, extract), b, extract)
      && After(db, bs, extract) == Built(After(db, init, extract), b, extract)
  {
    hide LegalBuild, Built, Faultless;
  }

  /** What the engine keeps, a history keeps. */
  lemma HistoryKeepsInv(m: Machine, bs: seq<Build>, extract: Extractor, rules: Rules)
    requires !m.building && History(m.db, bs, extract) && InSequence(m.build, bs, rules) && Engine.Inv(m, rules.mine)
    ensures Engine.Inv(Machine(After(m.db, bs, extract), LastNumber(m.build, bs), false), rules.mine)
  {
    hide *;
    var steps := HistoryIsRun(m, bs, extract, rules);
    RunKeepsInv(m, steps, rules);
  }
}
