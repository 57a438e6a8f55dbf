/** Builds that overlap.  The builder lock keeps them apart, but it can be lost, so any
    number may be under way at once: each commits, touches, crashes or finalizes under a
    sequence number of its own, one transaction at a time. */
module Builders {
  import opened Prelude
  import opened Registry
  import opened Invalidation
  import opened LinkEdges
  import opened AliasIndex
  import opened BuildMachine
  import Engine
  import DocumentRuns
  import opened DepartureRuns

  /** `last` is the last number handed out, `running` those whose build is under way. */
  datatype World = World(db: Db, last: int, running: set<int>)

  /** A build takes the next number, or one under way takes a step of the engine. */
  datatype Event = Begin(n: int) | By(n: int, step: Engine.Step)

  /** The registry as the build with this number sees it. */
  function Alone(w: World, n: int): Engine.Machine { Engine.Machine(w.db, n, true) }

  ghost predicate Possible(w: World, e: Event, rules: Rules) {
    match e
    case Begin(n) => n > w.last
    case By(n, step) => n in w.running && !step.Start? && Engine.LegalStep(Alone(w, n), step, rules)
  }

  ghost function After(w: World, e: Event, rules: Rules): World
    requires Possible(w, e, rules)
  {
    match e
    case Begin(n) => World(w.db, n, w.running + {n})
    case By(n, step) =>
      var m := Engine.Next(Alone(w, n), step, rules);
      World(m.db, w.last, if m.building then w.running else w.running - {n})
  }

  ghost predicate Interleaving(w: World, es: seq<Event>, rules: Rules)
    decreases |es|, 0
  {
    es != [] ==> Interleaving(w, es[..|es| - 1], rules) && Possible(End(w, es[..|es| - 1], rules), es[|es| - 1], rules)
  }

  ghost function End(w: World, es: seq<Event>, rules: Rules): World
    requires Interleaving(w, es, rules)
    decreases |es|, 1
  {
    if es == [] then w else After(End(w, es[..|es| - 1], rules), es[|es| - 1], rules)
  }

  // ------------------------------------------------------- settled versions

  /** No build under way has this number or a lower one, and none will get it. */
  ghost predicate Settled(w: World, s: int) {
    s <= w.last && forall n :: n in w.running ==> s < n
  }

  ghost predicate EventRevivesNothing(w: World, e: Event, rules: Rules)
    requires Possible(w, e, rules)
  {
    e.By? ==> Engine.StepRevivesNothing(Alone(w, e.n), e.step, rules)
  }

  ghost predicate RevivesNothingThroughout(w: World, es: seq<Event>, rules: Rules)
    requires Interleaving(w, es, rules)
  {
    es != [] ==>
      RevivesNothingThroughout(w, es[..|es| - 1], rules) &&
      EventRevivesNothing(End(w, es[..|es| - 1], rules), es[|es| - 1], rules)
  }

  /** A reconcile that revives nothing keeps the past, however the rows it finds are
      numbered. */
  lemma LinkedFreezesPast(db: Db, b: LinkBatch, n: int)
    requires LegalBatch(db, b) && forall e :: !RevivedAcrossBuilds(db, b, n, e)
    ensures Frozen(db, Linked(db, b, n), n)
  {
    var d := Linked(db, b, n);
    LinkedStamps(db, b, n);
    forall e | e in db.edges { LinkEdges.LinkedRow(db, b, n, e); }
    forall e | e in d.edges && e !in db.edges { LinkedInsert(db, b, n, e); }
    hide Linked, Drafted, Stale, Stamped;
    forall e | e in db.edges ensures SamePast(db.edges[e].gone, d.edges[e].gone, n) {
      assert !RevivedAcrossBuilds(db, b, n, e);
    }
    KeptPastIsFrozen(db, d, n);
  }

  lemma LinksFreezePast(db: Db, f: FinalizeInput, n: int)
    requires LegalLinks(db, f, n) && RevivesNothing(db, f, n)
    ensures Frozen(db, AfterLinks(db, f, n), n)
  {
    var mid := Linked(db, f.linker, n);
    LinkedFreezesPast(db, f.linker, n);
    hide Linked, RevivedAcrossBuilds, LegalBatch, DraftsExist, Frozen;
    if f.judge.Some? {
      forall e { JudgeRevivesTheSame(db, f.linker, f.judge.value, n, e); }
      LinkedFreezesPast(mid, f.judge.value, n);
      FrozenTransitive(db, mid, AfterLinks(db, f, n), n);
    }
  }

  /** So does a finalize, whatever other builds have committed or finalized before it. */
  lemma FinalizeFreezesPast(db: Db, f: FinalizeInput, rules: Rules, n: int)
    requires LegalFinalize(db, f, rules, n) && RevivesNothing(db, f, n)
    ensures Frozen(db, Finalized(db, f, rules, n), n)
  {
    hide *;
    LinksAreLegal(db, f, rules, n);
    LinksFreezePast(db, f, n);
    FinalizeStamps(db, f, rules, n);
    FrozenTransitive(db, AfterLinks(db, f, n), Finalized(db, f, rules, n), n);
  }

  lemma LinksAreLegal(db: Db, f: FinalizeInput, rules: Rules, n: int)
    requires LegalFinalize(db, f, rules, n)
    ensures LegalLinks(db, f, n)
  {}

  lemma EventFreezesPast(w: World, e: Event, rules: Rules)
    requires Possible(w, e, rules) && e.By? && EventRevivesNothing(w, e, rules)
    ensures Frozen(w.db, After(w, e, rules).db, e.n)
  {
    var m := Alone(w, e.n);
    hide LegalFinalize, Finalized, LegalAttempt, RevivesNothing, Engine.LegalCommit;
    match e.step
    case Commit(rows, artifacts, edges, generation) => Engine.CommitFreezesPast(m, e.step, rules);
    case Touch(rows) =>
    case Crash =>
    case Finalize(f) =>
      if Engine.Completes(m, e.step, rules) {
        CompletedIsLegal(m, f, rules);
        FinalizeFreezesPast(w.db, f, rules, e.n);
      }
  }

  lemma CompletedIsLegal(m: Engine.Machine, f: FinalizeInput, rules: Rules)
    requires Engine.LegalStep(m, Engine.Finalize(f), rules) && Engine.Completes(m, Engine.Finalize(f), rules)
    ensures LegalFinalize(m.db, f, rules, m.build)
  {
    hide LegalFinalize, Raises;
  }

  /** Over every interleaving of any number of builds: a version below the numbers of all
      builds under way keeps exactly its members, whatever these builds and later ones
      commit, lose in a crash, rename, sweep or revive among alias rows, as long as no
      finalize drafts an edge an earlier build had taken out. */
  lemma {:induction false} SettledVersionsStay(w: World, es: seq<Event>, rules: Rules, s: int)
    requires Interleaving(w, es, rules) && RevivesNothingThroughout(w, es, rules) && Settled(w, s)
    ensures Settled(End(w, es, rules), s)
    ensures ArtifactsAt(End(w, es, rules).db, s) == ArtifactsAt(w.db, s)
    ensures EdgesAt(End(w, es, rules).db, s) == EdgesAt(w.db, s)
  {
    if es != [] {
      var init, e := es[..|es| - 1], es[|es| - 1];
      var mid := End(w, init, rules);
      SettledVersionsStay(w, init, rules, s);
      assert End(w, es, rules) == After(mid, e, rules) && EventRevivesNothing(mid, e, rules);
      hide Engine.Next, Engine.LegalStep, EventRevivesNothing, ArtifactsAt, EdgesAt, Interleaving, End, RevivesNothingThroughout;
      if e.By? {
        EventFreezesPast(mid, e, rules);
        FrozenSets(mid.db, After(mid, e, rules).db, e.n, s);
      }
    }
  }

  /** And only such versions are safe from builds under way: a commit leaves the members of
      a version alone exactly when its number is greater or it adds no row. */
  lemma CommitMovesVersionIff(w: World, n: int, step: Engine.Step, rules: Rules, s: int)
    requires Possible(w, By(n, step), rules) && step.Commit?
    ensures var d := After(w, By(n, step), rules).db;
      (ArtifactsAt(d, s) == ArtifactsAt(w.db, s) && EdgesAt(d, s) == EdgesAt(w.db, s)) <==>
      (s < n || (step.artifacts == map[] && step.edges == map[]))
  {
    var d := After(w, By(n, step), rules).db;
    if s < n {
      Engine.CommitFreezesPast(Alone(w, n), step, rules);
      FrozenSets(w.db, d, n, s);
    } else {
      if a :| a in step.artifacts { assert a in ArtifactsAt(d, s) && a !in ArtifactsAt(w.db, s); }
      if e :| e in step.edges { assert e in EdgesAt(d, s) && e !in EdgesAt(w.db, s); }
    }
  }

  // ------------------------------------------------------- a build that is overtaken

  function Nothing(): Db { Db(map[], map[], map[], map[]) }

  function Late(): Engine.Step {
    Engine.Commit(map[Src(1) := Page("guide.md", "one")], map[Art(1) := Prose(Src(1), "one", 1, None)], map[], map[])
  }

  function Idle(): Engine.Step { Engine.Finalize(Quiet(NoLinks(), AllSeen({}))) }

  lemma OneMore(w: World, es: seq<Event>, e: Event, rules: Rules)
    requires Interleaving(w, es, rules) && Possible(End(w, es, rules), e, rules)
    ensures Interleaving(w, es + [e], rules) && End(w, es + [e], rules) == After(End(w, es, rules), e, rules)
  {
    assert (es + [e])[..|es|] == es;
    hide Possible, After;
  }

  lemma Nobody(w: World, rules: Rules)
    ensures Interleaving(w, [], rules) && End(w, [], rules) == w
  {}

  lemma IdleFinalizes(rules: Rules)
    ensures LegalFinalize(Nothing(), Quiet(NoLinks(), AllSeen({})), rules, 2)
    ensures Finalized(Nothing(), Quiet(NoLinks(), AllSeen({})), rules, 2) == Nothing()
  {
    NothingIsThere();
    hide *;
    LinksNothing(Nothing(), 2);
    IdlePass(Nothing(), 2, {});
    QuietFinalize(Nothing(), NoLinks(), AllSeen({}), rules, 2);
  }

  lemma NothingIsThere()
    ensures Nothing().sources == map[] && Nothing().artifacts == map[] && Nothing().edges == map[]
    ensures NoAliasRows(Nothing()) && NoLinks().producer == Linker && PriorGeneration(Nothing(), 2, {}) == {}
    ensures forall a :: !AclStale(Nothing(), {Src(1), Src(2)}, a)
  {}

  lemma BothBegin(rules: Rules)
    ensures Possible(World(Nothing(), 0, {}), Begin(1), rules)
    ensures After(World(Nothing(), 0, {}), Begin(1), rules) == World(Nothing(), 1, {1})
    ensures Possible(World(Nothing(), 1, {1}), Begin(2), rules)
    ensures After(World(Nothing(), 1, {1}), Begin(2), rules) == World(Nothing(), 2, {1, 2})
  {
    assert {1} + {2} == {1, 2};
  }

  lemma SecondFinalizes(rules: Rules)
    ensures Possible(World(Nothing(), 2, {1, 2}), By(2, Idle()), rules)
    ensures After(World(Nothing(), 2, {1, 2}), By(2, Idle()), rules) == World(Nothing(), 2, {1})
  {
    IdleFinalizes(rules);
    hide Finalized, LegalFinalize, Quiet, Nothing;
    DocumentRuns.FinalizeStep(Alone(World(Nothing(), 2, {1, 2}), 2), Quiet(NoLinks(), AllSeen({})), rules);
    hide Engine.LegalStep, Engine.Next;
    assert {1, 2} - {2} == {1};
  }

  lemma FirstCommits(rules: Rules)
    ensures Possible(World(Nothing(), 2, {1}), By(1, Late()), rules)
    ensures var w := After(World(Nothing(), 2, {1}), By(1, Late()), rules); HasArtifact(w.db, Art(1), 2) && !HasArtifact(Nothing(), Art(1), 2)
  {}

  /** Two builds start, the second finalizes, and the first goes on: what it commits then
      becomes a member of the version the second has completed. */
  lemma OvertakenBuildChangesVersion(rules: Rules) returns (before: seq<Event>, e: Event)
    ensures var start := World(Nothing(), 0, {});
      && Interleaving(start, before, rules) && End(start, before, rules) == World(Nothing(), 2, {1})
      && Possible(World(Nothing(), 2, {1}), e, rules)
      && !HasArtifact(Nothing(), Art(1), 2) && HasArtifact(After(World(Nothing(), 2, {1}), e, rules).db, Art(1), 2)
  {
    hide *;
    var start := World(Nothing(), 0, {});
    Nobody(start, rules);
    BothBegin(rules);
    SecondFinalizes(rules);
    FirstCommits(rules);
    OneMore(start, [], Begin(1), rules);
    OneMore(start, [] + [Begin(1)], Begin(2), rules);
    OneMore(start, [] + [Begin(1)] + [Begin(2)], By(2, Idle()), rules);
    before := [] + [Begin(1)] + [Begin(2)] + [By(2, Idle())];
    e := By(1, Late());
  }
}
