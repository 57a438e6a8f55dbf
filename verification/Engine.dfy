/** Builds one after the other under the builder lock: every run of starts, source
    commits, touches, crashes and finalizes. */
module Engine {
  import opened Prelude
  import opened Registry
  import opened LinkEdges
  import opened AliasReplay
  import opened AliasIndex
  import opened AliasOutcome
  import opened BuildMachine
  import opened BuildRuns
  import opened FinalizeKeys
  import opened LinkKeys
  import R = AliasRows
  import AliasEdges

  /** `build` is the last sequence number handed out; `building` says whether the build
      that got it is still running. */
  datatype Machine = Machine(db: Db, build: int, building: bool)

  /** `Start` takes the next number of the sequence, which may skip some.  `Touch` stands
      for an update of source rows, or for the roll back of one. */
  datatype Step =
    | Start(n: int)
    | Commit(rows: map<SourceId, Source>, artifacts: map<ArtifactId, Artifact>, edges: map<EdgeId, Edge>,
             generation: map<string, seq<ArtifactId>>)
    | Touch(rows: map<SourceId, Source>)
    | Crash
    | Finalize(f: FinalizeInput)

  /** What a commit of one source, or of a code tree, adds: rows of these sources,
      introduced by this build, none of them an alias row, and code edges between live
      artifacts. */
  ghost predicate LegalCommit(db: Db, n: int, rows: map<SourceId, Source>, artifacts: map<ArtifactId, Artifact>, edges: map<EdgeId, Edge>) {
    && (forall a :: a in artifacts ==>
          a !in db.artifacts && artifacts[a].source in rows && artifacts[a].kind != AliasReference &&
          artifacts[a].validFrom == n && artifacts[a].gone.None?)
    && (forall e :: e in edges ==>
          e !in db.edges && edges[e].producer == Graphify && edges[e].validFrom == n && edges[e].gone.None? &&
          Joins(db.artifacts + artifacts, edges[e]))
  }

  predicate Joins(rows: R.Rows, e: Edge) {
    e.from in rows && rows[e.from].gone.None? && e.to in rows && rows[e.to].gone.None?
  }

  ghost predicate LegalStep(m: Machine, s: Step, rules: Rules) {
    match s
    case Start(n) => !m.building && n > m.build
    case Commit(rows, artifacts, edges, _) => m.building && LegalCommit(m.db, m.build, rows, artifacts, edges)
    case Touch(rows) => m.building
    case Crash => m.building
    case Finalize(f) => m.building && LegalAttempt(m.db, f, rules, m.build)
  }

  /** A finalize that runs to its end; one that raises is rolled back. */
  ghost predicate Completes(m: Machine, s: Step, rules: Rules)
    requires LegalStep(m, s, rules)
  {
    s.Finalize? && !Raises(m.db, s.f, m.build)
  }

  ghost function Next(m: Machine, s: Step, rules: Rules): Machine
    requires LegalStep(m, s, rules)
  {
    match s
    case Start(n) => Machine(m.db, n, true)
    case Commit(rows, artifacts, edges, generation) =>
      m.(db := Db(m.db.sources + rows, m.db.artifacts + artifacts, m.db.edges + edges, m.db.generation + generation))
    case Touch(rows) => m.(db := m.db.(sources := m.db.sources + rows))
    case Crash => m.(building := false)
    case Finalize(f) =>
      if Completes(m, s, rules) then Machine(Finalized(m.db, f, rules, m.build), m.build, false)
      else m.(building := false)
  }

  ghost predicate LegalRun(m: Machine, steps: seq<Step>, rules: Rules)
    decreases |steps|, 0
  {
    steps != [] ==> LegalRun(m, steps[..|steps| - 1], rules) && LegalStep(Run(m, steps[..|steps| - 1], rules), steps[|steps| - 1], rules)
  }

  ghost function Run(m: Machine, steps: seq<Step>, rules: Rules): Machine
    requires LegalRun(m, steps, rules)
    decreases |steps|, 1
  {
    if steps == [] then m else Next(Run(m, steps[..|steps| - 1], rules), steps[|steps| - 1], rules)
  }

  // ------------------------------------------------------- what every reachable state satisfies

  ghost predicate Inv(m: Machine, mine: Miner) {
    && Sequenced(m.db, m.build)
    && (m.building ==> NothingLeft(m.db, m.build))
    && SoundIndex(m.db.artifacts, mine)
    && KeysSound(m.db)
    && (m.building ==> LinksOffFresh(m.db, m.build))
  }

  lemma EmptyRegistry(mine: Miner)
    ensures Inv(Machine(Db(map[], map[], map[], map[]), 0, false), mine)
    ensures GhostFree(Db(map[], map[], map[], map[]))
  {
    assert LiveItems(map[]) == {};
  }

  lemma LaterSequence(db: Db, k: int, n: int)
    requires Sequenced(db, k) && k < n
    ensures Sequenced(db, n) && NothingLeft(db, n) && LinksOffFresh(db, n)
  {
    forall a | a in db.artifacts ensures !IsFresh(db, a, n) {
      assert InOrder(db.artifacts[a].validFrom, db.artifacts[a].gone, k);
    }
    forall a | a in db.artifacts
      ensures InOrder(db.artifacts[a].validFrom, db.artifacts[a].gone, n) && db.artifacts[a].gone != Some(n)
    {
      assert InOrder(db.artifacts[a].validFrom, db.artifacts[a].gone, k);
    }
    forall e | e in db.edges
      ensures InOrder(db.edges[e].validFrom, db.edges[e].gone, n) && db.edges[e].gone != Some(n)
    {
      assert InOrder(db.edges[e].validFrom, db.edges[e].gone, k);
    }
  }

  lemma AddedArtifactsStamp(db: Db, d: Db, artifacts: map<ArtifactId, Artifact>, n: int)
    requires d.artifacts == db.artifacts + artifacts
    requires forall a :: a in artifacts ==> a !in db.artifacts && artifacts[a].validFrom == n && artifacts[a].gone.None?
    ensures StampedArtifacts(db, d, n) && (NoArtifactLeft(db, n) ==> NoArtifactLeft(d, n))
  {}

  lemma AddedEdgesStamp(db: Db, d: Db, edges: map<EdgeId, Edge>, n: int)
    requires d.edges == db.edges + edges
    requires forall e :: e in edges ==> e !in db.edges && edges[e].validFrom == n && edges[e].gone.None?
    ensures StampedEdges(db, d, n) && (NoEdgeLeft(db, n) ==> NoEdgeLeft(d, n))
  {}

  lemma CommitStamps(m: Machine, s: Step, rules: Rules)
    requires s.Commit? && LegalStep(m, s, rules)
    ensures Stamped(m.db, Next(m, s, rules).db, m.build)
    ensures NothingLeft(m.db, m.build) ==> NothingLeft(Next(m, s, rules).db, m.build)
  {
    hide StampedArtifacts, StampedEdges, NoArtifactLeft, NoEdgeLeft;
    AddedArtifactsStamp(m.db, Next(m, s, rules).db, s.artifacts, m.build);
    AddedEdgesStamp(m.db, Next(m, s, rules).db, s.edges, m.build);
  }

  /** New rows that are no alias rows leave the index alone. */
  lemma CommitKeepsIndex(rows: R.Rows, more: R.Rows, mine: Miner)
    requires SoundIndex(rows, mine)
    requires forall a :: a in more ==> a !in rows && more[a].kind != AliasReference
    ensures SoundIndex(rows + more, mine)
  {
    var all := rows + more;
    forall a, t ensures R.LiveTitled(all, a, t) <==> R.LiveTitled(rows, a, t) {}
    assert LiveItems(all) == LiveItems(rows);
  }

  /** New code edges are under no index, and no edge there was touches a new row. */
  lemma CommitKeepsKeys(m: Machine, s: Step, rules: Rules)
    requires s.Commit? && LegalStep(m, s, rules) && KeysSound(m.db) && LinksOffFresh(m.db, m.build)
    ensures KeysSound(Next(m, s, rules).db) && LinksOffFresh(Next(m, s, rules).db, m.build)
  {
    var d := Next(m, s, rules).db;
    assert forall e :: e in s.edges ==> !Keyed(s.edges[e]) && !AliasEdges.Owned(s.edges[e]);
    SameKeysStayUnique(m.db.edges, d.edges);
    forall e | e in d.edges && !AliasEdges.Owned(d.edges[e]) ensures EndsIn(d, d.edges[e]) && OffFresh(d, d.edges[e], m.build) {
      if e in s.edges {
        assert Joins(m.db.artifacts + s.artifacts, s.edges[e]);
      } else {
        assert EndsIn(m.db, m.db.edges[e]) && OffFresh(m.db, m.db.edges[e], m.build);
      }
    }
  }

  lemma StepKeepsInv(m: Machine, s: Step, rules: Rules)
    requires LegalStep(m, s, rules) && Inv(m, rules.mine)
    ensures Inv(Next(m, s, rules), rules.mine)
  {
    match s
    case Start(n) => LaterSequence(m.db, m.build, n);
    case Commit(rows, artifacts, edges, generation) =>
      CommitKeepsKeys(m, s, rules);
      CommitStamps(m, s, rules);
      StampedIsSequenced(m.db, Next(m, s, rules).db, m.build);
      CommitKeepsIndex(m.db.artifacts, artifacts, rules.mine);
    case Touch(rows) => TouchKeepsKeys(m.db, rows, m.build);
    case Crash =>
    case Finalize(f) =>
      if Completes(m, s, rules) {
        FinalizeStamps(m.db, f, rules, m.build);
        StampedIsSequenced(m.db, Finalized(m.db, f, rules, m.build), m.build);
        FinalizeKeepsIndex(m.db, f, rules, m.build);
        FinalizeKeepsKeys(m.db, f, rules, m.build);
      }
  }

  lemma TouchKeepsKeys(db: Db, rows: map<SourceId, Source>, n: int)
    requires KeysSound(db) && LinksOffFresh(db, n)
    ensures var d := db.(sources := db.sources + rows); KeysSound(d) && LinksOffFresh(d, n)
  {
    var d := db.(sources := db.sources + rows);
    forall e | e in d.edges ensures OffFresh(d, d.edges[e], n) { assert OffFresh(db, db.edges[e], n); }
    forall e | e in d.edges && !AliasEdges.Owned(d.edges[e]) ensures EndsIn(d, d.edges[e]) { assert EndsIn(db, db.edges[e]); }
  }

  /** Over every run: intervals stay in order, every phrase has at most one live alias
      row, the stored evidence stays fit for replay, linker and judge edges have unique
      keys, and edges join rows that exist. */
  lemma {:induction false} RunKeepsInv(m: Machine, steps: seq<Step>, rules: Rules)
    requires LegalRun(m, steps, rules) && Inv(m, rules.mine)
    ensures Inv(Run(m, steps, rules), rules.mine)
  {
    if steps != [] {
      var init, last := steps[..|steps| - 1], steps[|steps| - 1];
      RunKeepsInv(m, init, rules);
      hide Inv, Next;
      StepKeepsInv(Run(m, init, rules), last, rules);
    }
  }

  // ------------------------------------------------------- the past, over every run

  /** The first sequence number whose version may still change. */
  function Horizon(m: Machine): int {
    if m.building then m.build else m.build + 1
  }

  ghost predicate StepRevivesNothing(m: Machine, s: Step, rules: Rules)
    requires LegalStep(m, s, rules)
  {
    Completes(m, s, rules) ==> RevivesNothing(m.db, s.f, m.build)
  }

  ghost predicate RunRevivesNothing(m: Machine, steps: seq<Step>, rules: Rules)
    requires LegalRun(m, steps, rules)
  {
    steps != [] ==>
      RunRevivesNothing(m, steps[..|steps| - 1], rules) &&
      StepRevivesNothing(Run(m, steps[..|steps| - 1], rules), steps[|steps| - 1], rules)
  }

  lemma FrozenBelow(a: Db, b: Db, n: int, k: int)
    requires Frozen(a, b, n) && k <= n
    ensures Frozen(a, b, k)
  {}

  lemma CommitFreezesPast(m: Machine, s: Step, rules: Rules)
    requires s.Commit? && LegalStep(m, s, rules)
    ensures Frozen(m.db, Next(m, s, rules).db, m.build)
  {
    KeptPastIsFrozen(m.db, Next(m, s, rules).db, m.build);
  }

  lemma StepFreezesPast(m: Machine, s: Step, rules: Rules)
    requires LegalStep(m, s, rules) && Inv(m, rules.mine) && StepRevivesNothing(m, s, rules)
    ensures Frozen(m.db, Next(m, s, rules).db, Horizon(m))
    ensures Horizon(m) <= Horizon(Next(m, s, rules))
  {
    match s
    case Start(n) =>
    case Commit(rows, artifacts, edges, generation) => CommitFreezesPast(m, s, rules);
    case Touch(rows) =>
    case Crash =>
    case Finalize(f) => if Completes(m, s, rules) { FinalizeFreezesPastIff(m.db, f, rules, m.build); }
  }

  /** Frozen past: from any state on, whatever a run does (commits, failures, crashes,
      renames, sweeps, alias revivals), every version that was settled keeps exactly
      its members, as long as no finalize drafts an edge an earlier build invalidated. */
  lemma {:induction false} RunFreezesPast(m: Machine, steps: seq<Step>, rules: Rules, s: int)
    requires LegalRun(m, steps, rules) && Inv(m, rules.mine) && RunRevivesNothing(m, steps, rules)
    requires s < Horizon(m)
    ensures Frozen(m.db, Run(m, steps, rules).db, Horizon(m)) && Horizon(m) <= Horizon(Run(m, steps, rules))
    ensures ArtifactsAt(m.db, s) == ArtifactsAt(Run(m, steps, rules).db, s)
    ensures EdgesAt(m.db, s) == EdgesAt(Run(m, steps, rules).db, s)
  {
    if steps != [] {
      var init, last := steps[..|steps| - 1], steps[|steps| - 1];
      var mid, fin := Run(m, init, rules), Run(m, steps, rules);
      RunFreezesPast(m, init, rules, s);
      RunKeepsInv(m, init, rules);
      assert fin == Next(mid, last, rules);
      hide *;
      StepFreezesPast(mid, last, rules);
      FrozenBelow(mid.db, fin.db, Horizon(mid), Horizon(m));
      FrozenTransitive(m.db, mid.db, fin.db, Horizon(m));
      FrozenSets(m.db, fin.db, Horizon(m), s);
    }
  }

  // ------------------------------------------------------- endpoints, over every run

  ghost predicate StepRewritesNothing(m: Machine, s: Step, rules: Rules)
    requires LegalStep(m, s, rules)
  {
    Completes(m, s, rules) ==> RewritesNothing(m.db, s.f, m.build)
  }

  ghost predicate RunRewritesNothing(m: Machine, steps: seq<Step>, rules: Rules)
    requires LegalRun(m, steps, rules)
  {
    steps != [] ==>
      RunRewritesNothing(m, steps[..|steps| - 1], rules) &&
      StepRewritesNothing(Run(m, steps[..|steps| - 1], rules), steps[|steps| - 1], rules)
  }

  lemma StepKeepsEndpoints(m: Machine, s: Step, rules: Rules)
    requires LegalStep(m, s, rules) && Inv(m, rules.mine) && StepRevivesNothing(m, s, rules) && StepRewritesNothing(m, s, rules)
    ensures FrozenEndpoints(m.db, Next(m, s, rules).db, Horizon(m))
  {
    match s
    case Start(n) =>
    case Commit(rows, artifacts, edges, generation) =>
    case Touch(rows) =>
    case Crash =>
    case Finalize(f) => if Completes(m, s, rules) { FinalizeEndpointsIff(m.db, f, rules, m.build); }
  }

  lemma EndpointsTransitive(a: Db, b: Db, c: Db, n: int, k: int)
    requires Frozen(a, b, n) && FrozenEndpoints(a, b, n) && FrozenEndpoints(b, c, k) && n <= k
    ensures FrozenEndpoints(a, c, n)
  {
    forall e, s | s < n && HasEdge(a, e, s) && HasEdge(c, e, s)
      ensures a.edges[e].from == c.edges[e].from && a.edges[e].to == c.edges[e].to
    {
      assert HasEdge(b, e, s);
    }
  }

  /** Where, moreover, no rename rewrites an edge introduced by an earlier build, as on
      every rename-free run, settled versions also keep the endpoints of their edges. */
  lemma {:induction false} RunKeepsEndpoints(m: Machine, steps: seq<Step>, rules: Rules)
    requires LegalRun(m, steps, rules) && Inv(m, rules.mine)
    requires RunRevivesNothing(m, steps, rules) && RunRewritesNothing(m, steps, rules)
    ensures FrozenEndpoints(m.db, Run(m, steps, rules).db, Horizon(m))
  {
    if steps != [] {
      var init, last := steps[..|steps| - 1], steps[|steps| - 1];
      var mid, fin := Run(m, init, rules), Run(m, steps, rules);
      RunKeepsEndpoints(m, init, rules);
      RunKeepsInv(m, init, rules);
      RunFreezesPast(m, init, rules, Horizon(m) - 1);
      assert fin == Next(mid, last, rules);
      hide *;
      StepKeepsEndpoints(mid, last, rules);
      EndpointsTransitive(m.db, mid.db, fin.db, Horizon(m), Horizon(mid));
    }
  }
}
