/** The unique indexes on linker and judge edges: who keeps them, and exactly when
    repointing edges after a rename violates one, which raises and ends the finalize. */
module LinkKeys {
  import opened Prelude
  import opened Registry
  import opened Invalidation
  import opened LinkEdges

  // ------------------------------------------------------- one UPDATE under a unique index

  /** An UPDATE checks the index row by row, against rows it has rewritten and rows it
      has not yet: it raises when some rewritten key meets either. */
  predicate Violates(before: map<EdgeId, Edge>, after: map<EdgeId, Edge>, e: EdgeId, f: EdgeId) {
    && e in before && e in after && f in before && f in after && e != f
    && Keyed(after[e]) && !SameKey(before[e], after[e])
    && (SameKey(after[e], after[f]) || SameKey(after[e], before[f]))
  }

  predicate UpdateRaises(before: map<EdgeId, Edge>, after: map<EdgeId, Edge>) {
    exists e, f :: e in before && f in before && Violates(before, after, e, f)
  }

  /** Only keys matter to the index. */
  lemma RaisesByKeys(before: map<EdgeId, Edge>, other: map<EdgeId, Edge>, after: map<EdgeId, Edge>)
    requires other.Keys == before.Keys && forall e :: e in before ==> SameKey(before[e], other[e])
    ensures UpdateRaises(other, after) <==> UpdateRaises(before, after)
  {
    forall e, f | e in before && f in before ensures Violates(other, after, e, f) <==> Violates(before, after, e, f) {}
    hide Violates;
  }

  lemma QuietUpdateKeepsKeys(before: map<EdgeId, Edge>, after: map<EdgeId, Edge>)
    requires UniqueLinks(before) && !UpdateRaises(before, after)
    requires after.Keys == before.Keys
    requires forall e :: e in before ==> after[e].producer == before[e].producer
    ensures UniqueLinks(after)
  {
    forall e, f ensures !SharesKey(after, e, f) {
      assert !SharesKey(before, e, f) && !Violates(before, after, e, f) && !Violates(before, after, f, e);
    }
  }

  // ------------------------------------------------------- the two statements of one rename

  function AllFrom(edges: map<EdgeId, Edge>, r: Rename, n: int): map<EdgeId, Edge> {
    map e | e in edges :: RepointFrom(edges[e], r, n)
  }

  function AllTo(edges: map<EdgeId, Edge>, r: Rename, n: int): map<EdgeId, Edge> {
    map e | e in edges :: RepointTo(edges[e], r, n)
  }

  predicate RenameRaises(edges: map<EdgeId, Edge>, r: Rename, n: int) {
    UpdateRaises(edges, AllFrom(edges, r, n)) || UpdateRaises(AllFrom(edges, r, n), AllTo(AllFrom(edges, r, n), r, n))
  }

  /** Rows on one key that every later statement treats alike. */
  predicate Twins(e: Edge, f: Edge) {
    SameKey(e, f) && (e.gone.None? <==> f.gone.None?)
  }

  predicate TwinsIn(edges: map<EdgeId, Edge>, e: EdgeId, f: EdgeId) {
    e in edges && f in edges && e != f && Keyed(edges[e]) && Twins(edges[e], edges[f])
  }

  /** A row under an index that has left stays clear of the new identity. */
  predicate Clear(e: Edge, r: Rename) {
    Keyed(e) && e.gone.Some? ==> e.from != r.now && e.to != r.now
  }

  lemma TwinsThroughFrom(e: Edge, f: Edge, r: Rename, n: int)
    requires Twins(e, f)
    ensures Twins(RepointFrom(e, r, n), RepointFrom(f, r, n))
  {}

  lemma TwinsThroughTo(e: Edge, f: Edge, r: Rename, n: int)
    requires Twins(e, f)
    ensures Twins(RepointTo(e, r, n), RepointTo(f, r, n))
  {}

  lemma ClashFrom(e: Edge, f: Edge, r: Rename, n: int)
    requires r.was != r.now && Clear(e, r) && Clear(f, r) && Keyed(e)
    requires var e', f' := RepointFrom(e, r, n), RepointFrom(f, r, n);
      !SameKey(e, e') && (SameKey(e', f') || SameKey(e', f))
    ensures Twins(RepointFrom(e, r, n), RepointFrom(f, r, n))
  {}

  /** After the first statement no live row leaves the old identity. */
  predicate Left(e: Edge, r: Rename) {
    e.gone.None? ==> e.from != r.was
  }

  predicate LoopOrClear(e: Edge, r: Rename) {
    Keyed(e) && e.gone.Some? ==> e.to != r.now || e.from == r.was
  }

  lemma AfterFrom(e: Edge, r: Rename, n: int)
    requires r.was != r.now && Clear(e, r)
    ensures Left(RepointFrom(e, r, n), r) && LoopOrClear(RepointFrom(e, r, n), r)
  {}

  lemma ClashTo(e: Edge, f: Edge, r: Rename, n: int)
    requires r.was != r.now && Keyed(e) && Left(e, r) && Left(f, r) && LoopOrClear(e, r) && LoopOrClear(f, r)
    requires var e', f' := RepointTo(e, r, n), RepointTo(f, r, n);
      !SameKey(e, e') && (SameKey(e', f') || SameKey(e', f))
    ensures Twins(RepointTo(e, r, n), RepointTo(f, r, n))
  {}

  lemma RaisingStepLeavesTwins(edges: map<EdgeId, Edge>, r: Rename, n: int)
    requires r.was != r.now && forall e :: e in edges ==> Clear(edges[e], r)
    requires RenameRaises(edges, r, n)
    ensures exists e, f :: TwinsIn(AllTo(AllFrom(edges, r, n), r, n), e, f)
  {
    var mid := AllFrom(edges, r, n);
    if UpdateRaises(edges, mid) {
      var e, f :| e in edges && f in edges && Violates(edges, mid, e, f);
      ClashInFrom(edges, r, n, e, f);
    } else {
      var e, f :| e in mid && f in mid && Violates(mid, AllTo(mid, r, n), e, f);
      assert e in edges && f in edges;
      ClashInTo(edges, r, n, e, f);
    }
  }

  lemma ClashInFrom(edges: map<EdgeId, Edge>, r: Rename, n: int, e: EdgeId, f: EdgeId)
    requires r.was != r.now && e in edges && f in edges && Clear(edges[e], r) && Clear(edges[f], r)
    requires Violates(edges, AllFrom(edges, r, n), e, f)
    ensures TwinsIn(AllTo(AllFrom(edges, r, n), r, n), e, f)
  {
    var e', f' := RepointFrom(edges[e], r, n), RepointFrom(edges[f], r, n);
    ProducerStays(edges[e], r, n);
    assert Keyed(e');
    ClashFrom(edges[e], edges[f], r, n);
    hide RepointFrom, RepointTo, Clear, Violates, Twins;
    TwinsThroughTo(e', f', r, n);
  }

  lemma ClashInTo(edges: map<EdgeId, Edge>, r: Rename, n: int, e: EdgeId, f: EdgeId)
    requires r.was != r.now && e in edges && f in edges && Clear(edges[e], r) && Clear(edges[f], r)
    requires Violates(AllFrom(edges, r, n), AllTo(AllFrom(edges, r, n), r, n), e, f)
    ensures TwinsIn(AllTo(AllFrom(edges, r, n), r, n), e, f)
  {
    var e', f' := RepointFrom(edges[e], r, n), RepointFrom(edges[f], r, n);
    AfterFrom(edges[e], r, n);
    AfterFrom(edges[f], r, n);
    ProducerStays(edges[e], r, n);
    hide RepointFrom, Clear, Left, LoopOrClear;
    ToKeepsProducer(e', r, n);
    ClashTo(e', f', r, n);
    hide RepointTo, Violates, Twins;
  }

  lemma ToKeepsProducer(e: Edge, r: Rename, n: int)
    ensures RepointTo(e, r, n).producer == e.producer
  {}

  lemma QuietStepKeepsKeys(edges: map<EdgeId, Edge>, r: Rename, n: int)
    requires UniqueLinks(edges) && !RenameRaises(edges, r, n)
    ensures UniqueLinks(AllTo(AllFrom(edges, r, n), r, n))
  {
    var mid := AllFrom(edges, r, n);
    QuietUpdateKeepsKeys(edges, mid);
    QuietUpdateKeepsKeys(mid, AllTo(mid, r, n));
  }

  // ------------------------------------------------------- all renames, one after the other

  /** Some statement of some rename raises. */
  ghost predicate RenamesRaise(db: Db, ps: seq<Rename>, n: int) {
    ps != [] &&
    (RenamesRaise(db, ps[..|ps| - 1], n) ||
     RenameRaises(ApplyRenames(db, ps[..|ps| - 1], n).edges, ps[|ps| - 1], n))
  }

  /** Before the pass, no linker or judge row that has left touches a row of this build. */
  ghost predicate LeftOffFresh(db: Db, n: int) {
    forall e :: e in db.edges && db.edges[e].gone.Some? ==> OffFresh(db, db.edges[e], n)
  }

  predicate OffFresh(db: Db, e: Edge, n: int) {
    Keyed(e) ==> !IsFresh(db, e.from, n) && !IsFresh(db, e.to, n)
  }

  predicate IsFresh(db: Db, a: ArtifactId, n: int) {
    a in db.artifacts && db.artifacts[a].validFrom == n
  }

  lemma StepIsTwoStatements(db: Db, ps: seq<Rename>, n: int)
    requires ps != [] && ps[|ps| - 1].was in ApplyRenames(db, ps[..|ps| - 1], n).artifacts
    ensures var before := ApplyRenames(db, ps[..|ps| - 1], n).edges; var r := ps[|ps| - 1];
      ApplyRenames(db, ps, n).edges == AllTo(AllFrom(before, r, n), r, n)
  {
    var before, r := ApplyRenames(db, ps[..|ps| - 1], n), ps[|ps| - 1];
    hide ApplyRenames, RepointFrom, RepointTo;
    assert RenameOne(before, r, n).edges == AllTo(AllFrom(before.edges, r, n), r, n);
  }

  /** Rows the renames so far took out lie between old identities and those they became. */
  lemma ClearOfTheNext(db: Db, n: int, vanished: set<SourceId>, ps: seq<Rename>, e: EdgeId)
    requires ValidRenames(db, n, vanished, ps) && ps != [] && LeftOffFresh(db, n) && e in db.edges
    ensures Clear(RenamedEdge(db.edges[e], Rho(ps[..|ps| - 1]), n), ps[|ps| - 1])
  {
    var rho, last, r := Rho(ps[..|ps| - 1]), ps[|ps| - 1], db.edges[e];
    LastRenameIsFresh(db, n, vanished, ps);
    hide Rho;
    assert IsFresh(db, last.now, n);
    assert r.gone.Some? ==> OffFresh(db, r, n);
    if r.from in rho { assert rho[r.from] in rho.Values; }
    if r.to in rho { assert rho[r.to] in rho.Values; }
  }

  lemma LastStep(db: Db, n: int, vanished: set<SourceId>, ps: seq<Rename>)
    requires ValidRenames(db, n, vanished, ps) && ps != [] && LeftOffFresh(db, n)
    ensures var before, r := ApplyRenames(db, ps[..|ps| - 1], n).edges, ps[|ps| - 1];
      && ValidRenames(db, n, vanished, ps[..|ps| - 1]) && r.was != r.now
      && (forall e :: e in before ==> Clear(before[e], r))
      && ApplyRenames(db, ps, n).edges == AllTo(AllFrom(before, r, n), r, n)
  {
    var rest := ps[..|ps| - 1];
    LastRenameIsFresh(db, n, vanished, ps);
    RenamedEdgesInOneStep(db, n, vanished, rest);
    StepIsTwoStatements(db, ps, n);
    forall e | e in db.edges { ClearOfTheNext(db, n, vanished, ps, e); }
    hide ApplyRenames, Rho, Clear, RenamedEdge, LeftOffFresh, AllTo, AllFrom;
  }

  lemma {:induction false} QuietRenamesKeepKeys(db: Db, n: int, vanished: set<SourceId>, ps: seq<Rename>)
    requires ValidRenames(db, n, vanished, ps) && LeftOffFresh(db, n) && UniqueLinks(db.edges)
    requires !RenamesRaise(db, ps, n)
    ensures UniqueLinks(ApplyRenames(db, ps, n).edges)
  {
    if ps != [] {
      var rest := ps[..|ps| - 1];
      LastStep(db, n, vanished, ps);
      hide ApplyRenames, ValidRenames, LeftOffFresh, RenameRaises, UniqueLinks, AllTo, AllFrom;
      QuietRenamesKeepKeys(db, n, vanished, rest);
      QuietStepKeepsKeys(ApplyRenames(db, rest, n).edges, ps[|ps| - 1], n);
    }
  }

  lemma {:induction false} RaisingRenamesLeaveTwins(db: Db, n: int, vanished: set<SourceId>, ps: seq<Rename>)
    requires ValidRenames(db, n, vanished, ps) && LeftOffFresh(db, n) && RenamesRaise(db, ps, n)
    ensures exists e, f :: TwinsIn(ApplyRenames(db, ps, n).edges, e, f)
  {
    var rest, r := ps[..|ps| - 1], ps[|ps| - 1];
    var before := ApplyRenames(db, rest, n).edges;
    LastStep(db, n, vanished, ps);
    hide ApplyRenames, ValidRenames, LeftOffFresh, RenameRaises, Clear, Twins;
    if RenamesRaise(db, rest, n) {
      RaisingRenamesLeaveTwins(db, n, vanished, rest);
      var e, f :| TwinsIn(before, e, f);
      TwinsThroughFrom(before[e], before[f], r, n);
      TwinsThroughTo(RepointFrom(before[e], r, n), RepointFrom(before[f], r, n), r, n);
      hide RepointFrom, RepointTo;
      ProducerStays(before[e], r, n);
      assert TwinsIn(ApplyRenames(db, ps, n).edges, e, f);
    } else {
      RaisingStepLeavesTwins(before, r, n);
    }
  }

  lemma ProducerStays(e: Edge, r: Rename, n: int)
    ensures RepointTo(RepointFrom(e, r, n), r, n).producer == e.producer
  {}

  lemma KeyIgnoresWhen(e: Edge, f: Edge, rho: map<ArtifactId, ArtifactId>, n: int)
    ensures SameKey(RenamedEdge(e, rho, n), RenamedEdge(f, rho, n)) <==> SameKey(RenamedEdge(e, rho, 0), RenamedEdge(f, rho, 0))
    ensures RenamedEdge(e, rho, n).producer == e.producer
    ensures !Moves(e, rho) ==> SameKey(RenamedEdge(e, rho, n), e)
  {}

  /** The renames leave the keys unique exactly when no moved row lands on a taken key. */
  lemma RenamesKeepKeysIff(db: Db, n: int, vanished: set<SourceId>, ps: seq<Rename>)
    requires ValidRenames(db, n, vanished, ps) && UniqueLinks(db.edges)
    ensures UniqueLinks(ApplyRenames(db, ps, n).edges) <==> !KeysClash(db.edges, Rho(ps))
  {
    var after, rho := ApplyRenames(db, ps, n).edges, Rho(ps);
    RenamedEdgesInOneStep(db, n, vanished, ps);
    hide ApplyRenames, Rho, ValidRenames;
    forall e, f | e in db.edges && f in db.edges
      ensures SharesKey(after, e, f) <==> Collide(db.edges, rho, e, f) || Collide(db.edges, rho, f, e)
    {
      assert !SharesKey(db.edges, e, f);
      KeyIgnoresWhen(db.edges[e], db.edges[f], rho, n);
      KeyIgnoresWhen(db.edges[f], db.edges[e], rho, n);
      hide RenamedEdge, Moves;
    }
    hide RenamedEdge, SameKey, SharesKey, Collide;
    if UniqueLinks(after) {
      forall e, f ensures !Collide(db.edges, rho, e, f) {
        if e in db.edges && f in db.edges { assert !SharesKey(after, e, f); } else { assert !Collide(db.edges, rho, e, f) by { NoRow(db.edges, rho, e, f); } }
      }
    } else {
      var e, f :| SharesKey(after, e, f);
      assert e in db.edges && f in db.edges by { SharedRows(after, e, f); }
      assert Collide(db.edges, rho, e, f) || Collide(db.edges, rho, f, e);
    }
  }

  lemma NoRow(edges: map<EdgeId, Edge>, rho: map<ArtifactId, ArtifactId>, e: EdgeId, f: EdgeId)
    requires e !in edges || f !in edges
    ensures !Collide(edges, rho, e, f)
  {}

  lemma SharedRows(edges: map<EdgeId, Edge>, e: EdgeId, f: EdgeId)
    requires SharesKey(edges, e, f)
    ensures e in edges && f in edges
  {}

  /** Reattachment raises, at some statement of some rename, exactly when a moved row
      would end on the key of another row: a condition on the rows before the pass. */
  lemma RenamesRaiseIff(db: Db, n: int, vanished: set<SourceId>, ps: seq<Rename>)
    requires ValidRenames(db, n, vanished, ps) && LeftOffFresh(db, n) && UniqueLinks(db.edges)
    ensures RenamesRaise(db, ps, n) <==> KeysClash(db.edges, Rho(ps))
  {
    RenamesKeepKeysIff(db, n, vanished, ps);
    hide ApplyRenames, Rho, ValidRenames, LeftOffFresh, KeysClash, RenamesRaise;
    if RenamesRaise(db, ps, n) {
      RaisingRenamesLeaveTwins(db, n, vanished, ps);
      var after := ApplyRenames(db, ps, n).edges;
      var e, f :| TwinsIn(after, e, f);
      assert SharesKey(after, e, f);
    } else {
      QuietRenamesKeepKeys(db, n, vanished, ps);
    }
  }

  /** The whole pass keeps the indexes exactly when its renames do not clash: the sweeps
      change no key. */
  lemma PassKeepsKeysIff(db: Db, n: int, i: PassInput)
    requires PassOrders(db, n, i) && UniqueLinks(db.edges)
    ensures UniqueLinks(InvalidationPass(db, n, i).edges) <==> !PassClashes(db, n, i)
  {
    var ps, d := PassRenames(db, n, i), AfterRenames(db, n, i);
    RenamesAreValid(db, n, Vanished(db, i.seen, i.startedAt), i.oldOrder, i.newOrder);
    RenamesKeepKeysIff(db, n, Vanished(db, i.seen, i.startedAt), ps);
    SweepsKeepKeys(d, AfterDeletion(db, n, i), InvalidationPass(db, n, i), n, i, LiveOf(d, DeletedSources(db, n, i)),
                   PriorGeneration(AfterDeletion(db, n, i), n, i.changed));
  }

  lemma SweepsKeepKeys(d: Db, d2: Db, fin: Db, n: int, i: PassInput, deleted: set<ArtifactId>, prior: set<ArtifactId>)
    requires d2.edges == SweepArtifacts(d, deleted, n).edges && fin.edges == SweepArtifacts(d2, prior, n).edges
    ensures UniqueLinks(fin.edges) <==> UniqueLinks(d.edges)
  {
    forall e, f ensures SharesKey(fin.edges, e, f) <==> SharesKey(d.edges, e, f) {}
    hide SharesKey;
  }
}
