/** The identity-over-time invalidation pass: rename detection, deletion sweep,
    supersession sweep and ACL propagation, run in that order inside one
    transaction at build sequence `n`.

    Each SQL statement is a function of whole tables; the order in which a SELECT
    returns its rows is a parameter, and everything proved holds for every order. */
module Invalidation {
  import opened Prelude
  import opened Registry

  // ------------------------------------------------------- vanished sources

  predicate UnseenLive(rows: map<SourceId, Source>, seen: set<SourceId>, s: SourceId) {
    s in rows && !rows[s].isDeleted && s !in seen
  }

  function Vanished(db: Db, seen: set<SourceId>, startedAt: int): set<SourceId> {
    set s | s in db.sources && UnseenLive(db.sources, seen, s) && db.sources[s].LastRecorded() < startedAt
  }

  /** Unseen live sources another writer recorded while this build ran. */
  function ConcurrentlyRecorded(db: Db, seen: set<SourceId>, startedAt: int): set<SourceId> {
    set s | s in db.sources && UnseenLive(db.sources, seen, s) && db.sources[s].LastRecorded() >= startedAt
  }

  // ------------------------------------------------------- rename detection

  datatype Rename = Rename(was: ArtifactId, now: ArtifactId)

  predicate IsOldRow(db: Db, vanished: set<SourceId>, a: ArtifactId) {
    a in db.artifacts && db.artifacts[a].gone.None? && db.artifacts[a].body.Some? &&
    db.artifacts[a].source in vanished
  }

  predicate IsNewRow(db: Db, n: int, bodies: set<Body>, vanished: set<SourceId>, a: ArtifactId) {
    a in db.artifacts && db.artifacts[a].validFrom == n && db.artifacts[a].body.Some? &&
    db.artifacts[a].body.value in bodies && db.artifacts[a].source !in vanished
  }

  /** `order` lists the rows of `rows`, each once. */
  ghost predicate Enumerates(order: seq<ArtifactId>, rows: set<ArtifactId>) {
    && (forall i, j :: 0 <= i < j < |order| ==> order[i] != order[j])
    && (forall a :: a in order <==> a in rows)
  }

  function OldRows(db: Db, vanished: set<SourceId>): set<ArtifactId> {
    set a | a in db.artifacts && IsOldRow(db, vanished, a)
  }

  function NewRows(db: Db, n: int, bodies: set<Body>, vanished: set<SourceId>): set<ArtifactId> {
    set a | a in db.artifacts && IsNewRow(db, n, bodies, vanished, a)
  }

  /** The content of a row, when the row exists and has one. */
  function BodyOf(db: Db, a: ArtifactId): Option<Body> {
    if a in db.artifacts then db.artifacts[a].body else None
  }

  /** The first row per content hash wins. */
  function OldByBody(db: Db, order: seq<ArtifactId>): (m: map<Body, ArtifactId>)
    ensures forall b :: b in m ==> m[b] in order && BodyOf(db, m[b]) == Some(b)
    ensures forall a :: a in order && BodyOf(db, a).Some? ==> BodyOf(db, a).value in m
  {
    if order == [] then map[]
    else
      var last := order[|order| - 1];
      var m := OldByBody(db, order[..|order| - 1]);
      assert order == order[..|order| - 1] + [last];
      var b := BodyOf(db, last);
      if b.None? || b.value in m then m else m[b.value := last]
  }

  function MatchedBodies(db: Db, ps: seq<Rename>): set<Body> {
    set p | p in ps && BodyOf(db, p.now).Some? :: BodyOf(db, p.now).value
  }

  /** One new artifact per old identity, in the order the new rows arrive. */
  function MatchRenames(db: Db, byBody: map<Body, ArtifactId>, order: seq<ArtifactId>): seq<Rename> {
    if order == [] then []
    else
      var last := order[|order| - 1];
      var ps := MatchRenames(db, byBody, order[..|order| - 1]);
      var b := BodyOf(db, last);
      if b.None? || b.value !in byBody || b.value in MatchedBodies(db, ps) then ps
      else ps + [Rename(byBody[b.value], last)]
  }

  /** A legal pair of row orders for the two SELECTs of rename detection. */
  ghost predicate RowOrders(db: Db, n: int, vanished: set<SourceId>,
                            oldOrder: seq<ArtifactId>, newOrder: seq<ArtifactId>)
  {
    && Enumerates(oldOrder, OldRows(db, vanished))
    && Enumerates(newOrder, NewRows(db, n, OldByBody(db, oldOrder).Keys, vanished))
  }

  function Renames(db: Db, n: int, vanished: set<SourceId>,
                   oldOrder: seq<ArtifactId>, newOrder: seq<ArtifactId>): seq<Rename>
  {
    MatchRenames(db, OldByBody(db, oldOrder), newOrder)
  }

  function Olds(ps: seq<Rename>): set<ArtifactId> { set p | p in ps :: p.was }

  function RenamedSources(db: Db, ps: seq<Rename>): set<SourceId> {
    set p | p in ps && p.was in db.artifacts :: db.artifacts[p.was].source
  }

  // ------------------------------------------------------- applying one rename

  /** First statement per column: an edge between the two identities leaves. */
  function LoopFrom(e: Edge, r: Rename, n: int): Edge {
    if e.from == r.was && e.to == r.now && e.gone.None? then e.(gone := Some(n)) else e
  }

  function LoopTo(e: Edge, r: Rename, n: int): Edge {
    if e.to == r.was && e.from == r.now && e.gone.None? then e.(gone := Some(n)) else e
  }

  /** Second statement: the rest is repointed. */
  function MoveFrom(e: Edge, r: Rename): Edge {
    if e.from == r.was && e.to != r.now && e.gone.None? then e.(from := r.now) else e
  }

  function MoveTo(e: Edge, r: Rename): Edge {
    if e.to == r.was && e.from != r.now && e.gone.None? then e.(to := r.now) else e
  }

  function RepointFrom(e: Edge, r: Rename, n: int): Edge { MoveFrom(LoopFrom(e, r, n), r) }

  function RepointTo(e: Edge, r: Rename, n: int): Edge { MoveTo(LoopTo(e, r, n), r) }

  function Reattached(e: Edge, r: Rename, n: int): Edge {
    RepointTo(RepointFrom(e, r, n), r, n)
  }

  function LinkedRow(a: ArtifactId, row: Artifact, r: Rename): Artifact {
    if a == r.now then row.(prior := Some(r.was)) else row
  }

  function RetiredRow(a: ArtifactId, row: Artifact, r: Rename, n: int): Artifact {
    if a == r.was && row.gone.None? then row.(gone := Some(n)) else row
  }

  function RenamedRow(a: ArtifactId, row: Artifact, r: Rename, n: int): Artifact {
    RetiredRow(a, LinkedRow(a, row, r), r, n)
  }

  function RenameOne(db: Db, r: Rename, n: int): Db {
    if r.was !in db.artifacts then db
    else
      var src := db.artifacts[r.was].source;
      db.(sources := map s | s in db.sources ::
                       if s == src then db.sources[s].(isDeleted := true) else db.sources[s],
          artifacts := map a | a in db.artifacts :: RenamedRow(a, db.artifacts[a], r, n),
          edges := map e | e in db.edges :: Reattached(db.edges[e], r, n))
  }

  function ApplyRenames(db: Db, ps: seq<Rename>, n: int): (d: Db)
    ensures d.artifacts.Keys == db.artifacts.Keys
  {
    if ps == [] then db
    else RenameOne(ApplyRenames(db, ps[..|ps| - 1], n), ps[|ps| - 1], n)
  }

  // ------------------------------------------------------- sweeps

  function SweptEdge(e: Edge, swept: set<ArtifactId>, n: int): Edge {
    if e.gone.None? && (e.from in swept || e.to in swept) then e.(gone := Some(n)) else e
  }

  /** Invalidate live artifacts of `swept` and every live edge touching one. */
  function SweepArtifacts(db: Db, swept: set<ArtifactId>, n: int): Db {
    db.(artifacts := map a | a in db.artifacts ::
                       if a in swept && db.artifacts[a].gone.None?
                       then db.artifacts[a].(gone := Some(n)) else db.artifacts[a],
        edges := map e | e in db.edges :: SweptEdge(db.edges[e], swept, n))
  }

  function LiveOf(db: Db, ids: set<SourceId>): set<ArtifactId> {
    set a | a in db.artifacts && LiveArtifact(db, a) && db.artifacts[a].source in ids
  }

  function Without(xs: seq<ArtifactId>, drop: set<ArtifactId>): (r: seq<ArtifactId>)
    ensures forall x :: x in r <==> x in xs && x !in drop
  {
    if xs == [] then []
    else (if xs[0] in drop then [] else [xs[0]]) + Without(xs[1..], drop)
  }

  function MarkDeleted(sources: map<SourceId, Source>, ids: set<SourceId>): map<SourceId, Source> {
    map s | s in sources :: if s in ids then sources[s].(isDeleted := true) else sources[s]
  }

  /** The cache keys stay; only their artifact mappings are retired. */
  function DeletionSwept(db: Db, n: int, ids: set<SourceId>): Db {
    var swept := LiveOf(db, ids);
    SweepArtifacts(db, swept, n).(
      sources := MarkDeleted(db.sources, ids),
      generation := map k | k in db.generation :: Without(db.generation[k], swept))
  }

  function PriorGeneration(db: Db, n: int, changed: set<SourceId>): set<ArtifactId> {
    set a | a in db.artifacts && LiveArtifact(db, a) && db.artifacts[a].source in changed &&
            db.artifacts[a].validFrom < n
  }

  function SupersessionSwept(db: Db, n: int, changed: set<SourceId>): Db {
    SweepArtifacts(db, PriorGeneration(db, n, changed), n)
  }

  predicate StaleRow(sources: map<SourceId, Source>, seen: set<SourceId>, row: Artifact) {
    row.gone.None? && row.source in seen && row.source in sources && row.acl != sources[row.source].acl
  }

  function AclRow(sources: map<SourceId, Source>, seen: set<SourceId>, row: Artifact): Artifact {
    if StaleRow(sources, seen, row) then row.(acl := sources[row.source].acl) else row
  }

  predicate AclStale(db: Db, seen: set<SourceId>, a: ArtifactId) {
    a in db.artifacts && StaleRow(db.sources, seen, db.artifacts[a])
  }

  function AclPropagated(db: Db, seen: set<SourceId>): Db {
    db.(artifacts := map a | a in db.artifacts :: AclRow(db.sources, seen, db.artifacts[a]))
  }

  // ------------------------------------------------------- the whole pass

  datatype PassInput = PassInput(
    seen: set<SourceId>,
    changed: set<SourceId>,
    startedAt: int,
    oldOrder: seq<ArtifactId>,
    newOrder: seq<ArtifactId>)

  /** The orders in which the two SELECTs return their rows. */
  ghost predicate PassOrders(db: Db, n: int, i: PassInput) {
    RowOrders(db, n, Vanished(db, i.seen, i.startedAt), i.oldOrder, i.newOrder)
  }

  /** The renames of this pass would put two rows of one producer on one key. */
  ghost predicate PassClashes(db: Db, n: int, i: PassInput) {
    KeysClash(db.edges, Rho(PassRenames(db, n, i)))
  }

  /** A pass that runs to its end: on a clash the unique index raises instead. */
  ghost predicate LegalInput(db: Db, n: int, i: PassInput) {
    PassOrders(db, n, i) && !PassClashes(db, n, i)
  }

  function PassRenames(db: Db, n: int, i: PassInput): seq<Rename>
  {
    Renames(db, n, Vanished(db, i.seen, i.startedAt), i.oldOrder, i.newOrder)
  }

  function AfterRenames(db: Db, n: int, i: PassInput): Db
  {
    ApplyRenames(db, PassRenames(db, n, i), n)
  }

  function DeletedSources(db: Db, n: int, i: PassInput): set<SourceId>
  {
    Vanished(db, i.seen, i.startedAt) - RenamedSources(db, PassRenames(db, n, i))
  }

  function AfterDeletion(db: Db, n: int, i: PassInput): Db
  {
    DeletionSwept(AfterRenames(db, n, i), n, DeletedSources(db, n, i))
  }

  function AfterSupersession(db: Db, n: int, i: PassInput): Db
  {
    SupersessionSwept(AfterDeletion(db, n, i), n, i.changed)
  }

  function InvalidationPass(db: Db, n: int, i: PassInput): Db
  {
    AclPropagated(AfterSupersession(db, n, i), i.seen)
  }

  // ------------------------------------------------------- rename matching is a partial bijection

  predicate MatchedRow(db: Db, byBody: map<Body, ArtifactId>, order: seq<ArtifactId>, p: Rename) {
    var b := BodyOf(db, p.now);
    p.now in order && b.Some? && b.value in byBody && byBody[b.value] == p.was && BodyOf(db, p.was) == b
  }

  lemma {:induction false} MatchedRowsExist(db: Db, byBody: map<Body, ArtifactId>, order: seq<ArtifactId>)
    requires forall b :: b in byBody ==> BodyOf(db, byBody[b]) == Some(b)
    ensures forall p :: p in MatchRenames(db, byBody, order) ==> MatchedRow(db, byBody, order, p)
    ensures DistinctRenames(MatchRenames(db, byBody, order))
    ensures forall a :: a in order && BodyOf(db, a).Some? && BodyOf(db, a).value in byBody ==>
      BodyOf(db, a).value in MatchedBodies(db, MatchRenames(db, byBody, order))
  {
    if order != [] {
      var rest, last := order[..|order| - 1], order[|order| - 1];
      assert order == rest + [last];
      MatchedRowsExist(db, byBody, rest);
      var b := BodyOf(db, last);
      var ps0, ps := MatchRenames(db, byBody, rest), MatchRenames(db, byBody, order);
      if b.Some? && b.value in byBody && b.value !in MatchedBodies(db, ps0) {
        var p := Rename(byBody[b.value], last);
        assert ps == ps0 + [p];
        MatchedBodiesGrow(db, ps0, p);
        hide MatchRenames;
        forall q | q in ps0 ensures q.was != p.was && q.now != last {
          assert MatchedRow(db, byBody, rest, q);
          assert BodyOf(db, q.now).value in MatchedBodies(db, ps0);
        }
        OneMoreRename(ps0, p);
        hide MatchedBodies, BodyOf, DistinctRenames;
      }
    }
  }

  lemma OneMoreRename(ps: seq<Rename>, p: Rename)
    requires DistinctRenames(ps) && forall q :: q in ps ==> q.was != p.was && q.now != p.now
    ensures DistinctRenames(ps + [p])
  {
    var all := ps + [p];
    assert forall i :: 0 <= i < |ps| ==> all[i] == ps[i] && all[i] in ps;
  }

  lemma MatchedBodiesGrow(db: Db, ps: seq<Rename>, p: Rename)
    requires BodyOf(db, p.now).Some?
    ensures MatchedBodies(db, ps + [p]) == MatchedBodies(db, ps) + {BodyOf(db, p.now).value}
  {
    assert forall q :: q in ps + [p] <==> q in ps || q == p;
  }

  ghost predicate DistinctRenames(ps: seq<Rename>) {
    forall i, j :: 0 <= i < j < |ps| ==> ps[i].was != ps[j].was && ps[i].now != ps[j].now
  }

  predicate ValidRename(db: Db, n: int, vanished: set<SourceId>, p: Rename) {
    && IsOldRow(db, vanished, p.was)
    && p.now in db.artifacts && db.artifacts[p.now].validFrom == n
    && db.artifacts[p.now].source !in vanished
    && db.artifacts[p.now].body == db.artifacts[p.was].body
  }

  /** What the rest of the pass may rely on, whatever the row orders were. */
  ghost predicate ValidRenames(db: Db, n: int, vanished: set<SourceId>, ps: seq<Rename>) {
    && (forall p :: p in ps ==> ValidRename(db, n, vanished, p))
    && DistinctRenames(ps)
  }

  lemma RenamesAreValid(db: Db, n: int, vanished: set<SourceId>,
                        oldOrder: seq<ArtifactId>, newOrder: seq<ArtifactId>)
    requires RowOrders(db, n, vanished, oldOrder, newOrder)
    ensures ValidRenames(db, n, vanished, Renames(db, n, vanished, oldOrder, newOrder))
  {
    var byBody := OldByBody(db, oldOrder);
    MatchedRowsExist(db, byBody, newOrder);
    forall p | p in Renames(db, n, vanished, oldOrder, newOrder)
      ensures ValidRename(db, n, vanished, p)
    {
      assert MatchedRow(db, byBody, newOrder, p);
      assert p.was in OldRows(db, vanished);
      assert p.now in NewRows(db, n, byBody.Keys, vanished);
    }
  }

  lemma SameOldSameRename(ps: seq<Rename>, p: Rename, q: Rename)
    requires DistinctRenames(ps) && p in ps && q in ps && p.was == q.was
    ensures p == q
  {
    var i :| 0 <= i < |ps| && ps[i] == p;
    var j :| 0 <= j < |ps| && ps[j] == q;
  }

  /** Rename detection is complete: a content shared by a vanished live artifact
      and a fresh artifact elsewhere is linked, exactly once. */
  lemma SharedContentIsLinked(db: Db, n: int, vanished: set<SourceId>,
                              oldOrder: seq<ArtifactId>, newOrder: seq<ArtifactId>,
                              o: ArtifactId, a: ArtifactId) returns (p: Rename)
    requires RowOrders(db, n, vanished, oldOrder, newOrder)
    requires IsOldRow(db, vanished, o)
    requires a in db.artifacts && db.artifacts[a].validFrom == n
    requires db.artifacts[a].source !in vanished && db.artifacts[a].body == db.artifacts[o].body
    ensures p in Renames(db, n, vanished, oldOrder, newOrder)
    ensures p.was in db.artifacts && db.artifacts[p.was].body == db.artifacts[o].body
    ensures forall q | q in Renames(db, n, vanished, oldOrder, newOrder) && q.was in db.artifacts ::
      db.artifacts[q.was].body == db.artifacts[o].body ==> q == p
  {
    var byBody := OldByBody(db, oldOrder);
    var ps := MatchRenames(db, byBody, newOrder);
    MatchedRowsExist(db, byBody, newOrder);
    hide MatchRenames, OldByBody;
    assert o in oldOrder by { assert o in OldRows(db, vanished); }
    assert a in newOrder by { assert a in NewRows(db, n, byBody.Keys, vanished); }
    var b := db.artifacts[o].body.value;
    assert b in MatchedBodies(db, ps);
    p :| p in ps && BodyOf(db, p.now) == Some(b);
    hide NewRows, OldRows, Enumerates, MatchedBodies;
    assert MatchedRow(db, byBody, newOrder, p);
    forall q | q in ps && BodyOf(db, q.was) == Some(b)
      ensures q == p
    {
      assert MatchedRow(db, byBody, newOrder, q);
      SameOldSameRename(ps, p, q);
    }
  }

  // ------------------------------------------------------- closed form of the rename fold

  function Rho(ps: seq<Rename>): (m: map<ArtifactId, ArtifactId>)
    ensures m.Keys == Olds(ps)
  {
    if ps == [] then map[]
    else
      assert ps == ps[..|ps| - 1] + [ps[|ps| - 1]];
      Rho(ps[..|ps| - 1])[ps[|ps| - 1].was := ps[|ps| - 1].now]
  }

  function Target(rho: map<ArtifactId, ArtifactId>, a: ArtifactId): ArtifactId {
    if a in rho then rho[a] else a
  }

  /** A live edge that joined the two identities of one renamed artifact. */
  predicate Collapses(e: Edge, rho: map<ArtifactId, ArtifactId>) {
    (e.from in rho || e.to in rho) && Target(rho, e.from) == Target(rho, e.to)
  }

  /** What all renames together do to one edge, in one step. */
  function RenamedEdge(e: Edge, rho: map<ArtifactId, ArtifactId>, n: int): Edge {
    if e.gone.Some? then e
    else if Collapses(e, rho) then
      e.(gone := Some(n), from := if e.from == e.to then rho[e.from] else e.from)
    else e.(from := Target(rho, e.from), to := Target(rho, e.to))
  }

  predicate Moves(e: Edge, rho: map<ArtifactId, ArtifactId>) {
    e.gone.None? && (e.from in rho || e.to in rho)
  }

  /** A linker or judge edge that the renames move lands on the key another row of its
      producer ends up with, live or gone. */
  predicate Collide(edges: map<EdgeId, Edge>, rho: map<ArtifactId, ArtifactId>, e: EdgeId, f: EdgeId) {
    e in edges && f in edges && e != f && Keyed(edges[e]) && Moves(edges[e], rho) &&
    SameKey(RenamedEdge(edges[e], rho, 0), RenamedEdge(edges[f], rho, 0))
  }

  ghost predicate KeysClash(edges: map<EdgeId, Edge>, rho: map<ArtifactId, ArtifactId>) {
    exists e, f :: Collide(edges, rho, e, f)
  }

  lemma RenamedEdgeStep(e: Edge, rho: map<ArtifactId, ArtifactId>, r: Rename, n: int)
    requires r.was !in rho && r.now !in rho && r.was != r.now
    requires r.was !in rho.Values && r.now !in rho.Values
    ensures Reattached(RenamedEdge(e, rho, n), r, n) == RenamedEdge(e, rho[r.was := r.now], n)
  {
    if e.from in rho { assert rho[e.from] in rho.Values; }
    if e.to in rho { assert rho[e.to] in rho.Values; }
  }

  lemma SplitLast(ps: seq<Rename>)
    requires DistinctRenames(ps) && ps != []
    ensures var rest, last := ps[..|ps| - 1], ps[|ps| - 1];
      && DistinctRenames(rest)
      && (forall p :: p in ps <==> p in rest || p == last)
      && (forall p :: p in rest ==> p.was != last.was && p.now != last.now)
      && Olds(ps) == Olds(rest) + {last.was}
  {
    var rest, last := ps[..|ps| - 1], ps[|ps| - 1];
    assert ps == rest + [last];
    forall p | p in rest ensures p.was != last.was && p.now != last.now {
      var i :| 0 <= i < |rest| && rest[i] == p;
      assert ps[i] == p;
    }
  }

  lemma {:induction false} RhoValues(ps: seq<Rename>)
    requires DistinctRenames(ps)
    ensures forall p :: p in ps ==> p.was in Rho(ps) && Rho(ps)[p.was] == p.now
    ensures forall a :: a in Rho(ps) ==> exists p :: p in ps && p.was == a && p.now == Rho(ps)[a]
    ensures forall v :: v in Rho(ps).Values ==> exists p :: p in ps && p.now == v
  {
    if ps != [] {
      var rest, last := ps[..|ps| - 1], ps[|ps| - 1];
      SplitLast(ps);
      RhoValues(rest);
      var m, m' := Rho(rest), Rho(ps);
      assert m' == m[last.was := last.now] && m.Keys == Olds(rest);
      hide Rho, DistinctRenames, Olds;
      forall p | p in ps ensures p.was in m' && m'[p.was] == p.now {}
      forall a | a in m' ensures exists p :: p in ps && p.was == a && p.now == m'[a] {
        if a == last.was {
          assert last in ps;
        } else {
          var p :| p in rest && p.was == a && p.now == m[a];
          assert p in ps;
        }
      }
    }
  }

  /** The last rename shares no identity with the earlier ones. */
  lemma LastRenameIsFresh(db: Db, n: int, vanished: set<SourceId>, ps: seq<Rename>)
    requires ValidRenames(db, n, vanished, ps) && ps != []
    ensures var rest, last := ps[..|ps| - 1], ps[|ps| - 1];
      && ValidRenames(db, n, vanished, rest) && ValidRename(db, n, vanished, last)
      && last.was !in Rho(rest) && last.now !in Rho(rest)
      && last.was !in Rho(rest).Values && last.now !in Rho(rest).Values
      && last.was != last.now
  {
    var rest, last := ps[..|ps| - 1], ps[|ps| - 1];
    SplitLast(ps);
    RhoValues(rest);
    assert ValidRename(db, n, vanished, last);
    forall p | p in rest ensures p.was != last.now && p.now != last.was {
      assert ValidRename(db, n, vanished, p);
    }
  }

  /** The renames, applied one after the other, amount to one simultaneous
      substitution of endpoints. */
  lemma {:induction false} RenamedEdgesInOneStep(db: Db, n: int, vanished: set<SourceId>, ps: seq<Rename>)
    requires ValidRenames(db, n, vanished, ps)
    ensures ApplyRenames(db, ps, n).edges == map e | e in db.edges :: RenamedEdge(db.edges[e], Rho(ps), n)
  {
    if ps == [] {
      assert forall e :: e in db.edges ==> RenamedEdge(db.edges[e], Rho(ps), n) == db.edges[e];
    } else {
      var rest, last := ps[..|ps| - 1], ps[|ps| - 1];
      LastRenameIsFresh(db, n, vanished, ps);
      RenamedEdgesInOneStep(db, n, vanished, rest);
      forall e | e in db.edges
        ensures ApplyRenames(db, ps, n).edges[e] == RenamedEdge(db.edges[e], Rho(ps), n)
      {
        RenamedEdgeStep(db.edges[e], Rho(rest), last, n);
      }
    }
  }

  /** `row'` is `row`, possibly with another history link. */
  predicate SameButPrior(row: Artifact, row': Artifact) {
    row' == row.(prior := row'.prior)
  }

  function RenamedAway(row: Artifact, away: bool, n: int): Artifact {
    if away then row.(gone := Some(n)) else row
  }

  /** Apart from the history link, renames change an artifact only by taking the
      old identities out of the registry at `n`. */
  lemma {:induction false} RenamedArtifactsInOneStep(db: Db, n: int, vanished: set<SourceId>, ps: seq<Rename>)
    requires ValidRenames(db, n, vanished, ps)
    ensures forall a | a in db.artifacts ::
      SameButPrior(RenamedAway(db.artifacts[a], a in Olds(ps), n), ApplyRenames(db, ps, n).artifacts[a])
  {
    if ps != [] {
      var rest, last := ps[..|ps| - 1], ps[|ps| - 1];
      SplitLast(ps);
      LastRenameIsFresh(db, n, vanished, ps);
      RenamedArtifactsInOneStep(db, n, vanished, rest);
      forall a | a in db.artifacts
        ensures SameButPrior(RenamedAway(db.artifacts[a], a in Olds(ps), n), ApplyRenames(db, ps, n).artifacts[a])
      {
        var row0 := ApplyRenames(db, rest, n).artifacts[a];
        assert ApplyRenames(db, ps, n).artifacts[a] == RenamedRow(a, row0, last, n);
        assert a == last.was ==> a !in Olds(rest) && IsOldRow(db, vanished, a);
      }
    }
  }

  lemma RenamedSourcesGrow(db: Db, ps: seq<Rename>, p: Rename)
    requires p.was in db.artifacts
    ensures RenamedSources(db, ps + [p]) == RenamedSources(db, ps) + {db.artifacts[p.was].source}
  {
    assert forall q :: q in ps + [p] <==> q in ps || q == p;
  }

  lemma RenamedSourceStep(db: Db, d: Db, ps: seq<Rename>, p: Rename, n: int)
    requires p.was in db.artifacts && p.was in d.artifacts
    requires d.artifacts[p.was].source == db.artifacts[p.was].source
    requires d.sources == MarkDeleted(db.sources, RenamedSources(db, ps))
    ensures RenameOne(d, p, n).sources == MarkDeleted(db.sources, RenamedSources(db, ps + [p]))
  {
    RenamedSourcesGrow(db, ps, p);
  }

  /** The renamed sources, and only they, are marked deleted. */
  lemma {:induction false} RenamedSourcesInOneStep(db: Db, n: int, vanished: set<SourceId>, ps: seq<Rename>)
    requires ValidRenames(db, n, vanished, ps)
    ensures ApplyRenames(db, ps, n).sources == MarkDeleted(db.sources, RenamedSources(db, ps))
    ensures ApplyRenames(db, ps, n).generation == db.generation
  {
    if ps != [] {
      var rest, last := ps[..|ps| - 1], ps[|ps| - 1];
      assert ps == rest + [last] && last in ps && forall p :: p in rest ==> p in ps;
      LastRenameIsFresh(db, n, vanished, ps);
      RenamedSourcesInOneStep(db, n, vanished, rest);
      RenamedArtifactsInOneStep(db, n, vanished, rest);
      var d := ApplyRenames(db, rest, n);
      assert ApplyRenames(db, ps, n) == RenameOne(d, last, n);
      hide ApplyRenames, RenamedSources, MarkDeleted;
      assert SameButPrior(RenamedAway(db.artifacts[last.was], last.was in Olds(rest), n), d.artifacts[last.was]);
      RenamedSourceStep(db, d, rest, last, n);
    }
  }

  /** Each fresh identity carries the link to the identity it replaces. */
  lemma {:induction false} RenamesLinkHistory(db: Db, n: int, vanished: set<SourceId>, ps: seq<Rename>)
    requires ValidRenames(db, n, vanished, ps)
    ensures forall p :: p in ps ==> ApplyRenames(db, ps, n).artifacts[p.now].prior == Some(p.was)
  {
    if ps != [] {
      var rest, last := ps[..|ps| - 1], ps[|ps| - 1];
      SplitLast(ps);
      LastRenameIsFresh(db, n, vanished, ps);
      RenamesLinkHistory(db, n, vanished, rest);
      forall p | p in ps ensures ApplyRenames(db, ps, n).artifacts[p.now].prior == Some(p.was) {
        assert ValidRename(db, n, vanished, p);
        assert ApplyRenames(db, ps, n).artifacts[p.now] ==
          RenamedRow(p.now, ApplyRenames(db, rest, n).artifacts[p.now], last, n);
      }
    }
  }
}
