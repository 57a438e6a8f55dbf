/** The pass as it runs: bulk updates and row loops over the store, each proved to
    do what the table functions of module Invalidation say. */
module InvalidationRun {
  import opened Prelude
  import opened Registry
  import opened Invalidation
  import opened PassProperties
  import opened LinkKeys
  import opened PassFates

  datatype InvalidationResult = InvalidationResult(
    renames: nat,
    reattached: nat,
    sourcesDeleted: nat,
    artifactsInvalidated: nat,
    edgesInvalidated: nat,
    superseded: nat,
    aclSources: nat,
    aclArtifacts: nat,
    concurrentSkipped: nat)

  /** The row loop: unseen rows fall on one side of the time fence or the other. */
  method FenceUnseen(rows: map<SourceId, Source>, seen: set<SourceId>, startedAt: int)
    returns (vanished: set<SourceId>, skipped: set<SourceId>)
    ensures vanished == set s | s in rows && UnseenLive(rows, seen, s) && rows[s].LastRecorded() < startedAt
    ensures skipped == set s | s in rows && UnseenLive(rows, seen, s) && rows[s].LastRecorded() >= startedAt
  {
    vanished, skipped := {}, {};
    var todo := set s | s in rows && !rows[s].isDeleted;
    while todo != {}
      invariant forall s :: s in todo ==> s in rows && !rows[s].isDeleted
      invariant vanished == set s | s in rows && s !in todo && UnseenLive(rows, seen, s) && rows[s].LastRecorded() < startedAt
      invariant skipped == set s | s in rows && s !in todo && UnseenLive(rows, seen, s) && rows[s].LastRecorded() >= startedAt
      decreases todo
    {
      var s :| s in todo;
      todo := todo - {s};
      if s !in seen {
        if rows[s].LastRecorded() < startedAt {
          vanished := vanished + {s};
        } else {
          skipped := skipped + {s};
        }
      }
    }
  }

  method VanishedLiveSources(store: Store, seen: set<SourceId>, startedAt: int)
    returns (vanished: set<SourceId>, concurrent: nat)
    ensures vanished == Vanished(store.Snapshot(), seen, startedAt)
    ensures concurrent == |ConcurrentlyRecorded(store.Snapshot(), seen, startedAt)|
  {
    var skipped;
    vanished, skipped := FenceUnseen(store.sources, seen, startedAt);
    assert skipped == ConcurrentlyRecorded(store.Snapshot(), seen, startedAt);
    concurrent := |skipped|;
  }

  /** The rows that were live before and left at `n`. */
  function LeftRows(before: map<ArtifactId, Artifact>, after: map<ArtifactId, Artifact>, n: int): set<ArtifactId> {
    set a | a in before && before[a].gone.None? && a in after && after[a].gone == Some(n)
  }

  function LeftEdges(before: map<EdgeId, Edge>, after: map<EdgeId, Edge>, n: int): set<EdgeId> {
    set e | e in before && before[e].gone.None? && e in after && after[e].gone == Some(n)
  }

  function FromMoved(before: map<EdgeId, Edge>, after: map<EdgeId, Edge>): set<EdgeId> {
    set e | e in before && e in after && after[e].from != before[e].from
  }

  function ToMoved(before: map<EdgeId, Edge>, after: map<EdgeId, Edge>): set<EdgeId> {
    set e | e in before && e in after && after[e].to != before[e].to
  }

  /** The number of ends that moved. */
  function MovedEnds(before: map<EdgeId, Edge>, after: map<EdgeId, Edge>): nat {
    |FromMoved(before, after)| + |ToMoved(before, after)|
  }

  function MovedFrom(edges: map<EdgeId, Edge>, r: Rename): set<EdgeId> {
    set e | e in edges && edges[e].gone.None? && edges[e].from == r.was && edges[e].to != r.now
  }

  function MovedTo(edges: map<EdgeId, Edge>, r: Rename): set<EdgeId> {
    set e | e in edges && edges[e].gone.None? && edges[e].to == r.was && edges[e].from != r.now
  }

  /** One endpoint column takes two statements: would-be self-loops leave, the rest move,
      unless a moved row meets the key of another. */
  method ReattachFrom(store: Store, r: Rename, n: int) returns (raised: bool, reattached: nat)
    requires r.was != r.now
    modifies store`edges
    ensures raised <==> UpdateRaises(old(store.edges), AllFrom(old(store.edges), r, n))
    ensures !raised ==> store.edges == AllFrom(old(store.edges), r, n)
    ensures !raised ==> reattached == |MovedFrom(old(store.edges), r)|
  {
    ghost var before := store.edges;
    store.edges := map e | e in store.edges :: LoopFrom(store.edges[e], r, n);
    var moved := MovedFrom(store.edges, r);
    assert moved == MovedFrom(before, r);
    var after := map e | e in store.edges :: MoveFrom(store.edges[e], r);
    RaisesByKeys(before, store.edges, after);
    hide LoopFrom, MoveFrom, UpdateRaises;
    assert after == AllFrom(before, r, n);
    if UpdateRaises(store.edges, after) { return true, 0; }
    store.edges := after;
    raised, reattached := false, |moved|;
  }

  method ReattachTo(store: Store, r: Rename, n: int) returns (raised: bool, reattached: nat)
    requires r.was != r.now
    modifies store`edges
    ensures raised <==> UpdateRaises(old(store.edges), AllTo(old(store.edges), r, n))
    ensures !raised ==> store.edges == AllTo(old(store.edges), r, n)
    ensures !raised ==> reattached == |MovedTo(old(store.edges), r)|
  {
    ghost var before := store.edges;
    store.edges := map e | e in store.edges :: LoopTo(store.edges[e], r, n);
    var moved := MovedTo(store.edges, r);
    assert moved == MovedTo(before, r);
    var after := map e | e in store.edges :: MoveTo(store.edges[e], r);
    RaisesByKeys(before, store.edges, after);
    hide LoopTo, MoveTo, UpdateRaises;
    assert after == AllTo(before, r, n);
    if UpdateRaises(store.edges, after) { return true, 0; }
    store.edges := after;
    raised, reattached := false, |moved|;
  }

  method ReattachEdges(store: Store, r: Rename, n: int) returns (raised: bool, reattached: nat)
    requires r.was != r.now
    modifies store`edges
    ensures raised <==> RenameRaises(old(store.edges), r, n)
    ensures !raised ==> store.edges == map e | e in old(store.edges) :: Reattached(old(store.edges)[e], r, n)
    ensures !raised ==> reattached == MovedEnds(old(store.edges), store.edges)
  {
    EndsMoved(store.edges, r, n);
    hide RepointFrom, RepointTo, UpdateRaises, MovedFrom, MovedTo, MovedEnds;
    raised, reattached := ReattachFrom(store, r, n);
    if !raised {
      var more;
      raised, more := ReattachTo(store, r, n);
      reattached := reattached + more;
    }
  }

  /** What the two statements move is what has other ends afterwards. */
  lemma EndsMoved(edges: map<EdgeId, Edge>, r: Rename, n: int)
    requires r.was != r.now
    ensures MovedEnds(edges, map e | e in edges :: Reattached(edges[e], r, n)) == |MovedFrom(edges, r)| + |MovedTo(AllFrom(edges, r, n), r)|
  {
    FromsMoved(edges, r, n);
    TosMoved(edges, r, n);
    hide Reattached, MovedFrom, MovedTo;
  }

  lemma FromsMoved(edges: map<EdgeId, Edge>, r: Rename, n: int)
    requires r.was != r.now
    ensures var after := map e | e in edges :: Reattached(edges[e], r, n);
      FromMoved(edges, after) == MovedFrom(edges, r)
  {}

  lemma TosMoved(edges: map<EdgeId, Edge>, r: Rename, n: int)
    requires r.was != r.now
    ensures var after := map e | e in edges :: Reattached(edges[e], r, n);
      ToMoved(edges, after) == MovedTo(AllFrom(edges, r, n), r)
  {}

  /** Link, reattach, invalidate and mark: the work for one matched pair. */
  method ApplyRename(store: Store, r: Rename, n: int) returns (raised: bool, reattached: nat)
    requires r.was in store.artifacts && r.was != r.now
    modifies store
    ensures raised <==> RenameRaises(old(store.edges), r, n)
    ensures !raised ==> store.Snapshot() == RenameOne(old(store.Snapshot()), r, n)
    ensures !raised ==> reattached == MovedEnds(old(store.edges), store.edges)
  {
    RenameInSteps(store.Snapshot(), r, n);
    hide *;
    var src := store.artifacts[r.was].source;
    store.artifacts := map a | a in store.artifacts :: LinkedRow(a, store.artifacts[a], r);
    raised, reattached := ReattachEdges(store, r, n);
    if raised { return; }
    store.artifacts := map a | a in store.artifacts :: RetiredRow(a, store.artifacts[a], r, n);
    store.sources := MarkDeleted(store.sources, {src});
  }

  lemma RenameInSteps(db: Db, r: Rename, n: int)
    requires r.was in db.artifacts
    ensures var linked := map a | a in db.artifacts :: LinkedRow(a, db.artifacts[a], r);
      RenameOne(db, r, n) == Db(
        MarkDeleted(db.sources, {db.artifacts[r.was].source}),
        map a | a in linked :: RetiredRow(a, linked[a], r, n),
        map e | e in db.edges :: Reattached(db.edges[e], r, n),
        db.generation)
  {
    hide Reattached, LinkedRow, RetiredRow;
    var linked := map a | a in db.artifacts :: LinkedRow(a, db.artifacts[a], r);
    assert RenameOne(db, r, n).artifacts == map a | a in linked :: RetiredRow(a, linked[a], r, n);
  }

  /** The dictionary of old rows: the first row per content wins. */
  method IndexOldRows(db: Db, order: seq<ArtifactId>) returns (m: map<Body, ArtifactId>)
    requires forall a :: a in order ==> a in db.artifacts && db.artifacts[a].body.Some?
    ensures m == OldByBody(db, order)
  {
    m := map[];
    for k := 0 to |order|
      invariant m == OldByBody(db, order[..k])
    {
      assert order[..k + 1][..k] == order[..k] && order[k] in order;
      var body := db.artifacts[order[k]].body.value;
      if body !in m { m := m[body := order[k]]; }
    }
    assert order[..|order|] == order;
  }

  /** One new row: matched unless its content already was. */
  method MatchRow(store: Store, n: int, byBody: map<Body, ArtifactId>, a: ArtifactId, body: Body, matched: set<Body>)
    returns (raised: bool, renames: nat, reattached: nat, source: set<SourceId>)
    requires body in byBody && byBody[body] in store.artifacts && byBody[body] != a
    modifies store
    ensures raised <==> body !in matched && RenameRaises(old(store.edges), Rename(byBody[body], a), n)
    ensures body in matched ==> renames == 0 && reattached == 0 && source == {} && store.Snapshot() == old(store.Snapshot())
    ensures body !in matched && !raised ==>
      renames == 1 && reattached == MovedEnds(old(store.edges), store.edges) && source == {old(store.artifacts)[byBody[body]].source} &&
      store.Snapshot() == RenameOne(old(store.Snapshot()), Rename(byBody[body], a), n)
  {
    if body in matched {
      return false, 0, 0, {};
    }
    source := {store.artifacts[byBody[body]].source};
    raised, reattached := ApplyRename(store, Rename(byBody[body], a), n);
    renames := 1;
  }

  /** The renames of the rows so far, and what the loop's variables make of them. */
  ghost predicate MatchedSoFar(db: Db, d: Db, byBody: map<Body, ArtifactId>, order: seq<ArtifactId>, n: int,
                               matched: set<Body>, renames: nat, moved: nat, sources: set<SourceId>)
  {
    var ps := MatchRenames(db, byBody, order);
    && moved == MovedEnds(db.edges, d.edges) && matched == MatchedBodies(db, ps) && renames == |ps| && sources == RenamedSources(db, ps)
    && d == ApplyRenames(db, ps, n) && !RenamesRaise(db, ps, n)
  }

  /** The next new row. */
  method MatchNext(store: Store, ghost db: Db, n: int, byBody: map<Body, ArtifactId>, newOrder: seq<ArtifactId>, k: nat,
                   body: Body, matched: set<Body>, ghost renames: nat, ghost soFar: nat, ghost sources: set<SourceId>)
    returns (raised: bool, hit: nat, moved: nat, source: set<SourceId>)
    requires NewRowsIndexed(db, byBody, newOrder) && k < |newOrder|
    requires MatchedSoFar(db, store.Snapshot(), byBody, newOrder[..k], n, matched, renames, soFar, sources)
    requires BodyOf(db, newOrder[k]) == Some(body)
    modifies store
    ensures raised ==> RenamesRaise(db, MatchRenames(db, byBody, newOrder), n)
    ensures !raised ==>
      MatchedSoFar(db, store.Snapshot(), byBody, newOrder[..k + 1], n, matched + {body}, renames + hit, soFar + moved, sources + source)
  {
    var a := newOrder[k];
    ghost var before := store.Snapshot();
    CanMatch(db, before, byBody, newOrder, k, n, body, matched, renames, soFar, sources);
    hide *;
    raised, hit, moved, source := MatchRow(store, n, byBody, a, body, matched);
    TurnIs(db, before, store.Snapshot(), byBody, newOrder, k, n, body, matched, renames, soFar, sources, raised, hit, moved, source);
  }

  lemma CanMatch(db: Db, before: Db, byBody: map<Body, ArtifactId>, newOrder: seq<ArtifactId>, k: nat, n: int,
                 body: Body, matched: set<Body>, renames: nat, soFar: nat, sources: set<SourceId>)
    requires NewRowsIndexed(db, byBody, newOrder) && k < |newOrder| && BodyOf(db, newOrder[k]) == Some(body)
    requires MatchedSoFar(db, before, byBody, newOrder[..k], n, matched, renames, soFar, sources)
    ensures body in byBody && byBody[body] in before.artifacts && byBody[body] != newOrder[k]
  {
    IndexedRow(db, byBody, newOrder, k, MatchRenames(db, byBody, newOrder[..k]), n);
    hide MatchRenames, RenamesRaise, ApplyRenames, MatchedBodies, RenamedSources, MovedEnds;
  }

  /** What one turn makes of the state before it. */
  lemma TurnIs(db: Db, before: Db, after: Db, byBody: map<Body, ArtifactId>, newOrder: seq<ArtifactId>, k: nat, n: int,
               body: Body, matched: set<Body>, renames: nat, soFar: nat, sources: set<SourceId>,
               raised: bool, hit: nat, moved: nat, source: set<SourceId>)
    requires NewRowsIndexed(db, byBody, newOrder) && k < |newOrder| && BodyOf(db, newOrder[k]) == Some(body)
    requires MatchedSoFar(db, before, byBody, newOrder[..k], n, matched, renames, soFar, sources)
    requires body in byBody && byBody[body] in before.artifacts
    requires raised <==> body !in matched && RenameRaises(before.edges, Rename(byBody[body], newOrder[k]), n)
    requires body in matched ==> hit == 0 && moved == 0 && source == {} && after == before
    requires body !in matched && !raised ==>
      hit == 1 && moved == MovedEnds(before.edges, after.edges) && source == {before.artifacts[byBody[body]].source} &&
      after == RenameOne(before, Rename(byBody[body], newOrder[k]), n)
    ensures raised ==> RenamesRaise(db, MatchRenames(db, byBody, newOrder), n)
    ensures !raised ==>
      MatchedSoFar(db, after, byBody, newOrder[..k + 1], n, matched + {body}, renames + hit, soFar + moved, sources + source)
  {
    hide *;
    var ps, now := MatchRenames(db, byBody, newOrder[..k]), newOrder[..k + 1];
    SoFarIs(db, before, byBody, newOrder[..k], n, matched, renames, soFar, sources);
    NextMatch(db, byBody, newOrder, k, n, body);
    if !raised {
      SoFarIs(db, after, byBody, now, n, matched + {body}, renames + hit, soFar + moved, sources + source);
    }
  }

  /** The next row, from the tables the renames so far leave. */
  lemma NextMatch(db: Db, byBody: map<Body, ArtifactId>, newOrder: seq<ArtifactId>, k: nat, n: int, body: Body)
    requires NewRowsIndexed(db, byBody, newOrder) && k < |newOrder| && BodyOf(db, newOrder[k]) == Some(body)
    ensures body in byBody
    ensures var ps, ps' := MatchRenames(db, byBody, newOrder[..k]), MatchRenames(db, byBody, newOrder[..k + 1]);
      var r, d := Rename(byBody[body], newOrder[k]), ApplyRenames(db, ps, n);
      if body in MatchedBodies(db, ps) then ps' == ps && MatchedBodies(db, ps) + {body} == MatchedBodies(db, ps)
      else
        && |ps'| == |ps| + 1 && MatchedBodies(db, ps') == MatchedBodies(db, ps) + {body}
        && r.was in d.artifacts && RenamedSources(db, ps') == RenamedSources(db, ps) + {d.artifacts[r.was].source}
        && ApplyRenames(db, ps', n) == RenameOne(d, r, n)
        && MovedEnds(db.edges, RenameOne(d, r, n).edges) == MovedEnds(db.edges, d.edges) + MovedEnds(d.edges, RenameOne(d, r, n).edges)
        && (RenamesRaise(db, ps', n) <==> RenamesRaise(db, ps, n) || RenameRaises(d.edges, r, n))
        && (RenamesRaise(db, ps', n) ==> RenamesRaise(db, MatchRenames(db, byBody, newOrder), n))
  {
    var ps := MatchRenames(db, byBody, newOrder[..k]);
    IndexedRow(db, byBody, newOrder, k, ps, n);
    MovesAdd(db, byBody, newOrder, k, n);
    assert db.artifacts[newOrder[k]].body.value == body;
    hide *;
    MatchGrows(db, byBody, newOrder[..k + 1], ps, n);
    RaisesAtLast(db, ps, Rename(byBody[body], newOrder[k]), n);
    if RenamesRaise(db, MatchRenames(db, byBody, newOrder[..k + 1]), n) { RaisesToTheEnd(db, byBody, newOrder, k + 1, n); }
  }

  lemma SoFarIs(db: Db, d: Db, byBody: map<Body, ArtifactId>, order: seq<ArtifactId>, n: int,
                matched: set<Body>, renames: nat, moved: nat, sources: set<SourceId>)
    ensures MatchedSoFar(db, d, byBody, order, n, matched, renames, moved, sources) <==>
      moved == MovedEnds(db.edges, d.edges) &&
      matched == MatchedBodies(db, MatchRenames(db, byBody, order)) &&
      renames == |MatchRenames(db, byBody, order)| &&
      sources == RenamedSources(db, MatchRenames(db, byBody, order)) &&
      d == ApplyRenames(db, MatchRenames(db, byBody, order), n) &&
      !RenamesRaise(db, MatchRenames(db, byBody, order), n)
  {
    hide MatchedBodies, MatchRenames, RenamedSources, ApplyRenames, RenamesRaise, MovedEnds;
  }

  /** An end that has moved is at a new identity. */
  ghost predicate MovedInto(before: map<EdgeId, Edge>, after: map<EdgeId, Edge>, nows: set<ArtifactId>) {
    after.Keys == before.Keys &&
    forall e :: e in before ==>
      (after[e].from != before[e].from ==> after[e].from in nows) && (after[e].to != before[e].to ==> after[e].to in nows)
  }

  function NowsOf(ps: seq<Rename>): set<ArtifactId> { set p | p in ps :: p.now }

  lemma {:induction false} RenamesMoveInto(db: Db, ps: seq<Rename>, n: int)
    ensures MovedInto(db.edges, ApplyRenames(db, ps, n).edges, NowsOf(ps))
  {
    if ps != [] {
      var rest, last := ps[..|ps| - 1], ps[|ps| - 1];
      assert ps == rest + [last];
      assert NowsOf(ps) == NowsOf(rest) + {last.now};
      RenamesMoveInto(db, rest, n);
      var d := ApplyRenames(db, rest, n);
      RenameMoves(d, last, n);
      hide NowsOf, ApplyRenames, RenameOne;
      MoreMoves(db.edges, d.edges, RenameOne(d, last, n).edges, last, NowsOf(rest));
    }
  }

  /** One rename moves ends from the old identity to the new, and no others. */
  ghost predicate OneMove(before: map<EdgeId, Edge>, after: map<EdgeId, Edge>, r: Rename) {
    after.Keys == before.Keys &&
    forall e :: e in before ==>
      (after[e].from == before[e].from || (before[e].from == r.was && after[e].from == r.now)) &&
      (after[e].to == before[e].to || (before[e].to == r.was && after[e].to == r.now))
  }

  lemma RenameMoves(d: Db, r: Rename, n: int)
    ensures OneMove(d.edges, RenameOne(d, r, n).edges, r)
  {}

  lemma MoreMoves(a: map<EdgeId, Edge>, b: map<EdgeId, Edge>, c: map<EdgeId, Edge>, r: Rename, nows: set<ArtifactId>)
    requires MovedInto(a, b, nows) && OneMove(b, c, r)
    ensures MovedInto(a, c, nows + {r.now})
  {}

  /** What moves now had not moved before: the moves of a rename add to those so far. */
  lemma MovesAddUp(a: map<EdgeId, Edge>, b: map<EdgeId, Edge>, c: map<EdgeId, Edge>, r: Rename, nows: set<ArtifactId>)
    requires MovedInto(a, b, nows) && OneMove(b, c, r) && r.was !in nows && r.was != r.now
    ensures MovedEnds(a, c) == MovedEnds(a, b) + MovedEnds(b, c)
  {
    hide *;
    FromsAdd(a, b, c, r, nows);
    TosAdd(a, b, c, r, nows);
    Ends(a, b);
    Ends(b, c);
    Ends(a, c);
    Disjoint(FromMoved(a, b), FromMoved(b, c));
    Disjoint(ToMoved(a, b), ToMoved(b, c));
  }

  lemma FromsAdd(a: map<EdgeId, Edge>, b: map<EdgeId, Edge>, c: map<EdgeId, Edge>, r: Rename, nows: set<ArtifactId>)
    requires MovedInto(a, b, nows) && OneMove(b, c, r) && r.was !in nows && r.was != r.now
    ensures FromMoved(a, c) == FromMoved(a, b) + FromMoved(b, c) && FromMoved(a, b) !! FromMoved(b, c)
  {}

  lemma TosAdd(a: map<EdgeId, Edge>, b: map<EdgeId, Edge>, c: map<EdgeId, Edge>, r: Rename, nows: set<ArtifactId>)
    requires MovedInto(a, b, nows) && OneMove(b, c, r) && r.was !in nows && r.was != r.now
    ensures ToMoved(a, c) == ToMoved(a, b) + ToMoved(b, c) && ToMoved(a, b) !! ToMoved(b, c)
  {}

  lemma NothingMoved(edges: map<EdgeId, Edge>)
    ensures MovedEnds(edges, edges) == 0
  {
    var none: set<EdgeId> := {};
    assert FromMoved(edges, edges) == none && ToMoved(edges, edges) == none;
    Ends(edges, edges);
  }

  lemma Ends(a: map<EdgeId, Edge>, b: map<EdgeId, Edge>)
    ensures MovedEnds(a, b) == |FromMoved(a, b)| + |ToMoved(a, b)|
  {}

  lemma Disjoint(x: set<EdgeId>, y: set<EdgeId>)
    requires x !! y
    ensures |x + y| == |x| + |y|
  {}

  lemma MovesAdd(db: Db, byBody: map<Body, ArtifactId>, order: seq<ArtifactId>, k: nat, n: int)
    requires NewRowsIndexed(db, byBody, order) && k < |order|
    ensures BodyOf(db, order[k]).Some? && BodyOf(db, order[k]).value in byBody
    ensures var d := ApplyRenames(db, MatchRenames(db, byBody, order[..k]), n);
      var c := RenameOne(d, Rename(byBody[BodyOf(db, order[k]).value], order[k]), n);
      MovedEnds(db.edges, c.edges) == MovedEnds(db.edges, d.edges) + MovedEnds(d.edges, c.edges)
  {
    var ps := MatchRenames(db, byBody, order[..k]);
    var d := ApplyRenames(db, ps, n);
    assert order[k] in order;
    var r := Rename(byBody[BodyOf(db, order[k]).value], order[k]);
    MatchedRowsExist(db, byBody, order[..k]);
    assert r.was !in NowsOf(ps) by {
      forall p | p in ps ensures p.now != r.was { assert MatchedRow(db, byBody, order[..k], p) && p.now in order; }
    }
    RenamesMoveInto(db, ps, n);
    RenameMoves(d, r, n);
    assert r.was != r.now;
    hide ApplyRenames, MatchRenames, NowsOf, MovedInto, NewRowsIndexed, BodyOf, RenameOne, OneMove, MovedEnds;
    MovesAddUp(db.edges, d.edges, RenameOne(d, r, n).edges, r, NowsOf(ps));
  }

  /** The second SELECT is read in full, then each new row is matched at most once; the
      first violation ends the loop. */
  method ApplyMatches(store: Store, n: int, byBody: map<Body, ArtifactId>, newOrder: seq<ArtifactId>)
    returns (raised: bool, renames: nat, reattached: nat, renamedSources: set<SourceId>)
    requires NewRowsIndexed(store.Snapshot(), byBody, newOrder)
    modifies store
    ensures raised <==> RenamesRaise(old(store.Snapshot()), MatchRenames(old(store.Snapshot()), byBody, newOrder), n)
    ensures var db := old(store.Snapshot()); var ps := MatchRenames(db, byBody, newOrder);
      !raised ==>
      && store.Snapshot() == ApplyRenames(db, ps, n)
      && renames == |ps| && reattached == MovedEnds(db.edges, store.edges)
      && renamedSources == RenamedSources(db, ps)
  {
    ghost var db := store.Snapshot();
    var rows := store.artifacts;
    raised, renames, reattached, renamedSources := false, 0, 0, {};
    var matched: set<Body> := {};
    NothingMatched(db, byBody, n);
    forall j | 0 <= j < |newOrder| ensures newOrder[j] in rows && rows[newOrder[j]].body.Some? {
      IndexedRow(db, byBody, newOrder, j, [], n);
    }
    assert newOrder[..0] == [];
    assert forall a :: a in rows ==> BodyOf(db, a) == rows[a].body;
    hide *;
    NothingMoved(db.edges);
    SoFarIs(db, store.Snapshot(), byBody, newOrder[..0], n, matched, 0, 0, {});
    for k := 0 to |newOrder|
      invariant !raised && MatchedSoFar(db, store.Snapshot(), byBody, newOrder[..k], n, matched, renames, reattached, renamedSources)
    {
      var body := rows[newOrder[k]].body.value;
      var hit, moved, source;
      raised, hit, moved, source := MatchNext(store, db, n, byBody, newOrder, k, body, matched, renames, reattached, renamedSources);
      if raised {
        return;
      }
      matched := matched + {body};
      renames, reattached, renamedSources := renames + hit, reattached + moved, renamedSources + source;
    }
    assert newOrder[..|newOrder|] == newOrder;
    SoFarIs(db, store.Snapshot(), byBody, newOrder, n, matched, renames, reattached, renamedSources);
  }

  ghost predicate NewRowsIndexed(db: Db, byBody: map<Body, ArtifactId>, order: seq<ArtifactId>) {
    && (forall a :: a in order ==> BodyOf(db, a).Some? && BodyOf(db, a).value in byBody)
    && (forall b :: b in byBody ==> BodyOf(db, byBody[b]) == Some(b) && byBody[b] !in order)
  }

  lemma NothingMatched(db: Db, byBody: map<Body, ArtifactId>, n: int)
    ensures MatchRenames(db, byBody, []) == [] && MatchedBodies(db, []) == {}
    ensures RenamedSources(db, []) == {} && ApplyRenames(db, [], n) == db && !RenamesRaise(db, [], n)
  {}

  lemma RaisesAtLast(db: Db, ps: seq<Rename>, r: Rename, n: int)
    ensures RenamesRaise(db, ps + [r], n) <==> RenamesRaise(db, ps, n) || RenameRaises(ApplyRenames(db, ps, n).edges, r, n)
  {
    assert (ps + [r])[..|ps|] == ps;
  }

  lemma {:induction false} RaisesToTheEnd(db: Db, byBody: map<Body, ArtifactId>, order: seq<ArtifactId>, k: nat, n: int)
    requires k <= |order| && RenamesRaise(db, MatchRenames(db, byBody, order[..k]), n)
    ensures RenamesRaise(db, MatchRenames(db, byBody, order), n)
  {
    if k == |order| {
      assert order[..k] == order;
    } else {
      var init := order[..|order| - 1];
      assert init[..k] == order[..k];
      RaisesToTheEnd(db, byBody, init, k, n);
      var ps := MatchRenames(db, byBody, init);
      hide RenamesRaise;
      var b := BodyOf(db, order[|order| - 1]);
      if !(b.None? || b.value !in byBody || b.value in MatchedBodies(db, ps)) {
        RaisesAtLast(db, ps, Rename(byBody[b.value], order[|order| - 1]), n);
      }
    }
  }

  lemma {:induction false} IndexedRow(db: Db, byBody: map<Body, ArtifactId>, order: seq<ArtifactId>, k: nat,
                                      ps: seq<Rename>, n: int)
    requires NewRowsIndexed(db, byBody, order) && k < |order|
    ensures order[k] in db.artifacts && db.artifacts[order[k]].body.Some?
    ensures var b := db.artifacts[order[k]].body.value;
      && b in byBody && byBody[b] != order[k] && byBody[b] in ApplyRenames(db, ps, n).artifacts
      && byBody[b] in db.artifacts
      && ApplyRenames(db, ps, n).artifacts[byBody[b]].source == db.artifacts[byBody[b]].source
    ensures order[..k + 1][..k] == order[..k]
  {
    assert order[k] in order;
    SourcesStay(db, ps, n);
  }

  /** One more new row, seen from each of the loop's variables. */
  lemma MatchGrows(db: Db, byBody: map<Body, ArtifactId>, order: seq<ArtifactId>, ps: seq<Rename>, n: int)
    requires order != [] && order[|order| - 1] in db.artifacts && db.artifacts[order[|order| - 1]].body.Some?
    requires var b := db.artifacts[order[|order| - 1]].body.value; b in byBody && byBody[b] in db.artifacts
    requires ps == MatchRenames(db, byBody, order[..|order| - 1])
    ensures var a, b := order[|order| - 1], db.artifacts[order[|order| - 1]].body.value;
      var r := Rename(byBody[b], a);
      if b in MatchedBodies(db, ps) then
        MatchRenames(db, byBody, order) == ps && MatchedBodies(db, ps) == MatchedBodies(db, ps) + {b}
      else
        && MatchRenames(db, byBody, order) == ps + [r]
        && MatchedBodies(db, ps + [r]) == MatchedBodies(db, ps) + {b}
        && RenamedSources(db, ps + [r]) == RenamedSources(db, ps) + {db.artifacts[byBody[b]].source}
        && ApplyRenames(db, ps + [r], n) == RenameOne(ApplyRenames(db, ps, n), r, n)
  {
    var a, b := order[|order| - 1], db.artifacts[order[|order| - 1]].body.value;
    var r := Rename(byBody[b], a);
    MatchedBodiesGrow(db, ps, r);
    RenamedSourcesGrow(db, ps, r);
    assert (ps + [r])[..|ps|] == ps;
    hide MatchedBodies, RenamedSources, RenameOne;
  }

  lemma {:induction false} SourcesStay(db: Db, ps: seq<Rename>, n: int)
    ensures forall a | a in db.artifacts :: ApplyRenames(db, ps, n).artifacts[a].source == db.artifacts[a].source
  {
    if ps != [] { SourcesStay(db, ps[..|ps| - 1], n); }
  }

  method DetectRenames(store: Store, n: int, vanished: set<SourceId>,
                       oldOrder: seq<ArtifactId>, newOrder: seq<ArtifactId>)
    returns (raised: bool, renames: nat, reattached: nat, renamedSources: set<SourceId>)
    requires RowOrders(store.Snapshot(), n, vanished, oldOrder, newOrder)
    modifies store
    ensures raised <==> RenamesRaise(old(store.Snapshot()), Renames(old(store.Snapshot()), n, vanished, oldOrder, newOrder), n)
    ensures var db := old(store.Snapshot()); var ps := Renames(db, n, vanished, oldOrder, newOrder);
      !raised ==>
      && store.Snapshot() == ApplyRenames(db, ps, n)
      && renames == |ps| && reattached == MovedEnds(db.edges, store.edges)
      && renamedSources == RenamedSources(db, ps)
  {
    ghost var db := store.Snapshot();
    NothingMoved(db.edges);
    EmptyEnumeration(oldOrder, OldRows(db, vanished));
    EmptyEnumeration(newOrder, NewRows(db, n, OldByBody(db, oldOrder).Keys, vanished));
    if vanished == {} {
      NothingMatched(db, OldByBody(db, oldOrder), n);
      return false, 0, 0, {};
    }
    var oldByBody := IndexOldRows(store.Snapshot(), oldOrder);
    if oldByBody == map[] {
      NothingMatched(db, oldByBody, n);
      return false, 0, 0, {};
    }
    RowsAreIndexed(db, n, vanished, oldOrder, newOrder);
    hide *;
    raised, renames, reattached, renamedSources := ApplyMatches(store, n, oldByBody, newOrder);
  }

  lemma RowsAreIndexed(db: Db, n: int, vanished: set<SourceId>, oldOrder: seq<ArtifactId>, newOrder: seq<ArtifactId>)
    requires RowOrders(db, n, vanished, oldOrder, newOrder)
    ensures NewRowsIndexed(db, OldByBody(db, oldOrder), newOrder)
  {
    var byBody := OldByBody(db, oldOrder);
    forall a | a in newOrder
      ensures BodyOf(db, a).Some? && BodyOf(db, a).value in byBody && db.artifacts[a].source !in vanished
    {
      assert a in NewRows(db, n, byBody.Keys, vanished);
    }
    forall b | b in byBody ensures BodyOf(db, byBody[b]) == Some(b) && byBody[b] !in newOrder {
      assert byBody[b] in OldRows(db, vanished);
    }
  }

  /** Mark, invalidate, unlink and retire, counting each. */
  method DeletionSweep(store: Store, n: int, ids: set<SourceId>)
    returns (sourcesDeleted: nat, artifactsInvalidated: nat, edgesInvalidated: nat)
    modifies store
    ensures store.Snapshot() == DeletionSwept(old(store.Snapshot()), n, ids)
    ensures sourcesDeleted == |ids|
    ensures artifactsInvalidated == |LiveOf(old(store.Snapshot()), ids)|
    ensures artifactsInvalidated == |LeftRows(old(store.artifacts), store.artifacts, n)|
    ensures edgesInvalidated == |LeftEdges(old(store.edges), store.edges, n)|
  {
    ghost var db := store.Snapshot();
    SweptAreTheLeft(db, LiveOf(db, ids), n);
    if ids == {} {
      DeleteNothing(db, n);
      assert LiveOf(db, {}) == {} && Touching(db.edges, {}) == {};
      return 0, 0, 0;
    }
    var swept := set a | a in store.artifacts && store.artifacts[a].gone.None? && store.artifacts[a].source in ids;
    assert swept == LiveOf(db, ids);
    sourcesDeleted := |ids|;
    store.sources := MarkDeleted(store.sources, ids);
    if swept == {} {
      assert Touching(db.edges, {}) == {};
      SweepNothing(db, n);
      WithoutNothing(db.generation);
      return sourcesDeleted, 0, 0;
    }
    artifactsInvalidated := |swept|;
    store.artifacts := map a | a in store.artifacts ::
      if a in swept && store.artifacts[a].gone.None? then store.artifacts[a].(gone := Some(n)) else store.artifacts[a];
    edgesInvalidated := |Touching(store.edges, swept)|;
    store.edges := map e | e in store.edges :: SweptEdge(store.edges[e], swept, n);
    store.generation := map k | k in store.generation :: Without(store.generation[k], swept);
  }

  function Touching(edges: map<EdgeId, Edge>, swept: set<ArtifactId>): set<EdgeId> {
    set e | e in edges && edges[e].gone.None? && (edges[e].from in swept || edges[e].to in swept)
  }

  lemma SweptAreTheLeft(db: Db, swept: set<ArtifactId>, n: int)
    requires forall a :: a in swept ==> LiveArtifact(db, a)
    ensures var d := SweepArtifacts(db, swept, n);
      LeftRows(db.artifacts, d.artifacts, n) == swept && LeftEdges(db.edges, d.edges, n) == Touching(db.edges, swept)
  {}

  method SupersessionSweep(store: Store, n: int, changed: set<SourceId>) returns (count: nat)
    modifies store`artifacts, store`edges
    ensures store.Snapshot() == SupersessionSwept(old(store.Snapshot()), n, changed)
    ensures count == |PriorGeneration(old(store.Snapshot()), n, changed)|
    ensures count == |LeftRows(old(store.artifacts), store.artifacts, n)|
  {
    ghost var db := store.Snapshot();
    SweptAreTheLeft(db, PriorGeneration(db, n, changed), n);
    SweepNothing(db, n);
    if changed == {} {
      assert PriorGeneration(db, n, changed) == {};
      return 0;
    }
    var prior := set a | a in store.artifacts && store.artifacts[a].source in changed &&
                         store.artifacts[a].validFrom < n && store.artifacts[a].gone.None?;
    assert prior == PriorGeneration(db, n, changed);
    if prior == {} {
      return 0;
    }
    count := |prior|;
    store.artifacts := map a | a in store.artifacts ::
      if a in prior && store.artifacts[a].gone.None? then store.artifacts[a].(gone := Some(n)) else store.artifacts[a];
    store.edges := map e | e in store.edges :: SweptEdge(store.edges[e], prior, n);
  }

  function StaleOf(db: Db, s: SourceId): set<ArtifactId> {
    set a | a in db.artifacts && AclStale(db, {s}, a)
  }

  function StaleRows(db: Db, seen: set<SourceId>): set<ArtifactId> {
    set a | a in db.artifacts && AclStale(db, seen, a)
  }

  function StaleSources(db: Db, seen: set<SourceId>): set<SourceId> {
    set s | s in seen && StaleOf(db, s) != {}
  }

  /** One UPDATE for one seen source. */
  method PropagateOne(store: Store, s: SourceId) returns (updated: nat)
    requires s in store.sources
    modifies store`artifacts
    ensures store.Snapshot() == AclPropagated(old(store.Snapshot()), {s})
    ensures updated == |StaleOf(old(store.Snapshot()), s)|
  {
    ghost var db := store.Snapshot();
    var acl := store.sources[s].acl;
    var stale := set a | a in store.artifacts && store.artifacts[a].source == s &&
                         store.artifacts[a].gone.None? && store.artifacts[a].acl != acl;
    assert stale == StaleOf(db, s);
    updated := |stale|;
    store.artifacts := map a | a in store.artifacts ::
      if a in stale then store.artifacts[a].(acl := acl) else store.artifacts[a];
  }

  /** The rows whose access list is another one. */
  function Relisted(before: map<ArtifactId, Artifact>, after: map<ArtifactId, Artifact>): set<ArtifactId> {
    set a | a in before && a in after && after[a].acl != before[a].acl
  }

  function SourcesOf(rows: map<ArtifactId, Artifact>, ids: set<ArtifactId>): set<SourceId> {
    set a | a in ids && a in rows :: rows[a].source
  }

  /** What the step means for a row: its source's list, if it is live and its source was
      listed; otherwise the list it had. */
  predicate Listed(sources: map<SourceId, Source>, seen: set<SourceId>, r: Artifact, r': Artifact) {
    r' == r.(acl := if r.gone.None? && r.source in seen && r.source in sources then sources[r.source].acl else r.acl)
  }

  lemma AclsAreListed(db: Db, seen: set<SourceId>)
    ensures var d := AclPropagated(db, seen);
      && d.artifacts.Keys == db.artifacts.Keys
      && (forall a :: a in db.artifacts ==> Listed(db.sources, seen, db.artifacts[a], d.artifacts[a]))
      && StaleRows(db, seen) == Relisted(db.artifacts, d.artifacts)
  {}

  lemma StaleSourcesAre(db: Db, seen: set<SourceId>)
    ensures StaleSources(db, seen) == SourcesOf(db.artifacts, StaleRows(db, seen))
  {
    forall s | s in StaleSources(db, seen) ensures s in SourcesOf(db.artifacts, StaleRows(db, seen)) {
      var a :| a in StaleOf(db, s);
      assert a in StaleRows(db, seen);
    }
    forall a | a in StaleRows(db, seen) ensures db.artifacts[a].source in StaleSources(db, seen) {
      assert a in StaleOf(db, db.artifacts[a].source);
    }
  }

  /** Seen sources one after the other: each overwrites the ACL of its own live rows.  Counted
      are the rows whose list changed, and the sources of these rows. */
  method PropagateAcl(store: Store, seen: set<SourceId>) returns (sources: nat, updated: nat)
    modifies store`artifacts
    ensures store.Snapshot() == AclPropagated(old(store.Snapshot()), seen)
    ensures store.artifacts.Keys == old(store.artifacts).Keys
    ensures forall a :: a in store.artifacts ==> Listed(store.sources, seen, old(store.artifacts)[a], store.artifacts[a])
    ensures updated == |Relisted(old(store.artifacts), store.artifacts)|
    ensures sources == |SourcesOf(old(store.artifacts), Relisted(old(store.artifacts), store.artifacts))|
  {
    ghost var db := store.Snapshot();
    AclsAreListed(db, seen);
    StaleSourcesAre(db, seen);
    sources, updated := 0, 0;
    var done: set<SourceId> := {};
    var todo := seen;
    AclNothing(db);
    hide AclPropagated, StaleRows, StaleSources, StaleOf, Listed, Relisted, SourcesOf;
    while todo != {}
      invariant done + todo == seen && done !! todo
      invariant store.Snapshot() == AclPropagated(db, done)
      invariant sources == |StaleSources(db, done)|
      invariant updated == |StaleRows(db, done)|
      decreases todo
    {
      var s :| s in todo;
      todo := todo - {s};
      AclOneMore(db, done, s);
      StaleApart(db, done, s);
      StaleSourcesApart(db, done, s);
      if s in store.sources {
        var more := PropagateOne(store, s);
        if more != 0 { sources := sources + 1; }
        updated := updated + more;
      }
      done := done + {s};
    }
    assert done == seen;
  }

  lemma AclNothing(db: Db)
    ensures AclPropagated(db, {}) == db && StaleSources(db, {}) == {} && StaleRows(db, {}) == {}
  {
    assert forall a | a in db.artifacts :: AclPropagated(db, {}).artifacts[a] == db.artifacts[a];
  }

  lemma StaleApart(db: Db, done: set<SourceId>, s: SourceId)
    requires s !in done
    ensures s !in db.sources ==> StaleOf(db, s) == {}
    ensures StaleOf(AclPropagated(db, done), s) == StaleOf(db, s)
    ensures |StaleRows(db, done + {s})| == |StaleRows(db, done)| + |StaleOf(db, s)|
  {
    assert StaleRows(db, done + {s}) == StaleRows(db, done) + StaleOf(db, s);
    assert StaleRows(db, done) !! StaleOf(db, s);
  }

  lemma StaleSourcesApart(db: Db, done: set<SourceId>, s: SourceId)
    requires s !in done
    ensures |StaleSources(db, done + {s})| == |StaleSources(db, done)| + (if |StaleOf(db, s)| != 0 then 1 else 0)
  {
    hide StaleOf;
    assert StaleSources(db, done + {s}) == StaleSources(db, done) + (if StaleOf(db, s) != {} then {s} else {});
    assert s !in StaleSources(db, done);
  }

  lemma AclRowOneMore(sources: map<SourceId, Source>, done: set<SourceId>, s: SourceId, row: Artifact)
    ensures AclRow(sources, done + {s}, row) ==
            if s in sources then AclRow(sources, {s}, AclRow(sources, done, row)) else AclRow(sources, done, row)
  {}

  lemma AclOneMore(db: Db, done: set<SourceId>, s: SourceId)
    ensures AclPropagated(db, done).sources == db.sources
    ensures AclPropagated(db, done + {s}) ==
            if s in db.sources then AclPropagated(AclPropagated(db, done), {s}) else AclPropagated(db, done)
  {
    var d := AclPropagated(db, done);
    var d' := if s in db.sources then AclPropagated(d, {s}) else d;
    hide AclRow;
    forall a | a in db.artifacts ensures AclPropagated(db, done + {s}).artifacts[a] == d'.artifacts[a] {
      AclRowOneMore(db.sources, done, s, db.artifacts[a]);
    }
  }

  /** The whole pass.  It raises (no result) exactly when its renames put two rows on one
      key.  Otherwise the three retirement counts it reports add up to the drop in live
      artifacts, and the rows it skips are exactly the concurrent ones. */
  method RunInvalidationPass(store: Store, n: int, i: PassInput) returns (result: Option<InvalidationResult>)
    requires PassOrders(store.Snapshot(), n, i)
    requires UniqueLinks(store.edges) && LeftOffFresh(store.Snapshot(), n)
    modifies store
    ensures result.None? <==> PassClashes(old(store.Snapshot()), n, i)
    ensures result.Some? ==> store.Snapshot() == InvalidationPass(old(store.Snapshot()), n, i)
    ensures result.Some? ==> Frozen(old(store.Snapshot()), store.Snapshot(), n) && UniqueLinks(store.edges)
    ensures result.Some? ==>
      result.value.renames + result.value.artifactsInvalidated + result.value.superseded ==
      |LiveArtifacts(old(store.Snapshot()))| - |LiveArtifacts(store.Snapshot())|
    ensures result.Some? ==> result.value.renames == |PassRenames(old(store.Snapshot()), n, i)|
    ensures result.Some? ==> result.value.reattached == MovedEnds(old(store.edges), store.edges)
    ensures result.Some? ==>
      result.value.concurrentSkipped == |ConcurrentlyRecorded(old(store.Snapshot()), i.seen, i.startedAt)|
    ensures result.Some? ==>
      var db := old(store.Snapshot());
      && result.value.sourcesDeleted == |set s | s in db.sources && Vanishes(db, i, s) && !SourceRenamed(db, n, i, s)|
      && result.value.artifactsInvalidated == |set a | a in db.artifacts && Deleted(db, n, i, a)|
      && result.value.superseded ==
         |set a | a in db.artifacts && Superseded(db, n, i, a) && !Deleted(db, n, i, a) && !IsRenamed(db, n, i, a)|
    ensures result.Some? ==> store.artifacts.Keys == old(store.artifacts).Keys && store.sources.Keys == old(store.sources).Keys
    ensures result.Some? ==> forall a :: a in store.artifacts ==>
      var r := store.artifacts[a];
      r.acl == if r.gone.None? && r.source in i.seen && r.source in store.sources then store.sources[r.source].acl else old(store.artifacts)[a].acl
    ensures result.Some? ==>
      result.value.aclArtifacts == |Relisted(old(store.artifacts), store.artifacts)| &&
      result.value.aclSources == |SourcesOf(old(store.artifacts), Relisted(old(store.artifacts), store.artifacts))|
  {
    ghost var db := store.Snapshot();
    PassRaisesIff(db, n, i);
    if !PassClashes(db, n, i) {
      WhatThePassDoes(db, n, i);
      WhatItLists(db, n, i);
      WhatItCounts(db, n, i);
      WhatItMoves(db, n, i);
    }
    hide PassClashes, PassOrders, UniqueLinks, LeftOffFresh, DeletionSwept, SupersessionSwept, AclPropagated, ApplyRenames, Renames, RenamedSources, Frozen, LiveOf,
         PriorGeneration, LiveArtifacts, Relisted, SourcesOf, Listed, Vanishes, Deleted, Superseded, IsRenamed, SourceRenamed, LeftRows, LeftEdges, MovedEnds;
    var vanished, skipped := VanishedLiveSources(store, i.seen, i.startedAt);
    var raised, renames, reattached, renamed := DetectRenames(store, n, vanished, i.oldOrder, i.newOrder);
    if raised { return None; }
    var sourcesDeleted, artifacts, edges := DeletionSweep(store, n, vanished - renamed);
    var superseded := SupersessionSweep(store, n, i.changed);
    var aclSources, aclArtifacts := PropagateAcl(store, i.seen);
    result := Some(InvalidationResult(renames, reattached, sourcesDeleted, artifacts, edges, superseded,
                                      aclSources, aclArtifacts, skipped));
  }

  lemma WhatItCounts(db: Db, n: int, i: PassInput)
    requires LegalInput(db, n, i)
    ensures DeletedSources(db, n, i) == set s | s in db.sources && Vanishes(db, i, s) && !SourceRenamed(db, n, i, s)
    ensures DeletedArtifacts(db, n, i) == set a | a in db.artifacts && Deleted(db, n, i, a)
    ensures EffectOf(db, n, i).superseded ==
            set a | a in db.artifacts && Superseded(db, n, i, a) && !Deleted(db, n, i, a) && !IsRenamed(db, n, i, a)
  {
    hide *;
    forall s { DeletedSourceIff(db, n, i, s); }
    forall a { DeletedIff(db, n, i, a); }
    forall a { SupersededIff(db, n, i, a); }
    forall a ensures Deleted(db, n, i, a) ==> a in db.artifacts { DeletedExists(db, n, i, a); }
  }

  /** The sweeps move no end. */
  lemma WhatItMoves(db: Db, n: int, i: PassInput)
    requires LegalInput(db, n, i)
    ensures MovedEnds(db.edges, AfterRenames(db, n, i).edges) == MovedEnds(db.edges, InvalidationPass(db, n, i).edges)
  {
    RenameStage(db, n, i);
    PassEdges(db, n, i);
    EffectRho(db, n, i);
    hide *;
    EndsStay(db, n, EffectOf(db, n, i), AfterRenames(db, n, i), InvalidationPass(db, n, i));
    SameEnds(db.edges, AfterRenames(db, n, i).edges, InvalidationPass(db, n, i).edges);
  }

  lemma EffectRho(db: Db, n: int, i: PassInput)
    requires LegalInput(db, n, i)
    ensures EffectOf(db, n, i).rho == Rho(PassRenames(db, n, i))
  {
    hide PassRenames, Rho, LegalInput, DeletedArtifacts, Vanished;
  }

  lemma EndsStay(db: Db, n: int, x: Effect, d1: Db, d: Db)
    requires d1.edges == (map e | e in db.edges :: RenamedEdge(db.edges[e], x.rho, n)) && EdgesApplied(db, n, x, d)
    ensures d1.edges.Keys == d.edges.Keys && forall e :: e in d1.edges ==> d.edges[e].from == d1.edges[e].from && d.edges[e].to == d1.edges[e].to
  {
    hide RenamedEdge;
  }

  lemma SameEnds(a: map<EdgeId, Edge>, b: map<EdgeId, Edge>, c: map<EdgeId, Edge>)
    requires b.Keys == c.Keys && forall e :: e in b ==> c[e].from == b[e].from && c[e].to == b[e].to
    ensures MovedEnds(a, b) == MovedEnds(a, c)
  {
    assert FromMoved(a, b) == FromMoved(a, c) && ToMoved(a, b) == ToMoved(a, c);
    Ends(a, b);
    Ends(a, c);
  }

  lemma DeletedExists(db: Db, n: int, i: PassInput, a: ArtifactId)
    ensures Deleted(db, n, i, a) ==> a in db.artifacts
  {}

  lemma DeletedSourceIff(db: Db, n: int, i: PassInput, s: SourceId)
    ensures s in DeletedSources(db, n, i) <==> s in db.sources && Vanishes(db, i, s) && !SourceRenamed(db, n, i, s)
  {
    VanishesIff(db, i, s);
    RenamedSourceIff(db, n, i, s);
    hide Vanished, RenamedSources, PassRenames, SourceRenamed;
  }

  lemma SupersededIff(db: Db, n: int, i: PassInput, a: ArtifactId)
    requires LegalInput(db, n, i)
    ensures a in EffectOf(db, n, i).superseded <==>
      a in db.artifacts && Superseded(db, n, i, a) && !Deleted(db, n, i, a) && !IsRenamed(db, n, i, a)
  {
    var ps := PassRenames(db, n, i);
    assert EffectOf(db, n, i).superseded == PriorGeneration(db, n, i.changed) - Olds(ps) - DeletedArtifacts(db, n, i);
    OldsIff(ps, a);
    DeletedIff(db, n, i, a);
    hide PassRenames, Deleted, DeletedArtifacts, LegalInput, EffectOf, Olds;
    if b :| Rename(a, b) in ps { assert RenamedAs(db, n, i, a, b); }
  }

  /** The access lists, seen over the whole pass. */
  lemma WhatItLists(db: Db, n: int, i: PassInput)
    requires LegalInput(db, n, i)
    ensures var c, d := AfterSupersession(db, n, i), InvalidationPass(db, n, i);
      && d.artifacts.Keys == db.artifacts.Keys && d.sources.Keys == db.sources.Keys
      && (forall a :: a in d.artifacts ==>
            var r := d.artifacts[a];
            r.acl == if r.gone.None? && r.source in i.seen && r.source in d.sources then d.sources[r.source].acl else db.artifacts[a].acl)
      && Relisted(c.artifacts, d.artifacts) == Relisted(db.artifacts, d.artifacts)
      && SourcesOf(c.artifacts, Relisted(c.artifacts, d.artifacts)) == SourcesOf(db.artifacts, Relisted(db.artifacts, d.artifacts))
  {
    hide *;
    PassKeys(db, n, i);
    forall a | a in db.artifacts { RowFate(db, n, i, a); }
    forall s { SourceFate(db, n, i, s); }
    forall a | a in db.artifacts { MiddleRow(db, n, i, a); }
    SameRelisted(db.artifacts, AfterSupersession(db, n, i).artifacts, InvalidationPass(db, n, i).artifacts);
  }

  lemma PassKeys(db: Db, n: int, i: PassInput)
    requires LegalInput(db, n, i)
    ensures InvalidationPass(db, n, i).artifacts.Keys == db.artifacts.Keys
    ensures AfterSupersession(db, n, i).artifacts.Keys == db.artifacts.Keys
  {
    PassArtifacts(db, n, i);
    hide AfterSupersession, LegalInput;
  }

  /** Up to the ACL step no list and no source changes. */
  lemma MiddleRow(db: Db, n: int, i: PassInput, a: ArtifactId)
    requires LegalInput(db, n, i) && a in db.artifacts
    ensures a in AfterSupersession(db, n, i).artifacts && a in InvalidationPass(db, n, i).artifacts
    ensures var r, r' := db.artifacts[a], AfterSupersession(db, n, i).artifacts[a]; r'.acl == r.acl && r'.source == r.source
  {
    hide *;
    BeforeAcl(db, n, i, a);
    AclsLast(db, n, i, a);
    RowFate(db, n, i, a);
  }

  lemma SameRelisted(a: map<ArtifactId, Artifact>, c: map<ArtifactId, Artifact>, d: map<ArtifactId, Artifact>)
    requires a.Keys == c.Keys == d.Keys && forall x :: x in a ==> c[x].acl == a[x].acl && c[x].source == a[x].source
    ensures Relisted(c, d) == Relisted(a, d) && SourcesOf(c, Relisted(c, d)) == SourcesOf(a, Relisted(a, d))
  {
    assert Relisted(c, d) == Relisted(a, d);
    hide Relisted;
    forall x | x in Relisted(a, d) ensures x in a && x in c ==> c[x].source == a[x].source {}
  }

  lemma PassRaisesIff(db: Db, n: int, i: PassInput)
    requires PassOrders(db, n, i) && UniqueLinks(db.edges) && LeftOffFresh(db, n)
    ensures RowOrders(db, n, Vanished(db, i.seen, i.startedAt), i.oldOrder, i.newOrder)
    ensures PassRenames(db, n, i) == Renames(db, n, Vanished(db, i.seen, i.startedAt), i.oldOrder, i.newOrder)
    ensures RenamesRaise(db, PassRenames(db, n, i), n) <==> PassClashes(db, n, i)
  {
    RenamesAreValid(db, n, Vanished(db, i.seen, i.startedAt), i.oldOrder, i.newOrder);
    RenamesRaiseIff(db, n, Vanished(db, i.seen, i.startedAt), PassRenames(db, n, i));
  }

  lemma WhatThePassDoes(db: Db, n: int, i: PassInput)
    requires LegalInput(db, n, i) && UniqueLinks(db.edges)
    ensures Frozen(db, InvalidationPass(db, n, i), n) && UniqueLinks(InvalidationPass(db, n, i).edges)
    ensures LiveOf(AfterRenames(db, n, i), DeletedSources(db, n, i)) == DeletedArtifacts(db, n, i)
    ensures PriorGeneration(AfterDeletion(db, n, i), n, i.changed) == EffectOf(db, n, i).superseded
    ensures |LiveArtifacts(db)| - |LiveArtifacts(InvalidationPass(db, n, i))| ==
      |PassRenames(db, n, i)| + |DeletedArtifacts(db, n, i)| + |EffectOf(db, n, i).superseded|
  {
    PassFreezesPast(db, n, i);
    PassConserves(db, n, i);
    PassStages(db, n, i);
    PassKeepsKeysIff(db, n, i);
  }

  /** What each sweep finds in the tables as the previous one left them. */
  lemma PassStages(db: Db, n: int, i: PassInput)
    requires LegalInput(db, n, i)
    ensures LiveOf(AfterRenames(db, n, i), DeletedSources(db, n, i)) == DeletedArtifacts(db, n, i)
    ensures PriorGeneration(AfterDeletion(db, n, i), n, i.changed) == EffectOf(db, n, i).superseded
  {
    RenameStage(db, n, i);
    var olds, deleted := Olds(PassRenames(db, n, i)), DeletedArtifacts(db, n, i);
    DeletionStage(db, AfterRenames(db, n, i), n, DeletedSources(db, n, i), olds);
    hide RowAfter, AfterRenames, DeletionSwept, PriorGeneration, LiveOf, LegalInput, PassRenames;
    SupersessionStage(db, AfterDeletion(db, n, i), n, i.changed, olds + deleted);
    assert PriorGeneration(db, n, i.changed) - (olds + deleted) == PriorGeneration(db, n, i.changed) - olds - deleted;
  }
}
