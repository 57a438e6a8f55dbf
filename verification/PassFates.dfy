/** The invalidation pass, row by row: what becomes of every source, artifact, edge and
    cache mapping, said on the tables before and after it. */
module PassFates {
  import opened Prelude
  import opened Registry
  import opened Invalidation
  import opened PassProperties

  /** Live, not listed by this build, and last recorded before it started. */
  predicate Vanishes(db: Db, i: PassInput, s: SourceId) {
    s in db.sources && !db.sources[s].isDeleted && s !in i.seen &&
    match db.sources[s].lastSeenAt
    case Some(t) => t < i.startedAt
    case None => db.sources[s].createdAt < i.startedAt
  }

  predicate RenamedAs(db: Db, n: int, i: PassInput, a: ArtifactId, b: ArtifactId) {
    Rename(a, b) in PassRenames(db, n, i)
  }

  /** Some artifact of the source was renamed. */
  ghost predicate SourceRenamed(db: Db, n: int, i: PassInput, s: SourceId) {
    exists a, b :: RenamedAs(db, n, i, a, b) && a in db.artifacts && db.artifacts[a].source == s
  }

  ghost predicate IsRenamed(db: Db, n: int, i: PassInput, a: ArtifactId) {
    exists b :: RenamedAs(db, n, i, a, b)
  }

  /** Taken by the deletion sweep. */
  ghost predicate Deleted(db: Db, n: int, i: PassInput, a: ArtifactId) {
    a in db.artifacts && db.artifacts[a].gone.None? && Vanishes(db, i, db.artifacts[a].source) &&
    !SourceRenamed(db, n, i, db.artifacts[a].source)
  }

  /** Taken by the supersession sweep: an earlier generation of a changed source. */
  ghost predicate Superseded(db: Db, n: int, i: PassInput, a: ArtifactId) {
    a in db.artifacts && db.artifacts[a].gone.None? && db.artifacts[a].source in i.changed && db.artifacts[a].validFrom < n
  }

  lemma VanishesIff(db: Db, i: PassInput, s: SourceId)
    ensures Vanishes(db, i, s) <==> s in Vanished(db, i.seen, i.startedAt)
  {}

  /** Exactly the vanished sources are marked deleted, and nothing else of a source changes. */
  lemma SourceFate(db: Db, n: int, i: PassInput, s: SourceId)
    requires LegalInput(db, n, i)
    ensures var d := InvalidationPass(db, n, i);
      && (s in d.sources <==> s in db.sources)
      && (s in db.sources ==> d.sources[s] == if Vanishes(db, i, s) then db.sources[s].(isDeleted := true) else db.sources[s])
  {
    PassSources(db, n, i);
    VanishesIff(db, i, s);
    hide LegalInput, InvalidationPass, Vanishes, Vanished;
  }

  // ------------------------------------------------------- renames

  /** The rows the two SELECTs return. */
  lemma OrdersAre(db: Db, n: int, i: PassInput, a: ArtifactId)
    requires PassOrders(db, n, i)
    ensures a in i.oldOrder <==>
      a in db.artifacts && db.artifacts[a].gone.None? && db.artifacts[a].body.Some? && Vanishes(db, i, db.artifacts[a].source)
    ensures a in i.newOrder <==>
      a in db.artifacts && db.artifacts[a].validFrom == n && db.artifacts[a].body.Some? && !Vanishes(db, i, db.artifacts[a].source) &&
      exists o :: o in i.oldOrder && o in db.artifacts && db.artifacts[o].body == db.artifacts[a].body
  {
    var v := Vanished(db, i.seen, i.startedAt);
    if a in db.artifacts { VanishesIff(db, i, db.artifacts[a].source); }
    assert a in i.oldOrder <==> a in OldRows(db, v);
    assert a in i.newOrder <==> a in NewRows(db, n, OldByBody(db, i.oldOrder).Keys, v);
    hide Vanished, Vanishes, RowOrders;
  }

  /** No earlier row of the order has this row's content. */
  predicate FirstWith(db: Db, order: seq<ArtifactId>, j: int, b: Option<Body>) {
    0 <= j < |order| && order[j] in db.artifacts && db.artifacts[order[j]].body == b && b.Some? &&
    forall k :: 0 <= k < j && order[k] in db.artifacts ==> db.artifacts[order[k]].body != b
  }

  lemma {:induction false} OldByBodyIs(db: Db, order: seq<ArtifactId>, b: Body)
    ensures b in OldByBody(db, order) <==> exists j :: FirstWith(db, order, j, Some(b))
    ensures forall j :: FirstWith(db, order, j, Some(b)) ==> b in OldByBody(db, order) && OldByBody(db, order)[b] == order[j]
  {
    if order != [] {
      var rest, m := order[..|order| - 1], |order| - 1;
      assert order == rest + [order[m]];
      OldByBodyIs(db, rest, b);
      FirstGrows(db, order, b);
      hide FirstWith;
      if BodyOf(db, order[m]) == Some(b) && b !in OldByBody(db, rest) { assert FirstWith(db, order, m, Some(b)); }
      if j :| FirstWith(db, rest, j, Some(b)) { assert FirstWith(db, order, j, Some(b)); }
    }
  }

  lemma FirstGrows(db: Db, order: seq<ArtifactId>, b: Body)
    requires order != []
    ensures var rest, m := order[..|order| - 1], |order| - 1;
      && (forall j :: FirstWith(db, rest, j, Some(b)) ==> FirstWith(db, order, j, Some(b)))
      && (forall j :: FirstWith(db, order, j, Some(b)) ==>
            FirstWith(db, rest, j, Some(b)) || (j == m && BodyOf(db, order[m]) == Some(b) && forall k :: !FirstWith(db, rest, k, Some(b))))
      && (BodyOf(db, order[m]) == Some(b) && (forall k :: !FirstWith(db, rest, k, Some(b))) ==> FirstWith(db, order, m, Some(b)))
  {
    var rest, m := order[..|order| - 1], |order| - 1;
    if BodyOf(db, order[m]) == Some(b) && forall k :: !FirstWith(db, rest, k, Some(b)) {
      NoFirstNone(db, rest, b);
    }
  }

  lemma {:induction false} NoFirstNone(db: Db, order: seq<ArtifactId>, b: Body)
    requires forall k :: !FirstWith(db, order, k, Some(b))
    ensures forall k :: 0 <= k < |order| && order[k] in db.artifacts ==> db.artifacts[order[k]].body != Some(b)
  {
    if order != [] {
      var rest := order[..|order| - 1];
      forall k ensures !FirstWith(db, rest, k, Some(b)) {
        if FirstWith(db, rest, k, Some(b)) { assert FirstWith(db, order, k, Some(b)); }
      }
      NoFirstNone(db, rest, b);
      assert !FirstWith(db, order, |order| - 1, Some(b));
    }
  }

  predicate MatchAt(db: Db, byBody: map<Body, ArtifactId>, order: seq<ArtifactId>, p: Rename, k: int) {
    0 <= k < |order| && order[k] == p.now && FirstWith(db, order, k, BodyOf(db, p.now)) &&
    BodyOf(db, p.now).value in byBody && byBody[BodyOf(db, p.now).value] == p.was
  }

  lemma {:induction false} MatchedIff(db: Db, byBody: map<Body, ArtifactId>, order: seq<ArtifactId>, p: Rename)
    requires forall b :: b in byBody ==> BodyOf(db, byBody[b]) == Some(b)
    ensures p in MatchRenames(db, byBody, order) <==> exists k :: MatchAt(db, byBody, order, p, k)
  {
    if order != [] {
      var rest, m := order[..|order| - 1], |order| - 1;
      MatchedIff(db, byBody, rest, p);
      MatchGrows(db, byBody, order, p);
      LastMatches(db, byBody, order);
      hide MatchAt, MatchedBodies, BodyOf;
      if k :| MatchAt(db, byBody, rest, p, k) { assert MatchAt(db, byBody, order, p, k); }
      if MatchAt(db, byBody, order, p, m) { assert p.now == order[m] by { MatchIs(db, byBody, order, p, m); } }
    }
  }

  lemma MatchIs(db: Db, byBody: map<Body, ArtifactId>, order: seq<ArtifactId>, p: Rename, k: int)
    requires MatchAt(db, byBody, order, p, k)
    ensures 0 <= k < |order| && p.now == order[k]
  {}

  lemma MatchGrows(db: Db, byBody: map<Body, ArtifactId>, order: seq<ArtifactId>, p: Rename)
    requires order != []
    ensures var rest, m := order[..|order| - 1], |order| - 1;
      forall k :: MatchAt(db, byBody, order, p, k) <==> MatchAt(db, byBody, rest, p, k) || (k == m && MatchAt(db, byBody, order, p, m))
  {
    hide BodyOf;
    var rest, b := order[..|order| - 1], BodyOf(db, p.now);
    forall k | 0 <= k < |rest| ensures FirstWith(db, order, k, b) <==> FirstWith(db, rest, k, b) {}
  }

  /** The last row is matched exactly when no row before it has its content. */
  lemma LastMatches(db: Db, byBody: map<Body, ArtifactId>, order: seq<ArtifactId>)
    requires order != [] && forall b :: b in byBody ==> BodyOf(db, byBody[b]) == Some(b)
    ensures var rest, m := order[..|order| - 1], |order| - 1;
      var ps0, ps := MatchRenames(db, byBody, rest), MatchRenames(db, byBody, order);
      if exists q :: MatchAt(db, byBody, order, q, m)
      then exists q :: MatchAt(db, byBody, order, q, m) && ps == ps0 + [q]
      else ps == ps0
  {
    var rest, m := order[..|order| - 1], |order| - 1;
    var ps0, b := MatchRenames(db, byBody, rest), BodyOf(db, order[m]);
    MatchedRowsExist(db, byBody, rest);
    if b.Some? && b.value in byBody {
      var q := Rename(byBody[b.value], order[m]);
      if b.value in MatchedBodies(db, ps0) {
        var p :| p in ps0 && BodyOf(db, p.now) == b;
        assert MatchedRow(db, byBody, rest, p);
        var k :| 0 <= k < |rest| && rest[k] == p.now;
        assert order[k] == p.now && order[k] in db.artifacts;
        forall q ensures !MatchAt(db, byBody, order, q, m) {}
      } else {
        forall k | 0 <= k < m && order[k] in db.artifacts ensures db.artifacts[order[k]].body != b {
          assert rest[k] in rest;
        }
        assert FirstWith(db, order, m, b);
        assert MatchAt(db, byBody, order, q, m);
      }
    } else {
      forall q ensures !MatchAt(db, byBody, order, q, m) {}
    }
  }

  /** Both ends of a rename hold the same content, each the first to in its order. */
  predicate SharesContent(db: Db, i: PassInput, a: ArtifactId, b: ArtifactId, j: int, k: int) {
    && FirstWith(db, i.oldOrder, j, BodyOf(db, b)) && i.oldOrder[j] == a
    && FirstWith(db, i.newOrder, k, BodyOf(db, b)) && i.newOrder[k] == b
  }

  /** A pass renames `a` to `b` exactly when they are the first rows of the two SELECTs that
      hold their content. */
  lemma RenamedIff(db: Db, n: int, i: PassInput, a: ArtifactId, b: ArtifactId)
    ensures RenamedAs(db, n, i, a, b) <==> exists j, k :: SharesContent(db, i, a, b, j, k)
  {
    var byBody, p := OldByBody(db, i.oldOrder), Rename(a, b);
    MatchedIff(db, byBody, i.newOrder, p);
    var body := BodyOf(db, b);
    if body.Some? { OldByBodyIs(db, i.oldOrder, body.value); }
    hide BodyOf, MatchRenames, OldByBody;
    if k :| MatchAt(db, byBody, i.newOrder, p, k) {
      var j :| FirstWith(db, i.oldOrder, j, body);
      assert SharesContent(db, i, a, b, j, k);
    }
    if j, k :| SharesContent(db, i, a, b, j, k) {
      assert MatchAt(db, byBody, i.newOrder, p, k);
    }
  }

  // ------------------------------------------------------- artifacts

  lemma RetiredIff(db: Db, n: int, i: PassInput, a: ArtifactId)
    requires LegalInput(db, n, i)
    ensures a in EffectOf(db, n, i).Retired() <==> IsRenamed(db, n, i, a) || Deleted(db, n, i, a) || Superseded(db, n, i, a)
  {
    OldsIff(PassRenames(db, n, i), a);
    DeletedIff(db, n, i, a);
    hide LegalInput, PassRenames, Rho, Vanished, Deleted, DeletedArtifacts, Olds;
    if b :| Rename(a, b) in PassRenames(db, n, i) { assert RenamedAs(db, n, i, a, b); }
  }

  lemma OldsIff(ps: seq<Rename>, a: ArtifactId)
    ensures a in Olds(ps) <==> exists b :: Rename(a, b) in ps
  {
    if a in Olds(ps) {
      var p :| p in ps && p.was == a;
      assert p == Rename(a, p.now);
    }
  }

  lemma DeletedIff(db: Db, n: int, i: PassInput, a: ArtifactId)
    requires LegalInput(db, n, i)
    ensures a in DeletedArtifacts(db, n, i) <==> Deleted(db, n, i, a)
  {
    if a in db.artifacts {
      var s := db.artifacts[a].source;
      VanishesIff(db, i, s);
      RenamedSourceIff(db, n, i, s);
      hide LegalInput, PassRenames, Vanished, Vanishes, RenamedSources, SourceRenamed;
    }
  }

  lemma RenamedSourceIff(db: Db, n: int, i: PassInput, s: SourceId)
    ensures s in RenamedSources(db, PassRenames(db, n, i)) <==> SourceRenamed(db, n, i, s)
  {
    var ps := PassRenames(db, n, i);
    hide PassRenames;
    if s in RenamedSources(db, ps) {
      var p :| p in ps && p.was in db.artifacts && db.artifacts[p.was].source == s;
      assert p == Rename(p.was, p.now) && RenamedAs(db, n, i, p.was, p.now);
    }
  }

  /** Renames give the new identities their history, and leave the ACLs alone. */
  lemma {:induction false} RenamedHistory(db: Db, ps: seq<Rename>, n: int, a: ArtifactId)
    requires DistinctRenames(ps) && a in db.artifacts && forall p :: p in ps ==> p.was in db.artifacts
    ensures var r := ApplyRenames(db, ps, n).artifacts[a];
      && r.acl == db.artifacts[a].acl
      && (forall o :: Rename(o, a) in ps ==> r.prior == Some(o))
      && ((forall o :: Rename(o, a) !in ps) ==> r.prior == db.artifacts[a].prior)
  {
    if ps != [] {
      var rest, last := ps[..|ps| - 1], ps[|ps| - 1];
      SplitLast(ps);
      assert ps == rest + [last];
      RenamedHistory(db, rest, n, a);
      var d := ApplyRenames(db, rest, n);
      hide ApplyRenames, DistinctRenames, Olds;
      assert RenameOne(d, last, n).artifacts[a] == RenamedRow(a, d.artifacts[a], last, n);
      assert last == Rename(last.was, last.now);
      forall o | Rename(o, a) in rest ensures a != last.now {
        var k :| 0 <= k < |rest| && rest[k] == Rename(o, a);
        assert ps[k].now == a;
      }
    }
  }

  /** The sweeps take rows out and change nothing else of them. */
  lemma SweepsKeep(db: Db, n: int, i: PassInput, a: ArtifactId)
    requires LegalInput(db, n, i) && a in db.artifacts
    ensures a in AfterRenames(db, n, i).artifacts && a in AfterSupersession(db, n, i).artifacts
    ensures var r, r' := AfterRenames(db, n, i).artifacts[a], AfterSupersession(db, n, i).artifacts[a]; r'.acl == r.acl && r'.prior == r.prior
  {
    hide ApplyRenames, LegalInput, PassRenames, LiveOf, PriorGeneration, DeletedSources;
    assert AfterRenames(db, n, i).artifacts.Keys == db.artifacts.Keys by { KeysStay(db, PassRenames(db, n, i), n); }
  }

  lemma KeysStay(db: Db, ps: seq<Rename>, n: int)
    ensures ApplyRenames(db, ps, n).artifacts.Keys == db.artifacts.Keys
  {}

  lemma AclsLast(db: Db, n: int, i: PassInput, a: ArtifactId)
    requires a in AfterSupersession(db, n, i).artifacts
    ensures var c, d := AfterSupersession(db, n, i), InvalidationPass(db, n, i);
      var r, r' := c.artifacts[a], d.artifacts[a];
      && r' == r.(acl := r'.acl) && d.sources == c.sources
      && r'.acl == if r.gone.None? && r.source in i.seen && r.source in c.sources then c.sources[r.source].acl else r.acl
  {
    hide AfterSupersession;
  }

  /** One artifact through the pass.  It leaves at this build exactly when it was renamed
      away, deleted with its source, or superseded; it is linked to the identity it
      replaces, if it replaces one; if it stays live and its source was listed, it has its
      source's access list; and nothing else of it changes. */
  lemma RowFate(db: Db, n: int, i: PassInput, a: ArtifactId)
    requires LegalInput(db, n, i) && a in db.artifacts
    ensures a in InvalidationPass(db, n, i).artifacts
    ensures var r, r' := db.artifacts[a], InvalidationPass(db, n, i).artifacts[a];
      && r' == r.(gone := r'.gone, prior := r'.prior, acl := r'.acl)
      && r'.gone == (if IsRenamed(db, n, i, a) || Deleted(db, n, i, a) || Superseded(db, n, i, a) then Some(n) else r.gone)
      && (forall o :: RenamedAs(db, n, i, o, a) ==> r'.prior == Some(o))
      && ((forall o :: !RenamedAs(db, n, i, o, a)) ==> r'.prior == r.prior)
      && r'.acl == if r'.gone.None? && r.source in i.seen && r.source in db.sources then db.sources[r.source].acl else r.acl
  {
    PassApplies(db, n, i);
    RetiredIff(db, n, i, a);
    hide *;
    AppliedTo(db, n, EffectOf(db, n, i), InvalidationPass(db, n, i), a);
    PassHistory(db, n, i, a);
  }

  lemma AppliedTo(db: Db, n: int, x: Effect, d: Db, a: ArtifactId)
    requires Applied(db, n, x, d) && a in db.artifacts
    ensures a in d.artifacts
    ensures var r, r' := db.artifacts[a], d.artifacts[a];
      r' == r.(gone := r'.gone, prior := r'.prior, acl := r'.acl) && r'.gone == if a in x.Retired() then Some(n) else r.gone
  {
    assert RowAfter(db.artifacts[a], d.artifacts[a], a in x.Retired(), n);
  }

  /** The history link and the access list. */
  lemma PassHistory(db: Db, n: int, i: PassInput, a: ArtifactId)
    requires LegalInput(db, n, i) && a in db.artifacts
    ensures a in InvalidationPass(db, n, i).artifacts
    ensures var r, r' := db.artifacts[a], InvalidationPass(db, n, i).artifacts[a];
      && (forall o :: RenamedAs(db, n, i, o, a) ==> r'.prior == Some(o))
      && ((forall o :: !RenamedAs(db, n, i, o, a)) ==> r'.prior == r.prior)
      && r'.acl == if r'.gone.None? && r.source in i.seen && r.source in db.sources then db.sources[r.source].acl else r.acl
  {
    hide *;
    PassApplies(db, n, i);
    AppliedTo(db, n, EffectOf(db, n, i), InvalidationPass(db, n, i), a);
    BeforeAcl(db, n, i, a);
    AclsLast(db, n, i, a);
    SourceFate(db, n, i, db.artifacts[a].source);
  }

  /** Up to the ACL step. */
  lemma BeforeAcl(db: Db, n: int, i: PassInput, a: ArtifactId)
    requires LegalInput(db, n, i) && a in db.artifacts
    ensures a in AfterSupersession(db, n, i).artifacts
    ensures var r, r' := db.artifacts[a], AfterSupersession(db, n, i).artifacts[a];
      && r'.acl == r.acl
      && (forall o :: RenamedAs(db, n, i, o, a) ==> r'.prior == Some(o))
      && ((forall o :: !RenamedAs(db, n, i, o, a)) ==> r'.prior == r.prior)
  {
    hide *;
    PassIsLegal(db, n, i);
    RenamesExist(db, n, Vanished(db, i.seen, i.startedAt), PassRenames(db, n, i));
    RenamedHistory(db, PassRenames(db, n, i), n, a);
    RenamesAre(db, n, i, a);
    SweepsKeep(db, n, i, a);
  }

  lemma RenamesAre(db: Db, n: int, i: PassInput, a: ArtifactId)
    ensures AfterRenames(db, n, i) == ApplyRenames(db, PassRenames(db, n, i), n)
    ensures forall o :: RenamedAs(db, n, i, o, a) <==> Rename(o, a) in PassRenames(db, n, i)
  {
    hide ApplyRenames, PassRenames;
  }

  lemma RenamesExist(db: Db, n: int, vanished: set<SourceId>, ps: seq<Rename>)
    requires ValidRenames(db, n, vanished, ps)
    ensures DistinctRenames(ps) && forall p :: p in ps ==> p.was in db.artifacts
  {
    forall p | p in ps ensures p.was in db.artifacts { assert ValidRename(db, n, vanished, p); }
  }

  // ------------------------------------------------------- edges

  /** Where an endpoint is after the renames. */
  ghost predicate NowAt(db: Db, n: int, i: PassInput, a: ArtifactId, b: ArtifactId) {
    RenamedAs(db, n, i, a, b) || (a == b && !IsRenamed(db, n, i, a))
  }

  /** The row left in this pass. */
  predicate Leaves(db: Db, d: Db, a: ArtifactId, n: int) {
    a in db.artifacts && db.artifacts[a].gone.None? && a in d.artifacts && d.artifacts[a].gone == Some(n)
  }

  lemma TargetIs(ps: seq<Rename>, a: ArtifactId, b: ArtifactId)
    requires DistinctRenames(ps)
    ensures Target(Rho(ps), a) == b <==> Rename(a, b) in ps || (a == b && forall c :: Rename(a, c) !in ps)
  {
    RhoValues(ps);
    OldsIff(ps, a);
    hide Rho, DistinctRenames, Olds;
    if a in Rho(ps) {
      var p :| p in ps && p.was == a && p.now == Rho(ps)[a];
      assert p == Rename(a, p.now);
      if Rename(a, b) in ps { assert Rho(ps)[Rename(a, b).was] == b; }
    }
  }

  lemma NowAtIs(db: Db, n: int, i: PassInput, a: ArtifactId, b: ArtifactId)
    requires LegalInput(db, n, i)
    ensures Target(EffectOf(db, n, i).rho, a) == b <==> NowAt(db, n, i, a, b)
    ensures a in EffectOf(db, n, i).rho <==> IsRenamed(db, n, i, a)
  {
    var ps := PassRenames(db, n, i);
    PassIsLegal(db, n, i);
    RenamesExist(db, n, Vanished(db, i.seen, i.startedAt), ps);
    TargetIs(ps, a, b);
    OldsIff(ps, a);
    assert EffectOf(db, n, i).rho == Rho(ps);
    hide LegalInput, PassRenames, Rho, Vanished, ValidRenames, DistinctRenames, Target, Olds, EffectOf;
    if c :| Rename(a, c) in ps { assert RenamedAs(db, n, i, a, c); }
  }

  lemma SweptIsLeaving(db: Db, n: int, i: PassInput, a: ArtifactId)
    requires LegalInput(db, n, i) && !IsRenamed(db, n, i, a)
    ensures a in EffectOf(db, n, i).Swept() <==> Leaves(db, InvalidationPass(db, n, i), a, n)
  {
    var x, d := EffectOf(db, n, i), InvalidationPass(db, n, i);
    PassApplies(db, n, i);
    NowAtIs(db, n, i, a, a);
    hide *;
    SweptLeaves(db, n, x, d, a);
  }

  lemma SweptLeaves(db: Db, n: int, x: Effect, d: Db, a: ArtifactId)
    requires Sound(db, n, x) && Applied(db, n, x, d) && a !in x.rho
    ensures a in x.Swept() <==> Leaves(db, d, a, n)
  {
    if a in db.artifacts { assert RowAfter(db.artifacts[a], d.artifacts[a], a in x.Retired(), n); }
  }

  /** One edge through the pass.  Gone, it stays as it was.  Live, its ends follow the
      renames; it leaves exactly when that would join a renamed artifact to itself, or when
      one of its ends leaves in the same pass. */
  lemma EdgeFate(db: Db, n: int, i: PassInput, e: EdgeId, f: ArtifactId, t: ArtifactId)
    requires LegalInput(db, n, i) && e in db.edges
    requires NowAt(db, n, i, db.edges[e].from, f) && NowAt(db, n, i, db.edges[e].to, t)
    ensures e in InvalidationPass(db, n, i).edges
    ensures var r, d := db.edges[e], InvalidationPass(db, n, i);
      var r', renamed := d.edges[e], IsRenamed(db, n, i, r.from) || IsRenamed(db, n, i, r.to);
      && r' == r.(from := r'.from, to := r'.to, gone := r'.gone)
      && (r.gone.Some? ==> r' == r)
      && (r.gone.None? && !(renamed && f == t) ==>
            r'.from == f && r'.to == t && r'.gone == if Leaves(db, d, f, n) || Leaves(db, d, t, n) then Some(n) else None)
      && (r.gone.None? && renamed && f == t ==> r'.gone == Some(n))
  {
    var x, r := EffectOf(db, n, i), db.edges[e];
    PassApplies(db, n, i);
    NowAtIs(db, n, i, r.from, f);
    NowAtIs(db, n, i, r.to, t);
    NowIsNotRenamed(db, n, i, r.from, f);
    NowIsNotRenamed(db, n, i, r.to, t);
    SweptIsLeaving(db, n, i, f);
    SweptIsLeaving(db, n, i, t);
    hide *;
    EdgeByParts(db, n, x, InvalidationPass(db, n, i), e, f, t);
  }

  /** The new identity is not itself renamed away. */
  lemma NowIsNotRenamed(db: Db, n: int, i: PassInput, a: ArtifactId, b: ArtifactId)
    requires LegalInput(db, n, i) && NowAt(db, n, i, a, b)
    ensures !IsRenamed(db, n, i, b)
  {
    PassApplies(db, n, i);
    NowAtIs(db, n, i, a, b);
    NowAtIs(db, n, i, b, b);
    hide *;
    TargetIsFresh(db, n, EffectOf(db, n, i), a, b);
  }

  lemma TargetIsFresh(db: Db, n: int, x: Effect, a: ArtifactId, b: ArtifactId)
    requires Sound(db, n, x) && Target(x.rho, a) == b
    ensures b !in x.rho
  {
    if a in x.rho { assert RenamedTo(db, n, x, a, b); }
  }

  lemma EdgeByParts(db: Db, n: int, x: Effect, d: Db, e: EdgeId, f: ArtifactId, t: ArtifactId)
    requires Applied(db, n, x, d) && e in db.edges
    requires Target(x.rho, db.edges[e].from) == f && Target(x.rho, db.edges[e].to) == t
    ensures e in d.edges
    ensures var r, r' := db.edges[e], d.edges[e];
      var renamed := r.from in x.rho || r.to in x.rho;
      && r' == r.(from := r'.from, to := r'.to, gone := r'.gone)
      && (r.gone.Some? ==> r' == r)
      && (r.gone.None? && !(renamed && f == t) ==>
            r'.from == f && r'.to == t && r'.gone == if f in x.Swept() || t in x.Swept() then Some(n) else None)
      && (r.gone.None? && renamed && f == t ==> r'.gone == Some(n))
  {}

  // ------------------------------------------------------- the cache

  /** The cache keeps its keys and loses exactly the mappings of deleted artifacts. */
  lemma MappingFate(db: Db, n: int, i: PassInput, key: string, a: ArtifactId)
    requires LegalInput(db, n, i)
    ensures var d := InvalidationPass(db, n, i);
      && (key in d.generation <==> key in db.generation)
      && (key in db.generation ==> (a in d.generation[key] <==> a in db.generation[key] && !Deleted(db, n, i, a)))
  {
    RenameStage(db, n, i);
    var olds, deleted := Olds(PassRenames(db, n, i)), DeletedArtifacts(db, n, i);
    DeletionStage(db, AfterRenames(db, n, i), n, DeletedSources(db, n, i), olds);
    DeletedIff(db, n, i, a);
    assert deleted == LiveOf(db, DeletedSources(db, n, i));
    hide RowAfter, AfterRenames, PassRenames, DeletedSources, LiveOf, LegalInput, Deleted, DeletedArtifacts, SweepArtifacts, AclRow, PriorGeneration;
    assert InvalidationPass(db, n, i).generation == AfterDeletion(db, n, i).generation;
  }
}
