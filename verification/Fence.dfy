/** Builders that write the same registry at once, at transaction granularity, and
    the time fence of the deletion sweep.

    The database clock stamps a row with the time its transaction began, and a row
    becomes visible when that transaction commits. */
module Fence {
  import opened Prelude
  import opened Registry
  import opened Invalidation

  /** `found`: what its deletion sweep selected, once it has, and how many recordings had
      been committed by then. */
  datatype Builder = Builder(startedAt: int, seen: set<SourceId>, tx: Option<int>, found: Option<Look>)

  datatype Look = Look(sources: set<SourceId>, logged: nat)

  /** A committed transaction that recorded sources, with the time it began. */
  datatype Recording = Recording(sources: set<SourceId>, began: int, writer: string)

  datatype World = World(clock: int, db: Db, builders: map<string, Builder>, log: seq<Recording>)

  /** The sweep selects first and marks what it selected later: others may commit between. */
  datatype Event =
    | Tick(elapsed: nat)
    | Start(b: string)
    | BeginTx(b: string)
    | CommitTx(b: string, rows: map<SourceId, Source>)
    | Select(b: string)
    | Sweep(b: string)

  predicate InTx(w: World, b: string) {
    b in w.builders && w.builders[b].tx.Some?
  }

  predicate Between(w: World, b: string) {
    b in w.builders && w.builders[b].tx.None? && w.builders[b].found.None?
  }

  /** The rows a transaction writes carry its own begin time. */
  ghost predicate Possible(w: World, e: Event) {
    match e
    case Tick(_) => true
    case Start(b) => b !in w.builders
    case BeginTx(b) => Between(w, b)
    case CommitTx(b, rows) => InTx(w, b) && forall s :: s in rows ==> rows[s].lastSeenAt == w.builders[b].tx
    case Select(b) => Between(w, b)
    case Sweep(b) => b in w.builders && w.builders[b].found.Some?
  }

  /** What a builder would select now. */
  function Sweepable(w: World, b: string): set<SourceId>
    requires b in w.builders
  {
    Vanished(w.db, w.builders[b].seen, w.builders[b].startedAt)
  }

  ghost function Step(w: World, e: Event): World
    requires Possible(w, e)
  {
    match e
    case Tick(d) => w.(clock := w.clock + d)
    case Start(b) => w.(builders := w.builders[b := Builder(w.clock, {}, None, None)])
    case BeginTx(b) => w.(builders := w.builders[b := w.builders[b].(tx := Some(w.clock))])
    case CommitTx(b, rows) =>
      w.(db := w.db.(sources := w.db.sources + rows),
         builders := w.builders[b := w.builders[b].(tx := None, seen := w.builders[b].seen + rows.Keys)],
         log := w.log + [Recording(rows.Keys, w.builders[b].tx.value, b)])
    case Select(b) => w.(builders := w.builders[b := w.builders[b].(found := Some(Look(Sweepable(w, b), |w.log|)))])
    case Sweep(b) => w.(db := w.db.(sources := MarkDeleted(w.db.sources, w.builders[b].found.value.sources)))
  }

  ghost predicate Runnable(w: World, es: seq<Event>)
    decreases |es|, 0
  {
    es != [] ==> Runnable(w, es[..|es| - 1]) && Possible(Play(w, es[..|es| - 1]), es[|es| - 1])
  }

  ghost function Play(w: World, es: seq<Event>): World
    requires Runnable(w, es)
    decreases |es|, 1
  {
    if es == [] then w else Step(Play(w, es[..|es| - 1]), es[|es| - 1])
  }

  /** The last committed recording of a source. */
  function LastOf(log: seq<Recording>, s: SourceId): Option<Recording> {
    if log == [] then None
    else if s in log[|log| - 1].sources then Some(log[|log| - 1])
    else LastOf(log[..|log| - 1], s)
  }

  ghost predicate Inv(w: World) {
    && (forall s :: LastOf(w.log, s).Some? ==> StampedBy(w, s, LastOf(w.log, s).value))
    && (forall b :: b in w.builders ==> TimesPast(w.builders[b], w.clock))
    && (forall b :: b in w.builders ==> SoundLook(w.builders[b], w.log))
  }

  predicate StampedBy(w: World, s: SourceId, r: Recording) {
    s in w.db.sources && w.db.sources[s].lastSeenAt == Some(r.began) && r.began <= w.clock
  }

  predicate TimesPast(b: Builder, clock: int) {
    b.startedAt <= clock && (b.tx.Some? ==> b.startedAt <= b.tx.value <= clock)
  }

  /** What was selected lay on the far side of the fence when it was. */
  ghost predicate SoundLook(b: Builder, log: seq<Recording>) {
    b.found.Some? ==>
      b.tx.None? && b.found.value.logged <= |log| &&
      forall s :: s in b.found.value.sources ==> BeforeStart(b, log[..b.found.value.logged], s)
  }

  predicate BeforeStart(b: Builder, log: seq<Recording>, s: SourceId) {
    s !in b.seen && (LastOf(log, s).Some? ==> LastOf(log, s).value.began < b.startedAt)
  }

  lemma StepKeepsStamp(w: World, e: Event, s: SourceId)
    requires Possible(w, e)
    requires LastOf(w.log, s).Some? ==> StampedBy(w, s, LastOf(w.log, s).value)
    requires e.CommitTx? ==> TimesPast(w.builders[e.b], w.clock)
    ensures LastOf(Step(w, e).log, s).Some? ==> StampedBy(Step(w, e), s, LastOf(Step(w, e).log, s).value)
  {
    if e.CommitTx? { assert Step(w, e).log[..|Step(w, e).log| - 1] == w.log; }
  }

  lemma StepKeepsTimes(w: World, e: Event, b: string)
    requires Possible(w, e) && (b in w.builders ==> TimesPast(w.builders[b], w.clock))
    ensures b in Step(w, e).builders ==> TimesPast(Step(w, e).builders[b], Step(w, e).clock)
  {}

  lemma StepKeepsLook(w: World, e: Event, b: string)
    requires Possible(w, e) && (b in w.builders ==> SoundLook(w.builders[b], w.log))
    requires forall s :: LastOf(w.log, s).Some? ==> StampedBy(w, s, LastOf(w.log, s).value)
    ensures b in Step(w, e).builders ==> SoundLook(Step(w, e).builders[b], Step(w, e).log)
  {
    if b in w.builders {
      if e == Select(b) {
        assert w.log[..|w.log|] == w.log;
        forall s | s in Sweepable(w, b) ensures BeforeStart(w.builders[b], w.log, s) {
          assert LastOf(w.log, s).Some? ==> StampedBy(w, s, LastOf(w.log, s).value);
        }
      } else if e.CommitTx? && w.builders[b].found.Some? {
        var n := w.builders[b].found.value.logged;
        assert Step(w, e).log[..n] == w.log[..n];
      }
    }
  }

  lemma StepKeepsInv(w: World, e: Event)
    requires Inv(w) && Possible(w, e)
    ensures Inv(Step(w, e))
  {
    hide Step, StampedBy, TimesPast, LastOf, SoundLook;
    forall s { StepKeepsStamp(w, e, s); }
    forall b { StepKeepsTimes(w, e, b); }
    forall b { StepKeepsLook(w, e, b); }
  }

  lemma {:induction false} RunKeepsInv(w: World, es: seq<Event>)
    requires Inv(w) && Runnable(w, es)
    ensures Inv(Play(w, es))
  {
    if es != [] {
      RunKeepsInv(w, es[..|es| - 1]);
      StepKeepsInv(Play(w, es[..|es| - 1]), es[|es| - 1]);
    }
  }

  /** In every interleaving: what a builder's sweep marks is what it selected; it saw none
      of these sources, and of each the last recording committed before the selection
      began before the builder's own start. */
  lemma SweepSparesLaterWriters(w: World, es: seq<Event>, b: string, s: SourceId)
    requires Inv(w) && Runnable(w, es) && Possible(Play(w, es), Sweep(b))
    ensures var now, after := Play(w, es), Step(Play(w, es), Sweep(b)); var found := now.builders[b].found.value;
      && (s in now.db.sources ==> s in after.db.sources)
      && (s in now.db.sources ==>
            (after.db.sources[s].isDeleted <==> now.db.sources[s].isDeleted || s in found.sources))
      && (s in found.sources ==> found.logged <= |now.log| && BeforeStart(now.builders[b], now.log[..found.logged], s))
  {
    RunKeepsInv(w, es);
    assert SoundLook(Play(w, es).builders[b], Play(w, es).log);
  }

  /** The fence, exactly: a recorded source is passed over by a builder's selection if and
      only if the builder saw it, it was deleted already, or its last recording began at
      or after the builder's start. */
  lemma SurvivesSweepIff(w: World, es: seq<Event>, b: string, s: SourceId)
    requires Inv(w) && Runnable(w, es) && b in Play(w, es).builders && LastOf(Play(w, es).log, s).Some?
    ensures var now := Play(w, es);
      s in now.db.sources &&
      (s !in Sweepable(now, b) <==>
        s in now.builders[b].seen || now.db.sources[s].isDeleted || LastOf(now.log, s).value.began >= now.builders[b].startedAt)
  {
    RunKeepsInv(w, es);
    assert StampedBy(Play(w, es), s, LastOf(Play(w, es).log, s).value);
  }

  /** The last recording is in the later part of the log, or else in the earlier. */
  lemma {:induction false} LastOfSplit(log: seq<Recording>, n: nat, s: SourceId)
    requires n <= |log|
    ensures LastOf(log, s) == if LastOf(log[n..], s).Some? then LastOf(log[n..], s) else LastOf(log[..n], s)
  {
    if n == |log| {
      assert log[..n] == log;
    } else {
      var init := log[..|log| - 1];
      LastOfSplit(init, n, s);
      assert init[..n] == log[..n] && log[n..][..|log[n..]| - 1] == init[n..];
      assert log[n..][|log[n..]| - 1] == log[|log| - 1];
    }
  }

  /** The fence at the marking, exactly: of the sources a builder marks deleted, those last
      recorded by a transaction that began at or after its start are the ones whose last
      recording since the selection did. */
  lemma MarkingBreaksFenceIff(w: World, es: seq<Event>, b: string, s: SourceId)
    requires Inv(w) && Runnable(w, es) && Possible(Play(w, es), Sweep(b))
    requires s in Play(w, es).builders[b].found.value.sources
    ensures var now := Play(w, es); var found, start := now.builders[b].found.value, now.builders[b].startedAt;
      found.logged <= |now.log| &&
      (BeganSince(LastOf(now.log, s), start) <==> BeganSince(LastOf(now.log[found.logged..], s), start))
    ensures LastOf(Play(w, es).log, s).Some? ==>
      var after := Step(Play(w, es), Sweep(b)); s in after.db.sources && after.db.sources[s].isDeleted
  {
    var now := Play(w, es);
    var found := now.builders[b].found.value;
    RunKeepsInv(w, es);
    assert SoundLook(now.builders[b], now.log) && BeforeStart(now.builders[b], now.log[..found.logged], s);
    LastOfSplit(now.log, found.logged, s);
    if LastOf(now.log, s).Some? { assert StampedBy(now, s, LastOf(now.log, s).value); }
    hide Play, Runnable, Inv, LastOf;
  }

  predicate BeganSince(r: Option<Recording>, start: int) {
    r.Some? && r.value.began >= start
  }

  /** The unseen live sources fall on the two sides of the fence; the count of skipped
      ones is exact. */
  lemma SkippedAreTheRest(db: Db, seen: set<SourceId>, startedAt: int)
    ensures var unseen := set s | s in db.sources && UnseenLive(db.sources, seen, s);
      && Vanished(db, seen, startedAt) !! ConcurrentlyRecorded(db, seen, startedAt)
      && unseen == Vanished(db, seen, startedAt) + ConcurrentlyRecorded(db, seen, startedAt)
      && |ConcurrentlyRecorded(db, seen, startedAt)| == |unseen| - |Vanished(db, seen, startedAt)|
  {
    var v, c := Vanished(db, seen, startedAt), ConcurrentlyRecorded(db, seen, startedAt);
    var unseen := set s | s in db.sources && UnseenLive(db.sources, seen, s);
    assert unseen == v + c && v !! c;
    assert |v + c| == |v| + |c|;
  }

  // ------------------------------------------------------- where the fence leaks

  function Page(stamp: int): Source {
    Source(GithubDoc, "a.md", Some("a.md"), "text", Some(stamp), stamp, false, [])
  }

  function Paged(stamp: int): map<SourceId, Source> { map[Src(1) := Page(stamp)] }

  function Start0(): World {
    World(0, Db(map[], map[], map[], map[]), map[], [])
  }

  /** A world in which only builder b has acted: at 1 it started and recorded the page. */
  function Recorded1(): World {
    World(1, Db(Paged(1), map[], map[], map[]), map["b" := Builder(1, {Src(1)}, None, None)], [Recording({Src(1)}, 1, "b")])
  }

  lemma AB()
    ensures "a" != "b"
  {
    assert "a"[0] != "b"[0];
  }

  lemma {:induction false} PlayOne(w: World, es: seq<Event>, e: Event)
    requires Runnable(w, es) && Possible(Play(w, es), e)
    ensures Runnable(w, es + [e]) && Play(w, es + [e]) == Step(Play(w, es), e)
  {
    assert (es + [e])[..|es|] == es;
  }

  lemma NothingPlayed(w: World)
    ensures Runnable(w, []) && Play(w, []) == w
  {}

  // A transaction that began before the builder's start and committed after it.

  function Late(k: nat): World {
    var one := Builder(1, {}, None, None);
    if k == 1 then World(1, Start0().db, map[], [])
    else if k == 2 then World(1, Start0().db, map["b" := one], [])
    else if k == 3 then World(1, Start0().db, map["b" := one.(tx := Some(1))], [])
    else if k == 4 then World(2, Start0().db, map["b" := one.(tx := Some(1))], [])
    else if k == 5 then World(2, Start0().db, map["b" := one.(tx := Some(1)), "a" := Builder(2, {}, None, None)], [])
    else World(2, Db(Paged(1), map[], map[], map[]), map["b" := one.(seen := {Src(1)}), "a" := Builder(2, {}, None, None)],
               [Recording({Src(1)}, 1, "b")])
  }

  lemma LateSteps()
    ensures Step(Start0(), Tick(1)) == Late(1)
    ensures Possible(Late(1), Start("b")) && Step(Late(1), Start("b")) == Late(2)
    ensures Possible(Late(2), BeginTx("b")) && Step(Late(2), BeginTx("b")) == Late(3)
    ensures Step(Late(3), Tick(1)) == Late(4)
    ensures Possible(Late(4), Start("a")) && Step(Late(4), Start("a")) == Late(5)
  {
    AB();
  }

  lemma LateCommits()
    ensures Possible(Late(5), CommitTx("b", Paged(1))) && Step(Late(5), CommitTx("b", Paged(1))) == Late(6)
    ensures Possible(Late(6), Select("a")) && Sweepable(Late(6), "a") == {Src(1)}
    ensures var w := Step(Late(6), Select("a")); Possible(w, Sweep("a")) && Src(1) in Step(w, Sweep("a")).db.sources && Step(w, Sweep("a")).db.sources[Src(1)].isDeleted
  {
    AB();
    assert Start0().db.sources + Paged(1) == Paged(1);
    assert Paged(1).Keys == {Src(1)};
    assert {} + Paged(1).Keys == {Src(1)};
  }

  /** Such a transaction is on the wrong side of the fence: the builder selects, and
      deletes, what it could not have listed. */
  lemma LateCommitIsSwept() returns (es: seq<Event>)
    ensures Inv(Start0()) && Runnable(Start0(), es) && Play(Start0(), es) == Late(6)
    ensures Possible(Late(6), Select("a"))
    ensures var w := Step(Late(6), Select("a"));
      Possible(w, Sweep("a")) && Src(1) in Step(w, Sweep("a")).db.sources && Step(w, Sweep("a")).db.sources[Src(1)].isDeleted
    ensures LastOf(Late(6).log, Src(1)).Some? && Late(6).builders["a"].startedAt == 2
  {
    StartIsSound();
    assert Late(6).builders["a"].startedAt == 2 && LastOf(Late(6).log, Src(1)).Some?;
    hide *;
    LateSteps();
    LateCommits();
    NothingPlayed(Start0());
    TickIsPossible(Start0(), 1);
    TickIsPossible(Late(3), 1);
    PlayOne(Start0(), [], Tick(1));
    PlayOne(Start0(), [] + [Tick(1)], Start("b"));
    PlayOne(Start0(), [] + [Tick(1)] + [Start("b")], BeginTx("b"));
    PlayOne(Start0(), [] + [Tick(1)] + [Start("b")] + [BeginTx("b")], Tick(1));
    PlayOne(Start0(), [] + [Tick(1)] + [Start("b")] + [BeginTx("b")] + [Tick(1)], Start("a"));
    es := [] + [Tick(1)] + [Start("b")] + [BeginTx("b")] + [Tick(1)] + [Start("a")];
    PlayOne(Start0(), es, CommitTx("b", Paged(1)));
    es := es + [CommitTx("b", Paged(1))];
  }

  lemma TickIsPossible(w: World, d: nat)
    ensures Possible(w, Tick(d))
  {}

  lemma StartIsSound()
    ensures Inv(Start0())
  {}

  // A source recorded again between the selection and the marking.

  function Again(k: nat): World {
    var w := World(2, Recorded1().db, Recorded1().builders["a" := Builder(2, {}, None, None)], Recorded1().log);
    if k == 1 then w
    else if k == 2 then w.(builders := w.builders["a" := Builder(2, {}, None, Some(Look({Src(1)}, 1)))])
    else if k == 3 then Again2(Some(2))
    else Again2(None).(db := Db(Paged(2), map[], map[], map[]), log := Recorded1().log + [Recording({Src(1)}, 2, "b")])
  }

  function Again2(tx: Option<int>): World {
    World(2, Recorded1().db,
          map["b" := Builder(1, {Src(1)}, tx, None), "a" := Builder(2, {}, None, Some(Look({Src(1)}, 1)))], Recorded1().log)
  }

  lemma AgainSteps()
    ensures var w := Step(Recorded1(), Tick(1)); Possible(w, Start("a")) && Step(w, Start("a")) == Again(1)
    ensures Possible(Again(1), Select("a")) && Step(Again(1), Select("a")) == Again(2)
  {
    AB();
    assert Sweepable(Again(1), "a") == {Src(1)};
  }

  lemma AgainCommits()
    ensures Possible(Again(2), BeginTx("b")) && Step(Again(2), BeginTx("b")) == Again(3)
    ensures Possible(Again(3), CommitTx("b", Paged(2))) && Step(Again(3), CommitTx("b", Paged(2))) == Again(4)
    ensures Possible(Again(4), Sweep("a")) && Step(Again(4), Sweep("a")).db.sources[Src(1)].isDeleted
  {
    AB();
    assert Recorded1().db.sources + Paged(2) == Paged(2);
    assert Paged(2).Keys == {Src(1)};
    assert {Src(1)} + Paged(2).Keys == {Src(1)};
  }

  /** Two statements are not one: a source recorded after the builder's start, but between
      its selection and its marking, is deleted. */
  lemma RecordedWhileSweeping() returns (es: seq<Event>)
    ensures Inv(Recorded1()) && Runnable(Recorded1(), es) && Play(Recorded1(), es) == Again(4)
    ensures LastOf(Again(4).log, Src(1)) == Some(Recording({Src(1)}, 2, "b")) && Again(4).builders["a"].startedAt == 2
    ensures Possible(Again(4), Sweep("a")) && Step(Again(4), Sweep("a")).db.sources[Src(1)].isDeleted
  {
    RecordedIsSound();
    assert LastOf(Again(4).log, Src(1)) == Some(Recording({Src(1)}, 2, "b")) && Again(4).builders["a"].startedAt == 2;
    hide *;
    AgainSteps();
    AgainCommits();
    NothingPlayed(Recorded1());
    TickIsPossible(Recorded1(), 1);
    PlayOne(Recorded1(), [], Tick(1));
    PlayOne(Recorded1(), [] + [Tick(1)], Start("a"));
    PlayOne(Recorded1(), [] + [Tick(1)] + [Start("a")], Select("a"));
    es := [] + [Tick(1)] + [Start("a")] + [Select("a")];
    PlayOne(Recorded1(), es, BeginTx("b"));
    PlayOne(Recorded1(), es + [BeginTx("b")], CommitTx("b", Paged(2)));
    es := es + [BeginTx("b")] + [CommitTx("b", Paged(2))];
  }

  lemma RecordedIsSound()
    ensures Inv(Recorded1())
  {
    var w, r := Recorded1(), Recording({Src(1)}, 1, "b");
    assert w.log == [r] && w.log[..|w.log| - 1] == [];
    forall s ensures LastOf(w.log, s) == if s == Src(1) then Some(r) else None {
      assert LastOf([], s) == None;
    }
    assert StampedBy(w, Src(1), r);
  }
}
