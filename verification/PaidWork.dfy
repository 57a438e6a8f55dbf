/** Paid model calls over crashes and restarts: the in-transaction cache in front, the
    side-committed output cache beneath it.

    `inner` is the key of the cache that shares the build's transaction (for an
    embedding it names the artifact too); `key` is content plus model identity. */
module PaidWork {
  import opened Prelude

  /** How a call ends: stored, its side-commit refused by the storage, or the process
      gone between the model's return and the side-commit. */
  datatype Ending = Stored | Unstored | Died

  datatype Event<V> =
    | Work(inner: string, key: string, output: V, readable: bool, ending: Ending)
    | Commit
    | Rollback

  /** `spent` has one occurrence of a key per successful model call; `lost` and
      `redundant` sort out those that stored nothing new. */
  datatype Ledger<V> = Ledger(
    durable: map<string, V>,
    work: set<string>,
    saved: set<string>,
    spent: multiset<string>,
    lost: multiset<string>,
    redundant: multiset<string>,
    counted: nat)

  function NothingPaid<V>(): Ledger<V> {
    Ledger(map[], {}, {}, multiset{}, multiset{}, multiset{}, 0)
  }

  /** The stored output, when the storage answers. */
  function Lookup<V>(l: Ledger<V>, e: Event<V>): Option<V>
    requires e.Work?
  {
    if e.readable && e.key in l.durable then Some(l.durable[e.key]) else None
  }

  predicate Calls<V>(l: Ledger<V>, e: Event<V>) {
    e.Work? && e.inner !in l.work && Lookup(l, e).None?
  }

  /** ON CONFLICT DO NOTHING: the first output stored for a key stays. */
  function Put<V>(durable: map<string, V>, key: string, v: V): map<string, V> {
    if key in durable then durable else durable[key := v]
  }

  function Spend<V>(l: Ledger<V>, e: Event<V>): Ledger<V>
    requires e.Work?
  {
    Ledger(
      if e.ending.Stored? then Put(l.durable, e.key, e.output) else l.durable,
      if e.ending.Died? then l.saved else l.work + {e.inner},
      l.saved,
      l.spent + multiset{e.key},
      if !e.ending.Stored? && e.key !in l.durable then l.lost + multiset{e.key} else l.lost,
      if e.key in l.durable then l.redundant + multiset{e.key} else l.redundant,
      l.counted + 1)
  }

  function Step<V>(l: Ledger<V>, e: Event<V>): Ledger<V> {
    match e
    case Work(inner, key, output, readable, ending) =>
      if inner in l.work then l
      else if Lookup(l, e).Some? then l.(work := l.work + {inner})
      else Spend(l, e)
    case Commit => l.(saved := l.work)
    case Rollback => l.(work := l.saved)
  }

  function Play<V>(l: Ledger<V>, es: seq<Event<V>>): Ledger<V> {
    if es == [] then l else Step(Play(l, es[..|es| - 1]), es[|es| - 1])
  }

  /** What mapping works from: the replayed rows, the stored output, or the new one. */
  datatype Used<V> = Replay | Remap(output: V) | Paid(output: V) | Nothing

  function Uses<V>(l: Ledger<V>, e: Event<V>): Used<V>
    requires e.Work?
  {
    if e.inner in l.work then Replay
    else if Lookup(l, e).Some? then Remap(Lookup(l, e).value)
    else if e.ending.Died? then Nothing
    else Paid(e.output)
  }

  // ------------------------------------------------------- accounting

  function StoredOnce<V>(l: Ledger<V>, key: string): nat { if key in l.durable then 1 else 0 }

  /** Every call of a key is the one that stored its output, one that stored nothing
      (the process died or the storage refused before anything was stored), or one made
      although an output was stored already. */
  ghost predicate Balanced<V>(l: Ledger<V>) {
    && (forall key :: l.spent[key] == StoredOnce(l, key) + l.lost[key] + l.redundant[key])
    && |l.spent| == l.counted
  }

  lemma StepBalancesAt<V>(l: Ledger<V>, e: Event<V>, key: string)
    requires l.spent[key] == StoredOnce(l, key) + l.lost[key] + l.redundant[key]
    ensures Step(l, e).spent[key] == StoredOnce(Step(l, e), key) + Step(l, e).lost[key] + Step(l, e).redundant[key]
  {}

  lemma StepBalances<V>(l: Ledger<V>, e: Event<V>)
    requires Balanced(l)
    ensures Balanced(Step(l, e))
  {
    forall key { StepBalancesAt(l, e, key); }
    assert |Step(l, e).spent| == Step(l, e).counted;
    hide Step, StoredOnce;
  }

  /** Over any run of work, commits, failures, crashes and restarts the books balance,
      and the reported call counter counts exactly the calls. */
  lemma {:induction false} RunBalances<V>(l: Ledger<V>, es: seq<Event<V>>)
    requires Balanced(l)
    ensures Balanced(Play(l, es))
  {
    if es != [] {
      RunBalances(l, es[..|es| - 1]);
      StepBalances(Play(l, es[..|es| - 1]), es[|es| - 1]);
    }
  }

  /** Calls for `key` whose process died before the side-commit. */
  function Deaths<V>(l: Ledger<V>, es: seq<Event<V>>, key: string): nat {
    if es == [] then 0
    else
      var init, e := es[..|es| - 1], es[|es| - 1];
      Deaths(l, init, key) + (if Calls(Play(l, init), e) && e.key == key && e.ending.Died? then 1 else 0)
  }

  /** The storage answers every read and accepts every write. */
  ghost predicate Healthy<V>(es: seq<Event<V>>) {
    forall e: Event<V> :: e in es && e.Work? ==> e.readable && !e.ending.Unstored?
  }

  lemma HealthyStep<V>(l: Ledger<V>, e: Event<V>, key: string)
    requires e.Work? ==> e.readable && !e.ending.Unstored?
    ensures Step(l, e).redundant == l.redundant
    ensures Step(l, e).lost[key] == l.lost[key] + (if Calls(l, e) && e.key == key && e.ending.Died? then 1 else 0)
  {}

  lemma {:induction false} HealthyRun<V>(l: Ledger<V>, es: seq<Event<V>>, key: string)
    requires Healthy(es)
    ensures Play(l, es).redundant == l.redundant
    ensures Play(l, es).lost[key] == l.lost[key] + Deaths(l, es, key)
  {
    if es != [] {
      var init, e := es[..|es| - 1], es[|es| - 1];
      assert e in es && forall x :: x in init ==> x in es;
      hide Step, Calls;
      HealthyRun(l, init, key);
      HealthyStep(Play(l, init), e, key);
    }
  }

  /** Paid work survives crashes: with healthy storage, the model runs for one key
      exactly once per crash between its return and the side-commit, plus once if an
      output was ever stored; so at most one more time than it crashed there. */
  lemma PaidOncePlusCrashes<V>(es: seq<Event<V>>, key: string)
    requires Healthy(es)
    ensures var l := Play(NothingPaid(), es);
      l.spent[key] == StoredOnce(l, key) + Deaths(NothingPaid(), es, key) <= 1 + Deaths(NothingPaid(), es, key)
  {
    RunBalances(NothingPaid<V>(), es);
    HealthyRun(NothingPaid<V>(), es, key);
  }

  /** Once stored, an output is the one every later re-map works from, and no healthy
      request for its key pays again. */
  lemma {:induction false} FirstOutputStays<V>(l: Ledger<V>, es: seq<Event<V>>, key: string, e: Event<V>)
    requires key in l.durable && e.Work? && e.key == key && e.readable
    ensures key in Play(l, es).durable && Play(l, es).durable[key] == l.durable[key]
    ensures !Calls(Play(l, es), e)
    ensures e.inner !in Play(l, es).work ==> Uses(Play(l, es), e) == Remap(l.durable[key])
  {
    if es != [] { FirstOutputStays(l, es[..|es| - 1], key, e); }
  }

  // ------------------------------------------------------- roll backs

  /** What each event does to the two caches: work in the open transaction is added to it,
      a commit saves it, a roll back takes it back, and neither touches the stored outputs. */
  lemma CachesAre<V>(l: Ledger<V>, e: Event<V>)
    ensures var d := Step(l, e);
      && (e.Rollback? ==> d.work == l.saved && d.saved == l.saved && d.durable == l.durable)
      && (e.Commit? ==> d.work == l.work && d.saved == l.work && d.durable == l.durable)
      && (e.Work? ==>
            && d.saved == l.saved
            && (d.work == if Calls(l, e) && e.ending == Died then l.saved else l.work + {e.inner})
            && (forall key :: key in l.durable ==> key in d.durable && d.durable[key] == l.durable[key])
            && (e.key !in l.durable && Calls(l, e) && e.ending == Stored ==> e.key in d.durable && d.durable[e.key] == e.output)
            && (forall key :: key in d.durable ==> key in l.durable || (key == e.key && Calls(l, e) && e.ending == Stored)))
  {}

  ghost predicate NoCommit<V>(es: seq<Event<V>>) {
    forall e: Event<V> :: e in es ==> !e.Commit?
  }

  lemma {:induction false} SavedStays<V>(l: Ledger<V>, es: seq<Event<V>>)
    requires NoCommit(es)
    ensures Play(l, es).saved == l.saved
  {
    if es != [] {
      assert es[|es| - 1] in es && forall e :: e in es[..|es| - 1] ==> e in es;
      SavedStays(l, es[..|es| - 1]);
    }
  }

  /** Whatever was done since the last commit, a roll back forgets: a request not committed
      before is no replay, and if its output was stored meanwhile it is mapped again from the
      stored output, with no further call. */
  lemma RolledBackIsRemapped<V>(l: Ledger<V>, es: seq<Event<V>>, e: Event<V>)
    requires NoCommit(es) && e.Work? && e.inner !in l.saved && e.readable
    ensures var d := Step(Play(l, es), Rollback);
      && Uses(d, e) != Replay
      && (e.key in Play(l, es).durable ==> Uses(d, e) == Remap(Play(l, es).durable[e.key]) && !Calls(d, e))
  {
    SavedStays(l, es);
  }

  // ------------------------------------------------------- the gate

  /** The side-committing cache: an optimisation that never fails the build. */
  class DurableCache<V> {
    var rows: map<string, V>
    var degraded: bool

    constructor ()
      ensures rows == map[] && !degraded
    {
      rows, degraded := map[], false;
    }

    /** A storage error reads as a miss. */
    method Get(key: string, ok: bool) returns (hit: Option<V>)
      modifies this`degraded
      ensures hit == if ok && key in rows then Some(rows[key]) else None
      ensures degraded <==> old(degraded) || !ok
    {
      if !ok {
        degraded := true;
        return None;
      }
      hit := if key in rows then Some(rows[key]) else None;
    }

    method PutOutput(key: string, v: V, ok: bool)
      modifies this
      ensures rows == if ok then Put(old(rows), key, v) else old(rows)
      ensures degraded <==> old(degraded) || !ok
    {
      if !ok {
        degraded := true;
      } else if key !in rows {
        rows := rows[key := v];
      }
    }
  }

  /** Cache, then stored output, then the model; returns what there is to map, and
      whether it was paid for. */
  method Gated<V>(cache: DurableCache<V>, work: set<string>, e: Event<V>)
    returns (work': set<string>, used: Used<V>, paid: nat)
    requires e.Work? && !e.ending.Died?
    modifies cache
    ensures forall l: Ledger<V> :: l.durable == old(cache.rows) && l.work == work ==>
      Step(l, e).durable == cache.rows && Step(l, e).work == work' && Uses(l, e) == used && (paid == 1 <==> Calls(l, e))
    ensures paid <= 1
  {
    work', used, paid := work, Replay, 0;
    if e.inner in work {
      return;
    }
    var hit := cache.Get(e.key, e.readable);
    if hit.Some? {
      used := Remap(hit.value);
    } else {
      used, paid := Paid(e.output), 1;
      cache.PutOutput(e.key, e.output, e.ending.Stored?);
    }
    work' := work + {e.inner};
  }
}
