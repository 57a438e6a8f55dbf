/** Publish gates and activation over the table of build runs. */
module Activation {
  import opened Prelude
  import opened Registry

  datatype Status = Running | Completed | Failed | Active | Superseded | ValidationFailed

  /** A row of the run table; its index stands for the build id. */
  datatype BuildRun = BuildRun(
    version: string,
    build: int,
    status: Status,
    extractorFailures: nat,
    allowLargeDelta: bool,
    failedGate: Option<string>,
    measured: Option<real>)

  type Runs = seq<BuildRun>

  datatype GateResult = GateResult(name: string, passed: bool, measured: Option<real>, skipped: bool)

  /** A gate reads the registry for one version; None stands for a raised error. */
  type Gate = (Db, Runs, string) -> Option<GateResult>

  // ------------------------------------------------------- the run under gate

  /** The completed run of the version with the highest sequence number. */
  function LatestCompleted(runs: Runs, version: string): Option<nat> {
    if runs == [] then None
    else
      var best, last := LatestCompleted(runs[..|runs| - 1], version), runs[|runs| - 1];
      if last.version == version && last.status.Completed? && (best.None? || best.value >= |runs| || last.build > runs[best.value].build)
      then Some(|runs| - 1) else best
  }

  predicate IsCompleted(runs: Runs, version: string, k: int) {
    0 <= k < |runs| && runs[k].version == version && runs[k].status.Completed?
  }

  lemma {:induction false} LatestIsLatest(runs: Runs, version: string)
    ensures var r := LatestCompleted(runs, version);
      && (r.None? ==> forall k :: !IsCompleted(runs, version, k))
      && (r.Some? ==> IsCompleted(runs, version, r.value))
      && (r.Some? ==> forall k :: IsCompleted(runs, version, k) ==> runs[k].build <= runs[r.value].build)
  {
    if runs != [] {
      var init := runs[..|runs| - 1];
      LatestIsLatest(init, version);
      forall k | IsCompleted(runs, version, k) ensures k == |runs| - 1 || IsCompleted(init, version, k) {}
      forall k | IsCompleted(init, version, k) ensures IsCompleted(runs, version, k) {}
    } else {
      forall k ensures !IsCompleted(runs, version, k) {}
    }
  }

  /** `_build_seq_for`: the cutoff the gates measure at. */
  function BuildSeqFor(runs: Runs, version: string): Option<int> {
    var r := LatestCompleted(runs, version);
    if r.Some? && r.value < |runs| then Some(runs[r.value].build) else None
  }

  ghost predicate DistinctBuilds(runs: Runs) {
    forall j, k :: 0 <= j < k < |runs| ==> runs[j].build != runs[k].build
  }

  /** The gates look up the run being activated by its version: they find it exactly
      when no completed run of the same version is younger. */
  lemma GatesSeeTheRunIff(runs: Runs, id: nat)
    requires id < |runs| && runs[id].status.Completed?
    ensures BuildSeqFor(runs, runs[id].version) == Some(runs[id].build) <==>
            (forall k :: IsCompleted(runs, runs[id].version, k) ==> runs[k].build <= runs[id].build)
  {
    LatestIsLatest(runs, runs[id].version);
    assert IsCompleted(runs, runs[id].version, id);
  }

  /** `_previous_active_seq`: the active run, unless it carries the same version. */
  function PreviousActive(runs: Runs, version: string): Option<int> {
    if runs == [] then None
    else if runs[|runs| - 1].status.Active? && runs[|runs| - 1].version != version then Some(runs[|runs| - 1].build)
    else PreviousActive(runs[..|runs| - 1], version)
  }

  lemma {:induction false} NoBaselineIff(runs: Runs, version: string)
    ensures PreviousActive(runs, version).None? <==>
      (forall k :: 0 <= k < |runs| && runs[k].status.Active? ==> runs[k].version == version)
  {
    if runs != [] { NoBaselineIff(runs[..|runs| - 1], version); }
  }

  // ------------------------------------------------------- the composed hook

  datatype Verdict = Raised | Rejected(gate: GateResult) | Accepted

  /** Gates in order; a skipped one never blocks, the first failing one decides. */
  function VerdictOf(gates: seq<Gate>, db: Db, runs: Runs, version: string): Verdict {
    if gates == [] then Accepted
    else
      var r := gates[0](db, runs, version);
      if r.None? then Raised
      else if !r.value.skipped && !r.value.passed then Rejected(r.value)
      else VerdictOf(gates[1..], db, runs, version)
  }

  /** The failure is recorded on every completed run of the version. */
  function Recorded(runs: Runs, version: string, g: GateResult): Runs {
    seq(|runs|, k requires 0 <= k < |runs| =>
      if runs[k].version == version && runs[k].status.Completed?
      then runs[k].(failedGate := Some(g.name), measured := g.measured) else runs[k])
  }

  function SupersedeActive(runs: Runs): Runs {
    seq(|runs|, k requires 0 <= k < |runs| =>
      if runs[k].status.Active? then runs[k].(status := Superseded) else runs[k])
  }

  datatype Outcome = Refused | Activated(runs: Runs) | Invalid(runs: Runs)

  /** Promote a completed run, if the gates accept it. */
  function Activate(runs: Runs, id: nat, verdict: Verdict): Outcome {
    if id >= |runs| || !runs[id].status.Completed? || verdict.Raised? then Refused
    else if verdict.Rejected? then
      Invalid(Recorded(runs, runs[id].version, verdict.gate)[id := Recorded(runs, runs[id].version, verdict.gate)[id].(status := ValidationFailed)])
    else Activated(SupersedeActive(runs)[id := SupersedeActive(runs)[id].(status := Active)])
  }

  function RunsAfter(runs: Runs, o: Outcome): Runs {
    if o.Refused? then runs else o.runs
  }

  /** The verdict is the first gate's that raises or fails; a skipped gate does neither. */
  lemma {:induction false} VerdictIs(gates: seq<Gate>, db: Db, runs: Runs, version: string, k: nat)
    requires k <= |gates|
    requires forall j :: 0 <= j < k ==> gates[j](db, runs, version).Some? && (gates[j](db, runs, version).value.skipped || gates[j](db, runs, version).value.passed)
    ensures k == |gates| ==> VerdictOf(gates, db, runs, version) == Accepted
    ensures k < |gates| && gates[k](db, runs, version).None? ==> VerdictOf(gates, db, runs, version) == Raised
    ensures k < |gates| && gates[k](db, runs, version).Some? ==>
      var g := gates[k](db, runs, version).value;
      !g.skipped && !g.passed ==> VerdictOf(gates, db, runs, version) == Rejected(g)
  {
    if k > 0 {
      var rest := gates[1..];
      forall j | 0 <= j < |rest| ensures rest[j] == gates[j + 1] {}
      VerdictIs(rest, db, runs, version, k - 1);
    }
  }

  /** What one activation does to every run: refused, nothing; rejected, the failing gate is
      noted on the completed runs of the label and the run marked; accepted, the run is active
      and the one active before superseded. */
  lemma ActivationFate(runs: Runs, id: nat, verdict: Verdict, k: nat)
    requires k < |runs|
    ensures var after, r := RunsAfter(runs, Activate(runs, id, verdict)), runs[k];
      var applies := id < |runs| && runs[id].status == Completed && verdict != Raised;
      && |after| == |runs|
      && (!applies ==> after[k] == r)
      && (applies && verdict == Accepted ==>
            after[k] == r.(status := if k == id then Active else if r.status == Active then Superseded else r.status))
      && (applies && verdict.Rejected? ==>
            after[k] == r.(status := if k == id then ValidationFailed else r.status,
                           failedGate := if r.version == runs[id].version && r.status == Completed then Some(verdict.gate.name) else r.failedGate,
                           measured := if r.version == runs[id].version && r.status == Completed then verdict.gate.measured else r.measured))
  {}

  /** The baseline is the active run's number, when it carries another label. */
  lemma {:induction false} BaselineIs(runs: Runs, version: string, k: nat)
    requires k < |runs| && runs[k].status == Active && runs[k].version != version
    requires forall j :: 0 <= j < |runs| && runs[j].status == Active ==> j == k
    ensures PreviousActive(runs, version) == Some(runs[k].build)
  {
    if k < |runs| - 1 { BaselineIs(runs[..|runs| - 1], version, k); }
  }

  // ------------------------------------------------------- what activation keeps

  ghost predicate SingleActive(runs: Runs) {
    forall j, k :: 0 <= j < |runs| && 0 <= k < |runs| && runs[j].status.Active? && runs[k].status.Active? ==> j == k
  }

  ghost predicate SomeActive(runs: Runs) {
    exists k :: 0 <= k < |runs| && runs[k].status.Active?
  }

  /** Nothing but status and the recorded gate changes. */
  predicate SameRun(r: BuildRun, r': BuildRun) {
    r' == r.(status := r'.status, failedGate := r'.failedGate, measured := r'.measured)
  }

  /** At most one run is ever active; once one is, one always is; a run that is not
      promoted leaves the active one exactly as it was; a promoted one takes over. */
  lemma ActivationKeepsOneActive(runs: Runs, id: nat, verdict: Verdict)
    requires SingleActive(runs)
    ensures var o := Activate(runs, id, verdict); var after := RunsAfter(runs, o);
      && SingleActive(after) && |after| == |runs|
      && (SomeActive(runs) ==> SomeActive(after))
      && (forall k :: 0 <= k < |runs| ==> SameRun(runs[k], after[k]))
      && (o.Activated? <==> id < |runs| && runs[id].status.Completed? && verdict.Accepted?)
      && (o.Activated? ==> after[id].status.Active?)
      && (!o.Activated? ==> forall k :: 0 <= k < |runs| && runs[k].status.Active? ==> after[k] == runs[k])
      && (!o.Activated? ==> forall k :: 0 <= k < |runs| && after[k].status.Active? ==> runs[k].status.Active?)
  {
    var o := Activate(runs, id, verdict);
    var after := RunsAfter(runs, o);
    if o.Activated? {
      assert after[id].status.Active?;
      forall k | 0 <= k < |after| && after[k].status.Active? ensures k == id {}
    } else if SomeActive(runs) {
      var k :| 0 <= k < |runs| && runs[k].status.Active?;
      assert after[k] == runs[k];
    }
  }

  // ------------------------------------------------------- the methods

  class RunTable {
    var runs: Runs

    constructor ()
      ensures runs == []
    {
      runs := [];
    }

    method RecordFailure(version: string, g: GateResult)
      modifies this
      ensures runs == Recorded(old(runs), version, g)
    {
      runs := Recorded(runs, version, g);
    }

    /** The composed hook: first failing gate records itself and stops the rest. */
    method Validate(gates: seq<Gate>, db: Db, version: string) returns (v: Verdict)
      modifies this
      ensures v == VerdictOf(gates, db, old(runs), version)
      ensures runs == if v.Rejected? then Recorded(old(runs), version, v.gate) else old(runs)
    {
      var k := 0;
      while k < |gates|
        invariant k <= |gates|
        invariant VerdictOf(gates, db, old(runs), version) == VerdictOf(gates[k..], db, old(runs), version)
        invariant runs == old(runs)
      {
        var r := gates[k](db, runs, version);
        assert gates[k..][1..] == gates[k + 1..];
        if r.None? { return Raised; }
        if !r.value.skipped && !r.value.passed {
          RecordFailure(version, r.value);
          return Rejected(r.value);
        }
        k := k + 1;
      }
      v := Accepted;
    }

    /** Supersede and promote in one transaction. */
    method ActivateVersion(id: nat, gates: seq<Gate>, db: Db) returns (activated: bool)
      requires SingleActive(runs)
      modifies this
      ensures var verdict := if id < |old(runs)| then VerdictOf(gates, db, old(runs), old(runs)[id].version) else Raised;
        runs == RunsAfter(old(runs), Activate(old(runs), id, verdict)) &&
        (activated <==> Activate(old(runs), id, verdict).Activated?)
      ensures SingleActive(runs)
    {
      ActivationKeepsOneActive(runs, id, if id < |runs| then VerdictOf(gates, db, runs, runs[id].version) else Raised);
      if id >= |runs| || !runs[id].status.Completed? {
        return false;
      }
      var v := Validate(gates, db, runs[id].version);
      if v.Raised? {
        return false;
      }
      if v.Rejected? {
        runs := runs[id := runs[id].(status := ValidationFailed)];
        return false;
      }
      runs := SupersedeActive(runs);
      runs := runs[id := runs[id].(status := Active)];
      activated := true;
    }
  }

  // ------------------------------------------------------- the machine under the builder lock

  /** `inside`: the processes that got past the lock, with the run each started, if any
      yet.  The lock belongs to a connection: it can be lost while its process runs on. */
  datatype Control = Control(runs: Runs, last: int, lock: Option<string>, inside: map<string, Option<nat>>)

  datatype Action =
    | Acquire(process: string)
    | StartRun(process: string, version: string)
    | FinishRun(process: string, ok: bool, failures: nat)
    | Publish(process: string, allowLargeDelta: bool, verdict: Verdict)
    | Release(process: string)
    | Lose

  /** The run the process started, while it has the given status. */
  predicate HoldsRun(c: Control, process: string, status: Status) {
    process in c.inside && c.inside[process].Some? && c.inside[process].value < |c.runs| &&
    c.runs[c.inside[process].value].status == status
  }

  /** Acquiring never blocks and never queues: a held lock refuses.  A crash releases. */
  function Do(c: Control, a: Action): Control {
    match a
    case Acquire(p) => if c.lock.None? && p !in c.inside then c.(lock := Some(p), inside := c.inside[p := None]) else c
    case StartRun(p, version) =>
      if p in c.inside && c.inside[p].None?
      then Control(c.runs + [BuildRun(version, c.last + 1, Running, 0, false, None, None)], c.last + 1, c.lock, c.inside[p := Some(|c.runs|)])
      else c
    case FinishRun(p, ok, failures) =>
      if HoldsRun(c, p, Running)
      then
        var id := c.inside[p].value;
        c.(runs := c.runs[id := c.runs[id].(status := if ok then Completed else Failed, extractorFailures := failures)])
      else c
    case Publish(p, large, verdict) =>
      if HoldsRun(c, p, Completed)
      then c.(runs := RunsAfter(Gated(c, p, large), Activate(Gated(c, p, large), c.inside[p].value, verdict)))
      else c
    case Release(p) => c.(inside := c.inside - {p}, lock := if c.lock == Some(p) then None else c.lock)
    case Lose => c.(lock := None)
  }

  /** The run table as the gates of a publication read it. */
  function Gated(c: Control, p: string, large: bool): Runs
    requires HoldsRun(c, p, Completed)
  {
    c.runs[c.inside[p].value := c.runs[c.inside[p].value].(allowLargeDelta := large)]
  }

  ghost predicate Inv(c: Control) {
    && SingleActive(c.runs) && DistinctBuilds(c.runs)
    && (forall k :: 0 <= k < |c.runs| ==> c.runs[k].build <= c.last)
    && (forall p :: p in c.inside && c.inside[p].Some? ==> c.inside[p].value < |c.runs|)
  }

  /** Whoever is inside holds the lock, and its run is the youngest. */
  ghost predicate Exclusive(c: Control) {
    forall p :: p in c.inside ==> c.lock == Some(p) && (c.inside[p].Some? ==> IsYoungest(c, c.inside[p].value))
  }

  predicate IsYoungest(c: Control, id: nat) {
    id < |c.runs| && c.runs[id].build == c.last
  }

  /** One active run at most, and one always once there is one, lock or no lock. */
  lemma DoKeepsInv(c: Control, a: Action)
    requires Inv(c)
    ensures Inv(Do(c, a))
    ensures SomeActive(c.runs) ==> SomeActive(Do(c, a).runs)
  {
    if a.Publish? && HoldsRun(c, a.process, Completed) {
      PublishKeepsInv(c, a);
    } else if SomeActive(c.runs) {
      var k :| 0 <= k < |c.runs| && c.runs[k].status.Active?;
      assert Do(c, a).runs[k].status.Active?;
    }
  }

  lemma PublishKeepsInv(c: Control, a: Action)
    requires Inv(c) && a.Publish? && HoldsRun(c, a.process, Completed)
    ensures Inv(Do(c, a))
    ensures SomeActive(c.runs) ==> SomeActive(Do(c, a).runs)
  {
    var id, runs := c.inside[a.process].value, Gated(c, a.process, a.allowLargeDelta);
    ActivationKeepsOneActive(runs, id, a.verdict);
    forall k | 0 <= k < |runs| ensures Do(c, a).runs[k].build == c.runs[k].build {
      assert SameRun(runs[k], Do(c, a).runs[k]);
    }
    if SomeActive(c.runs) {
      var k :| 0 <= k < |c.runs| && c.runs[k].status.Active?;
      assert runs[k].status.Active?;
    }
  }

  lemma DoKeepsExclusive(c: Control, a: Action)
    requires Inv(c) && Exclusive(c) && !a.Lose?
    ensures Exclusive(Do(c, a))
  {
    var d := Do(c, a);
    forall p | p in d.inside
      ensures d.lock == Some(p) && (d.inside[p].Some? ==> IsYoungest(d, d.inside[p].value))
    {
      if a.Publish? && HoldsRun(c, a.process, Completed) {
        var id, runs := c.inside[a.process].value, Gated(c, a.process, a.allowLargeDelta);
        ActivationKeepsOneActive(runs, id, a.verdict);
        if d.inside[p].Some? { assert SameRun(runs[d.inside[p].value], d.runs[d.inside[p].value]); }
      }
    }
  }

  /** Under the lock the gates measure the very run that is being activated, and an
      activation moves the active version strictly forward. */
  lemma PublishMovesForward(c: Control, a: Action)
    requires Inv(c) && Exclusive(c) && a.Publish? && HoldsRun(c, a.process, Completed)
    ensures var id, runs := c.inside[a.process].value, Gated(c, a.process, a.allowLargeDelta);
      && BuildSeqFor(runs, runs[id].version) == Some(runs[id].build)
      && (forall k :: 0 <= k < |c.runs| && c.runs[k].status.Active? ==> c.runs[k].build < c.runs[id].build)
  {
    var id, runs := c.inside[a.process].value, Gated(c, a.process, a.allowLargeDelta);
    GatesSeeTheRunIff(runs, id);
    assert IsYoungest(c, id);
    forall k | 0 <= k < |c.runs| && k != id ensures c.runs[k].build < c.runs[id].build {
      if k < id { assert c.runs[k].build != c.runs[id].build; } else { assert c.runs[id].build != c.runs[k].build; }
    }
  }

  /** The sequence number being served, if any. */
  ghost predicate Serves(c: Control, build: int) {
    exists k :: 0 <= k < |c.runs| && c.runs[k].status.Active? && c.runs[k].build == build
  }

  function DoAll(c: Control, actions: seq<Action>): Control {
    if actions == [] then c else Do(DoAll(c, actions[..|actions| - 1]), actions[|actions| - 1])
  }

  lemma StepServesForward(c: Control, a: Action, b: int, b': int)
    requires Inv(c) && Exclusive(c) && Serves(c, b) && Serves(Do(c, a), b')
    ensures b <= b'
  {
    var k :| 0 <= k < |c.runs| && c.runs[k].status.Active? && c.runs[k].build == b;
    var d := Do(c, a);
    var k' :| 0 <= k' < |d.runs| && d.runs[k'].status.Active? && d.runs[k'].build == b';
    if a.Publish? && HoldsRun(c, a.process, Completed) {
      var id, runs := c.inside[a.process].value, Gated(c, a.process, a.allowLargeDelta);
      ActivationKeepsOneActive(runs, id, a.verdict);
      PublishMovesForward(c, a);
      assert SameRun(runs[k'], d.runs[k']);
      if !Activate(runs, id, a.verdict).Activated? { assert runs[k'].status.Active?; }
    }
  }

  /** In every state any interleaving of processes reaches, locks lost or not, there is at
      most one active run, and once there is one there always is one. */
  lemma {:induction false} OneRunStaysActive(c: Control, actions: seq<Action>)
    requires Inv(c)
    ensures Inv(DoAll(c, actions))
    ensures SomeActive(c.runs) ==> SomeActive(DoAll(c, actions).runs)
  {
    if actions != [] {
      OneRunStaysActive(c, actions[..|actions| - 1]);
      DoKeepsInv(DoAll(c, actions[..|actions| - 1]), actions[|actions| - 1]);
    }
  }

  ghost predicate KeepsLocks(actions: seq<Action>) {
    forall k :: 0 <= k < |actions| ==> !actions[k].Lose?
  }

  /** And the served sequence number never goes back, as long as no lock is lost. */
  lemma {:induction false} ServedVersionNeverGoesBack(c: Control, actions: seq<Action>, b: int)
    requires Inv(c) && Exclusive(c) && KeepsLocks(actions)
    ensures Exclusive(DoAll(c, actions))
    ensures Serves(c, b) ==> forall b' :: Serves(DoAll(c, actions), b') ==> b <= b'
  {
    if actions == [] {
      forall b' | Serves(c, b) && Serves(c, b') ensures b <= b' {}
    } else {
      var init, a := actions[..|actions| - 1], actions[|actions| - 1];
      var mid := DoAll(c, init);
      ServedVersionNeverGoesBack(c, init, b);
      OneRunStaysActive(c, init);
      DoKeepsExclusive(mid, a);
      forall b' | Serves(c, b) && Serves(Do(mid, a), b') ensures b <= b' {
        var k :| 0 <= k < |c.runs| && c.runs[k].status.Active? && c.runs[k].build == b;
        assert SomeActive(c.runs);
        var m :| 0 <= m < |mid.runs| && mid.runs[m].status.Active?;
        assert Serves(mid, mid.runs[m].build);
        StepServesForward(mid, a, mid.runs[m].build, b');
      }
    }
  }

  /** The served number falls with this action. */
  ghost predicate StepsBack(c: Control, a: Action) {
    exists b, b' :: Serves(c, b) && Serves(Do(c, a), b') && b' < b
  }

  /** An accepted publication of a run older than one that is being served. */
  predicate Overtakes(c: Control, a: Action) {
    && a.Publish? && HoldsRun(c, a.process, Completed)
    && Activate(Gated(c, a.process, a.allowLargeDelta), c.inside[a.process].value, a.verdict).Activated?
    && ServesBeyond(c, c.runs[c.inside[a.process].value].build)
  }

  predicate ServesBeyond(c: Control, build: int) {
    exists k :: 0 <= k < |c.runs| && c.runs[k].status.Active? && c.runs[k].build > build
  }

  /** What is served after an action: the published run if it was accepted, and otherwise
      what was served before. */
  lemma ServedAfter(c: Control, a: Action, b: int)
    requires Inv(c)
    ensures var published := a.Publish? && HoldsRun(c, a.process, Completed)
        && Activate(Gated(c, a.process, a.allowLargeDelta), c.inside[a.process].value, a.verdict).Activated?;
      Serves(Do(c, a), b) <==> if published then b == c.runs[c.inside[a.process].value].build else Serves(c, b)
  {
    var d := Do(c, a);
    if a.Publish? && HoldsRun(c, a.process, Completed) {
      var id, runs := c.inside[a.process].value, Gated(c, a.process, a.allowLargeDelta);
      ActivationKeepsOneActive(runs, id, a.verdict);
      forall k | 0 <= k < |runs| ensures d.runs[k].build == c.runs[k].build { assert SameRun(runs[k], d.runs[k]); }
      if Activate(runs, id, a.verdict).Activated? {
        assert d.runs[id].status.Active?;
      } else {
        SameServed(c, d, b);
      }
    } else {
      SameServed(c, d, b);
    }
  }

  lemma SameServed(c: Control, d: Control, b: int)
    requires |c.runs| <= |d.runs|
    requires forall k :: 0 <= k < |c.runs| ==>
      (d.runs[k].status.Active? <==> c.runs[k].status.Active?) && d.runs[k].build == c.runs[k].build
    requires forall k :: |c.runs| <= k < |d.runs| ==> !d.runs[k].status.Active?
    ensures Serves(d, b) <==> Serves(c, b)
  {
    if Serves(c, b) {
      var k :| 0 <= k < |c.runs| && c.runs[k].status.Active? && c.runs[k].build == b;
      assert d.runs[k].status.Active?;
    }
  }

  /** Lock or no lock, an action moves the served number back exactly when it is an
      accepted publication under which a younger run is active. */
  lemma StepsBackIff(c: Control, a: Action)
    requires Inv(c)
    ensures StepsBack(c, a) <==> Overtakes(c, a)
  {
    hide Do, Gated, Activate, Inv;
    forall b { ServedAfter(c, a, b); }
    if Overtakes(c, a) {
      var k :| 0 <= k < |c.runs| && c.runs[k].status.Active? && c.runs[k].build > c.runs[c.inside[a.process].value].build;
      assert Serves(c, c.runs[k].build) && Serves(Do(c, a), c.runs[c.inside[a.process].value].build);
    }
    if StepsBack(c, a) {
      var b, b' :| Serves(c, b) && Serves(Do(c, a), b') && b' < b;
      var k :| 0 <= k < |c.runs| && c.runs[k].status.Active? && c.runs[k].build == b;
      if Serves(c, b') { OneServed(c, b, b'); }
    }
  }

  lemma OneServed(c: Control, b: int, b': int)
    requires Inv(c) && Serves(c, b) && Serves(c, b')
    ensures b == b'
  {}

  // ------------------------------------------------------- a lost lock

  function Run(build: int, status: Status): BuildRun {
    BuildRun(if build == 1 then "one" else "two", build, status, 0, false, None, None)
  }

  /** The first builder has finished and lost its lock; the second published in between. */
  function Overtaken(): Control {
    Control([Run(1, Completed), Run(2, Active)], 2, None, map["a" := Some(0)])
  }

  function Idle(): Control { Control([], 0, None, map[]) }

  function Overtaking(): seq<Action> {
    [Acquire("a"), StartRun("a", "one"), FinishRun("a", true, 0), Lose,
     Acquire("b"), StartRun("b", "two"), FinishRun("b", true, 0), Publish("b", false, Accepted), Release("b")]
  }

  lemma AB()
    ensures "a" != "b"
  {
    assert "a"[0] != "b"[0];
  }

  /** The state after the first `k` actions. */
  function OvertakenAt(k: nat): Control {
    if k == 0 then Idle() else if k <= 9 then Do(OvertakenAt(k - 1), Overtaking()[k - 1]) else Idle()
  }

  lemma {:induction false} OvertakingPlays(k: nat)
    requires k <= 9
    ensures DoAll(Idle(), Overtaking()[..k]) == OvertakenAt(k)
  {
    if k > 0 {
      OvertakingPlays(k - 1);
      assert Overtaking()[..k][..k - 1] == Overtaking()[..k - 1];
      hide Do;
    }
  }

  lemma FirstHalf()
    ensures OvertakenAt(4) == Control([Run(1, Completed)], 1, None, map["a" := Some(0)])
  {
    assert OvertakenAt(1) == Control([], 0, Some("a"), map["a" := None]);
    assert OvertakenAt(2) == Control([Run(1, Running)], 1, Some("a"), map["a" := Some(0)]);
    assert OvertakenAt(3) == Control([Run(1, Completed)], 1, Some("a"), map["a" := Some(0)]);
  }

  lemma SecondBuild()
    ensures OvertakenAt(7) == Control([Run(1, Completed), Run(2, Completed)], 2, Some("b"), map["a" := Some(0), "b" := Some(1)])
  {
    FirstHalf();
    AB();
    assert OvertakenAt(5) == Control([Run(1, Completed)], 1, Some("b"), map["a" := Some(0), "b" := None]);
    assert OvertakenAt(6) == Control([Run(1, Completed), Run(2, Running)], 2, Some("b"), map["a" := Some(0), "b" := Some(1)]);
  }

  function Served2(): Control {
    Control([Run(1, Completed), Run(2, Active)], 2, Some("b"), map["a" := Some(0), "b" := Some(1)])
  }

  lemma SecondPublished()
    ensures Do(Control([Run(1, Completed), Run(2, Completed)], 2, Some("b"), map["a" := Some(0), "b" := Some(1)]),
               Publish("b", false, Accepted)) == Served2()
  {
    AB();
    var runs := [Run(1, Completed), Run(2, Completed)];
    assert runs[1 := runs[1].(allowLargeDelta := false)] == runs;
    assert SupersedeActive(runs) == runs;
    assert runs[1 := Run(2, Active)] == [Run(1, Completed), Run(2, Active)];
  }

  lemma SecondReleased()
    ensures Do(Served2(), Release("b")) == Overtaken()
  {
    AB();
    assert map["a" := Some(0), "b" := Some(1)] - {"b"} == map["a" := Some(0)];
  }

  lemma SecondHalf()
    ensures OvertakenAt(9) == Overtaken()
  {
    SecondBuild();
    assert Overtaking()[7] == Publish("b", false, Accepted) && Overtaking()[8] == Release("b");
    assert OvertakenAt(8) == Do(OvertakenAt(7), Overtaking()[7]) && OvertakenAt(9) == Do(OvertakenAt(8), Overtaking()[8]);
    hide Do, OvertakenAt, Overtaken, Served2, Run;
    SecondPublished();
    SecondReleased();
  }

  /** Without that proviso it can: a builder whose lock was lost while it ran on publishes
      its older run over a younger one. */
  lemma LostLockServesBackwards()
    ensures Inv(Idle()) && Exclusive(Idle())
    ensures DoAll(Idle(), Overtaking()) == Overtaken() && Serves(Overtaken(), 2)
    ensures Serves(Do(Overtaken(), Publish("a", false, Accepted)), 1)
  {
    assert Overtaking()[..9] == Overtaking();
    IdleIsSound();
    PublishedBack();
    hide *;
    OvertakingPlays(9);
    SecondHalf();
  }

  lemma IdleIsSound()
    ensures Inv(Idle()) && Exclusive(Idle())
  {}

  lemma PublishedBack()
    ensures Serves(Overtaken(), 2) && Serves(Do(Overtaken(), Publish("a", false, Accepted)), 1)
  {
    assert Overtaken().runs[1].status.Active?;
    var d := Do(Overtaken(), Publish("a", false, Accepted));
    assert d.runs[0].status.Active? && d.runs[0].build == 1;
  }
}
