/** The publish gates as they read the registry, and what they accept. */
module PublishGates {
  import opened Prelude
  import opened Registry
  import opened Invalidation
  import opened PassProperties
  import opened BuildMachine
  import opened BuildRuns
  import opened FinalizeKeys
  import opened GhostRuns
  import opened Activation
  import LinkEdges
  import AliasIndex
  import AliasAggregates
  import AliasEdges

  const ALLOWED_EDGE_TYPES := {
    "imports", "calls", "inherits", "exposes", "tests", "documents", "implements", "mentions",
    "exposed_as", "requests", "defined_in", "uses", "references", "aliases"}

  const EXTRACTOR_ERROR_RATE_THRESHOLD := 0.01
  const SYMBOL_COUNT_DELTA_THRESHOLD := 0.25

  // ------------------------------------------------------- what the gates count

  function ArtifactsOf(db: Db, n: int, kind: ArtifactKind): set<ArtifactId> {
    set a | a in db.artifacts && HasArtifact(db, a, n) && db.artifacts[a].kind == kind
  }

  /** Members whose source is gone or marked deleted. */
  function DanglingAt(db: Db, n: int): set<ArtifactId> {
    set a | a in db.artifacts && HasArtifact(db, a, n) && Dangles(db, a)
  }

  predicate Dangles(db: Db, a: ArtifactId)
    requires a in db.artifacts
  {
    var row := db.artifacts[a];
    row.body.Some? && (row.source !in db.sources || db.sources[row.source].isDeleted)
  }

  function BadTypesAt(db: Db, n: int): set<EdgeId> {
    set e | e in db.edges && HasEdge(db, e, n) && db.edges[e].kind !in ALLOWED_EDGE_TYPES
  }

  /** Member edges with an endpoint that is not a member. */
  function GhostsAt(db: Db, n: int): set<EdgeId> {
    set e | e in db.edges && HasEdge(db, e, n) &&
            !(HasArtifact(db, db.edges[e].from, n) && HasArtifact(db, db.edges[e].to, n))
  }

  function MissingEvidenceAt(db: Db, n: int): set<EdgeId> {
    set e | e in db.edges && HasEdge(db, e, n) && db.edges[e].producer == Linker && db.edges[e].evidence.NoEvidence?
  }

  // ------------------------------------------------------- the gates

  function Rate(part: nat, whole: nat): real {
    if whole == 0 then 0.0 else part as real / whole as real
  }

  function ErrorRateGate(db: Db, runs: Runs, version: string): Option<GateResult> {
    var r, cut := LatestCompleted(runs, version), BuildSeqFor(runs, version);
    if cut.None? then None
    else
      var failures := if r.Some? && r.value < |runs| then runs[r.value].extractorFailures else 0;
      var rate := Rate(failures, |ArtifactsOf(db, cut.value, CodeFile)| + failures);
      Some(GateResult("extractor_error_rate", rate <= EXTRACTOR_ERROR_RATE_THRESHOLD, Some(rate), false))
  }

  function Distance(a: nat, b: nat): nat { if a <= b then b - a else a - b }

  function SymbolDeltaGate(db: Db, runs: Runs, version: string): Option<GateResult> {
    var r, cut, previous := LatestCompleted(runs, version), BuildSeqFor(runs, version), PreviousActive(runs, version);
    if cut.None? then None
    else if previous.None? then Some(GateResult("symbol_count_delta", true, Some(0.0), false))
    else
      var override := r.Some? && r.value < |runs| && runs[r.value].allowLargeDelta;
      var before := |ArtifactsOf(db, previous.value, OtherKind("code_symbol"))|;
      var delta := Rate(Distance(|ArtifactsOf(db, cut.value, OtherKind("code_symbol"))|, before), before);
      Some(GateResult("symbol_count_delta", delta <= SYMBOL_COUNT_DELTA_THRESHOLD || override, Some(delta), false))
  }

  function CountGate(name: string, db: Db, runs: Runs, version: string, count: int -> nat): Option<GateResult> {
    var cut := BuildSeqFor(runs, version);
    if cut.None? then None
    else Some(GateResult(name, count(cut.value) == 0, Some(count(cut.value) as real), false))
  }

  function DanglingGate(db: Db, runs: Runs, version: string): Option<GateResult> {
    CountGate("no_dangling_citations", db, runs, version, n => |DanglingAt(db, n)|)
  }

  function EdgeGate(db: Db, runs: Runs, version: string): Option<GateResult> {
    CountGate("edge_evidence_integrity", db, runs, version, n => |BadTypesAt(db, n)| + |GhostsAt(db, n)|)
  }

  function PrecisionGate(db: Db, runs: Runs, version: string): Option<GateResult> {
    CountGate("relation_precision", db, runs, version, n => |MissingEvidenceAt(db, n)|)
  }

  /** Computed and logged, never enforcing. */
  function RecallGate(db: Db, runs: Runs, version: string): Option<GateResult> {
    if BuildSeqFor(runs, version).None? then None else Some(GateResult("evidence_recall", true, None, true))
  }

  /** Index consistency first, then the registry gates. */
  function Gates(consistent: (Db, string) -> bool): seq<Gate> {
    [(db: Db, runs: Runs, version: string) => Some(GateResult("index_consistency", consistent(db, version), None, false)),
     ErrorRateGate, SymbolDeltaGate, DanglingGate, EdgeGate, PrecisionGate, RecallGate]
  }

  // ------------------------------------------------------- what they accept

  lemma QuotientAtMost(p: real, w: real, t: real)
    requires w > 0.0
    ensures p / w <= t <==> p <= t * w
  {
    var q := p / w;
    assert p == q * w;
    if q <= t { assert (t - q) * w >= 0.0; } else { assert (q - t) * w > 0.0; }
  }

  /** At most one failed file for 99 extracted ones. */
  lemma ErrorRateIff(failures: nat, files: nat)
    ensures Rate(failures, files + failures) <= EXTRACTOR_ERROR_RATE_THRESHOLD <==> 99 * failures <= files
  {
    if files + failures > 0 { QuotientAtMost(failures as real, (files + failures) as real, 0.01); }
  }

  lemma SymbolDeltaIff(part: nat, before: nat)
    ensures Rate(part, before) <= SYMBOL_COUNT_DELTA_THRESHOLD <==> before == 0 || 4 * part <= before
  {
    if before > 0 { QuotientAtMost(part as real, before as real, 0.25); }
  }

  /** What a version must satisfy to be served, row by row: the index agrees; at most one
      code file failed for 99 it has; next to the version served before, unless waived, it
      has between three and five quarters of the symbols; every member with content cites a
      known source that is not deleted; every member edge has one of the listed kinds and
      joins two members; every member edge of the linker has evidence. */
  ghost predicate Publishable(db: Db, runs: Runs, id: nat, consistent: (Db, string) -> bool)
    requires id < |runs|
  {
    var n := runs[id].build;
    && consistent(db, runs[id].version) && FilesFine(db, runs[id]) && SymbolsFine(db, runs, id)
    && CitationsFine(db, n) && EdgesFine(db, n) && EvidenceFine(db, n)
  }

  ghost predicate FilesFine(db: Db, run: BuildRun) {
    99 * run.extractorFailures <= |set a | a in db.artifacts && HasArtifact(db, a, run.build) && db.artifacts[a].kind == CodeFile|
  }

  ghost predicate SymbolsFine(db: Db, runs: Runs, id: nat)
    requires id < |runs|
  {
    var previous := PreviousActive(runs, runs[id].version);
    previous == None || runs[id].allowLargeDelta || SymbolsClose(db, runs[id].build, previous.value)
  }

  ghost predicate CitationsFine(db: Db, n: int) {
    forall a :: HasArtifact(db, a, n) ==> Cites(db, db.artifacts[a])
  }

  ghost predicate EdgesFine(db: Db, n: int) {
    && (forall e :: HasEdge(db, e, n) ==> Listed(db.edges[e].kind))
    && (forall e :: HasEdge(db, e, n) ==> HasArtifact(db, db.edges[e].from, n) && HasArtifact(db, db.edges[e].to, n))
  }

  ghost predicate EvidenceFine(db: Db, n: int) {
    forall e :: HasEdge(db, e, n) && db.edges[e].producer == Linker ==> db.edges[e].evidence != NoEvidence
  }

  /** Content comes with a source that is there. */
  predicate Cites(db: Db, row: Artifact) {
    row.body == None || (row.source in db.sources && !db.sources[row.source].isDeleted)
  }

  predicate Listed(kind: string) {
    kind in {"imports", "calls", "inherits", "exposes", "tests", "documents", "implements", "mentions",
             "exposed_as", "requests", "defined_in", "uses", "references", "aliases"}
  }

  predicate SymbolsClose(db: Db, n: int, previous: int) {
    var symbols := (s: int) => set a | a in db.artifacts && HasArtifact(db, a, s) && db.artifacts[a].kind == OtherKind("code_symbol");
    var now, before := |symbols(n)|, |symbols(previous)|;
    before == 0 || (3 * before <= 4 * now && 4 * now <= 5 * before)
  }

  /** The sets the gates count are empty exactly when all rows are as they should be. */
  lemma CountedNothingIff(db: Db, n: int)
    ensures DanglingAt(db, n) == {} <==> forall a :: HasArtifact(db, a, n) ==> Cites(db, db.artifacts[a])
    ensures BadTypesAt(db, n) == {} <==> forall e :: HasEdge(db, e, n) ==> Listed(db.edges[e].kind)
    ensures GhostsAt(db, n) == {} <==>
      forall e :: HasEdge(db, e, n) ==> HasArtifact(db, db.edges[e].from, n) && HasArtifact(db, db.edges[e].to, n)
    ensures MissingEvidenceAt(db, n) == {} <==>
      forall e :: HasEdge(db, e, n) && db.edges[e].producer == Linker ==> db.edges[e].evidence != NoEvidence
  {
    CitesIff(db, n);
    KindsIff(db, n);
    hide Dangles, Cites, Listed, DanglingAt, BadTypesAt;
    if GhostsAt(db, n) == {} {
      forall e | HasEdge(db, e, n) ensures HasArtifact(db, db.edges[e].from, n) && HasArtifact(db, db.edges[e].to, n) {
        assert e !in GhostsAt(db, n);
      }
    }
    if MissingEvidenceAt(db, n) == {} {
      forall e | HasEdge(db, e, n) && db.edges[e].producer == Linker ensures db.edges[e].evidence != NoEvidence {
        assert e !in MissingEvidenceAt(db, n);
      }
    }
  }

  lemma CitesIff(db: Db, n: int)
    ensures DanglingAt(db, n) == {} <==> forall a :: HasArtifact(db, a, n) ==> Cites(db, db.artifacts[a])
  {
    if DanglingAt(db, n) == {} {
      forall a | HasArtifact(db, a, n) ensures Cites(db, db.artifacts[a]) { assert a !in DanglingAt(db, n); }
    }
  }

  lemma KindsIff(db: Db, n: int)
    ensures BadTypesAt(db, n) == {} <==> forall e :: HasEdge(db, e, n) ==> Listed(db.edges[e].kind)
  {
    forall kind: string ensures kind in ALLOWED_EDGE_TYPES <==> Listed(kind) {}
    hide Listed;
    if BadTypesAt(db, n) == {} {
      forall e | HasEdge(db, e, n) ensures Listed(db.edges[e].kind) { assert e !in BadTypesAt(db, n); }
    }
  }

  /** The composed hook accepts a run, where no younger completed run shares its label,
      exactly when its own version is publishable. */
  lemma GatesAcceptIff(db: Db, runs: Runs, id: nat, consistent: (Db, string) -> bool)
    requires id < |runs| && runs[id].status.Completed? && DistinctBuilds(runs)
    requires BuildSeqFor(runs, runs[id].version) == Some(runs[id].build)
    ensures VerdictOf(Gates(consistent), db, runs, runs[id].version).Accepted? <==> Publishable(db, runs, id, consistent)
    ensures !VerdictOf(Gates(consistent), db, runs, runs[id].version).Raised?
  {
    var version := runs[id].version;
    LatestIsLatest(runs, version);
    assert LatestCompleted(runs, version) == Some(id) by {
      SameBuildSameRun(runs, id, LatestCompleted(runs, version).value);
    }
    GatesIff(db, runs, id);
    var gates := Gates(consistent);
    hide ErrorRateGate, SymbolDeltaGate, DanglingGate, EdgeGate, PrecisionGate, VerdictOf, LatestCompleted;
    VerdictUnrolls(gates, db, runs, version);
    assert gates[0](db, runs, version) == Some(GateResult("index_consistency", consistent(db, version), None, false));
    assert gates[1] == ErrorRateGate && gates[2] == SymbolDeltaGate && gates[3] == DanglingGate;
    assert gates[4] == EdgeGate && gates[5] == PrecisionGate && gates[6] == RecallGate;
    hide FilesFine, SymbolsFine, CitationsFine, EdgesFine, EvidenceFine;
  }

  /** Gate by gate. */
  lemma GatesIff(db: Db, runs: Runs, id: nat)
    requires UnderGate(runs, id)
    ensures var version, n := runs[id].version, runs[id].build;
      && ErrorRateGate(db, runs, version).Some? && (Blocks(ErrorRateGate(db, runs, version)) <==> !FilesFine(db, runs[id]))
      && SymbolDeltaGate(db, runs, version).Some? && (Blocks(SymbolDeltaGate(db, runs, version)) <==> !SymbolsFine(db, runs, id))
      && DanglingGate(db, runs, version).Some? && (Blocks(DanglingGate(db, runs, version)) <==> !CitationsFine(db, n))
      && EdgeGate(db, runs, version).Some? && (Blocks(EdgeGate(db, runs, version)) <==> !EdgesFine(db, n))
      && PrecisionGate(db, runs, version).Some? && (Blocks(PrecisionGate(db, runs, version)) <==> !EvidenceFine(db, n))
      && RecallGate(db, runs, version).Some? && !Blocks(RecallGate(db, runs, version))
  {
    ErrorGateIff(db, runs, id);
    SymbolGateIff(db, runs, id);
    CountGatesIff(db, runs, id);
    CountedNothingIff(db, runs[id].build);
    assert ArtifactsOf(db, runs[id].build, CodeFile) ==
      set a | a in db.artifacts && HasArtifact(db, a, runs[id].build) && db.artifacts[a].kind == CodeFile;
    hide ErrorRateGate, SymbolDeltaGate, DanglingGate, EdgeGate, PrecisionGate, RecallGate, LatestCompleted, Blocks;
    hide SymbolsClose, ArtifactsOf, DanglingAt, BadTypesAt, GhostsAt, MissingEvidenceAt, PreviousActive, Cites, Listed;
  }

  /** What the gates report: their names, and what the failing count is a count of. */
  lemma GatesAreNamed(db: Db, runs: Runs, id: nat)
    requires UnderGate(runs, id)
    ensures var version, n := runs[id].version, runs[id].build;
      && (var g := ErrorRateGate(db, runs, version); g.Some? && g.value.name == "extractor_error_rate")
      && (var g := SymbolDeltaGate(db, runs, version); g.Some? && g.value.name == "symbol_count_delta")
      && (var g := DanglingGate(db, runs, version);
          g.Some? && g.value.name == "no_dangling_citations" &&
          g.value.measured == Some(|set a | a in db.artifacts && HasArtifact(db, a, n) && !Cites(db, db.artifacts[a])| as real))
      && (var g := EdgeGate(db, runs, version);
          g.Some? && g.value.name == "edge_evidence_integrity" &&
          g.value.measured ==
            Some((|set e | e in db.edges && HasEdge(db, e, n) && !Listed(db.edges[e].kind)| +
                  |set e | e in db.edges && HasEdge(db, e, n) &&
                           !(HasArtifact(db, db.edges[e].from, n) && HasArtifact(db, db.edges[e].to, n))|) as real))
      && (var g := PrecisionGate(db, runs, version);
          g.Some? && g.value.name == "relation_precision" &&
          g.value.measured ==
            Some(|set e | e in db.edges && HasEdge(db, e, n) && db.edges[e].producer == Linker && db.edges[e].evidence == NoEvidence| as real))
  {
    var n := runs[id].build;
    assert DanglingAt(db, n) == set a | a in db.artifacts && HasArtifact(db, a, n) && !Cites(db, db.artifacts[a]);
    assert BadTypesAt(db, n) == set e | e in db.edges && HasEdge(db, e, n) && !Listed(db.edges[e].kind);
    assert MissingEvidenceAt(db, n) ==
      set e | e in db.edges && HasEdge(db, e, n) && db.edges[e].producer == Linker && db.edges[e].evidence == NoEvidence;
    hide LatestCompleted, DanglingAt, BadTypesAt, MissingEvidenceAt, Cites, Listed, ArtifactsOf, PreviousActive;
  }

  ghost predicate Names(v: Verdict, name: string) { v.Rejected? && v.gate.name == name }

  /** The first condition that fails gives the rejection its name. */
  lemma RejectionIsNamed(db: Db, runs: Runs, id: nat, consistent: (Db, string) -> bool)
    requires id < |runs| && runs[id].status.Completed? && DistinctBuilds(runs)
    requires BuildSeqFor(runs, runs[id].version) == Some(runs[id].build)
    ensures var v, n := VerdictOf(Gates(consistent), db, runs, runs[id].version), runs[id].build;
      if !consistent(db, runs[id].version) then Names(v, "index_consistency")
      else if !FilesFine(db, runs[id]) then Names(v, "extractor_error_rate")
      else if !SymbolsFine(db, runs, id) then Names(v, "symbol_count_delta")
      else if !CitationsFine(db, n) then Names(v, "no_dangling_citations")
      else if !EdgesFine(db, n) then Names(v, "edge_evidence_integrity")
      else if !EvidenceFine(db, n) then Names(v, "relation_precision")
      else v == Accepted
  {
    var version, gates := runs[id].version, Gates(consistent);
    LatestIsLatest(runs, version);
    assert LatestCompleted(runs, version) == Some(id) by {
      SameBuildSameRun(runs, id, LatestCompleted(runs, version).value);
    }
    GatesIff(db, runs, id);
    GatesAreNamed(db, runs, id);
    hide ErrorRateGate, SymbolDeltaGate, DanglingGate, EdgeGate, PrecisionGate, RecallGate, VerdictOf, LatestCompleted;
    hide FilesFine, SymbolsFine, CitationsFine, EdgesFine, EvidenceFine, Cites, Listed;
    assert gates[0](db, runs, version) == Some(GateResult("index_consistency", consistent(db, version), None, false));
    assert gates[1] == ErrorRateGate && gates[2] == SymbolDeltaGate && gates[3] == DanglingGate;
    assert gates[4] == EdgeGate && gates[5] == PrecisionGate && gates[6] == RecallGate;
    hide Gates;
    var k := FirstBlocking(gates, db, runs, version);
    VerdictIs(gates, db, runs, version, k);
  }

  lemma FirstBlocking(gates: seq<Gate>, db: Db, runs: Runs, version: string) returns (k: nat)
    ensures k <= |gates|
    ensures forall j :: 0 <= j < k ==> gates[j](db, runs, version).Some? && !Blocks(gates[j](db, runs, version))
    ensures k < |gates| ==> gates[k](db, runs, version).None? || Blocks(gates[k](db, runs, version))
  {
    k := 0;
    while k < |gates| && gates[k](db, runs, version).Some? && !Blocks(gates[k](db, runs, version))
      invariant k <= |gates|
      invariant forall j :: 0 <= j < k ==> gates[j](db, runs, version).Some? && !Blocks(gates[j](db, runs, version))
    {
      k := k + 1;
    }
  }

  ghost predicate UnderGate(runs: Runs, id: nat) {
    id < |runs| && LatestCompleted(runs, runs[id].version) == Some(id)
  }

  lemma ErrorGateIff(db: Db, runs: Runs, id: nat)
    requires UnderGate(runs, id)
    ensures var g := ErrorRateGate(db, runs, runs[id].version);
      g.Some? && (Blocks(g) <==> 99 * runs[id].extractorFailures > |ArtifactsOf(db, runs[id].build, CodeFile)|)
  {
    ErrorRateIff(runs[id].extractorFailures, |ArtifactsOf(db, runs[id].build, CodeFile)|);
    hide LatestCompleted, ArtifactsOf, Rate;
  }

  lemma SymbolGateIff(db: Db, runs: Runs, id: nat)
    requires UnderGate(runs, id)
    ensures var g, previous := SymbolDeltaGate(db, runs, runs[id].version), PreviousActive(runs, runs[id].version);
      g.Some? && (Blocks(g) <==> previous.Some? && !runs[id].allowLargeDelta && !SymbolsClose(db, runs[id].build, previous.value))
  {
    var previous := PreviousActive(runs, runs[id].version);
    if previous.Some? {
      var now, before := |ArtifactsOf(db, runs[id].build, OtherKind("code_symbol"))|, |ArtifactsOf(db, previous.value, OtherKind("code_symbol"))|;
      SymbolDeltaIff(Distance(now, before), before);
      SymbolsCloseIff(db, runs[id].build, previous.value);
    }
    hide LatestCompleted, ArtifactsOf, Rate, PreviousActive, Distance, SymbolsClose;
  }

  lemma SymbolsCloseIff(db: Db, n: int, previous: int)
    ensures var now, before := |ArtifactsOf(db, n, OtherKind("code_symbol"))|, |ArtifactsOf(db, previous, OtherKind("code_symbol"))|;
      SymbolsClose(db, n, previous) <==> before == 0 || 4 * Distance(now, before) <= before
  {
    var symbols := (s: int) => set a | a in db.artifacts && HasArtifact(db, a, s) && db.artifacts[a].kind == OtherKind("code_symbol");
    assert symbols(n) == ArtifactsOf(db, n, OtherKind("code_symbol")) && symbols(previous) == ArtifactsOf(db, previous, OtherKind("code_symbol"));
  }

  lemma CountGatesIff(db: Db, runs: Runs, id: nat)
    requires UnderGate(runs, id)
    ensures var version, n := runs[id].version, runs[id].build;
      && DanglingGate(db, runs, version).Some? && (Blocks(DanglingGate(db, runs, version)) <==> DanglingAt(db, n) != {})
      && EdgeGate(db, runs, version).Some? && (Blocks(EdgeGate(db, runs, version)) <==> BadTypesAt(db, n) != {} || GhostsAt(db, n) != {})
      && PrecisionGate(db, runs, version).Some? && (Blocks(PrecisionGate(db, runs, version)) <==> MissingEvidenceAt(db, n) != {})
      && RecallGate(db, runs, version).Some? && !Blocks(RecallGate(db, runs, version))
  {
    hide LatestCompleted, DanglingAt, BadTypesAt, GhostsAt, MissingEvidenceAt;
  }

  lemma SameBuildSameRun(runs: Runs, j: nat, k: nat)
    requires j < |runs| && k < |runs| && DistinctBuilds(runs) && runs[j].build == runs[k].build
    ensures j == k
  {}

  predicate Blocks(g: Option<GateResult>) {
    g.Some? && !g.value.skipped && !g.value.passed
  }

  lemma {:induction false} VerdictUnrolls(gates: seq<Gate>, db: Db, runs: Runs, version: string)
    requires forall k :: 0 <= k < |gates| ==> gates[k](db, runs, version).Some?
    ensures VerdictOf(gates, db, runs, version).Accepted? <==> forall k :: 0 <= k < |gates| ==> !Blocks(gates[k](db, runs, version))
    ensures !VerdictOf(gates, db, runs, version).Raised?
  {
    if gates != [] {
      var rest := gates[1..];
      forall k | 0 <= k < |rest| ensures rest[k] == gates[k + 1] {}
      VerdictUnrolls(rest, db, runs, version);
      if !Blocks(gates[0](db, runs, version)) {
        forall k | 0 < k < |gates| ensures gates[k] == rest[k - 1] {}
      }
    }
  }

  // ------------------------------------------------------- the gates at the build's own sequence

  /** At its own sequence number a version's members are the live rows. */
  lemma MembersAreLive(db: Db, n: int)
    requires Sequenced(db, n)
    ensures forall a :: HasArtifact(db, a, n) <==> LiveArtifact(db, a)
    ensures forall e :: HasEdge(db, e, n) <==> LiveEdge(db, e)
  {
    forall a | a in db.artifacts ensures HasArtifact(db, a, n) <==> LiveArtifact(db, a) {
      assert InOrder(db.artifacts[a].validFrom, db.artifacts[a].gone, n);
    }
    forall e | e in db.edges ensures HasEdge(db, e, n) <==> LiveEdge(db, e) {
      assert InOrder(db.edges[e].validFrom, db.edges[e].gone, n);
    }
  }

  /** So the ghost-endpoint count of the gate is the number of ghost edges. */
  lemma GateCountsGhosts(db: Db, n: int)
    requires Sequenced(db, n)
    ensures GhostsAt(db, n) == Ghosts(db)
    ensures GhostFree(db) ==> GhostsAt(db, n) == {}
  {
    MembersAreLive(db, n);
  }

  /** A finalize passes the ghost half of the edge gate exactly when it strands nothing. */
  lemma FinalizePassesGhostGateIff(db: Db, f: FinalizeInput, rules: AliasIndex.Rules, n: int)
    requires LegalFinalize(db, f, rules, n) && Sequenced(db, n) && NothingLeft(db, n) && SoundIndex(db.artifacts, rules.mine)
    requires AliasAggregates.TidyMiner(rules.mine) && AliasAggregates.IsRanking(rules.rank) && KeysSound(db)
    ensures GhostsAt(Finalized(db, f, rules, n), n) == {} <==> StrandsNothing(db, f, rules, n)
  {
    FinalizeGhostFreeIff(db, f, rules, n);
    FinalizeStamps(db, f, rules, n);
    StampedIsSequenced(db, Finalized(db, f, rules, n), n);
    var fin := Finalized(db, f, rules, n);
    hide *;
    GateCountsGhosts(fin, n);
    NoGhostsIsGhostFree(fin);
  }

  lemma NoGhostsIsGhostFree(db: Db)
    ensures Ghosts(db) == {} <==> GhostFree(db)
  {
    if Ghosts(db) == {} {
      forall e ensures !Ghost(db, e) { assert e !in Ghosts(db); }
    }
  }

  // ------------------------------------------------------- the kinds of edges

  /** An edge of this kind was there, or linker or judge drafted one. */
  ghost predicate KindKnown(db: Db, f: FinalizeInput, kind: string) {
    (exists e :: e in db.edges && db.edges[e].kind == kind) || KindDrafted(f, kind)
  }

  ghost predicate KindDrafted(f: FinalizeInput, kind: string) {
    (exists d :: d in f.linker.drafts && d.kind == kind) || (f.judge.Some? && exists d :: d in f.judge.value.drafts && d.kind == kind)
  }

  /** A reconcile gives rows the kinds they had or the kinds of drafts. */
  lemma LinkedKinds(db: Db, b: LinkEdges.LinkBatch, n: int, e: EdgeId)
    requires LinkEdges.LegalBatch(db, b) && e in LinkEdges.Linked(db, b, n).edges
    ensures var kind := LinkEdges.Linked(db, b, n).edges[e].kind;
      (e in db.edges && db.edges[e].kind == kind) || exists d :: d in b.drafts && d.kind == kind
  {
    if e in db.edges { LinkEdges.LinkedRow(db, b, n, e); } else { LinkEdges.LinkedInsert(db, b, n, e); }
    hide LinkEdges.Linked, LinkEdges.Stale;
  }

  lemma LinksKinds(db: Db, f: FinalizeInput, n: int, e: EdgeId)
    requires LegalLinks(db, f, n) && e in AfterLinks(db, f, n).edges
    ensures KindKnown(db, f, AfterLinks(db, f, n).edges[e].kind)
  {
    var mid := LinkEdges.Linked(db, f.linker, n);
    hide LinkEdges.Linked, LinkEdges.LegalBatch, DraftsExist;
    if f.judge.Some? { LinkedKinds(mid, f.judge.value, n, e); }
    if e in mid.edges { LinkedKinds(db, f.linker, n, e); }
  }

  lemma PassKinds(db: Db, n: int, x: Effect, d: Db, e: EdgeId)
    requires Applied(db, n, x, d) && e in d.edges
    ensures e in db.edges && d.edges[e].kind == db.edges[e].kind
  {
    assert EdgesApplied(db, n, x, d);
  }

  /** A finalize invents no kind of edge: those it leaves were there, were drafted, or are
      the miner's own.  So the gate's list of kinds blocks a build only for a kind that was in
      the registry or that linker, judge or graphify wrote. */
  lemma FinalizeKeepsKinds(db: Db, f: FinalizeInput, rules: AliasIndex.Rules, n: int, e: EdgeId)
    requires LegalFinalize(db, f, rules, n) && e in Finalized(db, f, rules, n).edges
    ensures var kind := Finalized(db, f, rules, n).edges[e].kind; KindKnown(db, f, kind) || kind == "aliases"
  {
    var b, c, d, fin := AfterLinks(db, f, n), AfterPass(db, f, n), AfterAlias(db, f, rules, n), Finalized(db, f, rules, n);
    assert fin.edges == d.edges && d == AliasIndex.AliasStage(c, f.alias, f.choice, rules, n);
    assert c == InvalidationPass(b, n, f.pass);
    StageEdgeKept(c, f.alias, f.choice, rules, n, e);
    PassApplies(b, n, f.pass);
    hide *;
    if AliasEdges.Owned(d.edges[e]) {
      OwnedKind(d.edges[e]);
    } else {
      PassKinds(b, n, EffectOf(b, n, f.pass), c, e);
      LinksKinds(db, f, n, e);
    }
  }

  lemma OwnedKind(e: Edge)
    requires AliasEdges.Owned(e)
    ensures e.kind == "aliases"
  {}

  /** From a registry of listed kinds with drafts of listed kinds, a finalize leaves only
      listed kinds. */
  lemma FinalizeKeepsListed(db: Db, f: FinalizeInput, rules: AliasIndex.Rules, n: int)
    requires LegalFinalize(db, f, rules, n)
    requires forall e :: e in db.edges ==> Listed(db.edges[e].kind)
    requires forall kind :: KindDrafted(f, kind) ==> Listed(kind)
    ensures forall e :: e in Finalized(db, f, rules, n).edges ==> Listed(Finalized(db, f, rules, n).edges[e].kind)
  {
    assert Listed("aliases");
    hide *;
    forall e | e in Finalized(db, f, rules, n).edges ensures Listed(Finalized(db, f, rules, n).edges[e].kind) {
      FinalizeKeepsKinds(db, f, rules, n, e);
      KnownIsListed(db, f, Finalized(db, f, rules, n).edges[e].kind);
    }
  }

  lemma KnownIsListed(db: Db, f: FinalizeInput, kind: string)
    requires forall e :: e in db.edges ==> Listed(db.edges[e].kind)
    requires forall kind :: KindDrafted(f, kind) ==> Listed(kind)
    ensures KindKnown(db, f, kind) ==> Listed(kind)
  {
    hide Listed, KindDrafted;
  }

  // ------------------------------------------------------- citations

  /** Live rows with content whose source is gone. */
  predicate LiveDangling(db: Db, a: ArtifactId) {
    LiveArtifact(db, a) && Dangles(db, a)
  }

  lemma EffectDangling(db: Db, n: int, x: Effect, d: Db, left: set<ArtifactId>, a: ArtifactId)
    requires Sound(db, n, x) && Applied(db, n, x, d) && !LiveDangling(db, a)
    requires forall b :: b in left <==> b in LiveOf(d, x.vanished)
    requires forall s :: s in x.vanished ==> s in db.sources
    ensures LiveDangling(d, a) <==> a in left && a in d.artifacts && d.artifacts[a].body.Some?
  {
    if a in db.artifacts {
      EffectLive(db, n, x, d, a);
      assert RowAfter(db.artifacts[a], d.artifacts[a], a in x.Retired(), n);
    }
  }

  /** From a registry without dangling citations, the pass leaves exactly those of the
      leftovers of partially renamed sources: such a source blocks its own build. */
  lemma PassDangling(db: Db, n: int, i: PassInput, a: ArtifactId)
    requires LegalInput(db, n, i) && i.changed <= i.seen && !LiveDangling(db, a)
    ensures LiveDangling(InvalidationPass(db, n, i), a) <==>
      a in Leftovers(db, n, i) && a in InvalidationPass(db, n, i).artifacts && InvalidationPass(db, n, i).artifacts[a].body.Some?
  {
    PassApplies(db, n, i);
    VanishedSourcesKeepLeftovers(db, n, i);
    var x := EffectOf(db, n, i);
    assert x.vanished == Vanished(db, i.seen, i.startedAt);
    assert forall s :: s in x.vanished ==> s in db.sources;
    hide *;
    EffectDangling(db, n, x, InvalidationPass(db, n, i), Leftovers(db, n, i), a);
  }
}
