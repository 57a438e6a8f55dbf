/** From contributions to the desired alias rows and edges. */
module AliasAggregates {
  import opened Prelude
  import opened Registry
  import opened AliasReplay
  import AliasRows
  import opened AliasEdges

  const MAX_BODY_TARGETS: nat := 50
  const MAX_EDGE_TARGETS: nat := 20

  datatype Ranked = Ranked(path: string, count: nat)

  datatype Aggregate = Aggregate(phrase: string, confirmations: nat, targets: seq<Ranked>, evidence: seq<EvidenceEntry>)

  /** The rank order of an aggregate's paths; any order of the counted paths will do. */
  type Ranker = (string, map<string, nat>) -> seq<string>

  ghost predicate IsRanking(rank: Ranker) {
    forall phrase, counts, p :: p in rank(phrase, counts) ==> p in counts
  }

  function Min(a: nat, b: nat): nat { if a <= b then a else b }

  /** How often the entries name `path`. */
  function CountOf(evidence: seq<EvidenceEntry>, path: string): nat {
    if evidence == [] then 0
    else
      var e := evidence[|evidence| - 1];
      CountOf(evidence[..|evidence| - 1], path) + (if e.Mined? then multiset(e.targets)[path] else 0)
  }

  function Paths(evidence: seq<EvidenceEntry>): set<string> {
    set e, p | e in evidence && e.Mined? && p in e.targets :: p
  }

  function Counts(evidence: seq<EvidenceEntry>): map<string, nat> {
    map p | p in Paths(evidence) :: CountOf(evidence, p)
  }

  /** Each source names a path at most once per phrase. */
  ghost predicate TargetsDistinct(evidence: seq<EvidenceEntry>) {
    forall e, p :: e in evidence && e.Mined? && p in e.targets ==> multiset(e.targets)[p] == 1
  }

  lemma {:induction false} CountBounds(evidence: seq<EvidenceEntry>, path: string)
    requires TargetsDistinct(evidence)
    ensures CountOf(evidence, path) <= |evidence|
    ensures path in Paths(evidence) ==> CountOf(evidence, path) >= 1
  {
    if evidence != [] {
      var rest, e := evidence[..|evidence| - 1], evidence[|evidence| - 1];
      assert evidence == rest + [e];
      CountBounds(rest, path);
      if e.Mined? {
        assert path in e.targets ==> multiset(e.targets)[path] == 1;
        assert path !in e.targets ==> multiset(e.targets)[path] == 0;
      }
      if path in Paths(evidence) && !(e.Mined? && path in e.targets) {
        var f :| f in evidence && f.Mined? && path in f.targets;
        assert f in rest;
      }
    }
  }

  function AggregateOf(cs: seq<Contribution>, phrase: string, rank: Ranker): Aggregate {
    var evidence := Evidence(cs, phrase);
    var counts := Counts(evidence);
    var ranked := rank(phrase, counts);
    var top := ranked[..Min(|ranked|, MAX_BODY_TARGETS)];
    Aggregate(phrase, |evidence|,
              seq(|top|, i requires 0 <= i < |top| => Ranked(top[i], if top[i] in counts then counts[top[i]] else 0)),
              evidence)
  }

  function Aggregates(cs: seq<Contribution>, phraseOrder: seq<string>, rank: Ranker): seq<Aggregate> {
    seq(|phraseOrder|, i requires 0 <= i < |phraseOrder| => AggregateOf(cs, phraseOrder[i], rank))
  }

  function PhrasesOf(cs: seq<Contribution>): set<string> {
    set c, t | c in cs && t in c.phrases :: t
  }

  /** Every mined target list is free of repetitions. */
  ghost predicate TidyMiner(mine: Miner) {
    forall key, hash, t, p :: t in mine(key, hash) && p in mine(key, hash)[t] ==> multiset(mine(key, hash)[t])[p] == 1
  }

  lemma EvidenceIsTidy(inputs: seq<MiningInput>, mine: Miner, phrase: string)
    requires TidyMiner(mine)
    ensures TargetsDistinct(Evidence(FreshContributions(inputs, mine), phrase))
  {
    var cs := FreshContributions(inputs, mine);
    forall e, p | e in Evidence(cs, phrase) && e.Mined? && p in e.targets ensures multiset(e.targets)[p] == 1 {
      EvidenceFromContribution(cs, phrase, e);
      var c :| c in cs && phrase in c.phrases && e == Mined(c.key, c.ref, c.hash, c.phrases[phrase]);
      assert c.phrases == mine(c.key, c.hash);
    }
  }

  /** Each ranked target is confirmed by at least one and at most all sources. */
  lemma TargetsAreConfirmed(inputs: seq<MiningInput>, mine: Miner, phrase: string, rank: Ranker, r: Ranked)
    requires TidyMiner(mine) && IsRanking(rank)
    requires r in AggregateOf(FreshContributions(inputs, mine), phrase, rank).targets
    ensures 1 <= r.count <= AggregateOf(FreshContributions(inputs, mine), phrase, rank).confirmations
  {
    var cs := FreshContributions(inputs, mine);
    EvidenceIsTidy(inputs, mine, phrase);
    CountBounds(Evidence(cs, phrase), r.path);
    var agg := AggregateOf(cs, phrase, rank);
    var i :| 0 <= i < |agg.targets| && agg.targets[i] == r;
    assert r.path in rank(phrase, Counts(Evidence(cs, phrase)));
  }

  // ------------------------------------------------------- desired rows

  function TargetRefs(targets: seq<Ranked>, paths: map<string, ArtifactId>): seq<TargetRef> {
    seq(|targets|, i requires 0 <= i < |targets| =>
      TargetRef(targets[i].path, if targets[i].path in paths then Some(paths[targets[i].path]) else None, targets[i].count))
  }

  function PathList(targets: seq<Ranked>): seq<string> {
    seq(|targets|, i requires 0 <= i < |targets| => targets[i].path)
  }

  /** Anchor: the first contributing source, if it is a live input. */
  function AnchorOf(agg: Aggregate, anchors: map<string, SourceId>): Option<SourceId> {
    if agg.evidence != [] && agg.evidence[0].Mined? && agg.evidence[0].source in anchors
    then Some(anchors[agg.evidence[0].source]) else None
  }

  function DesiredRow(agg: Aggregate, anchors: map<string, SourceId>, paths: map<string, ArtifactId>, acl: seq<string> -> Acl): AliasRows.Desired {
    AliasRows.Desired(agg.phrase,
      AliasBody(agg.phrase, agg.confirmations, BuildMined, TargetRefs(agg.targets, paths), agg.evidence),
      acl(PathList(agg.targets)), AnchorOf(agg, anchors))
  }

  function DesiredRows(aggs: seq<Aggregate>, anchors: map<string, SourceId>, paths: map<string, ArtifactId>, acl: seq<string> -> Acl): seq<AliasRows.Desired> {
    seq(|aggs|, i requires 0 <= i < |aggs| => DesiredRow(aggs[i], anchors, paths, acl))
  }

  function Anchors(inputs: seq<MiningInput>): map<string, SourceId> {
    if inputs == [] then map[]
    else Anchors(inputs[..|inputs| - 1])[inputs[|inputs| - 1].key := inputs[|inputs| - 1].anchor]
  }

  lemma {:induction false} AnchorsCover(inputs: seq<MiningInput>, i: MiningInput)
    requires i in inputs
    ensures i.key in Anchors(inputs)
  {
    assert inputs == inputs[..|inputs| - 1] + [inputs[|inputs| - 1]];
    if i != inputs[|inputs| - 1] { AnchorsCover(inputs[..|inputs| - 1], i); }
  }

  /** The branch for a missing anchor is dead: a phrase some source yields always
      has evidence, and its first entry names a live input. */
  lemma AnchorAlwaysFound(inputs: seq<MiningInput>, mine: Miner, phrase: string, rank: Ranker)
    requires phrase in PhrasesOf(FreshContributions(inputs, mine))
    ensures AnchorOf(AggregateOf(FreshContributions(inputs, mine), phrase, rank), Anchors(inputs)).Some?
  {
    var cs := FreshContributions(inputs, mine);
    var c :| c in cs && phrase in c.phrases;
    var e := Mined(c.key, c.ref, c.hash, c.phrases[phrase]);
    EvidenceFromContribution(cs, phrase, e);
    var evidence := Evidence(cs, phrase);
    assert evidence[0] in evidence;
    EvidenceFromContribution(cs, phrase, evidence[0]);
    var c0 :| c0 in cs && phrase in c0.phrases && evidence[0] == Mined(c0.key, c0.ref, c0.hash, c0.phrases[phrase]);
    var k :| 0 <= k < |cs| && cs[k] == c0;
    AnchorsCover(inputs, inputs[k]);
  }

  // ------------------------------------------------------- desired edges

  function RefsOf(evidence: seq<EvidenceEntry>, path: string): multiset<string> {
    if evidence == [] then multiset{}
    else
      var e := evidence[|evidence| - 1];
      RefsOf(evidence[..|evidence| - 1], path) + (if e.Mined? && path in e.targets then multiset{e.ref} else multiset{})
  }

  function ConfidenceOf(agg: Aggregate, r: Ranked): real {
    if agg.confirmations == 0 then 0.0 else r.count as real / agg.confirmations as real
  }

  lemma ConfidenceIs(agg: Aggregate, r: Ranked)
    ensures EdgeFacts(agg, r).confidence == ConfidenceOf(agg, r)
  {}

  function EdgeFacts(agg: Aggregate, r: Ranked): Facts {
    Facts(ConfidenceOf(agg, r),
          AliasPointer(agg.phrase, r.path, RefsOf(agg.evidence, r.path)))
  }

  /** Resolved targets of one alias among the first `k` ranked. */
  function EdgesOf(agg: Aggregate, alias: ArtifactId, paths: map<string, ArtifactId>, k: nat): map<Pair, Facts>
    requires k <= |agg.targets|
  {
    if k == 0 then map[]
    else
      var r := agg.targets[k - 1];
      var m := EdgesOf(agg, alias, paths, k - 1);
      if r.path in paths then m[Pair(alias, paths[r.path]) := EdgeFacts(agg, r)] else m
  }

  function DesiredEdges(aggs: seq<Aggregate>, aliasIds: map<string, ArtifactId>, paths: map<string, ArtifactId>): map<Pair, Facts> {
    if aggs == [] then map[]
    else
      var agg := aggs[|aggs| - 1];
      var m := DesiredEdges(aggs[..|aggs| - 1], aliasIds, paths);
      if agg.phrase in aliasIds
      then m + EdgesOf(agg, aliasIds[agg.phrase], paths, Min(|agg.targets|, MAX_EDGE_TARGETS))
      else m
  }

  /** `p` comes from a ranked target of the aggregate. */
  ghost predicate FromTarget(agg: Aggregate, alias: ArtifactId, paths: map<string, ArtifactId>, p: Pair, f: Facts) {
    exists r :: r in agg.targets && r.path in paths && p == Pair(alias, paths[r.path]) && f == EdgeFacts(agg, r)
  }

  lemma {:induction false} EdgesComeFromTargets(agg: Aggregate, alias: ArtifactId, paths: map<string, ArtifactId>, k: nat, p: Pair)
    requires k <= |agg.targets| && p in EdgesOf(agg, alias, paths, k)
    ensures FromTarget(agg, alias, paths, p, EdgesOf(agg, alias, paths, k)[p])
  {
    var r := agg.targets[k - 1];
    if r.path in paths && p == Pair(alias, paths[r.path]) {
      assert r in agg.targets;
    } else {
      EdgesComeFromTargets(agg, alias, paths, k - 1, p);
    }
  }

  ghost predicate FromAggregate(aggs: seq<Aggregate>, aliasIds: map<string, ArtifactId>, paths: map<string, ArtifactId>, p: Pair, f: Facts) {
    exists agg :: agg in aggs && agg.phrase in aliasIds && FromTarget(agg, aliasIds[agg.phrase], paths, p, f)
  }

  lemma {:induction false} DesiredComeFromAggregates(aggs: seq<Aggregate>, aliasIds: map<string, ArtifactId>,
                                                     paths: map<string, ArtifactId>, p: Pair)
    requires p in DesiredEdges(aggs, aliasIds, paths)
    ensures FromAggregate(aggs, aliasIds, paths, p, DesiredEdges(aggs, aliasIds, paths)[p])
  {
    var rest, agg := aggs[..|aggs| - 1], aggs[|aggs| - 1];
    assert aggs == rest + [agg];
    var k := Min(|agg.targets|, MAX_EDGE_TARGETS);
    if agg.phrase in aliasIds && p in EdgesOf(agg, aliasIds[agg.phrase], paths, k) {
      EdgesComeFromTargets(agg, aliasIds[agg.phrase], paths, k, p);
      assert agg in aggs;
    } else {
      DesiredComeFromAggregates(rest, aliasIds, paths, p);
      var a :| a in rest && a.phrase in aliasIds &&
        FromTarget(a, aliasIds[a.phrase], paths, p, DesiredEdges(rest, aliasIds, paths)[p]);
      assert a in aggs;
    }
  }

  /** Every desired edge joins an alias row of this build to a resolved target,
      with confidence in (0, 1]. */
  lemma DesiredEdgesAreSound(inputs: seq<MiningInput>, mine: Miner, phraseOrder: seq<string>, rank: Ranker,
                             aliasIds: map<string, ArtifactId>, paths: map<string, ArtifactId>, p: Pair)
    requires TidyMiner(mine) && IsRanking(rank)
    requires p in DesiredEdges(Aggregates(FreshContributions(inputs, mine), phraseOrder, rank), aliasIds, paths)
    ensures p.alias in aliasIds.Values && p.target in paths.Values
    ensures 0.0 < DesiredEdges(Aggregates(FreshContributions(inputs, mine), phraseOrder, rank), aliasIds, paths)[p].confidence <= 1.0
  {
    var cs := FreshContributions(inputs, mine);
    var aggs := Aggregates(cs, phraseOrder, rank);
    DesiredComeFromAggregates(aggs, aliasIds, paths, p);
    var f := DesiredEdges(aggs, aliasIds, paths)[p];
    hide DesiredEdges, AggregateOf, EdgeFacts, FreshContributions, TidyMiner, IsRanking;
    var agg :| agg in aggs && agg.phrase in aliasIds && FromTarget(agg, aliasIds[agg.phrase], paths, p, f);
    var r :| r in agg.targets && r.path in paths && p == Pair(aliasIds[agg.phrase], paths[r.path]) && f == EdgeFacts(agg, r);
    var i :| 0 <= i < |aggs| && aggs[i] == agg;
    assert agg == AggregateOf(cs, phraseOrder[i], rank);
    hide Aggregates, FromTarget;
    assert f.confidence == ConfidenceOf(agg, r) by { ConfidenceIs(agg, r); }
    TargetsAreConfirmed(inputs, mine, phraseOrder[i], rank, r);
    RatioInUnit(r.count, agg.confirmations);
  }

  lemma RatioInUnit(a: nat, b: nat)
    requires 1 <= a <= b
    ensures 0.0 < a as real / b as real <= 1.0
  {}

  // ------------------------------------------------------- the loops

  function Get(counts: map<string, nat>, p: string): nat {
    if p in counts then counts[p] else 0
  }

  method AddTargets(counts: map<string, nat>, targets: seq<string>) returns (r: map<string, nat>)
    ensures r.Keys == counts.Keys + set p | p in targets
    ensures forall p :: Get(r, p) == Get(counts, p) + multiset(targets)[p]
  {
    r := counts;
    for j := 0 to |targets|
      invariant r.Keys == counts.Keys + set p | p in targets[..j]
      invariant forall p :: Get(r, p) == Get(counts, p) + multiset(targets[..j])[p]
    {
      assert targets[..j + 1] == targets[..j] + [targets[j]];
      r := r[targets[j] := Get(r, targets[j]) + 1];
    }
    assert targets[..|targets|] == targets;
  }

  /** Counting targets over the entries of one phrase. */
  method CountTargets(evidence: seq<EvidenceEntry>) returns (counts: map<string, nat>)
    ensures counts.Keys == Paths(evidence)
    ensures forall p :: Get(counts, p) == CountOf(evidence, p)
  {
    counts := map[];
    assert evidence[..0] == [];
    for k := 0 to |evidence|
      invariant counts.Keys == Paths(evidence[..k])
      invariant forall p :: Get(counts, p) == CountOf(evidence[..k], p)
    {
      var e := evidence[k];
      assert evidence[..k + 1][..k] == evidence[..k];
      PathsGrow(evidence[..k + 1]);
      hide Paths, Get;
      if e.Mined? {
        counts := AddTargets(counts, e.targets);
      }
    }
    assert evidence[..|evidence|] == evidence;
  }

  lemma PathsGrow(evidence: seq<EvidenceEntry>)
    requires evidence != []
    ensures var e := evidence[|evidence| - 1];
      Paths(evidence) == Paths(evidence[..|evidence| - 1]) + (if e.Mined? then set p | p in e.targets else {})
  {
    assert evidence == evidence[..|evidence| - 1] + [evidence[|evidence| - 1]];
  }
}
