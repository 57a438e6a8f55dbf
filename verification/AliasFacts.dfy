/** What the alias miner's rows and edges say, read off the mined evidence: which targets
    an alias has, with which confidence, and on whose word. */
module AliasFacts {
  import opened Prelude
  import opened Registry
  import opened AliasReplay
  import opened AliasAggregates
  import opened AliasIndex
  import opened AliasOutcome
  import opened AliasLedger
  import opened BuildMachine
  import opened BuildRuns
  import R = AliasRows
  import E = AliasEdges

  // ------------------------------------------------------- entries that name a path

  predicate NamesPath(e: EvidenceEntry, path: string) {
    e.Mined? && path in e.targets
  }

  /** The entries that name the path, in order. */
  function Naming(evidence: seq<EvidenceEntry>, path: string): seq<EvidenceEntry> {
    if evidence == [] then []
    else
      var e := evidence[|evidence| - 1];
      Naming(evidence[..|evidence| - 1], path) + (if NamesPath(e, path) then [e] else [])
  }

  function Refs(entries: seq<EvidenceEntry>): multiset<string> {
    if entries == [] then multiset{}
    else
      var e := entries[|entries| - 1];
      Refs(entries[..|entries| - 1]) + (if e.Mined? then multiset{e.ref} else multiset{})
  }

  lemma {:induction false} CountIsNaming(evidence: seq<EvidenceEntry>, path: string)
    requires TargetsDistinct(evidence)
    ensures CountOf(evidence, path) == |Naming(evidence, path)|
  {
    if evidence != [] {
      var rest, e := evidence[..|evidence| - 1], evidence[|evidence| - 1];
      assert evidence == rest + [e];
      CountIsNaming(rest, path);
      if e.Mined? {
        assert path in e.targets ==> multiset(e.targets)[path] == 1;
        assert path !in e.targets ==> multiset(e.targets)[path] == 0;
      }
    }
  }

  lemma {:induction false} RefsAreNaming(evidence: seq<EvidenceEntry>, path: string)
    ensures RefsOf(evidence, path) == Refs(Naming(evidence, path))
  {
    if evidence != [] {
      var rest, e := evidence[..|evidence| - 1], evidence[|evidence| - 1];
      RefsAreNaming(rest, path);
      var ns := Naming(rest, path);
      assert (ns + [e])[..|ns|] == ns && ns + [] == ns;
    }
  }

  /** The input yields the phrase, and this is its entry. */
  predicate Yields(i: MiningInput, mine: Miner, t: string, e: EvidenceEntry) {
    t in mine(i.key, i.hash) && e == Mined(i.key, i.ref, i.hash, mine(i.key, i.hash)[t])
  }

  /** The inputs that yield the phrase, in order. */
  function Yielding(inputs: seq<MiningInput>, mine: Miner, t: string): seq<MiningInput> {
    if inputs == [] then []
    else
      var i := inputs[|inputs| - 1];
      Yielding(inputs[..|inputs| - 1], mine, t) + if t in mine(i.key, i.hash) then [i] else []
  }

  lemma {:induction false} YieldingIff(inputs: seq<MiningInput>, mine: Miner, t: string, i: MiningInput)
    ensures i in Yielding(inputs, mine, t) <==> i in inputs && t in mine(i.key, i.hash)
  {
    if inputs != [] {
      assert inputs == inputs[..|inputs| - 1] + [inputs[|inputs| - 1]];
      YieldingIff(inputs[..|inputs| - 1], mine, t, i);
    }
  }

  /** The evidence of a phrase: one entry for each input that yields it, in their order. */
  lemma {:induction false} EvidenceIs(inputs: seq<MiningInput>, mine: Miner, t: string)
    ensures var ev, ins := Evidence(FreshContributions(inputs, mine), t), Yielding(inputs, mine, t);
      |ev| == |ins| && forall j :: 0 <= j < |ev| ==> Yields(ins[j], mine, t, ev[j])
  {
    if inputs != [] {
      var rest, last := inputs[..|inputs| - 1], inputs[|inputs| - 1];
      EvidenceIs(rest, mine, t);
      assert FreshContributions(inputs, mine) ==
        FreshContributions(rest, mine) + [Contribution(last.key, last.ref, last.hash, mine(last.key, last.hash))];
    }
  }

  /** Mined phrases are those some input yields. */
  lemma PhrasesAre(inputs: seq<MiningInput>, mine: Miner, t: string)
    ensures t in PhrasesOf(FreshContributions(inputs, mine)) <==> exists i :: i in inputs && t in mine(i.key, i.hash)
  {
    var cs := FreshContributions(inputs, mine);
    if t in PhrasesOf(cs) {
      var k :| 0 <= k < |cs| && t in cs[k].phrases;
      assert inputs[k] in inputs;
    }
    if i :| i in inputs && t in mine(i.key, i.hash) {
      var k :| 0 <= k < |inputs| && inputs[k] == i;
      assert cs[k] in cs;
    }
  }

  /** How many entries name each path that some entry names. */
  function Named(evidence: seq<EvidenceEntry>): map<string, nat> {
    map e, p | e in evidence && e.Mined? && p in e.targets :: p := |Naming(evidence, p)|
  }

  lemma CountsAreNamed(evidence: seq<EvidenceEntry>)
    requires TargetsDistinct(evidence)
    ensures Counts(evidence) == Named(evidence)
  {
    forall p | p in Counts(evidence) ensures p in Named(evidence) && Counts(evidence)[p] == Named(evidence)[p] {
      CountIsNaming(evidence, p);
    }
    hide CountOf, Naming, TargetsDistinct;
    assert Counts(evidence).Keys == Named(evidence).Keys;
  }

  // ------------------------------------------------------- one aggregate

  /** The aggregate of a phrase: its entries, and the first 50 paths of the ranking with
      the number of entries that name each. */
  lemma AggregateIs(inputs: seq<MiningInput>, mine: Miner, phrase: string, rank: Ranker)
    requires TidyMiner(mine) && IsRanking(rank)
    ensures var cs := FreshContributions(inputs, mine);
      var ev := Evidence(cs, phrase);
      var agg, ranked := AggregateOf(cs, phrase, rank), rank(phrase, Named(ev));
      && agg.phrase == phrase && agg.evidence == ev && agg.confirmations == |ev|
      && |agg.targets| == (if |ranked| < 50 then |ranked| else 50)
      && forall j :: 0 <= j < |agg.targets| ==> agg.targets[j] == Ranked(ranked[j], |Naming(ev, ranked[j])|)
  {
    var cs := FreshContributions(inputs, mine);
    var ev := Evidence(cs, phrase);
    EvidenceIsTidy(inputs, mine, phrase);
    CountsAreNamed(ev);
    var agg, ranked := AggregateOf(cs, phrase, rank), rank(phrase, Counts(ev));
    forall j | 0 <= j < |agg.targets| ensures agg.targets[j] == Ranked(ranked[j], |Naming(ev, ranked[j])|) {
      assert ranked[j] in ranked;
      CountIsNaming(ev, ranked[j]);
    }
  }

  // ------------------------------------------------------- which pairs

  /** The j-th ranked target, one of the first 20, resolves to `target`. */
  predicate Resolves20(agg: Aggregate, paths: map<string, ArtifactId>, j: int, target: ArtifactId) {
    0 <= j < |agg.targets| && j < 20 && agg.targets[j].path in paths && paths[agg.targets[j].path] == target
  }

  lemma {:induction false} EdgesOfIff(agg: Aggregate, alias: ArtifactId, paths: map<string, ArtifactId>, k: nat, p: E.Pair)
    requires k <= |agg.targets| && k <= 20
    ensures p in EdgesOf(agg, alias, paths, k) <==> p.alias == alias && exists j :: Resolves20(agg, paths, j, p.target) && j < k
    ensures p in EdgesOf(agg, alias, paths, k) ==>
      exists j :: Resolves20(agg, paths, j, p.target) && j < k && EdgesOf(agg, alias, paths, k)[p] == EdgeFacts(agg, agg.targets[j])
  {
    if k > 0 {
      EdgesOfIff(agg, alias, paths, k - 1, p);
      hide EdgeFacts;
      if agg.targets[k - 1].path in paths && p == E.Pair(alias, paths[agg.targets[k - 1].path]) {
        assert Resolves20(agg, paths, k - 1, p.target);
      }
    }
  }

  /** `agg` wants an edge for its j-th ranked target. */
  predicate Wants(aggs: seq<Aggregate>, aliasIds: map<string, ArtifactId>, paths: map<string, ArtifactId>, p: E.Pair, agg: Aggregate, j: int) {
    agg in aggs && agg.phrase in aliasIds && aliasIds[agg.phrase] == p.alias && Resolves20(agg, paths, j, p.target)
  }

  /** A pair is desired exactly when one of the first 20 ranked targets of an aggregate
      whose alias has that row resolves to it; and its facts are those of such a target. */
  lemma {:induction false} DesiredIff(aggs: seq<Aggregate>, aliasIds: map<string, ArtifactId>, paths: map<string, ArtifactId>, p: E.Pair)
    ensures p in DesiredEdges(aggs, aliasIds, paths) <==> exists agg, j :: Wants(aggs, aliasIds, paths, p, agg, j)
    ensures p in DesiredEdges(aggs, aliasIds, paths) ==>
      exists agg, j :: Wants(aggs, aliasIds, paths, p, agg, j) && DesiredEdges(aggs, aliasIds, paths)[p] == EdgeFacts(agg, agg.targets[j])
  {
    if aggs != [] {
      var rest, last := aggs[..|aggs| - 1], aggs[|aggs| - 1];
      assert aggs == rest + [last];
      DesiredIff(rest, aliasIds, paths, p);
      var m, k := DesiredEdges(rest, aliasIds, paths), Min(|last.targets|, MAX_EDGE_TARGETS);
      forall agg, j | Wants(aggs, aliasIds, paths, p, agg, j)
        ensures Wants(rest, aliasIds, paths, p, agg, j) ||
                (agg == last && last.phrase in aliasIds && aliasIds[last.phrase] == p.alias && Resolves20(last, paths, j, p.target) && j < k)
      {}
      forall agg, j | Wants(rest, aliasIds, paths, p, agg, j) ensures Wants(aggs, aliasIds, paths, p, agg, j) {}
      if last.phrase in aliasIds {
        var more := EdgesOf(last, aliasIds[last.phrase], paths, k);
        EdgesOfIff(last, aliasIds[last.phrase], paths, k, p);
        if p in more {
          var j :| Resolves20(last, paths, j, p.target) && j < k && more[p] == EdgeFacts(last, last.targets[j]);
          assert Wants(aggs, aliasIds, paths, p, last, j);
        }
      }
      hide EdgeFacts, EdgesOf, Wants, Resolves20;
    }
  }

  // ------------------------------------------------------- with which facts

  /** Confidence is the share of the entries that name the path, and the sources are the
      references of exactly these entries. */
  predicate Shows(agg: Aggregate, path: string, f: E.Facts) {
    && f.confidence * |agg.evidence| as real == |Naming(agg.evidence, path)| as real
    && f.evidence == AliasPointer(agg.phrase, path, Refs(Naming(agg.evidence, path)))
  }

  lemma TargetShows(inputs: seq<MiningInput>, mine: Miner, phrase: string, rank: Ranker, j: nat)
    requires TidyMiner(mine) && IsRanking(rank)
    requires j < |AggregateOf(FreshContributions(inputs, mine), phrase, rank).targets|
    ensures var agg := AggregateOf(FreshContributions(inputs, mine), phrase, rank);
      Shows(agg, agg.targets[j].path, EdgeFacts(agg, agg.targets[j]))
  {
    hide *;
    var agg := AggregateOf(FreshContributions(inputs, mine), phrase, rank);
    AggregateIs(inputs, mine, phrase, rank);
    assert agg.targets[j] in agg.targets;
    TargetsAreConfirmed(inputs, mine, phrase, rank, agg.targets[j]);
    FactsShow(agg, agg.targets[j]);
  }

  lemma FactsShow(agg: Aggregate, r: Ranked)
    requires 1 <= r.count <= agg.confirmations == |agg.evidence| && r.count == |Naming(agg.evidence, r.path)|
    ensures Shows(agg, r.path, EdgeFacts(agg, r))
  {
    hide *;
    RefsAreNaming(agg.evidence, r.path);
    ConfidenceTimes(agg, r);
    FactsAre(agg, r);
    ShowsByParts(agg, r, EdgeFacts(agg, r));
  }

  lemma FactsAre(agg: Aggregate, r: Ranked)
    ensures EdgeFacts(agg, r).evidence == AliasPointer(agg.phrase, r.path, RefsOf(agg.evidence, r.path))
  {}

  lemma ShowsByParts(agg: Aggregate, r: Ranked, f: E.Facts)
    requires f.confidence * agg.confirmations as real == r.count as real
    requires agg.confirmations == |agg.evidence| && r.count == |Naming(agg.evidence, r.path)|
    requires f.evidence == AliasPointer(agg.phrase, r.path, Refs(Naming(agg.evidence, r.path)))
    ensures Shows(agg, r.path, f)
  {
    hide Naming, Refs;
  }

  lemma ConfidenceTimes(agg: Aggregate, r: Ranked)
    requires agg.confirmations > 0
    ensures EdgeFacts(agg, r).confidence * agg.confirmations as real == r.count as real
  {
    Share(r.count, agg.confirmations);
  }

  lemma Share(a: nat, b: nat)
    requires b > 0
    ensures (a as real / b as real) * b as real == a as real
  {}

  /** The j-th path in the ranking of a phrase, one of the first 20, resolves to the pair's
      target, and the phrase's alias is the pair's. */
  ghost predicate Ranks(cs: seq<Contribution>, rank: Ranker, aliasIds: map<string, ArtifactId>, paths: map<string, ArtifactId>,
                        p: E.Pair, t: string, j: int)
  {
    var ranked := rank(t, Named(Evidence(cs, t)));
    t in PhrasesOf(cs) && t in aliasIds && aliasIds[t] == p.alias &&
    0 <= j < |ranked| && j < 20 && ranked[j] in paths && paths[ranked[j]] == p.target
  }

  ghost predicate HasFacts(cs: seq<Contribution>, rank: Ranker, t: string, j: int, f: E.Facts) {
    var ev := Evidence(cs, t);
    var ranked := rank(t, Named(ev));
    0 <= j < |ranked| &&
    f.confidence * |ev| as real == |Naming(ev, ranked[j])| as real &&
    f.evidence == AliasPointer(t, ranked[j], Refs(Naming(ev, ranked[j])))
  }

  /** Over everything mined afresh: which pairs are desired, and with which facts. */
  lemma PairsAreRanked(inputs: seq<MiningInput>, mine: Miner, phraseOrder: seq<string>, rank: Ranker,
                       aliasIds: map<string, ArtifactId>, paths: map<string, ArtifactId>, p: E.Pair)
    requires TidyMiner(mine) && IsRanking(rank) && LegalPhrases(FreshContributions(inputs, mine), phraseOrder)
    ensures var cs := FreshContributions(inputs, mine);
      var pairs := DesiredEdges(Aggregates(cs, phraseOrder, rank), aliasIds, paths);
      && (p in pairs <==> exists t, j :: Ranks(cs, rank, aliasIds, paths, p, t, j))
      && (p in pairs ==> exists t, j :: Ranks(cs, rank, aliasIds, paths, p, t, j) && HasFacts(cs, rank, t, j, pairs[p]))
  {
    var cs := FreshContributions(inputs, mine);
    var aggs := Aggregates(cs, phraseOrder, rank);
    var pairs := DesiredEdges(aggs, aliasIds, paths);
    DesiredIff(aggs, aliasIds, paths, p);
    if p in pairs {
      var agg, j :| Wants(aggs, aliasIds, paths, p, agg, j) && pairs[p] == EdgeFacts(agg, agg.targets[j]);
      WantsRanks(inputs, mine, phraseOrder, rank, aliasIds, paths, p, agg, j);
    }
    if t, j :| Ranks(cs, rank, aliasIds, paths, p, t, j) {
      var agg := RanksWants(inputs, mine, phraseOrder, rank, aliasIds, paths, p, t, j);
    }
  }

  lemma WantsRanks(inputs: seq<MiningInput>, mine: Miner, phraseOrder: seq<string>, rank: Ranker,
                   aliasIds: map<string, ArtifactId>, paths: map<string, ArtifactId>, p: E.Pair, agg: Aggregate, j: int)
    requires TidyMiner(mine) && IsRanking(rank) && LegalPhrases(FreshContributions(inputs, mine), phraseOrder)
    requires Wants(Aggregates(FreshContributions(inputs, mine), phraseOrder, rank), aliasIds, paths, p, agg, j)
    ensures var cs := FreshContributions(inputs, mine);
      Ranks(cs, rank, aliasIds, paths, p, agg.phrase, j) && HasFacts(cs, rank, agg.phrase, j, EdgeFacts(agg, agg.targets[j]))
  {
    hide AggregateOf, Naming, Refs, Evidence, Named, EdgeFacts, PhrasesOf, FreshContributions, TidyMiner, IsRanking, Resolves20, Shows, Ranks, HasFacts;
    var cs := FreshContributions(inputs, mine);
    var aggs := Aggregates(cs, phraseOrder, rank);
    var i :| 0 <= i < |aggs| && aggs[i] == agg;
    assert phraseOrder[i] in phraseOrder && agg == AggregateOf(cs, phraseOrder[i], rank);
    AggregateIs(inputs, mine, phraseOrder[i], rank);
    InTargets(agg, paths, j, p.target);
    TargetShows(inputs, mine, phraseOrder[i], rank, j);
    RanksByParts(cs, rank, aliasIds, paths, p, agg, j);
  }

  lemma InTargets(agg: Aggregate, paths: map<string, ArtifactId>, j: int, target: ArtifactId)
    requires Resolves20(agg, paths, j, target)
    ensures 0 <= j < |agg.targets|
  {}

  lemma RanksByParts(cs: seq<Contribution>, rank: Ranker, aliasIds: map<string, ArtifactId>, paths: map<string, ArtifactId>,
                     p: E.Pair, agg: Aggregate, j: int)
    requires agg.phrase in PhrasesOf(cs) && agg.phrase in aliasIds && aliasIds[agg.phrase] == p.alias && Resolves20(agg, paths, j, p.target)
    requires agg.evidence == Evidence(cs, agg.phrase) && Shows(agg, agg.targets[j].path, EdgeFacts(agg, agg.targets[j]))
    requires var ranked := rank(agg.phrase, Named(Evidence(cs, agg.phrase)));
      |agg.targets| <= |ranked| && forall k :: 0 <= k < |agg.targets| ==> agg.targets[k].path == ranked[k]
    ensures Ranks(cs, rank, aliasIds, paths, p, agg.phrase, j) && HasFacts(cs, rank, agg.phrase, j, EdgeFacts(agg, agg.targets[j]))
  {
    hide Naming, Refs, Evidence, Named, EdgeFacts, PhrasesOf;
  }

  lemma RanksWants(inputs: seq<MiningInput>, mine: Miner, phraseOrder: seq<string>, rank: Ranker,
                   aliasIds: map<string, ArtifactId>, paths: map<string, ArtifactId>, p: E.Pair, t: string, j: int)
    returns (agg: Aggregate)
    requires TidyMiner(mine) && IsRanking(rank) && LegalPhrases(FreshContributions(inputs, mine), phraseOrder)
    requires Ranks(FreshContributions(inputs, mine), rank, aliasIds, paths, p, t, j)
    ensures Wants(Aggregates(FreshContributions(inputs, mine), phraseOrder, rank), aliasIds, paths, p, agg, j)
  {
    var cs := FreshContributions(inputs, mine);
    var i :| 0 <= i < |phraseOrder| && phraseOrder[i] == t;
    AggregateIs(inputs, mine, t, rank);
    agg := AggregateOf(cs, t, rank);
    assert Aggregates(cs, phraseOrder, rank)[i] == agg;
    hide AggregateOf, Naming, Refs, Evidence, Named, PhrasesOf, FreshContributions, TidyMiner, IsRanking;
  }

  // ------------------------------------------------------- in the finalized registry

  /** The alias row of a mined phrase: live, titled with it, and not the ledger's. */
  predicate MinersRow(rows: R.Rows, a: ArtifactId, t: string) {
    a in rows && rows[a].kind == AliasReference && rows[a].gone.None? && rows[a].title == Some(t) && !R.LedgerOwned(rows[a])
  }

  /** The alias of a mined phrase, and one of the first 20 paths of its ranking that
      resolves to the target. */
  ghost predicate Targets(fin: Db, cs: seq<Contribution>, rank: Ranker, paths: map<string, ArtifactId>,
                          a: ArtifactId, target: ArtifactId, t: string, j: int)
  {
    var ranked := rank(t, Named(Evidence(cs, t)));
    t in PhrasesOf(cs) && MinersRow(fin.artifacts, a, t) &&
    0 <= j < |ranked| && j < 20 && ranked[j] in paths && paths[ranked[j]] == target
  }

  /** A live edge of the miner that joins the two. */
  predicate AliasEdge(db: Db, e: EdgeId, a: ArtifactId, x: ArtifactId) {
    e in db.edges && db.edges[e].gone.None? && db.edges[e].producer == AliasMiner && db.edges[e].kind == "aliases" &&
    db.edges[e].from == a && db.edges[e].to == x
  }

  lemma MinersRowIs(rows: R.Rows, d: R.Rows, fin: R.Rows, ids: map<string, ArtifactId>, cs: seq<Contribution>,
                    groups: seq<MissGroup>, n: int, a: ArtifactId, t: string)
    requires RowsOutcome(rows, d, ids, cs, n) && LedgerOutcome(d, fin, groups, n)
    ensures t in PhrasesOf(cs) ==> t in ids && (MinersRow(fin, a, t) <==> a == ids[t])
    ensures t in ids ==> t in PhrasesOf(cs)
  {
    hide PhrasesOf, R.LedgerOwned;
    if t in ids {
      assert MinedRow(d, ids[t], t, cs);
      if MinersRow(fin, a, t) { assert R.LiveTitled(fin, a, t) && R.LiveTitled(d, a, t); }
    }
  }

  /** After a completed finalize the miner's live edges are, one each, the pairs of a mined
      phrase's alias and a resolved target among the first 20 of its ranking; an edge's
      confidence is the share of the phrase's entries that name the path, and its sources are
      the references of exactly these. */
  lemma FinalizedAliasEdges(db: Db, f: FinalizeInput, rules: Rules, n: int, a: ArtifactId, x: ArtifactId)
    requires LegalFinalize(db, f, rules, n) && NothingLeft(db, n) && SoundIndex(db.artifacts, rules.mine)
    requires TidyMiner(rules.mine) && IsRanking(rules.rank)
    ensures var fin, cs := Finalized(db, f, rules, n), FreshContributions(f.alias.inputs, rules.mine);
      && ((exists e :: AliasEdge(fin, e, a, x)) <==>
          (exists t, j :: Targets(fin, cs, rules.rank, f.alias.paths, a, x, t, j)))
      && (forall e :: AliasEdge(fin, e, a, x) ==>
            exists t, j :: Targets(fin, cs, rules.rank, f.alias.paths, a, x, t, j) &&
              HasFacts(cs, rules.rank, t, j, E.Facts(fin.edges[e].confidence, fin.edges[e].evidence)))
      && (forall e, e' :: AliasEdge(fin, e, a, x) && AliasEdge(fin, e', a, x) ==> e == e')
  {
    var c, d, fin, cs := AfterPass(db, f, n), AfterAlias(db, f, rules, n), Finalized(db, f, rules, n), FreshContributions(f.alias.inputs, rules.mine);
    var ids, pairs := StageAliasIds(c, f.alias, f.choice, rules, n), StagePairs(c, f.alias, f.choice, rules, n);
    FinalizeIsLegal(db, f, rules, n);
    hide *;
    FinalizedAliasIndex(db, f, rules, n);
    FinalizeKeepsIndex(db, f, rules, n);
    ChoicePhrases(c, f.alias, f.choice, rules, n);
    PairsAreRanked(f.alias.inputs, rules.mine, f.choice.phraseOrder, rules.rank, ids, f.alias.paths, E.Pair(a, x));
    forall t { MinersRowIs(c.artifacts, d.artifacts, fin.artifacts, ids, cs, f.misses, n, a, t); }
    forall t, j { RanksIsTargets(fin, cs, rules.rank, ids, f.alias.paths, a, x, t, j); }
    EdgesByParts(fin, cs, rules.rank, ids, f.alias.paths, pairs, a, x);
  }

  lemma FinalizeIsLegal(db: Db, f: FinalizeInput, rules: Rules, n: int)
    requires LegalFinalize(db, f, rules, n)
    ensures LegalAlias(db, f, rules, n) && LegalChoice(AfterPass(db, f, n), f.alias, f.choice, rules, n)
  {}

  lemma ChoicePhrases(c: Db, i: AliasInput, choice: AliasChoice, rules: Rules, n: int)
    requires LegalChoice(c, i, choice, rules, n) && StageContributions(c.artifacts, i, choice, rules, n) == FreshContributions(i.inputs, rules.mine)
    ensures LegalPhrases(FreshContributions(i.inputs, rules.mine), choice.phraseOrder)
  {
    hide StageContributions, LegalPhrases;
  }

  lemma RanksIsTargets(fin: Db, cs: seq<Contribution>, rank: Ranker, ids: map<string, ArtifactId>, paths: map<string, ArtifactId>,
                       a: ArtifactId, x: ArtifactId, t: string, j: int)
    requires t in PhrasesOf(cs) ==> t in ids && (MinersRow(fin.artifacts, a, t) <==> a == ids[t])
    ensures Ranks(cs, rank, ids, paths, E.Pair(a, x), t, j) <==> Targets(fin, cs, rank, paths, a, x, t, j)
  {
    hide MinersRow, PhrasesOf, Named, Evidence;
  }

  lemma EdgesByParts(fin: Db, cs: seq<Contribution>, rank: Ranker, ids: map<string, ArtifactId>, paths: map<string, ArtifactId>,
                     pairs: map<E.Pair, E.Facts>, a: ArtifactId, x: ArtifactId)
    requires E.InBijection(fin.edges, pairs)
    requires E.Pair(a, x) in pairs <==> exists t, j :: Ranks(cs, rank, ids, paths, E.Pair(a, x), t, j)
    requires E.Pair(a, x) in pairs ==>
      exists t, j :: Ranks(cs, rank, ids, paths, E.Pair(a, x), t, j) && HasFacts(cs, rank, t, j, pairs[E.Pair(a, x)])
    requires forall t, j :: Ranks(cs, rank, ids, paths, E.Pair(a, x), t, j) <==> Targets(fin, cs, rank, paths, a, x, t, j)
    ensures (exists e :: AliasEdge(fin, e, a, x)) <==>
            (exists t, j :: Targets(fin, cs, rank, paths, a, x, t, j))
    ensures forall e :: AliasEdge(fin, e, a, x) ==>
      exists t, j :: Targets(fin, cs, rank, paths, a, x, t, j) &&
        HasFacts(cs, rank, t, j, E.Facts(fin.edges[e].confidence, fin.edges[e].evidence))
    ensures forall e, e' :: AliasEdge(fin, e, a, x) && AliasEdge(fin, e', a, x) ==> e == e'
  {
    forall e ensures AliasEdge(fin, e, a, x) <==> E.LiveOwned(fin.edges, e) && E.PairOf(fin.edges[e]) == E.Pair(a, x) {}
    hide Ranks, Targets, HasFacts, AliasEdge, E.LiveOwned;
    if e :| AliasEdge(fin, e, a, x) {
      assert E.LiveOwned(fin.edges, e) && E.PairOf(fin.edges[e]) == E.Pair(a, x);
    }
    if E.Pair(a, x) in pairs {
      var e :| E.LiveOwned(fin.edges, e) && E.PairOf(fin.edges[e]) == E.Pair(a, x);
      assert AliasEdge(fin, e, a, x);
    }
    forall e | AliasEdge(fin, e, a, x)
      ensures E.Facts(fin.edges[e].confidence, fin.edges[e].evidence) == pairs[E.Pair(a, x)]
    {
      assert E.LiveOwned(fin.edges, e);
    }
  }

  // ------------------------------------------------------- the rows

  /** The j-th target a row lists. */
  predicate ListsTarget(r: TargetRef, path: string, count: nat, paths: map<string, ArtifactId>) {
    r.path == path && r.count == count && r.artifact == if path in paths then Some(paths[path]) else None
  }

  /** The content of a mined phrase's row: the phrase, the number of sources that yield it,
      the first 50 paths of its ranking with their counts and what they resolve to, and the
      entries; the access list is the one of these paths, and the row hangs on the source of
      the first entry. */
  ghost predicate SaysMined(row: Artifact, inputs: seq<MiningInput>, cs: seq<Contribution>, rank: Ranker, paths: map<string, ArtifactId>,
                            acl: seq<string> -> Acl, t: string)
  {
    var ev := Evidence(cs, t);
    var ranked := rank(t, Named(ev));
    var top := ranked[..if |ranked| < 50 then |ranked| else 50];
    && row.body.Some? && row.body.value.AliasBody? && row.body.value.phrase == t && row.body.value.confirmations == |ev|
    && row.body.value.provenance == BuildMined && row.body.value.evidence == ev
    && |row.body.value.targets| == |top|
    && (forall j :: 0 <= j < |top| ==> ListsTarget(row.body.value.targets[j], top[j], |Naming(ev, top[j])|, paths))
    && row.acl == acl(top)
    && exists i :: i in inputs && ev != [] && ev[0].Mined? && i.key == ev[0].source && row.source == i.anchor
  }

  lemma {:induction false} AnchorIsInput(inputs: seq<MiningInput>, key: string)
    requires key in Anchors(inputs)
    ensures exists i :: i in inputs && i.key == key && i.anchor == Anchors(inputs)[key]
  {
    var rest, last := inputs[..|inputs| - 1], inputs[|inputs| - 1];
    assert inputs == rest + [last];
    if key != last.key {
      AnchorIsInput(rest, key);
      var i :| i in rest && i.key == key && i.anchor == Anchors(rest)[key];
      assert i in inputs;
    } else {
      assert last in inputs;
    }
  }

  /** What the stage wants of a phrase says so. */
  lemma DesiredSaysMined(inputs: seq<MiningInput>, mine: Miner, rank: Ranker, paths: map<string, ArtifactId>, acl: seq<string> -> Acl,
                         t: string, row: Artifact)
    requires TidyMiner(mine) && IsRanking(rank) && t in PhrasesOf(FreshContributions(inputs, mine))
    requires var d := DesiredRow(AggregateOf(FreshContributions(inputs, mine), t, rank), Anchors(inputs), paths, acl);
      row.body == Some(d.body) && row.acl == d.acl && Some(row.source) == d.anchor
    ensures SaysMined(row, inputs, FreshContributions(inputs, mine), rank, paths, acl, t)
  {
    var cs := FreshContributions(inputs, mine);
    var agg := AggregateOf(cs, t, rank);
    AggregateIs(inputs, mine, t, rank);
    AnchorAlwaysFound(inputs, mine, t, rank);
    hide FreshContributions, AggregateOf, Evidence, Naming, Named, TidyMiner, IsRanking, PhrasesOf, Anchors, SaysMined, TargetRefs, PathList;
    AnchorIsInput(inputs, agg.evidence[0].source);
    SaysByParts(row, inputs, cs, rank, paths, acl, t, agg);
  }

  lemma SaysByParts(row: Artifact, inputs: seq<MiningInput>, cs: seq<Contribution>, rank: Ranker, paths: map<string, ArtifactId>,
                    acl: seq<string> -> Acl, t: string, agg: Aggregate)
    requires var ev := Evidence(cs, t);
      var ranked := rank(t, Named(ev));
      && agg.phrase == t && agg.evidence == ev && agg.confirmations == |ev|
      && |agg.targets| == (if |ranked| < 50 then |ranked| else 50)
      && forall j :: 0 <= j < |agg.targets| ==> agg.targets[j] == Ranked(ranked[j], |Naming(ev, ranked[j])|)
    requires row.body == Some(AliasBody(t, agg.confirmations, BuildMined, TargetRefs(agg.targets, paths), agg.evidence))
    requires row.acl == acl(PathList(agg.targets))
    requires agg.evidence != [] && agg.evidence[0].Mined?
    requires exists i :: i in inputs && i.key == agg.evidence[0].source && row.source == i.anchor
    ensures SaysMined(row, inputs, cs, rank, paths, acl, t)
  {
    hide Evidence, Naming, Named;
    var ranked := rank(t, Named(agg.evidence));
    var top := ranked[..if |ranked| < 50 then |ranked| else 50];
    assert PathList(agg.targets) == top;
  }

  lemma StageRowSays(c: Db, i: AliasInput, choice: AliasChoice, rules: Rules, n: int, t: string)
    requires LegalChoice(c, i, choice, rules, n) && TidyMiner(rules.mine) && IsRanking(rules.rank)
    requires StageContributions(c.artifacts, i, choice, rules, n) == FreshContributions(i.inputs, rules.mine)
    requires t in PhrasesOf(FreshContributions(i.inputs, rules.mine))
    ensures var d, ids := AliasStage(c, i, choice, rules, n).artifacts, StageAliasIds(c, i, choice, rules, n);
      t in ids && ids[t] in d && SaysMined(d[ids[t]], i.inputs, FreshContributions(i.inputs, rules.mine), rules.rank, i.paths, rules.acl, t)
  {
    hide *;
    var cs := FreshContributions(i.inputs, rules.mine);
    var byTitle, ds := ByTitle(c.artifacts, choice.rowOrder), StageRows(i, cs, choice, rules);
    var mid := Deduped(c.artifacts, byTitle, n);
    StageIsLegal(c, i, choice, rules, n);
    StageIsReconciled(c, i, choice, rules, n);
    WantedIsMined(i, cs, choice, rules, t);
    R.WantedIsLive(mid, byTitle, ds, choice.rowIds, true, n, t);
    IsThere(AliasStage(c, i, choice, rules, n).artifacts, StageAliasIds(c, i, choice, rules, n)[t], t);
    DesiredSaysMined(i.inputs, rules.mine, rules.rank, i.paths, rules.acl, t, AliasStage(c, i, choice, rules, n).artifacts[StageAliasIds(c, i, choice, rules, n)[t]]);
  }

  lemma IsThere(rows: R.Rows, a: ArtifactId, t: string)
    requires R.LiveTitled(rows, a, t)
    ensures a in rows
  {}

  /** After a completed finalize every phrase the live sources yield has its row, and the row
      says what mining all of them afresh yields. */
  lemma FinalizedAliasRow(db: Db, f: FinalizeInput, rules: Rules, n: int, t: string) returns (a: ArtifactId)
    requires LegalFinalize(db, f, rules, n) && NothingLeft(db, n) && SoundIndex(db.artifacts, rules.mine)
    requires TidyMiner(rules.mine) && IsRanking(rules.rank) && t in PhrasesOf(FreshContributions(f.alias.inputs, rules.mine))
    ensures var fin := Finalized(db, f, rules, n);
      && MinersRow(fin.artifacts, a, t) && (forall b :: MinersRow(fin.artifacts, b, t) ==> b == a)
      && SaysMined(fin.artifacts[a], f.alias.inputs, FreshContributions(f.alias.inputs, rules.mine), rules.rank, f.alias.paths, rules.acl, t)
  {
    var c, d, fin, cs := AfterPass(db, f, n), AfterAlias(db, f, rules, n), Finalized(db, f, rules, n), FreshContributions(f.alias.inputs, rules.mine);
    FinalizeIsLegal(db, f, rules, n);
    assert d == AliasStage(c, f.alias, f.choice, rules, n);
    hide *;
    FinalizeKeepsIndex(db, f, rules, n);
    StageRowSays(c, f.alias, f.choice, rules, n, t);
    a := StageAliasIds(c, f.alias, f.choice, rules, n)[t];
    forall b { MinersRowIs(c.artifacts, d.artifacts, fin.artifacts, StageAliasIds(c, f.alias, f.choice, rules, n), cs, f.misses, n, b, t); }
    MinersRowStays(c.artifacts, d.artifacts, fin.artifacts, StageAliasIds(c, f.alias, f.choice, rules, n), cs, f.misses, n, t);
  }

  lemma MinersRowStays(rows: R.Rows, d: R.Rows, fin: R.Rows, ids: map<string, ArtifactId>, cs: seq<Contribution>, groups: seq<MissGroup>, n: int, t: string)
    requires RowsOutcome(rows, d, ids, cs, n) && LedgerOutcome(d, fin, groups, n) && t in ids
    ensures ids[t] in d && ids[t] in fin && fin[ids[t]] == d[ids[t]]
  {
    hide PhrasesOf, R.LedgerOwned;
    assert MinedRow(d, ids[t], t, cs);
  }
}
