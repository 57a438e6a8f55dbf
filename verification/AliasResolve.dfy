/** Resolving a terse phrase against the alias index. */
module AliasResolve {
  import opened Prelude
  import opened Grounding
  import opened AliasMining

  const MIN_FUZZY_SCORE: real := 0.3

  datatype AliasEntry = AliasEntry(alias: string, targets: seq<string>, confirmations: int)

  datatype Match = Exact | Fuzzy

  datatype Resolution = Resolution(alias: string, score: real, how: Match, targets: seq<string>)

  /** Alphabetical order of aliases. */
  type Order = (string, string) -> bool

  ghost predicate IsOrder(less: Order) {
    && (forall a :: !less(a, a))
    && (forall a, b, c :: less(a, b) && less(b, c) ==> less(a, c))
    && (forall a, b :: a == b || less(a, b) || less(b, a))
  }

  function WordSet(phrase: string): set<string> { set t | t in PhraseWords(phrase) }

  /** Share of common words. */
  function Overlap(q: set<string>, a: set<string>): real {
    if |q + a| == 0 then 0.0 else |q * a| as real / |q + a| as real
  }

  function Score(q: string, e: AliasEntry): real {
    Overlap(WordSet(q), WordSet(e.alias))
  }

  /** Score first, then confirmations, then the alias. */
  predicate Better(q: string, x: AliasEntry, y: AliasEntry, less: Order) {
    || Score(q, x) > Score(q, y)
    || (Score(q, x) == Score(q, y) && x.confirmations > y.confirmations)
    || (Score(q, x) == Score(q, y) && x.confirmations == y.confirmations && less(x.alias, y.alias))
  }

  lemma BetterIsTransitive(q: string, x: AliasEntry, y: AliasEntry, z: AliasEntry, less: Order)
    requires IsOrder(less) && Better(q, x, y, less) && Better(q, y, z, less)
    ensures Better(q, x, z, less)
  {
    hide Score;
  }

  /** The first entry with exactly this alias. */
  function FirstExact(entries: seq<AliasEntry>, q: string): Option<nat> {
    if entries == [] then None
    else
      var r := FirstExact(entries[..|entries| - 1], q);
      if r.Some? then r
      else if entries[|entries| - 1].alias == q then Some(|entries| - 1) else None
  }

  lemma {:induction false} FirstExactIs(entries: seq<AliasEntry>, q: string)
    ensures var r := FirstExact(entries, q);
      && (r.Some? ==> r.value < |entries| && entries[r.value].alias == q && forall j :: 0 <= j < r.value ==> entries[j].alias != q)
      && (r.None? ==> forall j :: 0 <= j < |entries| ==> entries[j].alias != q)
  {
    if entries != [] { FirstExactIs(entries[..|entries| - 1], q); }
  }

  /** `k` is the best of the entries that clear the floor. */
  ghost predicate BestOf(entries: seq<AliasEntry>, q: string, less: Order, k: int) {
    && 0 <= k < |entries| && Score(q, entries[k]) >= MIN_FUZZY_SCORE
    && forall j :: 0 <= j < |entries| && Score(q, entries[j]) >= MIN_FUZZY_SCORE ==> !Better(q, entries[j], entries[k], less)
  }

  function FuzzyOf(q: string, e: AliasEntry): Resolution {
    Resolution(e.alias, Score(q, e), Fuzzy, e.targets)
  }

  function ExactOf(e: AliasEntry): Resolution {
    Resolution(e.alias, 1.0, Exact, e.targets)
  }

  /** What one normalised query must resolve to. */
  ghost predicate Resolves(entries: seq<AliasEntry>, q: string, less: Order, r: Option<Resolution>) {
    var first := FirstExact(entries, q);
    if q == "" then r.None?
    else if first.Some? then first.value < |entries| && r == Some(ExactOf(entries[first.value]))
    else if r.None? then forall j :: 0 <= j < |entries| ==> Score(q, entries[j]) < MIN_FUZZY_SCORE
    else exists k :: BestOf(entries, q, less, k) && r == Some(FuzzyOf(q, entries[k]))
  }

  lemma BestGrows(entries: seq<AliasEntry>, q: string, less: Order, k: nat, best: Option<nat>)
    requires IsOrder(less) && k < |entries|
    requires best.Some? ==> BestOf(entries[..k], q, less, best.value)
    requires best.None? ==> forall j :: 0 <= j < k ==> Score(q, entries[j]) < MIN_FUZZY_SCORE
    ensures var s := Score(q, entries[k]); var all := entries[..k + 1];
      if s < MIN_FUZZY_SCORE then
        (best.Some? ==> BestOf(all, q, less, best.value)) &&
        (best.None? ==> forall j :: 0 <= j < k + 1 ==> Score(q, entries[j]) < MIN_FUZZY_SCORE)
      else if best.None? || Better(q, entries[k], entries[best.value], less) then BestOf(all, q, less, k)
      else BestOf(all, q, less, best.value)
  {
    var all := entries[..k + 1];
    assert forall j :: 0 <= j < k ==> all[j] == entries[..k][j];
    assert all[k] == entries[k];
    assert !Better(q, entries[k], entries[k], less);
    if best.Some? && Better(q, entries[k], entries[best.value], less) {
      forall j | 0 <= j < k && Score(q, entries[j]) >= MIN_FUZZY_SCORE ensures !Better(q, entries[j], entries[k], less) {
        assert !Better(q, entries[..k][j], entries[..k][best.value], less);
        if Better(q, entries[j], entries[k], less) { BetterIsTransitive(q, entries[j], entries[k], entries[best.value], less); }
      }
    }
    hide Score, Better;
  }

  /** One entry offered to the best so far. */
  method Offer(entries: seq<AliasEntry>, q: string, less: Order, k: nat, best: Option<nat>) returns (best': Option<nat>)
    requires IsOrder(less) && k < |entries|
    requires best.Some? ==> BestOf(entries[..k], q, less, best.value)
    requires best.None? ==> forall j :: 0 <= j < k ==> Score(q, entries[j]) < MIN_FUZZY_SCORE
    ensures best'.Some? ==> BestOf(entries[..k + 1], q, less, best'.value)
    ensures best'.None? ==> forall j :: 0 <= j < k + 1 ==> Score(q, entries[j]) < MIN_FUZZY_SCORE
  {
    BestGrows(entries, q, less, k, best);
    var s := Score(q, entries[k]);
    if s < MIN_FUZZY_SCORE {
      return best;
    }
    if best.None? || Better(q, entries[k], entries[best.value], less) {
      return Some(k);
    }
    best' := best;
  }

  /** An exact match wins outright wherever it stands; otherwise the best overlap above
      the floor, or nothing. */
  method Resolve(query: string, entries: seq<AliasEntry>, lower: Lowering, stop: set<string>, less: Order)
    returns (r: Option<Resolution>)
    requires IsOrder(less)
    ensures Resolves(entries, Normalize(query, lower, stop), less, r)
  {
    var q := Normalize(query, lower, stop);
    if q == "" {
      return None;
    }
    var best: Option<nat> := None;
    assert entries[..0] == [] && entries[..|entries|] == entries;
    hide Score, Better, Normalize, BestOf, IsOrder;
    for k := 0 to |entries|
      invariant FirstExact(entries[..k], q).None?
      invariant best.Some? ==> BestOf(entries[..k], q, less, best.value) && best.value < k
      invariant best.None? ==> forall j :: 0 <= j < k ==> Score(q, entries[j]) < MIN_FUZZY_SCORE
    {
      assert entries[..k + 1][..k] == entries[..k];
      if entries[k].alias == q {
        ExactStays(entries, q, k);
        return Some(ExactOf(entries[k]));
      }
      best := Offer(entries, q, less, k, best);
      BestIsBelow(entries[..k + 1], q, less, best);
    }
    if best.None? {
      return None;
    }
    r := Some(FuzzyOf(q, entries[best.value]));
  }

  lemma BestIsBelow(entries: seq<AliasEntry>, q: string, less: Order, best: Option<nat>)
    requires best.Some? ==> BestOf(entries, q, less, best.value)
    ensures best.Some? ==> best.value < |entries|
  {}

  lemma {:induction false} ExactStays(entries: seq<AliasEntry>, q: string, k: nat)
    requires k < |entries| && entries[k].alias == q && FirstExact(entries[..k], q).None?
    ensures FirstExact(entries, q) == Some(k)
  {
    FirstExactIs(entries[..k], q);
    FirstExactIs(entries, q);
    assert forall j :: 0 <= j < k ==> entries[j] == entries[..k][j];
  }

  // ------------------------------------------------------- what an answer means

  /** Words of both phrases, and of either. */
  function InBoth(q: string, a: string): nat { |set t | t in PhraseWords(q) && t in PhraseWords(a)| }

  function InEither(q: string, a: string): nat { |set t | t in PhraseWords(q) + PhraseWords(a)| }

  /** At least three tenths of the words are common. */
  predicate Clears(q: string, a: string) {
    InEither(q, a) > 0 && 10 * InBoth(q, a) >= 3 * InEither(q, a)
  }

  /** The greater share of common words, then more confirmations, then the earlier alias. */
  predicate Beats(q: string, x: AliasEntry, y: AliasEntry, less: Order) {
    var sx, sy := InBoth(q, x.alias) * InEither(q, y.alias), InBoth(q, y.alias) * InEither(q, x.alias);
    sx > sy || (sx == sy && (x.confirmations > y.confirmations || (x.confirmations == y.confirmations && less(x.alias, y.alias))))
  }

  lemma ScoreIs(q: string, e: AliasEntry)
    ensures InEither(q, e.alias) > 0 ==> Score(q, e) * InEither(q, e.alias) as real == InBoth(q, e.alias) as real
    ensures InEither(q, e.alias) == 0 ==> Score(q, e) == 0.0
    ensures 0.0 <= Score(q, e)
  {
    WordsCount(q, e.alias);
    hide WordSet, InBoth, InEither;
    Share(WordSet(q), WordSet(e.alias));
    Quotient(InBoth(q, e.alias), InEither(q, e.alias));
    hide Ratio, Overlap;
  }

  lemma WordsCount(q: string, a: string)
    ensures |WordSet(q) + WordSet(a)| == InEither(q, a) && |WordSet(q) * WordSet(a)| == InBoth(q, a)
  {
    assert WordSet(q) + WordSet(a) == set t | t in PhraseWords(q) + PhraseWords(a);
    assert WordSet(q) * WordSet(a) == set t | t in PhraseWords(q) && t in PhraseWords(a);
  }

  function Ratio(a: nat, b: nat): real {
    if b == 0 then 0.0 else a as real / b as real
  }

  lemma Share(q: set<string>, a: set<string>)
    ensures Overlap(q, a) == Ratio(|q * a|, |q + a|)
  {}

  lemma Quotient(a: nat, b: nat)
    ensures b == 0 ==> Ratio(a, b) == 0.0
    ensures b > 0 ==> Ratio(a, b) * b as real == a as real
    ensures Ratio(a, b) >= 0.0
  {}

  lemma ClearsIff(q: string, e: AliasEntry)
    ensures Score(q, e) >= MIN_FUZZY_SCORE <==> Clears(q, e.alias)
  {
    ScoreIs(q, e);
    var s, b, i := Score(q, e), InBoth(q, e.alias), InEither(q, e.alias);
    hide Score, InBoth, InEither;
    if i > 0 { Compare(s, 0.3, b, i, 3, 10); }
  }

  /** s = b / i and c = d / f are compared by cross products. */
  lemma Compare(s: real, c: real, b: nat, i: nat, d: nat, f: nat)
    requires i > 0 && f > 0 && s * i as real == b as real && c * f as real == d as real
    ensures s > c <==> b * f > d * i
    ensures s >= c <==> b * f >= d * i
  {
    var x, y := i as real, f as real;
    assert (s - c) * (x * y) == (s * x) * y - (c * y) * x == b as real * y - d as real * x;
    Positive(s - c, x, y);
    assert (b * f) as real == b as real * y && (d * i) as real == d as real * x;
  }

  lemma Positive(g: real, x: real, y: real)
    requires x > 0.0 && y > 0.0
    ensures g > 0.0 <==> g * (x * y) > 0.0
    ensures g >= 0.0 <==> g * (x * y) >= 0.0
  {
    assert x * y > 0.0;
  }

  lemma BeatsIff(q: string, x: AliasEntry, y: AliasEntry, less: Order)
    requires Clears(q, x.alias) && Clears(q, y.alias)
    ensures Better(q, x, y, less) <==> Beats(q, x, y, less)
  {
    ScoreIs(q, x);
    ScoreIs(q, y);
    hide Score, InBoth, InEither;
    Compare(Score(q, x), Score(q, y), InBoth(q, x.alias), InEither(q, x.alias), InBoth(q, y.alias), InEither(q, y.alias));
  }

  /** The answers: none for an empty query; the first entry with exactly this alias, at
      score one; otherwise an entry that clears the floor and is beaten by no other that
      does, with its own targets and its share of common words as score; and none only if no
      entry clears it. */
  lemma ResolvesTo(entries: seq<AliasEntry>, q: string, less: Order, r: Option<Resolution>)
    requires Resolves(entries, q, less, r)
    ensures q == "" ==> r == None
    ensures forall k :: q != "" && 0 <= k < |entries| && entries[k].alias == q && (forall j :: 0 <= j < k ==> entries[j].alias != q) ==>
      r == Some(Resolution(q, 1.0, Exact, entries[k].targets))
    ensures q != "" && (forall k :: 0 <= k < |entries| ==> entries[k].alias != q) ==>
      if r == None then forall k :: 0 <= k < |entries| ==> !Clears(q, entries[k].alias)
      else exists k :: IsAnswer(entries, q, less, k, r.value)
  {
    FirstExactIs(entries, q);
    forall k | 0 <= k < |entries| { ClearsIff(q, entries[k]); }
    if q != "" && FirstExact(entries, q) == None && r.Some? {
      var k :| BestOf(entries, q, less, k) && r == Some(FuzzyOf(q, entries[k]));
      BestIsAnswer(entries, q, less, k);
    }
    hide Score, Clears;
  }

  ghost predicate IsAnswer(entries: seq<AliasEntry>, q: string, less: Order, k: int, r: Resolution) {
    && 0 <= k < |entries| && Clears(q, entries[k].alias)
    && (forall j :: 0 <= j < |entries| && Clears(q, entries[j].alias) ==> !Beats(q, entries[j], entries[k], less))
    && r.alias == entries[k].alias && r.how == Fuzzy && r.targets == entries[k].targets
    && r.score * InEither(q, entries[k].alias) as real == InBoth(q, entries[k].alias) as real
  }

  lemma BestIsAnswer(entries: seq<AliasEntry>, q: string, less: Order, k: int)
    requires BestOf(entries, q, less, k)
    ensures IsAnswer(entries, q, less, k, FuzzyOf(q, entries[k]))
  {
    ClearsIff(q, entries[k]);
    ScoreIs(q, entries[k]);
    forall j | 0 <= j < |entries| && Clears(q, entries[j].alias) ensures !Beats(q, entries[j], entries[k], less) {
      ClearsIff(q, entries[j]);
      BeatsIff(q, entries[j], entries[k], less);
    }
    hide Score, Better, Beats;
  }

  // ------------------------------------------------------- what is mined resolves

  lemma WordsResolve(ts: seq<string>, entries: seq<AliasEntry>, k: nat, query: string, lower: Lowering, stop: set<string>,
                     less: Order, r: Option<Resolution>)
    requires Words(ts, stop) && ts != [] && IsLowering(lower)
    requires k < |entries| && entries[k].alias == Join(ts) && forall j :: 0 <= j < k ==> entries[j].alias != Join(ts)
    requires query == Join(ts) || query in Variants(ts)
    requires Resolves(entries, Normalize(query, lower, stop), less, r)
    ensures r == Some(Resolution(Join(ts), 1.0, Exact, entries[k].targets))
  {
    PhraseRoundTrip(ts, lower, stop);
    forall t | t in ts ensures t != "" { assert Word(t, stop); }
    JoinIsBlank(ts);
    FirstExactIs(entries, Join(ts));
    hide Normalize, Join, Words, Variants;
  }

  /** A phrase that survives normalisation resolves exactly, and so does each of its
      variants: score 1, the targets of the first entry with that alias, wherever it
      stands. */
  lemma FixedPhraseResolves(t: string, entries: seq<AliasEntry>, k: nat, query: string, lower: Lowering, stop: set<string>,
                            less: Order, r: Option<Resolution>)
    requires IsLowering(lower) && Normalize(t, lower, stop) == t && t != ""
    requires k < |entries| && entries[k].alias == t && forall j :: 0 <= j < k ==> entries[j].alias != t
    requires query == t || query in PhraseVariants(t)
    requires Resolves(entries, Normalize(query, lower, stop), less, r)
    ensures r == Some(Resolution(t, 1.0, Exact, entries[k].targets))
  {
    FixedPointIsJoin(t, lower, stop);
    WordsResolve(PhraseWords(t), entries, k, query, lower, stop, less, r);
  }

  /** What mining can name: a phrase of a commit (its scope, an n-gram of its subject, the
      slug of a document it changed), or the slug of an ingested document. */
  ghost predicate Mined(t: string, lower: Lowering, stop: set<string>) {
    || (exists scope: Option<string>, description: string, files: seq<ChangedFile>, p: string ::
          Names(scope, description, files, lower, stop, t, p))
    || (exists stem: string :: SlugOf(stem, lower, stop) == Some(t))
  }

  /** Every phrase mining can name, and each of its variants, given back as a query finds
      its own targets with score 1. */
  lemma MinedPhraseResolves(t: string, entries: seq<AliasEntry>, k: nat, query: string, lower: Lowering, stop: set<string>,
                            less: Order, r: Option<Resolution>)
    requires IsLowering(lower) && Mined(t, lower, stop) && t != ""
    requires k < |entries| && entries[k].alias == t && forall j :: 0 <= j < k ==> entries[j].alias != t
    requires query == t || query in PhraseVariants(t)
    requires Resolves(entries, Normalize(query, lower, stop), less, r)
    ensures r == Some(Resolution(t, 1.0, Exact, entries[k].targets))
  {
    if stem: string :| SlugOf(stem, lower, stop) == Some(t) {
      SlugsAreWords(stem, lower, stop);
    } else {
      var scope: Option<string>, description: string, files: seq<ChangedFile>, p: string :|
        Names(scope, description, files, lower, stop, t, p);
      CommitPhrasesAreFixed(scope, description, files, lower, stop, t, p);
    }
    hide Normalize, Resolves, PhraseVariants;
    FixedPhraseResolves(t, entries, k, query, lower, stop, less, r);
  }

  /** The guard for an empty union of words is dead: a normalised query that is not
      blank has a word. */
  lemma UnionIsNeverEmpty(query: string, lower: Lowering, stop: set<string>, e: AliasEntry)
    requires Normalize(query, lower, stop) != ""
    ensures WordSet(Normalize(query, lower, stop)) + WordSet(e.alias) != {}
  {
    var ts := Meaningful(Tokenize(query, lower), stop);
    var q := Join(ts);
    MeaningfulTokensAreWords(Tokenize(query, lower), query, lower, stop);
    StartsWithWord(ts, stop);
    var sp := (c: char) => c == ' ';
    HasWord(q, 0, sp);
    assert PhraseWords(q)[0] in PhraseWords(q);
    assert PhraseWords(q)[0] in WordSet(q);
  }

  lemma {:induction false} StartsWithWord(ts: seq<string>, stop: set<string>)
    requires Words(ts, stop) && ts != []
    ensures Join(ts) != "" && IsAlnum(Join(ts)[0])
  {
    assert ts[0] in ts && Word(ts[0], stop);
    if |ts| > 1 {
      assert Words(ts[..|ts| - 1], stop) by { assert forall t :: t in ts[..|ts| - 1] ==> t in ts; }
      StartsWithWord(ts[..|ts| - 1], stop);
    }
  }

  lemma {:induction false} HasWord(s: string, k: nat, sp: Spaces)
    requires k < |s| && !sp(s[k])
    ensures Split(s, sp) != []
  {
    var init := s[..|s| - 1];
    if k < |init| { HasWord(init, k, sp); }
  }
}
