/** Mining alias phrases: the one tokenizer, n-grams that never span a stopword, and
    filename slugs. */
module AliasMining {
  import opened Prelude
  import opened Grounding
  import AliasAggregates

  /** `lower` stands for Unicode lower-casing. */
  type Lowering = string -> string

  predicate IsAlnum(c: char) {
    'a' <= c <= 'z' || '0' <= c <= '9'
  }

  predicate Breaks(c: char) { !IsAlnum(c) }

  /** Letters and digits that are already lower case, and the joining characters. */
  predicate IsPlain(c: char) {
    IsAlnum(c) || c == ' ' || c == '-' || c == '_'
  }

  ghost predicate AllPlain(s: string) {
    forall k :: 0 <= k < |s| ==> IsPlain(s[k])
  }

  ghost predicate IsLowering(lower: Lowering) {
    forall s :: AllPlain(s) ==> lower(s) == s
  }

  function LongTokens(ts: seq<string>): seq<string> {
    if ts == [] then []
    else LongTokens(ts[..|ts| - 1]) + (if |ts[|ts| - 1]| >= 2 then [ts[|ts| - 1]] else [])
  }

  function Tokenize(text: string, lower: Lowering): seq<string> {
    LongTokens(Split(lower(text), Breaks))
  }

  function Meaningful(ts: seq<string>, stop: set<string>): seq<string> {
    if ts == [] then []
    else Meaningful(ts[..|ts| - 1], stop) + (if ts[|ts| - 1] !in stop then [ts[|ts| - 1]] else [])
  }

  /** The canonical form of phrases and queries alike. */
  function Normalize(text: string, lower: Lowering, stop: set<string>): string {
    Join(Meaningful(Tokenize(text, lower), stop))
  }

  function JoinWith(ts: seq<string>, sep: char): string {
    if ts == [] then ""
    else if |ts| == 1 then ts[0]
    else JoinWith(ts[..|ts| - 1], sep) + [sep] + ts[|ts| - 1]
  }

  lemma {:induction false} JoinIsJoinWith(ts: seq<string>)
    ensures Join(ts) == JoinWith(ts, ' ')
  {
    if |ts| > 1 { JoinIsJoinWith(ts[..|ts| - 1]); }
  }

  // ------------------------------------------------------- clean words survive

  /** A word: letters and digits, two or more, no stopword. */
  ghost predicate Word(t: string, stop: set<string>) {
    |t| >= 2 && t !in stop && forall k :: 0 <= k < |t| ==> IsAlnum(t[k])
  }

  ghost predicate Words(ts: seq<string>, stop: set<string>) {
    forall t :: t in ts ==> Word(t, stop)
  }

  lemma {:induction false} SplitWord(s: string, t: string)
    requires t != "" && (forall k :: 0 <= k < |t| ==> IsAlnum(t[k])) && !EndsInWord(s, Breaks)
    ensures Split(s + t, Breaks) == Split(s, Breaks) + [t]
    ensures EndsInWord(s + t, Breaks)
  {
    var init, c := t[..|t| - 1], t[|t| - 1];
    assert t == init + [c] && s + t == (s + init) + [c] && !Breaks(c);
    SplitStep(s + init, c, Breaks);
    if init == "" {
      assert s + init == s && t == [c];
    } else {
      hide Split, EndsInWord, IsAlnum, Breaks;
      SplitWord(s, init);
      LastWordGrows(Split(s, Breaks), init, c);
    }
    WordEnds(s, t);
  }

  lemma LastWordGrows(ts: seq<string>, init: string, c: char)
    ensures var us := ts + [init]; us[..|us| - 1] + [us[|us| - 1] + [c]] == ts + [init + [c]]
  {}

  lemma WordEnds(s: string, t: string)
    requires t != "" && forall k :: 0 <= k < |t| ==> IsAlnum(t[k])
    ensures EndsInWord(s + t, Breaks)
  {}

  /** Splitting undoes joining, whatever separator was used. */
  lemma {:induction false} SplitOfJoin(ts: seq<string>, sep: char, stop: set<string>)
    requires Words(ts, stop) && Breaks(sep)
    ensures Split(JoinWith(ts, sep), Breaks) == ts
  {
    if ts != [] {
      var init, t := ts[..|ts| - 1], ts[|ts| - 1];
      assert ts == init + [t] && t in ts && Word(t, stop);
      if init == [] {
        SplitWord("", t);
        assert "" + t == t && Split("", Breaks) == [];
      } else {
        assert Words(init, stop) by { assert forall x :: x in init ==> x in ts; }
        SplitOfJoin(init, sep, stop);
        var s := JoinWith(init, sep);
        SplitStep(s, sep, Breaks);
        SplitWord(s + [sep], t);
      }
    } else {
      assert Split("", Breaks) == [];
    }
  }

  lemma {:induction false} WordsAreKept(ts: seq<string>, stop: set<string>)
    requires Words(ts, stop)
    ensures LongTokens(ts) == ts && Meaningful(ts, stop) == ts
  {
    if ts != [] {
      assert ts == ts[..|ts| - 1] + [ts[|ts| - 1]] && ts[|ts| - 1] in ts && Word(ts[|ts| - 1], stop);
      assert Words(ts[..|ts| - 1], stop) by { assert forall x :: x in ts[..|ts| - 1] ==> x in ts; }
      WordsAreKept(ts[..|ts| - 1], stop);
    }
  }

  lemma {:induction false} JoinIsPlain(ts: seq<string>, sep: char, stop: set<string>)
    requires Words(ts, stop) && IsPlain(sep)
    ensures AllPlain(JoinWith(ts, sep))
  {
    if ts != [] {
      var init, t := ts[..|ts| - 1], ts[|ts| - 1];
      assert ts == init + [t] && t in ts && Word(t, stop);
      assert Words(init, stop) by { assert forall x :: x in init ==> x in ts; }
      JoinIsPlain(init, sep, stop);
    }
  }

  /** Words joined by a space, a hyphen or an underscore normalise to the phrase. */
  lemma JoinedWordsNormalize(ts: seq<string>, sep: char, lower: Lowering, stop: set<string>)
    requires Words(ts, stop) && IsLowering(lower) && sep in {' ', '-', '_'}
    ensures Normalize(JoinWith(ts, sep), lower, stop) == Join(ts)
  {
    JoinIsPlain(ts, sep, stop);
    SplitOfJoin(ts, sep, stop);
    WordsAreKept(ts, stop);
  }

  // ------------------------------------------------------- what tokens are

  lemma {:induction false} SplitsAreAlnum(s: string, t: string)
    requires t in Split(s, Breaks)
    ensures t != "" && forall k :: 0 <= k < |t| ==> IsAlnum(t[k])
  {
    var init, c := s[..|s| - 1], s[|s| - 1];
    var ts := Split(init, Breaks);
    if t in ts {
      SplitsAreAlnum(init, t);
    } else if EndsInWord(init, Breaks) {
      assert ts[|ts| - 1] in ts;
      SplitsAreAlnum(init, ts[|ts| - 1]);
    }
  }

  lemma {:induction false} LongTokensAre(ts: seq<string>, t: string)
    ensures t in LongTokens(ts) <==> t in ts && |t| >= 2
  {
    if ts != [] {
      assert ts == ts[..|ts| - 1] + [ts[|ts| - 1]];
      LongTokensAre(ts[..|ts| - 1], t);
    }
  }

  lemma {:induction false} MeaningfulAre(ts: seq<string>, stop: set<string>, t: string)
    ensures t in Meaningful(ts, stop) <==> t in ts && t !in stop
  {
    if ts != [] {
      assert ts == ts[..|ts| - 1] + [ts[|ts| - 1]];
      MeaningfulAre(ts[..|ts| - 1], stop, t);
    }
  }

  lemma TokenIsWord(text: string, lower: Lowering, stop: set<string>, t: string)
    requires t in Tokenize(text, lower) && t !in stop
    ensures Word(t, stop)
  {
    LongTokensAre(Split(lower(text), Breaks), t);
    SplitsAreAlnum(lower(text), t);
  }

  lemma MeaningfulTokensAreWords(ts: seq<string>, text: string, lower: Lowering, stop: set<string>)
    requires forall t :: t in ts ==> t in Tokenize(text, lower)
    ensures Words(Meaningful(ts, stop), stop)
  {
    forall t | t in Meaningful(ts, stop) ensures Word(t, stop) {
      MeaningfulAre(ts, stop, t);
      TokenIsWord(text, lower, stop, t);
    }
  }

  // ------------------------------------------------------- variants

  /** `phrase.split()`: the words of a phrase. */
  function PhraseWords(phrase: string): seq<string> {
    Split(phrase, c => c == ' ')
  }

  function Variants(ts: seq<string>): seq<string> {
    if |ts| < 2 then [] else [JoinWith(ts, '-'), JoinWith(ts, '_')]
  }

  /** A mined phrase is a fixed point of normalisation, and each of its variants
      normalises back to it. */
  lemma PhraseRoundTrip(ts: seq<string>, lower: Lowering, stop: set<string>)
    requires Words(ts, stop) && IsLowering(lower)
    ensures Normalize(Join(ts), lower, stop) == Join(ts)
    ensures forall v :: v in Variants(ts) ==> Normalize(v, lower, stop) == Join(ts)
  {
    JoinIsJoinWith(ts);
    JoinedWordsNormalize(ts, ' ', lower, stop);
    JoinedWordsNormalize(ts, '-', lower, stop);
    JoinedWordsNormalize(ts, '_', lower, stop);
  }

  lemma {:induction false} JoinIsSpaced(ts: seq<string>, stop: set<string>)
    requires Words(ts, stop)
    ensures forall k :: 0 <= k < |Join(ts)| ==> IsAlnum(Join(ts)[k]) || Join(ts)[k] == ' '
  {
    if ts != [] {
      var init, t := ts[..|ts| - 1], ts[|ts| - 1];
      assert ts == init + [t] && t in ts && Word(t, stop);
      assert Words(init, stop) by { assert forall x :: x in init ==> x in ts; }
      JoinIsSpaced(init, stop);
    }
  }

  lemma {:induction false} SplitAgrees(s: string, sp: Spaces, sp': Spaces)
    requires forall k :: 0 <= k < |s| ==> sp(s[k]) == sp'(s[k])
    ensures Split(s, sp) == Split(s, sp')
  {
    if s != "" { SplitAgrees(s[..|s| - 1], sp, sp'); }
  }

  /** The words of a phrase are the words it was joined from. */
  lemma WordsOfJoin(ts: seq<string>, stop: set<string>)
    requires Words(ts, stop)
    ensures PhraseWords(Join(ts)) == ts
  {
    JoinIsSpaced(ts, stop);
    JoinIsJoinWith(ts);
    SplitOfJoin(ts, ' ', stop);
    SplitAgrees(Join(ts), Breaks, c => c == ' ');
  }

  /** `phrase_variants`: of a phrase as it stands. */
  function PhraseVariants(phrase: string): seq<string> {
    Variants(PhraseWords(phrase))
  }

  /** A fixed point of normalisation is a join of words, namely of its own. */
  lemma FixedPointIsJoin(t: string, lower: Lowering, stop: set<string>)
    requires IsLowering(lower) && Normalize(t, lower, stop) == t
    ensures Words(PhraseWords(t), stop) && t == Join(PhraseWords(t))
  {
    var ts := Meaningful(Tokenize(t, lower), stop);
    MeaningfulTokensAreWords(Tokenize(t, lower), t, lower, stop);
    WordsOfJoin(ts, stop);
  }

  // ------------------------------------------------------- n-grams

  const NGRAM_MIN: nat := 2
  const NGRAM_MAX: nat := 4

  predicate WindowAt(ts: seq<string>, w: seq<string>, i: int) {
    0 <= i <= |ts| - |w| && ts[i..i + |w|] == w
  }

  ghost predicate Window(ts: seq<string>, w: seq<string>) {
    exists i :: WindowAt(ts, w, i)
  }

  predicate NoStop(w: seq<string>, stop: set<string>) {
    forall t :: t in w ==> t !in stop
  }

  /** The run-splitting loop: a stopword opens a new run unless the last is empty. */
  function Runs(ts: seq<string>, stop: set<string>): (rs: seq<seq<string>>)
    ensures rs != []
  {
    if ts == [] then [[]]
    else
      var rs, t := Runs(ts[..|ts| - 1], stop), ts[|ts| - 1];
      if t in stop then (if rs[|rs| - 1] != [] then rs + [[]] else rs)
      else rs[..|rs| - 1] + [rs[|rs| - 1] + [t]]
  }

  predicate EndsWith(ts: seq<string>, w: seq<string>) {
    |w| <= |ts| && ts[|ts| - |w|..] == w
  }

  /** The last run is the longest ending without a stopword. */
  lemma {:induction false} LastRunIsEnding(ts: seq<string>, stop: set<string>, w: seq<string>)
    ensures var last := Runs(ts, stop)[|Runs(ts, stop)| - 1];
      EndsWith(ts, w) && NoStop(w, stop) <==> EndsWith(last, w)
  {
    if ts != [] {
      var init, t := ts[..|ts| - 1], ts[|ts| - 1];
      assert ts == init + [t];
      if w != [] {
        var w0 := w[..|w| - 1];
        assert w == w0 + [w[|w| - 1]];
        LastRunIsEnding(init, stop, w0);
        EndingGrows(init, t, w);
        EndingGrows(Runs(init, stop)[|Runs(init, stop)| - 1], t, w);
      }
    }
  }

  lemma EndingGrows(ts: seq<string>, t: string, w: seq<string>)
    requires w != []
    ensures EndsWith(ts + [t], w) <==> w[|w| - 1] == t && EndsWith(ts, w[..|w| - 1])
  {
    var w0 := w[..|w| - 1];
    assert w == w0 + [w[|w| - 1]];
    if |w| <= |ts| + 1 {
      assert (ts + [t])[|ts| + 1 - |w|..] == ts[|ts| - |w0|..] + [t];
      if ts[|ts| - |w0|..] + [t] == w {
        assert w[|w| - 1] == t && w[..|w| - 1] == ts[|ts| - |w0|..];
      }
    }
  }

  lemma WindowGrows(ts: seq<string>, t: string, w: seq<string>)
    requires w != []
    ensures Window(ts + [t], w) <==> Window(ts, w) || EndsWith(ts + [t], w)
  {
    var all := ts + [t];
    if Window(all, w) {
      var i :| WindowAt(all, w, i);
      if i + |w| <= |ts| {
        assert all[i..i + |w|] == ts[i..i + |w|];
        assert WindowAt(ts, w, i);
      } else {
        assert all[i..i + |w|] == all[|all| - |w|..];
      }
    }
    if Window(ts, w) {
      var i :| WindowAt(ts, w, i);
      assert all[i..i + |w|] == ts[i..i + |w|];
      assert WindowAt(all, w, i);
    }
    if EndsWith(all, w) { assert WindowAt(all, w, |all| - |w|); }
  }

  ghost predicate InRuns(rs: seq<seq<string>>, w: seq<string>) {
    exists r :: r in rs && Window(r, w)
  }

  lemma InRunsGrows(rs: seq<seq<string>>, r: seq<string>, w: seq<string>)
    ensures InRuns(rs + [r], w) <==> InRuns(rs, w) || Window(r, w)
  {
    if x :| x in rs && Window(x, w) { assert x in rs + [r]; }
    assert r in rs + [r];
  }

  /** The windows of the runs are exactly the windows that contain no stopword. */
  lemma {:induction false} RunsHoldWindows(ts: seq<string>, stop: set<string>, w: seq<string>)
    requires w != []
    ensures InRuns(Runs(ts, stop), w) <==> Window(ts, w) && NoStop(w, stop)
  {
    if ts == [] {
      forall r | r in [[]] ensures !Window(r, w) {}
    } else {
      var init, t := ts[..|ts| - 1], ts[|ts| - 1];
      var rs := Runs(init, stop);
      var front, last := rs[..|rs| - 1], rs[|rs| - 1];
      assert ts == init + [t] && rs == front + [last];
      RunsHoldWindows(init, stop, w);
      WindowGrows(init, t, w);
      LastRunIsEnding(ts, stop, w);
      if t in stop {
        InRunsGrows(rs, [], w);
        if EndsWith(ts, w) { assert ts[|ts| - |w|..][|w| - 1] == t; assert w[|w| - 1] in w; }
      } else {
        InRunsGrows(front, last, w);
        InRunsGrows(front, last + [t], w);
        WindowGrows(last, t, w);
      }
    }
  }

  /** All joins of contiguous windows of two to four tokens without a stopword. */
  ghost predicate IsNgram(ts: seq<string>, stop: set<string>, p: string) {
    exists w :: 2 <= |w| <= 4 && Window(ts, w) && NoStop(w, stop) && p == Join(w)
  }

  method SplitRuns(ts: seq<string>, stop: set<string>) returns (runs: seq<seq<string>>)
    ensures runs == Runs(ts, stop)
  {
    runs := [[]];
    for k := 0 to |ts|
      invariant runs == Runs(ts[..k], stop)
    {
      assert ts[..k + 1][..k] == ts[..k];
      if ts[k] in stop {
        if runs[|runs| - 1] != [] { runs := runs + [[]]; }
      } else {
        runs := runs[..|runs| - 1] + [runs[|runs| - 1] + [ts[k]]];
      }
    }
    assert ts[..|ts|] == ts;
  }

  ghost predicate RunGram(run: seq<string>, p: string) {
    exists w :: 2 <= |w| <= 4 && Window(run, w) && p == Join(w)
  }

  predicate GramAt(run: seq<string>, size: nat, p: string, i: int) {
    0 <= i && i + size <= |run| && p == Join(run[i..i + size])
  }

  ghost predicate SizedGram(run: seq<string>, size: nat, p: string) {
    exists i :: GramAt(run, size, p, i)
  }

  /** Every window of one size, left to right. */
  method AddSized(run: seq<string>, size: nat, phrases: set<string>) returns (r: set<string>)
    ensures forall p :: p in r <==> p in phrases || SizedGram(run, size, p)
  {
    r := phrases;
    var i := 0;
    while i + size <= |run|
      invariant forall p :: p in r <==> p in phrases || exists j :: 0 <= j < i && GramAt(run, size, p, j)
      decreases |run| - i
    {
      assert GramAt(run, size, Join(run[i..i + size]), i);
      r := r + {Join(run[i..i + size])};
      i := i + 1;
    }
    forall p, j | GramAt(run, size, p, j) ensures 0 <= j < i {}
  }

  lemma SizesMakeGrams(run: seq<string>, p: string)
    ensures RunGram(run, p) <==> exists size :: NGRAM_MIN <= size <= NGRAM_MAX && SizedGram(run, size, p)
  {
    if RunGram(run, p) {
      var w :| NGRAM_MIN <= |w| <= NGRAM_MAX && Window(run, w) && p == Join(w);
      var i :| WindowAt(run, w, i);
      assert GramAt(run, |w|, p, i);
      assert SizedGram(run, |w|, p);
    }
    if size :| NGRAM_MIN <= size <= NGRAM_MAX && SizedGram(run, size, p) {
      var i :| GramAt(run, size, p, i);
      var w := run[i..i + size];
      assert WindowAt(run, w, i) && |w| == size;
      assert Window(run, w);
    }
  }

  method GramsOfRun(run: seq<string>, phrases: set<string>) returns (r: set<string>)
    ensures forall p :: p in r <==> p in phrases || RunGram(run, p)
  {
    r := phrases;
    for size := NGRAM_MIN to NGRAM_MAX + 1
      invariant forall p :: p in r <==> p in phrases || exists s :: NGRAM_MIN <= s < size && SizedGram(run, s, p)
    {
      r := AddSized(run, size, r);
    }
    forall p { SizesMakeGrams(run, p); }
  }

  lemma GramsAreNgrams(ts: seq<string>, stop: set<string>, p: string)
    ensures (exists r :: r in Runs(ts, stop) && RunGram(r, p)) <==> IsNgram(ts, stop, p)
  {
    if r :| r in Runs(ts, stop) && RunGram(r, p) {
      var w :| NGRAM_MIN <= |w| <= NGRAM_MAX && Window(r, w) && p == Join(w);
      assert InRuns(Runs(ts, stop), w);
      RunsHoldWindows(ts, stop, w);
    }
    if IsNgram(ts, stop, p) {
      var w :| NGRAM_MIN <= |w| <= NGRAM_MAX && Window(ts, w) && NoStop(w, stop) && p == Join(w);
      RunsHoldWindows(ts, stop, w);
      var r :| r in Runs(ts, stop) && Window(r, w);
      assert RunGram(r, p);
    }
  }

  /** The loops over runs, sizes and starts return exactly the declarative n-grams. */
  method NgramPhrases(ts: seq<string>, stop: set<string>) returns (phrases: set<string>)
    ensures forall p :: p in phrases <==> IsNgram(ts, stop, p)
  {
    var runs := SplitRuns(ts, stop);
    phrases := {};
    for k := 0 to |runs|
      invariant forall p :: p in phrases <==> exists j :: 0 <= j < k && RunGram(runs[j], p)
    {
      phrases := GramsOfRun(runs[k], phrases);
    }
    forall p ensures p in phrases <==> IsNgram(ts, stop, p) {
      GramsAreNgrams(ts, stop, p);
    }
  }

  /** Every n-gram of a description is made of words, so it survives normalisation. */
  lemma NgramsAreWords(text: string, lower: Lowering, stop: set<string>, p: string)
    requires IsNgram(Tokenize(text, lower), stop, p) && IsLowering(lower)
    ensures Normalize(p, lower, stop) == p
  {
    var ts := Tokenize(text, lower);
    var w :| NGRAM_MIN <= |w| <= NGRAM_MAX && Window(ts, w) && NoStop(w, stop) && p == Join(w);
    var i :| WindowAt(ts, w, i);
    forall t | t in w ensures Word(t, stop) {
      var k :| 0 <= k < |w| && w[k] == t;
      assert ts[i..i + |w|][k] == ts[i + k];
      TokenIsWord(text, lower, stop, t);
    }
    PhraseRoundTrip(w, lower, stop);
  }

  /** Normalising twice is normalising once. */
  lemma NormalizeIsIdempotent(text: string, lower: Lowering, stop: set<string>)
    requires IsLowering(lower)
    ensures Normalize(Normalize(text, lower, stop), lower, stop) == Normalize(text, lower, stop)
  {
    MeaningfulTokensAreWords(Tokenize(text, lower), text, lower, stop);
    PhraseRoundTrip(Meaningful(Tokenize(text, lower), stop), lower, stop);
  }

  // ------------------------------------------------------- filename slugs

  const MIN_SLUG_TOKENS: nat := 2

  predicate IsDigits(t: string) {
    t != "" && forall k :: 0 <= k < |t| ==> '0' <= t[k] <= '9'
  }

  predicate Skippable(t: string) {
    IsDigits(t) || t == "pr" || t == "adr"
  }

  /** Leading numbers, `pr` and `adr` go. */
  function Stripped(ts: seq<string>): (r: seq<string>)
    ensures forall t :: t in r ==> t in ts
    ensures r != [] ==> !Skippable(r[0])
  {
    if ts != [] && Skippable(ts[0]) then Stripped(ts[1..]) else ts
  }

  /** The slug of a file stem, if it has enough meaningful tokens. */
  function SlugOf(stem: string, lower: Lowering, stop: set<string>): Option<string> {
    var ts := Meaningful(Stripped(Tokenize(stem, lower)), stop);
    if |ts| < MIN_SLUG_TOKENS then None else Some(Join(ts))
  }

  method DocSlugPhrase(stem: string, lower: Lowering, stop: set<string>) returns (slug: Option<string>)
    ensures slug == SlugOf(stem, lower, stop)
  {
    var tokens := Tokenize(stem, lower);
    var index := 0;
    while index < |tokens| && Skippable(tokens[index])
      invariant index <= |tokens|
      invariant Stripped(tokens) == Stripped(tokens[index..])
    {
      assert tokens[index..][1..] == tokens[index + 1..];
      index := index + 1;
    }
    var ts := Meaningful(tokens[index..], stop);
    slug := if |ts| < MIN_SLUG_TOKENS then None else Some(Join(ts));
  }

  lemma SlugsAreWords(stem: string, lower: Lowering, stop: set<string>)
    requires IsLowering(lower) && SlugOf(stem, lower, stop).Some?
    ensures Normalize(SlugOf(stem, lower, stop).value, lower, stop) == SlugOf(stem, lower, stop).value
  {
    var ts := Stripped(Tokenize(stem, lower));
    MeaningfulTokensAreWords(ts, stem, lower, stop);
    PhraseRoundTrip(Meaningful(ts, stop), lower, stop);
  }

  // ------------------------------------------------------- one commit

  /** `sorted(set)`: some listing of a set, each element once. */
  type Sorter = set<string> -> seq<string>

  ghost predicate IsSorter(sort: Sorter) {
    forall s :: multiset(sort(s)) == multiset(s)
  }

  type Found = map<string, set<string>>

  function MergePhrase(found: Found, phrase: string, targets: set<string>): Found {
    if phrase == "" then found
    else found[phrase := (if phrase in found then found[phrase] else {}) + targets]
  }

  /** The targets of a phrase so far. */
  function TargetsOf(found: Found, phrase: string): set<string> {
    if phrase in found then found[phrase] else {}
  }

  /** A changed file that is a markdown document under docs/, with its slug. */
  datatype ChangedFile = ChangedFile(path: string, inDocs: bool, stem: Option<string>)

  function SlugIn(f: ChangedFile, lower: Lowering, stop: set<string>): Option<string> {
    if f.inDocs && f.stem.Some? then SlugOf(f.stem.value, lower, stop) else None
  }

  /** Why a commit names `p` for `phrase`: its scope or subject names all its files, a
      document's slug names that document. */
  ghost predicate Names(scope: Option<string>, description: string, files: seq<ChangedFile>, lower: Lowering, stop: set<string>,
                        phrase: string, p: string)
  {
    exists f :: (f in files && f.path == p &&
      ((scope.Some? && phrase == Normalize(scope.value, lower, stop)) ||
       IsNgram(Tokenize(description, lower), stop, phrase) ||
       SlugIn(f, lower, stop) == Some(phrase)))
  }

  lemma NgramIsNotBlank(ts: seq<string>, stop: set<string>, p: string)
    requires IsNgram(ts, stop, p)
    ensures p != ""
  {
    var w :| NGRAM_MIN <= |w| <= NGRAM_MAX && Window(ts, w) && NoStop(w, stop) && p == Join(w);
  }

  /** File slugs, one file at a time. */
  method MergeSlugs(found: Found, files: seq<ChangedFile>, lower: Lowering, stop: set<string>) returns (r: Found)
    ensures forall t, p :: p in TargetsOf(r, t) <==> p in TargetsOf(found, t) || (t != "" && SlugNames(files, lower, stop, t, p))
    ensures forall t :: t in r ==> t in found || t != ""
  {
    r := found;
    assert files[..0] == [] && files[..|files|] == files;
    for k := 0 to |files|
      invariant forall t, p :: p in TargetsOf(r, t) <==> p in TargetsOf(found, t) || (t != "" && SlugNames(files[..k], lower, stop, t, p))
      invariant forall t :: t in r ==> t in found || t != ""
    {
      assert files[..k + 1] == files[..k] + [files[k]];
      var slug: Option<string> := None;
      if files[k].inDocs && files[k].stem.Some? {
        slug := DocSlugPhrase(files[k].stem.value, lower, stop);
      }
      assert slug == SlugIn(files[k], lower, stop);
      forall t, p { SlugNamesGrows(files[..k], files[k], lower, stop, t, p); }
      hide SlugIn, SlugNames;
      if slug.Some? { r := MergePhrase(r, slug.value, {files[k].path}); }
    }
  }

  ghost predicate SlugNames(files: seq<ChangedFile>, lower: Lowering, stop: set<string>, t: string, p: string) {
    exists f :: f in files && f.path == p && SlugIn(f, lower, stop) == Some(t)
  }

  lemma SlugNamesGrows(files: seq<ChangedFile>, f: ChangedFile, lower: Lowering, stop: set<string>, t: string, p: string)
    ensures SlugNames(files + [f], lower, stop, t, p) <==>
      SlugNames(files, lower, stop, t, p) || (f.path == p && SlugIn(f, lower, stop) == Some(t))
  {
    hide SlugIn;
    assert forall x :: x in files + [f] <==> x in files || x == f;
  }

  /** Subject n-grams, each naming all changed files. */
  method MergeGrams(found: Found, grams: set<string>, targets: set<string>) returns (r: Found)
    requires "" !in grams
    ensures forall t :: TargetsOf(r, t) == TargetsOf(found, t) + (if t in grams then targets else {})
    ensures forall t :: t in r ==> t in found || t != ""
  {
    r := found;
    var todo := grams;
    while todo != {}
      invariant todo <= grams
      invariant forall t :: TargetsOf(r, t) == TargetsOf(found, t) + (if t in grams && t !in todo then targets else {})
      invariant forall t :: t in r ==> t in found || t != ""
      decreases todo
    {
      var g :| g in todo;
      todo := todo - {g};
      r := MergePhrase(r, g, targets);
    }
  }

  function PathSet(files: seq<ChangedFile>): set<string> { set f | f in files :: f.path }

  /** A commit yields exactly the (phrase, path) pairs its scope, subject and document
      slugs name. */
  method MineCommit(scope: Option<string>, description: string, files: seq<ChangedFile>, lower: Lowering, stop: set<string>)
    returns (found: Found)
    ensures forall t, p :: p in TargetsOf(found, t) <==> t != "" && Names(scope, description, files, lower, stop, t, p)
    ensures "" !in found
  {
    found := map[];
    var all := PathSet(files);
    var ts := Tokenize(description, lower);
    if files != [] {
      if scope.Some? { found := MergePhrase(found, Normalize(scope.value, lower, stop), all); }
      var grams := NgramPhrases(ts, stop);
      forall g | g in grams ensures g != "" { NgramIsNotBlank(ts, stop, g); }
      found := MergeGrams(found, grams, all);
    }
    ghost var before := found;
    found := MergeSlugs(found, files, lower, stop);
    hide Normalize, IsNgram, SlugNames, Tokenize;
    forall t, p ensures p in TargetsOf(found, t) <==> t != "" && Names(scope, description, files, lower, stop, t, p) {
      NamesSplit(scope, description, files, lower, stop, t, p);
    }
  }

  lemma NamesSplit(scope: Option<string>, description: string, files: seq<ChangedFile>, lower: Lowering, stop: set<string>,
                   t: string, p: string)
    ensures Names(scope, description, files, lower, stop, t, p) <==>
      (p in PathSet(files) && ((scope.Some? && t == Normalize(scope.value, lower, stop)) || IsNgram(Tokenize(description, lower), stop, t))) ||
      SlugNames(files, lower, stop, t, p)
  {
    hide Normalize, IsNgram, SlugIn, Tokenize;
  }

  /** Every phrase a commit yields survives normalisation, so asking for it finds it. */
  lemma CommitPhrasesAreFixed(scope: Option<string>, description: string, files: seq<ChangedFile>, lower: Lowering, stop: set<string>,
                              t: string, p: string)
    requires IsLowering(lower) && Names(scope, description, files, lower, stop, t, p)
    ensures Normalize(t, lower, stop) == t
  {
    var f :| f in files && f.path == p &&
      ((scope.Some? && t == Normalize(scope.value, lower, stop)) ||
       IsNgram(Tokenize(description, lower), stop, t) || SlugIn(f, lower, stop) == Some(t));
    if scope.Some? && t == Normalize(scope.value, lower, stop) {
      NormalizeIsIdempotent(scope.value, lower, stop);
    } else if IsNgram(Tokenize(description, lower), stop, t) {
      NgramsAreWords(description, lower, stop, t);
    } else {
      SlugsAreWords(f.stem.value, lower, stop);
    }
  }

  /** Sorted target lists name each path once. */
  lemma SortedTargetsAreTidy(sort: Sorter, targets: set<string>, p: string)
    requires IsSorter(sort)
    ensures p in sort(targets) <==> p in targets
    ensures p in targets ==> multiset(sort(targets))[p] == 1
  {
    assert multiset(sort(targets)) == multiset(targets);
    assert p in sort(targets) <==> p in multiset(sort(targets));
  }

  /** So a miner that sorts what it found meets what the aggregates rely on. */
  lemma SortedMinerIsTidy(found: (string, string) -> Found, sort: Sorter)
    requires IsSorter(sort)
    ensures AliasAggregates.TidyMiner((key, hash) => map t | t in found(key, hash) :: sort(found(key, hash)[t]))
  {
    forall s, p | p in sort(s) ensures multiset(sort(s))[p] == 1 { SortedTargetsAreTidy(sort, s, p); }
  }
}
