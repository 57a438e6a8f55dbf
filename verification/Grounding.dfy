/** Grounding of extracted quotes in the source text, up to whitespace, and the mapping
    of an extraction to document artifacts. */
module Grounding {
  import opened Prelude

  /** Whitespace is a parameter; all that is used is that a space counts. */
  type Spaces = char -> bool

  ghost predicate IsSpaces(sp: Spaces) { sp(' ') }

  // ------------------------------------------------------- split and join

  predicate EndsInWord(s: string, sp: Spaces) {
    s != "" && !sp(s[|s| - 1])
  }

  /** The maximal runs of other characters, as `split()` gives them. */
  function Split(s: string, sp: Spaces): (ts: seq<string>)
    ensures EndsInWord(s, sp) ==> ts != []
  {
    if s == "" then []
    else
      var init, c := s[..|s| - 1], s[|s| - 1];
      var ts := Split(init, sp);
      if sp(c) then ts
      else if EndsInWord(init, sp) then ts[..|ts| - 1] + [ts[|ts| - 1] + [c]]
      else ts + [[c]]
  }

  function Join(ts: seq<string>): string {
    if ts == [] then ""
    else if |ts| == 1 then ts[0]
    else Join(ts[..|ts| - 1]) + " " + ts[|ts| - 1]
  }

  /** Every run of whitespace becomes one space, and the ends are stripped. */
  function Norm(s: string, sp: Spaces): string {
    Join(Split(s, sp))
  }

  lemma {:induction false} TokensAreWords(s: string, sp: Spaces)
    ensures forall t :: t in Split(s, sp) ==> t != ""
  {
    if s != "" { TokensAreWords(s[..|s| - 1], sp); }
  }

  lemma JoinIsBlank(ts: seq<string>)
    requires forall t :: t in ts ==> t != ""
    ensures Join(ts) == "" <==> ts == []
  {
    if |ts| == 1 { assert ts[0] in ts; }
  }

  lemma JoinExtendsLast(ts: seq<string>, c: char)
    requires ts != []
    ensures Join(ts[..|ts| - 1] + [ts[|ts| - 1] + [c]]) == Join(ts) + [c]
  {
    var us := ts[..|ts| - 1] + [ts[|ts| - 1] + [c]];
    assert us[..|us| - 1] == ts[..|ts| - 1];
    if |ts| > 1 {
      var a, t := Join(ts[..|ts| - 1]) + " ", ts[|ts| - 1];
      assert a + (t + [c]) == (a + t) + [c];
    }
  }

  lemma JoinAppends(ts: seq<string>, t: string)
    ensures Join(ts + [t]) == if ts == [] then t else Join(ts) + " " + t
  {
    assert (ts + [t])[..|ts|] == ts;
  }

  /** Normalisation, one character at a time. */
  lemma NormStep(s: string, c: char, sp: Spaces)
    ensures Norm("", sp) == ""
    ensures Norm(s + [c], sp) ==
      if sp(c) then Norm(s, sp)
      else if EndsInWord(s, sp) then Norm(s, sp) + [c]
      else if Norm(s, sp) == "" then [c]
      else Norm(s, sp) + " " + [c]
  {
    assert (s + [c])[..|s|] == s;
    var ts := Split(s, sp);
    TokensAreWords(s, sp);
    JoinIsBlank(ts);
    if !sp(c) {
      if EndsInWord(s, sp) { JoinExtendsLast(ts, c); } else { JoinAppends(ts, [c]); }
    }
  }

  predicate Blank(s: string, sp: Spaces) {
    forall k :: 0 <= k < |s| ==> sp(s[k])
  }

  lemma {:induction false} NormIsBlankIff(s: string, sp: Spaces)
    ensures Norm(s, sp) == "" <==> Blank(s, sp)
  {
    if s != "" {
      var init, c := s[..|s| - 1], s[|s| - 1];
      assert s == init + [c];
      NormIsBlankIff(init, sp);
      NormStep(init, c, sp);
    } else {
      NormStep("", ' ', sp);
    }
  }

  // ------------------------------------------------------- concatenation

  /** What stands between the two normal forms in the normal form of `x + y`. */
  function Glue(x: string, y: string, sp: Spaces): string {
    if Norm(x, sp) == "" || Norm(y, sp) == "" then ""
    else if EndsInWord(x, sp) && !sp(y[0]) then ""
    else " "
  }

  lemma ConcatOne(x: string, c: char, sp: Spaces)
    ensures Norm(x + [c], sp) == Norm(x, sp) + Glue(x, [c], sp) + Norm([c], sp)
  {
    assert "" + [c] == [c];
    NormStep(x, c, sp);
    NormStep("", c, sp);
    NormIsBlankIff(x, sp);
    hide Norm;
    assert Norm(x, sp) + "" + "" == Norm(x, sp);
    assert Norm(x, sp) + "" + [c] == Norm(x, sp) + [c];
  }

  lemma ConcatStep(x: string, init: string, c: char, sp: Spaces)
    requires init != ""
    requires Norm(x + init, sp) == Norm(x, sp) + Glue(x, init, sp) + Norm(init, sp)
    ensures Norm((x + init) + [c], sp) == Norm(x, sp) + Glue(x, init + [c], sp) + Norm(init + [c], sp)
  {
    hide Norm;
    NormStep(x + init, c, sp);
    NormStep(init, c, sp);
    BlankEnds(x, init, sp);
    assert (init + [c])[0] == init[0];
    var n, g, m := Norm(x, sp), Glue(x, init, sp), Norm(init, sp);
    if sp(c) {
      assert Glue(x, init + [c], sp) == g;
    } else if EndsInWord(init, sp) {
      assert Glue(x, init + [c], sp) == g;
      Reassociate(n, g, m, [c]);
    } else if m == "" {
      assert g == "";
      JoinBlank(n, c);
    } else {
      assert Glue(x, init + [c], sp) == g;
      Reassociate(n, g, m, " ");
      Reassociate(n, g, m + " ", [c]);
    }
  }

  lemma Reassociate(n: string, g: string, m: string, t: string)
    ensures (n + g + m) + t == n + g + (m + t)
  {}

  lemma JoinBlank(n: string, c: char)
    ensures n + "" + "" == n && n + " " + [c] == (n + " ") + [c] && "" + "" + [c] == [c]
  {}

  lemma BlankEnds(x: string, init: string, sp: Spaces)
    requires init != ""
    ensures EndsInWord(x + init, sp) <==> EndsInWord(init, sp)
    ensures EndsInWord(init, sp) ==> Norm(init, sp) != ""
    ensures Norm(init, sp) == "" ==> sp(init[0])
    ensures EndsInWord(x, sp) ==> Norm(x, sp) != ""
  {
    NormIsBlankIff(x, sp);
    NormIsBlankIff(init, sp);
  }

  lemma {:induction false} NormOfConcat(x: string, y: string, sp: Spaces)
    requires y != ""
    ensures Norm(x + y, sp) == Norm(x, sp) + Glue(x, y, sp) + Norm(y, sp)
  {
    var init, c := y[..|y| - 1], y[|y| - 1];
    assert y == init + [c] && x + y == (x + init) + [c];
    hide Norm, Glue;
    if init == "" {
      assert x + init == x && y == [c];
      ConcatOne(x, c, sp);
    } else {
      NormOfConcat(x, init, sp);
      ConcatStep(x, init, c, sp);
    }
  }

  // ------------------------------------------------------- grounding

  predicate OccursAt(s: string, w: string, k: int) {
    0 <= k <= |s| - |w| && s[k..k + |w|] == w
  }

  predicate Contains(s: string, w: string) {
    exists k :: 0 <= k <= |s| && OccursAt(s, w, k)
  }

  /** An empty needle never grounds. */
  predicate Grounded(quote: string, source: string, sp: Spaces) {
    Norm(quote, sp) != "" && Contains(Norm(source, sp), Norm(quote, sp))
  }

  lemma Occurrence(s: string, w: string, k: int)
    requires OccursAt(s, w, k)
    ensures 0 <= k && k + |w| <= |s| && s[k..k + |w|] == w
  {}

  lemma ContainsMiddle(a: string, w: string, b: string)
    ensures Contains(a + w + b, w)
  {
    assert (a + w + b)[|a|..|a| + |w|] == w;
    assert OccursAt(a + w + b, w, |a|);
  }

  lemma NormOfPrefixed(x: string, q: string, sp: Spaces) returns (a: string)
    requires q != ""
    ensures Norm(x + q, sp) == a + Norm(q, sp)
  {
    NormOfConcat(x, q, sp);
    a := Norm(x, sp) + Glue(x, q, sp);
  }

  lemma NormOfSuffixed(z: string, y: string, sp: Spaces) returns (b: string)
    ensures Norm(z + y, sp) == Norm(z, sp) + b
  {
    if y == "" {
      assert z + y == z;
      b := "";
    } else {
      NormOfConcat(z, y, sp);
      b := Glue(z, y, sp) + Norm(y, sp);
    }
  }

  /** Complete: every raw substring with a character that is no whitespace grounds. */
  lemma SubstringsGround(source: string, from: nat, to: nat, sp: Spaces)
    requires from <= to <= |source| && !Blank(source[from..to], sp)
    ensures Grounded(source[from..to], source, sp)
  {
    var x, q, y := source[..from], source[from..to], source[to..];
    assert q != "";
    assert source == (x + q) + y;
    var a := NormOfPrefixed(x, q, sp);
    var b := NormOfSuffixed(x + q, y, sp);
    NormIsBlankIff(q, sp);
    hide Norm;
    ContainsMiddle(a, Norm(q, sp), b);
  }

  /** Where a character of the normal form, not the joining space, comes from. */
  lemma {:induction false} OriginOf(s: string, k: nat, sp: Spaces) returns (i: nat)
    requires IsSpaces(sp) && k < |Norm(s, sp)| && !sp(Norm(s, sp)[k])
    ensures i < |s| && s[i] == Norm(s, sp)[k]
    ensures Norm(s[..i + 1], sp) == Norm(s, sp)[..k + 1]
  {
    hide Norm;
    NormStep("", ' ', sp);
    var init, c := s[..|s| - 1], s[|s| - 1];
    assert s == init + [c];
    NormStep(init, c, sp);
    hide EndsInWord;
    if k < |Norm(init, sp)| {
      i := OriginOf(init, k, sp);
      assert init[..i + 1] == s[..i + 1];
      assert Norm(init, sp)[..k + 1] == Norm(s, sp)[..k + 1];
    } else {
      i := |s| - 1;
      assert s[..i + 1] == s;
      assert Norm(s, sp)[..|Norm(s, sp)|] == Norm(s, sp);
    }
  }

  lemma {:induction false} NormEndsInWords(s: string, sp: Spaces)
    requires Norm(s, sp) != ""
    ensures !sp(Norm(s, sp)[0]) && !sp(Norm(s, sp)[|Norm(s, sp)| - 1])
  {
    if s == "" {
      NormStep("", ' ', sp);
    } else {
      var init, c := s[..|s| - 1], s[|s| - 1];
      assert s == init + [c];
      NormStep(init, c, sp);
      if Norm(init, sp) != "" { NormEndsInWords(init, sp); }
      hide Norm;
    }
  }

  lemma SplitStep(s: string, c: char, sp: Spaces)
    ensures Split(s + [c], sp) ==
      var ts := Split(s, sp);
      if sp(c) then ts else if EndsInWord(s, sp) then ts[..|ts| - 1] + [ts[|ts| - 1] + [c]] else ts + [[c]]
  {
    assert (s + [c])[..|s|] == s;
  }

  /** Normalising loses no word boundary. */
  lemma {:induction false} SplitOfNorm(s: string, sp: Spaces)
    requires IsSpaces(sp)
    ensures Split(Norm(s, sp), sp) == Split(s, sp)
  {
    if s == "" {
      NormStep("", ' ', sp);
    } else {
      var init, c := s[..|s| - 1], s[|s| - 1];
      assert s == init + [c];
      SplitOfNorm(init, sp);
      NormStep(init, c, sp);
      SplitStep(init, c, sp);
      var n := Norm(init, sp);
      NormIsBlankIff(init, sp);
      if n != "" { NormEndsInWords(init, sp); }
      hide Norm, Split;
      if !sp(c) {
        SplitStep(n, c, sp);
        assert "" + [c] == [c];
        if n != "" && !EndsInWord(init, sp) {
          SplitStep(n, ' ', sp);
          SplitStep(n + " ", c, sp);
          assert n + [' '] == n + " ";
        }
      }
    }
  }

  lemma NormIsFaithful(s: string, t: string, sp: Spaces)
    requires IsSpaces(sp)
    ensures Norm(s, sp) == Norm(t, sp) <==> Split(s, sp) == Split(t, sp)
  {
    SplitOfNorm(s, sp);
    SplitOfNorm(t, sp);
  }

  lemma SpanOf(source: string, k: nat, w: string, j: nat, i: nat, sp: Spaces)
    requires w != "" && k + |w| <= |Norm(source, sp)| && Norm(source, sp)[k..k + |w|] == w && !sp(w[0])
    requires j <= i < |source| && source[j] == w[0]
    requires Norm(source[..j + 1], sp) == Norm(source, sp)[..k + 1]
    requires Norm(source[..i + 1], sp) == Norm(source, sp)[..k + |w|]
    ensures Norm(source[j..i + 1], sp) == w
  {
    var x, r := source[..j], source[j..i + 1];
    assert source[..j + 1] == x + [source[j]] && source[..i + 1] == x + r;
    NormOfConcat(x, [source[j]], sp);
    NormOfConcat(x, r, sp);
    NormIsBlankIff([source[j]], sp);
    assert !sp(r[0]);
    NormIsBlankIff(r, sp);
    NormStep("", source[j], sp);
    assert "" + [source[j]] == [source[j]];
    var a, n := Norm(x, sp) + Glue(x, r, sp), Norm(source, sp);
    assert Glue(x, r, sp) == Glue(x, [source[j]], sp);
    assert |Norm([source[j]], sp)| == 1;
    hide Norm, Glue;
    assert a + Norm([source[j]], sp) == n[..k + 1];
    assert |a| == k;
    assert a + Norm(r, sp) == n[..k + |w|];
    assert (a + Norm(r, sp))[|a|..] == Norm(r, sp);
    assert n[..k + |w|][k..] == n[k..k + |w|];
  }

  lemma {:induction false} NormIsMonotone(s: string, i: nat, sp: Spaces)
    requires i <= |s|
    ensures |Norm(s[..i], sp)| <= |Norm(s, sp)|
  {
    assert s == s[..i] + s[i..];
    var b := NormOfSuffixed(s[..i], s[i..], sp);
  }

  /** Sound and complete: a quote grounds if and only if some raw span of the source has
      the same sequence of words. */
  lemma GroundedIff(quote: string, source: string, sp: Spaces)
    requires IsSpaces(sp)
    ensures Grounded(quote, source, sp) <==> HasSpan(quote, source, sp)
  {
    if Grounded(quote, source, sp) {
      var w, n := Norm(quote, sp), Norm(source, sp);
      var k: int :| 0 <= k <= |n| && OccursAt(n, w, k);
      Occurrence(n, w, k);
      NormEndsInWords(quote, sp);
      var last := k + |w| - 1;
      assert |w| > 0 && n[k..k + |w|] == w;
      assert n[k] == w[0] && n[last] == w[|w| - 1];
      var j := OriginOf(source, k, sp);
      var i := OriginOf(source, last, sp);
      if i < j { OriginIsUnique(source, i, j, sp); }
      SpanOf(source, k, w, j, i, sp);
      NormIsFaithful(source[j..i + 1], quote, sp);
      assert !Blank(source[j..i + 1], sp);
      assert SpanWith(quote, source, sp, j, i + 1);
    }
    if HasSpan(quote, source, sp) {
      var from, to :| SpanWith(quote, source, sp, from, to);
      SubstringsGround(source, from, to, sp);
    }
  }

  /** Later characters that are no whitespace make the normal form longer. */
  lemma OriginIsUnique(s: string, i: nat, j: nat, sp: Spaces)
    requires i < j < |s| && !sp(s[j])
    ensures |Norm(s[..i + 1], sp)| < |Norm(s[..j + 1], sp)|
  {
    assert s[..j + 1] == s[..j] + [s[j]];
    NormStep(s[..j], s[j], sp);
    NormIsMonotone(s[..j], i + 1, sp);
    assert s[..j][..i + 1] == s[..i + 1];
  }

  predicate SpanWith(quote: string, source: string, sp: Spaces, from: int, to: int) {
    0 <= from <= to <= |source| && !Blank(source[from..to], sp) && Split(source[from..to], sp) == Split(quote, sp)
  }

  ghost predicate HasSpan(quote: string, source: string, sp: Spaces) {
    exists from, to :: SpanWith(quote, source, sp, from, to)
  }

  lemma ContainsEachOther(a: string, b: string)
    requires Contains(a, b) && Contains(b, a)
    ensures a == b
  {
    var k: int :| 0 <= k <= |a| && OccursAt(a, b, k);
    var j: int :| 0 <= j <= |b| && OccursAt(b, a, j);
    assert a[0..|b|] == b;
  }

  lemma ContainsItself(a: string)
    ensures Contains(a, a)
  {
    assert a[0..|a|] == a;
    assert OccursAt(a, a, 0);
  }

  /** Verdicts depend on token sequences, and tell them apart: two sources ground the same
      quotes exactly when their tokens are the same. */
  lemma SameVerdictsIff(s: string, s': string, sp: Spaces)
    requires IsSpaces(sp)
    ensures (forall q :: Grounded(q, s, sp) == Grounded(q, s', sp)) <==> Split(s, sp) == Split(s', sp)
  {
    NormIsFaithful(s, s', sp);
    ContainsItself(Norm(s, sp));
    ContainsItself(Norm(s', sp));
    hide Norm, Contains;
    if forall q :: Grounded(q, s, sp) == Grounded(q, s', sp) {
      assert Grounded(s, s, sp) == Grounded(s, s', sp);
      assert Grounded(s', s, sp) == Grounded(s', s', sp);
      if Norm(s, sp) != "" && Norm(s', sp) != "" { ContainsEachOther(Norm(s, sp), Norm(s', sp)); }
    }
  }

  /** Two quotes ground in the same sources exactly when their tokens are the same. */
  lemma SameQuotesIff(q: string, q': string, sp: Spaces)
    requires IsSpaces(sp)
    ensures (forall s :: Grounded(q, s, sp) == Grounded(q', s, sp)) <==> Split(q, sp) == Split(q', sp)
  {
    NormIsFaithful(q, q', sp);
    ContainsItself(Norm(q, sp));
    ContainsItself(Norm(q', sp));
    hide Norm, Contains;
    if forall s :: Grounded(q, s, sp) == Grounded(q', s, sp) {
      assert Grounded(q, q, sp) == Grounded(q', q, sp);
      assert Grounded(q, q', sp) == Grounded(q', q', sp);
      if Norm(q, sp) != "" && Norm(q', sp) != "" { ContainsEachOther(Norm(q, sp), Norm(q', sp)); }
    }
  }

  // ------------------------------------------------------- mapping an extraction

  /** One extracted node; `location` is None when it is no string. */
  datatype Node = Node(file: string, id: string, kind: string, name: Option<string>, location: Option<string>)

  datatype Knowledge = Interpreted | SourceBacked

  datatype Draft = Draft(kind: string, knowledge: Knowledge, title: Option<string>, body: string, authority: real)

  const FACT_AUTHORITY := 0.8
  const CONCEPT_AUTHORITY := 0.6
  const SUMMARY_AUTHORITY := 0.5

  predicate IsGrounded(location: Option<string>, source: string, sp: Spaces) {
    location.Some? && Grounded(location.value, source, sp)
  }

  function OrElse(name: Option<string>, other: string): string {
    if name.Some? && name.value != "" then name.value else other
  }

  /** A document node becomes a summary, a concept node a fact if its location grounds
      and an interpretation if not; anything else, and other files, nothing. */
  function DraftOf(n: Node, source: string, path: string, sp: Spaces): Option<Draft> {
    if n.file != path then None
    else if n.kind == "document" then Some(Draft("summary", Interpreted, n.name, OrElse(n.name, path), SUMMARY_AUTHORITY))
    else if n.kind != "concept" || n.id == "" then None
    else if IsGrounded(n.location, source, sp)
    then Some(Draft("source_backed_fact", SourceBacked, n.name, n.location.value, FACT_AUTHORITY))
    else Some(Draft("concept", Interpreted, n.name, OrElse(n.name, n.id), CONCEPT_AUTHORITY))
  }

  function DraftsOf(nodes: seq<Node>, source: string, path: string, sp: Spaces): seq<Draft> {
    if nodes == [] then []
    else
      var d := DraftOf(nodes[|nodes| - 1], source, path, sp);
      DraftsOf(nodes[..|nodes| - 1], source, path, sp) + (if d.Some? then [d.value] else [])
  }

  lemma {:induction false} DraftComesFromNode(nodes: seq<Node>, source: string, path: string, sp: Spaces, d: Draft)
    ensures d in DraftsOf(nodes, source, path, sp) <==> exists n :: n in nodes && DraftOf(n, source, path, sp) == Some(d)
  {
    if nodes != [] {
      var init, last := nodes[..|nodes| - 1], nodes[|nodes| - 1];
      assert nodes == init + [last];
      DraftComesFromNode(init, source, path, sp, d);
    }
  }

  /** Every fact emitted as source-backed has, word for word, a span of the source as
      its body; only facts claim the fact authority. */
  lemma FactsAreSpans(nodes: seq<Node>, source: string, path: string, sp: Spaces, d: Draft)
    requires IsSpaces(sp) && d in DraftsOf(nodes, source, path, sp)
    ensures d.knowledge.SourceBacked? <==> d.kind == "source_backed_fact"
    ensures d.knowledge.SourceBacked? ==> HasSpan(d.body, source, sp)
    ensures d.knowledge.SourceBacked? <==> d.authority == 0.8
  {
    DraftComesFromNode(nodes, source, path, sp, d);
    var n :| n in nodes && DraftOf(n, source, path, sp) == Some(d);
    hide DraftsOf, Grounded, HasSpan;
    assert "summary" != "source_backed_fact" && "concept" != "source_backed_fact";
    if d.knowledge.SourceBacked? { GroundedIff(d.body, source, sp); }
  }

  /** And no concept whose location is such a span is downgraded. */
  lemma SpansBecomeFacts(nodes: seq<Node>, source: string, path: string, sp: Spaces, n: Node)
    requires IsSpaces(sp) && n in nodes && n.file == path && n.kind == "concept" && n.id != ""
    requires n.location.Some? && HasSpan(n.location.value, source, sp)
    ensures Draft("source_backed_fact", SourceBacked, n.name, n.location.value, FACT_AUTHORITY) in DraftsOf(nodes, source, path, sp)
  {
    var d := Draft("source_backed_fact", SourceBacked, n.name, n.location.value, FACT_AUTHORITY);
    GroundedIff(n.location.value, source, sp);
    DraftComesFromNode(nodes, source, path, sp, d);
    assert "concept" != "document" by { assert "concept"[0] != "document"[0]; }
    hide DraftsOf, Grounded, HasSpan;
    assert DraftOf(n, source, path, sp) == Some(d);
  }

  method MapDocExtraction(nodes: seq<Node>, source: string, path: string, sp: Spaces)
    returns (drafts: seq<Draft>, grounded: nat, interpreted: nat)
    ensures drafts == DraftsOf(nodes, source, path, sp)
    ensures grounded + interpreted <= |drafts|
  {
    drafts, grounded, interpreted := [], 0, 0;
    hide Grounded;
    for k := 0 to |nodes|
      invariant drafts == DraftsOf(nodes[..k], source, path, sp)
      invariant grounded + interpreted <= |drafts|
    {
      assert nodes[..k + 1][..k] == nodes[..k];
      var n := nodes[k];
      if n.file == path {
        if n.kind == "document" {
          drafts := drafts + [Draft("summary", Interpreted, n.name, OrElse(n.name, path), SUMMARY_AUTHORITY)];
        } else if n.kind == "concept" && n.id != "" {
          if IsGrounded(n.location, source, sp) {
            grounded := grounded + 1;
            drafts := drafts + [Draft("source_backed_fact", SourceBacked, n.name, n.location.value, FACT_AUTHORITY)];
          } else {
            interpreted := interpreted + 1;
            drafts := drafts + [Draft("concept", Interpreted, n.name, OrElse(n.name, n.id), CONCEPT_AUTHORITY)];
          }
        }
      }
    }
    assert nodes[..|nodes|] == nodes;
  }
}
