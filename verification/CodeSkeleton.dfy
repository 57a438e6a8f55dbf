/** Code skeletons: function bodies become placeholders, and every line is accounted for. */
module CodeSkeleton {
  import opened Prelude

  // ------------------------------------------------------- intervals

  /** 1-based inclusive line range. */
  datatype Interval = Interval(start: int, end: int)

  /** A function: its signature line, the first line of its body, the last line of a
      leading docstring if there is one, and its last line. */
  datatype Fn = Fn(line: int, first: int, docEnd: Option<int>, end: int)

  function BodyStart(f: Fn): int {
    if f.docEnd.Some? then f.docEnd.value + 1 else f.first
  }

  /** Only lines strictly below the signature collapse. */
  function RawIntervals(fns: seq<Fn>): seq<Interval> {
    if fns == [] then []
    else
      var f := fns[|fns| - 1];
      RawIntervals(fns[..|fns| - 1]) +
        (if BodyStart(f) > f.line && BodyStart(f) <= f.end then [Interval(BodyStart(f), f.end)] else [])
  }

  predicate Covers(ivs: seq<Interval>, n: int) {
    exists k :: 0 <= k < |ivs| && ivs[k].start <= n <= ivs[k].end
  }

  /** By start, and by decreasing end among equal starts. */
  predicate InOrder(a: Interval, b: Interval) {
    a.start < b.start || (a.start == b.start && a.end >= b.end)
  }

  ghost predicate Ordered(ivs: seq<Interval>) {
    forall i, j :: 0 <= i < j < |ivs| ==> InOrder(ivs[i], ivs[j])
  }

  ghost predicate Proper(ivs: seq<Interval>) {
    forall k :: 0 <= k < |ivs| ==> ivs[k].start <= ivs[k].end
  }

  /** Strictly ascending and pairwise disjoint. */
  ghost predicate Separate(ivs: seq<Interval>) {
    Proper(ivs) && forall i, j :: 0 <= i < j < |ivs| ==> ivs[i].end < ivs[j].start
  }

  function Max(a: int, b: int): int { if a >= b then a else b }

  /** Absorb what starts inside the last range. */
  function Merge(ivs: seq<Interval>): seq<Interval> {
    if ivs == [] then []
    else
      var m, iv := Merge(ivs[..|ivs| - 1]), ivs[|ivs| - 1];
      if m != [] && iv.start <= m[|m| - 1].end
      then m[..|m| - 1] + [Interval(m[|m| - 1].start, Max(m[|m| - 1].end, iv.end))]
      else m + [iv]
  }

  lemma CoversLast(m: seq<Interval>, iv: Interval, n: int)
    ensures Covers(m + [iv], n) <==> Covers(m, n) || iv.start <= n <= iv.end
  {
    var all := m + [iv];
    if Covers(m, n) {
      var k :| 0 <= k < |m| && m[k].start <= n <= m[k].end;
      assert all[k] == m[k];
    }
    assert all[|m|] == iv;
  }

  lemma AbsorbCovers(m: seq<Interval>, iv: Interval, n: int)
    requires m != [] && m[|m| - 1].start <= iv.start <= m[|m| - 1].end
    ensures var last := m[|m| - 1];
      Covers(m[..|m| - 1] + [Interval(last.start, Max(last.end, iv.end))], n) <==> Covers(m, n) || iv.start <= n <= iv.end
  {
    var front, last := m[..|m| - 1], m[|m| - 1];
    assert m == front + [last];
    CoversLast(front, last, n);
    CoversLast(front, Interval(last.start, Max(last.end, iv.end)), n);
  }

  /** The merged ranges so far, with one more that starts no earlier than the last. */
  function MergeOne(m: seq<Interval>, iv: Interval): seq<Interval> {
    if m != [] && iv.start <= m[|m| - 1].end
    then m[..|m| - 1] + [Interval(m[|m| - 1].start, Max(m[|m| - 1].end, iv.end))]
    else m + [iv]
  }

  lemma MergeOneIs(m: seq<Interval>, iv: Interval, n: int)
    requires Separate(m) && iv.start <= iv.end && (m != [] ==> m[|m| - 1].start <= iv.start)
    ensures Separate(MergeOne(m, iv)) && MergeOne(m, iv) != []
    ensures MergeOne(m, iv)[|MergeOne(m, iv)| - 1].start <= iv.start
    ensures Covers(MergeOne(m, iv), n) <==> Covers(m, n) || iv.start <= n <= iv.end
  {
    CoversLast(m, iv, n);
    if m != [] && iv.start <= m[|m| - 1].end { AbsorbCovers(m, iv, n); }
    hide Covers;
  }

  /** Merged ranges ascend, are disjoint, and cover exactly the lines the raw ones
      cover; and every merged range starts where a raw one does. */
  lemma {:induction false} MergeIsUnion(ivs: seq<Interval>, n: int)
    requires Ordered(ivs) && Proper(ivs)
    ensures Separate(Merge(ivs))
    ensures Covers(Merge(ivs), n) <==> Covers(ivs, n)
    ensures ivs != [] ==> Merge(ivs) != [] && Merge(ivs)[|Merge(ivs)| - 1].start <= ivs[|ivs| - 1].start
    ensures ivs == [] ==> Merge(ivs) == []
  {
    if ivs != [] {
      var init, iv := ivs[..|ivs| - 1], ivs[|ivs| - 1];
      MergeStep(ivs);
      hide *;
      MergeIsUnion(init, n);
      MergeOneIs(Merge(init), iv, n);
      CoversLast(init, iv, n);
    } else {
      assert Merge(ivs) == [];
    }
  }

  lemma MergeStep(ivs: seq<Interval>)
    requires Ordered(ivs) && Proper(ivs) && ivs != []
    ensures var init, iv := ivs[..|ivs| - 1], ivs[|ivs| - 1];
      && ivs == init + [iv] && Ordered(init) && Proper(init) && iv.start <= iv.end
      && (init != [] ==> init[|init| - 1].start <= iv.start) && (init == [] ==> Merge(init) == [])
      && Merge(ivs) == MergeOne(Merge(init), iv)
  {
    var init := ivs[..|ivs| - 1];
    if init != [] { assert InOrder(ivs[|init| - 1], ivs[|ivs| - 1]); }
  }

  /** `raw` sorted is some ordered permutation of it. */
  ghost predicate SortOf(raw: seq<Interval>, ivs: seq<Interval>) {
    Ordered(ivs) && multiset(ivs) == multiset(raw)
  }

  lemma SameCover(raw: seq<Interval>, ivs: seq<Interval>, n: int)
    requires multiset(ivs) == multiset(raw)
    ensures Covers(ivs, n) <==> Covers(raw, n)
  {
    if Covers(ivs, n) {
      var k :| 0 <= k < |ivs| && ivs[k].start <= n <= ivs[k].end;
      assert ivs[k] in multiset(ivs) && ivs[k] in multiset(raw);
      assert ivs[k] in raw;
    }
    if Covers(raw, n) {
      var k :| 0 <= k < |raw| && raw[k].start <= n <= raw[k].end;
      assert raw[k] in multiset(raw) && raw[k] in multiset(ivs);
      assert raw[k] in ivs;
    }
  }

  lemma {:induction false} RawAreProper(fns: seq<Fn>)
    ensures Proper(RawIntervals(fns))
  {
    if fns != [] { RawAreProper(fns[..|fns| - 1]); }
  }

  lemma SortedAreProper(raw: seq<Interval>, ivs: seq<Interval>)
    requires Proper(raw) && multiset(ivs) == multiset(raw)
    ensures Proper(ivs)
  {
    forall k | 0 <= k < |ivs| ensures ivs[k].start <= ivs[k].end {
      assert ivs[k] in multiset(ivs) && ivs[k] in multiset(raw);
      assert ivs[k] in raw;
    }
  }

  method MergeIntervals(ivs: seq<Interval>) returns (merged: seq<Interval>)
    ensures merged == Merge(ivs)
  {
    if ivs == [] {
      return [];
    }
    merged := [ivs[0]];
    assert ivs[..1][..0] == [] && ivs[..1] == [ivs[0]];
    for k := 1 to |ivs|
      invariant merged == Merge(ivs[..k]) && merged != []
    {
      assert ivs[..k + 1][..k] == ivs[..k];
      var last := merged[|merged| - 1];
      if ivs[k].start <= last.end {
        merged := merged[..|merged| - 1] + [Interval(last.start, Max(last.end, ivs[k].end))];
      } else {
        merged := merged + [ivs[k]];
      }
    }
    assert ivs[..|ivs|] == ivs;
  }

  /** The ranges to collapse, from the functions of a file. */
  method CollapseIntervals(fns: seq<Fn>, ivs: seq<Interval>) returns (merged: seq<Interval>)
    requires SortOf(RawIntervals(fns), ivs)
    ensures Separate(merged)
    ensures forall n :: Covers(merged, n) <==> Covers(RawIntervals(fns), n)
  {
    RawAreProper(fns);
    SortedAreProper(RawIntervals(fns), ivs);
    MergeIsUnion(ivs, 0);
    forall n ensures Covers(Merge(ivs), n) <==> Covers(RawIntervals(fns), n) {
      MergeIsUnion(ivs, n);
      SameCover(RawIntervals(fns), ivs, n);
    }
    hide Merge, Covers, Ordered;
    merged := MergeIntervals(ivs);
  }

  /** The function hides the line: below its docstring if it has one, otherwise from its
      first statement on, to its end; and nothing if that would start on its signature. */
  predicate Hides(f: Fn, n: int) {
    match f.docEnd
    case Some(d) => d < n <= f.end && f.line <= d
    case None => f.first <= n <= f.end && f.line < f.first
  }

  /** So a line collapses exactly when some function hides it: signatures and whole
      docstrings stay, one-liners too. */
  lemma {:induction false} CoveredIff(fns: seq<Fn>, n: int)
    ensures Covers(RawIntervals(fns), n) <==> exists k :: 0 <= k < |fns| && Hides(fns[k], n)
  {
    if fns != [] {
      var init, f := fns[..|fns| - 1], fns[|fns| - 1];
      CoveredIff(init, n);
      HiddenMore(fns, n);
      if BodyStart(f) > f.line && BodyStart(f) <= f.end {
        CoversLast(RawIntervals(init), Interval(BodyStart(f), f.end), n);
      } else {
        assert RawIntervals(fns) == RawIntervals(init);
      }
    }
  }

  lemma HiddenMore(fns: seq<Fn>, n: int)
    requires fns != []
    ensures var init, f := fns[..|fns| - 1], fns[|fns| - 1];
      (exists k :: 0 <= k < |fns| && Hides(fns[k], n)) <==> (exists k :: 0 <= k < |init| && Hides(init[k], n)) || Hides(f, n)
  {
    var init := fns[..|fns| - 1];
    if k :| 0 <= k < |init| && Hides(init[k], n) { assert fns[k] == init[k]; }
    hide Hides;
    if k :| 0 <= k < |fns| && Hides(fns[k], n) {
      if k < |init| { assert init[k] == fns[k]; }
    }
  }

  // ------------------------------------------------------- accounting for lines

  /** An output line: a source line, or a placeholder for so many. */
  datatype Piece = Kept(line: string) | Elided(indent: nat, count: int)

  function Size(out: seq<Piece>): int {
    if out == [] then 0
    else Size(out[..|out| - 1]) + (if out[|out| - 1].Kept? then 1 else out[|out| - 1].count)
  }

  /** The pieces lay out the lines from the first on: a kept line verbatim where `keep`
      says so, a placeholder over lines it does not keep. */
  ghost predicate Tiled(out: seq<Piece>, lines: seq<string>, keep: int -> bool) {
    out != [] ==>
      var init, p := out[..|out| - 1], out[|out| - 1];
      var at := Size(init);
      Tiled(init, lines, keep) &&
      match p
      case Kept(line) => 0 <= at < |lines| && line == lines[at] && keep(at)
      case Elided(_, count) => count > 0 && 0 <= at && at + count <= |lines| && forall m :: at <= m < at + count ==> !keep(m)
  }

  function KeptLines(out: seq<Piece>): seq<string> {
    if out == [] then []
    else KeptLines(out[..|out| - 1]) + (if out[|out| - 1].Kept? then [out[|out| - 1].line] else [])
  }

  function ElidedCount(out: seq<Piece>): int {
    if out == [] then 0
    else ElidedCount(out[..|out| - 1]) + (if out[|out| - 1].Kept? then 0 else out[|out| - 1].count)
  }

  function Filtered(lines: seq<string>, keep: int -> bool, n: nat): seq<string>
    requires n <= |lines|
  {
    if n == 0 then [] else Filtered(lines, keep, n - 1) + (if keep(n - 1) then [lines[n - 1]] else [])
  }

  lemma {:induction false} NothingKept(lines: seq<string>, keep: int -> bool, from: nat, to: nat)
    requires from <= to <= |lines| && forall m :: from <= m < to ==> !keep(m)
    ensures Filtered(lines, keep, to) == Filtered(lines, keep, from)
  {
    if from < to { NothingKept(lines, keep, from, to - 1); }
  }

  /** So the kept lines come out verbatim and in order, and with the elided counts they
      add up to the lines laid out. */
  lemma {:induction false} TilesAccount(out: seq<Piece>, lines: seq<string>, keep: int -> bool)
    requires Tiled(out, lines, keep)
    ensures 0 <= Size(out) <= |lines|
    ensures KeptLines(out) == Filtered(lines, keep, Size(out))
    ensures |KeptLines(out)| + ElidedCount(out) == Size(out)
  {
    if out != [] {
      var init, p := out[..|out| - 1], out[|out| - 1];
      TilesAccount(init, lines, keep);
      if p.Elided? { NothingKept(lines, keep, Size(init), Size(out)); }
    }
  }

  lemma TileOne(out: seq<Piece>, p: Piece, lines: seq<string>, keep: int -> bool)
    requires Tiled(out, lines, keep) && 0 <= Size(out)
    requires p.Kept? ==> Size(out) < |lines| && p.line == lines[Size(out)] && keep(Size(out))
    requires p.Elided? ==> p.count > 0 && Size(out) + p.count <= |lines| && forall m :: Size(out) <= m < Size(out) + p.count ==> !keep(m)
    ensures Tiled(out + [p], lines, keep)
    ensures Size(out + [p]) == Size(out) + (if p.Kept? then 1 else p.count)
  {
    assert (out + [p])[..|out|] == out;
  }

  // ------------------------------------------------------- the Python skeleton

  /** The ranges of the placeholders, in order. */
  function Spans(out: seq<Piece>): seq<Interval> {
    if out == [] then []
    else
      var init, p := out[..|out| - 1], out[|out| - 1];
      Spans(init) + (if p.Elided? then [Interval(Size(init) + 1, Size(init) + p.count)] else [])
  }

  lemma SpanOne(out: seq<Piece>, p: Piece)
    ensures Spans(out + [p]) == Spans(out) + (if p.Elided? then [Interval(Size(out) + 1, Size(out) + p.count)] else [])
  {
    assert (out + [p])[..|out|] == out;
  }

  function Uncovered(ivs: seq<Interval>): int -> bool {
    m => !Covers(ivs, m + 1)
  }

  function IndentOf(line: string): nat {
    if line != "" && line[0] == ' ' then 1 + IndentOf(line[1..]) else 0
  }

  /** Ranges whose first line is at or before `n`. */
  function Begun(ivs: seq<Interval>, n: int): nat {
    if ivs == [] then 0
    else Begun(ivs[..|ivs| - 1], n) + (if ivs[|ivs| - 1].start <= n then 1 else 0)
  }

  lemma {:induction false} BegunIs(ivs: seq<Interval>, n: int)
    requires Separate(ivs)
    ensures Begun(ivs, n) <= |ivs|
    ensures forall k :: 0 <= k < |ivs| ==> (k < Begun(ivs, n) <==> ivs[k].start <= n)
  {
    if ivs != [] {
      var init := ivs[..|ivs| - 1];
      assert Separate(init) by { assert forall k :: 0 <= k < |init| ==> init[k] == ivs[k]; }
      BegunIs(init, n);
      if ivs[|ivs| - 1].start <= n && init != [] { assert ivs[|init| - 1].end < ivs[|init|].start; }
    }
  }

  /** How far the output reaches once line `n` is read: to the end of the range `n` lies
      in, or just to `n`. */
  function Reach(ivs: seq<Interval>, n: int): int
    requires Separate(ivs)
  {
    var k := Begun(ivs, n);
    BegunIs(ivs, n);
    if k > 0 && ivs[k - 1].end >= n then ivs[k - 1].end else n
  }

  lemma {:induction false} StartAt(ivs: seq<Interval>, n: int)
    requires Separate(ivs)
    ensures var k := Begun(ivs, n);
      && k <= |ivs|
      && (Covers(ivs, n) <==> k > 0 && ivs[k - 1].end >= n)
      && Begun(ivs, n - 1) == (if k > 0 && ivs[k - 1].start == n then k - 1 else k)
      && (k > 0 && ivs[k - 1].start < n <= ivs[k - 1].end ==> Reach(ivs, n - 1) == ivs[k - 1].end)
      && (k > 0 && ivs[k - 1].start == n ==> Reach(ivs, n - 1) == n - 1)
      && (!Covers(ivs, n) ==> Reach(ivs, n - 1) == n - 1)
  {
    BegunIs(ivs, n);
    BegunIs(ivs, n - 1);
    var k, j := Begun(ivs, n), Begun(ivs, n - 1);
    if j < |ivs| { assert ivs[j].start > n - 1; }
    if k < |ivs| { assert ivs[k].start > n; }
    if k > 0 {
      assert ivs[k - 1].start <= n;
      if ivs[k - 1].start == n && k > 1 { assert ivs[k - 2].end < ivs[k - 1].start; }
    }
    if Covers(ivs, n) {
      var i :| 0 <= i < |ivs| && ivs[i].start <= n <= ivs[i].end;
      assert i <= k - 1;
    }
  }

  /** One source line: a placeholder where a range starts, nothing inside it, the line
      itself elsewhere. */
  function Line(ivs: seq<Interval>, lines: seq<string>, n: int): seq<Piece>
    requires 1 <= n <= |lines|
  {
    var k := Begun(ivs, n);
    if 0 < k <= |ivs| && ivs[k - 1].start == n then [Elided(IndentOf(lines[n - 1]), ivs[k - 1].end - n + 1)]
    else if Covers(ivs, n) then []
    else [Kept(lines[n - 1])]
  }

  function Skeleton(ivs: seq<Interval>, lines: seq<string>, n: nat): seq<Piece>
    requires n <= |lines|
  {
    if n == 0 then [] else Skeleton(ivs, lines, n - 1) + Line(ivs, lines, n)
  }

  ghost predicate Within(ivs: seq<Interval>, n: int) {
    forall k :: 0 <= k < |ivs| ==> 1 <= ivs[k].start && ivs[k].end <= n
  }

  lemma CoveredUpTo(ivs: seq<Interval>, k: nat, m: int)
    requires k < |ivs| && ivs[k].start <= m + 1 <= ivs[k].end
    ensures !Uncovered(ivs)(m)
  {}

  /** What the output satisfies once line `n` is read. */
  ghost predicate TiledTo(ivs: seq<Interval>, lines: seq<string>, out: seq<Piece>, n: nat)
    requires Separate(ivs)
  {
    && Tiled(out, lines, Uncovered(ivs)) && Size(out) == Reach(ivs, n)
    && Begun(ivs, n) <= |ivs| && Spans(out) == ivs[..Begun(ivs, n)]
  }

  lemma LineTiles(ivs: seq<Interval>, lines: seq<string>, out: seq<Piece>, n: nat)
    requires Separate(ivs) && Within(ivs, |lines|) && 1 <= n <= |lines| && TiledTo(ivs, lines, out, n - 1)
    ensures TiledTo(ivs, lines, out + Line(ivs, lines, n), n)
  {
    StartAt(ivs, n);
    var k := Begun(ivs, n);
    if k > 0 && ivs[k - 1].start == n {
      PlaceholderTiles(ivs, lines, out, n, k);
    } else if Covers(ivs, n) {
      assert out + [] == out;
    } else {
      KeptTiles(ivs, lines, out, n, k);
    }
    hide TiledTo;
  }

  lemma PlaceholderTiles(ivs: seq<Interval>, lines: seq<string>, out: seq<Piece>, n: nat, k: nat)
    requires Separate(ivs) && Within(ivs, |lines|) && 1 <= n <= |lines| && TiledTo(ivs, lines, out, n - 1)
    requires 0 < k <= |ivs| && k == Begun(ivs, n) && ivs[k - 1].start == n
    ensures TiledTo(ivs, lines, out + [Elided(IndentOf(lines[n - 1]), ivs[k - 1].end - n + 1)], n)
  {
    var p := Elided(IndentOf(lines[n - 1]), ivs[k - 1].end - n + 1);
    StartAt(ivs, n);
    assert n <= ivs[k - 1].end <= |lines|;
    forall m | n - 1 <= m < ivs[k - 1].end ensures !Uncovered(ivs)(m) { CoveredUpTo(ivs, k - 1, m); }
    assert ivs[..k] == ivs[..k - 1] + [ivs[k - 1]];
    hide Tiled, Size, Spans, Begun, Covers, Uncovered, Separate, Within;
    TileOne(out, p, lines, Uncovered(ivs));
    SpanOne(out, p);
  }

  lemma KeptTiles(ivs: seq<Interval>, lines: seq<string>, out: seq<Piece>, n: nat, k: nat)
    requires Separate(ivs) && 1 <= n <= |lines| && TiledTo(ivs, lines, out, n - 1)
    requires k == Begun(ivs, n) && !Covers(ivs, n)
    ensures TiledTo(ivs, lines, out + [Kept(lines[n - 1])], n)
  {
    var p := Kept(lines[n - 1]);
    StartAt(ivs, n);
    BegunIs(ivs, n);
    assert Uncovered(ivs)(n - 1);
    hide Tiled, Size, Spans, Begun, Covers, Uncovered, Separate;
    TileOne(out, p, lines, Uncovered(ivs));
    SpanOne(out, p);
  }

  lemma {:induction false} SkeletonTiles(ivs: seq<Interval>, lines: seq<string>, n: nat)
    requires Separate(ivs) && Within(ivs, |lines|) && n <= |lines|
    ensures TiledTo(ivs, lines, Skeleton(ivs, lines, n), n)
  {
    if n > 0 {
      SkeletonTiles(ivs, lines, n - 1);
      LineTiles(ivs, lines, Skeleton(ivs, lines, n - 1), n);
      hide TiledTo, Line;
    } else {
      BegunIs(ivs, 0);
      if ivs != [] { assert ivs[0].start > 0; }
      assert ivs[..0] == [];
    }
  }

  /** The skeleton of a file: kept lines verbatim and in order, exactly one placeholder
      per merged range, and nothing unaccounted for. */
  lemma SkeletonAccounts(ivs: seq<Interval>, lines: seq<string>)
    requires Separate(ivs) && Within(ivs, |lines|)
    ensures var out := Skeleton(ivs, lines, |lines|);
      && KeptLines(out) == Filtered(lines, Uncovered(ivs), |lines|)
      && Spans(out) == ivs
      && |KeptLines(out)| + ElidedCount(out) == |lines|
  {
    SkeletonTiles(ivs, lines, |lines|);
    AllBegun(ivs, |lines|);
    assert ivs[..|ivs|] == ivs;
    hide Skeleton, Begun, Reach, Separate, Within, Tiled, KeptLines, Filtered, ElidedCount, Spans;
    TilesAccount(Skeleton(ivs, lines, |lines|), lines, Uncovered(ivs));
  }

  /** Spaces in front, and no more. */
  lemma {:induction false} IndentIs(line: string)
    ensures IndentOf(line) <= |line| && (forall k :: 0 <= k < IndentOf(line) ==> line[k] == ' ')
    ensures IndentOf(line) < |line| ==> line[IndentOf(line)] != ' '
  {
    if line != "" && line[0] == ' ' {
      IndentIs(line[1..]);
      forall k | 0 <= k < IndentOf(line) ensures line[k] == ' ' { if k > 0 { assert line[k] == line[1..][k - 1]; } }
    }
  }

  /** Every placeholder stands at the indentation of the first line it hides. */
  ghost predicate Indented(out: seq<Piece>, lines: seq<string>) {
    out != [] ==>
      var init, p := out[..|out| - 1], out[|out| - 1];
      Indented(init, lines) && (p.Elided? ==> 0 <= Size(init) < |lines| && p.indent == IndentOf(lines[Size(init)]))
  }

  lemma {:induction false} SkeletonIsIndented(ivs: seq<Interval>, lines: seq<string>, n: nat)
    requires Separate(ivs) && Within(ivs, |lines|) && n <= |lines|
    ensures Indented(Skeleton(ivs, lines, n), lines)
  {
    hide *;
    if n > 0 {
      SkeletonGrows(ivs, lines, n);
      SkeletonIsIndented(ivs, lines, n - 1);
      SkeletonReaches(ivs, lines, n - 1);
      StartAt(ivs, n);
      LineIndented(ivs, lines, n, Skeleton(ivs, lines, n - 1));
    } else {
      EmptySkeleton(ivs, lines);
    }
  }

  lemma EmptySkeleton(ivs: seq<Interval>, lines: seq<string>)
    ensures Skeleton(ivs, lines, 0) == [] && Indented([], lines)
  {}

  lemma SkeletonGrows(ivs: seq<Interval>, lines: seq<string>, n: nat)
    requires Separate(ivs) && Within(ivs, |lines|) && 1 <= n <= |lines|
    ensures Skeleton(ivs, lines, n) == Skeleton(ivs, lines, n - 1) + Line(ivs, lines, n)
  {
    hide Line, Separate, Within;
  }

  lemma SkeletonReaches(ivs: seq<Interval>, lines: seq<string>, n: nat)
    requires Separate(ivs) && Within(ivs, |lines|) && n <= |lines|
    ensures Size(Skeleton(ivs, lines, n)) == Reach(ivs, n)
  {
    SkeletonTiles(ivs, lines, n);
    hide Skeleton, Size, Reach, Separate, Within;
  }

  lemma LineIndented(ivs: seq<Interval>, lines: seq<string>, n: nat, out: seq<Piece>)
    requires Separate(ivs) && 1 <= n <= |lines| && Indented(out, lines) && Size(out) == Reach(ivs, n - 1)
    requires var k := Begun(ivs, n); k > 0 && k <= |ivs| && ivs[k - 1].start == n ==> Reach(ivs, n - 1) == n - 1
    ensures Indented(out + Line(ivs, lines, n), lines)
  {
    var more := Line(ivs, lines, n);
    if more == [] { assert out + more == out; } else { assert (out + more)[..|out|] == out; }
    hide Begun, Covers, Reach, Separate;
  }

  /** Put together: the skeleton of a file keeps, in order, exactly the lines no function
      hides. */
  lemma PythonKeeps(fns: seq<Fn>, merged: seq<Interval>, lines: seq<string>)
    requires Separate(merged) && Within(merged, |lines|) && forall n :: Covers(merged, n) <==> Covers(RawIntervals(fns), n)
    ensures KeptLines(Skeleton(merged, lines, |lines|)) == Filtered(lines, m => !exists k :: 0 <= k < |fns| && Hides(fns[k], m + 1), |lines|)
  {
    SkeletonAccounts(merged, lines);
    forall n { CoveredIff(fns, n); }
    hide *;
    SameFilter(lines, Uncovered(merged), m => !exists k :: 0 <= k < |fns| && Hides(fns[k], m + 1), |lines|) by { UncoveredIs(fns, merged); }
  }

  lemma UncoveredIs(fns: seq<Fn>, merged: seq<Interval>)
    requires forall n :: Covers(merged, n) <==> exists k :: 0 <= k < |fns| && Hides(fns[k], n)
    ensures forall m :: Uncovered(merged)(m) <==> !exists k :: 0 <= k < |fns| && Hides(fns[k], m + 1)
  {
    hide Covers, Hides;
  }

  lemma {:induction false} SameFilter(lines: seq<string>, a: int -> bool, b: int -> bool, n: nat)
    requires n <= |lines| && forall m :: a(m) <==> b(m)
    ensures Filtered(lines, a, n) == Filtered(lines, b, n)
  {
    if n > 0 { SameFilter(lines, a, b, n - 1); }
  }

  lemma AllBegun(ivs: seq<Interval>, n: nat)
    requires Separate(ivs) && Within(ivs, n)
    ensures Begun(ivs, n) == |ivs| && Reach(ivs, n) == n
  {
    BegunIs(ivs, n);
    if ivs != [] { assert ivs[|ivs| - 1].start <= ivs[|ivs| - 1].end <= n; }
  }

  method AddLine(ivs: seq<Interval>, starts: map<LineNo, Interval>, lines: seq<string>, n: nat, out: seq<Piece>)
    returns (out': seq<Piece>)
    requires Separate(ivs) && n < |lines| && starts == StartMap(ivs) && out == Skeleton(ivs, lines, n)
    ensures out' == Skeleton(ivs, lines, n + 1)
  {
    SkeletonStep(ivs, lines, n);
    hide *;
    out' := out;
    if LineNo(n + 1) in starts {
      out' := out + [Elided(IndentOf(lines[n]), starts[LineNo(n + 1)].end - n)];
    } else if !Covers(ivs, n + 1) {
      out' := out + [Kept(lines[n])];
    }
  }

  method SkeletonizePython(ivs: seq<Interval>, lines: seq<string>) returns (out: seq<Piece>)
    requires Separate(ivs) && Within(ivs, |lines|)
    ensures out == Skeleton(ivs, lines, |lines|)
    ensures |KeptLines(out)| + ElidedCount(out) == |lines| && Spans(out) == ivs
  {
    var starts := StartMap(ivs);
    out := [];
    assert Skeleton(ivs, lines, 0) == [];
    hide *;
    for n := 0 to |lines|
      invariant out == Skeleton(ivs, lines, n)
    {
      out := AddLine(ivs, starts, lines, n, out);
    }
    SkeletonAccounts(ivs, lines);
  }

  lemma SkeletonStep(ivs: seq<Interval>, lines: seq<string>, n: nat)
    requires Separate(ivs) && n < |lines|
    ensures var out, starts := Skeleton(ivs, lines, n), StartMap(ivs);
      Skeleton(ivs, lines, n + 1) ==
        if LineNo(n + 1) in starts then out + [Elided(IndentOf(lines[n]), starts[LineNo(n + 1)].end - n)]
        else if !Covers(ivs, n + 1) then out + [Kept(lines[n])]
        else out
  {
    StartsAt(ivs, n + 1);
    hide Covers, StartMap, Separate, Begun, IndentOf;
  }

  datatype LineNo = LineNo(n: int)

  /** The range that starts at a line. */
  function StartMap(ivs: seq<Interval>): map<LineNo, Interval> {
    if ivs == [] then map[]
    else StartMap(ivs[..|ivs| - 1])[LineNo(ivs[|ivs| - 1].start) := ivs[|ivs| - 1]]
  }

  lemma {:induction false} StartMapIs(ivs: seq<Interval>, n: int)
    requires Separate(ivs)
    ensures LineNo(n) in StartMap(ivs) <==> exists i :: 0 <= i < |ivs| && ivs[i].start == n
    ensures forall i :: 0 <= i < |ivs| && ivs[i].start == n ==> LineNo(n) in StartMap(ivs) && StartMap(ivs)[LineNo(n)] == ivs[i]
  {
    if ivs != [] {
      var init, last := ivs[..|ivs| - 1], ivs[|ivs| - 1];
      assert Separate(init) by { assert forall k :: 0 <= k < |init| ==> init[k] == ivs[k]; }
      StartMapIs(init, n);
      assert forall i :: 0 <= i < |init| ==> ivs[i] == init[i];
      forall i | 0 <= i < |init| ensures ivs[i].start != last.start { assert ivs[i].end < ivs[|ivs| - 1].start; }
    }
  }

  /** A line in the dictionary of starts begins the last range begun there. */
  lemma StartsAt(ivs: seq<Interval>, n: int)
    requires Separate(ivs)
    ensures var k := Begun(ivs, n);
      && k <= |ivs|
      && (LineNo(n) in StartMap(ivs) <==> k > 0 && ivs[k - 1].start == n)
      && (LineNo(n) in StartMap(ivs) ==> StartMap(ivs)[LineNo(n)] == ivs[k - 1])
  {
    BegunIs(ivs, n);
    StartMapIs(ivs, n);
    var k := Begun(ivs, n);
    if i :| 0 <= i < |ivs| && ivs[i].start == n {
      assert i < k;
      assert ivs[k - 1].start <= n;
    }
    hide Begun, StartMap;
  }

  // ------------------------------------------------------- the line heuristic

  /** Output so far and the run of dropped lines not flushed yet. */
  datatype Scan = Scan(out: seq<Piece>, run: nat)

  function Flush(s: Scan): seq<Piece> {
    if s.run > 0 then s.out + [Elided(4, s.run)] else s.out
  }

  function ScanLines(lines: seq<string>, keep: string -> bool, n: nat): Scan
    requires n <= |lines|
  {
    if n == 0 then Scan([], 0)
    else
      var s := ScanLines(lines, keep, n - 1);
      if keep(lines[n - 1]) then Scan(Flush(s) + [Kept(lines[n - 1])], 0) else Scan(s.out, s.run + 1)
  }

  function KeepAt(lines: seq<string>, keep: string -> bool): int -> bool {
    m => 0 <= m < |lines| && keep(lines[m])
  }

  /** No two placeholders in a row: one per run. */
  ghost predicate OnePerRun(out: seq<Piece>) {
    forall k :: 0 <= k < |out| - 1 ==> !(out[k].Elided? && out[k + 1].Elided?)
  }

  ghost predicate Scanned(lines: seq<string>, keep: string -> bool, s: Scan, n: nat)
    requires n <= |lines|
  {
    && Tiled(s.out, lines, KeepAt(lines, keep)) && Size(s.out) + s.run == n && 0 <= Size(s.out)
    && (forall m :: Size(s.out) <= m < n ==> !keep(lines[m]))
    && OnePerRun(s.out) && (s.out != [] ==> s.out[|s.out| - 1].Kept?)
  }

  lemma KeepTiles(lines: seq<string>, keep: string -> bool, s: Scan, n: nat)
    requires n < |lines| && Scanned(lines, keep, s, n) && keep(lines[n])
    ensures Scanned(lines, keep, Scan(Flush(s) + [Kept(lines[n])], 0), n + 1)
  {
    FlushTiles(lines, keep, s, n);
    TileOne(Flush(s), Kept(lines[n]), lines, KeepAt(lines, keep));
    hide Tiled, Size, Flush;
  }

  lemma {:induction false} ScanTiles(lines: seq<string>, keep: string -> bool, n: nat)
    requires n <= |lines|
    ensures Scanned(lines, keep, ScanLines(lines, keep, n), n)
  {
    if n > 0 {
      hide Flush, Tiled, Size, Scanned, OnePerRun;
      ScanTiles(lines, keep, n - 1);
      var s := ScanLines(lines, keep, n - 1);
      if keep(lines[n - 1]) { KeepTiles(lines, keep, s, n - 1); } else { SkipTiles(lines, keep, s, n - 1); }
    }
  }

  lemma SkipTiles(lines: seq<string>, keep: string -> bool, s: Scan, n: nat)
    requires n < |lines| && Scanned(lines, keep, s, n) && !keep(lines[n])
    ensures Scanned(lines, keep, Scan(s.out, s.run + 1), n + 1)
  {
    hide Tiled, Size, OnePerRun;
  }

  lemma FlushTiles(lines: seq<string>, keep: string -> bool, s: Scan, n: nat)
    requires n <= |lines| && Tiled(s.out, lines, KeepAt(lines, keep)) && Size(s.out) + s.run == n && 0 <= Size(s.out)
    requires forall m :: Size(s.out) <= m < n ==> !keep(lines[m])
    requires OnePerRun(s.out) && (s.out != [] ==> s.out[|s.out| - 1].Kept?)
    ensures Tiled(Flush(s), lines, KeepAt(lines, keep)) && Size(Flush(s)) == n && OnePerRun(Flush(s))
  {
    if s.run > 0 { TileOne(s.out, Elided(4, s.run), lines, KeepAt(lines, keep)); }
  }

  lemma ScanAccounts(lines: seq<string>, keep: string -> bool, s: Scan)
    requires s == ScanLines(lines, keep, |lines|)
    ensures var out := Flush(s);
      && KeptLines(out) == Filtered(lines, KeepAt(lines, keep), |lines|)
      && |KeptLines(out)| + ElidedCount(out) == |lines| && OnePerRun(out)
  {
    ScanTiles(lines, keep, |lines|);
    hide Flush, Tiled, Size, OnePerRun, KeptLines, ElidedCount, Filtered, ScanLines;
    FlushTiles(lines, keep, s, |lines|);
    TilesAccount(Flush(s), lines, KeepAt(lines, keep));
  }

  /** Any other language: structural lines verbatim and in order, one placeholder per
      run of the others, and every line accounted for. */
  method SkeletonizeLines(lines: seq<string>, keep: string -> bool) returns (out: seq<Piece>)
    ensures KeptLines(out) == Filtered(lines, KeepAt(lines, keep), |lines|)
    ensures |KeptLines(out)| + ElidedCount(out) == |lines|
    ensures OnePerRun(out) && forall k :: 0 <= k < |out| && out[k].Elided? ==> out[k].indent == 4
  {
    hide KeptLines, ElidedCount, Filtered, OnePerRun;
    out := [];
    var run := 0;
    for n := 0 to |lines|
      invariant Scan(out, run) == ScanLines(lines, keep, n)
      invariant forall k :: 0 <= k < |out| && out[k].Elided? ==> out[k].indent == 4
    {
      if keep(lines[n]) {
        if run > 0 {
          out := out + [Elided(4, run)];
          run := 0;
        }
        out := out + [Kept(lines[n])];
      } else {
        run := run + 1;
      }
    }
    ScanAccounts(lines, keep, Scan(out, run));
    if run > 0 { out := out + [Elided(4, run)]; }
  }
}
