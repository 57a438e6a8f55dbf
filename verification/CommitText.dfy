/** The text of a commit, and the changed files recovered from it. */
module CommitText {
  import opened Prelude

  /** What `strip` removes. */
  predicate Space(c: char) {
    '\t' <= c <= '\r' || '\U{1C}' <= c <= ' ' || c == '\U{85}' || c == '\U{A0}' || c == '\U{1680}' ||
    '\U{2000}' <= c <= '\U{200A}' || c == '\U{2028}' || c == '\U{2029}' || c == '\U{202F}' ||
    c == '\U{205F}' || c == '\U{3000}'
  }

  /** What `splitlines` splits at: more than line feeds. */
  predicate Breaks(c: char) {
    '\n' <= c <= '\r' || '\U{1C}' <= c <= '\U{1E}' || c == '\U{85}' || c == '\U{2028}' || c == '\U{2029}'
  }

  predicate OneLine(s: string) {
    forall k :: 0 <= k < |s| ==> !Breaks(s[k])
  }

  // ------------------------------------------------------- lines

  function Rstrip(s: string): string {
    if s != "" && Space(s[|s| - 1]) then Rstrip(s[..|s| - 1]) else s
  }

  function Lstrip(s: string): string {
    if s != "" && Space(s[0]) then Lstrip(s[1..]) else s
  }

  function Strip(s: string): string { Lstrip(Rstrip(s)) }

  function FirstBreak(s: string): (k: nat)
    ensures k <= |s|
  {
    if s == "" || Breaks(s[0]) then 0 else 1 + FirstBreak(s[1..])
  }

  /** `splitlines()`: a carriage return and line feed are one break, and no empty line is
      added at the end. */
  function SplitLines(s: string): seq<string> {
    var k := FirstBreak(s);
    if s == "" then []
    else if k == |s| then [s]
    else if s[k] == '\r' && k + 1 < |s| && s[k + 1] == '\n' then [s[..k]] + SplitLines(s[k + 2..])
    else [s[..k]] + SplitLines(s[k + 1..])
  }

  /** A line as the parser keeps it: stripped, and dropped when blank. */
  function Kept(line: string): seq<string> {
    if Strip(line) == "" then [] else [Strip(line)]
  }

  function KeptLines(lines: seq<string>): seq<string> {
    if lines == [] then [] else KeptLines(lines[..|lines| - 1]) + Kept(lines[|lines| - 1])
  }

  /** The stripped non-blank lines of a text. */
  function Clean(s: string): seq<string> { KeptLines(SplitLines(s)) }

  lemma {:induction false} KeptOfCons(l: string, ls: seq<string>)
    ensures KeptLines([l] + ls) == Kept(l) + KeptLines(ls)
  {
    hide Kept;
    var all := [l] + ls;
    if ls == [] {
      assert all[..0] == [];
    } else {
      assert all[..|all| - 1] == [l] + ls[..|ls| - 1] && all[|all| - 1] == ls[|ls| - 1];
      KeptOfCons(l, ls[..|ls| - 1]);
    }
  }

  lemma {:induction false} FirstBreakIs(s: string, k: nat)
    requires k <= |s| && OneLine(s[..k])
    requires k == |s| || Breaks(s[k])
    ensures FirstBreak(s) == k
  {
    if k > 0 {
      assert !Breaks(s[..k][0]);
      var t := s[1..][..k - 1];
      forall i | 0 <= i < |t| ensures !Breaks(t[i]) { assert t[i] == s[..k][i + 1]; }
      FirstBreakIs(s[1..], k - 1);
    }
  }

  lemma {:induction false} FirstBreakSplits(s: string)
    ensures OneLine(s[..FirstBreak(s)])
    ensures FirstBreak(s) == |s| || Breaks(s[FirstBreak(s)])
  {
    if s != "" && !Breaks(s[0]) {
      FirstBreakSplits(s[1..]);
      var k := FirstBreak(s[1..]);
      var t := s[..k + 1];
      forall i | 0 <= i < |t| ensures !Breaks(t[i]) {
        if i > 0 { assert s[1..][..k][i - 1] == t[i]; }
      }
    }
  }

  lemma CleanLine(s: string)
    requires OneLine(s)
    ensures Clean(s) == Kept(s)
  {
    assert s[..|s|] == s;
    FirstBreakIs(s, |s|);
    if s != "" {
      assert [s] == [s] + [];
      KeptOfCons(s, []);
    }
  }

  /** After a line and its break come the lines of the rest. */
  lemma CleanHead(x: string, b: char, y: string)
    requires OneLine(x) && Breaks(b)
    ensures Clean(x + [b] + y) == Kept(x) + Clean(y)
  {
    var s, k := x + [b] + y, |x|;
    assert s[..k] == x && s[k] == b;
    FirstBreakIs(s, k);
    assert s[k + 1..] == y;
    if b == '\r' && k + 1 < |s| && s[k + 1] == '\n' {
      assert s[k + 2..] == y[1..];
      KeptOfCons(x, SplitLines(y[1..]));
      LeadingFeed(y);
    } else {
      KeptOfCons(x, SplitLines(y));
    }
  }

  lemma LeadingFeed(y: string)
    requires y != "" && y[0] == '\n'
    ensures Clean(y) == Clean(y[1..])
  {
    assert y[..0] == "";
    FirstBreakIs(y, 0);
    KeptOfCons("", SplitLines(y[1..]));
  }

  /** A break separates the lines before it from those after it. */
  lemma {:induction false} CleanConcat(x: string, b: char, y: string)
    requires Breaks(b)
    ensures Clean(x + [b] + y) == Clean(x) + Clean(y)
    decreases |x|
  {
    hide Clean, Kept, Breaks;
    var k := FirstBreak(x);
    FirstBreakSplits(x);
    if k == |x| {
      assert x[..k] == x;
      CleanHead(x, b, y);
      CleanLine(x);
    } else {
      var h, r := x[..k], x[k + 1..];
      assert x == h + [x[k]] + r;
      assert x + [b] + y == h + [x[k]] + (r + [b] + y);
      CleanHead(h, x[k], r + [b] + y);
      CleanHead(h, x[k], r);
      CleanConcat(r, b, y);
      assert (Kept(h) + Clean(r)) + Clean(y) == Kept(h) + (Clean(r) + Clean(y));
    }
  }

  /** Whitespace at the end of a text is not seen. */
  lemma {:induction false} CleanTail(r: string, c: char)
    requires Space(c)
    ensures Clean(r + [c]) == Clean(r)
    decreases |r|
  {
    var k := FirstBreak(r);
    FirstBreakSplits(r);
    if Breaks(c) {
      CleanConcat(r, c, "");
      assert r + [c] + "" == r + [c];
      assert Clean("") == [];
    } else if k == |r| {
      assert r[..k] == r;
      CleanLine(r);
      CleanLine(r + [c]);
      assert (r + [c])[..|r|] == r;
    } else {
      var h, t := r[..k], r[k + 1..];
      hide Clean, Breaks, Space, Kept;
      assert r == h + [r[k]] + t;
      assert r + [c] == h + [r[k]] + (t + [c]);
      CleanHead(h, r[k], t);
      CleanHead(h, r[k], t + [c]);
      CleanTail(t, c);
    }
  }

  lemma {:induction false} CleanRstrip(s: string)
    ensures Clean(Rstrip(s)) == Clean(s)
  {
    hide Clean;
    if s != "" && Space(s[|s| - 1]) {
      assert s == s[..|s| - 1] + [s[|s| - 1]];
      CleanTail(s[..|s| - 1], s[|s| - 1]);
      CleanRstrip(s[..|s| - 1]);
    }
  }

  // ------------------------------------------------------- normalisation

  /** Every carriage return, with a line feed after it or not, becomes a line feed. */
  function Unify(s: string): string {
    if s == "" then ""
    else if s[0] != '\r' then [s[0]] + Unify(s[1..])
    else if |s| > 1 && s[1] == '\n' then "\n" + Unify(s[2..])
    else "\n" + Unify(s[1..])
  }

  function FirstFeed(s: string): (k: nat)
    ensures k <= |s|
    ensures k < |s| ==> s[k] == '\n'
  {
    if s == "" || s[0] == '\n' then 0 else 1 + FirstFeed(s[1..])
  }

  /** Every line between line feeds is right-stripped. */
  function RstripLines(s: string): string {
    var k := FirstFeed(s);
    if k == |s| then Rstrip(s) else Rstrip(s[..k]) + "\n" + RstripLines(s[k + 1..])
  }

  function DropFeeds(s: string): string {
    if s != "" && s[0] == '\n' then DropFeeds(s[1..]) else s
  }

  function TrimFeeds(s: string): string {
    if s != "" && s[|s| - 1] == '\n' then TrimFeeds(s[..|s| - 1]) else s
  }

  type Composer = string -> string

  function NormalizeText(text: string, nfc: Composer): string {
    var body := TrimFeeds(DropFeeds(RstripLines(Unify(nfc(text)))));
    if body == "" then "" else body + "\n"
  }

  lemma {:induction false} CleanUnify(p: string, s: string)
    ensures Clean(p + Unify(s)) == Clean(p + s)
    decreases |s|
  {
    hide Clean, Unify;
    if s == "" {
      NothingToUnify();
    } else if s[0] != '\r' {
      CleanUnify(p + [s[0]], s[1..]);
      PlainMoves(p, s);
    } else {
      CleanUnify("", AfterReturn(s));
      ReturnMoves(p, s);
    }
  }

  lemma NothingToUnify()
    ensures Unify("") == ""
  {}

  lemma PlainMoves(p: string, s: string)
    requires s != "" && s[0] != '\r'
    requires Clean((p + [s[0]]) + Unify(s[1..])) == Clean((p + [s[0]]) + s[1..])
    ensures Clean(p + Unify(s)) == Clean(p + s)
  {
    hide *;
    UnifyPlain(s);
    Regroup(p, s[0], Unify(s[1..]));
    Regroup(p, s[0], s[1..]);
    HeadAndTail(s);
  }

  lemma UnifyPlain(s: string)
    requires s != "" && s[0] != '\r'
    ensures Unify(s) == [s[0]] + Unify(s[1..])
  {}

  lemma Regroup(p: string, c: char, s: string)
    ensures p + ([c] + s) == (p + [c]) + s
  {}

  lemma HeadAndTail(s: string)
    requires s != ""
    ensures s == [s[0]] + s[1..]
  {}

  /** A carriage return takes a line feed behind it along. */
  function AfterReturn(s: string): string
    requires s != "" && s[0] == '\r'
  {
    if |s| > 1 && s[1] == '\n' then s[2..] else s[1..]
  }

  lemma ReturnMoves(p: string, s: string)
    requires s != "" && s[0] == '\r' && Clean("" + Unify(AfterReturn(s))) == Clean("" + AfterReturn(s))
    ensures Clean(p + Unify(s)) == Clean(p + s)
  {
    hide *;
    var rest := AfterReturn(s);
    UnifyReturn(s);
    NothingBefore(Unify(rest));
    NothingBefore(rest);
    ReturnIsFeed(p, s[1..], rest, Unify(rest), |s| > 1 && s[1] == '\n');
    HeadAndTail(s);
  }

  lemma NothingBefore(s: string)
    ensures "" + s == s
  {}

  lemma UnifyReturn(s: string)
    requires s != "" && s[0] == '\r'
    ensures Unify(s) == "\n" + Unify(AfterReturn(s))
    ensures if |s| > 1 && s[1] == '\n' then s[1..] == ['\n'] + AfterReturn(s) else s[1..] == AfterReturn(s)
  {}

  lemma ReturnIsFeed(p: string, tail: string, rest: string, u: string, pair: bool)
    requires if pair then tail == ['\n'] + rest else tail == rest
    requires Clean(u) == Clean(rest)
    ensures Clean(p + ("\n" + u)) == Clean(p + (['\r'] + tail))
  {
    hide Clean;
    assert p + ("\n" + u) == p + ['\n'] + u;
    assert p + (['\r'] + tail) == p + ['\r'] + tail;
    CleanConcat(p, '\n', u);
    CleanConcat(p, '\r', tail);
    if pair {
      LeadingFeed(tail);
      assert tail[1..] == rest;
    }
  }

  lemma {:induction false} CleanRstripLines(s: string)
    ensures Clean(RstripLines(s)) == Clean(s)
  {
    hide Clean, Rstrip;
    var k := FirstFeed(s);
    if k == |s| {
      CleanRstrip(s);
    } else {
      assert s == s[..k] + ['\n'] + s[k + 1..];
      CleanConcat(s[..k], '\n', s[k + 1..]);
      CleanConcat(Rstrip(s[..k]), '\n', RstripLines(s[k + 1..]));
      CleanRstrip(s[..k]);
      CleanRstripLines(s[k + 1..]);
    }
  }

  lemma {:induction false} CleanDropFeeds(s: string)
    ensures Clean(DropFeeds(s)) == Clean(s)
  {
    hide Clean;
    if s != "" && s[0] == '\n' {
      LeadingFeed(s);
      CleanDropFeeds(s[1..]);
    }
  }

  lemma {:induction false} CleanTrimFeeds(s: string)
    ensures Clean(TrimFeeds(s)) == Clean(s)
  {
    hide Clean;
    if s != "" && s[|s| - 1] == '\n' {
      assert s == s[..|s| - 1] + ['\n'];
      CleanTail(s[..|s| - 1], '\n');
      CleanTrimFeeds(s[..|s| - 1]);
    }
  }

  /** Normalisation keeps the stripped non-blank lines, in order. */
  lemma NormalizationKeepsLines(text: string, nfc: Composer)
    ensures Clean(NormalizeText(text, nfc)) == Clean(nfc(text))
  {
    hide Clean, Unify, RstripLines, DropFeeds, TrimFeeds;
    var u := Unify(nfc(text));
    var d := DropFeeds(RstripLines(u));
    var body := TrimFeeds(d);
    assert "" + u == u && "" + nfc(text) == nfc(text);
    CleanUnify("", nfc(text));
    CleanRstripLines(u);
    CleanDropFeeds(RstripLines(u));
    CleanTrimFeeds(d);
    if body != "" { CleanTail(body, '\n'); }
  }

  // ------------------------------------------------------- rendering

  const Header: string := "--- changed files ---"

  datatype Commit = Commit(subject: string, body: string, changedFiles: seq<string>)

  function NonEmpty(sections: seq<string>): seq<string> {
    if sections == [] then []
    else
      NonEmpty(sections[..|sections| - 1]) +
        (if sections[|sections| - 1] == "" then [] else [sections[|sections| - 1]])
  }

  function JoinBy(parts: seq<string>, sep: string): string {
    if parts == [] then ""
    else if |parts| == 1 then parts[0]
    else JoinBy(parts[..|parts| - 1], sep) + sep + parts[|parts| - 1]
  }

  function FilesBlock(c: Commit): string { JoinBy([Header] + c.changedFiles, "\n") }

  function Sections(c: Commit): seq<string> {
    [c.subject] + (if c.body != "" then [c.body] else []) + [FilesBlock(c)]
  }

  function RenderCommit(c: Commit, nfc: Composer): string {
    NormalizeText(JoinBy(NonEmpty(Sections(c)), "\n\n"), nfc)
  }

  // ------------------------------------------------------- parsing

  function LastHeader(lines: seq<string>): (k: int)
    ensures -1 <= k < |lines|
  {
    if lines == [] then -1
    else if Strip(lines[|lines| - 1]) == Header then |lines| - 1
    else LastHeader(lines[..|lines| - 1])
  }

  function ParseChangedFiles(text: string): seq<string> {
    var lines := SplitLines(text);
    var start := LastHeader(lines);
    if start < 0 then [] else KeptLines(lines[start + 1..])
  }

  /** What stands behind the last header of a list of lines; nothing without one. */
  function Behind(kept: seq<string>): seq<string> {
    if kept == [] then []
    else if kept[|kept| - 1] == Header then []
    else if Header in kept then Behind(kept[..|kept| - 1]) + [kept[|kept| - 1]]
    else []
  }

  /** What the parser returns, in terms of the text's stripped non-blank lines. */
  lemma {:induction false} KeptLast(lines: seq<string>)
    ensures KeptBehind(lines)
  {
    if lines == [] {
      BehindStep([], "");
    } else {
      KeptLast(lines[..|lines| - 1]);
      var l := lines[|lines| - 1];
      if Strip(l) == Header {
        HeaderLast(lines);
      } else {
        NoHeaderLast(lines);
      }
    }
  }

  predicate KeptBehind(lines: seq<string>) {
    var j := LastHeader(lines);
    if j < 0 then Header !in KeptLines(lines)
    else Header in KeptLines(lines) && Behind(KeptLines(lines)) == KeptLines(lines[j + 1..])
  }

  lemma HeaderLast(lines: seq<string>)
    requires lines != [] && Strip(lines[|lines| - 1]) == Header
    ensures KeptBehind(lines)
  {
    var k := KeptLines(lines[..|lines| - 1]);
    assert Header != "";
    assert KeptLines(lines) == k + [Header];
    assert (k + [Header])[|k|] == Header;
    BehindStep(k, Header);
    KeptAfter(lines, |lines|);
    hide Header, KeptLines, Strip, Behind;
  }

  lemma NoHeaderLast(lines: seq<string>)
    requires lines != [] && Strip(lines[|lines| - 1]) != Header
    requires KeptBehind(lines[..|lines| - 1])
    ensures KeptBehind(lines)
  {
    hide Header, KeptLines, Strip, Behind, LastHeader, Kept;
    var init := lines[..|lines| - 1];
    LastLine(lines);
    BehindKept(KeptLines(init), lines[|lines| - 1]);
    if LastHeader(init) >= 0 { KeptAfter(lines, LastHeader(init) + 1); }
  }

  lemma LastLine(lines: seq<string>)
    requires lines != [] && Strip(lines[|lines| - 1]) != Header
    ensures LastHeader(lines) == LastHeader(lines[..|lines| - 1])
    ensures KeptLines(lines) == KeptLines(lines[..|lines| - 1]) + Kept(lines[|lines| - 1])
  {
  }

  lemma BehindKept(k: seq<string>, l: string)
    requires Strip(l) != Header
    ensures (Header in k + Kept(l)) == (Header in k)
    ensures Header in k ==> Behind(k + Kept(l)) == Behind(k) + Kept(l)
  {
    hide Header, Strip, Behind;
    BehindStep(k, Strip(l));
    assert k + [] == k && Behind(k) + [] == Behind(k);
  }

  lemma KeptAfter(lines: seq<string>, j: nat)
    requires lines != [] && j <= |lines|
    ensures KeptLines(lines[j..]) ==
      if j == |lines| then [] else KeptLines(lines[..|lines| - 1][j..]) + Kept(lines[|lines| - 1])
  {
    var tail := lines[j..];
    if j < |lines| { assert tail[..|tail| - 1] == lines[..|lines| - 1][j..]; }
  }

  lemma BehindStep(k: seq<string>, t: string)
    ensures Behind([]) == []
    ensures Header !in k ==> Behind(k) == []
    ensures Behind(k + [t]) ==
      if t == Header then [] else if Header in k then Behind(k) + [t] else []
  {
    assert (k + [t])[..|k|] == k;
  }

  lemma {:induction false} BehindOfConcat(a: seq<string>, b: seq<string>)
    requires Header in b
    ensures Behind(a + b) == Behind(b)
  {
    var all, init, l := a + b, b[..|b| - 1], b[|b| - 1];
    assert all[..|all| - 1] == a + init && all[|all| - 1] == l;
    if l != Header {
      assert b == init + [l];
      assert Header in init;
      assert Header in all;
      BehindOfConcat(a, init);
    }
  }

  lemma {:induction false} BehindAre(kept: seq<string>, t: string)
    requires t in Behind(kept)
    ensures t in kept && t != Header
  {
    var init, l := kept[..|kept| - 1], kept[|kept| - 1];
    if t != l {
      BehindAre(init, t);
    }
  }

  lemma {:induction false} BehindPlain(files: seq<string>)
    requires Header !in files
    ensures Behind([Header] + files) == files
  {
    var all := [Header] + files;
    assert all[0] == Header;
    if files != [] {
      var init, last := files[..|files| - 1], files[|files| - 1];
      assert all[..|all| - 1] == [Header] + init && all[|all| - 1] == last;
      assert files == init + [last] && last != Header && Header !in init;
      BehindPlain(init);
      hide Header;
    }
  }

  // ------------------------------------------------------- composition

  /** What is taken of canonical composition: a line feed composes with nothing, the
      header is composed already, and so is every piece of a composed text. */
  ghost predicate IsComposer(nfc: Composer) {
    (forall a: string, b: string :: nfc(a + "\n" + b) == nfc(a) + "\n" + nfc(b)) &&
    nfc(Header) == Header &&
    (forall s: string, i: nat, j: nat :: i <= j <= |nfc(s)| ==> nfc(nfc(s)[i..j]) == nfc(s)[i..j])
  }

  function CleanAll(parts: seq<string>, nfc: Composer): seq<string> {
    if parts == [] then []
    else CleanAll(parts[..|parts| - 1], nfc) + Clean(nfc(parts[|parts| - 1]))
  }

  lemma CleanFeed(a: string, b: string, nfc: Composer)
    requires IsComposer(nfc)
    ensures Clean(nfc(a + "\n" + b)) == Clean(nfc(a)) + Clean(nfc(b))
  {
    hide Clean;
    CleanConcat(nfc(a), '\n', nfc(b));
  }

  lemma {:induction false} CleanJoin(parts: seq<string>, nfc: Composer)
    requires IsComposer(nfc) && parts != []
    ensures Clean(nfc(JoinBy(parts, "\n"))) == CleanAll(parts, nfc)
  {
    hide Clean, IsComposer;
    if |parts| == 1 {
      assert parts[..0] == [];
    } else {
      var init := parts[..|parts| - 1];
      CleanJoin(init, nfc);
      CleanFeed(JoinBy(init, "\n"), parts[|parts| - 1], nfc);
    }
  }

  lemma {:induction false} CleanAllOfCons(p: string, ps: seq<string>, nfc: Composer)
    ensures CleanAll([p] + ps, nfc) == Clean(nfc(p)) + CleanAll(ps, nfc)
  {
    hide Clean;
    var all := [p] + ps;
    if ps == [] {
      assert all[..0] == [];
    } else {
      assert all[..|all| - 1] == [p] + ps[..|ps| - 1];
      CleanAllOfCons(p, ps[..|ps| - 1], nfc);
    }
  }

  lemma HeaderIsKept()
    ensures OneLine(Header) && Kept(Header) == [Header]
  {
    assert Header[0] == '-' && Header[|Header| - 1] == '-';
  }

  function AfterMessage(m: string, f: string): string {
    if m == "" then f else m + "\n" + "\n" + f
  }

  /** The files section is the last one, whatever the message is. */
  lemma SectionsAre(c: Commit)
    ensures FilesBlock(c) != ""
    ensures exists m :: JoinBy(NonEmpty(Sections(c)), "\n\n") == AfterMessage(m, FilesBlock(c))
  {
    var f, s := FilesBlock(c), Sections(c);
    BlockIsNotEmpty([Header] + c.changedFiles);
    var front := s[..|s| - 1];
    assert s[|s| - 1] == f;
    var ne := NonEmpty(front);
    assert NonEmpty(s) == ne + [f];
    assert (ne + [f])[..|ne|] == ne;
    NonEmptyAre(front);
    if ne == [] {
      assert JoinBy(NonEmpty(s), "\n\n") == AfterMessage("", f);
    } else {
      var m := JoinBy(ne, "\n\n");
      JoinIsNotEmpty(ne);
      assert m + "\n\n" + f == AfterMessage(m, f);
    }
  }

  lemma BlockIsNotEmpty(parts: seq<string>)
    requires parts != [] && parts[0] == Header
    ensures JoinBy(parts, "\n") != ""
  {
    if |parts| > 1 { assert |"\n"| == 1; }
  }

  lemma {:induction false} NonEmptyAre(s: seq<string>)
    ensures forall k :: 0 <= k < |NonEmpty(s)| ==> NonEmpty(s)[k] != ""
  {
    if s != [] { NonEmptyAre(s[..|s| - 1]); }
  }

  lemma JoinIsNotEmpty(parts: seq<string>)
    requires parts != [] && parts[0] != ""
    ensures JoinBy(parts, "\n\n") != ""
  {
    if |parts| > 1 { assert |"\n\n"| == 2; }
  }

  /** Parsing a rendering never sees the message: it gives the stripped non-blank lines of
      the composed paths, behind the last line that reads like the header. */
  lemma ParseOfRender(c: Commit, nfc: Composer)
    requires IsComposer(nfc)
    ensures ParseChangedFiles(RenderCommit(c, nfc)) == Behind([Header] + CleanAll(c.changedFiles, nfc))
  {
    hide SplitLines, KeptLines, Behind, LastHeader, NormalizeText, Kept, Strip, JoinBy, NonEmpty;
    var text := JoinBy(NonEmpty(Sections(c)), "\n\n");
    var f := FilesBlock(c);
    KeptLast(SplitLines(RenderCommit(c, nfc)));
    NormalizationKeepsLines(text, nfc);
    SectionsAre(c);
    var m :| text == AfterMessage(m, f);
    hide Clean, CleanAll;
    var lines := [Header] + CleanAll(c.changedFiles, nfc);
    assert Clean(nfc(f)) == lines by {
      CleanJoin([Header] + c.changedFiles, nfc);
      CleanAllOfCons(Header, c.changedFiles, nfc);
      HeaderIsKept();
      CleanLine(Header);
    }
    assert lines[0] == Header;
    if m != "" {
      CleanFeed(m + "\n", f, nfc);
      BehindOfConcat(Clean(nfc(m + "\n")), lines);
    }
  }

  // ------------------------------------------------------- round trip

  /** A path on a line of its own: one line, stripped, not blank. */
  predicate Tidy(p: string) {
    OneLine(p) && Strip(p) == p && p != ""
  }

  lemma {:induction false} CleanAllTidy(ps: seq<string>, nfc: Composer)
    requires forall p :: p in ps ==> Tidy(p) && nfc(p) == p
    ensures CleanAll(ps, nfc) == ps
  {
    if ps != [] {
      var init, p := ps[..|ps| - 1], ps[|ps| - 1];
      assert ps == init + [p];
      assert p in ps;
      CleanAllTidy(init, nfc);
      CleanLine(p);
    }
  }

  lemma {:induction false} RstripIs(s: string)
    ensures |Rstrip(s)| <= |s| && Rstrip(s) == s[..|Rstrip(s)|]
    ensures Rstrip(s) == "" || !Space(Rstrip(s)[|Rstrip(s)| - 1])
  {
    if s != "" && Space(s[|s| - 1]) { RstripIs(s[..|s| - 1]); }
  }

  lemma {:induction false} LstripIs(s: string)
    ensures |Lstrip(s)| <= |s| && Lstrip(s) == s[|s| - |Lstrip(s)|..]
    ensures Lstrip(s) == "" || !Space(Lstrip(s)[0])
  {
    if s != "" && Space(s[0]) { LstripIs(s[1..]); }
  }

  lemma StripIs(s: string)
    ensures exists i: nat, j: nat :: i <= j <= |s| && Strip(s) == s[i..j]
    ensures Strip(Strip(s)) == Strip(s)
  {
    var r := Rstrip(s);
    RstripIs(s);
    LstripIs(r);
    var t := Strip(s);
    assert t == r[|r| - |t|..];
    assert t == s[|r| - |t|..|r|];
    if t != "" { assert t[|t| - 1] == r[|r| - 1]; }
  }

  /** Every piece is composed. */
  ghost predicate Composed(s: string, nfc: Composer) {
    forall i: nat, j: nat :: i <= j <= |s| ==> nfc(s[i..j]) == s[i..j]
  }

  lemma PieceIsComposed(s: string, a: nat, b: nat, nfc: Composer)
    requires Composed(s, nfc) && a <= b <= |s|
    ensures Composed(s[a..b], nfc)
  {
    forall i: nat, j: nat | i <= j <= b - a ensures nfc(s[a..b][i..j]) == s[a..b][i..j] {
      SliceOfSlice(s, a, b, i, j);
    }
  }

  lemma SliceOfSlice(s: string, a: nat, b: nat, i: nat, j: nat)
    requires a <= b <= |s| && i <= j <= b - a
    ensures s[a..b][i..j] == s[a + i..a + j]
  {
    var t := s[a..b];
    var u, v := t[i..j], s[a + i..a + j];
    assert |u| == |v|;
    forall k | 0 <= k < |u| ensures u[k] == v[k] { assert u[k] == t[i + k]; }
  }

  lemma KeptIsTidy(l: string, t: string, nfc: Composer)
    requires OneLine(l) && Composed(l, nfc)
    requires t in Kept(l)
    ensures Tidy(t) && nfc(t) == t
  {
    StripIs(l);
    hide Strip;
    var i: nat, j: nat :| i <= j <= |l| && Strip(l) == l[i..j];
    assert nfc(l[i..j]) == l[i..j];
  }

  lemma {:induction false} CleanIsTidy(s: string, t: string, nfc: Composer)
    requires Composed(s, nfc)
    requires t in Clean(s)
    ensures Tidy(t) && nfc(t) == t
    decreases |s|
  {
    hide Clean, Kept, Tidy, Composed, Breaks;
    var k := FirstBreak(s);
    FirstBreakSplits(s);
    if k == |s| {
      assert s[..k] == s;
      CleanLine(s);
      KeptIsTidy(s, t, nfc);
    } else {
      var h, r := s[..k], s[k + 1..];
      assert s == h + [s[k]] + r;
      CleanHead(h, s[k], r);
      assert s[0..k] == h && s[k + 1..|s|] == r;
      PieceIsComposed(s, 0, k, nfc);
      PieceIsComposed(s, k + 1, |s|, nfc);
      if t in Kept(h) { KeptIsTidy(h, t, nfc); } else { CleanIsTidy(r, t, nfc); }
    }
  }

  lemma {:induction false} CleanAllAre(ps: seq<string>, t: string, nfc: Composer)
    requires IsComposer(nfc)
    requires t in CleanAll(ps, nfc)
    ensures Tidy(t) && nfc(t) == t
  {
    hide Clean, Tidy;
    var init, p := ps[..|ps| - 1], ps[|ps| - 1];
    if t in Clean(nfc(p)) {
      assert Composed(nfc(p), nfc);
      hide IsComposer;
      CleanIsTidy(nfc(p), t, nfc);
    } else {
      CleanAllAre(init, t, nfc);
    }
  }

  /** Parsing gives the changed files back exactly when each is a tidy line, composed,
      and not the header itself.  The subject and the body do not matter. */
  lemma RoundTripIff(c: Commit, nfc: Composer)
    requires IsComposer(nfc)
    ensures ParseChangedFiles(RenderCommit(c, nfc)) == c.changedFiles <==>
      (forall p :: p in c.changedFiles ==> Tidy(p) && nfc(p) == p && p != Header)
  {
    hide ParseChangedFiles, RenderCommit, IsComposer, Tidy, CleanAll, Behind;
    var files := c.changedFiles;
    ParseOfRender(c, nfc);
    var all := CleanAll(files, nfc);
    if forall p :: p in files ==> Tidy(p) && nfc(p) == p && p != Header {
      CleanAllTidy(files, nfc);
      BehindPlain(files);
    }
    if Behind([Header] + all) == files {
      forall p | p in files ensures Tidy(p) && nfc(p) == p && p != Header {
        BehindAre([Header] + all, p);
        CleanAllAre(files, p, nfc);
      }
    }
  }

  /** The paths git lists, as the connector keeps them. */
  lemma {:induction false} ListedPathsAreTidy(output: string, p: string)
    requires p in Clean(output)
    ensures Tidy(p)
  {
    var id: Composer := s => s;
    CleanIsTidy(output, p, id);
  }

  /** For a commit read from git the round trip fails only on a path that is the header or
      is not composed. */
  lemma ReadCommitRoundTripsIff(c: Commit, output: string, nfc: Composer)
    requires IsComposer(nfc)
    requires forall p :: p in c.changedFiles <==> p in Clean(output)
    ensures ParseChangedFiles(RenderCommit(c, nfc)) == c.changedFiles <==>
      (forall p :: p in Clean(output) ==> nfc(p) == p && p != Header)
  {
    hide ParseChangedFiles, RenderCommit, IsComposer, Tidy, Clean;
    RoundTripIff(c, nfc);
    forall p | p in c.changedFiles ensures Tidy(p) { ListedPathsAreTidy(output, p); }
  }
}
