/** Per-source processing of a build: fetched items are touched when unchanged,
    otherwise committed one by one, through the generation cache for prose.

    A source row is identified by its (source type, uri) pair, so an item names the
    id its row has or would get. */
module Documents {
  import opened Prelude
  import opened Registry

  datatype Draft = Draft(kind: ArtifactKind, title: Option<string>, body: Option<Body>)

  /** What extraction makes of a text (deterministic rendering for a commit). */
  type Extractor = string -> seq<Draft>

  /** `fails`: processing this item raises.  `ids`: identities for the rows it inserts. */
  datatype Item = Item(source: SourceId, kind: SourceKind, uri: string, path: Option<string>, text: string, acl: Acl,
                       fails: bool, ids: seq<ArtifactId>)

  /** The working transaction over the last committed state. */
  datatype Session = Session(work: Db, saved: Db, seen: set<SourceId>, changed: set<SourceId>, failures: nat)

  function Begin(db: Db): Session {
    Session(db, db, {}, {}, 0)
  }

  predicate Unchanged(db: Db, i: Item) {
    i.source in db.sources && db.sources[i.source].content == i.text
  }

  /** last_seen_at and the ACL ride along; is_deleted is not cleared. */
  function Touch(db: Db, i: Item, now: int): Db {
    if i.source in db.sources
    then db.(sources := db.sources[i.source := db.sources[i.source].(lastSeenAt := Some(now), acl := i.acl)])
    else db
  }

  function Upserted(db: Db, i: Item, now: int): Source {
    if i.source in db.sources
    then db.sources[i.source].(path := i.path, content := i.text, lastSeenAt := Some(now), isDeleted := false, acl := i.acl)
    else Source(i.kind, i.uri, i.path, i.text, Some(now), now, false, i.acl)
  }

  predicate Cached(i: Item) { !i.kind.GitMetadata? }

  /** The cache key has no source identity in it. */
  predicate Hit(db: Db, i: Item) {
    Cached(i) && i.text in db.generation
  }

  function RowFor(d: Draft, i: Item, n: int): Artifact {
    Artifact(d.kind, i.source, d.title, d.body, n, None, None, i.acl)
  }

  /** One row per draft. */
  function RowsFor(drafts: seq<Draft>, i: Item, n: int): map<ArtifactId, Artifact>
    requires |drafts| <= |i.ids|
  {
    if drafts == [] then map[]
    else
      var k := |drafts| - 1;
      RowsFor(drafts[..k], i, n)[i.ids[k] := RowFor(drafts[k], i, n)]
  }

  function Firsts(ids: seq<ArtifactId>, k: nat): seq<ArtifactId> {
    if k <= |ids| then ids[..k] else ids
  }

  /** A hit replays the mapped ids and inserts nothing. */
  function Extracted(db: Db, i: Item, extract: Extractor, n: int, now: int): Db
    requires |extract(i.text)| <= |i.ids|
  {
    var sources := db.sources[i.source := Upserted(db, i, now)];
    if Hit(db, i) then db.(sources := sources)
    else
      var rows := RowsFor(extract(i.text), i, n);
      db.(sources := sources, artifacts := db.artifacts + rows,
          generation := if Cached(i) then db.generation[i.text := Firsts(i.ids, |extract(i.text)|)] else db.generation)
  }

  function Process(s: Session, i: Item, extract: Extractor, n: int, now: int): Session
    requires |extract(i.text)| <= |i.ids|
  {
    if Unchanged(s.work, i) then
      s.(work := Touch(s.work, i, now), seen := s.seen + {i.source})
    else if i.fails then
      // roll back to the last commit, then touch the prior row if there is one
      var back := s.saved;
      if i.source in back.sources
      then var t := Touch(back, i, now); Session(t, t, s.seen + {i.source}, s.changed, s.failures + 1)
      else Session(back, back, s.seen, s.changed, s.failures + 1)
    else
      var d := Extracted(s.work, i, extract, n, now);
      Session(d, d, s.seen + {i.source}, s.changed + {i.source}, s.failures)
  }

  ghost predicate EnoughIds(items: seq<Item>, extract: Extractor) {
    forall k :: 0 <= k < |items| ==> |extract(items[k].text)| <= |items[k].ids|
  }

  function ProcessAll(db: Db, items: seq<Item>, extract: Extractor, n: int, now: int): Session
    requires EnoughIds(items, extract)
  {
    if items == [] then Begin(db)
    else Process(ProcessAll(db, items[..|items| - 1], extract, n, now), items[|items| - 1], extract, n, now)
  }

  /** A listing names every source once; inserted rows get identities of their own. */
  ghost predicate LegalListing(db: Db, items: seq<Item>, extract: Extractor) {
    && EnoughIds(items, extract)
    && (forall j, k :: 0 <= j < k < |items| ==> items[j].source != items[k].source)
    && (forall k, p :: 0 <= k < |items| && 0 <= p < |items[k].ids| ==> items[k].ids[p] !in db.artifacts)
    && (forall k, p, q :: 0 <= k < |items| && 0 <= p < q < |items[k].ids| ==> items[k].ids[p] != items[k].ids[q])
    && (forall j, k, p, q :: 0 <= j < k < |items| && 0 <= p < |items[j].ids| && 0 <= q < |items[k].ids| ==>
          items[j].ids[p] != items[k].ids[q])
  }

  // ------------------------------------------------------- what became of each item

  datatype Fate = Touched | Failed | Replayed | Written

  function FateOf(s: Session, i: Item): Fate {
    if Unchanged(s.work, i) then Touched else if i.fails then Failed else if Hit(s.work, i) then Replayed else Written
  }

  /** Two states that differ only in when sources were last seen and in their ACLs. */
  ghost predicate SameButTouches(a: Db, b: Db) {
    && a.artifacts == b.artifacts && a.edges == b.edges && a.generation == b.generation
    && a.sources.Keys == b.sources.Keys
    && (forall s :: s in a.sources ==> SameSource(a.sources[s], b.sources[s]))
  }

  predicate SameSource(r: Source, r': Source) {
    r'.content == r.content && r'.isDeleted == r.isDeleted && r'.kind == r.kind
  }

  lemma {:induction false} WorkIsSavedButTouches(db: Db, items: seq<Item>, extract: Extractor, n: int, now: int)
    requires EnoughIds(items, extract)
    ensures var s := ProcessAll(db, items, extract, n, now); SameButTouches(s.saved, s.work)
  {
    if items != [] { WorkIsSavedButTouches(db, items[..|items| - 1], extract, n, now); }
  }

  // ------------------------------------------------------- one step

  /** The rows a step inserts. */
  function Inserted(f: Fate, i: Item, extract: Extractor, n: int): map<ArtifactId, Artifact>
    requires |extract(i.text)| <= |i.ids|
  {
    if f.Written? then RowsFor(extract(i.text), i, n) else map[]
  }

  lemma StepRows(s: Session, i: Item, extract: Extractor, n: int, now: int)
    requires |extract(i.text)| <= |i.ids| && SameButTouches(s.saved, s.work)
    ensures var s', f := Process(s, i, extract, n, now), FateOf(s, i);
      && s'.work.artifacts == s.work.artifacts + Inserted(f, i, extract, n)
      && s'.work.edges == s.work.edges
      && (forall key :: key in s'.work.generation <==> key in s.work.generation || (f.Written? && Cached(i) && key == i.text))
  {
    hide RowsFor, Upserted;
  }

  lemma StepSets(s: Session, i: Item, extract: Extractor, n: int, now: int)
    requires |extract(i.text)| <= |i.ids| && SameButTouches(s.saved, s.work)
    ensures var s', f := Process(s, i, extract, n, now), FateOf(s, i);
      && s'.changed == s.changed + (if f.Replayed? || f.Written? then {i.source} else {})
      && s'.seen == s.seen + (if f.Failed? && i.source !in s.work.sources then {} else {i.source})
  {
    hide RowsFor, Upserted, Touch, Extracted;
  }

  /** Other sources' rows stay; the item's own row says what became of it. */
  lemma StepSources(s: Session, i: Item, extract: Extractor, n: int, now: int, x: SourceId)
    requires |extract(i.text)| <= |i.ids| && SameButTouches(s.saved, s.work)
    ensures var d, f := Process(s, i, extract, n, now).work, FateOf(s, i);
      && (x != i.source || f.Touched? || f.Failed? ==>
            (x in d.sources <==> x in s.work.sources) && (x in d.sources ==> SameSource(s.work.sources[x], d.sources[x])))
      && (f.Touched? ==> i.source in d.sources)
      && (f.Replayed? || f.Written? ==>
            i.source in d.sources && d.sources[i.source].content == i.text && !d.sources[i.source].isDeleted &&
            d.sources[i.source].kind == if i.source in s.work.sources then s.work.sources[i.source].kind else i.kind)
  {
    hide RowsFor;
  }

  lemma {:induction false} RowsForAt(drafts: seq<Draft>, i: Item, n: int, k: nat)
    requires k < |drafts| <= |i.ids|
    requires forall p, q :: 0 <= p < q < |i.ids| ==> i.ids[p] != i.ids[q]
    ensures i.ids[k] in RowsFor(drafts, i, n) && RowsFor(drafts, i, n)[i.ids[k]] == RowFor(drafts[k], i, n)
  {
    if k < |drafts| - 1 { RowsForAt(drafts[..|drafts| - 1], i, n, k); }
  }

  lemma {:induction false} RowsForOnly(drafts: seq<Draft>, i: Item, n: int, a: ArtifactId) returns (k: nat)
    requires |drafts| <= |i.ids| && a in RowsFor(drafts, i, n)
    ensures k < |drafts| && i.ids[k] == a
  {
    k := |drafts| - 1;
    if a != i.ids[k] { k := RowsForOnly(drafts[..k], i, n, a); }
  }

  // ------------------------------------------------------- the whole listing

  function FateAt(db: Db, items: seq<Item>, extract: Extractor, n: int, now: int, k: nat): Fate
    requires EnoughIds(items, extract) && k < |items|
  {
    FateOf(ProcessAll(db, items[..k], extract, n, now), items[k])
  }

  lemma Prefix(db: Db, items: seq<Item>, extract: Extractor)
    requires LegalListing(db, items, extract) && items != []
    ensures LegalListing(db, items[..|items| - 1], extract)
    ensures forall k :: 0 <= k < |items| - 1 ==> items[..|items| - 1][..k] == items[..k]
  {}

  lemma {:induction false} UnlistedSource(db: Db, items: seq<Item>, extract: Extractor, n: int, now: int, x: SourceId)
    requires LegalListing(db, items, extract) && forall k :: 0 <= k < |items| ==> items[k].source != x
    ensures var s := ProcessAll(db, items, extract, n, now);
      && (x in s.work.sources <==> x in db.sources) && (x in db.sources ==> SameSource(db.sources[x], s.work.sources[x]))
      && x !in s.seen && x !in s.changed
  {
    if items != [] {
      var init, last := items[..|items| - 1], items[|items| - 1];
      Prefix(db, items, extract);
      UnlistedSource(db, init, extract, n, now, x);
      WorkIsSavedButTouches(db, init, extract, n, now);
      var s := ProcessAll(db, init, extract, n, now);
      hide Process, SameButTouches, LegalListing;
      StepSets(s, last, extract, n, now);
      StepSources(s, last, extract, n, now, x);
    }
  }

  /** A source nobody lists keeps its row, in the open transaction and in the last commit. */
  lemma {:induction false} UnlistedStays(db: Db, items: seq<Item>, extract: Extractor, n: int, now: int, x: SourceId)
    requires LegalListing(db, items, extract) && forall k :: 0 <= k < |items| ==> items[k].source != x
    ensures var s := ProcessAll(db, items, extract, n, now);
      && (x in s.work.sources <==> x in db.sources) && (x in db.sources ==> s.work.sources[x] == db.sources[x])
      && (x in s.saved.sources <==> x in db.sources) && (x in db.sources ==> s.saved.sources[x] == db.sources[x])
  {
    if items != [] {
      Prefix(db, items, extract);
      UnlistedStays(db, items[..|items| - 1], extract, n, now, x);
      hide RowsFor, LegalListing, Upserted;
    }
  }

  /** What the listing did to the source of its k-th item. */
  ghost predicate SourceDone(db: Db, s: Session, i: Item, f: Fate) {
    && (f.Touched? || f.Failed? ==>
          (i.source in s.work.sources <==> i.source in db.sources) &&
          (i.source in db.sources ==> SameSource(db.sources[i.source], s.work.sources[i.source])))
    && (f.Replayed? || f.Written? ==>
          i.source in s.work.sources && s.work.sources[i.source].content == i.text && !s.work.sources[i.source].isDeleted)
    && (f.Replayed? || f.Written? ==>
          s.work.sources[i.source].kind == if i.source in db.sources then db.sources[i.source].kind else i.kind)
    && (i.source in s.changed <==> f.Replayed? || f.Written?)
    && (i.source in s.work.sources ==> i.source in s.seen)
    && (f.Touched? <==> Unchanged(db, i))
    && (f.Failed? <==> !Unchanged(db, i) && i.fails)
  }

  lemma {:induction false} ListedSource(db: Db, items: seq<Item>, extract: Extractor, n: int, now: int, k: nat)
    requires LegalListing(db, items, extract) && k < |items|
    ensures SourceDone(db, ProcessAll(db, items, extract, n, now), items[k], FateAt(db, items, extract, n, now, k))
  {
    var init, last := items[..|items| - 1], items[|items| - 1];
    var s, x := ProcessAll(db, init, extract, n, now), items[k].source;
    Prefix(db, items, extract);
    WorkIsSavedButTouches(db, init, extract, n, now);
    if k < |items| - 1 {
      ListedSource(db, init, extract, n, now, k);
    } else {
      assert items[..k] == init;
      UnlistedSource(db, init, extract, n, now, x);
    }
    hide Process, SameButTouches;
    StepSets(s, last, extract, n, now);
    StepSources(s, last, extract, n, now, x);
  }

  /** Rows that were there stay as they were. */
  lemma {:induction false} OldRowsStay(db: Db, items: seq<Item>, extract: Extractor, n: int, now: int, a: ArtifactId)
    requires LegalListing(db, items, extract) && a in db.artifacts
    ensures var d := ProcessAll(db, items, extract, n, now).work; a in d.artifacts && d.artifacts[a] == db.artifacts[a]
  {
    if items != [] {
      var init, last := items[..|items| - 1], items[|items| - 1];
      Prefix(db, items, extract);
      OldRowsStay(db, init, extract, n, now, a);
      WorkIsSavedButTouches(db, init, extract, n, now);
      var s := ProcessAll(db, init, extract, n, now);
      StepRows(s, last, extract, n, now);
      if a in RowsFor(extract(last.text), last, n) {
        var p := RowsForOnly(extract(last.text), last, n, a);
      }
    }
  }

  /** A row that was not there before is a draft of a written item. */
  lemma {:induction false} NewRowIsDraft(db: Db, items: seq<Item>, extract: Extractor, n: int, now: int, a: ArtifactId)
    returns (k: nat, p: nat)
    requires LegalListing(db, items, extract)
    requires a !in db.artifacts && a in ProcessAll(db, items, extract, n, now).work.artifacts
    ensures k < |items| && FateAt(db, items, extract, n, now, k).Written?
    ensures p < |extract(items[k].text)| && a == items[k].ids[p]
    ensures ProcessAll(db, items, extract, n, now).work.artifacts[a] == RowFor(extract(items[k].text)[p], items[k], n)
  {
    var init, last := items[..|items| - 1], items[|items| - 1];
    Prefix(db, items, extract);
    WorkIsSavedButTouches(db, init, extract, n, now);
    var s := ProcessAll(db, init, extract, n, now);
    StepRows(s, last, extract, n, now);
    hide Process, SameButTouches;
    if FateOf(s, last).Written? && a in RowsFor(extract(last.text), last, n) {
      k := |items| - 1;
      assert items[..k] == init;
      p := RowsForOnly(extract(last.text), last, n, a);
      RowsForAt(extract(last.text), last, n, p);
    } else {
      k, p := NewRowIsDraft(db, init, extract, n, now, a);
    }
  }

  /** Every draft of a written item has its row. */
  lemma {:induction false} DraftHasRow(db: Db, items: seq<Item>, extract: Extractor, n: int, now: int, k: nat, p: nat)
    requires LegalListing(db, items, extract) && k < |items| && FateAt(db, items, extract, n, now, k).Written?
    requires p < |extract(items[k].text)|
    ensures var d := ProcessAll(db, items, extract, n, now).work;
      items[k].ids[p] in d.artifacts && d.artifacts[items[k].ids[p]] == RowFor(extract(items[k].text)[p], items[k], n)
  {
    var init, last := items[..|items| - 1], items[|items| - 1];
    Prefix(db, items, extract);
    WorkIsSavedButTouches(db, init, extract, n, now);
    var s, a := ProcessAll(db, init, extract, n, now), items[k].ids[p];
    StepRows(s, last, extract, n, now);
    if k < |items| - 1 {
      DraftHasRow(db, init, extract, n, now, k, p);
      if a in RowsFor(extract(last.text), last, n) {
        var q := RowsForOnly(extract(last.text), last, n, a);
      }
    } else {
      assert items[..k] == init;
      RowsForAt(extract(last.text), last, n, p);
    }
  }

  /** The cache knows the texts it knew before and those written since. */
  lemma {:induction false} KeysAfter(db: Db, items: seq<Item>, extract: Extractor, n: int, now: int, key: string)
    requires LegalListing(db, items, extract)
    ensures key in ProcessAll(db, items, extract, n, now).work.generation <==>
      key in db.generation || WrittenText(db, items, extract, n, now, key)
  {
    if items != [] {
      var init, last := items[..|items| - 1], items[|items| - 1];
      Prefix(db, items, extract);
      KeysAfter(db, init, extract, n, now, key);
      WorkIsSavedButTouches(db, init, extract, n, now);
      StepRows(ProcessAll(db, init, extract, n, now), last, extract, n, now);
      WrittenTextGrows(db, items, extract, n, now, key);
      hide Process, SameButTouches, LegalListing, WrittenText;
    }
  }

  ghost predicate WrittenText(db: Db, items: seq<Item>, extract: Extractor, n: int, now: int, key: string)
    requires EnoughIds(items, extract)
  {
    exists k :: 0 <= k < |items| && WritesKey(db, items, extract, n, now, k, key)
  }

  predicate WritesKey(db: Db, items: seq<Item>, extract: Extractor, n: int, now: int, k: nat, key: string)
    requires EnoughIds(items, extract) && k < |items|
  {
    Cached(items[k]) && items[k].text == key && FateAt(db, items, extract, n, now, k).Written?
  }

  lemma WrittenTextGrows(db: Db, items: seq<Item>, extract: Extractor, n: int, now: int, key: string)
    requires EnoughIds(items, extract) && items != []
    ensures var init := items[..|items| - 1];
      WrittenText(db, items, extract, n, now, key) <==>
        (WrittenText(db, init, extract, n, now, key) || WritesKey(db, items, extract, n, now, |items| - 1, key))
  {
    var init := items[..|items| - 1];
    forall k | 0 <= k < |init| ensures WritesKey(db, items, extract, n, now, k, key) <==> WritesKey(db, init, extract, n, now, k, key) {
      assert init[..k] == items[..k];
    }
  }

  /** An item is replayed from the cache exactly when its text was cached before the
      build or an earlier item of the listing had the same text and was written. */
  lemma ReplayedIff(db: Db, items: seq<Item>, extract: Extractor, n: int, now: int, k: nat)
    requires LegalListing(db, items, extract) && k < |items|
    ensures FateAt(db, items, extract, n, now, k).Replayed? <==>
      (!Unchanged(db, items[k]) && !items[k].fails && Cached(items[k]) &&
       (items[k].text in db.generation || WrittenText(db, items[..k], extract, n, now, items[k].text)))
  {
    ListedSource(db, items, extract, n, now, k);
    LegalPrefix(db, items, extract, k);
    KeysAfter(db, items[..k], extract, n, now, items[k].text);
  }

  lemma LegalPrefix(db: Db, items: seq<Item>, extract: Extractor, k: nat)
    requires LegalListing(db, items, extract) && k <= |items|
    ensures LegalListing(db, items[..k], extract)
  {}
}
