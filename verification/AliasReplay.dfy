/** Skipping unchanged sources in the alias miner.

    Every stored alias row carries, per contributing source, the content hash the
    source was mined at and the targets it named.  The miner rebuilds from those
    entries what each source contributed, and replays it instead of mining the
    source again when the hash has not moved. */
module AliasReplay {
  import opened Prelude
  import opened Registry

  /** What mining one source yields: phrase -> targets (a dictionary stands for
      its item list in sorted order). */
  type Phrases = map<string, seq<string>>

  /** One live source eligible for mining. */
  datatype MiningInput = MiningInput(key: string, ref: string, hash: string, anchor: SourceId)

  datatype Contribution = Contribution(key: string, ref: string, hash: string, phrases: Phrases)

  /** `_extract`: what a source yields is a function of its key and content hash. */
  type Miner = (string, string) -> Phrases

  // ------------------------------------------------------- the watermark fold

  datatype Extraction = Extraction(hash: string, phrases: Phrases)

  datatype Watermark = Watermark(state: map<string, Extraction>, poisoned: set<string>)

  /** One evidence entry of the row titled `title`. */
  datatype Item = Item(title: string, entry: EvidenceEntry)

  function Absorb(w: Watermark, i: Item): Watermark {
    if !i.entry.Mined? || i.entry.source in w.poisoned then w
    else
      var key, h := i.entry.source, i.entry.minedAt;
      if key !in w.state then
        w.(state := w.state[key := Extraction(h, map[i.title := i.entry.targets])])
      else if w.state[key].hash == h then
        w.(state := w.state[key := Extraction(h, w.state[key].phrases[i.title := i.entry.targets])])
      else
        Watermark(w.state - {key}, w.poisoned + {key})
  }

  function AbsorbAll(items: seq<Item>): Watermark {
    if items == [] then Watermark(map[], {})
    else Absorb(AbsorbAll(items[..|items| - 1]), items[|items| - 1])
  }

  predicate Names(items: seq<Item>, key: string, i: Item) {
    i in items && i.entry.Mined? && i.entry.source == key
  }

  /** All stored entries of `key` agree on one hash. */
  ghost predicate Agree(items: seq<Item>, key: string) {
    forall i, j :: Names(items, key, i) && Names(items, key, j) ==> i.entry.minedAt == j.entry.minedAt
  }

  ghost predicate Mentioned(items: seq<Item>, key: string) {
    exists i :: Names(items, key, i)
  }

  /** `x` is the complete record of `key`: its one hash, and every title whose row
      names the source, with targets that row stores. */
  ghost predicate CompleteFor(items: seq<Item>, key: string, x: Extraction) {
    && (forall i :: Names(items, key, i) ==> i.entry.minedAt == x.hash && i.title in x.phrases)
    && (forall t :: t in x.phrases ==>
          exists i :: Names(items, key, i) && i.title == t && i.entry.targets == x.phrases[t])
  }

  ghost predicate Faithful(items: seq<Item>, key: string, w: Watermark) {
    && (key in w.state <==> Mentioned(items, key) && Agree(items, key))
    && (key in w.poisoned <==> !Agree(items, key))
    && (key in w.state ==> CompleteFor(items, key, w.state[key]))
  }

  lemma NamesGrow(items: seq<Item>, last: Item, key: string)
    ensures forall i :: Names(items + [last], key, i) <==> Names(items, key, i) || (i == last && Names([last], key, last))
  {}

  lemma AbsorbFaithful(items: seq<Item>, last: Item, key: string, w: Watermark)
    requires Faithful(items, key, w)
    ensures Faithful(items + [last], key, Absorb(w, last))
  {
    var all, w' := items + [last], Absorb(w, last);
    NamesGrow(items, last, key);
    hide Names;
    if !(last.entry.Mined? && last.entry.source == key) {
      assert !Names([last], key, last) by { assert last.entry.Mined? ==> last.entry.source != key; NotNamed(last, key); }
      SameNames(items, all, key, w, w');
    } else {
      NamedOnce(last, key);
      assert Names(all, key, last);
      if key in w.poisoned {
        DisagreementStays(items, last, key);
      } else if key !in w.state {
        assert forall i :: Names(all, key, i) ==> i == last;
      } else if w.state[key].hash == last.entry.minedAt {
        GrowComplete(items, last, key, w.state[key]);
      } else {
        var i :| Names(items, key, i);
        assert Names(all, key, i);
      }
    }
  }

  lemma DisagreementStays(items: seq<Item>, last: Item, key: string)
    requires !Agree(items, key)
    ensures !Agree(items + [last], key)
  {
    var i, j :| Names(items, key, i) && Names(items, key, j) && i.entry.minedAt != j.entry.minedAt;
    NamesGrow(items, last, key);
  }

  lemma NotNamed(last: Item, key: string)
    requires !(last.entry.Mined? && last.entry.source == key)
    ensures !Names([last], key, last)
  {}

  lemma NamedOnce(last: Item, key: string)
    requires last.entry.Mined? && last.entry.source == key
    ensures Names([last], key, last)
  {}

  lemma SameNames(items: seq<Item>, all: seq<Item>, key: string, w: Watermark, w': Watermark)
    requires forall i :: Names(all, key, i) <==> Names(items, key, i)
    requires key in w'.state <==> key in w.state
    requires key in w'.poisoned <==> key in w.poisoned
    requires key in w.state ==> w'.state[key] == w.state[key]
    requires Faithful(items, key, w)
    ensures Faithful(all, key, w')
  {
    if key in w.state {
      var x := w.state[key];
      forall t | t in x.phrases ensures exists i :: Names(all, key, i) && i.title == t && i.entry.targets == x.phrases[t] {
        var i :| Names(items, key, i) && i.title == t && i.entry.targets == x.phrases[t];
        assert Names(all, key, i);
      }
      var i :| Names(items, key, i);
      assert Names(all, key, i);
    }
    if !Agree(items, key) {
      var i, j :| Names(items, key, i) && Names(items, key, j) && i.entry.minedAt != j.entry.minedAt;
      assert Names(all, key, i) && Names(all, key, j);
    }
  }

  lemma GrowComplete(items: seq<Item>, last: Item, key: string, x: Extraction)
    requires CompleteFor(items, key, x)
    requires last.entry.Mined? && last.entry.source == key && last.entry.minedAt == x.hash
    ensures CompleteFor(items + [last], key, Extraction(x.hash, x.phrases[last.title := last.entry.targets]))
  {
    var all, x' := items + [last], Extraction(x.hash, x.phrases[last.title := last.entry.targets]);
    NamesGrow(items, last, key);
    forall t | t in x'.phrases ensures exists i :: Names(all, key, i) && i.title == t && i.entry.targets == x'.phrases[t] {
      if t == last.title {
        assert Names(all, key, last);
      } else {
        var i :| Names(items, key, i) && i.title == t && i.entry.targets == x.phrases[t];
        assert Names(all, key, i);
      }
    }
  }

  /** The fold keeps a source exactly when all its stored entries agree on one
      hash, and then keeps its complete phrase map; a conflict anywhere poisons the
      source for good, so an A, B, A pattern never yields a partial map. */
  lemma {:induction false} WatermarkIsFaithful(items: seq<Item>, key: string)
    ensures Faithful(items, key, AbsorbAll(items))
  {
    if items != [] {
      var rest, last := items[..|items| - 1], items[|items| - 1];
      assert items == rest + [last];
      WatermarkIsFaithful(rest, key);
      AbsorbFaithful(rest, last, key, AbsorbAll(rest));
    }
  }

  // ------------------------------------------------------- replay or mine

  /** What the stored rows must satisfy for replay to be sound: each entry is what
      mining its source at that hash yields, and no phrase of it is missing. */
  ghost predicate Watermarked(items: set<Item>, mine: Miner) {
    && (forall i :: i in items && i.entry.Mined? ==> IsMined(i, mine))
    && (forall i, t :: i in items && i.entry.Mined? && t in mine(i.entry.source, i.entry.minedAt) ==>
          Stores(items, i.entry.source, i.entry.minedAt, t))
  }

  predicate IsMined(i: Item, mine: Miner)
    requires i.entry.Mined?
  {
    var ps := mine(i.entry.source, i.entry.minedAt);
    i.title in ps && ps[i.title] == i.entry.targets
  }

  ghost predicate Stores(items: set<Item>, key: string, hash: string, t: string) {
    exists j :: j in items && j.entry.Mined? && j.entry.source == key && j.title == t && j.entry.minedAt == hash
  }

  function ItemSet(items: seq<Item>): set<Item> { set i | i in items }

  function ReplayOrMine(w: Watermark, input: MiningInput, mine: Miner): Phrases {
    if input.key in w.state && w.state[input.key].hash == input.hash
    then w.state[input.key].phrases
    else mine(input.key, input.hash)
  }

  function Contributions(w: Watermark, inputs: seq<MiningInput>, mine: Miner): seq<Contribution> {
    if inputs == [] then []
    else
      var i := inputs[|inputs| - 1];
      Contributions(w, inputs[..|inputs| - 1], mine) +
        [Contribution(i.key, i.ref, i.hash, ReplayOrMine(w, i, mine))]
  }

  /** Mining every live source afresh. */
  function FreshContributions(inputs: seq<MiningInput>, mine: Miner): seq<Contribution> {
    seq(|inputs|, k requires 0 <= k < |inputs| =>
      Contribution(inputs[k].key, inputs[k].ref, inputs[k].hash, mine(inputs[k].key, inputs[k].hash)))
  }

  lemma ReplayYieldsMined(items: seq<Item>, input: MiningInput, mine: Miner)
    requires Watermarked(ItemSet(items), mine)
    ensures ReplayOrMine(AbsorbAll(items), input, mine) == mine(input.key, input.hash)
  {
    var w, key := AbsorbAll(items), input.key;
    WatermarkIsFaithful(items, key);
    hide AbsorbAll;
    if key in w.state && w.state[key].hash == input.hash {
      var x, ps := w.state[key], mine(key, input.hash);
      forall t | t in x.phrases ensures t in ps && ps[t] == x.phrases[t] {
        var i :| Names(items, key, i) && i.title == t && i.entry.targets == x.phrases[t];
        assert i in ItemSet(items) && IsMined(i, mine);
      }
      forall t | t in ps ensures t in x.phrases {
        var i :| Names(items, key, i);
        assert i in ItemSet(items);
        assert Stores(ItemSet(items), i.entry.source, i.entry.minedAt, t);
        var j :| j in ItemSet(items) && j.entry.Mined? && j.entry.source == key && j.title == t;
        assert Names(items, key, j);
      }
      assert x.phrases.Keys == ps.Keys;
    }
  }

  /** Over faithfully stored rows, skipping unchanged sources yields the same
      contributions, in the same order, as mining every source again. */
  lemma {:induction false} ReplayEqualsMining(items: seq<Item>, inputs: seq<MiningInput>, mine: Miner)
    requires Watermarked(ItemSet(items), mine)
    ensures Contributions(AbsorbAll(items), inputs, mine) == FreshContributions(inputs, mine)
  {
    if inputs != [] {
      var rest, last := inputs[..|inputs| - 1], inputs[|inputs| - 1];
      ReplayEqualsMining(items, rest, mine);
      ReplayYieldsMined(items, last, mine);
      assert FreshContributions(inputs, mine) == FreshContributions(rest, mine) +
        [Contribution(last.key, last.ref, last.hash, mine(last.key, last.hash))];
    }
  }

  // ------------------------------------------------------- what is replayed

  /** Some stored entry names the source, and all that do were mined at its present hash. */
  ghost predicate Unchanged(items: seq<Item>, i: MiningInput) {
    Mentioned(items, i.key) && forall j :: Names(items, i.key, j) ==> j.entry.minedAt == i.hash
  }

  predicate Replays(w: Watermark, i: MiningInput) { i.key in w.state && w.state[i.key].hash == i.hash }

  /** The inputs that are not mined, in order. */
  function Replayed(w: Watermark, inputs: seq<MiningInput>): seq<MiningInput> {
    if inputs == [] then []
    else
      var i := inputs[|inputs| - 1];
      Replayed(w, inputs[..|inputs| - 1]) + (if Replays(w, i) then [i] else [])
  }

  lemma ReplaysIff(items: seq<Item>, i: MiningInput)
    ensures Replays(AbsorbAll(items), i) <==> Unchanged(items, i)
  {
    WatermarkIsFaithful(items, i.key);
    hide AbsorbAll;
    if Unchanged(items, i) {
      var j :| Names(items, i.key, j);
      assert Agree(items, i.key);
    }
  }

  /** Skipped are exactly the inputs that have not changed since they were last mined. */
  lemma {:induction false} ReplayedIff(items: seq<Item>, inputs: seq<MiningInput>, i: MiningInput)
    ensures i in Replayed(AbsorbAll(items), inputs) <==> i in inputs && Unchanged(items, i)
  {
    if inputs != [] {
      var rest, last := inputs[..|inputs| - 1], inputs[|inputs| - 1];
      assert inputs == rest + [last];
      ReplayedIff(items, rest, i);
      ReplaysIff(items, last);
      hide AbsorbAll, Unchanged, Replays;
    }
  }

  /** What the k-th input contributes: if unchanged, every phrase some stored entry of it
      names, with the targets of such an entry; otherwise what mining it yields. */
  lemma ContributionIs(items: seq<Item>, inputs: seq<MiningInput>, mine: Miner, k: nat)
    requires k < |inputs|
    ensures |Contributions(AbsorbAll(items), inputs, mine)| == |inputs|
    ensures var c, i := Contributions(AbsorbAll(items), inputs, mine)[k], inputs[k];
      && c.key == i.key && c.ref == i.ref && c.hash == i.hash
      && if Unchanged(items, i) then CompleteFor(items, i.key, Extraction(i.hash, c.phrases)) else c.phrases == mine(i.key, i.hash)
  {
    var w := AbsorbAll(items);
    ContributionAt(w, inputs, mine, k);
    ReplaysIff(items, inputs[k]);
    WatermarkIsFaithful(items, inputs[k].key);
    hide AbsorbAll, Unchanged, Contributions, CompleteFor;
  }

  lemma {:induction false} ContributionAt(w: Watermark, inputs: seq<MiningInput>, mine: Miner, k: nat)
    requires k < |inputs|
    ensures |Contributions(w, inputs, mine)| == |inputs|
    ensures var i := inputs[k];
      Contributions(w, inputs, mine)[k] ==
        Contribution(i.key, i.ref, i.hash, if Replays(w, i) then w.state[i.key].phrases else mine(i.key, i.hash))
  {
    if k < |inputs| - 1 { ContributionAt(w, inputs[..|inputs| - 1], mine, k); }
    else if |inputs| > 1 { ContributionAt(w, inputs[..|inputs| - 1], mine, 0); }
  }

  // ------------------------------------------------------- evidence written by a build

  /** The evidence of one phrase: one entry per contribution that has it. */
  function Evidence(cs: seq<Contribution>, phrase: string): seq<EvidenceEntry> {
    if cs == [] then []
    else
      var c := cs[|cs| - 1];
      Evidence(cs[..|cs| - 1], phrase) +
        (if phrase in c.phrases then [Mined(c.key, c.ref, c.hash, c.phrases[phrase])] else [])
  }

  lemma {:induction false} EvidenceFromContribution(cs: seq<Contribution>, phrase: string, e: EvidenceEntry)
    ensures e in Evidence(cs, phrase) <==>
      exists c :: c in cs && phrase in c.phrases && e == Mined(c.key, c.ref, c.hash, c.phrases[phrase])
  {
    if cs != [] {
      var rest, last := cs[..|cs| - 1], cs[|cs| - 1];
      assert cs == rest + [last];
      EvidenceFromContribution(rest, phrase, e);
      if e in Evidence(rest, phrase) {
        var c :| c in rest && phrase in c.phrases && e == Mined(c.key, c.ref, c.hash, c.phrases[phrase]);
        assert c in cs;
      }
      if c :| c in cs && phrase in c.phrases && e == Mined(c.key, c.ref, c.hash, c.phrases[phrase]) {
        if c != last { assert c in rest; }
      }
    }
  }

  /** The rows of a build hold, for every phrase, exactly the evidence of the
      contributions, in any order, besides entries that name no source. */
  ghost predicate HoldsEvidence(items: set<Item>, cs: seq<Contribution>) {
    forall t, e: EvidenceEntry :: e.Mined? ==> (Item(t, e) in items <==> e in Evidence(cs, t))
  }

  /** Rows written from contributions that are what mining yields keep replay sound. */
  lemma WrittenRowsAreWatermarked(items: set<Item>, inputs: seq<MiningInput>, mine: Miner)
    requires HoldsEvidence(items, FreshContributions(inputs, mine))
    ensures Watermarked(items, mine)
  {
    var cs := FreshContributions(inputs, mine);
    forall i | i in items && i.entry.Mined?
      ensures IsMined(i, mine)
      ensures forall t | t in mine(i.entry.source, i.entry.minedAt) :: Stores(items, i.entry.source, i.entry.minedAt, t)
    {
      assert i == Item(i.title, i.entry);
      assert i.entry in Evidence(cs, i.title);
      EvidenceFromContribution(cs, i.title, i.entry);
      var c :| c in cs && i.title in c.phrases && i.entry == Mined(c.key, c.ref, c.hash, c.phrases[i.title]);
      assert c.phrases == mine(c.key, c.hash);
      forall t | t in c.phrases ensures Stores(items, c.key, c.hash, t) {
        var e := Mined(c.key, c.ref, c.hash, c.phrases[t]);
        EvidenceFromContribution(cs, t, e);
        assert Item(t, e) in items;
      }
    }
  }

  // ------------------------------------------------------- the loops

  /** Entries of one row, in order. */
  function RowItems(row: Artifact, title: string): seq<Item> {
    if row.body.Some? && row.body.value.AliasBody?
    then seq(|row.body.value.evidence|, k requires 0 <= k < |row.body.value.evidence| =>
           Item(title, row.body.value.evidence[k]))
    else []
  }

  function AllItems(rows: map<string, Artifact>, order: seq<string>): seq<Item> {
    if order == [] then []
    else
      var t := order[|order| - 1];
      AllItems(rows, order[..|order| - 1]) + (if t in rows then RowItems(rows[t], t) else [])
  }

  /** One stored entry: grow the source's phrase map, or poison it on a conflict. */
  method AbsorbEntry(w: Watermark, title: string, entry: EvidenceEntry) returns (w': Watermark)
    ensures w' == Absorb(w, Item(title, entry))
  {
    var state, poisoned := w.state, w.poisoned;
    if entry.Mined? && entry.source !in poisoned {
      if entry.source !in state || state[entry.source].hash == entry.minedAt {
        var phrases := if entry.source in state then state[entry.source].phrases else map[];
        phrases := phrases[title := entry.targets];
        state := state[entry.source := Extraction(entry.minedAt, phrases)];
      } else {
        state, poisoned := state - {entry.source}, poisoned + {entry.source};
      }
    }
    w' := Watermark(state, poisoned);
  }

  /** The entries of one row, in turn. */
  method AbsorbRow(w: Watermark, title: string, row: Artifact, ghost before: seq<Item>) returns (w': Watermark)
    requires w == AbsorbAll(before)
    ensures w' == AbsorbAll(before + RowItems(row, title))
  {
    w' := w;
    hide Absorb;
    if row.body.Some? && row.body.value.AliasBody? {
      var entries := row.body.value.evidence;
      ghost var items := RowItems(row, title);
      assert before + items[..0] == before;
      for j := 0 to |entries|
        invariant w' == AbsorbAll(before + items[..j])
      {
        ghost var done := before + items[..j];
        assert before + items[..j + 1] == done + [Item(title, entries[j])];
        assert (done + [Item(title, entries[j])])[..|done|] == done;
        w' := AbsorbEntry(w', title, entries[j]);
      }
      assert items[..|entries|] == items;
    } else {
      assert before + RowItems(row, title) == before;
    }
  }

  /** `_prior_extractions`: rows in title order, each row's entries in turn. */
  method PriorExtractions(rows: map<string, Artifact>, order: seq<string>) returns (w: Watermark)
    requires forall t :: t in order ==> t in rows
    ensures w == AbsorbAll(AllItems(rows, order))
    ensures forall key :: Faithful(AllItems(rows, order), key, w)
  {
    w := Watermark(map[], {});
    hide RowItems, Absorb, Faithful;
    for k := 0 to |order|
      invariant w == AbsorbAll(AllItems(rows, order[..k]))
    {
      assert order[..k + 1][..k] == order[..k] && order[k] in order;
      w := AbsorbRow(w, order[k], rows[order[k]], AllItems(rows, order[..k]));
    }
    assert order[..|order|] == order;
    forall key { WatermarkIsFaithful(AllItems(rows, order), key); }
  }

  /** The source loop of the miner: replay on an unchanged hash, mine otherwise. */
  method Contribute(w: Watermark, inputs: seq<MiningInput>, mine: Miner)
    returns (contributions: seq<Contribution>, mined: nat, skipped: nat)
    ensures contributions == Contributions(w, inputs, mine)
    ensures mined + skipped == |inputs| && skipped == |Replayed(w, inputs)|
  {
    contributions, mined, skipped := [], 0, 0;
    for k := 0 to |inputs|
      invariant contributions == Contributions(w, inputs[..k], mine)
      invariant mined + skipped == k && skipped == |Replayed(w, inputs[..k])|
    {
      assert inputs[..k + 1][..k] == inputs[..k];
      var i := inputs[k];
      var phrases;
      if i.key in w.state && w.state[i.key].hash == i.hash {
        phrases, skipped := w.state[i.key].phrases, skipped + 1;
      } else {
        phrases, mined := mine(i.key, i.hash), mined + 1;
      }
      contributions := contributions + [Contribution(i.key, i.ref, i.hash, phrases)];
    }
    assert inputs[..|inputs|] == inputs;
  }
}
