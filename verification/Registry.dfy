/** The registry tables a build reads and writes, and interval membership.

    A row belongs to version S when it was introduced at or before S and has not
    left the registry at or before S.  Nothing else in a row decides membership. */
module Prelude {
  datatype Option<+T> = None | Some(value: T)
}

module Registry {
  import opened Prelude

  /** Row identities (uuids): nothing but equality is used. */
  datatype SourceId = Src(uuid: int)
  datatype ArtifactId = Art(uuid: int)
  datatype EdgeId = Link(uuid: int)

  type Acl = seq<string>

  datatype SourceKind = GithubDoc | GithubCode | GitMetadata | OtherProse

  /** `content` stands for the content hash: hashing is taken as injective. */
  datatype Source = Source(
    kind: SourceKind,
    uri: string,
    path: Option<string>,
    content: string,
    lastSeenAt: Option<int>,
    createdAt: int,
    isDeleted: bool,
    acl: Acl)
  {
    /** COALESCE(last_seen_at, created_at) */
    function LastRecorded(): int {
      if lastSeenAt.Some? then lastSeenAt.value else createdAt
    }
  }

  datatype ArtifactKind = AliasReference | CommitNote | CodeFile | Summary | OtherKind(name: string)

  /** One evidence entry of an alias row.  Ledger-mined rows store entries that
      name no source; the miner's watermark skips those. */
  datatype EvidenceEntry =
    | Mined(source: string, ref: string, minedAt: string, targets: seq<string>)
    | Missed(firstSeen: int, lastSeen: int, missCount: nat)

  datatype Provenance = BuildMined | LedgerMined

  datatype TargetRef = TargetRef(path: string, artifact: Option<ArtifactId>, count: nat)

  datatype Body =
    | Text(text: string)
    | AliasBody(phrase: string, confirmations: int, provenance: Provenance,
                targets: seq<TargetRef>, evidence: seq<EvidenceEntry>)

  /** The artifact's content hash is the (injective) hash of its body, so two rows
      share a content hash exactly when they have the same body. */
  datatype Artifact = Artifact(
    kind: ArtifactKind,
    source: SourceId,
    title: Option<string>,
    body: Option<Body>,
    validFrom: int,
    gone: Option<int>,
    prior: Option<ArtifactId>,
    acl: Acl)

  datatype Producer = Graphify | Linker | Judge | AliasMiner

  datatype EdgeEvidence =
    | NoEvidence
    | Pointer(text: string)
    | AliasPointer(alias: string, targetPath: string, sources: multiset<string>)

  datatype Edge = Edge(
    from: ArtifactId,
    to: ArtifactId,
    kind: string,
    producer: Producer,
    confidence: real,
    evidence: EdgeEvidence,
    validFrom: int,
    gone: Option<int>)

  /** `generation` maps a document cache key to the artifact ids mapped to it. */
  datatype Db = Db(
    sources: map<SourceId, Source>,
    artifacts: map<ArtifactId, Artifact>,
    edges: map<EdgeId, Edge>,
    generation: map<string, seq<ArtifactId>>)

  // ---------------------------------------------------------------- membership

  predicate MemberAt(validFrom: int, gone: Option<int>, s: int) {
    validFrom <= s && (gone.None? || gone.value > s)
  }

  predicate HasArtifact(db: Db, a: ArtifactId, s: int) {
    a in db.artifacts && MemberAt(db.artifacts[a].validFrom, db.artifacts[a].gone, s)
  }

  predicate HasEdge(db: Db, e: EdgeId, s: int) {
    e in db.edges && MemberAt(db.edges[e].validFrom, db.edges[e].gone, s)
  }

  function ArtifactsAt(db: Db, s: int): set<ArtifactId> {
    set a | a in db.artifacts && HasArtifact(db, a, s)
  }

  function EdgesAt(db: Db, s: int): set<EdgeId> {
    set e | e in db.edges && HasEdge(db, e, s)
  }

  predicate LiveArtifact(db: Db, a: ArtifactId) {
    a in db.artifacts && db.artifacts[a].gone.None?
  }

  predicate LiveEdge(db: Db, e: EdgeId) {
    e in db.edges && db.edges[e].gone.None?
  }

  function LiveArtifacts(db: Db): set<ArtifactId> {
    set a | a in db.artifacts && LiveArtifact(db, a)
  }

  /** Live edges with an endpoint that is not a live artifact. */
  predicate Ghost(db: Db, e: EdgeId) {
    LiveEdge(db, e) && !(LiveArtifact(db, db.edges[e].from) && LiveArtifact(db, db.edges[e].to))
  }

  function Ghosts(db: Db): set<EdgeId> {
    set e | e in db.edges && Ghost(db, e)
  }

  // ---------------------------------------------------------------- unique link keys

  /** The producers whose edges have a unique index on (from, to, kind). */
  predicate Keyed(e: Edge) {
    e.producer == Linker || e.producer == Judge
  }

  predicate SameKey(e: Edge, f: Edge) {
    e.producer == f.producer && e.from == f.from && e.to == f.to && e.kind == f.kind
  }

  predicate SharesKey(edges: map<EdgeId, Edge>, e: EdgeId, f: EdgeId) {
    e in edges && f in edges && e != f && Keyed(edges[e]) && SameKey(edges[e], edges[f])
  }

  /** The partial unique indexes: they bind rows that have left as well. */
  ghost predicate UniqueLinks(edges: map<EdgeId, Edge>) {
    forall e, f :: !SharesKey(edges, e, f)
  }

  /** Every version before `n` has the same member ids in both states. */
  ghost predicate Frozen(db: Db, db': Db, n: int) {
    && (forall a, s :: s < n ==> HasArtifact(db, a, s) == HasArtifact(db', a, s))
    && (forall e, s :: s < n ==> HasEdge(db, e, s) == HasEdge(db', e, s))
  }

  /** ... and the same endpoints on the edges that belong to them. */
  ghost predicate FrozenEndpoints(db: Db, db': Db, n: int) {
    forall e, s :: s < n && HasEdge(db, e, s) && HasEdge(db', e, s) ==>
      db.edges[e].from == db'.edges[e].from && db.edges[e].to == db'.edges[e].to
  }

  lemma FrozenSets(db: Db, db': Db, n: int, s: int)
    requires Frozen(db, db', n) && s < n
    ensures ArtifactsAt(db, s) == ArtifactsAt(db', s)
    ensures EdgesAt(db, s) == EdgesAt(db', s)
  {
    forall a ensures a in ArtifactsAt(db, s) <==> a in ArtifactsAt(db', s) {
      assert HasArtifact(db, a, s) == HasArtifact(db', a, s);
    }
    forall e ensures e in EdgesAt(db, s) <==> e in EdgesAt(db', s) {
      assert HasEdge(db, e, s) == HasEdge(db', e, s);
    }
  }

  lemma FrozenTransitive(a: Db, b: Db, c: Db, n: int)
    requires Frozen(a, b, n) && Frozen(b, c, n)
    ensures Frozen(a, c, n)
  {
    forall x, s | s < n ensures HasArtifact(a, x, s) == HasArtifact(c, x, s) {
      assert HasArtifact(a, x, s) == HasArtifact(b, x, s);
    }
    forall x, s | s < n ensures HasEdge(a, x, s) == HasEdge(c, x, s) {
      assert HasEdge(a, x, s) == HasEdge(b, x, s);
    }
  }

  /** Intervals are well formed: a row never leaves before it was introduced. */
  ghost predicate WellFormed(db: Db) {
    && (forall a :: a in db.artifacts ==> db.artifacts[a].gone.Some? ==>
          db.artifacts[a].validFrom <= db.artifacts[a].gone.value)
    && (forall e :: e in db.edges ==> db.edges[e].gone.Some? ==>
          db.edges[e].validFrom <= db.edges[e].gone.value)
  }

  /** Two rows with the same introduction look the same to every version before
      `n` exactly when neither of them left before `n`, or both left together. */
  predicate SamePast(gone: Option<int>, gone': Option<int>, n: int) {
    gone == gone' || ((gone.Some? ==> gone.value >= n) && (gone'.Some? ==> gone'.value >= n))
  }

  /** A row either stays in or out as it was, comes back, or leaves at `n`. */
  predicate MovedAt(gone: Option<int>, gone': Option<int>, n: int) {
    gone' == gone || gone'.None? || gone' == Some(n)
  }

  /** Each row of `db` keeps its introduction and its past; rows only in `db'`
      were introduced at `n` or later. */
  ghost predicate RowsKeepPast(db: Db, db': Db, n: int) {
    && (forall a :: a in db.artifacts ==>
          a in db'.artifacts && db'.artifacts[a].validFrom == db.artifacts[a].validFrom &&
          SamePast(db.artifacts[a].gone, db'.artifacts[a].gone, n))
    && (forall a :: a in db'.artifacts && a !in db.artifacts ==> db'.artifacts[a].validFrom >= n)
    && (forall e :: e in db.edges ==>
          e in db'.edges && db'.edges[e].validFrom == db.edges[e].validFrom &&
          SamePast(db.edges[e].gone, db'.edges[e].gone, n))
    && (forall e :: e in db'.edges && e !in db.edges ==> db'.edges[e].validFrom >= n)
  }

  lemma KeptPastIsFrozen(db: Db, db': Db, n: int)
    requires RowsKeepPast(db, db', n)
    ensures Frozen(db, db', n)
  {
    forall a, s | s < n ensures HasArtifact(db, a, s) == HasArtifact(db', a, s) {}
    forall e, s | s < n ensures HasEdge(db, e, s) == HasEdge(db', e, s) {}
  }

  // ---------------------------------------------------------------- the store

  /** The session's view of the tables; the passes update it in place. */
  class Store {
    var sources: map<SourceId, Source>
    var artifacts: map<ArtifactId, Artifact>
    var edges: map<EdgeId, Edge>
    var generation: map<string, seq<ArtifactId>>

    constructor (db: Db)
      ensures Snapshot() == db
    {
      sources, artifacts, edges, generation := db.sources, db.artifacts, db.edges, db.generation;
    }

    function Snapshot(): Db
      reads this
    {
      Db(sources, artifacts, edges, generation)
    }
  }
}
