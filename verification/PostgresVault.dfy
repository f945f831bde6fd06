/** A vault's rows and the memory structures kept beside them by each mutation. */
module PostgresVaults {
  import opened Sequences
  import opened Domain
  import opened NoteCaches
  import opened Backlinks
  import opened IndexContents

  /** The front-matter columns a client can change. */
  datatype Fields = Fields(title: string, tags: seq<string>, status: string, area: string, project: string)

  /** What a client writes: further keys enter the entity tag and are not stored. */
  datatype FrontMatter = FrontMatter(fields: Fields, extra: map<string, string>)

  datatype Row = Row(fields: Fields, body: string, etag: string, createdAt: int, updatedAt: int, deleted: bool)

  type Rows = map<string, Row>

  datatype VaultError = InvalidPath | Conflict | NotFound | TxFailed

  datatype MutationResult = MutationResult(summary: NoteSummary, etag: string)

  /** The pure helpers the vault calls: path normalisation, lower-casing, link parsing, entity
      tags and the category of a path. Nothing is assumed about them. */
  datatype Env = Env(
    normalize: string -> Option<string>,
    lower: string -> string,
    parseLinks: string -> seq<OutLink>,
    etag: (FrontMatter, int, int, string) -> string,
    category: string -> Category)

  predicate IsLive(rows: Rows, p: string) {
    p in rows && !rows[p].deleted
  }

  function SummaryOf(env: Env, scope: ScopeID, p: string, r: Row): NoteSummary {
    NoteSummary(NoteRef(scope, p), r.fields.title, r.fields.tags, r.fields.status, r.fields.area, r.fields.project,
                env.category(p), r.updatedAt)
  }

  function DocOf(env: Env, scope: ScopeID, p: string, r: Row): Doc {
    Doc(NoteRef(scope, p), r.fields.title, r.body, r.updatedAt)
  }

  // ----- The mutations as effects -----

  datatype Op =
    | CreateOp(path: string, front: FrontMatter, body: string, now: int, txOk: bool)
    | UpdateOp(path: string, body: string, ifMatch: string, now: int, txOk: bool)
    | PatchOp(path: string, patch: Fields -> FrontMatter, ifMatch: string, now: int, txOk: bool)
    | ReplaceOp(path: string, patch: Fields -> FrontMatter, body: string, ifMatch: string, now: int, txOk: bool)
    | MoveOp(path: string, newPath: string, ifMatch: string, txOk: bool)
    | DeleteOp(path: string, soft: bool, ifMatch: string, txOk: bool)

  /** What an operation does: nothing when it fails, else a row written and indexed again, a row
      patched, a row renamed, or a row deleted in one of the two ways. */
  datatype Effect =
    | Nothing
    | Reindex(p: string, row: Row)
    | Patch(p: string, row: Row)
    | Rename(p: string, q: string, row: Row)
    | SoftDelete(p: string, row: Row)
    | Erase(p: string)

  predicate StaleMatch(r: Row, ifMatch: string) {
    ifMatch != "" && r.etag != ifMatch
  }

  /** The row an operation may edit: a live one with the expected entity tag. */
  predicate Editable(rows: Rows, p: string, ifMatch: string, txOk: bool) {
    txOk && IsLive(rows, p) && !StaleMatch(rows[p], ifMatch)
  }

  function Stored(r: Row): FrontMatter {
    FrontMatter(r.fields, map[])
  }

  function Edited(env: Env, r: Row, front: FrontMatter, body: string, now: int): Row {
    r.(fields := front.fields, body := body, updatedAt := now, etag := env.etag(front, r.createdAt, now, body))
  }

  function EffectOf(env: Env, rows: Rows, op: Op): Effect {
    match env.normalize(op.path)
    case None => Nothing
    case Some(p) =>
      match op
      case CreateOp(_, front, body, now, txOk) =>
        if !txOk || IsLive(rows, p) then Nothing
        else Reindex(p, Row(front.fields, body, env.etag(front, now, now, body), now, now, false))
      case UpdateOp(_, body, ifMatch, now, txOk) =>
        if Editable(rows, p, ifMatch, txOk) then Reindex(p, Edited(env, rows[p], Stored(rows[p]), body, now))
        else Nothing
      case PatchOp(_, patch, ifMatch, now, txOk) =>
        if Editable(rows, p, ifMatch, txOk) then
          Patch(p, Edited(env, rows[p], patch(rows[p].fields), rows[p].body, now))
        else Nothing
      case ReplaceOp(_, patch, body, ifMatch, now, txOk) =>
        if Editable(rows, p, ifMatch, txOk) then Reindex(p, Edited(env, rows[p], patch(rows[p].fields), body, now))
        else Nothing
      case MoveOp(_, newPath, ifMatch, txOk) =>
        (match env.normalize(newPath)
         case None => Nothing
         case Some(q) =>
           if Editable(rows, p, ifMatch, txOk) && (q == p || q !in rows) then Rename(p, q, rows[p]) else Nothing)
      case DeleteOp(_, soft, ifMatch, txOk) =>
        if !txOk || (if soft || ifMatch != "" then !IsLive(rows, p) else p !in rows) then Nothing
        else if StaleMatch(rows[p], ifMatch) then Nothing
        else if soft then SoftDelete(p, rows[p].(deleted := true))
        else Erase(p)
  }

  /** The table and the structures beside it. indexed holds each live row as it stood when it was
      last sent to the full-text index. */
  datatype Memory = Memory(rows: Rows, notes: map<string, NoteSummary>, out: OutLinks, indexed: Rows)

  function Under(env: Env, scope: ScopeID, m: Memory, e: Effect): Memory {
    match e
    case Nothing => m
    case Reindex(p, r) =>
      Memory(m.rows[p := r], m.notes[env.lower(p) := SummaryOf(env, scope, p, r)],
             Replaced(m.out, p, env.parseLinks(r.body)), m.indexed[p := r])
    case Patch(p, r) => Memory(m.rows[p := r], m.notes[env.lower(p) := SummaryOf(env, scope, p, r)], m.out, m.indexed)
    case Rename(p, q, r) =>
      Memory((m.rows - {p})[q := r], (m.notes - {env.lower(p)})[env.lower(q) := SummaryOf(env, scope, q, r)],
             Replaced(m.out - {p}, q, env.parseLinks(r.body)), (m.indexed - {p})[q := r])
    case SoftDelete(p, r) => Memory(m.rows[p := r], m.notes - {env.lower(p)}, m.out - {p}, m.indexed - {p})
    case Erase(p) => Memory(m.rows - {p}, m.notes - {env.lower(p)}, m.out - {p}, m.indexed - {p})
  }

  function After(env: Env, scope: ScopeID, m: Memory, op: Op): Memory {
    Under(env, scope, m, EffectOf(env, m.rows, op))
  }

  function AfterAll(env: Env, scope: ScopeID, m: Memory, ops: seq<Op>): Memory {
    if ops == [] then m else After(env, scope, AfterAll(env, scope, m, ops[..|ops| - 1]), ops[|ops| - 1])
  }

  /** An effect as mutations produce it. */
  predicate Fits(rows: Rows, e: Effect) {
    match e
    case Nothing => true
    case Reindex(_, r) => !r.deleted
    case Patch(p, r) => IsLive(rows, p) && !r.deleted && r.body == rows[p].body
    case Rename(p, q, r) => IsLive(rows, p) && r == rows[p] && (q == p || q !in rows)
    case SoftDelete(p, r) => r.deleted
    case Erase(p) => true
  }

  lemma EffectFits(env: Env, rows: Rows, op: Op)
    ensures Fits(rows, EffectOf(env, rows, op))
  {
  }

  // ----- What the memory structures must equal -----

  /** The cache holds exactly the summaries of the live rows. */
  ghost predicate CacheInSync(env: Env, scope: ScopeID, rows: Rows, notes: map<string, NoteSummary>) {
    && (forall p :: IsLive(rows, p) ==> CachedAt(env, scope, rows, notes, p))
    && (forall k :: k in notes ==> exists p :: IsLive(rows, p) && env.lower(p) == k)
  }

  predicate CachedAt(env: Env, scope: ScopeID, rows: Rows, notes: map<string, NoteSummary>, p: string) {
    && p in rows && env.lower(p) in notes
    && Shows(env, scope, p, rows[p].fields, rows[p].updatedAt, notes[env.lower(p)])
  }

  /** The summary of path p with these fields and this update time, said field by field. */
  predicate Shows(env: Env, scope: ScopeID, p: string, fields: Fields, updatedAt: int, s: NoteSummary) {
    && s.ref.scope == scope && s.ref.path == p && s.category == env.category(p)
    && s.title == fields.title && s.tags == fields.tags && s.status == fields.status
    && s.area == fields.area && s.project == fields.project && s.updatedAt == updatedAt
  }

  /** Every cached summary is the current one of a live row with that key. */
  ghost predicate CacheSound(env: Env, scope: ScopeID, rows: Rows, notes: map<string, NoteSummary>) {
    forall k :: k in notes ==> exists p :: IsLive(rows, p) && env.lower(p) == k && CachedAt(env, scope, rows, notes, p)
  }

  ghost predicate LinksAtInSync(env: Env, rows: Rows, out: OutLinks, p: string) {
    LinksAt(out, p) == if IsLive(rows, p) then env.parseLinks(rows[p].body) else []
  }

  /** The graph holds exactly the links of the live rows. */
  ghost predicate LinksInSync(env: Env, rows: Rows, out: OutLinks) {
    forall p :: LinksAtInSync(env, rows, out, p)
  }

  /** Exactly the live rows are indexed, with their bodies. Titles and times may be older. */
  ghost predicate IndexTracks(rows: Rows, indexed: Rows) {
    forall p :: (IsLive(rows, p) <==> p in indexed) && (p in indexed ==> indexed[p].body == rows[p].body)
  }

  /** What every mutation keeps, whatever the paths. */
  ghost predicate Sound(env: Env, scope: ScopeID, m: Memory) {
    CacheSound(env, scope, m.rows, m.notes) && LinksInSync(env, m.rows, m.out) && IndexTracks(m.rows, m.indexed)
  }

  /** The structures are what a load of the rows would build, index titles and times aside. */
  ghost predicate InStep(env: Env, scope: ScopeID, m: Memory) {
    CacheInSync(env, scope, m.rows, m.notes) && LinksInSync(env, m.rows, m.out) && IndexTracks(m.rows, m.indexed)
  }

  /** No other live path has p's cache key: the guard under which a mutation of p is safe. */
  ghost predicate NoClash(env: Env, rows: Rows, p: string) {
    forall q :: IsLive(rows, q) && q != p ==> env.lower(q) != env.lower(p)
  }

  ghost predicate Safe(env: Env, rows: Rows, e: Effect) {
    match e
    case Nothing => true
    case Reindex(p, _) => NoClash(env, rows, p)
    case Patch(p, _) => NoClash(env, rows, p)
    case Rename(p, q, _) => NoClash(env, rows - {p}, q)
    case SoftDelete(p, _) => NoClash(env, rows, p)
    case Erase(p) => NoClash(env, rows, p)
  }

  ghost predicate OthersKept(rows: Rows, rows': Rows, p: string) {
    forall q :: q != p ==> (q in rows' <==> q in rows) && (q in rows ==> rows'[q] == rows[q])
  }

  // ----- The cache -----

  lemma InStepIsSound(env: Env, scope: ScopeID, rows: Rows, notes: map<string, NoteSummary>)
    requires CacheInSync(env, scope, rows, notes)
    ensures CacheSound(env, scope, rows, notes)
  {
  }

  /** Writing p's summary under its key keeps the cache exact, and does so exactly when no
      other live path has that key. */
  lemma CacheSetIff(env: Env, scope: ScopeID, rows: Rows, notes: map<string, NoteSummary>, p: string, r: Row)
    requires CacheInSync(env, scope, rows, notes) && !r.deleted
    ensures CacheInSync(env, scope, rows[p := r], notes[env.lower(p) := SummaryOf(env, scope, p, r)])
      <==> NoClash(env, rows, p)
  {
    var rows', notes' := rows[p := r], notes[env.lower(p) := SummaryOf(env, scope, p, r)];
    assert IsLive(rows', p);
    if NoClash(env, rows, p) {
      forall q | IsLive(rows', q) ensures CachedAt(env, scope, rows', notes', q) {
        assert q != p ==> IsLive(rows, q) && CachedAt(env, scope, rows, notes, q);
      }
      forall k | k in notes' ensures exists q :: IsLive(rows', q) && env.lower(q) == k {
        if k != env.lower(p) {
          var q :| IsLive(rows, q) && env.lower(q) == k;
          assert IsLive(rows', q);
        }
      }
    } else {
      var q :| IsLive(rows, q) && q != p && env.lower(q) == env.lower(p);
      assert IsLive(rows', q);
      assert SummaryOf(env, scope, q, rows'[q]).ref.path != SummaryOf(env, scope, p, r).ref.path;
      assert !CachedAt(env, scope, rows', notes', q);
    }
  }

  /** Deleting p's key keeps the cache exact exactly when no other live path has that key. */
  lemma CacheDeleteIff(env: Env, scope: ScopeID, rows: Rows, notes: map<string, NoteSummary>, p: string, rows': Rows)
    requires CacheInSync(env, scope, rows, notes)
    requires !IsLive(rows', p) && OthersKept(rows, rows', p)
    ensures CacheInSync(env, scope, rows', notes - {env.lower(p)}) <==> NoClash(env, rows, p)
  {
    var notes' := notes - {env.lower(p)};
    if NoClash(env, rows, p) {
      forall q | IsLive(rows', q) ensures CachedAt(env, scope, rows', notes', q) {
        assert IsLive(rows, q) && CachedAt(env, scope, rows, notes, q);
      }
      forall k | k in notes' ensures exists q :: IsLive(rows', q) && env.lower(q) == k {
        var q :| IsLive(rows, q) && env.lower(q) == k;
        assert IsLive(rows', q);
      }
    } else {
      var q :| IsLive(rows, q) && q != p && env.lower(q) == env.lower(p);
      assert IsLive(rows', q) && !CachedAt(env, scope, rows', notes', q);
    }
  }

  /** In step with the rows, live paths have different keys. */
  lemma LiveHasNoClash(env: Env, scope: ScopeID, rows: Rows, notes: map<string, NoteSummary>, p: string)
    requires CacheInSync(env, scope, rows, notes) && IsLive(rows, p)
    ensures NoClash(env, rows, p)
  {
    forall q | IsLive(rows, q) && q != p ensures env.lower(q) != env.lower(p) {
      assert CachedAt(env, scope, rows, notes, q) && CachedAt(env, scope, rows, notes, p);
      assert notes[env.lower(q)].ref.path == q && notes[env.lower(p)].ref.path == p;
    }
  }

  lemma SoundSet(env: Env, scope: ScopeID, rows: Rows, notes: map<string, NoteSummary>, p: string, r: Row)
    requires CacheSound(env, scope, rows, notes) && !r.deleted
    ensures CacheSound(env, scope, rows[p := r], notes[env.lower(p) := SummaryOf(env, scope, p, r)])
  {
    var rows', notes' := rows[p := r], notes[env.lower(p) := SummaryOf(env, scope, p, r)];
    forall k | k in notes'
      ensures exists q :: IsLive(rows', q) && env.lower(q) == k && CachedAt(env, scope, rows', notes', q)
    {
      if k == env.lower(p) {
        assert IsLive(rows', p) && CachedAt(env, scope, rows', notes', p);
      } else {
        var q :| IsLive(rows, q) && env.lower(q) == k && CachedAt(env, scope, rows, notes, q);
        assert IsLive(rows', q) && CachedAt(env, scope, rows', notes', q);
      }
    }
  }

  lemma SoundDelete(env: Env, scope: ScopeID, rows: Rows, notes: map<string, NoteSummary>, p: string, rows': Rows)
    requires CacheSound(env, scope, rows, notes) && OthersKept(rows, rows', p)
    ensures CacheSound(env, scope, rows', notes - {env.lower(p)})
  {
    var notes' := notes - {env.lower(p)};
    forall k | k in notes'
      ensures exists q :: IsLive(rows', q) && env.lower(q) == k && CachedAt(env, scope, rows', notes', q)
    {
      var q :| IsLive(rows, q) && env.lower(q) == k && CachedAt(env, scope, rows, notes, q);
      assert IsLive(rows', q) && CachedAt(env, scope, rows', notes', q);
    }
  }

  lemma EffectKeepsCacheSound(env: Env, scope: ScopeID, m: Memory, e: Effect)
    requires CacheSound(env, scope, m.rows, m.notes) && Fits(m.rows, e)
    ensures CacheSound(env, scope, Under(env, scope, m, e).rows, Under(env, scope, m, e).notes)
  {
    match e {
      case Nothing =>
      case Reindex(p, r) => SoundSet(env, scope, m.rows, m.notes, p, r);
      case Patch(p, r) => SoundSet(env, scope, m.rows, m.notes, p, r);
      case Rename(p, q, r) =>
        SoundDelete(env, scope, m.rows, m.notes, p, m.rows - {p});
        SoundSet(env, scope, m.rows - {p}, m.notes - {env.lower(p)}, q, r);
      case SoftDelete(p, r) => SoundDelete(env, scope, m.rows, m.notes, p, m.rows[p := r]);
      case Erase(p) => SoundDelete(env, scope, m.rows, m.notes, p, m.rows - {p});
    }
  }

  lemma EffectCacheIff(env: Env, scope: ScopeID, m: Memory, e: Effect)
    requires CacheInSync(env, scope, m.rows, m.notes) && Fits(m.rows, e)
    ensures CacheInSync(env, scope, Under(env, scope, m, e).rows, Under(env, scope, m, e).notes)
      <==> Safe(env, m.rows, e)
  {
    match e {
      case Nothing =>
      case Reindex(p, r) => CacheSetIff(env, scope, m.rows, m.notes, p, r);
      case Patch(p, r) => CacheSetIff(env, scope, m.rows, m.notes, p, r);
      case Rename(p, q, r) =>
        LiveHasNoClash(env, scope, m.rows, m.notes, p);
        CacheDeleteIff(env, scope, m.rows, m.notes, p, m.rows - {p});
        CacheSetIff(env, scope, m.rows - {p}, m.notes - {env.lower(p)}, q, r);
      case SoftDelete(p, r) => CacheDeleteIff(env, scope, m.rows, m.notes, p, m.rows[p := r]);
      case Erase(p) => CacheDeleteIff(env, scope, m.rows, m.notes, p, m.rows - {p});
    }
  }

  // ----- Links and index -----

  lemma LinksSet(env: Env, rows: Rows, out: OutLinks, p: string, r: Row)
    requires LinksInSync(env, rows, out) && !r.deleted
    ensures LinksInSync(env, rows[p := r], Replaced(out, p, env.parseLinks(r.body)))
  {
    var rows', out' := rows[p := r], Replaced(out, p, env.parseLinks(r.body));
    forall q ensures LinksAtInSync(env, rows', out', q) { assert LinksAtInSync(env, rows, out, q); }
  }

  lemma LinksDelete(env: Env, rows: Rows, out: OutLinks, p: string, rows': Rows)
    requires LinksInSync(env, rows, out)
    requires !IsLive(rows', p) && OthersKept(rows, rows', p)
    ensures LinksInSync(env, rows', out - {p})
  {
    var out' := out - {p};
    forall q ensures LinksAtInSync(env, rows', out', q) { assert LinksAtInSync(env, rows, out, q); }
  }

  lemma LinksPatch(env: Env, rows: Rows, out: OutLinks, p: string, r: Row)
    requires LinksInSync(env, rows, out) && IsLive(rows, p) && !r.deleted && r.body == rows[p].body
    ensures LinksInSync(env, rows[p := r], out)
  {
    var rows' := rows[p := r];
    forall q ensures LinksAtInSync(env, rows', out, q) { assert LinksAtInSync(env, rows, out, q); }
  }

  lemma EffectKeepsLinks(env: Env, scope: ScopeID, m: Memory, e: Effect)
    requires LinksInSync(env, m.rows, m.out) && Fits(m.rows, e)
    ensures LinksInSync(env, Under(env, scope, m, e).rows, Under(env, scope, m, e).out)
  {
    match e {
      case Nothing =>
      case Reindex(p, r) => LinksSet(env, m.rows, m.out, p, r);
      case Patch(p, r) => LinksPatch(env, m.rows, m.out, p, r);
      case Rename(p, q, r) =>
        LinksDelete(env, m.rows, m.out, p, m.rows - {p});
        LinksSet(env, m.rows - {p}, m.out - {p}, q, r);
      case SoftDelete(p, r) => LinksDelete(env, m.rows, m.out, p, m.rows[p := r]);
      case Erase(p) => LinksDelete(env, m.rows, m.out, p, m.rows - {p});
    }
  }

  lemma EffectKeepsIndex(env: Env, scope: ScopeID, m: Memory, e: Effect)
    requires IndexTracks(m.rows, m.indexed) && Fits(m.rows, e)
    ensures IndexTracks(Under(env, scope, m, e).rows, Under(env, scope, m, e).indexed)
  {
    var m' := Under(env, scope, m, e);
    forall p
      ensures (IsLive(m'.rows, p) <==> p in m'.indexed) && (p in m'.indexed ==> m'.indexed[p].body == m'.rows[p].body)
    {
      assert IsLive(m.rows, p) <==> p in m.indexed;
    }
  }

  /** Whatever the paths, a mutation leaves links and index exact and no stale summary cached. */
  lemma EffectKeepsSound(env: Env, scope: ScopeID, m: Memory, e: Effect)
    requires Sound(env, scope, m) && Fits(m.rows, e)
    ensures Sound(env, scope, Under(env, scope, m, e))
  {
    EffectKeepsCacheSound(env, scope, m, e);
    EffectKeepsLinks(env, scope, m, e);
    EffectKeepsIndex(env, scope, m, e);
  }

  /** The structures stay in step exactly when no other live path has the written key. */
  lemma EffectInStepIff(env: Env, scope: ScopeID, m: Memory, e: Effect)
    requires InStep(env, scope, m) && Fits(m.rows, e)
    ensures InStep(env, scope, Under(env, scope, m, e)) <==> Safe(env, m.rows, e)
  {
    EffectCacheIff(env, scope, m, e);
    EffectKeepsLinks(env, scope, m, e);
    EffectKeepsIndex(env, scope, m, e);
  }

  /** A hard delete of a soft-deleted row takes the cached summary of a live path that differs
      from it only in case. */
  lemma HardDeleteClearsOther(env: Env, scope: ScopeID, m: Memory, path: string, p: string, q: string)
    requires InStep(env, scope, m) && env.normalize(path) == Some(p) && p in m.rows && m.rows[p].deleted
    requires IsLive(m.rows, q) && env.lower(q) == env.lower(p)
    ensures CachedAt(env, scope, m.rows, m.notes, q)
    ensures var m' := After(env, scope, m, DeleteOp(path, false, "", true));
      IsLive(m'.rows, q) && env.lower(q) !in m'.notes && !InStep(env, scope, m')
  {
    var m' := After(env, scope, m, DeleteOp(path, false, "", true));
    assert EffectOf(env, m.rows, DeleteOp(path, false, "", true)) == Erase(p);
    assert !CachedAt(env, scope, m'.rows, m'.notes, q);
  }

  // ----- The full-text corpus -----

  lemma KeyInjective(scope: ScopeID, p: string, q: string)
    requires KeyOf(NoteRef(scope, p)) == KeyOf(NoteRef(scope, q))
    ensures p == q
  {
    var n := |scope + ":"|;
    assert p == KeyOf(NoteRef(scope, p))[n..] && q == KeyOf(NoteRef(scope, q))[n..];
  }

  predicate HasDoc(env: Env, scope: ScopeID, corpus: map<DocKey, Doc>, p: string, r: Row) {
    && KeyOf(NoteRef(scope, p)) in corpus
    && var doc := corpus[KeyOf(NoteRef(scope, p))];
       doc.ref == NoteRef(scope, p) && doc.title == r.fields.title && doc.body == r.body && doc.updatedAt == r.updatedAt
  }

  /** The corpus holds exactly the documents of these rows. */
  ghost predicate CorpusHolds(env: Env, scope: ScopeID, indexed: Rows, corpus: map<DocKey, Doc>) {
    && (forall p :: p in indexed ==> HasDoc(env, scope, corpus, p, indexed[p]))
    && (forall k :: k in corpus ==> exists p :: p in indexed && KeyOf(NoteRef(scope, p)) == k)
  }

  lemma CorpusAdd(env: Env, scope: ScopeID, indexed: Rows, corpus: map<DocKey, Doc>, p: string, r: Row)
    requires CorpusHolds(env, scope, indexed, corpus)
    ensures CorpusHolds(env, scope, indexed[p := r], ApplyOp(corpus, Add(DocOf(env, scope, p, r))))
  {
    var indexed', corpus' := indexed[p := r], ApplyOp(corpus, Add(DocOf(env, scope, p, r)));
    forall q | q in indexed' ensures HasDoc(env, scope, corpus', q, indexed'[q]) {
      if q != p {
        assert HasDoc(env, scope, corpus, q, indexed[q]);
        if KeyOf(NoteRef(scope, q)) == KeyOf(NoteRef(scope, p)) { KeyInjective(scope, p, q); }
      }
    }
    forall k | k in corpus' ensures exists q :: q in indexed' && KeyOf(NoteRef(scope, q)) == k {
      if k == KeyOf(NoteRef(scope, p)) {
        assert p in indexed';
      } else {
        var q :| q in indexed && KeyOf(NoteRef(scope, q)) == k;
        assert q in indexed';
      }
    }
  }

  lemma CorpusRemove(env: Env, scope: ScopeID, indexed: Rows, corpus: map<DocKey, Doc>, p: string)
    requires CorpusHolds(env, scope, indexed, corpus)
    ensures CorpusHolds(env, scope, indexed - {p}, ApplyOp(corpus, Remove(NoteRef(scope, p))))
  {
    var indexed', corpus' := indexed - {p}, ApplyOp(corpus, Remove(NoteRef(scope, p)));
    forall q | q in indexed' ensures HasDoc(env, scope, corpus', q, indexed'[q]) {
      assert HasDoc(env, scope, corpus, q, indexed[q]);
      if KeyOf(NoteRef(scope, q)) == KeyOf(NoteRef(scope, p)) { KeyInjective(scope, p, q); }
    }
    forall k | k in corpus' ensures exists q :: q in indexed' && KeyOf(NoteRef(scope, q)) == k {
      var q :| q in indexed && KeyOf(NoteRef(scope, q)) == k;
      assert q in indexed';
    }
  }

  ghost predicate SameBodies(a: map<DocKey, Doc>, b: map<DocKey, Doc>) {
    a.Keys == b.Keys && forall k :: k in a ==> a[k].ref == b[k].ref && a[k].body == b[k].body
  }

  /** The indexed title and time of every note are those of its row. */
  ghost predicate TitlesCurrent(rows: Rows, indexed: Rows) {
    forall p :: p in indexed && p in rows ==>
      indexed[p].fields.title == rows[p].fields.title && indexed[p].updatedAt == rows[p].updatedAt
  }

  /** A corpus of the rows as last indexed has the bodies of the corpus of the live rows as they
      stand, and equals it exactly when titles and times are current. */
  lemma CorpusEqualIff(env: Env, scope: ScopeID, rows: Rows, indexed: Rows, live: Rows, a: map<DocKey, Doc>,
                       b: map<DocKey, Doc>)
    requires IndexTracks(rows, indexed) && IndexTracks(rows, live) && TitlesCurrent(rows, live)
    requires CorpusHolds(env, scope, indexed, a) && CorpusHolds(env, scope, live, b)
    ensures SameBodies(a, b)
    ensures a == b <==> TitlesCurrent(rows, indexed)
  {
    CorpusKeys(env, scope, live, indexed, b, a);
    forall k | k in a
      ensures k in b && a[k].ref == b[k].ref && a[k].body == b[k].body
      ensures (TitlesCurrent(rows, indexed) ==> a[k] == b[k])
    {
      SameDoc(env, scope, rows, indexed, live, a, b, k);
    }
    if a == b { SameDocsCurrent(env, scope, rows, indexed, live, a); }
  }

  lemma SameDoc(env: Env, scope: ScopeID, rows: Rows, indexed: Rows, live: Rows, a: map<DocKey, Doc>,
                b: map<DocKey, Doc>, k: DocKey)
    requires IndexTracks(rows, indexed) && IndexTracks(rows, live) && TitlesCurrent(rows, live)
    requires CorpusHolds(env, scope, indexed, a) && CorpusHolds(env, scope, live, b) && k in a
    ensures k in b && a[k].ref == b[k].ref && a[k].body == b[k].body && (TitlesCurrent(rows, indexed) ==> a[k] == b[k])
  {
    var p :| p in indexed && KeyOf(NoteRef(scope, p)) == k;
    assert HasDoc(env, scope, a, p, indexed[p]) && HasDoc(env, scope, b, p, live[p]);
  }

  lemma SameDocsCurrent(env: Env, scope: ScopeID, rows: Rows, indexed: Rows, live: Rows, corpus: map<DocKey, Doc>)
    requires IndexTracks(rows, indexed) && IndexTracks(rows, live) && TitlesCurrent(rows, live)
    requires CorpusHolds(env, scope, indexed, corpus) && CorpusHolds(env, scope, live, corpus)
    ensures TitlesCurrent(rows, indexed)
  {
    forall p | p in indexed && p in rows
      ensures indexed[p].fields.title == rows[p].fields.title && indexed[p].updatedAt == rows[p].updatedAt
    {
      assert HasDoc(env, scope, corpus, p, indexed[p]) && HasDoc(env, scope, corpus, p, live[p]);
    }
  }

  lemma CorpusKeys(env: Env, scope: ScopeID, indexed: Rows, live: Rows, a: map<DocKey, Doc>, b: map<DocKey, Doc>)
    requires forall p :: p in indexed ==> p in live
    requires CorpusHolds(env, scope, indexed, a) && CorpusHolds(env, scope, live, b)
    ensures forall k :: k in a ==> k in b
  {
    forall k | k in a ensures k in b {
      var p :| p in indexed && KeyOf(NoteRef(scope, p)) == k;
      assert HasDoc(env, scope, b, p, live[p]);
    }
  }

  /** A patch leaves a current index current exactly when title and time come out the same. */
  lemma PatchCurrentIff(rows: Rows, indexed: Rows, p: string, r: Row)
    requires TitlesCurrent(rows, indexed) && p in rows && p in indexed
    ensures TitlesCurrent(rows[p := r], indexed)
      <==> r.fields.title == rows[p].fields.title && r.updatedAt == rows[p].updatedAt
  {
    assert p in rows[p := r];
  }

  // ----- Paths that differ only in case -----

  ghost predicate OwnKey(env: Env, paths: set<string>, p: string) {
    forall q :: q in paths && env.lower(q) == env.lower(p) ==> q == p
  }

  /** No two of these paths differ only in case. */
  ghost predicate CaseFree(env: Env, paths: set<string>) {
    forall p :: p in paths ==> OwnKey(env, paths, p)
  }

  /** The paths an operation names. */
  ghost predicate Within(env: Env, op: Op, paths: set<string>) {
    && (env.normalize(op.path).Some? ==> env.normalize(op.path).value in paths)
    && (op.MoveOp? && env.normalize(op.newPath).Some? ==> env.normalize(op.newPath).value in paths)
  }

  predicate EffectWithin(e: Effect, paths: set<string>) {
    match e
    case Nothing => true
    case Rename(p, q, _) => p in paths && q in paths
    case _ => e.p in paths
  }

  /** p's summary is cached if its row is live. */
  predicate Cached(env: Env, scope: ScopeID, m: Memory, p: string) {
    IsLive(m.rows, p) ==> CachedAt(env, scope, m.rows, m.notes, p)
  }

  lemma EffectStaysWithin(env: Env, m: Memory, op: Op, paths: set<string>)
    requires m.rows.Keys <= paths && Within(env, op, paths)
    ensures EffectWithin(EffectOf(env, m.rows, op), paths)
  {
  }

  lemma RowsStayWithin(env: Env, scope: ScopeID, m: Memory, e: Effect, paths: set<string>)
    requires m.rows.Keys <= paths && EffectWithin(e, paths)
    ensures Under(env, scope, m, e).rows.Keys <= paths
  {
  }

  /** A path that shares its key with no other keeps its cached summary current. */
  lemma EffectKeepsCached(env: Env, scope: ScopeID, m: Memory, e: Effect, paths: set<string>, p: string)
    requires EffectWithin(e, paths) && Fits(m.rows, e) && OwnKey(env, paths, p) && Cached(env, scope, m, p)
    ensures Cached(env, scope, Under(env, scope, m, e), p)
  {
  }

  lemma CaseFreeInStep(env: Env, scope: ScopeID, m: Memory)
    requires Sound(env, scope, m) && forall p :: IsLive(m.rows, p) ==> Cached(env, scope, m, p)
    ensures InStep(env, scope, m)
  {
  }

  lemma InStepCached(env: Env, scope: ScopeID, m: Memory)
    requires InStep(env, scope, m)
    ensures Sound(env, scope, m) && forall p :: Cached(env, scope, m, p)
  {
    InStepIsSound(env, scope, m.rows, m.notes);
  }

  // ----- Loading -----

  function LoadedLinks(env: Env, rows: Rows, done: set<string>, p: string): seq<OutLink> {
    if p in done && p in rows then env.parseLinks(rows[p].body) else []
  }

  /** The structures after the rows of these paths have been read. */
  ghost predicate Loaded(env: Env, scope: ScopeID, rows: Rows, done: set<string>, m: Memory) {
    && m.rows == rows && (forall p :: p in m.indexed <==> p in done)
    && (forall p :: p in done ==> IsLive(rows, p) && m.indexed[p] == rows[p] && env.lower(p) in m.notes)
    && (forall p :: LinksAt(m.out, p) == LoadedLinks(env, rows, done, p))
    && CacheSound(env, scope, rows, m.notes)
  }

  lemma LoadedLinksStep(env: Env, rows: Rows, done: set<string>, out: OutLinks, p: string)
    requires p in rows && forall q :: LinksAt(out, q) == LoadedLinks(env, rows, done, q)
    ensures forall q ::
              LinksAt(Replaced(out, p, env.parseLinks(rows[p].body)), q) == LoadedLinks(env, rows, done + {p}, q)
  {
    var out' := Replaced(out, p, env.parseLinks(rows[p].body));
    forall q ensures LinksAt(out', q) == LoadedLinks(env, rows, done + {p}, q) {
      assert LinksAt(out, q) == LoadedLinks(env, rows, done, q);
    }
  }

  lemma LoadedStep(env: Env, scope: ScopeID, rows: Rows, done: set<string>, p: string, m: Memory)
    requires Loaded(env, scope, rows, done, m) && IsLive(rows, p)
    ensures Loaded(env, scope, rows, done + {p}, Under(env, scope, m, Reindex(p, rows[p])))
  {
    assert rows[p := rows[p]] == rows;
    SoundSet(env, scope, rows, m.notes, p, rows[p]);
    LoadedLinksStep(env, rows, done, m.out, p);
  }

  /** The structures after reading the rows of the first i paths, in that order. */
  function LoadedFirst(env: Env, scope: ScopeID, rows: Rows, paths: seq<string>, i: nat): Memory
    requires i <= |paths| && forall j :: 0 <= j < |paths| ==> paths[j] in rows
  {
    if i == 0 then Memory(rows, map[], map[], map[])
    else
      var m, p := LoadedFirst(env, scope, rows, paths, i - 1), paths[i - 1];
      Memory(rows, m.notes[env.lower(p) := SummaryOf(env, scope, p, rows[p])],
             Replaced(m.out, p, env.parseLinks(rows[p].body)), m.indexed[p := rows[p]])
  }

  lemma {:induction false} LoadedFirstIsLoaded(env: Env, scope: ScopeID, rows: Rows, paths: seq<string>, i: nat)
    requires i <= |paths| && forall j :: 0 <= j < |paths| ==> paths[j] in rows && IsLive(rows, paths[j])
    ensures Loaded(env, scope, rows, ToSet(paths[..i]), LoadedFirst(env, scope, rows, paths, i))
  {
    if i > 0 {
      LoadedFirstIsLoaded(env, scope, rows, paths, i - 1);
      LoadedNext(env, scope, rows, paths, i);
    }
  }

  lemma LoadedNext(env: Env, scope: ScopeID, rows: Rows, paths: seq<string>, i: nat)
    requires 0 < i <= |paths| && (forall j :: 0 <= j < |paths| ==> paths[j] in rows) && IsLive(rows, paths[i - 1])
    requires Loaded(env, scope, rows, ToSet(paths[..i - 1]), LoadedFirst(env, scope, rows, paths, i - 1))
    ensures Loaded(env, scope, rows, ToSet(paths[..i]), LoadedFirst(env, scope, rows, paths, i))
  {
    LoadedFirstStep(env, scope, rows, paths, i);
    PrefixSet(paths, i);
    LoadedStep(env, scope, rows, ToSet(paths[..i - 1]), paths[i - 1], LoadedFirst(env, scope, rows, paths, i - 1));
  }

  lemma LoadedFirstStep(env: Env, scope: ScopeID, rows: Rows, paths: seq<string>, i: nat)
    requires 0 < i <= |paths| && forall j :: 0 <= j < |paths| ==> paths[j] in rows
    ensures LoadedFirst(env, scope, rows, paths, i)
         == Under(env, scope, LoadedFirst(env, scope, rows, paths, i - 1), Reindex(paths[i - 1], rows[paths[i - 1]]))
  {
    LoadedFirstRows(env, scope, rows, paths, i - 1);
    assert rows[paths[i - 1] := rows[paths[i - 1]]] == rows;
  }

  lemma LoadedFirstRows(env: Env, scope: ScopeID, rows: Rows, paths: seq<string>, i: nat)
    requires i <= |paths| && forall j :: 0 <= j < |paths| ==> paths[j] in rows
    ensures LoadedFirst(env, scope, rows, paths, i).rows == rows
  {
  }

  lemma PrefixSet(paths: seq<string>, i: nat)
    requires 0 < i <= |paths|
    ensures ToSet(paths[..i]) == ToSet(paths[..i - 1]) + {paths[i - 1]}
  {
    assert paths[..i] == paths[..i - 1] + [paths[i - 1]];
  }

  /** A sound cache with an entry for every live row's key is exact when no two share a key. */
  lemma DistinctKeysExact(env: Env, scope: ScopeID, rows: Rows, notes: map<string, NoteSummary>, p: string)
    requires CacheSound(env, scope, rows, notes) && IsLive(rows, p) && env.lower(p) in notes && NoClash(env, rows, p)
    ensures CachedAt(env, scope, rows, notes, p)
  {
    var q :| IsLive(rows, q) && env.lower(q) == env.lower(p) && CachedAt(env, scope, rows, notes, q);
    assert q == p;
  }

  lemma LoadedAll(env: Env, scope: ScopeID, rows: Rows, live: set<string>, m: Memory)
    requires Loaded(env, scope, rows, live, m) && forall p :: IsLive(rows, p) <==> p in live
    ensures Sound(env, scope, m)
    ensures TitlesCurrent(m.rows, m.indexed)
    ensures forall p :: IsLive(rows, p) ==> env.lower(p) in m.notes
  {
    forall p ensures LinksAtInSync(env, rows, m.out, p) { assert IsLive(rows, p) <==> p in live; }
  }

  lemma InStepIffDistinct(env: Env, scope: ScopeID, m: Memory)
    requires Sound(env, scope, m) && forall p :: IsLive(m.rows, p) ==> env.lower(p) in m.notes
    ensures InStep(env, scope, m) <==> forall p :: IsLive(m.rows, p) ==> NoClash(env, m.rows, p)
  {
    if forall p :: IsLive(m.rows, p) ==> NoClash(env, m.rows, p) {
      forall p | IsLive(m.rows, p) ensures CachedAt(env, scope, m.rows, m.notes, p) {
        DistinctKeysExact(env, scope, m.rows, m.notes, p);
      }
    }
    if InStep(env, scope, m) {
      forall p | IsLive(m.rows, p) ensures NoClash(env, m.rows, p) { LiveHasNoClash(env, scope, m.rows, m.notes, p); }
    }
  }

  // ----- The vault -----

  class PostgresVault {
    const env: Env
    const scope: ScopeID
    var rows: Rows
    const cache: NoteCache
    const graph: BacklinkGraph
    /** The writes sent to the full-text index so far. */
    var idxOps: seq<WriteOp>
    ghost var indexed: Rows

    constructor (env: Env, scope: ScopeID, rows: Rows)
      ensures this.env == env && this.scope == scope && fresh(cache) && fresh(graph)
      ensures Valid() && Mem() == Memory(rows, map[], map[], map[])
    {
      this.env, this.scope, this.rows, this.idxOps, this.indexed := env, scope, rows, [], map[];
      this.cache := new NoteCache();
      this.graph := new BacklinkGraph();
    }

    ghost function Corpus(): map<DocKey, Doc>
      reads this`idxOps
    {
      Replay(idxOps)
    }

    ghost function Mem(): Memory
      reads this`rows, this`indexed, cache, graph
    {
      Memory(rows, cache.notes, graph.outLinks, indexed)
    }

    ghost predicate Valid()
      reads this`idxOps, this`indexed, graph
    {
      graph.Exact() && CorpusHolds(env, scope, indexed, Corpus())
    }

    method SendAdd(p: string, r: Row)
      requires Valid()
      modifies this`idxOps, this`indexed
      ensures Valid() && indexed == old(indexed)[p := r]
    {
      CorpusAdd(env, scope, indexed, Corpus(), p, r);
      assert (idxOps + [Add(DocOf(env, scope, p, r))])[..|idxOps|] == idxOps;
      idxOps := idxOps + [Add(DocOf(env, scope, p, r))];
      indexed := indexed[p := r];
    }

    method SendRemove(p: string)
      requires Valid()
      modifies this`idxOps, this`indexed
      ensures Valid() && indexed == old(indexed) - {p}
    {
      CorpusRemove(env, scope, indexed, Corpus(), p);
      assert (idxOps + [Remove(NoteRef(scope, p))])[..|idxOps|] == idxOps;
      idxOps := idxOps + [Remove(NoteRef(scope, p))];
      indexed := indexed - {p};
    }

    /** The memory effects shared by Create, UpdateBody and Replace: cache, links, index. */
    method Publish(p: string, r: Row) returns (res: MutationResult)
      requires Valid()
      modifies this`idxOps, this`indexed, cache, graph
      ensures Valid() && res == MutationResult(SummaryOf(env, scope, p, r), r.etag)
      ensures cache.notes == old(cache.notes)[env.lower(p) := SummaryOf(env, scope, p, r)]
      ensures graph.outLinks == Replaced(old(graph.outLinks), p, env.parseLinks(r.body))
      ensures indexed == old(indexed)[p := r]
    {
      res := MutationResult(SummaryOf(env, scope, p, r), r.etag);
      cache.Set(env.lower(p), res.summary);
      graph.Upsert(p, env.parseLinks(r.body));
      SendAdd(p, r);
    }

    /** Fills the structures from the live rows, which the database returns in any order. Links
        and index come out exact, and the cache does exactly when no two live paths share a key. */
    method LoadAll()
      requires Valid() && Mem() == Memory(rows, map[], map[], map[])
      modifies this`idxOps, this`indexed, cache, graph
      ensures Valid() && Sound(env, scope, Mem())
      ensures TitlesCurrent(rows, indexed)
      ensures forall p :: IsLive(rows, p) ==> env.lower(p) in cache.notes
      ensures InStep(env, scope, Mem()) <==> forall p :: IsLive(rows, p) ==> NoClash(env, rows, p)
    {
      var live := Range(set p | p in rows && !rows[p].deleted);
      forall j | 0 <= j < |live| ensures IsLive(rows, live[j]) { assert live[j] in live; }
      LoadRows(live);
      LoadedFirstIsLoaded(env, scope, rows, live, |live|);
      assert live[..|live|] == live;
      LoadedAll(env, scope, rows, ToSet(live), Mem());
      InStepIffDistinct(env, scope, Mem());
    }

    method LoadRows(live: seq<string>)
      requires Valid() && Mem() == Memory(rows, map[], map[], map[]) && forall j :: 0 <= j < |live| ==> live[j] in rows
      modifies this`idxOps, this`indexed, cache, graph
      ensures Valid() && Mem() == LoadedFirst(env, scope, rows, live, |live|)
    {
      for i := 0 to |live|
        invariant Valid() && Mem() == LoadedFirst(env, scope, rows, live, i)
      {
        var _ := Publish(live[i], rows[live[i]]);
      }
    }

    method Create(path: string, front: FrontMatter, body: string, now: int, txOk: bool)
      returns (res: Result<MutationResult, VaultError>)
      requires Valid()
      modifies this`rows, this`idxOps, this`indexed, cache, graph
      ensures Valid() && Mem() == After(env, scope, old(Mem()), CreateOp(path, front, body, now, txOk))
      ensures match env.normalize(path)
        case None => res == Err(InvalidPath)
        case Some(p) =>
          if !txOk then res == Err(TxFailed)
          else if IsLive(old(rows), p) then res == Err(Conflict)
          else
            var r := Row(front.fields, body, env.etag(front, now, now, body), now, now, false);
            && res == Ok(MutationResult(SummaryOf(env, scope, p, r), r.etag))
            && Shows(env, scope, p, front.fields, now, res.value.summary)
            && rows == old(rows)[p := r] && cache.notes == old(cache.notes)[env.lower(p) := res.value.summary]
            && (InStep(env, scope, old(Mem())) ==> (InStep(env, scope, Mem()) <==> NoClash(env, old(rows), p)))
      ensures res.Err? ==> Mem() == old(Mem())
    {
      Prepare(CreateOp(path, front, body, now, txOk));
      var np := env.normalize(path);
      if np.None? { return Err(InvalidPath); }
      var p := np.value;
      if !txOk { return Err(TxFailed); }
      if p in rows && !rows[p].deleted { return Err(Conflict); }
      var r := Row(front.fields, body, env.etag(front, now, now, body), now, now, false);
      rows := rows[p := r];
      var m := Publish(p, r);
      res := Ok(m);
    }

    /** What the operation will do to structures that are in step, before it does so. */
    lemma Prepare(op: Op)
      ensures Fits(rows, EffectOf(env, rows, op))
      ensures InStep(env, scope, Mem()) ==>
                (InStep(env, scope, After(env, scope, Mem(), op)) <==> Safe(env, rows, EffectOf(env, rows, op)))
      ensures InStep(env, scope, Mem()) ==> forall p :: IsLive(rows, p) ==> NoClash(env, rows, p)
    {
      EffectFits(env, rows, op);
      if InStep(env, scope, Mem()) {
        EffectInStepIff(env, scope, Mem(), EffectOf(env, rows, op));
        forall p | IsLive(rows, p) ensures NoClash(env, rows, p) { LiveHasNoClash(env, scope, rows, cache.notes, p); }
      }
    }

    method UpdateBody(path: string, body: string, ifMatch: string, now: int, txOk: bool)
      returns (res: Result<MutationResult, VaultError>)
      requires Valid()
      modifies this`rows, this`idxOps, this`indexed, cache, graph
      ensures Valid() && Mem() == After(env, scope, old(Mem()), UpdateOp(path, body, ifMatch, now, txOk))
      ensures InStep(env, scope, old(Mem())) ==> InStep(env, scope, Mem())
      ensures match env.normalize(path)
        case None => res == Err(InvalidPath)
        case Some(p) =>
          if !txOk then res == Err(TxFailed)
          else if !IsLive(old(rows), p) then res == Err(NotFound)
          else if StaleMatch(old(rows)[p], ifMatch) then res == Err(Conflict)
          else
            var o := old(rows)[p];
            var r := o.(body := body, updatedAt := now, etag := env.etag(Stored(o), o.createdAt, now, body));
            && res == Ok(MutationResult(SummaryOf(env, scope, p, r), r.etag)) && rows == old(rows)[p := r]
            && Shows(env, scope, p, o.fields, now, res.value.summary)
            && cache.notes == old(cache.notes)[env.lower(p) := res.value.summary]
            && (Cached(env, scope, old(Mem()), p) ==>
                  res.value.summary == old(cache.notes)[env.lower(p)].(updatedAt := now))
      ensures res.Err? ==> Mem() == old(Mem())
    {
      Prepare(UpdateOp(path, body, ifMatch, now, txOk));
      var np := env.normalize(path);
      if np.None? { return Err(InvalidPath); }
      var p := np.value;
      if !txOk { return Err(TxFailed); }
      if p !in rows || rows[p].deleted { return Err(NotFound); }
      var o := rows[p];
      if ifMatch != "" && o.etag != ifMatch { return Err(Conflict); }
      var r := o.(body := body, updatedAt := now, etag := env.etag(Stored(o), o.createdAt, now, body));
      rows := rows[p := r];
      var m := Publish(p, r);
      res := Ok(m);
    }

    /** A front-matter patch leaves the index alone: its document keeps the title and the time of
        the row as last indexed. */
    method PatchFrontMatter(path: string, patch: Fields -> FrontMatter, ifMatch: string, now: int, txOk: bool)
      returns (res: Result<MutationResult, VaultError>)
      requires Valid()
      modifies this`rows, cache, graph
      ensures Valid() && Mem() == After(env, scope, old(Mem()), PatchOp(path, patch, ifMatch, now, txOk))
      ensures InStep(env, scope, old(Mem())) ==> InStep(env, scope, Mem())
      ensures match env.normalize(path)
        case None => res == Err(InvalidPath)
        case Some(p) =>
          if !txOk then res == Err(TxFailed)
          else if !IsLive(old(rows), p) then res == Err(NotFound)
          else if StaleMatch(old(rows)[p], ifMatch) then res == Err(Conflict)
          else
            var o := old(rows)[p];
            var f := patch(o.fields);
            var r := o.(fields := f.fields, updatedAt := now, etag := env.etag(f, o.createdAt, now, o.body));
            && res == Ok(MutationResult(SummaryOf(env, scope, p, r), r.etag)) && rows == old(rows)[p := r]
            && Shows(env, scope, p, f.fields, now, res.value.summary)
            && cache.notes == old(cache.notes)[env.lower(p) := res.value.summary]
            && (TitlesCurrent(old(rows), indexed) && p in indexed ==>
                  (TitlesCurrent(rows, indexed) <==> f.fields.title == o.fields.title && now == o.updatedAt))
      ensures res.Err? ==> Mem() == old(Mem())
    {
      Prepare(PatchOp(path, patch, ifMatch, now, txOk));
      var np := env.normalize(path);
      if np.None? { return Err(InvalidPath); }
      var p := np.value;
      if !txOk { return Err(TxFailed); }
      if p !in rows || rows[p].deleted { return Err(NotFound); }
      var o := rows[p];
      if ifMatch != "" && o.etag != ifMatch { return Err(Conflict); }
      var f := patch(o.fields);
      var r := o.(fields := f.fields, updatedAt := now, etag := env.etag(f, o.createdAt, now, o.body));
      if TitlesCurrent(rows, indexed) && p in indexed { PatchCurrentIff(rows, indexed, p, r); }
      rows := rows[p := r];
      Refresh(p, r);
      res := Ok(MutationResult(SummaryOf(env, scope, p, r), r.etag));
    }

    /** The memory effects of a patch: the summary, and the note's links as they were. */
    method Refresh(p: string, r: Row)
      requires Valid()
      modifies cache, graph
      ensures Valid() && cache.notes == old(cache.notes)[env.lower(p) := SummaryOf(env, scope, p, r)]
      ensures graph.outLinks == old(graph.outLinks)
    {
      KeptLinks(graph.outLinks, p);
      cache.Set(env.lower(p), SummaryOf(env, scope, p, r));
      graph.Upsert(p, LinksAt(graph.outLinks, p));
    }

    method Replace(path: string, patch: Fields -> FrontMatter, body: string, ifMatch: string, now: int, txOk: bool)
      returns (res: Result<MutationResult, VaultError>)
      requires Valid()
      modifies this`rows, this`idxOps, this`indexed, cache, graph
      ensures Valid() && Mem() == After(env, scope, old(Mem()), ReplaceOp(path, patch, body, ifMatch, now, txOk))
      ensures InStep(env, scope, old(Mem())) ==> InStep(env, scope, Mem())
      ensures match env.normalize(path)
        case None => res == Err(InvalidPath)
        case Some(p) =>
          if !txOk then res == Err(TxFailed)
          else if !IsLive(old(rows), p) then res == Err(NotFound)
          else if StaleMatch(old(rows)[p], ifMatch) then res == Err(Conflict)
          else
            var o := old(rows)[p];
            var f := patch(o.fields);
            var etag := env.etag(f, o.createdAt, now, body);
            var r := o.(fields := f.fields, body := body, updatedAt := now, etag := etag);
            && res == Ok(MutationResult(SummaryOf(env, scope, p, r), r.etag)) && rows == old(rows)[p := r]
            && Shows(env, scope, p, f.fields, now, res.value.summary)
            && cache.notes == old(cache.notes)[env.lower(p) := res.value.summary]
      ensures res.Err? ==> Mem() == old(Mem())
    {
      Prepare(ReplaceOp(path, patch, body, ifMatch, now, txOk));
      var np := env.normalize(path);
      if np.None? { return Err(InvalidPath); }
      var p := np.value;
      if !txOk { return Err(TxFailed); }
      if p !in rows || rows[p].deleted { return Err(NotFound); }
      var o := rows[p];
      if ifMatch != "" && o.etag != ifMatch { return Err(Conflict); }
      var f := patch(o.fields);
      var r := o.(fields := f.fields, body := body, updatedAt := now, etag := env.etag(f, o.createdAt, now, body));
      rows := rows[p := r];
      var m := Publish(p, r);
      res := Ok(m);
    }

    /** A row cannot move onto another row, live or soft-deleted: the table rejects it. */
    method Move(path: string, newPath: string, ifMatch: string, txOk: bool)
      returns (res: Result<MutationResult, VaultError>)
      requires Valid()
      modifies this`rows, this`idxOps, this`indexed, cache, graph
      ensures Valid() && Mem() == After(env, scope, old(Mem()), MoveOp(path, newPath, ifMatch, txOk))
      ensures match (env.normalize(path), env.normalize(newPath))
        case (Some(p), Some(q)) =>
          if !txOk then res == Err(TxFailed)
          else if !IsLive(old(rows), p) then res == Err(NotFound)
          else if StaleMatch(old(rows)[p], ifMatch) then res == Err(Conflict)
          else if q != p && q in old(rows) then res == Err(TxFailed)
          else
            var r := old(rows)[p];
            && res == Ok(MutationResult(SummaryOf(env, scope, q, r), r.etag))
            && Shows(env, scope, q, r.fields, r.updatedAt, res.value.summary)
            && (Cached(env, scope, old(Mem()), p) ==>
                  res.value.summary
                    == old(cache.notes)[env.lower(p)].(ref := NoteRef(scope, q), category := env.category(q)))
            && rows == (old(rows) - {p})[q := r]
            && cache.notes == (old(cache.notes) - {env.lower(p)})[env.lower(q) := res.value.summary]
            && (InStep(env, scope, old(Mem())) ==> (InStep(env, scope, Mem()) <==> NoClash(env, old(rows) - {p}, q)))
        case _ => res == Err(InvalidPath)
      ensures res.Err? ==> Mem() == old(Mem())
    {
      Prepare(MoveOp(path, newPath, ifMatch, txOk));
      var np, nnp := env.normalize(path), env.normalize(newPath);
      if np.None? || nnp.None? { return Err(InvalidPath); }
      var p, q := np.value, nnp.value;
      if !txOk { return Err(TxFailed); }
      if p !in rows || rows[p].deleted { return Err(NotFound); }
      var r := rows[p];
      if ifMatch != "" && r.etag != ifMatch { return Err(Conflict); }
      if q != p && q in rows { return Err(TxFailed); }
      rows := rows - {p};
      rows := rows[q := r];
      Republish(p, q, r);
      res := Ok(MutationResult(SummaryOf(env, scope, q, r), r.etag));
    }

    /** The memory effects of a move. */
    method Republish(p: string, q: string, r: Row)
      requires Valid()
      modifies this`idxOps, this`indexed, cache, graph
      ensures Valid() && cache.notes == (old(cache.notes) - {env.lower(p)})[env.lower(q) := SummaryOf(env, scope, q, r)]
      ensures graph.outLinks == Replaced(old(graph.outLinks) - {p}, q, env.parseLinks(r.body))
      ensures indexed == (old(indexed) - {p})[q := r]
    {
      cache.Move(env.lower(p), env.lower(q), SummaryOf(env, scope, q, r));
      graph.Remove(p);
      graph.Upsert(q, env.parseLinks(r.body));
      SendRemove(p);
      SendAdd(q, r);
    }

    /** The memory effects of a delete. */
    method Forget(p: string)
      requires Valid()
      modifies this`idxOps, this`indexed, cache, graph
      ensures Valid() && cache.notes == old(cache.notes) - {env.lower(p)}
      ensures graph.outLinks == old(graph.outLinks) - {p} && indexed == old(indexed) - {p}
    {
      cache.Delete(env.lower(p));
      graph.Remove(p);
      SendRemove(p);
    }

    /** A hard delete also removes a soft-deleted row, and then still clears the cache key. */
    method Delete(path: string, soft: bool, ifMatch: string, txOk: bool)
      returns (res: Result<(), VaultError>)
      requires Valid()
      modifies this`rows, this`idxOps, this`indexed, cache, graph
      ensures Valid() && Mem() == After(env, scope, old(Mem()), DeleteOp(path, soft, ifMatch, txOk))
      ensures match env.normalize(path)
        case None => res == Err(InvalidPath)
        case Some(p) =>
          if !txOk then res == Err(TxFailed)
          else if ifMatch != "" && !IsLive(old(rows), p) then res == Err(NotFound)
          else if ifMatch != "" && old(rows)[p].etag != ifMatch then res == Err(Conflict)
          else if (if soft then !IsLive(old(rows), p) else p !in old(rows)) then res == Err(NotFound)
          else
            && res == Ok(())
            && rows == (if soft then old(rows)[p := old(rows)[p].(deleted := true)] else old(rows) - {p})
            && cache.notes == old(cache.notes) - {env.lower(p)}
            && (InStep(env, scope, old(Mem())) ==> (InStep(env, scope, Mem()) <==> NoClash(env, old(rows), p)))
      ensures res.Err? ==> Mem() == old(Mem())
    {
      Prepare(DeleteOp(path, soft, ifMatch, txOk));
      var np := env.normalize(path);
      if np.None? { return Err(InvalidPath); }
      var p := np.value;
      if !txOk { return Err(TxFailed); }
      if ifMatch != "" {
        if p !in rows || rows[p].deleted { return Err(NotFound); }
        if rows[p].etag != ifMatch { return Err(Conflict); }
      }
      if soft {
        if p !in rows || rows[p].deleted { return Err(NotFound); }
        rows := rows[p := rows[p].(deleted := true)];
      } else {
        if p !in rows { return Err(NotFound); }
        rows := rows - {p};
      }
      Forget(p);
      res := Ok(());
    }

    method Exec(op: Op)
      requires Valid()
      modifies this`rows, this`idxOps, this`indexed, cache, graph
      ensures Valid() && Mem() == After(env, scope, old(Mem()), op)
    {
      match op {
        case CreateOp(path, front, body, now, txOk) => { var _ := Create(path, front, body, now, txOk); }
        case UpdateOp(path, body, ifMatch, now, txOk) => { var _ := UpdateBody(path, body, ifMatch, now, txOk); }
        case PatchOp(path, patch, ifMatch, now, txOk) => { var _ := PatchFrontMatter(path, patch, ifMatch, now, txOk); }
        case ReplaceOp(path, patch, body, ifMatch, now, txOk) => {
          var _ := Replace(path, patch, body, ifMatch, now, txOk);
        }
        case MoveOp(path, newPath, ifMatch, txOk) => { var _ := Move(path, newPath, ifMatch, txOk); }
        case DeleteOp(path, soft, ifMatch, txOk) => { var _ := Delete(path, soft, ifMatch, txOk); }
      }
    }

    /** Any sequential run of mutations, failed ones included, over any paths. */
    method Run(ops: seq<Op>)
      requires Valid() && Sound(env, scope, Mem())
      modifies this`rows, this`idxOps, this`indexed, cache, graph
      ensures Valid() && Sound(env, scope, Mem()) && Mem() == AfterAll(env, scope, old(Mem()), ops)
      ensures forall paths, p :: RunWithin(env, old(rows), ops, paths) && OwnKey(env, paths, p) ==>
                (Cached(env, scope, old(Mem()), p) ==> Cached(env, scope, Mem(), p))
      ensures forall paths :: RunWithin(env, old(rows), ops, paths) && CaseFree(env, paths) ==>
                (InStep(env, scope, old(Mem())) ==> InStep(env, scope, Mem()))
    {
      for i := 0 to |ops|
        invariant Valid() && Mem() == AfterAll(env, scope, old(Mem()), ops[..i])
      {
        assert ops[..i + 1][..i] == ops[..i];
        Exec(ops[i]);
      }
      assert ops[..|ops|] == ops;
      RunFacts(env, scope, old(Mem()), ops);
    }
  }

  // ----- Whole runs -----

  /** The table and the operations name only these paths. */
  ghost predicate RunWithin(env: Env, rows: Rows, ops: seq<Op>, paths: set<string>) {
    rows.Keys <= paths && forall i :: 0 <= i < |ops| ==> Within(env, ops[i], paths)
  }

  lemma {:induction false} RunKeepsSound(env: Env, scope: ScopeID, m: Memory, ops: seq<Op>)
    requires Sound(env, scope, m)
    ensures Sound(env, scope, AfterAll(env, scope, m, ops))
    decreases |ops|
  {
    if ops != [] {
      var before := AfterAll(env, scope, m, ops[..|ops| - 1]);
      RunKeepsSound(env, scope, m, ops[..|ops| - 1]);
      EffectFits(env, before.rows, ops[|ops| - 1]);
      EffectKeepsSound(env, scope, before, EffectOf(env, before.rows, ops[|ops| - 1]));
    }
  }

  /** Whatever else differs only in case, a path of its own key keeps its summary cached. */
  lemma {:induction false} RunKeepsCached(env: Env, scope: ScopeID, m: Memory, ops: seq<Op>, paths: set<string>,
                                          p: string)
    requires RunWithin(env, m.rows, ops, paths) && OwnKey(env, paths, p) && Cached(env, scope, m, p)
    ensures Cached(env, scope, AfterAll(env, scope, m, ops), p) && AfterAll(env, scope, m, ops).rows.Keys <= paths
    decreases |ops|
  {
    if ops != [] {
      var before := AfterAll(env, scope, m, ops[..|ops| - 1]);
      RunKeepsCached(env, scope, m, ops[..|ops| - 1], paths, p);
      var e := EffectOf(env, before.rows, ops[|ops| - 1]);
      EffectStaysWithin(env, before, ops[|ops| - 1], paths);
      EffectFits(env, before.rows, ops[|ops| - 1]);
      RowsStayWithin(env, scope, before, e, paths);
      EffectKeepsCached(env, scope, before, e, paths, p);
    }
  }

  lemma {:induction false} RunRowsWithin(env: Env, scope: ScopeID, m: Memory, ops: seq<Op>, paths: set<string>)
    requires RunWithin(env, m.rows, ops, paths)
    ensures AfterAll(env, scope, m, ops).rows.Keys <= paths
    decreases |ops|
  {
    if ops != [] {
      var before := AfterAll(env, scope, m, ops[..|ops| - 1]);
      RunRowsWithin(env, scope, m, ops[..|ops| - 1], paths);
      EffectStaysWithin(env, before, ops[|ops| - 1], paths);
      RowsStayWithin(env, scope, before, EffectOf(env, before.rows, ops[|ops| - 1]), paths);
    }
  }

  lemma RunKeepsInStep(env: Env, scope: ScopeID, m: Memory, ops: seq<Op>, paths: set<string>)
    requires RunWithin(env, m.rows, ops, paths) && CaseFree(env, paths) && InStep(env, scope, m)
    ensures InStep(env, scope, AfterAll(env, scope, m, ops))
  {
    var m' := AfterAll(env, scope, m, ops);
    InStepCached(env, scope, m);
    RunKeepsSound(env, scope, m, ops);
    RunRowsWithin(env, scope, m, ops, paths);
    forall p | IsLive(m'.rows, p) ensures Cached(env, scope, m', p) {
      assert OwnKey(env, paths, p);
      RunKeepsCached(env, scope, m, ops, paths, p);
    }
    CaseFreeInStep(env, scope, m');
  }

  lemma RunFacts(env: Env, scope: ScopeID, m: Memory, ops: seq<Op>)
    requires Sound(env, scope, m)
    ensures Sound(env, scope, AfterAll(env, scope, m, ops))
    ensures forall paths, p :: RunWithin(env, m.rows, ops, paths) && OwnKey(env, paths, p) ==>
              (Cached(env, scope, m, p) ==> Cached(env, scope, AfterAll(env, scope, m, ops), p))
    ensures forall paths :: RunWithin(env, m.rows, ops, paths) && CaseFree(env, paths) ==>
              (InStep(env, scope, m) ==> InStep(env, scope, AfterAll(env, scope, m, ops)))
  {
    RunKeepsSound(env, scope, m, ops);
    forall paths, p | RunWithin(env, m.rows, ops, paths) && OwnKey(env, paths, p) && Cached(env, scope, m, p)
      ensures Cached(env, scope, AfterAll(env, scope, m, ops), p)
    {
      RunKeepsCached(env, scope, m, ops, paths, p);
    }
    forall paths | RunWithin(env, m.rows, ops, paths) && CaseFree(env, paths) && InStep(env, scope, m)
      ensures InStep(env, scope, AfterAll(env, scope, m, ops))
    {
      RunKeepsInStep(env, scope, m, ops, paths);
    }
  }

  ghost predicate SameSources(a: BackLinks, b: BackLinks) {
    forall k :: (k in a <==> k in b) && multiset(SrcsAt(a, k)) == multiset(SrcsAt(b, k))
  }

  /** A vault kept up through any run of mutations against one restarted on its table: links,
      inverse lists and indexed bodies always agree, the whole corpus exactly when every indexed
      title and time is current, and the caches when both are in step. */
  method RunThenReload(v: PostgresVault, ops: seq<Op>) returns (w: PostgresVault)
    requires v.Valid() && Sound(v.env, v.scope, v.Mem())
    modifies v, v.cache, v.graph
    ensures v.Mem() == AfterAll(v.env, v.scope, old(v.Mem()), ops) && w.rows == v.rows
    ensures w.graph.outLinks == v.graph.outLinks && SameSources(w.graph.backlinks, v.graph.backlinks)
    ensures SameBodies(v.Corpus(), w.Corpus())
    ensures v.Corpus() == w.Corpus() <==> TitlesCurrent(v.rows, v.indexed)
    ensures forall paths :: RunWithin(v.env, old(v.rows), ops, paths) && CaseFree(v.env, paths) ==>
              (InStep(v.env, v.scope, old(v.Mem())) ==> w.cache.notes == v.cache.notes)
  {
    ghost var before := v.Mem();
    v.Run(ops);
    w := Restart(v);
    ReloadedCache(v.env, v.scope, before, ops, v.Mem(), w.Mem());
  }

  /** A new vault over the same table. */
  method Restart(v: PostgresVault) returns (w: PostgresVault)
    requires v.Valid() && Sound(v.env, v.scope, v.Mem())
    ensures w.rows == v.rows
    ensures w.graph.outLinks == v.graph.outLinks && SameSources(w.graph.backlinks, v.graph.backlinks)
    ensures SameBodies(v.Corpus(), w.Corpus())
    ensures v.Corpus() == w.Corpus() <==> TitlesCurrent(v.rows, v.indexed)
    ensures InStep(v.env, v.scope, w.Mem()) <==> forall p :: IsLive(v.rows, p) ==> NoClash(v.env, v.rows, p)
  {
    w := Reload(v.env, v.scope, v.rows);
    VaultsAgree(v, w);
  }

  method Reload(env: Env, scope: ScopeID, rows: Rows) returns (w: PostgresVault)
    ensures fresh(w) && fresh(w.cache) && fresh(w.graph) && w.env == env && w.scope == scope && w.rows == rows
    ensures w.Valid() && Sound(env, scope, w.Mem()) && TitlesCurrent(rows, w.indexed)
    ensures InStep(env, scope, w.Mem()) <==> forall p :: IsLive(rows, p) ==> NoClash(env, rows, p)
  {
    w := new PostgresVault(env, scope, rows);
    w.LoadAll();
  }

  lemma VaultsAgree(v: PostgresVault, w: PostgresVault)
    requires v.Valid() && Sound(v.env, v.scope, v.Mem())
    requires w.Valid() && Sound(v.env, v.scope, w.Mem()) && TitlesCurrent(v.rows, w.indexed)
    requires w.env == v.env && w.scope == v.scope && w.rows == v.rows
    ensures w.graph.outLinks == v.graph.outLinks && SameSources(w.graph.backlinks, v.graph.backlinks)
    ensures SameBodies(v.Corpus(), w.Corpus())
    ensures v.Corpus() == w.Corpus() <==> TitlesCurrent(v.rows, v.indexed)
  {
    SyncDetermines(v.env, v.scope, v.Mem(), w.Mem(), v.graph.backlinks, w.graph.backlinks, v.Corpus(), w.Corpus());
  }

  /** A cache kept in step over paths of their own keys is the one a reload fills. */
  lemma ReloadedCache(env: Env, scope: ScopeID, before: Memory, ops: seq<Op>, m: Memory, w: Memory)
    requires m == AfterAll(env, scope, before, ops) && w.rows == m.rows
    requires InStep(env, scope, w) <==> forall p :: IsLive(w.rows, p) ==> NoClash(env, w.rows, p)
    ensures forall paths :: RunWithin(env, before.rows, ops, paths) && CaseFree(env, paths) ==>
              (InStep(env, scope, before) ==> w.notes == m.notes)
  {
    forall paths | RunWithin(env, before.rows, ops, paths) && CaseFree(env, paths) && InStep(env, scope, before)
      ensures w.notes == m.notes
    {
      RunKeepsInStep(env, scope, before, ops, paths);
      forall p | IsLive(w.rows, p) ensures NoClash(env, w.rows, p) { LiveHasNoClash(env, scope, m.rows, m.notes, p); }
      SameCache(env, scope, m.rows, w.notes, m.notes);
    }
  }

  /** Structures that match one table are the same: links and inverse lists, index bodies, and
      the whole corpus exactly when titles and times are current. */
  lemma SyncDetermines(env: Env, scope: ScopeID, a: Memory, b: Memory, back: BackLinks, back': BackLinks,
                       corpus: map<DocKey, Doc>, corpus': map<DocKey, Doc>)
    requires Sound(env, scope, a) && Sound(env, scope, b) && a.rows == b.rows
    requires Inverse(a.out, back) && Inverse(b.out, back')
    requires CorpusHolds(env, scope, a.indexed, corpus) && CorpusHolds(env, scope, b.indexed, corpus')
    requires TitlesCurrent(b.rows, b.indexed)
    ensures a.out == b.out && SameSources(back', back)
    ensures SameBodies(corpus, corpus') && (corpus == corpus' <==> TitlesCurrent(a.rows, a.indexed))
  {
    SameLinks(env, a.rows, a.out, b.out);
    CorpusEqualIff(env, scope, a.rows, a.indexed, b.indexed, corpus, corpus');
    SameInverse(a.out, back, back');
  }

  lemma SameInverse(out: OutLinks, back: BackLinks, back': BackLinks)
    requires Inverse(out, back) && Inverse(out, back')
    ensures SameSources(back', back)
  {
    forall k ensures (k in back' <==> k in back) && multiset(SrcsAt(back', k)) == multiset(SrcsAt(back, k)) {
      InverseDetermined(out, back, back', k);
    }
  }

  lemma SameLinks(env: Env, rows: Rows, a: OutLinks, b: OutLinks)
    requires LinksInSync(env, rows, a) && LinksInSync(env, rows, b)
    requires (forall p :: p in a ==> a[p] != []) && (forall p :: p in b ==> b[p] != [])
    ensures a == b
  {
    forall p
      ensures p in a <==> p in b
      ensures p in a && p in b ==> a[p] == b[p]
    {
      assert LinksAtInSync(env, rows, a, p) && LinksAtInSync(env, rows, b, p);
    }
  }

  lemma SameCache(env: Env, scope: ScopeID, rows: Rows, a: map<string, NoteSummary>, b: map<string, NoteSummary>)
    requires CacheInSync(env, scope, rows, a) && CacheInSync(env, scope, rows, b)
    ensures a == b
  {
    forall k
      ensures k in a <==> k in b
      ensures k in a && k in b ==> a[k] == b[k]
    {
      if k in a || k in b {
        var p :| IsLive(rows, p) && env.lower(p) == k;
        assert CachedAt(env, scope, rows, a, p) && CachedAt(env, scope, rows, b, p);
      }
    }
  }

  /** Writing back a note's own links changes nothing. */
  lemma KeptLinks(out: OutLinks, p: string)
    requires forall q :: q in out ==> out[q] != []
    ensures Replaced(out, p, LinksAt(out, p)) == out
  {
  }
}
