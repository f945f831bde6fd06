/** A local vault's summary cache and link graph, and what its backlinks query may rely on after
    any sequence of index writes. */
module LocalIndexes {
  import opened Sequences
  import opened Domain
  import opened NoteCaches
  import opened Backlinks
  import opened BacklinkRuns
  import opened LinkQueries

  /** A note read from disk and indexed, a note removed, a note moved. */
  datatype IndexOp =
    | IndexNote(path: string, summary: NoteSummary, links: seq<OutLink>)
    | DropNote(path: string)
    | MoveNote(path: string, newPath: string, summary: NoteSummary, links: seq<OutLink>)

  datatype IndexState = IndexState(notes: map<string, NoteSummary>, links: LinkState)

  /** The summary is the note's own and its links come from the parser. */
  ghost predicate FromNote(op: IndexOp) {
    match op
    case IndexNote(p, s, links) => s.ref.path == p && DistinctKeys(links)
    case DropNote(_) => true
    case MoveNote(_, q, s, links) => s.ref.path == q && DistinctKeys(links)
  }

  ghost function IndexAfter(indexKey: string -> string, st: IndexState, op: IndexOp): IndexState {
    match op
    case IndexNote(p, s, links) => IndexState(st.notes[indexKey(p) := s], After(st.links, DiffOp(p, links)))
    case DropNote(p) => IndexState(st.notes - {indexKey(p)}, After(st.links, RemoveOp(p)))
    case MoveNote(p, q, s, links) =>
      IndexState((st.notes - {indexKey(p)})[indexKey(q) := s], After(After(st.links, RemoveOp(p)), UpsertOp(q, links)))
  }

  ghost function IndexAfterAll(indexKey: string -> string, st: IndexState, ops: seq<IndexOp>): IndexState {
    if ops == [] then st else IndexAfter(indexKey, IndexAfterAll(indexKey, st, ops[..|ops| - 1]), ops[|ops| - 1])
  }

  /** The paths an operation names. */
  function Named(op: IndexOp): set<string> {
    match op
    case IndexNote(p, _, _) => {p}
    case DropNote(p) => {p}
    case MoveNote(p, q, _, _) => {p, q}
  }

  /** No other note with links has the cache key of a path named. */
  ghost predicate Unshared(indexKey: string -> string, out: OutLinks, named: set<string>) {
    forall p, r :: p in named && r in out && r !in named ==> indexKey(r) != indexKey(p)
  }

  /** Each note is always spelled the same, so its key is its own. */
  ghost predicate TellsApart(indexKey: string -> string, paths: set<string>) {
    forall p, q :: p in paths && q in paths && indexKey(p) == indexKey(q) ==> p == q
  }

  /** A write keeps every linked note cached as itself exactly when it does not take the key of
      another one, as two spellings of one path would. */
  lemma CoverSetIff(notes: map<string, NoteSummary>, out: OutLinks, indexKey: string -> string, p: string,
                    s: NoteSummary,
                    links: seq<OutLink>)
    requires CacheCovers(notes, out, indexKey) && s.ref.path == p
    ensures CacheCovers(notes[indexKey(p) := s], Replaced(out, p, links), indexKey) <==> Unshared(indexKey, out, {p})
    ensures CacheCovers(notes[indexKey(p) := s], out, indexKey) <==> Unshared(indexKey, out, {p})
  {
    var notes', out' := notes[indexKey(p) := s], Replaced(out, p, links);
    if !Unshared(indexKey, out, {p}) {
      var r :| r in out && r != p && indexKey(r) == indexKey(p);
      assert r in out' && notes'[indexKey(r)].ref.path != r;
    }
  }

  lemma CoverDropIff(notes: map<string, NoteSummary>, out: OutLinks, indexKey: string -> string, p: string)
    requires CacheCovers(notes, out, indexKey)
    ensures CacheCovers(notes - {indexKey(p)}, out - {p}, indexKey) <==> Unshared(indexKey, out, {p})
  {
    if !Unshared(indexKey, out, {p}) {
      var r :| r in out && r != p && indexKey(r) == indexKey(p);
      assert r in out - {p} && indexKey(r) !in notes - {indexKey(p)};
    }
  }

  lemma CoverMoveIff(notes: map<string, NoteSummary>, out: OutLinks, indexKey: string -> string, p: string, q: string,
                     s: NoteSummary, links: seq<OutLink>)
    requires CacheCovers(notes, out, indexKey) && s.ref.path == q
    ensures CacheCovers((notes - {indexKey(p)})[indexKey(q) := s], Replaced(out - {p}, q, links), indexKey)
      <==> Unshared(indexKey, out, {p, q})
  {
    var notes', out' := (notes - {indexKey(p)})[indexKey(q) := s], Replaced(out - {p}, q, links);
    if !Unshared(indexKey, out, {p, q}) {
      var o, r :| o in {p, q} && r in out && r !in {p, q} && indexKey(r) == indexKey(o);
      assert r in out' && (indexKey(r) in notes' ==> notes'[indexKey(r)].ref.path != r);
    }
  }

  lemma WithinUnshared(indexKey: string -> string, out: OutLinks, paths: set<string>, named: set<string>)
    requires TellsApart(indexKey, paths) && out.Keys <= paths && named <= paths
    ensures Unshared(indexKey, out, named)
  {
  }

  class LocalIndex {
    const cache: NoteCache
    const graph: BacklinkGraph
    const indexKey: string -> string

    constructor (indexKey: string -> string)
      ensures Valid() && Covers() && fresh(cache) && fresh(graph) && this.indexKey == indexKey
      ensures State() == IndexState(map[], LinkState(map[], map[]))
    {
      this.cache := new NoteCache();
      this.graph := new BacklinkGraph();
      this.indexKey := indexKey;
    }

    ghost predicate Valid()
      reads graph
    {
      graph.Valid() && AllDistinct(graph.outLinks)
    }

    /** Every note with links is cached as itself. */
    ghost predicate Covers()
      reads cache, graph
    {
      CacheCovers(cache.notes, graph.outLinks, indexKey)
    }

    ghost function State(): IndexState
      reads cache, graph
    {
      IndexState(cache.notes, LinkState(graph.outLinks, graph.shown))
    }

    method UpsertWithLinks(path: string, s: NoteSummary, links: seq<OutLink>)
      requires Valid() && s.ref.path == path && DistinctKeys(links)
      modifies cache, graph
      ensures Valid() && State() == IndexAfter(indexKey, old(State()), IndexNote(path, s, links))
      ensures cache.notes == old(cache.notes)[indexKey(path) := s]
      ensures old(Covers()) ==> (Covers() <==> Unshared(indexKey, old(graph.outLinks), {path}))
    {
      if Covers() { CoverSetIff(cache.notes, graph.outLinks, indexKey, path, s, links); }
      ReplacedDistinct(graph.outLinks, path, links);
      cache.Set(indexKey(path), s);
      var current := LinksAt(graph.outLinks, path);
      graph.UpsertDiff(path, current, links);
    }

    method RemoveNote(path: string)
      requires Valid()
      modifies cache, graph
      ensures Valid() && State() == IndexAfter(indexKey, old(State()), DropNote(path))
      ensures cache.notes == old(cache.notes) - {indexKey(path)}
      ensures old(Covers()) ==> (Covers() <==> Unshared(indexKey, old(graph.outLinks), {path}))
    {
      if Covers() { CoverDropIff(cache.notes, graph.outLinks, indexKey, path); }
      ReplacedDistinct(graph.outLinks, path, []);
      cache.Delete(indexKey(path));
      graph.Remove(path);
    }

    method Rename(path: string, newPath: string, s: NoteSummary, links: seq<OutLink>)
      requires Valid() && s.ref.path == newPath && DistinctKeys(links)
      modifies cache, graph
      ensures Valid() && State() == IndexAfter(indexKey, old(State()), MoveNote(path, newPath, s, links))
      ensures cache.notes == (old(cache.notes) - {indexKey(path)})[indexKey(newPath) := s]
      ensures old(Covers()) ==> (Covers() <==> Unshared(indexKey, old(graph.outLinks), {path, newPath}))
    {
      if Covers() { CoverMoveIff(cache.notes, graph.outLinks, indexKey, path, newPath, s, links); }
      ReplacedDistinct(graph.outLinks, path, []);
      ReplacedDistinct(graph.outLinks - {path}, newPath, links);
      cache.Move(indexKey(path), indexKey(newPath), s);
      graph.Remove(path);
      graph.Upsert(newPath, links);
    }

    method Exec(op: IndexOp)
      requires Valid() && FromNote(op)
      modifies cache, graph
      ensures Valid() && State() == IndexAfter(indexKey, old(State()), op)
      ensures old(Covers()) ==> (Covers() <==> Unshared(indexKey, old(graph.outLinks), Named(op)))
    {
      match op {
        case IndexNote(p, s, links) => UpsertWithLinks(p, s, links);
        case DropNote(p) => RemoveNote(p);
        case MoveNote(p, q, s, links) => Rename(p, q, s, links);
      }
    }

    /** Any sequence of index writes over paths with keys of their own. */
    method Run(ops: seq<IndexOp>, ghost paths: set<string>)
      requires Valid() && Covers() && TellsApart(indexKey, paths) && graph.outLinks.Keys <= paths
      requires forall i :: 0 <= i < |ops| ==> FromNote(ops[i]) && Named(ops[i]) <= paths
      modifies cache, graph
      ensures Valid() && Covers() && State() == IndexAfterAll(indexKey, old(State()), ops)
    {
      for i := 0 to |ops|
        invariant Valid() && Covers() && graph.outLinks.Keys <= paths
        invariant State() == IndexAfterAll(indexKey, old(State()), ops[..i])
      {
        assert ops[..i + 1][..i] == ops[..i];
        WithinUnshared(indexKey, graph.outLinks, paths, Named(ops[i]));
        Exec(ops[i]);
      }
      assert ops[..|ops|] == ops;
    }

    /** Any such sequence followed by a backlinks query of a note: the sources found are those a
        naive scan of the cached notes' shown links finds, and, assets included, exactly the
        cached matching notes whose recorded links name one of the note's keys. */
    method RunThenQuery(ops: seq<IndexOp>, ghost paths: set<string>, lower: string -> string, path: string,
                        includeAssets: bool, matches: NoteSummary -> bool)
      returns (keys: seq<string>, entries: seq<BacklinkEntry>)
      requires Valid() && Covers() && TellsApart(indexKey, paths) && graph.outLinks.Keys <= paths
      requires forall i :: 0 <= i < |ops| ==> FromNote(ops[i]) && Named(ops[i]) <= paths
      modifies cache, graph
      ensures Valid() && Covers() && State() == IndexAfterAll(indexKey, old(State()), ops)
      ensures keys == Distinct(CandidateKeys(lower, path))
      ensures forall i, j :: 0 <= i < j < |entries| ==> entries[i].summary.ref.path != entries[j].summary.ref.path
      ensures ListsLinkers(State().notes, State().links.shown, matches, keys, includeAssets, entries)
      ensures ListsNamed(State().notes, State().links.shown, matches, keys, includeAssets, entries)
      ensures FlagsAgree(State().links.shown, State().links.out) ==>
                ListsLinkers(State().notes, State().links.out, matches, keys, includeAssets, entries)
      ensures includeAssets ==> forall s :: s in State().notes.Values ==>
                ((exists a :: BacklinkEntry(s, a) in entries)
                 <==> matches(s) && NamesOne(LinksAt(State().links.out, s.ref.path), keys))
    {
      Run(ops, paths);
      keys := LinkMatchKeys(lower, path);
      entries := QueryBacklinks(cache, graph, indexKey, keys, includeAssets, matches);
    }
  }
}
