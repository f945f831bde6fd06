/** Whole runs of writes to the link graph, and when its two sides mirror each other after one. */
module BacklinkRuns {
  import opened Sequences
  import opened Backlinks

  /** A write: a plain update, an update by difference against the recorded links, a removal. */
  datatype GraphOp =
    | UpsertOp(path: string, links: seq<OutLink>)
    | DiffOp(path: string, links: seq<OutLink>)
    | RemoveOp(path: string)

  datatype LinkState = LinkState(out: OutLinks, shown: OutLinks)

  /** Links parsed from a body never repeat a key. */
  ghost predicate Parsed(op: GraphOp) {
    op.RemoveOp? || DistinctKeys(op.links)
  }

  ghost predicate AllDistinct(out: OutLinks) {
    forall p :: DistinctKeys(LinksAt(out, p))
  }

  ghost function After(g: LinkState, op: GraphOp): LinkState {
    match op
    case UpsertOp(p, links) => LinkState(Replaced(g.out, p, links), Replaced(g.shown, p, links))
    case DiffOp(p, links) =>
      if SameKeys(LinksAt(g.out, p), links) then g
      else LinkState(Replaced(g.out, p, links), Replaced(g.shown, p, Retained(LinksAt(g.shown, p), links)))
    case RemoveOp(p) => LinkState(g.out - {p}, g.shown - {p})
  }

  ghost function AfterAll(g: LinkState, ops: seq<GraphOp>): LinkState {
    if ops == [] then g else After(AfterAll(g, ops[..|ops| - 1]), ops[|ops| - 1])
  }

  /** The links each note was last written with. */
  function Written(w: OutLinks, op: GraphOp): OutLinks {
    match op
    case UpsertOp(p, links) => Replaced(w, p, links)
    case DiffOp(p, links) => Replaced(w, p, links)
    case RemoveOp(p) => w - {p}
  }

  function WrittenAll(w: OutLinks, ops: seq<GraphOp>): OutLinks {
    if ops == [] then w else Written(WrittenAll(w, ops[..|ops| - 1]), ops[|ops| - 1])
  }

  // ----- When the inverse index mirrors given links -----

  /** No key that both sides name for a note carries two flags. */
  ghost predicate FlagsAgree(shown: OutLinks, out: OutLinks) {
    forall p :: FlagsKept(LinksAt(shown, p), LinksAt(out, p))
  }

  lemma SameFind(a: seq<OutLink>, b: seq<OutLink>, k: string)
    requires SameKeys(a, b) && FlagsKept(a, b)
    ensures FindLink(a, k) == FindLink(b, k)
  {
    FoundIffKey(a, k);
    FoundIffKey(b, k);
  }

  lemma MirroredFind(out: OutLinks, back: BackLinks, p: string, k: string)
    requires Inverse(out, back) && DistinctKeys(LinksAt(out, p)) && FindLink(LinksAt(out, p), k).Some?
    ensures multiset(SrcsAt(back, k))[BacklinkSrc(p, FindLink(LinksAt(out, p), k).value.isAsset)] == 1
  {
    var l := FindLink(LinksAt(out, p), k).value;
    assert Mirrored(out, back, k, p, l.isAsset);
    LinkCount(LinksAt(out, p), l);
  }

  /** An inverse index of the shown links is one of any links with the same keys exactly when no
      flag differs. */
  lemma InverseIff(shown: OutLinks, back: BackLinks, out: OutLinks)
    requires Inverse(shown, back) && Tracks(shown, out) && AllDistinct(out)
    ensures Inverse(out, back) <==> FlagsAgree(shown, out)
  {
    if FlagsAgree(shown, out) {
      forall k, p, a ensures Mirrored(out, back, k, p, a) {
        assert TracksAt(shown, out, p) && Mirrored(shown, back, k, p, a);
        SameFind(LinksAt(shown, p), LinksAt(out, p), k);
        LinkCount(LinksAt(shown, p), OutLink(k, a));
        LinkCount(LinksAt(out, p), OutLink(k, a));
      }
    }
    if Inverse(out, back) {
      forall p ensures FlagsKept(LinksAt(shown, p), LinksAt(out, p)) {
        assert TracksAt(shown, out, p);
        forall k | FindLink(LinksAt(shown, p), k).Some? && FindLink(LinksAt(out, p), k).Some?
          ensures FindLink(LinksAt(shown, p), k) == FindLink(LinksAt(out, p), k)
        {
          var l := FindLink(LinksAt(shown, p), k).value;
          MirroredFind(shown, back, p, k);
          assert Mirrored(out, back, k, p, l.isAsset);
          LinkCount(LinksAt(out, p), l);
        }
      }
    }
  }

  // ----- Runs -----

  lemma ReplacedDistinct(out: OutLinks, p: string, links: seq<OutLink>)
    requires AllDistinct(out) && DistinctKeys(links)
    ensures AllDistinct(Replaced(out, p, links))
  {
    forall q ensures DistinctKeys(LinksAt(Replaced(out, p, links), q)) {
      assert LinksAt(Replaced(out, p, links), q) == if q == p then links else LinksAt(out, q);
    }
  }

  lemma OpKeepsDistinct(g: LinkState, w: OutLinks, op: GraphOp)
    requires AllDistinct(g.out) && AllDistinct(w) && Parsed(op)
    ensures AllDistinct(After(g, op).out) && AllDistinct(Written(w, op))
  {
    var links := if op.RemoveOp? then [] else op.links;
    ReplacedDistinct(g.out, op.path, links);
    ReplacedDistinct(w, op.path, links);
  }

  method Exec(graph: BacklinkGraph, op: GraphOp)
    requires graph.Valid() && AllDistinct(graph.outLinks) && Parsed(op)
    modifies graph
    ensures graph.Valid() && AllDistinct(graph.outLinks)
    ensures LinkState(graph.outLinks, graph.shown) == After(LinkState(old(graph.outLinks), old(graph.shown)), op)
  {
    OpKeepsDistinct(LinkState(graph.outLinks, graph.shown), map[], op);
    match op {
      case UpsertOp(p, links) => graph.Upsert(p, links);
      case DiffOp(p, links) => graph.UpsertDiff(p, LinksAt(graph.outLinks, p), links);
      case RemoveOp(p) => graph.Remove(p);
    }
  }

  /** After any sequence of the three writes the inverse index is the exact inverse of the shown
      links, and of the recorded links exactly when no flag has drifted. */
  method Run(graph: BacklinkGraph, ops: seq<GraphOp>)
    requires graph.Valid() && AllDistinct(graph.outLinks)
    requires forall i :: 0 <= i < |ops| ==> Parsed(ops[i])
    modifies graph
    ensures graph.Valid() && AllDistinct(graph.outLinks)
    ensures LinkState(graph.outLinks, graph.shown) == AfterAll(LinkState(old(graph.outLinks), old(graph.shown)), ops)
    ensures Inverse(graph.outLinks, graph.backlinks) <==> FlagsAgree(graph.shown, graph.outLinks)
  {
    for i := 0 to |ops|
      invariant graph.Valid() && AllDistinct(graph.outLinks)
      invariant LinkState(graph.outLinks, graph.shown)
        == AfterAll(LinkState(old(graph.outLinks), old(graph.shown)), ops[..i])
    {
      assert ops[..i + 1][..i] == ops[..i];
      Exec(graph, ops[i]);
    }
    assert ops[..|ops|] == ops;
    InverseIff(graph.shown, graph.backlinks, graph.outLinks);
  }

  lemma OpTracks(g: LinkState, w: OutLinks, op: GraphOp)
    requires Tracks(g.shown, g.out) && Tracks(g.shown, w) && AllDistinct(g.out) && Parsed(op)
    ensures Tracks(After(g, op).shown, After(g, op).out) && Tracks(After(g, op).shown, Written(w, op))
  {
    var p := op.path;
    assert TracksAt(g.shown, g.out, p);
    if op.RemoveOp? {
      ReplaceTracks(g.shown, g.out, p, [], []);
      ReplaceTracks(g.shown, w, p, [], []);
    } else if op.UpsertOp? {
      ReplaceTracks(g.shown, g.out, p, op.links, op.links);
      ReplaceTracks(g.shown, w, p, op.links, op.links);
    } else if SameKeys(LinksAt(g.out, p), op.links) {
      ReplaceTracks(g.shown, w, p, LinksAt(g.shown, p), op.links);
      KeptTracks(g.shown, w, p, op.links);
    } else {
      var kept := Retained(LinksAt(g.shown, p), op.links);
      RetainedKeys(LinksAt(g.shown, p), op.links);
      RetainedDistinct(LinksAt(g.shown, p), op.links);
      ReplaceTracks(g.shown, g.out, p, kept, op.links);
      ReplaceTracks(g.shown, w, p, kept, op.links);
    }
  }

  /** Writing back what is shown changes what is shown for no note. */
  lemma KeptTracks(shown: OutLinks, w: OutLinks, p: string, links: seq<OutLink>)
    requires Tracks(Replaced(shown, p, LinksAt(shown, p)), Replaced(w, p, links))
    ensures Tracks(shown, Replaced(w, p, links))
  {
    forall q ensures TracksAt(shown, Replaced(w, p, links), q) {
      assert TracksAt(Replaced(shown, p, LinksAt(shown, p)), Replaced(w, p, links), q);
      assert LinksAt(Replaced(shown, p, LinksAt(shown, p)), q) == LinksAt(shown, q);
    }
  }

  /** Along any run the shown links name exactly the keys each note was last written with. So
      the inverse index mirrors the last writes exactly when no flag has drifted from them. */
  lemma {:induction false} RunTracksWrites(g: LinkState, w: OutLinks, ops: seq<GraphOp>)
    requires Tracks(g.shown, g.out) && Tracks(g.shown, w) && AllDistinct(g.out) && AllDistinct(w)
    requires forall i :: 0 <= i < |ops| ==> Parsed(ops[i])
    ensures Tracks(AfterAll(g, ops).shown, AfterAll(g, ops).out) && AllDistinct(AfterAll(g, ops).out)
    ensures Tracks(AfterAll(g, ops).shown, WrittenAll(w, ops)) && AllDistinct(WrittenAll(w, ops))
    ensures forall back :: Inverse(AfterAll(g, ops).shown, back) ==>
              (Inverse(WrittenAll(w, ops), back) <==> FlagsAgree(AfterAll(g, ops).shown, WrittenAll(w, ops)))
    decreases |ops|
  {
    if ops != [] {
      var n := |ops| - 1;
      RunTracksWrites(g, w, ops[..n]);
      OpTracks(AfterAll(g, ops[..n]), WrittenAll(w, ops[..n]), ops[n]);
      OpKeepsDistinct(AfterAll(g, ops[..n]), WrittenAll(w, ops[..n]), ops[n]);
    }
    forall back | Inverse(AfterAll(g, ops).shown, back)
      ensures Inverse(WrittenAll(w, ops), back) <==> FlagsAgree(AfterAll(g, ops).shown, WrittenAll(w, ops))
    {
      InverseIff(AfterAll(g, ops).shown, back, WrittenAll(w, ops));
    }
  }

  // ----- Writes that let no flag drift -----

  /** A difference update is harmless if no key comes or goes, or every retained key keeps the
      flag on record. */
  ghost predicate KeepsFlags(g: LinkState, op: GraphOp) {
    op.DiffOp? ==> SameKeys(LinksAt(g.out, op.path), op.links) || FlagsKept(LinksAt(g.out, op.path), op.links)
  }

  ghost predicate NoDrift(g: LinkState) {
    FlagsAgree(g.shown, g.out)
  }

  /** What a difference update shows agrees with the new links exactly when they keep the flags. */
  lemma RetainedAgreesIff(current: seq<OutLink>, links: seq<OutLink>)
    ensures FlagsKept(Retained(current, links), links) <==> FlagsKept(current, links)
  {
    forall k
      ensures FindLink(Retained(current, links), k) == FindLink(links, k)
        <==> (FindLink(current, k).Some? && FindLink(links, k).Some? ==> FindLink(current, k) == FindLink(links, k))
      ensures FindLink(Retained(current, links), k).Some? <==> FindLink(links, k).Some?
    {
      FindRetained(current, links, k);
    }
  }

  lemma SameFlagsKept(a: seq<OutLink>, b: seq<OutLink>, links: seq<OutLink>)
    requires SameKeys(a, b) && FlagsKept(a, b)
    ensures FlagsKept(a, links) <==> FlagsKept(b, links)
  {
    forall k ensures FindLink(a, k) == FindLink(b, k) { SameFind(a, b, k); }
  }

  lemma FlagsKeptSelf(links: seq<OutLink>)
    ensures FlagsKept(links, links)
  {
  }

  /** Replacing one note's links leaves the flags of all others as they were. */
  lemma ReplacedAgreeIff(shown: OutLinks, out: OutLinks, p: string, a: seq<OutLink>, b: seq<OutLink>)
    requires FlagsAgree(shown, out)
    ensures FlagsAgree(Replaced(shown, p, a), Replaced(out, p, b)) <==> FlagsKept(a, b)
  {
    var shown', out' := Replaced(shown, p, a), Replaced(out, p, b);
    forall q ensures FlagsKept(LinksAt(shown', q), LinksAt(out', q)) <==> q != p || FlagsKept(a, b) {
      assert LinksAt(shown', q) == if q == p then a else LinksAt(shown, q);
      assert LinksAt(out', q) == if q == p then b else LinksAt(out, q);
      assert FlagsKept(LinksAt(shown, q), LinksAt(out, q));
    }
    if FlagsAgree(shown', out') { assert FlagsKept(LinksAt(shown', p), LinksAt(out', p)); }
  }

  lemma OpDriftsIff(g: LinkState, op: GraphOp)
    requires Tracks(g.shown, g.out) && NoDrift(g)
    ensures NoDrift(After(g, op)) <==> KeepsFlags(g, op)
  {
    var p := op.path;
    match op {
      case UpsertOp(_, links) =>
        ReplacedAgreeIff(g.shown, g.out, p, links, links);
        FlagsKeptSelf(links);
      case DiffOp(_, links) =>
        if !SameKeys(LinksAt(g.out, p), links) {
          var shown := LinksAt(g.shown, p);
          assert TracksAt(g.shown, g.out, p) && FlagsKept(shown, LinksAt(g.out, p));
          ReplacedAgreeIff(g.shown, g.out, p, Retained(shown, links), links);
          RetainedAgreesIff(shown, links);
          SameFlagsKept(shown, LinksAt(g.out, p), links);
        }
      case RemoveOp(_) =>
        ReplacedAgreeIff(g.shown, g.out, p, [], []);
        FlagsKeptSelf([]);
    }
  }

  ghost predicate NoDriftAt(g: LinkState, ops: seq<GraphOp>, k: int) {
    0 <= k <= |ops| ==> NoDrift(AfterAll(g, ops[..k]))
  }

  ghost predicate KeepsFlagsAt(g: LinkState, ops: seq<GraphOp>, k: int) {
    0 <= k < |ops| ==> KeepsFlags(AfterAll(g, ops[..k]), ops[k])
  }

  ghost predicate NeverDrifts(g: LinkState, ops: seq<GraphOp>) {
    forall k :: NoDriftAt(g, ops, k)
  }

  ghost predicate AllKeepFlags(g: LinkState, ops: seq<GraphOp>) {
    forall k :: KeepsFlagsAt(g, ops, k)
  }

  lemma AtPrefix(g: LinkState, ops: seq<GraphOp>, k: int)
    requires ops != [] && k < |ops|
    ensures NoDriftAt(g, ops[..|ops| - 1], k) <==> NoDriftAt(g, ops, k)
    ensures k < |ops| - 1 ==> (KeepsFlagsAt(g, ops[..|ops| - 1], k) <==> KeepsFlagsAt(g, ops, k))
  {
    if 0 <= k { assert ops[..|ops| - 1][..k] == ops[..k]; }
  }

  lemma SplitLast(g: LinkState, ops: seq<GraphOp>)
    requires ops != []
    ensures NeverDrifts(g, ops) <==> NeverDrifts(g, ops[..|ops| - 1]) && NoDrift(AfterAll(g, ops))
    ensures AllKeepFlags(g, ops)
      <==> AllKeepFlags(g, ops[..|ops| - 1]) && KeepsFlags(AfterAll(g, ops[..|ops| - 1]), ops[|ops| - 1])
  {
    var n := |ops| - 1;
    forall k
      ensures NoDriftAt(g, ops, k) <==> if k == n + 1 then NoDrift(AfterAll(g, ops)) else NoDriftAt(g, ops[..n], k)
    {
      if k <= n { AtPrefix(g, ops, k); } else if k == n + 1 { assert ops[..k] == ops; }
    }
    assert NeverDrifts(g, ops) ==> NoDriftAt(g, ops, n + 1);
    forall k ensures KeepsFlagsAt(g, ops, k)
      <==> if k == n then KeepsFlags(AfterAll(g, ops[..n]), ops[n]) else KeepsFlagsAt(g, ops[..n], k)
    {
      if k < n { AtPrefix(g, ops, k); }
    }
    assert AllKeepFlags(g, ops) ==> KeepsFlagsAt(g, ops, n);
  }

  /** From a graph without drift: the inverse index is the exact inverse of the recorded links
      after every write if and only if every difference update keeps the flags it meets. */
  lemma {:induction false} NeverDriftsIff(g: LinkState, ops: seq<GraphOp>)
    requires Tracks(g.shown, g.out) && NoDrift(g) && AllDistinct(g.out) && forall i :: 0 <= i < |ops| ==> Parsed(ops[i])
    ensures NeverDrifts(g, ops) <==> AllKeepFlags(g, ops)
    decreases |ops|
  {
    if ops != [] {
      var front := ops[..|ops| - 1];
      NeverDriftsIff(g, front);
      SplitLast(g, ops);
      RunTracksWrites(g, g.out, front);
      if NeverDrifts(g, front) {
        assert NoDriftAt(g, front, |front|) && front[..|front|] == front;
        OpDriftsIff(AfterAll(g, front), ops[|ops| - 1]);
      }
    }
  }

  /** Flags do drift: a link that becomes an embed while another key comes keeps its old flag. */
  lemma FlagDrifts(p: string, k: string, j: string)
    requires k != j
    ensures var ops := [DiffOp(p, [OutLink(k, false)]), DiffOp(p, [OutLink(k, true), OutLink(j, false)])];
            !FlagsAgree(AfterAll(LinkState(map[], map[]), ops).shown, AfterAll(LinkState(map[], map[]), ops).out)
  {
    var one, two := [OutLink(k, false)], [OutLink(k, true), OutLink(j, false)];
    var ops := [DiffOp(p, one), DiffOp(p, two)];
    var g0 := LinkState(map[], map[]);
    assert ops[..1] == [DiffOp(p, one)] && ops[..1][..0] == [];
    assert AfterAll(g0, ops[..1]) == After(AfterAll(g0, ops[..1][..0]), DiffOp(p, one));
    assert one[0].targetKey in KeySet(one) && two[1].targetKey in KeySet(two);
    FoundIffKey([], k);
    FoundIffKey(one, j);
    var g1 := AfterAll(g0, ops[..1]);
    assert one[..0] == [] && two[..1] == [OutLink(k, true)] && two[..1][..0] == [];
    assert Retained([], one) == one;
    assert g1 == LinkState(map[p := one], map[p := one]);
    FindRetained(one, two, k);
    assert FindLink(two, k) == Some(OutLink(k, true)) && FindLink(one, k) == Some(OutLink(k, false));
    var g2 := AfterAll(g0, ops);
    assert g2 == After(g1, DiffOp(p, two));
    assert !FlagsKept(LinksAt(g2.shown, p), LinksAt(g2.out, p));
  }
}
