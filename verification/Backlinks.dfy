/** The link graph: outbound links per note and the inverse index, updated together. */
module Backlinks {
  import opened Sequences

  datatype OutLink = OutLink(targetKey: string, isAsset: bool)

  datatype BacklinkSrc = BacklinkSrc(path: string, isAsset: bool)

  type OutLinks = map<string, seq<OutLink>>
  type BackLinks = map<string, seq<BacklinkSrc>>

  function LinksAt(out: OutLinks, path: string): seq<OutLink> {
    if path in out then out[path] else []
  }

  function SrcsAt(back: BackLinks, key: string): seq<BacklinkSrc> {
    if key in back then back[key] else []
  }

  /** The two relations hold the same links, as often, and neither keeps empty lists. */
  ghost predicate Inverse(out: OutLinks, back: BackLinks) {
    && (forall k, p, a :: Mirrored(out, back, k, p, a))
    && (forall p :: p in out ==> out[p] != [])
    && (forall k :: k in back ==> back[k] != [])
  }

  ghost predicate Mirrored(out: OutLinks, back: BackLinks, k: string, p: string, a: bool) {
    multiset(SrcsAt(back, k))[BacklinkSrc(p, a)] == multiset(LinksAt(out, p))[OutLink(k, a)]
  }

  /** The inverse index is determined by the links, up to the order of its lists. */
  lemma InverseDetermined(out: OutLinks, a: BackLinks, b: BackLinks, k: string)
    requires Inverse(out, a) && Inverse(out, b)
    ensures multiset(SrcsAt(a, k)) == multiset(SrcsAt(b, k))
    ensures k in a <==> k in b
  {
    var sa, sb := multiset(SrcsAt(a, k)), multiset(SrcsAt(b, k));
    forall s: BacklinkSrc ensures sa[s] == sb[s] {
      assert Mirrored(out, a, k, s.path, s.isAsset) && Mirrored(out, b, k, s.path, s.isAsset);
    }
    assert sa == sb;
    assert |SrcsAt(a, k)| == |sa| == |sb| == |SrcsAt(b, k)|;
  }

  function NotFrom(path: string): BacklinkSrc -> bool {
    (s: BacklinkSrc) => s.path != path
  }

  /** The inverse entries of one note's links to one key, in link order. */
  function Sources(path: string, links: seq<OutLink>, key: string): seq<BacklinkSrc> {
    if links == [] then []
    else
      var last := links[|links| - 1];
      Sources(path, links[..|links| - 1], key)
      + (if last.targetKey == key then [BacklinkSrc(path, last.isAsset)] else [])
  }

  lemma {:induction false} SourcesCount(path: string, links: seq<OutLink>, key: string, s: BacklinkSrc)
    ensures multiset(Sources(path, links, key))[s]
         == if s.path == path then multiset(links)[OutLink(key, s.isAsset)] else 0
  {
    if links != [] {
      var front, last := links[..|links| - 1], links[|links| - 1];
      assert links == front + [last];
      SourcesCount(path, front, key, s);
    }
  }

  function Replaced(out: OutLinks, path: string, links: seq<OutLink>): OutLinks {
    if links == [] then out - {path} else out[path := links]
  }

  lemma ReplacedAgain(out: OutLinks, path: string, links: seq<OutLink>)
    ensures links == [] ==> Replaced(out, path, links) == out - {path}
    ensures links != [] ==> Replaced(out, path, links) == (out - {path})[path := links]
  {
  }

  lemma FilteredCount(srcs: seq<BacklinkSrc>, path: string, s: BacklinkSrc)
    ensures multiset(Filter(srcs, NotFrom(path)))[s] == if s.path != path then multiset(srcs)[s] else 0
  {
    FilterCount(srcs, NotFrom(path), s);
  }

  lemma ReplaceMirrored(out: OutLinks, back: BackLinks, path: string, links: seq<OutLink>,
                        srcs: seq<BacklinkSrc>, k: string, p: string, a: bool)
    requires Mirrored(out, back, k, p, a)
    requires srcs == Filter(SrcsAt(back, k), NotFrom(path)) + Sources(path, links, k)
    ensures multiset(srcs)[BacklinkSrc(p, a)] == multiset(LinksAt(Replaced(out, path, links), p))[OutLink(k, a)]
  {
    FilteredCount(SrcsAt(back, k), path, BacklinkSrc(p, a));
    SourcesCount(path, links, k, BacklinkSrc(p, a));
    assert LinksAt(Replaced(out, path, links), p) == if p == path then links else LinksAt(out, p);
  }

  /** Dropping a note's old entries everywhere and appending its new ones mirrors replacing
      its links. */
  lemma ReplaceMirrors(out: OutLinks, back: BackLinks, path: string, links: seq<OutLink>, back': BackLinks)
    requires Inverse(out, back)
    requires forall k :: SrcsAt(back', k) == Filter(SrcsAt(back, k), NotFrom(path)) + Sources(path, links, k)
    requires forall k :: k in back' ==> back'[k] != []
    ensures Inverse(Replaced(out, path, links), back')
  {
    forall k, p, a ensures Mirrored(Replaced(out, path, links), back', k, p, a) {
      assert Mirrored(out, back, k, p, a);
      ReplaceMirrored(out, back, path, links, SrcsAt(back', k), k, p, a);
    }
  }

  /** Every inverse entry stands for a link. */
  lemma EntryIsLink(out: OutLinks, back: BackLinks, k: string, s: BacklinkSrc)
    requires Inverse(out, back) && s in SrcsAt(back, k)
    ensures OutLink(k, s.isAsset) in LinksAt(out, s.path)
  {
    assert Mirrored(out, back, k, s.path, s.isAsset);
    assert s in multiset(SrcsAt(back, k));
    assert OutLink(k, s.isAsset) in multiset(LinksAt(out, s.path));
  }

  /** A key that a note does not link to holds no entry of it. */
  lemma UntouchedKey(out: OutLinks, back: BackLinks, path: string, k: string)
    requires Inverse(out, back) && !LinksTo(LinksAt(out, path), k)
    ensures Filter(SrcsAt(back, k), NotFrom(path)) == SrcsAt(back, k)
  {
    var srcs := SrcsAt(back, k);
    forall i | 0 <= i < |srcs| ensures NotFrom(path)(srcs[i]) {
      EntryIsLink(out, back, k, srcs[i]);
    }
    FilterAll(srcs, NotFrom(path));
  }

  predicate LinksTo(links: seq<OutLink>, key: string) {
    exists i :: 0 <= i < |links| && links[i].targetKey == key
  }

  /** The entries under k once those of the given links are dropped. */
  function Dropped(srcs: seq<BacklinkSrc>, links: seq<OutLink>, k: string, path: string): seq<BacklinkSrc> {
    if LinksTo(links, k) then Filter(srcs, NotFrom(path)) else srcs
  }

  ghost predicate DistinctKeys(links: seq<OutLink>) {
    forall i, j :: 0 <= i < j < |links| ==> links[i].targetKey != links[j].targetKey
  }

  // ----- Links as recorded and links as shown -----

  /** A note's shown links name the same keys as its recorded ones. Their asset flags may differ. */
  ghost predicate TracksAt(shown: OutLinks, out: OutLinks, p: string) {
    && SameKeys(LinksAt(shown, p), LinksAt(out, p))
    && (DistinctKeys(LinksAt(out, p)) ==> DistinctKeys(LinksAt(shown, p)))
  }

  ghost predicate Tracks(shown: OutLinks, out: OutLinks) {
    && (forall p :: TracksAt(shown, out, p))
    && (forall p :: p in out ==> out[p] != [])
  }

  lemma ReplaceTracks(shown: OutLinks, out: OutLinks, path: string, a: seq<OutLink>, b: seq<OutLink>)
    requires Tracks(shown, out) && SameKeys(a, b) && (DistinctKeys(b) ==> DistinctKeys(a))
    ensures Tracks(Replaced(shown, path, a), Replaced(out, path, b))
  {
    var shown', out' := Replaced(shown, path, a), Replaced(out, path, b);
    forall p ensures TracksAt(shown', out', p) {
      assert TracksAt(shown, out, p);
      assert LinksAt(shown', p) == if p == path then a else LinksAt(shown, p);
      assert LinksAt(out', p) == if p == path then b else LinksAt(out, p);
    }
  }

  lemma SameKeysSameLinks(a: seq<OutLink>, b: seq<OutLink>, k: string)
    requires SameKeys(a, b)
    ensures LinksTo(a, k) <==> LinksTo(b, k)
    ensures a == [] <==> b == []
  {
    FoundIffKey(a, k);
    FoundIffKey(b, k);
    if a != [] { assert a[0].targetKey in KeySet(a); }
    if b != [] { assert b[0].targetKey in KeySet(b); }
  }

  /** Dropping a note's entries under its recorded keys drops all of them. */
  lemma AllDropped(shown: OutLinks, back: BackLinks, path: string, links: seq<OutLink>, back': BackLinks)
    requires Inverse(shown, back) && SameKeys(LinksAt(shown, path), links)
    requires forall k :: SrcsAt(back', k) == Dropped(SrcsAt(back, k), links, k, path)
    ensures forall k :: SrcsAt(back', k) == Filter(SrcsAt(back, k), NotFrom(path))
  {
    forall k ensures SrcsAt(back', k) == Filter(SrcsAt(back, k), NotFrom(path)) {
      SameKeysSameLinks(LinksAt(shown, path), links, k);
      if !LinksTo(LinksAt(shown, path), k) { UntouchedKey(shown, back, path, k); }
    }
  }

  class BacklinkGraph {
    var outLinks: OutLinks
    var backlinks: BackLinks
    /** The links that the inverse index shows. They drift from the recorded ones when a
        difference update meets a retained key with another asset flag. */
    ghost var shown: OutLinks

    constructor ()
      ensures outLinks == map[] && backlinks == map[] && Exact()
    {
      outLinks, backlinks := map[], map[];
      shown := map[];
    }

    /** What every operation keeps: the inverse index is the exact inverse of the shown links,
        and those have the keys of the recorded ones. */
    ghost predicate Valid()
      reads this
    {
      Inverse(shown, backlinks) && Tracks(shown, outLinks)
    }

    /** Nothing has drifted, as in a graph that only plain updates and removals write. */
    ghost predicate Exact()
      reads this
    {
      Valid() && shown == outLinks
    }

    method DropEntries(key: string, path: string)
      modifies this`backlinks
      ensures SrcsAt(backlinks, key) == Filter(old(SrcsAt(backlinks, key)), NotFrom(path))
      ensures forall k :: k != key ==> SrcsAt(backlinks, k) == old(SrcsAt(backlinks, k))
      ensures forall k :: k in backlinks ==> k == key || k in old(backlinks)
      ensures key in backlinks ==> backlinks[key] != []
      ensures forall k :: k in backlinks && k != key ==> backlinks[k] == old(backlinks[k])
    {
      var srcs := SrcsAt(backlinks, key);
      var out: seq<BacklinkSrc> := [];
      for i := 0 to |srcs|
        invariant backlinks == old(backlinks)
        invariant out == Filter(srcs[..i], NotFrom(path))
      {
        assert srcs[..i + 1] == srcs[..i] + [srcs[i]];
        FilterAppend(srcs[..i], [srcs[i]], NotFrom(path));
        if srcs[i].path != path {
          out := out + [srcs[i]];
        }
      }
      assert srcs[..|srcs|] == srcs;
      if |out| == 0 {
        backlinks := backlinks - {key};
      } else {
        backlinks := backlinks[key := out];
      }
    }

    method AppendEntry(key: string, s: BacklinkSrc)
      modifies this`backlinks
      ensures SrcsAt(backlinks, key) == old(SrcsAt(backlinks, key)) + [s]
      ensures forall k :: k != key ==> SrcsAt(backlinks, k) == old(SrcsAt(backlinks, k))
      ensures forall k :: k in backlinks <==> k == key || k in old(backlinks)
      ensures forall k :: k in old(backlinks) && k != key ==> backlinks[k] == old(backlinks[k])
    {
      backlinks := backlinks[key := SrcsAt(backlinks, key) + [s]];
    }

    /** Removes a note's links from both sides. */
    method RemoveLocked(path: string)
      requires Valid()
      modifies this
      ensures Valid() && outLinks == old(outLinks) - {path} && shown == old(shown) - {path}
      ensures forall k :: SrcsAt(backlinks, k) == Filter(old(SrcsAt(backlinks, k)), NotFrom(path))
    {
      assert TracksAt(shown, outLinks, path);
      ReplaceTracks(shown, outLinks, path, [], []);
      ghost var was := LinksAt(shown, path);
      if path !in outLinks {
        SameKeysSameLinks(was, [], "");
        forall k ensures Filter(SrcsAt(backlinks, k), NotFrom(path)) == SrcsAt(backlinks, k) {
          UntouchedKey(shown, backlinks, path, k);
        }
        return;
      }
      var links := outLinks[path];
      ghost var back := backlinks;
      DropAll(path, links);
      AllDropped(shown, back, path, links, backlinks);
      ReplaceMirrors(shown, back, path, [], backlinks);
      outLinks := outLinks - {path};
      shown := shown - {path};
    }

    /** Drops a note's entries under every key of the given links. */
    method DropAll(path: string, links: seq<OutLink>)
      requires forall k :: k in backlinks ==> backlinks[k] != []
      modifies this`backlinks
      ensures forall k :: SrcsAt(backlinks, k) == Dropped(old(SrcsAt(backlinks, k)), links, k, path)
      ensures forall k :: k in backlinks ==> backlinks[k] != []
    {
      ghost var back := backlinks;
      for i := 0 to |links|
        invariant forall k :: SrcsAt(backlinks, k) == Dropped(SrcsAt(back, k), links[..i], k, path)
        invariant forall k :: k in backlinks ==> backlinks[k] != []
      {
        ghost var before := backlinks;
        DropEntries(links[i].targetKey, path);
        forall k ensures SrcsAt(backlinks, k) == Dropped(SrcsAt(back, k), links[..i + 1], k, path) {
          DropStep(links, i, k, path, SrcsAt(back, k), SrcsAt(before, k), SrcsAt(backlinks, k));
        }
      }
      assert links[..|links|] == links;
    }

    method Remove(path: string)
      requires Valid()
      modifies this
      ensures Valid() && outLinks == old(outLinks) - {path} && shown == old(shown) - {path}
      ensures forall k :: SrcsAt(backlinks, k) == Filter(old(SrcsAt(backlinks, k)), NotFrom(path))
    {
      RemoveLocked(path);
    }

    /** Appends one entry per link, in link order. */
    method AppendAll(path: string, links: seq<OutLink>)
      requires forall k :: k in backlinks ==> backlinks[k] != []
      modifies this`backlinks
      ensures forall k :: SrcsAt(backlinks, k) == old(SrcsAt(backlinks, k)) + Sources(path, links, k)
      ensures forall k :: k in backlinks ==> backlinks[k] != []
    {
      ghost var back := backlinks;
      for i := 0 to |links|
        invariant forall k :: SrcsAt(backlinks, k) == SrcsAt(back, k) + Sources(path, links[..i], k)
        invariant forall k :: k in backlinks ==> backlinks[k] != []
      {
        ghost var before := backlinks;
        AppendEntry(links[i].targetKey, BacklinkSrc(path, links[i].isAsset));
        forall k ensures SrcsAt(backlinks, k) == SrcsAt(back, k) + Sources(path, links[..i + 1], k) {
          AppendStep(links, i, k, path, SrcsAt(back, k), SrcsAt(before, k), SrcsAt(backlinks, k));
        }
      }
      assert links[..|links|] == links;
    }

    /** Replaces a note's links. */
    method Upsert(path: string, links: seq<OutLink>)
      requires Valid()
      modifies this
      ensures Valid() && outLinks == Replaced(old(outLinks), path, links) && shown == Replaced(old(shown), path, links)
      ensures forall k :: SrcsAt(backlinks, k)
                == Filter(old(SrcsAt(backlinks, k)), NotFrom(path)) + Sources(path, links, k)
    {
      ReplaceTracks(shown, outLinks, path, links, links);
      ghost var out, drawn, back := outLinks, shown, backlinks;
      RemoveLocked(path);
      ReplacedAgain(out, path, links);
      ReplacedAgain(drawn, path, links);
      if |links| == 0 {
        return;
      }
      AppendAll(path, links);
      ReplaceMirrors(drawn, back, path, links, backlinks);
      outLinks := outLinks[path := links];
      shown := shown[path := links];
    }

    /** Updates by difference: only keys that come or go are touched. When the key sets
        agree nothing changes at all, not even the recorded links. */
    method UpsertDiff(path: string, current: seq<OutLink>, links: seq<OutLink>)
      requires Valid() && current == LinksAt(outLinks, path)
      requires DistinctKeys(current) && DistinctKeys(links)
      modifies this
      ensures Valid()
      ensures outLinks == if SameKeys(current, links) then old(outLinks) else Replaced(old(outLinks), path, links)
      ensures shown == if SameKeys(current, links) then old(shown)
                       else Replaced(old(shown), path, Retained(LinksAt(old(shown), path), links))
      ensures SameKeys(current, links) ==> backlinks == old(backlinks)
    {
      if |current| == 0 && |links| == 0 {
        return;
      }
      var oldSet, newSet := KeySet(current), KeySet(links);
      KeySetSize(current);
      KeySetSize(links);
      if |current| == |links| && oldSet <= newSet {
        EqualSizeSubset(oldSet, newSet);
        return;
      }
      ApplyDiff(path, current, links, oldSet, newSet);
    }

    method ApplyDiff(path: string, current: seq<OutLink>, links: seq<OutLink>, oldSet: set<string>, newSet: set<string>)
      requires Valid() && current == LinksAt(outLinks, path)
      requires DistinctKeys(current) && DistinctKeys(links) && oldSet == KeySet(current) && newSet == KeySet(links)
      modifies this
      ensures Valid() && outLinks == Replaced(old(outLinks), path, links)
      ensures shown == Replaced(old(shown), path, Retained(LinksAt(old(shown), path), links))
    {
      ghost var back := backlinks;
      DropOld(path, current, newSet);
      var added := OnlyLinks(links, oldSet);
      AppendAll(path, added);
      DiffTracks(shown, outLinks, back, path, current, links, backlinks);
      outLinks := if |links| == 0 then outLinks - {path} else outLinks[path := links];
      shown := Replaced(shown, path, Retained(LinksAt(shown, path), links));
    }

    /** Drops a note's entries under every current key that is not among the new ones. */
    method DropOld(path: string, current: seq<OutLink>, newSet: set<string>)
      requires forall k :: k in backlinks ==> backlinks[k] != []
      modifies this`backlinks
      ensures forall k :: SrcsAt(backlinks, k) == Dropped(old(SrcsAt(backlinks, k)), Only(current, newSet), k, path)
      ensures forall k :: k in backlinks ==> backlinks[k] != []
    {
      ghost var back := backlinks;
      for i := 0 to |current|
        invariant forall k :: SrcsAt(backlinks, k)
                    == Dropped(SrcsAt(back, k), Only(current[..i], newSet), k, path)
        invariant forall k :: k in backlinks ==> backlinks[k] != []
      {
        ghost var before := backlinks;
        if current[i].targetKey !in newSet {
          DropEntries(current[i].targetKey, path);
        }
        forall k ensures SrcsAt(backlinks, k) == Dropped(SrcsAt(back, k), Only(current[..i + 1], newSet), k, path) {
          DropOnlyStep(current, newSet, i, k, path, SrcsAt(back, k), SrcsAt(before, k), SrcsAt(backlinks, k));
        }
      }
      assert current[..|current|] == current;
    }
  }

  lemma FilterTwice(s: seq<BacklinkSrc>, p: BacklinkSrc -> bool)
    ensures Filter(Filter(s, p), p) == Filter(s, p)
  {
    forall i | 0 <= i < |Filter(s, p)| ensures p(Filter(s, p)[i]) {
      FilterMember(s, p, Filter(s, p)[i]);
    }
    FilterAll(Filter(s, p), p);
  }

  lemma AppendStep(links: seq<OutLink>, i: nat, k: string, path: string,
                   original: seq<BacklinkSrc>, before: seq<BacklinkSrc>, after: seq<BacklinkSrc>)
    requires i < |links|
    requires before == original + Sources(path, links[..i], k)
    requires after == if k == links[i].targetKey then before + [BacklinkSrc(path, links[i].isAsset)] else before
    ensures after == original + Sources(path, links[..i + 1], k)
  {
    SourcesStep(links, i, k, path);
  }

  lemma SourcesStep(links: seq<OutLink>, i: nat, k: string, path: string)
    requires i < |links|
    ensures Sources(path, links[..i + 1], k)
         == Sources(path, links[..i], k) + if k == links[i].targetKey then [BacklinkSrc(path, links[i].isAsset)] else []
  {
    assert links[..i + 1][..i] == links[..i];
  }

  lemma DropStep(links: seq<OutLink>, i: nat, k: string, path: string,
                 original: seq<BacklinkSrc>, before: seq<BacklinkSrc>, after: seq<BacklinkSrc>)
    requires i < |links|
    requires before == Dropped(original, links[..i], k, path)
    requires after == if k == links[i].targetKey then Filter(before, NotFrom(path)) else before
    ensures after == Dropped(original, links[..i + 1], k, path)
  {
    FilterTwice(original, NotFrom(path));
    assert links[..i + 1] == links[..i] + [links[i]];
    if LinksTo(links[..i], k) {
      var j :| 0 <= j < i && links[..i][j].targetKey == k;
      assert links[..i + 1][j].targetKey == k;
    }
    if k == links[i].targetKey { assert links[..i + 1][i].targetKey == k; }
  }

  // ----- Updating by difference -----

  function KeySet(links: seq<OutLink>): set<string> {
    set i | 0 <= i < |links| :: links[i].targetKey
  }

  /** The links whose key is not among keys. */
  function Only(links: seq<OutLink>, keys: set<string>): seq<OutLink> {
    Filter(links, KeyNotIn(keys))
  }

  function KeyNotIn(keys: set<string>): OutLink -> bool {
    (l: OutLink) => l.targetKey !in keys
  }

  method OnlyLinks(links: seq<OutLink>, keys: set<string>) returns (r: seq<OutLink>)
    ensures r == Only(links, keys)
  {
    r := [];
    for i := 0 to |links|
      invariant r == Only(links[..i], keys)
    {
      assert links[..i + 1] == links[..i] + [links[i]];
      FilterAppend(links[..i], [links[i]], KeyNotIn(keys));
      if links[i].targetKey !in keys {
        r := r + [links[i]];
      }
    }
    assert links[..|links|] == links;
  }

  ghost predicate SameKeys(a: seq<OutLink>, b: seq<OutLink>) {
    KeySet(a) == KeySet(b)
  }

  lemma KeySetFront(links: seq<OutLink>)
    requires links != []
    ensures KeySet(links) == KeySet(links[..|links| - 1]) + {links[|links| - 1].targetKey}
  {
    var front, last := links[..|links| - 1], links[|links| - 1];
    assert links == front + [last];
    forall k | k in KeySet(front) ensures k in KeySet(links) {
      var i :| 0 <= i < |front| && front[i].targetKey == k;
      assert links[i].targetKey == k;
    }
    forall k | k in KeySet(links) ensures k in KeySet(front) + {last.targetKey} {
      var i :| 0 <= i < |links| && links[i].targetKey == k;
      if i < |front| { assert front[i].targetKey == k; }
    }
  }

  lemma {:induction false} KeySetSize(links: seq<OutLink>)
    requires DistinctKeys(links)
    ensures |KeySet(links)| == |links|
  {
    if links != [] {
      KeySetFront(links);
      KeySetSize(links[..|links| - 1]);
    }
  }

  lemma EqualSizeSubset(a: set<string>, b: set<string>)
    requires a <= b && |a| == |b|
    ensures a == b
  {
    assert |b - a| == |b| - |a|;
  }

  /** The link to key, if there is one. */
  function FindLink(links: seq<OutLink>, key: string): (r: Option<OutLink>)
    ensures r.Some? ==> r.value.targetKey == key
  {
    if links == [] then None
    else if links[|links| - 1].targetKey == key then Some(links[|links| - 1])
    else FindLink(links[..|links| - 1], key)
  }

  lemma {:induction false} FoundIffKey(links: seq<OutLink>, key: string)
    ensures FindLink(links, key).Some? <==> key in KeySet(links)
    ensures LinksTo(links, key) <==> key in KeySet(links)
  {
    if links != [] {
      KeySetFront(links);
      FoundIffKey(links[..|links| - 1], key);
    }
  }

  lemma {:induction false} LinkCount(links: seq<OutLink>, l: OutLink)
    requires DistinctKeys(links)
    ensures multiset(links)[l] == if FindLink(links, l.targetKey) == Some(l) then 1 else 0
  {
    if links != [] {
      var front, last := links[..|links| - 1], links[|links| - 1];
      assert links == front + [last];
      LinkCount(front, l);
      if last.targetKey == l.targetKey { AbsentKey(front, l); }
    }
  }

  lemma AbsentKey(links: seq<OutLink>, l: OutLink)
    requires forall i :: 0 <= i < |links| ==> links[i].targetKey != l.targetKey
    ensures multiset(links)[l] == 0
  {
    assert l !in links;
    assert l in multiset(links) <==> l in links;
  }

  /** A link as it comes out of a difference update: one that was there before keeps its
      old asset flag. */
  function RetainedLink(current: seq<OutLink>, l: OutLink): OutLink {
    match FindLink(current, l.targetKey)
    case Some(kept) => kept
    case None => l
  }

  function Retained(current: seq<OutLink>, links: seq<OutLink>): seq<OutLink> {
    seq(|links|, i requires 0 <= i < |links| => RetainedLink(current, links[i]))
  }

  lemma {:induction false} FindRetained(current: seq<OutLink>, links: seq<OutLink>, key: string)
    ensures FindLink(Retained(current, links), key) ==
      (match FindLink(links, key) case None => None case Some(l) => Some(RetainedLink(current, l)))
    decreases |links|
  {
    if links != [] {
      var n := |links| - 1;
      assert Retained(current, links)[..n] == Retained(current, links[..n]);
      assert Retained(current, links)[n] == RetainedLink(current, links[n]);
      FindRetained(current, links[..n], key);
    }
  }

  lemma RetainedDistinct(current: seq<OutLink>, links: seq<OutLink>)
    requires DistinctKeys(links)
    ensures DistinctKeys(Retained(current, links))
  {
    forall i | 0 <= i < |links| ensures Retained(current, links)[i].targetKey == links[i].targetKey { }
  }

  /** How often back' holds an entry under k: as often as back for other notes, and as the
      new links say for this one. */
  ghost predicate EntryCounts(back: BackLinks, path: string, links: seq<OutLink>, back': BackLinks, k: string,
                              p: string, a: bool) {
    multiset(SrcsAt(back', k))[BacklinkSrc(p, a)] ==
      if p != path then multiset(SrcsAt(back, k))[BacklinkSrc(p, a)]
      else if FindLink(links, k) == Some(OutLink(k, a)) then 1 else 0
  }

  /** New inverse lists that hold the right entries of one note mirror its new links. */
  lemma EntriesMirror(out: OutLinks, back: BackLinks, path: string, links: seq<OutLink>, back': BackLinks)
    requires Inverse(out, back) && DistinctKeys(links)
    requires forall k, p, a :: EntryCounts(back, path, links, back', k, p, a)
    requires forall k :: k in back' ==> back'[k] != []
    ensures Inverse(Replaced(out, path, links), back')
  {
    var out' := Replaced(out, path, links);
    forall k, p, a ensures Mirrored(out', back', k, p, a) {
      assert Mirrored(out, back, k, p, a) && EntryCounts(back, path, links, back', k, p, a);
      LinkCount(links, OutLink(k, a));
      assert LinksAt(out', p) == if p == path then links else LinksAt(out, p);
    }
  }

  lemma OnlyHas(links: seq<OutLink>, keys: set<string>, k: string)
    ensures LinksTo(Only(links, keys), k) <==> LinksTo(links, k) && k !in keys
  {
    FilterMembers(links, KeyNotIn(keys));
    var only := Only(links, keys);
    if LinksTo(only, k) {
      var i :| 0 <= i < |only| && only[i].targetKey == k;
      assert only[i] in only;
    }
    if LinksTo(links, k) && k !in keys {
      var i :| 0 <= i < |links| && links[i].targetKey == k;
      assert links[i] in only;
    }
  }

  lemma DropOnlyStep(links: seq<OutLink>, keys: set<string>, i: nat, k: string, path: string,
                     original: seq<BacklinkSrc>, before: seq<BacklinkSrc>, after: seq<BacklinkSrc>)
    requires i < |links|
    requires before == Dropped(original, Only(links[..i], keys), k, path)
    requires after == if k == links[i].targetKey && k !in keys then Filter(before, NotFrom(path)) else before
    ensures after == Dropped(original, Only(links[..i + 1], keys), k, path)
  {
    FilterTwice(original, NotFrom(path));
    assert links[..i + 1] == links[..i] + [links[i]];
    FilterAppend(links[..i], [links[i]], KeyNotIn(keys));
    OnlyHas(links[..i], keys, k);
    OnlyHas(links[..i + 1], keys, k);
    if LinksTo(links[..i], k) {
      var j :| 0 <= j < i && links[..i][j].targetKey == k;
      assert links[..i + 1][j].targetKey == k;
    }
    if k == links[i].targetKey { assert links[..i + 1][i].targetKey == k; }
    if LinksTo(links[..i + 1], k) && k != links[i].targetKey {
      var j :| 0 <= j < i + 1 && links[..i + 1][j].targetKey == k;
      assert links[..i][j].targetKey == k;
    }
  }

  /** Entries under one key after a difference update. */
  lemma DiffEntries(out: OutLinks, back: BackLinks, path: string, current: seq<OutLink>, links: seq<OutLink>,
                    k: string, srcs: seq<BacklinkSrc>, s: BacklinkSrc)
    requires Inverse(out, back) && current == LinksAt(out, path)
    requires DistinctKeys(current) && DistinctKeys(links)
    requires srcs == Dropped(SrcsAt(back, k), Only(current, KeySet(links)), k, path)
                     + Sources(path, Only(links, KeySet(current)), k)
    ensures multiset(srcs)[s] ==
      if s.path != path then multiset(SrcsAt(back, k))[s]
      else if FindLink(Retained(current, links), k) == Some(OutLink(k, s.isAsset)) then 1 else 0
  {
    var l := OutLink(k, s.isAsset);
    FilteredCount(SrcsAt(back, k), path, s);
    SourcesCount(path, Only(links, KeySet(current)), k, s);
    FilterCount(links, KeyNotIn(KeySet(current)), l);
    OnlyHas(current, KeySet(links), k);
    FoundIffKey(current, k);
    FoundIffKey(links, k);
    FindRetained(current, links, k);
    LinkCount(current, l);
    LinkCount(links, l);
    assert Mirrored(out, back, k, s.path, s.isAsset);
  }

  lemma DiffMirrors(out: OutLinks, back: BackLinks, path: string, current: seq<OutLink>, links: seq<OutLink>,
                    back': BackLinks)
    requires Inverse(out, back) && current == LinksAt(out, path)
    requires DistinctKeys(current) && DistinctKeys(links)
    requires forall k :: SrcsAt(back', k) == Dropped(SrcsAt(back, k), Only(current, KeySet(links)), k, path)
                                             + Sources(path, Only(links, KeySet(current)), k)
    requires forall k :: k in back' ==> back'[k] != []
    ensures Inverse(Replaced(out, path, Retained(current, links)), back')
  {
    RetainedDistinct(current, links);
    forall k, p, a ensures EntryCounts(back, path, Retained(current, links), back', k, p, a) {
      DiffEntries(out, back, path, current, links, k, SrcsAt(back', k), BacklinkSrc(p, a));
    }
    EntriesMirror(out, back, path, Retained(current, links), back');
  }

  /** The same, in a graph whose shown links may have drifted from the recorded ones. */
  lemma DiffTracks(shown: OutLinks, out: OutLinks, back: BackLinks, path: string, current: seq<OutLink>,
                   links: seq<OutLink>,
                   back': BackLinks)
    requires Inverse(shown, back) && Tracks(shown, out) && current == LinksAt(out, path)
    requires DistinctKeys(current) && DistinctKeys(links)
    requires forall k :: SrcsAt(back', k) == Dropped(SrcsAt(back, k), Only(current, KeySet(links)), k, path)
                                             + Sources(path, Only(links, KeySet(current)), k)
    requires forall k :: k in back' ==> back'[k] != []
    ensures Inverse(Replaced(shown, path, Retained(LinksAt(shown, path), links)), back')
    ensures Tracks(Replaced(shown, path, Retained(LinksAt(shown, path), links)), Replaced(out, path, links))
  {
    var was := LinksAt(shown, path);
    assert TracksAt(shown, out, path);
    forall k ensures Dropped(SrcsAt(back, k), Only(was, KeySet(links)), k, path)
                  == Dropped(SrcsAt(back, k), Only(current, KeySet(links)), k, path)
    {
      OnlyHas(was, KeySet(links), k);
      OnlyHas(current, KeySet(links), k);
      SameKeysSameLinks(was, current, k);
    }
    DiffMirrors(shown, back, path, was, links, back');
    RetainedKeys(was, links);
    RetainedDistinct(was, links);
    ReplaceTracks(shown, out, path, Retained(was, links), links);
  }

  lemma RetainedKeys(current: seq<OutLink>, links: seq<OutLink>)
    ensures SameKeys(Retained(current, links), links)
  {
    var r := Retained(current, links);
    forall i | 0 <= i < |links| ensures r[i].targetKey == links[i].targetKey { }
    forall k | k in KeySet(r) ensures k in KeySet(links) {
      var i :| 0 <= i < |r| && r[i].targetKey == k;
      assert links[i].targetKey == k;
    }
    forall k | k in KeySet(links) ensures k in KeySet(r) {
      var i :| 0 <= i < |links| && links[i].targetKey == k;
      assert r[i].targetKey == k;
    }
  }

  // ----- When the difference update agrees with the plain one -----

  /** Every key in both lists carries the same asset flag in both. */
  ghost predicate FlagsKept(current: seq<OutLink>, links: seq<OutLink>) {
    forall k :: FindLink(current, k).Some? && FindLink(links, k).Some? ==> FindLink(current, k) == FindLink(links, k)
  }

  lemma RetainedIsLinks(current: seq<OutLink>, links: seq<OutLink>)
    requires DistinctKeys(links) && FlagsKept(current, links)
    ensures Retained(current, links) == links
  {
    forall i | 0 <= i < |links| ensures RetainedLink(current, links[i]) == links[i] {
      LinkCount(links, links[i]);
      assert links[i] in multiset(links);
    }
  }

  /** Whatever order the entries are in, the difference update gives the relation of the
      plain update exactly when every retained key keeps its asset flag. */
  lemma DiffAgreesIff(out: OutLinks, path: string, current: seq<OutLink>, links: seq<OutLink>, diff: BackLinks,
                      plain: BackLinks)
    requires DistinctKeys(current) && DistinctKeys(links)
    requires Inverse(Replaced(out, path, Retained(current, links)), diff)
    requires Inverse(Replaced(out, path, links), plain)
    ensures (forall k :: multiset(SrcsAt(diff, k)) == multiset(SrcsAt(plain, k))) <==> FlagsKept(current, links)
  {
    if FlagsKept(current, links) {
      RetainedIsLinks(current, links);
      forall k ensures multiset(SrcsAt(diff, k)) == multiset(SrcsAt(plain, k)) {
        InverseDetermined(Replaced(out, path, links), diff, plain, k);
      }
    } else {
      var k :| FindLink(current, k).Some? && FindLink(links, k).Some? && FindLink(current, k) != FindLink(links, k);
      DiffDiffersAt(out, path, current, links, diff, plain, k);
    }
  }

  lemma DiffDiffersAt(out: OutLinks, path: string, current: seq<OutLink>, links: seq<OutLink>,
                      diff: BackLinks, plain: BackLinks, k: string)
    requires DistinctKeys(current) && DistinctKeys(links)
    requires Inverse(Replaced(out, path, Retained(current, links)), diff)
    requires Inverse(Replaced(out, path, links), plain)
    requires FindLink(current, k).Some? && FindLink(links, k).Some? && FindLink(current, k) != FindLink(links, k)
    ensures multiset(SrcsAt(diff, k)) != multiset(SrcsAt(plain, k))
  {
    var l := FindLink(links, k).value;
    RetainedDistinct(current, links);
    FindRetained(current, links, k);
    LinkCount(Retained(current, links), l);
    LinkCount(links, l);
    var out1, out2 := Replaced(out, path, Retained(current, links)), Replaced(out, path, links);
    assert LinksAt(out1, path) == Retained(current, links) && LinksAt(out2, path) == links;
    assert Mirrored(out1, diff, k, path, l.isAsset) && Mirrored(out2, plain, k, path, l.isAsset);
  }

  /** After a difference update the graph's two sides still mirror each other exactly when the
      keys did not change at all or every retained key keeps its asset flag. */
  lemma DiffStaysInverseIff(out: OutLinks, path: string, current: seq<OutLink>, links: seq<OutLink>, out': OutLinks,
                            diff: BackLinks)
    requires DistinctKeys(current) && DistinctKeys(links) && current == LinksAt(out, path)
    requires forall p :: p in out ==> out[p] != []
    requires out' == if SameKeys(current, links) then out else Replaced(out, path, links)
    requires Inverse(Replaced(out, path, Retained(current, links)), diff)
    requires SameKeys(current, links) ==> Inverse(out, diff)
    ensures Inverse(out', diff) <==> SameKeys(current, links) || FlagsKept(current, links)
  {
    if !SameKeys(current, links) {
      if FlagsKept(current, links) {
        RetainedIsLinks(current, links);
      } else if Inverse(out', diff) {
        DiffAgreesIff(out, path, current, links, diff, diff);
      }
    }
  }
}
