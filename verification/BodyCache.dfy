/** The remote vault's cache of note bodies: bounded in bytes, evicting the oldest first. */
module BodyCaches {
  import opened Sequences
  import opened Domain

  datatype Note = Note(ref: NoteRef, body: string, etag: string)

  const MAX_BYTES: nat := 64 * 1024 * 1024
  const TTL: int := 300_000_000_000

  function SizeOf(n: Note): (size: nat)
    ensures size >= 64
  {
    |n.body| + |n.etag| + |n.ref.path| + 64
  }

  /** A list element; elements are told apart by identity. */
  class Element {
    const path: string
    const note: Note
    const expiry: int
    const sizeB: nat

    constructor (path: string, note: Note, expiry: int, sizeB: nat)
      ensures this.path == path && this.note == note && this.expiry == expiry && this.sizeB == sizeB
    {
      this.path, this.note, this.expiry, this.sizeB := path, note, expiry, sizeB;
    }
  }

  // ----- The list, oldest first -----

  ghost function Total(order: seq<Element>): nat {
    if order == [] then 0 else order[0].sizeB + Total(order[1..])
  }

  lemma {:induction false} TotalAppend(a: seq<Element>, b: seq<Element>)
    ensures Total(a + b) == Total(a) + Total(b)
  {
    if a == [] {
      assert a + b == b;
    } else {
      assert (a + b)[1..] == a[1..] + b;
      TotalAppend(a[1..], b);
    }
  }

  function Except(e: Element): Element -> bool {
    x => x != e
  }

  lemma {:induction false} TotalWithout(order: seq<Element>, e: Element)
    requires NoDuplicates(order) && e in order
    ensures Total(Filter(order, Except(e))) == Total(order) - e.sizeB
  {
    if order[0] == e {
      FilterAll(order[1..], Except(e));
    } else {
      TotalWithout(order[1..], e);
    }
  }

  /** The first k elements are the fewest, oldest first, whose removal makes room for size more
      bytes; all of them when no removal is enough. */
  ghost predicate ShortestPrefix(order: seq<Element>, k: int, size: nat) {
    && 0 <= k <= |order|
    && (k < |order| ==> Total(order[k..]) + size <= MAX_BYTES)
    && forall j :: 0 <= j < k ==> Total(order[j..]) + size > MAX_BYTES
  }

  lemma TotalOfSuffix(order: seq<Element>, i: nat, k: nat)
    requires i <= k <= |order|
    ensures Total(order[k..]) <= Total(order[i..])
  {
    assert order[i..] == order[i..k] + order[k..];
    TotalAppend(order[i..k], order[k..]);
  }

  /** An element is evicted exactly when it, everything newer and the new note do not fit. */
  lemma EvictedIff(order: seq<Element>, k: int, size: nat, i: nat)
    requires ShortestPrefix(order, k, size) && i < |order|
    ensures i < k <==> Total(order[i..]) + size > MAX_BYTES
  {
    if k <= i { TotalOfSuffix(order, k, i); }
  }

  // ----- Map and list -----

  ghost predicate Matched(entries: map<string, Element>, order: seq<Element>) {
    && NoDuplicates(order)
    && (forall p :: p in entries ==> entries[p].path == p && entries[p] in order)
    && (forall i :: 0 <= i < |order| ==> order[i].path in entries && entries[order[i].path] == order[i])
    && (forall i :: 0 <= i < |order| ==> order[i].sizeB == SizeOf(order[i].note))
  }

  lemma MatchedWithout(entries: map<string, Element>, order: seq<Element>, e: Element)
    requires Matched(entries, order) && e in order
    ensures Matched(entries - {e.path}, Filter(order, Except(e)))
    ensures Total(Filter(order, Except(e))) == Total(order) - e.sizeB
  {
    var order' := Filter(order, Except(e));
    FilterNoDuplicates(order, Except(e));
    TotalWithout(order, e);
    forall p | p in entries && p != e.path ensures entries[p] in order' {
      FilterMember(order, Except(e), entries[p]);
    }
    forall i | 0 <= i < |order'|
      ensures order'[i].path in entries - {e.path} && entries[order'[i].path] == order'[i]
      ensures order'[i].sizeB == SizeOf(order'[i].note)
    {
      FilterMember(order, Except(e), order'[i]);
    }
  }

  lemma MatchedWith(entries: map<string, Element>, order: seq<Element>, e: Element)
    requires Matched(entries, order) && e !in order && e.path !in entries && e.sizeB == SizeOf(e.note)
    ensures Matched(entries[e.path := e], order + [e])
    ensures Total(order + [e]) == Total(order) + e.sizeB
  {
    TotalAppend(order, [e]);
    assert Total([e]) == e.sizeB;
    var entries', order' := entries[e.path := e], order + [e];
    forall i | 0 <= i < |order'|
      ensures order'[i].path in entries' && entries'[order'[i].path] == order'[i]
      ensures order'[i].sizeB == SizeOf(order'[i].note)
    {
      if i < |order| { assert order'[i] == order[i]; }
    }
  }

  lemma StillAbsent(entries: map<string, Element>, order: seq<Element>, entries': map<string, Element>,
                    order': seq<Element>,
                    k: nat, path: string)
    requires Matched(entries, order) && Matched(entries', order') && k <= |order| && order' == order[k..]
    requires path !in entries
    ensures path !in entries'
    ensures forall e :: e in order' ==> e in order
  {
    assert forall p :: p in entries' ==> entries'[p] in order';
  }

  /** Removing the head of a list without repeats leaves its tail. */
  lemma HeadRemoved(order: seq<Element>)
    requires NoDuplicates(order) && order != []
    ensures Filter(order, Except(order[0])) == order[1..]
  {
    FilterAll(order[1..], Except(order[0]));
  }

  /** So far the first k elements went, each because it and all newer ones did not fit. */
  ghost predicate Evicting(was: seq<Element>, order: seq<Element>, k: nat, size: nat) {
    k <= |was| && order == was[k..] && forall j :: 0 <= j < k ==> Total(was[j..]) + size > MAX_BYTES
  }

  lemma EvictStep(was: seq<Element>, order: seq<Element>, k: nat, size: nat)
    requires Evicting(was, order, k, size) && NoDuplicates(order) && order != [] && Total(order) + size > MAX_BYTES
    ensures Evicting(was, Filter(order, Except(order[0])), k + 1, size)
    ensures |Filter(order, Except(order[0]))| < |order|
  {
    HeadRemoved(order);
  }

  // ----- What was stored last -----

  datatype Stored = Stored(note: Note, expiry: int)

  /** Every cached body is the one stored last for its path and not invalidated since. */
  ghost predicate Latest(entries: map<string, Element>, stored: map<string, Stored>) {
    forall p :: p in entries ==> p in stored && stored[p] == Stored(entries[p].note, entries[p].expiry)
  }

  function Remaining(order: seq<Element>, entries: map<string, Element>, path: string): seq<Element> {
    if path in entries then Filter(order, Except(entries[path])) else order
  }

  /** Every element counts the bytes of body, tag and path, and 64 more. */
  ghost predicate Weighed(order: seq<Element>) {
    forall i :: 0 <= i < |order| ==>
      var n := order[i].note;
      order[i].sizeB == |n.body| + |n.etag| + |n.ref.path| + 64
  }

  class BodyCache {
    var entries: map<string, Element>
    var order: seq<Element>
    var sizeB: int
    /** The last Set of each path that no later invalidation undid, evicted or not. */
    ghost var stored: map<string, Stored>

    constructor ()
      ensures Valid() && entries == map[] && stored == map[]
    {
      entries, order, sizeB, stored := map[], [], 0, map[];
    }

    ghost predicate Valid()
      reads this
    {
      && Matched(entries, order)
      && sizeB == Total(order) <= MAX_BYTES
      && Latest(entries, stored)
    }

    /** The cache counts every element's bytes and stays within 64 MiB. */
    lemma WithinBound()
      requires Valid()
      ensures sizeB == Total(order) <= 67_108_864 && Weighed(order)
    {
    }

    method RemoveLocked(path: string, elem: Element, size: nat)
      requires Valid() && elem in order && path == elem.path && size == elem.sizeB
      modifies this`entries, this`order, this`sizeB
      ensures Valid()
      ensures order == Filter(old(order), Except(elem)) && entries == old(entries) - {path}
    {
      MatchedWithout(entries, order, elem);
      order := Filter(order, Except(elem));
      entries := entries - {path};
      sizeB := sizeB - size;
    }

    /** A hit returns the note stored last for the path, still in its lifetime; an expired
        entry is dropped. */
    method Get(path: string, now: int) returns (r: Option<Note>)
      requires Valid()
      modifies this`entries, this`order, this`sizeB
      ensures Valid()
      ensures r.Some? <==> path in old(entries) && now <= old(entries)[path].expiry
      ensures r.Some? ==> path in stored && r.value == stored[path].note && now <= stored[path].expiry
      ensures r.Some? || path !in old(entries) ==> entries == old(entries) && order == old(order)
      ensures r.None? ==> entries == old(entries) - {path} && order == Remaining(old(order), old(entries), path)
    {
      if path !in entries {
        assert entries - {path} == entries;
        return None;
      }
      var e := entries[path];
      if now > e.expiry {
        RemoveLocked(path, e, e.sizeB);
        return None;
      }
      r := Some(e.note);
    }

    /** Evicts from the front until size more bytes fit or nothing is left. */
    method EvictFor(size: nat) returns (ghost k: nat)
      requires Valid()
      modifies this`entries, this`order, this`sizeB
      ensures Valid() && ShortestPrefix(old(order), k, size) && order == old(order)[k..]
    {
      ghost var was := order;
      k := 0;
      while sizeB + size > MAX_BYTES && |order| > 0
        invariant Valid() && Evicting(was, order, k, size)
        decreases |order|
      {
        EvictFront(was, k, size);
        k := k + 1;
      }
    }

    method EvictFront(ghost was: seq<Element>, ghost k: nat, ghost size: nat)
      requires Valid() && Evicting(was, order, k, size) && order != [] && sizeB + size > MAX_BYTES
      modifies this`entries, this`order, this`sizeB
      ensures Valid() && Evicting(was, order, k + 1, size) && |order| < |old(order)|
    {
      EvictStep(was, order, k, size);
      RemoveLocked(order[0].path, order[0], order[0].sizeB);
    }

    /** Replaces the path's entry, evicts the shortest oldest-first prefix that makes room, and
        appends. A note over the limit empties the cache and is not kept. */
    method Set(path: string, n: Note, now: int) returns (ghost k: nat)
      requires Valid()
      modifies this
      ensures Valid() && stored == old(stored)[path := Stored(n, now + 300 * 1_000_000_000)]
      ensures ShortestPrefix(Remaining(old(order), old(entries), path), k, SizeOf(n))
      ensures SizeOf(n) > MAX_BYTES ==> order == [] && entries == map[]
      ensures SizeOf(n) <= MAX_BYTES ==>
                && path in entries && entries[path].note == n && entries[path].expiry == now + TTL
                && order == Remaining(old(order), old(entries), path)[k..] + [entries[path]]
    {
      Drop(path);
      k := Store(path, n, now);
    }

    /** Stores the body of a path that has no entry. */
    method Store(path: string, n: Note, now: int) returns (ghost k: nat)
      requires Valid() && path !in entries
      modifies this
      ensures Valid() && stored == old(stored)[path := Stored(n, now + TTL)]
      ensures ShortestPrefix(old(order), k, SizeOf(n))
      ensures SizeOf(n) > MAX_BYTES ==> order == [] && entries == map[]
      ensures SizeOf(n) <= MAX_BYTES ==>
                && path in entries && entries[path].note == n && entries[path].expiry == now + TTL
                && order == old(order)[k..] + [entries[path]]
    {
      var size := SizeOf(n);
      k := MakeRoom(path, size);
      stored := stored[path := Stored(n, now + TTL)];
      if size > MAX_BYTES {
        EmptyEntries(entries, order);
        return;
      }
      Push(path, n, now + TTL, size);
    }

    /** Evicts for a path that has no entry, and leaves it without one. */
    method MakeRoom(path: string, size: nat) returns (ghost k: nat)
      requires Valid() && path !in entries
      modifies this`entries, this`order, this`sizeB
      ensures Valid() && path !in entries && ShortestPrefix(old(order), k, size) && order == old(order)[k..]
      ensures size <= MAX_BYTES ==> sizeB + size <= MAX_BYTES
      ensures size > MAX_BYTES ==> order == []
    {
      ghost var kept, keptEntries := order, entries;
      k := EvictFor(size);
      StillAbsent(keptEntries, kept, entries, order, k, path);
    }

    method Drop(path: string)
      requires Valid()
      modifies this`entries, this`order, this`sizeB
      ensures Valid() && path !in entries
      ensures entries == old(entries) - {path} && order == Remaining(old(order), old(entries), path)
    {
      if path in entries {
        RemoveLocked(path, entries[path], entries[path].sizeB);
      }
    }

    method Push(path: string, n: Note, expiry: int, size: nat)
      requires Valid() && path !in entries && path in stored && stored[path] == Stored(n, expiry)
      requires size == SizeOf(n) && sizeB + size <= MAX_BYTES
      modifies this`entries, this`order, this`sizeB
      ensures Valid() && path in entries && entries[path].note == n && entries[path].expiry == expiry
      ensures order == old(order) + [entries[path]]
    {
      var e := new Element(path, n, expiry, size);
      MatchedWith(entries, order, e);
      order := order + [e];
      entries := entries[path := e];
      sizeB := sizeB + size;
    }

    method Invalidate(path: string)
      requires Valid()
      modifies this
      ensures Valid() && stored == old(stored) - {path}
      ensures entries == old(entries) - {path} && order == Remaining(old(order), old(entries), path)
    {
      Drop(path);
      stored := stored - {path};
    }

    method InvalidateAll()
      modifies this
      ensures Valid() && stored == map[] && entries == map[] && order == []
    {
      entries, order, sizeB := map[], [], 0;
      stored := map[];
    }
  }

  lemma EmptyEntries(entries: map<string, Element>, order: seq<Element>)
    requires Matched(entries, order) && order == []
    ensures entries == map[]
  {
    assert forall p :: p in entries ==> entries[p] in order;
  }
}
