/** What tombstoned notes that are still in a vault do to chains of federated calls: which notes
    come twice, which never come, and when paging behaves as if those notes were gone. */
module ChainTombstones {
  import opened Sequences
  import opened Domain
  import opened LocalVaults
  import opened Pagination
  import opened CursorChains
  import opened ChainOrder

  // ----- What a page holds of a scope -----

  /** The live notes of a window come onto a page in order: none is skipped. */
  lemma PageDownClosed(w: World, v: Visit, sc: ScopeID, i: nat, j: nat)
    requires Valid(w) && Answered(w, v) && NoDuplicates(v.call.scopes)
    requires LiveAt(w, sc, i) && LiveAt(w, sc, j) && StartOf(v.call, sc) <= i <= j && w.lists[sc][j] in v.page.notes
    ensures w.lists[sc][i] in v.page.notes
  {
    var f, got, list := Contribution(w, v.call, sc), Restrict(v.page.notes, sc), w.lists[sc];
    PageRestricts(w, v.call, v.arrival, v.all, v.page, sc);
    FilterMember(v.page.notes, InScope(sc), list[j]);
    PrefixMember(got, f, list[j]);
    ContributionHolds(w, v.call, sc, j);
    ContributionHolds(w, v.call, sc, i);
    ContributionListing(w, v.call, sc);
    PrefixDownClosed(w.leq, list, f, got, i, j);
    FilterMember(v.page.notes, InScope(sc), list[i]);
  }

  lemma PrefixDownClosed(leq: (NoteSummary, NoteSummary) -> bool, list: seq<NoteSummary>, f: seq<NoteSummary>,
                         got: seq<NoteSummary>, i: nat, j: nat)
    requires PathOrder(leq) && SortedBy(leq, list) && DistinctPaths(list) && SortedBy(leq, f) && DistinctPaths(f)
    requires IsPrefix(got, f) && i <= j < |list| && list[i] in f && list[j] in got
    ensures list[i] in got
  {
    var b :| 0 <= b < |got| && got[b] == list[j];
    var a :| 0 <= a < |f| && f[a] == list[i];
    assert f[b] == list[j];
    ListedInOrder(leq, list, f, i, j, a, b);
    assert got[a] == list[i];
  }

  lemma ListedInOrder(leq: (NoteSummary, NoteSummary) -> bool, list: seq<NoteSummary>, f: seq<NoteSummary>,
                      i: nat, j: nat, a: nat, b: nat)
    requires PathOrder(leq) && SortedBy(leq, list) && DistinctPaths(list) && SortedBy(leq, f) && DistinctPaths(f)
    requires i <= j < |list| && a < |f| && b < |f| && f[a] == list[i] && f[b] == list[j]
    ensures a <= b
  {
    assert i < j ==> leq(list[i], list[j]);
  }

  /** A note on a page is a live one of its scope's window. */
  lemma OnPage(w: World, v: Visit, x: NoteSummary) returns (i: nat)
    requires Valid(w) && Answered(w, v) && NoDuplicates(v.call.scopes) && x in v.page.notes
    ensures x.ref.scope in v.call.scopes && Answers(w, v.call, x.ref.scope) && LiveAt(w, x.ref.scope, i)
    ensures StartOf(v.call, x.ref.scope) <= i < WindowEnd(v.call, x.ref.scope) && w.lists[x.ref.scope][i] == x
  {
    var sc := x.ref.scope;
    FilterMember(v.page.notes, InScope(sc), x);
    PageRestricts(w, v.call, v.arrival, v.all, v.page, sc);
    assert x in Contribution(w, v.call, sc);
    i := ContributedFrom(w, v.call, sc, x);
  }

  lemma SamePosition(w: World, sc: ScopeID, i: nat, j: nat)
    requires Valid(w) && LiveAt(w, sc, i) && LiveAt(w, sc, j) && w.lists[sc][i] == w.lists[sc][j]
    ensures i == j
  {
  }

  lemma PageOnce(w: World, v: Visit)
    requires Valid(w) && Answered(w, v) && NoDuplicates(v.call.scopes)
    ensures NoDuplicates(v.page.notes)
  {
    forall x | x in v.page.notes ensures multiset(v.page.notes)[x] <= 1 {
      var sc := x.ref.scope;
      PageRestricts(w, v.call, v.arrival, v.all, v.page, sc);
      ContributionListing(w, v.call, sc);
      FilterCount(v.page.notes, InScope(sc), x);
      NoDuplicatesCount(Restrict(v.page.notes, sc), x);
    }
    CountAtMostOne(v.page.notes);
  }

  // ----- Which notes come twice -----

  /** The page already holds a note at or past the position from which the cursor resumes. */
  ghost predicate Rewinds(w: World, v: Visit, sc: ScopeID) {
    exists i :: ClampOffset(OffsetAt(v.page.offsets, sc)) <= i && LiveAt(w, sc, i) && w.lists[sc][i] in v.page.notes
  }

  ghost predicate Redelivers(w: World, vs: seq<Visit>, i: int, j: int, sc: ScopeID) {
    0 <= i < j < |vs| && Rewinds(w, vs[i], sc) && Restrict(vs[j].page.notes, sc) != []
  }

  ghost predicate NoRedelivery(w: World, vs: seq<Visit>) {
    forall i, j, sc :: !Redelivers(w, vs, i, j, sc)
  }

  /** No call before the last one rewinds the scope. */
  ghost predicate NoRewindYet(w: World, vs: seq<Visit>, sc: ScopeID) {
    forall k :: 0 <= k < |vs| - 1 ==> !Rewinds(w, vs[k], sc)
  }

  lemma NoRewindFront(w: World, vs: seq<Visit>, sc: ScopeID)
    requires |vs| > 1 && NoRewindYet(w, vs, sc)
    ensures NoRewindYet(w, vs[..|vs| - 1], sc) && !Rewinds(w, Last(vs[..|vs| - 1]), sc)
  {
    assert !Rewinds(w, vs[|vs| - 2], sc);
  }

  /** Without a rewind before it, a call resumes past everything delivered of a scope. */
  lemma {:induction false} PastDelivered(w: World, vs: seq<Visit>, sc: ScopeID, i: nat)
    requires Valid(w) && Chain(w, vs) && Begins(vs) && sc in Last(vs).call.scopes && NoRewindYet(w, vs, sc)
    requires LiveAt(w, sc, i) && w.lists[sc][i] in Delivered(vs[..|vs| - 1])
    ensures i < StartOf(Last(vs).call, sc)
  {
    var front := vs[..|vs| - 1];
    if |vs| > 1 {
      ChainFront(w, vs);
      OffsetCarried(w, vs, sc);
      NoRewindFront(w, vs, sc);
      DeliveredEarlier(front, w.lists[sc][i]);
      if w.lists[sc][i] !in Last(front).page.notes { PastDelivered(w, front, sc, i); }
    }
  }

  lemma NoRedeliveryFront(w: World, vs: seq<Visit>)
    requires vs != [] && NoRedelivery(w, vs)
    ensures NoRedelivery(w, vs[..|vs| - 1])
    ensures forall sc :: Restrict(Last(vs).page.notes, sc) != [] ==> NoRewindYet(w, vs, sc)
  {
    var front := vs[..|vs| - 1];
    forall i, j, sc ensures Redelivers(w, front, i, j, sc) ==> Redelivers(w, vs, i, j, sc) {
    }
    forall sc, k | Restrict(Last(vs).page.notes, sc) != [] && 0 <= k < |vs| - 1 ensures !Rewinds(w, vs[k], sc) {
      assert !Redelivers(w, vs, k, |vs| - 1, sc);
    }
  }

  lemma AppendOnce(a: seq<NoteSummary>, b: seq<NoteSummary>)
    requires NoDuplicates(a) && NoDuplicates(b) && forall x :: x in b ==> x !in a
    ensures NoDuplicates(a + b)
  {
    var s := a + b;
    forall i, j | 0 <= i < j < |s| ensures s[i] != s[j] {
      assert i >= |a| ==> s[i] == b[i - |a|];
      assert i < |a| ==> s[i] == a[i];
      assert j >= |a| ==> s[j] == b[j - |a|] && s[j] in b;
    }
  }

  lemma {:induction false} OnceWithoutRewind(w: World, vs: seq<Visit>)
    requires Valid(w) && Chain(w, vs) && Begins(vs) && NoRedelivery(w, vs)
    ensures NoDuplicates(Delivered(vs))
  {
    var front, v := vs[..|vs| - 1], Last(vs);
    StickyScopes(w, vs);
    PageOnce(w, v);
    if |vs| > 1 {
      ChainFront(w, vs);
      NoRedeliveryFront(w, vs);
      OnceWithoutRewind(w, front);
    } else {
      assert Delivered(front) == [];
    }
    forall x | x in v.page.notes ensures x !in Delivered(front) { NewOnPage(w, vs, x); }
    AppendOnce(Delivered(front), v.page.notes);
  }

  lemma NewOnPage(w: World, vs: seq<Visit>, x: NoteSummary)
    requires Valid(w) && Chain(w, vs) && Begins(vs) && NoRedelivery(w, vs) && x in Last(vs).page.notes
    ensures x !in Delivered(vs[..|vs| - 1])
  {
    StickyScopes(w, vs);
    var sc := x.ref.scope;
    var i := OnPage(w, Last(vs), x);
    FilterMember(Last(vs).page.notes, InScope(sc), x);
    NoRedeliveryFront(w, vs);
    if x in Delivered(vs[..|vs| - 1]) { PastDelivered(w, vs, sc, i); }
  }

  lemma ResumesFrom(w: World, vs: seq<Visit>, j: nat, sc: ScopeID)
    requires Chain(w, vs) && Begins(vs) && 0 < j < |vs| && sc in vs[j].call.scopes
    ensures sc in vs[j - 1].call.scopes && OffsetAt(vs[j].call.offsets, sc) == OffsetAt(vs[j - 1].page.offsets, sc)
  {
    VisitPlaced(w, vs, j - 1);
    assert Follows(vs[j - 1], vs[j]);
    FollowsKeeps(w, vs[j - 1], vs[j]);
  }

  lemma EmptyStands(w: World, v: Visit, sc: ScopeID)
    requires Answered(w, v) && sc in v.call.scopes && Restrict(v.page.notes, sc) == []
    ensures OffsetAt(v.page.offsets, sc) == OffsetAt(v.call.offsets, sc)
  {
  }

  /** While a scope delivers nothing its offset stands still. */
  lemma {:induction false} OffsetStands(w: World, vs: seq<Visit>, i: nat, j: nat, sc: ScopeID)
    requires Chain(w, vs) && Begins(vs) && i < j < |vs| && sc in vs[j].call.scopes
    requires forall k :: i < k < j ==> Restrict(vs[k].page.notes, sc) == []
    ensures OffsetAt(vs[j].call.offsets, sc) == OffsetAt(vs[i].page.offsets, sc)
    decreases j
  {
    ResumesFrom(w, vs, j, sc);
    if i < j - 1 {
      EmptyStands(w, vs[j - 1], sc);
      OffsetStands(w, vs, i, j - 1, sc);
    }
  }

  /** The next call after i that delivers something of the scope. */
  lemma {:induction false} NextDelivery(vs: seq<Visit>, i: nat, j: nat, sc: ScopeID) returns (m: nat)
    requires i < j < |vs| && Restrict(vs[j].page.notes, sc) != []
    ensures i < m <= j && Restrict(vs[m].page.notes, sc) != []
    ensures forall k :: i < k < m ==> Restrict(vs[k].page.notes, sc) == []
    decreases j
  {
    if k :| i < k < j && Restrict(vs[k].page.notes, sc) != [] {
      m := NextDelivery(vs, i, k, sc);
    } else {
      m := j;
    }
  }

  /** The first live position from a given one on. */
  lemma {:induction false} FirstLive(w: World, sc: ScopeID, from: nat, i: nat) returns (f: nat)
    requires LiveAt(w, sc, i) && from <= i
    ensures from <= f <= i && LiveAt(w, sc, f) && forall k :: from <= k < f ==> !LiveAt(w, sc, k)
    decreases i
  {
    if k :| from <= k < i && LiveAt(w, sc, k) {
      f := FirstLive(w, sc, from, k);
    } else {
      f := i;
    }
  }

  lemma RewindRepeats(w: World, vs: seq<Visit>, i: nat, j: nat, sc: ScopeID)
    requires Valid(w) && Chain(w, vs) && Begins(vs) && Redelivers(w, vs, i, j, sc)
    ensures !NoDuplicates(Delivered(vs))
  {
    var m := NextDelivery(vs, i, j, sc);
    var x := Redelivered(w, vs, i, m, sc);
    OnTwoPages(vs, i, m, x);
  }

  lemma OnTwoPages(vs: seq<Visit>, i: nat, m: nat, x: NoteSummary)
    requires i < m < |vs| && x in vs[i].page.notes && x in vs[m].page.notes
    ensures !NoDuplicates(Delivered(vs))
  {
    var before, upTo := vs[..m], vs[..m + 1];
    InDelivered(before, i, x);
    assert upTo[..m] == before;
    assert Delivered(upTo) == Delivered(before) + vs[m].page.notes;
    TwiceInAppend(Delivered(before), vs[m].page.notes, x);
    DeliveredPrefix(vs, m + 1);
    PrefixRepeats(Delivered(upTo), Delivered(vs));
  }

  lemma TwiceInAppend(a: seq<NoteSummary>, b: seq<NoteSummary>, x: NoteSummary)
    requires x in a && x in b
    ensures !NoDuplicates(a + b)
  {
    var i :| 0 <= i < |a| && a[i] == x;
    var j :| 0 <= j < |b| && b[j] == x;
    assert (a + b)[i] == x && (a + b)[|a| + j] == x;
  }

  lemma PrefixRepeats(a: seq<NoteSummary>, b: seq<NoteSummary>)
    requires IsPrefix(a, b) && !NoDuplicates(a)
    ensures !NoDuplicates(b)
  {
    var i, j :| 0 <= i < j < |a| && a[i] == a[j];
    assert b[i] == b[j];
  }

  /** The first live note from the resume position on is on both pages. */
  lemma Redelivered(w: World, vs: seq<Visit>, i: nat, m: nat, sc: ScopeID) returns (x: NoteSummary)
    requires Valid(w) && Chain(w, vs) && Begins(vs) && i < m < |vs| && Rewinds(w, vs[i], sc)
    requires Restrict(vs[m].page.notes, sc) != [] && forall k :: i < k < m ==> Restrict(vs[k].page.notes, sc) == []
    ensures x in vs[i].page.notes && x in vs[m].page.notes
  {
    VisitPlaced(w, vs, i);
    VisitPlaced(w, vs, m);
    var y := Restrict(vs[m].page.notes, sc)[0];
    FilterMember(vs[m].page.notes, InScope(sc), y);
    var q := OnPage(w, vs[m], y);
    OffsetStands(w, vs, i, m, sc);
    x := OnBoth(w, vs[i], vs[m], sc, q);
  }

  lemma OnBoth(w: World, v: Visit, again: Visit, sc: ScopeID, q: nat) returns (x: NoteSummary)
    requires Valid(w) && Answered(w, v) && NoDuplicates(v.call.scopes) && Rewinds(w, v, sc)
    requires Answered(w, again) && NoDuplicates(again.call.scopes)
    requires StartOf(again.call, sc) == ClampOffset(OffsetAt(v.page.offsets, sc))
    requires LiveAt(w, sc, q) && StartOf(again.call, sc) <= q && w.lists[sc][q] in again.page.notes
    ensures x in v.page.notes && x in again.page.notes
  {
    var p :| StartOf(again.call, sc) <= p && LiveAt(w, sc, p) && w.lists[sc][p] in v.page.notes;
    var f := FirstLive(w, sc, StartOf(again.call, sc), p);
    x := w.lists[sc][f];
    PageDownClosed(w, again, sc, f, q);
    ResumesLater(w, v, sc, p);
    PageDownClosed(w, v, sc, f, p);
  }

  lemma ResumesLater(w: World, v: Visit, sc: ScopeID, p: nat)
    requires Valid(w) && Answered(w, v) && NoDuplicates(v.call.scopes) && LiveAt(w, sc, p)
    requires w.lists[sc][p] in v.page.notes
    ensures StartOf(v.call, sc) <= ClampOffset(OffsetAt(v.page.offsets, sc))
  {
    var o := OnPage(w, v, w.lists[sc][p]);
  }

  /** Along any chain, whatever fails, whatever is tombstoned and wherever it starts: a note comes
      twice exactly when some page held a note at or past the position its cursor resumed from,
      and a later call delivered of that scope again. */
  lemma DeliveredOnceIff(w: World, vs: seq<Visit>)
    requires Valid(w) && Chain(w, vs) && Begins(vs)
    ensures NoDuplicates(Delivered(vs)) <==> NoRedelivery(w, vs)
  {
    if NoRedelivery(w, vs) {
      OnceWithoutRewind(w, vs);
    } else {
      var i, j, sc :| Redelivers(w, vs, i, j, sc);
      RewindRepeats(w, vs, i, j, sc);
    }
  }

  /** A run of notes that the offset moves past leaves none behind. */
  lemma CleanNeverRewinds(w: World, vs: seq<Visit>, k: nat, sc: ScopeID)
    requires Valid(w) && CleanWindows(w, vs) && Chain(w, vs) && Starts(vs) && k < |vs|
    ensures !Rewinds(w, vs[k], sc)
  {
    var v := vs[k];
    VisitPlaced(w, vs, k);
    if i :| ClampOffset(OffsetAt(v.page.offsets, sc)) <= i && LiveAt(w, sc, i) && w.lists[sc][i] in v.page.notes {
      var o := OnPage(w, v, w.lists[sc][i]);
      SamePosition(w, sc, i, o);
      DeliversRun(w, v.call, v.arrival, v.all, v.page, sc);
      FilterMember(v.page.notes, InScope(sc), w.lists[sc][i]);
      RunHolds(w.lists[sc], StartOf(v.call, sc), Restrict(v.page.notes, sc), i);
      assert false;
    }
  }

  /** No note is delivered twice along a chain whose windows have their tombstones last. */
  lemma DeliveredOnce(w: World, vs: seq<Visit>)
    requires Valid(w) && CleanWindows(w, vs) && Chain(w, vs) && Starts(vs)
    ensures NoDuplicates(Delivered(vs))
  {
    forall i, j, sc ensures !Redelivers(w, vs, i, j, sc) {
      if 0 <= i < j < |vs| { CleanNeverRewinds(w, vs, i, sc); }
    }
    DeliveredOnceIff(w, vs);
  }

  // ----- Which notes never come -----

  /** A page holds every live note below the position from which its cursor resumes. */
  lemma PageCovers(w: World, v: Visit, sc: ScopeID, i: nat)
    requires Valid(w) && Placed(w, v) && sc in v.call.scopes && LiveAt(w, sc, i)
    requires StartOf(v.call, sc) <= i < ClampOffset(OffsetAt(v.page.offsets, sc))
    ensures w.lists[sc][i] in v.page.notes
  {
    PageRestricts(w, v.call, v.arrival, v.all, v.page, sc);
    PageTakes(w, v, sc);
    ContributionCovers(w, v.call, sc, Restrict(v.page.notes, sc), i);
    FilterMember(v.page.notes, InScope(sc), w.lists[sc][i]);
  }

  /** The first k notes contributed include every live one of the first k in the window. */
  lemma ContributionCovers(w: World, c: Call, sc: ScopeID, got: seq<NoteSummary>, i: nat)
    requires Valid(w) && LiveAt(w, sc, i) && StartOf(c, sc) <= i < StartOf(c, sc) + |got|
    requires IsPrefix(got, Contribution(w, c, sc))
    ensures w.lists[sc][i] in got
  {
    WindowReaches(w, c, sc, |got|, i);
    ContributedFront(w, c, sc, |got|, i - StartOf(c, sc));
  }

  lemma ContributedFront(w: World, c: Call, sc: ScopeID, k: nat, j: nat)
    requires Answers(w, c, sc) && j < k <= |Contribution(w, c, sc)| && k <= |Fetched(w, c, sc)|
    requires NotIn(w.tombstones)(Fetched(w, c, sc)[j])
    ensures Fetched(w, c, sc)[j] in Contribution(w, c, sc)[..k]
  {
    FilterFront(Fetched(w, c, sc), NotIn(w.tombstones), k, j);
  }

  lemma WindowReaches(w: World, c: Call, sc: ScopeID, k: nat, i: nat)
    requires Valid(w) && sc in w.lists && StartOf(c, sc) <= i < StartOf(c, sc) + k && k <= |Contribution(w, c, sc)|
    ensures k <= |Fetched(w, c, sc)| && Fetched(w, c, sc)[i - StartOf(c, sc)] == w.lists[sc][i]
    ensures Answers(w, c, sc)
  {
    WindowAt(w.lists[sc], c.limit + 1, OffsetAt(c.offsets, sc), i);
  }

  /** The first k elements that pass a filter include every one among the first k. */
  lemma FilterFront(s: seq<NoteSummary>, p: NoteSummary -> bool, k: nat, i: nat)
    requires i < k <= |Filter(s, p)| && p(s[i])
    ensures s[i] in Filter(s, p)[..k]
  {
    assert s == s[..k] + s[k..];
    FilterAppend(s[..k], s[k..], p);
    assert s[..k][i] == s[i];
    FilterMember(s[..k], p, s[i]);
    var j :| 0 <= j < |Filter(s[..k], p)| && Filter(s[..k], p)[j] == s[i];
    assert Filter(s, p)[..k][j] == s[i];
  }

  lemma DeliveredEarlier(vs: seq<Visit>, x: NoteSummary)
    requires vs != []
    ensures x in Delivered(vs) <==> x in Delivered(vs[..|vs| - 1]) || x in Last(vs).page.notes
  {
  }

  /** Along a chain from offset 0 every live note below a scope's offset has been delivered. */
  lemma {:induction false} CoveredBelow(w: World, vs: seq<Visit>, sc: ScopeID, i: nat)
    requires Valid(w) && Chain(w, vs) && Starts(vs) && sc in Last(vs).call.scopes
    requires OffsetAt(vs[0].call.offsets, sc) == 0
    requires LiveAt(w, sc, i) && i < ClampOffset(OffsetAt(Last(vs).page.offsets, sc))
    ensures w.lists[sc][i] in Delivered(vs)
  {
    LastPlaced(w, vs);
    if StartOf(Last(vs).call, sc) <= i {
      PageCovers(w, Last(vs), sc, i);
    } else {
      ChainFront(w, vs);
      OffsetCarried(w, vs, sc);
      CoveredBelow(w, vs[..|vs| - 1], sc, i);
    }
  }

  /** Up to where the last call got to see a scope: the end of its window, or its offset if it
      failed. */
  function SeenUpTo(w: World, c: Call, sc: ScopeID): nat {
    if Answers(w, c, sc) then WindowEnd(c, sc) else StartOf(c, sc)
  }

  /** The live note was seen by the last call, or delivered before it. */
  predicate SeenInTime(w: World, vs: seq<Visit>, sc: ScopeID, i: int)
    requires vs != [] && LiveAt(w, sc, i)
  {
    i < SeenUpTo(w, Last(vs).call, sc) || w.lists[sc][i] in Delivered(vs[..|vs| - 1])
  }

  /** Once HasMore is false, a chain from offset 0 has delivered a live note of a scope that stayed
      allowed if and only if the last call's window reached it, or an earlier page held it. */
  lemma EndedChainCoversIff(w: World, vs: seq<Visit>, sc: ScopeID, i: nat)
    requires Valid(w) && Chain(w, vs) && Steady(w, vs) && !Last(vs).page.hasMore
    requires sc in vs[0].call.scopes && LiveAt(w, sc, i)
    ensures w.lists[sc][i] in Delivered(vs) <==> SeenInTime(w, vs, sc, i)
  {
    var v, x := Last(vs), w.lists[sc][i];
    LastPlaced(w, vs);
    DeliveredEarlier(vs, x);
    if x in v.page.notes {
      var o := OnPage(w, v, x);
      SamePosition(w, sc, i, o);
    } else if i < SeenUpTo(w, v.call, sc) {
      if StartOf(v.call, sc) <= i {
        UncutMissing(w, v.call, v.arrival, v.all, v.page, sc, i);
      } else {
        ChainFront(w, vs);
        OffsetCarried(w, vs, sc);
        CoveredBelow(w, vs[..|vs| - 1], sc, i);
      }
    }
  }

  // ----- The vaults without their tombstoned notes -----

  function Living(w: World): World {
    w.(lists := map sc | sc in w.lists :: Filter(w.lists[sc], NotIn(w.tombstones)))
  }

  lemma LivingValid(w: World)
    requires Valid(w)
    ensures Valid(Living(w)) && NoLiveTombstones(Living(w))
  {
    forall sc | sc in w.lists
      ensures SortedBy(w.leq, Living(w).lists[sc]) && DistinctPaths(Living(w).lists[sc])
      ensures forall i :: 0 <= i < |Living(w).lists[sc]| ==>
        Living(w).lists[sc][i].ref.scope == sc && Living(w).lists[sc][i].ref !in w.tombstones
    {
      var p, f := NotIn(w.tombstones), Living(w).lists[sc];
      FilterSorted(w.leq, w.lists[sc], p);
      FilterDistinctPaths(w.lists[sc], p);
      forall i | 0 <= i < |f|
        ensures f[i].ref.scope == sc && f[i].ref !in w.tombstones
      {
        FilterMember(w.lists[sc], p, f[i]);
      }
    }
  }

  lemma LivingUnion(w: World, scopes: seq<ScopeID>, x: NoteSummary)
    requires Valid(w) && NoDuplicates(scopes)
    ensures multiset(Union(Living(w), scopes))[x] <= 1
    ensures x in Union(Living(w), scopes)
      <==> x.ref.scope in scopes && x.ref.scope in w.lists && x in w.lists[x.ref.scope] && x.ref !in w.tombstones
  {
    var sc, u := x.ref.scope, Union(Living(w), scopes);
    LivingValid(w);
    UnionRestricts(Living(w), scopes, sc);
    FilterCount(u, InScope(sc), x);
    FilterMember(u, InScope(sc), x);
    if sc in w.lists {
      FilterMember(w.lists[sc], NotIn(w.tombstones), x);
      DistinctPathsNoDuplicates(Living(w).lists[sc]);
      NoDuplicatesCount(Living(w).lists[sc], x);
    }
  }

  /** The general chain theorem: an ended chain from offset 0 whose scopes stay allowed has
      delivered every live note exactly once if and only if no rewound scope delivered again and
      every live note was seen in time. */
  lemma EndedChainDeliversLiveIff(w: World, vs: seq<Visit>)
    requires Valid(w) && Chain(w, vs) && Steady(w, vs) && !Last(vs).page.hasMore
    ensures multiset(Delivered(vs)) == multiset(Union(Living(w), vs[0].call.scopes))
      <==> && NoRedelivery(w, vs)
           && (forall sc, i :: sc in vs[0].call.scopes && LiveAt(w, sc, i) ==> SeenInTime(w, vs, sc, i))
  {
    var d, u, scopes := Delivered(vs), Union(Living(w), vs[0].call.scopes), vs[0].call.scopes;
    DeliveredOnceIff(w, vs);
    forall x ensures multiset(u)[x] <= 1 { LivingUnion(w, scopes, x); }
    CountAtMostOne(u);
    if multiset(d) == multiset(u) {
      NoDuplicatesMultiset(u, d);
      forall sc, i | sc in scopes && LiveAt(w, sc, i) ensures SeenInTime(w, vs, sc, i) {
        LivingUnion(w, scopes, w.lists[sc][i]);
        assert w.lists[sc][i] in multiset(d);
        EndedChainCoversIff(w, vs, sc, i);
      }
    }
    if NoRedelivery(w, vs) && (forall sc, i :: sc in scopes && LiveAt(w, sc, i) ==> SeenInTime(w, vs, sc, i)) {
      forall x ensures x in d <==> x in u { LiveMember(w, vs, x); }
      SameMembers(d, u);
    }
  }

  lemma LiveMember(w: World, vs: seq<Visit>, x: NoteSummary)
    requires Valid(w) && Chain(w, vs) && Steady(w, vs) && !Last(vs).page.hasMore
    requires forall sc, i :: sc in vs[0].call.scopes && LiveAt(w, sc, i) ==> SeenInTime(w, vs, sc, i)
    ensures x in Delivered(vs) <==> x in Union(Living(w), vs[0].call.scopes)
  {
    LivingUnion(w, vs[0].call.scopes, x);
    if x in Delivered(vs) { DeliveredIsLive(w, vs, x); }
    if x in Union(Living(w), vs[0].call.scopes) {
      var i :| 0 <= i < |w.lists[x.ref.scope]| && w.lists[x.ref.scope][i] == x;
      EndedChainCoversIff(w, vs, x.ref.scope, i);
    }
  }

  lemma {:induction false} DeliveredIsLive(w: World, vs: seq<Visit>, x: NoteSummary)
    requires Valid(w) && Chain(w, vs) && Begins(vs) && x in Delivered(vs)
    ensures x.ref.scope in vs[0].call.scopes && x.ref.scope in w.lists && x in w.lists[x.ref.scope]
    ensures x.ref !in w.tombstones
  {
    StickyScopes(w, vs);
    DeliveredEarlier(vs, x);
    if x in Last(vs).page.notes {
      var i := OnPage(w, Last(vs), x);
    } else {
      ChainFront(w, vs);
      DeliveredIsLive(w, vs[..|vs| - 1], x);
    }
  }

  lemma FirstDead(w: World, sc: ScopeID, j: nat) returns (i: nat)
    requires sc in w.lists && j < |w.lists[sc]| && !LiveAt(w, sc, j)
    ensures i <= j && !LiveAt(w, sc, i) && forall k :: 0 <= k < i ==> LiveAt(w, sc, k)
    decreases j
  {
    if k :| 0 <= k < j && !LiveAt(w, sc, k) { i := FirstDead(w, sc, k); } else { i := j; }
  }

  /** Offsets that are not negative and one scope's contribution, with and without the tombstoned
      notes in its vault. */
  ghost predicate SameContribution(w: World, c: Call, sc: ScopeID) {
    OffsetAt(c.offsets, sc) >= 0 ==> Contribution(w, c, sc) == Contribution(Living(w), c, sc)
  }

  /** The window of a listing whose first n notes are the live ones. */
  lemma FrontWindow(list: seq<NoteSummary>, p: NoteSummary -> bool, n: nat, limit: int, offset: nat)
    requires n <= |list| && forall i :: 0 <= i < |list| ==> (p(list[i]) <==> i < n)
    ensures Filter(Window(list, limit, offset), p) == Window(list[..n], limit, offset)
    ensures Filter(Window(list[..n], limit, offset), p) == Window(list[..n], limit, offset)
  {
    var s, t := Window(list, limit, offset), Window(list[..n], limit, offset);
    WindowShape(list, limit, offset);
    WindowShape(list[..n], limit, offset);
    forall i | 0 <= i < |s| ensures p(s[i]) <==> i < |t| { assert p(list[offset + i]) <==> offset + i < n; }
    forall i | 0 <= i < |t| ensures t[i] == s[i] { assert t[i] == list[..n][offset + i]; }
    FrontPasses(s, p, t);
  }

  lemma FrontPasses(s: seq<NoteSummary>, p: NoteSummary -> bool, t: seq<NoteSummary>)
    requires |t| <= |s| && (forall i :: 0 <= i < |t| ==> t[i] == s[i]) && forall i :: 0 <= i < |s| ==>
      (p(s[i]) <==> i < |t|)
    ensures Filter(s, p) == t == Filter(t, p)
  {
    assert s == t + s[|t|..];
    FilterAppend(t, s[|t|..], p);
    FilterAll(t, p);
    FilterNone(s[|t|..], p);
  }

  lemma LastContributesAlike(w: World, c: Call, sc: ScopeID)
    requires Valid(w) && sc in w.lists && TombstonesLast(w, sc, 0, |w.lists[sc]|) && OffsetAt(c.offsets, sc) >= 0
    ensures Contribution(w, c, sc) == Contribution(Living(w), c, sc)
  {
    LiveListFront(w, sc);
    FrontAlike(w.lists[sc], NotIn(w.tombstones), c.limit + 1, OffsetAt(c.offsets, sc));
    LivingContribution(w, c, sc);
    ListedContribution(w, c, sc);
  }

  lemma ListedContribution(w: World, c: Call, sc: ScopeID)
    requires sc in w.lists
    ensures var s := Window(w.lists[sc], c.limit + 1, OffsetAt(c.offsets, sc));
      Contribution(w, c, sc) == if Answers(w, c, sc) then Filter(s, NotIn(w.tombstones)) else []
  {
  }

  lemma FrontAlike(list: seq<NoteSummary>, p: NoteSummary -> bool, limit: int, offset: nat)
    requires |Filter(list, p)| <= |list| && Filter(list, p) == list[..|Filter(list, p)|]
    requires forall i :: 0 <= i < |list| ==> (p(list[i]) <==> i < |Filter(list, p)|)
    ensures Filter(Window(list, limit, offset), p) == Filter(Window(Filter(list, p), limit, offset), p)
  {
    FrontWindow(list, p, |Filter(list, p)|, limit, offset);
  }

  lemma LiveListFront(w: World, sc: ScopeID)
    requires sc in w.lists && TombstonesLast(w, sc, 0, |w.lists[sc]|)
    ensures var list, p := w.lists[sc], NotIn(w.tombstones);
      var n := |Filter(list, p)|;
      n <= |list| && Filter(list, p) == list[..n] && forall i :: 0 <= i < |list| ==> (p(list[i]) <==> i < n)
  {
    var list, p := w.lists[sc], NotIn(w.tombstones);
    forall i, j | 0 <= i < j < |list| && p(list[j]) ensures p(list[i]) {
      assert LiveAt(w, sc, j);
      assert LiveAt(w, sc, i);
    }
    LiveFront(list, p, |Filter(list, p)|);
  }

  lemma LivingContribution(w: World, c: Call, sc: ScopeID)
    requires sc in w.lists
    ensures var s := Window(Filter(w.lists[sc], NotIn(w.tombstones)), c.limit + 1, OffsetAt(c.offsets, sc));
      Contribution(Living(w), c, sc) == if Answers(w, c, sc) then Filter(s, NotIn(w.tombstones)) else []
  {
  }

  /** The first tombstoned note, at offset i, is all that a call with limit 0 would fetch. */
  lemma DeadContributesLess(w: World, sc: ScopeID, i: nat, j: nat)
    requires Valid(w) && sc in w.lists && i < j && !LiveAt(w, sc, i) && LiveAt(w, sc, j)
    requires forall k :: 0 <= k < i ==> LiveAt(w, sc, k)
    ensures !SameContribution(w, Call([sc], map[sc := i], 0, {}), sc)
  {
    var c, list, p := Call([sc], map[sc := i], 0, {}), w.lists[sc], NotIn(w.tombstones);
    ShortWindow(w, c, sc, i);
    forall k | 0 <= k < i ensures p(list[k]) { assert LiveAt(w, sc, k); }
    LaterLive(list, p, i, j);
    LivingValid(w);
    assert LiveAt(Living(w), sc, i) by { assert Living(w).lists[sc][i].ref !in Living(w).tombstones; }
    ContributionHolds(Living(w), c, sc, i);
  }

  lemma LaterLive(list: seq<NoteSummary>, p: NoteSummary -> bool, i: nat, j: nat)
    requires i < j < |list| && p(list[j]) && forall k :: 0 <= k < i ==> p(list[k])
    ensures |Filter(list, p)| > i
  {
    assert list == list[..i] + list[i..];
    FilterAppend(list[..i], list[i..], p);
    FilterAll(list[..i], p);
    assert list[i..][j - i] == list[j];
    FilterMember(list[i..], p, list[j]);
  }

  /** Paging treats a scope as if its tombstoned notes were not in the vault, at every limit and
      offset, if and only if they come last in its listing. */
  lemma AsIfGoneIff(w: World, sc: ScopeID)
    requires Valid(w) && sc in w.lists
    ensures (forall c :: SameContribution(w, c, sc)) <==> TombstonesLast(w, sc, 0, |w.lists[sc]|)
  {
    if TombstonesLast(w, sc, 0, |w.lists[sc]|) {
      forall c ensures SameContribution(w, c, sc) {
        if OffsetAt(c.offsets, sc) >= 0 { LastContributesAlike(w, c, sc); }
      }
    } else {
      var i, j :| 0 <= i < j < |w.lists[sc]| && LiveAt(w, sc, j) && !LiveAt(w, sc, i);
      var f := FirstDead(w, sc, i);
      DeadContributesLess(w, sc, f, j);
    }
  }

  /** In every scope of the call the tombstoned notes come last. */
  ghost predicate AllLastIn(w: World, scopes: seq<ScopeID>) {
    forall sc :: sc in scopes && sc in w.lists ==> TombstonesLast(w, sc, 0, |w.lists[sc]|)
  }

  lemma {:induction false} GatherLiving(w: World, c: Call, arrival: seq<ScopeID>)
    requires Valid(w) && forall sc :: sc in arrival ==> Contribution(w, c, sc) == Contribution(Living(w), c, sc)
    ensures Gather(w, c, arrival) == Gather(Living(w), c, arrival)
    decreases |arrival|
  {
    if arrival != [] { GatherLiving(w, c, arrival[..|arrival| - 1]); }
  }

  lemma PageOfLiving(w: World, v: Visit)
    requires Valid(w) && Placed(w, v) && AllLastIn(w, v.call.scopes)
    ensures Answered(Living(w), v)
  {
    forall sc | sc in v.arrival ensures Contribution(w, v.call, sc) == Contribution(Living(w), v.call, sc) {
      assert sc in multiset(v.arrival);
      if sc in w.lists { LastContributesAlike(w, v.call, sc); }
    }
    GatherLiving(w, v.call, v.arrival);
  }

  /** A chain over vaults whose tombstoned notes come last is a chain over the same vaults without
      them. All statements about chains without live tombstones therefore hold of it. */
  lemma ChainOfLiving(w: World, vs: seq<Visit>)
    requires Valid(w) && Chain(w, vs) && Starts(vs) && AllLastIn(w, vs[0].call.scopes)
    ensures Valid(Living(w)) && NoLiveTombstones(Living(w)) && Chain(Living(w), vs)
  {
    LivingValid(w);
    forall k | 0 <= k < |vs| ensures Answered(Living(w), vs[k]) {
      VisitPlaced(w, vs, k);
      ScopesWithin(w, vs, k);
      PageOfLiving(w, vs[k]);
    }
  }

  lemma ScopesWithin(w: World, vs: seq<Visit>, k: nat)
    requires Chain(w, vs) && Begins(vs) && k < |vs|
    ensures forall sc :: sc in vs[k].call.scopes ==> sc in vs[0].call.scopes
  {
    ChainPrefix(w, vs, k + 1);
    StickyScopes(w, vs[..k + 1]);
  }

  /** Nothing fails and the tombstoned notes come last: following the cursors to the end delivers
      the live notes of all scopes, each once and in order. */
  lemma FollowingCursorsDeliversLiving(w: World, vs: seq<Visit>)
    requires Valid(w) && Chain(w, vs) && Smooth(w, vs) && AllLastIn(w, vs[0].call.scopes) && !Last(vs).page.hasMore
    ensures SortedBy(w.leq, Delivered(vs)) && multiset(Delivered(vs)) == multiset(Union(Living(w), vs[0].call.scopes))
  {
    ChainOfLiving(w, vs);
    assert Steady(Living(w), vs);
    FollowingCursorsDeliversUnion(Living(w), vs);
  }

  // ----- One scope at one offset -----

  /** Every page for limits up to 99 on which sc answers from this offset delivers a run of it. */
  ghost predicate AlwaysDeliversRun(w: World, sc: ScopeID, off: nat) {
    forall v: Visit :: OfScope(w, v, sc, off) ==> IsRun(Restrict(v.page.notes, sc), w.lists[sc], off)
  }

  ghost predicate OfScope(w: World, v: Visit, sc: ScopeID, off: nat) {
    && Answered(w, v) && NoDuplicates(v.call.scopes) && v.call.limit <= MAX_LIMIT - 1
    && sc in v.call.scopes && Answers(w, v.call, sc) && OffsetAt(v.call.offsets, sc) == off
  }

  lemma FilterShorter(s: seq<NoteSummary>, p: NoteSummary -> bool, i: nat)
    requires i < |s| && !p(s[i])
    ensures |Filter(s, p)| < |s|
  {
    assert s == s[..i] + [s[i]] + s[i + 1..];
    FilterAppend(s[..i] + [s[i]], s[i + 1..], p);
    FilterAppend(s[..i], [s[i]], p);
  }

  /** A window with a tombstoned note in it contributes less than it may hold. */
  lemma ShortWindow(w: World, c: Call, sc: ScopeID, i: nat)
    requires Valid(w) && Answers(w, c, sc) && StartOf(c, sc) <= i < WindowEnd(c, sc)
    requires i < |w.lists[sc]| && !LiveAt(w, sc, i)
    ensures |Contribution(w, c, sc)| < ClampLimit(c.limit + 1)
  {
    var s := Fetched(w, c, sc);
    WindowAt(w.lists[sc], c.limit + 1, OffsetAt(c.offsets, sc), i);
    FilterShorter(s, NotIn(w.tombstones), i - StartOf(c, sc));
  }

  /** A lone scope whose window holds a tombstoned note delivers all the live ones in it. */
  lemma LoneDelivers(w: World, v: Visit, sc: ScopeID, i: nat, j: nat)
    requires Valid(w) && Answered(w, v) && v.call.scopes == [sc] && Answers(w, v.call, sc)
    requires v.call.limit <= MAX_LIMIT - 1
    requires StartOf(v.call, sc) <= i < j < WindowEnd(v.call, sc) && i < |w.lists[sc]|
    requires !LiveAt(w, sc, i) && LiveAt(w, sc, j)
    ensures w.lists[sc][j] in Restrict(v.page.notes, sc)
  {
    SingleScope(w, v.call, v.arrival, v.all, v.page, sc);
    ShortWindow(w, v.call, sc, i);
    PageRestricts(w, v.call, v.arrival, v.all, v.page, sc);
    ContributionHolds(w, v.call, sc, j);
  }

  /** With a tombstone before a live note among the next hundred, the page of 99 is no run. */
  lemma DeadBreaksRun(w: World, sc: ScopeID, off: nat, i: nat, j: nat)
    requires Valid(w) && sc in w.lists && off <= i < j < off + MAX_LIMIT && !LiveAt(w, sc, i) && LiveAt(w, sc, j)
    ensures !AlwaysDeliversRun(w, sc, off)
  {
    var c := Call([sc], map[sc := off], MAX_LIMIT - 1, {});
    var v := PageExists(w, c);
    LoneDelivers(w, v, sc, i, j);
    DeliversRunIff(w, c, v.arrival, v.all, v.page, sc);
    RunSpans(w, sc, off, Restrict(v.page.notes, sc), i, j);
    assert OfScope(w, v, sc, off);
  }

  lemma RunSpans(w: World, sc: ScopeID, off: nat, got: seq<NoteSummary>, i: nat, j: nat)
    requires Valid(w) && sc in w.lists && off <= i < j < |w.lists[sc]| && !LiveAt(w, sc, i) && w.lists[sc][j] in got
    ensures !IsRun(got, w.lists[sc], off) || !TombstoneFree(w.tombstones, w.lists[sc], off, off + |got|)
  {
    if IsRun(got, w.lists[sc], off) { RunHolds(w.lists[sc], off, got, j); }
  }

  /** Whatever else is asked for and whatever fails, a scope that answers from an offset delivers
      the notes its offset moves over if and only if no tombstoned note stands before a live one
      among the hundred notes from there on. */
  lemma AlwaysDeliversRunIff(w: World, sc: ScopeID, off: nat)
    requires Valid(w) && sc in w.lists
    ensures AlwaysDeliversRun(w, sc, off) <==> TombstonesLast(w, sc, off, off + MAX_LIMIT)
  {
    if TombstonesLast(w, sc, off, off + MAX_LIMIT) {
      forall v: Visit | OfScope(w, v, sc, off) ensures IsRun(Restrict(v.page.notes, sc), w.lists[sc], off) {
        assert TombstonesLast(w, sc, StartOf(v.call, sc), WindowEnd(v.call, sc));
        DeliversRun(w, v.call, v.arrival, v.all, v.page, sc);
      }
    } else {
      var i, j :| off <= i < j < off + MAX_LIMIT && i < |w.lists[sc]| && LiveAt(w, sc, j) && !LiveAt(w, sc, i);
      DeadBreaksRun(w, sc, off, i, j);
    }
  }

  // ----- A note that comes twice -----

  /** With limit 1 the page is the least note contributed. */
  lemma LeadsPage(w: World, v: Visit, x: NoteSummary)
    requires Valid(w) && Placed(w, v) && v.call.limit == 1
    requires x.ref.scope in v.call.scopes && x in Contribution(w, v.call, x.ref.scope)
    requires forall sc, o :: sc in v.call.scopes && o in Contribution(w, v.call, sc) && o != x ==> !w.leq(o, x)
    ensures v.page.notes == [x] && v.all != []
  {
    MergeRestricts(w, v.call, v.arrival, v.all, v.page, x.ref.scope);
    FilterMember(v.all, InScope(x.ref.scope), x);
    var k :| 0 <= k < |v.all| && v.all[k] == x;
    var o := v.all[0];
    MergeRestricts(w, v.call, v.arrival, v.all, v.page, o.ref.scope);
    FilterMember(v.all, InScope(o.ref.scope), o);
    assert k == 0 || w.leq(v.all[0], v.all[k]);
  }

  /** Scope sc holds a tombstoned note and then a live one that comes before all of other's. */
  ghost predicate DeadThenLeast(w: World, sc: ScopeID, other: ScopeID) {
    && Valid(w) && sc != other && sc in w.lists && |w.lists[sc]| == 2 && !LiveAt(w, sc, 0) && LiveAt(w, sc, 1)
    && LiveAt(w, other, 0) && forall i :: 0 <= i < |w.lists[other]| ==> !w.leq(w.lists[other][i], w.lists[sc][1])
  }

  /** A call with limit 1 that starts at either note of sc gets the live one. */
  lemma LeastAgain(w: World, v: Visit, sc: ScopeID, other: ScopeID)
    requires DeadThenLeast(w, sc, other) && Placed(w, v) && v.call.limit == 1 && v.call.failed == {}
    requires v.call.scopes == [sc, other] && StartOf(v.call, sc) <= 1
    ensures v.page.notes == [w.lists[sc][1]]
  {
    var x := w.lists[sc][1];
    assert x.ref.scope == sc;
    ContributionHolds(w, v.call, sc, 1);
    forall s, o | s in v.call.scopes && o in Contribution(w, v.call, s) && o != x ensures !w.leq(o, x) {
      OthersLater(w, v.call, sc, other, s, o);
    }
    LeadsPage(w, v, x);
  }

  lemma OthersLater(w: World, c: Call, sc: ScopeID, other: ScopeID, s: ScopeID, o: NoteSummary)
    requires DeadThenLeast(w, sc, other) && (s == sc || s == other) && o in Contribution(w, c, s)
    ensures o == w.lists[sc][1] || !w.leq(o, w.lists[sc][1])
  {
    var i := ContributedFrom(w, c, s, o);
  }

  lemma BothContribute(w: World, v: Visit, sc: ScopeID, other: ScopeID)
    requires DeadThenLeast(w, sc, other) && Placed(w, v) && v.call == Call([sc, other], map[sc := 0, other := 0], 1, {})
    ensures v.page.hasMore
  {
    ContributionHolds(w, v.call, other, 0);
    LeastAgain(w, v, sc, other);
    MergeRestricts(w, v.call, v.arrival, v.all, v.page, other);
    FilterMember(v.all, InScope(other), w.lists[other][0]);
    assert v.page.hasMore || v.page.notes == v.all;
  }

  /** Two calls with limit 1 and nothing failing then deliver that note twice: the offset moved
      past the tombstoned note only. */
  lemma TombstoneRepeats(w: World, sc: ScopeID, other: ScopeID) returns (vs: seq<Visit>)
    requires DeadThenLeast(w, sc, other)
    ensures Chain(w, vs) && Starts(vs) && vs[0].call == Call([sc, other], map[sc := 0, other := 0], 1, {})
    ensures |vs| == 2 && vs[1].call.limit == 1 && vs[1].call.failed == {} && !NoDuplicates(Delivered(vs))
  {
    var first := LeastFirst(w, sc, other);
    var second := PageExists(w, NextCall(first, 1));
    NextFollows(first, second);
    PairIsSteady(w, first, second);
    LeastAgain(w, second, sc, other);
    vs := [first, second];
    OnTwoPages(vs, 0, 1, w.lists[sc][1]);
  }

  lemma LeastFirst(w: World, sc: ScopeID, other: ScopeID) returns (v: Visit)
    requires DeadThenLeast(w, sc, other)
    ensures Placed(w, v) && v.call == Call([sc, other], map[sc := 0, other := 0], 1, {}) && v.page.hasMore
    ensures v.page.notes == [w.lists[sc][1]] && OffsetAt(v.page.offsets, sc) == 1
    ensures forall s :: s in v.call.scopes ==> OffsetAt(v.page.offsets, s) >= 0
  {
    v := PageExists(w, Call([sc, other], map[sc := 0, other := 0], 1, {}));
    LeastAgain(w, v, sc, other);
    BothContribute(w, v, sc, other);
    OneMovesOne(w, v, sc);
  }

  lemma OneMovesOne(w: World, v: Visit, sc: ScopeID)
    requires Placed(w, v) && sc in v.call.scopes && |v.page.notes| == 1 && v.page.notes[0].ref.scope == sc
    ensures OffsetAt(v.page.offsets, sc) == OffsetAt(v.call.offsets, sc) + 1
    ensures forall s :: s in v.call.scopes ==> OffsetAt(v.page.offsets, s) >= 0
  {
    FilterAll(v.page.notes, InScope(sc));
  }
}
