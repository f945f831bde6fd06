/** The order in which a chain of federated calls delivers, and when it delivers everything. */
module ChainOrder {
  import opened Sequences
  import opened Domain
  import opened LocalVaults
  import opened Pagination
  import opened CursorChains

  /** One answered call of distinct scopes, at offsets that are not negative. */
  ghost predicate Placed(w: World, v: Visit) {
    Answered(w, v) && NoDuplicates(v.call.scopes) && OffsetsUsable(v.call)
  }

  /** Position i of sc's listing is still to come after v. */
  predicate Left(w: World, v: Visit, sc: ScopeID, i: int) {
    sc in v.call.scopes && sc in w.lists && 0 <= OffsetAt(v.page.offsets, sc) <= i < |w.lists[sc]|
  }

  /** The first position of sc that this call does not fetch: its offset if the scope fails. */
  function NextUnfetched(w: World, c: Call, sc: ScopeID): int {
    OffsetAt(c.offsets, sc) + |Contribution(w, c, sc)|
  }

  /** No note on the page comes after one that the call did not get to see. */
  ghost predicate NoOvertaking(w: World, v: Visit) {
    forall sc, x :: sc in v.call.scopes && x in v.page.notes ==> BeforeUnfetched(w, v, sc, x)
  }

  predicate BeforeUnfetched(w: World, v: Visit, sc: ScopeID, x: NoteSummary) {
    sc in w.lists && 0 <= NextUnfetched(w, v.call, sc) < |w.lists[sc]| ==>
      w.leq(x, w.lists[sc][NextUnfetched(w, v.call, sc)])
  }

  /** The same, asked of the failing scopes alone: their first note is the one at the offset. */
  ghost predicate FailuresWait(w: World, v: Visit) {
    forall sc, x :: sc in v.call.scopes && sc in v.call.failed && x in v.page.notes ==> BeforeUnfetched(w, v, sc, x)
  }

  // ----- One page -----

  lemma AllLast(w: World, c: Call, sc: ScopeID)
    requires NoLiveTombstones(w)
    ensures TombstonesLast(w, sc, StartOf(c, sc), WindowEnd(c, sc))
  {
  }

  /** f is the part of list from off on, as much as is left or as a vault returns at once. */
  ghost predicate IsWindow(f: seq<NoteSummary>, list: seq<NoteSummary>, off: int, limit: int) {
    && 0 <= off && |f| == Max(0, Min(|list| - off, ClampLimit(limit)))
    && forall j :: 0 <= j < |f| ==> f[j] == list[off + j]
  }

  lemma WindowShape(list: seq<NoteSummary>, limit: int, offset: nat)
    ensures IsWindow(Window(list, limit, offset), list, offset, limit)
  {
  }

  lemma ContributionIsFetched(w: World, c: Call, sc: ScopeID)
    requires Valid(w) && NoLiveTombstones(w) && Answers(w, c, sc)
    ensures Contribution(w, c, sc) == Fetched(w, c, sc)
  {
    WindowListing(w.leq, w.lists[sc], c.limit + 1, OffsetAt(c.offsets, sc));
    FilterAll(Fetched(w, c, sc), NotIn(w.tombstones));
  }

  /** Without live tombstones a scope that answers contributes the next notes of its listing. */
  lemma ContributionShape(w: World, v: Visit, sc: ScopeID)
    requires Valid(w) && NoLiveTombstones(w) && Placed(w, v) && sc in v.call.scopes && Answers(w, v.call, sc)
    ensures IsWindow(Contribution(w, v.call, sc), w.lists[sc], OffsetAt(v.call.offsets, sc), v.call.limit + 1)
  {
    ContributionWindow(w, v.call, sc);
  }

  lemma ContributionWindow(w: World, c: Call, sc: ScopeID)
    requires Valid(w) && NoLiveTombstones(w) && Answers(w, c, sc) && OffsetAt(c.offsets, sc) >= 0
    ensures IsWindow(Contribution(w, c, sc), w.lists[sc], OffsetAt(c.offsets, sc), c.limit + 1)
  {
    ContributionIsFetched(w, c, sc);
    WindowShape(w.lists[sc], c.limit + 1, OffsetAt(c.offsets, sc));
  }

  /** A fetched note that did not fit the page comes after everything on it. */
  lemma PageBeforeFetched(w: World, v: Visit, x: NoteSummary, sc: ScopeID, i: nat)
    requires Valid(w) && Placed(w, v) && x in v.page.notes && sc in v.call.scopes
    requires |Restrict(v.page.notes, sc)| <= i < |Contribution(w, v.call, sc)|
    ensures w.leq(x, Contribution(w, v.call, sc)[i])
  {
    var k := |v.page.notes|;
    MergeRestricts(w, v.call, v.arrival, v.all, v.page, sc);
    PrefixRestricts(v.all, k, sc);
    assert v.page.notes == v.all[..k];
    var y := Contribution(w, v.call, sc)[i];
    assert y == Restrict(v.all[k..], sc)[i - |Restrict(v.page.notes, sc)|];
    assert y in v.all[k..] by { FilterMember(v.all[k..], InScope(sc), y); }
    var b :| 0 <= b < |v.all[k..]| && v.all[k..][b] == y;
    var a :| 0 <= a < k && v.page.notes[a] == x;
    assert v.all[a] == x && v.all[k + b] == y;
    assert w.leq(v.all[a], v.all[k + b]);
  }

  lemma PageTakes(w: World, v: Visit, sc: ScopeID)
    requires Valid(w) && Placed(w, v) && sc in v.call.scopes
    ensures |Restrict(v.page.notes, sc)| <= Min(v.call.limit, |Contribution(w, v.call, sc)|)
    ensures OffsetAt(v.page.offsets, sc) == OffsetAt(v.call.offsets, sc) + |Restrict(v.page.notes, sc)|
  {
    PageRestricts(w, v.call, v.arrival, v.all, v.page, sc);
  }

  lemma LeqThrough(leq: (NoteSummary, NoteSummary) -> bool, s: seq<NoteSummary>, i: nat, j: nat, x: NoteSummary)
    requires PathOrder(leq) && SortedBy(leq, s) && i <= j < |s| && leq(x, s[i])
    ensures leq(x, s[j])
  {
    assert i == j || leq(s[i], s[j]);
  }

  /** Without overtaking, everything on a page comes before everything its cursor leaves. */
  lemma PageBeforeRest(w: World, v: Visit, x: NoteSummary, sc: ScopeID, i: nat)
    requires Valid(w) && NoLiveTombstones(w) && Placed(w, v) && NoOvertaking(w, v)
    requires x in v.page.notes && Left(w, v, sc, i)
    ensures w.leq(x, w.lists[sc][i])
  {
    PageTakes(w, v, sc);
    if i < NextUnfetched(w, v.call, sc) {
      FetchedAfterPage(w, v, x, sc, i - OffsetAt(v.call.offsets, sc));
    } else {
      UnfetchedOn(w, v, sc, i, x);
    }
  }

  lemma FetchedAfterPage(w: World, v: Visit, x: NoteSummary, sc: ScopeID, k: nat)
    requires Valid(w) && NoLiveTombstones(w) && Placed(w, v) && sc in v.call.scopes && x in v.page.notes
    requires |Restrict(v.page.notes, sc)| <= k < |Contribution(w, v.call, sc)|
    ensures sc in w.lists && 0 <= OffsetAt(v.call.offsets, sc) + k < |w.lists[sc]|
    ensures w.leq(x, w.lists[sc][OffsetAt(v.call.offsets, sc) + k])
  {
    ContributionAt(w, v, sc, k);
    PageBeforeFetched(w, v, x, sc, k);
  }

  lemma ContributionAt(w: World, v: Visit, sc: ScopeID, k: nat)
    requires Valid(w) && NoLiveTombstones(w) && Placed(w, v) && sc in v.call.scopes && k < |Contribution(w, v.call, sc)|
    ensures Answers(w, v.call, sc) && 0 <= OffsetAt(v.call.offsets, sc) + k < |w.lists[sc]|
    ensures Contribution(w, v.call, sc)[k] == w.lists[sc][OffsetAt(v.call.offsets, sc) + k]
  {
    ContributionShape(w, v, sc);
  }

  lemma UnfetchedOn(w: World, v: Visit, sc: ScopeID, i: nat, x: NoteSummary)
    requires Valid(w) && BeforeUnfetched(w, v, sc, x) && sc in w.lists
    requires 0 <= NextUnfetched(w, v.call, sc) <= i < |w.lists[sc]|
    ensures w.leq(x, w.lists[sc][i])
  {
    LeqThrough(w.leq, w.lists[sc], NextUnfetched(w, v.call, sc), i, x);
  }

  /** With limits up to 99 a scope that answers is never overtaken: only failures are. */
  lemma OnlyFailuresOvertaken(w: World, v: Visit)
    requires Valid(w) && NoLiveTombstones(w) && Placed(w, v) && v.call.limit <= MAX_LIMIT - 1
    ensures NoOvertaking(w, v) <==> FailuresWait(w, v)
  {
    forall sc, x | sc in v.call.scopes && sc !in v.call.failed && x in v.page.notes
      ensures BeforeUnfetched(w, v, sc, x)
    {
      if sc in w.lists && NextUnfetched(w, v.call, sc) < |w.lists[sc]| { AnsweringNotOvertaken(w, v, sc, x); }
    }
  }

  lemma AnsweringNotOvertaken(w: World, v: Visit, sc: ScopeID, x: NoteSummary)
    requires Valid(w) && NoLiveTombstones(w) && Placed(w, v) && v.call.limit <= MAX_LIMIT - 1
    requires sc in v.call.scopes && Answers(w, v.call, sc) && x in v.page.notes
    requires NextUnfetched(w, v.call, sc) < |w.lists[sc]|
    ensures BeforeUnfetched(w, v, sc, x)
  {
    ContributionLength(w, v, sc);
    PageTakes(w, v, sc);
    var k := |Contribution(w, v.call, sc)| - 1;
    FetchedAfterPage(w, v, x, sc, k);
    LeqThrough(w.leq, w.lists[sc], OffsetAt(v.call.offsets, sc) + k, NextUnfetched(w, v.call, sc), x);
  }

  /** Where something of a scope stays unfetched, its window was full. */
  lemma ContributionLength(w: World, v: Visit, sc: ScopeID)
    requires Valid(w) && NoLiveTombstones(w) && Placed(w, v) && sc in v.call.scopes && Answers(w, v.call, sc)
    requires NextUnfetched(w, v.call, sc) < |w.lists[sc]|
    ensures |Contribution(w, v.call, sc)| == ClampLimit(v.call.limit + 1)
  {
    ContributionShape(w, v, sc);
  }

  /** A delivered note is one the previous cursor had left for later. */
  lemma PageFromRest(w: World, v: Visit, x: NoteSummary) returns (sc: ScopeID, i: nat)
    requires Valid(w) && NoLiveTombstones(w) && Placed(w, v) && x in v.page.notes
    ensures sc in v.call.scopes && sc in w.lists && OffsetAt(v.call.offsets, sc) <= i < |w.lists[sc]|
    ensures w.lists[sc][i] == x
  {
    sc := x.ref.scope;
    var got := Restrict(v.page.notes, sc);
    FilterMember(v.page.notes, InScope(sc), x);
    PageRestricts(w, v.call, v.arrival, v.all, v.page, sc);
    AllLast(w, v.call, sc);
    DeliversRun(w, v.call, v.arrival, v.all, v.page, sc);
    i := RunPosition(w.lists[sc], OffsetAt(v.call.offsets, sc), got, x);
  }

  lemma RunPosition(list: seq<NoteSummary>, start: int, s: seq<NoteSummary>, x: NoteSummary) returns (i: nat)
    requires IsRun(s, list, start) && x in s
    ensures start <= i < |list| && list[i] == x
  {
    var j :| 0 <= j < |s| && s[j] == x;
    i := start + j;
  }

  // ----- Sorted delivery -----

  lemma LastPlaced(w: World, vs: seq<Visit>)
    requires Chain(w, vs) && Starts(vs)
    ensures Placed(w, Last(vs))
  {
    StickyScopes(w, vs);
  }

  lemma VisitPlaced(w: World, vs: seq<Visit>, k: nat)
    requires Chain(w, vs) && Begins(vs) && k < |vs|
    ensures Answered(w, vs[k]) && NoDuplicates(vs[k].call.scopes) && (Starts(vs) ==> Placed(w, vs[k]))
  {
    ChainPrefix(w, vs, k + 1);
    StickyScopes(w, vs[..k + 1]);
  }

  /** What the last call had left to deliver was left by the call before it. */
  lemma LeftBefore(w: World, vs: seq<Visit>, sc: ScopeID, i: nat)
    requires Chain(w, vs) && Starts(vs) && |vs| > 1 && sc in w.lists
    requires sc in Last(vs).call.scopes && OffsetAt(Last(vs).call.offsets, sc) <= i < |w.lists[sc]|
    ensures Left(w, Last(vs[..|vs| - 1]), sc, i)
  {
    StickyScopes(w, vs);
    OffsetCarried(w, vs, sc);
  }

  /** Everything delivered comes before everything left. */
  ghost predicate DeliveredBeforeLeft(w: World, vs: seq<Visit>)
    requires vs != []
  {
    forall x, sc, i :: x in Delivered(vs) && Left(w, Last(vs), sc, i) ==> w.leq(x, w.lists[sc][i])
  }

  lemma FrontBeforePage(w: World, vs: seq<Visit>, x: NoteSummary, y: NoteSummary)
    requires Valid(w) && NoLiveTombstones(w) && Chain(w, vs) && Starts(vs) && |vs| > 1
    requires DeliveredBeforeLeft(w, vs[..|vs| - 1])
    requires x in Delivered(vs[..|vs| - 1]) && y in Last(vs).page.notes
    ensures w.leq(x, y)
  {
    LastPlaced(w, vs);
    var sc, i := PageFromRest(w, Last(vs), y);
    LeftBefore(w, vs, sc, i);
  }

  lemma DeliveredBeforeLeftExtends(w: World, vs: seq<Visit>)
    requires Valid(w) && NoLiveTombstones(w) && Chain(w, vs) && Starts(vs) && NoOvertaking(w, Last(vs))
    requires |vs| > 1 ==> DeliveredBeforeLeft(w, vs[..|vs| - 1])
    ensures DeliveredBeforeLeft(w, vs)
  {
    LastPlaced(w, vs);
    forall x, sc, i | x in Delivered(vs) && Left(w, Last(vs), sc, i) ensures w.leq(x, w.lists[sc][i]) {
      if x in Last(vs).page.notes {
        PageBeforeRest(w, Last(vs), x, sc, i);
      } else {
        assert x in Delivered(vs[..|vs| - 1]);
        PageTakes(w, Last(vs), sc);
        LeftBefore(w, vs, sc, i);
      }
    }
  }

  /** Along any chain, whatever fails and whatever is allowed: if no call's page overtakes a note
      that the call did not get to see, the concatenated pages are sorted and come before all that
      is left. */
  lemma {:induction false} DeliveredSorted(w: World, vs: seq<Visit>)
    requires Valid(w) && NoLiveTombstones(w) && Chain(w, vs) && Starts(vs)
    requires forall k :: 0 <= k < |vs| ==> NoOvertaking(w, vs[k])
    ensures SortedBy(w.leq, Delivered(vs)) && DeliveredBeforeLeft(w, vs)
  {
    var front, page := vs[..|vs| - 1], Last(vs).page.notes;
    if |vs| > 1 {
      ChainFront(w, vs);
      DeliveredSorted(w, front);
      forall x, y | x in Delivered(front) && y in page ensures w.leq(x, y) { FrontBeforePage(w, vs, x, y); }
    } else {
      assert Delivered(front) == [];
    }
    DeliveredBeforeLeftExtends(w, vs);
    LastPlaced(w, vs);
    PageSorted(w, Last(vs));
    AppendSorted(w.leq, Delivered(front), page);
  }

  lemma PageSorted(w: World, v: Visit)
    requires Answered(w, v)
    ensures SortedBy(w.leq, v.page.notes)
  {
    assert v.page.notes == v.all[..|v.page.notes|];
  }

  lemma AppendSorted(leq: (NoteSummary, NoteSummary) -> bool, a: seq<NoteSummary>, b: seq<NoteSummary>)
    requires SortedBy(leq, a) && SortedBy(leq, b)
    requires forall x, y :: x in a && y in b ==> leq(x, y)
    ensures SortedBy(leq, a + b)
  {
  }

  lemma {:induction false} DeliveredPrefix(vs: seq<Visit>, k: nat)
    requires k <= |vs|
    ensures IsPrefix(Delivered(vs[..k]), Delivered(vs))
    decreases |vs|
  {
    if k < |vs| {
      var front := vs[..|vs| - 1];
      DeliveredPrefix(front, k);
      assert front[..k] == vs[..k];
    } else {
      assert vs[..k] == vs;
    }
  }

  lemma InDelivered(vs: seq<Visit>, k: nat, x: NoteSummary)
    requires k < |vs| && x in vs[k].page.notes
    ensures x in Delivered(vs[..k + 1]) && x in Delivered(vs)
  {
    assert vs[..k + 1][..k] == vs[..k];
    assert Delivered(vs[..k + 1]) == Delivered(vs[..k]) + vs[k].page.notes;
    DeliveredPrefix(vs, k + 1);
    PrefixMember(Delivered(vs[..k + 1]), Delivered(vs), x);
  }

  lemma PrefixMember(a: seq<NoteSummary>, b: seq<NoteSummary>, x: NoteSummary)
    requires IsPrefix(a, b) && x in a
    ensures x in b
  {
  }

  /** In a sorted delivery what came up to some call comes before what came later. */
  lemma EarlierBefore(w: World, vs: seq<Visit>, k: nat, x: NoteSummary, y: NoteSummary)
    requires k <= |vs| && SortedBy(w.leq, Delivered(vs))
    requires x in Delivered(vs[..k]) && y in Delivered(vs) && y !in Delivered(vs[..k])
    ensures w.leq(x, y)
  {
    var d, e := Delivered(vs), Delivered(vs[..k]);
    DeliveredPrefix(vs, k);
    var a :| 0 <= a < |e| && e[a] == x;
    var b :| 0 <= b < |d| && d[b] == y;
    assert d[a] == x && b >= |e|;
    assert w.leq(d[a], d[b]);
  }

  /** A chain from offset 0 in which the scopes stay allowed; any of them may fail at any call. */
  ghost predicate Steady(w: World, vs: seq<Visit>) {
    && Starts(vs)
    && (forall sc :: sc in vs[0].call.scopes ==> OffsetAt(vs[0].call.offsets, sc) == 0)
    && Last(vs).call.scopes == vs[0].call.scopes
  }

  /** What a call did not fetch of a scope has not been delivered by then. */
  lemma UnfetchedNotYet(w: World, vs: seq<Visit>, k: nat, sc: ScopeID)
    requires Valid(w) && NoLiveTombstones(w) && Chain(w, vs) && Steady(w, vs) && k < |vs|
    requires sc in vs[k].call.scopes && sc in w.lists && 0 <= NextUnfetched(w, vs[k].call, sc) < |w.lists[sc]|
    ensures w.lists[sc][NextUnfetched(w, vs[k].call, sc)] !in Delivered(vs[..k + 1])
    ensures sc in vs[0].call.scopes
  {
    var upTo := vs[..k + 1];
    ChainPrefix(w, vs, k + 1);
    StickyScopes(w, upTo);
    NoTombstonesClean(w, upTo);
    DeliveredIsRun(w, upTo, sc);
    LastPlaced(w, upTo);
    PageTakes(w, Last(upTo), sc);
    var i := NextUnfetched(w, vs[k].call, sc);
    RunHolds(w.lists[sc], 0, Restrict(Delivered(upTo), sc), i);
    FilterMember(Delivered(upTo), InScope(sc), w.lists[sc][i]);
  }

  lemma {:induction false} UnionHolds(w: World, scopes: seq<ScopeID>, sc: ScopeID, i: nat)
    requires Valid(w) && NoDuplicates(scopes) && sc in scopes && sc in w.lists && i < |w.lists[sc]|
    ensures w.lists[sc][i] in Union(w, scopes)
  {
    UnionRestricts(w, scopes, sc);
    FilterMember(Union(w, scopes), InScope(sc), w.lists[sc][i]);
  }

  /** Of a chain that has delivered the union: it did so in order exactly when no page overtook a
      note that its call did not get to see. */
  lemma SortedIffNoOvertaking(w: World, vs: seq<Visit>)
    requires Valid(w) && NoLiveTombstones(w) && Chain(w, vs) && Steady(w, vs)
    requires multiset(Delivered(vs)) == multiset(Union(w, vs[0].call.scopes))
    ensures SortedBy(w.leq, Delivered(vs)) <==> forall k :: 0 <= k < |vs| ==> NoOvertaking(w, vs[k])
  {
    if forall k :: 0 <= k < |vs| ==> NoOvertaking(w, vs[k]) { DeliveredSorted(w, vs); }
    if SortedBy(w.leq, Delivered(vs)) {
      forall k, sc, x | 0 <= k < |vs| && sc in vs[k].call.scopes && x in vs[k].page.notes
        ensures BeforeUnfetched(w, vs[k], sc, x)
      {
        var i := NextUnfetched(w, vs[k].call, sc);
        if sc in w.lists && 0 <= i < |w.lists[sc]| { SortedNotOvertaken(w, vs, k, sc, x); }
      }
    }
  }

  lemma SortedNotOvertaken(w: World, vs: seq<Visit>, k: nat, sc: ScopeID, x: NoteSummary)
    requires Valid(w) && NoLiveTombstones(w) && Chain(w, vs) && Steady(w, vs)
    requires multiset(Delivered(vs)) == multiset(Union(w, vs[0].call.scopes)) && SortedBy(w.leq, Delivered(vs))
    requires k < |vs| && sc in vs[k].call.scopes && x in vs[k].page.notes
    requires sc in w.lists && 0 <= NextUnfetched(w, vs[k].call, sc) < |w.lists[sc]|
    ensures BeforeUnfetched(w, vs[k], sc, x)
  {
    var y := w.lists[sc][NextUnfetched(w, vs[k].call, sc)];
    UnfetchedNotYet(w, vs, k, sc);
    UnionHolds(w, vs[0].call.scopes, sc, NextUnfetched(w, vs[k].call, sc));
    assert y in multiset(Delivered(vs));
    InDelivered(vs, k, x);
    EarlierBefore(w, vs, k + 1, x, y);
  }

  // ----- Complete delivery -----

  lemma WholeRun(list: seq<NoteSummary>, s: seq<NoteSummary>)
    requires IsRun(s, list, 0) && |s| >= |list|
    ensures s == list
  {
  }

  /** What a steady chain has delivered of a scope is its whole listing exactly when the scope's
      last offset is past the end. */
  lemma DeliveredWholeIff(w: World, vs: seq<Visit>, sc: ScopeID)
    requires Valid(w) && NoLiveTombstones(w) && Chain(w, vs) && Steady(w, vs)
    requires sc in vs[0].call.scopes && sc in w.lists
    ensures Restrict(Delivered(vs), sc) == w.lists[sc] <==> OffsetAt(Last(vs).page.offsets, sc) >= |w.lists[sc]|
  {
    NoTombstonesClean(w, vs);
    DeliveredIsRun(w, vs, sc);
    if OffsetAt(Last(vs).page.offsets, sc) >= |w.lists[sc]| { WholeRun(w.lists[sc], Restrict(Delivered(vs), sc)); }
  }

  lemma DeliveredUnionIff(w: World, vs: seq<Visit>)
    requires Valid(w) && NoLiveTombstones(w) && Chain(w, vs) && Steady(w, vs)
    ensures multiset(Delivered(vs)) == multiset(Union(w, vs[0].call.scopes))
      <==> forall sc :: sc in vs[0].call.scopes && sc in w.lists ==> Restrict(Delivered(vs), sc) == w.lists[sc]
  {
    var d, u := Delivered(vs), Union(w, vs[0].call.scopes);
    if forall sc :: sc in vs[0].call.scopes && sc in w.lists ==> Restrict(d, sc) == w.lists[sc] {
      forall x: NoteSummary ensures multiset(d)[x] == multiset(u)[x] {
        var sc := x.ref.scope;
        FilterCount(d, InScope(sc), x);
        FilterCount(u, InScope(sc), x);
        UnionRestricts(w, vs[0].call.scopes, sc);
        if !(sc in vs[0].call.scopes && sc in w.lists) { NothingElseDelivered(w, vs, sc); }
      }
    }
    if multiset(d) == multiset(u) {
      forall sc | sc in vs[0].call.scopes && sc in w.lists ensures Restrict(d, sc) == w.lists[sc] {
        SameCountWhole(w, vs, sc);
      }
    }
  }

  lemma SameCountWhole(w: World, vs: seq<Visit>, sc: ScopeID)
    requires Valid(w) && NoLiveTombstones(w) && Chain(w, vs) && Steady(w, vs)
    requires sc in vs[0].call.scopes && sc in w.lists
    requires multiset(Delivered(vs)) == multiset(Union(w, vs[0].call.scopes))
    ensures Restrict(Delivered(vs), sc) == w.lists[sc]
  {
    var d, u := Delivered(vs), Union(w, vs[0].call.scopes);
    FilterMultiset(d, u, InScope(sc));
    UnionRestricts(w, vs[0].call.scopes, sc);
    NoTombstonesClean(w, vs);
    DeliveredIsRun(w, vs, sc);
    assert |Restrict(d, sc)| == |multiset(Restrict(d, sc))| == |w.lists[sc]|;
    WholeRun(w.lists[sc], Restrict(d, sc));
  }

  lemma FailedDrainedAt(w: World, c: Call, sc: ScopeID)
    requires NoLiveTombstones(w) && OffsetsUsable(c) && FailedDrained(w, c)
    requires sc in c.scopes && sc in w.lists && sc in c.failed
    ensures OffsetAt(c.offsets, sc) >= |w.lists[sc]|
  {
    assert OffsetAt(c.offsets, sc) < |w.lists[sc]| ==> LiveAt(w, sc, OffsetAt(c.offsets, sc));
  }

  /** An ended chain from offset 0 whose scopes stay allowed has delivered the union of all
      listings if and only if no scope failing in the last call had notes left. Scopes that failed
      in earlier calls lose nothing. */
  lemma EndedChainDeliversUnionIff(w: World, vs: seq<Visit>)
    requires Valid(w) && NoLiveTombstones(w) && Chain(w, vs) && Steady(w, vs)
    requires !Last(vs).page.hasMore && Last(vs).call.limit <= MAX_LIMIT - 1
    ensures multiset(Delivered(vs)) == multiset(Union(w, vs[0].call.scopes)) <==> FailedDrained(w, Last(vs).call)
  {
    var last := Last(vs);
    LastPlaced(w, vs);
    OffsetsTell(w, last.call, last.arrival, last.all, last.page);
    DeliveredUnionIff(w, vs);
    forall sc | sc in vs[0].call.scopes && sc in w.lists
      ensures Restrict(Delivered(vs), sc) == w.lists[sc] <==>
              !(sc in last.call.failed && OffsetAt(last.call.offsets, sc) < |w.lists[sc]|)
    {
      DeliveredWholeIff(w, vs, sc);
      if Answers(w, last.call, sc) {
        assert OffsetAt(last.page.offsets, sc) >= |w.lists[sc]|;
      } else {
        FailedOffsetStays(w, last.call, last.arrival, last.all, last.page, sc);
      }
    }
    forall sc | sc in last.call.scopes && sc in w.lists && sc in last.call.failed && FailedDrained(w, last.call)
      ensures OffsetAt(last.call.offsets, sc) >= |w.lists[sc]|
    {
      FailedDrainedAt(w, last.call, sc);
    }
  }

  /** The chain theorem with failures: once HasMore is false, the concatenated pages are a sorted
      rearrangement of the union of all listings if and only if no scope failing in the last call
      had notes left, and no page overtook the notes of a scope that failed in its call. */
  lemma EndedChainSortedUnionIff(w: World, vs: seq<Visit>)
    requires Valid(w) && NoLiveTombstones(w) && Chain(w, vs) && Steady(w, vs)
    requires !Last(vs).page.hasMore && forall k :: 0 <= k < |vs| ==> vs[k].call.limit <= MAX_LIMIT - 1
    ensures SortedBy(w.leq, Delivered(vs)) && multiset(Delivered(vs)) == multiset(Union(w, vs[0].call.scopes))
      <==> FailedDrained(w, Last(vs).call) && forall k :: 0 <= k < |vs| ==> FailuresWait(w, vs[k])
  {
    EndedChainDeliversUnionIff(w, vs);
    if multiset(Delivered(vs)) == multiset(Union(w, vs[0].call.scopes)) { SortedIffNoOvertaking(w, vs); }
    forall k | 0 <= k < |vs| ensures NoOvertaking(w, vs[k]) <==> FailuresWait(w, vs[k]) {
      VisitPlaced(w, vs, k);
      OnlyFailuresOvertaken(w, vs[k]);
    }
  }

  /** A chain over fixed scopes from offset 0 in which nothing fails and every limit leaves room
      for the extra note. */
  ghost predicate Smooth(w: World, vs: seq<Visit>) {
    && Steady(w, vs)
    && (forall i :: 0 <= i < |vs| ==> vs[i].call.failed == {} && 1 <= vs[i].call.limit <= MAX_LIMIT - 1)
  }

  /** The chain theorem when nothing fails: once HasMore is false, the concatenated pages are a
      sorted rearrangement of the union of all listings, whatever the arrival order and the
      tie-breaking of each call. */
  lemma FollowingCursorsDeliversUnion(w: World, vs: seq<Visit>)
    requires Valid(w) && NoLiveTombstones(w) && Chain(w, vs) && Smooth(w, vs)
    requires !Last(vs).page.hasMore
    ensures SortedBy(w.leq, Delivered(vs))
    ensures multiset(Delivered(vs)) == multiset(Union(w, vs[0].call.scopes))
  {
    EndedChainSortedUnionIff(w, vs);
  }

  // ----- Overtaking -----

  /** When one scope alone contributes, its contribution is all there is to sort. */
  lemma OneContributes(w: World, v: Visit, sc: ScopeID)
    requires Valid(w) && Placed(w, v) && sc in v.call.scopes
    requires forall other :: other in v.call.scopes && other != sc ==> Contribution(w, v.call, other) == []
    ensures v.all == Contribution(w, v.call, sc)
  {
    var f := Contribution(w, v.call, sc);
    ContributionListing(w, v.call, sc);
    forall x: NoteSummary ensures multiset(v.all)[x] == multiset(f)[x] { OneContributesCount(w, v, sc, x); }
    SortedListingUnique(w.leq, f, v.all);
  }

  lemma OneContributesCount(w: World, v: Visit, sc: ScopeID, x: NoteSummary)
    requires Valid(w) && Placed(w, v) && sc in v.call.scopes
    requires forall other :: other in v.call.scopes && other != sc ==> Contribution(w, v.call, other) == []
    ensures multiset(v.all)[x] == multiset(Contribution(w, v.call, sc))[x]
  {
    MergeRestricts(w, v.call, v.arrival, v.all, v.page, x.ref.scope);
    FilterCount(v.all, InScope(x.ref.scope), x);
    ContributionListing(w, v.call, sc);
  }

  lemma GatheredBounded(w: World, v: Visit)
    requires Valid(w) && Placed(w, v)
    ensures |v.all| <= |Union(w, v.call.scopes)|
  {
    forall sc
      ensures sc in w.lists ==> |Restrict(v.all, sc)| <= |w.lists[sc]|
      ensures sc !in v.call.scopes || sc !in w.lists ==> Restrict(v.all, sc) == []
    {
      MergeRestricts(w, v.call, v.arrival, v.all, v.page, sc);
      if Answers(w, v.call, sc) { assert |Contribution(w, v.call, sc)| <= |Fetched(w, v.call, sc)| <= |w.lists[sc]|; }
    }
    CountByScope(w, v.all, v.call.scopes);
  }

  /** The first call of the chain below: the scope that answers fills the page on its own. */
  lemma FirstPage(w: World, sc: ScopeID, other: ScopeID, v: Visit)
    requires Valid(w) && NoLiveTombstones(w) && Answered(w, v) && sc != other && other in w.lists
    requires |w.lists[other]| == 2
    requires v.call == FirstCall(sc, other)
    ensures v.page.notes == [w.lists[other][0]] && v.page.hasMore
  {
    ContributionShape(w, v, other);
    OneContributes(w, v, other);
    assert v.all[..1] == [v.all[0]];
  }

  lemma UnionOfTwo(w: World, sc: ScopeID, other: ScopeID)
    requires sc in w.lists && other in w.lists
    ensures Union(w, [sc, other]) == w.lists[sc] + w.lists[other]
  {
    assert [sc, other][..1] == [sc] && [sc][..0] == [];
    assert Union(w, [sc]) == Union(w, []) + w.lists[sc];
  }

  function FirstCall(sc: ScopeID, other: ScopeID): Call {
    Call([sc, other], map[sc := 0, other := 0], 1, {sc})
  }

  /** Two calls: one scope fails in the first, and nothing in the second, which ends the chain. */
  ghost predicate FailsOnce(w: World, vs: seq<Visit>, sc: ScopeID, other: ScopeID) {
    && |vs| == 2 && Chain(w, vs) && Steady(w, vs) && vs[0].call == FirstCall(sc, other)
    && vs[1].call == NextCall(vs[0], 5) && !vs[1].page.hasMore
  }

  /** A page with more to come, and a second call that fetches all of it. */
  lemma OneMoreCall(w: World, v: Visit) returns (next: Visit)
    requires Valid(w) && Placed(w, v) && v.page.hasMore && |Union(w, v.call.scopes)| <= 5
    requires forall sc :: sc in v.call.scopes ==> OffsetAt(v.call.offsets, sc) == 0
    ensures next.call == NextCall(v, 5) && !next.page.hasMore && Chain(w, [v, next]) && Steady(w, [v, next])
  {
    next := PageExists(w, NextCall(v, 5));
    NextFollows(v, next);
    PairIsSteady(w, v, next);
    FollowerEnds(w, v, next);
  }

  lemma PairIsSteady(w: World, v: Visit, next: Visit)
    requires Placed(w, v) && Answered(w, next) && Follows(v, next) && next.call.scopes == v.call.scopes
    requires forall sc :: sc in v.call.scopes ==> OffsetAt(v.call.offsets, sc) == 0
    ensures Chain(w, [v, next]) && Steady(w, [v, next])
  {
    var vs := [v, next];
    assert vs[0] == v && vs[1] == next;
  }

  lemma FollowerEnds(w: World, v: Visit, next: Visit)
    requires Valid(w) && Placed(w, v) && Answered(w, next) && next.call == NextCall(v, 5)
    requires |Union(w, v.call.scopes)| <= 5
    ensures !next.page.hasMore
  {
    GatheredBounded(w, next);
  }

  lemma FailsOnceExists(w: World, sc: ScopeID, other: ScopeID) returns (vs: seq<Visit>)
    requires Valid(w) && NoLiveTombstones(w) && sc != other && sc in w.lists && other in w.lists
    requires |w.lists[sc]| == 1 && |w.lists[other]| == 2
    ensures FailsOnce(w, vs, sc, other)
  {
    var first := PageExists(w, FirstCall(sc, other));
    FirstPage(w, sc, other, first);
    UnionOfTwo(w, sc, other);
    var second := OneMoreCall(w, first);
    vs := [first, second];
  }

  lemma FailsOnceOvertakes(w: World, vs: seq<Visit>, sc: ScopeID, other: ScopeID)
    requires Valid(w) && NoLiveTombstones(w) && sc != other && sc in w.lists && other in w.lists
    requires FailsOnce(w, vs, sc, other)
    requires |w.lists[sc]| == 1 && |w.lists[other]| == 2
    requires w.lists[sc][0].ref.path != w.lists[other][0].ref.path && w.leq(w.lists[sc][0], w.lists[other][0])
    ensures !NoOvertaking(w, vs[0])
  {
    var v := vs[0];
    assert Answered(w, v);
    FirstPage(w, sc, other, v);
    assert NextUnfetched(w, v.call, sc) == 0;
    assert !BeforeUnfetched(w, v, sc, v.page.notes[0]);
  }

  /** A scope with the first note of all fails once while another answers. The chain still ends
      with the whole union delivered, but the page overtook that note: the order is wrong. */
  lemma FailureBreaksOrder(w: World, sc: ScopeID, other: ScopeID) returns (vs: seq<Visit>)
    requires Valid(w) && NoLiveTombstones(w) && sc != other && sc in w.lists && other in w.lists
    requires |w.lists[sc]| == 1 && |w.lists[other]| == 2
    requires w.lists[sc][0].ref.path != w.lists[other][0].ref.path && w.leq(w.lists[sc][0], w.lists[other][0])
    ensures FailsOnce(w, vs, sc, other) && Steady(w, vs)
    ensures multiset(Delivered(vs)) == multiset(Union(w, [sc, other])) && !SortedBy(w.leq, Delivered(vs))
  {
    vs := FailsOnceExists(w, sc, other);
    FailsOnceOvertakes(w, vs, sc, other);
    EndsWithoutFailure(w, vs);
    OvertakenUnsorted(w, vs, 0);
  }

  lemma EndsWithoutFailure(w: World, vs: seq<Visit>)
    requires Valid(w) && NoLiveTombstones(w) && Chain(w, vs) && Steady(w, vs)
    requires !Last(vs).page.hasMore && Last(vs).call.limit <= MAX_LIMIT - 1 && Last(vs).call.failed == {}
    ensures multiset(Delivered(vs)) == multiset(Union(w, vs[0].call.scopes))
  {
    EndedChainDeliversUnionIff(w, vs);
  }

  lemma OvertakenUnsorted(w: World, vs: seq<Visit>, k: nat)
    requires Valid(w) && NoLiveTombstones(w) && Chain(w, vs) && Steady(w, vs) && k < |vs|
    requires multiset(Delivered(vs)) == multiset(Union(w, vs[0].call.scopes)) && !NoOvertaking(w, vs[k])
    ensures !SortedBy(w.leq, Delivered(vs))
  {
    SortedIffNoOvertaking(w, vs);
  }
}
