/** Federated cursor pagination as a relation: what one call may answer, and what
    following the cursors delivers. Calls are related to the listing of each scope;
    the order in which scopes answer and the breaking of ties are left open. */
module Pagination {
  import opened Sequences
  import opened Domain
  import opened LocalVaults

  /** What stays fixed along a cursor chain: the listing of every registered scope
      for the filter and order in use, the tombstones, and the comparator. */
  datatype World = World(
    lists: map<ScopeID, seq<NoteSummary>>,
    tombstones: set<NoteRef>,
    leq: (NoteSummary, NoteSummary) -> bool)

  /** One resolved call: sticky scopes and offsets, the limit, and the scopes that fail. */
  datatype Call = Call(scopes: seq<ScopeID>, offsets: map<ScopeID, int>, limit: nat, failed: set<ScopeID>)

  /** The paging part of an answer; the offsets are those put in the next cursor. */
  datatype Page = Page(notes: seq<NoteSummary>, hasMore: bool, offsets: map<ScopeID, int>)

  ghost predicate Valid(w: World) {
    && PathOrder(w.leq)
    && forall sc :: sc in w.lists ==>
      && SortedBy(w.leq, w.lists[sc])
      && DistinctPaths(w.lists[sc])
      && forall i :: 0 <= i < |w.lists[sc]| ==> w.lists[sc][i].ref.scope == sc
  }

  ghost predicate NoLiveTombstones(w: World) {
    forall sc, i :: sc in w.lists && 0 <= i < |w.lists[sc]| ==> w.lists[sc][i].ref !in w.tombstones
  }

  function OffsetAt(offsets: map<ScopeID, int>, sc: ScopeID): int {
    if sc in offsets then offsets[sc] else 0
  }

  function InScope(sc: ScopeID): NoteSummary -> bool {
    (n: NoteSummary) => n.ref.scope == sc
  }

  function NotIn(tombstones: set<NoteRef>): NoteSummary -> bool {
    (n: NoteSummary) => n.ref !in tombstones
  }

  function Restrict(s: seq<NoteSummary>, sc: ScopeID): seq<NoteSummary> {
    Filter(s, InScope(sc))
  }

  predicate Answers(w: World, c: Call, sc: ScopeID) {
    sc in w.lists && sc !in c.failed
  }

  /** What the vault of sc returns to this call: one note more than the page holds. */
  function Fetched(w: World, c: Call, sc: ScopeID): seq<NoteSummary>
    requires sc in w.lists
  {
    Window(w.lists[sc], c.limit + 1, OffsetAt(c.offsets, sc))
  }

  function Contribution(w: World, c: Call, sc: ScopeID): seq<NoteSummary> {
    if Answers(w, c, sc) then Filter(Fetched(w, c, sc), NotIn(w.tombstones)) else []
  }

  /** Contributions appended in arrival order. */
  function Gather(w: World, c: Call, arrival: seq<ScopeID>): seq<NoteSummary> {
    if arrival == [] then []
    else Gather(w, c, arrival[..|arrival| - 1]) + Contribution(w, c, arrival[|arrival| - 1])
  }

  lemma GatherStep(w: World, c: Call, arrived: seq<ScopeID>, sc: ScopeID)
    ensures Gather(w, c, arrived + [sc]) == Gather(w, c, arrived) + Contribution(w, c, sc)
  {
    assert (arrived + [sc])[..|arrived|] == arrived;
  }

  lemma AnswerGathered(w: World, c: Call, arrived: seq<ScopeID>, sc: ScopeID, notes: seq<NoteSummary>,
                       kept: seq<NoteSummary>)
    requires Answers(w, c, sc) && notes == Window(w.lists[sc], c.limit + 1, OffsetAt(c.offsets, sc))
    requires kept == Filter(notes, NotIn(w.tombstones))
    ensures Gather(w, c, arrived + [sc]) == Gather(w, c, arrived) + kept
  {
    GatherStep(w, c, arrived, sc);
  }

  lemma NothingGathered(w: World, c: Call, arrived: seq<ScopeID>, sc: ScopeID)
    requires !Answers(w, c, sc)
    ensures Gather(w, c, arrived + [sc]) == Gather(w, c, arrived)
  {
    GatherStep(w, c, arrived, sc);
  }

  /** p answers c: the contributions, in some arrival order, sorted into all and cut. */
  ghost predicate IsPage(w: World, c: Call, arrival: seq<ScopeID>, all: seq<NoteSummary>, p: Page) {
    && multiset(arrival) == multiset(c.scopes)
    && SortedBy(w.leq, all)
    && multiset(all) == multiset(Gather(w, c, arrival))
    && (p.hasMore <==> |all| > c.limit)
    && p.notes == (if |all| > c.limit then all[..c.limit] else all)
    && (forall sc :: sc in p.offsets <==> sc in c.scopes)
    && (forall sc :: sc in c.scopes ==> p.offsets[sc] == OffsetAt(c.offsets, sc) + |Restrict(p.notes, sc)|)
  }

  // ----- One call -----

  predicate IsPrefix(a: seq<NoteSummary>, b: seq<NoteSummary>) {
    |a| <= |b| && a == b[..|a|]
  }

  lemma SliceListing(leq: (NoteSummary, NoteSummary) -> bool, list: seq<NoteSummary>, from: nat, to: nat)
    requires SortedBy(leq, list) && DistinctPaths(list) && from <= to <= |list|
    ensures SortedBy(leq, list[from..to]) && DistinctPaths(list[from..to])
  {
    var s := list[from..to];
    forall i, j | 0 <= i < j < |s| ensures leq(s[i], s[j]) && s[i].ref.path != s[j].ref.path {
      assert s[i] == list[from + i] && s[j] == list[from + j];
      assert leq(list[from + i], list[from + j]);
    }
  }

  lemma WindowListing(leq: (NoteSummary, NoteSummary) -> bool, list: seq<NoteSummary>, limit: int, offset: int)
    requires SortedBy(leq, list) && DistinctPaths(list)
    ensures var w := Window(list, limit, offset);
      && SortedBy(leq, w) && DistinctPaths(w)
      && forall i :: 0 <= i < |w| ==> ClampOffset(offset) + i < |list| && w[i] == list[ClampOffset(offset) + i]
  {
    var w, from := Window(list, limit, offset), ClampOffset(offset);
    WindowIsSlice(list, limit, offset);
    if w != [] { SliceListing(leq, list, from, from + |w|); }
  }

  lemma ContributionListing(w: World, c: Call, sc: ScopeID)
    requires Valid(w)
    ensures var f := Contribution(w, c, sc);
      SortedBy(w.leq, f) && DistinctPaths(f) && forall i :: 0 <= i < |f| ==> f[i].ref.scope == sc
  {
    if Answers(w, c, sc) {
      WindowListing(w.leq, w.lists[sc], c.limit + 1, OffsetAt(c.offsets, sc));
      FilterSorted(w.leq, Fetched(w, c, sc), NotIn(w.tombstones));
      FilterDistinctPaths(Fetched(w, c, sc), NotIn(w.tombstones));
      var f := Contribution(w, c, sc);
      forall i | 0 <= i < |f| ensures f[i].ref.scope == sc {
        FilterMember(Fetched(w, c, sc), NotIn(w.tombstones), f[i]);
      }
    }
  }

  lemma {:induction false} GatherRestricts(w: World, c: Call, arrival: seq<ScopeID>, sc: ScopeID)
    requires Valid(w) && NoDuplicates(arrival)
    ensures Restrict(Gather(w, c, arrival), sc) == if sc in arrival then Contribution(w, c, sc) else []
  {
    if arrival != [] {
      var front, last := arrival[..|arrival| - 1], arrival[|arrival| - 1];
      assert arrival == front + [last];
      GatherRestricts(w, c, front, sc);
      FilterAppend(Gather(w, c, front), Contribution(w, c, last), InScope(sc));
      ContributionRestricts(w, c, last, sc);
    }
  }

  lemma ContributionRestricts(w: World, c: Call, from: ScopeID, sc: ScopeID)
    requires Valid(w)
    ensures Restrict(Contribution(w, c, from), sc) == if from == sc then Contribution(w, c, sc) else []
  {
    ContributionListing(w, c, from);
    if from == sc {
      FilterAll(Contribution(w, c, from), InScope(sc));
    } else {
      FilterNone(Contribution(w, c, from), InScope(sc));
    }
  }

  /** Within one scope the comparator is strict, so whatever the arrival order and
      the tie-breaking, the merge restricted to a scope is that scope's contribution. */
  lemma MergeRestricts(w: World, c: Call, arrival: seq<ScopeID>, all: seq<NoteSummary>, p: Page, sc: ScopeID)
    requires Valid(w) && NoDuplicates(c.scopes) && IsPage(w, c, arrival, all, p)
    ensures Restrict(all, sc) == if sc in c.scopes then Contribution(w, c, sc) else []
  {
    NoDuplicatesMultiset(c.scopes, arrival);
    assert sc in arrival <==> sc in multiset(arrival);
    GatherRestricts(w, c, arrival, sc);
    ContributionListing(w, c, sc);
    FilterSorted(w.leq, all, InScope(sc));
    FilterMultiset(all, Gather(w, c, arrival), InScope(sc));
    SortedListingUnique(w.leq, Restrict(Gather(w, c, arrival), sc), Restrict(all, sc));
  }

  lemma PrefixRestricts(all: seq<NoteSummary>, k: nat, sc: ScopeID)
    requires k <= |all|
    ensures Restrict(all, sc) == Restrict(all[..k], sc) + Restrict(all[k..], sc)
  {
    assert all == all[..k] + all[k..];
    FilterAppend(all[..k], all[k..], InScope(sc));
  }

  /** A page restricted to a scope is a prefix of what that scope contributed. */
  lemma PageRestricts(w: World, c: Call, arrival: seq<ScopeID>, all: seq<NoteSummary>, p: Page, sc: ScopeID)
    requires Valid(w) && NoDuplicates(c.scopes) && IsPage(w, c, arrival, all, p)
    ensures sc in c.scopes ==> IsPrefix(Restrict(p.notes, sc), Contribution(w, c, sc))
    ensures sc !in c.scopes ==> Restrict(p.notes, sc) == []
    ensures !p.hasMore && sc in c.scopes ==> Restrict(p.notes, sc) == Contribution(w, c, sc)
  {
    MergeRestricts(w, c, arrival, all, p, sc);
    PrefixRestricts(all, |p.notes|, sc);
    assert p.notes == all[..|p.notes|];
    if !p.hasMore { assert p.notes == all; }
  }

  /** s is the part of list that starts at start. */
  predicate IsRun(s: seq<NoteSummary>, list: seq<NoteSummary>, start: int) {
    s == [] || (0 <= start && start + |s| <= |list| && s == list[start..start + |s|])
  }

  /** No note at positions from..to of the listing is tombstoned. */
  ghost predicate TombstoneFree(tombstones: set<NoteRef>, list: seq<NoteSummary>, from: nat, to: nat) {
    forall i :: from <= i < to && i < |list| ==> NotIn(tombstones)(list[i])
  }

  /** A prefix of a filtered sequence is a prefix of the sequence exactly when nothing
      was filtered out of it. */
  lemma {:induction false} FilterPrefixIff(s: seq<NoteSummary>, got: seq<NoteSummary>, p: NoteSummary -> bool)
    requires IsPrefix(got, Filter(s, p))
    ensures |got| <= |s|
    ensures got == s[..|got|] <==> forall i :: 0 <= i < |got| ==> p(s[i])
  {
    if got != [] {
      var f := Filter(s, p);
      assert got[0] == f[0];
      assert got == [got[0]] + got[1..];
      if p(s[0]) {
        assert f == [s[0]] + Filter(s[1..], p);
        assert got[1..] == f[..|got|][1..] == f[1..][..|got| - 1];
        FilterPrefixIff(s[1..], got[1..], p);
        assert s[..|got|] == [s[0]] + s[1..][..|got| - 1];
        if forall i :: 0 <= i < |got| - 1 ==> p(s[1..][i]) {
          forall i | 0 <= i < |got| ensures p(s[i]) { if i > 0 { assert s[i] == s[1..][i - 1]; } }
        }
      } else {
        FilterMember(s, p, got[0]);
        assert got[0] in f;
      }
    }
  }

  lemma SliceIsRun(list: seq<NoteSummary>, off: nat, s: seq<NoteSummary>, got: seq<NoteSummary>, p: NoteSummary -> bool)
    requires got != [] && |got| <= |s| && off + |s| <= |list| && s == list[off..off + |s|]
    ensures IsRun(got, list, off) <==> got == s[..|got|]
    ensures (forall i :: 0 <= i < |got| ==> p(s[i])) <==>
            (forall i :: off <= i < off + |got| && i < |list| ==> p(list[i]))
  {
    assert s[..|got|] == list[off..off + |got|];
    if forall i :: 0 <= i < |got| ==> p(s[i]) {
      forall i | off <= i < off + |got| ensures p(list[i]) { assert list[i] == s[i - off]; }
    }
    if forall i :: off <= i < off + |got| && i < |list| ==> p(list[i]) {
      forall i | 0 <= i < |got| ensures p(s[i]) { assert s[i] == list[off + i]; }
    }
  }

  lemma WindowIsSlice(list: seq<NoteSummary>, limit: int, offset: int)
    ensures var s := Window(list, limit, offset);
      s != [] ==> ClampOffset(offset) + |s| <= |list| && s == list[ClampOffset(offset)..ClampOffset(offset) + |s|]
  {
  }

  lemma FilteredSliceRunIff(list: seq<NoteSummary>, off: nat, s: seq<NoteSummary>, tombstones: set<NoteRef>,
                            got: seq<NoteSummary>)
    requires s != [] ==> off + |s| <= |list| && s == list[off..off + |s|]
    requires IsPrefix(got, Filter(s, NotIn(tombstones)))
    ensures got != [] ==> off + |got| <= |list|
    ensures IsRun(got, list, off) <==> TombstoneFree(tombstones, list, off, off + |got|)
  {
    if got != [] {
      FilterPrefixIff(s, got, NotIn(tombstones));
      SliceIsRun(list, off, s, got, NotIn(tombstones));
    }
  }

  lemma ContributionRunIff(w: World, c: Call, sc: ScopeID, got: seq<NoteSummary>)
    requires Answers(w, c, sc) && IsPrefix(got, Contribution(w, c, sc))
    ensures got != [] ==> ClampOffset(OffsetAt(c.offsets, sc)) + |got| <= |w.lists[sc]|
    ensures IsRun(got, w.lists[sc], ClampOffset(OffsetAt(c.offsets, sc))) <==>
      TombstoneFree(w.tombstones, w.lists[sc], ClampOffset(OffsetAt(c.offsets, sc)),
                    ClampOffset(OffsetAt(c.offsets, sc)) + |got|)
  {
    WindowIsSlice(w.lists[sc], c.limit + 1, OffsetAt(c.offsets, sc));
    FilteredSliceRunIff(w.lists[sc], ClampOffset(OffsetAt(c.offsets, sc)), Fetched(w, c, sc), w.tombstones, got);
  }

  // ----- Where tombstones stand -----

  /** Position i of sc's listing holds a note that is not tombstoned. */
  predicate LiveAt(w: World, sc: ScopeID, i: int) {
    sc in w.lists && 0 <= i < |w.lists[sc]| && NotIn(w.tombstones)(w.lists[sc][i])
  }

  function StartOf(c: Call, sc: ScopeID): nat {
    ClampOffset(OffsetAt(c.offsets, sc))
  }

  /** Where the window that this call fetches of sc ends. */
  function WindowEnd(c: Call, sc: ScopeID): nat {
    StartOf(c, sc) + ClampLimit(c.limit + 1)
  }

  /** From position from on and before to, no tombstoned note stands before a live one. */
  ghost predicate TombstonesLast(w: World, sc: ScopeID, from: nat, to: nat) {
    forall i, j :: from <= i < j < to && sc in w.lists && i < |w.lists[sc]| && LiveAt(w, sc, j) ==> LiveAt(w, sc, i)
  }

  lemma AllLiveLast(w: World, sc: ScopeID, from: nat, to: nat)
    requires NoLiveTombstones(w)
    ensures TombstonesLast(w, sc, from, to)
  {
  }

  lemma LiveFront(s: seq<NoteSummary>, p: NoteSummary -> bool, k: nat)
    requires k == |Filter(s, p)|
    requires forall i, j :: 0 <= i < j < |s| && p(s[j]) ==> p(s[i])
    ensures k <= |s| && Filter(s, p) == s[..k]
    ensures forall i :: 0 <= i < |s| ==> (p(s[i]) <==> i < k)
  {
    if s != [] {
      if p(s[0]) {
        forall i, j | 0 <= i < j < |s[1..]| && p(s[1..][j]) ensures p(s[1..][i]) { assert p(s[j + 1]) && p(s[i + 1]); }
        LiveFront(s[1..], p, k - 1);
        assert s[..k] == [s[0]] + s[1..][..k - 1];
        forall i | 0 <= i < |s| ensures p(s[i]) <==> i < k { if i > 0 { assert s[i] == s[1..][i - 1]; } }
      } else {
        FilterNone(s, p);
      }
    }
  }

  /** With the tombstones of its window last, a scope contributes the live front of the window. */
  lemma ContributionFront(w: World, c: Call, sc: ScopeID)
    requires Valid(w) && Answers(w, c, sc) && TombstonesLast(w, sc, StartOf(c, sc), WindowEnd(c, sc))
    ensures var k := |Contribution(w, c, sc)|;
      && k <= |Fetched(w, c, sc)| && Contribution(w, c, sc) == Fetched(w, c, sc)[..k]
      && forall i :: StartOf(c, sc) <= i < StartOf(c, sc) + |Fetched(w, c, sc)| ==>
        (LiveAt(w, sc, i) <==> i < StartOf(c, sc) + k)
  {
    var s, p, from := Fetched(w, c, sc), NotIn(w.tombstones), StartOf(c, sc);
    WindowListing(w.leq, w.lists[sc], c.limit + 1, OffsetAt(c.offsets, sc));
    forall i | 0 <= i < |s| ensures p(s[i]) <==> LiveAt(w, sc, from + i) { assert s[i] == w.lists[sc][from + i]; }
    LiveFront(s, p, |Filter(s, p)|);
    forall i | from <= i < from + |s| ensures LiveAt(w, sc, i) <==> i < from + |Contribution(w, c, sc)| {
      assert p(s[i - from]) <==> LiveAt(w, sc, from + (i - from));
    }
  }

  /** A scope delivers the notes its offset moves over exactly when none of those is tombstoned. */
  lemma DeliversRunIff(w: World, c: Call, arrival: seq<ScopeID>, all: seq<NoteSummary>, p: Page, sc: ScopeID)
    requires Valid(w) && NoDuplicates(c.scopes) && IsPage(w, c, arrival, all, p)
    requires sc in c.scopes && Answers(w, c, sc)
    ensures Restrict(p.notes, sc) != [] ==> StartOf(c, sc) + |Restrict(p.notes, sc)| <= |w.lists[sc]|
    ensures IsRun(Restrict(p.notes, sc), w.lists[sc], StartOf(c, sc))
      <==> TombstoneFree(w.tombstones, w.lists[sc], StartOf(c, sc), StartOf(c, sc) + |Restrict(p.notes, sc)|)
  {
    PageRestricts(w, c, arrival, all, p, sc);
    ContributionRunIff(w, c, sc, Restrict(p.notes, sc));
  }

  /** With the tombstones of its window last, every call, with any failing scopes, delivers the
      next notes of the scope's listing and moves the offset past exactly those. */
  lemma DeliversRun(w: World, c: Call, arrival: seq<ScopeID>, all: seq<NoteSummary>, p: Page, sc: ScopeID)
    requires Valid(w) && NoDuplicates(c.scopes) && IsPage(w, c, arrival, all, p)
    requires sc in c.scopes && TombstonesLast(w, sc, StartOf(c, sc), WindowEnd(c, sc))
    ensures sc in w.lists ==> IsRun(Restrict(p.notes, sc), w.lists[sc], StartOf(c, sc))
    ensures !Answers(w, c, sc) ==> Restrict(p.notes, sc) == []
  {
    PageRestricts(w, c, arrival, all, p, sc);
    if Answers(w, c, sc) {
      ContributionPrefix(w, c, sc);
      PrefixIsRun(w, c, sc, Restrict(p.notes, sc));
    }
  }

  lemma ContributionPrefix(w: World, c: Call, sc: ScopeID)
    requires Valid(w) && Answers(w, c, sc) && TombstonesLast(w, sc, StartOf(c, sc), WindowEnd(c, sc))
    ensures IsPrefix(Contribution(w, c, sc), Fetched(w, c, sc))
  {
    ContributionFront(w, c, sc);
  }

  lemma PrefixIsRun(w: World, c: Call, sc: ScopeID, got: seq<NoteSummary>)
    requires Answers(w, c, sc) && IsPrefix(Contribution(w, c, sc), Fetched(w, c, sc))
    requires IsPrefix(got, Contribution(w, c, sc))
    ensures IsRun(got, w.lists[sc], StartOf(c, sc))
  {
    WindowIsSlice(w.lists[sc], c.limit + 1, OffsetAt(c.offsets, sc));
    FrontIsRun(w.lists[sc], StartOf(c, sc), Fetched(w, c, sc), Contribution(w, c, sc), got);
  }

  lemma FrontIsRun(list: seq<NoteSummary>, off: nat, s: seq<NoteSummary>, front: seq<NoteSummary>,
                   got: seq<NoteSummary>)
    requires s != [] ==> off + |s| <= |list| && s == list[off..off + |s|]
    requires IsPrefix(front, s) && IsPrefix(got, front)
    ensures IsRun(got, list, off)
  {
    if got != [] { assert got == s[..|got|] == list[off..off + |got|]; }
  }

  /** What a run of a listing holds. */
  lemma RunHolds(list: seq<NoteSummary>, off: nat, got: seq<NoteSummary>, i: nat)
    requires IsRun(got, list, off) && DistinctPaths(list) && off <= i < |list|
    ensures list[i] in got <==> i < off + |got|
  {
    if got != [] && i < off + |got| { assert got[i - off] == list[i]; }
  }

  /** A negative request offset is clamped by the vault but not in the next cursor: the next
      call resumes where this one stopped exactly when the offset was not negative or the
      scope delivered nothing. */
  lemma ResumesWhereItStoppedIff(w: World, c: Call, arrival: seq<ScopeID>, all: seq<NoteSummary>, p: Page, sc: ScopeID)
    requires IsPage(w, c, arrival, all, p) && sc in c.scopes
    ensures ClampOffset(p.offsets[sc]) == ClampOffset(OffsetAt(c.offsets, sc)) + |Restrict(p.notes, sc)|
      <==> OffsetAt(c.offsets, sc) >= 0 || Restrict(p.notes, sc) == []
  {
  }

  // ----- Repeated scopes -----

  lemma {:induction false} GatherCount(w: World, c: Call, arrival: seq<ScopeID>, x: NoteSummary)
    requires Valid(w)
    ensures multiset(Gather(w, c, arrival))[x] ==
            if x in Contribution(w, c, x.ref.scope) then multiset(arrival)[x.ref.scope] else 0
  {
    if arrival != [] {
      var front, last := arrival[..|arrival| - 1], arrival[|arrival| - 1];
      assert arrival == front + [last];
      GatherCount(w, c, front, x);
      ContributionListing(w, c, last);
      DistinctPathsNoDuplicates(Contribution(w, c, last));
      NoDuplicatesCount(Contribution(w, c, last), x);
    }
  }

  /** On a page that was not cut, every note stands as often as its scope was asked for: so it
      is free of repeats exactly when no scope with anything to give was asked for twice. */
  lemma UncutPageOnceIff(w: World, c: Call, arrival: seq<ScopeID>, all: seq<NoteSummary>, p: Page)
    requires Valid(w) && IsPage(w, c, arrival, all, p) && !p.hasMore
    ensures NoDuplicates(p.notes) <==>
            forall sc :: sc in c.scopes && Contribution(w, c, sc) != [] ==> multiset(c.scopes)[sc] == 1
  {
    forall x
      ensures multiset(p.notes)[x]
        == if x in Contribution(w, c, x.ref.scope) then multiset(c.scopes)[x.ref.scope] else 0
    {
      GatherCount(w, c, arrival, x);
    }
    if NoDuplicates(p.notes) {
      forall sc | sc in c.scopes && Contribution(w, c, sc) != [] ensures multiset(c.scopes)[sc] == 1 {
        var x := Contribution(w, c, sc)[0];
        ContributionListing(w, c, sc);
        NoDuplicatesCount(p.notes, x);
        assert sc in multiset(c.scopes);
      }
    } else {
      var x := RepeatedElement(p.notes);
      assert x.ref.scope in multiset(c.scopes);
      assert x in Contribution(w, c, x.ref.scope);
    }
  }

  /** A least note that stands twice in a sorted sequence opens it twice. */
  lemma LeastOpensTwice(leq: (NoteSummary, NoteSummary) -> bool, s: seq<NoteSummary>, x: NoteSummary)
    requires PathOrder(leq) && SortedBy(leq, s) && multiset(s)[x] >= 2
    requires forall y :: y in s && y != x ==> !leq(y, x)
    ensures |s| >= 2 && s[0] == x && s[1] == x
  {
    assert x in multiset(s);
    var i :| 0 <= i < |s| && s[i] == x;
    assert s[0] == x by { assert i > 0 ==> leq(s[0], s[i]); }
    assert s == [s[0]] + s[1..];
    assert x in multiset(s[1..]);
    var j :| 0 <= j < |s[1..]| && s[1..][j] == x;
    assert s[1 + j] == x && (j > 0 ==> leq(s[1], s[1 + j]));
  }

  lemma GatheredFrom(w: World, c: Call, arrival: seq<ScopeID>, y: NoteSummary)
    requires Valid(w) && y in Gather(w, c, arrival)
    ensures y.ref.scope in arrival && y in Contribution(w, c, y.ref.scope)
  {
    assert y in multiset(Gather(w, c, arrival));
    GatherCount(w, c, arrival, y);
    assert y.ref.scope in multiset(arrival);
  }

  lemma LaterNotLeq(w: World, sc: ScopeID, i: nat)
    requires Valid(w) && sc in w.lists && 0 < i < |w.lists[sc]|
    ensures !w.leq(w.lists[sc][i], w.lists[sc][0])
  {
    assert w.leq(w.lists[sc][0], w.lists[sc][i]);
  }

  lemma OneScopeLeast(w: World, c: Call, arrival: seq<ScopeID>, sc: ScopeID, y: NoteSummary)
    requires Valid(w) && y in Gather(w, c, arrival) && forall s :: s in arrival ==> s == sc
    ensures sc in w.lists && w.lists[sc] != [] && (y == w.lists[sc][0] || !w.leq(y, w.lists[sc][0]))
  {
    GatheredFrom(w, c, arrival, y);
    var i := ContributedFrom(w, c, sc, y);
    if i > 0 { LaterNotLeq(w, sc, i); }
  }

  lemma TwiceGathered(w: World, c: Call, arrival: seq<ScopeID>, sc: ScopeID, i: nat)
    requires Valid(w) && NoLiveTombstones(w) && sc in w.lists && i < |w.lists[sc]| && i < 2
    requires multiset(arrival) == multiset{sc, sc}
    requires c == Call([sc, sc], map[sc := 0], 2, {})
    ensures multiset(Gather(w, c, arrival))[w.lists[sc][i]] == 2
  {
    ContributionHolds(w, c, sc, i);
    GatherCount(w, c, arrival, w.lists[sc][i]);
  }

  lemma TwiceFirst(w: World, c: Call, arrival: seq<ScopeID>, sc: ScopeID, all: seq<NoteSummary>)
    requires Valid(w) && NoLiveTombstones(w) && sc in w.lists && |w.lists[sc]| >= 2
    requires multiset(arrival) == multiset{sc, sc}
    requires c == Call([sc, sc], map[sc := 0], 2, {}) && SortedBy(w.leq, all)
    requires multiset(all) == multiset(Gather(w, c, arrival))
    ensures |all| > 2 && all[..2] == [w.lists[sc][0], w.lists[sc][0]]
  {
    var x, y := w.lists[sc][0], w.lists[sc][1];
    TwiceGathered(w, c, arrival, sc, 0);
    TwiceGathered(w, c, arrival, sc, 1);
    forall s | s in arrival ensures s == sc { assert s in multiset(arrival); }
    forall n | n in all && n != x ensures !w.leq(n, x) {
      assert n in multiset(all);
      OneScopeLeast(w, c, arrival, sc, n);
    }
    LeastOpensTwice(w.leq, all, x);
    TwoAndMore(all, x, y);
  }

  /** On a cut page a scope asked for twice moves two positions for each note: the note in between
      is on no page of the chain. */
  lemma RepeatedScopeSkips(w: World, sc: ScopeID, arrival: seq<ScopeID>, all: seq<NoteSummary>, p: Page)
    requires Valid(w) && NoLiveTombstones(w) && sc in w.lists && |w.lists[sc]| >= 2
    requires IsPage(w, Call([sc, sc], map[sc := 0], 2, {}), arrival, all, p)
    ensures p.notes == [w.lists[sc][0], w.lists[sc][0]] && p.hasMore && p.offsets[sc] == 2
  {
    var c, x := Call([sc, sc], map[sc := 0], 2, {}), w.lists[sc][0];
    assert multiset(c.scopes) == multiset{sc, sc};
    TwiceFirst(w, c, arrival, sc, all);
    assert p.notes == [x, x] && x.ref.scope == sc;
    FilterAll([x, x], InScope(sc));
  }

  lemma TwoAndMore(all: seq<NoteSummary>, x: NoteSummary, y: NoteSummary)
    requires |all| >= 2 && all[0] == x && all[1] == x && x != y && y in multiset(all)
    ensures |all| > 2 && all[..2] == [x, x]
  {
    assert all == [x, x] + all[2..];
  }

  lemma RepeatedElement(s: seq<NoteSummary>) returns (x: NoteSummary)
    requires !NoDuplicates(s)
    ensures multiset(s)[x] >= 2
  {
    if forall y :: y in s ==> multiset(s)[y] <= 1 { CountAtMostOne(s); }
    x :| x in s && multiset(s)[x] > 1;
  }

  // ----- HasMore -----

  /** A live note at or past the offset of an answering scope did not make it to the page. */
  ghost predicate LiveRemain(w: World, c: Call, p: Page) {
    exists sc, i :: sc in c.scopes && Answers(w, c, sc) && LiveAt(w, sc, i) && StartOf(c, sc) <= i
      && w.lists[sc][i] !in p.notes
  }

  /** What a caller can check beforehand: the fetched notes overflow the page, or no answering
      scope has a live note past its window. */
  ghost predicate EnoughFetched(w: World, c: Call, arrival: seq<ScopeID>) {
    || |Gather(w, c, arrival)| > c.limit
    || forall sc, i :: sc in c.scopes && Answers(w, c, sc) && LiveAt(w, sc, i) ==> i < WindowEnd(c, sc)
  }

  /** A scope contributes the live notes of its window. */
  lemma ContributionHolds(w: World, c: Call, sc: ScopeID, i: nat)
    requires Valid(w) && Answers(w, c, sc) && i < |w.lists[sc]|
    ensures w.lists[sc][i] in Contribution(w, c, sc) <==> LiveAt(w, sc, i) && StartOf(c, sc) <= i < WindowEnd(c, sc)
  {
    var list := w.lists[sc];
    FilterMember(Fetched(w, c, sc), NotIn(w.tombstones), list[i]);
    WindowMember(list, c.limit + 1, OffsetAt(c.offsets, sc), i);
  }

  lemma ContributedFrom(w: World, c: Call, sc: ScopeID, x: NoteSummary) returns (i: nat)
    requires Valid(w) && x in Contribution(w, c, sc)
    ensures Answers(w, c, sc) && StartOf(c, sc) <= i < WindowEnd(c, sc) && LiveAt(w, sc, i) && w.lists[sc][i] == x
  {
    FilterMember(Fetched(w, c, sc), NotIn(w.tombstones), x);
    i := WindowPosition(w.lists[sc], c.limit + 1, OffsetAt(c.offsets, sc), x);
  }

  lemma WindowPosition(list: seq<NoteSummary>, limit: int, offset: int, x: NoteSummary) returns (i: nat)
    requires x in Window(list, limit, offset)
    ensures ClampOffset(offset) <= i < ClampOffset(offset) + ClampLimit(limit) && i < |list| && list[i] == x
  {
    var j :| 0 <= j < |Window(list, limit, offset)| && Window(list, limit, offset)[j] == x;
    i := ClampOffset(offset) + j;
  }

  lemma WindowMember(list: seq<NoteSummary>, limit: int, offset: int, i: nat)
    requires DistinctPaths(list) && i < |list|
    ensures list[i] in Window(list, limit, offset)
      <==> ClampOffset(offset) <= i < ClampOffset(offset) + ClampLimit(limit)
  {
    var s := Window(list, limit, offset);
    forall j | 0 <= j < |s| ensures s[j] == list[i] <==> ClampOffset(offset) + j == i {
      assert s[j] == list[ClampOffset(offset) + j];
    }
  }

  lemma WindowAt(list: seq<NoteSummary>, limit: int, offset: int, i: nat)
    requires ClampOffset(offset) <= i < ClampOffset(offset) + ClampLimit(limit) && i < |list|
    ensures i - ClampOffset(offset) < |Window(list, limit, offset)|
    ensures Window(list, limit, offset)[i - ClampOffset(offset)] == list[i]
  {
  }

  /** A note past the cut is a live one that is not on the page. */
  lemma CutLeavesNotes(w: World, c: Call, arrival: seq<ScopeID>, all: seq<NoteSummary>, p: Page)
    requires Valid(w) && NoDuplicates(c.scopes) && IsPage(w, c, arrival, all, p) && p.hasMore
    ensures LiveRemain(w, c, p)
  {
    var x, k := all[c.limit], c.limit;
    var sc := x.ref.scope;
    MergeRestricts(w, c, arrival, all, p, sc);
    ContributionListing(w, c, sc);
    DistinctPathsNoDuplicates(Contribution(w, c, sc));
    FilterMember(all, InScope(sc), x);
    PrefixRestricts(all, k, sc);
    assert x == all[k..][0];
    FilterMember(all[k..], InScope(sc), x);
    FilterMember(all[..k], InScope(sc), x);
    AppendDisjoint(Restrict(all[..k], sc), Restrict(all[k..], sc), x);
    var i := ContributedFrom(w, c, sc, x);
  }

  lemma AppendDisjoint<T>(a: seq<T>, b: seq<T>, x: T)
    requires NoDuplicates(a + b) && x in b
    ensures x !in a
  {
    var j :| 0 <= j < |b| && b[j] == x;
    forall i | 0 <= i < |a| ensures a[i] != x {
      assert (a + b)[i] == a[i] && (a + b)[|a| + j] == x;
    }
  }

  /** On a page that was not cut, the live notes missing are those past the windows. */
  lemma UncutMissing(w: World, c: Call, arrival: seq<ScopeID>, all: seq<NoteSummary>, p: Page, sc: ScopeID, i: nat)
    requires Valid(w) && NoDuplicates(c.scopes) && IsPage(w, c, arrival, all, p) && !p.hasMore
    requires sc in c.scopes && Answers(w, c, sc) && LiveAt(w, sc, i) && StartOf(c, sc) <= i
    ensures w.lists[sc][i] !in p.notes <==> WindowEnd(c, sc) <= i
  {
    PageRestricts(w, c, arrival, all, p, sc);
    ContributionHolds(w, c, sc, i);
    FilterMember(p.notes, InScope(sc), w.lists[sc][i]);
  }

  /** HasMore tells whether the answering scopes have live notes left that are not on the page if
      and only if enough was fetched, whatever is tombstoned and wherever the offsets stand. */
  lemma LiveRemainIff(w: World, c: Call, arrival: seq<ScopeID>, all: seq<NoteSummary>, p: Page)
    requires Valid(w) && NoDuplicates(c.scopes) && IsPage(w, c, arrival, all, p)
    ensures (p.hasMore <==> LiveRemain(w, c, p)) <==> EnoughFetched(w, c, arrival)
  {
    assert |all| == |multiset(all)| == |Gather(w, c, arrival)|;
    if p.hasMore {
      CutLeavesNotes(w, c, arrival, all, p);
    } else {
      forall sc, i | sc in c.scopes && Answers(w, c, sc) && LiveAt(w, sc, i) && StartOf(c, sc) <= i
        ensures w.lists[sc][i] !in p.notes <==> WindowEnd(c, sc) <= i
      {
        UncutMissing(w, c, arrival, all, p, sc, i);
      }
    }
  }

  /** For limits up to 99 enough is fetched whenever the tombstones past the offsets come last. */
  lemma LastIsEnough(w: World, c: Call, arrival: seq<ScopeID>, all: seq<NoteSummary>, p: Page, sc: ScopeID, i: nat)
    requires Valid(w) && NoDuplicates(c.scopes) && IsPage(w, c, arrival, all, p) && c.limit <= MAX_LIMIT - 1
    requires sc in c.scopes && Answers(w, c, sc) && TombstonesLast(w, sc, StartOf(c, sc), |w.lists[sc]|)
    requires LiveAt(w, sc, i) && i >= WindowEnd(c, sc)
    ensures |Gather(w, c, arrival)| > c.limit
  {
    ContributionFront(w, c, sc);
    assert LiveAt(w, sc, WindowEnd(c, sc) - 1);
    MergeRestricts(w, c, arrival, all, p, sc);
    assert |all| == |multiset(all)| == |Gather(w, c, arrival)|;
  }

  /** For limits up to 99, HasMore tells whether live notes remain if in every answering scope the
      tombstoned notes past the offset come after the live ones. */
  lemma HasMoreExact(w: World, c: Call, arrival: seq<ScopeID>, all: seq<NoteSummary>, p: Page)
    requires Valid(w) && NoDuplicates(c.scopes) && IsPage(w, c, arrival, all, p) && c.limit <= MAX_LIMIT - 1
    requires forall sc :: sc in c.scopes && Answers(w, c, sc) ==> TombstonesLast(w, sc, StartOf(c, sc), |w.lists[sc]|)
    ensures EnoughFetched(w, c, arrival) && (p.hasMore <==> LiveRemain(w, c, p))
  {
    LiveRemainIff(w, c, arrival, all, p);
    forall sc, i | sc in c.scopes && Answers(w, c, sc) && LiveAt(w, sc, i) && i >= WindowEnd(c, sc)
      ensures |Gather(w, c, arrival)| > c.limit
    {
      LastIsEnough(w, c, arrival, all, p, sc, i);
    }
  }

  // ----- Offsets and what remains -----

  /** Some answering scope has notes past its next offset. */
  ghost predicate NotesRemain(w: World, c: Call, p: Page) {
    exists sc :: sc in c.scopes && Answers(w, c, sc) && OffsetAt(p.offsets, sc) < |w.lists[sc]|
  }

  /** Where a scope delivers the run that its offset moves over, the notes missing from the page
      are those past the new offset. */
  lemma MissingPastOffset(w: World, c: Call, arrival: seq<ScopeID>, all: seq<NoteSummary>, p: Page, sc: ScopeID, i: nat)
    requires Valid(w) && NoLiveTombstones(w) && NoDuplicates(c.scopes) && IsPage(w, c, arrival, all, p)
    requires sc in c.scopes && Answers(w, c, sc) && 0 <= OffsetAt(c.offsets, sc) <= i < |w.lists[sc]|
    ensures w.lists[sc][i] !in p.notes <==> OffsetAt(p.offsets, sc) <= i
  {
    var got, list, off := Restrict(p.notes, sc), w.lists[sc], OffsetAt(c.offsets, sc);
    AllLiveLast(w, sc, StartOf(c, sc), WindowEnd(c, sc));
    DeliversRun(w, c, arrival, all, p, sc);
    FilterMember(p.notes, InScope(sc), list[i]);
    RunHolds(list, off, got, i);
  }

  lemma RemainIsLive(w: World, c: Call, arrival: seq<ScopeID>, all: seq<NoteSummary>, p: Page)
    requires Valid(w) && NoLiveTombstones(w) && NoDuplicates(c.scopes) && IsPage(w, c, arrival, all, p)
    requires forall sc :: sc in c.scopes ==> OffsetAt(c.offsets, sc) >= 0
    ensures NotesRemain(w, c, p) <==> LiveRemain(w, c, p)
  {
    forall sc, i | sc in c.scopes && Answers(w, c, sc) && OffsetAt(c.offsets, sc) <= i < |w.lists[sc]|
      ensures w.lists[sc][i] !in p.notes <==> OffsetAt(p.offsets, sc) <= i
    {
      MissingPastOffset(w, c, arrival, all, p, sc, i);
    }
    if NotesRemain(w, c, p) {
      var sc :| sc in c.scopes && Answers(w, c, sc) && OffsetAt(p.offsets, sc) < |w.lists[sc]|;
      assert LiveAt(w, sc, OffsetAt(p.offsets, sc));
    }
  }

  /** Without live tombstones: HasMore tells whether answering scopes have notes past their next
      offsets. */
  lemma OffsetsTell(w: World, c: Call, arrival: seq<ScopeID>, all: seq<NoteSummary>, p: Page)
    requires Valid(w) && NoLiveTombstones(w) && NoDuplicates(c.scopes)
    requires forall sc :: sc in c.scopes ==> OffsetAt(c.offsets, sc) >= 0
    requires IsPage(w, c, arrival, all, p)
    ensures (p.hasMore <==> NotesRemain(w, c, p)) <==> EnoughFetched(w, c, arrival)
    ensures c.limit <= MAX_LIMIT - 1 ==> (p.hasMore <==> NotesRemain(w, c, p))
  {
    LiveRemainIff(w, c, arrival, all, p);
    RemainIsLive(w, c, arrival, all, p);
    if c.limit <= MAX_LIMIT - 1 {
      forall sc | sc in c.scopes && Answers(w, c, sc) ensures TombstonesLast(w, sc, StartOf(c, sc), |w.lists[sc]|) {
        AllLiveLast(w, sc, StartOf(c, sc), |w.lists[sc]|);
      }
      HasMoreExact(w, c, arrival, all, p);
    }
  }

  lemma FailedOffsetStays(w: World, c: Call, arrival: seq<ScopeID>, all: seq<NoteSummary>, p: Page, sc: ScopeID)
    requires Valid(w) && NoDuplicates(c.scopes) && IsPage(w, c, arrival, all, p)
    requires sc in c.scopes && !Answers(w, c, sc)
    ensures OffsetAt(p.offsets, sc) == OffsetAt(c.offsets, sc)
  {
    PageRestricts(w, c, arrival, all, p, sc);
  }

  /** A live note at or past the offset of any registered scope, failing ones included, did not
      make it to the page. */
  ghost predicate AnyLiveRemain(w: World, c: Call, p: Page) {
    exists sc, i :: sc in c.scopes && LiveAt(w, sc, i) && StartOf(c, sc) <= i && w.lists[sc][i] !in p.notes
  }

  /** No scope that fails in this call has a live note at or past its offset. */
  ghost predicate FailedDrained(w: World, c: Call) {
    forall sc, i :: sc in c.scopes && sc in c.failed && LiveAt(w, sc, i) ==> i < StartOf(c, sc)
  }

  lemma AnyRemainSplit(w: World, c: Call, arrival: seq<ScopeID>, all: seq<NoteSummary>, p: Page)
    requires Valid(w) && NoDuplicates(c.scopes) && IsPage(w, c, arrival, all, p)
    ensures AnyLiveRemain(w, c, p) <==> LiveRemain(w, c, p) || !FailedDrained(w, c)
  {
    forall sc, i | sc in c.scopes && sc in c.failed && LiveAt(w, sc, i) ensures w.lists[sc][i] !in p.notes {
      PageRestricts(w, c, arrival, all, p, sc);
      FilterMember(p.notes, InScope(sc), w.lists[sc][i]);
    }
  }

  /** Counting the failing scopes too, HasMore tells whether live notes remain if and only if
      enough was fetched and either an answering scope has some left or no failing one has: a page
      that exhausts the answering scopes says there is no more, and gives no cursor back to the
      rest. */
  lemma HasMoreTellsAllIff(w: World, c: Call, arrival: seq<ScopeID>, all: seq<NoteSummary>, p: Page)
    requires Valid(w) && NoDuplicates(c.scopes) && IsPage(w, c, arrival, all, p)
    ensures (p.hasMore <==> AnyLiveRemain(w, c, p))
      <==> EnoughFetched(w, c, arrival) && (LiveRemain(w, c, p) || FailedDrained(w, c))
  {
    LiveRemainIff(w, c, arrival, all, p);
    AnyRemainSplit(w, c, arrival, all, p);
    if p.hasMore { CutLeavesNotes(w, c, arrival, all, p); }
  }

  /** At the vault's own maximum the extra note is never fetched: a lone scope with more
      than 100 notes left is cut off with HasMore false. */
  lemma LimitHundredStopsEarly(w: World, sc: ScopeID, all: seq<NoteSummary>, p: Page)
    requires Valid(w) && NoLiveTombstones(w) && sc in w.lists && |w.lists[sc]| > MAX_LIMIT
    requires IsPage(w, Call([sc], map[sc := 0], MAX_LIMIT, {}), [sc], all, p)
    ensures !p.hasMore && p.offsets[sc] < |w.lists[sc]|
  {
    var c := Call([sc], map[sc := 0], MAX_LIMIT, {});
    assert Gather(w, c, [sc]) == Gather(w, c, [sc][..0]) + Contribution(w, c, sc);
    assert |all| == |multiset(all)| == |Gather(w, c, [sc])|;
    assert |Restrict(p.notes, sc)| <= |p.notes|;
  }

  /** A tombstone ahead of two live notes: the extra note fetched is the tombstoned one, so a lone
      scope ends with HasMore false and its last note is lost. */
  lemma TombstoneHidesRest(w: World, sc: ScopeID, t: NoteSummary, a: NoteSummary, b: NoteSummary,
                           arrival: seq<ScopeID>, all: seq<NoteSummary>, p: Page)
    requires Valid(w) && w.lists == map[sc := [t, a, b]] && w.tombstones == {t.ref}
    requires IsPage(w, Call([sc], map[sc := 0], 1, {}), arrival, all, p)
    ensures p.notes == [a] && !p.hasMore && LiveAt(w, sc, 2)
  {
    var c := Call([sc], map[sc := 0], 1, {});
    assert w.lists[sc][0] == t && w.lists[sc][1] == a && w.lists[sc][2] == b;
    assert Fetched(w, c, sc) == [t, a];
    KeepsSecond(t, a, NotIn(w.tombstones));
    SingleScope(w, c, arrival, all, p, sc);
  }

  lemma KeepsSecond(x: NoteSummary, y: NoteSummary, p: NoteSummary -> bool)
    requires !p(x) && p(y)
    ensures Filter([x, y], p) == [y]
  {
    assert [x, y][1..] == [y];
  }

  /** A call of one scope answers with the front of that scope's contribution. */
  lemma SingleScope(w: World, c: Call, arrival: seq<ScopeID>, all: seq<NoteSummary>, p: Page, sc: ScopeID)
    requires Valid(w) && c.scopes == [sc] && IsPage(w, c, arrival, all, p)
    ensures all == Contribution(w, c, sc)
  {
    assert multiset(arrival) == multiset{sc};
    assert |arrival| == |multiset(arrival)| == 1;
    assert arrival[0] in multiset(arrival);
    assert Gather(w, c, arrival) == Gather(w, c, arrival[..0]) + Contribution(w, c, sc);
    ContributionListing(w, c, sc);
    SortedListingUnique(w.leq, Contribution(w, c, sc), all);
  }
}
