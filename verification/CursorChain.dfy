/** Following cursors: what a whole chain of federated calls delivers. */
module CursorChains {
  import opened Sequences
  import opened Domain
  import opened LocalVaults
  import opened Pagination

  /** One call of a chain with the answer it got. */
  datatype Visit = Visit(call: Call, arrival: seq<ScopeID>, all: seq<NoteSummary>, page: Page)

  function MemberOf(scopes: set<ScopeID>): ScopeID -> bool {
    (sc: ScopeID) => sc in scopes
  }

  /** A cursor's scopes, cut to those allowed at the time it is presented. */
  function Sticky(scopes: seq<ScopeID>, allowed: set<ScopeID>): seq<ScopeID> {
    Filter(scopes, MemberOf(allowed))
  }

  /** next presents the cursor that v returned, whatever is allowed by then. */
  ghost predicate Follows(v: Visit, next: Visit) {
    && v.page.hasMore
    && next.call.offsets == v.page.offsets
    && exists allowed :: next.call.scopes == Sticky(v.call.scopes, allowed)
  }

  ghost predicate Answered(w: World, v: Visit) {
    IsPage(w, v.call, v.arrival, v.all, v.page)
  }

  ghost predicate Chain(w: World, vs: seq<Visit>) {
    && (forall i :: 0 <= i < |vs| ==> Answered(w, vs[i]))
    && (forall i :: 0 < i < |vs| ==> Follows(vs[i - 1], vs[i]))
  }

  /** A chain that starts with distinct scopes. */
  ghost predicate Begins(vs: seq<Visit>) {
    vs != [] && NoDuplicates(vs[0].call.scopes)
  }

  /** A chain that starts with distinct scopes at offsets that are not negative. */
  ghost predicate Starts(vs: seq<Visit>) {
    Begins(vs) && OffsetsUsable(vs[0].call)
  }

  ghost predicate OffsetsUsable(c: Call) {
    forall sc :: sc in c.scopes ==> OffsetAt(c.offsets, sc) >= 0
  }

  function Delivered(vs: seq<Visit>): seq<NoteSummary> {
    if vs == [] then [] else Delivered(vs[..|vs| - 1]) + vs[|vs| - 1].page.notes
  }

  function Last(vs: seq<Visit>): Visit
    requires vs != []
  {
    vs[|vs| - 1]
  }

  // ----- Scopes and offsets along a chain -----

  lemma FollowsKeeps(w: World, v: Visit, next: Visit)
    requires Answered(w, v) && Follows(v, next) && NoDuplicates(v.call.scopes)
    ensures NoDuplicates(next.call.scopes)
    ensures forall sc :: sc in next.call.scopes ==> sc in v.call.scopes
    ensures forall sc :: sc in next.call.scopes ==>
              OffsetAt(next.call.offsets, sc) == v.page.offsets[sc] >= OffsetAt(v.call.offsets, sc)
  {
    var allowed :| next.call.scopes == Sticky(v.call.scopes, allowed);
    FilterNoDuplicates(v.call.scopes, MemberOf(allowed));
    FilterMembers(v.call.scopes, MemberOf(allowed));
  }

  lemma ChainFront(w: World, vs: seq<Visit>)
    requires Chain(w, vs) && Begins(vs) && |vs| > 1
    ensures Chain(w, vs[..|vs| - 1]) && Begins(vs[..|vs| - 1]) && (Starts(vs) ==> Starts(vs[..|vs| - 1]))
    ensures Answered(w, Last(vs[..|vs| - 1])) && Follows(Last(vs[..|vs| - 1]), Last(vs))
  {
    assert Last(vs[..|vs| - 1]) == vs[|vs| - 2];
  }

  /** The sticky scope set never grows, and offsets stay usable. */
  lemma {:induction false} StickyScopes(w: World, vs: seq<Visit>)
    requires Chain(w, vs) && Begins(vs)
    ensures Answered(w, Last(vs)) && NoDuplicates(Last(vs).call.scopes)
    ensures forall sc :: sc in Last(vs).call.scopes ==> sc in vs[0].call.scopes
    ensures Starts(vs) ==> OffsetsUsable(Last(vs).call)
  {
    if |vs| > 1 {
      var front := vs[..|vs| - 1];
      ChainFront(w, vs);
      StickyScopes(w, front);
      FollowsKeeps(w, Last(front), Last(vs));
    }
  }

  /** A scope still in use resumes where the call before left it. */
  lemma OffsetCarried(w: World, vs: seq<Visit>, sc: ScopeID)
    requires Chain(w, vs) && Begins(vs) && |vs| > 1 && sc in Last(vs).call.scopes
    ensures sc in Last(vs[..|vs| - 1]).call.scopes
    ensures OffsetAt(Last(vs).call.offsets, sc) == OffsetAt(Last(vs[..|vs| - 1]).page.offsets, sc)
    ensures OffsetAt(Last(vs).call.offsets, sc) >= OffsetAt(Last(vs[..|vs| - 1]).call.offsets, sc)
  {
    ChainFront(w, vs);
    StickyScopes(w, vs[..|vs| - 1]);
    FollowsKeeps(w, Last(vs[..|vs| - 1]), Last(vs));
  }

  lemma ChainPrefix(w: World, vs: seq<Visit>, k: nat)
    requires Chain(w, vs) && Begins(vs) && 0 < k <= |vs|
    ensures Chain(w, vs[..k]) && Begins(vs[..k]) && Last(vs[..k]) == vs[k - 1] && vs[..k][0] == vs[0]
    ensures Starts(vs) ==> Starts(vs[..k])
  {
    forall i | 0 < i < k ensures Follows(vs[..k][i - 1], vs[..k][i]) { assert Follows(vs[i - 1], vs[i]); }
    forall i | 0 <= i < k ensures Answered(w, vs[..k][i]) { assert Answered(w, vs[i]); }
  }

  // ----- Contiguous delivery, whatever fails -----

  /** In every window that a call of the chain fetches, the tombstoned notes come last. */
  ghost predicate CleanWindows(w: World, vs: seq<Visit>) {
    forall i, sc :: 0 <= i < |vs| && sc in vs[i].call.scopes ==>
      TombstonesLast(w, sc, StartOf(vs[i].call, sc), WindowEnd(vs[i].call, sc))
  }

  lemma NoTombstonesClean(w: World, vs: seq<Visit>)
    requires NoLiveTombstones(w)
    ensures CleanWindows(w, vs)
  {
  }

  lemma LastDelivers(w: World, vs: seq<Visit>, sc: ScopeID)
    requires Valid(w) && CleanWindows(w, vs) && Chain(w, vs) && Starts(vs) && sc in w.lists
    ensures var v := Last(vs);
      if sc in v.call.scopes then IsRun(Restrict(v.page.notes, sc), w.lists[sc], OffsetAt(v.call.offsets, sc))
      else Restrict(v.page.notes, sc) == []
  {
    var v := Last(vs);
    StickyScopes(w, vs);
    if sc in v.call.scopes {
      DeliversRun(w, v.call, v.arrival, v.all, v.page, sc);
    } else {
      PageRestricts(w, v.call, v.arrival, v.all, v.page, sc);
    }
  }

  lemma LastOffset(w: World, vs: seq<Visit>, sc: ScopeID)
    requires Chain(w, vs) && vs != [] && sc in Last(vs).call.scopes
    ensures OffsetAt(Last(vs).page.offsets, sc)
      == OffsetAt(Last(vs).call.offsets, sc) + |Restrict(Last(vs).page.notes, sc)|
  {
    assert Answered(w, Last(vs));
  }

  lemma RunAppend(list: seq<NoteSummary>, start: int, a: seq<NoteSummary>, b: seq<NoteSummary>, s: seq<NoteSummary>)
    requires IsRun(a, list, start) && s == a + b
    requires b == [] || IsRun(b, list, start + |a|)
    ensures IsRun(s, list, start)
    ensures |s| == |a| + |b|
  {
    if a == [] {
      assert a + b == b;
    } else if b == [] {
      assert a + b == a;
    } else {
      var n := start + |a|;
      assert list[start..n + |b|] == list[start..n] + list[n..n + |b|];
    }
  }

  lemma DeliveredAppend(vs: seq<Visit>, sc: ScopeID)
    requires vs != []
    ensures Restrict(Delivered(vs), sc) == Restrict(Delivered(vs[..|vs| - 1]), sc) + Restrict(Last(vs).page.notes, sc)
  {
    FilterAppend(Delivered(vs[..|vs| - 1]), Last(vs).page.notes, InScope(sc));
  }

  /** What vs has delivered of sc is a run from the start offset, and the offset is its end. */
  ghost predicate RunSoFar(w: World, vs: seq<Visit>, sc: ScopeID)
    requires vs != [] && sc in w.lists
  {
    var start, got := OffsetAt(vs[0].call.offsets, sc), Restrict(Delivered(vs), sc);
    && IsRun(got, w.lists[sc], start)
    && (sc in Last(vs).call.scopes ==> OffsetAt(Last(vs).page.offsets, sc) == start + |got|)
  }

  lemma RunExtends(w: World, vs: seq<Visit>, sc: ScopeID)
    requires Valid(w) && CleanWindows(w, vs) && Chain(w, vs) && Starts(vs) && sc in w.lists
    requires |vs| > 1 && RunSoFar(w, vs[..|vs| - 1], sc)
    ensures RunSoFar(w, vs, sc)
  {
    var before, got := Restrict(Delivered(vs[..|vs| - 1]), sc), Restrict(Last(vs).page.notes, sc);
    DeliveredAppend(vs, sc);
    LastDelivers(w, vs, sc);
    if sc in Last(vs).call.scopes {
      LastOffset(w, vs, sc);
      OffsetCarried(w, vs, sc);
    }
    RunAppend(w.lists[sc], OffsetAt(vs[0].call.offsets, sc), before, got, Restrict(Delivered(vs), sc));
  }

  lemma RunStarts(w: World, vs: seq<Visit>, sc: ScopeID)
    requires Valid(w) && CleanWindows(w, vs) && Chain(w, vs) && Starts(vs) && sc in w.lists
    requires |vs| == 1
    ensures RunSoFar(w, vs, sc)
  {
    DeliveredAppend(vs, sc);
    LastDelivers(w, vs, sc);
    if sc in Last(vs).call.scopes { LastOffset(w, vs, sc); }
    var got := Restrict(Last(vs).page.notes, sc);
    RunAppend(w.lists[sc], OffsetAt(vs[0].call.offsets, sc), [], got, Restrict(Delivered(vs), sc));
  }

  /** Along any chain, with any scopes failing at any call, any limits and any changes of
      what is allowed, as long as the tombstones of every window come last in it, a scope's
      notes arrive as one contiguous in-order run of its listing
      from its start offset, and its offset is the start plus what was delivered. */
  lemma {:induction false} DeliveredIsRun(w: World, vs: seq<Visit>, sc: ScopeID)
    requires Valid(w) && CleanWindows(w, vs) && Chain(w, vs) && Starts(vs) && sc in w.lists
    ensures RunSoFar(w, vs, sc)
  {
    if |vs| > 1 {
      ChainFront(w, vs);
      DeliveredIsRun(w, vs[..|vs| - 1], sc);
      RunExtends(w, vs, sc);
    } else {
      RunStarts(w, vs, sc);
    }
  }

  lemma {:induction false} NothingElseDelivered(w: World, vs: seq<Visit>, sc: ScopeID)
    requires Valid(w) && Chain(w, vs) && Begins(vs)
    requires sc !in vs[0].call.scopes || sc !in w.lists
    ensures Restrict(Delivered(vs), sc) == []
  {
    var front, last := vs[..|vs| - 1], Last(vs);
    StickyScopes(w, vs);
    DeliveredAppend(vs, sc);
    PageRestricts(w, last.call, last.arrival, last.all, last.page, sc);
    if |vs| > 1 {
      ChainFront(w, vs);
      NothingElseDelivered(w, front, sc);
    } else {
      assert Restrict(Delivered(front), sc) == [];
    }
  }

  // ----- The union of the listings -----

  function Union(w: World, scopes: seq<ScopeID>): seq<NoteSummary> {
    if scopes == [] then []
    else Union(w, scopes[..|scopes| - 1])
         + (if scopes[|scopes| - 1] in w.lists then w.lists[scopes[|scopes| - 1]] else [])
  }

  lemma {:induction false} UnionRestricts(w: World, scopes: seq<ScopeID>, sc: ScopeID)
    requires Valid(w) && NoDuplicates(scopes)
    ensures Restrict(Union(w, scopes), sc) == if sc in scopes && sc in w.lists then w.lists[sc] else []
  {
    if scopes != [] {
      var front, last := scopes[..|scopes| - 1], scopes[|scopes| - 1];
      assert scopes == front + [last];
      UnionRestricts(w, front, sc);
      var list := if last in w.lists then w.lists[last] else [];
      FilterAppend(Union(w, front), list, InScope(sc));
      if last == sc { FilterAll(list, InScope(sc)); } else { FilterNone(list, InScope(sc)); }
    }
  }

  // ----- Chains end -----

  /** A scope delivers no more than its listing holds past the start offset, tombstones or not. */
  ghost predicate CountBounded(w: World, vs: seq<Visit>, sc: ScopeID)
    requires vs != [] && sc in w.lists
  {
    var start, n := OffsetAt(vs[0].call.offsets, sc), |Restrict(Delivered(vs), sc)|;
    && (n > 0 ==> start + n <= |w.lists[sc]|)
    && (sc in Last(vs).call.scopes ==> OffsetAt(Last(vs).page.offsets, sc) == start + n)
  }

  lemma PageCount(w: World, v: Visit, sc: ScopeID)
    requires Valid(w) && Answered(w, v) && NoDuplicates(v.call.scopes) && sc in w.lists
    ensures sc !in v.call.scopes ==> Restrict(v.page.notes, sc) == []
    ensures sc in v.call.scopes ==>
              OffsetAt(v.page.offsets, sc) == OffsetAt(v.call.offsets, sc) + |Restrict(v.page.notes, sc)|
    ensures sc in v.call.scopes && Restrict(v.page.notes, sc) != [] && OffsetAt(v.call.offsets, sc) >= 0 ==>
              OffsetAt(v.page.offsets, sc) <= |w.lists[sc]|
  {
    PageRestricts(w, v.call, v.arrival, v.all, v.page, sc);
    if sc in v.call.scopes && Answers(w, v.call, sc) {
      assert |Contribution(w, v.call, sc)| <= |Fetched(w, v.call, sc)|;
    }
  }

  lemma {:induction false} DeliveredBounded(w: World, vs: seq<Visit>, sc: ScopeID)
    requires Valid(w) && Chain(w, vs) && Starts(vs) && sc in w.lists
    ensures CountBounded(w, vs, sc)
  {
    StickyScopes(w, vs);
    DeliveredAppend(vs, sc);
    PageCount(w, Last(vs), sc);
    if |vs| > 1 {
      ChainFront(w, vs);
      DeliveredBounded(w, vs[..|vs| - 1], sc);
      if sc in Last(vs).call.scopes { OffsetCarried(w, vs, sc); }
    } else {
      assert Restrict(Delivered(vs[..0]), sc) == [];
    }
  }

  function OutOf(sc: ScopeID): NoteSummary -> bool {
    (n: NoteSummary) => n.ref.scope != sc
  }

  lemma {:induction false} RestrictOut(d: seq<NoteSummary>, sc: ScopeID, other: ScopeID)
    ensures Restrict(Filter(d, OutOf(sc)), other) == if other == sc then [] else Restrict(d, other)
  {
    if d != [] {
      RestrictOut(d[1..], sc, other);
      var rest := Filter(d[1..], OutOf(sc));
      if d[0].ref.scope != sc { assert ([d[0]] + rest)[1..] == rest; }
    }
  }

  lemma {:induction false} ScopeSplit(d: seq<NoteSummary>, sc: ScopeID)
    ensures |d| == |Restrict(d, sc)| + |Filter(d, OutOf(sc))|
    ensures forall other :: Restrict(Filter(d, OutOf(sc)), other) == if other == sc then [] else Restrict(d, other)
  {
    if d != [] { ScopeSplit(d[1..], sc); }
    forall other { RestrictOut(d, sc, other); }
  }

  /** Notes of these scopes, no more of each than its listing has, are no more than the union. */
  lemma {:induction false} CountByScope(w: World, d: seq<NoteSummary>, scopes: seq<ScopeID>)
    requires NoDuplicates(scopes)
    requires forall sc :: sc in scopes && sc in w.lists ==> |Restrict(d, sc)| <= |w.lists[sc]|
    requires forall sc :: sc !in scopes || sc !in w.lists ==> Restrict(d, sc) == []
    ensures |d| <= |Union(w, scopes)|
    decreases |scopes|
  {
    if scopes == [] {
      if d != [] {
        var got := Restrict(d, d[0].ref.scope);
        FilterMember(d, InScope(d[0].ref.scope), d[0]);
      }
    } else {
      var front, last := scopes[..|scopes| - 1], scopes[|scopes| - 1];
      assert scopes == front + [last];
      ScopeSplit(d, last);
      CountByScope(w, Filter(d, OutOf(last)), front);
    }
  }

  lemma {:induction false} EveryPageDelivers(w: World, vs: seq<Visit>)
    requires Chain(w, vs)
    requires forall i :: 0 <= i < |vs| ==> vs[i].call.limit >= 1
    ensures |Delivered(vs)| >= |vs| - 1
    ensures vs != [] && Last(vs).page.hasMore ==> |Delivered(vs)| >= |vs|
  {
    if vs != [] {
      var front := vs[..|vs| - 1];
      EveryPageDelivers(w, front);
      assert Answered(w, Last(vs));
      if front != [] {
        assert Follows(Last(front), Last(vs));
      }
    }
  }

  /** Following cursors ends, whatever fails and whatever is tombstoned: no chain has more calls
      than there are notes, plus one. */
  lemma ChainsEnd(w: World, vs: seq<Visit>)
    requires Valid(w) && Chain(w, vs) && Starts(vs)
    requires forall i :: 0 <= i < |vs| ==> vs[i].call.limit >= 1
    ensures |vs| <= |Union(w, vs[0].call.scopes)| + 1
  {
    EveryPageDelivers(w, vs);
    forall sc ensures sc in w.lists ==> |Restrict(Delivered(vs), sc)| <= |w.lists[sc]|
              ensures sc !in vs[0].call.scopes || sc !in w.lists ==> Restrict(Delivered(vs), sc) == []
    {
      if sc in w.lists && sc in vs[0].call.scopes {
        DeliveredBounded(w, vs, sc);
      } else {
        NothingElseDelivered(w, vs, sc);
      }
    }
    CountByScope(w, Delivered(vs), vs[0].call.scopes);
  }

  /** Every call has an answer, whatever fails. */
  lemma PageExists(w: World, c: Call) returns (v: Visit)
    requires Valid(w)
    ensures v.call == c && Answered(w, v)
  {
    var all := SortedExists(w.leq, Gather(w, c, c.scopes));
    var notes := if |all| > c.limit then all[..c.limit] else all;
    var offsets := map sc | sc in c.scopes :: OffsetAt(c.offsets, sc) + |Restrict(notes, sc)|;
    v := Visit(c, c.scopes, all, Page(notes, |all| > c.limit, offsets));
  }

  /** Presenting the cursor of v while nothing has become forbidden. */
  function NextCall(v: Visit, limit: nat): Call {
    Call(v.call.scopes, v.page.offsets, limit, {})
  }

  lemma NextFollows(v: Visit, next: Visit)
    requires v.page.hasMore && next.call.scopes == v.call.scopes && next.call.offsets == v.page.offsets
    ensures Follows(v, next)
  {
    FilterAll(v.call.scopes, MemberOf(ToSet(v.call.scopes)));
    assert next.call.scopes == Sticky(v.call.scopes, ToSet(v.call.scopes));
  }

  /** With limit 0 a call fetches one note of each scope: the one at its offset. */
  predicate HasRest(w: World, c: Call, sc: ScopeID) {
    sc in c.scopes && LiveAt(w, sc, StartOf(c, sc))
  }

  /** The page is then empty, moves no offset, and has more exactly when such a note is live. */
  lemma LimitZeroPage(w: World, v: Visit)
    requires Valid(w) && Answered(w, v) && NoDuplicates(v.call.scopes) && v.call.limit == 0 && v.call.failed == {}
    ensures v.page.notes == []
    ensures forall sc :: sc in v.call.scopes ==> v.page.offsets[sc] == OffsetAt(v.call.offsets, sc)
    ensures v.page.hasMore <==> exists sc :: HasRest(w, v.call, sc)
  {
    if v.page.hasMore {
      var sc := v.all[0].ref.scope;
      MergeRestricts(w, v.call, v.arrival, v.all, v.page, sc);
      FilterMember(v.all, InScope(sc), v.all[0]);
      var i := ContributedFrom(w, v.call, sc, v.all[0]);
      assert HasRest(w, v.call, sc);
    }
    if exists sc :: HasRest(w, v.call, sc) {
      var sc :| HasRest(w, v.call, sc);
      MergeRestricts(w, v.call, v.arrival, v.all, v.page, sc);
      ContributionHolds(w, v.call, sc, StartOf(v.call, sc));
      assert |Restrict(v.all, sc)| <= |v.all|;
    }
  }

  /** A chain of calls with limit 0 in which nothing fails. */
  ghost predicate ZeroChain(w: World, c: Call, vs: seq<Visit>) {
    && Chain(w, vs) && vs != [] && vs[0].call == c
    && forall i :: 0 <= i < |vs| ==> vs[i].call.limit == 0 && vs[i].call.failed == {}
  }

  /** With notes left, the answer to a limit 0 call has a cursor whose answer is its own follower. */
  lemma ZeroLoop(w: World, c: Call) returns (first: Visit, again: Visit)
    requires Valid(w) && NoDuplicates(c.scopes) && c.limit == 0 && c.failed == {}
    requires exists sc :: HasRest(w, c, sc)
    ensures first.call == c && Answered(w, first) && Answered(w, again) && again.call.limit == 0
    ensures again.call.failed == {}
    ensures Follows(first, again) && Follows(again, again)
  {
    first := PageExists(w, c);
    LimitZeroPage(w, first);
    again := PageExists(w, NextCall(first, 0));
    var sc :| HasRest(w, c, sc);
    assert HasRest(w, again.call, sc);
    LimitZeroPage(w, again);
    assert again.page.offsets == again.call.offsets;
    NextFollows(first, again);
    NextFollows(again, again);
  }

  ghost predicate ZeroChainOfLength(w: World, c: Call, n: nat) {
    exists vs :: |vs| == n && ZeroChain(w, c, vs)
  }

  lemma RepeatedChain(w: World, c: Call, first: Visit, again: Visit, n: nat)
    requires first.call == c && Answered(w, first) && Answered(w, again) && Follows(first, again)
    requires Follows(again, again)
    requires c.limit == 0 == again.call.limit && c.failed == {} == again.call.failed && n > 0
    ensures ZeroChainOfLength(w, c, n)
  {
    var vs := [first] + seq(n - 1, _ => again);
    assert forall i :: 0 < i < n ==> vs[i] == again;
    assert ZeroChain(w, c, vs);
  }

  lemma NothingLeftEnds(w: World, c: Call, vs: seq<Visit>)
    requires Valid(w) && NoDuplicates(c.scopes)
    requires ZeroChain(w, c, vs) && forall sc :: !HasRest(w, c, sc)
    ensures |vs| == 1
  {
    assert |vs| > 1 ==> Follows(vs[0], vs[1]);
    assert Answered(w, vs[0]);
    LimitZeroPage(w, vs[0]);
  }

  /** Limit 0 is where following cursors need not end: chains of every length exist if and only
      if the note at some scope's offset is live. */
  lemma LimitZeroStallsIff(w: World, c: Call)
    requires Valid(w) && NoDuplicates(c.scopes) && c.limit == 0 && c.failed == {}
    ensures (forall n: nat :: n > 0 ==> ZeroChainOfLength(w, c, n)) <==> exists sc :: HasRest(w, c, sc)
  {
    if exists sc :: HasRest(w, c, sc) {
      var first, again := ZeroLoop(w, c);
      forall n: nat | n > 0 ensures ZeroChainOfLength(w, c, n) { RepeatedChain(w, c, first, again, n); }
    } else if ZeroChainOfLength(w, c, 2) {
      var vs :| |vs| == 2 && ZeroChain(w, c, vs);
      NothingLeftEnds(w, c, vs);
    }
  }
}
